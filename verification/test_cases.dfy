/** The cases of spec/Game.test.js and two end-to-end games, as lemmas about
    the model. Boards are written row by row as in the test helper
    `gameWithState`: `x` and `o` for marks, `e` for EMPTY.
 */
module GameExamples {
  import opened Utils
  import opened Constants
  import opened Board
  import opened WinSearch
  import opened GameState

  const x := Mark(X)
  const o := Mark(O)
  const e := Empty

  /** A line's two neighbours are two steps apart in some direction, so no
      line fits in a two-by-two window holding all of a board's marks. */
  lemma NoLineInTwoByTwo(b: Grid, n: nat, r0: int, c0: int)
    requires IsSquare(b, n)
    requires forall q: Pos :: InBounds(n, q) && At(b, n, q) != Empty ==> r0 <= q.row <= r0 + 1 && c0 <= q.col <= c0 + 1
    ensures !HasLine(b, n)
  {
    forall p: Pos, k: nat | k < Axes
      ensures !LineAt(b, n, p, k)
    {
      WinningLinesDeltasShape();
    }
  }

  /** A 3-by-3 board whose marks all lie in its top-left two-by-two corner
      holds no line. */
  lemma TopLeftMarksMakeNoLine(b: Grid)
    requires IsSquare(b, 3) && b[2] == [e, e, e] && b[0][2] == e && b[1][2] == e
    ensures !HasLine(b, 3)
  {
    forall q: Pos | InBounds(3, q) && At(b, 3, q) != Empty
      ensures 0 <= q.row <= 1 && 0 <= q.col <= 1
    {
    }
    NoLineInTwoByTwo(b, 3, 0, 0);
  }

  // ---------------------------------------------------------------------
  // spec/Game.test.js

  lemma EmptyBoardHasNoWinner()
    ensures IsSquare([[e, e, e], [e, e, e], [e, e, e]], 3)
    ensures FindWinner([[e, e, e], [e, e, e], [e, e, e]], 3).None?
  {
    var b := [[e, e, e], [e, e, e], [e, e, e]];
    assert forall p: Pos :: InBounds(3, p) ==> At(b, 3, p) == Empty;
    assert !HasLine(b, 3);
  }

  lemma VerticalLineWins()
    ensures IsSquare([[e, x, e], [e, x, e], [e, x, e]], 3)
    ensures FindWinner([[e, x, e], [e, x, e], [e, x, e]], 3).Some?
  {
    assert LineAt([[e, x, e], [e, x, e], [e, x, e]], 3, Pos(1, 1), 1);
  }

  lemma HorizontalLineWins()
    ensures IsSquare([[x, x, x], [e, e, e], [e, e, e]], 3)
    ensures FindWinner([[x, x, x], [e, e, e], [e, e, e]], 3).Some?
  {
    assert LineAt([[x, x, x], [e, e, e], [e, e, e]], 3, Pos(0, 1), 0);
  }

  lemma DiagonalWins()
    ensures IsSquare([[x, e, e], [e, x, e], [e, e, x]], 3)
    ensures FindWinner([[x, e, e], [e, x, e], [e, e, x]], 3).Some?
  {
    assert LineAt([[x, e, e], [e, x, e], [e, e, x]], 3, Pos(1, 1), 2);
  }

  lemma AntiDiagonalWins()
    ensures IsSquare([[e, e, x], [e, x, e], [x, e, e]], 3)
    ensures FindWinner([[e, e, x], [e, x, e], [x, e, e]], 3).Some?
  {
    assert LineAt([[e, e, x], [e, x, e], [x, e, e]], 3, Pos(1, 1), 3);
  }

  lemma TwoByTwoBlockDoesNotWin()
    ensures IsSquare([[x, x, e], [x, x, e], [e, e, e]], 3)
    ensures FindWinner([[x, x, e], [x, x, e], [e, e, e]], 3).None?
  {
    TopLeftMarksMakeNoLine([[x, x, e], [x, x, e], [e, e, e]]);
  }

  lemma InterspersedLineWins()
    ensures IsSquare([[x, o, e], [o, x, o], [e, o, x]], 3)
    ensures FindWinner([[x, o, e], [o, x, o], [e, o, x]], 3).Some?
  {
    assert LineAt([[x, o, e], [o, x, o], [e, o, x]], 3, Pos(1, 1), 2);
  }

  lemma BiggerBoardWins()
    ensures IsSquare([[e, e, e, e, e], [e, x, x, x, e], [e, e, e, e, e], [e, e, e, e, e], [e, e, e, e, e]], 5)
    ensures FindWinner([[e, e, e, e, e], [e, x, x, x, e], [e, e, e, e, e], [e, e, e, e, e], [e, e, e, e, e]], 5).Some?
  {
    assert LineAt([[e, e, e, e, e], [e, x, x, x, e], [e, e, e, e, e], [e, e, e, e, e], [e, e, e, e, e]], 5, Pos(1, 2), 0);
  }

  lemma LongerRunWins()
    ensures IsSquare([[e, e, e, e, e], [x, x, x, x, x], [e, e, e, e, e], [e, e, e, e, e], [e, e, e, e, e]], 5)
    ensures FindWinner([[e, e, e, e, e], [x, x, x, x, x], [e, e, e, e, e], [e, e, e, e, e], [e, e, e, e, e]], 5).Some?
  {
    var b := [[e, e, e, e, e], [x, x, x, x, x], [e, e, e, e, e], [e, e, e, e, e], [e, e, e, e, e]];
    FullRowWins(b, 5, 1, X);
  }

  /** A row filled with one player's marks, on a board at least three wide,
      is found. */
  lemma FullRowWins(b: Grid, n: nat, r: int, m: Player)
    requires IsSquare(b, n) && 3 <= n && 0 <= r < n
    requires forall j :: 0 <= j < n ==> b[r][j] == Mark(m)
    ensures FindWinner(b, n).Some?
  {
    RowRun(b, n, r, 0, m, n);
    assert WinningLinesDeltas[0].second == Delta(0, 1);
    LongRunIsFound(b, n, Pos(r, 0), 0, m, n);
  }

  /** `len` equal marks side by side in one row, starting at column `c`,
      are a run stepping to the right. */
  lemma {:induction false} RowRun(b: Grid, n: nat, r: int, c: int, m: Player, len: nat)
    requires IsSquare(b, n) && 0 <= r < n && 0 <= c && c + len <= n
    requires forall j :: c <= j < c + len ==> b[r][j] == Mark(m)
    ensures Run(b, n, Pos(r, c), Delta(0, 1), m, len)
    decreases len
  {
    if len > 0 {
      RowRun(b, n, r, c + 1, m, len - 1);
      assert Step(Pos(r, c), Delta(0, 1)) == Pos(r, c + 1);
    }
  }

  // ---------------------------------------------------------------------
  // End-to-end games

  /** A full board without a line: X O X / X O O / O X X. */
  const FullNoLine: Grid := [[x, o, x], [x, o, o], [o, x, x]]

  lemma FullNoLineRow(r: int, k: nat)
    requires 0 <= r < 3 && k < Axes
    ensures !LineAt(FullNoLine, 3, Pos(r, 0), k)
    ensures !LineAt(FullNoLine, 3, Pos(r, 1), k)
    ensures !LineAt(FullNoLine, 3, Pos(r, 2), k)
  {
    var b := FullNoLine;
    assert b[0] == [x, o, x] && b[1] == [x, o, o] && b[2] == [o, x, x];
    var a := WinningLinesDeltas[k];
    if k == 0 {
      assert a == Axis(Delta(0, -1), Delta(0, 1));
    } else if k == 1 {
      assert a == Axis(Delta(-1, 0), Delta(1, 0));
    } else if k == 2 {
      assert a == Axis(Delta(-1, -1), Delta(1, 1));
    } else {
      assert a == Axis(Delta(1, -1), Delta(-1, 1));
    }
  }

  lemma FullNoLineHasNoLine()
    ensures IsSquare(FullNoLine, 3) && Full(FullNoLine, 3) && !HasLine(FullNoLine, 3)
  {
    forall p: Pos, k: nat | k < Axes
      ensures !LineAt(FullNoLine, 3, p, k)
    {
      if InBounds(3, p) {
        FullNoLineRow(p.row, k);
        assert p == Pos(p.row, 0) || p == Pos(p.row, 1) || p == Pos(p.row, 2);
      }
    }
  }

  /** The game has no draw: with the board full and no line, the game is
      not over, and every click is ignored. */
  lemma NoDrawOnFullBoard(g: Game, pos: Pos)
    requires g.size == 3 && g.cells == FullNoLine && g.winner == None && InBounds(3, pos)
    ensures WellFormed(g) && !IsGameOver(g) && FillCell(g, pos) == g
  {
    FullNoLineHasNoLine();
  }

  /** Clicks on the given cells, one after the other. */
  function Play(g: Game, clicks: seq<Pos>): (r: Game)
    requires WellFormed(g) && forall i :: 0 <= i < |clicks| ==> InBounds(g.size, clicks[i])
    ensures WellFormed(r) && r.size == g.size
    decreases |clicks|
  {
    if |clicks| == 0 then g else Play(FillCell(g, clicks[0]), clicks[1..])
  }

  /** A click that places a mark without making a line: the board becomes
      `after`, the game goes on with the other player, and one snapshot is
      added. */
  lemma QuietMove(g: Game, pos: Pos, before: Grid, after: Grid)
    requires Valid(g) && g.cells == before && InBounds(g.size, pos) && CanFill(g, pos)
    requires after == Place(before, g.size, pos, Mark(g.nextPlayer)) && !HasLine(after, g.size)
    ensures WellFormed(g)
    ensures var r := FillCell(g, pos);
      && Valid(r) && r.size == g.size && r.cells == after && r.winner == None
      && r.nextPlayer == Other(g.nextPlayer) && |r.history| == |g.history| + 1
  {
    FillCellValid(g, pos);
    SameCells(FillCell(g, pos).cells, after, g.size);
  }

  /** A click that completes a line: the board becomes `after`, the mover
      wins and one snapshot is added. */
  lemma WinningMove(g: Game, pos: Pos, before: Grid, after: Grid)
    requires Valid(g) && g.cells == before && InBounds(g.size, pos) && CanFill(g, pos)
    requires after == Place(before, g.size, pos, Mark(g.nextPlayer)) && HasLine(after, g.size)
    ensures WellFormed(g)
    ensures var r := FillCell(g, pos);
      && r.cells == after && r.winner == Some(g.nextPlayer) && |r.history| == |g.history| + 1
  {
    WinnerIsMover(g, pos);
    SameCells(FillCell(g, pos).cells, after, g.size);
  }

  /** X plays (0,0), (0,1), (0,2) while O plays (1,1), (1,0): after the
      fifth click X has won with the line centred at (0,1), reported centre
      first, and the history holds six snapshots. */
  lemma TopRowGame()
    ensures var g := Play(Init(3), [Pos(0, 0), Pos(1, 1), Pos(0, 1), Pos(1, 0), Pos(0, 2)]);
      && g.cells == [[x, x, x], [o, o, e], [e, e, e]]
      && g.winner == Some(X)
      && FindWinner(g.cells, 3) == Some(WinningLine(X, [Pos(0, 1), Pos(0, 0), Pos(0, 2)]))
      && |g.history| == 6
  {
    var g0 := Init(3);
    InitValid(3);
    SameCells(g0.cells, [[e, e, e], [e, e, e], [e, e, e]], 3);
    var g4 := FourQuietMoves(g0);
    var g5 := XCompletesTopRow(g4);
    TopRowLine();
    PlayFive(g0, Pos(0, 0), Pos(1, 1), Pos(0, 1), Pos(1, 0), Pos(0, 2));
  }

  /** X completes the top row and wins. */
  lemma XCompletesTopRow(g: Game) returns (r: Game)
    requires Valid(g) && g.size == 3 && g.cells == [[x, x, e], [o, o, e], [e, e, e]]
    requires g.nextPlayer == X && g.winner == None
    ensures WellFormed(g) && r == FillCell(g, Pos(0, 2))
    ensures r.cells == [[x, x, x], [o, o, e], [e, e, e]]
    ensures r.winner == Some(X) && |r.history| == |g.history| + 1
  {
    var after := [[x, x, x], [o, o, e], [e, e, e]];
    assert g.cells[0][2 := x] == after[0];
    assert LineAt(after, 3, Pos(0, 1), 0);
    WinningMove(g, Pos(0, 2), g.cells, after);
    r := FillCell(g, Pos(0, 2));
  }

  /** The first four clicks of `TopRowGame` leave X X . / O O . / . . . with
      X to move and no winner. */
  lemma FourQuietMoves(g0: Game) returns (g4: Game)
    requires Valid(g0) && g0.size == 3 && g0.cells == [[e, e, e], [e, e, e], [e, e, e]]
    requires g0.nextPlayer == X && g0.winner == None
    ensures WellFormed(g0)
    ensures g4 == FillCell(FillCell(FillCell(FillCell(g0, Pos(0, 0)), Pos(1, 1)), Pos(0, 1)), Pos(1, 0))
    ensures Valid(g4) && g4.size == 3 && g4.cells == [[x, x, e], [o, o, e], [e, e, e]]
    ensures g4.nextPlayer == X && g4.winner == None && |g4.history| == |g0.history| + 4
  {
    var g1 := XTakesCorner(g0);
    var g2 := OTakesCentre(g1);
    var g3 := XTakesTopMiddle(g2);
    g4 := OTakesMiddleLeft(g3);
  }

  /** X opens in the top-left corner. */
  lemma XTakesCorner(g: Game) returns (r: Game)
    requires Valid(g) && g.size == 3 && g.cells == [[e, e, e], [e, e, e], [e, e, e]]
    requires g.nextPlayer == X && g.winner == None
    ensures WellFormed(g) && r == FillCell(g, Pos(0, 0))
    ensures Valid(r) && r.size == 3 && r.cells == [[x, e, e], [e, e, e], [e, e, e]]
    ensures r.nextPlayer == O && r.winner == None && |r.history| == |g.history| + 1
  {
    var after := [[x, e, e], [e, e, e], [e, e, e]];
    assert g.cells[0][0 := x] == after[0];
    TopLeftMarksMakeNoLine(after);
    QuietMove(g, Pos(0, 0), g.cells, after);
    r := FillCell(g, Pos(0, 0));
  }

  /** O answers in the centre. */
  lemma OTakesCentre(g: Game) returns (r: Game)
    requires Valid(g) && g.size == 3 && g.cells == [[x, e, e], [e, e, e], [e, e, e]]
    requires g.nextPlayer == O && g.winner == None
    ensures WellFormed(g) && r == FillCell(g, Pos(1, 1))
    ensures Valid(r) && r.size == 3 && r.cells == [[x, e, e], [e, o, e], [e, e, e]]
    ensures r.nextPlayer == X && r.winner == None && |r.history| == |g.history| + 1
  {
    var after := [[x, e, e], [e, o, e], [e, e, e]];
    assert g.cells[1][1 := o] == after[1];
    TopLeftMarksMakeNoLine(after);
    QuietMove(g, Pos(1, 1), g.cells, after);
    r := FillCell(g, Pos(1, 1));
  }

  /** X takes the top middle cell. */
  lemma XTakesTopMiddle(g: Game) returns (r: Game)
    requires Valid(g) && g.size == 3 && g.cells == [[x, e, e], [e, o, e], [e, e, e]]
    requires g.nextPlayer == X && g.winner == None
    ensures WellFormed(g) && r == FillCell(g, Pos(0, 1))
    ensures Valid(r) && r.size == 3 && r.cells == [[x, x, e], [e, o, e], [e, e, e]]
    ensures r.nextPlayer == O && r.winner == None && |r.history| == |g.history| + 1
  {
    var after := [[x, x, e], [e, o, e], [e, e, e]];
    assert g.cells[0][1 := x] == after[0];
    TopLeftMarksMakeNoLine(after);
    QuietMove(g, Pos(0, 1), g.cells, after);
    r := FillCell(g, Pos(0, 1));
  }

  /** O takes the middle-left cell. */
  lemma OTakesMiddleLeft(g: Game) returns (r: Game)
    requires Valid(g) && g.size == 3 && g.cells == [[x, x, e], [e, o, e], [e, e, e]]
    requires g.nextPlayer == O && g.winner == None
    ensures WellFormed(g) && r == FillCell(g, Pos(1, 0))
    ensures Valid(r) && r.size == 3 && r.cells == [[x, x, e], [o, o, e], [e, e, e]]
    ensures r.nextPlayer == X && r.winner == None && |r.history| == |g.history| + 1
  {
    var after := [[x, x, e], [o, o, e], [e, e, e]];
    assert g.cells[1][0 := o] == after[1];
    TopLeftMarksMakeNoLine(after);
    QuietMove(g, Pos(1, 0), g.cells, after);
    r := FillCell(g, Pos(1, 0));
  }

  lemma PlayFive(g: Game, p1: Pos, p2: Pos, p3: Pos, p4: Pos, p5: Pos)
    requires WellFormed(g)
    requires InBounds(g.size, p1) && InBounds(g.size, p2) && InBounds(g.size, p3)
    requires InBounds(g.size, p4) && InBounds(g.size, p5)
    ensures Play(g, [p1, p2, p3, p4, p5])
            == FillCell(FillCell(FillCell(FillCell(FillCell(g, p1), p2), p3), p4), p5)
  {
    var g1 := FillCell(g, p1);
    var g2 := FillCell(g1, p2);
    var g3 := FillCell(g2, p3);
    var g4 := FillCell(g3, p4);
    assert [p1, p2, p3, p4, p5][1..] == [p2, p3, p4, p5];
    assert [p2, p3, p4, p5][1..] == [p3, p4, p5];
    assert [p3, p4, p5][1..] == [p4, p5];
    assert [p4, p5][1..] == [p5];
    assert Play(g4, [p5]) == FillCell(g4, p5);
    assert Play(g3, [p4, p5]) == Play(g4, [p5]);
    assert Play(g2, [p3, p4, p5]) == Play(g3, [p4, p5]);
    assert Play(g1, [p2, p3, p4, p5]) == Play(g2, [p3, p4, p5]);
  }

  /** On X X X / O O . / . . . the search reports the line centred at (0,1):
      (0,0) comes first in row-major order but has no neighbours to its left
      or above. */
  lemma TopRowLine()
    ensures FindWinner([[x, x, x], [o, o, e], [e, e, e]], 3) == Some(WinningLine(X, [Pos(0, 1), Pos(0, 0), Pos(0, 2)]))
  {
    var b := [[x, x, x], [o, o, e], [e, e, e]];
    CornerCentresNoLine(b);
    var w := CentreOfTopRow(b);
    forall q: Pos | InBounds(3, q) && Before(q, Pos(0, 1))
      ensures FindWinningLine(b, 3, q).None?
    {
      assert q == Pos(0, 0);
    }
    FindWinnerAtFirstCentre(b, 3, Pos(0, 1));
  }

  /** No line is centred on the top-left corner. */
  lemma CornerCentresNoLine(b: Grid)
    requires IsSquare(b, 3)
    ensures FindWinningLine(b, 3, Pos(0, 0)).None?
  {
    forall k: nat | k < Axes
      ensures !LineAt(b, 3, Pos(0, 0), k)
    {
      CornerAxis(b, k);
    }
  }

  lemma CornerAxis(b: Grid, k: nat)
    requires IsSquare(b, 3) && k < Axes
    ensures !LineAt(b, 3, Pos(0, 0), k)
  {
    var a := WinningLinesDeltas[k];
    if k == 0 {
      assert a.first == Delta(0, -1);
    } else if k == 1 {
      assert a.first == Delta(-1, 0);
    } else if k == 2 {
      assert a.first == Delta(-1, -1);
    } else {
      assert a.first == Delta(1, -1);
    }
  }

  lemma CentreOfTopRow(b: Grid) returns (w: WinningLine)
    requires b == [[x, x, x], [o, o, e], [e, e, e]]
    ensures FindWinningLine(b, 3, Pos(0, 1)) == Some(w)
    ensures w == WinningLine(X, [Pos(0, 1), Pos(0, 0), Pos(0, 2)])
  {
    assert LineAt(b, 3, Pos(0, 1), 0);
    w := FindWinningLine(b, 3, Pos(0, 1)).value;
    var k: nat :| FirstAxis(b, 3, Pos(0, 1), k) && w == LineThrough(X, Pos(0, 1), k);
    assert k == 0;
  }
}
