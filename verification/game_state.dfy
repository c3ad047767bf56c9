/** The game state machine of src/Game.js and src/BoardCell.js: the live
    state (cells, next player, winner), a click on a cell (`fillCell`, then
    `advanceTurn`, then `addCurrentStateToHistory`) and time travel
    (`resetToState`). The reflective setters are plain field updates here.
 */
module GameState {
  import opened Utils
  import opened Constants
  import opened Board
  import opened WinSearch

  /** One history entry: `{cellStateMatrix, nextPlayer, winner, stepNumber}`. */
  datatype Snapshot = Snapshot(cells: Grid, nextPlayer: Player, winner: Option<Player>, stepNumber: nat)

  /** A `Game`: its size, the states of its cells, whose turn it is, the
      winner (`null` while the game is on) and the history. */
  datatype Game = Game(size: nat, cells: Grid, nextPlayer: Player, winner: Option<Player>, history: seq<Snapshot>)

  predicate WellFormed(g: Game)
  {
    IsSquare(g.cells, g.size)
  }

  /** `isGameOver`: some player is the winner. */
  predicate IsGameOver(g: Game): (r: bool)
    ensures r <==> exists p: Player :: g.winner == Some(p)
  {
    g.winner.Some?
  }

  /** `s` holds the cells, next player and winner of `g`. */
  predicate Records(s: Snapshot, g: Game)
  {
    s.cells == g.cells && s.nextPlayer == g.nextPlayer && s.winner == g.winner
  }

  // ---------------------------------------------------------------------
  // Operations

  /** `addCurrentStateToHistory`: one snapshot of the live state is appended,
      numbered with the old history length; nothing else changes. */
  function AddCurrentStateToHistory(g: Game): (r: Game)
    ensures r.(history := g.history) == g
    ensures |r.history| == |g.history| + 1 && r.history[..|g.history|] == g.history
    ensures Records(r.history[|g.history|], g) && r.history[|g.history|].stepNumber == |g.history|
  {
    var cellStateMatrix := seq(|g.cells|, i requires 0 <= i < |g.cells| => g.cells[i]);
    g.(history := g.history + [Snapshot(cellStateMatrix, g.nextPlayer, g.winner, |g.history|)])
  }

  /** The `Game` constructor: `size` by `size` EMPTY cells, no winner, X to
      play, and a history holding the initial state as step 0. */
  function Init(size: nat): (g: Game)
    ensures WellFormed(g) && g.size == size
    ensures forall p :: InBounds(size, p) ==> At(g.cells, size, p) == Empty
    ensures g.winner == None && g.nextPlayer == X
    ensures |g.history| == 1 && g.history[0].stepNumber == 0 && Records(g.history[0], g)
  {
    AddCurrentStateToHistory(Game(size, EmptyGrid(size), X, None, []))
  }

  /** `endGame` without its highlighting: the line's player becomes the
      winner, so the game is over. */
  function EndGame(g: Game, line: WinningLine): (r: Game)
    ensures IsGameOver(r) && r.winner.value == line.player
    ensures r.(winner := g.winner) == g
  {
    g.(winner := Some(line.player))
  }

  /** `advanceTurn`: the other player is next, even after a winning move;
      if the board holds a line, its player becomes the winner, otherwise the
      winner is left as it was. */
  function AdvanceTurn(g: Game): (r: Game)
    requires WellFormed(g)
    ensures r.(nextPlayer := g.nextPlayer, winner := g.winner) == g
    ensures r.nextPlayer == Other(g.nextPlayer)
    ensures !HasLine(g.cells, g.size) ==> r.winner == g.winner
    ensures HasLine(g.cells, g.size) ==> r.winner == Some(FindWinner(g.cells, g.size).value.player)
    ensures HasLine(g.cells, g.size) ==>
              r.winner.Some? && exists p: Pos, k: nat :: k < Axes && LineAt(g.cells, g.size, p, k)
                                                         && At(g.cells, g.size, p) == Mark(r.winner.value)
  {
    var g' := g.(nextPlayer := if g.nextPlayer == X then O else X);
    var winningNeighbors := FindWinner(g'.cells, g'.size);
    if winningNeighbors.Some? then
      ghost var p: Pos :| FirstCentre(g.cells, g.size, p) && FindWinningLine(g.cells, g.size, p) == winningNeighbors;
      assert exists k: nat :: FirstAxis(g.cells, g.size, p, k);
      EndGame(g', winningNeighbors.value)
    else g'
  }

  /** A click on the cell at `pos` is not ignored by `fillCell`. */
  predicate CanFill(g: Game, pos: Pos)
    requires WellFormed(g) && InBounds(g.size, pos)
  {
    !IsGameOver(g) && At(g.cells, g.size, pos) == Empty
  }

  /** `fillCell`: ignored once the game is over or on a filled cell;
      otherwise the cell gets the next player's mark and no other cell
      changes, the turn advances, and exactly one snapshot is appended. */
  function FillCell(g: Game, pos: Pos): (r: Game)
    requires WellFormed(g) && InBounds(g.size, pos)
    ensures WellFormed(r) && r.size == g.size
    ensures !CanFill(g, pos) ==> r == g
    ensures CanFill(g, pos) ==>
              && At(r.cells, r.size, pos) == Mark(g.nextPlayer)
              && (forall q :: InBounds(g.size, q) && q != pos ==> At(r.cells, r.size, q) == At(g.cells, g.size, q))
              && r.nextPlayer == Other(g.nextPlayer)
              && (r.winner.Some? <==> HasLine(r.cells, r.size))
              && |r.history| == |g.history| + 1 && r.history[..|g.history|] == g.history
              && Records(r.history[|g.history|], r) && r.history[|g.history|].stepNumber == |g.history|
  {
    if IsGameOver(g) then g
    else if g.cells[pos.row][pos.col] != Empty then g
    else
      var filled := g.(cells := Place(g.cells, g.size, pos, Mark(g.nextPlayer)));
      AddCurrentStateToHistory(AdvanceTurn(filled))
  }

  /** `resetToState(pastState)`: allowed even when the game is over; the
      snapshot's cells, next player and winner become the live state, and
      the history keeps its first `stepNumber + 1` entries (all of them if it
      is shorter, as `slice` does). */
  function ResetToState(g: Game, s: Snapshot): (r: Game)
    requires WellFormed(g) && IsSquare(s.cells, g.size)
    ensures r.size == g.size && Records(s, r)
    ensures s.stepNumber < |g.history| ==> r.history == g.history[..s.stepNumber + 1]
    ensures s.stepNumber >= |g.history| ==> r.history == g.history
  {
    var n := g.size;
    var cells := seq(n, i requires 0 <= i < n => seq(n, j requires 0 <= j < n => s.cells[i][j]));
    assert cells == s.cells by {
      forall i | 0 <= i < n
        ensures cells[i] == s.cells[i]
      {
        assert |cells[i]| == |s.cells[i]|;
      }
    }
    var end := s.stepNumber + 1;
    var truncatedHistory := g.history[..if end <= |g.history| then end else |g.history|];
    Game(n, cells, s.nextPlayer, s.winner, DeepCopyArray(truncatedHistory))
  }

  /** A click on the `k`-th board of the history list: the live state
      becomes the one that board shows, and the history keeps the entries
      up to it when it is numbered by its position. */
  function Reset(g: Game, k: nat): (r: Game)
    requires WellFormed(g) && k < |g.history| && IsSquare(g.history[k].cells, g.size)
    ensures WellFormed(r) && r.size == g.size && Records(g.history[k], r)
    ensures g.history[k].stepNumber == k ==> r.history == g.history[..k + 1]
  {
    ResetToState(g, g.history[k])
  }

  // ---------------------------------------------------------------------
  // The invariant of reachable states

  /** What holds of every recorded state: X and O alternate starting with X,
      so there are as many X's as O's when X is next and one more X when O
      is next; the winner is set exactly when the board holds a line; and
      a winner is the player who moved last and owns every line. */
  ghost predicate Consistent(n: nat, cells: Grid, nextPlayer: Player, winner: Option<Player>)
  {
    && IsSquare(cells, n)
    && Count(cells, Mark(X)) == Count(cells, Mark(O)) + (if nextPlayer == X then 0 else 1)
    && (winner.None? <==> !HasLine(cells, n))
    && (winner.Some? ==>
          && nextPlayer == Other(winner.value)
          && forall p: Pos, k: nat :: k < Axes && LineAt(cells, n, p, k) ==> At(cells, n, p) == Mark(winner.value))
  }

  ghost predicate ConsistentSnapshot(n: nat, s: Snapshot)
  {
    Consistent(n, s.cells, s.nextPlayer, s.winner)
  }

  /** Every history entry is numbered by its position and is consistent, and
      the live state is the one the last entry records. */
  ghost predicate Valid(g: Game)
  {
    && |g.history| > 0
    && (forall i :: 0 <= i < |g.history| ==> g.history[i].stepNumber == i && ConsistentSnapshot(g.size, g.history[i]))
    && Records(g.history[|g.history| - 1], g)
  }

  lemma ValidConsistent(g: Game)
    requires Valid(g)
    ensures WellFormed(g) && Consistent(g.size, g.cells, g.nextPlayer, g.winner)
    ensures forall k :: 0 <= k < |g.history| ==> IsSquare(g.history[k].cells, g.size)
  {
    assert ConsistentSnapshot(g.size, g.history[|g.history| - 1]);
  }

  /** The initial state satisfies the invariant. */
  lemma InitValid(size: nat)
    ensures Valid(Init(size))
  {
    var g := Init(size);
    EmptyGridCounts(size);
    assert !HasLine(g.cells, size) by {
      forall p: Pos, k: nat | k < Axes
        ensures !LineAt(g.cells, size, p, k)
      {
      }
    }
    assert ConsistentSnapshot(size, g.history[0]);
  }

  /** A successful move on a consistent state leaves a consistent state, and
      any winner it produces is the player who just moved. */
  lemma MoveConsistent(g: Game, pos: Pos)
    requires WellFormed(g) && InBounds(g.size, pos) && CanFill(g, pos)
    requires Consistent(g.size, g.cells, g.nextPlayer, g.winner)
    ensures var r := FillCell(g, pos);
      && Consistent(r.size, r.cells, r.nextPlayer, r.winner)
      && (r.winner.Some? ==> r.winner.value == g.nextPlayer)
  {
    var n := g.size;
    var m := g.nextPlayer;
    var r := FillCell(g, pos);
    var cells := Place(g.cells, n, pos, Mark(m));
    assert r.cells == cells;
    PlaceCounts(g.cells, n, pos, m);
    assert !HasLine(g.cells, n);
    forall p: Pos, k: nat | k < Axes && LineAt(cells, n, p, k)
      ensures At(cells, n, p) == Mark(m)
    {
      NewLinesPassThroughMove(g.cells, n, pos, m, p, k);
    }
    if r.winner.Some? {
      var p: Pos, k: nat :| k < Axes && LineAt(cells, n, p, k) && At(cells, n, p) == Mark(r.winner.value);
      assert r.winner.value == m;
    }
  }

  /** Moves preserve the invariant. */
  lemma FillCellValid(g: Game, pos: Pos)
    requires Valid(g) && InBounds(g.size, pos)
    ensures WellFormed(g) && Valid(FillCell(g, pos))
  {
    ValidConsistent(g);
    if CanFill(g, pos) {
      var r := FillCell(g, pos);
      MoveConsistent(g, pos);
      var h := g.history;
      forall i | 0 <= i < |r.history|
        ensures r.history[i].stepNumber == i && ConsistentSnapshot(r.size, r.history[i])
      {
        if i < |h| {
          assert r.history[i] == r.history[..|h|][i] == h[i];
        }
      }
    }
  }

  /** Jumping to a recorded snapshot preserves the invariant, and the history
      becomes entries 0..k. */
  lemma ResetValid(g: Game, k: nat)
    requires Valid(g) && k < |g.history|
    ensures WellFormed(g) && IsSquare(g.history[k].cells, g.size)
    ensures Valid(Reset(g, k)) && Reset(g, k).history == g.history[..k + 1]
  {
    ValidConsistent(g);
    var r := Reset(g, k);
    assert r.history == g.history[..k + 1];
    assert r.history[k] == g.history[k];
  }

  // ---------------------------------------------------------------------
  // Properties of reachable states

  /** Starting from the initial state, the game is over exactly when the
      board holds a line, and the winner owns every line on the board. */
  lemma WinnerIffLine(g: Game)
    requires Valid(g)
    ensures WellFormed(g)
    ensures IsGameOver(g) <==> HasLine(g.cells, g.size)
    ensures IsGameOver(g) ==> forall p: Pos, k: nat :: k < Axes && LineAt(g.cells, g.size, p, k) ==>
                                At(g.cells, g.size, p) == Mark(g.winner.value)
  {
    ValidConsistent(g);
  }

  /** A winner set by a move is the player who made it. */
  lemma WinnerIsMover(g: Game, pos: Pos)
    requires Valid(g) && InBounds(g.size, pos)
    ensures WellFormed(g)
    ensures var r := FillCell(g, pos);
              CanFill(g, pos) && r.winner.Some? ==> r.winner.value == g.nextPlayer
  {
    ValidConsistent(g);
    if CanFill(g, pos) {
      MoveConsistent(g, pos);
    }
  }

  /** X and O alternate: `nextPlayer` says whether there are as many X's as
      O's or one more X. */
  lemma TurnBalance(g: Game)
    requires Valid(g)
    ensures g.nextPlayer == X ==> Count(g.cells, Mark(X)) == Count(g.cells, Mark(O))
    ensures g.nextPlayer == O ==> Count(g.cells, Mark(X)) == Count(g.cells, Mark(O)) + 1
  {
    ValidConsistent(g);
  }

  /** A successful move fills exactly one more cell. */
  lemma FillCellCounts(g: Game, pos: Pos)
    requires WellFormed(g) && InBounds(g.size, pos) && CanFill(g, pos)
    ensures Count(FillCell(g, pos).cells, Empty) + 1 == Count(g.cells, Empty)
    ensures Count(FillCell(g, pos).cells, Mark(g.nextPlayer)) == Count(g.cells, Mark(g.nextPlayer)) + 1
  {
    PlaceCounts(g.cells, g.size, pos, g.nextPlayer);
  }

  /** There is no draw: on a full board every click is ignored, and a full
      board without a line leaves the game running. */
  lemma FullBoardIgnoresClicks(g: Game, pos: Pos)
    requires Valid(g) && InBounds(g.size, pos) && Full(g.cells, g.size)
    ensures WellFormed(g) && FillCell(g, pos) == g
    ensures !HasLine(g.cells, g.size) ==> !IsGameOver(g)
  {
    ValidConsistent(g);
  }

  /** Jumping to the last snapshot changes nothing. */
  lemma ResetToLastIsIdentity(g: Game)
    requires Valid(g)
    ensures WellFormed(g) && IsSquare(g.history[|g.history| - 1].cells, g.size)
    ensures Reset(g, |g.history| - 1) == g
  {
    ValidConsistent(g);
    assert g.history[..|g.history|] == g.history;
  }

  /** Jumping back to snapshot k and then moving leaves entries 0..k as they
      were and one new entry after them. */
  lemma ResetThenMove(g: Game, k: nat, pos: Pos)
    requires Valid(g) && k < |g.history| && InBounds(g.size, pos)
    ensures WellFormed(g) && IsSquare(g.history[k].cells, g.size)
    ensures var r := Reset(g, k);
      CanFill(r, pos) ==>
        && |FillCell(r, pos).history| == k + 2
        && FillCell(r, pos).history[..k + 1] == g.history[..k + 1]
  {
    ResetValid(g, k);
  }
}
