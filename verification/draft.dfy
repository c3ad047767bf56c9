/** The draft of the game logic in src/game.js, the module src/index.js
    loads. Its state, `maybeGetCellState`, `addCurrentStateToHistory` and
    `resetToState` are those of src/Game.js (the snapshot's `stepNumber` is
    called `number` there), so they are shared with `GameState`. What differs:
    the win search returns `{winner, coordinates}` with the centre LAST,
    the cells are listed by two nested loops (`iterableCells`), and a click
    runs `switchPlayers`, `maybeEndGame` and `addCurrentStateToHistory`.
 */
module Draft {
  import opened Utils
  import opened Constants
  import opened Board
  import opened WinSearch
  import opened GameState

  /** The `{winner, coordinates}` record of a line. */
  datatype WinningNeighbors = WinningNeighbors(winner: Player, coordinates: seq<Pos>)

  /** The draft's record for the line `findWinningLine` reports: same player,
      same three cells, the centre moved from first to last. */
  predicate Rotated(d: Option<WinningNeighbors>, w: Option<WinningLine>)
  {
    match (d, w)
    case (None, None) => true
    case (Some(x), Some(y)) =>
      |y.coordinates| == 3 && x.winner == y.player && x.coordinates == y.coordinates[1..] + [y.coordinates[0]]
    case _ => false
  }

  /** `findWinningNeighbors`: `null` for an EMPTY centre or when no axis
      matches; otherwise the centre's mark and the neighbours of the first
      matching axis followed by the centre. */
  function FindWinningNeighbors(b: Grid, n: nat, p: Pos): (r: Option<WinningNeighbors>)
    requires IsSquare(b, n) && InBounds(n, p)
    ensures Rotated(r, FindWinningLine(b, n, p))
    ensures r.Some? ==>
              exists k: nat :: FirstAxis(b, n, p, k)
                && r.value.coordinates == [Step(p, WinningLinesDeltas[k].first), Step(p, WinningLinesDeltas[k].second), p]
  {
    var centre := At(b, n, p);
    if centre == Empty then None
    else
      var matches := (l: NeighborLine) => AllMatch(l, centre);
      var winningLine := Head(Filter(NeighborLines(b, n, p), matches));
      FirstMatchingAxis(b, n, p, matches);
      if winningLine.None? then None
      else Some(WinningNeighbors(centre.player, winningLine.value.coordinates + [p]))
  }

  /** `iterableCells`: two nested loops push every coordinate, row by row;
      the list is the one `flatCells` builds. */
  method IterableCells(n: nat) returns (cells: seq<Pos>)
    ensures cells == FlatCells(n)
  {
    var rows := CoordinateRows(n);
    CoordinateRowsShape(n);
    cells := [];
    var row := 0;
    while row < n
      invariant 0 <= row <= n
      invariant cells == Concat(rows[..row])
    {
      var col := 0;
      var start := cells;
      while col < n
        invariant 0 <= col <= n
        invariant cells == start + rows[row][..col]
      {
        cells := cells + [Pos(row, col)];
        col := col + 1;
        assert rows[row][..col] == rows[row][..col - 1] + [Pos(row, col - 1)];
      }
      assert rows[row][..n] == rows[row];
      assert rows[..row + 1][..row] == rows[..row];
      row := row + 1;
    }
    assert rows[..n] == rows;
  }

  function NeighborsInfos(b: Grid, n: nat): (infos: seq<Option<WinningNeighbors>>)
    requires IsSquare(b, n)
    ensures |infos| == |FlatCells(n)|
    ensures forall i :: 0 <= i < |infos| ==>
              InBounds(n, FlatCells(n)[i]) && infos[i] == FindWinningNeighbors(b, n, FlatCells(n)[i])
  {
    var cells := FlatCells(n);
    FlatCellsOrder(n);
    seq(|cells|, i requires 0 <= i < |cells| => FindWinningNeighbors(b, n, cells[i]))
  }

  predicate FoundNeighbors(o: Option<WinningNeighbors>)
  {
    o.Some?
  }

  /** `findWinner` of the draft: the first non-null `findWinningNeighbors`
      over the cells in row-major order. It finds the same line as
      src/Game.js, with the centre last. */
  function FindWinner(b: Grid, n: nat): (r: Option<WinningNeighbors>)
    requires IsSquare(b, n)
    ensures Rotated(r, WinSearch.FindWinner(b, n))
    ensures r.None? <==> !HasLine(b, n)
  {
    var found := Head(Filter(NeighborsInfos(b, n), FoundNeighbors));
    SameFirstLine(b, n);
    if found.None? then None else found.value
  }

  lemma SameFirstLine(b: Grid, n: nat)
    requires IsSquare(b, n)
    ensures var found := Head(Filter(NeighborsInfos(b, n), FoundNeighbors));
      Rotated(if found.None? then None else found.value, WinSearch.FindWinner(b, n))
  {
    var infos := NeighborsInfos(b, n);
    var lines := LineInfos(b, n);
    HeadOfFilter(infos, FoundNeighbors);
    HeadOfFilter(lines, Found);
    RotatedInfos(b, n);
    var found := Head(Filter(infos, FoundNeighbors));
    if found.Some? {
      var i :| 0 <= i < |infos| && FoundNeighbors(infos[i]) && found.value == infos[i]
               && forall j :: 0 <= j < i ==> !FoundNeighbors(infos[j]);
      SameFirstIndex(b, n, i);
    }
  }

  /** Result by result, the draft's search agrees with src/Game.js. */
  lemma RotatedInfos(b: Grid, n: nat)
    requires IsSquare(b, n)
    ensures |NeighborsInfos(b, n)| == |LineInfos(b, n)|
    ensures forall i :: 0 <= i < |NeighborsInfos(b, n)| ==> Rotated(NeighborsInfos(b, n)[i], LineInfos(b, n)[i])
  {
  }

  /** When the draft's first found result is at index `i`, so is the first
      line src/Game.js finds. */
  lemma SameFirstIndex(b: Grid, n: nat, i: nat)
    requires IsSquare(b, n)
    requires i < |NeighborsInfos(b, n)| && FoundNeighbors(NeighborsInfos(b, n)[i])
    requires forall j :: 0 <= j < i ==> !FoundNeighbors(NeighborsInfos(b, n)[j])
    ensures Head(Filter(LineInfos(b, n), Found)) == Some(LineInfos(b, n)[i])
  {
    var infos := NeighborsInfos(b, n);
    var lines := LineInfos(b, n);
    RotatedInfos(b, n);
    var g := (j: nat) => j < |infos| && FoundNeighbors(infos[j]);
    FilterFirstIndex(lines, Found, g);
    assert g(i);
    var i': nat :| i' < |lines| && g(i') && Filter(lines, Found)[0] == lines[i'] && forall j: nat :: j < i' ==> !g(j);
    assert i' == i;
  }

  /** `switchPlayers`: X becomes O and O becomes X; nothing else changes. */
  function SwitchPlayers(g: Game): (r: Game)
    ensures r.(nextPlayer := g.nextPlayer) == g
    ensures r.nextPlayer != g.nextPlayer
  {
    g.(nextPlayer := if g.nextPlayer == X then O else X)
  }

  /** `maybeEndGame`: when the board holds a line its player becomes the
      winner; otherwise nothing changes. */
  function MaybeEndGame(g: Game): (r: Game)
    requires WellFormed(g)
    ensures r.(winner := g.winner) == g
    ensures !HasLine(g.cells, g.size) ==> r == g
    ensures HasLine(g.cells, g.size) ==>
              r.winner.Some? && exists p: Pos, k: nat :: k < Axes && LineAt(g.cells, g.size, p, k)
                                                         && At(g.cells, g.size, p) == Mark(r.winner.value)
  {
    var winningNeighbors := FindWinner(g.cells, g.size);
    if winningNeighbors.None? then g
    else
      ghost var line := WinSearch.FindWinner(g.cells, g.size).value;
      ghost var p: Pos :| FirstCentre(g.cells, g.size, p) && FindWinningLine(g.cells, g.size, p) == Some(line);
      assert exists k: nat :: FirstAxis(g.cells, g.size, p, k);
      g.(winner := Some(winningNeighbors.value.winner))
  }

  /** `ReflectiveCell.fillCell`: the same guards as src/BoardCell.js, then
      the mark, `switchPlayers`, `maybeEndGame`, `addCurrentStateToHistory`.
      The resulting state is the one src/Game.js computes. */
  function FillCell(g: Game, pos: Pos): (r: Game)
    requires WellFormed(g) && InBounds(g.size, pos)
    ensures r == GameState.FillCell(g, pos)
  {
    if IsGameOver(g) then g
    else if g.cells[pos.row][pos.col] != Empty then g
    else
      var filled := g.(cells := Place(g.cells, g.size, pos, Mark(g.nextPlayer)));
      AddCurrentStateToHistory(MaybeEndGame(SwitchPlayers(filled)))
  }
}
