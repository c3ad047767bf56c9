/** The win search of src/Game.js (`findWinningLine`, `findWinner`): every
    cell is tried as the centre of a three-cell line, along the four axes of
    `WINNING_LINES_DELTAS`, and the first line found in row-major order wins.
 */
module WinSearch {
  import opened Utils
  import opened Constants
  import opened Board

  /** The `{player, coordinates}` record returned for a line. */
  datatype WinningLine = WinningLine(player: Player, coordinates: seq<Pos>)

  /** One `{neighborCoordinates, neighborValues}` record: the two neighbours
      of a centre along one axis, and their bounds-checked states. */
  datatype NeighborLine = NeighborLine(coordinates: seq<Pos>, values: seq<Option<Cell>>)

  const Axes: nat := |WinningLinesDeltas|

  /** The coordinate one `d` away from `p`. */
  function Step(p: Pos, d: Delta): Pos
  {
    Pos(p.row + d.dr, p.col + d.dc)
  }

  // ---------------------------------------------------------------------
  // The reference definition of a line

  /** The cell `p` and its two neighbours along axis `k` are all on the board
      and hold the same mark. */
  predicate LineAt(b: Grid, n: nat, p: Pos, k: nat)
    requires IsSquare(b, n) && k < Axes
  {
    var a := WinningLinesDeltas[k];
    && InBounds(n, p) && InBounds(n, Step(p, a.first)) && InBounds(n, Step(p, a.second))
    && At(b, n, p) != Empty
    && At(b, n, Step(p, a.first)) == At(b, n, p)
    && At(b, n, Step(p, a.second)) == At(b, n, p)
  }

  /** The board holds a line somewhere. */
  ghost predicate HasLine(b: Grid, n: nat)
    requires IsSquare(b, n)
  {
    exists p: Pos, k: nat :: k < Axes && LineAt(b, n, p, k)
  }

  /** Axis `k` is the first, in table order, along which `p` centres a line. */
  predicate FirstAxis(b: Grid, n: nat, p: Pos, k: nat)
    requires IsSquare(b, n)
  {
    k < Axes && LineAt(b, n, p, k) && forall j: nat :: j < k ==> !LineAt(b, n, p, j)
  }

  /** The line centred at `p` along axis `k`: centre first, then the two
      neighbours in table order. */
  function LineThrough(player: Player, p: Pos, k: nat): WinningLine
    requires k < Axes
  {
    var a := WinningLinesDeltas[k];
    WinningLine(player, [p, Step(p, a.first), Step(p, a.second)])
  }

  /** A real line of `player`'s marks: three coordinates, all on the board,
      all holding that mark. */
  predicate IsWinningLine(b: Grid, n: nat, w: WinningLine)
    requires IsSquare(b, n)
  {
    |w.coordinates| == 3
    && forall q :: q in w.coordinates ==> InBounds(n, q) && At(b, n, q) == Mark(w.player)
  }

  // ---------------------------------------------------------------------
  // findWinningLine

  function NeighborLineOf(b: Grid, n: nat, p: Pos, a: Axis): NeighborLine
    requires IsSquare(b, n)
  {
    var coordinates := [Step(p, a.first), Step(p, a.second)];
    NeighborLine(coordinates, [MaybeGetCellState(b, n, coordinates[0]), MaybeGetCellState(b, n, coordinates[1])])
  }

  /** `neighborLines`: one record per entry of `WINNING_LINES_DELTAS`. */
  function NeighborLines(b: Grid, n: nat, p: Pos): seq<NeighborLine>
    requires IsSquare(b, n)
  {
    seq(Axes, k requires 0 <= k < Axes => NeighborLineOf(b, n, p, WinningLinesDeltas[k]))
  }

  /** `neighborValues.every(v => v === center.state)`. */
  predicate AllMatch(l: NeighborLine, centre: Cell)
  {
    forall v :: v in l.values ==> v == Some(centre)
  }

  /** Along a given axis, both neighbours match a marked centre exactly when
      that axis holds a line: an off-board `null` never matches a mark. */
  lemma AllMatchIsLine(b: Grid, n: nat, p: Pos, k: nat)
    requires IsSquare(b, n) && InBounds(n, p) && k < Axes && At(b, n, p) != Empty
    ensures AllMatch(NeighborLines(b, n, p)[k], At(b, n, p)) <==> LineAt(b, n, p, k)
  {
    var a := WinningLinesDeltas[k];
    var c := At(b, n, p);
    var l := NeighborLines(b, n, p)[k];
    var v1, v2 := MaybeGetCellState(b, n, Step(p, a.first)), MaybeGetCellState(b, n, Step(p, a.second));
    assert l.values == [v1, v2];
    assert v1 in l.values && v2 in l.values;
    if v1 == Some(c) && v2 == Some(c) {
      forall v | v in l.values
        ensures v == Some(c)
      {
        assert v == v1 || v == v2;
      }
    }
  }

  /** `findWinningLine`: `null` for an EMPTY centre or when no axis matches;
      otherwise the line along the first matching axis, centre first, of the
      centre's player. */
  function FindWinningLine(b: Grid, n: nat, p: Pos): (r: Option<WinningLine>)
    requires IsSquare(b, n) && InBounds(n, p)
    ensures At(b, n, p) == Empty ==> r.None?
    ensures r.None? <==> forall k: nat :: k < Axes ==> !LineAt(b, n, p, k)
    ensures r.Some? ==> exists k: nat :: FirstAxis(b, n, p, k) && r.value == LineThrough(At(b, n, p).player, p, k)
    ensures r.Some? ==> r.value.player == At(b, n, p).player && IsWinningLine(b, n, r.value)
  {
    var centre := At(b, n, p);
    if centre == Empty then None
    else
      var lines := NeighborLines(b, n, p);
      var matches := (l: NeighborLine) => AllMatch(l, centre);
      var winningLines := Filter(lines, matches);
      FirstMatchingAxis(b, n, p, matches);
      if |winningLines| == 0 then None
      else Some(WinningLine(centre.player, [p] + winningLines[0].coordinates))
  }

  /** The first neighbour record that matches a marked centre is the one of
      the first axis holding a line. */
  lemma FirstMatchingAxis(b: Grid, n: nat, p: Pos, matches: NeighborLine -> bool)
    requires IsSquare(b, n) && InBounds(n, p) && At(b, n, p) != Empty
    requires forall l :: matches(l) == AllMatch(l, At(b, n, p))
    ensures |Filter(NeighborLines(b, n, p), matches)| == 0 <==> forall k: nat :: k < Axes ==> !LineAt(b, n, p, k)
    ensures |Filter(NeighborLines(b, n, p), matches)| > 0 ==>
              exists k: nat :: FirstAxis(b, n, p, k)
                && Filter(NeighborLines(b, n, p), matches)[0] == NeighborLines(b, n, p)[k]
  {
    MatchesAreLines(b, n, p, matches);
    FirstLineAxis(b, n, p, NeighborLines(b, n, p), matches);
  }

  /** The first neighbour record a test keeps, when the test holds exactly
      for the axes holding a line, belongs to the first such axis. */
  lemma FirstLineAxis(b: Grid, n: nat, p: Pos, lines: seq<NeighborLine>, matches: NeighborLine -> bool)
    requires IsSquare(b, n)
    requires |lines| == Axes
    requires forall k: nat :: k < Axes ==> (matches(lines[k]) <==> LineAt(b, n, p, k))
    ensures |Filter(lines, matches)| == 0 <==> forall k: nat :: k < Axes ==> !LineAt(b, n, p, k)
    ensures |Filter(lines, matches)| > 0 ==>
              exists k: nat :: FirstAxis(b, n, p, k) && Filter(lines, matches)[0] == lines[k]
  {
    var g := (k: nat) => k < Axes && LineAt(b, n, p, k);
    FilterFirstIndex(lines, matches, g);
    if |Filter(lines, matches)| > 0 {
      var i: nat :| i < |lines| && g(i) && Filter(lines, matches)[0] == lines[i] && forall j: nat :: j < i ==> !g(j);
      FirstHit(b, n, p, g, i);
    }
  }

  /** The first index where `g` holds, for `g` marking the axes holding a
      line, is the first axis. */
  lemma FirstHit(b: Grid, n: nat, p: Pos, g: nat -> bool, i: nat)
    requires IsSquare(b, n)
    requires forall k: nat :: g(k) == (k < Axes && LineAt(b, n, p, k))
    requires g(i) && forall j: nat :: j < i ==> !g(j)
    ensures FirstAxis(b, n, p, i)
  {
  }

  /** Axis by axis, the neighbour record matches exactly when the axis holds
      a line. */
  lemma MatchesAreLines(b: Grid, n: nat, p: Pos, matches: NeighborLine -> bool)
    requires IsSquare(b, n) && InBounds(n, p) && At(b, n, p) != Empty
    requires forall l :: matches(l) == AllMatch(l, At(b, n, p))
    ensures |NeighborLines(b, n, p)| == Axes
    ensures forall k: nat :: k < Axes ==> (matches(NeighborLines(b, n, p)[k]) <==> LineAt(b, n, p, k))
  {
    forall k: nat | k < Axes
      ensures matches(NeighborLines(b, n, p)[k]) <==> LineAt(b, n, p, k)
    {
      AllMatchIsLine(b, n, p, k);
    }
  }

  // ---------------------------------------------------------------------
  // findWinner

  /** `flatCells.map(cell => this.findWinningLine(cell))`. */
  function LineInfos(b: Grid, n: nat): (infos: seq<Option<WinningLine>>)
    requires IsSquare(b, n)
    ensures |infos| == |FlatCells(n)|
    ensures forall i :: 0 <= i < |infos| ==>
              InBounds(n, FlatCells(n)[i]) && infos[i] == FindWinningLine(b, n, FlatCells(n)[i])
  {
    var cells := FlatCells(n);
    FlatCellsOrder(n);
    seq(|cells|, i requires 0 <= i < |cells| => FindWinningLine(b, n, cells[i]))
  }

  /** `winningLine !== null`. */
  predicate Found(o: Option<WinningLine>)
  {
    o.Some?
  }

  /** `findWinner`: `null` exactly when the board holds no line; otherwise
      the line found at the first centre, in row-major order, that has one. */
  function FindWinner(b: Grid, n: nat): (r: Option<WinningLine>)
    requires IsSquare(b, n)
    ensures r.None? <==> !HasLine(b, n)
    ensures r.Some? ==> exists p: Pos :: FirstCentre(b, n, p) && FindWinningLine(b, n, p) == r
    ensures r.Some? ==> IsWinningLine(b, n, r.value)
  {
    var found := Head(Filter(LineInfos(b, n), Found));
    FirstFoundInRowMajorOrder(b, n);
    if found.None? then None else found.value
  }

  /** `p` centres a line and no cell before it in row-major order does. */
  ghost predicate FirstCentre(b: Grid, n: nat, p: Pos)
    requires IsSquare(b, n)
  {
    && InBounds(n, p) && FindWinningLine(b, n, p).Some?
    && forall q: Pos :: InBounds(n, q) && Before(q, p) ==> FindWinningLine(b, n, q).None?
  }

  /** At most one cell is the first centre of a line. */
  lemma FirstCentreUnique(b: Grid, n: nat, p: Pos, q: Pos)
    requires IsSquare(b, n) && FirstCentre(b, n, p) && FirstCentre(b, n, q)
    ensures p == q
  {
    assert !Before(q, p) && !Before(p, q);
  }

  /** `findWinner` reports the line of the first centre in row-major order. */
  lemma FindWinnerAtFirstCentre(b: Grid, n: nat, p: Pos)
    requires IsSquare(b, n) && FirstCentre(b, n, p)
    ensures FindWinner(b, n) == FindWinningLine(b, n, p)
  {
    var k: nat :| FirstAxis(b, n, p, k);
    assert LineAt(b, n, p, k);
    var r := FindWinner(b, n);
    var p': Pos :| FirstCentre(b, n, p') && FindWinningLine(b, n, p') == r;
    FirstCentreUnique(b, n, p, p');
  }

  lemma FirstFoundInRowMajorOrder(b: Grid, n: nat)
    requires IsSquare(b, n)
    ensures Head(Filter(LineInfos(b, n), Found)).None? <==> !HasLine(b, n)
    ensures Head(Filter(LineInfos(b, n), Found)).Some? ==>
              exists p: Pos :: FirstCentre(b, n, p) && FindWinningLine(b, n, p) == Head(Filter(LineInfos(b, n), Found)).value
  {
    var infos := LineInfos(b, n);
    HeadOfFilter(infos, Found);
    if Head(Filter(infos, Found)).None? {
      NoneFoundMeansNoLine(b, n);
    } else {
      var i :| 0 <= i < |infos| && Found(infos[i]) && Head(Filter(infos, Found)).value == infos[i]
               && forall j :: 0 <= j < i ==> !Found(infos[j]);
      FirstFoundIsFirstCentre(b, n, i);
    }
  }

  lemma NoneFoundMeansNoLine(b: Grid, n: nat)
    requires IsSquare(b, n)
    requires forall i :: 0 <= i < |LineInfos(b, n)| ==> !Found(LineInfos(b, n)[i])
    ensures !HasLine(b, n)
  {
    var cells := FlatCells(n);
    var infos := LineInfos(b, n);
    FlatCellsOrder(n);
    forall p: Pos, k: nat | k < Axes
      ensures !LineAt(b, n, p, k)
    {
      if InBounds(n, p) {
        var i :| 0 <= i < |cells| && cells[i] == p;
        assert !Found(infos[i]);
      }
    }
  }

  lemma FirstFoundIsFirstCentre(b: Grid, n: nat, i: nat)
    requires IsSquare(b, n)
    requires i < |LineInfos(b, n)| && Found(LineInfos(b, n)[i])
    requires forall j :: 0 <= j < i ==> !Found(LineInfos(b, n)[j])
    ensures FirstCentre(b, n, FlatCells(n)[i]) && HasLine(b, n)
  {
    var infos := LineInfos(b, n);
    var p := FlatCells(n)[i];
    assert FindWinningLine(b, n, p) == infos[i];
    EarlierCentresFindNothing(b, n, i);
    var k: nat :| FirstAxis(b, n, p, k) && infos[i].value == LineThrough(At(b, n, p).player, p, k);
    assert LineAt(b, n, p, k);
  }

  /** No cell before the `i`-th of `flatCells` centres a line when none of
      the first `i` results was found. */
  lemma EarlierCentresFindNothing(b: Grid, n: nat, i: nat)
    requires IsSquare(b, n)
    requires i < |LineInfos(b, n)|
    requires forall j :: 0 <= j < i ==> !Found(LineInfos(b, n)[j])
    ensures InBounds(n, FlatCells(n)[i])
    ensures forall q: Pos :: InBounds(n, q) && Before(q, FlatCells(n)[i]) ==> FindWinningLine(b, n, q).None?
  {
    var cells := FlatCells(n);
    var infos := LineInfos(b, n);
    FlatCellsOrder(n);
    forall q: Pos | InBounds(n, q) && Before(q, cells[i])
      ensures FindWinningLine(b, n, q).None?
    {
      var j :| 0 <= j < |cells| && cells[j] == q;
      BeforeMeansEarlier(n, i, j);
      assert !Found(infos[j]);
    }
  }

  // ---------------------------------------------------------------------
  // Properties of the search

  /** A run of `len` equal marks starting at `p` and stepping by `d`. */
  predicate Run(b: Grid, n: nat, p: Pos, d: Delta, m: Player, len: nat)
    requires IsSquare(b, n)
    decreases len
  {
    len == 0 || (InBounds(n, p) && At(b, n, p) == Mark(m) && Run(b, n, Step(p, d), d, m, len - 1))
  }

  /** Only three-cell lines are searched for, but every run of three or more
      equal marks along one of the four line directions is found: its second
      cell centres a line. */
  lemma LongRunIsFound(b: Grid, n: nat, p: Pos, k: nat, m: Player, len: nat)
    requires IsSquare(b, n) && k < Axes && len >= 3
    requires Run(b, n, p, WinningLinesDeltas[k].second, m, len)
    ensures FindWinner(b, n).Some?
  {
    var a := WinningLinesDeltas[k];
    var c := Step(p, a.second);
    WinningLinesDeltasShape();
    assert Step(c, a.first) == p;
    assert InBounds(n, p) && At(b, n, p) == Mark(m) && Run(b, n, c, a.second, m, len - 1);
    assert InBounds(n, c) && At(b, n, c) == Mark(m) && Run(b, n, Step(c, a.second), a.second, m, len - 2);
    assert InBounds(n, Step(c, a.second)) && At(b, n, Step(c, a.second)) == Mark(m);
    assert LineAt(b, n, c, k);
  }

  /** Placing `m` on an EMPTY cell of a board without lines creates only
      lines that pass through that cell, so every line is `m`'s. */
  lemma NewLinesPassThroughMove(b: Grid, n: nat, pos: Pos, m: Player, p: Pos, k: nat)
    requires IsSquare(b, n) && InBounds(n, pos) && !HasLine(b, n) && k < Axes
    requires LineAt(Place(b, n, pos, Mark(m)), n, p, k)
    ensures pos in LineThrough(m, p, k).coordinates
    ensures At(Place(b, n, pos, Mark(m)), n, p) == Mark(m)
  {
    LineAwayFromMove(b, n, pos, Mark(m), p, k);
  }

  /** A line whose three cells avoid `pos` is there after `pos` changes only
      if it was there before. */
  lemma LineAwayFromMove(b: Grid, n: nat, pos: Pos, v: Cell, p: Pos, k: nat)
    requires IsSquare(b, n) && InBounds(n, pos) && k < Axes
    ensures pos !in LineThrough(X, p, k).coordinates && LineAt(Place(b, n, pos, v), n, p, k) ==> LineAt(b, n, p, k)
  {
    var b' := Place(b, n, pos, v);
    var a := WinningLinesDeltas[k];
    if pos !in LineThrough(X, p, k).coordinates && LineAt(b', n, p, k) {
      assert At(b', n, p) == At(b, n, p);
      assert At(b', n, Step(p, a.first)) == At(b, n, Step(p, a.first));
      assert At(b', n, Step(p, a.second)) == At(b, n, Step(p, a.second));
    }
  }
}
