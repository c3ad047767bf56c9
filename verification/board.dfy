/** The n-by-n board of src/Game.js: the cell matrix, bounds-checked lookup
    (`maybeGetCellState`), the row-major cell list (`flatCells`) and the mark
    counts used by the turn invariant.
 */
module Board {
  import opened Utils
  import opened Constants

  /** The states of the cell matrix, row by row. */
  type Grid = seq<seq<Cell>>

  /** A (row, column) coordinate; neighbours of edge cells fall outside the
      board, so coordinates are unbounded integers. */
  datatype Pos = Pos(row: int, col: int)

  predicate InBounds(n: nat, p: Pos)
  {
    0 <= p.row < n && 0 <= p.col < n
  }

  /** The board has `n` rows of `n` cells. */
  predicate IsSquare(b: Grid, n: nat)
  {
    |b| == n && forall i :: 0 <= i < n ==> |b[i]| == n
  }

  function At(b: Grid, n: nat, p: Pos): Cell
    requires IsSquare(b, n) && InBounds(n, p)
  {
    b[p.row][p.col]
  }

  /** `maybeGetCellState(row, col)`: `null` exactly off the board, the cell's
      state on it. */
  function MaybeGetCellState(b: Grid, n: nat, p: Pos): (r: Option<Cell>)
    requires IsSquare(b, n)
    ensures r.None? <==> p.row < 0 || p.row >= n || p.col < 0 || p.col >= n
    ensures r.Some? ==> r.value == At(b, n, p)
  {
    if p.row < 0 || p.row >= n || p.col < 0 || p.col >= n then None
    else Some(b[p.row][p.col])
  }

  /** `createCells`: an n-by-n matrix of new cells, each EMPTY. */
  function EmptyGrid(n: nat): (b: Grid)
    ensures IsSquare(b, n)
    ensures forall i, j :: 0 <= i < n && 0 <= j < n ==> b[i][j] == Empty
  {
    var rows := Range(n);
    seq(|rows|, _ => seq(|rows|, _ => Empty))
  }

  /** The board after the cell at `p` is given state `v`: that cell holds `v`
      and every other cell is unchanged. */
  function Place(b: Grid, n: nat, p: Pos, v: Cell): (b': Grid)
    requires IsSquare(b, n) && InBounds(n, p)
    ensures IsSquare(b', n)
    ensures At(b', n, p) == v
    ensures forall q :: InBounds(n, q) && q != p ==> At(b', n, q) == At(b, n, q)
  {
    b[p.row := b[p.row][p.col := v]]
  }

  /** Two n-by-n boards with the same state in every cell are equal. */
  lemma SameCells(a: Grid, b: Grid, n: nat)
    requires IsSquare(a, n) && IsSquare(b, n)
    requires forall p :: InBounds(n, p) ==> At(a, n, p) == At(b, n, p)
    ensures a == b
  {
    forall i | 0 <= i < n
      ensures a[i] == b[i]
    {
      forall j | 0 <= j < n
        ensures a[i][j] == b[i][j]
      {
        assert At(a, n, Pos(i, j)) == At(b, n, Pos(i, j));
      }
    }
  }

  /** Every cell holds a mark. */
  predicate Full(b: Grid, n: nat)
    requires IsSquare(b, n)
  {
    forall i, j :: 0 <= i < n && 0 <= j < n ==> b[i][j] != Empty
  }

  // ---------------------------------------------------------------------
  // Row-major order (`flatCells`)

  /** `p` comes before `q` when the cells are read row by row. */
  predicate Before(p: Pos, q: Pos)
  {
    p.row < q.row || (p.row == q.row && p.col < q.col)
  }

  /** `[].concat(...rows)`. */
  function Concat<T>(rows: seq<seq<T>>): seq<T>
  {
    if |rows| == 0 then [] else Concat(rows[..|rows| - 1]) + rows[|rows| - 1]
  }

  /** The coordinate matrix `range(n).map(i => range(n).map(j => (i, j)))`. */
  function CoordinateRows(n: nat): seq<seq<Pos>>
  {
    var rows := Range(n);
    seq(|rows|, i requires 0 <= i < |rows| => seq(|rows|, j requires 0 <= j < |rows| => Pos(rows[i], rows[j])))
  }

  /** `flatCells`: every coordinate of the board, row by row. */
  function FlatCells(n: nat): seq<Pos>
  {
    Concat(CoordinateRows(n))
  }

  lemma CoordinateRowsShape(n: nat)
    ensures |CoordinateRows(n)| == n
    ensures forall i :: 0 <= i < n ==> |CoordinateRows(n)[i]| == n
    ensures forall i, j :: 0 <= i < n && 0 <= j < n ==> CoordinateRows(n)[i][j] == Pos(i, j)
  {
  }

  /** `f` lists exactly the coordinates of the first `k` rows of an n-column
      board, in row-major order. */
  ghost predicate RowMajorRows(f: seq<Pos>, k: nat, n: nat)
  {
    && (forall i :: 0 <= i < |f| ==> 0 <= f[i].row < k && 0 <= f[i].col < n)
    && (forall q: Pos :: 0 <= q.row < k && 0 <= q.col < n ==> q in f)
    && (forall i, j :: 0 <= i < j < |f| ==> Before(f[i], f[j]))
  }

  /** The first `k` rows of the coordinate matrix, joined, hold exactly the
      coordinates of those rows, in row-major order. */
  lemma {:induction false} FlatPrefix(n: nat, k: nat)
    requires k <= n
    ensures RowMajorRows(Concat(CoordinateRows(n)[..k]), k, n)
  {
    var rows := CoordinateRows(n);
    CoordinateRowsShape(n);
    if k == 0 {
      assert rows[..0] == [];
    } else {
      FlatPrefix(n, k - 1);
      assert rows[..k][..k - 1] == rows[..k - 1];
      var f0 := Concat(rows[..k - 1]);
      var last := rows[k - 1];
      var f := Concat(rows[..k]);
      assert f == f0 + last;
      FlatPrefixStep(n, k, f0, last);
    }
  }

  /** Appending row `k - 1` to the joined earlier rows keeps the three
      properties of `FlatPrefix`. */
  lemma FlatPrefixStep(n: nat, k: nat, f0: seq<Pos>, last: seq<Pos>)
    requires 0 < k <= n
    requires RowMajorRows(f0, k - 1, n)
    requires |last| == n && forall j :: 0 <= j < n ==> last[j] == Pos(k - 1, j)
    ensures RowMajorRows(f0 + last, k, n)
  {
    var f := f0 + last;
    forall q: Pos | 0 <= q.row < k && 0 <= q.col < n
      ensures q in f
    {
      if q.row < k - 1 {
        assert q in f0;
      } else {
        assert last[q.col] == q;
      }
    }
    forall i, j | 0 <= i < j < |f|
      ensures Before(f[i], f[j])
    {
      if j < |f0| {
        assert f[i] == f0[i] && f[j] == f0[j];
      } else if i < |f0| {
        assert f[i] == f0[i];
        assert f[j] == last[j - |f0|];
      } else {
        assert f[i] == last[i - |f0|] && f[j] == last[j - |f0|];
      }
    }
  }

  /** `flatCells` lists every board coordinate exactly once, in row-major
      order. */
  lemma FlatCellsOrder(n: nat)
    ensures forall i :: 0 <= i < |FlatCells(n)| ==> InBounds(n, FlatCells(n)[i])
    ensures forall q :: InBounds(n, q) ==> q in FlatCells(n)
    ensures forall i, j :: 0 <= i < j < |FlatCells(n)| ==> Before(FlatCells(n)[i], FlatCells(n)[j])
  {
    FlatPrefix(n, n);
    assert CoordinateRows(n)[..n] == CoordinateRows(n);
  }

  /** A cell listed by `flatCells` before another comes earlier in the list. */
  lemma BeforeMeansEarlier(n: nat, i: nat, j: nat)
    requires i < |FlatCells(n)| && j < |FlatCells(n)|
    requires Before(FlatCells(n)[j], FlatCells(n)[i])
    ensures j < i
  {
    FlatCellsOrder(n);
  }

  // ---------------------------------------------------------------------
  // Counting marks

  function CountInRow(row: seq<Cell>, c: Cell): nat
  {
    if |row| == 0 then 0
    else CountInRow(row[..|row| - 1], c) + (if row[|row| - 1] == c then 1 else 0)
  }

  /** The number of cells in state `c`. */
  function Count(b: Grid, c: Cell): nat
  {
    if |b| == 0 then 0 else Count(b[..|b| - 1], c) + CountInRow(b[|b| - 1], c)
  }

  lemma {:induction false} CountInRowUpdate(row: seq<Cell>, j: nat, v: Cell, c: Cell)
    requires j < |row|
    ensures CountInRow(row[j := v], c) + (if row[j] == c then 1 else 0)
            == CountInRow(row, c) + (if v == c then 1 else 0)
  {
    var last := |row| - 1;
    if j == last {
      assert row[j := v][..last] == row[..last];
    } else {
      assert row[j := v][..last] == row[..last][j := v];
      CountInRowUpdate(row[..last], j, v, c);
    }
  }

  lemma {:induction false} CountUpdate(b: Grid, i: nat, j: nat, v: Cell, c: Cell)
    requires i < |b| && j < |b[i]|
    ensures Count(b[i := b[i][j := v]], c) + (if b[i][j] == c then 1 else 0)
            == Count(b, c) + (if v == c then 1 else 0)
  {
    var last := |b| - 1;
    var b' := b[i := b[i][j := v]];
    if i == last {
      assert b'[..last] == b[..last];
      CountInRowUpdate(b[i], j, v, c);
    } else {
      assert b'[..last] == b[..last][i := b[i][j := v]];
      CountUpdate(b[..last], i, j, v, c);
    }
  }

  /** Giving an EMPTY cell the state `Mark(p)` adds one to the count of
      `p`'s marks and leaves the count of the other player's marks alone. */
  lemma PlaceCounts(b: Grid, n: nat, pos: Pos, p: Player)
    requires IsSquare(b, n) && InBounds(n, pos) && At(b, n, pos) == Empty
    ensures Count(Place(b, n, pos, Mark(p)), Mark(p)) == Count(b, Mark(p)) + 1
    ensures Count(Place(b, n, pos, Mark(p)), Mark(Other(p))) == Count(b, Mark(Other(p)))
    ensures Count(Place(b, n, pos, Mark(p)), Empty) + 1 == Count(b, Empty)
  {
    CountUpdate(b, pos.row, pos.col, Mark(p), Mark(p));
    CountUpdate(b, pos.row, pos.col, Mark(p), Mark(Other(p)));
    CountUpdate(b, pos.row, pos.col, Mark(p), Empty);
  }

  lemma {:induction false} CountInRowZero(row: seq<Cell>, c: Cell)
    requires forall j :: 0 <= j < |row| ==> row[j] != c
    ensures CountInRow(row, c) == 0
  {
    if |row| > 0 {
      CountInRowZero(row[..|row| - 1], c);
    }
  }

  lemma {:induction false} CountZero(b: Grid, c: Cell)
    requires forall i, j :: 0 <= i < |b| && 0 <= j < |b[i]| ==> b[i][j] != c
    ensures Count(b, c) == 0
  {
    if |b| > 0 {
      CountZero(b[..|b| - 1], c);
      CountInRowZero(b[|b| - 1], c);
    }
  }

  /** The empty board holds no marks. */
  lemma EmptyGridCounts(n: nat)
    ensures Count(EmptyGrid(n), Mark(X)) == 0 && Count(EmptyGrid(n), Mark(O)) == 0
  {
    CountZero(EmptyGrid(n), Mark(X));
    CountZero(EmptyGrid(n), Mark(O));
  }
}
