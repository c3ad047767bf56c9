/** The matrix helpers of dist/utils.js: `sum`, `transpose`, `diagonal` and
    `mirror` (its `range` is the same as `Utils.Range`). No game logic calls
    them; they may be the remains of an earlier row/column/diagonal win check.
 */
module MatrixUtils {
  import opened Utils

  /** A matrix whose rows all have `cols` entries. */
  ghost predicate Rectangular<T>(m: seq<seq<T>>, cols: nat)
  {
    forall i :: 0 <= i < |m| ==> |m[i]| == cols
  }

  /** `arr.reduce((a, b) => a + b, acc)`: a left fold with `+`. */
  function Reduce(a: seq<int>, acc: int): int
  {
    if |a| == 0 then acc else Reduce(a[1..], acc + a[0])
  }

  /** `sum(arr)`: the left fold of `+` starting from 0. */
  function Sum(a: seq<int>): int
  {
    Reduce(a, 0)
  }

  lemma {:induction false} ReduceAppend(a: seq<int>, acc: int, x: int)
    ensures Reduce(a + [x], acc) == Reduce(a, acc) + x
  {
    if |a| == 0 {
      assert Reduce([x], acc) == Reduce([], acc + x);
    } else {
      assert (a + [x])[1..] == a[1..] + [x];
      ReduceAppend(a[1..], acc + a[0], x);
    }
  }

  /** The sum of nothing is 0, and appending `x` adds `x`. */
  lemma SumAppend(a: seq<int>, x: int)
    ensures Sum([]) == 0
    ensures Sum(a + [x]) == Sum(a) + x
  {
    ReduceAppend(a, 0, x);
  }

  /** `transpose(m)`: needs a first row (the source reads `m[0]`); the result
      has one row per column of `m`, and entry (i, j) is `m[j][i]`. */
  function Transpose<T>(m: seq<seq<T>>): (r: seq<seq<T>>)
    requires |m| > 0 && Rectangular(m, |m[0]|)
    ensures |r| == |m[0]| && Rectangular(r, |m|)
    ensures forall i, j :: 0 <= i < |m[0]| && 0 <= j < |m| ==> r[i][j] == m[j][i]
  {
    seq(|m[0]|, i requires 0 <= i < |m[0]| => seq(|m|, j requires 0 <= j < |m| => m[j][i]))
  }

  /** Transposing twice gives back the matrix, provided every transpose has a
      first row to read. */
  lemma TransposeTwice<T>(m: seq<seq<T>>)
    requires |m| > 0 && |m[0]| > 0 && Rectangular(m, |m[0]|)
    ensures Transpose(Transpose(m)) == m
  {
    var t := Transpose(m);
    var tt := Transpose(t);
    assert |tt| == |m|;
    forall i | 0 <= i < |m|
      ensures tt[i] == m[i]
    {
      assert |tt[i]| == |m[i]|;
      forall j | 0 <= j < |m[i]|
        ensures tt[i][j] == m[i][j]
      {
        assert tt[i][j] == t[j][i];
      }
    }
  }

  /** `diagonal(m)`: the entries `m[i][i]` for every row index i. */
  function Diagonal<T>(m: seq<seq<T>>): (r: seq<T>)
    requires forall i :: 0 <= i < |m| ==> i < |m[i]|
    ensures |r| == |m|
    ensures forall i :: 0 <= i < |m| ==> r[i] == m[i][i]
  {
    var rows := Range(|m|);
    seq(|rows|, k requires 0 <= k < |rows| => m[rows[k]][rows[k]])
  }

  /** `[...row].reverse()`. */
  function Reverse<T>(s: seq<T>): (r: seq<T>)
    ensures |r| == |s|
    ensures forall i :: 0 <= i < |s| ==> r[i] == s[|s| - 1 - i]
  {
    if |s| == 0 then [] else [s[|s| - 1]] + Reverse(s[..|s| - 1])
  }

  /** `mirror(m)`: every row reversed, the rows themselves kept in order. */
  function Mirror<T>(m: seq<seq<T>>): (r: seq<seq<T>>)
    ensures |r| == |m|
    ensures forall i :: 0 <= i < |m| ==> r[i] == Reverse(m[i])
  {
    seq(|m|, i requires 0 <= i < |m| => Reverse(m[i]))
  }

  lemma ReverseTwice<T>(s: seq<T>)
    ensures Reverse(Reverse(s)) == s
  {
    var r := Reverse(Reverse(s));
    assert |r| == |s|;
    forall i | 0 <= i < |s|
      ensures r[i] == s[i]
    {
    }
  }

  /** Mirroring twice gives back the matrix. */
  lemma MirrorTwice<T>(m: seq<seq<T>>)
    ensures Mirror(Mirror(m)) == m
  {
    var r := Mirror(Mirror(m));
    forall i | 0 <= i < |m|
      ensures r[i] == m[i]
    {
      ReverseTwice(m[i]);
    }
  }
}
