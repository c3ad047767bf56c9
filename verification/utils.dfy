/** Pure helpers of the game (src/utils.js): `range`, `head`, `deepCopyArray`,
    plus the JavaScript `null` and the `Array.prototype.filter` that the win
    search chains with `head`.
 */
module Utils {

  /** A value or JavaScript's `null`. */
  datatype Option<+T> = None | Some(value: T)

  /** `range(n)`: the numbers 0 .. n-1 in increasing order. */
  function Range(n: nat): (r: seq<nat>)
    ensures |r| == n
    ensures forall i :: 0 <= i < n ==> r[i] == i
  {
    if n == 0 then [] else Range(n - 1) + [n - 1]
  }

  /** `head(array)`: the first element, or `null` for an empty array. */
  function Head<T>(s: seq<T>): (r: Option<T>)
    ensures r.None? <==> |s| == 0
    ensures r.Some? ==> r.value == s[0]
  {
    if |s| == 0 then None else Some(s[0])
  }

  /** `deepCopyArray(arr)`: a top-level copy of `arr` (the elements are shared,
      which in this value model means equal). */
  function DeepCopyArray<T>(a: seq<T>): (r: seq<T>)
    ensures |r| == |a|
    ensures forall i :: 0 <= i < |a| ==> r[i] == a[i]
  {
    seq(|a|, i requires 0 <= i < |a| => a[i])
  }

  /** `array.filter(f)`: the elements satisfying `f`, in their original order. */
  function Filter<T>(s: seq<T>, f: T -> bool): (r: seq<T>)
    ensures |r| <= |s|
    ensures forall x :: x in r ==> x in s && f(x)
    ensures forall i :: 0 <= i < |s| && f(s[i]) ==> s[i] in r
  {
    if |s| == 0 then []
    else
      var rest := Filter(s[1..], f);
      assert forall i :: 1 <= i < |s| ==> s[i] == s[1..][i - 1];
      (if f(s[0]) then [s[0]] else []) + rest
  }

  /** Filtering a concatenation filters each part and keeps them in order;
      with `Filter([x], f)` being `[x]` or `[]`, this fixes the order of the
      kept elements. */
  lemma {:induction false} FilterAppend<T>(a: seq<T>, b: seq<T>, f: T -> bool)
    ensures Filter(a + b, f) == Filter(a, f) + Filter(b, f)
    ensures forall x :: Filter([x], f) == if f(x) then [x] else []
  {
    FilterAppendOnly(a, b, f);
    forall x {
      FilterSingle(x, f);
    }
  }

  /** The concatenation half of `FilterAppend`, by induction on `a`. */
  lemma {:induction false} FilterAppendOnly<T>(a: seq<T>, b: seq<T>, f: T -> bool)
    ensures Filter(a + b, f) == Filter(a, f) + Filter(b, f)
  {
    if |a| > 0 {
      assert (a + b)[1..] == a[1..] + b;
      FilterAppendOnly(a[1..], b, f);
      assert (a + b)[0] == a[0];
    } else {
      assert a + b == b;
    }
  }

  /** A one-element sequence keeps its element exactly when it passes. */
  lemma FilterSingle<T>(x: T, f: T -> bool)
    ensures Filter([x], f) == if f(x) then [x] else []
  {
    assert [x][1..] == [];
  }

  /** `head(array.filter(f))` is `null` exactly when no element satisfies `f`,
      and otherwise it is the element at the first index that does. */
  lemma {:induction false} HeadOfFilter<T>(s: seq<T>, f: T -> bool)
    ensures Head(Filter(s, f)).None? <==> forall i :: 0 <= i < |s| ==> !f(s[i])
    ensures Head(Filter(s, f)).Some? ==>
              exists i :: 0 <= i < |s| && f(s[i]) && Head(Filter(s, f)).value == s[i]
                          && forall j :: 0 <= j < i ==> !f(s[j])
  {
    if |s| == 0 {
    } else if f(s[0]) {
      assert Filter(s, f)[0] == s[0];
    } else {
      var t := s[1..];
      assert Filter(s, f) == Filter(t, f);
      HeadOfFilter(t, f);
      if Head(Filter(t, f)).Some? {
        var i :| 0 <= i < |t| && f(t[i]) && Head(Filter(t, f)).value == t[i]
                 && forall j :: 0 <= j < i ==> !f(t[j]);
        assert s[i + 1] == t[i];
        forall j | 0 <= j < i + 1
          ensures !f(s[j])
        {
          if j > 0 { assert s[j] == t[j - 1]; }
        }
      } else {
        forall i | 0 <= i < |s|
          ensures !f(s[i])
        {
          if i > 0 { assert s[i] == t[i - 1]; }
        }
      }
    }
  }

  /** `HeadOfFilter` for a test that agrees with a predicate `g` on indices:
      the filter is empty exactly when `g` holds nowhere, and otherwise its
      first element sits at the first index where `g` holds. */
  lemma FilterFirstIndex<T>(s: seq<T>, f: T -> bool, g: nat -> bool)
    requires forall i: nat :: i < |s| ==> f(s[i]) == g(i)
    ensures |Filter(s, f)| == 0 <==> forall i: nat :: i < |s| ==> !g(i)
    ensures |Filter(s, f)| > 0 ==>
              exists i: nat :: i < |s| && g(i) && Filter(s, f)[0] == s[i] && forall j: nat :: j < i ==> !g(j)
  {
    HeadOfFilter(s, f);
    if |Filter(s, f)| > 0 {
      var i :| 0 <= i < |s| && f(s[i]) && Head(Filter(s, f)).value == s[i]
               && forall j :: 0 <= j < i ==> !f(s[j]);
      assert g(i) && forall j: nat :: j < i ==> !g(j);
    }
  }
}
