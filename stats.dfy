/**
 * The column statistics the core relies on, over real numbers with NaN as
 * `None`: the non-missing values of a column, their sum, mean, minimum,
 * maximum and median, all with pandas' `skipna=True` meaning.
 */
module Stats {
  import opened Wrappers

  /** The non-missing values of a column, in order (`series.dropna()`). */
  function Present(xs: seq<Option<real>>): (vs: seq<real>)
    ensures |vs| <= |xs|
    ensures forall v :: v in vs <==> Some(v) in xs
    ensures vs == [] <==> forall i :: 0 <= i < |xs| ==> xs[i].None?
  {
    if xs == [] then []
    else
      var init := xs[..|xs| - 1];
      assert xs == init + [xs[|xs| - 1]];
      Present(init) + (if xs[|xs| - 1].Some? then [xs[|xs| - 1].value] else [])
  }

  function Sum(s: seq<real>): real {
    if s == [] then 0.0 else Sum(s[..|s| - 1]) + s[|s| - 1]
  }

  /** The arithmetic mean; `None` for no values, as pandas' mean of an all-NaN group. */
  function Mean(s: seq<real>): (m: Option<real>)
    ensures m.None? <==> s == []
    ensures m.Some? ==> m.value * (|s| as real) == Sum(s)
  {
    if s == [] then None else Some(Sum(s) / (|s| as real))
  }

  /** A sum of values that all lie in [lo, hi] lies in [n * lo, n * hi]. */
  lemma {:induction false} SumBounds(s: seq<real>, lo: real, hi: real)
    requires forall i :: 0 <= i < |s| ==> lo <= s[i] <= hi
    ensures (|s| as real) * lo <= Sum(s) <= (|s| as real) * hi
  {
    if s != [] {
      var init := s[..|s| - 1];
      SumBounds(init, lo, hi);
      assert (|s| as real) * lo == (|init| as real) * lo + lo;
      assert (|s| as real) * hi == (|init| as real) * hi + hi;
    }
  }

  /** The mean of values that all lie in [lo, hi] lies in [lo, hi]. */
  lemma MeanBounds(s: seq<real>, lo: real, hi: real)
    requires forall i :: 0 <= i < |s| ==> lo <= s[i] <= hi
    requires s != []
    ensures lo <= Mean(s).value <= hi
  {
    SumBounds(s, lo, hi);
    var n := |s| as real;
    var m := Mean(s).value;
    assert m * n == Sum(s);
  }

  function Min(s: seq<real>): (m: real)
    requires s != []
    ensures m in s
    ensures forall i :: 0 <= i < |s| ==> m <= s[i]
  {
    if |s| == 1 then s[0]
    else
      var rest := Min(s[..|s| - 1]);
      assert s == s[..|s| - 1] + [s[|s| - 1]];
      if s[|s| - 1] < rest then s[|s| - 1] else rest
  }

  function Max(s: seq<real>): (m: real)
    requires s != []
    ensures m in s
    ensures forall i :: 0 <= i < |s| ==> s[i] <= m
  {
    if |s| == 1 then s[0]
    else
      var rest := Max(s[..|s| - 1]);
      assert s == s[..|s| - 1] + [s[|s| - 1]];
      if s[|s| - 1] > rest then s[|s| - 1] else rest
  }

  /** `series.min(skipna=True)`: NaN when every value is missing. */
  function MinPresent(xs: seq<Option<real>>): (m: Option<real>)
    ensures m.None? <==> Present(xs) == []
    ensures m.Some? ==> Some(m.value) in xs
    ensures m.Some? ==> forall i :: 0 <= i < |xs| && xs[i].Some? ==> m.value <= xs[i].value
  {
    var vs := Present(xs);
    if vs == [] then None
    else
      var m := Min(vs);
      assert forall i :: 0 <= i < |xs| && xs[i].Some? ==> xs[i].value in vs;
      Some(m)
  }

  /** `series.max(skipna=True)`: NaN when every value is missing. */
  function MaxPresent(xs: seq<Option<real>>): (m: Option<real>)
    ensures m.None? <==> Present(xs) == []
    ensures m.Some? ==> Some(m.value) in xs
    ensures m.Some? ==> forall i :: 0 <= i < |xs| && xs[i].Some? ==> xs[i].value <= m.value
  {
    var vs := Present(xs);
    if vs == [] then None
    else
      var m := Max(vs);
      assert forall i :: 0 <= i < |xs| && xs[i].Some? ==> xs[i].value in vs;
      Some(m)
  }

  predicate Sorted(s: seq<real>) {
    forall i, j :: 0 <= i < j < |s| ==> s[i] <= s[j]
  }

  function Insert(x: real, s: seq<real>): (r: seq<real>)
    requires Sorted(s)
    ensures Sorted(r)
    ensures multiset(r) == multiset(s) + multiset{x}
  {
    if s == [] then [x]
    else if x <= s[0] then [x] + s
    else
      var tail := Insert(x, s[1..]);
      assert s == [s[0]] + s[1..];
      InsertedAbove(s[0], x, s[1..], tail);
      [s[0]] + tail
  }

  /** A rearrangement of values that are all at least `lo`, with one more such value, stays at least `lo`. */
  lemma InsertedAbove(lo: real, x: real, s: seq<real>, t: seq<real>)
    requires lo <= x && forall k :: 0 <= k < |s| ==> lo <= s[k]
    requires multiset(t) == multiset(s) + multiset{x}
    ensures forall k :: 0 <= k < |t| ==> lo <= t[k]
  {
    forall k | 0 <= k < |t| ensures lo <= t[k] {
      assert t[k] in multiset(t);
      if t[k] != x {
        assert t[k] in multiset(s);
      }
    }
  }

  /** The values in ascending order (insertion sort). */
  function SortAscending(s: seq<real>): (r: seq<real>)
    ensures Sorted(r)
    ensures multiset(r) == multiset(s)
  {
    if s == [] then []
    else
      assert s == s[..|s| - 1] + [s[|s| - 1]];
      Insert(s[|s| - 1], SortAscending(s[..|s| - 1]))
  }

  /**
   * pandas' median of non-empty values: the middle value after sorting, or
   * the mean of the two middle values when their number is even.
   */
  function Median(s: seq<real>): (m: real)
    requires s != []
    ensures Min(s) <= m <= Max(s)
  {
    var t := SortAscending(s);
    var n := |t|;
    assert |t| == |multiset(t)| == |multiset(s)| == |s|;
    assert forall k :: 0 <= k < n ==> t[k] in multiset(s);
    assert forall k :: 0 <= k < n ==> Min(s) <= t[k] <= Max(s);
    if n % 2 == 1 then t[n / 2] else (t[n / 2 - 1] + t[n / 2]) / 2.0
  }

  /** `series.median()` (skipna): NaN exactly when every value is missing, else within the range of the values. */
  function MedianPresent(xs: seq<Option<real>>): (m: Option<real>)
    ensures m.None? <==> Present(xs) == []
    ensures m.Some? ==> MinPresent(xs).value <= m.value <= MaxPresent(xs).value
  {
    var vs := Present(xs);
    if vs == [] then None else Some(Median(vs))
  }
}
