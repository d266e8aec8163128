/** Nearest-rank percentiles of a list of latencies, as used by every report under evals/.  The
    percentile is an exact real in (0, 1]. */
module NearestRank {

  import opened Sorting

  /** `math.ceil`. */
  function Ceil(x: real): int {
    -((-x).Floor)
  }

  function Rank(n: nat, p: real): nat {
    var k := Ceil(p * n as real) - 1;
    if k < 0 then 0 else k
  }

  lemma RankBounds(n: nat, p: real)
    requires 0.0 < p <= 1.0 && n > 0
    ensures Rank(n, p) < n
    ensures Rank(n, p) as real < p * n as real <= Rank(n, p) as real + 1.0
  {
    var x := p * n as real;
    assert x > 0.0;
    assert (1.0 - p) * n as real >= 0.0;
    assert x <= n as real;
  }

  predicate NoMore(a: real, b: real) {
    a <= b
  }

  function SortReals(values: seq<real>): (r: seq<real>)
    ensures |r| == |values|
    ensures forall i, j :: 0 <= i < j < |r| ==> r[i] <= r[j]
  {
    SortIsSorted(values, NoMore);
    Sort(values, NoMore)
  }

  /** The percentile of unsorted values. */
  function Percentile(values: seq<real>, p: real): real
    requires values != [] && 0.0 < p <= 1.0
  {
    RankBounds(|values|, p);
    SortReals(values)[Rank(|values|, p)]
  }

  // ---------- Counting ----------

  /** How many values satisfy `test`. */
  function Count(values: seq<real>, test: real -> bool): nat {
    if values == [] then 0 else (if test(values[0]) then 1 else 0) + Count(values[1..], test)
  }

  lemma {:induction false} CountConcat(a: seq<real>, b: seq<real>, test: real -> bool)
    ensures Count(a + b, test) == Count(a, test) + Count(b, test)
    decreases |a|
  {
    if a == [] {
      assert a + b == b;
    } else {
      assert (a + b)[1..] == a[1..] + b;
      CountConcat(a[1..], b, test);
    }
  }

  lemma {:induction false} CountInsert(x: real, s: seq<real>, test: real -> bool)
    ensures Count(Insert(x, s, NoMore), test) == (if test(x) then 1 else 0) + Count(s, test)
    decreases |s|
  {
    if s == [] || x <= s[0] {
      assert ([x] + s)[1..] == s;
    } else {
      var rest := Insert(x, s[1..], NoMore);
      assert ([s[0]] + rest)[1..] == rest;
      CountInsert(x, s[1..], test);
    }
  }

  lemma {:induction false} CountSorted(values: seq<real>, test: real -> bool)
    ensures Count(SortReals(values), test) == Count(values, test)
    decreases |values|
  {
    if values == [] {
    } else {
      CountSorted(values[1..], test);
      CountInsert(values[0], SortReals(values[1..]), test);
    }
  }

  lemma {:induction false} CountAll(values: seq<real>, test: real -> bool)
    ensures Count(values, test) <= |values|
    ensures (forall i :: 0 <= i < |values| ==> test(values[i])) ==> Count(values, test) == |values|
    ensures (forall i :: 0 <= i < |values| ==> !test(values[i])) ==> Count(values, test) == 0
    decreases |values|
  {
    if values == [] {
    } else {
      CountAll(values[1..], test);
    }
  }

  function Below(x: real): real -> bool {
    (v: real) => v < x
  }

  function AtMost(x: real): real -> bool {
    (v: real) => v <= x
  }

  lemma {:induction false} FewBelow(s: seq<real>, k: nat)
    requires k < |s| && forall i, j :: 0 <= i < j < |s| ==> s[i] <= s[j]
    ensures Count(s, Below(s[k])) <= k
  {
    hide Count;
    var front, back := s[..k], s[k..];
    assert s == front + back;
    CountConcat(front, back, Below(s[k]));
    CountAll(front, Below(s[k]));
    CountAll(back, Below(s[k]));
  }

  lemma {:induction false} ManyAtMost(s: seq<real>, k: nat)
    requires k < |s| && forall i, j :: 0 <= i < j < |s| ==> s[i] <= s[j]
    ensures k + 1 <= Count(s, AtMost(s[k]))
  {
    hide Count;
    var front, back := s[..k + 1], s[k + 1..];
    assert s == front + back;
    CountConcat(front, back, AtMost(s[k]));
    CountAll(front, AtMost(s[k]));
  }

  lemma {:induction false} SortedCounts(values: seq<real>, k: nat)
    requires k < |values|
    ensures var v := SortReals(values)[k]; Count(values, Below(v)) <= k < Count(values, AtMost(v))
  {
    hide Count;
    var s := SortReals(values);
    CountSorted(values, Below(s[k]));
    CountSorted(values, AtMost(s[k]));
    FewBelow(s, k);
    ManyAtMost(s, k);
  }

  /** The percentile is the value whose rank brackets `p * n`: fewer than that many values lie
      below it, and at least that many do not exceed it. */
  lemma {:induction false} PercentileCounts(values: seq<real>, p: real)
    requires values != [] && 0.0 < p <= 1.0
    ensures var v := Percentile(values, p);
      Count(values, Below(v)) as real < p * |values| as real <= Count(values, AtMost(v)) as real
  {
    hide Rank, Count, SortReals;
    RankBounds(|values|, p);
    SortedCounts(values, Rank(|values|, p));
  }

  lemma {:induction false} CountImplied(values: seq<real>, weaker: real -> bool, stronger: real -> bool)
    requires forall v :: weaker(v) ==> stronger(v)
    ensures Count(values, weaker) <= Count(values, stronger)
    decreases |values|
  {
    if values == [] {
    } else {
      CountImplied(values[1..], weaker, stronger);
    }
  }

  /** Nothing else has that rank: the bracketing determines the percentile. */
  lemma PercentileUnique(values: seq<real>, p: real, v: real)
    requires values != [] && 0.0 < p <= 1.0
    requires Count(values, Below(v)) as real < p * |values| as real <= Count(values, AtMost(v)) as real
    ensures v == Percentile(values, p)
  {
    hide Count, Percentile;
    var w := Percentile(values, p);
    PercentileCounts(values, p);
    if v < w {
      CountImplied(values, AtMost(v), Below(w));
    } else if w < v {
      CountImplied(values, AtMost(w), Below(v));
    }
  }

  lemma RankMonotone(n: nat, p: real, q: real)
    requires p <= q
    ensures Rank(n, p) <= Rank(n, q)
  {
    var x, y := p * n as real, q * n as real;
    assert (q - p) * n as real >= 0.0;
    assert x <= y;
    assert Ceil(x) <= Ceil(y);
  }

  /** A higher percentile is never a smaller value. */
  lemma {:induction false} PercentileMonotone(values: seq<real>, p: real, q: real)
    requires values != [] && 0.0 < p <= q <= 1.0
    ensures Percentile(values, p) <= Percentile(values, q)
  {
    hide Rank, SortReals;
    RankBounds(|values|, p);
    RankBounds(|values|, q);
    RankMonotone(|values|, p, q);
  }
}
