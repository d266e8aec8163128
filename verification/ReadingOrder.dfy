/** The reading-order score of evals/ocr/metrics.py: the length of a longest common
    subsequence over the expected length, computed by a rolling row. */
module ReadingOrder {

  import opened Sequences
  import opened Wrappers

  datatype OrderError = DuplicateIdentifier

  function Max(a: nat, b: nat): nat {
    if a >= b then a else b
  }

  /** The recurrence behind the table; on a match it always steps diagonally. */
  function Common<T(==)>(a: seq<T>, b: seq<T>): nat {
    if a == [] || b == [] then 0
    else if Last(a) == Last(b) then Common(Init(a), Init(b)) + 1
    else Max(Common(Init(a), b), Common(a, Init(b)))
  }

  // ---------- The rolling-row loop ----------

  ghost predicate IsRow<T>(row: seq<nat>, a: seq<T>, b: seq<T>, n: nat) {
    && n <= |b|
    && |row| == n + 1
    && forall j :: 0 <= j <= n ==> row[j] == Common(a, b[..j])
  }

  lemma {:induction false} CommonStep<T>(a: seq<T>, c: T, b: seq<T>, d: T)
    ensures Common(a + [c], b + [d])
         == if c == d then Common(a, b) + 1 else Max(Common(a, b + [d]), Common(a + [c], b))
  {
    assert Init(a + [c]) == a && Init(b + [d]) == b;
  }

  lemma {:induction false} RowExtends<T>(previous: seq<nat>, current: seq<nat>, a: seq<T>, c: T, b: seq<T>, n: nat)
    requires n < |b| && IsRow(previous, a, b, |b|) && IsRow(current, a + [c], b, n)
    ensures IsRow(current + [if c == b[n] then previous[n] + 1 else Max(previous[n + 1], Last(current))],
                  a + [c], b, n + 1)
  {
    var left, above, corner := current[n], previous[n + 1], previous[n];
    var entry := if c == b[n] then corner + 1 else Max(above, left);
    assert entry == Common(a + [c], b[..n + 1]) by {
      CommonStep(a, c, b[..n], b[n]);
      assert b[..n + 1] == b[..n] + [b[n]];
    }
    var a', next := a + [c], current + [entry];
    forall j | 0 <= j <= n + 1 ensures next[j] == Common(a', b[..j]) {
      if j <= n {
        assert next[j] == current[j];
      }
    }
  }

  method NextRow<T(==)>(previous: seq<nat>, a: seq<T>, c: T, b: seq<T>) returns (current: seq<nat>)
    requires IsRow(previous, a, b, |b|)
    ensures IsRow(current, a + [c], b, |b|)
  {
    current := [0];
    for column := 0 to |b|
      invariant IsRow(current, a + [c], b, column)
    {
      RowExtends(previous, current, a, c, b, column);
      current := current + [if c == b[column] then previous[column] + 1
                            else Max(previous[column + 1], Last(current))];
    }
  }

  /** Ordered coverage: the longest common subsequence over the expected length. */
  function OrderScore<T(==)>(expected: seq<T>, predicted: seq<T>): real {
    if expected != [] then Common(expected, predicted) as real / |expected| as real
    else if predicted == [] then 1.0
    else 0.0
  }

  method Score<T(==)>(expected: seq<T>, predicted: seq<T>) returns (r: Result<real, OrderError>)
    ensures r.Failure? <==> !(Distinct(expected) && Distinct(predicted))
    ensures r.Success? ==> r.value == OrderScore(expected, predicted)
  {
    if !Distinct(expected) || !Distinct(predicted) {
      return Failure(DuplicateIdentifier);
    }
    if expected == [] {
      return Success(if predicted == [] then 1.0 else 0.0);
    }
    var previous: seq<nat> := seq(|predicted| + 1, _ => 0);
    for row := 0 to |expected|
      invariant IsRow(previous, expected[..row], predicted, |predicted|)
    {
      previous := NextRow(previous, expected[..row], expected[row], predicted);
      assert expected[..row] + [expected[row]] == expected[..row + 1];
    }
    assert expected[..|expected|] == expected && predicted[..|predicted|] == predicted;
    r := Success(Last(previous) as real / |expected| as real);
  }

  // ---------- Subsequences ----------

  ghost predicate Increasing(f: seq<nat>) {
    forall i, j :: 0 <= i < j < |f| ==> f[i] < f[j]
  }

  /** `f` picks out of `s`, from left to right, the elements of `x`. */
  ghost predicate Picks<T>(f: seq<nat>, s: seq<T>, x: seq<T>) {
    && Increasing(f)
    && |f| == |x|
    && forall k :: 0 <= k < |f| ==> f[k] < |s| && s[f[k]] == x[k]
  }

  ghost predicate Subsequence<T>(x: seq<T>, s: seq<T>) {
    exists f :: Picks(f, s, x)
  }

  lemma {:induction false} PicksFromInit<T>(f: seq<nat>, s: seq<T>, x: seq<T>)
    requires Picks(f, s, x) && s != [] && (f == [] || Last(f) < |s| - 1)
    ensures Picks(f, Init(s), x)
  {
    forall k | 0 <= k < |f| ensures f[k] < |s| - 1 && Init(s)[f[k]] == x[k] {
      assert k < |f| - 1 ==> f[k] < f[|f| - 1];
    }
  }

  lemma {:induction false} PicksInit<T>(f: seq<nat>, s: seq<T>, x: seq<T>)
    requires Picks(f, s, x) && f != []
    ensures s != [] && Picks(Init(f), Init(s), Init(x))
  {
    assert f[|f| - 1] < |s|;
    forall k | 0 <= k < |f| - 1 ensures f[k] < |s| - 1 && Init(s)[f[k]] == Init(x)[k] {
      assert f[k] < f[|f| - 1];
    }
  }

  lemma {:induction false} PicksExtend<T>(f: seq<nat>, s: seq<T>, x: seq<T>, c: T)
    requires Picks(f, s, x)
    ensures Picks(f, s + [c], x) && Picks(f + [|s|], s + [c], x + [c])
  {
  }

  lemma {:induction false} LongestExists<T>(a: seq<T>, b: seq<T>) returns (x: seq<T>, f: seq<nat>, g: seq<nat>)
    ensures Picks(f, a, x) && Picks(g, b, x) && |x| == Common(a, b)
    decreases |a| + |b|
  {
    if a == [] || b == [] {
      x, f, g := [], [], [];
    } else if Last(a) == Last(b) {
      x, f, g := LongestExists(Init(a), Init(b));
      PicksExtend(f, Init(a), x, Last(a));
      PicksExtend(g, Init(b), x, Last(b));
      assert a == Init(a) + [Last(a)] && b == Init(b) + [Last(b)];
      x, f, g := x + [Last(a)], f + [|a| - 1], g + [|b| - 1];
    } else if Common(a, b) == Common(Init(a), b) {
      x, f, g := LongestExists(Init(a), b);
      PicksExtend(f, Init(a), x, Last(a));
      assert a == Init(a) + [Last(a)];
    } else {
      x, f, g := LongestExists(a, Init(b));
      PicksExtend(g, Init(b), x, Last(b));
      assert b == Init(b) + [Last(b)];
    }
  }

  lemma {:induction false} NoLongerCommon<T>(a: seq<T>, b: seq<T>, x: seq<T>, f: seq<nat>, g: seq<nat>)
    requires Picks(f, a, x) && Picks(g, b, x)
    ensures |x| <= Common(a, b)
    decreases |a| + |b|
  {
    if x == [] {
    } else {
      assert f[|f| - 1] < |a| && g[|g| - 1] < |b|;
      if Last(a) == Last(b) {
        PicksInit(f, a, x);
        PicksInit(g, b, x);
        NoLongerCommon(Init(a), Init(b), Init(x), Init(f), Init(g));
      } else if Last(f) < |a| - 1 {
        PicksFromInit(f, a, x);
        NoLongerCommon(Init(a), b, x, f, g);
      } else {
        assert a[Last(f)] == Last(x) == b[Last(g)];
        PicksFromInit(g, b, x);
        NoLongerCommon(a, Init(b), x, f, g);
      }
    }
  }

  /** The diagonal step on a match loses nothing: the recurrence is the exact optimum. */
  lemma {:induction false} CommonIsLongest<T>(a: seq<T>, b: seq<T>)
    ensures exists x :: Subsequence(x, a) && Subsequence(x, b) && |x| == Common(a, b)
    ensures forall x :: Subsequence(x, a) && Subsequence(x, b) ==> |x| <= Common(a, b)
  {
    var y, f, g := LongestExists(a, b);
    assert Subsequence(y, a) && Subsequence(y, b);
    forall x | Subsequence(x, a) && Subsequence(x, b) ensures |x| <= Common(a, b) {
      var f :| Picks(f, a, x);
      var g :| Picks(g, b, x);
      NoLongerCommon(a, b, x, f, g);
    }
  }

  // ---------- What the score says ----------

  lemma {:induction false} IncreasingAtLeast(f: seq<nat>, k: nat)
    requires Increasing(f) && k < |f|
    ensures k <= f[k]
  {
    if k == 0 {
    } else {
      IncreasingAtLeast(f, k - 1);
    }
  }

  lemma {:induction false} IncreasingBelow(f: seq<nat>, k: nat, n: nat)
    requires Increasing(f) && k < |f| && Last(f) < n
    ensures f[k] + |f| <= n + k
    decreases |f| - k
  {
    if k + 1 == |f| {
    } else {
      IncreasingBelow(f, k + 1, n);
    }
  }

  /** Picking as many elements as there are picks all of them. */
  lemma {:induction false} PicksAll<T>(f: seq<nat>, s: seq<T>, x: seq<T>)
    requires Picks(f, s, x) && |x| >= |s|
    ensures x == s
  {
    if f != [] {
      assert f[|f| - 1] < |s|;
      IncreasingAtLeast(f, |f| - 1);
      forall k | 0 <= k < |f| ensures f[k] == k {
        IncreasingAtLeast(f, k);
        IncreasingBelow(f, k, |s|);
      }
    }
  }

  lemma {:induction false} CommonIsFull<T>(expected: seq<T>, predicted: seq<T>)
    ensures Common(expected, predicted) <= |expected|
    ensures Common(expected, predicted) == |expected| <==> Subsequence(expected, predicted)
  {
    var x, f, g := LongestExists(expected, predicted);
    if f != [] {
      assert f[|f| - 1] < |expected|;
      IncreasingAtLeast(f, |f| - 1);
    }
    if |x| == |expected| {
      PicksAll(f, expected, x);
    }
    if Subsequence(expected, predicted) {
      var g' :| Picks(g', predicted, expected);
      var all := seq(|expected|, i requires 0 <= i => i as nat);
      assert Picks(all, expected, expected);
      NoLongerCommon(expected, predicted, expected, all, g');
    }
  }

  lemma {:induction false} Ratio(k: nat, n: nat)
    requires k <= n && n > 0
    ensures 0.0 <= k as real / n as real <= 1.0
    ensures k as real / n as real == 1.0 <==> k == n
  {
    var r := k as real / n as real;
    var d := n as real;
    assert r * d == k as real;
    assert r >= 1.0 ==> (r - 1.0) * d >= 0.0;
    assert r < 0.0 ==> r * d < 0.0;
  }

  /** The score lies in [0, 1], and is 1 exactly when the expectation is a subsequence of the
      prediction, or both are empty. */
  lemma {:induction false} ScoreMeaning<T>(expected: seq<T>, predicted: seq<T>)
    ensures 0.0 <= OrderScore(expected, predicted) <= 1.0
    ensures OrderScore(expected, predicted) == 1.0
       <==> Subsequence(expected, predicted) && (expected == [] ==> predicted == [])
  {
    CommonIsFull(expected, predicted);
    if expected != [] {
      Ratio(Common(expected, predicted), |expected|);
    }
  }

  // ---------- Longest increasing run of matched positions ----------

  ghost function IndexIn<T(!new)>(b: seq<T>, c: T): (i: nat)
    requires c in b
    ensures i < |b| && b[i] == c
  {
    var i :| 0 <= i < |b| && b[i] == c;
    i
  }

  /** The score times the expected length is the length of a longest common subsequence. */
  lemma {:induction false} ScoreValue<T>(expected: seq<T>, predicted: seq<T>) returns (longest: seq<T>)
    requires expected != []
    ensures Subsequence(longest, expected) && Subsequence(longest, predicted)
    ensures forall x :: Subsequence(x, expected) && Subsequence(x, predicted) ==> |x| <= |longest|
    ensures OrderScore(expected, predicted) * |expected| as real == |longest| as real
  {
    hide Subsequence, Common;
    CommonIsLongest(expected, predicted);
    longest :| Subsequence(longest, expected) && Subsequence(longest, predicted)
      && |longest| == Common(expected, predicted);
  }

  /** Where each expected identifier that was predicted stands in the prediction. */
  ghost function Positions<T(!new)>(a: seq<T>, b: seq<T>): (ps: seq<nat>)
    requires Distinct(b)
    ensures forall k :: 0 <= k < |ps| ==> ps[k] < |b|
  {
    if a == [] then []
    else if Last(a) in b then Positions(Init(a), b) + [IndexIn(b, Last(a))]
    else Positions(Init(a), b)
  }

  /** Common subsequences become increasing runs of positions ... */
  lemma {:induction false} RunFromCommon<T(!new)>(a: seq<T>, b: seq<T>, x: seq<T>, f: seq<nat>, g: seq<nat>)
    returns (h: seq<nat>)
    requires Distinct(b) && Picks(f, a, x) && Picks(g, b, x)
    ensures Picks(h, Positions(a, b), g)
    decreases |a|
  {
    if x == [] {
      h := [];
    } else {
      assert f[|f| - 1] < |a| && g[|g| - 1] < |b|;
      if Last(f) < |a| - 1 {
        PicksFromInit(f, a, x);
        h := RunFromCommon(Init(a), b, x, f, g);
        if Last(a) in b {
          PicksExtend(h, Positions(Init(a), b), g, IndexIn(b, Last(a)));
        }
      } else {
        PicksInit(f, a, x);
        assert Picks(Init(g), b, Init(x));
        h := RunFromCommon(Init(a), b, Init(x), Init(f), Init(g));
        assert Last(a) == Last(x) == b[Last(g)];
        assert IndexIn(b, Last(a)) == Last(g);
        PicksExtend(h, Positions(Init(a), b), Init(g), Last(g));
        assert g == Init(g) + [Last(g)];
        h := h + [|Positions(Init(a), b)|];
      }
    }
  }

  /** ... and every increasing run of positions comes from one. */
  lemma {:induction false} CommonFromRun<T(!new)>(a: seq<T>, b: seq<T>, g: seq<nat>, h: seq<nat>)
    returns (x: seq<T>, f: seq<nat>)
    requires Distinct(b) && Picks(h, Positions(a, b), g)
    ensures Picks(f, a, x) && |x| == |g| && forall k :: 0 <= k < |g| ==> g[k] < |b| && b[g[k]] == x[k]
    decreases |a|
  {
    if g == [] {
      x, f := [], [];
    } else {
      var ps := Positions(a, b);
      assert h[|h| - 1] < |ps|;
      if Last(a) in b && Last(h) == |ps| - 1 {
        PicksInit(h, ps, g);
        assert Init(ps) == Positions(Init(a), b);
        x, f := CommonFromRun(Init(a), b, Init(g), Init(h));
        PicksExtend(f, Init(a), x, Last(a));
        assert ps[Last(h)] == Last(g) == IndexIn(b, Last(a));
        x, f := x + [Last(a)], f + [|a| - 1];
      } else {
        if Last(a) in b {
          PicksFromInit(h, ps, g);
          assert Init(ps) == Positions(Init(a), b);
        }
        x, f := CommonFromRun(Init(a), b, g, h);
        PicksExtend(f, Init(a), x, Last(a));
      }
      assert a == Init(a) + [Last(a)];
    }
  }

  /** On duplicate-free predictions the numerator of the score is the length of a longest
      increasing run of matched positions. */
  lemma {:induction false} CommonIsLongestRun<T(!new)>(a: seq<T>, b: seq<T>)
    requires Distinct(b)
    ensures exists g :: Increasing(g) && Subsequence(g, Positions(a, b)) && |g| == Common(a, b)
    ensures forall g :: Increasing(g) && Subsequence(g, Positions(a, b)) ==> |g| <= Common(a, b)
  {
    var x, f, g := LongestExists(a, b);
    var h := RunFromCommon(a, b, x, f, g);
    assert Increasing(g) && Subsequence(g, Positions(a, b));
    forall g | Increasing(g) && Subsequence(g, Positions(a, b)) ensures |g| <= Common(a, b) {
      var h :| Picks(h, Positions(a, b), g);
      var x, f := CommonFromRun(a, b, g, h);
      NoLongerCommon(a, b, x, f, g);
    }
  }
}
