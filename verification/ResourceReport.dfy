/** The resource preflight report (evals/resources/preflight.py): a summary per component and
    one for all observations together, over exact reals. */
module ResourceReport {

  import opened NearestRank
  import opened Sequences
  import opened Wrappers

  datatype Outcome = Succeeded | TimedOut | OutOfMemory | Errored

  datatype Component = ApiSingleUvicorn | Bm25Mmap | ExactPgvector | IndexRunner | PostgresSmallPool | StaticWeb

  /** One sample; the aggregates below work for components of any type. */
  datatype Observation<C> = Observation(component: C, sample: nat, latencyMs: real, rssBytes: nat, outcome: Outcome)

  datatype Summary = Summary(
    sampleCount: nat, latencyMean: real, latencyP50: real, latencyP95: real, peakRss: nat, failureCount: nat)

  datatype Report = Report(
    passed: bool, latencyMean: real, latencyP50: real, latencyP95: real, peakRss: nat,
    failureCounts: map<Outcome, nat>, components: map<Component, Summary>)

  datatype ReportError = NoObservations | ComponentMismatch | DuplicateSample

  const P50 := 0.5
  const P95 := 0.95

  /** The required components, sorted by name. */
  const COMPONENTS: seq<Component> := [
    ApiSingleUvicorn, Bm25Mmap, ExactPgvector, IndexRunner, PostgresSmallPool, StaticWeb
  ]

  // ---------- Aggregates ----------

  function Group<C(==)>(observations: seq<Observation<C>>, component: C): seq<Observation<C>> {
    if observations == [] then []
    else (if observations[0].component == component then [observations[0]] else [])
         + Group(observations[1..], component)
  }

  function Latencies<C>(observations: seq<Observation<C>>): (r: seq<real>)
    ensures |r| == |observations|
  {
    seq(|observations|, i requires 0 <= i < |observations| => observations[i].latencyMs)
  }

  /** The sum of a weight over observations. */
  function Total<C>(observations: seq<Observation<C>>, weight: Observation<C> -> real): real {
    if observations == [] then 0.0 else weight(observations[0]) + Total(observations[1..], weight)
  }

  function Sum(values: seq<real>): real {
    if values == [] then 0.0 else values[0] + Sum(values[1..])
  }

  function Mean(values: seq<real>): real
    requires values != []
  {
    Sum(values) / |values| as real
  }

  function PeakRss<C>(observations: seq<Observation<C>>): nat
    requires observations != []
  {
    var rest := observations[1..];
    if rest == [] || observations[0].rssBytes >= PeakRss(rest) then observations[0].rssBytes else PeakRss(rest)
  }

  function CountOutcome<C>(observations: seq<Observation<C>>, outcome: Outcome): nat {
    if observations == [] then 0
    else (if observations[0].outcome == outcome then 1 else 0) + CountOutcome(observations[1..], outcome)
  }

  function Failures<C>(observations: seq<Observation<C>>): nat {
    if observations == [] then 0
    else (if observations[0].outcome != Succeeded then 1 else 0) + Failures(observations[1..])
  }

  function Summarize<C>(group: seq<Observation<C>>): Summary
    requires group != []
  {
    var latencies := Latencies(group);
    Summary(|group|, Mean(latencies), Percentile(latencies, P50),
            Percentile(latencies, P95), PeakRss(group), Failures(group))
  }

  // ---------- The report ----------

  predicate CoversComponents(observations: seq<Observation<Component>>) {
    forall c: Component :: Group(observations, c) != []
  }

  predicate DistinctSamples(observations: seq<Observation<Component>>) {
    forall i, j :: 0 <= i < j < |observations| ==>
      observations[i].component != observations[j].component || observations[i].sample != observations[j].sample
  }

  lemma {:induction false} GroupMembers<C(!new)>(observations: seq<Observation<C>>, c: C)
    ensures forall o :: o in Group(observations, c) <==> o in observations && o.component == c
    decreases |observations|
  {
    if observations == [] {
    } else {
      GroupMembers(observations[1..], c);
      assert observations == [observations[0]] + observations[1..];
    }
  }

  function FailureCounts<C>(observations: seq<Observation<C>>): map<Outcome, nat> {
    map o | o in {TimedOut, OutOfMemory, Errored} && CountOutcome(observations, o) > 0 :: CountOutcome(observations, o)
  }

  function Summaries(observations: seq<Observation<Component>>): map<Component, Summary>
    requires CoversComponents(observations)
  {
    map c: Component | true :: Summarize(Group(observations, c))
  }

  /** The report as a function of accepted observations. */
  function ReportOf(observations: seq<Observation<Component>>): Report
    requires observations != [] && CoversComponents(observations)
  {
    var latencies, counts := Latencies(observations), FailureCounts(observations);
    Report(counts == map[], Mean(latencies), Percentile(latencies, P50), Percentile(latencies, P95),
           PeakRss(observations), counts, Summaries(observations))
  }

  lemma AllListed(c: Component)
    ensures c in COMPONENTS
  {
    assert COMPONENTS[0] == ApiSingleUvicorn && COMPONENTS[1] == Bm25Mmap && COMPONENTS[2] == ExactPgvector;
    assert COMPONENTS[3] == IndexRunner && COMPONENTS[4] == PostgresSmallPool && COMPONENTS[5] == StaticWeb;
  }

  /** The loop over the required components. */
  method BuildSummaries(observations: seq<Observation<Component>>) returns (summaries: map<Component, Summary>)
    requires CoversComponents(observations)
    ensures summaries == Summaries(observations)
  {
    hide Summarize, Group;
    summaries := map[];
    for n := 0 to |COMPONENTS|
      invariant forall c :: c in summaries <==> c in COMPONENTS[..n]
      invariant forall c :: c in summaries ==> summaries[c] == Summarize(Group(observations, c))
    {
      summaries := summaries[COMPONENTS[n] := Summarize(Group(observations, COMPONENTS[n]))];
    }
    assert COMPONENTS[..|COMPONENTS|] == COMPONENTS;
    forall c: Component ensures c in summaries {
      AllListed(c);
    }
  }

  /** Some observation is of this component. */
  ghost predicate Observed(observations: seq<Observation<Component>>, c: Component) {
    exists o :: o in observations && o.component == c
  }

  /** Two observations are the same sample of one component. */
  ghost predicate SampledTwice(observations: seq<Observation<Component>>) {
    exists i, j :: 0 <= i < j < |observations|
      && observations[i].component == observations[j].component && observations[i].sample == observations[j].sample
  }

  lemma CoversMeaning(observations: seq<Observation<Component>>)
    ensures CoversComponents(observations) <==> forall c: Component :: Observed(observations, c)
  {
    hide Group;
    forall c: Component ensures Observed(observations, c) <==> Group(observations, c) != [] {
      GroupMembers(observations, c);
      assert Group(observations, c) != [] ==> Group(observations, c)[0] in Group(observations, c);
    }
  }

  method BuildResourceReport(observations: seq<Observation<Component>>) returns (r: Result<Report, ReportError>)
    ensures r == Failure(NoObservations) <==> observations == []
    ensures r == Failure(ComponentMismatch) <==>
      observations != [] && exists c: Component :: !Observed(observations, c)
    ensures r == Failure(DuplicateSample) <==>
      observations != [] && (forall c: Component :: Observed(observations, c)) && SampledTwice(observations)
    ensures r.Success? ==> CoversComponents(observations) && r.value == ReportOf(observations)
  {
    CoversMeaning(observations);
    hide CoversComponents, Observed;
    hide Percentile, PeakRss, Group, FailureCounts, Mean, Summarize;
    if observations == [] {
      return Failure(NoObservations);
    }
    if !CoversComponents(observations) {
      return Failure(ComponentMismatch);
    }
    if !DistinctSamples(observations) {
      return Failure(DuplicateSample);
    }
    var summaries := BuildSummaries(observations);
    var latencies, counts := Latencies(observations), FailureCounts(observations);
    r := Success(Report(counts == map[], Mean(latencies), Percentile(latencies, P50), Percentile(latencies, P95),
                        PeakRss(observations), counts, summaries));
  }

  // ---------- Nothing is lost between components ----------

  /** The sum of a per-component value over a list of components. */
  ghost function OverComponents<C>(components: seq<C>, value: C -> real): real {
    if components == [] then 0.0 else value(components[0]) + OverComponents(components[1..], value)
  }

  ghost function GroupTotal<C>(observations: seq<Observation<C>>, weight: Observation<C> -> real): C -> real {
    (c: C) => Total(Group(observations, c), weight)
  }

  lemma {:induction false} OverAdd<C(!new)>(components: seq<C>, first: C -> real, c: C, w: real, sum: C -> real)
    requires Distinct(components)
    requires forall d :: sum(d) == first(d) + if d == c then w else 0.0
    ensures OverComponents(components, sum) == OverComponents(components, first) + if c in components then w else 0.0
    decreases |components|
  {
    if components == [] {
    } else {
      assert components == [components[0]] + components[1..];
      assert Distinct(components[1..]) && components[0] !in components[1..];
      OverAdd(components[1..], first, c, w, sum);
    }
  }

  lemma {:induction false} OverZero<C(!new)>(components: seq<C>, value: C -> real)
    requires forall c :: value(c) == 0.0
    ensures OverComponents(components, value) == 0.0
    decreases |components|
  {
    if components == [] {
    } else {
      OverZero(components[1..], value);
    }
  }

  /** Any weight summed per component and then over the components is the weight summed over all
      observations. */
  lemma {:induction false} Conservation<C(!new)>(observations: seq<Observation<C>>, components: seq<C>,
                                          weight: Observation<C> -> real)
    requires Distinct(components)
    requires forall i :: 0 <= i < |observations| ==> observations[i].component in components
    ensures OverComponents(components, GroupTotal(observations, weight)) == Total(observations, weight)
    decreases |observations|
  {
    if observations == [] {
      OverZero(components, GroupTotal(observations, weight));
    } else {
      var first, rest := observations[0], observations[1..];
      Conservation(rest, components, weight);
      forall d ensures GroupTotal(observations, weight)(d)
          == GroupTotal(rest, weight)(d) + if d == first.component then weight(first) else 0.0 {
        if d == first.component {
          assert ([first] + Group(rest, d))[1..] == Group(rest, d);
        } else {
          assert [] + Group(rest, d) == Group(rest, d);
        }
      }
      OverAdd(components, GroupTotal(rest, weight), first.component, weight(first), GroupTotal(observations, weight));
    }
  }

  lemma {:induction false} OverSame<C(!new)>(components: seq<C>, first: C -> real, second: C -> real)
    requires forall c :: c in components ==> first(c) == second(c)
    ensures OverComponents(components, first) == OverComponents(components, second)
    decreases |components|
  {
    if components == [] {
    } else {
      OverSame(components[1..], first, second);
    }
  }

  lemma {:induction false} OverLess<C(!new)>(components: seq<C>, first: C -> real, second: C -> real)
    requires components != [] && forall c :: c in components ==> first(c) < second(c)
    ensures OverComponents(components, first) < OverComponents(components, second)
    decreases |components|
  {
    if |components| == 1 {
      assert components[1..] == [];
    } else {
      OverLess(components[1..], first, second);
    }
  }

  // Weights for the aggregates of the report.

  function Each<C>(p: real): Observation<C> -> real {
    (o: Observation<C>) => p
  }

  function Latency<C>(): Observation<C> -> real {
    (o: Observation<C>) => o.latencyMs
  }

  function Failed<C>(): Observation<C> -> real {
    (o: Observation<C>) => if o.outcome != Succeeded then 1.0 else 0.0
  }

  function Passing<C>(test: real -> bool): Observation<C> -> real {
    (o: Observation<C>) => if test(o.latencyMs) then 1.0 else 0.0
  }

  lemma {:induction false} TotalEach<C(!new)>(observations: seq<Observation<C>>, p: real)
    ensures Total(observations, Each(p)) == p * |observations| as real
    decreases |observations|
  {
    if observations == [] {
    } else {
      TotalEach(observations[1..], p);
    }
  }

  lemma {:induction false} TotalLatency<C(!new)>(observations: seq<Observation<C>>)
    ensures Total(observations, Latency()) == Sum(Latencies(observations))
    decreases |observations|
  {
    if observations == [] {
    } else {
      TotalLatency(observations[1..]);
      assert Latencies(observations)[1..] == Latencies(observations[1..]);
    }
  }

  lemma {:induction false} TotalFailed<C(!new)>(observations: seq<Observation<C>>)
    ensures Total(observations, Failed()) == Failures(observations) as real
    decreases |observations|
  {
    if observations == [] {
    } else {
      TotalFailed(observations[1..]);
    }
  }

  lemma {:induction false} TotalPassing<C(!new)>(observations: seq<Observation<C>>, test: real -> bool)
    ensures Total(observations, Passing(test)) == Count(Latencies(observations), test) as real
    decreases |observations|
  {
    if observations == [] {
    } else {
      TotalPassing(observations[1..], test);
      assert Latencies(observations)[1..] == Latencies(observations[1..]);
    }
  }

  lemma {:induction false} FailuresByOutcome<C(!new)>(observations: seq<Observation<C>>)
    ensures Failures(observations) == CountOutcome(observations, TimedOut)
      + CountOutcome(observations, OutOfMemory) + CountOutcome(observations, Errored)
    decreases |observations|
  {
    if observations == [] {
    } else {
      FailuresByOutcome(observations[1..]);
    }
  }

  function Reported(counts: map<Outcome, nat>, outcome: Outcome): nat {
    if outcome in counts then counts[outcome] else 0
  }

  // ---------- Main results ----------

  /** A field of the component summaries, summed over the components. */
  ghost function SummedField(r: Report, field: Summary -> real): real {
    OverComponents(COMPONENTS, (c: Component) => if c in r.components then field(r.components[c]) else 0.0)
  }

  lemma ComponentsListed(observations: seq<Observation<Component>>)
    ensures Distinct(COMPONENTS)
    ensures forall i :: 0 <= i < |observations| ==> observations[i].component in COMPONENTS
  {
    forall i | 0 <= i < |observations| ensures observations[i].component in COMPONENTS {
      AllListed(observations[i].component);
    }
  }

  lemma ReportComponent(observations: seq<Observation<Component>>, c: Component)
    requires observations != [] && CoversComponents(observations)
    ensures c in ReportOf(observations).components
    ensures ReportOf(observations).components[c] == Summarize(Group(observations, c))
  {
  }

  lemma {:induction false} SummedIsTotal(observations: seq<Observation<Component>>, field: Summary -> real,
                                         weight: Observation<Component> -> real)
    requires observations != [] && CoversComponents(observations)
    requires forall c: Component :: field(Summarize(Group(observations, c))) == Total(Group(observations, c), weight)
    ensures SummedField(ReportOf(observations), field) == Total(observations, weight)
  {
    hide Summarize, Group, Total, ReportOf, OverComponents, COMPONENTS;
    var r := ReportOf(observations);
    var value := (c: Component) => if c in r.components then field(r.components[c]) else 0.0;
    forall c: Component ensures value(c) == GroupTotal(observations, weight)(c) {
      ReportComponent(observations, c);
    }
    ComponentsListed(observations);
    Conservation(observations, COMPONENTS, weight);
    OverSame(COMPONENTS, value, GroupTotal(observations, weight));
  }

  // The fields that are summed.

  function Samples(): Summary -> real {
    (s: Summary) => s.sampleCount as real
  }

  function FailureField(): Summary -> real {
    (s: Summary) => s.failureCount as real
  }

  function WeightedMean(): Summary -> real {
    (s: Summary) => s.latencyMean * s.sampleCount as real
  }

  lemma {:induction false} GroupFields<C(!new)>(group: seq<Observation<C>>)
    requires group != []
    ensures Samples()(Summarize(group)) == Total(group, Each(1.0))
    ensures FailureField()(Summarize(group)) == Total(group, Failed())
    ensures WeightedMean()(Summarize(group)) == Total(group, Latency())
  {
    hide Total, Percentile, PeakRss, Sum, Failures;
    TotalEach(group, 1.0);
    TotalFailed(group);
    TotalLatency(group);
  }

  lemma {:induction false} OverallFields(observations: seq<Observation<Component>>)
    requires observations != [] && CoversComponents(observations)
    ensures var r := ReportOf(observations);
      && Total(observations, Each(1.0)) == |observations| as real
      && Total(observations, Failed()) == (Reported(r.failureCounts, TimedOut)
           + Reported(r.failureCounts, OutOfMemory) + Reported(r.failureCounts, Errored)) as real
      && Total(observations, Latency()) == r.latencyMean * |observations| as real
  {
    hide Total, Percentile, PeakRss, Sum, Failures, Group, Summarize, CountOutcome;
    TotalEach(observations, 1.0);
    TotalFailed(observations);
    FailuresByOutcome(observations);
    TotalLatency(observations);
  }

  /** Sample counts add up to the number of observations, component failures to the reported
      failure counts, and the overall mean is the sample-weighted mean of the component means. */
  lemma {:induction false} ReportConserves(observations: seq<Observation<Component>>)
    requires observations != [] && CoversComponents(observations)
    ensures var r := ReportOf(observations);
      && SummedField(r, Samples()) == |observations| as real
      && SummedField(r, FailureField()) == (Reported(r.failureCounts, TimedOut)
           + Reported(r.failureCounts, OutOfMemory) + Reported(r.failureCounts, Errored)) as real
      && SummedField(r, WeightedMean()) == r.latencyMean * |observations| as real
  {
    OverallFields(observations);
    hide Total, ReportOf, SummedField, Summarize, Group, Samples, FailureField, WeightedMean, Reported;
    forall c: Component {:trigger Group(observations, c)}
      ensures Samples()(Summarize(Group(observations, c))) == Total(Group(observations, c), Each(1.0))
      ensures FailureField()(Summarize(Group(observations, c))) == Total(Group(observations, c), Failed())
      ensures WeightedMean()(Summarize(Group(observations, c))) == Total(Group(observations, c), Latency())
    {
      GroupFields(Group(observations, c));
    }
    SummedIsTotal(observations, Samples(), Each(1.0));
    SummedIsTotal(observations, FailureField(), Failed());
    SummedIsTotal(observations, WeightedMean(), Latency());
  }

  lemma {:induction false} PeakIsLargest<C(!new)>(observations: seq<Observation<C>>)
    requires observations != []
    ensures forall o :: o in observations ==> o.rssBytes <= PeakRss(observations)
    ensures exists o :: o in observations && o.rssBytes == PeakRss(observations)
    decreases |observations|
  {
    var rest := observations[1..];
    assert observations == [observations[0]] + rest;
    if rest == [] {
    } else {
      PeakIsLargest(rest);
    }
    assert observations[0] in observations;
  }

  /** The overall peak is the largest component peak. */
  lemma {:induction false} PeakOfPeaks(observations: seq<Observation<Component>>)
    requires observations != [] && CoversComponents(observations)
    ensures var r := ReportOf(observations);
      && (forall c: Component :: r.components[c].peakRss <= r.peakRss)
      && exists c: Component :: r.components[c].peakRss == r.peakRss
  {
    var r := ReportOf(observations);
    PeakIsLargest(observations);
    hide PeakRss, Group, Percentile, Mean, Failures;
    forall c: Component ensures r.components[c].peakRss <= r.peakRss {
      GroupMembers(observations, c);
      PeakIsLargest(Group(observations, c));
    }
    var o :| o in observations && o.rssBytes == PeakRss(observations);
    GroupMembers(observations, o.component);
    PeakIsLargest(Group(observations, o.component));
    assert r.components[o.component].peakRss == r.peakRss;
  }

  lemma {:induction false} NoFailures<C(!new)>(observations: seq<Observation<C>>)
    ensures Failures(observations) == 0 <==> forall o :: o in observations ==> o.outcome == Succeeded
    decreases |observations|
  {
    if observations == [] {
    } else {
      NoFailures(observations[1..]);
      assert observations == [observations[0]] + observations[1..];
    }
  }

  lemma {:induction false} NoFailureCounts<C(!new)>(observations: seq<Observation<C>>)
    ensures FailureCounts(observations) == map[] <==> Failures(observations) == 0
  {
    FailuresByOutcome(observations);
    hide CountOutcome, Failures;
    var counts := FailureCounts(observations);
    assert TimedOut in counts <==> CountOutcome(observations, TimedOut) > 0;
    assert OutOfMemory in counts <==> CountOutcome(observations, OutOfMemory) > 0;
    assert Errored in counts <==> CountOutcome(observations, Errored) > 0;
    assert Succeeded !in counts;
    if Failures(observations) == 0 {
      assert forall o: Outcome :: o !in counts;
    }
  }

  /** The preflight passes exactly when no component has a failure. */
  lemma {:induction false} PassedMeansNoFailure(observations: seq<Observation<Component>>)
    requires observations != [] && CoversComponents(observations)
    ensures var r := ReportOf(observations);
      r.passed <==> forall c: Component :: r.components[c].failureCount == 0
  {
    hide PeakRss, Group, Percentile, Mean, Failures, FailureCounts;
    var r := ReportOf(observations);
    NoFailureCounts(observations);
    NoFailures(observations);
    forall c: Component ensures r.components[c].failureCount == 0
        <==> forall o :: o in observations && o.component == c ==> o.outcome == Succeeded {
      NoFailures(Group(observations, c));
      GroupMembers(observations, c);
    }
    if forall c: Component :: r.components[c].failureCount == 0 {
      forall o | o in observations ensures o.outcome == Succeeded {
        assert r.components[o.component].failureCount == 0;
      }
    }
  }

  // ---------- Percentiles of the whole and of its parts ----------

  /** The groups of `components` split the observations into non-empty parts. */
  ghost predicate IsSplit<C(!new)>(observations: seq<Observation<C>>, components: seq<C>) {
    && observations != [] && Distinct(components)
    && (forall i :: 0 <= i < |observations| ==> observations[i].component in components)
    && forall c :: c in components ==> Group(observations, c) != []
  }

  /** The percentile of one component. */
  ghost function PartPercentile<C(!new)>(observations: seq<Observation<C>>, c: C, p: real): real
    requires Group(observations, c) != [] && 0.0 < p <= 1.0
  {
    Percentile(Latencies(Group(observations, c)), p)
  }

  lemma {:induction false} GroupAbove<C(!new)>(group: seq<Observation<C>>, p: real, v: real)
    requires group != [] && 0.0 < p <= 1.0 && v < Percentile(Latencies(group), p)
    ensures Total(group, Passing(AtMost(v))) < Total(group, Each(p))
  {
    hide Total, Percentile, Count;
    var w := Percentile(Latencies(group), p);
    PercentileCounts(Latencies(group), p);
    CountImplied(Latencies(group), AtMost(v), Below(w));
    TotalPassing(group, AtMost(v));
    TotalEach(group, p);
  }

  lemma {:induction false} GroupUnder<C(!new)>(group: seq<Observation<C>>, p: real, v: real)
    requires group != [] && 0.0 < p <= 1.0 && Percentile(Latencies(group), p) < v
    ensures Total(group, Each(p)) <= Total(group, Passing(Below(v)))
  {
    hide Total, Percentile, Count;
    var w := Percentile(Latencies(group), p);
    PercentileCounts(Latencies(group), p);
    CountImplied(Latencies(group), AtMost(w), Below(v));
    TotalPassing(group, Below(v));
    TotalEach(group, p);
  }

  lemma {:induction false} NotAllAbove<C(!new)>(observations: seq<Observation<C>>, components: seq<C>, p: real)
    requires IsSplit(observations, components) && 0.0 < p <= 1.0
    ensures exists c :: c in components && PartPercentile(observations, c, p) <= Percentile(Latencies(observations), p)
  {
    hide Total, Percentile, Count, Group, OverComponents;
    var v := Percentile(Latencies(observations), p);
    if forall c :: c in components ==> v < PartPercentile(observations, c, p) {
      forall c | c in components
        ensures GroupTotal(observations, Passing(AtMost(v)))(c) < GroupTotal(observations, Each(p))(c)
      {
        GroupAbove(Group(observations, c), p, v);
      }
      assert observations[0].component in components;
      OverLess(components, GroupTotal(observations, Passing(AtMost(v))), GroupTotal(observations, Each(p)));
      Conservation(observations, components, Passing(AtMost(v)));
      Conservation(observations, components, Each(p));
      TotalPassing(observations, AtMost(v));
      TotalEach(observations, p);
      PercentileCounts(Latencies(observations), p);
      assert false;
    }
  }

  lemma {:induction false} OverAtMost<C(!new)>(components: seq<C>, first: C -> real, second: C -> real)
    requires forall c :: c in components ==> first(c) <= second(c)
    ensures OverComponents(components, first) <= OverComponents(components, second)
    decreases |components|
  {
    if components == [] {
    } else {
      OverAtMost(components[1..], first, second);
    }
  }

  lemma {:induction false} NotAllUnder<C(!new)>(observations: seq<Observation<C>>, components: seq<C>, p: real)
    requires IsSplit(observations, components) && 0.0 < p <= 1.0
    ensures exists c :: c in components && Percentile(Latencies(observations), p) <= PartPercentile(observations, c, p)
  {
    hide Total, Percentile, Count, Group, OverComponents;
    var v := Percentile(Latencies(observations), p);
    if forall c :: c in components ==> PartPercentile(observations, c, p) < v {
      forall c | c in components
        ensures GroupTotal(observations, Each(p))(c) <= GroupTotal(observations, Passing(Below(v)))(c)
      {
        GroupUnder(Group(observations, c), p, v);
      }
      OverAtMost(components, GroupTotal(observations, Each(p)), GroupTotal(observations, Passing(Below(v))));
      Conservation(observations, components, Passing(Below(v)));
      Conservation(observations, components, Each(p));
      TotalPassing(observations, Below(v));
      TotalEach(observations, p);
      PercentileCounts(Latencies(observations), p);
      assert false;
    }
  }

  /** For any split into non-empty components, a percentile of all observations lies between the
      smallest and the largest component value of the same percentile. */
  lemma {:induction false} PercentileBetween<C(!new)>(observations: seq<Observation<C>>, components: seq<C>, p: real)
    returns (low: C, high: C)
    requires IsSplit(observations, components) && 0.0 < p <= 1.0
    ensures low in components && high in components
    ensures PartPercentile(observations, low, p) <= Percentile(Latencies(observations), p)
         <= PartPercentile(observations, high, p)
  {
    hide Percentile, Group;
    NotAllAbove(observations, components, p);
    NotAllUnder(observations, components, p);
    var v := Percentile(Latencies(observations), p);
    low :| low in components && PartPercentile(observations, low, p) <= v;
    high :| high in components && v <= PartPercentile(observations, high, p);
  }

  /** Both percentiles of the report lie between those of its components. */
  lemma {:induction false} ReportPercentilesBetween(observations: seq<Observation<Component>>)
    requires observations != [] && CoversComponents(observations)
    ensures var r := ReportOf(observations);
      && (exists low, high: Component ::
            r.components[low].latencyP50 <= r.latencyP50 <= r.components[high].latencyP50)
      && (exists low, high: Component ::
            r.components[low].latencyP95 <= r.latencyP95 <= r.components[high].latencyP95)
  {
    hide Percentile, Group, Mean, PeakRss, Failures, FailureCounts;
    var r := ReportOf(observations);
    ComponentsListed(observations);
    var low, high := PercentileBetween(observations, COMPONENTS, P50);
    assert r.components[low].latencyP50 <= r.latencyP50 <= r.components[high].latencyP50;
    low, high := PercentileBetween(observations, COMPONENTS, P95);
    assert r.components[low].latencyP95 <= r.latencyP95 <= r.components[high].latencyP95;
  }

  /** In the report and in every component the median does not exceed the 95th percentile. */
  lemma {:induction false} PercentilesOrdered(observations: seq<Observation<Component>>)
    requires observations != [] && CoversComponents(observations)
    ensures var r := ReportOf(observations);
      r.latencyP50 <= r.latencyP95 && forall c: Component :: r.components[c].latencyP50 <= r.components[c].latencyP95
  {
    hide Percentile, Group, Mean, PeakRss, Failures, FailureCounts, Latencies;
    PercentileMonotone(Latencies(observations), P50, P95);
    forall c: Component
      ensures ReportOf(observations).components[c].latencyP50 <= ReportOf(observations).components[c].latencyP95
    {
      ReportComponent(observations, c);
      PercentileMonotone(Latencies(Group(observations, c)), P50, P95);
    }
  }

  // ---------- Every figure, read off the observations ----------

  function Faster<C>(v: real): Observation<C> -> bool {
    (o: Observation<C>) => o.latencyMs < v
  }

  function NotSlower<C>(v: real): Observation<C> -> bool {
    (o: Observation<C>) => o.latencyMs <= v
  }

  function NotSucceeded<C>(): Observation<C> -> bool {
    (o: Observation<C>) => o.outcome != Succeeded
  }

  function Ended<C>(outcome: Outcome): Observation<C> -> bool {
    (o: Observation<C>) => o.outcome == outcome
  }

  function Any<C>(): Observation<C> -> bool {
    (o: Observation<C>) => true
  }

  function Of<C(==)>(c: C, test: Observation<C> -> bool): Observation<C> -> bool {
    (o: Observation<C>) => o.component == c && test(o)
  }

  function Timed<C>(test: real -> bool): Observation<C> -> bool {
    (o: Observation<C>) => test(o.latencyMs)
  }

  ghost function Chosen<C(!new)>(observations: seq<Observation<C>>, test: Observation<C> -> bool): set<nat> {
    set i: nat | i < |observations| && test(observations[i])
  }

  /** How many observations satisfy `test`. */
  ghost function Size<C(!new)>(observations: seq<Observation<C>>, test: Observation<C> -> bool): nat {
    |Chosen(observations, test)|
  }

  function CountBy<C>(observations: seq<Observation<C>>, test: Observation<C> -> bool): nat {
    if observations == [] then 0
    else CountBy(Init(observations), test) + if test(Last(observations)) then 1 else 0
  }

  lemma ChosenAppend<C(!new)>(front: seq<Observation<C>>, o: Observation<C>, test: Observation<C> -> bool, i: nat)
    ensures i in Chosen(front + [o], test) <==> i in Chosen(front, test) || (i == |front| && test(o))
    ensures i in Chosen(front, test) ==> i < |front|
  {
    assert i < |front| ==> (front + [o])[i] == front[i];
  }

  lemma SizeAppend<C(!new)>(front: seq<Observation<C>>, o: Observation<C>, test: Observation<C> -> bool)
    ensures Size(front + [o], test) == Size(front, test) + if test(o) then 1 else 0
  {
    hide Chosen;
    var before, after := Chosen(front, test), Chosen(front + [o], test);
    forall i: nat
      ensures i in after <==> i in before || (i == |front| && test(o))
      ensures i in before ==> i < |front|
    {
      ChosenAppend(front, o, test, i);
    }
    if test(o) {
      assert after == before + {|front|};
    } else {
      assert after == before;
    }
  }

  lemma NothingHasSize<C(!new)>(test: Observation<C> -> bool)
    ensures Size([], test) == 0
  {
    var none: seq<Observation<C>> := [];
    assert Chosen(none, test) == {};
  }

  lemma {:induction false} CountBySize<C(!new)>(observations: seq<Observation<C>>, test: Observation<C> -> bool)
    ensures CountBy(observations, test) == Size(observations, test)
    decreases |observations|
  {
    hide Size;
    if observations == [] {
      NothingHasSize(test);
    } else {
      CountBySize(Init(observations), test);
      assert observations == Init(observations) + [Last(observations)];
      SizeAppend(Init(observations), Last(observations), test);
    }
  }

  lemma {:induction false} CountByConcat<C(!new)>(a: seq<Observation<C>>, b: seq<Observation<C>>,
                                                  test: Observation<C> -> bool)
    ensures CountBy(a + b, test) == CountBy(a, test) + CountBy(b, test)
    decreases |b|
  {
    if b == [] {
      assert a + b == a;
    } else {
      assert Init(a + b) == a + Init(b);
      CountByConcat(a, Init(b), test);
    }
  }

  /** Any count that goes through a list one by one is the same count. */
  lemma CountByHead<C(!new)>(observations: seq<Observation<C>>, test: Observation<C> -> bool)
    requires observations != []
    ensures CountBy(observations, test) == (if test(observations[0]) then 1 else 0) + CountBy(observations[1..], test)
  {
    assert observations == [observations[0]] + observations[1..];
    CountByConcat([observations[0]], observations[1..], test);
    assert Init([observations[0]]) == [];
  }

  lemma NothingToCount<C>(test: Observation<C> -> bool)
    ensures CountBy([], test) == 0
  {
  }

  lemma {:induction false} OutcomeCount<C(!new)>(observations: seq<Observation<C>>, outcome: Outcome)
    ensures CountOutcome(observations, outcome) == CountBy(observations, Ended(outcome))
    decreases |observations|
  {
    hide CountBy;
    if observations == [] {
      NothingToCount<C>(Ended(outcome));
    } else {
      OutcomeCount(observations[1..], outcome);
      CountByHead(observations, Ended(outcome));
    }
  }

  lemma {:induction false} FailureCount<C(!new)>(observations: seq<Observation<C>>)
    ensures Failures(observations) == CountBy(observations, NotSucceeded())
    decreases |observations|
  {
    hide CountBy;
    if observations == [] {
      NothingToCount<C>(NotSucceeded());
    } else {
      FailureCount(observations[1..]);
      CountByHead(observations, NotSucceeded());
    }
  }

  lemma {:induction false} LatencyCount<C(!new)>(observations: seq<Observation<C>>, test: real -> bool)
    ensures Count(Latencies(observations), test) == CountBy(observations, Timed(test))
    decreases |observations|
  {
    hide CountBy;
    if observations == [] {
      NothingToCount<C>(Timed(test));
    } else {
      LatencyCount(observations[1..], test);
      assert Latencies(observations)[1..] == Latencies(observations[1..]);
      CountByHead(observations, Timed(test));
    }
  }

  /** Counting in the group of a component is counting its observations. */
  lemma {:induction false} GroupCount<C(!new)>(observations: seq<Observation<C>>, c: C, test: Observation<C> -> bool)
    ensures CountBy(Group(observations, c), test)
         == CountBy(observations, Of(c, test))
    decreases |observations|
  {
    hide CountBy;
    var own := Of(c, test);
    if observations == [] {
      NothingToCount<C>(test);
      NothingToCount<C>(own);
    } else {
      var rest := Group(observations[1..], c);
      GroupCount(observations[1..], c, test);
      CountByHead(observations, own);
      if observations[0].component == c {
        assert ([observations[0]] + rest)[1..] == rest;
        CountByHead([observations[0]] + rest, test);
      } else {
        assert [] + rest == rest;
      }
    }
  }

  lemma {:induction false} SameCount<C(!new)>(observations: seq<Observation<C>>, first: Observation<C> -> bool,
                                              second: Observation<C> -> bool)
    requires forall o :: first(o) == second(o)
    ensures CountBy(observations, first) == CountBy(observations, second)
    decreases |observations|
  {
    if observations == [] {
    } else {
      SameCount(Init(observations), first, second);
    }
  }

  /** The percentile of a group: fewer than `p * n` of its observations are faster, and at least that
      many are not slower. */
  lemma {:induction false} PercentileSizes<C(!new)>(group: seq<Observation<C>>, p: real)
    requires group != [] && 0.0 < p <= 1.0
    ensures var v := Percentile(Latencies(group), p);
      CountBy(group, Faster(v)) as real < p * |group| as real <= CountBy(group, NotSlower(v)) as real
  {
    hide CountBy, Count, Percentile, Latencies;
    var v := Percentile(Latencies(group), p);
    PercentileCounts(Latencies(group), p);
    LatencyCount(group, Below(v));
    LatencyCount(group, AtMost(v));
    SameCount(group, Timed(Below(v)), Faster(v));
    SameCount(group, Timed(AtMost(v)), NotSlower(v));
  }

  lemma MeanOfOne(x: real)
    ensures Mean([x]) == x
  {
    var one := [x];
    assert one[1..] == [] && Sum(one[1..]) == 0.0;
    assert Sum(one) == x;
  }

  lemma {:induction false} SumConcat(a: seq<real>, b: seq<real>)
    ensures Sum(a + b) == Sum(a) + Sum(b)
    decreases |a|
  {
    if a == [] {
      assert a + b == b;
    } else {
      assert (a + b)[1..] == a[1..] + b;
      SumConcat(a[1..], b);
    }
  }

  /** The mean of a longer list is the weighted mean of its parts; with single values this determines
      it. */
  lemma {:induction false} MeanConcat(a: seq<real>, b: seq<real>)
    requires a != [] && b != []
    ensures Mean(a + b) * (|a| + |b|) as real == Mean(a) * |a| as real + Mean(b) * |b| as real
  {
    SumConcat(a, b);
  }

  /** `v` is the percentile `p` of the observations that satisfy `test`. */
  ghost predicate IsPercentile(observations: seq<Observation<Component>>, test: Observation<Component> -> bool,
                               faster: Observation<Component> -> bool, notSlower: Observation<Component> -> bool,
                               p: real)
  {
    Size(observations, faster) as real < p * Size(observations, test) as real <= Size(observations, notSlower) as real
  }

  lemma GroupSize(observations: seq<Observation<Component>>, c: Component, test: Observation<Component> -> bool)
    ensures CountBy(Group(observations, c), test) == Size(observations, Of(c, test))
  {
    hide Size, CountBy, Group;
    GroupCount(observations, c, test);
    CountBySize(observations, Of(c, test));
  }

  lemma {:induction false} CountEach(group: seq<Observation<Component>>)
    ensures CountBy(group, Any()) == |group|
    decreases |group|
  {
    if group == [] {
    } else {
      CountEach(Init(group));
    }
  }

  lemma GroupFigures(observations: seq<Observation<Component>>, c: Component)
    ensures |Group(observations, c)| == Size(observations, Of(c, Any()))
    ensures Failures(Group(observations, c)) == Size(observations, Of(c, NotSucceeded()))
  {
    hide Size, CountBy, Group, Failures;
    var group := Group(observations, c);
    CountEach(group);
    GroupSize(observations, c, Any());
    FailureCount(group);
    GroupSize(observations, c, NotSucceeded());
  }

  lemma GroupPercentile(observations: seq<Observation<Component>>, c: Component, p: real)
    requires Group(observations, c) != [] && 0.0 < p <= 1.0
    ensures var v := Percentile(Latencies(Group(observations, c)), p);
      IsPercentile(observations, Of(c, Any()), Of(c, Faster(v)), Of(c, NotSlower(v)), p)
  {
    hide Size, CountBy, Group, Percentile, Latencies;
    var v := Percentile(Latencies(Group(observations, c)), p);
    PercentileSizes(Group(observations, c), p);
    GroupFigures(observations, c);
    GroupSize(observations, c, Faster(v));
    GroupSize(observations, c, NotSlower(v));
  }

  /** Every figure of a component, in terms of the observations of that component. */
  lemma {:induction false} ComponentValues(observations: seq<Observation<Component>>, c: Component)
    requires observations != [] && CoversComponents(observations)
    ensures var s := ReportOf(observations).components[c];
      && s.sampleCount == Size(observations, Of(c, Any()))
      && s.failureCount == Size(observations, Of(c, NotSucceeded()))
      && s.latencyMean == Mean(Latencies(Group(observations, c)))
      && (forall o :: o in observations && o.component == c ==> o.rssBytes <= s.peakRss)
      && (exists o :: o in observations && o.component == c && o.rssBytes == s.peakRss)
      && IsPercentile(observations, Of(c, Any()), Of(c, Faster(s.latencyP50)), Of(c, NotSlower(s.latencyP50)), 0.5)
      && IsPercentile(observations, Of(c, Any()), Of(c, Faster(s.latencyP95)), Of(c, NotSlower(s.latencyP95)), 0.95)
  {
    hide IsPercentile, Size, Group, Percentile, Latencies, Mean, PeakRss, Failures, ReportOf;
    ReportComponent(observations, c);
    GroupFigures(observations, c);
    GroupPercentile(observations, c, 0.5);
    GroupPercentile(observations, c, 0.95);
    GroupMembers(observations, c);
    PeakIsLargest(Group(observations, c));
  }

  lemma WholePercentile(observations: seq<Observation<Component>>, p: real)
    requires observations != [] && 0.0 < p <= 1.0
    ensures var v := Percentile(Latencies(observations), p);
      IsPercentile(observations, Any(), Faster(v), NotSlower(v), p)
  {
    hide Size, CountBy, Percentile, Latencies;
    var v := Percentile(Latencies(observations), p);
    PercentileSizes(observations, p);
    CountEach(observations);
    CountBySize(observations, Any());
    CountBySize(observations, Faster(v));
    CountBySize(observations, NotSlower(v));
  }

  /** The overall percentiles and the count of every failing outcome; outcomes without an observation
      are not listed. */
  lemma {:induction false} ReportValues(observations: seq<Observation<Component>>, outcome: Outcome)
    requires observations != [] && CoversComponents(observations)
    ensures var r, count := ReportOf(observations), Size(observations, Ended(outcome));
      && IsPercentile(observations, Any(), Faster(r.latencyP50), NotSlower(r.latencyP50), 0.5)
      && IsPercentile(observations, Any(), Faster(r.latencyP95), NotSlower(r.latencyP95), 0.95)
      && (outcome in r.failureCounts <==> outcome != Succeeded && count > 0)
      && (outcome in r.failureCounts ==> r.failureCounts[outcome] == count)
      && r.latencyMean == Mean(Latencies(observations))
      && (forall o :: o in observations ==> o.rssBytes <= r.peakRss)
      && (exists o :: o in observations && o.rssBytes == r.peakRss)
  {
    hide IsPercentile, Size, CountBy, Percentile, Latencies, CountOutcome, Mean, PeakRss, Summaries;
    WholePercentile(observations, 0.5);
    WholePercentile(observations, 0.95);
    OutcomeCount(observations, outcome);
    CountBySize(observations, Ended(outcome));
    PeakIsLargest(observations);
  }
}
