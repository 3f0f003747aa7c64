/**
 * When the score of packages/core/src/scoring/engine.ts stays within 100, and a
 * measurement of the profile in signals.ts for which it does not.
 */
module ScoreLimits {
  import opened Basics
  import opened Rounding
  import opened Normalizers
  import opened Scoring

  function RoundedWeights(cs: seq<Component>, w: real): real {
    if cs == [] then 0.0 else RoundedWeights(cs[..|cs| - 1], w) + EffectiveWeight(cs[|cs| - 1], w)
  }

  predicate SameSignal(c: Component, d: Component) {
    c.included == d.included && c.declaredWeight == d.declaredWeight
  }

  /** Other measurements of the same signals. */
  ghost predicate SameSignals(cs: seq<Component>, ds: seq<Component>) {
    |cs| == |ds| && forall i :: 0 <= i < |cs| ==> SameSignal(cs[i], ds[i])
  }

  lemma {:induction false} WeightsAreShared(cs: seq<Component>, ds: seq<Component>, w: real)
    requires SameSignals(cs, ds)
    ensures Weight(cs) == Weight(ds) && RoundedWeights(cs, w) == RoundedWeights(ds, w)
  {
    if cs != [] {
      var n := |cs| - 1;
      WeightsAreShared(cs[..n], ds[..n], w);
      assert SameSignal(cs[n], ds[n]);
    }
  }

  predicate IsTop(c: Component) {
    c.normalized == if c.included then 1.0 else 0.0
  }

  ghost predicate AllTop(cs: seq<Component>) {
    forall i :: 0 <= i < |cs| ==> IsTop(cs[i])
  }

  lemma TopContribution(c: Component, w: real)
    requires IsTop(c)
    ensures Contribution(c, w) == 100.0 * EffectiveWeight(c, w)
  {
    var e := EffectiveWeight(c, w);
    if c.included && w > 0.0 {
      RoundIsNearest(c.declaredWeight / w, E4);
      assert e * 100.0 * E2 == e * E4;
      RoundKeepsDecimals(e * 100.0, E2);
    } else {
      RoundKeepsDecimals(0.0, E2);
    }
  }

  lemma {:induction false} TopContributions(cs: seq<Component>, w: real)
    requires AllTop(cs)
    ensures Contributions(WeightedAll(cs, w)) == 100.0 * RoundedWeights(cs, w)
  {
    hide Contribution, EffectiveWeight, IsTop;
    if cs != [] {
      var init, last := cs[..|cs| - 1], cs[|cs| - 1];
      TopContributions(init, w);
      WeightedPrefix(cs, w);
      assert IsTop(last);
      TopContribution(last, w);
    }
  }

  /** The score of signals that are all at their top is what their rounded weights add up to. */
  lemma TopScore(cs: seq<Component>)
    requires AllTop(cs)
    ensures Score(cs) == 100.0 * RoundedWeights(cs, Weight(cs))
  {
    ScoreIsSumOfContributions(cs);
    TopContributions(cs, Weight(cs));
  }

  lemma NothingExceedsTheTop(cs: seq<Component>, top: seq<Component>)
    requires AllFair(cs) && SameSignals(cs, top) && AllTop(top) && NoneNegative(cs)
    ensures Score(cs) <= Score(top)
  {
    hide Contributions, WeightedAll, Weight;
    forall i | 0 <= i < |cs|
      ensures NoWorse(cs[i], top[i])
    {
      assert SameSignal(cs[i], top[i]) && IsFair(cs[i]) && IsTop(top[i]);
    }
    WeightsAgree(cs, top);
    ContributionsAreMonotone(cs, top, Weight(cs));
    RoundIsMonotone(Contributions(WeightedAll(cs, Weight(cs))), Contributions(WeightedAll(top, Weight(cs))), E2);
  }

  ghost predicate WeightsNotNegative(signals: seq<Signal>) {
    forall i :: 0 <= i < |signals| ==> signals[i].weight >= 0.0
  }

  ghost predicate PeaksAt(s: Signal, raw: real) {
    Built(s.normalizer) && Round(Normalize(s.normalizer, raw), E4) == 1.0
  }

  /** Each signal reaches its maximum, after rounding, at the raw value given for it. */
  ghost predicate Peaks(signals: seq<Signal>, peak: string -> real) {
    forall i :: 0 <= i < |signals| ==> PeaksAt(signals[i], peak(signals[i].id))
  }

  /** The same observations with every finite measurement at its signal's peak. */
  function AtPeak(byId: map<string, Observation>, peak: string -> real): map<string, Observation> {
    map id | id in byId :: if byId[id].raw.Measured? then byId[id].(raw := Measured(peak(id))) else byId[id]
  }

  /** What the rounded weights of the signals that count add up to; it does not depend on what they measure. */
  function RoundedShare(signals: seq<Signal>, byId: map<string, Observation>): real
    requires AllBuilt(signals)
  {
    var cs := EvaluateAll(signals, byId);
    RoundedWeights(cs, Weight(cs))
  }

  lemma PeakIsTop(s: Signal, byId: map<string, Observation>, peak: string -> real)
    requires PeaksAt(s, peak(s.id))
    ensures var c, d := Evaluate(s, Lookup(byId, s.id)), Evaluate(s, Lookup(AtPeak(byId, peak), s.id));
            SameSignal(c, d) && IsTop(d)
  {
    hide Round, Normalize, Built;
  }

  lemma PeakScore(signals: seq<Signal>, byId: map<string, Observation>, peak: string -> real)
    requires AllBuilt(signals) && WeightsNotNegative(signals) && Peaks(signals, peak)
    ensures Score(EvaluateAll(signals, byId)) <= 100.0 * RoundedShare(signals, byId)
    ensures Score(EvaluateAll(signals, AtPeak(byId, peak))) == 100.0 * RoundedShare(signals, byId)
  {
    hide Evaluate, AtPeak, PeaksAt, SameSignal, IsTop, Score, RoundedWeights;
    var cs, top := EvaluateAll(signals, byId), EvaluateAll(signals, AtPeak(byId, peak));
    forall i | 0 <= i < |signals|
      ensures SameSignal(cs[i], top[i]) && IsTop(top[i]) && cs[i].declaredWeight >= 0.0
    {
      assert PeaksAt(signals[i], peak(signals[i].id));
      PeakIsTop(signals[i], byId, peak);
    }
    EvaluationsAreFair(signals, byId);
    WeightsAreShared(cs, top, Weight(cs));
    NothingExceedsTheTop(cs, top);
    TopScore(top);
  }

  /**
   * Signals that can reach their maximum score at most 100 whatever is observed if
   * and only if, whichever of them count, their rounded weights do not add up to
   * more than one.
   */
  lemma ScoreStaysWithin100(signals: seq<Signal>, peak: string -> real)
    requires AllBuilt(signals) && WeightsNotNegative(signals) && Peaks(signals, peak)
    ensures (forall byId :: Score(EvaluateAll(signals, byId)) <= 100.0)
            <==> (forall byId :: RoundedShare(signals, byId) <= 1.0)
  {
    hide RoundedShare, Score;
    forall byId
      ensures Score(EvaluateAll(signals, byId)) <= 100.0 * RoundedShare(signals, byId)
    {
      PeakScore(signals, byId, peak);
    }
    if byId :| !(RoundedShare(signals, byId) <= 1.0) {
      PeakScore(signals, byId, peak);
      assert Score(EvaluateAll(signals, AtPeak(byId, peak))) > 100.0;
    }
  }

  // ----------------------------------------------------- which subsets of the signals count

  function SamplesNeeded(signals: seq<Signal>): int {
    if signals == [] then 0 else Max(SamplesNeeded(signals[..|signals| - 1]), signals[|signals| - 1].minSampleSize)
  }

  lemma {:induction false} SamplesSuffice(signals: seq<Signal>, i: nat)
    requires i < |signals|
    ensures signals[i].minSampleSize <= SamplesNeeded(signals)
  {
    if i < |signals| - 1 {
      SamplesSuffice(signals[..|signals| - 1], i);
    }
  }

  /** Observations that make exactly the signals with these ids count. */
  function Enough(signals: seq<Signal>, ids: set<string>): map<string, Observation> {
    map id | id in ids :: Observation(id, Measured(0.0), SamplesNeeded(signals))
  }

  ghost predicate DistinctIds(signals: seq<Signal>) {
    forall i, j :: 0 <= i < j < |signals| ==> signals[i].id != signals[j].id
  }

  /** With distinct ids it is enough to look at the sets of signals, of which a profile has finitely many. */
  lemma SharesAreThoseOfSets(signals: seq<Signal>)
    requires AllBuilt(signals) && DistinctIds(signals)
    ensures (forall byId :: RoundedShare(signals, byId) <= 1.0)
            <==> (forall ids :: RoundedShare(signals, Enough(signals, ids)) <= 1.0)
  {
    hide RoundedShare, Enough;
    forall byId
      ensures exists ids :: RoundedShare(signals, Enough(signals, ids)) == RoundedShare(signals, byId)
    {
      var ids := set i | 0 <= i < |signals| && CountsAt(signals, byId, i) :: signals[i].id;
      ShareIsThatOfASet(signals, byId, ids);
    }
  }

  predicate CountsAt(signals: seq<Signal>, byId: map<string, Observation>, i: nat)
    requires AllBuilt(signals) && i < |signals|
  {
    Evaluate(signals[i], Lookup(byId, signals[i].id)).included
  }

  lemma EnoughCounts(signals: seq<Signal>, ids: set<string>, i: nat)
    requires AllBuilt(signals) && i < |signals|
    ensures CountsAt(signals, Enough(signals, ids), i) <==> signals[i].id in ids
  {
    hide Round, Normalize, Built;
    SamplesSuffice(signals, i);
  }

  lemma ShareIsThatOfASet(signals: seq<Signal>, byId: map<string, Observation>, ids: set<string>)
    requires AllBuilt(signals) && DistinctIds(signals)
    requires ids == set i | 0 <= i < |signals| && CountsAt(signals, byId, i) :: signals[i].id
    ensures RoundedShare(signals, Enough(signals, ids)) == RoundedShare(signals, byId)
  {
    hide Enough, Evaluate, AllBuilt, CountsAt;
    var cs, ds := EvaluateAll(signals, byId), EvaluateAll(signals, Enough(signals, ids));
    forall i | 0 <= i < |signals|
      ensures SameSignal(cs[i], ds[i])
    {
      EnoughCounts(signals, ids, i);
      ComponentOf(signals, byId, i);
      ComponentOf(signals, Enough(signals, ids), i);
    }
    WeightsAreShared(cs, ds, Weight(cs));
  }

  lemma ComponentOf(signals: seq<Signal>, byId: map<string, Observation>, i: nat)
    requires AllBuilt(signals) && i < |signals|
    ensures var c := EvaluateAll(signals, byId)[i];
            c.declaredWeight == signals[i].weight && (c.included <==> CountsAt(signals, byId, i))
  {
  }

  // -------------------------------------------------------------------- the shipped profile

  /** The default profile of packages/core/src/scoring/signals.ts, for any curves. */
  function DefaultSignals(burst: real -> real, spread: real -> real, tone: real -> real): (signals: seq<Signal>)
    ensures AllBuilt(signals)
  {
    [Signal("velocity_burst", 0.15, Curve("logistic", burst), 8),
     Signal("content_novelty", 0.12, Unit, 1),
     Signal("silent_edit", 0.2, Unit, 1),
     Signal("source_divergence", 0.16, Unit, 2),
     Signal("watchlist_match", 0.12, MakeLinear(0.0, 5.0).value, 1),
     Signal("amplification_asymmetry", 0.1, Curve("log", spread), 5),
     Signal("sentiment_shift", 0.08, Curve("logistic", tone), 6),
     Signal("temporal_anomaly", 0.07, Unit, 10)]
  }

  lemma OneMoreComponent(cs: seq<Component>, c: Component, w: real)
    ensures Weight(cs + [c]) == Weight(cs) + Load(c)
    ensures RoundedWeights(cs + [c], w) == RoundedWeights(cs, w) + EffectiveWeight(c, w)
  {
    assert (cs + [c])[..|cs|] == cs;
  }

  /** Three of the shipped signals with weights 0.15, 0.12 and 0.08 count, and only they. */
  predicate OnlyThree(cs: seq<Component>) {
    && |cs| == 8
    && (forall i :: 0 <= i < 8 ==> (cs[i].included <==> i in {0, 4, 6}))
    && cs[0].declaredWeight == 0.15 && cs[4].declaredWeight == 0.12 && cs[6].declaredWeight == 0.08
  }

  lemma ThreeWeights(cs: seq<Component>)
    requires OnlyThree(cs)
    ensures Weight(cs) == 0.35 && RoundedWeights(cs, 0.35) == 1.0001
  {
    hide Load, EffectiveWeight, Weight, RoundedWeights;
    ThreeLoads(cs);
    NoComponents();
    NoWeights(0.35);
    OneMoreComponent([], cs[0], 0.35);
    OneMoreComponent([] + [cs[0]], cs[1], 0.35);
    OneMoreComponent([] + [cs[0]] + [cs[1]], cs[2], 0.35);
    OneMoreComponent([] + [cs[0]] + [cs[1]] + [cs[2]], cs[3], 0.35);
    OneMoreComponent([] + [cs[0]] + [cs[1]] + [cs[2]] + [cs[3]], cs[4], 0.35);
    OneMoreComponent([] + [cs[0]] + [cs[1]] + [cs[2]] + [cs[3]] + [cs[4]], cs[5], 0.35);
    OneMoreComponent([] + [cs[0]] + [cs[1]] + [cs[2]] + [cs[3]] + [cs[4]] + [cs[5]], cs[6], 0.35);
    OneMoreComponent([] + [cs[0]] + [cs[1]] + [cs[2]] + [cs[3]] + [cs[4]] + [cs[5]] + [cs[6]], cs[7], 0.35);
    assert cs == [] + [cs[0]] + [cs[1]] + [cs[2]] + [cs[3]] + [cs[4]] + [cs[5]] + [cs[6]] + [cs[7]];
  }

  lemma NoWeights(w: real)
    ensures RoundedWeights([], w) == 0.0
  {
  }

  lemma ThreeLoads(cs: seq<Component>)
    requires OnlyThree(cs)
    ensures forall i :: 0 <= i < 8 && i !in {0, 4, 6} ==> Load(cs[i]) == 0.0 && EffectiveWeight(cs[i], 0.35) == 0.0
    ensures Load(cs[0]) == 0.15 && Load(cs[4]) == 0.12 && Load(cs[6]) == 0.08
    ensures EffectiveWeight(cs[0], 0.35) == 0.4286
    ensures EffectiveWeight(cs[4], 0.35) == 0.3429
    ensures EffectiveWeight(cs[6], 0.35) == 0.2286
  {
    assert Round(0.15 / 0.35, E4) == 0.4286;
    assert Round(0.12 / 0.35, E4) == 0.3429;
    assert Round(0.08 / 0.35, E4) == 0.2286;
  }

  lemma NearlyOneRoundsToOne(n: Normalizer, raw: real)
    requires Built(n) && Normalize(n, raw) >= 0.99995
    ensures Round(Normalize(n, raw), E4) == 1.0
  {
    RoundKeepsDecimals(1.0, E4);
    RoundIsMonotone(Normalize(n, raw), 1.0, E4);
    RoundIsMonotone(0.99995, Normalize(n, raw), E4);
    assert Round(0.99995, E4) == 1.0;
  }

  /** Three observations, each at its signal's maximum and with just enough samples. */
  function ThreeObservations(x: real, y: real): seq<Observation> {
    [Observation("velocity_burst", Measured(x), 8),
     Observation("watchlist_match", Measured(5.0), 1),
     Observation("sentiment_shift", Measured(y), 6)]
  }

  lemma LatestOfThree(a: Observation, b: Observation, c: Observation)
    ensures Latest([a, b, c]) == map[a.signalId := a][b.signalId := b][c.signalId := c]
  {
    var three, two, one := [a, b, c], [a, b], [a];
    assert three[..|three| - 1] == two && two[..|two| - 1] == one && one[..|one| - 1] == [];
    assert Latest(one) == map[a.signalId := a];
    assert Latest(two) == Latest(one)[b.signalId := b];
  }

  /** The shipped profile scores 100.01 when just these three signals are measured, each at its maximum. */
  lemma ScoreCanExceed100(burst: real -> real, spread: real -> real, tone: real -> real, x: real, y: real)
    requires burst(x) >= 0.99995 && tone(y) >= 0.99995
    ensures Score(EvaluateAll(DefaultSignals(burst, spread, tone), Latest(ThreeObservations(x, y)))) == 100.01
  {
    hide Score, Weight, RoundedWeights, DefaultSignals;
    var cs := EvaluateAll(DefaultSignals(burst, spread, tone), Latest(ThreeObservations(x, y)));
    ThreeAtTheirTop(burst, spread, tone, x, y);
    TopScore(cs);
    ThreeWeights(cs);
  }

  lemma ThreeAtTheirTop(burst: real -> real, spread: real -> real, tone: real -> real, x: real, y: real)
    requires burst(x) >= 0.99995 && tone(y) >= 0.99995
    ensures var cs := EvaluateAll(DefaultSignals(burst, spread, tone), Latest(ThreeObservations(x, y)));
            AllTop(cs) && OnlyThree(cs)
  {
    hide Round, Latest;
    var signals, os := DefaultSignals(burst, spread, tone), ThreeObservations(x, y);
    LatestOfThree(os[0], os[1], os[2]);
    NearlyOneRoundsToOne(Curve("logistic", burst), x);
    NearlyOneRoundsToOne(Curve("logistic", tone), y);
    NearlyOneRoundsToOne(signals[4].normalizer, 5.0);
    assert |signals| == 8;
  }

  lemma {:induction false} TopMoment(cs: seq<Component>)
    requires AllTop(cs)
    ensures Moment(cs) == Weight(cs)
  {
    if cs != [] {
      TopMoment(cs[..|cs| - 1]);
      assert IsTop(cs[|cs| - 1]);
    }
  }

  lemma {:induction false} IncludedAtTop(cs: seq<Component>)
    requires AllTop(cs)
    ensures AllTop(Included(cs)) && forall i :: 0 <= i < |Included(cs)| ==> Included(cs)[i].included
  {
    if cs != [] {
      IncludedAtTop(cs[..|cs| - 1]);
      assert IsTop(cs[|cs| - 1]);
    }
  }

  /** With every signal at its top, maxing out one of them shows 100. */
  lemma MaximalAtTheTop(cs: seq<Component>, id: string)
    requires AllTop(cs) && Weight(cs) > 0.0
    ensures RecomputeWith(cs, id, 1.0) == 100.0
  {
    hide Round, Weight, Moment, Points;
    var kept := Included(cs);
    IncludedSums(cs);
    IncludedAtTop(cs);
    forall i | 0 <= i < |kept|
      ensures SetAll(kept, id, 1.0)[i] == kept[i]
    {
      assert IsTop(kept[i]);
    }
    assert SetAll(kept, id, 1.0) == kept;
    TopMoment(kept);
    PointsAreExact(kept, Weight(kept));
    Cancel(100.0, Weight(kept));
    RoundKeepsDecimals(100.0, E2);
  }

  /** On the same observations every scoreIfMaximal is 100, below the score that is shown. */
  lemma MaximalBelowShown(burst: real -> real, spread: real -> real, tone: real -> real, x: real, y: real, id: string)
    requires burst(x) >= 0.99995 && tone(y) >= 0.99995
    ensures var cs := EvaluateAll(DefaultSignals(burst, spread, tone), Latest(ThreeObservations(x, y)));
            RecomputeWith(cs, id, 1.0) == 100.0 < Score(cs)
  {
    hide Score, Weight, RoundedWeights, DefaultSignals, RecomputeWith;
    ScoreCanExceed100(burst, spread, tone, x, y);
    ThreeAtTheirTop(burst, spread, tone, x, y);
    var cs := EvaluateAll(DefaultSignals(burst, spread, tone), Latest(ThreeObservations(x, y)));
    ThreeWeights(cs);
    MaximalAtTheTop(cs, id);
  }
}
