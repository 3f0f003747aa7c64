/**
 * The scoring engine of packages/core/src/scoring/engine.ts, over the reals:
 * weights renormalised over the signals that have data, two stages of rounding,
 * bands and counterfactuals.
 */
module Scoring {
  import opened Wrappers
  import opened Rounding
  import opened Normalizers

  datatype Signal = Signal(id: string, weight: real, normalizer: Normalizer, minSampleSize: int)

  datatype Raw = NotFinite | Measured(value: real)

  datatype Observation = Observation(signalId: string, raw: Raw, sampleSize: int)

  datatype Component = Component(
    signalId: string, raw: real, normalized: real, declaredWeight: real,
    effectiveWeight: real, contribution: real,
    included: bool, exclusionReason: Option<string>, sampleSize: int)

  datatype Band = Info | Notice | Elevated | Critical

  datatype Bands = Bands(notice: real, elevated: real, critical: real)

  datatype Counterfactual = Counterfactual(signalId: string, scoreIfRemoved: real, scoreIfMaximal: real)

  datatype Scored = Scored(
    score: real, band: Band, coverage: real, components: seq<Component>, counterfactuals: seq<Counterfactual>)

  // ------------------------------------------------------------------------ evaluation

  function Excluded(s: Signal, raw: real, sampleSize: int, reason: string): Component {
    Component(s.id, raw, 0.0, s.weight, 0.0, 0.0, false, Some(reason), sampleSize)
  }

  /** A signal counts exactly when it has a finite measurement from enough samples; otherwise the reason is given. */
  function Evaluate(s: Signal, found: Option<Observation>): (c: Component)
    requires Built(s.normalizer)
    ensures c.included <==> found.Some? && found.value.raw.Measured? && found.value.sampleSize >= s.minSampleSize
    ensures c.included <==> c.exclusionReason.None?
    ensures if c.included
            then -0.00005 <= c.normalized - Normalize(s.normalizer, c.raw) <= 0.00005 && c.raw == found.value.raw.value
            else c.normalized == 0.0
    ensures c.signalId == s.id && c.declaredWeight == s.weight
    ensures c.sampleSize == (if found.Some? then found.value.sampleSize else 0)
    ensures found.Some? && found.value.raw.Measured? ==> c.raw == found.value.raw.value
    ensures c.exclusionReason == Some("no data collected for this signal") <==> found.None?
    ensures c.exclusionReason == Some("raw value was not a finite number")
            <==> found.Some? && found.value.raw.NotFinite?
  {
    match found
    case None => Excluded(s, 0.0, 0, "no data collected for this signal")
    case Some(o) =>
      if o.raw.NotFinite? then Excluded(s, 0.0, o.sampleSize, "raw value was not a finite number")
      else if o.sampleSize < s.minSampleSize then Excluded(s, o.raw.value, o.sampleSize, "too few samples")
      else
        Component(s.id, o.raw.value, Round(Normalize(s.normalizer, o.raw.value), E4), s.weight, 0.0, 0.0, true, None,
                  o.sampleSize)
  }

  ghost predicate AllBuilt(signals: seq<Signal>) {
    forall i :: 0 <= i < |signals| ==> Built(signals[i].normalizer)
  }

  function Lookup(byId: map<string, Observation>, id: string): Option<Observation> {
    if id in byId then Some(byId[id]) else None
  }

  function EvaluateAll(signals: seq<Signal>, byId: map<string, Observation>): (cs: seq<Component>)
    requires AllBuilt(signals)
    ensures |cs| == |signals|
    ensures forall i :: 0 <= i < |cs| ==> cs[i] == Evaluate(signals[i], Lookup(byId, signals[i].id))
  {
    seq(|signals|, i requires 0 <= i < |signals| => Evaluate(signals[i], Lookup(byId, signals[i].id)))
  }

  /** What evaluation promises of a component: nothing outside 0..1, and nothing from a signal left out. */
  predicate IsFair(c: Component) {
    0.0 <= c.normalized <= 1.0 && (!c.included ==> c.normalized == 0.0)
  }

  ghost predicate AllFair(cs: seq<Component>) {
    forall i :: 0 <= i < |cs| ==> IsFair(cs[i])
  }

  lemma EvaluationIsFair(s: Signal, found: Option<Observation>)
    requires Built(s.normalizer)
    ensures IsFair(Evaluate(s, found))
  {
    if found.Some? && found.value.raw.Measured? {
      var n := Normalize(s.normalizer, found.value.raw.value);
      RoundKeepsDecimals(0.0, E4);
      RoundKeepsDecimals(1.0, E4);
      RoundIsMonotone(0.0, n, E4);
      RoundIsMonotone(n, 1.0, E4);
    }
  }

  lemma EvaluationsAreFair(signals: seq<Signal>, byId: map<string, Observation>)
    requires AllBuilt(signals)
    ensures AllFair(EvaluateAll(signals, byId))
  {
    var cs := EvaluateAll(signals, byId);
    forall i | 0 <= i < |cs|
      ensures IsFair(cs[i])
    {
      EvaluationIsFair(signals[i], Lookup(byId, signals[i].id));
    }
  }

  // ------------------------------------------------------------------------ arithmetic

  /** A component's declared weight, if it counts. */
  function Load(c: Component): real {
    if c.included then c.declaredWeight else 0.0
  }

  /** Its weighted value. */
  function Pull(c: Component): real {
    if c.included then c.normalized * c.declaredWeight else 0.0
  }

  function Weight(cs: seq<Component>): real {
    if cs == [] then 0.0 else Weight(cs[..|cs| - 1]) + Load(cs[|cs| - 1])
  }

  function Moment(cs: seq<Component>): real {
    if cs == [] then 0.0 else Moment(cs[..|cs| - 1]) + Pull(cs[|cs| - 1])
  }

  function Count(cs: seq<Component>): nat {
    if cs == [] then 0 else Count(cs[..|cs| - 1]) + if cs[|cs| - 1].included then 1 else 0
  }

  function Contributions(cs: seq<Component>): real {
    if cs == [] then 0.0 else Contributions(cs[..|cs| - 1]) + cs[|cs| - 1].contribution
  }

  /** The weighted mean of the normalised values, times 100, with no rounding at all. */
  function Exact(cs: seq<Component>): real
    requires Weight(cs) != 0.0
  {
    100.0 * Moment(cs) / Weight(cs)
  }

  function EffectiveWeight(c: Component, w: real): real {
    if c.included && w > 0.0 then Round(c.declaredWeight / w, E4) else 0.0
  }

  function PointsFor(normalized: real, effectiveWeight: real): real {
    Round(normalized * effectiveWeight * 100.0, E2)
  }

  function Contribution(c: Component, w: real): real {
    PointsFor(c.normalized, EffectiveWeight(c, w))
  }

  function Weighted(c: Component, w: real): Component {
    c.(effectiveWeight := EffectiveWeight(c, w), contribution := Contribution(c, w))
  }

  function WeightedAll(cs: seq<Component>, w: real): (ds: seq<Component>)
    ensures |ds| == |cs|
    ensures forall i :: 0 <= i < |cs| ==> ds[i] == Weighted(cs[i], w)
  {
    seq(|cs|, i requires 0 <= i < |cs| => Weighted(cs[i], w))
  }

  function Score(cs: seq<Component>): real {
    Round(Contributions(WeightedAll(cs, Weight(cs))), E2)
  }

  function Rank(b: Band): nat {
    match b
    case Info => 0
    case Notice => 1
    case Elevated => 2
    case Critical => 3
  }

  /** With ascending cut-points, the rank of the band is the number of cut-points that the score has reached. */
  function BandFor(score: real, bands: Bands): (band: Band)
    ensures (band == Critical <==> score >= bands.critical) && (band == Info ==> score < bands.notice)
    ensures band == Elevated <==> bands.elevated <= score < bands.critical
    ensures bands.notice <= bands.elevated <= bands.critical ==>
              && (Rank(band) >= 1 <==> score >= bands.notice)
              && (Rank(band) >= 2 <==> score >= bands.elevated)
              && (Rank(band) >= 3 <==> score >= bands.critical)
  {
    if score >= bands.critical then Critical
    else if score >= bands.elevated then Elevated
    else if score >= bands.notice then Notice
    else Info
  }

  lemma WeightedPrefix(cs: seq<Component>, w: real)
    requires cs != []
    ensures WeightedAll(cs, w)[..|cs| - 1] == WeightedAll(cs[..|cs| - 1], w)
  {
  }

  // ------------------------------------------------------- the score is what it displays

  lemma ContributionIsDecimal(c: Component, w: real)
    ensures IsDecimal(Contribution(c, w), E2)
  {
    RoundIsNearest(c.normalized * EffectiveWeight(c, w) * 100.0, E2);
  }

  lemma {:induction false} ContributionsAreDecimal(cs: seq<Component>, w: real)
    ensures IsDecimal(Contributions(WeightedAll(cs, w)), E2)
  {
    hide Contribution, EffectiveWeight, IsDecimal;
    if cs == [] {
      ZeroIsDecimal(E2);
    } else {
      var last := cs[|cs| - 1];
      ContributionsAreDecimal(cs[..|cs| - 1], w);
      WeightedPrefix(cs, w);
      ContributionIsDecimal(last, w);
      DecimalsAdd(Contributions(WeightedAll(cs[..|cs| - 1], w)), Contribution(last, w), E2);
    }
  }

  lemma ZeroIsDecimal(f: real)
    ensures IsDecimal(0.0, f)
  {
  }

  /** The final rounding changes nothing: the score is exactly the sum of the points shown. */
  lemma ScoreIsSumOfContributions(cs: seq<Component>)
    ensures Score(cs) == Contributions(WeightedAll(cs, Weight(cs)))
  {
    ContributionsAreDecimal(cs, Weight(cs));
    RoundKeepsDecimals(Contributions(WeightedAll(cs, Weight(cs))), E2);
  }

  // ----------------------------------------------------------------- the rounding bound

  /** One component is off by half a unit of the fourth decimal of its weight, and half a cent. */
  lemma ContributionIsClose(c: Component, w: real)
    requires w > 0.0 && IsFair(c)
    ensures c.included ==> -0.01 <= Contribution(c, w) - 100.0 * Pull(c) / w <= 0.01
    ensures !c.included ==> Contribution(c, w) == 0.0 == 100.0 * Pull(c) / w
  {
    if c.included {
      var share := c.declaredWeight / w;
      var e := Round(share, E4);
      RoundIsNearest(share, E4);
      RoundIsNearest(c.normalized * e * 100.0, E2);
      TwoRoundings(c.normalized, share, e, Contribution(c, w));
      PullIsShare(c.normalized, c.declaredWeight, w);
    } else {
      assert c.normalized * EffectiveWeight(c, w) * 100.0 == 0.0;
      RoundKeepsDecimals(0.0, E2);
    }
  }

  lemma PullIsShare(n: real, d: real, w: real)
    requires w > 0.0
    ensures 100.0 * (n * d) / w == 100.0 * (n * (d / w))
  {
  }

  lemma TwoRoundings(n: real, share: real, e: real, c: real)
    requires 0.0 <= n <= 1.0
    requires -0.5 <= e * E4 - share * E4 <= 0.5
    requires -0.5 <= c * E2 - n * e * 100.0 * E2 <= 0.5
    ensures -0.01 <= c - 100.0 * (n * share) <= 0.01
  {
    ScaledErrorIsSmall(n, e - share);
    assert n * e == n * share + n * (e - share);
  }

  lemma ScaledErrorIsSmall(n: real, e: real)
    requires 0.0 <= n <= 1.0 && -0.00005 <= e <= 0.00005
    ensures -0.00005 <= n * e <= 0.00005
  {
    if e >= 0.0 {
      assert 0.0 <= n * e <= 1.0 * e;
    } else {
      assert 0.0 <= n * -e <= 1.0 * -e;
      assert n * -e == -(n * e);
    }
  }

  lemma {:induction false} ContributionsAreClose(cs: seq<Component>, w: real)
    requires w > 0.0 && AllFair(cs)
    ensures -0.01 * Count(cs) as real
            <= Contributions(WeightedAll(cs, w)) - 100.0 * Moment(cs) / w
            <= 0.01 * Count(cs) as real
  {
    hide Contribution, IsFair, Pull, Moment, Contributions, WeightedAll;
    if cs == [] {
      EmptySums(cs, w);
    } else {
      var init, last := cs[..|cs| - 1], cs[|cs| - 1];
      ContributionsAreClose(init, w);
      ContributionIsClose(last, w);
      SumsGrow(cs, w);
    }
  }

  lemma EmptySums(cs: seq<Component>, w: real)
    requires cs == [] && w > 0.0
    ensures 100.0 * Moment(cs) / w == 0.0 && Contributions(WeightedAll(cs, w)) == 0.0
  {
  }

  lemma SumsGrow(cs: seq<Component>, w: real)
    requires cs != [] && w > 0.0
    ensures var init, last := cs[..|cs| - 1], cs[|cs| - 1];
            && Contributions(WeightedAll(cs, w)) == Contributions(WeightedAll(init, w)) + Contribution(last, w)
            && 100.0 * Moment(cs) / w == 100.0 * Moment(init) / w + 100.0 * Pull(last) / w
  {
    hide Contribution, Pull;
    WeightedPrefix(cs, w);
    QuotientsAdd(Moment(cs[..|cs| - 1]), Pull(cs[|cs| - 1]), w);
  }

  lemma QuotientsAdd(a: real, b: real, w: real)
    requires w != 0.0
    ensures 100.0 * (a + b) / w == 100.0 * a / w + 100.0 * b / w
  {
  }

  /** With `n` signals included, the score is within `0.01 * n` of the exact weighted mean. */
  lemma ScoreIsClose(cs: seq<Component>)
    requires AllFair(cs) && Weight(cs) > 0.0
    ensures -0.01 * Count(cs) as real <= Score(cs) - Exact(cs) <= 0.01 * Count(cs) as real
  {
    ScoreIsSumOfContributions(cs);
    ContributionsAreClose(cs, Weight(cs));
  }

  ghost predicate NoneNegative(cs: seq<Component>) {
    forall i :: 0 <= i < |cs| ==> cs[i].declaredWeight >= 0.0
  }

  lemma PullIsBounded(c: Component)
    requires IsFair(c) && c.declaredWeight >= 0.0
    ensures 0.0 <= Pull(c) <= Load(c)
  {
    ProductsKeepOrder(0.0, c.normalized, c.declaredWeight);
    ProductsKeepOrder(c.normalized, 1.0, c.declaredWeight);
  }

  lemma {:induction false} MomentIsBounded(cs: seq<Component>)
    requires AllFair(cs) && NoneNegative(cs)
    ensures 0.0 <= Moment(cs) <= Weight(cs)
  {
    hide Pull, Load;
    if cs != [] {
      MomentIsBounded(cs[..|cs| - 1]);
      PullIsBounded(cs[|cs| - 1]);
    }
  }

  lemma ExactIsAPercentage(cs: seq<Component>)
    requires AllFair(cs) && NoneNegative(cs) && Weight(cs) > 0.0
    ensures 0.0 <= Exact(cs) <= 100.0
  {
    hide Weight, Moment;
    MomentIsBounded(cs);
    PositiveQuotientsKeepOrder(0.0, 100.0 * Moment(cs), Weight(cs));
    PositiveQuotientsKeepOrder(100.0 * Moment(cs), 100.0 * Weight(cs), Weight(cs));
    Cancel(100.0, Weight(cs));
  }

  /** Rounded weights can add up to more than one, and the score to more than 100, but by no more than this. */
  lemma ScoreHardlyExceeds100(cs: seq<Component>)
    requires AllFair(cs) && NoneNegative(cs) && Weight(cs) > 0.0
    ensures -0.01 * Count(cs) as real <= Score(cs) <= 100.0 + 0.01 * Count(cs) as real
  {
    hide Exact, Score;
    ScoreIsClose(cs);
    ExactIsAPercentage(cs);
  }

  // ---------------------------------------------------------------------- monotonicity

  predicate NoWorse(c: Component, d: Component) {
    && c.included == d.included && c.declaredWeight == d.declaredWeight
    && (c.normalized == d.normalized || (c.normalized <= d.normalized && c.declaredWeight >= 0.0))
  }

  ghost predicate AllNoWorse(cs: seq<Component>, ds: seq<Component>) {
    |cs| == |ds| && forall i :: 0 <= i < |cs| ==> NoWorse(cs[i], ds[i])
  }

  lemma EffectiveWeightIsNotNegative(c: Component, w: real)
    requires c.declaredWeight >= 0.0
    ensures EffectiveWeight(c, w) >= 0.0
  {
    if c.included && w > 0.0 {
      PositiveQuotientsKeepOrder(0.0, c.declaredWeight, w);
      RoundKeepsDecimals(0.0, E4);
      RoundIsMonotone(0.0, c.declaredWeight / w, E4);
    }
  }

  lemma PointsAreMonotone(m: real, n: real, e: real)
    requires m <= n && e >= 0.0
    ensures PointsFor(m, e) <= PointsFor(n, e)
  {
    ProductsKeepOrder(m, n, e);
    RoundIsMonotone(m * e * 100.0, n * e * 100.0, E2);
  }

  lemma ContributionIsMonotone(c: Component, d: Component, w: real)
    requires NoWorse(c, d)
    ensures Contribution(c, w) <= Contribution(d, w)
  {
    hide PointsFor;
    if c.normalized != d.normalized {
      EffectiveWeightIsNotNegative(c, w);
      PointsAreMonotone(c.normalized, d.normalized, EffectiveWeight(c, w));
    }
  }

  lemma {:induction false} WeightsAgree(cs: seq<Component>, ds: seq<Component>)
    requires AllNoWorse(cs, ds)
    ensures Weight(cs) == Weight(ds)
  {
    if cs != [] {
      var n := |cs| - 1;
      WeightsAgree(cs[..n], ds[..n]);
      assert NoWorse(cs[n], ds[n]);
    }
  }

  lemma {:induction false} ContributionsAreMonotone(cs: seq<Component>, ds: seq<Component>, w: real)
    requires AllNoWorse(cs, ds)
    ensures Contributions(WeightedAll(cs, w)) <= Contributions(WeightedAll(ds, w))
  {
    hide Contribution, NoWorse;
    if cs != [] {
      var n := |cs| - 1;
      ContributionsAreMonotone(cs[..n], ds[..n], w);
      assert NoWorse(cs[n], ds[n]);
      ContributionIsMonotone(cs[n], ds[n], w);
      WeightedPrefix(cs, w);
      WeightedPrefix(ds, w);
    }
  }

  lemma EvaluationIsMonotone(s: Signal, o: Observation, raw: real)
    requires Built(s.normalizer) && Shows(s.normalizer, Rising) && s.weight >= 0.0
    requires o.raw.Measured? && o.raw.value <= raw
    ensures NoWorse(Evaluate(s, Some(o)), Evaluate(s, Some(o.(raw := Measured(raw)))))
  {
    NormalizersAreMonotone(s.normalizer, Rising, o.raw.value, raw);
    RoundIsMonotone(Normalize(s.normalizer, o.raw.value), Normalize(s.normalizer, raw), E4);
  }

  /**
   * Raising the raw value of a signal whose normalizer rises, and whose weight is
   * not negative, lowers neither the rounded score nor its band, whatever the
   * cut-points and the other signals.
   */
  lemma RaisingASignalNeverLowersTheScore(signals: seq<Signal>, byId: map<string, Observation>, id: string, raw: real,
                                          bands: Bands)
    requires AllBuilt(signals) && id in byId && byId[id].raw.Measured? && byId[id].raw.value <= raw
    requires forall i :: 0 <= i < |signals| && signals[i].id == id ==>
               Shows(signals[i].normalizer, Rising) && signals[i].weight >= 0.0
    ensures var raised := byId[id := byId[id].(raw := Measured(raw))];
            var before, after := Score(EvaluateAll(signals, byId)), Score(EvaluateAll(signals, raised));
            before <= after && Rank(BandFor(before, bands)) <= Rank(BandFor(after, bands))
  {
    hide Shows, Built, NoWorse, Evaluate;
    var raised := byId[id := byId[id].(raw := Measured(raw))];
    var cs, ds := EvaluateAll(signals, byId), EvaluateAll(signals, raised);
    forall i | 0 <= i < |signals|
      ensures NoWorse(cs[i], ds[i])
    {
      if signals[i].id == id {
        EvaluationIsMonotone(signals[i], byId[id], raw);
      } else {
        SameIsNoWorse(cs[i]);
      }
    }
    WeightsAgree(cs, ds);
    ContributionsAreMonotone(cs, ds, Weight(cs));
    RoundIsMonotone(Contributions(WeightedAll(cs, Weight(cs))), Contributions(WeightedAll(ds, Weight(cs))), E2);
  }

  lemma SameIsNoWorse(c: Component)
    ensures NoWorse(c, c)
  {
  }

  // ------------------------------------------------ signals without data are left out

  function Included(cs: seq<Component>): seq<Component> {
    if cs == [] then []
    else
      var init, last := cs[..|cs| - 1], cs[|cs| - 1];
      if last.included then Included(init) + [last] else Included(init)
  }

  lemma {:induction false} IncludedSums(cs: seq<Component>)
    ensures Weight(Included(cs)) == Weight(cs) && Moment(Included(cs)) == Moment(cs)
  {
    hide Load, Pull;
    if cs != [] {
      var init, last := cs[..|cs| - 1], cs[|cs| - 1];
      IncludedSums(init);
      if last.included {
        assert Included(cs)[..|Included(cs)| - 1] == Included(init);
      } else {
        LeftOutHasNoSums(last);
      }
    }
  }

  lemma {:induction false} IncludedContributions(cs: seq<Component>, w: real)
    requires AllFair(cs)
    ensures Contributions(WeightedAll(Included(cs), w)) == Contributions(WeightedAll(cs, w))
  {
    hide Contribution;
    if cs != [] {
      var init, last := cs[..|cs| - 1], cs[|cs| - 1];
      IncludedContributions(init, w);
      WeightedPrefix(cs, w);
      if last.included {
        WeightedPrefix(Included(cs), w);
        assert Included(cs)[..|Included(cs)| - 1] == Included(init);
      } else {
        assert IsFair(last);
        LeftOutGivesNothing(last, w);
      }
    }
  }

  lemma LeftOutGivesNothing(c: Component, w: real)
    requires IsFair(c) && !c.included
    ensures Contribution(c, w) == 0.0
  {
    assert c.normalized * EffectiveWeight(c, w) * 100.0 == 0.0;
    RoundKeepsDecimals(0.0, E2);
  }

  /** Missing signals are excluded, not zeroed: the score is that of the profile without them. */
  lemma MissingSignalsDoNotCount(cs: seq<Component>)
    requires AllFair(cs)
    ensures Score(Included(cs)) == Score(cs)
  {
    IncludedSums(cs);
    IncludedContributions(cs, Weight(cs));
  }

  // ------------------------------------------------------------------- counterfactuals

  function Points(cs: seq<Component>, w: real): real
    requires w != 0.0
  {
    if cs == [] then 0.0
    else
      var last := cs[|cs| - 1];
      Points(cs[..|cs| - 1], w) + if last.included then last.normalized * last.declaredWeight * 100.0 / w else 0.0
  }

  function Others(cs: seq<Component>, id: string): seq<Component> {
    if cs == [] then []
    else
      var init, last := cs[..|cs| - 1], cs[|cs| - 1];
      if last.included && last.signalId != id then Others(init, id) + [last] else Others(init, id)
  }

  function Set(c: Component, id: string, normalized: real): Component {
    if c.signalId == id then c.(normalized := normalized) else c
  }

  function SetAll(cs: seq<Component>, id: string, normalized: real): (ds: seq<Component>)
    ensures |ds| == |cs|
    ensures forall i :: 0 <= i < |cs| ==> ds[i] == Set(cs[i], id, normalized)
  {
    seq(|cs|, i requires 0 <= i < |cs| => Set(cs[i], id, normalized))
  }

  function RecomputeWithout(cs: seq<Component>, id: string): real {
    var kept := Others(cs, id);
    if Weight(kept) == 0.0 then 0.0 else Round(Points(kept, Weight(kept)), E2)
  }

  function RecomputeWith(cs: seq<Component>, id: string, normalized: real): real {
    var kept := Included(cs);
    if Weight(kept) == 0.0 then 0.0 else Round(Points(SetAll(kept, id, normalized), Weight(kept)), E2)
  }

  lemma {:induction false} PointsAreExact(cs: seq<Component>, w: real)
    requires w > 0.0
    ensures Points(cs, w) == 100.0 * Moment(cs) / w
  {
    if cs == [] {
      assert Moment(cs) == 0.0;
    } else {
      var init, last := cs[..|cs| - 1], cs[|cs| - 1];
      PointsAreExact(init, w);
      QuotientsAdd(Moment(init), Pull(last), w);
      PointIsPull(last, w);
    }
  }

  lemma PointIsPull(c: Component, w: real)
    requires w > 0.0
    ensures (if c.included then c.normalized * c.declaredWeight * 100.0 / w else 0.0) == 100.0 * Pull(c) / w
  {
  }

  lemma {:induction false} SettingToOneRaises(cs: seq<Component>, id: string)
    requires AllFair(cs)
    requires forall i :: 0 <= i < |cs| && cs[i].signalId == id ==> cs[i].declaredWeight >= 0.0
    ensures Moment(cs) <= Moment(SetAll(cs, id, 1.0))
  {
    hide Pull;
    if cs != [] {
      var init, last := cs[..|cs| - 1], cs[|cs| - 1];
      SettingToOneRaises(init, id);
      assert SetAll(cs, id, 1.0)[..|cs| - 1] == SetAll(init, id, 1.0);
      assert IsFair(last);
      if last.signalId == id {
        PullGrows(last);
      }
    }
  }

  lemma PullGrows(c: Component)
    requires IsFair(c) && c.declaredWeight >= 0.0
    ensures Pull(c) <= Pull(c.(normalized := 1.0))
  {
    ProductsKeepOrder(c.normalized, 1.0, c.declaredWeight);
  }

  lemma {:induction false} IncludedComeFrom(cs: seq<Component>)
    ensures forall i :: 0 <= i < |Included(cs)| ==> Included(cs)[i] in cs
  {
    if cs != [] {
      IncludedComeFrom(cs[..|cs| - 1]);
    }
  }

  /** Maxing out a signal never shows less than the exact score, rounded. */
  lemma MaximalIsNoLower(cs: seq<Component>, id: string)
    requires AllFair(cs) && Weight(cs) > 0.0
    requires forall i :: 0 <= i < |cs| && cs[i].signalId == id ==> cs[i].declaredWeight >= 0.0
    ensures RecomputeWith(cs, id, 1.0) >= Round(Exact(cs), E2)
  {
    hide Round, Moment, Points, Weight, Included, Set, IsFair;
    var kept, w := Included(cs), Weight(cs);
    IncludedSums(cs);
    IncludedComeFrom(cs);
    SettingToOneRaises(kept, id);
    PointsAreExact(SetAll(kept, id, 1.0), w);
    PositiveQuotientsKeepOrder(100.0 * Moment(cs), 100.0 * Moment(SetAll(kept, id, 1.0)), w);
    RoundIsMonotone(Exact(cs), Points(SetAll(kept, id, 1.0), w), E2);
  }

  lemma CentsAreClose(x: real)
    ensures -0.005 <= Round(x, E2) - x <= 0.005
  {
    RoundIsNearest(x, E2);
  }

  /** Against the score that is shown, which rounds twice, it can fall short by the rounding of `n` signals. */
  lemma MaximalAgainstShown(cs: seq<Component>, id: string)
    requires AllFair(cs) && Weight(cs) > 0.0
    requires forall i :: 0 <= i < |cs| && cs[i].signalId == id ==> cs[i].declaredWeight >= 0.0
    ensures RecomputeWith(cs, id, 1.0) >= Score(cs) - 0.01 * Count(cs) as real - 0.005
  {
    hide Score, Round, RecomputeWith, Exact;
    MaximalIsNoLower(cs, id);
    ScoreIsClose(cs);
    CentsAreClose(Exact(cs));
  }

  function GroupWeight(cs: seq<Component>, id: string): real {
    Weight(cs) - Weight(Others(cs, id))
  }

  function GroupMoment(cs: seq<Component>, id: string): real {
    Moment(cs) - Moment(Others(cs, id))
  }

  lemma QuotientOrder(a: real, b: real, c: real, d: real)
    requires b > 0.0 && d > 0.0
    ensures a / b <= c / d <==> a * d <= c * b
  {
    Cancel(a, b);
    Cancel(c, d);
    assert a * d == a / b * (b * d);
    assert c * b == c / d * (b * d);
    if a / b <= c / d {
      ProductsKeepOrder(a / b, c / d, b * d);
    } else {
      StrictProductsKeepOrder(c / d, a / b, b * d);
    }
  }

  lemma StrictProductsKeepOrder(x: real, y: real, f: real)
    requires x < y && f > 0.0
    ensures x * f < y * f
  {
  }

  /** Taking a part out of a mean lowers it exactly when the part's own mean is at least that of the rest. */
  lemma Mediant(restMoment: real, restWeight: real, moment: real, weight: real)
    requires restWeight > 0.0 && weight > 0.0
    ensures 100.0 * restMoment / restWeight <= 100.0 * (restMoment + moment) / (restWeight + weight)
            <==> restMoment / restWeight <= moment / weight
  {
    QuotientOrder(100.0 * restMoment, restWeight, 100.0 * (restMoment + moment), restWeight + weight);
    QuotientOrder(restMoment, restWeight, moment, weight);
    Distribute(restMoment, moment, restWeight);
    Distribute(restWeight, weight, restMoment);
  }

  /**
   * On exact values: removal lowers the score if and only if the removed signal is at or
   * above the mean of the rest.
   */
  lemma RemovalLowersExactly(cs: seq<Component>, id: string)
    requires Weight(Others(cs, id)) > 0.0 && GroupWeight(cs, id) > 0.0
    ensures Weight(cs) > 0.0
    ensures Exact(Others(cs, id)) <= Exact(cs)
            <==> Moment(Others(cs, id)) / Weight(Others(cs, id)) <= GroupMoment(cs, id) / GroupWeight(cs, id)
  {
    hide Moment, Weight, Others;
    var rest := Others(cs, id);
    Mediant(Moment(rest), Weight(rest), GroupMoment(cs, id), GroupWeight(cs, id));
  }

  /** Removing a signal at or above the weighted mean of the rest never shows more than the exact score, rounded. */
  lemma RemovedIsNoHigher(cs: seq<Component>, id: string)
    requires Weight(Others(cs, id)) > 0.0 && GroupWeight(cs, id) > 0.0
    requires Moment(Others(cs, id)) / Weight(Others(cs, id)) <= GroupMoment(cs, id) / GroupWeight(cs, id)
    ensures Weight(cs) > 0.0 && RecomputeWithout(cs, id) <= Round(Exact(cs), E2)
  {
    hide Moment, Weight, Others, Points, Round;
    var rest := Others(cs, id);
    RemovalLowersExactly(cs, id);
    PointsAreExact(rest, Weight(rest));
    RoundIsMonotone(Exact(rest), Exact(cs), E2);
  }

  ghost predicate DistinctSignals(cs: seq<Component>) {
    forall i, j :: 0 <= i < j < |cs| ==> cs[i].signalId != cs[j].signalId
  }

  lemma {:induction false} NoneToRemove(cs: seq<Component>, id: string)
    requires forall i :: 0 <= i < |cs| ==> cs[i].signalId != id
    ensures Others(cs, id) == Included(cs)
  {
    if cs != [] {
      NoneToRemove(cs[..|cs| - 1], id);
    }
  }

  lemma OthersOneMore(cs: seq<Component>, id: string)
    requires cs != [] && cs[|cs| - 1].signalId != id
    ensures GroupWeight(cs, id) == GroupWeight(cs[..|cs| - 1], id)
    ensures GroupMoment(cs, id) == GroupMoment(cs[..|cs| - 1], id)
  {
    hide Load, Pull;
    var rest, last := Others(cs, id), cs[|cs| - 1];
    if last.included {
      assert rest[..|rest| - 1] == Others(cs[..|cs| - 1], id);
    } else {
      LeftOutHasNoSums(last);
    }
  }

  /** With distinct ids, what is removed is that one signal. */
  lemma {:induction false} GroupIsOneSignal(cs: seq<Component>, k: nat)
    requires DistinctSignals(cs) && k < |cs|
    ensures GroupWeight(cs, cs[k].signalId) == Load(cs[k])
    ensures GroupMoment(cs, cs[k].signalId) == Pull(cs[k])
  {
    hide Load, Pull;
    var init, id := cs[..|cs| - 1], cs[k].signalId;
    if k == |cs| - 1 {
      NoneToRemove(init, id);
      IncludedSums(init);
      assert Others(cs, id) == Included(init);
    } else {
      hide GroupWeight, GroupMoment;
      assert init[k] == cs[k];
      GroupIsOneSignal(init, k);
      OthersOneMore(cs, id);
    }
  }

  lemma LeftOutHasNoSums(c: Component)
    requires !c.included
    ensures Load(c) == 0.0 && Pull(c) == 0.0
  {
  }

  /**
   * For distinct signals: the shown `scoreIfRemoved` is at most the exact score when
   * the signal is at or above the mean of the rest, or when nothing else counts.
   */
  lemma RemovedSignalIsNoHigher(cs: seq<Component>, k: nat)
    requires DistinctSignals(cs) && k < |cs| && cs[k].included && cs[k].declaredWeight > 0.0
    requires var rest := Others(cs, cs[k].signalId);
             (rest == [] && IsFair(cs[k])) || (Weight(rest) > 0.0 && Moment(rest) / Weight(rest) <= cs[k].normalized)
    ensures Weight(cs) > 0.0 && RecomputeWithout(cs, cs[k].signalId) <= Round(Exact(cs), E2)
  {
    hide Moment, Weight, Others, RecomputeWithout, Round, Exact, Load, Pull, GroupWeight, GroupMoment, IsFair;
    GroupIsOneSignal(cs, k);
    MeanOfOne(cs[k]);
    NoComponents();
    if Others(cs, cs[k].signalId) == [] {
      NothingElseCounts(cs, k);
    } else {
      RemovedIsNoHigher(cs, cs[k].signalId);
    }
  }

  lemma NoComponents()
    ensures Weight([]) == 0.0 && Moment([]) == 0.0
  {
  }

  lemma ExactIsNotNegative(cs: seq<Component>)
    requires Weight(cs) > 0.0 && Moment(cs) >= 0.0
    ensures Exact(cs) >= 0.0
  {
    hide Weight, Moment;
    PositiveQuotientsKeepOrder(0.0, 100.0 * Moment(cs), Weight(cs));
  }

  lemma MeanOfOne(c: Component)
    requires c.included && c.declaredWeight > 0.0
    ensures Load(c) > 0.0 && Pull(c) / Load(c) == c.normalized
    ensures IsFair(c) ==> Pull(c) >= 0.0
  {
    Cancel(c.normalized, c.declaredWeight);
    if IsFair(c) {
      ProductsKeepOrder(0.0, c.normalized, c.declaredWeight);
    }
  }

  /** Without the only signal that counts the score shown is zero, and no exact score is below that. */
  lemma NothingElseCounts(cs: seq<Component>, k: nat)
    requires k < |cs| && cs[k].included && cs[k].declaredWeight > 0.0 && IsFair(cs[k])
    requires Others(cs, cs[k].signalId) == []
    requires GroupWeight(cs, cs[k].signalId) == Load(cs[k]) && GroupMoment(cs, cs[k].signalId) == Pull(cs[k])
    ensures Weight(cs) > 0.0 && RecomputeWithout(cs, cs[k].signalId) == 0.0 <= Round(Exact(cs), E2)
  {
    hide Load, Pull, Round, Exact, IsFair;
    MeanOfOne(cs[k]);
    NoComponents();
    ExactIsNotNegative(cs);
    RoundKeepsDecimals(0.0, E2);
    RoundIsMonotone(0.0, Exact(cs), E2);
  }

  // ------------------------------------------------------------------------- the method

  /** The observations by signal; of several for one signal the last counts. */
  function Latest(observations: seq<Observation>): map<string, Observation> {
    if observations == [] then map[]
    else
      var last := observations[|observations| - 1];
      Latest(observations[..|observations| - 1])[last.signalId := last]
  }

  function TotalWeight(signals: seq<Signal>): real {
    if signals == [] then 0.0 else TotalWeight(signals[..|signals| - 1]) + signals[|signals| - 1].weight
  }

  function CounterfactualsOf(cs: seq<Component>, kept: seq<Component>): (r: seq<Counterfactual>)
    ensures |r| == |kept|
    ensures forall i :: 0 <= i < |r| ==>
              r[i] == Counterfactual(kept[i].signalId, RecomputeWithout(cs, kept[i].signalId),
                RecomputeWith(cs, kept[i].signalId, 1.0))
  {
    seq(|kept|, i requires 0 <= i < |kept| =>
      Counterfactual(kept[i].signalId, RecomputeWithout(cs, kept[i].signalId),
        RecomputeWith(cs, kept[i].signalId, 1.0)))
  }

  lemma WeighingTwice(cs: seq<Component>)
    requires AllFair(cs)
    ensures var ds := WeightedAll(cs, Weight(cs));
            AllFair(ds) && Weight(ds) == Weight(cs) && Score(ds) == Score(cs) && WeightedAll(ds, Weight(ds)) == ds
  {
    var w := Weight(cs);
    var ds := WeightedAll(cs, w);
    forall i | 0 <= i < |cs|
      ensures IsFair(ds[i]) && NoWorse(cs[i], ds[i]) && Weighted(ds[i], w) == ds[i]
    {
      assert IsFair(cs[i]);
    }
    WeightsAgree(cs, ds);
    assert WeightedAll(ds, w) == ds;
  }

  /** The components are the evaluated signals, weighed; the score is the sum of the contributions they show. */
  method ScoreObservation(observations: seq<Observation>, signals: seq<Signal>, bands: Bands) returns (r: Scored)
    requires AllBuilt(signals)
    ensures var cs := EvaluateAll(signals, Latest(observations));
            && r.components == WeightedAll(cs, Weight(cs))
            && r.score == Score(cs) && r.score == Score(r.components) && AllFair(r.components)
            && r.coverage == Round(if TotalWeight(signals) == 0.0 then 0.0 else Weight(cs) / TotalWeight(signals), E3)
    ensures r.score == Contributions(r.components)
    ensures r.band == BandFor(r.score, bands)
    ensures r.counterfactuals == CounterfactualsOf(r.components, Included(r.components))
  {
    hide Round, RecomputeWith, RecomputeWithout, Evaluate, IsFair, Contribution;
    var byId := IndexObservations(observations);
    ghost var cs := EvaluateAll(signals, byId);
    EvaluationsAreFair(signals, byId);
    WeighingTwice(cs);
    var n := |signals|;
    var evaluated := new Component[n](i requires 0 <= i < n && AllBuilt(signals) =>
      Evaluate(signals[i], Lookup(byId, signals[i].id)));
    var includedWeight, totalWeight := SumWeights(evaluated, signals);
    assert evaluated[..] == cs;
    Renormalise(evaluated, includedWeight);
    var components := evaluated[..];
    var sum := SumContributions(components);
    ScoreIsSumOfContributions(cs);
    var score := Round(sum, E2);
    var coverage := if totalWeight == 0.0 then 0.0 else includedWeight / totalWeight;
    var counterfactuals := CounterfactualsOf(components, Included(components));
    r := Scored(score, BandFor(score, bands), Round(coverage, E3), components, counterfactuals);
  }

  method IndexObservations(observations: seq<Observation>) returns (byId: map<string, Observation>)
    ensures byId == Latest(observations)
  {
    byId := map[];
    for i := 0 to |observations|
      invariant byId == Latest(observations[..i])
    {
      assert observations[..i + 1][..i] == observations[..i];
      byId := byId[observations[i].signalId := observations[i]];
    }
    assert observations[..|observations|] == observations;
  }

  method SumContributions(components: seq<Component>) returns (sum: real)
    ensures sum == Contributions(components)
  {
    sum := 0.0;
    for i := 0 to |components|
      invariant sum == Contributions(components[..i])
    {
      assert components[..i + 1][..i] == components[..i];
      sum := sum + components[i].contribution;
    }
    assert components[..|components|] == components;
  }

  method SumWeights(evaluated: array<Component>, signals: seq<Signal>) returns (includedWeight: real, totalWeight: real)
    ensures includedWeight == Weight(evaluated[..]) && totalWeight == TotalWeight(signals)
  {
    includedWeight := 0.0;
    for i := 0 to evaluated.Length
      invariant includedWeight == Weight(evaluated[..i])
    {
      assert evaluated[..i + 1][..i] == evaluated[..i];
      if evaluated[i].included {
        includedWeight := includedWeight + evaluated[i].declaredWeight;
      }
    }
    assert evaluated[..evaluated.Length] == evaluated[..];
    totalWeight := 0.0;
    for i := 0 to |signals|
      invariant totalWeight == TotalWeight(signals[..i])
    {
      assert signals[..i + 1][..i] == signals[..i];
      totalWeight := totalWeight + signals[i].weight;
    }
    assert signals[..|signals|] == signals;
  }

  /** The loop that overwrites each component's effective weight and contribution. */
  method Renormalise(evaluated: array<Component>, includedWeight: real)
    modifies evaluated
    ensures evaluated[..] == WeightedAll(old(evaluated[..]), includedWeight)
  {
    hide PointsFor;
    for i := 0 to evaluated.Length
      invariant forall j :: 0 <= j < i ==> evaluated[j] == Weighted(old(evaluated[j]), includedWeight)
      invariant forall j :: i <= j < evaluated.Length ==> evaluated[j] == old(evaluated[j])
    {
      var c := evaluated[i];
      var effectiveWeight :=
        if c.included && includedWeight > 0.0 then Round(c.declaredWeight / includedWeight, E4) else 0.0;
      assert effectiveWeight == EffectiveWeight(c, includedWeight);
      var contribution := PointsFor(c.normalized, effectiveWeight);
      evaluated[i] := c.(effectiveWeight := effectiveWeight, contribution := contribution);
    }
  }
}
