/**
 * What the numbers shown by packages/core/src/scoring/engine.ts stand for: the latest
 * observation, the weight left out of the coverage, the score of a signal on its own, and
 * the two counterfactual scores.
 */
module ScoreMeaning {
  import opened Wrappers
  import opened Basics
  import opened Rounding
  import opened Normalizers
  import opened Scoring
  import opened ScoreLimits
  import ScoreHash

  // ------------------------------------------------------------------ what is scored

  ghost predicate IsLastFor(observations: seq<Observation>, id: string, k: nat) {
    && k < |observations| && observations[k].signalId == id
    && forall j :: k < j < |observations| ==> observations[j].signalId != id
  }

  /** Of several observations for a signal the last one counts. */
  lemma {:induction false} LastObservationCounts(observations: seq<Observation>, id: string)
    ensures forall k: nat :: IsLastFor(observations, id, k) ==>
              Lookup(Latest(observations), id) == Some(observations[k])
    ensures id in Latest(observations) <==> exists k: nat :: IsLastFor(observations, id, k)
  {
    if observations != [] {
      var n := |observations| - 1;
      var init := observations[..n];
      LastObservationCounts(init, id);
      if observations[n].signalId == id {
        assert IsLastFor(observations, id, n);
      } else {
        forall k: nat
          ensures IsLastFor(observations, id, k) <==> IsLastFor(init, id, k)
        {
        }
      }
    }
  }

  /** The weight of the signals that do not count. */
  function LeftOut(cs: seq<Component>): real {
    if cs == [] then 0.0
    else LeftOut(cs[..|cs| - 1]) + if cs[|cs| - 1].included then 0.0 else cs[|cs| - 1].declaredWeight
  }

  /** Coverage compares with all there is: the weight that counts and the weight left out make up the total. */
  lemma {:induction false} WeightIsCountedOrLeftOut(signals: seq<Signal>, byId: map<string, Observation>)
    requires AllBuilt(signals)
    ensures Weight(EvaluateAll(signals, byId)) + LeftOut(EvaluateAll(signals, byId)) == TotalWeight(signals)
  {
    hide Evaluate;
    if signals != [] {
      var n, cs := |signals| - 1, EvaluateAll(signals, byId);
      WeightIsCountedOrLeftOut(signals[..n], byId);
      assert cs[..n] == EvaluateAll(signals[..n], byId);
      assert cs[n].declaredWeight == signals[n].weight by { DeclaredWeight(signals[n], Lookup(byId, signals[n].id)); }
    }
  }

  lemma DeclaredWeight(s: Signal, found: Option<Observation>)
    requires Built(s.normalizer)
    ensures Evaluate(s, found).declaredWeight == s.weight
  {
  }

  // --------------------------------------------------------------- one signal on its own

  /** The measurement is at the fraction `t` of what the signal can show: along its line, or as it is. */
  predicate MeasuresAt(n: Normalizer, raw: real, t: real) {
    match n
    case Linear(min, max) => min != max && raw == min + t * (max - min)
    case Unit => raw == t
    case Threshold(at) => t == if raw < at then 0.0 else 1.0
    case Curve(_, f) => t == f(raw)
    case Invert(inner) => MeasuresAt(inner, raw, 1.0 - t)
  }

  lemma {:induction false} NormalizesTo(n: Normalizer, raw: real, t: real)
    requires Built(n) && MeasuresAt(n, raw, t) && 0.0 <= t <= 1.0
    ensures Normalize(n, raw) == t
  {
    match n
    case Linear(min, max) => LineIsStraight(min, max, raw, t);
    case Invert(inner) =>
      NormalizesTo(inner, raw, 1.0 - t);
      OthersAreWhatTheySay(n, raw);
    case _ => OthersAreWhatTheySay(n, raw);
  }

  /** Measured alone, at the fraction `t` and on enough samples, a signal scores 100 t to the nearest hundredth. */
  lemma LoneSignalScores(signals: seq<Signal>, i: nat, raw: real, t: real, samples: int)
    requires AllBuilt(signals) && DistinctIds(signals) && i < |signals| && signals[i].weight > 0.0
    requires samples >= signals[i].minSampleSize && MeasuresAt(signals[i].normalizer, raw, t) && 0.0 <= t <= 1.0
    ensures var alone := Latest([Observation(signals[i].id, Measured(raw), samples)]);
            -0.005 <= Score(EvaluateAll(signals, alone)) - 100.0 * t <= 0.005
  {
    hide Score, EvaluateAll, Normalize, Round, MeasuresAt;
    var o := Observation(signals[i].id, Measured(raw), samples);
    assert [o][..0] == [];
    assert Latest([o]) == ScoreHash.Solo(signals[i].id, raw, samples);
    ScoreHash.SoloScore(signals, i, raw, samples);
    NormalizesTo(signals[i].normalizer, raw, t);
    RoundIsNearest(t, E4);
  }

  // ---------------------------------------------------------------- what if it were other

  lemma {:induction false} SettingNoneChangesNothing(cs: seq<Component>, id: string, x: real)
    requires forall i :: 0 <= i < |cs| ==> cs[i].signalId != id
    ensures SetAll(Included(cs), id, x) == Included(cs)
  {
    IncludedComeFrom(cs);
    forall i | 0 <= i < |Included(cs)|
      ensures SetAll(Included(cs), id, x)[i] == Included(cs)[i]
    {
      assert Included(cs)[i] in cs;
    }
  }

  /** The mean, as a score. */
  function OutOf100(moment: real, weight: real): real
    requires weight != 0.0
  {
    100.0 * moment / weight
  }

  /** What setting the component to `x` adds to the weighted sum. */
  function Shift(c: Component, x: real): real {
    (x - c.normalized) * c.declaredWeight
  }

  /** Setting one signal that counts to `x` moves the sum by its weight times the difference. */
  lemma {:induction false} SettingOneMoves(cs: seq<Component>, k: nat, x: real)
    requires DistinctSignals(cs) && k < |cs| && cs[k].included
    ensures Moment(SetAll(Included(cs), cs[k].signalId, x))
            == Moment(cs) + Shift(cs[k], x)
  {
    hide Pull, Shift;
    var n, id := |cs| - 1, cs[k].signalId;
    var init, last := cs[..n], cs[n];
    assert cs == init + [last];
    if k == n {
      SettingNoneChangesNothing(init, id, x);
      IncludedSums(init);
      SettingOneMore(init, last, id, x);
      PullMoves(last, x);
    } else {
      assert init[k] == cs[k];
      SettingOneMoves(init, k, x);
      SettingOneMore(init, last, id, x);
      PullOfLeftOut(last);
    }
  }

  lemma SettingOneMore(init: seq<Component>, last: Component, id: string, x: real)
    ensures Moment(SetAll(Included(init + [last]), id, x))
            == Moment(SetAll(Included(init), id, x)) + if last.included then Pull(Set(last, id, x)) else 0.0
    ensures Moment(init + [last]) == Moment(init) + Pull(last)
  {
    hide Pull, Set;
    var cs := init + [last];
    assert cs[..|cs| - 1] == init;
    if last.included {
      var kept := Included(init);
      assert SetAll(kept + [last], id, x)[..|kept|] == SetAll(kept, id, x);
    }
  }

  lemma PullOfLeftOut(c: Component)
    ensures !c.included ==> Pull(c) == 0.0
  {
  }

  lemma PullMoves(c: Component, x: real)
    requires c.included
    ensures Pull(c.(normalized := x)) == Pull(c) + Shift(c, x)
  {
  }

  /** `scoreIfMaximal`, for any value: the exact score with that signal at `x` instead, rounded once. */
  lemma RecomputedWithOne(cs: seq<Component>, k: nat, x: real)
    requires DistinctSignals(cs) && k < |cs| && cs[k].included && Weight(cs) > 0.0
    ensures var moment := Moment(cs) + Shift(cs[k], x);
            RecomputeWith(cs, cs[k].signalId, x) == Round(OutOf100(moment, Weight(cs)), E2)
  {
    hide OutOf100, Shift, Round, Moment, Points, Weight, Included, SetAll, RecomputeWith;
    IncludedSums(cs);
    SettingOneMoves(cs, k, x);
    var set_, w := SetAll(Included(cs), cs[k].signalId, x), Weight(cs);
    PointsOf(set_, w, Moment(cs) + Shift(cs[k], x));
    RecomputedIsRounded(cs, cs[k].signalId, x);
  }

  lemma PointsOf(cs: seq<Component>, w: real, moment: real)
    requires w > 0.0 && Moment(cs) == moment
    ensures Points(cs, w) == OutOf100(moment, w)
  {
    hide Moment, Points;
    PointsAreExact(cs, w);
  }

  lemma RecomputedIsRounded(cs: seq<Component>, id: string, x: real)
    requires Weight(Included(cs)) != 0.0
    ensures RecomputeWith(cs, id, x) == Round(Points(SetAll(Included(cs), id, x), Weight(Included(cs))), E2)
  {
    hide Round, Points, Weight, Included, SetAll;
  }

  /** `scoreIfRemoved`: the exact score of the rest, rounded once, and 0 when the rest has no weight. */
  lemma RecomputedWithoutOne(cs: seq<Component>, k: nat)
    requires DistinctSignals(cs) && k < |cs| && cs[k].included
    ensures var weight := Weight(cs) - cs[k].declaredWeight;
            var moment := Moment(cs) - cs[k].normalized * cs[k].declaredWeight;
            && (weight == 0.0 ==> RecomputeWithout(cs, cs[k].signalId) == 0.0)
            && (weight > 0.0 ==> RecomputeWithout(cs, cs[k].signalId) == Round(OutOf100(moment, weight), E2))
  {
    hide OutOf100, Round, Moment, Points, Weight, Others;
    GroupIsOneSignal(cs, k);
    var rest := Others(cs, cs[k].signalId);
    assert Weight(rest) == Weight(cs) - cs[k].declaredWeight;
    if Weight(rest) > 0.0 {
      PointsOf(rest, Weight(rest), Moment(cs) - cs[k].normalized * cs[k].declaredWeight);
    }
  }
}
