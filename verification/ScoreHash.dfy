/**
 * The input hash of packages/core/src/scoring/engine.ts: which scores the hashed
 * text settles. Its printer is the canonical one. Which numbers the machine has,
 * and how each prints, are parameters.
 */
module ScoreHash {
  import opened Values
  import opened Normalizers
  import opened Rounding
  import opened Scoring
  import opened ScoreLimits
  import opened Wrappers
  import AuditChain
  import JsonText
  import Canonical

  datatype Profile = Profile(id: string, version: string, bands: Bands, signals: seq<Signal>)

  /** The numbers of the machine, and the text of each. */
  datatype Numbers = Numbers(has: real -> bool, text: real -> string)

  /** Different numbers of the machine print differently. */
  ghost predicate Faithful(num: Numbers) {
    && (forall x :: num.has(x) ==> JsonText.IsNumeral(num.text(x)))
    && (forall x, y :: num.has(x) && num.has(y) && num.text(x) == num.text(y) ==> x == y)
  }

  /** The multiples of 1 / f, each printed as that multiple. With f = 2^1074 all doubles are among them. */
  function Grid(f: real): Numbers {
    Numbers(x => IsDecimal(x, f), x => GridText(x, f))
  }

  function GridText(x: real, f: real): string {
    AuditChain.IntText((x * f).Floor)
  }

  /** There are faithful numbers, as fine as one likes. */
  lemma GridIsFaithful(f: real)
    requires f > 0.0
    ensures Faithful(Grid(f))
  {
    hide GridText, JsonText.IsNumeral;
    forall x | Grid(f).has(x)
      ensures JsonText.IsNumeral(Grid(f).text(x))
    {
      GridTextIsNumeral(x, f);
    }
    forall x, y | Grid(f).has(x) && Grid(f).has(y) && Grid(f).text(x) == Grid(f).text(y)
      ensures x == y
    {
      GridTextReadsBack(x, y, f);
    }
  }

  lemma GridTextIsNumeral(x: real, f: real)
    ensures JsonText.IsNumeral(GridText(x, f))
  {
    AuditChain.IntTextIsNumeral((x * f).Floor);
  }

  lemma GridTextReadsBack(x: real, y: real, f: real)
    requires f > 0.0 && IsDecimal(x, f) && IsDecimal(y, f)
    requires GridText(x, f) == GridText(y, f)
    ensures x == y
  {
    hide AuditChain.IntText;
    AuditChain.IntTextIsInjective((x * f).Floor, (y * f).Floor);
    Cancel(x, f);
    Cancel(y, f);
  }

  predicate BandsIn(num: Numbers, b: Bands) {
    num.has(b.notice) && num.has(b.elevated) && num.has(b.critical)
  }

  predicate SignalIn(num: Numbers, s: Signal) {
    num.has(s.weight) && num.has(s.minSampleSize as real)
  }

  ghost predicate SignalsIn(num: Numbers, signals: seq<Signal>) {
    forall i :: 0 <= i < |signals| ==> SignalIn(num, signals[i])
  }

  /** The profile is written in numbers of the machine. */
  ghost predicate ProfileIn(num: Numbers, p: Profile) {
    BandsIn(num, p.bands) && SignalsIn(num, p.signals)
  }

  predicate ReadingIn(num: Numbers, o: Observation) {
    (o.raw.Measured? ==> num.has(o.raw.value)) && num.has(o.sampleSize as real)
  }

  /** The readings are numbers of the machine, or no finite numbers. */
  ghost predicate ReadingsIn(num: Numbers, byId: map<string, Observation>) {
    forall id :: id in byId ==> ReadingIn(num, byId[id])
  }

  function Num(num: Numbers, x: real): Value {
    Value.Number(Finite(num.text(x)))
  }

  function RawValue(num: Numbers, raw: Raw): Value {
    if raw.Measured? then Num(num, raw.value) else Value.Number(NonFinite)
  }

  function BandsProps(num: Numbers, b: Bands): seq<Property> {
    [Property("notice", Num(num, b.notice)), Property("elevated", Num(num, b.elevated)),
     Property("critical", Num(num, b.critical))]
  }

  function ProfileProps(num: Numbers, p: Profile): seq<Property> {
    [Property("id", Text(p.id)), Property("version", Text(p.version)),
     Property("bands", Object(BandsProps(num, p.bands)))]
  }

  /** Of a signal its id, its weight and the name of its normalizer. */
  function SignalProps(num: Numbers, s: Signal): seq<Property> {
    [Property("id", Text(s.id)), Property("w", Num(num, s.weight)), Property("n", Text(Kind(s.normalizer)))]
  }

  function ObservationProps(num: Numbers, id: string, o: Observation): seq<Property> {
    [Property("id", Text(id)), Property("raw", RawValue(num, o.raw)), Property("n", Num(num, o.sampleSize as real))]
  }

  function SignalValues(num: Numbers, signals: seq<Signal>): (vs: seq<Value>)
    ensures |vs| == |signals|
    ensures forall i :: 0 <= i < |vs| ==> vs[i] == Object(SignalProps(num, signals[i]))
  {
    seq(|signals|, i requires 0 <= i < |signals| => Object(SignalProps(num, signals[i])))
  }

  /** The observations in the order of their ids. */
  function ObservationValues(num: Numbers, byId: map<string, Observation>, ids: seq<string>): (vs: seq<Value>)
    requires forall id :: id in ids ==> id in byId
    ensures |vs| == |ids|
    ensures forall i :: 0 <= i < |vs| ==> vs[i] == Object(ObservationProps(num, ids[i], byId[ids[i]]))
  {
    seq(|ids|, i requires 0 <= i < |ids| => Object(ObservationProps(num, ids[i], byId[ids[i]])))
  }

  ghost function HashedProps(num: Numbers, p: Profile, byId: map<string, Observation>): seq<Property> {
    [Property("profile", Object(ProfileProps(num, p))),
     Property("signals", Array(SignalValues(num, p.signals))),
     Property("observations", Array(ObservationValues(num, byId, JsonText.SortedKeys(byId.Keys))))]
  }

  ghost function HashedText(num: Numbers, p: Profile, byId: map<string, Observation>): string {
    Canonical.Canonicalize(Object(HashedProps(num, p, byId)))
  }

  // ---------------------------------------------------------------- reading the text back

  /** Three properties with the same three different keys. */
  ghost predicate SameThreeKeys(ps: seq<Property>, qs: seq<Property>) {
    && |ps| == |qs| == 3 && Canonical.DistinctKeys(ps) && Canonical.DistinctKeys(qs)
    && forall i :: 0 <= i < 3 ==> ps[i].key == qs[i].key && ps[i].value != Undefined && qs[i].value != Undefined
  }

  lemma ObjectsAgree(ps: seq<Property>, qs: seq<Property>)
    requires SameThreeKeys(ps, qs) && Canonical.Normalize(Object(ps)) == Canonical.Normalize(Object(qs))
    ensures forall i :: 0 <= i < 3 ==> Canonical.Normalize(ps[i].value) == Canonical.Normalize(qs[i].value)
  {
    assert Canonical.Normalize(Object(ps)).members == Canonical.NormalMembers(ps);
    assert Canonical.Normalize(Object(qs)).members == Canonical.NormalMembers(qs);
    Canonical.SameMembersSameValues(ps, qs);
  }

  lemma ArraysAgree(vs: seq<Value>, ws: seq<Value>)
    requires Canonical.Normalize(Array(vs)) == Canonical.Normalize(Array(ws))
    ensures |vs| == |ws| && forall i :: 0 <= i < |vs| ==> Canonical.Normalize(vs[i]) == Canonical.Normalize(ws[i])
  {
    var a, b := Canonical.Normalize(Array(vs)).elems, Canonical.Normalize(Array(ws)).elems;
    forall i | 0 <= i < |vs|
      ensures i < |ws| ==> Canonical.Normalize(vs[i]) == Canonical.Normalize(ws[i])
    {
      assert a[i] == Canonical.Normalize(vs[i]);
    }
  }

  lemma BandsAgree(num: Numbers, b: Bands, c: Bands)
    requires Faithful(num) && BandsIn(num, b) && BandsIn(num, c)
    requires Canonical.Normalize(Object(BandsProps(num, b))) == Canonical.Normalize(Object(BandsProps(num, c)))
    ensures b == c
  {
    hide Canonical.DistinctKeys, Canonical.WellFormed;
    var ps, qs := BandsProps(num, b), BandsProps(num, c);
    ThreeKeysDiffer(ps);
    ThreeKeysDiffer(qs);
    ObjectsAgree(ps, qs);
    assert forall i :: 0 <= i < 3 ==> Canonical.Normalize(ps[i].value) == Canonical.Normalize(qs[i].value);
    assert Canonical.Normalize(ps[0].value) == JsonText.JNumber(num.text(b.notice));
    assert Canonical.Normalize(ps[1].value) == JsonText.JNumber(num.text(b.elevated));
    assert Canonical.Normalize(ps[2].value) == JsonText.JNumber(num.text(b.critical));
  }

  lemma ProfilesAgree(num: Numbers, p: Profile, q: Profile)
    requires Faithful(num) && BandsIn(num, p.bands) && BandsIn(num, q.bands)
    requires Canonical.Normalize(Object(ProfileProps(num, p))) == Canonical.Normalize(Object(ProfileProps(num, q)))
    ensures p.id == q.id && p.version == q.version && p.bands == q.bands
  {
    hide BandsProps, Canonical.DistinctKeys;
    var ps, qs := ProfileProps(num, p), ProfileProps(num, q);
    ThreeKeysDiffer(ps);
    ThreeKeysDiffer(qs);
    ObjectsAgree(ps, qs);
    assert Canonical.Normalize(ps[0].value) == JsonText.JString(p.id);
    assert Canonical.Normalize(ps[1].value) == JsonText.JString(p.version);
    assert Canonical.Normalize(ps[2].value) == Canonical.Normalize(qs[2].value);
    BandsAgree(num, p.bands, q.bands);
  }

  lemma SignalsAgree(num: Numbers, s: Signal, t: Signal)
    requires Faithful(num) && SignalIn(num, s) && SignalIn(num, t)
    requires Canonical.Normalize(Object(SignalProps(num, s))) == Canonical.Normalize(Object(SignalProps(num, t)))
    ensures SignalsLookAlike(s, t)
  {
    hide Kind, Canonical.DistinctKeys, Canonical.WellFormed;
    var ps, qs := SignalProps(num, s), SignalProps(num, t);
    ThreeKeysDiffer(ps);
    ThreeKeysDiffer(qs);
    ObjectsAgree(ps, qs);
    assert Canonical.Normalize(ps[0].value) == JsonText.JString(s.id);
    assert Canonical.Normalize(ps[1].value) == JsonText.JNumber(num.text(s.weight));
    assert Canonical.Normalize(ps[2].value) == JsonText.JString(Kind(s.normalizer));
  }

  predicate SameReading(o: Observation, r: Observation) {
    o.raw == r.raw && o.sampleSize == r.sampleSize
  }

  lemma ObservationsAgree(num: Numbers, id: string, o: Observation, jd: string, r: Observation)
    requires Faithful(num) && ReadingIn(num, o) && ReadingIn(num, r)
    requires Canonical.Normalize(Object(ObservationProps(num, id, o)))
             == Canonical.Normalize(Object(ObservationProps(num, jd, r)))
    ensures id == jd && SameReading(o, r)
  {
    hide Canonical.DistinctKeys, Canonical.WellFormed;
    var ps, qs := ObservationProps(num, id, o), ObservationProps(num, jd, r);
    ThreeKeysDiffer(ps);
    ThreeKeysDiffer(qs);
    ObjectsAgree(ps, qs);
    assert Canonical.Normalize(ps[0].value) == JsonText.JString(id);
    assert Canonical.Normalize(ps[1].value) == Canonical.Normalize(qs[1].value);
    assert Canonical.Normalize(ps[2].value) == JsonText.JNumber(num.text(o.sampleSize as real));
  }

  lemma ThreeKeysDiffer(ps: seq<Property>)
    requires |ps| == 3 && ps[0].key != "" && ps[1].key != "" && ps[2].key != ""
    requires ps[0].key[0] != ps[1].key[0] && ps[0].key[0] != ps[2].key[0] && ps[1].key[0] != ps[2].key[0]
    ensures Canonical.DistinctKeys(ps)
    ensures && Canonical.WellFormed(ps[0].value) && Canonical.WellFormed(ps[1].value)
            && Canonical.WellFormed(ps[2].value) ==>
              Canonical.WellFormed(Object(ps))
  {
    assert forall p :: p in ps ==> p == ps[0] || p == ps[1] || p == ps[2];
  }

  lemma ProfileIsWellFormed(num: Numbers, p: Profile)
    requires Faithful(num) && BandsIn(num, p.bands)
    ensures Canonical.WellFormed(Object(ProfileProps(num, p)))
  {
    ThreeKeysDiffer(BandsProps(num, p.bands));
    ThreeKeysDiffer(ProfileProps(num, p));
  }

  lemma SignalIsWellFormed(num: Numbers, s: Signal)
    requires Faithful(num) && SignalIn(num, s)
    ensures Canonical.WellFormed(Object(SignalProps(num, s)))
  {
    ThreeKeysDiffer(SignalProps(num, s));
  }

  lemma ObservationIsWellFormed(num: Numbers, id: string, o: Observation)
    requires Faithful(num) && ReadingIn(num, o)
    ensures Canonical.WellFormed(Object(ObservationProps(num, id, o)))
  {
    ThreeKeysDiffer(ObservationProps(num, id, o));
  }

  lemma ArrayIsWellFormed(vs: seq<Value>)
    requires forall i :: 0 <= i < |vs| ==> Canonical.WellFormed(vs[i])
    ensures Canonical.WellFormed(Array(vs))
  {
    assert forall v :: v in vs ==> exists i :: 0 <= i < |vs| && vs[i] == v;
  }

  lemma HashedIsWellFormed(num: Numbers, p: Profile, byId: map<string, Observation>)
    requires Faithful(num) && ProfileIn(num, p) && ReadingsIn(num, byId)
    ensures Canonical.WellFormed(Object(HashedProps(num, p, byId))) && Canonical.DistinctKeys(HashedProps(num, p, byId))
  {
    hide ProfileProps, SignalProps, ObservationProps, Canonical.WellFormed, Canonical.DistinctKeys, Faithful,
         SignalIn, ReadingIn;
    ProfileIsWellFormed(num, p);
    forall s | SignalIn(num, s)
      ensures Canonical.WellFormed(Object(SignalProps(num, s)))
    {
      SignalIsWellFormed(num, s);
    }
    forall id, o | ReadingIn(num, o)
      ensures Canonical.WellFormed(Object(ObservationProps(num, id, o)))
    {
      ObservationIsWellFormed(num, id, o);
    }
    ArrayIsWellFormed(SignalValues(num, p.signals));
    ArrayIsWellFormed(ObservationValues(num, byId, JsonText.SortedKeys(byId.Keys)));
    ThreeKeysDiffer(HashedProps(num, p, byId));
  }

  /** The observations read alike: the same ids, measurements and sample sizes. */
  ghost predicate SameReadings(a: map<string, Observation>, b: map<string, Observation>) {
    a.Keys == b.Keys && forall id :: id in a ==> SameReading(a[id], b[id])
  }

  /** All that the hashed text shows: of the normalizers only their names. */
  ghost predicate LookAlike(p: Profile, a: map<string, Observation>, q: Profile, b: map<string, Observation>) {
    && p.id == q.id && p.version == q.version && p.bands == q.bands && |p.signals| == |q.signals|
    && (forall i :: 0 <= i < |p.signals| ==> SignalsLookAlike(p.signals[i], q.signals[i]))
    && SameReadings(a, b)
  }

  predicate SignalsLookAlike(s: Signal, t: Signal) {
    s.id == t.id && s.weight == t.weight && Kind(s.normalizer) == Kind(t.normalizer)
  }

  lemma LookAlikesHashAlike(num: Numbers, p: Profile, a: map<string, Observation>, q: Profile,
                            b: map<string, Observation>)
    requires LookAlike(p, a, q, b)
    ensures HashedProps(num, p, a) == HashedProps(num, q, b)
  {
    hide Kind;
    var ids := JsonText.SortedKeys(a.Keys);
    assert forall i :: 0 <= i < |ids| ==> ids[i] in ids && SameReading(a[ids[i]], b[ids[i]]);
    assert SignalValues(num, p.signals) == SignalValues(num, q.signals);
    assert ObservationValues(num, a, ids) == ObservationValues(num, b, ids);
  }

  /** The hashed texts are equal exactly when all that they show is the same. */
  lemma HashedTextShows(num: Numbers, p: Profile, a: map<string, Observation>, q: Profile, b: map<string, Observation>)
    requires Faithful(num) && ProfileIn(num, p) && ProfileIn(num, q) && ReadingsIn(num, a) && ReadingsIn(num, b)
    ensures HashedText(num, p, a) == HashedText(num, q, b) <==> LookAlike(p, a, q, b)
  {
    hide LookAlike, HashedProps, Canonical.Canonicalize;
    if HashedText(num, p, a) == HashedText(num, q, b) {
      HashedTextSettles(num, p, a, q, b);
    }
    if LookAlike(p, a, q, b) {
      LookAlikesHashAlike(num, p, a, q, b);
    }
  }

  lemma HashedTextSettles(num: Numbers, p: Profile, a: map<string, Observation>, q: Profile,
                          b: map<string, Observation>)
    requires Faithful(num) && ProfileIn(num, p) && ProfileIn(num, q) && ReadingsIn(num, a) && ReadingsIn(num, b)
    requires HashedText(num, p, a) == HashedText(num, q, b)
    ensures LookAlike(p, a, q, b)
  {
    hide ProfileProps, SignalProps, ObservationProps, Canonical.Normalize, Canonical.Canonicalize, Canonical.WellFormed;
    var ps, qs := HashedProps(num, p, a), HashedProps(num, q, b);
    HashedIsWellFormed(num, p, a);
    HashedIsWellFormed(num, q, b);
    Canonical.CanonicalizeIsInjectiveOnNormalForms(Object(ps), Object(qs));
    ObjectsAgree(ps, qs);
    assert Canonical.Normalize(ps[0].value) == Canonical.Normalize(qs[0].value);
    ProfilesAgree(num, p, q);
    assert Canonical.Normalize(ps[1].value) == Canonical.Normalize(qs[1].value);
    ArraysAgree(SignalValues(num, p.signals), SignalValues(num, q.signals));
    forall i | 0 <= i < |p.signals|
      ensures SignalsLookAlike(p.signals[i], q.signals[i])
    {
      SignalsAgree(num, p.signals[i], q.signals[i]);
    }
    assert Canonical.Normalize(ps[2].value) == Canonical.Normalize(qs[2].value);
    ReadingsAgree(num, a, b);
  }

  lemma ReadingsAgree(num: Numbers, a: map<string, Observation>, b: map<string, Observation>)
    requires Faithful(num) && ReadingsIn(num, a) && ReadingsIn(num, b)
    requires Canonical.Normalize(Array(ObservationValues(num, a, JsonText.SortedKeys(a.Keys))))
          == Canonical.Normalize(Array(ObservationValues(num, b, JsonText.SortedKeys(b.Keys))))
    ensures SameReadings(a, b)
  {
    hide ObservationProps, Canonical.Normalize;
    var ids, jds := JsonText.SortedKeys(a.Keys), JsonText.SortedKeys(b.Keys);
    ArraysAgree(ObservationValues(num, a, ids), ObservationValues(num, b, jds));
    forall i | 0 <= i < |ids|
      ensures ids[i] == jds[i] && SameReading(a[ids[i]], b[ids[i]])
    {
      ObservationsAgree(num, ids[i], a[ids[i]], jds[i], b[jds[i]]);
    }
    assert ids == jds;
    forall id
      ensures id in a <==> id in b
    {
      assert id in ids <==> id in a;
      assert id in jds <==> id in b;
    }
  }

  lemma SameReadingsSameComponents(signals: seq<Signal>, a: map<string, Observation>, b: map<string, Observation>)
    requires AllBuilt(signals) && SameReadings(a, b)
    ensures EvaluateAll(signals, a) == EvaluateAll(signals, b)
  {
    hide Normalize;
    forall i | 0 <= i < |signals|
      ensures EvaluateAll(signals, a)[i] == EvaluateAll(signals, b)[i]
    {
      SameReadingSameComponent(signals[i], a, b);
    }
  }

  lemma SameReadingSameComponent(s: Signal, a: map<string, Observation>, b: map<string, Observation>)
    requires Built(s.normalizer) && SameReadings(a, b)
    ensures Evaluate(s, Lookup(a, s.id)) == Evaluate(s, Lookup(b, s.id))
  {
  }

  // ----------------------------------------------------- when the hash settles the score

  /** What a component shows of a measurement. */
  function Shown(n: Normalizer, raw: real): real
    requires Built(n)
  {
    Round(Normalize(n, raw), E4)
  }

  /** The normalizers agree after rounding on every number of the machine. */
  ghost predicate SameCurve(num: Numbers, m: Normalizer, n: Normalizer)
    requires Built(m) && Built(n)
  {
    forall raw :: num.has(raw) ==> Shown(m, raw) == Shown(n, raw)
  }

  ghost predicate SameAt(num: Numbers, ps: seq<Signal>, qs: seq<Signal>, i: nat)
    requires AllBuilt(ps) && AllBuilt(qs) && i < |ps| == |qs|
  {
    ps[i].minSampleSize == qs[i].minSampleSize && SameCurve(num, ps[i].normalizer, qs[i].normalizer)
  }

  /** Signal by signal the same needed samples, and normalizers that agree after rounding. */
  ghost predicate SameAfterRounding(num: Numbers, ps: seq<Signal>, qs: seq<Signal>)
    requires AllBuilt(ps) && AllBuilt(qs) && |ps| == |qs|
  {
    forall i :: 0 <= i < |ps| ==> SameAt(num, ps, qs, i)
  }

  ghost predicate Alike(ps: seq<Signal>, qs: seq<Signal>) {
    |ps| == |qs| && forall i :: 0 <= i < |ps| ==> ps[i].id == qs[i].id && ps[i].weight == qs[i].weight
  }

  /** Signals that count for something: a positive weight, and some measurement that shows. */
  ghost predicate AllCount(num: Numbers, signals: seq<Signal>, probe: string -> real)
    requires AllBuilt(signals)
  {
    forall i :: 0 <= i < |signals| ==> CountsFor(num, signals, probe, i)
  }

  ghost predicate CountsFor(num: Numbers, signals: seq<Signal>, probe: string -> real, i: nat)
    requires AllBuilt(signals) && i < |signals|
  {
    var raw := probe(signals[i].id);
    signals[i].weight > 0.0 && num.has(raw) && Shown(signals[i].normalizer, raw) > 0.0
  }

  /** A single observation. */
  function Solo(id: string, raw: real, n: int): map<string, Observation> {
    map[id := Observation(id, Measured(raw), n)]
  }

  lemma {:induction false} OnlyOneIncluded(cs: seq<Component>, k: nat)
    requires k < |cs| && cs[k].included && forall i :: 0 <= i < |cs| && i != k ==> !cs[i].included
    ensures Included(cs) == [cs[k]]
  {
    if k == |cs| - 1 {
      NoneIncluded(cs[..k]);
    } else {
      OnlyOneIncluded(cs[..|cs| - 1], k);
    }
  }

  lemma {:induction false} NoneIncluded(cs: seq<Component>)
    requires forall i :: 0 <= i < |cs| ==> !cs[i].included
    ensures Included(cs) == []
  {
    if cs != [] {
      NoneIncluded(cs[..|cs| - 1]);
    }
  }

  lemma ScoreOfNone()
    ensures Score([]) == 0.0
  {
    ScoreIsSumOfContributions([]);
  }

  lemma ScoreOfOne(c: Component)
    requires c.included && c.declaredWeight > 0.0 && IsDecimal(c.normalized, E4)
    ensures Score([c]) == 100.0 * c.normalized
  {
    hide IsDecimal;
    var w := c.declaredWeight;
    assert [c][..0] == [];
    assert Weight([c]) == w;
    SelfQuotient(w);
    assert EffectiveWeight(c, w) == 1.0 by { RoundOfOne(); }
    PercentIsDecimal(c.normalized);
    ScoreIsSumOfContributions([c]);
    WeightedPrefix([c], w);
  }

  lemma RoundOfOne()
    ensures Round(1.0, E4) == 1.0
  {
  }

  lemma PercentIsDecimal(x: real)
    requires IsDecimal(x, E4)
    ensures Round(x * 1.0 * 100.0, E2) == 100.0 * x
  {
    assert x * 1.0 * 100.0 * E2 == x * E4;
    RoundKeepsDecimals(x * 1.0 * 100.0, E2);
  }

  /** One observation alone scores what its signal shows of it, or nothing when its samples are too few. */
  lemma SoloScore(signals: seq<Signal>, i: nat, raw: real, n: int)
    requires AllBuilt(signals) && DistinctIds(signals) && i < |signals| && signals[i].weight > 0.0
    ensures Score(EvaluateAll(signals, Solo(signals[i].id, raw, n)))
            == if n >= signals[i].minSampleSize then 100.0 * Shown(signals[i].normalizer, raw) else 0.0
  {
    hide Score, Round, Normalize, Weight;
    var byId := Solo(signals[i].id, raw, n);
    var cs := EvaluateAll(signals, byId);
    EvaluationsAreFair(signals, byId);
    MissingSignalsDoNotCount(cs);
    assert forall j :: 0 <= j < |signals| && j != i ==> signals[j].id != signals[i].id;
    assert forall j :: 0 <= j < |cs| && j != i ==> !cs[j].included;
    if n >= signals[i].minSampleSize {
      OnlyOneIncluded(cs, i);
      RoundIsNearest(Normalize(signals[i].normalizer, raw), E4);
      ScoreOfOne(cs[i]);
    } else {
      NoneIncluded(cs);
      ScoreOfNone();
    }
  }

  lemma SameSignalsSameComponents(num: Numbers, ps: seq<Signal>, qs: seq<Signal>, byId: map<string, Observation>)
    requires AllBuilt(ps) && AllBuilt(qs) && Alike(ps, qs) && SameAfterRounding(num, ps, qs) && ReadingsIn(num, byId)
    ensures EvaluateAll(ps, byId) == EvaluateAll(qs, byId)
  {
    hide Evaluate, Built;
    forall i | 0 <= i < |ps|
      ensures EvaluateAll(ps, byId)[i] == EvaluateAll(qs, byId)[i]
    {
      assert SameAt(num, ps, qs, i);
      SameSignalSameComponent(num, ps[i], qs[i], Lookup(byId, ps[i].id));
    }
  }

  lemma SameSignalSameComponent(num: Numbers, s: Signal, t: Signal, found: Option<Observation>)
    requires Built(s.normalizer) && Built(t.normalizer) && SameCurve(num, s.normalizer, t.normalizer)
    requires s.id == t.id && s.weight == t.weight && s.minSampleSize == t.minSampleSize
    requires found.Some? ==> ReadingIn(num, found.value)
    ensures Evaluate(s, found) == Evaluate(t, found)
  {
    hide Normalize;
    if found.Some? && found.value.raw.Measured? {
      assert Shown(s.normalizer, found.value.raw.value) == Shown(t.normalizer, found.value.raw.value);
    }
  }

  /**
   * The same hashed text gives the same components, score and band, provided that what it
   * leaves out is the same after rounding.
   */
  lemma SameHashedTextSameScore(num: Numbers, p: Profile, a: map<string, Observation>, q: Profile,
                                b: map<string, Observation>)
    requires Faithful(num) && ProfileIn(num, p) && ProfileIn(num, q) && ReadingsIn(num, a) && ReadingsIn(num, b)
    requires HashedText(num, p, a) == HashedText(num, q, b)
    requires AllBuilt(p.signals) && AllBuilt(q.signals) && |p.signals| == |q.signals|
             && SameAfterRounding(num, p.signals, q.signals)
    ensures EvaluateAll(p.signals, a) == EvaluateAll(q.signals, b)
    ensures var score := Score(EvaluateAll(p.signals, a));
            score == Score(EvaluateAll(q.signals, b)) && BandFor(score, p.bands) == BandFor(score, q.bands)
  {
    hide HashedText, Score, Built, SameAfterRounding, EvaluateAll;
    HashedTextShows(num, p, a, q, b);
    assert forall i :: 0 <= i < |p.signals| ==> SignalsLookAlike(p.signals[i], q.signals[i]);
    SameSignalsSameComponents(num, p.signals, q.signals, a);
    SameReadingsSameComponents(q.signals, a, b);
  }

  ghost predicate AgreeOn(ps: seq<Signal>, qs: seq<Signal>, byId: map<string, Observation>)
    requires AllBuilt(ps) && AllBuilt(qs)
  {
    Score(EvaluateAll(ps, byId)) == Score(EvaluateAll(qs, byId))
  }

  /** The scores agree on all readings. */
  ghost predicate AgreeThroughout(num: Numbers, ps: seq<Signal>, qs: seq<Signal>)
    requires AllBuilt(ps) && AllBuilt(qs)
  {
    forall byId :: ReadingsIn(num, byId) ==> AgreeOn(ps, qs, byId)
  }

  lemma AgreeingAlone(num: Numbers, ps: seq<Signal>, qs: seq<Signal>, probe: string -> real, i: nat)
    requires AllBuilt(ps) && AllBuilt(qs) && Alike(ps, qs) && DistinctIds(ps) && AllCount(num, ps, probe) && i < |ps|
    requires SignalsIn(num, ps) && SignalsIn(num, qs) && AgreeThroughout(num, ps, qs)
    ensures SameAt(num, ps, qs, i)
  {
    hide Score, EvaluateAll, Shown, Built;
    var s, t, id := ps[i], qs[i], ps[i].id;
    assert CountsFor(num, ps, probe, i);
    assert DistinctIds(qs);
    var least, most := if s.minSampleSize <= t.minSampleSize then s.minSampleSize else t.minSampleSize,
                       if s.minSampleSize <= t.minSampleSize then t.minSampleSize else s.minSampleSize;
    assert SignalIn(num, s) && SignalIn(num, t);
    forall raw | num.has(raw)
      ensures Shown(s.normalizer, raw) == Shown(t.normalizer, raw)
    {
      assert AgreeOn(ps, qs, Solo(id, raw, most));
      SoloScore(ps, i, raw, most);
      SoloScore(qs, i, raw, most);
    }
    assert AgreeOn(ps, qs, Solo(id, probe(id), least));
    SoloScore(ps, i, probe(id), least);
    SoloScore(qs, i, probe(id), least);
  }

  /** Two profiles that look alike give the same scores exactly when they are the same after rounding. */
  lemma ScoresAgreeExactlyWhen(num: Numbers, ps: seq<Signal>, qs: seq<Signal>, probe: string -> real)
    requires AllBuilt(ps) && AllBuilt(qs) && Alike(ps, qs) && DistinctIds(ps) && AllCount(num, ps, probe)
    requires SignalsIn(num, ps) && SignalsIn(num, qs)
    ensures AgreeThroughout(num, ps, qs) <==> SameAfterRounding(num, ps, qs)
  {
    hide SameAt;
    if AgreeThroughout(num, ps, qs) {
      forall i | 0 <= i < |ps|
        ensures SameAt(num, ps, qs, i)
      {
        AgreeingAlone(num, ps, qs, probe, i);
      }
    }
    if SameAfterRounding(num, ps, qs) {
      forall byId | ReadingsIn(num, byId)
        ensures AgreeOn(ps, qs, byId)
      {
        SameSignalsSameComponents(num, ps, qs, byId);
      }
    }
  }

  /** What the hash shows of two profiles is the same. */
  ghost predicate ProfilesLookAlike(p: Profile, q: Profile) {
    && p.id == q.id && p.version == q.version && p.bands == q.bands && |p.signals| == |q.signals|
    && forall i :: 0 <= i < |p.signals| ==> SignalsLookAlike(p.signals[i], q.signals[i])
  }

  /** Whenever the hashed texts are equal, so are the scores. */
  ghost predicate HashSettlesScore(num: Numbers, p: Profile, q: Profile)
    requires AllBuilt(p.signals) && AllBuilt(q.signals)
  {
    forall a, b :: ReadingsIn(num, a) && ReadingsIn(num, b) && HashedText(num, p, a) == HashedText(num, q, b) ==>
      Score(EvaluateAll(p.signals, a)) == Score(EvaluateAll(q.signals, b))
  }

  /**
   * The same hash always yields the same score for two profiles exactly when the
   * hash tells them apart, or they need the same samples and their normalizers agree
   * after rounding.
   */
  lemma HashSettlesScoreExactlyWhen(num: Numbers, p: Profile, q: Profile, probe: string -> real)
    requires Faithful(num) && ProfileIn(num, p) && ProfileIn(num, q)
    requires AllBuilt(p.signals) && AllBuilt(q.signals) && DistinctIds(p.signals) && AllCount(num, p.signals, probe)
    ensures HashSettlesScore(num, p, q) <==> (ProfilesLookAlike(p, q) ==> SameAfterRounding(num, p.signals, q.signals))
  {
    hide HashedText, Score, EvaluateAll, SignalsLookAlike, SameAfterRounding, AllCount, DistinctIds;
    if ProfilesLookAlike(p, q) {
      SignalsAlike(p, q);
      ScoresAgreeExactlyWhen(num, p.signals, q.signals, probe);
      AgreementIsSettlement(num, p, q);
    } else {
      forall a, b | ReadingsIn(num, a) && ReadingsIn(num, b)
        ensures HashedText(num, p, a) != HashedText(num, q, b)
      {
        HashedTextShows(num, p, a, q, b);
      }
    }
  }

  lemma SignalsAlike(p: Profile, q: Profile)
    requires ProfilesLookAlike(p, q)
    ensures Alike(p.signals, q.signals)
  {
    hide Kind;
    assert forall i :: 0 <= i < |p.signals| ==> SignalsLookAlike(p.signals[i], q.signals[i]);
  }

  lemma AgreementIsSettlement(num: Numbers, p: Profile, q: Profile)
    requires Faithful(num) && ProfileIn(num, p) && ProfileIn(num, q)
    requires AllBuilt(p.signals) && AllBuilt(q.signals) && ProfilesLookAlike(p, q)
    ensures HashSettlesScore(num, p, q) <==> AgreeThroughout(num, p.signals, q.signals)
  {
    hide HashedText, Score, EvaluateAll, SignalsLookAlike, Built;
    if HashSettlesScore(num, p, q) {
      forall byId | ReadingsIn(num, byId)
        ensures AgreeOn(p.signals, q.signals, byId)
      {
        SameReadingsReflexive(byId);
        HashedTextShows(num, p, byId, q, byId);
      }
    }
    if AgreeThroughout(num, p.signals, q.signals) {
      forall a, b | ReadingsIn(num, a) && ReadingsIn(num, b) && HashedText(num, p, a) == HashedText(num, q, b)
        ensures Score(EvaluateAll(p.signals, a)) == Score(EvaluateAll(q.signals, b))
      {
        HashedTextShows(num, p, a, q, b);
        SameReadingsSameComponents(q.signals, a, b);
        assert AgreeOn(p.signals, q.signals, a);
      }
    }
  }

  lemma SameReadingsReflexive(byId: map<string, Observation>)
    ensures SameReadings(byId, byId)
  {
  }

  /** One signal of weight 1 on a straight line from 0. */
  function OneLine(max: real): (p: Profile)
    requires max != 0.0
    ensures AllBuilt(p.signals)
  {
    Profile("p", "1", Bands(25.0, 50.0, 75.0), [Signal("s", 1.0, MakeLinear(0.0, max).value, 1)])
  }

  function FiveOf(): map<string, Observation> {
    map["s" := Observation("s", Measured(5.0), 1)]
  }

  /** Without that it need not: a line to 5 and a line to 10 hash alike, and score 100 and 50 on a measurement of 5. */
  lemma SameHashedTextOtherScore(num: Numbers)
    ensures HashedText(num, OneLine(5.0), FiveOf()) == HashedText(num, OneLine(10.0), FiveOf())
    ensures Score(EvaluateAll(OneLine(5.0).signals, FiveOf())) == 100.0
    ensures Score(EvaluateAll(OneLine(10.0).signals, FiveOf())) == 50.0
  {
    hide Score, EvaluateAll, HashedText, OneLine, FiveOf;
    LinesLookAlike();
    LookAlikesHashAlike(num, OneLine(5.0), FiveOf(), OneLine(10.0), FiveOf());
    SameProps(num, OneLine(5.0), FiveOf(), OneLine(10.0), FiveOf());
    OneLineScore(5.0, 1.0);
    OneLineScore(10.0, 0.5);
  }

  /** On whole numbers already, with all that the exact condition asks for, the hash leaves the score open. */
  lemma HashLeavesScoreOpen()
    ensures var num, p, q := Grid(1.0), OneLine(5.0), OneLine(10.0);
            && Faithful(num) && ProfileIn(num, p) && ProfileIn(num, q)
            && DistinctIds(p.signals) && AllCount(num, p.signals, _ => 5.0)
            && !HashSettlesScore(num, p, q)
  {
    hide Faithful, HashedText, Score, EvaluateAll, Shown, Grid, OneLine, FiveOf, ProfileIn, ReadingsIn, AllCount;
    var num := Grid(1.0);
    GridIsFaithful(1.0);
    WholesAreOnGrid();
    LinesAreIn(num);
    SameHashedTextOtherScore(num);
  }

  lemma WholesAreOnGrid()
    ensures var has := Grid(1.0).has; has(1.0) && has(5.0) && has(25.0) && has(50.0) && has(75.0)
  {
    hide GridText;
    assert forall x :: Grid(1.0).has(x) == IsWhole(x * 1.0);
  }

  lemma LinesAreIn(num: Numbers)
    requires num.has(1.0) && num.has(5.0) && num.has(25.0) && num.has(50.0) && num.has(75.0)
    ensures ProfileIn(num, OneLine(5.0)) && ProfileIn(num, OneLine(10.0)) && ReadingsIn(num, FiveOf())
    ensures DistinctIds(OneLine(5.0).signals) && AllCount(num, OneLine(5.0).signals, _ => 5.0)
  {
    hide Shown, Normalize;
    LineShows(5.0, 1.0);
  }

  lemma LinesLookAlike()
    ensures LookAlike(OneLine(5.0), FiveOf(), OneLine(10.0), FiveOf())
  {
    hide Normalize, Built, FiveOf, AllBuilt;
    assert SignalsLookAlike(OneLine(5.0).signals[0], OneLine(10.0).signals[0]);
  }

  lemma SameProps(num: Numbers, p: Profile, a: map<string, Observation>, q: Profile, b: map<string, Observation>)
    requires HashedProps(num, p, a) == HashedProps(num, q, b)
    ensures HashedText(num, p, a) == HashedText(num, q, b)
  {
    hide HashedProps;
  }

  lemma OneLineScore(max: real, normalized: real)
    requires (max == 5.0 && normalized == 1.0) || (max == 10.0 && normalized == 0.5)
    ensures Score(EvaluateAll(OneLine(max).signals, FiveOf())) == 100.0 * normalized
  {
    hide Score, EvaluateAll, Shown;
    assert FiveOf() == Solo("s", 5.0, 1);
    SoloScore(OneLine(max).signals, 0, 5.0, 1);
    LineShows(max, normalized);
  }

  lemma LineShows(max: real, normalized: real)
    requires (max == 5.0 && normalized == 1.0) || (max == 10.0 && normalized == 0.5)
    ensures Shown(Linear(0.0, max), 5.0) == normalized
  {
    hide Round;
    assert Normalize(Linear(0.0, max), 5.0) == normalized;
    RoundKeepsDecimals(normalized, E4);
  }
}
