/**
 * Agent memory, packages/agent-runtime/src/memory.ts: rows that expire, keyed by
 * agent, tier and key; the rolling baseline kept in one of them; and the prefix
 * search. Time is in seconds.
 */
module Memory {
  import opened Wrappers

  datatype Tier = Working | Episodic

  datatype Baseline = Baseline(mean: real, variance: real, count: nat)

  datatype Value = Json(text: string) | Numbers(baseline: Baseline)

  datatype Key = Key(agentId: string, tier: Tier, key: string)

  datatype Record = Record(value: Value, createdAt: real, updatedAt: real, expiresAt: Option<real>)

  const WORKING_TTL := 60 * 60 * 6
  const EPISODIC_TTL := 60 * 60 * 24 * 90

  function DefaultTtl(tier: Tier): int {
    if tier.Working? then WORKING_TTL else EPISODIC_TTL
  }

  // ---------------------------------------------------------- replaying the history

  datatype Sample = Sample(x: real, alpha: real)

  /** What `updateBaseline` makes of the stored baseline, or of none. */
  function Blend(prior: Option<Baseline>, s: Sample): Baseline {
    var p := if prior.Some? then prior.value else Baseline(s.x, 0.0, 0);
    var delta := s.x - p.mean;
    Baseline(p.mean + s.alpha * delta, (1.0 - s.alpha) * (p.variance + s.alpha * delta * delta), p.count + 1)
  }

  function Rolling(history: seq<Sample>): Option<Baseline> {
    if history == [] then None else Some(Blend(Rolling(history[..|history| - 1]), history[|history| - 1]))
  }

  /** The weight of the latest sample: the first one of a history gets all of it. */
  function Share(history: seq<Sample>): real
    requires history != []
  {
    if |history| == 1 then 1.0 else history[|history| - 1].alpha
  }

  /** A quadratic function of a sample: all that a mean and a variance are sums of. */
  datatype Quadratic = Quadratic(a: real, b: real, c: real)

  function At(q: Quadratic, x: real): real {
    q.a * (x * x) + q.b * x + q.c
  }

  const IDENTITY := Quadratic(0.0, 1.0, 0.0)
  const SQUARE := Quadratic(1.0, 0.0, 0.0)
  const ONE := Quadratic(0.0, 0.0, 1.0)

  /** The squared distance from `m`. */
  function Distance(m: real): (q: Quadratic)
    ensures forall x :: At(q, x) == (x - m) * (x - m)
  {
    Quadratic(1.0, -2.0 * m, m * m)
  }

  /** The weighted sum over the whole history: each new sample takes its share from all before it. */
  function Total(history: seq<Sample>, q: Quadratic): real {
    if history == [] then 0.0
    else
      var a := Share(history);
      (1.0 - a) * Total(history[..|history| - 1], q) + a * At(q, history[|history| - 1].x)
  }

  function Mean(history: seq<Sample>): real {
    Total(history, IDENTITY)
  }

  /** The mean squared distance from the mean. */
  function Variance(history: seq<Sample>): real {
    Total(history, Distance(Mean(history)))
  }

  lemma {:induction false} TotalIsLinear(history: seq<Sample>, q: Quadratic)
    ensures Total(history, q)
            == q.a * Total(history, SQUARE) + q.b * Total(history, IDENTITY) + q.c * Total(history, ONE)
  {
    if history != [] {
      var init, x := history[..|history| - 1], history[|history| - 1].x;
      TotalIsLinear(init, q);
      BlendIsLinear(q, Share(history), Total(init, SQUARE), Total(init, IDENTITY), Total(init, ONE), x);
    }
  }

  lemma BlendIsLinear(q: Quadratic, a: real, s2: real, s1: real, s0: real, x: real)
    ensures (1.0 - a) * (q.a * s2 + q.b * s1 + q.c * s0) + a * At(q, x)
         == q.a * ((1.0 - a) * s2 + a * At(SQUARE, x)) + q.b * ((1.0 - a) * s1 + a * At(IDENTITY, x))
            + q.c * ((1.0 - a) * s0 + a * At(ONE, x))
  {
  }

  /** The weights add up to one. */
  lemma {:induction false} WeightsAddUp(history: seq<Sample>)
    requires history != []
    ensures Total(history, ONE) == 1.0
  {
    if |history| > 1 {
      WeightsAddUp(history[..|history| - 1]);
    }
  }

  /** One update keeps the variance equal to the second moment less the squared mean. */
  lemma BlendMoments(a: real, m: real, s2: real, x: real)
    ensures (1.0 - a) * (s2 - m * m + a * (x - m) * (x - m))
         == ((1.0 - a) * s2 + a * (x * x)) - (m + a * (x - m)) * (m + a * (x - m))
  {
  }

  ghost predicate HasMoments(b: Baseline, history: seq<Sample>) {
    && b.mean == Total(history, IDENTITY)
    && b.variance == Total(history, SQUARE) - b.mean * b.mean
    && b.count == |history|
  }

  lemma BlendKeepsMoments(b: Baseline, init: seq<Sample>, s: Sample)
    requires init != [] && HasMoments(b, init)
    ensures HasMoments(Blend(Some(b), s), init + [s])
  {
    assert (init + [s])[..|init|] == init;
    BlendMoments(s.alpha, b.mean, Total(init, SQUARE), s.x);
    assert (1.0 - s.alpha) * b.mean + s.alpha * s.x == b.mean + s.alpha * (s.x - b.mean);
  }

  lemma FirstSampleHasMoments(s: Sample)
    ensures HasMoments(Blend(None, s), [s])
  {
    assert [s][..0] == [];
  }

  lemma {:induction false} RollingMoments(history: seq<Sample>)
    requires history != []
    ensures HasMoments(Rolling(history).value, history)
  {
    hide HasMoments, Blend;
    var init, last := history[..|history| - 1], history[|history| - 1];
    assert history == init + [last];
    if init == [] {
      assert Rolling(init) == None;
      FirstSampleHasMoments(last);
    } else {
      RollingMoments(init);
      BlendKeepsMoments(Rolling(init).value, init, last);
    }
  }

  /**
   * The stored baseline is the exponentially weighted mean and variance of the
   * whole history, sample by sample, for any smoothing factors.
   */
  lemma BaselineIsReplayedHistory(history: seq<Sample>)
    requires history != []
    ensures Rolling(history) == Some(Baseline(Mean(history), Variance(history), |history|))
    ensures Total(history, ONE) == 1.0
  {
    hide Blend;
    RollingMoments(history);
    WeightsAddUp(history);
    var m := Mean(history);
    TotalIsLinear(history, Distance(m));
    SpreadOfMean(m, Total(history, SQUARE));
    var b := Rolling(history).value;
    assert b.mean == m && b.variance == Variance(history);
    assert b == Baseline(b.mean, b.variance, b.count);
  }

  lemma SpreadOfMean(m: real, s2: real)
    ensures 1.0 * s2 + (-2.0 * m) * m + (m * m) * 1.0 == s2 - m * m
  {
  }

  ghost predicate Within(history: seq<Sample>, low: real, high: real) {
    forall i :: 0 <= i < |history| ==> low <= history[i].x <= high && 0.0 <= history[i].alpha <= 1.0
  }

  lemma ConvexBound(a: real, p: real, q: real, low: real)
    requires 0.0 <= a <= 1.0 && low <= p && low <= q
    ensures low <= (1.0 - a) * p + a * q
  {
    assert (1.0 - a) * (p - low) >= 0.0 && a * (q - low) >= 0.0;
    assert (1.0 - a) * p + a * q - low == (1.0 - a) * (p - low) + a * (q - low);
  }

  ghost predicate AtLeast(history: seq<Sample>, q: Quadratic, low: real) {
    forall i :: 0 <= i < |history| ==> low <= At(q, history[i].x) && 0.0 <= history[i].alpha <= 1.0
  }

  lemma {:induction false} TotalIsBounded(history: seq<Sample>, q: Quadratic, low: real)
    requires history != [] && AtLeast(history, q, low)
    ensures low <= Total(history, q)
  {
    hide At;
    if |history| > 1 {
      var init, last := history[..|history| - 1], history[|history| - 1];
      TotalIsBounded(init, q, low);
      ConvexBound(last.alpha, Total(init, q), At(q, last.x), low);
    }
  }

  /** The product of the distances to both ends, which no sample between them makes negative. */
  function Gap(low: real, high: real): (q: Quadratic)
    ensures forall x :: At(q, x) == (high - x) * (x - low)
  {
    Quadratic(-1.0, high + low, -(high * low))
  }

  lemma QuadraticBounds(history: seq<Sample>, low: real, high: real, m: real)
    requires Within(history, low, high)
    ensures AtLeast(history, IDENTITY, low) && AtLeast(history, Quadratic(0.0, -1.0, 0.0), -high)
    ensures AtLeast(history, Distance(m), 0.0) && AtLeast(history, Gap(low, high), 0.0)
  {
    forall i | 0 <= i < |history|
      ensures At(Distance(m), history[i].x) >= 0.0 && At(Gap(low, high), history[i].x) >= 0.0
    {
      SquaresAndGaps(history[i].x, m, low, high);
    }
  }

  lemma SquaresAndGaps(x: real, m: real, low: real, high: real)
    requires low <= x <= high
    ensures (x - m) * (x - m) >= 0.0 && (high - x) * (x - low) >= 0.0
  {
  }

  lemma GapOfMean(m: real, s2: real, low: real, high: real)
    ensures -1.0 * s2 + (high + low) * m + -(high * low) * 1.0 == (high - m) * (m - low) - (s2 - m * m)
  {
  }

  /** The mean lies among the samples, and the variance is at most what its place between their ends allows. */
  lemma BaselineIsBounded(history: seq<Sample>, low: real, high: real)
    requires history != [] && Within(history, low, high)
    ensures var b := Rolling(history).value;
            low <= b.mean <= high && 0.0 <= b.variance <= (high - b.mean) * (b.mean - low)
  {
    hide Total, Blend, AtLeast, Within, At;
    var m := Mean(history);
    BaselineIsReplayedHistory(history);
    RollingMoments(history);
    QuadraticBounds(history, low, high, m);
    TotalIsBounded(history, IDENTITY, low);
    TotalIsBounded(history, Quadratic(0.0, -1.0, 0.0), -high);
    TotalIsLinear(history, Quadratic(0.0, -1.0, 0.0));
    TotalIsBounded(history, Distance(m), 0.0);
    TotalIsBounded(history, Gap(low, high), 0.0);
    TotalIsLinear(history, Gap(low, high));
    GapOfMean(m, Total(history, SQUARE), low, high);
  }

  // ------------------------------------------------------------- the history that is stored

  datatype Update = Update(at: real, sample: Sample)

  datatype Stored = Stored(baseline: Baseline, expiresAt: real)

  /** The stored baseline after each update of one key: an expired one is not read back. */
  function StoredAfter(updates: seq<Update>): Option<Stored> {
    if updates == [] then None
    else
      var u := updates[|updates| - 1];
      Some(Stored(Blend(Live(StoredAfter(updates[..|updates| - 1]), u.at), u.sample), u.at + EPISODIC_TTL as real))
  }

  function Live(stored: Option<Stored>, now: real): Option<Baseline> {
    if stored.Some? && stored.value.expiresAt > now then Some(stored.value.baseline) else None
  }

  /** The updates since the last time that the key lay untouched for its whole time to live. */
  function SinceExpiry(updates: seq<Update>): seq<Sample> {
    if updates == [] then []
    else
      var n := |updates| - 1;
      if n > 0 && updates[n].at < updates[n - 1].at + EPISODIC_TTL as real
      then SinceExpiry(updates[..n]) + [updates[n].sample]
      else [updates[n].sample]
  }

  lemma {:induction false} StoredIsRolling(updates: seq<Update>)
    requires updates != []
    ensures SinceExpiry(updates) != []
    ensures StoredAfter(updates) ==
              Some(Stored(Rolling(SinceExpiry(updates)).value, updates[|updates| - 1].at + EPISODIC_TTL as real))
  {
    hide Blend;
    var n := |updates| - 1;
    var history := SinceExpiry(updates);
    if n > 0 {
      StoredIsRolling(updates[..n]);
      assert updates[..n][n - 1] == updates[n - 1];
    }
    assert history[..|history| - 1]
           == if n > 0 && updates[n].at < updates[n - 1].at + EPISODIC_TTL as real then SinceExpiry(updates[..n])
              else [];
  }

  /** What is stored summarises exactly the samples since the baseline last expired. */
  lemma StoredBaselineIsReplayed(updates: seq<Update>)
    requires updates != []
    ensures var history := SinceExpiry(updates);
            StoredAfter(updates).value.baseline == Baseline(Mean(history), Variance(history), |history|)
  {
    StoredIsRolling(updates);
    BaselineIsReplayedHistory(SinceExpiry(updates));
  }

  // -------------------------------------------------------------------- prefix search

  /** LIKE refuses a pattern that ends in a lone escape character (PostgreSQL manual, section 9.7.1). */
  predicate IsPattern(p: string) {
    if p == "" then true
    else if p[0] == '\\' then |p| > 1 && IsPattern(p[2..])
    else IsPattern(p[1..])
  }

  /**
   * The whole of `s` matches: `_` is any character, `%` any characters, and a backslash
   * takes the next one literally.
   */
  predicate Like(s: string, p: string)
    requires IsPattern(p)
    decreases |p| + |s|
  {
    if p == "" then s == ""
    else if p[0] == '\\' then s != "" && s[0] == p[1] && Like(s[1..], p[2..])
    else if p[0] == '%' then Like(s, p[1..]) || (s != "" && Like(s[1..], p))
    else if p[0] == '_' then s != "" && Like(s[1..], p[1..])
    else s != "" && s[0] == p[0] && Like(s[1..], p[1..])
  }

  predicate IsSpecial(c: char) {
    c == '\\' || c == '%' || c == '_'
  }

  function EscapeLike(s: string): string {
    if s == "" then ""
    else if IsSpecial(s[0]) then ['\\', s[0]] + EscapeLike(s[1..])
    else [s[0]] + EscapeLike(s[1..])
  }

  lemma {:induction false} AnythingMatchesPercent(s: string)
    ensures IsPattern("%") && Like(s, "%")
  {
    assert "%"[1..] == "";
    if s != "" {
      AnythingMatchesPercent(s[1..]);
    }
  }

  /** The search pattern is legal, and matches exactly the keys that start with the prefix. */
  lemma {:induction false} PrefixSearchIsExact(prefix: string, key: string)
    ensures IsPattern(EscapeLike(prefix) + "%")
    ensures Like(key, EscapeLike(prefix) + "%") <==> prefix <= key
  {
    var p := EscapeLike(prefix) + "%";
    if prefix == "" {
      assert p == "%";
      AnythingMatchesPercent(key);
    } else {
      var rest := EscapeLike(prefix[1..]) + "%";
      assert p == (if IsSpecial(prefix[0]) then ['\\', prefix[0]] else [prefix[0]]) + rest;
      assert p[if IsSpecial(prefix[0]) then 2 else 1..] == rest;
      if key == "" {
        PrefixSearchIsExact(prefix[1..], key);
      } else {
        PrefixSearchIsExact(prefix[1..], key[1..]);
        assert prefix <= key <==> prefix[0] == key[0] && prefix[1..] <= key[1..] by {
          FirstAndRest(prefix, key);
        }
      }
    }
  }

  lemma FirstAndRest(s: string, t: string)
    requires s != "" && t != ""
    ensures s <= t <==> s[0] == t[0] && s[1..] <= t[1..]
  {
    if s[0] == t[0] && s[1..] <= t[1..] {
      assert s == [s[0]] + s[1..] && t == [t[0]] + t[1..];
      forall i | 0 <= i < |s|
        ensures s[i] == t[i]
      {
        if i > 0 {
          assert s[i] == s[1..][i - 1] && t[i] == t[1..][i - 1];
        }
      }
    }
  }

  // ------------------------------------------------------------------------- the table

  predicate IsLive(r: Record, now: real) {
    r.expiresAt.None? || r.expiresAt.value > now
  }

  function Expiry(ttl: int, now: real): Option<real> {
    if ttl > 0 then Some(now + ttl as real) else None
  }

  // ----------------------------------------------------------- what is put can be got

  function GetIn(rows: map<Key, Record>, now: real, k: Key): Option<Value> {
    if k in rows && IsLive(rows[k], now) then Some(rows[k].value) else None
  }

  /** The upsert: an existing row keeps the time at which it was created. */
  function PutIn(rows: map<Key, Record>, now: real, k: Key, value: Value, ttl: int): map<Key, Record> {
    rows[k := Record(value, if k in rows then rows[k].createdAt else now, now, Expiry(ttl, now))]
  }

  /** What is put can be got, and is listed, until its time to live has passed, and for ever if that is not positive. */
  lemma PutThenGet(rows: map<Key, Record>, now: real, k: Key, value: Value, ttl: int, later: real)
    ensures var after, lives := PutIn(rows, now, k, value, ttl), ttl <= 0 || later < now + ttl as real;
            && GetIn(after, later, k) == (if lives then Some(value) else None)
            && (forall prefix ::
                  k.key in Matches(after, later, k.agentId, k.tier, prefix) <==> prefix <= k.key && lives)
            && k in after && after[k].updatedAt == now
            && after[k].createdAt == (if k in rows then rows[k].createdAt else now)
            && (forall j :: j != k ==> GetIn(after, later, j) == GetIn(rows, later, j))
  {
    var after := PutIn(rows, now, k, value, ttl);
    forall prefix
      ensures k.key in Matches(after, later, k.agentId, k.tier, prefix) <==> prefix <= k.key && IsLive(after[k], later)
    {
      ListedIsLive(after, later, k, prefix);
    }
  }

  lemma ListedIsLive(rows: map<Key, Record>, now: real, k: Key, prefix: string)
    requires k in rows
    ensures k.key in Matches(rows, now, k.agentId, k.tier, prefix) <==> prefix <= k.key && IsLive(rows[k], now)
  {
    assert k == Key(k.agentId, k.tier, k.key);
  }

  /** A list shows a key exactly when getting it shows a value. */
  lemma ListedCanBeGot(rows: map<Key, Record>, now: real, k: Key)
    ensures k.key in Matches(rows, now, k.agentId, k.tier, "") <==> GetIn(rows, now, k).Some?
  {
    if k in rows { ListedIsLive(rows, now, k, ""); }
  }

  /** Scratch state is kept for six hours by default, what an agent learned for ninety days. */
  lemma DefaultsInSeconds()
    ensures DefaultTtl(Working) == 21600 && DefaultTtl(Episodic) == 7776000
  {
  }

  /** One update of a baseline: what can be got of it is blended with the sample and put back. */
  function UpdateIn(rows: map<Key, Record>, k: Key, u: Update): map<Key, Record>
    requires k in rows ==> rows[k].value.Numbers?
  {
    var found := GetIn(rows, u.at, k);
    var prior := if found.Some? then Some(found.value.baseline) else None;
    PutIn(rows, u.at, k, Numbers(Blend(prior, u.sample)), DefaultTtl(Episodic))
  }

  function UpdateAllIn(rows: map<Key, Record>, k: Key, updates: seq<Update>): (after: map<Key, Record>)
    requires k in rows ==> rows[k].value.Numbers?
    ensures k in after ==> after[k].value.Numbers?
  {
    if updates == [] then rows
    else UpdateIn(UpdateAllIn(rows, k, updates[..|updates| - 1]), k, updates[|updates| - 1])
  }

  /**
   * After any updates of a baseline that could not be got before, its row holds what
   * `StoredAfter` says, and the other rows are untouched.
   */
  lemma {:induction false} UpdatesAreStored(rows: map<Key, Record>, k: Key, updates: seq<Update>)
    requires (k in rows ==> rows[k].value.Numbers?) && updates != [] && GetIn(rows, updates[0].at, k) == None
    ensures var after, stored := UpdateAllIn(rows, k, updates), StoredAfter(updates).value;
            && k in after && after[k].value == Numbers(stored.baseline) && after[k].expiresAt == Some(stored.expiresAt)
            && forall j :: j != k ==> (j in after <==> j in rows) && (j in rows ==> after[j] == rows[j])
  {
    hide Blend;
    var n := |updates| - 1;
    if n > 0 {
      UpdatesAreStored(rows, k, updates[..n]);
    } else {
      assert updates[..n] == [];
    }
  }

  /** So what can be got of it at any time summarises exactly the samples since it last expired. */
  lemma UpdatedBaselineIsReplayed(rows: map<Key, Record>, k: Key, updates: seq<Update>, later: real)
    requires (k in rows ==> rows[k].value.Numbers?) && updates != [] && GetIn(rows, updates[0].at, k) == None
    ensures var history, last := SinceExpiry(updates), updates[|updates| - 1].at;
            GetIn(UpdateAllIn(rows, k, updates), later, k)
            == if later < last + 7776000.0 then Some(Numbers(Baseline(Mean(history), Variance(history), |history|)))
               else None
  {
    hide UpdateAllIn, SinceExpiry, Blend, Mean, Variance;
    UpdatesAreStored(rows, k, updates);
    StoredBaselineIsReplayed(updates);
  }

  datatype Listed = Listed(key: string, record: Record)

  /** The database's order of keys, whatever its collation: any two different keys come one before the other. */
  ghost predicate IsOrder(before: (string, string) -> bool) {
    && (forall a, b :: a != b ==> before(a, b) || before(b, a))
    && (forall a :: !before(a, a))
    && (forall a, b, c :: before(a, b) && before(b, c) ==> before(a, c))
  }

  function Matches(rows: map<Key, Record>, now: real, agentId: string, tier: Tier, prefix: string): set<string> {
    set k | k in rows && k.agentId == agentId && k.tier == tier && prefix <= k.key && IsLive(rows[k], now) :: k.key
  }

  predicate IsLeast(key: string, keys: set<string>, before: (string, string) -> bool) {
    forall other :: other in keys && other != key ==> before(key, other)
  }

  lemma {:induction false} LeastExists(keys: set<string>, before: (string, string) -> bool) returns (key: string)
    requires IsOrder(before) && keys != {}
    ensures key in keys && IsLeast(key, keys, before)
  {
    key :| key in keys;
    var rest := keys - {key};
    if rest != {} {
      var other := LeastExists(rest, before);
      if before(other, key) {
        key := other;
      } else {
        assert before(key, other);
      }
    }
  }

  /** The rows found so far, in order, and all of them before the rest. */
  ghost predicate IsFirstPart(found: seq<Listed>, matches: set<string>, rest: set<string>,
                              before: (string, string) -> bool) {
    && (forall i :: 0 <= i < |found| ==> found[i].key in matches && found[i].key !in rest)
    && (forall i, j :: 0 <= i < j < |found| ==> before(found[i].key, found[j].key))
    && (forall i, key :: 0 <= i < |found| && key in rest ==> before(found[i].key, key))
    && (forall key :: key in matches ==> key in rest || exists i :: 0 <= i < |found| && found[i].key == key)
  }

  lemma MatchIsRow(rows: map<Key, Record>, now: real, agentId: string, tier: Tier, prefix: string, key: string)
    requires key in Matches(rows, now, agentId, tier, prefix)
    ensures Key(agentId, tier, key) in rows
  {
  }

  lemma OneMoreFound(found: seq<Listed>, matches: set<string>, rest: set<string>, before: (string, string) -> bool,
                     row: Listed)
    requires rest <= matches && IsFirstPart(found, matches, rest, before) && row.key in rest
             && IsLeast(row.key, rest, before)
    ensures IsFirstPart(found + [row], matches, rest - {row.key}, before)
  {
    var longer := found + [row];
    forall key | key in matches && key !in rest - {row.key}
      ensures exists i :: 0 <= i < |longer| && longer[i].key == key
    {
      if key == row.key {
        assert longer[|found|].key == key;
      } else {
        var i :| 0 <= i < |found| && found[i].key == key;
        assert longer[i].key == key;
      }
    }
  }

  /**
   * As many of the matches as the limit allows, in order and without gaps: what is not found
   * comes after all that is.
   */
  ghost predicate IsFirstOf(found: seq<Listed>, matches: set<string>, limit: nat, before: (string, string) -> bool) {
    && |found| == (if |matches| <= limit then |matches| else limit)
    && exists rest :: rest <= matches && IsFirstPart(found, matches, rest, before)
  }

  /** The rows of all agents, and the clock. */
  class MemoryTable {
    var rows: map<Key, Record>
    var now: real
  }

  class AgentMemory {
    const agentId: string
    const db: MemoryTable

    constructor (agentId: string, db: MemoryTable)
      ensures this.agentId == agentId && this.db == db
    {
      this.agentId, this.db := agentId, db;
    }

    method Get(tier: Tier, key: string) returns (value: Option<Value>)
      ensures value == GetIn(db.rows, db.now, Key(agentId, tier, key))
    {
      var k := Key(agentId, tier, key);
      if k in db.rows && IsLive(db.rows[k], db.now) {
        return Some(db.rows[k].value);
      }
      return None;
    }

    method Put(tier: Tier, key: string, value: Value, ttlSeconds: Option<int>)
      modifies db
      ensures db.now == old(db.now)
      ensures db.rows == PutIn(old(db.rows), db.now, Key(agentId, tier, key), value,
                               if ttlSeconds.Some? then ttlSeconds.value else DefaultTtl(tier))
    {
      var k := Key(agentId, tier, key);
      var ttl := if ttlSeconds.Some? then ttlSeconds.value else DefaultTtl(tier);
      var expiresAt := if ttl > 0 then Some(db.now + ttl as real) else None;
      if k in db.rows {
        db.rows := db.rows[k := db.rows[k].(value := value, updatedAt := db.now, expiresAt := expiresAt)];
      } else {
        db.rows := db.rows[k := Record(value, db.now, db.now, expiresAt)];
      }
    }

    method Delete(tier: Tier, key: string)
      modifies db
      ensures db.now == old(db.now) && db.rows == old(db.rows) - {Key(agentId, tier, key)}
    {
      db.rows := db.rows - {Key(agentId, tier, key)};
    }

    /**
     * The live rows of this agent and tier whose keys start with the prefix: the first ones in
     * the order of the keys.
     */
    method List(tier: Tier, prefix: string, limit: nat, before: (string, string) -> bool) returns (found: seq<Listed>)
      requires IsOrder(before)
      ensures IsFirstOf(found, Matches(db.rows, db.now, agentId, tier, prefix), limit, before)
      ensures forall i :: 0 <= i < |found| ==>
                && Key(agentId, tier, found[i].key) in db.rows
                && found[i].record == db.rows[Key(agentId, tier, found[i].key)]
    {
      var matches := Search(tier, prefix);
      var rest := matches;
      found := [];
      while rest != {} && |found| < limit
        invariant rest <= matches && |found| + |rest| == |matches| && |found| <= limit
        invariant IsFirstPart(found, matches, rest, before)
        invariant forall i :: 0 <= i < |found| ==>
                    && Key(agentId, tier, found[i].key) in db.rows
                    && found[i].record == db.rows[Key(agentId, tier, found[i].key)]
        decreases |rest|
      {
        hide IsFirstPart, IsOrder, IsLeast, Matches;
        ghost var least := LeastExists(rest, before);
        var key :| key in rest && IsLeast(key, rest, before);
        MatchIsRow(db.rows, db.now, agentId, tier, prefix, key);
        var row := Listed(key, db.rows[Key(agentId, tier, key)]);
        OneMoreFound(found, matches, rest, before, row);
        found, rest := found + [row], rest - {key};
      }
    }

    method Search(tier: Tier, prefix: string) returns (matches: set<string>)
      ensures matches == Matches(db.rows, db.now, agentId, tier, prefix)
    {
      var pattern := EscapeLike(prefix) + "%";
      PrefixSearchIsExact(prefix, "");
      forall key
        ensures Like(key, pattern) <==> prefix <= key
      {
        PrefixSearchIsExact(prefix, key);
      }
      matches :=
        set k | && k in db.rows && k.agentId == agentId && k.tier == tier
                && Like(k.key, pattern) && IsLive(db.rows[k], db.now) :: k.key;
    }

    /** The one row of the key becomes the blend of its live baseline and the sample, for another ninety days. */
    method UpdateBaseline(key: string, sample: real, alpha: real) returns (next: Baseline)
      requires var k := Key(agentId, Episodic, "baseline:" + key); k in db.rows ==> db.rows[k].value.Numbers?
      modifies db
      ensures db.now == old(db.now)
      ensures var k := Key(agentId, Episodic, "baseline:" + key);
              && db.rows == UpdateIn(old(db.rows), k, Update(db.now, Sample(sample, alpha)))
              && db.rows[k].value == Numbers(next)
    {
      var found := Get(Episodic, "baseline:" + key);
      var prior := Baseline(sample, 0.0, 0);
      if found.Some? {
        prior := found.value.baseline;
      }
      var delta := sample - prior.mean;
      var mean := prior.mean + alpha * delta;
      var variance := (1.0 - alpha) * (prior.variance + alpha * delta * delta);
      next := Baseline(mean, variance, prior.count + 1);
      assert next == Blend(if found.Some? then Some(found.value.baseline) else None, Sample(sample, alpha));
      hide Blend;
      Put(Episodic, "baseline:" + key, Numbers(next), None);
    }
  }
}
