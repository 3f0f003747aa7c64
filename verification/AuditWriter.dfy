/**
 * `AuditWriter` (services/orchestrator/src/db.ts): appends from any number of
 * concurrent transactions, each statement a step of its own.
 */
module AuditWriter {
  import opened Wrappers
  import opened Values
  import opened JsonText
  import opened Canonical
  import opened AuditChain

  // ---------------------------------------------------------------------- stored rows

  /** All columns but the detail, which is stored as JSON. */
  datatype Row = Row(columns: Entry, detail: Json)

  function WithDetail(e: Entry, detail: seq<Property>): Entry {
    e.(input := e.input.(detail := detail))
  }

  function ToRow(e: Entry): Row {
    Row(WithDetail(e, []), JObject(StringifiedMembers(e.input.detail)))
  }

  /** How a row is read: the detail comes back as some object with that content, its keys in any order. */
  ghost predicate ReadsBackAs(row: Row, e: Entry) {
    && e == WithDetail(row.columns, e.input.detail)
    && WellFormed(Object(e.input.detail))
    && Normalize(Object(e.input.detail)) == row.detail
  }

  ghost predicate LogReadsBackAs(rows: seq<Row>, entries: seq<Entry>) {
    |rows| == |entries| && forall i :: 0 <= i < |rows| ==> ReadsBackAs(rows[i], entries[i])
  }

  /** A row that is read back has every column of the entry that was stored. */
  lemma ColumnsSurvive(e: Entry, back: Entry)
    requires ReadsBackAs(ToRow(e), back)
    ensures back.sequence == e.sequence && back.recordedAt == e.recordedAt
    ensures back.prevHash == e.prevHash && back.entryHash == e.entryHash
    ensures back.input.actor == e.input.actor && back.input.actorType == e.input.actorType
    ensures back.input.action == e.input.action && back.input.outcome == e.input.outcome
    ensures back.input.resourceType == e.input.resourceType && back.input.resourceId == e.input.resourceId
    ensures back.input.ipAddress == e.input.ipAddress && back.input.userAgent == e.input.userAgent
    ensures back.input.traceId == e.input.traceId
  {
  }

  lemma ReadBackFields(e: Entry, back: Entry)
    requires DetailOk(e) && ReadsBackAs(ToRow(e), back)
    ensures back == WithDetail(e, back.input.detail) && DetailOk(back)
    ensures SameHashedFields(e, back) <==> IsPlain(Object(e.input.detail))
  {
    StoredAsHashed(Object(e.input.detail));
  }

  /** An entry read back hashes to its stored hash exactly when its detail was plain. */
  lemma ReadBackHash(h: Hash, e: Entry, back: Entry)
    requires CollisionFree(h) && DetailOk(e) && ReadsBackAs(ToRow(e), back)
    ensures ComputeEntryHash(h, back) == ComputeEntryHash(h, e) <==> IsPlain(Object(e.input.detail))
  {
    ReadBackFields(e, back);
    HashedTextDecidesFields(e, back);
  }

  /**
   * After the round trip through the database `verifyChain` accepts the whole
   * log exactly when every detail that was appended is plain.
   */
  lemma ReloadedLogVerifies(h: Hash, sealed_: seq<Entry>, back: seq<Entry>)
    requires CollisionFree(h) && ChainOk(h, sealed_) && DetailsOk(sealed_)
    requires LogReadsBackAs(seq(|sealed_|, i requires 0 <= i < |sealed_| => ToRow(sealed_[i])), back)
    ensures ChainOk(h, back) <==> forall e :: e in sealed_ ==> IsPlain(Object(e.input.detail))
  {
    hide ComputeEntryHash, IsPlain;
    var rows := seq(|sealed_|, i requires 0 <= i < |sealed_| => ToRow(sealed_[i]));
    forall i | 0 <= i < |back| ensures back[i] == WithDetail(sealed_[i], back[i].input.detail)
                                       && (ComputeEntryHash(h, back[i]) == ComputeEntryHash(h, sealed_[i])
                                           <==> IsPlain(Object(sealed_[i].input.detail))) {
      assert ReadsBackAs(rows[i], back[i]) && sealed_[i] in sealed_;
      ReadBackFields(sealed_[i], back[i]);
      ReadBackHash(h, sealed_[i], back[i]);
    }
    forall i | 0 <= i < |back| ensures LinkOk(h, back, i) <==> IsPlain(Object(sealed_[i].input.detail)) {
      assert LinkOk(h, sealed_, i);
      if i > 0 { assert back[i - 1] == WithDetail(sealed_[i - 1], back[i - 1].input.detail); }
    }
    if ChainOk(h, back) {
      forall e | e in sealed_ ensures IsPlain(Object(e.input.detail)) {
        var i :| 0 <= i < |sealed_| && sealed_[i] == e;
        assert LinkOk(h, back, i);
      }
    }
  }

  /** A log of one entry, whose detail holds nothing but a date. */
  function DatedLog(h: Hash, input: Input, iso: string, now: string): seq<Entry> {
    [SealEntry(h, input.(detail := [Property("at", Date(iso))]), 0, GENESIS_HASH, now)]
  }

  /** Such a log is a valid chain, and is rejected when it is read back with the text that the date was stored as. */
  lemma DatedLogIsRejected(h: Hash, input: Input, iso: string, now: string)
    requires CollisionFree(h)
    ensures var log := DatedLog(h, input, iso, now);
            var back := [WithDetail(log[0], [Property("at", Text(iso))])];
            ChainOk(h, log) && DetailsOk(log) && LogReadsBackAs([ToRow(log[0])], back) && !ChainOk(h, back)
  {
    hide CollisionFree, ComputeEntryHash;
    var log := DatedLog(h, input, iso, now);
    var e := log[0];
    var back := WithDetail(e, [Property("at", Text(iso))]);
    HashIgnoresStoredHash(h, e.input, 0, GENESIS_HASH, now);
    OneProperty("at", Date(iso));
    OneProperty("at", Text(iso));
    assert e.input.detail[0] in e.input.detail;
    assert ReadsBackAs(ToRow(e), back);
    ReadBackHash(h, e, back);
    assert !LinkOk(h, [back], 0);
  }

  lemma OneProperty(key: string, v: Value)
    requires WellFormed(v) && v != Undefined
    ensures WellFormed(Object([Property(key, v)]))
    ensures Normalize(Object([Property(key, v)])) == JObject(map[key := Normalize(v)])
    ensures Stringified(v).Some? ==> StringifiedMembers([Property(key, v)]) == map[key := Stringified(v).value]
  {
    var props := [Property(key, v)];
    assert props[1..] == [];
    assert NormalMembers(props) == map[key := Normalize(v)];
  }

  // ------------------------------------------------------------- interleaved transactions

  type Pid = nat

  datatype Phase = Waiting | Locked | HeadRead(head: Option<Row>) | Inserted(entry: Entry)

  datatype Session = Session(input: Input, phase: Phase)

  /** The committed table, keyed by sequence; the advisory lock; the open transactions. */
  datatype State = State(table: map<int, Row>, holder: Option<Pid>, sessions: map<Pid, Session>)

  datatype Event =
    | Begin(p: Pid, input: Input)
    | TakeLock(p: Pid)
    | ReadHead(p: Pid)
    | Insert(p: Pid, now: string)
    | Commit(p: Pid)
    | Rollback(p: Pid)

  ghost predicate IsHead(table: map<int, Row>, head: Option<Row>) {
    match head
    case None => table == map[]
    case Some(row) => exists k :: k in table && table[k] == row && forall j :: j in table ==> j <= k
  }

  /** The next entry: the successor of the head, or the first of a log, numbered 0 and linked to GENESIS. */
  function EntryAfter(h: Hash, head: Option<Row>, input: Input, now: string): Entry {
    match head
    case None => SealEntry(h, input, 0, GENESIS_HASH, now)
    case Some(row) => SealEntry(h, input, row.columns.sequence + 1, row.columns.entryHash, now)
  }

  /** What one statement does. The lock is held until the transaction ends either way. */
  ghost predicate Step(h: Hash, s: State, ev: Event, s': State) {
    match ev
    case Begin(p, input) =>
      p !in s.sessions && s' == s.(sessions := s.sessions[p := Session(input, Waiting)])
    case TakeLock(p) =>
      && p in s.sessions && s.sessions[p].phase == Waiting && s.holder == None
      && s' == s.(holder := Some(p), sessions := s.sessions[p := s.sessions[p].(phase := Locked)])
    case ReadHead(p) =>
      && p in s.sessions && s.sessions[p].phase == Locked
      && exists head :: IsHead(s.table, head)
                        && s' == s.(sessions := s.sessions[p := s.sessions[p].(phase := HeadRead(head))])
    case Insert(p, now) =>
      && p in s.sessions && s.sessions[p].phase.HeadRead?
      && var entry := EntryAfter(h, s.sessions[p].phase.head, s.sessions[p].input, now);
         s' == s.(sessions := s.sessions[p := s.sessions[p].(phase := Inserted(entry))])
    case Commit(p) =>
      && p in s.sessions && s.sessions[p].phase.Inserted?
      && var entry := s.sessions[p].phase.entry;
         && entry.sequence !in s.table
         && s' == State(s.table[entry.sequence := ToRow(entry)], None, s.sessions - {p})
    case Rollback(p) =>
      p in s.sessions && s' == State(s.table, if s.holder == Some(p) then None else s.holder, s.sessions - {p})
  }

  /** The entry an event commits, if it is a commit. */
  function Committed(s: State, ev: Event): seq<Entry> {
    if ev.Commit? && ev.p in s.sessions && s.sessions[ev.p].phase.Inserted?
    then [s.sessions[ev.p].phase.entry] else []
  }

  ghost predicate IsRun(h: Hash, states: seq<State>, events: seq<Event>) {
    && |states| == |events| + 1
    && states[0] == State(map[], None, map[])
    && forall i :: 0 <= i < |events| ==> Step(h, states[i], events[i], states[i + 1])
  }

  function CommittedBy(states: seq<State>, events: seq<Event>, n: nat): seq<Entry>
    requires n <= |events| < |states|
  {
    if n == 0 then [] else CommittedBy(states, events, n - 1) + Committed(states[n - 1], events[n - 1])
  }

  /** The table holds the committed entries, numbered from 0 without gaps. */
  ghost predicate TableHolds(table: map<int, Row>, log: seq<Entry>) {
    && (forall k :: k in table <==> 0 <= k < |log|)
    && (forall k :: 0 <= k < |log| ==> table[k] == ToRow(log[k]) && log[k].sequence == k)
  }

  ghost predicate Inv(h: Hash, s: State, log: seq<Entry>) {
    && TableHolds(s.table, log)
    && ChainOk(h, log)
    && (forall p :: p in s.sessions && s.sessions[p].phase != Waiting ==> s.holder == Some(p))
    && (forall p :: p in s.sessions && s.sessions[p].phase.HeadRead? ==> IsHead(s.table, s.sessions[p].phase.head))
    && (forall p :: p in s.sessions && s.sessions[p].phase.Inserted? ==>
          ContinuesChain(h, log, s.sessions[p].phase.entry))
  }

  ghost predicate ContinuesChain(h: Hash, log: seq<Entry>, e: Entry) {
    && e.sequence == |log|
    && e.prevHash == (if log == [] then GENESIS_HASH else log[|log| - 1].entryHash)
    && e.entryHash == ComputeEntryHash(h, e)
  }

  lemma HeadIsLast(table: map<int, Row>, log: seq<Entry>, head: Option<Row>)
    requires TableHolds(table, log) && IsHead(table, head)
    ensures head == if log == [] then None else Some(ToRow(log[|log| - 1]))
  {
    if log != [] {
      assert |log| - 1 in table;
    }
  }

  lemma InsertContinues(h: Hash, table: map<int, Row>, log: seq<Entry>, head: Option<Row>, input: Input, now: string)
    requires TableHolds(table, log) && IsHead(table, head)
    ensures ContinuesChain(h, log, EntryAfter(h, head, input, now))
  {
    hide ComputeEntryHash, IsHead;
    HeadIsLast(table, log, head);
    match head
    case None => HashIgnoresStoredHash(h, input, 0, GENESIS_HASH, now);
    case Some(row) => HashIgnoresStoredHash(h, input, row.columns.sequence + 1, row.columns.entryHash, now);
  }

  lemma AppendKeepsChain(h: Hash, log: seq<Entry>, e: Entry)
    requires ChainOk(h, log) && ContinuesChain(h, log, e)
    requires forall k :: 0 <= k < |log| ==> log[k].sequence == k
    ensures ChainOk(h, log + [e])
  {
    hide ComputeEntryHash;
    forall i | 0 <= i < |log + [e]| ensures LinkOk(h, log + [e], i) {
      if i < |log| { assert LinkOk(h, log, i); }
    }
  }

  /** Every statement of every transaction keeps the log a chain. */
  lemma StepKeepsInv(h: Hash, s: State, ev: Event, s': State, log: seq<Entry>)
    requires Inv(h, s, log) && Step(h, s, ev, s')
    ensures Inv(h, s', log + Committed(s, ev))
  {
    hide ChainOk, ContinuesChain, IsHead, TableHolds, EntryAfter;
    assert log + [] == log;
    match ev
    case Insert(p, now) =>
      InsertContinues(h, s.table, log, s.sessions[p].phase.head, s.sessions[p].input, now);
    case Commit(p) =>
      CommitKeepsInv(h, s, p, s', log);
    case _ =>
  }

  lemma CommitKeepsInv(h: Hash, s: State, p: Pid, s': State, log: seq<Entry>)
    requires Inv(h, s, log) && Step(h, s, Commit(p), s')
    ensures Inv(h, s', log + Committed(s, Commit(p)))
  {
    hide ChainOk, IsHead, ComputeEntryHash, ToRow;
    var e := s.sessions[p].phase.entry;
    AppendKeepsChain(h, log, e);
    assert forall q :: q in s'.sessions ==> q in s.sessions && q != p;
  }

  /**
   * Whatever the interleaving of appends: the table is numbered from 0 without
   * a gap, holds what was committed in that order, and each entry names its
   * predecessor.
   */
  lemma {:induction false} EveryRunKeepsChain(h: Hash, states: seq<State>, events: seq<Event>, n: nat)
    requires IsRun(h, states, events) && n <= |events|
    ensures Inv(h, states[n], CommittedBy(states, events, n))
  {
    if n == 0 {
      assert ChainOk(h, []);
    } else {
      EveryRunKeepsChain(h, states, events, n - 1);
      assert Step(h, states[n - 1], events[n - 1], states[n - 1 + 1]);
      StepKeepsInv(h, states[n - 1], events[n - 1], states[n], CommittedBy(states, events, n - 1));
    }
  }

  /** The first rows in order of sequence. */
  ghost predicate IsRange(table: map<int, Row>, rows: seq<Row>) {
    forall k :: 0 <= k < |rows| ==> k in table && table[k] == rows[k]
  }

  lemma RangeIsWithin(table: map<int, Row>, log: seq<Entry>, rows: seq<Row>)
    requires TableHolds(table, log) && IsRange(table, rows)
    ensures |rows| <= |log|
  {
    assert |rows| > 0 ==> |rows| - 1 in table;
  }

  /**
   * Reading back any first part of the log, at any point of any run, gives a
   * chain that `verifyChain` accepts exactly when the details in it are plain.
   */
  lemma EveryRangeVerifies(h: Hash, states: seq<State>, events: seq<Event>, n: nat, rows: seq<Row>, back: seq<Entry>)
    requires CollisionFree(h) && IsRun(h, states, events) && n <= |events|
    requires IsRange(states[n].table, rows) && LogReadsBackAs(rows, back)
    requires DetailsOk(CommittedBy(states, events, n))
    ensures |rows| <= |CommittedBy(states, events, n)|
    ensures ChainOk(h, back) <==>
            forall e :: e in CommittedBy(states, events, n)[..|rows|] ==> IsPlain(Object(e.input.detail))
  {
    hide CommittedBy, ChainOk, IsPlain, ReadsBackAs, ToRow, DetailOk;
    var log := CommittedBy(states, events, n);
    EveryRunKeepsChain(h, states, events, n);
    RangeIsWithin(states[n].table, log, rows);
    var part := log[..|rows|];
    ChainPrefix(h, log, |rows|);
    var stored := seq(|part|, i requires 0 <= i < |part| => ToRow(part[i]));
    assert stored == rows;
    ReloadedLogVerifies(h, part, back);
  }

  // ----------------------------------------------------------------- the statements as code

  lemma NoMembersMeansEmpty(keys: set<int>)
    ensures (forall k :: k !in keys) ==> keys == {}
  {
    if forall k :: k !in keys { assert keys == {}; }
  }

  lemma {:induction false} LargestExists(keys: set<int>) returns (top: int)
    requires |keys| > 0
    ensures top in keys && forall j :: j in keys ==> j <= top
  {
    NoMembersMeansEmpty(keys);
    var k :| k in keys;
    var rest := keys - {k};
    assert forall j :: j in keys <==> j == k || j in rest;
    if |rest| == 0 {
      assert rest == {};
      top := k;
    } else {
      var m := LargestExists(rest);
      top := if k > m then k else m;
    }
  }

  /** The database seen by the writers; each method is one statement. */
  class AuditDatabase {
    const hash: Hash
    var table: map<int, Row>
    var holder: Option<Pid>
    var sessions: map<Pid, Session>

    ghost function View(): State
      reads this
    {
      State(table, holder, sessions)
    }

    constructor (h: Hash)
      ensures hash == h && View() == State(map[], None, map[])
    {
      hash := h;
      table, holder, sessions := map[], None, map[];
    }

    method BeginTransaction(p: Pid, input: Input)
      requires p !in sessions
      modifies this`sessions
      ensures Step(hash, old(View()), Begin(p, input), View())
    {
      sessions := sessions[p := Session(input, Waiting)];
    }

    /** The advisory lock is granted once no other transaction holds it. */
    method AcquireLock(p: Pid) returns (granted: bool)
      requires p in sessions && sessions[p].phase == Waiting
      modifies this`sessions, this`holder
      ensures granted <==> old(holder) == None
      ensures if granted then Step(hash, old(View()), TakeLock(p), View()) else View() == old(View())
    {
      granted := holder == None;
      if granted {
        holder := Some(p);
        sessions := sessions[p := sessions[p].(phase := Locked)];
      }
    }

    /** The committed row with the largest sequence, if there is one. */
    method SelectHead(p: Pid) returns (head: Option<Row>)
      requires p in sessions && sessions[p].phase == Locked
      modifies this`sessions
      ensures IsHead(table, head)
      ensures Step(hash, old(View()), ReadHead(p), View())
      ensures p in sessions && sessions[p].phase == HeadRead(head)
    {
      if table == map[] {
        head := None;
      } else {
        assert table.Keys != {};
        ghost var top := LargestExists(table.Keys);
        var k :| k in table.Keys && forall j :: j in table.Keys ==> j <= k;
        head := Some(table[k]);
      }
      sessions := sessions[p := sessions[p].(phase := HeadRead(head))];
    }

    method InsertEntry(p: Pid, now: string) returns (entry: Entry)
      requires p in sessions && sessions[p].phase.HeadRead?
      modifies this`sessions
      ensures entry == EntryAfter(hash, old(sessions[p].phase.head), old(sessions[p].input), now)
      ensures Step(hash, old(View()), Insert(p, now), View())
    {
      entry := EntryAfter(hash, sessions[p].phase.head, sessions[p].input, now);
      sessions := sessions[p := sessions[p].(phase := Inserted(entry))];
    }

    /** Fails on a taken sequence number, as the primary key does. */
    method CommitTransaction(p: Pid) returns (ok: bool)
      requires p in sessions && sessions[p].phase.Inserted?
      modifies this`sessions, this`holder, this`table
      ensures ok <==> old(sessions[p].phase.entry.sequence) !in old(table)
      ensures Step(hash, old(View()), if ok then Commit(p) else Rollback(p), View())
    {
      var entry := sessions[p].phase.entry;
      ok := entry.sequence !in table;
      if ok {
        table := table[entry.sequence := ToRow(entry)];
        holder := None;
      } else if holder == Some(p) {
        holder := None;
      }
      sessions := sessions - {p};
    }

    /**
     * One append on its own: it succeeds, its entry continues the chain, and
     * exactly its row is added.
     */
    method Append(p: Pid, input: Input, now: string, ghost log: seq<Entry>) returns (entry: Entry)
      requires Inv(hash, View(), log) && p !in sessions && holder == None
      modifies this
      ensures ContinuesChain(hash, log, entry)
      ensures entry.recordedAt == now && entry.input == input
      ensures table == old(table)[|log| := ToRow(entry)]
      ensures Inv(hash, View(), log + [entry])
    {
      hide Inv, Step, ContinuesChain, ToRow;
      ghost var s0 := View();
      BeginTransaction(p, input);
      ghost var s1 := View();
      StepEffects(hash, s0, Begin(p, input), s1, log);
      var granted := AcquireLock(p);
      ghost var s2 := View();
      StepEffects(hash, s1, TakeLock(p), s2, log);
      var head := SelectHead(p);
      ghost var s3 := View();
      StepEffects(hash, s2, ReadHead(p), s3, log);
      entry := InsertEntry(p, now);
      ghost var s4 := View();
      StepEffects(hash, s3, Insert(p, now), s4, log);
      SequenceIsNew(hash, s4, p, log);
      var ok := CommitTransaction(p);
      StepEffects(hash, s4, Commit(p), View(), log);
    }
  }

  /** What a step of a valid state leaves behind, as far as one writer is concerned. */
  lemma StepEffects(h: Hash, s: State, ev: Event, s': State, log: seq<Entry>)
    requires Inv(h, s, log) && Step(h, s, ev, s')
    ensures Inv(h, s', log + Committed(s, ev))
    ensures !ev.Commit? ==> Inv(h, s', log) && s'.table == s.table
    ensures ev.Begin? ==>
              ev.p in s'.sessions && s'.sessions[ev.p] == Session(ev.input, Waiting) && s'.holder == s.holder
    ensures ev.TakeLock? ==> ev.p in s'.sessions && s'.sessions[ev.p] == Session(s.sessions[ev.p].input, Locked)
    ensures ev.ReadHead? ==>
              ev.p in s.sessions && ev.p in s'.sessions && s'.sessions[ev.p].input == s.sessions[ev.p].input
    ensures ev.Insert? ==> ev.p in s.sessions && ev.p in s'.sessions && s.sessions[ev.p].phase.HeadRead?
                           && s'.sessions[ev.p].phase ==
                              Inserted(EntryAfter(h, s.sessions[ev.p].phase.head, s.sessions[ev.p].input, ev.now))
    ensures ev.Commit? ==> ev.p in s.sessions && s.sessions[ev.p].phase.Inserted?
                           && var e := s.sessions[ev.p].phase.entry;
                              s'.table == s.table[e.sequence := ToRow(e)]
  {
    hide Inv, ToRow, IsHead, EntryAfter;
    StepKeepsInv(h, s, ev, s', log);
    assert log + [] == log;
  }

  lemma SequenceIsNew(h: Hash, s: State, p: Pid, log: seq<Entry>)
    requires Inv(h, s, log) && p in s.sessions && s.sessions[p].phase.Inserted?
    ensures s.sessions[p].phase.entry.sequence == |log| && |log| !in s.table
    ensures ContinuesChain(h, log, s.sessions[p].phase.entry)
  {
  }
}
