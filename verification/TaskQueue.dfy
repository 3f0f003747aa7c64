/**
 * The task queue of packages/agent-runtime/src/bus.ts: one table of rows,
 * claimed under a lease token that every later operation must present.
 *
 * The database draws row ids and lease tokens at random; here they are numbers
 * that are never drawn twice. Time is in seconds.
 */
module TaskQueue {
  import opened Wrappers
  import opened Basics

  type Id = nat
  type Token = nat

  datatype Task = Task(taskId: string, targetAgent: string, expiresAt: real, maxAttempts: int)

  datatype RowStatus = Pending | InFlight

  datatype Row = Row(
    agentId: string, task: Task, status: RowStatus, lease: Option<Token>, receiveCount: nat, visibleAt: real)

  /** The table, its clock, every task ever sent and every token ever drawn. */
  datatype Table = Table(rows: map<Id, Row>, now: real, sent: map<Id, Task>, drawn: set<Token>)

  /** One SQL statement of some client, or time passing. */
  datatype Event =
    | Send(id: Id, task: Task)
    | Claim(agentId: string, claims: map<Id, Token>, timeout: real)
    | Ack(id: Id, token: Token)
    | Nack(id: Id, token: Token, attempt: int)
    | Heartbeat(id: Id, token: Token, seconds: real)
    | Tick(dt: real)

  const MAX_BATCH := 10
  const MAX_BACKOFF := 900

  function Pow2(n: nat): (r: nat)
    ensures r >= 1
  {
    if n == 0 then 1 else 2 * Pow2(n - 1)
  }

  /**
   * Doubles with each attempt up to the ninth, so that the cap of 900 seconds is never
   * needed; below zero it halves.
   */
  function Backoff(attempt: int): (r: real)
    ensures r > 0.0
  {
    if attempt < 0 then 1.0 / (Pow2(-attempt) as real)
    else Min(MAX_BACKOFF, Pow2(Min(attempt, 9))) as real
  }

  /** The first attempt waits a second, each later one twice as long, and from the ninth on it is 512 seconds. */
  lemma BackoffDoubles(attempt: int)
    ensures Backoff(0) == 1.0
    ensures attempt < 9 ==> Backoff(attempt + 1) == 2.0 * Backoff(attempt)
    ensures attempt >= 9 ==> Backoff(attempt) == 512.0
  {
    assert Pow2(9) == 512;
    if 0 <= attempt <= 9 {
      Pow2Grows(attempt, 9);
      Pow2Grows(Min(attempt + 1, 9), 9);
    }
    if attempt < 0 {
      HalvesDouble(Pow2(-attempt - 1) as real);
    }
  }

  lemma HalvesDouble(x: real)
    requires x >= 1.0
    ensures 1.0 / x == 2.0 * (1.0 / (2.0 * x))
  {
  }

  lemma {:induction false} Pow2Grows(m: nat, n: nat)
    requires m <= n
    ensures Pow2(m) <= Pow2(n)
  {
    if m < n {
      Pow2Grows(m, n - 1);
    }
  }

  predicate Holds(t: Table, id: Id, token: Token) {
    id in t.rows && t.rows[id].lease == Some(token)
  }

  ghost predicate Injective(claims: map<Id, Token>) {
    forall i, j :: i in claims && j in claims && i != j ==> claims[i] != claims[j]
  }

  predicate Claimable(t: Table, agentId: string, id: Id) {
    id in t.rows && t.rows[id].agentId == agentId && t.rows[id].visibleAt <= t.now
  }

  ghost predicate Enabled(t: Table, e: Event) {
    match e
    case Send(id, _) => id !in t.sent
    case Claim(agentId, claims, _) =>
      && |claims| <= MAX_BATCH && Injective(claims)
      && forall id :: id in claims ==> Claimable(t, agentId, id) && claims[id] !in t.drawn
    case Tick(dt) => dt >= 0.0
    case _ => true
  }

  function Fresh(task: Task, now: real): Row {
    Row(task.targetAgent, task, Pending, None, 0, now)
  }

  function Claimed(r: Row, token: Token, until: real): Row {
    r.(status := InFlight, lease := Some(token), receiveCount := r.receiveCount + 1, visibleAt := until)
  }

  function ClaimRows(rows: map<Id, Row>, claims: map<Id, Token>, until: real): map<Id, Row> {
    map id | id in rows :: if id in claims then Claimed(rows[id], claims[id], until) else rows[id]
  }

  function TokensOf(claims: map<Id, Token>): set<Token> {
    claims.Values
  }

  function ClaimIn(t: Table, claims: map<Id, Token>, timeout: real): Table {
    t.(rows := ClaimRows(t.rows, claims, t.now + timeout), drawn := t.drawn + TokensOf(claims))
  }

  function Apply(t: Table, e: Event): Table {
    match e
    case Send(id, task) => t.(rows := t.rows[id := Fresh(task, t.now)], sent := t.sent[id := task])
    case Claim(_, claims, timeout) => ClaimIn(t, claims, timeout)
    case Ack(id, token) => if Holds(t, id, token) then t.(rows := t.rows - {id}) else t
    case Nack(id, token, attempt) =>
      if Holds(t, id, token)
      then t.(rows := t.rows[id := t.rows[id].(status := Pending, visibleAt := t.now + Backoff(attempt))]) else t
    case Heartbeat(id, token, seconds) =>
      if Holds(t, id, token) then t.(rows := t.rows[id := t.rows[id].(visibleAt := t.now + seconds)]) else t
    case Tick(dt) => t.(now := t.now + dt)
  }

  function ApplyAll(t: Table, events: seq<Event>): Table
    decreases |events|
  {
    if events == [] then t else ApplyAll(Apply(t, events[0]), events[1..])
  }

  // ----------------------------------------------------------------------- whole runs

  ghost predicate StepAt(states: seq<Table>, events: seq<Event>, i: nat)
    requires i < |events| < |states|
  {
    Enabled(states[i], events[i]) && states[i + 1] == Apply(states[i], events[i])
  }

  ghost predicate IsRun(states: seq<Table>, events: seq<Event>) {
    && |states| == |events| + 1
    && states[0].rows == map[] && states[0].sent == map[] && states[0].drawn == {}
    && forall i :: 0 <= i < |events| ==> StepAt(states, events, i)
  }

  predicate Claims(e: Event, id: Id) {
    e.Claim? && id in e.claims
  }

  /** The token of the latest of the first `n` events that claims the row. */
  function LatestToken(events: seq<Event>, n: nat, id: Id): Option<Token>
    requires n <= |events|
  {
    if n == 0 then None
    else if Claims(events[n - 1], id) then Some(events[n - 1].claims[id])
    else LatestToken(events, n - 1, id)
  }

  function ClaimCount(events: seq<Event>, n: nat, id: Id): nat
    requires n <= |events|
  {
    if n == 0 then 0 else ClaimCount(events, n - 1, id) + (if Claims(events[n - 1], id) then 1 else 0)
  }

  /** The event acknowledges the row with the token of its latest claim. */
  ghost predicate AcksLatest(events: seq<Event>, i: nat, id: Id)
    requires i < |events|
  {
    events[i].Ack? && events[i].id == id && LatestToken(events, i, id) == Some(events[i].token)
  }

  ghost predicate WasSent(events: seq<Event>, n: nat, id: Id)
    requires n <= |events|
  {
    exists i :: 0 <= i < n && events[i].Send? && events[i].id == id
  }

  ghost predicate WasAcked(events: seq<Event>, n: nat, id: Id)
    requires n <= |events|
  {
    exists i :: 0 <= i < n && AcksLatest(events, i, id)
  }

  /** When the lease on the row ends, according to the events alone. */
  function LeaseEnd(states: seq<Table>, events: seq<Event>, n: nat, id: Id): real
    requires n <= |events| < |states|
  {
    if n == 0 then 0.0
    else
      var e, now := events[n - 1], states[n - 1].now;
      if e.Send? && e.id == id then now
      else if Claims(e, id) then now + e.timeout
      else if e.Nack? && e.id == id && LatestToken(events, n - 1, id) == Some(e.token) then now + Backoff(e.attempt)
      else if e.Heartbeat? && e.id == id && LatestToken(events, n - 1, id) == Some(e.token) then now + e.seconds
      else LeaseEnd(states, events, n - 1, id)
  }

  /** What the events so far say about a row, and the row itself. */
  ghost predicate RowTells(states: seq<Table>, events: seq<Event>, n: nat, id: Id)
    requires n <= |events| < |states|
  {
    var t := states[n];
    && (id in t.sent <==> WasSent(events, n, id))
    && (WasAcked(events, n, id) ==> WasSent(events, n, id))
    && (id in t.rows <==> WasSent(events, n, id) && !WasAcked(events, n, id))
    && (id !in t.sent ==> LatestToken(events, n, id) == None && ClaimCount(events, n, id) == 0)
    && (id in t.rows ==>
          var r := t.rows[id];
          && r.lease == LatestToken(events, n, id)
          && r.receiveCount == ClaimCount(events, n, id)
          && r.visibleAt == LeaseEnd(states, events, n, id)
          && r.task == t.sent[id] && r.agentId == r.task.targetAgent)
  }

  lemma HistoryGrows(events: seq<Event>, n: nat, id: Id)
    requires n < |events|
    ensures WasSent(events, n + 1, id) <==> WasSent(events, n, id) || (events[n].Send? && events[n].id == id)
    ensures WasAcked(events, n + 1, id) <==> WasAcked(events, n, id) || AcksLatest(events, n, id)
  {
    if WasSent(events, n, id) {
      var i :| 0 <= i < n && events[i].Send? && events[i].id == id;
    }
    if WasAcked(events, n, id) {
      var i :| 0 <= i < n && AcksLatest(events, i, id);
    }
  }

  /**
   * In every reachable state the row of a sent task is present, or was deleted by
   * an acknowledgement bearing the token of its latest claim; while present its
   * token is that of the latest claim, its receive count the number of claims,
   * and its visibility time the end of its lease.
   */
  lemma {:induction false} RowsTellTheirHistory(states: seq<Table>, events: seq<Event>, n: nat, id: Id)
    requires IsRun(states, events) && n <= |events|
    ensures RowTells(states, events, n, id)
  {
    if n > 0 {
      RowsTellTheirHistory(states, events, n - 1, id);
      assert StepAt(states, events, n - 1);
      HistoryGrows(events, n - 1, id);
      RowTellsOneMore(states, events, n - 1, id);
    }
  }

  lemma RowTellsOneMore(states: seq<Table>, events: seq<Event>, n: nat, id: Id)
    requires n < |events| < |states| && StepAt(states, events, n) && RowTells(states, events, n, id)
    requires WasSent(events, n + 1, id) <==> WasSent(events, n, id) || (events[n].Send? && events[n].id == id)
    requires WasAcked(events, n + 1, id) <==> WasAcked(events, n, id) || AcksLatest(events, n, id)
    ensures RowTells(states, events, n + 1, id)
  {
    hide WasSent, WasAcked, Backoff, Injective;
  }

  // --------------------------------------------------------- what a lease guarantees

  lemma {:induction false} ClockNeverGoesBack(states: seq<Table>, events: seq<Event>, i: nat, j: nat)
    requires IsRun(states, events) && i <= j <= |events|
    ensures states[i].now <= states[j].now
  {
    if i < j {
      ClockNeverGoesBack(states, events, i, j - 1);
      assert StepAt(states, events, j - 1);
    }
  }

  lemma {:induction false} TokensStayDrawn(states: seq<Table>, events: seq<Event>, i: nat, j: nat, token: Token)
    requires IsRun(states, events) && i <= j <= |events| && token in states[i].drawn
    ensures token in states[j].drawn
  {
    if i < j {
      TokensStayDrawn(states, events, i, j - 1, token);
      assert StepAt(states, events, j - 1);
    }
  }

  /** A row is claimed only after the lease that the earlier events gave it has ended. */
  lemma ClaimWaitsForLeaseEnd(states: seq<Table>, events: seq<Event>, n: nat, id: Id)
    requires IsRun(states, events) && n < |events| && Claims(events[n], id)
    ensures LeaseEnd(states, events, n, id) <= states[n].now
  {
    RowsTellTheirHistory(states, events, n, id);
    assert StepAt(states, events, n);
    assert Claimable(states[n], events[n].agentId, id);
  }

  /** The event returns the row or extends its lease under the given token. */
  predicate MovesLease(e: Event, id: Id, token: Token) {
    (e.Nack? && e.id == id && e.token == token) || (e.Heartbeat? && e.id == id && e.token == token)
  }

  /** Until `j`, either the claim at `i` still sets the end of the lease or the timeout has passed. */
  lemma {:induction false} LeaseRunsItsTime(states: seq<Table>, events: seq<Event>, i: nat, j: nat, id: Id)
    requires IsRun(states, events) && i < j <= |events| && Claims(events[i], id)
    requires forall k :: i < k < j ==> !MovesLease(events[k], id, events[i].claims[id])
    ensures || (LatestToken(events, j, id) == Some(events[i].claims[id])
                && LeaseEnd(states, events, j, id) == states[i].now + events[i].timeout)
            || states[i].now + events[i].timeout <= states[j].now
  {
    hide Apply, Enabled, Backoff, StepAt;
    ClockNeverGoesBack(states, events, i, i + 1);
    if i + 1 < j {
      LeaseRunsItsTime(states, events, i, j - 1, id);
      ClockNeverGoesBack(states, events, j - 1, j);
      if Claims(events[j - 1], id) {
        ClaimWaitsForLeaseEnd(states, events, j - 1, id);
      }
      ClaimedWasSent(states, events, i, id);
      SentOnce(states, events, i, j - 1, id);
    }
  }

  lemma ClaimedWasSent(states: seq<Table>, events: seq<Event>, i: nat, id: Id)
    requires IsRun(states, events) && i < |events| && Claims(events[i], id)
    ensures id in states[i].sent
  {
    hide Backoff;
    RowsTellTheirHistory(states, events, i, id);
    assert StepAt(states, events, i);
    assert Claimable(states[i], events[i].agentId, id);
  }

  lemma {:induction false} SentOnce(states: seq<Table>, events: seq<Event>, i: nat, n: nat, id: Id)
    requires IsRun(states, events) && i <= n <= |events| && id in states[i].sent
    ensures id in states[n].sent && states[n].sent[id] == states[i].sent[id]
    ensures n < |events| ==> !(events[n].Send? && events[n].id == id)
  {
    if i < n {
      SentOnce(states, events, i, n - 1, id);
      assert StepAt(states, events, n - 1);
    }
    if n < |events| {
      assert StepAt(states, events, n);
    }
  }

  /**
   * A claimed row is not claimed again before its timeout has passed, unless its
   * holder returned it or moved the lease in between.
   */
  lemma NoEarlyReclaim(states: seq<Table>, events: seq<Event>, i: nat, j: nat, id: Id)
    requires IsRun(states, events) && i < j < |events|
    requires Claims(events[i], id) && Claims(events[j], id)
    requires forall k :: i < k < j ==> !MovesLease(events[k], id, events[i].claims[id])
    ensures states[i].now + events[i].timeout <= states[j].now
  {
    LeaseRunsItsTime(states, events, i, j, id);
    ClaimWaitsForLeaseEnd(states, events, j, id);
  }

  /** The visibility time of a row moves only when it is claimed or under its current token. */
  lemma LeaseMovesOnlyUnderTheToken(states: seq<Table>, events: seq<Event>, n: nat, id: Id)
    requires IsRun(states, events) && n < |events|
    requires id in states[n].rows && id in states[n + 1].rows
    requires states[n].rows[id].visibleAt != states[n + 1].rows[id].visibleAt
    ensures Claims(events[n], id)
         || (LatestToken(events, n, id).Some? && MovesLease(events[n], id, LatestToken(events, n, id).value))
  {
    RowsTellTheirHistory(states, events, n, id);
    assert StepAt(states, events, n);
  }

  /** Once a row has been claimed again, its latest token is never the earlier one. */
  lemma {:induction false} TokenIsSuperseded(states: seq<Table>, events: seq<Event>, i: nat, k: nat, n: nat, id: Id)
    requires IsRun(states, events) && i < k < n <= |events|
    requires Claims(events[i], id) && Claims(events[k], id)
    ensures LatestToken(events, n, id).Some? && LatestToken(events, n, id).value != events[i].claims[id]
  {
    var token := events[i].claims[id];
    assert StepAt(states, events, i);
    assert token in TokensOf(events[i].claims);
    TokensStayDrawn(states, events, i + 1, n - 1, token);
    assert StepAt(states, events, n - 1);
    if k + 1 < n {
      TokenIsSuperseded(states, events, i, k, n - 1, id);
    }
  }

  predicate Presents(e: Event, id: Id, token: Token) {
    MovesLease(e, id, token) || (e.Ack? && e.id == id && e.token == token)
  }

  /** A superseded token acknowledges, returns and extends nothing, for ever. */
  lemma SupersededTokenIsPowerless(states: seq<Table>, events: seq<Event>, i: nat, k: nat, n: nat, id: Id)
    requires IsRun(states, events) && i < k < n < |events|
    requires Claims(events[i], id) && Claims(events[k], id)
    requires Presents(events[n], id, events[i].claims[id])
    ensures states[n + 1] == states[n]
  {
    TokenIsSuperseded(states, events, i, k, n, id);
    RowsTellTheirHistory(states, events, n, id);
    assert StepAt(states, events, n);
  }

  /** A deleted row never comes back. */
  lemma {:induction false} DeletedStaysDeleted(states: seq<Table>, events: seq<Event>, i: nat, n: nat, id: Id)
    requires IsRun(states, events) && i <= n <= |events|
    requires id in states[i].sent && id !in states[i].rows
    ensures id in states[n].sent && id !in states[n].rows
  {
    if i < n {
      DeletedStaysDeleted(states, events, i, n - 1, id);
      assert StepAt(states, events, n - 1);
    }
  }

  lemma OneTokenIsInjective(id: Id, token: Token)
    ensures Injective(map[id := token]) && |map[id := token]| == 1
  {
  }

  /**
   * Whatever became of its workers: a row that is present can be claimed by its
   * agent exactly from the moment at which its lease has ended.
   */
  lemma EndedLeaseCanBeClaimed(states: seq<Table>, events: seq<Event>, n: nat, id: Id, token: Token, timeout: real)
    requires IsRun(states, events) && n <= |events| && id in states[n].rows && token !in states[n].drawn
    ensures Enabled(states[n], Claim(states[n].rows[id].task.targetAgent, map[id := token], timeout)) <==>
            LeaseEnd(states, events, n, id) <= states[n].now
  {
    hide Injective, LeaseEnd;
    RowsTellTheirHistory(states, events, n, id);
    OneTokenIsInjective(id, token);
    var e := Claim(states[n].rows[id].task.targetAgent, map[id := token], timeout);
    assert id in e.claims && e.claims[id] == token;
  }

  /** A returned row that nobody touches stays as its holder left it. */
  lemma {:induction false} ReturnedRowWaits(states: seq<Table>, events: seq<Event>, i: nat, j: nat, id: Id,
                                            token: Token)
    requires IsRun(states, events) && i < j <= |events|
    requires events[i].Nack? && events[i].id == id && events[i].token == token && Holds(states[i], id, token)
    requires forall k :: i < k < j ==> !Claims(events[k], id) && !Presents(events[k], id, token)
    ensures Holds(states[j], id, token) && states[j].rows[id].status == Pending
    ensures states[j].rows[id].visibleAt == states[i].now + Backoff(events[i].attempt)
  {
    hide Backoff, Injective;
    assert StepAt(states, events, j - 1);
    if i + 1 < j {
      ReturnedRowWaits(states, events, i, j - 1, id, token);
      RowsTellTheirHistory(states, events, j - 1, id);
    }
  }

  /** And can be claimed again exactly when the backoff for its attempt has passed. */
  lemma ReturnedRowComesBack(states: seq<Table>, events: seq<Event>, i: nat, j: nat, id: Id, token: Token,
                             next: Token, timeout: real)
    requires IsRun(states, events) && i < j <= |events| && next !in states[j].drawn
    requires events[i].Nack? && events[i].id == id && events[i].token == token && Holds(states[i], id, token)
    requires forall k :: i < k < j ==> !Claims(events[k], id) && !Presents(events[k], id, token)
    ensures id in states[j].rows
    ensures Enabled(states[j], Claim(states[j].rows[id].task.targetAgent, map[id := next], timeout)) <==>
            states[j].now >= states[i].now + Backoff(events[i].attempt)
  {
    hide Backoff, Injective, Enabled;
    ReturnedRowWaits(states, events, i, j, id, token);
    RowsTellTheirHistory(states, events, j, id);
    EndedLeaseCanBeClaimed(states, events, j, id, next, timeout);
  }

  // ------------------------------------------------------------------ receipt handles

  function IndexOf(s: string, c: char): (i: nat)
    ensures i <= |s|
    ensures i < |s| ==> s[i] == c
    ensures c !in s[..i]
  {
    if s == "" || s[0] == c then 0
    else
      var i := 1 + IndexOf(s[1..], c);
      assert s[..i] == [s[0]] + s[1..][..i - 1];
      i
  }

  function MakeReceipt(id: string, token: string): string {
    id + ":" + token
  }

  function SplitReceipt(handle: string): Result<(string, string)> {
    var i := IndexOf(handle, ':');
    if i == |handle| then Err("malformed receipt handle: " + handle) else Ok((handle[..i], handle[i + 1..]))
  }

  /** A handle splits back into the row and the token it was made from exactly when the row id holds no colon. */
  lemma ReceiptRoundTrip(id: string, token: string)
    ensures SplitReceipt(MakeReceipt(id, token)) == Ok((id, token)) <==> ':' !in id
  {
    var handle := MakeReceipt(id, token);
    var i := IndexOf(handle, ':');
    assert handle[|id|] == ':' && handle[..|id|] == id;
    assert forall k :: 0 <= k < i ==> handle[k] in handle[..i];
    assert i < |id| ==> handle[i] == id[i];
    assert i == |id| ==> handle[..i] == id && handle[i + 1..] == token;
  }

  // ------------------------------------------------------------------- the statements

  /** What `receive` hands to the agent for one claimed row. */
  datatype Received = Received(id: Id, token: Token, task: Task, receiveCount: nat)

  function BatchLimit(max: int): int {
    Min(MAX_BATCH, if max < 1 then 1 else max)
  }

  /** Before one poll: what other clients did, and which rows they have locked at that moment. */
  datatype Before = Before(others: seq<Event>, locked: set<Id>)

  predicate NeverBackwards(events: seq<Event>) {
    forall e :: e in events && e.Tick? ==> e.dt >= 0.0
  }

  ghost predicate ClocksRun(polls: nat -> Before) {
    forall k :: NeverBackwards(polls(k).others)
  }

  /** How long the loop sleeps when so much time is left: at least 0.2 and at most one second. */
  function Nap(rest: real): real {
    if rest < 0.2 then 0.2 else if rest > 1.0 then 1.0 else rest
  }

  /** The table that the `k`-th poll meets when the polls before it claimed nothing. */
  function Met(t: Table, deadline: real, polls: nat -> Before, k: nat): Table {
    if k == 0 then ApplyAll(t, polls(0).others)
    else
      var before := Met(t, deadline, polls, k - 1);
      ApplyAll(before.(now := before.now + Nap(deadline - before.now)), polls(k).others)
  }

  /** The limit on a batch is the number from 1 to 10 that is nearest to the one asked for. */
  lemma LimitIsNearest(max: int, n: int)
    requires 1 <= n <= 10
    ensures 1 <= BatchLimit(max) <= 10
    ensures Distance(BatchLimit(max) as real, max as real) <= Distance(n as real, max as real)
  {
  }

  /** Between two polls passes what is left until the deadline, or what is nearest to it from 0.2 to 1 seconds. */
  lemma NapIsNearest(rest: real, x: real)
    requires 0.2 <= x <= 1.0
    ensures 0.2 <= Nap(rest) <= 1.0
    ensures Distance(Nap(rest), rest) <= Distance(x, rest)
  {
  }

  /** The rows that a claim may take: visible ones of the agent that nobody has locked. */
  function Available(t: Table, agentId: string, locked: set<Id>): set<Id> {
    set id | id in t.rows && Claimable(t, agentId, id) && id !in locked
  }

  lemma {:induction false} ClockRunsOn(t: Table, events: seq<Event>)
    requires NeverBackwards(events)
    ensures ApplyAll(t, events).now >= t.now
    decreases |events|
  {
    if events != [] {
      assert events[0] in events;
      ClockRunsOn(Apply(t, events[0]), events[1..]);
    }
  }

  /** The table as one client uses it. */
  class TaskTable {
    var table: Table

    method Send(id: Id, task: Task)
      requires id !in table.sent
      modifies this
      ensures table == Apply(old(table), Event.Send(id, task))
    {
      table := table.(rows := table.rows[id := Fresh(task, table.now)], sent := table.sent[id := task]);
    }

    method Ack(id: Id, token: Token)
      modifies this
      ensures table == Apply(old(table), Event.Ack(id, token))
    {
      if id in table.rows && table.rows[id].lease == Some(token) {
        table := table.(rows := table.rows - {id});
      }
    }

    method Nack(id: Id, token: Token, attempt: int)
      modifies this
      ensures table == Apply(old(table), Event.Nack(id, token, attempt))
    {
      var backoff := Backoff(attempt);
      if id in table.rows && table.rows[id].lease == Some(token) {
        var row := table.rows[id].(status := Pending, visibleAt := table.now + backoff);
        table := table.(rows := table.rows[id := row]);
      }
    }

    method Heartbeat(id: Id, token: Token, seconds: real)
      modifies this
      ensures table == Apply(old(table), Event.Heartbeat(id, token, seconds))
    {
      if id in table.rows && table.rows[id].lease == Some(token) {
        var row := table.rows[id].(visibleAt := table.now + seconds);
        table := table.(rows := table.rows[id := row]);
      }
    }

    /** The claim statement: it takes exactly the chosen rows, each under its new token. */
    method ClaimBatch(agentId: string, claims: map<Id, Token>, timeout: real) returns (batch: map<Id, Received>)
      requires Enabled(table, Claim(agentId, claims, timeout))
      modifies this
      ensures table == ClaimIn(old(table), claims, timeout)
      ensures batch.Keys == claims.Keys
      ensures forall id :: id in batch ==> batch[id] == Delivered(old(table), id, claims[id])
    {
      hide Injective, ClaimRows, TokensOf;
      var rows := ClaimRows(table.rows, claims, table.now + timeout);
      ClaimRowsAt(table.rows, claims, table.now + timeout);
      batch := map id | id in claims :: Received(id, claims[id], rows[id].task, rows[id].receiveCount);
      table := table.(rows := rows, drawn := table.drawn + TokensOf(claims));
    }

    /** One poll of the loop. */
    method Poll(agentId: string, limit: int, timeout: real, ghost locked: set<Id>, claims: map<Id, Token>)
        returns (batch: map<Id, Received>)
      requires ChoosesFrom(table, claims, agentId, locked, limit, timeout) && limit >= 1
      modifies this
      ensures Takes(old(table), table, agentId, locked, limit, timeout, batch)
    {
      hide Injective, IsOneClaim, Available;
      ghost var met := table;
      batch := ClaimBatch(agentId, claims, timeout);
      assert |batch| == |claims| by { assert |batch.Keys| == |claims.Keys|; }
      ClaimIsOneClaim(met, agentId, claims, timeout, batch);
      if claims == map[] {
        ClaimingNothing(met, timeout);
      }
    }

    /**
     * The long poll. Every poll but the last met no available row. The batch is one
     * claim on the table that the last poll met, of as many of the available rows as
     * the limit allows; without a batch there were none, nothing has changed since,
     * and the deadline has passed. Which rows are taken, and the tokens drawn, are up
     * to the database: the parameter `choose`.
     */
    method Receive(agentId: string, max: int, waitSeconds: real, timeout: real, polls: nat -> Before,
                   choose: (Table, nat) -> map<Id, Token>)
      returns (batch: map<Id, Received>, last: nat)
      requires ClocksRun(polls) && Chooses(choose, polls, agentId, BatchLimit(max), timeout)
      modifies this
      ensures BatchLimit(max) <= MAX_BATCH
      ensures NothingUntil(old(table), old(table).now + waitSeconds, polls, agentId, last)
      ensures Takes(Met(old(table), old(table).now + waitSeconds, polls, last), table,
                    agentId, polls(last).locked, BatchLimit(max), timeout, batch)
      ensures batch == map[] ==> table.now >= old(table).now + waitSeconds
    {
      hide Apply, ApplyAll, Available, Chooses, ChoosesFrom, Takes, ClocksRun, NeverBackwards, Met, NothingUntil;
      ghost var start := table;
      var deadline := table.now + waitSeconds;
      last := 0;
      table := ApplyAll(table, polls(0).others);
      MetFirst(start, deadline, polls, agentId);
      while true
        invariant table == Met(start, deadline, polls, last)
        invariant NothingUntil(start, deadline, polls, agentId, last)
        decreases if table.now < deadline then ((deadline - table.now) * 5.0).Floor + 1 else 0
      {
        ghost var met := table;
        var claims := choose(table, last);
        ChosenFrom(choose, polls, table, last, agentId, BatchLimit(max), timeout);
        batch := Poll(agentId, BatchLimit(max), timeout, polls(last).locked, claims);
        if |batch| > 0 {
          return;
        }
        TakingNothing(met, table, agentId, polls(last).locked, BatchLimit(max), timeout, batch);
        if table.now >= deadline {
          return;
        }
        MetNext(start, deadline, polls, agentId, last);
        ClocksRunOn(table.(now := table.now + Nap(deadline - table.now)), polls, last + 1);
        table := table.(now := table.now + Nap(deadline - table.now));
        last := last + 1;
        table := ApplyAll(table, polls(last).others);
      }
    }
  }

  /** No poll before the `last` met a row that it could take. */
  ghost predicate NothingUntil(t: Table, deadline: real, polls: nat -> Before, agentId: string, last: nat) {
    forall k :: 0 <= k < last ==> Available(Met(t, deadline, polls, k), agentId, polls(k).locked) == {}
  }

  /** The batch is one claim of available rows, of as many as the limit allows; with none of them nothing changes. */
  ghost predicate Takes(t: Table, u: Table, agentId: string, locked: set<Id>, limit: int, timeout: real,
                        batch: map<Id, Received>) {
    && batch.Keys <= Available(t, agentId, locked)
    && |batch| == Min(limit, |Available(t, agentId, locked)|)
    && IsOneClaim(t, u, agentId, timeout, batch)
    && (batch == map[] ==> u == t)
  }

  /**
   * A batch holds only rows of the agent that are visible and that nobody has locked, and
   * one below the limit holds all of them.
   */
  lemma TakesWhatIsVisible(t: Table, u: Table, agentId: string, locked: set<Id>, limit: int, timeout: real,
                           batch: map<Id, Received>, id: Id)
    requires Takes(t, u, agentId, locked, limit, timeout, batch)
    ensures var free := id in t.rows && t.rows[id].agentId == agentId && t.rows[id].visibleAt <= t.now && id !in locked;
            (id in batch ==> free) && (free && |batch| < limit ==> id in batch)
  {
    hide IsOneClaim;
    var all := Available(t, agentId, locked);
    if id in all && id !in batch {
      assert |batch.Keys| == |batch|;
      SmallerBy(batch.Keys, all, id);
    }
  }

  lemma SmallerBy(a: set<Id>, b: set<Id>, x: Id)
    requires a <= b && x in b && x !in a
    ensures |a| < |b|
  {
    assert a <= b - {x};
    SubsetIsNoLarger(a, b - {x});
  }

  lemma {:induction false} SubsetIsNoLarger(a: set<Id>, b: set<Id>)
    requires a <= b
    ensures |a| <= |b|
  {
    if a != {} {
      var x :| x in a;
      SubsetIsNoLarger(a - {x}, b - {x});
    }
  }

  lemma TakingNothing(t: Table, u: Table, agentId: string, locked: set<Id>, limit: int, timeout: real,
                      batch: map<Id, Received>)
    requires Takes(t, u, agentId, locked, limit, timeout, batch) && limit >= 1 && |batch| == 0
    ensures batch == map[] && u == t && Available(t, agentId, locked) == {}
  {
    hide IsOneClaim, Available;
    assert batch.Keys == {};
  }

  lemma MetFirst(t: Table, deadline: real, polls: nat -> Before, agentId: string)
    ensures Met(t, deadline, polls, 0) == ApplyAll(t, polls(0).others)
    ensures NothingUntil(t, deadline, polls, agentId, 0)
  {
  }

  lemma MetNext(t: Table, deadline: real, polls: nat -> Before, agentId: string, k: nat)
    requires NothingUntil(t, deadline, polls, agentId, k)
    requires Available(Met(t, deadline, polls, k), agentId, polls(k).locked) == {}
    ensures NothingUntil(t, deadline, polls, agentId, k + 1)
    ensures var before := Met(t, deadline, polls, k);
            Met(t, deadline, polls, k + 1)
            == ApplyAll(before.(now := before.now + Nap(deadline - before.now)), polls(k + 1).others)
  {
    hide Available, ApplyAll;
  }

  lemma ClaimingNothing(t: Table, timeout: real)
    ensures ClaimIn(t, map[], timeout) == t
  {
    ClaimRowsAt(t.rows, map[], t.now + timeout);
    assert TokensOf(map[]) == {};
  }

  lemma ClocksRunOn(t: Table, polls: nat -> Before, k: nat)
    requires ClocksRun(polls)
    ensures ApplyAll(t, polls(k).others).now >= t.now
  {
    ClockRunsOn(t, polls(k).others);
  }

  function Delivered(t: Table, id: Id, token: Token): Received
    requires id in t.rows
  {
    Received(id, token, t.rows[id].task, t.rows[id].receiveCount + 1)
  }

  /** A claim takes available rows, and as many of them as the limit allows. */
  ghost predicate ChoosesFrom(t: Table, claims: map<Id, Token>, agentId: string, locked: set<Id>, limit: int,
                              timeout: real) {
    && Enabled(t, Claim(agentId, claims, timeout))
    && claims.Keys <= Available(t, agentId, locked) && |claims| == Min(limit, |Available(t, agentId, locked)|)
  }

  ghost predicate Chooses(choose: (Table, nat) -> map<Id, Token>, polls: nat -> Before, agentId: string, limit: int,
                          timeout: real) {
    forall t, k :: ChoosesFrom(t, choose(t, k), agentId, polls(k).locked, limit, timeout)
  }

  lemma ChosenFrom(choose: (Table, nat) -> map<Id, Token>, polls: nat -> Before, t: Table, k: nat, agentId: string,
                   limit: int, timeout: real)
    requires Chooses(choose, polls, agentId, limit, timeout) && limit >= 1
    ensures ChoosesFrom(t, choose(t, k), agentId, polls(k).locked, limit, timeout)
  {
    hide ChoosesFrom;
  }

  /** Exactly the delivered rows were claimable, and were claimed under tokens never drawn before. */
  ghost predicate IsOneClaim(t: Table, u: Table, agentId: string, timeout: real, batch: map<Id, Received>) {
    && u.rows.Keys == t.rows.Keys && u.sent == t.sent && u.now == t.now
    && (forall id :: id in t.rows && id !in batch ==> u.rows[id] == t.rows[id])
    && (forall id :: id in batch ==>
          && Claimable(t, agentId, id) && batch[id].token !in t.drawn
          && batch[id] == Delivered(t, id, batch[id].token)
          && u.rows[id] == Claimed(t.rows[id], batch[id].token, t.now + timeout))
  }

  lemma ClaimRowsAt(rows: map<Id, Row>, claims: map<Id, Token>, until: real)
    ensures ClaimRows(rows, claims, until).Keys == rows.Keys
    ensures forall id :: id in rows && id in claims ==>
            ClaimRows(rows, claims, until)[id] == Claimed(rows[id], claims[id], until)
    ensures forall id :: id in rows && id !in claims ==> ClaimRows(rows, claims, until)[id] == rows[id]
    ensures claims == map[] ==> ClaimRows(rows, claims, until) == rows
  {
  }

  lemma ClaimIsOneClaim(t: Table, agentId: string, claims: map<Id, Token>, timeout: real, batch: map<Id, Received>)
    requires Enabled(t, Claim(agentId, claims, timeout)) && batch.Keys == claims.Keys
    requires forall id :: id in batch ==> batch[id] == Delivered(t, id, claims[id])
    ensures IsOneClaim(t, ClaimIn(t, claims, timeout), agentId, timeout, batch)
  {
    hide Injective, ClaimRows, TokensOf;
    ClaimRowsAt(t.rows, claims, t.now + timeout);
    forall id | id in batch
      ensures claims[id] !in t.drawn && Claimable(t, agentId, id) && batch[id].token == claims[id]
    {
    }
  }
}
