/**
 * The agent's side of the queue: `runTask` of packages/agent-runtime/src/agent.ts
 * as a machine that stops at every `await`, and any number of such workers
 * running on one task table.
 *
 * A worker that crashes, or whose claim reply never arrived, is a worker that
 * takes no further step; nothing here assumes that a worker ever takes one.
 */
module AgentRuns {
  import opened TaskQueue

  datatype Outcome = Succeeded | Failed | Expired | Retry | Threw

  /** Where a run of `runTask` stands: the statement it is about to make. */
  datatype Pc =
    | Start | WrongNack | ExpireAck | ExpireReport | Handling | AckOk | ReportOk
    | Catch(retryable: bool) | RetryNack | FinalAck | FinalReport | Done(outcome: Outcome)

  datatype Worker = Worker(agentId: string, id: Id, token: Token, task: Task, receiveCount: int, pc: Pc)

  /** How a call ends: an error can arrive after the database has done its work, or before. */
  datatype Fate = Returns | ThrowsAfter(retryable: bool) | ThrowsBefore(retryable: bool)

  const KEEP_ALIVE := 300.0

  /** The change to the table that the next call asks for; reports and the handler ask for none. */
  function Statement(w: Worker): Event {
    match w.pc
    case WrongNack => Nack(w.id, w.token, 1)
    case RetryNack => Nack(w.id, w.token, w.receiveCount)
    case ExpireAck => Ack(w.id, w.token)
    case AckOk => Ack(w.id, w.token)
    case FinalAck => Ack(w.id, w.token)
    case _ => Tick(0.0)
  }

  function Effect(w: Worker, fate: Fate): Event {
    if fate.ThrowsBefore? then Tick(0.0) else Statement(w)
  }

  /** Outside the `try` an error ends the run; inside, it goes to the `catch`. */
  function Escape(fate: Fate, next: Pc): Pc {
    if fate.Returns? then next else Done(Threw)
  }

  function Caught(fate: Fate, next: Pc): Pc {
    if fate.Returns? then next else Catch(fate.retryable)
  }

  function NextPc(w: Worker, fate: Fate, clock: real): Pc {
    match w.pc
    case Start =>
      if w.task.targetAgent != w.agentId then WrongNack
      else if w.task.expiresAt < clock then ExpireAck
      else Handling
    case WrongNack => Escape(fate, Done(Retry))
    case ExpireAck => Escape(fate, ExpireReport)
    case ExpireReport => Escape(fate, Done(Expired))
    case Handling => Caught(fate, AckOk)
    case AckOk => Caught(fate, ReportOk)
    case ReportOk => Caught(fate, Done(Succeeded))
    case Catch(retryable) => if retryable && w.receiveCount < w.task.maxAttempts then RetryNack else FinalAck
    case RetryNack => Escape(fate, Done(Retry))
    case FinalAck => Escape(fate, FinalReport)
    case FinalReport => Escape(fate, Done(Failed))
    case Done(_) => w.pc
  }

  function Advance(w: Worker, fate: Fate, clock: real): Worker {
    w.(pc := NextPc(w, fate, clock))
  }

  // ---------------------------------------------------------- what a worker can rely on

  /** The row was acknowledged under this lease, so its holder has nothing left to give back. */
  predicate Settled(pc: Pc) {
    pc in {ReportOk, ExpireReport, FinalReport, Done(Succeeded), Done(Failed), Done(Expired)}
  }

  /** Every row carries the task that was sent, for the agent it was sent to, under a drawn token. */
  ghost predicate TableFits(t: Table) {
    forall id :: id in t.rows ==>
      && id in t.sent && t.rows[id].task == t.sent[id] && t.rows[id].agentId == t.sent[id].targetAgent
      && (t.rows[id].lease.Some? ==> t.rows[id].lease.value in t.drawn)
  }

  /** The worker's view of its row: while its token is the lease, the row is as the worker left it. */
  ghost predicate Fits(t: Table, w: Worker) {
    && w.token in t.drawn
    && w.id in t.sent && w.task == t.sent[w.id] && w.task.targetAgent == w.agentId
    && w.pc != WrongNack
    && (w.pc == RetryNack ==> w.receiveCount < w.task.maxAttempts)
    && (Holds(t, w.id, w.token) ==>
          && t.rows[w.id].receiveCount == w.receiveCount
          && !Settled(w.pc)
          && (w.pc == Done(Retry) ==> t.rows[w.id].status == Pending))
  }

  lemma TokensAreCounted(claims: map<Id, Token>)
    ensures forall id :: id in claims ==> claims[id] in TokensOf(claims)
  {
  }

  lemma EventKeepsTableFit(t: Table, e: Event)
    requires TableFits(t) && Enabled(t, e)
    ensures TableFits(Apply(t, e))
  {
    hide Injective, Backoff, ClaimIn;
    if e.Claim? {
      ClaimKeepsTableFit(t, e.claims, e.timeout);
    }
  }

  lemma ClaimKeepsTableFit(t: Table, claims: map<Id, Token>, timeout: real)
    requires TableFits(t)
    ensures TableFits(ClaimIn(t, claims, timeout))
  {
    hide TokensOf, ClaimRows;
    ClaimRowsAt(t.rows, claims, t.now + timeout);
    TokensAreCounted(claims);
  }

  /** Whatever happens that does not present the worker's token leaves its view intact. */
  lemma OthersKeepFit(t: Table, w: Worker, e: Event)
    requires TableFits(t) && Fits(t, w) && Enabled(t, e)
    requires !Presents(e, w.id, w.token) || e.Heartbeat?
    ensures Fits(Apply(t, e), w)
  {
    hide Injective, Backoff, TableFits;
    if e.Claim? {
      ClaimRowsAt(t.rows, e.claims, t.now + e.timeout);
    }
  }

  /** Every step of the worker itself keeps its view right, however its calls end. */
  lemma OwnStepKeepsFit(t: Table, w: Worker, fate: Fate, clock: real)
    requires TableFits(t) && Fits(t, w)
    ensures Fits(Apply(t, Effect(w, fate)), Advance(w, fate, clock))
  {
    hide Injective, Backoff, TableFits;
  }

  /** The row waits for its next attempt, as long as the backoff for this one takes. */
  predicate IsPutOff(t: Table, id: Id, attempt: int)
    requires id in t.rows
  {
    t.rows[id].status == Pending && t.rows[id].visibleAt == t.now + Backoff(attempt)
  }

  /** A returned task cannot be claimed before its backoff has passed. */
  lemma RetryIsPutOff(t: Table, w: Worker, fate: Fate, clock: real)
    requires w.pc == RetryNack && NextPc(w, fate, clock) == Done(Retry)
    ensures var u := Apply(t, Effect(w, fate));
            !Holds(u, w.id, w.token) || IsPutOff(u, w.id, w.receiveCount)
  {
  }

  // --------------------------------------------------------------- workers on one table

  datatype System = System(table: Table, workers: map<Token, Worker>)

  datatype Move =
    | Submit(id: Id, task: Task)
    | Deliver(agentId: string, claims: map<Id, Token>, timeout: real)
    | Work(token: Token, fate: Fate, clock: real)
    | KeepAlive(token: Token, reaches: bool)
    | Wait(dt: real)

  function EventOf(s: System, m: Move): Event {
    match m
    case Submit(id, task) => Send(id, task)
    case Deliver(agentId, claims, timeout) => Claim(agentId, claims, timeout)
    case Work(token, fate, _) => if token in s.workers then Effect(s.workers[token], fate) else Tick(0.0)
    case KeepAlive(token, reaches) =>
      if reaches && token in s.workers then Heartbeat(s.workers[token].id, token, KEEP_ALIVE) else Tick(0.0)
    case Wait(dt) => Tick(dt)
  }

  /** The worker that a claimed row's reply starts. */
  function Started(t: Table, agentId: string, id: Id, token: Token): Worker
    requires id in t.rows
  {
    Worker(agentId, id, token, t.rows[id].task, t.rows[id].receiveCount + 1, Start)
  }

  ghost predicate WorkersMove(s: System, m: Move, u: System) {
    match m
    case Deliver(agentId, claims, _) =>
      && (forall token :: token in s.workers ==> token in u.workers && u.workers[token] == s.workers[token])
      && (forall token :: token in u.workers && token !in s.workers ==>
            IsStartedFor(s.table, agentId, claims, u.workers[token], token))
    case Work(token, fate, clock) =>
      token in s.workers && u.workers == s.workers[token := Advance(s.workers[token], fate, clock)]
    case _ => u.workers == s.workers
  }

  /** The worker was started for the claimed row that drew this token. */
  ghost predicate IsStartedFor(t: Table, agentId: string, claims: map<Id, Token>, w: Worker, token: Token) {
    w.id in claims && claims[w.id] == token && w.id in t.rows && w == Started(t, agentId, w.id, token)
  }

  ghost predicate Moves(s: System, m: Move, u: System) {
    && Enabled(s.table, EventOf(s, m))
    && u.table == Apply(s.table, EventOf(s, m))
    && WorkersMove(s, m, u)
  }

  ghost predicate MoveAt(states: seq<System>, moves: seq<Move>, i: nat)
    requires i < |moves| < |states|
  {
    Moves(states[i], moves[i], states[i + 1])
  }

  ghost predicate IsHistory(states: seq<System>, moves: seq<Move>) {
    && |states| == |moves| + 1
    && states[0] == System(Table(map[], states[0].table.now, map[], {}), map[])
    && forall i :: 0 <= i < |moves| ==> MoveAt(states, moves, i)
  }

  ghost predicate Sound(s: System) {
    TableFits(s.table) && forall token :: token in s.workers ==>
      s.workers[token].token == token && Fits(s.table, s.workers[token])
  }

  lemma MoveKeepsWorker(s: System, m: Move, u: System, token: Token)
    requires Sound(s) && Moves(s, m, u) && token in u.workers
    ensures u.workers[token].token == token && Fits(u.table, u.workers[token])
  {
    hide Injective, Backoff, TableFits, Fits, Apply;
    var e := EventOf(s, m);
    if m.Work? && m.token == token {
      OwnStepKeepsFit(s.table, s.workers[token], m.fate, m.clock);
    } else if token in s.workers {
      var w := s.workers[token];
      assert !Presents(e, w.id, token) || e.Heartbeat? by { OnlyTheHolderPresents(s, m, token); }
      OthersKeepFit(s.table, w, e);
    } else {
      StartedWorkerFits(s.table, m, u.workers[token], token);
    }
  }

  /** Tokens are the workers' own: another worker's statement never bears this one's. */
  lemma OnlyTheHolderPresents(s: System, m: Move, token: Token)
    requires Sound(s) && token in s.workers && !(m.Work? && m.token == token)
    requires m.Work? ==> m.token in s.workers
    ensures var e := EventOf(s, m); !Presents(e, s.workers[token].id, token) || e.Heartbeat?
  {
    hide TableFits, Fits;
  }

  lemma StartedWorkerFits(t: Table, m: Move, w: Worker, token: Token)
    requires TableFits(t) && m.Deliver? && Enabled(t, Claim(m.agentId, m.claims, m.timeout))
    requires IsStartedFor(t, m.agentId, m.claims, w, token)
    ensures w.token == token && Fits(Apply(t, Claim(m.agentId, m.claims, m.timeout)), w)
  {
    hide Injective, Backoff, TokensOf, ClaimRows;
    ClaimRowsAt(t.rows, m.claims, t.now + m.timeout);
    TokensAreCounted(m.claims);
    assert Claimable(t, m.agentId, w.id);
  }

  lemma EmptyTableFits(t: Table)
    requires t.rows == map[]
    ensures TableFits(t)
  {
  }

  lemma {:induction false} EveryHistoryIsSound(states: seq<System>, moves: seq<Move>, n: nat)
    requires IsHistory(states, moves) && n <= |moves|
    ensures Sound(states[n])
  {
    hide Fits, Injective, Backoff, Apply, Enabled, EventOf, Effect, TableFits, WorkersMove;
    if n == 0 {
      EmptyTableFits(states[0].table);
    } else {
      EveryHistoryIsSound(states, moves, n - 1);
      assert MoveAt(states, moves, n - 1);
      var s, m, u := states[n - 1], moves[n - 1], states[n];
      EventKeepsTableFit(s.table, EventOf(s, m));
      forall token | token in u.workers
        ensures u.workers[token].token == token && Fits(u.table, u.workers[token])
      {
        MoveKeepsWorker(s, m, u, token);
      }
    }
  }

  /**
   * In every state of every history: a run that ended in success, failure or
   * expiry has its row deleted or claimed again by someone else; one that ended
   * in a retry has it deleted, claimed again or pending; and no run ever found a
   * task addressed to another agent.
   */
  lemma OutcomesAgreeWithTheQueue(states: seq<System>, moves: seq<Move>, n: nat, token: Token)
    requires IsHistory(states, moves) && n <= |moves| && token in states[n].workers
    ensures var w, t := states[n].workers[token], states[n].table;
            && (w.pc in {Done(Succeeded), Done(Failed), Done(Expired)} ==> !Holds(t, w.id, token))
            && (w.pc == Done(Retry) ==> !Holds(t, w.id, token) || t.rows[w.id].status == Pending)
            && w.pc != WrongNack
  {
    EveryHistoryIsSound(states, moves, n);
    assert Fits(states[n].table, states[n].workers[token]);
  }

  /**
   * At the moment a run ends in a retry, a row it still holds becomes claimable only after
   * the backoff for its count.
   */
  lemma RetriesArePutOff(states: seq<System>, moves: seq<Move>, n: nat, token: Token)
    requires IsHistory(states, moves) && n < |moves| && token in states[n].workers && token in states[n + 1].workers
    requires states[n].workers[token].pc != Done(Retry) && states[n + 1].workers[token].pc == Done(Retry)
    ensures var w, t := states[n + 1].workers[token], states[n + 1].table;
            !Holds(t, w.id, token) || IsPutOff(t, w.id, w.receiveCount)
  {
    EveryHistoryIsSound(states, moves, n);
    assert MoveAt(states, moves, n);
    var s, m := states[n], moves[n];
    assert m.Work? && m.token == token;
    assert Fits(s.table, s.workers[token]);
    RetryIsPutOff(s.table, s.workers[token], m.fate, m.clock);
  }

  // -------------------------------------------------------- histories are queue runs

  function Tables(states: seq<System>): (tables: seq<Table>)
    ensures |tables| == |states|
    ensures forall i :: 0 <= i < |states| ==> tables[i] == states[i].table
  {
    seq(|states|, i requires 0 <= i < |states| => states[i].table)
  }

  function Events(states: seq<System>, moves: seq<Move>): (events: seq<Event>)
    requires |moves| < |states|
    ensures |events| == |moves|
    ensures forall i :: 0 <= i < |moves| ==> events[i] == EventOf(states[i], moves[i])
  {
    seq(|moves|, i requires 0 <= i < |moves| => EventOf(states[i], moves[i]))
  }

  /** Seen from the table, a history of workers is a run of the queue, so all that holds of runs holds of it. */
  lemma HistoryIsQueueRun(states: seq<System>, moves: seq<Move>)
    requires IsHistory(states, moves)
    ensures IsRun(Tables(states), Events(states, moves))
  {
    var tables, events := Tables(states), Events(states, moves);
    forall i | 0 <= i < |events|
      ensures StepAt(tables, events, i)
    {
      assert MoveAt(states, moves, i);
    }
  }

  /** A row whose deletion or re-claiming ended a worker's lease never comes back to that worker. */
  lemma {:induction false} LostLeaseStaysLost(states: seq<System>, moves: seq<Move>, i: nat, n: nat, token: Token)
    requires IsHistory(states, moves) && i <= n <= |moves| && token in states[i].workers
    requires !Holds(states[i].table, states[i].workers[token].id, token)
    ensures token in states[n].workers && states[n].workers[token].id == states[i].workers[token].id
    ensures !Holds(states[n].table, states[i].workers[token].id, token)
  {
    hide Fits, Injective, Backoff, Apply, Enabled, EventOf, Effect, TableFits;
    if i < n {
      LostLeaseStaysLost(states, moves, i, n - 1, token);
      EveryHistoryIsSound(states, moves, n - 1);
      assert MoveAt(states, moves, n - 1);
      var s := states[n - 1];
      WorkerTokenIsDrawn(s, token);
      LostLeaseIsNotRegained(s.table, EventOf(s, moves[n - 1]), s.workers[token].id, token);
    }
  }

  lemma WorkerTokenIsDrawn(s: System, token: Token)
    requires Sound(s) && token in s.workers
    ensures token in s.table.drawn
  {
    assert Fits(s.table, s.workers[token]);
  }

  lemma LostLeaseIsNotRegained(t: Table, e: Event, id: Id, token: Token)
    requires Enabled(t, e) && token in t.drawn && !Holds(t, id, token)
    ensures !Holds(Apply(t, e), id, token)
  {
    hide Injective, Backoff;
    if e.Claim? {
      ClaimRowsAt(t.rows, e.claims, t.now + e.timeout);
    }
  }

  /** A keep-alive that reaches the table gives a row that is still held another 300 seconds, and touches no other. */
  lemma KeepAliveLasts(s: System, token: Token, u: System)
    requires token in s.workers && Moves(s, KeepAlive(token, true), u)
    ensures var id := s.workers[token].id;
            && (Holds(s.table, id, token) ==>
                  Holds(u.table, id, token) && u.table.rows[id].visibleAt == s.table.now + 300.0)
            && forall j :: j in s.table.rows && (j != id || !Holds(s.table, id, token)) ==>
                 j in u.table.rows && u.table.rows[j] == s.table.rows[j]
  {
  }

  // ------------------------------------------------------------- how often a row is retried

  /** The move returns the row after a failure, and the row is still this worker's to return. */
  ghost predicate ReturnsAfterFailure(s: System, m: Move, id: Id) {
    && m.Work? && m.token in s.workers && s.workers[m.token].id == id && s.workers[m.token].pc == RetryNack
    && !m.fate.ThrowsBefore? && Holds(s.table, id, m.token)
  }

  ghost function FailureReturns(states: seq<System>, moves: seq<Move>, n: nat, id: Id): nat
    requires n <= |moves| < |states|
  {
    if n == 0 then 0
    else
      FailureReturns(states, moves, n - 1, id)
      + (if ReturnsAfterFailure(states[n - 1], moves[n - 1], id) then 1 else 0)
  }

  /** Each claim of a row pays for at most one return, and only its unfinished worker can still spend it. */
  ghost predicate ReturnsArePaidFor(s: System, id: Id, returns_: nat) {
    && (id !in s.table.sent ==> returns_ == 0)
    && (id in s.table.sent ==> returns_ == 0 || returns_ < s.table.sent[id].maxAttempts)
    && (id in s.table.rows ==>
          && returns_ <= s.table.rows[id].receiveCount
          && (s.table.rows[id].lease.Some? && s.table.rows[id].lease.value in s.workers
              && !s.workers[s.table.rows[id].lease.value].pc.Done?
              ==> returns_ < s.table.rows[id].receiveCount))
  }

  lemma {:induction false} RetriesAreBounded(states: seq<System>, moves: seq<Move>, n: nat, id: Id)
    requires IsHistory(states, moves) && n <= |moves|
    ensures ReturnsArePaidFor(states[n], id, FailureReturns(states, moves, n, id))
  {
    hide Fits, Injective, Backoff, Apply, Enabled, EventOf, Effect, TableFits, WorkersMove, ReturnsAfterFailure;
    if n > 0 {
      RetriesAreBounded(states, moves, n - 1, id);
      EveryHistoryIsSound(states, moves, n - 1);
      assert MoveAt(states, moves, n - 1);
      MovePaysForReturns(states[n - 1], moves[n - 1], states[n], id, FailureReturns(states, moves, n - 1, id));
    }
  }

  lemma MovePaysForReturns(s: System, m: Move, u: System, id: Id, returns_: nat)
    requires Sound(s) && Moves(s, m, u) && ReturnsArePaidFor(s, id, returns_)
    ensures ReturnsArePaidFor(u, id, returns_ + if ReturnsAfterFailure(s, m, id) then 1 else 0)
  {
    hide Injective, Backoff, Fits, TableFits;
    if m.Deliver? {
      DeliveryPaysForReturns(s, m, u, id, returns_);
    } else if m.Work? {
      WorkPaysForReturns(s, m, u, id, returns_);
    }
  }

  lemma DeliveryPaysForReturns(s: System, m: Move, u: System, id: Id, returns_: nat)
    requires Sound(s) && Moves(s, m, u) && ReturnsArePaidFor(s, id, returns_) && m.Deliver?
    ensures ReturnsArePaidFor(u, id, returns_)
  {
    hide Injective, Backoff, ClaimRows, TokensOf, IsStartedFor, Fits;
    ClaimRowsAt(s.table.rows, m.claims, s.table.now + m.timeout);
    assert id in s.table.rows && id !in m.claims && s.table.rows[id].lease.Some? ==>
        s.table.rows[id].lease.value in s.table.drawn;
    forall token | token in u.workers && token !in s.workers
      ensures token !in s.table.drawn
    {
      StartedTokenIsNew(s.table, m, u.workers[token], token);
    }
  }

  lemma StartedTokenIsNew(t: Table, m: Move, w: Worker, token: Token)
    requires m.Deliver? && Enabled(t, Claim(m.agentId, m.claims, m.timeout))
             && IsStartedFor(t, m.agentId, m.claims, w, token)
    ensures token !in t.drawn
  {
  }

  lemma WorkPaysForReturns(s: System, m: Move, u: System, id: Id, returns_: nat)
    requires Sound(s) && Moves(s, m, u) && ReturnsArePaidFor(s, id, returns_) && m.Work?
    ensures ReturnsArePaidFor(u, id, returns_ + if ReturnsAfterFailure(s, m, id) then 1 else 0)
  {
    hide Injective, Backoff, TableFits;
    assert Fits(s.table, s.workers[m.token]);
  }

  /** A row is returned after a failure at most `maxAttempts - 1` times, however often it is delivered. */
  lemma FailureReturnsStayBelowMaxAttempts(states: seq<System>, moves: seq<Move>, n: nat, id: Id)
    requires IsHistory(states, moves) && n <= |moves|
    ensures FailureReturns(states, moves, n, id) > 0 ==>
              && id in states[n].table.sent
              && FailureReturns(states, moves, n, id) <= states[n].table.sent[id].maxAttempts - 1
  {
    RetriesAreBounded(states, moves, n, id);
  }
}
