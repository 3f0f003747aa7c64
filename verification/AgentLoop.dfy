/**
 * The code of packages/agent-runtime/src/agent.ts: `runTask` as written, proved
 * to follow the machine of AgentRuns, and the concurrency accounting of `start`.
 */
module AgentLoop {
  import opened Wrappers
  import opened Basics
  import opened TaskQueue
  import opened AgentRuns

  /**
   * Everything `runTask` does not decide: what the clock says, how each of its
   * calls ends, and what other clients do to the table before each of them.
   */
  datatype Script = Script(clock: real, fates: nat -> Fate, others: nat -> seq<Event>)

  /** How far the machine still is from its end. */
  function Remaining(pc: Pc): nat {
    match pc
    case Start => 7
    case Handling => 6
    case AckOk => 5
    case ReportOk => 4
    case Catch(_) => 3
    case RetryNack | FinalAck | ExpireAck | WrongNack => 2
    case ExpireReport | FinalReport => 1
    case Done(_) => 0
  }

  /** The machine run to its end from its `k`-th step. */
  function Drive(w: Worker, t: Table, k: nat, script: Script): (Outcome, Table)
    decreases Remaining(w.pc)
  {
    if w.pc.Done? then (w.pc.outcome, t)
    else
      Drive(Advance(w, script.fates(k), script.clock),
            Apply(ApplyAll(t, script.others(k)), Effect(w, script.fates(k))), k + 1, script)
  }

  /** The other clients make possible moves and never present the token. */
  ghost predicate KeepOff(t: Table, id: Id, token: Token, events: seq<Event>)
    decreases |events|
  {
    events == []
    || (Enabled(t, events[0]) && !Presents(events[0], id, token)
        && KeepOff(Apply(t, events[0]), id, token, events[1..]))
  }

  ghost predicate OthersKeepOff(w: Worker, t: Table, k: nat, script: Script)
    decreases Remaining(w.pc)
  {
    w.pc.Done?
    || (KeepOff(t, w.id, w.token, script.others(k))
        && OthersKeepOff(Advance(w, script.fates(k), script.clock),
                         Apply(ApplyAll(t, script.others(k)), Effect(w, script.fates(k))), k + 1, script))
  }

  lemma {:induction false} KeepingOffKeepsFit(t: Table, w: Worker, events: seq<Event>)
    requires TableFits(t) && Fits(t, w) && KeepOff(t, w.id, w.token, events)
    ensures TableFits(ApplyAll(t, events)) && Fits(ApplyAll(t, events), w)
    decreases |events|
  {
    hide Fits, TableFits, Enabled, Apply;
    if events != [] {
      EventKeepsTableFit(t, events[0]);
      OthersKeepFit(t, w, events[0]);
      KeepingOffKeepsFit(Apply(t, events[0]), w, events[1..]);
    }
  }

  ghost predicate OutcomeFits(outcome: Outcome, t: Table, id: Id, token: Token, attempt: int) {
    && (outcome in {Succeeded, Failed, Expired} ==> !Holds(t, id, token))
    && (outcome == Retry ==> !Holds(t, id, token) || IsPutOff(t, id, attempt))
  }

  /** However its calls end, the outcome that a run reports is true of the table at that moment. */
  lemma {:induction false} DriveEndsRight(w: Worker, t: Table, k: nat, script: Script)
    requires TableFits(t) && Fits(t, w) && OthersKeepOff(w, t, k, script) && !w.pc.Done?
    ensures OutcomeFits(Drive(w, t, k, script).0, Drive(w, t, k, script).1, w.id, w.token, w.receiveCount)
    decreases Remaining(w.pc)
  {
    hide Fits, TableFits, Apply, Effect, KeepOff;
    var fate, mid := script.fates(k), ApplyAll(t, script.others(k));
    var next, u := Advance(w, fate, script.clock), Apply(mid, Effect(w, fate));
    KeepingOffKeepsFit(t, w, script.others(k));
    OwnStepKeepsFit(mid, w, fate, script.clock);
    if next.pc.Done? {
      LastStepFits(mid, w, fate, script.clock);
    } else {
      StepKeepsTableFit(mid, w, fate);
      DriveEndsRight(next, u, k + 1, script);
    }
  }

  lemma StepKeepsTableFit(t: Table, w: Worker, fate: Fate)
    requires TableFits(t)
    ensures TableFits(Apply(t, Effect(w, fate)))
  {
    hide TableFits;
    EventKeepsTableFit(t, Effect(w, fate));
  }

  lemma LastStepFits(t: Table, w: Worker, fate: Fate, clock: real)
    requires TableFits(t) && Fits(t, w) && !w.pc.Done? && NextPc(w, fate, clock).Done?
    ensures OutcomeFits(NextPc(w, fate, clock).outcome, Apply(t, Effect(w, fate)), w.id, w.token, w.receiveCount)
  {
    hide TableFits;
    OwnStepKeepsFit(t, w, fate, clock);
    if w.pc == RetryNack && NextPc(w, fate, clock) == Done(Retry) {
      RetryIsPutOff(t, w, fate, clock);
    }
  }

  // -------------------------------------------------------------- which outcome it is

  /** These calls return. Of a task that is run, call 1 is the handler, 2 the acknowledgement and 3 the report. */
  ghost predicate AllReturn(script: Script, from: nat, to: nat) {
    forall i :: from <= i <= to ==> script.fates(i).Returns?
  }

  /** Handling, acknowledging or reporting throws, for the first time with call `j`. */
  ghost predicate ThrowsFirstAt(script: Script, j: nat) {
    1 <= j <= 3 && !script.fates(j).Returns? && AllReturn(script, 1, j - 1)
  }

  /** It throws an error that is worth another attempt, and attempts are left. */
  ghost predicate FailsForNowAt(script: Script, task: Task, receiveCount: int, j: nat) {
    ThrowsFirstAt(script, j) && script.fates(j).retryable && receiveCount < task.maxAttempts
  }

  ghost predicate FailsForGoodAt(script: Script, task: Task, receiveCount: int, j: nat) {
    ThrowsFirstAt(script, j) && !(script.fates(j).retryable && receiveCount < task.maxAttempts)
  }

  /** How the handling of a task ends whose call `k` is the first to throw. */
  function OutcomeAfter(script: Script, task: Task, receiveCount: int, k: nat): Outcome
    requires !script.fates(k).Returns?
  {
    if script.fates(k).retryable && receiveCount < task.maxAttempts
    then if script.fates(k + 2).Returns? then Retry else Threw
    else if script.fates(k + 2).Returns? && script.fates(k + 3).Returns? then Failed else Threw
  }

  /** A task that is run ends in success, or as its first error decides. */
  ghost predicate Ends(script: Script, task: Task, receiveCount: int, outcome: Outcome) {
    || (AllReturn(script, 1, 3) && outcome == Succeeded)
    || exists k: nat :: ThrowsFirstAt(script, k) && outcome == OutcomeAfter(script, task, receiveCount, k)
  }

  lemma EndsExactly(script: Script, task: Task, receiveCount: int, outcome: Outcome)
    requires Ends(script, task, receiveCount, outcome)
    ensures outcome == Succeeded <==> AllReturn(script, 1, 3)
    ensures outcome == Retry <==> exists j: nat ::
              FailsForNowAt(script, task, receiveCount, j) && AllReturn(script, j + 2, j + 2)
    ensures outcome == Failed <==> exists j: nat ::
              FailsForGoodAt(script, task, receiveCount, j) && AllReturn(script, j + 2, j + 3)
    ensures outcome != Expired
  {
    if !AllReturn(script, 1, 3) {
      var k: nat :| ThrowsFirstAt(script, k) && outcome == OutcomeAfter(script, task, receiveCount, k);
      forall j: nat | ThrowsFirstAt(script, j)
        ensures j == k
      {
      }
      assert FailsForNowAt(script, task, receiveCount, k) || FailsForGoodAt(script, task, receiveCount, k);
    }
  }

  /** The other clients acted, and then the statement, unless the call threw before it. */
  ghost predicate IsAfter(t: Table, u: Table, others: seq<Event>, e: Event, fate: Fate) {
    u == if fate.ThrowsBefore? then ApplyAll(t, others) else Apply(ApplyAll(t, others), e)
  }

  lemma AllWentWell(script: Script, task: Task, receiveCount: int)
    requires AllReturn(script, 1, 3)
    ensures Ends(script, task, receiveCount, Succeeded)
  {
  }

  lemma EndsAfter(script: Script, task: Task, receiveCount: int, k: nat, outcome: Outcome)
    requires ThrowsFirstAt(script, k) && outcome == OutcomeAfter(script, task, receiveCount, k)
    ensures Ends(script, task, receiveCount, outcome)
  {
  }

  // -------------------------------------------------------------- the receive loop

  datatype AgentState = Offline | Starting | Idle | Working | Throttled | Degraded | Stopping

  /** One turn of the receive loop: which tasks end while it waits, the reply, and whether a signal arrives. */
  datatype Turn = Turn(ended: set<nat>, reply: Option<nat>, drain: bool)

  /** The tasks that are running, numbered as they were received, and how many have been received in all. */
  datatype Loop = Loop(running: set<nat>, received: nat, state: AgentState, draining: bool)

  /** The next `count` numbers. */
  function Tickets(from: nat, count: nat): set<nat> {
    if count == 0 then {} else Tickets(from, count - 1) + {from + count - 1}
  }

  lemma {:induction false} TicketsAreCounted(from: nat, count: nat)
    ensures |Tickets(from, count)| == count
    ensures forall k :: k in Tickets(from, count) <==> from <= k < from + count
  {
    if count > 0 {
      TicketsAreCounted(from, count - 1);
    }
  }

  /** A reply never exceeds the limit that was asked for, as `TaskTable.Receive` ensures. */
  function BatchSize(concurrency: int, s: Loop, replied: nat): nat {
    if concurrency <= |s.running| then 0 else Min(replied, BatchLimit(Min(concurrency - |s.running|, MAX_BATCH)))
  }

  function TurnOf(concurrency: int, s: Loop, t: Turn): Loop {
    var left, draining := s.running - t.ended, s.draining || t.drain;
    if concurrency <= |s.running| then Loop(left, s.received, Throttled, draining)
    else
      match t.reply
      case None => Loop(left, s.received, Degraded, draining)
      case Some(replied) =>
        var n := BatchSize(concurrency, s, replied);
        if n == 0 then Loop(left, s.received, if left == {} then Idle else Working, draining)
        else Loop(left + Tickets(s.received, n), s.received + n, Working, draining)
  }

  /** The loop after the first `n` turns; none is taken once a signal has arrived. */
  function After(concurrency: int, turns: seq<Turn>, n: nat): Loop
    requires n <= |turns|
  {
    if n == 0 then Loop({}, 0, Idle, false)
    else
      var s := After(concurrency, turns, n - 1);
      if s.draining then s else TurnOf(concurrency, s, turns[n - 1])
  }

  ghost predicate WithinCapacity(concurrency: int, s: Loop) {
    |s.running| <= Max(0, concurrency) && forall k :: k in s.running ==> k < s.received
  }

  lemma OneMoreTicket(running: set<nat>, from: nat, n: nat)
    ensures running + Tickets(from, n + 1) == running + Tickets(from, n) + {from + n}
    ensures running + Tickets(from, 0) == running
  {
  }

  lemma FewerRemain(running: set<nat>, ended: set<nat>)
    ensures |running - ended| <= |running|
  {
    assert running == (running - ended) + (running * ended);
  }

  lemma TurnStaysWithin(concurrency: int, s: Loop, t: Turn)
    requires WithinCapacity(concurrency, s)
    ensures WithinCapacity(concurrency, TurnOf(concurrency, s, t))
  {
    hide Tickets;
    var left := s.running - t.ended;
    FewerRemain(s.running, t.ended);
    if concurrency > |s.running| && t.reply.Some? {
      var n := BatchSize(concurrency, s, t.reply.value);
      TicketsAreCounted(s.received, n);
      assert left !! Tickets(s.received, n);
      assert |left + Tickets(s.received, n)| == |left| + n;
    }
  }

  /**
   * A turn without room takes nothing; one with room takes all of the reply, up to the
   * room and to ten. The tasks that ended are gone, the others run on beside the new
   * ones, and the agent is idle exactly when none is left.
   */
  lemma TurnTells(concurrency: int, s: Loop, t: Turn)
    ensures var u, room := TurnOf(concurrency, s, t), concurrency - |s.running|;
            && (u.draining <==> s.draining || t.drain)
            && (forall k :: k in u.running <==> (k in s.running && k !in t.ended) || s.received <= k < u.received)
            && (room <= 0 ==> u.state == Throttled && u.received == s.received)
            && (room > 0 && t.reply.None? ==> u.state == Degraded && u.received == s.received)
            && (room > 0 && t.reply.Some? ==>
                  && u.received == s.received + Min(t.reply.value, Min(room, 10))
                  && u.state == if u.running == {} then Idle else Working)
  {
    hide Tickets;
    var n := if concurrency > |s.running| && t.reply.Some? then BatchSize(concurrency, s, t.reply.value) else 0;
    TicketsAreCounted(s.received, n);
    if n > 0 { assert s.received in Tickets(s.received, n); }
  }

  /**
   * After every turn the running tasks are within the agent's concurrency. Within
   * a turn tasks end before new ones start, so no moment in between has more.
   */
  lemma {:induction false} NeverOverCommitted(concurrency: int, turns: seq<Turn>, n: nat)
    requires n <= |turns|
    ensures WithinCapacity(concurrency, After(concurrency, turns, n))
  {
    hide WithinCapacity, TurnOf;
    if n == 0 {
      NothingRuns(concurrency);
    } else {
      NeverOverCommitted(concurrency, turns, n - 1);
      if !After(concurrency, turns, n - 1).draining {
        TurnStaysWithin(concurrency, After(concurrency, turns, n - 1), turns[n - 1]);
      }
    }
  }

  lemma NothingRuns(concurrency: int)
    ensures WithinCapacity(concurrency, Loop({}, 0, Idle, false))
  {
  }

  class Agent {
    const id: string
    const concurrency: int
    const queue: TaskTable
    var state: AgentState
    var active: int
    var draining: bool
    var running: set<nat>
    var received: nat

    constructor (id: string, concurrency: Option<int>, maxConcurrency: int, queue: TaskTable)
      ensures this.id == id && this.queue == queue && state == Offline && !draining
      ensures active == 0 && running == {} && received == 0
      ensures this.concurrency <= maxConcurrency
      ensures concurrency.Some? ==> this.concurrency <= concurrency.value
      ensures this.concurrency == maxConcurrency || concurrency == Some(this.concurrency)
    {
      this.id, this.queue := id, queue;
      this.concurrency := Min(if concurrency.Some? then concurrency.value else maxConcurrency, maxConcurrency);
      active, running, received, draining, state := 0, {}, 0, false, Offline;
    }

    /** One awaited call, the next of the machine's: other clients act, then the statement takes effect, or fails to. */
    method Await(e: Event, k: nat, script: Script, ghost w: Worker) returns (fate: Fate, ghost next: Worker)
      requires !w.pc.Done? && e == Statement(w)
      modifies queue
      ensures fate == script.fates(k) && next == Advance(w, fate, script.clock)
      ensures Drive(w, old(queue.table), k, script) == Drive(next, queue.table, k + 1, script)
      ensures IsAfter(old(queue.table), queue.table, script.others(k), e, fate)
    {
      hide Apply;
      fate, next := script.fates(k), Advance(w, script.fates(k), script.clock);
      queue.table := ApplyAll(queue.table, script.others(k));
      TickZeroIsIdle(queue.table);
      if !fate.ThrowsBefore? {
        match e
        case Ack(id, token) => queue.Ack(id, token);
        case Nack(id, token, attempt) => queue.Nack(id, token, attempt);
        case _ =>
      }
    }

    /**
     * Runs one task. The result and the table are those of the machine; if the lease
     * was good and other clients keep off its token, the outcome is true of the table;
     * and which outcome it is depends on the task, the clock and the calls alone. After
     * a throw of call `j` comes, as call `j + 2`, the return or acknowledgement of the
     * task, and after that its report.
     */
    method RunTask(row: Id, token: Token, task: Task, receiveCount: int, script: Script) returns (outcome: Outcome)
      modifies queue
      ensures (outcome, queue.table)
              == Drive(Worker(id, row, token, task, receiveCount, Pc.Start), old(queue.table), 0, script)
      ensures var w := Worker(id, row, token, task, receiveCount, Pc.Start);
              && TableFits(old(queue.table)) && Fits(old(queue.table), w)
              && OthersKeepOff(w, old(queue.table), 0, script) ==>
                OutcomeFits(outcome, queue.table, row, token, receiveCount)
      ensures task.targetAgent != id && outcome == Retry ==>
                var met := ApplyAll(ApplyAll(old(queue.table), script.others(0)), script.others(1));
                queue.table == Apply(met, Nack(row, token, 1))
      ensures var mine, late := task.targetAgent == id, task.expiresAt < script.clock;
              && (outcome == Succeeded <==> mine && !late && AllReturn(script, 1, 3))
              && (outcome == Expired <==> mine && late && AllReturn(script, 1, 2))
              && (outcome == Retry <==>
                    || (!mine && AllReturn(script, 1, 1))
                    || (mine && !late && exists j: nat ::
                          FailsForNowAt(script, task, receiveCount, j) && AllReturn(script, j + 2, j + 2)))
              && (outcome == Failed <==>
                    mine && !late && exists j: nat ::
                      FailsForGoodAt(script, task, receiveCount, j) && AllReturn(script, j + 2, j + 3))
    {
      hide Fits, TableFits, OthersKeepOff, OutcomeFits, Apply, ApplyAll, Effect, FailsForNowAt, FailsForGoodAt;
      ghost var w := Worker(id, row, token, task, receiveCount, Pc.Start);
      if TableFits(queue.table) && Fits(queue.table, w) && OthersKeepOff(w, queue.table, 0, script) {
        DriveEndsRight(w, queue.table, 0, script);
      }
      TickZeroIsIdle(ApplyAll(queue.table, script.others(0)));
      var fate;
      fate, w := Await(Tick(0.0), 0, script, w);
      if task.targetAgent != id {
        outcome := ReturnToQueue(row, token, script, w);
      } else if task.expiresAt < script.clock {
        outcome := DropExpired(row, token, script, w);
      } else {
        outcome := Work(row, token, task, receiveCount, script, w);
        EndsExactly(script, task, receiveCount, outcome);
      }
    }

    /** A task for another agent goes back to the queue. */
    method ReturnToQueue(row: Id, token: Token, script: Script, ghost strayed: Worker) returns (outcome: Outcome)
      requires strayed.id == row && strayed.token == token && strayed.pc == WrongNack
      modifies queue
      ensures (outcome, queue.table) == Drive(strayed, old(queue.table), 1, script)
      ensures outcome == if AllReturn(script, 1, 1) then Retry else Threw
      ensures script.fates(1).Returns? ==>
                queue.table == Apply(ApplyAll(old(queue.table), script.others(1)), Nack(row, token, 1))
    {
      hide Apply, ApplyAll;
      var fate, next := Await(Nack(row, token, 1), 1, script, strayed);
      return if fate.Returns? then Retry else Threw;
    }

    /** A task past its deadline is acknowledged and reported, not run. */
    method DropExpired(row: Id, token: Token, script: Script, ghost expired: Worker) returns (outcome: Outcome)
      requires expired.id == row && expired.token == token && expired.pc == ExpireAck
      modifies queue
      ensures (outcome, queue.table) == Drive(expired, old(queue.table), 1, script)
      ensures outcome == if AllReturn(script, 1, 2) then Expired else Threw
    {
      hide Apply, ApplyAll;
      var fate, next := Await(Ack(row, token), 1, script, expired);
      if !fate.Returns? {
        return Threw;
      }
      fate, next := Await(Tick(0.0), 2, script, next);
      return if fate.Returns? then Expired else Threw;
    }

    /** A task that is run: the `try` block, and the `catch` block when a call threw. */
    method Work(row: Id, token: Token, task: Task, receiveCount: int, script: Script, ghost accepted: Worker)
        returns (outcome: Outcome)
      requires accepted == Worker(id, row, token, task, receiveCount, Handling)
      modifies queue
      ensures (outcome, queue.table) == Drive(accepted, old(queue.table), 1, script)
      ensures Ends(script, task, receiveCount, outcome)
    {
      hide ThrowsFirstAt, AllReturn, Ends;
      var k, w := Try(row, token, task, receiveCount, script, accepted);
      if script.fates(k).Returns? {
        AllWentWell(script, task, receiveCount);
        return Succeeded;
      }
      outcome := HandleFailure(row, token, task, receiveCount, script.fates(k).retryable, k + 1, script, w);
      EndsAfter(script, task, receiveCount, k, outcome);
    }

    /** The `try` block: handle, acknowledge, report. Call `k` is the first that throws, or the last. */
    method Try(row: Id, token: Token, task: Task, receiveCount: int, script: Script, ghost accepted: Worker)
        returns (k: nat, ghost w: Worker)
      requires accepted == Worker(id, row, token, task, receiveCount, Handling)
      modifies queue
      ensures if script.fates(k).Returns? then AllReturn(script, 1, 3) else ThrowsFirstAt(script, k)
      ensures w == accepted.(pc := if script.fates(k).Returns? then Done(Succeeded)
                                   else Catch(script.fates(k).retryable))
      ensures Drive(accepted, old(queue.table), 1, script) == Drive(w, queue.table, k + 1, script)
    {
      hide Apply, ApplyAll, Effect, IsAfter, Drive;
      var fate;
      k := 1;
      fate, w := Await(Tick(0.0), 1, script, accepted);
      if fate.Returns? {
        k := 2;
        fate, w := Await(Ack(row, token), 2, script, w);
        if fate.Returns? {
          k := 3;
          fate, w := Await(Tick(0.0), 3, script, w);
        }
      }
    }

    /** The `catch` block. */
    method HandleFailure(row: Id, token: Token, task: Task, receiveCount: int, retryable: bool, k: nat, script: Script,
                         ghost caught: Worker)
      returns (outcome: Outcome)
      requires caught == Worker(id, row, token, task, receiveCount, Catch(retryable))
      modifies queue
      ensures (outcome, queue.table) == Drive(caught, old(queue.table), k, script)
      ensures outcome ==
              if retryable && receiveCount < task.maxAttempts
              then if script.fates(k + 1).Returns? then Retry else Threw
              else if script.fates(k + 1).Returns? && script.fates(k + 2).Returns? then Failed else Threw
    {
      hide IsAfter;
      var fate;
      ghost var w;
      fate, w := Await(Tick(0.0), k, script, caught);
      if retryable && receiveCount < task.maxAttempts {
        fate, w := Await(Nack(row, token, receiveCount), k + 1, script, w);
        return if fate.Returns? then Retry else Threw;
      }
      fate, w := Await(Ack(row, token), k + 1, script, w);
      if !fate.Returns? {
        return Threw;
      }
      fate, w := Await(Tick(0.0), k + 2, script, w);
      return if fate.Returns? then Failed else Threw;
    }

    /**
     * The receive loop until a signal arrives. It goes through the specified
     * turns, the counter is the number of tasks running, and after no turn was
     * that above the agent's concurrency.
     */
    method Start(turns: seq<Turn>)
      requires state == Offline && active == 0 && running == {} && received == 0 && !draining
      modifies this
      ensures var end := After(concurrency, turns, |turns|);
              && running == end.running && received == end.received && draining == end.draining
              && active == |end.running|
              && state == if end.draining then Stopping else end.state
      ensures forall n :: 0 <= n <= |turns| ==> WithinCapacity(concurrency, After(concurrency, turns, n))
    {
      hide WithinCapacity, TurnOf;
      state := Idle;
      var i := 0;
      while i < |turns| && !draining
        invariant 0 <= i <= |turns|
        invariant Loop(running, received, state, draining) == After(concurrency, turns, i)
        invariant active == |running|
      {
        NeverOverCommitted(concurrency, turns, i);
        TakeTurn(turns[i]);
        i := i + 1;
      }
      DrainedStays(concurrency, turns, i, |turns|);
      forall n | 0 <= n <= |turns|
        ensures WithinCapacity(concurrency, After(concurrency, turns, n))
      {
        NeverOverCommitted(concurrency, turns, n);
      }
      if draining {
        state := Stopping;
      }
    }

    method TakeTurn(t: Turn)
      requires active == |running| && WithinCapacity(concurrency, Loop(running, received, state, draining))
      modifies this
      ensures Loop(running, received, state, draining)
              == TurnOf(concurrency, old(Loop(running, received, state, draining)), t)
      ensures active == |running|
    {
      hide Tickets;
      var capacity := concurrency - active;
      ghost var before := Loop(running, received, state, draining);
      EndTasks(t.ended);
      if capacity <= 0 {
        state := Throttled;
      } else {
        match t.reply
        case None => state := Degraded;
        case Some(replied) =>
          var batch := Min(replied, BatchLimit(Min(capacity, MAX_BATCH)));
          assert batch == BatchSize(concurrency, before, replied);
          if batch == 0 {
            assert active > 0 <==> running != {};
            state := if active > 0 then Working else Idle;
          } else {
            state := Working;
            StartTasks(batch);
          }
      }
      draining := draining || t.drain;
    }

    /** The counter goes down once for each running task that ends. */
    method EndTasks(ended: set<nat>)
      requires active == |running|
      modifies this`active, this`running
      ensures running == old(running) - ended && active == |running|
    {
      var ending := running * ended;
      while ending != {}
        invariant ending <= running && ending <= ended
        invariant running - ending == old(running) - ended
        invariant active == |running|
        decreases |ending|
      {
        var k :| k in ending;
        ending := ending - {k};
        running := running - {k};
        active := active - 1;
      }
    }

    /** The counter goes up once for each task received. */
    method StartTasks(batch: nat)
      requires active == |running| && forall k :: k in running ==> k < received
      modifies this`active, this`running, this`received
      ensures running == old(running) + Tickets(old(received), batch) && received == old(received) + batch
      ensures active == |running|
    {
      hide Tickets;
      ghost var first, before := received, running;
      OneMoreTicket(before, first, 0);
      for j := 0 to batch
        invariant received == first + j && running == before + Tickets(first, j)
        invariant forall k :: k in running ==> k < received
        invariant active == |running|
      {
        OneMoreTicket(before, first, j);
        StartTask();
      }
    }

    method StartTask()
      requires active == |running| && forall k :: k in running ==> k < received
      modifies this`active, this`running, this`received
      ensures running == old(running) + {old(received)} && received == old(received) + 1 && active == |running|
      ensures forall k :: k in running ==> k < received
    {
      running := running + {received};
      active := active + 1;
      received := received + 1;
    }
  }

  lemma {:induction false} DrainedStays(concurrency: int, turns: seq<Turn>, i: nat, n: nat)
    requires i <= n <= |turns| && (i < n ==> After(concurrency, turns, i).draining)
    ensures After(concurrency, turns, n) == After(concurrency, turns, i)
  {
    hide TurnOf;
    if i < n {
      DrainedStays(concurrency, turns, i, n - 1);
    }
  }

  lemma TickZeroIsIdle(t: Table)
    ensures Apply(t, Tick(0.0)) == t
  {
  }
}
