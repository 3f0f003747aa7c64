/**
 * How often a task is handled. The limit on attempts of
 * packages/agent-runtime/src/agent.ts is looked at only after a failure that the
 * worker survives; a worker that does not survive just lets its lease lapse.
 */
module Attempts {
  import opened Basics
  import opened TaskQueue
  import opened AgentRuns
  import opened Recovery

  // ------------------------------------------------------------- an account of deliveries

  /** The move claims the row from a worker that neither acknowledged nor returned it. */
  ghost predicate ClaimsLapsed(s: System, m: Move, id: Id) {
    m.Deliver? && id in m.claims && id in s.table.rows && s.table.rows[id].status == InFlight
  }

  ghost function Lapses(states: seq<System>, moves: seq<Move>, n: nat, id: Id): nat
    requires n <= |moves| < |states|
  {
    if n == 0 then 0
    else Lapses(states, moves, n - 1, id) + (if ClaimsLapsed(states[n - 1], moves[n - 1], id) then 1 else 0)
  }

  /** A worker of the row came with one of the deliveries so far, and holds the row in flight until it is done. */
  ghost predicate WorkerAccounts(t: Table, w: Worker, id: Id, ends: nat) {
    w.id == id ==>
      w.receiveCount <= ends + 1 && (Holds(t, id, w.token) && !w.pc.Done? ==> t.rows[id].status == InFlight)
  }

  /** Every delivery of the row but the current one has ended, in a return after a failure or in a lapse. */
  ghost predicate Accounts(s: System, id: Id, ends: nat) {
    && (id !in s.table.sent ==> ends == 0)
    && (id in s.table.rows ==>
          s.table.rows[id].receiveCount == ends + if s.table.rows[id].status == InFlight then 1 else 0)
    && (forall token :: token in s.workers ==> WorkerAccounts(s.table, s.workers[token], id, ends))
  }

  ghost function Ending(s: System, m: Move, id: Id): nat {
    (if ReturnsAfterFailure(s, m, id) then 1 else 0) + (if ClaimsLapsed(s, m, id) then 1 else 0)
  }

  lemma WorkKeepsAccounts(s: System, m: Move, u: System, id: Id, ends: nat)
    requires Sound(s) && Moves(s, m, u) && Accounts(s, id, ends) && m.Work?
    ensures Accounts(u, id, ends + Ending(s, m, id))
  {
    hide Injective, Backoff, TableFits;
    assert Fits(s.table, s.workers[m.token]);
    assert WorkerAccounts(s.table, s.workers[m.token], id, ends);
    forall token | token in u.workers
      ensures WorkerAccounts(u.table, u.workers[token], id, ends + Ending(s, m, id))
    {
      assert WorkerAccounts(s.table, s.workers[token], id, ends);
    }
  }

  lemma DeliveryKeepsAccounts(s: System, m: Move, u: System, id: Id, ends: nat)
    requires Sound(s) && Moves(s, m, u) && Accounts(s, id, ends) && m.Deliver?
    ensures Accounts(u, id, ends + Ending(s, m, id))
  {
    hide Injective, Backoff, TableFits, Fits, ClaimRows, TokensOf, WorkersMove, WorkerAccounts;
    ClaimRowsAt(s.table.rows, m.claims, s.table.now + m.timeout);
    if id in m.claims { ClaimedWasSent(s, m, id); }
    forall token | token in u.workers
      ensures WorkerAccounts(u.table, u.workers[token], id, ends + Ending(s, m, id))
    {
      if token in s.workers {
        EarlierWorkerAccounts(s, m, u, id, ends, token);
      } else {
        StartedWorkerAccounts(s, m, u, id, ends, token);
      }
    }
  }

  lemma EarlierWorkerAccounts(s: System, m: Move, u: System, id: Id, ends: nat, token: Token)
    requires Sound(s) && Moves(s, m, u) && m.Deliver? && token in s.workers
    requires WorkerAccounts(s.table, s.workers[token], id, ends)
    ensures token in u.workers && WorkerAccounts(u.table, u.workers[token], id, ends + Ending(s, m, id))
  {
    hide Injective, Backoff, TableFits, Fits, ClaimRows, TokensOf;
    ClaimRowsAt(s.table.rows, m.claims, s.table.now + m.timeout);
    WorkerTokenIsDrawn(s, token);
  }

  lemma StartedWorkerAccounts(s: System, m: Move, u: System, id: Id, ends: nat, token: Token)
    requires Sound(s) && Moves(s, m, u) && Accounts(s, id, ends)
    requires m.Deliver? && token in u.workers && token !in s.workers
    ensures WorkerAccounts(u.table, u.workers[token], id, ends + Ending(s, m, id))
  {
    hide Injective, Backoff, TableFits, Fits, ClaimRows, TokensOf;
    ClaimRowsAt(s.table.rows, m.claims, s.table.now + m.timeout);
    assert IsStartedFor(s.table, m.agentId, m.claims, u.workers[token], token);
    if id in m.claims { ClaimedWasSent(s, m, id); }
  }

  lemma ClaimedWasSent(s: System, m: Move, id: Id)
    requires TableFits(s.table) && m.Deliver? && Enabled(s.table, EventOf(s, m)) && id in m.claims
    ensures id in s.table.rows && id in s.table.sent && s.table.rows[id].visibleAt <= s.table.now
  {
    assert Claimable(s.table, m.agentId, id);
  }

  lemma MoveKeepsAccounts(s: System, m: Move, u: System, id: Id, ends: nat)
    requires Sound(s) && Moves(s, m, u) && Accounts(s, id, ends)
    ensures Accounts(u, id, ends + Ending(s, m, id))
  {
    hide Injective, Backoff, Fits;
    if m.Deliver? {
      DeliveryKeepsAccounts(s, m, u, id, ends);
    } else if m.Work? {
      WorkKeepsAccounts(s, m, u, id, ends);
    } else {
      forall token | token in u.workers
        ensures WorkerAccounts(u.table, u.workers[token], id, ends)
      {
        assert WorkerAccounts(s.table, s.workers[token], id, ends);
      }
    }
  }

  lemma {:induction false} EveryHistoryAccounts(states: seq<System>, moves: seq<Move>, n: nat, id: Id)
    requires IsHistory(states, moves) && n <= |moves|
    ensures Accounts(states[n], id, FailureReturns(states, moves, n, id) + Lapses(states, moves, n, id))
  {
    hide Accounts, Moves, Sound, ReturnsAfterFailure, ClaimsLapsed;
    if n == 0 {
      NothingToAccountFor(states[0], id);
    } else {
      EveryHistoryAccounts(states, moves, n - 1, id);
      EveryHistoryIsSound(states, moves, n - 1);
      assert MoveAt(states, moves, n - 1);
      MoveKeepsAccounts(states[n - 1], moves[n - 1], states[n], id,
                        FailureReturns(states, moves, n - 1, id) + Lapses(states, moves, n - 1, id));
    }
  }

  lemma NothingToAccountFor(s: System, id: Id)
    requires s.table.rows == map[] && s.workers == map[]
    ensures Accounts(s, id, 0)
  {
  }

  /**
   * In every state of every history the receive count of a row is the number of its
   * returns after a failure, plus the number of its lapsed leases, plus one while a
   * lease is running.
   */
  lemma DeliveriesAddUp(states: seq<System>, moves: seq<Move>, n: nat, id: Id)
    requires IsHistory(states, moves) && n <= |moves| && id in states[n].table.rows
    ensures states[n].table.rows[id].receiveCount
         == FailureReturns(states, moves, n, id) + Lapses(states, moves, n, id)
            + if states[n].table.rows[id].status == InFlight then 1 else 0
  {
    EveryHistoryAccounts(states, moves, n, id);
  }

  /** A worker's receive count exceeds the limit on attempts by no more than the number of lapsed leases. */
  lemma OnlyLapsesEscapeMaxAttempts(states: seq<System>, moves: seq<Move>, n: nat, token: Token)
    requires IsHistory(states, moves) && n <= |moves| && token in states[n].workers
    ensures var w := states[n].workers[token];
            && w.receiveCount <= FailureReturns(states, moves, n, w.id) + Lapses(states, moves, n, w.id) + 1
            && w.receiveCount <= Max(1, w.task.maxAttempts) + Lapses(states, moves, n, w.id)
  {
    hide Accounts;
    var w := states[n].workers[token];
    EveryHistoryIsSound(states, moves, n);
    assert Fits(states[n].table, w);
    EveryHistoryAccounts(states, moves, n, w.id);
    WorkerIsAccountedFor(states[n], token, FailureReturns(states, moves, n, w.id) + Lapses(states, moves, n, w.id));
    FailureReturnsStayBelowMaxAttempts(states, moves, n, w.id);
  }

  lemma WorkerIsAccountedFor(s: System, token: Token, ends: nat)
    requires token in s.workers && Accounts(s, s.workers[token].id, ends)
    ensures s.workers[token].receiveCount <= ends + 1
  {
    assert WorkerAccounts(s.table, s.workers[token], s.workers[token].id, ends);
  }

  // ------------------------------------------------------------------- what a lapse takes

  /** Every lease is for at least so long. */
  ghost predicate LeasesLast(moves: seq<Move>, lease: real) {
    forall i :: 0 <= i < |moves| && moves[i].Deliver? ==> moves[i].timeout >= lease
  }

  /** Each lapse has taken a lease, and the one that is running takes another. */
  ghost predicate LapsesTakeTime(t: Table, id: Id, task: Task, due: real, lease: real) {
    && id in t.sent && t.sent[id] == task && t.now >= due
    && (id in t.rows && t.rows[id].status == InFlight ==> t.rows[id].visibleAt >= due + lease)
  }

  lemma MoveKeepsTime(s: System, m: Move, u: System, id: Id, task: Task, due: real, lease: real)
    requires Sound(s) && Moves(s, m, u) && LapsesTakeTime(s.table, id, task, due, lease)
    requires 0.0 <= lease <= KEEP_ALIVE && (m.Deliver? ==> m.timeout >= lease)
    ensures LapsesTakeTime(u.table, id, task, if ClaimsLapsed(s, m, id) then due + lease else due, lease)
  {
    hide Injective, Backoff, TableFits, Fits, ClaimRows, TokensOf, WorkersMove;
    if m.Deliver? {
      ClaimRowsAt(s.table.rows, m.claims, s.table.now + m.timeout);
      if id in m.claims { ClaimedWasSent(s, m, id); }
    } else if m.Work? && m.token in s.workers {
      assert Fits(s.table, s.workers[m.token]);
    }
  }

  lemma {:induction false} LapsesTookTime(states: seq<System>, moves: seq<Move>, k: nat, n: nat, id: Id, task: Task,
                                          lease: real)
    requires IsHistory(states, moves) && k < n <= |moves| && moves[k] == Submit(id, task)
    requires LeasesLast(moves, lease) && 0.0 <= lease <= KEEP_ALIVE
    ensures var due := LapsesAt(states[k].table.now, lease, Lapses(states, moves, n, id));
            LapsesTakeTime(states[n].table, id, task, due, lease)
  {
    hide LapsesTakeTime, Moves, Sound, ClaimsLapsed, LapsesAt;
    EveryHistoryIsSound(states, moves, n - 1);
    assert MoveAt(states, moves, n - 1);
    if n == k + 1 {
      EveryHistoryAccounts(states, moves, k, id);
      SubmittedJustNow(states[k], moves[k], states[n], id, task, lease,
                       FailureReturns(states, moves, k, id) + Lapses(states, moves, k, id));
      NoLapse(states[k].table.now, lease);
    } else {
      LapsesTookTime(states, moves, k, n - 1, id, task, lease);
      var before := Lapses(states, moves, n - 1, id);
      var due := LapsesAt(states[k].table.now, lease, before);
      MoveKeepsTime(states[n - 1], moves[n - 1], states[n], id, task, due, lease);
      OneMoreLapse(states[k].table.now, lease, before);
    }
  }

  lemma NoLapse(start: real, lease: real)
    ensures LapsesAt(start, lease, 0) == start
  {
  }

  lemma OneMoreLapse(start: real, lease: real, n: nat)
    ensures LapsesAt(start, lease, n + 1) == LapsesAt(start, lease, n) + lease
  {
  }

  lemma SubmittedJustNow(s: System, m: Move, u: System, id: Id, task: Task, lease: real, ends: nat)
    requires m == Submit(id, task) && Moves(s, m, u) && Accounts(s, id, ends)
    ensures LapsesTakeTime(u.table, id, task, s.table.now, lease) && ends == 0 && !ClaimsLapsed(s, m, id)
  {
    hide Injective, Backoff;
  }

  /**
   * The move is a worker's decision to handle the task of the row, for the n-th time, by a
   * clock that is not behind the table's.
   */
  ghost predicate TurnsToHandling(s: System, m: Move, id: Id, n: int) {
    && m.Work? && m.token in s.workers && m.clock >= s.table.now
    && var w := s.workers[m.token];
       w.id == id && w.receiveCount == n && w.pc == Start && NextPc(w, m.fate, m.clock) == Handling
  }

  /**
   * A task that is handled has not expired, so the lapses of its leases fit into its
   * life: by clocks that are not behind the table's it is handled at most
   * max(1, maxAttempts) times, and once more for every lease of its life.
   */
  lemma HandlingsAreBounded(states: seq<System>, moves: seq<Move>, k: nat, i: nat, id: Id, task: Task, n: int,
                            lease: real)
    requires IsHistory(states, moves) && k < i < |moves| && moves[k] == Submit(id, task)
    requires LeasesLast(moves, lease) && 0.0 <= lease <= KEEP_ALIVE
    requires TurnsToHandling(states[i], moves[i], id, n)
    ensures n <= FailureReturns(states, moves, i, id) + Lapses(states, moves, i, id) + 1
    ensures n <= Max(1, task.maxAttempts) + Lapses(states, moves, i, id)
    ensures LapsesAt(states[k].table.now, lease, Lapses(states, moves, i, id)) <= task.expiresAt
  {
    hide LapsesAt;
    EveryHistoryIsSound(states, moves, i);
    assert Fits(states[i].table, states[i].workers[moves[i].token]);
    LapsesTookTime(states, moves, k, i, id, task, lease);
    OnlyLapsesEscapeMaxAttempts(states, moves, i, moves[i].token);
  }

  // ----------------------------------------------------------------- crashes and nothing else

  /**
   * Sent at `start` and leased for `lease` each time, never returned, and handled for the
   * n-th time with the last move.
   */
  ghost predicate CrashesUntil(states: seq<System>, moves: seq<Move>, id: Id, task: Task, n: int, start: real,
                               lease: real) {
    && IsHistory(states, moves) && |moves| > 1 && moves[0] == Submit(id, task) && states[0].table.now == start
    && (forall i :: 0 <= i < |moves| && moves[i].Deliver? ==> moves[i].timeout == lease)
    && FailureReturns(states, moves, |moves|, id) == 0
    && TurnsToHandling(states[|moves| - 1], moves[|moves| - 1], id, n)
  }

  lemma {:induction false} WithoutWorkNothingReturns(states: seq<System>, moves: seq<Move>, n: nat, id: Id)
    requires n <= |moves| < |states| && forall i :: 0 <= i < n ==> !ReturnsAfterFailure(states[i], moves[i], id)
    ensures FailureReturns(states, moves, n, id) == 0
  {
    hide ReturnsAfterFailure;
    if n > 0 {
      WithoutWorkNothingReturns(states, moves, n - 1, id);
    }
  }

  /** Crashes alone bring a task to be handled again as soon as a lease has lapsed, whatever its maxAttempts. */
  lemma CrashesEscapeMaxAttempts(id: Id, task: Task, n: nat, start: real, lease: real)
      returns (states: seq<System>, moves: seq<Move>)
    requires n > 0 && lease >= 0.0 && LapsesAt(start, lease, n - 1) <= task.expiresAt
    ensures CrashesUntil(states, moves, id, task, n, start, lease)
  {
    hide IsHistory, Apply, LapsesAt;
    var before, earlier := DeliveredSoOften(id, task, n, start, lease);
    var s := before[|earlier|];
    var w, work := s.workers[n - 1], Work(n - 1, Returns, s.table.now);
    var u := System(Apply(s.table, Effect(w, Returns)), s.workers[n - 1 := Advance(w, Returns, s.table.now)]);
    HistoryGoesOn(before, earlier, work, u);
    states, moves := before + [u], earlier + [work];
    assert moves[|moves| - 1] == work && states[|moves| - 1] == s;
    assert forall i :: 0 <= i < |earlier| ==> moves[i] == earlier[i] && earlier[i] in earlier;
    WithoutWorkNothingReturns(states, moves, |moves|, id);
  }

  /**
   * A task whose workers only crash is handled for the n-th time in some history
   * exactly when it outlives n - 1 leases; its maxAttempts has no part in that.
   */
  lemma CrashesEscapeExactlyWhen(id: Id, task: Task, n: nat, start: real, lease: real)
    requires n > 0 && 0.0 <= lease <= KEEP_ALIVE
    ensures (exists states, moves :: CrashesUntil(states, moves, id, task, n, start, lease))
        <==> LapsesAt(start, lease, n - 1) <= task.expiresAt
  {
    if LapsesAt(start, lease, n - 1) <= task.expiresAt {
      var states, moves := CrashesEscapeMaxAttempts(id, task, n, start, lease);
    }
    forall states, moves | CrashesUntil(states, moves, id, task, n, start, lease)
      ensures LapsesAt(start, lease, n - 1) <= task.expiresAt
    {
      CrashesFitIntoLife(states, moves, id, task, n, start, lease);
    }
  }

  lemma LaterLapses(start: real, lease: real, m: nat, n: nat)
    requires m <= n && lease >= 0.0
    ensures LapsesAt(start, lease, m) <= LapsesAt(start, lease, n)
  {
    assert lease * (n - m) as real >= 0.0;
  }

  lemma CrashesFitIntoLife(states: seq<System>, moves: seq<Move>, id: Id, task: Task, n: nat, start: real, lease: real)
    requires CrashesUntil(states, moves, id, task, n, start, lease) && n > 0 && 0.0 <= lease <= KEEP_ALIVE
    ensures LapsesAt(start, lease, n - 1) <= task.expiresAt
  {
    hide Moves, TurnsToHandling;
    HistoryShape(states, moves);
    var i := |moves| - 1;
    HandlingsAreBounded(states, moves, 0, i, id, task, n, lease);
    assert FailureReturns(states, moves, i, id) == 0;
    LaterLapses(start, lease, n - 1, Lapses(states, moves, i, id));
  }
}
