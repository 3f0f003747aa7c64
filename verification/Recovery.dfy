/** What leases are for: a row whose workers crashed can be taken up again. */
module Recovery {
  import opened TaskQueue
  import opened AgentRuns

  lemma HistoryGoesOn(states: seq<System>, moves: seq<Move>, m: Move, u: System)
    requires IsHistory(states, moves) && Moves(states[|moves|], m, u)
    ensures IsHistory(states + [u], moves + [m])
  {
    hide Moves;
    forall i | 0 <= i < |moves + [m]|
      ensures MoveAt(states + [u], moves + [m], i)
    {
      if i < |moves| {
        assert MoveAt(states, moves, i);
      }
    }
  }

  function Redelivered(s: System, id: Id, token: Token, timeout: real): System
    requires id in s.table.rows
  {
    var agentId := s.table.rows[id].task.targetAgent;
    System(Apply(s.table, Claim(agentId, map[id := token], timeout)),
           s.workers[token := Started(s.table, agentId, id, token)])
  }

  lemma OneTokenIsDrawn(id: Id, token: Token)
    ensures TokensOf(map[id := token]) == {token}
  {
    var claims := map[id := token];
    assert claims[id] == token && token in claims.Values;
    forall t | t in claims.Values
      ensures t == token
    {
    }
  }

  /** The row has the token, one claim more, its task, and a lease for the timeout. */
  ghost predicate IsClaimed(t: Table, u: Table, id: Id, token: Token, timeout: real)
    requires id in t.rows
  {
    && Holds(u, id, token) && u.drawn == t.drawn + {token} && u.now == t.now && u.rows[id].visibleAt == t.now + timeout
    && u.rows[id].task == t.rows[id].task && u.rows[id].receiveCount == t.rows[id].receiveCount + 1
  }

  lemma RedeliveryIsAMove(s: System, id: Id, token: Token, timeout: real)
    requires Sound(s) && id in s.table.rows && s.table.rows[id].visibleAt <= s.table.now && token !in s.table.drawn
    ensures Moves(s, Deliver(s.table.rows[id].task.targetAgent, map[id := token], timeout),
            Redelivered(s, id, token, timeout))
    ensures IsClaimed(s.table, Redelivered(s, id, token, timeout).table, id, token, timeout)
  {
    hide Apply, Enabled, Fits, TableFits;
    RedeliveryIsEnabled(s.table, id, token, timeout);
    if token in s.workers { WorkerTokenIsDrawn(s, token); }
  }

  lemma RedeliveryIsEnabled(t: Table, id: Id, token: Token, timeout: real)
    requires TableFits(t) && id in t.rows && t.rows[id].visibleAt <= t.now && token !in t.drawn
    ensures var e := Claim(t.rows[id].task.targetAgent, map[id := token], timeout);
            Enabled(t, e) && IsClaimed(t, Apply(t, e), id, token, timeout)
  {
    hide Injective, ClaimRows, TokensOf, ClaimIn, IsClaimed;
    OneTokenIsInjective(id, token);
    OneClaim(t, id, token, timeout);
  }

  lemma OneClaim(t: Table, id: Id, token: Token, timeout: real)
    requires id in t.rows
    ensures IsClaimed(t, ClaimIn(t, map[id := token], timeout), id, token, timeout)
  {
    hide ClaimRows, TokensOf;
    OneTokenIsDrawn(id, token);
    ClaimRowsAt(t.rows, map[id := token], t.now + timeout);
  }

  /**
   * No row is ever lost to a crash: after any history a row that has not been
   * acknowledged needs only time before its agent can take it up again.
   */
  lemma EveryRowCanBeTakenUpAgain(states: seq<System>, moves: seq<Move>, id: Id, token: Token, timeout: real)
      returns (states': seq<System>, moves': seq<Move>)
    requires IsHistory(states, moves) && id in states[|moves|].table.rows && token !in states[|moves|].table.drawn
    ensures IsHistory(states', moves') && |moves'| == |moves| + 2 && |states'| == |moves'| + 1
    ensures states <= states' && moves <= moves'
    ensures moves'[|moves|].Wait? && moves'[|moves| + 1].Deliver? && moves'[|moves| + 1].timeout == timeout
    ensures var s, u := states[|moves|], states'[|moves'|];
            && Holds(u.table, id, token) && token in u.workers && u.table.drawn == s.table.drawn + {token}
            && u.table.rows[id].task == s.table.rows[id].task
            && u.table.rows[id].receiveCount == s.table.rows[id].receiveCount + 1
            && u.workers[token] == Worker(s.table.rows[id].task.targetAgent, id, token, s.table.rows[id].task,
                                          s.table.rows[id].receiveCount + 1, Start)
            && u.table.now == Later(s.table.now, s.table.rows[id].visibleAt)
            && u.table.rows[id].visibleAt == u.table.now + timeout
  {
    HistoryShape(states, moves);
    hide Sound, Moves, Apply, IsHistory;
    var s := states[|moves|];
    EveryHistoryIsSound(states, moves, |moves|);
    var rest := s.table.rows[id].visibleAt - s.table.now;
    var wait := Wait(if rest > 0.0 then rest else 0.0);
    var later := s.(table := s.table.(now := s.table.now + wait.dt));
    WaitingIsAMove(s, wait.dt);
    HistoryGoesOn(states, moves, wait, later);
    states', moves' := states + [later], moves + [wait];
    EveryHistoryIsSound(states', moves', |moves'|);
    RedeliveryIsAMove(later, id, token, timeout);
    var deliver := Deliver(s.table.rows[id].task.targetAgent, map[id := token], timeout);
    var u := Redelivered(later, id, token, timeout);
    HistoryGoesOn(states', moves', deliver, u);
    states', moves' := states' + [u], moves' + [deliver];
  }

  function Later(a: real, b: real): real {
    if a >= b then a else b
  }

  lemma HistoryShape(states: seq<System>, moves: seq<Move>)
    requires IsHistory(states, moves)
    ensures |states| == |moves| + 1
  {
  }

  lemma WaitingIsAMove(s: System, dt: real)
    requires dt >= 0.0
    ensures Moves(s, Wait(dt), s.(table := s.table.(now := s.table.now + dt)))
  {
  }

  /** No worker has acted, and every lease was for the timeout. */
  predicate OnlyDelivers(moves: seq<Move>, timeout: real) {
    forall m :: m in moves ==> m.Submit? || m.Wait? || (m.Deliver? && m.timeout == timeout)
  }

  lemma OnlySubmitted(id: Id, task: Task, start: real, timeout: real) returns (states: seq<System>, moves: seq<Move>)
    ensures IsHistory(states, moves) && |states| == 2 && moves == [Submit(id, task)] && OnlyDelivers(moves, timeout)
    ensures states[0].table.now == start
    ensures var t := states[1].table;
            id in t.rows && t.rows[id] == Fresh(task, start) && t.now == start && t.drawn == {}
  {
    var empty := System(Table(map[], start, map[], {}), map[]);
    var u := System(Apply(empty.table, Send(id, task)), map[]);
    states, moves := [empty, u], [Submit(id, task)];
    assert MoveAt(states, moves, 0);
  }

  /** When a row comes free for the n-th time when all its leases lapse. */
  function LapsesAt(start: real, timeout: real, n: nat): real {
    start + timeout * n as real
  }

  /** The row has been delivered `n` times, each time as soon as the lease before had lapsed. */
  ghost predicate IsDeliveredSoOften(s: System, id: Id, task: Task, n: nat, start: real, timeout: real) {
    && id in s.table.rows && s.table.rows[id].task == task && s.table.rows[id].receiveCount == n
    && s.table.rows[id].visibleAt == LapsesAt(start, timeout, n)
    && (forall token :: token in s.table.drawn ==> token < n)
    && s.table.now == LapsesAt(start, timeout, if n == 0 then 0 else n - 1)
    && (n > 0 ==> n - 1 in s.workers && s.workers[n - 1] == Worker(task.targetAgent, id, n - 1, task, n, Start))
  }

  /** However often it is delivered, a task whose workers all crash at once is delivered once more. */
  lemma {:induction false} DeliveredSoOften(id: Id, task: Task, n: nat, start: real, timeout: real)
      returns (states: seq<System>, moves: seq<Move>)
    requires timeout >= 0.0
    ensures IsHistory(states, moves) && |states| == |moves| + 1 && |moves| > 0 && OnlyDelivers(moves, timeout)
    ensures states[0].table.now == start && moves[0] == Submit(id, task)
    ensures IsDeliveredSoOften(states[|moves|], id, task, n, start, timeout)
  {
    hide IsHistory;
    if n == 0 {
      states, moves := OnlySubmitted(id, task, start, timeout);
    } else {
      var before, earlier := DeliveredSoOften(id, task, n - 1, start, timeout);
      states, moves := EveryRowCanBeTakenUpAgain(before, earlier, id, n - 1, timeout);
      assert forall i :: 0 <= i < |moves| ==> i < |earlier| ==> moves[i] == earlier[i];
      assert states[0] == before[0];
    }
  }
}
