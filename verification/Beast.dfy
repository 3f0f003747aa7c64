/**
 * Beast runs, services/orchestrator/src/beast.ts: every SQL statement of a
 * handler is one step, and the steps of any number of handlers interleave.
 *
 * A handler that crashes takes no further step. Every row of the runs table is
 * inserted by `activate`, so all of them are of mode 'beast'. Money is in
 * dollars, over the reals.
 */
module Beast {
  import opened Wrappers
  import opened Basics
  import opened Rounding

  type RunId = nat
  type CallId = nat

  datatype Status = Running | Cancelled | BudgetHalted | Expired

  datatype Run = Run(
    status: Status, endedAt: Option<real>, expiresAt: real, maxCost: real, accrued: real, dispatched: int)

  /** What the early warning computes in doubles: a total less a cost, and the 80% mark of a limit. */
  datatype Doubles = Doubles(minus: (real, real) -> real, mark: real -> real)

  datatype Config = Config(maxDuration: real, maxBudget: real, maxConcurrentTasks: int, doubles: Doubles)

  ghost predicate IsExact(d: Doubles) {
    (forall x, y :: d.minus(x, y) == x - y) && (forall x :: d.mark(x) == x * 0.8)
  }

  /** On these numbers the two comparisons of the guard come out as they would without rounding. */
  predicate AgreesOn(d: Doubles, total: real, cost: real, limit: real) {
    && (total >= d.mark(limit) <==> total >= limit * 0.8)
    && (d.minus(total, cost) < d.mark(limit) <==> total - cost < limit * 0.8)
  }

  const MICRO := 1000000.0

  /** The database rounds totals to six decimals; halves go away from zero. */
  function RoundMicro(x: real): real {
    if x >= 0.0 then Round(x, MICRO) else -Round(-x, MICRO)
  }

  function Clamp(value: real, min: real, max: real): real {
    var raised := if value > min then value else min;
    if raised < max then raised else max
  }

  /**
   * A value within its bounds is kept, one outside goes to the nearer bound; of bounds that
   * cross the upper one wins.
   */
  lemma ClampIsNearest(value: real, min: real, max: real, x: real)
    ensures min <= x <= max ==>
              min <= Clamp(value, min, max) <= max
              && Distance(Clamp(value, min, max), value) <= Distance(x, value)
    ensures max < min ==> Clamp(value, min, max) == max
  {
  }

  /** A run's budget is never above the configured ceiling, and positive exactly when the ceiling is. */
  function Budget(config: Config, asked: real): (budget: real)
    ensures budget <= config.maxBudget
    ensures budget > 0.0 <==> config.maxBudget > 0.0
  {
    Clamp(asked, 0.5, config.maxBudget)
  }

  /** It is the amount asked for, or what is nearest to it from half a dollar to the ceiling. */
  lemma BudgetIsNearest(config: Config, asked: real, x: real)
    requires 0.5 <= x <= config.maxBudget
    ensures 0.5 <= Budget(config, asked) <= config.maxBudget
    ensures Distance(Budget(config, asked), asked) <= Distance(x, asked)
  {
  }

  // ------------------------------------------------------------------- the statements

  predicate IsRunning(runs: map<RunId, Run>, id: RunId) {
    id in runs && runs[id].status == Running
  }

  /** The partial unique index: no second running run can be inserted. */
  predicate AnyRunning(runs: map<RunId, Run>) {
    exists id :: id in runs && runs[id].status == Running
  }

  function End(runs: map<RunId, Run>, id: RunId, status: Status, now: real): map<RunId, Run> {
    if id in runs then runs[id := runs[id].(status := status, endedAt := Some(now))] else runs
  }

  function Add(r: Run, cost: real): Run {
    r.(accrued := RoundMicro(r.accrued + cost))
  }

  function Swept(r: Run, now: real): Run {
    if r.status == Running && r.expiresAt < now then r.(status := Expired, endedAt := Some(now)) else r
  }

  function Sweep(runs: map<RunId, Run>, now: real): map<RunId, Run> {
    map id | id in runs :: Swept(runs[id], now)
  }

  /** The new total is at the mark or past it, and the total less this cost is not. */
  predicate Warns(d: Doubles, r: Run, cost: real) {
    r.status == Running && r.accrued >= d.mark(r.maxCost) && d.minus(r.accrued, cost) < d.mark(r.maxCost)
  }

  // ------------------------------------------------------------------------ the handlers

  /** The next statement of a handler, or what became of it. */
  datatype Pc =
    | Checking(minutes: real, budget: real, sources: nat)
    | Inserting(minutes: real, budget: real)
    | Dispatching(run: RunId, dispatched: int)
    | Reading(run: RunId)
    | Cancelling(run: RunId)
    | Adding(run: RunId, cost: real)
    | Halting(run: RunId)
    | Warning(run: RunId)
    | Warned(run: RunId)
    | Finished

  datatype Step =
    | Call(call: CallId, pc: Pc)
    | Go(call: CallId, id: RunId, dispatched: int)
    | SweepAll
    | Tick(dt: real)

  datatype System = System(runs: map<RunId, Run>, now: real, calls: map<CallId, Pc>)

  /** A handler is entered at its first statement; a new run's id has never been used. */
  predicate Enabled(s: System, step: Step) {
    match step
    case Call(call, pc) => call !in s.calls && (pc.Checking? || pc.Reading? || pc.Adding?)
    case Go(call, id, _) => call in s.calls && (s.calls[call].Inserting? ==> id !in s.runs)
    case SweepAll => true
    case Tick(dt) => dt >= 0.0
  }

  function RunsAfter(s: System, pc: Pc, id: RunId): map<RunId, Run> {
    match pc
    case Inserting(minutes, budget) =>
      if AnyRunning(s.runs) then s.runs
      else s.runs[id := Run(Running, None, s.now + minutes * 60.0, budget, 0.0, 0)]
    case Dispatching(run, dispatched) =>
      if run in s.runs then s.runs[run := s.runs[run].(dispatched := dispatched)] else s.runs
    case Cancelling(run) => End(s.runs, run, Cancelled, s.now)
    case Adding(run, cost) => if run in s.runs then s.runs[run := Add(s.runs[run], cost)] else s.runs
    case Halting(run) => End(s.runs, run, BudgetHalted, s.now)
    case _ => s.runs
  }

  /** What an accrual does after its update: halt a run that is spent, warn of one past its mark, or nothing. */
  function Decision(config: Config, r: Run, run: RunId, cost: real): Pc {
    if r.status == Running && r.accrued >= r.maxCost then Halting(run)
    else if Warns(config.doubles, r, cost) then Warning(run)
    else Finished
  }

  function PcAfter(config: Config, s: System, pc: Pc, id: RunId, dispatched: int): Pc {
    match pc
    case Checking(minutes, budget, sources) =>
      if AnyRunning(s.runs) || sources == 0 then Finished
      else Inserting(Clamp(minutes, 1.0, config.maxDuration), Budget(config, budget))
    case Inserting(_, _) => if AnyRunning(s.runs) then Finished else Dispatching(id, dispatched)
    case Dispatching(_, _) => Finished
    case Reading(run) => if IsRunning(s.runs, run) then Cancelling(run) else Finished
    case Cancelling(_) => Finished
    case Adding(run, cost) =>
      if run !in s.runs then Finished else Decision(config, Add(s.runs[run], cost), run, cost)
    case Halting(_) => Finished
    case Warning(run) => Warned(run)
    case Warned(_) => pc
    case Finished => pc
  }

  function Next(config: Config, s: System, step: Step): System
    requires Enabled(s, step)
  {
    match step
    case Call(call, pc) => s.(calls := s.calls[call := pc])
    case Go(call, id, dispatched) =>
      System(RunsAfter(s, s.calls[call], id), s.now, s.calls[call := PcAfter(config, s, s.calls[call], id, dispatched)])
    case SweepAll => s.(runs := Sweep(s.runs, s.now))
    case Tick(dt) => s.(now := s.now + dt)
  }

  ghost predicate StepAt(config: Config, states: seq<System>, steps: seq<Step>, i: nat)
    requires i < |steps| < |states|
  {
    Enabled(states[i], steps[i]) && states[i + 1] == Next(config, states[i], steps[i])
  }

  ghost predicate IsHistory(config: Config, states: seq<System>, steps: seq<Step>) {
    && |states| == |steps| + 1
    && states[0].runs == map[] && states[0].calls == map[]
    && forall i :: 0 <= i < |steps| ==> StepAt(config, states, steps, i)
  }

  // ------------------------------------------------------------------------- single flight

  ghost predicate AtMostOneRunning(runs: map<RunId, Run>) {
    forall a, b :: IsRunning(runs, a) && IsRunning(runs, b) ==> a == b
  }

  ghost predicate EndsAreKnown(runs: map<RunId, Run>) {
    forall id :: id in runs ==> (runs[id].endedAt.Some? <==> runs[id].status != Running)
  }

  lemma {:induction false} EveryHistoryIsSingleFlight(config: Config, states: seq<System>, steps: seq<Step>, n: nat)
    requires IsHistory(config, states, steps) && n <= |steps|
    ensures AtMostOneRunning(states[n].runs) && EndsAreKnown(states[n].runs)
  {
    if n > 0 {
      EveryHistoryIsSingleFlight(config, states, steps, n - 1);
      assert StepAt(config, states, steps, n - 1);
      StepIsSingleFlight(config, states[n - 1], steps[n - 1]);
    }
  }

  lemma StepIsSingleFlight(config: Config, s: System, step: Step)
    requires Enabled(s, step) && AtMostOneRunning(s.runs) && EndsAreKnown(s.runs)
    ensures var u := Next(config, s, step); AtMostOneRunning(u.runs) && EndsAreKnown(u.runs)
  {
    hide RoundMicro, PcAfter;
    var u := Next(config, s, step);
    forall a, b | IsRunning(u.runs, a) && IsRunning(u.runs, b)
      ensures a == b
    {
      StepStartsAtMostOne(config, s, step, a);
      StepStartsAtMostOne(config, s, step, b);
    }
  }

  /** A run is running after a step if it was before, or was inserted when none was. */
  lemma StepStartsAtMostOne(config: Config, s: System, step: Step, id: RunId)
    requires Enabled(s, step) && IsRunning(Next(config, s, step).runs, id)
    ensures IsRunning(s.runs, id) || (!AnyRunning(s.runs) && id !in s.runs && step.Go? && step.id == id)
  {
    hide RoundMicro, PcAfter, AnyRunning;
  }

  /** A run that is not running never runs again. */
  lemma {:induction false} EndedStaysEnded(config: Config, states: seq<System>, steps: seq<Step>, i: nat, n: nat,
                                           id: RunId)
    requires IsHistory(config, states, steps) && i <= n <= |steps|
    requires id in states[i].runs && states[i].runs[id].status != Running
    ensures id in states[n].runs && states[n].runs[id].status != Running
  {
    if i < n {
      EndedStaysEnded(config, states, steps, i, n - 1, id);
      assert StepAt(config, states, steps, n - 1);
      RunsAreKept(config, states[n - 1], steps[n - 1], id);
    }
  }

  lemma RunsAreKept(config: Config, s: System, step: Step, id: RunId)
    requires Enabled(s, step) && id in s.runs
    ensures var u := Next(config, s, step);
            && id in u.runs
            && (s.runs[id].status != Running ==> u.runs[id].status != Running)
            && u.runs[id].maxCost == s.runs[id].maxCost
            && (u.runs[id].accrued == if AddsTo(s, step, id) then RoundMicro(s.runs[id].accrued + CostOf(s, step))
               else s.runs[id].accrued)
  {
    hide RoundMicro, PcAfter, AnyRunning;
  }

  // ---------------------------------------------------------------------- accrued cost

  predicate AddsTo(s: System, step: Step, id: RunId) {
    && step.Go? && step.call in s.calls && s.calls[step.call].Adding? && s.calls[step.call].run == id && id in s.runs
  }

  function CostOf(s: System, step: Step): real {
    if step.Go? && step.call in s.calls && s.calls[step.call].Adding? then s.calls[step.call].cost else 0.0
  }

  /** The costs added to a run so far. */
  function Costs(states: seq<System>, steps: seq<Step>, n: nat, id: RunId): seq<real>
    requires n <= |steps| < |states|
  {
    if n == 0 then []
    else if AddsTo(states[n - 1], steps[n - 1], id)
    then Costs(states, steps, n - 1, id) + [CostOf(states[n - 1], steps[n - 1])]
    else Costs(states, steps, n - 1, id)
  }

  function Accumulate(costs: seq<real>): real {
    if costs == [] then 0.0 else RoundMicro(Accumulate(costs[..|costs| - 1]) + costs[|costs| - 1])
  }

  function Sum(costs: seq<real>): real {
    if costs == [] then 0.0 else Sum(costs[..|costs| - 1]) + costs[|costs| - 1]
  }

  /** However accruals interleave with each other and with the ends of the run, none is lost or counted twice. */
  lemma {:induction false} AccruedIsItsAccruals(config: Config, states: seq<System>, steps: seq<Step>, n: nat,
                                                id: RunId)
    requires IsHistory(config, states, steps) && n <= |steps|
    ensures id in states[n].runs ==> states[n].runs[id].accrued == Accumulate(Costs(states, steps, n, id))
    ensures id !in states[n].runs ==> Costs(states, steps, n, id) == []
  {
    hide RoundMicro, Next;
    if n > 0 {
      AccruedIsItsAccruals(config, states, steps, n - 1, id);
      assert StepAt(config, states, steps, n - 1);
      var s, step := states[n - 1], steps[n - 1];
      if id in s.runs {
        RunsAreKept(config, s, step, id);
        var costs := Costs(states, steps, n, id);
        if AddsTo(s, step, id) {
          assert costs[..|costs| - 1] == Costs(states, steps, n - 1, id);
        }
      } else {
        NewRunsStartAtZero(config, s, step, id);
      }
    }
  }

  lemma NewRunsStartAtZero(config: Config, s: System, step: Step, id: RunId)
    requires Enabled(s, step) && id !in s.runs
    ensures var u := Next(config, s, step);
            id in u.runs ==> u.runs[id].accrued == 0.0 && step.Go? && s.calls[step.call].Inserting?
                             && u.runs[id].maxCost == s.calls[step.call].budget
  {
    hide RoundMicro, PcAfter, AnyRunning;
  }

  lemma RoundMicroKeepsDecimals(x: real)
    requires IsDecimal(x, MICRO)
    ensures RoundMicro(x) == x
  {
    if x >= 0.0 {
      RoundKeepsDecimals(x, MICRO);
    } else {
      WholesNegate(x * MICRO);
      RoundKeepsDecimals(-x, MICRO);
    }
  }

  lemma WholesNegate(y: real)
    requires IsWhole(y)
    ensures IsWhole(-y)
  {
    assert -y == (-y.Floor) as real;
  }

  lemma RoundMicroIsDecimal(x: real)
    ensures IsDecimal(RoundMicro(x), MICRO)
  {
    if x >= 0.0 {
      RoundIsNearest(x, MICRO);
    } else {
      RoundIsNearest(-x, MICRO);
      WholesNegate(Round(-x, MICRO) * MICRO);
    }
  }

  /** Costs in whole millionths of a dollar add up exactly, whatever their sign. */
  lemma {:induction false} WholeCostsAddUp(costs: seq<real>)
    requires forall i :: 0 <= i < |costs| ==> IsDecimal(costs[i], MICRO)
    ensures Accumulate(costs) == Sum(costs) && IsDecimal(Sum(costs), MICRO)
  {
    hide RoundMicro, IsDecimal;
    if costs == [] {
      ZeroIsMicro();
    } else {
      var init, last := costs[..|costs| - 1], costs[|costs| - 1];
      WholeCostsAddUp(init);
      DecimalsAdd(Sum(init), last, MICRO);
      RoundMicroKeepsDecimals(Sum(init) + last);
    }
  }

  lemma ZeroIsMicro()
    ensures IsDecimal(0.0, MICRO)
  {
  }

  /** Whole millionths add up exactly. */
  lemma WholeCostsGiveTheTotalBefore(total: real, cost: real)
    requires IsDecimal(total, MICRO) && IsDecimal(cost, MICRO)
    ensures RoundMicro(total + cost) == total + cost
  {
    DecimalsAdd(total, cost, MICRO);
    RoundMicroKeepsDecimals(total + cost);
  }

  /** Adding to whole millionths rounds only what is added. */
  lemma RoundingIsLocal(total: real, cost: real)
    requires IsDecimal(total, MICRO) && total >= 0.0 && cost >= 0.0
    ensures RoundMicro(total + cost) == total + RoundMicro(cost)
  {
    Distribute(total, cost, MICRO);
    WholeShiftsFloor(total * MICRO, cost * MICRO + 0.5);
    var k := (cost * MICRO + 0.5).Floor as real;
    QuotientsOfSum(total * MICRO, k, MICRO);
    Cancel(total, MICRO);
  }

  lemma WholeShiftsFloor(w: real, x: real)
    requires IsWhole(w)
    ensures (w + x).Floor as real == w + x.Floor as real
  {
    assert (w + x).Floor == w.Floor + x.Floor;
  }

  lemma QuotientsOfSum(a: real, b: real, f: real)
    requires f > 0.0
    ensures (a + b) / f == a / f + b / f
  {
  }

  function Rounded(costs: seq<real>): (r: seq<real>)
    ensures |r| == |costs|
    ensures forall i :: 0 <= i < |costs| ==> r[i] == RoundMicro(costs[i])
  {
    seq(|costs|, i requires 0 <= i < |costs| => RoundMicro(costs[i]))
  }

  /** Non-negative costs add up as if each had been rounded on its own. */
  lemma {:induction false} CostsAddUpRounded(costs: seq<real>)
    requires forall i :: 0 <= i < |costs| ==> costs[i] >= 0.0
    ensures Accumulate(costs) == Sum(Rounded(costs))
    ensures Accumulate(costs) >= 0.0 && IsDecimal(Accumulate(costs), MICRO)
  {
    hide RoundMicro, IsDecimal;
    if costs == [] {
      ZeroIsMicro();
    } else {
      var init, last := costs[..|costs| - 1], costs[|costs| - 1];
      CostsAddUpRounded(init);
      RoundingIsLocal(Accumulate(init), last);
      RoundMicroIsDecimal(Accumulate(init) + last);
      RoundMicroIsNotNegative(last);
      assert Rounded(costs)[..|costs| - 1] == Rounded(init);
    }
  }

  lemma RoundMicroIsNotNegative(x: real)
    requires x >= 0.0
    ensures RoundMicro(x) >= 0.0
  {
    RoundKeepsDecimals(0.0, MICRO);
    RoundIsMonotone(0.0, x, MICRO);
  }

  // -------------------------------------------------------------- histories for examples

  lemma Extend(config: Config, states: seq<System>, steps: seq<Step>, step: Step)
    requires IsHistory(config, states, steps) && Enabled(states[|steps|], step)
    ensures IsHistory(config, states + [Next(config, states[|steps|], step)], steps + [step])
  {
    hide Next, Enabled;
    var states', steps' := states + [Next(config, states[|steps|], step)], steps + [step];
    forall i | 0 <= i < |steps'|
      ensures StepAt(config, states', steps', i)
    {
      if i < |steps| {
        assert StepAt(config, states, steps, i);
      }
    }
  }

  /** A single activation: its check, its insertion, and nothing else yet. */
  lemma FirstRun(config: Config, budget: real) returns (states: seq<System>, steps: seq<Step>)
    ensures IsHistory(config, states, steps) && |states| == |steps| + 1
    ensures var s := states[|steps|];
            && s.runs.Keys == {0} && s.calls == map[0 := Dispatching(0, 0)]
            && s.runs[0].status == Running && s.runs[0].accrued == 0.0 && s.runs[0].maxCost == Budget(config, budget)
  {
    hide IsHistory, Budget;
    var s0 := System(map[], 0.0, map[]);
    states, steps := [s0], [];
    NoSteps(config, s0);
    var steps1 := Call(0, Checking(1.0, budget, 1));
    Extend(config, states, steps, steps1);
    states, steps := states + [Next(config, s0, steps1)], steps + [steps1];
    var s1 := states[1];
    Extend(config, states, steps, Go(0, 0, 0));
    states, steps := states + [Next(config, s1, Go(0, 0, 0))], steps + [Go(0, 0, 0)];
    var s2 := states[2];
    Extend(config, states, steps, Go(0, 0, 0));
    states, steps := states + [Next(config, s2, Go(0, 0, 0))], steps + [Go(0, 0, 0)];
    assert states[3].calls == map[0 := Dispatching(0, 0)];
  }

  lemma NoSteps(config: Config, s: System)
    requires s.runs == map[] && s.calls == map[]
    ensures IsHistory(config, [s], [])
  {
  }

  /** One more accrual to the run, up to its decision. */
  lemma Accrual(config: Config, states: seq<System>, steps: seq<Step>, call: CallId, cost: real)
      returns (states': seq<System>, steps': seq<Step>)
    requires IsHistory(config, states, steps) && |states| == |steps| + 1
    requires 0 in states[|steps|].runs && call !in states[|steps|].calls
    ensures IsHistory(config, states', steps') && |states'| == |steps'| + 1
    ensures var s, t := states[|steps|], states'[|steps'|];
            && t.runs == s.runs[0 := Add(s.runs[0], cost)]
            && t.calls == s.calls[call := Decision(config, Add(s.runs[0], cost), 0, cost)]
  {
    hide IsHistory, RoundMicro, Decision;
    var s := states[|steps|];
    var begin := Call(call, Adding(0, cost));
    Extend(config, states, steps, begin);
    states', steps' := states + [Next(config, s, begin)], steps + [begin];
    var t := states'[|steps'|];
    Extend(config, states', steps', Go(call, 0, 0));
    states', steps' := states' + [Next(config, t, Go(call, 0, 0))], steps' + [Go(call, 0, 0)];
    assert t.calls[call := Decision(config, Add(s.runs[0], cost), 0, cost)]
           == s.calls[call := Decision(config, Add(s.runs[0], cost), 0, cost)];
  }

  lemma HistoryShape(config: Config, states: seq<System>, steps: seq<Step>)
    requires IsHistory(config, states, steps)
    ensures |states| == |steps| + 1
  {
  }

  // ----------------------------------------------------------------------- cost ceiling

  ghost predicate IsBeingHalted(s: System, id: RunId) {
    exists call :: call in s.calls && s.calls[call] == Halting(id)
  }

  /** A run past its budget is not running, unless the accrual that took it there has yet to halt it. */
  ghost predicate CeilingHolds(s: System) {
    forall id :: IsRunning(s.runs, id) && s.runs[id].accrued >= s.runs[id].maxCost ==> IsBeingHalted(s, id)
  }

  ghost predicate BudgetsArePositive(s: System) {
    forall call :: call in s.calls && s.calls[call].Inserting? ==> s.calls[call].budget > 0.0
  }

  lemma {:induction false} NoRunOutlivesItsBudget(config: Config, states: seq<System>, steps: seq<Step>, n: nat)
    requires IsHistory(config, states, steps) && n <= |steps| && config.maxBudget > 0.0
    ensures CeilingHolds(states[n]) && BudgetsArePositive(states[n])
  {
    hide Next;
    if n > 0 {
      NoRunOutlivesItsBudget(config, states, steps, n - 1);
      assert StepAt(config, states, steps, n - 1);
      StepKeepsCeiling(config, states[n - 1], steps[n - 1]);
    }
  }

  lemma StepKeepsCeiling(config: Config, s: System, step: Step)
    requires Enabled(s, step) && CeilingHolds(s) && BudgetsArePositive(s) && config.maxBudget > 0.0
    ensures CeilingHolds(Next(config, s, step)) && BudgetsArePositive(Next(config, s, step))
  {
    hide RoundMicro, AnyRunning, IsBeingHalted;
    var u := Next(config, s, step);
    forall id | IsRunning(u.runs, id) && u.runs[id].accrued >= u.runs[id].maxCost
      ensures IsBeingHalted(u, id)
    {
      StepKeepsHalting(config, s, step, id);
    }
  }

  lemma StepKeepsHalting(config: Config, s: System, step: Step, id: RunId)
    requires Enabled(s, step) && CeilingHolds(s) && BudgetsArePositive(s)
    requires var u := Next(config, s, step); IsRunning(u.runs, id) && u.runs[id].accrued >= u.runs[id].maxCost
    ensures IsBeingHalted(Next(config, s, step), id)
  {
    hide RoundMicro, AnyRunning;
    var u := Next(config, s, step);
    if AddsTo(s, step, id) {
      assert u.calls[step.call] == Halting(id);
    } else if id in s.runs {
      assert s.runs[id].accrued == u.runs[id].accrued;
      assert IsRunning(s.runs, id);
      var call :| call in s.calls && s.calls[call] == Halting(id);
      assert call in u.calls && u.calls[call] == Halting(id);
    } else {
      NewRunsStartAtZero(config, s, step, id);
    }
  }

  /** Under a ceiling of zero or less a single activation leaves a running run that is spent and that nobody halts. */
  lemma SpentAtStart(config: Config) returns (states: seq<System>, steps: seq<Step>)
    requires config.maxBudget <= 0.0
    ensures IsHistory(config, states, steps) && !CeilingHolds(states[|steps|])
  {
    states, steps := FirstRun(config, 1.0);
    var s := states[|steps|];
    assert IsRunning(s.runs, 0) && s.runs[0].accrued >= s.runs[0].maxCost;
    assert !IsBeingHalted(s, 0);
  }

  /** The cost ceiling holds in every state of every history exactly when the configured ceiling is positive. */
  lemma CeilingHoldsExactlyWhen(config: Config)
    ensures (forall states, steps, n: nat ::
               IsHistory(config, states, steps) && n <= |steps| ==> CeilingHolds(states[n]))
            <==> config.maxBudget > 0.0
  {
    hide IsHistory, CeilingHolds;
    if config.maxBudget > 0.0 {
      forall states, steps, n: nat | IsHistory(config, states, steps) && n <= |steps|
        ensures |states| == |steps| + 1 && CeilingHolds(states[n])
      {
        HistoryShape(config, states, steps);
        NoRunOutlivesItsBudget(config, states, steps, n);
      }
    } else {
      var states, steps := SpentAtStart(config);
    }
  }

  // ----------------------------------------------------------------- the code, undisturbed

  datatype AgentPlan = AgentPlan(agentId: string, maxConcurrency: int, sources: nat)

  datatype Sweeper = Sweeper(agentId: string, run: RunId, slot: int, slotCount: int)

  /** An agent's slots: its ceiling, its share of the fleet and its work, but never none. */
  function Concurrency(config: Config, plan: AgentPlan): (n: int)
    ensures n >= 1
    ensures n <= Max(1, plan.sources) && (n > 1 ==> n <= plan.maxConcurrency && 4 * n <= config.maxConcurrentTasks)
  {
    Max(1, Min(plan.maxConcurrency, Min(config.maxConcurrentTasks / 4, Max(1, plan.sources))))
  }

  /** The number of slots is within the agent's ceiling, its share of the fleet and its work. */
  predicate SlotsFit(config: Config, plan: AgentPlan, n: int) {
    n <= plan.maxConcurrency && 4 * n <= config.maxConcurrentTasks && n <= Max(1, plan.sources)
  }

  /** An agent gets as many slots as fit, and one when not even that does. */
  lemma ConcurrencyIsGreatest(config: Config, plan: AgentPlan, n: int)
    ensures SlotsFit(config, plan, Concurrency(config, plan))
            || (Concurrency(config, plan) == 1 && !SlotsFit(config, plan, 1))
    ensures SlotsFit(config, plan, n) ==> n <= Concurrency(config, plan)
  {
  }

  lemma {:induction false} SlotsInOrder(agentId: string, run: RunId, count: int, n: nat)
    ensures |Slots(agentId, run, count, n)| == n
    ensures forall i :: 0 <= i < n ==> Slots(agentId, run, count, n)[i] == Sweeper(agentId, run, i, count)
  {
    if n > 0 {
      SlotsInOrder(agentId, run, count, n - 1);
    }
  }

  /** One task per slot, numbered from 0, agent after agent. */
  lemma {:induction false} TasksByAgent(config: Config, plans: seq<AgentPlan>, run: RunId, k: nat)
    requires k < |plans|
    ensures var n, before := Concurrency(config, plans[k]), |Tasks(config, plans[..k], run)|;
            && before + n <= |Tasks(config, plans, run)|
            && forall i :: 0 <= i < n ==>
                 Tasks(config, plans, run)[before + i] == Sweeper(plans[k].agentId, run, i, n)
    ensures k == |plans| - 1 ==>
              |Tasks(config, plans, run)| == |Tasks(config, plans[..k], run)| + Concurrency(config, plans[k])
  {
    var last := plans[|plans| - 1];
    SlotsInOrder(last.agentId, run, Concurrency(config, last), Concurrency(config, last));
    if k < |plans| - 1 {
      TasksByAgent(config, plans[..|plans| - 1], run, k);
      assert plans[..|plans| - 1][..k] == plans[..k];
    }
  }

  /** There is something to watch unless every agent is without sources. */
  lemma {:induction false} NothingToWatch(plans: seq<AgentPlan>)
    ensures TotalSources(plans) == 0 <==> forall i :: 0 <= i < |plans| ==> plans[i].sources == 0
  {
    if plans != [] {
      NothingToWatch(plans[..|plans| - 1]);
    }
  }

  function TotalSources(plans: seq<AgentPlan>): nat {
    if plans == [] then 0 else TotalSources(plans[..|plans| - 1]) + plans[|plans| - 1].sources
  }

  /** One task for every slot of every agent, in order. */
  function Slots(agentId: string, run: RunId, count: int, n: nat): seq<Sweeper> {
    if n == 0 then [] else Slots(agentId, run, count, n - 1) + [Sweeper(agentId, run, n - 1, count)]
  }

  function Tasks(config: Config, plans: seq<AgentPlan>, run: RunId): seq<Sweeper> {
    if plans == [] then []
    else
      var last := plans[|plans| - 1];
      Tasks(config, plans[..|plans| - 1], run)
      + Slots(last.agentId, run, Concurrency(config, last), Concurrency(config, last))
  }

  lemma SlotsExtend(sent: seq<Sweeper>, agentId: string, run: RunId, count: int, n: nat)
    ensures sent + Slots(agentId, run, count, n + 1)
            == sent + Slots(agentId, run, count, n) + [Sweeper(agentId, run, n, count)]
  {
  }

  class BeastController {
    const config: Config
    var runs: map<RunId, Run>
    var now: real
    var tasks: seq<Sweeper>
    var warnings: seq<RunId>

    constructor (config: Config, now: real)
      ensures this.config == config && this.now == now && runs == map[] && tasks == [] && warnings == []
    {
      this.config, this.now, runs, tasks, warnings := config, now, map[], [], [];
    }

    /** Starts a run if none is running and there is something to watch; otherwise changes nothing. */
    method Activate(minutes: real, budget: real, plans: seq<AgentPlan>, id: RunId) returns (dispatched: Result<int>)
      requires id !in runs
      modifies this`runs, this`tasks
      ensures dispatched.Err? <==> AnyRunning(old(runs)) || forall i :: 0 <= i < |plans| ==> plans[i].sources == 0
      ensures dispatched.Err? ==> runs == old(runs) && tasks == old(tasks)
      ensures dispatched.Ok? ==>
                && tasks == old(tasks) + Tasks(config, plans, id) && dispatched.value == |Tasks(config, plans, id)|
                && runs == old(runs)[id := Run(Running, None, now + Clamp(minutes, 1.0, config.maxDuration) * 60.0,
                                               Budget(config, budget), 0.0, dispatched.value)]
    {
      var total := 0;
      for i := 0 to |plans|
        invariant total == TotalSources(plans[..i])
      {
        assert plans[..i + 1][..i] == plans[..i];
        total := total + plans[i].sources;
      }
      assert plans[..|plans|] == plans;
      NothingToWatch(plans);
      if AnyRunning(runs) {
        return Err("a Beast run is already active");
      }
      if total == 0 {
        return Err("no enabled sources match the requested tags");
      }
      var duration := Clamp(minutes, 1.0, config.maxDuration);
      runs := runs[id := Run(Running, None, now + duration * 60.0, Budget(config, budget), 0.0, 0)];
      var count := DispatchAll(plans, id);
      runs := runs[id := runs[id].(dispatched := count)];
      return Ok(count);
    }

    method DispatchAll(plans: seq<AgentPlan>, id: RunId) returns (dispatched: int)
      modifies this`tasks
      ensures tasks == old(tasks) + Tasks(config, plans, id) && dispatched == |Tasks(config, plans, id)|
    {
      dispatched := 0;
      for i := 0 to |plans|
        invariant tasks == old(tasks) + Tasks(config, plans[..i], id) && dispatched == |Tasks(config, plans[..i], id)|
      {
        ghost var sent := tasks;
        var concurrency := Concurrency(config, plans[i]);
        for slot := 0 to concurrency
          invariant tasks == sent + Slots(plans[i].agentId, id, concurrency, slot)
          invariant dispatched == |Tasks(config, plans[..i], id)| + |Slots(plans[i].agentId, id, concurrency, slot)|
        {
          SlotsExtend(sent, plans[i].agentId, id, concurrency, slot);
          tasks := tasks + [Sweeper(plans[i].agentId, id, slot, concurrency)];
          dispatched := dispatched + 1;
        }
        assert plans[..i + 1][..i] == plans[..i];
      }
      assert plans[..|plans|] == plans;
    }

    /** A running run ends as cancelled; any other stays as it is. */
    method Deactivate(id: RunId) returns (found: bool)
      modifies this`runs
      ensures found == (id in old(runs))
      ensures runs == if IsRunning(old(runs), id)
                      then old(runs)[id := old(runs)[id].(status := Cancelled, endedAt := Some(now))] else old(runs)
    {
      if id !in runs {
        return false;
      }
      if runs[id].status == Running {
        runs := runs[id := runs[id].(status := Cancelled, endedAt := Some(now))];
      }
      return true;
    }

    /** Adds a cost; a running run that is now spent is halted and the caller told, one that passes 80% is reported. */
    method Accrue(id: RunId, cost: real) returns (accrued: Result<real>)
      modifies this`runs, this`warnings
      ensures id !in old(runs) ==> accrued == Ok(0.0) && runs == old(runs) && warnings == old(warnings)
      ensures id in old(runs) ==>
                var r := Add(old(runs)[id], cost);
                && (accrued.Err? <==> IsRunning(old(runs), id) && r.accrued >= r.maxCost)
                && (accrued.Ok? ==> accrued.value == r.accrued)
                && runs == old(runs)[id := if accrued.Err? then r.(status := BudgetHalted, endedAt := Some(now)) else r]
                && warnings == old(warnings) + (if accrued.Ok? && Warns(config.doubles, r, cost) then [id] else [])
      ensures id in old(runs) && IsDecimal(old(runs)[id].accrued, MICRO) && IsDecimal(cost, MICRO) ==>
                var before, limit := old(runs)[id].accrued, old(runs)[id].maxCost;
                && runs[id].accrued == before + cost
                && (AgreesOn(config.doubles, before + cost, cost, limit) ==>
                      var crosses := IsRunning(old(runs), id) && before < limit * 0.8 <= before + cost < limit;
                      (warnings != old(warnings) <==> crosses))
    {
      hide RoundMicro, IsDecimal;
      if id !in runs {
        return Ok(0.0);
      }
      if IsDecimal(runs[id].accrued, MICRO) && IsDecimal(cost, MICRO) {
        WholeCostsGiveTheTotalBefore(runs[id].accrued, cost);
      }
      var r := runs[id].(accrued := RoundMicro(runs[id].accrued + cost));
      runs := runs[id := r];
      if r.status == Running && r.accrued >= r.maxCost {
        runs := runs[id := runs[id].(status := BudgetHalted, endedAt := Some(now))];
        return Err("budget exceeded");
      }
      var mark := config.doubles.mark(r.maxCost);
      if r.status == Running && r.accrued >= mark && config.doubles.minus(r.accrued, cost) < mark {
        warnings := warnings + [id];
      }
      return Ok(r.accrued);
    }

    /** Every running run past its window ends, and no other changes. */
    method ExpireOverdueRuns() returns (expired: set<RunId>)
      modifies this`runs
      ensures runs.Keys == old(runs).Keys
      ensures forall id :: id in runs ==>
                runs[id] == if id in expired then old(runs)[id].(status := Expired, endedAt := Some(now))
                            else old(runs)[id]
      ensures forall id :: id in expired <==> IsRunning(old(runs), id) && old(runs)[id].expiresAt < now
      ensures forall id :: IsRunning(runs, id) ==> runs[id].expiresAt >= now
    {
      expired := set id | id in runs && runs[id].status == Running && runs[id].expiresAt < now;
      runs := map id | id in runs ::
        if id in expired then runs[id].(status := Expired, endedAt := Some(now)) else runs[id];
    }
  }
}
