/**
 * What a run of services/orchestrator/src/beast.ts tells when it has ended, however the
 * handlers interleave: which statement gave it its status, and that a run halted for its
 * budget had spent it. And how long its window is.
 */
module BeastEndings {
  import opened Wrappers
  import opened Basics
  import opened Beast

  /** The step is this statement, about the run. */
  ghost predicate Makes(s: System, step: Step, statement: Pc) {
    step.Go? && step.call in s.calls && s.calls[step.call] == statement
  }

  /** The step gives the run this status: a cancellation, a halt for the budget, or the sweep of an overdue run. */
  ghost predicate GivesStatus(s: System, step: Step, id: RunId, status: Status) {
    match status
    case Running => false
    case Cancelled => Makes(s, step, Cancelling(id))
    case BudgetHalted => Makes(s, step, Halting(id))
    case Expired => step.SweepAll? && IsRunning(s.runs, id) && s.runs[id].expiresAt < s.now
  }

  lemma StatusChangesBy(config: Config, s: System, step: Step, id: RunId)
    requires Enabled(s, step) && id in s.runs
    ensures var u := Next(config, s, step);
            id in u.runs && u.runs[id].expiresAt == s.runs[id].expiresAt
            && ((u.runs[id].status == s.runs[id].status && u.runs[id].endedAt == s.runs[id].endedAt)
                || (GivesStatus(s, step, id, u.runs[id].status) && u.runs[id].endedAt == Some(s.now)))
  {
    hide RoundMicro, PcAfter, AnyRunning;
  }

  lemma NewRunsRun(config: Config, s: System, step: Step, id: RunId)
    requires Enabled(s, step) && id !in s.runs && id in Next(config, s, step).runs
    ensures var r := Next(config, s, step).runs[id];
            && r.status == Running && r.endedAt == None && step.Go?
            && s.calls[step.call].Inserting? && r.expiresAt == s.now + s.calls[step.call].minutes * 60.0
  {
    hide RoundMicro, PcAfter, AnyRunning;
  }

  /**
   * What a handler does next. It goes on to insert a run when nobody is running and there
   * is something to watch, to cancel a run that it read as running, and to halt one that is
   * running and that its cost has spent.
   */
  lemma HandlersDecide(config: Config, s: System, step: Step)
    requires Enabled(s, step) && step.Go?
    ensures var pc, then_, u := s.calls[step.call], Next(config, s, step).calls[step.call], Next(config, s, step);
            && (pc.Checking? ==>
                  (then_.Inserting? <==> (forall id :: !IsRunning(s.runs, id)) && pc.sources > 0)
                  && (then_.Inserting? || then_ == Finished))
            && (pc.Inserting? ==> (step.id in u.runs <==> (forall id :: !IsRunning(s.runs, id)))
                                  && (then_.Dispatching? <==> step.id in u.runs))
            && (pc.Reading? ==> then_ == if IsRunning(s.runs, pc.run) then Cancelling(pc.run) else Finished)
            && (pc.Adding? ==>
                  (then_ == Halting(pc.run)
                   <==> IsRunning(s.runs, pc.run) && u.runs[pc.run].accrued >= s.runs[pc.run].maxCost))
  {
    hide RoundMicro, AnyRunning;
    NobodyRuns(s.runs);
  }

  lemma NobodyRuns(runs: map<RunId, Run>)
    ensures AnyRunning(runs) <==> !forall id :: !IsRunning(runs, id)
  {
    if id :| id in runs && runs[id].status == Running {
      assert IsRunning(runs, id);
    }
  }

  ghost predicate GaveStatusAt(states: seq<System>, steps: seq<Step>, i: nat, id: RunId, r: Run)
    requires i < |steps| < |states|
  {
    GivesStatus(states[i], steps[i], id, r.status) && r.endedAt == Some(states[i].now)
  }

  /**
   * In every state of every history a run that has ended got its status and its end from one
   * statement of that kind.
   */
  lemma {:induction false} StatusTellsItsStep(config: Config, states: seq<System>, steps: seq<Step>, n: nat, id: RunId)
      returns (i: nat)
    requires IsHistory(config, states, steps) && n <= |steps|
    requires id in states[n].runs && states[n].runs[id].status != Running
    ensures i < n && GaveStatusAt(states, steps, i, id, states[n].runs[id])
  {
    hide Next, GivesStatus;
    assert StepAt(config, states, steps, n - 1);
    var s, step := states[n - 1], steps[n - 1];
    if id in s.runs {
      StatusChangesBy(config, s, step, id);
      if s.runs[id].status == states[n].runs[id].status && s.runs[id].endedAt == states[n].runs[id].endedAt {
        i := StatusTellsItsStep(config, states, steps, n - 1, id);
      } else {
        i := n - 1;
      }
    } else {
      NewRunsRun(config, s, step, id);
      assert false;
    }
  }

  ghost predicate WasSpentAt(states: seq<System>, i: nat, id: RunId) {
    i < |states| && id in states[i].runs && states[i].runs[id].accrued >= states[i].runs[id].maxCost
  }

  lemma HaltsAreDecided(config: Config, s: System, step: Step, call: CallId, id: RunId)
    requires Enabled(s, step)
    ensures var u := Next(config, s, step);
            call in u.calls && u.calls[call] == Halting(id) ==>
              || (call in s.calls && s.calls[call] == Halting(id))
              || (id in u.runs && u.runs[id].accrued >= u.runs[id].maxCost)
  {
    hide RoundMicro, AnyRunning;
  }

  /** A handler halts a run only after the run had spent its budget. */
  lemma {:induction false} HaltingHadCause(config: Config, states: seq<System>, steps: seq<Step>, n: nat, call: CallId,
                                           id: RunId) returns (i: nat)
    requires IsHistory(config, states, steps) && n <= |steps|
    requires call in states[n].calls && states[n].calls[call] == Halting(id)
    ensures i <= n && WasSpentAt(states, i, id)
  {
    hide Next;
    assert StepAt(config, states, steps, n - 1);
    HaltsAreDecided(config, states[n - 1], steps[n - 1], call, id);
    if call in states[n - 1].calls && states[n - 1].calls[call] == Halting(id) {
      i := HaltingHadCause(config, states, steps, n - 1, call, id);
    } else {
      i := n;
    }
  }

  /** A run that is halted for its budget had spent it at some time before. */
  lemma HaltedHadSpent(config: Config, states: seq<System>, steps: seq<Step>, n: nat, id: RunId) returns (i: nat)
    requires IsHistory(config, states, steps) && n <= |steps|
    requires id in states[n].runs && states[n].runs[id].status == BudgetHalted
    ensures i < n && WasSpentAt(states, i, id)
  {
    var k := StatusTellsItsStep(config, states, steps, n, id);
    i := HaltingHadCause(config, states, steps, k, steps[k].call, id);
  }

  // --------------------------------------------------------------------------- windows

  /** A handler that is about to insert a run has its window and its budget within the bounds. */
  ghost predicate RequestsAreClamped(config: Config, s: System) {
    forall call :: call in s.calls && s.calls[call].Inserting? ==>
      s.calls[call].minutes <= config.maxDuration && s.calls[call].budget <= config.maxBudget
      && (config.maxDuration >= 1.0 ==> s.calls[call].minutes >= 1.0)
  }

  lemma StepKeepsClamped(config: Config, s: System, step: Step)
    requires Enabled(s, step) && RequestsAreClamped(config, s)
    ensures RequestsAreClamped(config, Next(config, s, step))
  {
    hide RoundMicro, AnyRunning;
  }

  /** The run started at `i` with a window within the configured bounds, and has kept it. */
  ghost predicate StartedAt(config: Config, states: seq<System>, i: nat, id: RunId, r: Run)
    requires i + 1 < |states|
  {
    && id !in states[i].runs && id in states[i + 1].runs
    && r.expiresAt <= states[i].now + 60.0 * config.maxDuration && r.maxCost <= config.maxBudget
    && (config.maxDuration >= 1.0 ==> r.expiresAt >= states[i].now + 60.0)
  }

  lemma {:induction false} RequestsStayClamped(config: Config, states: seq<System>, steps: seq<Step>, n: nat)
    requires IsHistory(config, states, steps) && n <= |steps|
    ensures RequestsAreClamped(config, states[n])
  {
    hide Next;
    if n > 0 {
      RequestsStayClamped(config, states, steps, n - 1);
      assert StepAt(config, states, steps, n - 1);
      StepKeepsClamped(config, states[n - 1], steps[n - 1]);
    }
  }

  lemma RequestIsClamped(config: Config, s: System, call: CallId)
    requires RequestsAreClamped(config, s) && call in s.calls && s.calls[call].Inserting?
    ensures s.calls[call].minutes <= config.maxDuration && s.calls[call].budget <= config.maxBudget
    ensures config.maxDuration >= 1.0 ==> s.calls[call].minutes >= 1.0
  {
  }

  /** In every history each run keeps the window and the budget that it started with, and both are within the bounds. */
  lemma {:induction false} WindowsAreBounded(config: Config, states: seq<System>, steps: seq<Step>, n: nat, id: RunId)
      returns (i: nat)
    requires IsHistory(config, states, steps) && n <= |steps| && id in states[n].runs
    ensures i < n && StartedAt(config, states, i, id, states[n].runs[id])
  {
    hide Next, RequestsAreClamped;
    assert StepAt(config, states, steps, n - 1);
    var s, step := states[n - 1], steps[n - 1];
    if id in s.runs {
      i := WindowsAreBounded(config, states, steps, n - 1, id);
      StatusChangesBy(config, s, step, id);
      RunsAreKept(config, s, step, id);
    } else {
      i := n - 1;
      NewRunsRun(config, s, step, id);
      NewRunsStartAtZero(config, s, step, id);
      RequestsStayClamped(config, states, steps, n - 1);
      RequestIsClamped(config, s, step.call);
    }
  }
}
