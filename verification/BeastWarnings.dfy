/**
 * The 80% event of services/orchestrator/src/beast.ts: when a history publishes it
 * at most once for a run, when it misses it, and when exactly once. The guard
 * subtracts and multiplies in doubles, so these are parameters.
 */
module BeastWarnings {
  import opened Rounding
  import opened Beast

  predicate HasWarned(pc: Pc, id: RunId) {
    pc == Warning(id) || pc == Warned(id)
  }

  /** Some accrual has published the warning of the run, or is about to. */
  ghost predicate WasWarned(s: System, id: RunId) {
    exists call :: call in s.calls && HasWarned(s.calls[call], id)
  }

  ghost predicate AtMostOneWarning(s: System) {
    forall a, b, id :: a in s.calls && b in s.calls && HasWarned(s.calls[a], id) && HasWarned(s.calls[b], id) ==> a == b
  }

  predicate IsAccrual(s: System, step: Step) {
    step.Go? && step.call in s.calls && s.calls[step.call].Adding? && s.calls[step.call].run in s.runs
  }

  /** The step is an accrual that decides to warn of a run that has been warned of already. */
  ghost predicate Repeats(config: Config, s: System, step: Step) {
    IsAccrual(s, step) &&
    var pc := s.calls[step.call];
    WasWarned(s, pc.run) && Decision(config, Add(s.runs[pc.run], pc.cost), pc.run, pc.cost) == Warning(pc.run)
  }

  /** What a step does to the warnings: an accrual may add one, and none is ever taken back. */
  lemma StepAddsWarning(config: Config, s: System, step: Step, call: CallId, id: RunId)
    requires Enabled(s, step)
    ensures var u := Next(config, s, step);
            call in u.calls && HasWarned(u.calls[call], id) <==>
              || (call in s.calls && HasWarned(s.calls[call], id))
              || (IsAccrual(s, step) && call == step.call && id == s.calls[call].run
                  && Decision(config, Add(s.runs[id], s.calls[call].cost), id, s.calls[call].cost) == Warning(id))
  {
    hide RoundMicro, AnyRunning, RunsAfter;
  }

  lemma StepWarnsOnce(config: Config, s: System, step: Step)
    requires Enabled(s, step) && AtMostOneWarning(s)
    ensures AtMostOneWarning(Next(config, s, step)) <==> !Repeats(config, s, step)
  {
    hide Next, HasWarned, Decision, Enabled;
    var u := Next(config, s, step);
    if Repeats(config, s, step) {
      var id := s.calls[step.call].run;
      var other :| other in s.calls && HasWarned(s.calls[other], id);
      AddingHasNotWarned(s.calls[step.call], id);
      StepAddsWarning(config, s, step, other, id);
      StepAddsWarning(config, s, step, step.call, id);
      assert other != step.call && other in u.calls && HasWarned(u.calls[other], id);
      assert step.call in u.calls && HasWarned(u.calls[step.call], id);
      assert !AtMostOneWarning(u);
    } else {
      forall a, b, id | a in u.calls && b in u.calls && HasWarned(u.calls[a], id) && HasWarned(u.calls[b], id)
        ensures a == b
      {
        StepAddsWarning(config, s, step, a, id);
        StepAddsWarning(config, s, step, b, id);
        WarningIsWarned(s, a, id);
        WarningIsWarned(s, b, id);
      }
    }
  }

  lemma AddingHasNotWarned(pc: Pc, id: RunId)
    requires pc.Adding?
    ensures !HasWarned(pc, id)
  {
  }

  /**
   * Whatever the arithmetic and the costs: a history warns at most once of each run exactly
   * when no accrual repeats.
   */
  lemma {:induction false} WarnsOnceExactlyWhenNothingRepeats(config: Config, states: seq<System>, steps: seq<Step>,
                                                              n: nat)
    requires IsHistory(config, states, steps) && n <= |steps|
    ensures (forall k :: 0 <= k <= n ==> AtMostOneWarning(states[k]))
            <==> (forall i :: 0 <= i < n ==> !Repeats(config, states[i], steps[i]))
  {
    hide Next, AtMostOneWarning, Repeats, Enabled;
    if n == 0 {
      NobodyWarned(states[0]);
    } else {
      WarnsOnceExactlyWhenNothingRepeats(config, states, steps, n - 1);
      assert StepAt(config, states, steps, n - 1);
      if AtMostOneWarning(states[n - 1]) {
        StepWarnsOnce(config, states[n - 1], steps[n - 1]);
      }
    }
  }

  lemma NobodyWarned(s: System)
    requires s.calls == map[]
    ensures AtMostOneWarning(s)
  {
  }

  // -------------------------------------------------------------------- no warning missed

  predicate IsPastTheMark(r: Run) {
    r.status == Running && r.maxCost * 0.8 <= r.accrued < r.maxCost
  }

  /** Every running run that is past its mark and not spent was warned of. */
  ghost predicate NoneIsMissed(s: System) {
    forall id :: id in s.runs && IsPastTheMark(s.runs[id]) ==> WasWarned(s, id)
  }

  /** An accrual that leaves a run past its mark, was not preceded by a warning and does not decide on one. */
  ghost predicate MissesAt(config: Config, s: System, step: Step) {
    IsAccrual(s, step) &&
    var pc := s.calls[step.call];
    var after := Add(s.runs[pc.run], pc.cost);
    IsPastTheMark(after) && !WasWarned(s, pc.run) && Decision(config, after, pc.run, pc.cost) != Warning(pc.run)
  }

  lemma WarningsStay(config: Config, s: System, step: Step, id: RunId)
    requires Enabled(s, step)
    ensures WasWarned(s, id) ==> WasWarned(Next(config, s, step), id)
  {
    hide Next, Enabled, HasWarned;
    if WasWarned(s, id) {
      var call :| call in s.calls && HasWarned(s.calls[call], id);
      StepAddsWarning(config, s, step, call, id);
    }
  }

  lemma WarningIsWarned(u: System, call: CallId, id: RunId)
    ensures call in u.calls && HasWarned(u.calls[call], id) ==> WasWarned(u, id)
  {
  }

  lemma NoNewWarning(config: Config, s: System, step: Step, id: RunId)
    requires Enabled(s, step) && IsAccrual(s, step) && id == s.calls[step.call].run && !WasWarned(s, id)
    requires Decision(config, Add(s.runs[id], s.calls[step.call].cost), id, s.calls[step.call].cost) != Warning(id)
    ensures !WasWarned(Next(config, s, step), id)
  {
    hide Next, Enabled, HasWarned, Decision;
    var u := Next(config, s, step);
    if WasWarned(u, id) {
      var call :| call in u.calls && HasWarned(u.calls[call], id);
      StepAddsWarning(config, s, step, call, id);
    }
  }

  lemma PastTheMarkIsWarned(config: Config, s: System, step: Step, id: RunId)
    requires Enabled(s, step) && NoneIsMissed(s) && !MissesAt(config, s, step)
    requires var u := Next(config, s, step); id in u.runs && IsPastTheMark(u.runs[id])
    ensures WasWarned(Next(config, s, step), id)
  {
    hide RoundMicro, Next, Enabled, HasWarned, WasWarned, Decision;
    WarningsStay(config, s, step, id);
    if id !in s.runs {
      NewRunsStartAtZero(config, s, step, id);
    } else if AddsTo(s, step, id) {
      AccruedRun(config, s, step);
      if !WasWarned(s, id) {
        WarningAppears(config, s, step, id);
      }
    } else {
      RunsAreKept(config, s, step, id);
    }
  }

  lemma AccruedRun(config: Config, s: System, step: Step)
    requires Enabled(s, step) && IsAccrual(s, step)
    ensures var pc, u := s.calls[step.call], Next(config, s, step);
            pc.run in u.runs && u.runs[pc.run] == Add(s.runs[pc.run], pc.cost)
  {
    hide RoundMicro, PcAfter;
  }

  lemma WarningAppears(config: Config, s: System, step: Step, id: RunId)
    requires Enabled(s, step) && IsAccrual(s, step) && id == s.calls[step.call].run
    requires Decision(config, Add(s.runs[id], s.calls[step.call].cost), id, s.calls[step.call].cost) == Warning(id)
    ensures WasWarned(Next(config, s, step), id)
  {
    hide RoundMicro, Next, Decision;
    StepAddsWarning(config, s, step, step.call, id);
    WarningIsWarned(Next(config, s, step), step.call, id);
  }

  lemma StepMissesNone(config: Config, s: System, step: Step)
    requires Enabled(s, step) && NoneIsMissed(s)
    ensures NoneIsMissed(Next(config, s, step)) <==> !MissesAt(config, s, step)
  {
    hide RoundMicro, Next, Enabled, WasWarned, IsPastTheMark, Decision;
    var u := Next(config, s, step);
    if MissesAt(config, s, step) {
      AccruedRun(config, s, step);
      NoNewWarning(config, s, step, s.calls[step.call].run);
    } else {
      forall id | id in u.runs && IsPastTheMark(u.runs[id])
        ensures WasWarned(u, id)
      {
        PastTheMarkIsWarned(config, s, step, id);
      }
    }
  }

  lemma NothingToMiss(s: System)
    requires s.runs == map[]
    ensures NoneIsMissed(s)
  {
  }

  /**
   * Whatever the arithmetic and the costs: every running run that is past its mark
   * and not spent was warned of, in every state of a history, exactly when no
   * accrual misses it.
   */
  lemma {:induction false} NoWarningIsMissed(config: Config, states: seq<System>, steps: seq<Step>, n: nat)
    requires IsHistory(config, states, steps) && n <= |steps|
    ensures (forall k :: 0 <= k <= n ==> NoneIsMissed(states[k]))
            <==> (forall i :: 0 <= i < n ==> !MissesAt(config, states[i], steps[i]))
  {
    hide Next, NoneIsMissed, MissesAt, Enabled;
    if n == 0 {
      NothingToMiss(states[0]);
    } else {
      NoWarningIsMissed(config, states, steps, n - 1);
      assert StepAt(config, states, steps, n - 1);
      if NoneIsMissed(states[n - 1]) {
        StepMissesNone(config, states[n - 1], steps[n - 1]);
      }
    }
  }

  // ------------------------------------------------------------------ warned exactly once

  /** No run was warned of before its mark. */
  ghost predicate NoneIsEarly(s: System) {
    forall id :: WasWarned(s, id) ==> id in s.runs && s.runs[id].accrued >= s.runs[id].maxCost * 0.8
  }

  /** Each run past its mark was warned of, no run twice, and none before its mark. */
  ghost predicate WarnedExactly(s: System) {
    AtMostOneWarning(s) && NoneIsMissed(s) && NoneIsEarly(s)
  }

  ghost predicate CostsAreNotNegative(s: System) {
    forall call :: call in s.calls && s.calls[call].Adding? ==> s.calls[call].cost >= 0.0
  }

  ghost predicate CostsAreWhole(s: System) {
    forall call :: call in s.calls && s.calls[call].Adding? ==> IsDecimal(s.calls[call].cost, MICRO)
  }

  /** Totals are whole millionths and not negative. */
  ghost predicate TotalsAreWhole(s: System) {
    forall id :: id in s.runs ==> IsDecimal(s.runs[id].accrued, MICRO) && s.runs[id].accrued >= 0.0
  }

  lemma AddingOnlyRaises(r: Run, cost: real)
    requires IsDecimal(r.accrued, MICRO) && r.accrued >= 0.0 && cost >= 0.0
    ensures IsDecimal(Add(r, cost).accrued, MICRO) && Add(r, cost).accrued >= r.accrued
    ensures Add(r, cost).accrued == r.accrued + RoundMicro(cost)
  {
    RoundingIsLocal(r.accrued, cost);
    RoundMicroIsDecimal(r.accrued + cost);
    RoundMicroIsNotNegative(cost);
  }

  lemma TotalsOnlyGrow(config: Config, s: System, step: Step, id: RunId)
    requires Enabled(s, step) && TotalsAreWhole(s) && CostsAreNotNegative(s) && id in s.runs
    ensures var u := Next(config, s, step);
            && id in u.runs && u.runs[id].maxCost == s.runs[id].maxCost
            && IsDecimal(u.runs[id].accrued, MICRO) && u.runs[id].accrued >= s.runs[id].accrued
  {
    hide RoundMicro, IsDecimal, Next;
    RunsAreKept(config, s, step, id);
    if AddsTo(s, step, id) {
      AddingOnlyRaises(s.runs[id], CostOf(s, step));
    }
  }

  lemma StepKeepsTotals(config: Config, s: System, step: Step)
    requires Enabled(s, step) && TotalsAreWhole(s) && CostsAreNotNegative(s)
    ensures TotalsAreWhole(Next(config, s, step))
  {
    hide RoundMicro, IsDecimal, Next, Enabled;
    var u := Next(config, s, step);
    ZeroIsMicro();
    forall id | id in u.runs
      ensures IsDecimal(u.runs[id].accrued, MICRO) && u.runs[id].accrued >= 0.0
    {
      if id in s.runs { TotalsOnlyGrow(config, s, step, id); } else { NewRunsStartAtZero(config, s, step, id); }
    }
  }

  ghost predicate NeverNegative(states: seq<System>) {
    forall n :: 0 <= n < |states| ==> CostsAreNotNegative(states[n])
  }

  lemma {:induction false} TotalsStayWhole(config: Config, states: seq<System>, steps: seq<Step>, n: nat)
    requires IsHistory(config, states, steps) && NeverNegative(states) && n <= |steps|
    ensures TotalsAreWhole(states[n])
  {
    hide Next, TotalsAreWhole, CostsAreNotNegative, Enabled;
    if n == 0 {
      NoTotals(states[0]);
    } else {
      TotalsStayWhole(config, states, steps, n - 1);
      assert StepAt(config, states, steps, n - 1);
      StepKeepsTotals(config, states[n - 1], steps[n - 1]);
    }
  }

  lemma NoTotals(s: System)
    requires s.runs == map[]
    ensures TotalsAreWhole(s)
  {
  }

  /** An accrual that decides to warn of a run that it leaves below its mark. */
  ghost predicate WarnsEarly(config: Config, s: System, step: Step) {
    IsAccrual(s, step) &&
    var pc := s.calls[step.call];
    var after := Add(s.runs[pc.run], pc.cost);
    Decision(config, after, pc.run, pc.cost) == Warning(pc.run) && after.accrued < after.maxCost * 0.8
  }

  /** An accrual that takes a run that was warned of below its mark: only a negative cost can. */
  ghost predicate FallsBack(s: System, step: Step) {
    IsAccrual(s, step) &&
    var pc := s.calls[step.call];
    var after := Add(s.runs[pc.run], pc.cost);
    WasWarned(s, pc.run) && after.accrued < after.maxCost * 0.8
  }

  lemma WarnedIsPastTheMark(config: Config, s: System, step: Step, id: RunId)
    requires Enabled(s, step) && NoneIsEarly(s) && !WarnsEarly(config, s, step) && !FallsBack(s, step)
    requires WasWarned(Next(config, s, step), id)
    ensures var u := Next(config, s, step); id in u.runs && u.runs[id].accrued >= u.runs[id].maxCost * 0.8
  {
    hide RoundMicro, Next, Enabled, HasWarned, Decision;
    var u := Next(config, s, step);
    var call :| call in u.calls && HasWarned(u.calls[call], id);
    StepAddsWarning(config, s, step, call, id);
    if AddsTo(s, step, id) {
      AccruedRun(config, s, step);
    } else {
      WarningIsWarned(s, call, id);
      RunsAreKept(config, s, step, id);
    }
  }

  lemma StepWarnsNoneEarly(config: Config, s: System, step: Step)
    requires Enabled(s, step) && NoneIsEarly(s)
    ensures NoneIsEarly(Next(config, s, step)) <==> !WarnsEarly(config, s, step) && !FallsBack(s, step)
  {
    hide RoundMicro, IsDecimal, Next, Enabled, WasWarned, Decision;
    var u := Next(config, s, step);
    if WarnsEarly(config, s, step) {
      AccruedRun(config, s, step);
      WarningAppears(config, s, step, s.calls[step.call].run);
    } else if FallsBack(s, step) {
      AccruedRun(config, s, step);
      WarningsStay(config, s, step, s.calls[step.call].run);
    } else {
      forall id | WasWarned(u, id)
        ensures id in u.runs && u.runs[id].accrued >= u.runs[id].maxCost * 0.8
      {
        WarnedIsPastTheMark(config, s, step, id);
      }
    }
  }

  /** The accrual publishes again, misses, publishes too soon, or takes back what it was published for. */
  ghost predicate Errs(config: Config, s: System, step: Step) {
    Repeats(config, s, step) || MissesAt(config, s, step) || WarnsEarly(config, s, step) || FallsBack(s, step)
  }

  lemma StepWarnsExactly(config: Config, s: System, step: Step)
    requires Enabled(s, step) && WarnedExactly(s)
    ensures WarnedExactly(Next(config, s, step)) <==> !Errs(config, s, step)
  {
    hide Next, Enabled, AtMostOneWarning, NoneIsMissed, NoneIsEarly, Repeats, MissesAt, WarnsEarly, FallsBack;
    StepWarnsOnce(config, s, step);
    StepMissesNone(config, s, step);
    StepWarnsNoneEarly(config, s, step);
  }

  /**
   * Whatever the arithmetic and the costs: in every state of a history exactly the runs
   * past their mark were warned of, each once, if and only if no accrual errs.
   */
  lemma {:induction false} WarnedExactlyWhenNothingErrs(
      config: Config, states: seq<System>, steps: seq<Step>, n: nat)
    requires IsHistory(config, states, steps) && n <= |steps|
    ensures (forall k :: 0 <= k <= n ==> WarnedExactly(states[k]))
            <==> (forall i :: 0 <= i < n ==> !Errs(config, states[i], steps[i]))
  {
    hide Next, AtMostOneWarning, NoneIsMissed, NoneIsEarly, Errs, Enabled;
    if n == 0 {
      NobodyWarned(states[0]);
      NothingToMiss(states[0]);
      NobodyIsEarly(states[0]);
    } else {
      WarnedExactlyWhenNothingErrs(config, states, steps, n - 1);
      assert StepAt(config, states, steps, n - 1);
      if WarnedExactly(states[n - 1]) {
        StepWarnsExactly(config, states[n - 1], steps[n - 1]);
      }
    }
  }

  /** On an accrual to a running run that it does not spend, the guard of the warning tells the crossing of the mark. */
  ghost predicate GuardIsRight(config: Config, s: System, step: Step) {
    IsAccrual(s, step) ==>
      var pc := s.calls[step.call];
      var r, after := s.runs[pc.run], Add(s.runs[pc.run], pc.cost);
      r.status == Running && after.accrued < r.maxCost ==>
        (Warns(config.doubles, after, pc.cost) <==> r.accrued < r.maxCost * 0.8 <= after.accrued)
  }

  lemma RightGuardDoesNotErr(config: Config, s: System, step: Step)
    requires TotalsAreWhole(s) && CostsAreNotNegative(s) && NoneIsMissed(s) && NoneIsEarly(s)
    ensures GuardIsRight(config, s, step) <==> !Errs(config, s, step)
  {
    hide RoundMicro, IsDecimal, WasWarned;
    if IsAccrual(s, step) {
      AddingOnlyRaises(s.runs[s.calls[step.call].run], s.calls[step.call].cost);
    }
  }

  lemma RightWhenItDoesNotErr(config: Config, s: System, step: Step)
    requires TotalsAreWhole(s) && CostsAreNotNegative(s) && WarnedExactly(s)
    ensures GuardIsRight(config, s, step) <==> !Errs(config, s, step)
  {
    hide Errs, GuardIsRight, TotalsAreWhole, CostsAreNotNegative, NoneIsMissed, NoneIsEarly, AtMostOneWarning;
    RightGuardDoesNotErr(config, s, step);
  }

  lemma NobodyIsEarly(s: System)
    requires s.calls == map[]
    ensures NoneIsEarly(s)
  {
  }

  /**
   * With costs that are not negative, whatever the arithmetic: in every state of a
   * history exactly the runs past their mark were warned of, each once, if and only
   * if the guard is right at every accrual.
   */
  lemma {:induction false} EveryRunWarnsExactlyOnce(config: Config, states: seq<System>, steps: seq<Step>, n: nat)
    requires IsHistory(config, states, steps) && NeverNegative(states) && n <= |steps|
    ensures (forall k :: 0 <= k <= n ==> WarnedExactly(states[k]))
            <==> (forall i :: 0 <= i < n ==> GuardIsRight(config, states[i], steps[i]))
  {
    hide Next, WarnedExactly, GuardIsRight, Errs, Enabled, CostsAreNotNegative, TotalsAreWhole;
    WarnedExactlyWhenNothingErrs(config, states, steps, n);
    if n > 0 {
      EveryRunWarnsExactlyOnce(config, states, steps, n - 1);
      WarnedExactlyWhenNothingErrs(config, states, steps, n - 1);
      TotalsStayWhole(config, states, steps, n - 1);
      if WarnedExactly(states[n - 1]) {
        RightWhenItDoesNotErr(config, states[n - 1], steps[n - 1]);
      }
    }
  }

  // ------------------------------------------------- when the arithmetic of the guard agrees

  /** On the numbers of this accrual the guard comes out as it would without rounding of doubles. */
  ghost predicate AgreesAt(config: Config, s: System, step: Step) {
    IsAccrual(s, step) ==>
      var pc := s.calls[step.call];
      var after := Add(s.runs[pc.run], pc.cost);
      AgreesOn(config.doubles, after.accrued, pc.cost, after.maxCost)
  }

  ghost predicate AgreesThroughout(config: Config, states: seq<System>, steps: seq<Step>)
    requires |steps| < |states|
  {
    forall i :: 0 <= i < |steps| ==> AgreesAt(config, states[i], steps[i])
  }

  lemma ExactAgrees(config: Config, states: seq<System>, steps: seq<Step>)
    requires IsExact(config.doubles) && |steps| < |states|
    ensures AgreesThroughout(config, states, steps)
  {
  }

  lemma AgreesHere(config: Config, states: seq<System>, steps: seq<Step>, i: nat)
    requires i < |steps| < |states| && AgreesThroughout(config, states, steps)
    ensures AgreesAt(config, states[i], steps[i])
  {
  }

  /**
   * Then the guard errs by the rounding of totals alone: it depends on what a cost
   * loses or gains by it.
   */
  lemma GuardIsRightExactlyWhen(config: Config, s: System, step: Step)
    requires AgreesAt(config, s, step) && TotalsAreWhole(s) && CostsAreNotNegative(s)
    ensures GuardIsRight(config, s, step) <==> !DropsBelowTheMark(s, step) && !HidesTheMark(s, step)
  {
    hide RoundMicro, IsDecimal;
    if IsAccrual(s, step) {
      AddingOnlyRaises(s.runs[s.calls[step.call].run], s.calls[step.call].cost);
      RoundMicroIsNotNegative(s.calls[step.call].cost);
    }
  }

  /** A cost to a running run past its mark, of which rounding drops more than the run is past it. */
  ghost predicate DropsBelowTheMark(s: System, step: Step) {
    IsAccrual(s, step) &&
    var pc := s.calls[step.call];
    var r := s.runs[pc.run];
    && IsPastTheMark(r) && r.accrued + RoundMicro(pc.cost) < r.maxCost
    && pc.cost - RoundMicro(pc.cost) > r.accrued - r.maxCost * 0.8
  }

  /** A cost that takes a running run to its mark, rounded up by at least as much as the run was short of it. */
  ghost predicate HidesTheMark(s: System, step: Step) {
    IsAccrual(s, step) &&
    var pc := s.calls[step.call];
    var r := s.runs[pc.run];
    && r.status == Running && r.accrued < r.maxCost * 0.8 <= r.accrued + RoundMicro(pc.cost) < r.maxCost
    && RoundMicro(pc.cost) - pc.cost >= r.maxCost * 0.8 - r.accrued
  }

  /**
   * When the guard's arithmetic agrees and costs are not negative: exactly the runs past
   * their mark were warned of, each once, in every state of a history, if and only if
   * rounding neither drops a cost back below the mark nor lifts one up to it.
   */
  lemma AgreeingGuardWarnsExactlyOnce(config: Config, states: seq<System>, steps: seq<Step>)
    requires IsHistory(config, states, steps) && NeverNegative(states) && AgreesThroughout(config, states, steps)
    ensures (forall k :: 0 <= k <= |steps| ==> WarnedExactly(states[k])) <==>
            (forall i :: 0 <= i < |steps| ==>
               !DropsBelowTheMark(states[i], steps[i]) && !HidesTheMark(states[i], steps[i]))
  {
    hide WarnedExactly, GuardIsRight, DropsBelowTheMark, HidesTheMark, AgreesAt, TotalsAreWhole, CostsAreNotNegative;
    EveryRunWarnsExactlyOnce(config, states, steps, |steps|);
    forall i | 0 <= i < |steps|
      ensures GuardIsRight(config, states[i], steps[i])
              <==> !DropsBelowTheMark(states[i], steps[i]) && !HidesTheMark(states[i], steps[i])
    {
      TotalsStayWhole(config, states, steps, i);
      NotNegativeAt(states, i);
      AgreesHere(config, states, steps, i);
      GuardIsRightExactlyWhen(config, states[i], steps[i]);
    }
  }

  lemma NotNegativeAt(states: seq<System>, i: nat)
    requires NeverNegative(states) && i < |states|
    ensures CostsAreNotNegative(states[i])
  {
  }

  lemma AgreeingIsNotEarly(config: Config, s: System, step: Step)
    requires AgreesAt(config, s, step) && TotalsAreWhole(s) && CostsAreNotNegative(s) && NoneIsEarly(s)
    ensures !WarnsEarly(config, s, step) && !FallsBack(s, step)
  {
    hide RoundMicro, IsDecimal, WasWarned;
    if IsAccrual(s, step) {
      AddingOnlyRaises(s.runs[s.calls[step.call].run], s.calls[step.call].cost);
    }
  }

  lemma {:induction false} NoneIsEverEarly(config: Config, states: seq<System>, steps: seq<Step>, n: nat)
    requires IsHistory(config, states, steps) && NeverNegative(states) && AgreesThroughout(config, states, steps)
    requires n <= |steps|
    ensures NoneIsEarly(states[n])
  {
    hide Next, Enabled, NoneIsEarly, CostsAreNotNegative, TotalsAreWhole, WarnsEarly, FallsBack, AgreesAt;
    if n == 0 {
      NobodyIsEarly(states[0]);
    } else {
      NoneIsEverEarly(config, states, steps, n - 1);
      assert StepAt(config, states, steps, n - 1);
      TotalsStayWhole(config, states, steps, n - 1);
      AgreesHere(config, states, steps, n - 1);
      NotNegativeAt(states, n - 1);
      AgreeingIsNotEarly(config, states[n - 1], steps[n - 1]);
      StepWarnsNoneEarly(config, states[n - 1], steps[n - 1]);
    }
  }

  lemma RepeatsExactlyWhen(config: Config, s: System, step: Step)
    requires AgreesAt(config, s, step) && TotalsAreWhole(s) && CostsAreNotNegative(s) && NoneIsEarly(s)
    ensures Repeats(config, s, step) <==> DropsBelowTheMark(s, step) && WasWarned(s, s.calls[step.call].run)
  {
    hide RoundMicro, IsDecimal, WasWarned;
    if IsAccrual(s, step) {
      AddingOnlyRaises(s.runs[s.calls[step.call].run], s.calls[step.call].cost);
      RoundMicroIsNotNegative(s.calls[step.call].cost);
    }
  }

  /**
   * Under the same terms, at most once if and only if rounding never drops a cost to a run
   * that was warned of back below its mark.
   */
  lemma EveryRunWarnsAtMostOnce(config: Config, states: seq<System>, steps: seq<Step>)
    requires IsHistory(config, states, steps) && NeverNegative(states) && AgreesThroughout(config, states, steps)
    ensures (forall n :: 0 <= n <= |steps| ==> AtMostOneWarning(states[n])) <==>
            (forall i :: 0 <= i < |steps| ==>
               !(DropsBelowTheMark(states[i], steps[i]) && WasWarned(states[i], states[i].calls[steps[i].call].run)))
  {
    hide AtMostOneWarning, Repeats, TotalsAreWhole, CostsAreNotNegative, AgreesAt, NoneIsEarly, WasWarned;
    WarnsOnceExactlyWhenNothingRepeats(config, states, steps, |steps|);
    forall i | 0 <= i < |steps|
      ensures Repeats(config, states[i], steps[i]) <==>
              DropsBelowTheMark(states[i], steps[i]) && WasWarned(states[i], states[i].calls[steps[i].call].run)
    {
      TotalsStayWhole(config, states, steps, i);
      NoneIsEverEarly(config, states, steps, i);
      NotNegativeAt(states, i);
      AgreesHere(config, states, steps, i);
      RepeatsExactlyWhen(config, states[i], steps[i]);
    }
  }

  lemma WholeCostsAreKept(s: System, step: Step)
    requires CostsAreWhole(s) && TotalsAreWhole(s)
    ensures !DropsBelowTheMark(s, step) && !HidesTheMark(s, step)
  {
    hide RoundMicro, IsDecimal;
    if IsAccrual(s, step) {
      RoundMicroKeepsDecimals(s.calls[step.call].cost);
    }
  }

  /** Then whole millionths that are not negative warn exactly once. */
  lemma WholeCostsWarnExactlyOnce(config: Config, states: seq<System>, steps: seq<Step>, n: nat)
    requires IsHistory(config, states, steps) && NeverNegative(states) && AgreesThroughout(config, states, steps)
    requires n <= |steps|
    requires forall k :: 0 <= k < |states| ==> CostsAreWhole(states[k])
    ensures WarnedExactly(states[n])
  {
    hide WarnedExactly, DropsBelowTheMark, HidesTheMark, AgreesAt, CostsAreWhole, TotalsAreWhole, NeverNegative;
    forall i | 0 <= i < |steps|
      ensures !DropsBelowTheMark(states[i], steps[i]) && !HidesTheMark(states[i], steps[i])
    {
      TotalsStayWhole(config, states, steps, i);
      WholeCostsAreKept(states[i], steps[i]);
    }
    AgreeingGuardWarnsExactlyOnce(config, states, steps);
  }

  // ------------------------------------------------------------------ warnings gone wrong

  lemma TwoWarnings(s: System, a: CallId, b: CallId)
    requires a in s.calls && b in s.calls && a != b && s.calls[a] == Warning(0) && s.calls[b] == Warning(0)
    ensures !AtMostOneWarning(s)
  {
    assert HasWarned(s.calls[a], 0) && HasWarned(s.calls[b], 0);
  }

  /** A budget of one dollar, then 0.8 and less than half a millionth: two warnings in exact arithmetic. */
  lemma SmallCostsWarnTwice(config: Config) returns (states: seq<System>, steps: seq<Step>)
    requires config.maxBudget >= 1.0 && IsExact(config.doubles)
    ensures IsHistory(config, states, steps) && |states| == |steps| + 1 && !AtMostOneWarning(states[|steps|])
  {
    hide IsHistory, AtMostOneWarning;
    states, steps := FirstRun(config, 1.0);
    states, steps := Accrual(config, states, steps, 1, 0.8);
    states, steps := Accrual(config, states, steps, 2, 0.0000004);
    TwoWarnings(states[|steps|], 1, 2);
  }

  /** A budget of one dollar, then 0.7, 0.15, -0.1 and 0.1: two warnings in exact arithmetic on whole cents. */
  lemma NegativeCostsWarnTwice(config: Config) returns (states: seq<System>, steps: seq<Step>)
    requires config.maxBudget >= 1.0 && IsExact(config.doubles)
    ensures IsHistory(config, states, steps) && |states| == |steps| + 1 && !AtMostOneWarning(states[|steps|])
  {
    hide IsHistory, AtMostOneWarning;
    states, steps := FirstRun(config, 1.0);
    states, steps := Accrual(config, states, steps, 1, 0.7);
    states, steps := Accrual(config, states, steps, 2, 0.15);
    states, steps := Accrual(config, states, steps, 3, -0.1);
    states, steps := Accrual(config, states, steps, 4, 0.1);
    TwoWarnings(states[|steps|], 2, 4);
  }

  /**
   * A budget of one dollar, then 0.75, 0.05 and 0.05. In doubles 0.85 less 0.05 is
   * 0.7999999999999999, which is below 0.8: two warnings on whole cents.
   */
  lemma DoublesWarnTwice(config: Config) returns (states: seq<System>, steps: seq<Step>)
    requires config.maxBudget >= 1.0 && config.doubles.mark(1.0) == 0.8
    requires config.doubles.minus(0.8, 0.05) == 0.75 && config.doubles.minus(0.85, 0.05) == 0.7999999999999999
    ensures IsHistory(config, states, steps) && |states| == |steps| + 1 && !AtMostOneWarning(states[|steps|])
  {
    hide IsHistory, AtMostOneWarning;
    states, steps := FirstRun(config, 1.0);
    states, steps := Accrual(config, states, steps, 1, 0.75);
    states, steps := Accrual(config, states, steps, 2, 0.05);
    states, steps := Accrual(config, states, steps, 3, 0.05);
    TwoWarnings(states[|steps|], 2, 3);
  }

  /**
   * A budget of 0.99999925, then 0.799999 and half a millionth: past the mark without a
   * warning, in exact arithmetic.
   */
  lemma RoundingHidesTheMark(config: Config) returns (states: seq<System>, steps: seq<Step>)
    requires config.maxBudget >= 1.0 && IsExact(config.doubles)
    ensures IsHistory(config, states, steps) && |states| == |steps| + 1 && !NoneIsMissed(states[|steps|])
  {
    hide IsHistory;
    states, steps := FirstRun(config, 0.99999925);
    states, steps := Accrual(config, states, steps, 1, 0.799999);
    states, steps := Accrual(config, states, steps, 2, 0.0000005);
    var s := states[|steps|];
    assert 0 in s.runs && IsPastTheMark(s.runs[0]);
    assert !WasWarned(s, 0);
  }

  /**
   * A budget of three dollars, then 2.40 and 0.01. In doubles the mark of 3 is
   * 2.4000000000000004, above the first total, and so is 2.41 less 0.01, not below
   * it: past the mark without a warning, on whole cents.
   */
  lemma DoublesMissTheMark(config: Config) returns (states: seq<System>, steps: seq<Step>)
    requires config.maxBudget >= 3.0
    requires config.doubles.mark(3.0) == 2.4000000000000004 && config.doubles.minus(2.41, 0.01) == 2.4000000000000004
    ensures IsHistory(config, states, steps) && |states| == |steps| + 1 && !NoneIsMissed(states[|steps|])
  {
    hide IsHistory;
    states, steps := FirstRun(config, 3.0);
    states, steps := Accrual(config, states, steps, 1, 2.4);
    states, steps := Accrual(config, states, steps, 2, 0.01);
    var s := states[|steps|];
    assert 0 in s.runs && IsPastTheMark(s.runs[0]);
    assert !WasWarned(s, 0);
  }
}
