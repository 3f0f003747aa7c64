/** A dry run against the same reads goes through the same frames, and touches nothing. */
module DryRun {
  import opened Wrappers
  import opened Workflows
  import opened TopologicalOrder
  import opened Executor
  import opened Unfolding
  import opened RunSafety

  // ------------------------------------------------------------- no effects, no cost

  lemma DryNodeIsFree(p: Program, f: Frame, r: NodeRun)
    requires p.dryRun && RunFrame(p, f) == Some(r)
    ensures r.calls == []
    ensures r.outcome.Done? ==> r.outcome.cost == 0.0
  {
  }

  lemma {:induction false} DryRunStaysFree(p: Program, s: RunState)
    requires p.dryRun && s.calls == [] && s.cost == 0.0
    ensures Run(p, s).state.calls == [] && Run(p, s).state.cost == 0.0
    ensures p.wf.limits.maxCostUsd >= 0.0 ==> Run(p, s).status != HaltedLimits(CostBudget)
    decreases StepsLeft(p, s), |s.queue|
  {
    hide RunFrame, Children;
    if s.queue != [] && HaltBefore(p, s).None? {
      match RunFrame(p, s.queue[0])
      case None => DryRunStaysFree(p, Dequeue(s));
      case Some(r) =>
        DryNodeIsFree(p, s.queue[0], r);
        if r.outcome.Done? { DryRunStaysFree(p, Record(p, Dequeue(s), s.queue[0], r)); }
    }
  }

  /** A dry run never dispatches, archives or notifies, and accrues no cost. */
  lemma DryRunTouchesNothing(p: Program)
    requires p.dryRun
    ensures Execution(p).state.calls == [] && Execution(p).state.cost == 0.0
    ensures p.wf.limits.maxCostUsd >= 0.0 ==> Execution(p).status != HaltedLimits(CostBudget)
  {
    match FindTrigger(p.wf.nodes)
    case None =>
    case Some(trigger) => DryRunStaysFree(p, StartState([Root(trigger)]));
  }

  // ------------------------------------------------------------------------ lockstep

  /** The effects that change the world succeed; reads may still fail. */
  ghost predicate WritesSucceed(fx: Effects) {
    && (forall cfg, item :: fx.dispatch(cfg, item).Ok?)
    && (forall cfg, item :: fx.archive(cfg, item).Ok?)
    && (forall node, item :: fx.notify(node, item).Ok?)
  }

  /** `q` is a dry run of the same workflow against the same reads; the clocks agree on when time is up. */
  ghost predicate IsDryTwin(p: Program, q: Program) {
    && !p.dryRun && q.dryRun
    && p.wf == q.wf && p.effects == q.effects
    && forall k :: p.elapsed(k) > p.wf.limits.maxDurationSeconds <==> q.elapsed(k) > q.wf.limits.maxDurationSeconds
  }

  lemma {:induction false} ActingSucceeds(fx: Effects, node: Node, items: seq<Item>)
    requires WritesSucceed(fx)
    ensures ActOnAll(fx, node, items).Ok?
  {
    if items != [] {
      ActingSucceeds(fx, node, items[..|items| - 1]);
      assert Act(fx, node, items[|items| - 1]).Ok?;
    }
  }

  /** What a run shows of one frame: its node and how many items went in and came out. */
  datatype Shown = Shown(nodeId: string, itemsIn: nat, itemsOut: nat)

  function Show(step: StepResult): Shown {
    Shown(step.nodeId, step.itemsIn, step.itemsOut)
  }

  function ShowAll(steps: seq<StepResult>): seq<Shown> {
    seq(|steps|, i requires 0 <= i < |steps| => Show(steps[i]))
  }

  lemma SameFrameDry(p: Program, q: Program, f: Frame)
    requires IsDryTwin(p, q) && WritesSucceed(p.effects)
    ensures Children(p, f) == Children(q, f)
    ensures RunFrame(p, f).Some? <==> RunFrame(q, f).Some?
    ensures RunFrame(p, f).Some? ==>
              var o, d := RunOf(p, f).outcome, RunOf(q, f).outcome;
              && (o.Failed? <==> d.Failed?) && (o.Failed? ==> o == d)
              && Show(StepFor(f, o)) == Show(StepFor(f, d))
              && RunOf(p, f).anomalies == RunOf(q, f).anomalies
  {
    match FindNode(p.wf.nodes, f.nodeId)
    case None =>
    case Some(node) =>
      if Acts(node.config) { ActingSucceeds(p.effects, node, f.items); }
  }

  /** The dry run's state when it has done the same work. */
  ghost predicate Lockstep(real_: RunState, dry: RunState) {
    && real_.queue == dry.queue && real_.trace == dry.trace
    && real_.nodesExecuted == dry.nodesExecuted && real_.timeChecks == dry.timeChecks
    && ShowAll(real_.steps) == ShowAll(dry.steps) && real_.anomalies == dry.anomalies
    && dry.cost == 0.0 && dry.calls == []
  }

  lemma {:induction false} ShownGrow(p: Program, s: RunState)
    ensures ShowAll(s.steps) <= ShowAll(Run(p, s).state.steps)
    decreases StepsLeft(p, s), |s.queue|
  {
    hide RunFrame, Children;
    if s.queue != [] && HaltBefore(p, s).None? {
      match RunFrame(p, s.queue[0])
      case None => ShownGrow(p, Dequeue(s));
      case Some(r) =>
        var s' := Record(p, Dequeue(s), s.queue[0], r);
        assert ShowAll(s'.steps) == ShowAll(s.steps) + [Show(StepFor(s.queue[0], r.outcome))];
        if r.outcome.Done? { ShownGrow(p, s'); }
    }
  }

  lemma LockstepRecord(p: Program, q: Program, s: RunState, d: RunState, f: Frame)
    requires IsDryTwin(p, q) && WritesSucceed(p.effects)
    requires Lockstep(s, d) && RunFrame(p, f).Some?
    ensures RunFrame(q, f).Some?
    ensures Lockstep(Record(p, s, f, RunOf(p, f)), Record(q, d, f, RunOf(q, f)))
  {
    hide RunFrame, Children, WritesSucceed;
    SameFrameDry(p, q, f);
    DryNodeIsFree(q, f, RunOf(q, f));
    var s', d' := Record(p, s, f, RunOf(p, f)), Record(q, d, f, RunOf(q, f));
    assert ShowAll(s'.steps) == ShowAll(s.steps) + [Show(StepFor(f, RunOf(p, f).outcome))];
    assert ShowAll(d'.steps) == ShowAll(d.steps) + [Show(StepFor(f, RunOf(q, f).outcome))];
  }

  lemma {:induction false} RunsInLockstep(p: Program, q: Program, s: RunState, d: RunState)
    requires IsDryTwin(p, q) && WritesSucceed(p.effects) && p.wf.limits.maxCostUsd >= 0.0
    requires Lockstep(s, d)
    ensures var a, b := Run(p, s), Run(q, d);
            && a.state.trace <= b.state.trace
            && ShowAll(a.state.steps) <= ShowAll(b.state.steps)
            && (a.status != HaltedLimits(CostBudget) ==>
                  a.status == b.status && Lockstep(a.state, b.state))
    decreases StepsLeft(p, s), |s.queue|
  {
    hide RunFrame, Children, WritesSucceed, ShowAll;
    TraceGrows(q, d);
    ShownGrow(q, d);
    if s.queue != [] && HaltBefore(p, s).None? {
      var f := s.queue[0];
      SameFrameDry(p, q, f);
      if RunFrame(p, f).None? {
        RunsInLockstep(p, q, Dequeue(s), Dequeue(d));
      } else {
        LockstepRecord(p, q, Dequeue(s), Dequeue(d), f);
        if RunOf(p, f).outcome.Done? {
          RunsInLockstep(p, q, Record(p, Dequeue(s), f, RunOf(p, f)), Record(q, Dequeue(d), f, RunOf(q, f)));
        }
      }
    }
  }

  /**
   * With the same reads and write effects that succeed, the real run goes through
   * a prefix of the dry run, and through all of it unless its cost stops it:
   * the same status, frames, item counts and anomalies.
   */
  lemma DryRunForetellsRealRun(p: Program, q: Program)
    requires IsDryTwin(p, q) && WritesSucceed(p.effects) && p.wf.limits.maxCostUsd >= 0.0
    ensures var a, b := Execution(p), Execution(q);
            && a.state.trace <= b.state.trace
            && ShowAll(a.state.steps) <= ShowAll(b.state.steps)
            && (a.status != HaltedLimits(CostBudget) ==>
                  a.status == b.status && Lockstep(a.state, b.state))
  {
    match FindTrigger(p.wf.nodes)
    case None =>
    case Some(trigger) =>
      RunsInLockstep(p, q, StartState([Root(trigger)]), StartState([Root(trigger)]));
  }
}
