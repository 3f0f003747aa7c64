/** What every run keeps, on any stored workflow, cyclic or not. */
module RunSafety {
  import opened Wrappers
  import opened Workflows
  import opened TopologicalOrder
  import opened Executor
  import opened Unfolding
  import Validation

  function FrameCost(p: Program, f: Frame): real {
    match RunFrame(p, f)
    case Some(NodeRun(Done(_, cost, _), _, _)) => cost
    case _ => 0.0
  }

  function TraceCost(p: Program, trace: seq<Frame>): real {
    if trace == [] then 0.0 else TraceCost(p, trace[..|trace| - 1]) + FrameCost(p, trace[|trace| - 1])
  }

  /** The frame ran a known node, was reached from the trigger, and started within budget. */
  ghost predicate StartedSafely(p: Program, start: string, trace: seq<Frame>, k: nat)
    requires k < |trace|
  {
    && RunFrame(p, trace[k]).Some?
    && Reaches(p.wf, start, trace[k].nodeId)
    && TraceCost(p, trace[..k]) <= p.wf.limits.maxCostUsd
  }

  ghost predicate Safe(p: Program, start: string, s: RunState) {
    && |s.trace| == |s.steps| == s.nodesExecuted <= p.wf.limits.maxNodesExecuted
    && s.cost == TraceCost(p, s.trace)
    && (forall k :: 0 <= k < |s.trace| ==> StartedSafely(p, start, s.trace, k))
    && (forall k :: 0 <= k < |s.steps| ==> s.steps[k] == StepFor(s.trace[k], RunOf(p, s.trace[k]).outcome))
  }

  function RunOf(p: Program, f: Frame): NodeRun {
    match RunFrame(p, f)
    case Some(r) => r
    case None => NodeRun(Failed("unknown node"), [], [])
  }

  ghost predicate QueueReached(p: Program, start: string, queue: seq<Frame>) {
    forall f :: f in queue ==> Reaches(p.wf, start, f.nodeId)
  }

  lemma RecordIsSafe(p: Program, start: string, s: RunState, f: Frame, r: NodeRun)
    requires Safe(p, start, s) && RunFrame(p, f) == Some(r) && HaltBefore(p, s).None?
    requires Reaches(p.wf, start, f.nodeId)
    ensures Safe(p, start, Record(p, s, f, r))
  {
    hide RunFrame, Reaches, Children;
    var s' := Record(p, s, f, r);
    assert s'.trace[..|s.trace|] == s.trace;
    forall k | 0 <= k < |s'.trace| ensures StartedSafely(p, start, s'.trace, k) {
      if k < |s.trace| {
        assert s'.trace[..k] == s.trace[..k];
        assert StartedSafely(p, start, s.trace, k);
      }
    }
  }

  lemma ChildrenAreReached(p: Program, start: string, f: Frame)
    requires Reaches(p.wf, start, f.nodeId)
    ensures QueueReached(p, start, Children(p, f))
  {
    hide Children, Reaches, Step;
    forall child | child in Children(p, f) ensures Reaches(p.wf, start, child.nodeId) {
      ChildIsStep(p, f, child);
      ReachesOneMore(p.wf, start, f.nodeId, child.nodeId);
    }
  }

  lemma {:induction false} RunIsSafe(p: Program, start: string, s: RunState)
    requires Safe(p, start, s) && QueueReached(p, start, s.queue)
    ensures Safe(p, start, Run(p, s).state)
    decreases StepsLeft(p, s), |s.queue|
  {
    hide RunFrame, Reaches, Children, StartedSafely, TraceCost;
    if s.queue != [] && HaltBefore(p, s).None? {
      var f := s.queue[0];
      assert f in s.queue;
      match RunFrame(p, f)
      case None => RunIsSafe(p, start, Dequeue(s));
      case Some(r) =>
        RecordIsSafe(p, start, Dequeue(s).(timeChecks := s.timeChecks), f, r);
        ChildrenAreReached(p, start, f);
        var s' := Record(p, Dequeue(s), f, r);
        assert Safe(p, start, s');
        if r.outcome.Done? { RunIsSafe(p, start, s'); }
    }
  }

  /**
   * On every workflow: as many steps as nodes executed, never more than the
   * limit; each node that starts is reachable from the trigger and starts with
   * no more than the cost budget spent.
   */
  lemma ExecutionIsSafe(p: Program)
    ensures var end := Execution(p).state;
            && |end.steps| == end.nodesExecuted == |end.trace| <= p.wf.limits.maxNodesExecuted
            && end.cost == TraceCost(p, end.trace)
            && (forall k :: 0 <= k < |end.steps| ==>
                  end.steps[k] == StepFor(end.trace[k], RunOf(p, end.trace[k]).outcome))
            && (forall k :: 0 <= k < |end.trace| ==>
                  FindTrigger(p.wf.nodes).Some? && StartedSafely(p, FindTrigger(p.wf.nodes).value.id, end.trace, k))
  {
    hide StartedSafely;
    match FindTrigger(p.wf.nodes)
    case None =>
    case Some(trigger) =>
      ReachesItself(p.wf, trigger.id);
      RunIsSafe(p, trigger.id, StartState([Root(trigger)]));
  }

  // ------------------------------------------------------------- coming to an end

  /** Nothing in the unfolding of the queue fails or is unknown. */
  ghost predicate AllSucceed(p: Program, frames: multiset<Frame>) {
    forall f :: f in frames ==> RunOf(p, f).outcome.Done?
  }

  ghost predicate AllKnown(p: Program, queue: seq<Frame>) {
    forall f :: f in queue ==> RunFrame(p, f).Some?
  }

  ghost predicate InTime(p: Program) {
    forall k: nat :: p.elapsed(k) <= p.wf.limits.maxDurationSeconds
  }

  lemma ChildrenAreKnown(p: Program, f: Frame)
    requires NoDanglingEdges(p.wf)
    ensures AllKnown(p, Children(p, f))
  {
    forall child | child in Children(p, f) ensures RunFrame(p, child).Some? {
      ChildIsStep(p, f, child);
      FindNodeFinds(p.wf.nodes, child.nodeId);
    }
  }

  lemma SucceedOnRest(p: Program, whole: multiset<Frame>, f: Frame, rest: multiset<Frame>)
    requires AllSucceed(p, whole) && whole == multiset{f} + rest
    ensures RunOf(p, f).outcome.Done? && AllSucceed(p, rest) && |whole| == 1 + |rest|
  {
    assert f in whole;
  }

  lemma KnownQueue(p: Program, queue: seq<Frame>)
    requires NoDanglingEdges(p.wf) && AllKnown(p, queue) && queue != []
    ensures RunFrame(p, queue[0]).Some?
    ensures AllKnown(p, queue[1..] + Children(p, queue[0]))
  {
    hide Children, RunFrame, NoDanglingEdges;
    assert queue[0] in queue;
    ChildrenAreKnown(p, queue[0]);
  }

  lemma {:induction false} RunEnds(p: Program, rank: map<string, nat>, s: RunState)
    requires Ranks(p.wf, rank) && NoDanglingEdges(p.wf) && InTime(p) && AllKnown(p, s.queue)
    requires AllSucceed(p, UnfoldAll(p, rank, s.queue))
    requires s.nodesExecuted + |UnfoldAll(p, rank, s.queue)| <= p.wf.limits.maxNodesExecuted
    ensures Run(p, s).status in {Completed, HaltedLimits(CostBudget)}
    decreases |UnfoldAll(p, rank, s.queue)|
  {
    hide Ranks, RunFrame, Children, NoDanglingEdges, UnfoldAll, AllSucceed, AllKnown;
    if s.queue != [] {
      var f := s.queue[0];
      KnownQueue(p, s.queue);
      UnfoldHead(p, rank, s.queue);
      SucceedOnRest(p, UnfoldAll(p, rank, s.queue), f, UnfoldAll(p, rank, s.queue[1..] + Children(p, f)));
      if HaltBefore(p, s).None? {
        RunEnds(p, rank, Record(p, Dequeue(s), f, RunOf(p, f)));
      }
    }
  }

  /**
   * With enough node budget for the unfolding, time, and effects that succeed,
   * a run of an acyclic workflow without dangling edges either completes,
   * having run exactly the unfolding, or is stopped by its cost.
   */
  lemma EnoughBudgetCompletes(p: Program, rank: map<string, nat>)
    requires Ranks(p.wf, rank) && NoDanglingEdges(p.wf) && InTime(p) && FindTrigger(p.wf.nodes).Some?
    requires var whole := Unfold(p, rank, Root(FindTrigger(p.wf.nodes).value));
             AllSucceed(p, whole) && |whole| <= p.wf.limits.maxNodesExecuted
    ensures var end := Execution(p);
            || end.status == HaltedLimits(CostBudget)
            || (end.status.Completed?
                && multiset(end.state.trace) == Unfold(p, rank, Root(FindTrigger(p.wf.nodes).value)))
  {
    var root := Root(FindTrigger(p.wf.nodes).value);
    assert [root][..0] == [];
    assert UnfoldAll(p, rank, [root]) == Unfold(p, rank, root);
    TriggerIsKnown(p.wf.nodes);
    FindNodeFinds(p.wf.nodes, root.nodeId);
    RunEnds(p, rank, StartState([root]));
    RunComputesUnfolding(p, rank);
  }

  lemma {:induction false} TriggerIsKnown(nodes: seq<Node>)
    ensures FindTrigger(nodes).Some? ==> FindTrigger(nodes).value in nodes
  {
    if nodes != [] && !nodes[0].config.Trigger? {
      TriggerIsKnown(nodes[1..]);
    }
  }

  lemma {:induction false} FirstTriggerIsFound(nodes: seq<Node>)
    ensures Validation.Triggers(nodes) != [] ==> FindTrigger(nodes).Some?
  {
    Validation.TriggersAreTriggers(nodes);
    if Validation.Triggers(nodes) != [] {
      TriggerAmongIsFound(nodes, Validation.Triggers(nodes)[0]);
    }
  }

  lemma {:induction false} TriggerAmongIsFound(nodes: seq<Node>, trigger: Node)
    requires trigger in nodes && trigger.config.Trigger?
    ensures FindTrigger(nodes).Some?
  {
    if !nodes[0].config.Trigger? {
      TriggerAmongIsFound(nodes[1..], trigger);
    }
  }

  /**
   * What the validator is for: an accepted workflow has a well-founded meaning,
   * every execution runs a part of it and owes the rest, and one with effects
   * that succeed and room to run them all runs exactly it, unless cost stops it.
   */
  lemma AcceptedWorkflowRunsItsMeaning(p: Program) returns (rank: map<string, nat>)
    requires Validation.Publishable(p.wf)
    ensures Ranks(p.wf, rank) && FindTrigger(p.wf.nodes).Some?
    ensures var end, whole := Execution(p), Unfold(p, rank, Root(FindTrigger(p.wf.nodes).value));
            && multiset(end.state.trace) + UnfoldAll(p, rank, end.state.queue) == whole
            && (end.status.Completed? ==> multiset(end.state.trace) == whole)
            && (InTime(p) && AllSucceed(p, whole) && |whole| <= p.wf.limits.maxNodesExecuted ==>
                  end.status in {Completed, HaltedLimits(CostBudget)})
  {
    hide Ranks, NodeSpec, Children, UnfoldAll, Unfold, AllSucceed, InTime;
    rank := Validation.PublishableHasRanks(p.wf);
    FirstTriggerIsFound(p.wf.nodes);
    RunComputesUnfolding(p, rank);
    var whole := Unfold(p, rank, Root(FindTrigger(p.wf.nodes).value));
    if InTime(p) && AllSucceed(p, whole) && |whole| <= p.wf.limits.maxNodesExecuted {
      EnoughBudgetCompletes(p, rank);
    }
  }
}
