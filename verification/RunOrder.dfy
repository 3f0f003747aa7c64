/**
 * In which order the main loop of packages/workflow-engine/src/executor.ts takes its
 * frames, what it adds up on the way, and for which reason it ends.
 */
module RunOrder {
  import opened Basics
  import opened Wrappers
  import opened Values
  import opened Workflows
  import opened TopologicalOrder
  import opened Executor
  import opened NodeEffects
  import opened RunSafety
  import Branching

  // ------------------------------------------------------------------ finding nodes

  ghost predicate IsFirstTrigger(nodes: seq<Node>, k: nat) {
    k < |nodes| && nodes[k].config.Trigger? && forall j :: 0 <= j < k ==> !nodes[j].config.Trigger?
  }

  /** A run starts at the first trigger listed, and fails without one. */
  lemma {:induction false} StartsAtFirstTrigger(nodes: seq<Node>)
    ensures forall k: nat :: IsFirstTrigger(nodes, k) ==> FindTrigger(nodes) == Some(nodes[k])
    ensures FindTrigger(nodes).None? <==> forall k :: 0 <= k < |nodes| ==> !nodes[k].config.Trigger?
  {
    if nodes != [] && !nodes[0].config.Trigger? {
      var rest := nodes[1..];
      StartsAtFirstTrigger(rest);
      assert forall k :: 0 <= k < |rest| ==> rest[k] == nodes[k + 1];
      forall k: nat | IsFirstTrigger(nodes, k)
        ensures FindTrigger(nodes) == Some(nodes[k])
      {
        assert IsFirstTrigger(rest, k - 1);
      }
    }
  }

  ghost predicate IsLastNamed(nodes: seq<Node>, id: string, k: nat) {
    k < |nodes| && nodes[k].id == id && forall j :: k < j < |nodes| ==> nodes[j].id != id
  }

  /** Of nodes with the same id the last one listed is the one that runs. */
  lemma {:induction false} LastNamedRuns(nodes: seq<Node>, id: string)
    ensures forall k: nat :: IsLastNamed(nodes, id, k) ==> FindNode(nodes, id) == Some(nodes[k])
    ensures FindNode(nodes, id).None? <==> forall k :: 0 <= k < |nodes| ==> nodes[k].id != id
  {
    if nodes != [] && nodes[|nodes| - 1].id != id {
      var n := |nodes| - 1;
      var init := nodes[..n];
      LastNamedRuns(init, id);
      assert forall j :: 0 <= j < n ==> init[j] == nodes[j];
      forall k: nat | IsLastNamed(nodes, id, k)
        ensures FindNode(nodes, id) == Some(nodes[k])
      {
        assert IsLastNamed(init, id, k);
      }
    }
  }

  // --------------------------------------------------------------- first come, first run

  /** The frames that running these has put on the queue, in that order. */
  function Arrivals(p: Program, trace: seq<Frame>): seq<Frame> {
    if trace == [] then [] else Arrivals(p, trace[..|trace| - 1]) + Children(p, trace[|trace| - 1])
  }

  function Known(p: Program): Frame -> bool {
    (f: Frame) => RunFrame(p, f).Some?
  }

  /** All frames so far, from the root on: first those that were taken in their turn, then those that wait. */
  ghost predicate InTurn(p: Program, root: Frame, s: RunState) {
    var all := [root] + Arrivals(p, s.trace);
    && s.timeChecks <= |all| && s.queue == all[s.timeChecks..]
    && IsFilterOf(s.trace, all[..s.timeChecks], Known(p))
    && forall j :: 0 <= j < s.timeChecks ==> p.elapsed(j) <= p.wf.limits.maxDurationSeconds
  }

  lemma DroppedInTurn(p: Program, root: Frame, s: RunState)
    requires InTurn(p, root, s) && s.queue != [] && RunFrame(p, s.queue[0]).None? && HaltBefore(p, s).None?
    ensures InTurn(p, root, Dequeue(s))
  {
    hide IsFilterOf, RunFrame, Arrivals;
    var all, n := [root] + Arrivals(p, s.trace), s.timeChecks;
    FilterOneMore(s.trace, all[..n], Known(p), all[n]);
    assert all[..n] + [all[n]] == all[..n + 1];
    assert s.trace + [] == s.trace;
  }

  lemma RecordedInTurn(p: Program, root: Frame, s: RunState, r: NodeRun)
    requires InTurn(p, root, s) && s.queue != [] && RunFrame(p, s.queue[0]) == Some(r) && HaltBefore(p, s).None?
    ensures InTurn(p, root, Record(p, Dequeue(s), s.queue[0], r))
  {
    hide IsFilterOf, RunFrame, Children;
    var all, n, f := [root] + Arrivals(p, s.trace), s.timeChecks, s.queue[0];
    FilterOneMore(s.trace, all[..n], Known(p), f);
    var trace' := s.trace + [f];
    assert trace'[..|trace'| - 1] == s.trace;
    var all' := [root] + Arrivals(p, trace');
    assert all' == all + Children(p, f);
    assert all'[..n + 1] == all[..n] + [f];
    assert all'[n + 1..] == s.queue[1..] + Children(p, f);
  }

  lemma {:induction false} RunTakesTurns(p: Program, root: Frame, s: RunState)
    requires InTurn(p, root, s)
    ensures InTurn(p, root, Run(p, s).state)
    decreases StepsLeft(p, s), |s.queue|
  {
    hide InTurn, RunFrame, Children;
    if s.queue != [] && HaltBefore(p, s).None? {
      match RunFrame(p, s.queue[0])
      case None =>
        DroppedInTurn(p, root, s);
        RunTakesTurns(p, root, Dequeue(s));
      case Some(r) =>
        RecordedInTurn(p, root, s, r);
        if r.outcome.Done? { RunTakesTurns(p, root, Record(p, Dequeue(s), s.queue[0], r)); }
    }
  }

  /**
   * First come, first run: the root frame and after it the frames that each node sent
   * on, in the order in which they were sent, are taken one after the other, each before
   * time is up; those for known nodes are run, and the rest of them waits in the queue.
   */
  lemma FirstComeFirstRun(p: Program, k: nat)
    requires IsFirstTrigger(p.wf.nodes, k)
    ensures InTurn(p, Frame(p.wf.nodes[k].id, [Object([])]), Execution(p).state)
  {
    hide RunFrame, Children;
    StartsAtFirstTrigger(p.wf.nodes);
    var root := Root(p.wf.nodes[k]);
    NothingToFilter(Known(p));
    assert ([root] + [])[..0] == [];
    assert ([root] + [])[0..] == [root];
    RunTakesTurns(p, root, StartState([root]));
  }

  // ------------------------------------------------------------------ what adds up

  function CallsOf(p: Program, trace: seq<Frame>): seq<Call> {
    if trace == [] then [] else CallsOf(p, trace[..|trace| - 1]) + RunOf(p, trace[|trace| - 1]).calls
  }

  function AnomaliesOf(p: Program, trace: seq<Frame>): seq<Item> {
    if trace == [] then [] else AnomaliesOf(p, trace[..|trace| - 1]) + RunOf(p, trace[|trace| - 1]).anomalies
  }

  lemma {:induction false} RunAddsUp(p: Program, s: RunState)
    requires s.calls == CallsOf(p, s.trace) && s.anomalies == AnomaliesOf(p, s.trace)
    ensures var end := Run(p, s).state; end.calls == CallsOf(p, end.trace) && end.anomalies == AnomaliesOf(p, end.trace)
    decreases StepsLeft(p, s), |s.queue|
  {
    hide RunFrame, Children;
    if s.queue != [] && HaltBefore(p, s).None? {
      match RunFrame(p, s.queue[0])
      case None => RunAddsUp(p, Dequeue(s));
      case Some(r) =>
        var s' := Record(p, Dequeue(s), s.queue[0], r);
        assert s'.trace[..|s'.trace| - 1] == s.trace;
        if r.outcome.Done? { RunAddsUp(p, s'); }
    }
  }

  /** The outside calls and the anomalies of a run are those of the frames it ran, one after the other. */
  lemma EffectsAddUp(p: Program)
    ensures var end := Execution(p).state;
            end.calls == CallsOf(p, end.trace) && end.anomalies == AnomaliesOf(p, end.trace)
  {
    if FindTrigger(p.wf.nodes).Some? {
      RunAddsUp(p, StartState([Root(FindTrigger(p.wf.nodes).value)]));
    }
  }

  lemma {:induction false} ItemsAreCounted(branches: seq<Bucket>)
    ensures ItemCount(branches) == |Branching.Gathered(branches)|
  {
    if branches != [] {
      ItemsAreCounted(branches[..|branches| - 1]);
    }
  }

  /** A step tells which node ran, how many items went in and came out, and whether it failed or was skipped. */
  lemma StepTells(p: Program, f: Frame)
    ensures var step, o := StepFor(f, RunOf(p, f).outcome), RunOf(p, f).outcome;
            && step.nodeId == f.nodeId && step.itemsIn == |f.items|
            && step.itemsOut == (if o.Done? then |Branching.Gathered(o.branches)| else 0)
            && (step.status == StepFailed <==> o.Failed?) && (step.status == StepSkipped <==> o.Done? && o.skipped)
  {
    var o := RunOf(p, f).outcome;
    if o.Done? { ItemsAreCounted(o.branches); }
  }

  // -------------------------------------------------------------------- why a run ends

  /** What the status says is so; the limits are looked at in the order nodes, time, cost. */
  ghost predicate EndsFor(p: Program, status: Status, s: RunState) {
    var limits := p.wf.limits;
    match status
    case Completed => s.queue == []
    case HaltedLimits(NodeBudget) => s.queue != [] && s.nodesExecuted >= limits.maxNodesExecuted
    case HaltedLimits(TimeBudget) =>
      && s.queue != [] && s.nodesExecuted < limits.maxNodesExecuted
      && p.elapsed(s.timeChecks) > limits.maxDurationSeconds
    case HaltedLimits(CostBudget) =>
      && s.queue != [] && s.nodesExecuted < limits.maxNodesExecuted
      && p.elapsed(s.timeChecks) <= limits.maxDurationSeconds && s.cost > limits.maxCostUsd
    case NodeFailed(e) => s.trace != [] && RunOf(p, s.trace[|s.trace| - 1]).outcome == Failed(e)
    case NoTrigger => false
  }

  ghost predicate NoneFailed(p: Program, trace: seq<Frame>) {
    forall k :: 0 <= k < |trace| ==> RunOf(p, trace[k]).outcome.Done?
  }

  /** Nothing failed, or only the last frame did. */
  ghost predicate FailedLast(p: Program, status: Status, trace: seq<Frame>) {
    if status.NodeFailed? then trace != [] && NoneFailed(p, trace[..|trace| - 1]) else NoneFailed(p, trace)
  }

  lemma {:induction false} RunEndsFor(p: Program, s: RunState)
    requires NoneFailed(p, s.trace)
    ensures var end := Run(p, s); EndsFor(p, end.status, end.state) && FailedLast(p, end.status, end.state.trace)
    decreases StepsLeft(p, s), |s.queue|
  {
    hide RunFrame, Children;
    if s.queue != [] && HaltBefore(p, s).None? {
      match RunFrame(p, s.queue[0])
      case None => RunEndsFor(p, Dequeue(s));
      case Some(r) =>
        var s' := Record(p, Dequeue(s), s.queue[0], r);
        assert s'.trace[..|s'.trace| - 1] == s.trace;
        if r.outcome.Done? { RunEndsFor(p, s'); }
    }
  }

  /** A run ends for the reason it gives, and the first frame that fails is the last that runs. */
  lemma ExecutionEndsForItsReason(p: Program)
    ensures var end := Execution(p);
            if end.status == NoTrigger then forall n :: n in p.wf.nodes ==> !n.config.Trigger?
            else EndsFor(p, end.status, end.state) && FailedLast(p, end.status, end.state.trace)
  {
    StartsAtFirstTrigger(p.wf.nodes);
    if FindTrigger(p.wf.nodes).Some? {
      RunEndsFor(p, StartState([Root(FindTrigger(p.wf.nodes).value)]));
    }
  }
}
