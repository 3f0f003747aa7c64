/**
 * The workflow executor (packages/workflow-engine/src/executor.ts): a work
 * queue over the graph the operator drew.
 *
 * The effects are deterministic functions; the clock is a function from the
 * number of time checks made so far to the seconds elapsed. `Run` specifies the
 * main loop and `ExecuteWorkflow` is the loop itself.
 */
module Executor {
  import opened Wrappers
  import opened Values
  import opened Workflows
  import opened TopologicalOrder

  type Item = Value

  datatype Scored = Scored(item: Item, anomalous: bool)

  /** The injected effects, the score arithmetic and the condition test. */
  datatype Effects = Effects(
    fetchSources: NodeConfig -> Result<seq<Item>>,
    scoreItem: (seq<string>, Item) -> Result<Scored>,
    dispatch: (NodeConfig, Item) -> Result<real>,
    archive: (NodeConfig, Item) -> Result<()>,
    notify: (Node, Item) -> Result<()>,
    holds: (Condition, Item) -> bool,
    transform: (seq<(string, string)>, Item) -> Item)

  /** A call of an effect that reaches the outside world. */
  datatype Call =
    | Dispatch(nodeId: string, item: Item)
    | Archived(nodeId: string, item: Item)
    | Notified(nodeId: string, item: Item)

  datatype Bucket = Bucket(items: seq<Item>, edgeLabel: Option<string>)

  datatype Outcome =
    | Done(branches: seq<Bucket>, cost: real, skipped: bool)
    | Failed(error: string)

  /** What running one node does: its outcome, the calls it makes and the anomalies it records. */
  datatype NodeRun = NodeRun(outcome: Outcome, calls: seq<Call>, anomalies: seq<Item>)

  datatype Frame = Frame(nodeId: string, items: seq<Item>)

  datatype StepStatus = StepOk | StepSkipped | StepFailed

  datatype StepResult = StepResult(nodeId: string, status: StepStatus, itemsIn: nat, itemsOut: nat)

  datatype HaltReason = NodeBudget | TimeBudget | CostBudget

  datatype Status = Completed | HaltedLimits(reason: HaltReason) | NodeFailed(error: string) | NoTrigger

  datatype Program = Program(wf: Workflow, effects: Effects, dryRun: bool, elapsed: nat -> real)

  // ------------------------------------------------------------------ single nodes

  /** The items that pass every condition, in their order. */
  function Kept(fx: Effects, conditions: seq<Condition>, items: seq<Item>): seq<Item> {
    if items == [] then []
    else
      var item := items[|items| - 1];
      Kept(fx, conditions, items[..|items| - 1])
      + (if forall c :: c in conditions ==> fx.holds(c, item) then [item] else [])
  }

  /** The label of the first case that holds, else the default. */
  function LabelOf(fx: Effects, cases: seq<Case>, defaultLabel: string, item: Item): string {
    if cases == [] then defaultLabel
    else if fx.holds(cases[0].condition, item) then cases[0].caseLabel
    else LabelOf(fx, cases[1..], defaultLabel, item)
  }

  function ItemsLabelled(fx: Effects, cfg: NodeConfig, items: seq<Item>, name: string): seq<Item>
    requires cfg.Branch?
  {
    if items == [] then []
    else
      var item := items[|items| - 1];
      ItemsLabelled(fx, cfg, items[..|items| - 1], name)
      + (if LabelOf(fx, cfg.cases, cfg.defaultLabel, item) == name then [item] else [])
  }

  /** The labels in use, in the order in which the items first need them. */
  function LabelsInUse(fx: Effects, cfg: NodeConfig, items: seq<Item>): seq<string>
    requires cfg.Branch?
  {
    if items == [] then []
    else
      var earlier := LabelsInUse(fx, cfg, items[..|items| - 1]);
      var name := LabelOf(fx, cfg.cases, cfg.defaultLabel, items[|items| - 1]);
      if name in earlier then earlier else earlier + [name]
  }

  function Buckets(fx: Effects, cfg: NodeConfig, items: seq<Item>): seq<Bucket>
    requires cfg.Branch?
  {
    var names := LabelsInUse(fx, cfg, items);
    seq(|names|, i requires 0 <= i < |names| => Bucket(ItemsLabelled(fx, cfg, items, names[i]), Some(names[i])))
  }

  /** One write effect for one item. */
  function Act(fx: Effects, node: Node, item: Item): Result<real> {
    match node.config
    case AgentTask(_, _, _, _, _) => fx.dispatch(node.config, item)
    case Archive(_, _, _) => (match fx.archive(node.config, item) case Ok(_) => Ok(0.0) case Err(e) => Err(e))
    case Notify(_, _, _, _, _) => (match fx.notify(node, item) case Ok(_) => Ok(0.0) case Err(e) => Err(e))
    case _ => Ok(0.0)
  }

  function CallFor(node: Node, item: Item): Call {
    match node.config
    case AgentTask(_, _, _, _, _) => Dispatch(node.id, item)
    case Archive(_, _, _) => Archived(node.id, item)
    case _ => Notified(node.id, item)
  }

  /** The total cost of acting on each item in turn, or the first error. */
  function ActOnAll(fx: Effects, node: Node, items: seq<Item>): Result<real> {
    if items == [] then Ok(0.0)
    else
      match ActOnAll(fx, node, items[..|items| - 1])
      case Err(e) => Err(e)
      case Ok(cost) =>
        match Act(fx, node, items[|items| - 1])
        case Err(e) => Err(e)
        case Ok(more) => Ok(cost + more)
  }

  /** The calls made: one per item up to and including the first that fails. */
  function CallsMade(fx: Effects, node: Node, items: seq<Item>): seq<Call> {
    if items == [] then []
    else
      var earlier := items[..|items| - 1];
      CallsMade(fx, node, earlier)
      + (if ActOnAll(fx, node, earlier).Ok? then [CallFor(node, items[|items| - 1])] else [])
  }

  function ScoredItems(fx: Effects, disabled: seq<string>, items: seq<Item>): Result<seq<Item>> {
    if items == [] then Ok([])
    else
      match ScoredItems(fx, disabled, items[..|items| - 1])
      case Err(e) => Err(e)
      case Ok(scored) =>
        match fx.scoreItem(disabled, items[|items| - 1])
        case Err(e) => Err(e)
        case Ok(s) => Ok(scored + [s.item])
  }

  /** The items whose band is above 'info', up to the first one that cannot be scored. */
  function AnomaliesFound(fx: Effects, disabled: seq<string>, items: seq<Item>): seq<Item> {
    if items == [] then []
    else
      var earlier := items[..|items| - 1];
      var item := items[|items| - 1];
      var s := fx.scoreItem(disabled, item);
      AnomaliesFound(fx, disabled, earlier)
      + (if ScoredItems(fx, disabled, earlier).Ok? && s.Ok? && s.value.anomalous then [item] else [])
  }

  function Mapped(fx: Effects, mappings: seq<(string, string)>, items: seq<Item>): seq<Item> {
    seq(|items|, i requires 0 <= i < |items| => fx.transform(mappings, items[i]))
  }

  function Acts(config: NodeConfig): bool {
    config.AgentTask? || config.Archive? || config.Notify?
  }

  function Passing(items: seq<Item>): seq<Bucket> {
    [Bucket(items, None)]
  }

  function NodeSpec(fx: Effects, dryRun: bool, node: Node, items: seq<Item>): NodeRun {
    match node.config
    case Trigger(_, _, _) => NodeRun(Done(Passing(items), 0.0, false), [], [])
    case Source(_, _, _) =>
      (match fx.fetchSources(node.config)
       case Ok(fetched) => NodeRun(Done(Passing(fetched), 0.0, false), [], [])
       case Err(e) => NodeRun(Failed(e), [], []))
    case Filter(conditions) => NodeRun(Done(Passing(Kept(fx, conditions, items)), 0.0, false), [], [])
    case Score(disabled) =>
      var anomalies := AnomaliesFound(fx, disabled, items);
      (match ScoredItems(fx, disabled, items)
       case Ok(scored) => NodeRun(Done(Passing(scored), 0.0, false), [], anomalies)
       case Err(e) => NodeRun(Failed(e), [], anomalies))
    case Branch(_, _) => NodeRun(Done(Buckets(fx, node.config, items), 0.0, false), [], [])
    case Delay(_) => NodeRun(Done(Passing(items), 0.0, false), [], [])
    case Transform(mappings) => NodeRun(Done(Passing(Mapped(fx, mappings, items)), 0.0, false), [], [])
    case _ =>
      if dryRun then NodeRun(Done(Passing(items), 0.0, true), [], [])
      else
        match ActOnAll(fx, node, items)
        case Ok(cost) => NodeRun(Done(Passing(items), cost, false), CallsMade(fx, node, items), [])
        case Err(e) => NodeRun(Failed(e), CallsMade(fx, node, items), [])
  }

  // ------------------------------------------------------------------- the main loop

  /** An absent label, and the empty one, select every edge. */
  predicate Selects(edgeLabel: Option<string>, e: Edge) {
    edgeLabel == None || edgeLabel == Some("") || e.caseLabel == edgeLabel
  }

  /** The frames one branch sends along the edges out of `u`, in the order of the edges. */
  function Emit(edges: seq<Edge>, u: string, b: Bucket): seq<Frame> {
    if edges == [] then []
    else
      var e := edges[|edges| - 1];
      Emit(edges[..|edges| - 1], u, b) + (if e.from == u && Selects(b.edgeLabel, e) then [Frame(e.to, b.items)] else [])
  }

  function EmitAll(edges: seq<Edge>, u: string, branches: seq<Bucket>): seq<Frame> {
    if branches == [] then []
    else
      var b := branches[|branches| - 1];
      EmitAll(edges, u, branches[..|branches| - 1]) + (if b.items == [] then [] else Emit(edges, u, b))
  }

  function ItemCount(branches: seq<Bucket>): nat {
    if branches == [] then 0
    else ItemCount(branches[..|branches| - 1]) + |branches[|branches| - 1].items|
  }

  /** The state of the loop; `trace` is the list of frames whose node has been run. */
  datatype RunState = RunState(
    queue: seq<Frame>, nodesExecuted: nat, timeChecks: nat, cost: real,
    steps: seq<StepResult>, anomalies: seq<Item>, calls: seq<Call>, trace: seq<Frame>)

  datatype Finished = Finished(status: Status, state: RunState)

  function HaltBefore(p: Program, s: RunState): Option<HaltReason> {
    if s.nodesExecuted >= p.wf.limits.maxNodesExecuted then Some(NodeBudget)
    else if p.elapsed(s.timeChecks) > p.wf.limits.maxDurationSeconds then Some(TimeBudget)
    else if s.cost > p.wf.limits.maxCostUsd then Some(CostBudget)
    else None
  }

  function RunFrame(p: Program, f: Frame): Option<NodeRun> {
    match FindNode(p.wf.nodes, f.nodeId)
    case None => None
    case Some(node) => Some(NodeSpec(p.effects, p.dryRun, node, f.items))
  }

  /** The frames that running `f` puts on the queue. */
  function Children(p: Program, f: Frame): seq<Frame> {
    match RunFrame(p, f)
    case Some(NodeRun(Done(branches, _, _), _, _)) => EmitAll(p.wf.edges, f.nodeId, branches)
    case _ => []
  }

  function StepFor(f: Frame, outcome: Outcome): StepResult {
    match outcome
    case Done(branches, _, skipped) =>
      StepResult(f.nodeId, if skipped then StepSkipped else StepOk, |f.items|, ItemCount(branches))
    case Failed(_) => StepResult(f.nodeId, StepFailed, |f.items|, 0)
  }

  /** The state after running the node of the frame just taken off the queue. */
  function Record(p: Program, s: RunState, f: Frame, r: NodeRun): RunState {
    s.(queue := s.queue + Children(p, f),
       nodesExecuted := s.nodesExecuted + 1,
       cost := s.cost + (if r.outcome.Done? then r.outcome.cost else 0.0),
       steps := s.steps + [StepFor(f, r.outcome)],
       anomalies := s.anomalies + r.anomalies,
       calls := s.calls + r.calls,
       trace := s.trace + [f])
  }

  function Dequeue(s: RunState): RunState
    requires s.queue != []
  {
    s.(queue := s.queue[1..], timeChecks := s.timeChecks + 1)
  }

  function StepsLeft(p: Program, s: RunState): nat {
    if p.wf.limits.maxNodesExecuted >= s.nodesExecuted then p.wf.limits.maxNodesExecuted - s.nodesExecuted else 0
  }

  /** The main loop. It ends on every workflow, cyclic or not. */
  function Run(p: Program, s: RunState): Finished
    decreases StepsLeft(p, s), |s.queue|
  {
    if s.queue == [] then Finished(Completed, s)
    else
      match HaltBefore(p, s)
      case Some(reason) => Finished(HaltedLimits(reason), s)
      case None =>
        match RunFrame(p, s.queue[0])
        case None => Run(p, Dequeue(s))
        case Some(r) =>
          var s' := Record(p, Dequeue(s), s.queue[0], r);
          if r.outcome.Failed? then Finished(NodeFailed(r.outcome.error), s') else Run(p, s')
  }

  function FindTrigger(nodes: seq<Node>): Option<Node> {
    if nodes == [] then None
    else if nodes[0].config.Trigger? then Some(nodes[0])
    else FindTrigger(nodes[1..])
  }

  function Root(trigger: Node): Frame {
    Frame(trigger.id, [Object([])])
  }

  function StartState(queue: seq<Frame>): RunState {
    RunState(queue, 0, 0, 0.0, [], [], [], [])
  }

  function Execution(p: Program): Finished {
    match FindTrigger(p.wf.nodes)
    case None => Finished(NoTrigger, StartState([]))
    case Some(trigger) => Run(p, StartState([Root(trigger)]))
  }

  // -------------------------------------------------------------- the code, as written

  method RunFilter(fx: Effects, conditions: seq<Condition>, items: seq<Item>) returns (kept: seq<Item>)
    ensures kept == Kept(fx, conditions, items)
  {
    kept := [];
    for i := 0 to |items|
      invariant kept == Kept(fx, conditions, items[..i])
    {
      assert items[..i + 1][..i] == items[..i];
      if forall c :: c in conditions ==> fx.holds(c, items[i]) {
        kept := kept + [items[i]];
      }
    }
    assert items[..|items|] == items;
  }

  /** The first case that holds decides the bucket of an item; buckets are kept in order of first use. */
  method RunBranch(fx: Effects, cfg: NodeConfig, items: seq<Item>) returns (branches: seq<Bucket>)
    requires cfg.Branch?
    ensures branches == Buckets(fx, cfg, items)
  {
    var names: seq<string> := [];
    var buckets: map<string, seq<Item>> := map[];
    for i := 0 to |items|
      invariant names == LabelsInUse(fx, cfg, items[..i])
      invariant forall name :: name in buckets <==> name in names
      invariant forall name :: name in buckets ==> buckets[name] == ItemsLabelled(fx, cfg, items[..i], name)
      invariant forall name :: name !in names ==> ItemsLabelled(fx, cfg, items[..i], name) == []
    {
      assert items[..i + 1][..i] == items[..i];
      var item := items[i];
      var name := FirstMatch(fx, cfg.cases, cfg.defaultLabel, item);
      var bucket := if name in buckets then buckets[name] else [];
      if name !in buckets {
        names := names + [name];
      }
      buckets := buckets[name := bucket + [item]];
    }
    assert items[..|items|] == items;
    branches := Entries(names, buckets);
  }

  /** The entries of the bucket map, in insertion order. */
  method Entries(names: seq<string>, buckets: map<string, seq<Item>>) returns (branches: seq<Bucket>)
    requires forall name :: name in names ==> name in buckets
    ensures |branches| == |names|
    ensures forall i :: 0 <= i < |names| ==> branches[i] == Bucket(buckets[names[i]], Some(names[i]))
  {
    branches := [];
    for i := 0 to |names|
      invariant |branches| == i
      invariant forall k :: 0 <= k < i ==> branches[k] == Bucket(buckets[names[k]], Some(names[k]))
    {
      branches := branches + [Bucket(buckets[names[i]], Some(names[i]))];
    }
  }

  method FirstMatch(fx: Effects, cases: seq<Case>, defaultLabel: string, item: Item) returns (name: string)
    ensures name == LabelOf(fx, cases, defaultLabel, item)
  {
    for i := 0 to |cases|
      invariant LabelOf(fx, cases, defaultLabel, item) == LabelOf(fx, cases[i..], defaultLabel, item)
    {
      if fx.holds(cases[i].condition, item) {
        return cases[i].caseLabel;
      }
      assert cases[i..][1..] == cases[i + 1..];
    }
    name := defaultLabel;
  }

  /** Dispatching, archiving and notifying stop at the first item whose effect fails. */
  method RunAction(fx: Effects, node: Node, items: seq<Item>) returns (outcome: Outcome, calls: seq<Call>)
    ensures calls == CallsMade(fx, node, items)
    ensures outcome == match ActOnAll(fx, node, items)
                       case Ok(cost) => Done(Passing(items), cost, false)
                       case Err(e) => Failed(e)
  {
    var cost := 0.0;
    calls := [];
    for i := 0 to |items|
      invariant ActOnAll(fx, node, items[..i]) == Ok(cost)
      invariant calls == CallsMade(fx, node, items[..i])
    {
      assert items[..i + 1][..i] == items[..i];
      calls := calls + [CallFor(node, items[i])];
      match Act(fx, node, items[i])
      case Err(e) =>
        StopsForGood(fx, node, items, i + 1, e);
        return Failed(e), calls;
      case Ok(more) =>
        cost := cost + more;
    }
    assert items[..|items|] == items;
    outcome := Done(Passing(items), cost, false);
  }

  lemma {:induction false} StopsForGood(fx: Effects, node: Node, items: seq<Item>, i: nat, e: string)
    requires i <= |items| && ActOnAll(fx, node, items[..i]) == Err(e)
    ensures ActOnAll(fx, node, items) == Err(e)
    ensures CallsMade(fx, node, items) == CallsMade(fx, node, items[..i])
  {
    if i == |items| {
      assert items[..i] == items;
    } else {
      assert items[..|items| - 1][..i] == items[..i];
      StopsForGood(fx, node, items[..|items| - 1], i, e);
    }
  }

  method RunScore(fx: Effects, disabled: seq<string>, items: seq<Item>)
      returns (scored: Result<seq<Item>>, anomalies: seq<Item>)
    ensures scored == ScoredItems(fx, disabled, items)
    ensures anomalies == AnomaliesFound(fx, disabled, items)
  {
    var done: seq<Item> := [];
    anomalies := [];
    for i := 0 to |items|
      invariant ScoredItems(fx, disabled, items[..i]) == Ok(done)
      invariant anomalies == AnomaliesFound(fx, disabled, items[..i])
    {
      assert items[..i + 1][..i] == items[..i];
      match fx.scoreItem(disabled, items[i])
      case Err(e) =>
        ScoringStops(fx, disabled, items, i + 1, e);
        return Err(e), anomalies;
      case Ok(s) =>
        done := done + [s.item];
        if s.anomalous {
          anomalies := anomalies + [items[i]];
        }
    }
    assert items[..|items|] == items;
    scored := Ok(done);
  }

  lemma {:induction false} ScoringStops(fx: Effects, disabled: seq<string>, items: seq<Item>, i: nat, e: string)
    requires i <= |items| && ScoredItems(fx, disabled, items[..i]) == Err(e)
    ensures ScoredItems(fx, disabled, items) == Err(e)
    ensures AnomaliesFound(fx, disabled, items) == AnomaliesFound(fx, disabled, items[..i])
  {
    if i == |items| {
      assert items[..i] == items;
    } else {
      assert items[..|items| - 1][..i] == items[..i];
      ScoringStops(fx, disabled, items[..|items| - 1], i, e);
    }
  }

  method RunNode(fx: Effects, dryRun: bool, node: Node, items: seq<Item>) returns (r: NodeRun)
    ensures r == NodeSpec(fx, dryRun, node, items)
  {
    match node.config
    case Trigger(_, _, _) =>
      r := NodeRun(Done(Passing(items), 0.0, false), [], []);
    case Source(_, _, _) =>
      var fetched := fx.fetchSources(node.config);
      match fetched {
        case Ok(found) => r := NodeRun(Done(Passing(found), 0.0, false), [], []);
        case Err(e) => r := NodeRun(Failed(e), [], []);
      }
    case Filter(conditions) =>
      var kept := RunFilter(fx, conditions, items);
      r := NodeRun(Done(Passing(kept), 0.0, false), [], []);
    case Score(disabled) =>
      var scored, anomalies := RunScore(fx, disabled, items);
      match scored {
        case Ok(done) => r := NodeRun(Done(Passing(done), 0.0, false), [], anomalies);
        case Err(e) => r := NodeRun(Failed(e), [], anomalies);
      }
    case Branch(_, _) =>
      var branches := RunBranch(fx, node.config, items);
      r := NodeRun(Done(branches, 0.0, false), [], []);
    case Delay(_) =>
      r := NodeRun(Done(Passing(items), 0.0, false), [], []);
    case Transform(mappings) =>
      r := NodeRun(Done(Passing(Mapped(fx, mappings, items)), 0.0, false), [], []);
    case _ =>
      if dryRun {
        r := NodeRun(Done(Passing(items), 0.0, true), [], []);
      } else {
        var outcome, calls := RunAction(fx, node, items);
        r := NodeRun(outcome, calls, []);
      }
  }

  method EnqueueBranch(edges: seq<Edge>, u: string, b: Bucket, queue0: seq<Frame>) returns (queue: seq<Frame>)
    ensures queue == queue0 + Emit(edges, u, b)
  {
    queue := queue0;
    for k := 0 to |edges|
      invariant queue == queue0 + Emit(edges[..k], u, b)
    {
      assert edges[..k + 1][..k] == edges[..k];
      if edges[k].from == u && Selects(b.edgeLabel, edges[k]) {
        queue := queue + [Frame(edges[k].to, b.items)];
      }
    }
    assert edges[..|edges|] == edges;
  }

  /** Empty branches send nothing; the others follow every edge they select. */
  method Enqueue(edges: seq<Edge>, u: string, branches: seq<Bucket>, queue0: seq<Frame>) returns (queue: seq<Frame>)
    ensures queue == queue0 + EmitAll(edges, u, branches)
  {
    queue := queue0;
    for i := 0 to |branches|
      invariant queue == queue0 + EmitAll(edges, u, branches[..i])
    {
      assert branches[..i + 1][..i] == branches[..i];
      if branches[i].items != [] {
        queue := EnqueueBranch(edges, u, branches[i], queue);
      }
    }
    assert branches[..|branches|] == branches;
  }

  datatype ExecutionResult = ExecutionResult(
    status: Status, dryRun: bool, nodesExecuted: nat, estimatedCostUsd: real,
    steps: seq<StepResult>, anomalies: seq<Item>)

  method ExecuteWorkflow(p: Program) returns (result: ExecutionResult, calls: seq<Call>)
    ensures var end := Execution(p).state;
            && result.status == Execution(p).status && result.dryRun == p.dryRun
            && result.nodesExecuted == end.nodesExecuted && result.estimatedCostUsd == end.cost
            && result.steps == end.steps && result.anomalies == end.anomalies && calls == end.calls
  {
    hide NodeSpec, EmitAll, StepFor, FindTrigger, FindNode;
    var steps: seq<StepResult> := [];
    var anomalies: seq<Item> := [];
    var nodesExecuted := 0;
    var timeChecks := 0;
    var cost := 0.0;
    calls := [];
    ghost var trace: seq<Frame> := [];
    var trigger := FindTrigger(p.wf.nodes);
    if trigger.None? {
      return ExecutionResult(NoTrigger, p.dryRun, nodesExecuted, cost, steps, anomalies), calls;
    }
    var queue := [Root(trigger.value)];
    while queue != []
      invariant Execution(p) == Run(p, RunState(queue, nodesExecuted, timeChecks, cost, steps, anomalies, calls, trace))
      decreases p.wf.limits.maxNodesExecuted - nodesExecuted, |queue|
    {
      ghost var s := RunState(queue, nodesExecuted, timeChecks, cost, steps, anomalies, calls, trace);
      if nodesExecuted >= p.wf.limits.maxNodesExecuted {
        return ExecutionResult(HaltedLimits(NodeBudget), p.dryRun, nodesExecuted, cost, steps, anomalies), calls;
      }
      if p.elapsed(timeChecks) > p.wf.limits.maxDurationSeconds {
        return ExecutionResult(HaltedLimits(TimeBudget), p.dryRun, nodesExecuted, cost, steps, anomalies), calls;
      }
      if cost > p.wf.limits.maxCostUsd {
        return ExecutionResult(HaltedLimits(CostBudget), p.dryRun, nodesExecuted, cost, steps, anomalies), calls;
      }
      var frame := queue[0];
      queue, timeChecks := queue[1..], timeChecks + 1;
      var node := FindNode(p.wf.nodes, frame.nodeId);
      if node.Some? {
        nodesExecuted := nodesExecuted + 1;
        var r := RunNode(p.effects, p.dryRun, node.value, frame.items);
        calls, anomalies := calls + r.calls, anomalies + r.anomalies;
        steps := steps + [StepFor(frame, r.outcome)];
        trace := trace + [frame];
        if r.outcome.Failed? {
          return ExecutionResult(NodeFailed(r.outcome.error), p.dryRun, nodesExecuted, cost, steps, anomalies), calls;
        }
        cost := cost + r.outcome.cost;
        queue := Enqueue(p.wf.edges, frame.nodeId, r.outcome.branches, queue);
      }
    }
    result := ExecutionResult(Completed, p.dryRun, nodesExecuted, cost, steps, anomalies);
  }
}
