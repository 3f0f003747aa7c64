/**
 * `validateWorkflow` (packages/workflow-engine/src/validate.ts) for input that has
 * passed the schema: every error and every warning it can report, and the rule by
 * which it accepts.
 */
module Validation {
  import opened Basics
  import opened Wrappers
  import opened Workflows
  import opened GraphSearch
  import CycleSearch

  datatype Code =
    | DuplicateNodeId | NoTriggerNode | MultipleTriggers | MissingSchedule | MissingEventType
    | DanglingEdge | SelfLoop | UnlabelledBranchEdge | UnknownBranchLabel | CycleDetected
    | UnreachableNode | BranchDeadEnd | UnconnectedCase | NotifyWithoutScore | ScoreWithoutArchive | NoDedupe

  /** The subject is the id of the node or edge that is named, if one is. */
  datatype Issue = Issue(code: Code, subject: string)

  predicate IsWarning(code: Code) {
    code in {UnreachableNode, BranchDeadEnd, UnconnectedCase, NotifyWithoutScore, ScoreWithoutArchive, NoDedupe}
  }

  predicate IsError(issue: Issue) {
    !IsWarning(issue.code)
  }

  function Triggers(nodes: seq<Node>): seq<Node> {
    if nodes == [] then []
    else Triggers(nodes[..|nodes| - 1]) + (if nodes[|nodes| - 1].config.Trigger? then [nodes[|nodes| - 1]] else [])
  }

  predicate IsBlank(text: Option<string>) {
    text == None || text == Some("")
  }

  predicate TriggerComplete(config: Workflows.NodeConfig) {
    config.Trigger? ==>
      && (config.mode.Schedule? ==> !IsBlank(config.schedule))
      && (config.mode.Event? ==> !IsBlank(config.eventType))
  }

  predicate NoSelfLoops(wf: Workflow) {
    forall e :: e in wf.edges ==> e.from != e.to
  }

  function CaseLabels(config: Workflows.NodeConfig): set<string>
    requires config.Branch?
  {
    (set c | c in config.cases :: c.caseLabel) + {config.defaultLabel}
  }

  /** Each edge out of a branch node carries the label of one of its cases. */
  predicate EdgeLabelKnown(node: Node, e: Edge) {
    node.config.Branch? && e.from == node.id ==> !IsBlank(e.caseLabel) && e.caseLabel.value in CaseLabels(node.config)
  }

  predicate BranchEdgesLabelled(wf: Workflow) {
    forall n, e :: n in wf.nodes && e in wf.edges ==> EdgeLabelKnown(n, e)
  }

  /** What publishing requires, stated without reference to how it is checked. */
  ghost predicate Publishable(wf: Workflow) {
    && DistinctIds(wf)
    && |Triggers(wf.nodes)| == 1
    && (forall n :: n in wf.nodes ==> TriggerComplete(n.config))
    && NoDanglingEdges(wf)
    && NoSelfLoops(wf)
    && BranchEdgesLabelled(wf)
    && Acyclic(wf)
  }

  function IsTrigger(): Node -> bool {
    (n: Node) => n.config.Trigger?
  }

  lemma {:induction false} TriggersInOrder(nodes: seq<Node>)
    ensures IsFilterOf(Triggers(nodes), nodes, IsTrigger())
  {
    hide IsFilterOf;
    if nodes == [] {
      NothingToFilter(IsTrigger());
    } else {
      var earlier, last := nodes[..|nodes| - 1], nodes[|nodes| - 1];
      TriggersInOrder(earlier);
      FilterOneMore(Triggers(earlier), earlier, IsTrigger(), last);
      assert nodes == earlier + [last];
    }
  }

  ghost predicate IsOnlyTrigger(nodes: seq<Node>, k: nat) {
    k < |nodes| && forall j :: 0 <= j < |nodes| ==> (nodes[j].config.Trigger? <==> j == k)
  }

  lemma OneTrigger(nodes: seq<Node>)
    ensures |Triggers(nodes)| == 1 <==> exists k: nat :: IsOnlyTrigger(nodes, k)
  {
    hide Triggers;
    TriggersInOrder(nodes);
    var at: seq<nat> :| KeepsAt(Triggers(nodes), nodes, IsTrigger(), at);
    PositionsOfTriggers(nodes, at);
  }

  lemma PositionsOfTriggers(nodes: seq<Node>, at: seq<nat>)
    requires KeepsAt(Triggers(nodes), nodes, IsTrigger(), at)
    ensures |at| == |Triggers(nodes)|
    ensures |at| == 1 <==> exists k: nat :: IsOnlyTrigger(nodes, k)
  {
    hide Triggers;
    assert forall k :: 0 <= k < |nodes| ==> (IsTrigger()(nodes[k]) <==> k in at);
    assert forall k :: 0 <= k < |nodes| ==> (nodes[k].config.Trigger? <==> k in at);
    if |at| == 1 {
      assert forall k :: k in at ==> k == at[0];
      assert at[0] in at && IsOnlyTrigger(nodes, at[0]);
    }
    if |at| >= 2 {
      assert at[0] in at && at[1] in at;
      assert nodes[at[0]].config.Trigger? && nodes[at[1]].config.Trigger? && at[0] < at[1];
    }
    if k: nat :| IsOnlyTrigger(nodes, k) {
      assert k in at;
    }
  }

  /** A trigger that runs on a schedule or an event says which. */
  ghost predicate SaysWhen(config: Workflows.NodeConfig) {
    && (config.Trigger? && config.mode.Schedule? ==> exists text :: config.schedule == Some(text) && text != "")
    && (config.Trigger? && config.mode.Event? ==> exists text :: config.eventType == Some(text) && text != "")
  }

  /** An edge out of a branch node carries the label of one of its cases, or the default label. */
  ghost predicate CarriesLabel(n: Node, e: Edge) {
    n.config.Branch? && e.from == n.id ==>
      exists name :: e.caseLabel == Some(name) && name != ""
                     && (name == n.config.defaultLabel || exists c :: c in n.config.cases && c.caseLabel == name)
  }

  lemma CarriesKnownLabel(n: Node, e: Edge)
    ensures EdgeLabelKnown(n, e) <==> CarriesLabel(n, e)
  {
  }

  lemma TriggerSaysWhen(config: Workflows.NodeConfig)
    ensures TriggerComplete(config) <==> SaysWhen(config)
  {
  }

  /** What publishing requires, in full. */
  lemma PublishableExactlyWhen(wf: Workflow)
    ensures Publishable(wf) <==>
              && (forall i, j :: 0 <= i < j < |wf.nodes| ==> wf.nodes[i].id != wf.nodes[j].id)
              && (exists k: nat :: IsOnlyTrigger(wf.nodes, k))
              && (forall n :: n in wf.nodes ==> SaysWhen(n.config))
              && (forall e :: e in wf.edges ==>
                    e.from != e.to && (exists n :: n in wf.nodes && n.id == e.from)
                    && (exists n :: n in wf.nodes && n.id == e.to))
              && (forall n, e :: n in wf.nodes && e in wf.edges ==> CarriesLabel(n, e))
              && (forall walk :: !IsClosedWalk(wf, walk))
  {
    hide SaysWhen, TriggerComplete, EdgeLabelKnown, CarriesLabel, IsClosedWalk, IsOnlyTrigger, Triggers;
    OneTrigger(wf.nodes);
    forall n | n in wf.nodes
      ensures TriggerComplete(n.config) <==> SaysWhen(n.config)
    {
      TriggerSaysWhen(n.config);
    }
    forall n, e
      ensures EdgeLabelKnown(n, e) <==> CarriesLabel(n, e)
    {
      CarriesKnownLabel(n, e);
    }
    EndsAreNodes(wf);
  }

  lemma EndsAreNodes(wf: Workflow)
    ensures NoDanglingEdges(wf) && NoSelfLoops(wf) <==>
            forall e :: e in wf.edges ==>
              e.from != e.to && (exists n :: n in wf.nodes && n.id == e.from)
              && (exists n :: n in wf.nodes && n.id == e.to)
  {
    assert forall id :: id in NodeIds(wf) <==> exists n :: n in wf.nodes && n.id == id;
  }

  // -------------------------------------------------------------- what is to be reported

  predicate TriggerHas(n: Node, x: Issue) {
    && n.config.Trigger? && x.subject == n.id
    && ((x.code == MissingSchedule && n.config.mode.Schedule? && IsBlank(n.config.schedule))
        || (x.code == MissingEventType && n.config.mode.Event? && IsBlank(n.config.eventType)))
  }

  predicate EdgeHas(ids: set<string>, e: Edge, x: Issue) {
    && x.subject == e.id
    && ((x.code == DanglingEdge && (e.from !in ids || e.to !in ids)) || (x.code == SelfLoop && e.from == e.to))
  }

  /** What an edge out of a branch node has wrong with its label. */
  predicate LabelHas(n: Node, e: Edge, x: Issue) {
    && n.config.Branch? && e.from == n.id && x.subject == e.id
    && ((x.code == UnlabelledBranchEdge && IsBlank(e.caseLabel))
        || (x.code == UnknownBranchLabel && !IsBlank(e.caseLabel) && e.caseLabel.value !in CaseLabels(n.config)))
  }

  /** A case whose label no edge out of the node carries. */
  predicate CaseHas(wf: Workflow, n: Node, c: Case, x: Issue) {
    x == Issue(UnconnectedCase, n.id)
    && forall e :: e in wf.edges && e.from == n.id ==> e.caseLabel != Some(c.caseLabel)
  }

  predicate BranchHas(wf: Workflow, n: Node, x: Issue) {
    && n.config.Branch?
    && ((x == Issue(BranchDeadEnd, n.id) && forall e :: e in wf.edges ==> e.from != n.id)
        || (exists e :: e in wf.edges && LabelHas(n, e, x))
        || (exists c :: c in n.config.cases && CaseHas(wf, n, c, x)))
  }

  predicate HasScore(wf: Workflow) {
    exists n :: n in wf.nodes && n.config.Score?
  }

  predicate HasNotify(wf: Workflow) {
    exists n :: n in wf.nodes && n.config.Notify?
  }

  predicate HasArchive(wf: Workflow) {
    exists n :: n in wf.nodes && n.config.Archive?
  }

  predicate NotifyHas(n: Node, x: Issue) {
    x == Issue(NoDedupe, n.id) && n.config.Notify? && n.config.dedupeWindowMinutes == 0
  }

  /** Exactly what the validator reports of a workflow. */
  ghost predicate Warranted(wf: Workflow, x: Issue) {
    || (x == Issue(DuplicateNodeId, "") && !DistinctIds(wf))
    || (x == Issue(NoTriggerNode, "") && |Triggers(wf.nodes)| == 0)
    || (x == Issue(MultipleTriggers, "") && |Triggers(wf.nodes)| > 1)
    || (exists n :: n in wf.nodes && TriggerHas(n, x))
    || (exists e :: e in wf.edges && EdgeHas(NodeIds(wf), e, x))
    || (exists n :: n in wf.nodes && BranchHas(wf, n, x))
    || (x == Issue(CycleDetected, "") && !Acyclic(wf))
    || (x.code == UnreachableNode && |Triggers(wf.nodes)| == 1 && x.subject in NodeIds(wf)
        && !Reaches(wf, Triggers(wf.nodes)[0].id, x.subject))
    || GuidanceHas(wf, x)
  }

  ghost predicate GuidanceHas(wf: Workflow, x: Issue) {
    || (x == Issue(NotifyWithoutScore, "") && HasNotify(wf) && !HasScore(wf))
    || (x == Issue(ScoreWithoutArchive, "") && HasScore(wf) && !HasArchive(wf))
    || (exists n :: n in wf.nodes && NotifyHas(n, x))
  }

  ghost predicate NothingWrong(wf: Workflow) {
    forall x :: Warranted(wf, x) ==> !IsError(x)
  }

  lemma TriggersComplete(wf: Workflow)
    ensures (forall n, x :: n in wf.nodes && TriggerHas(n, x) ==> !IsError(x))
            <==> forall n :: n in wf.nodes ==> TriggerComplete(n.config)
  {
    forall n | n in wf.nodes && !TriggerComplete(n.config)
      ensures exists x :: TriggerHas(n, x) && IsError(x)
    {
      assert TriggerHas(n, Issue(MissingSchedule, n.id)) || TriggerHas(n, Issue(MissingEventType, n.id));
    }
  }

  lemma EdgesFit(wf: Workflow)
    ensures (forall e, x :: e in wf.edges && EdgeHas(NodeIds(wf), e, x) ==> !IsError(x))
            <==> NoDanglingEdges(wf) && NoSelfLoops(wf)
  {
    hide NodeIds;
    forall e | e in wf.edges && !(e.from in NodeIds(wf) && e.to in NodeIds(wf) && e.from != e.to)
      ensures exists x :: EdgeHas(NodeIds(wf), e, x) && IsError(x)
    {
      assert EdgeHas(NodeIds(wf), e, Issue(DanglingEdge, e.id)) || EdgeHas(NodeIds(wf), e, Issue(SelfLoop, e.id));
    }
  }

  lemma KnownLabelIsFine(n: Node, e: Edge, x: Issue)
    ensures EdgeLabelKnown(n, e) ==> !LabelHas(n, e, x)
  {
  }

  lemma LabelsFit(wf: Workflow)
    ensures (forall n, x :: n in wf.nodes && BranchHas(wf, n, x) ==> !IsError(x)) <==> BranchEdgesLabelled(wf)
  {
    forall n, e | n in wf.nodes && e in wf.edges && !EdgeLabelKnown(n, e)
      ensures exists x :: BranchHas(wf, n, x) && IsError(x)
    {
      assert LabelHas(n, e, Issue(UnlabelledBranchEdge, e.id)) || LabelHas(n, e, Issue(UnknownBranchLabel, e.id));
      assert BranchHas(wf, n, Issue(UnlabelledBranchEdge, e.id)) || BranchHas(wf, n, Issue(UnknownBranchLabel, e.id));
    }
    if BranchEdgesLabelled(wf) {
      forall n, x | n in wf.nodes && BranchHas(wf, n, x)
        ensures !IsError(x)
      {
        forall e | e in wf.edges
          ensures !LabelHas(n, e, x)
        {
          KnownLabelIsFine(n, e, x);
        }
      }
    }
  }

  /** Nothing that is reported is an error exactly when the workflow can be published. */
  lemma AcceptanceIsPublishable(wf: Workflow)
    ensures NothingWrong(wf) <==> Publishable(wf)
  {
    hide DistinctIds, Acyclic, Reaches, Triggers, NodeIds, TriggerHas, EdgeHas, BranchHas, TriggerComplete,
         NoDanglingEdges, NoSelfLoops, BranchEdgesLabelled;
    TriggersComplete(wf);
    EdgesFit(wf);
    LabelsFit(wf);
    if NothingWrong(wf) {
      assert !Warranted(wf, Issue(DuplicateNodeId, "")) && !Warranted(wf, Issue(CycleDetected, ""));
      assert !Warranted(wf, Issue(NoTriggerNode, "")) && !Warranted(wf, Issue(MultipleTriggers, ""));
      forall n, x | n in wf.nodes && TriggerHas(n, x) ensures !IsError(x) { assert Warranted(wf, x); }
      forall e, x | e in wf.edges && EdgeHas(NodeIds(wf), e, x) ensures !IsError(x) { assert Warranted(wf, x); }
      forall n, x | n in wf.nodes && BranchHas(wf, n, x) ensures !IsError(x) { assert Warranted(wf, x); }
    }
  }

  // ---------------------------------------------------------------- one check a method

  function IdSet(nodes: seq<Node>): set<string> {
    set n | n in nodes :: n.id
  }

  predicate AllDistinct(nodes: seq<Node>) {
    forall i, j :: 0 <= i < j < |nodes| ==> nodes[i].id != nodes[j].id
  }

  lemma DistinctOneMore(earlier: seq<Node>, last: Node)
    ensures IdSet(earlier + [last]) == IdSet(earlier) + {last.id}
    ensures AllDistinct(earlier + [last]) <==> AllDistinct(earlier) && last.id !in IdSet(earlier)
  {
    var nodes := earlier + [last];
    assert nodes[|earlier|] == last && forall i :: 0 <= i < |earlier| ==> nodes[i] == earlier[i];
    if AllDistinct(nodes) {
      forall i, j | 0 <= i < j < |earlier| ensures earlier[i].id != earlier[j].id {
        assert nodes[i].id != nodes[j].id;
      }
    }
  }

  /** Counting the distinct ids detects a repeated one. */
  lemma {:induction false} DistinctByCount(nodes: seq<Node>)
    ensures |IdSet(nodes)| <= |nodes|
    ensures |IdSet(nodes)| == |nodes| <==> AllDistinct(nodes)
  {
    if nodes != [] {
      var earlier, last := nodes[..|nodes| - 1], nodes[|nodes| - 1];
      hide AllDistinct, IdSet;
      DistinctByCount(earlier);
      DistinctOneMore(earlier, last);
      assert nodes == earlier + [last];
      if last.id in IdSet(earlier) {
        assert IdSet(earlier) + {last.id} == IdSet(earlier);
      }
    } else {
      assert IdSet(nodes) == {};
    }
  }

  lemma DistinctIdsByCount(wf: Workflow)
    ensures |NodeIds(wf)| == |wf.nodes| <==> DistinctIds(wf)
  {
    assert NodeIds(wf) == IdSet(wf.nodes);
    DistinctByCount(wf.nodes);
  }

  lemma {:induction false} TriggersAreTriggers(nodes: seq<Node>)
    ensures forall n :: n in Triggers(nodes) <==> n in nodes && n.config.Trigger?
  {
    if nodes != [] {
      TriggersAreTriggers(nodes[..|nodes| - 1]);
      assert nodes == nodes[..|nodes| - 1] + [nodes[|nodes| - 1]];
    }
  }

  method CheckTriggers(wf: Workflow, triggers: seq<Node>) returns (issues: seq<Issue>)
    requires triggers == Triggers(wf.nodes)
    ensures forall x :: x in issues <==>
              || (x == Issue(NoTriggerNode, "") && |triggers| == 0)
              || (x == Issue(MultipleTriggers, "") && |triggers| > 1)
              || exists n :: n in wf.nodes && TriggerHas(n, x)
  {
    TriggersAreTriggers(wf.nodes);
    issues := [];
    if |triggers| == 0 {
      issues := [Issue(NoTriggerNode, "")];
    } else if |triggers| > 1 {
      issues := [Issue(MultipleTriggers, "")];
    }
    ghost var first := issues;
    for i := 0 to |triggers|
      invariant forall x :: x in issues <==> x in first || exists k :: 0 <= k < i && TriggerHas(triggers[k], x)
    {
      var t := triggers[i];
      var found: seq<Issue> := [];
      if t.config.mode.Schedule? && IsBlank(t.config.schedule) {
        found := [Issue(MissingSchedule, t.id)];
      }
      if t.config.mode.Event? && IsBlank(t.config.eventType) {
        found := found + [Issue(MissingEventType, t.id)];
      }
      assert forall x :: x in found <==> TriggerHas(t, x);
      issues := issues + found;
    }
    forall n, x | n in wf.nodes && TriggerHas(n, x)
      ensures exists k :: 0 <= k < |triggers| && TriggerHas(triggers[k], x)
    {
      assert n in triggers;
    }
  }

  method CheckEdges(wf: Workflow, ids: set<string>) returns (issues: seq<Issue>)
    ensures forall x :: x in issues <==> exists e :: e in wf.edges && EdgeHas(ids, e, x)
  {
    issues := [];
    for i := 0 to |wf.edges|
      invariant forall x :: x in issues <==> exists k :: 0 <= k < i && EdgeHas(ids, wf.edges[k], x)
    {
      var e := wf.edges[i];
      var found := (if e.from !in ids then [Issue(DanglingEdge, e.id)] else [])
                   + (if e.to !in ids then [Issue(DanglingEdge, e.id)] else [])
                   + (if e.from == e.to then [Issue(SelfLoop, e.id)] else []);
      assert forall x :: x in found <==> EdgeHas(ids, e, x);
      issues := issues + found;
    }
  }

  method CheckLabels(wf: Workflow, node: Node) returns (issues: seq<Issue>)
    requires node.config.Branch?
    ensures forall x :: x in issues <==> exists e :: e in wf.edges && LabelHas(node, e, x)
  {
    issues := [];
    var labels := CaseLabels(node.config);
    for i := 0 to |wf.edges|
      invariant forall x :: x in issues <==> exists k :: 0 <= k < i && LabelHas(node, wf.edges[k], x)
    {
      var e := wf.edges[i];
      var found: seq<Issue> := [];
      if e.from == node.id {
        if IsBlank(e.caseLabel) {
          found := [Issue(UnlabelledBranchEdge, e.id)];
        } else if e.caseLabel.value !in labels {
          found := [Issue(UnknownBranchLabel, e.id)];
        }
      }
      assert forall x :: x in found <==> LabelHas(node, e, x);
      issues := issues + found;
    }
  }

  method CheckCases(wf: Workflow, node: Node) returns (issues: seq<Issue>)
    requires node.config.Branch?
    ensures forall x :: x in issues <==> exists c :: c in node.config.cases && CaseHas(wf, node, c, x)
  {
    issues := [];
    var covered := set e | e in wf.edges && e.from == node.id :: e.caseLabel;
    for i := 0 to |node.config.cases|
      invariant forall x :: x in issues <==> exists k :: 0 <= k < i && CaseHas(wf, node, node.config.cases[k], x)
    {
      var c := node.config.cases[i];
      var found := if Some(c.caseLabel) !in covered then [Issue(UnconnectedCase, node.id)] else [];
      assert forall x :: x in found <==> CaseHas(wf, node, c, x);
      issues := issues + found;
    }
  }

  method CheckBranch(wf: Workflow, node: Node) returns (issues: seq<Issue>)
    ensures forall x :: x in issues <==> BranchHas(wf, node, x)
  {
    issues := [];
    if !node.config.Branch? {
      return;
    }
    if forall e :: e in wf.edges ==> e.from != node.id {
      issues := [Issue(BranchDeadEnd, node.id)];
    }
    var labelIssues := CheckLabels(wf, node);
    var caseIssues := CheckCases(wf, node);
    issues := issues + labelIssues + caseIssues;
  }

  method CheckBranches(wf: Workflow) returns (issues: seq<Issue>)
    ensures forall x :: x in issues <==> exists n :: n in wf.nodes && BranchHas(wf, n, x)
  {
    hide BranchHas;
    issues := [];
    for i := 0 to |wf.nodes|
      invariant forall x :: x in issues <==> exists k :: 0 <= k < i && BranchHas(wf, wf.nodes[k], x)
    {
      var found := CheckBranch(wf, wf.nodes[i]);
      issues := issues + found;
    }
  }

  /** The warnings about what the workflow does, not about its graph. */
  method CheckGuidance(wf: Workflow) returns (issues: seq<Issue>)
    ensures forall x :: x in issues <==> GuidanceHas(wf, x)
  {
    var hasScore := HasScore(wf);
    var hasNotify := HasNotify(wf);
    var hasArchive := HasArchive(wf);
    issues := [];
    if hasNotify && !hasScore {
      issues := [Issue(NotifyWithoutScore, "")];
    }
    if hasScore && !hasArchive {
      issues := issues + [Issue(ScoreWithoutArchive, "")];
    }
    ghost var first := issues;
    for i := 0 to |wf.nodes|
      invariant forall x :: x in issues <==> x in first || exists k :: 0 <= k < i && NotifyHas(wf.nodes[k], x)
    {
      var n := wf.nodes[i];
      var found := if n.config.Notify? && n.config.dedupeWindowMinutes == 0 then [Issue(NoDedupe, n.id)] else [];
      assert forall x :: x in found <==> NotifyHas(n, x);
      issues := issues + found;
    }
  }

  /** A warning for each node that no walk from the trigger reaches. */
  method CheckReachability(wf: Workflow, trigger: Node) returns (issues: seq<Issue>)
    ensures forall x :: x in issues <==>
              x.code == UnreachableNode && x.subject in NodeIds(wf) && !Reaches(wf, trigger.id, x.subject)
  {
    hide Reaches;
    issues := [];
    var reachable := ReachableFrom(wf, trigger.id);
    ghost var seen: set<string> := {};
    for i := 0 to |wf.nodes|
      invariant seen == set k | 0 <= k < i :: wf.nodes[k].id
      invariant forall x :: x in issues <==> x.code == UnreachableNode && x.subject in seen && x.subject !in reachable
    {
      var id := wf.nodes[i].id;
      if id !in reachable {
        issues := issues + [Issue(UnreachableNode, id)];
      }
      seen := seen + {id};
    }
    assert seen == NodeIds(wf);
  }

  /** Reports exactly what is warranted, and accepts exactly the publishable workflows. */
  method ValidateWorkflow(wf: Workflow) returns (valid: bool, issues: seq<Issue>)
    requires Identified(wf)
    ensures forall x :: x in issues <==> Warranted(wf, x)
    ensures valid <==> forall x :: x in issues ==> !IsError(x)
    ensures valid <==> Publishable(wf)
  {
    hide Identified, Acyclic, Reaches, CycleSearch.IsSimpleCycle, Ranks, Triggers, DistinctIds, AllDistinct,
         Publishable, TriggerHas, EdgeHas, BranchHas, GuidanceHas;
    var ids := NodeIds(wf);
    DistinctIdsByCount(wf);
    issues := if |ids| != |wf.nodes| then [Issue(DuplicateNodeId, "")] else [];
    var triggers := Triggers(wf.nodes);
    var triggerIssues := CheckTriggers(wf, triggers);
    var edgeIssues := CheckEdges(wf, ids);
    var branchIssues := CheckBranches(wf);
    issues := issues + triggerIssues + edgeIssues + branchIssues;
    var cycle, rank := CycleSearch.FindCycle(wf);
    if cycle.Some? {
      issues := issues + [Issue(CycleDetected, "")];
    }
    var unreachable: seq<Issue> := [];
    if |triggers| == 1 {
      unreachable := CheckReachability(wf, triggers[0]);
    }
    var guidance := CheckGuidance(wf);
    issues := issues + unreachable + guidance;
    valid := forall x :: x in issues ==> !IsError(x);
    AcceptanceIsPublishable(wf);
  }

  /** A published workflow has a well-founded meaning: its steps can be numbered downwards. */
  lemma PublishableHasRanks(wf: Workflow) returns (rank: map<string, nat>)
    requires Publishable(wf)
    ensures Ranks(wf, rank)
  {
    rank := AcyclicHasRanks(wf);
  }
}
