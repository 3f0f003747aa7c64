/**
 * The workflow definition that the canvas emits (packages/workflow-engine/src/schema.ts)
 * and the vocabulary of walks in its graph.
 */
module Workflows {
  import opened Basics
  import opened Wrappers
  import opened Values

  datatype Comparator = Eq | Neq | Gt | Gte | Lt | Lte | Contains | Matches | In

  datatype Condition = Condition(field: string, op: Comparator, value: Value)

  datatype Case = Case(caseLabel: string, condition: Condition)

  datatype TriggerMode = Manual | Schedule | Event

  datatype NodeConfig =
    | Trigger(mode: TriggerMode, schedule: Option<string>, eventType: Option<string>)
    | Source(sourceIds: seq<string>, tagSelector: seq<string>, maxItems: nat)
    | Filter(conditions: seq<Condition>)
    | Score(disabledSignals: seq<string>)
    | Branch(cases: seq<Case>, defaultLabel: string)
    | AgentTask(agent: string, kind: string, priority: nat, timeoutSeconds: nat, params: Value)
    | Archive(retentionDays: nat, includeMedia: bool, captureScreenshot: bool)
    | Notify(channel: string, target: string, subjectTemplate: string, bodyTemplate: string, dedupeWindowMinutes: nat)
    | Delay(seconds: nat)
    | Transform(mappings: seq<(string, string)>)

  datatype Node = Node(id: string, title: string, config: NodeConfig)

  datatype Edge = Edge(id: string, from: string, to: string, caseLabel: Option<string>)

  datatype Limits = Limits(maxNodesExecuted: nat, maxDurationSeconds: real, maxCostUsd: real)

  datatype Workflow = Workflow(nodes: seq<Node>, edges: seq<Edge>, limits: Limits)

  /** The schema rejects empty identifiers before anything else looks at the graph. */
  predicate Identified(wf: Workflow) {
    && (forall n :: n in wf.nodes ==> n.id != "")
    && (forall e :: e in wf.edges ==> e.from != "" && e.to != "")
  }

  function NodeIds(wf: Workflow): set<string> {
    set n | n in wf.nodes :: n.id
  }

  predicate DistinctIds(wf: Workflow) {
    forall i, j :: 0 <= i < j < |wf.nodes| ==> wf.nodes[i].id != wf.nodes[j].id
  }

  predicate NoDanglingEdges(wf: Workflow) {
    forall e :: e in wf.edges ==> e.from in NodeIds(wf) && e.to in NodeIds(wf)
  }

  /** The graph the engine walks: edges that leave a node of the workflow. */
  predicate Step(wf: Workflow, u: string, v: string) {
    u in NodeIds(wf) && exists e :: e in wf.edges && e.from == u && e.to == v
  }

  /** The targets of the edges out of `u`, in the order the edges are listed. */
  function Targets(edges: seq<Edge>, u: string): seq<string> {
    if edges == [] then []
    else
      var last := edges[|edges| - 1];
      Targets(edges[..|edges| - 1], u) + (if last.from == u then [last.to] else [])
  }

  function Leaving(u: string): Edge -> bool {
    (e: Edge) => e.from == u
  }

  /** The targets of exactly the edges out of `u`, in the order of the edges. */
  lemma {:induction false} TargetsInOrder(edges: seq<Edge>, u: string) returns (out: seq<Edge>)
    ensures IsFilterOf(out, edges, Leaving(u))
    ensures |Targets(edges, u)| == |out| && forall i :: 0 <= i < |out| ==> Targets(edges, u)[i] == out[i].to
  {
    hide IsFilterOf;
    if edges == [] {
      NothingToFilter(Leaving(u));
      out := [];
    } else {
      var earlier, last := edges[..|edges| - 1], edges[|edges| - 1];
      out := TargetsInOrder(earlier, u);
      FilterOneMore(out, earlier, Leaving(u), last);
      assert edges == earlier + [last];
      out := out + (if last.from == u then [last] else []);
    }
  }

  lemma TargetsAreEdges(edges: seq<Edge>, u: string)
    ensures forall v :: v in Targets(edges, u) <==> exists e :: e in edges && e.from == u && e.to == v
  {
    if edges != [] {
      var es, last := edges[..|edges| - 1], edges[|edges| - 1];
      TargetsAreEdges(es, u);
      assert edges == es + [last];
      forall v ensures v in Targets(edges, u) <==> exists e :: e in edges && e.from == u && e.to == v {
        if exists e :: e in edges && e.from == u && e.to == v {
          var e :| e in edges && e.from == u && e.to == v;
          assert e in es || e == last;
        }
        if v in Targets(es, u) {
          var e :| e in es && e.from == u && e.to == v;
          assert e in edges;
        }
      }
    }
  }

  ghost predicate StepAt(wf: Workflow, walk: seq<string>, i: nat)
    requires i + 1 < |walk|
  {
    Step(wf, walk[i], walk[i + 1])
  }

  ghost predicate IsWalk(wf: Workflow, walk: seq<string>) {
    forall i :: 0 <= i < |walk| - 1 ==> StepAt(wf, walk, i)
  }

  /** A walk of at least one step that ends where it starts. */
  ghost predicate IsClosedWalk(wf: Workflow, walk: seq<string>) {
    |walk| >= 2 && walk[0] == walk[|walk| - 1] && IsWalk(wf, walk)
  }

  ghost predicate Acyclic(wf: Workflow) {
    forall walk :: !IsClosedWalk(wf, walk)
  }

  ghost predicate Reaches(wf: Workflow, u: string, v: string) {
    exists walk :: |walk| >= 1 && walk[0] == u && walk[|walk| - 1] == v && IsWalk(wf, walk)
  }

  lemma ReachesItself(wf: Workflow, u: string)
    ensures Reaches(wf, u, u)
  {
    var walk := [u];
    assert |walk| >= 1 && walk[0] == u && walk[|walk| - 1] == u && IsWalk(wf, walk);
  }

  lemma ReachesOneMore(wf: Workflow, u: string, v: string, w: string)
    requires Reaches(wf, u, v) && Step(wf, v, w)
    ensures Reaches(wf, u, w)
  {
    var walk :| |walk| >= 1 && walk[0] == u && walk[|walk| - 1] == v && IsWalk(wf, walk);
    var longer := walk + [w];
    forall i | 0 <= i < |longer| - 1 ensures StepAt(wf, longer, i) {
      assert i < |walk| - 1 ==> StepAt(wf, walk, i);
    }
    assert longer[0] == u && longer[|longer| - 1] == w;
  }

  /** A numbering of the nodes that goes down along every step. */
  ghost predicate Ranks(wf: Workflow, rank: map<string, nat>) {
    forall u, v :: Step(wf, u, v) ==> u in rank && v in rank && rank[v] < rank[u]
  }

  lemma {:induction false} RankFallsAlongWalk(wf: Workflow, rank: map<string, nat>, walk: seq<string>)
    requires Ranks(wf, rank) && |walk| >= 2 && IsWalk(wf, walk)
    ensures walk[0] in rank && walk[|walk| - 1] in rank && rank[walk[|walk| - 1]] < rank[walk[0]]
  {
    assert StepAt(wf, walk, 0);
    if |walk| > 2 {
      var rest := walk[1..];
      forall i | 0 <= i < |rest| - 1 ensures StepAt(wf, rest, i) {
        assert StepAt(wf, walk, i + 1);
      }
      RankFallsAlongWalk(wf, rank, rest);
    }
  }

  lemma RankedIsAcyclic(wf: Workflow, rank: map<string, nat>)
    requires Ranks(wf, rank)
    ensures Acyclic(wf)
  {
    forall walk ensures !IsClosedWalk(wf, walk) {
      if IsClosedWalk(wf, walk) {
        RankFallsAlongWalk(wf, rank, walk);
        assert false;
      }
    }
  }

  ghost predicate HasPredecessorIn(wf: Workflow, ids: set<string>, v: string) {
    exists u :: u in ids && Step(wf, u, v)
  }

  ghost predicate IsTrap(wf: Workflow, ids: set<string>) {
    forall v :: v in ids ==> HasPredecessorIn(wf, ids, v)
  }

  lemma ExtendWalkBackwards(wf: Workflow, u: string, walk: seq<string>)
    requires |walk| >= 1 && IsWalk(wf, walk) && Step(wf, u, walk[0])
    ensures IsWalk(wf, [u] + walk)
    ensures u in walk ==> !Acyclic(wf)
  {
    var longer := [u] + walk;
    forall i | 0 <= i < |longer| - 1 ensures StepAt(wf, longer, i) {
      if i > 0 { assert StepAt(wf, walk, i - 1); }
    }
    if u in walk {
      var i :| 0 <= i < |walk| && walk[i] == u;
      var closed := longer[..i + 2];
      forall k | 0 <= k < |closed| - 1 ensures StepAt(wf, closed, k) {
        assert StepAt(wf, longer, k);
      }
      assert IsClosedWalk(wf, closed);
    }
  }

  /** Walking backwards for ever inside a finite set must revisit a node. */
  lemma {:induction false} BackwardsWalkRepeats(wf: Workflow, trap: set<string>, walk: seq<string>, unseen: set<string>)
    requires IsTrap(wf, trap)
    requires |walk| >= 1 && IsWalk(wf, walk) && walk[0] in trap
    requires forall v :: v in trap ==> v in walk || v in unseen
    ensures !Acyclic(wf)
    decreases |unseen|
  {
    hide Step, IsWalk, StepAt, Acyclic;
    assert HasPredecessorIn(wf, trap, walk[0]);
    var u :| u in trap && Step(wf, u, walk[0]);
    ExtendWalkBackwards(wf, u, walk);
    if u !in walk {
      BackwardsWalkRepeats(wf, trap, [u] + walk, unseen - {u});
    }
  }

  /** A non-empty set in which every node has a predecessor holds a cycle. */
  lemma TrapHoldsACycle(wf: Workflow, trap: set<string>)
    requires IsTrap(wf, trap) && trap != {}
    ensures !Acyclic(wf)
  {
    var v :| v in trap;
    var walk := [v];
    assert IsWalk(wf, walk);
    BackwardsWalkRepeats(wf, trap, walk, trap);
  }

  // ------------------------------------------------- acyclic graphs can be numbered

  ghost function Endpoints(wf: Workflow): set<string> {
    NodeIds(wf) + set e | e in wf.edges :: e.to
  }

  /** A partial numbering that goes up along steps and contains all predecessors of its members. */
  ghost predicate Levels(wf: Workflow, level: map<string, nat>) {
    && level.Keys <= Endpoints(wf)
    && (forall v :: v in level ==> level[v] < |level|)
    && (forall u, v :: v in level && Step(wf, u, v) ==> u in level && level[u] < level[v])
  }

  lemma {:induction false} CompleteLevels(wf: Workflow, level: map<string, nat>, missing: set<string>)
      returns (full: map<string, nat>)
    requires Acyclic(wf) && Levels(wf, level) && missing == Endpoints(wf) - level.Keys
    ensures Levels(wf, full) && full.Keys == Endpoints(wf)
    decreases |missing|
  {
    hide Acyclic, Step;
    if missing == {} {
      full := level;
    } else {
      if IsTrap(wf, missing) { TrapHoldsACycle(wf, missing); }
      var v :| v in missing && !HasPredecessorIn(wf, missing, v);
      LevelOneMore(wf, level, missing, v);
      full := CompleteLevels(wf, level[v := |level|], missing - {v});
    }
  }

  lemma LevelOneMore(wf: Workflow, level: map<string, nat>, missing: set<string>, v: string)
    requires Levels(wf, level) && missing == Endpoints(wf) - level.Keys
    requires v in missing && !HasPredecessorIn(wf, missing, v)
    ensures Levels(wf, level[v := |level|])
    ensures missing - {v} == Endpoints(wf) - level[v := |level|].Keys
  {
    var level' := level[v := |level|];
    assert |level'| == |level| + 1;
    forall u, w | w in level' && Step(wf, u, w) ensures u in level' && level'[u] < level'[w] {
      assert u in Endpoints(wf);
      if w == v {
        assert u !in missing;
      }
    }
  }

  /** So the recursive meaning of an acyclic workflow is well-founded. */
  lemma AcyclicHasRanks(wf: Workflow) returns (rank: map<string, nat>)
    requires Acyclic(wf)
    ensures Ranks(wf, rank)
  {
    var level := CompleteLevels(wf, map[], Endpoints(wf));
    rank := map v | v in level :: (|level| - level[v]) as nat;
    forall u, v | Step(wf, u, v) ensures u in rank && v in rank && rank[v] < rank[u] {
      assert v in Endpoints(wf);
    }
  }
}
