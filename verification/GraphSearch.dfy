/** The graph algorithms of packages/workflow-engine/src/validate.ts. */
module GraphSearch {
  import opened Workflows

  type Adjacency = map<string, seq<string>>

  ghost predicate IsAdjacencyOf(adjacency: Adjacency, wf: Workflow) {
    && adjacency.Keys == NodeIds(wf)
    && forall u :: u in adjacency ==> adjacency[u] == Targets(wf.edges, u)
  }

  method BuildAdjacency(wf: Workflow) returns (adjacency: Adjacency)
    ensures IsAdjacencyOf(adjacency, wf)
  {
    adjacency := map[];
    for i := 0 to |wf.nodes|
      invariant adjacency.Keys == set k | 0 <= k < i :: wf.nodes[k].id
      invariant forall u :: u in adjacency ==> adjacency[u] == []
    {
      adjacency := adjacency[wf.nodes[i].id := []];
    }
    assert adjacency.Keys == NodeIds(wf);
    for i := 0 to |wf.edges|
      invariant adjacency.Keys == NodeIds(wf)
      invariant forall u :: u in adjacency ==> adjacency[u] == Targets(wf.edges[..i], u)
    {
      var e := wf.edges[i];
      assert wf.edges[..i + 1][..i] == wf.edges[..i];
      if e.from in adjacency {
        adjacency := adjacency[e.from := adjacency[e.from] + [e.to]];
      }
    }
    assert wf.edges[..|wf.edges|] == wf.edges;
  }

  lemma NeighboursAreSteps(adjacency: Adjacency, wf: Workflow, u: string, v: string)
    requires IsAdjacencyOf(adjacency, wf)
    ensures Step(wf, u, v) <==> u in adjacency && v in adjacency[u]
  {
    TargetsAreEdges(wf.edges, u);
  }

  /** The neighbours of a node, none if it is unknown. */
  function Neighbours(adjacency: Adjacency, id: string): seq<string> {
    if id in adjacency then adjacency[id] else []
  }

  // ---------------------------------------------------------------- reachability

  ghost predicate IsClosedUnderSteps(wf: Workflow, ids: set<string>) {
    forall u, v :: u in ids && Step(wf, u, v) ==> v in ids
  }

  lemma {:induction false} WalkStaysInside(wf: Workflow, ids: set<string>, walk: seq<string>)
    requires IsClosedUnderSteps(wf, ids)
    requires |walk| >= 1 && walk[0] in ids && IsWalk(wf, walk)
    ensures walk[|walk| - 1] in ids
  {
    if |walk| > 1 {
      var shorter := walk[..|walk| - 1];
      forall i | 0 <= i < |shorter| - 1 ensures StepAt(wf, shorter, i) {
        assert StepAt(wf, walk, i);
      }
      WalkStaysInside(wf, ids, shorter);
      assert StepAt(wf, walk, |walk| - 2);
    }
  }

  lemma ClosedSetHoldsAllReached(wf: Workflow, ids: set<string>, start: string)
    requires IsClosedUnderSteps(wf, ids) && start in ids
    ensures forall v :: Reaches(wf, start, v) ==> v in ids
  {
    forall v | Reaches(wf, start, v) ensures v in ids {
      var walk :| |walk| >= 1 && walk[0] == start && walk[|walk| - 1] == v && IsWalk(wf, walk);
      WalkStaysInside(wf, ids, walk);
    }
  }

  /** The inner loop of the search: marks and stacks the neighbours not seen before. */
  method PushUnseen(neighbours: seq<string>, seen: set<string>, stack: seq<string>)
      returns (seen': set<string>, stack': seq<string>)
    ensures seen' == seen + set v | v in neighbours
    ensures stack <= stack'
    ensures forall v :: v in stack' ==> v in stack || v in neighbours
    ensures forall v :: v in seen' ==> v in seen || v in stack'
    ensures seen' == seen ==> stack' == stack
  {
    seen', stack' := seen, stack;
    for k := 0 to |neighbours|
      invariant seen' == seen + set v | v in neighbours[..k]
      invariant stack <= stack'
      invariant forall v :: v in stack' ==> v in stack || v in neighbours
      invariant forall v :: v in seen' ==> v in seen || v in stack'
      invariant seen' == seen ==> stack' == stack
    {
      var next := neighbours[k];
      assert neighbours[..k + 1] == neighbours[..k] + [next];
      if next !in seen' {
        seen', stack' := seen' + {next}, stack' + [next];
      }
    }
    assert neighbours[..|neighbours|] == neighbours;
  }

  ghost predicate OnlyReached(wf: Workflow, startId: string, ids: set<string>) {
    forall v :: v in ids ==> Reaches(wf, startId, v)
  }

  ghost predicate StepsLeadInto(wf: Workflow, sources: set<string>, ids: set<string>) {
    forall u, v :: u in sources && Step(wf, u, v) ==> v in ids
  }

  /** What the search knows between two pops of its stack. */
  ghost predicate Searching(wf: Workflow, startId: string, seen: set<string>, stack: seq<string>) {
    && startId in seen
    && seen <= SearchSpace(wf, startId)
    && (forall v :: v in stack ==> v in seen)
    && OnlyReached(wf, startId, seen)
    && StepsLeadInto(wf, seen - (set v | v in stack), seen)
  }

  ghost function SearchSpace(wf: Workflow, startId: string): set<string> {
    {startId} + set e | e in wf.edges :: e.to
  }

  lemma NeighbourIsReached(wf: Workflow, adjacency: Adjacency, startId: string, u: string, v: string)
    requires IsAdjacencyOf(adjacency, wf) && Reaches(wf, startId, u) && v in Neighbours(adjacency, u)
    ensures Reaches(wf, startId, v) && v in SearchSpace(wf, startId)
  {
    NeighboursAreSteps(adjacency, wf, u, v);
    ReachesOneMore(wf, startId, u, v);
  }

  lemma SearchGoesOn(wf: Workflow, adjacency: Adjacency, startId: string, seen: set<string>, stack: seq<string>,
                     current: string, seen': set<string>, stack': seq<string>)
    requires IsAdjacencyOf(adjacency, wf)
    requires Searching(wf, startId, seen, stack + [current])
    requires seen' == seen + set v | v in Neighbours(adjacency, current)
    requires stack <= stack'
    requires forall v :: v in stack' ==> v in stack || v in Neighbours(adjacency, current)
    requires forall v :: v in seen' ==> v in seen || v in stack'
    ensures Searching(wf, startId, seen', stack')
  {
    assert current in stack + [current];
    forall v | v in Neighbours(adjacency, current) ensures Reaches(wf, startId, v) && v in SearchSpace(wf, startId) {
      NeighbourIsReached(wf, adjacency, startId, current, v);
    }
    forall u, v | u in seen' && u !in stack' && Step(wf, u, v) ensures v in seen' {
      NeighboursAreSteps(adjacency, wf, u, v);
      if u != current {
        assert u in seen && u !in stack + [current];
      }
    }
  }

  /** Stack search; the result is exactly the reflexive-transitive closure of the steps. */
  method ReachableFrom(wf: Workflow, startId: string) returns (seen: set<string>)
    ensures forall v :: v in seen <==> Reaches(wf, startId, v)
  {
    var adjacency := BuildAdjacency(wf);
    seen := {startId};
    var stack := [startId];
    ReachesItself(wf, startId);
    while stack != []
      invariant Searching(wf, startId, seen, stack)
      decreases |SearchSpace(wf, startId) - seen|, |stack|
    {
      var current := stack[|stack| - 1];
      ghost var seen0, stack0 := seen, stack;
      stack := stack[..|stack| - 1];
      assert stack + [current] == stack0;
      ghost var rest := stack;
      seen, stack := PushUnseen(Neighbours(adjacency, current), seen, stack);
      SearchGoesOn(wf, adjacency, startId, seen0, rest, current, seen, stack);
      if seen != seen0 {
        SmallerSet(SearchSpace(wf, startId) - seen, SearchSpace(wf, startId) - seen0);
      }
    }
    ClosedSetHoldsAllReached(wf, seen, startId);
  }

  lemma SmallerSet<T>(a: set<T>, b: set<T>)
    requires a < b
    ensures |a| < |b|
  {
    assert |b| == |a| + |b - a| by { assert b == a + (b - a); }
    assert b - a != {};
  }
}
