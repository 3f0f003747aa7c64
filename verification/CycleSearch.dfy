/**
 * `findCycle` (packages/workflow-engine/src/validate.ts): an iterative
 * depth-first search with three colours and explicit frames.
 */
module CycleSearch {
  import opened Wrappers
  import opened Workflows
  import opened GraphSearch

  /** Unvisited nodes have no colour. */
  datatype Colour = InStack | Finished

  datatype Frame = Frame(id: string, iter: nat)

  type Colours = map<string, Colour>
  type Parents = map<string, string>
  type Ranking = map<string, nat>
  type Stack = seq<Frame>

  function Ids(stack: Stack): (ids: seq<string>)
    ensures |ids| == |stack|
  {
    if stack == [] then [] else Ids(stack[..|stack| - 1]) + [stack[|stack| - 1].id]
  }

  // ------------------------------------------------------- what the search knows

  ghost predicate IsPassed(neighbours: seq<string>, n: nat, rank: Ranking) {
    n <= |neighbours| && forall k :: 0 <= k < n ==> neighbours[k] in rank
  }

  /** A frame has only finished nodes behind it, apart from the child it is waiting for. */
  ghost predicate FrameOk(adjacency: Adjacency, parent: Parents, rank: Ranking, f: Frame, child: Option<string>) {
    var neighbours := Neighbours(adjacency, f.id);
    && f.id != ""
    && match child
       case None => IsPassed(neighbours, f.iter, rank)
       case Some(c) =>
         && 1 <= f.iter <= |neighbours| && neighbours[f.iter - 1] == c
         && c in parent && parent[c] == f.id
         && IsPassed(neighbours, f.iter - 1, rank)
  }

  /** The frames form a path of real edges, recorded in `parent`. */
  ghost predicate FramesOk(adjacency: Adjacency, parent: Parents, rank: Ranking, stack: Stack, child: Option<string>) {
    stack == [] ||
    var top, under := stack[|stack| - 1], stack[..|stack| - 1];
    && top.id !in Ids(under)
    && FrameOk(adjacency, parent, rank, top, child)
    && FramesOk(adjacency, parent, rank, under, Some(top.id))
  }

  /** Nodes are numbered as they finish, so a numbered node has only lower-numbered successors. */
  ghost predicate NumberedDownwards(wf: Workflow, rank: Ranking) {
    && (forall u :: u in rank ==> rank[u] < |rank|)
    && (forall u, v :: u in rank && Step(wf, u, v) ==> v in rank && rank[v] < rank[u])
  }

  ghost predicate ColoursAgree(colour: Colours, rank: Ranking, stack: Stack) {
    && (forall id :: id in colour && colour[id] == InStack <==> id in Ids(stack))
    && (forall id :: id in colour && colour[id] == Finished <==> id in rank)
  }

  ghost predicate Exploring(wf: Workflow, adjacency: Adjacency, colour: Colours, parent: Parents, rank: Ranking,
                            stack: Stack) {
    && ColoursAgree(colour, rank, stack)
    && FramesOk(adjacency, parent, rank, stack, None)
    && NumberedDownwards(wf, rank)
    && colour.Keys <= Endpoints(wf)
  }

  // ------------------------------------------------------------ one lemma a case

  lemma TopOfStack(stack: Stack, top: Frame)
    ensures (stack + [top])[..|stack + [top]| - 1] == stack
    ensures Ids(stack + [top]) == Ids(stack) + [top.id]
  {
    assert (stack + [top])[..|stack|] == stack;
  }

  lemma SplitTop(stack: Stack)
    requires stack != []
    ensures stack == stack[..|stack| - 1] + [stack[|stack| - 1]]
  {
  }

  lemma {:induction false} FramesStay(adjacency: Adjacency, parent: Parents, parent': Parents,
                                      rank: Ranking, rank': Ranking, stack: Stack, child: Option<string>)
    requires FramesOk(adjacency, parent, rank, stack, child)
    requires rank.Keys <= rank'.Keys
    requires forall c :: c in Ids(stack) || child == Some(c) ==> c in parent ==> c in parent' && parent'[c] == parent[c]
    ensures FramesOk(adjacency, parent', rank', stack, child)
  {
    if stack != [] {
      var top, under := stack[|stack| - 1], stack[..|stack| - 1];
      FramesStay(adjacency, parent, parent', rank, rank', under, Some(top.id));
    }
  }

  /** All neighbours of the top frame are finished: number the node and pop. */
  lemma Retreat(wf: Workflow, adjacency: Adjacency, colour: Colours, parent: Parents, rank: Ranking, stack: Stack,
                top: Frame)
    requires IsAdjacencyOf(adjacency, wf)
    requires Exploring(wf, adjacency, colour, parent, rank, stack + [top])
    requires top.iter >= |Neighbours(adjacency, top.id)|
    ensures top.id !in rank && top.id in colour
    ensures Exploring(wf, adjacency, colour[top.id := Finished], parent, rank[top.id := |rank|], stack)
  {
    hide ColoursAgree, FramesOk, NumberedDownwards, IsAdjacencyOf, Neighbours, Endpoints;
    TopIsPassed(adjacency, parent, rank, stack, top);
    FinishColour(colour, rank, stack, top);
    NumberOneMore(wf, adjacency, rank, top);
    PopFrame(adjacency, parent, rank, stack, top);
  }

  lemma TopIsPassed(adjacency: Adjacency, parent: Parents, rank: Ranking, stack: Stack, top: Frame)
    requires FramesOk(adjacency, parent, rank, stack + [top], None)
    ensures IsPassed(Neighbours(adjacency, top.id), top.iter, rank)
    ensures top.id !in Ids(stack)
  {
    TopOfStack(stack, top);
  }

  lemma FinishColour(colour: Colours, rank: Ranking, stack: Stack, top: Frame)
    requires ColoursAgree(colour, rank, stack + [top]) && top.id !in Ids(stack)
    ensures top.id !in rank && top.id in colour
    ensures ColoursAgree(colour[top.id := Finished], rank[top.id := |rank|], stack)
  {
    TopOfStack(stack, top);
    assert top.id in Ids(stack + [top]);
  }

  lemma PopFrame(adjacency: Adjacency, parent: Parents, rank: Ranking, stack: Stack, top: Frame)
    requires FramesOk(adjacency, parent, rank, stack + [top], None)
    ensures FramesOk(adjacency, parent, rank[top.id := |rank|], stack, None)
  {
    TopOfStack(stack, top);
    var rank' := rank[top.id := |rank|];
    FramesStay(adjacency, parent, parent, rank, rank', stack, Some(top.id));
    if stack != [] {
      assert FrameOk(adjacency, parent, rank', stack[|stack| - 1], None);
    }
  }

  lemma NumberOneMore(wf: Workflow, adjacency: Adjacency, rank: Ranking, top: Frame)
    requires IsAdjacencyOf(adjacency, wf) && NumberedDownwards(wf, rank) && top.id !in rank
    requires IsPassed(Neighbours(adjacency, top.id), |Neighbours(adjacency, top.id)|, rank)
    ensures NumberedDownwards(wf, rank[top.id := |rank|])
  {
    var rank' := rank[top.id := |rank|];
    assert |rank'| == |rank| + 1;
    forall u, v | u in rank' && Step(wf, u, v) ensures v in rank' && rank'[v] < rank'[u] {
      NeighboursAreSteps(adjacency, wf, u, v);
    }
  }

  /** The next neighbour is finished already: advance the top frame. */
  lemma Advance(wf: Workflow, adjacency: Adjacency, colour: Colours, parent: Parents, rank: Ranking, stack: Stack,
                top: Frame)
    requires Exploring(wf, adjacency, colour, parent, rank, stack + [top])
    requires top.iter < |Neighbours(adjacency, top.id)| && Neighbours(adjacency, top.id)[top.iter] in rank
    ensures Exploring(wf, adjacency, colour, parent, rank, stack + [top.(iter := top.iter + 1)])
  {
    TopOfStack(stack, top);
    TopOfStack(stack, top.(iter := top.iter + 1));
  }

  /** The next neighbour is unvisited: colour it and push a frame for it. */
  lemma Descend(wf: Workflow, adjacency: Adjacency, colour: Colours, parent: Parents,
                rank: Ranking, stack: Stack, top: Frame, next: string)
    requires IsAdjacencyOf(adjacency, wf) && Identified(wf)
    requires Exploring(wf, adjacency, colour, parent, rank, stack + [top])
    requires top.iter < |Neighbours(adjacency, top.id)| && Neighbours(adjacency, top.id)[top.iter] == next
    requires next !in colour
    ensures Exploring(wf, adjacency, colour[next := InStack], parent[next := top.id], rank,
                      stack + [top.(iter := top.iter + 1)] + [Frame(next, 0)])
    ensures next in Endpoints(wf)
  {
    hide FramesOk, NumberedDownwards, ColoursAgree;
    NeighboursAreSteps(adjacency, wf, top.id, next);
    PushColour(colour, rank, stack, top, next);
    PushFrame(adjacency, parent, rank, stack, top, next);
  }

  lemma PushColour(colour: Colours, rank: Ranking, stack: Stack, top: Frame, next: string)
    requires ColoursAgree(colour, rank, stack + [top]) && next !in colour
    ensures next !in Ids(stack + [top])
    ensures ColoursAgree(colour[next := InStack], rank, stack + [top.(iter := top.iter + 1)] + [Frame(next, 0)])
  {
    TopOfStack(stack, top);
    TopOfStack(stack, top.(iter := top.iter + 1));
    TopOfStack(stack + [top.(iter := top.iter + 1)], Frame(next, 0));
  }

  /** FramesOk, built up by one frame and taken apart by one frame. */
  lemma FramesOkPush(adjacency: Adjacency, parent: Parents, rank: Ranking, under: Stack, top: Frame,
                     child: Option<string>)
    ensures FramesOk(adjacency, parent, rank, under + [top], child) <==>
            && top.id !in Ids(under)
            && FrameOk(adjacency, parent, rank, top, child)
            && FramesOk(adjacency, parent, rank, under, Some(top.id))
  {
    TopOfStack(under, top);
  }

  lemma PushFrame(adjacency: Adjacency, parent: Parents, rank: Ranking, stack: Stack, top: Frame, next: string)
    requires FramesOk(adjacency, parent, rank, stack + [top], None)
    requires top.iter < |Neighbours(adjacency, top.id)| && Neighbours(adjacency, top.id)[top.iter] == next
    requires next != "" && next !in Ids(stack + [top])
    ensures FramesOk(adjacency, parent[next := top.id], rank,
                     stack + [top.(iter := top.iter + 1)] + [Frame(next, 0)], None)
  {
    hide FramesOk, Neighbours;
    var top', parent' := top.(iter := top.iter + 1), parent[next := top.id];
    FramesOkPush(adjacency, parent, rank, stack, top, None);
    TopOfStack(stack, top);
    TopOfStack(stack, top');
    FramesStay(adjacency, parent, parent', rank, rank, stack, Some(top.id));
    FramesOkPush(adjacency, parent', rank, stack, top', Some(next));
    FramesOkPush(adjacency, parent', rank, stack + [top'], Frame(next, 0), None);
  }

  // ------------------------------------------------------------- the cycle found

  lemma {:induction false} IdsAt(stack: Stack, k: nat)
    requires k < |stack|
    ensures Ids(stack)[k] == stack[k].id
  {
    if k < |stack| - 1 {
      IdsAt(stack[..|stack| - 1], k);
    }
  }

  /** Consecutive frames are linked by an edge and by `parent`, and no node is on the stack twice. */
  lemma {:induction false} LinkAt(adjacency: Adjacency, parent: Parents, rank: Ranking, stack: Stack,
                                  child: Option<string>, k: nat)
    requires FramesOk(adjacency, parent, rank, stack, child) && k < |stack|
    ensures stack[k].id != ""
    ensures k + 1 < |stack| ==> stack[k + 1].id in parent && parent[stack[k + 1].id] == stack[k].id
    ensures k + 1 < |stack| ==> stack[k + 1].id in Neighbours(adjacency, stack[k].id)
    ensures forall j :: k < j < |stack| ==> stack[j].id != stack[k].id
  {
    var top, under := stack[|stack| - 1], stack[..|stack| - 1];
    if k < |stack| - 1 {
      LinkAt(adjacency, parent, rank, under, Some(top.id), k);
      IdsAt(under, k);
      if k == |stack| - 2 {
        assert under[k] == under[|under| - 1] == stack[k];
      }
      forall j | k < j < |stack| ensures stack[j].id != stack[k].id {
        if j < |stack| - 1 { assert stack[j] == under[j]; }
      }
    }
  }

  /** The ids of the frames above position `j`. */
  function IdsAbove(stack: Stack, j: nat): (ids: seq<string>)
    requires j < |stack|
    decreases |stack| - j
    ensures |ids| == |stack| - 1 - j
  {
    if j == |stack| - 1 then [] else [stack[j + 1].id] + IdsAbove(stack, j + 1)
  }

  lemma {:induction false} IdsAboveAt(stack: Stack, j: nat, k: nat)
    requires j + k + 1 < |stack|
    ensures IdsAbove(stack, j)[k] == stack[j + k + 1].id
    decreases k
  {
    if k > 0 {
      IdsAboveAt(stack, j + 1, k - 1);
    }
  }

  /** Follows the parents from the top frame back to the node that was met again. */
  method TraceBack(ghost adjacency: Adjacency, parent: Parents, ghost rank: Ranking, ghost stack: Stack,
                   top: string, next: string, ghost j: nat) returns (path: seq<string>)
    requires FramesOk(adjacency, parent, rank, stack, None)
    requires j < |stack| && stack[j].id == next && stack[|stack| - 1].id == top
    ensures path == [next] + IdsAbove(stack, j) + [next]
  {
    hide FramesOk;
    path := [next];
    var cursor := Some(top);
    ghost var k := |stack| - 1;
    LinkAt(adjacency, parent, rank, stack, None, j);
    while cursor.Some? && cursor.value != "" && cursor.value != next
      invariant j <= k < |stack| && cursor == Some(stack[k].id)
      invariant path == IdsAbove(stack, k) + [next]
      decreases k
    {
      LinkAt(adjacency, parent, rank, stack, None, k - 1);
      path := [cursor.value] + path;
      cursor := if cursor.value in parent then Some(parent[cursor.value]) else None;
      k := k - 1;
    }
    LinkAt(adjacency, parent, rank, stack, None, k);
    path := [next] + path;
  }

  /** A closed walk whose nodes are all different apart from its two ends. */
  ghost predicate IsSimpleCycle(wf: Workflow, cycle: seq<string>) {
    && IsClosedWalk(wf, cycle)
    && forall i, j :: 0 <= i < j < |cycle| - 1 ==> cycle[i] != cycle[j]
  }

  lemma SegmentAt(stack: Stack, j: nat, next: string, i: nat)
    requires j < |stack| && stack[j].id == next && j + i < |stack|
    ensures ([next] + IdsAbove(stack, j) + [next])[i] == stack[j + i].id
  {
    if i > 0 { IdsAboveAt(stack, j, i - 1); }
  }

  lemma SegmentIsWalk(wf: Workflow, adjacency: Adjacency, parent: Parents, rank: Ranking, stack: Stack, j: nat,
                      next: string)
    requires IsAdjacencyOf(adjacency, wf) && FramesOk(adjacency, parent, rank, stack, None)
    requires j < |stack| && stack[j].id == next
    requires next in Neighbours(adjacency, stack[|stack| - 1].id)
    ensures IsWalk(wf, [next] + IdsAbove(stack, j) + [next])
  {
    hide FramesOk, IdsAbove, IsAdjacencyOf, Neighbours, Step;
    var cycle := [next] + IdsAbove(stack, j) + [next];
    forall i | 0 <= i < |cycle| - 1 ensures StepAt(wf, cycle, i) {
      SegmentAt(stack, j, next, i);
      LinkAt(adjacency, parent, rank, stack, None, j + i);
      if i + 1 < |cycle| - 1 { SegmentAt(stack, j, next, i + 1); }
      LinkIsStep(adjacency, wf, cycle[i], cycle[i + 1]);
    }
  }

  lemma LinkIsStep(adjacency: Adjacency, wf: Workflow, u: string, v: string)
    requires IsAdjacencyOf(adjacency, wf) && v in Neighbours(adjacency, u)
    ensures Step(wf, u, v)
  {
    NeighboursAreSteps(adjacency, wf, u, v);
  }

  lemma StackSegmentIsCycle(wf: Workflow, adjacency: Adjacency, parent: Parents, rank: Ranking, stack: Stack, j: nat,
                            next: string)
    requires IsAdjacencyOf(adjacency, wf) && FramesOk(adjacency, parent, rank, stack, None)
    requires j < |stack| && stack[j].id == next
    requires next in Neighbours(adjacency, stack[|stack| - 1].id)
    ensures IsSimpleCycle(wf, [next] + IdsAbove(stack, j) + [next])
  {
    hide FramesOk, IdsAbove, IsAdjacencyOf, Neighbours, IsWalk;
    var cycle := [next] + IdsAbove(stack, j) + [next];
    SegmentIsWalk(wf, adjacency, parent, rank, stack, j, next);
    forall a, b | 0 <= a < b < |cycle| - 1 ensures cycle[a] != cycle[b] {
      SegmentAt(stack, j, next, a);
      SegmentAt(stack, j, next, b);
      LinkAt(adjacency, parent, rank, stack, None, j + a);
    }
  }

  // ------------------------------------------------------------------ the search

  ghost function Uncoloured(wf: Workflow, colour: Colours): nat {
    |Endpoints(wf) - colour.Keys|
  }

  ghost function Unnumbered(wf: Workflow, rank: Ranking): int {
    |Endpoints(wf)| - |rank|
  }

  lemma NumberingProgress(wf: Workflow, adjacency: Adjacency, colour: Colours, parent: Parents, rank: Ranking,
                          stack: Stack, id: string)
    requires Exploring(wf, adjacency, colour[id := Finished], parent, rank[id := |rank|], stack)
    requires id in colour && id !in rank
    ensures Uncoloured(wf, colour[id := Finished]) == Uncoloured(wf, colour)
    ensures 0 <= Unnumbered(wf, rank[id := |rank|]) < Unnumbered(wf, rank)
  {
    var rank' := rank[id := |rank|];
    assert colour[id := Finished].Keys == colour.Keys;
    assert rank'.Keys <= Endpoints(wf);
    assert Endpoints(wf) == rank'.Keys + (Endpoints(wf) - rank'.Keys);
    assert |rank'| == |rank'.Keys| == |rank| + 1;
  }

  lemma ColouringProgress(wf: Workflow, colour: Colours, next: string)
    requires next in Endpoints(wf) && next !in colour
    ensures Uncoloured(wf, colour[next := InStack]) < Uncoloured(wf, colour)
  {
    assert next in Endpoints(wf) - colour.Keys && next !in Endpoints(wf) - colour[next := InStack].Keys;
    SmallerSet(Endpoints(wf) - colour[next := InStack].Keys, Endpoints(wf) - colour.Keys);
  }

  lemma TopOfExplored(wf: Workflow, adjacency: Adjacency, colour: Colours, parent: Parents, rank: Ranking, stack: Stack)
    requires Exploring(wf, adjacency, colour, parent, rank, stack)
    ensures FramesOk(adjacency, parent, rank, stack, None)
    ensures forall id :: id in colour && colour[id] == InStack ==> id in Ids(stack)
    ensures forall id :: id in colour && colour[id] == Finished ==> id in rank
    ensures stack != [] ==> stack[|stack| - 1].iter <= |Neighbours(adjacency, stack[|stack| - 1].id)|
  {
  }

  /** The branch for a neighbour that is on the stack: reads the cycle off the parents. */
  method CloseCycle(ghost wf: Workflow, ghost adjacency: Adjacency, parent: Parents, ghost rank: Ranking,
                    ghost under: Stack, frame: Frame, next: string)
      returns (cycle: seq<string>)
    requires IsAdjacencyOf(adjacency, wf)
    requires FramesOk(adjacency, parent, rank, under + [frame], None)
    requires next in Neighbours(adjacency, frame.id) && next in Ids(under + [frame])
    ensures IsSimpleCycle(wf, cycle)
  {
    hide FramesOk, IsSimpleCycle, IsAdjacencyOf, Neighbours;
    ghost var stack := under + [frame];
    ghost var j :| 0 <= j < |Ids(stack)| && Ids(stack)[j] == next;
    IdsAt(stack, j);
    cycle := TraceBack(adjacency, parent, rank, stack, frame.id, next, j);
    StackSegmentIsCycle(wf, adjacency, parent, rank, stack, j, next);
  }

  /** The inner loop: explores everything below one start node. */
  method Explore(wf: Workflow, adjacency: Adjacency, colour0: Colours, parent0: Parents, ghost rank0: Ranking,
                 start: string)
      returns (cycle: Option<seq<string>>, colour: Colours, parent: Parents, ghost rank: Ranking)
    requires Identified(wf) && IsAdjacencyOf(adjacency, wf)
    requires Exploring(wf, adjacency, colour0, parent0, rank0, [Frame(start, 0)])
    ensures cycle.Some? ==> IsSimpleCycle(wf, cycle.value)
    ensures cycle.None? ==> Exploring(wf, adjacency, colour, parent, rank, []) && colour0.Keys <= colour.Keys
  {
    hide Exploring, FramesOk, IsSimpleCycle, Endpoints, Uncoloured, Unnumbered, IsAdjacencyOf, Neighbours, Ids,
         Identified;
    cycle, colour, parent, rank := None, colour0, parent0, rank0;
    var stack: Stack := [Frame(start, 0)];
    while stack != []
      invariant Exploring(wf, adjacency, colour, parent, rank, stack)
      invariant colour0.Keys <= colour.Keys
      decreases Uncoloured(wf, colour), Unnumbered(wf, rank),
                if stack == [] then 0 else |Neighbours(adjacency, stack[|stack| - 1].id)| - stack[|stack| - 1].iter
    {
      SplitTop(stack);
      TopOfExplored(wf, adjacency, colour, parent, rank, stack);
      var frame := stack[|stack| - 1];
      ghost var under := stack[..|stack| - 1];
      var neighbours := Neighbours(adjacency, frame.id);
      if frame.iter >= |neighbours| {
        Retreat(wf, adjacency, colour, parent, rank, under, frame);
        NumberingProgress(wf, adjacency, colour, parent, rank, under, frame.id);
        colour := colour[frame.id := Finished];
        rank := rank[frame.id := |rank|];
        stack := stack[..|stack| - 1];
      } else {
        var next := neighbours[frame.iter];
        stack := stack[..|stack| - 1] + [frame.(iter := frame.iter + 1)];
        if next in colour && colour[next] == InStack {
          var path := CloseCycle(wf, adjacency, parent, rank, under, frame, next);
          cycle := Some(path);
          return;
        }
        if next !in colour {
          Descend(wf, adjacency, colour, parent, rank, under, frame, next);
          ColouringProgress(wf, colour, next);
          colour := colour[next := InStack];
          parent := parent[next := frame.id];
          stack := stack + [Frame(next, 0)];
        } else {
          Advance(wf, adjacency, colour, parent, rank, under, frame);
        }
      }
    }
  }

  lemma StartExploring(wf: Workflow, adjacency: Adjacency, colour: Colours, parent: Parents, rank: Ranking,
                       start: string)
    requires Identified(wf) && Exploring(wf, adjacency, colour, parent, rank, [])
    requires start in NodeIds(wf) && start !in colour
    ensures Exploring(wf, adjacency, colour[start := InStack], parent, rank, [Frame(start, 0)])
  {
    TopOfStack([], Frame(start, 0));
    assert [] + [Frame(start, 0)] == [Frame(start, 0)];
  }

  lemma AllFinished(wf: Workflow, adjacency: Adjacency, colour: Colours, parent: Parents, rank: Ranking)
    requires Exploring(wf, adjacency, colour, parent, rank, [])
    requires NodeIds(wf) <= colour.Keys
    ensures Ranks(wf, rank)
  {
    forall u, v | Step(wf, u, v) ensures u in rank && v in rank && rank[v] < rank[u] {
      assert u !in Ids([]) && u in colour;
    }
  }

  /**
   * A returned list is a simple cycle of real edges; null is returned exactly
   * when the graph has no closed walk at all.
   */
  method FindCycle(wf: Workflow) returns (cycle: Option<seq<string>>, ghost rank: Ranking)
    requires Identified(wf)
    ensures cycle.Some? ==> IsSimpleCycle(wf, cycle.value)
    ensures cycle.None? <==> Acyclic(wf)
    ensures cycle.None? ==> Ranks(wf, rank)
  {
    hide Exploring, IsAdjacencyOf, Identified, Ranks;
    var adjacency := BuildAdjacency(wf);
    var colour: Colours := map[];
    var parent: Parents := map[];
    rank := map[];
    NothingExplored(wf, adjacency);
    for s := 0 to |wf.nodes|
      invariant Exploring(wf, adjacency, colour, parent, rank, [])
      invariant forall k :: 0 <= k < s ==> wf.nodes[k].id in colour.Keys
    {
      var start := wf.nodes[s].id;
      if start !in colour {
        StartExploring(wf, adjacency, colour, parent, rank, start);
        cycle, colour, parent, rank := Explore(wf, adjacency, colour[start := InStack], parent, rank, start);
        if cycle.Some? {
          return;
        }
      }
    }
    AllFinished(wf, adjacency, colour, parent, rank);
    RankedIsAcyclic(wf, rank);
    cycle := None;
  }

  lemma NothingExplored(wf: Workflow, adjacency: Adjacency)
    ensures Exploring(wf, adjacency, map[], map[], map[], [])
  {
  }
}
