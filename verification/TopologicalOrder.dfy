/** `topologicalOrder` (packages/workflow-engine/src/validate.ts): Kahn's algorithm. */
module TopologicalOrder {
  import opened Wrappers
  import opened Workflows
  import opened GraphSearch

  type Degrees = map<string, nat>

  function Count(ids: seq<string>, v: string): nat {
    if ids == [] then 0 else Count(ids[..|ids| - 1], v) + (if ids[|ids| - 1] == v then 1 else 0)
  }

  /** How many edges into `v` do not leave one of the `settled` nodes. */
  ghost function Pending(edges: seq<Edge>, settled: set<string>, v: string): nat {
    if edges == [] then 0
    else
      var last := edges[|edges| - 1];
      Pending(edges[..|edges| - 1], settled, v) + (if last.to == v && last.from !in settled then 1 else 0)
  }

  /** Settling `u` releases exactly the edges listed for it. */
  lemma {:induction false} SettleOne(edges: seq<Edge>, settled: set<string>, u: string, v: string)
    requires u !in settled
    ensures Pending(edges, settled, v) == Pending(edges, settled + {u}, v) + Count(Targets(edges, u), v)
  {
    if edges != [] {
      var es, last := edges[..|edges| - 1], edges[|edges| - 1];
      SettleOne(es, settled, u, v);
      CountPush(Targets(es, u), last.to, v);
      assert Targets(es, u) + [] == Targets(es, u);
    }
  }

  lemma CountPush(ids: seq<string>, last: string, v: string)
    ensures Count(ids + [last], v) == Count(ids, v) + (if last == v then 1 else 0)
  {
    assert (ids + [last])[..|ids|] == ids;
  }

  lemma {:induction false} NothingPending(edges: seq<Edge>, settled: set<string>, v: string)
    ensures Pending(edges, settled, v) == 0 <==> forall e :: e in edges && e.to == v ==> e.from in settled
  {
    if edges != [] {
      var es, last := edges[..|edges| - 1], edges[|edges| - 1];
      NothingPending(es, settled, v);
      assert edges == es + [last];
    }
  }

  lemma {:induction false} PendingFalls(edges: seq<Edge>, settled: set<string>, settled': set<string>, v: string)
    requires settled <= settled'
    ensures Pending(edges, settled', v) <= Pending(edges, settled, v)
  {
    if edges != [] {
      PendingFalls(edges[..|edges| - 1], settled, settled', v);
    }
  }

  ghost predicate IsEndpoint(wf: Workflow, v: string) {
    v in NodeIds(wf) || exists e :: e in wf.edges && e.to == v
  }

  /** Only edges that leave nodes of the workflow are ever released. */
  ghost function PendingInto(wf: Workflow, settled: set<string>, v: string): nat {
    Pending(wf.edges, settled * NodeIds(wf), v)
  }

  /** `indegree` holds, for every endpoint, the number of edges still pending. */
  ghost predicate CountsPending(wf: Workflow, indegree: Degrees, settled: set<string>) {
    && (forall v :: v in indegree <==> IsEndpoint(wf, v))
    && (forall v :: v in indegree ==> indegree[v] == PendingInto(wf, settled, v))
  }

  /** The queue holds, once each, the endpoints that are free but not settled. */
  ghost predicate QueueIsFree(wf: Workflow, settled: set<string>, queue: seq<string>) {
    && (forall i, j :: 0 <= i < j < |queue| ==> queue[i] != queue[j])
    && (forall v :: v in queue <==> IsEndpoint(wf, v) && v !in settled && PendingInto(wf, settled, v) == 0)
  }

  function FindNode(nodes: seq<Node>, id: string): Option<Node> {
    if nodes == [] then None
    else if nodes[|nodes| - 1].id == id then Some(nodes[|nodes| - 1])
    else FindNode(nodes[..|nodes| - 1], id)
  }

  lemma {:induction false} FindNodeFinds(nodes: seq<Node>, id: string)
    ensures FindNode(nodes, id).Some? <==> exists n :: n in nodes && n.id == id
    ensures FindNode(nodes, id).Some? ==> FindNode(nodes, id).value in nodes && FindNode(nodes, id).value.id == id
  {
    if nodes != [] {
      FindNodeFinds(nodes[..|nodes| - 1], id);
      assert nodes == nodes[..|nodes| - 1] + [nodes[|nodes| - 1]];
    }
  }

  /** The ids of the nodes listed so far. */
  function OrderIds(order: seq<Node>): (ids: set<string>) {
    set n | n in order :: n.id
  }

  ghost predicate ListedOnce(order: seq<Node>) {
    forall i, j :: 0 <= i < j < |order| ==> order[i].id != order[j].id
  }

  /** Every edge into a listed node comes from a node listed before it. */
  ghost predicate SourcesComeFirst(wf: Workflow, order: seq<Node>) {
    forall i, e :: 0 <= i < |order| && e in wf.edges && e.to == order[i].id ==> e.from in OrderIds(order[..i])
  }

  ghost predicate Ordering(wf: Workflow, settled: set<string>, order: seq<Node>) {
    && (forall n :: n in order ==> n in wf.nodes)
    && ListedOnce(order)
    && OrderIds(order) == settled * NodeIds(wf)
    && SourcesComeFirst(wf, order)
    && (forall v :: v in settled ==> IsEndpoint(wf, v) && PendingInto(wf, settled, v) == 0)
  }

  /** Edges between listed nodes point forward in the list. */
  ghost predicate PointsForward(wf: Workflow, order: seq<Node>) {
    forall i, j :: 0 <= i < |order| && 0 <= j < |order| && Step(wf, order[i].id, order[j].id) ==> i < j
  }

  lemma SourcesFirstPointsForward(wf: Workflow, order: seq<Node>)
    requires ListedOnce(order) && SourcesComeFirst(wf, order)
    ensures PointsForward(wf, order)
  {
    forall i, j | 0 <= i < |order| && 0 <= j < |order| && Step(wf, order[i].id, order[j].id) ensures i < j {
      var e :| e in wf.edges && e.from == order[i].id && e.to == order[j].id;
      assert e.from in OrderIds(order[..j]);
      var k :| 0 <= k < j && order[k].id == order[i].id;
    }
  }

  // ---------------------------------------------------------------- the main loop

  /** Counts every edge at its target; targets that are not nodes get an entry as well. */
  method CountEdges(wf: Workflow) returns (indegree: Degrees)
    ensures CountsPending(wf, indegree, {})
  {
    indegree := map[];
    for i := 0 to |wf.nodes|
      invariant indegree.Keys == OrderIds(wf.nodes[..i])
      invariant forall v :: v in indegree ==> indegree[v] == 0
    {
      assert wf.nodes[..i + 1] == wf.nodes[..i] + [wf.nodes[i]];
      indegree := indegree[wf.nodes[i].id := 0];
    }
    assert wf.nodes[..|wf.nodes|] == wf.nodes;
    for i := 0 to |wf.edges|
      invariant CountsInto(wf, wf.edges[..i], indegree)
    {
      var e := wf.edges[i];
      assert wf.edges[..i + 1] == wf.edges[..i] + [e];
      CountOneMore(wf, wf.edges[..i], e, indegree);
      indegree := indegree[e.to := (if e.to in indegree then indegree[e.to] else 0) + 1];
    }
    assert wf.edges[..|wf.edges|] == wf.edges;
    assert {} * NodeIds(wf) == {};
  }

  /** `indegree` counts the given edges, all of them pending. */
  ghost predicate CountsInto(wf: Workflow, edges: seq<Edge>, indegree: Degrees) {
    && (forall v :: v in indegree <==> v in NodeIds(wf) || exists e :: e in edges && e.to == v)
    && (forall v :: (if v in indegree then indegree[v] else 0) == Pending(edges, {}, v))
  }

  lemma CountOneMore(wf: Workflow, edges: seq<Edge>, e: Edge, indegree: Degrees)
    requires CountsInto(wf, edges, indegree)
    ensures CountsInto(wf, edges + [e], indegree[e.to := (if e.to in indegree then indegree[e.to] else 0) + 1])
  {
    assert (edges + [e])[..|edges|] == edges;
    assert forall x :: x in edges + [e] <==> x in edges || x == e;
  }

  /** The entries of the degree map that start at zero, in the order the map lists them. */
  method InitialQueue(wf: Workflow, indegree: Degrees) returns (queue: seq<string>)
    requires CountsPending(wf, indegree, {})
    ensures QueueIsFree(wf, {}, queue)
  {
    queue := [];
    ghost var seen := {};
    assert {} * NodeIds(wf) == {};
    for i := 0 to |wf.nodes|
      invariant seen == OrderIds(wf.nodes[..i])
      invariant forall a, b :: 0 <= a < b < |queue| ==> queue[a] != queue[b]
      invariant forall v :: v in queue <==> v in seen && PendingInto(wf, {}, v) == 0
    {
      var id := wf.nodes[i].id;
      assert wf.nodes[..i + 1] == wf.nodes[..i] + [wf.nodes[i]];
      assert IsEndpoint(wf, id);
      if indegree[id] == 0 && id !in queue {
        queue := queue + [id];
      }
      seen := seen + {id};
    }
    assert seen == NodeIds(wf);
    forall v ensures v in queue <==> IsEndpoint(wf, v) && PendingInto(wf, {}, v) == 0 {
      NothingPending(wf.edges, {}, v);
    }
  }

  /**
   * The nodes that are listed appear once each and every edge between them
   * points forward. With no dangling edges, all nodes are listed exactly when
   * the graph has no closed walk, which is also when `findCycle` returns null.
   */
  method TopologicalOrder(wf: Workflow) returns (order: seq<Node>)
    ensures forall n :: n in order ==> n in wf.nodes
    ensures ListedOnce(order)
    ensures PointsForward(wf, order)
    ensures NoDanglingEdges(wf) ==> (OrderIds(order) == NodeIds(wf) <==> Acyclic(wf))
    ensures NoDanglingEdges(wf) && DistinctIds(wf) ==> ((forall n :: n in wf.nodes ==> n in order) <==> Acyclic(wf))
  {
    hide QueueIsFree, Ordering, CountsPending, ListedOnce, PointsForward, NoDanglingEdges, DistinctIds;
    var adjacency := BuildAdjacency(wf);
    var indegree := CountEdges(wf);
    var queue := InitialQueue(wf, indegree);
    order := [];
    ghost var settled := {};
    StartOrdering(wf);
    while queue != []
      invariant CountsPending(wf, indegree, settled)
      invariant QueueIsFree(wf, settled, queue)
      invariant Ordering(wf, settled, order)
      decreases |Endpoints(wf) - settled|
    {
      var id := queue[0];
      DequeuedIsFree(wf, settled, queue);
      assert queue == [id] + queue[1..];
      queue := queue[1..];
      ghost var order0 := order;
      var node := FindNode(wf.nodes, id);
      ListNode(wf, settled, order, id);
      if node.Some? {
        order := order + [node.value];
      }
      SettledIsFree(wf, settled, order0);
      indegree, queue := Release(wf, adjacency, indegree, settled, id, queue);
      SmallerSet(Endpoints(wf) - (settled + {id}), Endpoints(wf) - settled);
      settled := settled + {id};
    }
    Conclude(wf, settled, order);
  }

  lemma StartOrdering(wf: Workflow)
    ensures Ordering(wf, {}, [])
  {
  }

  lemma DequeuedIsFree(wf: Workflow, settled: set<string>, queue: seq<string>)
    requires QueueIsFree(wf, settled, queue) && queue != []
    ensures queue[0] !in settled && IsEndpoint(wf, queue[0]) && queue[0] in Endpoints(wf)
    ensures PendingInto(wf, settled, queue[0]) == 0
  {
    assert queue[0] in queue;
  }

  lemma SettledIsFree(wf: Workflow, settled: set<string>, order: seq<Node>)
    requires Ordering(wf, settled, order)
    ensures forall v :: v in settled ==> PendingInto(wf, settled, v) == 0
  {
  }

  /** Listing a free node keeps the order. */
  lemma ListNode(wf: Workflow, settled: set<string>, order: seq<Node>, id: string)
    requires Ordering(wf, settled, order)
    requires id !in settled && IsEndpoint(wf, id) && PendingInto(wf, settled, id) == 0
    ensures var node := FindNode(wf.nodes, id);
            Ordering(wf, settled + {id}, if node.Some? then order + [node.value] else order)
  {
    hide IsEndpoint, SourcesComeFirst, ListedOnce;
    FindNodeFinds(wf.nodes, id);
    var node := FindNode(wf.nodes, id);
    var settled' := settled + {id};
    forall v | v in settled' ensures PendingInto(wf, settled', v) == 0 {
      PendingFalls(wf.edges, settled * NodeIds(wf), settled' * NodeIds(wf), v);
    }
    if node.Some? {
      assert OrderIds(order + [node.value]) == OrderIds(order) + {id};
      ListNodeLast(wf, settled, order, node.value);
    } else {
      assert settled' * NodeIds(wf) == settled * NodeIds(wf);
    }
  }

  lemma ListNodeLast(wf: Workflow, settled: set<string>, order: seq<Node>, node: Node)
    requires Ordering(wf, settled, order)
    requires node in wf.nodes && node.id !in settled && PendingInto(wf, settled, node.id) == 0
    ensures ListedOnce(order + [node]) && SourcesComeFirst(wf, order + [node])
  {
    var order' := order + [node];
    NothingPending(wf.edges, settled * NodeIds(wf), node.id);
    assert node.id !in OrderIds(order);
    forall i, e | 0 <= i < |order'| && e in wf.edges && e.to == order'[i].id ensures e.from in OrderIds(order'[..i]) {
      assert order'[..i] == order[..i];
      assert order[..|order|] == order;
    }
  }

  /** The inner loop: takes one off the degree of each target and queues those that reach zero. */
  method Release(ghost wf: Workflow, adjacency: Adjacency, indegree0: Degrees, ghost settled: set<string>, id: string,
                 queue0: seq<string>)
      returns (indegree: Degrees, queue: seq<string>)
    requires IsAdjacencyOf(adjacency, wf)
    requires CountsPending(wf, indegree0, settled)
    requires QueueIsFree(wf, settled, [id] + queue0)
    requires forall v :: v in settled || v == id ==> PendingInto(wf, settled, v) == 0
    ensures CountsPending(wf, indegree, settled + {id})
    ensures QueueIsFree(wf, settled + {id}, queue)
  {
    hide IsAdjacencyOf, IsEndpoint, Releasing, SettlesBy, CountsPending, QueueIsFree, PendingInto;
    indegree, queue := indegree0, queue0;
    var targets := Neighbours(adjacency, id);
    StartRelease(wf, indegree0, settled, id, queue0);
    NeighboursSettle(wf, adjacency, settled, id);
    for k := 0 to |targets|
      invariant Releasing(wf, indegree, settled, id, queue, targets[..k])
    {
      var next := targets[k];
      ReleaseOne(wf, indegree, settled, id, queue, targets, k);
      var d := indegree[next] - 1;
      indegree := indegree[next := d];
      if d == 0 {
        queue := queue + [next];
      }
    }
    assert targets[..|targets|] == targets;
    FinishRelease(wf, indegree, settled, id, queue, targets);
  }

  /** Part-way through the inner loop: the targets in `done` have been counted down. */
  ghost predicate Releasing(wf: Workflow, indegree: Degrees, settled: set<string>, id: string, queue: seq<string>,
                            done: seq<string>) {
    && (forall v :: v in indegree <==> IsEndpoint(wf, v))
    && (forall v :: v in indegree ==> indegree[v] + Count(done, v) == PendingInto(wf, settled, v))
    && (forall i, j :: 0 <= i < j < |queue| ==> queue[i] != queue[j])
    && (forall v :: v in queue <==> v in indegree && v !in settled && v != id && indegree[v] == 0)
  }

  /** All targets are accounted for: settling `id` frees exactly them. */
  ghost predicate SettlesBy(wf: Workflow, settled: set<string>, id: string, targets: seq<string>) {
    && (forall v :: PendingInto(wf, settled, v) == PendingInto(wf, settled + {id}, v) + Count(targets, v))
    && (forall v :: v in targets ==> IsEndpoint(wf, v))
  }

  lemma NeighboursSettle(wf: Workflow, adjacency: Adjacency, settled: set<string>, id: string)
    requires IsAdjacencyOf(adjacency, wf) && id !in settled
    ensures SettlesBy(wf, settled, id, Neighbours(adjacency, id))
  {
    var targets := Neighbours(adjacency, id);
    forall v ensures PendingInto(wf, settled, v) == PendingInto(wf, settled + {id}, v) + Count(targets, v) {
      if id in NodeIds(wf) {
        assert (settled + {id}) * NodeIds(wf) == settled * NodeIds(wf) + {id};
        SettleOne(wf.edges, settled * NodeIds(wf), id, v);
      } else {
        assert (settled + {id}) * NodeIds(wf) == settled * NodeIds(wf);
      }
    }
    TargetsAreEdges(wf.edges, id);
  }

  lemma StartRelease(wf: Workflow, indegree: Degrees, settled: set<string>, id: string, queue: seq<string>)
    requires CountsPending(wf, indegree, settled)
    requires QueueIsFree(wf, settled, [id] + queue)
    ensures id !in settled && Releasing(wf, indegree, settled, id, queue, [])
  {
    var full := [id] + queue;
    assert full[0] == id && id in full;
    assert forall i :: 0 <= i < |queue| ==> full[i + 1] == queue[i];
    forall v ensures v in queue <==> v in indegree && v !in settled && v != id && indegree[v] == 0 {
      assert v in full <==> v == id || v in queue;
      if v in queue {
        var i :| 0 <= i < |queue| && queue[i] == v;
        assert full[0] != full[i + 1];
      }
    }
  }

  lemma {:induction false} CountPositive(ids: seq<string>, v: string)
    ensures Count(ids, v) > 0 <==> v in ids
  {
    if ids != [] {
      CountPositive(ids[..|ids| - 1], v);
      assert ids == ids[..|ids| - 1] + [ids[|ids| - 1]];
    }
  }

  lemma {:induction false} CountPrefix(ids: seq<string>, k: nat, v: string)
    requires k <= |ids|
    ensures Count(ids[..k], v) <= Count(ids, v)
  {
    if k < |ids| {
      assert ids[..|ids| - 1][..k] == ids[..k];
      CountPrefix(ids[..|ids| - 1], k, v);
    } else {
      assert ids[..k] == ids;
    }
  }

  lemma CountNext(ids: seq<string>, k: nat, v: string)
    requires k < |ids|
    ensures Count(ids[..k + 1], v) == Count(ids[..k], v) + (if ids[k] == v then 1 else 0)
  {
    assert ids[..k + 1][..k] == ids[..k];
  }

  lemma ReleaseOne(wf: Workflow, indegree: Degrees, settled: set<string>, id: string, queue: seq<string>,
                   targets: seq<string>, k: nat)
    requires k < |targets| && SettlesBy(wf, settled, id, targets)
    requires Releasing(wf, indegree, settled, id, queue, targets[..k])
    requires forall v :: v in settled || v == id ==> PendingInto(wf, settled, v) == 0
    ensures targets[k] in indegree && indegree[targets[k]] >= 1
    ensures var d := indegree[targets[k]] - 1;
            Releasing(wf, indegree[targets[k] := d], settled, id,
                      if d == 0 then queue + [targets[k]] else queue, targets[..k + 1])
  {
    hide IsEndpoint, PendingInto, Count;
    var next := targets[k];
    assert next in targets;
    CountNext(targets, k, next);
    CountPrefix(targets, k + 1, next);
    CountPositive(targets, next);
    forall v ensures Count(targets[..k + 1], v) == Count(targets[..k], v) + (if next == v then 1 else 0) {
      CountNext(targets, k, v);
    }
  }

  lemma FinishRelease(wf: Workflow, indegree: Degrees, settled: set<string>, id: string, queue: seq<string>,
                      targets: seq<string>)
    requires SettlesBy(wf, settled, id, targets)
    requires Releasing(wf, indegree, settled, id, queue, targets)
    ensures CountsPending(wf, indegree, settled + {id})
    ensures QueueIsFree(wf, settled + {id}, queue)
  {
    hide IsEndpoint, PendingInto;
  }

  lemma Conclude(wf: Workflow, settled: set<string>, order: seq<Node>)
    requires Ordering(wf, settled, order) && QueueIsFree(wf, settled, [])
    ensures forall n :: n in order ==> n in wf.nodes
    ensures ListedOnce(order) && PointsForward(wf, order)
    ensures NoDanglingEdges(wf) ==> (OrderIds(order) == NodeIds(wf) <==> Acyclic(wf))
    ensures NoDanglingEdges(wf) && DistinctIds(wf) ==> ((forall n :: n in wf.nodes ==> n in order) <==> Acyclic(wf))
  {
    hide QueueIsFree, Acyclic;
    SourcesFirstPointsForward(wf, order);
    if NoDanglingEdges(wf) {
      if OrderIds(order) == NodeIds(wf) {
        OrderRanks(wf, order);
      } else {
        UnlistedIsTrap(wf, settled, order);
        assert OrderIds(order) <= NodeIds(wf);
        var id :| id in NodeIds(wf) && id !in OrderIds(order);
        assert id in NodeIds(wf) - OrderIds(order);
        TrapHoldsACycle(wf, NodeIds(wf) - OrderIds(order));
      }
      if DistinctIds(wf) {
        ListedByIdIsListed(wf, order);
      }
    }
  }

  lemma ListedByIdIsListed(wf: Workflow, order: seq<Node>)
    requires DistinctIds(wf) && forall n :: n in order ==> n in wf.nodes
    ensures (forall n :: n in wf.nodes ==> n in order) <==> OrderIds(order) == NodeIds(wf)
  {
    if OrderIds(order) == NodeIds(wf) {
      forall n | n in wf.nodes ensures n in order {
        assert n.id in OrderIds(order);
        var m :| m in order && m.id == n.id;
        var i :| 0 <= i < |wf.nodes| && wf.nodes[i] == n;
        var j :| 0 <= j < |wf.nodes| && wf.nodes[j] == m;
      }
    }
    if forall n :: n in wf.nodes ==> n in order {
      assert OrderIds(order) == NodeIds(wf);
    }
  }

  /** Nodes that were never freed wait for one another. */
  lemma UnlistedIsTrap(wf: Workflow, settled: set<string>, order: seq<Node>)
    requires NoDanglingEdges(wf) && Ordering(wf, settled, order) && QueueIsFree(wf, settled, [])
    ensures IsTrap(wf, NodeIds(wf) - OrderIds(order))
  {
    var rest := NodeIds(wf) - OrderIds(order);
    forall v | v in rest ensures HasPredecessorIn(wf, rest, v) {
      assert v !in settled && v !in [] && PendingInto(wf, settled, v) > 0;
      NothingPending(wf.edges, settled * NodeIds(wf), v);
      var e :| e in wf.edges && e.to == v && e.from !in settled * NodeIds(wf);
      assert Step(wf, e.from, v) && e.from in rest;
    }
  }

  function PositionOf(order: seq<Node>, id: string): (i: nat)
    requires id in OrderIds(order)
    ensures i < |order| && order[i].id == id
  {
    if order[|order| - 1].id == id then |order| - 1
    else
      assert order == order[..|order| - 1] + [order[|order| - 1]];
      PositionOf(order[..|order| - 1], id)
  }

  /** A list of all nodes with forward edges numbers them downwards. */
  lemma OrderRanks(wf: Workflow, order: seq<Node>)
    requires NoDanglingEdges(wf) && OrderIds(order) == NodeIds(wf) && PointsForward(wf, order)
    ensures Acyclic(wf)
  {
    hide Acyclic, Step;
    var rank := map id | id in NodeIds(wf) :: (|order| - PositionOf(order, id)) as nat;
    forall u, v | Step(wf, u, v) ensures u in rank && v in rank && rank[v] < rank[u] {
      StepStaysInside(wf, u, v);
      assert order[PositionOf(order, u)].id == u && order[PositionOf(order, v)].id == v;
    }
    RankedIsAcyclic(wf, rank);
  }

  lemma StepStaysInside(wf: Workflow, u: string, v: string)
    requires NoDanglingEdges(wf) && Step(wf, u, v)
    ensures u in NodeIds(wf) && v in NodeIds(wf)
  {
  }
}
