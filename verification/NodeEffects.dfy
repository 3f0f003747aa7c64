/**
 * What the node specifications of Executor compute, said without their recursion:
 * where acting and scoring stop, what they have done by then, and which frames a
 * node sends on.
 */
module NodeEffects {
  import opened Basics
  import opened Wrappers
  import opened Workflows
  import opened Executor

  // ------------------------------------------------------------ passing, one by one

  function PassesAll(fx: Effects, conditions: seq<Condition>): Item -> bool {
    item => forall c :: c in conditions ==> fx.holds(c, item)
  }

  /** A filter keeps exactly the items that pass every condition, in order and each as often as it comes. */
  lemma {:induction false} FilterKeepsThePassing(fx: Effects, conditions: seq<Condition>, items: seq<Item>)
    ensures IsFilterOf(Kept(fx, conditions, items), items, PassesAll(fx, conditions))
  {
    hide IsFilterOf;
    if items == [] {
      NothingToFilter(PassesAll(fx, conditions));
    } else {
      var earlier, item := items[..|items| - 1], items[|items| - 1];
      FilterKeepsThePassing(fx, conditions, earlier);
      FilterOneMore(Kept(fx, conditions, earlier), earlier, PassesAll(fx, conditions), item);
      assert items == earlier + [item];
    }
  }

  /** What leaves a node that is no branch and does not fail. */
  ghost predicate Leaves(r: NodeRun, out: seq<Item>) {
    r.outcome.Done? && r.outcome.branches == [Bucket(out, None)]
  }

  /** Triggers, delays and all nodes that act pass on what they got; the others change it as their kind says. */
  lemma WhatLeavesANode(fx: Effects, dryRun: bool, node: Node, items: seq<Item>)
    ensures var r, cfg := NodeSpec(fx, dryRun, node, items), node.config;
            && (cfg.Trigger? || cfg.Delay? || (r.outcome.Done? && Acts(cfg)) ==> Leaves(r, items))
            && (cfg.Filter? ==>
                  exists kept :: Leaves(r, kept) && IsFilterOf(kept, items, PassesAll(fx, cfg.conditions)))
            && (cfg.Transform? ==>
                  exists out :: Leaves(r, out) && |out| == |items|
                                && forall i :: 0 <= i < |items| ==> out[i] == fx.transform(cfg.mappings, items[i]))
            && (cfg.Source? ==>
                  match fx.fetchSources(cfg)
                  case Ok(fetched) => Leaves(r, fetched)
                  case Err(e) => r.outcome == Failed(e))
            && (cfg.Score? ==>
                  && r.anomalies == AnomaliesFound(fx, cfg.disabledSignals, items)
                  && match ScoredItems(fx, cfg.disabledSignals, items)
                     case Ok(scored) => Leaves(r, scored)
                     case Err(e) => r.outcome == Failed(e))
            && (cfg.Branch? ==> r.outcome.Done? && r.outcome.branches == Buckets(fx, cfg, items))
            && (Acts(cfg) && !dryRun ==>
                  && r.calls == CallsMade(fx, node, items)
                  && match ActOnAll(fx, node, items)
                     case Ok(cost) => r.outcome.Done? && r.outcome.cost == cost
                     case Err(e) => r.outcome == Failed(e))
  {
    hide IsFilterOf, ActOnAll, CallsMade, ScoredItems, AnomaliesFound;
    var r := NodeSpec(fx, dryRun, node, items);
    if node.config.Filter? {
      FilterKeepsThePassing(fx, node.config.conditions, items);
      assert Leaves(r, Kept(fx, node.config.conditions, items));
    }
    if node.config.Transform? {
      assert Leaves(r, Mapped(fx, node.config.mappings, items));
    }
  }

  /** Only nodes that act call the outside world, cost anything or are skipped: skipped in a dry run, and only there. */
  lemma OnlyActingTouches(fx: Effects, dryRun: bool, node: Node, items: seq<Item>)
    ensures var r := NodeSpec(fx, dryRun, node, items);
            && (r.calls != [] ==> Acts(node.config) && !dryRun)
            && (r.anomalies != [] ==> node.config.Score?)
            && (r.outcome.Done? ==>
                  && (r.outcome.cost != 0.0 ==> node.config.AgentTask? && !dryRun)
                  && (r.outcome.skipped <==> Acts(node.config) && dryRun))
  {
    hide CallsMade, ScoredItems, AnomaliesFound, Kept, Buckets;
    if node.config.Archive? || node.config.Notify? {
      ActingIsFree(fx, node, items);
    }
  }

  lemma {:induction false} ActingIsFree(fx: Effects, node: Node, items: seq<Item>)
    requires !node.config.AgentTask?
    ensures ActOnAll(fx, node, items).Ok? ==> ActOnAll(fx, node, items).value == 0.0
  {
    if items != [] {
      ActingIsFree(fx, node, items[..|items| - 1]);
    }
  }

  // ---------------------------------------------------------------------- acting

  function AtNoCost(r: Result<()>): Result<real> {
    match r
    case Ok(_) => Ok(0.0)
    case Err(e) => Err(e)
  }

  /** One item: an agent task dispatches it and costs what that costs, the others archive or notify at no cost. */
  lemma ActingOnOne(fx: Effects, node: Node, item: Item)
    ensures node.config.AgentTask? ==>
              ActOnAll(fx, node, [item]) == fx.dispatch(node.config, item)
              && CallsMade(fx, node, [item]) == [Dispatch(node.id, item)]
    ensures node.config.Archive? ==>
              ActOnAll(fx, node, [item]) == AtNoCost(fx.archive(node.config, item))
              && CallsMade(fx, node, [item]) == [Archived(node.id, item)]
    ensures node.config.Notify? ==>
              ActOnAll(fx, node, [item]) == AtNoCost(fx.notify(node, item))
              && CallsMade(fx, node, [item]) == [Notified(node.id, item)]
  {
    assert [item][..0] == [];
    assert ActOnAll(fx, node, []) == Ok(0.0);
  }

  ghost predicate FailsFirstAt(fx: Effects, node: Node, items: seq<Item>, k: nat, e: string) {
    k < |items| && (forall j :: 0 <= j < k ==> Act(fx, node, items[j]).Ok?) && Act(fx, node, items[k]) == Err(e)
  }

  function CallsFor(node: Node, items: seq<Item>): (calls: seq<Call>)
    ensures |calls| == |items|
    ensures forall i :: 0 <= i < |items| ==> calls[i] == CallFor(node, items[i])
  {
    seq(|items|, i requires 0 <= i < |items| => CallFor(node, items[i]))
  }

  ghost predicate AllActed(fx: Effects, node: Node, items: seq<Item>) {
    forall i :: 0 <= i < |items| ==> Act(fx, node, items[i]).Ok?
  }

  /** Without a failure every item is acted on, once and in order. */
  lemma {:induction false} ActingSucceedsThroughout(fx: Effects, node: Node, items: seq<Item>)
    requires AllActed(fx, node, items)
    ensures ActOnAll(fx, node, items).Ok? && CallsMade(fx, node, items) == CallsFor(node, items)
  {
    if items != [] {
      var earlier, last := items[..|items| - 1], items[|items| - 1];
      ActingSucceedsThroughout(fx, node, earlier);
      assert Act(fx, node, items[|items| - 1]).Ok?;
      assert CallsFor(node, items) == CallsFor(node, earlier) + [CallFor(node, last)];
    }
  }

  /** The first failure is the outcome, and the calls are those for the items up to and including it. */
  lemma ActingStopsAtFirstFailure(fx: Effects, node: Node, items: seq<Item>, k: nat, e: string)
    requires FailsFirstAt(fx, node, items, k, e)
    ensures ActOnAll(fx, node, items) == Err(e) && CallsMade(fx, node, items) == CallsFor(node, items[..k + 1])
  {
    var upTo := items[..k + 1];
    assert upTo[..k] == items[..k];
    ActingSucceedsThroughout(fx, node, items[..k]);
    assert CallsFor(node, upTo) == CallsFor(node, items[..k]) + [CallFor(node, items[k])];
    StopsForGood(fx, node, items, k + 1, e);
  }

  lemma {:induction false} FirstFailureExists(fx: Effects, node: Node, items: seq<Item>)
    ensures AllActed(fx, node, items) || exists k, e :: FailsFirstAt(fx, node, items, k, e)
  {
    if items != [] {
      var n := |items| - 1;
      FirstFailureExists(fx, node, items[..n]);
      if AllActed(fx, node, items[..n]) {
        assert forall j :: 0 <= j < n ==> items[..n][j] == items[j];
        if Act(fx, node, items[n]).Err? {
          assert FailsFirstAt(fx, node, items, n, Act(fx, node, items[n]).error);
        }
      } else {
        var k, e :| FailsFirstAt(fx, node, items[..n], k, e);
        assert FailsFirstAt(fx, node, items, k, e);
      }
    }
  }

  /** Acting fails with an error exactly when some item is the first to fail, and fails with that error. */
  lemma ActingFailsExactlyWhen(fx: Effects, node: Node, items: seq<Item>, e: string)
    ensures ActOnAll(fx, node, items) == Err(e) <==> exists k :: FailsFirstAt(fx, node, items, k, e)
    ensures ActOnAll(fx, node, items).Ok? <==> AllActed(fx, node, items)
  {
    hide ActOnAll, CallsMade;
    FirstFailureExists(fx, node, items);
    if AllActed(fx, node, items) {
      ActingSucceedsThroughout(fx, node, items);
    } else {
      var k, f :| FailsFirstAt(fx, node, items, k, f);
      ActingStopsAtFirstFailure(fx, node, items, k, f);
    }
    if exists k :: FailsFirstAt(fx, node, items, k, e) {
      var k :| FailsFirstAt(fx, node, items, k, e);
      ActingStopsAtFirstFailure(fx, node, items, k, e);
    }
  }

  /** The cost of acting on two lists one after the other is the sum of their costs. */
  lemma {:induction false} CostsAdd(fx: Effects, node: Node, a: seq<Item>, b: seq<Item>)
    requires ActOnAll(fx, node, a).Ok? && ActOnAll(fx, node, b).Ok?
    ensures ActOnAll(fx, node, a + b) == Ok(ActOnAll(fx, node, a).value + ActOnAll(fx, node, b).value)
  {
    if b == [] {
      assert a + b == a;
    } else {
      var init, last := b[..|b| - 1], b[|b| - 1];
      CostsAdd(fx, node, a, init);
      assert (a + b)[..|a + b| - 1] == a + init;
    }
  }

  // --------------------------------------------------------------------- scoring

  ghost predicate AllScored(fx: Effects, disabled: seq<string>, items: seq<Item>) {
    forall i :: 0 <= i < |items| ==> fx.scoreItem(disabled, items[i]).Ok?
  }

  ghost predicate FailsToScoreAt(fx: Effects, disabled: seq<string>, items: seq<Item>, k: nat, e: string) {
    k < |items| && AllScored(fx, disabled, items[..k]) && fx.scoreItem(disabled, items[k]) == Err(e)
  }

  /** Item by item and in order, when all can be scored. */
  lemma {:induction false} ScoresThroughout(fx: Effects, disabled: seq<string>, items: seq<Item>)
    requires AllScored(fx, disabled, items)
    ensures ScoredItems(fx, disabled, items).Ok?
    ensures var scored := ScoredItems(fx, disabled, items).value;
            && |scored| == |items|
            && forall i :: 0 <= i < |items| ==> scored[i] == fx.scoreItem(disabled, items[i]).value.item
  {
    if items != [] {
      ScoresThroughout(fx, disabled, items[..|items| - 1]);
      assert fx.scoreItem(disabled, items[|items| - 1]).Ok?;
    }
  }

  /** The first item that cannot be scored gives the outcome; the anomalies are those found before it. */
  lemma ScoringStopsAtFirstFailure(fx: Effects, disabled: seq<string>, items: seq<Item>, k: nat, e: string)
    requires FailsToScoreAt(fx, disabled, items, k, e)
    ensures ScoredItems(fx, disabled, items) == Err(e)
    ensures AnomaliesFound(fx, disabled, items) == AnomaliesFound(fx, disabled, items[..k])
  {
    var upTo := items[..k + 1];
    assert upTo[..k] == items[..k];
    ScoresThroughout(fx, disabled, items[..k]);
    ScoringStops(fx, disabled, items, k + 1, e);
  }

  predicate IsAnomalous(fx: Effects, disabled: seq<string>, item: Item) {
    var s := fx.scoreItem(disabled, item);
    s.Ok? && s.value.anomalous
  }

  function Anomalous(fx: Effects, disabled: seq<string>): Item -> bool {
    item => IsAnomalous(fx, disabled, item)
  }

  /** When all items can be scored, the anomalies are the anomalous items in their order, each as often as it occurs. */
  lemma {:induction false} AnomaliesAreFiltered(fx: Effects, disabled: seq<string>, items: seq<Item>)
    requires AllScored(fx, disabled, items)
    ensures IsFilterOf(AnomaliesFound(fx, disabled, items), items, Anomalous(fx, disabled))
  {
    hide IsFilterOf;
    if items == [] {
      NothingToFilter(Anomalous(fx, disabled));
    } else {
      var earlier, item := items[..|items| - 1], items[|items| - 1];
      AnomaliesAreFiltered(fx, disabled, earlier);
      ScoredWhenAll(fx, disabled, earlier);
      FilterOneMore(AnomaliesFound(fx, disabled, earlier), earlier, Anomalous(fx, disabled), item);
      assert items == earlier + [item];
    }
  }

  lemma AllScoredAppend(fx: Effects, disabled: seq<string>, a: seq<Item>, b: seq<Item>)
    ensures AllScored(fx, disabled, a + b) <==> AllScored(fx, disabled, a) && AllScored(fx, disabled, b)
  {
    if AllScored(fx, disabled, a + b) {
      assert forall i :: 0 <= i < |a| ==> a[i] == (a + b)[i];
      assert forall i :: 0 <= i < |b| ==> b[i] == (a + b)[|a| + i];
    }
  }

  lemma {:induction false} ScoredWhenAll(fx: Effects, disabled: seq<string>, items: seq<Item>)
    ensures ScoredItems(fx, disabled, items).Ok? <==> AllScored(fx, disabled, items)
  {
    if items != [] {
      var n := |items| - 1;
      ScoredWhenAll(fx, disabled, items[..n]);
      AllScoredAppend(fx, disabled, items[..n], [items[n]]);
      assert items == items[..n] + [items[n]];
    }
  }

  ghost predicate IsFoundAt(fx: Effects, disabled: seq<string>, items: seq<Item>, item: Item, k: nat) {
    k < |items| && items[k] == item && IsAnomalous(fx, disabled, item) && AllScored(fx, disabled, items[..k])
  }

  /** An item is recorded exactly when it is anomalous and everything before it could be scored. */
  lemma {:induction false} AnomaliesAreTheAnomalous(fx: Effects, disabled: seq<string>, items: seq<Item>, item: Item)
    ensures item in AnomaliesFound(fx, disabled, items) <==> exists k :: IsFoundAt(fx, disabled, items, item, k)
  {
    hide AllScored;
    if items != [] {
      var n := |items| - 1;
      var earlier := items[..n];
      AnomaliesAreTheAnomalous(fx, disabled, earlier, item);
      ScoredWhenAll(fx, disabled, earlier);
      forall k: nat | k < n
        ensures IsFoundAt(fx, disabled, earlier, item, k) <==> IsFoundAt(fx, disabled, items, item, k)
      {
        assert earlier[..k] == items[..k];
      }
      assert IsFoundAt(fx, disabled, items, item, n) <==>
             items[n] == item && IsAnomalous(fx, disabled, item) && AllScored(fx, disabled, earlier);
      if exists k :: IsFoundAt(fx, disabled, earlier, item, k) {
        var k :| IsFoundAt(fx, disabled, earlier, item, k);
        assert IsFoundAt(fx, disabled, items, item, k);
      }
    }
  }

  // ------------------------------------------------------------------- sending on

  predicate Sends(edges: seq<Edge>, u: string, b: Bucket, f: Frame, k: nat) {
    k < |edges| && edges[k].from == u && Selects(b.edgeLabel, edges[k]) && f == Frame(edges[k].to, b.items)
  }

  lemma {:induction false} EmitIsExact(edges: seq<Edge>, u: string, b: Bucket, f: Frame)
    ensures f in Emit(edges, u, b) <==> exists k :: Sends(edges, u, b, f, k)
  {
    if edges != [] {
      var n := |edges| - 1;
      EmitIsExact(edges[..n], u, b, f);
      assert forall k: nat :: k < n ==> (Sends(edges[..n], u, b, f, k) <==> Sends(edges, u, b, f, k));
      assert Sends(edges, u, b, f, n)
        <==> edges[n].from == u && Selects(b.edgeLabel, edges[n]) && f == Frame(edges[n].to, b.items);
      if exists k :: Sends(edges[..n], u, b, f, k) {
        var k :| Sends(edges[..n], u, b, f, k);
        assert Sends(edges, u, b, f, k);
      }
    }
  }

  ghost predicate IsSentBy(edges: seq<Edge>, u: string, branches: seq<Bucket>, f: Frame, i: nat, k: nat) {
    i < |branches| && branches[i].items != [] && Sends(edges, u, branches[i], f, k)
  }

  ghost predicate IsSentBySome(edges: seq<Edge>, u: string, branches: seq<Bucket>, f: Frame) {
    exists i: nat, k: nat :: IsSentBy(edges, u, branches, f, i, k)
  }

  lemma SentByOneMore(edges: seq<Edge>, u: string, branches: seq<Bucket>, b: Bucket, f: Frame)
    ensures IsSentBySome(edges, u, branches + [b], f) <==>
            IsSentBySome(edges, u, branches, f) || (b.items != [] && exists k :: Sends(edges, u, b, f, k))
  {
    hide Sends;
    var more, n := branches + [b], |branches|;
    forall i: nat, k: nat
      ensures IsSentBy(edges, u, more, f, i, k) <==>
              IsSentBy(edges, u, branches, f, i, k) || (i == n && b.items != [] && Sends(edges, u, b, f, k))
    {
    }
    if i: nat, k: nat :| IsSentBy(edges, u, branches, f, i, k) {
      assert IsSentBy(edges, u, more, f, i, k);
    }
    if k: nat :| b.items != [] && Sends(edges, u, b, f, k) {
      assert IsSentBy(edges, u, more, f, n, k);
    }
  }

  /** A frame is sent on exactly when some non-empty branch and some edge that its label selects give it. */
  lemma {:induction false} EmitAllIsExact(edges: seq<Edge>, u: string, branches: seq<Bucket>, f: Frame)
    ensures f in EmitAll(edges, u, branches) <==> exists i: nat, k: nat :: IsSentBy(edges, u, branches, f, i, k)
  {
    hide Sends, Emit;
    if branches != [] {
      var init, last := branches[..|branches| - 1], branches[|branches| - 1];
      hide IsSentBy, EmitAll;
      EmitAllIsExact(edges, u, init, f);
      EmitIsExact(edges, u, last, f);
      EmitAllOneMore(edges, u, init, last);
      SentByOneMore(edges, u, init, last, f);
      assert branches == init + [last];
      assert IsSentBySome(edges, u, branches, f) <==> f in EmitAll(edges, u, branches);
    }
  }

  /**
   * The edges out of `u` that the branch takes: all without a label or with the empty one,
   * else those that carry it.
   */
  function TakenBy(u: string, b: Bucket): Edge -> bool {
    (e: Edge) => e.from == u && (b.edgeLabel in {None, Some("")} || e.caseLabel == b.edgeLabel)
  }

  /** A branch sends its items along the edges it takes, in the order of the edges. */
  lemma {:induction false} EmitInOrder(edges: seq<Edge>, u: string, b: Bucket) returns (taken: seq<Edge>)
    ensures IsFilterOf(taken, edges, TakenBy(u, b))
    ensures |Emit(edges, u, b)| == |taken|
    ensures forall i :: 0 <= i < |taken| ==> Emit(edges, u, b)[i] == Frame(taken[i].to, b.items)
  {
    hide IsFilterOf;
    if edges == [] {
      NothingToFilter(TakenBy(u, b));
      taken := [];
    } else {
      var earlier, e := edges[..|edges| - 1], edges[|edges| - 1];
      taken := EmitInOrder(earlier, u, b);
      FilterOneMore(taken, earlier, TakenBy(u, b), e);
      assert edges == earlier + [e];
      taken := taken + (if TakenBy(u, b)(e) then [e] else []);
    }
  }

  /** Branch after branch. */
  lemma {:induction false} BranchAfterBranch(edges: seq<Edge>, u: string, branches: seq<Bucket>, more: seq<Bucket>)
    ensures EmitAll(edges, u, branches + more) == EmitAll(edges, u, branches) + EmitAll(edges, u, more)
  {
    hide Emit, EmitAll;
    if more == [] {
      assert branches + more == branches;
      EmitAllOfNone(edges, u);
    } else {
      var init, last := more[..|more| - 1], more[|more| - 1];
      BranchAfterBranch(edges, u, branches, init);
      EmitAllOneMore(edges, u, init, last);
      EmitAllOneMore(edges, u, branches + init, last);
      assert more == init + [last] && branches + more == (branches + init) + [last];
    }
  }

  lemma EmitAllOfNone(edges: seq<Edge>, u: string)
    ensures EmitAll(edges, u, []) == []
  {
  }

  lemma EmitAllOneMore(edges: seq<Edge>, u: string, branches: seq<Bucket>, b: Bucket)
    ensures EmitAll(edges, u, branches + [b])
            == EmitAll(edges, u, branches) + if b.items == [] then [] else Emit(edges, u, b)
  {
    hide Emit;
    assert (branches + [b])[..|branches|] == branches;
  }

  /** An empty branch sends nothing. */
  lemma OneBranch(edges: seq<Edge>, u: string, b: Bucket)
    ensures EmitAll(edges, u, [b]) == if b.items == [] then [] else Emit(edges, u, b)
  {
    hide Emit;
    assert [b][..0] == [];
  }

  /** How many edges out of `u` the branch selects. */
  function Selected(edges: seq<Edge>, u: string, b: Bucket): nat {
    if edges == [] then 0
    else Selected(edges[1..], u, b) + if edges[0].from == u && Selects(b.edgeLabel, edges[0]) then 1 else 0
  }

  lemma {:induction false} EmitAppends(edges: seq<Edge>, more: seq<Edge>, u: string, b: Bucket)
    ensures Emit(edges + more, u, b) == Emit(edges, u, b) + Emit(more, u, b)
  {
    if more == [] {
      assert edges + more == edges;
    } else {
      EmitAppends(edges, more[..|more| - 1], u, b);
      assert (edges + more)[..|edges + more| - 1] == edges + more[..|more| - 1];
    }
  }

  /** One frame for each selected edge. */
  lemma {:induction false} EmitCounts(edges: seq<Edge>, u: string, b: Bucket)
    ensures |Emit(edges, u, b)| == Selected(edges, u, b)
  {
    if edges != [] {
      EmitCounts(edges[1..], u, b);
      EmitAppends([edges[0]], edges[1..], u, b);
      assert edges == [edges[0]] + edges[1..];
      assert [edges[0]][..0] == [];
    }
  }
}
