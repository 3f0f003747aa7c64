/**
 * What a run means. On an acyclic graph a frame has a recursive meaning, its
 * unfolding; the work queue computes it, and limits only cut it short.
 */
module Unfolding {
  import opened Workflows
  import opened TopologicalOrder
  import opened Executor
  import opened NodeEffects

  lemma ChildIsStep(p: Program, f: Frame, child: Frame)
    requires child in Children(p, f)
    ensures Step(p.wf, f.nodeId, child.nodeId)
  {
    FindNodeFinds(p.wf.nodes, f.nodeId);
    EmitAllIsExact(p.wf.edges, f.nodeId, RunFrame(p, f).value.outcome.branches, child);
  }

  // ------------------------------------------------------------------ the unfolding

  ghost function Height(rank: map<string, nat>, f: Frame): nat {
    if f.nodeId in rank then rank[f.nodeId] else 0
  }

  lemma ChildIsLower(p: Program, rank: map<string, nat>, f: Frame, child: Frame)
    requires Ranks(p.wf, rank) && child in Children(p, f)
    ensures Height(rank, child) < Height(rank, f)
  {
    ChildIsStep(p, f, child);
  }

  ghost function Sum(parts: seq<multiset<Frame>>): multiset<Frame> {
    if parts == [] then multiset{} else Sum(parts[..|parts| - 1]) + parts[|parts| - 1]
  }

  /**
   * The frames run on behalf of `f`: itself, and the unfoldings of the frames it
   * sends on. A frame for an unknown node is dropped.
   */
  ghost function Unfold(p: Program, rank: map<string, nat>, f: Frame): multiset<Frame>
    requires Ranks(p.wf, rank)
    decreases Height(rank, f)
  {
    if RunFrame(p, f).None? then multiset{}
    else
      var children := Children(p, f);
      multiset{f} + Sum(seq(|children|, i requires 0 <= i < |children| =>
                          ChildIsLower(p, rank, f, children[i]);
                          Unfold(p, rank, children[i])))
  }

  ghost function UnfoldAll(p: Program, rank: map<string, nat>, fs: seq<Frame>): multiset<Frame>
    requires Ranks(p.wf, rank)
  {
    if fs == [] then multiset{} else UnfoldAll(p, rank, fs[..|fs| - 1]) + Unfold(p, rank, fs[|fs| - 1])
  }

  lemma {:induction false} SumIsUnfoldAll(p: Program, rank: map<string, nat>, fs: seq<Frame>,
                                          parts: seq<multiset<Frame>>)
    requires Ranks(p.wf, rank)
    requires |parts| == |fs| && forall i :: 0 <= i < |fs| ==> parts[i] == Unfold(p, rank, fs[i])
    ensures Sum(parts) == UnfoldAll(p, rank, fs)
  {
    if fs != [] {
      SumIsUnfoldAll(p, rank, fs[..|fs| - 1], parts[..|parts| - 1]);
    }
  }

  /** The recursion equation of the unfolding. */
  lemma UnfoldsIntoChildren(p: Program, rank: map<string, nat>, f: Frame)
    requires Ranks(p.wf, rank) && RunFrame(p, f).Some?
    ensures Unfold(p, rank, f) == multiset{f} + UnfoldAll(p, rank, Children(p, f))
  {
    var children := Children(p, f);
    var parts := seq(|children|, i requires 0 <= i < |children| =>
                       ChildIsLower(p, rank, f, children[i]);
                       Unfold(p, rank, children[i]));
    SumIsUnfoldAll(p, rank, children, parts);
  }

  lemma {:induction false} UnfoldAllAppends(p: Program, rank: map<string, nat>, fs: seq<Frame>, gs: seq<Frame>)
    requires Ranks(p.wf, rank)
    ensures UnfoldAll(p, rank, fs + gs) == UnfoldAll(p, rank, fs) + UnfoldAll(p, rank, gs)
  {
    hide Ranks, Unfold;
    if gs == [] {
      assert fs + gs == fs;
    } else {
      UnfoldAllAppends(p, rank, fs, gs[..|gs| - 1]);
      assert (fs + gs)[..|fs + gs| - 1] == fs + gs[..|gs| - 1];
    }
  }

  lemma UnfoldAllSplits(p: Program, rank: map<string, nat>, fs: seq<Frame>)
    requires Ranks(p.wf, rank) && fs != []
    ensures UnfoldAll(p, rank, fs) == Unfold(p, rank, fs[0]) + UnfoldAll(p, rank, fs[1..])
  {
    assert fs == [fs[0]] + fs[1..];
    UnfoldAllAppends(p, rank, [fs[0]], fs[1..]);
    assert [fs[0]][..0] == [];
  }

  /** The meaning of a frame does not depend on the numbering used to define it. */
  lemma {:induction false} UnfoldIsUnique(p: Program, rank: map<string, nat>, rank': map<string, nat>, f: Frame)
    requires Ranks(p.wf, rank) && Ranks(p.wf, rank')
    ensures Unfold(p, rank, f) == Unfold(p, rank', f)
    decreases Height(rank, f), 1
  {
    if RunFrame(p, f).Some? {
      UnfoldsIntoChildren(p, rank, f);
      UnfoldsIntoChildren(p, rank', f);
      forall child | child in Children(p, f) ensures Height(rank, child) < Height(rank, f) {
        ChildIsLower(p, rank, f, child);
      }
      UnfoldAllIsUnique(p, rank, rank', Children(p, f), Height(rank, f));
    }
  }

  lemma {:induction false} UnfoldAllIsUnique(p: Program, rank: map<string, nat>, rank': map<string, nat>,
                                             fs: seq<Frame>, bound: nat)
    requires Ranks(p.wf, rank) && Ranks(p.wf, rank')
    requires forall f :: f in fs ==> Height(rank, f) < bound
    ensures UnfoldAll(p, rank, fs) == UnfoldAll(p, rank', fs)
    decreases bound, 0, |fs|
  {
    if fs != [] {
      UnfoldAllIsUnique(p, rank, rank', fs[..|fs| - 1], bound);
      UnfoldIsUnique(p, rank, rank', fs[|fs| - 1]);
    }
  }

  // --------------------------------------------------------- the queue computes it

  lemma UnfoldHead(p: Program, rank: map<string, nat>, queue: seq<Frame>)
    requires Ranks(p.wf, rank) && queue != [] && RunFrame(p, queue[0]).Some?
    ensures UnfoldAll(p, rank, queue) == multiset{queue[0]} + UnfoldAll(p, rank, queue[1..] + Children(p, queue[0]))
  {
    hide Ranks, NodeSpec, Children, UnfoldAll, Unfold;
    UnfoldAllSplits(p, rank, queue);
    UnfoldsIntoChildren(p, rank, queue[0]);
    UnfoldAllAppends(p, rank, queue[1..], Children(p, queue[0]));
  }

  lemma ConserveOne(p: Program, rank: map<string, nat>, trace: seq<Frame>, queue: seq<Frame>)
    requires Ranks(p.wf, rank) && queue != [] && RunFrame(p, queue[0]).Some?
    ensures multiset(trace + [queue[0]]) + UnfoldAll(p, rank, queue[1..] + Children(p, queue[0]))
            == multiset(trace) + UnfoldAll(p, rank, queue)
  {
    hide Ranks, RunFrame, Children, UnfoldAll;
    UnfoldHead(p, rank, queue);
  }

  /** Frames run so far and frames still owed always add up to the unfolding of the root. */
  lemma {:induction false} RunConserves(p: Program, rank: map<string, nat>, s: RunState)
    requires Ranks(p.wf, rank)
    ensures var end := Run(p, s).state;
            multiset(end.trace) + UnfoldAll(p, rank, end.queue) == multiset(s.trace) + UnfoldAll(p, rank, s.queue)
    decreases StepsLeft(p, s), |s.queue|
  {
    hide Ranks, Children, NodeSpec, UnfoldAll, Unfold;
    if s.queue != [] && HaltBefore(p, s).None? {
      var f := s.queue[0];
      match RunFrame(p, f)
      case None =>
        UnfoldAllSplits(p, rank, s.queue);
        UnknownUnfoldsToNothing(p, rank, f);
        RunConserves(p, rank, Dequeue(s));
      case Some(r) =>
        ConserveOne(p, rank, s.trace, s.queue);
        if r.outcome.Done? {
          RunConserves(p, rank, Record(p, Dequeue(s), f, r));
        }
    }
  }

  lemma UnknownUnfoldsToNothing(p: Program, rank: map<string, nat>, f: Frame)
    requires Ranks(p.wf, rank) && RunFrame(p, f).None?
    ensures Unfold(p, rank, f) == multiset{}
  {
  }

  /**
   * A completed run of an acyclic workflow runs exactly the unfolding of its
   * root frame; any other run runs part of it, and its queue owes the rest.
   */
  lemma RunComputesUnfolding(p: Program, rank: map<string, nat>)
    requires Ranks(p.wf, rank) && FindTrigger(p.wf.nodes).Some?
    ensures var end, whole := Execution(p), Unfold(p, rank, Root(FindTrigger(p.wf.nodes).value));
            && multiset(end.state.trace) + UnfoldAll(p, rank, end.state.queue) == whole
            && (end.status.Completed? ==> multiset(end.state.trace) == whole)
  {
    var root := Root(FindTrigger(p.wf.nodes).value);
    RunConserves(p, rank, StartState([root]));
    assert [root][..0] == [];
    assert UnfoldAll(p, rank, [root]) == Unfold(p, rank, root);
    CompletedQueueIsEmpty(p, StartState([root]));
  }

  lemma {:induction false} CompletedQueueIsEmpty(p: Program, s: RunState)
    ensures Run(p, s).status.Completed? ==> Run(p, s).state.queue == []
    decreases StepsLeft(p, s), |s.queue|
  {
    if s.queue != [] && HaltBefore(p, s).None? {
      match RunFrame(p, s.queue[0])
      case None => CompletedQueueIsEmpty(p, Dequeue(s));
      case Some(r) =>
        if r.outcome.Done? { CompletedQueueIsEmpty(p, Record(p, Dequeue(s), s.queue[0], r)); }
    }
  }

  // ------------------------------------------------------------ limits cut it short

  /** The same work under other limits and another clock. */
  ghost predicate SameWork(p: Program, q: Program) {
    && p.wf.nodes == q.wf.nodes && p.wf.edges == q.wf.edges
    && p.effects == q.effects && p.dryRun == q.dryRun
  }

  ghost predicate SameProgress(s: RunState, t: RunState) {
    s.(nodesExecuted := 0, timeChecks := 0) == t.(nodesExecuted := 0, timeChecks := 0)
  }

  lemma {:induction false} TraceGrows(p: Program, s: RunState)
    ensures s.trace <= Run(p, s).state.trace
    decreases StepsLeft(p, s), |s.queue|
  {
    if s.queue != [] && HaltBefore(p, s).None? {
      match RunFrame(p, s.queue[0])
      case None => TraceGrows(p, Dequeue(s));
      case Some(r) =>
        if r.outcome.Done? { TraceGrows(p, Record(p, Dequeue(s), s.queue[0], r)); }
    }
  }

  lemma SameFrameSameRun(p: Program, q: Program, f: Frame)
    requires SameWork(p, q)
    ensures RunFrame(p, f) == RunFrame(q, f) && Children(p, f) == Children(q, f)
  {
  }

  /** Two runs of the same work go through the same frames until one of them stops. */
  lemma {:induction false} RunsAgree(p: Program, q: Program, s: RunState, t: RunState)
    requires SameWork(p, q) && SameProgress(s, t)
    ensures var a, b := Run(p, s), Run(q, t);
            && (a.state.trace <= b.state.trace || b.state.trace <= a.state.trace)
            && (b.status.Completed? || b.status.NodeFailed? ==> a.state.trace <= b.state.trace)
    decreases StepsLeft(p, s), |s.queue|
  {
    hide NodeSpec, Children;
    TraceGrows(p, s);
    TraceGrows(q, t);
    if s.queue != [] && HaltBefore(p, s).None? && HaltBefore(q, t).None? {
      var f := s.queue[0];
      SameFrameSameRun(p, q, f);
      match RunFrame(p, f)
      case None =>
        RunsAgree(p, q, Dequeue(s), Dequeue(t));
      case Some(r) =>
        if r.outcome.Done? {
          RunsAgree(p, q, Record(p, Dequeue(s), f, r), Record(q, Dequeue(t), f, r));
        }
    }
  }

  /**
   * Limits and the clock only cut a run short: of two runs of the same work one
   * goes through a prefix of the other's frames, and a run that came to its own
   * end is never the shorter one.
   */
  lemma LimitsOnlyTruncate(p: Program, q: Program)
    requires SameWork(p, q)
    ensures var a, b := Execution(p), Execution(q);
            && (a.state.trace <= b.state.trace || b.state.trace <= a.state.trace)
            && (b.status.Completed? || b.status.NodeFailed? ==> a.state.trace <= b.state.trace)
  {
    match FindTrigger(p.wf.nodes)
    case None =>
    case Some(trigger) =>
      RunsAgree(p, q, StartState([Root(trigger)]), StartState([Root(trigger)]));
  }
}
