/** How a branch node splits its items, and which edges each item takes. */
module Branching {
  import opened Basics
  import opened Wrappers
  import opened Workflows
  import opened Executor

  // ------------------------------------------------------------------ the first case

  ghost predicate FirstHoldsAt(fx: Effects, cases: seq<Case>, item: Item, k: nat) {
    k < |cases| && fx.holds(cases[k].condition, item) && forall j :: 0 <= j < k ==> !fx.holds(cases[j].condition, item)
  }

  ghost predicate NoCaseHolds(fx: Effects, cases: seq<Case>, item: Item) {
    forall j :: 0 <= j < |cases| ==> !fx.holds(cases[j].condition, item)
  }

  /** The label of an item is that of the first case that holds, and the default when none does. */
  lemma {:induction false} LabelIsThatOfTheFirstCase(fx: Effects, cases: seq<Case>, defaultLabel: string, item: Item)
    ensures forall k: nat :: FirstHoldsAt(fx, cases, item, k) ==>
              LabelOf(fx, cases, defaultLabel, item) == cases[k].caseLabel
    ensures NoCaseHolds(fx, cases, item) ==> LabelOf(fx, cases, defaultLabel, item) == defaultLabel
    ensures NoCaseHolds(fx, cases, item) || exists k: nat :: FirstHoldsAt(fx, cases, item, k)
  {
    if cases != [] && !fx.holds(cases[0].condition, item) {
      var rest := cases[1..];
      LabelIsThatOfTheFirstCase(fx, rest, defaultLabel, item);
      assert forall j :: 0 <= j < |rest| ==> rest[j] == cases[j + 1];
      forall k: nat | FirstHoldsAt(fx, cases, item, k)
        ensures LabelOf(fx, cases, defaultLabel, item) == cases[k].caseLabel
      {
        assert FirstHoldsAt(fx, rest, item, k - 1);
      }
      if k: nat :| FirstHoldsAt(fx, rest, item, k) {
        assert FirstHoldsAt(fx, cases, item, k + 1);
      }
    } else if cases != [] {
      assert FirstHoldsAt(fx, cases, item, 0);
    }
  }

  /** The item belongs under this label: its first case carries it, or it has no case and this is the default. */
  ghost predicate BelongsUnder(fx: Effects, cfg: NodeConfig, item: Item, name: string)
    requires cfg.Branch?
  {
    || (NoCaseHolds(fx, cfg.cases, item) && name == cfg.defaultLabel)
    || exists k: nat :: FirstHoldsAt(fx, cfg.cases, item, k) && name == cfg.cases[k].caseLabel
  }

  lemma LabelTellsWhereItBelongs(fx: Effects, cfg: NodeConfig, item: Item, name: string)
    requires cfg.Branch?
    ensures LabelOf(fx, cfg.cases, cfg.defaultLabel, item) == name <==> BelongsUnder(fx, cfg, item, name)
  {
    hide LabelOf;
    LabelIsThatOfTheFirstCase(fx, cfg.cases, cfg.defaultLabel, item);
  }

  ghost function Under(fx: Effects, cfg: NodeConfig, name: string): Item -> bool
    requires cfg.Branch?
  {
    item => BelongsUnder(fx, cfg, item, name)
  }

  lemma {:induction false} BucketIsFilter(fx: Effects, cfg: NodeConfig, items: seq<Item>, name: string)
    requires cfg.Branch?
    ensures IsFilterOf(ItemsLabelled(fx, cfg, items, name), items, Under(fx, cfg, name))
  {
    hide BelongsUnder, LabelOf, IsFilterOf;
    if items == [] {
      NothingToFilter(Under(fx, cfg, name));
    } else {
      var earlier, item := items[..|items| - 1], items[|items| - 1];
      BucketIsFilter(fx, cfg, earlier, name);
      LabelTellsWhereItBelongs(fx, cfg, item, name);
      FilterOneMore(ItemsLabelled(fx, cfg, earlier, name), earlier, Under(fx, cfg, name), item);
      assert items == earlier + [item];
    }
  }

  /** The labels at these positions are the first of their kind, and all the kinds there are. */
  ghost predicate FirstUses(fx: Effects, cfg: NodeConfig, items: seq<Item>, names: seq<string>, at: seq<nat>)
    requires cfg.Branch?
  {
    && |at| == |names|
    && (forall i, j :: 0 <= i < j < |at| ==> at[i] < at[j])
    && (forall i :: 0 <= i < |at| ==> IsFirstUse(fx, cfg, items, names[i], at[i]))
  }

  ghost predicate IsFirstUse(fx: Effects, cfg: NodeConfig, items: seq<Item>, name: string, k: nat)
    requires cfg.Branch?
  {
    && k < |items| && BelongsUnder(fx, cfg, items[k], name)
    && forall j :: 0 <= j < k ==> !BelongsUnder(fx, cfg, items[j], name)
  }

  /** The buckets come in the order in which the items first need their labels. */
  lemma {:induction false} LabelsInOrderOfFirstUse(fx: Effects, cfg: NodeConfig, items: seq<Item>)
      returns (at: seq<nat>)
    requires cfg.Branch?
    ensures FirstUses(fx, cfg, items, LabelsInUse(fx, cfg, items), at)
  {
    hide BelongsUnder, LabelOf;
    if items == [] {
      at := [];
    } else {
      var n := |items| - 1;
      var earlier := items[..n];
      var names, name := LabelsInUse(fx, cfg, earlier), LabelOf(fx, cfg.cases, cfg.defaultLabel, items[n]);
      at := LabelsInOrderOfFirstUse(fx, cfg, earlier);
      hide IsFirstUse;
      forall i | 0 <= i < |at|
        ensures IsFirstUse(fx, cfg, items, names[i], at[i])
      {
        FirstUseStays(fx, cfg, items, names[i], at[i]);
      }
      if name !in names {
        NewLabelIsFirstUse(fx, cfg, items);
        at := at + [n];
      }
    }
  }

  lemma FirstUseStays(fx: Effects, cfg: NodeConfig, items: seq<Item>, name: string, k: nat)
    requires cfg.Branch? && items != [] && IsFirstUse(fx, cfg, items[..|items| - 1], name, k)
    ensures k < |items| - 1 && IsFirstUse(fx, cfg, items, name, k)
  {
    hide BelongsUnder;
    assert forall j :: 0 <= j <= k ==> items[..|items| - 1][j] == items[j];
  }

  lemma NewLabelIsFirstUse(fx: Effects, cfg: NodeConfig, items: seq<Item>)
    requires cfg.Branch? && items != []
    requires LabelOf(fx, cfg.cases, cfg.defaultLabel, items[|items| - 1]) !in LabelsInUse(fx, cfg, items[..|items| - 1])
    ensures IsFirstUse(fx, cfg, items, LabelOf(fx, cfg.cases, cfg.defaultLabel, items[|items| - 1]), |items| - 1)
  {
    hide BelongsUnder, LabelOf, LabelsInUse;
    var n := |items| - 1;
    var name := LabelOf(fx, cfg.cases, cfg.defaultLabel, items[n]);
    LabelTellsWhereItBelongs(fx, cfg, items[n], name);
    LabelsAreThoseOfItems(fx, cfg, items[..n]);
    forall j | 0 <= j < n
      ensures !BelongsUnder(fx, cfg, items[j], name)
    {
      assert items[..n][j] in items[..n];
      LabelTellsWhereItBelongs(fx, cfg, items[j], name);
    }
  }

  function Gathered(branches: seq<Bucket>): seq<Item> {
    if branches == [] then [] else Gathered(branches[..|branches| - 1]) + branches[|branches| - 1].items
  }

  lemma {:induction false} LabelsAreThoseOfItems(fx: Effects, cfg: NodeConfig, items: seq<Item>)
    requires cfg.Branch?
    ensures var names := LabelsInUse(fx, cfg, items);
            && (forall i, j :: 0 <= i < j < |names| ==> names[i] != names[j])
            && (forall name :: name in names <==> ItemsLabelled(fx, cfg, items, name) != [])
            && (forall item :: item in items ==> LabelOf(fx, cfg.cases, cfg.defaultLabel, item) in names)
  {
    if items != [] {
      LabelsAreThoseOfItems(fx, cfg, items[..|items| - 1]);
    }
  }

  lemma {:induction false} InBucketByLabel(fx: Effects, cfg: NodeConfig, items: seq<Item>, name: string, item: Item)
    requires cfg.Branch?
    ensures item in ItemsLabelled(fx, cfg, items, name) <==>
            item in items && LabelOf(fx, cfg.cases, cfg.defaultLabel, item) == name
  {
    if items != [] {
      var earlier := items[..|items| - 1];
      InBucketByLabel(fx, cfg, earlier, name, item);
      assert items == earlier + [items[|items| - 1]];
    }
  }

  /** The buckets for the given names, in order. */
  function BucketsFor(fx: Effects, cfg: NodeConfig, items: seq<Item>, names: seq<string>): seq<Bucket>
    requires cfg.Branch?
  {
    seq(|names|, i requires 0 <= i < |names| => Bucket(ItemsLabelled(fx, cfg, items, names[i]), Some(names[i])))
  }

  lemma GatheredOneMore(fx: Effects, cfg: NodeConfig, items: seq<Item>, names: seq<string>, name: string)
    requires cfg.Branch?
    ensures Gathered(BucketsFor(fx, cfg, items, names + [name]))
            == Gathered(BucketsFor(fx, cfg, items, names)) + ItemsLabelled(fx, cfg, items, name)
  {
    var all := BucketsFor(fx, cfg, items, names + [name]);
    assert all[..|all| - 1] == BucketsFor(fx, cfg, items, names);
  }

  /** One more item lands in exactly one of the buckets that carry different names. */
  lemma {:induction false} ItemJoinsOneBucket(fx: Effects, cfg: NodeConfig, items: seq<Item>, item: Item,
                                              names: seq<string>)
    requires cfg.Branch?
    requires forall i, j :: 0 <= i < j < |names| ==> names[i] != names[j]
    ensures multiset(Gathered(BucketsFor(fx, cfg, items + [item], names)))
            == multiset(Gathered(BucketsFor(fx, cfg, items, names)))
               + (if LabelOf(fx, cfg.cases, cfg.defaultLabel, item) in names then multiset{item} else multiset{})
  {
    if names != [] {
      var fewer, name := names[..|names| - 1], names[|names| - 1];
      assert names == fewer + [name];
      assert (items + [item])[..|items|] == items;
      GatheredOneMore(fx, cfg, items, fewer, name);
      GatheredOneMore(fx, cfg, items + [item], fewer, name);
      ItemJoinsOneBucket(fx, cfg, items, item, fewer);
    }
  }

  lemma {:induction false} BucketsKeepItems(fx: Effects, cfg: NodeConfig, items: seq<Item>)
    requires cfg.Branch?
    ensures multiset(Gathered(BucketsFor(fx, cfg, items, LabelsInUse(fx, cfg, items)))) == multiset(items)
  {
    hide BucketsFor, Gathered, ItemsLabelled, LabelOf;
    if items == [] {
      NoBuckets(fx, cfg);
    } else {
      var earlier, item := items[..|items| - 1], items[|items| - 1];
      var names := LabelsInUse(fx, cfg, earlier);
      var name := LabelOf(fx, cfg.cases, cfg.defaultLabel, item);
      BucketsKeepItems(fx, cfg, earlier);
      LabelsAreThoseOfItems(fx, cfg, earlier);
      ItemJoinsOneBucket(fx, cfg, earlier, item, names);
      assert items == earlier + [item];
      if name !in names {
        GatheredOneMore(fx, cfg, items, names, name);
        NewBucketHolds(fx, cfg, earlier, item);
      }
    }
  }

  lemma NoBuckets(fx: Effects, cfg: NodeConfig)
    requires cfg.Branch?
    ensures Gathered(BucketsFor(fx, cfg, [], [])) == []
  {
  }

  lemma NewBucketHolds(fx: Effects, cfg: NodeConfig, earlier: seq<Item>, item: Item)
    requires cfg.Branch?
    requires LabelOf(fx, cfg.cases, cfg.defaultLabel, item) !in LabelsInUse(fx, cfg, earlier)
    ensures ItemsLabelled(fx, cfg, earlier + [item], LabelOf(fx, cfg.cases, cfg.defaultLabel, item)) == [item]
  {
    LabelsAreThoseOfItems(fx, cfg, earlier);
    assert (earlier + [item])[..|earlier|] == earlier;
  }

  /** A branch node loses no item and duplicates none; its buckets are non-empty and differently labelled. */
  lemma BranchSplitsItems(fx: Effects, cfg: NodeConfig, items: seq<Item>)
    requires cfg.Branch?
    ensures var branches := Buckets(fx, cfg, items);
            && multiset(Gathered(branches)) == multiset(items)
            && (forall b :: b in branches ==> b.items != [])
            && (forall i, j :: 0 <= i < j < |branches| ==> branches[i].edgeLabel != branches[j].edgeLabel)
  {
    LabelsAreThoseOfItems(fx, cfg, items);
    BucketsKeepItems(fx, cfg, items);
    assert Buckets(fx, cfg, items) == BucketsFor(fx, cfg, items, LabelsInUse(fx, cfg, items));
  }

  /**
   * Each bucket holds, in their order, exactly the items that belong under its label, and
   * the buckets come in the order of first use.
   */
  lemma BranchSplitsByFirstCase(fx: Effects, cfg: NodeConfig, items: seq<Item>) returns (at: seq<nat>)
    requires cfg.Branch?
    ensures var branches := Buckets(fx, cfg, items);
            && |at| == |branches| && (forall i, j :: 0 <= i < j < |at| ==> at[i] < at[j])
            && (forall i :: 0 <= i < |branches| ==>
                  && branches[i].edgeLabel.Some?
                  && IsFilterOf(branches[i].items, items, Under(fx, cfg, branches[i].edgeLabel.value))
                  && IsFirstUse(fx, cfg, items, branches[i].edgeLabel.value, at[i]))
  {
    hide IsFilterOf, IsFirstUse, LabelsInUse, ItemsLabelled;
    at := LabelsInOrderOfFirstUse(fx, cfg, items);
    forall name
      ensures IsFilterOf(ItemsLabelled(fx, cfg, items, name), items, Under(fx, cfg, name))
    {
      BucketIsFilter(fx, cfg, items, name);
    }
  }

  /** The item is among those sent along `e`. */
  ghost predicate GoesAlong(fx: Effects, cfg: NodeConfig, items: seq<Item>, e: Edge, item: Item)
    requires cfg.Branch?
  {
    exists b :: b in Buckets(fx, cfg, items) && Selects(b.edgeLabel, e) && item in b.items
  }

  /**
   * An item whose first case is `cases[k]` takes exactly the edges that carry the label
   * of that case; one without a case those that carry the default label, and all edges
   * when that is empty.
   */
  lemma RoutedByLabel(fx: Effects, cfg: NodeConfig, items: seq<Item>, item: Item, e: Edge)
    requires cfg.Branch? && item in items
    requires forall c :: c in cfg.cases ==> c.caseLabel != ""
    ensures forall k: nat :: FirstHoldsAt(fx, cfg.cases, item, k) ==>
              (GoesAlong(fx, cfg, items, e, item) <==> e.caseLabel == Some(cfg.cases[k].caseLabel))
    ensures NoCaseHolds(fx, cfg.cases, item) ==>
              (GoesAlong(fx, cfg, items, e, item) <==> cfg.defaultLabel == "" || e.caseLabel == Some(cfg.defaultLabel))
  {
    hide GoesAlong, LabelOf;
    LabelIsThatOfTheFirstCase(fx, cfg.cases, cfg.defaultLabel, item);
    GoesWhereSelected(fx, cfg, items, e, item);
    forall k: nat | FirstHoldsAt(fx, cfg.cases, item, k)
      ensures cfg.cases[k].caseLabel != ""
    {
      assert cfg.cases[k] in cfg.cases;
    }
  }

  /** So an item takes every edge, labelled or not, exactly when it has no case and the default label is empty. */
  lemma UnmatchedGoesEverywhere(fx: Effects, cfg: NodeConfig, items: seq<Item>, item: Item)
    requires cfg.Branch? && item in items
    requires forall c :: c in cfg.cases ==> c.caseLabel != ""
    ensures (forall e: Edge :: GoesAlong(fx, cfg, items, e, item))
            <==> NoCaseHolds(fx, cfg.cases, item) && cfg.defaultLabel == ""
  {
    hide GoesAlong;
    var unlabelled := Edge("e", "b", "s", None);
    RoutedByLabel(fx, cfg, items, item, unlabelled);
    LabelIsThatOfTheFirstCase(fx, cfg.cases, cfg.defaultLabel, item);
    forall e: Edge | NoCaseHolds(fx, cfg.cases, item) && cfg.defaultLabel == ""
      ensures GoesAlong(fx, cfg, items, e, item)
    {
      RoutedByLabel(fx, cfg, items, item, e);
    }
  }

  lemma GoesWhereSelected(fx: Effects, cfg: NodeConfig, items: seq<Item>, e: Edge, item: Item)
    requires cfg.Branch? && item in items
    ensures GoesAlong(fx, cfg, items, e, item) <==> Selects(Some(LabelOf(fx, cfg.cases, cfg.defaultLabel, item)), e)
  {
    var name := LabelOf(fx, cfg.cases, cfg.defaultLabel, item);
    var names := LabelsInUse(fx, cfg, items);
    LabelsAreThoseOfItems(fx, cfg, items);
    forall n ensures item in ItemsLabelled(fx, cfg, items, n) <==> n == name {
      InBucketByLabel(fx, cfg, items, n, item);
    }
    var i :| 0 <= i < |names| && names[i] == name;
    assert Buckets(fx, cfg, items)[i] == Bucket(ItemsLabelled(fx, cfg, items, name), Some(name));
  }
}
