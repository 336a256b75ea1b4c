/** When the rerouted control flow of the delegate is right: exactly under one outcome. */
module Rerouting {
  import opened Graphs
  import opened Ir
  import opened Gates
  import opened Dependences
  import opened Attractors
  import opened Slices
  import opened Arrivals
  import opened Delegates
  import opened SliceFacts

  // ---- the two notions ----

  /** The target `a` of a sliced branch meets one slice block first, and meets it on every path if it
      can meet one at all. */
  ghost predicate OneOutcomeFrom(g: Graph, exit: BlockRef, bbs: set<BlockRef>, a: BlockRef) {
    OneArrival(g, bbs, a) && ((exists y :: Arrives(g, bbs, a, y)) ==> AlwaysArrives(g, exit, bbs, a))
  }

  /** The control flow a slice leaves out has one outcome at `b`: from every target of its terminator
      if that is sliced, and on leaving `b` if it is not. */
  ghost predicate OneOutcomeAt(f: Function, exit: BlockRef, s: Slice, b: BlockRef)
    requires b in f.blocks
  {
    if s.Ends(b) then forall a | a in f.blocks[b].Succs() :: OneOutcomeFrom(GraphOf(f), exit, s.blocks, a)
    else OneLeaving(GraphOf(f), s.blocks, b)
  }

  /** One outcome at the entry and at every slice block but the criterion's. */
  ghost predicate OneOutcome(f: Function, exit: BlockRef, s: Slice)
    requires Shaped(f) && s.blocks <= f.blocks.Keys
  {
    OneArrival(GraphOf(f), s.blocks, f.order[0]) && OneOutcomeInside(f, exit, s)
  }

  ghost predicate OneOutcomeInside(f: Function, exit: BlockRef, s: Slice)
    requires s.blocks <= f.blocks.Keys
  {
    forall b | b in s.blocks && b != s.Home() :: OneOutcomeAt(f, exit, s, b)
  }

  /** The fallback of `rerouteBranches` covers branches only: a switch that is not sliced needs a
      slice block to dominate. */
  ghost predicate SwitchCovered(f: Function, s: Slice, b: BlockRef)
    requires b in f.blocks && f.blocks[b].term.Some? && |f.order| > 0
  {
    s.Ends(b) || !f.blocks[b].term.value.Switch? || DominatesOn(f, s, b)
  }

  ghost predicate SwitchesCovered(f: Function, s: Slice)
    requires Shaped(f) && s.blocks <= f.blocks.Keys
  {
    forall b | b in s.blocks && b != s.Home() :: SwitchCovered(f, s, b)
  }

  /** A run enters the slice in a block it will not come back to. */
  ghost predicate EntersOnce(f: Function, s: Slice)
    requires |f.order| > 0
  {
    exists x :: Arrives(GraphOf(f), s.blocks, f.order[0], x) && !OnCycle(GraphOf(f), x)
  }

  /** `r` is where a path through `a` next enters the slice, whichever path it is. */
  ghost predicate FaithfulTarget(g: Graph, bbs: set<BlockRef>, a: BlockRef, r: BlockRef) {
    forall y | Arrives(g, bbs, a, y) :: r == CloneOf(y)
  }

  /** `t`, the terminator of the clone of `b`, follows every path of the original: for each way out
      of `b` it leads to the clone of the slice block met first. */
  ghost predicate FaithfulAt(f: Function, s: Slice, b: BlockRef, t: Option<Term>)
    requires b in f.blocks
  {
    var g, succs := GraphOf(f), f.blocks[b].Succs();
    if s.Ends(b) then
      && t.Some? && |t.value.Succs()| == |succs|
      && forall i | 0 <= i < |succs| :: FaithfulTarget(g, s.blocks, succs[i], t.value.Succs()[i])
    else forall y | Leaves(g, s.blocks, b, y) :: t == Some(Br(CloneOf(y)))
  }

  /** The delegate follows every path of the original function up to the criterion. */
  ghost predicate Faithful(f: Function, s: Slice, d: Function)
    requires Shaped(f) && s.blocks <= f.blocks.Keys && |d.order| > 0
  {
    FaithfulTarget(GraphOf(f), s.blocks, f.order[0], d.order[0]) && FaithfulInside(f, s, d)
  }

  ghost predicate FaithfulInside(f: Function, s: Slice, d: Function)
    requires s.blocks <= f.blocks.Keys
  {
    forall b | b in s.blocks && b != s.Home() ::
      CloneOf(b) in d.blocks && FaithfulAt(f, s, b, d.blocks[CloneOf(b)].term)
  }

  // ---- a sliced terminator ----

  /** What the argument needs of a slice, as a fact about graphs. */
  ghost predicate SliceGraph(g: Graph, entry: BlockRef, exit: BlockRef, bbs: set<BlockRef>, m: map<BlockRef, BlockRef>) {
    && Rooted(g, entry) && Rooted(Flip(g), exit)
    && (forall b | b in g.nodes :: b.Orig?) && bbs <= g.nodes
    && AttractorMap(g, exit, bbs, m)
  }

  lemma StandingGraph(f: Function, exit: BlockRef, preds: map<BlockRef, seq<Edge>>, s: Slice)
    requires Standing(f, exit, preds, s)
    ensures Shaped(f) && SliceGraph(GraphOf(f), f.order[0], exit, s.blocks, s.attractors)
  {
    hide Rooted, AttractorMap, ValidPreds, GatesOf, Least, BlocksOf, DefsDominateUses;
  }

  /** One target is right on every path exactly under one outcome. */
  lemma TargetExact(g: Graph, entry: BlockRef, exit: BlockRef, bbs: set<BlockRef>, m: map<BlockRef, BlockRef>, a: BlockRef)
    requires SliceGraph(g, entry, exit, bbs, m) && a in g.nodes
    ensures FaithfulTarget(g, bbs, a, TargetOf(m, a)) <==> OneOutcomeFrom(g, exit, bbs, a)
  {
    hide *;
    hide Arrives;
    SliceGraphParts(g, entry, exit, bbs, m);
    TargetRight(g, exit, bbs, m, a);
    AttractorIsOriginal(g, entry, exit, bbs, m, a);
    forall y | Arrives(g, bbs, a, y)
      ensures TargetOf(m, a) == CloneOf(y) <==> a in m && m[a] == y
    {
      ArrivesInSlice(g, bbs, a, y);
      TargetMeans(m, a, y);
    }
    FaithfulTargetIs(g, bbs, a, TargetOf(m, a));
    OneOutcomeFromIs(g, exit, bbs, a);
  }

  lemma SliceGraphParts(g: Graph, entry: BlockRef, exit: BlockRef, bbs: set<BlockRef>, m: map<BlockRef, BlockRef>)
    requires SliceGraph(g, entry, exit, bbs, m)
    ensures Rooted(Flip(g), exit) && AttractorMap(g, exit, bbs, m) && forall b | b in bbs :: b.Orig?
  {
    hide Rooted, AttractorMap;
  }

  lemma TargetMeans(m: map<BlockRef, BlockRef>, a: BlockRef, y: BlockRef)
    requires y.Orig? && (a in m ==> m[a].Orig?)
    ensures TargetOf(m, a) == CloneOf(y) <==> a in m && m[a] == y
  {
  }

  lemma FaithfulTargetIs(g: Graph, bbs: set<BlockRef>, a: BlockRef, r: BlockRef)
    ensures FaithfulTarget(g, bbs, a, r) <==> forall y | Arrives(g, bbs, a, y) :: r == CloneOf(y)
  {
    hide Arrives;
  }

  lemma OneOutcomeFromIs(g: Graph, exit: BlockRef, bbs: set<BlockRef>, a: BlockRef)
    ensures OneOutcomeFrom(g, exit, bbs, a) <==>
      OneArrival(g, bbs, a) && ((exists y :: Arrives(g, bbs, a, y)) ==> AlwaysArrives(g, exit, bbs, a))
  {
    hide Arrives, AlwaysArrives, OneArrival;
  }

  lemma AttractorIsOriginal(g: Graph, entry: BlockRef, exit: BlockRef, bbs: set<BlockRef>,
                            m: map<BlockRef, BlockRef>, a: BlockRef)
    requires SliceGraph(g, entry, exit, bbs, m) && a in g.nodes
    ensures a in m ==> m[a].Orig?
  {
    assert AttractorAt(g, exit, bbs, m, a);
    hide Rooted, AttractorMap, SomePostDominator;
  }

  lemma SlicedTermExact(f: Function, exit: BlockRef, s: Slice, b: BlockRef, t: Option<Term>)
    requires Shaped(f) && SliceGraph(GraphOf(f), f.order[0], exit, s.blocks, s.attractors)
    requires b in f.blocks && s.Ends(b) && Rerouted(f, s, b, t)
    ensures FaithfulAt(f, s, b, t) <==> OneOutcomeAt(f, exit, s, b)
  {
    hide SliceGraph, FaithfulTarget, OneOutcomeFrom, TargetOf;
    var g, succs := GraphOf(f), f.blocks[b].Succs();
    forall i | 0 <= i < |succs|
      ensures FaithfulTarget(g, s.blocks, succs[i], t.value.Succs()[i]) <==> OneOutcomeFrom(g, exit, s.blocks, succs[i])
    {
      assert succs[i] in f.blocks;
      TargetExact(g, f.order[0], exit, s.blocks, s.attractors, succs[i]);
    }
    if FaithfulAt(f, s, b, t) {
      forall x | x in succs
        ensures OneOutcomeFrom(g, exit, s.blocks, x)
      {
        var i :| 0 <= i < |succs| && succs[i] == x;
      }
    }
  }

  // ---- a terminator that is not sliced ----

  /** Under one outcome every attractor the fallback could pick is the slice block met first. */
  lemma FallbackIsFirst(g: Graph, entry: BlockRef, exit: BlockRef, bbs: set<BlockRef>, m: map<BlockRef, BlockRef>,
                        b: BlockRef, a: BlockRef, y: BlockRef)
    requires SliceGraph(g, entry, exit, bbs, m) && (b, a) in g.edges && a in m
    requires OneLeaving(g, bbs, b) && Leaves(g, bbs, b, y)
    ensures m[a] == y
  {
    assert AttractorAt(g, exit, bbs, m, a);
    FlipReaches(g, a, exit);
    var p :| PathFromTo(g, p, a, exit);
    assert m[a] in p;
    var z, _ := PathArrives(g, bbs, p, a, exit);
    hide Rooted, AttractorMap, PostDominates;
    assert Leaves(g, bbs, b, z);
    assert OneArrival(g, bbs, a) by {
      forall u, v | Arrives(g, bbs, a, u) && Arrives(g, bbs, a, v)
        ensures u == v
      {
        assert Leaves(g, bbs, b, u) && Leaves(g, bbs, b, v);
      }
    }
    AttractorIsFirst(g, exit, bbs, a, m[a], z);
  }

  lemma {:induction false} FallbackPicks(m: map<BlockRef, BlockRef>, bs: seq<BlockRef>)
    ensures Fallback(m, bs).None? <==> forall b | b in bs :: b !in m
    ensures Fallback(m, bs).Some? ==> exists b :: b in bs && b in m && Fallback(m, bs) == Some(Br(CloneOf(m[b])))
  {
    if bs != [] && bs[0] !in m {
      FallbackPicks(m, bs[1..]);
      assert forall b | b in bs :: b == bs[0] || b in bs[1..];
    }
  }

  /** The two sources of a terminator that was not sliced. */
  lemma UnslicedCases(f: Function, s: Slice, b: BlockRef, t: Option<Term>) returns (c: Option<BlockRef>)
    requires b in f.blocks && f.blocks[b].term.Some? && |f.order| > 0 && !s.Ends(b) && Rerouted(f, s, b, t)
    ensures c.Some? ==> c.value in s.blocks && NearestSliceDom(GraphOf(f), f.order[0], s.blocks, b, c.value)
    ensures c.Some? ==> t == Some(Br(CloneOf(c.value)))
    ensures c.None? ==> !exists c :: DomBranchOf(GraphOf(f), f.order[0], s.blocks, b, f.blocks.Keys, c)
    ensures c.None? ==> var orig := f.blocks[b].term.value;
                        t == Fallback(s.attractors, orig.BranchTargets())
  {
    hide NearestSliceDom, GraphOf;
    if exists x :: DomBranchOf(GraphOf(f), f.order[0], s.blocks, b, f.blocks.Keys, x) {
      var x :| DomBranchOf(GraphOf(f), f.order[0], s.blocks, b, f.blocks.Keys, x) && t == Some(Br(CloneOf(x)));
      c := Some(x);
    } else {
      c := None;
    }
  }

  lemma {:induction false} FallbackLeadsToFirst(g: Graph, entry: BlockRef, exit: BlockRef, bbs: set<BlockRef>,
                                                m: map<BlockRef, BlockRef>,
                             b: BlockRef, succs: seq<BlockRef>, y: BlockRef)
    requires SliceGraph(g, entry, exit, bbs, m) && (forall a | a in succs :: (b, a) in g.edges)
    requires Fallback(m, succs).Some? && OneLeaving(g, bbs, b) && Leaves(g, bbs, b, y)
    ensures Fallback(m, succs) == Some(Br(CloneOf(y)))
  {
    hide SliceGraph, OneLeaving, Leaves;
    FallbackPicks(m, succs);
    var a :| a in succs && a in m && Fallback(m, succs) == Some(Br(CloneOf(m[a])));
    FallbackIsFirst(g, entry, exit, bbs, m, b, a, y);
  }

  /** A rerouted terminator that was not sliced leads where the only outcome is. */
  lemma UnslicedLeadsToFirst(f: Function, exit: BlockRef, s: Slice, b: BlockRef, t: Option<Term>, y: BlockRef)
    requires Shaped(f) && SliceGraph(GraphOf(f), f.order[0], exit, s.blocks, s.attractors)
    requires b in f.blocks && !s.Ends(b) && Rerouted(f, s, b, t) && t.Some?
    requires OneLeaving(GraphOf(f), s.blocks, b) && Leaves(GraphOf(f), s.blocks, b, y)
    ensures t == Some(Br(CloneOf(y)))
  {
    var g, entry := GraphOf(f), f.order[0];
    assert forall a | a in f.blocks[b].Succs() :: (b, a) in g.edges;
    assert Rooted(g, entry) && s.blocks <= g.nodes;
    hide SliceGraph, OneLeaving, Leaves, Rerouted, Rooted, NearestSliceDom;
    var c := UnslicedCases(f, s, b, t);
    if c.Some? {
      NearestChildIsFirst(g, entry, s.blocks, b, c.value, y);
    } else {
      FallbackLeadsToFirst(g, entry, exit, s.blocks, s.attractors, b, f.blocks[b].term.value.BranchTargets(), y);
    }
  }

  /** A block that dominates a slice block gets a branch along the dominator tree. */
  lemma DominatesOnIsBranch(f: Function, s: Slice, b: BlockRef)
    requires Shaped(f) && Rooted(GraphOf(f), f.order[0]) && b in s.blocks && s.blocks <= f.blocks.Keys
    ensures DominatesOn(f, s, b) <==> exists c :: DomBranchOf(GraphOf(f), f.order[0], s.blocks, b, f.blocks.Keys, c)
  {
    var g, entry := GraphOf(f), f.order[0];
    if DominatesOn(f, s, b) {
      var d :| d in s.blocks && d != b && Dominates(g, entry, b, d);
      var c := HasNearestChild(g, entry, s.blocks, b, d);
      assert DomBranchOf(g, entry, s.blocks, b, f.blocks.Keys, c);
    }
  }

  /** Every block of the delegate gets a terminator, but for a switch the fallback does not cover. */
  lemma TerminatorExact(f: Function, exit: BlockRef, preds: map<BlockRef, seq<Edge>>, s: Slice, b: BlockRef, t: Option<Term>)
    requires Standing(f, exit, preds, s) && b in s.blocks && b != s.Home() && b in f.blocks
    requires |f.order| > 0 && f.blocks[b].term.Some? && Rerouted(f, s, b, t)
    ensures t.Some? <==> SwitchCovered(f, s, b)
  {
    hide *;
    if s.Ends(b) {
      SlicedHasTerminator(f, s, b, t);
    } else {
      SliceGraphOf(f, exit, preds, s);
      DominatesOnIsBranch(f, s, b);
      var c := UnslicedCases(f, s, b, t);
      SliceBlockLeadsOn(f, exit, preds, s, b);
      if c.Some? {
        ChildIsBranch(GraphOf(f), f.order[0], s.blocks, b, f.blocks.Keys, c.value);
      }
      UnslicedHasTerminator(f, exit, s, b, t);
    }
  }

  lemma SliceGraphOf(f: Function, exit: BlockRef, preds: map<BlockRef, seq<Edge>>, s: Slice)
    requires Standing(f, exit, preds, s)
    ensures Shaped(f) && |f.order| > 0 && Rooted(GraphOf(f), f.order[0]) && s.blocks <= f.blocks.Keys
    ensures AttractorMap(GraphOf(f), exit, s.blocks, s.attractors) && GraphOf(f).nodes == f.blocks.Keys
  {
    StandingGraph(f, exit, preds, s);
    hide Standing, Rooted, AttractorMap;
  }

  lemma SlicedHasTerminator(f: Function, s: Slice, b: BlockRef, t: Option<Term>)
    requires b in f.blocks && |f.order| > 0 && f.blocks[b].term.Some? && Rerouted(f, s, b, t) && s.Ends(b)
    ensures t.Some? && SwitchCovered(f, s, b)
  {
    hide DominatesOn;
  }

  lemma ChildIsBranch(g: Graph, entry: BlockRef, bbs: set<BlockRef>, b: BlockRef, done: set<BlockRef>, c: BlockRef)
    requires c in bbs && bbs <= done && NearestSliceDom(g, entry, bbs, b, c)
    ensures exists x :: DomBranchOf(g, entry, bbs, b, done, x)
  {
    hide NearestSliceDom;
    assert DomBranchOf(g, entry, bbs, b, done, c);
  }

  lemma UnslicedHasTerminator(f: Function, exit: BlockRef, s: Slice, b: BlockRef, t: Option<Term>)
    requires b in f.blocks && |f.order| > 0 && f.blocks[b].term.Some? && s.blocks <= f.blocks.Keys && !s.Ends(b)
    requires AttractorMap(GraphOf(f), exit, s.blocks, s.attractors)
    requires DominatesOn(f, s, b) || StepsOn(f, s, b)
    requires DominatesOn(f, s, b) ==> t.Some?
    requires !DominatesOn(f, s, b) ==>
      var orig := f.blocks[b].term.value; t == Fallback(s.attractors, orig.BranchTargets())
    ensures t.Some? <==> SwitchCovered(f, s, b)
  {
    hide AttractorMap, DominatesOn, StepsOn, GraphOf, Fallback;
    if !DominatesOn(f, s, b) {
      StepsOnHasFallback(f, exit, s, b);
      StepsOnBranches(f, s, b);
    }
  }

  lemma StepsOnBranches(f: Function, s: Slice, b: BlockRef)
    requires b in f.blocks && f.blocks[b].term.Some? && StepsOn(f, s, b)
    ensures f.blocks[b].term.value.Br? || f.blocks[b].term.value.CondBr? || f.blocks[b].term.value.Switch?
  {
  }

  lemma StepsOnHasFallback(f: Function, exit: BlockRef, s: Slice, b: BlockRef)
    requires b in f.blocks && StepsOn(f, s, b) && s.blocks <= f.blocks.Keys && f.blocks[b].term.Some?
    requires AttractorMap(GraphOf(f), exit, s.blocks, s.attractors)
    ensures Fallback(s.attractors, f.blocks[b].term.value.BranchTargets()).Some? <==> !f.blocks[b].term.value.Switch?
  {
    var x :| x in f.blocks[b].Succs() && x in s.blocks;
    assert GraphOf(f).nodes == f.blocks.Keys;
    hide AttractorMap, GraphOf, Fallback;
    InSliceHasAttractor(GraphOf(f), exit, s.blocks, s.attractors, x);
    FallbackPicks(s.attractors, f.blocks[b].term.value.BranchTargets());
  }

  lemma InSliceHasAttractor(g: Graph, exit: BlockRef, bbs: set<BlockRef>, m: map<BlockRef, BlockRef>, x: BlockRef)
    requires AttractorMap(g, exit, bbs, m) && x in bbs && bbs <= g.nodes
    ensures x in m
  {
    assert AttractorAt(g, exit, bbs, m, x);
  }

  // ---- one block of the delegate ----

  /** From a slice block other than the criterion's a slice block is met. */
  lemma SomethingAhead(f: Function, exit: BlockRef, preds: map<BlockRef, seq<Edge>>, s: Slice,
                       b: BlockRef) returns (y: BlockRef)
    requires Standing(f, exit, preds, s) && b in s.blocks && b != s.Home()
    ensures Leaves(GraphOf(f), s.blocks, b, y)
  {
    hide Standing;
    var g := GraphOf(f);
    SliceBlockReachesHome(f, exit, preds, s, b);
    HomeInSlice(f, exit, preds, s);
    var p :| PathFromTo(g, p, b, s.Home());
    SplitAt(g, p, b, s.Home(), 1);
    assert s.Home() in p[1..];
    var z, _ := PathArrives(g, s.blocks, p[1..], p[1], s.Home());
    y := z;
    assert (p[0], p[1]) in g.edges;
  }

  lemma HomeInSlice(f: Function, exit: BlockRef, preds: map<BlockRef, seq<Edge>>, s: Slice)
    requires Standing(f, exit, preds, s)
    ensures s.Home() in s.blocks && s.Home() in f.blocks
  {
    hide GatesOf, ValidPreds, Rooted, AttractorMap, DefsDominateUses, GoodBlock;
    assert Brings(f, Res(s.crit), s.Home());
  }

  lemma UnslicedExact(f: Function, exit: BlockRef, preds: map<BlockRef, seq<Edge>>, s: Slice, b: BlockRef, t: Option<Term>)
    requires Standing(f, exit, preds, s) && b in s.blocks && b != s.Home() && b in f.blocks && !s.Ends(b)
    requires |f.order| > 0 && f.blocks[b].term.Some? && Rerouted(f, s, b, t)
    ensures FaithfulAt(f, s, b, t) <==> OneOutcomeAt(f, exit, s, b) && SwitchCovered(f, s, b)
  {
    var g := GraphOf(f);
    hide Standing, Rerouted, SwitchCovered, Leaves, Arrives;
    StandingGraph(f, exit, preds, s);
    TerminatorExact(f, exit, preds, s, b, t);
    if FaithfulAt(f, s, b, t) {
      var y := SomethingAhead(f, exit, preds, s, b);
      assert t.Some?;
      forall u, v | Leaves(g, s.blocks, b, u) && Leaves(g, s.blocks, b, v)
        ensures u == v
      {
        LeavesIntoSlice(g, s.blocks, b, u);
        LeavesIntoSlice(g, s.blocks, b, v);
      }
    } else if OneOutcomeAt(f, exit, s, b) && t.Some? {
      hide SliceGraph, Shaped, OneLeaving;
      forall y | Leaves(g, s.blocks, b, y)
        ensures t == Some(Br(CloneOf(y)))
      {
        UnslicedLeadsToFirst(f, exit, s, b, t, y);
      }
    }
  }

  lemma LeavesIntoSlice(g: Graph, bbs: set<BlockRef>, b: BlockRef, y: BlockRef)
    requires Leaves(g, bbs, b, y)
    ensures y in bbs
  {
  }

  /** The clone of one slice block follows every path exactly under one outcome. */
  lemma BlockExact(f: Function, exit: BlockRef, preds: map<BlockRef, seq<Edge>>, s: Slice, b: BlockRef, t: Option<Term>)
    requires Standing(f, exit, preds, s) && b in s.blocks && b != s.Home() && b in f.blocks
    requires |f.order| > 0 && f.blocks[b].term.Some? && Rerouted(f, s, b, t)
    ensures FaithfulAt(f, s, b, t) <==> OneOutcomeAt(f, exit, s, b) && SwitchCovered(f, s, b)
  {
    hide Standing, Rerouted, FaithfulAt, OneOutcomeAt, DominatesOn;
    if s.Ends(b) {
      StandingGraph(f, exit, preds, s);
      hide Shaped, SliceGraph;
      SlicedTermExact(f, exit, s, b, t);
    } else {
      UnslicedExact(f, exit, preds, s, b, t);
    }
  }

  lemma FaithfulWhenLoaded(f: Function, s: Slice, args: seq<nat>, base: nat, b: BlockRef, blk: Block)
    requires b in f.blocks
    ensures FaithfulAt(f, s, b, LoadBlock(blk, args, base).term) <==> FaithfulAt(f, s, b, blk.term)
  {
    hide Leaves, FaithfulTarget, LoadPhis, LoadBody;
  }

  /** The terminator a clone was given. */
  lemma CloneForm(f: Function, s: Slice, args: seq<nat>, base: nat, b: BlockRef, blk: Block) returns (t: Option<Term>)
    requires b in f.blocks && |f.order| > 0 && f.blocks[b].term.Some? && CloneIs(f, s, args, base, b, blk)
    ensures blk == LoadBlock(ClonedBlock(f, s, b).(term := t), args, base) && (t.None? <==> blk.term.None?)
    ensures if b == s.Home() then t == Some(Ret(Res(s.crit))) && blk.term == t else Rerouted(f, s, b, t)
    ensures t.Some? ==> blk.Succs() == t.value.Succs()
  {
    hide Rerouted, ClonedBlock, LoadPhis, LoadBody;
    t :| FinalTerm(f, s, b, t) && blk == LoadBlock(ClonedBlock(f, s, b).(term := t), args, base);
  }

  lemma CloneIsBuilt(f: Function, s: Slice, args: seq<nat>, base: nat, bs: map<BlockRef, Block>, b: BlockRef)
    requires Shaped(f) && s.blocks <= f.blocks.Keys && IsBuilt(f, s, args, base, bs) && b in s.blocks
    ensures b in f.blocks && f.blocks[b].term.Some? && |f.order| > 0
    ensures CloneOf(b) in bs && CloneIs(f, s, args, base, b, bs[CloneOf(b)])
  {
    hide CloneIs, SomeDeadTarget;
    assert CloneOf(b) in bs.Keys;
  }

  lemma CloneExact(f: Function, exit: BlockRef, preds: map<BlockRef, seq<Edge>>, s: Slice,
                   args: seq<nat>, base: nat, bs: map<BlockRef, Block>, b: BlockRef)
    requires Standing(f, exit, preds, s) && Shaped(f) && s.blocks <= f.blocks.Keys && IsBuilt(f, s, args, base, bs)
    requires b in s.blocks && b != s.Home()
    ensures CloneOf(b) in bs
    ensures FaithfulAt(f, s, b, bs[CloneOf(b)].term) <==> OneOutcomeAt(f, exit, s, b) && SwitchCovered(f, s, b)
  {
    hide Standing, Rerouted, FaithfulAt, OneOutcomeAt, SwitchCovered, NoPredecessors, SomeDeadTarget,
         LoadBlock, ClonedBlock;
    assert CloneIs(f, s, args, base, b, bs[CloneOf(b)]);
    var t := CloneForm(f, s, args, base, b, bs[CloneOf(b)]);
    BlockExact(f, exit, preds, s, b, t);
    FaithfulWhenLoaded(f, s, args, base, b, ClonedBlock(f, s, b).(term := t));
  }

  // ---- the entry ----

  /** The block the delegate starts in. */
  lemma EntryBlock(f: Function, s: Slice, args: seq<nat>, base: nat, d: Function) returns (y: BlockRef)
    requires Shaped(f) && s.blocks <= f.blocks.Keys && IsDelegate(f, s, args, base, d)
    ensures IsBuilt(f, s, args, base, d.blocks)
    ensures |d.order| > 0 && d.order[0] in d.blocks && NoPredecessors(d.blocks, d.order[0])
    ensures d.order[0] == Dead || (y in s.blocks && d.order[0] == CloneOf(y))
  {
    hide NoPredecessors, CloneIs, SomeDeadTarget, Shaped;
    y := Dead;
    assert d.order[0] in d.order;
    assert d.order[0] in d.blocks.Keys;
    if d.order[0] != Dead {
      assert d.order[0] in set b | b in s.blocks :: CloneOf(b);
      y :| y in s.blocks && d.order[0] == CloneOf(y);
    }
  }

  lemma DeadTarget(f: Function, s: Slice, args: seq<nat>, base: nat, bs: map<BlockRef, Block>) returns (b: BlockRef, t: Term)
    requires Shaped(f) && s.blocks <= f.blocks.Keys && IsBuilt(f, s, args, base, bs) && Dead in bs
    ensures b in s.blocks && b in f.blocks && Rerouted(f, s, b, Some(t)) && Dead in t.Succs()
    ensures CloneOf(b) in bs && CloneIs(f, s, args, base, b, bs[CloneOf(b)])
  {
    hide NoPredecessors, CloneIs, Rerouted;
    b, t :| b in s.blocks && Rerouted(f, s, b, Some(t)) && Dead in t.Succs();
  }

  lemma SlicedCloneKeepsTargets(f: Function, s: Slice, args: seq<nat>, base: nat, b: BlockRef, t: Term, blk: Block)
    requires b in f.blocks && f.blocks[b].term.Some? && |f.order| > 0 && s.Ends(b) && b != s.Home()
    requires Rerouted(f, s, b, Some(t)) && CloneIs(f, s, args, base, b, blk)
    ensures blk.Succs() == t.Succs()
  {
    hide LoadPhis, LoadBody, ClonedBlock;
  }

  /** The dead block has a predecessor when it is kept. */
  lemma DeadHasPredecessor(f: Function, exit: BlockRef, preds: map<BlockRef, seq<Edge>>, s: Slice,
                           args: seq<nat>, base: nat, bs: map<BlockRef, Block>)
    requires Standing(f, exit, preds, s) && Shaped(f) && s.blocks <= f.blocks.Keys && IsBuilt(f, s, args, base, bs)
    requires !OnCycle(GraphOf(f), s.Home()) && Dead in bs
    ensures !NoPredecessors(bs, Dead)
  {
    hide Standing, IsBuilt, Rerouted, CloneIs, OnCycle, GraphOf;
    HomeDoesNotEnd(f, exit, preds, s);
    var b, t := DeadTarget(f, s, args, base, bs);
    OnlySlicedDie(f, exit, preds, s, b, t);
    SlicedCloneKeepsTargets(f, s, args, base, b, t, bs[CloneOf(b)]);
    assert Dead in bs[CloneOf(b)].Succs();
  }

  lemma OnlySlicedDie(f: Function, exit: BlockRef, preds: map<BlockRef, seq<Edge>>, s: Slice, b: BlockRef, t: Term)
    requires Standing(f, exit, preds, s) && Shaped(f) && b in s.blocks && b in f.blocks
    requires Rerouted(f, s, b, Some(t)) && Dead in t.Succs()
    ensures s.Ends(b)
  {
    hide Standing, Rerouted, Rooted;
    if !s.Ends(b) {
      var c := UnslicedCases(f, s, b, Some(t));
      hide NearestSliceDom, GraphOf, DomBranchOf;
      if c.None? {
        FallbackPicks(s.attractors, f.blocks[b].term.value.BranchTargets());
        AttractorsAreOriginal(f, exit, preds, s);
      } else {
        SliceBlocksAreOriginal(f, exit, preds, s);
      }
    }
  }

  lemma SliceBlocksAreOriginal(f: Function, exit: BlockRef, preds: map<BlockRef, seq<Edge>>, s: Slice)
    requires Standing(f, exit, preds, s)
    ensures forall b | b in s.blocks :: b.Orig?
  {
    StandingGraph(f, exit, preds, s);
    hide Standing, Rooted, AttractorMap;
  }

  lemma AttractorsAreOriginal(f: Function, exit: BlockRef, preds: map<BlockRef, seq<Edge>>, s: Slice)
    requires Standing(f, exit, preds, s)
    ensures forall a | a in s.attractors :: s.attractors[a].Orig?
  {
    StandingGraph(f, exit, preds, s);
    hide Standing, Rooted;
    forall a | a in s.attractors
      ensures s.attractors[a].Orig?
    {
      assert AttractorAt(GraphOf(f), exit, s.blocks, s.attractors, a);
    }
  }

  /** The last slice block on a path before its end: the path then enters the slice at its end. */
  lemma LastBefore(g: Graph, bbs: set<BlockRef>, p: seq<BlockRef>, entry: BlockRef,
                   y: BlockRef) returns (b: BlockRef, a: BlockRef)
    requires PathFromTo(g, p, entry, y) && y in bbs && exists i :: 0 <= i < |p| - 1 && p[i] in bbs
    ensures b in bbs && (b, a) in g.edges && Arrives(g, bbs, a, y)
    ensures Reaches(g, a, y)
  {
    var i := LastIn(p[..|p| - 1], bbs);
    b, a := p[i], p[i + 1];
    SplitAt(g, p, entry, y, i + 1);
    var q := p[i + 1..];
    forall k | 0 <= k < |q| - 1
      ensures q[k] !in bbs
    {
      assert q[k] == p[..|p| - 1][i + 1 + k];
    }
    assert ArrivesBy(g, bbs, q, a, y);
    assert (p[i], p[i + 1]) in g.edges;
  }

  /** A faithful clone has an edge for every way into the slice. */
  lemma FaithfulEdge(f: Function, s: Slice, b: BlockRef, a: BlockRef, y: BlockRef, t: Option<Term>)
    requires b in f.blocks && FaithfulAt(f, s, b, t)
    requires a in f.blocks[b].Succs() && Arrives(GraphOf(f), s.blocks, a, y)
    ensures t.Some? && CloneOf(y) in t.value.Succs()
  {
    var g := GraphOf(f);
    if s.Ends(b) {
      var i :| 0 <= i < |f.blocks[b].Succs()| && f.blocks[b].Succs()[i] == a;
      assert FaithfulTarget(g, s.blocks, a, t.value.Succs()[i]);
    } else {
      assert (b, a) in g.edges;
      assert Leaves(g, s.blocks, b, y);
    }
  }

  /** A slice block other than the one met first from the entry is entered from a slice block. */
  lemma SecondIsEntered(g: Graph, entry: BlockRef, bbs: set<BlockRef>, x: BlockRef, y: BlockRef)
    returns (b: BlockRef, a: BlockRef)
    requires Rooted(g, entry) && OneArrival(g, bbs, entry) && Arrives(g, bbs, entry, x)
    requires y in bbs && y in g.nodes && y != x
    ensures b in bbs && (b, a) in g.edges && Arrives(g, bbs, a, y) && Reaches(g, a, y)
  {
    var p :| PathFromTo(g, p, entry, y);
    assert y in p;
    var z, i := PathArrives(g, bbs, p, entry, y);
    b, a := LastBefore(g, bbs, p, entry, y);
  }

  lemma NotFromHome(f: Function, exit: BlockRef, preds: map<BlockRef, seq<Edge>>, s: Slice, a: BlockRef, y: BlockRef)
    requires Standing(f, exit, preds, s) && !OnCycle(GraphOf(f), s.Home())
    requires y in s.blocks && Reaches(GraphOf(f), a, y)
    ensures (s.Home(), a) !in GraphOf(f).edges
  {
    var g, h := GraphOf(f), s.Home();
    hide Standing;
    if (h, a) in g.edges {
      SliceBlockReachesHome(f, exit, preds, s, y);
      ReachesTrans(g, a, y, h);
      HomeInSlice(f, exit, preds, s);
      assert PathFromTo(g, [h], h, h);
      LoopsBack(g, h, h, a);
    }
  }

  lemma OneOutcomeParts(f: Function, exit: BlockRef, s: Slice)
    requires Shaped(f) && s.blocks <= f.blocks.Keys && OneOutcome(f, exit, s) && SwitchesCovered(f, s)
    ensures OneArrival(GraphOf(f), s.blocks, f.order[0])
    ensures forall b | b in s.blocks && b != s.Home() :: OneOutcomeAt(f, exit, s, b) && SwitchCovered(f, s, b)
  {
    hide OneOutcomeAt, SwitchCovered, OneArrival;
  }

  /** Every block of the delegate but the one met first has a predecessor. */
  lemma SecondHasPredecessor(f: Function, exit: BlockRef, preds: map<BlockRef, seq<Edge>>, s: Slice,
                             args: seq<nat>, base: nat, bs: map<BlockRef, Block>, x: BlockRef, y: BlockRef)
    requires Standing(f, exit, preds, s) && Shaped(f) && s.blocks <= f.blocks.Keys && IsBuilt(f, s, args, base, bs)
    requires !OnCycle(GraphOf(f), s.Home()) && OneOutcome(f, exit, s) && SwitchesCovered(f, s)
    requires Arrives(GraphOf(f), s.blocks, f.order[0], x) && y in s.blocks && y != x
    ensures !NoPredecessors(bs, CloneOf(y))
  {
    StandingGraph(f, exit, preds, s);
    OneOutcomeParts(f, exit, s);
    hide Standing, IsBuilt, AttractorMap, Rooted, Shaped, OneOutcome, SwitchesCovered, OneArrival, OneOutcomeAt,
         SwitchCovered, Arrives, Reaches, OnCycle, FaithfulAt;
    var b, a := SecondIsEntered(GraphOf(f), f.order[0], s.blocks, x, y);
    NotFromHome(f, exit, preds, s, a, y);
    CloneExact(f, exit, preds, s, args, base, bs, b);
    FaithfulEdge(f, s, b, a, y, bs[CloneOf(b)].term);
  }

  /** The block the delegate starts in is the clone of the slice block every path meets first. */
  lemma EntryIsFirst(f: Function, exit: BlockRef, preds: map<BlockRef, seq<Edge>>, s: Slice,
                     args: seq<nat>, base: nat, d: Function, x: BlockRef)
    requires Standing(f, exit, preds, s) && Shaped(f) && s.blocks <= f.blocks.Keys && IsDelegate(f, s, args, base, d)
    requires !OnCycle(GraphOf(f), s.Home()) && OneOutcome(f, exit, s) && SwitchesCovered(f, s)
    requires Arrives(GraphOf(f), s.blocks, f.order[0], x)
    ensures |d.order| > 0 && d.order[0] == CloneOf(x)
  {
    hide *;
    var y := EntryBlock(f, s, args, base, d);
    if d.order[0] == Dead {
      DeadHasPredecessor(f, exit, preds, s, args, base, d.blocks);
    } else if y != x {
      SecondHasPredecessor(f, exit, preds, s, args, base, d.blocks, x, y);
    }
  }

  // ---- whether there is an entry ----

  lemma BuiltBlock(f: Function, s: Slice, args: seq<nat>, base: nat, bs: map<BlockRef, Block>, r: BlockRef) returns (b: BlockRef)
    requires Shaped(f) && s.blocks <= f.blocks.Keys && IsBuilt(f, s, args, base, bs) && r in bs
    ensures r == Dead ==> bs[r].Succs() == []
    ensures r != Dead ==> b in s.blocks && r == CloneOf(b) && |f.order| > 0 && b in f.blocks && f.blocks[b].term.Some?
    ensures r != Dead ==> CloneIs(f, s, args, base, b, bs[r])
  {
    hide CloneIs, SomeDeadTarget;
    b := Dead;
    assert r in bs.Keys;
    if r != Dead {
      assert r in set b | b in s.blocks :: CloneOf(b);
      b :| b in s.blocks && r == CloneOf(b);
    }
  }

  /** Only rerouted terminators lead anywhere. */
  lemma CloneLeads(f: Function, s: Slice, args: seq<nat>, base: nat, b: BlockRef, blk: Block, y: BlockRef) returns (t: Option<Term>)
    requires b in f.blocks && f.blocks[b].term.Some? && |f.order| > 0 && CloneIs(f, s, args, base, b, blk) && y in blk.Succs()
    ensures Rerouted(f, s, b, t) && t.Some? && y in t.value.Succs()
  {
    hide Rerouted, CloneIs, ClonedBlock, LoadBlock;
    t := CloneForm(f, s, args, base, b, blk);
  }

  /** An attractor lies behind the block it attracts. */
  lemma AttractorAhead(g: Graph, entry: BlockRef, exit: BlockRef, bbs: set<BlockRef>, m: map<BlockRef, BlockRef>, a: BlockRef)
    requires SliceGraph(g, entry, exit, bbs, m) && a in g.nodes && a in m
    ensures Reaches(g, a, m[a]) && m[a].Orig?
  {
    SliceGraphParts(g, entry, exit, bbs, m);
    AttractorIsOriginal(g, entry, exit, bbs, m, a);
    assert AttractorAt(g, exit, bbs, m, a);
    hide AttractorMap, SomePostDominator;
    FlipReaches(g, a, exit);
    var p :| PathFromTo(g, p, a, exit);
    var i :| 0 <= i < |p| && p[i] == m[a];
    SplitAt(g, p, a, exit, i);
  }

  /** The block met first is strictly dominated by no slice block. */
  lemma FirstIsTop(g: Graph, entry: BlockRef, bbs: set<BlockRef>, b: BlockRef, x: BlockRef)
    requires Arrives(g, bbs, entry, x) && b in bbs && Dominates(g, entry, b, x)
    ensures b == x
  {
    var q :| ArrivesBy(g, bbs, q, entry, x);
    assert b in q;
  }

  /** A clone that leads to that of the block met first shows a way on from its block to that one. */
  lemma WayToFirst(f: Function, exit: BlockRef, preds: map<BlockRef, seq<Edge>>, s: Slice, b: BlockRef, t: Option<Term>, x: BlockRef)
    returns (a: BlockRef)
    requires Standing(f, exit, preds, s) && b in s.blocks && b in f.blocks && |f.order| > 0 && f.blocks[b].term.Some?
    requires Rerouted(f, s, b, t) && t.Some? && x.Orig? && CloneOf(x) in t.value.Succs()
    requires Arrives(GraphOf(f), s.blocks, f.order[0], x)
    ensures (b, a) in GraphOf(f).edges && Reaches(GraphOf(f), a, x)
  {
    hide *;
    StandingGraph(f, exit, preds, s);
    SuccsAreBlocks(f, b);
    var m := s.attractors;
    AttractorsAreOriginal(f, exit, preds, s);
    if s.Ends(b) {
      a := SlicedTarget(f, s, b, t, x);
    } else {
      var c := UnslicedCases(f, s, b, t);
      if c.Some? {
        SliceBlocksAreOriginal(f, exit, preds, s);
        BranchIsTo(t, c.value, x);
        NearestIsStrict(GraphOf(f), f.order[0], s.blocks, b, c.value);
        FirstIsTop(GraphOf(f), f.order[0], s.blocks, b, x);
      }
      FallbackPicks(m, f.blocks[b].term.value.BranchTargets());
      a := FallbackTarget(f, m, b, x);
    }
    AttractorAhead(GraphOf(f), f.order[0], exit, s.blocks, m, a);
  }

  lemma BranchIsTo(t: Option<Term>, c: BlockRef, x: BlockRef)
    requires t == Some(Br(CloneOf(c))) && c.Orig? && x.Orig? && CloneOf(x) in t.value.Succs()
    ensures c == x
  {
  }

  lemma SlicedTarget(f: Function, s: Slice, b: BlockRef, t: Option<Term>, x: BlockRef) returns (a: BlockRef)
    requires b in f.blocks && |f.order| > 0 && f.blocks[b].term.Some? && s.Ends(b) && Rerouted(f, s, b, t)
    requires t.Some? && x.Orig? && CloneOf(x) in t.value.Succs() && forall k | k in s.attractors :: s.attractors[k].Orig?
    ensures a in f.blocks[b].Succs() && a in s.attractors && s.attractors[a] == x
  {
    hide DomBranchOf, Fallback, GraphOf;
    var succs := f.blocks[b].Succs();
    var i :| 0 <= i < |succs| && TargetsOf(s.attractors, succs)[i] == CloneOf(x);
    a := succs[i];
  }

  lemma FallbackTarget(f: Function, m: map<BlockRef, BlockRef>, b: BlockRef, x: BlockRef) returns (a: BlockRef)
    requires b in f.blocks && f.blocks[b].term.Some? && x.Orig? && forall k | k in m :: m[k].Orig?
    requires var bs := f.blocks[b].term.value.BranchTargets();
      && Fallback(m, bs).Some? && CloneOf(x) in Fallback(m, bs).value.Succs()
      && exists a :: a in bs && a in m && Fallback(m, bs) == Some(Br(CloneOf(m[a])))
    ensures a in f.blocks[b].Succs() && a in m && m[a] == x
  {
    var bs := f.blocks[b].term.value.BranchTargets();
    a :| a in bs && a in m && Fallback(m, bs) == Some(Br(CloneOf(m[a])));
    hide Fallback;
  }

  lemma NearestIsStrict(g: Graph, entry: BlockRef, bbs: set<BlockRef>, b: BlockRef, c: BlockRef)
    requires NearestSliceDom(g, entry, bbs, b, c)
    ensures b in bbs && b != c && Dominates(g, entry, b, c)
  {
    hide Dominates;
  }

  lemma SuccsAreBlocks(f: Function, b: BlockRef)
    requires Shaped(f) && b in f.blocks
    ensures forall a | a in f.blocks[b].Succs() :: a in GraphOf(f).nodes && (b, a) in GraphOf(f).edges
  {
  }

  /** With one block to meet first, every slice block lies behind it. */
  lemma FirstReaches(g: Graph, entry: BlockRef, bbs: set<BlockRef>, x: BlockRef, b: BlockRef)
    requires Rooted(g, entry) && OneArrival(g, bbs, entry) && Arrives(g, bbs, entry, x) && b in bbs && b in g.nodes
    ensures Reaches(g, x, b)
  {
    var p :| PathFromTo(g, p, entry, b);
    assert b in p;
    var z, i := PathArrives(g, bbs, p, entry, b);
    SplitAt(g, p, entry, b, i);
  }

  /** Off a cycle, nothing leads back to the block met first. */
  lemma FirstUnreached(f: Function, exit: BlockRef, preds: map<BlockRef, seq<Edge>>, s: Slice,
                       args: seq<nat>, base: nat, bs: map<BlockRef, Block>, x: BlockRef)
    requires Standing(f, exit, preds, s) && Shaped(f) && s.blocks <= f.blocks.Keys && IsBuilt(f, s, args, base, bs)
    requires OneArrival(GraphOf(f), s.blocks, f.order[0]) && Arrives(GraphOf(f), s.blocks, f.order[0], x)
    requires !OnCycle(GraphOf(f), x)
    ensures NoPredecessors(bs, CloneOf(x))
  {
    var g, entry := GraphOf(f), f.order[0];
    StandingGraph(f, exit, preds, s);
    SliceBlocksAreOriginal(f, exit, preds, s);
    ArrivesInSlice(g, s.blocks, entry, x);
    hide Standing, AttractorMap, Rooted, Shaped, OneArrival, Arrives, Reaches, OnCycle, IsBuilt, CloneIs, Rerouted;
    forall r | r in bs
      ensures CloneOf(x) !in bs[r].Succs()
    {
      if CloneOf(x) in bs[r].Succs() {
        var b := BuiltBlock(f, s, args, base, bs, r);
        var t := CloneLeads(f, s, args, base, b, bs[r], CloneOf(x));
        var a := WayToFirst(f, exit, preds, s, b, t, x);
        FirstReaches(g, entry, s.blocks, x, b);
        LoopsBack(g, x, b, a);
      }
    }
  }

  /** On a cycle, the last slice block before it comes round again leads back to it. */
  lemma FirstReached(f: Function, exit: BlockRef, preds: map<BlockRef, seq<Edge>>, s: Slice,
                     args: seq<nat>, base: nat, bs: map<BlockRef, Block>, x: BlockRef)
    requires Standing(f, exit, preds, s) && Shaped(f) && s.blocks <= f.blocks.Keys && IsBuilt(f, s, args, base, bs)
    requires !OnCycle(GraphOf(f), s.Home()) && OneOutcome(f, exit, s) && SwitchesCovered(f, s)
    requires x in s.blocks && OnCycle(GraphOf(f), x)
    ensures !NoPredecessors(bs, CloneOf(x))
  {
    var g := GraphOf(f);
    StandingGraph(f, exit, preds, s);
    OneOutcomeParts(f, exit, s);
    var p :| PathFromTo(g, p, x, x) && |p| > 1;
    assert p[0] in s.blocks;
    var b, a := LastBefore(g, s.blocks, p, x, x);
    hide Standing, IsBuilt, AttractorMap, Rooted, Shaped, OneOutcome, SwitchesCovered, OneOutcomeAt,
         SwitchCovered, Arrives, Reaches, OnCycle, FaithfulAt;
    NotFromHome(f, exit, preds, s, a, x);
    CloneExact(f, exit, preds, s, args, base, bs, b);
    FaithfulEdge(f, s, b, a, x, bs[CloneOf(b)].term);
  }

  /** When the delegate has an entry: under one outcome, exactly if the slice block met first is on no cycle.
      Otherwise a slice block leads back to it, and every clone has a predecessor. */
  lemma EntryExact(f: Function, exit: BlockRef, preds: map<BlockRef, seq<Edge>>, s: Slice,
                   args: seq<nat>, base: nat, bs: map<BlockRef, Block>)
    requires Standing(f, exit, preds, s) && Shaped(f) && s.blocks <= f.blocks.Keys && IsBuilt(f, s, args, base, bs)
    requires !OnCycle(GraphOf(f), s.Home()) && OneOutcome(f, exit, s) && SwitchesCovered(f, s)
    ensures SomeEntry(bs) <==> EntersOnce(f, s)
  {
    hide *;
    var x := SomethingFirst(f, exit, preds, s);
    OneOutcomeParts(f, exit, s);
    EntersOnceIs(f, s, x);
    ArrivesInSlice(GraphOf(f), s.blocks, f.order[0], x);
    if OnCycle(GraphOf(f), x) {
      forall r | r in bs
        ensures !NoPredecessors(bs, r)
      {
        var y := BuiltBlock(f, s, args, base, bs, r);
        if r == Dead {
          DeadHasPredecessor(f, exit, preds, s, args, base, bs);
        } else if y == x {
          FirstReached(f, exit, preds, s, args, base, bs, x);
        } else {
          SecondHasPredecessor(f, exit, preds, s, args, base, bs, x, y);
        }
      }
      NoEntry(bs);
    } else {
      CloneIsBuilt(f, s, args, base, bs, x);
      FirstUnreached(f, exit, preds, s, args, base, bs, x);
      ThenEntry(bs, CloneOf(x));
    }
  }

  lemma NoEntry(bs: map<BlockRef, Block>)
    requires forall r | r in bs :: !NoPredecessors(bs, r)
    ensures !SomeEntry(bs)
  {
    hide NoPredecessors;
  }

  lemma ThenEntry(bs: map<BlockRef, Block>, r: BlockRef)
    requires r in bs && NoPredecessors(bs, r)
    ensures SomeEntry(bs)
  {
    hide NoPredecessors;
  }

  lemma SomethingFirst(f: Function, exit: BlockRef, preds: map<BlockRef, seq<Edge>>, s: Slice) returns (x: BlockRef)
    requires Standing(f, exit, preds, s)
    ensures |f.order| > 0 && Arrives(GraphOf(f), s.blocks, f.order[0], x)
  {
    hide *;
    HomeInSlice(f, exit, preds, s);
    SliceGraphOf(f, exit, preds, s);
    x := MeetsOnTheWay(GraphOf(f), f.order[0], s.blocks, s.Home());
  }

  lemma MeetsOnTheWay(g: Graph, entry: BlockRef, bbs: set<BlockRef>, h: BlockRef) returns (x: BlockRef)
    requires Rooted(g, entry) && h in bbs && h in g.nodes
    ensures Arrives(g, bbs, entry, x)
  {
    var p :| PathFromTo(g, p, entry, h);
    assert h in p;
    var z, _ := PathArrives(g, bbs, p, entry, h);
    x := z;
  }

  lemma EntersOnceIs(f: Function, s: Slice, x: BlockRef)
    requires |f.order| > 0 && OneArrival(GraphOf(f), s.blocks, f.order[0]) && Arrives(GraphOf(f), s.blocks, f.order[0], x)
    ensures EntersOnce(f, s) <==> !OnCycle(GraphOf(f), x)
  {
    hide Arrives, OnCycle;
  }

  // ---- the theorem ----

  /** For every function in the shape the required passes establish, every criterion computed at most
      once, and every choice the outliner leaves open: the delegate follows every path of the original
      exactly under one outcome, if the fallback covers the switches that are not sliced. */
  lemma ControlFlowExact(f: Function, exit: BlockRef, preds: map<BlockRef, seq<Edge>>, s: Slice,
                         args: seq<nat>, base: nat, d: Function)
    requires Standing(f, exit, preds, s) && Shaped(f) && s.blocks <= f.blocks.Keys && IsDelegate(f, s, args, base, d)
    requires !OnCycle(GraphOf(f), s.Home()) && |d.order| > 0
    ensures Faithful(f, s, d) <==> OneOutcome(f, exit, s) && SwitchesCovered(f, s)
  {
    hide Standing, IsBuilt, NoPredecessors, FaithfulInside, OneOutcomeInside, SwitchesCovered, FaithfulTarget, OneArrival, OnCycle;
    InsideExact(f, exit, preds, s, args, base, d);
    if Faithful(f, s, d) {
      OneTargetOneArrival(f, exit, preds, s, f.order[0], d.order[0]);
    } else if OneOutcome(f, exit, s) && SwitchesCovered(f, s) {
      EntryFaithful(f, exit, preds, s, args, base, d);
    }
  }

  lemma InsideExact(f: Function, exit: BlockRef, preds: map<BlockRef, seq<Edge>>, s: Slice,
                    args: seq<nat>, base: nat, d: Function)
    requires Standing(f, exit, preds, s) && Shaped(f) && s.blocks <= f.blocks.Keys && IsDelegate(f, s, args, base, d)
    ensures FaithfulInside(f, s, d) <==> OneOutcomeInside(f, exit, s) && SwitchesCovered(f, s)
  {
    assert |f.order| > 0 && forall b | b in f.blocks :: f.blocks[b].term.Some?;
    hide Standing, IsBuilt, NoPredecessors, Shaped, OneOutcomeAt, SwitchCovered, FaithfulAt, CloneOf;
    forall b | b in s.blocks && b != s.Home()
      ensures CloneOf(b) in d.blocks
      ensures FaithfulAt(f, s, b, d.blocks[CloneOf(b)].term) <==> OneOutcomeAt(f, exit, s, b) && SwitchCovered(f, s, b)
    {
      CloneExact(f, exit, preds, s, args, base, d.blocks, b);
    }
  }

  lemma EntryFaithful(f: Function, exit: BlockRef, preds: map<BlockRef, seq<Edge>>, s: Slice,
                      args: seq<nat>, base: nat, d: Function)
    requires Standing(f, exit, preds, s) && Shaped(f) && s.blocks <= f.blocks.Keys && IsDelegate(f, s, args, base, d)
    requires !OnCycle(GraphOf(f), s.Home()) && |d.order| > 0 && OneOutcome(f, exit, s) && SwitchesCovered(f, s)
    ensures FaithfulTarget(GraphOf(f), s.blocks, f.order[0], d.order[0])
  {
    assert |f.order| > 0;
    hide Standing, IsBuilt, NoPredecessors, Shaped, OneOutcome, SwitchesCovered, Arrives, OnCycle, GraphOf;
    forall y | Arrives(GraphOf(f), s.blocks, f.order[0], y)
      ensures d.order[0] == CloneOf(y)
    {
      EntryIsFirst(f, exit, preds, s, args, base, d, y);
    }
  }

  lemma OneTargetOneArrival(f: Function, exit: BlockRef, preds: map<BlockRef, seq<Edge>>, s: Slice, a: BlockRef, r: BlockRef)
    requires Standing(f, exit, preds, s) && FaithfulTarget(GraphOf(f), s.blocks, a, r)
    ensures OneArrival(GraphOf(f), s.blocks, a)
  {
    SliceBlocksAreOriginal(f, exit, preds, s);
    hide Standing, Arrives;
    forall y, z | Arrives(GraphOf(f), s.blocks, a, y) && Arrives(GraphOf(f), s.blocks, a, z)
      ensures y == z
    {
      ArrivesInSlice(GraphOf(f), s.blocks, a, y);
      ArrivesInSlice(GraphOf(f), s.blocks, a, z);
    }
  }

  lemma ArrivesInSlice(g: Graph, bbs: set<BlockRef>, a: BlockRef, y: BlockRef)
    requires Arrives(g, bbs, a, y)
    ensures y in bbs
  {
  }

  // ---- the two rules ----

  /** The two rules that give a terminator to a block whose own is not sliced agree: under one outcome the
      block is the nearest slice dominator of at most one slice block, that is the only slice block met on
      leaving it, and any attractor of a successor is the same block. */
  lemma TwoRulesAgree(f: Function, exit: BlockRef, preds: map<BlockRef, seq<Edge>>, s: Slice,
                      b: BlockRef) returns (y: BlockRef)
    requires Standing(f, exit, preds, s) && b in s.blocks && b != s.Home() && b in f.blocks && |f.order| > 0
    requires OneLeaving(GraphOf(f), s.blocks, b)
    ensures forall z :: Leaves(GraphOf(f), s.blocks, b, z) <==> z == y
    ensures forall c | c in s.blocks && NearestSliceDom(GraphOf(f), f.order[0], s.blocks, b, c) :: c == y
    ensures forall a | a in f.blocks[b].Succs() && a in s.attractors :: s.attractors[a] == y
  {
    var g, entry := GraphOf(f), f.order[0];
    StandingGraph(f, exit, preds, s);
    y := SomethingAhead(f, exit, preds, s, b);
    assert forall z | Leaves(g, s.blocks, b, z) :: z == y;
    assert forall a | a in f.blocks[b].Succs() :: (b, a) in g.edges;
    assert Rooted(g, entry) && s.blocks <= g.nodes;
    hide Standing, Leaves, OneLeaving, NearestSliceDom, SliceGraph, GraphOf, Shaped, Rooted;
    forall c | c in s.blocks && NearestSliceDom(g, entry, s.blocks, b, c)
      ensures c == y
    {
      NearestChildIsFirst(g, entry, s.blocks, b, c, y);
    }
    forall a | a in f.blocks[b].Succs() && a in s.attractors
      ensures s.attractors[a] == y
    {
      FallbackIsFirst(g, entry, exit, s.blocks, s.attractors, b, a, y);
    }
  }
}
