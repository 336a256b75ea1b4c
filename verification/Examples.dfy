/** What the example functions have in common: showing that the passes accept them, and finding the gates and
    outcomes of their slices. */
module Examples {
  import opened Graphs
  import opened Ir
  import opened Gates
  import opened Dependences
  import opened Attractors
  import opened Slices
  import opened Arrivals
  import opened SliceFacts
  import opened Rerouting

  // ---- functions the passes accept ----

  lemma ShapedFrom(f: Function, n: nat)
    requires |f.order| == n > 0 && forall i | 0 <= i < n :: f.order[i] == Orig(i)
    requires forall b :: b in f.blocks <==> b.Orig? && b.b < n
    requires forall b | b in f.blocks :: f.blocks[b].term.Some? && forall s | s in f.blocks[b].Succs() :: s in f.blocks
    ensures Shaped(f)
  {
    forall b
      ensures b in f.order <==> b in f.blocks
    {
      if b.Orig? && b.b < n {
        assert f.order[b.b] == b;
      }
    }
  }

  lemma FlowingFrom(f: Function, exit: BlockRef)
    requires Shaped(f) && exit in f.blocks && f.blocks[exit].Succs() == []
    requires forall b | b in f.blocks :: Reaches(GraphOf(f), f.order[0], b) && Reaches(GraphOf(f), b, exit)
    ensures Flowing(f, exit)
  {
    var g := GraphOf(f);
    hide Reaches;
    forall b | b in f.blocks
      ensures Reaches(Flip(g), exit, b)
    {
      FlipReaches(g, b, exit);
    }
    assert forall e | e in Flip(g).edges :: e.0 in g.nodes && e.1 in g.nodes;
  }

  lemma WellFormedFrom(f: Function)
    requires Shaped(f) && (forall b: nat | Orig(b) in f.blocks :: GoodBlock(f, b))
    requires forall id, v | HasInst(f, id) && v in Operands(f, id) :: GoodValue(f, v)
    ensures WellFormed(f)
  {
    hide Shaped, GoodBlock, GoodValue, HasInst, Operands;
  }

  // ---- graphs ----

  /** The only predecessor of a block dominates it. */
  lemma SolePred(g: Graph, root: BlockRef, p: BlockRef, b: BlockRef)
    requires b != root && forall e | e in g.edges && e.1 == b :: e.0 == p
    ensures Dominates(g, root, p, b)
  {
    forall w | PathFromTo(g, w, root, b)
      ensures p in w
    {
      assert (w[|w| - 2], w[|w| - 1]) in g.edges;
    }
  }

  lemma DominatesItself(g: Graph, root: BlockRef, b: BlockRef)
    ensures Dominates(g, root, b, b)
  {
  }

  lemma PostDominatesItself(g: Graph, exit: BlockRef, b: BlockRef)
    ensures PostDominates(g, exit, b, b)
  {
  }

  lemma RootDominates(g: Graph, root: BlockRef, b: BlockRef)
    ensures Dominates(g, root, root, b)
  {
    forall p | PathFromTo(g, p, root, b)
      ensures root in p
    {
      assert p[0] == root;
    }
  }

  lemma NoCycleAtEnd(g: Graph, m: BlockRef)
    requires forall e | e in g.edges :: e.0 != m
    ensures !OnCycle(g, m)
  {
    forall p | PathFromTo(g, p, m, m)
      ensures |p| <= 1
    {
      if |p| > 1 {
        IsLeft(g, p);
      }
    }
  }

  lemma IsLeft(g: Graph, p: seq<BlockRef>)
    requires Path(g, p) && |p| > 1
    ensures exists e :: e in g.edges && e.0 == p[0]
  {
    assert (p[0], p[1]) in g.edges;
  }

  // ---- outcomes ----

  lemma InSliceIsFine(g: Graph, exit: BlockRef, bbs: set<BlockRef>, a: BlockRef)
    requires a in bbs && a in g.nodes
    ensures OneOutcomeFrom(g, exit, bbs, a)
  {
    ArrivesAtOnce(g, bbs, a);
    hide Arrives;
    forall p | PathFromTo(g, p, a, exit)
      ensures exists x :: x in p && x in bbs
    {
      assert p[0] in p;
    }
  }

  /** From a block whose only successor is in the slice, that one is met. */
  lemma OnlyThere(g: Graph, bbs: set<BlockRef>, a: BlockRef, y: BlockRef, z: BlockRef)
    requires a !in bbs && y in bbs && (forall e | e in g.edges && e.0 == a :: e.1 == y) && Arrives(g, bbs, a, z)
    ensures z == y
  {
    var q :| ArrivesBy(g, bbs, q, a, z);
    assert (q[0], q[1]) in g.edges;
  }

  lemma StepInIsFine(g: Graph, exit: BlockRef, bbs: set<BlockRef>, a: BlockRef, y: BlockRef)
    requires a in g.nodes && a != exit && y in bbs && forall e | e in g.edges && e.0 == a :: e.1 == y
    ensures OneOutcomeFrom(g, exit, bbs, a)
  {
    if a in bbs {
      InSliceIsFine(g, exit, bbs, a);
    } else {
      forall z | Arrives(g, bbs, a, z)
        ensures z == y
      {
        OnlyThere(g, bbs, a, y, z);
      }
      hide Arrives;
      forall p | PathFromTo(g, p, a, exit)
        ensures exists x :: x in p && x in bbs
      {
        assert (p[0], p[1]) in g.edges;
        assert p[1] in p;
      }
    }
  }

  /** A block whose only successor is in the slice has one outcome, sliced or not. */
  lemma OneWayIsFine(f: Function, exit: BlockRef, s: Slice, b: BlockRef, y: BlockRef)
    requires b in f.blocks && y in s.blocks && y in f.blocks && forall e | e in GraphOf(f).edges && e.0 == b :: e.1 == y
    ensures OneOutcomeAt(f, exit, s, b)
  {
    InSliceIsFine(GraphOf(f), exit, s.blocks, y);
    ArrivesAtOnce(GraphOf(f), s.blocks, y);
    hide Arrives, OneOutcomeFrom;
    forall a | a in f.blocks[b].Succs()
      ensures a == y
    {
      EdgeIsSucc(f, b, a);
    }
  }

  // ---- gates ----

  /** What gates a criterion that is a phi belongs to its slice. */
  lemma GateIsSliced(f: Function, exit: BlockRef, preds: map<BlockRef, seq<Edge>>, s: Slice, p: BlockRef, p': BlockRef, q: BlockRef)
    requires Standing(f, exit, preds, s) && s.crit.PhiId? && s.Home() in f.blocks && |f.order| > 0
    requires (p, s.Home()) in GraphOf(f).edges && (p', s.Home()) in GraphOf(f).edges && p != p'
    requires GatedVia(GraphOf(f), f.order[0], exit, p, s.Home(), q)
    ensures q.Orig? && s.Ends(q)
  {
    hide *;
    var b := s.Home();
    var es := SliceGates(f, exit, preds, s, b);
    var e := EdgeListed(f, es, b, p);
    var e' := EdgeListed(f, es, b, p');
    MoreThanOne(es, e, e');
    GateListed(GraphOf(f), f.order[0], exit, es, b, s.gates[b], e, q);
    GateFollowed(f, exit, preds, s, TermId(q.b));
  }

  lemma GateListed(g: Graph, entry: BlockRef, exit: BlockRef, es: seq<Edge>, b: BlockRef, gs: seq<Id>, e: Edge, q: BlockRef)
    requires BlockGates(g, entry, exit, es, b, gs) && |es| > 1 && e in es && GatedVia(g, entry, exit, e.0, b, q)
    ensures q.Orig? && TermId(q.b) in gs
  {
    hide GatedVia, Branches;
  }

  lemma GateFollowed(f: Function, exit: BlockRef, preds: map<BlockRef, seq<Edge>>, s: Slice, v: Id)
    requires Standing(f, exit, preds, s) && s.crit.PhiId? && s.Home() in s.gates && v in s.gates[s.Home()] && v.TermId?
    ensures s.Ends(Orig(v.b))
  {
    SliceIsLeast(f, exit, preds, s);
    CritReaches(f, exit, preds, s);
    hide Standing, BlocksOf, HasInst, Least, Operands, Reaches;
    assert GateFor(f, s.gates, Res(s.crit), Res(v));
    LeastHolds(f, s.gates, Res(s.crit), s.deps, Res(s.crit), Res(v));
  }

  /** A value of the slice brings its blocks, and nothing else does. */
  lemma BroughtIn(f: Function, exit: BlockRef, preds: map<BlockRef, seq<Edge>>, s: Slice, v: Value, b: BlockRef)
    requires Standing(f, exit, preds, s) && v in s.deps && Brings(f, v, b)
    ensures b in s.blocks
  {
    SliceIsLeast(f, exit, preds, s);
    hide Standing, Least, Brings;
  }

  lemma TestBringsBlock(f: Function, exit: BlockRef, preds: map<BlockRef, seq<Edge>>, s: Slice, b: BlockRef)
    requires Standing(f, exit, preds, s) && s.Ends(b)
    ensures b in s.blocks
  {
    SliceIsLeast(f, exit, preds, s);
    hide Standing, Least, HasInst;
    assert Brings(f, Res(TermId(b.b)), b);
  }

  lemma LeastHolds(f: Function, gates: GateMap, crit: Value, deps: set<Value>, u: Value, v: Value)
    requires Least(f, gates, crit, deps) && u in deps && Needs(f, gates, u, v)
    ensures v in deps
  {
    hide Needs;
  }

  lemma SliceGates(f: Function, exit: BlockRef, preds: map<BlockRef, seq<Edge>>, s: Slice, b: BlockRef) returns (es: seq<Edge>)
    requires Standing(f, exit, preds, s) && b in f.blocks && |f.order| > 0
    ensures EdgesInto(f, es, b) && b in s.gates
    ensures BlockGates(GraphOf(f), f.order[0], exit, es, b, s.gates[b])
  {
    es := preds[b];
    hide WellFormed, DefsDominateUses, Least, BlocksOf, AttractorMap, EdgesInto, BlockGates, FlowGraph, GraphOf;
  }

  lemma MoreThanOne(es: seq<Edge>, e: Edge, e': Edge)
    requires e in es && e' in es && e != e'
    ensures |es| > 1
  {
  }

  lemma EdgeListed(f: Function, es: seq<Edge>, b: BlockRef, p: BlockRef) returns (e: Edge)
    requires EdgesInto(f, es, b) && (p, b) in GraphOf(f).edges
    ensures e in es && e.0 == p
  {
    var i :| 0 <= i < |f.blocks[p].Succs()| && f.blocks[p].Succs()[i] == b;
    e := (p, i);
  }

  /** A gate of a block is contributed by some predecessor. */
  lemma GateComesFrom(f: Function, exit: BlockRef, preds: map<BlockRef, seq<Edge>>, s: Slice, b: BlockRef, v: Id)
    returns (p: BlockRef)
    requires Standing(f, exit, preds, s) && b in f.blocks && |f.order| > 0
    requires b in s.gates && v in s.gates[b]
    ensures (p, b) in GraphOf(f).edges && v.TermId? && Branches(GraphOf(f), Orig(v.b))
    ensures GatedVia(GraphOf(f), f.order[0], exit, p, b, Orig(v.b))
  {
    var es := SliceGates(f, exit, preds, s, b);
    hide Standing, GatedVia, Branches;
    var e :| e in es && GatedVia(GraphOf(f), f.order[0], exit, e.0, b, Orig(v.b));
    p := e.0;
  }
}
