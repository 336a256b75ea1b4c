/** Phi gates: which terminator decides the edge by which a join is entered. */
module Gates {
  import opened Graphs
  import opened Ir

  /** One edge into a block: the predecessor and the position of the block among its successors. */
  type Edge = (BlockRef, nat)

  /** What `predecessors` answers: an entry for every edge, so a switch with two cases to one block
      counts twice.  The order is that of the use list, on which nothing depends. */
  ghost predicate ValidPreds(f: Function, preds: map<BlockRef, seq<Edge>>) {
    && preds.Keys == f.blocks.Keys
    && forall b | b in preds :: EdgesInto(f, preds[b], b)
  }

  ghost predicate EdgesInto(f: Function, es: seq<Edge>, b: BlockRef) {
    && Distinct(es)
    && forall e :: e in es <==> e.0 in f.blocks && e.1 < |f.blocks[e.0].Succs()| && f.blocks[e.0].Succs()[e.1] == b
  }

  /** `c` is the nearest dominator of `b` that `b` does not post-dominate. */
  ghost predicate IsController(g: Graph, entry: BlockRef, exit: BlockRef, b: BlockRef, c: BlockRef) {
    && c in g.nodes && Dominates(g, entry, c, b) && !PostDominates(g, exit, b, c)
    && forall d | d in g.nodes && Dominates(g, entry, d, b) && !PostDominates(g, exit, b, d) ::
         Dominates(g, entry, d, c)
  }

  /** `c` is the controller of `b`; with none, `b` post-dominates all its dominators. */
  ghost predicate ControllerIs(g: Graph, entry: BlockRef, exit: BlockRef, b: BlockRef, c: Option<BlockRef>) {
    match c
    case Some(c) => IsController(g, entry, exit, b, c)
    case None => forall d | d in g.nodes && Dominates(g, entry, d, b) :: PostDominates(g, exit, b, d)
  }

  ghost predicate Decides(g: Graph, entry: BlockRef, exit: BlockRef, pred: BlockRef, b: BlockRef) {
    Dominates(g, entry, pred, b) && !PostDominates(g, exit, b, pred)
  }

  /** The gate contributed by the predecessor `p` of `b` is the terminator of `q`. */
  ghost predicate GatedVia(g: Graph, entry: BlockRef, exit: BlockRef, p: BlockRef, b: BlockRef, q: BlockRef) {
    if Decides(g, entry, exit, p, b) then q == p else IsController(g, entry, exit, p, q)
  }

  /** `q` is the only gate contributed by `p`, or there is none. */
  ghost predicate OnlyGate(g: Graph, entry: BlockRef, exit: BlockRef, p: BlockRef, b: BlockRef, q: Option<BlockRef>) {
    && (forall r :: GatedVia(g, entry, exit, p, b, r) <==> q == Some(r))
    && (q.Some? ==> q.value.Orig? && Branches(g, q.value))
  }

  /** `gs` are, as a set, the gates contributed by the predecessors `ps` of `b`. */
  ghost predicate GatesFrom(g: Graph, entry: BlockRef, exit: BlockRef, ps: seq<Edge>, b: BlockRef, gs: seq<Id>) {
    && (forall v | v in gs :: v.TermId? && Branches(g, Orig(v.b)) &&
                              exists e :: e in ps && GatedVia(g, entry, exit, e.0, b, Orig(v.b)))
    && (forall e, q | e in ps && GatedVia(g, entry, exit, e.0, b, q) :: q.Orig? && TermId(q.b) in gs)
  }

  /** Only the phis of a block with more than one predecessor are gated. */
  ghost predicate BlockGates(g: Graph, entry: BlockRef, exit: BlockRef, ps: seq<Edge>, b: BlockRef, gs: seq<Id>) {
    if |ps| > 1 then GatesFrom(g, entry, exit, ps, b, gs) else gs == []
  }

  /** `gates` holds the gates of exactly the blocks `done`. */
  ghost predicate GatesOver(f: Function, exit: BlockRef, preds: map<BlockRef, seq<Edge>>, gates: GateMap,
                            done: set<BlockRef>)
    requires |f.order| > 0
  {
    && gates.Keys == done && done <= preds.Keys
    && forall b | b in done :: BlockGates(GraphOf(f), f.order[0], exit, preds[b], b, gates[b])
  }

  ghost predicate GatesOf(f: Function, exit: BlockRef, preds: map<BlockRef, seq<Edge>>, gates: GateMap)
    requires |f.order| > 0
  {
    GatesOver(f, exit, preds, gates, f.blocks.Keys)
  }

  /** `b` has two different successors. */
  ghost predicate Branches(g: Graph, b: BlockRef) {
    exists s, t :: (b, s) in g.edges && (b, t) in g.edges && s != t
  }

  /** What post-dominates the only successor of a block, or is it, post-dominates the block. */
  lemma PostDomStep(g: Graph, entry: BlockRef, exit: BlockRef, x: BlockRef, b: BlockRef, s: BlockRef)
    requires FlowGraph(g, entry, exit) && (b, s) in g.edges && !Branches(g, b)
    requires PostDominates(g, exit, x, s)
    ensures PostDominates(g, exit, x, b)
  {
    forall p | PathFromTo(g, p, b, exit)
      ensures x in p
    {
      assert (p[0], p[1]) in g.edges;
      SplitAt(g, p, b, exit, 1);
      assert x in p[1..];
    }
  }

  /** The predecessor gated in the first case of `computeGates` has two different successors. */
  lemma DecidingPredBranches(g: Graph, entry: BlockRef, exit: BlockRef, p: BlockRef, b: BlockRef)
    requires FlowGraph(g, entry, exit) && (p, b) in g.edges && Decides(g, entry, exit, p, b)
    ensures Branches(g, p)
  {
    if !Branches(g, p) {
      PostDomStep(g, entry, exit, b, p, b);
    }
  }

  /** So has every block `getController` returns. */
  lemma ControllerBranches(g: Graph, entry: BlockRef, exit: BlockRef, b: BlockRef, c: BlockRef)
    requires FlowGraph(g, entry, exit) && b in g.nodes && IsController(g, entry, exit, b, c)
    ensures Branches(g, c)
  {
    var p :| PathFromTo(g, p, entry, b);
    var i := LastIn(p, {c});
    assert c != b;
    var s := p[i + 1];
    SplitAt(g, p, entry, b, i + 1);
    if !Branches(g, c) {
      SuccessorDominates(g, entry, b, c, s);
      if PostDominates(g, exit, b, s) {
        PostDomStep(g, entry, exit, b, c, s);
      } else {
        assert s != c by {
          if s == c {
            SelfLoopBranches(g, entry, exit, c);
          }
        }
        DomCut(g, entry, s, c, b, p[i + 1..]);
      }
      assert false;
    }
  }

  lemma SuccessorDominates(g: Graph, entry: BlockRef, b: BlockRef, c: BlockRef, s: BlockRef)
    requires Dominates(g, entry, c, b) && c != b && (c, s) in g.edges && !Branches(g, c)
    ensures Dominates(g, entry, s, b)
  {
    forall q | PathFromTo(g, q, entry, b)
      ensures s in q
    {
      var j := LastIn(q, {c});
      assert (q[j], q[j + 1]) in g.edges;
    }
  }

  lemma SelfLoopBranches(g: Graph, entry: BlockRef, exit: BlockRef, c: BlockRef)
    requires FlowGraph(g, entry, exit) && (c, c) in g.edges
    ensures Branches(g, c)
  {
    FlipReaches(g, c, exit);
    var p :| PathFromTo(g, p, c, exit);
    var j := LastIn(p, {c});
    assert (p[j], p[j + 1]) in g.edges;
  }

  /** What the walk up the dominator tree has established: a controller is at or above `cur`. */
  ghost predicate WalkState(g: Graph, entry: BlockRef, exit: BlockRef, b: BlockRef, cur: Option<BlockRef>) {
    && (cur.Some? ==> cur.value in g.nodes && Dominates(g, entry, cur.value, b))
    && forall d | d in g.nodes && Dominates(g, entry, d, b) && !PostDominates(g, exit, b, d) ::
         cur.Some? && Dominates(g, entry, d, cur.value)
  }

  lemma TreesOf(f: Function, dt: Tree, pdt: Tree)
    requires ValidTree(GraphOf(f), dt) && ValidTree(Flip(GraphOf(f)), pdt)
    ensures GraphOf(f).nodes == f.blocks.Keys && dt.root in f.blocks
    ensures forall x | x in dt.idom :: dt.idom[x] in f.blocks
  {
    hide Dominates;
  }

  lemma WalkStarts(g: Graph, entry: BlockRef, exit: BlockRef, b: BlockRef)
    requires b in g.nodes
    ensures WalkState(g, entry, exit, b, Some(b))
  {
    assert Dominates(g, entry, b, b);
    hide Dominates, PostDominates;
  }

  lemma WalkFound(g: Graph, entry: BlockRef, exit: BlockRef, b: BlockRef, x: BlockRef)
    requires WalkState(g, entry, exit, b, Some(x)) && !PostDominates(g, exit, b, x)
    ensures ControllerIs(g, entry, exit, b, Some(x))
  {
    hide Dominates, PostDominates;
  }

  lemma WalkUp(g: Graph, dt: Tree, exit: BlockRef, b: BlockRef, x: BlockRef)
    requires ValidTree(g, dt) && WalkState(g, dt.root, exit, b, Some(x)) && PostDominates(g, exit, b, x) && x in dt.idom
    ensures WalkState(g, dt.root, exit, b, Some(dt.idom[x])) && Doms(g, dt.root, dt.idom[x]) < Doms(g, dt.root, x)
  {
    assert IsIdom(g, dt.root, dt.idom[x], x);
    DomsShrink(g, dt.root, dt.idom[x], x);
    DomTrans(g, dt.root, dt.idom[x], x, b);
    hide Dominates, PostDominates, ValidTree, Doms;
  }

  lemma WalkEnds(g: Graph, dt: Tree, exit: BlockRef, b: BlockRef, x: BlockRef)
    requires ValidTree(g, dt) && WalkState(g, dt.root, exit, b, Some(x)) && PostDominates(g, exit, b, x) && x !in dt.idom
    ensures WalkState(g, dt.root, exit, b, None)
  {
    assert x == dt.root;
    DominatorOfRoot(g, dt.root);
    hide Dominates, PostDominates, ValidTree;
  }

  lemma WalkedOut(g: Graph, entry: BlockRef, exit: BlockRef, b: BlockRef)
    requires WalkState(g, entry, exit, b, None)
    ensures ControllerIs(g, entry, exit, b, None)
  {
    hide Dominates, PostDominates;
  }

  /** Walks up from `b` to the first dominator that `b` does not post-dominate. */
  method GetController(f: Function, exit: BlockRef, dt: Tree, pdt: Tree, b: BlockRef) returns (c: Option<BlockRef>)
    requires ValidTree(GraphOf(f), dt) && ValidTree(Flip(GraphOf(f)), pdt)
    requires |f.order| > 0 && dt.root == f.order[0] && pdt.root == exit && b in f.blocks
    ensures ControllerIs(GraphOf(f), f.order[0], exit, b, c)
  {
    ghost var g, entry := GraphOf(f), f.order[0];
    var cur := Some(b);
    TreesOf(f, dt, pdt);
    WalkStarts(g, entry, exit, b);
    hide ValidTree, ControllerIs, WalkState, GraphOf;
    while cur.Some?
      invariant WalkState(g, entry, exit, b, cur) && (cur.Some? ==> cur.value in f.blocks)
      decreases cur.Some?, if cur.Some? then Doms(g, entry, cur.value) else {}
    {
      var x := cur.value;
      PostTreeAnswers(g, pdt, b, x);
      if (b, x) !in pdt.dom {
        WalkFound(g, entry, exit, b, x);
        return Some(x);
      }
      if x in dt.idom {
        WalkUp(g, dt, exit, b, x);
        cur := Some(dt.idom[x]);
      } else {
        WalkEnds(g, dt, exit, b, x);
        cur := None;
      }
    }
    WalkedOut(g, entry, exit, b);
    return None;
  }

  ghost predicate HasPredicate(f: Function, b: BlockRef) {
    && b in f.blocks && b.Orig? && f.blocks[b].term.Some?
    && (f.blocks[b].term.value.CondBr? || f.blocks[b].term.value.Switch?)
  }

  /** The predicate of a block.  The precondition is the assertion of the original, together with
      the two kinds of terminator for which it sets its result. */
  method GetGate(f: Function, b: BlockRef) returns (v: Id)
    requires HasPredicate(f, b)
    ensures v == TermId(b.b)
  {
    v := TermId(b.b);
  }

  method ComputeGates(f: Function, exit: BlockRef, dt: Tree, pdt: Tree, preds: map<BlockRef, seq<Edge>>)
    returns (gates: GateMap)
    requires Flowing(f, exit) && ValidPreds(f, preds)
    requires ValidTree(GraphOf(f), dt) && ValidTree(Flip(GraphOf(f)), pdt)
    requires dt.root == f.order[0] && pdt.root == exit
    ensures GatesOf(f, exit, preds, gates)
  {
    hide ValidTree, FlowGraph, GatesOver, GraphOf, EdgesInto;
    gates := map[];
    ghost var done: set<BlockRef> := {};
    NoBlockGates(f, exit, preds);
    for i := 0 to |f.order|
      invariant done == set b | b in f.order[..i]
      invariant GatesOver(f, exit, preds, gates, done)
    {
      var b := f.order[i];
      var bbGates := [];
      if |preds[b]| > 1 {
        bbGates := GatesOfBlock(f, exit, dt, pdt, preds, b);
      }
      AddBlockGates(f, exit, preds, gates, done, b, bbGates);
      assert f.order[..i + 1] == f.order[..i] + [b];
      gates, done := gates[b := bbGates], done + {b};
    }
    assert f.order[..|f.order|] == f.order;
    assert done == f.blocks.Keys;
  }

  lemma NoBlockGates(f: Function, exit: BlockRef, preds: map<BlockRef, seq<Edge>>)
    requires |f.order| > 0
    ensures GatesOver(f, exit, preds, map[], {})
  {
  }

  lemma AddBlockGates(f: Function, exit: BlockRef, preds: map<BlockRef, seq<Edge>>, gates: GateMap,
                      done: set<BlockRef>, b: BlockRef, gs: seq<Id>)
    requires |f.order| > 0 && b in preds && GatesOver(f, exit, preds, gates, done)
    requires if |preds[b]| > 1 then GatesFrom(GraphOf(f), f.order[0], exit, preds[b], b, gs) else gs == []
    ensures GatesOver(f, exit, preds, gates[b := gs], done + {b})
  {
    hide GatesFrom, GraphOf;
  }

  /** The loop of `computeGates` over the predecessors of one block. */
  method GatesOfBlock(f: Function, exit: BlockRef, dt: Tree, pdt: Tree, preds: map<BlockRef, seq<Edge>>, b: BlockRef)
    returns (gs: seq<Id>)
    requires Flowing(f, exit) && ValidPreds(f, preds)
    requires ValidTree(GraphOf(f), dt) && ValidTree(Flip(GraphOf(f)), pdt)
    requires dt.root == f.order[0] && pdt.root == exit && b in f.blocks
    ensures GatesFrom(GraphOf(f), f.order[0], exit, preds[b], b, gs)
  {
    ghost var g, entry := GraphOf(f), f.order[0];
    assert EdgesInto(f, preds[b], b);
    hide ValidPreds, ValidTree, FlowGraph, GatesFrom, OnlyGate, HasPredicate;
    var ps := preds[b];
    gs := [];
    NoGates(g, entry, exit, b);
    for i := 0 to |ps|
      invariant GatesFrom(g, entry, exit, ps[..i], b, gs)
    {
      assert ps[..i + 1] == ps[..i] + [ps[i]];
      var q := GateVia(f, exit, dt, pdt, ps[i].0, b);
      OneMoreGate(g, entry, exit, ps[..i], b, gs, ps[i], q);
      if q.Some? {
        var v := GetGate(f, q.value);
        gs := gs + [v];
      }
    }
    assert ps[..|ps|] == ps;
  }

  /** The block whose predicate gates the edge from `p` to `b`. */
  method GateVia(f: Function, exit: BlockRef, dt: Tree, pdt: Tree, p: BlockRef, b: BlockRef)
    returns (q: Option<BlockRef>)
    requires Flowing(f, exit) && (p, b) in GraphOf(f).edges
    requires ValidTree(GraphOf(f), dt) && ValidTree(Flip(GraphOf(f)), pdt)
    requires dt.root == f.order[0] && pdt.root == exit
    ensures OnlyGate(GraphOf(f), f.order[0], exit, p, b, q)
    ensures q.Some? ==> HasPredicate(f, q.value)
  {
    hide ValidTree, ControllerIs, OnlyGate, HasPredicate;
    TreeAnswers(GraphOf(f), dt, p, b);
    PostTreeAnswers(GraphOf(f), pdt, b, p);
    if (p, b) in dt.dom && (b, p) !in pdt.dom {
      DecidingGate(f, exit, p, b);
      q := Some(p);
    } else {
      q := GetController(f, exit, dt, pdt, p);
      ControllerGate(f, exit, p, b, q);
    }
  }

  lemma NoGates(g: Graph, entry: BlockRef, exit: BlockRef, b: BlockRef)
    ensures GatesFrom(g, entry, exit, [], b, [])
  {
  }

  lemma DecidingGate(f: Function, exit: BlockRef, p: BlockRef, b: BlockRef)
    requires Flowing(f, exit) && (p, b) in GraphOf(f).edges && Decides(GraphOf(f), f.order[0], exit, p, b)
    ensures OnlyGate(GraphOf(f), f.order[0], exit, p, b, Some(p)) && HasPredicate(f, p)
  {
    DecidingPredBranches(GraphOf(f), f.order[0], exit, p, b);
  }

  lemma ControllerGate(f: Function, exit: BlockRef, p: BlockRef, b: BlockRef, c: Option<BlockRef>)
    requires Flowing(f, exit) && p in f.blocks && !Decides(GraphOf(f), f.order[0], exit, p, b)
    requires ControllerIs(GraphOf(f), f.order[0], exit, p, c)
    ensures OnlyGate(GraphOf(f), f.order[0], exit, p, b, c)
    ensures c.Some? ==> HasPredicate(f, c.value)
  {
    hide Dominates, PostDominates;
    var g, entry := GraphOf(f), f.order[0];
    if c.Some? {
      ControllerBranches(g, entry, exit, p, c.value);
      ControllerUnique(g, entry, exit, p, c.value);
    }
  }

  lemma ControllerUnique(g: Graph, entry: BlockRef, exit: BlockRef, b: BlockRef, c: BlockRef)
    requires Rooted(g, entry) && IsController(g, entry, exit, b, c)
    ensures forall d :: IsController(g, entry, exit, b, d) <==> d == c
  {
    forall d | IsController(g, entry, exit, b, d)
      ensures d == c
    {
      DomAntisym(g, entry, c, d);
    }
  }

  lemma OneMoreGate(g: Graph, entry: BlockRef, exit: BlockRef, ps: seq<Edge>, b: BlockRef, gs: seq<Id>,
                    e: Edge, q: Option<BlockRef>)
    requires GatesFrom(g, entry, exit, ps, b, gs) && OnlyGate(g, entry, exit, e.0, b, q)
    ensures GatesFrom(g, entry, exit, ps + [e], b, if q.Some? then gs + [TermId(q.value.b)] else gs)
  {
    hide GatedVia, Branches;
    assert e in ps + [e];
  }
}
