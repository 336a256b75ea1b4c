/** The attractor of a block: its nearest post-dominator in the slice. */
module Attractors {
  import opened Graphs
  import opened Ir

  ghost predicate IsAttractor(g: Graph, exit: BlockRef, s: set<BlockRef>, b: BlockRef, a: BlockRef) {
    && a in s && PostDominates(g, exit, a, b)
    && forall c | c in s && PostDominates(g, exit, c, b) :: PostDominates(g, exit, c, a)
  }

  ghost predicate SomePostDominator(g: Graph, exit: BlockRef, s: set<BlockRef>, b: BlockRef) {
    exists c :: c in s && PostDominates(g, exit, c, b)
  }

  /** `m` is right about `b`: it is defined there exactly when some slice block post-dominates `b`,
      and then it is the nearest one, `b` itself when `b` is in the slice. */
  ghost predicate AttractorAt(g: Graph, exit: BlockRef, s: set<BlockRef>, m: map<BlockRef, BlockRef>, b: BlockRef) {
    && (b in m <==> SomePostDominator(g, exit, s, b))
    && (b in m ==> IsAttractor(g, exit, s, b, m[b]))
    && (b in s ==> b in m && m[b] == b)
  }

  ghost predicate AttractorMap(g: Graph, exit: BlockRef, s: set<BlockRef>, m: map<BlockRef, BlockRef>) {
    m.Keys <= g.nodes && forall b | b in g.nodes :: AttractorAt(g, exit, s, m, b)
  }

  lemma AttractorUnique(g: Graph, exit: BlockRef, s: set<BlockRef>, b: BlockRef, a: BlockRef, a': BlockRef)
    requires Rooted(Flip(g), exit) && s <= g.nodes
    requires IsAttractor(g, exit, s, b, a) && IsAttractor(g, exit, s, b, a')
    ensures a == a'
  {
    FlipReaches(g, a, exit);
    PostDomAntisym(g, exit, a, a');
  }

  /** The walk up the post-dominator tree from one block outside the slice. */
  method FindAttractor(ghost g: Graph, ghost exit: BlockRef, pdt: Tree, s: set<BlockRef>,
                       b: BlockRef) returns (a: Option<BlockRef>)
    requires ValidTree(Flip(g), pdt) && pdt.root == exit && s <= g.nodes && b in g.nodes && b !in s
    ensures a.Some? ==> IsAttractor(g, exit, s, b, a.value)
    ensures a.Some? <==> SomePostDominator(g, exit, s, b)
  {
    ghost var r := Flip(g);
    FlippedFacts(g, exit, s, b);
    hide PostDominates, Dominates;
    a := if b in pdt.idom then Some(pdt.idom[b]) else None;
    if a.None? {
      DominatorOfRoot(r, exit);
    }
    while a.Some?
      invariant a.Some? ==> a.value in g.nodes && Dominates(r, exit, a.value, b)
      invariant forall c | c in s && Dominates(r, exit, c, b) :: a.Some? && Dominates(r, exit, c, a.value)
      decreases a.Some?, if a.Some? then Doms(r, exit, a.value) else {}
    {
      var x := a.value;
      if x in s {
        FlippedAttractor(g, exit, s, b, x);
        return;
      }
      if x in pdt.idom {
        DomTrans(r, exit, pdt.idom[x], x, b);
        DomsShrink(r, exit, pdt.idom[x], x);
        a := Some(pdt.idom[x]);
      } else {
        DominatorOfRoot(r, exit);
        a := None;
      }
    }
  }

  lemma FlippedFacts(g: Graph, exit: BlockRef, s: set<BlockRef>, b: BlockRef)
    ensures (exists c :: c in s && Dominates(Flip(g), exit, c, b)) <==> SomePostDominator(g, exit, s, b)
  {
    forall c
      ensures PostDominates(g, exit, c, b) <==> Dominates(Flip(g), exit, c, b)
    {
      PostDomIsFlippedDom(g, exit, c, b);
    }
  }

  lemma FlippedAttractor(g: Graph, exit: BlockRef, s: set<BlockRef>, b: BlockRef, a: BlockRef)
    requires a in s && Dominates(Flip(g), exit, a, b)
    requires forall c | c in s && Dominates(Flip(g), exit, c, b) :: Dominates(Flip(g), exit, c, a)
    ensures IsAttractor(g, exit, s, b, a) && SomePostDominator(g, exit, s, b)
  {
    PostDomIsFlippedDom(g, exit, a, b);
    forall c | c in s && PostDominates(g, exit, c, b)
      ensures PostDominates(g, exit, c, a)
    {
      PostDomIsFlippedDom(g, exit, c, b);
      PostDomIsFlippedDom(g, exit, c, a);
    }
  }

  lemma SelfAttractor(g: Graph, exit: BlockRef, s: set<BlockRef>, b: BlockRef)
    requires b in s
    ensures SomePostDominator(g, exit, s, b) && IsAttractor(g, exit, s, b, b)
  {
    assert PostDominates(g, exit, b, b);
  }

  lemma OthersKept(g: Graph, exit: BlockRef, s: set<BlockRef>, m: map<BlockRef, BlockRef>, b: BlockRef,
                   a: BlockRef, c: BlockRef)
    requires AttractorAt(g, exit, s, m, c) && c != b
    ensures AttractorAt(g, exit, s, m[b := a], c)
  {
    hide SomePostDominator, IsAttractor;
  }

  /** The attractors of the blocks `done`. */
  ghost predicate AttractorsOf(g: Graph, exit: BlockRef, s: set<BlockRef>, m: map<BlockRef, BlockRef>, done: seq<BlockRef>) {
    (forall b | b in m :: b in done) && forall b | b in done :: AttractorAt(g, exit, s, m, b)
  }

  lemma OneMoreAttractor(g: Graph, exit: BlockRef, s: set<BlockRef>, m: map<BlockRef, BlockRef>,
                         done: seq<BlockRef>, b: BlockRef, a: BlockRef)
    requires AttractorsOf(g, exit, s, m, done) && b !in done
    requires SomePostDominator(g, exit, s, b) && IsAttractor(g, exit, s, b, a) && (b in s ==> a == b)
    ensures AttractorsOf(g, exit, s, m[b := a], done + [b])
  {
    assert AttractorAt(g, exit, s, m[b := a], b);
    hide AttractorAt;
    forall c | c in done
      ensures AttractorAt(g, exit, s, m[b := a], c)
    {
      OthersKept(g, exit, s, m, b, a, c);
    }
  }

  lemma NoAttractor(g: Graph, exit: BlockRef, s: set<BlockRef>, m: map<BlockRef, BlockRef>, done: seq<BlockRef>, b: BlockRef)
    requires AttractorsOf(g, exit, s, m, done) && b !in done && b !in s && !SomePostDominator(g, exit, s, b)
    ensures AttractorsOf(g, exit, s, m, done + [b])
  {
    hide SomePostDominator, IsAttractor;
  }

  lemma NotYet(f: Function, i: nat)
    requires Shaped(f) && i < |f.order|
    ensures f.order[i] in f.blocks && f.order[i] !in f.order[..i] && f.order[..i + 1] == f.order[..i] + [f.order[i]]
    ensures GraphOf(f).nodes == f.blocks.Keys
  {
  }

  lemma AllOfThem(f: Function, exit: BlockRef, s: set<BlockRef>, m: map<BlockRef, BlockRef>)
    requires Shaped(f) && AttractorsOf(GraphOf(f), exit, s, m, f.order)
    ensures AttractorMap(GraphOf(f), exit, s, m)
  {
    hide AttractorAt;
  }

  method ComputeAttractors(f: Function, exit: BlockRef, pdt: Tree, s: set<BlockRef>)
    returns (m: map<BlockRef, BlockRef>)
    requires Shaped(f) && ValidTree(Flip(GraphOf(f)), pdt) && pdt.root == exit && s <= f.blocks.Keys
    ensures AttractorMap(GraphOf(f), exit, s, m)
  {
    ghost var g := GraphOf(f);
    m := map[];
    assert AttractorsOf(g, exit, s, m, f.order[..0]);
    hide ValidTree, SomePostDominator, IsAttractor, AttractorsOf, Shaped, GraphOf, AttractorMap;
    for i := 0 to |f.order|
      invariant AttractorsOf(g, exit, s, m, f.order[..i])
    {
      var b := f.order[i];
      NotYet(f, i);
      if b in s {
        SelfAttractor(g, exit, s, b);
        OneMoreAttractor(g, exit, s, m, f.order[..i], b, b);
        m := m[b := b];
      } else {
        var a := FindAttractor(g, exit, pdt, s, b);
        if a.Some? {
          OneMoreAttractor(g, exit, s, m, f.order[..i], b, a.value);
          m := m[b := a.value];
        } else {
          NoAttractor(g, exit, s, m, f.order[..i], b);
        }
      }
    }
    assert f.order[..|f.order|] == f.order;
    AllOfThem(f, exit, s, m);
  }
}
