/** Which slice block a path meets first, and how attractors and nearest slice dominators relate to it. */
module Arrivals {
  import opened Graphs
  import opened Attractors

  ghost predicate ArrivesBy(g: Graph, s: set<BlockRef>, q: seq<BlockRef>, a: BlockRef, y: BlockRef) {
    PathFromTo(g, q, a, y) && y in s && forall i | 0 <= i < |q| - 1 :: q[i] !in s
  }

  /** Some path from `a` meets `y` before any other block of `s`. */
  ghost predicate Arrives(g: Graph, s: set<BlockRef>, a: BlockRef, y: BlockRef) {
    exists q :: ArrivesBy(g, s, q, a, y)
  }

  /** The same for the paths that leave `b` by an edge. */
  ghost predicate Leaves(g: Graph, s: set<BlockRef>, b: BlockRef, y: BlockRef) {
    exists a :: (b, a) in g.edges && Arrives(g, s, a, y)
  }

  ghost predicate OneArrival(g: Graph, s: set<BlockRef>, a: BlockRef) {
    forall y, z | Arrives(g, s, a, y) && Arrives(g, s, a, z) :: y == z
  }

  ghost predicate OneLeaving(g: Graph, s: set<BlockRef>, b: BlockRef) {
    forall y, z | Leaves(g, s, b, y) && Leaves(g, s, b, z) :: y == z
  }

  /** Every path from `a` to the exit meets `s`. */
  ghost predicate AlwaysArrives(g: Graph, exit: BlockRef, s: set<BlockRef>, a: BlockRef) {
    forall p | PathFromTo(g, p, a, exit) :: exists x :: x in p && x in s
  }

  /** `b` is the nearest block of `s` that strictly dominates `c`. */
  ghost predicate NearestSliceDom(g: Graph, entry: BlockRef, s: set<BlockRef>, b: BlockRef, c: BlockRef) {
    && b in s && b != c && Dominates(g, entry, b, c)
    && forall d | d in s && d != c && Dominates(g, entry, d, c) :: Dominates(g, entry, d, b)
  }

  lemma PathArrives(g: Graph, s: set<BlockRef>, p: seq<BlockRef>, a: BlockRef, b: BlockRef)
    returns (y: BlockRef, i: nat)
    requires PathFromTo(g, p, a, b) && exists x :: x in p && x in s
    ensures i < |p| && p[i] == y && ArrivesBy(g, s, p[..i + 1], a, y) && Arrives(g, s, a, y)
  {
    i := FirstIn(p, s);
    y := p[i];
    SplitAt(g, p, a, b, i);
    assert ArrivesBy(g, s, p[..i + 1], a, y);
  }

  lemma ArrivesAtOnce(g: Graph, s: set<BlockRef>, a: BlockRef)
    requires a in s && a in g.nodes
    ensures forall y :: Arrives(g, s, a, y) <==> y == a
  {
    assert ArrivesBy(g, s, [a], a, a);
  }

  // ---- attractors ----

  /** The attractor of a block from which only one slice block is met first is that block. */
  lemma AttractorIsFirst(g: Graph, exit: BlockRef, s: set<BlockRef>, b: BlockRef, a: BlockRef, y: BlockRef)
    requires Rooted(Flip(g), exit) && b in g.nodes
    requires IsAttractor(g, exit, s, b, a) && OneArrival(g, s, b) && Arrives(g, s, b, y)
    ensures a == y
  {
    FirstPostDominates(g, exit, s, b, y, a);
    FlipReaches(g, y, exit);
    FirstIsBelow(g, exit, s, b, a, y);
    PostDomAntisym(g, exit, y, a);
  }

  lemma FirstPostDominates(g: Graph, exit: BlockRef, s: set<BlockRef>, b: BlockRef, y: BlockRef, a: BlockRef)
    requires OneArrival(g, s, b) && Arrives(g, s, b, y)
    requires IsAttractor(g, exit, s, b, a)
    ensures PostDominates(g, exit, y, a)
  {
    forall r | PathFromTo(g, r, b, exit)
      ensures y in r
    {
      assert a in r;
      var z, i := PathArrives(g, s, r, b, exit);
    }
    assert PostDominates(g, exit, y, b);
  }

  lemma FirstIsBelow(g: Graph, exit: BlockRef, s: set<BlockRef>, b: BlockRef, a: BlockRef, y: BlockRef)
    requires a in s && PostDominates(g, exit, a, b) && Arrives(g, s, b, y)
    ensures PostDominates(g, exit, a, y)
  {
    var q :| ArrivesBy(g, s, q, b, y);
    forall r | PathFromTo(g, r, y, exit)
      ensures a in r
    {
      Join(g, q, r, b, y, exit);
      var w := q + r[1..];
      var i :| 0 <= i < |w| && w[i] == a;
      assert forall k | 0 <= k < |q| - 1 :: w[k] == q[k];
      assert i >= |q| - 1;
      if i == |q| - 1 {
        assert r[0] == w[i];
      } else {
        assert w[i] == r[1..][i - |q|];
      }
    }
  }

  /** A block has an attractor exactly when it cannot avoid the slice, if it meets it in one place. */
  lemma AlwaysMeansAttractor(g: Graph, exit: BlockRef, s: set<BlockRef>, b: BlockRef)
    requires b in g.nodes && Rooted(Flip(g), exit) && OneArrival(g, s, b)
    ensures SomePostDominator(g, exit, s, b) <==> AlwaysArrives(g, exit, s, b)
  {
    if SomePostDominator(g, exit, s, b) {
      var c :| c in s && PostDominates(g, exit, c, b);
      forall p | PathFromTo(g, p, b, exit)
        ensures exists x :: x in p && x in s
      {
        assert c in p;
      }
    } else if AlwaysArrives(g, exit, s, b) {
      FlipReaches(g, b, exit);
      var p :| PathFromTo(g, p, b, exit);
      var y, _ := PathArrives(g, s, p, b, exit);
      forall r | PathFromTo(g, r, b, exit)
        ensures y in r
      {
        var z, i := PathArrives(g, s, r, b, exit);
      }
      assert PostDominates(g, exit, y, b);
    }
  }

  /** For one target of a branch: rerouting it to its attractor is right on every path exactly when
      it meets the slice in one place, and cannot avoid it if it can meet it. */
  lemma TargetRight(g: Graph, exit: BlockRef, s: set<BlockRef>, m: map<BlockRef, BlockRef>, b: BlockRef)
    requires b in g.nodes && AttractorMap(g, exit, s, m) && Rooted(Flip(g), exit)
    ensures (forall y | Arrives(g, s, b, y) :: b in m && m[b] == y)
       <==> OneArrival(g, s, b) && ((exists y :: Arrives(g, s, b, y)) ==> AlwaysArrives(g, exit, s, b))
  {
    assert AttractorAt(g, exit, s, m, b);
    hide PostDominates, SomePostDominator, AttractorMap, IsAttractor;
    if OneArrival(g, s, b) {
      AlwaysMeansAttractor(g, exit, s, b);
      if AlwaysArrives(g, exit, s, b) {
        forall y | Arrives(g, s, b, y)
          ensures m[b] == y
        {
          AttractorIsFirst(g, exit, s, b, m[b], y);
        }
      }
    }
  }

  // ---- nearest slice dominators ----

  lemma NearestUnique(g: Graph, entry: BlockRef, s: set<BlockRef>, b: BlockRef, b': BlockRef, c: BlockRef)
    requires Rooted(g, entry) && s <= g.nodes
    requires NearestSliceDom(g, entry, s, b, c) && NearestSliceDom(g, entry, s, b', c)
    ensures b == b'
  {
    DomAntisym(g, entry, b, b');
  }

  /** A slice block that strictly dominates a slice block is the nearest one of some slice block. */
  lemma {:induction false} HasNearestChild(g: Graph, entry: BlockRef, s: set<BlockRef>, b: BlockRef, d: BlockRef)
    returns (c: BlockRef)
    requires Rooted(g, entry) && s <= g.nodes && b in s && d in s && b != d && Dominates(g, entry, b, d)
    ensures c in s && NearestSliceDom(g, entry, s, b, c)
    decreases |Doms(g, entry, d)|
  {
    if e :| e in s && e != d && Dominates(g, entry, e, d) && !Dominates(g, entry, e, b) {
      DomChain(g, entry, b, e, d);
      DomsShrink(g, entry, e, d);
      SmallerSet(Doms(g, entry, e), Doms(g, entry, d));
      c := HasNearestChild(g, entry, s, b, e);
    } else {
      c := d;
    }
  }

  /** If only one slice block can be met first on leaving `b`, and `b` is the nearest slice dominator
      of `c`, that block is `c`. */
  lemma NearestChildIsFirst(g: Graph, entry: BlockRef, s: set<BlockRef>, b: BlockRef, c: BlockRef, y: BlockRef)
    requires Rooted(g, entry) && s <= g.nodes && c in s
    requires NearestSliceDom(g, entry, s, b, c) && OneLeaving(g, s, b) && Leaves(g, s, b, y)
    ensures c == y
  {
    if c != y {
      forall p | PathFromTo(g, p, entry, c)
        ensures y in p
      {
        var w := AfterLast(g, entry, s, b, c, y, p);
      }
      assert Dominates(g, entry, y, b);
      var p :| PathFromTo(g, p, entry, c);
      var w := AfterLast(g, entry, s, b, c, y, p);
      DomCut(g, entry, y, b, c, w);
    }
  }

  /** Past its last visit to `b`, a path to `c` goes through `y` and on to `c` without `b`. */
  lemma AfterLast(g: Graph, entry: BlockRef, s: set<BlockRef>, b: BlockRef, c: BlockRef, y: BlockRef, p: seq<BlockRef>)
    returns (w: seq<BlockRef>)
    requires c in s && b != c && Dominates(g, entry, b, c)
    requires OneLeaving(g, s, b) && Leaves(g, s, b, y) && PathFromTo(g, p, entry, c)
    ensures PathFromTo(g, w, y, c) && b !in w && y in p && y != b
  {
    var x, t := LeftLast(g, entry, b, c, p);
    var z, j := ArrivesOn(g, s, t, x, c);
    hide Arrives, Path, Dominates;
    assert Leaves(g, s, b, z);
    SplitAt(g, t, x, c, j);
    w := t[j..];
    assert forall k | 0 <= k < |w| :: w[k] == t[j + k] && t[j + k] in t;
  }

  lemma ArrivesOn(g: Graph, s: set<BlockRef>, t: seq<BlockRef>, x: BlockRef, c: BlockRef) returns (z: BlockRef, j: nat)
    requires PathFromTo(g, t, x, c) && c in s
    ensures j < |t| && t[j] == z && z in t && Arrives(g, s, x, z)
  {
    assert c in t;
    z, j := PathArrives(g, s, t, x, c);
  }

  /** The rest of a path after its last visit to `b`. */
  lemma LeftLast(g: Graph, entry: BlockRef, b: BlockRef, c: BlockRef, p: seq<BlockRef>) returns (x: BlockRef, t: seq<BlockRef>)
    requires b != c && Dominates(g, entry, b, c) && PathFromTo(g, p, entry, c)
    ensures (b, x) in g.edges && PathFromTo(g, t, x, c) && b !in t && forall q | q in t :: q in p
  {
    var i := LastIn(p, {b});
    assert i + 1 < |p| && (p[i], p[i + 1]) in g.edges;
    SplitAt(g, p, entry, c, i + 1);
    hide Path, Dominates;
    x, t := p[i + 1], p[i + 1..];
    assert forall k | 0 <= k < |t| :: t[k] == p[i + 1 + k];
  }
}
