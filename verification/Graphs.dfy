/** Control-flow graphs, paths, and dominance stated over paths.

    The dominator trees the passes query are not rebuilt here: a tree is a value, and
    `ValidTree` says what it means for it to be the dominator tree of a graph. */
module Graphs {

  /** A basic block as the passes hold it: a pointer.  `Orig(b)` is a block of the function being
      transformed, `Clone(b)` its counterpart in the outlined function, and `Dead` the block that
      holds nothing but `unreachable`; the last two are the blocks memoization puts in front. */
  datatype BlockRef = Orig(b: nat) | Clone(b: nat) | Dead | MemoEntry | MemoRet

  datatype Graph = Graph(nodes: set<BlockRef>, edges: set<(BlockRef, BlockRef)>)

  ghost predicate Path(g: Graph, p: seq<BlockRef>) {
    && |p| > 0
    && (forall i | 0 <= i < |p| :: p[i] in g.nodes)
    && (forall i | 1 <= i < |p| :: (p[i - 1], p[i]) in g.edges)
  }

  ghost predicate PathFromTo(g: Graph, p: seq<BlockRef>, a: BlockRef, b: BlockRef) {
    Path(g, p) && p[0] == a && p[|p| - 1] == b
  }

  ghost predicate Reaches(g: Graph, a: BlockRef, b: BlockRef) {
    exists p :: PathFromTo(g, p, a, b)
  }

  /** `a` lies on every path from `root` to `b`. */
  ghost predicate Dominates(g: Graph, root: BlockRef, a: BlockRef, b: BlockRef) {
    forall p | PathFromTo(g, p, root, b) :: a in p
  }

  /** `a` lies on every path from `b` to `exit`. */
  ghost predicate PostDominates(g: Graph, exit: BlockRef, a: BlockRef, b: BlockRef) {
    forall p | PathFromTo(g, p, b, exit) :: a in p
  }

  ghost predicate OnCycle(g: Graph, b: BlockRef) {
    exists p :: PathFromTo(g, p, b, b) && |p| > 1
  }

  /** Edges join nodes and every node is reachable from `root`. */
  ghost predicate Rooted(g: Graph, root: BlockRef) {
    && root in g.nodes
    && (forall e | e in g.edges :: e.0 in g.nodes && e.1 in g.nodes)
    && (forall b | b in g.nodes :: Reaches(g, root, b))
  }

  /** Every node lies between the entry and the exit, and the exit is left by no edge. */
  ghost predicate FlowGraph(g: Graph, entry: BlockRef, exit: BlockRef) {
    Rooted(g, entry) && Rooted(Flip(g), exit) && forall e | e in g.edges :: e.0 != exit
  }

  function Flip(g: Graph): Graph {
    Graph(g.nodes, set e | e in g.edges :: (e.1, e.0))
  }

  // ---- dominator trees ----

  ghost predicate IsIdom(g: Graph, root: BlockRef, a: BlockRef, b: BlockRef) {
    && a in g.nodes && a != b && Dominates(g, root, a, b)
    && (forall d | d != b && Dominates(g, root, d, b) :: Dominates(g, root, d, a))
  }

  /** What `getIDom` and `dominates` answer.  The root has no parent in `idom`. */
  datatype Tree = Tree(root: BlockRef, idom: map<BlockRef, BlockRef>, dom: set<(BlockRef, BlockRef)>)

  ghost predicate ValidTree(g: Graph, t: Tree) {
    && Rooted(g, t.root)
    && t.idom.Keys == g.nodes - {t.root}
    && (forall b {:trigger t.idom[b]} | b in t.idom :: IsIdom(g, t.root, t.idom[b], b))
    && (forall a, b {:trigger (a, b) in t.dom} :: (a, b) in t.dom <==> a in g.nodes && b in g.nodes && Dominates(g, t.root, a, b))
  }

  ghost function Doms(g: Graph, root: BlockRef, b: BlockRef): set<BlockRef> {
    set d | d in g.nodes && Dominates(g, root, d, b)
  }

  // ---- paths ----

  lemma FirstIn(p: seq<BlockRef>, s: set<BlockRef>) returns (i: nat)
    requires exists k :: 0 <= k < |p| && p[k] in s
    ensures i < |p| && p[i] in s && forall j | 0 <= j < i :: p[j] !in s
  {
    i := 0;
    while p[i] !in s
      invariant i < |p| && forall j | 0 <= j < i :: p[j] !in s
      decreases |p| - i
    {
      i := i + 1;
    }
  }

  lemma LastIn(p: seq<BlockRef>, s: set<BlockRef>) returns (i: nat)
    requires exists k :: 0 <= k < |p| && p[k] in s
    ensures i < |p| && p[i] in s && forall j | i < j < |p| :: p[j] !in s
  {
    i := |p| - 1;
    while p[i] !in s
      invariant i < |p| && forall j | i < j < |p| :: p[j] !in s
      decreases i
    {
      i := i - 1;
    }
  }

  lemma SplitAt(g: Graph, p: seq<BlockRef>, a: BlockRef, b: BlockRef, i: nat)
    requires PathFromTo(g, p, a, b) && i < |p|
    ensures PathFromTo(g, p[..i + 1], a, p[i])
    ensures PathFromTo(g, p[i..], p[i], b)
  {
  }

  lemma Join(g: Graph, p: seq<BlockRef>, q: seq<BlockRef>, a: BlockRef, b: BlockRef, c: BlockRef)
    requires PathFromTo(g, p, a, b) && PathFromTo(g, q, b, c)
    ensures PathFromTo(g, p + q[1..], a, c)
    ensures forall x | x in p + q[1..] :: x in p || x in q
  {
    var r := p + q[1..];
    forall i | 1 <= i < |r|
      ensures (r[i - 1], r[i]) in g.edges
    {
      if i >= |p| {
        assert r[i] == q[i - |p| + 1] && r[i - 1] == q[i - |p|];
      }
    }
  }

  lemma StepThen(g: Graph, a: BlockRef, q: seq<BlockRef>, b: BlockRef, c: BlockRef)
    requires PathFromTo(g, q, b, c) && a in g.nodes && (a, b) in g.edges
    ensures PathFromTo(g, [a] + q, a, c)
  {
    var r := [a] + q;
    assert forall i | 1 <= i < |r| :: r[i] == q[i - 1];
  }

  lemma ReachesTrans(g: Graph, a: BlockRef, b: BlockRef, c: BlockRef)
    requires Reaches(g, a, b) && Reaches(g, b, c)
    ensures Reaches(g, a, c)
  {
    var p :| PathFromTo(g, p, a, b);
    var q :| PathFromTo(g, q, b, c);
    Join(g, p, q, a, b, c);
  }

  // ---- dominance is a partial order whose up-sets are chains ----

  lemma DomTrans(g: Graph, root: BlockRef, a: BlockRef, b: BlockRef, c: BlockRef)
    requires Dominates(g, root, a, b) && Dominates(g, root, b, c)
    ensures Dominates(g, root, a, c)
  {
    forall p | PathFromTo(g, p, root, c)
      ensures a in p
    {
      var i :| 0 <= i < |p| && p[i] == b;
      SplitAt(g, p, root, c, i);
      assert a in p[..i + 1];
    }
  }

  lemma {:induction false} NoMutualDominance(g: Graph, root: BlockRef, a: BlockRef, b: BlockRef, p: seq<BlockRef>)
    requires a != b && Dominates(g, root, a, b) && Dominates(g, root, b, a)
    requires PathFromTo(g, p, root, a)
    ensures false
    decreases |p|
  {
    var j :| 0 <= j < |p| && p[j] == b;
    SplitAt(g, p, root, a, j);
    var i :| 0 <= i < |p[..j + 1]| && p[..j + 1][i] == a;
    SplitAt(g, p, root, a, i);
    NoMutualDominance(g, root, a, b, p[..i + 1]);
  }

  lemma DomAntisym(g: Graph, root: BlockRef, a: BlockRef, b: BlockRef)
    requires Dominates(g, root, a, b) && Dominates(g, root, b, a) && Reaches(g, root, a)
    ensures a == b
  {
    if a != b {
      var p :| PathFromTo(g, p, root, a);
      NoMutualDominance(g, root, a, b, p);
    }
  }

  /** Two dominators of one block are comparable. */
  lemma DomChain(g: Graph, root: BlockRef, a: BlockRef, b: BlockRef, c: BlockRef)
    requires Dominates(g, root, a, c) && Dominates(g, root, b, c) && Reaches(g, root, c)
    ensures Dominates(g, root, a, b) || Dominates(g, root, b, a)
  {
    if !Dominates(g, root, a, b) && !Dominates(g, root, b, a) {
      var p :| PathFromTo(g, p, root, c);
      var i := LastIn(p, {a, b});
      SplitAt(g, p, root, c, i);
      var other := if p[i] == a then b else a;
      var q :| PathFromTo(g, q, root, p[i]) && other !in q;
      Join(g, q, p[i..], root, p[i], c);
      assert false;
    }
  }

  /** If `s` strictly dominates `c` and `t` can be reached from `s` without `c`, `c` does not
      dominate `t`. */
  lemma DomCut(g: Graph, root: BlockRef, s: BlockRef, c: BlockRef, t: BlockRef, w: seq<BlockRef>)
    requires Dominates(g, root, s, c) && s != c && Reaches(g, root, s)
    requires PathFromTo(g, w, s, t) && c !in w
    ensures !Dominates(g, root, c, t)
  {
    var p :| PathFromTo(g, p, root, s);
    var i := FirstIn(p, {s});
    SplitAt(g, p, root, s, i);
    var q := p[..i + 1];
    if c in q {
      var j :| 0 <= j < |q| && q[j] == c;
      SplitAt(g, p, root, s, j);
      assert false;
    }
    Join(g, q, w, root, s, t);
    assert c !in q + w[1..];
  }

  /** Dominating a reachable block is in particular being able to reach it. */
  lemma DomReaches(g: Graph, root: BlockRef, a: BlockRef, b: BlockRef)
    requires Dominates(g, root, a, b) && Reaches(g, root, b)
    ensures Reaches(g, a, b)
  {
    var p :| PathFromTo(g, p, root, b);
    var i :| 0 <= i < |p| && p[i] == a;
    SplitAt(g, p, root, b, i);
  }

  lemma DomsShrink(g: Graph, root: BlockRef, a: BlockRef, b: BlockRef)
    requires a != b && Dominates(g, root, a, b) && Reaches(g, root, a) && b in g.nodes
    ensures Doms(g, root, a) < Doms(g, root, b)
  {
    forall d | d in Doms(g, root, a)
      ensures d in Doms(g, root, b)
    {
      DomTrans(g, root, d, a, b);
    }
    if b in Doms(g, root, a) {
      DomAntisym(g, root, a, b);
      assert false;
    }
    assert b in Doms(g, root, b);
  }

  lemma DominatorOfRoot(g: Graph, root: BlockRef)
    requires root in g.nodes
    ensures forall d | Dominates(g, root, d, root) :: d == root
  {
    assert PathFromTo(g, [root], root, root);
  }

  /** Any set holding a strict dominator of `b` holds a lowest one. */
  lemma {:induction false} LowestDominator(g: Graph, root: BlockRef, s: set<BlockRef>, b: BlockRef, seed: BlockRef)
    returns (a: BlockRef)
    requires Rooted(g, root) && b in g.nodes
    requires seed in s && seed in g.nodes && seed != b && Dominates(g, root, seed, b)
    ensures a in s && a in g.nodes && a != b && Dominates(g, root, a, b)
    ensures forall d | d in s && d in g.nodes && d != b && Dominates(g, root, d, b) :: Dominates(g, root, d, a)
    decreases |Doms(g, root, b)| - |Doms(g, root, seed)|
  {
    if d :| d in s && d in g.nodes && d != b && Dominates(g, root, d, b) && !Dominates(g, root, d, seed) {
      DomChain(g, root, d, seed, b);
      DomsShrink(g, root, seed, d);
      DomsShrink(g, root, d, b);
      SmallerSet(Doms(g, root, seed), Doms(g, root, d));
      SmallerSet(Doms(g, root, d), Doms(g, root, b));
      a := LowestDominator(g, root, s, b, d);
    } else {
      a := seed;
    }
  }

  lemma {:induction false} SmallerSet<T>(a: set<T>, b: set<T>)
    requires a < b
    ensures |a| < |b|
  {
    var x :| x in b && x !in a;
    SubsetSize(a, b - {x});
  }

  lemma {:induction false} SubsetSize<T>(a: set<T>, b: set<T>)
    requires a <= b
    ensures |a| <= |b|
  {
    if a != {} {
      var x :| x in a;
      SubsetSize(a - {x}, b - {x});
    }
  }

  /** A rooted graph has a dominator tree, so `ValidTree` is never an empty assumption. */
  lemma DominatorTreeExists(g: Graph, root: BlockRef) returns (t: Tree)
    requires Rooted(g, root)
    ensures ValidTree(g, t) && t.root == root
  {
    forall b | b in g.nodes && b != root
      ensures exists a :: a in g.nodes && IsIdom(g, root, a, b)
    {
      var a := LowestDominator(g, root, g.nodes, b, root);
      forall d | d != b && Dominates(g, root, d, b)
        ensures Dominates(g, root, d, a)
      {
        var p :| PathFromTo(g, p, root, b);
        assert d in p;
      }
      assert IsIdom(g, root, a, b);
    }
    var idom := map b | b in g.nodes - {root} :: var a :| a in g.nodes && IsIdom(g, root, a, b); a;
    var dom := set a, b | a in g.nodes && b in g.nodes && Dominates(g, root, a, b) :: (a, b);
    t := Tree(root, idom, dom);
  }

  // ---- post-dominance is dominance of the flipped graph ----

  function Rev(p: seq<BlockRef>): (r: seq<BlockRef>)
    ensures |r| == |p| && forall i | 0 <= i < |p| :: r[i] == p[|p| - 1 - i]
  {
    seq(|p|, i requires 0 <= i < |p| => p[|p| - 1 - i])
  }

  lemma FlipPath(g: Graph, p: seq<BlockRef>, a: BlockRef, b: BlockRef)
    requires PathFromTo(g, p, a, b)
    ensures PathFromTo(Flip(g), Rev(p), b, a)
    ensures forall x :: x in Rev(p) <==> x in p
  {
    var r := Rev(p);
    forall i | 1 <= i < |r|
      ensures (r[i - 1], r[i]) in Flip(g).edges
    {
      assert (p[|p| - 1 - i], p[|p| - i]) in g.edges;
    }
    assert forall i | 0 <= i < |p| :: p[i] == r[|p| - 1 - i];
  }

  lemma FlipFlip(g: Graph)
    ensures Flip(Flip(g)) == g
  {
    forall e | e in g.edges
      ensures e in Flip(Flip(g)).edges
    {
      assert (e.1, e.0) in Flip(g).edges;
    }
  }

  lemma PostDomIsFlippedDom(g: Graph, exit: BlockRef, a: BlockRef, b: BlockRef)
    ensures PostDominates(g, exit, a, b) <==> Dominates(Flip(g), exit, a, b)
  {
    if PostDominates(g, exit, a, b) {
      forall p | PathFromTo(Flip(g), p, exit, b)
        ensures a in p
      {
        FlipPath(Flip(g), p, exit, b);
        FlipFlip(g);
      }
    }
    if Dominates(Flip(g), exit, a, b) {
      forall p | PathFromTo(g, p, b, exit)
        ensures a in p
      {
        FlipPath(g, p, b, exit);
      }
    }
  }

  lemma FlipReaches(g: Graph, a: BlockRef, b: BlockRef)
    ensures Reaches(g, a, b) <==> Reaches(Flip(g), b, a)
  {
    FlipFlip(g);
    if Reaches(g, a, b) {
      var p :| PathFromTo(g, p, a, b);
      FlipPath(g, p, a, b);
    }
    if Reaches(Flip(g), b, a) {
      var p :| PathFromTo(Flip(g), p, b, a);
      FlipPath(Flip(g), p, b, a);
    }
  }

  lemma PostDomAntisym(g: Graph, exit: BlockRef, a: BlockRef, b: BlockRef)
    requires PostDominates(g, exit, a, b) && PostDominates(g, exit, b, a) && Reaches(g, a, exit)
    ensures a == b
  {
    PostDomIsFlippedDom(g, exit, a, b);
    PostDomIsFlippedDom(g, exit, b, a);
    FlipReaches(g, a, exit);
    DomAntisym(Flip(g), exit, a, b);
  }

  lemma TreeAnswers(g: Graph, t: Tree, a: BlockRef, b: BlockRef)
    requires ValidTree(g, t) && a in g.nodes && b in g.nodes
    ensures (a, b) in t.dom <==> Dominates(g, t.root, a, b)
  {
  }

  lemma PostTreeAnswers(g: Graph, t: Tree, a: BlockRef, b: BlockRef)
    requires ValidTree(Flip(g), t) && a in g.nodes && b in g.nodes
    ensures (a, b) in t.dom <==> PostDominates(g, t.root, a, b)
  {
    PostDomIsFlippedDom(g, t.root, a, b);
  }
}
