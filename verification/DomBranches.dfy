/** Adding branches along the dominator tree. */
module DomBranches {
  import opened Graphs
  import opened Ir
  import opened Arrivals
  import opened Delegates

  // ---- the dominator tree as a tree of children ----

  ghost predicate ValidChildren(t: Tree, nodes: set<BlockRef>, children: map<BlockRef, seq<BlockRef>>) {
    && children.Keys == nodes
    && (forall b | b in children :: Distinct(children[b]))
    && (forall b, c | b in children :: c in children[b] <==> c in t.idom && t.idom[c] == b)
  }

  /** The blocks `b` strictly dominates. */
  ghost function Below(g: Graph, entry: BlockRef, b: BlockRef): set<BlockRef> {
    set x | x in g.nodes && x != b && Dominates(g, entry, b, x)
  }

  ghost function AtOrBelow(g: Graph, entry: BlockRef, bs: seq<BlockRef>): set<BlockRef> {
    set x, i | 0 <= i < |bs| && x in g.nodes && Dominates(g, entry, bs[i], x) :: x
  }

  /** `p` is the nearest slice block strictly above `b`, if there is one. */
  ghost predicate NearestOpt(g: Graph, entry: BlockRef, bbs: set<BlockRef>, p: Option<BlockRef>, b: BlockRef) {
    match p
    case Some(p) => NearestSliceDom(g, entry, bbs, p, b)
    case None => forall d | d in bbs && d != b :: !Dominates(g, entry, d, b)
  }

  lemma BelowShrinks(g: Graph, entry: BlockRef, b: BlockRef, c: BlockRef)
    requires Rooted(g, entry) && IsIdom(g, entry, b, c) && c in g.nodes
    ensures Below(g, entry, c) < Below(g, entry, b)
  {
    forall x | x in Below(g, entry, c)
      ensures x in Below(g, entry, b)
    {
      DomTrans(g, entry, b, c, x);
      if x == b {
        DomAntisym(g, entry, b, c);
      }
    }
    assert c in Below(g, entry, b) && c !in Below(g, entry, c);
  }

  lemma ParentOfChild(g: Graph, entry: BlockRef, bbs: set<BlockRef>, cur: BlockRef, c: BlockRef,
                      above: Option<BlockRef>, parent: Option<BlockRef>)
    requires Rooted(g, entry) && IsIdom(g, entry, cur, c)
    requires cur !in bbs ==> NearestOpt(g, entry, bbs, above, cur)
    requires parent == if cur in bbs then Some(cur) else above
    ensures NearestOpt(g, entry, bbs, parent, c)
  {
    if parent.Some? && cur !in bbs {
      DomTrans(g, entry, parent.value, cur, c);
      if parent.value == c {
        DomAntisym(g, entry, cur, c);
      }
    }
  }

  /** The subtrees of two children are disjoint. */
  lemma SubtreesApart(g: Graph, entry: BlockRef, cur: BlockRef, c: BlockRef, d: BlockRef)
    requires Rooted(g, entry) && c in g.nodes && d in g.nodes && c != d
    requires IsIdom(g, entry, cur, c) && IsIdom(g, entry, cur, d)
    ensures forall x | x in g.nodes && Dominates(g, entry, c, x) :: !Dominates(g, entry, d, x)
  {
    forall x | x in g.nodes && Dominates(g, entry, c, x) && Dominates(g, entry, d, x)
      ensures false
    {
      DomChain(g, entry, c, d, x);
      if Dominates(g, entry, c, d) {
        DomAntisym(g, entry, c, cur);
      } else {
        DomAntisym(g, entry, d, cur);
      }
    }
  }

  /** What is strictly below a block is at or below one of its children. */
  lemma {:induction false} BelowAChild(g: Graph, t: Tree, cur: BlockRef, x: BlockRef) returns (c: BlockRef)
    requires ValidTree(g, t) && x in Below(g, t.root, cur) && cur in g.nodes
    ensures c in t.idom && t.idom[c] == cur && Dominates(g, t.root, c, x)
    decreases Doms(g, t.root, x)
  {
    if x == t.root {
      DominatorOfRoot(g, t.root);
      assert false;
    }
    var y := t.idom[x];
    if y == cur {
      c := x;
    } else {
      DomsShrink(g, t.root, y, x);
      c := BelowAChild(g, t, cur, y);
      DomTrans(g, t.root, c, y, x);
    }
  }

  lemma DomTermCompose(g: Graph, entry: BlockRef, bbs: set<BlockRef>, b: BlockRef, d1: set<BlockRef>, d2: set<BlockRef>,
                       t0: Option<Term>, t1: Option<Term>, t2: Option<Term>)
    requires DomTerm(g, entry, bbs, b, d1, t0, t1) && DomTerm(g, entry, bbs, b, d2, t1, t2)
    ensures DomTerm(g, entry, bbs, b, d1 + d2, t0, t2)
  {
    hide NearestSliceDom;
    assert forall c :: DomBranchOf(g, entry, bbs, b, d1, c) || DomBranchOf(g, entry, bbs, b, d2, c)
                  <==> DomBranchOf(g, entry, bbs, b, d1 + d2, c);
  }

  lemma OneMoreSubtree(g: Graph, entry: BlockRef, kids: seq<BlockRef>, i: nat)
    requires i < |kids| && kids[i] in g.nodes
    ensures AtOrBelow(g, entry, kids[..i + 1]) == AtOrBelow(g, entry, kids[..i]) + Below(g, entry, kids[i]) + {kids[i]}
  {
    var c := kids[i];
    assert Dominates(g, entry, c, c);
    assert kids[..i + 1][i] == c;
    forall x | x in AtOrBelow(g, entry, kids[..i + 1])
      ensures x in AtOrBelow(g, entry, kids[..i]) + Below(g, entry, c) + {c}
    {
      var j :| 0 <= j < i + 1 && Dominates(g, entry, kids[..i + 1][j], x);
      if j < i {
        assert kids[..i][j] == kids[j];
      }
    }
    forall x | x in AtOrBelow(g, entry, kids[..i])
      ensures x in AtOrBelow(g, entry, kids[..i + 1])
    {
      var j :| 0 <= j < i && Dominates(g, entry, kids[..i][j], x);
      assert kids[..i + 1][j] == kids[..i][j];
    }
  }

  /** What the loop over the children `kids` of `cur` needs at the `i`-th. */
  lemma KidFacts(g: Graph, t: Tree, bbs: set<BlockRef>, children: map<BlockRef, seq<BlockRef>>, cur: BlockRef, i: nat,
                 above: Option<BlockRef>, parent: Option<BlockRef>, visited: set<BlockRef>)
    requires ValidTree(g, t) && ValidChildren(t, g.nodes, children) && cur in g.nodes && i < |children[cur]|
    requires cur !in bbs ==> NearestOpt(g, t.root, bbs, above, cur)
    requires parent == if cur in bbs then Some(cur) else above
    requires visited !! Below(g, t.root, cur)
    ensures children[cur][i] in g.nodes
    ensures var kids := children[cur]; var c := kids[i]; var seen := visited + AtOrBelow(g, t.root, kids[..i]);
      && c in g.nodes && NearestOpt(g, t.root, bbs, parent, c)
      && c !in seen && seen + {c} !! Below(g, t.root, c)
      && Below(g, t.root, c) < Below(g, t.root, cur)
      && AtOrBelow(g, t.root, kids[..i + 1]) == AtOrBelow(g, t.root, kids[..i]) + Below(g, t.root, c) + {c}
  {
    hide Rooted;
    var kids := children[cur];
    var c := kids[i];
    assert c in children[cur] && c in t.idom;
    OneMoreSubtree(g, t.root, kids, i);
    assert IsIdom(g, t.root, cur, c) by { assert t.idom[c] == cur; }
    ParentOfChild(g, t.root, bbs, cur, c, above, parent);
    BelowShrinks(g, t.root, cur, c);
    assert c in Below(g, t.root, cur);
    forall j | 0 <= j < i
      ensures forall x | x in g.nodes && Dominates(g, t.root, c, x) :: !Dominates(g, t.root, kids[j], x)
    {
      assert kids[j] in children[cur] && t.idom[kids[j]] == cur;
      SubtreesApart(g, t.root, cur, c, kids[j]);
    }
  }

  lemma AllKids(g: Graph, t: Tree, children: map<BlockRef, seq<BlockRef>>, cur: BlockRef)
    requires ValidTree(g, t) && ValidChildren(t, g.nodes, children) && cur in g.nodes
    ensures AtOrBelow(g, t.root, children[cur]) == Below(g, t.root, cur)
  {
    var kids := children[cur];
    forall x | x in Below(g, t.root, cur)
      ensures x in AtOrBelow(g, t.root, kids)
    {
      var c := BelowAChild(g, t, cur, x);
      assert c in kids;
    }
    forall x | x in AtOrBelow(g, t.root, kids)
      ensures x in Below(g, t.root, cur)
    {
      var i :| 0 <= i < |kids| && Dominates(g, t.root, kids[i], x);
      assert kids[i] in children[cur] && t.idom[kids[i]] == cur;
      DomTrans(g, t.root, cur, kids[i], x);
      if x == cur {
        DomAntisym(g, t.root, kids[i], cur);
      }
    }
  }

  // ---- what a visit of part of the tree does to the delegate ----

  ghost predicate SameInsts(bs: map<BlockRef, Block>, bs': map<BlockRef, Block>) {
    && bs.Keys == bs'.Keys
    && forall r | r in bs :: bs'[r].phis == bs[r].phis && bs'[r].body == bs[r].body
  }

  ghost predicate DomBranched(g: Graph, entry: BlockRef, bbs: set<BlockRef>, done: set<BlockRef>,
                              bs: map<BlockRef, Block>, bs': map<BlockRef, Block>)
  {
    && SameInsts(bs, bs')
    && forall b | b in bbs && CloneOf(b) in bs ::
         DomTerm(g, entry, bbs, b, done, bs[CloneOf(b)].term, bs'[CloneOf(b)].term)
  }

  lemma DomBranchedCompose(g: Graph, entry: BlockRef, bbs: set<BlockRef>, d1: set<BlockRef>, d2: set<BlockRef>,
                           b0: map<BlockRef, Block>, b1: map<BlockRef, Block>, b2: map<BlockRef, Block>)
    requires DomBranched(g, entry, bbs, d1, b0, b1) && DomBranched(g, entry, bbs, d2, b1, b2)
    ensures DomBranched(g, entry, bbs, d1 + d2, b0, b2)
  {
    hide DomTerm;
    forall b | b in bbs && CloneOf(b) in b0
      ensures DomTerm(g, entry, bbs, b, d1 + d2, b0[CloneOf(b)].term, b2[CloneOf(b)].term)
    {
      var c := CloneOf(b);
      DomTermCompose(g, entry, bbs, b, d1, d2, b0[c].term, b1[c].term, b2[c].term);
    }
  }

  lemma SameKeys(g: Graph, entry: BlockRef, bbs: set<BlockRef>, done: set<BlockRef>,
                 bs: map<BlockRef, Block>, bs': map<BlockRef, Block>)
    requires DomBranched(g, entry, bbs, done, bs, bs')
    ensures bs.Keys == bs'.Keys
  {
  }

  lemma NothingBranched(g: Graph, entry: BlockRef, bbs: set<BlockRef>, bs: map<BlockRef, Block>)
    ensures DomBranched(g, entry, bbs, {}, bs, bs)
  {
  }

  function WithBranch(bs: map<BlockRef, Block>, p: BlockRef, c: BlockRef): map<BlockRef, Block>
    requires p in bs
  {
    if bs[p].term.None? then bs[p := bs[p].(term := Some(Br(c)))] else bs
  }

  /** The branch from the nearest slice dominator of one child. */
  function BranchToChild(bs: map<BlockRef, Block>, bbs: set<BlockRef>, parent: Option<BlockRef>, child: BlockRef)
    : map<BlockRef, Block>
    requires child in bbs && parent.Some? ==> CloneOf(parent.value) in bs
  {
    if child in bbs && parent.Some? then WithBranch(bs, CloneOf(parent.value), CloneOf(child)) else bs
  }

  lemma ChildBranched(g: Graph, entry: BlockRef, bbs: set<BlockRef>, bs: map<BlockRef, Block>,
                      parent: Option<BlockRef>, child: BlockRef)
    requires Rooted(g, entry) && bbs <= g.nodes && (forall b | b in bbs :: b.Orig?)
    requires NearestOpt(g, entry, bbs, parent, child)
    requires forall b | b in bbs :: CloneOf(b) in bs
    ensures DomBranched(g, entry, bbs, {child}, bs, BranchToChild(bs, bbs, parent, child))
  {
    var bs' := BranchToChild(bs, bbs, parent, child);
    forall b | b in bbs && CloneOf(b) in bs
      ensures DomTerm(g, entry, bbs, b, {child}, bs[CloneOf(b)].term, bs'[CloneOf(b)].term)
    {
      if NearestSliceDom(g, entry, bbs, b, child) {
        if parent.Some? {
          NearestUnique(g, entry, bbs, b, parent.value, child);
        }
        assert child in bbs ==> DomBranchOf(g, entry, bbs, b, {child}, child);
      }
    }
  }

  lemma NearestInSlice(g: Graph, entry: BlockRef, bbs: set<BlockRef>, p: BlockRef, c: BlockRef)
    requires NearestOpt(g, entry, bbs, Some(p), c)
    ensures p in bbs
  {
  }

  /** Everything one child adds: what lies below it, then the child itself. */
  lemma KidBranched(g: Graph, entry: BlockRef, bbs: set<BlockRef>, d0: set<BlockRef>, d1: set<BlockRef>,
                    parent: Option<BlockRef>, child: BlockRef,
                    b0: map<BlockRef, Block>, b1: map<BlockRef, Block>, b2: map<BlockRef, Block>)
    requires Rooted(g, entry) && bbs <= g.nodes && (forall b | b in bbs :: b.Orig?)
    requires NearestOpt(g, entry, bbs, parent, child) && forall b | b in bbs :: CloneOf(b) in b0
    requires DomBranched(g, entry, bbs, d0, b0, b1) && DomBranched(g, entry, bbs, d1, b1, b2)
    ensures DomBranched(g, entry, bbs, d0 + d1 + {child}, b0, BranchToChild(b2, bbs, parent, child))
  {
    if parent.Some? {
      NearestInSlice(g, entry, bbs, parent.value, child);
    }
    hide NearestOpt, DomTerm;
    DomBranchedCompose(g, entry, bbs, d0, d1, b0, b1, b2);
    ChildBranched(g, entry, bbs, b2, parent, child);
    DomBranchedCompose(g, entry, bbs, d0 + d1, {child}, b0, b2, BranchToChild(b2, bbs, parent, child));
  }
}
