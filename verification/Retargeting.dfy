/** Retargeting the terminators of the delegate, one block after the other. */
module Retargeting {
  import opened Graphs
  import opened Ir
  import opened Slices
  import opened Arrivals
  import opened Delegates
  import opened DomBranches

  // ---- rewriting references ----

  function MapIncoming(phis: seq<Phi>, h: BlockRef -> BlockRef): (r: seq<Phi>)
    ensures |r| == |phis|
  {
    seq(|phis|, i requires 0 <= i < |phis| =>
      Phi(phis[i].id, seq(|phis[i].incoming|, k requires 0 <= k < |phis[i].incoming| =>
                        (h(phis[i].incoming[k].0), phis[i].incoming[k].1))))
  }

  /** No phi names a block of the original function. */
  ghost predicate ClonePhisOnly(phis: seq<Phi>) {
    forall i, k | 0 <= i < |phis| && 0 <= k < |phis[i].incoming| :: !phis[i].incoming[k].0.Orig?
  }

  /** Replacing original blocks in phis that name none changes nothing. */
  lemma NothingToReplace(phis: seq<Phi>, h: BlockRef -> BlockRef)
    requires ClonePhisOnly(phis) && forall r: BlockRef | !r.Orig? :: h(r) == r
    ensures MapIncoming(phis, h) == phis
  {
    var out := MapIncoming(phis, h);
    forall i | 0 <= i < |phis|
      ensures out[i] == phis[i]
    {
      assert out[i].incoming == phis[i].incoming;
    }
  }

  function Instead(a: BlockRef, b: BlockRef): BlockRef -> BlockRef {
    r => if r == a then b else r
  }

  /** Original blocks strictly below `parent` become `p`. */
  function AdoptBelow(dt: Tree, parent: BlockRef, p: BlockRef): BlockRef -> BlockRef {
    (r: BlockRef) => if r.Orig? && r != parent && (parent, r) in dt.dom then p else r
  }

  function MapRefs(rs: seq<BlockRef>, h: BlockRef -> BlockRef): (r: seq<BlockRef>)
    ensures |r| == |rs|
  {
    seq(|rs|, i requires 0 <= i < |rs| => h(rs[i]))
  }

  function ReplaceIn(b: Block, h: BlockRef -> BlockRef): Block {
    Block(MapIncoming(b.phis, h), b.body,
          if b.term.Some? then Some(b.term.value.WithSuccs(MapRefs(b.term.value.Succs(), h))) else None)
  }

  /** A target not yet rerouted, or already sent to the dead block for want of an attractor. */
  predicate Pends(m: map<BlockRef, BlockRef>, x: BlockRef, y: BlockRef) {
    y == x || (x.Orig? && x !in m && y == Dead)
  }

  ghost predicate PendsAll(m: map<BlockRef, BlockRef>, xs: seq<BlockRef>, ys: seq<BlockRef>) {
    |xs| == |ys| && forall i | 0 <= i < |xs| :: Pends(m, xs[i], ys[i])
  }

  ghost predicate TermPends(m: map<BlockRef, BlockRef>, t: Option<Term>, t': Option<Term>) {
    && t.Some? == t'.Some?
    && (t.Some? ==> |t'.value.Succs()| == |t.value.Succs()| && t'.value == t.value.WithSuccs(t'.value.Succs())
                    && PendsAll(m, t.value.Succs(), t'.value.Succs()))
  }

  /** Nothing but such targets differs between `bs` and `bs'`, outside `r`. */
  ghost predicate PendsOutside(m: map<BlockRef, BlockRef>, r: BlockRef, bs: map<BlockRef, Block>,
                               bs': map<BlockRef, Block>) {
    SameInsts(bs, bs') && forall q | q in bs && q != r :: TermPends(m, bs[q].term, bs'[q].term)
  }

  ghost predicate AllClonePhis(bs: map<BlockRef, Block>) {
    forall r | r in bs :: ClonePhisOnly(bs[r].phis)
  }

  lemma PendsAgain(m: map<BlockRef, BlockRef>, r: BlockRef, b0: map<BlockRef, Block>, b1: map<BlockRef, Block>,
                   b2: map<BlockRef, Block>)
    requires PendsOutside(m, r, b0, b1) && PendsOutside(m, r, b1, b2)
    ensures PendsOutside(m, r, b0, b2)
  {
    forall q | q in b0 && q != r
      ensures TermPends(m, b0[q].term, b2[q].term)
    {
      assert TermPends(m, b0[q].term, b1[q].term) && TermPends(m, b1[q].term, b2[q].term);
    }
  }

  lemma SamePends(m: map<BlockRef, BlockRef>, r: BlockRef, bs: map<BlockRef, Block>, bs': map<BlockRef, Block>)
    requires r in bs && r in bs' && bs' == bs[r := bs[r].(term := bs'[r].term)]
    ensures PendsOutside(m, r, bs, bs')
  {
    forall q | q in bs && q != r
      ensures TermPends(m, bs[q].term, bs'[q].term)
    {
      var t := bs[q].term;
      assert t.Some? ==> t.value.WithSuccs(t.value.Succs()) == t.value;
    }
  }

  lemma ReplacedPends(m: map<BlockRef, BlockRef>, bs: map<BlockRef, Block>, x: BlockRef)
    requires AllClonePhis(bs) && x.Orig? && x !in m
    ensures var bs' := map q | q in bs :: ReplaceIn(bs[q], Instead(x, Dead));
      SameInsts(bs, bs') && forall q | q in bs :: TermPends(m, bs[q].term, bs'[q].term)
  {
    forall q | q in bs
      ensures MapIncoming(bs[q].phis, Instead(x, Dead)) == bs[q].phis
    {
      NothingToReplace(bs[q].phis, Instead(x, Dead));
    }
  }

  /** The target of a sliced terminator once its turn has come. */
  function Settled(m: map<BlockRef, BlockRef>, x: BlockRef): BlockRef {
    if x.Orig? then TargetOf(m, x) else x
  }

  function SettledAll(m: map<BlockRef, BlockRef>, xs: seq<BlockRef>): (r: seq<BlockRef>)
    ensures |r| == |xs|
  {
    seq(|xs|, i requires 0 <= i < |xs| => Settled(m, xs[i]))
  }

  ghost predicate SameBut(t: Term, t': Option<Term>) {
    && t'.Some? && |t'.value.Succs()| == |t.Succs()|
    && t'.value == t.WithSuccs(t'.value.Succs())
  }

  ghost predicate TermPendsBut(m: map<BlockRef, BlockRef>, t: Term, t': Option<Term>, i: nat) {
    && i < |t.Succs()| && SameBut(t, t')
    && t'.value.Succs()[i] == Settled(m, t.Succs()[i])
    && forall k | 0 <= k < |t.Succs()| && k != i :: Pends(m, t.Succs()[k], t'.value.Succs()[k])
  }

  /** The first `i` targets are settled, the others pend. */
  ghost predicate TermSettles(m: map<BlockRef, BlockRef>, t: Term, t': Option<Term>, i: nat) {
    && SameBut(t, t') && i <= |t.Succs()|
    && (forall k | 0 <= k < i :: t'.value.Succs()[k] == Settled(m, t.Succs()[k]))
    && (forall k | i <= k < |t.Succs()| :: Pends(m, t.Succs()[k], t'.value.Succs()[k]))
  }

  /** One target is settled, the rest stays. */
  lemma OneSettled(m: map<BlockRef, BlockRef>, t: Term, i: nat, b: BlockRef)
    requires i < |t.Succs()| && b == Settled(m, t.Succs()[i])
    ensures TermPendsBut(m, t, Some(t.WithSuccs(t.Succs()[i := b])), i)
  {
  }

  /** One target is settled after the others have moved on. */
  lemma OneSettledLater(m: map<BlockRef, BlockRef>, t: Term, t1: Option<Term>, i: nat)
    requires TermPends(m, Some(t), t1) && i < |t.Succs()| && Settled(m, t.Succs()[i]) == Dead
    ensures t1.Some? && |t1.value.Succs()| == |t.Succs()|
    ensures TermPendsBut(m, t, Some(t1.value.WithSuccs(t1.value.Succs()[i := Dead])), i)
  {
  }

  lemma Unsettled(m: map<BlockRef, BlockRef>, t: Term, i: nat)
    requires i < |t.Succs()| && Settled(m, t.Succs()[i]) == t.Succs()[i]
    ensures TermPendsBut(m, t, Some(t), i)
  {
    assert t.WithSuccs(t.Succs()) == t;
  }

  /** When every block has moved on, and then `r` alone has changed. */
  lemma PendsApart(m: map<BlockRef, BlockRef>, r: BlockRef, b0: map<BlockRef, Block>, b1: map<BlockRef, Block>, b2: map<BlockRef, Block>)
    requires SameInsts(b0, b1) && (forall q | q in b0 :: TermPends(m, b0[q].term, b1[q].term))
    requires r in b1 && r in b2 && b2 == b1[r := b1[r].(term := b2[r].term)]
    ensures PendsOutside(m, r, b0, b2)
  {
    hide TermPends;
  }

  lemma SettlesOneMore(m: map<BlockRef, BlockRef>, t: Term, t1: Term, t2: Option<Term>, i: nat)
    requires TermSettles(m, t, Some(t1), i) && TermPendsBut(m, t1, t2, i)
    requires forall b | b in m :: m[b].Orig?
    ensures TermSettles(m, t, t2, i + 1)
  {
  }

  // ---- the rerouting loop ----

  /** What the loop relies on about a slice. */
  ghost predicate Reroutable(f: Function, s: Slice) {
    && Shaped(f) && Rooted(GraphOf(f), f.order[0])
    && s.blocks <= f.blocks.Keys
    && forall b | b in s.attractors :: s.attractors[b] in s.blocks
  }

  ghost predicate Pending(f: Function, s: Slice, b: BlockRef, t: Option<Term>)
    requires b in f.blocks && |f.order| > 0
  {
    exists t0 :: DomTerm(GraphOf(f), f.order[0], s.blocks, b, Below(GraphOf(f), f.order[0], f.order[0]), ClonedTerm(f, s, b), t0)
                 && TermPends(s.attractors, t0, t)
  }

  ghost predicate CloneInsts(f: Function, s: Slice, bs: map<BlockRef, Block>)
    requires s.blocks <= f.blocks.Keys
  {
    forall b | b in s.blocks ::
      && CloneOf(b) in bs && bs[CloneOf(b)].phis == ClonedBlock(f, s, b).phis
      && bs[CloneOf(b)].body == ClonedBlock(f, s, b).body
  }

  ghost predicate LoopState(f: Function, s: Slice, bbs: seq<BlockRef>, i: nat, bs: map<BlockRef, Block>)
    requires Reroutable(f, s) && Enumerates(bbs, s.blocks)
  {
    && CloneInsts(f, s, bs) && AllClonePhis(bs)
    && bs.Keys == (set b | b in s.blocks :: CloneOf(b)) + {Dead}
    && bs[Dead] == Block([], [], Some(Unreachable))
    && (forall j | 0 <= j < i && j < |bbs| :: Rerouted(f, s, bbs[j], bs[CloneOf(bbs[j])].term))
    && (forall j | i <= j < |bbs| :: Pending(f, s, bbs[j], bs[CloneOf(bbs[j])].term))
  }

  lemma SameDomBranches(f: Function, s: Slice, b: BlockRef)
    requires Reroutable(f, s) && b in f.blocks
    ensures var g, entry := GraphOf(f), f.order[0];
      forall c :: DomBranchOf(g, entry, s.blocks, b, f.blocks.Keys, c) <==>
                  DomBranchOf(g, entry, s.blocks, b, Below(g, entry, entry), c)
  {
    var g, entry := GraphOf(f), f.order[0];
    DominatorOfRoot(g, entry);
    forall c | c in g.nodes && c != entry
      ensures c in Below(g, entry, entry)
    {
    }
  }

  lemma DoneStays(f: Function, s: Slice, b: BlockRef, t: Option<Term>, t': Option<Term>)
    requires Reroutable(f, s) && b in f.blocks && Rerouted(f, s, b, t) && TermPends(s.attractors, t, t')
    ensures t' == t
  {
    if t.Some? {
      FallbackHasNoOriginal(s.attractors, f.blocks[b].term.value.BranchTargets());
      assert t'.value.Succs() == t.value.Succs();
      assert t.value.WithSuccs(t.value.Succs()) == t.value;
    }
  }

  lemma {:induction false} FallbackHasNoOriginal(m: map<BlockRef, BlockRef>, bs: seq<BlockRef>)
    requires forall b | b in m :: m[b].Orig?
    ensures Fallback(m, bs).Some? ==> Fallback(m, bs).value.Br? && !Fallback(m, bs).value.target.Orig?
  {
    if bs != [] {
      FallbackHasNoOriginal(m, bs[1..]);
    }
  }

  /** What the fallback makes of each kind of terminator: the false target of a branch is tried first. */
  lemma {:induction false} FallbackCases(m: map<BlockRef, BlockRef>, orig: Term)
    ensures orig.CondBr? && orig.ifFalse in m ==> Fallback(m, orig.BranchTargets()) == Some(Br(CloneOf(m[orig.ifFalse])))
    ensures orig.CondBr? && orig.ifFalse !in m && orig.ifTrue in m ==>
      Fallback(m, orig.BranchTargets()) == Some(Br(CloneOf(m[orig.ifTrue])))
    ensures orig.CondBr? && orig.ifFalse !in m && orig.ifTrue !in m ==> Fallback(m, orig.BranchTargets()) == None
    ensures orig.Br? ==> Fallback(m, orig.BranchTargets()) == if orig.target in m then Some(Br(CloneOf(m[orig.target]))) else None
    ensures !orig.Br? && !orig.CondBr? ==> Fallback(m, orig.BranchTargets()) == None
  {
    if orig.CondBr? {
      assert orig.BranchTargets()[1..] == [orig.ifTrue];
      FallbackOne(m, orig.ifTrue);
    } else if orig.Br? {
      FallbackOne(m, orig.target);
    }
  }

  lemma {:induction false} FallbackOne(m: map<BlockRef, BlockRef>, b: BlockRef)
    ensures Fallback(m, [b]) == if b in m then Some(Br(CloneOf(m[b]))) else None
  {
    assert [b][1..] == [];
  }

  lemma PendingSettles(m: map<BlockRef, BlockRef>, t0: Term, t: Term)
    requires TermPends(m, Some(t0), Some(t))
    ensures t.WithSuccs(SettledAll(m, t.Succs())) == t0.WithSuccs(SettledAll(m, t0.Succs()))
  {
    assert SettledAll(m, t.Succs()) == SettledAll(m, t0.Succs());
  }

  lemma OriginalsSettle(m: map<BlockRef, BlockRef>, bs: seq<BlockRef>)
    requires forall b | b in bs :: b.Orig?
    ensures SettledAll(m, bs) == TargetsOf(m, bs)
  {
  }

  lemma BranchSettles(f: Function, s: Slice, b: BlockRef, t: Term)
    requires Reroutable(f, s) && b in f.blocks && Pending(f, s, b, Some(t))
    ensures Rerouted(f, s, b, Some(t.WithSuccs(SettledAll(s.attractors, t.Succs()))))
  {
    var g, entry, m := GraphOf(f), f.order[0], s.attractors;
    SameDomBranches(f, s, b);
    var t0 :| DomTerm(g, entry, s.blocks, b, Below(g, entry, entry), ClonedTerm(f, s, b), t0) && TermPends(m, t0, Some(t));
    PendingSettles(m, t0.value, t);
    hide DomBranchOf, GraphOf, Rooted, TermPends, Pending, SettledAll;
    if s.Ends(b) {
      OriginalsSettle(m, t0.value.Succs());
    } else {
      CloneBranchSettles(m, t0.value);
    }
  }

  lemma CloneBranchSettles(m: map<BlockRef, BlockRef>, t: Term)
    requires t.Br? && !t.target.Orig?
    ensures t.WithSuccs(SettledAll(m, t.Succs())) == t
  {
    assert SettledAll(m, t.Succs()) == t.Succs();
  }

  lemma MissingSettles(f: Function, s: Slice, b: BlockRef)
    requires Reroutable(f, s) && b in f.blocks && Pending(f, s, b, None)
    ensures var orig := f.blocks[b].term.value;
      Rerouted(f, s, b, Fallback(s.attractors, orig.BranchTargets()))
  {
    SameDomBranches(f, s, b);
    hide NearestSliceDom, Below, GraphOf, Rooted;
  }

  lemma LoopStep(f: Function, s: Slice, bbs: seq<BlockRef>, i: nat, bs: map<BlockRef, Block>, bs': map<BlockRef, Block>)
    requires Reroutable(f, s) && Enumerates(bbs, s.blocks) && i < |bbs| && LoopState(f, s, bbs, i, bs)
    requires PendsOutside(s.attractors, CloneOf(bbs[i]), bs, bs')
    requires Rerouted(f, s, bbs[i], bs'[CloneOf(bbs[i])].term)
    ensures LoopState(f, s, bbs, i + 1, bs')
  {
    hide *;
    LoopParts(f, s, bbs, i, bs);
    FrameStays(f, s, bbs[i], bs, bs');
    forall j | 0 <= j < |bbs| && j != i
      ensures CloneOf(bbs[j]) in bs && CloneOf(bbs[j]) in bs'
      ensures TermPends(s.attractors, bs[CloneOf(bbs[j])].term, bs'[CloneOf(bbs[j])].term)
    {
      OtherPends(f, s, bbs, i, j, bs, bs');
    }
    forall j | 0 <= j < i
      ensures Rerouted(f, s, bbs[j], bs'[CloneOf(bbs[j])].term)
    {
      DoneStays(f, s, bbs[j], bs[CloneOf(bbs[j])].term, bs'[CloneOf(bbs[j])].term);
    }
    forall j | i < j < |bbs|
      ensures Pending(f, s, bbs[j], bs'[CloneOf(bbs[j])].term)
    {
      PendingStays(f, s, bbs[j], bs[CloneOf(bbs[j])].term, bs'[CloneOf(bbs[j])].term);
    }
    LoopFromParts(f, s, bbs, i + 1, bs');
  }

  lemma LoopParts(f: Function, s: Slice, bbs: seq<BlockRef>, i: nat, bs: map<BlockRef, Block>)
    requires Reroutable(f, s) && Enumerates(bbs, s.blocks) && LoopState(f, s, bbs, i, bs)
    ensures s.blocks <= f.blocks.Keys && |f.order| > 0 && (forall b | b in f.blocks :: b.Orig? && f.blocks[b].term.Some?)
    ensures forall j | 0 <= j < |bbs| :: bbs[j] in s.blocks && bbs[j] in f.blocks && CloneOf(bbs[j]) in bs
    ensures CloneInsts(f, s, bs) && AllClonePhis(bs)
    ensures bs.Keys == (set b | b in s.blocks :: CloneOf(b)) + {Dead} && bs[Dead] == Block([], [], Some(Unreachable))
    ensures forall j | 0 <= j < i && j < |bbs| :: Rerouted(f, s, bbs[j], bs[CloneOf(bbs[j])].term)
    ensures forall j | i <= j < |bbs| :: Pending(f, s, bbs[j], bs[CloneOf(bbs[j])].term)
  {
    hide Rerouted, Pending, CloneInsts, AllClonePhis, Rooted, GraphOf;
  }

  lemma LoopFromParts(f: Function, s: Slice, bbs: seq<BlockRef>, i: nat, bs: map<BlockRef, Block>)
    requires Reroutable(f, s) && Enumerates(bbs, s.blocks)
    requires s.blocks <= f.blocks.Keys && |f.order| > 0 && (forall b | b in f.blocks :: b.Orig? && f.blocks[b].term.Some?)
    requires forall j | 0 <= j < |bbs| :: bbs[j] in f.blocks && CloneOf(bbs[j]) in bs
    requires CloneInsts(f, s, bs) && AllClonePhis(bs)
    requires bs.Keys == (set b | b in s.blocks :: CloneOf(b)) + {Dead} && bs[Dead] == Block([], [], Some(Unreachable))
    requires forall j | 0 <= j < i && j < |bbs| :: Rerouted(f, s, bbs[j], bs[CloneOf(bbs[j])].term)
    requires forall j | i <= j < |bbs| :: Pending(f, s, bbs[j], bs[CloneOf(bbs[j])].term)
    ensures LoopState(f, s, bbs, i, bs)
  {
    hide Rerouted, Pending, CloneInsts, AllClonePhis, Reroutable, Enumerates;
  }

  /** What the loop does not change. */
  lemma FrameStays(f: Function, s: Slice, b: BlockRef, bs: map<BlockRef, Block>, bs': map<BlockRef, Block>)
    requires s.blocks <= f.blocks.Keys && CloneInsts(f, s, bs) && AllClonePhis(bs) && b in s.blocks && b.Orig?
    requires Dead in bs && bs[Dead] == Block([], [], Some(Unreachable)) && PendsOutside(s.attractors, CloneOf(b), bs, bs')
    ensures CloneInsts(f, s, bs') && AllClonePhis(bs') && bs'.Keys == bs.Keys && bs'[Dead] == Block([], [], Some(Unreachable))
  {
    hide ClonedBlock, ClonePhisOnly;
  }

  lemma OtherPends(f: Function, s: Slice, bbs: seq<BlockRef>, i: nat, j: nat, bs: map<BlockRef, Block>,
                   bs': map<BlockRef, Block>)
    requires Enumerates(bbs, s.blocks) && i < |bbs| && j < |bbs| && i != j && bbs[i].Orig? && bbs[j].Orig?
    requires PendsOutside(s.attractors, CloneOf(bbs[i]), bs, bs') && CloneOf(bbs[j]) in bs
    ensures CloneOf(bbs[j]) in bs' && TermPends(s.attractors, bs[CloneOf(bbs[j])].term, bs'[CloneOf(bbs[j])].term)
  {
    hide TermPends;
  }

  lemma PendingStays(f: Function, s: Slice, b: BlockRef, t: Option<Term>, t': Option<Term>)
    requires b in f.blocks && |f.order| > 0 && Pending(f, s, b, t) && TermPends(s.attractors, t, t')
    ensures Pending(f, s, b, t')
  {
    hide DomTerm;
    var g, entry := GraphOf(f), f.order[0];
    var t0 :| DomTerm(g, entry, s.blocks, b, Below(g, entry, entry), ClonedTerm(f, s, b), t0) && TermPends(s.attractors, t0, t);
    assert TermPends(s.attractors, t0, t');
  }

  // ---- the delegate as built ----

  function CloneAll(bbs: seq<BlockRef>): (r: seq<BlockRef>)
    ensures |r| == |bbs|
  {
    seq(|bbs|, i requires 0 <= i < |bbs| => CloneOf(bbs[i]))
  }

  /** Exactly the clones of the slice blocks, each a copy of the sliced instructions. */
  ghost predicate Populated(f: Function, s: Slice, bs: map<BlockRef, Block>)
    requires s.blocks <= f.blocks.Keys
  {
    && bs.Keys == (set b | b in s.blocks :: CloneOf(b))
    && forall b | b in s.blocks :: bs[CloneOf(b)] == ClonedBlock(f, s, b)
  }

  /** The delegate after `rerouteBranches`. */
  ghost predicate BranchesRerouted(f: Function, s: Slice, bs: map<BlockRef, Block>)
    requires Reroutable(f, s)
  {
    && CloneInsts(f, s, bs)
    && (forall b | b in s.blocks :: Rerouted(f, s, b, bs[CloneOf(b)].term))
    && bs.Keys == (set b | b in s.blocks :: CloneOf(b)) + (if Dead in bs then {Dead} else {})
    && (Dead in bs ==> bs[Dead] == Block([], [], Some(Unreachable)))
    && (Dead in bs <==> exists b :: b in s.blocks && Dead in bs[CloneOf(b)].Succs())
  }

  lemma LoopStarts(f: Function, s: Slice, bbs: seq<BlockRef>, start: map<BlockRef, Block>, bs: map<BlockRef, Block>)
    requires Reroutable(f, s) && Enumerates(bbs, s.blocks) && Populated(f, s, start) && AllClonePhis(start)
    requires var g, entry := GraphOf(f), f.order[0]; DomBranched(g, entry, s.blocks, Below(g, entry, entry), start, bs)
    ensures LoopState(f, s, bbs, 0, bs[Dead := Block([], [], Some(Unreachable))])
  {
    hide Rooted, DomTerm;
    var g, entry, m := GraphOf(f), f.order[0], s.attractors;
    forall b | b in s.blocks
      ensures Pending(f, s, b, bs[CloneOf(b)].term)
    {
      var t := bs[CloneOf(b)].term;
      assert start[CloneOf(b)].term == ClonedTerm(f, s, b);
      assert t.Some? ==> t.value.WithSuccs(t.value.Succs()) == t.value;
      assert TermPends(m, t, t);
    }
  }

  /** What one turn of the loop may assume. */
  lemma LoopFacts(f: Function, s: Slice, bbs: seq<BlockRef>, i: nat, bs: map<BlockRef, Block>)
    requires Reroutable(f, s) && Enumerates(bbs, s.blocks) && LoopState(f, s, bbs, i, bs) && i <= |bbs|
    ensures AllClonePhis(bs)
    ensures forall b | b in s.attractors :: s.attractors[b].Orig? && CloneOf(s.attractors[b]) in bs
    ensures i < |bbs| ==> bbs[i] in f.blocks && bbs[i].Orig? && f.blocks[bbs[i]].term.Some? && CloneOf(bbs[i]) in bs
    ensures Dead in bs
  {
  }

  /** One turn: a missing terminator is replaced by the fallback, another one is retargeted. */
  lemma LoopTurn(f: Function, s: Slice, bbs: seq<BlockRef>, i: nat, bs: map<BlockRef, Block>, bs': map<BlockRef, Block>)
    requires Reroutable(f, s) && Enumerates(bbs, s.blocks) && LoopState(f, s, bbs, i, bs) && i < |bbs|
    requires bbs[i] in f.blocks && f.blocks[bbs[i]].term.Some? && CloneOf(bbs[i]) in bs
    requires PendsOutside(s.attractors, CloneOf(bbs[i]), bs, bs')
    requires var t, t' := bs[CloneOf(bbs[i])].term, bs'[CloneOf(bbs[i])].term; var orig := f.blocks[bbs[i]].term.value;
      if t.None? then t' == Fallback(s.attractors, orig.BranchTargets())
      else t' == Some(t.value.WithSuccs(SettledAll(s.attractors, t.value.Succs())))
    ensures LoopState(f, s, bbs, i + 1, bs')
  {
    hide Rerouted, Pending, PendsOutside, DomTerm;
    if bs[CloneOf(bbs[i])].term.None? {
      MissingSettles(f, s, bbs[i]);
    } else {
      BranchSettles(f, s, bbs[i], bs[CloneOf(bbs[i])].term.value);
    }
    LoopStep(f, s, bbs, i, bs, bs');
  }

  lemma LoopSkip(f: Function, s: Slice, bbs: seq<BlockRef>, i: nat, bs: map<BlockRef, Block>)
    requires Reroutable(f, s) && Enumerates(bbs, s.blocks) && LoopState(f, s, bbs, i, bs) && i >= |bbs|
    ensures LoopState(f, s, bbs, i + 1, bs)
  {
  }

  lemma NothingAboveRoot(g: Graph, root: BlockRef, bbs: set<BlockRef>)
    requires root in g.nodes
    ensures NearestOpt(g, root, bbs, None, root)
  {
    DominatorOfRoot(g, root);
  }

  lemma LoopEnds(f: Function, s: Slice, bbs: seq<BlockRef>, bs: map<BlockRef, Block>)
    requires Reroutable(f, s) && Enumerates(bbs, s.blocks) && LoopState(f, s, bbs, |bbs| + 1, bs)
    ensures CloneInsts(f, s, bs) && (forall b | b in s.blocks :: Rerouted(f, s, b, bs[CloneOf(b)].term))
    ensures bs.Keys == (set b | b in s.blocks :: CloneOf(b)) + {Dead}
    ensures bs[Dead] == Block([], [], Some(Unreachable))
    ensures (exists r :: r in bs && Dead in bs[r].Succs()) <==> exists b :: b in s.blocks && Dead in bs[CloneOf(b)].Succs()
  {
    hide Rerouted;
    forall b | b in s.blocks
      ensures Rerouted(f, s, b, bs[CloneOf(b)].term)
    {
      assert b in bbs;
    }
  }

  /** What is left once the unreachable block is dropped, unless some branch leads there. */
  lemma LoopLeaves(f: Function, s: Slice, bbs: seq<BlockRef>, bs: map<BlockRef, Block>, used: bool, bs': map<BlockRef, Block>)
    requires Reroutable(f, s) && Enumerates(bbs, s.blocks) && LoopState(f, s, bbs, |bbs| + 1, bs)
    requires (used <==> exists r :: r in bs && Dead in bs[r].Succs()) && bs' == if used then bs else bs - {Dead}
    ensures BranchesRerouted(f, s, bs') && (Dead in bs' <==> used)
    ensures Dead in bs' <==> exists b :: b in s.blocks && CloneOf(b) in bs' && Dead in bs'[CloneOf(b)].Succs()
  {
    LoopEnds(f, s, bbs, bs);
    BlocksOriginal(f, s);
    hide *;
    WithoutDead(s, bs, used, bs');
    SameClones(f, s, bs, bs');
    LeavesRerouted(f, s, bs');
  }

  lemma BlocksOriginal(f: Function, s: Slice)
    requires Reroutable(f, s)
    ensures s.blocks <= f.blocks.Keys && |f.order| > 0
    ensures forall b | b in s.blocks :: b.Orig? && f.blocks[b].term.Some?
  {
    hide Rooted, GraphOf;
  }

  lemma WithoutDead(s: Slice, bs: map<BlockRef, Block>, used: bool, bs': map<BlockRef, Block>)
    requires (forall b | b in s.blocks :: b.Orig?) && bs.Keys == (set b | b in s.blocks :: CloneOf(b)) + {Dead}
    requires bs' == if used then bs else bs - {Dead}
    ensures forall b | b in s.blocks :: CloneOf(b) in bs && CloneOf(b) in bs' && bs'[CloneOf(b)] == bs[CloneOf(b)]
    ensures bs'.Keys == (set b | b in s.blocks :: CloneOf(b)) + (if used then {Dead} else {})
    ensures (Dead in bs' <==> used) && (used ==> bs' == bs)
  {
    forall b | b in s.blocks
      ensures CloneOf(b) in bs && CloneOf(b) in bs' && bs'[CloneOf(b)] == bs[CloneOf(b)]
    {
      assert CloneOf(b) in bs.Keys;
    }
  }

  lemma SameClones(f: Function, s: Slice, bs: map<BlockRef, Block>, bs': map<BlockRef, Block>)
    requires s.blocks <= f.blocks.Keys && CloneInsts(f, s, bs)
    requires forall b | b in s.blocks :: CloneOf(b) in bs && CloneOf(b) in bs' && bs'[CloneOf(b)] == bs[CloneOf(b)]
    ensures CloneInsts(f, s, bs')
  {
    hide ClonedBlock, CloneOf;
  }

  lemma LeavesRerouted(f: Function, s: Slice, bs: map<BlockRef, Block>)
    requires Reroutable(f, s) && s.blocks <= f.blocks.Keys && |f.order| > 0
    requires forall b | b in s.blocks :: f.blocks[b].term.Some? && CloneOf(b) in bs
    requires CloneInsts(f, s, bs) && (forall b | b in s.blocks :: Rerouted(f, s, b, bs[CloneOf(b)].term))
    requires bs.Keys == (set b | b in s.blocks :: CloneOf(b)) + (if Dead in bs then {Dead} else {})
    requires Dead in bs ==> bs[Dead] == Block([], [], Some(Unreachable))
    requires Dead in bs <==> exists b :: b in s.blocks && Dead in bs[CloneOf(b)].Succs()
    ensures BranchesRerouted(f, s, bs)
  {
    hide Reroutable, Rerouted, CloneInsts;
  }
}
