/** Where the blocks of a delegate lead, said of the branches themselves. */
module Terminators {
  import opened Graphs
  import opened Ir
  import opened Gates
  import opened Attractors
  import opened Slices
  import opened Arrivals
  import opened Delegates
  import opened SliceFacts
  import opened Retargeting
  import opened Rerouting

  lemma TargetsAt(m: map<BlockRef, BlockRef>, t: Term, i: nat)
    requires i < |t.Succs()|
    ensures var t' := t.WithSuccs(TargetsOf(m, t.Succs()));
      && |t'.Succs()| == |t.Succs()| && (t'.Br? <==> t.Br?) && (t'.CondBr? <==> t.CondBr?) && (t'.Switch? <==> t.Switch?)
      && t'.Succs()[i] == if t.Succs()[i] in m then CloneOf(m[t.Succs()[i]]) else Dead
  {
  }

  lemma EndsReroutes(f: Function, s: Slice, b: BlockRef, t: Option<Term>)
    requires b in f.blocks && f.blocks[b].term.Some? && |f.order| > 0 && s.Ends(b) && Rerouted(f, s, b, t)
    ensures t == Some(f.blocks[b].term.value.WithSuccs(TargetsOf(s.attractors, f.blocks[b].Succs())))
  {
    hide DomBranchOf, TargetsOf;
  }

  lemma SliceEnds(s: Slice, b: BlockRef)
    ensures s.Ends(b) <==> b.Orig? && Res(TermId(b.b)) in s.deps
  {
  }

  lemma LoadedKind(b: Block, args: seq<nat>, base: nat)
    requires b.term.Some?
    ensures var t, t' := b.term.value, LoadBlock(b, args, base).term;
      t'.Some? && t'.value.Succs() == t.Succs() && (t.Br? ==> t'.value == t)
    ensures var t, t' := b.term.value, LoadBlock(b, args, base).term;
      (t'.value.Br? <==> t.Br?) && (t'.value.CondBr? <==> t.CondBr?) && (t'.value.Switch? <==> t.Switch?)
  {
    hide LoadPhis, LoadBody;
  }

  /** A sliced terminator stays of its kind; each of its targets is the clone of the attractor of the original target,
      or the unreachable block if that has none. */
  lemma SlicedBranchLeads(f: Function, s: Slice, args: seq<nat>, base: nat, bs: map<BlockRef, Block>, b: nat, i: nat)
    requires Shaped(f) && s.blocks <= f.blocks.Keys && IsBuilt(f, s, args, base, bs)
    requires Orig(b) in s.blocks && Orig(b) != s.Home() && Res(TermId(b)) in s.deps && i < |f.blocks[Orig(b)].Succs()|
    ensures CloneOf(Orig(b)) in bs && bs[CloneOf(Orig(b))].term.Some?
    ensures var t, t' := f.blocks[Orig(b)].term.value, bs[CloneOf(Orig(b))].term.value; var a := t.Succs()[i];
      && (t'.Br? <==> t.Br?) && (t'.CondBr? <==> t.CondBr?) && (t'.Switch? <==> t.Switch?) && |t'.Succs()| == |t.Succs()|
      && t'.Succs()[i] == if a in s.attractors then CloneOf(s.attractors[a]) else Dead
  {
    hide *;
    CloneIsBuilt(f, s, args, base, bs, Orig(b));
    SliceEnds(s, Orig(b));
    var t := CloneForm(f, s, args, base, Orig(b), bs[CloneOf(Orig(b))]);
    EndsReroutes(f, s, Orig(b), t);
    BlockEnds(f.blocks[Orig(b)]);
    TargetsAt(s.attractors, f.blocks[Orig(b)].term.value, i);
    LoadedKind(ClonedBlock(f, s, Orig(b)).(term := t), args, base);
  }

  lemma BlockEnds(b: Block)
    ensures b.term.Some? ==> b.Succs() == b.term.value.Succs()
  {
  }

  /** A terminator that is not sliced becomes a branch to a slice block whose nearest slice block above is `b`, if `b`
      strictly dominates a slice block.  Otherwise it is a branch to the attractor of the false target, or, if that has
      none, of the true one; a switch then leaves nothing. */
  lemma UnslicedBranchLeads(f: Function, exit: BlockRef, preds: map<BlockRef, seq<Edge>>, s: Slice, args: seq<nat>, base: nat,
                            bs: map<BlockRef, Block>, b: nat)
    requires Standing(f, exit, preds, s) && Shaped(f) && s.blocks <= f.blocks.Keys && IsBuilt(f, s, args, base, bs)
    requires Orig(b) in s.blocks && Orig(b) != s.Home() && Res(TermId(b)) !in s.deps
    ensures |f.order| > 0 && f.blocks[Orig(b)].term.Some? && CloneOf(Orig(b)) in bs
    ensures var g, entry, m, t := GraphOf(f), f.order[0], s.attractors, bs[CloneOf(Orig(b))].term;
      (exists d :: d in s.blocks && d != Orig(b) && Dominates(g, entry, Orig(b), d)) ==>
        exists c :: && c in s.blocks && c != Orig(b) && Dominates(g, entry, Orig(b), c) && t == Some(Br(CloneOf(c)))
                    && forall d | d in s.blocks && d != c && Dominates(g, entry, d, c) :: Dominates(g, entry, d, Orig(b))
    ensures var g, entry, m, t, orig := GraphOf(f), f.order[0], s.attractors, bs[CloneOf(Orig(b))].term, f.blocks[Orig(b)].term.value;
      (forall d | d in s.blocks && d != Orig(b) :: !Dominates(g, entry, Orig(b), d)) ==>
        && (orig.CondBr? && orig.ifFalse in m ==> t == Some(Br(CloneOf(m[orig.ifFalse]))))
        && (orig.CondBr? && orig.ifFalse !in m && orig.ifTrue in m ==> t == Some(Br(CloneOf(m[orig.ifTrue]))))
        && (orig.CondBr? && orig.ifFalse !in m && orig.ifTrue !in m ==> t == None)
        && (orig.Br? ==> t == if orig.target in m then Some(Br(CloneOf(m[orig.target]))) else None)
        && (!orig.Br? && !orig.CondBr? ==> t == None)
  {
    hide *;
    CloneIsBuilt(f, s, args, base, bs, Orig(b));
    SliceEnds(s, Orig(b));
    SliceGraphOf(f, exit, preds, s);
    var t := CloneForm(f, s, args, base, Orig(b), bs[CloneOf(Orig(b))]);
    DominatesOnIsBranch(f, s, Orig(b));
    DominatesOnMeans(f, s, Orig(b));
    var c := UnslicedCases(f, s, Orig(b), t);
    if c.Some? {
      NearestSays(GraphOf(f), f.order[0], s.blocks, Orig(b), c.value);
      ChildIsBranch(GraphOf(f), f.order[0], s.blocks, Orig(b), f.blocks.Keys, c.value);
    } else {
      FallbackCases(s.attractors, f.blocks[Orig(b)].term.value);
      FallbackBranches(s.attractors, f.blocks[Orig(b)].term.value.BranchTargets());
    }
    if t.Some? {
      LoadedKind(ClonedBlock(f, s, Orig(b)).(term := t), args, base);
    }
  }

  lemma DominatesOnMeans(f: Function, s: Slice, b: BlockRef)
    requires |f.order| > 0
    ensures DominatesOn(f, s, b) <==> exists d :: d in s.blocks && d != b && Dominates(GraphOf(f), f.order[0], b, d)
  {
    hide Dominates, GraphOf;
  }

  lemma NearestSays(g: Graph, entry: BlockRef, bbs: set<BlockRef>, b: BlockRef, c: BlockRef)
    requires NearestSliceDom(g, entry, bbs, b, c)
    ensures b in bbs && b != c && Dominates(g, entry, b, c)
    ensures forall d | d in bbs && d != c && Dominates(g, entry, d, c) :: Dominates(g, entry, d, b)
  {
    hide Dominates;
  }

  lemma {:induction false} FallbackBranches(m: map<BlockRef, BlockRef>, bs: seq<BlockRef>)
    ensures Fallback(m, bs).Some? ==> Fallback(m, bs).value.Br?
  {
    if bs != [] {
      FallbackBranches(m, bs[1..]);
    }
  }

  /** Every block of what is built leads to blocks of it: the unreachable block is kept whenever it is a target. */
  lemma BuiltIsClosed(f: Function, exit: BlockRef, preds: map<BlockRef, seq<Edge>>, s: Slice, args: seq<nat>, base: nat,
                      bs: map<BlockRef, Block>, r: BlockRef, x: BlockRef)
    requires Standing(f, exit, preds, s) && Shaped(f) && s.blocks <= f.blocks.Keys && IsBuilt(f, s, args, base, bs)
    requires r in bs && x in bs[r].Succs()
    ensures x in bs && (x == Dead || exists c :: c in s.blocks && x == CloneOf(c))
  {
    hide *;
    var b := BuiltBlock(f, s, args, base, bs, r);
    if r != Dead {
      var t := CloneLeads(f, s, args, base, b, bs[r], x);
      LeadsInside(f, exit, preds, s, b, t.value, x);
      TargetIsKept(f, s, args, base, bs, b, t.value, x);
    }
  }

  lemma LeadsInside(f: Function, exit: BlockRef, preds: map<BlockRef, seq<Edge>>, s: Slice, b: BlockRef, t: Term, x: BlockRef)
    requires Standing(f, exit, preds, s) && b in s.blocks && b in f.blocks && |f.order| > 0 && f.blocks[b].term.Some?
    requires Rerouted(f, s, b, Some(t)) && x in t.Succs()
    ensures x == Dead || exists c :: c in s.blocks && x == CloneOf(c)
  {
    hide *;
    SliceGraphOf(f, exit, preds, s);
    if s.Ends(b) {
      EndsReroutes(f, s, b, Some(t));
      BlockEnds(f.blocks[b]);
      var i := TargetFrom(s.attractors, f.blocks[b].term.value, t, x);
      AttractorsInside(GraphOf(f), exit, s.blocks, s.attractors);
    } else {
      var c := UnslicedCases(f, s, b, Some(t));
      if c.Some? {
        BranchLeads(c.value, x);
      } else {
        FallbackPicks(s.attractors, f.blocks[b].term.value.BranchTargets());
        AttractorsInside(GraphOf(f), exit, s.blocks, s.attractors);
        var a :| a in s.attractors && t == Br(CloneOf(s.attractors[a]));
        BranchLeads(s.attractors[a], x);
      }
    }
  }

  lemma BranchLeads(c: BlockRef, x: BlockRef)
    requires x in Br(CloneOf(c)).Succs()
    ensures x == CloneOf(c)
  {
  }

  lemma TargetFrom(m: map<BlockRef, BlockRef>, orig: Term, t: Term, x: BlockRef) returns (i: nat)
    requires t == orig.WithSuccs(TargetsOf(m, orig.Succs())) && x in t.Succs()
    ensures i < |orig.Succs()| && x == if orig.Succs()[i] in m then CloneOf(m[orig.Succs()[i]]) else Dead
  {
    i :| 0 <= i < |t.Succs()| && t.Succs()[i] == x;
  }

  lemma AttractorsInside(g: Graph, exit: BlockRef, bbs: set<BlockRef>, m: map<BlockRef, BlockRef>)
    requires AttractorMap(g, exit, bbs, m)
    ensures forall a | a in m :: m[a] in bbs
  {
    forall a | a in m
      ensures m[a] in bbs
    {
      assert AttractorAt(g, exit, bbs, m, a);
    }
  }

  lemma TargetIsKept(f: Function, s: Slice, args: seq<nat>, base: nat, bs: map<BlockRef, Block>, b: BlockRef, t: Term, x: BlockRef)
    requires Shaped(f) && s.blocks <= f.blocks.Keys && IsBuilt(f, s, args, base, bs) && b in s.blocks
    requires Rerouted(f, s, b, Some(t)) && x in t.Succs()
    requires x == Dead || exists c :: c in s.blocks && x == CloneOf(c)
    ensures x in bs
  {
    hide CloneIs, Rerouted;
    if x == Dead {
      assert SomeDeadTarget(f, s);
    } else {
      assert x in bs.Keys;
    }
  }

  /** The unreachable block is kept exactly if some sliced terminator has a target without attractor; it holds nothing. */
  lemma DeadIsKept(f: Function, exit: BlockRef, preds: map<BlockRef, seq<Edge>>, s: Slice, args: seq<nat>, base: nat,
                   bs: map<BlockRef, Block>)
    requires Standing(f, exit, preds, s) && Shaped(f) && s.blocks <= f.blocks.Keys && IsBuilt(f, s, args, base, bs)
    ensures Dead in bs <==>
      exists b: nat, a :: Orig(b) in s.blocks && Res(TermId(b)) in s.deps && a in f.blocks[Orig(b)].Succs() && a !in s.attractors
    ensures Dead in bs ==> bs[Dead] == Block([], [], Some(Unreachable))
  {
    hide *;
    DeadFacts(f, s, args, base, bs);
    if Dead in bs {
      var b, t := DeadTarget(f, s, args, base, bs);
      OnlySlicedDie(f, exit, preds, s, b, t);
      var a := DeadFrom(f, exit, preds, s, b, t);
      SliceEnds(s, b);
      assert b == Orig(b.b);
    }
    if b: nat, a :| Orig(b) in s.blocks && Res(TermId(b)) in s.deps && a in f.blocks[Orig(b)].Succs() && a !in s.attractors {
      SliceEnds(s, Orig(b));
      BlockEnds(f.blocks[Orig(b)]);
      DiesThere(f, s, Orig(b), a);
    }
  }

  lemma DeadFacts(f: Function, s: Slice, args: seq<nat>, base: nat, bs: map<BlockRef, Block>)
    requires Shaped(f) && s.blocks <= f.blocks.Keys && IsBuilt(f, s, args, base, bs)
    ensures |f.order| > 0 && forall b | b in s.blocks :: b in f.blocks && b.Orig? && f.blocks[b].term.Some?
    ensures (Dead in bs <==> SomeDeadTarget(f, s)) && (Dead in bs ==> bs[Dead] == Block([], [], Some(Unreachable)))
  {
    hide CloneIs, SomeDeadTarget;
  }

  lemma DeadFrom(f: Function, exit: BlockRef, preds: map<BlockRef, seq<Edge>>, s: Slice, b: BlockRef, t: Term) returns (a: BlockRef)
    requires Standing(f, exit, preds, s) && b in s.blocks && b in f.blocks && |f.order| > 0 && f.blocks[b].term.Some?
    requires s.Ends(b) && Rerouted(f, s, b, Some(t)) && Dead in t.Succs()
    ensures a in f.blocks[b].Succs() && a !in s.attractors
  {
    hide *;
    AttractorsAreOriginal(f, exit, preds, s);
    EndsReroutes(f, s, b, Some(t));
    BlockEnds(f.blocks[b]);
    var i := TargetFrom(s.attractors, f.blocks[b].term.value, t, Dead);
    a := f.blocks[b].term.value.Succs()[i];
    if a in s.attractors {
      OriginalIsNotDead(s.attractors[a]);
    }
  }

  lemma OriginalIsNotDead(b: BlockRef)
    requires b.Orig?
    ensures CloneOf(b) != Dead
  {
  }

  lemma DiesThere(f: Function, s: Slice, b: BlockRef, a: BlockRef)
    requires Shaped(f) && s.blocks <= f.blocks.Keys && b in s.blocks && b in f.blocks && f.blocks[b].term.Some? && |f.order| > 0
    requires s.Ends(b) && a in f.blocks[b].term.value.Succs() && a !in s.attractors
    ensures SomeDeadTarget(f, s)
  {
    var orig := f.blocks[b].term.value;
    var t := orig.WithSuccs(TargetsOf(s.attractors, orig.Succs()));
    var i :| 0 <= i < |orig.Succs()| && orig.Succs()[i] == a;
    assert t.Succs()[i] == Dead;
    assert Rerouted(f, s, b, Some(t));
  }
}
