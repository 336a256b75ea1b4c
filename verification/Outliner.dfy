/** Building the delegate function out of a slice. */
module Outliner {
  import opened Graphs
  import opened Ir
  import opened Dependences
  import opened Gates
  import opened Attractors
  import opened Slices
  import opened Delegates
  import opened DomBranches
  import opened Retargeting
  import opened Rerouting

  /** A block's share of the slice, as cloned by `populateBBsWithInsts`. */
  function SlicedBlock(f: Function, s: Slice, b: BlockRef): Block
    requires b in f.blocks
  {
    Block(KeepPhis(f.blocks[b].phis, s.deps), KeepBody(f.blocks[b].body, s.deps), ClonedTerm(f, s, b))
  }

  lemma SlicedToCloned(f: Function, s: Slice, b: BlockRef)
    requires b in f.blocks
    ensures var k := SlicedBlock(f, s, b); k.(phis := ClonePhis(k.phis, s.blocks)) == ClonedBlock(f, s, b)
  {
  }

  /** Every sliced instruction lies in a slice block, and so do the incoming blocks of sliced phis. */
  ghost predicate OwnsBlocks(f: Function, s: Slice) {
    forall id, b | HasInst(f, id) && s.Has(id) && Brings(f, Res(id), b) :: b in s.blocks
  }

  lemma {:induction false} KeepOnePhi(phis: seq<Phi>, deps: set<Value>, k: nat)
    requires k < |phis|
    ensures KeepPhis(phis[..k + 1], deps)
         == if Res(phis[k].id) in deps then KeepPhis(phis[..k], deps) + [phis[k]] else KeepPhis(phis[..k], deps)
  {
    assert phis[..k + 1][..k] == phis[..k];
  }

  lemma {:induction false} NoPhisKept(phis: seq<Phi>, deps: set<Value>)
    ensures KeepPhis(phis[..0], deps) == []
  {
  }

  lemma {:induction false} KeepOneInstr(body: seq<Instr>, deps: set<Value>, k: nat)
    requires k < |body|
    ensures KeepBody(body[..k + 1], deps)
         == if Res(body[k].id) in deps then KeepBody(body[..k], deps) + [body[k]] else KeepBody(body[..k], deps)
  {
    assert body[..k + 1][..k] == body[..k];
  }

  lemma {:induction false} KeptPhi(phis: seq<Phi>, deps: set<Value>)
    ensures forall p :: p in KeepPhis(phis, deps) <==> p in phis && Res(p.id) in deps
  {
    if phis != [] {
      KeptPhi(phis[..|phis| - 1], deps);
      assert phis == phis[..|phis| - 1] + [phis[|phis| - 1]];
    }
  }

  /** After the incoming blocks are replaced no phi of the delegate names an original block. */
  lemma IncomingCloned(f: Function, s: Slice)
    requires WellFormed(f) && OwnsBlocks(f, s) && s.blocks <= f.blocks.Keys
    ensures forall b | b in s.blocks :: ClonePhisOnly(ClonedBlock(f, s, b).phis)
  {
    forall b, i, k | b in s.blocks && 0 <= i < |ClonedBlock(f, s, b).phis| && 0 <= k < |ClonedBlock(f, s, b).phis[i].incoming|
      ensures !ClonedBlock(f, s, b).phis[i].incoming[k].0.Orig?
    {
      var p := KeepPhis(f.blocks[b].phis, s.deps)[i];
      KeptPhi(f.blocks[b].phis, s.deps);
      assert p in f.blocks[b].phis && GoodBlock(f, b.b);
      assert HasInst(f, p.id) && PhiAt(f, p.id) == p;
      assert Brings(f, Res(p.id), p.incoming[k].0);
    }
  }

  lemma SliceReroutable(f: Function, exit: BlockRef, preds: map<BlockRef, seq<Edge>>, s: Slice)
    requires IsSlice(f, exit, preds, s) && WellFormed(f)
    ensures Reroutable(f, s) && OwnsBlocks(f, s) && s.Home() in s.blocks
    ensures forall b | b in s.blocks :: b.Orig?
  {
    SliceParts(f, exit, preds, s);
    hide IsSlice, WellFormed, GraphOf, IsAttractor, SomePostDominator;
    forall b | b in s.attractors
      ensures s.attractors[b] in s.blocks
    {
      AttractorIsSliced(GraphOf(f), exit, s.blocks, s.attractors, b);
    }
    assert Brings(f, Res(s.crit), s.Home());
  }

  lemma SliceParts(f: Function, exit: BlockRef, preds: map<BlockRef, seq<Edge>>, s: Slice)
    requires IsSlice(f, exit, preds, s)
    ensures Shaped(f) && s.blocks <= f.blocks.Keys && HasInst(f, s.crit) && Res(s.crit) in s.deps
    ensures BlocksOf(f, s.deps, s.blocks) && AttractorMap(GraphOf(f), exit, s.blocks, s.attractors)
    ensures forall b | b in f.blocks :: b.Orig?
  {
    hide FlowGraph, ValidPreds, GatesOf, BlocksOf, AttractorMap, Known, GraphOf;
  }

  lemma AttractorIsSliced(g: Graph, exit: BlockRef, bbs: set<BlockRef>, m: map<BlockRef, BlockRef>, b: BlockRef)
    requires AttractorMap(g, exit, bbs, m) && b in m
    ensures m[b] in bbs
  {
    assert AttractorAt(g, exit, bbs, m, b);
  }

  lemma RerouteFacts(f: Function, s: Slice, bbs: seq<BlockRef>, bs: map<BlockRef, Block>)
    requires Reroutable(f, s) && Enumerates(bbs, s.blocks) && BranchesRerouted(f, s, bs)
    ensures forall b | b in s.blocks :: CloneOf(b) in bs
    ensures forall r :: r in (if Dead in bs then CloneAll(bbs) + [Dead] else CloneAll(bbs)) <==> r in bs
  {
    hide Rerouted, CloneInsts, Reroutable, Distinct;
    forall b | b in s.blocks
      ensures CloneOf(b) in CloneAll(bbs)
    {
      var i :| 0 <= i < |bbs| && bbs[i] == b;
      assert CloneAll(bbs)[i] == CloneOf(b);
    }
  }

  lemma HomeIsCloned(f: Function, s: Slice, bs: map<BlockRef, Block>)
    requires Reroutable(f, s) && s.Home() in s.blocks && BranchesRerouted(f, s, bs)
    ensures CloneOf(s.Home()) in bs
  {
  }

  function Returned(s: Slice, bs: map<BlockRef, Block>): map<BlockRef, Block>
    requires CloneOf(s.Home()) in bs
  {
    var h := CloneOf(s.Home());
    bs[h := bs[h].(term := Some(Ret(Res(s.crit))))]
  }

  lemma BlocksBuilt(f: Function, s: Slice, args: seq<nat>, base: nat, rerouted: map<BlockRef, Block>, bs: map<BlockRef, Block>)
    requires Reroutable(f, s) && s.Home() in s.blocks && (forall b | b in s.blocks :: b.Orig?)
    requires BranchesRerouted(f, s, rerouted) && CloneOf(s.Home()) in rerouted
    requires var returned := Returned(s, rerouted); bs == (map r | r in returned :: LoadBlock(returned[r], args, base))
    ensures Shaped(f) && s.blocks <= f.blocks.Keys && IsBuilt(f, s, args, base, bs)
  {
    hide *;
    var returned := Returned(s, rerouted);
    DeadHasTarget(f, s, rerouted);
    DeadLoads(args, base);
    ReturnedIs(s, rerouted);
    HomeIsNotDead(s);
    ReroutableParts(f, s);
    forall b | b in s.blocks
      ensures CloneOf(b) in returned && CloneIs(f, s, args, base, b, bs[CloneOf(b)])
    {
      CloneBuilt(f, s, args, base, rerouted, b);
    }
    BuiltFromParts(f, s, args, base, bs);
  }

  lemma ReturnedIs(s: Slice, rerouted: map<BlockRef, Block>)
    requires CloneOf(s.Home()) in rerouted
    ensures Returned(s, rerouted) == rerouted[CloneOf(s.Home()) := rerouted[CloneOf(s.Home())].(term := Some(Ret(Res(s.crit))))]
    ensures Returned(s, rerouted).Keys == rerouted.Keys
    ensures forall r | r in rerouted && r != CloneOf(s.Home()) :: Returned(s, rerouted)[r] == rerouted[r]
  {
  }

  lemma ReroutableParts(f: Function, s: Slice)
    requires Reroutable(f, s)
    ensures Shaped(f) && |f.order| > 0 && s.blocks <= f.blocks.Keys && forall b | b in f.blocks :: f.blocks[b].term.Some?
  {
    hide Rooted, GraphOf;
  }

  lemma HomeIsNotDead(s: Slice)
    requires s.Home().Orig?
    ensures CloneOf(s.Home()) != Dead
  {
  }

  lemma BuiltFromParts(f: Function, s: Slice, args: seq<nat>, base: nat, bs: map<BlockRef, Block>)
    requires Shaped(f) && s.blocks <= f.blocks.Keys
    requires bs.Keys == (set b | b in s.blocks :: CloneOf(b)) + (if Dead in bs then {Dead} else {})
    requires forall b | b in s.blocks :: CloneOf(b) in bs && CloneIs(f, s, args, base, b, bs[CloneOf(b)])
    requires (Dead in bs <==> SomeDeadTarget(f, s)) && (Dead in bs ==> bs[Dead] == Block([], [], Some(Unreachable)))
    ensures IsBuilt(f, s, args, base, bs)
  {
    hide CloneIs, SomeDeadTarget, Shaped;
  }

  lemma LoadingKeepsEdges(bs: map<BlockRef, Block>, args: seq<nat>, base: nat, b: BlockRef)
    ensures NoPredecessors(bs, b) <==> NoPredecessors(map r | r in bs :: LoadBlock(bs[r], args, base), b)
  {
    var ls := map r | r in bs :: LoadBlock(bs[r], args, base);
    forall r | r in bs
      ensures ls[r].Succs() == bs[r].Succs()
    {
    }
    hide LoadBlock;
    assert NoPredecessors(ls, b) ==> forall r | r in bs :: b !in ls[r].Succs();
  }

  lemma LoadingKeepsEntry(bs: map<BlockRef, Block>, args: seq<nat>, base: nat)
    ensures SomeEntry(bs) <==> SomeEntry(map r | r in bs :: LoadBlock(bs[r], args, base))
  {
    hide NoPredecessors, LoadBlock;
    forall r
      ensures NoPredecessors(bs, r) <==> NoPredecessors(map r | r in bs :: LoadBlock(bs[r], args, base), r)
    {
      LoadingKeepsEdges(bs, args, base, r);
    }
  }

  lemma Finished(f: Function, s: Slice, args: seq<nat>, base: nat, rerouted: map<BlockRef, Block>, order: seq<BlockRef>,
                 bs: map<BlockRef, Block>)
    requires Reroutable(f, s) && s.Home() in s.blocks && (forall b | b in s.blocks :: b.Orig?)
    requires BranchesRerouted(f, s, rerouted) && CloneOf(s.Home()) in rerouted
    requires var returned := Returned(s, rerouted);
      bs == (map r | r in returned :: LoadBlock(returned[r], args, base)) && forall r :: r in order <==> r in returned
    ensures Shaped(f) && s.blocks <= f.blocks.Keys && IsBuilt(f, s, args, base, bs)
    ensures SomeEntry(bs) <==> SomeEntry(Returned(s, rerouted))
    ensures |order| > 0 && NoPredecessors(Returned(s, rerouted), order[0]) ==> IsDelegate(f, s, args, base, Function(0, order, bs))
  {
    hide *;
    var returned := Returned(s, rerouted);
    BlocksBuilt(f, s, args, base, rerouted, bs);
    LoadingKeepsEntry(returned, args, base);
    if |order| > 0 && NoPredecessors(returned, order[0]) {
      LoadingKeepsEdges(returned, args, base, order[0]);
      WithEntry(f, s, args, base, order, bs);
    }
  }

  lemma WithEntry(f: Function, s: Slice, args: seq<nat>, base: nat, order: seq<BlockRef>, bs: map<BlockRef, Block>)
    requires Shaped(f) && s.blocks <= f.blocks.Keys && IsBuilt(f, s, args, base, bs)
    requires |order| > 0 && (forall r :: r in order <==> r in bs) && NoPredecessors(bs, order[0])
    ensures IsDelegate(f, s, args, base, Function(0, order, bs))
  {
    hide IsBuilt, NoPredecessors, Shaped;
  }

  /** Whether the moved block exists is what `EntryExact` says. */
  lemma FoundExactly(f: Function, exit: BlockRef, preds: map<BlockRef, seq<Edge>>, s: Slice, args: seq<nat>, base: nat,
                     bs: map<BlockRef, Block>)
    requires IsSlice(f, exit, preds, s) && WellFormed(f) && Shaped(f) && s.blocks <= f.blocks.Keys && IsBuilt(f, s, args, base, bs)
    ensures DefsDominateUses(f) && !OnCycle(GraphOf(f), s.Home()) && OneOutcome(f, exit, s) && SwitchesCovered(f, s) ==>
      (SomeEntry(bs) <==> EntersOnce(f, s))
  {
    hide IsSlice, WellFormed, DefsDominateUses, IsBuilt, OneOutcome, SwitchesCovered, SomeEntry, EntersOnce, OnCycle;
    if DefsDominateUses(f) && !OnCycle(GraphOf(f), s.Home()) && OneOutcome(f, exit, s) && SwitchesCovered(f, s) {
      EntryExact(f, exit, preds, s, args, base, bs);
    }
  }

  lemma DeadLoads(args: seq<nat>, base: nat)
    ensures LoadBlock(Block([], [], Some(Unreachable)), args, base) == Block([], [], Some(Unreachable))
  {
    assert LoadBlock(Block([], [], Some(Unreachable)), args, base).phis == [];
  }

  lemma CloneBuilt(f: Function, s: Slice, args: seq<nat>, base: nat, rerouted: map<BlockRef, Block>, b: BlockRef)
    requires Reroutable(f, s) && (forall b | b in s.blocks :: b.Orig?) && b in s.blocks && s.Home() in s.blocks
    requires BranchesRerouted(f, s, rerouted) && CloneOf(s.Home()) in rerouted
    ensures CloneIs(f, s, args, base, b, LoadBlock(Returned(s, rerouted)[CloneOf(b)], args, base))
  {
    hide Rerouted, LoadBlock, ClonedBlock;
    var d := Returned(s, rerouted)[CloneOf(b)];
    assert FinalTerm(f, s, b, d.term);
    assert d == ClonedBlock(f, s, b).(term := d.term);
  }

  lemma DeadHasTarget(f: Function, s: Slice, rerouted: map<BlockRef, Block>)
    requires Reroutable(f, s) && BranchesRerouted(f, s, rerouted) && forall b | b in s.blocks :: b.Orig?
    ensures Shaped(f) && s.blocks <= f.blocks.Keys
    ensures Dead in rerouted <==> SomeDeadTarget(f, s)
    ensures Dead in rerouted ==> rerouted[Dead] == Block([], [], Some(Unreachable))
    ensures rerouted.Keys == (set b | b in s.blocks :: CloneOf(b)) + (if Dead in rerouted then {Dead} else {})
  {
    hide Rerouted;
    if Dead in rerouted {
      var b :| b in s.blocks && Dead in rerouted[CloneOf(b)].Succs();
      assert Rerouted(f, s, b, Some(rerouted[CloneOf(b)].term.value));
    }
    if SomeDeadTarget(f, s) {
      var b, t :| b in s.blocks && Rerouted(f, s, b, Some(t)) && Dead in t.Succs();
      DeadIsSliced(f, s, b, t);
      SlicedIsOne(f, s, b, Some(t), rerouted[CloneOf(b)].term);
      assert Dead in rerouted[CloneOf(b)].Succs();
    }
  }

  lemma DeadIsSliced(f: Function, s: Slice, b: BlockRef, t: Term)
    requires Reroutable(f, s) && (forall b | b in s.blocks :: b.Orig?) && b in s.blocks
    requires Rerouted(f, s, b, Some(t)) && Dead in t.Succs()
    ensures s.Ends(b)
  {
    if !s.Ends(b) {
      hide Rerouted;
      var c := UnslicedCases(f, s, b, Some(t));
      hide GraphOf, DomBranchOf, Rooted;
      if c.None? {
        FallbackPicks(s.attractors, f.blocks[b].term.value.BranchTargets());
      }
    }
  }

  lemma SlicedIsOne(f: Function, s: Slice, b: BlockRef, t: Option<Term>, t': Option<Term>)
    requires b in f.blocks && f.blocks[b].term.Some? && |f.order| > 0
    requires s.Ends(b) && Rerouted(f, s, b, t) && Rerouted(f, s, b, t')
    ensures t == t'
  {
    hide DomBranchOf;
  }

  lemma LastSays(bs: map<BlockRef, Block>, order: seq<BlockRef>, k: nat)
    requires k < |order| && NoPredecessors(bs, order[k]) && forall j | k < j < |order| :: !NoPredecessors(bs, order[j])
    requires forall r :: r in order <==> r in bs
    ensures SomeEntry(bs)
    ensures forall q | q in bs :: order[k] !in bs[q].Succs()
    ensures forall j | k < j < |order| :: exists q :: q in bs && order[j] in bs[q].Succs()
  {
    assert order[k] in bs && NoPredecessors(bs, order[k]);
  }

  lemma MovedIs(order: seq<BlockRef>, k: nat)
    requires k < |order|
    ensures MoveFirst(order, k) == [order[k]] + order[..k] + order[k + 1..] && |MoveFirst(order, k)| == |order|
    ensures MoveFirst(order, k)[0] == order[k] && forall r :: r in MoveFirst(order, k) <==> r in order
  {
  }

  lemma EntrySays(bs: map<BlockRef, Block>)
    ensures SomeEntry(bs) <==> exists r :: r in bs && forall q | q in bs :: r !in bs[q].Succs()
  {
    assert forall r :: NoPredecessors(bs, r) <==> forall q | q in bs :: r !in bs[q].Succs();
    hide NoPredecessors;
  }

  lemma EntryInLayout(bs: map<BlockRef, Block>, order: seq<BlockRef>)
    requires forall r :: r in order <==> r in bs
    requires forall k | 0 <= k < |order| :: !NoPredecessors(bs, order[k])
    ensures !SomeEntry(bs)
  {
    hide NoPredecessors;
  }

  lemma Unreached(bs: map<BlockRef, Block>, b: BlockRef)
    ensures NoPredecessors(bs, b) <==> forall r | r in bs :: b !in bs[r].Succs()
  {
  }

  function MoveFirst(order: seq<BlockRef>, i: nat): (r: seq<BlockRef>)
    requires i < |order|
    ensures |r| == |order| && r[0] == order[i] && forall b :: b in r <==> b in order
  {
    assert order == order[..i] + [order[i]] + order[i + 1..];
    [order[i]] + order[..i] + order[i + 1..]
  }

  /** The clones of the slice blocks among `done` hold the sliced instructions, the others nothing. */
  ghost predicate SlicedUpTo(f: Function, s: Slice, done: seq<BlockRef>, bs: map<BlockRef, Block>)
    requires s.blocks <= f.blocks.Keys
  {
    forall b | b in s.blocks :: CloneOf(b) in bs && bs[CloneOf(b)] == if b in done then SlicedBlock(f, s, b) else Block([], [], None)
  }

  lemma SlicedOneMore(f: Function, s: Slice, done: seq<BlockRef>, b: BlockRef, bs: map<BlockRef, Block>)
    requires s.blocks <= f.blocks.Keys && (forall c | c in s.blocks :: c.Orig?) && SlicedUpTo(f, s, done, bs) && b !in done
    ensures b !in s.blocks ==> SlicedUpTo(f, s, done + [b], bs)
    ensures b in s.blocks ==> CloneOf(b) in bs && bs[CloneOf(b)] == Block([], [], None)
    ensures b in s.blocks ==> SlicedUpTo(f, s, done + [b], bs[CloneOf(b) := SlicedBlock(f, s, b)])
  {
    hide SlicedBlock;
  }

  lemma SlicedAll(f: Function, s: Slice, done: seq<BlockRef>, bs: map<BlockRef, Block>)
    requires s.blocks <= f.blocks.Keys && SlicedUpTo(f, s, done, bs) && forall b | b in f.blocks :: b in done
    ensures forall b | b in s.blocks :: CloneOf(b) in bs && bs[CloneOf(b)] == SlicedBlock(f, s, b)
  {
    hide SlicedBlock;
  }

  /** The phis of the clones of `done` name clones. */
  ghost predicate ClonedUpTo(f: Function, s: Slice, done: seq<BlockRef>, bs: map<BlockRef, Block>)
    requires s.blocks <= f.blocks.Keys
  {
    forall b | b in s.blocks :: CloneOf(b) in bs && bs[CloneOf(b)] == if b in done then ClonedBlock(f, s, b) else SlicedBlock(f, s, b)
  }

  lemma ClonedOneMore(f: Function, s: Slice, done: seq<BlockRef>, b: BlockRef, bs: map<BlockRef, Block>)
    requires s.blocks <= f.blocks.Keys && (forall c | c in s.blocks :: c.Orig?) && ClonedUpTo(f, s, done, bs) && b !in done
    ensures b !in s.blocks ==> ClonedUpTo(f, s, done + [b], bs)
    ensures b in s.blocks ==> CloneOf(b) in bs
    ensures b in s.blocks ==>
      ClonedUpTo(f, s, done + [b], bs[CloneOf(b) := bs[CloneOf(b)].(phis := ClonePhis(bs[CloneOf(b)].phis, s.blocks))])
  {
    if b in s.blocks {
      SlicedToCloned(f, s, b);
    }
    hide SlicedBlock, ClonedBlock, ClonePhis;
  }

  lemma ClonedAll(f: Function, s: Slice, done: seq<BlockRef>, bs: map<BlockRef, Block>)
    requires s.blocks <= f.blocks.Keys && ClonedUpTo(f, s, done, bs) && forall b | b in f.blocks :: b in done
    ensures forall b | b in s.blocks :: CloneOf(b) in bs && bs[CloneOf(b)] == ClonedBlock(f, s, b)
  {
    hide ClonedBlock, SlicedBlock;
  }

  lemma BlocksAreOriginal(f: Function)
    requires WellFormed(f)
    ensures forall b | b in f.blocks :: b.Orig?
  {
  }

  lemma ClonesArePopulated(f: Function, s: Slice, bs: map<BlockRef, Block>)
    requires s.blocks <= f.blocks.Keys && bs.Keys == (set b | b in s.blocks :: CloneOf(b))
    requires forall b | b in s.blocks :: bs[CloneOf(b)] == ClonedBlock(f, s, b) && ClonePhisOnly(ClonedBlock(f, s, b).phis)
    ensures Populated(f, s, bs) && AllClonePhis(bs)
  {
    hide ClonedBlock, ClonePhisOnly;
  }

  lemma LayoutPrefix(f: Function, i: nat)
    requires WellFormed(f) && i < |f.order|
    ensures f.order[i] in f.blocks && f.order[i] !in f.order[..i] && f.order[..i + 1] == f.order[..i] + [f.order[i]]
  {
  }

  lemma WholeLayout(f: Function)
    requires WellFormed(f)
    ensures f.order[..|f.order|] == f.order && forall b | b in f.blocks :: b in f.order
  {
  }

  /** What is sliced in a block shows the block to be in the slice. */
  lemma SlicedAreOwned(f: Function, s: Slice, b: BlockRef)
    requires WellFormed(f) && OwnsBlocks(f, s) && b in f.blocks
    ensures b.Orig? && (s.Has(TermId(b.b)) ==> b in s.blocks)
    ensures forall p | p in f.blocks[b].phis && s.Has(p.id) :: b in s.blocks
    ensures forall i | i in f.blocks[b].body && s.Has(i.id) :: b in s.blocks
  {
    assert GoodBlock(f, b.b);
    assert HasInst(f, TermId(b.b));
    hide WellFormed;
    forall p | p in f.blocks[b].phis && s.Has(p.id)
      ensures b in s.blocks
    {
      assert HasInst(f, p.id);
    }
    forall i | i in f.blocks[b].body && s.Has(i.id)
      ensures b in s.blocks
    {
      assert HasInst(f, i.id);
    }
  }

  lemma PhisStay(bs: map<BlockRef, Block>, bs': map<BlockRef, Block>, p: BlockRef, r: BlockRef)
    requires AllClonePhis(bs) && r in bs && p in bs && p in bs' && bs' == bs[p := bs[p].(term := bs'[p].term)]
    ensures r in bs' && ClonePhisOnly(bs'[r].phis)
  {
    hide ClonePhisOnly;
  }

  lemma KeysStay(bs: map<BlockRef, Block>, bs': map<BlockRef, Block>)
    requires SameInsts(bs, bs')
    ensures bs.Keys == bs'.Keys
  {
  }

  // ---- loading parameters one by one ----

  lemma {:induction false} IndexInLonger(args: seq<nat>, n: nat, a: nat)
    requires n < |args| && a in args[..n + 1]
    ensures IndexIn(args[..n + 1], a) == if a in args[..n] then IndexIn(args[..n], a) else n
  {
    if args[0] != a {
      assert args[..n + 1][1..] == args[1..][..n] && n > 0;
      assert args[..n][1..] == args[1..][..n - 1] && (a in args[..n] <==> a in args[1..][..n - 1]);
      IndexInLonger(args[1..], n - 1, a);
    } else if n > 0 {
      assert args[..n][0] == a;
    }
  }

  lemma ValueOneMore(v: Value, args: seq<nat>, base: nat, n: nat)
    requires n < |args|
    ensures LoadValue(LoadValue(v, args[..n], base), [args[n]], base + n) == LoadValue(v, args[..n + 1], base)
  {
    assert args[..n + 1] == args[..n] + [args[n]];
    if v.Arg? && v.a in args[..n + 1] {
      IndexInLonger(args, n, v.a);
    }
  }

  lemma ValuesOneMore(vs: seq<Value>, args: seq<nat>, base: nat, n: nat)
    requires n < |args|
    ensures LoadValues(LoadValues(vs, args[..n], base), [args[n]], base + n) == LoadValues(vs, args[..n + 1], base)
  {
    hide LoadValue;
    forall k | 0 <= k < |vs|
      ensures LoadValue(LoadValue(vs[k], args[..n], base), [args[n]], base + n) == LoadValue(vs[k], args[..n + 1], base)
    {
      ValueOneMore(vs[k], args, base, n);
    }
  }

  lemma PhiOneMore(p: Phi, args: seq<nat>, base: nat, n: nat)
    requires n < |args|
    ensures LoadPhi(LoadPhi(p, args[..n], base), [args[n]], base + n) == LoadPhi(p, args[..n + 1], base)
  {
    hide LoadValue;
    forall k | 0 <= k < |p.incoming|
      ensures LoadValue(LoadValue(p.incoming[k].1, args[..n], base), [args[n]], base + n) == LoadValue(p.incoming[k].1, args[..n + 1], base)
    {
      ValueOneMore(p.incoming[k].1, args, base, n);
    }
  }

  lemma TermOneMore(t: Term, args: seq<nat>, base: nat, n: nat)
    requires n < |args|
    ensures LoadTerm(LoadTerm(t, args[..n], base), [args[n]], base + n) == LoadTerm(t, args[..n + 1], base)
  {
    hide LoadValue;
    if t.Values() != [] {
      ValueOneMore(t.Values()[0], args, base, n);
    }
  }

  /** The next parameter on top of those before it. */
  lemma LoadOneMore(b: Block, args: seq<nat>, base: nat, n: nat)
    requires n < |args|
    ensures LoadBlock(LoadBlock(b, args[..n], base), [args[n]], base + n) == LoadBlock(b, args[..n + 1], base)
  {
    hide LoadPhi, LoadValues, LoadTerm;
    var x, y := LoadBlock(LoadBlock(b, args[..n], base), [args[n]], base + n), LoadBlock(b, args[..n + 1], base);
    forall k | 0 <= k < |b.phis|
      ensures x.phis[k] == y.phis[k]
    {
      PhiOneMore(b.phis[k], args, base, n);
    }
    forall k | 0 <= k < |b.body|
      ensures x.body[k] == y.body[k]
    {
      ValuesOneMore(b.body[k].args, args, base, n);
    }
    if b.term.Some? {
      TermOneMore(b.term.value, args, base, n);
    }
  }

  lemma LoadNothing(b: Block, base: nat)
    ensures LoadBlock(b, [], base) == b
  {
    var x := LoadBlock(b, [], base);
    forall k | 0 <= k < |b.phis|
      ensures x.phis[k] == b.phis[k]
    {
      assert x.phis[k].incoming == b.phis[k].incoming;
    }
    forall k | 0 <= k < |b.body|
      ensures x.body[k] == b.body[k]
    {
      assert LoadValues(b.body[k].args, [], base) == b.body[k].args;
    }
    assert x.phis == b.phis && x.body == b.body;
  }

  class Delegate {
    var blocks: map<BlockRef, Block>
    var order: seq<BlockRef>

    constructor ()
      ensures blocks == map[] && order == []
    {
      blocks, order := map[], [];
    }

    /** An empty clone of every slice block. */
    method PopulateBlocks(s: Slice, bbs: seq<BlockRef>)
      requires Enumerates(bbs, s.blocks) && blocks == map[] && order == []
      modifies this
      ensures order == CloneAll(bbs)
      ensures blocks.Keys == (set b | b in s.blocks :: CloneOf(b))
      ensures forall r | r in blocks :: blocks[r] == Block([], [], None)
    {
      for i := 0 to |bbs|
        invariant order == CloneAll(bbs[..i])
        invariant blocks.Keys == (set b | b in bbs[..i] :: CloneOf(b))
        invariant forall r | r in blocks :: blocks[r] == Block([], [], None)
      {
        assert bbs[..i + 1] == bbs[..i] + [bbs[i]];
        blocks := blocks[CloneOf(bbs[i]) := Block([], [], None)];
        order := order + [CloneOf(bbs[i])];
      }
      assert bbs[..|bbs|] == bbs;
    }

    /** Copies the sliced instructions of `b` into its clone. */
    method PopulateInsts(f: Function, s: Slice, b: BlockRef)
      requires WellFormed(f) && OwnsBlocks(f, s) && b in f.blocks
      requires b in s.blocks ==> CloneOf(b) in blocks && blocks[CloneOf(b)] == Block([], [], None)
      modifies this
      ensures order == old(order)
      ensures b !in s.blocks ==> blocks == old(blocks)
      ensures b in s.blocks ==> blocks == old(blocks)[CloneOf(b) := SlicedBlock(f, s, b)]
    {
      var blk := f.blocks[b];
      SlicedAreOwned(f, s, b);
      hide WellFormed, OwnsBlocks, KeepPhis, KeepBody, HasInst;
      PopulatePhis(blk, s, b);
      PopulateBody(blk, s, b);
      if s.Has(TermId(b.b)) {
        blocks := blocks[CloneOf(b) := blocks[CloneOf(b)].(term := blk.term)];
      }
    }

    method PopulatePhis(blk: Block, s: Slice, b: BlockRef)
      requires forall p | p in blk.phis && s.Has(p.id) :: b in s.blocks
      requires b in s.blocks ==> CloneOf(b) in blocks && blocks[CloneOf(b)] == Block([], [], None)
      modifies this
      ensures order == old(order)
      ensures b !in s.blocks ==> blocks == old(blocks)
      ensures b in s.blocks ==> blocks == old(blocks)[CloneOf(b) := Block(KeepPhis(blk.phis, s.deps), [], None)]
    {
      var c := CloneOf(b);
      NoPhisKept(blk.phis, s.deps);
      hide KeepPhis, CloneOf;
      for k := 0 to |blk.phis|
        invariant order == old(order)
        invariant b !in s.blocks ==> blocks == old(blocks)
        invariant b in s.blocks ==> blocks == old(blocks)[c := Block(KeepPhis(blk.phis[..k], s.deps), [], None)]
      {
        KeepOnePhi(blk.phis, s.deps, k);
        if s.Has(blk.phis[k].id) {
          assert blk.phis[k] in blk.phis;
          blocks := blocks[c := blocks[c].(phis := blocks[c].phis + [blk.phis[k]])];
        }
      }
      assert blk.phis[..|blk.phis|] == blk.phis;
    }

    method PopulateBody(blk: Block, s: Slice, b: BlockRef)
      requires forall i | i in blk.body && s.Has(i.id) :: b in s.blocks
      requires b in s.blocks ==> CloneOf(b) in blocks && blocks[CloneOf(b)] == Block(KeepPhis(blk.phis, s.deps), [], None)
      modifies this
      ensures order == old(order)
      ensures b !in s.blocks ==> blocks == old(blocks)
      ensures b in s.blocks ==>
        blocks == old(blocks)[CloneOf(b) := Block(KeepPhis(blk.phis, s.deps), KeepBody(blk.body, s.deps), None)]
    {
      var c := CloneOf(b);
      for k := 0 to |blk.body|
        invariant order == old(order)
        invariant b !in s.blocks ==> blocks == old(blocks)
        invariant b in s.blocks ==> blocks == old(blocks)[c := Block(KeepPhis(blk.phis, s.deps), KeepBody(blk.body[..k], s.deps), None)]
      {
        KeepOneInstr(blk.body, s.deps, k);
        if s.Has(blk.body[k].id) {
          assert blk.body[k] in blk.body;
          blocks := blocks[c := blocks[c].(body := blocks[c].body + [blk.body[k]])];
        }
      }
      assert blk.body[..|blk.body|] == blk.body;
    }

    method PopulateBBsWithInsts(f: Function, s: Slice)
      requires WellFormed(f) && OwnsBlocks(f, s) && s.blocks <= f.blocks.Keys
      requires blocks.Keys == (set b | b in s.blocks :: CloneOf(b))
      requires forall r | r in blocks :: blocks[r] == Block([], [], None)
      modifies this
      ensures order == old(order) && blocks.Keys == old(blocks).Keys
      ensures forall b | b in s.blocks :: blocks[CloneOf(b)] == SlicedBlock(f, s, b)
    {
      ghost var keys := blocks.Keys;
      BlocksAreOriginal(f);
      assert SlicedUpTo(f, s, f.order[..0], blocks);
      hide WellFormed, SlicedBlock, OwnsBlocks, SlicedUpTo, CloneOf;
      for i := 0 to |f.order|
        invariant order == old(order) && blocks.Keys == keys && SlicedUpTo(f, s, f.order[..i], blocks)
      {
        var b := f.order[i];
        LayoutPrefix(f, i);
        SlicedOneMore(f, s, f.order[..i], b, blocks);
        PopulateInsts(f, s, b);
      }
      WholeLayout(f);
      SlicedAll(f, s, f.order, blocks);
    }

    /** The part of `reorganizeUses` that concerns incoming blocks. */
    method ReorganizeUses(f: Function, s: Slice)
      requires WellFormed(f) && OwnsBlocks(f, s) && s.blocks <= f.blocks.Keys
      requires blocks.Keys == (set b | b in s.blocks :: CloneOf(b))
      requires forall b | b in s.blocks :: blocks[CloneOf(b)] == SlicedBlock(f, s, b)
      modifies this
      ensures order == old(order) && Populated(f, s, blocks) && AllClonePhis(blocks)
    {
      ghost var keys := blocks.Keys;
      BlocksAreOriginal(f);
      assert ClonedUpTo(f, s, f.order[..0], blocks);
      hide WellFormed, OwnsBlocks, ClonedBlock, SlicedBlock, ClonePhis, Populated, AllClonePhis, ClonedUpTo;
      for i := 0 to |f.order|
        invariant order == old(order) && blocks.Keys == keys && ClonedUpTo(f, s, f.order[..i], blocks)
      {
        var b := f.order[i];
        LayoutPrefix(f, i);
        ClonedOneMore(f, s, f.order[..i], b, blocks);
        if b in s.blocks {
          blocks := blocks[CloneOf(b) := blocks[CloneOf(b)].(phis := ClonePhis(blocks[CloneOf(b)].phis, s.blocks))];
        }
      }
      WholeLayout(f);
      ClonedAll(f, s, f.order, blocks);
      IncomingCloned(f, s);
      ClonesArePopulated(f, s, blocks);
    }

    /** Gives `p` a branch to `c`, unless it has a terminator. */
    method BranchTo(p: BlockRef, c: BlockRef)
      requires p in blocks
      modifies this
      ensures order == old(order) && blocks == WithBranch(old(blocks), p, c)
    {
      if blocks[p].term.None? {
        blocks := blocks[p := blocks[p].(term := Some(Br(c)))];
      }
    }

    /** Below `cur` in the dominator tree, a slice block left without terminator gets a branch to a slice block it
        is the nearest slice dominator of.  `above` is the nearest slice block above `cur`. */
    method AddDomBranches(f: Function, bbs: set<BlockRef>, dt: Tree, children: map<BlockRef, seq<BlockRef>>,
                          cur: BlockRef, above: Option<BlockRef>, visited: set<BlockRef>)
      returns (visited': set<BlockRef>)
      requires ValidTree(GraphOf(f), dt) && ValidChildren(dt, f.blocks.Keys, children)
      requires cur in f.blocks && bbs <= f.blocks.Keys && (forall b | b in bbs :: b.Orig?)
      requires forall b | b in bbs :: CloneOf(b) in blocks
      requires cur !in bbs ==> NearestOpt(GraphOf(f), dt.root, bbs, above, cur)
      requires visited !! Below(GraphOf(f), dt.root, cur)
      modifies this
      ensures order == old(order)
      ensures visited' == visited + Below(GraphOf(f), dt.root, cur)
      ensures DomBranched(GraphOf(f), dt.root, bbs, Below(GraphOf(f), dt.root, cur), old(blocks), blocks)
      decreases Below(GraphOf(f), dt.root, cur)
    {
      ghost var g, entry := GraphOf(f), dt.root;
      var parent := if cur in bbs then Some(cur) else above;
      var kids := children[cur];
      visited' := visited;
      NothingBranched(g, entry, bbs, blocks);
      assert AtOrBelow(g, entry, kids[..0]) == {} && Rooted(g, entry);
      hide ValidTree, ValidChildren, DomBranched, NearestOpt, Below, AtOrBelow, CloneOf, Rooted;
      for i := 0 to |kids|
        invariant order == old(order)
        invariant visited' == visited + AtOrBelow(g, entry, kids[..i])
        invariant DomBranched(g, entry, bbs, AtOrBelow(g, entry, kids[..i]), old(blocks), blocks)
      {
        var child := kids[i];
        ghost var before := blocks;
        KidFacts(g, dt, bbs, children, cur, i, above, parent, visited);
        if child !in visited' {
          visited' := AddDomBranches(f, bbs, dt, children, child, parent, visited' + {child});
        }
        ghost var between := blocks;
        SameKeys(g, entry, bbs, AtOrBelow(g, entry, kids[..i]), old(blocks), before);
        SameKeys(g, entry, bbs, Below(g, entry, child), before, between);
        if child in bbs && parent.Some? {
          NearestInSlice(g, entry, bbs, parent.value, child);
          BranchTo(CloneOf(parent.value), CloneOf(child));
        }
        KidBranched(g, entry, bbs, AtOrBelow(g, entry, kids[..i]), Below(g, entry, child), parent, child,
                    old(blocks), before, between);
      }
      AllKids(g, dt, children, cur);
      assert kids[..|kids|] == kids;
    }

    /** Gives `p` the successor `b` at position `i`. */
    method SetSuccessor(p: BlockRef, i: nat, b: BlockRef)
      requires p in blocks && blocks[p].term.Some? && i < |blocks[p].term.value.Succs()|
      modifies this
      ensures order == old(order) && SameInsts(old(blocks), blocks)
      ensures blocks == old(blocks)[p := old(blocks)[p].(term := blocks[p].term)]
      ensures blocks[p].term == Some(old(blocks)[p].term.value.WithSuccs(old(blocks)[p].term.value.Succs()[i := b]))
    {
      var t := blocks[p].term.value;
      blocks := blocks[p := blocks[p].(term := Some(t.WithSuccs(t.Succs()[i := b])))];
    }

    /** `replaceIncomingBlockWith` on the phis of `target`: as they name no original block, nothing changes. */
    method ReplaceIncoming(target: BlockRef, h: BlockRef -> BlockRef)
      requires target in blocks && ClonePhisOnly(blocks[target].phis)
      requires forall r: BlockRef | !r.Orig? :: h(r) == r
      modifies this
      ensures blocks == old(blocks) && order == old(order)
    {
      NothingToReplace(blocks[target].phis, h);
      blocks := blocks[target := blocks[target].(phis := MapIncoming(blocks[target].phis, h))];
    }

    /** `replaceUsesWithIf`: every use of the original block `x` in the delegate becomes the dead block. */
    method ReplaceUsesByDead(x: BlockRef, ghost m: map<BlockRef, BlockRef>)
      requires AllClonePhis(blocks) && x.Orig? && x !in m
      modifies this
      ensures order == old(order) && SameInsts(old(blocks), blocks)
      ensures forall q | q in blocks :: TermPends(m, old(blocks)[q].term, blocks[q].term)
    {
      ReplacedPends(m, blocks, x);
      blocks := map q | q in blocks :: ReplaceIn(blocks[q], Instead(x, Dead));
    }

    /** Reroutes the `i`-th target of the terminator of `p`, if it is still an original block. */
    method RetargetSucc(p: BlockRef, i: nat, m: map<BlockRef, BlockRef>)
      requires p in blocks && blocks[p].term.Some? && i < |blocks[p].term.value.Succs()| && AllClonePhis(blocks)
      requires forall b | b in m :: m[b].Orig? && CloneOf(m[b]) in blocks
      modifies this
      ensures order == old(order) && PendsOutside(m, p, old(blocks), blocks)
      ensures TermPendsBut(m, old(blocks)[p].term.value, blocks[p].term, i)
    {
      ghost var t, was := blocks[p].term.value, blocks;
      var suc := blocks[p].term.value.Succs()[i];
      hide TermPendsBut, TermPends, PendsOutside, SameInsts;
      if suc.Orig? && suc in m {
        OneSettled(m, t, i, CloneOf(m[suc]));
        hide AllClonePhis;
        SetSuccessor(p, i, CloneOf(m[suc]));
        PhisStay(was, blocks, p, CloneOf(m[suc]));
        ReplaceIncoming(CloneOf(m[suc]), Instead(suc, p));
        SamePends(m, p, was, blocks);
      } else if suc.Orig? {
        hide AllClonePhis;
        ReplaceUsesByDead(suc, m);
        KeysStay(was, blocks);
        ghost var mid := blocks;
        OneSettledLater(m, t, mid[p].term, i);
        SetSuccessor(p, i, Dead);
        PendsApart(m, p, was, mid, blocks);
      } else {
        Unsettled(m, t, i);
        SamePends(m, p, was, blocks);
      }
    }

    /** Reroutes every original target of the terminator of `p`. */
    method RetargetSuccs(p: BlockRef, m: map<BlockRef, BlockRef>)
      requires p in blocks && blocks[p].term.Some? && AllClonePhis(blocks)
      requires forall b | b in m :: m[b].Orig? && CloneOf(m[b]) in blocks
      modifies this
      ensures order == old(order) && PendsOutside(m, p, old(blocks), blocks)
      ensures var t := old(blocks)[p].term.value;
              blocks[p].term == Some(t.WithSuccs(SettledAll(m, t.Succs())))
      ensures var xs, ys := old(blocks)[p].term.value.Succs(), blocks[p].term.value.Succs();
              |ys| == |xs| && forall i | 0 <= i < |xs| ::
                ys[i] == if !xs[i].Orig? then xs[i] else if xs[i] in m then CloneOf(m[xs[i]]) else Dead
    {
      ghost var t := blocks[p].term.value;
      var n := |blocks[p].term.value.Succs()|;
      for i := 0 to n
        invariant order == old(order) && PendsOutside(m, p, old(blocks), blocks)
        invariant TermSettles(m, t, blocks[p].term, i)
      {
        ghost var before := blocks;
        RetargetSucc(p, i, m);
        PendsAgain(m, p, old(blocks), before, blocks);
        SettlesOneMore(m, t, before[p].term.value, blocks[p].term, i);
      }
      assert blocks[p].term.value.Succs() == SettledAll(m, t.Succs());
    }

    /** Gives `p`, which has no terminator, a branch to the attractor of a successor it had: of the false target of a
        branch if that has one, of the true target if only that one has.  Other terminators leave it as it is. */
    method BranchToAttractor(p: BlockRef, parent: BlockRef, orig: Term, m: map<BlockRef, BlockRef>, dt: Tree)
      requires p in blocks && blocks[p].term.None? && AllClonePhis(blocks)
      requires forall b | b in m :: m[b].Orig? && CloneOf(m[b]) in blocks
      modifies this
      ensures order == old(order) && p in blocks
      ensures blocks == old(blocks)[p := old(blocks)[p].(term := blocks[p].term)]
      ensures orig.CondBr? && orig.ifFalse in m ==> blocks[p].term == Some(Br(Clone(m[orig.ifFalse].b)))
      ensures orig.CondBr? && orig.ifFalse !in m && orig.ifTrue in m ==> blocks[p].term == Some(Br(Clone(m[orig.ifTrue].b)))
      ensures orig.CondBr? && orig.ifFalse !in m && orig.ifTrue !in m ==> blocks[p].term == None
      ensures orig.Br? ==> blocks[p].term == if orig.target in m then Some(Br(Clone(m[orig.target].b))) else None
      ensures !orig.Br? && !orig.CondBr? ==> blocks[p].term == None
      ensures blocks[p].term == Fallback(m, orig.BranchTargets())
    {
      FallbackCases(m, orig);
      if orig.Br? || orig.CondBr? {
        var sucs := orig.BranchTargets();
        for i := 0 to |sucs|
          invariant blocks == old(blocks) && order == old(order)
          invariant Fallback(m, sucs[i..]) == Fallback(m, sucs)
        {
          if sucs[i] in m {
            var target := CloneOf(m[sucs[i]]);
            blocks := blocks[p := blocks[p].(term := Some(Br(target)))];
            ReplaceIncoming(target, AdoptBelow(dt, parent, p));
            return;
          }
        }
      }
    }

    /** The dominance branches, and the block for targets that must go. */
    method StartRerouting(f: Function, s: Slice, ghost bbs: seq<BlockRef>, dt: Tree, children: map<BlockRef, seq<BlockRef>>)
      requires Reroutable(f, s) && Enumerates(bbs, s.blocks) && (forall b | b in s.blocks :: b.Orig?)
      requires ValidTree(GraphOf(f), dt) && ValidChildren(dt, f.blocks.Keys, children) && dt.root == f.order[0]
      requires Populated(f, s, blocks) && AllClonePhis(blocks)
      modifies this
      ensures order == old(order) + [Dead] && LoopState(f, s, bbs, 0, blocks)
    {
      hide ValidTree, ValidChildren, AllClonePhis, ClonedBlock, DomBranched, LoopState;
      ghost var start := blocks;
      var init := f.order[0];
      NothingAboveRoot(GraphOf(f), init, s.blocks);
      var above := if init in s.blocks then Some(init) else None;
      assert {init} !! Below(GraphOf(f), init, init);
      hide Below, NearestOpt;
      var _ := AddDomBranches(f, s.blocks, dt, children, init, above, {init});
      LoopStarts(f, s, bbs, start, blocks);
      blocks := blocks[Dead := Block([], [], Some(Unreachable))];
      order := order + [Dead];
    }

    /** One turn of the loop over the blocks of the delegate. */
    method RerouteBlock(f: Function, s: Slice, ghost bbs: seq<BlockRef>, ghost i: nat, p: BlockRef, dt: Tree)
      requires Reroutable(f, s) && Enumerates(bbs, s.blocks) && LoopState(f, s, bbs, i, blocks) && i <= |bbs|
      requires p == if i < |bbs| then CloneOf(bbs[i]) else Dead
      modifies this
      ensures order == old(order) && LoopState(f, s, bbs, i + 1, blocks)
    {
      LoopFacts(f, s, bbs, i, blocks);
      hide LoopState, Reroutable, Enumerates, AllClonePhis;
      if p.Clone? {
        if blocks[p].term.None? {
          BranchToAttractor(p, Orig(p.b), f.blocks[Orig(p.b)].term.value, s.attractors, dt);
          SamePends(s.attractors, p, old(blocks), blocks);
        } else {
          RetargetSuccs(p, s.attractors);
        }
        LoopTurn(f, s, bbs, i, old(blocks), blocks);
      } else {
        LoopSkip(f, s, bbs, i, blocks);
      }
    }

    /** Reroutes the branches of the delegate, once its instructions are in place. */
    method RerouteBranches(f: Function, s: Slice, bbs: seq<BlockRef>, dt: Tree, children: map<BlockRef, seq<BlockRef>>)
      requires Reroutable(f, s) && Enumerates(bbs, s.blocks) && (forall b | b in s.blocks :: b.Orig?)
      requires ValidTree(GraphOf(f), dt) && ValidChildren(dt, f.blocks.Keys, children) && dt.root == f.order[0]
      requires Populated(f, s, blocks) && AllClonePhis(blocks) && order == CloneAll(bbs)
      modifies this
      ensures BranchesRerouted(f, s, blocks)
      ensures Dead in blocks <==> exists b :: b in s.blocks && CloneOf(b) in blocks && Dead in blocks[CloneOf(b)].Succs()
      ensures order == if Dead in blocks then CloneAll(bbs) + [Dead] else CloneAll(bbs)
    {
      hide ValidTree, ValidChildren, Populated, AllClonePhis, LoopState, Reroutable, Enumerates;
      StartRerouting(f, s, bbs, dt, children);
      for i := 0 to |order|
        invariant order == CloneAll(bbs) + [Dead]
        invariant LoopState(f, s, bbs, i, blocks)
      {
        RerouteBlock(f, s, bbs, i, order[i], dt);
      }
      ghost var rerouted := blocks;
      var used := exists r :: r in blocks && Dead in blocks[r].Succs();
      if !used {
        blocks := blocks - {Dead};
        order := order[..|order| - 1];
      }
      hide *;
      LoopLeaves(f, s, bbs, rerouted, used, blocks);
    }

    /** The block of the criterion returns it. */
    method AddReturnValue(crit: Id, c: BlockRef)
      requires c in blocks
      modifies this
      ensures order == old(order) && blocks == old(blocks)[c := old(blocks)[c].(term := Some(Ret(Res(crit))))]
    {
      blocks := blocks[c := blocks[c].(term := Some(Ret(Res(crit))))];
    }

    /** The search of `reorderBlocks`: the last block of the layout without predecessors, if there is one. */
    method RealEntry() returns (realEntry: Option<nat>)
      ensures realEntry.Some? ==> realEntry.value < |order| && NoPredecessors(blocks, order[realEntry.value])
      ensures realEntry.Some? ==> forall k | realEntry.value < k < |order| :: !NoPredecessors(blocks, order[k])
      ensures realEntry.None? ==> forall k | 0 <= k < |order| :: !NoPredecessors(blocks, order[k])
    {
      realEntry := None;
      hide NoPredecessors;
      for i := 0 to |order|
        invariant realEntry.Some? ==> realEntry.value < i && NoPredecessors(blocks, order[realEntry.value])
        invariant realEntry.Some? ==> forall k | realEntry.value < k < i :: !NoPredecessors(blocks, order[k])
        invariant realEntry.None? ==> forall k | 0 <= k < i :: !NoPredecessors(blocks, order[k])
      {
        var unreached := forall r | r in blocks :: order[i] !in blocks[r].Succs();
        Unreached(blocks, order[i]);
        if unreached {
          realEntry := Some(i);
        }
      }
    }

    /** Moves the last block without predecessors, that at position `from`, to the front, the others keeping their order;
        `found` is false where the original dereferences a null pointer. */
    method ReorderBlocks() returns (found: bool, ghost from: nat)
      requires forall r :: r in order <==> r in blocks
      modifies `order
      ensures forall r :: r in order <==> r in blocks
      ensures found <==> SomeEntry(blocks)
      ensures found <==> exists r :: r in blocks && forall q | q in blocks :: r !in blocks[q].Succs()
      ensures found ==> |order| > 0 && NoPredecessors(blocks, order[0])
      ensures found ==> from < |old(order)| && order == [old(order)[from]] + old(order)[..from] + old(order)[from + 1..]
      ensures found ==> forall q | q in blocks :: old(order)[from] !in blocks[q].Succs()
      ensures found ==> forall j | from < j < |old(order)| :: exists q :: q in blocks && old(order)[j] in blocks[q].Succs()
      ensures !found ==> order == old(order)
    {
      var realEntry := RealEntry();
      found := realEntry.Some?;
      from := 0;
      hide *;
      if found {
        from := realEntry.value;
        LastSays(blocks, order, from);
        MovedIs(order, from);
        order := MoveFirst(order, realEntry.value);
      } else {
        EntryInLayout(blocks, order);
      }
      EntrySays(blocks);
    }

    /** Parameters of the sliced function become loads from the environment of the thunk, one by one. */
    method InsertLoadForThunkParams(args: seq<nat>, memo: bool)
      modifies this
      ensures order == old(order)
      ensures blocks == map r | r in old(blocks) :: LoadBlock(old(blocks)[r], args, if memo then 3 else 1)
    {
      var base := if memo then 3 else 1;
      ghost var start := blocks;
      hide LoadBlock;
      forall r | r in blocks
        ensures LoadBlock(blocks[r], args[..0], base) == blocks[r]
      {
        LoadNothing(blocks[r], base);
      }
      var i := base;
      for n := 0 to |args|
        invariant i == base + n && order == old(order)
        invariant blocks == map r | r in start :: LoadBlock(start[r], args[..n], base)
      {
        forall r | r in start
          ensures LoadBlock(LoadBlock(start[r], args[..n], base), [args[n]], base + n) == LoadBlock(start[r], args[..n + 1], base)
        {
          LoadOneMore(start[r], args, base, n);
        }
        blocks := map r | r in blocks :: LoadBlock(blocks[r], [args[n]], i);
        i := i + 1;
      }
      assert args[..|args|] == args;
    }

    /** The stages of outlining up to the rerouting of branches. */
    method BuildBlocks(f: Function, s: Slice, dt: Tree, children: map<BlockRef, seq<BlockRef>>, bbs: seq<BlockRef>)
      requires WellFormed(f) && OwnsBlocks(f, s) && Reroutable(f, s) && (forall b | b in s.blocks :: b.Orig?)
      requires ValidTree(GraphOf(f), dt) && ValidChildren(dt, f.blocks.Keys, children) && dt.root == f.order[0]
      requires Enumerates(bbs, s.blocks) && blocks == map[] && order == []
      modifies this
      ensures BranchesRerouted(f, s, blocks)
      ensures forall r :: r in order <==> r in blocks
    {
      assert s.blocks <= f.blocks.Keys;
      hide WellFormed, ValidTree, ValidChildren, Enumerates, Reroutable, BranchesRerouted, Populated, AllClonePhis,
           OwnsBlocks, SlicedBlock;
      PopulateBlocks(s, bbs);
      PopulateBBsWithInsts(f, s);
      ReorganizeUses(f, s);
      RerouteBranches(f, s, bbs, dt, children);
      RerouteFacts(f, s, bbs, blocks);
    }

    /** The stages after the rerouting of branches. */
    method Finish(f: Function, s: Slice, args: seq<nat>, memo: bool) returns (found: bool)
      requires Reroutable(f, s) && s.Home() in s.blocks && (forall b | b in s.blocks :: b.Orig?)
      requires BranchesRerouted(f, s, blocks) && forall r :: r in order <==> r in blocks
      modifies this
      ensures Shaped(f) && s.blocks <= f.blocks.Keys && IsBuilt(f, s, args, if memo then 3 else 1, blocks)
      ensures found <==> SomeEntry(blocks)
      ensures found ==> IsDelegate(f, s, args, if memo then 3 else 1, Function(0, order, blocks))
    {
      hide *;
      ghost var rerouted := blocks;
      HomeIsCloned(f, s, blocks);
      AddReturnValue(s.crit, CloneOf(s.Home()));
      ghost var returned := blocks;
      ReturnedIs(s, rerouted);
      ghost var from;
      found, from := ReorderBlocks();
      InsertLoadForThunkParams(args, memo);
      Finished(f, s, args, if memo then 3 else 1, rerouted, order, blocks);
    }

    /** The stages of outlining, in their order.  `bbs` and `args` enumerate sets the original keeps ordered by
        address.  `found` is false where the original dereferences a null pointer; for a slice with one outcome
        that is when a run can come back to the block in which it enters the slice. */
    method Outline(f: Function, exit: BlockRef, preds: map<BlockRef, seq<Edge>>, s: Slice,
                   dt: Tree, children: map<BlockRef, seq<BlockRef>>, bbs: seq<BlockRef>, args: seq<nat>, memo: bool)
      returns (found: bool)
      requires IsSlice(f, exit, preds, s) && WellFormed(f)
      requires ValidTree(GraphOf(f), dt) && ValidChildren(dt, f.blocks.Keys, children) && dt.root == f.order[0]
      requires Enumerates(bbs, s.blocks) && blocks == map[] && order == []
      modifies this
      ensures IsBuilt(f, s, args, if memo then 3 else 1, blocks)
      ensures found <==> SomeEntry(blocks)
      ensures found ==> IsDelegate(f, s, args, if memo then 3 else 1, Function(0, order, blocks))
      ensures DefsDominateUses(f) && !OnCycle(GraphOf(f), s.Home()) && OneOutcome(f, exit, s) && SwitchesCovered(f, s) ==>
        (found <==> EntersOnce(f, s))
    {
      SliceReroutable(f, exit, preds, s);
      hide IsSlice, WellFormed, ValidTree, ValidChildren, Enumerates, Reroutable, BranchesRerouted, OwnsBlocks,
           IsBuilt, IsDelegate, SomeEntry, EntersOnce, OneOutcome, SwitchesCovered, OnCycle, DefsDominateUses;
      BuildBlocks(f, s, dt, children, bbs);
      found := Finish(f, s, args, memo);
      FoundExactly(f, exit, preds, s, args, if memo then 3 else 1, blocks);
    }
  }
}
