/** The backward slice of a function from one instruction. */
module Slices {
  import opened Graphs
  import opened Ir
  import opened Gates
  import opened Dependences
  import opened Attractors

  datatype Slice = Slice(
    crit: Id,
    gates: GateMap,
    deps: set<Value>,
    blocks: set<BlockRef>,
    attractors: map<BlockRef, BlockRef>)
  {
    /** The block of the criterion, which returns. */
    function Home(): BlockRef { Parent(crit) }

    predicate Has(id: Id) { Res(id) in deps }

    /** The original terminator of `b` is part of the slice. */
    predicate Ends(b: BlockRef) { b.Orig? && Res(TermId(b.b)) in deps }
  }

  ghost predicate IsSlice(f: Function, exit: BlockRef, preds: map<BlockRef, seq<Edge>>, s: Slice) {
    && Flowing(f, exit) && ValidPreds(f, preds)
    && GatesOf(f, exit, preds, s.gates)
    && HasInst(f, s.crit) && !s.crit.TermId?
    && Least(f, s.gates, Res(s.crit), s.deps)
    && (forall v | v in s.deps :: Known(f, v))
    && BlocksOf(f, s.deps, s.blocks)
    && s.blocks <= f.blocks.Keys
    && AttractorMap(GraphOf(f), exit, s.blocks, s.attractors)
  }

  method MakeSlice(f: Function, exit: BlockRef, dt: Tree, pdt: Tree, preds: map<BlockRef, seq<Edge>>, crit: Id)
    returns (s: Slice)
    requires Flowing(f, exit) && WellFormed(f) && ValidPreds(f, preds)
    requires ValidTree(GraphOf(f), dt) && ValidTree(Flip(GraphOf(f)), pdt)
    requires dt.root == f.order[0] && pdt.root == exit
    requires HasInst(f, crit) && !crit.TermId?
    ensures s.crit == crit && IsSlice(f, exit, preds, s)
  {
    hide ValidTree, FlowGraph, Least, BlocksOf, AttractorMap;
    var gates := ComputeGates(f, exit, dt, pdt, preds);
    GatesAreGood(f, exit, preds, gates);
    OperandsKnown(f);
    var bbs, deps := DataDependences(f, gates, crit);
    SliceBlocksExist(f, deps, bbs);
    var attractors := ComputeAttractors(f, exit, pdt, bbs);
    s := Slice(crit, gates, deps, bbs, attractors);
  }

  lemma OperandsKnown(f: Function)
    requires WellFormed(f)
    ensures forall id, v | HasInst(f, id) && v in Operands(f, id) && Tracked(v) :: Known(f, v)
  {
    forall id, v | HasInst(f, id) && v in Operands(f, id) && Tracked(v)
      ensures Known(f, v)
    {
      assert GoodValue(f, v);
    }
  }

  lemma GatesAreGood(f: Function, exit: BlockRef, preds: map<BlockRef, seq<Edge>>, gates: GateMap)
    requires Flowing(f, exit) && GatesOf(f, exit, preds, gates)
    ensures GoodGates(f, gates)
  {
    forall b, v | b in gates && v in gates[b]
      ensures v.TermId? && HasInst(f, v)
    {
      assert BlockGates(GraphOf(f), f.order[0], exit, preds[b], b, gates[b]);
      assert Branches(GraphOf(f), Orig(v.b));
    }
  }

  lemma SliceBlocksExist(f: Function, deps: set<Value>, bbs: set<BlockRef>)
    requires WellFormed(f) && BlocksOf(f, deps, bbs)
    ensures bbs <= f.blocks.Keys
  {
    forall b | b in bbs
      ensures b in f.blocks
    {
      var v :| v in deps && Brings(f, v, b);
      if b != Parent(v.id) {
        var inc := PhiAt(f, v.id).incoming;
        var i :| 0 <= i < |inc| && inc[i].0 == b;
        IncomingIsPred(f, v.id, i);
      }
    }
  }

  lemma {:induction false} IncomingIsPred(f: Function, phi: Id, i: nat)
    requires WellFormed(f) && HasInst(f, phi) && phi.PhiId? && i < |PhiAt(f, phi).incoming|
    ensures (PhiAt(f, phi).incoming[i].0, Parent(phi)) in GraphOf(f).edges
  {
    var (p, v) := PhiAt(f, phi).incoming[i];
    assert GoodBlock(f, phi.b);
    assert (p, v) in f.blocks[Orig(phi.b)].phis[phi.k].incoming;
  }
}
