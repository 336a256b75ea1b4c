/** Which of two attractors an unsliced branch is given: that of its false target. */
module Crossing {
  import opened Graphs
  import opened Ir
  import opened Gates
  import opened Dependences
  import opened Attractors
  import opened Slices
  import opened Delegates
  import opened SliceFacts
  import opened Rerouting
  import opened Terminators
  import opened Examples
  import opened Counterexample

  /** The blocks are those of the short-circuit condition, but `c` and `z` have phis of their own, which tell whether
      they were entered from `x` or from `y`. */
  const AtC := Phi(PhiId(3, 0), [(X, Const(1)), (Y, Const(2))])
  const AtZ := Phi(PhiId(4, 0), [(X, Const(3)), (Y, Const(4))])
  const AtM := Phi(PhiId(5, 0), [(C, Res(PhiId(3, 0))), (Z, Res(PhiId(4, 0)))])

  const Crossed := Function(3, [D, X, Y, C, Z, M], map[
    D := Block([], [], Some(CondBr(Arg(0), X, Y))),
    X := Block([], [], Some(CondBr(Arg(1), C, Z))),
    Y := Block([], [], Some(CondBr(Arg(2), Z, C))),
    C := Block([AtC], [], Some(Br(M))),
    Z := Block([AtZ], [], Some(Br(M))),
    M := Block([AtM], [], Some(Ret(Res(PhiId(5, 0)))))])

  // ---- the passes accept it ----

  lemma CrossedEdges()
    ensures GraphOf(Crossed) == Square
  {
    forall e | e in Edges
      ensures e in GraphOf(Crossed).edges
    {
      EdgeIsSucc(Crossed, e.0, e.1);
    }
  }

  lemma CrossedSuccs(b: BlockRef)
    requires b in Crossed.blocks
    ensures Crossed.blocks[b].term.Some? && forall s | s in Crossed.blocks[b].Succs() :: s in Crossed.blocks
  {
  }

  lemma CrossedOrder(i: int)
    requires 0 <= i < |Crossed.order|
    ensures Crossed.order[i] == Orig(i)
  {
  }

  lemma CrossedShape()
    ensures Shaped(Crossed)
  {
    forall b | b in Crossed.blocks
      ensures Crossed.blocks[b].term.Some? && forall s | s in Crossed.blocks[b].Succs() :: s in Crossed.blocks
    {
      CrossedSuccs(b);
    }
    forall i | 0 <= i < |Crossed.order|
      ensures Crossed.order[i] == Orig(i)
    {
      CrossedOrder(i);
    }
    assert |Crossed.order| == 6;
    assert forall b :: b in Crossed.blocks <==> b.Orig? && b.b < 6;
    ShapedFrom(Crossed, 6);
  }

  lemma CrossedLayout()
    ensures |Crossed.order| > 0 && Crossed.order[0] == D && Crossed.blocks.Keys == Square.nodes
    ensures M in Crossed.blocks && Crossed.blocks[M].Succs() == []
  {
  }

  lemma CrossedFlows()
    ensures Flowing(Crossed, M)
  {
    hide *;
    CrossedEdges();
    CrossedShape();
    CrossedLayout();
    forall b | b in Crossed.blocks
      ensures Reaches(GraphOf(Crossed), Crossed.order[0], b) && Reaches(GraphOf(Crossed), b, M)
    {
      WayThere(b);
      WayOn(b);
    }
    FlowingFrom(Crossed, M);
  }

  lemma CrossedBlock(b: nat)
    requires Orig(b) in Crossed.blocks
    ensures GoodBlock(Crossed, b)
  {
    CrossedEdges();
    hide GraphOf;
    if b == 3 {
      assert (X, Const(1)) in AtC.incoming && (Y, Const(2)) in AtC.incoming;
    } else if b == 4 {
      assert (X, Const(3)) in AtZ.incoming && (Y, Const(4)) in AtZ.incoming;
    } else if b == 5 {
      assert (C, Res(PhiId(3, 0))) in AtM.incoming && (Z, Res(PhiId(4, 0))) in AtM.incoming;
    }
  }

  lemma CrossedOperand(id: Id, v: Value)
    requires HasInst(Crossed, id) && v in Operands(Crossed, id)
    ensures GoodValue(Crossed, v)
    ensures v.Res? ==> (id == TermId(5) && v.id == PhiId(5, 0)) || (id == PhiId(5, 0) && v.id in {PhiId(3, 0), PhiId(4, 0)})
  {
    assert Orig(3) in Crossed.blocks && Orig(4) in Crossed.blocks && Orig(5) in Crossed.blocks;
  }

  lemma CrossedPhi(id: Id)
    requires HasInst(Crossed, id) && id.PhiId?
    ensures PhiAt(Crossed, id) == if id == PhiId(3, 0) then AtC else if id == PhiId(4, 0) then AtZ else AtM
    ensures id in {PhiId(3, 0), PhiId(4, 0), PhiId(5, 0)}
  {
  }

  lemma CrossedHas()
    ensures HasInst(Crossed, PhiId(3, 0)) && HasInst(Crossed, PhiId(4, 0)) && HasInst(Crossed, PhiId(5, 0))
  {
  }

  lemma CrossedDefs()
    requires |Crossed.order| > 0
    ensures DefsDominateUses(Crossed)
  {
    var g, entry := GraphOf(Crossed), Crossed.order[0];
    hide GraphOf, HasInst, Operands, PhiAt, Dominates;
    forall id, p, d | HasInst(Crossed, id) && id.PhiId? && (p, Res(d)) in PhiAt(Crossed, id).incoming
      ensures Dominates(g, entry, Parent(d), p)
    {
      CrossedPhi(id);
      DominatesItself(g, entry, p);
    }
    forall id, d | HasInst(Crossed, id) && !id.PhiId? && Res(d) in Operands(Crossed, id)
      ensures Dominates(g, entry, Parent(d), Parent(id)) && id.TermId?
    {
      CrossedOperand(id, Res(d));
      DominatesItself(g, entry, M);
    }
  }

  lemma CrossedIsAccepted()
    ensures WellFormed(Crossed) && DefsDominateUses(Crossed) && Flowing(Crossed, M)
  {
    hide *;
    hide HasInst, Operands;
    CrossedFlows();
    CrossedShape();
    forall b: nat | Orig(b) in Crossed.blocks
      ensures GoodBlock(Crossed, b)
    {
      CrossedBlock(b);
    }
    forall id, v | HasInst(Crossed, id) && v in Operands(Crossed, id)
      ensures GoodValue(Crossed, v)
    {
      CrossedOperand(id, v);
    }
    WellFormedFrom(Crossed);
    CrossedLayout();
    CrossedDefs();
  }

  // ---- its slice ----

  /** By which of `x` and `y` the blocks `c` and `z` are entered is decided in `d` too. */
  lemma ArmDecidedInD(p: BlockRef, b: BlockRef, q: BlockRef)
    requires (p == X || p == Y) && (b == C || b == Z)
    ensures GatedVia(Square, D, M, p, b, q) <==> q == D
  {
    var other := if p == X then Y else X;
    assert PathFromTo(Square, [D, other, b], D, b) && p !in [D, other, b];
    assert PathFromTo(Square, [D, other, b, M], D, M) && p !in [D, other, b, M];
    assert PathFromTo(Square, [D, p], D, p);
    RootDominates(Square, D, p);
    RootDominates(Square, D, D);
    assert D in Square.nodes;
    forall d | Dominates(Square, D, d, p) && !PostDominates(Square, M, p, d)
      ensures d == D
    {
      assert d in [D, p];
      PostDominatesItself(Square, M, p);
    }
    hide Square, Dominates, PostDominates;
  }

  lemma PredsOf(p: BlockRef, b: BlockRef)
    requires (p, b) in Square.edges && b in {C, Z, M}
    ensures b == M ==> p == C || p == Z
    ensures b != M ==> p == X || p == Y
  {
  }

  predicate InTheSlice(v: Value) {
    v.Res? ==> v.id in {PhiId(3, 0), PhiId(4, 0), PhiId(5, 0), TermId(0)}
  }

  lemma NeedsStay(preds: map<BlockRef, seq<Edge>>, s: Slice, u: Value, v: Value)
    requires Standing(Crossed, M, preds, s) && Needs(Crossed, s.gates, u, v)
    ensures InTheSlice(v)
  {
    hide Standing, GraphOf, HasInst, Operands, GatedVia, Branches, Square, PhiAt;
    CrossedEdges();
    CrossedLayout();
    if GateFor(Crossed, s.gates, u, v) {
      CrossedPhi(u.id);
      var b := Parent(u.id);
      assert b in Crossed.blocks by { HasParent(u.id); }
      var p := GateComesFrom(Crossed, M, preds, s, b, v.id);
      PredsOf(p, b);
      if b == M {
        DecidedInD(p, Orig(v.id.b));
      } else {
        ArmDecidedInD(p, b, Orig(v.id.b));
      }
    } else if v.Res? {
      CrossedOperand(u.id, v);
    }
  }

  lemma {:induction false} HasParent(id: Id)
    requires HasInst(Crossed, id)
    ensures Parent(id) in Crossed.blocks
  {
  }

  lemma AllInTheSlice(preds: map<BlockRef, seq<Edge>>, s: Slice)
    requires Standing(Crossed, M, preds, s) && s.crit == PhiId(5, 0)
    ensures forall v | v in s.deps :: InTheSlice(v)
  {
    hide *;
    SliceIsLeast(Crossed, M, preds, s);
    CritReaches(Crossed, M, preds, s);
    var t := set v | v in s.deps && InTheSlice(v);
    PhiInTheSlice();
    forall u, v | u in t && Needs(Crossed, s.gates, u, v) && v in s.deps
      ensures v in t
    {
      NeedsStay(preds, s, u, v);
    }
    LeastInduction(Crossed, s.gates, Res(s.crit), s.deps, t);
  }

  lemma PhiInTheSlice()
    ensures InTheSlice(Res(PhiId(5, 0)))
  {
  }

  lemma ArmsNeeded(s: Slice)
    ensures Needs(Crossed, s.gates, Res(PhiId(5, 0)), Res(PhiId(3, 0))) && Needs(Crossed, s.gates, Res(PhiId(5, 0)), Res(PhiId(4, 0)))
  {
    CrossedHas();
    assert AtM.incoming[0].1 == Res(PhiId(3, 0)) && AtM.incoming[1].1 == Res(PhiId(4, 0));
    var vs := Operands(Crossed, PhiId(5, 0));
    assert vs[0] == Res(PhiId(3, 0)) && vs[1] == Res(PhiId(4, 0));
  }

  lemma ArmsBring()
    ensures Brings(Crossed, Res(PhiId(3, 0)), X) && Brings(Crossed, Res(PhiId(3, 0)), Y)
    ensures Brings(Crossed, Res(PhiId(3, 0)), C) && Brings(Crossed, Res(PhiId(4, 0)), Z)
  {
    CrossedHas();
    CrossedPhi(PhiId(3, 0));
    CrossedPhi(PhiId(4, 0));
    assert AtC.incoming[0].0 == X && AtC.incoming[1].0 == Y;
  }

  /** All four arms are in the slice, and the branches of `x` and `y` are not. */
  lemma ArmsInSlice(preds: map<BlockRef, seq<Edge>>, s: Slice)
    requires Standing(Crossed, M, preds, s) && s.crit == PhiId(5, 0)
    ensures X in s.blocks && Y in s.blocks && C in s.blocks && Z in s.blocks && s.blocks <= Square.nodes
    ensures Res(TermId(1)) !in s.deps && Res(TermId(2)) !in s.deps && s.Home() == M
    ensures AttractorMap(Square, M, s.blocks, s.attractors)
  {
    hide *;
    CrossedEdges();
    CrossedLayout();
    CritReaches(Crossed, M, preds, s);
    SliceIsLeast(Crossed, M, preds, s);
    ArmsNeeded(s);
    LeastHolds(Crossed, s.gates, Res(s.crit), s.deps, Res(PhiId(5, 0)), Res(PhiId(3, 0)));
    LeastHolds(Crossed, s.gates, Res(s.crit), s.deps, Res(PhiId(5, 0)), Res(PhiId(4, 0)));
    ArmsBring();
    BroughtIn(Crossed, M, preds, s, Res(PhiId(3, 0)), X);
    BroughtIn(Crossed, M, preds, s, Res(PhiId(3, 0)), Y);
    BroughtIn(Crossed, M, preds, s, Res(PhiId(3, 0)), C);
    BroughtIn(Crossed, M, preds, s, Res(PhiId(4, 0)), Z);
    AllInTheSlice(preds, s);
    NoTestInside(s);
    SliceGraphOf(Crossed, M, preds, s);
  }

  lemma NoTestInside(s: Slice)
    requires (forall v | v in s.deps :: InTheSlice(v)) && s.crit == PhiId(5, 0)
    ensures Res(TermId(1)) !in s.deps && Res(TermId(2)) !in s.deps && s.Home() == M
  {
  }

  lemma ArmDominatesNothing(b: BlockRef, d: BlockRef)
    requires (b == X || b == Y) && d in Square.nodes && d != b
    ensures !Dominates(Square, D, b, d)
  {
    var other := if b == X then Y else X;
    var p := if d == D then [D] else if d == other then [D, other] else if d == M then [D, other, C, M] else [D, other, d];
    assert PathFromTo(Square, p, D, d) && b !in p;
  }

  lemma OwnAttractor(m: map<BlockRef, BlockRef>, bbs: set<BlockRef>, b: BlockRef)
    requires AttractorMap(Square, M, bbs, m) && b in bbs && (b == C || b == Z)
    ensures b in m && m[b] == b
  {
    assert b in Square.nodes;
    assert AttractorAt(Square, M, bbs, m, b);
    hide SomePostDominator, IsAttractor;
  }

  lemma ArmsAre()
    ensures X == Orig(1) && Y == Orig(2) && M == Orig(5)
    ensures Orig(1) in Crossed.blocks && Crossed.blocks[Orig(1)].term == Some(CondBr(Arg(1), C, Z))
    ensures Orig(2) in Crossed.blocks && Crossed.blocks[Orig(2)].term == Some(CondBr(Arg(2), Z, C))
  {
  }

  /** Whatever is built for the phi of `m`: `x`, which goes to `c` or else to `z`, is sent to `z`, and `y`, which goes to
      `z` or else to `c`, to `c`. */
  lemma FalseTargetsAreTaken(preds: map<BlockRef, seq<Edge>>, s: Slice, args: seq<nat>, base: nat, bs: map<BlockRef, Block>)
    requires Standing(Crossed, M, preds, s) && s.crit == PhiId(5, 0) && Shaped(Crossed) && s.blocks <= Crossed.blocks.Keys
    requires IsBuilt(Crossed, s, args, base, bs)
    ensures Clone(1) in bs && bs[Clone(1)].term == Some(Br(Clone(4)))
    ensures Clone(2) in bs && bs[Clone(2)].term == Some(Br(Clone(3)))
  {
    hide *;
    ArmsInSlice(preds, s);
    ArmsAre();
    CrossedEdges();
    CrossedLayout();
    OwnAttractor(s.attractors, s.blocks, C);
    OwnAttractor(s.attractors, s.blocks, Z);
    forall b, d | (b == X || b == Y) && d in s.blocks && d != b
      ensures !Dominates(Square, D, b, d)
    {
      ArmDominatesNothing(b, d);
    }
    UnslicedBranchLeads(Crossed, M, preds, s, args, base, bs, 1);
    UnslicedBranchLeads(Crossed, M, preds, s, args, base, bs, 2);
    ClonesAre();
  }

  lemma ClonesAre()
    ensures CloneOf(Orig(1)) == Clone(1) && CloneOf(Orig(2)) == Clone(2) && CloneOf(C) == Clone(3) && CloneOf(Z) == Clone(4)
  {
  }
}
