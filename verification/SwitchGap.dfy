/** Switches that are not sliced: a function that leaves a block of its delegate without terminator. */
module SwitchGap {
  import opened Graphs
  import opened Ir
  import opened Gates
  import opened Dependences
  import opened Slices
  import opened Arrivals
  import opened Delegates
  import opened SliceFacts
  import opened Rerouting
  import opened Examples

  /** `d` branches to `s1` and `s2`, which each switch to `m` or to `x`; both go on to `r`.  In `m` a phi tells where
      it was entered from, and is passed to a call. */
  const D := Orig(0)
  const S1 := Orig(1)
  const S2 := Orig(2)
  const M := Orig(3)
  const X := Orig(4)
  const R := Orig(5)

  const Origin := Phi(PhiId(3, 0), [(S1, Const(1)), (S2, Const(2))])

  const Switched := Function(3, [D, S1, S2, M, X, R], map[
    D := Block([], [], Some(CondBr(Arg(0), S1, S2))),
    S1 := Block([], [], Some(Switch(Arg(1), [1], [M, X]))),
    S2 := Block([], [], Some(Switch(Arg(2), [1], [M, X]))),
    M := Block([Origin], [Instr(BodyId(3, 0), Fn(0), [Res(PhiId(3, 0))])], Some(Br(R))),
    X := Block([], [], Some(Br(R))),
    R := Block([], [], Some(Ret(Const(0))))])

  const Edges: set<(BlockRef, BlockRef)> := {(D, S1), (D, S2), (S1, M), (S1, X), (S2, M), (S2, X), (M, R), (X, R)}

  const Ways := Graph({D, S1, S2, M, X, R}, Edges)

  // ---- the passes accept it ----

  lemma SwitchedEdges()
    ensures GraphOf(Switched) == Ways
  {
    forall e | e in Edges
      ensures e in GraphOf(Switched).edges
    {
      EdgeIsSucc(Switched, e.0, e.1);
    }
  }

  lemma SuccsInside(b: BlockRef)
    requires b in Switched.blocks
    ensures Switched.blocks[b].term.Some? && forall s | s in Switched.blocks[b].Succs() :: s in Switched.blocks
  {
  }

  lemma OrderIs(i: int)
    requires 0 <= i < |Switched.order|
    ensures Switched.order[i] == Orig(i)
  {
  }

  lemma Shape()
    ensures Shaped(Switched)
  {
    forall b | b in Switched.blocks
      ensures Switched.blocks[b].term.Some? && forall s | s in Switched.blocks[b].Succs() :: s in Switched.blocks
    {
      SuccsInside(b);
    }
    forall i | 0 <= i < |Switched.order|
      ensures Switched.order[i] == Orig(i)
    {
      OrderIs(i);
    }
    assert |Switched.order| == 6;
    assert forall b :: b in Switched.blocks <==> b.Orig? && b.b < 6;
    ShapedFrom(Switched, 6);
  }

  lemma WayThere(b: BlockRef)
    requires b in Ways.nodes
    ensures Reaches(Ways, D, b)
  {
    var p := if b == D then [D] else if b == S1 then [D, S1] else if b == S2 then [D, S2]
         else if b == M then [D, S1, M] else if b == X then [D, S1, X] else [D, S1, M, R];
    assert PathFromTo(Ways, p, D, b);
  }

  lemma WayOn(b: BlockRef)
    requires b in Ways.nodes
    ensures Reaches(Ways, b, R)
  {
    var p := if b == R then [R] else if b == M then [M, R] else if b == X then [X, R]
         else if b == S1 then [S1, M, R] else if b == S2 then [S2, M, R] else [D, S1, M, R];
    assert PathFromTo(Ways, p, b, R);
  }

  lemma HasOrder()
    ensures |Switched.order| > 0 && Switched.order[0] == D && Switched.blocks.Keys == Ways.nodes
    ensures R in Switched.blocks && Switched.blocks[R].Succs() == []
  {
  }

  lemma Flows()
    ensures Flowing(Switched, R)
  {
    hide *;
    SwitchedEdges();
    Shape();
    HasOrder();
    forall b | b in Switched.blocks
      ensures Reaches(GraphOf(Switched), Switched.order[0], b) && Reaches(GraphOf(Switched), b, R)
    {
      WayThere(b);
      WayOn(b);
    }
    FlowingFrom(Switched, R);
  }

  lemma OneBlock(b: nat)
    requires Orig(b) in Switched.blocks
    ensures GoodBlock(Switched, b)
  {
    SwitchedEdges();
    if b == 3 {
      assert (S1, Const(1)) in Origin.incoming && (S2, Const(2)) in Origin.incoming;
    }
  }

  lemma OneOperand(id: Id, v: Value)
    requires HasInst(Switched, id) && v in Operands(Switched, id)
    ensures GoodValue(Switched, v) && (v.Res? ==> id == BodyId(3, 0) && v == Res(PhiId(3, 0)))
  {
    assert Orig(3) in Switched.blocks;
  }

  lemma PhisTakeConstants()
    ensures forall id, p, v | HasInst(Switched, id) && id.PhiId? && (p, v) in PhiAt(Switched, id).incoming :: v.Const?
  {
  }

  lemma DefsAreAbove()
    requires |Switched.order| > 0
    ensures DefsDominateUses(Switched)
  {
    var g, entry := GraphOf(Switched), Switched.order[0];
    hide GraphOf, HasInst, Operands, PhiAt;
    PhisTakeConstants();
    forall id, d | HasInst(Switched, id) && !id.PhiId? && Res(d) in Operands(Switched, id)
      ensures Dominates(g, entry, Parent(d), Parent(id)) && Before(d, id)
    {
      OneOperand(id, Res(d));
    }
  }

  lemma SwitchedIsAccepted()
    ensures WellFormed(Switched) && DefsDominateUses(Switched) && Flowing(Switched, R)
  {
    hide *;
    hide HasInst, Operands;
    Flows();
    Shape();
    forall b: nat | Orig(b) in Switched.blocks
      ensures GoodBlock(Switched, b)
    {
      OneBlock(b);
    }
    forall id, v | HasInst(Switched, id) && v in Operands(Switched, id)
      ensures GoodValue(Switched, v)
    {
      OneOperand(id, v);
    }
    WellFormedFrom(Switched);
    HasOrder();
    DefsAreAbove();
  }

  // ---- its slice ----

  /** A function of this shape: `s1` ends in a switch, the only phi is that of `m`, and nothing but it is used. */
  ghost predicate Switching(f: Function) {
    && |f.order| > 0 && f.order[0] == D && GraphOf(f) == Ways && HasInst(f, PhiId(3, 0))
    && S1 in f.blocks && f.blocks[S1].term.Some? && f.blocks[S1].term.value.Switch?
    && (forall id | HasInst(f, id) && id.PhiId? :: id == PhiId(3, 0) && PhiAt(f, id) == Origin)
    && (forall id, v | HasInst(f, id) && v in Operands(f, id) && v.Res? :: v == Res(PhiId(3, 0)))
  }

  lemma SwitchedIsOne()
    ensures Switching(Switched)
  {
    SwitchedEdges();
    hide GraphOf, Operands;
    forall id, v | HasInst(Switched, id) && v in Operands(Switched, id) && v.Res?
      ensures v == Res(PhiId(3, 0))
    {
      OneOperand(id, v);
    }
  }

  /** Whether `m` is entered from `s1` or from `s2` is decided in `d`. */
  lemma DecidedInD(p: BlockRef, q: BlockRef)
    requires p == S1 || p == S2
    ensures GatedVia(Ways, D, R, p, M, q) <==> q == D
  {
    var other := if p == S1 then S2 else S1;
    assert PathFromTo(Ways, [D, other, M], D, M) && p !in [D, other, M];
    assert PathFromTo(Ways, [D, other, M, R], D, R) && p !in [D, other, M, R];
    assert PathFromTo(Ways, [D, p], D, p);
    RootDominates(Ways, D, p);
    RootDominates(Ways, D, D);
    assert D in Ways.nodes;
    forall d | Dominates(Ways, D, d, p) && !PostDominates(Ways, R, p, d)
      ensures d == D
    {
      assert d in [D, p];
      PostDominatesItself(Ways, R, p);
    }
    hide Ways, Dominates, PostDominates;
  }

  predicate Inside(v: Value) {
    v.Res? ==> v == Res(PhiId(3, 0)) || v == Res(TermId(0))
  }

  lemma PredsOfM(p: BlockRef)
    requires (p, M) in Ways.edges
    ensures p == S1 || p == S2
  {
  }

  lemma NeedsInside(f: Function, preds: map<BlockRef, seq<Edge>>, s: Slice, u: Value, v: Value)
    requires Switching(f) && Standing(f, R, preds, s) && s.crit == PhiId(3, 0) && Needs(f, s.gates, u, v)
    ensures Inside(v)
  {
    hide Standing, GraphOf, HasInst, Operands, GatedVia, Branches, Ways;
    if GateFor(f, s.gates, u, v) {
      assert s.Home() == M && u.id == PhiId(3, 0);
      assert M in f.blocks by { HomeInSlice(f, R, preds, s); }
      var p := GateComesFrom(f, R, preds, s, s.Home(), v.id);
      PredsOfM(p);
      DecidedInD(p, Orig(v.id.b));
    }
  }

  lemma AllInside(f: Function, preds: map<BlockRef, seq<Edge>>, s: Slice)
    requires Switching(f) && Standing(f, R, preds, s) && s.crit == PhiId(3, 0)
    ensures forall v | v in s.deps :: Inside(v)
  {
    hide Switching, Standing, Least, Needs, BlocksOf, Reaches, GraphOf;
    SliceIsLeast(f, R, preds, s);
    CritReaches(f, R, preds, s);
    var t := set v | v in s.deps && Inside(v);
    forall u, v | u in t && Needs(f, s.gates, u, v) && v in s.deps
      ensures v in t
    {
      NeedsInside(f, preds, s, u, v);
    }
    LeastInduction(f, s.gates, Res(s.crit), s.deps, t);
  }

  lemma BroughtInside(f: Function, v: Value, b: BlockRef)
    requires Switching(f) && Inside(v) && Brings(f, v, b)
    ensures b in {D, S1, S2, M}
  {
    hide GraphOf, HasInst, Operands;
  }

  lemma PhiBrings(f: Function)
    requires Switching(f)
    ensures Brings(f, Res(PhiId(3, 0)), S1) && Brings(f, Res(PhiId(3, 0)), S2) && Brings(f, Res(PhiId(3, 0)), M)
  {
    hide GraphOf, Operands, Ways;
    assert PhiAt(f, PhiId(3, 0)) == Origin;
    assert Origin.incoming[0] == (S1, Const(1)) && Origin.incoming[1] == (S2, Const(2));
  }

  lemma BranchIsSliced(f: Function, preds: map<BlockRef, seq<Edge>>, s: Slice)
    requires Switching(f) && Standing(f, R, preds, s) && s.crit == PhiId(3, 0)
    ensures s.Ends(D) && !s.Ends(S1) && !s.Ends(S2)
  {
    hide *;
    DecidedInD(S1, D);
    JoinParts(f, s);
    GateIsSliced(f, R, preds, s, S1, S2, D);
    AllInside(f, preds, s);
    NoOtherTests(s);
  }

  lemma JoinParts(f: Function, s: Slice)
    requires Switching(f) && s.crit == PhiId(3, 0)
    ensures |f.order| > 0 && f.order[0] == D && GraphOf(f) == Ways && s.crit.PhiId? && s.Home() == M && M in f.blocks
    ensures (S1, M) in Ways.edges && (S2, M) in Ways.edges && S1 != S2
  {
    assert HasInst(f, PhiId(3, 0));
  }

  lemma NoOtherTests(s: Slice)
    requires forall v | v in s.deps :: Inside(v)
    ensures !s.Ends(S1) && !s.Ends(S2)
  {
  }

  lemma SliceBlocks(f: Function, preds: map<BlockRef, seq<Edge>>, s: Slice)
    requires Switching(f) && Standing(f, R, preds, s) && s.crit == PhiId(3, 0)
    ensures s.blocks == {D, S1, S2, M}
  {
    hide *;
    var phi := Res(PhiId(3, 0));
    CritReaches(f, R, preds, s);
    AllInside(f, preds, s);
    BranchIsSliced(f, preds, s);
    PhiBrings(f);
    BroughtIn(f, R, preds, s, phi, S1);
    BroughtIn(f, R, preds, s, phi, S2);
    BroughtIn(f, R, preds, s, phi, M);
    TestBringsBlock(f, R, preds, s, D);
    forall b | b in s.blocks
      ensures b in {D, S1, S2, M}
    {
      var v := BroughtBy(f, R, preds, s, b);
      BroughtInside(f, v, b);
    }
  }

  // ---- its outcomes ----

  lemma EdgeAt(g: Graph, q: seq<BlockRef>, i: int)
    ensures Path(g, q) && 1 <= i < |q| ==> (q[i - 1], q[i]) in g.edges
  {
  }

  lemma PathsFromX(q: seq<BlockRef>)
    requires Path(Ways, q) && q[0] == X
    ensures |q| <= 2 && (|q| == 2 ==> q[1] == R)
  {
    EdgeAt(Ways, q, 1);
    EdgeAt(Ways, q, 2);
  }

  lemma NothingBehindX(y: BlockRef)
    ensures !Arrives(Ways, {D, S1, S2, M}, X, y)
  {
    forall q | ArrivesBy(Ways, {D, S1, S2, M}, q, X, y)
      ensures y == X || y == R
    {
      PathsFromX(q);
    }
  }

  /** Behind `s1` and behind `s2` there is `m` or nothing. */
  lemma LeavesToM(b: BlockRef, y: BlockRef)
    requires b == S1 || b == S2
    ensures Leaves(Ways, {D, S1, S2, M}, b, y) ==> y == M
  {
    ArrivesAtOnce(Ways, {D, S1, S2, M}, M);
    NothingBehindX(y);
    hide Arrives;
  }

  lemma BranchTargets(f: Function, a: BlockRef)
    requires GraphOf(f) == Ways && D in f.blocks && a in f.blocks[D].Succs()
    ensures a == S1 || a == S2
  {
    EdgeIsSucc(f, D, a);
  }

  lemma OutcomeIsOne(f: Function, s: Slice)
    requires Switching(f) && Shaped(f) && s.blocks == {D, S1, S2, M} <= f.blocks.Keys && s.crit == PhiId(3, 0)
    requires s.Ends(D) && !s.Ends(S1) && !s.Ends(S2)
    ensures OneOutcome(f, R, s)
  {
    ArrivesAtOnce(Ways, s.blocks, D);
    InSliceIsFine(Ways, R, s.blocks, S1);
    InSliceIsFine(Ways, R, s.blocks, S2);
    assert forall b, y | b == S1 || b == S2 :: Leaves(Ways, s.blocks, b, y) ==> y == M by {
      forall b, y | b == S1 || b == S2
        ensures Leaves(Ways, s.blocks, b, y) ==> y == M
      {
        LeavesToM(b, y);
      }
    }
    assert forall a | a in f.blocks[D].Succs() :: a == S1 || a == S2 by {
      forall a | a in f.blocks[D].Succs()
        ensures a == S1 || a == S2
      {
        BranchTargets(f, a);
      }
    }
    hide Shaped, Leaves, Arrives, OneOutcomeFrom, GraphOf, Ways, HasInst, Operands;
  }

  lemma S1DominatesNothing(d: BlockRef)
    requires d in {D, S2, M}
    ensures !Dominates(Ways, D, S1, d)
  {
    var p := if d == D then [D] else if d == S2 then [D, S2] else [D, S2, M];
    assert PathFromTo(Ways, p, D, d) && S1 !in p;
  }

  lemma NotCovered(f: Function, s: Slice)
    requires Switching(f) && s.blocks == {D, S1, S2, M} && !s.Ends(S1)
    ensures !SwitchCovered(f, s, S1)
  {
    hide Dominates, GraphOf, Ways, HasInst, Operands;
    forall d | d in s.blocks && d != S1
      ensures !Dominates(Ways, D, S1, d)
    {
      S1DominatesNothing(d);
    }
  }

  /** What the slice leaves out has one outcome, yet however the delegate is built the clone of `s1` ends in nothing.
      `SwitchedIsAccepted` and `SwitchedIsOne` show that the passes accept such a function. */
  lemma SwitchIsNotCovered(f: Function, preds: map<BlockRef, seq<Edge>>, s: Slice, args: seq<nat>, base: nat,
                           bs: map<BlockRef, Block>)
    requires Switching(f) && Standing(f, R, preds, s) && s.crit == PhiId(3, 0) && Shaped(f) && s.blocks <= f.blocks.Keys
    requires IsBuilt(f, s, args, base, bs)
    ensures OneOutcome(f, R, s) && !SwitchesCovered(f, s)
    ensures CloneOf(S1) in bs && bs[CloneOf(S1)].term == None
  {
    assert s.Home() == M;
    hide *;
    SliceBlocks(f, preds, s);
    BranchIsSliced(f, preds, s);
    OutcomeIsOne(f, s);
    CloneIsBuilt(f, s, args, base, bs, S1);
    NotCovered(f, s);
    var t := CloneForm(f, s, args, base, S1, bs[CloneOf(S1)]);
    TerminatorExact(f, R, preds, s, S1, t);
    CoveredSays(f, s);
  }

  lemma CoveredSays(f: Function, s: Slice)
    requires Shaped(f) && s.blocks <= f.blocks.Keys && S1 in s.blocks && s.crit == PhiId(3, 0)
    ensures |f.order| > 0 && f.blocks[S1].term.Some? && (SwitchesCovered(f, s) ==> SwitchCovered(f, s, S1))
  {
    hide SwitchCovered;
  }
}
