/** One outcome is not a matter of course: a short-circuit condition whose delegate goes wrong. */
module Counterexample {
  import opened Graphs
  import opened Ir
  import opened Gates
  import opened Dependences
  import opened Attractors
  import opened Slices
  import opened Arrivals
  import opened Delegates
  import opened SliceFacts
  import opened Rerouting
  import opened Machine
  import opened Examples

  /** `d` branches to `x` and `y`, each of which branches to `c` and `z`; these meet in `m`, whose phi
      tells which of the two was taken. */
  const D := Orig(0)
  const X := Orig(1)
  const Y := Orig(2)
  const C := Orig(3)
  const Z := Orig(4)
  const M := Orig(5)

  const Picked := Phi(PhiId(5, 0), [(C, Const(1)), (Z, Const(2))])

  const Diamond := Function(3, [D, X, Y, C, Z, M], map[
    D := Block([], [], Some(CondBr(Arg(0), X, Y))),
    X := Block([], [], Some(CondBr(Arg(1), C, Z))),
    Y := Block([], [], Some(CondBr(Arg(2), Z, C))),
    C := Block([], [], Some(Br(M))),
    Z := Block([], [], Some(Br(M))),
    M := Block([Picked], [], Some(Ret(Res(PhiId(5, 0)))))])

  const Edges: set<(BlockRef, BlockRef)> := {(D, X), (D, Y), (X, C), (X, Z), (Y, C), (Y, Z), (C, M), (Z, M)}

  const Square := Graph({D, X, Y, C, Z, M}, Edges)

  // ---- the passes accept it ----

  lemma DiamondEdges()
    ensures GraphOf(Diamond) == Square
  {
    forall e | e in Edges
      ensures e in GraphOf(Diamond).edges
    {
      EdgeIsSucc(Diamond, e.0, e.1);
    }
  }

  lemma SuccsInside(b: BlockRef)
    requires b in Diamond.blocks
    ensures Diamond.blocks[b].term.Some? && forall s | s in Diamond.blocks[b].Succs() :: s in Diamond.blocks
  {
  }

  lemma OrderIs(i: int)
    requires 0 <= i < |Diamond.order|
    ensures Diamond.order[i] == Orig(i)
  {
  }

  lemma Shape()
    ensures Shaped(Diamond)
  {
    forall b | b in Diamond.blocks
      ensures Diamond.blocks[b].term.Some? && forall s | s in Diamond.blocks[b].Succs() :: s in Diamond.blocks
    {
      SuccsInside(b);
    }
    forall i | 0 <= i < |Diamond.order|
      ensures Diamond.order[i] == Orig(i)
    {
      OrderIs(i);
    }
    assert |Diamond.order| == 6;
    assert forall b :: b in Diamond.blocks <==> b.Orig? && b.b < 6;
    ShapedFrom(Diamond, 6);
  }

  lemma WayThere(b: BlockRef)
    requires b in Square.nodes
    ensures Reaches(Square, D, b)
  {
    var p := if b == D then [D] else if b == X then [D, X] else if b == Y then [D, Y]
         else if b == C then [D, X, C] else if b == Z then [D, X, Z] else [D, X, C, M];
    assert PathFromTo(Square, p, D, b);
  }

  lemma WayOn(b: BlockRef)
    requires b in Square.nodes
    ensures Reaches(Square, b, M)
  {
    var p := if b == M then [M] else if b == C then [C, M] else if b == Z then [Z, M]
         else if b == X then [X, C, M] else if b == Y then [Y, C, M] else [D, X, C, M];
    assert PathFromTo(Square, p, b, M);
  }

  lemma HasOrder()
    ensures |Diamond.order| > 0 && Diamond.order[0] == D && Diamond.blocks.Keys == Square.nodes
    ensures M in Diamond.blocks && Diamond.blocks[M].Succs() == []
  {
  }

  lemma Flows()
    ensures Flowing(Diamond, M)
  {
    hide *;
    DiamondEdges();
    Shape();
    HasOrder();
    forall b | b in Diamond.blocks
      ensures Reaches(GraphOf(Diamond), Diamond.order[0], b) && Reaches(GraphOf(Diamond), b, M)
    {
      WayThere(b);
      WayOn(b);
    }
    FlowingFrom(Diamond, M);
  }

  lemma OneBlock(b: nat)
    requires Orig(b) in Diamond.blocks
    ensures GoodBlock(Diamond, b)
  {
    DiamondEdges();
    if b == 5 {
      assert (C, Const(1)) in Picked.incoming && (Z, Const(2)) in Picked.incoming;
    }
  }

  lemma OneOperand(id: Id, v: Value)
    requires HasInst(Diamond, id) && v in Operands(Diamond, id)
    ensures GoodValue(Diamond, v) && (v.Res? ==> id == TermId(5) && v == Res(PhiId(5, 0)))
  {
    assert Orig(5) in Diamond.blocks;
  }

  lemma PhisTakeConstants()
    ensures forall id, p, v | HasInst(Diamond, id) && id.PhiId? && (p, v) in PhiAt(Diamond, id).incoming :: v.Const?
  {
  }

  lemma DefsAreAbove()
    requires |Diamond.order| > 0
    ensures DefsDominateUses(Diamond)
  {
    var g, entry := GraphOf(Diamond), Diamond.order[0];
    hide GraphOf, HasInst, Operands, PhiAt;
    PhisTakeConstants();
    forall id, d | HasInst(Diamond, id) && !id.PhiId? && Res(d) in Operands(Diamond, id)
      ensures Dominates(g, entry, Parent(d), Parent(id)) && id.TermId?
    {
      OneOperand(id, Res(d));
    }
  }

  /** The function is one the passes accept. */
  lemma DiamondIsAccepted()
    ensures WellFormed(Diamond) && DefsDominateUses(Diamond) && Flowing(Diamond, M)
  {
    hide *;
    hide HasInst, Operands;
    Flows();
    Shape();
    forall b: nat | Orig(b) in Diamond.blocks
      ensures GoodBlock(Diamond, b)
    {
      OneBlock(b);
    }
    forall id, v | HasInst(Diamond, id) && v in Operands(Diamond, id)
      ensures GoodValue(Diamond, v)
    {
      OneOperand(id, v);
    }
    WellFormedFrom(Diamond);
    HasOrder();
    DefsAreAbove();
  }

  // ---- its slice ----

  /** A function of this shape: the only phi is that of `m`, and nothing but it is used. */
  ghost predicate ShortCircuit(f: Function) {
    && |f.order| > 0 && f.order[0] == D && GraphOf(f) == Square && HasInst(f, PhiId(5, 0))
    && (forall id | HasInst(f, id) && id.PhiId? :: id == PhiId(5, 0) && PhiAt(f, id) == Picked)
    && (forall id, v | HasInst(f, id) && v in Operands(f, id) && v.Res? :: v == Res(PhiId(5, 0)))
  }

  lemma DiamondIsOne()
    ensures ShortCircuit(Diamond)
  {
    DiamondEdges();
    hide GraphOf, Operands;
    forall id, v | HasInst(Diamond, id) && v in Operands(Diamond, id) && v.Res?
      ensures v == Res(PhiId(5, 0))
    {
      OneOperand(id, v);
    }
  }

  /** The gates see `d` only: whether `c` or `z` is entered is not decided in `x` alone, nor in `y`. */
  lemma DecidedInD(p: BlockRef, q: BlockRef)
    requires p == C || p == Z
    ensures GatedVia(Square, D, M, p, M, q) <==> q == D
  {
    var other := if p == C then Z else C;
    assert PathFromTo(Square, [D, X, other, M], D, M) && p !in [D, X, other, M];
    assert PathFromTo(Square, [D, X, p], D, p) && PathFromTo(Square, [D, Y, p], D, p);
    RootDominates(Square, D, p);
    RootDominates(Square, D, D);
    assert D in Square.nodes;
    forall d | Dominates(Square, D, d, p) && !PostDominates(Square, M, p, d)
      ensures d == D
    {
      assert d in [D, X, p] && d in [D, Y, p];
      PostDominatesItself(Square, M, p);
    }
    hide Square, Dominates, PostDominates;
  }

  predicate Inside(v: Value) {
    v.Res? ==> v == Res(PhiId(5, 0)) || v == Res(TermId(0))
  }

  lemma PredsOfM(p: BlockRef)
    requires (p, M) in Square.edges
    ensures p == C || p == Z
  {
  }

  lemma NeedsInside(f: Function, preds: map<BlockRef, seq<Edge>>, s: Slice, u: Value, v: Value)
    requires ShortCircuit(f) && Standing(f, M, preds, s) && s.crit == PhiId(5, 0) && Needs(f, s.gates, u, v)
    ensures Inside(v)
  {
    hide Standing, GraphOf, HasInst, Operands, GatedVia, Branches, Square;
    if GateFor(f, s.gates, u, v) {
      assert s.Home() == M && u.id == PhiId(5, 0);
      assert M in f.blocks by { HomeInSlice(f, M, preds, s); }
      var p := GateComesFrom(f, M, preds, s, s.Home(), v.id);
      PredsOfM(p);
      DecidedInD(p, Orig(v.id.b));
    }
  }

  lemma AllInside(f: Function, preds: map<BlockRef, seq<Edge>>, s: Slice)
    requires ShortCircuit(f) && Standing(f, M, preds, s) && s.crit == PhiId(5, 0)
    ensures forall v | v in s.deps :: Inside(v)
  {
    hide ShortCircuit, Standing, Least, Needs, BlocksOf, Reaches, GraphOf;
    SliceIsLeast(f, M, preds, s);
    CritReaches(f, M, preds, s);
    var t := set v | v in s.deps && Inside(v);
    forall u, v | u in t && Needs(f, s.gates, u, v) && v in s.deps
      ensures v in t
    {
      NeedsInside(f, preds, s, u, v);
    }
    LeastInduction(f, s.gates, Res(s.crit), s.deps, t);
  }

  lemma BroughtInside(f: Function, v: Value, b: BlockRef)
    requires ShortCircuit(f) && Inside(v) && Brings(f, v, b)
    ensures b in {D, C, Z, M}
  {
    hide GraphOf, HasInst, Operands;
  }

  lemma PhiBrings(f: Function)
    requires ShortCircuit(f)
    ensures Brings(f, Res(PhiId(5, 0)), C) && Brings(f, Res(PhiId(5, 0)), Z) && Brings(f, Res(PhiId(5, 0)), M)
  {
    hide GraphOf, Operands, Square;
    assert PhiAt(f, PhiId(5, 0)) == Picked;
    assert Picked.incoming[0] == (C, Const(1)) && Picked.incoming[1] == (Z, Const(2));
  }

  lemma JoinParts(f: Function, s: Slice)
    requires ShortCircuit(f) && s.crit == PhiId(5, 0)
    ensures |f.order| > 0 && f.order[0] == D && GraphOf(f) == Square && s.crit.PhiId? && s.Home() == M && M in f.blocks
    ensures (C, M) in Square.edges && (Z, M) in Square.edges && C != Z
  {
    assert HasInst(f, PhiId(5, 0));
  }

  lemma NoOtherTests(s: Slice)
    requires forall v | v in s.deps :: Inside(v)
    ensures !s.Ends(C) && !s.Ends(Z)
  {
  }

  lemma BranchIsSliced(f: Function, preds: map<BlockRef, seq<Edge>>, s: Slice)
    requires ShortCircuit(f) && Standing(f, M, preds, s) && s.crit == PhiId(5, 0)
    ensures s.Ends(D) && !s.Ends(C) && !s.Ends(Z)
  {
    hide *;
    DecidedInD(C, D);
    JoinParts(f, s);
    GateIsSliced(f, M, preds, s, C, Z, D);
    AllInside(f, preds, s);
    NoOtherTests(s);
  }

  lemma SliceBlocks(f: Function, preds: map<BlockRef, seq<Edge>>, s: Slice)
    requires ShortCircuit(f) && Standing(f, M, preds, s) && s.crit == PhiId(5, 0)
    ensures s.blocks == {D, C, Z, M} && s.Home() == M
  {
    hide *;
    var phi := Res(PhiId(5, 0));
    JoinParts(f, s);
    CritReaches(f, M, preds, s);
    AllInside(f, preds, s);
    BranchIsSliced(f, preds, s);
    PhiBrings(f);
    BroughtIn(f, M, preds, s, phi, C);
    BroughtIn(f, M, preds, s, phi, Z);
    BroughtIn(f, M, preds, s, phi, M);
    TestBringsBlock(f, M, preds, s, D);
    forall b | b in s.blocks
      ensures b in {D, C, Z, M}
    {
      var v := BroughtBy(f, M, preds, s, b);
      BroughtInside(f, v, b);
    }
  }

  lemma TwoOutcomes(f: Function, s: Slice)
    requires ShortCircuit(f) && Shaped(f) && s.blocks == {D, C, Z, M} <= f.blocks.Keys && s.Home() == M && s.Ends(D)
    ensures !OneOutcome(f, M, s)
  {
    assert ArrivesBy(Square, s.blocks, [X, C], X, C) && ArrivesBy(Square, s.blocks, [X, Z], X, Z);
    assert Arrives(Square, s.blocks, X, C) && Arrives(Square, s.blocks, X, Z) && C != Z;
    EdgeIsSucc(f, D, X);
    assert (D, X) in Square.edges;
    hide Shaped, GraphOf, Square, Arrives, HasInst, Operands;
    assert !OneOutcomeAt(f, M, s, D) && D != M;
  }

  /** What the branches of `x` and `y` decide is lost: no delegate outlined for the phi follows every path
      of the function, though `DiamondIsAccepted` shows the function to be one the passes accept. */
  lemma ShortCircuitGoesWrong(f: Function, preds: map<BlockRef, seq<Edge>>, s: Slice, args: seq<nat>, base: nat, d: Function)
    requires ShortCircuit(f) && Standing(f, M, preds, s) && s.crit == PhiId(5, 0) && Shaped(f) && s.blocks <= f.blocks.Keys
    requires IsDelegate(f, s, args, base, d) && |d.order| > 0
    ensures !OneOutcome(f, M, s) && !Faithful(f, s, d)
  {
    hide *;
    JoinParts(f, s);
    SliceBlocks(f, preds, s);
    BranchIsSliced(f, preds, s);
    TwoOutcomes(f, s);
    EndsInM();
    ControlFlowExact(f, M, preds, s, args, base, d);
  }

  lemma EndsInM()
    ensures !OnCycle(Square, M)
  {
    NoCycleAtEnd(Square, M);
  }

  // ---- what a run of it returns ----

  lemma DominatesNone(b: BlockRef, c: BlockRef)
    requires (b == C || b == Z) && c in {D, C, Z, M} && c != b
    ensures !Dominates(Square, D, b, c)
  {
    var other := if b == C then Z else C;
    var p := if c == D then [D] else if c == M then [D, X, other, M] else [D, X, other];
    assert PathFromTo(Square, p, D, c) && b !in p;
  }

  /** Both arms of the branch in `d` are sent to `m`. */
  lemma AttractedToM(m: map<BlockRef, BlockRef>, a: BlockRef)
    requires AttractorMap(Square, M, {D, C, Z, M}, m) && (a == X || a == Y || a == M)
    ensures a in m && m[a] == M
  {
    InSquare(a);
    assert AttractorAt(Square, M, {D, C, Z, M}, m, a);
    hide AttractorMap, Square, PostDominates;
    MIsLast(a);
    assert M in {D, C, Z, M};
    if a != M {
      BothArms(a, m[a]);
    }
  }

  lemma InSquare(a: BlockRef)
    requires a == X || a == Y || a == M
    ensures a in Square.nodes
  {
  }

  lemma BothArms(a: BlockRef, c: BlockRef)
    requires (a == X || a == Y) && PostDominates(Square, M, c, a) && c in {D, C, Z, M}
    ensures c == M
  {
    assert PathFromTo(Square, [a, C, M], a, M) && PathFromTo(Square, [a, Z, M], a, M);
    assert c in [a, C, M] && c in [a, Z, M];
  }

  lemma MIsLast(a: BlockRef)
    ensures PostDominates(Square, M, M, a)
  {
  }

  lemma DiamondBlocks()
    ensures D in Diamond.blocks && C in Diamond.blocks && Z in Diamond.blocks && M in Diamond.blocks && |Diamond.order| > 0
    ensures Diamond.blocks[D] == Block([], [], Some(CondBr(Arg(0), X, Y)))
    ensures Diamond.blocks[C] == Block([], [], Some(Br(M))) && Diamond.blocks[Z] == Block([], [], Some(Br(M)))
    ensures Diamond.blocks[M] == Block([Picked], [], Some(Ret(Res(PhiId(5, 0)))))
  {
  }

  lemma EmptyClone(f: Function, s: Slice, b: BlockRef, t: Option<Term>, args: seq<nat>, base: nat)
    requires b in f.blocks && f.blocks[b].phis == [] && f.blocks[b].body == []
    ensures var blk := LoadBlock(ClonedBlock(f, s, b).(term := t), args, base);
      blk.phis == [] && blk.body == [] && (t.Some? && t.value.Br? ==> blk.term == t)
  {
  }

  lemma ArmFallsBack(s: Slice, b: BlockRef, t: Option<Term>)
    requires (b == C || b == Z) && s.blocks == {D, C, Z, M} && !s.Ends(b)
    requires AttractorMap(Square, M, s.blocks, s.attractors)
    requires b in Diamond.blocks && |Diamond.order| > 0 && Diamond.blocks[b].term.Some? && Rerouted(Diamond, s, b, t)
    ensures t == Some(Br(CloneOf(M)))
  {
    hide *;
    DiamondBlocks();
    DiamondEdges();
    HasOrder();
    AttractedToM(s.attractors, M);
    var c := UnslicedCases(Diamond, s, b, t);
    if c.Some? {
      NearestIsStrict(Square, D, s.blocks, b, c.value);
      DominatesNone(b, c.value);
    }
    FallsBackTo(s.attractors, M);
  }

  lemma {:induction false} FallsBackTo(m: map<BlockRef, BlockRef>, a: BlockRef)
    requires a in m
    ensures Fallback(m, Br(a).BranchTargets()) == Some(Br(CloneOf(m[a])))
  {
  }

  /** The clones of `c` and `z` lead to that of `m`. */
  lemma ArmClone(preds: map<BlockRef, seq<Edge>>, s: Slice, args: seq<nat>, base: nat, bs: map<BlockRef, Block>, b: BlockRef)
    requires Standing(Diamond, M, preds, s) && s.crit == PhiId(5, 0) && Shaped(Diamond) && s.blocks <= Diamond.blocks.Keys
    requires IsBuilt(Diamond, s, args, base, bs) && (b == C || b == Z)
    ensures CloneOf(b) in bs && bs[CloneOf(b)] == Block([], [], Some(Br(CloneOf(M))))
  {
    hide *;
    Prepare(preds, s);
    DiamondBlocks();
    CloneIsBuilt(Diamond, s, args, base, bs, b);
    var t := CloneForm(Diamond, s, args, base, b, bs[CloneOf(b)]);
    EmptyClone(Diamond, s, b, t, args, base);
    ArmFallsBack(s, b, t);
  }

  lemma Names()
    ensures D != M && C != M && Z != M
  {
  }

  lemma Prepare(preds: map<BlockRef, seq<Edge>>, s: Slice)
    requires Standing(Diamond, M, preds, s) && s.crit == PhiId(5, 0)
    ensures s.blocks == {D, C, Z, M} && s.Home() == M && s.Ends(D) && !s.Ends(C) && !s.Ends(Z) && D != M && C != M && Z != M
    ensures AttractorMap(Square, M, s.blocks, s.attractors) && Res(PhiId(5, 0)) in s.deps
  {
    hide *;
    Names();
    DiamondIsOne();
    DiamondEdges();
    JoinParts(Diamond, s);
    SliceBlocks(Diamond, preds, s);
    BranchIsSliced(Diamond, preds, s);
    SliceGraphOf(Diamond, M, preds, s);
    CritReaches(Diamond, M, preds, s);
  }

  lemma TopFollows(s: Slice, t: Option<Term>, args: seq<nat>, base: nat)
    requires AttractorMap(Square, M, s.blocks, s.attractors) && s.blocks == {D, C, Z, M} && s.Ends(D)
    requires D in Diamond.blocks && |Diamond.order| > 0 && Diamond.blocks[D].term.Some? && Rerouted(Diamond, s, D, t)
    ensures t == Some(CondBr(Arg(0), CloneOf(M), CloneOf(M)))
  {
    AttractedToM(s.attractors, X);
    AttractedToM(s.attractors, Y);
    DiamondBlocks();
    hide Diamond, DomBranchOf, GraphOf, AttractorMap;
    var ts := TargetsOf(s.attractors, [X, Y]);
    assert ts == [CloneOf(M), CloneOf(M)];
  }

  /** So does that of `d`, whatever it decides. */
  lemma TopClone(preds: map<BlockRef, seq<Edge>>, s: Slice, args: seq<nat>, base: nat, bs: map<BlockRef, Block>)
    requires Standing(Diamond, M, preds, s) && s.crit == PhiId(5, 0) && Shaped(Diamond) && s.blocks <= Diamond.blocks.Keys
    requires IsBuilt(Diamond, s, args, base, bs)
    ensures CloneOf(D) in bs && bs[CloneOf(D)] == Block([], [], Some(CondBr(LoadValue(Arg(0), args, base), CloneOf(M), CloneOf(M))))
  {
    hide *;
    Prepare(preds, s);
    DiamondBlocks();
    CloneIsBuilt(Diamond, s, args, base, bs, D);
    var t := CloneForm(Diamond, s, args, base, D, bs[CloneOf(D)]);
    EmptyClone(Diamond, s, D, t, args, base);
    TopFollows(s, t, args, base);
    LoadedBranch(ClonedBlock(Diamond, s, D).(term := t), args, base);
  }

  lemma LoadedBranch(blk: Block, args: seq<nat>, base: nat)
    requires blk.term == Some(CondBr(Arg(0), CloneOf(M), CloneOf(M)))
    ensures LoadBlock(blk, args, base).term == Some(CondBr(LoadValue(Arg(0), args, base), CloneOf(M), CloneOf(M)))
  {
  }

  const PickedClone := Phi(PhiId(5, 0), [(CloneOf(C), Const(1)), (CloneOf(Z), Const(2))])

  lemma JoinIsCloned(s: Slice, t: Option<Term>, args: seq<nat>, base: nat)
    requires s.blocks == {D, C, Z, M} && Res(PhiId(5, 0)) in s.deps && M in Diamond.blocks
    ensures var blk := LoadBlock(ClonedBlock(Diamond, s, M).(term := t), args, base); blk.phis == [PickedClone] && blk.body == []
  {
    DiamondBlocks();
    hide Diamond;
    var deps := s.deps;
    assert [Picked][..0] == [];
    assert KeepPhis([Picked], deps) == [Picked];
    assert CloneIncoming(Picked.incoming, s.blocks) == PickedClone.incoming;
    assert ClonePhi(Picked, s.blocks) == PickedClone;
    assert ClonePhis([Picked], s.blocks) == [PickedClone];
    assert LoadPhi(PickedClone, args, base) == PickedClone;
    assert LoadPhis([PickedClone], args, base) == [PickedClone];
  }

  lemma JoinClone(preds: map<BlockRef, seq<Edge>>, s: Slice, args: seq<nat>, base: nat, bs: map<BlockRef, Block>)
    requires Standing(Diamond, M, preds, s) && s.crit == PhiId(5, 0) && Shaped(Diamond) && s.blocks <= Diamond.blocks.Keys
    requires IsBuilt(Diamond, s, args, base, bs)
    ensures CloneOf(M) in bs && bs[CloneOf(M)] == Block([PickedClone], [], Some(Ret(Res(PhiId(5, 0)))))
  {
    hide *;
    Prepare(preds, s);
    DiamondBlocks();
    CloneIsBuilt(Diamond, s, args, base, bs, M);
    var t := CloneForm(Diamond, s, args, base, M, bs[CloneOf(M)]);
    JoinIsCloned(s, t, args, base);
  }

  lemma NothingDone(ops: Ops, t: Option<Term>, prev: Option<BlockRef>, fr: Frame)
    ensures ExecBlock(ops, Block([], [], t), prev, fr) == fr
  {
  }

  lemma PhiDone(ops: Ops, p: Phi, t: Option<Term>, b: BlockRef, fr: Frame)
    ensures ExecBlock(ops, Block([p], [], t), Some(b), fr) == fr.(env := fr.env[p.id := PhiValue(p, Some(b), fr)])
  {
    assert [p][..0] == [];
    assert ExecPhis([p][..0], Some(b), fr) == fr.env;
    hide PhiValue;
    assert ExecPhis([p], Some(b), fr) == fr.env[p.id := PhiValue(p, Some(b), fr)];
    assert ExecBody(ops, [], fr.(env := fr.env[p.id := PhiValue(p, Some(b), fr)])) == fr.(env := fr.env[p.id := PhiValue(p, Some(b), fr)]);
  }

  /** A block that leads to a phi of constants, and the value returned there. */
  lemma {:induction false} TwoSteps(ops: Ops, f: Function, st: State, t: Term, m: BlockRef, p: Phi, v: int)
    requires st.block in f.blocks && f.blocks[st.block] == Block([], [], Some(t)) && Choose(Some(t), st.frame) == Goto(m)
    requires m in f.blocks && f.blocks[m] == Block([p], [], Some(Ret(Res(p.id))))
    requires PhiValue(p, Some(st.block), st.frame) == v
    ensures var o := Run(ops, f, Running(st), 2); o.Finished? && o.value == v
  {
    NothingDone(ops, Some(t), st.prev, st.frame);
    var next := State(m, Some(st.block), st.frame);
    assert Step(ops, f, st) == Running(next);
    PhiDone(ops, p, f.blocks[m].term, st.block, st.frame);
    hide ExecBlock, PhiValue;
    assert Step(ops, f, next).Finished? && Step(ops, f, next).value == v;
    assert Run(ops, f, Running(st), 2) == Run(ops, f, Running(next), 1);
  }

  /** The caller told to go through `x` returns what the second argument picks. */
  lemma {:induction false} CallerReturns(ops: Ops, fr: Frame)
    requires |fr.args| == 3 && fr.args[0] == 1
    ensures var o := Run(ops, Diamond, Running(Start(Diamond, fr)), 4); o.Finished? && o.value == if fr.args[1] != 0 then 1 else 2
  {
    var arm := if fr.args[1] != 0 then C else Z;
    var st := State(arm, Some(X), fr);
    NothingDone(ops, Some(CondBr(Arg(0), X, Y)), None, fr);
    NothingDone(ops, Some(CondBr(Arg(1), C, Z)), Some(D), fr);
    assert Step(ops, Diamond, Start(Diamond, fr)) == Running(State(X, Some(D), fr));
    assert Step(ops, Diamond, State(X, Some(D), fr)) == Running(st);
    PickedValue(Picked, C, Z, arm, fr);
    DiamondBlocks();
    hide Diamond, ExecBlock, Step, Start, PhiValue;
    TwoSteps(ops, Diamond, st, Br(M), M, Picked, if fr.args[1] != 0 then 1 else 2);
    assert Run(ops, Diamond, Running(State(X, Some(D), fr)), 3) == Run(ops, Diamond, Running(st), 2);
  }

  lemma PickedValue(p: Phi, c: BlockRef, z: BlockRef, b: BlockRef, fr: Frame)
    requires p.incoming == [(c, Const(1)), (z, Const(2))] && c != z
    ensures PhiValue(p, Some(b), fr) == if b == c then 1 else if b == z then 2 else 0
  {
    assert p.incoming[1..] == [(z, Const(2))] && p.incoming[1..][1..] == [];
    assert Incoming(p.incoming[1..][1..], b) == None;
    assert Incoming(p.incoming[1..], b) == if b == z then Some(Const(2)) else None;
  }

  /** Where the delegate starts, and what it then returns from every thunk. */
  lemma DelegateReturnsOne(preds: map<BlockRef, seq<Edge>>, s: Slice, args: seq<nat>, base: nat, d: Function) returns (wrong: int)
    requires Standing(Diamond, M, preds, s) && s.crit == PhiId(5, 0) && Shaped(Diamond) && s.blocks <= Diamond.blocks.Keys
    requires IsDelegate(Diamond, s, args, base, d)
    ensures |d.order| > 0
    ensures forall ops, fr :: var o := Run(ops, d, Running(Start(d, fr)), 2); o.Finished? && o.value == wrong
  {
    hide *;
    var y := EntryBlock(Diamond, s, args, base, d);
    Prepare(preds, s);
    ArmClone(preds, s, args, base, d.blocks, C);
    ArmClone(preds, s, args, base, d.blocks, Z);
    TopClone(preds, s, args, base, d.blocks);
    JoinClone(preds, s, args, base, d.blocks);
    EntryIsNot(preds, s, args, base, d, y);
    ClonesDiffer();
    wrong := if y == C then 1 else if y == Z then 2 else 0;
    forall ops, fr
      ensures var o := Run(ops, d, Running(Start(d, fr)), 2); o.Finished? && o.value == wrong
    {
      PickedValue(PickedClone, CloneOf(C), CloneOf(Z), CloneOf(y), fr);
      EntryLeadsOn(d, args, base, y, fr);
      TwoSteps(ops, d, Start(d, fr), d.blocks[CloneOf(y)].term.value, CloneOf(M), PickedClone, wrong);
    }
  }

  lemma ClonesDiffer()
    ensures CloneOf(C) != CloneOf(Z) && CloneOf(D) != CloneOf(C) && CloneOf(D) != CloneOf(Z)
    ensures PickedClone.incoming == [(CloneOf(C), Const(1)), (CloneOf(Z), Const(2))] && PickedClone.id == PhiId(5, 0)
  {
  }

  lemma EntryLeadsOn(d: Function, args: seq<nat>, base: nat, y: BlockRef, fr: Frame)
    requires |d.order| > 0 && d.order[0] == CloneOf(y) && CloneOf(y) in d.blocks && y in {D, C, Z}
    requires y == D ==> d.blocks[CloneOf(y)] == Block([], [], Some(CondBr(LoadValue(Arg(0), args, base), CloneOf(M), CloneOf(M))))
    requires y != D ==> d.blocks[CloneOf(y)] == Block([], [], Some(Br(CloneOf(M))))
    ensures d.blocks[CloneOf(y)].term.Some? && Choose(d.blocks[CloneOf(y)].term, fr) == Goto(CloneOf(M))
    ensures Start(d, fr).block == CloneOf(y) && Start(d, fr).frame == fr
    ensures d.blocks[CloneOf(y)] == Block([], [], Some(d.blocks[CloneOf(y)].term.value))
  {
    hide CloneOf, LoadValue;
  }

  lemma EntryIsNot(preds: map<BlockRef, seq<Edge>>, s: Slice, args: seq<nat>, base: nat, d: Function, y: BlockRef)
    requires Standing(Diamond, M, preds, s) && s.crit == PhiId(5, 0) && Shaped(Diamond) && s.blocks <= Diamond.blocks.Keys
    requires IsBuilt(Diamond, s, args, base, d.blocks) && |d.order| > 0 && NoPredecessors(d.blocks, d.order[0])
    requires d.order[0] in d.blocks && (d.order[0] == Dead || (y in s.blocks && d.order[0] == CloneOf(y)))
    requires CloneOf(C) in d.blocks && d.blocks[CloneOf(C)] == Block([], [], Some(Br(CloneOf(M))))
    ensures d.order[0] == CloneOf(y) && y in {D, C, Z}
  {
    hide *;
    DiamondEdges();
    EndsInM();
    Prepare(preds, s);
    LedTo(d.blocks, CloneOf(C), CloneOf(M));
    if d.order[0] == Dead {
      DeadHasPredecessor(Diamond, M, preds, s, args, base, d.blocks);
    }
  }

  lemma LedTo(bs: map<BlockRef, Block>, r: BlockRef, m: BlockRef)
    requires r in bs && bs[r].term == Some(Br(m))
    ensures !NoPredecessors(bs, m)
  {
  }

  /** The run that goes wrong: for every delegate outlined for the phi there are arguments for which the caller
      computes one value and the delegate, started on whatever thunk, returns another. */
  lemma ShortCircuitReturnsWrong(preds: map<BlockRef, seq<Edge>>, s: Slice, args: seq<nat>, base: nat, d: Function)
    returns (actual: seq<int>, right: int, wrong: int)
    requires Standing(Diamond, M, preds, s) && s.crit == PhiId(5, 0) && Shaped(Diamond) && s.blocks <= Diamond.blocks.Keys
    requires IsDelegate(Diamond, s, args, base, d)
    ensures |Diamond.order| > 0 && |d.order| > 0 && |actual| == Diamond.nargs && right != wrong
    ensures forall ops, fr: Frame | fr.args == actual ::
      var o := Run(ops, Diamond, Running(Start(Diamond, fr)), 4); o.Finished? && o.value == right
    ensures forall ops, fr :: var o := Run(ops, d, Running(Start(d, fr)), 2); o.Finished? && o.value == wrong
  {
    hide *;
    HasOrder();
    wrong := DelegateReturnsOne(preds, s, args, base, d);
    actual := ChooseArm(wrong);
    right := if wrong == 1 then 2 else 1;
    forall ops, fr: Frame | fr.args == actual
      ensures var o := Run(ops, Diamond, Running(Start(Diamond, fr)), 4); o.Finished? && o.value == right
    {
      CallerReturns(ops, fr);
    }
  }

  lemma ChooseArm(wrong: int) returns (actual: seq<int>)
    ensures |actual| == Diamond.nargs && |actual| == 3 && actual[0] == 1 && (actual[1] != 0 <==> wrong != 1)
  {
    actual := if wrong == 1 then [1, 0, 0] else [1, 1, 0];
  }
}
