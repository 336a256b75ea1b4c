/** An entry is not a matter of course: a loop that is left in two places, whose delegate has none. */
module SearchLoop {
  import opened Graphs
  import opened Ir
  import opened Gates
  import opened Dependences
  import opened Slices
  import opened Arrivals
  import opened Delegates
  import opened SliceFacts
  import opened Rerouting
  import opened Examples

  /** `h` and `l` look whether the loop is done and leave it through `a` and `b`; `t` does some work and goes
      round again.  The phi of `m` tells where the loop was left. */
  const E := Orig(0)
  const H := Orig(1)
  const L := Orig(2)
  const T := Orig(3)
  const A := Orig(4)
  const B := Orig(5)
  const M := Orig(6)

  const Found := Phi(PhiId(6, 0), [(A, Arg(1)), (B, Arg(2))])

  const Search := Function(3, [E, H, L, T, A, B, M], map[
    E := Block([], [], Some(Br(H))),
    H := Block([], [Instr(BodyId(1, 0), Fn(0), [Arg(0)])], Some(CondBr(Res(BodyId(1, 0)), A, L))),
    L := Block([], [Instr(BodyId(2, 0), Fn(1), [Arg(0)])], Some(CondBr(Res(BodyId(2, 0)), B, T))),
    T := Block([], [Instr(BodyId(3, 0), Fn(2), [])], Some(Br(H))),
    A := Block([], [], Some(Br(M))),
    B := Block([], [], Some(Br(M))),
    M := Block([Found], [], Some(Ret(Res(PhiId(6, 0)))))])

  const Edges: set<(BlockRef, BlockRef)> := {(E, H), (H, A), (H, L), (L, B), (L, T), (T, H), (A, M), (B, M)}

  const Loop := Graph({E, H, L, T, A, B, M}, Edges)

  // ---- the passes accept it ----

  lemma SearchEdges()
    ensures GraphOf(Search) == Loop
  {
    forall e | e in Edges
      ensures e in GraphOf(Search).edges
    {
      EdgeIsSucc(Search, e.0, e.1);
    }
  }

  lemma SuccsInside(b: BlockRef)
    requires b in Search.blocks
    ensures Search.blocks[b].term.Some? && !Search.blocks[b].term.value.Switch?
    ensures forall s | s in Search.blocks[b].Succs() :: s in Search.blocks
  {
  }

  lemma OrderIs(i: int)
    requires 0 <= i < |Search.order|
    ensures Search.order[i] == Orig(i)
  {
  }

  lemma Shape()
    ensures Shaped(Search)
  {
    forall b | b in Search.blocks
      ensures Search.blocks[b].term.Some? && forall s | s in Search.blocks[b].Succs() :: s in Search.blocks
    {
      SuccsInside(b);
    }
    forall i | 0 <= i < |Search.order|
      ensures Search.order[i] == Orig(i)
    {
      OrderIs(i);
    }
    assert |Search.order| == 7;
    assert forall b :: b in Search.blocks <==> b.Orig? && b.b < 7;
    ShapedFrom(Search, 7);
  }

  lemma WayThere(b: BlockRef)
    requires b in Loop.nodes
    ensures Reaches(Loop, E, b)
  {
    var p := if b == E then [E] else if b == H then [E, H] else if b == L then [E, H, L] else if b == T then [E, H, L, T]
         else if b == A then [E, H, A] else if b == B then [E, H, L, B] else [E, H, A, M];
    assert PathFromTo(Loop, p, E, b);
  }

  lemma WayOn(b: BlockRef)
    requires b in Loop.nodes
    ensures Reaches(Loop, b, M)
  {
    var p := if b == M then [M] else if b == A then [A, M] else if b == B then [B, M] else if b == H then [H, A, M]
         else if b == L then [L, B, M] else if b == T then [T, H, A, M] else [E, H, A, M];
    assert PathFromTo(Loop, p, b, M);
  }

  lemma HasOrder()
    ensures |Search.order| > 0 && Search.order[0] == E && Search.blocks.Keys == Loop.nodes
    ensures M in Search.blocks && Search.blocks[M].Succs() == []
  {
  }

  lemma Flows()
    ensures Flowing(Search, M)
  {
    hide *;
    SearchEdges();
    Shape();
    HasOrder();
    forall b | b in Search.blocks
      ensures Reaches(GraphOf(Search), Search.order[0], b) && Reaches(GraphOf(Search), b, M)
    {
      WayThere(b);
      WayOn(b);
    }
    FlowingFrom(Search, M);
  }

  lemma OneBlock(b: nat)
    requires Orig(b) in Search.blocks
    ensures GoodBlock(Search, b)
  {
    SearchEdges();
    if b == 6 {
      assert (A, Arg(1)) in Found.incoming && (B, Arg(2)) in Found.incoming;
    }
  }

  lemma {:induction false} OneOperand(id: Id, v: Value)
    requires HasInst(Search, id) && v in Operands(Search, id)
    ensures GoodValue(Search, v) && (v.Res? ==> Parent(v.id) != E && Parent(v.id) == Parent(id) && !id.BodyId? && !id.PhiId?)
  {
    assert id.PhiId? ==> v == Arg(1) || v == Arg(2);
  }

  lemma SearchIsAccepted()
    ensures WellFormed(Search) && DefsDominateUses(Search) && Flowing(Search, M)
  {
    hide *;
    hide HasInst, Operands;
    Flows();
    Shape();
    forall b: nat | Orig(b) in Search.blocks
      ensures GoodBlock(Search, b)
    {
      OneBlock(b);
    }
    forall id, v | HasInst(Search, id) && v in Operands(Search, id)
      ensures GoodValue(Search, v)
    {
      OneOperand(id, v);
    }
    WellFormedFrom(Search);
    HasOrder();
    DefsAreAbove();
  }

  lemma PhisTakeParameters()
    ensures forall id, p, v | HasInst(Search, id) && id.PhiId? && (p, v) in PhiAt(Search, id).incoming :: v.Arg?
  {
  }

  lemma DefsAreAbove()
    requires |Search.order| > 0
    ensures DefsDominateUses(Search)
  {
    var g, entry := GraphOf(Search), Search.order[0];
    hide GraphOf, HasInst, Operands, PhiAt;
    PhisTakeParameters();
    forall id, d | HasInst(Search, id) && !id.PhiId? && Res(d) in Operands(Search, id)
      ensures Dominates(g, entry, Parent(d), Parent(id)) && !id.BodyId?
    {
      OneOperand(id, Res(d));
      DominatesItself(g, entry, Parent(d));
    }
  }

  // ---- its slice ----

  /** A function of this shape: the only phi is that of `m`, and nothing of `e` is used. */
  ghost predicate Searching(f: Function) {
    && |f.order| > 0 && f.order[0] == E && GraphOf(f) == Loop && HasInst(f, PhiId(6, 0))
    && (forall id | HasInst(f, id) && id.PhiId? :: id == PhiId(6, 0) && PhiAt(f, id) == Found)
    && (forall id, v | HasInst(f, id) && v in Operands(f, id) && v.Res? :: Parent(v.id) != E)
    && (forall b | b in f.blocks :: f.blocks[b].term.Some? && !f.blocks[b].term.value.Switch?)
  }

  lemma SearchIsOne()
    ensures Searching(Search)
  {
    SearchEdges();
    hide GraphOf, Operands;
    forall id, v | HasInst(Search, id) && v in Operands(Search, id) && v.Res?
      ensures Parent(v.id) != E
    {
      OneOperand(id, v);
    }
    forall b | b in Search.blocks
      ensures Search.blocks[b].term.Some? && !Search.blocks[b].term.value.Switch?
    {
      SuccsInside(b);
    }
  }

  lemma Above()
    ensures Dominates(Loop, E, H, A) && Dominates(Loop, E, H, L) && Dominates(Loop, E, L, B)
    ensures forall b :: Dominates(Loop, E, E, b)
  {
    SolePred(Loop, E, H, A);
    SolePred(Loop, E, H, L);
    SolePred(Loop, E, L, B);
    forall b
      ensures Dominates(Loop, E, E, b)
    {
      RootDominates(Loop, E, b);
    }
  }

  /** Whether `a` is entered is decided in `h`. */
  lemma ControlsA()
    ensures GatedVia(Loop, E, M, A, M, H)
  {
    Above();
    assert PathFromTo(Loop, [E, H, L, B, M], E, M) && A !in [E, H, L, B, M];
    assert PathFromTo(Loop, [H, L, B, M], H, M) && A !in [H, L, B, M];
    assert PathFromTo(Loop, [E, H, A], E, A);
    forall d | Dominates(Loop, E, d, A) && !PostDominates(Loop, M, A, d)
      ensures Dominates(Loop, E, d, H)
    {
      assert d in [E, H, A];
      assert d != A by { PostDominatesItself(Loop, M, A); }
      DominatesItself(Loop, E, H);
    }
    assert H in Loop.nodes;
    hide Loop, Dominates, PostDominates;
  }

  /** Whether `b` is entered is decided in `l`. */
  lemma ControlsB()
    ensures GatedVia(Loop, E, M, B, M, L)
  {
    Above();
    assert PathFromTo(Loop, [E, H, A, M], E, M) && B !in [E, H, A, M];
    assert PathFromTo(Loop, [L, T, H, A, M], L, M) && B !in [L, T, H, A, M];
    assert PathFromTo(Loop, [E, H, L, B], E, B);
    forall d | Dominates(Loop, E, d, B) && !PostDominates(Loop, M, B, d)
      ensures Dominates(Loop, E, d, L)
    {
      assert d in [E, H, L, B];
      assert d != B by { PostDominatesItself(Loop, M, B); }
      DominatesItself(Loop, E, L);
    }
    assert L in Loop.nodes;
    hide Loop, Dominates, PostDominates;
  }

  /** Both tests of the loop are sliced. */
  lemma TestsAreSliced(f: Function, preds: map<BlockRef, seq<Edge>>, s: Slice)
    requires Searching(f) && Standing(f, M, preds, s) && s.crit == PhiId(6, 0)
    ensures s.Ends(H) && s.Ends(L)
  {
    ControlsA();
    ControlsB();
    assert (A, M) in Loop.edges && (B, M) in Loop.edges && s.Home() == M && A != B;
    assert M in f.blocks by { assert HasInst(f, PhiId(6, 0)); }
    hide Standing, GatedVia, GraphOf, Loop;
    GateIsSliced(f, M, preds, s, A, B, H);
    GateIsSliced(f, M, preds, s, B, A, L);
  }

  predicate Inside(v: Value) {
    v.Res? ==> Parent(v.id) != E
  }

  lemma NeedsInside(f: Function, preds: map<BlockRef, seq<Edge>>, s: Slice, u: Value, v: Value)
    requires Searching(f) && Standing(f, M, preds, s) && s.crit == PhiId(6, 0) && Needs(f, s.gates, u, v)
    ensures Inside(v)
  {
    hide Standing, GraphOf, HasInst, Operands;
    if GateFor(f, s.gates, u, v) {
      assert s.Home() == M && u.id == PhiId(6, 0);
      assert M in f.blocks by { HomeInSlice(f, M, preds, s); }
      var p := GateComesFrom(f, M, preds, s, s.Home(), v.id);
      assert !Branches(Loop, E);
      assert v.id.TermId? && Parent(v.id) == Orig(v.id.b);
    }
  }

  lemma AllInside(f: Function, preds: map<BlockRef, seq<Edge>>, s: Slice)
    requires Searching(f) && Standing(f, M, preds, s) && s.crit == PhiId(6, 0)
    ensures forall v | v in s.deps :: Inside(v)
  {
    hide Searching, Standing, Least, Needs, BlocksOf, Reaches, GraphOf;
    SliceIsLeast(f, M, preds, s);
    CritReaches(f, M, preds, s);
    var t := set v | v in s.deps && Inside(v);
    forall u, v | u in t && Needs(f, s.gates, u, v) && v in s.deps
      ensures v in t
    {
      NeedsInside(f, preds, s, u, v);
    }
    LeastInduction(f, s.gates, Res(s.crit), s.deps, t);
  }

  lemma BroughtInside(f: Function, v: Value, b: BlockRef)
    requires Searching(f) && Inside(v) && Brings(f, v, b)
    ensures b != E
  {
    hide GraphOf, HasInst, Operands;
  }

  lemma PhiBrings(f: Function)
    requires Searching(f)
    ensures Brings(f, Res(PhiId(6, 0)), A) && Brings(f, Res(PhiId(6, 0)), B) && Brings(f, Res(PhiId(6, 0)), M)
  {
    hide GraphOf, Operands, Loop;
    assert PhiAt(f, PhiId(6, 0)) == Found;
    assert Found.incoming[0] == (A, Arg(1)) && Found.incoming[1] == (B, Arg(2));
  }

  lemma SliceBlocks(f: Function, preds: map<BlockRef, seq<Edge>>, s: Slice)
    requires Searching(f) && Standing(f, M, preds, s) && s.crit == PhiId(6, 0)
    ensures E !in s.blocks && H in s.blocks && L in s.blocks && A in s.blocks && B in s.blocks && M in s.blocks
  {
    hide *;
    var phi := Res(PhiId(6, 0));
    CritReaches(f, M, preds, s);
    AllInside(f, preds, s);
    TestsAreSliced(f, preds, s);
    PhiBrings(f);
    BroughtIn(f, M, preds, s, phi, A);
    BroughtIn(f, M, preds, s, phi, B);
    BroughtIn(f, M, preds, s, phi, M);
    TestBringsBlock(f, M, preds, s, H);
    TestBringsBlock(f, M, preds, s, L);
    if E in s.blocks {
      var v := BroughtBy(f, M, preds, s, E);
      BroughtInside(f, v, E);
    }
  }

  lemma EveryBlockIsFine(f: Function, preds: map<BlockRef, seq<Edge>>, s: Slice, b: BlockRef)
    requires Searching(f) && Standing(f, M, preds, s) && s.crit == PhiId(6, 0) && b in s.blocks && b != M && b in f.blocks
    ensures OneOutcomeAt(f, M, s, b)
  {
    hide *;
    SliceBlocks(f, preds, s);
    TestsAreSliced(f, preds, s);
    NodesAre(f, b);
    if b == A || b == B {
      OneWayIsFine(f, M, s, b, M);
    } else if b == T {
      OneWayIsFine(f, M, s, b, H);
    } else {
      SuccsAre(f, b);
      InSliceIsFine(Loop, M, s.blocks, A);
      InSliceIsFine(Loop, M, s.blocks, B);
      InSliceIsFine(Loop, M, s.blocks, L);
      StepInIsFine(Loop, M, s.blocks, T, H);
      NotE(s.blocks, b);
      TestIsFine(f, s, b);
    }
  }

  lemma NodesAre(f: Function, b: BlockRef)
    requires Searching(f) && b in f.blocks
    ensures b in {E, H, L, T, A, B, M} && GraphOf(f) == Loop && {E, H, L, T, A, B, M} <= f.blocks.Keys
    ensures Loop.nodes == {E, H, L, T, A, B, M} && T != M
    ensures b == A || b == B ==> forall e | e in Loop.edges && e.0 == b :: e.1 == M
    ensures forall e | e in Loop.edges && e.0 == T :: e.1 == H
  {
    assert Loop.nodes == GraphOf(f).nodes == f.blocks.Keys;
  }

  lemma NotE(bbs: set<BlockRef>, b: BlockRef)
    requires E !in bbs && b in bbs && b in {E, H, L, T, A, B, M} && b != A && b != B && b != T && b != M
    ensures b == H || b == L
  {
  }

  lemma SuccsAre(f: Function, b: BlockRef)
    requires Searching(f) && b in f.blocks
    ensures b == H ==> forall a | a in f.blocks[b].Succs() :: a == A || a == L
    ensures b == L ==> forall a | a in f.blocks[b].Succs() :: a == B || a == T
  {
    hide HasInst, Operands, GraphOf;
    forall a | a in f.blocks[b].Succs()
      ensures (b, a) in Loop.edges
    {
      EdgeIsSucc(f, b, a);
    }
  }

  lemma TestIsFine(f: Function, s: Slice, b: BlockRef)
    requires (b == H || b == L) && s.Ends(b) && b in f.blocks && GraphOf(f) == Loop
    requires b == H ==> forall a | a in f.blocks[b].Succs() :: a == A || a == L
    requires b == L ==> forall a | a in f.blocks[b].Succs() :: a == B || a == T
    requires OneOutcomeFrom(Loop, M, s.blocks, A) && OneOutcomeFrom(Loop, M, s.blocks, L)
    requires OneOutcomeFrom(Loop, M, s.blocks, B) && OneOutcomeFrom(Loop, M, s.blocks, T)
    ensures OneOutcomeAt(f, M, s, b)
  {
    hide OneOutcomeFrom, GraphOf, Loop;
  }

  lemma EntersAtH(bbs: set<BlockRef>, x: BlockRef)
    requires E !in bbs && H in bbs
    ensures Arrives(Loop, bbs, E, x) <==> x == H
  {
    assert ArrivesBy(Loop, bbs, [E, H], E, H);
    if Arrives(Loop, bbs, E, x) {
      OnlyThere(Loop, bbs, E, H, x);
    }
  }

  lemma RoundAgain()
    ensures OnCycle(Loop, H) && !OnCycle(Loop, M)
  {
    assert PathFromTo(Loop, [H, L, T, H], H, H);
    NoCycleAtEnd(Loop, M);
  }

  lemma NothingWrong(f: Function, preds: map<BlockRef, seq<Edge>>, s: Slice)
    requires Searching(f) && Standing(f, M, preds, s) && s.crit == PhiId(6, 0) && Shaped(f) && s.blocks <= f.blocks.Keys
    ensures OneOutcome(f, M, s) && SwitchesCovered(f, s) && !EntersOnce(f, s)
  {
    hide *;
    SliceBlocks(f, preds, s);
    RoundAgain();
    forall x
      ensures Arrives(Loop, s.blocks, E, x) <==> x == H
    {
      EntersAtH(s.blocks, x);
    }
    forall b | b in s.blocks && b != M && b in f.blocks
      ensures OneOutcomeAt(f, M, s, b)
    {
      EveryBlockIsFine(f, preds, s, b);
    }
    Conclude(f, s);
  }

  lemma Conclude(f: Function, s: Slice)
    requires Searching(f) && Shaped(f) && s.crit == PhiId(6, 0) && s.blocks <= f.blocks.Keys && OnCycle(Loop, H)
    requires forall x :: Arrives(Loop, s.blocks, E, x) <==> x == H
    requires forall b | b in s.blocks && b != M && b in f.blocks :: OneOutcomeAt(f, M, s, b)
    ensures OneOutcome(f, M, s) && SwitchesCovered(f, s) && !EntersOnce(f, s)
  {
    hide Shaped, OneOutcomeAt, Arrives, GraphOf, Loop, OnCycle, HasInst, Operands, DominatesOn;
  }

  /** Nothing is wrong with what the slice leaves out, yet however the delegate is built every block of it has a
      predecessor: the original finds no block to move to the front.  `SearchIsAccepted` and `SearchIsOne` show that the
      passes accept such a function. */
  lemma SearchHasNoEntry(f: Function, preds: map<BlockRef, seq<Edge>>, s: Slice, args: seq<nat>, base: nat,
                         bs: map<BlockRef, Block>)
    requires Searching(f) && Standing(f, M, preds, s) && s.crit == PhiId(6, 0) && Shaped(f) && s.blocks <= f.blocks.Keys
    requires IsBuilt(f, s, args, base, bs)
    ensures OneOutcome(f, M, s) && SwitchesCovered(f, s) && !OnCycle(GraphOf(f), s.Home())
    ensures !SomeEntry(bs)
  {
    assert s.Home() == M && GraphOf(f) == Loop;
    hide *;
    RoundAgain();
    NothingWrong(f, preds, s);
    EntryExact(f, M, preds, s, args, base, bs);
  }
}
