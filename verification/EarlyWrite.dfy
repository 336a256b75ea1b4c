/** A callee that writes what the slice reads before it uses the argument: the memory of the run matters, and the
    original does not ask what the call does to it. */
module EarlyWrite {
  import opened Graphs
  import opened Ir
  import opened Gates
  import opened Dependences
  import opened Slices
  import opened Arrivals
  import opened Delegates
  import opened SliceFacts
  import opened Rerouting
  import opened Memoization
  import opened Machine
  import opened Simulation
  import opened RunSimulation
  import opened Thunks
  import opened Forcing
  import opened CallByNeed
  import opened CallerSide
  import opened HomeBlock
  import opened WholeProgram
  import opened Lazyfication
  import opened UseRewriting
  import opened EndToEnd
  import opened Meanings
  import opened CallerRuns
  import opened Examples

  /** The caller loads a location and passes its value to a function that stores 1 there and returns its argument. */
  const E := Orig(0)
  const LoadId := BodyId(0, 0)
  const CallId := BodyId(0, 1)

  const LoadInst := Instr(LoadId, Fn(0), [])
  const CallInst := Instr(CallId, Fn(1), [Res(LoadId)])
  const StoreInst := Instr(BodyId(0, 0), Fn(2), [])

  const Caller := Function(0, [E], map[E := Block([], [LoadInst, CallInst], Some(Ret(Res(CallId))))])
  const Writer := Function(1, [E], map[E := Block([], [StoreInst], Some(Ret(Arg(0))))])

  function Read(m: Mem): int {
    if 0 in m then m[0] else 0
  }

  /** Operation 0 loads location 0, operation 2 stores 1 there, and operation 1 calls the function that does. */
  ghost predicate LoadsAndStores(ops: Ops) {
    && (forall m :: ops.value(0, [], m) == Read(m) && ops.effect(0, [], m) == m)
    && (forall m :: ops.effect(2, [], m) == m[0 := 1])
    && (forall v, m :: ops.value(1, [v], m) == v && ops.effect(1, [v], m) == m[0 := 1])
  }

  // ---- the passes accept both functions ----

  const Point := Graph({E}, {})

  lemma CallerIs()
    ensures |Caller.order| > 0 && Caller.order[0] == E && Caller.blocks.Keys == {E} && Caller.nargs == 0
    ensures Caller.blocks[E] == Block([], [LoadInst, CallInst], Some(Ret(Res(CallId)))) && GraphOf(Caller) == Point
    ensures LoadInst == Instr(LoadId, Fn(0), []) && CallInst == Instr(CallId, Fn(1), [Res(LoadId)])
    ensures LoadId == BodyId(0, 0) && CallId == BodyId(0, 1) && E == Orig(0)
  {
  }

  lemma WriterIs()
    ensures |Writer.order| > 0 && Writer.order[0] == E && Writer.blocks.Keys == {E} && Writer.nargs == 1
    ensures Writer.blocks[E] == Block([], [StoreInst], Some(Ret(Arg(0)))) && GraphOf(Writer) == Point
    ensures StoreInst == Instr(BodyId(0, 0), Fn(2), []) && E == Orig(0)
  {
  }

  lemma OneBlockIsShaped(f: Function)
    requires f.order == [E] && f.blocks.Keys == {E} && f.blocks[E].term.Some? && f.blocks[E].Succs() == []
    ensures Shaped(f)
  {
    ShapedFrom(f, 1);
  }

  lemma CallerIsAccepted()
    ensures WellFormed(Caller) && DefsDominateUses(Caller) && Flowing(Caller, E)
  {
    CallerIs();
    OneBlockIsShaped(Caller);
    assert PathFromTo(Point, [E], E, E);
    FlowingFrom(Caller, E);
    hide Shaped, Flowing;
    assert GoodBlock(Caller, 0);
    forall id, v | HasInst(Caller, id) && v in Operands(Caller, id)
      ensures GoodValue(Caller, v)
    {
      assert v == Res(LoadId) || v == Res(CallId);
    }
    WellFormedFrom(Caller);
    CallerDefs();
  }

  lemma CallerDefs()
    requires |Caller.order| > 0
    ensures DefsDominateUses(Caller)
  {
    CallerIs();
    hide GraphOf;
    forall id, d | HasInst(Caller, id) && !id.PhiId? && Res(d) in Operands(Caller, id)
      ensures Parent(d) == E == Parent(id) && (id.BodyId? ==> Before(d, id))
    {
      assert id == CallId || id == TermId(0);
    }
    assert forall id | HasInst(Caller, id) :: !id.PhiId?;
    DominatesItself(Point, E, E);
    hide Operands, HasInst, Dominates;
  }

  lemma WriterIsAccepted()
    ensures WellFormed(Writer)
  {
    WriterIs();
    OneBlockIsShaped(Writer);
    hide Shaped;
    assert GoodBlock(Writer, 0);
    forall id, v | HasInst(Writer, id) && v in Operands(Writer, id)
      ensures GoodValue(Writer, v)
    {
      assert v == Arg(0);
    }
    WellFormedFrom(Writer);
  }

  // ---- its slice ----

  /** The load needs nothing, so the call is not sliced. */
  lemma OnlyTheLoad(exit: BlockRef, preds: map<BlockRef, seq<Edge>>, s: Slice)
    requires Standing(Caller, exit, preds, s) && s.crit == LoadId
    ensures !s.Has(CallId)
  {
    hide *;
    SliceIsLeast(Caller, exit, preds, s);
    CritReaches(Caller, exit, preds, s);
    CallerIs();
    forall v
      ensures !Needs(Caller, s.gates, Res(LoadId), v)
    {
      LoadNeedsNothing(s.gates, v);
    }
    LeastInduction(Caller, s.gates, Res(LoadId), s.deps, {Res(LoadId)});
    NotTheLoad(s);
  }

  lemma NotTheLoad(s: Slice)
    requires s.deps <= {Res(LoadId)}
    ensures !s.Has(CallId)
  {
  }

  lemma LoadNeedsNothing(gates: GateMap, v: Value)
    ensures !Needs(Caller, gates, Res(LoadId), v)
  {
    CallerIs();
  }

  lemma CallerIsAmenable(exit: BlockRef, preds: map<BlockRef, seq<Edge>>, s: Slice)
    requires IsSlice(Caller, exit, preds, s) && s.crit == LoadId
    ensures Amenable(Caller, exit, s) && Standing(Caller, exit, preds, s)
  {
    hide *;
    CallerIsAccepted();
    var x := AmenableParts(exit, preds, s);
    HomeInSlice(Caller, exit, preds, s);
    ArrivesAtOnce(Point, s.blocks, E);
    NoCycleAtEnd(Point, E);
    AmenableFrom(exit, s);
  }

  lemma AmenableParts(exit: BlockRef, preds: map<BlockRef, seq<Edge>>, s: Slice) returns (x: BlockRef)
    requires IsSlice(Caller, exit, preds, s) && s.crit == LoadId && WellFormed(Caller) && DefsDominateUses(Caller)
    ensures Standing(Caller, exit, preds, s) && s.Home() == E && E in Point.nodes && (forall e | e in Point.edges :: e.0 != E)
    ensures s.blocks <= Caller.blocks.Keys
  {
    x := E;
  }

  lemma AmenableFrom(exit: BlockRef, s: Slice)
    requires WellFormed(Caller) && DefsDominateUses(Caller) && s.crit == LoadId && !OnCycle(Point, E)
    requires E in s.blocks && s.blocks <= Caller.blocks.Keys && forall y :: Arrives(Point, s.blocks, E, y) <==> y == E
    ensures Amenable(Caller, exit, s)
  {
    CallerIs();
    assert Shaped(Caller) && s.Home() == E;
    hide WellFormed, DefsDominateUses, OnCycle, Arrives, GraphOf, OneOutcomeAt, SwitchCovered;
  }

  // ---- the delegate reads too late ----

  lemma {:induction false} LoadIsStable(ops: Ops, s: Slice, m: Mem, fr: Frame)
    requires LoadsAndStores(ops) && !s.Has(CallId) && fr.mem == m
    ensures Caller.blocks.Keys == {E} && |Caller.order| > 0 && RunStable(ops, Caller, s, m, Start(Caller, fr), 0)
  {
    CallerIs();
    var body := [LoadInst, CallInst];
    assert body[..0] == [] && body[0] == LoadInst && body[1] == CallInst;
    var e1 := fr.(env := ExecPhis([], None, fr));
    assert EvalAll([], e1) == [];
    assert InstrStable(ops, m, LoadInst, ExecBody(ops, body[..0], e1));
    hide InstrStable, ExecBody, Caller, LoadsAndStores;
  }

  /** The load, then the call, run eagerly. */
  lemma CallerExecutes(ops: Ops, fr: Frame)
    requires LoadsAndStores(ops)
    ensures E in Caller.blocks && |Caller.order| > 0
    ensures var v := Read(fr.mem); var after := ExecBlock(ops, Caller.blocks[E], None, fr);
      Eval(Res(LoadId), after) == v && Eval(Res(CallId), after) == v && after.mem == fr.mem[0 := 1]
  {
    CallerIs();
    var body := [LoadInst, CallInst];
    var v := Read(fr.mem);
    var f1 := fr.(env := fr.env[LoadId := v]);
    assert fr.(env := ExecPhis([], None, fr)) == fr;
    assert EvalAll([], fr) == [] && EvalAll([Res(LoadId)], f1) == [v];
    assert body[..1] == [LoadInst] && [LoadInst][..0] == [];
    assert ExecBody(ops, [LoadInst], fr) == ExecInstr(ops, LoadInst, fr) == f1;
    assert ExecBody(ops, body, fr) == ExecInstr(ops, CallInst, f1);
  }

  lemma DelegateReads(ops: Ops, an: Analyses, a: Site, s: Slice, d: Function, env: seq<int>, slots: seq<int>, m: Mem)
    requires LoadsAndStores(ops) && GoodDelegate(ops, Caller, an.exit, an.preds, s, a, d)
    requires a.crit == LoadId && Captures(a, env, []) && HoldsEnv(ops, env, slots) && Unset(ops, slots)
    ensures ops.delegate(slots, m) == Read(m)
  {
    CallerIs();
    var fr := Frame([], map[], m, []);
    var w := Life(Res(LoadId), env, 0, iset {}, iset {}, iset {}, false);
    GoodDelegateSlice(ops, an, a, s, d);
    hide GoodDelegate, LoadsAndStores, Captures, HoldsEnv, Unset, RunStable, Caller;
    OnlyTheLoad(an.exit, an.preds, s);
    LoadIsStable(ops, s, m, fr);
    CallerExecutes(ops, fr);
    assert Start(Caller, fr) == State(E, None, fr);
    assert ReachesIn(ops, Caller, Parent(a.crit), Start(Caller, fr), 0);
    assert FrameAfter(ops, Caller, Start(Caller, fr), 0) == ExecBlock(ops, Caller.blocks[E], None, fr);
    hide ExecBlock, Start, ReachesIn, FrameAfter;
    DelegateReturns(ops, w, Caller, an.exit, an.preds, s, a, d, fr, 0, slots, m);
  }

  lemma GoodDelegateSlice(ops: Ops, an: Analyses, a: Site, s: Slice, d: Function)
    requires GoodDelegate(ops, Caller, an.exit, an.preds, s, a, d)
    ensures Standing(Caller, an.exit, an.preds, s) && s.crit == a.crit
  {
    hide Standing, Shaped, IsDelegate, OneOutcome, SwitchesCovered, OnCycle, ThunkCallMeans, Emitted;
  }

  // ---- the callee ----

  lemma {:induction false} WriterRuns(ops: Ops, v: int, m: Mem, slots: seq<int>)
    requires LoadsAndStores(ops)
    ensures |Writer.order| > 0
    ensures RunIs(Run(ops, Writer, Running(Start(Writer, Fresh([v], m, slots))), 1), v, m[0 := 1])
  {
    WriterIs();
    var fr := Fresh([v], m, slots);
    assert [StoreInst][..0] == [];
    assert fr.(env := ExecPhis([], None, fr)) == fr && EvalAll([], fr) == [];
    assert ExecBody(ops, [StoreInst], fr) == ExecInstr(ops, StoreInst, fr);
    assert ExecBlock(ops, Writer.blocks[E], None, fr).args == [v];
    assert Run(ops, Writer, Running(Start(Writer, fr)), 1) == Step(ops, Writer, Start(Writer, fr));
  }

  /** When the writer comes to use its argument it has stored. */
  lemma {:induction false} WriterUses(ops: Ops, w: Life, v: int, m: Mem)
    requires LoadsAndStores(ops) && w.target == Arg(0) && m[0 := 1] in w.fit
    ensures |Writer.order| > 0 && RunUses(ops, w, Writer, Writer, Start(Writer, Fresh([v], m, [])))
  {
    WriterIs();
    WriterRuns(ops, v, m, []);
    var fr := Fresh([v], m, []);
    var st := Start(Writer, fr);
    assert [StoreInst][..0] == [] && EagerBody([StoreInst], w.target) == [StoreInst];
    assert fr.(env := ExecPhis([], None, fr)) == fr && EvalAll([], fr) == [];
    assert ExecBody(ops, [StoreInst], fr) == ExecInstr(ops, StoreInst, fr);
    assert BlockUses(ops, w, Writer.blocks[E], TailUsed(Writer, w.target, E), None, fr);
    hide BlockUses, TailUsed, LoadsAndStores, Writer, ExecBody, ExecPhis;
    OneStepUses(ops, w, Writer, Writer, st);
  }

  /** A run of one step has one block. */
  lemma {:induction false} OneStepUses(ops: Ops, w: Life, g: Function, f: Function, st: State)
    requires Run(ops, f, Running(st), 1).Finished?
    requires st.block in g.blocks ==> BlockUses(ops, w, g.blocks[st.block], TailUsed(g, w.target, st.block), st.prev, st.frame)
    ensures RunUses(ops, w, g, f, st)
  {
    hide BlockUses, TailUsed, Step;
    forall n: nat
      ensures UsesAt(ops, RunAfter(ops, w, g, f, Running(st), n), g, Run(ops, f, Running(st), n))
    {
      if n > 0 {
        RunOn(ops, f, Running(st), 1, n - 1);
      }
    }
  }

  lemma {:induction false} WriterIsServed(ops: Ops, w: Life, p: Passing)
    requires LoadsAndStores(ops) && p.k == 1 && p.x == 0 && p.vs == [0] && p.m[0 := 1] in w.fit
    ensures |Writer.order| > 0 && CallServed(ops, w, p, Writer)
  {
    assert p.vs[p.x := w.v] == [w.v];
    WriterRuns(ops, w.v, p.m, []);
    WriterUses(ops, LifeIn(w, p), w.v, p.m);
    hide Run, RunUses;
  }

  /** The clone returns 1 on a thunk of the load, whatever was in memory. */
  lemma {:induction false} CloneReturnsOne(ops: Ops, an: Analyses, a: Site, s: Slice, d: Function, e: Function, clone: Function,
                        env: seq<int>, slots: seq<int>, m: Mem)
    requires LoadsAndStores(ops) && GoodDelegate(ops, Caller, an.exit, an.preds, s, a, d) && a.crit == LoadId
    requires ForcedClone(Writer, Arg(0), clone) && Means(ops, 1, clone, e)
    requires Captures(a, env, []) && ThunkReady(ops, env, 1, slots)
    ensures ops.lazy(1, [0], slots, m).0 == 1
  {
    hide *;
    WriterIsAccepted();
    var w, p := OneLife(env), Passing(1, 0, [0], m, false);
    OneLifeIs(env, m);
    var calls, tails := CalleeIsGood(ops, 1, 0, Writer, clone, e);
    forall m' | m' in w.fit
      ensures Yields(ops, w.env, w.v, m')
    {
      forall slots | HoldsEnv(ops, env, slots) && Unset(ops, slots)
        ensures ops.delegate(slots, m') == 1
      {
        DelegateReads(ops, an, a, s, d, env, slots, m');
      }
      YieldsFrom(ops, env, m');
    }
    WriterIsServed(ops, w, p);
    CloneHonoursThunk(ops, w, p, Writer, calls, tails, clone);
    CloneSays(ops, w, m, slots);
  }

  ghost function OneLife(env: seq<int>): Life {
    Life(Res(LoadId), env, 1, iset m: Mem | Read(m) == 1, iset {}, iset {}, false)
  }

  lemma OneLifeIs(env: seq<int>, m: Mem)
    ensures var w := OneLife(env);
      && w.v == 1 && w.env == env && m[0 := 1] in w.fit && (forall m' | m' in w.fit :: Read(m') == 1)
      && forall p: Passing :: p !in w.keeping
  {
  }

  lemma YieldsFrom(ops: Ops, env: seq<int>, m: Mem)
    requires forall slots | HoldsEnv(ops, env, slots) && Unset(ops, slots) :: ops.delegate(slots, m) == 1
    ensures Yields(ops, env, 1, m)
  {
    hide HoldsEnv, Unset;
  }

  lemma CloneSays(ops: Ops, w: Life, m: Mem, slots: seq<int>)
    requires LoadsAndStores(ops) && CloneAgrees(ops, w, Passing(1, 0, [0], m, false)) && ThunkReady(ops, w.env, w.v, slots)
    ensures ops.lazy(1, [0], slots, m).0 == w.v
  {
    hide ThunkReady;
    assert [0][0 := w.v] == [w.v];
    assert Marked(ops, false, slots);
  }

  // ---- the caller ----

  lemma {:induction false} WovenWithoutCalls(body: seq<Instr>, calls: map<Id, seq<nat>>, target: Value)
    requires forall i | i in body :: CallsOf(calls, i.id) == [] && target !in i.args
    ensures Weave(body, calls, target) == body
  {
    hide CallsOf, Weave;
    if body != [] {
      var n := |body| - 1;
      assert body[n] in body && forall i | i in body[..n] :: i in body;
      WovenWithoutCalls(body[..n], calls, target);
      WovenLast(body, calls, target);
      assert body == body[..n] + [body[n]];
    } else {
      WovenNothing(calls, target);
    }
  }

  lemma {:induction false} WovenNothing(calls: map<Id, seq<nat>>, target: Value)
    ensures Weave([], calls, target) == []
  {
  }

  lemma {:induction false} WovenLast(body: seq<Instr>, calls: map<Id, seq<nat>>, target: Value)
    requires body != []
    requires var i := body[|body| - 1]; CallsOf(calls, i.id) == [] && target !in i.args
    ensures Weave(body, calls, target) == Weave(body[..|body| - 1], calls, target) + [body[|body| - 1]]
  {
    var n := |body| - 1;
    assert ForcedInstr(body[n], target).args == body[n].args;
    assert ForcesFor(body[n].id, []) == [];
    hide ForcedInstr, ForcesFor, CallsOf;
    assert Weave(body, calls, target) == Weave(body[..n], calls, target) + [] + [body[n]];
  }

  function LazyCalls(a: Site): seq<Instr> {
    [InitInstr(a), LoadInst, Instr(CallId, LazyCall(1, 0), [Const(0)])]
  }

  ghost predicate Passes(a: Site) {
    a.crit == LoadId && a.call == CallId && a.index == 0
  }

  lemma PassesIs(a: Site)
    requires Passes(a)
    ensures a.crit == LoadId && a.call == CallId && a.index == 0
  {
  }

  lemma WithThunkIs(a: Site)
    requires Passes(a)
    ensures E in WithThunk(Caller, a).blocks && WithThunk(Caller, a).blocks[E] == Block([], LazyCalls(a), Some(Ret(Res(CallId))))
  {
    CallerIs();
    LazyBlocks(Caller, a, E);
    hide WithThunk, Caller;
    var r := PassThunkAll([LoadInst, CallInst], a);
    assert [Res(LoadId)][0 := Const(0)] == [Const(0)];
    assert r == [LoadInst, Instr(CallId, LazyCall(1, 0), [Const(0)])];
    assert r[..0] + [InitInstr(a)] + r[0..] == LazyCalls(a);
  }

  lemma NotUsed(a: Site, i: Instr)
    requires i in LazyCalls(a)
    ensures Res(LoadId) !in i.args
  {
  }

  lemma ForcedCaller(a: Site, calls: map<Id, seq<nat>>, tails: map<BlockRef, seq<Use>>, c: Function)
    requires Passes(a) && Forced(Caller, a, calls, tails, c)
    ensures |c.order| > 0 && c.order[0] == E && E in c.blocks
    ensures c.blocks[E] == Block([], LazyCalls(a), Some(Ret(Res(CallId))))
  {
    hide *;
    CallerIs();
    PassesIs(a);
    WithThunkIs(a);
    ForcedParts(Caller, a, calls, tails, c);
    forall i | i in LazyCalls(a)
      ensures CallsOf(calls, i.id) == [] && Res(LoadId) !in i.args
    {
      NotUsed(a, i);
      NoCallsFor(WithThunk(Caller, a), Res(LoadId), calls, E, i);
    }
    WovenWithoutCalls(LazyCalls(a), calls, Res(LoadId));
    NoTails(a, tails);
    SameForced(a, calls, tails[E]);
  }

  lemma NoCallsFor(f: Function, target: Value, calls: map<Id, seq<nat>>, b: BlockRef, i: Instr)
    requires CallsExact(f, target, calls) && b in f.blocks && i in f.blocks[b].body && target !in i.args
    ensures CallsOf(calls, i.id) == []
  {
    NoneIn(CallsOf(calls, i.id));
    hide CallsOf;
  }

  lemma NoTails(a: Site, tails: map<BlockRef, seq<Use>>)
    requires Passes(a) && TailsExact(WithThunk(Caller, a), Res(LoadId), tails)
    ensures E in tails && tails[E] == []
  {
    CallerIs();
    WithThunkIs(a);
    var f := WithThunk(Caller, a);
    assert f.blocks.Keys == {E};
    hide WithThunk, Caller, LazyCalls;
    forall u
      ensures !TailUse(f, Res(LoadId), E, u)
    {
    }
    NoneIn(tails[E]);
  }

  lemma {:induction false} SameForced(a: Site, calls: map<Id, seq<nat>>, tail: seq<Use>)
    requires tail == [] && Weave(LazyCalls(a), calls, Res(LoadId)) == LazyCalls(a)
    ensures ForcedBlock(0, Block([], LazyCalls(a), Some(Ret(Res(CallId)))), calls, tail, Res(LoadId)) ==
            Block([], LazyCalls(a), Some(Ret(Res(CallId))))
  {
    hide Weave, LazyCalls;
    assert TailForces(tail) == [] && ForcedPhis([], Res(LoadId)) == [];
    assert LazyCalls(a) + [] == LazyCalls(a);
  }

  /** The rewritten caller returns what the clone does with the thunk as it was initialised. */
  lemma LazyExecutes(ops: Ops, a: Site, c: Function, fr: Frame) returns (env: seq<int>, slots: seq<int>)
    requires LoadsAndStores(ops) && Passes(a) && fr.args == []
    requires |c.order| > 0 && c.order[0] == E && E in c.blocks && c.blocks[E] == Block([], LazyCalls(a), Some(Ret(Res(CallId))))
    ensures Captures(a, env, []) && ThunkReady(ops, env, 1, slots)
    ensures var o := Run(ops, c, Running(Start(c, fr)), 1); o.Finished? && o.value == ops.lazy(1, [0], slots, fr.mem).0
  {
    var junk := if |fr.slots| > 1 then fr.slots[1] else 0;
    env := EvalAll(ArgValues(a.envArgs), fr);
    slots := InitSlots(ops.memo, ops.fptr, junk, env);
    InitIsReady(ops, junk, env, 1);
    var f1 := fr.(slots := slots);
    var f2 := f1.(env := f1.env[LoadId := Read(fr.mem)]);
    var body := LazyCalls(a);
    hide ThunkReady, InitSlots;
    assert fr.(env := ExecPhis([], None, fr)) == fr;
    ThreeSteps(ops, body, fr);
    assert ExecInstr(ops, body[0], fr) == f1;
    assert EvalAll([], f1) == [] && EvalAll([Const(0)], f2) == [0];
    assert ExecInstr(ops, body[1], f1) == f2;
    var f3 := ExecInstr(ops, body[2], f2);
    assert CallId in f3.env && f3.env[CallId] == ops.lazy(1, [0], slots, fr.mem).0;
    assert ExecBlock(ops, c.blocks[E], None, fr) == f3;
    hide LazyCalls, ExecBlock, ExecInstr, LoadsAndStores;
    assert Run(ops, c, Running(Start(c, fr)), 1) == Step(ops, c, Start(c, fr));
  }

  lemma {:induction false} ThreeSteps(ops: Ops, body: seq<Instr>, fr: Frame)
    requires |body| == 3
    ensures ExecBody(ops, body, fr) == ExecInstr(ops, body[2], ExecInstr(ops, body[1], ExecInstr(ops, body[0], fr)))
  {
    hide ExecInstr;
    assert body[..2][..1] == body[..1] && body[..1][..0] == [];
    assert ExecBody(ops, body[..1], fr) == ExecInstr(ops, body[0], fr);
    assert ExecBody(ops, body[..2], fr) == ExecInstr(ops, body[1], ExecBody(ops, body[..1], fr));
  }

  lemma SiteIsGood(a: Site)
    requires Passes(a)
    ensures GoodSite(Caller, a) && Callee(Caller, a) == 1
  {
    CallerIs();
  }

  lemma {:induction false} EagerReturns(ops: Ops, fr: Frame)
    requires LoadsAndStores(ops)
    ensures |Caller.order| > 0 && RunIs(Run(ops, Caller, Running(Start(Caller, fr)), 1), Read(fr.mem), fr.mem[0 := 1])
  {
    CallerIs();
    CallerExecutes(ops, fr);
    hide ExecBlock, LoadsAndStores, Caller, Eval;
    var st := Start(Caller, fr);
    assert Step(ops, Caller, st) == Finished(Read(fr.mem), ExecBlock(ops, Caller.blocks[E], None, fr));
    assert Run(ops, Caller, Running(st), 1) == Step(ops, Caller, st);
  }

  /** Whatever the pass leaves of this caller, and whether thunks keep their value or not: it returned what was in
      memory before the call, and now returns what the callee has written. */
  lemma {:induction false} WriteComesFirst(ops: Ops, an: Analyses, a: Site, s: Slice, d: Function, e: Function, clone: Function, c: Function, ef: Frame, lf: Frame)
    requires LoadsAndStores(ops) && Passes(a) && Means(ops, 1, clone, e)
    requires Lazified(Caller, an, a, ops.memo, s, d, e, c) && ForcedClone(Writer, Arg(0), clone)
    requires lf.args == []
    ensures |Caller.order| > 0 && |c.order| > 0 && GoodSite(Caller, a) && Callee(Caller, a) == 1
    ensures var oe, ol := Run(ops, Caller, Running(Start(Caller, ef)), 1), Run(ops, c, Running(Start(c, lf)), 1);
      oe.Finished? && oe.value == Read(ef.mem) && ol.Finished? && ol.value == 1
  {
    hide *;
    SiteIsGood(a);
    EagerReturns(ops, ef);
    EndsSo(Run(ops, Caller, Running(Start(Caller, ef)), 1), Read(ef.mem), ef.mem[0 := 1]);
    SliceOf(an, a, ops.memo, s, d, e, c);
    CallerIsAmenable(an.exit, an.preds, s);
    MeansParts(ops, 1, clone, e);
    DelegateIsGood(ops, Caller, an, a, s, d, e, c);
    var calls, tails := RewrittenSo(Caller, an, a, ops.memo, s, d, e, c);
    ForcedCaller(a, calls, tails, c);
    var env, slots := LazyExecutes(ops, a, c, lf);
    CloneReturnsOne(ops, an, a, s, d, e, clone, env, slots, lf.mem);
  }

  lemma EndsSo(o: Outcome, v: int, m: Mem)
    requires RunIs(o, v, m)
    ensures o.Finished? && o.value == v && o.frame.mem == m
  {
  }

  lemma MeansParts(ops: Ops, k: nat, clone: Function, e: Function)
    requires Means(ops, k, clone, e)
    ensures |e.order| > 0 && ThunkCallMeans(ops, e)
  {
    hide LazyCallMeans, ThunkCallMeans;
  }

  lemma SliceOf(an: Analyses, a: Site, memo: bool, s: Slice, d: Function, e: Function, c: Function)
    requires Lazified(Caller, an, a, memo, s, d, e, c) && Passes(a)
    ensures IsSlice(Caller, an.exit, an.preds, s) && s.crit == LoadId && a.crit == LoadId
  {
    hide IsSlice, Enumerates, Shaped, IsDelegate, Emitted, Forced;
  }

  // ---- when it is right ----

  /** If the location holds 1 already, the memory fits when the clone calls the thunk. */
  lemma {:induction false} SameWriteAllows(ops: Ops, an: Analyses, a: Site, s: Slice, ef: Frame)
    requires LoadsAndStores(ops) && Passes(a) && Standing(Caller, an.exit, an.preds, s) && s.crit == LoadId && Read(ef.mem) == 1
    ensures |Caller.order| > 0 && |Writer.order| > 0 && GoodSite(Caller, a) && RunAllows(ops, Caller, s, a, Writer, ef)
  {
    hide *;
    SiteIsGood(a);
    CallerIs();
    WriterIs();
    PassesIs(a);
    OnlyTheLoad(an.exit, an.preds, s);
    StartIs(ef);
    EagerReturns(ops, ef);
    EndsSo(Run(ops, Caller, Running(Start(Caller, ef)), 1), Read(ef.mem), ef.mem[0 := 1]);
    var st := Start(Caller, ef);
    forall n | ReachesIn(ops, Caller, Parent(a.crit), st, n)
      ensures RunUses(ops, LifeAt(ops, Caller, s, a, Writer, ef, n), PassedThunk(Caller, a), Caller, StateAfter(ops, Caller, st, n))
    {
      AtOnce(ops, a, st, n);
      CallFits(ops, a, s, ef);
      OneStepUses(ops, LifeAt(ops, Caller, s, a, Writer, ef, 0), PassedThunk(Caller, a), Caller, st);
    }
    AllowsFrom(ops, Caller, s, a, Writer, ef);
  }

  lemma StartIs(ef: Frame)
    ensures |Caller.order| > 0 && Start(Caller, ef) == State(E, None, ef)
  {
    CallerIs();
  }

  lemma {:induction false} AtOnce(ops: Ops, a: Site, st: State, n: nat)
    requires Passes(a) && st.block == E && ReachesIn(ops, Caller, Parent(a.crit), st, n)
    ensures n == 0 && StateAfter(ops, Caller, st, n) == st
  {
    hide Step;
  }

  lemma {:induction false} CallFits(ops: Ops, a: Site, s: Slice, ef: Frame)
    requires LoadsAndStores(ops) && Passes(a) && Read(ef.mem) == 1 && !s.Has(CallId)
    requires |Caller.order| > 0 && |Writer.order| > 0 && GoodSite(Caller, a) && Start(Caller, ef) == State(E, None, ef)
    ensures var g, w := PassedThunk(Caller, a), LifeAt(ops, Caller, s, a, Writer, ef, 0);
      E in g.blocks && BlockUses(ops, w, g.blocks[E], TailUsed(g, w.target, E), None, ef)
  {
    hide *;
    var g, w := PassedThunk(Caller, a), LifeAt(ops, Caller, s, a, Writer, ef, 0);
    CallerIs();
    PassesIs(a);
    SiteIsGood(a);
    LifeIs(ops, Caller, s, a, Writer, ef, 0);
    PassedBlock(Caller, a, E);
    PassedBody(a);
    PassedTail(a);
    SameMemory(ef.mem);
    LoadIsStable(ops, s, ef.mem, ef);
    forall kept: bool
      ensures Passing(1, 0, [0], ef.mem, kept) in w.good
    {
      WriterIsServed(ops, w, Passing(1, 0, [0], ef.mem, kept));
      InGood(ops, a, s, ef, Passing(1, 0, [0], ef.mem, kept));
    }
    BodyFits(ops, w, g.blocks[E], TailUsed(g, w.target, E), ef);
  }

  lemma InGood(ops: Ops, a: Site, s: Slice, ef: Frame, p: Passing)
    requires |Caller.order| > 0 && |Writer.order| > 0 && GoodSite(Caller, a)
    requires var w := LifeAt(ops, Caller, s, a, Writer, ef, 0); p.k == Callee(Caller, a) && p.x == a.index && CallServed(ops, w, p, Writer)
    ensures p in LifeAt(ops, Caller, s, a, Writer, ef, 0).good
  {
    var w := LifeAt(ops, Caller, s, a, Writer, ef, 0);
    SameCalls(ops, w, w.(good := iset {}, keeping := iset {}), p, Writer);
    hide CallServed, CallKeeps, RunStable, FrameAfter, Eval, EnvOf, Start;
  }

  lemma SameMemory(m: Mem)
    requires Read(m) == 1
    ensures m[0 := 1] == m
  {
  }

  lemma PassedBody(a: Site)
    requires Passes(a)
    ensures PassThunkAll([LoadInst, CallInst], a) == [LoadInst, Instr(CallId, LazyCall(1, 0), [Const(0)])]
  {
    CallerIs();
    var r := PassThunkAll([LoadInst, CallInst], a);
    assert [Res(LoadId)][0 := Const(0)] == [Const(0)];
  }

  lemma PassedTail(a: Site)
    requires Passes(a)
    ensures E in PassedThunk(Caller, a).blocks && !TailUsed(PassedThunk(Caller, a), Res(LoadId), E)
  {
    CallerIs();
    PassedBlock(Caller, a, E);
    var f := PassedThunk(Caller, a);
    assert f.blocks.Keys == {E};
    hide PassedThunk, Caller;
    forall u
      ensures !TailUse(f, Res(LoadId), E, u)
    {
    }
  }

  lemma {:induction false} BodyFits(ops: Ops, w: Life, blk: Block, tailed: bool, ef: Frame)
    requires LoadsAndStores(ops) && w.target == Res(LoadId) && !tailed
    requires blk == Block([], [LoadInst, Instr(CallId, LazyCall(1, 0), [Const(0)])], Some(Ret(Res(CallId))))
    requires forall kept: bool :: Passing(1, 0, [0], ef.mem, kept) in w.good
    ensures BlockUses(ops, w, blk, tailed, None, ef)
  {
    CallerIs();
    var body := blk.body;
    var f1 := ef.(env := ef.env[LoadId := Read(ef.mem)]);
    assert ef.(env := ExecPhis([], None, ef)) == ef;
    assert body[..0] == [] && body[..1] == [LoadInst] && [LoadInst][..0] == [];
    assert EagerBody([], w.target) == [] && EagerBody([LoadInst], w.target) == [LoadInst];
    assert EvalAll([], ef) == [] && EvalAll([Const(0)], f1) == [0];
    assert ExecBody(ops, [LoadInst], ef) == ExecInstr(ops, LoadInst, ef) == f1;
    hide Caller, LoadsAndStores, ExecBody, BodyAfter;
    assert UseAgrees(ops, BodyAfter(ops, w, body[..0], ef), body[0], ef);
    assert UseAgrees(ops, BodyAfter(ops, w, body[..1], ef), body[1], f1);
  }

  /** For this caller and callee the condition on the run is exact: it holds if and only if the callee writes what
      was there, and then only are the two programs the same. */
  lemma {:induction false} AllowedExactly(ops: Ops, an: Analyses, a: Site, s: Slice, d: Function, e: Function, clone: Function, c: Function,
                       ef: Frame, lf: Frame)
    requires LoadsAndStores(ops) && Passes(a) && Means(ops, 1, clone, e)
    requires Lazified(Caller, an, a, ops.memo, s, d, e, c) && ForcedClone(Writer, Arg(0), clone)
    requires ef.env == map[] && lf.env == map[] && ef.mem == lf.mem && ef.args == lf.args == []
    ensures |Caller.order| > 0 && |Writer.order| > 0 && |c.order| > 0 && GoodSite(Caller, a)
    ensures RunAllows(ops, Caller, s, a, Writer, ef) <==> Read(ef.mem) == 1
    ensures Read(ef.mem) == 1 <==>
      SameOutcome(Run(ops, Caller, Running(Start(Caller, ef)), 1), Run(ops, c, Running(Start(c, lf)), 1))
  {
    hide *;
    CallerIs();
    WriterIs();
    WriterIsAccepted();
    PassesIs(a);
    SiteIsGood(a);
    SliceOf(an, a, ops.memo, s, d, e, c);
    CallerIsAmenable(an.exit, an.preds, s);
    WriteComesFirst(ops, an, a, s, d, e, clone, c, ef, lf);
    if Read(ef.mem) == 1 {
      SameWriteAllows(ops, an, a, s, ef);
    }
    if RunAllows(ops, Caller, s, a, Writer, ef) {
      LazificationPreservesMeaning(ops, Caller, an, a, s, d, e, Writer, clone, c, ef, lf, 1);
    }
    SameMeansEqual(Run(ops, Caller, Running(Start(Caller, ef)), 1), Run(ops, c, Running(Start(c, lf)), 1));
  }

  lemma SameMeansEqual(oe: Outcome, ol: Outcome)
    requires oe.Finished? && ol.Finished?
    ensures SameOutcome(oe, ol) ==> oe.value == ol.value
  {
  }

  // ---- all of this happens ----

  /** What the pass is told of the caller. */
  const OnePoint := Analyses(E, Tree(E, map[], {(E, E)}), Tree(E, map[], {(E, E)}), map[E := []], map[E := []])

  lemma PointIsTree()
    ensures GoodAnalyses(Caller, OnePoint)
  {
    CallerIs();
    CallerIsAccepted();
    assert PathFromTo(Point, [E], E, E);
    assert Flip(Point) == Point;
    DominatesItself(Point, E, E);
    assert ValidTree(Point, OnePoint.dt) by { hide Dominates; }
    assert Distinct<Edge>([]) && Distinct<BlockRef>([]);
    assert EdgesInto(Caller, [], E);
    hide WellFormed, Flowing, ValidTree, EdgesInto;
  }

  /** Operations with this meaning. */
  ghost function SomeOps(memo: bool): (ops: Ops)
    ensures LoadsAndStores(ops) && ops.memo == memo
  {
    Ops(memo,
        (k: nat, vs: seq<int>, m: Mem) => if k == 0 then Read(m) else if k == 1 && |vs| == 1 then vs[0] else 0,
        (k: nat, vs: seq<int>, m: Mem) => if k == 0 then m else m[0 := 1],
        (slots: seq<int>, m: Mem) => 0, 0,
        (k: nat, vs: seq<int>, slots: seq<int>, m: Mem) => (0, m, slots))
  }

  lemma WriterUsesIt()
    ensures UsesOf(Writer, Arg(0)) != {}
  {
    WriterIs();
    UseListed(Writer, Arg(0), (TermId(0), 0));
    assert IsUse(Writer, Arg(0), (TermId(0), 0));
  }

  lemma CallIsTried(functions: map<nat, Function>)
    requires functions == map[0 := Caller, 1 := Writer]
    ensures HasInst(Caller, CallId) && CallId.BodyId? && 0 < |Operands(Caller, CallId)| && Operands(Caller, CallId)[0] == Res(LoadId)
    ensures CallId.k < |Caller.blocks[Parent(CallId)].body| && Caller.blocks[Parent(CallId)].body[CallId.k].op == Fn(1)
    ensures 1 in functions && UsesOf(functions[1], Arg(0)) != {}
  {
    CallerIs();
    WriterUsesIt();
    hide UsesOf;
  }

  lemma EntersHere(an: Analyses, s: Slice)
    requires IsSlice(Caller, an.exit, an.preds, s) && s.crit == LoadId
    ensures DefsDominateUses(Caller) && !OnCycle(GraphOf(Caller), s.Home()) && OneOutcome(Caller, an.exit, s) && SwitchesCovered(Caller, s)
    ensures EntersOnce(Caller, s)
  {
    hide *;
    CallerIs();
    CallerIsAmenable(an.exit, an.preds, s);
    var x := SomethingFirst(Caller, an.exit, an.preds, s);
    NothingLeaves();
    NoCycleAtEnd(Point, E);
    AmenableSays(an.exit, s, x);
  }

  lemma NothingLeaves()
    ensures forall e | e in Point.edges :: e.0 != E
  {
  }

  lemma AmenableSays(exit: BlockRef, s: Slice, x: BlockRef)
    requires Amenable(Caller, exit, s) && |Caller.order| > 0 && Arrives(GraphOf(Caller), s.blocks, Caller.order[0], x)
    requires !OnCycle(Point, E) && GraphOf(Caller) == Point
    ensures DefsDominateUses(Caller) && !OnCycle(GraphOf(Caller), s.Home()) && OneOutcome(Caller, exit, s) && SwitchesCovered(Caller, s)
    ensures EntersOnce(Caller, s)
  {
    ArrivesInSlice(GraphOf(Caller), s.blocks, Caller.order[0], x);
    CallerIs();
    assert x == E;
    hide WellFormed, DefsDominateUses, OnCycle, Arrives, GraphOf, OneOutcome, SwitchesCovered;
  }

  /** The pass lazifies the call, and operations exist that mean what it leaves: the theorems about what it leaves
      speak of something, with thunks that keep their value and with such that do not. */
  method LazifyTheCaller(memo: bool) returns (c: Function, e: Function, clone: Function, ghost a: Site, ghost s: Slice, ghost d: Function, ghost ops: Ops)
    ensures Passes(a) && Lazified(Caller, OnePoint, a, memo, s, d, e, c) && ForcedClone(Writer, Arg(0), clone)
    ensures ops.memo == memo && LoadsAndStores(ops) && Means(ops, 1, clone, e)
  {
    hide *;
    var functions: map<nat, Function> := map[0 := Caller, 1 := Writer];
    CallIsTried(functions);
    PointIsTree();
    WriterIsAccepted();
    var pass := new Pass(memo, functions);
    var done: bool;
    ghost var emitted: Function;
    done, a, s, d, emitted := pass.LazifyCallsite(0, CallId, 0, 0, true, OnePoint);
    EntersHere(OnePoint, s);
    c, e := pass.functions[0], pass.delegates[0];
    clone := pass.clonedCallees[Key(1, 0, 0)];
    CallerIsAmenable(OnePoint.exit, OnePoint.preds, s);
    CritIs(OnePoint, a, memo, s, d, e, c);
    ops := LazifiedCanBeMeant(SomeOps(memo), Caller, OnePoint, a, s, d, e, Writer, 1, clone, c);
    StillLoads(SomeOps(memo), ops);
  }

  lemma CritIs(an: Analyses, a: Site, memo: bool, s: Slice, d: Function, e: Function, c: Function)
    requires Lazified(Caller, an, a, memo, s, d, e, c) && s.crit == LoadId && a.call == CallId && a.index == 0
    ensures Passes(a)
  {
    hide IsSlice, Enumerates, Shaped, IsDelegate, Emitted, Forced;
  }

  lemma StillLoads(ops: Ops, ops': Ops)
    requires LoadsAndStores(ops) && ops' == ops.(delegate := ops'.delegate, lazy := ops'.lazy)
    ensures LoadsAndStores(ops')
  {
  }
}
