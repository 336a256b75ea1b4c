/** Runs in which nobody writes what the slice reads: they allow a thunk. */
module QuietRuns {
  import opened Graphs
  import opened Ir
  import opened Slices
  import opened Machine
  import opened Simulation
  import opened RunSimulation
  import opened Forcing
  import opened CallByNeed
  import opened CallerSide
  import opened HomeBlock
  import opened CallerRuns
  import opened WholeProgram
  import opened Memoization

  // ---- what is asked of each instruction a run comes to ----

  /** At its actual operands the instruction leaves these locations alone. */
  ghost predicate Spares(ops: Ops, locs: set<nat>, i: Instr, fr: Frame) {
    AgreeOn(locs, fr.mem, ExecInstr(ops, i, fr).mem)
  }

  /** At its actual operands the operation reads only these locations, and writes nothing. */
  ghost predicate ReadsOnly(ops: Ops, locs: set<nat>, i: Instr, fr: Frame) {
    i.op.Fn? ==> forall m | AgreeOn(locs, fr.mem, m) ::
      var vs := EvalAll(i.args, fr);
      ops.value(i.op.f, vs, m) == ops.value(i.op.f, vs, fr.mem) && ops.effect(i.op.f, vs, m) == m
  }

  ghost predicate BodySpares(ops: Ops, locs: set<nat>, body: seq<Instr>, fr: Frame) {
    forall n | 0 <= n < |body| :: Spares(ops, locs, body[n], ExecBody(ops, body[..n], fr))
  }

  ghost predicate BodyReads(ops: Ops, locs: set<nat>, s: Slice, body: seq<Instr>, fr: Frame) {
    forall n | 0 <= n < |body| && s.Has(body[n].id) :: ReadsOnly(ops, locs, body[n], ExecBody(ops, body[..n], fr))
  }

  /** The frame in which the body of the block starts. */
  function Entered(f: Function, st: State): Frame
    requires st.block in f.blocks
  {
    st.frame.(env := ExecPhis(f.blocks[st.block].phis, st.prev, st.frame))
  }

  /** No instruction the run comes to writes these locations. */
  ghost predicate RunSpares(ops: Ops, locs: set<nat>, f: Function, st: State) {
    forall n: nat :: var o := Run(ops, f, Running(st), n);
      o.Running? && o.st.block in f.blocks ==> BodySpares(ops, locs, f.blocks[o.st.block].body, Entered(f, o.st))
  }

  /** The sliced instructions the run comes to read only these locations. */
  ghost predicate RunReads(ops: Ops, locs: set<nat>, f: Function, s: Slice, st: State) {
    forall n: nat :: var o := Run(ops, f, Running(st), n);
      o.Running? && o.st.block in f.blocks ==> BodyReads(ops, locs, s, f.blocks[o.st.block].body, Entered(f, o.st))
  }

  /** This call of operation `k` is a run of the callee that finishes and does not write these locations. */
  ghost predicate CallSpares(ops: Ops, locs: set<nat>, k: nat, callee: Function, vs: seq<int>, m: Mem)
    requires |callee.order| > 0
  {
    CallRuns(ops, k, callee, vs, m) && RunSpares(ops, locs, callee, Start(callee, Fresh(vs, m, [])))
  }

  /** So it is for each time the run comes to the call that is to be passed the thunk. */
  ghost predicate CallsSpare(ops: Ops, locs: set<nat>, f: Function, a: Site, callee: Function, st: State)
    requires |callee.order| > 0
  {
    forall n: nat :: var o := Run(ops, f, Running(st), n);
      o.Running? && o.st.block in f.blocks ==> BodyCalls(ops, locs, a, callee, f.blocks[o.st.block].body, Entered(f, o.st))
  }

  ghost predicate BodyCalls(ops: Ops, locs: set<nat>, a: Site, callee: Function, body: seq<Instr>, fr: Frame)
    requires |callee.order| > 0
  {
    forall n | 0 <= n < |body| && body[n].id == a.call && body[n].op.Fn? ::
      var ef := ExecBody(ops, body[..n], fr); CallSpares(ops, locs, body[n].op.f, callee, EvalAll(body[n].args, ef), ef.mem)
  }

  /** The eager run writes no location the slice reads, and neither do the calls that get the thunk. */
  ghost predicate QuietRun(ops: Ops, locs: set<nat>, f: Function, s: Slice, a: Site, callee: Function, st: State)
    requires |callee.order| > 0
  {
    RunSpares(ops, locs, f, st) && RunReads(ops, locs, f, s, st) && CallsSpare(ops, locs, f, a, callee, st)
  }

  // ---- the memory stays as it was ----

  lemma {:induction false} BodyStays(ops: Ops, locs: set<nat>, body: seq<Instr>, fr: Frame, n: nat)
    requires BodySpares(ops, locs, body, fr) && n <= |body|
    ensures AgreeOn(locs, fr.mem, ExecBody(ops, body[..n], fr).mem)
  {
    if n == 0 {
      assert body[..0] == [];
    } else {
      BodyStays(ops, locs, body, fr, n - 1);
      assert body[..n][..n - 1] == body[..n - 1];
      assert Spares(ops, locs, body[n - 1], ExecBody(ops, body[..n - 1], fr));
      hide ExecInstr;
    }
  }

  lemma {:induction false} StepStays(ops: Ops, locs: set<nat>, f: Function, st: State)
    requires RunSpares(ops, locs, f, st) && Step(ops, f, st).Running?
    ensures AgreeOn(locs, st.frame.mem, Step(ops, f, st).st.frame.mem)
  {
    assert Run(ops, f, Running(st), 0) == Running(st);
    var body := f.blocks[st.block].body;
    assert BodySpares(ops, locs, body, Entered(f, st));
    hide BodySpares, ExecPhis, ExecBody, RunSpares, AgreeOn;
    BodyStays(ops, locs, body, Entered(f, st), |body|);
    assert body[..|body|] == body;
  }

  lemma {:induction false} AgreeTrans(locs: set<nat>, a: Mem, b: Mem, c: Mem)
    requires AgreeOn(locs, a, b) && AgreeOn(locs, b, c)
    ensures AgreeOn(locs, a, c) && AgreeOn(locs, b, a)
  {
  }

  lemma {:induction false} StateStays(ops: Ops, locs: set<nat>, f: Function, st: State, n: nat)
    requires RunSpares(ops, locs, f, st)
    ensures var o := Run(ops, f, Running(st), n); o.Running? ==> AgreeOn(locs, st.frame.mem, o.st.frame.mem)
    decreases n
  {
    hide RunSpares, Step, AgreeOn;
    if n == 0 {
      assert AgreeOn(locs, st.frame.mem, st.frame.mem) by { AgreesWithSelf(locs, st.frame.mem); }
    } else if Step(ops, f, st).Running? {
      var next := Step(ops, f, st).st;
      StepStays(ops, locs, f, st);
      SparesOn(ops, locs, f, st, 1);
      assert Run(ops, f, Running(st), 1) == Run(ops, f, Running(next), 0);
      StateStays(ops, locs, f, next, n - 1);
      if Run(ops, f, Running(next), n - 1).Running? {
        AgreeTrans(locs, st.frame.mem, next.frame.mem, Run(ops, f, Running(next), n - 1).st.frame.mem);
      }
    }
  }

  lemma AgreesWithSelf(locs: set<nat>, m: Mem)
    ensures AgreeOn(locs, m, m)
  {
  }

  lemma {:induction false} SparesOn(ops: Ops, locs: set<nat>, f: Function, st: State, k: nat)
    requires RunSpares(ops, locs, f, st) && Run(ops, f, Running(st), k).Running?
    ensures RunSpares(ops, locs, f, Run(ops, f, Running(st), k).st)
  {
    var next := Run(ops, f, Running(st), k).st;
    hide BodySpares, Run, Entered;
    forall n: nat
      ensures var o := Run(ops, f, Running(next), n);
        o.Running? && o.st.block in f.blocks ==> BodySpares(ops, locs, f.blocks[o.st.block].body, Entered(f, o.st))
    {
      RunOn(ops, f, Running(st), k, n);
      assert Run(ops, f, Running(next), n) == Run(ops, f, Running(st), k + n);
    }
  }

  /** Wherever the run is in a body, the memory is what it was at the start on these locations. */
  lemma {:induction false} MemoryStays(ops: Ops, locs: set<nat>, f: Function, st: State, n: nat, k: nat)
    requires RunSpares(ops, locs, f, st)
    ensures var o := Run(ops, f, Running(st), n);
      o.Running? && o.st.block in f.blocks && k <= |f.blocks[o.st.block].body| ==>
        AgreeOn(locs, st.frame.mem, ExecBody(ops, f.blocks[o.st.block].body[..k], Entered(f, o.st)).mem)
  {
    var o := Run(ops, f, Running(st), n);
    StateStays(ops, locs, f, st, n);
    if o.Running? && o.st.block in f.blocks && k <= |f.blocks[o.st.block].body| {
      var body := f.blocks[o.st.block].body;
      assert BodySpares(ops, locs, body, Entered(f, o.st));
      hide BodySpares, RunSpares, ExecBody, ExecPhis, AgreeOn, Run;
      BodyStays(ops, locs, body, Entered(f, o.st), k);
      AgreeTrans(locs, st.frame.mem, o.st.frame.mem, ExecBody(ops, body[..k], Entered(f, o.st)).mem);
    }
  }

  // ---- the slice computes the same later ----

  lemma StableAt(ops: Ops, locs: set<nat>, s: Slice, body: seq<Instr>, fr: Frame, m: Mem)
    requires BodySpares(ops, locs, body, fr) && BodyReads(ops, locs, s, body, fr) && AgreeOn(locs, fr.mem, m)
    ensures BodyStable(ops, s, m, body, fr)
  {
    hide BodySpares, ExecBody, AgreeOn;
    forall n | 0 <= n < |body| && s.Has(body[n].id)
      ensures InstrStable(ops, m, body[n], ExecBody(ops, body[..n], fr))
    {
      var now := ExecBody(ops, body[..n], fr);
      BodyStays(ops, locs, body, fr, n);
      AgreeTrans(locs, fr.mem, now.mem, fr.mem) by { AgreeBack(locs, fr.mem, now.mem); }
      AgreeTrans(locs, now.mem, fr.mem, m);
      assert ReadsOnly(ops, locs, body[n], now);
    }
  }

  lemma AgreeBack(locs: set<nat>, a: Mem, b: Mem)
    requires AgreeOn(locs, a, b)
    ensures AgreeOn(locs, b, a)
  {
  }

  lemma {:induction false} RunIsStable(ops: Ops, locs: set<nat>, f: Function, s: Slice, st: State, m: Mem, n: nat)
    requires RunSpares(ops, locs, f, st) && RunReads(ops, locs, f, s, st) && AgreeOn(locs, st.frame.mem, m)
    ensures RunStable(ops, f, s, m, st, n)
    decreases n
  {
    assert Run(ops, f, Running(st), 0) == Running(st);
    if st.block in f.blocks {
      assert BodySpares(ops, locs, f.blocks[st.block].body, Entered(f, st));
      assert BodyReads(ops, locs, s, f.blocks[st.block].body, Entered(f, st));
      hide BodySpares, BodyReads, BodyStable, AgreeOn, Run, RunSpares, RunReads, ExecPhis, Step;
      StableAt(ops, locs, s, f.blocks[st.block].body, Entered(f, st), m);
    }
    hide BodySpares, BodyReads, BlockStable, AgreeOn, RunSpares, RunReads, ExecPhis, Step;
    if n > 0 && Step(ops, f, st).Running? {
      var next := Step(ops, f, st).st;
      StepStays(ops, locs, f, st);
      assert Run(ops, f, Running(st), 1) == Run(ops, f, Running(next), 0);
      SparesOn(ops, locs, f, st, 1);
      ReadsOn(ops, locs, f, s, st);
      AgreeBack(locs, st.frame.mem, next.frame.mem);
      AgreeTrans(locs, next.frame.mem, st.frame.mem, m);
      RunIsStable(ops, locs, f, s, next, m, n - 1);
    }
  }

  lemma {:induction false} ReadsOn(ops: Ops, locs: set<nat>, f: Function, s: Slice, st: State)
    requires RunReads(ops, locs, f, s, st) && Step(ops, f, st).Running?
    ensures RunReads(ops, locs, f, s, Step(ops, f, st).st)
  {
    var next := Step(ops, f, st).st;
    hide BodyReads, Step, Entered;
    forall n: nat
      ensures var o := Run(ops, f, Running(next), n);
        o.Running? && o.st.block in f.blocks ==> BodyReads(ops, locs, s, f.blocks[o.st.block].body, Entered(f, o.st))
    {
      assert Run(ops, f, Running(next), n) == Run(ops, f, Running(st), n + 1);
    }
  }

  // ---- the criterion keeps its value ----

  lemma {:induction false} PhisKeep(phis: seq<Phi>, prev: Option<BlockRef>, fr: Frame, id: Id)
    requires forall p | p in phis :: p.id != id
    ensures Eval(Res(id), fr.(env := ExecPhis(phis, prev, fr))) == Eval(Res(id), fr)
  {
    hide PhiValue;
    if phis != [] {
      var n := |phis| - 1;
      assert phis[n] in phis && forall p | p in phis[..n] :: p in phis;
      PhisKeep(phis[..n], prev, fr, id);
    }
  }

  /** The run is in the criterion's block, where it will get the value `v`, or behind it with that value. */
  ghost predicate HoldsCrit(ops: Ops, f: Function, a: Site, v: int, st: State) {
    && st.block in f.blocks
    && if st.block == Parent(a.crit) then v == Eval(Res(a.crit), ExecBlock(ops, f.blocks[st.block], st.prev, st.frame))
       else Past(GraphOf(f), Parent(a.crit), st.block) && v == Eval(Res(a.crit), st.frame)
  }

  /** Elsewhere nothing has the name of the criterion. */
  lemma {:induction false} ElsewhereKeeps(ops: Ops, f: Function, a: Site, st: State, k: nat)
    requires WellFormed(f) && (a.crit.PhiId? || a.crit.BodyId?)
    requires st.block in f.blocks && st.block != Parent(a.crit) && k <= |f.blocks[st.block].body|
    ensures Eval(Res(a.crit), ExecBody(ops, f.blocks[st.block].body[..k], Entered(f, st))) == Eval(Res(a.crit), st.frame)
  {
    var blk := f.blocks[st.block];
    assert GoodBlock(f, st.block.b);
    hide WellFormed, ExecBody, ExecPhis, Eval;
    PhisKeep(blk.phis, st.prev, st.frame, a.crit);
    forall i | i in blk.body[..k]
      ensures i.id != a.crit
    {
      var j :| 0 <= j < k && blk.body[j] == i;
    }
    ValueStays(ops, blk.body[..k], a.crit, Entered(f, st));
  }

  lemma CritKind(f: Function, a: Site)
    requires GoodCaller(f, a)
    ensures (a.crit.PhiId? || a.crit.BodyId?) && WellFormed(f) && Parent(a.crit) in f.blocks && Parent(a.crit).Orig?
    ensures !OnCycle(GraphOf(f), Parent(a.crit)) && GraphOf(f).nodes == f.blocks.Keys
    ensures forall b, s | b in f.blocks && s in f.blocks[b].Succs() :: s in f.blocks && (b, s) in GraphOf(f).edges
  {
    hide DefsDominateUses, Rooted, OnCycle, GoodBlock, GoodValue;
  }

  lemma {:induction false} HoldsNext(ops: Ops, f: Function, a: Site, v: int, st: State)
    requires GoodCaller(f, a) && HoldsCrit(ops, f, a, v, st) && Step(ops, f, st).Running?
    ensures HoldsCrit(ops, f, a, v, Step(ops, f, st).st)
  {
    hide *;
    CritKind(f, a);
    HoldsParts(ops, f, a, v, st);
    var next := StepsTo(ops, f, st);
    PastGoesOn(GraphOf(f), Parent(a.crit), st.block, next.block);
    PastIsElsewhere(GraphOf(f), Parent(a.crit), next.block);
    if st.block != Parent(a.crit) {
      BlockKeeps(ops, f, a, st);
    }
    HoldsFrom(ops, f, a, v, next);
  }

  lemma {:induction false} StepsTo(ops: Ops, f: Function, st: State) returns (next: State)
    requires st.block in f.blocks && Step(ops, f, st).Running?
    ensures Step(ops, f, st) == Running(next) && next.block in f.blocks[st.block].Succs()
    ensures next.frame == ExecBlock(ops, f.blocks[st.block], st.prev, st.frame)
  {
    hide ExecBlock;
    next := Step(ops, f, st).st;
    GotoIsSucc(f.blocks[st.block].term, next.frame);
  }

  lemma HoldsParts(ops: Ops, f: Function, a: Site, v: int, st: State)
    requires HoldsCrit(ops, f, a, v, st)
    ensures st.block in f.blocks
    ensures st.block == Parent(a.crit) ==> v == Eval(Res(a.crit), ExecBlock(ops, f.blocks[st.block], st.prev, st.frame))
    ensures st.block != Parent(a.crit) ==> Past(GraphOf(f), Parent(a.crit), st.block) && v == Eval(Res(a.crit), st.frame)
  {
    hide ExecBlock, Past, Eval;
  }

  lemma HoldsFrom(ops: Ops, f: Function, a: Site, v: int, st: State)
    requires st.block in f.blocks && st.block != Parent(a.crit)
    requires Past(GraphOf(f), Parent(a.crit), st.block) && v == Eval(Res(a.crit), st.frame)
    ensures HoldsCrit(ops, f, a, v, st)
  {
    hide Past, Eval;
  }

  lemma {:induction false} BlockKeeps(ops: Ops, f: Function, a: Site, st: State)
    requires WellFormed(f) && (a.crit.PhiId? || a.crit.BodyId?) && st.block in f.blocks && st.block != Parent(a.crit)
    ensures Eval(Res(a.crit), ExecBlock(ops, f.blocks[st.block], st.prev, st.frame)) == Eval(Res(a.crit), st.frame)
  {
    var body := f.blocks[st.block].body;
    hide WellFormed, Eval, ExecBody, ExecPhis;
    ElsewhereKeeps(ops, f, a, st, |body|);
    assert body[..|body|] == body;
  }

  lemma {:induction false} HoldsOn(ops: Ops, f: Function, a: Site, v: int, st: State, n: nat)
    requires GoodCaller(f, a) && HoldsCrit(ops, f, a, v, st)
    ensures var o := Run(ops, f, Running(st), n); o.Running? ==> HoldsCrit(ops, f, a, v, o.st)
    decreases n
  {
    hide GoodCaller, HoldsCrit, Step;
    if n > 0 && Step(ops, f, st).Running? {
      HoldsNext(ops, f, a, v, st);
      HoldsOn(ops, f, a, v, Step(ops, f, st).st, n - 1);
    }
  }

  /** An instruction that uses the criterion reads that value. */
  lemma {:induction false} UseReads(ops: Ops, f: Function, a: Site, v: int, st: State, k: nat)
    requires GoodCaller(f, a) && HoldsCrit(ops, f, a, v, st) && st.block in f.blocks
    requires k < |f.blocks[st.block].body| && Res(a.crit) in f.blocks[st.block].body[k].args
    ensures Eval(Res(a.crit), ExecBody(ops, f.blocks[st.block].body[..k], Entered(f, st))) == v
  {
    hide *;
    CritKind(f, a);
    HoldsParts(ops, f, a, v, st);
    if st.block == Parent(a.crit) {
      InstrUseBelow(f, a, st.block, k);
      HomeKeeps(ops, f, a, st, k);
    } else {
      ElsewhereKeeps(ops, f, a, st, k);
    }
  }

  /** Behind the criterion nothing in its block has its name. */
  lemma {:induction false} HomeKeeps(ops: Ops, f: Function, a: Site, st: State, k: nat)
    requires WellFormed(f) && (a.crit.PhiId? || a.crit.BodyId?) && st.block in f.blocks && st.block == Parent(a.crit)
    requires k < |f.blocks[st.block].body| && (a.crit.BodyId? ==> a.crit.k < k)
    ensures Eval(Res(a.crit), ExecBlock(ops, f.blocks[st.block], st.prev, st.frame)) ==
            Eval(Res(a.crit), ExecBody(ops, f.blocks[st.block].body[..k], Entered(f, st)))
  {
    var body := f.blocks[st.block].body;
    assert GoodBlock(f, st.block.b);
    hide WellFormed, ExecBody, ExecPhis, Eval;
    assert body[..k] + body[k..] == body;
    ExecBodyConcat(ops, body[..k], body[k..], Entered(f, st));
    forall i | i in body[k..]
      ensures i.id != a.crit
    {
      var j :| 0 <= j < |body[k..]| && body[k..][j] == i;
      assert body[k + j].id == BodyId(st.block.b, k + j);
    }
    ValueStays(ops, body[k..], a.crit, ExecBody(ops, body[..k], Entered(f, st)));
  }

  // ---- a quiet run allows a thunk ----

  /** Where the state `n` steps on is. */
  lemma {:induction false} ReachedBy(ops: Ops, f: Function, h: BlockRef, st: State, n: nat)
    requires ReachesIn(ops, f, h, st, n)
    ensures Run(ops, f, Running(st), n) == Running(StateAfter(ops, f, st, n)) && StateAfter(ops, f, st, n).block == h
    ensures h in f.blocks ==> var c := StateAfter(ops, f, st, n); FrameAfter(ops, f, st, n) == ExecBlock(ops, f.blocks[h], c.prev, c.frame)
    decreases n
  {
    hide Step, ExecBlock;
    if n > 0 {
      ReachedBy(ops, f, h, Step(ops, f, st).st, n - 1);
    }
  }

  /** Every memory that agrees with `mem` on these locations fits. */
  ghost predicate FitsAll(w: Life, locs: set<nat>, mem: Mem) {
    forall m | AgreeOn(locs, mem, m) :: m in w.fit
  }

  lemma FitsOn(w: Life, locs: set<nat>, mem: Mem, mem': Mem)
    requires FitsAll(w, locs, mem) && AgreeOn(locs, mem, mem')
    ensures FitsAll(w, locs, mem') && mem' in w.fit
  {
    hide AgreeOn;
    forall m | AgreeOn(locs, mem', m)
      ensures m in w.fit
    {
      AgreeTrans(locs, mem, mem', m);
    }
  }

  /** A callee that writes none of these locations, run on a memory that fits. */
  lemma {:induction false} CalleeServes(ops: Ops, w: Life, locs: set<nat>, mem: Mem, p: Passing, callee: Function)
    requires WellFormed(callee) && |callee.order| > 0 && p.x < |p.vs|
    requires FitsAll(w, locs, mem) && AgreeOn(locs, mem, p.m)
    requires CallSpares(ops, locs, p.k, callee, p.vs[p.x := w.v], p.m)
    ensures CallServed(ops, w, p, callee)
  {
    var st := CallStart(w, p, callee);
    var w2 := LifeIn(w, p);
    FitsOn(w, locs, mem, p.m);
    assert FitsAll(w2, locs, st.frame.mem);
    hide Run, RunAfter, WellFormed, AgreeOn, RunSpares, FitsAll, UsesAt, CallRuns, Start;
    forall n: nat
      ensures UsesAt(ops, RunAfter(ops, w2, callee, callee, Running(st), n), callee, Run(ops, callee, Running(st), n))
    {
      CalleeUses(ops, w2, RunAfter(ops, w2, callee, callee, Running(st), n).kept, locs, callee, st, n);
    }
  }

  lemma {:induction false} CalleeUses(ops: Ops, w: Life, kept: bool, locs: set<nat>, f: Function, st: State, n: nat)
    requires WellFormed(f) && w.target.Arg? && RunSpares(ops, locs, f, st) && FitsAll(w, locs, st.frame.mem)
    ensures UsesAt(ops, w.(kept := kept), f, Run(ops, f, Running(st), n))
  {
    hide *;
    var o := Run(ops, f, Running(st), n);
    if o.Running? && o.st.block in f.blocks {
      var body := f.blocks[o.st.block].body;
      WellFormedBlock(w, f, o.st.block);
      PartsAreIn(body);
      forall k: nat | k <= |body|
        ensures ExecBody(ops, EagerBody(body[..k], w.target), Entered(f, o.st)).mem in w.fit
      {
        EagerOfFns(body[..k], w.target);
        MemoryStays(ops, locs, f, st, n, k);
        FitsOn(w, locs, st.frame.mem, ExecBody(ops, body[..k], Entered(f, o.st)).mem);
      }
      EnteredIs(f, o.st);
      FnsServed(ops, w.(kept := kept), f.blocks[o.st.block], TailUsed(f, w.target, o.st.block), o.st.prev, o.st.frame);
    }
    ServedWhen(ops, w.(kept := kept), f, o);
  }

  lemma PartsAreIn(body: seq<Instr>)
    ensures forall k, i | 0 <= k <= |body| && i in body[..k] :: i in body
  {
  }

  lemma {:induction false} FnsServed(ops: Ops, w: Life, blk: Block, tailed: bool, prev: Option<BlockRef>, fr: Frame)
    requires forall i | i in blk.body :: i.op.Fn?
    requires var e1 := fr.(env := ExecPhis(blk.phis, prev, fr));
      forall k: nat | k <= |blk.body| :: ExecBody(ops, EagerBody(blk.body[..k], w.target), e1).mem in w.fit
    ensures BlockUses(ops, w, blk, tailed, prev, fr)
  {
    var body := blk.body;
    assert forall k | 0 <= k < |body| :: body[k] in body;
    assert body[..|body|] == body;
    hide EagerBody, ExecBody, ExecPhis, BodyAfter;
  }

  lemma {:induction false} EagerOfFns(body: seq<Instr>, target: Value)
    requires forall i | i in body :: i.op.Fn?
    ensures EagerBody(body, target) == body
  {
    assert forall k | 0 <= k < |body| :: body[k] in body;
  }

  /** What the thunk of a quiet run needs of the caller. */
  ghost predicate Serving(ops: Ops, w: Life, locs: set<nat>, mem: Mem, f: Function, a: Site, callee: Function)
    requires |callee.order| > 0 && GoodSite(f, a)
  {
    && GoodCaller(f, a) && WellFormed(callee) && w.target == Res(a.crit) && FitsAll(w, locs, mem)
    && forall p: Passing | p.k == Callee(f, a) && p.x == a.index && CallServed(ops, w, p, callee) :: p in w.good
  }

  lemma {:induction false} UseIsServed(ops: Ops, w: Life, w': Life, locs: set<nat>, mem: Mem, f: Function, a: Site, callee: Function, c: State, k: nat)
    requires |callee.order| > 0 && GoodSite(f, a) && Serving(ops, w, locs, mem, f, a, callee) && w' == w.(kept := w'.kept)
    requires c.block in f.blocks && k < |f.blocks[c.block].body| && HoldsCrit(ops, f, a, w.v, c)
    requires BodyCalls(ops, locs, a, callee, f.blocks[c.block].body, Entered(f, c))
    requires AgreeOn(locs, mem, ExecBody(ops, f.blocks[c.block].body[..k], Entered(f, c)).mem)
    ensures UseAgrees(ops, w', PassThunk(f.blocks[c.block].body[k], a), ExecBody(ops, f.blocks[c.block].body[..k], Entered(f, c)))
  {
    hide *;
    var i := f.blocks[c.block].body[k];
    var ef := ExecBody(ops, f.blocks[c.block].body[..k], Entered(f, c));
    ServingParts(ops, w, locs, mem, f, a, callee);
    EagerSame(f, a, c.block, k);
    FitsOn(w, locs, mem, ef.mem);
    if i.id == a.call {
      UseReads(ops, f, a, w.v, c, k);
      CalleeIs(f, a, c.block, k);
      var kept := w'.kept || w.target in PassThunk(i, a).args;
      var p := PassingOf(PassThunk(i, a), kept, ef);
      PassedSo(i, a, w, ef, kept, Callee(f, a));
      CallsAt(ops, locs, a, callee, f.blocks[c.block].body, Entered(f, c), k);
      CalleeServes(ops, w, locs, mem, p, callee);
    }
    AgreesSo(ops, w, w', PassThunk(i, a), ef);
  }

  lemma ServingParts(ops: Ops, w: Life, locs: set<nat>, mem: Mem, f: Function, a: Site, callee: Function)
    requires |callee.order| > 0 && GoodSite(f, a) && Serving(ops, w, locs, mem, f, a, callee)
    ensures GoodCaller(f, a) && WellFormed(callee) && w.target == Res(a.crit) && FitsAll(w, locs, mem)
    ensures forall p: Passing | p.k == Callee(f, a) && p.x == a.index && CallServed(ops, w, p, callee) :: p in w.good
    ensures forall i: Instr | i.op.Fn? :: i.id != a.call ==> PassThunk(i, a) == i
    ensures forall i: Instr | i.op.Fn? :: i.id == a.call && a.index < |i.args| ==> PassThunk(i, a).op.LazyCall? && i.args[a.index] in i.args
  {
    hide GoodCaller, WellFormed, FitsAll, CallServed, GoodSite, Callee;
  }

  lemma CalleeIs(f: Function, a: Site, b: BlockRef, k: nat)
    requires GoodCaller(f, a) && GoodSite(f, a) && b in f.blocks && k < |f.blocks[b].body| && f.blocks[b].body[k].id == a.call
    ensures f.blocks[b].body[k].op == Fn(Callee(f, a))
  {
    GoodCallerParts(f, a);
    InstrHere(f, b, k);
  }

  lemma PassedSo(i: Instr, a: Site, w: Life, ef: Frame, kept: bool, k: nat)
    requires i.id == a.call && i.op == Fn(k) && a.index < |i.args| && Eval(i.args[a.index], ef) == w.v && PassThunk(i, a).op.LazyCall?
    ensures var p := PassingOf(PassThunk(i, a), kept, ef);
      && p.k == k && p.x == a.index && p.x < |p.vs| && p.vs[p.x := w.v] == EvalAll(i.args, ef) && p.m == ef.mem
  {
    hide Eval;
  }

  lemma {:induction false} CallsAt(ops: Ops, locs: set<nat>, a: Site, callee: Function, body: seq<Instr>, fr: Frame, k: nat)
    requires |callee.order| > 0 && BodyCalls(ops, locs, a, callee, body, fr) && k < |body| && body[k].id == a.call && body[k].op.Fn?
    ensures var ef := ExecBody(ops, body[..k], fr); CallSpares(ops, locs, body[k].op.f, callee, EvalAll(body[k].args, ef), ef.mem)
  {
    hide CallSpares, ExecBody, EvalAll;
  }

  lemma AgreesSo(ops: Ops, w: Life, w': Life, i: Instr, ef: Frame)
    requires w' == w.(kept := w'.kept) && ef.mem in w.fit
    requires i.op.LazyCall? ==> PassingOf(i, w'.kept || w.target in i.args, ef) in w.good
    ensures UseAgrees(ops, w', i, ef)
  {
    hide PassingOf;
  }

  /** The state `n` steps after this one. */
  lemma {:induction false} CallsSpareAt(ops: Ops, locs: set<nat>, f: Function, a: Site, callee: Function, st: State, n: nat)
    requires |callee.order| > 0 && CallsSpare(ops, locs, f, a, callee, st)
    requires var o := Run(ops, f, Running(st), n); o.Running? && o.st.block in f.blocks
    ensures var c := Run(ops, f, Running(st), n).st; BodyCalls(ops, locs, a, callee, f.blocks[c.block].body, Entered(f, c))
  {
    hide Run, BodyCalls, Entered;
  }

  /** In whatever block the run is, the uses agree. */
  lemma {:induction false} BlockIsServed(ops: Ops, w: Life, w': Life, locs: set<nat>, f: Function, a: Site, callee: Function, st: State, n: nat)
    requires |callee.order| > 0 && GoodSite(f, a) && Serving(ops, w, locs, st.frame.mem, f, a, callee) && w' == w.(kept := w'.kept)
    requires RunSpares(ops, locs, f, st) && CallsSpare(ops, locs, f, a, callee, st)
    requires var o := Run(ops, f, Running(st), n); o.Running? && o.st.block in f.blocks && HoldsCrit(ops, f, a, w.v, o.st)
    ensures var c := Run(ops, f, Running(st), n).st;
      && c.block in PassedThunk(f, a).blocks
      && BlockUses(ops, w', PassedThunk(f, a).blocks[c.block], TailUsed(PassedThunk(f, a), w'.target, c.block), c.prev, c.frame)
  {
    hide *;
    var c := Run(ops, f, Running(st), n).st;
    var body := f.blocks[c.block].body;
    CallsSpareAt(ops, locs, f, a, callee, st, n);
    ServingParts(ops, w, locs, st.frame.mem, f, a, callee);
    PassedBlock(f, a, c.block);
    forall k: nat | k < |body|
      ensures EagerBody(PassThunkAll(body, a)[..k], w.target) == body[..k]
      ensures UseAgrees(ops, BodyAfter(ops, w', PassThunkAll(body, a)[..k], Entered(f, c)), PassThunk(body[k], a),
                        ExecBody(ops, body[..k], Entered(f, c)))
    {
      EagerSlice(f, a, c.block, 0, k);
      FromStart(PassThunkAll(body, a), k);
      FromStart(body, k);
      MemoryStays(ops, locs, f, st, n, k);
      UseIsServed(ops, w, BodyAfter(ops, w', PassThunkAll(body, a)[..k], Entered(f, c)), locs, st.frame.mem, f, a, callee, c, k);
    }
    EagerSlice(f, a, c.block, 0, |body|);
    FromStart(PassThunkAll(body, a), |body|);
    FromStart(body, |body|);
    MemoryStays(ops, locs, f, st, n, |body|);
    FitsOn(w, locs, st.frame.mem, ExecBody(ops, body, Entered(f, c)).mem);
    EnteredIs(f, c);
    AllServed(ops, w', f.blocks[c.block], a, TailUsed(PassedThunk(f, a), w'.target, c.block), c.prev, c.frame);
  }

  lemma FromStart<T>(s: seq<T>, k: nat)
    requires k <= |s|
    ensures s[0..k] == s[..k] && s[..|s|] == s
  {
  }

  lemma EnteredIs(f: Function, c: State)
    requires c.block in f.blocks
    ensures Entered(f, c) == c.frame.(env := ExecPhis(f.blocks[c.block].phis, c.prev, c.frame))
  {
    hide ExecPhis;
  }

  lemma {:induction false} AllServed(ops: Ops, w: Life, blk: Block, a: Site, tailed: bool, prev: Option<BlockRef>, fr: Frame)
    requires var r, e1 := PassThunkAll(blk.body, a), fr.(env := ExecPhis(blk.phis, prev, fr));
      && (forall k: nat | k < |blk.body| :: EagerBody(r[..k], w.target) == blk.body[..k])
      && (forall k: nat | k < |blk.body| :: UseAgrees(ops, BodyAfter(ops, w, r[..k], e1), PassThunk(blk.body[k], a), ExecBody(ops, blk.body[..k], e1)))
      && EagerBody(r, w.target) == blk.body && ExecBody(ops, blk.body, e1).mem in w.fit
    ensures BlockUses(ops, w, blk.(body := PassThunkAll(blk.body, a)), tailed, prev, fr)
  {
    hide UseAgrees, BodyAfter, EagerBody, ExecBody, ExecPhis, PassThunk;
  }

  /** A run that writes no location the slice reads, passing calls that finish and do not either, allows a thunk. */
  lemma {:induction false} QuietRunAllows(ops: Ops, locs: set<nat>, f: Function, s: Slice, a: Site, callee: Function, ef: Frame)
    requires GoodCaller(f, a) && GoodSite(f, a) && WellFormed(callee) && |f.order| > 0 && |callee.order| > 0
    requires QuietRun(ops, locs, f, s, a, callee, Start(f, ef))
    ensures RunAllows(ops, f, s, a, callee, ef)
  {
    hide *;
    var st := Start(f, ef);
    CritKind(f, a);
    QuietParts(ops, locs, f, s, a, callee, st);
    forall n | ReachesIn(ops, f, Parent(a.crit), st, n)
      ensures RunUses(ops, LifeAt(ops, f, s, a, callee, ef, n), PassedThunk(f, a), f, StateAfter(ops, f, st, n))
    {
      ReachedBy(ops, f, Parent(a.crit), st, n);
      LifeServes(ops, locs, f, s, a, callee, ef, n);
      ServedFrom(ops, LifeAt(ops, f, s, a, callee, ef, n), locs, f, a, callee, st, n);
    }
    AllowsFrom(ops, f, s, a, callee, ef);
  }

  lemma QuietParts(ops: Ops, locs: set<nat>, f: Function, s: Slice, a: Site, callee: Function, st: State)
    requires |callee.order| > 0 && QuietRun(ops, locs, f, s, a, callee, st)
    ensures RunSpares(ops, locs, f, st) && RunReads(ops, locs, f, s, st) && CallsSpare(ops, locs, f, a, callee, st)
  {
    hide RunSpares, RunReads, CallsSpare;
  }

  lemma {:induction false} LifeServes(ops: Ops, locs: set<nat>, f: Function, s: Slice, a: Site, callee: Function, ef: Frame, n: nat)
    requires GoodCaller(f, a) && GoodSite(f, a) && WellFormed(callee) && |f.order| > 0 && |callee.order| > 0
    requires RunSpares(ops, locs, f, Start(f, ef)) && RunReads(ops, locs, f, s, Start(f, ef)) && Parent(a.crit) in f.blocks
    requires var c := StateAfter(ops, f, Start(f, ef), n);
      c.block == Parent(a.crit) && FrameAfter(ops, f, Start(f, ef), n) == ExecBlock(ops, f.blocks[c.block], c.prev, c.frame)
    ensures var w := LifeAt(ops, f, s, a, callee, ef, n);
      && Serving(ops, w, locs, Start(f, ef).frame.mem, f, a, callee)
      && HoldsCrit(ops, f, a, w.v, StateAfter(ops, f, Start(f, ef), n))
  {
    var w := LifeAt(ops, f, s, a, callee, ef, n);
    LifeIs(ops, f, s, a, callee, ef, n);
    hide RunSpares, RunReads, Run, Start, StateAfter, FrameAfter, ExecBlock, AgreeOn, Eval, EnvOf, GoodCaller, GoodSite, WellFormed,
         CallServed, Callee, LifeAt, RunStable, Captures, CallKeeps;
    forall m | AgreeOn(locs, Start(f, ef).frame.mem, m)
      ensures m in w.fit
    {
      RunIsStable(ops, locs, f, s, Start(f, ef), m, n);
    }
  }

  lemma {:induction false} ServedFrom(ops: Ops, w: Life, locs: set<nat>, f: Function, a: Site, callee: Function, st: State, n: nat)
    requires |callee.order| > 0 && GoodSite(f, a) && Serving(ops, w, locs, st.frame.mem, f, a, callee)
    requires RunSpares(ops, locs, f, st) && CallsSpare(ops, locs, f, a, callee, st)
    requires Run(ops, f, Running(st), n) == Running(StateAfter(ops, f, st, n))
    requires HoldsCrit(ops, f, a, w.v, StateAfter(ops, f, st, n))
    ensures RunUses(ops, w, PassedThunk(f, a), f, StateAfter(ops, f, st, n))
  {
    hide *;
    var c := StateAfter(ops, f, st, n);
    var g := PassedThunk(f, a);
    ServingParts(ops, w, locs, st.frame.mem, f, a, callee);
    forall k: nat
      ensures UsesAt(ops, RunAfter(ops, w, g, f, Running(c), k), g, Run(ops, f, Running(c), k))
    {
      RunOn(ops, f, Running(st), n, k);
      HoldsOn(ops, f, a, w.v, c, k);
      var o := Run(ops, f, Running(c), k);
      var w' := RunAfter(ops, w, g, f, Running(c), k);
      SamePlaces(f, a);
      if o.Running? && o.st.block in g.blocks {
        BlockIsServed(ops, w, w', locs, f, a, callee, st, n + k);
      }
      ServedWhen(ops, w', g, o);
    }
    ServedAlways(ops, w, g, f, c);
  }

  lemma SamePlaces(f: Function, a: Site)
    ensures PassedThunk(f, a).blocks.Keys == f.blocks.Keys
  {
    hide PassThunkAll;
  }

  lemma ServedWhen(ops: Ops, w: Life, g: Function, o: Outcome)
    requires o.Running? && o.st.block in g.blocks ==>
      BlockUses(ops, w, g.blocks[o.st.block], TailUsed(g, w.target, o.st.block), o.st.prev, o.st.frame)
    ensures UsesAt(ops, w, g, o)
  {
    hide BlockUses, TailUsed;
  }

  lemma {:induction false} ServedAlways(ops: Ops, w: Life, g: Function, f: Function, st: State)
    requires forall k: nat :: UsesAt(ops, RunAfter(ops, w, g, f, Running(st), k), g, Run(ops, f, Running(st), k))
    ensures RunUses(ops, w, g, f, st)
  {
    hide Run, RunAfter, UsesAt;
  }
}
