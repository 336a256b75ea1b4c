/** What is asked of a run depends on the ordinary operations only, not on what thunk calls and lazy calls mean. */
module Transfer {
  import opened Graphs
  import opened Ir
  import opened Slices
  import opened Machine
  import opened Simulation
  import opened RunSimulation
  import opened Forcing
  import opened CallByNeed
  import opened CallerSide
  import opened CallerRuns
  import opened WholeProgram
  import opened Meanings

  /** Every instruction is an ordinary operation. */
  ghost predicate Ordinary(f: Function) {
    forall b, i | b in f.blocks && i in f.blocks[b].body :: i.op.Fn?
  }

  lemma WellFormedIsOrdinary(f: Function)
    requires WellFormed(f)
    ensures Ordinary(f) && Uses(f, false)
  {
    forall b, i | b in f.blocks && i in f.blocks[b].body
      ensures i.op.Fn?
    {
      assert GoodBlock(f, b.b);
    }
  }

  lemma {:induction false} SameFns(ops: Ops, ops': Ops, body: seq<Instr>, fr: Frame)
    requires Alike(ops, ops', false) && forall i | i in body :: i.op.Fn?
    ensures ExecBody(ops', body, fr) == ExecBody(ops, body, fr)
  {
    hide ExecBody, Alike;
    SameBody(ops, ops', false, body, fr);
  }

  lemma SameBlockRun(ops: Ops, ops': Ops, f: Function, b: BlockRef, prev: Option<BlockRef>, fr: Frame)
    requires Alike(ops, ops', false) && Ordinary(f) && b in f.blocks
    ensures ExecBlock(ops', f.blocks[b], prev, fr) == ExecBlock(ops, f.blocks[b], prev, fr)
  {
    hide ExecBody, ExecPhis, Alike;
    SameFns(ops, ops', f.blocks[b].body, fr.(env := ExecPhis(f.blocks[b].phis, prev, fr)));
  }

  lemma SameSteps(ops: Ops, ops': Ops, f: Function, st: State)
    requires Alike(ops, ops', false) && Ordinary(f)
    ensures Step(ops', f, st) == Step(ops, f, st)
  {
    hide ExecBlock, Alike, Ordinary;
    if st.block in f.blocks {
      SameBlockRun(ops, ops', f, st.block, st.prev, st.frame);
    }
  }

  lemma {:induction false} SameRuns(ops: Ops, ops': Ops, f: Function, o: Outcome, n: nat)
    requires Alike(ops, ops', false) && Ordinary(f)
    ensures Run(ops', f, o, n) == Run(ops, f, o, n)
    decreases n
  {
    hide Step, Alike, Ordinary;
    if n > 0 && o.Running? {
      SameSteps(ops, ops', f, o.st);
      SameRuns(ops, ops', f, Step(ops, f, o.st), n - 1);
    }
  }

  // ---- to the criterion ----

  lemma {:induction false} SameReach(ops: Ops, ops': Ops, f: Function, h: BlockRef, st: State, n: nat)
    requires Alike(ops, ops', false) && Ordinary(f)
    ensures ReachesIn(ops', f, h, st, n) <==> ReachesIn(ops, f, h, st, n)
    ensures StateAfter(ops', f, st, n) == StateAfter(ops, f, st, n) && FrameAfter(ops', f, st, n) == FrameAfter(ops, f, st, n)
    decreases n
  {
    hide Step, ExecBlock, Alike, Ordinary;
    SameSteps(ops, ops', f, st);
    if st.block in f.blocks {
      SameBlockRun(ops, ops', f, st.block, st.prev, st.frame);
    }
    if n > 0 && Step(ops, f, st).Running? {
      SameReach(ops, ops', f, h, Step(ops, f, st).st, n - 1);
    }
  }

  lemma {:induction false} SameBodyStable(ops: Ops, ops': Ops, s: Slice, m: Mem, body: seq<Instr>, fr: Frame)
    requires Alike(ops, ops', false) && (forall i | i in body :: i.op.Fn?) && BodyStable(ops, s, m, body, fr)
    ensures BodyStable(ops', s, m, body, fr)
  {
    forall n | 0 <= n < |body| && s.Has(body[n].id)
      ensures InstrStable(ops', m, body[n], ExecBody(ops', body[..n], fr))
    {
      assert forall i | i in body[..n] :: i in body;
      assert InstrStable(ops, m, body[n], ExecBody(ops, body[..n], fr));
      hide ExecBody, EvalAll;
      SameFns(ops, ops', body[..n], fr);
    }
  }

  lemma {:induction false} SameStable(ops: Ops, ops': Ops, f: Function, s: Slice, m: Mem, st: State, n: nat)
    requires Alike(ops, ops', false) && Ordinary(f) && RunStable(ops, f, s, m, st, n)
    ensures RunStable(ops', f, s, m, st, n)
    decreases n
  {
    hide Step, BodyStable, Alike;
    if st.block in f.blocks {
      var blk := f.blocks[st.block];
      assert BlockStable(ops, s, m, blk, st.prev, st.frame);
      SameBodyStable(ops, ops', s, m, blk.body, st.frame.(env := ExecPhis(blk.phis, st.prev, st.frame)));
    }
    hide Ordinary, BlockStable;
    SameSteps(ops, ops', f, st);
    if n > 0 && Step(ops, f, st).Running? {
      SameStable(ops, ops', f, s, m, Step(ops, f, st).st, n - 1);
    }
  }

  // ---- the uses ----

  /** A body that is ordinary once it is run eagerly. */
  ghost predicate EagerlyOrdinary(body: seq<Instr>, target: Value) {
    forall i | i in EagerBody(body, target) :: i.op.Fn?
  }

  lemma {:induction false} SameEagerly(ops: Ops, ops': Ops, body: seq<Instr>, target: Value, n: nat, fr: Frame)
    requires Alike(ops, ops', false) && EagerlyOrdinary(body, target) && n <= |body|
    ensures ExecBody(ops', EagerBody(body[..n], target), fr) == ExecBody(ops, EagerBody(body[..n], target), fr)
    ensures EagerlyOrdinary(body[..n], target)
  {
    assert EagerBody(body[..n], target) == EagerBody(body, target)[..n];
    assert forall i | i in EagerBody(body, target)[..n] :: i in EagerBody(body, target);
    hide ExecBody, EagerBody, Alike;
    SameFns(ops, ops', EagerBody(body[..n], target), fr);
  }

  lemma {:induction false} SameAfter(ops: Ops, ops': Ops, w: Life, body: seq<Instr>, fr: Frame)
    requires Alike(ops, ops', false) && EagerlyOrdinary(body, w.target)
    ensures BodyAfter(ops', w, body, fr) == BodyAfter(ops, w, body, fr)
    decreases |body|
  {
    hide EagerlyOrdinary, ExecBody, EagerBody, After, Alike;
    if body != [] {
      var n := |body| - 1;
      SameEagerly(ops, ops', body, w.target, n, fr);
      SameAfter(ops, ops', w, body[..n], fr);
    }
  }

  lemma {:induction false} SameBodyUses(ops: Ops, ops': Ops, w: Life, body: seq<Instr>, fr: Frame)
    requires Alike(ops, ops', false) && EagerlyOrdinary(body, w.target) && BodyUses(ops, w, body, fr)
    ensures BodyUses(ops', w, body, fr)
  {
    hide EagerlyOrdinary, ExecBody, EagerBody, BodyAfter;
    forall n | 0 <= n < |body|
      ensures UseAgrees(ops', BodyAfter(ops', w, body[..n], fr), body[n], ExecBody(ops', EagerBody(body[..n], w.target), fr))
    {
      assert UseAgrees(ops, BodyAfter(ops, w, body[..n], fr), body[n], ExecBody(ops, EagerBody(body[..n], w.target), fr));
      SameEagerly(ops, ops', body, w.target, n, fr);
      SameAfter(ops, ops', w, body[..n], fr);
    }
  }

  lemma {:induction false} SameBlockUses(ops: Ops, ops': Ops, w: Life, blk: Block, tailed: bool, prev: Option<BlockRef>, fr: Frame)
    requires Alike(ops, ops', false) && EagerlyOrdinary(blk.body, w.target)
    ensures BlockUses(ops, w, blk, tailed, prev, fr) ==> BlockUses(ops', w, blk, tailed, prev, fr)
    ensures BlockAfter(ops', w, blk, tailed, prev, fr) == BlockAfter(ops, w, blk, tailed, prev, fr)
  {
    var e1 := fr.(env := ExecPhis(blk.phis, prev, fr));
    assert blk.body[..|blk.body|] == blk.body;
    hide EagerlyOrdinary, ExecBody, EagerBody, BodyAfter, BodyUses, ExecPhis;
    SameEagerly(ops, ops', blk.body, w.target, |blk.body|, e1);
    SameAfter(ops, ops', w, blk.body, e1);
    if BodyUses(ops, w, blk.body, e1) {
      SameBodyUses(ops, ops', w, blk.body, e1);
    }
  }

  ghost predicate RunsOrdinarily(g: Function, target: Value) {
    forall b | b in g.blocks :: EagerlyOrdinary(g.blocks[b].body, target)
  }

  lemma {:induction false} SameRunAfter(ops: Ops, ops': Ops, w: Life, g: Function, f: Function, o: Outcome, n: nat)
    requires Alike(ops, ops', false) && RunsOrdinarily(g, w.target) && Ordinary(f)
    ensures RunAfter(ops', w, g, f, o, n) == RunAfter(ops, w, g, f, o, n)
    decreases n
  {
    hide Step, Ordinary, EagerlyOrdinary, BlockAfter, TailUsed, Alike;
    if n > 0 && o.Running? {
      if o.st.block in g.blocks {
        SameBlockUses(ops, ops', w, g.blocks[o.st.block], TailUsed(g, w.target, o.st.block), o.st.prev, o.st.frame);
      }
      assert LifeAfter(ops', w, g, o.st) == LifeAfter(ops, w, g, o.st);
      SameSteps(ops, ops', f, o.st);
      hide LifeAfter;
      SameRunAfter(ops, ops', LifeAfter(ops, w, g, o.st), g, f, Step(ops, f, o.st), n - 1);
    }
  }

  lemma {:induction false} SameUses(ops: Ops, ops': Ops, w: Life, g: Function, f: Function, st: State)
    requires Alike(ops, ops', false) && RunsOrdinarily(g, w.target) && Ordinary(f) && RunUses(ops, w, g, f, st)
    ensures RunUses(ops', w, g, f, st)
  {
    hide Step, Run, RunAfter, Ordinary, EagerlyOrdinary, BlockUses, BlockAfter, TailUsed, Alike;
    forall n: nat
      ensures UsesAt(ops', RunAfter(ops', w, g, f, Running(st), n), g, Run(ops', f, Running(st), n))
    {
      SameRuns(ops, ops', f, Running(st), n);
      SameRunAfter(ops, ops', w, g, f, Running(st), n);
      var o, w1 := Run(ops, f, Running(st), n), RunAfter(ops, w, g, f, Running(st), n);
      assert UsesAt(ops, w1, g, o);
      if o.Running? && o.st.block in g.blocks {
        SameBlockUses(ops, ops', w1, g.blocks[o.st.block], TailUsed(g, w1.target, o.st.block), o.st.prev, o.st.frame);
      }
    }
  }

  lemma {:induction false} OrdinaryRunsSo(f: Function, target: Value)
    requires Ordinary(f)
    ensures RunsOrdinarily(f, target)
  {
    forall b, i | b in f.blocks && i in EagerBody(f.blocks[b].body, target)
      ensures i.op.Fn?
    {
      var k :| 0 <= k < |f.blocks[b].body| && EagerBody(f.blocks[b].body, target)[k] == i;
      assert f.blocks[b].body[k] in f.blocks[b].body;
    }
  }

  lemma {:induction false} PassedRunsSo(f: Function, a: Site, target: Value)
    requires Ordinary(f)
    ensures RunsOrdinarily(PassedThunk(f, a), target)
  {
    var g := PassedThunk(f, a);
    forall b, i | b in g.blocks && i in EagerBody(g.blocks[b].body, target)
      ensures i.op.Fn?
    {
      PassedBlock(f, a, b);
      var k :| 0 <= k < |g.blocks[b].body| && EagerBody(g.blocks[b].body, target)[k] == i;
      assert f.blocks[b].body[k] in f.blocks[b].body;
    }
  }

  // ---- the calls ----

  lemma {:induction false} SameCallServed(ops: Ops, ops': Ops, w: Life, p: Passing, callee: Function)
    requires Alike(ops, ops', false) && Ordinary(callee) && |callee.order| > 0 && CallServed(ops, w, p, callee)
    ensures CallServed(ops', w, p, callee)
  {
    var vs := p.vs[p.x := w.v];
    OrdinaryRunsSo(callee, Arg(p.x));
    hide Run, RunUses, Ordinary, RunsOrdinarily;
    var n: nat :| RunIs(Run(ops, callee, Running(Start(callee, Fresh(vs, p.m, []))), n), ops.value(p.k, vs, p.m), ops.effect(p.k, vs, p.m));
    SameRuns(ops, ops', callee, Running(Start(callee, Fresh(vs, p.m, []))), n);
    assert RunIs(Run(ops', callee, Running(Start(callee, Fresh(vs, p.m, []))), n), ops'.value(p.k, vs, p.m), ops'.effect(p.k, vs, p.m));
    SameUses(ops, ops', LifeIn(w, p), callee, callee, CallStart(w, p, callee));
  }

  lemma {:induction false} SameCallKeeps(ops: Ops, ops': Ops, w: Life, p: Passing, callee: Function)
    requires Alike(ops, ops', false) && Ordinary(callee) && |callee.order| > 0 && CallKeeps(ops, w, p, callee)
    ensures CallKeeps(ops', w, p, callee)
  {
    OrdinaryRunsSo(callee, Arg(p.x));
    hide Run, RunAfter, Ordinary, RunsOrdinarily;
    var n: nat :| KeepsBy(ops, w, p, callee, n);
    SameRuns(ops, ops', callee, Running(CallStart(w, p, callee)), n);
    SameRunAfter(ops, ops', LifeIn(w, p), callee, callee, Running(CallStart(w, p, callee)), n);
    assert KeepsBy(ops', w, p, callee, n);
  }

  lemma AlikeBack(ops: Ops, ops': Ops)
    requires Alike(ops, ops', false)
    ensures Alike(ops', ops, false)
  {
  }

  lemma {:induction false} SameLife(ops: Ops, ops': Ops, f: Function, s: Slice, a: Site, callee: Function, ef: Frame, n: nat)
    requires Alike(ops, ops', false) && Ordinary(f) && Ordinary(callee) && |f.order| > 0 && |callee.order| > 0 && GoodSite(f, a)
    ensures LifeAt(ops', f, s, a, callee, ef, n) == LifeAt(ops, f, s, a, callee, ef, n)
  {
    var w, w' := LifeAt(ops, f, s, a, callee, ef, n), LifeAt(ops', f, s, a, callee, ef, n);
    var st := Start(f, ef);
    AlikeBack(ops, ops');
    SameReach(ops, ops', f, Parent(a.crit), st, n);
    hide GoodSite, Ordinary, RunStable, FrameAfter, StateAfter, Eval, EnvOf, CallServed, CallKeeps, Alike, Start, Callee, ReachesIn;
    forall m: Mem
      ensures m in w.fit <==> m in w'.fit
    {
      if RunStable(ops, f, s, m, st, n) {
        SameStable(ops, ops', f, s, m, st, n);
      }
      if RunStable(ops', f, s, m, st, n) {
        SameStable(ops', ops, f, s, m, st, n);
      }
    }
    assert w.fit == w'.fit;
    var w0 := w.(good := iset {}, keeping := iset {});
    assert w0 == w'.(good := iset {}, keeping := iset {});
    forall p: Passing
      ensures p in w.good <==> p in w'.good
      ensures p in w.keeping <==> p in w'.keeping
    {
      SameCalls(ops, w, w0, p, callee);
      SameCalls(ops', w', w0, p, callee);
      CallsAlike(ops, ops', w0, p, callee);
    }
    assert w.good == w'.good && w.keeping == w'.keeping;
  }

  lemma {:induction false} CallsAlike(ops: Ops, ops': Ops, w: Life, p: Passing, callee: Function)
    requires Alike(ops, ops', false) && Ordinary(callee) && |callee.order| > 0
    ensures CallServed(ops, w, p, callee) <==> CallServed(ops', w, p, callee)
    ensures CallKeeps(ops, w, p, callee) <==> CallKeeps(ops', w, p, callee)
  {
    AlikeBack(ops, ops');
    hide Ordinary, CallServed, CallKeeps, Alike;
    if CallServed(ops, w, p, callee) { SameCallServed(ops, ops', w, p, callee); }
    if CallServed(ops', w, p, callee) { SameCallServed(ops', ops, w, p, callee); }
    if CallKeeps(ops, w, p, callee) { SameCallKeeps(ops, ops', w, p, callee); }
    if CallKeeps(ops', w, p, callee) { SameCallKeeps(ops', ops, w, p, callee); }
  }

  /** A run that allows a thunk does so whatever thunk calls and lazy calls mean. */
  lemma {:induction false} SameAllows(ops: Ops, ops': Ops, f: Function, s: Slice, a: Site, callee: Function, ef: Frame)
    requires Alike(ops, ops', false) && WellFormed(f) && WellFormed(callee) && |f.order| > 0 && |callee.order| > 0 && GoodSite(f, a)
    requires RunAllows(ops, f, s, a, callee, ef)
    ensures RunAllows(ops', f, s, a, callee, ef)
  {
    hide *;
    WellFormedIsOrdinary(f);
    WellFormedIsOrdinary(callee);
    var st := Start(f, ef);
    forall n | ReachesIn(ops', f, Parent(a.crit), st, n)
      ensures RunUses(ops', LifeAt(ops', f, s, a, callee, ef, n), PassedThunk(f, a), f, StateAfter(ops', f, st, n))
    {
      SameReach(ops, ops', f, Parent(a.crit), st, n);
      SameLife(ops, ops', f, s, a, callee, ef, n);
      var w := LifeAt(ops, f, s, a, callee, ef, n);
      AllowedAt(ops, f, s, a, callee, ef, n);
      PassedRunsSo(f, a, w.target);
      SameUses(ops, ops', w, PassedThunk(f, a), f, StateAfter(ops, f, st, n));
    }
    AllowsFrom(ops', f, s, a, callee, ef);
  }

  lemma {:induction false} AllowedAt(ops: Ops, f: Function, s: Slice, a: Site, callee: Function, ef: Frame, n: nat)
    requires |f.order| > 0 && |callee.order| > 0 && GoodSite(f, a) && RunAllows(ops, f, s, a, callee, ef)
    requires ReachesIn(ops, f, Parent(a.crit), Start(f, ef), n)
    ensures RunUses(ops, LifeAt(ops, f, s, a, callee, ef, n), PassedThunk(f, a), f, StateAfter(ops, f, Start(f, ef), n))
  {
    hide RunUses, LifeAt, PassedThunk, StateAfter, Start, GoodSite, ReachesIn;
  }
}
