/** The block of the criterion, where the thunk is initialised. */
module HomeBlock {
  import opened Graphs
  import opened Ir
  import opened Machine
  import opened Thunks
  import opened Forcing
  import opened CallByNeed
  import opened CallerSide

  // ---- sequences of instructions ----

  lemma {:induction false} WeaveConcat(a: seq<Instr>, b: seq<Instr>, calls: map<Id, seq<nat>>, target: Value)
    ensures Weave(a + b, calls, target) == Weave(a, calls, target) + Weave(b, calls, target)
  {
    if b == [] {
      assert a + b == a;
    } else {
      var n := |b| - 1;
      hide ForcesFor, ForcedInstr, CallsOf;
      assert (a + b)[..|a + b| - 1] == a + b[..n] && (a + b)[|a + b| - 1] == b[n];
      WeaveConcat(a, b[..n], calls, target);
    }
  }

  lemma {:induction false} ArgsStay(ops: Ops, body: seq<Instr>, fr: Frame)
    ensures ExecBody(ops, body, fr).args == fr.args
  {
    if body != [] {
      ArgsStay(ops, body[..|body| - 1], fr);
    }
  }

  lemma {:induction false} ValueStays(ops: Ops, body: seq<Instr>, id: Id, fr: Frame)
    requires forall i | i in body :: i.id != id
    ensures Eval(Res(id), ExecBody(ops, body, fr)) == Eval(Res(id), fr)
  {
    if body != [] {
      var n := |body| - 1;
      assert body[n] in body && forall i | i in body[..n] :: i in body;
      ValueStays(ops, body[..n], id, fr);
    }
  }

  lemma EagerIds(body: seq<Instr>, target: Value, id: Id)
    requires forall i | i in body :: i.id != id
    ensures forall i | i in EagerBody(body, target) :: i.id != id
  {
    forall i | i in EagerBody(body, target)
      ensures i.id != id
    {
      var k :| 0 <= k < |body| && EagerBody(body, target)[k] == i;
      assert body[k] in body;
    }
  }

  /** Instructions that do not use the criterion leave the thunk alone. */
  lemma {:induction false} SlotsStay(ops: Ops, w: Life, body: seq<Instr>, calls: map<Id, seq<nat>>, fr: Frame)
    requires GoodBody(w, false, body, calls)
    ensures ExecBody(ops, Weave(body, calls, w.target), fr).slots == fr.slots
  {
    if body != [] {
      var n := |body| - 1;
      assert body[n] in body && forall i | i in body[..n] :: i in body;
      hide CoversInstr;
      SlotsStay(ops, w, body[..n], calls, fr);
      var i := body[n];
      assert ForcesFor(i.id, CallsOf(calls, i.id)) == [];
      assert Weave(body, calls, w.target) == Weave(body[..n], calls, w.target) + [ForcedInstr(i, w.target)];
      ExecBodyConcat(ops, Weave(body[..n], calls, w.target), [ForcedInstr(i, w.target)], fr);
      OneInstr(ops, ForcedInstr(i, w.target), ExecBody(ops, Weave(body[..n], calls, w.target), fr));
    }
  }

  lemma {:induction false} OneInstr(ops: Ops, i: Instr, fr: Frame)
    ensures ExecBody(ops, [i], fr) == ExecInstr(ops, i, fr)
  {
    assert ExecBody(ops, [i][..0], fr) == fr;
  }

  // ---- the initialisation ----

  /** The captured environment is the value of the parameters the slice depends on. */
  ghost predicate Captures(a: Site, env: seq<int>, args: seq<int>) {
    |env| == |a.envArgs| && forall j | 0 <= j < |env| :: env[j] == if a.envArgs[j] < |args| then args[a.envArgs[j]] else 0
  }

  lemma InitLocks(ops: Ops, w: Life, a: Site, ef: Frame, lf: Frame)
    requires Lock(ops, w, false, ef, lf) && Captures(a, w.env, lf.args)
    ensures var lf' := ExecInstr(ops, InitInstr(a), lf); Lock(ops, w, false, ef, lf') && ThunkReady(ops, w.env, w.v, lf'.slots)
  {
    hide ThunkReady;
    assert EvalAll(ArgValues(a.envArgs), lf) == w.env;
    InitIsReady(ops, if |lf.slots| > 1 then lf.slots[1] else 0, w.env, w.v);
  }

  lemma {:induction false} InitWoven(a: Site, calls: map<Id, seq<nat>>)
    requires CallsOf(calls, DummyId(a.crit, 0)) == []
    ensures Weave([InitInstr(a)], calls, Res(a.crit)) == [InitInstr(a)]
  {
    assert [InitInstr(a)][..0] == [];
    assert ForcedInstr(InitInstr(a), Res(a.crit)).args == InitInstr(a).args;
  }

  lemma LockTurnsReady(ops: Ops, w: Life, ef: Frame, lf: Frame)
    requires Lock(ops, w, false, ef, lf) && ThunkReady(ops, w.env, w.v, lf.slots) && Eval(w.target, ef) == w.v && !w.kept
    ensures Lock(ops, w, true, ef, lf)
  {
  }

  /** Code that does not use the criterion tells nothing of the thunk. */
  lemma {:induction false} QuietAfter(ops: Ops, w: Life, body: seq<Instr>, calls: map<Id, seq<nat>>, ef: Frame)
    requires GoodBody(w, false, body, calls)
    ensures BodyAfter(ops, w, body, ef) == w
  {
    if body != [] {
      var n := |body| - 1;
      assert body[n] in body && forall i | i in body[..n] :: i in body;
      hide GoodInstr, CoversInstr, EagerBody, ExecBody;
      QuietAfter(ops, w, body[..n], calls, ef);
    }
  }

  // ---- the body of the block ----

  /** The code before the initialisation, from there to the criterion, and after it. */
  datatype Parts = Parts(pre: seq<Instr>, crit: seq<Instr>, post: seq<Instr>) {
    function All(): seq<Instr> { pre + crit + post }
    function With(i: Instr): seq<Instr> { pre + [i] + crit + post }
    function Eagerly(target: Value): Parts { Parts(EagerBody(pre, target), EagerBody(crit, target),
                     EagerBody(post, target)) }
  }

  ghost predicate GoodParts(w: Life, p: Parts, calls: map<Id, seq<nat>>) {
    && GoodBody(w, false, p.pre, calls) && GoodBody(w, false, p.crit, calls) && GoodBody(w, true, p.post, calls)
  }

  lemma {:induction false} RunParts(ops: Ops, p: Parts, fr: Frame)
    ensures ExecBody(ops, p.All(), fr) == ExecBody(ops, p.post, ExecBody(ops, p.crit, ExecBody(ops, p.pre, fr)))
  {
    ExecBodyConcat(ops, p.pre, p.crit, fr);
    ExecBodyConcat(ops, p.pre + p.crit, p.post, fr);
  }

  lemma {:induction false} RunWovenParts(ops: Ops, a: Site, p: Parts, calls: map<Id, seq<nat>>, fr: Frame)
    requires CallsOf(calls, DummyId(a.crit, 0)) == []
    ensures var t := Res(a.crit);
      ExecBody(ops, Weave(p.With(InitInstr(a)), calls, t), fr) ==
      ExecBody(ops, Weave(p.post, calls, t), ExecBody(ops, Weave(p.crit, calls, t),
        ExecInstr(ops, InitInstr(a), ExecBody(ops, Weave(p.pre, calls, t), fr))))
  {
    var i, t := InitInstr(a), Res(a.crit);
    hide Weave, ExecBody, ExecInstr, InitInstr;
    WeaveConcat(p.pre, [i], calls, t);
    WeaveConcat(p.pre + [i], p.crit, calls, t);
    WeaveConcat(p.pre + [i] + p.crit, p.post, calls, t);
    InitWoven(a, calls);
    var x, y, z := Weave(p.pre, calls, t), Weave(p.crit, calls, t), Weave(p.post, calls, t);
    ExecBodyConcat(ops, x, [i], fr);
    ExecBodyConcat(ops, x + [i], y, fr);
    ExecBodyConcat(ops, x + [i] + y, z, fr);
    OneInstr(ops, i, ExecBody(ops, x, fr));
  }

  lemma {:induction false} PartsLock(ops: Ops, w: Life, a: Site, p: Parts, calls: map<Id, seq<nat>>, ef: Frame, lf: Frame)
    requires Lock(ops, w, false, ef, lf) && GoodParts(w, p, calls) && Promised(ops, w) && !w.kept
    requires Captures(a, w.env, lf.args) && CallsOf(calls, DummyId(a.crit, 0)) == [] && w.target == Res(a.crit)
    requires w.v == Eval(w.target, ExecBody(ops, p.Eagerly(w.target).All(), ef))
    requires BodyUses(ops, w, p.All(), ef)
    ensures Lock(ops, BodyAfter(ops, w, p.All(), ef), true,
                 ExecBody(ops, p.Eagerly(w.target).All(), ef), ExecBody(ops, Weave(p.With(InitInstr(a)), calls, w.target), lf))
  {
    var t := w.target;
    var q := p.Eagerly(t);
    RunParts(ops, q, ef);
    RunWovenParts(ops, a, p, calls, lf);
    UsesOfPost(ops, w, p, calls, ef);
    hide Lock, GoodBody, Promised, ExecBody, EagerBody, Weave, Captures, ThunkReady, ExecInstr, Eval, InitInstr,
         BodyUses, BodyAfter;
    WeaveLocks(ops, w, false, ef, lf, p.pre, calls);
    QuietAfter(ops, w, p.pre, calls, ef);
    var e1, l1 := ExecBody(ops, q.pre, ef), ExecBody(ops, Weave(p.pre, calls, t), lf);
    ArgsStay(ops, Weave(p.pre, calls, t), lf);
    InitLocks(ops, w, a, e1, l1);
    var l2 := ExecInstr(ops, InitInstr(a), l1);
    WeaveLocks(ops, w, false, e1, l2, p.crit, calls);
    QuietAfter(ops, w, p.crit, calls, e1);
    SlotsStay(ops, w, p.crit, calls, l2);
    var e3, l3 := ExecBody(ops, q.crit, e1), ExecBody(ops, Weave(p.crit, calls, t), l2);
    NoCritIn(w, a, p.post, calls);
    EagerIds(p.post, t, a.crit);
    ValueStays(ops, q.post, a.crit, e3);
    LockTurnsReady(ops, w, e3, l3);
    WeaveLocks(ops, w, true, e3, l3, p.post, calls);
  }

  lemma {:induction false} UsesOfPost(ops: Ops, w: Life, p: Parts, calls: map<Id, seq<nat>>, ef: Frame)
    requires BodyUses(ops, w, p.All(), ef) && GoodParts(w, p, calls)
    ensures var q := p.Eagerly(w.target);
      var e3 := ExecBody(ops, q.crit, ExecBody(ops, q.pre, ef));
      BodyUses(ops, w, p.post, e3) && BodyAfter(ops, w, p.All(), ef) == BodyAfter(ops, w, p.post, e3)
  {
    var q := p.Eagerly(w.target);
    hide BodyUses, GoodBody, ExecBody, BodyAfter;
    UsesOfSuffix(ops, w, p.pre + p.crit, p.post, ef);
    AfterConcat(ops, w, p.pre + p.crit, p.post, ef);
    AfterConcat(ops, w, p.pre, p.crit, ef);
    QuietAfter(ops, w, p.pre, calls, ef);
    QuietAfter(ops, w, p.crit, calls, ExecBody(ops, q.pre, ef));
    assert EagerBody(p.pre + p.crit, w.target) == q.pre + q.crit;
    ExecBodyConcat(ops, q.pre, q.crit, ef);
  }

  lemma NoCritIn(w: Life, a: Site, body: seq<Instr>, calls: map<Id, seq<nat>>)
    requires GoodBody(w, true, body, calls) && w.target == Res(a.crit)
    ensures forall i | i in body :: i.id != a.crit
  {
  }

  // ---- what the criterion's block is made of ----

  ghost function PartsOf(body: seq<Instr>, a: Site): (p: Parts)
    requires a.crit.BodyId? ==> a.crit.k < |body|
    ensures p.All() == PassThunkAll(body, a)
    ensures p.With(InitInstr(a)) == LazyBody(body, a, true)
  {
    var r := PassThunkAll(body, a);
    if a.crit.BodyId? then
      assert r == r[..a.crit.k] + r[a.crit.k..a.crit.k + 1] + r[a.crit.k + 1..];
      assert r[a.crit.k..] == r[a.crit.k..a.crit.k + 1] + r[a.crit.k + 1..];
      Parts(r[..a.crit.k], r[a.crit.k..a.crit.k + 1], r[a.crit.k + 1..])
    else Parts([], [], r)
  }

  lemma HomeIsBlock(f: Function, a: Site)
    requires WellFormed(f) && GoodSite(f, a)
    ensures Parent(a.crit) in f.blocks && a.crit.BodyId? ==> a.crit.k < |f.blocks[Parent(a.crit)].body|
    ensures Parent(a.crit) in f.blocks && !a.crit.TermId? && (a.crit.PhiId? || a.crit.BodyId?)
  {
    hide WellFormed, Operands;
  }

  lemma SubBody(w: Life, ready: bool, body: seq<Instr>, sub: seq<Instr>, calls: map<Id, seq<nat>>)
    requires GoodBody(w, ready, body, calls) && forall i | i in sub :: i in body
    ensures GoodBody(w, ready, sub, calls)
  {
    hide GoodInstr, CoversInstr;
  }

  /** Its instructions up to the criterion do not use it, those behind do not define it. */
  lemma HomeUses(f: Function, a: Site, k: nat)
    requires GoodCaller(f, a) && Parent(a.crit) in f.blocks && k < |f.blocks[Parent(a.crit)].body|
    ensures a.crit.BodyId? && k <= a.crit.k ==> Res(a.crit) !in f.blocks[Parent(a.crit)].body[k].args
    ensures a.crit.BodyId? && a.crit.k < k ==> f.blocks[Parent(a.crit)].body[k].id != a.crit
    ensures a.crit.PhiId? ==> f.blocks[Parent(a.crit)].body[k].id != a.crit
  {
    hide GoodCaller, WellFormed, DefsDominateUses, GoodSite, Dominates, Shaped;
    GoodCallerParts(f, a);
    InstrHere(f, Parent(a.crit), k);
    if Res(a.crit) in f.blocks[Parent(a.crit)].body[k].args {
      InstrUseBelow(f, a, Parent(a.crit), k);
    }
  }

  lemma HomeParts(w: Life, f: Function, a: Site, calls: map<Id, seq<nat>>,
                  tails: map<BlockRef, seq<Use>>, c: Function)
    requires GoodCaller(f, a) && Forced(f, a, calls, tails, c) && w.target == Res(a.crit)
    ensures Parent(a.crit) in f.blocks && (a.crit.BodyId? ==> a.crit.k < |f.blocks[Parent(a.crit)].body|)
    ensures var p := PartsOf(f.blocks[Parent(a.crit)].body, a);
      GoodParts(w, p, calls) && p.Eagerly(w.target).All() == f.blocks[Parent(a.crit)].body
  {
    hide GoodCaller, Forced, WellFormed, DefsDominateUses, GoodSite, Shaped,
         GoodBody, EagerBody;
    GoodCallerParts(f, a);
    HomeIsBlock(f, a);
    var h := Parent(a.crit);
    var body := f.blocks[h].body;
    var k := if a.crit.BodyId? then a.crit.k + 1 else 0;
    forall j | 0 <= j < |body|
      ensures j < k ==> Res(a.crit) !in body[j].args
      ensures k <= j ==> body[j].id != a.crit
    {
      HomeUses(f, a, j);
    }
    QuietPart(w, f, a, calls, tails, c, h, k);
    BusyPart(w, f, a, calls, tails, c, h, k);
    HomePartsOf(w, body, a, calls, k);
  }

  lemma HomePartsOf(w: Life, body: seq<Instr>, a: Site, calls: map<Id, seq<nat>>, k: nat)
    requires k == (if a.crit.BodyId? then a.crit.k + 1 else 0) && k <= |body|
    requires GoodBody(w, false, PassThunkAll(body, a)[..k], calls) && GoodBody(w, true, PassThunkAll(body, a)[k..], calls)
    requires EagerBody(PassThunkAll(body, a)[..k], w.target) == body[..k] && EagerBody(PassThunkAll(body, a)[k..], w.target) == body[k..]
    ensures var p := PartsOf(body, a); GoodParts(w, p, calls) && p.Eagerly(w.target).All() == body
  {
    hide GoodBody, EagerInstr;
    var r := PassThunkAll(body, a);
    var p := PartsOf(body, a);
    SubBody(w, false, r[..k], p.pre, calls);
    SubBody(w, false, r[..k], p.crit, calls);
    assert p.pre + p.crit == r[..k] && p.post == r[k..];
    assert EagerBody(p.pre, w.target) + EagerBody(p.crit, w.target) == EagerBody(r[..k], w.target);
    assert body == body[..k] + body[k..];
  }

  /** The initialisation does not use the criterion. */
  lemma InitHasNoCalls(f: Function, a: Site, calls: map<Id, seq<nat>>, tails: map<BlockRef, seq<Use>>, c: Function)
    requires Forced(f, a, calls, tails, c) && Parent(a.crit) in f.blocks
    requires a.crit.BodyId? ==> a.crit.k < |f.blocks[Parent(a.crit)].body|
    ensures CallsOf(calls, DummyId(a.crit, 0)) == []
  {
    ForcedParts(f, a, calls, tails, c);
    LazyBlocks(f, a, Parent(a.crit));
    hide Forced, CallsExact, TailsExact, ForcedBlock;
    assert InitInstr(a) in PartsOf(f.blocks[Parent(a.crit)].body, a).With(InitInstr(a));
    CallsCover(WithThunk(f, a), Res(a.crit), calls, Parent(a.crit), InitInstr(a));
  }

  // ---- running it ----

  ghost predicate PhisReady(w: Life, phis: seq<Phi>, prev: Option<BlockRef>) {
    GoodPhis(w, false, phis) && (prev.Some? ==> !EdgeUses(phis, w.target, prev.value) && forall env :: EdgeForced(phis, w.target, prev.value, env))
  }

  lemma {:induction false} AllPhisLock(ops: Ops, w: Life, ef: Frame, lf: Frame, phis: seq<Phi>, prev: Option<BlockRef>)
    requires Lock(ops, w, false, ef, lf) && PhisReady(w, phis, prev)
    ensures Lock(ops, w, false, ef.(env := ExecPhis(phis, prev, ef)), lf.(env := ExecPhis(ForcedPhis(phis, w.target), prev, lf)))
  {
    hide Lock, GoodPhis, EdgeForced, EdgeUses;
    PhisLock(ops, w, false, ef, lf, phis, |phis|, prev);
    assert phis[..|phis|] == phis && ForcedPhis(phis, w.target)[..|phis|] == ForcedPhis(phis, w.target);
  }

  lemma TermReady(ops: Ops, w: Life, ef: Frame, lf: Frame, b: nat, t: Term, tail: seq<Use>)
    requires Lock(ops, w, true, ef, lf) && (forall v | v in t.Values() :: GoodOperand(v)) && TailReady(b, t, tail, w.target)
    requires forall u | u in tail :: ForceId(u.0, u.1) in lf.env
    ensures Choose(Some(ForcedTerm(TermId(b), t, w.target)), lf) == Choose(Some(t), ef)
  {
    hide Lock;
    ChoiceLocks(ops, w, true, ef, lf, b, t);
  }

  /** Through the criterion's block: entered with no thunk, left with a thunk that is ready. */
  lemma HomeLocks(ops: Ops, w: Life, f: Function, a: Site, calls: map<Id, seq<nat>>,
                  tails: map<BlockRef, seq<Use>>, c: Function,
                  prev: Option<BlockRef>, ef: Frame, lf: Frame)
    requires GoodCaller(f, a) && Forced(f, a, calls, tails, c) && w.target == Res(a.crit)
    requires Promised(ops, w) && !w.kept
    requires Lock(ops, w, false, ef, lf) && Captures(a, w.env, lf.args)
    requires Parent(a.crit) in f.blocks && PhisReady(w, f.blocks[Parent(a.crit)].phis, prev)
    requires w.v == Eval(w.target, ExecBlock(ops, f.blocks[Parent(a.crit)], prev, ef))
    requires HomeServed(ops, w, f, a, prev, ef)
    ensures Parent(a.crit) in c.blocks && Parent(a.crit) in tails
    ensures var h := Parent(a.crit);
      var ef', lf' := ExecBlock(ops, f.blocks[h], prev, ef), ExecBlock(ops, c.blocks[h], prev, lf);
      && Lock(ops, LifeAfter(ops, w, PassedThunk(f, a), State(h, prev, ef)), true, ef', lf')
      && Choose(c.blocks[h].term, lf') == Choose(f.blocks[h].term, ef')
      && (forall u | u in tails[h] :: ForceId(u.0, u.1) in lf'.env)
  {
    var h := Parent(a.crit);
    var blk := f.blocks[h];
    hide *;
    hide GoodCaller, Forced;
    GoodCallerParts(f, a);
    HomeParts(w, f, a, calls, tails, c);
    InitHasNoCalls(f, a, calls, tails, c);
    GoodEnds(w, f, h);
    TermInTail(f, a, calls, tails, c, h);
    HomeIsForced(f, a, calls, tails, c);
    AllPhisLock(ops, w, ef, lf, blk.phis, prev);
    HomeUsesAre(ops, w, f, a, calls, tails, c, prev, ef);
    ExecBlockIs(ops, blk, prev, ef);
    ExecBlockIs(ops, c.blocks[h], prev, lf);
    HomeRuns(ops, w, a, h.b, blk, PartsOf(blk.body, a), calls, tails[h],
             ef.(env := ExecPhis(blk.phis, prev, ef)), lf.(env := ExecPhis(ForcedPhis(blk.phis, w.target), prev, lf)));
  }

  /** The same behind the phis. */
  lemma {:induction false} HomeRuns(ops: Ops, w: Life, a: Site, b: nat, blk: Block, p: Parts, calls: map<Id, seq<nat>>, tail: seq<Use>, ef: Frame, lf: Frame)
    requires Lock(ops, w, false, ef, lf) && GoodParts(w, p, calls) && Promised(ops, w) && !w.kept
    requires Captures(a, w.env, lf.args) && CallsOf(calls, DummyId(a.crit, 0)) == [] && w.target == Res(a.crit)
    requires p.Eagerly(w.target).All() == blk.body && w.v == Eval(w.target, ExecBody(ops, blk.body, ef)) && BodyUses(ops, w, p.All(), ef)
    requires tail != [] ==> Fits(ops, BodyAfter(ops, w, p.All(), ef), ExecBody(ops, blk.body, ef).mem)
    requires blk.term.Some? && (forall v | v in blk.term.value.Values() :: GoodOperand(v)) && TailReady(b, blk.term.value, tail, w.target)
    ensures var ef' := ExecBody(ops, blk.body, ef);
      var lf' := ExecBody(ops, Weave(p.With(InitInstr(a)), calls, w.target) + TailForces(tail), lf);
      && Lock(ops, BodyAfter(ops, w, p.All(), ef).Keep(tail != []), true, ef', lf')
      && Choose(Some(ForcedTerm(TermId(b), blk.term.value, w.target)), lf') == Choose(blk.term, ef')
      && (forall u | u in tail :: ForceId(u.0, u.1) in lf'.env)
  {
    hide *;
    PartsLock(ops, w, a, p, calls, ef, lf);
    var woven := Weave(p.With(InitInstr(a)), calls, w.target);
    ExecBodyConcat(ops, woven, TailForces(tail), lf);
    var w1 := BodyAfter(ops, w, p.All(), ef);
    StillPromised(ops, w, w1);
    TailLocks(ops, w1, true, ExecBody(ops, blk.body, ef), ExecBody(ops, woven, lf), tail);
    TermReady(ops, w1.Keep(tail != []), ExecBody(ops, blk.body, ef), ExecBody(ops, woven + TailForces(tail), lf), b, blk.term.value, tail);
  }

  /** The uses in the criterion's block agree. */
  ghost predicate HomeServed(ops: Ops, w: Life, f: Function, a: Site, prev: Option<BlockRef>, ef: Frame) {
    var g, h := PassedThunk(f, a), Parent(a.crit);
    h in g.blocks && BlockUses(ops, w, g.blocks[h], TailUsed(g, w.target, h), prev, ef)
  }

  lemma {:induction false} HomeUsesAre(ops: Ops, w: Life, f: Function, a: Site, calls: map<Id, seq<nat>>, tails: map<BlockRef, seq<Use>>,
                    c: Function, prev: Option<BlockRef>, ef: Frame)
    requires HomeServed(ops, w, f, a, prev, ef) && Forced(f, a, calls, tails, c) && w.target == Res(a.crit)
    requires Parent(a.crit) in f.blocks && (a.crit.BodyId? ==> a.crit.k < |f.blocks[Parent(a.crit)].body|)
    requires PartsOf(f.blocks[Parent(a.crit)].body, a).Eagerly(w.target).All() == f.blocks[Parent(a.crit)].body
    ensures var h := Parent(a.crit);
      var blk := f.blocks[h];
      var e1 := ef.(env := ExecPhis(blk.phis, prev, ef));
      var w1 := BodyAfter(ops, w, PartsOf(blk.body, a).All(), e1);
      && BodyUses(ops, w, PartsOf(blk.body, a).All(), e1) && h in tails
      && (tails[h] != [] ==> Fits(ops, w1, ExecBody(ops, blk.body, e1).mem))
      && LifeAfter(ops, w, PassedThunk(f, a), State(h, prev, ef)) == w1.Keep(tails[h] != [])
  {
    var h := Parent(a.crit);
    PassedBlock(f, a, h);
    TailUsedAsPassed(f, a, calls, tails, c, h);
    PartsEagerly(PartsOf(f.blocks[h].body, a), w.target);
    LifeAfterIs(ops, w, PassedThunk(f, a), State(h, prev, ef));
    hide BodyUses, Fits, Forced, PartsOf, TailUsed, PassedThunk, EagerBody, BodyAfter, LifeAfter;
  }

  lemma PartsEagerly(p: Parts, target: Value)
    ensures p.Eagerly(target).All() == EagerBody(p.All(), target)
  {
  }

  lemma {:induction false} ExecBlockIs(ops: Ops, blk: Block, prev: Option<BlockRef>, fr: Frame)
    ensures ExecBlock(ops, blk, prev, fr) == ExecBody(ops, blk.body, fr.(env := ExecPhis(blk.phis, prev, fr)))
  {
  }

  lemma {:induction false} HomeIsForced(f: Function, a: Site, calls: map<Id, seq<nat>>,
                                        tails: map<BlockRef, seq<Use>>, c: Function)
    requires Forced(f, a, calls, tails, c) && Parent(a.crit) in f.blocks && Parent(a.crit).Orig?
    requires a.crit.BodyId? ==> a.crit.k < |f.blocks[Parent(a.crit)].body|
    requires f.blocks[Parent(a.crit)].term.Some?
    ensures Parent(a.crit) in c.blocks && Parent(a.crit) in tails
    ensures var h := Parent(a.crit);
      && c.blocks[h].phis == ForcedPhis(f.blocks[h].phis, Res(a.crit))
      && c.blocks[h].body == Weave(PartsOf(f.blocks[h].body, a).With(InitInstr(a)), calls, Res(a.crit)) + TailForces(tails[h])
      && c.blocks[h].term == Some(ForcedTerm(TermId(h.b), f.blocks[h].term.value, Res(a.crit)))
  {
    ForcedParts(f, a, calls, tails, c);
    LazyBlocks(f, a, Parent(a.crit));
    hide Forced, Weave, ForcedPhis, ForcedTerm, TailForces, WithThunk, LazyBody, PassThunkAll;
  }
}
