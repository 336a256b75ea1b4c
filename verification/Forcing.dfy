/** Replacing the uses of a value by thunk calls: the rewritten code, and why one block of it runs in
    step with the original. */
module Forcing {
  import opened Graphs
  import opened Ir
  import opened Machine
  import opened Thunks

  // ---- the rewritten code ----

  /** The thunk calls made for the operands `ks` of `user`, in the order they were inserted. */
  function ForcesFor(user: Id, ks: seq<nat>): (r: seq<Instr>)
    ensures |r| == |ks|
  {
    seq(|ks|, j requires 0 <= j < |ks| => Instr(ForceId(user, ks[j]), Force, []))
  }

  function CallsOf(calls: map<Id, seq<nat>>, id: Id): seq<nat> {
    if id in calls then calls[id] else []
  }

  /** Every use of `target` becomes the result of its thunk call. */
  function ForcedArgs(user: Id, args: seq<Value>, target: Value): (r: seq<Value>)
    ensures |r| == |args|
  {
    seq(|args|, k requires 0 <= k < |args| => if args[k] == target then Res(ForceId(user, k)) else args[k])
  }

  function ForcedInstr(i: Instr, target: Value): Instr {
    Instr(i.id, i.op, ForcedArgs(i.id, i.args, target))
  }

  /** The instructions of a block, each behind the thunk calls made for its operands. */
  function Weave(body: seq<Instr>, calls: map<Id, seq<nat>>, target: Value): seq<Instr> {
    if body == [] then [] else
      var n := |body| - 1;
      Weave(body[..n], calls, target) + ForcesFor(body[n].id, CallsOf(calls, body[n].id)) + [ForcedInstr(body[n], target)]
  }

  function ForcedIncoming(id: Id, inc: seq<(BlockRef, Value)>, target: Value): (r: seq<(BlockRef, Value)>)
    ensures |r| == |inc|
  {
    seq(|inc|, j requires 0 <= j < |inc| => (inc[j].0, if inc[j].1 == target then Res(ForceId(id, j)) else inc[j].1))
  }

  function ForcedPhis(phis: seq<Phi>, target: Value): (r: seq<Phi>)
    ensures |r| == |phis|
  {
    seq(|phis|, i requires 0 <= i < |phis| => Phi(phis[i].id, ForcedIncoming(phis[i].id, phis[i].incoming, target)))
  }

  function ForcedValue(user: Id, v: Value, target: Value): Value {
    if v == target then Res(ForceId(user, 0)) else v
  }

  function ForcedTerm(user: Id, t: Term, target: Value): (r: Term)
    ensures r.Succs() == t.Succs()
  {
    match t
    case CondBr(c, x, y) => CondBr(ForcedValue(user, c, target), x, y)
    case Switch(c, ls, ts) => Switch(ForcedValue(user, c, target), ls, ts)
    case Ret(v) => Ret(ForcedValue(user, v, target))
    case _ => t
  }

  /** One use: operand `k` of the instruction, terminator or phi `user`. */
  type Use = (Id, nat)

  /** The thunk calls placed before the terminator of a block: those of the terminator itself, and those
      of phis the block flows into. */
  function TailForces(tail: seq<Use>): (r: seq<Instr>)
    ensures |r| == |tail|
  {
    seq(|tail|, j requires 0 <= j < |tail| => Instr(ForceId(tail[j].0, tail[j].1), Force, []))
  }

  function ForcedBlock(b: nat, blk: Block, calls: map<Id, seq<nat>>, tail: seq<Use>, target: Value): Block {
    Block(ForcedPhis(blk.phis, target), Weave(blk.body, calls, target) + TailForces(tail),
          if blk.term.Some? then Some(ForcedTerm(TermId(b), blk.term.value, target)) else None)
  }

  // ---- what the calls must cover ----

  ghost predicate CoversInstr(i: Instr, calls: map<Id, seq<nat>>, target: Value) {
    forall k: nat | k < |i.args| && i.args[k] == target :: k in CallsOf(calls, i.id)
  }

  ghost predicate NoUse(i: Instr, target: Value) {
    target !in i.args && !i.op.LazyCall?
  }

  // ---- the program before rewriting, run eagerly ----

  /** A call that is to be passed a thunk is, run eagerly, a call that is passed the value. */
  function EagerInstr(i: Instr, target: Value): Instr {
    match i.op
    case LazyCall(k, x) => if x < |i.args| then Instr(i.id, Fn(k), i.args[x := target]) else Instr(i.id, Fn(k), i.args)
    case _ => i
  }

  function EagerBody(body: seq<Instr>, target: Value): (r: seq<Instr>)
    ensures |r| == |body|
  {
    seq(|body|, j requires 0 <= j < |body| => EagerInstr(body[j], target))
  }

  // ---- running in step ----

  /** A call of the operation `k` that is passed the thunk as argument `x`; `vs` are its other operands, and
      `kept` says that the thunk is known to have kept its value. */
  datatype Passing = Passing(k: nat, x: nat, vs: seq<int>, m: Mem, kept: bool)

  /** A thunk while it is alive: what its value is meant for and is, the memories over which the delegate computes
      it, the calls that may be passed the thunk, and those that make it keep its value.  `kept` says that it is
      known to have done so. */
  datatype Life = Life(target: Value, env: seq<int>, v: int, fit: iset<Mem>, good: iset<Passing>, keeping: iset<Passing>, kept: bool) {
    ghost function Keep(b: bool): (w: Life)
      ensures w == this.(kept := w.kept) && (kept ==> w.kept)
    {
      this.(kept := kept || b)
    }
  }

  ghost predicate SameArgs(target: Value, ea: seq<int>, la: seq<int>) {
    |ea| == |la| && forall i: nat | i < |ea| && target != Arg(i) :: ea[i] == la[i]
  }

  ghost predicate ForcesHold(env: map<Id, int>, v: int) {
    forall id: Id | id.ForceId? && id in env :: env[id] == v
  }

  ghost predicate NoForces(env: map<Id, int>) {
    forall id: Id | id.ForceId? :: id !in env
  }

  ghost predicate SameEnv(e: map<Id, int>, l: map<Id, int>) {
    forall id: Id | !id.ForceId? :: (id in e <==> id in l) && (id in e ==> e[id] == l[id])
  }

  /** If the thunk is known to have kept its value, it has. */
  ghost predicate Marked(ops: Ops, kept: bool, slots: seq<int>) {
    ops.memo && kept ==> Kept(ops, slots)
  }

  /** The eager frame and the lazy one agree; once the thunk is `ready`, it yields the value of the target,
      and so did every call made on it. */
  ghost predicate Lock(ops: Ops, w: Life, ready: bool, ef: Frame, lf: Frame) {
    && SameEnv(ef.env, lf.env) && SameArgs(w.target, ef.args, lf.args) && ef.mem == lf.mem
    && (ready ==> ThunkReady(ops, w.env, w.v, lf.slots) && Marked(ops, w.kept, lf.slots)
                  && Eval(w.target, ef) == w.v && ForcesHold(lf.env, w.v))
    && (!ready ==> NoForces(lf.env))
  }

  /** A clone passed a ready thunk does, at these operands and over this memory, what the callee does with the
      value, and leaves the thunk ready, with its value if it had kept it. */
  ghost predicate CloneAgrees(ops: Ops, w: Life, p: Passing) {
    p.x < |p.vs| && forall slots | ThunkReady(ops, w.env, w.v, slots) && Marked(ops, p.kept, slots) ::
      && ops.lazy(p.k, p.vs, slots, p.m).0 == ops.value(p.k, p.vs[p.x := w.v], p.m)
      && ops.lazy(p.k, p.vs, slots, p.m).1 == ops.effect(p.k, p.vs[p.x := w.v], p.m)
      && ThunkReady(ops, w.env, w.v, ops.lazy(p.k, p.vs, slots, p.m).2)
      && (Kept(ops, slots) || (ops.memo && p in w.keeping) ==> Kept(ops, ops.lazy(p.k, p.vs, slots, p.m).2))
  }

  /** What delegate and clone owe the program that uses the thunk. */
  ghost predicate Promised(ops: Ops, w: Life) {
    && (forall m | m in w.fit :: Yields(ops, w.env, w.v, m))
    && (forall p | p in w.good :: CloneAgrees(ops, w, p))
  }

  /** What an instruction is before it is rewritten. */
  ghost predicate GoodInstr(i: Instr) {
    && !i.id.ForceId? && (forall a | a in i.args :: GoodOperand(a))
    && (i.op.Fn? || (i.op.LazyCall? && i.op.index < |i.args|))
  }

  // ---- what is asked of the eager run ----

  /** A thunk call may stand here: the value has been kept, or the delegate computes it over this memory. */
  ghost predicate Fits(ops: Ops, w: Life, m: Mem) {
    (ops.memo && w.kept) || m in w.fit
  }

  /** The call `i` as it is passed the thunk. */
  ghost function PassingOf(i: Instr, kept: bool, ef: Frame): Passing
    requires i.op.LazyCall?
  {
    Passing(i.op.f, i.op.index, EvalAll(i.args, ef), ef.mem, kept)
  }

  /** Where a thunk call is placed the memory fits; where the thunk is passed on, the clone honours it. */
  ghost predicate UseAgrees(ops: Ops, w: Life, i: Instr, ef: Frame) {
    && (w.target in i.args ==> Fits(ops, w, ef.mem))
    && (i.op.LazyCall? ==> PassingOf(i, w.kept || w.target in i.args, ef) in w.good)
  }

  /** What is known of the thunk behind the instruction. */
  ghost function After(w: Life, i: Instr, ef: Frame): (w': Life)
    ensures w' == w.(kept := w'.kept) && (w.kept ==> w'.kept)
  {
    w.Keep(w.target in i.args || (i.op.LazyCall? && PassingOf(i, w.kept || w.target in i.args, ef) in w.keeping))
  }

  ghost function BodyAfter(ops: Ops, w: Life, body: seq<Instr>, ef: Frame): (w': Life)
    ensures w' == w.(kept := w'.kept) && (w.kept ==> w'.kept)
  {
    if body == [] then w else
      var n := |body| - 1;
      After(BodyAfter(ops, w, body[..n], ef), body[n], ExecBody(ops, EagerBody(body[..n], w.target), ef))
  }

  ghost predicate BodyUses(ops: Ops, w: Life, body: seq<Instr>, ef: Frame) {
    forall n | 0 <= n < |body| ::
      UseAgrees(ops, BodyAfter(ops, w, body[..n], ef), body[n], ExecBody(ops, EagerBody(body[..n], w.target), ef))
  }

  /** The same for a whole block; `tailed` says that calls are placed at its end. */
  ghost predicate BlockUses(ops: Ops, w: Life, blk: Block, tailed: bool, prev: Option<BlockRef>, ef: Frame) {
    var e1 := ef.(env := ExecPhis(blk.phis, prev, ef));
    && BodyUses(ops, w, blk.body, e1)
    && (tailed ==> Fits(ops, BodyAfter(ops, w, blk.body, e1), ExecBody(ops, EagerBody(blk.body, w.target), e1).mem))
  }

  ghost function BlockAfter(ops: Ops, w: Life, blk: Block, tailed: bool, prev: Option<BlockRef>, ef: Frame): (w': Life)
    ensures w' == w.(kept := w'.kept) && (w.kept ==> w'.kept)
  {
    BodyAfter(ops, w, blk.body, ef.(env := ExecPhis(blk.phis, prev, ef))).Keep(tailed)
  }

  lemma {:induction false} UsesOfPrefix(ops: Ops, w: Life, body: seq<Instr>, ef: Frame, n: nat)
    requires BodyUses(ops, w, body, ef) && n <= |body|
    ensures BodyUses(ops, w, body[..n], ef)
  {
    hide UseAgrees, EagerBody, BodyAfter;
    forall k | 0 <= k < n
      ensures UseAgrees(ops, BodyAfter(ops, w, body[..n][..k], ef), body[..n][k], ExecBody(ops, EagerBody(body[..n][..k], w.target), ef))
    {
      assert body[..n][..k] == body[..k];
    }
  }

  lemma {:induction false} EagerConcat(a: seq<Instr>, b: seq<Instr>, target: Value)
    ensures EagerBody(a + b, target) == EagerBody(a, target) + EagerBody(b, target)
  {
    hide EagerInstr;
  }

  lemma {:induction false} AfterConcat(ops: Ops, w: Life, a: seq<Instr>, b: seq<Instr>, ef: Frame)
    ensures BodyAfter(ops, w, a + b, ef) == BodyAfter(ops, BodyAfter(ops, w, a, ef), b, ExecBody(ops, EagerBody(a, w.target), ef))
    decreases |b|
  {
    if b == [] {
      assert a + b == a;
    } else {
      var n := |b| - 1;
      assert (a + b)[..|a + b| - 1] == a + b[..n] && (a + b)[|a + b| - 1] == b[n];
      AfterConcat(ops, w, a, b[..n], ef);
      EagerConcat(a, b[..n], w.target);
      ExecBodyConcat(ops, EagerBody(a, w.target), EagerBody(b[..n], w.target), ef);
      hide EagerBody, ExecBody, After;
    }
  }

  lemma {:induction false} UsesOfSuffix(ops: Ops, w: Life, a: seq<Instr>, b: seq<Instr>, ef: Frame)
    requires BodyUses(ops, w, a + b, ef)
    ensures BodyUses(ops, BodyAfter(ops, w, a, ef), b, ExecBody(ops, EagerBody(a, w.target), ef))
  {
    hide UseAgrees, EagerBody, ExecBody, BodyAfter;
    var w1, e1 := BodyAfter(ops, w, a, ef), ExecBody(ops, EagerBody(a, w.target), ef);
    forall k | 0 <= k < |b|
      ensures UseAgrees(ops, BodyAfter(ops, w1, b[..k], e1), b[k], ExecBody(ops, EagerBody(b[..k], w1.target), e1))
    {
      assert (a + b)[|a| + k] == b[k] && (a + b)[..|a| + k] == a + b[..k];
      EagerConcat(a, b[..k], w.target);
      AfterConcat(ops, w, a, b[..k], ef);
      ExecBodyConcat(ops, EagerBody(a, w.target), EagerBody(b[..k], w.target), ef);
    }
  }

  predicate GoodOperand(v: Value) {
    match v
    case Res(id) => !id.ForceId?
    case Field(_) => false
    case _ => true
  }

  /** A group of thunk calls leaves the frames in step, the results in the environment, and the value kept. */
  lemma {:induction false} ForcesRun(ops: Ops, w: Life, ef: Frame, lf: Frame, fs: seq<Instr>)
    requires Promised(ops, w) && Lock(ops, w, true, ef, lf)
    requires forall i | i in fs :: i.op.Force? && i.id.ForceId?
    requires fs != [] ==> Fits(ops, w, ef.mem)
    ensures var lf' := ExecBody(ops, fs, lf);
      && Lock(ops, w.Keep(fs != []), true, ef, lf') && (forall i | i in fs :: i.id in lf'.env) && (forall id | id in lf.env :: id in lf'.env)
  {
    if fs != [] {
      var n := |fs| - 1;
      assert forall i | i in fs[..n] :: i in fs;
      ForcesRun(ops, w, ef, lf, fs[..n]);
      var l1 := ExecBody(ops, fs[..n], lf);
      assert fs[n] in fs;
      OneForce(ops, w, ef, l1, fs[n].id);
      assert forall i | i in fs :: i in fs[..n] || i == fs[n];
      hide Lock, Promised, Fits, ForceSlots;
    }
  }

  lemma OneForce(ops: Ops, w: Life, ef: Frame, lf: Frame, id: Id)
    requires Promised(ops, w) && Lock(ops, w, true, ef, lf) && id.ForceId? && Fits(ops, w, ef.mem)
    ensures var (v, slots) := ForceSlots(ops, lf.slots, lf.mem);
      Lock(ops, w.Keep(true), true, ef, lf.(env := lf.env[id := v], slots := slots))
  {
    hide CloneAgrees;
    ForceIsReady(ops, w.env, w.v, lf.slots, lf.mem);
    hide ThunkReady, Yields, ForceSlots, Kept;
  }

  lemma ValueLocks(ops: Ops, w: Life, ready: bool, ef: Frame, lf: Frame, v: Value)
    requires Lock(ops, w, ready, ef, lf) && GoodOperand(v) && v != w.target
    ensures Eval(v, lf) == Eval(v, ef)
  {
  }

  lemma ForcedValueLocks(ops: Ops, w: Life, ef: Frame, lf: Frame, id: Id)
    requires Lock(ops, w, true, ef, lf) && id.ForceId? && id in lf.env
    ensures Eval(Res(id), lf) == Eval(w.target, ef)
  {
  }

  lemma ArgsLock(ops: Ops, w: Life, ready: bool, ef: Frame, lf: Frame, i: Instr)
    requires Lock(ops, w, ready, ef, lf) && (forall a | a in i.args :: GoodOperand(a))
    requires w.target in i.args ==> ready
    requires forall k: nat | k < |i.args| && i.args[k] == w.target :: ForceId(i.id, k) in lf.env
    ensures EvalAll(ForcedArgs(i.id, i.args, w.target), lf) == EvalAll(i.args, ef)
  {
    hide Lock;
    var e, l := EvalAll(i.args, ef), EvalAll(ForcedArgs(i.id, i.args, w.target), lf);
    forall k | 0 <= k < |i.args|
      ensures l[k] == e[k]
    {
      if i.args[k] == w.target {
        ForcedValueLocks(ops, w, ef, lf, ForceId(i.id, k));
      } else {
        ValueLocks(ops, w, ready, ef, lf, i.args[k]);
      }
    }
  }

  /** An instruction behind its thunk calls. */
  lemma InstrLocks(ops: Ops, w: Life, ready: bool, ef: Frame, lf: Frame, i: Instr)
    requires Lock(ops, w, ready, ef, lf) && GoodInstr(i) && (!ready ==> NoUse(i, w.target))
    requires ready ==> w.target != Res(i.id) && Promised(ops, w)
    requires ready && w.target in i.args ==> w.kept
    requires ready && i.op.LazyCall? ==> PassingOf(i, w.kept, ef) in w.good
    requires forall k: nat | k < |i.args| && i.args[k] == w.target :: ForceId(i.id, k) in lf.env
    ensures var lf' := ExecInstr(ops, ForcedInstr(i, w.target), lf);
      && Lock(ops, After(w, i, ef), ready, ExecInstr(ops, EagerInstr(i, w.target), ef), lf') && forall id | id in lf.env :: id in lf'.env
  {
    hide *;
    InstrParts(i, w.target);
    ArgsLock(ops, w, ready, ef, lf, i);
    if i.op.LazyCall? {
      PassedLocks(ops, w, ef, lf, i);
    } else {
      LockedThunk(ops, w, ready, ef, lf);
      FnRuns(ops, i, w, ef, lf);
      AfterFn(w, i, ef);
      var v, m := ops.value(i.op.f, EvalAll(i.args, ef), ef.mem), ops.effect(i.op.f, EvalAll(i.args, ef), ef.mem);
      BothAssigned(ops, w, After(w, i, ef), ready, ef, lf, i.id, v, m, lf.slots);
    }
  }

  lemma InstrParts(i: Instr, target: Value)
    ensures GoodInstr(i) ==> !i.id.ForceId? && (forall a | a in i.args :: GoodOperand(a))
                             && (i.op.Fn? || (i.op.LazyCall? && i.op.index < |i.args|))
    ensures NoUse(i, target) <==> target !in i.args && !i.op.LazyCall?
  {
    hide GoodOperand;
  }

  lemma LockedThunk(ops: Ops, w: Life, ready: bool, ef: Frame, lf: Frame)
    requires Lock(ops, w, ready, ef, lf)
    ensures ef.mem == lf.mem
    ensures ready ==> ThunkReady(ops, w.env, w.v, lf.slots) && Marked(ops, w.kept, lf.slots) && Eval(w.target, ef) == w.v
  {
    hide ThunkReady, Marked, Eval;
  }

  lemma FnRuns(ops: Ops, i: Instr, w: Life, ef: Frame, lf: Frame)
    requires i.op.Fn? && ef.mem == lf.mem && EvalAll(ForcedArgs(i.id, i.args, w.target), lf) == EvalAll(i.args, ef)
    ensures var v, m := ops.value(i.op.f, EvalAll(i.args, ef), ef.mem), ops.effect(i.op.f, EvalAll(i.args, ef), ef.mem);
      && ExecInstr(ops, EagerInstr(i, w.target), ef) == ef.(env := ef.env[i.id := v], mem := m)
      && ExecInstr(ops, ForcedInstr(i, w.target), lf) == lf.(env := lf.env[i.id := v], mem := m, slots := lf.slots)
  {
    hide EvalAll, ForcedArgs;
  }

  lemma AfterFn(w: Life, i: Instr, ef: Frame)
    requires i.op.Fn?
    ensures After(w, i, ef).kept == (w.kept || w.target in i.args)
  {
  }

  /** Both frames are assigned the same value and the same memory. */
  lemma BothAssigned(ops: Ops, w: Life, w': Life, ready: bool, ef: Frame, lf: Frame, id: Id, v: int, m: Mem, slots: seq<int>)
    requires Lock(ops, w, ready, ef, lf) && !id.ForceId? && (ready ==> w.target != Res(id)) && w' == w.(kept := w'.kept)
    requires ready ==> ThunkReady(ops, w.env, w.v, slots) && Marked(ops, w'.kept, slots)
    ensures Lock(ops, w', ready, ef.(env := ef.env[id := v], mem := m), lf.(env := lf.env[id := v], mem := m, slots := slots))
  {
    hide ThunkReady, Marked;
  }

  /** A call that is passed the thunk. */
  lemma PassedLocks(ops: Ops, w: Life, ef: Frame, lf: Frame, i: Instr)
    requires Lock(ops, w, true, ef, lf) && i.op.LazyCall? && i.op.index < |i.args| && !i.id.ForceId?
    requires Promised(ops, w) && PassingOf(i, w.kept, ef) in w.good && (w.target in i.args ==> w.kept) && w.target != Res(i.id)
    requires EvalAll(ForcedArgs(i.id, i.args, w.target), lf) == EvalAll(i.args, ef)
    ensures var lf' := ExecInstr(ops, ForcedInstr(i, w.target), lf);
      && Lock(ops, After(w, i, ef), true, ExecInstr(ops, EagerInstr(i, w.target), ef), lf') && forall id | id in lf.env :: id in lf'.env
  {
    hide *;
    var p := PassingOf(i, w.kept, ef);
    LockedThunk(ops, w, true, ef, lf);
    PassedIs(i, w, ef);
    PassedKeeps(ops, w, p, lf.slots);
    var r := ops.lazy(p.k, p.vs, lf.slots, p.m);
    PassedRuns(ops, i, w, ef, lf, r);
    BothAssigned(ops, w, After(w, i, ef), true, ef, lf, i.id, r.0, r.1, r.2);
  }

  lemma PassedIs(i: Instr, w: Life, ef: Frame)
    requires i.op.LazyCall? && (w.target in i.args ==> w.kept)
    ensures PassingOf(i, w.kept, ef) == Passing(i.op.f, i.op.index, EvalAll(i.args, ef), ef.mem, w.kept)
    ensures After(w, i, ef).kept == (w.kept || PassingOf(i, w.kept, ef) in w.keeping)
  {
  }

  lemma PassedRuns(ops: Ops, i: Instr, w: Life, ef: Frame, lf: Frame, r: (int, Mem, seq<int>))
    requires i.op.LazyCall? && i.op.index < |i.args| && ef.mem == lf.mem && Eval(w.target, ef) == w.v
    requires EvalAll(ForcedArgs(i.id, i.args, w.target), lf) == EvalAll(i.args, ef)
    requires var vs := EvalAll(i.args, ef);
      && r == ops.lazy(i.op.f, vs, lf.slots, ef.mem)
      && r.0 == ops.value(i.op.f, vs[i.op.index := w.v], ef.mem) && r.1 == ops.effect(i.op.f, vs[i.op.index := w.v], ef.mem)
    ensures ExecInstr(ops, EagerInstr(i, w.target), ef) == ef.(env := ef.env[i.id := r.0], mem := r.1)
    ensures ExecInstr(ops, ForcedInstr(i, w.target), lf) == lf.(env := lf.env[i.id := r.0], mem := r.1, slots := r.2)
  {
    EagerOperands(i, w, ef);
    hide EvalAll, ForcedArgs, Eval;
  }

  lemma EagerOperands(i: Instr, w: Life, ef: Frame)
    requires i.op.LazyCall? && i.op.index < |i.args| && Eval(w.target, ef) == w.v
    ensures EvalAll(i.args[i.op.index := w.target], ef) == EvalAll(i.args, ef)[i.op.index := w.v]
    ensures EagerInstr(i, w.target) == Instr(i.id, Fn(i.op.f), i.args[i.op.index := w.target])
  {
    hide Eval;
  }

  lemma PassedKeeps(ops: Ops, w: Life, p: Passing, slots: seq<int>)
    requires Promised(ops, w) && p in w.good && ThunkReady(ops, w.env, w.v, slots) && Marked(ops, p.kept, slots) && p.kept == w.kept
    ensures var r := ops.lazy(p.k, p.vs, slots, p.m);
      && p.x < |p.vs| && r.0 == ops.value(p.k, p.vs[p.x := w.v], p.m) && r.1 == ops.effect(p.k, p.vs[p.x := w.v], p.m)
      && ThunkReady(ops, w.env, w.v, r.2) && Marked(ops, w.kept || p in w.keeping, r.2)
  {
    assert CloneAgrees(ops, w, p);
    hide Promised, ThunkReady;
  }

  lemma {:induction false} ExecBodyConcat(ops: Ops, a: seq<Instr>, b: seq<Instr>, fr: Frame)
    ensures ExecBody(ops, a + b, fr) == ExecBody(ops, b, ExecBody(ops, a, fr))
  {
    if b == [] {
      assert a + b == a;
    } else {
      var n := |b| - 1;
      assert (a + b)[..|a + b| - 1] == a + b[..n];
      ExecBodyConcat(ops, a, b[..n], fr);
    }
  }

  ghost predicate GoodBody(w: Life, ready: bool, body: seq<Instr>, calls: map<Id, seq<nat>>) {
    forall i | i in body :: GoodInstr(i) && CoversInstr(i, calls, w.target)
                            && (CallsOf(calls, i.id) != [] ==> w.target in i.args)
                            && (if ready then w.target != Res(i.id) else NoUse(i, w.target) && CallsOf(calls, i.id) == [])
  }

  lemma {:induction false} WeaveLocks(ops: Ops, w: Life, ready: bool, ef: Frame, lf: Frame, body: seq<Instr>,
                                      calls: map<Id, seq<nat>>)
    requires Lock(ops, w, ready, ef, lf) && GoodBody(w, ready, body, calls)
    requires ready ==> Promised(ops, w) && BodyUses(ops, w, body, ef)
    ensures var lf' := ExecBody(ops, Weave(body, calls, w.target), lf);
      && Lock(ops, BodyAfter(ops, w, body, ef), ready, ExecBody(ops, EagerBody(body, w.target), ef), lf')
      && forall id | id in lf.env :: id in lf'.env
  {
    if body != [] {
      var n := |body| - 1;
      var i, init := body[n], body[..n];
      RunWoven(ops, body, calls, w.target, lf);
      RunEager(ops, body, w.target, ef);
      assert i in body && forall x | x in init :: x in body;
      if ready {
        UsesOfPrefix(ops, w, body, ef, n);
        assert UseAgrees(ops, BodyAfter(ops, w, init, ef), i, ExecBody(ops, EagerBody(init, w.target), ef));
      }
      var w1 := BodyAfter(ops, w, init, ef);
      assert BodyAfter(ops, w, body, ef) == After(w1, i, ExecBody(ops, EagerBody(init, w.target), ef));
      if ready {
        StillPromised(ops, w, w1);
      }
      hide Lock, GoodInstr, CoversInstr, NoUse, Promised, ForcesFor, ExecInstr, ExecBody, Weave, EagerBody,
           UseAgrees, BodyUses, BodyAfter, After;
      WeaveLocks(ops, w, ready, ef, lf, init, calls);
      var e1, l1 := ExecBody(ops, EagerBody(init, w.target), ef), ExecBody(ops, Weave(init, calls, w.target), lf);
      LastInstrLocks(ops, w1, ready, e1, l1, i, calls);
    } else {
      assert Weave(body, calls, w.target) == [] && EagerBody(body, w.target) == [];
    }
  }

  lemma StillPromised(ops: Ops, w: Life, w': Life)
    requires Promised(ops, w) && w' == w.(kept := w'.kept)
    ensures Promised(ops, w')
  {
    hide Yields;
    forall p | p in w'.good
      ensures CloneAgrees(ops, w', p)
    {
      assert CloneAgrees(ops, w, p);
    }
  }

  lemma RunWoven(ops: Ops, body: seq<Instr>, calls: map<Id, seq<nat>>, target: Value, fr: Frame)
    requires body != []
    ensures var n := |body| - 1;
      ExecBody(ops, Weave(body, calls, target), fr) ==
      ExecInstr(ops, ForcedInstr(body[n], target),
                ExecBody(ops, ForcesFor(body[n].id, CallsOf(calls, body[n].id)), ExecBody(ops, Weave(body[..n], calls, target), fr)))
  {
    var n := |body| - 1;
    var a, fs, x := Weave(body[..n], calls, target), ForcesFor(body[n].id, CallsOf(calls, body[n].id)), ForcedInstr(body[n], target);
    assert Weave(body, calls, target) == a + fs + [x];
    hide Weave, ForcesFor, ForcedInstr, CallsOf, ExecInstr;
    ExecBodyConcat(ops, a, fs, fr);
    assert (a + fs + [x])[..|a + fs + [x]| - 1] == a + fs;
  }

  lemma {:induction false} RunEager(ops: Ops, body: seq<Instr>, target: Value, fr: Frame)
    requires body != []
    ensures var n := |body| - 1;
      ExecBody(ops, EagerBody(body, target), fr) == ExecInstr(ops, EagerInstr(body[n], target), ExecBody(ops, EagerBody(body[..n], target), fr))
  {
    hide ExecInstr, EagerInstr;
    var n := |body| - 1;
    assert EagerBody(body, target)[..n] == EagerBody(body[..n], target);
  }

  /** One instruction and its thunk calls. */
  lemma {:induction false} LastInstrLocks(ops: Ops, w: Life, ready: bool, ef: Frame, lf: Frame, i: Instr,
                                          calls: map<Id, seq<nat>>)
    requires Lock(ops, w, ready, ef, lf) && GoodInstr(i) && CoversInstr(i, calls, w.target)
    requires if ready then w.target != Res(i.id) else NoUse(i, w.target) && CallsOf(calls, i.id) == []
    requires CallsOf(calls, i.id) != [] ==> w.target in i.args
    requires ready ==> Promised(ops, w) && UseAgrees(ops, w, i, ef)
    ensures var fs := ForcesFor(i.id, CallsOf(calls, i.id));
      var lf' := ExecInstr(ops, ForcedInstr(i, w.target), ExecBody(ops, fs, lf));
      && Lock(ops, After(w, i, ef), ready, ExecInstr(ops, EagerInstr(i, w.target), ef), lf') && forall id | id in lf.env :: id in lf'.env
  {
    var ks := CallsOf(calls, i.id);
    var fs := ForcesFor(i.id, ks);
    assert w.target in i.args <==> fs != [] by { UsedMeansCalled(i, calls, w.target); }
    assert ready && fs != [] ==> Fits(ops, w, ef.mem);
    assert ready && i.op.LazyCall? ==> PassingOf(i, w.kept || w.target in i.args, ef) in w.good;
    var w1 := w.Keep(fs != []);
    assert After(w, i, ef) == After(w1, i, ef);
    hide Lock, GoodInstr, Promised, UseAgrees, Fits, After, PassingOf;
    if ready {
      ForcesRun(ops, w, ef, lf, fs);
      StillPromised(ops, w, w1);
    } else {
      assert ExecBody(ops, fs, lf) == lf;
    }
    var l1 := ExecBody(ops, fs, lf);
    forall k: nat | k < |i.args| && i.args[k] == w.target
      ensures ForceId(i.id, k) in l1.env
    {
      var j :| 0 <= j < |ks| && ks[j] == k;
      assert fs[j] in fs;
    }
    InstrLocks(ops, w1, ready, ef, l1, i);
  }

  lemma UsedMeansCalled(i: Instr, calls: map<Id, seq<nat>>, target: Value)
    requires CoversInstr(i, calls, target) && (CallsOf(calls, i.id) != [] ==> target in i.args)
    ensures target in i.args <==> CallsOf(calls, i.id) != []
  {
    hide CallsOf;
    if target in i.args {
      var k :| 0 <= k < |i.args| && i.args[k] == target;
      assert k in CallsOf(calls, i.id);
    }
  }

  // ---- phis ----

  lemma {:induction false} FirstIncoming(inc: seq<(BlockRef, Value)>, b: BlockRef, j: nat)
    requires j < |inc| && inc[j].0 == b && forall i | 0 <= i < j :: inc[i].0 != b
    ensures Incoming(inc, b) == Some(inc[j].1)
  {
    if j > 0 {
      FirstIncoming(inc[1..], b, j - 1);
    }
  }

  lemma {:induction false} NoIncoming(inc: seq<(BlockRef, Value)>, b: BlockRef)
    requires forall i | 0 <= i < |inc| :: inc[i].0 != b
    ensures Incoming(inc, b) == None
  {
    if inc != [] {
      NoIncoming(inc[1..], b);
    }
  }

  /** The thunk calls for the phis `phis` on the edge from `b` have been made. */
  ghost predicate EdgeForced(phis: seq<Phi>, target: Value, b: BlockRef, env: map<Id, int>) {
    forall i, j: nat | 0 <= i < |phis| && j < |phis[i].incoming| && phis[i].incoming[j] == (b, target) ::
      ForceId(phis[i].id, j) in env
  }

  ghost predicate EdgeUses(phis: seq<Phi>, target: Value, b: BlockRef) {
    exists i, j: nat :: 0 <= i < |phis| && j < |phis[i].incoming| && phis[i].incoming[j] == (b, target)
  }

  ghost predicate GoodPhis(w: Life, ready: bool, phis: seq<Phi>) {
    forall i | 0 <= i < |phis| ::
      && !phis[i].id.ForceId? && (ready ==> w.target != Res(phis[i].id))
      && forall j | 0 <= j < |phis[i].incoming| :: GoodOperand(phis[i].incoming[j].1)
  }

  lemma PhiLocks(ops: Ops, w: Life, ready: bool, ef: Frame, lf: Frame, phis: seq<Phi>, i: nat, prev: Option<BlockRef>)
    requires Lock(ops, w, ready, ef, lf) && GoodPhis(w, ready, phis) && i < |phis|
    requires prev.Some? ==> EdgeForced(phis, w.target, prev.value, lf.env)
    requires prev.Some? && !ready ==> !EdgeUses(phis, w.target, prev.value)
    ensures PhiValue(ForcedPhis(phis, w.target)[i], prev, lf) == PhiValue(phis[i], prev, ef)
  {
    var inc := phis[i].incoming;
    var finc := ForcedIncoming(phis[i].id, inc, w.target);
    if prev.Some? {
      if exists j :: 0 <= j < |inc| && inc[j].0 == prev.value {
        var j := LeastMatch(inc, prev.value);
        FirstIncoming(inc, prev.value, j);
        FirstIncoming(finc, prev.value, j);
        hide Lock, Incoming;
        if inc[j].1 == w.target {
          assert inc[j] == (prev.value, w.target);
          ForcedValueLocks(ops, w, ef, lf, ForceId(phis[i].id, j));
        } else {
          ValueLocks(ops, w, ready, ef, lf, inc[j].1);
        }
      } else {
        NoIncoming(inc, prev.value);
        NoIncoming(finc, prev.value);
      }
    }
  }

  lemma LeastMatch(inc: seq<(BlockRef, Value)>, b: BlockRef) returns (j: nat)
    requires exists j :: 0 <= j < |inc| && inc[j].0 == b
    ensures j < |inc| && inc[j].0 == b && forall h | 0 <= h < j :: inc[h].0 != b
  {
    j := 0;
    while inc[j].0 != b
      invariant j < |inc| && forall h | 0 <= h < j :: inc[h].0 != b
      decreases |inc| - j
    {
      j := j + 1;
    }
  }

  lemma {:induction false} PhisLock(ops: Ops, w: Life, ready: bool, ef: Frame, lf: Frame, phis: seq<Phi>,
                                    n: nat, prev: Option<BlockRef>)
    requires Lock(ops, w, ready, ef, lf) && GoodPhis(w, ready, phis) && n <= |phis|
    requires prev.Some? ==> EdgeForced(phis, w.target, prev.value, lf.env)
    requires prev.Some? && !ready ==> !EdgeUses(phis, w.target, prev.value)
    ensures var e, l := ExecPhis(phis[..n], prev, ef), ExecPhis(ForcedPhis(phis, w.target)[..n], prev, lf);
      && Lock(ops, w, ready, ef.(env := e), lf.(env := l)) && forall id | id in lf.env :: id in l
  {
    hide Lock, GoodPhis, EdgeForced, EdgeUses, PhiValue, ExecPhis, ForcedPhis;
    if n == 0 {
      NoPhis(phis, prev, ef);
      NoPhis(ForcedPhis(phis, w.target), prev, lf);
    } else {
      PhisLock(ops, w, ready, ef, lf, phis, n - 1, prev);
      PhiLocks(ops, w, ready, ef, lf, phis, n - 1, prev);
      OnePhi(phis, n, prev, ef);
      OnePhi(ForcedPhis(phis, w.target), n, prev, lf);
      PhiIds(phis, w.target, n - 1);
      PhiIsGood(w, ready, phis, n - 1);
      var e, l := ExecPhis(phis[..n - 1], prev, ef), ExecPhis(ForcedPhis(phis, w.target)[..n - 1], prev, lf);
      SameAssigned(ops, w, ready, ef.(env := e), lf.(env := l), phis[n - 1].id, PhiValue(phis[n - 1], prev, ef));
    }
  }

  lemma {:induction false} NoPhis(phis: seq<Phi>, prev: Option<BlockRef>, fr: Frame)
    ensures ExecPhis(phis[..0], prev, fr) == fr.env && fr.(env := fr.env) == fr
  {
  }

  lemma {:induction false} OnePhi(phis: seq<Phi>, n: nat, prev: Option<BlockRef>, fr: Frame)
    requires 0 < n <= |phis|
    ensures ExecPhis(phis[..n], prev, fr) == ExecPhis(phis[..n - 1], prev, fr)[phis[n - 1].id := PhiValue(phis[n - 1], prev, fr)]
  {
    hide PhiValue;
    assert phis[..n][..n - 1] == phis[..n - 1];
  }

  lemma PhiIds(phis: seq<Phi>, target: Value, i: nat)
    requires i < |phis|
    ensures ForcedPhis(phis, target)[i].id == phis[i].id
  {
  }

  lemma PhiIsGood(w: Life, ready: bool, phis: seq<Phi>, i: nat)
    requires GoodPhis(w, ready, phis) && i < |phis|
    ensures !phis[i].id.ForceId? && (ready ==> w.target != Res(phis[i].id))
  {
  }

  /** Both frames are assigned the same value. */
  lemma SameAssigned(ops: Ops, w: Life, ready: bool, ef: Frame, lf: Frame, id: Id, v: int)
    requires Lock(ops, w, ready, ef, lf) && !id.ForceId? && (ready ==> w.target != Res(id))
    ensures Lock(ops, w, ready, ef.(env := ef.env[id := v]), lf.(env := lf.env[id := v]))
  {
    hide ThunkReady, AgreeOn;
  }

  // ---- a whole block ----

  ghost predicate TailReady(b: nat, t: Term, tail: seq<Use>, target: Value) {
    target in t.Values() ==> (TermId(b), 0) in tail
  }

  lemma ChoiceLocks(ops: Ops, w: Life, ready: bool, ef: Frame, lf: Frame, b: nat, t: Term)
    requires Lock(ops, w, ready, ef, lf) && (forall v | v in t.Values() :: GoodOperand(v))
    requires w.target in t.Values() ==> ready && ForceId(TermId(b), 0) in lf.env
    ensures Choose(Some(ForcedTerm(TermId(b), t, w.target)), lf) == Choose(Some(t), ef)
  {
    if t.Values() != [] {
      var v := t.Values()[0];
      assert v in t.Values();
      if v == w.target {
        ForcedValueLocks(ops, w, ef, lf, ForceId(TermId(b), 0));
      } else {
        ValueLocks(ops, w, ready, ef, lf, v);
      }
    }
  }

  /** The thunk calls at the end of a block. */
  lemma {:induction false} TailLocks(ops: Ops, w: Life, ready: bool, ef: Frame, lf: Frame, tail: seq<Use>)
    requires Lock(ops, w, ready, ef, lf) && (ready ==> Promised(ops, w)) && (!ready ==> tail == [])
    requires tail != [] ==> Fits(ops, w, ef.mem)
    ensures var lf' := ExecBody(ops, TailForces(tail), lf);
      && Lock(ops, w.Keep(tail != []), ready, ef, lf') && (forall u | u in tail :: ForceId(u.0, u.1) in lf'.env)
      && forall id | id in lf.env :: id in lf'.env
  {
    var fs := TailForces(tail);
    hide Lock, Promised, Fits;
    if ready {
      ForcesRun(ops, w, ef, lf, fs);
    } else {
      assert w.Keep(false) == w;
    }
    forall u | u in tail
      ensures ForceId(u.0, u.1) in ExecBody(ops, fs, lf).env
    {
      var j :| 0 <= j < |tail| && tail[j] == u;
      assert fs[j] in fs;
    }
  }

  /** What a block must be for its rewritten form to run in step. */
  ghost predicate GoodForced(w: Life, ready: bool, b: nat, blk: Block, calls: map<Id, seq<nat>>, tail: seq<Use>) {
    && GoodPhis(w, ready, blk.phis) && GoodBody(w, ready, blk.body, calls)
    && blk.term.Some? && (forall v | v in blk.term.value.Values() :: GoodOperand(v))
    && TailReady(b, blk.term.value, tail, w.target)
    && (!ready ==> tail == [])
  }

  /** One block, eagerly and rewritten, started in step, ends in step and leaves by the same edge; the thunk
      calls placed for the phis ahead have then been made. */
  lemma BlockLocks(ops: Ops, w: Life, ready: bool, ef: Frame, lf: Frame, b: nat, blk: Block,
                   calls: map<Id, seq<nat>>, tail: seq<Use>, prev: Option<BlockRef>)
    requires Lock(ops, w, ready, ef, lf) && GoodForced(w, ready, b, blk, calls, tail)
    requires ready ==> Promised(ops, w) && BlockUses(ops, w, blk, tail != [], prev, ef)
    requires prev.Some? ==> EdgeForced(blk.phis, w.target, prev.value, lf.env)
    requires prev.Some? && !ready ==> !EdgeUses(blk.phis, w.target, prev.value)
    ensures var eb, lb := blk.(body := EagerBody(blk.body, w.target)), ForcedBlock(b, blk, calls, tail, w.target);
      var ef', lf' := ExecBlock(ops, eb, prev, ef), ExecBlock(ops, lb, prev, lf);
      && Lock(ops, BlockAfter(ops, w, blk, tail != [], prev, ef), ready, ef', lf') && Choose(lb.term, lf') == Choose(eb.term, ef')
      && (forall u | u in tail :: ForceId(u.0, u.1) in lf'.env) && (forall id | id in lf.env :: id in lf'.env)
  {
    PhisLock(ops, w, ready, ef, lf, blk.phis, |blk.phis|, prev);
    assert blk.phis[..|blk.phis|] == blk.phis;
    assert ForcedPhis(blk.phis, w.target)[..|blk.phis|] == ForcedPhis(blk.phis, w.target);
    var e1 := ef.(env := ExecPhis(blk.phis, prev, ef));
    var l1 := lf.(env := ExecPhis(ForcedPhis(blk.phis, w.target), prev, lf));
    var w1 := BodyAfter(ops, w, blk.body, e1);
    hide Lock, GoodInstr, Promised, EdgeForced, EdgeUses, GoodPhis, GoodBody, BodyUses, Fits, BodyAfter;
    WeaveLocks(ops, w, ready, e1, l1, blk.body, calls);
    var e2 := ExecBody(ops, EagerBody(blk.body, w.target), e1);
    var l2 := ExecBody(ops, Weave(blk.body, calls, w.target), l1);
    ExecBodyConcat(ops, Weave(blk.body, calls, w.target), TailForces(tail), l1);
    if ready {
      StillPromised(ops, w, w1);
    }
    hide TailForces, ForcedPhis, Weave, EagerBody, ExecBody, ExecPhis;
    TailLocks(ops, w1, ready, e2, l2, tail);
    ChoiceLocks(ops, w1.Keep(tail != []), ready, e2, ExecBody(ops, TailForces(tail), l2), b, blk.term.value);
  }
}
