/** A small-step meaning for the fragment: one step runs one basic block. */
module Machine {
  import opened Graphs
  import opened Ir

  type Mem = map<nat, int>

  /** The meaning of the operations, left open.  `delegate` is what the function behind a thunk
      computes from the slots of the thunk and the memory, `memo` whether thunks keep its value, and
      `fptr` its address.  `lazy` is a call to a clone that is passed a thunk: its value, and the
      memory and slots it leaves. */
  datatype Ops = Ops(
    memo: bool,
    value: (nat, seq<int>, Mem) -> int,
    effect: (nat, seq<int>, Mem) -> Mem,
    delegate: (seq<int>, Mem) -> int,
    fptr: int,
    lazy: (nat, seq<int>, seq<int>, Mem) -> (int, Mem, seq<int>))

  /** `slots` is the thunk in reach of the function: its own, or the one it was passed. */
  datatype Frame = Frame(args: seq<int>, env: map<Id, int>, mem: Mem, slots: seq<int>)

  datatype State = State(block: BlockRef, prev: Option<BlockRef>, frame: Frame)

  datatype Outcome = Running(st: State) | Finished(value: int, frame: Frame) | Wrong

  /** Where a terminator leads. */
  datatype Next = Goto(b: BlockRef) | Return(value: int) | Nowhere

  // ---- thunks ----

  /** Slot 0 is the function pointer; a memoised thunk keeps its value in slot 1 and the flag in slot
      2; the captured environment follows. */
  function EnvBase(memo: bool): nat {
    if memo then 3 else 1
  }

  /** What a thunk call does.  With memoisation a set flag returns the stored value; otherwise the
      delegate runs, then flag and value are stored. */
  function ForceSlots(ops: Ops, slots: seq<int>, mem: Mem): (int, seq<int>) {
    if !ops.memo then (ops.delegate(slots, mem), slots)
    else if |slots| < 3 then (0, slots)
    else if slots[2] != 0 then (slots[1], slots)
    else var v := ops.delegate(slots, mem); (v, slots[2 := 1][1 := v])
  }

  /** A thunk as initialised: the memoised value is whatever the memory held. */
  function InitSlots(memo: bool, fptr: int, junk: int, env: seq<int>): seq<int> {
    if memo then [fptr, junk, 0] + env else [fptr] + env
  }

  // ---- values ----

  /** A value that is not there reads as 0; definitions dominating uses, none is missing. */
  function Eval(v: Value, fr: Frame): int {
    match v
    case Const(c) => c
    case Arg(a) => if a < |fr.args| then fr.args[a] else 0
    case Res(id) => if id in fr.env then fr.env[id] else 0
    case Field(k) => if k < |fr.slots| then fr.slots[k] else 0
  }

  function EvalAll(vs: seq<Value>, fr: Frame): (r: seq<int>)
    ensures |r| == |vs|
  {
    seq(|vs|, i requires 0 <= i < |vs| => Eval(vs[i], fr))
  }

  // ---- blocks ----

  /** The value a phi names for the edge from `b`. */
  function Incoming(inc: seq<(BlockRef, Value)>, b: BlockRef): Option<Value> {
    if inc == [] then None
    else if inc[0].0 == b then Some(inc[0].1)
    else Incoming(inc[1..], b)
  }

  function PhiValue(p: Phi, prev: Option<BlockRef>, fr: Frame): int {
    if prev.None? then 0 else
      match Incoming(p.incoming, prev.value)
      case Some(v) => Eval(v, fr)
      case None => 0
  }

  /** All phis of a block read the values of the edge before any is assigned. */
  function ExecPhis(phis: seq<Phi>, prev: Option<BlockRef>, fr: Frame): map<Id, int> {
    if phis == [] then fr.env else
      var n := |phis| - 1;
      ExecPhis(phis[..n], prev, fr)[phis[n].id := PhiValue(phis[n], prev, fr)]
  }

  function ExecInstr(ops: Ops, i: Instr, fr: Frame): Frame {
    match i.op
    case Fn(k) =>
      var vs := EvalAll(i.args, fr);
      fr.(env := fr.env[i.id := ops.value(k, vs, fr.mem)], mem := ops.effect(k, vs, fr.mem))
    case LazyCall(k, _) =>
      var (v, m, slots) := ops.lazy(k, EvalAll(i.args, fr), fr.slots, fr.mem);
      fr.(env := fr.env[i.id := v], mem := m, slots := slots)
    case Force =>
      var (v, slots) := ForceSlots(ops, fr.slots, fr.mem);
      fr.(env := fr.env[i.id := v], slots := slots)
    case InitThunk => fr.(slots := InitSlots(ops.memo, ops.fptr, if |fr.slots| > 1 then fr.slots[1] else 0, EvalAll(i.args, fr)))
    case MemoStore =>
      if |fr.slots| >= 3 && i.args != [] then fr.(slots := fr.slots[2 := 1][1 := Eval(i.args[0], fr)]) else fr
    case DummyUse => fr
  }

  function ExecBody(ops: Ops, body: seq<Instr>, fr: Frame): Frame {
    if body == [] then fr else
      var n := |body| - 1;
      ExecInstr(ops, body[n], ExecBody(ops, body[..n], fr))
  }

  function ExecBlock(ops: Ops, blk: Block, prev: Option<BlockRef>, fr: Frame): Frame {
    ExecBody(ops, blk.body, fr.(env := ExecPhis(blk.phis, prev, fr)))
  }

  function CaseIndex(labels: seq<int>, v: int): nat {
    if labels == [] then 0
    else if labels[0] == v then 1
    else var i := CaseIndex(labels[1..], v); if i == 0 then 0 else i + 1
  }

  function Choose(t: Option<Term>, fr: Frame): Next {
    match t
    case Some(Br(b)) => Goto(b)
    case Some(CondBr(c, x, y)) => if Eval(c, fr) != 0 then Goto(x) else Goto(y)
    case Some(Switch(c, ls, ts)) =>
      var i := CaseIndex(ls, Eval(c, fr));
      if i < |ts| then Goto(ts[i]) else Nowhere
    case Some(Ret(v)) => Return(Eval(v, fr))
    case _ => Nowhere
  }

  lemma {:induction false} CaseFound(labels: seq<int>, v: int, k: nat)
    requires k < |labels| && labels[k] == v && v !in labels[..k]
    ensures CaseIndex(labels, v) == k + 1
  {
    if k > 0 {
      assert labels[..k][0] == labels[0] && labels[1..][..k - 1] == labels[..k][1..];
      CaseFound(labels[1..], v, k - 1);
    }
  }

  lemma {:induction false} NoCaseFound(labels: seq<int>, v: int)
    requires v !in labels
    ensures CaseIndex(labels, v) == 0
  {
    if labels != [] {
      NoCaseFound(labels[1..], v);
    }
  }

  /** A branch goes by whether its condition is zero; a switch goes to the target of the first label that is the value of
      its condition, and to the default, which stands first, if there is none. */
  lemma BranchesLead(t: Term, fr: Frame)
    ensures t.CondBr? ==> Choose(Some(t), fr) == Goto(if Eval(t.cond, fr) == 0 then t.ifFalse else t.ifTrue)
    ensures t.Switch? ==> forall k | && 0 <= k < |t.labels| && k + 1 < |t.targets| && t.labels[k] == Eval(t.cond, fr)
                                     && Eval(t.cond, fr) !in t.labels[..k] :: Choose(Some(t), fr) == Goto(t.targets[k + 1])
    ensures t.Switch? && Eval(t.cond, fr) !in t.labels && t.targets != [] ==> Choose(Some(t), fr) == Goto(t.targets[0])
    ensures t.Ret? ==> Choose(Some(t), fr) == Return(Eval(t.value, fr))
  {
    hide CaseIndex;
    if t.Switch? {
      forall k | && 0 <= k < |t.labels| && k + 1 < |t.targets| && t.labels[k] == Eval(t.cond, fr) && Eval(t.cond, fr) !in t.labels[..k]
        ensures Choose(Some(t), fr) == Goto(t.targets[k + 1])
      {
        CaseFound(t.labels, Eval(t.cond, fr), k);
      }
      if Eval(t.cond, fr) !in t.labels {
        NoCaseFound(t.labels, Eval(t.cond, fr));
      }
    }
  }

  /** The phis of a block are assigned at once: each has the value it names for the edge, in the frame before, and nothing
      else is changed. */
  lemma {:induction false} PhisAtOnce(phis: seq<Phi>, prev: Option<BlockRef>, fr: Frame, k: nat)
    requires forall i, j | 0 <= i < j < |phis| :: phis[i].id != phis[j].id
    ensures k < |phis| ==> phis[k].id in ExecPhis(phis, prev, fr) && ExecPhis(phis, prev, fr)[phis[k].id] == PhiValue(phis[k], prev, fr)
    ensures forall id | (forall p | p in phis :: p.id != id) ::
      (id in ExecPhis(phis, prev, fr) <==> id in fr.env) && (id in fr.env ==> ExecPhis(phis, prev, fr)[id] == fr.env[id])
    decreases |phis|
  {
    hide PhiValue;
    if phis != [] {
      var n := |phis| - 1;
      PhisAtOnce(phis[..n], prev, fr, if k < n then k else 0);
      assert phis[n] in phis && forall p | p in phis[..n] :: p in phis;
    }
  }

  /** The instructions of a block run one after the other. */
  lemma {:induction false} BodyInOrder(ops: Ops, xs: seq<Instr>, ys: seq<Instr>, fr: Frame)
    ensures ExecBody(ops, xs + ys, fr) == ExecBody(ops, ys, ExecBody(ops, xs, fr))
    ensures forall i :: ExecBody(ops, [i], fr) == ExecInstr(ops, i, fr)
    decreases |ys|
  {
    hide ExecInstr;
    if ys == [] {
      assert xs + ys == xs;
    } else {
      var n := |ys| - 1;
      assert (xs + ys)[..|xs| + n] == xs + ys[..n] && (xs + ys)[|xs| + n] == ys[n];
      BodyInOrder(ops, xs, ys[..n], fr);
    }
    forall i
      ensures ExecBody(ops, [i], fr) == ExecInstr(ops, i, fr)
    {
      assert [i][..0] == [];
      assert ExecBody(ops, [i][..0], fr) == fr;
    }
  }

  function Step(ops: Ops, f: Function, st: State): Outcome {
    if st.block !in f.blocks then Wrong else
      var blk := f.blocks[st.block];
      var fr := ExecBlock(ops, blk, st.prev, st.frame);
      match Choose(blk.term, fr)
      case Goto(b) => Running(State(b, Some(st.block), fr))
      case Return(v) => Finished(v, fr)
      case Nowhere => Wrong
  }

  function Run(ops: Ops, f: Function, o: Outcome, n: nat): Outcome
    decreases n
  {
    if n == 0 || !o.Running? then o else Run(ops, f, Step(ops, f, o.st), n - 1)
  }

  function Start(f: Function, fr: Frame): State
    requires |f.order| > 0
  {
    State(f.order[0], None, fr)
  }

  // ---- memory ----

  ghost predicate AgreeOn(locs: set<nat>, a: Mem, b: Mem) {
    forall l | l in locs :: (l in a <==> l in b) && (l in a ==> a[l] == b[l])
  }

  lemma GotoIsSucc(t: Option<Term>, fr: Frame)
    ensures Choose(t, fr).Goto? ==> t.Some? && Choose(t, fr).b in t.value.Succs()
  {
  }
}
