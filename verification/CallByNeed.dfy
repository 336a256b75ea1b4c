/** Call-by-need on the callee's side: the clone that is passed a thunk against the callee that is passed
    the value. */
module CallByNeed {
  import opened Graphs
  import opened Ir
  import opened Machine
  import opened Thunks
  import opened Forcing

  // ---- the rewritten function ----

  /** The calls made for the uses in a block are exactly its uses of the target. */
  ghost predicate CallsExact(f: Function, target: Value, calls: map<Id, seq<nat>>) {
    forall b, i, k: nat | b in f.blocks && i in f.blocks[b].body ::
      k in CallsOf(calls, i.id) <==> k < |i.args| && i.args[k] == target
  }

  /** A use that is served at the end of block `b`: of its terminator, or of a phi for the edge from `b`. */
  ghost predicate TailUse(f: Function, target: Value, b: BlockRef, u: Use)
    requires b in f.blocks
  {
    || (b.Orig? && u == (TermId(b.b), 0) && f.blocks[b].term.Some? && target in f.blocks[b].term.value.Values())
    || (exists q, p :: q in f.blocks && p in f.blocks[q].phis && u.0 == p.id && u.1 < |p.incoming| && p.incoming[u.1] == (b, target))
  }

  ghost predicate TailsExact(f: Function, target: Value, tails: map<BlockRef, seq<Use>>) {
    tails.Keys == f.blocks.Keys && forall b, u | b in f.blocks :: u in tails[b] <==> TailUse(f, target, b, u)
  }

  /** `c` is `f` with every use of `target` replaced by a thunk call. */
  ghost predicate IsForced(f: Function, target: Value, calls: map<Id, seq<nat>>, tails: map<BlockRef, seq<Use>>,
                           c: Function) {
    && CallsExact(f, target, calls) && TailsExact(f, target, tails)
    && c.nargs == f.nargs && c.order == f.order && c.blocks.Keys == f.blocks.Keys
    && forall b: nat | Orig(b) in f.blocks :: c.blocks[Orig(b)] == ForcedBlock(b, f.blocks[Orig(b)], calls, tails[Orig(b)], target)
  }

  // ---- what is asked of the eager run ----

  /** Calls are placed at the end of `b`. */
  ghost predicate TailUsed(f: Function, target: Value, b: BlockRef)
    requires b in f.blocks
  {
    exists u :: TailUse(f, target, b, u)
  }

  /** In the block a run has come to, the uses in the function `g` agree. */
  ghost predicate UsesAt(ops: Ops, w: Life, g: Function, o: Outcome) {
    o.Running? && o.st.block in g.blocks ==>
      BlockUses(ops, w, g.blocks[o.st.block], TailUsed(g, w.target, o.st.block), o.st.prev, o.st.frame)
  }

  /** What is known of the thunk behind that block. */
  ghost function LifeAfter(ops: Ops, w: Life, g: Function, st: State): (w': Life)
    ensures w' == w.(kept := w'.kept) && (w.kept ==> w'.kept)
  {
    if st.block in g.blocks then BlockAfter(ops, w, g.blocks[st.block], TailUsed(g, w.target, st.block), st.prev, st.frame) else w
  }

  /** What is known of it after `n` steps. */
  ghost function RunAfter(ops: Ops, w: Life, g: Function, e: Function, o: Outcome, n: nat): (w': Life)
    ensures w' == w.(kept := w'.kept) && (w.kept ==> w'.kept)
    decreases n
  {
    if n == 0 || !o.Running? then w else RunAfter(ops, LifeAfter(ops, w, g, o.st), g, e, Step(ops, e, o.st), n - 1)
  }

  /** From `st` on, wherever a thunk call is placed the memory fits, unless the thunk has kept its value, and
      wherever the thunk is passed on the clone honours it.  `e` is the program that is run, `g` says where the
      uses are. */
  ghost predicate RunUses(ops: Ops, w: Life, g: Function, e: Function, st: State) {
    forall n: nat :: UsesAt(ops, RunAfter(ops, w, g, e, Running(st), n), g, Run(ops, e, Running(st), n))
  }

  lemma {:induction false} UsesHere(ops: Ops, w: Life, g: Function, e: Function, st: State)
    requires RunUses(ops, w, g, e, st) && st.block in g.blocks
    ensures BlockUses(ops, w, g.blocks[st.block], TailUsed(g, w.target, st.block), st.prev, st.frame)
  {
    hide BlockUses, TailUsed;
    assert UsesAt(ops, RunAfter(ops, w, g, e, Running(st), 0), g, Run(ops, e, Running(st), 0));
  }

  lemma {:induction false} UsesNext(ops: Ops, w: Life, g: Function, e: Function, st: State)
    requires RunUses(ops, w, g, e, st) && Step(ops, e, st).Running?
    ensures RunUses(ops, LifeAfter(ops, w, g, st), g, e, Step(ops, e, st).st)
  {
    hide UsesAt, Step, LifeAfter;
    var w1, next := LifeAfter(ops, w, g, st), Step(ops, e, st);
    forall n: nat
      ensures UsesAt(ops, RunAfter(ops, w1, g, e, next, n), g, Run(ops, e, next, n))
    {
      assert UsesAt(ops, RunAfter(ops, w, g, e, Running(st), n + 1), g, Run(ops, e, Running(st), n + 1));
    }
  }

  /** What a function must be for its rewritten form to run in step from a block on, the thunk being ready. */
  ghost predicate GoodFunction(w: Life, f: Function) {
    && Shaped(f)
    && forall b | b in f.blocks ::
         && GoodPhis(w, true, f.blocks[b].phis)
         && (forall i | i in f.blocks[b].body :: GoodInstr(i) && w.target != Res(i.id))
         && (forall v | v in f.blocks[b].term.value.Values() :: GoodOperand(v))
  }

  /** The function run eagerly. */
  function Eager(f: Function, target: Value): Function {
    f.(blocks := map b | b in f.blocks :: f.blocks[b].(body := EagerBody(f.blocks[b].body, target)))
  }

  ghost predicate StatesInStep(ops: Ops, w: Life, f: Function, es: State, ls: State) {
    && es.block == ls.block && es.prev == ls.prev && es.block in f.blocks
    && Lock(ops, w, true, es.frame, ls.frame)
    && (es.prev.Some? ==> EdgeForced(f.blocks[es.block].phis, w.target, es.prev.value, ls.frame.env))
  }

  /** Both runs go on in step, or both have finished with the same value and the same memory, or both are stuck. */
  ghost predicate InStep(ops: Ops, w: Life, f: Function, oe: Outcome, ol: Outcome) {
    match (oe, ol)
    case (Running(es), Running(ls)) => StatesInStep(ops, w, f, es, ls)
    case (Finished(v, ef), Finished(v', lf)) => v == v' && ef.mem == lf.mem && ThunkReady(ops, w.env, w.v, lf.slots) && Marked(ops, w.kept, lf.slots)
    case (Wrong, Wrong) => true
    case _ => false
  }

  /** Two blocks that end in step and choose alike. */
  ghost predicate EndAlike(ops: Ops, f: Function, c: Function, es: State, ls: State)
  {
    && es.block == ls.block && es.block in f.blocks && es.block in c.blocks
    && var ef, lf := ExecBlock(ops, f.blocks[es.block], es.prev, es.frame), ExecBlock(ops, c.blocks[ls.block], ls.prev, ls.frame);
      Choose(c.blocks[ls.block].term, lf) == Choose(f.blocks[es.block].term, ef)
  }

  lemma BothGo(ops: Ops, f: Function, c: Function, es: State, ls: State)
    requires EndAlike(ops, f, c, es, ls) && (forall s | s in f.blocks[es.block].Succs() :: s in f.blocks)
    ensures var ef, lf := ExecBlock(ops, f.blocks[es.block], es.prev, es.frame), ExecBlock(ops, c.blocks[ls.block], ls.prev, ls.frame);
      match Choose(f.blocks[es.block].term, ef)
      case Goto(x) => && Step(ops, f, es) == Running(State(x, Some(es.block), ef)) && Step(ops, c, ls) == Running(State(x, Some(es.block), lf))
                      && (es.block, x) in GraphOf(f).edges && x in f.blocks
      case Return(v) => Step(ops, f, es) == Finished(v, ef) && Step(ops, c, ls) == Finished(v, lf)
      case Nowhere => Step(ops, f, es) == Wrong && Step(ops, c, ls) == Wrong
  {
    hide ExecBlock;
    GotoIsSucc(f.blocks[es.block].term, ExecBlock(ops, f.blocks[es.block], es.prev, es.frame));
  }

  lemma BlockHere(ops: Ops, f: Function, c: Function, es: State, ls: State)
    requires EndAlike(ops, f, c, es, ls)
    ensures es.block == ls.block && es.block in f.blocks && es.block in c.blocks
  {
  }

  lemma LockedMem(ops: Ops, w: Life, ready: bool, ef: Frame, lf: Frame)
    requires Lock(ops, w, ready, ef, lf)
    ensures ef.mem == lf.mem
  {
  }

  /** The thunk calls made for an instruction are made for its uses of the value. */
  lemma CallsCover(g: Function, target: Value, calls: map<Id, seq<nat>>, b: BlockRef, i: Instr)
    requires CallsExact(g, target, calls) && b in g.blocks && i in g.blocks[b].body
    ensures CoversInstr(i, calls, target) && (target !in i.args ==> CallsOf(calls, i.id) == [])
  {
    hide CallsOf;
    assert forall k: nat :: k in CallsOf(calls, i.id) <==> k < |i.args| && i.args[k] == target;
    NoneIn(CallsOf(calls, i.id));
  }

  lemma NoneIn<T>(ks: seq<T>)
    ensures ks == [] || ks[0] in ks
  {
  }

  lemma GoodForcedFrom(w: Life, f: Function, calls: map<Id, seq<nat>>, tails: map<BlockRef, seq<Use>>,
                       c: Function, b: BlockRef)
    requires GoodFunction(w, f) && IsForced(f, w.target, calls, tails, c) && b in f.blocks
    ensures b.Orig? && b in tails && GoodForced(w, true, b.b, f.blocks[b], calls, tails[b])
    ensures c.blocks.Keys == f.blocks.Keys && c.blocks[b] == ForcedBlock(b.b, f.blocks[b], calls, tails[b], w.target)
  {
    var blk := f.blocks[b];
    hide GoodInstr, CoversInstr, CallsOf;
    forall i | i in blk.body
      ensures CoversInstr(i, calls, w.target) && (CallsOf(calls, i.id) != [] ==> w.target in i.args)
    {
      CallsCover(f, w.target, calls, b, i);
    }
    if w.target in blk.term.value.Values() {
      assert TailUse(f, w.target, b, (TermId(b.b), 0));
    }
  }

  /** After the block `b` the calls for the phis of any block it flows into have been made. */
  lemma TailForcesEdge(f: Function, target: Value, tails: map<BlockRef, seq<Use>>, b: BlockRef, q: BlockRef,
                       env: map<Id, int>)
    requires TailsExact(f, target, tails) && b in f.blocks && q in f.blocks
    requires forall u | u in tails[b] :: ForceId(u.0, u.1) in env
    ensures EdgeForced(f.blocks[q].phis, target, b, env)
  {
    var phis := f.blocks[q].phis;
    forall i, j: nat | 0 <= i < |phis| && j < |phis[i].incoming| && phis[i].incoming[j] == (b, target)
      ensures ForceId(phis[i].id, j) in env
    {
      assert phis[i] in f.blocks[q].phis;
      assert TailUse(f, target, b, (phis[i].id, j));
    }
  }

  lemma EagerBlock(f: Function, target: Value, b: BlockRef)
    requires b in f.blocks
    ensures Eager(f, target).blocks.Keys == f.blocks.Keys
    ensures Eager(f, target).blocks[b] == f.blocks[b].(body := EagerBody(f.blocks[b].body, target))
    ensures Eager(f, target).blocks[b].Succs() == f.blocks[b].Succs()
  {
  }

  lemma SuccsInside(w: Life, f: Function, b: BlockRef)
    requires GoodFunction(w, f) && b in f.blocks
    ensures forall s | s in f.blocks[b].Succs() :: s in f.blocks
  {
    hide GoodInstr, GoodPhis;
  }

  /** One block, eagerly and on a thunk. */
  lemma BlockInStep(ops: Ops, w: Life, f: Function, calls: map<Id, seq<nat>>, tails: map<BlockRef, seq<Use>>, c: Function,
                    es: State, ls: State)
    requires GoodFunction(w, f) && IsForced(f, w.target, calls, tails, c) && Promised(ops, w)
    requires StatesInStep(ops, w, f, es, ls)
    requires BlockUses(ops, w, f.blocks[es.block], TailUsed(f, w.target, es.block), es.prev, es.frame)
    ensures EndAlike(ops, Eager(f, w.target), c, es, ls) && es.block in tails
    ensures var ef, lf := ExecBlock(ops, Eager(f, w.target).blocks[es.block], es.prev, es.frame), ExecBlock(ops, c.blocks[es.block], ls.prev, ls.frame);
      Lock(ops, LifeAfter(ops, w, f, es), true, ef, lf) && forall u | u in tails[es.block] :: ForceId(u.0, u.1) in lf.env
  {
    hide *;
    var b := es.block;
    InStepParts(ops, w, f, es, ls);
    GoodForcedFrom(w, f, calls, tails, c, b);
    EagerBlock(f, w.target, b);
    TailIsUsed(f, w.target, calls, tails, c, b);
    LifeAfterIs(ops, w, f, es);
    BlockLocks(ops, w, true, es.frame, ls.frame, b.b, f.blocks[b], calls, tails[b], es.prev);
    EagersEndAlike(ops, Eager(f, w.target), c, es, ls);
  }

  lemma TailIsUsed(f: Function, target: Value, calls: map<Id, seq<nat>>, tails: map<BlockRef, seq<Use>>, c: Function, b: BlockRef)
    requires IsForced(f, target, calls, tails, c) && b in f.blocks
    ensures b in tails && (tails[b] != [] <==> TailUsed(f, target, b))
  {
    assert TailsExact(f, target, tails);
    hide CallsExact, TailUse, ForcedBlock;
    NoneIn(tails[b]);
    if TailUsed(f, target, b) {
      var u :| TailUse(f, target, b, u);
      assert u in tails[b];
    }
  }

  lemma LifeAfterIs(ops: Ops, w: Life, g: Function, st: State)
    requires st.block in g.blocks
    ensures LifeAfter(ops, w, g, st) == BlockAfter(ops, w, g.blocks[st.block], TailUsed(g, w.target, st.block), st.prev, st.frame)
  {
    hide BlockAfter, TailUsed;
  }

  lemma InStepParts(ops: Ops, w: Life, f: Function, es: State, ls: State)
    requires StatesInStep(ops, w, f, es, ls)
    ensures es.block == ls.block && es.prev == ls.prev && es.block in f.blocks && Lock(ops, w, true, es.frame, ls.frame)
    ensures es.prev.Some? ==> EdgeForced(f.blocks[es.block].phis, w.target, es.prev.value, ls.frame.env)
  {
    hide Lock, EdgeForced;
  }

  lemma StepInStep(ops: Ops, w: Life, f: Function, calls: map<Id, seq<nat>>, tails: map<BlockRef, seq<Use>>, c: Function,
                   es: State, ls: State)
    requires GoodFunction(w, f) && IsForced(f, w.target, calls, tails, c) && Promised(ops, w)
    requires StatesInStep(ops, w, f, es, ls)
    requires BlockUses(ops, w, f.blocks[es.block], TailUsed(f, w.target, es.block), es.prev, es.frame)
    ensures InStep(ops, LifeAfter(ops, w, f, es), f, Step(ops, Eager(f, w.target), es), Step(ops, c, ls))
  {
    hide *;
    var g := Eager(f, w.target);
    InStepParts(ops, w, f, es, ls);
    TailsAre(f, w.target, calls, tails, c);
    EagerBlock(f, w.target, es.block);
    SuccsInside(w, f, es.block);
    BlockInStep(ops, w, f, calls, tails, c, es, ls);
    BlockHere(ops, g, c, es, ls);
    BothGo(ops, g, c, es, ls);
    EndsInStep(ops, LifeAfter(ops, w, f, es), f, g, tails, c, es, ls);
  }

  lemma TailsAre(f: Function, target: Value, calls: map<Id, seq<nat>>, tails: map<BlockRef, seq<Use>>, c: Function)
    requires IsForced(f, target, calls, tails, c)
    ensures TailsExact(f, target, tails)
  {
    hide CallsExact, TailsExact;
  }

  /** From two blocks that end alike, with the calls at the end made, the runs go on in step. */
  lemma EndsInStep(ops: Ops, w: Life, f: Function, g: Function, tails: map<BlockRef, seq<Use>>, c: Function,
                   es: State, ls: State)
    requires TailsExact(f, w.target, tails) && g.blocks.Keys == f.blocks.Keys && es.block in f.blocks && es.block in tails
    requires EndAlike(ops, g, c, es, ls) && forall s | s in g.blocks[es.block].Succs() :: s in g.blocks
    requires var ef, lf := ExecBlock(ops, g.blocks[es.block], es.prev, es.frame), ExecBlock(ops, c.blocks[ls.block], ls.prev, ls.frame);
      Lock(ops, w, true, ef, lf) && forall u | u in tails[es.block] :: ForceId(u.0, u.1) in lf.env
    ensures InStep(ops, w, f, Step(ops, g, es), Step(ops, c, ls))
  {
    hide Lock, EdgeForced, TailsExact, ExecBlock, Step, EndAlike, ThunkReady, Marked, GraphOf;
    BlockHere(ops, g, c, es, ls);
    BothGo(ops, g, c, es, ls);
    LockedThunk(ops, w, true, ExecBlock(ops, g.blocks[es.block], es.prev, es.frame), ExecBlock(ops, c.blocks[ls.block], ls.prev, ls.frame));
    var o := Step(ops, g, es);
    if o.Running? {
      TailForcesEdge(f, w.target, tails, es.block, o.st.block, ExecBlock(ops, c.blocks[ls.block], ls.prev, ls.frame).env);
    }
  }

  lemma EagersEndAlike(ops: Ops, f: Function, c: Function, es: State, ls: State)
    requires es.block == ls.block && es.block in f.blocks && es.block in c.blocks
    requires var ef, lf := ExecBlock(ops, f.blocks[es.block], es.prev, es.frame), ExecBlock(ops, c.blocks[ls.block], ls.prev, ls.frame);
      Choose(c.blocks[ls.block].term, lf) == Choose(f.blocks[es.block].term, ef)
    ensures EndAlike(ops, f, c, es, ls)
  {
    hide ExecBlock;
  }

  /** For every number of steps the eager run and the run on a thunk are in step. */
  lemma {:induction false} RunInStep(ops: Ops, w: Life, f: Function, calls: map<Id, seq<nat>>,
                                     tails: map<BlockRef, seq<Use>>, c: Function,
                                     oe: Outcome, ol: Outcome, n: nat)
    requires GoodFunction(w, f) && IsForced(f, w.target, calls, tails, c) && Promised(ops, w)
    requires InStep(ops, w, f, oe, ol) && (oe.Running? ==> RunUses(ops, w, f, Eager(f, w.target), oe.st))
    ensures InStep(ops, RunAfter(ops, w, f, Eager(f, w.target), oe, n), f, Run(ops, Eager(f, w.target), oe, n), Run(ops, c, ol, n))
    decreases n
  {
    hide GoodFunction, IsForced, Promised, StatesInStep, Step, Eager, RunUses, BlockUses, TailUsed, LifeAfter, ThunkReady, Marked;
    if n > 0 && oe.Running? {
      InStepParts(ops, w, f, oe.st, ol.st);
      UsesHere(ops, w, f, Eager(f, w.target), oe.st);
      StepInStep(ops, w, f, calls, tails, c, oe.st, ol.st);
      var o, w1 := Step(ops, Eager(f, w.target), oe.st), LifeAfter(ops, w, f, oe.st);
      if o.Running? {
        UsesNext(ops, w, f, Eager(f, w.target), oe.st);
      }
      StillPromised(ops, w, w1);
      StillGood(w, w1, f);
      RunInStep(ops, w1, f, calls, tails, c, o, Step(ops, c, ol.st), n - 1);
    }
  }

  lemma StillGood(w: Life, w': Life, f: Function)
    requires GoodFunction(w, f) && w' == w.(kept := w'.kept)
    ensures GoodFunction(w', f)
  {
    hide GoodInstr, GoodOperand;
    forall b | b in f.blocks
      ensures GoodPhis(w', true, f.blocks[b].phis)
    {
      assert GoodPhis(w, true, f.blocks[b].phis);
    }
  }

  // ---- the callee ----

  lemma WellFormedIsGood(w: Life, f: Function)
    requires WellFormed(f) && w.target.Arg?
    ensures GoodFunction(w, f) && Eager(f, w.target) == f
  {
    forall b | b in f.blocks
      ensures GoodPhis(w, true, f.blocks[b].phis)
      ensures forall i | i in f.blocks[b].body :: GoodInstr(i) && i.op.Fn?
      ensures forall v | v in f.blocks[b].term.value.Values() :: GoodOperand(v)
    {
      WellFormedBlock(w, f, b);
    }
    forall b | b in f.blocks
      ensures EagerBody(f.blocks[b].body, w.target) == f.blocks[b].body
    {
      assert forall i | i in f.blocks[b].body :: EagerInstr(i, w.target) == i;
    }
    assert Eager(f, w.target).blocks == f.blocks;
  }

  lemma OperandIsGood(f: Function, id: Id, v: Value)
    requires WellFormed(f) && HasInst(f, id) && v in Operands(f, id)
    ensures GoodOperand(v)
  {
    assert GoodValue(f, v);
  }

  lemma WellFormedBlock(w: Life, f: Function, b: BlockRef)
    requires WellFormed(f) && b in f.blocks
    ensures w.target.Arg? ==> GoodPhis(w, true, f.blocks[b].phis)
    ensures GoodPhis(w, false, f.blocks[b].phis)
    ensures forall i | i in f.blocks[b].body :: GoodInstr(i) && i.op.Fn?
    ensures forall v | v in f.blocks[b].term.value.Values() :: GoodOperand(v)
  {
    var blk := f.blocks[b];
    assert GoodBlock(f, b.b);
    hide WellFormed;
    forall i, j | 0 <= i < |blk.phis| && 0 <= j < |blk.phis[i].incoming|
      ensures GoodOperand(blk.phis[i].incoming[j].1)
    {
      assert HasInst(f, PhiId(b.b, i)) && Operands(f, PhiId(b.b, i))[j] == blk.phis[i].incoming[j].1;
      OperandIsGood(f, PhiId(b.b, i), blk.phis[i].incoming[j].1);
    }
    forall i, a | i in blk.body && a in i.args
      ensures GoodOperand(a)
    {
      var k :| 0 <= k < |blk.body| && blk.body[k] == i;
      assert HasInst(f, BodyId(b.b, k)) && Operands(f, BodyId(b.b, k)) == i.args;
      OperandIsGood(f, BodyId(b.b, k), a);
    }
    forall v | v in blk.term.value.Values()
      ensures GoodOperand(v)
    {
      assert HasInst(f, TermId(b.b));
      OperandIsGood(f, TermId(b.b), v);
    }
  }

  /** Call-by-need equals call-by-value, for every callee and every number of steps: if wherever the callee is
      about to use the value the delegate computes it over the memory of that moment, or the thunk has kept it, the
      clone run on a ready thunk goes through the same blocks as the callee run on the value, and finishes when it
      does, with the same result and the same memory. */
  lemma {:induction false} CalleeCallByNeed(ops: Ops, w: Life, f: Function, calls: map<Id, seq<nat>>, tails: map<BlockRef, seq<Use>>, c: Function,
                         ef: Frame, lf: Frame, n: nat)
    requires WellFormed(f) && w.target.Arg? && |f.order| > 0 && |c.order| > 0
    requires IsForced(f, w.target, calls, tails, c) && Promised(ops, w)
    requires ef.env == map[] && lf.env == map[] && ef.mem == lf.mem
    requires SameArgs(w.target, ef.args, lf.args) && Eval(w.target, ef) == w.v
    requires ThunkReady(ops, w.env, w.v, lf.slots) && Marked(ops, w.kept, lf.slots)
    requires RunUses(ops, w, f, f, Start(f, ef))
    ensures InStep(ops, RunAfter(ops, w, f, f, Running(Start(f, ef)), n), f,
                   Run(ops, f, Running(Start(f, ef)), n), Run(ops, c, Running(Start(c, lf)), n))
  {
    hide *;
    hide Lock, WellFormed;
    WellFormedIsGood(w, f);
    SameLayout(f, w.target, calls, tails, c);
    EntryIsBlock(f);
    CalleeLocks(ops, w, ef, lf);
    StartsInStep(ops, w, f, ef, lf, c);
    RunInStep(ops, w, f, calls, tails, c, Running(Start(f, ef)), Running(Start(c, lf)), n);
  }

  lemma SameLayout(f: Function, target: Value, calls: map<Id, seq<nat>>, tails: map<BlockRef, seq<Use>>, c: Function)
    requires IsForced(f, target, calls, tails, c)
    ensures c.order == f.order
  {
    hide CallsExact, TailsExact;
  }

  lemma EntryIsBlock(f: Function)
    requires WellFormed(f)
    ensures |f.order| > 0 && f.order[0] in f.blocks
  {
    hide GoodBlock, GoodValue;
  }

  lemma CalleeLocks(ops: Ops, w: Life, ef: Frame, lf: Frame)
    requires ef.env == map[] && lf.env == map[] && ef.mem == lf.mem
    requires SameArgs(w.target, ef.args, lf.args) && Eval(w.target, ef) == w.v
    requires ThunkReady(ops, w.env, w.v, lf.slots) && Marked(ops, w.kept, lf.slots)
    ensures Lock(ops, w, true, ef, lf)
  {
    hide ThunkReady, Marked, Eval;
  }

  lemma StartsInStep(ops: Ops, w: Life, f: Function, ef: Frame, lf: Frame, c: Function)
    requires |f.order| > 0 && c.order == f.order && f.order[0] in f.blocks && Lock(ops, w, true, ef, lf)
    ensures InStep(ops, w, f, Running(Start(f, ef)), Running(Start(c, lf)))
  {
    hide Lock;
  }
}
