/** The delegate computes the value the caller would have computed. */
module Simulation {
  import opened Graphs
  import opened Ir
  import opened Slices
  import opened Delegates
  import opened Machine

  // ---- assumptions on the run and on the thunk ----

  /** At the operands the caller gives it, the operation computes over the memory `mem` what it computes
      over the caller's, and leaves `mem` as it is. */
  ghost predicate InstrStable(ops: Ops, mem: Mem, i: Instr, fr: Frame) {
    i.op.Fn? ==>
      var vs := EvalAll(i.args, fr);
      ops.value(i.op.f, vs, mem) == ops.value(i.op.f, vs, fr.mem) && ops.effect(i.op.f, vs, mem) == mem
  }

  /** The sliced instructions of a body, each where the caller runs it. */
  ghost predicate BodyStable(ops: Ops, s: Slice, mem: Mem, body: seq<Instr>, fr: Frame) {
    forall n | 0 <= n < |body| && s.Has(body[n].id) :: InstrStable(ops, mem, body[n], ExecBody(ops, body[..n], fr))
  }

  ghost predicate BlockStable(ops: Ops, s: Slice, mem: Mem, blk: Block, prev: Option<BlockRef>, fr: Frame) {
    BodyStable(ops, s, mem, blk.body, fr.(env := ExecPhis(blk.phis, prev, fr)))
  }

  /** The environment of the thunk holds the parameters the slice depends on. */
  ghost predicate Captured(s: Slice, args: seq<nat>, base: nat, slots: seq<int>, actual: seq<int>) {
    forall a: nat | Arg(a) in s.deps ::
      && a in args && a < |actual| && base + IndexIn(args, a) < |slots|
      && slots[base + IndexIn(args, a)] == actual[a]
  }

  /** The caller's frame and the delegate's agree on all the slice can see. */
  ghost predicate Agree(s: Slice, args: seq<nat>, base: nat, mem: Mem, cf: Frame, df: Frame) {
    && (forall id | s.Has(id) :: (id in cf.env <==> id in df.env) && (id in cf.env ==> cf.env[id] == df.env[id]))
    && df.mem == mem
    && Captured(s, args, base, df.slots, cf.args)
  }

  predicate Seen(s: Slice, v: Value) {
    match v
    case Const(_) => true
    case Arg(_) => v in s.deps
    case Res(_) => v in s.deps
    case Field(_) => false
  }

  lemma EvalAgrees(s: Slice, args: seq<nat>, base: nat, mem: Mem, cf: Frame, df: Frame, v: Value)
    requires Agree(s, args, base, mem, cf, df) && Seen(s, v)
    ensures Eval(LoadValue(v, args, base), df) == Eval(v, cf)
  {
  }

  // ---- one block ----

  /** What the delegate's copy of an instruction does, against the whole block of the caller. */
  lemma InstrAgrees(ops: Ops, s: Slice, args: seq<nat>, base: nat, mem: Mem, cf: Frame, df: Frame, i: Instr)
    requires Agree(s, args, base, mem, cf, df) && i.op.Fn?
    requires s.Has(i.id) ==> InstrStable(ops, mem, i, cf) && forall v | v in i.args :: Seen(s, v)
    ensures s.Has(i.id) ==> Agree(s, args, base, mem, ExecInstr(ops, i, cf), ExecInstr(ops, LoadInstr(i, args, base), df))
    ensures s.Has(i.id) ==> ExecInstr(ops, LoadInstr(i, args, base), df) == df.(env := ExecInstr(ops, LoadInstr(i, args, base), df).env)
    ensures !s.Has(i.id) ==> Agree(s, args, base, mem, ExecInstr(ops, i, cf), df)
  {
    if s.Has(i.id) {
      var cv, dv := EvalAll(i.args, cf), EvalAll(LoadValues(i.args, args, base), df);
      forall k | 0 <= k < |i.args|
        ensures dv[k] == cv[k]
      {
        EvalAgrees(s, args, base, mem, cf, df, i.args[k]);
      }
      assert dv == cv;
    }
  }

  ghost predicate BodyReady(s: Slice, body: seq<Instr>) {
    forall i | i in body :: i.op.Fn? && (s.Has(i.id) ==> forall v | v in i.args :: Seen(s, v))
  }

  lemma StablePrefix(ops: Ops, s: Slice, mem: Mem, body: seq<Instr>, fr: Frame, n: nat)
    requires BodyStable(ops, s, mem, body, fr) && n <= |body|
    ensures BodyStable(ops, s, mem, body[..n], fr)
  {
    hide InstrStable;
    forall k | 0 <= k < n && s.Has(body[..n][k].id)
      ensures InstrStable(ops, mem, body[..n][k], ExecBody(ops, body[..n][..k], fr))
    {
      assert body[..n][..k] == body[..k];
    }
  }

  lemma {:induction false} BodyAgrees(ops: Ops, s: Slice, args: seq<nat>, base: nat, mem: Mem, cf: Frame,
                                      df: Frame, body: seq<Instr>)
    requires Agree(s, args, base, mem, cf, df) && BodyReady(s, body) && BodyStable(ops, s, mem, body, cf)
    ensures var df' := ExecBody(ops, LoadBody(KeepBody(body, s.deps), args, base), df);
      Agree(s, args, base, mem, ExecBody(ops, body, cf), df') && df' == df.(env := df'.env)
  {
    if body != [] {
      var n := |body| - 1;
      var init, kept := body[..n], KeepBody(body[..n], s.deps);
      assert forall i | i in init :: i in body;
      StablePrefix(ops, s, mem, body, cf, n);
      assert s.Has(body[n].id) ==> InstrStable(ops, mem, body[n], ExecBody(ops, init, cf));
      hide InstrStable, BodyStable;
      BodyAgrees(ops, s, args, base, mem, cf, df, init);
      var c1, d1 := ExecBody(ops, init, cf), ExecBody(ops, LoadBody(kept, args, base), df);
      assert body[n] in body;
      InstrAgrees(ops, s, args, base, mem, c1, d1, body[n]);
      if s.Has(body[n].id) {
        assert KeepBody(body, s.deps) == kept + [body[n]];
        LoadBodyAppend(kept, body[n], args, base);
      } else {
        assert KeepBody(body, s.deps) == kept;
      }
    }
  }

  lemma LoadBodyAppend(body: seq<Instr>, i: Instr, args: seq<nat>, base: nat)
    ensures var r := LoadBody(body + [i], args, base);
      r[|body|] == LoadInstr(i, args, base) && r[..|body|] == LoadBody(body, args, base) && |r| == |body| + 1
  {
  }

  /** The two runs entered the block by corresponding edges, or it has no sliced phi. */
  ghost predicate SameEdge(s: Slice, phis: seq<Phi>, cprev: Option<BlockRef>, dprev: Option<BlockRef>) {
    || (cprev.None? && dprev.None?)
    || (cprev.Some? && cprev.value in s.blocks && dprev == Some(CloneOf(cprev.value)))
    || forall p | p in phis :: !s.Has(p.id)
  }

  ghost predicate PhisReady(s: Slice, phis: seq<Phi>) {
    forall p | p in phis && s.Has(p.id) :: forall e | e in p.incoming :: e.0.Orig? && e.0 in s.blocks && Seen(s, e.1)
  }

  /** Cloning and loading the incoming values does not change which one an edge selects. */
  lemma {:induction false} IncomingAgrees(s: Slice, args: seq<nat>, base: nat, inc: seq<(BlockRef, Value)>, b: BlockRef)
    requires b.Orig? && forall e | e in inc :: e.0.Orig? && e.0 in s.blocks
    ensures var r := LoadPhi(Phi(PhiId(0, 0), CloneIncoming(inc, s.blocks)), args, base).incoming;
      Incoming(r, CloneOf(b)) == (match Incoming(inc, b) case Some(v) => Some(LoadValue(v, args, base)) case None => None)
  {
    if inc != [] {
      var r := LoadPhi(Phi(PhiId(0, 0), CloneIncoming(inc, s.blocks)), args, base).incoming;
      IncomingAgrees(s, args, base, inc[1..], b);
      assert r[1..] == LoadPhi(Phi(PhiId(0, 0), CloneIncoming(inc[1..], s.blocks)), args, base).incoming;
    }
  }

  lemma {:induction false} IncomingIsListed(inc: seq<(BlockRef, Value)>, b: BlockRef)
    ensures Incoming(inc, b).Some? ==> (b, Incoming(inc, b).value) in inc
  {
    if inc != [] && inc[0].0 != b {
      IncomingIsListed(inc[1..], b);
    }
  }

  lemma PhiAgrees(s: Slice, args: seq<nat>, base: nat, mem: Mem, cf: Frame, df: Frame, p: Phi,
                  cprev: Option<BlockRef>, dprev: Option<BlockRef>)
    requires Agree(s, args, base, mem, cf, df) && s.Has(p.id) && PhisReady(s, [p]) && SameEdge(s, [p], cprev, dprev)
    requires forall b | b in s.blocks :: b.Orig?
    ensures PhiValue(LoadPhi(ClonePhi(p, s.blocks), args, base), dprev, df) == PhiValue(p, cprev, cf)
  {
    assert p in [p];
    if cprev.Some? {
      IncomingAgrees(s, args, base, p.incoming, cprev.value);
      IncomingIsListed(p.incoming, cprev.value);
      var v := Incoming(p.incoming, cprev.value);
      if v.Some? {
        EvalAgrees(s, args, base, mem, cf, df, v.value);
      }
    }
  }

  ghost predicate EnvAgree(s: Slice, cenv: map<Id, int>, denv: map<Id, int>) {
    forall id | s.Has(id) :: (id in cenv <==> id in denv) && (id in cenv ==> cenv[id] == denv[id])
  }

  lemma {:induction false} PhisAgree(s: Slice, args: seq<nat>, base: nat, mem: Mem, cf: Frame, df: Frame,
                                     phis: seq<Phi>,
                                     cprev: Option<BlockRef>, dprev: Option<BlockRef>)
    requires Agree(s, args, base, mem, cf, df) && PhisReady(s, phis) && SameEdge(s, phis, cprev, dprev)
    requires forall b | b in s.blocks :: b.Orig?
    ensures EnvAgree(s, ExecPhis(phis, cprev, cf),
                     ExecPhis(LoadPhis(ClonePhis(KeepPhis(phis, s.deps), s.blocks), args, base), dprev, df))
  {
    if phis != [] {
      var n := |phis| - 1;
      var init, kept := phis[..n], KeepPhis(phis[..n], s.deps);
      assert forall p | p in init :: p in phis;
      PhisAgree(s, args, base, mem, cf, df, init, cprev, dprev);
      if s.Has(phis[n].id) {
        assert phis[n] in phis;
        assert SameEdge(s, [phis[n]], cprev, dprev);
        PhiAgrees(s, args, base, mem, cf, df, phis[n], cprev, dprev);
        assert KeepPhis(phis, s.deps) == kept + [phis[n]];
        LoadPhisAppend(kept, phis[n], s.blocks, args, base);
      } else {
        assert KeepPhis(phis, s.deps) == kept;
      }
    }
  }

  lemma LoadPhisAppend(phis: seq<Phi>, p: Phi, bbs: set<BlockRef>, args: seq<nat>, base: nat)
    ensures var r := LoadPhis(ClonePhis(phis + [p], bbs), args, base);
      && |r| == |phis| + 1 && r[|phis|] == LoadPhi(ClonePhi(p, bbs), args, base) && r[|phis|].id == p.id
      && r[..|phis|] == LoadPhis(ClonePhis(phis, bbs), args, base)
  {
  }

  /** What running a slice block needs of the slice. */
  ghost predicate BlockReady(s: Slice, blk: Block) {
    && PhisReady(s, blk.phis) && BodyReady(s, blk.body)
    && blk.term.Some? && (forall b | b in s.blocks :: b.Orig?)
  }

  /** A slice block and its clone, entered alike, leave frames that agree; the clone writes nothing. */
  lemma BlockAgrees(ops: Ops, f: Function, s: Slice, args: seq<nat>, base: nat, mem: Mem, b: BlockRef,
                    cf: Frame, df: Frame, cprev: Option<BlockRef>, dprev: Option<BlockRef>, t: Option<Term>)
    requires b in f.blocks && BlockReady(s, f.blocks[b]) && BlockStable(ops, s, mem, f.blocks[b], cprev, cf)
    requires Agree(s, args, base, mem, cf, df) && SameEdge(s, f.blocks[b].phis, cprev, dprev)
    ensures var d := LoadBlock(ClonedBlock(f, s, b).(term := t), args, base);
      var df' := ExecBlock(ops, d, dprev, df);
      Agree(s, args, base, mem, ExecBlock(ops, f.blocks[b], cprev, cf), df') && df' == df.(env := df'.env)
  {
    var blk := f.blocks[b];
    PhisAgree(s, args, base, mem, cf, df, blk.phis, cprev, dprev);
    var c1 := cf.(env := ExecPhis(blk.phis, cprev, cf));
    var d1 := df.(env := ExecPhis(LoadPhis(ClonePhis(KeepPhis(blk.phis, s.deps), s.blocks), args, base), dprev, df));
    assert Agree(s, args, base, mem, c1, d1);
    BodyAgrees(ops, s, args, base, mem, c1, d1, blk.body);
  }

  lemma {:induction false} UnslicedBody(ops: Ops, s: Slice, args: seq<nat>, base: nat, mem: Mem,
                                        cf: Frame, df: Frame, body: seq<Instr>)
    requires Agree(s, args, base, mem, cf, df) && BodyReady(s, body) && forall i | i in body :: !s.Has(i.id)
    ensures Agree(s, args, base, mem, ExecBody(ops, body, cf), df)
  {
    if body != [] {
      var n := |body| - 1;
      assert forall i | i in body[..n] :: i in body;
      UnslicedBody(ops, s, args, base, mem, cf, df, body[..n]);
      assert body[n] in body;
      InstrAgrees(ops, s, args, base, mem, ExecBody(ops, body[..n], cf), df, body[n]);
    }
  }

  lemma {:induction false} UnslicedPhis(s: Slice, phis: seq<Phi>, prev: Option<BlockRef>, cf: Frame)
    requires forall p | p in phis :: !s.Has(p.id)
    ensures EnvAgree(s, ExecPhis(phis, prev, cf), cf.env)
  {
    if phis != [] {
      var n := |phis| - 1;
      assert forall p | p in phis[..n] :: p in phis;
      UnslicedPhis(s, phis[..n], prev, cf);
      assert phis[n] in phis;
    }
  }

  /** A block that holds no sliced instruction changes nothing the slice can see. */
  lemma UnslicedBlock(ops: Ops, s: Slice, args: seq<nat>, base: nat, mem: Mem, blk: Block,
                      prev: Option<BlockRef>, cf: Frame, df: Frame)
    requires Agree(s, args, base, mem, cf, df) && BodyReady(s, blk.body)
    requires (forall p | p in blk.phis :: !s.Has(p.id)) && (forall i | i in blk.body :: !s.Has(i.id))
    ensures Agree(s, args, base, mem, ExecBlock(ops, blk, prev, cf), df)
  {
    UnslicedPhis(s, blk.phis, prev, cf);
    UnslicedBody(ops, s, args, base, mem, cf.(env := ExecPhis(blk.phis, prev, cf)), df, blk.body);
  }
}
