/** The parameters of what the passes make: clones and lazified callers keep theirs, a delegate has none. */
module Parameters {
  import opened Graphs
  import opened Ir
  import opened Slices
  import opened Dependences
  import opened Delegates
  import opened Forcing
  import opened CallByNeed
  import opened CallerSide
  import opened Lazyfication
  import opened Gates
  import opened Outliner
  import opened Rerouting
  import opened Terminators

  /** Every value that stands somewhere in a block. */
  ghost predicate StandsIn(blk: Block, v: Value) {
    || (exists i :: i in blk.body && v in i.args)
    || (exists p, e :: p in blk.phis && e in p.incoming && e.1 == v)
    || (blk.term.Some? && v in blk.term.value.Values())
  }

  lemma {:induction false} WovenArgs(body: seq<Instr>, calls: map<Id, seq<nat>>, target: Value, i: Instr, v: Value)
    requires i in Weave(body, calls, target) && v in i.args && v.Arg?
    ensures exists x :: x in body && v in x.args
  {
    var n := |body| - 1;
    if i in Weave(body[..n], calls, target) {
      WovenArgs(body[..n], calls, target, i, v);
      var x :| x in body[..n] && v in x.args;
      assert x in body;
    } else {
      assert i !in ForcesFor(body[n].id, CallsOf(calls, body[n].id));
      assert i == ForcedInstr(body[n], target);
      assert body[n] in body && v in body[n].args;
    }
  }

  /** No parameter stands in a rewritten block that did not stand there before. */
  lemma ForcedBlockArgs(b: nat, blk: Block, calls: map<Id, seq<nat>>, tail: seq<Use>, target: Value, v: Value)
    requires StandsIn(ForcedBlock(b, blk, calls, tail, target), v) && v.Arg?
    ensures StandsIn(blk, v)
  {
    var c := ForcedBlock(b, blk, calls, tail, target);
    hide Weave;
    if i :| i in c.body && v in i.args {
      assert i !in TailForces(tail);
      hide ForcedPhis, ForcedTerm;
      WovenArgs(blk.body, calls, target, i, v);
    } else if p, e :| p in c.phis && e in p.incoming && e.1 == v {
      hide Weave, TailForces, ForcedTerm;
      var k :| 0 <= k < |c.phis| && c.phis[k] == p;
      var j :| 0 <= j < |p.incoming| && p.incoming[j] == e;
      assert blk.phis[k] in blk.phis && blk.phis[k].incoming[j] in blk.phis[k].incoming && blk.phis[k].incoming[j].1 == v;
    } else {
      hide Weave, TailForces, ForcedPhis;
    }
  }

  lemma GoodArgs(f: Function, b: BlockRef, v: Value)
    requires WellFormed(f) && b in f.blocks && StandsIn(f.blocks[b], v) && v.Arg?
    ensures v.a < f.nargs
  {
    var blk := f.blocks[b];
    assert GoodBlock(f, b.b);
    var id := OperandHolder(f, b, v);
    assert GoodValue(f, v);
  }

  lemma OperandHolder(f: Function, b: BlockRef, v: Value) returns (id: Id)
    requires b in f.blocks && b.Orig? && StandsIn(f.blocks[b], v)
    ensures HasInst(f, id) && v in Operands(f, id)
  {
    var blk := f.blocks[b];
    if i :| i in blk.body && v in i.args {
      var k :| 0 <= k < |blk.body| && blk.body[k] == i;
      id := BodyId(b.b, k);
    } else if p, e :| p in blk.phis && e in p.incoming && e.1 == v {
      var k :| 0 <= k < |blk.phis| && blk.phis[k] == p;
      var j :| 0 <= j < |p.incoming| && p.incoming[j] == e;
      id := PhiId(b.b, k);
      assert IncomingValues(p.incoming)[j] == v;
    } else {
      id := TermId(b.b);
    }
  }

  lemma ForcedAt(f: Function, target: Value, calls: map<Id, seq<nat>>, tails: map<BlockRef, seq<Use>>, c: Function, b: BlockRef)
    requires IsForced(f, target, calls, tails, c) && b in c.blocks && b.Orig?
    ensures c.nargs == f.nargs && c.order == f.order && c.blocks.Keys == f.blocks.Keys && b in f.blocks && b in tails
    ensures c.blocks[b] == ForcedBlock(b.b, f.blocks[b], calls, tails[b], target)
  {
    hide CallsExact, TailUse, ForcedBlock;
  }

  /** The clone of a callee has all its parameters, and reads no others. */
  lemma CloneKeepsParameters(callee: Function, index: nat, clone: Function, b: BlockRef, v: Value)
    requires WellFormed(callee) && ForcedClone(callee, Arg(index), clone)
    requires b in clone.blocks && StandsIn(clone.blocks[b], v) && v.Arg?
    ensures clone.nargs == callee.nargs && v.a < clone.nargs && v != Arg(index)
  {
    var calls, tails :| IsForced(callee, Arg(index), calls, tails, clone);
    assert b in callee.blocks && b.Orig?;
    hide *;
    ForcedAt(callee, Arg(index), calls, tails, clone, b);
    ForcedBlockArgs(b.b, callee.blocks[b], calls, tails[b], Arg(index), v);
    NoUseLeft(b.b, callee.blocks[b], calls, tails[b], Arg(index), v);
    GoodArgs(callee, b, v);
  }

  lemma {:induction false} WovenForced(body: seq<Instr>, calls: map<Id, seq<nat>>, target: Value, i: Instr)
    requires i in Weave(body, calls, target) && !target.Res?
    ensures target !in i.args
  {
    var n := |body| - 1;
    if i in Weave(body[..n], calls, target) {
      WovenForced(body[..n], calls, target, i);
    } else {
      assert i !in ForcesFor(body[n].id, CallsOf(calls, body[n].id)) || i.args == [];
    }
  }

  /** The value that became a thunk is not read any more. */
  lemma NoUseLeft(b: nat, blk: Block, calls: map<Id, seq<nat>>, tail: seq<Use>, target: Value, v: Value)
    requires StandsIn(ForcedBlock(b, blk, calls, tail, target), v) && target.Arg?
    ensures v != target
  {
    var c := ForcedBlock(b, blk, calls, tail, target);
    if i :| i in c.body && v in i.args {
      assert i !in TailForces(tail);
      WovenForced(blk.body, calls, target, i);
    } else if p, e :| p in c.phis && e in p.incoming && e.1 == v {
      hide Weave, TailForces, ForcedTerm;
      var k :| 0 <= k < |c.phis| && c.phis[k] == p;
      var j :| 0 <= j < |p.incoming| && p.incoming[j] == e;
    } else {
      hide Weave, TailForces, ForcedPhis;
    }
  }

  // ---- the lazified caller ----

  lemma LazyBodyArgs(body: seq<Instr>, a: Site, here: bool, i: Instr, v: Value)
    requires i in LazyBody(body, a, here) && v in i.args && v.Arg?
    ensures v.a in a.envArgs || exists x :: x in body && v in x.args
  {
    var r := PassThunkAll(body, a);
    if i in r {
      var k :| 0 <= k < |r| && r[k] == i;
      assert body[k] in body && v in body[k].args;
    } else {
      assert i == InitInstr(a);
    }
  }

  lemma WithThunkArgs(f: Function, a: Site, b: BlockRef, v: Value)
    requires b in f.blocks && StandsIn(WithThunk(f, a).blocks[b], v) && v.Arg?
    ensures v.a in a.envArgs || StandsIn(f.blocks[b], v)
  {
    var blk := WithThunk(f, a).blocks[b];
    if i :| i in blk.body && v in i.args {
      LazyBodyArgs(f.blocks[b].body, a, b == Parent(a.crit), i, v);
    }
  }

  lemma ForcedOf(f: Function, a: Site, calls: map<Id, seq<nat>>, tails: map<BlockRef, seq<Use>>, c: Function)
    requires Forced(f, a, calls, tails, c)
    ensures IsForced(WithThunk(f, a), Res(a.crit), calls, tails, c)
    ensures WithThunk(f, a).nargs == f.nargs && WithThunk(f, a).blocks.Keys == f.blocks.Keys && c.blocks.Keys == f.blocks.Keys
  {
    hide CallsExact, TailsExact, ForcedBlock, LazyBody;
  }

  /** So has a lazified caller: what stands in it are its own parameters. */
  lemma CallerKeepsParameters(f: Function, an: Analyses, a: Site, memo: bool, s: Slice, d: Function, e: Function, c: Function,
                              b: BlockRef, v: Value)
    requires WellFormed(f) && Lazified(f, an, a, memo, s, d, e, c) && b in c.blocks && StandsIn(c.blocks[b], v) && v.Arg?
    ensures c.nargs == f.nargs && v.a < c.nargs
  {
    var calls, tails :| Forced(f, a, calls, tails, c);
    EnvIsKnown(f, an, a, s);
    hide *;
    ForcedOf(f, a, calls, tails, c);
    OriginalBlocks(f, b);
    ForcedAt(WithThunk(f, a), Res(a.crit), calls, tails, c, b);
    ForcedBlockArgs(b.b, WithThunk(f, a).blocks[b], calls, tails[b], Res(a.crit), v);
    WithThunkArgs(f, a, b, v);
    if v.a !in a.envArgs {
      GoodArgs(f, b, v);
    }
  }

  lemma OriginalBlocks(f: Function, b: BlockRef)
    requires WellFormed(f)
    ensures b in f.blocks ==> b.Orig?
  {
  }

  lemma EnvIsKnown(f: Function, an: Analyses, a: Site, s: Slice)
    requires IsSlice(f, an.exit, an.preds, s) && Enumerates(a.envArgs, DepArgs(s.deps))
    ensures forall x | x in a.envArgs :: x < f.nargs
  {
    forall x | x in a.envArgs
      ensures x < f.nargs
    {
      assert x in DepArgs(s.deps);
      assert Arg(x) in s.deps && Known(f, Arg(x));
    }
  }

  // ---- the delegate ----

  lemma SlicedOperand(f: Function, gates: GateMap, crit: Value, deps: set<Value>, args: seq<nat>, id: Id, v: Value)
    requires Least(f, gates, crit, deps) && Enumerates(args, DepArgs(deps))
    requires HasInst(f, id) && Res(id) in deps && v in Operands(f, id) && v.Arg?
    ensures v.a in args
  {
    hide Operands, HasInst;
    assert OperandOf(f, Res(id), v) && Needs(f, gates, Res(id), v);
    assert v in deps && v.a in DepArgs(deps);
  }

  lemma LoadedSlot(args: seq<nat>, base: nat, v: Value)
    requires v.Arg? ==> v.a in args
    ensures var w := LoadValue(v, args, base); !w.Arg? && (w.Field? ==> v.Field? || base <= w.k < base + |args|)
  {
  }

  lemma GoodOperandIs(f: Function, id: Id, v: Value)
    requires WellFormed(f) && HasInst(f, id) && v in Operands(f, id)
    ensures !v.Field?
  {
    assert GoodValue(f, v);
  }

  lemma LoadedFrom(blk: Block, args: seq<nat>, base: nat, w: Value) returns (v: Value)
    requires StandsIn(LoadBlock(blk, args, base), w)
    ensures StandsIn(blk, v) && w == LoadValue(v, args, base)
  {
    var c := LoadBlock(blk, args, base);
    hide LoadValue;
    if i :| i in c.body && w in i.args {
      hide LoadPhis, LoadTerm;
      var k :| 0 <= k < |c.body| && c.body[k] == i;
      var j :| 0 <= j < |i.args| && i.args[j] == w;
      v := blk.body[k].args[j];
      assert blk.body[k] in blk.body && v in blk.body[k].args;
    } else if p, e :| p in c.phis && e in p.incoming && e.1 == w {
      hide LoadBody, LoadTerm;
      var k :| 0 <= k < |c.phis| && c.phis[k] == p;
      var j :| 0 <= j < |p.incoming| && p.incoming[j] == e;
      v := blk.phis[k].incoming[j].1;
      assert blk.phis[k] in blk.phis && blk.phis[k].incoming[j] in blk.phis[k].incoming;
    } else {
      hide LoadBody, LoadPhis;
      v := blk.term.value.Values()[0];
    }
  }

  lemma {:induction false} KeptInstr(body: seq<Instr>, deps: set<Value>)
    ensures forall i :: i in KeepBody(body, deps) <==> i in body && Res(i.id) in deps
  {
    if body != [] {
      KeptInstr(body[..|body| - 1], deps);
      assert body == body[..|body| - 1] + [body[|body| - 1]];
    }
  }

  /** What stands in a clone before parameters are loaded is an operand of something sliced, or of its terminator. */
  lemma ClonedFrom(f: Function, s: Slice, b: BlockRef, t: Option<Term>, v: Value) returns (id: Id)
    requires WellFormed(f) && b in f.blocks && StandsIn(ClonedBlock(f, s, b).(term := t), v)
    ensures (t.Some? && v in t.value.Values()) || (HasInst(f, id) && Res(id) in s.deps && v in Operands(f, id))
  {
    assert GoodBlock(f, b.b);
    hide WellFormed;
    var c := ClonedBlock(f, s, b);
    id := s.crit;
    if i :| i in c.body && v in i.args {
      KeptInstr(f.blocks[b].body, s.deps);
      hide KeepBody, ClonePhis, KeepPhis;
      id := i.id;
    } else if p, e :| p in c.phis && e in p.incoming && e.1 == v {
      id := ClonedPhiFrom(f, s, b, p, e);
    }
  }

  lemma ClonedPhiFrom(f: Function, s: Slice, b: BlockRef, p: Phi, e: (BlockRef, Value)) returns (id: Id)
    requires b in f.blocks && b.Orig? && GoodBlock(f, b.b) && p in ClonedBlock(f, s, b).phis && e in p.incoming
    ensures HasInst(f, id) && Res(id) in s.deps && e.1 in Operands(f, id)
  {
    var kept := KeepPhis(f.blocks[b].phis, s.deps);
    KeptPhi(f.blocks[b].phis, s.deps);
    hide KeepPhis, KeepBody;
    var k :| 0 <= k < |kept| && ClonePhis(kept, s.blocks)[k] == p;
    var j :| 0 <= j < |p.incoming| && p.incoming[j] == e;
    assert kept[k] in kept;
    id := kept[k].id;
    assert IncomingValues(kept[k].incoming)[j] == e.1;
  }

  lemma ReroutedValues(f: Function, s: Slice, b: BlockRef, t: Term, v: Value)
    requires b in f.blocks && |f.order| > 0 && f.blocks[b].term.Some? && Rerouted(f, s, b, Some(t)) && v in t.Values()
    ensures s.Ends(b) && HasInst(f, TermId(b.b)) && v in Operands(f, TermId(b.b))
  {
    FallbackBranches(s.attractors, f.blocks[b].term.value.BranchTargets());
    hide DomBranchOf, TargetsOf, Fallback;
  }

  /** No parameter stands in what is built of a slice: it reads slots of its thunk, one for each parameter in the slice. */
  lemma DelegateReadsSlots(f: Function, exit: BlockRef, preds: map<BlockRef, seq<Edge>>, s: Slice, args: seq<nat>, base: nat,
                           bs: map<BlockRef, Block>, r: BlockRef, w: Value)
    requires IsSlice(f, exit, preds, s) && WellFormed(f) && Shaped(f) && s.blocks <= f.blocks.Keys
    requires IsBuilt(f, s, args, base, bs) && Enumerates(args, DepArgs(s.deps)) && r in bs && StandsIn(bs[r], w)
    ensures !w.Arg? && (w.Field? ==> base <= w.k < base + |args|)
  {
    hide *;
    var b := BuiltBlock(f, s, args, base, bs, r);
    if r == Dead {
      DeadHoldsNothing(f, s, args, base, bs, w);
    } else {
      var t := CloneForm(f, s, args, base, b, bs[r]);
      var v := LoadedFrom(ClonedBlock(f, s, b).(term := t), args, base, w);
      var id := ClonedFrom(f, s, b, t, v);
      SliceLeast(f, exit, preds, s);
      if t.Some? && v in t.value.Values() {
        if b == s.Home() {
          RetHolds(s.crit, v);
        } else {
          ReroutedValues(f, s, b, t.value, v);
          EndsIs(s, b);
          OperandLoads(f, s, args, base, TermId(b.b), v);
        }
      } else {
        OperandLoads(f, s, args, base, id, v);
      }
      LoadedSlot(args, base, v);
    }
  }

  lemma OperandLoads(f: Function, s: Slice, args: seq<nat>, base: nat, id: Id, v: Value)
    requires WellFormed(f) && Least(f, s.gates, Res(s.crit), s.deps) && Enumerates(args, DepArgs(s.deps))
    requires HasInst(f, id) && Res(id) in s.deps && v in Operands(f, id)
    ensures (v.Arg? ==> v.a in args) && !v.Field?
  {
    hide *;
    GoodOperandIs(f, id, v);
    if v.Arg? {
      SlicedOperand(f, s.gates, Res(s.crit), s.deps, args, id, v);
    }
  }

  lemma EndsIs(s: Slice, b: BlockRef)
    requires s.Ends(b)
    ensures b.Orig? && Res(TermId(b.b)) in s.deps
  {
  }

  lemma RetHolds(crit: Id, v: Value)
    requires v in Ret(Res(crit)).Values()
    ensures v == Res(crit)
  {
  }

  lemma SliceLeast(f: Function, exit: BlockRef, preds: map<BlockRef, seq<Edge>>, s: Slice)
    requires IsSlice(f, exit, preds, s)
    ensures Least(f, s.gates, Res(s.crit), s.deps)
  {
    hide Least, Flowing, ValidPreds, GatesOf, BlocksOf;
  }

  lemma DeadHoldsNothing(f: Function, s: Slice, args: seq<nat>, base: nat, bs: map<BlockRef, Block>, w: Value)
    requires Shaped(f) && s.blocks <= f.blocks.Keys && IsBuilt(f, s, args, base, bs) && Dead in bs
    ensures !StandsIn(bs[Dead], w)
  {
    hide CloneIs, SomeDeadTarget;
  }
}
