/** Thunk calls and lazy calls can always be given the meaning the theorems ask of them. */
module Meanings {
  import opened Graphs
  import opened Ir
  import opened Machine
  import opened Memoization
  import opened Forcing
  import opened CallByNeed
  import opened Lazyfication
  import opened WholeProgram

  /** What the operations mean: the lazy form of `k` calls `clone`, and a thunk call runs `e`. */
  ghost predicate Means(ops: Ops, k: nat, clone: Function, e: Function) {
    && |clone.order| > 0 && |e.order| > 0 && LazyCallMeans(ops, k, clone) && ThunkCallMeans(ops, e)
  }

  /** How a run ends, if it does. */
  ghost function EndOf(ops: Ops, f: Function, st: State): Outcome {
    if n: nat :| Run(ops, f, Running(st), n).Finished? then Run(ops, f, Running(st), n) else Wrong
  }

  lemma {:induction false} EndIs(ops: Ops, f: Function, st: State, n: nat)
    requires Run(ops, f, Running(st), n).Finished?
    ensures EndOf(ops, f, st) == Run(ops, f, Running(st), n)
  {
    hide Run;
    forall m: nat | Run(ops, f, Running(st), m).Finished?
      ensures Run(ops, f, Running(st), m) == Run(ops, f, Running(st), n)
    {
      FinishedStays(ops, f, Running(st), n, m);
    }
  }

  // ---- runs that do not use what is changed ----

  /** The two give the same meaning to everything but lazy calls, and to thunk calls unless `forces` is false. */
  ghost predicate Alike(ops: Ops, ops': Ops, forces: bool) {
    && ops'.memo == ops.memo && ops'.fptr == ops.fptr && ops'.value == ops.value && ops'.effect == ops.effect
    && (forces ==> ops'.delegate == ops.delegate)
  }

  ghost predicate Uses(f: Function, forces: bool) {
    forall b, i | b in f.blocks && i in f.blocks[b].body :: !i.op.LazyCall? && (i.op.Force? ==> forces)
  }

  lemma {:induction false} SameBody(ops: Ops, ops': Ops, forces: bool, body: seq<Instr>, fr: Frame)
    requires Alike(ops, ops', forces) && forall i | i in body :: !i.op.LazyCall? && (i.op.Force? ==> forces)
    ensures ExecBody(ops', body, fr) == ExecBody(ops, body, fr)
  {
    if body != [] {
      var n := |body| - 1;
      assert body[n] in body && forall i | i in body[..n] :: i in body;
      SameBody(ops, ops', forces, body[..n], fr);
    }
  }

  lemma {:induction false} SameRun(ops: Ops, ops': Ops, forces: bool, f: Function, o: Outcome, n: nat)
    requires Alike(ops, ops', forces) && Uses(f, forces)
    ensures Run(ops', f, o, n) == Run(ops, f, o, n)
    decreases n
  {
    if n > 0 && o.Running? {
      SameStep(ops, ops', forces, f, o.st);
      hide Step, Alike, Uses;
      SameRun(ops, ops', forces, f, Step(ops, f, o.st), n - 1);
    }
  }

  lemma SameStep(ops: Ops, ops': Ops, forces: bool, f: Function, st: State)
    requires Alike(ops, ops', forces) && Uses(f, forces)
    ensures Step(ops', f, st) == Step(ops, f, st)
  {
    if st.block in f.blocks {
      SameBody(ops, ops', forces, f.blocks[st.block].body, st.frame.(env := ExecPhis(f.blocks[st.block].phis, st.prev, st.frame)));
      hide ExecBody, ExecPhis, Alike, Uses;
    }
  }

  // ---- thunk calls ----

  /** A thunk call runs the delegate. */
  ghost function WithDelegate(ops: Ops, d: Function): (ops': Ops)
    requires |d.order| > 0
    ensures Alike(ops, ops', false)
  {
    ops.(delegate := (slots: seq<int>, m: Mem) => DelegateValue(ops, d, slots, m))
  }

  ghost function DelegateValue(ops: Ops, d: Function, slots: seq<int>, m: Mem): int
    requires |d.order| > 0
  {
    var o := EndOf(ops, d, Start(d, Fresh([], m, slots)));
    if o.Finished? then o.value else 0
  }

  lemma DelegateUses(d: Function, home: BlockRef, v: Value)
    requires Delegated(d, home, v)
    ensures |d.order| > 0 && home in d.blocks && Uses(d, false) && Uses(Memoized(d, home, v), false)
  {
    var m := Memoized(d, home, v);
    forall b, i | b in m.blocks && i in m.blocks[b].body
      ensures !i.op.LazyCall? && !i.op.Force?
    {
      if b == home {
        assert i in d.blocks[home].body || i.op.MemoStore?;
      } else if b in d.blocks && b != MemoEntry && b != MemoRet {
        assert i in d.blocks[b].body;
      }
    }
  }

  /** The run of a delegate leaves the thunk as it is. */
  lemma {:induction false} RunKeepsSlots(ops: Ops, d: Function, home: BlockRef, v: Value, o: Outcome, n: nat)
    requires Delegated(d, home, v) && o.Running?
    ensures var o' := Run(ops, d, o, n);
      (o'.Running? ==> o'.st.frame.slots == o.st.frame.slots) && (o'.Finished? ==> o'.frame.slots == o.st.frame.slots)
    decreases n
  {
    if n > 0 {
      StepKeepsSlots(ops, d, home, v, o.st);
      hide Delegated, Step;
      var o1 := Step(ops, d, o.st);
      if o1.Running? {
        RunKeepsSlots(ops, d, home, v, o1, n - 1);
      }
    }
  }

  lemma StepKeepsSlots(ops: Ops, d: Function, home: BlockRef, v: Value, st: State)
    requires Delegated(d, home, v)
    ensures var o := Step(ops, d, st);
      (o.Running? ==> o.st.frame.slots == st.frame.slots) && (o.Finished? ==> o.frame.slots == st.frame.slots)
  {
    if st.block in d.blocks {
      FnKeepsSlots(ops, d.blocks[st.block].body, st.frame.(env := ExecPhis(d.blocks[st.block].phis, st.prev, st.frame)));
      hide Delegated, ExecBody, ExecPhis;
    }
  }

  /** One thunk call, against the run of the function that was emitted for it. */
  lemma {:induction false} ThunkCallIs(ops: Ops, d: Function, home: BlockRef, v: Value, slots: seq<int>, m: Mem, n: nat)
    requires Delegated(d, home, v) && |d.order| > 0 && home in d.blocks && |slots| >= EnvBase(ops.memo)
    ensures var e, ops' := Emitted(ops.memo, d, home, v), WithDelegate(ops, d);
      var o := Run(ops, e, Running(Start(e, Fresh([], m, slots))), n);
      o.Finished? ==> ForceSlots(ops', slots, m) == (o.value, o.frame.slots)
  {
    var fr := Fresh([], m, slots);
    var e := Emitted(ops.memo, d, home, v);
    var o := Run(ops, e, Running(Start(e, fr)), n);
    if o.Finished? {
      if ops.memo {
        MemoizedIs(ops, d, home, v, fr, n);
      } else {
        EndIs(ops, d, Start(d, fr), n);
        hide Delegated, Run;
        RunKeepsSlots(ops, d, home, v, Running(Start(d, fr)), n);
      }
    }
  }

  lemma {:induction false} MemoizedIs(ops: Ops, d: Function, home: BlockRef, v: Value, fr: Frame, n: nat)
    requires Delegated(d, home, v) && |d.order| > 0 && home in d.blocks && ops.memo && |fr.slots| >= 3
    requires fr == Fresh([], fr.mem, fr.slots)
    requires Run(ops, Memoized(d, home, v), Running(Start(Memoized(d, home, v), fr)), n).Finished?
    ensures var o := Run(ops, Memoized(d, home, v), Running(Start(Memoized(d, home, v), fr)), n);
      ForceSlots(WithDelegate(ops, d), fr.slots, fr.mem) == (o.value, o.frame.slots)
  {
    var e := Memoized(d, home, v);
    var st := Start(e, fr);
    CheckRuns(ops, d, home, v, fr);
    if fr.slots[2] != 0 {
      hide Delegated, Memoized, Run;
      FinishedStays(ops, e, Running(st), n, 2);
    } else {
      var ds, ms := Start(d, fr), State(d.order[0], Some(MemoEntry), fr);
      assert n > 0 && d.order[0] in d.blocks;
      assert SamePlace(ds, ms);
      hide Delegated, Memoized, Run, Step, SamePlace;
      RunOn(ops, e, Running(st), 1, n - 1);
      EntryApart(d, home, v);
      FinishesAlike(ops, d, home, v, ds, ms, n - 1);
      RunsAlike(ops, d, home, v, ds, ms, n - 1);
      EndIs(ops, d, ds, n - 1);
    }
  }

  lemma EntryApart(d: Function, home: BlockRef, v: Value)
    requires Delegated(d, home, v)
    ensures |d.order| > 0 && d.order[0] in d.blocks && d.order[0] != MemoEntry && d.order[0] != MemoRet
  {
  }

  // ---- lazy calls ----

  /** The lazy form of `k` runs `c`. */
  ghost function WithLazy(ops: Ops, k: nat, c: Function): (ops': Ops)
    requires |c.order| > 0
    ensures Alike(ops, ops', true)
  {
    ops.(lazy := (j: nat, vs: seq<int>, slots: seq<int>, m: Mem) => if j == k then LazyResult(ops, c, vs, slots, m) else ops.lazy(j, vs, slots, m))
  }

  ghost function LazyResult(ops: Ops, c: Function, vs: seq<int>, slots: seq<int>, m: Mem): (int, Mem, seq<int>)
    requires |c.order| > 0
  {
    var o := EndOf(ops, c, Start(c, Fresh(vs, m, slots)));
    if o.Finished? then (o.value, o.frame.mem, o.frame.slots) else (0, m, slots)
  }

  lemma {:induction false} WovenUses(body: seq<Instr>, calls: map<Id, seq<nat>>, target: Value)
    requires forall i | i in body :: i.op.Fn?
    ensures forall i | i in Weave(body, calls, target) :: !i.op.LazyCall?
  {
    if body != [] {
      var n := |body| - 1;
      assert body[n] in body && forall i | i in body[..n] :: i in body;
      WovenUses(body[..n], calls, target);
      var fs := ForcesFor(body[n].id, CallsOf(calls, body[n].id));
      assert forall i | i in fs :: i.op.Force?;
      hide Weave, CallsOf, ForcesFor;
      WovenStep(body, calls, target);
    }
  }

  lemma {:induction false} WovenStep(body: seq<Instr>, calls: map<Id, seq<nat>>, target: Value)
    requires body != []
    ensures var n := |body| - 1;
      Weave(body, calls, target) == Weave(body[..n], calls, target) + ForcesFor(body[n].id, CallsOf(calls, body[n].id)) + [ForcedInstr(body[n], target)]
  {
  }

  lemma CloneUses(callee: Function, target: Value, clone: Function)
    requires WellFormed(callee) && ForcedClone(callee, target, clone)
    ensures Uses(clone, true)
  {
    var calls, tails :| IsForced(callee, target, calls, tails, clone);
    hide CallsExact, TailsExact, Weave, TailForces;
    forall b, i | b in clone.blocks && i in clone.blocks[b].body
      ensures !i.op.LazyCall?
    {
      FnBodies(callee, b);
      assert b.Orig? by { assert Shaped(callee); }
      var woven := Weave(callee.blocks[b].body, calls, target);
      WovenUses(callee.blocks[b].body, calls, target);
      TailsForce(tails[b]);
      assert clone.blocks[b].body == woven + TailForces(tails[b]);
    }
  }

  lemma TailsForce(tail: seq<Use>)
    ensures forall i | i in TailForces(tail) :: i.op.Force?
  {
  }

  // ---- both ----

  /** Whatever the other operations mean, and whether thunks keep their value or not: thunk calls can be given the
      meaning of the function that was emitted for the thunk, and lazy calls that of the clone. */
  lemma MeaningsExist(ops: Ops, k: nat, callee: Function, x: nat, clone: Function, d: Function, home: BlockRef, v: Value) returns (ops': Ops)
    requires Delegated(d, home, v) && |d.order| > 0 && home in d.blocks
    requires WellFormed(callee) && ForcedClone(callee, Arg(x), clone) && |clone.order| > 0
    ensures ops' == ops.(delegate := ops'.delegate, lazy := ops'.lazy)
    ensures Means(ops', k, clone, Emitted(ops.memo, d, home, v))
  {
    hide *;
    var ops1 := WithDelegate(ops, d);
    ops' := WithLazy(ops1, k, clone);
    OnlyThese(ops, d, k, clone);
    DelegateUses(d, home, v);
    CloneUses(callee, Arg(x), clone);
    ThunkCallsMean(ops, ops', d, home, v);
    LazyCallsMean(ops1, k, clone);
    BothMean(ops', k, clone, Emitted(ops.memo, d, home, v));
  }

  lemma OnlyThese(ops: Ops, d: Function, k: nat, clone: Function)
    requires |d.order| > 0 && |clone.order| > 0
    ensures var ops1 := WithDelegate(ops, d);
      var ops' := WithLazy(ops1, k, clone);
      && ops' == ops.(delegate := ops'.delegate, lazy := ops'.lazy) && ops'.memo == ops.memo
      && Alike(ops, ops', false) && Alike(ops1, ops', true)
  {
  }

  lemma BothMean(ops: Ops, k: nat, clone: Function, e: Function)
    requires |clone.order| > 0 && |e.order| > 0 && LazyCallMeans(ops, k, clone) && ThunkCallMeans(ops, e)
    ensures Means(ops, k, clone, e)
  {
    hide LazyCallMeans, ThunkCallMeans;
  }

  lemma {:induction false} ThunkCallsMean(ops: Ops, ops': Ops, d: Function, home: BlockRef, v: Value)
    requires Delegated(d, home, v) && |d.order| > 0 && home in d.blocks && Uses(d, false) && Uses(Memoized(d, home, v), false)
    requires Alike(ops, ops', false) && Alike(WithDelegate(ops, d), ops', true)
    ensures ThunkCallMeans(ops', Emitted(ops.memo, d, home, v))
  {
    var e := Emitted(ops.memo, d, home, v);
    hide Delegated, Run, Memoized, Uses, WithDelegate, ForceSlots, Start, Fresh;
    forall slots, m, n: nat | |slots| >= EnvBase(ops.memo)
      ensures var o := Run(ops', e, Running(Start(e, Fresh([], m, slots))), n);
        o.Finished? ==> ForceSlots(ops', slots, m) == (o.value, o.frame.slots)
    {
      SameRun(ops, ops', false, e, Running(Start(e, Fresh([], m, slots))), n);
      ThunkCallIs(ops, d, home, v, slots, m, n);
      SameForce(WithDelegate(ops, d), ops', slots, m);
    }
  }

  lemma {:induction false} LazyCallsMean(ops: Ops, k: nat, clone: Function)
    requires |clone.order| > 0 && Uses(clone, true)
    ensures LazyCallMeans(WithLazy(ops, k, clone), k, clone)
  {
    var ops' := WithLazy(ops, k, clone);
    hide Run, Uses, Start, Fresh, EndOf;
    forall vs, m, slots, n: nat
      ensures var o := Run(ops', clone, Running(Start(clone, Fresh(vs, m, slots))), n);
        o.Finished? ==> ops'.lazy(k, vs, slots, m) == (o.value, o.frame.mem, o.frame.slots)
    {
      SameRun(ops, ops', true, clone, Running(Start(clone, Fresh(vs, m, slots))), n);
      if Run(ops, clone, Running(Start(clone, Fresh(vs, m, slots))), n).Finished? {
        EndIs(ops, clone, Start(clone, Fresh(vs, m, slots)), n);
      }
      assert ops'.lazy(k, vs, slots, m) == LazyResult(ops, clone, vs, slots, m);
    }
  }

  lemma SameForce(ops: Ops, ops': Ops, slots: seq<int>, m: Mem)
    requires Alike(ops, ops', true)
    ensures ForceSlots(ops', slots, m) == ForceSlots(ops, slots, m)
  {
  }
}
