/** The delegate, the clone of the callee and the rewritten caller together: the program that passes a
    thunk against the program that passes the value. */
module WholeProgram {
  import opened Graphs
  import opened Ir
  import opened Gates
  import opened Slices
  import opened Delegates
  import opened SliceFacts
  import opened Rerouting
  import opened Machine
  import opened Simulation
  import opened RunSimulation
  import opened Delegation
  import opened Memoization
  import opened Thunks
  import opened Forcing
  import opened CallByNeed
  import opened CallerSide
  import opened HomeBlock
  import opened CallerRuns

  // ---- the operations mean what the functions behind them do ----

  function Fresh(args: seq<int>, mem: Mem, slots: seq<int>): Frame {
    Frame(args, map[], mem, slots)
  }

  /** Calling through a thunk that points to the function `e` runs it. */
  ghost predicate ThunkCallMeans(ops: Ops, e: Function)
    requires |e.order| > 0
  {
    forall slots, m, n: nat | |slots| >= EnvBase(ops.memo) && slots[0] == ops.fptr ::
      var o := Run(ops, e, Running(Start(e, Fresh([], m, slots))), n);
      o.Finished? ==> ForceSlots(ops, slots, m) == (o.value, o.frame.slots)
  }

  /** This call of operation `k` is a run of `f`, which finishes. */
  ghost predicate CallRuns(ops: Ops, k: nat, f: Function, vs: seq<int>, m: Mem)
    requires |f.order| > 0
  {
    exists n: nat :: RunIs(Run(ops, f, Running(Start(f, Fresh(vs, m, []))), n), ops.value(k, vs, m), ops.effect(k, vs, m))
  }

  ghost predicate RunIs(o: Outcome, v: int, m: Mem) {
    o.Finished? && o.value == v && o.frame.mem == m
  }

  /** Calling its clone runs `c`, which may also change the thunk it is passed. */
  ghost predicate LazyCallMeans(ops: Ops, k: nat, c: Function)
    requires |c.order| > 0
  {
    forall vs, m, slots, n: nat :: var o := Run(ops, c, Running(Start(c, Fresh(vs, m, slots))), n);
      o.Finished? ==> ops.lazy(k, vs, slots, m) == (o.value, o.frame.mem, o.frame.slots)
  }

  // ---- the clone honours the thunk ----

  /** `clone` is the clone of `callee` for parameter `x`, and the lazy form of operation `k` runs it. */
  ghost predicate GoodCallee(ops: Ops, k: nat, x: nat, callee: Function,
                             calls: map<Id, seq<nat>>, tails: map<BlockRef, seq<Use>>, clone: Function)
  {
    && WellFormed(callee) && IsForced(callee, Arg(x), calls, tails, clone)
    && |callee.order| > 0 && |clone.order| > 0 && LazyCallMeans(ops, k, clone)
  }

  /** The thunk as it lives in a callee it is passed to. */
  ghost function LifeIn(w: Life, p: Passing): Life {
    Life(Arg(p.x), w.env, w.v, w.fit, iset {}, iset {}, p.kept)
  }

  function CallStart(w: Life, p: Passing, callee: Function): State
    requires |callee.order| > 0 && p.x < |p.vs|
  {
    Start(callee, Fresh(p.vs[p.x := w.v], p.m, []))
  }

  /** This call of the callee finishes, and wherever it is about to use the argument the memory fits or the thunk
      has kept its value. */
  ghost predicate CallServed(ops: Ops, w: Life, p: Passing, callee: Function)
    requires |callee.order| > 0
  {
    p.x < |p.vs| && CallRuns(ops, p.k, callee, p.vs[p.x := w.v], p.m)
    && RunUses(ops, LifeIn(w, p), callee, callee, CallStart(w, p, callee))
  }

  /** When it has finished the thunk has kept its value. */
  ghost predicate CallKeeps(ops: Ops, w: Life, p: Passing, callee: Function)
    requires |callee.order| > 0
  {
    p.x < |p.vs| && exists n: nat :: KeepsBy(ops, w, p, callee, n)
  }

  ghost predicate KeepsBy(ops: Ops, w: Life, p: Passing, callee: Function, n: nat)
    requires |callee.order| > 0 && p.x < |p.vs|
  {
    && Run(ops, callee, Running(CallStart(w, p, callee)), n).Finished?
    && RunAfter(ops, LifeIn(w, p), callee, callee, Running(CallStart(w, p, callee)), n).kept
  }

  /** A run that has finished stays so. */
  lemma {:induction false} FinishedStays(ops: Ops, f: Function, o: Outcome, n: nat, m: nat)
    requires Run(ops, f, o, n).Finished? && Run(ops, f, o, m).Finished?
    ensures Run(ops, f, o, n) == Run(ops, f, o, m)
    decreases n
  {
    hide Step;
    if n > 0 && m > 0 && o.Running? {
      FinishedStays(ops, f, Step(ops, f, o.st), n - 1, m - 1);
    }
  }

  /** Once the value has been kept nothing is asked of the memory. */
  lemma {:induction false} KeptServes(ops: Ops, w: Life, f: Function, st: State)
    requires ops.memo && w.kept && WellFormed(f)
    ensures RunUses(ops, w, f, f, st)
  {
    hide WellFormed, Run, RunAfter, TailUsed, ExecBody, EagerBody, BodyAfter, ExecPhis;
    forall n: nat
      ensures UsesAt(ops, RunAfter(ops, w, f, f, Running(st), n), f, Run(ops, f, Running(st), n))
    {
      var o := Run(ops, f, Running(st), n);
      if o.Running? && o.st.block in f.blocks {
        WellFormedBlock(w, f, o.st.block);
        var body := f.blocks[o.st.block].body;
        assert forall k | 0 <= k < |body| :: body[k] in body;
      }
    }
  }

  /** What the clone does when it is called with a thunk about which `kept` is known. */
  lemma {:induction false} CloneRuns(ops: Ops, w: Life, p: Passing, kept: bool, callee: Function, calls: map<Id, seq<nat>>,
                                     tails: map<BlockRef, seq<Use>>, clone: Function, slots: seq<int>, n: nat)
    requires GoodCallee(ops, p.k, p.x, callee, calls, tails, clone) && forall m | m in w.fit :: Yields(ops, w.env, w.v, m)
    requires |callee.order| > 0 && p.x < |p.vs| && ThunkReady(ops, w.env, w.v, slots) && Marked(ops, kept, slots)
    requires var w2 := LifeIn(w, p).(kept := kept); RunUses(ops, w2, callee, callee, CallStart(w, p, callee))
    requires Run(ops, callee, Running(CallStart(w, p, callee)), n).Finished?
    ensures var r := ops.lazy(p.k, p.vs, slots, p.m);
      var o := Run(ops, callee, Running(CallStart(w, p, callee)), n);
      && r.0 == o.value && r.1 == o.frame.mem && ThunkReady(ops, w.env, w.v, r.2)
      && Marked(ops, RunAfter(ops, LifeIn(w, p).(kept := kept), callee, callee, Running(CallStart(w, p, callee)), n).kept, r.2)
  {
    hide *;
    var w2 := LifeIn(w, p).(kept := kept);
    var ef, lf := CallStart(w, p, callee).frame, Fresh(p.vs, p.m, slots);
    GoodCalleeParts(ops, p.k, p.x, callee, calls, tails, clone);
    LifeInPromises(ops, w, p, kept);
    FramesReady(w, p, callee, slots);
    CalleeCallByNeed(ops, w2, callee, calls, tails, clone, ef, lf, n);
    var oe, ol := Run(ops, callee, Running(Start(callee, ef)), n), Run(ops, clone, Running(Start(clone, lf)), n);
    var w3 := RunAfter(ops, w2, callee, callee, Running(Start(callee, ef)), n);
    FinishedInStep(ops, w3, callee, oe, ol);
    LazyCallValue(ops, p.k, clone, p.vs, p.m, slots, n);
  }

  lemma LifeInPromises(ops: Ops, w: Life, p: Passing, kept: bool)
    requires forall m | m in w.fit :: Yields(ops, w.env, w.v, m)
    ensures var w2 := LifeIn(w, p).(kept := kept);
      Promised(ops, w2) && w2.target == Arg(p.x) && w2.env == w.env && w2.v == w.v && w2.kept == kept
  {
    hide Yields, CloneAgrees;
  }

  lemma FinishedInStep(ops: Ops, w: Life, f: Function, oe: Outcome, ol: Outcome)
    requires InStep(ops, w, f, oe, ol) && oe.Finished?
    ensures ol.Finished? && ol.value == oe.value && ol.frame.mem == oe.frame.mem
    ensures ThunkReady(ops, w.env, w.v, ol.frame.slots) && Marked(ops, w.kept, ol.frame.slots)
  {
    hide ThunkReady, Marked;
  }

  lemma GoodCalleeParts(ops: Ops, k: nat, x: nat, callee: Function,
                        calls: map<Id, seq<nat>>, tails: map<BlockRef, seq<Use>>, clone: Function)
    requires GoodCallee(ops, k, x, callee, calls, tails, clone)
    ensures WellFormed(callee) && IsForced(callee, Arg(x), calls, tails, clone)
    ensures |callee.order| > 0 && |clone.order| > 0 && LazyCallMeans(ops, k, clone)
  {
    hide WellFormed, IsForced, LazyCallMeans;
  }

  lemma FramesReady(w: Life, p: Passing, callee: Function, slots: seq<int>)
    requires |callee.order| > 0 && p.x < |p.vs|
    ensures var st, lf := CallStart(w, p, callee), Fresh(p.vs, p.m, slots);
      && st == Start(callee, st.frame) && st.frame.env == map[] && lf.env == map[] && st.frame.mem == lf.mem && lf.slots == slots
      && SameArgs(Arg(p.x), st.frame.args, lf.args) && Eval(Arg(p.x), st.frame) == w.v
  {
  }

  lemma {:induction false} LazyCallValue(ops: Ops, k: nat, f: Function, vs: seq<int>, m: Mem, slots: seq<int>, n: nat)
    requires |f.order| > 0 && LazyCallMeans(ops, k, f)
    ensures var o := Run(ops, f, Running(Start(f, Fresh(vs, m, slots))), n);
      o.Finished? ==> ops.lazy(k, vs, slots, m) == (o.value, o.frame.mem, o.frame.slots)
  {
    hide Run, Start, Fresh;
  }

  /** When a served call has finished; if it makes the thunk keep its value, that is known then. */
  lemma {:induction false} FinishTime(ops: Ops, w: Life, p: Passing, callee: Function) returns (n: nat)
    requires |callee.order| > 0 && CallServed(ops, w, p, callee)
    ensures p.x < |p.vs| && RunIs(Run(ops, callee, Running(CallStart(w, p, callee)), n),
                                  ops.value(p.k, p.vs[p.x := w.v], p.m), ops.effect(p.k, p.vs[p.x := w.v], p.m))
    ensures Run(ops, callee, Running(CallStart(w, p, callee)), n).Finished?
    ensures CallKeeps(ops, w, p, callee) ==>
      RunAfter(ops, LifeIn(w, p), callee, callee, Running(CallStart(w, p, callee)), n).kept
  {
    var st := CallStart(w, p, callee);
    hide Run, RunAfter, RunUses, LifeIn;
    n :| RunIs(Run(ops, callee, Running(st), n), ops.value(p.k, p.vs[p.x := w.v], p.m), ops.effect(p.k, p.vs[p.x := w.v], p.m));
    if CallKeeps(ops, w, p, callee) {
      var m: nat :| KeepsBy(ops, w, p, callee, m);
      FinishedStays(ops, callee, Running(st), n, m);
      n := m;
    }
  }

  lemma {:induction false} CloneHonoursThunk(ops: Ops, w: Life, p: Passing, callee: Function, calls: map<Id, seq<nat>>,
                          tails: map<BlockRef, seq<Use>>, clone: Function)
    requires GoodCallee(ops, p.k, p.x, callee, calls, tails, clone) && forall m | m in w.fit :: Yields(ops, w.env, w.v, m)
    requires |callee.order| > 0 && CallServed(ops, w, p, callee) && (p in w.keeping ==> CallKeeps(ops, w, p, callee))
    ensures CloneAgrees(ops, w, p)
  {
    hide *;
    GoodCalleeParts(ops, p.k, p.x, callee, calls, tails, clone);
    var n := FinishTime(ops, w, p, callee);
    ServedParts(ops, w, p, callee);
    var st := CallStart(w, p, callee);
    forall slots | ThunkReady(ops, w.env, w.v, slots) && Marked(ops, p.kept, slots)
      ensures CloneDoes(ops, w, p, slots)
    {
      CloneRuns(ops, w, p, p.kept, callee, calls, tails, clone, slots, n);
      if Kept(ops, slots) {
        KeptLife(ops, w, p, slots);
        KeptServes(ops, LifeIn(w, p).(kept := true), callee, st);
        CloneRuns(ops, w, p, true, callee, calls, tails, clone, slots, n);
      }
      DoesSo(ops, w, p, slots, Run(ops, callee, Running(st), n),
             RunAfter(ops, LifeIn(w, p), callee, callee, Running(st), n).kept,
             RunAfter(ops, LifeIn(w, p).(kept := true), callee, callee, Running(st), n).kept);
    }
    AgreesFrom(ops, w, p);
  }

  /** `CloneAgrees` for one thunk. */
  ghost predicate CloneDoes(ops: Ops, w: Life, p: Passing, slots: seq<int>) {
    p.x < |p.vs| && var r := ops.lazy(p.k, p.vs, slots, p.m);
      && r.0 == ops.value(p.k, p.vs[p.x := w.v], p.m) && r.1 == ops.effect(p.k, p.vs[p.x := w.v], p.m)
      && ThunkReady(ops, w.env, w.v, r.2)
      && (Kept(ops, slots) || (ops.memo && p in w.keeping) ==> Kept(ops, r.2))
  }

  lemma DoesSo(ops: Ops, w: Life, p: Passing, slots: seq<int>, o: Outcome, kept: bool, kept1: bool)
    requires var r := ops.lazy(p.k, p.vs, slots, p.m);
      && o.Finished? && r.0 == o.value && r.1 == o.frame.mem && ThunkReady(ops, w.env, w.v, r.2)
      && Marked(ops, kept, r.2) && (p in w.keeping ==> kept)
      && (Kept(ops, slots) ==> kept1 && Marked(ops, kept1, r.2))
    requires p.x < |p.vs| && RunIs(o, ops.value(p.k, p.vs[p.x := w.v], p.m), ops.effect(p.k, p.vs[p.x := w.v], p.m))
    ensures CloneDoes(ops, w, p, slots)
  {
    hide ThunkReady;
  }

  lemma AgreesFrom(ops: Ops, w: Life, p: Passing)
    requires p.x < |p.vs|
    requires forall slots | ThunkReady(ops, w.env, w.v, slots) && Marked(ops, p.kept, slots) :: CloneDoes(ops, w, p, slots)
    ensures CloneAgrees(ops, w, p)
  {
    hide ThunkReady, Marked, Kept;
  }

  lemma KeptLife(ops: Ops, w: Life, p: Passing, slots: seq<int>)
    requires Kept(ops, slots)
    ensures ops.memo && Marked(ops, true, slots) && LifeIn(w, p).(kept := true).kept
  {
  }

  lemma ServedParts(ops: Ops, w: Life, p: Passing, callee: Function)
    requires |callee.order| > 0 && CallServed(ops, w, p, callee)
    ensures p.x < |p.vs| && RunUses(ops, LifeIn(w, p), callee, callee, CallStart(w, p, callee))
    ensures LifeIn(w, p).(kept := p.kept) == LifeIn(w, p)
  {
    hide RunUses, CallRuns;
  }

  // ---- the delegate computes the criterion ----

  /** The slice of the criterion has been outlined as `d`, and a thunk call runs what was emitted for it. */
  ghost predicate GoodDelegate(ops: Ops, f: Function, exit: BlockRef, preds: map<BlockRef, seq<Edge>>, s: Slice,
                               a: Site, d: Function)
  {
    && Standing(f, exit, preds, s) && Shaped(f) && s.blocks <= f.blocks.Keys
    && s.crit == a.crit && (forall x: nat | Arg(x) in s.deps :: x in a.envArgs && x < f.nargs)
    && IsDelegate(f, s, a.envArgs, EnvBase(ops.memo), d) && OneOutcome(f, exit, s) && SwitchesCovered(f, s)
    && !OnCycle(GraphOf(f), s.Home()) && |d.order| > 0 && CloneOf(s.Home()) in d.blocks
    && ThunkCallMeans(ops, Emitted(ops.memo, d, CloneOf(s.Home()), Res(s.crit)))
  }

  lemma CapturedFrom(f: Function, s: Slice, a: Site, memo: bool, env: seq<int>, slots: seq<int>, args: seq<int>)
    requires forall x: nat | Arg(x) in s.deps :: x in a.envArgs && x < f.nargs
    requires Captures(a, env, args) && |args| == f.nargs
    requires |slots| == EnvBase(memo) + |env| && slots[EnvBase(memo)..] == env
    ensures Captured(s, a.envArgs, EnvBase(memo), slots, args)
  {
    forall x: nat | Arg(x) in s.deps
      ensures EnvBase(memo) + IndexIn(a.envArgs, x) < |slots| && slots[EnvBase(memo) + IndexIn(a.envArgs, x)] == args[x]
    {
      var j := IndexIn(a.envArgs, x);
      assert slots[EnvBase(memo) + j] == slots[EnvBase(memo)..][j];
    }
  }

  /** What the delegate returns, a call through a thunk that has kept nothing returns. */
  lemma EmittedReturns(ops: Ops, d: Function, home: BlockRef, v: Value, slots: seq<int>, m: Mem, k: nat, x: int)
    requires Delegated(d, home, v) && |d.order| > 0 && home in d.blocks && ThunkCallMeans(ops, Emitted(ops.memo, d, home, v))
    requires |slots| >= EnvBase(ops.memo) && slots[0] == ops.fptr && Unset(ops, slots)
    requires ReturnsAfter(ops, d, Start(d, Fresh([], m, slots)), k, x)
    ensures ops.delegate(slots, m) == x
  {
    var fr := Fresh([], m, slots);
    if ops.memo {
      MemoizedReturns(ops, d, home, v, fr, k, x);
      hide Delegated, Memoized, Run, ReturnsAfter;
      assert Run(ops, Memoized(d, home, v), Running(Start(Memoized(d, home, v), Fresh([], m, slots))), 1 + (k + 1)).Finished?;
    } else {
      hide Delegated, Run;
      assert Run(ops, d, Running(Start(d, Fresh([], m, slots))), k + 1).Finished?;
    }
  }

  lemma {:induction false} DelegateReturns(ops: Ops, w: Life, f: Function, exit: BlockRef, preds: map<BlockRef, seq<Edge>>, s: Slice,
                        a: Site, d: Function, ef: Frame, n: nat, slots: seq<int>, m: Mem)
    requires GoodDelegate(ops, f, exit, preds, s, a, d)
    requires ef.env == map[] && |ef.args| == f.nargs && Captures(a, w.env, ef.args)
    requires |f.order| > 0 && ReachesIn(ops, f, Parent(a.crit), Start(f, ef), n)
    requires RunStable(ops, f, s, m, Start(f, ef), n) && HoldsEnv(ops, w.env, slots) && Unset(ops, slots)
    ensures ops.delegate(slots, m) == Eval(Res(a.crit), FrameAfter(ops, f, Start(f, ef), n))
  {
    hide Standing, Shaped, IsDelegate, OneOutcome, SwitchesCovered, OnCycle, ReachesIn, FrameAfter, ReturnsAfter,
         Captured, Captures, Eval, Start, RunStable, ThunkCallMeans, Emitted, Delegated;
    var df := Fresh([], m, slots);
    CapturedFrom(f, s, a, ops.memo, w.env, slots, ef.args);
    OutlinedIsDelegated(f, exit, preds, s, a.envArgs, EnvBase(ops.memo), d);
    var k := DelegateSimulatesCaller(ops, f, exit, preds, s, a.envArgs, EnvBase(ops.memo), d, ef, df, n);
    EmittedReturns(ops, d, CloneOf(s.Home()), Res(s.crit), slots, m, k, Eval(Res(a.crit), FrameAfter(ops, f, Start(f, ef), n)));
  }

  /** What was emitted for the slice computes the criterion over every memory over which the sliced instructions
      the run has come by compute what they did in the run. */
  lemma {:induction false} DelegateComputes(ops: Ops, w: Life, f: Function, exit: BlockRef, preds: map<BlockRef, seq<Edge>>, s: Slice,
                         a: Site, d: Function, ef: Frame, n: nat, m: Mem)
    requires GoodDelegate(ops, f, exit, preds, s, a, d)
    requires ef.env == map[] && |ef.args| == f.nargs && Captures(a, w.env, ef.args)
    requires |f.order| > 0 && ReachesIn(ops, f, Parent(a.crit), Start(f, ef), n) && RunStable(ops, f, s, m, Start(f, ef), n)
    requires w.v == Eval(Res(a.crit), FrameAfter(ops, f, Start(f, ef), n))
    ensures Yields(ops, w.env, w.v, m)
  {
    hide GoodDelegate, Captures, ReachesIn, RunStable, HoldsEnv, Unset, Eval, FrameAfter, Start;
    forall slots | HoldsEnv(ops, w.env, slots) && Unset(ops, slots)
      ensures ops.delegate(slots, m) == w.v
    {
      DelegateReturns(ops, w, f, exit, preds, s, a, d, ef, n, slots, m);
    }
  }

  // ---- together ----

  /** One value serves every way of reaching the criterion: a run reaches it once. */
  lemma {:induction false} ReachesOnce(ops: Ops, f: Function, h: BlockRef, st: State, n: nat, k: nat)
    requires ReachesIn(ops, f, h, st, n) && ReachesIn(ops, f, h, st, k)
    ensures n == k
    decreases n
  {
    if n > 0 {
      ReachesOnce(ops, f, h, Step(ops, f, st).st, n - 1, k - 1);
    }
  }

  ghost function EnvOf(a: Site, args: seq<int>): (env: seq<int>)
    ensures Captures(a, env, args)
  {
    seq(|a.envArgs|, j requires 0 <= j < |a.envArgs| => if a.envArgs[j] < |args| then args[a.envArgs[j]] else 0)
  }

  /** The thunk of a run that comes to the criterion after `n` steps.  A memory fits if the sliced instructions the
      run has come by compute over it what they did. */
  ghost function LifeAt(ops: Ops, f: Function, s: Slice, a: Site, callee: Function, ef: Frame, n: nat): Life
    requires |f.order| > 0 && |callee.order| > 0 && GoodSite(f, a)
  {
    var st := Start(f, ef);
    var w := Life(Res(a.crit), EnvOf(a, ef.args), Eval(Res(a.crit), FrameAfter(ops, f, st, n)),
                  (iset m: Mem | RunStable(ops, f, s, m, st, n)), iset {}, iset {}, false);
    w.(good := (iset p: Passing | p.k == Callee(f, a) && p.x == a.index && CallServed(ops, w, p, callee)),
       keeping := (iset p: Passing | CallKeeps(ops, w, p, callee)))
  }

  ghost function LifeOf(ops: Ops, f: Function, s: Slice, a: Site, callee: Function, ef: Frame): Life
    requires |f.order| > 0 && |callee.order| > 0 && GoodSite(f, a)
  {
    if n: nat :| ReachesIn(ops, f, Parent(a.crit), Start(f, ef), n) then LifeAt(ops, f, s, a, callee, ef, n)
    else LifeAt(ops, f, s, a, callee, ef, 0)
  }

  /** What is asked of the eager run, and of nothing but this run: should it come to the criterion, then wherever a
      thunk call takes the place of a use the memory fits, unless the thunk has been made to keep its value
      before, and the calls that are passed the thunk are served. */
  ghost predicate RunAllows(ops: Ops, f: Function, s: Slice, a: Site, callee: Function, ef: Frame)
    requires |f.order| > 0 && |callee.order| > 0 && GoodSite(f, a)
  {
    forall n | ReachesIn(ops, f, Parent(a.crit), Start(f, ef), n) ::
      RunUses(ops, LifeAt(ops, f, s, a, callee, ef, n), PassedThunk(f, a), f, StateAfter(ops, f, Start(f, ef), n))
  }

  lemma {:induction false} AllowsFrom(ops: Ops, f: Function, s: Slice, a: Site, callee: Function, ef: Frame)
    requires GoodSite(f, a) && |f.order| > 0 && |callee.order| > 0
    requires forall n | ReachesIn(ops, f, Parent(a.crit), Start(f, ef), n) ::
      RunUses(ops, LifeAt(ops, f, s, a, callee, ef, n), PassedThunk(f, a), f, StateAfter(ops, f, Start(f, ef), n))
    ensures RunAllows(ops, f, s, a, callee, ef)
  {
    hide ReachesIn, RunUses, LifeAt, PassedThunk, StateAfter, Start, GoodSite;
  }

  /** What becomes of the caller's run, whatever the thunk that lives during it. */
  ghost predicate SameOutcome(oe: Outcome, ol: Outcome) {
    match (oe, ol)
    case (Running(es), Running(ls)) => es.block == ls.block && es.frame.mem == ls.frame.mem
    case (Finished(v, ef), Finished(v', lf)) => v == v' && ef.mem == lf.mem
    case (Wrong, Wrong) => true
    case _ => false
  }

  lemma AgreeMeansSame(ops: Ops, w: Life, f: Function, a: Site, oe: Outcome, ol: Outcome)
    requires GoodSite(f, a) && |f.order| > 0 && CallersAgree(ops, w, f, a, oe, ol)
    ensures SameOutcome(oe, ol)
  {
    hide GoodSite, Foreseen, Promised, NotPast, Past, RunUses;
  }

  lemma {:induction false} LifeIs(ops: Ops, f: Function, s: Slice, a: Site, callee: Function, ef: Frame, n: nat)
    requires |f.order| > 0 && |callee.order| > 0 && GoodSite(f, a)
    ensures var w := LifeAt(ops, f, s, a, callee, ef, n);
      && w.target == Res(a.crit) && Captures(a, w.env, ef.args) && w.v == Eval(Res(a.crit), FrameAfter(ops, f, Start(f, ef), n)) && !w.kept
      && (forall m :: m in w.fit <==> RunStable(ops, f, s, m, Start(f, ef), n))
      && (forall p | p in w.good :: p.k == Callee(f, a) && p.x == a.index && CallServed(ops, w, p, callee))
      && (forall p | p in w.keeping :: CallKeeps(ops, w, p, callee))
  {
    hide Captures, RunStable, FrameAfter, Eval, RunUses, CallRuns, Run, RunAfter;
    var w := LifeAt(ops, f, s, a, callee, ef, n);
    var w0 := w.(good := iset {}, keeping := iset {});
    hide CallServed, CallKeeps;
    forall p: Passing
      ensures CallServed(ops, w, p, callee) <==> CallServed(ops, w0, p, callee)
      ensures CallKeeps(ops, w, p, callee) <==> CallKeeps(ops, w0, p, callee)
    {
      SameCalls(ops, w, w0, p, callee);
    }
  }

  lemma SameCalls(ops: Ops, w: Life, w': Life, p: Passing, callee: Function)
    requires |callee.order| > 0 && w.env == w'.env && w.v == w'.v && w.fit == w'.fit
    ensures CallServed(ops, w, p, callee) <==> CallServed(ops, w', p, callee)
    ensures CallKeeps(ops, w, p, callee) <==> CallKeeps(ops, w', p, callee)
  {
    assert LifeIn(w, p) == LifeIn(w', p);
    hide LifeIn, RunUses, CallRuns, Run, RunAfter, Start;
    if p.x < |p.vs| {
      assert CallStart(w, p, callee) == CallStart(w', p, callee);
      hide CallStart;
      assert forall n: nat :: KeepsBy(ops, w, p, callee, n) <==> KeepsBy(ops, w', p, callee, n);
    }
  }

  lemma {:induction false} LifePromises(ops: Ops, f: Function, exit: BlockRef, preds: map<BlockRef, seq<Edge>>, s: Slice, a: Site,
                     d: Function, callee: Function, ccalls: map<Id, seq<nat>>, ctails: map<BlockRef, seq<Use>>,
                     clone: Function, ef: Frame, n: nat)
    requires GoodSite(f, a) && |f.order| > 0 && |callee.order| > 0
    requires GoodDelegate(ops, f, exit, preds, s, a, d)
    requires GoodCallee(ops, Callee(f, a), a.index, callee, ccalls, ctails, clone)
    requires ef.env == map[] && |ef.args| == f.nargs && ReachesIn(ops, f, Parent(a.crit), Start(f, ef), n)
    ensures Promised(ops, LifeAt(ops, f, s, a, callee, ef, n))
  {
    hide GoodSite, GoodDelegate, GoodCallee, Captures, FrameAfter, Eval, ReachesIn, Start, RunStable, Yields, CallServed,
         CallKeeps, CloneAgrees, LifeAt, Callee;
    var w := LifeAt(ops, f, s, a, callee, ef, n);
    LifeIs(ops, f, s, a, callee, ef, n);
    forall m | m in w.fit
      ensures Yields(ops, w.env, w.v, m)
    {
      DelegateComputes(ops, w, f, exit, preds, s, a, d, ef, n, m);
    }
    forall p | p in w.good
      ensures CloneAgrees(ops, w, p)
    {
      CloneHonoursThunk(ops, w, p, callee, ccalls, ctails, clone);
    }
  }

  lemma {:induction false} GoodForesight(ops: Ops, f: Function, exit: BlockRef, preds: map<BlockRef, seq<Edge>>, s: Slice, a: Site,
                      d: Function, callee: Function, ccalls: map<Id, seq<nat>>, ctails: map<BlockRef, seq<Use>>,
                      clone: Function, ef: Frame)
    requires GoodSite(f, a) && |f.order| > 0 && |callee.order| > 0
    requires GoodDelegate(ops, f, exit, preds, s, a, d)
    requires GoodCallee(ops, Callee(f, a), a.index, callee, ccalls, ctails, clone)
    requires ef.env == map[] && |ef.args| == f.nargs && RunAllows(ops, f, s, a, callee, ef)
    ensures Foreseen(ops, f, a, LifeOf(ops, f, s, a, callee, ef), Start(f, ef))
    ensures var w := LifeOf(ops, f, s, a, callee, ef); w.target == Res(a.crit) && Captures(a, w.env, ef.args) && !w.kept
  {
    hide GoodSite, GoodDelegate, GoodCallee, Captures, FrameAfter, StateAfter, Eval, ReachesIn, Start, RunUses, RunStable,
         CallServed, CallKeeps, Promised, LifeAt, Callee;
    var w := LifeOf(ops, f, s, a, callee, ef);
    LifeIs(ops, f, s, a, callee, ef, 0);
    forall n: nat | ReachesIn(ops, f, Parent(a.crit), Start(f, ef), n)
      ensures w == LifeAt(ops, f, s, a, callee, ef, n)
    {
      forall k: nat | ReachesIn(ops, f, Parent(a.crit), Start(f, ef), k)
        ensures k == n
      {
        ReachesOnce(ops, f, Parent(a.crit), Start(f, ef), n, k);
      }
    }
    forall n: nat | ReachesIn(ops, f, Parent(a.crit), Start(f, ef), n)
      ensures Promised(ops, w) && Eval(Res(a.crit), FrameAfter(ops, f, Start(f, ef), n)) == w.v
      ensures RunUses(ops, w, PassedThunk(f, a), f, StateAfter(ops, f, Start(f, ef), n))
      ensures w.target == Res(a.crit) && Captures(a, w.env, ef.args) && !w.kept
    {
      LifeIs(ops, f, s, a, callee, ef, n);
      LifePromises(ops, f, exit, preds, s, a, d, callee, ccalls, ctails, clone, ef, n);
    }
  }

  /** The lazy program is the eager one, for every run of the caller and every number of steps: with the
      slice outlined as `d`, the callee cloned as `clone`, and the caller rewritten as `c`, the two
      callers visit the same blocks with the same memory, and end alike with the same result. */
  lemma {:induction false} LazyProgramIsEagerProgram(
    ops: Ops, f: Function, exit: BlockRef, preds: map<BlockRef, seq<Edge>>, s: Slice, a: Site, d: Function,
    callee: Function, ccalls: map<Id, seq<nat>>, ctails: map<BlockRef, seq<Use>>, clone: Function,
    calls: map<Id, seq<nat>>, tails: map<BlockRef, seq<Use>>, c: Function, ef: Frame, lf: Frame, n: nat)
    requires GoodCaller(f, a) && GoodSite(f, a) && Forced(f, a, calls, tails, c) && |f.order| > 0 && |callee.order| > 0
    requires GoodDelegate(ops, f, exit, preds, s, a, d)
    requires GoodCallee(ops, Callee(f, a), a.index, callee, ccalls, ctails, clone)
    requires ef.env == map[] && lf.env == map[] && ef.mem == lf.mem && ef.args == lf.args && |ef.args| == f.nargs
    requires RunAllows(ops, f, s, a, callee, ef)
    ensures |c.order| > 0
    ensures SameOutcome(Run(ops, f, Running(Start(f, ef)), n), Run(ops, c, Running(Start(c, lf)), n))
  {
    hide GoodCaller, GoodSite, Forced, GoodDelegate, GoodCallee, Captures, Foreseen, CallersAgree, Run, Start, SameOutcome,
         RunAllows, ReachesIn, LifeOf, Callee;
    var w := LifeOf(ops, f, s, a, callee, ef);
    GoodForesight(ops, f, exit, preds, s, a, d, callee, ccalls, ctails, clone, ef);
    CallerCallByNeed(ops, w, f, a, calls, tails, c, ef, lf, n);
    AgreeMeansSame(ops, w, f, a, Run(ops, f, Running(Start(f, ef)), n), Run(ops, c, Running(Start(c, lf)), n));
  }
}
