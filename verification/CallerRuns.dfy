/** Whole runs of the caller: the program with the thunk against the one that computes the argument. */
module CallerRuns {
  import opened Graphs
  import opened Ir
  import opened Machine
  import opened Forcing
  import opened CallByNeed
  import opened CallerSide
  import opened HomeBlock
  import opened RunSimulation

  // ---- where a run stands ----

  /** Some way to `b` meets the criterion's block `h` at its end or not at all. */
  ghost predicate NotPast(g: Graph, entry: BlockRef, h: BlockRef, b: BlockRef) {
    exists p :: PathFromTo(g, p, entry, b) && h !in p[..|p| - 1]
  }

  /** `b` comes after `h`. */
  ghost predicate Past(g: Graph, h: BlockRef, b: BlockRef) {
    exists x :: (h, x) in g.edges && Reaches(g, x, b)
  }

  lemma AtEntry(g: Graph, entry: BlockRef, h: BlockRef)
    requires entry in g.nodes
    ensures NotPast(g, entry, h, entry)
  {
    assert PathFromTo(g, [entry], entry, entry);
  }

  lemma NotPastIsFree(g: Graph, entry: BlockRef, h: BlockRef, b: BlockRef)
    requires NotPast(g, entry, h, b) && b != h
    ensures !Dominates(g, entry, h, b)
  {
    var p :| PathFromTo(g, p, entry, b) && h !in p[..|p| - 1];
    assert p == p[..|p| - 1] + [p[|p| - 1]];
  }

  lemma NotPastGoesOn(g: Graph, entry: BlockRef, h: BlockRef, b: BlockRef, x: BlockRef)
    requires NotPast(g, entry, h, b) && b != h && (b, x) in g.edges && x in g.nodes
    ensures NotPast(g, entry, h, x)
  {
    var p :| PathFromTo(g, p, entry, b) && h !in p[..|p| - 1];
    assert p == p[..|p| - 1] + [p[|p| - 1]];
    assert PathFromTo(g, p + [x], entry, x) && (p + [x])[..|p + [x]| - 1] == p;
  }

  lemma PastGoesOn(g: Graph, h: BlockRef, b: BlockRef, x: BlockRef)
    requires (b == h || Past(g, h, b)) && (b, x) in g.edges && b in g.nodes && x in g.nodes
    ensures Past(g, h, x)
  {
    assert PathFromTo(g, [x], x, x);
    if b != h {
      var y :| (h, y) in g.edges && Reaches(g, y, b);
      assert PathFromTo(g, [b, x], b, x);
      ReachesTrans(g, y, b, x);
    }
  }

  lemma PastIsElsewhere(g: Graph, h: BlockRef, b: BlockRef)
    requires Past(g, h, b) && !OnCycle(g, h) && h in g.nodes
    ensures b != h
  {
    var x :| (h, x) in g.edges && Reaches(g, x, b);
    var q :| PathFromTo(g, q, x, b);
    StepThen(g, h, q, x, b);
    assert |[h] + q| > 1;
  }

  // ---- what the thunk is to hold ----

  /** The state in which `n` steps lead. */
  function StateAfter(ops: Ops, f: Function, st: State, n: nat): State
    decreases n
  {
    if n > 0 && Step(ops, f, st).Running? then StateAfter(ops, f, Step(ops, f, st).st, n - 1) else st
  }

  /** If the run comes to the criterion, `w.v` is its value there, and from there on the uses agree. */
  ghost predicate Foreseen(ops: Ops, f: Function, a: Site, w: Life, st: State) {
    forall n | ReachesIn(ops, f, Parent(a.crit), st, n) ::
      && Promised(ops, w) && Eval(Res(a.crit), FrameAfter(ops, f, st, n)) == w.v
      && RunUses(ops, w, PassedThunk(f, a), f, StateAfter(ops, f, st, n))
  }

  lemma {:induction false} ForeseenNext(ops: Ops, f: Function, a: Site, w: Life, st: State)
    requires Foreseen(ops, f, a, w, st) && st.block != Parent(a.crit) && Step(ops, f, st).Running?
    ensures Foreseen(ops, f, a, w, Step(ops, f, st).st)
  {
    hide Promised, Step, Eval, RunUses;
    var next := Step(ops, f, st).st;
    forall n: nat | ReachesIn(ops, f, Parent(a.crit), next, n)
      ensures Promised(ops, w) && Eval(Res(a.crit), FrameAfter(ops, f, next, n)) == w.v
      ensures RunUses(ops, w, PassedThunk(f, a), f, StateAfter(ops, f, next, n))
    {
      assert ReachesIn(ops, f, Parent(a.crit), st, n + 1);
    }
  }

  lemma {:induction false} ForeseenNow(ops: Ops, f: Function, a: Site, w: Life, st: State)
    requires Foreseen(ops, f, a, w, st) && st.block == Parent(a.crit) && st.block in f.blocks
    ensures Promised(ops, w) && Eval(Res(a.crit), ExecBlock(ops, f.blocks[st.block], st.prev, st.frame)) == w.v
    ensures RunUses(ops, w, PassedThunk(f, a), f, st)
  {
    hide Promised, Step, Eval, RunUses;
    assert ReachesIn(ops, f, Parent(a.crit), st, 0);
    assert FrameAfter(ops, f, st, 0) == ExecBlock(ops, f.blocks[st.block], st.prev, st.frame);
  }

  // ---- running in step ----

  ghost predicate BeforeThunk(ops: Ops, w: Life, f: Function, a: Site, es: State, ls: State)
    requires GoodSite(f, a) && |f.order| > 0
  {
    && Lock(ops, w, false, es.frame, ls.frame) && Captures(a, w.env, ls.frame.args)
    && NotPast(GraphOf(f), f.order[0], Parent(a.crit), es.block) && Foreseen(ops, f, a, w, es) && !w.kept
    && (es.prev.Some? ==> !Dominates(GraphOf(f), f.order[0], Parent(a.crit), es.prev.value))
  }

  ghost predicate WithReadyThunk(ops: Ops, w: Life, f: Function, a: Site, es: State, ls: State)
    requires GoodSite(f, a) && es.block in f.blocks
  {
    && Lock(ops, w, true, es.frame, ls.frame) && Promised(ops, w) && RunUses(ops, w, PassedThunk(f, a), f, es)
    && Past(GraphOf(f), Parent(a.crit), es.block)
    && (es.prev.Some? ==> EdgeForced(f.blocks[es.block].phis, w.target, es.prev.value, ls.frame.env))
  }

  /** So it is for some knowledge of whether the thunk has kept its value. */
  ghost predicate WithSomeThunk(ops: Ops, w: Life, f: Function, a: Site, es: State, ls: State)
    requires GoodSite(f, a) && es.block in f.blocks
  {
    exists k: bool :: WithReadyThunk(ops, w.(kept := k), f, a, es, ls)
  }

  ghost predicate CallersInStep(ops: Ops, w: Life, f: Function, a: Site, es: State, ls: State)
    requires GoodSite(f, a) && |f.order| > 0
  {
    && es.block == ls.block && es.prev == ls.prev && es.block in f.blocks
    && (BeforeThunk(ops, w, f, a, es, ls) || WithSomeThunk(ops, w, f, a, es, ls))
  }

  /** Both runs go on in step, or both have finished with the same value and the same memory, or both are stuck. */
  ghost predicate CallersAgree(ops: Ops, w: Life, f: Function, a: Site, oe: Outcome, ol: Outcome)
    requires GoodSite(f, a) && |f.order| > 0
  {
    match (oe, ol)
    case (Running(es), Running(ls)) => CallersInStep(ops, w, f, a, es, ls)
    case (Finished(v, ef), Finished(v', lf)) => v == v' && ef.mem == lf.mem
    case (Wrong, Wrong) => true
    case _ => false
  }

  lemma BlockKeepsArgs(ops: Ops, blk: Block, prev: Option<BlockRef>, fr: Frame)
    ensures ExecBlock(ops, blk, prev, fr).args == fr.args
  {
    ArgsStay(ops, blk.body, fr.(env := ExecPhis(blk.phis, prev, fr)));
  }

  /** The phis of a block entered from a block the criterion's does not dominate. */
  lemma QuietEntry(w: Life, f: Function, a: Site, b: BlockRef, prev: Option<BlockRef>)
    requires GoodCaller(f, a) && b in f.blocks && w.target == Res(a.crit) && |f.order| > 0
    requires prev.Some? ==> !Dominates(GraphOf(f), f.order[0], Parent(a.crit), prev.value)
    ensures PhisReady(w, f.blocks[b].phis, prev)
  {
    hide GoodCaller, Dominates, GoodPhis, EdgeUses, EdgeForced, WellFormed, DefsDominateUses, GoodSite, Shaped;
    GoodCallerParts(f, a);
    GoodEnds(w, f, b);
    if prev.Some? {
      QuietEdge(f, a, prev.value, b);
    }
  }

  /** What a step needs to know of the two functions. */
  ghost predicate Both(w: Life, f: Function, a: Site, calls: map<Id, seq<nat>>,
                       tails: map<BlockRef, seq<Use>>, c: Function) {
    GoodCaller(f, a) && Forced(f, a, calls, tails, c) && w.target == Res(a.crit)
  }

  lemma BothParts(w: Life, f: Function, a: Site, calls: map<Id, seq<nat>>,
                  tails: map<BlockRef, seq<Use>>, c: Function)
    requires Both(w, f, a, calls, tails, c)
    ensures GoodCaller(f, a) && Forced(f, a, calls, tails, c) && w.target == Res(a.crit)
    ensures |f.order| > 0 && GoodSite(f, a) && f.order[0] in f.blocks && c.order == f.order
    ensures Parent(a.crit) in f.blocks && !OnCycle(GraphOf(f), Parent(a.crit))
    ensures forall b, s | b in f.blocks && s in f.blocks[b].Succs() :: s in f.blocks
    ensures forall b | b in f.blocks :: b.Orig? && b in c.blocks && b in tails && f.blocks[b].term.Some?
    ensures GraphOf(f).nodes == f.blocks.Keys
    ensures TailsExact(WithThunk(f, a), Res(a.crit), tails)
  {
    hide DefsDominateUses, CallsExact, TailsExact, Forced, LazyBody, GoodBlock, GoodValue,
         OnCycle, Reaches;
    GoodCallerParts(f, a);
    ForcedParts(f, a, calls, tails, c);
    ShapedParts(f);
    HomeIsBlock(f, a);
  }

  lemma ForcedIs(f: Function, a: Site, calls: map<Id, seq<nat>>, tails: map<BlockRef, seq<Use>>, c: Function, b: BlockRef)
    requires Forced(f, a, calls, tails, c) && b in f.blocks && b.Orig?
    ensures b in tails && b in c.blocks
    ensures c.blocks[b] == ForcedBlock(b.b, WithThunk(f, a).blocks[b], calls, tails[b], Res(a.crit))
    ensures WithThunk(f, a).blocks.Keys == f.blocks.Keys
    ensures WithThunk(f, a).blocks[b].phis == f.blocks[b].phis && WithThunk(f, a).blocks[b].term == f.blocks[b].term
    ensures f.blocks[b] == WithThunk(f, a).blocks[b].(body := f.blocks[b].body)
  {
    ForcedParts(f, a, calls, tails, c);
    hide Forced, CallsExact, TailsExact, ForcedBlock, LazyBody;
  }

  /** The calls for the phis of a block have been made when it is entered from `b`. */
  lemma TailsServe(f: Function, a: Site, tails: map<BlockRef, seq<Use>>, b: BlockRef, x: BlockRef, env: map<Id, int>)
    requires TailsExact(WithThunk(f, a), Res(a.crit), tails) && b in f.blocks && x in f.blocks && b in tails
    requires forall u | u in tails[b] :: ForceId(u.0, u.1) in env
    ensures EdgeForced(f.blocks[x].phis, Res(a.crit), b, env)
  {
    LazyBlocks(f, a, x);
    LazyBlocks(f, a, b);
    hide TailsExact, EdgeForced, WithThunk;
    TailForcesEdge(WithThunk(f, a), Res(a.crit), tails, b, x, env);
  }

  lemma BeforeRuns(ops: Ops, w: Life, f: Function, a: Site, calls: map<Id, seq<nat>>,
                   tails: map<BlockRef, seq<Use>>, c: Function,
                   es: State, ls: State)
    requires Both(w, f, a, calls, tails, c) && GoodSite(f, a) && |f.order| > 0
    requires CallersInStep(ops, w, f, a, es, ls) && BeforeThunk(ops, w, f, a, es, ls) && es.block != Parent(a.crit)
    ensures EndAlike(ops, f, c, es, ls)
    ensures Lock(ops, w, false, ExecBlock(ops, f.blocks[es.block], es.prev, es.frame), ExecBlock(ops, c.blocks[ls.block], ls.prev, ls.frame))
    ensures !Dominates(GraphOf(f), f.order[0], Parent(a.crit), es.block)
  {
    var b := es.block;
    hide Both, GoodCaller, Forced, Lock, Captures, NotPast, Foreseen, WithSomeThunk, Dominates, GoodForced,
         ExecBlock, EagerBody, ForcedBlock, GoodSite, GoodPhis, EdgeUses, EdgeForced, BlockAfter;
    BothParts(w, f, a, calls, tails, c);
    NotPastIsFree(GraphOf(f), f.order[0], Parent(a.crit), b);
    QuietEntry(w, f, a, b, es.prev);
    QuietBlock(w, f, a, calls, tails, c, b);
    ForcedIs(f, a, calls, tails, c, b);
    BlockLocks(ops, w, false, es.frame, ls.frame, b.b, WithThunk(f, a).blocks[b], calls, tails[b], es.prev);
    StillIdle(ops, w, BlockAfter(ops, w, WithThunk(f, a).blocks[b], tails[b] != [], es.prev, es.frame),
              ExecBlock(ops, f.blocks[b], es.prev, es.frame), ExecBlock(ops, c.blocks[b], ls.prev, ls.frame));
  }

  lemma StillIdle(ops: Ops, w: Life, w': Life, ef: Frame, lf: Frame)
    requires Lock(ops, w', false, ef, lf) && w' == w.(kept := w'.kept)
    ensures Lock(ops, w, false, ef, lf)
  {
  }

  lemma StepBefore(ops: Ops, w: Life, f: Function, a: Site, calls: map<Id, seq<nat>>,
                   tails: map<BlockRef, seq<Use>>, c: Function,
                   es: State, ls: State)
    requires Both(w, f, a, calls, tails, c) && GoodSite(f, a) && |f.order| > 0
    requires CallersInStep(ops, w, f, a, es, ls) && BeforeThunk(ops, w, f, a, es, ls) && es.block != Parent(a.crit)
    ensures CallersAgree(ops, w, f, a, Step(ops, f, es), Step(ops, c, ls))
  {
    hide Both, GoodCaller, Forced, Lock, Captures, NotPast, Foreseen, WithSomeThunk, Dominates, GoodForced,
         ExecBlock, EagerBody, ForcedBlock, GoodSite, GoodPhis, EdgeUses, EdgeForced, Step, EndAlike, OnCycle,
         TailsExact, GraphOf;
    BothParts(w, f, a, calls, tails, c);
    BeforeRuns(ops, w, f, a, calls, tails, c, es, ls);
    var ef, lf := ExecBlock(ops, f.blocks[es.block], es.prev, es.frame), ExecBlock(ops, c.blocks[ls.block], ls.prev, ls.frame);
    BlockHere(ops, f, c, es, ls);
    BothGo(ops, f, c, es, ls);
    LockedMem(ops, w, false, ef, lf);
    var o := Step(ops, f, es);
    if o.Running? {
      NotPastGoesOn(GraphOf(f), f.order[0], Parent(a.crit), es.block, o.st.block);
      ForeseenNext(ops, f, a, w, es);
      BlockKeepsArgs(ops, c.blocks[ls.block], ls.prev, ls.frame);
      assert BeforeThunk(ops, w, f, a, o.st, Step(ops, c, ls).st);
    }
  }

  /** From a block that leaves the thunk ready, the runs stay in step. */
  lemma StepReady(ops: Ops, w: Life, f: Function, a: Site, calls: map<Id, seq<nat>>,
                  tails: map<BlockRef, seq<Use>>, c: Function,
                  es: State, ls: State)
    requires Both(w, f, a, calls, tails, c) && GoodSite(f, a) && |f.order| > 0 && Promised(ops, w)
    requires RunUses(ops, w, PassedThunk(f, a), f, es)
    requires EndAlike(ops, f, c, es, ls) && es.block in tails
    requires es.block == Parent(a.crit) || Past(GraphOf(f), Parent(a.crit), es.block)
    requires var lf := ExecBlock(ops, c.blocks[ls.block], ls.prev, ls.frame);
      && Lock(ops, LifeAfter(ops, w, PassedThunk(f, a), es), true, ExecBlock(ops, f.blocks[es.block], es.prev, es.frame), lf)
      && forall u | u in tails[es.block] :: ForceId(u.0, u.1) in lf.env
    ensures CallersAgree(ops, w, f, a, Step(ops, f, es), Step(ops, c, ls))
    ensures Step(ops, f, es).Running? ==> WithSomeThunk(ops, w, f, a, Step(ops, f, es).st, Step(ops, c, ls).st)
  {
    hide Both, GoodCaller, Forced, Lock, Promised, Past, BeforeThunk, Dominates, ExecBlock, GoodSite,
         EdgeForced, RunUses, PassedThunk, Step, EndAlike, OnCycle, TailsExact, GraphOf, LifeAfter;
    var w1 := LifeAfter(ops, w, PassedThunk(f, a), es);
    BothParts(w, f, a, calls, tails, c);
    BlockHere(ops, f, c, es, ls);
    var ef, lf := ExecBlock(ops, f.blocks[es.block], es.prev, es.frame), ExecBlock(ops, c.blocks[ls.block], ls.prev, ls.frame);
    BothGo(ops, f, c, es, ls);
    LockedMem(ops, w1, true, ef, lf);
    StillPromised(ops, w, w1);
    var o := Step(ops, f, es);
    if o.Running? {
      PastGoesOn(GraphOf(f), Parent(a.crit), es.block, o.st.block);
      UsesNext(ops, w, PassedThunk(f, a), f, es);
      TailsServe(f, a, tails, es.block, o.st.block, lf.env);
      assert WithReadyThunk(ops, w.(kept := w1.kept), f, a, o.st, Step(ops, c, ls).st);
    }
  }

  lemma HomeIsServed(ops: Ops, w: Life, f: Function, a: Site, es: State)
    requires RunUses(ops, w, PassedThunk(f, a), f, es) && es.block == Parent(a.crit) && es.block in f.blocks
    ensures HomeServed(ops, w, f, a, es.prev, es.frame)
  {
    PassedBlock(f, a, es.block);
    hide RunUses, PassedThunk, BlockUses, TailUsed;
    UsesHere(ops, w, PassedThunk(f, a), f, es);
  }

  /** In a block other than the criterion's only the call has changed. */
  lemma BusyIsServed(ops: Ops, w: Life, f: Function, a: Site, calls: map<Id, seq<nat>>, tails: map<BlockRef, seq<Use>>,
                     c: Function, es: State)
    requires RunUses(ops, w, PassedThunk(f, a), f, es) && es.block != Parent(a.crit) && es.block in f.blocks
    requires Forced(f, a, calls, tails, c) && w.target == Res(a.crit)
    ensures es.block in tails && es.block in WithThunk(f, a).blocks
    ensures BlockUses(ops, w, WithThunk(f, a).blocks[es.block], tails[es.block] != [], es.prev, es.frame)
    ensures LifeAfter(ops, w, PassedThunk(f, a), es) ==
      BlockAfter(ops, w, WithThunk(f, a).blocks[es.block], tails[es.block] != [], es.prev, es.frame)
  {
    var b := es.block;
    PassedBlock(f, a, b);
    LazyBlocks(f, a, b);
    TailUsedAsPassed(f, a, calls, tails, c, b);
    assert WithThunk(f, a).blocks[b] == PassedThunk(f, a).blocks[b];
    LifeAfterIs(ops, w, PassedThunk(f, a), es);
    hide RunUses, PassedThunk, WithThunk, BlockUses, BlockAfter, LifeAfter, TailUsed, Forced;
    UsesHere(ops, w, PassedThunk(f, a), f, es);
  }

  lemma StepHome(ops: Ops, w: Life, f: Function, a: Site, calls: map<Id, seq<nat>>,
                 tails: map<BlockRef, seq<Use>>, c: Function,
                 es: State, ls: State)
    requires Both(w, f, a, calls, tails, c) && GoodSite(f, a) && |f.order| > 0
    requires CallersInStep(ops, w, f, a, es, ls) && BeforeThunk(ops, w, f, a, es, ls) && es.block == Parent(a.crit)
    ensures CallersAgree(ops, w, f, a, Step(ops, f, es), Step(ops, c, ls))
  {
    hide Both, GoodCaller, Forced, Lock, Captures, NotPast, Foreseen, WithSomeThunk, Dominates, ExecBlock,
         GoodSite, Step, OnCycle, TailsExact, GraphOf, Promised, PhisReady, Eval, RunUses, HomeServed, PassedThunk, LifeAfter;
    BothParts(w, f, a, calls, tails, c);
    ForeseenNow(ops, f, a, w, es);
    QuietEntry(w, f, a, es.block, es.prev);
    HomeIsServed(ops, w, f, a, es);
    HomeLocks(ops, w, f, a, calls, tails, c, es.prev, es.frame, ls.frame);
    StepReady(ops, w, f, a, calls, tails, c, es, ls);
  }

  lemma StepAfter(ops: Ops, w: Life, f: Function, a: Site, calls: map<Id, seq<nat>>,
                  tails: map<BlockRef, seq<Use>>, c: Function,
                  es: State, ls: State)
    requires Both(w, f, a, calls, tails, c) && GoodSite(f, a) && |f.order| > 0
    requires es.block == ls.block && es.prev == ls.prev && es.block in f.blocks && WithReadyThunk(ops, w, f, a, es, ls)
    ensures CallersAgree(ops, w, f, a, Step(ops, f, es), Step(ops, c, ls))
    ensures Step(ops, f, es).Running? ==> WithSomeThunk(ops, w, f, a, Step(ops, f, es).st, Step(ops, c, ls).st)
  {
    hide Both, GoodCaller, Forced, Lock, Past, BeforeThunk, Dominates, ExecBlock, GoodSite, Step, OnCycle,
         TailsExact, GraphOf, Promised, Eval, GoodForced, EdgeForced, EagerBody, ForcedBlock, RunUses, BlockUses, LifeAfter, BlockAfter;
    BothParts(w, f, a, calls, tails, c);
    var b := es.block;
    PastIsElsewhere(GraphOf(f), Parent(a.crit), b);
    BusyBlock(w, f, a, calls, tails, c, b);
    ForcedIs(f, a, calls, tails, c, b);
    BusyIsServed(ops, w, f, a, calls, tails, c, es);
    BlockLocks(ops, w, true, es.frame, ls.frame, b.b, WithThunk(f, a).blocks[b], calls, tails[b], es.prev);
    StepReady(ops, w, f, a, calls, tails, c, es, ls);
  }

  /** What is known of the thunk does not matter to the callers. */
  lemma AgreeAnyway(ops: Ops, w: Life, k: bool, f: Function, a: Site, oe: Outcome, ol: Outcome)
    requires GoodSite(f, a) && |f.order| > 0 && CallersAgree(ops, w.(kept := k), f, a, oe, ol)
    requires oe.Running? ==> WithSomeThunk(ops, w.(kept := k), f, a, oe.st, ol.st)
    ensures CallersAgree(ops, w, f, a, oe, ol)
  {
    hide BeforeThunk, GoodSite, WithReadyThunk;
    if oe.Running? {
      var k' :| WithReadyThunk(ops, w.(kept := k).(kept := k'), f, a, oe.st, ol.st);
      assert w.(kept := k).(kept := k') == w.(kept := k');
    }
  }

  lemma BothAnyway(w: Life, k: bool, f: Function, a: Site, calls: map<Id, seq<nat>>, tails: map<BlockRef, seq<Use>>, c: Function)
    requires Both(w, f, a, calls, tails, c)
    ensures Both(w.(kept := k), f, a, calls, tails, c)
  {
    hide GoodCaller, Forced;
  }

  lemma {:induction false} CallersRunInStep(ops: Ops, w: Life, f: Function, a: Site, calls: map<Id, seq<nat>>,
                                            tails: map<BlockRef, seq<Use>>,
                                            c: Function, oe: Outcome, ol: Outcome, n: nat)
    requires Both(w, f, a, calls, tails, c) && GoodSite(f, a) && |f.order| > 0
    requires CallersAgree(ops, w, f, a, oe, ol)
    ensures CallersAgree(ops, w, f, a, Run(ops, f, oe, n), Run(ops, c, ol, n))
    decreases n
  {
    hide Both, GoodSite, BeforeThunk, WithReadyThunk, Step;
    if n > 0 && oe.Running? {
      var es, ls := oe.st, ol.st;
      if WithSomeThunk(ops, w, f, a, es, ls) {
        var k :| WithReadyThunk(ops, w.(kept := k), f, a, es, ls);
        BothAnyway(w, k, f, a, calls, tails, c);
        StepAfter(ops, w.(kept := k), f, a, calls, tails, c, es, ls);
        AgreeAnyway(ops, w, k, f, a, Step(ops, f, es), Step(ops, c, ls));
      } else if es.block == Parent(a.crit) {
        StepHome(ops, w, f, a, calls, tails, c, es, ls);
      } else {
        StepBefore(ops, w, f, a, calls, tails, c, es, ls);
      }
      CallersRunInStep(ops, w, f, a, calls, tails, c, Step(ops, f, es), Step(ops, c, ls), n - 1);
    }
  }

  /** The frames in which the two runs start. */
  ghost predicate SameStart(a: Site, w: Life, ef: Frame, lf: Frame) {
    && ef.env == map[] && lf.env == map[] && ef.mem == lf.mem && ef.args == lf.args && Captures(a, w.env, lf.args)
  }

  /** Call-by-need equals call-by-value on the caller's side, for every number of steps: if, should the run
      come to the criterion, delegate and clone keep their promises and the uses that follow agree, then the
      rewritten caller goes through the same blocks, ends when the caller does, with the same result and
      the same memory. */
  lemma {:induction false} CallerCallByNeed(ops: Ops, w: Life, f: Function, a: Site, calls: map<Id, seq<nat>>,
                                            tails: map<BlockRef, seq<Use>>, c: Function,
                         ef: Frame, lf: Frame, n: nat)
    requires GoodCaller(f, a) && Forced(f, a, calls, tails, c) && w.target == Res(a.crit)
    requires |f.order| > 0 && SameStart(a, w, ef, lf) && GoodSite(f, a) && Foreseen(ops, f, a, w, Start(f, ef)) && !w.kept
    ensures |c.order| > 0
    ensures CallersAgree(ops, w, f, a, Run(ops, f, Running(Start(f, ef)), n), Run(ops, c, Running(Start(c, lf)), n))
  {
    hide GoodCaller, Forced, GoodSite, Captures, Foreseen, Dominates, NotPast, OnCycle, TailsExact, GraphOf,
         WithReadyThunk;
    BothParts(w, f, a, calls, tails, c);
    AtEntry(GraphOf(f), f.order[0], Parent(a.crit));
    StartLocks(ops, a, w, ef, lf);
    hide Both, Lock;
    assert BeforeThunk(ops, w, f, a, Start(f, ef), Start(c, lf));
    CallersRunInStep(ops, w, f, a, calls, tails, c, Running(Start(f, ef)), Running(Start(c, lf)), n);
  }

  lemma StartLocks(ops: Ops, a: Site, w: Life, ef: Frame, lf: Frame)
    requires SameStart(a, w, ef, lf)
    ensures Lock(ops, w, false, ef, lf)
  {
  }
}
