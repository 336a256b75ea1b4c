/** Whole runs: for every run of the caller that reaches the criterion, the delegate visits the slice
    blocks of that run, in order, and returns the value of the criterion. */
module RunSimulation {
  import opened Graphs
  import opened Ir
  import opened Slices
  import opened Arrivals
  import opened Delegates
  import opened Rerouting
  import opened Machine
  import opened Simulation

  // ---- runs ----

  /** `n` steps lead from `st` to `home`, which is not visited before. */
  ghost predicate ReachesIn(ops: Ops, f: Function, home: BlockRef, st: State, n: nat)
    decreases n
  {
    if n == 0 then st.block == home else
      st.block != home && Step(ops, f, st).Running? && ReachesIn(ops, f, home, Step(ops, f, st).st, n - 1)
  }

  /** In the first `n` steps and at the end, the sliced instructions compute over `mem` what they compute
      in the run. */
  ghost predicate RunStable(ops: Ops, f: Function, s: Slice, mem: Mem, st: State, n: nat)
    decreases n
  {
    && (st.block in f.blocks ==> BlockStable(ops, s, mem, f.blocks[st.block], st.prev, st.frame))
    && (n > 0 && Step(ops, f, st).Running? ==> RunStable(ops, f, s, mem, Step(ops, f, st).st, n - 1))
  }

  lemma {:induction false} StableHere(ops: Ops, f: Function, s: Slice, mem: Mem, st: State, n: nat)
    requires RunStable(ops, f, s, mem, st, n) && st.block in f.blocks
    ensures BlockStable(ops, s, mem, f.blocks[st.block], st.prev, st.frame)
  {
    hide BlockStable, Step;
  }

  lemma StableNext(ops: Ops, f: Function, s: Slice, mem: Mem, st: State, n: nat)
    requires RunStable(ops, f, s, mem, st, n) && n > 0 && Step(ops, f, st).Running?
    ensures RunStable(ops, f, s, mem, Step(ops, f, st).st, n - 1)
  {
    hide BlockStable, Step;
  }

  /** The values a slice can see. */
  function Visible(s: Slice, env: map<Id, int>): map<Id, int> {
    map id | id in env && s.Has(id) :: env[id]
  }

  /** A visit to a slice block: its clone's name, and what the slice sees when the block is done. */
  function Visit(ops: Ops, f: Function, s: Slice, bbs: set<BlockRef>, st: State): seq<(BlockRef, map<Id, int>)> {
    if st.block in bbs && st.block in f.blocks
    then [(CloneOf(st.block), Visible(s, ExecBlock(ops, f.blocks[st.block], st.prev, st.frame).env))]
    else []
  }

  /** All visits to the blocks `bbs` in the first `n` steps and at the end. */
  function Visits(ops: Ops, f: Function, s: Slice, bbs: set<BlockRef>, st: State, n: nat): seq<(BlockRef, map<Id, int>)>
    decreases n
  {
    if n == 0 || !Step(ops, f, st).Running? then Visit(ops, f, s, bbs, st)
    else Visit(ops, f, s, bbs, st) + Visits(ops, f, s, bbs, Step(ops, f, st).st, n - 1)
  }

  /** The frame after the block reached in `n` steps. */
  function FrameAfter(ops: Ops, f: Function, st: State, n: nat): Frame
    decreases n
  {
    if n > 0 && Step(ops, f, st).Running? then FrameAfter(ops, f, Step(ops, f, st).st, n - 1)
    else if st.block in f.blocks then ExecBlock(ops, f.blocks[st.block], st.prev, st.frame)
    else st.frame
  }

  // ---- what the argument needs of a function and its slice ----

  ghost predicate UnslicedBlockOf(s: Slice, blk: Block) {
    (forall p | p in blk.phis :: !s.Has(p.id)) && (forall i | i in blk.body :: !s.Has(i.id))
  }

  /** A block that holds a sliced phi is only entered from slice blocks. */
  ghost predicate PhisEntered(f: Function, s: Slice, b: BlockRef)
    requires b in f.blocks
  {
    forall p, q | p in f.blocks[b].phis && s.Has(p.id) && (q, b) in GraphOf(f).edges :: q in s.blocks
  }

  ghost predicate SetBlock(f: Function, s: Slice, b: BlockRef)
    requires b in f.blocks
  {
    && BlockReady(s, f.blocks[b])
    && (b !in s.blocks ==> UnslicedBlockOf(s, f.blocks[b]))
    && PhisEntered(f, s, b)
    && (s.Ends(b) ==> forall v | v in f.blocks[b].term.value.Values() :: Seen(s, v))
  }

  ghost predicate Setting(f: Function, s: Slice) {
    && Shaped(f) && s.blocks <= f.blocks.Keys
    && forall b | b in f.blocks :: SetBlock(f, s, b)
  }

  /** The clone of `b` in the delegate. */
  ghost predicate ClonedIn(f: Function, s: Slice, args: seq<nat>, base: nat, d: Function, b: BlockRef, t: Option<Term>)
    requires b in f.blocks
  {
    CloneOf(b) in d.blocks && d.blocks[CloneOf(b)] == LoadBlock(ClonedBlock(f, s, b).(term := t), args, base)
  }

  // ---- one step ----

  lemma {:induction false} CaseIndexInRange(ls: seq<int>, v: int)
    ensures CaseIndex(ls, v) <= |ls|
  {
    if ls != [] && ls[0] != v {
      CaseIndexInRange(ls[1..], v);
    }
  }

  /** A sliced terminator chooses the same way in the caller and in the delegate. */
  lemma ChoiceAgrees(s: Slice, args: seq<nat>, base: nat, mem: Mem, cf: Frame, df: Frame, t: Term, ss: seq<BlockRef>)
    returns (i: nat)
    requires Agree(s, args, base, mem, cf, df) && (forall v | v in t.Values() :: Seen(s, v))
    requires |ss| == |t.Succs()| && Choose(Some(t), cf).Goto?
    ensures i < |ss| && Choose(Some(t), cf) == Goto(t.Succs()[i])
    ensures Choose(Some(LoadTerm(t.WithSuccs(ss), args, base)), df) == Goto(ss[i])
  {
    match t
    case Br(_) => i := 0;
    case CondBr(c, _, _) =>
      assert c in t.Values();
      EvalAgrees(s, args, base, mem, cf, df, c);
      i := if Eval(c, cf) != 0 then 0 else 1;
    case Switch(c, ls, _) =>
      assert c in t.Values();
      EvalAgrees(s, args, base, mem, cf, df, c);
      i := CaseIndex(ls, Eval(c, cf));
  }

  /** One step from a slice block other than the criterion's: the delegate goes where the caller will
      next enter the slice. */
  lemma StepAgrees(ops: Ops, f: Function, s: Slice, args: seq<nat>, base: nat, mem: Mem, d: Function,
                   cs: State, ds: State, t: Option<Term>, y: BlockRef)
    requires cs.block in s.blocks && cs.block in f.blocks && SetBlock(f, s, cs.block) && |f.order| > 0
    requires BlockStable(ops, s, mem, f.blocks[cs.block], cs.prev, cs.frame)
    requires ds.block == CloneOf(cs.block) && ClonedIn(f, s, args, base, d, cs.block, t)
    requires Rerouted(f, s, cs.block, t) && FaithfulAt(f, s, cs.block, d.blocks[ds.block].term)
    requires Agree(s, args, base, mem, cs.frame, ds.frame) && SameEdge(s, f.blocks[cs.block].phis, cs.prev, ds.prev)
    requires Step(ops, f, cs).Running? && Arrives(GraphOf(f), s.blocks, Step(ops, f, cs).st.block, y)
    ensures Step(ops, d, ds).Running?
    ensures var c', d' := Step(ops, f, cs).st, Step(ops, d, ds).st;
      && Agree(s, args, base, mem, c'.frame, d'.frame) && d'.block == CloneOf(y) && d'.prev == Some(CloneOf(cs.block))
      && c'.prev == Some(cs.block) && (cs.block, c'.block) in GraphOf(f).edges
      && d'.frame == ds.frame.(env := d'.frame.env)
      && d'.frame == ExecBlock(ops, d.blocks[ds.block], ds.prev, ds.frame)
  {
    var b := cs.block;
    BlockAgrees(ops, f, s, args, base, mem, b, cs.frame, ds.frame, cs.prev, ds.prev, t);
    var cf, df := ExecBlock(ops, f.blocks[b], cs.prev, cs.frame), ExecBlock(ops, d.blocks[ds.block], ds.prev, ds.frame);
    hide Agree, SetBlock, ExecBlock, SameEdge, Arrives, ClonedBlock, LoadPhis, LoadBody;
    var orig, a := f.blocks[b].term.value, Step(ops, f, cs).st.block;
    GotoIsSucc(Some(orig), cf);
    if s.Ends(b) {
      SlicedStep(ops, f, s, args, base, mem, b, cf, df, t.value, a, y);
    } else {
      assert Leaves(GraphOf(f), s.blocks, b, y);
    }
  }

  lemma SlicedStep(ops: Ops, f: Function, s: Slice, args: seq<nat>, base: nat, mem: Mem, b: BlockRef,
                   cf: Frame, df: Frame, t: Term, a: BlockRef, y: BlockRef)
    requires b in f.blocks && SetBlock(f, s, b) && |f.order| > 0 && s.Ends(b)
    requires Rerouted(f, s, b, Some(t)) && FaithfulAt(f, s, b, Some(LoadTerm(t, args, base)))
    requires Agree(s, args, base, mem, cf, df) && Choose(f.blocks[b].term, cf) == Goto(a)
    requires Arrives(GraphOf(f), s.blocks, a, y)
    ensures Choose(Some(LoadTerm(t, args, base)), df) == Goto(CloneOf(y))
  {
    var orig := f.blocks[b].term.value;
    var i := ChoiceAgrees(s, args, base, mem, cf, df, orig, TargetsOf(s.attractors, orig.Succs()));
    hide Arrives, Agree;
    assert FaithfulTarget(GraphOf(f), s.blocks, f.blocks[b].Succs()[i], LoadTerm(t, args, base).Succs()[i]);
  }

  // ---- through the blocks the slice leaves out ----

  lemma ArrivesThrough(g: Graph, bbs: set<BlockRef>, a: BlockRef, b: BlockRef, y: BlockRef)
    requires a in g.nodes && a !in bbs && (a, b) in g.edges && Arrives(g, bbs, b, y)
    ensures Arrives(g, bbs, a, y)
  {
    var q :| ArrivesBy(g, bbs, q, b, y);
    StepThen(g, a, q, b, y);
    assert ArrivesBy(g, bbs, [a] + q, a, y);
  }

  lemma UnslicedStep(ops: Ops, f: Function, s: Slice, args: seq<nat>, base: nat, mem: Mem, cs: State, df: Frame)
    requires Setting(f, s) && cs.block in f.blocks && cs.block !in s.blocks
    requires Agree(s, args, base, mem, cs.frame, df) && Step(ops, f, cs).Running?
    ensures var next := Step(ops, f, cs).st;
      && next.block in f.blocks && (cs.block, next.block) in GraphOf(f).edges && next.prev == Some(cs.block)
      && Agree(s, args, base, mem, next.frame, df)
  {
    var blk := f.blocks[cs.block];
    assert SetBlock(f, s, cs.block);
    UnslicedBlock(ops, s, args, base, mem, blk, cs.prev, cs.frame, df);
    GotoIsSucc(blk.term, ExecBlock(ops, blk, cs.prev, cs.frame));
  }

  /** From any block, the run towards the criterion enters the slice, having changed nothing the slice
      can see. */
  lemma {:induction false} SkipToSlice(ops: Ops, f: Function, s: Slice, args: seq<nat>, base: nat, mem: Mem,
                                       cs: State, df: Frame, n: nat) returns (j: nat, c': State)
    requires Setting(f, s) && s.Home() in s.blocks && cs.block in f.blocks
    requires Agree(s, args, base, mem, cs.frame, df) && ReachesIn(ops, f, s.Home(), cs, n)
    requires RunStable(ops, f, s, mem, cs, n)
    ensures j <= n && c'.block in s.blocks && c'.block in f.blocks && Arrives(GraphOf(f), s.blocks, cs.block, c'.block)
    ensures Agree(s, args, base, mem, c'.frame, df) && ReachesIn(ops, f, s.Home(), c', n - j)
    ensures RunStable(ops, f, s, mem, c', n - j)
    ensures Visits(ops, f, s, s.blocks, cs, n) == Visits(ops, f, s, s.blocks, c', n - j)
    ensures FrameAfter(ops, f, cs, n) == FrameAfter(ops, f, c', n - j)
    ensures j == 0 ==> c' == cs
    ensures j > 0 ==> c'.prev.Some? && c'.prev.value !in s.blocks && (c'.prev.value, c'.block) in GraphOf(f).edges
    decreases n
  {
    hide Setting, Agree, Arrives, Step, GraphOf, BlockStable;
    if cs.block in s.blocks {
      NodesAreBlocks(f);
      ArrivesAtOnce(GraphOf(f), s.blocks, cs.block);
      j, c' := 0, cs;
    } else {
      NodesAreBlocks(f);
      UnslicedStep(ops, f, s, args, base, mem, cs, df);
      var next := Step(ops, f, cs).st;
      var i;
      i, c' := SkipToSlice(ops, f, s, args, base, mem, next, df, n - 1);
      j := i + 1;
      ArrivesThrough(GraphOf(f), s.blocks, cs.block, next.block, c'.block);
    }
  }

  lemma NodesAreBlocks(f: Function)
    ensures GraphOf(f).nodes == f.blocks.Keys
  {
  }

  // ---- whole runs ----

  ghost predicate FollowsAt(f: Function, s: Slice, args: seq<nat>, base: nat, d: Function, b: BlockRef)
    requires b in f.blocks && f.blocks[b].term.Some? && |f.order| > 0
  {
    exists t :: ClonedIn(f, s, args, base, d, b, t) &&
      if b == s.Home() then t == Some(Ret(Res(s.crit)))
      else Rerouted(f, s, b, t) && FaithfulAt(f, s, b, d.blocks[CloneOf(b)].term)
  }

  ghost predicate Follows(f: Function, s: Slice, args: seq<nat>, base: nat, d: Function)
    requires Shaped(f) && s.blocks <= f.blocks.Keys
  {
    forall b | b in s.blocks :: FollowsAt(f, s, args, base, d, b)
  }

  ghost function Clones(s: Slice): set<BlockRef> {
    set b | b in s.blocks :: CloneOf(b)
  }

  /** After `k` steps the delegate is in the criterion's block, and the next step returns `v`, having
      written neither memory nor thunk. */
  ghost predicate ReturnsAfter(ops: Ops, d: Function, ds: State, k: nat, v: int) {
    var o := Run(ops, d, Running(ds), k + 1);
    o.Finished? && o.value == v && o.frame.mem == ds.frame.mem && o.frame.slots == ds.frame.slots
  }

  lemma SameVisit(ops: Ops, f: Function, s: Slice, args: seq<nat>, base: nat, mem: Mem, d: Function,
                  cs: State, ds: State, t: Option<Term>)
    requires cs.block in s.blocks && cs.block in f.blocks && SetBlock(f, s, cs.block)
    requires BlockStable(ops, s, mem, f.blocks[cs.block], cs.prev, cs.frame)
    requires ds.block == CloneOf(cs.block) && ClonedIn(f, s, args, base, d, cs.block, t)
    requires Agree(s, args, base, mem, cs.frame, ds.frame) && SameEdge(s, f.blocks[cs.block].phis, cs.prev, ds.prev)
    ensures Visit(ops, d, s, Clones(s), ds) == Visit(ops, f, s, s.blocks, cs)
  {
    BlockAgrees(ops, f, s, args, base, mem, cs.block, cs.frame, ds.frame, cs.prev, ds.prev, t);
    var cf := ExecBlock(ops, f.blocks[cs.block], cs.prev, cs.frame);
    var df := ExecBlock(ops, d.blocks[ds.block], ds.prev, ds.frame);
    assert Visible(s, cf.env) == Visible(s, df.env);
  }

  /** In the criterion's block the delegate returns the criterion's value. */
  lemma {:induction false} HomeReturns(ops: Ops, f: Function, s: Slice, args: seq<nat>, base: nat,
                                       mem: Mem, d: Function,
                    cs: State, ds: State)
    requires cs.block == s.Home() && cs.block in s.blocks && cs.block in f.blocks && SetBlock(f, s, cs.block)
    requires BlockStable(ops, s, mem, f.blocks[cs.block], cs.prev, cs.frame)
    requires ds.block == CloneOf(cs.block) && ClonedIn(f, s, args, base, d, cs.block, Some(Ret(Res(s.crit))))
    requires Agree(s, args, base, mem, cs.frame, ds.frame) && SameEdge(s, f.blocks[cs.block].phis, cs.prev, ds.prev)
    requires s.Has(s.crit)
    ensures ReturnsAfter(ops, d, ds, 0, Eval(Res(s.crit), FrameAfter(ops, f, cs, 0)))
  {
    BlockAgrees(ops, f, s, args, base, mem, cs.block, cs.frame, ds.frame, cs.prev, ds.prev, Some(Ret(Res(s.crit))));
    assert Run(ops, d, Running(ds), 1) == Step(ops, d, ds);
  }

  /** The edges by which a slice block is entered correspond. */
  lemma EdgesCorrespond(f: Function, s: Slice, j: nat, b: BlockRef, c: State,
                        c': State, dprev: Option<BlockRef>)
    requires c'.block in f.blocks && SetBlock(f, s, c'.block)
    requires c.prev == Some(b) && b in s.blocks && dprev == Some(CloneOf(b))
    requires j == 0 ==> c' == c
    requires j > 0 ==> c'.prev.Some? && c'.prev.value !in s.blocks && (c'.prev.value, c'.block) in GraphOf(f).edges
    ensures SameEdge(s, f.blocks[c'.block].phis, c'.prev, dprev)
  {
  }

  lemma {:induction false} SimulateFrom(ops: Ops, f: Function, s: Slice, args: seq<nat>, base: nat,
                                        mem: Mem, d: Function,
                                        cs: State, ds: State, n: nat) returns (k: nat)
    requires Setting(f, s) && Follows(f, s, args, base, d) && s.Home() in s.blocks && s.Has(s.crit)
    requires cs.block in s.blocks && cs.block in f.blocks && ds.block == CloneOf(cs.block)
    requires Agree(s, args, base, mem, cs.frame, ds.frame) && SameEdge(s, f.blocks[cs.block].phis, cs.prev, ds.prev)
    requires ReachesIn(ops, f, s.Home(), cs, n)
    requires RunStable(ops, f, s, mem, cs, n)
    ensures ReachesIn(ops, d, CloneOf(s.Home()), ds, k)
    ensures Visits(ops, d, s, Clones(s), ds, k) == Visits(ops, f, s, s.blocks, cs, n)
    ensures ReturnsAfter(ops, d, ds, k, Eval(Res(s.crit), FrameAfter(ops, f, cs, n)))
    decreases n, 1
  {
    assert SetBlock(f, s, cs.block) && FollowsAt(f, s, args, base, d, cs.block);
    var t :| ClonedIn(f, s, args, base, d, cs.block, t) &&
      if cs.block == s.Home() then t == Some(Ret(Res(s.crit)))
      else Rerouted(f, s, cs.block, t) && FaithfulAt(f, s, cs.block, d.blocks[CloneOf(cs.block)].term);
    StableHere(ops, f, s, mem, cs, n);
    SameVisit(ops, f, s, args, base, mem, d, cs, ds, t);
    if n == 0 {
      HomeReturns(ops, f, s, args, base, mem, d, cs, ds);
      k := 0;
    } else {
      k := SimulateStep(ops, f, s, args, base, mem, d, cs, ds, n, t);
    }
  }

  lemma {:induction false} SimulateStep(ops: Ops, f: Function, s: Slice, args: seq<nat>, base: nat,
                                        mem: Mem, d: Function,
                                        cs: State, ds: State, n: nat, t: Option<Term>) returns (k: nat)
    requires Setting(f, s) && Follows(f, s, args, base, d) && s.Home() in s.blocks && s.Has(s.crit)
    requires cs.block in s.blocks && cs.block in f.blocks && ds.block == CloneOf(cs.block) && cs.block != s.Home()
    requires Agree(s, args, base, mem, cs.frame, ds.frame) && SameEdge(s, f.blocks[cs.block].phis, cs.prev, ds.prev)
    requires n > 0 && ReachesIn(ops, f, s.Home(), cs, n)
    requires SetBlock(f, s, cs.block) && ClonedIn(f, s, args, base, d, cs.block, t)
    requires Rerouted(f, s, cs.block, t) && FaithfulAt(f, s, cs.block, d.blocks[CloneOf(cs.block)].term)
    requires Visit(ops, d, s, Clones(s), ds) == Visit(ops, f, s, s.blocks, cs)
    requires RunStable(ops, f, s, mem, cs, n)
    ensures ReachesIn(ops, d, CloneOf(s.Home()), ds, k)
    ensures Visits(ops, d, s, Clones(s), ds, k) == Visits(ops, f, s, s.blocks, cs, n)
    ensures ReturnsAfter(ops, d, ds, k, Eval(Res(s.crit), FrameAfter(ops, f, cs, n)))
    decreases n, 0
  {
    hide *;
    CallerPrepend(ops, f, s, s.Home(), cs, n);
    StableHere(ops, f, s, mem, cs, n);
    StableNext(ops, f, s, mem, cs, n);
    CallerSteps(ops, f, s, args, base, mem, d, cs, ds, t);
    var c1 := Step(ops, f, cs).st;
    var df := ExecBlock(ops, d.blocks[ds.block], ds.prev, ds.frame);
    var j, c2 := SkipToSlice(ops, f, s, args, base, mem, c1, df, n - 1);
    SettingAt(f, s, c2.block);
    StepAgrees(ops, f, s, args, base, mem, d, cs, ds, t, c2.block);
    var d1 := Step(ops, d, ds).st;
    EdgesCorrespond(f, s, j, cs.block, c1, c2, d1.prev);
    var i := SimulateFrom(ops, f, s, args, base, mem, d, c2, d1, n - 1 - j);
    k := i + 1;
    ClonesDiffer(f, s, cs.block);
    DelegatePrepend(ops, d, s, CloneOf(s.Home()), ds, i, Eval(Res(s.crit), FrameAfter(ops, f, cs, n)));
  }

  lemma CallerPrepend(ops: Ops, f: Function, s: Slice, home: BlockRef, cs: State, n: nat)
    requires n > 0 && ReachesIn(ops, f, home, cs, n)
    ensures Step(ops, f, cs).Running?
    ensures var c1 := Step(ops, f, cs).st;
      && ReachesIn(ops, f, home, c1, n - 1)
      && Visits(ops, f, s, s.blocks, cs, n) == Visit(ops, f, s, s.blocks, cs) + Visits(ops, f, s, s.blocks, c1, n - 1)
      && FrameAfter(ops, f, cs, n) == FrameAfter(ops, f, c1, n - 1)
  {
  }

  lemma {:induction false} DelegatePrepend(ops: Ops, d: Function, s: Slice, home: BlockRef, ds: State, i: nat, v: int)
    requires ds.block != home && Step(ops, d, ds).Running?
    requires var d1 := Step(ops, d, ds).st;
      && d1.frame == ds.frame.(env := d1.frame.env)
      && ReachesIn(ops, d, home, d1, i) && ReturnsAfter(ops, d, d1, i, v)
    ensures ReachesIn(ops, d, home, ds, i + 1) && ReturnsAfter(ops, d, ds, i + 1, v)
    ensures Visits(ops, d, s, Clones(s), ds, i + 1)
         == Visit(ops, d, s, Clones(s), ds) + Visits(ops, d, s, Clones(s), Step(ops, d, ds).st, i)
  {
    hide Step;
  }

  lemma SettingAt(f: Function, s: Slice, b: BlockRef)
    requires Setting(f, s) && b in f.blocks
    ensures SetBlock(f, s, b) && |f.order| > 0
  {
  }

  lemma ClonesDiffer(f: Function, s: Slice, b: BlockRef)
    requires Setting(f, s) && b in s.blocks && s.Home() in s.blocks && b != s.Home()
    ensures CloneOf(b) != CloneOf(s.Home())
  {
    assert SetBlock(f, s, b);
  }

  lemma CallerSteps(ops: Ops, f: Function, s: Slice, args: seq<nat>, base: nat, mem: Mem, d: Function,
                    cs: State, ds: State, t: Option<Term>)
    requires Setting(f, s) && cs.block in f.blocks && SetBlock(f, s, cs.block)
    requires BlockStable(ops, s, mem, f.blocks[cs.block], cs.prev, cs.frame)
    requires ds.block == CloneOf(cs.block) && ClonedIn(f, s, args, base, d, cs.block, t)
    requires Agree(s, args, base, mem, cs.frame, ds.frame) && SameEdge(s, f.blocks[cs.block].phis, cs.prev, ds.prev)
    requires Step(ops, f, cs).Running?
    ensures ds.block in d.blocks
    ensures var c1 := Step(ops, f, cs).st; var df := ExecBlock(ops, d.blocks[ds.block], ds.prev, ds.frame);
      && c1.block in f.blocks && c1.prev == Some(cs.block) && Agree(s, args, base, mem, c1.frame, df)
  {
    BlockAgrees(ops, f, s, args, base, mem, cs.block, cs.frame, ds.frame, cs.prev, ds.prev, t);
    GotoIsSucc(f.blocks[cs.block].term, ExecBlock(ops, f.blocks[cs.block], cs.prev, cs.frame));
  }
}
