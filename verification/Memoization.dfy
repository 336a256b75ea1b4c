/** The memoization code put around a delegate: what it does to the thunk is what a thunk call does. */
module Memoization {
  import opened Graphs
  import opened Ir
  import opened Gates
  import opened Dependences
  import opened Slices
  import opened Delegates
  import opened SliceFacts
  import opened Rerouting
  import opened Outliner
  import opened Delegation
  import opened Machine
  import opened RunSimulation
  import Forcing

  // ---- the code ----

  /** If the flag is set, the stored value is returned. */
  function MemoCheck(entry: BlockRef): Block {
    Block([], [], Some(CondBr(Field(2), MemoRet, entry)))
  }

  const MemoReturn := Block([], [], Some(Ret(Field(1))))

  /** Otherwise flag and value are stored before the return. */
  function Storing(blk: Block, v: Value): Block {
    blk.(body := blk.body + [Instr(DummyId(TermId(0), 0), MemoStore, [v])])
  }

  function Memoized(d: Function, home: BlockRef, v: Value): (m: Function)
    requires |d.order| > 0 && home in d.blocks
    ensures |m.order| > 0
  {
    Function(d.nargs, [MemoEntry, MemoRet] + d.order,
             d.blocks[home := Storing(d.blocks[home], v)][MemoEntry := MemoCheck(d.order[0])][MemoRet := MemoReturn])
  }

  class Memoizer {
    var blocks: map<BlockRef, Block>
    var order: seq<BlockRef>

    constructor (d: Function)
      ensures blocks == d.blocks && order == d.order
    {
      blocks, order := d.blocks, d.order;
    }

    /** Creates the two blocks in front of the entry, and the stores before the return in `home`. */
    method AddMemoizationCode(ghost d: Function, home: BlockRef)
      requires |d.order| > 0 && blocks == d.blocks && order == d.order && home in d.blocks
      requires d.blocks[home].term.Some? && d.blocks[home].term.value.Ret? && home != MemoEntry && home != MemoRet
      modifies this
      ensures Function(d.nargs, order, blocks) == Memoized(d, home, d.blocks[home].term.value.value)
      ensures order == [MemoEntry, MemoRet] + old(order) && blocks.Keys == old(blocks).Keys + {MemoEntry, MemoRet}
      ensures blocks[MemoEntry] == Block([], [], Some(CondBr(Field(2), MemoRet, old(order)[0])))
      ensures blocks[MemoRet] == Block([], [], Some(Ret(Field(1))))
      ensures blocks[home].phis == old(blocks)[home].phis && blocks[home].term == old(blocks)[home].term
      ensures var was, now := old(blocks)[home].body, blocks[home].body;
        && |now| == |was| + 1 && now[..|was|] == was
        && now[|was|].op == MemoStore && now[|was|].args == [old(blocks)[home].term.value.value]
      ensures forall r | r in old(blocks) && r !in {home, MemoEntry, MemoRet} :: blocks[r] == old(blocks)[r]
    {
      var oldEntry := order[0];
      order := [MemoEntry] + order;
      order := [order[0]] + [MemoRet] + order[1..];
      assert order == [MemoEntry, MemoRet] + d.order;
      blocks := blocks[MemoEntry := MemoCheck(oldEntry)];
      blocks := blocks[MemoRet := MemoReturn];
      blocks := blocks[home := Storing(blocks[home], blocks[home].term.value.value)];
      assert blocks == Memoized(d, home, d.blocks[home].term.value.value).blocks;
    }
  }

  /** The layout of the memoized code lists exactly its blocks, if that of the delegate does. */
  lemma MemoizedLayout(d: Function, home: BlockRef, v: Value)
    requires |d.order| > 0 && home in d.blocks && (forall r :: r in d.order <==> r in d.blocks)
    ensures var m := Memoized(d, home, v); m.nargs == d.nargs && forall r :: r in m.order <==> r in m.blocks
    ensures Distinct(d.order) && MemoEntry !in d.blocks && MemoRet !in d.blocks ==> Distinct(Memoized(d, home, v).order)
  {
    var m := Memoized(d, home, v);
    forall r
      ensures r in m.order <==> r == MemoEntry || r == MemoRet || r in d.order
    {
      assert m.order[0] == MemoEntry && m.order[1] == MemoRet;
      if r in d.order {
        var i :| 0 <= i < |d.order| && d.order[i] == r;
        assert m.order[i + 2] == r;
      }
    }
    assert forall i | 2 <= i < |m.order| :: m.order[i] == d.order[i - 2] && m.order[i] in d.blocks;
  }

  // ---- running it ----

  /** A delegate: it returns the result `v` of an instruction, in `home` only; nothing flows in from the new
      blocks, nothing leads to them, and its operations leave the thunk alone. */
  ghost predicate Delegated(d: Function, home: BlockRef, v: Value) {
    && |d.order| > 0 && d.order[0] in d.blocks && home in d.blocks && MemoEntry !in d.blocks && MemoRet !in d.blocks
    && d.blocks[home].term == Some(Ret(v)) && v.Res?
    && (forall b, i | b in d.blocks && i in d.blocks[b].body :: i.op.Fn?)
    && (forall b, p, e | b in d.blocks && p in d.blocks[b].phis && e in p.incoming :: e.0 != MemoEntry)
    && (forall b | b in d.blocks && b != home :: !d.blocks[b].Returns())
    && (forall b, x | b in d.blocks && x in d.blocks[b].Succs() :: x != MemoEntry && x != MemoRet)
  }

  lemma {:induction false} FnKeepsSlots(ops: Ops, body: seq<Instr>, fr: Frame)
    requires forall i | i in body :: i.op.Fn?
    ensures ExecBody(ops, body, fr).slots == fr.slots && ExecBody(ops, body, fr).args == fr.args
  {
    if body != [] {
      var n := |body| - 1;
      assert body[n] in body && forall i | i in body[..n] :: i in body;
      FnKeepsSlots(ops, body[..n], fr);
    }
  }

  /** Entering from the check is like entering from nowhere. */
  lemma {:induction false} SamePhis(phis: seq<Phi>, fr: Frame)
    requires forall p, e | p in phis && e in p.incoming :: e.0 != MemoEntry
    ensures ExecPhis(phis, Some(MemoEntry), fr) == ExecPhis(phis, None, fr)
  {
    if phis != [] {
      var n := |phis| - 1;
      assert phis[n] in phis && forall p | p in phis[..n] :: p in phis;
      SamePhis(phis[..n], fr);
      assert forall i | 0 <= i < |phis[n].incoming| :: phis[n].incoming[i] in phis[n].incoming;
      Forcing.NoIncoming(phis[n].incoming, MemoEntry);
    }
  }

  /** The same place in both functions. */
  ghost predicate SamePlace(ds: State, ms: State) {
    && ds.block == ms.block && ds.frame == ms.frame
    && (ds.prev == ms.prev || (ds.prev == None && ms.prev == Some(MemoEntry)))
  }

  lemma SameBlock(ops: Ops, d: Function, home: BlockRef, v: Value, ds: State, ms: State)
    requires Delegated(d, home, v) && SamePlace(ds, ms) && ds.block in d.blocks
    ensures ExecBlock(ops, d.blocks[ds.block], ms.prev, ms.frame) == ExecBlock(ops, d.blocks[ds.block], ds.prev, ds.frame)
    ensures ExecBlock(ops, d.blocks[ds.block], ds.prev, ds.frame).slots == ds.frame.slots
  {
    var blk := d.blocks[ds.block];
    if ds.prev != ms.prev {
      SamePhis(blk.phis, ds.frame);
    }
    FnKeepsSlots(ops, blk.body, ds.frame.(env := ExecPhis(blk.phis, ds.prev, ds.frame)));
  }

  lemma MemoizedBlocks(d: Function, home: BlockRef, v: Value, b: BlockRef)
    requires Delegated(d, home, v) && b in d.blocks
    ensures var m := Memoized(d, home, v);
      b in m.blocks && m.blocks[b] == if b == home then Storing(d.blocks[home], v) else d.blocks[b]
  {
  }

  /** Away from `home` a step is the same step. */
  lemma StepsAlike(ops: Ops, d: Function, home: BlockRef, v: Value, ds: State, ms: State)
    requires Delegated(d, home, v) && SamePlace(ds, ms) && ds.block in d.blocks && ds.block != home
    ensures var od, om := Step(ops, d, ds), Step(ops, Memoized(d, home, v), ms);
      && !od.Finished? && (od.Running? ==> om.Running? && SamePlace(od.st, om.st) && od.st.frame.slots == ds.frame.slots)
      && (od == Wrong ==> om == Wrong)
  {
    SameBlock(ops, d, home, v, ds, ms);
    MemoizedBlocks(d, home, v, ds.block);
    var blk := d.blocks[ds.block];
    var fr := ExecBlock(ops, blk, ds.prev, ds.frame);
    assert !blk.Returns();
    GotoIsSucc(blk.term, fr);
    hide Memoized, ExecBlock;
  }

  lemma StoringRuns(ops: Ops, blk: Block, v: Value, prev: Option<BlockRef>, fr: Frame)
    ensures ExecBlock(ops, Storing(blk, v), prev, fr) == ExecInstr(ops, Instr(DummyId(TermId(0), 0), MemoStore, [v]), ExecBlock(ops, blk, prev, fr))
  {
    var x := Instr(DummyId(TermId(0), 0), MemoStore, [v]);
    assert (blk.body + [x])[..|blk.body + [x]| - 1] == blk.body;
    hide ExecInstr, ExecPhis;
  }

  lemma StoreDoes(ops: Ops, v: Value, fr: Frame)
    requires |fr.slots| >= 3 && v.Res?
    ensures var fr' := ExecInstr(ops, Instr(DummyId(TermId(0), 0), MemoStore, [v]), fr);
      fr' == fr.(slots := fr.slots[2 := 1][1 := Eval(v, fr)]) && Eval(v, fr') == Eval(v, fr)
  {
  }

  lemma ReturnRuns(ops: Ops, f: Function, st: State, v: Value)
    requires st.block in f.blocks && f.blocks[st.block].term == Some(Ret(v))
    ensures var fr := ExecBlock(ops, f.blocks[st.block], st.prev, st.frame); Step(ops, f, st) == Finished(Eval(v, fr), fr)
  {
    hide ExecBlock, Eval;
  }

  lemma DelegateEnds(d: Function, home: BlockRef, v: Value)
    requires Delegated(d, home, v)
    ensures |d.order| > 0 && home in d.blocks && d.blocks[home].term == Some(Ret(v)) && v.Res?
  {
  }

  /** In `home` the value is stored and returned. */
  lemma HomeStores(ops: Ops, d: Function, home: BlockRef, v: Value, ds: State, ms: State)
    requires Delegated(d, home, v) && SamePlace(ds, ms) && ds.block == home && |ds.frame.slots| >= 3
    ensures |d.order| > 0 && home in d.blocks
    ensures var od, om := Step(ops, d, ds), Step(ops, Memoized(d, home, v), ms);
      && od.Finished? && om.Finished? && om.value == od.value && om.frame.mem == od.frame.mem
      && om.frame.slots == ds.frame.slots[2 := 1][1 := od.value]
  {
    DelegateEnds(d, home, v);
    assert ms.block == home;
    hide *;
    SameBlock(ops, d, home, v, ds, ms);
    MemoizedBlocks(d, home, v, home);
    var after := ExecBlock(ops, d.blocks[home], ds.prev, ds.frame);
    StoringRuns(ops, d.blocks[home], v, ms.prev, ms.frame);
    StoreDoes(ops, v, after);
    StoringEnds(d.blocks[home], v);
    ReturnRuns(ops, d, ds, v);
    ReturnRuns(ops, Memoized(d, home, v), ms, v);
  }

  lemma StoringEnds(blk: Block, v: Value)
    ensures Storing(blk, v).term == blk.term
  {
  }

  lemma {:induction false} RunsAlike(ops: Ops, d: Function, home: BlockRef, v: Value, ds: State, ms: State, n: nat)
    requires Delegated(d, home, v) && SamePlace(ds, ms) && |ds.frame.slots| >= 3
    requires Run(ops, d, Running(ds), n).Finished?
    ensures var od, om := Run(ops, d, Running(ds), n), Run(ops, Memoized(d, home, v), Running(ms), n);
      && om.Finished? && om.value == od.value && om.frame.mem == od.frame.mem && om.frame.slots == ds.frame.slots[2 := 1][1 := od.value]
    decreases n
  {
    assert |d.order| > 0 && home in d.blocks;
    assert n > 0 && ds.block in d.blocks by { StuckOutside(ops, d, ds, n); }
    hide Delegated, Memoized, Step, SamePlace;
    if ds.block == home {
      HomeStores(ops, d, home, v, ds, ms);
    } else {
      StepsAlike(ops, d, home, v, ds, ms);
      if Step(ops, d, ds).Running? {
        RunsAlike(ops, d, home, v, Step(ops, d, ds).st, Step(ops, Memoized(d, home, v), ms).st, n - 1);
      }
    }
  }

  /** The other way round: what finishes with the memoization code finishes without. */
  lemma {:induction false} FinishesAlike(ops: Ops, d: Function, home: BlockRef, v: Value, ds: State, ms: State, n: nat)
    requires Delegated(d, home, v) && SamePlace(ds, ms) && |ds.frame.slots| >= 3 && ds.block != MemoEntry && ds.block != MemoRet
    requires Run(ops, Memoized(d, home, v), Running(ms), n).Finished?
    ensures Run(ops, d, Running(ds), n).Finished?
    decreases n
  {
    assert |d.order| > 0 && home in d.blocks;
    assert n > 0 && ds.block in d.blocks by {
      StuckOutside(ops, Memoized(d, home, v), ms, n);
      NoOtherBlocks(d, home, v, ms.block);
    }
    hide Delegated, Memoized, Step, SamePlace;
    if ds.block == home {
      HomeStores(ops, d, home, v, ds, ms);
      assert Run(ops, d, Running(ds), n) == Run(ops, d, Step(ops, d, ds), n - 1);
    } else {
      StepsAlike(ops, d, home, v, ds, ms);
      StepsOn(ops, d, home, v, ds);
      var om := Step(ops, Memoized(d, home, v), ms);
      if Step(ops, d, ds).Running? {
        FinishesAlike(ops, d, home, v, Step(ops, d, ds).st, om.st, n - 1);
      }
    }
  }

  lemma NoOtherBlocks(d: Function, home: BlockRef, v: Value, b: BlockRef)
    requires Delegated(d, home, v) && b in Memoized(d, home, v).blocks && b != MemoEntry && b != MemoRet
    ensures b in d.blocks
  {
  }

  lemma StepsOn(ops: Ops, d: Function, home: BlockRef, v: Value, ds: State)
    requires Delegated(d, home, v) && ds.block in d.blocks
    ensures Step(ops, d, ds).Running? ==> Step(ops, d, ds).st.block != MemoEntry && Step(ops, d, ds).st.block != MemoRet
  {
    hide ExecBlock;
    GotoIsSucc(d.blocks[ds.block].term, ExecBlock(ops, d.blocks[ds.block], ds.prev, ds.frame));
    var o := Step(ops, d, ds);
    if o.Running? {
      assert o.st.block in d.blocks[ds.block].Succs();
    }
  }

  lemma {:induction false} StuckOutside(ops: Ops, d: Function, ds: State, n: nat)
    ensures Run(ops, d, Running(ds), n).Finished? ==> n > 0 && ds.block in d.blocks
  {
    if n > 0 && ds.block !in d.blocks {
      assert Run(ops, d, Wrong, n - 1) == Wrong;
    }
  }

  // ---- a memoized delegate is what a thunk call is ----

  lemma {:induction false} RunOn(ops: Ops, f: Function, o: Outcome, a: nat, b: nat)
    ensures Run(ops, f, o, a + b) == Run(ops, f, Run(ops, f, o, a), b)
    decreases a
  {
    if a > 0 && o.Running? {
      RunOn(ops, f, Step(ops, f, o.st), a - 1, b);
    }
  }

  /** The check: with the flag set the stored value comes back, otherwise the delegate is entered. */
  lemma {:induction false} CheckRuns(ops: Ops, d: Function, home: BlockRef, v: Value, fr: Frame)
    requires Delegated(d, home, v) && |fr.slots| >= 3 && fr.env == map[]
    ensures var m := Memoized(d, home, v);
      if fr.slots[2] != 0 then Run(ops, m, Running(Start(m, fr)), 2) == Finished(fr.slots[1], fr)
      else Run(ops, m, Running(Start(m, fr)), 1) == Running(State(d.order[0], Some(MemoEntry), fr))
  {
    var m := Memoized(d, home, v);
    var st := Start(m, fr);
    assert ExecBlock(ops, MemoCheck(d.order[0]), None, fr) == fr;
    assert Step(ops, m, st) == if fr.slots[2] != 0 then Running(State(MemoRet, Some(MemoEntry), fr)) else Running(State(d.order[0], Some(MemoEntry), fr));
    RunOn(ops, m, Running(st), 1, 1);
    if fr.slots[2] != 0 {
      assert ExecBlock(ops, MemoReturn, Some(MemoEntry), fr) == fr;
    }
  }

  /** From a thunk that has kept nothing the memoized function returns what the delegate does, and keeps it. */
  lemma {:induction false} MemoizedReturns(ops: Ops, d: Function, home: BlockRef, v: Value, fr: Frame, k: nat, x: int)
    requires Delegated(d, home, v) && |fr.slots| >= 3 && fr.slots[2] == 0 && fr.env == map[]
    requires ReturnsAfter(ops, d, Start(d, fr), k, x)
    ensures var m := Memoized(d, home, v);
      var o := Run(ops, m, Running(Start(m, fr)), 1 + (k + 1));
      o.Finished? && o.value == x && o.frame.mem == fr.mem && o.frame.slots == fr.slots[2 := 1][1 := x]
  {
    var m := Memoized(d, home, v);
    CheckRuns(ops, d, home, v, fr);
    hide Delegated, Memoized, Step;
    RunsAlike(ops, d, home, v, Start(d, fr), State(d.order[0], Some(MemoEntry), fr), k + 1);
    RunOn(ops, m, Running(Start(m, fr)), 1, k + 1);
  }

  /** For every thunk and every delegate that finishes: the memoized function returns what a thunk call
      returns, leaves the thunk as a thunk call does, and the memory as it is. */
  lemma MemoizedIsThunkCall(ops: Ops, d: Function, home: BlockRef, v: Value, args: seq<int>, mem: Mem,
                            slots: seq<int>, k: nat)
    returns (n: nat)
    requires Delegated(d, home, v) && ops.memo && |slots| >= 3
    requires ReturnsAfter(ops, d, Start(d, Frame(args, map[], mem, slots)), k, ops.delegate(slots, mem))
    ensures var m, fr := Memoized(d, home, v), Frame(args, map[], mem, slots);
      var o := Run(ops, m, Running(Start(m, fr)), n);
      o.Finished? && (o.value, o.frame.slots) == ForceSlots(ops, slots, mem) && o.frame.mem == mem
  {
    var fr := Frame(args, map[], mem, slots);
    CheckRuns(ops, d, home, v, fr);
    hide Delegated, Memoized, Step, Run, ReturnsAfter;
    if slots[2] != 0 {
      n := 2;
    } else {
      MemoizedReturns(ops, d, home, v, fr, k, ops.delegate(slots, mem));
      n := 1 + (k + 1);
    }
  }

  /** The function a thunk points to: the delegate, with memoization the memoized one. */
  function Emitted(memo: bool, d: Function, home: BlockRef, v: Value): (e: Function)
    requires |d.order| > 0 && home in d.blocks
    ensures |e.order| > 0
  {
    if memo then Memoized(d, home, v) else d
  }

  // ---- the functions the outliner builds are such delegates ----

  /** Who dominates the start of an edge is left by an edge. */
  lemma DominatorIsLeft(g: Graph, entry: BlockRef, b: BlockRef, p: BlockRef, q: BlockRef)
    requires Reaches(g, entry, p) && Dominates(g, entry, b, p) && (p, q) in g.edges
    ensures exists e :: e in g.edges && e.0 == b
  {
    var w :| PathFromTo(g, w, entry, p);
    var i :| 0 <= i < |w| && w[i] == b;
    if i < |w| - 1 {
      assert (w[i], w[i + 1]) in g.edges;
    } else {
      assert (b, q) in g.edges;
    }
  }

  /** A sliced terminator is a gate, so its block has successors. */
  lemma SlicedTermBranches(f: Function, exit: BlockRef, preds: map<BlockRef, seq<Edge>>, s: Slice, b: BlockRef)
    requires Standing(f, exit, preds, s) && s.Ends(b) && b in f.blocks
    ensures f.blocks[b].Succs() != []
  {
    var v := Res(TermId(b.b));
    LeastHasUser(f, s.gates, Res(s.crit), s.deps, v);
    var u :| u in s.deps && Needs(f, s.gates, u, v);
    TermNotOperand(f, u, v);
    var p := GateAbovePred(f, exit, preds, s.gates, Parent(u.id), v.id);
    DominatorIsLeft(GraphOf(f), f.order[0], b, p, Parent(u.id));
    hide Standing;
    var e :| e in GraphOf(f).edges && e.0 == b;
    EdgeIsSucc(f, e.0, e.1);
  }

  /** Only the criterion's block returns. */
  lemma OnlyHomeReturns(f: Function, exit: BlockRef, preds: map<BlockRef, seq<Edge>>, s: Slice, b: BlockRef, t: Option<Term>)
    requires Standing(f, exit, preds, s) && b in f.blocks && |f.order| > 0 && f.blocks[b].term.Some? && Rerouted(f, s, b, t)
    ensures t.Some? ==> !t.value.Ret?
  {
    hide *;
    if s.Ends(b) {
      SlicedTermBranches(f, exit, preds, s, b);
      SlicedStaysBranch(f, s, b, t);
    } else {
      UnslicedIsBranch(f, s, b, t);
    }
  }

  lemma SlicedStaysBranch(f: Function, s: Slice, b: BlockRef, t: Option<Term>)
    requires b in f.blocks && |f.order| > 0 && f.blocks[b].term.Some? && Rerouted(f, s, b, t)
    requires s.Ends(b) && f.blocks[b].Succs() != []
    ensures t.Some? && !t.value.Ret?
  {
    hide GraphOf, TargetOf;
  }

  lemma UnslicedIsBranch(f: Function, s: Slice, b: BlockRef, t: Option<Term>)
    requires b in f.blocks && |f.order| > 0 && f.blocks[b].term.Some? && Rerouted(f, s, b, t) && !s.Ends(b)
    ensures t.Some? ==> t.value.Br?
  {
    FallbackBranches(s.attractors, f.blocks[b].term.value.BranchTargets());
    hide GraphOf, DomBranchOf;
  }

  lemma {:induction false} FallbackBranches(m: map<BlockRef, BlockRef>, bs: seq<BlockRef>)
    ensures Fallback(m, bs).Some? ==> Fallback(m, bs).value.Br?
  {
    if bs != [] {
      FallbackBranches(m, bs[1..]);
    }
  }

  lemma {:induction false} KeptBody(body: seq<Instr>, deps: set<Value>)
    ensures forall i | i in KeepBody(body, deps) :: i in body
  {
    if body != [] {
      var n := |body| - 1;
      assert forall i | i in body[..n] :: i in body;
      KeptBody(body[..n], deps);
    }
  }

  lemma KeptParts(f: Function, s: Slice, args: seq<nat>, base: nat, b: BlockRef, t: Option<Term>)
    requires WellFormed(f) && b in f.blocks
    ensures var blk := LoadBlock(ClonedBlock(f, s, b).(term := t), args, base);
      && (forall i | i in blk.body :: i.op.Fn?)
      && (forall p, e | p in blk.phis && e in p.incoming :: e.0 != MemoEntry)
      && (blk.Returns() <==> t.Some? && t.value.Ret?)
  {
    var kept := KeepBody(f.blocks[b].body, s.deps);
    var phis := KeepPhis(f.blocks[b].phis, s.deps);
    KeptBody(f.blocks[b].body, s.deps);
    KeptPhi(f.blocks[b].phis, s.deps);
    FnBodies(f, b);
    hide WellFormed, KeepBody, KeepPhis;
    var blk := LoadBlock(ClonedBlock(f, s, b).(term := t), args, base);
    forall i | i in blk.body
      ensures i.op.Fn?
    {
      var k :| 0 <= k < |blk.body| && blk.body[k] == i;
      assert i.op == kept[k].op && kept[k] in kept;
    }
    forall p, e | p in blk.phis && e in p.incoming
      ensures e.0 != MemoEntry
    {
      var k :| 0 <= k < |blk.phis| && blk.phis[k] == p;
      var j :| 0 <= j < |p.incoming| && p.incoming[j] == e;
      assert phis[k] in phis && phis[k].incoming[j] in phis[k].incoming;
    }
  }

  lemma FnBodies(f: Function, b: BlockRef)
    requires WellFormed(f) && b in f.blocks
    ensures forall i | i in f.blocks[b].body :: i.op.Fn?
    ensures forall p, e | p in f.blocks[b].phis && e in p.incoming :: e.0.Orig?
  {
    assert GoodBlock(f, b.b);
    IncomingInside(f);
  }

  /** What memoization needs of a block of a delegate. */
  ghost predicate PlainBlock(blk: Block, here: bool, v: Value) {
    && (forall i | i in blk.body :: i.op.Fn?)
    && (forall p, e | p in blk.phis && e in p.incoming :: e.0 != MemoEntry)
    && (forall x | x in blk.Succs() :: x != MemoEntry && x != MemoRet)
    && if here then blk.term == Some(Ret(v)) else !blk.Returns()
  }

  /** Terminators lead to clones and to the dead block. */
  lemma OnlyClones(f: Function, exit: BlockRef, preds: map<BlockRef, seq<Edge>>, s: Slice, b: BlockRef, t: Option<Term>)
    requires Standing(f, exit, preds, s) && b in f.blocks && |f.order| > 0 && f.blocks[b].term.Some? && Rerouted(f, s, b, t)
    ensures t.Some? ==> forall x | x in t.value.Succs() :: x.Clone? || x == Dead
  {
    hide *;
    AttractorsAreOriginal(f, exit, preds, s);
    SliceBlocksAreOriginal(f, exit, preds, s);
    if s.Ends(b) {
      SlicedToClones(f, s, b, t);
    } else {
      var c := UnslicedCases(f, s, b, t);
      FallbackPicks(s.attractors, f.blocks[b].term.value.BranchTargets());
      BranchToClone(s, c, f.blocks[b].term.value.BranchTargets(), t);
    }
  }

  lemma SlicedToClones(f: Function, s: Slice, b: BlockRef, t: Option<Term>)
    requires b in f.blocks && |f.order| > 0 && f.blocks[b].term.Some? && Rerouted(f, s, b, t) && s.Ends(b)
    requires forall a | a in s.attractors :: s.attractors[a].Orig?
    ensures t.Some? ==> forall x | x in t.value.Succs() :: x.Clone? || x == Dead
  {
    hide GraphOf, DomBranchOf, Fallback;
    var ts := TargetsOf(s.attractors, f.blocks[b].term.value.Succs());
    assert forall i | 0 <= i < |ts| :: ts[i].Clone? || ts[i] == Dead;
    hide TargetsOf;
  }

  lemma {:induction false} BranchToClone(s: Slice, c: Option<BlockRef>, bs: seq<BlockRef>, t: Option<Term>)
    requires (forall a | a in s.attractors :: s.attractors[a].Orig?) && forall b | b in s.blocks :: b.Orig?
    requires c.Some? ==> c.value in s.blocks && t == Some(Br(CloneOf(c.value)))
    requires c.None? ==> t == Fallback(s.attractors, bs)
    requires Fallback(s.attractors, bs).Some? ==>
      exists b :: b in bs && b in s.attractors && Fallback(s.attractors, bs) == Some(Br(CloneOf(s.attractors[b])))
    ensures t.Some? ==> forall x | x in t.value.Succs() :: x.Clone? || x == Dead
  {
    hide Fallback;
  }

  /** One clone of an outlined delegate. */
  lemma CloneKeeps(f: Function, exit: BlockRef, preds: map<BlockRef, seq<Edge>>, s: Slice, args: seq<nat>,
                   base: nat, b: BlockRef, blk: Block)
    requires Standing(f, exit, preds, s) && b in f.blocks && |f.order| > 0 && f.blocks[b].term.Some? && CloneIs(f, s, args, base, b, blk)
    ensures PlainBlock(blk, b == s.Home(), Res(s.crit))
  {
    hide *;
    hide PlainBlock;
    var t := CloneForm(f, s, args, base, b, blk);
    StandingIsWellFormed(f, exit, preds, s);
    KeptParts(f, s, args, base, b, t);
    if b != s.Home() {
      OnlyHomeReturns(f, exit, preds, s, b, t);
      OnlyClones(f, exit, preds, s, b, t);
    }
    LeadsSo(blk, t);
    PlainFrom(blk, b == s.Home(), Res(s.crit));
  }

  lemma StandingIsWellFormed(f: Function, exit: BlockRef, preds: map<BlockRef, seq<Edge>>, s: Slice)
    requires Standing(f, exit, preds, s)
    ensures WellFormed(f)
  {
    hide IsSlice, WellFormed, DefsDominateUses;
  }

  lemma LeadsSo(blk: Block, t: Option<Term>)
    requires t.Some? ==> blk.Succs() == t.value.Succs()
    requires t.None? <==> blk.term.None?
    ensures t.Some? && (t.value.Ret? || forall x | x in t.value.Succs() :: x.Clone? || x == Dead) ==>
      forall x | x in blk.Succs() :: x != MemoEntry && x != MemoRet
    ensures t.None? ==> blk.Succs() == []
  {
  }

  lemma PlainFrom(blk: Block, here: bool, v: Value)
    requires (forall i | i in blk.body :: i.op.Fn?) && forall p, e | p in blk.phis && e in p.incoming :: e.0 != MemoEntry
    requires forall x | x in blk.Succs() :: x != MemoEntry && x != MemoRet
    requires if here then blk.term == Some(Ret(v)) else !blk.Returns()
    ensures PlainBlock(blk, here, v)
  {
  }

  /** The blocks of a delegate. */
  lemma DelegateBlock(f: Function, s: Slice, args: seq<nat>, base: nat, d: Function, r: BlockRef) returns (b: BlockRef)
    requires Shaped(f) && s.blocks <= f.blocks.Keys && IsDelegate(f, s, args, base, d) && r in d.blocks
    ensures (r == Dead && d.blocks[r] == Block([], [], Some(Unreachable))) ||
            (b in s.blocks && r == CloneOf(b) && b in f.blocks && f.blocks[b].term.Some? && |f.order| > 0 && CloneIs(f, s, args, base, b, d.blocks[r]))
  {
    ShapedTerms(f);
    hide CloneIs, Shaped, NoPredecessors, SomeDeadTarget;
    assert r in d.blocks.Keys;
    b := Dead;
    if r != Dead {
      b :| b in s.blocks && r == CloneOf(b);
    }
  }

  lemma DeadIsPlain(v: Value)
    ensures PlainBlock(Block([], [], Some(Unreachable)), false, v)
  {
  }

  lemma DelegateStarts(f: Function, s: Slice, args: seq<nat>, base: nat, d: Function)
    requires Shaped(f) && s.blocks <= f.blocks.Keys && IsDelegate(f, s, args, base, d) && s.Home() in s.blocks
    ensures |d.order| > 0 && d.order[0] in d.blocks && CloneOf(s.Home()) in d.blocks
  {
    hide CloneIs, Shaped, NoPredecessors, SomeDeadTarget;
    assert d.order[0] in d.order;
    assert CloneOf(s.Home()) in d.blocks.Keys;
  }

  /** The clone of the criterion's block returns the criterion. */
  lemma HomeReturns(f: Function, s: Slice, args: seq<nat>, base: nat, d: Function)
    requires Shaped(f) && s.blocks <= f.blocks.Keys && IsDelegate(f, s, args, base, d) && s.Home() in s.blocks
    ensures |d.order| > 0 && CloneOf(s.Home()) in d.blocks && d.blocks[CloneOf(s.Home())].term == Some(Ret(Res(s.crit)))
    ensures CloneOf(s.Home()) != MemoEntry && CloneOf(s.Home()) != MemoRet
  {
    hide *;
    ShapedTerms(f);
    HomeIsOriginal(f, s);
    ClonesApart(s.Home(), s.Home());
    DelegateStarts(f, s, args, base, d);
    var b := DelegateBlock(f, s, args, base, d, CloneOf(s.Home()));
    SliceIsOriginal(f, s);
    ClonesApart(b, s.Home());
    var t := CloneForm(f, s, args, base, b, d.blocks[CloneOf(s.Home())]);
  }

  lemma HomeIsOriginal(f: Function, s: Slice)
    requires Shaped(f) && s.blocks <= f.blocks.Keys && s.Home() in s.blocks
    ensures s.Home().Orig? && s.Home() in f.blocks
  {
  }

  lemma SliceIsOriginal(f: Function, s: Slice)
    requires Shaped(f) && s.blocks <= f.blocks.Keys
    ensures forall b | b in s.blocks :: b.Orig?
  {
  }

  lemma DelegatedFrom(d: Function, home: BlockRef, v: Value)
    requires |d.order| > 0 && d.order[0] in d.blocks && home in d.blocks && v.Res?
    requires forall r | r in d.blocks :: r != MemoEntry && r != MemoRet && PlainBlock(d.blocks[r], r == home, v)
    ensures Delegated(d, home, v)
  {
  }

  lemma ClonesApart(a: BlockRef, b: BlockRef)
    requires a.Orig? && b.Orig?
    ensures CloneOf(a) == CloneOf(b) <==> a == b
    ensures CloneOf(a) != Dead && CloneOf(a) != MemoEntry && CloneOf(a) != MemoRet
  {
  }

  /** A delegate as outlined is one that memoization treats rightly. */
  lemma OutlinedIsDelegated(f: Function, exit: BlockRef, preds: map<BlockRef, seq<Edge>>, s: Slice,
                            args: seq<nat>, base: nat, d: Function)
    requires Standing(f, exit, preds, s) && Shaped(f) && s.blocks <= f.blocks.Keys && IsDelegate(f, s, args, base, d)
    ensures Delegated(d, CloneOf(s.Home()), Res(s.crit))
  {
    hide *;
    StandingIsWellFormed(f, exit, preds, s);
    StandingIsSlice(f, exit, preds, s);
    SliceReroutable(f, exit, preds, s);
    DelegateStarts(f, s, args, base, d);
    DeadIsPlain(Res(s.crit));
    forall r | r in d.blocks
      ensures r != MemoEntry && r != MemoRet && PlainBlock(d.blocks[r], r == CloneOf(s.Home()), Res(s.crit))
    {
      var b := DelegateBlock(f, s, args, base, d, r);
      ClonesApart(s.Home(), s.Home());
      if !(r == Dead && d.blocks[r] == Block([], [], Some(Unreachable))) {
        CloneKeeps(f, exit, preds, s, args, base, b, d.blocks[r]);
        ClonesApart(b, s.Home());
      }
    }
    DelegatedFrom(d, CloneOf(s.Home()), Res(s.crit));
  }

  lemma StandingIsSlice(f: Function, exit: BlockRef, preds: map<BlockRef, seq<Edge>>, s: Slice)
    requires Standing(f, exit, preds, s)
    ensures IsSlice(f, exit, preds, s)
  {
    hide IsSlice, WellFormed, DefsDominateUses;
  }
}
