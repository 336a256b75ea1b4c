/** The main theorem: a delegate function built by the outliner computes what its caller would. */
module Delegation {
  import opened Graphs
  import opened Ir
  import opened Gates
  import opened Dependences
  import opened Slices
  import opened Arrivals
  import opened Delegates
  import opened SliceFacts
  import opened Rerouting
  import opened Machine
  import opened Outliner
  import opened Simulation
  import opened RunSimulation

  // ---- a slice meets what the simulation needs ----

  /** The slice of a function, closed under operands, with its blocks. */
  ghost predicate Closure(f: Function, s: Slice) {
    && WellFormed(f) && OwnsBlocks(f, s)
    && (forall b | b in s.blocks :: b.Orig?)
    && forall id, v | HasInst(f, id) && s.Has(id) && v in Operands(f, id) && Tracked(v) :: v in s.deps
  }

  lemma SliceClosure(f: Function, exit: BlockRef, preds: map<BlockRef, seq<Edge>>, s: Slice)
    requires Standing(f, exit, preds, s)
    ensures Closure(f, s) && s.Home() in s.blocks && s.Has(s.crit) && Shaped(f) && s.blocks <= f.blocks.Keys
  {
    hide IsSlice, WellFormed, DefsDominateUses, OwnsBlocks, Operands, HasInst;
    SliceReroutable(f, exit, preds, s);
    OperandsInSlice(f, exit, preds, s);
    CritReaches(f, exit, preds, s);
  }

  lemma OperandsInSlice(f: Function, exit: BlockRef, preds: map<BlockRef, seq<Edge>>, s: Slice)
    requires Standing(f, exit, preds, s)
    ensures forall id, v | HasInst(f, id) && s.Has(id) && v in Operands(f, id) && Tracked(v) :: v in s.deps
  {
    hide Standing;
    SliceIsLeast(f, exit, preds, s);
    hide GateFor;
    forall id, v | HasInst(f, id) && s.Has(id) && v in Operands(f, id) && Tracked(v)
      ensures v in s.deps
    {
      assert OperandOf(f, Res(id), v) && Needs(f, s.gates, Res(id), v);
    }
  }

  lemma OperandSeen(f: Function, s: Slice, id: Id, v: Value)
    requires Closure(f, s) && HasInst(f, id) && s.Has(id) && v in Operands(f, id)
    ensures Seen(s, v)
  {
    assert GoodValue(f, v);
  }

  /** A phi of a block of a well-formed function is the one its name says. */
  lemma PhiIsNamed(f: Function, b: BlockRef, p: Phi)
    requires WellFormed(f) && b in f.blocks && p in f.blocks[b].phis
    ensures p.id.PhiId? && HasInst(f, p.id) && Parent(p.id) == b && PhiAt(f, p.id) == p
  {
    assert GoodBlock(f, b.b);
  }

  lemma InstrIsNamed(f: Function, b: BlockRef, i: Instr)
    requires WellFormed(f) && b in f.blocks && i in f.blocks[b].body
    ensures i.id.BodyId? && HasInst(f, i.id) && Parent(i.id) == b && Operands(f, i.id) == i.args && i.op.Fn?
  {
    assert GoodBlock(f, b.b);
  }

  lemma SlicedPhiFacts(f: Function, s: Slice, b: BlockRef, p: Phi)
    requires Closure(f, s) && b in f.blocks && p in f.blocks[b].phis && s.Has(p.id)
    ensures b in s.blocks
    ensures forall e | e in p.incoming :: e.0 in s.blocks && e.0.Orig? && Seen(s, e.1)
    ensures forall q | (q, b) in GraphOf(f).edges :: q in s.blocks
  {
    PhiIsNamed(f, b, p);
    hide WellFormed;
    assert Brings(f, Res(p.id), b);
    forall e | e in p.incoming
      ensures e.0 in s.blocks && Seen(s, e.1)
    {
      var k :| 0 <= k < |p.incoming| && p.incoming[k] == e;
      assert Brings(f, Res(p.id), e.0);
      assert Operands(f, p.id)[k] == e.1;
      OperandSeen(f, s, p.id, e.1);
    }
    forall q | (q, b) in GraphOf(f).edges
      ensures q in s.blocks
    {
      var v := PredIsIncoming(f, b, p, q);
    }
  }

  lemma PredIsIncoming(f: Function, b: BlockRef, p: Phi, q: BlockRef) returns (v: Value)
    requires WellFormed(f) && b in f.blocks && p in f.blocks[b].phis && (q, b) in GraphOf(f).edges
    ensures (q, v) in p.incoming
  {
    assert GoodBlock(f, b.b);
    var k :| 0 <= k < |f.blocks[b].phis| && f.blocks[b].phis[k] == p;
    v :| (q, v) in f.blocks[b].phis[k].incoming;
  }

  lemma SlicedInstrFacts(f: Function, s: Slice, b: BlockRef, i: Instr)
    requires Closure(f, s) && b in f.blocks && i in f.blocks[b].body && s.Has(i.id)
    ensures b in s.blocks && forall v | v in i.args :: Seen(s, v)
  {
    InstrIsNamed(f, b, i);
    hide WellFormed;
    assert Brings(f, Res(i.id), b);
    forall v | v in i.args
      ensures Seen(s, v)
    {
      OperandSeen(f, s, i.id, v);
    }
  }

  lemma SettingFrom(f: Function, s: Slice)
    requires Closure(f, s) && Shaped(f) && s.blocks <= f.blocks.Keys
    ensures Setting(f, s)
  {
    hide WellFormed, OwnsBlocks, GraphOf;
    forall b | b in f.blocks
      ensures SetBlock(f, s, b)
    {
      hide Closure, Shaped;
      SetBlockFrom(f, s, b);
    }
  }

  lemma SetBlockFrom(f: Function, s: Slice, b: BlockRef)
    requires Closure(f, s) && b in f.blocks
    ensures SetBlock(f, s, b)
  {
    var blk := f.blocks[b];
    assert blk.term.Some? && forall c | c in s.blocks :: c.Orig?;
    if s.Ends(b) {
      forall v | v in blk.term.value.Values()
        ensures Seen(s, v)
      {
        assert HasInst(f, TermId(b.b));
        OperandSeen(f, s, TermId(b.b), v);
      }
    }
    forall i | i in blk.body
      ensures i.op.Fn?
    {
      InstrIsNamed(f, b, i);
    }
    hide Closure, GraphOf, Seen;
    forall p | p in blk.phis && s.Has(p.id)
      ensures b in s.blocks
      ensures forall e | e in p.incoming :: e.0 in s.blocks && e.0.Orig? && Seen(s, e.1)
      ensures forall q | (q, b) in GraphOf(f).edges :: q in s.blocks
    {
      SlicedPhiFacts(f, s, b, p);
    }
    forall i | i in blk.body && s.Has(i.id)
      ensures b in s.blocks && forall v | v in i.args :: Seen(s, v)
    {
      SlicedInstrFacts(f, s, b, i);
    }
  }

  lemma FollowsFrom(f: Function, exit: BlockRef, preds: map<BlockRef, seq<Edge>>, s: Slice,
                    args: seq<nat>, base: nat, d: Function)
    requires Standing(f, exit, preds, s) && Shaped(f) && s.blocks <= f.blocks.Keys && IsDelegate(f, s, args, base, d)
    requires FaithfulInside(f, s, d)
    ensures Follows(f, s, args, base, d)
  {
    hide Standing, Shaped, Rerouted, FaithfulAt, NoPredecessors, SomeDeadTarget, LoadBlock, ClonedBlock;
    ShapedTerms(f);
    forall b | b in s.blocks
      ensures FollowsAt(f, s, args, base, d, b)
    {
      assert CloneIs(f, s, args, base, b, d.blocks[CloneOf(b)]);
      var t :| FinalTerm(f, s, b, t) && d.blocks[CloneOf(b)] == LoadBlock(ClonedBlock(f, s, b).(term := t), args, base);
      assert ClonedIn(f, s, args, base, d, b, t);
    }
  }

  lemma ShapedTerms(f: Function)
    requires Shaped(f)
    ensures |f.order| > 0 && forall b | b in f.blocks :: f.blocks[b].term.Some?
  {
  }

  // ---- the theorem ----

  /** What the caller's run and the thunk provide: the run starts fresh, and the thunk has captured its
      parameters. */
  ghost predicate Prepared(s: Slice, args: seq<nat>, base: nat, cf: Frame, df: Frame) {
    cf.env == map[] && df.env == map[] && Captured(s, args, base, df.slots, cf.args)
  }

  /** Under one outcome, for every run of the caller that reaches the criterion: the delegate, started on
      a thunk that captured the caller's parameters, visits the slice blocks of that run in order, sees
      the same values after each, and returns the value the criterion has in the caller, writing
      neither memory nor thunk.  The delegate may run later and over another memory: all that is asked is
      that the sliced instructions the caller has run compute over it what they computed in the caller. */
  lemma DelegateSimulatesCaller(ops: Ops, f: Function, exit: BlockRef, preds: map<BlockRef, seq<Edge>>, s: Slice,
                                args: seq<nat>, base: nat, d: Function, cf: Frame, df: Frame, n: nat)
    returns (k: nat)
    requires Standing(f, exit, preds, s) && Shaped(f) && s.blocks <= f.blocks.Keys && IsDelegate(f, s, args, base, d)
    requires !OnCycle(GraphOf(f), s.Home()) && OneOutcome(f, exit, s) && SwitchesCovered(f, s)
    requires Prepared(s, args, base, cf, df)
    requires ReachesIn(ops, f, s.Home(), Start(f, cf), n) && RunStable(ops, f, s, df.mem, Start(f, cf), n)
    ensures |d.order| > 0 && ReachesIn(ops, d, CloneOf(s.Home()), Start(d, df), k)
    ensures Visits(ops, d, s, Clones(s), Start(d, df), k) == Visits(ops, f, s, s.blocks, Start(f, cf), n)
    ensures ReturnsAfter(ops, d, Start(d, df), k, Eval(Res(s.crit), FrameAfter(ops, f, Start(f, cf), n)))
  {
    hide *;
    var mem := df.mem;
    SliceClosure(f, exit, preds, s);
    SettingFrom(f, s);
    var entry := EntryBlock(f, s, args, base, d);
    ControlFlowExact(f, exit, preds, s, args, base, d);
    FaithfulParts(f, s, d);
    FollowsFrom(f, exit, preds, s, args, base, d);
    AgreeAtStart(s, args, base, mem, cf, df);
    EntryInBlocks(f);
    StartIs(f, cf);
    StartIs(d, df);
    var j, c2 := SkipToSlice(ops, f, s, args, base, mem, Start(f, cf), df, n);
    TargetAt(GraphOf(f), s.blocks, f.order[0], d.order[0], c2.block);
    SettingAt(f, s, c2.block);
    FirstEdge(f, s, j, Start(f, cf), c2);
    k := SimulateFrom(ops, f, s, args, base, mem, d, c2, Start(d, df), n - j);
  }

  lemma FaithfulParts(f: Function, s: Slice, d: Function)
    requires Shaped(f) && s.blocks <= f.blocks.Keys && |d.order| > 0 && Faithful(f, s, d)
    ensures FaithfulTarget(GraphOf(f), s.blocks, f.order[0], d.order[0]) && FaithfulInside(f, s, d)
  {
  }

  lemma AgreeAtStart(s: Slice, args: seq<nat>, base: nat, mem: Mem, cf: Frame, df: Frame)
    requires Prepared(s, args, base, cf, df) && df.mem == mem
    ensures Agree(s, args, base, mem, cf, df)
  {
  }

  lemma StartIs(f: Function, fr: Frame)
    requires |f.order| > 0
    ensures Start(f, fr) == State(f.order[0], None, fr)
  {
  }

  lemma EntryInBlocks(f: Function)
    requires Shaped(f)
    ensures |f.order| > 0 && f.order[0] in f.blocks
  {
  }

  lemma TargetAt(g: Graph, bbs: set<BlockRef>, a: BlockRef, r: BlockRef, y: BlockRef)
    requires FaithfulTarget(g, bbs, a, r) && Arrives(g, bbs, a, y)
    ensures r == CloneOf(y)
  {
  }

  /** The first slice block is entered from nowhere, or holds no sliced phi. */
  lemma FirstEdge(f: Function, s: Slice, j: nat, c: State, c': State)
    requires c'.block in f.blocks && SetBlock(f, s, c'.block) && c.prev == None
    requires j == 0 ==> c' == c
    requires j > 0 ==> c'.prev.Some? && c'.prev.value !in s.blocks && (c'.prev.value, c'.block) in GraphOf(f).edges
    ensures SameEdge(s, f.blocks[c'.block].phis, c'.prev, None)
  {
  }
}
