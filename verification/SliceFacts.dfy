/** Why a block is in the slice, and what follows for the graph. */
module SliceFacts {
  import opened Graphs
  import opened Ir
  import opened Gates
  import opened Dependences
  import opened Attractors
  import opened Slices

  /** A slice of a function in the shape the required passes establish. */
  ghost predicate Standing(f: Function, exit: BlockRef, preds: map<BlockRef, seq<Edge>>, s: Slice) {
    IsSlice(f, exit, preds, s) && WellFormed(f) && DefsDominateUses(f)
  }

  // ---- every slice block can reach the block of the criterion ----

  /** A gate of a phi lies above a predecessor of the phi's block. */
  lemma GateAbovePred(f: Function, exit: BlockRef, preds: map<BlockRef, seq<Edge>>, gates: GateMap, b: BlockRef, v: Id)
    returns (p: BlockRef)
    requires Flowing(f, exit) && ValidPreds(f, preds) && GatesOf(f, exit, preds, gates)
    requires b in gates && v in gates[b]
    ensures v.TermId? && (p, b) in GraphOf(f).edges && Dominates(GraphOf(f), f.order[0], Orig(v.b), p)
  {
    assert EdgesInto(f, preds[b], b) && BlockGates(GraphOf(f), f.order[0], exit, preds[b], b, gates[b]);
    hide Flowing, ValidPreds, GatesOf, BlockGates;
    var e := GateAboveEdge(GraphOf(f), f.order[0], exit, preds[b], b, gates[b], v);
    p := e.0;
  }

  lemma GateAboveEdge(g: Graph, entry: BlockRef, exit: BlockRef, ps: seq<Edge>, b: BlockRef, gs: seq<Id>, v: Id)
    returns (e: Edge)
    requires BlockGates(g, entry, exit, ps, b, gs) && v in gs
    ensures v.TermId? && e in ps && Dominates(g, entry, Orig(v.b), e.0)
  {
    e :| e in ps && GatedVia(g, entry, exit, e.0, b, Orig(v.b));
  }

  lemma ReachesOver(g: Graph, root: BlockRef, a: BlockRef, p: BlockRef, b: BlockRef, c: BlockRef)
    requires Rooted(g, root) && Dominates(g, root, a, p) && (p, b) in g.edges && Reaches(g, b, c)
    ensures Reaches(g, a, c)
  {
    DomReaches(g, root, a, p);
    var q :| PathFromTo(g, q, b, c);
    StepThen(g, p, q, b, c);
    ReachesTrans(g, a, p, c);
  }

  /** What a slice value needs lies in a block from which that of the value can be reached. */
  lemma NeededReaches(f: Function, exit: BlockRef, preds: map<BlockRef, seq<Edge>>, s: Slice, u: Value,
                      v: Value, home: BlockRef)
    requires Standing(f, exit, preds, s)
    requires Needs(f, s.gates, u, v) && u.Res? && v.Res? && Reaches(GraphOf(f), Parent(u.id), home)
    ensures Reaches(GraphOf(f), Parent(v.id), home)
  {
    var g, entry := GraphOf(f), f.order[0];
    hide Least, AttractorMap, BlocksOf;
    if GateFor(f, s.gates, u, v) {
      var p := GateAbovePred(f, exit, preds, s.gates, Parent(u.id), v.id);
      ReachesOver(g, entry, Orig(v.id.b), p, Parent(u.id), home);
    } else if u.id.PhiId? {
      var inc := PhiAt(f, u.id).incoming;
      var i :| 0 <= i < |inc| && inc[i].1 == v;
      IncomingIsPred(f, u.id, i);
      assert (inc[i].0, Res(v.id)) in inc;
      ReachesOver(g, entry, Parent(v.id), inc[i].0, Parent(u.id), home);
    } else {
      DomReaches(g, entry, Parent(v.id), Parent(u.id));
      ReachesTrans(g, Parent(v.id), Parent(u.id), home);
    }
  }

  lemma SliceIsLeast(f: Function, exit: BlockRef, preds: map<BlockRef, seq<Edge>>, s: Slice)
    requires Standing(f, exit, preds, s)
    ensures Least(f, s.gates, Res(s.crit), s.deps) && BlocksOf(f, s.deps, s.blocks)
    ensures forall v | v in s.deps && v.Res? :: HasInst(f, v.id)
  {
    hide Least, BlocksOf, GatesOf, ValidPreds, WellFormed;
    forall v | v in s.deps && v.Res?
      ensures HasInst(f, v.id)
    {
      assert Known(f, v);
    }
  }

  ghost predicate ValueReaches(g: Graph, v: Value, home: BlockRef) {
    v.Res? ==> Reaches(g, Parent(v.id), home)
  }

  lemma NeededStep(f: Function, exit: BlockRef, preds: map<BlockRef, seq<Edge>>, s: Slice, u: Value, v: Value)
    requires Standing(f, exit, preds, s) && Needs(f, s.gates, u, v) && ValueReaches(GraphOf(f), u, s.Home())
    ensures ValueReaches(GraphOf(f), v, s.Home())
  {
    NeedsOfInst(f, s.gates, u, v);
    if v.Res? {
      hide Standing, Needs, Reaches;
      NeededReaches(f, exit, preds, s, u, v, s.Home());
    }
  }

  lemma CritReaches(f: Function, exit: BlockRef, preds: map<BlockRef, seq<Edge>>, s: Slice)
    requires Standing(f, exit, preds, s)
    ensures Res(s.crit) in s.deps && ValueReaches(GraphOf(f), Res(s.crit), s.Home())
  {
    hide ValidPreds, GatesOf, WellFormed, DefsDominateUses, AttractorMap, BlocksOf, FlowGraph;
    assert PathFromTo(GraphOf(f), [s.Home()], s.Home(), s.Home());
  }

  lemma SliceValueReachesHome(f: Function, exit: BlockRef, preds: map<BlockRef, seq<Edge>>, s: Slice)
    requires Standing(f, exit, preds, s)
    ensures forall v | v in s.deps :: ValueReaches(GraphOf(f), v, s.Home())
  {
    var g := GraphOf(f);
    hide *;
    CritReaches(f, exit, preds, s);
    SliceIsLeast(f, exit, preds, s);
    var t := set v | v in s.deps && ValueReaches(g, v, s.Home());
    forall u, v | u in t && Needs(f, s.gates, u, v) && v in s.deps
      ensures v in t
    {
      NeededStep(f, exit, preds, s, u, v);
    }
    LeastInduction(f, s.gates, Res(s.crit), s.deps, t);
  }

  /** Why a block is in the slice. */
  lemma BroughtBy(f: Function, exit: BlockRef, preds: map<BlockRef, seq<Edge>>, s: Slice, b: BlockRef) returns (v: Value)
    requires Standing(f, exit, preds, s) && b in s.blocks
    ensures v in s.deps && Brings(f, v, b) && Brings(f, v, Parent(v.id)) && v.Res? && HasInst(f, v.id)
  {
    SliceIsLeast(f, exit, preds, s);
    hide Standing, Least, HasInst;
    v :| v in s.deps && Brings(f, v, b);
  }

  /** It holds the value, or flows into its phi. */
  lemma BroughtHow(f: Function, v: Value, b: BlockRef)
    requires WellFormed(f) && Brings(f, v, b)
    ensures v.Res? && (b == Parent(v.id) || (b, Parent(v.id)) in GraphOf(f).edges) && b in f.blocks && Parent(v.id) in f.blocks
  {
    if b == Parent(v.id) {
      hide WellFormed;
    } else {
      var inc := PhiAt(f, v.id).incoming;
      var i :| 0 <= i < |inc| && inc[i].0 == b;
      IncomingIsPred(f, v.id, i);
      hide WellFormed;
      EdgeIsSucc(f, b, Parent(v.id));
    }
  }

  lemma SliceBlockReachesHome(f: Function, exit: BlockRef, preds: map<BlockRef, seq<Edge>>, s: Slice, b: BlockRef)
    requires Standing(f, exit, preds, s) && b in s.blocks
    ensures Reaches(GraphOf(f), b, s.Home())
  {
    var g := GraphOf(f);
    var v := BroughtBy(f, exit, preds, s, b);
    BroughtHow(f, v, b) by { assert WellFormed(f); }
    hide Standing, Brings, HasInst;
    SliceValueReachesHome(f, exit, preds, s);
    assert ValueReaches(g, v, s.Home());
    if b != Parent(v.id) {
      var q :| PathFromTo(g, q, Parent(v.id), s.Home());
      StepThen(g, b, q, Parent(v.id), s.Home());
    }
  }

  lemma TermNotOperand(f: Function, u: Value, v: Value)
    requires WellFormed(f) && v.Res? && v.id.TermId?
    ensures !OperandOf(f, u, v)
  {
    assert OperandOf(f, u, v) ==> GoodValue(f, v);
  }

  /** If the criterion is computed at most once, the terminator of its block is not sliced. */
  lemma HomeDoesNotEnd(f: Function, exit: BlockRef, preds: map<BlockRef, seq<Edge>>, s: Slice)
    requires Standing(f, exit, preds, s) && !OnCycle(GraphOf(f), s.Home())
    ensures !s.Ends(s.Home())
  {
    var g, entry, home := GraphOf(f), f.order[0], s.Home();
    if s.Ends(home) {
      var v := Res(TermId(home.b));
      LeastHasUser(f, s.gates, Res(s.crit), s.deps, v);
      var u :| u in s.deps && Needs(f, s.gates, u, v);
      TermNotOperand(f, u, v);
      var p := GateAbovePred(f, exit, preds, s.gates, Parent(u.id), v.id);
      SliceValueReachesHome(f, exit, preds, s);
      assert ValueReaches(g, u, home);
      DomReaches(g, entry, home, p);
      LoopsBack(g, home, p, Parent(u.id));
    }
  }

  lemma LoopsBack(g: Graph, a: BlockRef, p: BlockRef, b: BlockRef)
    requires Reaches(g, a, p) && (p, b) in g.edges && Reaches(g, b, a)
    ensures OnCycle(g, a)
  {
    var q :| PathFromTo(g, q, a, p);
    var r :| PathFromTo(g, r, b, a);
    StepThen(g, p, r, b, a);
    Join(g, q, [p] + r, a, p, a);
    assert |q + ([p] + r)[1..]| > 1;
  }

  // ---- a slice block without a sliced terminator leads on into the slice ----

  /** `b` strictly dominates a slice block. */
  ghost predicate DominatesOn(f: Function, s: Slice, b: BlockRef)
    requires |f.order| > 0
  {
    exists d :: d in s.blocks && d != b && Dominates(GraphOf(f), f.order[0], b, d)
  }

  ghost predicate StepsOn(f: Function, s: Slice, b: BlockRef)
    requires b in f.blocks
  {
    exists t :: t in f.blocks[b].Succs() && t in s.blocks
  }

  function Position(id: Id): int {
    match id
    case BodyId(_, k) => k
    case _ => -1
  }

  /** Where a phi that uses `v` takes it from. */
  lemma PhiUse(f: Function, u: Id, v: Id) returns (p: BlockRef)
    requires WellFormed(f) && DefsDominateUses(f) && u.PhiId? && OperandOf(f, Res(u), Res(v))
    ensures (p, Parent(u)) in GraphOf(f).edges && Dominates(GraphOf(f), f.order[0], Parent(v), p)
    ensures Brings(f, Res(u), p) && Brings(f, Res(u), Parent(u))
  {
    var inc := PhiAt(f, u).incoming;
    var i :| 0 <= i < |inc| && inc[i].1 == Res(v);
    p := inc[i].0;
    IncomingIsPred(f, u, i);
    assert (p, Res(v)) in inc;
    hide WellFormed, Dominates;
  }

  /** A sliced phi that uses `v` shows that the block of `v` leads on. */
  lemma {:induction false} PhiUserLeadsOn(f: Function, exit: BlockRef, preds: map<BlockRef, seq<Edge>>,
                                          s: Slice, u: Id, v: Id)
    requires Standing(f, exit, preds, s) && Res(u) in s.deps && u.PhiId? && OperandOf(f, Res(u), Res(v))
    requires Parent(v) in f.blocks && |f.order| > 0
    ensures DominatesOn(f, s, Parent(v)) || StepsOn(f, s, Parent(v))
  {
    SliceIsLeast(f, exit, preds, s);
    hide IsSlice, Least, WellFormed, DefsDominateUses, Dominates, Brings, OperandOf;
    var p := PhiUse(f, u, v);
    if p == Parent(v) {
      assert Parent(u) in f.blocks[Parent(v)].Succs();
    }
  }

  /** Another sliced user of `v` is further down in its block, or shows that the block leads on. */
  lemma {:induction false} InstUserLeadsOn(f: Function, exit: BlockRef, preds: map<BlockRef, seq<Edge>>,
                                           s: Slice, u: Id, v: Id)
    requires Standing(f, exit, preds, s) && Res(u) in s.deps && !u.PhiId? && OperandOf(f, Res(u), Res(v))
    requires Parent(v) in f.blocks && !s.Ends(Parent(v)) && HasInst(f, u)
    ensures DominatesOn(f, s, Parent(v)) || (u.BodyId? && Parent(u) == Parent(v) && Before(v, u))
  {
    SliceIsLeast(f, exit, preds, s);
    hide IsSlice, Least;
    assert Brings(f, Res(u), Parent(u));
    assert Dominates(GraphOf(f), f.order[0], Parent(v), Parent(u));
  }

  lemma {:induction false} UserLeadsOn(f: Function, exit: BlockRef, preds: map<BlockRef, seq<Edge>>, s: Slice, u: Id, v: Id)
    requires Standing(f, exit, preds, s) && Res(u) in s.deps && Res(v) in s.deps
    requires Needs(f, s.gates, Res(u), Res(v)) && Parent(v) in f.blocks && !s.Ends(Parent(v))
    ensures || DominatesOn(f, s, Parent(v)) || StepsOn(f, s, Parent(v))
            || (u.BodyId? && HasInst(f, u) && Parent(u) == Parent(v) && Before(v, u))
  {
    SliceIsLeast(f, exit, preds, s);
    hide Standing, Least, BlocksOf, DominatesOn, StepsOn;
    if OperandOf(f, Res(u), Res(v)) {
      if u.PhiId? {
        PhiUserLeadsOn(f, exit, preds, s, u, v);
      } else {
        InstUserLeadsOn(f, exit, preds, s, u, v);
      }
    } else {
      GateEnds(f, exit, preds, s, u, v);
    }
  }

  lemma {:induction false} GateEnds(f: Function, exit: BlockRef, preds: map<BlockRef, seq<Edge>>, s: Slice, u: Id, v: Id)
    requires Standing(f, exit, preds, s) && Res(v) in s.deps && GateFor(f, s.gates, Res(u), Res(v))
    ensures s.Ends(Parent(v))
  {
    hide Least, AttractorMap, WellFormed, DefsDominateUses, BlocksOf;
    var p := GateAbovePred(f, exit, preds, s.gates, Parent(u), v);
  }

  lemma {:induction false} InstLeadsOn(f: Function, exit: BlockRef, preds: map<BlockRef, seq<Edge>>, s: Slice, v: Id)
    requires Standing(f, exit, preds, s) && Res(v) in s.deps && HasInst(f, v)
    requires Parent(v) != s.Home() && !s.Ends(Parent(v))
    ensures DominatesOn(f, s, Parent(v)) || StepsOn(f, s, Parent(v))
    decreases |f.blocks[Parent(v)].body| - Position(v)
  {
    SliceIsLeast(f, exit, preds, s);
    hide Standing, Least, Needs, BlocksOf, DominatesOn, StepsOn;
    LeastHasUser(f, s.gates, Res(s.crit), s.deps, Res(v));
    var u :| u in s.deps && Needs(f, s.gates, u, Res(v));
    NeedsOfInst(f, s.gates, u, Res(v));
    UserLeadsOn(f, exit, preds, s, u.id, v);
    if !DominatesOn(f, s, Parent(v)) && !StepsOn(f, s, Parent(v)) {
      InstLeadsOn(f, exit, preds, s, u.id);
    }
  }

  lemma NeedsOfInst(f: Function, gates: GateMap, u: Value, v: Value)
    requires Needs(f, gates, u, v)
    ensures u.Res? && HasInst(f, u.id)
  {
  }

  /** A slice block other than the criterion's whose terminator is not sliced strictly dominates a
      slice block, or has a slice block among its successors. */
  lemma SliceBlockLeadsOn(f: Function, exit: BlockRef, preds: map<BlockRef, seq<Edge>>, s: Slice, b: BlockRef)
    requires Standing(f, exit, preds, s) && b in s.blocks && b != s.Home() && !s.Ends(b)
    ensures b in f.blocks && (DominatesOn(f, s, b) || StepsOn(f, s, b))
  {
    var v := BroughtBy(f, exit, preds, s, b);
    BroughtHow(f, v, b) by { assert WellFormed(f); }
    SliceIsLeast(f, exit, preds, s);
    hide Standing, Brings, HasInst, DominatesOn, Least;
    if b == Parent(v.id) {
      hide StepsOn;
      InstLeadsOn(f, exit, preds, s, v.id);
    } else {
      assert Parent(v.id) in s.blocks;
      EdgeIsSucc(f, b, Parent(v.id));
    }
  }
}
