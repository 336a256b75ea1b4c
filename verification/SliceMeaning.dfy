/** What the parts of a slice are, said of the instructions of the function and of paths through it. */
module SliceMeaning {
  import opened Graphs
  import opened Ir
  import opened Gates
  import opened Dependences
  import opened Attractors

  // ---- gates ----

  /** `c` is a dominator of `p` that `p` does not post-dominate, and every other one dominates `c`. */
  ghost predicate NearestUndecided(f: Function, exit: BlockRef, p: BlockRef, c: BlockRef)
    requires |f.order| > 0
  {
    var g, entry := GraphOf(f), f.order[0];
    && c in f.blocks && Dominates(g, entry, c, p) && !PostDominates(g, exit, p, c)
    && forall d | d in f.blocks && Dominates(g, entry, d, p) && !PostDominates(g, exit, p, d) :: Dominates(g, entry, d, c)
  }

  /** The terminator of `q` gates the edge from `p` to `b`: `q` is `p` itself if that dominates `b` without being
      post-dominated by it, and otherwise the nearest dominator of `p` that `p` does not post-dominate. */
  ghost predicate GatesEdge(f: Function, exit: BlockRef, p: BlockRef, b: BlockRef, q: BlockRef)
    requires |f.order| > 0
  {
    if Dominates(GraphOf(f), f.order[0], p, b) && !PostDominates(GraphOf(f), exit, b, p) then q == p
    else NearestUndecided(f, exit, p, q)
  }

  lemma GatesEdgeIs(f: Function, exit: BlockRef, p: BlockRef, b: BlockRef, q: BlockRef)
    requires |f.order| > 0
    ensures GatesEdge(f, exit, p, b, q) <==> GatedVia(GraphOf(f), f.order[0], exit, p, b, q)
  {
    NearestIsController(f, exit, p, q);
    hide NearestUndecided, IsController, Dominates, PostDominates, GraphOf;
  }

  lemma NearestIsController(f: Function, exit: BlockRef, p: BlockRef, c: BlockRef)
    requires |f.order| > 0
    ensures NearestUndecided(f, exit, p, c) <==> IsController(GraphOf(f), f.order[0], exit, p, c)
  {
    assert GraphOf(f).nodes == f.blocks.Keys;
    hide Dominates, PostDominates, GraphOf;
  }

  /** A block with at most one edge into it has no gates; the gates of any other are exactly the terminators that gate an
      edge into it. */
  lemma GatesSay(f: Function, exit: BlockRef, preds: map<BlockRef, seq<Edge>>, gates: GateMap, b: BlockRef)
    requires |f.order| > 0 && GatesOf(f, exit, preds, gates) && b in f.blocks
    ensures gates.Keys == f.blocks.Keys && b in preds && (|preds[b]| <= 1 ==> gates[b] == [])
    ensures forall e, q | e in preds[b] && |preds[b]| > 1 && GatesEdge(f, exit, e.0, b, q) :: q.Orig? && TermId(q.b) in gates[b]
    ensures forall v | v in gates[b] ::
      v.TermId? && |preds[b]| > 1 && exists e :: e in preds[b] && GatesEdge(f, exit, e.0, b, Orig(v.b))
  {
    hide *;
    GatesAt(f, exit, preds, gates, b);
    forall e, q | e in preds[b] && |preds[b]| > 1 && GatesEdge(f, exit, e.0, b, q)
      ensures q.Orig? && TermId(q.b) in gates[b]
    {
      GatesEdgeIs(f, exit, e.0, b, q);
      GatesHold(GraphOf(f), f.order[0], exit, preds[b], b, gates[b], e, q);
    }
    forall v | v in gates[b]
      ensures v.TermId? && |preds[b]| > 1 && exists e :: e in preds[b] && GatesEdge(f, exit, e.0, b, Orig(v.b))
    {
      var e := GateFrom(GraphOf(f), f.order[0], exit, preds[b], b, gates[b], v);
      GatesEdgeIs(f, exit, e.0, b, Orig(v.b));
    }
  }

  lemma GatesAt(f: Function, exit: BlockRef, preds: map<BlockRef, seq<Edge>>, gates: GateMap, b: BlockRef)
    requires |f.order| > 0 && GatesOf(f, exit, preds, gates) && b in f.blocks
    ensures gates.Keys == f.blocks.Keys && b in preds && BlockGates(GraphOf(f), f.order[0], exit, preds[b], b, gates[b])
    ensures |preds[b]| <= 1 ==> gates[b] == []
  {
    hide GraphOf, GatesFrom;
  }

  lemma GatesHold(g: Graph, entry: BlockRef, exit: BlockRef, ps: seq<Edge>, b: BlockRef, gs: seq<Id>, e: Edge, q: BlockRef)
    requires BlockGates(g, entry, exit, ps, b, gs) && |ps| > 1 && e in ps && GatedVia(g, entry, exit, e.0, b, q)
    ensures q.Orig? && TermId(q.b) in gs
  {
    hide GatedVia, Branches;
  }

  lemma GateFrom(g: Graph, entry: BlockRef, exit: BlockRef, ps: seq<Edge>, b: BlockRef, gs: seq<Id>, v: Id) returns (e: Edge)
    requires BlockGates(g, entry, exit, ps, b, gs) && v in gs
    ensures v.TermId? && |ps| > 1 && e in ps && GatedVia(g, entry, exit, e.0, b, Orig(v.b))
  {
    hide GatedVia, Branches;
    e :| e in ps && GatedVia(g, entry, exit, e.0, b, Orig(v.b));
  }

  // ---- dependences ----

  /** The values an instruction reads. */
  ghost predicate Reads(f: Function, id: Id, v: Value) {
    match id
    case PhiId(b, k) => Orig(b) in f.blocks && k < |f.blocks[Orig(b)].phis| && exists e :: e in f.blocks[Orig(b)].phis[k].incoming && e.1 == v
    case BodyId(b, k) => Orig(b) in f.blocks && k < |f.blocks[Orig(b)].body| && v in f.blocks[Orig(b)].body[k].args
    case TermId(b) => Orig(b) in f.blocks && f.blocks[Orig(b)].term.Some? && (
      match f.blocks[Orig(b)].term.value
      case CondBr(c, _, _) => v == c
      case Switch(c, _, _) => v == c
      case Ret(r) => v == r
      case _ => false)
    case _ => false
  }

  lemma ReadsAreOperands(f: Function, id: Id, v: Value)
    ensures Reads(f, id, v) <==> HasInst(f, id) && v in Operands(f, id)
  {
    match id
    case PhiId(b, k) =>
      if HasInst(f, id) {
        var inc := f.blocks[Orig(b)].phis[k].incoming;
        if v in Operands(f, id) {
          var i :| 0 <= i < |inc| && inc[i].1 == v;
          assert inc[i] in inc;
        }
        if e :| e in inc && e.1 == v {
          var i :| 0 <= i < |inc| && inc[i] == e;
          assert IncomingValues(inc)[i] == v;
        }
      }
    case _ =>
  }

  /** `v` is one of the gates of the block of the phi `u`. */
  ghost predicate Gated(f: Function, gates: GateMap, u: Id, v: Value) {
    u.PhiId? && Orig(u.b) in f.blocks && u.k < |f.blocks[Orig(u.b)].phis| && v.Res? && Orig(u.b) in gates && v.id in gates[Orig(u.b)]
  }

  lemma NeedsSay(f: Function, gates: GateMap, u: Value, v: Value)
    ensures Needs(f, gates, u, v) <==> u.Res? && ((Reads(f, u.id, v) && (v.Arg? || v.Res?)) || Gated(f, gates, u.id, v))
  {
    if u.Res? {
      ReadsAreOperands(f, u.id, v);
    }
    hide Reads;
  }

  /** The slice holds the criterion and, of every instruction it holds, all parameters and results the instruction reads,
      and the gates of its block if it is a phi.  Whatever else it holds is read by something it holds, or gates it, and
      any set that holds the criterion and has the first property holds it too. */
  lemma DependencesSay(f: Function, gates: GateMap, crit: Id, deps: set<Value>)
    requires Least(f, gates, Res(crit), deps)
    ensures Res(crit) in deps
    ensures forall u, v | Res(u) in deps && Reads(f, u, v) && (v.Arg? || v.Res?) :: v in deps
    ensures forall u, v | Res(u) in deps && Gated(f, gates, u, v) :: v in deps
    ensures forall v | v in deps && v != Res(crit) ::
      exists u :: Res(u) in deps && ((Reads(f, u, v) && (v.Arg? || v.Res?)) || Gated(f, gates, u, v))
  {
    hide Reads, Gated, Needs;
    forall u, v | Res(u) in deps && ((Reads(f, u, v) && (v.Arg? || v.Res?)) || Gated(f, gates, u, v))
      ensures v in deps
    {
      NeedsSay(f, gates, Res(u), v);
    }
    forall v | v in deps && v != Res(crit)
      ensures exists u :: Res(u) in deps && ((Reads(f, u, v) && (v.Arg? || v.Res?)) || Gated(f, gates, u, v))
    {
      LeastHasUser(f, gates, Res(crit), deps, v);
      var w :| w in deps && Needs(f, gates, w, v);
      NeedsSay(f, gates, w, v);
      assert w == Res(w.id);
    }
  }

  /** Every set with that property holds the slice. */
  lemma DependencesLeast(f: Function, gates: GateMap, crit: Id, deps: set<Value>, t: set<Value>)
    requires Least(f, gates, Res(crit), deps) && Res(crit) in t
    requires forall u, v | Res(u) in t && Reads(f, u, v) && (v.Arg? || v.Res?) :: v in t
    requires forall u, v | Res(u) in t && Gated(f, gates, u, v) :: v in t
    ensures deps <= t
  {
    hide Reads, Gated, Needs;
    forall u, v | u in t && Needs(f, gates, u, v)
      ensures v in t
    {
      NeedsSay(f, gates, u, v);
    }
    assert Closed(f, gates, t);
  }

  /** The slice blocks are those that hold an instruction of the slice, and those from which one of its phis is entered. */
  lemma BlocksSay(f: Function, deps: set<Value>, bbs: set<BlockRef>, b: BlockRef)
    requires BlocksOf(f, deps, bbs)
    ensures b in bbs <==> exists id :: && Res(id) in deps && HasInst(f, id)
                                       && (b == Parent(id) || (id.PhiId? && EntersPhi(f, id.b, id.k, b)))
  {
    if b in bbs {
      var v :| v in deps && Brings(f, v, b);
      BringsSay(f, v.id, b);
      assert v == Res(v.id);
    }
    if id :| Res(id) in deps && HasInst(f, id) && (b == Parent(id) || (id.PhiId? && EntersPhi(f, id.b, id.k, b))) {
      BringsSay(f, id, b);
    }
  }

  /** A phi of the function takes a value from `b`. */
  ghost predicate EntersPhi(f: Function, q: nat, k: nat, b: BlockRef) {
    Orig(q) in f.blocks && k < |f.blocks[Orig(q)].phis| && exists e :: e in f.blocks[Orig(q)].phis[k].incoming && e.0 == b
  }

  lemma {:induction false} BringsSay(f: Function, id: Id, b: BlockRef)
    ensures Brings(f, Res(id), b) <==> HasInst(f, id) && (b == Parent(id) || (id.PhiId? && EntersPhi(f, id.b, id.k, b)))
  {
    if HasInst(f, id) && id.PhiId? {
      var inc := f.blocks[Orig(id.b)].phis[id.k].incoming;
      if i :| 0 <= i < |inc| && inc[i].0 == b {
        assert inc[i] in inc;
      }
      if e :| e in inc && e.0 == b {
        var i :| 0 <= i < |inc| && inc[i] == e;
        assert 0 <= i < |PhiAt(f, id).incoming| && PhiAt(f, id).incoming[i].0 == b;
      }
    }
  }

  // ---- attractors ----

  /** A block has an attractor exactly if some slice block lies on every way from it to the exit; the attractor is such a
      block, and every other one lies on every way on from it.  A slice block is its own. */
  lemma AttractorsSay(g: Graph, exit: BlockRef, s: set<BlockRef>, m: map<BlockRef, BlockRef>, b: BlockRef)
    requires AttractorMap(g, exit, s, m) && b in g.nodes
    ensures b in m <==> exists c :: c in s && PostDominates(g, exit, c, b)
    ensures b in m ==> m[b] in s && PostDominates(g, exit, m[b], b)
    ensures b in m ==> forall c | c in s && PostDominates(g, exit, c, b) :: PostDominates(g, exit, c, m[b])
    ensures b in s ==> b in m && m[b] == b
  {
    assert AttractorAt(g, exit, s, m, b);
    hide AttractorMap, PostDominates;
  }
}
