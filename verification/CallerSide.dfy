/** Call-by-need on the caller's side: the thunk is initialised where the criterion is computed, the call is
    passed the thunk, and the other uses of the criterion become thunk calls. */
module CallerSide {
  import opened Graphs
  import opened Ir
  import opened Forcing
  import opened CallByNeed

  // ---- the caller before its uses are replaced ----

  /** What `lazifyCallsite` is given: the criterion, the call, the argument it is, and the parameters the
      slice depends on. */
  datatype Site = Site(crit: Id, call: Id, index: nat, envArgs: seq<nat>)

  /** The call is passed the thunk instead of the value. */
  function PassThunk(i: Instr, a: Site): Instr {
    if i.id == a.call && i.op.Fn? && a.index < |i.args|
    then Instr(i.id, LazyCall(i.op.f, a.index), i.args[a.index := Const(0)])
    else i
  }

  function PassThunkAll(body: seq<Instr>, a: Site): (r: seq<Instr>)
    ensures |r| == |body|
  {
    seq(|body|, j requires 0 <= j < |body| => PassThunk(body[j], a))
  }

  function ArgValues(args: seq<nat>): (r: seq<Value>)
    ensures |r| == |args|
  {
    seq(|args|, j requires 0 <= j < |args| => Arg(args[j]))
  }

  function InitInstr(a: Site): Instr {
    Instr(DummyId(a.crit, 0), InitThunk, ArgValues(a.envArgs))
  }

  /** The thunk is initialised before the criterion, or behind the phis if it is one of them. */
  function InitPos(a: Site): nat {
    if a.crit.BodyId? then a.crit.k else 0
  }

  function LazyBody(body: seq<Instr>, a: Site, here: bool): seq<Instr> {
    var r := PassThunkAll(body, a);
    if here && InitPos(a) <= |r| then r[..InitPos(a)] + [InitInstr(a)] + r[InitPos(a)..] else r
  }

  function WithThunk(f: Function, a: Site): Function {
    f.(blocks := map b | b in f.blocks :: f.blocks[b].(body := LazyBody(f.blocks[b].body, a, b == Parent(a.crit))))
  }

  // ---- what the caller must be ----

  /** The call is an instruction of the caller whose argument `index` is the criterion. */
  ghost predicate GoodSite(f: Function, a: Site) {
    && HasInst(f, a.crit) && !a.crit.TermId?
    && HasInst(f, a.call) && a.call.BodyId? && a.index < |Operands(f, a.call)| && Operands(f, a.call)[a.index] == Res(a.crit)
  }

  ghost predicate GoodCaller(f: Function, a: Site) {
    && WellFormed(f) && DefsDominateUses(f) && GoodSite(f, a)
    && Rooted(GraphOf(f), f.order[0]) && !OnCycle(GraphOf(f), Parent(a.crit))
  }

  lemma GoodCallerParts(f: Function, a: Site)
    requires GoodCaller(f, a)
    ensures WellFormed(f) && DefsDominateUses(f) && Shaped(f) && GoodSite(f, a)
  {
    hide GoodBlock, DefsDominateUses, GoodSite, GoodValue;
  }

  // ---- only blocks below the criterion's use it ----

  lemma InstrHere(f: Function, b: BlockRef, k: nat)
    requires WellFormed(f) && b in f.blocks && k < |f.blocks[b].body|
    ensures b.Orig? && f.blocks[b].body[k].id == BodyId(b.b, k) && HasInst(f, BodyId(b.b, k))
    ensures Operands(f, BodyId(b.b, k)) == f.blocks[b].body[k].args && f.blocks[b].body[k].op.Fn?
  {
    assert GoodBlock(f, b.b);
  }

  lemma {:induction false} DefDominates(f: Function, id: Id, d: Id)
    requires |f.order| > 0 && DefsDominateUses(f) && HasInst(f, id) && !id.PhiId? && Res(d) in Operands(f, id)
    ensures Dominates(GraphOf(f), f.order[0], Parent(d), Parent(id))
    ensures id.BodyId? && Parent(d) == Parent(id) ==> Before(d, id)
  {
    hide Dominates, Operands, Parent, Before;
  }

  /** A use by an instruction: its block is dominated by the criterion's, and in that block it comes later. */
  lemma InstrUseBelow(f: Function, a: Site, b: BlockRef, k: nat)
    requires GoodCaller(f, a) && b in f.blocks && k < |f.blocks[b].body| && Res(a.crit) in f.blocks[b].body[k].args
    ensures |f.order| > 0 && Dominates(GraphOf(f), f.order[0], Parent(a.crit), b)
    ensures b == Parent(a.crit) && a.crit.BodyId? ==> a.crit.k < k
  {
    hide *;
    hide GoodCaller;
    GoodCallerParts(f, a);
    ShapedParts(f);
    InstrHere(f, b, k);
    DefDominates(f, BodyId(b.b, k), a.crit);
    ParentOfBody(b.b, k);
    BeforeBody(a.crit, b.b, k);
  }

  lemma ShapedParts(f: Function)
    requires Shaped(f)
    ensures |f.order| > 0 && f.order[0] in f.blocks
    ensures forall b | b in f.blocks :: b.Orig? && f.blocks[b].term.Some?
    ensures forall b, s | b in f.blocks && s in f.blocks[b].Succs() :: s in f.blocks
  {
  }

  lemma ParentOfBody(b: nat, k: nat)
    ensures Parent(BodyId(b, k)) == Orig(b) && Parent(TermId(b)) == Orig(b)
  {
  }

  lemma BeforeBody(d: Id, b: nat, k: nat)
    ensures Before(d, BodyId(b, k)) && d.BodyId? ==> d.k < k
  {
  }

  lemma TermUseBelow(f: Function, a: Site, b: BlockRef)
    requires GoodCaller(f, a) && b in f.blocks && b.Orig? && f.blocks[b].term.Some?
    requires Res(a.crit) in f.blocks[b].term.value.Values()
    ensures |f.order| > 0 && Dominates(GraphOf(f), f.order[0], Parent(a.crit), b)
  {
    hide GoodCaller, Shaped, WellFormed, DefsDominateUses, Dominates;
    GoodCallerParts(f, a);
    ShapedParts(f);
    DefDominates(f, TermId(b.b), a.crit);
  }

  lemma PhiUseBelow(f: Function, a: Site, q: BlockRef, i: nat, j: nat, b: BlockRef)
    requires GoodCaller(f, a) && q in f.blocks && i < |f.blocks[q].phis| && j < |f.blocks[q].phis[i].incoming|
    requires f.blocks[q].phis[i].incoming[j] == (b, Res(a.crit))
    ensures |f.order| > 0 && Dominates(GraphOf(f), f.order[0], Parent(a.crit), b)
  {
    hide Dominates, WellFormed, OnCycle, Rooted;
    GoodCallerParts(f, a);
    ShapedParts(f);
    var id := PhiId(q.b, i);
    assert HasInst(f, id) && (b, Res(a.crit)) in PhiAt(f, id).incoming;
  }

  // ---- run eagerly, nothing has changed ----

  /** The instruction a block of the caller holds at `k`, with the call passed the thunk, is eagerly the same. */
  lemma EagerSame(f: Function, a: Site, b: BlockRef, k: nat)
    requires GoodCaller(f, a) && b in f.blocks && k < |f.blocks[b].body|
    ensures var i := f.blocks[b].body[k];
      && EagerInstr(PassThunk(i, a), Res(a.crit)) == i && i.op.Fn?
      && (i.id == a.call ==> a.index < |i.args| && i.args[a.index] == Res(a.crit))
  {
    hide GoodCaller, WellFormed, DefsDominateUses, Shaped, Operands;
    GoodCallerParts(f, a);
    InstrHere(f, b, k);
    var i := f.blocks[b].body[k];
    if i.id == a.call {
      assert i.args[a.index := Const(0)][a.index := Res(a.crit)] == i.args;
    }
  }

  lemma EagerSlice(f: Function, a: Site, b: BlockRef, lo: nat, hi: nat)
    requires GoodCaller(f, a) && b in f.blocks && lo <= hi <= |f.blocks[b].body|
    ensures EagerBody(PassThunkAll(f.blocks[b].body, a)[lo..hi], Res(a.crit)) == f.blocks[b].body[lo..hi]
  {
    hide GoodCaller, EagerInstr, PassThunk;
    forall j | 0 <= j < hi - lo
      ensures EagerBody(PassThunkAll(f.blocks[b].body, a)[lo..hi], Res(a.crit))[j] == f.blocks[b].body[lo..hi][j]
    {
      EagerSame(f, a, b, lo + j);
    }
  }

  /** The caller with the call passed the thunk, which nobody has initialised yet. */
  function PassedThunk(f: Function, a: Site): Function {
    f.(blocks := map b | b in f.blocks :: f.blocks[b].(body := PassThunkAll(f.blocks[b].body, a)))
  }

  lemma PassedBlock(f: Function, a: Site, b: BlockRef)
    requires b in f.blocks
    ensures PassedThunk(f, a).blocks.Keys == f.blocks.Keys
    ensures PassedThunk(f, a).blocks[b] == f.blocks[b].(body := PassThunkAll(f.blocks[b].body, a))
  {
  }

  // ---- the rewritten caller ----

  ghost predicate Forced(f: Function, a: Site, calls: map<Id, seq<nat>>, tails: map<BlockRef, seq<Use>>, c: Function) {
    IsForced(WithThunk(f, a), Res(a.crit), calls, tails, c)
  }

  lemma ForcedShape(f: Function, a: Site, calls: map<Id, seq<nat>>, tails: map<BlockRef, seq<Use>>, c: Function)
    requires Forced(f, a, calls, tails, c)
    ensures c.nargs == f.nargs && c.order == f.order && c.blocks.Keys == f.blocks.Keys
  {
    hide CallsExact, TailsExact, ForcedBlock, LazyBody;
  }

  lemma LazyBlocks(f: Function, a: Site, b: BlockRef)
    requires b in f.blocks
    ensures WithThunk(f, a).blocks.Keys == f.blocks.Keys && WithThunk(f, a).order == f.order
    ensures WithThunk(f, a).blocks[b] == f.blocks[b].(body := LazyBody(f.blocks[b].body, a, b == Parent(a.crit)))
    ensures forall i | i in PassThunkAll(f.blocks[b].body, a) :: i in WithThunk(f, a).blocks[b].body
  {
    var r := PassThunkAll(f.blocks[b].body, a);
    if InitPos(a) <= |r| {
      assert r[..InitPos(a)] + r[InitPos(a)..] == r;
    }
  }

  lemma ForcedParts(f: Function, a: Site, calls: map<Id, seq<nat>>, tails: map<BlockRef, seq<Use>>, c: Function)
    requires Forced(f, a, calls, tails, c)
    ensures CallsExact(WithThunk(f, a), Res(a.crit), calls) && TailsExact(WithThunk(f, a), Res(a.crit), tails)
    ensures c.blocks.Keys == f.blocks.Keys == tails.Keys && c.order == f.order
    ensures forall b: nat | Orig(b) in f.blocks ::
      c.blocks[Orig(b)] == ForcedBlock(b, WithThunk(f, a).blocks[Orig(b)], calls, tails[Orig(b)], Res(a.crit))
  {
    hide CallsExact, LazyBody, ForcedBlock, TailUse;
  }

  lemma GoodAt(w: Life, f: Function, b: BlockRef, k: nat)
    requires WellFormed(f) && b in f.blocks && k < |f.blocks[b].body|
    ensures GoodInstr(f.blocks[b].body[k]) && f.blocks[b].body[k].op.Fn?
    ensures b.Orig? && f.blocks[b].body[k].id == BodyId(b.b, k)
  {
    hide WellFormed, GoodInstr, GoodPhis;
    WellFormedBlock(w, f, b);
    InstrHere(f, b, k);
    assert f.blocks[b].body[k] in f.blocks[b].body;
  }

  /** What the rewriting finds at position `k` of the block `b`. */
  lemma RewrittenAt(w: Life, f: Function, a: Site, calls: map<Id, seq<nat>>,
                    tails: map<BlockRef, seq<Use>>, c: Function,
                    b: BlockRef, k: nat)
    requires GoodCaller(f, a) && Forced(f, a, calls, tails, c) && w.target == Res(a.crit)
    requires b in f.blocks && k < |f.blocks[b].body|
    ensures var o, i := f.blocks[b].body[k], PassThunk(f.blocks[b].body[k], a);
      && GoodInstr(o) && o.op.Fn? && b.Orig? && o.id == BodyId(b.b, k)
      && CoversInstr(i, calls, w.target) && (w.target !in i.args ==> CallsOf(calls, i.id) == [])
      && (o.id == a.call ==> a.index < |o.args| && o.args[a.index] == Res(a.crit))
  {
    hide *;
    hide GoodCaller;
    GoodCallerParts(f, a);
    ForcedParts(f, a, calls, tails, c);
    LazyBlocks(f, a, b);
    PassThunkAllAt(f.blocks[b].body, a, k);
    CallsCover(WithThunk(f, a), w.target, calls, b, PassThunk(f.blocks[b].body[k], a));
    GoodAt(w, f, b, k);
    EagerSame(f, a, b, k);
  }

  lemma PassThunkAllAt(body: seq<Instr>, a: Site, k: nat)
    requires k < |body|
    ensures PassThunkAll(body, a)[k] == PassThunk(body[k], a) && PassThunk(body[k], a) in PassThunkAll(body, a)
  {
    assert PassThunkAll(body, a)[k] in PassThunkAll(body, a);
  }

  /** Instructions that do not use the criterion are not rewritten. */
  lemma QuietPart(w: Life, f: Function, a: Site, calls: map<Id, seq<nat>>,
                  tails: map<BlockRef, seq<Use>>, c: Function,
                  b: BlockRef, hi: nat)
    requires GoodCaller(f, a) && Forced(f, a, calls, tails, c) && w.target == Res(a.crit)
    requires b in f.blocks && hi <= |f.blocks[b].body| && forall k | 0 <= k < hi :: Res(a.crit) !in f.blocks[b].body[k].args
    ensures GoodBody(w, false, PassThunkAll(f.blocks[b].body, a)[..hi], calls)
    ensures EagerBody(PassThunkAll(f.blocks[b].body, a)[..hi], w.target) == f.blocks[b].body[..hi]
  {
    hide GoodCaller, Forced, GoodInstr, CoversInstr, CallsOf, EagerBody, EagerInstr;
    var r := PassThunkAll(f.blocks[b].body, a)[..hi];
    forall k | 0 <= k < hi
      ensures GoodInstr(r[k]) && CoversInstr(r[k], calls, w.target) && NoUse(r[k], w.target) && CallsOf(calls, r[k].id) == []
    {
      RewrittenAt(w, f, a, calls, tails, c, b, k);
    }
    EagerSlice(f, a, b, 0, hi);
  }

  /** The operation that is called. */
  ghost function Callee(f: Function, a: Site): nat
    requires GoodSite(f, a)
  {
    var i := f.blocks[Orig(a.call.b)].body[a.call.k];
    if i.op.Fn? then i.op.f else 0
  }

  /** The instruction is the call. */
  lemma CallIsGood(o: Instr, a: Site)
    requires GoodInstr(o) && o.op.Fn? && a.index < |o.args| && o.id == a.call
    ensures GoodInstr(PassThunk(o, a))
  {
    var i := PassThunk(o, a);
    forall v | v in i.args
      ensures GoodOperand(v)
    {
      assert v in o.args || v == Const(0);
    }
  }

  lemma BusyPart(w: Life, f: Function, a: Site, calls: map<Id, seq<nat>>,
                 tails: map<BlockRef, seq<Use>>, c: Function,
                 b: BlockRef, lo: nat)
    requires GoodCaller(f, a) && Forced(f, a, calls, tails, c) && w.target == Res(a.crit)
    requires b in f.blocks && lo <= |f.blocks[b].body| && forall k | lo <= k < |f.blocks[b].body| :: f.blocks[b].body[k].id != a.crit
    ensures GoodBody(w, true, PassThunkAll(f.blocks[b].body, a)[lo..], calls)
    ensures EagerBody(PassThunkAll(f.blocks[b].body, a)[lo..], w.target) == f.blocks[b].body[lo..]
  {
    hide GoodCaller, Forced, GoodInstr, CoversInstr, CallsOf, EagerBody, EagerInstr;
    var n := |f.blocks[b].body|;
    var r := PassThunkAll(f.blocks[b].body, a)[lo..];
    forall j | 0 <= j < |r|
      ensures GoodInstr(r[j]) && CoversInstr(r[j], calls, w.target) && r[j].id != a.crit
      ensures CallsOf(calls, r[j].id) != [] ==> w.target in r[j].args
    {
      RewrittenAt(w, f, a, calls, tails, c, b, lo + j);
      assert r[j] == PassThunk(f.blocks[b].body[lo + j], a);
      if f.blocks[b].body[lo + j].id == a.call {
        CallIsGood(f.blocks[b].body[lo + j], a);
      }
    }
    EagerSlice(f, a, b, lo, n);
    assert f.blocks[b].body[lo..n] == f.blocks[b].body[lo..];
    assert PassThunkAll(f.blocks[b].body, a)[lo..n] == r;
  }

  // ---- the ends of blocks ----

  /** A use served at the end of a block: that block is dominated by the criterion's. */
  lemma TailUseBelow(f: Function, a: Site, b: BlockRef, u: Use)
    requires GoodCaller(f, a) && b in f.blocks && TailUse(f, Res(a.crit), b, u)
    ensures |f.order| > 0 && Dominates(GraphOf(f), f.order[0], Parent(a.crit), b)
  {
    hide GoodCaller, Dominates;
    if b.Orig? && u == (TermId(b.b), 0) && f.blocks[b].term.Some? && Res(a.crit) in f.blocks[b].term.value.Values() {
      TermUseBelow(f, a, b);
    } else {
      var q, p :| q in f.blocks && p in f.blocks[q].phis && u.0 == p.id && u.1 < |p.incoming| && p.incoming[u.1] == (b, Res(a.crit));
      var i :| 0 <= i < |f.blocks[q].phis| && f.blocks[q].phis[i] == p;
      PhiUseBelow(f, a, q, i, u.1, b);
    }
  }

  /** Neither phis nor terminators change when the thunk is initialised and passed. */
  lemma SameTailUses(f: Function, a: Site, b: BlockRef, u: Use)
    requires b in f.blocks && b in WithThunk(f, a).blocks && TailUse(WithThunk(f, a), Res(a.crit), b, u)
    ensures TailUse(f, Res(a.crit), b, u)
  {
    hide LazyBody;
  }

  lemma TailUsedAsPassed(f: Function, a: Site, calls: map<Id, seq<nat>>, tails: map<BlockRef, seq<Use>>, c: Function, b: BlockRef)
    requires Forced(f, a, calls, tails, c) && b in f.blocks
    ensures b in tails && b in PassedThunk(f, a).blocks
    ensures tails[b] != [] <==> TailUsed(PassedThunk(f, a), Res(a.crit), b)
  {
    ForcedParts(f, a, calls, tails, c);
    LazyBlocks(f, a, b);
    PassedBlock(f, a, b);
    hide Forced, CallsExact, ForcedBlock, LazyBody, PassThunkAll;
    assert forall u :: TailUse(WithThunk(f, a), Res(a.crit), b, u) <==> TailUse(PassedThunk(f, a), Res(a.crit), b, u);
    hide TailUse;
    if TailUsed(PassedThunk(f, a), Res(a.crit), b) {
      var u :| TailUse(PassedThunk(f, a), Res(a.crit), b, u);
      assert u in tails[b];
    }
    NoneIn(tails[b]);
  }

  /** Calls are only placed at the end of blocks that the criterion's dominates. */
  lemma NoTail(f: Function, a: Site, calls: map<Id, seq<nat>>,
               tails: map<BlockRef, seq<Use>>, c: Function, b: BlockRef)
    requires GoodCaller(f, a) && Forced(f, a, calls, tails, c) && b in f.blocks && |f.order| > 0
    ensures b in tails && (tails[b] != [] ==> Dominates(GraphOf(f), f.order[0], Parent(a.crit), b))
  {
    var g := WithThunk(f, a);
    ForcedParts(f, a, calls, tails, c);
    LazyBlocks(f, a, b);
    hide GoodCaller, Forced, WithThunk, Dominates, CallsExact, ForcedBlock, TailUse;
    if tails[b] != [] {
      var u := tails[b][0];
      assert TailUse(g, Res(a.crit), b, u);
      SameTailUses(f, a, b, u);
      TailUseBelow(f, a, b, u);
    }
  }

  /** The calls for the terminator of a block are among those at its end. */
  lemma TermInTail(f: Function, a: Site, calls: map<Id, seq<nat>>, tails: map<BlockRef, seq<Use>>, c: Function, b: BlockRef)
    requires Forced(f, a, calls, tails, c) && b in f.blocks && b.Orig? && f.blocks[b].term.Some?
    ensures b in tails && TailReady(b.b, f.blocks[b].term.value, tails[b], Res(a.crit))
  {
    ForcedParts(f, a, calls, tails, c);
    hide Forced, LazyBody, CallsExact, ForcedBlock;
    var g := WithThunk(f, a);
    if Res(a.crit) in f.blocks[b].term.value.Values() {
      assert TailUse(g, Res(a.crit), b, (TermId(b.b), 0));
    }
  }

  lemma QuietEdge(f: Function, a: Site, b: BlockRef, q: BlockRef)
    requires GoodCaller(f, a) && |f.order| > 0 && q in f.blocks
    requires !Dominates(GraphOf(f), f.order[0], Parent(a.crit), b)
    ensures !EdgeUses(f.blocks[q].phis, Res(a.crit), b) && forall env :: EdgeForced(f.blocks[q].phis, Res(a.crit), b, env)
  {
    hide GoodCaller, Dominates;
    forall i, j: nat | 0 <= i < |f.blocks[q].phis| && j < |f.blocks[q].phis[i].incoming|
      ensures f.blocks[q].phis[i].incoming[j] != (b, Res(a.crit))
    {
      if f.blocks[q].phis[i].incoming[j] == (b, Res(a.crit)) {
        PhiUseBelow(f, a, q, i, j, b);
      }
    }
  }

  // ---- whole blocks, except the criterion's ----

  lemma GoodEnds(w: Life, f: Function, b: BlockRef)
    requires WellFormed(f) && b in f.blocks && w.target.Res?
    ensures b.Orig? && f.blocks[b].term.Some? && GoodPhis(w, false, f.blocks[b].phis)
    ensures Parent(w.target.id) != b ==> GoodPhis(w, true, f.blocks[b].phis)
    ensures forall v | v in f.blocks[b].term.value.Values() :: GoodOperand(v)
  {
    hide DefsDominateUses, GoodValue;
    WellFormedBlock(w, f, b);
    assert GoodBlock(f, b.b);
    hide WellFormed;
  }

  /** A block the criterion's does not dominate is left as it was. */
  lemma QuietBlock(w: Life, f: Function, a: Site, calls: map<Id, seq<nat>>,
                   tails: map<BlockRef, seq<Use>>, c: Function, b: BlockRef)
    requires GoodCaller(f, a) && Forced(f, a, calls, tails, c) && w.target == Res(a.crit) && b in f.blocks && |f.order| > 0
    requires !Dominates(GraphOf(f), f.order[0], Parent(a.crit), b) && b != Parent(a.crit)
    ensures b.Orig? && b in tails && GoodForced(w, false, b.b, WithThunk(f, a).blocks[b], calls, tails[b])
    ensures EagerBody(WithThunk(f, a).blocks[b].body, w.target) == f.blocks[b].body
  {
    hide *;
    hide GoodCaller, Forced, GoodInstr;
    GoodCallerParts(f, a);
    LazyBlocks(f, a, b);
    NoTail(f, a, calls, tails, c, b);
    GoodEnds(w, f, b);
    TermInTail(f, a, calls, tails, c, b);
    forall k | 0 <= k < |f.blocks[b].body|
      ensures Res(a.crit) !in f.blocks[b].body[k].args
    {
      if Res(a.crit) in f.blocks[b].body[k].args {
        InstrUseBelow(f, a, b, k);
      }
    }
    QuietPart(w, f, a, calls, tails, c, b, |f.blocks[b].body|);
    NotHere(f.blocks[b].body, a);
    GoodForcedParts(w, false, b.b, WithThunk(f, a).blocks[b], calls, tails[b]);
  }

  lemma NotHere(body: seq<Instr>, a: Site)
    ensures LazyBody(body, a, false) == PassThunkAll(body, a)[..|body|] == PassThunkAll(body, a)[0..] && body == body[..|body|] == body[0..]
  {
  }

  lemma GoodForcedParts(w: Life, ready: bool, b: nat, blk: Block, calls: map<Id, seq<nat>>, tail: seq<Use>)
    requires GoodPhis(w, ready, blk.phis) && GoodBody(w, ready, blk.body, calls)
    requires blk.term.Some? && (forall v | v in blk.term.value.Values() :: GoodOperand(v))
    requires TailReady(b, blk.term.value, tail, w.target) && (!ready ==> tail == [])
    ensures GoodForced(w, ready, b, blk, calls, tail)
  {
  }

  /** A block other than the criterion's, once the thunk is ready. */
  lemma BusyBlock(w: Life, f: Function, a: Site, calls: map<Id, seq<nat>>,
                  tails: map<BlockRef, seq<Use>>, c: Function, b: BlockRef)
    requires GoodCaller(f, a) && Forced(f, a, calls, tails, c) && w.target == Res(a.crit) && b in f.blocks
    requires b != Parent(a.crit)
    ensures b.Orig? && b in tails && GoodForced(w, true, b.b, WithThunk(f, a).blocks[b], calls, tails[b])
    ensures EagerBody(WithThunk(f, a).blocks[b].body, w.target) == f.blocks[b].body
  {
    hide *;
    hide GoodCaller, Forced, GoodInstr;
    GoodCallerParts(f, a);
    LazyBlocks(f, a, b);
    GoodEnds(w, f, b);
    TermInTail(f, a, calls, tails, c, b);
    forall k | 0 <= k < |f.blocks[b].body|
      ensures f.blocks[b].body[k].id != a.crit
    {
      InstrHere(f, b, k);
      ParentOfBody(b.b, k);
    }
    BusyPart(w, f, a, calls, tails, c, b, 0);
    NotHere(f.blocks[b].body, a);
    GoodForcedParts(w, true, b.b, WithThunk(f, a).blocks[b], calls, tails[b]);
  }
}
