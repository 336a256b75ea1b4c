/** The pass that turns one argument of a call into a thunk. */
module Lazyfication {
  import opened Graphs
  import opened Ir
  import opened Gates
  import opened Slices
  import opened Delegates
  import opened DomBranches
  import opened Outliner
  import opened Rerouting
  import opened Memoization
  import opened Machine
  import opened Forcing
  import opened CallByNeed
  import opened CallerSide
  import opened UseRewriting

  /** The use list of a value. */
  function UsesOf(g: Function, target: Value): set<Use> {
    (set b, i, k: nat | b in g.blocks && b.Orig? && i in g.blocks[b].body && 0 <= k < |i.args| && i.args[k] == target
       && Parent(i.id) == b && !i.id.PhiId? && !i.id.TermId? :: (i.id, k))
    + (set b, k: nat, j: nat | b in g.blocks && b.Orig? && 0 <= k < |g.blocks[b].phis| && 0 <= j < |g.blocks[b].phis[k].incoming|
         && g.blocks[b].phis[k].incoming[j].1 == target :: (PhiId(b.b, k), j))
    + (set b | b in g.blocks && b.Orig? && g.blocks[b].term.Some? && target in g.blocks[b].term.value.Values() :: (TermId(b.b), 0))
  }

  lemma UsesAreAll(g: Function, target: Value)
    ensures AllUses(g, target, UsesOf(g, target))
  {
    forall u: Use
      ensures u in UsesOf(g, target) <==> IsUse(g, target, u)
    {
      UseListed(g, target, u);
    }
  }

  lemma UseListed(g: Function, target: Value, u: Use)
    ensures u in UsesOf(g, target) <==> IsUse(g, target, u)
  {
    var b := Parent(u.0);
    if IsUse(g, target, u) {
      if u.0.PhiId? {
        assert u == (PhiId(b.b, u.0.k), u.1);
      } else if u.0.TermId? {
        assert u == (TermId(b.b), 0);
      } else {
        var i :| i in g.blocks[b].body && i.id == u.0 && u.1 < |i.args| && i.args[u.1] == target;
        assert u == (i.id, u.1);
      }
    }
  }

  // ---- one function being rewritten ----

  lemma {:induction false} InsertedWhere(body: seq<Instr>, user: Id, call: Instr, j: nat)
    requires j <= |body| && (forall i | 0 <= i < j :: body[i].id != user) && (j < |body| ==> body[j].id == user)
    ensures InsertedBefore(body, user, call) == if j < |body| then body[..j] + [call] + body[j..] else body
  {
    if j > 0 {
      InsertedWhere(body[1..], user, call, j - 1);
      assert body == [body[0]] + body[1..];
      if j < |body| {
        assert body[..j] == [body[0]] + body[1..][..j - 1] && body[j..] == body[1..][j - 1..];
        assert body[..j] + [call] + body[j..] == [body[0]] + (body[1..][..j - 1] + [call] + body[1..][j - 1..]);
      }
    }
  }

  lemma {:induction false} OperandSetWhere(body: seq<Instr>, user: Id, k: nat, v: Value, j: nat)
    requires j <= |body| && (forall i | 0 <= i < j :: body[i].id != user) && (j < |body| ==> body[j].id == user)
    ensures OperandSet(body, user, k, v) ==
      if j < |body| && k < |body[j].args| then body[j := body[j].(args := body[j].args[k := v])] else body
  {
    if j > 0 {
      OperandSetWhere(body[1..], user, k, v, j - 1);
    }
    if body != [] {
      assert body == [body[0]] + body[1..];
    }
  }

  lemma CritKinds(f: Function, a: Site)
    requires HasInst(f, a.crit) && !a.crit.TermId? && HasInst(f, a.call) && a.call.BodyId?
    ensures (a.crit.BodyId? || a.crit.PhiId?) && Parent(a.crit) in f.blocks && Parent(a.call) in f.blocks
    ensures InitPos(a) <= |f.blocks[Parent(a.crit)].body|
  {
  }

  /** Initialisation first and call second makes the same block as both at once. */
  lemma InitThenCall(f: Function, a: Site, blocks: map<BlockRef, Block>)
    requires WellFormed(f) && HasInst(f, a.crit) && !a.crit.TermId? && HasInst(f, a.call) && a.call.BodyId?
    requires Parent(a.crit) in f.blocks && InitPos(a) <= |f.blocks[Parent(a.crit)].body|
    requires var b, n := Parent(a.crit), InitPos(a);
      blocks == f.blocks[b := f.blocks[b].(body := f.blocks[b].body[..n] + [InitInstr(a)] + f.blocks[b].body[n..])]
    ensures Parent(a.call) in blocks
    ensures var body := blocks[Parent(a.call)].body; forall i, j | 0 <= i < j < |body| :: body[i].id != body[j].id
    ensures blocks[Parent(a.call) := blocks[Parent(a.call)].(body := PassThunkAll(blocks[Parent(a.call)].body, a))] == WithThunk(f, a).blocks
  {
    hide *;
    hide WellFormed;
    CritKinds(f, a);
    NamesHere(f, Parent(a.call));
    InitInstrId(a);
    CallIsBodyOf(a);
    NamesDistinct(Parent(a.call), f.blocks[Parent(a.call)].body, a, InitPos(a));
    forall b | b in f.blocks
      ensures b != Parent(a.call) ==> PassThunkAll(f.blocks[b].body, a) == f.blocks[b].body
      ensures LazyBody(f.blocks[b].body, a, b == Parent(a.crit)) == PassThunkAll(blocks[b].body, a)
      ensures b != Parent(a.call) ==> PassThunkAll(blocks[b].body, a) == blocks[b].body
    {
      NamesHere(f, b);
      NotNamedAs(b, f.blocks[b].body, a);
      NotTheCall(f.blocks[b].body, a);
      InsertedThenPassed(f.blocks[b].body, a);
    }
    WithThunkBlocks(f, a, blocks);
  }

  lemma CallIsBodyOf(a: Site)
    requires a.call.BodyId?
    ensures Parent(a.call) == Orig(a.call.b)
  {
  }

  lemma NamesDistinct(b: BlockRef, body: seq<Instr>, a: Site, n: nat)
    requires b.Orig? && forall k | 0 <= k < |body| :: body[k].id == BodyId(b.b, k)
    ensures forall i, j | 0 <= i < j < |body| :: body[i].id != body[j].id
    ensures n <= |body| ==> var r := body[..n] + [InitInstr(a)] + body[n..]; forall i, j | 0 <= i < j < |r| :: r[i].id != r[j].id
  {
    if n <= |body| {
      var r := body[..n] + [InitInstr(a)] + body[n..];
      assert forall k | 0 <= k < |r| :: r[k] == if k < n then body[k] else if k == n then InitInstr(a) else body[k - 1];
    }
  }

  lemma NotNamedAs(b: BlockRef, body: seq<Instr>, a: Site)
    requires b.Orig? && (forall k | 0 <= k < |body| :: body[k].id == BodyId(b.b, k)) && a.call.BodyId?
    ensures b != Parent(a.call) ==> forall i | i in body :: i.id != a.call
  {
  }

  lemma WithThunkBlocks(f: Function, a: Site, blocks: map<BlockRef, Block>)
    requires blocks.Keys == f.blocks.Keys && Parent(a.call) in blocks
    requires forall b | b in f.blocks :: blocks[b] == f.blocks[b].(body := blocks[b].body)
    requires forall b | b in f.blocks :: LazyBody(f.blocks[b].body, a, b == Parent(a.crit)) == PassThunkAll(blocks[b].body, a)
    requires forall b | b in f.blocks :: b != Parent(a.call) ==> PassThunkAll(blocks[b].body, a) == blocks[b].body
    ensures blocks[Parent(a.call) := blocks[Parent(a.call)].(body := PassThunkAll(blocks[Parent(a.call)].body, a))] == WithThunk(f, a).blocks
  {
    hide PassThunkAll, LazyBody;
  }

  lemma NamesHere(f: Function, b: BlockRef)
    requires WellFormed(f) && b in f.blocks
    ensures b.Orig? && forall k | 0 <= k < |f.blocks[b].body| :: f.blocks[b].body[k].id == BodyId(b.b, k)
  {
    assert GoodBlock(f, b.b);
  }

  lemma InitInstrId(a: Site)
    ensures InitInstr(a).id == DummyId(a.crit, 0)
  {
  }

  lemma NotTheCall(body: seq<Instr>, a: Site)
    ensures (forall i | i in body :: i.id != a.call) ==> PassThunkAll(body, a) == body
    ensures a.call.BodyId? && InitPos(a) <= |body| && (forall i | i in body :: i.id != a.call) ==>
      PassThunkAll(body[..InitPos(a)] + [InitInstr(a)] + body[InitPos(a)..], a) == body[..InitPos(a)] + [InitInstr(a)] + body[InitPos(a)..]
  {
  }

  lemma InsertedThenPassed(body: seq<Instr>, a: Site)
    ensures LazyBody(body, a, false) == PassThunkAll(body, a)
    ensures a.call.BodyId? && InitPos(a) <= |body| ==>
      LazyBody(body, a, true) == PassThunkAll(body[..InitPos(a)] + [InitInstr(a)] + body[InitPos(a)..], a)
  {
  }

  class Rewriter {
    var blocks: map<BlockRef, Block>
    var useCalls: map<Use, Id>

    constructor (f: Function)
      ensures blocks == f.blocks && useCalls == map[]
    {
      blocks, useCalls := f.blocks, map[];
    }

    /** The instruction named `user`, or the end. */
    method Find(body: seq<Instr>, user: Id) returns (j: nat)
      ensures j <= |body| && (forall i | 0 <= i < j :: body[i].id != user) && (j < |body| ==> body[j].id == user)
    {
      j := 0;
      while j < |body| && body[j].id != user
        invariant j <= |body| && forall i | 0 <= i < j :: body[i].id != user
      {
        j := j + 1;
      }
    }

    /** Insertion in front of an instruction. */
    method InsertBefore(user: Id, call: Instr)
      requires Parent(user) in blocks
      modifies this`blocks
      ensures var b := Parent(user);
        blocks == old(blocks)[b := old(blocks)[b].(body := InsertedBefore(old(blocks)[b].body, user, call))]
    {
      var blk := blocks[Parent(user)];
      var j := Find(blk.body, user);
      InsertedWhere(blk.body, user, call, j);
      if j < |blk.body| {
        blocks := blocks[Parent(user) := blk.(body := blk.body[..j] + [call] + blk.body[j..])];
      } else {
        blocks := blocks[Parent(user) := blk];
      }
    }

    /** Insertion in front of a terminator. */
    method InsertAtEnd(b: BlockRef, call: Instr)
      requires b in blocks
      modifies this`blocks
      ensures blocks == old(blocks)[b := old(blocks)[b].(body := old(blocks)[b].body + [call])]
    {
      blocks := blocks[b := blocks[b].(body := blocks[b].body + [call])];
    }

    method SetUse(u: Use, v: Value)
      requires Parent(u.0) in blocks
      modifies this`blocks
      ensures blocks == old(blocks)[Parent(u.0) := UseSet(old(blocks)[Parent(u.0)], u, v)]
    {
      var blk := blocks[Parent(u.0)];
      match u.0 {
        case PhiId(_, k) =>
          if k < |blk.phis| && u.1 < |blk.phis[k].incoming| {
            var inc := blk.phis[k].incoming;
            blk := blk.(phis := blk.phis[k := blk.phis[k].(incoming := inc[u.1 := (inc[u.1].0, v)])]);
          }
        case TermId(_) =>
          if blk.term.Some? {
            blk := blk.(term := Some(SetValue(blk.term.value, v)));
          }
        case _ =>
          var j := Find(blk.body, u.0);
          OperandSetWhere(blk.body, u.0, u.1, v, j);
          if j < |blk.body| && u.1 < |blk.body[j].args| {
            blk := blk.(body := blk.body[j := blk.body[j].(args := blk.body[j].args[u.1 := v])]);
          }
      }
      blocks := blocks[Parent(u.0) := blk];
    }

    /** The initialisation goes in front of the criterion, or behind the phis if it is one. */
    method InsertInit(a: Site)
      requires Parent(a.crit) in blocks && InitPos(a) <= |blocks[Parent(a.crit)].body|
      modifies this`blocks
      ensures var b, n := Parent(a.crit), InitPos(a);
        blocks == old(blocks)[b := old(blocks)[b].(body := old(blocks)[b].body[..n] + [InitInstr(a)] + old(blocks)[b].body[n..])]
    {
      var blk := blocks[Parent(a.crit)];
      blocks := blocks[Parent(a.crit) := blk.(body := blk.body[..InitPos(a)] + [InitInstr(a)] + blk.body[InitPos(a)..])];
    }

    /** The call is directed to the clone, with the thunk as its argument. */
    method SetCall(a: Site)
      requires Parent(a.call) in blocks
      requires forall i, j | 0 <= i < j < |blocks[Parent(a.call)].body| :: blocks[Parent(a.call)].body[i].id != blocks[Parent(a.call)].body[j].id
      modifies this`blocks
      ensures var b := Parent(a.call); blocks == old(blocks)[b := old(blocks)[b].(body := PassThunkAll(old(blocks)[b].body, a))]
    {
      var blk := blocks[Parent(a.call)];
      var j := Find(blk.body, a.call);
      var body := if j < |blk.body| then blk.body[j := PassThunk(blk.body[j], a)] else blk.body;
      assert body == PassThunkAll(blk.body, a);
      blocks := blocks[Parent(a.call) := blk.(body := body)];
    }

    method PassTheThunk(ghost f: Function, a: Site)
      requires WellFormed(f) && blocks == f.blocks && HasInst(f, a.crit) && !a.crit.TermId? && HasInst(f, a.call) && a.call.BodyId?
      modifies this`blocks
      ensures blocks == WithThunk(f, a).blocks
    {
      hide WellFormed, PassThunkAll, LazyBody;
      CritKinds(f, a);
      InsertInit(a);
      InitThenCall(f, a, blocks);
      SetCall(a);
      hide InitInstr;
      assert blocks.Keys == f.blocks.Keys;
    }

    /** Places the call for one use. */
    method PlaceCall(ghost g: Function, ghost target: Value, u: Use, ghost calls0: map<Id, seq<nat>>,
                     ghost tails0: map<BlockRef, seq<Use>>,
                     ghost placed: set<Use>)
      returns (ghost calls: map<Id, seq<nat>>, ghost tails: map<BlockRef, seq<Use>>)
      requires Named(g) && IsUse(g, target, u)
      requires Recorded(g, placed, calls0, tails0) && Rewritten(g, calls0, tails0, {}, blocks)
      modifies this`blocks
      ensures Recorded(g, placed + {u}, calls, tails) && Rewritten(g, calls, tails, {}, blocks)
    {
      hide IsUse, Recorded, Named, NamedBlock, SetBody, InsertedBefore, TailForces, SetTerm;
      calls, tails := calls0, tails0;
      UserInside(g, target, u);
      ghost var before := blocks;
      if u.0.PhiId? {
        EndBlockExists(g, target, u);
        BlockIsRewritten(g, calls, tails, {}, blocks, Parent(u.0));
        var origin := blocks[Parent(u.0)].phis[u.0.k].incoming[u.1].0;
        PlaceAtEnd(g, calls, tails, blocks, u, origin);
        RecordedEnd(g, placed, calls, tails, u, origin);
        InsertAtEnd(origin, CallFor(u));
        tails := tails[origin := tails[origin] + [u]];
      } else if u.0.TermId? {
        var origin := Parent(u.0);
        PlaceAtEnd(g, calls, tails, blocks, u, origin);
        RecordedEnd(g, placed, calls, tails, u, origin);
        InsertAtEnd(origin, CallFor(u));
        tails := tails[origin := tails[origin] + [u]];
      } else {
        PlaceBefore(g, target, calls, tails, blocks, u);
        RecordedBody(g, placed, calls, tails, u);
        InsertBefore(u.0, CallFor(u));
        calls := calls[u.0 := CallsOf(calls, u.0) + [u.1]];
      }
    }

    /** Every use of a value becomes the result of a thunk call of its own. */
    method UpdateThunkArgUses(ghost g: Function, ghost target: Value, uses: set<Use>)
      returns (ghost calls: map<Id, seq<nat>>, ghost tails: map<BlockRef, seq<Use>>)
      requires Named(g) && AllUses(g, target, uses) && blocks == g.blocks
      modifies this
      ensures IsForced(g, target, calls, tails, g.(blocks := blocks))
      ensures useCalls == map u | u in uses :: ForceId(u.0, u.1)
    {
      hide IsUse, Recorded, Rewritten, Named, IsForced;
      tails := StartsRewritten(g);
      calls := map[];
      useCalls := map[];
      var left := uses;
      assert uses - left == {};
      while left != {}
        invariant left <= uses && useCalls == map u | u in uses - left :: ForceId(u.0, u.1)
        invariant Recorded(g, uses - left, calls, tails) && Rewritten(g, calls, tails, {}, blocks)
      {
        var u :| u in left;
        calls, tails := PlaceCall(g, target, u, calls, tails, uses - left);
        assert uses - (left - {u}) == uses - left + {u};
        useCalls := useCalls[u := ForceId(u.0, u.1)];
        left := left - {u};
      }
      assert uses - left == uses;
      left := useCalls.Keys;
      assert uses - left == {};
      while left != {}
        invariant left <= uses && useCalls == map u | u in uses :: ForceId(u.0, u.1)
        invariant Rewritten(g, calls, tails, uses - left, blocks)
      {
        var u :| u in left;
        SetOne(g, target, calls, tails, uses - left, blocks, u);
        SetUse(u, Res(useCalls[u]));
        assert uses - (left - {u}) == uses - left + {u};
        left := left - {u};
      }
      assert uses - left == uses;
      RewrittenIsForced(g, target, uses, calls, tails, blocks);
    }
  }

  // ---- the functions that are rewritten ----

  lemma WellFormedIsNamed(f: Function)
    requires WellFormed(f)
    ensures Named(f)
  {
    forall b | b in f.blocks
      ensures NamedBlock(b, f.blocks[b])
    {
      assert GoodBlock(f, b.b);
    }
    IncomingInside(f);
  }

  /** Names by position stay distinct when an instruction with another name is inserted. */
  lemma InsertedNamed(b: BlockRef, r: seq<Instr>, n: nat, x: Instr)
    requires b.Orig? && n <= |r| && (forall k | 0 <= k < |r| :: r[k].id == BodyId(b.b, k)) && x.id.DummyId? && Parent(x.id) == b
    ensures var body := r[..n] + [x] + r[n..];
      && (forall i | i in body :: Parent(i.id) == b && !i.id.ForceId? && !i.id.TermId? && !i.id.PhiId?)
      && forall j, k | 0 <= j < k < |body| :: body[j].id != body[k].id
  {
    var body := r[..n] + [x] + r[n..];
    assert forall k | 0 <= k < |body| :: body[k] == if k < n then r[k] else if k == n then x else r[k - 1];
  }

  lemma PassedNames(b: BlockRef, body: seq<Instr>, a: Site)
    requires b.Orig? && forall k | 0 <= k < |body| :: body[k].id == BodyId(b.b, k)
    ensures forall k | 0 <= k < |body| :: PassThunkAll(body, a)[k].id == BodyId(b.b, k)
  {
  }

  /** Inserting the initialisation and passing the thunk leaves the names distinct. */
  lemma LazyBlockNamed(f: Function, a: Site, b: BlockRef)
    requires WellFormed(f) && b in f.blocks && (a.crit.BodyId? || a.crit.PhiId?)
    ensures NamedBlock(b, WithThunk(f, a).blocks[b])
  {
    WellFormedIsNamed(f);
    NamesHere(f, b);
    LazyBlocks(f, a, b);
    hide WellFormed, WithThunk, PassThunkAll, InitInstr;
    var r := PassThunkAll(f.blocks[b].body, a);
    PassedNames(b, f.blocks[b].body, a);
    InitInstrId(a);
    if b == Parent(a.crit) && InitPos(a) <= |r| {
      InsertedNamed(b, r, InitPos(a), InitInstr(a));
    }
  }

  lemma LazyIsNamed(f: Function, a: Site)
    requires WellFormed(f) && (a.crit.BodyId? || a.crit.PhiId?)
    ensures Named(WithThunk(f, a))
  {
    WellFormedIsNamed(f);
    hide WellFormed, NamedBlock, LazyBody;
    forall b | b in WithThunk(f, a).blocks
      ensures NamedBlock(b, WithThunk(f, a).blocks[b])
    {
      LazyBlockNamed(f, a, b);
    }
  }

  /** A clone is made for a callee, the argument that becomes a thunk, and the layout of the thunk. */
  datatype Key = Key(callee: nat, index: nat, layout: nat)

  ghost predicate ForcedClone(g: Function, target: Value, c: Function) {
    exists calls, tails :: IsForced(g, target, calls, tails, c)
  }

  /** Copies a function, with parameter `index` a thunk. */
  method CloneCalleeFunction(callee: Function, index: nat) returns (clone: Function)
    requires WellFormed(callee)
    ensures ForcedClone(callee, Arg(index), clone)
    ensures clone.nargs == callee.nargs && clone.order == callee.order && clone.blocks.Keys == callee.blocks.Keys
  {
    WellFormedIsNamed(callee);
    UsesAreAll(callee, Arg(index));
    var rw := new Rewriter(callee);
    ghost var calls, tails := rw.UpdateThunkArgUses(callee, Arg(index), UsesOf(callee, Arg(index)));
    clone := callee.(blocks := rw.blocks);
  }

  /** Some order of a set the original keeps ordered by address. */
  method InSomeOrder<T(!new, ==)>(s: set<T>) returns (r: seq<T>)
    ensures Enumerates(r, s)
  {
    r := [];
    var left := s;
    NoneDistinct<T>();
    hide Distinct;
    while left != {}
      invariant left <= s && Distinct(r) && forall t :: t in r <==> t in s - left
    {
      var t :| t in left;
      OneMore(r, t);
      r, left := r + [t], left - {t};
    }
  }

  /** The parameters in the slice. */
  function DepArgs(deps: set<Value>): set<nat> {
    set v | v in deps && v.Arg? :: v.a
  }

  lemma ArgsAre(deps: set<Value>, args: seq<nat>)
    requires Enumerates(args, DepArgs(deps))
    ensures Distinct(args) && forall x: nat :: x in args <==> Arg(x) in deps
  {
    assert forall x: nat :: Arg(x) in deps ==> Arg(x).a in DepArgs(deps);
  }

  /** What the pass knows of a caller: its trees, its return block and its edges. */
  datatype Analyses = Analyses(exit: BlockRef, dt: Tree, pdt: Tree, children: map<BlockRef, seq<BlockRef>>, preds: map<BlockRef, seq<Edge>>)

  ghost predicate GoodAnalyses(f: Function, an: Analyses) {
    && WellFormed(f) && Flowing(f, an.exit) && ValidPreds(f, an.preds)
    && ValidTree(GraphOf(f), an.dt) && ValidTree(Flip(GraphOf(f)), an.pdt) && ValidChildren(an.dt, f.blocks.Keys, an.children)
    && an.dt.root == f.order[0] && an.pdt.root == an.exit
  }

  /** What comes of a caller that is lazified at `a`: its slice, the delegate outlined from it, the function `e`
      that is emitted for the thunk, and the caller rewritten. */
  ghost predicate Lazified(f: Function, an: Analyses, a: Site, memo: bool, s: Slice, d: Function, e: Function, c: Function)
  {
    && s.crit == a.crit && IsSlice(f, an.exit, an.preds, s) && Enumerates(a.envArgs, DepArgs(s.deps))
    && Shaped(f) && s.blocks <= f.blocks.Keys && IsDelegate(f, s, a.envArgs, EnvBase(memo), d)
    && |d.order| > 0 && CloneOf(s.Home()) in d.blocks && e == Emitted(memo, d, CloneOf(s.Home()), Res(s.crit))
    && exists calls, tails :: Forced(f, a, calls, tails, c)
  }

  lemma LazifiedFrom(f: Function, an: Analyses, a: Site, memo: bool, s: Slice, d: Function, e: Function, c: Function)
    requires GoodAnalyses(f, an) && s.crit == a.crit && IsSlice(f, an.exit, an.preds, s) && Enumerates(a.envArgs, DepArgs(s.deps))
    requires Shaped(f) && s.blocks <= f.blocks.Keys && IsDelegate(f, s, a.envArgs, if memo then 3 else 1, d)
    requires |d.order| > 0 && CloneOf(s.Home()) in d.blocks && e == Emitted(memo, d, CloneOf(s.Home()), Res(s.crit))
    requires exists calls, tails :: Forced(f, a, calls, tails, c)
    ensures Lazified(f, an, a, memo, s, d, e, c)
  {
    hide IsDelegate, IsSlice, Forced, GoodAnalyses, Enumerates, Emitted;
  }

  lemma SliceInside(f: Function, an: Analyses, s: Slice)
    requires IsSlice(f, an.exit, an.preds, s) && WellFormed(f)
    ensures Shaped(f) && s.blocks <= f.blocks.Keys && s.Home() in s.blocks
  {
    SliceReroutable(f, an.exit, an.preds, s);
  }

  lemma ArgIsInst(f: Function, call: Id, index: nat)
    requires WellFormed(f) && HasInst(f, call) && index < |Operands(f, call)| && Operands(f, call)[index].Res?
    ensures HasInst(f, Operands(f, call)[index].id) && !Operands(f, call)[index].id.TermId?
  {
    assert GoodValue(f, Operands(f, call)[index]);
  }

  class Pass {
    const memo: bool
    /** The functions with a definition, by the operation that calls them. */
    var functions: map<nat, Function>
    /** The functions made for thunks, in the order they were made. */
    var delegates: seq<Function>
    var clonedCallees: map<Key, Function>
    /** The body each clone was made from. */
    ghost var origin: map<Key, Function>

    ghost predicate Valid()
      reads this
    {
      clonedCallees.Keys == origin.Keys &&
      forall k | k in clonedCallees :: ForcedClone(origin[k], Arg(k.index), clonedCallees[k])
    }

    constructor (memo: bool, functions: map<nat, Function>)
      ensures Valid() && this.functions == functions && this.memo == memo && clonedCallees == map[] && delegates == []
    {
      this.memo, this.functions, delegates := memo, functions, [];
      clonedCallees, origin := map[], map[];
    }

    /** The clone for a key: one is made the first time, and kept. */
    method CloneFor(key: Key) returns (clone: Function)
      requires Valid() && key.callee in functions && WellFormed(functions[key.callee])
      modifies this`clonedCallees, this`origin
      ensures Valid() && key in clonedCallees && clone == clonedCallees[key]
      ensures clonedCallees == old(clonedCallees)[key := clone] && origin == old(origin)[key := origin[key]]
      ensures key in old(clonedCallees) ==> clone == old(clonedCallees[key]) && origin[key] == old(origin[key])
      ensures key !in old(clonedCallees) ==> origin[key] == functions[key.callee]
    {
      hide ForcedClone, WellFormed;
      if key in clonedCallees {
        clone := clonedCallees[key];
      } else {
        clone := CloneCalleeFunction(functions[key.callee], key.index);
        clonedCallees := clonedCallees[key := clone];
        origin := origin[key := functions[key.callee]];
      }
    }

    /** Passes a thunk for argument `index` of `call`, and makes the other uses of the value calls of the thunk. */
    method RewriteCaller(f: Function, a: Site) returns (c: Function)
      requires WellFormed(f) && GoodSite(f, a)
      ensures exists calls, tails :: Forced(f, a, calls, tails, c)
      ensures c.nargs == f.nargs && c.order == f.order && c.blocks.Keys == f.blocks.Keys
    {
      hide WellFormed, Named, AllUses, IsForced, Operands, UsesOf, LazyBody;
      CritKinds(f, a);
      LazyIsNamed(f, a);
      var rw := new Rewriter(f);
      rw.PassTheThunk(f, a);
      var g := f.(blocks := rw.blocks);
      assert g == WithThunk(f, a);
      UsesAreAll(g, Res(a.crit));
      ghost var calls, tails := rw.UpdateThunkArgUses(g, Res(a.crit), UsesOf(g, Res(a.crit)));
      c := f.(blocks := rw.blocks);
      assert Forced(f, a, calls, tails, c);
      ForcedShape(f, a, calls, tails, c);
    }

    /** Puts the memoization code around a delegate, if thunks keep their value. */
    method Emit(f: Function, s: Slice, args: seq<nat>, d: Function) returns (e: Function)
      requires Shaped(f) && s.blocks <= f.blocks.Keys && s.Home() in s.blocks && IsDelegate(f, s, args, EnvBase(memo), d)
      ensures |d.order| > 0 && CloneOf(s.Home()) in d.blocks && e == Emitted(memo, d, CloneOf(s.Home()), Res(s.crit))
      ensures e.nargs == 0 && (!memo ==> e == d) && (memo ==> e.order == [MemoEntry, MemoRet] + d.order)
    {
      HomeReturns(f, s, args, EnvBase(memo), d);
      hide Shaped, IsDelegate, Memoized;
      e := d;
      if memo {
        var m := new Memoizer(d);
        m.AddMemoizationCode(d, CloneOf(s.Home()));
        e := Function(d.nargs, m.order, m.blocks);
      }
    }

    /** Slices `f` from the instruction `crit`, outlines the slice, and makes of the delegate what is emitted. */
    method OutlineSlice(f: Function, an: Analyses, crit: Id)
      returns (found: bool, s: Slice, args: seq<nat>, d: Function, e: Function)
      requires GoodAnalyses(f, an) && HasInst(f, crit) && !crit.TermId?
      ensures s.crit == crit && IsSlice(f, an.exit, an.preds, s) && Enumerates(args, DepArgs(s.deps))
      ensures Distinct(args) && forall x: nat :: x in args <==> Arg(x) in s.deps
      ensures found ==> Shaped(f) && s.blocks <= f.blocks.Keys && IsDelegate(f, s, args, EnvBase(memo), d)
      ensures found ==> |d.order| > 0 && CloneOf(s.Home()) in d.blocks && e == Emitted(memo, d, CloneOf(s.Home()), Res(s.crit))
      ensures Shaped(f) && s.blocks <= f.blocks.Keys
      ensures DefsDominateUses(f) && !OnCycle(GraphOf(f), s.Home()) && OneOutcome(f, an.exit, s) && SwitchesCovered(f, s) ==>
        (found <==> EntersOnce(f, s))
    {
      hide WellFormed, Flowing, ValidPreds, ValidTree, ValidChildren, IsSlice, IsDelegate, Enumerates, IsBuilt, SomeEntry,
           OneOutcome, SwitchesCovered, OnCycle, EntersOnce, DefsDominateUses, Emitted, HasInst, GraphOf;
      s := MakeSlice(f, an.exit, an.dt, an.pdt, an.preds, crit);
      var bbs := InSomeOrder(s.blocks);
      args := InSomeOrder(DepArgs(s.deps));
      ArgsAre(s.deps, args);
      SliceInside(f, an, s);
      var out := new Delegate();
      found := out.Outline(f, an.exit, an.preds, s, an.dt, an.children, bbs, args, memo);
      d := Function(0, out.order, out.blocks);
      e := d;
      if found {
        e := Emit(f, s, args, d);
      }
    }

    /** Tries to lazify argument `index` of the call `call`.  `layout` is the type of the thunk, and
        `outlinable` what the purity and alias analyses decide.  It goes on to outline exactly if the argument is an
        instruction the analyses let it slice, and the callee is defined and uses its parameter.  Where the delegate
        has no entry nothing is changed; the original stops there. */
    method LazifyCallsite(caller: nat, call: Id, index: nat, layout: nat, outlinable: bool, an: Analyses)
      returns (changed: bool, ghost a: Site, ghost s: Slice, ghost d: Function, ghost e: Function)
      requires Valid() && caller in functions && GoodAnalyses(functions[caller], an)
      requires HasInst(functions[caller], call) && call.BodyId? && index < |Operands(functions[caller], call)|
      requires functions[caller].blocks[Parent(call)].body[call.k].op.Fn?
      requires var callee := functions[caller].blocks[Parent(call)].body[call.k].op.f; callee in functions ==> WellFormed(functions[callee])
      modifies this
      ensures Valid()
      ensures !changed ==> functions == old(functions) && clonedCallees == old(clonedCallees) && delegates == old(delegates)
      ensures changed ==>
        && var callee := old(functions)[caller].blocks[Parent(call)].body[call.k].op.f;
        && Operands(old(functions)[caller], call)[index].Res? && outlinable
        && callee in old(functions) && UsesOf(old(functions)[callee], Arg(index)) != {}
      ensures changed ==> delegates == old(delegates) + [e]
      ensures var f, callee := old(functions)[caller], old(functions)[caller].blocks[Parent(call)].body[call.k].op.f;
        Operands(f, call)[index].Res? && outlinable && callee in old(functions) && UsesOf(old(functions)[callee], Arg(index)) != {} ==>
        && s.crit == Operands(f, call)[index].id && IsSlice(f, an.exit, an.preds, s)
        && (DefsDominateUses(f) && !OnCycle(GraphOf(f), s.Home()) && OneOutcome(f, an.exit, s) && SwitchesCovered(f, s) ==>
              (changed <==> EntersOnce(f, s)))
      ensures changed ==>
        && var f, callee := old(functions)[caller], old(functions)[caller].blocks[Parent(call)].body[call.k].op.f;
        && GoodSite(f, a) && a.call == call && a.index == index
        && functions.Keys == old(functions).Keys && (forall k | k in functions && k != caller :: functions[k] == old(functions)[k])
        && Lazified(f, an, a, memo, s, d, e, functions[caller])
        && Key(callee, index, layout) in clonedCallees && Key(callee, index, layout) in origin
        && ForcedClone(origin[Key(callee, index, layout)], Arg(index), clonedCallees[Key(callee, index, layout)])
        && clonedCallees == old(clonedCallees)[Key(callee, index, layout) := clonedCallees[Key(callee, index, layout)]]
        && (Key(callee, index, layout) !in old(clonedCallees) ==> origin[Key(callee, index, layout)] == old(functions)[callee])
      ensures changed ==> caller in functions && functions[caller].nargs == old(functions)[caller].nargs
      ensures changed ==> Distinct(a.envArgs) && forall x: nat :: x in a.envArgs <==> Arg(x) in s.deps
    {
      hide WellFormed, Flowing, ValidPreds, ValidTree, ValidChildren, IsSlice, IsDelegate, Enumerates,
           ForcedClone, Forced, UsesOf, Lazified, IsBuilt, SomeEntry, OneOutcome, SwitchesCovered, OnCycle, EntersOnce,
           DefsDominateUses, Emitted;
      var f := functions[caller];
      changed := false;
      var arg := Operands(f, call)[index];
      var callee := f.blocks[Parent(call)].body[call.k].op.f;
      a, s, d, e := Site(call, call, index, []), Slice(call, map[], {}, {}, map[]), f, f;
      if !arg.Res? || !outlinable || callee !in functions || UsesOf(functions[callee], Arg(index)) == {} {
        return;
      }
      ArgIsInst(f, call, index);
      var found, slice, args, delegate, emitted := OutlineSlice(f, an, arg.id);
      s := slice;
      if !found {
        return;
      }
      var c := RewriteCaller(f, Site(arg.id, call, index, args));
      var clone := CloneFor(Key(callee, index, layout));
      a, d, e := Site(arg.id, call, index, args), delegate, emitted;
      LazifiedFrom(f, an, a, memo, s, d, e, c);
      functions, delegates := functions[caller := c], delegates + [emitted];
      changed := true;
    }
  }
}
