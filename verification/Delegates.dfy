/** What the delegate function holds, block by block. */
module Delegates {
  import opened Graphs
  import opened Ir
  import opened Slices
  import opened Arrivals

  function CloneOf(r: BlockRef): BlockRef {
    if r.Orig? then Clone(r.b) else r
  }

  // ---- what the delegate holds, block by block ----

  /** The phis, or the other instructions, of a block that belong to the slice, in order. */
  function KeepPhis(phis: seq<Phi>, deps: set<Value>): seq<Phi> {
    if phis == [] then [] else
      var n := |phis| - 1;
      KeepPhis(phis[..n], deps) + if Res(phis[n].id) in deps then [phis[n]] else []
  }

  function KeepBody(body: seq<Instr>, deps: set<Value>): seq<Instr> {
    if body == [] then [] else
      var n := |body| - 1;
      KeepBody(body[..n], deps) + if Res(body[n].id) in deps then [body[n]] else []
  }

  /** Incoming blocks that have a clone are replaced by it. */
  function CloneIncoming(inc: seq<(BlockRef, Value)>, bbs: set<BlockRef>): (r: seq<(BlockRef, Value)>)
    ensures |r| == |inc|
  {
    seq(|inc|, i requires 0 <= i < |inc| => (if inc[i].0 in bbs then CloneOf(inc[i].0) else inc[i].0, inc[i].1))
  }

  function ClonePhi(p: Phi, bbs: set<BlockRef>): Phi {
    Phi(p.id, CloneIncoming(p.incoming, bbs))
  }

  function ClonePhis(phis: seq<Phi>, bbs: set<BlockRef>): (r: seq<Phi>)
    ensures |r| == |phis|
  {
    seq(|phis|, i requires 0 <= i < |phis| => ClonePhi(phis[i], bbs))
  }

  function ClonedTerm(f: Function, s: Slice, b: BlockRef): Option<Term>
    requires b in f.blocks
  {
    if s.Ends(b) then f.blocks[b].term else None
  }

  /** The clone of `b` before any rerouting. */
  function ClonedBlock(f: Function, s: Slice, b: BlockRef): Block
    requires b in f.blocks
  {
    Block(ClonePhis(KeepPhis(f.blocks[b].phis, s.deps), s.blocks),
          KeepBody(f.blocks[b].body, s.deps),
          ClonedTerm(f, s, b))
  }

  /** Where a sliced terminator leads instead of `b`. */
  function TargetOf(m: map<BlockRef, BlockRef>, b: BlockRef): BlockRef {
    if b in m then CloneOf(m[b]) else Dead
  }

  function TargetsOf(m: map<BlockRef, BlockRef>, bs: seq<BlockRef>): (r: seq<BlockRef>)
    ensures |r| == |bs|
  {
    seq(|bs|, i requires 0 <= i < |bs| => TargetOf(m, bs[i]))
  }

  /** The branch the fallback makes: to the attractor of the first successor that has one. */
  function Fallback(m: map<BlockRef, BlockRef>, bs: seq<BlockRef>): Option<Term> {
    if bs == [] then None
    else if bs[0] in m then Some(Br(CloneOf(m[bs[0]])))
    else Fallback(m, bs[1..])
  }

  ghost predicate DomBranchOf(g: Graph, entry: BlockRef, bbs: set<BlockRef>, b: BlockRef, done: set<BlockRef>, c: BlockRef) {
    c in done && c in bbs && NearestSliceDom(g, entry, bbs, b, c)
  }

  /** What visiting the blocks `done` of the dominator tree makes of the terminator `t` of `b`. */
  ghost predicate DomTerm(g: Graph, entry: BlockRef, bbs: set<BlockRef>, b: BlockRef, done: set<BlockRef>,
                          t: Option<Term>, t': Option<Term>)
  {
    if t.Some? then t' == t
    else if exists c :: DomBranchOf(g, entry, bbs, b, done, c)
    then exists c :: DomBranchOf(g, entry, bbs, b, done, c) && t' == Some(Br(CloneOf(c)))
    else t' == None
  }

  /** The terminator `rerouteBranches` leaves in the clone of `b`. */
  ghost predicate Rerouted(f: Function, s: Slice, b: BlockRef, t: Option<Term>)
    requires b in f.blocks && f.blocks[b].term.Some? && |f.order| > 0
  {
    var orig := f.blocks[b].term.value;
    if s.Ends(b) then t == Some(orig.WithSuccs(TargetsOf(s.attractors, orig.Succs())))
    else if exists c :: DomBranchOf(GraphOf(f), f.order[0], s.blocks, b, f.blocks.Keys, c)
    then exists c :: DomBranchOf(GraphOf(f), f.order[0], s.blocks, b, f.blocks.Keys, c) && t == Some(Br(CloneOf(c)))
    else t == Fallback(s.attractors, orig.BranchTargets())
  }

  // ---- the finished function ----

  predicate Enumerates<T(!new, ==)>(ts: seq<T>, s: set<T>) {
    Distinct(ts) && (forall t | t in ts :: t in s) && (forall t | t in s :: t in ts)
  }

  function IndexIn(args: seq<nat>, a: nat): (i: nat)
    requires a in args
    ensures i < |args| && args[i] == a
  {
    if args[0] == a then 0 else 1 + IndexIn(args[1..], a)
  }

  /** A parameter of the sliced function becomes a load from the environment of the thunk. */
  function LoadValue(v: Value, args: seq<nat>, base: nat): Value {
    if v.Arg? && v.a in args then Field(base + IndexIn(args, v.a)) else v
  }

  function LoadValues(vs: seq<Value>, args: seq<nat>, base: nat): (r: seq<Value>)
    ensures |r| == |vs|
  {
    seq(|vs|, i requires 0 <= i < |vs| => LoadValue(vs[i], args, base))
  }

  function LoadPhi(p: Phi, args: seq<nat>, base: nat): Phi {
    Phi(p.id, seq(|p.incoming|, i requires 0 <= i < |p.incoming| =>
                (p.incoming[i].0, LoadValue(p.incoming[i].1, args, base))))
  }

  function LoadPhis(ps: seq<Phi>, args: seq<nat>, base: nat): (r: seq<Phi>)
    ensures |r| == |ps|
  {
    seq(|ps|, i requires 0 <= i < |ps| => LoadPhi(ps[i], args, base))
  }

  function LoadInstr(i: Instr, args: seq<nat>, base: nat): Instr {
    Instr(i.id, i.op, LoadValues(i.args, args, base))
  }

  function LoadBody(body: seq<Instr>, args: seq<nat>, base: nat): (r: seq<Instr>)
    ensures |r| == |body|
  {
    seq(|body|, i requires 0 <= i < |body| => LoadInstr(body[i], args, base))
  }

  function LoadTerm(t: Term, args: seq<nat>, base: nat): (r: Term)
    ensures r.Succs() == t.Succs()
  {
    match t
    case CondBr(c, x, y) => CondBr(LoadValue(c, args, base), x, y)
    case Switch(c, ls, ts) => Switch(LoadValue(c, args, base), ls, ts)
    case Ret(v) => Ret(LoadValue(v, args, base))
    case _ => t
  }

  function LoadBlock(b: Block, args: seq<nat>, base: nat): Block {
    Block(LoadPhis(b.phis, args, base), LoadBody(b.body, args, base),
          if b.term.Some? then Some(LoadTerm(b.term.value, args, base)) else None)
  }

  ghost predicate NoPredecessors(bs: map<BlockRef, Block>, b: BlockRef) {
    forall r | r in bs :: b !in bs[r].Succs()
  }

  /** The terminator of the clone of `b` in the finished delegate, before parameters are loaded. */
  ghost predicate FinalTerm(f: Function, s: Slice, b: BlockRef, t: Option<Term>)
    requires b in f.blocks && f.blocks[b].term.Some? && |f.order| > 0
  {
    if b == s.Home() then t == Some(Ret(Res(s.crit))) else Rerouted(f, s, b, t)
  }

  ghost predicate CloneIs(f: Function, s: Slice, args: seq<nat>, base: nat, b: BlockRef, d: Block)
    requires b in f.blocks && f.blocks[b].term.Some? && |f.order| > 0
  {
    exists t :: FinalTerm(f, s, b, t) && d == LoadBlock(ClonedBlock(f, s, b).(term := t), args, base)
  }

  /** What the outliner builds of a slice, whether or not the delegate then has an entry: the clones of the
      slice blocks, with the dead block if some branch was sent there. */
  ghost predicate IsBuilt(f: Function, s: Slice, args: seq<nat>, base: nat, bs: map<BlockRef, Block>)
    requires Shaped(f) && s.blocks <= f.blocks.Keys
  {
    && bs.Keys == (set b | b in s.blocks :: CloneOf(b)) + (if Dead in bs then {Dead} else {})
    && (forall b | b in s.blocks :: CloneIs(f, s, args, base, b, bs[CloneOf(b)]))
    && (Dead in bs <==> SomeDeadTarget(f, s))
    && (Dead in bs ==> bs[Dead] == Block([], [], Some(Unreachable)))
  }

  ghost predicate SomeEntry(bs: map<BlockRef, Block>) {
    exists r :: r in bs && NoPredecessors(bs, r)
  }

  /** `d` is the delegate function of the slice: the blocks built, with one that has no predecessor as its entry. */
  ghost predicate IsDelegate(f: Function, s: Slice, args: seq<nat>, base: nat, d: Function)
    requires Shaped(f) && s.blocks <= f.blocks.Keys
  {
    && d.nargs == 0 && |d.order| > 0 && (forall r :: r in d.order <==> r in d.blocks)
    && IsBuilt(f, s, args, base, d.blocks) && NoPredecessors(d.blocks, d.order[0])
  }

  /** Some terminator is rerouted to the dead block. */
  ghost predicate SomeDeadTarget(f: Function, s: Slice)
    requires Shaped(f) && s.blocks <= f.blocks.Keys
  {
    exists b, t :: b in s.blocks && Rerouted(f, s, b, Some(t)) && Dead in t.Succs()
  }
}
