/** The fragment of SSA form the passes read and write. */
module Ir {
  import opened Graphs

  datatype Option<+T> = None | Some(value: T)

  /** The names of instructions.  A clone keeps the name of its original: names are local to a
      function.  `ForceId` names a thunk call made for operand `k` of `user`, `DummyId` the dummy
      use standing for that operand. */
  datatype Id =
    | PhiId(b: nat, k: nat)
    | BodyId(b: nat, k: nat)
    | TermId(b: nat)
    | ForceId(user: Id, k: nat)
    | DummyId(user: Id, k: nat)

  /** `Field(k)` is a load of slot `k` of the thunk a delegate function receives. */
  datatype Value = Const(c: int) | Arg(a: nat) | Res(id: Id) | Field(k: nat)

  /** `Fn` stands for any operation, calls included; `LazyCall` is a call whose argument `index` is now
      a thunk; the others are what the passes insert. */
  datatype Op = Fn(f: nat) | LazyCall(f: nat, index: nat) | Force | InitThunk | MemoStore | DummyUse

  datatype Phi = Phi(id: Id, incoming: seq<(BlockRef, Value)>)

  datatype Instr = Instr(id: Id, op: Op, args: seq<Value>)

  /** The first target of a switch is its default. */
  datatype Term =
    | Br(target: BlockRef)
    | CondBr(cond: Value, ifTrue: BlockRef, ifFalse: BlockRef)
    | Switch(cond: Value, labels: seq<int>, targets: seq<BlockRef>)
    | Ret(value: Value)
    | Unreachable
  {
    function Succs(): seq<BlockRef> {
      match this
      case Br(t) => [t]
      case CondBr(_, t, f) => [t, f]
      case Switch(_, _, ts) => ts
      case _ => []
    }

    /** The targets of a branch in the order the original's iterator visits them: the false one first. */
    function BranchTargets(): (r: seq<BlockRef>)
      ensures forall b :: b in r <==> !Switch? && b in Succs()
    {
      match this
      case Br(t) => [t]
      case CondBr(_, t, f) => [f, t]
      case _ => []
    }

    /** The same terminator with other targets. */
    function WithSuccs(ss: seq<BlockRef>): (t: Term)
      requires |ss| == |Succs()|
      ensures t.Succs() == ss && t.Values() == Values()
    {
      match this
      case Br(_) => Br(ss[0])
      case CondBr(c, _, _) => CondBr(c, ss[0], ss[1])
      case Switch(c, ls, _) => Switch(c, ls, ss)
      case _ => this
    }

    function Values(): seq<Value> {
      match this
      case CondBr(c, _, _) => [c]
      case Switch(c, _, _) => [c]
      case Ret(v) => [v]
      case _ => []
    }
  }

  /** A block under construction may lack a terminator. */
  datatype Block = Block(phis: seq<Phi>, body: seq<Instr>, term: Option<Term>) {
    function Succs(): seq<BlockRef> {
      if term.Some? then term.value.Succs() else []
    }

    predicate Returns() {
      term.Some? && term.value.Ret?
    }
  }

  /** `order` is the layout; its first block is the entry. */
  datatype Function = Function(nargs: nat, order: seq<BlockRef>, blocks: map<BlockRef, Block>)

  /** The gates of the phis of each block. */
  type GateMap = map<BlockRef, seq<Id>>

  predicate Distinct<T(==)>(s: seq<T>) {
    forall i, j | 0 <= i < j < |s| :: s[i] != s[j]
  }

  lemma NoneDistinct<T>()
    ensures Distinct<T>([])
  {
  }

  lemma OneMore<T>(r: seq<T>, t: T)
    requires Distinct(r) && t !in r
    ensures Distinct(r + [t]) && forall x :: x in r + [t] <==> x in r || x == t
  {
    var q := r + [t];
    assert forall i | 0 <= i < |r| :: q[i] == r[i] && r[i] in r;
  }

  function Parent(id: Id): BlockRef {
    match id
    case PhiId(b, _) => Orig(b)
    case BodyId(b, _) => Orig(b)
    case TermId(b) => Orig(b)
    case ForceId(u, _) => Parent(u)
    case DummyId(u, _) => Parent(u)
  }

  predicate HasInst(f: Function, id: Id) {
    match id
    case PhiId(b, k) => Orig(b) in f.blocks && k < |f.blocks[Orig(b)].phis|
    case BodyId(b, k) => Orig(b) in f.blocks && k < |f.blocks[Orig(b)].body|
    case TermId(b) => Orig(b) in f.blocks
    case _ => false
  }

  function PhiAt(f: Function, id: Id): Phi
    requires HasInst(f, id) && id.PhiId?
  {
    f.blocks[Orig(id.b)].phis[id.k]
  }

  function IncomingValues(s: seq<(BlockRef, Value)>): (r: seq<Value>)
    ensures |r| == |s| && forall i | 0 <= i < |s| :: r[i] == s[i].1
  {
    seq(|s|, i requires 0 <= i < |s| => s[i].1)
  }

  function Operands(f: Function, id: Id): seq<Value>
    requires HasInst(f, id)
  {
    match id
    case PhiId(b, k) => IncomingValues(f.blocks[Orig(b)].phis[k].incoming)
    case BodyId(b, k) => f.blocks[Orig(b)].body[k].args
    case TermId(b) => var t := f.blocks[Orig(b)].term; if t.Some? then t.value.Values() else []
  }

  function GraphOf(f: Function): Graph {
    Graph(f.blocks.Keys, set b, s | b in f.blocks && s in f.blocks[b].Succs() :: (b, s))
  }

  // ---- the shape of a function the passes accept ----

  /** What a value operand may be before any rewriting: a constant, a parameter or the result of
      an instruction that is not a terminator. */
  ghost predicate GoodValue(f: Function, v: Value) {
    match v
    case Const(_) => true
    case Arg(a) => a < f.nargs
    case Res(id) => HasInst(f, id) && !id.TermId?
    case Field(_) => false
  }

  /** Every block of the layout ends in a terminator whose targets are blocks of the layout. */
  ghost predicate Shaped(f: Function) {
    && |f.order| > 0 && Distinct(f.order)
    && (forall b :: b in f.order <==> b in f.blocks)
    && (forall b | b in f.blocks :: b.Orig? && f.blocks[b].term.Some?)
    && (forall b, s | b in f.blocks && s in f.blocks[b].Succs() :: s in f.blocks)
  }

  ghost predicate GoodBlock(f: Function, b: nat)
    requires Orig(b) in f.blocks
  {
    var blk := f.blocks[Orig(b)];
    && (forall k | 0 <= k < |blk.phis| :: blk.phis[k].id == PhiId(b, k))
    && (forall k | 0 <= k < |blk.body| :: blk.body[k].id == BodyId(b, k) && blk.body[k].op.Fn?)
    && (forall k, p | 0 <= k < |blk.phis| ::
          (exists v :: (p, v) in blk.phis[k].incoming) <==> (p, Orig(b)) in GraphOf(f).edges)
  }

  ghost predicate WellFormed(f: Function) {
    && Shaped(f)
    && (forall b: nat | Orig(b) in f.blocks :: GoodBlock(f, b))
    && (forall id, v | HasInst(f, id) && v in Operands(f, id) :: GoodValue(f, v))
  }

  /** Definitions dominate uses. */
  ghost predicate DefsDominateUses(f: Function)
    requires |f.order| > 0
  {
    var g, entry := GraphOf(f), f.order[0];
    && (forall id, p, d | HasInst(f, id) && id.PhiId? && (p, Res(d)) in PhiAt(f, id).incoming ::
          Dominates(g, entry, Parent(d), p))
    && (forall id, d | HasInst(f, id) && !id.PhiId? && Res(d) in Operands(f, id) ::
          Dominates(g, entry, Parent(d), Parent(id)))
    && (forall id, d | HasInst(f, id) && id.BodyId? && Res(d) in Operands(f, id) && Parent(d) == Parent(id) ::
          Before(d, id))
  }

  predicate Before(d: Id, id: Id) {
    d.PhiId? || (d.BodyId? && id.BodyId? && d.k < id.k)
  }

  /** The shape the required passes establish: one return block, every block reachable from the
      entry and able to reach the return. */
  ghost predicate Flowing(f: Function, exit: BlockRef) {
    Shaped(f) && FlowGraph(GraphOf(f), f.order[0], exit)
  }

  lemma EdgeIsSucc(f: Function, a: BlockRef, b: BlockRef)
    ensures (a, b) in GraphOf(f).edges <==> a in f.blocks && b in f.blocks[a].Succs()
  {
  }

  /** The blocks a phi takes values from are blocks of the function. */
  lemma IncomingInside(f: Function)
    requires WellFormed(f)
    ensures forall b, p, e | b in f.blocks && p in f.blocks[b].phis && e in p.incoming :: e.0 in f.blocks
  {
    forall b, p, e | b in f.blocks && p in f.blocks[b].phis && e in p.incoming
      ensures e.0 in f.blocks
    {
      assert GoodBlock(f, b.b);
      var k :| 0 <= k < |f.blocks[b].phis| && f.blocks[b].phis[k] == p;
      assert (e.0, e.1) in f.blocks[b].phis[k].incoming;
      EdgeIsSucc(f, e.0, Orig(b.b));
    }
  }
}
