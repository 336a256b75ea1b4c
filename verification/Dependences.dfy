/** The backward slice: the worklist over operands and phi gates. */
module Dependences {
  import opened Graphs
  import opened Ir

  /** Gates are terminators of the function; this is all the worklist needs to know of them. */
  ghost predicate GoodGates(f: Function, gates: GateMap) {
    && gates.Keys == f.blocks.Keys
    && forall b, v | b in gates && v in gates[b] :: v.TermId? && HasInst(f, v)
  }

  /** A value the worklist follows: a parameter or an instruction. */
  predicate Tracked(v: Value) {
    v.Arg? || v.Res?
  }

  ghost predicate Known(f: Function, v: Value) {
    match v
    case Arg(a) => a < f.nargs
    case Res(id) => HasInst(f, id)
    case _ => false
  }

  predicate OperandOf(f: Function, u: Value, v: Value) {
    u.Res? && HasInst(f, u.id) && Tracked(v) && v in Operands(f, u.id)
  }

  predicate GateFor(f: Function, gates: GateMap, u: Value, v: Value) {
    && u.Res? && u.id.PhiId? && HasInst(f, u.id) && v.Res?
    && Parent(u.id) in gates && v.id in gates[Parent(u.id)]
  }

  /** `u` needs `v`: `v` is an operand of `u`, or gates the phi `u`. */
  predicate Needs(f: Function, gates: GateMap, u: Value, v: Value) {
    OperandOf(f, u, v) || GateFor(f, gates, u, v)
  }

  ghost predicate Closed(f: Function, gates: GateMap, s: set<Value>) {
    forall u, v | u in s && Needs(f, gates, u, v) :: v in s
  }

  ghost predicate Least(f: Function, gates: GateMap, crit: Value, s: set<Value>) {
    && crit in s && Closed(f, gates, s)
    && forall t: set<Value> | crit in t && Closed(f, gates, t) :: s <= t
  }

  /** The blocks a set of values brings in: parents of instructions, incoming blocks of phis. */
  predicate Brings(f: Function, v: Value, b: BlockRef) {
    && v.Res? && HasInst(f, v.id)
    && (b == Parent(v.id) || (v.id.PhiId? && exists i :: 0 <= i < |PhiAt(f, v.id).incoming| && PhiAt(f, v.id).incoming[i].0 == b))
  }

  ghost predicate BlocksOf(f: Function, s: set<Value>, bbs: set<BlockRef>) {
    forall b :: b in bbs <==> exists v :: v in s && Brings(f, v, b)
  }

  // ---- what is left to do ----

  /** Everything a processed value needs is collected or queued. */
  ghost predicate Progress(f: Function, gates: GateMap, deps: set<Value>, queue: seq<Value>) {
    forall u, v | u in deps && u !in queue && Needs(f, gates, u, v) :: v in deps || v in queue
  }

  /** Nothing outside the least closed set is collected or queued. */
  ghost predicate Justified(f: Function, gates: GateMap, crit: Value, vs: set<Value>) {
    forall t: set<Value> | crit in t && Closed(f, gates, t) :: vs <= t
  }

  ghost predicate BlocksSoFar(f: Function, deps: set<Value>, queue: seq<Value>, bbs: set<BlockRef>) {
    && (forall b | b in bbs :: exists v :: v in deps && Brings(f, v, b))
    && (forall v, b | v in deps && v !in queue && Brings(f, v, b) :: b in bbs)
  }

  ghost function Universe(f: Function): (s: set<Value>)
    ensures forall v :: v in s <==> Known(f, v)
  {
    (set a: nat | a < f.nargs :: Arg(a))
    + (set r, k: nat | r in f.blocks && r.Orig? && k < |f.blocks[r].phis| :: Res(PhiId(r.b, k)))
    + (set r, k: nat | r in f.blocks && r.Orig? && k < |f.blocks[r].body| :: Res(BodyId(r.b, k)))
    + (set r | r in f.blocks && r.Orig? :: Res(TermId(r.b)))
  }

  /** A phi may queue its gates each time it is taken from the queue; a gate queues no gates. */
  function Weight(gates: GateMap, v: Value): nat {
    if v.Res? && v.id.PhiId? && Parent(v.id) in gates then 1 + |gates[Parent(v.id)]| else 1
  }

  function QueueWeight(gates: GateMap, q: seq<Value>): nat {
    if q == [] then 0 else Weight(gates, q[0]) + QueueWeight(gates, q[1..])
  }

  lemma {:induction false} QueueWeightAppend(gates: GateMap, q: seq<Value>, r: seq<Value>)
    requires forall v | v in r :: Weight(gates, v) == 1
    ensures QueueWeight(gates, q + r) == QueueWeight(gates, q) + |r|
  {
    if q == [] {
      assert q + r == r;
      if r != [] {
        QueueWeightAppend(gates, [], r[1..]);
        assert [] + r[1..] == r[1..];
      }
    } else {
      assert (q + r)[1..] == q[1..] + r;
      QueueWeightAppend(gates, q[1..], r);
    }
  }

  function Range<T(!new)>(s: seq<T>): (r: set<T>)
    ensures forall x :: x in r <==> x in s
  {
    set x | x in s
  }

  /** The loop over the operands of one instruction: those not visited are marked and queued. */
  method VisitOperands(ops: seq<Value>, visited: set<Value>) returns (marked: seq<Value>)
    ensures forall v :: v in marked <==> v in ops && Tracked(v) && v !in visited
  {
    marked := [];
    var seen := visited;
    for i := 0 to |ops|
      invariant forall v :: v in marked <==> v in ops[..i] && Tracked(v) && v !in visited
      invariant seen == visited + Range(marked)
    {
      assert ops[..i + 1] == ops[..i] + [ops[i]];
      if Tracked(ops[i]) && ops[i] !in seen {
        seen := seen + {ops[i]};
        marked := marked + [ops[i]];
      }
    }
    assert ops[..|ops|] == ops;
  }

  /** The loop over the gates of one phi: those not visited are queued, but not marked. */
  method QueueGates(gs: seq<Id>, visited: set<Value>) returns (more: seq<Value>)
    ensures forall v :: v in more <==> v.Res? && v.id in gs && v !in visited
    ensures |more| <= |gs|
  {
    more := [];
    for i := 0 to |gs|
      invariant forall v :: v in more <==> v.Res? && v.id in gs[..i] && v !in visited
      invariant |more| <= i
    {
      assert gs[..i + 1] == gs[..i] + [gs[i]];
      if Res(gs[i]) !in visited {
        more := more + [Res(gs[i])];
      }
    }
    assert gs[..|gs|] == gs;
  }

  /** The blocks one instruction brings into the slice. */
  method BlocksOfInst(f: Function, id: Id) returns (bbs: set<BlockRef>)
    requires HasInst(f, id)
    ensures forall b :: b in bbs <==> Brings(f, Res(id), b)
  {
    bbs := {Parent(id)};
    if id.PhiId? {
      var inc := PhiAt(f, id).incoming;
      for i := 0 to |inc|
        invariant forall b :: b in bbs <==> b == Parent(id) || exists j :: 0 <= j < i && inc[j].0 == b
      {
        bbs := bbs + {inc[i].0};
      }
    }
  }

  method DataDependences(f: Function, gates: GateMap, crit: Id) returns (bbs: set<BlockRef>, deps: set<Value>)
    requires GoodGates(f, gates) && HasInst(f, crit)
    requires forall id, v | HasInst(f, id) && v in Operands(f, id) && Tracked(v) :: Known(f, v)
    ensures Least(f, gates, Res(crit), deps)
    ensures BlocksOf(f, deps, bbs)
    ensures forall v | v in deps :: Known(f, v)
  {
    var visited: set<Value> := {};
    var queue := [Res(crit)];
    bbs, deps := {}, {Res(crit)};
    while |queue| > 0
      invariant Res(crit) in deps
      invariant forall v | v in deps + Range(queue) :: Known(f, v)
      invariant visited <= deps + Range(queue)
      invariant Progress(f, gates, deps, queue)
      invariant Justified(f, gates, Res(crit), deps + Range(queue))
      invariant BlocksSoFar(f, deps, queue, bbs)
      decreases Universe(f) - visited, QueueWeight(gates, queue)
    {
      hide Progress, Justified, BlocksSoFar, Universe, QueueWeight, Closed;
      var cur := queue[0];
      assert cur in Range(queue);
      var marked, more, brought := VisitValue(f, gates, cur, visited);
      ProgressStep(f, gates, deps, queue, visited, marked, more);
      JustifiedStep(f, gates, Res(crit), deps, queue, marked, more);
      BlocksStep(f, deps, queue, bbs, brought, marked + more);
      MeasureStep(f, gates, queue, visited, marked, more);
      deps, bbs := deps + {cur}, bbs + brought;
      visited := visited + Range(marked);
      queue := queue[1..] + (marked + more);
    }
  }

  /** The body of the worklist loop: what visiting one value marks, queues and brings in. */
  method VisitValue(f: Function, gates: GateMap, cur: Value, visited: set<Value>)
    returns (marked: seq<Value>, more: seq<Value>, brought: set<BlockRef>)
    requires GoodGates(f, gates) && Known(f, cur)
    requires forall id, v | HasInst(f, id) && v in Operands(f, id) && Tracked(v) :: Known(f, v)
    ensures forall b :: b in brought <==> Brings(f, cur, b)
    ensures forall v | v in marked || v in more :: Needs(f, gates, cur, v) && v !in visited && Known(f, v)
    ensures forall v | Needs(f, gates, cur, v) :: v in visited || v in marked || v in more
    ensures forall v | v in more :: Weight(gates, v) == 1
    ensures |more| < Weight(gates, cur)
  {
    marked, more, brought := [], [], {};
    if cur.Res? {
      brought := BlocksOfInst(f, cur.id);
      marked := VisitOperands(Operands(f, cur.id), visited);
      if cur.id.PhiId? {
        more := QueueGates(gates[Parent(cur.id)], visited + Range(marked));
      }
    }
  }

  lemma ProgressStep(f: Function, gates: GateMap, deps: set<Value>, queue: seq<Value>, visited: set<Value>,
                     marked: seq<Value>, more: seq<Value>)
    requires |queue| > 0 && Progress(f, gates, deps, queue)
    requires visited <= deps + Range(queue)
    requires forall v | Needs(f, gates, queue[0], v) :: v in visited || v in marked || v in more
    ensures Progress(f, gates, deps + {queue[0]}, queue[1..] + (marked + more))
  {
    hide Needs;
    assert forall v | v in queue :: v == queue[0] || v in queue[1..];
  }

  lemma JustifiedStep(f: Function, gates: GateMap, crit: Value, deps: set<Value>, queue: seq<Value>,
                      marked: seq<Value>, more: seq<Value>)
    requires |queue| > 0 && Justified(f, gates, crit, deps + Range(queue))
    requires forall v | v in marked || v in more :: Needs(f, gates, queue[0], v)
    ensures Justified(f, gates, crit, deps + {queue[0]} + Range(queue[1..] + (marked + more)))
  {
    hide Needs;
    forall t: set<Value>, x | crit in t && Closed(f, gates, t) && x in deps + {queue[0]} + Range(queue[1..] + (marked + more))
      ensures x in t
    {
      assert queue[0] in deps + Range(queue);
      if x in queue[1..] {
        assert x in deps + Range(queue);
      }
    }
  }

  lemma BlocksStep(f: Function, deps: set<Value>, queue: seq<Value>, bbs: set<BlockRef>, brought: set<BlockRef>,
                   pushed: seq<Value>)
    requires |queue| > 0 && BlocksSoFar(f, deps, queue, bbs)
    requires forall b :: b in brought <==> Brings(f, queue[0], b)
    ensures BlocksSoFar(f, deps + {queue[0]}, queue[1..] + pushed, bbs + brought)
  {
    hide Brings;
    assert forall v | v in queue :: v == queue[0] || v in queue[1..];
  }

  lemma {:induction false} MeasureStep(f: Function, gates: GateMap, queue: seq<Value>, visited: set<Value>,
                    marked: seq<Value>, more: seq<Value>)
    requires |queue| > 0
    requires forall v | v in marked :: Known(f, v) && v !in visited
    requires forall v | v in more :: Weight(gates, v) == 1
    requires |more| < Weight(gates, queue[0])
    ensures Universe(f) - (visited + Range(marked)) <= Universe(f) - visited
    ensures marked == [] ==> QueueWeight(gates, queue[1..] + (marked + more)) < QueueWeight(gates, queue)
    ensures marked != [] ==> Universe(f) - (visited + Range(marked)) < Universe(f) - visited
  {
    if marked == [] {
      assert marked + more == more;
      QueueWeightAppend(gates, queue[1..], more);
    } else {
      assert marked[0] in Universe(f) - visited;
    }
  }

  /** A property of the criterion that passes from a value to what it needs holds throughout. */
  lemma LeastInduction(f: Function, gates: GateMap, crit: Value, s: set<Value>, t: set<Value>)
    requires Least(f, gates, crit, s) && crit in t
    requires forall u, v | u in t && Needs(f, gates, u, v) && v in s :: v in t
    requires t <= s
    ensures s == t
  {
    hide Needs;
    assert Closed(f, gates, t);
  }

  /** In a least closed set everything but the criterion is there because something needs it. */
  lemma LeastHasUser(f: Function, gates: GateMap, crit: Value, s: set<Value>, v: Value)
    requires Least(f, gates, crit, s) && v in s && v != crit
    ensures exists u :: u in s && Needs(f, gates, u, v)
  {
    hide Needs;
    var t := set w | w in s && (w == crit || exists u :: u in s && Needs(f, gates, u, w));
    assert Closed(f, gates, t);
  }

  lemma LeastIsUnique(f: Function, gates: GateMap, crit: Value, s: set<Value>, t: set<Value>)
    requires Least(f, gates, crit, s) && Least(f, gates, crit, t)
    ensures s == t
  {
  }
}
