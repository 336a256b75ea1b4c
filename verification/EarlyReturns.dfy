/** What it means that a function can return without using a parameter, said of its blocks, and of its runs. */
module EarlyReturns {
  import opened Graphs
  import opened Ir
  import opened Machine
  import opened Promising

  // ---- the exit ----

  /** The analysis takes a block for one that returns exactly if a run that has come to it ends there. */
  lemma ReturnsExactly(ops: Ops, f: Function, st: State)
    ensures Step(ops, f, st).Finished? <==> ReturnsAt(f, st.block)
  {
    hide ExecBlock, Eval;
  }

  /** `p` is a way through `f`, said of its blocks alone. */
  ghost predicate Way(f: Function, p: seq<BlockRef>) {
    && |p| > 0 && (forall b | b in p :: b in f.blocks)
    && forall i | 0 <= i < |p| - 1 :: p[i + 1] in f.blocks[p[i]].Succs()
  }

  /** No instruction of `blk` but a phi, and no terminator, has `v` for an operand. */
  ghost predicate Untouched(blk: Block, v: Value) {
    (forall i | i in blk.body :: v !in i.args) && (blk.term.Some? ==> v !in blk.term.value.Values())
  }

  lemma WaysArePaths(f: Function, p: seq<BlockRef>)
    ensures Way(f, p) <==> |p| > 0 && PathFromTo(GraphOf(f), p, p[0], p[|p| - 1]) && forall b | b in p :: b in f.blocks
  {
    if |p| > 0 && forall b | b in p :: b in f.blocks {
      forall i | 0 <= i < |p| - 1
        ensures (p[i], p[i + 1]) in GraphOf(f).edges <==> p[i + 1] in f.blocks[p[i]].Succs()
      {
        EdgeIsSucc(f, p[i], p[i + 1]);
      }
    }
  }

  lemma FreeIsUntouched(f: Function, v: Value, p: seq<BlockRef>)
    ensures AllFree(f, v, p) <==> forall b | b in p :: b in f.blocks && Untouched(f.blocks[b], v)
  {
  }

  /** `p` leads from the entry to the last block of the layout that ends in a return, the `k`-th, and no block on it
      has parameter `x` for an operand. */
  ghost predicate EarlyReturn(f: Function, x: nat, p: seq<BlockRef>, k: nat)
    requires Shaped(f)
  {
    && Way(f, p) && p[0] == f.order[0] && k < |f.order| && p[|p| - 1] == f.order[k]
    && (forall b | b in p :: Untouched(f.blocks[b], Arg(x)))
    && f.blocks[f.order[k]].term.value.Ret?
    && (forall j | k < j < |f.order| :: !f.blocks[f.order[j]].term.value.Ret?)
  }

  /** A pair is recorded exactly if the function has the parameter, and there is such a way. */
  lemma UnusedMeansWay(f: Function, x: nat)
    requires Shaped(f)
    ensures Unused(f, x) <==> x < f.nargs && exists p, k :: EarlyReturn(f, x, p, k)
  {
    hide *;
    hide Shaped;
    ShapedOrder(f);
    if Unused(f, x) {
      var p, k := WayOfUnused(f, x);
    }
    if x < f.nargs && exists p, k :: EarlyReturn(f, x, p, k) {
      var p, k :| EarlyReturn(f, x, p, k);
      UnusedByWay(f, x, p, k);
    }
  }

  lemma ShapedOrder(f: Function)
    requires Shaped(f)
    ensures |f.order| > 0 && forall b :: b in f.order <==> b in f.blocks
    ensures forall b | b in f.blocks :: f.blocks[b].term.Some? && (f.blocks[b].term.value.Ret? <==> ReturnsAt(f, b))
  {
  }

  lemma WayOfUnused(f: Function, x: nat) returns (p: seq<BlockRef>, k: nat)
    requires Shaped(f) && Unused(f, x)
    ensures x < f.nargs && EarlyReturn(f, x, p, k)
  {
    ShapedOrder(f);
    var entry := f.order[0];
    hide ReturnsAt, GraphOf, PathFromTo, UsesIn, Untouched, Shaped, Way, AllFree;
    var exit :| IsExit(f, exit) && FreePath(f, Arg(x), entry, exit);
    k :| 0 <= k < |f.order| && f.order[k] == exit && ReturnsAt(f, exit) && forall j | k < j < |f.order| :: !ReturnsAt(f, f.order[j]);
    p :| PathFromTo(GraphOf(f), p, entry, exit) && AllFree(f, Arg(x), p);
    EndsOf(GraphOf(f), p, entry, exit);
    FreeIsUntouched(f, Arg(x), p);
    WaysArePaths(f, p);
    hide FreePath, IsExit, Unused;
  }

  lemma UnusedByWay(f: Function, x: nat, p: seq<BlockRef>, k: nat)
    requires Shaped(f) && x < f.nargs && EarlyReturn(f, x, p, k)
    ensures |f.order| > 0 && Unused(f, x)
  {
    ShapedOrder(f);
    WaysArePaths(f, p);
    FreeIsUntouched(f, Arg(x), p);
    hide ReturnsAt, GraphOf, PathFromTo, UsesIn, Untouched, Shaped, Way, AllFree;
    assert IsExit(f, f.order[k]);
    assert FreePath(f, Arg(x), f.order[0], f.order[k]);
    hide FreePath, IsExit;
  }

  lemma EndsOf(g: Graph, p: seq<BlockRef>, a: BlockRef, b: BlockRef)
    requires PathFromTo(g, p, a, b)
    ensures |p| > 0 && p[0] == a && p[|p| - 1] == b
  {
  }

  // ---- missing uses ----

  /** Nothing of a block is changed but that instructions are added behind its own: one for every edge on which a parameter
      flows from it into a phi, with the parameter as its operand, and no others. */
  lemma DummiesSay(f: Function, g: Function, b: BlockRef) returns (added: seq<Instr>)
    requires WithDummies(f, g) && b in f.blocks
    ensures g.order == f.order && g.nargs == f.nargs && g.blocks.Keys == f.blocks.Keys
    ensures g.blocks[b] == Block(f.blocks[b].phis, f.blocks[b].body + added, f.blocks[b].term)
    ensures forall i | i in added :: i.op == DummyUse && i.id.DummyId? && exists q, p, j ::
              && q in f.blocks && p in f.blocks[q].phis && 0 <= j < |p.incoming| && p.incoming[j].0 == b
              && p.incoming[j].1.Arg? && p.incoming[j].1.a < f.nargs && i.args == [p.incoming[j].1]
    ensures forall q, p, j | && q in f.blocks && p in f.blocks[q].phis && 0 <= j < |p.incoming| && p.incoming[j].0 == b
                             && p.incoming[j].1.Arg? && p.incoming[j].1.a < f.nargs
              :: exists i :: i in added && i.args == [p.incoming[j].1]
  {
    var seen, ds :| DummiesAdded(f, seen, ds, g.blocks) && AllEdges(f, seen);
    added := ds[b];
    forall i | i in added
      ensures i.op == DummyUse && i.id.DummyId? && exists q, p, j ::
              && q in f.blocks && p in f.blocks[q].phis && 0 <= j < |p.incoming| && p.incoming[j].0 == b
              && p.incoming[j].1.Arg? && p.incoming[j].1.a < f.nargs && i.args == [p.incoming[j].1]
    {
      var e :| e in seen && DummyFor(f, e, b, i);
      assert f.blocks[e.block].phis[e.phi] in f.blocks[e.block].phis;
    }
    forall q, p, j | && q in f.blocks && p in f.blocks[q].phis && 0 <= j < |p.incoming| && p.incoming[j].0 == b
                     && p.incoming[j].1.Arg? && p.incoming[j].1.a < f.nargs
      ensures exists i :: i in added && i.args == [p.incoming[j].1]
    {
      var k :| 0 <= k < |f.blocks[q].phis| && f.blocks[q].phis[k] == p;
      var i := Instr(DummyId(p.id, j), DummyUse, [p.incoming[j].1]);
      assert IsEdge(f, PhiEdge(q, k, j)) && DummyFor(f, PhiEdge(q, k, j), b, i);
      assert i in added;
    }
  }

  // ---- a block that ends in nothing is no exit ----

  /** A function that returns its first parameter, or is stopped, the last block being the one that never ends. */
  const Guarded := Function(2, [Orig(0), Orig(1), Orig(2)], map[
    Orig(0) := Block([], [], Some(CondBr(Arg(1), Orig(1), Orig(2)))),
    Orig(1) := Block([], [], Some(Ret(Arg(0)))),
    Orig(2) := Block([], [], Some(Unreachable))])

  lemma GuardedIsShaped()
    ensures Shaped(Guarded)
  {
    forall b, s | b in Guarded.blocks && s in Guarded.blocks[b].Succs()
      ensures s in Guarded.blocks
    {
      assert b == Orig(0) ==> s == Orig(1) || s == Orig(2);
    }
    forall b
      ensures b in Guarded.order <==> b in Guarded.blocks
    {
      assert Guarded.order[0] == Orig(0) && Guarded.order[1] == Orig(1) && Guarded.order[2] == Orig(2);
    }
  }

  lemma GuardedBlocks()
    ensures Guarded.order == [Orig(0), Orig(1), Orig(2)] && Orig(0) in Guarded.blocks && Orig(1) in Guarded.blocks && Orig(2) in Guarded.blocks
    ensures Guarded.blocks[Orig(0)] == Block([], [], Some(CondBr(Arg(1), Orig(1), Orig(2))))
    ensures Guarded.blocks[Orig(1)] == Block([], [], Some(Ret(Arg(0)))) && Guarded.blocks[Orig(2)] == Block([], [], Some(Unreachable))
  {
  }

  lemma BranchTouches(blk: Block, v: Value)
    requires blk.term.Some? && v in blk.term.value.Values()
    ensures !Untouched(blk, v)
  {
  }

  lemma WayOfGuarded(x: nat, p: seq<BlockRef>, k: nat)
    requires Shaped(Guarded) && EarlyReturn(Guarded, x, p, k)
    ensures Untouched(Guarded.blocks[Orig(0)], Arg(x)) && Untouched(Guarded.blocks[Orig(1)], Arg(x))
  {
    GuardedBlocks();
    hide Guarded, Untouched, Shaped;
    assert Guarded.blocks[Guarded.order[k]].term.value.Ret? && k == 1;
    assert p[0] in p && p[|p| - 1] in p;
  }

  /** It cannot return without using either parameter: nothing is recorded for it. */
  lemma GuardedUsesBoth()
    ensures |Guarded.order| > 0 && !Unused(Guarded, 0) && !Unused(Guarded, 1)
  {
    hide *;
    GuardedIsShaped();
    GuardedBlocks();
    UnusedMeansWay(Guarded, 0);
    UnusedMeansWay(Guarded, 1);
    TouchedByValues();
    forall x: nat, p, k | EarlyReturn(Guarded, x, p, k)
      ensures x != 0 && x != 1
    {
      WayOfGuarded(x, p, k);
    }
  }

  lemma TouchedByValues()
    ensures Orig(0) in Guarded.blocks && !Untouched(Guarded.blocks[Orig(0)], Arg(1))
    ensures Orig(1) in Guarded.blocks && !Untouched(Guarded.blocks[Orig(1)], Arg(0))
  {
    GuardedBlocks();
    hide Guarded;
    BranchTouches(Guarded.blocks[Orig(0)], Arg(1));
    BranchTouches(Guarded.blocks[Orig(1)], Arg(0));
  }
}
