/** Which functions are worth passing a thunk: those that can return without using an argument. */
module Promising {
  import opened Graphs
  import opened Ir
  import opened Forcing
  import opened CallByNeed

  // ---- paths without a use ----

  predicate UsesIn(blk: Block, target: Value) {
    (exists i :: i in blk.body && target in i.args) || (blk.term.Some? && target in blk.term.value.Values())
  }

  /** A path from `a` to `b` no block of which, its ends included, uses `target`. */
  ghost predicate FreePath(f: Function, target: Value, a: BlockRef, b: BlockRef) {
    exists p :: PathFromTo(GraphOf(f), p, a, b) && AllFree(f, target, p)
  }

  ghost predicate AllFree(f: Function, target: Value, p: seq<BlockRef>) {
    forall b | b in p :: b in f.blocks && !UsesIn(f.blocks[b], target)
  }

  /** Some path leads to `b` without a use before it. */
  ghost predicate Open(f: Function, target: Value, a: BlockRef, b: BlockRef) {
    exists p :: PathFromTo(GraphOf(f), p, a, b) && AllFree(f, target, p[..|p| - 1])
  }

  lemma OpenGoesOn(f: Function, target: Value, a: BlockRef, b: BlockRef, s: BlockRef)
    requires Open(f, target, a, b) && b in f.blocks && !UsesIn(f.blocks[b], target) && s in f.blocks[b].Succs() && s in f.blocks
    ensures Open(f, target, a, s)
  {
    var p :| PathFromTo(GraphOf(f), p, a, b) && AllFree(f, target, p[..|p| - 1]);
    var q := p + [s];
    EdgeIsSucc(f, b, s);
    OneStepMore(GraphOf(f), p, a, b, s);
    hide UsesIn, GraphOf, PathFromTo;
    assert p == p[..|p| - 1] + [b] && q[..|q| - 1] == p;
    assert forall x | x in p :: x in p[..|p| - 1] || x == b;
    assert AllFree(f, target, p);
    hide AllFree;
  }

  lemma OneStepMore(g: Graph, p: seq<BlockRef>, a: BlockRef, b: BlockRef, s: BlockRef)
    requires PathFromTo(g, p, a, b) && (b, s) in g.edges && s in g.nodes
    ensures PathFromTo(g, p + [s], a, s) && p[|p| - 1] == b && |p| > 0
  {
  }

  lemma OpenAtStart(f: Function, target: Value, a: BlockRef)
    requires a in f.blocks
    ensures Open(f, target, a, a)
  {
    assert PathFromTo(GraphOf(f), [a], a, a) && AllFree(f, target, [a][..0]);
  }

  lemma OpenAndFree(f: Function, target: Value, a: BlockRef, b: BlockRef)
    requires Open(f, target, a, b) && b in f.blocks && !UsesIn(f.blocks[b], target)
    ensures FreePath(f, target, a, b)
  {
    hide UsesIn;
    var p :| PathFromTo(GraphOf(f), p, a, b) && AllFree(f, target, p[..|p| - 1]);
    assert p == p[..|p| - 1] + [b];
  }

  // ---- the search ----

  /** A block that has been popped: it uses the value, or is not the exit and its successors have been visited. */
  ghost predicate Expanded(f: Function, target: Value, exit: BlockRef, visited: set<BlockRef>, b: BlockRef) {
    b in f.blocks && (UsesIn(f.blocks[b], target) || (b != exit && forall s | s in f.blocks[b].Succs() :: s in visited))
  }

  ghost predicate SearchState(f: Function, target: Value, first: BlockRef, exit: BlockRef,
                              visited: set<BlockRef>, stack: seq<BlockRef>) {
    && first in visited && visited <= f.blocks.Keys
    && (forall b | b in stack :: b in visited)
    && (forall b | b in visited :: Open(f, target, first, b))
    && (forall b | b in visited && b !in stack :: Expanded(f, target, exit, visited, b))
  }

  /** A search that has run dry has seen every free path. */
  lemma {:induction false} FreePathVisited(f: Function, target: Value, first: BlockRef, exit: BlockRef,
                                           visited: set<BlockRef>, p: seq<BlockRef>, n: nat)
    requires SearchState(f, target, first, exit, visited, [])
    requires Path(GraphOf(f), p) && p[0] == first && AllFree(f, target, p) && n < |p|
    ensures p[n] in visited
  {
    hide Open, UsesIn;
    if n > 0 {
      FreePathVisited(f, target, first, exit, visited, p, n - 1);
      assert (p[n - 1], p[n]) in GraphOf(f).edges && p[n - 1] in p;
      assert Expanded(f, target, exit, visited, p[n - 1]);
    }
  }

  lemma NothingFound(f: Function, target: Value, first: BlockRef, exit: BlockRef, visited: set<BlockRef>)
    requires SearchState(f, target, first, exit, visited, [])
    ensures !FreePath(f, target, first, exit)
  {
    hide Open, UsesIn;
    forall p | PathFromTo(GraphOf(f), p, first, exit)
      ensures !AllFree(f, target, p)
    {
      if AllFree(f, target, p) {
        FreePathVisited(f, target, first, exit, visited, p, |p| - 1);
      }
    }
  }

  ghost predicate SuccsIn(f: Function) {
    forall b, s | b in f.blocks && s in f.blocks[b].Succs() :: s in f.blocks
  }

  // ---- uses in phis ----

  /** Block, phi and incoming edge. */
  datatype PhiEdge = PhiEdge(block: BlockRef, phi: nat, k: nat)

  predicate IsEdge(f: Function, e: PhiEdge) {
    e.block in f.blocks && e.phi < |f.blocks[e.block].phis| && e.k < |f.blocks[e.block].phis[e.phi].incoming|
  }

  /** `i` is the dummy use for the edge `e`, which comes from `b` and carries a parameter. */
  ghost predicate DummyFor(f: Function, e: PhiEdge, b: BlockRef, i: Instr)
  {
    IsEdge(f, e) && var p := f.blocks[e.block].phis[e.phi];
    && p.incoming[e.k].0 == b && p.incoming[e.k].1.Arg? && p.incoming[e.k].1.a < f.nargs
    && i == Instr(DummyId(p.id, e.k), DummyUse, [p.incoming[e.k].1])
  }

  /** The blocks are those of `f` with dummy uses `ds` at their ends: those for the edges `seen`. */
  ghost predicate DummiesAdded(f: Function, seen: set<PhiEdge>, ds: map<BlockRef, seq<Instr>>,
                               blocks: map<BlockRef, Block>) {
    && blocks.Keys == f.blocks.Keys == ds.Keys
    && (forall b | b in f.blocks :: blocks[b] == f.blocks[b].(body := f.blocks[b].body + ds[b]))
    && (forall b, i | b in ds && i in ds[b] :: exists e :: e in seen && DummyFor(f, e, b, i))
    && (forall e, b, i | e in seen && b in ds && DummyFor(f, e, b, i) :: i in ds[b])
  }

  ghost predicate AllEdges(f: Function, seen: set<PhiEdge>) {
    forall e | IsEdge(f, e) :: e in seen
  }

  /** `g` is `f` with a dummy use for every parameter that flows into a phi. */
  ghost predicate WithDummies(f: Function, g: Function) {
    && g.order == f.order && g.nargs == f.nargs
    && exists seen, ds :: DummiesAdded(f, seen, ds, g.blocks) && AllEdges(f, seen)
  }

  lemma EdgePassed(f: Function, seen: set<PhiEdge>, ds: map<BlockRef, seq<Instr>>, blocks: map<BlockRef, Block>, e: PhiEdge)
    requires DummiesAdded(f, seen, ds, blocks) && forall b, i :: !DummyFor(f, e, b, i)
    ensures DummiesAdded(f, seen + {e}, ds, blocks)
  {
    hide DummyFor;
    forall b, i | b in ds && i in ds[b]
      ensures exists e' :: e' in seen + {e} && DummyFor(f, e', b, i)
    {
      var e' :| e' in seen && DummyFor(f, e', b, i);
      assert e' in seen + {e};
    }
  }

  lemma EdgeAdded(f: Function, seen: set<PhiEdge>, ds: map<BlockRef, seq<Instr>>, blocks: map<BlockRef, Block>,
                  e: PhiEdge, b: BlockRef, i: Instr)
    requires DummiesAdded(f, seen, ds, blocks) && DummyFor(f, e, b, i) && b in f.blocks
    ensures DummiesAdded(f, seen + {e}, ds[b := ds[b] + [i]], blocks[b := blocks[b].(body := blocks[b].body + [i])])
  {
    var seen', ds', blocks' := seen + {e}, ds[b := ds[b] + [i]], blocks[b := blocks[b].(body := blocks[b].body + [i])];
    assert forall x, c | DummyFor(f, e, c, x) :: c == b && x == i;
    hide DummyFor;
    assert f.blocks[b].body + ds[b] + [i] == f.blocks[b].body + ds'[b];
    forall c, x | c in ds' && x in ds'[c]
      ensures exists e' :: e' in seen' && DummyFor(f, e', c, x)
    {
      if c == b && x == i {
        assert e in seen';
      } else {
        var e' :| e' in seen && DummyFor(f, e', c, x);
        assert e' in seen';
      }
    }
  }

  // ---- the analysis ----

  /** The last block of the layout that returns. */
  ghost predicate IsExit(f: Function, exit: BlockRef) {
    exists k :: 0 <= k < |f.order| && f.order[k] == exit && ReturnsAt(f, exit) && forall j | k < j < |f.order| :: !ReturnsAt(f, f.order[j])
  }

  predicate ReturnsAt(f: Function, b: BlockRef) {
    b in f.blocks && f.blocks[b].Returns()
  }

  /** The function can return without using parameter `x`. */
  ghost predicate Unused(f: Function, x: nat)
    requires |f.order| > 0
  {
    x < f.nargs && exists exit :: IsExit(f, exit) && FreePath(f, Arg(x), f.order[0], exit)
  }

  class FindLazyfiable {
    /** Functions, by number. */
    var promising: set<nat>
    /** Functions, and the parameter they may not use. */
    var promisingArgs: set<(nat, nat)>

    constructor ()
      ensures promising == {} && promisingArgs == {}
    {
      promising, promisingArgs := {}, {};
    }

    /** Whether an instruction of the block, or its terminator, uses `target`; phis are skipped. */
    method HasUse(blk: Block, target: Value) returns (hasUse: bool)
      ensures hasUse == UsesIn(blk, target)
      ensures hasUse <==> (exists i :: i in blk.body && target in i.args) || (blk.term.Some? && target in blk.term.value.Values())
    {
      hasUse := false;
      for k := 0 to |blk.body|
        invariant hasUse <==> exists i :: i in blk.body[..k] && target in i.args
      {
        assert blk.body[..k + 1] == blk.body[..k] + [blk.body[k]];
        if target in blk.body[k].args {
          hasUse := true;
        }
      }
      assert blk.body[..|blk.body|] == blk.body;
      if blk.term.Some? && target in blk.term.value.Values() {
        hasUse := true;
      }
    }

    /** Pushes the successors of `cur` that have not been visited. */
    method PushSuccs(ghost f: Function, succs: seq<BlockRef>, visited0: set<BlockRef>, stack0: seq<BlockRef>)
      returns (visited: set<BlockRef>, stack: seq<BlockRef>, ghost pushed: seq<BlockRef>)
      requires forall s | s in succs :: s in f.blocks
      ensures stack == stack0 + pushed && Distinct(pushed)
      ensures (forall b :: b in pushed <==> b in succs && b !in visited0) && visited == visited0 + (set b | b in succs)
    {
      visited, stack, pushed := visited0, stack0, [];
      for k := 0 to |succs|
        invariant stack == stack0 + pushed && Distinct(pushed)
        invariant (forall b :: b in pushed <==> b in succs[..k] && b !in visited0) && visited == visited0 + (set b | b in succs[..k])
      {
        assert succs[..k + 1] == succs[..k] + [succs[k]];
        if succs[k] !in visited {
          visited := visited + {succs[k]};
          stack := stack + [succs[k]];
          pushed := pushed + [succs[k]];
        }
      }
      assert succs[..|succs|] == succs;
    }

    /** One turn of the search: the top of the stack is popped, and is the exit reached without a use, or is expanded. */
    method Visit(f: Function, target: Value, ghost first: BlockRef, exit: BlockRef, visited0: set<BlockRef>,
                 stack0: seq<BlockRef>)
      returns (found: bool, visited: set<BlockRef>, stack: seq<BlockRef>, ghost next: seq<BlockRef>)
      requires SearchState(f, target, first, exit, visited0, stack0) && Distinct(stack0) && stack0 != [] && SuccsIn(f)
      ensures found ==> FreePath(f, target, first, exit) && next == []
      ensures !found ==> SearchState(f, target, first, exit, visited, stack) && Distinct(stack)
      ensures Distinct(next) && (forall b :: b in next <==> b in visited && b !in visited0) && visited0 <= visited
      ensures !found && visited == visited0 ==> |stack| < |stack0|
    {
      var n := |stack0| - 1;
      var cur := stack0[n];
      assert stack0[..n] + [cur] == stack0;
      visited, stack, next, found := visited0, stack0[..n], [], false;
      CurIsBlock(f, target, first, exit, visited, stack, cur);
      hide Open, UsesIn, FreePath;
      var hasUse := HasUse(f.blocks[cur], target);
      if hasUse {
        PoppedState(f, target, first, exit, visited, stack, cur);
      } else if cur == exit {
        OpenAndFree(f, target, first, exit);
        found := true;
      } else {
        visited, stack, next := PushSuccs(f, f.blocks[cur].Succs(), visited0, stack0[..n]);
        PushedState(f, target, first, exit, visited0, stack0[..n], cur, visited, stack, next);
        StackInVisited(f, target, first, exit, visited0, stack0[..n], cur);
        DistinctConcat(stack0[..n], next);
        assert next != [] ==> next[0] in next;
      }
    }

    /** Depth-first search from `first`: the pair is recorded exactly if some path to `exit` uses the
        parameter in none of its blocks; every block is pushed at most once. */
    method DFS(fn: nat, f: Function, first: BlockRef, exit: BlockRef, index: nat) returns (ghost pushed: seq<BlockRef>)
      requires first in f.blocks && SuccsIn(f)
      modifies this
      ensures promisingArgs == old(promisingArgs) + (if FreePath(f, Arg(index), first, exit) then {(fn, index)} else {})
      ensures promising == old(promising) + (if FreePath(f, Arg(index), first, exit) then {fn} else {})
      ensures Distinct(pushed) && forall b | b in pushed :: b in f.blocks
    {
      var target := Arg(index);
      var stack, visited := [first], {first};
      pushed := [first];
      OpenAtStart(f, target, first);
      StartState(f, target, first, exit);
      hide Open, UsesIn, FreePath, SearchState, SuccsIn;
      while stack != []
        invariant SearchState(f, target, first, exit, visited, stack) && visited <= f.blocks.Keys
        invariant Distinct(pushed) && Distinct(stack) && forall b :: b in pushed <==> b in visited
        invariant promisingArgs == old(promisingArgs) && promising == old(promising)
        decreases f.blocks.Keys - visited, |stack|
      {
        ghost var was := visited;
        var found;
        ghost var next;
        found, visited, stack, next := Visit(f, target, first, exit, visited, stack);
        if found {
          promising := promising + {fn};
          promisingArgs := promisingArgs + {(fn, index)};
          return;
        }
        VisitedInside(f, target, first, exit, visited, stack);
        DistinctConcat(pushed, next);
        pushed := pushed + next;
        Shrinks(f.blocks.Keys, was, visited);
      }
      NothingFound(f, target, first, exit, visited);
    }

    /** The last block that returns. */
    method FindExit(f: Function) returns (exit: Option<BlockRef>)
      requires Shaped(f)
      ensures exit.None? ==> forall j | 0 <= j < |f.order| :: !ReturnsAt(f, f.order[j])
      ensures exit.None? ==> forall b | b in f.blocks && f.blocks[b].term.Some? :: !f.blocks[b].term.value.Ret?
      ensures exit.Some? ==> forall x :: IsExit(f, x) <==> x == exit.value
      ensures exit.Some? ==> exit.value in f.blocks && f.blocks[exit.value].term.Some? && f.blocks[exit.value].term.value.Ret?
      ensures exit.Some? ==> forall k, j | 0 <= k < j < |f.order| && f.order[k] == exit.value && f.order[j] in f.blocks
                                           && f.blocks[f.order[j]].term.Some? :: !f.blocks[f.order[j]].term.value.Ret?
    {
      exit := None;
      hide ReturnsAt;
      for k := 0 to |f.order|
        invariant exit.None? ==> forall j | 0 <= j < k :: !ReturnsAt(f, f.order[j])
        invariant exit.Some? ==> exists e :: 0 <= e < k && f.order[e] == exit.value && ReturnsAt(f, exit.value)
                                             && forall j | e < j < k :: !ReturnsAt(f, f.order[j])
      {
        if ReturnsAt(f, f.order[k]) {
          exit := Some(f.order[k]);
        }
      }
      if exit.Some? {
        LastIsUnique(f, exit.value);
      }
      ExitSays(f, exit);
    }

    /** Searches for every parameter. */
    method SearchAll(fn: nat, f: Function, exit: BlockRef)
      requires |f.order| > 0 && f.order[0] in f.blocks && SuccsIn(f)
      modifies this
      ensures forall x: nat :: (fn, x) in promisingArgs <==>
        (fn, x) in old(promisingArgs) || (x < f.nargs && FreePath(f, Arg(x), f.order[0], exit))
      ensures forall p: (nat, nat) | p.0 != fn :: p in promisingArgs <==> p in old(promisingArgs)
      ensures promising == old(promising) + (if exists x: nat :: x < f.nargs && FreePath(f, Arg(x), f.order[0], exit) then {fn} else {})
    {
      hide FreePath, SuccsIn;
      ghost var any := false;
      for index := 0 to f.nargs
        invariant forall x: nat :: (fn, x) in promisingArgs <==>
          (fn, x) in old(promisingArgs) || (x < index && FreePath(f, Arg(x), f.order[0], exit))
        invariant forall p: (nat, nat) | p.0 != fn :: p in promisingArgs <==> p in old(promisingArgs)
        invariant any <==> exists x: nat :: x < index && FreePath(f, Arg(x), f.order[0], exit)
        invariant promising == old(promising) + (if any then {fn} else {})
      {
        ghost var pushed := DFS(fn, f, f.order[0], exit, index);
        any := any || FreePath(f, Arg(index), f.order[0], exit);
      }
    }

    /** Searches for every parameter, from the entry to the last block that returns. */
    method FindLazyfiablePaths(fn: nat, f: Function)
      requires Shaped(f)
      modifies this
      ensures forall x: nat :: (fn, x) in promisingArgs <==> (fn, x) in old(promisingArgs) || Unused(f, x)
      ensures forall p: (nat, nat) | p.0 != fn :: p in promisingArgs <==> p in old(promisingArgs)
      ensures promising == old(promising) + (if exists x: nat :: Unused(f, x) then {fn} else {})
    {
      var exit := FindExit(f);
      assert f.order[0] in f.blocks && SuccsIn(f);
      hide FreePath, ReturnsAt, Shaped, SuccsIn, IsExit;
      if exit.None? {
        NoExit(f);
        return;
      }
      UnusedIs(f, exit.value);
      hide Unused;
      SearchAll(fn, f, exit.value);
    }

    /** The analysis of one function: missing uses are added, and the search is run. */
    method Analyze(fn: nat, f: Function) returns (g: Function)
      requires WellFormed(f)
      modifies this
      ensures WithDummies(f, g) && |g.order| > 0
      ensures forall x: nat :: (fn, x) in promisingArgs <==> (fn, x) in old(promisingArgs) || Unused(g, x)
      ensures promising == old(promising) + (if exists x: nat :: Unused(g, x) then {fn} else {})
      ensures forall p: (nat, nat) | p.0 != fn :: p in promisingArgs <==> p in old(promisingArgs)
    {
      IncomingBlocks(f);
      g := AddMissingUses(f);
      DummiesShaped(f, g);
      hide WithDummies, Unused, WellFormed, Shaped;
      FindLazyfiablePaths(fn, g);
    }

    /** Adds the dummy uses for one phi. */
    method AddPhiUses(f: Function, b: BlockRef, k: nat, blocks0: map<BlockRef, Block>,
                      ghost seen0: set<PhiEdge>, ghost ds0: map<BlockRef, seq<Instr>>)
      returns (blocks: map<BlockRef, Block>, ghost seen: set<PhiEdge>, ghost ds: map<BlockRef, seq<Instr>>)
      requires b in f.blocks && k < |f.blocks[b].phis| && DummiesAdded(f, seen0, ds0, blocks0)
      requires forall e | e in f.blocks[b].phis[k].incoming :: e.0 in f.blocks
      ensures DummiesAdded(f, seen, ds, blocks) && seen0 <= seen && PhiSeen(f, b, k, seen)
    {
      hide DummiesAdded, DummyFor;
      blocks, seen, ds := blocks0, seen0, ds0;
      var p := f.blocks[b].phis[k];
      for j := 0 to |p.incoming|
        invariant DummiesAdded(f, seen, ds, blocks) && seen0 <= seen && forall i: nat | i < j :: PhiEdge(b, k, i) in seen
      {
        var (inc, v) := p.incoming[j];
        assert p.incoming[j] in p.incoming;
        if v.Arg? && v.a < f.nargs {
          var call := Instr(DummyId(p.id, j), DummyUse, [v]);
          DummyIs(f, PhiEdge(b, k, j), inc, call);
          EdgeAdded(f, seen, ds, blocks, PhiEdge(b, k, j), inc, call);
          KeysKept(f, seen, ds, blocks);
          blocks := blocks[inc := blocks[inc].(body := blocks[inc].body + [call])];
          ds := ds[inc := ds[inc] + [call]];
        } else {
          NoDummyFor(f, PhiEdge(b, k, j));
          EdgePassed(f, seen, ds, blocks, PhiEdge(b, k, j));
        }
        seen := seen + {PhiEdge(b, k, j)};
      }
    }

    /** Those for the phis of one block. */
    method AddBlockUses(f: Function, b: BlockRef, blocks0: map<BlockRef, Block>, ghost seen0: set<PhiEdge>,
                        ghost ds0: map<BlockRef, seq<Instr>>)
      returns (blocks: map<BlockRef, Block>, ghost seen: set<PhiEdge>, ghost ds: map<BlockRef, seq<Instr>>)
      requires b in f.blocks && DummiesAdded(f, seen0, ds0, blocks0)
      requires forall p, e | p in f.blocks[b].phis && e in p.incoming :: e.0 in f.blocks
      ensures DummiesAdded(f, seen, ds, blocks) && seen0 <= seen && BlockSeen(f, b, seen)
    {
      hide DummiesAdded, PhiSeen;
      blocks, seen, ds := blocks0, seen0, ds0;
      for k := 0 to |f.blocks[b].phis|
        invariant DummiesAdded(f, seen, ds, blocks) && seen0 <= seen && forall i: nat | i < k :: PhiSeen(f, b, i, seen)
      {
        ghost var before := seen;
        assert f.blocks[b].phis[k] in f.blocks[b].phis;
        blocks, seen, ds := AddPhiUses(f, b, k, blocks, seen, ds);
        forall i: nat | i < k
          ensures PhiSeen(f, b, i, seen)
        {
          StillSeen(f, b, i, before, seen);
        }
      }
    }

    /** A parameter that flows into a phi gets a dummy use at the end of the block it flows in from. */
    method AddMissingUses(f: Function) returns (g: Function)
      requires Shaped(f) && forall b, p, e | b in f.blocks && p in f.blocks[b].phis && e in p.incoming :: e.0 in f.blocks
      ensures WithDummies(f, g)
    {
      var blocks := f.blocks;
      ghost var seen: set<PhiEdge> := {};
      ghost var ds: map<BlockRef, seq<Instr>> := map b | b in f.blocks :: [];
      NoDummies(f, ds);
      assert forall b :: b in f.order <==> b in f.blocks;
      hide DummiesAdded, BlockSeen, Shaped;
      for n := 0 to |f.order|
        invariant DummiesAdded(f, seen, ds, blocks) && forall i: nat | i < n :: BlockSeen(f, f.order[i], seen)
      {
        ghost var before := seen;
        assert f.order[n] in f.blocks;
        blocks, seen, ds := AddBlockUses(f, f.order[n], blocks, seen, ds);
        forall i: nat | i < n
          ensures BlockSeen(f, f.order[i], seen)
        {
          BlockStillSeen(f, f.order[i], before, seen);
        }
      }
      AllSeen(f, seen);
      g := f.(blocks := blocks);
    }
  }

  ghost predicate PhiSeen(f: Function, b: BlockRef, k: nat, seen: set<PhiEdge>) {
    b in f.blocks && k < |f.blocks[b].phis| && forall j: nat | j < |f.blocks[b].phis[k].incoming| :: PhiEdge(b, k, j) in seen
  }

  ghost predicate BlockSeen(f: Function, b: BlockRef, seen: set<PhiEdge>) {
    b in f.blocks && forall k: nat | k < |f.blocks[b].phis| :: PhiSeen(f, b, k, seen)
  }

  lemma StillSeen(f: Function, b: BlockRef, k: nat, before: set<PhiEdge>, seen: set<PhiEdge>)
    requires PhiSeen(f, b, k, before) && before <= seen
    ensures PhiSeen(f, b, k, seen)
  {
  }

  lemma BlockStillSeen(f: Function, b: BlockRef, before: set<PhiEdge>, seen: set<PhiEdge>)
    requires BlockSeen(f, b, before) && before <= seen
    ensures BlockSeen(f, b, seen)
  {
    forall k: nat | k < |f.blocks[b].phis|
      ensures PhiSeen(f, b, k, seen)
    {
      StillSeen(f, b, k, before, seen);
    }
  }

  lemma AllSeen(f: Function, seen: set<PhiEdge>)
    requires (forall b :: b in f.order <==> b in f.blocks) && forall i: nat | i < |f.order| :: BlockSeen(f, f.order[i], seen)
    ensures AllEdges(f, seen)
  {
    forall e | IsEdge(f, e)
      ensures e in seen
    {
      var i :| 0 <= i < |f.order| && f.order[i] == e.block;
      assert BlockSeen(f, f.order[i], seen) && PhiSeen(f, e.block, e.phi, seen);
      assert e == PhiEdge(e.block, e.phi, e.k);
    }
  }

  lemma KeysKept(f: Function, seen: set<PhiEdge>, ds: map<BlockRef, seq<Instr>>, blocks: map<BlockRef, Block>)
    requires DummiesAdded(f, seen, ds, blocks)
    ensures blocks.Keys == f.blocks.Keys == ds.Keys
  {
  }

  lemma DummyIs(f: Function, e: PhiEdge, b: BlockRef, i: Instr)
    requires IsEdge(f, e) && var p := f.blocks[e.block].phis[e.phi];
      p.incoming[e.k].0 == b && p.incoming[e.k].1.Arg? && p.incoming[e.k].1.a < f.nargs && i == Instr(DummyId(p.id, e.k), DummyUse, [p.incoming[e.k].1])
    ensures DummyFor(f, e, b, i)
  {
  }

  lemma NoDummyFor(f: Function, e: PhiEdge)
    requires IsEdge(f, e) && var v := f.blocks[e.block].phis[e.phi].incoming[e.k].1; !(v.Arg? && v.a < f.nargs)
    ensures forall b, i :: !DummyFor(f, e, b, i)
  {
  }

  lemma NoDummies(f: Function, ds: map<BlockRef, seq<Instr>>)
    requires ds == map b | b in f.blocks :: []
    ensures DummiesAdded(f, {}, ds, f.blocks)
  {
  }

  lemma NoExit(f: Function)
    requires |f.order| > 0 && forall j | 0 <= j < |f.order| :: !ReturnsAt(f, f.order[j])
    ensures forall x: nat :: !Unused(f, x)
  {
    hide FreePath;
  }

  lemma UnusedIs(f: Function, exit: BlockRef)
    requires |f.order| > 0 && forall e :: IsExit(f, e) <==> e == exit
    ensures forall x: nat :: Unused(f, x) <==> x < f.nargs && FreePath(f, Arg(x), f.order[0], exit)
  {
    hide IsExit, FreePath;
  }

  lemma ExitSays(f: Function, exit: Option<BlockRef>)
    requires Shaped(f)
    requires exit.None? ==> forall j | 0 <= j < |f.order| :: !ReturnsAt(f, f.order[j])
    requires exit.Some? ==> exists e :: 0 <= e < |f.order| && f.order[e] == exit.value && ReturnsAt(f, exit.value)
                                        && forall j | e < j < |f.order| :: !ReturnsAt(f, f.order[j])
    ensures exit.None? ==> forall b | b in f.blocks && f.blocks[b].term.Some? :: !f.blocks[b].term.value.Ret?
    ensures exit.Some? ==> exit.value in f.blocks && f.blocks[exit.value].term.Some? && f.blocks[exit.value].term.value.Ret?
    ensures exit.Some? ==> forall k, j | 0 <= k < j < |f.order| && f.order[k] == exit.value && f.order[j] in f.blocks
                                         && f.blocks[f.order[j]].term.Some? :: !f.blocks[f.order[j]].term.value.Ret?
  {
    assert forall b | b in f.blocks && f.blocks[b].term.Some? :: f.blocks[b].term.value.Ret? <==> ReturnsAt(f, b);
    hide ReturnsAt;
    forall b | exit.None? && b in f.blocks
      ensures !ReturnsAt(f, b)
    {
      var j :| 0 <= j < |f.order| && f.order[j] == b;
    }
  }

  lemma LastIsUnique(f: Function, exit: BlockRef)
    requires Shaped(f) && exists e :: 0 <= e < |f.order| && f.order[e] == exit && ReturnsAt(f, exit)
                                     && forall j | e < j < |f.order| :: !ReturnsAt(f, f.order[j])
    ensures forall x :: IsExit(f, x) <==> x == exit
  {
  }

  lemma DistinctConcat(a: seq<BlockRef>, b: seq<BlockRef>)
    requires Distinct(a) && Distinct(b) && forall x | x in b :: x !in a
    ensures Distinct(a + b)
  {
    var c := a + b;
    forall i, j | 0 <= i < j < |c|
      ensures c[i] != c[j]
    {
      if i < |a| <= j {
        assert c[i] in a && c[j] in b;
      }
    }
  }

  lemma Shrinks(all: set<BlockRef>, was: set<BlockRef>, now: set<BlockRef>)
    requires was <= now <= all
    ensures was == now || all - now < all - was
  {
    if was != now {
      var b :| b in now && b !in was;
      assert b in all - was && b !in all - now;
    }
  }

  lemma StartState(f: Function, target: Value, first: BlockRef, exit: BlockRef)
    requires first in f.blocks && Open(f, target, first, first)
    ensures SearchState(f, target, first, exit, {first}, [first])
  {
    hide Open;
  }

  lemma VisitedInside(f: Function, target: Value, first: BlockRef, exit: BlockRef, visited: set<BlockRef>,
                      stack: seq<BlockRef>)
    requires SearchState(f, target, first, exit, visited, stack)
    ensures visited <= f.blocks.Keys
  {
  }

  lemma CurIsBlock(f: Function, target: Value, first: BlockRef, exit: BlockRef, visited: set<BlockRef>,
                   rest: seq<BlockRef>, cur: BlockRef)
    requires SearchState(f, target, first, exit, visited, rest + [cur])
    ensures cur in f.blocks && Open(f, target, first, cur) && cur in visited
  {
    hide Open;
    assert cur in rest + [cur];
  }

  lemma StackInVisited(f: Function, target: Value, first: BlockRef, exit: BlockRef, visited: set<BlockRef>,
                       rest: seq<BlockRef>, cur: BlockRef)
    requires SearchState(f, target, first, exit, visited, rest + [cur])
    ensures forall b | b in rest :: b in visited
  {
    hide Open;
    assert forall b | b in rest :: b in rest + [cur];
  }

  lemma PoppedState(f: Function, target: Value, first: BlockRef, exit: BlockRef, visited: set<BlockRef>,
                    rest: seq<BlockRef>, cur: BlockRef)
    requires SearchState(f, target, first, exit, visited, rest + [cur]) && cur in f.blocks && UsesIn(f.blocks[cur], target)
    ensures SearchState(f, target, first, exit, visited, rest)
  {
    hide Open, UsesIn;
    assert forall b | b in rest :: b in rest + [cur];
    forall b | b in visited && b !in rest
      ensures Expanded(f, target, exit, visited, b)
    {
      assert b == cur || b !in rest + [cur];
    }
  }

  lemma PushedState(f: Function, target: Value, first: BlockRef, exit: BlockRef, visited: set<BlockRef>, rest: seq<BlockRef>,
                    cur: BlockRef, visited': set<BlockRef>, stack': seq<BlockRef>, pushed: seq<BlockRef>)
    requires SearchState(f, target, first, exit, visited, rest + [cur]) && SuccsIn(f)
    requires cur in f.blocks && !UsesIn(f.blocks[cur], target) && cur != exit
    requires stack' == rest + pushed && visited' == visited + (set b | b in f.blocks[cur].Succs())
    requires forall b :: b in pushed <==> b in f.blocks[cur].Succs() && b !in visited
    ensures SearchState(f, target, first, exit, visited', stack')
  {
    hide Open, UsesIn;
    assert cur in rest + [cur];
    forall s | s in f.blocks[cur].Succs()
      ensures Open(f, target, first, s) && s in f.blocks
    {
      OpenGoesOn(f, target, first, cur, s);
    }
    forall b | b in visited' && b !in stack'
      ensures Expanded(f, target, exit, visited', b)
    {
      if b != cur {
        assert b in visited && b !in rest + [cur];
      }
    }
  }

  lemma IncomingBlocks(f: Function)
    requires WellFormed(f)
    ensures Shaped(f) && |f.order| > 0 && forall b, p, e | b in f.blocks && p in f.blocks[b].phis && e in p.incoming :: e.0 in f.blocks
  {
    IncomingInside(f);
  }

  lemma DummiesShaped(f: Function, g: Function)
    requires Shaped(f) && WithDummies(f, g)
    ensures Shaped(g) && |g.order| > 0
  {
    hide DummyFor;
  }

  // ---- dummy uses and thunk calls are put in the same blocks ----

  /** A path of the clone on which no thunk is called. */
  ghost predicate ForceFreePath(c: Function, a: BlockRef, b: BlockRef) {
    exists p :: PathFromTo(GraphOf(c), p, a, b) && forall q | q in p :: q in c.blocks && !HasForce(c.blocks[q].body)
  }

  ghost predicate HasForce(body: seq<Instr>) {
    exists i :: i in body && i.op.Force?
  }

  lemma {:induction false} ForceInWeave(body: seq<Instr>, calls: map<Id, seq<nat>>, target: Value)
    requires forall i | i in body :: !i.op.Force?
    ensures HasForce(Weave(body, calls, target)) <==> exists i :: i in body && CallsOf(calls, i.id) != []
  {
    if body != [] {
      var n := |body| - 1;
      var a, fs := Weave(body[..n], calls, target), ForcesFor(body[n].id, CallsOf(calls, body[n].id));
      assert Weave(body, calls, target) == a + fs + [ForcedInstr(body[n], target)];
      assert body[n] in body && (forall i | i in body[..n] :: i in body) && forall i | i in body :: i in body[..n] || i == body[n];
      hide Weave, HasForce, CallsOf;
      ForceInWeave(body[..n], calls, target);
      ForceInEither(a, fs);
      ForceInEither(a + fs, [ForcedInstr(body[n], target)]);
      ForcesAreForces(body[n].id, CallsOf(calls, body[n].id));
      NoForceAlone(ForcedInstr(body[n], target));
    }
  }

  lemma ForcesAreForces(id: Id, ks: seq<nat>)
    ensures HasForce(ForcesFor(id, ks)) <==> ks != []
  {
    if ks != [] {
      assert ForcesFor(id, ks)[0] in ForcesFor(id, ks);
    }
  }

  lemma NoForceAlone(i: Instr)
    ensures HasForce([i]) <==> i.op.Force?
  {
    assert i in [i];
  }

  lemma ForceInTail(tail: seq<Use>)
    ensures HasForce(TailForces(tail)) <==> tail != []
  {
    if tail != [] {
      assert TailForces(tail)[0] in TailForces(tail);
    }
  }

  lemma ForceInEither(a: seq<Instr>, b: seq<Instr>)
    ensures HasForce(a + b) <==> HasForce(a) || HasForce(b)
  {
  }

  lemma BodyUses(f: Function, target: Value, calls: map<Id, seq<nat>>, b: BlockRef)
    requires CallsExact(f, target, calls) && b in f.blocks
    ensures (exists i :: i in f.blocks[b].body && target in i.args) <==> exists i :: i in f.blocks[b].body && CallsOf(calls, i.id) != []
  {
    hide CallsOf;
    if i :| i in f.blocks[b].body && target in i.args {
      var k :| 0 <= k < |i.args| && i.args[k] == target;
      assert k in CallsOf(calls, i.id);
    }
    if i :| i in f.blocks[b].body && CallsOf(calls, i.id) != [] {
      assert CallsOf(calls, i.id)[0] in CallsOf(calls, i.id);
    }
  }

  /** The end of a block holds a thunk call if and only if its terminator uses the parameter, or a dummy use stands there. */
  lemma TailUses(f: Function, x: nat, seen: set<PhiEdge>, ds: map<BlockRef, seq<Instr>>, blocks: map<BlockRef, Block>,
                 tails: map<BlockRef, seq<Use>>, b: BlockRef)
    requires TailsExact(f, Arg(x), tails) && b in f.blocks && x < f.nargs && b.Orig?
    requires DummiesAdded(f, seen, ds, blocks) && AllEdges(f, seen) && b in ds
    ensures tails[b] != [] <==>
      (f.blocks[b].term.Some? && Arg(x) in f.blocks[b].term.value.Values()) || (exists i :: i in ds[b] && Arg(x) in i.args)
  {
    var used := f.blocks[b].term.Some? && Arg(x) in f.blocks[b].term.value.Values();
    hide DummiesAdded, TailUse, DummyFor, AllEdges;
    if tails[b] != [] {
      assert TailUse(f, Arg(x), b, tails[b][0]);
      if !used {
        var i := DummyStands(f, x, seen, ds, blocks, b, tails[b][0]);
      }
    }
    if used {
      assert TailUse(f, Arg(x), b, (TermId(b.b), 0)) by { TermIsTailUse(f, Arg(x), b); }
    }
    if i :| i in ds[b] && Arg(x) in i.args {
      var u := DummyIsUse(f, x, seen, ds, blocks, b, i);
      assert u in tails[b];
    }
  }

  lemma TermIsTailUse(f: Function, target: Value, b: BlockRef)
    requires b in f.blocks && b.Orig? && f.blocks[b].term.Some? && target in f.blocks[b].term.value.Values()
    ensures TailUse(f, target, b, (TermId(b.b), 0))
  {
  }

  /** A use that is served at the end of `b`, and is not of its terminator, is stood for by a dummy use. */
  lemma DummyStands(f: Function, x: nat, seen: set<PhiEdge>, ds: map<BlockRef, seq<Instr>>,
                    blocks: map<BlockRef, Block>, b: BlockRef, u: Use)
    returns (i: Instr)
    requires DummiesAdded(f, seen, ds, blocks) && AllEdges(f, seen) && x < f.nargs && b in f.blocks && b in ds
    requires TailUse(f, Arg(x), b, u) && !(f.blocks[b].term.Some? && Arg(x) in f.blocks[b].term.value.Values())
    ensures i in ds[b] && Arg(x) in i.args
  {
    var q, p :| q in f.blocks && p in f.blocks[q].phis && u.0 == p.id && u.1 < |p.incoming| && p.incoming[u.1] == (b, Arg(x));
    var k :| 0 <= k < |f.blocks[q].phis| && f.blocks[q].phis[k] == p;
    i := Instr(DummyId(p.id, u.1), DummyUse, [Arg(x)]);
    var e := PhiEdge(q, k, u.1);
    assert IsEdge(f, e) && DummyFor(f, e, b, i);
    hide TailUse, DummyFor;
    assert e in seen;
  }

  lemma DummyIsUse(f: Function, x: nat, seen: set<PhiEdge>, ds: map<BlockRef, seq<Instr>>,
                   blocks: map<BlockRef, Block>, b: BlockRef, i: Instr)
    returns (u: Use)
    requires DummiesAdded(f, seen, ds, blocks) && b in f.blocks && b in ds && i in ds[b] && Arg(x) in i.args
    ensures TailUse(f, Arg(x), b, u)
  {
    var e :| e in seen && DummyFor(f, e, b, i);
    hide DummiesAdded;
    var p := f.blocks[e.block].phis[e.phi];
    assert p in f.blocks[e.block].phis;
    u := (p.id, e.k);
  }

  lemma UsesAreForces(f: Function, x: nat, seen: set<PhiEdge>, ds: map<BlockRef, seq<Instr>>, blocks: map<BlockRef, Block>,
                      calls: map<Id, seq<nat>>, tails: map<BlockRef, seq<Use>>, c: Function, b: BlockRef)
    requires WellFormed(f) && IsForced(f, Arg(x), calls, tails, c) && b in f.blocks && x < f.nargs
    requires DummiesAdded(f, seen, ds, blocks) && AllEdges(f, seen)
    ensures b in blocks && b in c.blocks
    ensures UsesIn(blocks[b], Arg(x)) <==> HasForce(c.blocks[b].body)
    ensures blocks[b].Succs() == f.blocks[b].Succs() == c.blocks[b].Succs()
  {
    assert b.Orig? && f.blocks[b].term.Some?;
    NoForceBefore(f, b);
    hide WellFormed, DummyFor;
    TailUses(f, x, seen, ds, blocks, tails, b);
    BodyUses(f, Arg(x), calls, b);
    assert c.blocks[Orig(b.b)] == ForcedBlock(b.b, f.blocks[b], calls, tails[b], Arg(x));
    assert blocks[b] == f.blocks[b].(body := f.blocks[b].body + ds[b]);
    hide DummiesAdded, CallsExact, TailsExact, IsForced, IsEdge, HasForce, Weave, TailForces;
    ForceInWeave(f.blocks[b].body, calls, Arg(x));
    ForceInTail(tails[b]);
    ForceInEither(Weave(f.blocks[b].body, calls, Arg(x)), TailForces(tails[b]));
  }

  lemma NoForceBefore(f: Function, b: BlockRef)
    requires WellFormed(f) && b in f.blocks
    ensures forall i | i in f.blocks[b].body :: !i.op.Force?
  {
    assert GoodBlock(f, b.b);
  }

  lemma SameBlocks(f: Function, x: nat, g: Function, calls: map<Id, seq<nat>>, tails: map<BlockRef, seq<Use>>, c: Function)
    requires WellFormed(f) && WithDummies(f, g) && IsForced(f, Arg(x), calls, tails, c) && x < f.nargs
    ensures g.blocks.Keys == c.blocks.Keys == f.blocks.Keys && g.order == c.order == f.order
    ensures forall b | b in f.blocks :: UsesIn(g.blocks[b], Arg(x)) <==> HasForce(c.blocks[b].body)
    ensures forall b | b in f.blocks :: g.blocks[b].Succs() == f.blocks[b].Succs() == c.blocks[b].Succs()
  {
    var seen, ds :| DummiesAdded(f, seen, ds, g.blocks) && AllEdges(f, seen);
    assert g.blocks.Keys == f.blocks.Keys;
    assert c.blocks.Keys == f.blocks.Keys;
    hide WellFormed, DummiesAdded, IsForced, UsesIn, HasForce;
    forall b | b in f.blocks
      ensures (UsesIn(g.blocks[b], Arg(x)) <==> HasForce(c.blocks[b].body)) && g.blocks[b].Succs() == f.blocks[b].Succs() == c.blocks[b].Succs()
    {
      UsesAreForces(f, x, seen, ds, g.blocks, calls, tails, c, b);
    }
  }

  lemma SameGraph(f: Function, g: Function)
    requires g.blocks.Keys == f.blocks.Keys && forall b | b in f.blocks :: b in g.blocks && g.blocks[b].Succs() == f.blocks[b].Succs()
    ensures GraphOf(g) == GraphOf(f)
  {
    forall a: BlockRef, b: BlockRef
      ensures (a, b) in GraphOf(g).edges <==> (a, b) in GraphOf(f).edges
    {
      EdgeIsSucc(f, a, b);
      EdgeIsSucc(g, a, b);
    }
    SameEdges(GraphOf(g), GraphOf(f));
  }

  lemma SameEdges(g: Graph, h: Graph)
    requires g.nodes == h.nodes && forall a: BlockRef, b: BlockRef :: (a, b) in g.edges <==> (a, b) in h.edges
    ensures g == h
  {
    forall e | e in g.edges || e in h.edges
      ensures e in g.edges && e in h.edges
    {
      assert e == (e.0, e.1);
    }
  }

  /** A block uses the parameter in the analysis if and only if a thunk call is placed in it by the rewriting:
      the search finds a path exactly if the clone can return without calling the thunk. */
  lemma SearchAgreesWithRewriting(f: Function, x: nat, g: Function, calls: map<Id, seq<nat>>,
                                  tails: map<BlockRef, seq<Use>>, c: Function,
                                  exit: BlockRef)
    requires WellFormed(f) && WithDummies(f, g) && IsForced(f, Arg(x), calls, tails, c) && x < f.nargs && |f.order| > 0
    ensures g.order == c.order == f.order
    ensures FreePath(g, Arg(x), f.order[0], exit) <==> ForceFreePath(c, f.order[0], exit)
  {
    SameBlocks(f, x, g, calls, tails, c);
    hide WellFormed, WithDummies, IsForced, UsesIn, HasForce, GraphOf;
    SameGraph(f, g);
    SameGraph(f, c);
    if FreePath(g, Arg(x), f.order[0], exit) {
      var p :| PathFromTo(GraphOf(g), p, f.order[0], exit) && AllFree(g, Arg(x), p);
      assert PathFromTo(GraphOf(c), p, f.order[0], exit);
    }
    if ForceFreePath(c, f.order[0], exit) {
      var p :| PathFromTo(GraphOf(c), p, f.order[0], exit) && forall q | q in p :: q in c.blocks && !HasForce(c.blocks[q].body);
      assert PathFromTo(GraphOf(g), p, f.order[0], exit) && AllFree(g, Arg(x), p);
    }
  }

  lemma SameOrder(f: Function, x: nat, g: Function, calls: map<Id, seq<nat>>, tails: map<BlockRef, seq<Use>>, c: Function)
    requires WithDummies(f, g) && IsForced(f, Arg(x), calls, tails, c)
    ensures g.order == c.order == f.order && g.blocks.Keys == c.blocks.Keys == f.blocks.Keys
  {
    hide DummyFor, CallsExact, TailsExact, ForcedBlock, AllEdges;
  }

  lemma NoReturn(f: Function, b: BlockRef)
    requires b !in f.blocks
    ensures !ReturnsAt(f, b)
  {
  }

  lemma SameReturn(f: Function, x: nat, g: Function, calls: map<Id, seq<nat>>, tails: map<BlockRef, seq<Use>>,
                   c: Function, b: BlockRef)
    requires Shaped(f) && WithDummies(f, g) && IsForced(f, Arg(x), calls, tails, c) && b in f.blocks
    ensures ReturnsAt(g, b) <==> ReturnsAt(c, b)
  {
    SameOrder(f, x, g, calls, tails, c);
    assert ReturnsAt(g, b) <==> f.blocks[b].term.value.Ret? by {
      hide DummyFor, IsForced, AllEdges;
      var seen, ds :| DummiesAdded(f, seen, ds, g.blocks) && AllEdges(f, seen);
      assert g.blocks[b].term == f.blocks[b].term;
    }
    assert TailsExact(f, Arg(x), tails);
    TailsKeys(f, Arg(x), tails);
    hide WithDummies, CallsExact, TailsExact, Weave, ForcedPhis;
    assert b.Orig? && c.blocks[Orig(b.b)] == ForcedBlock(b.b, f.blocks[b], calls, tails[b], Arg(x));
  }

  lemma TailsKeys(f: Function, target: Value, tails: map<BlockRef, seq<Use>>)
    requires TailsExact(f, target, tails)
    ensures tails.Keys == f.blocks.Keys
  {
  }

  lemma SameExit(f: Function, x: nat, g: Function, calls: map<Id, seq<nat>>, tails: map<BlockRef, seq<Use>>,
                 c: Function, exit: BlockRef)
    requires WellFormed(f) && WithDummies(f, g) && IsForced(f, Arg(x), calls, tails, c)
    ensures IsExit(g, exit) <==> IsExit(c, exit)
  {
    hide WellFormed, WithDummies, IsForced, ReturnsAt;
    IncomingBlocks(f);
    SameOrder(f, x, g, calls, tails, c);
    forall b
      ensures ReturnsAt(g, b) <==> ReturnsAt(c, b)
    {
      if b in f.blocks {
        SameReturn(f, x, g, calls, tails, c, b);
      } else {
        NoReturn(g, b);
        NoReturn(c, b);
      }
    }
  }

  /** A parameter is promising if and only if the clone made for it can return without a thunk call. */
  lemma PromisingMeansNoCall(f: Function, x: nat, g: Function, calls: map<Id, seq<nat>>,
                             tails: map<BlockRef, seq<Use>>, c: Function)
    requires WellFormed(f) && WithDummies(f, g) && IsForced(f, Arg(x), calls, tails, c) && x < f.nargs
    ensures |f.order| > 0 && g.order == c.order == f.order
    ensures Unused(g, x) <==> exists exit :: IsExit(c, exit) && ForceFreePath(c, c.order[0], exit)
  {
    hide *;
    IncomingBlocks(f);
    SameOrder(f, x, g, calls, tails, c);
    UnusedMeans(f, g, x);
    forall exit
      ensures IsExit(g, exit) <==> IsExit(c, exit)
      ensures FreePath(g, Arg(x), f.order[0], exit) <==> ForceFreePath(c, f.order[0], exit)
    {
      SameExit(f, x, g, calls, tails, c, exit);
      SearchAgreesWithRewriting(f, x, g, calls, tails, c, exit);
    }
  }

  lemma UnusedMeans(f: Function, g: Function, x: nat)
    requires WithDummies(f, g) && |f.order| > 0 && x < f.nargs
    ensures |g.order| > 0 && (Unused(g, x) <==> exists exit :: IsExit(g, exit) && FreePath(g, Arg(x), g.order[0], exit))
  {
    hide IsExit, FreePath, DummiesAdded, AllEdges;
  }
}
