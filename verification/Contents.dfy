/** What the blocks of a delegate hold, said of the instructions themselves. */
module Contents {
  import opened Graphs
  import opened Ir
  import opened Slices
  import opened Delegates
  import opened Outliner
  import opened Rerouting
  import opened Terminators

  // ---- which instructions are kept ----

  /** Of two stretches of code the sliced instructions of the first are kept, then those of the second. */
  lemma {:induction false} KeptInOrder(xs: seq<Instr>, ys: seq<Instr>, deps: set<Value>)
    ensures KeepBody(xs + ys, deps) == KeepBody(xs, deps) + KeepBody(ys, deps)
  {
    if ys == [] {
      assert xs + ys == xs;
    } else {
      var n := |ys| - 1;
      assert (xs + ys)[..|xs| + n] == xs + ys[..n];
      hide KeepBody;
      KeptInOrder(xs, ys[..n], deps);
      KeepOneInstr(xs + ys, deps, |xs| + n);
      KeepOneInstr(ys, deps, n);
      assert (xs + ys)[..|xs| + n + 1] == xs + ys && ys[..n + 1] == ys;
    }
  }

  /** A single instruction is kept exactly if it is sliced. */
  lemma {:induction false} KeptIfSliced(i: Instr, deps: set<Value>)
    ensures KeepBody([i], deps) == if Res(i.id) in deps then [i] else []
  {
    assert [i][..0] == [];
  }

  lemma {:induction false} PhisKeptInOrder(xs: seq<Phi>, ys: seq<Phi>, deps: set<Value>)
    ensures KeepPhis(xs + ys, deps) == KeepPhis(xs, deps) + KeepPhis(ys, deps)
  {
    if ys == [] {
      assert xs + ys == xs;
    } else {
      var n := |ys| - 1;
      assert (xs + ys)[..|xs| + n] == xs + ys[..n];
      hide KeepPhis;
      PhisKeptInOrder(xs, ys[..n], deps);
      KeepOnePhi(xs + ys, deps, |xs| + n);
      KeepOnePhi(ys, deps, n);
      assert (xs + ys)[..|xs| + n + 1] == xs + ys && ys[..n + 1] == ys;
    }
  }

  lemma {:induction false} PhiKeptIfSliced(p: Phi, deps: set<Value>)
    ensures KeepPhis([p], deps) == if Res(p.id) in deps then [p] else []
  {
    assert [p][..0] == [];
  }

  // ---- what they read ----

  /** The `k`-th parameter of the slice is read from slot `base + k`; nothing else is touched. */
  lemma ParameterSlot(args: seq<nat>, base: nat, v: Value)
    requires Distinct(args)
    ensures forall k | 0 <= k < |args| && v == Arg(args[k]) :: LoadValue(v, args, base) == Field(base + k)
    ensures (forall k | 0 <= k < |args| :: v != Arg(args[k])) ==> LoadValue(v, args, base) == v
  {
    if v.Arg? && v.a in args {
      var i := IndexIn(args, v.a);
      assert args[i] == v.a;
    }
  }

  /** `w` is what stands in the delegate for the operand `v`. */
  ghost predicate StandsFor(args: seq<nat>, base: nat, v: Value, w: Value) {
    && (forall k | 0 <= k < |args| && v == Arg(args[k]) :: w == Field(base + k))
    && ((forall k | 0 <= k < |args| :: v != Arg(args[k])) ==> w == v)
  }

  lemma SlotsStand(args: seq<nat>, base: nat)
    requires Distinct(args)
    ensures forall v :: StandsFor(args, base, v, LoadValue(v, args, base))
  {
    forall v
      ensures StandsFor(args, base, v, LoadValue(v, args, base))
    {
      ParameterSlot(args, base, v);
    }
  }

  /** The clone of a block holds its sliced instructions, with the same names and operations, in order. */
  lemma CloneHoldsBody(f: Function, s: Slice, args: seq<nat>, base: nat, bs: map<BlockRef, Block>, b: BlockRef)
    requires Shaped(f) && s.blocks <= f.blocks.Keys && IsBuilt(f, s, args, base, bs) && b in s.blocks && Distinct(args)
    ensures CloneOf(b) in bs
    ensures var kept, body := KeepBody(f.blocks[b].body, s.deps), bs[CloneOf(b)].body;
      && |body| == |kept|
      && forall i | 0 <= i < |kept| ::
           && body[i].id == kept[i].id && body[i].op == kept[i].op && |body[i].args| == |kept[i].args|
           && forall j | 0 <= j < |kept[i].args| :: StandsFor(args, base, kept[i].args[j], body[i].args[j])
  {
    hide *;
    CloneIsBuilt(f, s, args, base, bs, b);
    var t := CloneForm(f, s, args, base, b, bs[CloneOf(b)]);
    ClonedParts(f, s, b, t, args, base);
    SlotsStand(args, base);
    LoadedBody(KeepBody(f.blocks[b].body, s.deps), args, base);
  }

  lemma ClonedParts(f: Function, s: Slice, b: BlockRef, t: Option<Term>, args: seq<nat>, base: nat)
    requires b in f.blocks
    ensures var blk := LoadBlock(ClonedBlock(f, s, b).(term := t), args, base);
      && blk.body == LoadBody(KeepBody(f.blocks[b].body, s.deps), args, base)
      && blk.phis == LoadPhis(ClonePhis(KeepPhis(f.blocks[b].phis, s.deps), s.blocks), args, base)
  {
    hide LoadBody, LoadPhis, ClonePhis, KeepBody, KeepPhis;
  }

  lemma LoadedBody(body: seq<Instr>, args: seq<nat>, base: nat)
    ensures forall i | 0 <= i < |body| ::
      var y := LoadBody(body, args, base)[i];
      && y.id == body[i].id && y.op == body[i].op && |y.args| == |body[i].args|
      && forall j | 0 <= j < |y.args| :: y.args[j] == LoadValue(body[i].args[j], args, base)
  {
    hide LoadValue;
  }

  /** The clone of a block holds its sliced phis; each takes the same values, from the clones of the same blocks. */
  lemma CloneHoldsPhis(f: Function, s: Slice, args: seq<nat>, base: nat, bs: map<BlockRef, Block>, b: BlockRef)
    requires Shaped(f) && s.blocks <= f.blocks.Keys && IsBuilt(f, s, args, base, bs) && b in s.blocks && Distinct(args)
    ensures CloneOf(b) in bs
    ensures var kept, phis := KeepPhis(f.blocks[b].phis, s.deps), bs[CloneOf(b)].phis;
      && |phis| == |kept|
      && forall i | 0 <= i < |kept| ::
           && phis[i].id == kept[i].id && |phis[i].incoming| == |kept[i].incoming|
           && forall j | 0 <= j < |kept[i].incoming| ::
                && phis[i].incoming[j].0 == (if kept[i].incoming[j].0 in s.blocks then CloneOf(kept[i].incoming[j].0) else kept[i].incoming[j].0)
                && StandsFor(args, base, kept[i].incoming[j].1, phis[i].incoming[j].1)
  {
    hide *;
    CloneIsBuilt(f, s, args, base, bs, b);
    var t := CloneForm(f, s, args, base, b, bs[CloneOf(b)]);
    ClonedParts(f, s, b, t, args, base);
    SlotsStand(args, base);
    LoadedPhis(KeepPhis(f.blocks[b].phis, s.deps), s.blocks, args, base);
  }

  lemma LoadedPhis(phis: seq<Phi>, bbs: set<BlockRef>, args: seq<nat>, base: nat)
    ensures forall i | 0 <= i < |phis| ::
      var y := LoadPhis(ClonePhis(phis, bbs), args, base)[i];
      && y.id == phis[i].id && |y.incoming| == |phis[i].incoming|
      && forall j | 0 <= j < |y.incoming| ::
           && y.incoming[j].0 == (if phis[i].incoming[j].0 in bbs then CloneOf(phis[i].incoming[j].0) else phis[i].incoming[j].0)
           && y.incoming[j].1 == LoadValue(phis[i].incoming[j].1, args, base)
  {
    hide LoadValue, CloneOf;
  }

  /** A sliced terminator decides by what its condition is in the delegate, and a switch by the same labels. */
  lemma CloneHoldsTest(f: Function, s: Slice, args: seq<nat>, base: nat, bs: map<BlockRef, Block>, b: nat)
    requires Shaped(f) && s.blocks <= f.blocks.Keys && IsBuilt(f, s, args, base, bs) && Distinct(args)
    requires Orig(b) in s.blocks && Orig(b) != s.Home() && Res(TermId(b)) in s.deps
    ensures CloneOf(Orig(b)) in bs && f.blocks[Orig(b)].term.Some? && bs[CloneOf(Orig(b))].term.Some?
    ensures var t, t' := f.blocks[Orig(b)].term.value, bs[CloneOf(Orig(b))].term.value;
      && (t.CondBr? ==> t'.CondBr? && StandsFor(args, base, t.cond, t'.cond))
      && (t.Switch? ==> t'.Switch? && StandsFor(args, base, t.cond, t'.cond) && t'.labels == t.labels)
      && (t.Ret? ==> t'.Ret? && StandsFor(args, base, t.value, t'.value))
  {
    hide *;
    CloneIsBuilt(f, s, args, base, bs, Orig(b));
    SliceEnds(s, Orig(b));
    var t := CloneForm(f, s, args, base, Orig(b), bs[CloneOf(Orig(b))]);
    EndsReroutes(f, s, Orig(b), t);
    SlotsStand(args, base);
    SameTest(f.blocks[Orig(b)].term.value, TargetsOf(s.attractors, f.blocks[Orig(b)].Succs()), args, base) by { BlockEnds(f.blocks[Orig(b)]); }
    TermLoads(ClonedBlock(f, s, Orig(b)).(term := t), args, base);
  }

  lemma TermLoads(b: Block, args: seq<nat>, base: nat)
    requires b.term.Some?
    ensures LoadBlock(b, args, base).term == Some(LoadTerm(b.term.value, args, base))
  {
    hide LoadPhis, LoadBody, LoadTerm;
  }

  lemma SameTest(t: Term, ss: seq<BlockRef>, args: seq<nat>, base: nat)
    requires |ss| == |t.Succs()|
    ensures var t' := LoadTerm(t.WithSuccs(ss), args, base);
      && (t.CondBr? ==> t'.CondBr? && t'.cond == LoadValue(t.cond, args, base))
      && (t.Switch? ==> t'.Switch? && t'.cond == LoadValue(t.cond, args, base) && t'.labels == t.labels)
      && (t.Ret? ==> t'.Ret? && t'.value == LoadValue(t.value, args, base))
  {
    hide LoadValue;
  }
}
