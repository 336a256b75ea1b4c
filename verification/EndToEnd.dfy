/** What `lazifyCallsite` builds, run: the program it leaves does what the program it was given did. */
module EndToEnd {
  import opened Graphs
  import opened Ir
  import opened Gates
  import opened Dependences
  import opened Slices
  import opened Delegates
  import opened SliceFacts
  import opened Rerouting
  import opened Memoization
  import opened Machine
  import opened Forcing
  import opened CallByNeed
  import opened CallerSide
  import opened Lazyfication
  import opened WholeProgram
  import opened QuietRuns
  import opened Meanings
  import opened Transfer

  /** What is assumed of the caller whatever its run: definitions dominate uses, the criterion is computed at most
      once, and its slice has one outcome and covers the switches. */
  ghost predicate Amenable(f: Function, exit: BlockRef, s: Slice) {
    && WellFormed(f) && DefsDominateUses(f) && !OnCycle(GraphOf(f), s.Home()) && s.blocks <= f.blocks.Keys
    && OneOutcome(f, exit, s) && SwitchesCovered(f, s)
  }

  lemma DelegateIsGood(ops: Ops, f: Function, an: Analyses, a: Site, s: Slice, d: Function, e: Function, c: Function)
    requires Lazified(f, an, a, ops.memo, s, d, e, c) && Amenable(f, an.exit, s)
    requires |e.order| > 0 && ThunkCallMeans(ops, e)
    ensures GoodDelegate(ops, f, an.exit, an.preds, s, a, d)
  {
    hide WellFormed, DefsDominateUses, OneOutcome, SwitchesCovered, IsDelegate, OnCycle, ThunkCallMeans, Emitted,
         Flowing, ValidPreds, GatesOf, Least, BlocksOf;
    forall x: nat | Arg(x) in s.deps
      ensures x in a.envArgs && x < f.nargs
    {
      assert x in DepArgs(s.deps) && Known(f, Arg(x));
    }
  }

  lemma CallerIsGood(f: Function, an: Analyses, a: Site, memo: bool, s: Slice, d: Function, e: Function, c: Function)
    requires Lazified(f, an, a, memo, s, d, e, c) && Amenable(f, an.exit, s) && GoodSite(f, a)
    ensures GoodCaller(f, a) && |f.order| > 0
  {
    hide WellFormed, DefsDominateUses, OneOutcome, SwitchesCovered, IsDelegate, OnCycle, Emitted,
         ValidPreds, GatesOf, Least, BlocksOf, GoodSite, Rooted;
  }

  lemma CalleeIsGood(ops: Ops, k: nat, x: nat, callee: Function, clone: Function, e: Function)
    returns (calls: map<Id, seq<nat>>, tails: map<BlockRef, seq<Use>>)
    requires WellFormed(callee) && ForcedClone(callee, Arg(x), clone) && Means(ops, k, clone, e)
    ensures |callee.order| > 0 && |e.order| > 0 && ThunkCallMeans(ops, e) && GoodCallee(ops, k, x, callee, calls, tails, clone)
  {
    hide GoodBlock, GoodValue, LazyCallMeans, ThunkCallMeans, IsForced;
    var ccalls, ctails :| IsForced(callee, Arg(x), ccalls, ctails, clone);
    calls, tails := ccalls, ctails;
  }

  /** Nothing is asked of thunk calls and lazy calls that they cannot be: for everything the pass leaves behind, with
      thunks that keep their value and with such that do not, and whatever the other operations mean, there is a
      meaning for these two. */
  lemma LazifiedCanBeMeant(ops: Ops, f: Function, an: Analyses, a: Site, s: Slice, d: Function, e: Function, callee: Function,
                           k: nat, clone: Function, c: Function) returns (ops': Ops)
    requires Lazified(f, an, a, ops.memo, s, d, e, c) && Amenable(f, an.exit, s)
    requires WellFormed(callee) && ForcedClone(callee, Arg(a.index), clone)
    ensures ops' == ops.(delegate := ops'.delegate, lazy := ops'.lazy) && Means(ops', k, clone, e)
  {
    hide *;
    LazifiedStands(f, an, a, ops.memo, s, d, e, c);
    OutlinedIsDelegated(f, an.exit, an.preds, s, a.envArgs, EnvBase(ops.memo), d);
    CloneHasBlocks(callee, Arg(a.index), clone);
    ops' := MeaningsExist(ops, k, callee, a.index, clone, d, CloneOf(s.Home()), Res(s.crit));
  }

  lemma LazifiedStands(f: Function, an: Analyses, a: Site, memo: bool, s: Slice, d: Function, e: Function, c: Function)
    requires Lazified(f, an, a, memo, s, d, e, c) && Amenable(f, an.exit, s)
    ensures Standing(f, an.exit, an.preds, s) && Shaped(f) && s.blocks <= f.blocks.Keys && IsDelegate(f, s, a.envArgs, EnvBase(memo), d)
    ensures |d.order| > 0 && CloneOf(s.Home()) in d.blocks && e == Emitted(memo, d, CloneOf(s.Home()), Res(s.crit))
  {
    hide WellFormed, DefsDominateUses, OneOutcome, SwitchesCovered, IsDelegate, OnCycle, Emitted, IsSlice, Shaped, Forced, Enumerates;
  }

  lemma CloneHasBlocks(callee: Function, target: Value, clone: Function)
    requires WellFormed(callee) && ForcedClone(callee, target, clone)
    ensures |clone.order| > 0
  {
    hide GoodBlock, GoodValue, CallsExact, TailsExact, ForcedBlock;
  }

  /** For every caller, call and argument the pass lazifies, and every run of the caller that lets the thunk be called
      as late as it is: the caller the pass leaves and the caller it was given go through the same blocks with the
      same memory, and end alike with the same value. */
  lemma {:induction false} LazificationPreservesMeaning(
    ops: Ops, f: Function, an: Analyses, a: Site, s: Slice, d: Function, e: Function, callee: Function,
    clone: Function, c: Function, ef: Frame, lf: Frame, n: nat)
    requires Lazified(f, an, a, ops.memo, s, d, e, c) && GoodSite(f, a) && ForcedClone(callee, Arg(a.index), clone)
    requires Amenable(f, an.exit, s) && WellFormed(callee) && Means(ops, Callee(f, a), clone, e)
    requires ef.env == map[] && lf.env == map[] && ef.mem == lf.mem && ef.args == lf.args && |ef.args| == f.nargs
    requires |f.order| > 0 && |callee.order| > 0 && RunAllows(ops, f, s, a, callee, ef)
    ensures |c.order| > 0
    ensures SameOutcome(Run(ops, f, Running(Start(f, ef)), n), Run(ops, c, Running(Start(c, lf)), n))
  {
    hide *;
    var ccalls, ctails := CalleeIsGood(ops, Callee(f, a), a.index, callee, clone, e);
    DelegateIsGood(ops, f, an, a, s, d, e, c);
    CallerIsGood(f, an, a, ops.memo, s, d, e, c);
    var calls, tails := RewrittenSo(f, an, a, ops.memo, s, d, e, c);
    LazyProgramIsEagerProgram(ops, f, an.exit, an.preds, s, a, d, callee, ccalls, ctails, clone, calls, tails, c, ef, lf, n);
  }

  /** In particular for every run that writes no location the slice reads, in the caller or in the calls that get
      the thunk, whatever the operations do at operands the run does not have. */
  lemma {:induction false} QuietRunKeepsMeaning(
    ops: Ops, locs: set<nat>, f: Function, an: Analyses, a: Site, s: Slice, d: Function, e: Function, callee: Function,
    clone: Function, c: Function, ef: Frame, lf: Frame, n: nat)
    requires Lazified(f, an, a, ops.memo, s, d, e, c) && GoodSite(f, a) && ForcedClone(callee, Arg(a.index), clone)
    requires Amenable(f, an.exit, s) && WellFormed(callee) && Means(ops, Callee(f, a), clone, e)
    requires ef.env == map[] && lf.env == map[] && ef.mem == lf.mem && ef.args == lf.args && |ef.args| == f.nargs
    requires |f.order| > 0 && |callee.order| > 0 && QuietRun(ops, locs, f, s, a, callee, Start(f, ef))
    ensures |c.order| > 0
    ensures SameOutcome(Run(ops, f, Running(Start(f, ef)), n), Run(ops, c, Running(Start(c, lf)), n))
  {
    hide *;
    CallerIsGood(f, an, a, ops.memo, s, d, e, c);
    QuietRunAllows(ops, locs, f, s, a, callee, ef);
    LazificationPreservesMeaning(ops, f, an, a, s, d, e, callee, clone, c, ef, lf, n);
  }

  /** Nothing left to assume of thunk calls and lazy calls: whatever the ordinary operations mean, for everything the
      pass leaves behind and every run that allows it there is a meaning for these two, that of the functions behind
      them, with which the caller it leaves does what the caller it was given did. */
  lemma {:induction false} LazificationIsSound(
    ops: Ops, f: Function, an: Analyses, a: Site, s: Slice, d: Function, e: Function, callee: Function,
    clone: Function, c: Function, ef: Frame) returns (ops': Ops)
    requires Lazified(f, an, a, ops.memo, s, d, e, c) && GoodSite(f, a) && ForcedClone(callee, Arg(a.index), clone)
    requires Amenable(f, an.exit, s) && WellFormed(callee) && ef.env == map[] && |ef.args| == f.nargs
    requires |f.order| > 0 && |callee.order| > 0 && RunAllows(ops, f, s, a, callee, ef)
    ensures ops' == ops.(delegate := ops'.delegate, lazy := ops'.lazy) && Means(ops', Callee(f, a), clone, e)
    ensures |c.order| > 0 && forall slots, n: nat ::
      SameOutcome(Run(ops, f, Running(Start(f, ef)), n), Run(ops', c, Running(Start(c, ef.(slots := slots))), n))
  {
    hide *;
    ops' := LazifiedCanBeMeant(ops, f, an, a, s, d, e, callee, Callee(f, a), clone, c);
    AlikeThen(ops, ops');
    AmenableIsWellFormed(f, an.exit, s);
    WellFormedIsOrdinary(f);
    SameAllows(ops, ops', f, s, a, callee, ef);
    LazificationPreservesMeaning(ops', f, an, a, s, d, e, callee, clone, c, ef, ef, 0);
    forall slots, n: nat
      ensures SameOutcome(Run(ops, f, Running(Start(f, ef)), n), Run(ops', c, Running(Start(c, ef.(slots := slots))), n))
    {
      SameRuns(ops, ops', f, Running(Start(f, ef)), n);
      LazificationPreservesMeaning(ops', f, an, a, s, d, e, callee, clone, c, ef, ef.(slots := slots), n);
    }
  }

  lemma AlikeThen(ops: Ops, ops': Ops)
    requires ops' == ops.(delegate := ops'.delegate, lazy := ops'.lazy)
    ensures Alike(ops, ops', false)
  {
  }

  lemma AmenableIsWellFormed(f: Function, exit: BlockRef, s: Slice)
    requires Amenable(f, exit, s)
    ensures WellFormed(f)
  {
    hide WellFormed, DefsDominateUses, OneOutcome, SwitchesCovered, OnCycle;
  }

  /** Who calls the caller need not know: a call of it that finished finishes with the same value and memory. */
  lemma {:induction false} StillCalled(
    ops: Ops, f: Function, an: Analyses, a: Site, s: Slice, d: Function, e: Function, callee: Function,
    clone: Function, c: Function, j: nat, vs: seq<int>, m: Mem, slots: seq<int>)
    requires Lazified(f, an, a, ops.memo, s, d, e, c) && GoodSite(f, a) && ForcedClone(callee, Arg(a.index), clone)
    requires Amenable(f, an.exit, s) && WellFormed(callee) && Means(ops, Callee(f, a), clone, e) && |vs| == f.nargs
    requires |f.order| > 0 && |callee.order| > 0 && RunAllows(ops, f, s, a, callee, Fresh(vs, m, []))
    requires CallRuns(ops, j, f, vs, m)
    ensures |c.order| > 0 && exists n: nat ::
      RunIs(Run(ops, c, Running(Start(c, Fresh(vs, m, slots))), n), ops.value(j, vs, m), ops.effect(j, vs, m))
  {
    hide *;
    hide Run;
    var n := CallEnds(ops, j, f, vs, m);
    FreshFrames(vs, m, slots);
    LazificationPreservesMeaning(ops, f, an, a, s, d, e, callee, clone, c, Fresh(vs, m, []), Fresh(vs, m, slots), n);
    EndsAlike(Run(ops, f, Running(Start(f, Fresh(vs, m, []))), n), Run(ops, c, Running(Start(c, Fresh(vs, m, slots))), n),
              ops.value(j, vs, m), ops.effect(j, vs, m));
  }

  lemma CallEnds(ops: Ops, j: nat, f: Function, vs: seq<int>, m: Mem) returns (n: nat)
    requires |f.order| > 0 && CallRuns(ops, j, f, vs, m)
    ensures RunIs(Run(ops, f, Running(Start(f, Fresh(vs, m, []))), n), ops.value(j, vs, m), ops.effect(j, vs, m))
  {
    hide Run, RunIs, Start;
    n :| RunIs(Run(ops, f, Running(Start(f, Fresh(vs, m, []))), n), ops.value(j, vs, m), ops.effect(j, vs, m));
  }

  lemma FreshFrames(vs: seq<int>, m: Mem, slots: seq<int>)
    ensures var ef, lf := Fresh(vs, m, []), Fresh(vs, m, slots);
      ef.env == map[] && lf.env == map[] && ef.mem == lf.mem && ef.args == lf.args == vs
  {
  }

  lemma EndsAlike(oe: Outcome, ol: Outcome, v: int, m: Mem)
    requires SameOutcome(oe, ol) && RunIs(oe, v, m)
    ensures RunIs(ol, v, m)
  {
  }

  lemma RewrittenSo(f: Function, an: Analyses, a: Site, memo: bool, s: Slice, d: Function, e: Function, c: Function)
    returns (calls: map<Id, seq<nat>>, tails: map<BlockRef, seq<Use>>)
    requires Lazified(f, an, a, memo, s, d, e, c)
    ensures Forced(f, a, calls, tails, c)
  {
    hide IsSlice, Enumerates, Shaped, IsDelegate, Emitted, Forced;
    var k, t :| Forced(f, a, k, t, c);
    calls, tails := k, t;
  }
}
