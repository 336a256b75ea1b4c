/** Where the caller initialises the thunk and passes it on, said of the instructions themselves. */
module ThunkPassing {
  import opened Graphs
  import opened Ir
  import opened CallerSide
  import opened Lazyfication

  /** The thunk is initialised directly in front of the criterion, or behind the phis if that is one of them, with the
      parameters in the slice as its environment. */
  lemma InitStandsThere(f: Function, a: Site)
    requires WellFormed(f) && GoodSite(f, a)
    ensures Parent(a.crit) in f.blocks && Parent(a.crit) in WithThunk(f, a).blocks
    ensures var was, now := f.blocks[Parent(a.crit)].body, WithThunk(f, a).blocks[Parent(a.crit)].body;
      && |now| == |was| + 1
      && (a.crit.PhiId? ==> now[0].op == InitThunk && now[0].args == ArgValues(a.envArgs))
      && (a.crit.BodyId? ==> a.crit.k + 1 < |now| && now[a.crit.k + 1].id == a.crit
                             && now[a.crit.k].op == InitThunk && now[a.crit.k].args == ArgValues(a.envArgs))
    ensures |ArgValues(a.envArgs)| == |a.envArgs| && forall j | 0 <= j < |a.envArgs| :: ArgValues(a.envArgs)[j] == Arg(a.envArgs[j])
  {
    NamesHere(f, Parent(a.crit)) by { CritKinds(f, a); }
    CritKinds(f, a);
    LazyBlocks(f, a, Parent(a.crit));
    hide WellFormed, WithThunk, Operands, PassThunk;
    PassedNames(Parent(a.crit), f.blocks[Parent(a.crit)].body, a);
  }

  /** Every other instruction stays, and in its order; the call is directed to the clone, its argument `index` now the
      thunk and its other arguments what they were. */
  lemma InstructionsStay(f: Function, a: Site, b: BlockRef, k: nat)
    requires WellFormed(f) && GoodSite(f, a) && b in f.blocks && k < |f.blocks[b].body|
    ensures b in WithThunk(f, a).blocks && WithThunk(f, a).nargs == f.nargs && WithThunk(f, a).order == f.order
    ensures WithThunk(f, a).blocks[b].phis == f.blocks[b].phis && WithThunk(f, a).blocks[b].term == f.blocks[b].term
    ensures var i, now := f.blocks[b].body[k], WithThunk(f, a).blocks[b].body;
      var place := if b == Parent(a.crit) && (a.crit.PhiId? || k >= a.crit.k) then k + 1 else k;
      && |now| == |f.blocks[b].body| + (if b == Parent(a.crit) then 1 else 0)
      && place < |now| && now[place].id == i.id
      && (i.id != a.call ==> now[place] == i)
      && (i.id == a.call ==> && i.op.Fn? && now[place].op == LazyCall(i.op.f, a.index) && |now[place].args| == |i.args|
                             && forall j | 0 <= j < |i.args| && j != a.index :: now[place].args[j] == i.args[j])
  {
    CritKinds(f, a);
    LazyBlocks(f, a, b);
    NamesHere(f, b);
    assert f.blocks[b].body[k].op.Fn? by { assert GoodBlock(f, b.b); }
    assert f.blocks[b].body[k].id == a.call ==> f.blocks[b].body[k].args == Operands(f, a.call);
    hide WellFormed, WithThunk, Operands;
    PassedAt(f.blocks[b].body, a, b == Parent(a.crit), k);
  }

  lemma PassedAt(body: seq<Instr>, a: Site, here: bool, k: nat)
    requires k < |body| && (here ==> InitPos(a) <= |body|)
    ensures |LazyBody(body, a, here)| == |body| + (if here then 1 else 0)
    ensures LazyBody(body, a, here)[if here && k >= InitPos(a) then k + 1 else k] == PassThunk(body[k], a)
  {
    hide PassThunk;
  }
}
