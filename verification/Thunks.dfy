/** Thunks: their layout, their initialisation and what a sequence of calls on one does. */
module Thunks {
  import opened Machine

  /** The thunk points to its function and has captured `env`. */
  ghost predicate HoldsEnv(ops: Ops, env: seq<int>, slots: seq<int>) {
    |slots| == EnvBase(ops.memo) + |env| && slots[0] == ops.fptr && slots[EnvBase(ops.memo)..] == env
  }

  /** The thunk has not kept a value yet. */
  ghost predicate Unset(ops: Ops, slots: seq<int>) {
    ops.memo ==> |slots| >= 3 && slots[2] == 0
  }

  /** The thunk has kept a value. */
  ghost predicate Kept(ops: Ops, slots: seq<int>) {
    ops.memo && |slots| >= 3 && slots[2] != 0
  }

  /** The delegate computes `v` over the memory `m` from every thunk that has captured `env` and kept no value. */
  ghost predicate Yields(ops: Ops, env: seq<int>, v: int, m: Mem) {
    forall slots | HoldsEnv(ops, env, slots) && Unset(ops, slots) :: ops.delegate(slots, m) == v
  }

  /** The function pointer and the environment are in place, and a set flag means a stored `v`. */
  ghost predicate ThunkReady(ops: Ops, env: seq<int>, v: int, slots: seq<int>) {
    HoldsEnv(ops, env, slots) && (ops.memo && slots[2] != 0 ==> slots[1] == v)
  }

  lemma InitIsReady(ops: Ops, junk: int, env: seq<int>, v: int)
    ensures ThunkReady(ops, env, v, InitSlots(ops.memo, ops.fptr, junk, env))
  {
  }

  /** A call needs the memory only if no value has been kept. */
  lemma ForceIsReady(ops: Ops, env: seq<int>, v: int, slots: seq<int>, m: Mem)
    requires ThunkReady(ops, env, v, slots) && (Kept(ops, slots) || Yields(ops, env, v, m))
    ensures ForceSlots(ops, slots, m).0 == v && ThunkReady(ops, env, v, ForceSlots(ops, slots, m).1)
    ensures ops.memo ==> Kept(ops, ForceSlots(ops, slots, m).1)
  {
    var r := ForceSlots(ops, slots, m).1;
    assert r[EnvBase(ops.memo)..] == slots[EnvBase(ops.memo)..];
  }

  /** The values of a sequence of calls, one for each memory, and the slots they leave. */
  function ForceAll(ops: Ops, slots: seq<int>, ms: seq<Mem>): (seq<int>, seq<int>)
    decreases |ms|
  {
    if ms == [] then ([], slots) else
      var (v, s1) := ForceSlots(ops, slots, ms[0]);
      var (vs, s2) := ForceAll(ops, s1, ms[1..]);
      ([v] + vs, s2)
  }

  /** How often the delegate runs in such a sequence. */
  function BodyRuns(ops: Ops, slots: seq<int>, ms: seq<Mem>): nat
    decreases |ms|
  {
    if ms == [] then 0 else
      (if ops.memo && |slots| >= 3 && slots[2] != 0 then 0 else 1) + BodyRuns(ops, ForceSlots(ops, slots, ms[0]).1, ms[1..])
  }

  /** The memories over which a sequence of calls runs the delegate: with memoisation the first, if nothing has
      been kept, else all. */
  ghost predicate AllYield(ops: Ops, env: seq<int>, v: int, slots: seq<int>, ms: seq<Mem>) {
    if ops.memo then ms == [] || Kept(ops, slots) || Yields(ops, env, v, ms[0])
    else forall m | m in ms :: Yields(ops, env, v, m)
  }

  lemma {:induction false} ForcesFromReady(ops: Ops, env: seq<int>, v: int, slots: seq<int>, ms: seq<Mem>)
    requires ThunkReady(ops, env, v, slots) && AllYield(ops, env, v, slots, ms)
    ensures var (vs, s2) := ForceAll(ops, slots, ms);
      && |vs| == |ms| && (forall x | x in vs :: x == v) && ThunkReady(ops, env, v, s2)
    ensures BodyRuns(ops, slots, ms) == if !ops.memo then |ms| else if ms == [] || slots[2] != 0 then 0 else 1
    decreases |ms|
  {
    hide Yields, ThunkReady;
    if ms != [] {
      assert ms[0] in ms && forall m | m in ms[1..] :: m in ms;
      ForceIsReady(ops, env, v, slots, ms[0]);
      ForcesFromReady(ops, env, v, ForceSlots(ops, slots, ms[0]).1, ms[1..]);
      ReadyIsLong(ops, env, v, slots);
      ReadyIsLong(ops, env, v, ForceSlots(ops, slots, ms[0]).1);
    }
  }

  /** The same, of this thunk alone. */
  ghost predicate AllReturn(ops: Ops, v: int, slots: seq<int>, ms: seq<Mem>) {
    if ops.memo then ms == [] || Kept(ops, slots) || ops.delegate(slots, ms[0]) == v
    else forall m | m in ms :: ops.delegate(slots, m) == v
  }

  /** No less would do: all calls on a ready thunk return `v` if and only if the delegate computes it over these
      memories. */
  lemma {:induction false} ForcesExact(ops: Ops, env: seq<int>, v: int, slots: seq<int>, ms: seq<Mem>)
    requires ThunkReady(ops, env, v, slots)
    ensures (forall x | x in ForceAll(ops, slots, ms).0 :: x == v) <==> AllReturn(ops, v, slots, ms)
    decreases |ms|
  {
    if ms != [] {
      ReadyIsLong(ops, env, v, slots);
      var (x, s1) := ForceSlots(ops, slots, ms[0]);
      var rest := ForceAll(ops, s1, ms[1..]).0;
      assert ForceAll(ops, slots, ms).0 == [x] + rest;
      assert ms == [ms[0]] + ms[1..];
      if x == v {
        ForceOnce(ops, env, v, slots, ms[0]);
        ForcesExact(ops, env, v, s1, ms[1..]);
        assert forall y :: y in [x] + rest <==> y == x || y in rest;
        assert forall m | m in ms :: m == ms[0] || m in ms[1..];
      } else {
        assert x in ForceAll(ops, slots, ms).0;
      }
    }
  }

  lemma ForceOnce(ops: Ops, env: seq<int>, v: int, slots: seq<int>, m: Mem)
    requires ThunkReady(ops, env, v, slots) && ForceSlots(ops, slots, m).0 == v
    ensures ThunkReady(ops, env, v, ForceSlots(ops, slots, m).1)
    ensures if ops.memo then Kept(ops, ForceSlots(ops, slots, m).1) else ForceSlots(ops, slots, m).1 == slots
  {
    var r := ForceSlots(ops, slots, m).1;
    assert r[EnvBase(ops.memo)..] == slots[EnvBase(ops.memo)..];
  }

  lemma ReadyIsLong(ops: Ops, env: seq<int>, v: int, slots: seq<int>)
    requires ThunkReady(ops, env, v, slots)
    ensures |slots| >= EnvBase(ops.memo)
  {
  }

  /** Over every sequence of calls on an initialised thunk: every call returns the value of the slice on
      the captured environment, pointer and environment stay as they are, and with memoisation the
      delegate runs once, and not at all if the thunk is never called. */
  lemma {:induction false} ThunkStateMachine(ops: Ops, junk: int, env: seq<int>, v: int, ms: seq<Mem>)
    requires AllYield(ops, env, v, InitSlots(ops.memo, ops.fptr, junk, env), ms)
    ensures var start := InitSlots(ops.memo, ops.fptr, junk, env);
      && (forall x | x in ForceAll(ops, start, ms).0 :: x == v)
      && ThunkReady(ops, env, v, ForceAll(ops, start, ms).1)
      && (ops.memo ==> BodyRuns(ops, start, ms) == if ms == [] then 0 else 1)
  {
    InitIsReady(ops, junk, env, v);
    ForcesFromReady(ops, env, v, InitSlots(ops.memo, ops.fptr, junk, env), ms);
  }

  /** A thunk in memory. */
  class Thunk {
    const memo: bool
    var slots: array<int>

    /** The memory of a thunk with `n` captured values, not initialised. */
    constructor Alloca(memo: bool, n: nat)
      ensures fresh(slots) && slots.Length == EnvBase(memo) + n && this.memo == memo
      ensures slots.Length == (if memo then 3 else 1) + n
    {
      this.memo := memo;
      slots := new int[EnvBase(memo) + n];
    }

    /** The initialisation the caller runs where the criterion is computed. */
    method Initialize(fptr: int, env: seq<int>)
      requires slots.Length == EnvBase(memo) + |env|
      modifies slots
      ensures slots[..] == InitSlots(memo, fptr, if memo then old(slots[1]) else 0, env)
      ensures slots[0] == fptr && (memo ==> slots[2] == 0 && slots[1] == old(slots[1]))
      ensures slots[if memo then 3 else 1..] == env
    {
      slots[0] := fptr;
      if memo {
        slots[2] := 0;
      }
      var base := EnvBase(memo);
      for i := 0 to |env|
        invariant slots[0] == fptr && (memo ==> slots[2] == 0 && slots[1] == old(slots[1]))
        invariant slots[base..base + i] == env[..i]
      {
        slots[base + i] := env[i];
        assert slots[base..base + i + 1] == slots[base..base + i] + [env[i]];
      }
      assert slots[..] == slots[..base] + slots[base..base + |env|];
    }

    /** A call through the thunk. */
    method Call(ops: Ops, mem: Mem) returns (v: int)
      requires ops.memo == memo && slots.Length >= EnvBase(memo)
      modifies slots
      ensures (v, slots[..]) == ForceSlots(ops, old(slots[..]), mem)
      ensures memo && old(slots[2]) != 0 ==> v == old(slots[1]) && slots[..] == old(slots[..])
      ensures !memo ==> v == ops.delegate(old(slots[..]), mem) && slots[..] == old(slots[..])
      ensures memo && old(slots[2]) == 0 ==>
        && v == ops.delegate(old(slots[..]), mem) && slots[1] == v && slots[2] == 1
        && slots[0] == old(slots[0]) && slots[3..] == old(slots[3..])
    {
      if memo {
        var memoed, flag := slots[1], slots[2];
        if flag != 0 {
          v := memoed;
        } else {
          v := ops.delegate(slots[..], mem);
          slots[2] := 1;
          slots[1] := v;
        }
      } else {
        v := ops.delegate(slots[..], mem);
      }
    }
  }
}
