/** The profiling runtime: a shadow call stack, and counters kept for every call site. */
module Profile {
  // ---- the state of the runtime ----

  /** The function that makes a call, and the number of the call in it. */
  datatype SiteId = SiteId(fun: string, call: int)

  datatype Report = Report(numCalls: int, numArgs: nat, unique: seq<int>, total: seq<int>)

  function NewReport(numArgs: nat): Report {
    Report(1, numArgs, seq(numArgs, _ => 0), seq(numArgs, _ => 0))
  }

  datatype Prof = Prof(initialized: bool, profile: map<SiteId, Report>, stack: seq<SiteId>)

  const PreMain := SiteId("__wyinstr_pre_main", 0)

  function Shift(i: nat): bv32
    requires i < 32
  {
    1 << i
  }

  /** From 32 to 64 bits, with the sign. */
  function Widen(x: bv32): bv64 {
    if x < 0x8000_0000 then x as bv64 else (x as bv64) | 0xFFFF_FFFF_0000_0000
  }

  /** `1 << i` is a 32-bit shift, widened with its sign. */
  function Mask(i: nat): bv64
    requires i < 32
  {
    Widen(Shift(i))
  }

  function And(x: bv64, y: bv64): bv64 {
    x & y
  }

  function Or(x: bv64, y: bv64): bv64 {
    x | y
  }

  predicate HasBit(bits: bv64, i: nat)
    requires i < 32
  {
    And(bits, Mask(i)) != 0
  }

  function WithBit(bits: bv64, i: nat): bv64
    requires i < 32
  {
    Or(bits, Mask(i))
  }

  function InitProf(p: Prof): Prof {
    Prof(true, if PreMain in p.profile then p.profile else p.profile[PreMain := NewReport(2)], p.stack + [PreMain])
  }

  function InitCall(p: Prof, id: SiteId, numArgs: nat): Prof {
    if !p.initialized then p else
      var r := if id in p.profile then p.profile[id] else NewReport(numArgs);
      p.(profile := p.profile[id := r.(numCalls := r.numCalls + 1)], stack := p.stack + [id])
  }

  /** The runtime may be asked to count argument `i` for the call on top of the stack. */
  predicate CanMark(p: Prof, i: nat) {
    && i < 32 && p.stack != []
    && var top := p.stack[|p.stack| - 1];
      top in p.profile && i < |p.profile[top].unique| && i < |p.profile[top].total|
  }

  function MarkEval(p: Prof, i: nat, bits: bv64): (Prof, bv64)
    requires p.initialized ==> CanMark(p, i)
  {
    if !p.initialized then (p, bits) else
      var top := p.stack[|p.stack| - 1];
      var r := p.profile[top];
      var r' := r.(total := r.total[i := r.total[i] + 1]);
      if !HasBit(bits, i) then
        (p.(profile := p.profile[top := r'.(unique := r.unique[i := r.unique[i] + 1])]), WithBit(bits, i))
      else (p.(profile := p.profile[top := r']), bits)
  }

  function EndCall(p: Prof): Prof
    requires p.initialized ==> p.stack != []
  {
    if !p.initialized then p else p.(stack := p.stack[..|p.stack| - 1])
  }

  class Runtime {
    var initialized: bool
    var profileInfo: map<SiteId, Report>
    var callStack: seq<SiteId>

    ghost function Now(): Prof
      reads this
    {
      Prof(initialized, profileInfo, callStack)
    }

    constructor ()
      ensures Now() == Prof(false, map[], [])
    {
      initialized, profileInfo, callStack := false, map[], [];
    }

    method Init()
      modifies this
      ensures Now() == InitProf(old(Now()))
      ensures initialized && callStack == old(callStack) + [SiteId("__wyinstr_pre_main", 0)]
      ensures var main := SiteId("__wyinstr_pre_main", 0);
        profileInfo == if main in old(profileInfo) then old(profileInfo) else old(profileInfo)[main := Report(1, 2, [0, 0], [0, 0])]
    {
      assert NewReport(2).unique == [0, 0] && NewReport(2).total == [0, 0];
      initialized := true;
      if PreMain !in profileInfo {
        profileInfo := profileInfo[PreMain := NewReport(2)];
      }
      callStack := callStack + [PreMain];
    }

    method Call(id: SiteId, numArgs: nat)
      modifies this
      ensures Now() == InitCall(old(Now()), id, numArgs)
      ensures !old(initialized) ==> !initialized && profileInfo == old(profileInfo) && callStack == old(callStack)
      ensures old(initialized) ==> initialized && callStack == old(callStack) + [id]
      ensures old(initialized) ==> profileInfo == old(profileInfo)[id := profileInfo[id]]
      ensures old(initialized) && id in old(profileInfo) ==>
        profileInfo[id] == old(profileInfo)[id].(numCalls := old(profileInfo)[id].numCalls + 1)
      ensures old(initialized) && id !in old(profileInfo) ==>
        && var r := profileInfo[id];
        && r.numCalls == 2 && r.numArgs == |r.unique| == |r.total| == numArgs
        && forall i | 0 <= i < numArgs :: r.unique[i] == r.total[i] == 0
    {
      if !initialized {
        return;
      }
      if id !in profileInfo {
        profileInfo := profileInfo[id := NewReport(numArgs)];
      }
      var report := profileInfo[id];
      profileInfo := profileInfo[id := report.(numCalls := report.numCalls + 1)];
      callStack := callStack + [id];
    }

    /** `bits` is the word of the function that evaluates its argument. */
    method Mark(i: nat, bits: bv64) returns (bits': bv64)
      requires initialized ==> CanMark(Now(), i)
      modifies this
      ensures (Now(), bits') == MarkEval(old(Now()), i, bits)
      ensures initialized == old(initialized) && callStack == old(callStack) && profileInfo.Keys == old(profileInfo).Keys
      ensures !old(initialized) ==> profileInfo == old(profileInfo) && bits' == bits
      ensures old(initialized) ==>
        && var top := callStack[|callStack| - 1]; var r, r' := old(profileInfo)[top], profileInfo[top];
        && profileInfo == old(profileInfo)[top := r'] && r'.numCalls == r.numCalls && r'.numArgs == r.numArgs
        && r'.total == r.total[i := r.total[i] + 1]
        && (HasBit(bits, i) ==> r'.unique == r.unique && bits' == bits)
        && (!HasBit(bits, i) ==> r'.unique == r.unique[i := r.unique[i] + 1] && bits' == WithBit(bits, i))
    {
      bits' := bits;
      if !initialized {
        return;
      }
      var id := callStack[|callStack| - 1];
      var report := profileInfo[id];
      hide HasBit, WithBit;
      if !HasBit(bits, i) {
        bits' := WithBit(bits, i);
        report := report.(unique := report.unique[i := report.unique[i] + 1]);
      }
      report := report.(total := report.total[i := report.total[i] + 1]);
      profileInfo := profileInfo[id := report];
    }

    method End()
      requires initialized ==> callStack != []
      modifies this
      ensures Now() == EndCall(old(Now()))
      ensures initialized == old(initialized) && profileInfo == old(profileInfo)
      ensures callStack == if old(initialized) then old(callStack)[..|old(callStack)| - 1] else old(callStack)
    {
      if !initialized {
        return;
      }
      callStack := callStack[..|callStack| - 1];
    }
  }

  // ---- words ----

  lemma Doubles(i: nat)
    requires i < 31
    ensures Shift(i + 1) == Shift(i) << 1
  {
    match i
    case 0 => case 1 => case 2 => case 3 => case 4 => case 5 => case 6 => case 7 =>
    case 8 => case 9 => case 10 => case 11 => case 12 => case 13 => case 14 => case 15 =>
    case 16 => case 17 => case 18 => case 19 => case 20 => case 21 => case 22 => case 23 =>
    case 24 => case 25 => case 26 => case 27 => case 28 => case 29 => case _ =>
  }

  lemma OneIsOdd(x: bv32)
    ensures 1 & (x << 1) == 0
  {
  }

  lemma DoubledApart(x: bv32, y: bv32)
    requires x & y == 0
    ensures (x << 1) & (y << 1) == 0
  {
  }

  lemma {:induction false} ShiftsApart(i: nat, j: nat)
    requires i < j < 32
    ensures Shift(i) & Shift(j) == 0
  {
    Doubles(j - 1);
    if i > 0 {
      ShiftsApart(i - 1, j - 1);
      Doubles(i - 1);
      DoubledApart(Shift(i - 1), Shift(j - 1));
    } else {
      assert Shift(0) == 1;
      OneIsOdd(Shift(j - 1));
    }
  }

  lemma {:induction false} ShiftNotZero(i: nat)
    requires i < 32
    ensures Shift(i) != 0
    decreases 32 - i
  {
    if i < 31 {
      ShiftNotZero(i + 1);
      Doubles(i);
    }
  }

  /** Two integers without a common bit are not both negative. */
  lemma OneIsPositive(x: bv32, y: bv32)
    requires x & y == 0
    ensures x < 0x8000_0000 || y < 0x8000_0000
  {
  }

  lemma PositiveApart(x: bv32, y: bv32)
    requires x & y == 0
    ensures And(x as bv64, y as bv64) == 0
  {
  }

  lemma NegativeApart(x: bv32, y: bv32)
    requires x & y == 0 && x < 0x8000_0000
    ensures And(x as bv64, (y as bv64) | 0xFFFF_FFFF_0000_0000) == 0
  {
  }

  lemma AndCommutes(x: bv64, y: bv64)
    ensures And(x, y) == And(y, x)
  {
  }

  lemma WidenApart(x: bv32, y: bv32)
    requires x & y == 0
    ensures And(Widen(x), Widen(y)) == 0
  {
    hide And;
    OneIsPositive(x, y);
    PositiveApart(x, y);
    if x < 0x8000_0000 {
      NegativeApart(x, y);
    } else {
      MeetsCommute(x, y);
      NegativeApart(y, x);
      AndCommutes(Widen(x), Widen(y));
    }
  }

  lemma MeetsCommute(x: bv32, y: bv32)
    ensures x & y == y & x
  {
  }

  lemma WidenNotZero(x: bv32)
    requires x != 0
    ensures And(Widen(x), Widen(x)) != 0
  {
  }

  /** The mask of an argument is its power of two, but for argument 31 it is the sign and all 32 bits above it. */
  lemma MaskIs(i: nat)
    requires i < 32
    ensures Mask(i) == if i < 31 then 1 << i else 0xFFFF_FFFF_8000_0000
  {
    match i
    case 0 => case 1 => case 2 => case 3 => case 4 => case 5 => case 6 => case 7 =>
    case 8 => case 9 => case 10 => case 11 => case 12 => case 13 => case 14 => case 15 =>
    case 16 => case 17 => case 18 => case 19 => case 20 => case 21 => case 22 => case 23 =>
    case 24 => case 25 => case 26 => case 27 => case 28 => case 29 => case 30 => case _ =>
  }

  lemma MasksApart(i: nat, j: nat)
    requires i < 32 && j < 32
    ensures And(Mask(i), Mask(j)) == 0 <==> i != j
  {
    hide Shift, Widen, And;
    ShiftNotZero(i);
    if i < j {
      ShiftsApart(i, j);
      WidenApart(Shift(i), Shift(j));
    } else if j < i {
      ShiftsApart(j, i);
      WidenApart(Shift(j), Shift(i));
      AndCommutes(Mask(i), Mask(j));
    } else {
      WidenNotZero(Shift(i));
    }
  }

  lemma NoBits(i: nat)
    requires i < 32
    ensures !HasBit(0, i)
  {
    hide Mask;
  }

  lemma NoneMeets(b: bv64, x: bv64, y: bv64)
    ensures And(b, y) == 0 && And(x, y) == 0 ==> And(Or(b, x), y) == 0
  {
  }

  lemma FirstMeets(b: bv64, x: bv64, y: bv64)
    ensures And(Or(b, x), y) == 0 ==> And(b, y) == 0
  {
  }

  lemma SecondMeets(b: bv64, x: bv64, y: bv64)
    ensures And(Or(b, x), y) == 0 ==> And(x, y) == 0
  {
  }

  /** Setting a bit sets no other: also for argument 31, whose mask is the sign of a 32-bit integer. */
  lemma SetsOneBit(b: bv64, i: nat, j: nat)
    requires i < 32 && j < 32
    ensures HasBit(WithBit(b, i), j) <==> i == j || HasBit(b, j)
  {
    hide Mask, And, Or;
    MasksApart(i, j);
    NoneMeets(b, Mask(i), Mask(j));
    FirstMeets(b, Mask(i), Mask(j));
    SecondMeets(b, Mask(i), Mask(j));
  }
}
