/** Where a profile comes from and where it goes: the ids instrumented call sites report, and the calls
    the profile is attached to when it is read back. */
module Instrumentation {
  import opened Ir
  import opened Profile
  import opened CallTrees
  import opened ProfileFile
  import opened RoundTrip

  /** The function a call names, if it names one. */
  datatype Callee = Callee(name: string, declaration: bool, intrinsic: bool)

  /** An instruction: a call, through a pointer if it names no function; the report of a call; or anything else. */
  datatype Inst = Other | CallSite(callee: Option<Callee>, nargs: nat) | InitCall(id: SiteId, nargs: nat)
  {
    /** Calls of functions without a body, of the runtime and of intrinsics are not reported. */
    predicate Skipped()
      requires CallSite?
    {
      callee.Some? && (callee.value.declaration || Contains(callee.value.name, "_wyinstr_") || callee.value.intrinsic)
    }

    predicate Reported() { CallSite? && !Skipped() }
  }

  predicate Contains(s: string, t: string) {
    exists i :: 0 <= i <= |s| && t <= s[i..]
  }

  /** The offset of every instruction from the beginning of its function. */
  method ComputeInstrIDs(body: seq<Inst>) returns (ids: map<nat, int>)
    ensures forall k: nat | k < |body| :: k in ids && ids[k] == k
  {
    ids := map[];
    var id := 0;
    for k := 0 to |body|
      invariant id == k && forall j: nat | j < k :: j in ids && ids[j] == j
    {
      ids := ids[k := id];
      id := id + 1;
    }
  }

  function Instrumented(fun: string, body: seq<Inst>): seq<Inst> {
    if body == [] then [] else
      var n := |body| - 1;
      Instrumented(fun, body[..n]) + (if body[n].Reported() then [InitCall(SiteId(fun, n), body[n].nargs)] else []) + [body[n]]
  }

  /** A report stands directly in front of every call, but for calls of declarations, of intrinsics and of what is named
      after the runtime; what stands behind a report is such a call, and nothing else is inserted. */
  method InstrumentCallSites(fun: string, body: seq<Inst>) returns (r: seq<Inst>)
    ensures r == Instrumented(fun, body)
    ensures (forall i | i in body :: !i.InitCall?) ==>
      forall j | 0 <= j < |r| && r[j].InitCall? ::
        && j + 1 < |r| && r[j + 1].CallSite?
        && var c := r[j + 1].callee;
        && (c.Some? ==> !c.value.declaration && !c.value.intrinsic && !Contains(c.value.name, "_wyinstr_"))
        && r[j].id.fun == fun && 0 <= r[j].id.call < |body| && body[r[j].id.call] == r[j + 1] && r[j].nargs == r[j + 1].nargs
    ensures (forall i | i in body :: !i.InitCall?) ==>
      forall k | 0 <= k < |body| && body[k].CallSite? ::
        && var c := body[k].callee;
        && ((c.Some? ==> !c.value.declaration && !c.value.intrinsic && !Contains(c.value.name, "_wyinstr_")) ==>
              exists j :: 0 <= j < |r| - 1 && r[j] == InitCall(SiteId(fun, k), body[k].nargs) && r[j + 1] == body[k])
  {
    var ids := ComputeInstrIDs(body);
    r := [];
    for k := 0 to |body|
      invariant r == Instrumented(fun, body[..k])
    {
      assert body[..k + 1][..k] == body[..k];
      if body[k].Reported() {
        r := r + [InitCall(SiteId(fun, ids[k]), body[k].nargs)];
      }
      r := r + [body[k]];
    }
    assert body[..|body|] == body;
    if forall i | i in body :: !i.InitCall? {
      ReportsNameCalls(fun, body);
      ReportsSay(fun, body, r);
    }
  }

  lemma ReportsSay(fun: string, body: seq<Inst>, r: seq<Inst>)
    requires ReportsName(fun, body, r)
    ensures forall j | 0 <= j < |r| && r[j].InitCall? ::
        && j + 1 < |r| && r[j + 1].CallSite?
        && var c := r[j + 1].callee;
        && (c.Some? ==> !c.value.declaration && !c.value.intrinsic && !Contains(c.value.name, "_wyinstr_"))
        && r[j].id.fun == fun && 0 <= r[j].id.call < |body| && body[r[j].id.call] == r[j + 1] && r[j].nargs == r[j + 1].nargs
    ensures forall k | 0 <= k < |body| && body[k].CallSite? ::
        && var c := body[k].callee;
        && ((c.Some? ==> !c.value.declaration && !c.value.intrinsic && !Contains(c.value.name, "_wyinstr_")) ==>
              exists j :: 0 <= j < |r| - 1 && r[j] == InitCall(SiteId(fun, k), body[k].nargs) && r[j + 1] == body[k])
  {
    hide Contains;
    forall j | 0 <= j < |r| && r[j].InitCall?
      ensures ReportAt(fun, body, r, j, r[j].id.call)
    {
    }
    forall k | 0 <= k < |body| && body[k].Reported()
      ensures exists j :: 0 <= j < |r| - 1 && r[j] == InitCall(SiteId(fun, k), body[k].nargs) && r[j + 1] == body[k]
    {
      var j :| ReportAt(fun, body, r, j, k);
    }
    hide ReportsName;
  }

  /** A single call: of a declaration, of an intrinsic or of the runtime it is left alone, any other is reported, one
      through a pointer too. */
  lemma {:induction false} OneCall(fun: string, c: Option<Callee>, n: nat)
    ensures c == None ==> Instrumented(fun, [CallSite(c, n)]) == [InitCall(SiteId(fun, 0), n), CallSite(c, n)]
    ensures c.Some? && c.value.declaration ==> Instrumented(fun, [CallSite(c, n)]) == [CallSite(c, n)]
    ensures c.Some? && c.value.intrinsic ==> Instrumented(fun, [CallSite(c, n)]) == [CallSite(c, n)]
    ensures c.Some? && Contains(c.value.name, "_wyinstr_") ==> Instrumented(fun, [CallSite(c, n)]) == [CallSite(c, n)]
    ensures c.Some? && !c.value.declaration && !c.value.intrinsic && !Contains(c.value.name, "_wyinstr_") ==>
      Instrumented(fun, [CallSite(c, n)]) == [InitCall(SiteId(fun, 0), n), CallSite(c, n)]
  {
    hide Contains;
    InstrumentedOne(fun, CallSite(c, n));
  }

  lemma ContainsMeans(s: string, t: string)
    ensures Contains(s, t) <==> exists a: string, b: string :: s == a + t + b
  {
    if Contains(s, t) {
      var i :| 0 <= i <= |s| && t <= s[i..];
      assert s == s[..i] + t + s[i..][|t|..];
    }
    if a: string, b: string :| s == a + t + b {
      assert t <= s[|a|..];
    }
  }

  lemma {:induction false} InstrumentedOne(fun: string, i: Inst)
    ensures Instrumented(fun, [i]) == if i.Reported() then [InitCall(SiteId(fun, 0), i.nargs), i] else [i]
  {
    assert [i][..0] == [];
  }

  function Erased(body: seq<Inst>): seq<Inst> {
    if body == [] then [] else
      var n := |body| - 1;
      Erased(body[..n]) + if body[n].InitCall? then [] else [body[n]]
  }

  /** What is put in front of instruction `k`. */
  function ReportOf(fun: string, k: nat, i: Inst): (r: seq<Inst>)
    ensures forall x | x in r :: x.InitCall?
  {
    if i.Reported() then [InitCall(SiteId(fun, k), i.nargs)] else []
  }

  lemma {:induction false} InstrumentedLast(fun: string, body: seq<Inst>)
    requires body != []
    ensures var n := |body| - 1;
      Instrumented(fun, body) == Instrumented(fun, body[..n]) + ReportOf(fun, n, body[n]) + [body[n]]
  {
  }

  lemma {:induction false} ErasedMore(a: seq<Inst>, report: seq<Inst>, x: Inst)
    requires |report| <= 1 && (forall i | i in report :: i.InitCall?) && !x.InitCall?
    ensures Erased(a + report + [x]) == Erased(a) + [x]
  {
    var r := a + report + [x];
    assert r[..|r| - 1] == a + report;
    if report != [] {
      assert report[0] in report && (a + report)[..|a|] == a;
    } else {
      assert a + report == a;
    }
  }

  /** Nothing but reports is inserted. */
  lemma {:induction false} ErasedInstrumented(fun: string, body: seq<Inst>)
    requires forall i | i in body :: !i.InitCall?
    ensures Erased(Instrumented(fun, body)) == body
  {
    if body == [] {
      assert Instrumented(fun, body) == [];
    } else {
      var n := |body| - 1;
      assert body[n] in body && (forall i | i in body[..n] :: i in body) && body == body[..n] + [body[n]];
      InstrumentedLast(fun, body);
      hide Instrumented, Erased;
      ErasedInstrumented(fun, body[..n]);
      ErasedMore(Instrumented(fun, body[..n]), ReportOf(fun, n, body[n]), body[n]);
    }
  }

  /** At `j` of the instrumented code `r` stands the report of call `k`, which follows it. */
  predicate ReportAt(fun: string, body: seq<Inst>, r: seq<Inst>, j: nat, k: int) {
    && 0 <= k < |body| && body[k].Reported() && j + 1 < |r|
    && r[j] == InitCall(SiteId(fun, k), body[k].nargs) && r[j + 1] == body[k]
  }

  /** Every report names the call behind it by its place before instrumentation, and every call has one report. */
  ghost predicate ReportsName(fun: string, body: seq<Inst>, r: seq<Inst>) {
    && (forall j: nat | j < |r| && r[j].InitCall? :: ReportAt(fun, body, r, j, r[j].id.call))
    && (forall k: nat | k < |body| && body[k].Reported() :: exists j :: ReportAt(fun, body, r, j, k))
    && (forall i: nat, j: nat | i < j < |r| && r[i].InitCall? && r[j].InitCall? :: r[i].id.call < r[j].id.call)
  }

  lemma OneMoreReport(fun: string, body: seq<Inst>, a: seq<Inst>, x: Inst)
    requires ReportsName(fun, body, a) && !x.InitCall?
    ensures ReportsName(fun, body + [x], a + ReportOf(fun, |body|, x) + [x])
  {
    var n, body', r := |body|, body + [x], a + ReportOf(fun, |body|, x) + [x];
    forall j: nat, k: int | ReportAt(fun, body, a, j, k)
      ensures ReportAt(fun, body', r, j, k)
    {
    }
    forall j: nat | j < |r| && r[j].InitCall?
      ensures ReportAt(fun, body', r, j, r[j].id.call)
    {
      if j < |a| {
        assert ReportAt(fun, body, a, j, a[j].id.call);
      }
    }
    forall k: nat | k < |body'| && body'[k].Reported()
      ensures exists j :: ReportAt(fun, body', r, j, k)
    {
      if k < n {
        assert body[k] == body'[k];
        var j :| ReportAt(fun, body, a, j, k);
        assert ReportAt(fun, body', r, j, k);
      } else {
        assert ReportAt(fun, body', r, |a|, k);
      }
    }
    forall i: nat, j: nat | i < j < |r| && r[i].InitCall? && r[j].InitCall?
      ensures r[i].id.call < r[j].id.call
    {
      assert i < |a| && r[i] == a[i] && ReportAt(fun, body, a, i, a[i].id.call);
      if j < |a| {
        assert r[j] == a[j];
      }
    }
  }

  lemma {:induction false} ReportsNameCalls(fun: string, body: seq<Inst>)
    requires forall i | i in body :: !i.InitCall?
    ensures ReportsName(fun, body, Instrumented(fun, body))
  {
    if body != [] {
      var n := |body| - 1;
      assert body[n] in body && (forall i | i in body[..n] :: i in body) && body == body[..n] + [body[n]];
      InstrumentedLast(fun, body);
      hide Instrumented, ReportsName;
      ReportsNameCalls(fun, body[..n]);
      OneMoreReport(fun, body[..n], Instrumented(fun, body[..n]), body[n]);
    }
  }

  // ---- reading back ----

  /** Functions of a module, by name. */
  type Module = map<string, seq<Inst>>

  predicate IsCall(m: Module, id: SiteId) {
    id.fun in m && 0 <= id.call < |m[id.fun]| && m[id.fun][id.call].CallSite?
  }

  /** The infos that belong to a call of the module. */
  function AttachedTo(raw: Raw, m: Module): Raw {
    map id | id in raw && IsCall(m, id) :: raw[id]
  }

  method AttachFunction(raw: Raw, fun: string, body: seq<Inst>, info0: Raw) returns (info: Raw)
    ensures info == info0 + map id | id in raw && id.fun == fun && 0 <= id.call < |body| && body[id.call].CallSite? :: raw[id]
  {
    info := info0;
    var instId := 0;
    for k := 0 to |body|
      invariant instId == k
      invariant info == info0 + map id | id in raw && id.fun == fun && 0 <= id.call < k && body[id.call].CallSite? :: raw[id]
    {
      if body[k].CallSite? && SiteId(fun, instId) in raw {
        info := info[SiteId(fun, instId) := raw[SiteId(fun, instId)]];
      }
      instId := instId + 1;
    }
  }

  method Attach(raw: Raw, m: Module) returns (info: Raw)
    requires forall id | id in raw :: id.fun in m
    ensures info == AttachedTo(raw, m)
    ensures info == map id | id in raw && id.fun in m && 0 <= id.call < |m[id.fun]| && m[id.fun][id.call].CallSite? :: raw[id]
  {
    info := map[];
    var names := set id | id in raw :: id.fun;
    var left := names;
    while left != {}
      invariant left <= names
      invariant info == map id | id in raw && id.fun !in left && IsCall(m, id) :: raw[id]
    {
      var fun :| fun in left;
      info := AttachFunction(raw, fun, m[fun], info);
      left := left - {fun};
    }
  }

  /** From the calls that happened to the pass: the info attached to a call of the module is what the call
      tree says, the number of calls one too high. */
  lemma {:induction false} ProfileReachesThePass(arity: Arity, t: Body, m: Module, ids: seq<SiteId>, s: SiteId, i: nat)
    requires Fits(arity, PreMain, t) && arity(PreMain) == 2 && Legal(arity, Trace(t))
    requires var profile := RunTrace(arity, Trace(t)).prof.profile;
      Lists(ids, profile) && AllPrintable(profile) && forall id | id in profile :: ',' !in id.fun
    requires IsCall(m, s) && s != PreMain && i < arity(s)
    ensures var profile := RunTrace(arity, Trace(t)).prof.profile;
      var r := LoadFile(Header + PrintRows(ids, profile), m.Keys);
      && r.Some? && (s in AttachedTo(r.value, m) <==> Activations(t, s) > 0)
      && (s in AttachedTo(r.value, m) ==>
            var info := AttachedTo(r.value, m)[s];
            && info.numCalls == 1 + Activations(t, s) && |info.unique| == |info.total| == arity(s)
            && info.unique[i] == Evaluators(t, s, i) && info.total[i] == Evaluations(t, PreMain, s, i))
  {
    ProfileIsCallTree(arity, t, s, i);
    var profile := RunTrace(arity, Trace(t)).prof.profile;
    hide RunTrace, LoadFile, PrintRows, AllPrintable, Legal, Fits, Activations, Evaluators, Evaluations, Trace;
    DumpThenLoad(profile, ids, m.Keys);
  }
}
