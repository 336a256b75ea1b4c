/** What the profiling runtime counts, against the calls that really happened. */
module CallTrees {
  import opened Profile

  // ---- traces ----

  /** What instrumented code tells the runtime. */
  datatype Event = Enter(id: SiteId) | Mark(i: nat) | Leave

  /** The arguments a call site passes: fixed by the call. */
  type Arity = SiteId -> nat

  /** An active call: its site, and the arguments it has evaluated. */
  datatype Active = Active(site: SiteId, marked: set<nat>)

  /** The calls that are active after a trace; `main` was not entered by a call. */
  function Frames(evs: seq<Event>): seq<Active> {
    if evs == [] then [Active(PreMain, {})] else
      var fs := Frames(evs[..|evs| - 1]);
      match evs[|evs| - 1]
      case Enter(id) => fs + [Active(id, {})]
      case Mark(i) => if fs == [] then [] else Marked(fs, i)
      case Leave => if fs == [] then [] else fs[..|fs| - 1]
  }

  function Marked(fs: seq<Active>, i: nat): (r: seq<Active>)
    requires fs != []
    ensures |r| == |fs|
  {
    var top := fs[|fs| - 1];
    fs[|fs| - 1 := top.(marked := top.marked + {i})]
  }

  function Top(fs: seq<Active>): Active
    requires fs != []
  {
    fs[|fs| - 1]
  }

  function One(c: bool): nat {
    if c then 1 else 0
  }

  /** Every event happens in an active call, and marks an argument the call has. */
  predicate Legal(arity: Arity, evs: seq<Event>) {
    evs == [] ||
    var init := evs[..|evs| - 1];
    var fs := Frames(init);
    Legal(arity, init) &&
    match evs[|evs| - 1]
    case Enter(_) => true
    case Mark(i) => fs != [] && i < 32 && i < arity(fs[|fs| - 1].site)
    case Leave => fs != []
  }

  // ---- what happened ----

  function Calls(evs: seq<Event>, s: SiteId): nat {
    if evs == [] then 0 else
      Calls(evs[..|evs| - 1], s) + if evs[|evs| - 1] == Enter(s) then 1 else 0
  }

  /** The last event evaluates argument `i` for a call at `s`. */
  predicate MarksAt(evs: seq<Event>, s: SiteId, i: nat)
    requires evs != []
  {
    var fs := Frames(evs[..|evs| - 1]);
    evs[|evs| - 1] == Mark(i) && fs != [] && fs[|fs| - 1].site == s
  }

  function Marks(evs: seq<Event>, s: SiteId, i: nat): nat {
    if evs == [] then 0 else
      Marks(evs[..|evs| - 1], s, i) + if MarksAt(evs, s, i) then 1 else 0
  }

  /** The evaluations that are the first in their call. */
  function Firsts(evs: seq<Event>, s: SiteId, i: nat): nat {
    if evs == [] then 0 else
      var fs := Frames(evs[..|evs| - 1]);
      Firsts(evs[..|evs| - 1], s, i) + if MarksAt(evs, s, i) && i !in fs[|fs| - 1].marked then 1 else 0
  }

  // ---- the runtime over a trace ----

  /** The runtime, and the words of the active calls. */
  datatype World = World(prof: Prof, words: seq<bv64>)

  ghost predicate WordIs(b: bv64, marked: set<nat>) {
    forall i: nat | i < 32 :: i in marked <==> HasBit(b, i)
  }

  ghost predicate ReportIs(arity: Arity, evs: seq<Event>, s: SiteId, r: Report) {
    && r.numCalls == 1 + Calls(evs, s) && r.numArgs == |r.unique| == |r.total| == arity(s)
    && forall i: nat | i < arity(s) :: r.unique[i] == Firsts(evs, s, i) && r.total[i] == Marks(evs, s, i)
  }

  ghost predicate StackIs(fs: seq<Active>, stack: seq<SiteId>, words: seq<bv64>) {
    && |stack| == |words| == |fs|
    && forall k | 0 <= k < |fs| :: stack[k] == fs[k].site && WordIs(words[k], fs[k].marked)
  }

  /** The runtime knows what happened. */
  ghost predicate Knows(arity: Arity, evs: seq<Event>, w: World) {
    w.prof.initialized && StackIs(Frames(evs), w.prof.stack, w.words) && Reports(arity, evs, w.prof.profile) && Reported(w.prof)
  }

  /** There is a report for every site that was reached, and it is right. */
  ghost predicate Reports(arity: Arity, evs: seq<Event>, profile: map<SiteId, Report>) {
    && (forall s :: s in profile <==> s == PreMain || Calls(evs, s) > 0)
    && (forall s | s in profile :: ReportIs(arity, evs, s, profile[s]))
  }

  predicate Reported(p: Prof) {
    forall s | s in p.stack :: s in p.profile
  }

  ghost predicate CanStep(arity: Arity, w: World, e: Event) {
    && w.prof.initialized && |w.words| == |w.prof.stack|
    && (e.Mark? ==> CanMark(w.prof, e.i)) && (e.Leave? ==> w.words != [])
  }

  ghost function StepWorld(arity: Arity, w: World, e: Event): World
    requires CanStep(arity, w, e)
  {
    match e
    case Enter(id) => World(InitCall(w.prof, id, arity(id)), w.words + [0])
    case Mark(i) =>
      var (p, b) := MarkEval(w.prof, i, w.words[|w.words| - 1]);
      World(p, w.words[|w.words| - 1 := b])
    case Leave => World(EndCall(w.prof), w.words[..|w.words| - 1])
  }

  /** The world after a trace that starts with the initialisation: at every prefix the runtime knows what
      has happened. */
  ghost function RunTrace(arity: Arity, evs: seq<Event>): (w: World)
    requires Legal(arity, evs) && arity(PreMain) == 2
    ensures Knows(arity, evs, w)
  {
    if evs == [] then
      StartKnows(arity);
      World(InitProf(Prof(false, map[], [])), [0])
    else
      var w := RunTrace(arity, evs[..|evs| - 1]);
      KnowsMore(arity, evs, w);
      StepWorld(arity, w, evs[|evs| - 1])
  }

  /** What becomes of the runtime and of the word of one function on any calls, marks and ends, legal or not; a mark the
      runtime could not take stops it. */
  ghost function After(arity: Arity, p: Prof, word: bv64, evs: seq<Event>): (Prof, bv64) {
    if evs == [] then (p, word) else
      var (q, w) := After(arity, p, word, evs[..|evs| - 1]);
      match evs[|evs| - 1]
      case Enter(id) => (InitCall(q, id, arity(id)), w)
      case Mark(i) => if q.initialized ==> CanMark(q, i) then MarkEval(q, i, w) else (q, w)
      case Leave => if q.initialized ==> q.stack != [] then (EndCall(q), w) else (q, w)
  }

  /** Whatever happens before the initialisation, by static initialisers say, leaves no mark: what is initialised then is
      the runtime every trace starts from. */
  lemma {:induction false} NothingBeforeMain(arity: Arity, word: bv64, evs: seq<Event>)
    requires arity(PreMain) == 2
    ensures After(arity, Prof(false, map[], []), word, evs) == (Prof(false, map[], []), word)
    ensures InitProf(After(arity, Prof(false, map[], []), word, evs).0) == RunTrace(arity, []).prof
    ensures InitProf(After(arity, Prof(false, map[], []), word, evs).0)
         == Prof(true, map[SiteId("__wyinstr_pre_main", 0) := Report(1, 2, [0, 0], [0, 0])], [SiteId("__wyinstr_pre_main", 0)])
  {
    assert NewReport(2).unique == [0, 0] && NewReport(2).total == [0, 0];
    if evs != [] {
      NothingBeforeMain(arity, word, evs[..|evs| - 1]);
    }
  }

  lemma EmptyWord()
    ensures WordIs(0, {})
  {
    forall i: nat | i < 32
      ensures !HasBit(0, i)
    {
      NoBits(i);
    }
  }

  lemma MarkedWord(b: bv64, marked: set<nat>, i: nat)
    requires WordIs(b, marked) && i < 32
    ensures WordIs(if HasBit(b, i) then b else WithBit(b, i), marked + {i}) && (HasBit(b, i) <==> i in marked)
  {
    hide HasBit, WithBit;
    forall j: nat | j < 32
      ensures HasBit(WithBit(b, i), j) <==> i == j || HasBit(b, j)
    {
      SetsOneBit(b, i, j);
    }
  }

  lemma StartKnows(arity: Arity)
    requires arity(PreMain) == 2
    ensures Knows(arity, [], World(InitProf(Prof(false, map[], [])), [0]))
  {
    EmptyWord();
    hide WordIs;
    var w := World(InitProf(Prof(false, map[], [])), [0]);
    assert Frames([]) == [Active(PreMain, {})];
    assert ReportIs(arity, [], PreMain, NewReport(2));
  }

  lemma {:induction false} KnowsMore(arity: Arity, evs: seq<Event>, w: World)
    requires evs != [] && Legal(arity, evs) && Knows(arity, evs[..|evs| - 1], w)
    ensures CanStep(arity, w, evs[|evs| - 1]) && Knows(arity, evs, StepWorld(arity, w, evs[|evs| - 1]))
  {
    hide WordIs, HasBit, WithBit, ReportIs, Calls, MarkEval;
    match evs[|evs| - 1]
    case Enter(id) => KnowsEnter(arity, evs, w, id);
    case Mark(i) => KnowsMark(arity, evs, w, i);
    case Leave => KnowsLeave(arity, evs, w);
  }

  /** A site that has not been entered has counted nothing. */
  lemma {:induction false} NoCallNoMark(evs: seq<Event>, s: SiteId)
    requires Calls(evs, s) == 0 && s != PreMain
    ensures forall a | a in Frames(evs) :: a.site != s
    ensures forall i :: Marks(evs, s, i) == 0 && Firsts(evs, s, i) == 0
  {
    if evs != [] {
      NoCallNoMark(evs[..|evs| - 1], s);
    }
  }

  /** How a report changes when a call is made. */
  lemma ReportEntered(arity: Arity, evs: seq<Event>, s: SiteId, r: Report, id: SiteId)
    requires evs != [] && evs[|evs| - 1] == Enter(id) && ReportIs(arity, evs[..|evs| - 1], s, r)
    ensures ReportIs(arity, evs, s, if s == id then r.(numCalls := r.numCalls + 1) else r)
  {
  }

  lemma ReportLeft(arity: Arity, evs: seq<Event>, s: SiteId, r: Report)
    requires evs != [] && evs[|evs| - 1] == Leave && ReportIs(arity, evs[..|evs| - 1], s, r)
    ensures ReportIs(arity, evs, s, r)
  {
  }

  /** How it changes when an argument is evaluated. */
  lemma ReportMarked(arity: Arity, evs: seq<Event>, s: SiteId, r: Report, i: nat, fs: seq<Active>)
    requires evs != [] && evs[|evs| - 1] == Mark(i) && ReportIs(arity, evs[..|evs| - 1], s, r)
    requires fs == Frames(evs[..|evs| - 1]) && fs != [] && i < arity(fs[|fs| - 1].site)
    ensures var top := fs[|fs| - 1];
      ReportIs(arity, evs, s,
               if s != top.site then r
               else if i in top.marked then r.(total := r.total[i := r.total[i] + 1])
               else r.(total := r.total[i := r.total[i] + 1], unique := r.unique[i := r.unique[i] + 1]))
  {
  }

  lemma {:induction false} FreshReport(arity: Arity, evs: seq<Event>, s: SiteId)
    requires Calls(evs, s) == 0 && s != PreMain
    ensures ReportIs(arity, evs, s, NewReport(arity(s)))
  {
    NoCallNoMark(evs, s);
  }

  lemma {:induction false} StackEntered(evs: seq<Event>, stack: seq<SiteId>, words: seq<bv64>, id: SiteId)
    requires evs != [] && evs[|evs| - 1] == Enter(id) && StackIs(Frames(evs[..|evs| - 1]), stack, words)
    ensures StackIs(Frames(evs), stack + [id], words + [0])
  {
    EmptyWord();
    hide WordIs, HasBit;
    var fs := Frames(evs[..|evs| - 1]);
    assert Frames(evs) == fs + [Active(id, {})];
    hide Frames;
  }

  lemma ReportsEntered(arity: Arity, evs: seq<Event>, profile: map<SiteId, Report>, id: SiteId)
    requires evs != [] && evs[|evs| - 1] == Enter(id) && Reports(arity, evs[..|evs| - 1], profile)
    ensures var r := if id in profile then profile[id] else NewReport(arity(id));
      Reports(arity, evs, profile[id := r.(numCalls := r.numCalls + 1)])
  {
    var init := evs[..|evs| - 1];
    var r := if id in profile then profile[id] else NewReport(arity(id));
    assert forall s :: Calls(evs, s) == Calls(init, s) + One(s == id);
    hide ReportIs, NewReport, Calls;
    if id !in profile {
      FreshReport(arity, init, id);
    }
    ReportEntered(arity, evs, id, r, id);
    forall s | s in profile && s != id
      ensures ReportIs(arity, evs, s, profile[s])
    {
      ReportEntered(arity, evs, s, profile[s], id);
    }
  }

  lemma {:induction false} KnowsEnter(arity: Arity, evs: seq<Event>, w: World, id: SiteId)
    requires evs != [] && Legal(arity, evs) && Knows(arity, evs[..|evs| - 1], w) && evs[|evs| - 1] == Enter(id)
    ensures Knows(arity, evs, World(InitCall(w.prof, id, arity(id)), w.words + [0]))
  {
    hide Legal, Frames, StackIs, Reports, NewReport;
    StackEntered(evs, w.prof.stack, w.words, id);
    ReportsEntered(arity, evs, w.prof.profile, id);
  }

  lemma {:induction false} KnowsLeave(arity: Arity, evs: seq<Event>, w: World)
    requires evs != [] && Legal(arity, evs) && Knows(arity, evs[..|evs| - 1], w) && evs[|evs| - 1] == Leave
    ensures w.words != [] && w.prof.stack != [] && Knows(arity, evs, World(EndCall(w.prof), w.words[..|w.words| - 1]))
  {
    hide *;
    LegalLeave(arity, evs);
    KnowsParts(arity, evs[..|evs| - 1], w);
    StackLeft(Frames(evs[..|evs| - 1]), w.prof.stack, w.words);
    ReportsLeft(arity, evs, w.prof.profile);
    EndCallIs(w.prof);
    PartsKnow(arity, evs, World(EndCall(w.prof), w.words[..|w.words| - 1]));
  }

  lemma LegalLeave(arity: Arity, evs: seq<Event>)
    requires evs != [] && Legal(arity, evs) && evs[|evs| - 1] == Leave
    ensures var fs := Frames(evs[..|evs| - 1]); fs != [] && Frames(evs) == fs[..|fs| - 1]
  {
  }

  lemma StackLeft(fs: seq<Active>, stack: seq<SiteId>, words: seq<bv64>)
    requires fs != [] && StackIs(fs, stack, words)
    ensures |stack| == |words| == |fs| && StackIs(fs[..|fs| - 1], stack[..|stack| - 1], words[..|words| - 1])
  {
    hide WordIs;
  }

  lemma ReportsLeft(arity: Arity, evs: seq<Event>, profile: map<SiteId, Report>)
    requires evs != [] && evs[|evs| - 1] == Leave && Reports(arity, evs[..|evs| - 1], profile)
    ensures Reports(arity, evs, profile)
  {
    assert forall s :: Calls(evs, s) == Calls(evs[..|evs| - 1], s);
    hide ReportIs, Calls;
    forall s | s in profile
      ensures ReportIs(arity, evs, s, profile[s])
    {
      ReportLeft(arity, evs, s, profile[s]);
    }
  }

  lemma EndCallIs(p: Prof)
    requires p.initialized && p.stack != []
    ensures EndCall(p) == p.(stack := p.stack[..|p.stack| - 1])
    ensures forall s | s in EndCall(p).stack :: s in p.stack
  {
  }

  lemma {:induction false} TopKnown(arity: Arity, evs: seq<Event>, w: World, i: nat)
    requires Knows(arity, evs, w) && Frames(evs) != [] && i < 32 && i < arity(Frames(evs)[|Frames(evs)| - 1].site)
    ensures CanMark(w.prof, i) && |w.words| == |w.prof.stack| == |Frames(evs)|
    ensures var fs := Frames(evs); w.prof.stack[|fs| - 1] == fs[|fs| - 1].site && WordIs(w.words[|fs| - 1], fs[|fs| - 1].marked)
  {
    hide WordIs, HasBit, Calls, Firsts, Marks, Frames;
    var top := w.prof.stack[|w.prof.stack| - 1];
    assert top in w.prof.stack;
    assert ReportIs(arity, evs, top, w.prof.profile[top]);
  }

  lemma ReportsMarked(arity: Arity, evs: seq<Event>, profile: map<SiteId, Report>, i: nat, fs: seq<Active>)
    requires evs != [] && evs[|evs| - 1] == Mark(i) && Reports(arity, evs[..|evs| - 1], profile)
    requires fs == Frames(evs[..|evs| - 1]) && fs != [] && i < arity(Top(fs).site) && Top(fs).site in profile
    requires var r := profile[Top(fs).site]; i < |r.total| && i < |r.unique|
    ensures var r := profile[Top(fs).site];
      Reports(arity, evs, profile[Top(fs).site :=
        if i in Top(fs).marked then r.(total := r.total[i := r.total[i] + 1])
        else r.(total := r.total[i := r.total[i] + 1], unique := r.unique[i := r.unique[i] + 1])])
  {
    hide ReportIs, Calls, Frames;
    NoCallHere(evs, i);
    forall s | s in profile
      ensures ReportIs(arity, evs, s, if s != Top(fs).site then profile[s]
        else if i in Top(fs).marked then profile[s].(total := profile[s].total[i := profile[s].total[i] + 1])
        else profile[s].(total := profile[s].total[i := profile[s].total[i] + 1], unique := profile[s].unique[i := profile[s].unique[i] + 1]))
    {
      ReportMarked(arity, evs, s, profile[s], i, fs);
    }
  }

  lemma MarkEvalIs(p: Prof, i: nat, bits: bv64)
    requires p.initialized && CanMark(p, i)
    ensures var top := p.stack[|p.stack| - 1]; var r := p.profile[top]; var (q, b) := MarkEval(p, i, bits);
      && b == (if HasBit(bits, i) then bits else WithBit(bits, i))
      && q == p.(profile := p.profile[top :=
        if HasBit(bits, i) then r.(total := r.total[i := r.total[i] + 1])
        else r.(total := r.total[i := r.total[i] + 1], unique := r.unique[i := r.unique[i] + 1])])
  {
    hide HasBit, WithBit;
  }

  lemma {:induction false} KnowsMark(arity: Arity, evs: seq<Event>, w: World, i: nat)
    requires evs != [] && Legal(arity, evs) && Knows(arity, evs[..|evs| - 1], w) && evs[|evs| - 1] == Mark(i)
    ensures CanMark(w.prof, i) && |w.words| == |w.prof.stack|
    ensures var (p, b) := MarkEval(w.prof, i, w.words[|w.words| - 1]); Knows(arity, evs, World(p, w.words[|w.words| - 1 := b]))
  {
    hide *;
    var init := evs[..|evs| - 1];
    var fs := Frames(init);
    LegalMark(arity, evs, i);
    TopKnown(arity, init, w, i);
    KnowsParts(arity, init, w);
    var n := |fs| - 1;
    TopIs(fs);
    MarkedWord(w.words[n], fs[n].marked, i);
    MarkedStack(fs, w.prof.stack, w.words, i);
    CanMarkTop(w.prof, i);
    ReportsMarked(arity, evs, w.prof.profile, i, fs);
    MarkEvalIs(w.prof, i, w.words[n]);
    var (p, b) := MarkEval(w.prof, i, w.words[n]);
    PartsKnow(arity, evs, World(p, w.words[n := b]));
  }

  lemma TopIs(fs: seq<Active>)
    requires fs != []
    ensures Top(fs) == fs[|fs| - 1]
  {
  }

  lemma LegalMark(arity: Arity, evs: seq<Event>, i: nat)
    requires evs != [] && Legal(arity, evs) && evs[|evs| - 1] == Mark(i)
    ensures var fs := Frames(evs[..|evs| - 1]); fs != [] && i < 32 && i < arity(fs[|fs| - 1].site) && Frames(evs) == Marked(fs, i)
  {
  }

  lemma {:induction false} KnowsParts(arity: Arity, evs: seq<Event>, w: World)
    requires Knows(arity, evs, w)
    ensures w.prof.initialized && StackIs(Frames(evs), w.prof.stack, w.words) && Reports(arity, evs, w.prof.profile)
    ensures forall s | s in w.prof.stack :: s in w.prof.profile
  {
    hide StackIs, Reports, Frames;
  }

  lemma CanMarkTop(p: Prof, i: nat)
    requires CanMark(p, i)
    ensures p.stack != [] && p.stack[|p.stack| - 1] in p.profile
    ensures var r := p.profile[p.stack[|p.stack| - 1]]; i < |r.unique| && i < |r.total|
  {
  }

  lemma {:induction false} PartsKnow(arity: Arity, evs: seq<Event>, w: World)
    requires w.prof.initialized && StackIs(Frames(evs), w.prof.stack, w.words) && Reports(arity, evs, w.prof.profile)
    requires forall s | s in w.prof.stack :: s in w.prof.profile
    ensures Knows(arity, evs, w)
  {
    hide StackIs, Reports, Frames;
  }

  lemma {:induction false} NoCallHere(evs: seq<Event>, i: nat)
    requires evs != [] && evs[|evs| - 1] == Mark(i)
    ensures forall s :: Calls(evs, s) == Calls(evs[..|evs| - 1], s)
  {
  }

  lemma MarkedStack(fs: seq<Active>, stack: seq<SiteId>, words: seq<bv64>, i: nat)
    requires fs != [] && StackIs(fs, stack, words) && i < 32
    ensures var n := |fs| - 1;
      |words| == |fs| && StackIs(Marked(fs, i), stack, words[n := if HasBit(words[n], i) then words[n] else WithBit(words[n], i)])
  {
    hide WordIs, HasBit, WithBit;
    MarkedWord(words[|fs| - 1], fs[|fs| - 1].marked, i);
  }

  // ---- what holds at every prefix ----

  /** The active calls at `s` that have not evaluated argument `i`. */
  function Waiting(fs: seq<Active>, s: SiteId, i: nat): nat {
    if fs == [] then 0 else
      Waiting(fs[..|fs| - 1], s, i) + if fs[|fs| - 1].site == s && i !in fs[|fs| - 1].marked then 1 else 0
  }

  lemma {:induction false} FirstsBounded(evs: seq<Event>, s: SiteId, i: nat)
    ensures Firsts(evs, s, i) <= Marks(evs, s, i)
    ensures Firsts(evs, s, i) + Waiting(Frames(evs), s, i) <= Calls(evs, s) + if s == PreMain then 1 else 0
  {
    if evs != [] {
      FirstsBounded(evs[..|evs| - 1], s, i);
      var fs, n := Frames(evs[..|evs| - 1]), |Frames(evs[..|evs| - 1])| - 1;
      match evs[|evs| - 1]
      case Enter(id) => assert (fs + [Active(id, {})])[..|fs|] == fs;
      case Mark(j) =>
        if fs != [] {
          assert Marked(fs, j)[..n] == fs[..n];
        }
      case Leave =>
    } else {
      assert Frames(evs)[..0] == [];
    }
  }

  /** At every prefix of a run: no argument is counted as evaluated in more calls than it was evaluated,
      nor in more calls than were made; and the word of every active call holds just what it evaluated. */
  lemma {:induction false} CountersAtEveryPrefix(arity: Arity, evs: seq<Event>, s: SiteId, i: nat)
    requires Legal(arity, evs) && arity(PreMain) == 2 && i < arity(s)
    ensures var w := RunTrace(arity, evs);
      && (s in w.prof.profile ==>
            var r := w.prof.profile[s];
            && i < |r.unique| == |r.total| && r.unique[i] <= r.total[i]
            && (s != PreMain ==> r.unique[i] < r.numCalls))
      && StackIs(Frames(evs), w.prof.stack, w.words)
  {
    FirstsBounded(evs, s, i);
    var w := RunTrace(arity, evs);
    if s in w.prof.profile {
      assert ReportIs(arity, evs, s, w.prof.profile[s]);
    }
  }

  // ---- call trees ----

  /** What a call does, in order: evaluates arguments and makes calls. */
  datatype Body = Done | Evaluate(i: nat, rest: Body) | Call(id: SiteId, inner: Body, rest: Body)

  /** Arguments are evaluated within the arity of the call. */
  predicate Fits(arity: Arity, here: SiteId, t: Body)
    decreases t
  {
    match t
    case Done => true
    case Evaluate(i, rest) => i < 32 && i < arity(here) && Fits(arity, here, rest)
    case Call(id, inner, rest) => Fits(arity, id, inner) && Fits(arity, here, rest)
  }

  function Trace(t: Body): seq<Event> {
    match t
    case Done => []
    case Evaluate(i, rest) => [Mark(i)] + Trace(rest)
    case Call(id, inner, rest) => [Enter(id)] + Trace(inner) + [Leave] + Trace(rest)
  }

  function Activations(t: Body, s: SiteId): nat {
    match t
    case Done => 0
    case Evaluate(_, rest) => Activations(rest, s)
    case Call(id, inner, rest) => (if id == s then 1 else 0) + Activations(inner, s) + Activations(rest, s)
  }

  /** The arguments the call itself evaluates. */
  function Evaluated(t: Body): set<nat> {
    match t
    case Done => {}
    case Evaluate(i, rest) => {i} + Evaluated(rest)
    case Call(_, _, rest) => Evaluated(rest)
  }

  /** How many calls at `s` evaluate argument `i` at least once. */
  function Evaluators(t: Body, s: SiteId, i: nat): nat {
    match t
    case Done => 0
    case Evaluate(_, rest) => Evaluators(rest, s, i)
    case Call(id, inner, rest) =>
      (if id == s && i in Evaluated(inner) then 1 else 0) + Evaluators(inner, s, i) + Evaluators(rest, s, i)
  }

  /** How often argument `i` is evaluated in calls at `s`, by a call at `here` with body `t`. */
  function Evaluations(t: Body, here: SiteId, s: SiteId, i: nat): nat {
    match t
    case Done => 0
    case Evaluate(j, rest) => (if j == i && here == s then 1 else 0) + Evaluations(rest, here, s, i)
    case Call(id, inner, rest) => Evaluations(inner, id, s, i) + Evaluations(rest, here, s, i)
  }

  /** The active calls are those of `fs`, the innermost having evaluated `more` as well. */
  ghost predicate SameButTop(fs: seq<Active>, gs: seq<Active>, more: set<nat>)
    requires fs != []
  {
    var n := |fs| - 1;
    |gs| == |fs| && gs[..n] == fs[..n] && gs[n].site == fs[n].site && gs[n].marked == fs[n].marked + more
  }

  lemma {:induction false} MarkAdds(arity: Arity, evs: seq<Event>, j: nat, s: SiteId, i: nat)
    requires Legal(arity, evs) && Frames(evs) != [] && j < 32 && j < arity(Top(Frames(evs)).site)
    ensures var next, top := evs + [Mark(j)], Top(Frames(evs));
      && Legal(arity, next) && Frames(next) == Marked(Frames(evs), j) && Calls(next, s) == Calls(evs, s)
      && Marks(next, s, i) == Marks(evs, s, i) + One(j == i && top.site == s)
      && Firsts(next, s, i) == Firsts(evs, s, i) + One(j == i && top.site == s && i !in top.marked)
  {
    var next := evs + [Mark(j)];
    assert next[..|next| - 1] == evs;
  }

  lemma {:induction false} EnterAdds(arity: Arity, evs: seq<Event>, id: SiteId, s: SiteId, i: nat)
    requires Legal(arity, evs)
    ensures var next := evs + [Enter(id)];
      && Legal(arity, next) && Frames(next) == Frames(evs) + [Active(id, {})] && Calls(next, s) == Calls(evs, s) + One(id == s)
      && Marks(next, s, i) == Marks(evs, s, i) && Firsts(next, s, i) == Firsts(evs, s, i)
  {
    var next := evs + [Enter(id)];
    assert next[..|next| - 1] == evs;
  }

  lemma {:induction false} LeaveAdds(arity: Arity, evs: seq<Event>, s: SiteId, i: nat)
    requires Legal(arity, evs) && Frames(evs) != []
    ensures var next := evs + [Leave];
      && Legal(arity, next) && Frames(next) == Frames(evs)[..|Frames(evs)| - 1] && Calls(next, s) == Calls(evs, s)
      && Marks(next, s, i) == Marks(evs, s, i) && Firsts(next, s, i) == Firsts(evs, s, i)
  {
    var next := evs + [Leave];
    assert next[..|next| - 1] == evs;
  }

  /** What the trace of a body adds to a trace. */
  ghost predicate Adds(arity: Arity, evs: seq<Event>, after: seq<Event>, t: Body, s: SiteId, i: nat) {
    && Frames(evs) != [] && Legal(arity, after) && SameButTop(Frames(evs), Frames(after), Evaluated(t))
    && Calls(after, s) == Calls(evs, s) + Activations(t, s)
    && var top := Top(Frames(evs));
      && Marks(after, s, i) == Marks(evs, s, i) + Evaluations(t, top.site, s, i)
      && Firsts(after, s, i) == Firsts(evs, s, i) + Evaluators(t, s, i) + One(top.site == s && i in Evaluated(t) && i !in top.marked)
  }

  /** What a whole call adds. */
  ghost predicate CallAdds(arity: Arity, evs: seq<Event>, after: seq<Event>, id: SiteId, inner: Body, s: SiteId, i: nat) {
    && Legal(arity, after) && Frames(after) == Frames(evs)
    && Calls(after, s) == Calls(evs, s) + Activations(inner, s) + One(id == s)
    && Marks(after, s, i) == Marks(evs, s, i) + Evaluations(inner, id, s, i)
    && Firsts(after, s, i) == Firsts(evs, s, i) + Evaluators(inner, s, i) + One(id == s && i in Evaluated(inner))
  }

  function CallTrace(id: SiteId, inner: Body): seq<Event> {
    [Enter(id)] + Trace(inner) + [Leave]
  }

  lemma {:induction false} BodyAdds(arity: Arity, evs: seq<Event>, t: Body, s: SiteId, i: nat)
    requires Legal(arity, evs) && Frames(evs) != [] && Fits(arity, Top(Frames(evs)).site, t)
    ensures Adds(arity, evs, evs + Trace(t), t, s, i)
    decreases t, 0
  {
    hide Frames, Legal, Calls, Marks, Firsts;
    match t
    case Done => assert evs + Trace(t) == evs;
    case Evaluate(j, rest) =>
      var next := evs + [Mark(j)];
      MarkAdds(arity, evs, j, s, i);
      assert evs + Trace(t) == next + Trace(rest);
      BodyAdds(arity, next, rest, s, i);
    case Call(id, inner, rest) =>
      var after := evs + CallTrace(id, inner);
      WholeCallAdds(arity, evs, id, inner, s, i);
      assert evs + Trace(t) == after + Trace(rest);
      hide Adds;
      BodyAdds(arity, after, rest, s, i);
      AfterCall(arity, evs, after, evs + Trace(t), id, inner, rest, s, i);
  }

  lemma AfterCall(arity: Arity, evs: seq<Event>, mid: seq<Event>, after: seq<Event>, id: SiteId, inner: Body,
                  rest: Body, s: SiteId, i: nat)
    requires CallAdds(arity, evs, mid, id, inner, s, i) && Adds(arity, mid, after, rest, s, i)
    ensures Adds(arity, evs, after, Call(id, inner, rest), s, i)
  {
    hide Frames, Legal, Calls, Marks, Firsts;
  }

  lemma {:induction false} WholeCallAdds(arity: Arity, evs: seq<Event>, id: SiteId, inner: Body, s: SiteId, i: nat)
    requires Legal(arity, evs) && Frames(evs) != [] && Fits(arity, id, inner)
    ensures CallAdds(arity, evs, evs + CallTrace(id, inner), id, inner, s, i)
    decreases inner, 1
  {
    hide Frames, Legal, Calls, Marks, Firsts, Evaluated, Evaluators, Evaluations, Activations, Trace;
    var fs := Frames(evs);
    var entered := evs + [Enter(id)];
    EnterAdds(arity, evs, id, s, i);
    BodyAdds(arity, entered, inner, s, i);
    var done := entered + Trace(inner);
    LeaveAdds(arity, done, s, i);
    assert evs + CallTrace(id, inner) == done + [Leave];
    assert (fs + [Active(id, {})])[..|fs|] == fs;
  }

  /** The profile of a whole run is the call tree's: the stack is as it was, and for every site the
      counters are those of the tree, the number of calls being one too high. */
  lemma {:induction false} ProfileIsCallTree(arity: Arity, t: Body, s: SiteId, i: nat)
    requires Fits(arity, PreMain, t) && arity(PreMain) == 2
    ensures Legal(arity, Trace(t))
    ensures var w := RunTrace(arity, Trace(t));
      && w.prof.stack == [PreMain] && |w.words| == 1 && WordIs(w.words[0], Evaluated(t))
      && (s in w.prof.profile <==> s == PreMain || Activations(t, s) > 0)
      && (s in w.prof.profile ==>
            var r := w.prof.profile[s];
            && r.numCalls == 1 + Activations(t, s) && r.numArgs == |r.unique| == |r.total| == arity(s)
            && (i < arity(s) ==> && r.unique[i] == Evaluators(t, s, i) + One(s == PreMain && i in Evaluated(t))
                                 && r.total[i] == Evaluations(t, PreMain, s, i)))
  {
    assert [] + Trace(t) == Trace(t) && Frames([]) == [Active(PreMain, {})];
    BodyAdds(arity, [], t, s, i);
    assert {} + Evaluated(t) == Evaluated(t);
    assert Calls([], s) == 0 && Marks([], s, i) == 0 && Firsts([], s, i) == 0;
    hide Frames, Legal, Calls, Marks, Firsts, RunTrace, WordIs, Evaluated, Evaluators, Evaluations,
         Activations, Trace;
    var w := RunTrace(arity, Trace(t));
    assert Frames(Trace(t)) == [Active(PreMain, Evaluated(t))];
    if s in w.prof.profile {
      assert ReportIs(arity, Trace(t), s, w.prof.profile[s]);
    }
  }

  // ---- instrumented code ----

  ghost predicate InWorld(rt: Runtime, arity: Arity, evs: seq<Event>, words: seq<bv64>)
    reads rt
  {
    arity(PreMain) == 2 && Legal(arity, evs) && RunTrace(arity, evs) == World(rt.Now(), words)
  }

  lemma {:induction false} StepIs(arity: Arity, evs: seq<Event>, e: Event)
    requires arity(PreMain) == 2 && Legal(arity, evs + [e])
    ensures Legal(arity, evs) && CanStep(arity, RunTrace(arity, evs), e)
    ensures RunTrace(arity, evs + [e]) == StepWorld(arity, RunTrace(arity, evs), e)
  {
    assert (evs + [e])[..|evs + [e]| - 1] == evs;
    hide Knows, StepWorld, CanStep, Frames;
    KnowsMore(arity, evs + [e], RunTrace(arity, evs));
  }

  /** The code of an instrumented call, driving the runtime: `bits` is the word it keeps. */
  method RunBody(rt: Runtime, arity: Arity, t: Body, bits: bv64, ghost evs: seq<Event>,
                 ghost words: seq<bv64>) returns (bits': bv64)
    requires InWorld(rt, arity, evs, words + [bits]) && Frames(evs) != [] && Fits(arity, Top(Frames(evs)).site, t)
    modifies rt
    ensures InWorld(rt, arity, evs + Trace(t), words + [bits'])
    decreases t, 0
  {
    hide Frames, Legal, RunTrace, HasBit, WithBit, Calls, Marks, Firsts, Evaluated, Evaluators, Evaluations,
         Activations;
    bits' := bits;
    match t
    case Done =>
      assert evs + Trace(t) == evs;
    case Evaluate(i, rest) =>
      bits' := RunMark(rt, arity, i, bits, evs, words);
      MarkAdds(arity, evs, i, PreMain, 0);
      assert evs + Trace(t) == evs + [Mark(i)] + Trace(rest);
      bits' := RunBody(rt, arity, rest, bits', evs + [Mark(i)], words);
    case Call(id, inner, rest) =>
      RunCall(rt, arity, id, inner, evs, words + [bits]);
      WholeCallAdds(arity, evs, id, inner, PreMain, 0);
      assert evs + Trace(t) == evs + CallTrace(id, inner) + Trace(rest);
      bits' := RunBody(rt, arity, rest, bits, evs + CallTrace(id, inner), words);
  }

  /** An instrumented use of an argument. */
  method RunMark(rt: Runtime, arity: Arity, i: nat, bits: bv64, ghost evs: seq<Event>, ghost words: seq<bv64>) returns (bits': bv64)
    requires InWorld(rt, arity, evs, words + [bits]) && Frames(evs) != [] && i < 32 && i < arity(Top(Frames(evs)).site)
    modifies rt
    ensures InWorld(rt, arity, evs + [Mark(i)], words + [bits'])
  {
    hide Frames, Legal, RunTrace, HasBit, WithBit, Calls, Marks, Firsts;
    MarkAdds(arity, evs, i, PreMain, 0);
    StepIs(arity, evs, Mark(i));
    bits' := rt.Mark(i, bits);
    assert (words + [bits])[|words| := bits'] == words + [bits'];
  }

  /** An instrumented call site, and the function it calls. */
  method RunCall(rt: Runtime, arity: Arity, id: SiteId, inner: Body, ghost evs: seq<Event>, ghost words: seq<bv64>)
    requires InWorld(rt, arity, evs, words) && Frames(evs) != [] && Fits(arity, id, inner)
    modifies rt
    ensures InWorld(rt, arity, evs + CallTrace(id, inner), words)
    decreases inner, 1
  {
    hide *;
    hide InWorld;
    InWorldIs(rt, arity, evs, words);
    EnterStep(arity, evs, id, rt.Now(), words);
    rt.Call(id, arity(id));
    WorldIsIn(rt, arity, evs + [Enter(id)], words + [0]);
    var bits := RunBody(rt, arity, inner, 0, evs + [Enter(id)], words);
    InWorldIs(rt, arity, evs + [Enter(id)] + Trace(inner), words + [bits]);
    LeaveStep(arity, evs, id, inner, rt.Now(), words, bits);
    NowIs(rt);
    rt.End();
    WorldIsIn(rt, arity, evs + CallTrace(id, inner), words);
  }

  lemma {:induction false} InWorldIs(rt: Runtime, arity: Arity, evs: seq<Event>, words: seq<bv64>)
    requires InWorld(rt, arity, evs, words)
    ensures arity(PreMain) == 2 && Legal(arity, evs) && RunTrace(arity, evs) == World(rt.Now(), words)
  {
    hide Legal, RunTrace;
  }

  lemma {:induction false} WorldIsIn(rt: Runtime, arity: Arity, evs: seq<Event>, words: seq<bv64>)
    requires arity(PreMain) == 2 && Legal(arity, evs) && RunTrace(arity, evs) == World(rt.Now(), words)
    ensures InWorld(rt, arity, evs, words)
  {
    hide Legal, RunTrace;
  }

  lemma NowIs(rt: Runtime)
    ensures rt.Now() == Prof(rt.initialized, rt.profileInfo, rt.callStack)
  {
  }

  lemma {:induction false} EnterStep(arity: Arity, evs: seq<Event>, id: SiteId, p: Prof, words: seq<bv64>)
    requires arity(PreMain) == 2 && Legal(arity, evs) && RunTrace(arity, evs) == World(p, words)
    ensures var next := evs + [Enter(id)];
      && Legal(arity, next) && RunTrace(arity, next) == World(InitCall(p, id, arity(id)), words + [0])
      && Frames(next) != [] && Top(Frames(next)).site == id
  {
    hide Legal, RunTrace, InitCall, Calls, Marks, Firsts;
    EnterAdds(arity, evs, id, PreMain, 0);
    StepIs(arity, evs, Enter(id));
  }

  lemma {:induction false} LeaveStep(arity: Arity, evs: seq<Event>, id: SiteId, inner: Body, p: Prof,
                                     words: seq<bv64>, bits: bv64)
    requires arity(PreMain) == 2 && Legal(arity, evs) && Frames(evs) != [] && Fits(arity, id, inner)
    requires var done := evs + [Enter(id)] + Trace(inner); Legal(arity, done) && RunTrace(arity, done) == World(p, words + [bits])
    ensures p.initialized ==> p.stack != []
    ensures var next := evs + CallTrace(id, inner);
      p.initialized && Legal(arity, next) && RunTrace(arity, next) == World(EndCall(p), words) && Frames(next) == Frames(evs)
  {
    hide Legal, RunTrace, Calls, Marks, Firsts, Frames, Trace;
    WholeCallAdds(arity, evs, id, inner, PreMain, 0);
    var done := evs + [Enter(id)] + Trace(inner);
    assert evs + CallTrace(id, inner) == done + [Leave];
    StepIs(arity, done, Leave);
    assert (words + [bits])[..|words|] == words;
    StackLive(arity, done, p, words + [bits]);
  }

  /** As many calls are active as words are kept. */
  lemma {:induction false} StackLive(arity: Arity, evs: seq<Event>, p: Prof, words: seq<bv64>)
    requires arity(PreMain) == 2 && Legal(arity, evs) && RunTrace(arity, evs) == World(p, words)
    ensures |p.stack| == |words|
  {
    hide Legal, Frames, WordIs, Reports;
  }
}
