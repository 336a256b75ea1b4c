/** `updateThunkArgUses`: first a thunk call is placed for every use of a value, then every use is set to
    the result of its call. */
module UseRewriting {
  import opened Graphs
  import opened Ir
  import opened Forcing
  import opened CallByNeed

  // ---- uses ----

  /** `u` is a use of `target` in `g`. */
  ghost predicate IsUse(g: Function, target: Value, u: Use) {
    var b := Parent(u.0);
    b in g.blocks && b.Orig? &&
    match u.0
    case PhiId(_, k) => k < |g.blocks[b].phis| && u.1 < |g.blocks[b].phis[k].incoming| && g.blocks[b].phis[k].incoming[u.1].1 == target
    case TermId(_) => u.1 == 0 && g.blocks[b].term.Some? && target in g.blocks[b].term.value.Values()
    case _ => exists i :: i in g.blocks[b].body && i.id == u.0 && u.1 < |i.args| && i.args[u.1] == target
  }

  /** Names are those of their blocks, and no instruction is named twice. */
  ghost predicate NamedBlock(b: BlockRef, blk: Block) {
    && b.Orig? && blk.term.Some? && |blk.term.value.Values()| <= 1
    && (forall i | i in blk.body :: Parent(i.id) == b && !i.id.ForceId? && !i.id.TermId? && !i.id.PhiId?)
    && (forall j, k | 0 <= j < k < |blk.body| :: blk.body[j].id != blk.body[k].id)
    && (forall k | 0 <= k < |blk.phis| :: blk.phis[k].id == PhiId(b.b, k))
  }

  ghost predicate Named(g: Function) {
    && (forall b | b in g.blocks :: NamedBlock(b, g.blocks[b]))
    && (forall b, p, e | b in g.blocks && p in g.blocks[b].phis && e in p.incoming :: e.0 in g.blocks)
  }

  /** The use is served at the end of a block. */
  predicate AtEnd(u: Use) {
    u.0.PhiId? || u.0.TermId?
  }

  /** It is `b` at whose end: for a phi, the block the value flows in from. */
  ghost predicate ServedAt(g: Function, u: Use, b: BlockRef) {
    var p := Parent(u.0);
    match u.0
    case PhiId(_, k) => p in g.blocks && k < |g.blocks[p].phis| && u.1 < |g.blocks[p].phis[k].incoming| && g.blocks[p].phis[k].incoming[u.1].0 == b
    case TermId(_) => p == b
    case _ => false
  }

  function CallFor(u: Use): Instr {
    Instr(ForceId(u.0, u.1), Force, [])
  }

  // ---- a block with calls placed, and some uses set ----

  function SetArgs(user: Id, args: seq<Value>, done: set<Use>): (r: seq<Value>)
    ensures |r| == |args|
  {
    seq(|args|, k requires 0 <= k < |args| => if (user, k) in done then Res(ForceId(user, k)) else args[k])
  }

  function SetInstr(i: Instr, done: set<Use>): Instr {
    Instr(i.id, i.op, SetArgs(i.id, i.args, done))
  }

  function SetBody(body: seq<Instr>, calls: map<Id, seq<nat>>, done: set<Use>): seq<Instr> {
    if body == [] then [] else
      var n := |body| - 1;
      SetBody(body[..n], calls, done) + ForcesFor(body[n].id, CallsOf(calls, body[n].id)) + [SetInstr(body[n], done)]
  }

  function SetIncoming(id: Id, inc: seq<(BlockRef, Value)>, done: set<Use>): (r: seq<(BlockRef, Value)>)
    ensures |r| == |inc|
  {
    seq(|inc|, j requires 0 <= j < |inc| => (inc[j].0, if (id, j) in done then Res(ForceId(id, j)) else inc[j].1))
  }

  function SetPhis(phis: seq<Phi>, done: set<Use>): (r: seq<Phi>)
    ensures |r| == |phis|
  {
    seq(|phis|, i requires 0 <= i < |phis| => Phi(phis[i].id, SetIncoming(phis[i].id, phis[i].incoming, done)))
  }

  function SetValue(t: Term, v: Value): Term {
    match t
    case CondBr(_, x, y) => CondBr(v, x, y)
    case Switch(_, ls, ts) => Switch(v, ls, ts)
    case Ret(_) => Ret(v)
    case _ => t
  }

  function SetTerm(b: nat, t: Option<Term>, done: set<Use>): Option<Term> {
    if t.Some? && (TermId(b), 0) in done then Some(SetValue(t.value, Res(ForceId(TermId(b), 0)))) else t
  }

  function SetBlock(b: nat, blk: Block, calls: map<Id, seq<nat>>, tail: seq<Use>, done: set<Use>): Block {
    Block(SetPhis(blk.phis, done), SetBody(blk.body, calls, done) + TailForces(tail), SetTerm(b, blk.term, done))
  }

  // ---- what one insertion and one assignment do ----

  function InsertedBefore(body: seq<Instr>, user: Id, call: Instr): seq<Instr> {
    if body == [] then []
    else if body[0].id == user then [call] + body
    else [body[0]] + InsertedBefore(body[1..], user, call)
  }

  function OperandSet(body: seq<Instr>, user: Id, k: nat, v: Value): seq<Instr> {
    if body == [] then []
    else if body[0].id == user then [if k < |body[0].args| then body[0].(args := body[0].args[k := v]) else body[0]] + body[1..]
    else [body[0]] + OperandSet(body[1..], user, k, v)
  }

  lemma {:induction false} InsertedAt(x: seq<Instr>, i: Instr, y: seq<Instr>, call: Instr)
    requires forall j | j in x :: j.id != i.id
    ensures InsertedBefore(x + [i] + y, i.id, call) == x + [call] + [i] + y
  {
    if x == [] {
      assert x + [i] + y == [i] + y;
    } else {
      assert (x + [i] + y)[1..] == x[1..] + [i] + y && x[0] in x;
      InsertedAt(x[1..], i, y, call);
    }
  }

  lemma {:induction false} OperandSetAt(x: seq<Instr>, i: Instr, y: seq<Instr>, k: nat, v: Value)
    requires (forall j | j in x :: j.id != i.id) && k < |i.args|
    ensures OperandSet(x + [i] + y, i.id, k, v) == x + [i.(args := i.args[k := v])] + y
  {
    if x == [] {
      assert x + [i] + y == [i] + y;
    } else {
      assert (x + [i] + y)[1..] == x[1..] + [i] + y && x[0] in x;
      OperandSetAt(x[1..], i, y, k, v);
    }
  }

  lemma {:induction false} SetBodyConcat(a: seq<Instr>, b: seq<Instr>, calls: map<Id, seq<nat>>, done: set<Use>)
    ensures SetBody(a + b, calls, done) == SetBody(a, calls, done) + SetBody(b, calls, done)
  {
    if b == [] {
      assert a + b == a;
    } else {
      hide ForcesFor, SetInstr, CallsOf;
      var n := |b| - 1;
      assert (a + b)[..|a + b| - 1] == a + b[..n] && (a + b)[|a + b| - 1] == b[n];
      SetBodyConcat(a, b[..n], calls, done);
    }
  }

  lemma {:induction false} SetBodyIds(body: seq<Instr>, calls: map<Id, seq<nat>>, done: set<Use>, id: Id)
    requires (forall i | i in body :: i.id != id) && !id.ForceId?
    ensures forall i | i in SetBody(body, calls, done) :: i.id != id
  {
    if body != [] {
      var n := |body| - 1;
      assert body[n] in body && forall i | i in body[..n] :: i in body;
      SetBodyIds(body[..n], calls, done, id);
    }
  }

  /** Only the calls and uses of its own instructions matter to a piece of code. */
  lemma {:induction false} SetBodySame(body: seq<Instr>, calls: map<Id, seq<nat>>, calls': map<Id, seq<nat>>,
                                       done: set<Use>, done': set<Use>)
    requires forall i | i in body :: CallsOf(calls, i.id) == CallsOf(calls', i.id)
    requires forall i, k | i in body :: (i.id, k) in done <==> (i.id, k) in done'
    ensures SetBody(body, calls, done) == SetBody(body, calls', done')
  {
    if body != [] {
      var n := |body| - 1;
      assert body[n] in body && forall i | i in body[..n] :: i in body;
      SetBodySame(body[..n], calls, calls', done, done');
      assert SetArgs(body[n].id, body[n].args, done) == SetArgs(body[n].id, body[n].args, done');
    }
  }

  /** The code around instruction `n`. */
  lemma {:induction false} SetBodySplit(body: seq<Instr>, n: nat, calls: map<Id, seq<nat>>, done: set<Use>)
    requires n < |body|
    ensures SetBody(body, calls, done) == SetBody(body[..n], calls, done) + ForcesFor(body[n].id, CallsOf(calls, body[n].id))
                                        + [SetInstr(body[n], done)] + SetBody(body[n + 1..], calls, done)
  {
    hide ForcesFor, SetInstr, CallsOf;
    assert body == body[..n + 1] + body[n + 1..] && body[..n + 1][..n] == body[..n];
    SetBodyConcat(body[..n + 1], body[n + 1..], calls, done);
  }

  ghost predicate OwnNames(body: seq<Instr>) {
    && (forall i | i in body :: !i.id.ForceId?)
    && forall j, k | 0 <= j < k < |body| :: body[j].id != body[k].id
  }

  lemma {:induction false} AroundNamed(body: seq<Instr>, n: nat, calls: map<Id, seq<nat>>, done: set<Use>)
    requires OwnNames(body) && n < |body|
    ensures !body[n].id.ForceId?
    ensures forall i | i in body[..n] || i in body[n + 1..] :: i.id != body[n].id
    ensures forall i | i in SetBody(body[..n], calls, done) + ForcesFor(body[n].id, CallsOf(calls, body[n].id)) :: i.id != body[n].id
  {
    assert body[n] in body;
    SetBodyIds(body[..n], calls, done, body[n].id);
  }

  lemma Regroup<T>(x: seq<T>, fs: seq<T>, i: T, y: seq<T>, t: seq<T>)
    ensures x + fs + [i] + y + t == (x + fs) + [i] + (y + t)
  {
  }

  lemma RegroupOne<T>(x: seq<T>, fs: seq<T>, c: T, i: T, y: seq<T>, t: seq<T>)
    ensures x + (fs + [c]) + [i] + y + t == (x + fs) + [c] + [i] + (y + t)
  {
  }

  lemma OneMoreForce(user: Id, ks: seq<nat>, k: nat)
    ensures ForcesFor(user, ks + [k]) == ForcesFor(user, ks) + [CallFor((user, k))]
  {
  }

  lemma CallsChanged(body: seq<Instr>, n: nat, calls: map<Id, seq<nat>>, ks: seq<nat>)
    requires OwnNames(body) && n < |body|
    ensures CallsOf(calls[body[n].id := ks], body[n].id) == ks
    ensures SetBody(body[..n], calls[body[n].id := ks], {}) == SetBody(body[..n], calls, {})
    ensures SetBody(body[n + 1..], calls[body[n].id := ks], {}) == SetBody(body[n + 1..], calls, {})
  {
    var calls' := calls[body[n].id := ks];
    hide OwnNames, SetBody;
    AroundNamed(body, n, calls, {});
    SetBodySame(body[..n], calls, calls', {}, {});
    SetBodySame(body[n + 1..], calls, calls', {}, {});
  }

  lemma {:induction false} UsesChanged(body: seq<Instr>, n: nat, k: nat, calls: map<Id, seq<nat>>, done: set<Use>)
    requires OwnNames(body) && n < |body| && k < |body[n].args|
    ensures var done' := done + {(body[n].id, k)};
      && SetBody(body[..n], calls, done') == SetBody(body[..n], calls, done)
      && SetBody(body[n + 1..], calls, done') == SetBody(body[n + 1..], calls, done)
      && SetInstr(body[n], done') == SetInstr(body[n], done).(args := SetInstr(body[n], done).args[k := Res(ForceId(body[n].id, k))])
  {
    var done' := done + {(body[n].id, k)};
    hide OwnNames, SetBody;
    AroundNamed(body, n, calls, done);
    SetBodySame(body[..n], calls, calls, done, done');
    SetBodySame(body[n + 1..], calls, calls, done, done');
    assert SetInstr(body[n], done').args == SetInstr(body[n], done).args[k := Res(ForceId(body[n].id, k))];
  }

  /** Placing one more call before instruction `n`. */
  lemma CallPlaced(body: seq<Instr>, n: nat, k: nat, calls: map<Id, seq<nat>>, tail: seq<Instr>)
    requires OwnNames(body) && n < |body|
    ensures var id := body[n].id;
      InsertedBefore(SetBody(body, calls, {}) + tail, id, CallFor((id, k))) ==
      SetBody(body, calls[id := CallsOf(calls, id) + [k]], {}) + tail
  {
    hide *;
    var i, c := body[n], CallFor((body[n].id, k));
    var ks := CallsOf(calls, i.id) + [k];
    var calls' := calls[i.id := ks];
    SetBodySplit(body, n, calls, {});
    SetBodySplit(body, n, calls', {});
    AroundNamed(body, n, calls, {});
    CallsChanged(body, n, calls, ks);
    var fs := ForcesFor(i.id, CallsOf(calls, i.id));
    var x, y := SetBody(body[..n], calls, {}), SetBody(body[n + 1..], calls, {});
    OneMoreForce(i.id, CallsOf(calls, i.id), k);
    SetInstrId(i, {});
    Regroup(x, fs, SetInstr(i, {}), y, tail);
    RegroupOne(x, fs, c, SetInstr(i, {}), y, tail);
    InsertedAt(x + fs, SetInstr(i, {}), y + tail, c);
  }

  lemma SetInstrId(i: Instr, done: set<Use>)
    ensures SetInstr(i, done).id == i.id && |SetInstr(i, done).args| == |i.args|
  {
  }

  /** Setting one more operand of instruction `n`. */
  lemma {:induction false} OperandIsSet(body: seq<Instr>, n: nat, k: nat, calls: map<Id, seq<nat>>,
                                        done: set<Use>, tail: seq<Instr>)
    requires OwnNames(body) && n < |body| && k < |body[n].args|
    ensures var id := body[n].id;
      OperandSet(SetBody(body, calls, done) + tail, id, k, Res(ForceId(id, k))) == SetBody(body, calls, done + {(id, k)}) + tail
  {
    hide *;
    var i := body[n];
    var done' := done + {(i.id, k)};
    SetBodySplit(body, n, calls, done);
    SetBodySplit(body, n, calls, done');
    AroundNamed(body, n, calls, done);
    UsesChanged(body, n, k, calls, done);
    SetInstrId(i, done);
    var fs := ForcesFor(i.id, CallsOf(calls, i.id));
    var x, y := SetBody(body[..n], calls, done), SetBody(body[n + 1..], calls, done);
    Regroup(x, fs, SetInstr(i, done), y, tail);
    Regroup(x, fs, SetInstr(i, done'), y, tail);
    OperandSetAt(x + fs, SetInstr(i, done), y + tail, k, Res(ForceId(i.id, k)));
  }

  // ---- the state of the rewriting ----

  /** For the uses `placed` the calls have been placed, as `calls` and `tails` list them. */
  ghost predicate Recorded(g: Function, placed: set<Use>, calls: map<Id, seq<nat>>, tails: map<BlockRef, seq<Use>>) {
    && (forall u: Use | !AtEnd(u) :: u.1 in CallsOf(calls, u.0) <==> u in placed)
    && (forall b, u | b in tails :: u in tails[b] <==> u in placed && ServedAt(g, u, b))
  }

  /** The blocks are those of `g` with the listed calls placed and the uses `done` set. */
  ghost predicate Rewritten(g: Function, calls: map<Id, seq<nat>>, tails: map<BlockRef, seq<Use>>,
                            done: set<Use>, blocks: map<BlockRef, Block>) {
    && blocks.Keys == g.blocks.Keys == tails.Keys
    && forall b | b in g.blocks && b.Orig? :: blocks[b] == SetBlock(b.b, g.blocks[b], calls, tails[b], done)
  }

  lemma NothingSet(b: nat, blk: Block)
    ensures SetBlock(b, blk, map[], [], {}) == blk
  {
    SetBodyNothing(blk.body);
    forall i | 0 <= i < |blk.phis|
      ensures SetPhis(blk.phis, {})[i] == blk.phis[i]
    {
      assert SetIncoming(blk.phis[i].id, blk.phis[i].incoming, {}) == blk.phis[i].incoming;
    }
    assert SetPhis(blk.phis, {}) == blk.phis;
  }

  lemma {:induction false} SetBodyNothing(body: seq<Instr>)
    ensures SetBody(body, map[], {}) == body
  {
    if body != [] {
      var n := |body| - 1;
      SetBodyNothing(body[..n]);
      assert SetArgs(body[n].id, body[n].args, {}) == body[n].args;
    }
  }

  lemma StartsRewritten(g: Function) returns (tails: map<BlockRef, seq<Use>>)
    ensures Rewritten(g, map[], tails, {}, g.blocks) && Recorded(g, {}, map[], tails)
  {
    tails := map b | b in g.blocks :: [];
    forall b | b in g.blocks && b.Orig?
      ensures g.blocks[b] == SetBlock(b.b, g.blocks[b], map[], tails[b], {})
    {
      NothingSet(b.b, g.blocks[b]);
    }
  }

  lemma NamedHere(b: BlockRef, blk: Block)
    requires NamedBlock(b, blk)
    ensures OwnNames(blk.body) && forall i | i in blk.body :: Parent(i.id) == b && !i.id.TermId? && !i.id.PhiId?
  {
  }

  lemma UserOf(g: Function, target: Value, u: Use) returns (n: nat)
    requires IsUse(g, target, u) && !AtEnd(u)
    ensures var b := Parent(u.0); b in g.blocks && b.Orig? && n < |g.blocks[b].body| && g.blocks[b].body[n].id == u.0
                                  && u.1 < |g.blocks[b].body[n].args| && g.blocks[b].body[n].args[u.1] == target
  {
    var b := Parent(u.0);
    var i :| i in g.blocks[b].body && i.id == u.0 && u.1 < |i.args| && i.args[u.1] == target;
    n :| 0 <= n < |g.blocks[b].body| && g.blocks[b].body[n] == i;
  }

  // ---- placing a call ----

  lemma RecordedBody(g: Function, placed: set<Use>, calls: map<Id, seq<nat>>, tails: map<BlockRef, seq<Use>>, u: Use)
    requires Recorded(g, placed, calls, tails) && !AtEnd(u)
    ensures Recorded(g, placed + {u}, calls[u.0 := CallsOf(calls, u.0) + [u.1]], tails)
  {
    var calls' := calls[u.0 := CallsOf(calls, u.0) + [u.1]];
    forall v: Use | !AtEnd(v)
      ensures v.1 in CallsOf(calls', v.0) <==> v in placed + {u}
    {
    }
  }

  lemma RecordedEnd(g: Function, placed: set<Use>, calls: map<Id, seq<nat>>, tails: map<BlockRef, seq<Use>>,
                    u: Use, b: BlockRef)
    requires Recorded(g, placed, calls, tails) && AtEnd(u) && b in tails && ServedAt(g, u, b)
    ensures Recorded(g, placed + {u}, calls, tails[b := tails[b] + [u]])
  {
    hide CallsOf;
  }

  /** The call for a use by an instruction goes in front of it. */
  lemma PlaceBefore(g: Function, target: Value, calls: map<Id, seq<nat>>, tails: map<BlockRef, seq<Use>>,
                    blocks: map<BlockRef, Block>, u: Use)
    requires Named(g) && IsUse(g, target, u) && !AtEnd(u) && Rewritten(g, calls, tails, {}, blocks)
    ensures Parent(u.0) in blocks
    ensures var b := Parent(u.0);
      Rewritten(g, calls[u.0 := CallsOf(calls, u.0) + [u.1]], tails, {},
                blocks[b := blocks[b].(body := InsertedBefore(blocks[b].body, u.0, CallFor(u)))])
  {
    hide *;
    hide Named, NamedBlock;
    var b := Parent(u.0);
    var n := UserOf(g, target, u);
    var ks := CallsOf(calls, u.0) + [u.1];
    NamedAt(g, b);
    NamedHere(b, g.blocks[b]);
    BlockIsRewritten(g, calls, tails, {}, blocks, b);
    CallPlaced(g.blocks[b].body, n, u.1, calls, TailForces(tails[b]));
    PairOf(u);
    BodyPlaced(b.b, g.blocks[b], calls, calls[u.0 := ks], tails[b], blocks[b], InsertedBefore(blocks[b].body, u.0, CallFor(u)));
    forall q | q in g.blocks && q.Orig? && q != b
      ensures SetBlock(q.b, g.blocks[q], calls[u.0 := ks], tails[q], {}) == SetBlock(q.b, g.blocks[q], calls, tails[q], {})
    {
      NamedAt(g, q);
      NamedHere(q, g.blocks[q]);
      OtherCalls(g.blocks[q].body, calls, u.0, ks);
      BlockOfParts(q.b, g.blocks[q], calls, tails[q], {}, calls[u.0 := ks], {});
    }
    OneBlockChanges(g, calls, tails, {}, blocks, calls[u.0 := ks], {}, b,
                    blocks[b].(body := InsertedBefore(blocks[b].body, u.0, CallFor(u))));
  }

  lemma PairOf(u: Use)
    ensures (u.0, u.1) == u
  {
  }

  lemma NamedAt(g: Function, b: BlockRef)
    requires Named(g) && b in g.blocks
    ensures NamedBlock(b, g.blocks[b]) && b.Orig?
  {
  }

  lemma {:induction false} BlockIsRewritten(g: Function, calls: map<Id, seq<nat>>,
                                            tails: map<BlockRef, seq<Use>>, done: set<Use>,
                                            blocks: map<BlockRef, Block>, b: BlockRef)
    requires Rewritten(g, calls, tails, done, blocks) && b in g.blocks && b.Orig?
    ensures blocks.Keys == g.blocks.Keys == tails.Keys
    ensures b in blocks && b in tails && blocks[b] == SetBlock(b.b, g.blocks[b], calls, tails[b], done)
    ensures blocks[b].body == SetBody(g.blocks[b].body, calls, done) + TailForces(tails[b])
  {
    hide SetBody, SetPhis, SetTerm, TailForces;
  }

  lemma {:induction false} BodyPlaced(b: nat, blk: Block, calls: map<Id, seq<nat>>, calls': map<Id, seq<nat>>,
                                      tail: seq<Use>, now: Block, body: seq<Instr>)
    requires now == SetBlock(b, blk, calls, tail, {}) && body == SetBody(blk.body, calls', {}) + TailForces(tail)
    ensures now.(body := body) == SetBlock(b, blk, calls', tail, {})
  {
    hide SetBody, SetPhis, SetTerm, TailForces;
  }

  lemma {:induction false} BlockOfParts(b: nat, blk: Block, calls: map<Id, seq<nat>>, tail: seq<Use>,
                                        done: set<Use>, calls': map<Id, seq<nat>>, done': set<Use>)
    requires SetBody(blk.body, calls', done') == SetBody(blk.body, calls, done)
    requires SetPhis(blk.phis, done') == SetPhis(blk.phis, done) && SetTerm(b, blk.term, done') == SetTerm(b, blk.term, done)
    ensures SetBlock(b, blk, calls', tail, done') == SetBlock(b, blk, calls, tail, done)
  {
    hide SetBody, SetPhis, SetTerm, TailForces;
  }

  lemma OneBlockChanges(g: Function, calls: map<Id, seq<nat>>, tails: map<BlockRef, seq<Use>>, done: set<Use>,
                        blocks: map<BlockRef, Block>,
                        calls': map<Id, seq<nat>>, done': set<Use>, b: BlockRef, blk: Block)
    requires Rewritten(g, calls, tails, done, blocks) && b in g.blocks && b.Orig? && b in tails
    requires blk == SetBlock(b.b, g.blocks[b], calls', tails[b], done')
    requires forall q | q in g.blocks && q.Orig? && q != b && q in tails ::
      SetBlock(q.b, g.blocks[q], calls', tails[q], done') == SetBlock(q.b, g.blocks[q], calls, tails[q], done)
    ensures Rewritten(g, calls', tails, done', blocks[b := blk])
  {
    hide SetBlock;
  }

  lemma OtherCalls(body: seq<Instr>, calls: map<Id, seq<nat>>, id: Id, ks: seq<nat>)
    requires forall i | i in body :: i.id != id
    ensures SetBody(body, calls[id := ks], {}) == SetBody(body, calls, {})
  {
    SetBodySame(body, calls[id := ks], calls, {}, {});
  }

  lemma PlaceAtEnd(g: Function, calls: map<Id, seq<nat>>, tails: map<BlockRef, seq<Use>>,
                   blocks: map<BlockRef, Block>, u: Use, b: BlockRef)
    requires Rewritten(g, calls, tails, {}, blocks) && b in g.blocks
    ensures Rewritten(g, calls, tails[b := tails[b] + [u]], {}, blocks[b := blocks[b].(body := blocks[b].body + [CallFor(u)])])
  {
    hide SetBody, SetPhis, SetTerm;
    assert TailForces(tails[b] + [u]) == TailForces(tails[b]) + [CallFor(u)];
    if b.Orig? {
      assert SetBody(g.blocks[b].body, calls, {}) + TailForces(tails[b] + [u]) ==
             SetBody(g.blocks[b].body, calls, {}) + TailForces(tails[b]) + [CallFor(u)];
    }
  }

  lemma EndBlockExists(g: Function, target: Value, u: Use)
    requires Named(g) && IsUse(g, target, u) && AtEnd(u)
    ensures Parent(u.0) in g.blocks
    ensures u.0.PhiId? ==> u.0.k < |g.blocks[Parent(u.0)].phis| && u.1 < |g.blocks[Parent(u.0)].phis[u.0.k].incoming|
    ensures u.0.PhiId? ==> g.blocks[Parent(u.0)].phis[u.0.k].incoming[u.1].0 in g.blocks
  {
    if u.0.PhiId? {
      var p := g.blocks[Parent(u.0)].phis[u.0.k];
      assert p in g.blocks[Parent(u.0)].phis && p.incoming[u.1] in p.incoming;
    }
  }

  // ---- setting a use ----

  lemma {:induction false} OtherUses(b: BlockRef, blk: Block, calls: map<Id, seq<nat>>, done: set<Use>, u: Use)
    requires NamedBlock(b, blk) && b != Parent(u.0)
    ensures SetBody(blk.body, calls, done + {u}) == SetBody(blk.body, calls, done)
    ensures SetPhis(blk.phis, done + {u}) == SetPhis(blk.phis, done) && SetTerm(b.b, blk.term, done + {u}) == SetTerm(b.b, blk.term, done)
  {
    SetBodySame(blk.body, calls, calls, done + {u}, done);
    forall i | 0 <= i < |blk.phis|
      ensures SetPhis(blk.phis, done + {u})[i] == SetPhis(blk.phis, done)[i]
    {
      assert SetIncoming(blk.phis[i].id, blk.phis[i].incoming, done + {u}) == SetIncoming(blk.phis[i].id, blk.phis[i].incoming, done);
    }
  }

  /** What `set` makes of one block. */
  function UseSet(blk: Block, u: Use, v: Value): Block {
    match u.0
    case PhiId(_, k) =>
      if k < |blk.phis| && u.1 < |blk.phis[k].incoming| then
        var p := blk.phis[k];
        blk.(phis := blk.phis[k := p.(incoming := p.incoming[u.1 := (p.incoming[u.1].0, v)])])
      else blk
    case TermId(_) => if blk.term.Some? then blk.(term := Some(SetValue(blk.term.value, v))) else blk
    case _ => blk.(body := OperandSet(blk.body, u.0, u.1, v))
  }

  lemma PhiUseSet(b: BlockRef, blk: Block, calls: map<Id, seq<nat>>, tail: seq<Use>, done: set<Use>, u: Use)
    requires NamedBlock(b, blk) && Parent(u.0) == b && u.0.PhiId? && u.0.k < |blk.phis| && u.1 < |blk.phis[u.0.k].incoming|
    ensures UseSet(SetBlock(b.b, blk, calls, tail, done), u, Res(ForceId(u.0, u.1))) == SetBlock(b.b, blk, calls, tail, done + {u})
  {
    hide SetBody;
    SetBodySame(blk.body, calls, calls, done, done + {u});
    var x, y := UseSet(SetBlock(b.b, blk, calls, tail, done), u, Res(ForceId(u.0, u.1))), SetBlock(b.b, blk, calls, tail, done + {u});
    forall i | 0 <= i < |blk.phis|
      ensures x.phis[i] == y.phis[i]
    {
      assert x.phis[i].incoming == y.phis[i].incoming;
    }
  }

  lemma TermUseSet(b: BlockRef, blk: Block, calls: map<Id, seq<nat>>, tail: seq<Use>, done: set<Use>, u: Use)
    requires NamedBlock(b, blk) && Parent(u.0) == b && u.0.TermId? && u.1 == 0
    ensures UseSet(SetBlock(b.b, blk, calls, tail, done), u, Res(ForceId(u.0, u.1))) == SetBlock(b.b, blk, calls, tail, done + {u})
  {
    hide SetBody;
    SetBodySame(blk.body, calls, calls, done, done + {u});
    var x, y := SetPhis(blk.phis, done), SetPhis(blk.phis, done + {u});
    forall i | 0 <= i < |blk.phis|
      ensures x[i] == y[i]
    {
      assert x[i].incoming == y[i].incoming;
    }
  }

  lemma InstrUseSet(b: BlockRef, blk: Block, calls: map<Id, seq<nat>>, tail: seq<Use>, done: set<Use>, u: Use, n: nat)
    requires NamedBlock(b, blk) && Parent(u.0) == b && !AtEnd(u) && n < |blk.body| && blk.body[n].id == u.0 && u.1 < |blk.body[n].args|
    ensures UseSet(SetBlock(b.b, blk, calls, tail, done), u, Res(ForceId(u.0, u.1))) == SetBlock(b.b, blk, calls, tail, done + {u})
  {
    NamedHere(b, blk);
    hide SetBody, OperandSet, OwnNames, TailForces;
    OperandIsSet(blk.body, n, u.1, calls, done, TailForces(tail));
    var x, y := SetPhis(blk.phis, done), SetPhis(blk.phis, done + {u});
    forall i | 0 <= i < |blk.phis|
      ensures x[i] == y[i]
    {
      assert x[i].incoming == y[i].incoming;
    }
  }

  /** Setting one more use, whatever the user is. */
  lemma SetOne(g: Function, target: Value, calls: map<Id, seq<nat>>, tails: map<BlockRef, seq<Use>>, done: set<Use>,
               blocks: map<BlockRef, Block>, u: Use)
    requires Named(g) && IsUse(g, target, u) && Rewritten(g, calls, tails, done, blocks)
    ensures Parent(u.0) in blocks
    ensures var b := Parent(u.0);
      Rewritten(g, calls, tails, done + {u}, blocks[b := UseSet(blocks[b], u, Res(ForceId(u.0, u.1)))])
  {
    hide *;
    hide Named, NamedBlock;
    var b := Parent(u.0);
    UserInside(g, target, u);
    NamedAt(g, b);
    BlockIsRewritten(g, calls, tails, done, blocks, b);
    UserUseSet(g, target, calls, tails[b], done, u);
    forall q | q in g.blocks && q.Orig? && q != b && q in tails
      ensures SetBlock(q.b, g.blocks[q], calls, tails[q], done + {u}) == SetBlock(q.b, g.blocks[q], calls, tails[q], done)
    {
      NamedAt(g, q);
      OtherUses(q, g.blocks[q], calls, done, u);
      BlockOfParts(q.b, g.blocks[q], calls, tails[q], done, calls, done + {u});
    }
    OneBlockChanges(g, calls, tails, done, blocks, calls, done + {u}, b, UseSet(blocks[b], u, Res(ForceId(u.0, u.1))));
  }

  lemma UserInside(g: Function, target: Value, u: Use)
    requires IsUse(g, target, u)
    ensures Parent(u.0) in g.blocks && Parent(u.0).Orig?
  {
  }

  lemma UserUseSet(g: Function, target: Value, calls: map<Id, seq<nat>>, tail: seq<Use>, done: set<Use>, u: Use)
    requires Named(g) && IsUse(g, target, u) && Parent(u.0) in g.blocks && Parent(u.0).Orig?
    ensures var b := Parent(u.0);
      UseSet(SetBlock(b.b, g.blocks[b], calls, tail, done), u, Res(ForceId(u.0, u.1))) == SetBlock(b.b, g.blocks[b], calls, tail, done + {u})
  {
    hide SetBlock, UseSet, NamedBlock;
    var b := Parent(u.0);
    NamedAt(g, b);
    if u.0.PhiId? {
      PhiUseSet(b, g.blocks[b], calls, tail, done, u);
    } else if u.0.TermId? {
      TermUseSet(b, g.blocks[b], calls, tail, done, u);
    } else {
      var n := UserOf(g, target, u);
      InstrUseSet(b, g.blocks[b], calls, tail, done, u, n);
    }
  }

  // ---- all uses are set ----

  ghost predicate AllUses(g: Function, target: Value, uses: set<Use>) {
    forall u: Use :: u in uses <==> IsUse(g, target, u)
  }

  lemma InstrUse(g: Function, target: Value, b: BlockRef, i: Instr, k: nat)
    requires Named(g) && b in g.blocks && i in g.blocks[b].body
    ensures IsUse(g, target, (i.id, k)) <==> k < |i.args| && i.args[k] == target
    ensures !AtEnd((i.id, k))
  {
    assert NamedBlock(b, g.blocks[b]);
    if IsUse(g, target, (i.id, k)) {
      var n := UserOf(g, target, (i.id, k));
      var m :| 0 <= m < |g.blocks[b].body| && g.blocks[b].body[m] == i;
      assert m == n;
    }
  }

  lemma CallsAreExact(g: Function, target: Value, uses: set<Use>, calls: map<Id, seq<nat>>, tails: map<BlockRef, seq<Use>>)
    requires Named(g) && AllUses(g, target, uses) && Recorded(g, uses, calls, tails)
    ensures CallsExact(g, target, calls)
  {
    hide Named, IsUse, AtEnd, ServedAt;
    forall b, i, k: nat | b in g.blocks && i in g.blocks[b].body
      ensures k in CallsOf(calls, i.id) <==> k < |i.args| && i.args[k] == target
    {
      InstrUse(g, target, b, i, k);
      assert (i.id, k).1 in CallsOf(calls, (i.id, k).0) <==> (i.id, k) in uses;
    }
  }

  lemma EndUse(g: Function, target: Value, b: BlockRef, u: Use)
    requires Named(g) && b in g.blocks
    ensures TailUse(g, target, b, u) <==> IsUse(g, target, u) && ServedAt(g, u, b)
  {
    assert NamedBlock(b, g.blocks[b]);
    if TailUse(g, target, b, u) && !(u == (TermId(b.b), 0) && target in g.blocks[b].term.value.Values()) {
      var q, p :| q in g.blocks && p in g.blocks[q].phis && u.0 == p.id && u.1 < |p.incoming| && p.incoming[u.1] == (b, target);
      assert NamedBlock(q, g.blocks[q]);
      var k :| 0 <= k < |g.blocks[q].phis| && g.blocks[q].phis[k] == p;
      assert u.0 == PhiId(q.b, k);
    }
    if IsUse(g, target, u) && ServedAt(g, u, b) && u.0.PhiId? {
      var q := Parent(u.0);
      assert NamedBlock(q, g.blocks[q]);
      assert g.blocks[q].phis[u.0.k] in g.blocks[q].phis;
    }
  }

  lemma TailsAreExact(g: Function, target: Value, uses: set<Use>, calls: map<Id, seq<nat>>, tails: map<BlockRef, seq<Use>>)
    requires Named(g) && AllUses(g, target, uses) && Recorded(g, uses, calls, tails) && tails.Keys == g.blocks.Keys
    ensures TailsExact(g, target, tails)
  {
    hide Named, IsUse, AtEnd, ServedAt, TailUse, CallsOf;
    forall b, u | b in g.blocks
      ensures u in tails[b] <==> TailUse(g, target, b, u)
    {
      EndUse(g, target, b, u);
    }
  }

  lemma {:induction false} BodyAllSet(g: Function, target: Value, uses: set<Use>, b: BlockRef, n: nat,
                                      calls: map<Id, seq<nat>>)
    requires Named(g) && AllUses(g, target, uses) && b in g.blocks && n <= |g.blocks[b].body|
    ensures SetBody(g.blocks[b].body[..n], calls, uses) == Weave(g.blocks[b].body[..n], calls, target)
  {
    if n > 0 {
      var body := g.blocks[b].body;
      hide Named, IsUse, AtEnd, ForcesFor, CallsOf;
      BodyAllSet(g, target, uses, b, n - 1, calls);
      assert body[..n][..n - 1] == body[..n - 1];
      var i := body[n - 1];
      forall k | 0 <= k < |i.args|
        ensures SetArgs(i.id, i.args, uses)[k] == ForcedArgs(i.id, i.args, target)[k]
      {
        assert i in body;
        InstrUse(g, target, b, i, k);
      }
      assert SetArgs(i.id, i.args, uses) == ForcedArgs(i.id, i.args, target);
    }
  }

  lemma EndsAllSet(g: Function, target: Value, uses: set<Use>, b: BlockRef)
    requires Named(g) && AllUses(g, target, uses) && b in g.blocks && b.Orig?
    ensures SetPhis(g.blocks[b].phis, uses) == ForcedPhis(g.blocks[b].phis, target)
    ensures g.blocks[b].term.Some?
    ensures SetTerm(b.b, g.blocks[b].term, uses) == Some(ForcedTerm(TermId(b.b), g.blocks[b].term.value, target))
  {
    assert NamedBlock(b, g.blocks[b]);
    var phis := g.blocks[b].phis;
    forall i | 0 <= i < |phis|
      ensures SetPhis(phis, uses)[i] == ForcedPhis(phis, target)[i]
    {
      forall j | 0 <= j < |phis[i].incoming|
        ensures SetIncoming(phis[i].id, phis[i].incoming, uses)[j] == ForcedIncoming(phis[i].id, phis[i].incoming, target)[j]
      {
        assert (phis[i].id, j) in uses <==> IsUse(g, target, (phis[i].id, j));
      }
      assert SetIncoming(phis[i].id, phis[i].incoming, uses) == ForcedIncoming(phis[i].id, phis[i].incoming, target);
    }
    assert SetPhis(phis, uses) == ForcedPhis(phis, target);
    assert (TermId(b.b), 0) in uses <==> IsUse(g, target, (TermId(b.b), 0));
  }

  /** With every use served and set, the function is the forced one. */
  lemma RewrittenIsForced(g: Function, target: Value, uses: set<Use>, calls: map<Id, seq<nat>>,
                          tails: map<BlockRef, seq<Use>>,
                          blocks: map<BlockRef, Block>)
    requires Named(g) && AllUses(g, target, uses) && Recorded(g, uses, calls, tails) && Rewritten(g, calls, tails, uses, blocks)
    ensures IsForced(g, target, calls, tails, g.(blocks := blocks))
  {
    hide Named, AllUses, Recorded, CallsExact, TailsExact, SetBody, SetPhis, SetTerm, Weave, ForcedPhis,
         ForcedTerm, TailForces;
    CallsAreExact(g, target, uses, calls, tails);
    TailsAreExact(g, target, uses, calls, tails);
    forall b: nat | Orig(b) in g.blocks
      ensures blocks[Orig(b)] == ForcedBlock(b, g.blocks[Orig(b)], calls, tails[Orig(b)], target)
    {
      var body := g.blocks[Orig(b)].body;
      BodyAllSet(g, target, uses, Orig(b), |body|, calls);
      assert body[..|body|] == body;
      EndsAllSet(g, target, uses, Orig(b));
    }
  }
}
