/** The profile file: what the runtime prints, and what the pass that reads it back finds. */
module ProfileFile {
  import opened Ir
  import opened Profile
  import opened Decimals

  const Titles := "fun_name," + "call_id," + "total_calls," + "num_args," + "unique_evals," + "total_evals"
  const Header := Titles + "\n"

  // ---- printing ----

  function Cell(s: string): string {
    s + ","
  }

  function PrintNumbers(ns: seq<int>): string {
    if ns == [] then [] else Cell(Decimal(ns[0])) + PrintNumbers(ns[1..])
  }

  function PrintRow(id: SiteId, r: Report): string {
    Cell(id.fun) + (Cell(Decimal(id.call)) + (Cell(Decimal(r.numCalls)) + (Cell(Decimal(r.numArgs))
      + (PrintNumbers(r.unique) + (PrintNumbers(r.total) + "\n")))))
  }

  function PrintRows(ids: seq<SiteId>, profile: map<SiteId, Report>): string
    requires forall id | id in ids :: id in profile
  {
    if ids == [] then [] else PrintRow(ids[0], profile[ids[0]]) + PrintRows(ids[1..], profile)
  }

  /** Some order of the keys of a profile: the original's is by address. */
  ghost predicate Lists(ids: seq<SiteId>, profile: map<SiteId, Report>) {
    Distinct(ids) && forall id :: id in ids <==> id in profile
  }

  lemma Assoc(a: string, b: string, c: string)
    ensures a + b + c == a + (b + c)
  {
  }

  lemma Chain(x: string, a: string, b: string, c: string, d: string, e: string, f: string, g: string)
    ensures x + a + b + c + d + e + f + g == x + (a + (b + (c + (d + (e + (f + g))))))
  {
    Assoc(x + a + b + c + d + e, f, g);
    Assoc(x + a + b + c + d, e, f + g);
    Assoc(x + a + b + c, d, e + (f + g));
    Assoc(x + a + b, c, d + (e + (f + g)));
    Assoc(x + a, b, c + (d + (e + (f + g))));
    Assoc(x, a, b + (c + (d + (e + (f + g)))));
  }

  /** Appends one row to a file. */
  method PrintOne(file: string, id: SiteId, r: Report) returns (out: string)
    ensures out == file + PrintRow(id, r)
  {
    hide Cell, Decimal, PrintNumbers;
    out := file + Cell(id.fun) + Cell(Decimal(id.call)) + Cell(Decimal(r.numCalls)) + Cell(Decimal(r.numArgs));
    out := PrintAll(out, r.unique);
    out := PrintAll(out, r.total);
    out := out + "\n";
    Chain(file, Cell(id.fun), Cell(Decimal(id.call)), Cell(Decimal(r.numCalls)), Cell(Decimal(r.numArgs)),
          PrintNumbers(r.unique), PrintNumbers(r.total), "\n");
  }

  method PrintAll(file: string, ns: seq<int>) returns (out: string)
    ensures out == file + PrintNumbers(ns)
  {
    out := file;
    hide Decimal;
    for i := 0 to |ns|
      invariant out + PrintNumbers(ns[i..]) == file + PrintNumbers(ns)
    {
      assert ns[i..][0] == ns[i] && ns[i..][1..] == ns[i + 1..];
      Assoc(out, Cell(Decimal(ns[i])), PrintNumbers(ns[i + 1..]));
      out := out + Cell(Decimal(ns[i]));
    }
  }

  lemma HeaderIs()
    ensures Header == "fun_name,call_id,total_calls,num_args,unique_evals,total_evals\n"
  {
    assert "fun_name," + "call_id," == "fun_name,call_id,";
    assert "fun_name,call_id," + "total_calls," == "fun_name,call_id,total_calls,";
    assert "fun_name,call_id,total_calls," + "num_args," == "fun_name,call_id,total_calls,num_args,";
    assert "fun_name,call_id,total_calls,num_args," + "unique_evals," == "fun_name,call_id,total_calls,num_args,unique_evals,";
    assert "fun_name,call_id,total_calls,num_args,unique_evals," + "total_evals" == "fun_name,call_id,total_calls,num_args,unique_evals,total_evals";
    assert "fun_name,call_id,total_calls,num_args,unique_evals,total_evals" + "\n" == "fun_name,call_id,total_calls,num_args,unique_evals,total_evals\n";
  }

  method Dump(profile: map<SiteId, Report>) returns (file: string, ghost ids: seq<SiteId>)
    ensures Lists(ids, profile) && file == Header + PrintRows(ids, profile)
    ensures "fun_name,call_id,total_calls,num_args,unique_evals,total_evals\n" <= file
  {
    hide PrintRow;
    HeaderIs();
    hide Header;
    file := Header;
    ids := [];
    NoneDistinct<SiteId>();
    hide Distinct;
    var left := profile.Keys;
    while left != {}
      invariant left <= profile.Keys && Distinct(ids) && (forall id :: id in ids <==> id in profile.Keys - left)
      invariant file == Header + PrintRows(ids, profile)
    {
      var id :| id in left;
      OneMore(ids, id);
      Assoc(Header, PrintRows(ids, profile), PrintRow(id, profile[id]));
      file := PrintOne(file, id, profile[id]);
      RowsConcat(ids, id, profile);
      ids, left := ids + [id], left - {id};
    }
  }

  lemma {:induction false} RowsConcat(ids: seq<SiteId>, id: SiteId, profile: map<SiteId, Report>)
    requires (forall x | x in ids :: x in profile) && id in profile
    ensures PrintRows(ids + [id], profile) == PrintRows(ids, profile) + PrintRow(id, profile[id])
  {
    hide PrintRow;
    if ids == [] {
      assert [id][1..] == [] && PrintRows([id], profile) == PrintRow(id, profile[id]) + PrintRows([], profile);
    } else {
      assert (ids + [id])[1..] == ids[1..] + [id];
      RowsConcat(ids[1..], id, profile);
    }
  }

  // ---- reading ----

  /** What is left of the file, whether reading has not failed, and the last field read. */
  datatype Stream = Stream(rest: string, good: bool, val: string)

  function IndexOf(s: string, c: char): (i: nat)
    ensures i <= |s| && (i < |s| ==> s[i] == c) && c !in s[..i]
  {
    if s == [] || s[0] == c then 0 else
      var i := IndexOf(s[1..], c);
      assert s[..i + 1] == [s[0]] + s[1..][..i];
      i + 1
  }

  lemma {:induction false} SplitThere(s: string, c: char)
    ensures var i := IndexOf(s, c); (c in s <==> i < |s|) && (i < |s| ==> s == s[..i] + [c] + s[i + 1..]) && (i == |s| ==> s[..i] == s)
  {
  }

  /** `getline` up to a comma.  At the end of the file it fails; once it has failed, or met the end, the
      last field stays what it was. */
  function GetField(st: Stream): (bool, Stream) {
    if !st.good then (false, st)
    else if st.rest == [] then (false, Stream([], false, []))
    else
      var i := IndexOf(st.rest, ',');
      if i < |st.rest| then (true, Stream(st.rest[i + 1..], true, st.rest[..i]))
      else (true, Stream([], false, st.rest))
  }

  /** `ignore` up to the end of the line. */
  function SkipLine(st: Stream): Stream {
    if !st.good then st else
      var i := IndexOf(st.rest, '\n');
      if i < |st.rest| then st.(rest := st.rest[i + 1..]) else st.(rest := [], good := false)
  }

  /** A field that must be a number: none is an exception. */
  function GetNumber(st: Stream): Option<(Stream, int)> {
    var st1 := GetField(st).1;
    match Stol(st1.val)
    case Some(n) => Some((st1, n))
    case None => None
  }

  function GetNumbers(st: Stream, n: nat): Option<(Stream, seq<int>)>
    decreases n
  {
    if n == 0 then Some((st, [])) else
      match GetNumber(st)
      case None => None
      case Some((st1, x)) =>
        match GetNumbers(st1, n - 1)
        case None => None
        case Some((st2, xs)) => Some((st2, [x] + xs))
  }

  /** What the pass keeps of a call site. */
  datatype Info = Info(numCalls: int, unique: seq<int>, total: seq<int>)

  datatype Row = Row(call: int, info: Info)

  function Unsigned(n: int): int {
    n % 0x1_0000_0000_0000_0000
  }

  /** The rest of a row, after the name.  The vectors of a site have an 8-bit length; more arguments are
      outside of what the original defines, and are an error here. */
  function GetRow(st: Stream): Option<(Stream, Row)> {
    match GetNumber(st)
    case None => None
    case Some((st1, call)) =>
      match GetNumber(st1)
      case None => None
      case Some((st2, calls)) =>
        match GetNumber(st2)
        case None => None
        case Some((st3, args)) =>
          if !(0 <= args < 256) then None else
            match GetNumbers(st3, args)
            case None => None
            case Some((st4, unique)) =>
              match GetNumbers(st4, args)
              case None => None
              case Some((st5, total)) => Some((SkipLine(st5), Row(Unsigned(call), Info(Unsigned(calls), unique, total))))
  }

  /** Infos by function and instruction. */
  type Raw = map<SiteId, Info>

  lemma FieldShrinks(st: Stream)
    ensures var (ok, st1) := GetField(st); |st1.rest| <= |st.rest| && (ok ==> |st1.rest| < |st.rest|)
  {
  }

  lemma {:induction false} NumbersShrink(st: Stream, n: nat)
    ensures var r := GetNumbers(st, n); r.Some? ==> |r.value.0.rest| <= |st.rest| && |r.value.1| == n
    decreases n
  {
    if n > 0 {
      FieldShrinks(st);
      var r := GetNumber(st);
      if r.Some? {
        NumbersShrink(r.value.0, n - 1);
      }
    }
  }

  lemma RowShrinks(st: Stream)
    ensures var r := GetRow(st); r.Some? ==> |r.value.0.rest| <= |st.rest|
  {
    var r := GetRow(st);
    if r.Some? {
      FieldShrinks(st);
      var st1 := GetNumber(st).value.0;
      FieldShrinks(st1);
      var st2 := GetNumber(st1).value.0;
      FieldShrinks(st2);
      var (st3, args) := GetNumber(st2).value;
      NumbersShrink(st3, args);
      NumbersShrink(GetNumbers(st3, args).value.0, args);
    }
  }

  function LoadRows(st: Stream, functions: set<string>, raw: Raw): Option<Raw>
    decreases |st.rest|
  {
    var (ok, st1) := GetField(st);
    if !ok then Some(raw) else
      match GetRow(st1)
      case None => None
      case Some((st2, row)) =>
        FieldShrinks(st);
        RowShrinks(st1);
        LoadRows(st2, functions, if st1.val in functions then raw[SiteId(st1.val, row.call) := row.info] else raw)
  }

  function LoadFile(file: string, functions: set<string>): Option<Raw> {
    LoadRows(SkipLine(Stream(file, true, [])), functions, map[])
  }

  function Joined(xs: seq<int>, r: Option<(Stream, seq<int>)>): Option<(Stream, seq<int>)> {
    match r
    case None => None
    case Some((st, ys)) => Some((st, xs + ys))
  }

  lemma JoinedNone(r: Option<(Stream, seq<int>)>)
    ensures Joined([], r) == r
  {
    if r.Some? {
      assert [] + r.value.1 == r.value.1;
    }
  }

  lemma JoinedNext(xs: seq<int>, st: Stream, n: nat)
    requires n > 0
    ensures Joined(xs, GetNumbers(st, n)) ==
      match GetNumber(st) case None => None case Some((st1, x)) => Joined(xs + [x], GetNumbers(st1, n - 1))
  {
    hide GetNumber;
    var r := GetNumber(st);
    if r.Some? {
      var q := GetNumbers(r.value.0, n - 1);
      if q.Some? {
        assert xs + ([r.value.1] + q.value.1) == xs + [r.value.1] + q.value.1;
      }
    }
  }

  /** A file being read. */
  class Reader {
    var rest: string
    var good: bool
    var val: string

    ghost function Now(): Stream
      reads this
    {
      Stream(rest, good, val)
    }

    constructor (file: string)
      ensures Now() == Stream(file, true, [])
    {
      rest, good, val := file, true, [];
    }

    method GetLine() returns (ok: bool)
      modifies this
      ensures (ok, Now()) == GetField(old(Now()))
      ensures !old(good) ==> !ok && !good && rest == old(rest) && val == old(val)
      ensures old(good) && old(rest) == [] ==> !ok && !good && rest == [] && val == []
      ensures old(good) && old(rest) != [] ==> ok && ',' !in val
      ensures old(good) && ',' in old(rest) ==> good && old(rest) == val + [','] + rest
      ensures old(good) && old(rest) != [] && ',' !in old(rest) ==> !good && val == old(rest) && rest == []
    {
      if !good {
        return false;
      }
      if rest == [] {
        good, val := false, [];
        return false;
      }
      var i := IndexOf(rest, ',');
      SplitThere(rest, ',');
      if i < |rest| {
        rest, val := rest[i + 1..], rest[..i];
      } else {
        rest, good, val := [], false, rest;
      }
      return true;
    }

    method Ignore()
      modifies this
      ensures Now() == SkipLine(old(Now()))
      ensures val == old(val) && (!old(good) ==> !good && rest == old(rest))
      ensures old(good) && '\n' !in old(rest) ==> !good && rest == []
      ensures old(good) && '\n' in old(rest) ==>
        good && |rest| < |old(rest)| && var n := |old(rest)| - |rest| - 1;
        old(rest)[n] == '\n' && '\n' !in old(rest)[..n] && rest == old(rest)[n + 1..]
    {
      if good {
        var i := IndexOf(rest, '\n');
        SplitThere(rest, '\n');
        if i < |rest| {
          rest := rest[i + 1..];
        } else {
          rest, good := [], false;
        }
      }
    }

    method Number() returns (n: Option<int>)
      modifies this
      ensures match GetNumber(old(Now()))
              case Some((st, x)) => Now() == st && n == Some(x)
              case None => n == None
      ensures n == Stol(val) && Now() == GetField(old(Now())).1
    {
      var ok := GetLine();
      n := Stol(val);
    }

    method Numbers(count: nat) returns (ns: Option<seq<int>>)
      modifies this
      ensures match GetNumbers(old(Now()), count)
              case Some((st, xs)) => Now() == st && ns == Some(xs)
              case None => ns == None
    {
      var xs: seq<int> := [];
      JoinedNone(GetNumbers(Now(), count));
      hide GetNumber;
      for i := 0 to count
        invariant |xs| == i
        invariant GetNumbers(old(Now()), count) == Joined(xs, GetNumbers(Now(), count - i))
      {
        JoinedNext(xs, Now(), count - i);
        var n := Number();
        if n == None {
          return None;
        }
        xs := xs + [n.value];
      }
      assert xs + [] == xs;
      return Some(xs);
    }

    /** The fields of a row after the name. */
    method ReadRow() returns (row: Option<Row>)
      modifies this
      ensures match GetRow(old(Now()))
              case Some((st, r)) => Now() == st && row == Some(r)
              case None => row == None
    {
      hide GetNumber, GetNumbers, SkipLine;
      var call := Number();
      if call == None { return None; }
      var calls := Number();
      if calls == None { return None; }
      var args := Number();
      if args == None || !(0 <= args.value < 256) { return None; }
      var unique := Numbers(args.value);
      if unique == None { return None; }
      var total := Numbers(args.value);
      if total == None { return None; }
      Ignore();
      return Some(Row(Unsigned(call.value), Info(Unsigned(calls.value), unique.value, total.value)));
    }

    method LoadRaw(functions: set<string>) returns (result: Option<Raw>)
      modifies this
      ensures result == LoadRows(SkipLine(old(Now())), functions, map[])
    {
      hide GetField, GetRow;
      Ignore();
      var raw: Raw := map[];
      ghost var start := Now();
      var ok := GetLine();
      ghost var here := start;
      while ok
        invariant (ok, Now()) == GetField(here)
        invariant LoadRows(start, functions, map[]) == LoadRows(here, functions, raw)
        decreases |here.rest|
      {
        var name := val;
        FieldShrinks(here);
        RowShrinks(Now());
        var row := ReadRow();
        if row == None {
          return None;
        }
        if name in functions {
          raw := raw[SiteId(name, row.value.call) := row.value.info];
        }
        here := Now();
        ok := GetLine();
      }
      return Some(raw);
    }
  }
}
