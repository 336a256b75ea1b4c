/** Printing a profile and reading it back, on both sides of the file. */
module RoundTrip {
  import opened Ir
  import opened Profile
  import opened Decimals
  import opened ProfileFile

  // ---- fields ----

  lemma {:induction false} IndexOfFirst(a: string, c: char, b: string)
    requires c !in a
    ensures IndexOf(a + [c] + b, c) == |a|
  {
    if a != [] {
      assert (a + [c] + b)[1..] == a[1..] + [c] + b && a[0] in a;
      IndexOfFirst(a[1..], c, b);
    }
  }

  lemma FieldBack(f: string, rest: string, val: string)
    requires ',' !in f
    ensures GetField(Stream(Cell(f) + rest, true, val)) == (true, Stream(rest, true, f))
  {
    IndexOfFirst(f, ',', rest);
    var s := f + [','] + rest;
    assert Cell(f) + rest == s && s[..|f|] == f && s[|f| + 1..] == rest;
  }

  lemma LineBack(line: string, rest: string, val: string)
    requires '\n' !in line
    ensures SkipLine(Stream(line + "\n" + rest, true, val)) == Stream(rest, true, val)
  {
    IndexOfFirst(line, '\n', rest);
  }

  predicate IsLong(n: int) {
    -0x8000_0000_0000_0000 <= n < 0x8000_0000_0000_0000
  }

  lemma NumberBack(n: int, rest: string, val: string)
    requires IsLong(n)
    ensures GetNumber(Stream(Cell(Decimal(n)) + rest, true, val)) == Some((Stream(rest, true, Decimal(n)), n))
  {
    hide Decimal, Stol, GetField;
    DecimalIsPlain(n);
    FieldBack(Decimal(n), rest, val);
    StolOfDecimal(n);
  }

  lemma {:induction false} NumbersBack(ns: seq<int>, rest: string, val: string) returns (val': string)
    requires forall n | n in ns :: IsLong(n)
    ensures GetNumbers(Stream(PrintNumbers(ns) + rest, true, val), |ns|) == Some((Stream(rest, true, val'), ns))
    decreases |ns|
  {
    hide GetNumber, Cell, Decimal;
    if ns == [] {
      assert PrintNumbers(ns) + rest == rest;
      val' := val;
    } else {
      assert ns[0] in ns && forall n | n in ns[1..] :: n in ns;
      Assoc(Cell(Decimal(ns[0])), PrintNumbers(ns[1..]), rest);
      NumberBack(ns[0], PrintNumbers(ns[1..]) + rest, val);
      val' := NumbersBack(ns[1..], rest, Decimal(ns[0]));
      assert [ns[0]] + ns[1..] == ns;
    }
  }

  // ---- rows ----

  /** The numbers of a report fit their types, and those read without sign are not negative. */
  predicate Printable(id: SiteId, r: Report) {
    Signed(id, r) && 0 <= id.call && 0 <= r.numCalls
  }

  predicate Signed(id: SiteId, r: Report) {
    && IsLong(id.call) && IsLong(r.numCalls)
    && r.numArgs == |r.unique| == |r.total| && r.numArgs < 128
    && (forall n | n in r.unique :: IsLong(n)) && (forall n | n in r.total :: IsLong(n))
  }

  function InfoOf(r: Report): Info {
    Info(r.numCalls, r.unique, r.total)
  }

  lemma TailAssoc(a: string, b: string, c: string, d: string, e: string, f: string, rest: string)
    ensures a + (b + (c + (d + (e + f)))) + rest == a + (b + (c + (d + (e + (f + rest)))))
  {
    Assoc(a, b + (c + (d + (e + f))), rest);
    Assoc(b, c + (d + (e + f)), rest);
    Assoc(c, d + (e + f), rest);
    Assoc(d, e + f, rest);
    Assoc(e, f, rest);
  }

  /** A row after the name, with more cells `more` than there should be. */
  function RowTail(id: SiteId, r: Report, more: string): string {
    Cell(Decimal(id.call)) + (Cell(Decimal(r.numCalls)) + (Cell(Decimal(r.numArgs)) + (PrintNumbers(r.unique) + (PrintNumbers(r.total) + (more + "\n")))))
  }

  lemma RowBack(id: SiteId, r: Report, more: string, rest: string, val: string) returns (val': string)
    requires Printable(id, r) && '\n' !in more
    ensures GetRow(Stream(RowTail(id, r, more) + rest, true, val)) == Some((Stream(rest, true, val'), Row(id.call, InfoOf(r))))
  {
    hide GetRow, RowTail;
    val' := RowRead(id, r, more, rest, val);
  }

  /** A number that is read without sign wraps around. */
  function Wrapped(n: int): int {
    if n < 0 then n + 0x1_0000_0000_0000_0000 else n
  }

  /** The call id and the number of calls are read into words without sign: a negative one becomes a very large one.  The
      other numbers keep their sign. */
  lemma RowRead(id: SiteId, r: Report, more: string, rest: string, val: string) returns (val': string)
    requires Signed(id, r) && '\n' !in more
    ensures GetRow(Stream(RowTail(id, r, more) + rest, true, val))
         == Some((Stream(rest, true, val'), Row(Wrapped(id.call), Info(Wrapped(r.numCalls), r.unique, r.total))))
  {
    hide GetNumber, GetNumbers, Cell, Decimal, PrintNumbers, SkipLine;
    var a, b, c := Cell(Decimal(id.call)), Cell(Decimal(r.numCalls)), Cell(Decimal(r.numArgs));
    var d, e := PrintNumbers(r.unique), PrintNumbers(r.total);
    var end := more + "\n" + rest;
    TailAssoc(a, b, c, d, e, more + "\n", rest);
    NumberBack(id.call, b + (c + (d + (e + end))), val);
    NumberBack(r.numCalls, c + (d + (e + end)), Decimal(id.call));
    NumberBack(r.numArgs, d + (e + end), Decimal(r.numCalls));
    var v1 := NumbersBack(r.unique, e + end, Decimal(r.numArgs));
    val' := NumbersBack(r.total, end, v1);
    LineBack(more, rest, val');
  }

  // ---- files ----

  ghost predicate AllPrintable(profile: map<SiteId, Report>) {
    forall id | id in profile :: Printable(id, profile[id])
  }

  /** The infos of the sites `ids` that belong to known functions. */
  function Kept(ids: seq<SiteId>, profile: map<SiteId, Report>, functions: set<string>, raw: Raw): Raw
    requires forall id | id in ids :: id in profile
  {
    if ids == [] then raw else
      Kept(ids[1..], profile, functions, if ids[0].fun in functions then raw[ids[0] := InfoOf(profile[ids[0]])] else raw)
  }

  lemma RowsStep(id: SiteId, r: Report, rest: string, val: string, functions: set<string>, raw: Raw) returns (val': string)
    requires Printable(id, r) && ',' !in id.fun
    ensures LoadRows(Stream(PrintRow(id, r) + rest, true, val), functions, raw) ==
            LoadRows(Stream(rest, true, val'), functions, if id.fun in functions then raw[id := InfoOf(r)] else raw)
  {
    hide GetRow, GetField, Cell, Decimal, PrintNumbers;
    assert "" + "\n" == "\n";
    assert PrintRow(id, r) == Cell(id.fun) + RowTail(id, r, "");
    Assoc(Cell(id.fun), RowTail(id, r, ""), rest);
    FieldBack(id.fun, RowTail(id, r, "") + rest, val);
    val' := RowBack(id, r, "", rest, id.fun);
  }

  lemma {:induction false} RowsBack(ids: seq<SiteId>, profile: map<SiteId, Report>, val: string,
                                    functions: set<string>, raw: Raw)
    requires AllPrintable(profile) && forall id | id in ids :: id in profile && ',' !in id.fun
    ensures LoadRows(Stream(PrintRows(ids, profile), true, val), functions, raw) == Some(Kept(ids, profile, functions, raw))
    decreases |ids|
  {
    hide GetRow, PrintRow;
    if ids != [] {
      var id := ids[0];
      assert id in ids && forall x | x in ids[1..] :: x in ids;
      var val' := RowsStep(id, profile[id], PrintRows(ids[1..], profile), val, functions, raw);
      hide LoadRows;
      RowsBack(ids[1..], profile, val', functions, if id.fun in functions then raw[id := InfoOf(profile[id])] else raw);
    }
  }

  lemma {:induction false} KeptIs(ids: seq<SiteId>, profile: map<SiteId, Report>, functions: set<string>, raw: Raw)
    requires forall id | id in ids :: id in profile
    ensures forall id :: id in Kept(ids, profile, functions, raw) <==> id in raw || (id in ids && id.fun in functions)
    ensures forall id | id in Kept(ids, profile, functions, raw) ::
      (Kept(ids, profile, functions, raw)[id] == if id in ids && id.fun in functions then InfoOf(profile[id]) else raw[id])
    decreases |ids|
  {
    if ids != [] {
      hide InfoOf;
      assert forall x | x in ids[1..] :: x in ids;
      assert forall x | x in ids :: x == ids[0] || x in ids[1..];
      KeptIs(ids[1..], profile, functions, if ids[0].fun in functions then raw[ids[0] := InfoOf(profile[ids[0]])] else raw);
    }
  }

  /** The infos of the known functions. */
  function Known(profile: map<SiteId, Report>, functions: set<string>): Raw {
    map id | id in profile && id.fun in functions :: InfoOf(profile[id])
  }

  lemma TitlesAreOneLine()
    ensures '\n' !in Titles
  {
    assert '\n' !in "fun_name," && '\n' !in "call_id," && '\n' !in "total_calls,";
    assert '\n' !in "num_args," && '\n' !in "unique_evals," && '\n' !in "total_evals";
  }

  /** Reading what was printed gives back every record of a known function, whatever the order of printing. */
  lemma {:induction false} DumpThenLoad(profile: map<SiteId, Report>, ids: seq<SiteId>, functions: set<string>)
    requires (forall id :: id in ids <==> id in profile) && AllPrintable(profile) && forall id | id in profile :: ',' !in id.fun
    ensures LoadFile(Header + PrintRows(ids, profile), functions) == Some(Known(profile, functions))
  {
    hide *;
    HeaderSkipped(PrintRows(ids, profile), functions);
    RowsBack(ids, profile, [], functions, map[]);
    AllKept(ids, profile, functions);
  }

  lemma {:induction false} HeaderSkipped(rows: string, functions: set<string>)
    ensures LoadFile(Header + rows, functions) == LoadRows(Stream(rows, true, []), functions, map[])
  {
    hide LoadRows, SkipLine;
    TitlesAreOneLine();
    LineBack(Titles, rows, []);
  }

  lemma {:induction false} AllKept(ids: seq<SiteId>, profile: map<SiteId, Report>, functions: set<string>)
    requires forall id :: id in ids <==> id in profile
    ensures Kept(ids, profile, functions, map[]) == Known(profile, functions)
  {
    hide Kept, InfoOf;
    KeptIs(ids, profile, functions, map[]);
  }

  /** No name read contains a comma. */
  lemma {:induction false} NamesHaveNoComma(st: Stream, functions: set<string>, raw: Raw)
    requires forall id | id in raw :: ',' !in id.fun
    ensures var r := LoadRows(st, functions, raw); r.Some? ==> forall id | id in r.value :: ',' !in id.fun
    decreases |st.rest|
  {
    var (ok, st1) := GetField(st);
    FieldShrinks(st);
    RowShrinks(st1);
    if ok {
      assert ',' !in st1.val;
      var row := GetRow(st1);
      hide GetRow, GetField;
      if row.Some? {
        var (st2, x) := row.value;
        NamesHaveNoComma(st2, functions, if st1.val in functions then raw[SiteId(st1.val, x.call) := x.info] else raw);
      }
    }
  }

  /** When the module has all the functions, the file gives the profile back if and only if no name has a comma. */
  lemma {:induction false} DumpThenLoadExact(profile: map<SiteId, Report>, ids: seq<SiteId>, functions: set<string>)
    requires (forall id :: id in ids <==> id in profile) && AllPrintable(profile) && forall id | id in profile :: id.fun in functions
    ensures LoadFile(Header + PrintRows(ids, profile), functions) == Some(Known(profile, functions)) <==>
            forall id | id in profile :: ',' !in id.fun
  {
    hide LoadRows, PrintRows;
    if forall id | id in profile :: ',' !in id.fun {
      DumpThenLoad(profile, ids, functions);
    } else {
      var id :| id in profile && ',' in id.fun;
      NamesHaveNoComma(SkipLine(Stream(Header + PrintRows(ids, profile), true, [])), functions, map[]);
      assert id in Known(profile, functions);
    }
  }

  /** A call id that is not a number stops the reading, whether or not the function is known. */
  lemma {:induction false} BadNumber(name: string, cell: string, rest: string, functions: set<string>)
    requires ',' !in name && ',' !in cell && Stol(cell) == None
    ensures LoadFile(Header + (Cell(name) + (Cell(cell) + rest)), functions) == None
  {
    hide *;
    HeaderSkipped(Cell(name) + (Cell(cell) + rest), functions);
    FieldBack(name, Cell(cell) + rest, []);
    FieldBack(cell, rest, name);
    NumberFails(Stream(Cell(name) + (Cell(cell) + rest), true, []), functions);
  }

  lemma {:induction false} NumberFails(st: Stream, functions: set<string>)
    requires GetField(st).0 && Stol(GetField(GetField(st).1).1.val) == None
    ensures LoadRows(st, functions, map[]) == None
  {
    hide GetField, Stol;
    assert GetNumber(GetField(st).1) == None;
    hide GetNumber;
  }

  /** Of two rows for one call the later one counts. */
  lemma {:induction false} LaterRowCounts(id: SiteId, r: Report, r': Report, functions: set<string>)
    requires Printable(id, r) && Printable(id, r') && ',' !in id.fun && id.fun in functions
    ensures LoadFile(Header + (PrintRow(id, r) + PrintRow(id, r')), functions) == Some(map[id := InfoOf(r')])
  {
    hide *;
    HeaderSkipped(PrintRow(id, r) + PrintRow(id, r'), functions);
    var v1 := RowsStep(id, r, PrintRow(id, r'), [], functions, map[]);
    NothingBehind(PrintRow(id, r'));
    var v2 := RowsStep(id, r', "", v1, functions, map[id := InfoOf(r)]);
    NoMoreRows(v2, functions, map[id := InfoOf(r)][id := InfoOf(r')]);
    assert map[id := InfoOf(r)][id := InfoOf(r')] == map[id := InfoOf(r')];
  }

  lemma {:induction false} NoMoreRows(val: string, functions: set<string>, raw: Raw)
    ensures LoadRows(Stream("", true, val), functions, raw) == Some(raw)
  {
  }

  // ---- a name with a comma ----

  const Odd := SiteId("f,7", 3)
  const OddReport := Report(2, 2, [1, 0], [4, 0])

  /** What the row of that record looks like to who reads it: every number one cell further left, the last left over. */
  const Taken := SiteId("f", 7)
  const TakenReport := Report(3, 2, [2, 1], [0, 4])

  lemma OneDigit(n: nat)
    requires n < 10
    ensures Decimal(n) == [Digit(n)]
  {
  }

  lemma Pair(a: int, b: int)
    ensures PrintNumbers([a, b]) == Cell(Decimal(a)) + Cell(Decimal(b))
  {
    hide Decimal;
    assert [a, b][1..] == [b] && [b][1..] == [];
    assert PrintNumbers([b]) == Cell(Decimal(b));
  }

  const OddRow := "f,7,3,2,2," + "1,0,4,0,\n"

  lemma OddIsPrinted()
    ensures PrintRow(Odd, OddReport) == OddRow
  {
    OneDigit(3); OneDigit(2); OneDigit(1); OneDigit(0); OneDigit(4);
    Pair(1, 0);
    Pair(4, 0);
    assert Cell(Odd.fun) == "f,7," && Cell(Decimal(3)) == "3," && Cell(Decimal(2)) == "2,";
    assert PrintNumbers([1, 0]) == "1,0," && PrintNumbers([4, 0]) == "4,0,";
  }

  lemma TakenIsRead()
    ensures Cell(Taken.fun) + RowTail(Taken, TakenReport, "0,") == OddRow
  {
    OneDigit(7); OneDigit(3); OneDigit(2); OneDigit(1); OneDigit(0); OneDigit(4);
    Pair(2, 1);
    Pair(0, 4);
    assert Cell(Taken.fun) == "f," && Cell(Decimal(7)) == "7," && Cell(Decimal(3)) == "3," && Cell(Decimal(2)) == "2,";
    assert PrintNumbers([2, 1]) == "2,1," && PrintNumbers([0, 4]) == "0,4,";
  }

  /** One record of a function whose name has a comma: the file is read without complaint, as the record of another
      instruction of another function, with other numbers. */
  lemma {:induction false} CommaMisread(functions: set<string>)
    requires "f" in functions && "f,7" in functions
    ensures var file := Header + PrintRows([Odd], map[Odd := OddReport]);
      && LoadFile(file, functions) == Some(map[Taken := InfoOf(TakenReport)])
      && LoadFile(file, functions) != Some(Known(map[Odd := OddReport], functions))
  {
    hide *;
    OddIsPrinted();
    TakenIsRead();
    OneRow(Odd, OddReport);
    HeaderSkipped(OddRow, functions);
    TakenFits();
    FieldBack(Taken.fun, RowTail(Taken, TakenReport, "0,"), []);
    var val := RowBack(Taken, TakenReport, "0,", "", Taken.fun);
    NothingBehind(RowTail(Taken, TakenReport, "0,"));
    LoadsOne(Stream(OddRow, true, []), RowTail(Taken, TakenReport, "0,"), val, functions);
    NotTheSame();
  }

  lemma OneRow(id: SiteId, r: Report)
    ensures PrintRows([id], map[id := r]) == PrintRow(id, r)
  {
    hide PrintRow;
    assert [id][1..] == [];
    assert PrintRows([], map[id := r]) == [];
  }

  lemma TakenFits()
    ensures Printable(Taken, TakenReport) && ',' !in Taken.fun && '\n' !in "0," && Taken.call == 7 && Taken == SiteId("f", 7)
  {
  }

  lemma NothingBehind(s: string)
    ensures s + "" == s
  {
  }

  lemma {:induction false} LoadsOne(st: Stream, tail: string, val: string, functions: set<string>)
    requires GetField(st) == (true, Stream(tail, true, "f")) && "f" in functions
    requires GetRow(Stream(tail, true, "f")) == Some((Stream("", true, val), Row(7, InfoOf(TakenReport))))
    ensures LoadRows(st, functions, map[]) == Some(map[SiteId("f", 7) := InfoOf(TakenReport)])
  {
    assert !GetField(Stream("", true, val)).0;
    hide GetField, GetRow, InfoOf;
  }

  lemma NotTheSame()
    ensures forall functions :: "f,7" in functions ==> map[Taken := InfoOf(TakenReport)] != Known(map[Odd := OddReport], functions)
  {
    forall functions | "f,7" in functions
      ensures map[Taken := InfoOf(TakenReport)] != Known(map[Odd := OddReport], functions)
    {
      assert Odd in Known(map[Odd := OddReport], functions) && Odd.call != Taken.call;
    }
  }
}
