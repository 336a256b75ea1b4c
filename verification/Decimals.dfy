/** Printing integers with `%li` and reading them with `stol`. */
module Decimals {
  import opened Ir

  function Digit(d: nat): char
    requires d < 10
  {
    '0' + d as char
  }

  predicate IsDigit(c: char) {
    '0' <= c <= '9'
  }

  predicate IsSpace(c: char) {
    c == ' ' || '\t' <= c <= '\r'
  }

  function Digits(n: nat): (s: string)
    ensures s != [] && forall c | c in s :: IsDigit(c)
  {
    if n < 10 then [Digit(n)] else Digits(n / 10) + [Digit(n % 10)]
  }

  function Decimal(n: int): string {
    if n < 0 then ['-'] + Digits(-n) else Digits(n)
  }

  /** The digits at the front of `s`. */
  function Leading(s: string): (n: nat)
    ensures n <= |s| && (forall i | 0 <= i < n :: IsDigit(s[i])) && (n < |s| ==> !IsDigit(s[n]))
  {
    if s == [] || !IsDigit(s[0]) then 0 else 1 + Leading(s[1..])
  }

  function Value(s: string): nat
    requires forall c | c in s :: IsDigit(c)
  {
    if s == [] then 0 else
      assert IsDigit(s[|s| - 1]);
      Value(s[..|s| - 1]) * 10 + (s[|s| - 1] as nat - '0' as nat)
  }

  function SkipSpace(s: string): string {
    if s != [] && IsSpace(s[0]) then SkipSpace(s[1..]) else s
  }

  /** Blanks, a sign and digits; what follows is ignored.  No digits, or a number out of range, is an exception. */
  function Stol(s: string): Option<int> {
    var t := SkipSpace(s);
    var signed := t != [] && (t[0] == '-' || t[0] == '+');
    var u := if signed then t[1..] else t;
    var n := Leading(u);
    if n == 0 then None else
      var v: int := Value(u[..n]);
      var x := if signed && t[0] == '-' then -v else v;
      if -0x8000_0000_0000_0000 <= x < 0x8000_0000_0000_0000 then Some(x) else None
  }

  lemma {:induction false} ValueOfDigits(n: nat)
    ensures Value(Digits(n)) == n
  {
    if n >= 10 {
      ValueOfDigits(n / 10);
      assert Digits(n)[..|Digits(n)| - 1] == Digits(n / 10);
    } else {
      assert Digits(n)[..0] == [];
    }
  }

  lemma {:induction false} AllLeading(s: string)
    requires forall c | c in s :: IsDigit(c)
    ensures Leading(s) == |s|
  {
    if s != [] {
      assert s[0] in s && forall c | c in s[1..] :: c in s;
      AllLeading(s[1..]);
    }
  }

  /** What is printed of a 64-bit integer is read as that integer; what is printed of any other is out of range. */
  lemma StolOfDecimal(n: int)
    ensures Stol(Decimal(n)) == if -0x8000_0000_0000_0000 <= n <= 0x7FFF_FFFF_FFFF_FFFF then Some(n) else None
  {
    var d := Digits(if n < 0 then -n else n);
    ValueOfDigits(if n < 0 then -n else n);
    AllLeading(d);
    assert d[0] in d && d[..|d|] == d;
    assert Decimal(n) != [] && !IsSpace(Decimal(n)[0]);
    if n < 0 {
      assert Decimal(n)[1..] == d;
    }
  }

  lemma {:induction false} BlanksSkipped(blanks: string, s: string)
    requires (forall c | c in blanks :: c == ' ' || '\t' <= c <= '\r') && (s == [] || !(s[0] == ' ' || '\t' <= s[0] <= '\r'))
    ensures SkipSpace(blanks + s) == s
  {
    if blanks == [] {
      assert blanks + s == s;
    } else {
      assert blanks[0] in blanks && (blanks + s)[1..] == blanks[1..] + s && forall c | c in blanks[1..] :: c in blanks;
      BlanksSkipped(blanks[1..], s);
    }
  }

  lemma {:induction false} DigitsLead(digits: string, rest: string)
    requires (forall c | c in digits :: '0' <= c <= '9') && (rest == [] || !('0' <= rest[0] <= '9'))
    ensures Leading(digits + rest) == |digits|
  {
    if digits == [] {
      assert digits + rest == rest;
    } else {
      assert digits[0] in digits && (digits + rest)[1..] == digits[1..] + rest && forall c | c in digits[1..] :: c in digits;
      DigitsLead(digits[1..], rest);
    }
  }

  lemma AfterSign(sign: string, s: string)
    requires sign == "-" || sign == "+"
    ensures (sign + s)[0] == sign[0] && (sign + s)[1..] == s
  {
  }

  lemma {:induction false} StolOf(s: string, sign: string, u: string)
    requires SkipSpace(s) == sign + u && (sign == "" || sign == "-" || sign == "+")
    requires sign == "" && u != [] ==> u[0] != '-' && u[0] != '+'
    ensures var n := Leading(u); var v: int := Value(u[..n]); var x := if sign == "-" then -v else v;
      Stol(s) == if n > 0 && -0x8000_0000_0000_0000 <= x <= 0x7FFF_FFFF_FFFF_FFFF then Some(x) else None
  {
    hide SkipSpace, Leading, Value;
    if sign == "" {
      assert sign + u == u;
    } else {
      AfterSign(sign, u);
    }
  }

  /** A text of blanks, a sign or none, and digits, whatever follows, is the number they spell, unless that is out of
      range. */
  lemma {:induction false} StolReads(blanks: string, sign: string, digits: string, rest: string)
    requires (forall c | c in blanks :: c == ' ' || '\t' <= c <= '\r') && (sign == "" || sign == "-" || sign == "+")
    requires digits != [] && (forall c | c in digits :: '0' <= c <= '9') && (rest == [] || !('0' <= rest[0] <= '9'))
    ensures var v: int := Value(digits); var x := if sign == "-" then -v else v;
      Stol(blanks + (sign + (digits + rest))) == if -0x8000_0000_0000_0000 <= x <= 0x7FFF_FFFF_FFFF_FFFF then Some(x) else None
  {
    hide SkipSpace, Leading, Value, Stol;
    DigitsFirst(digits, rest);
    StolSkips(blanks, sign, digits + rest);
  }

  lemma DigitsFirst(digits: string, rest: string)
    requires digits != [] && (forall c | c in digits :: '0' <= c <= '9') && (rest == [] || !('0' <= rest[0] <= '9'))
    ensures var u := digits + rest; u != [] && '0' <= u[0] <= '9' && Leading(u) == |digits| && u[..|digits|] == digits
  {
    assert digits[0] in digits;
    DigitsLead(digits, rest);
  }

  /** Blanks are skipped, and a sign is read. */
  lemma {:induction false} StolSkips(blanks: string, sign: string, u: string)
    requires (forall c | c in blanks :: c == ' ' || '\t' <= c <= '\r') && (sign == "" || sign == "-" || sign == "+")
    requires sign == "" && u != [] ==> u[0] != '-' && u[0] != '+' && u[0] != ' ' && !('\t' <= u[0] <= '\r')
    ensures var n := Leading(u); var v: int := Value(u[..n]); var x := if sign == "-" then -v else v;
      Stol(blanks + (sign + u)) == if n > 0 && -0x8000_0000_0000_0000 <= x <= 0x7FFF_FFFF_FFFF_FFFF then Some(x) else None
  {
    hide SkipSpace, Leading, Value, Stol;
    if sign == "" {
      assert sign + u == u;
    } else {
      AfterSign(sign, u);
    }
    BlanksSkipped(blanks, sign + u);
    StolOf(blanks + (sign + u), sign, u);
  }

  /** Where no digit follows the blanks and the sign there is no number. */
  lemma StolFails(blanks: string, sign: string, rest: string)
    requires (forall c | c in blanks :: c == ' ' || '\t' <= c <= '\r') && (sign == "" || sign == "-" || sign == "+")
    requires rest == [] || !('0' <= rest[0] <= '9')
    requires sign == "" && rest != [] ==> rest[0] != '-' && rest[0] != '+' && rest[0] != ' ' && !('\t' <= rest[0] <= '\r')
    ensures Stol(blanks + (sign + rest)) == None
  {
    StolSkips(blanks, sign, rest);
  }

  lemma {:induction false} ValueMore(s: string, c: char)
    requires (forall x | x in s :: IsDigit(x)) && IsDigit(c)
    ensures (forall x | x in s + [c] :: IsDigit(x)) && Value(s + [c]) == 10 * Value(s) + (c as int - '0' as int)
  {
    assert (s + [c])[..|s|] == s;
  }

  lemma {:induction false} ValueOfSome()
    ensures Value("12") == 12 && Value("7") == 7
  {
    ValueMore("", '1');
    ValueMore("1", '2');
    ValueMore("", '7');
    assert "" + ['1'] == "1" && "1" + ['2'] == "12" && "" + ['7'] == "7";
  }

  lemma StolSome()
    ensures Stol("") == None && Stol("x1") == None && Stol("-") == None && Stol(" 12,") == Some(12) && Stol("-7") == Some(-7)
  {
    hide Stol, Value;
    StolFails("", "", "");
    StolFails("", "", "x1");
    StolFails("", "-", "");
    assert "" + ("" + "") == "" && "" + ("" + "x1") == "x1" && "" + ("-" + "") == "-";
    StolReads(" ", "", "12", ",");
    StolReads("", "-", "7", "");
    ValueOfSome();
    assert " " + ("" + ("12" + ",")) == " 12," && "" + ("-" + ("7" + "")) == "-7";
  }

  lemma {:induction false} NoLeadingZero(n: nat)
    ensures n > 0 ==> Digits(n)[0] != '0'
    ensures Digits(0) == "0"
  {
    if n >= 10 {
      NoLeadingZero(n / 10);
    }
  }

  /** What is printed is a minus sign if the number is negative, and then digits that spell it, with no zero in front. */
  lemma DecimalShape(n: int)
    ensures n < 0 ==> Decimal(n) != [] && Decimal(n)[0] == '-'
    ensures var d := if n < 0 then Decimal(n)[1..] else Decimal(n);
      && d != [] && (forall c | c in d :: '0' <= c <= '9') && Value(d) == (if n < 0 then -n else n)
      && (n != 0 ==> d[0] != '0') && (n == 0 ==> d == "0")
  {
    var m := if n < 0 then -n else n;
    ValueOfDigits(m);
    NoLeadingZero(m);
    hide Digits, Value;
    if n < 0 {
      assert Decimal(n)[1..] == Digits(m);
    }
  }

  lemma DecimalIsPlain(n: int)
    ensures ',' !in Decimal(n) && '\n' !in Decimal(n)
  {
    var d := Digits(if n < 0 then -n else n);
    assert forall c | c in d :: IsDigit(c);
  }
}
