/** The two conversions the LIRC reader needs: decimal numbers and space-separated fields. */
module Decimal {

  const MAX_INT64 := 0x7FFF_FFFF_FFFF_FFFF
  const MIN_INT64 := -0x8000_0000_0000_0000

  predicate IsDigit(c: char) {
    '0' <= c <= '9'
  }

  predicate AllDigits(s: string) {
    forall i :: 0 <= i < |s| ==> IsDigit(s[i])
  }

  function DigitsValue(s: string): nat
    requires AllDigits(s)
  {
    if s == [] then 0 else 10 * DigitsValue(s[..|s| - 1]) + (s[|s| - 1] - '0') as int
  }

  /** What strconv.Atoi returns beside its error: zero for a syntax error, the nearest int64 for a range error. */
  datatype Number = Number(value: int, ok: bool)

  function Atoi(s: string): (r: Number)
    ensures MIN_INT64 <= r.value <= MAX_INT64
  {
    var signed := s != [] && (s[0] == '-' || s[0] == '+');
    var digits := if signed then s[1..] else s;
    if digits == [] || !AllDigits(digits) then Number(0, false) else
    var v: int := if signed && s[0] == '-' then -(DigitsValue(digits) as int) else DigitsValue(digits);
    if v > MAX_INT64 then Number(MAX_INT64, false)
    else if v < MIN_INT64 then Number(MIN_INT64, false)
    else Number(v, true)
  }

  function Itoa(n: nat): (s: string)
    ensures s != [] && AllDigits(s)
  {
    if n < 10 then [('0' as int + n) as char] else Itoa(n / 10) + [('0' as int + n % 10) as char]
  }

  lemma {:induction false} DigitsValueOfItoa(n: nat)
    ensures DigitsValue(Itoa(n)) == n
  {
    var s := Itoa(n);
    if n < 10 {
      assert s[..0] == [];
    } else {
      DigitsValueOfItoa(n / 10);
      assert s[..|s| - 1] == Itoa(n / 10);
    }
  }

  /** Reading back a printed number. */
  lemma AtoiOfItoa(n: nat)
    requires n <= MAX_INT64
    ensures Atoi(Itoa(n)) == Number(n, true)
  {
    DigitsValueOfItoa(n);
    assert IsDigit(Itoa(n)[0]);
  }

  lemma DigitsAre(c: char)
    ensures IsDigit(c) <==> c in "0123456789"
  {
  }

  /** A sign is allowed; a number out of range gives the nearest one there is, and an error. */
  lemma AtoiSigned(n: nat)
    ensures Atoi("+" + Itoa(n)) == if n <= MAX_INT64 then Number(n, true) else Number(MAX_INT64, false)
    ensures Atoi(Itoa(n)) == if n <= MAX_INT64 then Number(n, true) else Number(MAX_INT64, false)
    ensures Atoi("-" + Itoa(n)) == if n <= MAX_INT64 + 1 then Number(-(n as int), true) else Number(MIN_INT64, false)
  {
    var s := Itoa(n);
    DigitsValueOfItoa(n);
    assert IsDigit(s[0]);
    assert ("+" + s)[1..] == s && ("-" + s)[1..] == s;
  }

  /** Anything but digits behind a sign, and no digits at all, is no number: zero, and an error. */
  lemma AtoiOfOther(s: string)
    requires s == "" || s == "+" || s == "-" || exists i :: 0 <= i < |s| && !IsDigit(s[i]) && (i > 0 || (s[0] != '+' && s[0] != '-'))
    ensures Atoi(s) == Number(0, false)
  {
    if i :| 0 <= i < |s| && !IsDigit(s[i]) && (i > 0 || (s[0] != '+' && s[0] != '-')) {
      if s[0] == '+' || s[0] == '-' { assert s[1..][i - 1] == s[i]; }
    }
  }

  /** Leading zeros do not matter. */
  lemma {:induction false} LeadingZero(s: string)
    requires AllDigits(s)
    ensures AllDigits("0" + s) && DigitsValue("0" + s) == DigitsValue(s)
  {
    var t := "0" + s;
    if s == [] {
      assert t[..0] == [];
    } else {
      LeadingZero(s[..|s| - 1]);
      assert t[..|t| - 1] == "0" + s[..|s| - 1];
    }
  }

  lemma AtoiLeadingZero(s: string)
    requires s != [] && AllDigits(s)
    ensures Atoi("0" + s) == Atoi(s)
  {
    LeadingZero(s);
    assert IsDigit(s[0]);
  }

  predicate SpaceFree(s: string) {
    forall i :: 0 <= i < |s| ==> s[i] != ' '
  }

  /** strings.Split(s, " "). */
  function Fields(s: string): (r: seq<string>)
    ensures r != [] && forall f :: f in r ==> SpaceFree(f)
  {
    if s == [] then [""]
    else
      var r := Fields(s[1..]);
      assert r[0] in r;
      if s[0] == ' ' then [""] + r else [[s[0]] + r[0]] + r[1..]
  }

  lemma {:induction false} FieldsOfOne(a: string)
    requires SpaceFree(a)
    ensures Fields(a) == [a]
  {
    if a != [] {
      FieldsOfOne(a[1..]);
      assert [a[0]] + a[1..] == a;
    }
  }

  lemma {:induction false} FieldsOfJoin(a: string, b: string)
    requires SpaceFree(a)
    ensures Fields(a + " " + b) == [a] + Fields(b)
  {
    var s := a + " " + b;
    if a == [] {
      assert s[1..] == b && s[0] == ' ';
    } else {
      FieldsOfJoin(a[1..], b);
      assert s[1..] == a[1..] + " " + b && s[0] == a[0];
      assert [a[0]] + a[1..] == a;
    }
  }
}
