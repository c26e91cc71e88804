/** The parts of C's strings that the code relies on: terminated buffers, comparison, decimal numbers,
    strtol. */
module CStrings {

  type int32 = x: int | -0x8000_0000 <= x < 0x8000_0000

  const NUL := '\0'

  datatype Option<T> = None | Some(value: T)

  // ----- terminated strings -----

  /** The string a buffer holds: what comes before its first terminator. */
  function CStr(buf: seq<char>): (s: string)
    ensures |s| <= |buf| && NUL !in s
  {
    if buf == [] || buf[0] == NUL then [] else [buf[0]] + CStr(buf[1..])
  }

  lemma {:induction false} CStrOf(buf: seq<char>, s: string)
    requires NUL !in s && |s| < |buf| && buf[..|s|] == s && buf[|s|] == NUL
    ensures CStr(buf) == s
  {
    if s != [] {
      assert buf[0] == buf[..|s|][0] == s[0];
      assert buf[1..][..|s| - 1] == buf[..|s|][1..] == s[1..];
      CStrOf(buf[1..], s[1..]);
    }
  }

  lemma {:induction false} CStrShape(buf: seq<char>)
    requires NUL in buf
    ensures var s := CStr(buf); |s| < |buf| && buf[..|s|] == s && buf[|s|] == NUL
  {
    if buf[0] != NUL {
      assert NUL in buf[1..];
      CStrShape(buf[1..]);
      var s := CStr(buf[1..]);
      assert buf[..|s| + 1] == [buf[0]] + buf[1..][..|s|];
    }
  }

  // ----- comparison -----

  /** The sign of a comparison character by character, a prefix coming first. */
  function CompareText(a: string, b: string): (r: int)
    ensures -1 <= r <= 1
  {
    if a == [] then (if b == [] then 0 else -1)
    else if b == [] then 1
    else if a[0] < b[0] then -1
    else if a[0] > b[0] then 1
    else CompareText(a[1..], b[1..])
  }

  lemma {:induction false} TextReverse(a: string, b: string)
    ensures CompareText(b, a) == -CompareText(a, b)
  {
    if a != [] && b != [] {
      TextReverse(a[1..], b[1..]);
    }
  }

  lemma {:induction false} TextTransitive(a: string, b: string, c: string)
    requires CompareText(a, b) <= 0 && CompareText(b, c) <= 0
    ensures CompareText(a, c) <= 0
    ensures CompareText(a, b) < 0 || CompareText(b, c) < 0 ==> CompareText(a, c) < 0
  {
    if a != [] && b != [] && c != [] && a[0] == b[0] == c[0] {
      TextTransitive(a[1..], b[1..], c[1..]);
    }
  }

  lemma {:induction false} TextEqual(a: string, b: string)
    ensures CompareText(a, b) == 0 <==> a == b
  {
    if a != [] && b != [] && a[0] == b[0] {
      TextEqual(a[1..], b[1..]);
    }
  }

  // ----- kinds of characters -----

  predicate IsSpace(c: char) { c == ' ' || '\t' <= c <= '\r' }

  predicate IsAlpha(c: char) { 'a' <= c <= 'z' || 'A' <= c <= 'Z' }

  predicate IsDigit(c: char) { '0' <= c <= '9' }

  // ----- decimal numbers -----

  predicate AllDigits(s: string) { forall i :: 0 <= i < |s| ==> IsDigit(s[i]) }

  function DigitValue(c: char): nat
    requires IsDigit(c)
  {
    (c - '0') as int
  }

  function Digit(d: nat): (c: char)
    requires d < 10
    ensures IsDigit(c) && DigitValue(c) == d
  {
    '0' + d as char
  }

  function Value(s: string): nat
    requires AllDigits(s)
  {
    if s == [] then 0 else Value(s[..|s| - 1]) * 10 + DigitValue(s[|s| - 1])
  }

  /** What printf writes for %d of a number that is not negative. */
  function Decimal(n: nat): (s: string)
    ensures AllDigits(s) && s != []
  {
    if n < 10 then [Digit(n)] else Decimal(n / 10) + [Digit(n % 10)]
  }

  lemma {:induction false} DecimalValue(n: nat)
    ensures Value(Decimal(n)) == n
  {
    if n < 10 {
      assert [Digit(n)][..0] == [];
      assert Value([]) == 0;
    } else {
      DecimalValue(n / 10);
      assert Decimal(n)[..|Decimal(n)| - 1] == Decimal(n / 10);
    }
  }

  function PowerOfTen(k: nat): nat { if k == 0 then 1 else 10 * PowerOfTen(k - 1) }

  lemma {:induction false} DecimalLength(n: nat, k: nat)
    requires 0 < k && n < PowerOfTen(k)
    ensures |Decimal(n)| <= k
  {
    if n >= 10 {
      assert PowerOfTen(1) == 10 * PowerOfTen(0);
      DecimalLength(n / 10, k - 1);
    }
  }

  lemma IntLength(n: int32)
    requires 0 <= n
    ensures |Decimal(n)| <= 10
  {
    assert PowerOfTen(5) == 100000;
    assert PowerOfTen(10) == 100000 * PowerOfTen(5);
    DecimalLength(n, 10);
  }

  // ----- strtol -----

  predicate IsSign(c: char) { c == '+' || c == '-' }

  function LeadingSpaces(s: string): (n: nat)
    ensures n <= |s|
  {
    if s != [] && IsSpace(s[0]) then 1 + LeadingSpaces(s[1..]) else 0
  }

  function LeadingDigits(s: string): (n: nat)
    ensures n <= |s| && AllDigits(s[..n]) && (n < |s| ==> !IsDigit(s[n]))
  {
    if s != [] && IsDigit(s[0]) then 1 + LeadingDigits(s[1..]) else 0
  }

  /** A result too large for a long, which has 32 bits as an int has, is cut to the nearest one. */
  function Saturate(n: int): int32 {
    if n > 0x7fff_ffff then 0x7fff_ffff else if n < -0x8000_0000 then -0x8000_0000 else n
  }

  predicate Signed(s: string) {
    var i := LeadingSpaces(s);
    i < |s| && IsSign(s[i])
  }

  predicate Negative(s: string) { Signed(s) && s[LeadingSpaces(s)] == '-' }

  /** Where the digits of a number would begin. */
  function DigitsStart(s: string): (j: nat)
    ensures j <= |s|
  {
    LeadingSpaces(s) + (if Signed(s) then 1 else 0)
  }

  function Digits(s: string): (r: string)
    ensures AllDigits(r) && DigitsStart(s) + |r| <= |s|
  {
    var t := s[DigitsStart(s)..];
    t[..LeadingDigits(t)]
  }

  function Number(negative: bool, digits: string): int32
    requires AllDigits(digits)
  {
    var n: int := Value(digits);
    Saturate(if negative then -n else n)
  }

  /** The number strtol reads in base 10, stored in an int, and how many characters it used: white space,
      a sign, digits. Without digits it uses nothing. */
  function Strtol(s: string): (r: (int32, nat))
    ensures r.1 <= |s|
  {
    if Digits(s) == [] then (0, 0) else (Number(Negative(s), Digits(s)), DigitsStart(s) + |Digits(s)|)
  }

  lemma {:induction false} LeadingSpacesPrefix(s: string, rest: string)
    requires rest == [] || !IsSpace(rest[0])
    ensures LeadingSpaces(s + rest) == LeadingSpaces(s)
  {
    if s == [] {
      assert s + rest == rest;
    } else if IsSpace(s[0]) {
      assert (s + rest)[1..] == s[1..] + rest;
      LeadingSpacesPrefix(s[1..], rest);
    }
  }

  lemma {:induction false} LeadingDigitsPrefix(s: string, rest: string)
    requires rest == [] || !IsDigit(rest[0])
    ensures LeadingDigits(s + rest) == LeadingDigits(s)
  {
    if s == [] {
      assert s + rest == rest;
    } else if IsDigit(s[0]) {
      assert (s + rest)[1..] == s[1..] + rest;
      LeadingDigitsPrefix(s[1..], rest);
    }
  }

  /** The first character of the rest cannot be part of a number. */
  predicate Ends(rest: string) { rest == [] || (!IsSpace(rest[0]) && !IsSign(rest[0]) && !IsDigit(rest[0])) }

  lemma SignPrefix(s: string, rest: string)
    requires Ends(rest)
    ensures Signed(s + rest) == Signed(s) && Negative(s + rest) == Negative(s) && DigitsStart(s + rest) == DigitsStart(s)
  {
    hide IsSpace, IsSign, IsDigit;
    LeadingSpacesPrefix(s, rest);
  }

  lemma DigitsPrefix(s: string, rest: string)
    requires Ends(rest)
    ensures Digits(s + rest) == Digits(s)
  {
    hide IsSpace, IsSign, IsDigit, DigitsStart;
    SignPrefix(s, rest);
    var t := s[DigitsStart(s)..];
    assert (s + rest)[DigitsStart(s)..] == t + rest;
    LeadingDigitsPrefix(t, rest);
    assert (t + rest)[..LeadingDigits(t)] == t[..LeadingDigits(t)];
  }

  /** strtol does not look past a character that cannot be part of a number. */
  lemma StrtolPrefix(s: string, rest: string)
    requires Ends(rest)
    ensures Strtol(s + rest) == Strtol(s)
  {
    hide Ends, Negative, DigitsStart, Digits, Number;
    SignPrefix(s, rest);
    DigitsPrefix(s, rest);
  }

  lemma {:induction false} LeadingDigitsAll(s: string)
    requires AllDigits(s)
    ensures LeadingDigits(s) == |s|
  {
    if s != [] {
      LeadingDigitsAll(s[1..]);
    }
  }

  lemma StrtolDigits(s: string)
    requires AllDigits(s) && s != []
    ensures Strtol(s) == (Number(false, s), |s|)
  {
    hide Number;
    LeadingDigitsAll(s);
    assert s[0..] == s && s[..|s|] == s;
  }

  /** White space, at most one sign, digits, and something that does not go on with a digit. */
  predicate ReadsAs(s: string, space: string, sign: string, digits: string, rest: string) {
    && s == space + sign + digits + rest
    && (forall i :: 0 <= i < |space| ==> space[i] in " \t\n\r" || space[i] as int == 11 || space[i] as int == 12)
    && (sign == "" || sign == "+" || sign == "-") && AllDigits(digits) && digits != []
    && (rest == [] || !IsDigit(rest[0]))
  }

  /** A string of that shape is read up to the end of the digits, as the signed number or the nearest to it that a
      long holds. */
  lemma StrtolReads(s: string, space: string, sign: string, digits: string, rest: string)
    requires ReadsAs(s, space, sign, digits, rest)
    ensures var n: int := Value(digits);
            var m := if sign == "-" then -n else n;
            Strtol(s) == (if m < -0x8000_0000 then -0x8000_0000 else if 0x7fff_ffff < m then 0x7fff_ffff else m,
                          |space| + |sign| + |digits|)
  {
    hide ReadsAs, Value, AllDigits, DigitsStart, Negative, Digits;
    SignOfShape(s, space, sign, digits, rest);
    DigitsOfShape(s, space, sign, digits, rest);
  }

  lemma SignOfShape(s: string, space: string, sign: string, digits: string, rest: string)
    requires ReadsAs(s, space, sign, digits, rest)
    ensures DigitsStart(s) == |space| + |sign| && (Negative(s) <==> sign == "-")
    ensures AllDigits(digits) && digits != []
  {
    var t := sign + digits + rest;
    assert s == space + t;
    LeadingSpacesPrefix(space, t);
    LeadingSpacesAll(space);
    assert s[|space|] == t[0] == (if sign == "" then digits[0] else sign[0]);
  }

  lemma DigitsOfShape(s: string, space: string, sign: string, digits: string, rest: string)
    requires ReadsAs(s, space, sign, digits, rest)
    ensures Digits(s) == digits
  {
    hide DigitsStart;
    SignOfShape(s, space, sign, digits, rest);
    var t := s[DigitsStart(s)..];
    assert t == digits + rest;
    LeadingDigitsPrefix(digits, rest);
    LeadingDigitsAll(digits);
    assert t[..|digits|] == digits;
  }

  lemma {:induction false} LeadingSpacesAll(s: string)
    requires forall i :: 0 <= i < |s| ==> IsSpace(s[i])
    ensures LeadingSpaces(s) == |s|
  {
    if s != [] {
      LeadingSpacesAll(s[1..]);
    }
  }

  /** Of any other string nothing is read, as 0. */
  lemma StrtolShape(s: string) returns (space: string, sign: string, digits: string, rest: string)
    ensures ReadsAs(s, space, sign, digits, rest) || Strtol(s) == (0, 0)
  {
    hide Value;
    var i, j := LeadingSpaces(s), DigitsStart(s);
    SpacesOf(s);
    space, sign, digits := s[..i], s[i..j], Digits(s);
    rest := s[j + |digits|..];
  }

  lemma {:induction false} SpacesOf(s: string)
    ensures forall i :: 0 <= i < LeadingSpaces(s) ==> IsSpace(s[i])
  {
    if s != [] && IsSpace(s[0]) {
      SpacesOf(s[1..]);
    }
  }

  lemma StrtolEmpty()
    ensures Strtol([]) == (0, 0)
  {}
}
