/** Parsing and rendering versions, and exactly when parsing undoes rendering. */
module SemverText {
  import opened CStrings
  import opened SemverCompare

  const SLICE_SIZE := 50
  const MAX_SIZE := 255

  // ----- valid strings -----

  predicate IsValidChar(c: char) {
    IsDigit(c) || 'a' <= c <= 'z' || 'A' <= c <= 'Z' || c == '.' || c == '-' || c == '+'
  }

  predicate ValidChars(s: string) { forall i :: 0 <= i < |s| ==> IsValidChar(s[i]) }

  predicate IsValid(s: string) { |s| <= MAX_SIZE && ValidChars(s) }

  // ----- cutting at a separator -----

  function FirstIndex(s: string, c: char): (k: nat)
    ensures k <= |s| && c !in s[..k] && (k < |s| ==> s[k] == c)
  {
    if s == [] || s[0] == c then 0 else 1 + FirstIndex(s[1..], c)
  }

  /** What comes before the first separator, and what comes after it, if there is one. */
  function Cut(s: string, sep: char): (string, Option<string>) {
    var k := FirstIndex(s, sep);
    if k == |s| then (s, None) else (s[..k], Some(s[k + 1..]))
  }

  lemma {:induction false} FirstIndexAt(x: string, c: char, y: string)
    requires c !in x
    ensures FirstIndex(x + [c] + y, c) == |x|
  {
    if x == [] {
      assert x + [c] + y == [c] + y;
    } else {
      assert (x + [c] + y)[1..] == x[1..] + [c] + y;
      FirstIndexAt(x[1..], c, y);
    }
  }

  lemma CutAt(x: string, c: char, y: string)
    requires c !in x
    ensures Cut(x + [c] + y, c) == (x, Some(y))
  {
    FirstIndexAt(x, c, y);
    var s := x + [c] + y;
    assert s[..|x|] == x && s[|x| + 1..] == y;
  }

  lemma {:induction false} CutNone(x: string, c: char)
    requires c !in x
    ensures Cut(x, c) == (x, None)
  {
    if x != [] {
      CutNone(x[1..], c);
    }
  }

  // ----- rendering -----

  function Magnitude(n: int): nat { if n < 0 then -n else n }

  /** What printf writes for %d. */
  function IntText(n: int32): string { (if n < 0 then "-" else "") + Decimal(Magnitude(n)) }

  function NumbersText(v: Version): string {
    IntText(v.major) + "." + IntText(v.minor) + "." + IntText(v.patch)
  }

  function PartText(sep: char, part: Option<string>): string {
    if part == None then [] else [sep] + part.value
  }

  function Rendered(v: Version): string {
    NumbersText(v) + PartText('-', v.prerelease) + PartText('+', v.metadata)
  }

  // ----- parsing -----

  datatype Numbers = Numbers(major: int32, minor: int32, patch: int32)

  function Store(n: Numbers, index: nat, value: int32): Numbers {
    if index == 1 then n.(major := value) else if index == 2 then n.(minor := value)
    else if index == 3 then n.(patch := value) else n
  }

  /** Read the slices between dots, from slice number `index` + 1 on, four at most: the status, and the
      numbers stored on the way. */
  function ParseSlices(s: string, index: nat, n: Numbers): (int, Numbers)
    decreases |s|
  {
    if index >= 4 then (0, n)
    else
      var next := NextDot(s, 0);
      var (value, used) := Strtol(s);
      if next > SLICE_SIZE then (-1, n)
      else if used != next && used != |s| then (-1, n)
      else
        var stored := Store(n, index + 1, value);
        if next == |s| then (0, stored) else ParseSlices(s[next + 1..], index + 1, stored)
  }

  lemma SlicesOnce(s: string, index: nat, n: Numbers)
    requires index < 4
    ensures var next := NextDot(s, 0);
            var (value, used) := Strtol(s);
            ParseSlices(s, index, n) ==
              if next > SLICE_SIZE || (used != next && used != |s|) then (-1, n)
              else if next == |s| then (0, Store(n, index + 1, value))
              else ParseSlices(s[next + 1..], index + 1, Store(n, index + 1, value))
  {
    hide Strtol, NextDot;
  }

  lemma SlicesDone(s: string, n: Numbers)
    ensures ParseSlices(s, 4, n) == (0, n)
  {}

  function NumbersOf(v: Version): Numbers { Numbers(v.major, v.minor, v.patch) }

  /** Parse into a version that held v0: the status and what it then holds. */
  function Parsed(s: string, v0: Version): (int, Version) {
    if !IsValid(s) then (-1, v0)
    else
      var (a, metadata) := Cut(s, '+');
      var (b, prerelease) := Cut(a, '-');
      var (status, n) := ParseSlices(b, 0, NumbersOf(v0));
      (status, Version(n.major, n.minor, n.patch, prerelease, metadata))
  }

  // ----- the code -----

  /** strcat. */
  method Append(dest: array<char>, s: string)
    requires NUL in dest[..] && NUL !in s && |CStr(dest[..])| + |s| < dest.Length
    modifies dest
    ensures NUL in dest[..] && CStr(dest[..]) == old(CStr(dest[..])) + s
  {
    ghost var before := CStr(dest[..]);
    CStrShape(dest[..]);
    var n := |CStr(dest[..])|;
    forall i | 0 <= i < |s| {
      dest[n + i] := s[i];
    }
    dest[n + |s|] := NUL;
    assert dest[n + |s|] == dest[..][n + |s|];
    assert dest[..][..n + |s|] == before + s;
    CStrOf(dest[..], before + s);
  }

  lemma {:induction false} DecimalNoNul(n: nat)
    ensures NUL !in Decimal(n) && '+' !in Decimal(n) && '-' !in Decimal(n) && '.' !in Decimal(n)
  {
    assert forall i :: 0 <= i < |Decimal(n)| ==> IsDigit(Decimal(n)[i]);
  }

  lemma IntTextShape(n: int32)
    ensures NUL !in IntText(n) && '+' !in IntText(n) && |IntText(n)| <= 11
    ensures ValidChars(IntText(n))
  {
    var m := Magnitude(n);
    DecimalNoNul(m);
    assert PowerOfTen(5) == 100000;
    assert PowerOfTen(10) == 100000 * PowerOfTen(5);
    DecimalLength(m, 10);
  }

  method ConcatNum(dest: array<char>, x: int32, sep: string)
    requires NUL in dest[..] && NUL !in sep && |CStr(dest[..])| + |sep| + |IntText(x)| < dest.Length
    modifies dest
    ensures NUL in dest[..] && CStr(dest[..]) == old(CStr(dest[..])) + sep + IntText(x)
  {
    hide CStr, IntText;
    IntTextShape(x);
    ghost var before := CStr(dest[..]);
    Append(dest, sep + IntText(x));
    assert before + (sep + IntText(x)) == before + sep + IntText(x);
  }

  method ConcatChar(dest: array<char>, x: string, sep: char)
    requires NUL in dest[..] && NUL !in x && sep != NUL && |x| <= SLICE_SIZE - 2
    requires |CStr(dest[..])| + 1 + |x| < dest.Length
    modifies dest
    ensures NUL in dest[..] && CStr(dest[..]) == old(CStr(dest[..])) + ([sep] + x)
  {
    Append(dest, [sep] + x);
  }

  predicate NulFree(part: Option<string>) { part.Some? ==> NUL !in part.value }

  /** The part and its separator fit in the 50 characters of a slice buffer. */
  predicate ShortPart(part: Option<string>) { NulFree(part) && (part.Some? ==> |part.value| <= SLICE_SIZE - 2) }

  lemma NumbersJoined(d: string, v: Version)
    ensures d + "" + IntText(v.major) + "." + IntText(v.minor) + "." + IntText(v.patch) == d + NumbersText(v)
  {
    hide IntText;
    assert d + "" == d;
  }

  lemma RenderedJoined(d: string, v: Version)
    ensures d + NumbersText(v) + PartText('-', v.prerelease) + PartText('+', v.metadata) == d + Rendered(v)
  {
    hide NumbersText, PartText;
  }

  lemma NoPart(s: string)
    ensures s + [] == s
  {}

  method Render(x: Version, dest: array<char>)
    requires NUL in dest[..] && ShortPart(x.prerelease) && ShortPart(x.metadata)
    requires |CStr(dest[..])| + |Rendered(x)| < dest.Length
    modifies dest
    ensures NUL in dest[..] && CStr(dest[..]) == old(CStr(dest[..])) + Rendered(x)
  {
    hide CStr, IntText, IsValidChar, ValidChars;
    ghost var d := CStr(dest[..]);
    var major, minor, patch := IntText(x.major), IntText(x.minor), IntText(x.patch);
    ConcatNum(dest, x.major, "");
    ConcatNum(dest, x.minor, ".");
    ConcatNum(dest, x.patch, ".");
    assert CStr(dest[..]) == d + NumbersText(x) by { NumbersJoined(d, x); }
    hide NumbersText;
    ghost var pre, meta := PartText('-', x.prerelease), PartText('+', x.metadata);
    NoPart(d + NumbersText(x));
    NoPart(d + NumbersText(x) + pre);
    if x.prerelease.Some? {
      ConcatChar(dest, x.prerelease.value, '-');
    }
    assert CStr(dest[..]) == d + NumbersText(x) + pre;
    if x.metadata.Some? {
      ConcatChar(dest, x.metadata.value, '+');
    }
    RenderedJoined(d, x);
  }

  /** Cut the string in the buffer at its first separator, in place, and return what came after it. */
  method ParseSlice(buf: array<char>, sep: char) returns (part: Option<string>)
    requires NUL in buf[..] && sep != NUL
    modifies buf
    ensures NUL in buf[..] && (CStr(buf[..]), part) == Cut(old(CStr(buf[..])), sep)
  {
    ghost var s := CStr(buf[..]);
    CStrShape(buf[..]);
    var pr := FirstIndex(CStr(buf[..]), sep);
    if pr == |CStr(buf[..])| {
      return None;
    }
    part := Some(CStr(buf[..])[pr + 1..]);
    buf[pr] := NUL;
    assert buf[..][..pr] == s[..pr];
    assert buf[..][pr] == NUL;
    CStrOf(buf[..], s[..pr]);
  }

  class VersionRecord {
    var major: int32
    var minor: int32
    var patch: int32
    var metadata: Option<string>
    var prerelease: Option<string>

    function Contents(): Version
      reads this
    {
      Version(major, minor, patch, prerelease, metadata)
    }

    constructor (v: Version)
      ensures Contents() == v
    {
      major, minor, patch, prerelease, metadata := v.major, v.minor, v.patch, v.prerelease, v.metadata;
    }

    method ParseVersion(str: string) returns (status: int)
      modifies `major, `minor, `patch
      ensures (status, NumbersOf(Contents())) == ParseSlices(str, 0, old(NumbersOf(Contents())))
    {
      hide Strtol, NextDot, ParseSlices;
      var slice: int, index := 0, 0;
      assert str[0..] == str;
      while 0 <= slice && index < 4
        invariant -1 <= slice <= |str| && 0 <= index <= 4
        invariant ParseSlices(str, 0, old(NumbersOf(Contents()))) ==
                  if slice < 0 then (0, NumbersOf(Contents())) else ParseSlices(str[slice..], index, NumbersOf(Contents()))
        decreases 4 - index
      {
        var rest := str[slice..];
        SlicesOnce(rest, index, NumbersOf(Contents()));
        index := index + 1;
        var len := NextDot(rest, 0);
        if len > SLICE_SIZE {
          return -1;
        }
        var (value, used) := Strtol(rest);
        if used != len && used != |rest| {
          return -1;
        }
        match index {
          case 1 => major := value;
          case 2 => minor := value;
          case 3 => patch := value;
          case _ =>
        }
        assert rest[len..] == str[slice + len..];
        if len == |rest| {
          slice := -1;
        } else {
          assert rest[len + 1..] == str[slice + len + 1..];
          slice := slice + len + 1;
        }
      }
      if 0 <= slice {
        SlicesDone(str[slice..], NumbersOf(Contents()));
      }
      return 0;
    }

    method Parse(str: string) returns (status: int)
      requires NUL !in str
      modifies this
      ensures (status, Contents()) == Parsed(str, old(Contents()))
    {
      if !IsValid(str) {
        return -1;
      }
      var buf := new char[|str| + 1](i requires 0 <= i <= |str| => if i < |str| then str[i] else NUL);
      assert buf[..][..|str|] == str && buf[..][|str|] == NUL;
      CStrOf(buf[..], str);
      metadata := ParseSlice(buf, '+');
      prerelease := ParseSlice(buf, '-');
      status := ParseVersion(CStr(buf[..]));
    }
  }
}
