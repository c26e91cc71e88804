/** semver_clean: taking the characters that no version has out of a string, in place. */
module SemverClean {
  import opened CStrings
  import opened SemverText

  const MAX_SAFE_INT := 0x7fff_ffff

  /** The valid characters, in order. */
  function Filter(s: string): string {
    if s == [] then [] else Filter(s[..|s| - 1]) + (if IsValidChar(s[|s| - 1]) then [s[|s| - 1]] else [])
  }

  // ----- what the filter is -----

  lemma {:induction false} FilterConcat(a: string, b: string)
    ensures Filter(a + b) == Filter(a) + Filter(b)
  {
    hide IsValidChar;
    if b == [] {
      assert a + b == a;
    } else {
      var n := |b| - 1;
      FilterConcat(a, b[..n]);
      assert (a + b)[..|a + b| - 1] == a + b[..n];
    }
  }

  /** Every valid character is kept as often as it occurred, and no other one is. */
  lemma {:induction false} FilterCounts(s: string, c: char)
    ensures multiset(Filter(s))[c] == if IsValidChar(c) then multiset(s)[c] else 0
  {
    hide IsValidChar;
    if s != [] {
      var n := |s| - 1;
      FilterCounts(s[..n], c);
      assert s == s[..n] + [s[n]];
    }
  }

  /** The result is valid; it is no longer than the string; and only a valid string is unchanged. */
  lemma {:induction false} FilterValid(s: string)
    ensures ValidChars(Filter(s)) && |Filter(s)| <= |s|
    ensures Filter(s) == s <==> ValidChars(s)
  {
    hide IsValidChar;
    if s != [] {
      var n := |s| - 1;
      FilterValid(s[..n]);
      assert s == s[..n] + [s[n]];
      if Filter(s) == s {
        assert |Filter(s)| == |s|;
      }
    }
  }

  /** Cleaning again changes nothing. */
  lemma FilterTwice(s: string)
    ensures Filter(Filter(s)) == Filter(s)
    ensures |s| <= MAX_SIZE ==> IsValid(Filter(s))
  {
    FilterValid(s);
    FilterValid(Filter(s));
  }

  // ----- the code -----

  /** Cut `length` characters from `begin` on out of the string in the buffer, or all the rest of it when
      there are fewer or the length is negative. */
  method StrCut(buf: array<char>, begin: nat, length: int) returns (cut: int)
    requires NUL in buf[..] && begin <= |CStr(buf[..])|
    modifies buf
    ensures NUL in buf[..]
    ensures var s := old(CStr(buf[..]));
            if |s| > MAX_SAFE_INT then cut == -1 && CStr(buf[..]) == s
            else
              && cut == (if length < 0 || begin + length > |s| then |s| - begin else length)
              && CStr(buf[..]) == s[..begin] + s[begin + cut..]
  {
    ghost var s := CStr(buf[..]);
    CStrShape(buf[..]);
    var l := |CStr(buf[..])|;
    if l > MAX_SAFE_INT {
      return -1;
    }
    cut := length;
    if cut < 0 {
      cut := l - begin + 1;
    }
    if begin + cut > l {
      cut := l - begin;
    }
    ghost var before := buf[..];
    forall k | begin <= k < l - cut + 1 {
      buf[k] := buf[k + cut];
    }
    ghost var t := s[..begin] + s[begin + cut..];
    assert |t| == l - cut;
    assert forall k :: 0 <= k < |t| ==> buf[..][k] == t[k];
    assert buf[..][..|t|] == t;
    assert buf[..][|t|] == before[l] == NUL;
    CStrOf(buf[..], t);
  }

  /** The string when the loop has dealt with its first k characters, and how many it kept of them. */
  function Cleaned(s: string, k: nat): string
    requires k <= |s|
  {
    Filter(s[..k]) + s[k..]
  }

  function Kept(s: string, k: nat): nat
    requires k <= |s|
  {
    |Filter(s[..k])|
  }

  lemma CleanedEnds(s: string)
    ensures Cleaned(s, 0) == s && Kept(s, 0) == 0
    ensures Cleaned(s, |s|) == Filter(s)
  {
    assert s[..|s|] == s;
  }

  /** What keeping or cutting the next character does to the string. */
  lemma CleanStep(s: string, k: nat)
    requires k < |s|
    ensures var now, next, i := Cleaned(s, k), Cleaned(s, k + 1), Kept(s, k);
            && i < |now| && now[i] == s[k]
            && if IsValidChar(s[k]) then next == now && Kept(s, k + 1) == i + 1
               else next == now[..i] + now[i + 1..] && Kept(s, k + 1) == i
  {
    hide IsValidChar;
    assert s[..k + 1][..k] == s[..k];
    assert s[k..] == [s[k]] + s[k + 1..];
  }

  /** Step through the string; after a character is cut out, the next one is at the same place. */
  method Clean(buf: array<char>) returns (status: int)
    requires NUL in buf[..]
    modifies buf
    ensures NUL in buf[..]
    ensures var s := old(CStr(buf[..]));
            if |s| > MAX_SIZE then status == -1 && CStr(buf[..]) == s
            else status == 0 && CStr(buf[..]) == Filter(s) && IsValid(CStr(buf[..]))
  {
    hide IsValid, IsValidChar, CStr, Filter, Cleaned, Kept;
    ghost var s := CStr(buf[..]);
    if |CStr(buf[..])| > MAX_SIZE {
      return -1;
    }
    var len := |CStr(buf[..])|;
    var i := 0;
    ghost var k := 0;
    CleanedEnds(s);
    while i < len
      invariant 0 <= k <= |s| && NUL in buf[..]
      invariant CStr(buf[..]) == Cleaned(s, k) && i == Kept(s, k)
      invariant len == |Cleaned(s, k)| == i + |s| - k && len <= MAX_SIZE
      decreases |s| - k
    {
      CleanStep(s, k);
      CurrentChar(buf[..], i);
      if !IsValidChar(buf[i]) {
        var res := StrCut(buf, i, 1);
        assert res == 1;  // never -1: the string is short
        len := len - 1;
        i := i - 1;
      }
      i := i + 1;
      k := k + 1;
    }
    FilterTwice(s);
    return 0;
  }

  lemma CurrentChar(buf: seq<char>, i: nat)
    requires NUL in buf && i < |CStr(buf)|
    ensures i < |buf| && buf[i] == CStr(buf)[i]
  {
    CStrShape(buf);
  }
}
