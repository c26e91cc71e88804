/** What semver_parse accepts and what it stores, told by the pieces of the text between its dots. */
module SemverParse {
  import opened CStrings
  import opened SemverCompare
  import opened SemverText
  import opened SemverPrecedence

  // ----- valid characters -----

  const NUMBERS := "0123456789"
  const LOWER := "abcdefghijklmnopqrstuvwxyz"
  const UPPER := "ABCDEFGHIJKLMNOPQRSTUVWXYZ"
  const DELIMITERS := ".-+"

  /** The characters that are kept and accepted are those of the library's lists. */
  lemma ValidCharsAre(c: char)
    ensures IsValidChar(c) <==> c in NUMBERS || c in LOWER || c in UPPER || c in DELIMITERS
  {
    InRun(c, NUMBERS, '0', '9');
    InRun(c, LOWER, 'a', 'z');
    InRun(c, UPPER, 'A', 'Z');
  }

  /** A string is accepted up to 255 characters. */
  lemma ValidStringsAre(s: string)
    ensures IsValid(s) <==>
      |s| <= 255 && forall c :: c in s ==> c in NUMBERS || c in LOWER || c in UPPER || c in DELIMITERS
  {
    hide IsValidChar;
    forall c: char ensures IsValidChar(c) <==> c in NUMBERS || c in LOWER || c in UPPER || c in DELIMITERS {
      ValidCharsAre(c);
    }
  }

  lemma InRun(c: char, run: string, first: char, last: char)
    requires first <= last && |run| == last as int - first as int + 1
    requires forall i :: 0 <= i < |run| ==> run[i] as int == first as int + i
    ensures c in run <==> first <= c <= last
  {
    if first <= c <= last {
      var i := c as int - first as int;
      assert run[i] as int == c as int;
      assert run[i] == c;
    }
  }

  // ----- pieces -----

  /** The numbers of a version end where its first plus or minus sign is. */
  predicate Heads(head: string, s: string) {
    && head <= s && '+' !in head && '-' !in head
    && (|head| < |s| ==> s[|head|] == '+' || s[|head|] == '-')
  }

  /** A piece of at most 50 characters that strtol reads whole. */
  predicate Reads(piece: string) { |piece| <= 50 && Strtol(piece).1 == |piece| }

  lemma StrtolOfPiece(s: string)
    ensures Strtol(s) == Strtol(s[..NextDot(s, 0)])
  {
    assert s[0..] == s && s[0..NextDot(s, 0)] == s[..NextDot(s, 0)];
    CursorNumber(s, 0);
  }

  lemma PiecesOf(s: string)
    ensures var k := NextDot(s, 0);
            Split(s) == if k == |s| then [s] else [s[..k]] + Split(s[k + 1..])
  {
    hide NextDot, Identifiers;
    IdentifiersStep(s, 0);
    var k := NextDot(s, 0);
    assert s[0..] == s && s[0..k] == s[..k];
    if k < |s| {
      RestOf(s, k + 1);
    }
  }

  lemma RestOf(s: string, k: nat)
    requires k <= |s|
    ensures Identifiers(s, k) == Split(s[k..])
  {
    hide Identifiers;
    assert s == s[..k] + s[k..];
    IdentifiersShift(s[..k], s[k..], 0);
  }

  predicate SliceGood(s: string) { Reads(s[..NextDot(s, 0)]) }

  lemma SlicesStep(s: string, index: nat, n: Numbers)
    requires index < 4
    ensures var k := NextDot(s, 0);
            ParseSlices(s, index, n) ==
              if !SliceGood(s) then (-1, n)
              else if k == |s| then (0, Store(n, index + 1, Strtol(s[..k]).0))
              else ParseSlices(s[k + 1..], index + 1, Store(n, index + 1, Strtol(s[..k]).0))
  {
    hide NextDot, Strtol;
    StrtolOfPiece(s);
    StrtolUsed(s[..NextDot(s, 0)]);
  }

  lemma StrtolUsed(piece: string)
    ensures Strtol(piece).1 <= |piece|
  {}

  // ----- the law -----

  function Field(n: Numbers, f: int): int { if f == 1 then n.major else if f == 2 then n.minor else n.patch }

  /** The first m pieces, of the first `most`, are read, and the next one, if there is one, is not. */
  predicate Stops(pieces: seq<string>, most: int, m: nat) {
    && m <= |pieces| && m <= most && (forall i :: 0 <= i < m ==> Reads(pieces[i]))
    && (m < |pieces| && m < most ==> !Reads(pieces[m]))
  }

  /** From slice number index + 1 on: how far the slices are read, and what that stores. */
  lemma {:induction false} SlicesLaw(s: string, index: nat, n: Numbers) returns (m: nat)
    requires index <= 4
    ensures var pieces := Split(s);
            var (status, r) := ParseSlices(s, index, n);
            && Stops(pieces, 4 - index, m)
            && status == (if m == 4 - index || m == |pieces| then 0 else -1)
            && forall f :: 1 <= f <= 3 ==>
                 Field(r, f) == if index < f <= index + m then Strtol(pieces[f - index - 1]).0 else Field(n, f)
    decreases |s|
  {
    hide Strtol, NextDot, Split, ParseSlices, Reads;
    PiecesOf(s);
    m := 0;
    if index == 4 {
      SlicesDone(s, n);
    } else {
      SlicesStep(s, index, n);
      var k := NextDot(s, 0);
      assert k == |s| ==> s[..k] == s;
      assert Split(s)[0] == s[..k];
      if SliceGood(s) {
        m := 1;
        if k < |s| {
          assert Split(s)[1..] == Split(s[k + 1..]);
          var rest := SlicesLaw(s[k + 1..], index + 1, Store(n, index + 1, Strtol(s[..k]).0));
          m := rest + 1;
        }
      }
    }
  }

  lemma HeadCut(s: string, head: string)
    requires Heads(head, s)
    ensures Cut(Cut(s, '+').0, '-').0 == head
  {
    var a := Cut(s, '+').0;
    var b := Cut(a, '-').0;
    assert forall i :: 0 <= i < |head| ==> head[i] == s[i] && s[i] != '+' && s[i] != '-';
    assert forall i :: 0 <= i < |b| ==> b[i] == s[i] && s[i] != '+' && s[i] != '-';
  }

  /** A string parses exactly when it is valid and the first four pieces of its numbers are read; what is
      stored are the numbers of the pieces before the first that is not, and nothing else of the numbers is
      changed. */
  lemma ParseLaw(s: string, head: string, v0: Version) returns (m: nat)
    requires IsValid(s) && Heads(head, s)
    ensures var pieces := Split(head);
            var (status, v) := Parsed(s, v0);
            && Stops(pieces, 4, m)
            && (status == 0 || status == -1)
            && (status == 0 <==> forall i :: 0 <= i < 4 && i < |pieces| ==> Reads(pieces[i]))
            && v.major == (if 1 <= m then Strtol(pieces[0]).0 else v0.major)
            && v.minor == (if 2 <= m then Strtol(pieces[1]).0 else v0.minor)
            && v.patch == (if 3 <= m then Strtol(pieces[2]).0 else v0.patch)
  {
    hide Strtol, Split, ParseSlices, Reads, Cut, IsValid;
    HeadCut(s, head);
    m := SlicesLaw(head, 0, NumbersOf(v0));
    var r := ParseSlices(head, 0, NumbersOf(v0)).1;
    assert Field(r, 1) == r.major && Field(r, 2) == r.minor && Field(r, 3) == r.patch;
  }

  /** The parts: the metadata is what follows the first plus sign, the prerelease what follows the first minus
      sign before that; an absent sign means an absent part. An invalid string changes nothing. */
  lemma PartsLaw(s: string, v0: Version)
    ensures var (status, v) := Parsed(s, v0);
            if !IsValid(s) then status == -1 && v == v0
            else
              && (v.metadata.Some? <==> '+' in s)
              && var x := if v.metadata.Some? then s[..FirstIndex(s, '+')] else s;
                 && (v.metadata.Some? ==> s == x + ['+'] + v.metadata.value)
                 && (v.prerelease.Some? <==> '-' in x)
                 && (v.prerelease.Some? ==> x == x[..FirstIndex(x, '-')] + ['-'] + v.prerelease.value)
  {
    hide IsValid, ParseSlices;
    CutLaw(s, '+');
    CutLaw(Cut(s, '+').0, '-');
  }

  lemma CutLaw(s: string, c: char)
    ensures var (x, part) := Cut(s, c);
            && (part.Some? <==> c in s) && x == s[..FirstIndex(s, c)]
            && (part.Some? ==> s == x + [c] + part.value) && (part.None? ==> x == s)
  {
    hide FirstIndex;
    var k := FirstIndex(s, c);
    if k < |s| {
      assert s == s[..k] + [s[k]] + s[k + 1..];
    } else {
      assert s[..k] == s;
    }
  }

  lemma DecimalSamples()
    ensures IntText(0) == "0" && IntText(1) == "1" && IntText(20) == "20" && IntText(300) == "300"
  {
    assert Decimal(2) == "2" && Decimal(20) == "20";
    assert Decimal(3) == "3" && Decimal(30) == "30" && Decimal(300) == "300";
  }

  /** What is rendered, by example: the separators where the standard has them. */
  lemma RenderedExample()
    ensures Rendered(Version(1, 20, 300, Some("rc.1"), Some("b"))) == "1.20.300-rc.1+b"
    ensures Rendered(Version(0, 0, 0, None, None)) == "0.0.0"
  {
    hide IntText;
    DecimalSamples();
  }
}
