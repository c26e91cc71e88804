/** Parsing a rendered version gives the version back: exactly when it does. */
module SemverRoundTrip {
  import opened CStrings
  import opened SemverCompare
  import opened SemverText

  predicate NonNegative(v: Version) { 0 <= v.major && 0 <= v.minor && 0 <= v.patch }

  predicate ValidPart(part: Option<string>) { part.Some? ==> ValidChars(part.value) }

  /** No number is negative, the parts are of valid characters, and the prerelease has no plus sign. */
  predicate Renderable(v: Version) {
    NonNegative(v) && ValidPart(v.prerelease) && ValidPart(v.metadata) &&
    (v.prerelease.Some? ==> '+' !in v.prerelease.value)
  }

  // ----- the numbers -----

  /** A slice that is a decimal number is stored, and parsing goes on after the dot. */
  lemma ParseNumber(n: int32, rest: string, index: nat, v: Numbers)
    requires 0 <= n && index < 4
    ensures ParseSlices(Decimal(n) + "." + rest, index, v) == ParseSlices(rest, index + 1, Store(v, index + 1, n))
    ensures ParseSlices(Decimal(n), index, v) == (0, Store(v, index + 1, n))
  {
    hide Decimal, Strtol, Store;
    var d := Decimal(n);
    IntLength(n);
    DecimalNoNul(n);
    NumberStored(n);
    NoDotSkips(d, [], 0);
    assert d + [] == d;
    var s := d + "." + rest;
    assert s == d + ("." + rest);
    NoDotSkips(d, "." + rest, 0);
    StrtolPrefix(d, "." + rest);
    assert s[|d| + 1..] == rest;
  }

  lemma NumberStored(n: int32)
    requires 0 <= n
    ensures Strtol(Decimal(n)) == (n, |Decimal(n)|)
  {
    hide Decimal, Value;
    StrtolDigits(Decimal(n));
    DecimalValue(n);
  }

  lemma ParseNothing(index: nat, v: Numbers)
    requires index < 4
    ensures ParseSlices([], index, v) == (0, Store(v, index + 1, 0))
  {
    StrtolEmpty();
  }

  lemma PositiveText(n: int32)
    requires 0 <= n
    ensures IntText(n) == Decimal(n) && '-' !in IntText(n) && '+' !in IntText(n)
  {
    DecimalNoNul(n);
    assert "" + Decimal(n) == Decimal(n);
  }

  lemma ParseNumbers(v: Version, n: Numbers)
    requires NonNegative(v)
    ensures ParseSlices(NumbersText(v), 0, n) == (0, NumbersOf(v))
    ensures '-' !in NumbersText(v)
  {
    hide Decimal, IntText, ParseSlices;
    PositiveText(v.major);
    PositiveText(v.minor);
    PositiveText(v.patch);
    var a, b, c := Decimal(v.major), Decimal(v.minor), Decimal(v.patch);
    assert NumbersText(v) == a + "." + (b + "." + c);
    ParseNumber(v.major, b + "." + c, 0, n);
    var n1 := Store(n, 1, v.major);
    ParseNumber(v.minor, c, 1, n1);
    ParseNumber(v.patch, [], 2, Store(n1, 2, v.minor));
  }

  // ----- the parts -----

  lemma NumbersTextShape(v: Version)
    ensures '+' !in NumbersText(v) && ValidChars(NumbersText(v)) && |NumbersText(v)| <= 35
  {
    hide IntText, IsValidChar;
    IntTextShape(v.major);
    IntTextShape(v.minor);
    IntTextShape(v.patch);
    DotIsValid();
  }

  lemma DotIsValid()
    ensures IsValidChar('.') && IsValidChar('-') && IsValidChar('+')
  {}

  lemma ValidConcat(a: string, b: string)
    ensures ValidChars(a + b) <==> ValidChars(a) && ValidChars(b)
  {
    hide IsValidChar;
    if ValidChars(a + b) {
      assert forall i :: 0 <= i < |a| ==> a[i] == (a + b)[i];
      assert forall i :: 0 <= i < |b| ==> b[i] == (a + b)[|a| + i];
    }
  }

  lemma PartShape(sep: char, part: Option<string>)
    requires ShortPart(part) && IsValidChar(sep)
    ensures |PartText(sep, part)| <= 49 && (ValidChars(PartText(sep, part)) <==> ValidPart(part))
  {
    hide IsValidChar;
    if part.Some? {
      ValidConcat([sep], part.value);
    }
  }

  /** What is rendered is a valid string exactly when the parts are. */
  lemma RenderedValid(v: Version)
    requires ShortPart(v.prerelease) && ShortPart(v.metadata)
    ensures IsValid(Rendered(v)) <==> ValidPart(v.prerelease) && ValidPart(v.metadata)
  {
    hide NumbersText, IsValidChar, PartText, ValidChars;
    NumbersTextShape(v);
    DotIsValid();
    PartShape('-', v.prerelease);
    PartShape('+', v.metadata);
    ValidConcat(NumbersText(v), PartText('-', v.prerelease));
    ValidConcat(NumbersText(v) + PartText('-', v.prerelease), PartText('+', v.metadata));
  }

  /** Cutting at a separator that only a part may hold. */
  lemma CutPart(x: string, sep: char, part: Option<string>)
    requires sep !in x
    ensures Cut(x + PartText(sep, part), sep) == (x, part)
  {
    hide Cut;
    if part.Some? {
      CutAt(x, sep, part.value);
      assert x + [sep] + part.value == x + PartText(sep, part);
    } else {
      CutNone(x, sep);
      assert x + [] == x;
    }
  }

  lemma PlusFree(v: Version)
    requires v.prerelease.Some? ==> '+' !in v.prerelease.value
    ensures '+' !in NumbersText(v) + PartText('-', v.prerelease)
  {
    hide NumbersText;
    NumbersTextShape(v);
  }

  lemma GoodRoundTrip(v: Version, v0: Version)
    requires ShortPart(v.prerelease) && ShortPart(v.metadata) && Renderable(v)
    ensures Parsed(Rendered(v), v0) == (0, v)
  {
    hide NumbersText, PartText, ParseSlices, IsValid, Cut, ShortPart, ValidPart;
    RenderedValid(v);
    PlusFree(v);
    ParseNumbers(v, NumbersOf(v0));
    CutPart(NumbersText(v) + PartText('-', v.prerelease), '+', v.metadata);
    CutPart(NumbersText(v), '-', v.prerelease);
  }

  /** With a plus sign in it the prerelease comes back cut short. */
  lemma PlusCutsPrerelease(v: Version, v0: Version)
    requires NonNegative(v) && v.prerelease.Some? && '+' in v.prerelease.value
    ensures Parsed(Rendered(v), v0).1 != v || Parsed(Rendered(v), v0).0 != 0
  {
    hide NumbersText, ParseSlices, IsValid, Cut;
    var p := v.prerelease.value;
    var k := FirstIndex(p, '+');
    var x := NumbersText(v) + (['-'] + p[..k]);
    var y := p[k + 1..] + PartText('+', v.metadata);
    NumbersTextShape(v);
    assert p == p[..k] + ['+'] + p[k + 1..];
    assert Rendered(v) == x + ['+'] + y;
    CutAt(x, '+', y);
    ParseNumbers(v, NumbersOf(v0));
    CutAt(NumbersText(v), '-', p[..k]);
    assert x == NumbersText(v) + ['-'] + p[..k];
  }

  /** With a negative number, what is left of the numbers stops before its sign. */
  lemma NegativeNumbers(v: Version, n: Numbers) returns (x: string, y: string)
    requires !NonNegative(v)
    ensures NumbersText(v) == x + ['-'] + y && '-' !in x && '+' !in x
    ensures ParseSlices(x, 0, n).1 != NumbersOf(v)
  {
    hide Decimal, ParseSlices;
    var a, b, c := IntText(v.major), IntText(v.minor), IntText(v.patch);
    if v.major < 0 {
      x, y := [], Decimal(Magnitude(v.major)) + "." + b + "." + c;
      ParseNothing(0, n);
    } else {
      PositiveText(v.major);
      if v.minor < 0 {
        x, y := a + ".", Decimal(Magnitude(v.minor)) + "." + c;
        assert a + "." == a + "." + "";
        ParseNumber(v.major, "", 0, n);
        ParseNothing(1, Store(n, 1, v.major));
      } else {
        PositiveText(v.minor);
        x, y := a + "." + b + ".", Decimal(Magnitude(v.patch));
        assert x == a + "." + (b + "." + "");
        ParseNumber(v.major, b + "." + "", 0, n);
        ParseNumber(v.minor, "", 1, Store(n, 1, v.major));
        ParseNothing(2, Store(Store(n, 1, v.major), 2, v.minor));
      }
    }
    assert NumbersText(v) == x + ['-'] + y;
  }

  lemma NegativeLost(v: Version, v0: Version)
    requires !NonNegative(v)
    ensures Parsed(Rendered(v), v0).1 != v || Parsed(Rendered(v), v0).0 != 0
  {
    hide NumbersText, ParseSlices, IsValid, PartText;
    var x, y := NegativeNumbers(v, NumbersOf(v0));
    var tail := y + PartText('-', v.prerelease) + PartText('+', v.metadata);
    assert Rendered(v) == x + ['-'] + tail;
    // the first plus sign, if any, comes after the minus sign
    var k := FirstIndex(['-'] + tail, '+');
    if k == |['-'] + tail| {
      assert ['-'] + tail == (['-'] + tail)[..k];
      CutNone(Rendered(v), '+');
      CutAt(x, '-', tail);
    } else {
      var head := (['-'] + tail)[..k];
      assert k > 0;
      assert head == ['-'] + head[1..];
      var rest := (['-'] + tail)[k + 1..];
      assert Rendered(v) == (x + head) + ['+'] + rest;
      CutAt(x + head, '+', rest);
      CutAt(x, '-', head[1..]);
      assert x + head == x + ['-'] + head[1..];
    }
  }

  /** Parsing what was rendered, whatever the version record held before, succeeds and gives the version
      back exactly, if and only if no number is negative, the parts are of valid characters, and the
      prerelease has no plus sign. An absent part stays absent and an empty one empty. */
  lemma RoundTripIff(v: Version, v0: Version)
    requires ShortPart(v.prerelease) && ShortPart(v.metadata)
    ensures Parsed(Rendered(v), v0) == (0, v) <==> Renderable(v)
  {
    hide Parsed, Rendered, ShortPart, ValidPart;
    if Renderable(v) {
      GoodRoundTrip(v, v0);
    } else if !NonNegative(v) {
      NegativeLost(v, v0);
    } else if v.prerelease.Some? && '+' in v.prerelease.value {
      PlusCutsPrerelease(v, v0);
    } else {
      RenderedValid(v);
      NotValid(Rendered(v), v0);
    }
  }

  lemma NotValid(s: string, v0: Version)
    ensures !IsValid(s) ==> Parsed(s, v0) == (-1, v0)
  {}

  /** Rendering loses nothing: two versions that parsing gives back are rendered alike only if they are
      the same. */
  lemma RenderedInjective(v: Version, w: Version)
    requires ShortPart(v.prerelease) && ShortPart(v.metadata) && Renderable(v)
    requires ShortPart(w.prerelease) && ShortPart(w.metadata) && Renderable(w)
    requires Rendered(v) == Rendered(w)
    ensures v == w
  {
    hide Parsed, Rendered, ShortPart, Renderable;
    RoundTripIff(v, v);
    RoundTripIff(w, v);
  }
}
