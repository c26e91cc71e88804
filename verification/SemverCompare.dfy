/** Ordering of versions: the cursor walk of compare_prerelease, the order it computes, and how that order
    relates to precedence in section 11 of Semantic Versioning 2.0.0. */
module SemverCompare {
  import opened CStrings

  datatype Version = Version(major: int32, minor: int32, patch: int32, prerelease: Option<string>, metadata: Option<string>)

  // ----- identifiers -----

  const DOT := '.'

  /** The position of the first dot from i on, or the end. */
  function NextDot(s: string, i: nat): (k: nat)
    requires i <= |s|
    ensures i <= k <= |s| && DOT !in s[i..k] && (k < |s| ==> s[k] == DOT)
    decreases |s| - i
  {
    if i < |s| && s[i] != DOT then NextDot(s, i + 1) else i
  }

  /** The identifiers between the dots from position i on. There is always at least one. */
  function Identifiers(s: string, i: nat): (r: seq<string>)
    requires i <= |s|
    ensures r != [] && forall k :: 0 <= k < |r| ==> DOT !in r[k]
    decreases |s| - i
  {
    var k := NextDot(s, i);
    if k == |s| then [s[i..]] else [s[i..k]] + Identifiers(s, k + 1)
  }

  lemma {:induction false} NoDotSkips(x: string, rest: string, i: nat)
    requires DOT !in x && i <= |x| && (rest == [] || rest[0] == DOT)
    ensures NextDot(x + rest, i) == |x|
    decreases |x| - i
  {
    if i < |x| {
      assert (x + rest)[i] == x[i];
      NoDotSkips(x, rest, i + 1);
    }
  }

  function Split(s: string): seq<string> { Identifiers(s, 0) }

  /** An identifier is taken for a number when strtol uses all of it; so is an empty one, as 0. */
  datatype Key = Num(value: int) | Str(text: string)

  function KeyOf(id: string): Key {
    var (n, used) := Strtol(id);
    if used == |id| then Num(n) else Str(id)
  }

  // ----- orders -----

  function Sign(n: int): int { if n < 0 then -1 else if n > 0 then 1 else 0 }

  function CompareKey(a: Key, b: Key): (r: int)
    ensures -1 <= r <= 1
  {
    match (a, b)
    case (Num(m), Num(n)) => Sign(m - n)
    case (Num(_), Str(_)) => -1
    case (Str(_), Num(_)) => 1
    case (Str(s), Str(t)) => CompareText(s, t)
  }

  /** Identifier by identifier; when one list runs out, it comes first. */
  function CompareLists(x: seq<string>, y: seq<string>): (r: int)
    ensures -1 <= r <= 1
  {
    if x == [] then (if y == [] then 0 else -1)
    else if y == [] then 1
    else
      var r := CompareKey(KeyOf(x[0]), KeyOf(y[0]));
      if r != 0 then r else CompareLists(x[1..], y[1..])
  }

  /** A version without a prerelease comes after all those with one. */
  function ComparePre(x: Option<string>, y: Option<string>): (r: int)
    ensures -1 <= r <= 1
  {
    match (x, y)
    case (None, None) => 0
    case (Some(_), None) => -1
    case (None, Some(_)) => 1
    case (Some(s), Some(t)) => CompareLists(Split(s), Split(t))
  }

  function CompareVersions(x: Version, y: Version): (r: int)
    ensures -1 <= r <= 1
  {
    if x.major != y.major then Sign(x.major - y.major)
    else if x.minor != y.minor then Sign(x.minor - y.minor)
    else if x.patch != y.patch then Sign(x.patch - y.patch)
    else ComparePre(x.prerelease, y.prerelease)
  }

  // ----- the code -----

  method BinaryComparison(x: int, y: int) returns (r: int)
    ensures r == Sign(x - y)
  {
    if x == y {
      return 0;
    }
    if x > y {
      return 1;
    }
    return -1;
  }

  /** strncmp of the first n characters, as a sign. */
  function CompareFirst(a: string, b: string, n: nat): int
    requires n <= |a| && n <= |b|
  {
    CompareText(a[..n], b[..n])
  }

  /** Comparing the common length first and then the lengths is comparing character by character. */
  lemma {:induction false} CompareFirstThenLength(a: string, b: string)
    ensures var n := if |a| < |b| then |a| else |b|;
            var r := CompareFirst(a, b, n);
            CompareText(a, b) == if r != 0 then r else Sign(|a| - |b|)
  {
    if a != [] && b != [] {
      var n := if |a| < |b| then |a| else |b|;
      CompareFirstThenLength(a[1..], b[1..]);
      assert a[..n][1..] == a[1..][..n - 1] && b[..n][1..] == b[1..][..n - 1];
    }
  }

  lemma DotEnds(rest: string)
    requires rest == [] || rest[0] == DOT
    ensures Ends(rest)
  {}

  /** What strtol sees from a cursor on is what it sees of the one identifier there. */
  lemma CursorNumber(s: string, i: nat)
    requires i <= |s|
    ensures Strtol(s[i..]) == Strtol(s[i..NextDot(s, i)])
  {
    hide Strtol, Ends;
    var k := NextDot(s, i);
    assert s[i..] == s[i..k] + s[k..];
    assert k < |s| ==> s[k..][0] == s[k];
    DotEnds(s[k..]);
    StrtolPrefix(s[i..k], s[k..]);
  }

  /** Compare the identifiers from the cursors to the dots after them: two numbers by value, a number
      before a word, two words by their common length and then by length. */
  method CompareIdentifiers(s: string, lastx: nat, xptr: nat, t: string, lasty: nat, yptr: nat) returns (r: int)
    requires lastx <= |s| && xptr == NextDot(s, lastx) && lasty <= |t| && yptr == NextDot(t, lasty)
    ensures r == CompareKey(KeyOf(s[lastx..xptr]), KeyOf(t[lasty..yptr]))
  {
    hide Strtol, CompareText, CompareFirst, NextDot;
    CursorNumber(s, lastx);
    CursorNumber(t, lasty);
    var (xnum, xused) := Strtol(s[lastx..]);
    var (ynum, yused) := Strtol(t[lasty..]);
    var xisnum, yisnum := lastx + xused == xptr, lasty + yused == yptr;
    if xisnum && !yisnum {
      return -1;
    }
    if !xisnum && yisnum {
      return 1;
    }
    if xisnum && yisnum {
      if xnum != ynum {
        return if xnum < ynum then -1 else 1;
      }
    } else {
      CompareFirstThenLength(s[lastx..xptr], t[lasty..yptr]);
      var xn, yn := xptr - lastx, yptr - lasty;
      var least := if xn < yn then xn else yn;
      var res := CompareFirst(s[lastx..xptr], t[lasty..yptr], least);
      if res != 0 {
        return if res < 0 then -1 else 1;
      }
      if xn != yn {
        return if xn < yn then -1 else 1;
      }
    }
    return 0;
  }

  /** Walk two cursors over the identifiers. */
  method ComparePrerelease(x: Option<string>, y: Option<string>) returns (r: int)
    ensures r == ComparePre(x, y)
  {
    hide KeyOf, CompareKey, NextDot, Identifiers;
    if x == None && y == None {
      return 0;
    }
    if y == None {
      return -1;
    }
    if x == None {
      return 1;
    }
    var s, t := x.value, y.value;
    var lastx, lasty := 0, 0;
    while true
      invariant 0 <= lastx <= |s| && 0 <= lasty <= |t|
      invariant ComparePre(x, y) == CompareLists(Identifiers(s, lastx), Identifiers(t, lasty))
      decreases |s| - lastx
    {
      var xptr, yptr := NextDot(s, lastx), NextDot(t, lasty);
      FirstIdentifier(s, lastx);
      FirstIdentifier(t, lasty);
      r := CompareIdentifiers(s, lastx, xptr, t, lasty, yptr);
      if r != 0 {
        return r;
      }
      lastx, lasty := xptr + 1, yptr + 1;
      if lastx == |s| + 1 && lasty == |t| + 1 {
        return 0;
      }
      if lastx == |s| + 1 {
        return -1;
      }
      if lasty == |t| + 1 {
        return 1;
      }
    }
  }

  lemma FirstIdentifier(s: string, i: nat)
    requires i <= |s|
    ensures var k := NextDot(s, i);
            var ids := Identifiers(s, i);
            ids[0] == s[i..k] && ids[1..] == if k == |s| then [] else Identifiers(s, k + 1)
  {}

  method CompareNumbers(x: Version, y: Version) returns (r: int)
    ensures r == if x.major != y.major then Sign(x.major - y.major)
                 else if x.minor != y.minor then Sign(x.minor - y.minor) else Sign(x.patch - y.patch)
  {
    r := BinaryComparison(x.major, y.major);
    if r == 0 {
      r := BinaryComparison(x.minor, y.minor);
      if r == 0 {
        r := BinaryComparison(x.patch, y.patch);
      }
    }
  }

  method Compare(x: Version, y: Version) returns (r: int)
    ensures r == CompareVersions(x, y)
  {
    r := CompareNumbers(x, y);
    if r == 0 {
      r := ComparePrerelease(x.prerelease, y.prerelease);
    }
  }

  // ----- a total preorder -----

  lemma KeyReverse(a: Key, b: Key)
    ensures CompareKey(b, a) == -CompareKey(a, b)
  {
    if a.Str? && b.Str? {
      TextReverse(a.text, b.text);
    }
  }

  lemma KeyTransitive(a: Key, b: Key, c: Key)
    requires CompareKey(a, b) <= 0 && CompareKey(b, c) <= 0
    ensures CompareKey(a, c) <= 0
    ensures CompareKey(a, b) < 0 || CompareKey(b, c) < 0 ==> CompareKey(a, c) < 0
  {
    if a.Str? && b.Str? && c.Str? {
      TextTransitive(a.text, b.text, c.text);
    }
  }

  lemma {:induction false} ListsReverse(x: seq<string>, y: seq<string>)
    ensures CompareLists(y, x) == -CompareLists(x, y)
  {
    hide KeyOf, CompareKey;
    if x != [] && y != [] {
      KeyReverse(KeyOf(x[0]), KeyOf(y[0]));
      ListsReverse(x[1..], y[1..]);
    }
  }

  lemma {:induction false} ListsTransitive(x: seq<string>, y: seq<string>, z: seq<string>)
    requires CompareLists(x, y) <= 0 && CompareLists(y, z) <= 0
    ensures CompareLists(x, z) <= 0
    ensures CompareLists(x, y) < 0 || CompareLists(y, z) < 0 ==> CompareLists(x, z) < 0
  {
    hide KeyOf, CompareKey;
    if x != [] && y != [] && z != [] {
      var a, b, c := KeyOf(x[0]), KeyOf(y[0]), KeyOf(z[0]);
      KeyTransitive(a, b, c);
      if CompareKey(a, b) == 0 && CompareKey(b, c) == 0 {
        ListsTransitive(x[1..], y[1..], z[1..]);
      }
    }
  }

  /** The order on versions is reflexive and reverses with its arguments, so any two versions are
      comparable and no two are each before the other. */
  lemma VersionsReverse(x: Version, y: Version)
    ensures CompareVersions(y, x) == -CompareVersions(x, y)
    ensures CompareVersions(x, x) == 0
  {
    hide Split;
    if x.prerelease.Some? {
      ListsReverse(Split(x.prerelease.value), Split(x.prerelease.value));
      if y.prerelease.Some? {
        ListsReverse(Split(x.prerelease.value), Split(y.prerelease.value));
      }
    }
  }

  /** The order on versions is transitive, strictly so where one of the steps is strict. */
  lemma VersionsTransitive(x: Version, y: Version, z: Version)
    requires CompareVersions(x, y) <= 0 && CompareVersions(y, z) <= 0
    ensures CompareVersions(x, z) <= 0
    ensures CompareVersions(x, y) < 0 || CompareVersions(y, z) < 0 ==> CompareVersions(x, z) < 0
  {
    hide Split;
    if x.prerelease.Some? && y.prerelease.Some? && z.prerelease.Some? &&
       (x.major, x.minor, x.patch) == (y.major, y.minor, y.patch) == (z.major, z.minor, z.patch)
    {
      ListsTransitive(Split(x.prerelease.value), Split(y.prerelease.value), Split(z.prerelease.value));
    }
  }
}
