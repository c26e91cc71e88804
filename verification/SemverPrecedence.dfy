/** Precedence as section 11 of Semantic Versioning 2.0.0 states it, and exactly where compare_prerelease
    follows it. */
module SemverPrecedence {
  import opened CStrings
  import opened SemverCompare

  // ----- the standard -----

  /** Identifiers are not empty and made of digits, letters and hyphens. */
  predicate ValidId(id: string) {
    id != [] && forall i :: 0 <= i < |id| ==> IsDigit(id[i]) || IsAlpha(id[i]) || id[i] == '-'
  }

  /** Lexical order: at the first difference, or by being shorter. */
  predicate DiffersAt(a: string, b: string, k: nat) {
    k <= |a| && k < |b| && a[..k] == b[..k] && (k == |a| || a[k] < b[k])
  }

  ghost predicate LexBefore(a: string, b: string) { exists k: nat :: DiffersAt(a, b, k) }

  /** Numeric identifiers are compared numerically and come before the others, which are compared
      lexically. */
  ghost predicate IdBefore(a: string, b: string) {
    if AllDigits(a) && AllDigits(b) then Value(a) < Value(b)
    else if AllDigits(a) || AllDigits(b) then AllDigits(a)
    else LexBefore(a, b)
  }

  predicate IdEqual(a: string, b: string) {
    if AllDigits(a) && AllDigits(b) then Value(a) == Value(b) else a == b
  }

  /** The first k identifiers are equal, and then either the next one decides or there is none. */
  ghost predicate DecidedAt(x: seq<string>, y: seq<string>, k: nat) {
    && k <= |x| && k < |y| && (forall i :: 0 <= i < k ==> IdEqual(x[i], y[i]))
    && (k == |x| || IdBefore(x[k], y[k]))
  }

  ghost predicate ListBefore(x: seq<string>, y: seq<string>) { exists k: nat :: DecidedAt(x, y, k) }

  predicate ListEqual(x: seq<string>, y: seq<string>) {
    |x| == |y| && forall i :: 0 <= i < |x| ==> IdEqual(x[i], y[i])
  }

  /** Numbers first; then a prerelease comes before the release; then the identifiers. */
  ghost predicate Before(x: Version, y: Version) {
    if x.major != y.major then x.major < y.major
    else if x.minor != y.minor then x.minor < y.minor
    else if x.patch != y.patch then x.patch < y.patch
    else match (x.prerelease, y.prerelease)
      case (Some(s), Some(t)) => ListBefore(Split(s), Split(t))
      case (Some(_), None) => true
      case (None, _) => false
  }

  predicate SamePrecedence(x: Version, y: Version) {
    && (x.major, x.minor, x.patch) == (y.major, y.minor, y.patch)
    && match (x.prerelease, y.prerelease)
       case (Some(s), Some(t)) => ListEqual(Split(s), Split(t))
       case (None, None) => true
       case _ => false
  }

  // ----- where the code agrees -----

  const MAX_INT := 0x7fff_ffff

  /** A number an int can hold, or a word that does not read as a negative number. */
  predicate Plain(id: string) {
    && (AllDigits(id) ==> Value(id) <= MAX_INT)
    && !(|id| > 1 && id[0] == '-' && AllDigits(id[1..]))
  }

  /** The code and the standard put two identifiers in the same order. */
  ghost predicate Agree(a: string, b: string) {
    var r := CompareKey(KeyOf(a), KeyOf(b));
    (r < 0 <==> IdBefore(a, b)) && (r == 0 <==> IdEqual(a, b))
  }

  lemma {:induction false} TextBefore(a: string, b: string)
    ensures CompareText(a, b) < 0 <==> LexBefore(a, b)
  {
    if a == [] || b == [] || a[0] != b[0] {
      assert DiffersAt(a, b, 0) || forall k: nat :: DiffersAt(a, b, k) ==> k > 0 && a[..k][0] == b[..k][0];
    } else {
      TextBefore(a[1..], b[1..]);
      if k: nat :| DiffersAt(a, b, k) {
        assert k > 0;
        assert a[1..][..k - 1] == a[..k][1..] && b[1..][..k - 1] == b[..k][1..];
        assert DiffersAt(a[1..], b[1..], k - 1);
      }
      if k: nat :| DiffersAt(a[1..], b[1..], k) {
        assert a[..k + 1] == [a[0]] + a[1..][..k] && b[..k + 1] == [b[0]] + b[1..][..k];
        assert DiffersAt(a, b, k + 1);
      }
    }
  }

  lemma NumberKey(id: string)
    requires id != [] && AllDigits(id)
    ensures KeyOf(id).Num?
    ensures Value(id) <= MAX_INT ==> KeyOf(id) == Num(Value(id))
  {
    hide Strtol;
    StrtolDigits(id);
  }

  lemma NoSpaces(id: string)
    requires ValidId(id)
    ensures LeadingSpaces(id) == 0
  {}

  lemma {:induction false} FullOfDigits(s: string)
    ensures LeadingDigits(s) == |s| <==> AllDigits(s)
  {
    if s != [] {
      FullOfDigits(s[1..]);
      assert s[..|s|] == s;
      if AllDigits(s) {
        LeadingDigitsAll(s);
      }
    }
  }

  /** A word is taken for a number exactly when it is a hyphen and digits. */
  lemma WordKey(id: string)
    requires ValidId(id) && !AllDigits(id)
    ensures if id[0] == '-' && |id| > 1 && AllDigits(id[1..]) then KeyOf(id).Num? else KeyOf(id) == Str(id)
  {
    hide Number, Value;
    NoSpaces(id);
    FullOfDigits(id);
    FullOfDigits(id[1..]);
    assert id[0..] == id;
  }

  lemma PlainAgree(a: string, b: string)
    requires ValidId(a) && ValidId(b) && Plain(a) && Plain(b)
    ensures Agree(a, b)
  {
    hide KeyOf, CompareText, Value, ValidId;
    IdKey(a);
    IdKey(b);
    if !AllDigits(a) && !AllDigits(b) {
      TextEqual(a, b);
      TextBefore(a, b);
    }
  }

  lemma IdKey(id: string)
    requires ValidId(id)
    ensures Plain(id) ==> KeyOf(id) == if AllDigits(id) then Num(Value(id)) else Str(id)
    ensures !Plain(id) ==> KeyOf(id).Num? && KeyOf(id).value <= MAX_INT
  {
    hide Strtol, Value;
    if AllDigits(id) {
      NumberKey(id);
    } else {
      WordKey(id);
    }
    KeyRange(id);
  }

  lemma KeyRange(id: string)
    ensures KeyOf(id).Num? ==> KeyOf(id).value <= MAX_INT
  {
    hide Strtol;
    var n: int32 := Strtol(id).0;
  }

  const LARGEST := Decimal(MAX_INT)

  lemma LargestIsPlain()
    ensures ValidId(LARGEST) && Plain(LARGEST) && AllDigits(LARGEST) && Value(LARGEST) == MAX_INT
  {
    hide Decimal, Value;
    DecimalValue(MAX_INT);
    assert LARGEST[0] != '-';
  }

  /** An identifier is ordered as the standard says against every plain identifier, if and only if it is
      plain itself. A number beyond an int, or a word that reads as a negative number, is not: neither
      comes after the largest int. */
  lemma PlainIff(a: string)
    requires ValidId(a)
    ensures (forall b :: ValidId(b) && Plain(b) ==> Agree(a, b)) <==> Plain(a)
  {
    hide KeyOf, ValidId, Value, Decimal;
    if Plain(a) {
      forall b | ValidId(b) && Plain(b) ensures Agree(a, b) {
        PlainAgree(a, b);
      }
    } else {
      NotPlainDisagrees(a);
      LargestIsPlain();
    }
  }

  lemma NotPlainDisagrees(a: string)
    requires ValidId(a) && !Plain(a)
    ensures !Agree(a, LARGEST) && CompareKey(KeyOf(a), KeyOf(LARGEST)) <= 0
    ensures !IdBefore(a, LARGEST) && !IdEqual(a, LARGEST)
  {
    hide KeyOf, ValidId, Value, Decimal;
    LargestIsPlain();
    IdKey(a);
    IdKey(LARGEST);
  }

  // ----- lists and versions -----

  predicate AllPlain(x: seq<string>) { forall i :: 0 <= i < |x| ==> ValidId(x[i]) && Plain(x[i]) }

  lemma DecidedStep(x: seq<string>, y: seq<string>)
    requires x != [] && y != []
    ensures ListBefore(x, y) <==> IdBefore(x[0], y[0]) || (IdEqual(x[0], y[0]) && ListBefore(x[1..], y[1..]))
    ensures ListEqual(x, y) <==> IdEqual(x[0], y[0]) && ListEqual(x[1..], y[1..])
  {
    hide IdBefore, IdEqual;
    if k: nat :| DecidedAt(x, y, k) {
      if k > 0 {
        assert DecidedAt(x[1..], y[1..], k - 1);
      }
    }
    if IdBefore(x[0], y[0]) {
      assert DecidedAt(x, y, 0);
    }
    if k: nat :| IdEqual(x[0], y[0]) && DecidedAt(x[1..], y[1..], k) {
      forall i | 0 <= i < k + 1 ensures IdEqual(x[i], y[i]) {
        if i > 0 {
          assert IdEqual(x[1..][i - 1], y[1..][i - 1]);
        }
      }
      assert DecidedAt(x, y, k + 1);
    }
    if IdEqual(x[0], y[0]) && ListEqual(x[1..], y[1..]) {
      forall i | 0 < i < |x| ensures IdEqual(x[i], y[i]) {
        assert IdEqual(x[1..][i - 1], y[1..][i - 1]);
      }
    }
  }

  ghost predicate ListsAgree(x: seq<string>, y: seq<string>) {
    var r := CompareLists(x, y);
    (r < 0 <==> ListBefore(x, y)) && (r == 0 <==> ListEqual(x, y))
  }

  lemma {:induction false} PlainListsAgree(x: seq<string>, y: seq<string>)
    requires AllPlain(x) && AllPlain(y)
    ensures ListsAgree(x, y)
  {
    hide IdBefore, IdEqual, KeyOf, CompareKey, ValidId, Plain;
    if x == [] || y == [] {
      EmptyLists(x, y);
    } else {
      PlainAgree(x[0], y[0]);
      DecidedStep(x, y);
      PlainListsAgree(x[1..], y[1..]);
    }
  }

  lemma EmptyLists(x: seq<string>, y: seq<string>)
    requires x == [] || y == []
    ensures ListBefore(x, y) <==> |x| < |y|
    ensures ListEqual(x, y) <==> |x| == |y|
  {
    if |x| < |y| {
      assert DecidedAt(x, y, 0);
    }
  }

  predicate AllValid(x: seq<string>) { forall i :: 0 <= i < |x| ==> ValidId(x[i]) }

  lemma {:induction false} TextAppend(a: string, b: string)
    requires b != []
    ensures CompareText(a, a + b) == -1
  {
    if a == [] {
      assert a + b == b;
    } else {
      assert (a + b)[1..] == a[1..] + b;
      TextAppend(a[1..], b);
    }
  }

  /** A plain word that the code puts after an identifier. */
  lemma WordAfter(id: string)
    requires ValidId(id)
    ensures var w := id + "a";
            ValidId(w) && Plain(w) && CompareKey(KeyOf(id), KeyOf(w)) == -1
  {
    hide KeyOf, Value, Strtol;
    var w := id + "a";
    assert w[|id|] == 'a' && w[1..][|id| - 1] == 'a';
    IdKey(w);
    TextAppend(id, "a");
    KeyText(id);
  }

  lemma KeyText(id: string)
    ensures KeyOf(id).Num? || KeyOf(id) == Str(id)
  {
    hide Strtol;
  }

  lemma FirstNotPlain(x: seq<string>) returns (y: seq<string>)
    requires AllValid(x) && x != [] && !Plain(x[0])
    ensures y != [] && AllPlain(y) && !ListsAgree(x, y)
  {
    hide IdBefore, IdEqual, KeyOf, CompareKey, ValidId, Plain, ListBefore, ListEqual, Decimal, Value;
    LargestIsPlain();
    NotPlainDisagrees(x[0]);
    y := [LARGEST];
    if |x| > 1 {
      WordAfter(x[1]);
      y := [LARGEST, x[1] + "a"];
      assert y[1..] == [x[1] + "a"] && x[1..][0] == x[1];
      assert CompareLists(x[1..], y[1..]) == -1;
    } else {
      assert y[1..] == [] && x[1..] == [];
    }
    DecidedStep(x, y);
    assert CompareLists(x, y) <= 0;
    assert !ListBefore(x, y);
    assert !ListEqual(x, y);
  }

  lemma SameFirst(id: string, x: seq<string>, y: seq<string>)
    requires ValidId(id) && Plain(id) && !ListsAgree(x, y)
    ensures !ListsAgree([id] + x, [id] + y)
  {
    hide IdBefore, IdEqual, KeyOf, CompareKey, ValidId, Plain, ListBefore, ListEqual;
    PlainAgree(id, id);
    KeyReverse(KeyOf(id), KeyOf(id));
    DecidedStep([id] + x, [id] + y);
    assert ([id] + x)[1..] == x && ([id] + y)[1..] == y;
  }

  /** Identifiers one of which is not plain are put in the wrong order against some plain ones. */
  lemma {:induction false} Disagreement(x: seq<string>) returns (y: seq<string>)
    requires AllValid(x) && !AllPlain(x)
    ensures y != [] && AllPlain(y) && !ListsAgree(x, y)
  {
    hide ListsAgree, ValidId, Plain;
    if !Plain(x[0]) {
      y := FirstNotPlain(x);
    } else {
      var rest := Disagreement(x[1..]);
      SameFirst(x[0], x[1..], rest);
      y := [x[0]] + rest;
      assert [x[0]] + x[1..] == x;
    }
  }

  /** A prerelease's identifiers are ordered as the standard says against all plain ones, if and only if
      they are all plain. */
  lemma ListsPlainIff(x: seq<string>)
    requires AllValid(x)
    ensures (forall y :: y != [] && AllPlain(y) ==> ListsAgree(x, y)) <==> AllPlain(x)
  {
    hide ListsAgree, ValidId, Plain;
    if AllPlain(x) {
      forall y | y != [] && AllPlain(y) ensures ListsAgree(x, y) {
        PlainListsAgree(x, y);
      }
    } else {
      var y := Disagreement(x);
    }
  }

  predicate PlainVersion(v: Version) { v.prerelease.Some? ==> AllPlain(Split(v.prerelease.value)) }

  /** The code and the standard put two versions in the same order. */
  ghost predicate VersionsAgree(x: Version, y: Version) {
    (CompareVersions(x, y) < 0 <==> Before(x, y)) && (CompareVersions(x, y) == 0 <==> SamePrecedence(x, y))
  }

  /** On versions with plain identifiers the code's order is the standard's precedence. */
  lemma VersionsPrecedence(x: Version, y: Version)
    requires PlainVersion(x) && PlainVersion(y)
    ensures VersionsAgree(x, y)
  {
    hide Split, AllPlain, ListBefore, ListEqual, CompareLists;
    if x.prerelease.Some? && y.prerelease.Some? {
      PlainListsAgree(Split(x.prerelease.value), Split(y.prerelease.value));
    }
  }

  // ----- from lists to prereleases -----

  /** The identifiers with dots between them. */
  function Join(ids: seq<string>): string
    requires ids != []
  {
    if |ids| == 1 then ids[0] else ids[0] + ([DOT] + Join(ids[1..]))
  }

  lemma {:induction false} NextDotShift(x: string, rest: string, i: nat)
    requires i <= |rest|
    ensures NextDot(x + rest, |x| + i) == |x| + NextDot(rest, i)
    decreases |rest| - i
  {
    if i < |rest| && rest[i] != DOT {
      NextDotShift(x, rest, i + 1);
    }
  }

  lemma {:induction false} IdentifiersShift(x: string, rest: string, i: nat)
    requires i <= |rest|
    ensures Identifiers(x + rest, |x| + i) == Identifiers(rest, i)
    decreases |rest| - i
  {
    hide NextDot, Identifiers;
    NextDotShift(x, rest, i);
    var k := NextDot(rest, i);
    IdentifiersStep(rest, i);
    IdentifiersStep(x + rest, |x| + i);
    SliceShift(x, rest, i, k);
    if k < |rest| {
      IdentifiersShift(x, rest, k + 1);
    }
  }

  lemma SliceShift(x: string, rest: string, i: nat, k: nat)
    requires i <= k <= |rest|
    ensures (x + rest)[|x| + i..|x| + k] == rest[i..k] && (x + rest)[|x| + i..] == rest[i..]
  {}

  lemma IdentifiersStep(s: string, i: nat)
    requires i <= |s|
    ensures var k := NextDot(s, i);
            Identifiers(s, i) == if k == |s| then [s[i..]] else [s[i..k]] + Identifiers(s, k + 1)
  {
    hide NextDot;
  }

  /** Splitting undoes joining. */
  lemma {:induction false} SplitJoin(ids: seq<string>)
    requires ids != [] && forall k :: 0 <= k < |ids| ==> DOT !in ids[k]
    ensures Split(Join(ids)) == ids
  {
    hide NextDot, Identifiers;
    var id := ids[0];
    IdentifiersStep(Join(ids), 0);
    if |ids| == 1 {
      NoDotSkips(id, [], 0);
      assert id + [] == id && id[0..] == id && ids == [id];
    } else {
      var rest := Join(ids[1..]);
      NoDotSkips(id, [DOT] + rest, 0);
      HeadAndRest(id, rest);
      IdentifiersShift(id + [DOT], rest, 0);
      SplitJoin(ids[1..]);
      assert ids == [id] + ids[1..];
    }
  }

  lemma HeadAndRest(id: string, rest: string)
    ensures (id + ([DOT] + rest))[0..|id|] == id && id + ([DOT] + rest) == (id + [DOT]) + rest
  {}

  lemma PlainHasNoDots(ids: seq<string>)
    requires AllPlain(ids)
    ensures forall k :: 0 <= k < |ids| ==> DOT !in ids[k]
  {}

  /** A version with a valid prerelease is ordered as the standard says against all plain versions, if and
      only if it is plain. */
  lemma VersionsPlainIff(x: Version)
    requires x.prerelease.Some? ==> AllValid(Split(x.prerelease.value))
    ensures (forall y: Version | PlainVersion(y) :: VersionsAgree(x, y)) <==> PlainVersion(x)
  {
    hide Split, AllPlain, AllValid, VersionsAgree;
    if PlainVersion(x) {
      forall y: Version | PlainVersion(y) ensures VersionsAgree(x, y) {
        VersionsPrecedence(x, y);
      }
    } else {
      var ids := Disagreement(Split(x.prerelease.value));
      PlainHasNoDots(ids);
      SplitJoin(ids);
      var y := x.(prerelease := Some(Join(ids)));
      SameNumbers(x, y);
      assert PlainVersion(y) && !VersionsAgree(x, y);
    }
  }

  /** With the same numbers, two prereleases decide. */
  lemma SameNumbers(x: Version, y: Version)
    requires (x.major, x.minor, x.patch) == (y.major, y.minor, y.patch) && x.prerelease.Some? && y.prerelease.Some?
    ensures VersionsAgree(x, y) <==> ListsAgree(Split(x.prerelease.value), Split(y.prerelease.value))
  {
    hide Split, CompareLists, ListBefore, ListEqual;
  }
}
