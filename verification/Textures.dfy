/** The table of texture types: loading, sorting, and the case-insensitive search by name. */
module Textures {
  import opened CStrings

  const MAX_TEXTURES := 512  // CTEXTURESMAX
  const NAME_LENGTH := 12    // CBTEXTURENAMEMAX without the terminator
  const CONCRETE := 'C'

  datatype Entry = Entry(name: string, kind: char)

  // ----- comparing names -----

  function Fold(c: char): char { if 'A' <= c <= 'Z' then c - 'A' + 'a' else c }

  function Folded(s: string): (r: string)
    ensures |r| == |s| && forall i :: 0 <= i < |r| ==> r[i] == Fold(s[i])
  {
    seq(|s|, i requires 0 <= i < |s| => Fold(s[i]))
  }

  /** The sign of _stricmp: the comparison of the strings apart from case. */
  function Compare(a: string, b: string): int { CompareText(Folded(a), Folded(b)) }

  /** At most the first NAME_LENGTH characters: what _strnicmp looks at. */
  function Cut(s: string): string { if |s| <= NAME_LENGTH then s else s[..NAME_LENGTH] }

  lemma CompareReverse(a: string, b: string)
    ensures Compare(b, a) == -Compare(a, b)
  {
    TextReverse(Folded(a), Folded(b));
  }

  lemma CompareTransitive(a: string, b: string, c: string)
    requires Compare(a, b) <= 0 && Compare(b, c) <= 0
    ensures Compare(a, c) <= 0
    ensures Compare(a, b) < 0 || Compare(b, c) < 0 ==> Compare(a, c) < 0
  {
    TextTransitive(Folded(a), Folded(b), Folded(c));
  }

  /** Equal in comparison is equal apart from case. */
  lemma CompareEqual(a: string, b: string)
    ensures Compare(a, b) == 0 <==> |a| == |b| && forall i :: 0 <= i < |a| ==> Fold(a[i]) == Fold(b[i])
  {
    TextEqual(Folded(a), Folded(b));
  }

  ghost predicate Sorted(s: seq<Entry>) {
    forall i, j :: 0 <= i < j < |s| ==> Compare(s[i].name, s[j].name) <= 0
  }

  // ----- the lines of the materials file -----

  function ToUpper(c: char): char { if 'a' <= c <= 'z' then c - 'a' + 'A' else c }

  /** The first position from i on where being a space is `space`, or the end of the line. */
  function Scan(line: string, i: nat, space: bool): (r: nat)
    requires i <= |line|
    ensures i <= r <= |line|
    ensures forall k :: i <= k < r ==> IsSpace(line[k]) != space
    ensures r < |line| ==> IsSpace(line[r]) == space
    decreases |line| - i
  {
    if i < |line| && IsSpace(line[i]) != space then Scan(line, i + 1, space) else i
  }

  function Min(a: int, b: int): int { if a < b then a else b }

  /** A line gives an entry when it has a letter, then a name that is followed by white space; the name is
      cut to NAME_LENGTH characters. */
  function ParseLine(line: string): Option<Entry> {
    var i := Scan(line, 0, false);
    if i == |line| || !IsAlpha(line[i]) then None
    else
      var n := Scan(line, i + 1, false);
      var j := Scan(line, n, true);
      if n == |line| || j == |line| then None
      else Some(Entry(line[n..Min(j, n + NAME_LENGTH)], ToUpper(line[i])))
  }

  predicate Spaces(s: string) { forall i :: 0 <= i < |s| ==> IsSpace(s[i]) }

  predicate Solid(s: string) { forall i :: 0 <= i < |s| ==> !IsSpace(s[i]) }

  /** A line as the file has them: a letter, and after it a name followed by white space. */
  predicate Shaped(line: string, a: string, c: char, b: string, name: string, rest: string) {
    && line == a + [c] + b + name + rest && Spaces(a) && IsAlpha(c) && Spaces(b)
    && name != [] && Solid(name) && rest != [] && IsSpace(rest[0])
  }

  lemma {:induction false} ScanTo(line: string, i: nat, space: bool, k: nat)
    requires i <= k <= |line| && (forall n :: i <= n < k ==> IsSpace(line[n]) != space)
    requires k < |line| ==> IsSpace(line[k]) == space
    ensures Scan(line, i, space) == k
    decreases k - i
  {
    if i < k {
      ScanTo(line, i + 1, space, k);
    }
  }

  lemma Joined(a: string, c: char, b: string, name: string, rest: string)
    ensures var line := a + [c] + b + name + rest;
            var n := |a| + 1 + |b|;
            && |line| == n + |name| + |rest| && line[..|a|] == a && line[|a|] == c && line[|a| + 1..n] == b
            && line[n..n + |name|] == name && line[n + |name|..] == rest
  {}

  /** Every line of that shape gives the entry, its name cut to NAME_LENGTH characters and its kind in upper
      case. */
  lemma ShapedParses(line: string, a: string, c: char, b: string, name: string, rest: string)
    requires Shaped(line, a, c, b, name, rest)
    ensures ParseLine(line) == Some(Entry(Cut(name), ToUpper(c)))
  {
    hide IsSpace, IsAlpha, ToUpper, Scan, Cut;
    var i, n := |a|, |a| + 1 + |b|;
    Joined(a, c, b, name, rest);
    assert forall k :: 0 <= k < i ==> line[k] == line[..i][k];
    assert forall k :: i < k < n ==> line[k] == line[i + 1..n][k - i - 1];
    assert forall k :: n <= k < n + |name| ==> line[k] == line[n..n + |name|][k - n];
    assert line[n + |name|] == line[n + |name|..][0];
    LettersAreSolid(c);
    ScanTo(line, 0, false, i);
    ScanTo(line, i + 1, false, n);
    ScanTo(line, n, true, n + |name|);
    CutPrefix(line, n, name);
  }

  lemma CutPrefix(line: string, n: nat, name: string)
    requires n + |name| <= |line| && line[n..n + |name|] == name
    ensures line[n..Min(n + |name|, n + NAME_LENGTH)] == Cut(name)
  {}

  lemma LettersAreSolid(c: char)
    requires IsAlpha(c)
    ensures !IsSpace(c)
  {}

  /** And only lines of that shape give one. */
  lemma ParsedShape(line: string) returns (a: string, c: char, b: string, name: string, rest: string)
    requires ParseLine(line).Some?
    ensures Shaped(line, a, c, b, name, rest)
  {
    hide IsSpace, IsAlpha, ToUpper, Scan;
    var i := Scan(line, 0, false);
    var n := Scan(line, i + 1, false);
    var j := Scan(line, n, true);
    a, c, b, name, rest := line[..i], line[i], line[i + 1..n], line[n..j], line[j..];
    Rejoined(line, i, n, j);
    assert !IsSpace(line[n]) && IsSpace(line[j]);
    assert rest[0] == line[j];
  }

  lemma Rejoined(line: string, i: nat, n: nat, j: nat)
    requires i < n <= j < |line|
    ensures line == line[..i] + [line[i]] + line[i + 1..n] + line[n..j] + line[j..]
  {}

  function ParseLines(lines: seq<string>): seq<Entry> {
    if lines == [] then []
    else
      var init := ParseLines(lines[..|lines| - 1]);
      match ParseLine(lines[|lines| - 1])
      case Some(e) => init + [e]
      case None => init
  }

  function Cap(s: seq<Entry>): seq<Entry> { if |s| <= MAX_TEXTURES then s else s[..MAX_TEXTURES] }

  predicate Named(e: Entry) { 0 < |e.name| <= NAME_LENGTH }

  lemma {:induction false} ParsedNames(lines: seq<string>)
    ensures forall i :: 0 <= i < |ParseLines(lines)| ==> Named(ParseLines(lines)[i])
    ensures |ParseLines(lines)| <= |lines|
  {
    if lines != [] {
      ParsedNames(lines[..|lines| - 1]);
    }
  }

  lemma {:induction false} ParsedPrefix(lines: seq<string>, k: nat)
    requires k <= |lines|
    ensures ParseLines(lines[..k]) <= ParseLines(lines)
  {
    if k == |lines| {
      assert lines[..k] == lines;
    } else {
      ParsedPrefix(lines[..|lines| - 1], k);
      assert lines[..|lines| - 1][..k] == lines[..k];
    }
  }

  lemma ParsedNext(lines: seq<string>, k: nat)
    requires k < |lines|
    ensures ParseLines(lines[..k + 1]) ==
            ParseLines(lines[..k]) + match ParseLine(lines[k]) case Some(e) => [e] case None => []
  {
    assert lines[..k + 1][..k] == lines[..k];
  }

  /** Loading stops at the end of the file or when the table is full. */
  lemma LoadedPrefix(lines: seq<string>, k: nat)
    requires k <= |lines| && |ParseLines(lines[..k])| <= MAX_TEXTURES
    requires k < |lines| ==> |ParseLines(lines[..k])| == MAX_TEXTURES
    ensures ParseLines(lines[..k]) == Cap(ParseLines(lines))
    ensures forall i :: 0 <= i < |ParseLines(lines[..k])| ==> Named(ParseLines(lines[..k])[i])
  {
    ParsedPrefix(lines, k);
    ParsedNames(lines[..k]);
    assert lines[..|lines|] == lines;
  }

  // ----- searching -----

  predicate Matches(name: string, e: Entry) { Compare(Cut(name), Cut(e.name)) == 0 }

  function Swapped<T>(s: seq<T>, i: nat, j: nat): seq<T>
    requires i < |s| && j < |s|
  {
    s[i := s[j]][j := s[i]]
  }

  function Zip(names: seq<string>, kinds: seq<char>): (s: seq<Entry>)
    requires |names| == |kinds|
    ensures |s| == |names| && forall i :: 0 <= i < |s| ==> s[i] == Entry(names[i], kinds[i])
  {
    seq(|names|, i requires 0 <= i < |names| => Entry(names[i], kinds[i]))
  }

  lemma SwappedKeeps<T>(s: seq<T>, i: nat, j: nat)
    requires i < |s| && j < |s|
    ensures multiset(Swapped(s, i, j)) == multiset(s)
  {}

  class TextureTable {
    var count: nat
    const names: array<string>
    const kinds: array<char>
    var initialized: bool

    constructor ()
      ensures Valid() && Entries() == [] && !initialized && fresh(names) && fresh(kinds)
    {
      count, initialized := 0, false;
      names, kinds := new string[MAX_TEXTURES](_ => []), new char[MAX_TEXTURES](_ => '\0');
    }

    predicate Sized()
      reads this
    {
      names.Length == kinds.Length == MAX_TEXTURES && count <= MAX_TEXTURES
    }

    ghost function Entries(): (s: seq<Entry>)
      requires Sized()
      reads this, names, kinds
      ensures |s| == count && forall i :: 0 <= i < |s| ==> s[i] == Entry(names[i], kinds[i])
    {
      Zip(names[..count], kinds[..count])
    }

    /** Sorted, with names of at most NAME_LENGTH characters. */
    ghost predicate Valid()
      reads this, names, kinds
    {
      Sized() && Sorted(Entries()) && forall i :: 0 <= i < count ==> Named(Entries()[i])
    }

    method SwapTextures(i: nat, j: nat)
      requires Sized() && i < count && j < count
      modifies names, kinds
      ensures Entries() == Swapped(old(Entries()), i, j)
    {
      var name, kind := names[i], kinds[i];
      names[i], kinds[i] := names[j], kinds[j];
      names[j], kinds[j] := name, kind;
    }

    /** The exchange sort. */
    method SortTextures()
      requires Sized()
      modifies names, kinds
      ensures Entries() == Exchanged(old(Entries()))
      ensures Sorted(Entries()) && multiset(Entries()) == multiset(old(Entries()))
      ensures Sorted(old(Entries())) ==> Entries() == old(Entries())
    {
      hide Compare, Sorted;
      ExchangedSorts(Entries());
      var i := 0;
      while i < count
        invariant 0 <= i <= count
        invariant ExchangedFrom(Entries(), i) == Exchanged(old(Entries()))
      {
        ghost var before := Entries();
        var j := i + 1;
        while j < count
          invariant i < j <= count
          invariant Placed(Entries(), i, j) == Placed(before, i, i + 1)
        {
          if Compare(names[i], names[j]) > 0 {
            SwapTextures(i, j);
          }
          j := j + 1;
        }
        i := i + 1;
      }
    }

    /** One line of the file; the place for the kind is written before the name is known to be good. */
    method LoadLine(line: string)
      requires Sized() && count < MAX_TEXTURES
      modifies `count, names, kinds
      ensures Sized()
      ensures Entries() == old(Entries()) + match ParseLine(line) case Some(e) => [e] case None => []
    {
      hide IsSpace, ToUpper;
      ghost var before := Entries();
      var i := 0;
      while i < |line| && IsSpace(line[i])
        invariant 0 <= i <= |line| && Scan(line, 0, false) == Scan(line, i, false)
      {
        i := i + 1;
      }
      if i == |line| || line[i] == '/' || !IsAlpha(line[i]) {
        return;
      }
      kinds[count] := ToUpper(line[i]);
      assert Entries() == before;
      i := i + 1;
      ghost var afterKind := i;
      while i < |line| && IsSpace(line[i])
        invariant afterKind <= i <= |line| && Scan(line, afterKind, false) == Scan(line, i, false)
      {
        i := i + 1;
      }
      if i == |line| {
        return;
      }
      var j := i;
      while j < |line| && !IsSpace(line[j])
        invariant i <= j <= |line| && Scan(line, i, true) == Scan(line, j, true)
      {
        j := j + 1;
      }
      if j == |line| {
        return;
      }
      j := Min(j, NAME_LENGTH + i);
      names[count] := line[i..j];
      count := count + 1;
    }

    /** Load the materials file, if there is one and it has not been loaded before. */
    method InitTextureTypes(file: Option<seq<string>>)
      requires Valid()
      modifies this, names, kinds
      ensures Valid()
      ensures old(initialized) ==> initialized && Entries() == old(Entries())
      ensures !old(initialized) && file == None ==> !initialized && Entries() == []
      ensures !old(initialized) && file.Some? ==>
                var loaded := Cap(ParseLines(file.value));
                && initialized && Entries() == Exchanged(loaded) && multiset(Entries()) == multiset(loaded)
                && (Sorted(loaded) ==> Entries() == loaded)
    {
      hide Sorted, ParseLine, Named, Cap, Exchanged;
      if initialized {
        return;
      }
      count := 0;
      NothingSorted(Entries());
      if file == None {
        return;
      }
      var lines, k := file.value, 0;
      while k < |lines| && count < MAX_TEXTURES
        invariant 0 <= k <= |lines| && Sized()
        invariant Entries() == ParseLines(lines[..k])
      {
        ParsedNext(lines, k);
        LoadLine(lines[k]);
        k := k + 1;
      }
      LoadedPrefix(lines, k);
      ghost var loaded := Entries();
      SortTextures();
      NamesPermuted(loaded, Entries());
      initialized := true;
    }

    /** The kind of the first pivot whose name agrees with the first NAME_LENGTH characters, apart from
        case; if no entry's name does, concrete. */
    method FindTextureType(name: string) returns (kind: char)
      requires Valid()
      ensures if Matched(Entries(), name) then Answers(Entries(), name, kind) else kind == CONCRETE
      ensures kind == BinaryFind(Entries(), name)
    {
      hide Compare, Cut, Sorted, Named, Matches, Pivot, Matched, Answers;
      ghost var s := Entries();
      ghost var p := Pivot(s, name, 0, |s| - 1);
      PivotMatches(s, name);
      var left: int, right: int := 0, count - 1;
      while left <= right
        invariant 0 <= left <= right + 1 <= count
        invariant p == Pivot(s, name, left, right)
        decreases right - left
      {
        PivotStep(s, name, left, right);
        var pivot := (left + right) / 2;
        var val := Compare(Cut(name), Cut(names[pivot]));
        if val == 0 {
          return kinds[pivot];
        } else if val > 0 {
          left := pivot + 1;
        } else {
          right := pivot - 1;
        }
      }
      PivotStep(s, name, left, right);
      return CONCRETE;
    }
  }

  /** The first i entries are sorted and none of them comes after any later entry. */
  ghost predicate Front(s: seq<Entry>, i: nat) {
    forall a, b :: 0 <= a < i && a < b < |s| ==> Compare(s[a].name, s[b].name) <= 0
  }

  lemma FrontGrows(s: seq<Entry>, i: nat)
    requires i < |s| && Front(s, i) && Leads(s, i, |s|)
    ensures Front(s, i + 1)
  {
    hide Compare;
  }

  /** Exchanging entry i for a smaller one at j keeps what the two loops of the sort have achieved. */
  lemma FrontSwapped(s: seq<Entry>, i: nat, j: nat)
    requires i < j < |s| && Front(s, i) && Compare(s[j].name, s[i].name) <= 0 && Leads(s, i, j)
    ensures |Swapped(s, i, j)| == |s| && Front(Swapped(s, i, j), i) && Leads(Swapped(s, i, j), i, j + 1)
  {
    hide Compare;
    forall k | i < k < j ensures Compare(s[j].name, s[k].name) <= 0 {
      CompareTransitive(s[j].name, s[i].name, s[k].name);
    }
  }

  // ----- the exchange sort, as a function -----

  /** Entry i compared with each from j on, and exchanged for those that are smaller. */
  function Placed(s: seq<Entry>, i: nat, j: nat): (r: seq<Entry>)
    requires i < j
    ensures |r| == |s|
    decreases |s| - j
  {
    if j >= |s| then s
    else Placed(if Compare(s[i].name, s[j].name) > 0 then Swapped(s, i, j) else s, i, j + 1)
  }

  function ExchangedFrom(s: seq<Entry>, i: nat): (r: seq<Entry>)
    ensures |r| == |s|
    decreases |s| - i
  {
    if i >= |s| then s else ExchangedFrom(Placed(s, i, i + 1), i + 1)
  }

  function Exchanged(s: seq<Entry>): (r: seq<Entry>)
    ensures |r| == |s|
  {
    ExchangedFrom(s, 0)
  }

  /** Entry i does not come after those between it and j. */
  ghost predicate Leads(s: seq<Entry>, i: nat, j: nat)
    requires i < j <= |s|
  {
    forall k :: i < k < j ==> Compare(s[i].name, s[k].name) <= 0
  }

  lemma PlacedOnce(s: seq<Entry>, i: nat, j: nat) returns (t: seq<Entry>)
    requires i < j < |s| && Front(s, i) && Leads(s, i, j)
    ensures |t| == |s| && multiset(t) == multiset(s) && Front(t, i) && Leads(t, i, j + 1)
    ensures Placed(s, i, j) == Placed(t, i, j + 1)
  {
    hide Compare, Swapped;
    CompareReverse(s[i].name, s[j].name);
    t := s;
    if Compare(s[i].name, s[j].name) > 0 {
      t := Swapped(s, i, j);
      SwappedKeeps(s, i, j);
      FrontSwapped(s, i, j);
    }
  }

  lemma {:induction false} PlacedFront(s: seq<Entry>, i: nat, j: nat)
    requires i < j <= |s| && Front(s, i) && Leads(s, i, j)
    ensures Front(Placed(s, i, j), i + 1) && multiset(Placed(s, i, j)) == multiset(s)
    decreases |s| - j
  {
    hide Compare, Front, Leads, Swapped;
    if j == |s| {
      FrontGrows(s, i);
    } else {
      var t := PlacedOnce(s, i, j);
      PlacedFront(t, i, j + 1);
    }
  }

  lemma {:induction false} ExchangedFront(s: seq<Entry>, i: nat)
    requires i <= |s| && Front(s, i)
    ensures Sorted(ExchangedFrom(s, i)) && multiset(ExchangedFrom(s, i)) == multiset(s)
    decreases |s| - i
  {
    hide Compare;
    if i < |s| {
      PlacedFront(s, i, i + 1);
      ExchangedFront(Placed(s, i, i + 1), i + 1);
    }
  }

  /** Nothing happens to an entry that no later one comes before. */
  lemma {:induction false} PlacedIdle(s: seq<Entry>, i: nat, j: nat)
    requires i < j && forall k :: j <= k < |s| ==> Compare(s[i].name, s[k].name) <= 0
    ensures Placed(s, i, j) == s
    decreases |s| - j
  {
    hide Compare;
    if j < |s| {
      PlacedIdle(s, i, j + 1);
    }
  }

  lemma {:induction false} ExchangedIdle(s: seq<Entry>, i: nat)
    requires Sorted(s)
    ensures ExchangedFrom(s, i) == s
    decreases |s| - i
  {
    hide Compare;
    if i < |s| {
      PlacedIdle(s, i, i + 1);
      ExchangedIdle(s, i + 1);
    }
  }

  /** The sort gives a sorted permutation, and leaves a sorted table alone. */
  lemma ExchangedSorts(s: seq<Entry>)
    ensures Sorted(Exchanged(s)) && multiset(Exchanged(s)) == multiset(s)
    ensures Sorted(s) ==> Exchanged(s) == s
  {
    hide Compare;
    ExchangedFront(s, 0);
    if Sorted(s) {
      ExchangedIdle(s, 0);
    }
  }

  lemma NothingSorted(s: seq<Entry>)
    requires s == []
    ensures Sorted(s)
  {}

  lemma NamesPermuted(s: seq<Entry>, t: seq<Entry>)
    requires multiset(s) == multiset(t) && forall i :: 0 <= i < |s| ==> Named(s[i])
    ensures forall i :: 0 <= i < |t| ==> Named(t[i])
  {
    forall i | 0 <= i < |t| ensures Named(t[i]) {
      assert t[i] in multiset(s);
    }
  }

  lemma AllBelow(s: seq<Entry>, key: string, p: nat)
    requires Sorted(s) && p < |s| && Compare(key, s[p].name) > 0
    ensures forall k :: 0 <= k <= p ==> Compare(key, s[k].name) > 0
  {
    hide Compare;
    forall k | 0 <= k < p ensures Compare(key, s[k].name) > 0 {
      CompareReverse(key, s[p].name);
      CompareTransitive(s[k].name, s[p].name, key);
      CompareReverse(key, s[k].name);
    }
  }

  lemma AllAbove(s: seq<Entry>, key: string, p: nat)
    requires Sorted(s) && p < |s| && Compare(key, s[p].name) < 0
    ensures forall k :: p <= k < |s| ==> Compare(key, s[k].name) < 0
  {
    hide Compare;
    forall k | p < k < |s| ensures Compare(key, s[k].name) < 0 {
      CompareTransitive(key, s[p].name, s[k].name);
    }
  }

  ghost predicate Matched(s: seq<Entry>, name: string) { exists i :: 0 <= i < |s| && Matches(name, s[i]) }

  /** Some entry that matches is of that kind. */
  ghost predicate Answers(s: seq<Entry>, name: string, kind: char) {
    exists i :: 0 <= i < |s| && Matches(name, s[i]) && s[i].kind == kind
  }

  /** The first pivot that matches, among those of a binary search from left to right, or -1. */
  function Pivot(s: seq<Entry>, name: string, left: int, right: int): (p: int)
    requires 0 <= left <= right + 1 <= |s|
    ensures p == -1 || (left <= p <= right && Matches(name, s[p]))
    decreases right - left
  {
    if left > right then -1
    else
      var pivot := (left + right) / 2;
      var val := Compare(Cut(name), Cut(s[pivot].name));
      if val == 0 then pivot
      else if val > 0 then Pivot(s, name, pivot + 1, right)
      else Pivot(s, name, left, pivot - 1)
  }

  lemma PivotStep(s: seq<Entry>, name: string, left: int, right: int)
    requires 0 <= left <= right + 1 <= |s|
    ensures left > right ==> Pivot(s, name, left, right) == -1
    ensures left <= right ==>
              var pivot := (left + right) / 2;
              var val := Compare(Cut(name), Cut(s[pivot].name));
              Pivot(s, name, left, right) == if val == 0 then pivot
                                             else if val > 0 then Pivot(s, name, pivot + 1, right)
                                             else Pivot(s, name, left, pivot - 1)
  {}

  function BinaryFind(s: seq<Entry>, name: string): char {
    var p := Pivot(s, name, 0, |s| - 1);
    if p == -1 then CONCRETE else s[p].kind
  }

  /** In a sorted table the pivots miss only where nothing matches. */
  lemma {:induction false} PivotMisses(s: seq<Entry>, name: string, left: int, right: int)
    requires Sorted(s) && forall k :: 0 <= k < |s| ==> Named(s[k])
    requires 0 <= left <= right + 1 <= |s|
    requires forall k :: 0 <= k < left ==> Compare(Cut(name), s[k].name) > 0
    requires forall k :: right < k < |s| ==> Compare(Cut(name), s[k].name) < 0
    ensures Pivot(s, name, left, right) == -1 ==> forall k :: 0 <= k < |s| ==> !Matches(name, s[k])
    decreases right - left
  {
    hide Compare, Sorted;
    if left <= right {
      var pivot := (left + right) / 2;
      var val := Compare(Cut(name), Cut(s[pivot].name));
      assert Named(s[pivot]) && Cut(s[pivot].name) == s[pivot].name;
      if val > 0 {
        AllBelow(s, Cut(name), pivot);
        PivotMisses(s, name, pivot + 1, right);
      } else if val < 0 {
        AllAbove(s, Cut(name), pivot);
        PivotMisses(s, name, left, pivot - 1);
      }
    } else {
      NoneMatch(s, name);
    }
  }

  lemma PivotMatches(s: seq<Entry>, name: string)
    requires Sorted(s) && forall k :: 0 <= k < |s| ==> Named(s[k])
    ensures var p := Pivot(s, name, 0, |s| - 1);
            if Matched(s, name) then 0 <= p < |s| && Matches(name, s[p]) else p == -1
    ensures if Matched(s, name) then Answers(s, name, BinaryFind(s, name)) else BinaryFind(s, name) == CONCRETE
  {
    hide Compare, Sorted, Named;
    PivotMisses(s, name, 0, |s| - 1);
  }

  /** The kind of the first entry that matches, or concrete: a scan from the front. */
  function LinearFind(s: seq<Entry>, name: string): char {
    if s == [] then CONCRETE else if Matches(name, s[0]) then s[0].kind else LinearFind(s[1..], name)
  }

  ghost predicate OneKind(s: seq<Entry>, name: string) {
    forall i, j :: 0 <= i < |s| && 0 <= j < |s| && Matches(name, s[i]) && Matches(name, s[j]) ==> s[i].kind == s[j].kind
  }

  lemma {:induction false} LinearFindOneKind(s: seq<Entry>, name: string, p: nat)
    requires p < |s| && Matches(name, s[p])
    ensures OneKind(s, name) ==> LinearFind(s, name) == s[p].kind
  {
    if OneKind(s, name) && !Matches(name, s[0]) {
      assert s[1..][p - 1] == s[p];
      assert OneKind(s[1..], name);
      LinearFindOneKind(s[1..], name, p - 1);
    }
  }

  lemma {:induction false} LinearFindNone(s: seq<Entry>, name: string)
    requires forall k :: 0 <= k < |s| ==> !Matches(name, s[k])
    ensures LinearFind(s, name) == CONCRETE
  {
    if s != [] {
      LinearFindNone(s[1..], name);
    }
  }

  lemma NoneMatch(s: seq<Entry>, name: string)
    requires forall k :: 0 <= k < |s| ==> Named(s[k]) && Compare(Cut(name), s[k].name) != 0
    ensures forall k :: 0 <= k < |s| ==> !Matches(name, s[k])
    ensures LinearFind(s, name) == CONCRETE
  {
    hide Compare;
    LinearFindNone(s, name);
  }

  /** Sorting does not change what a scan finds, where the entries that agree are of one kind: so a
      lookup answers as a scan of the file would. */
  lemma PermutationFind(s: seq<Entry>, t: seq<Entry>, name: string)
    requires multiset(s) == multiset(t) && OneKind(s, name)
    ensures LinearFind(s, name) == LinearFind(t, name) && OneKind(t, name)
  {
    hide Matches, LinearFind;
    forall i | 0 <= i < |t| ensures exists j :: 0 <= j < |s| && s[j] == t[i] {
      assert t[i] in multiset(s);
    }
    if p :| 0 <= p < |s| && Matches(name, s[p]) {
      LinearFindOneKind(s, name, p);
      assert s[p] in multiset(t);
      var q :| 0 <= q < |t| && t[q] == s[p];
      LinearFindOneKind(t, name, q);
    } else {
      LinearFindNone(s, name);
      LinearFindNone(t, name);
    }
  }
}
