/** Loading and searching together: exactly when a lookup answers as a scan of the file would. */
module TextureSearch {
  import opened CStrings
  import opened Textures

  /** What a lookup answers after these entries have been loaded. */
  function Lookup(loaded: seq<Entry>, name: string): char { BinaryFind(Exchanged(loaded), name) }

  ghost predicate AllNamed(s: seq<Entry>) { forall i :: 0 <= i < |s| ==> Named(s[i]) }

  // ----- the names of a sorted table -----

  predicate SameName(a: Entry, b: Entry) { Folded(a.name) == Folded(b.name) }

  /** The tables agree, name by name, apart from case. */
  ghost predicate SameNames(s: seq<Entry>, t: seq<Entry>) {
    |s| == |t| && forall i :: 0 <= i < |s| ==> SameName(s[i], t[i])
  }

  lemma SameNameCompares(a: Entry, b: Entry)
    ensures Compare(a.name, b.name) == 0 <==> SameName(a, b)
  {
    TextEqual(Folded(a.name), Folded(b.name));
  }

  lemma MatchesName(name: string, e: Entry)
    requires Named(e)
    ensures Matches(name, e) <==> Folded(Cut(name)) == Folded(e.name)
  {
    TextEqual(Folded(Cut(name)), Folded(Cut(e.name)));
  }

  /** Entries that match the same name have the same name. */
  lemma MatchesSame(name: string, a: Entry, b: Entry)
    requires Named(a) && Named(b) && Matches(name, a)
    ensures Matches(name, b) <==> SameName(a, b)
  {
    MatchesName(name, a);
    MatchesName(name, b);
  }

  lemma LeastOfSorted(s: seq<Entry>, t: seq<Entry>)
    requires s != [] && Sorted(s) && Sorted(t) && multiset(s) == multiset(t)
    ensures t != [] && Compare(t[0].name, s[0].name) <= 0
  {
    hide Compare;
    assert s[0] in multiset(t);
    var k :| 0 <= k < |t| && t[k] == s[0];
    if k == 0 {
      SameNameCompares(t[0], s[0]);
    }
  }

  /** Exchanging two entries of the same name keeps the names of a table, and so its being sorted. */
  lemma SwappedNames(s: seq<Entry>, i: nat, j: nat)
    requires i < |s| && j < |s| && SameName(s[i], s[j])
    ensures SameNames(s, Swapped(s, i, j))
  {}

  lemma SortedNames(s: seq<Entry>, t: seq<Entry>)
    requires SameNames(s, t) && Sorted(s)
    ensures Sorted(t)
  {
    forall i, j | 0 <= i < j < |t| ensures Compare(t[i].name, t[j].name) <= 0 {
      assert Compare(s[i].name, s[j].name) <= 0 && SameName(s[i], t[i]) && SameName(s[j], t[j]);
    }
  }

  lemma SortedTail(s: seq<Entry>)
    requires s != [] && Sorted(s)
    ensures Sorted(s[1..])
  {
    hide Compare;
  }

  /** A sorted order of the same entries can be made to begin with the same one, its names kept. */
  lemma SameStart(s: seq<Entry>, t: seq<Entry>) returns (u: seq<Entry>)
    requires s != [] && Sorted(s) && Sorted(t) && multiset(s) == multiset(t)
    ensures Sorted(u) && multiset(u) == multiset(s) && SameNames(t, u) && u != [] && u[0] == s[0]
  {
    hide Compare, Sorted, SameNames;
    LeastOfSorted(s, t);
    LeastOfSorted(t, s);
    CompareReverse(s[0].name, t[0].name);
    SameNameCompares(s[0], t[0]);
    assert s[0] in multiset(t);
    var k :| 0 <= k < |t| && t[k] == s[0];
    u := Swapped(t, 0, k);
    SwappedKeeps(t, 0, k);
    SwappedNames(t, 0, k);
    SortedNames(t, u);
  }

  lemma SameTails(s: seq<Entry>, u: seq<Entry>)
    requires s != [] && u != [] && u[0] == s[0] && multiset(u) == multiset(s)
    ensures multiset(u[1..]) == multiset(s[1..])
  {
    assert s == [s[0]] + s[1..] && u == [u[0]] + u[1..];
    assert multiset(s[1..]) == multiset(s) - multiset{s[0]} && multiset(u[1..]) == multiset(u) - multiset{u[0]};
  }

  lemma SameNamesJoin(s: seq<Entry>, u: seq<Entry>, t: seq<Entry>)
    requires s != [] && u != [] && u[0] == s[0] && SameNames(s[1..], u[1..]) && SameNames(t, u)
    ensures SameNames(s, t)
  {
    forall i | 0 <= i < |s| ensures SameName(s[i], t[i]) {
      assert SameName(t[i], u[i]);
      if i > 0 {
        assert SameName(s[1..][i - 1], u[1..][i - 1]);
      }
    }
  }

  /** Sorting leaves no choice of names: two sorted orders of the same entries agree name by name. */
  lemma {:induction false} SortedUnique(s: seq<Entry>, t: seq<Entry>)
    requires Sorted(s) && Sorted(t) && multiset(s) == multiset(t)
    ensures SameNames(s, t)
    decreases |s|
  {
    hide Sorted;
    if s == [] {
      assert |t| == |multiset(t)| == 0;
    } else {
      var u := SameStart(s, t);
      SameTails(s, u);
      SortedTail(s);
      SortedTail(u);
      SortedUnique(s[1..], u[1..]);
      SameNamesJoin(s, u, t);
    }
  }

  /** The pivots see only the names. */
  lemma {:induction false} PivotOfNames(s: seq<Entry>, t: seq<Entry>, name: string, left: int, right: int)
    requires SameNames(s, t) && AllNamed(s) && AllNamed(t) && 0 <= left <= right + 1 <= |s|
    ensures Pivot(s, name, left, right) == Pivot(t, name, left, right)
    decreases right - left
  {
    hide Matches, Cut, Pivot, Compare, Named, SameName;
    PivotStep(s, name, left, right);
    PivotStep(t, name, left, right);
    if left <= right {
      var pivot := (left + right) / 2;
      var val := Compare(Cut(name), Cut(s[pivot].name));
      SameCompares(Cut(name), s[pivot], t[pivot]);
      if val > 0 {
        PivotOfNames(s, t, name, pivot + 1, right);
      } else if val < 0 {
        PivotOfNames(s, t, name, left, pivot - 1);
      }
    }
  }

  lemma SameCompares(key: string, a: Entry, b: Entry)
    requires Named(a) && Named(b) && SameName(a, b)
    ensures Compare(key, Cut(a.name)) == Compare(key, Cut(b.name))
  {
    NamedUncut(a);
    NamedUncut(b);
  }

  lemma NamedUncut(e: Entry)
    requires Named(e)
    ensures Cut(e.name) == e.name
  {}

  // ----- the front of the table -----

  /** The first of the least: c, or one of the rest. */
  function Least(c: Entry, rest: seq<Entry>): Entry
    decreases rest
  {
    if rest == [] then c else Least(if Compare(c.name, rest[0].name) > 0 then rest[0] else c, rest[1..])
  }

  lemma {:induction false} PlacedLeast(s: seq<Entry>, j: nat)
    requires 1 <= j <= |s|
    ensures Placed(s, 0, j)[0] == Least(s[0], s[j..])
    decreases |s| - j
  {
    hide Compare;
    if j < |s| {
      var t := if Compare(s[0].name, s[j].name) > 0 then Swapped(s, 0, j) else s;
      assert t[j + 1..] == s[j + 1..] == s[j..][1..];
      PlacedLeast(t, j + 1);
    }
  }

  lemma {:induction false} PlacedKeepsFirst(s: seq<Entry>, i: nat, j: nat)
    requires 0 < i < j && s != []
    ensures Placed(s, i, j)[0] == s[0]
    decreases |s| - j
  {
    hide Compare;
    if j < |s| {
      PlacedKeepsFirst(if Compare(s[i].name, s[j].name) > 0 then Swapped(s, i, j) else s, i, j + 1);
    }
  }

  lemma {:induction false} ExchangedKeepsFirst(s: seq<Entry>, i: nat)
    requires 0 < i && s != []
    ensures ExchangedFrom(s, i)[0] == s[0]
    decreases |s| - i
  {
    if i < |s| {
      PlacedKeepsFirst(s, i, i + 1);
      ExchangedKeepsFirst(Placed(s, i, i + 1), i + 1);
    }
  }

  lemma ExchangedFirst(s: seq<Entry>)
    requires s != []
    ensures Exchanged(s)[0] == Least(s[0], s[1..])
  {
    hide Compare, Least;
    PlacedLeast(s, 1);
    ExchangedKeepsFirst(Placed(s, 0, 1), 1);
  }

  lemma {:induction false} LeastStrict(c: Entry, rest: seq<Entry>)
    requires Named(c) && AllNamed(rest)
    ensures Named(Least(c, rest)) && (Least(c, rest) == c || Compare(Least(c, rest).name, c.name) < 0)
    decreases rest
  {
    hide Compare;
    if rest != [] {
      var d := if Compare(c.name, rest[0].name) > 0 then rest[0] else c;
      LeastStrict(d, rest[1..]);
      CompareReverse(c.name, rest[0].name);
      if d != c && Least(d, rest[1..]) != d {
        CompareTransitive(Least(d, rest[1..]).name, d.name, c.name);
      }
    }
  }

  lemma MatchCompares(name: string, a: Entry, b: Entry)
    requires Named(a) && Named(b) && Matches(name, a)
    ensures Matches(name, b) <==> Compare(a.name, b.name) == 0
  {
    MatchesSame(name, a, b);
    SameNameCompares(a, b);
  }

  /** If the least entries match, the first of them is the first that matches. */
  lemma {:induction false} LeastFound(c: Entry, rest: seq<Entry>, name: string)
    requires Named(c) && AllNamed(rest) && Matches(name, Least(c, rest))
    ensures LinearFind([c] + rest, name) == Least(c, rest).kind
    decreases rest
  {
    hide Compare, Matches, Named;
    var least := Least(c, rest);
    LeastStrict(c, rest);
    MatchCompares(name, least, c);
    assert ([c] + rest)[1..] == rest;
    if rest != [] && !Matches(name, c) {
      assert rest == [rest[0]] + rest[1..];
      if Compare(c.name, rest[0].name) > 0 {
        LeastFound(rest[0], rest[1..], name);
      } else {
        CompareTransitive(least.name, c.name, rest[0].name);
        MatchCompares(name, least, rest[0]);
        LeastFound(c, rest[1..], name);
        assert ([c] + rest[1..])[1..] == rest[1..];
      }
    }
  }

  lemma PivotHits(s: seq<Entry>, name: string)
    ensures var p := Pivot(s, name, 0, |s| - 1);
            p == -1 || (0 <= p < |s| && Matches(name, s[p]) && BinaryFind(s, name) == s[p].kind)
  {
    hide Matches;
  }

  /** A lookup whose first hit is the first entry of the table answers as the scan does. */
  lemma FrontLookup(f: seq<Entry>, name: string)
    requires AllNamed(f) && Pivot(Exchanged(f), name, 0, |f| - 1) == 0
    ensures Lookup(f, name) == LinearFind(f, name)
  {
    hide Matches, Named, Exchanged, Least, LinearFind, Pivot;
    PivotHits(Exchanged(f), name);
    ExchangedFirst(f);
    LeastFound(f[0], f[1..], name);
    assert f == [f[0]] + f[1..];
  }

  // ----- orders that the search and the scan see differently -----

  lemma {:induction false} PlacedWaits(s: seq<Entry>, i: nat, j: nat, q: nat)
    requires i < j <= q <= |s| && forall k :: j <= k < q ==> Compare(s[i].name, s[k].name) <= 0
    ensures Placed(s, i, j) == Placed(s, i, q)
    decreases q - j
  {
    hide Compare;
    if j < q {
      PlacedWaits(s, i, j + 1, q);
    }
  }

  lemma {:induction false} ExchangedSkips(s: seq<Entry>, i: nat, a: nat)
    requires i <= a <= |s| && Front(s, a)
    ensures ExchangedFrom(s, i) == ExchangedFrom(s, a)
    decreases a - i
  {
    hide Compare;
    if i < a {
      PlacedIdle(s, i, i + 1);
      ExchangedSkips(s, i + 1, a);
    }
  }

  /** In a sorted table, exchange the entry before some of one name with a later one of that name: the sort
      exchanges them back, and the entries of that name end in the order of the table. */
  lemma SortUndoes(s: seq<Entry>, a: nat, q: nat)
    requires Sorted(s) && a + 1 < q < |s| && SameName(s[a + 1], s[q]) && !SameName(s[a], s[q])
    ensures Exchanged(Swapped(s, a, q)) == s
  {
    hide Compare, SameName;
    var f := Swapped(s, a, q);
    assert forall k :: a < k <= q ==> Compare(s[q].name, s[k].name) <= 0 by { SameRun(s, a + 1, q); }
    SameNameCompares(s[a], s[q]);
    CompareReverse(s[a].name, s[q].name);
    ExchangedSkips(f, 0, a);
    PlacedWaits(f, a, a + 1, q);
    assert Swapped(f, a, q) == s;
    assert Placed(f, a, q) == Placed(s, a, q + 1);
    PlacedIdle(s, a, q + 1);
    ExchangedIdle(s, a + 1);
  }

  /** Between two entries of one name in a sorted table there are only entries of that name. */
  lemma SameRun(s: seq<Entry>, p: nat, q: nat)
    requires Sorted(s) && p <= q < |s| && SameName(s[p], s[q])
    ensures forall k :: p <= k <= q ==> SameName(s[p], s[k]) && Compare(s[q].name, s[k].name) <= 0
  {
    hide Compare;
    forall k | p <= k <= q ensures SameName(s[p], s[k]) && Compare(s[q].name, s[k].name) <= 0 {
      SameNameCompares(s[p], s[q]);
      CompareReverse(s[p].name, s[q].name);
      SameNameCompares(s[p], s[k]);
      SameNameCompares(s[k], s[k]);
      CompareReverse(s[p].name, s[k].name);
      if p < k < q {
        CompareTransitive(s[k].name, s[q].name, s[p].name);
        CompareTransitive(s[q].name, s[p].name, s[k].name);
      }
    }
  }

  lemma {:induction false} LinearFindFirst(s: seq<Entry>, name: string, p: nat)
    requires p < |s| && Matches(name, s[p]) && forall k :: 0 <= k < p ==> !Matches(name, s[k])
    ensures LinearFind(s, name) == s[p].kind
  {
    hide Matches;
    if p > 0 {
      LinearFindFirst(s[1..], name, p - 1);
    }
  }

  /** The first entry that matches, of a table in which the pivots find one. */
  lemma FirstMatch(s: seq<Entry>, name: string, p: nat) returns (first: nat)
    requires p < |s| && Matches(name, s[p])
    ensures first <= p && Matches(name, s[first]) && forall k :: 0 <= k < first ==> !Matches(name, s[k])
  {
    hide Matches;
    first := 0;
    while !Matches(name, s[first])
      invariant first <= p && forall k :: 0 <= k < first ==> !Matches(name, s[k])
      decreases p - first
    {
      first := first + 1;
    }
  }

  /** The first entry that matches, exchanged for one of another kind than the first hit, if it comes before
      that. */
  lemma DiffersBefore(s: seq<Entry>, name: string, first: nat, p: nat, m: nat) returns (f: seq<Entry>)
    requires Sorted(s) && AllNamed(s) && p == Pivot(s, name, 0, |s| - 1)
    requires first < p < |s| && m < |s| && Matches(name, s[first]) && Matches(name, s[m]) && s[m].kind != s[p].kind
    requires forall k :: 0 <= k < first ==> !Matches(name, s[k])
    ensures multiset(f) == multiset(s) && Lookup(f, name) != LinearFind(f, name)
  {
    hide Matches, Named, Sorted, Pivot, Exchanged, LinearFind, SameNames;
    FirstOfSorted(s, name, first, m);
    MatchesSame(name, s[first], s[m]);
    f := Swapped(s, first, m);
    SwappedKeeps(s, first, m);
    SwappedNames(s, first, m);
    SortedNames(s, f);
    ExchangedSorts(f);
    NamesPermuted(s, f);
    PivotOfNames(s, f, name, 0, |s| - 1);
    PivotHits(f, name);
    LinearFindFirst(f, name, first);
  }

  lemma FirstOfSorted(s: seq<Entry>, name: string, first: nat, m: nat)
    requires first <= |s| && m < |s| && Matches(name, s[m]) && forall k :: 0 <= k < first ==> !Matches(name, s[k])
    ensures first <= m
  {}

  /** The entry before the first that matches, exchanged for one of another kind than the first hit, if that
      is the first that matches. */
  lemma DiffersAt(s: seq<Entry>, name: string, p: nat, m: nat) returns (f: seq<Entry>)
    requires Sorted(s) && AllNamed(s) && p == Pivot(s, name, 0, |s| - 1)
    requires 0 < p < |s| && m < |s| && Matches(name, s[p]) && Matches(name, s[m]) && s[m].kind != s[p].kind
    requires forall k :: 0 <= k < p ==> !Matches(name, s[k])
    ensures multiset(f) == multiset(s) && Lookup(f, name) != LinearFind(f, name)
  {
    hide Matches, Named, Sorted, Pivot, Exchanged, LinearFind, SameName;
    FirstOfSorted(s, name, p, m);
    MatchesSame(name, s[p], s[m]);
    MatchesSame(name, s[m], s[p - 1]);
    SameNameSymmetric(s[m], s[p - 1]);
    f := Swapped(s, p - 1, m);
    SwappedKeeps(s, p - 1, m);
    SortUndoes(s, p - 1, m);
    PivotHits(s, name);
    LinearFindFirst(f, name, p - 1);
  }

  lemma SameNameSymmetric(a: Entry, b: Entry)
    ensures SameName(a, b) <==> SameName(b, a)
  {}

  /** With two kinds among the entries that match, and a first hit that is not the first entry of the table,
      some order of the entries is searched otherwise than it is scanned. */
  lemma DifferingOrder(s: seq<Entry>, name: string) returns (f: seq<Entry>)
    requires Sorted(s) && AllNamed(s) && !OneKind(s, name) && Pivot(s, name, 0, |s| - 1) != 0
    ensures multiset(f) == multiset(s) && Lookup(f, name) != LinearFind(f, name)
  {
    hide Matches, Named, Sorted, Pivot, Exchanged, LinearFind, Lookup;
    PivotMatches(s, name);
    var p := Pivot(s, name, 0, |s| - 1);
    var m :| 0 <= m < |s| && Matches(name, s[m]) && s[m].kind != s[p].kind;
    var first := FirstMatch(s, name, p);
    if first < p {
      f := DiffersBefore(s, name, first, p, m);
    } else {
      f := DiffersAt(s, name, p, m);
    }
  }

  // ----- the exact condition -----

  lemma SortedLookup(e: seq<Entry>, f: seq<Entry>, name: string)
    requires AllNamed(e) && multiset(f) == multiset(e)
    ensures |f| == |e| && AllNamed(f)
    ensures Pivot(Exchanged(f), name, 0, |f| - 1) == Pivot(Exchanged(e), name, 0, |e| - 1)
  {
    hide Named, Sorted, Exchanged, Matches, Pivot, SameNames;
    assert |f| == |multiset(f)| == |multiset(e)| == |e|;
    ExchangedSorts(e);
    ExchangedSorts(f);
    NamesPermuted(e, f);
    NamesPermuted(e, Exchanged(e));
    NamesPermuted(e, Exchanged(f));
    SortedUnique(Exchanged(f), Exchanged(e));
    PivotOfNames(Exchanged(f), Exchanged(e), name, 0, |e| - 1);
  }

  /** Whatever the order of the entries in the file, loading them and looking a name up answers as a scan of
      the file does, if and only if the entries that match are of one kind, or the first pivot that hits is
      the first entry of the table - which the names alone decide. */
  lemma LookupIsScanIff(e: seq<Entry>, name: string)
    requires AllNamed(e)
    ensures (forall f: seq<Entry> | multiset(f) == multiset(e) :: Lookup(f, name) == LinearFind(f, name)) <==>
            OneKind(e, name) || Pivot(Exchanged(e), name, 0, |e| - 1) == 0
  {
    hide Named, Sorted, Exchanged, Matches, Pivot, LinearFind, OneKind;
    var s := Exchanged(e);
    ExchangedSorts(e);
    NamesPermuted(e, s);
    if OneKind(e, name) {
      forall f: seq<Entry> | multiset(f) == multiset(e) ensures Lookup(f, name) == LinearFind(f, name) {
        OneKindLookup(e, f, name);
      }
    } else if Pivot(s, name, 0, |e| - 1) == 0 {
      forall f: seq<Entry> | multiset(f) == multiset(e) ensures Lookup(f, name) == LinearFind(f, name) {
        SortedLookup(e, f, name);
        FrontLookup(f, name);
      }
    } else {
      if OneKind(s, name) {
        PermutationFind(s, e, name);
      }
      var f := DifferingOrder(s, name);
    }
  }

  lemma OneKindLookup(e: seq<Entry>, f: seq<Entry>, name: string)
    requires AllNamed(e) && multiset(f) == multiset(e) && OneKind(e, name)
    ensures Lookup(f, name) == LinearFind(f, name)
  {
    hide Named, Sorted, Exchanged, Matches, Pivot;
    var s := Exchanged(f);
    ExchangedSorts(f);
    NamesPermuted(e, s);
    PivotMatches(s, name);
    PermutationFind(e, s, name);
    PermutationFind(e, f, name);
    var p := Pivot(s, name, 0, |s| - 1);
    if p == -1 {
      LinearFindNone(s, name);
    } else {
      LinearFindOneKind(s, name, p);
    }
  }

  // ----- a file on which they differ -----

  /** A line for the texture named a. */
  function LineFor(kind: char): string { [kind, ' ', 'a', ' '] }

  lemma LineForLoads(kind: char)
    requires IsAlpha(kind) && ToUpper(kind) == kind
    ensures ParseLine(LineFor(kind)) == Some(Entry("a", kind))
  {
    var line := LineFor(kind);
    assert Scan(line, 0, false) == 0;
    assert Scan(line, 2, false) == 2;
    assert Scan(line, 1, false) == 2;
    assert Scan(line, 3, true) == 3;
    assert Scan(line, 2, true) == 3;
    assert line[2..3] == "a";
  }

  /** A file on which the search and the scan differ: of three lines for one texture the first is scanned
      first, but the second is the first pivot. */
  function SplitFile(): seq<string> { [LineFor('C'), LineFor('M'), LineFor('M')] }

  lemma SplitFileLoads()
    ensures Cap(ParseLines(SplitFile())) == [Entry("a", 'C'), Entry("a", 'M'), Entry("a", 'M')]
  {
    hide ParseLine, LineFor;
    LineForLoads('C');
    LineForLoads('M');
    ParsedNext(SplitFile(), 0);
    ParsedNext(SplitFile(), 1);
    ParsedNext(SplitFile(), 2);
    assert SplitFile()[..3] == SplitFile();
  }

  lemma SplitFileDiffers()
    ensures var s := Cap(ParseLines(SplitFile()));
            Lookup(s, "a") == 'M' && LinearFind(s, "a") == 'C'
  {
    hide Compare, ParseLines, SplitFile, Exchanged;
    SplitFileLoads();
    CompareEqual("a", "a");
    var s := Cap(ParseLines(SplitFile()));
    ExchangedSorts(s);
    assert Pivot(s, "a", 0, 2) == 1;
  }
}
