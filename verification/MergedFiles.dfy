/** What becomes of each embedded file in a merge: which entries there are, and under which names. */
module MergedFiles {
  import opened Wrappers
  import opened Text
  import opened EmbeddedFiles

  // ----- What a name tree stores --------------------------------------------------------------

  /** How often a node, or some node under it, stores an entry. */
  function Stored(t: NameTree, e: (string, Spec)): nat
    decreases t, 1
  {
    multiset(t.names)[e] + StoredInKids(t.kids, e)
  }

  function StoredInKids(kids: seq<NameTree>, e: (string, Spec)): nat
    decreases kids, 0
  {
    if kids == [] then 0 else Stored(kids[0], e) + StoredInKids(kids[1..], e)
  }

  /** How many entries a node and all nodes under it store. */
  function Size(t: NameTree): nat
    decreases t, 1
  {
    |t.names| + KidsSize(t.kids)
  }

  function KidsSize(kids: seq<NameTree>): nat
    decreases kids, 0
  {
    if kids == [] then 0 else Size(kids[0]) + KidsSize(kids[1..])
  }

  /** An entry is read as often as the nodes of the tree, at any depth, store it. */
  lemma {:induction false} ReadAsStored(t: NameTree, e: (string, Spec))
    ensures multiset(TreeEntries(t))[e] == Stored(t, e) && |TreeEntries(t)| == Size(t)
    decreases t, 1
  {
    KidsReadAsStored(t.kids, e);
  }

  lemma {:induction false} KidsReadAsStored(kids: seq<NameTree>, e: (string, Spec))
    ensures multiset(KidEntries(kids))[e] == StoredInKids(kids, e) && |KidEntries(kids)| == KidsSize(kids)
    decreases kids, 0
  {
    if kids != [] {
      ReadAsStored(kids[0], e);
      KidsReadAsStored(kids[1..], e);
    }
  }

  /** The entries of a node stand first, and those of each kid together, after those of the kids before it. */
  lemma ReadInOrder(t: NameTree, i: nat)
    requires i < |t.kids|
    ensures |TreeEntries(t)| == Size(t) && t.names <= TreeEntries(t)
    ensures var from := |t.names| + KidsSize(t.kids[..i]);
      from + Size(t.kids[i]) <= Size(t)
      && TreeEntries(t)[from..from + Size(t.kids[i])] == TreeEntries(t.kids[i])
  {
    var kid, before, after := t.kids[i], t.kids[..i], t.kids[i + 1..];
    ReadAsStored(t, ("", Direct(0)));
    ReadAsStored(kid, ("", Direct(0)));
    KidsReadAsStored(before, ("", Direct(0)));
    KidInTheMiddle(t, i);
    var from := |t.names| + KidsSize(before);
    Middle(TreeEntries(t), t.names + KidEntries(before), TreeEntries(kid), KidEntries(after), from, from + Size(kid));
  }

  lemma KidInTheMiddle(t: NameTree, i: nat)
    requires i < |t.kids|
    ensures TreeEntries(t)
         == (t.names + KidEntries(t.kids[..i])) + (TreeEntries(t.kids[i]) + KidEntries(t.kids[i + 1..]))
  {
    var kid, before, after := t.kids[i], t.kids[..i], t.kids[i + 1..];
    assert t.kids == before + ([kid] + after);
    KidEntriesConcat(before, [kid] + after);
    assert ([kid] + after)[1..] == after;
    Regroup(t.names, KidEntries(before), TreeEntries(kid) + KidEntries(after));
  }

  lemma Regroup<T>(a: seq<T>, b: seq<T>, c: seq<T>)
    ensures a + (b + c) == (a + b) + c
  {
  }

  lemma Middle<T>(s: seq<T>, a: seq<T>, b: seq<T>, c: seq<T>, from: nat, to: nat)
    requires s == a + (b + c) && from == |a| && to == |a| + |b|
    ensures to <= |s| && s[from..to] == b
  {
  }

  /** How often a document embeds an entry. */
  function Embeds(f: Files, e: (string, Spec)): nat {
    if f.tree.None? then 0 else Stored(f.tree.value, e)
  }

  lemma EmbeddedAsStored(f: Files, e: (string, Spec))
    ensures multiset(Embedded(f))[e] == Embeds(f, e) && (e in Embedded(f) <==> Embeds(f, e) > 0)
  {
    if f.tree.Some? {
      ReadAsStored(f.tree.value, e);
    }
    assert e in Embedded(f) <==> e in multiset(Embedded(f));
  }

  // ----- Names --------------------------------------------------------------------------------

  /** The name of a file that is added: its own where that is free, else the first numbered one, from 2 on, that is. */
  ghost predicate IsNamed(name: string, taken: set<string>, given: string) {
    if name !in taken then given == name
    else
      exists n: nat ::
        n >= 2 && given == Numbered(name, n) && given !in taken
        && forall m: nat :: 2 <= m < n ==> Numbered(name, m) in taken
  }

  function Numbered(name: string, n: nat): string {
    name + " (" + Decimal(n) + ")"
  }

  /** The copy of a file: of an indirect one the copied object, of a direct one the same value. */
  predicate IsCopy(s: Spec, t: Spec, ren: Id -> Id) {
    match s
    case Indirect(id) => t == Indirect(ren(id))
    case Direct(_) => t == s
  }

  /** Entries given for those of a document: copies in their order, each named after those before it. */
  ghost predicate Given(added: seq<(string, Spec)>, taken: set<string>, given: seq<(string, Spec)>, ren: Id -> Id) {
    |given| == |added|
    && forall k :: 0 <= k < |added| ==>
      IsCopy(added[k].1, given[k].1, ren) && IsNamed(added[k].0, taken + NameSet(given[..k]), given[k].0)
  }

  lemma UniqueNameIsNamed(name: string, taken: set<string>)
    ensures IsNamed(name, taken, UniqueName(name, taken))
  {
    UniqueNameIsFirstFree(name, taken);
    var n :| 1 <= n <= |taken| + 1 && UniqueName(name, taken) == Candidate(name, n)
             && Candidate(name, n) !in taken && forall m :: 1 <= m < n ==> Candidate(name, m) in taken;
    assert Candidate(name, 1) == name;
    if name in taken {
      assert Candidate(name, n) == Numbered(name, n);
      forall m: nat | 2 <= m < n ensures Numbered(name, m) in taken {
        assert Candidate(name, m) == Numbered(name, m);
      }
    }
  }

  lemma {:induction false} NamedAreGiven(added: seq<(string, Spec)>, taken: set<string>, ren: Id -> Id)
    ensures Given(added, taken, Named(added, taken, ren), ren)
  {
    if added != [] {
      var unique := UniqueName(added[0].0, taken);
      var rest := Named(added[1..], taken + {unique}, ren);
      var given := [(unique, CopySpec(added[0].1, ren))] + rest;
      UniqueNameIsNamed(added[0].0, taken);
      NamedAreGiven(added[1..], taken + {unique}, ren);
      forall k | 0 <= k < |added|
        ensures IsCopy(added[k].1, given[k].1, ren) && IsNamed(added[k].0, taken + NameSet(given[..k]), given[k].0)
      {
        if k == 0 {
          assert NameSet(given[..0]) == {} && taken + {} == taken;
        } else {
          assert given[k] == rest[k - 1] && added[k] == added[1..][k - 1];
          FirstNameSet(given[0], rest, k);
          assert taken + {unique} + NameSet(rest[..k - 1]) == taken + NameSet(given[..k]);
        }
      }
    }
  }

  lemma FirstNameSet(e: (string, Spec), rest: seq<(string, Spec)>, k: nat)
    requires 0 < k <= |rest| + 1
    ensures NameSet(([e] + rest)[..k]) == {e.0} + NameSet(rest[..k - 1])
  {
    assert ([e] + rest)[..k] == [e] + rest[..k - 1];
    assert Names([e]) == [e.0];
    NameSetConcat([e], rest[..k - 1]);
  }

  lemma NameSetConcat(a: seq<(string, Spec)>, b: seq<(string, Spec)>)
    ensures NameSet(a + b) == NameSet(a) + NameSet(b)
  {
    assert Names(a + b) == Names(a) + Names(b);
  }

  // ----- The entries of a whole merge ---------------------------------------------------------

  /** The entries of the first document, and after them those given for each of the others. */
  function AllGiven(own: seq<(string, Spec)>, given: seq<seq<(string, Spec)>>): seq<(string, Spec)> {
    if given == [] then own else AllGiven(own, given[..|given| - 1]) + given[|given| - 1]
  }

  /** Each document's entries are given where the first document's, and those given before, have their names. */
  ghost predicate AllAreGiven(own: seq<(string, Spec)>, docs: seq<Files>, rens: seq<Id -> Id>,
                              given: seq<seq<(string, Spec)>>)
  {
    |given| == |docs| == |rens|
    && forall i :: 0 <= i < |docs| ==> Given(Embedded(docs[i]), NameSet(AllGiven(own, given[..i])), given[i], rens[i])
  }

  lemma SameNameSet(a: seq<(string, Spec)>, b: seq<(string, Spec)>)
    requires multiset(a) == multiset(b)
    ensures NameSet(a) == NameSet(b)
  {
    NamesOfMembers(a, b);
    NamesOfMembers(b, a);
  }

  lemma NamesOfMembers(a: seq<(string, Spec)>, b: seq<(string, Spec)>)
    requires multiset(a) == multiset(b)
    ensures NameSet(a) <= NameSet(b)
  {
    forall n | n in NameSet(a) ensures n in NameSet(b) {
      var i :| 0 <= i < |a| && a[i].0 == n;
      assert a[i] in multiset(b);
      var j :| 0 <= j < |b| && b[j] == a[i];
      assert Names(b)[j] == n;
    }
  }

  /** One document more: its entries are given past all that the merge has. */
  lemma AddedEntries(target: Files, source: Files, ren: Id -> Id, before: seq<(string, Spec)>)
    returns (given: seq<(string, Spec)>)
    requires multiset(Embedded(target)) == multiset(before)
    ensures Given(Embedded(source), NameSet(before), given, ren)
    ensures multiset(Embedded(AddFiles(target, source, ren))) == multiset(before + given)
  {
    given := Named(Embedded(source), NameSet(Embedded(target)), ren);
    SameNameSet(Embedded(target), before);
    NamedAreGiven(Embedded(source), NameSet(before), ren);
    if Embedded(source) == [] {
      assert before + given == before;
    } else {
      AddFilesReadsBack(target, source, ren);
      ByNameSorts(Embedded(target) + given);
    }
  }

  /**
    The entries of a merge are those of the first document, as they are, and copies of those of the others, each under
    its own name where no entry before it has that, and else under the first number from 2 on that is free.
   */
  lemma {:induction false} MergedEntries(first: Files, rest: seq<Files>, rens: seq<Id -> Id>)
    returns (given: seq<seq<(string, Spec)>>)
    requires |rens| == |rest|
    ensures AllAreGiven(Embedded(first), rest, rens, given)
    ensures multiset(Embedded(Merged(first, rest, rens))) == multiset(AllGiven(Embedded(first), given))
  {
    if rest == [] {
      given := [];
      TidiedReadsBack(first);
      ByNameSorts(Embedded(first));
    } else {
      var n := |rest| - 1;
      var before := MergedEntries(first, rest[..n], rens[..n]);
      var last := AddedEntries(Merged(first, rest[..n], rens[..n]), rest[n], rens[n],
                               AllGiven(Embedded(first), before));
      given := before + [last];
      OneMoreIsGiven(Embedded(first), rest, rens, before, last);
    }
  }

  lemma OneMoreIsGiven(own: seq<(string, Spec)>, docs: seq<Files>, rens: seq<Id -> Id>,
                       before: seq<seq<(string, Spec)>>, last: seq<(string, Spec)>)
    requires |docs| == |rens| == |before| + 1
    requires AllAreGiven(own, docs[..|before|], rens[..|before|], before)
    requires Given(Embedded(docs[|before|]), NameSet(AllGiven(own, before)), last, rens[|before|])
    ensures AllAreGiven(own, docs, rens, before + [last])
    ensures AllGiven(own, before + [last]) == AllGiven(own, before) + last
  {
    var given, n := before + [last], |before|;
    assert given[..n] == before;
    forall i | 0 <= i < |docs| ensures Given(Embedded(docs[i]), NameSet(AllGiven(own, given[..i])), given[i], rens[i]) {
      if i < n {
        assert given[..i] == before[..i] && docs[..n][i] == docs[i] && rens[..n][i] == rens[i];
      }
    }
  }

  /** How many files a document embeds, and how many some documents do. */
  function FileCount(f: Files): nat {
    if f.tree.None? then 0 else Size(f.tree.value)
  }

  function FilesCount(docs: seq<Files>): nat {
    if docs == [] then 0 else FilesCount(docs[..|docs| - 1]) + FileCount(docs[|docs| - 1])
  }

  lemma FileCountIs(f: Files)
    ensures |Embedded(f)| == FileCount(f)
  {
    if f.tree.Some? {
      ReadAsStored(f.tree.value, ("", Direct(0)));
    }
  }

  lemma {:induction false} AllGivenCount(first: Files, docs: seq<Files>, rens: seq<Id -> Id>,
                                         given: seq<seq<(string, Spec)>>, i: nat)
    requires AllAreGiven(Embedded(first), docs, rens, given) && i <= |docs|
    ensures |AllGiven(Embedded(first), given[..i])| == FileCount(first) + FilesCount(docs[..i])
  {
    if i == 0 {
      FileCountIs(first);
    } else {
      AllGivenCount(first, docs, rens, given, i - 1);
      FileCountIs(docs[i - 1]);
      assert given[..i][..i - 1] == given[..i - 1] && docs[..i][..i - 1] == docs[..i - 1];
    }
  }

  lemma {:induction false} GivenStartAll(own: seq<(string, Spec)>, given: seq<seq<(string, Spec)>>, i: nat)
    requires i <= |given|
    ensures AllGiven(own, given[..i]) <= AllGiven(own, given)
  {
    var n := |given|;
    if i == n {
      assert given[..i] == given;
    } else {
      GivenStartAll(own, given[..n - 1], i);
      assert given[..n - 1][..i] == given[..i];
    }
  }

  lemma AllGivenUpTo(own: seq<(string, Spec)>, given: seq<seq<(string, Spec)>>, i: nat, k: nat)
    requires i < |given| && k < |given[i]|
    ensures AllGiven(own, given[..i]) + given[i][..k] + [given[i][k]] <= AllGiven(own, given)
  {
    GivenStartAll(own, given, i + 1);
    assert given[..i + 1][..i] == given[..i];
    assert given[i] == given[i][..k] + [given[i][k]] + given[i][k + 1..];
  }

  lemma PartIsAmongAll<T(!new)>(a: seq<T>, b: seq<T>)
    requires a <= b
    ensures multiset(a) <= multiset(b)
  {
    assert b == a + b[|a|..];
  }

  /**
    Each file of each later document is in the merge: under its own name exactly if no entry before it has that, the
    first document's, and what was added of the documents before it and of its own before it; else under a number.
   */
  lemma EachFileIsKept(first: Files, rest: seq<Files>, rens: seq<Id -> Id>, i: nat, k: nat)
    returns (earlier: seq<(string, Spec)>, e: (string, Spec))
    requires |rens| == |rest| && i < |rest| && k < |Embedded(rest[i])|
    ensures multiset(earlier + [e]) <= multiset(Embedded(Merged(first, rest, rens)))
    ensures IsCopy(Embedded(rest[i])[k].1, e.1, rens[i])
    ensures var name := Embedded(rest[i])[k].0;
      (e.0 == name <==> forall x :: x in earlier ==> x.0 != name)
      && (e.0 == name || exists n: nat :: n >= 2 && e.0 == Numbered(name, n))
    ensures multiset(Embedded(first)) <= multiset(earlier)
    ensures |earlier| == FileCount(first) + FilesCount(rest[..i]) + k
  {
    var own, name := Embedded(first), Embedded(rest[i])[k].0;
    var given := MergedEntries(first, rest, rens);
    earlier, e := AllGiven(own, given[..i]) + given[i][..k], given[i][k];
    AllGivenUpTo(own, given, i, k);
    PartIsAmongAll(earlier + [e], AllGiven(own, given));
    GivenStartAll(own, given[..i], 0);
    PartIsAmongAll(own, earlier);
    AllGivenCount(first, rest, rens, given, i);
    NameSetConcat(AllGiven(own, given[..i]), given[i][..k]);
    assert IsNamed(name, NameSet(earlier), e.0);
    HasName(earlier, name);
  }

  lemma HasName(entries: seq<(string, Spec)>, name: string)
    ensures name in NameSet(entries) <==> exists x :: x in entries && x.0 == name
  {
    if x :| x in entries && x.0 == name {
      var i :| 0 <= i < |entries| && entries[i] == x;
      assert Names(entries)[i] == name;
    }
    if name in NameSet(entries) {
      var i :| 0 <= i < |entries| && Names(entries)[i] == name;
      assert entries[i] in entries;
    }
  }

  /** The entries of the first document stay, as often as the nodes of its tree store them, and none is made up. */
  lemma FirstFilesStay(first: Files, rest: seq<Files>, rens: seq<Id -> Id>, e: (string, Spec))
    requires |rens| == |rest|
    ensures Embeds(first, e) <= Embeds(Merged(first, rest, rens), e)
    ensures FileCount(Merged(first, rest, rens)) == FileCount(first) + FilesCount(rest)
  {
    var given := MergedEntries(first, rest, rens);
    GivenStartAll(Embedded(first), given, 0);
    PartIsAmongAll(Embedded(first), AllGiven(Embedded(first), given));
    EmbeddedAsStored(first, e);
    EmbeddedAsStored(Merged(first, rest, rens), e);
    AllGivenCount(first, rest, rens, given, |rest|);
    FileCountIs(Merged(first, rest, rens));
    assert given[..|rest|] == given && rest[..|rest|] == rest;
    assert |multiset(AllGiven(Embedded(first), given))| == |multiset(Embedded(Merged(first, rest, rens)))|;
  }

  // ----- As often as they were ----------------------------------------------------------------

  /** How often a node, or some node under it, stores a file that the predicate is of. */
  function CountStored(t: NameTree, p: Spec -> bool): nat
    decreases t, 1
  {
    CountIf(t.names, p) + CountInKids(t.kids, p)
  }

  function CountInKids(kids: seq<NameTree>, p: Spec -> bool): nat
    decreases kids, 0
  {
    if kids == [] then 0 else CountStored(kids[0], p) + CountInKids(kids[1..], p)
  }

  function CountIf(entries: seq<(string, Spec)>, p: Spec -> bool): nat {
    if entries == [] then 0 else (if p(entries[0].1) then 1 else 0) + CountIf(entries[1..], p)
  }

  function CountFiles(f: Files, p: Spec -> bool): nat {
    if f.tree.None? then 0 else CountStored(f.tree.value, p)
  }

  lemma {:induction false} CountIfConcat(a: seq<(string, Spec)>, b: seq<(string, Spec)>, p: Spec -> bool)
    ensures CountIf(a + b, p) == CountIf(a, p) + CountIf(b, p)
  {
    if a == [] {
      assert a + b == b;
    } else {
      assert (a + b)[0] == a[0] && (a + b)[1..] == a[1..] + b;
      CountIfConcat(a[1..], b, p);
    }
  }

  lemma {:induction false} CountAsStored(t: NameTree, p: Spec -> bool)
    ensures CountIf(TreeEntries(t), p) == CountStored(t, p)
    decreases t, 1
  {
    CountIfConcat(t.names, KidEntries(t.kids), p);
    CountKidsAsStored(t.kids, p);
  }

  lemma {:induction false} CountKidsAsStored(kids: seq<NameTree>, p: Spec -> bool)
    ensures CountIf(KidEntries(kids), p) == CountInKids(kids, p)
    decreases kids, 0
  {
    if kids != [] {
      CountIfConcat(TreeEntries(kids[0]), KidEntries(kids[1..]), p);
      CountAsStored(kids[0], p);
      CountKidsAsStored(kids[1..], p);
    }
  }

  lemma CountFilesAsStored(f: Files, p: Spec -> bool)
    ensures CountFiles(f, p) == CountIf(Embedded(f), p)
  {
    if f.tree.Some? {
      CountAsStored(f.tree.value, p);
    }
  }

  function Is(s: Spec): Spec -> bool {
    x => x == s
  }

  function IsCopiedTo(s: Spec, ren: Id -> Id): Spec -> bool {
    x => IsCopy(x, s, ren)
  }

  /** How many files of some documents are copied to a file. */
  function CountCopies(docs: seq<Files>, rens: seq<Id -> Id>, s: Spec): nat
    requires |rens| == |docs|
  {
    if docs == [] then 0
    else CountCopies(docs[..|docs| - 1], rens[..|rens| - 1], s)
         + CountFiles(docs[|docs| - 1], IsCopiedTo(s, rens[|rens| - 1]))
  }

  lemma {:induction false} CountIfIs(entries: seq<(string, Spec)>, s: Spec)
    ensures CountIf(entries, Is(s)) == multiset(Specs(entries))[s]
  {
    if entries != [] {
      CountIfIs(entries[1..], s);
      assert Specs(entries) == [entries[0].1] + Specs(entries[1..]);
    }
  }

  lemma {:induction false} CountIfCopied(entries: seq<(string, Spec)>, s: Spec, ren: Id -> Id)
    ensures CountIf(entries, IsCopiedTo(s, ren)) == multiset(CopySpecs(Specs(entries), ren))[s]
  {
    if entries != [] {
      CountIfCopied(entries[1..], s, ren);
      assert CopySpecs(Specs(entries), ren) == [CopySpec(entries[0].1, ren)] + CopySpecs(Specs(entries[1..]), ren);
    }
  }

  lemma {:induction false} CountAllEmbedded(first: Files, rest: seq<Files>, rens: seq<Id -> Id>, s: Spec)
    requires |rens| == |rest|
    ensures multiset(AllEmbedded(first, rest, rens))[s] == CountFiles(first, Is(s)) + CountCopies(rest, rens, s)
  {
    if rest == [] {
      CountFilesAsStored(first, Is(s));
      CountIfIs(Embedded(first), s);
    } else {
      var n := |rest| - 1;
      CountAllEmbedded(first, rest[..n], rens[..n], s);
      CountFilesAsStored(rest[n], IsCopiedTo(s, rens[n]));
      CountIfCopied(Embedded(rest[n]), s, rens[n]);
    }
  }

  /** A merge embeds a file as often as the nodes of the documents' name trees store it, or what it is a copy of. */
  lemma FilesConserved(first: Files, rest: seq<Files>, rens: seq<Id -> Id>, s: Spec)
    requires |rens| == |rest|
    ensures CountFiles(Merged(first, rest, rens), Is(s)) == CountFiles(first, Is(s)) + CountCopies(rest, rens, s)
  {
    MergedFilesConserved(first, rest, rens);
    CountAllEmbedded(first, rest, rens, s);
    CountFilesAsStored(Merged(first, rest, rens), Is(s));
    CountIfIs(Embedded(Merged(first, rest, rens)), s);
  }
}
