/**
  The files a document embeds, by name in a name tree (ISO 32000-1:2008, section 7.9.6), and the files it associates
  with itself (/AF).
 */
module EmbeddedFiles {
  import opened Wrappers
  import opened Text

  /** A file specification: an indirect object, or a direct one, which has no identity. */
  datatype Spec = Indirect(id: Id) | Direct(value: nat)

  datatype NameTree = Node(names: seq<(string, Spec)>, kids: seq<NameTree>)

  datatype Files = Files(tree: Option<NameTree>, associated: seq<Spec>)

  // ----- Reading ------------------------------------------------------------------------------

  /** The entries of a name tree in the order it stores them. */
  function TreeEntries(t: NameTree): seq<(string, Spec)>
    decreases t, 1
  {
    t.names + KidEntries(t.kids)
  }

  function KidEntries(kids: seq<NameTree>): seq<(string, Spec)>
    decreases kids, 0
  {
    if kids == [] then [] else TreeEntries(kids[0]) + KidEntries(kids[1..])
  }

  lemma {:induction false} KidEntriesConcat(a: seq<NameTree>, b: seq<NameTree>)
    ensures KidEntries(a + b) == KidEntries(a) + KidEntries(b)
  {
    if a == [] {
      assert a + b == b;
    } else {
      assert (a + b)[0] == a[0] && (a + b)[1..] == a[1..] + b;
      KidEntriesConcat(a[1..], b);
    }
  }

  /** _name_tree_entries: the list, extended node by node. */
  method NameTreeEntries(node: NameTree) returns (entries: seq<(string, Spec)>)
    ensures entries == TreeEntries(node)
    decreases node
  {
    entries := node.names;
    for i := 0 to |node.kids|
      invariant entries == node.names + KidEntries(node.kids[..i])
    {
      var more := NameTreeEntries(node.kids[i]);
      entries := entries + more;
      assert node.kids[..i + 1] == node.kids[..i] + [node.kids[i]];
      KidEntriesConcat(node.kids[..i], [node.kids[i]]);
      assert KidEntries([node.kids[i]]) == TreeEntries(node.kids[i]) + [];
    }
    assert node.kids[..|node.kids|] == node.kids;
  }

  function Embedded(f: Files): seq<(string, Spec)> {
    if f.tree.None? then [] else TreeEntries(f.tree.value)
  }

  /** _embedded_files. */
  method ReadEntries(f: Files) returns (entries: seq<(string, Spec)>)
    ensures entries == Embedded(f)
  {
    entries := [];
    if f.tree.Some? {
      entries := NameTreeEntries(f.tree.value);
    }
  }

  function Names(entries: seq<(string, Spec)>): (r: seq<string>)
    ensures |r| == |entries| && forall i :: 0 <= i < |entries| ==> r[i] == entries[i].0
  {
    seq(|entries|, i requires 0 <= i < |entries| => entries[i].0)
  }

  function NameSet(entries: seq<(string, Spec)>): set<string> {
    set n | n in Names(entries)
  }

  function Specs(entries: seq<(string, Spec)>): (r: seq<Spec>)
    ensures |r| == |entries| && forall i :: 0 <= i < |entries| ==> r[i] == entries[i].1
  {
    seq(|entries|, i requires 0 <= i < |entries| => entries[i].1)
  }

  /** The objects the files are. */
  function FileIds(f: Files): set<Id> {
    (set s | s in Specs(Embedded(f)) && s.Indirect? :: s.id) + (set s | s in f.associated && s.Indirect? :: s.id)
  }

  // ----- Unique names -------------------------------------------------------------------------

  /** The n-th name tried: the name itself, then the name with a number from 2 on. */
  function Candidate(name: string, n: nat): string {
    if n <= 1 then name else name + " (" + Decimal(n) + ")"
  }

  lemma CandidatesDiffer(name: string, m: nat, n: nat)
    requires 1 <= m < n
    ensures Candidate(name, m) != Candidate(name, n)
  {
    var c := Candidate(name, n);
    if Candidate(name, m) == c {
      if m > 1 {
        var d := Candidate(name, m);
        assert c[|name| + 2..|c| - 1] == Decimal(n);
        assert d[|name| + 2..|d| - 1] == Decimal(m);
        DecimalInjective(m, n);
      }
    }
  }

  function Tried(name: string, n: nat): (r: set<string>)
    ensures forall c :: c in r <==> exists m :: 1 <= m < n && c == Candidate(name, m)
  {
    set m | 1 <= m < n :: Candidate(name, m)
  }

  /** Trying one more name tries a new one, so a finite set of taken names runs out. */
  lemma TriedGrows(name: string, n: nat)
    requires n >= 1
    ensures Tried(name, n + 1) == Tried(name, n) + {Candidate(name, n)}
    ensures Candidate(name, n) !in Tried(name, n)
  {
    forall m | 1 <= m < n ensures Candidate(name, m) != Candidate(name, n) {
      CandidatesDiffer(name, m, n);
    }
    forall c ensures c in Tried(name, n + 1) <==> c in Tried(name, n) + {Candidate(name, n)} {
      if c == Candidate(name, n) {
        assert 1 <= n < n + 1;
      }
    }
  }

  lemma OneMoreCounts(s: set<string>, x: string, t: set<string>)
    requires x !in s && t == s + {x}
    ensures |t| == |s| + 1
  {
  }

  lemma {:induction false} TriedCount(name: string, n: nat)
    requires n >= 1
    ensures |Tried(name, n)| == n - 1
  {
    if n == 1 {
      assert Tried(name, 1) == {};
    } else {
      TriedCount(name, n - 1);
      TriedGrows(name, n - 1);
      OneMoreCounts(Tried(name, n - 1), Candidate(name, n - 1), Tried(name, n));
    }
  }

  /** The lowest free number from n on, where all before n are taken. */
  function FirstFree(name: string, taken: set<string>, n: nat): (r: nat)
    requires n >= 1 && Tried(name, n) <= taken
    decreases |taken| + 1 - n
  {
    if Candidate(name, n) !in taken then n else
      TriedOneMore(name, taken, n);
      FirstFree(name, taken, n + 1)
  }

  /** It is free, all before it are taken, and there is one within one more than the names taken. */
  lemma {:induction false} FirstFreeIsFree(name: string, taken: set<string>, n: nat)
    requires n >= 1 && Tried(name, n) <= taken
    ensures var r := FirstFree(name, taken, n);
      n <= r <= |taken| + 1 && Candidate(name, r) !in taken && Tried(name, r) <= taken
    decreases |taken| + 1 - n
  {
    TakenBounds(name, taken, n);
    if Candidate(name, n) in taken {
      TriedOneMore(name, taken, n);
      FirstFreeIsFree(name, taken, n + 1);
    }
  }

  lemma TriedOneMore(name: string, taken: set<string>, n: nat)
    requires n >= 1 && Tried(name, n) <= taken && Candidate(name, n) in taken
    ensures Tried(name, n + 1) <= taken && n <= |taken|
  {
    TriedGrows(name, n);
    TakenBounds(name, taken, n + 1);
  }

  lemma TakenBounds(name: string, taken: set<string>, n: nat)
    requires n >= 1 && Tried(name, n) <= taken
    ensures n <= |taken| + 1
  {
    TriedCount(name, n);
    SubsetIsNoLarger(Tried(name, n), taken);
  }

  lemma {:induction false} SubsetIsNoLarger(a: set<string>, b: set<string>)
    requires a <= b
    ensures |a| <= |b|
    decreases a
  {
    if a != {} {
      var x := SomeMember(a);
      SubsetIsNoLarger(a - {x}, b - {x});
    }
  }

  function UniqueName(name: string, taken: set<string>): (r: string)
    ensures r !in taken
  {
    assert Tried(name, 1) == {};
    FirstFreeIsFree(name, taken, 1);
    Candidate(name, FirstFree(name, taken, 1))
  }

  /** The name it picks: free, and under the lowest number that is. */
  lemma UniqueNameIsFirstFree(name: string, taken: set<string>)
    ensures exists n :: (1 <= n <= |taken| + 1 && UniqueName(name, taken) == Candidate(name, n)
                         && Candidate(name, n) !in taken && forall m :: 1 <= m < n ==> Candidate(name, m) in taken)
  {
    assert Tried(name, 1) == {};
    FirstFreeIsFree(name, taken, 1);
    var n := FirstFree(name, taken, 1);
    forall m | 1 <= m < n ensures Candidate(name, m) in taken {
      assert Candidate(name, m) in Tried(name, n);
    }
    assert UniqueName(name, taken) == Candidate(name, n);
  }

  /** _unique_name: the loop over the numbers. */
  method FindUniqueName(name: string, taken: set<string>) returns (candidate: string)
    ensures candidate == UniqueName(name, taken)
  {
    candidate := name;
    var number := 2;
    assert Tried(name, 1) == {};
    while candidate in taken
      invariant number >= 2 && candidate == Candidate(name, number - 1)
      invariant Tried(name, number - 1) <= taken
      invariant FirstFree(name, taken, number - 1) == FirstFree(name, taken, 1)
      decreases |taken| + 2 - number
    {
      TriedGrows(name, number - 1);
      TakenBounds(name, taken, number);
      candidate := name + " (" + Decimal(number) + ")";
      number := number + 1;
    }
  }

  // ----- Sorting ------------------------------------------------------------------------------

  function Insert(e: (string, Spec), s: seq<(string, Spec)>): seq<(string, Spec)> {
    if s == [] || !Less(s[0].0, e.0) then [e] + s else [s[0]] + Insert(e, s[1..])
  }

  /** sorted() by name: of equal names the one stored first comes first. */
  function ByName(s: seq<(string, Spec)>): seq<(string, Spec)> {
    if s == [] then [] else Insert(s[0], ByName(s[1..]))
  }

  ghost predicate Ascending(s: seq<(string, Spec)>) {
    forall i, j :: 0 <= i < j < |s| ==> !Less(s[j].0, s[i].0)
  }

  ghost predicate StrictlyAscending(s: seq<(string, Spec)>) {
    forall i, j :: 0 <= i < j < |s| ==> Less(s[i].0, s[j].0)
  }

  lemma {:induction false} InsertKeeps(e: (string, Spec), s: seq<(string, Spec)>)
    ensures multiset(Insert(e, s)) == multiset(s) + multiset{e}
  {
    if s != [] && Less(s[0].0, e.0) {
      InsertKeeps(e, s[1..]);
      assert s == [s[0]] + s[1..];
    }
  }

  lemma {:induction false} InsertSorts(e: (string, Spec), s: seq<(string, Spec)>)
    requires Ascending(s)
    ensures Ascending(Insert(e, s))
  {
    if s == [] || !Less(s[0].0, e.0) {
      forall j | 0 <= j < |s| ensures !Less(s[j].0, e.0) {
        if j > 0 {
          NotLessIsTransitive(e.0, s[0].0, s[j].0);
        }
      }
    } else {
      InsertSorts(e, s[1..]);
      var rest := Insert(e, s[1..]);
      LessIsTotal(s[0].0, e.0);
      forall j | 0 <= j < |rest| ensures !Less(rest[j].0, s[0].0) {
        InsertKeeps(e, s[1..]);
        assert rest[j] in multiset(rest);
        assert rest[j] == e || rest[j] in s[1..];
      }
    }
  }

  lemma {:induction false} ByNameSorts(s: seq<(string, Spec)>)
    ensures Ascending(ByName(s)) && multiset(ByName(s)) == multiset(s)
  {
    if s != [] {
      ByNameSorts(s[1..]);
      InsertKeeps(s[0], ByName(s[1..]));
      InsertSorts(s[0], ByName(s[1..]));
      assert s == [s[0]] + s[1..];
    }
  }

  /** Sorting moves entries only: the same specs, as often, and the same names. */
  lemma {:induction false} InsertMovesSpecs(e: (string, Spec), s: seq<(string, Spec)>)
    ensures multiset(Specs(Insert(e, s))) == multiset(Specs(s)) + multiset{e.1}
  {
    var r := Insert(e, s);
    if s == [] || !Less(s[0].0, e.0) {
      assert Specs(r) == [e.1] + Specs(s);
    } else {
      InsertMovesSpecs(e, s[1..]);
      assert Specs(r) == [s[0].1] + Specs(Insert(e, s[1..]));
      assert Specs(s) == [s[0].1] + Specs(s[1..]);
    }
  }

  lemma {:induction false} InsertMovesNames(e: (string, Spec), s: seq<(string, Spec)>)
    ensures forall n :: n in Names(Insert(e, s)) <==> n == e.0 || n in Names(s)
    ensures NoDup(Names(Insert(e, s))) <==> NoDup(Names(s)) && e.0 !in Names(s)
  {
    var r := Insert(e, s);
    if s == [] || !Less(s[0].0, e.0) {
      assert Names(r) == [e.0] + Names(s);
      NoDupCons(e.0, Names(s));
    } else {
      InsertMovesNames(e, s[1..]);
      var first, others, rest := s[0].0, Names(s[1..]), Names(Insert(e, s[1..]));
      assert Names(r) == [first] + rest;
      assert Names(s) == [first] + others;
      NoDupCons(first, others);
      NoDupCons(first, rest);
    }
  }

  lemma {:induction false} ByNameMovesSpecs(s: seq<(string, Spec)>)
    ensures multiset(Specs(ByName(s))) == multiset(Specs(s))
  {
    if s != [] {
      ByNameMovesSpecs(s[1..]);
      InsertMovesSpecs(s[0], ByName(s[1..]));
      assert Specs(s) == [s[0].1] + Specs(s[1..]);
    }
  }

  lemma {:induction false} ByNameMovesNames(s: seq<(string, Spec)>)
    ensures forall n :: n in Names(ByName(s)) <==> n in Names(s)
    ensures NoDup(Names(ByName(s))) <==> NoDup(Names(s))
  {
    if s != [] {
      ByNameMovesNames(s[1..]);
      InsertMovesNames(s[0], ByName(s[1..]));
      assert Names(s) == [s[0].0] + Names(s[1..]);
      NoDupCons(s[0].0, Names(s[1..]));
    }
  }

  /** Sorted, the names are strictly ascending exactly when none stood twice. */
  lemma ByNameIsStrict(s: seq<(string, Spec)>)
    ensures StrictlyAscending(ByName(s)) <==> NoDup(Names(s))
  {
    var r := ByName(s);
    ByNameSorts(s);
    ByNameMovesNames(s);
    if NoDup(Names(s)) {
      forall i, j | 0 <= i < j < |r| ensures Less(r[i].0, r[j].0) {
        assert Names(r)[i] != Names(r)[j];
        LessIsTotal(r[i].0, r[j].0);
      }
    }
    if StrictlyAscending(r) {
      StrictMeansDistinct(r);
    }
  }

  lemma StrictMeansDistinct(s: seq<(string, Spec)>)
    requires StrictlyAscending(s)
    ensures NoDup(Names(s))
  {
    forall i, j | 0 <= i < j < |s| ensures Names(s)[i] != Names(s)[j] {
      LessIsTotal(s[i].0, s[j].0);
    }
  }

  // ----- Associated files ---------------------------------------------------------------------

  /** Each indirect file once, where it is first seen; a direct one has no identity to know it by. */
  function Once(s: seq<Spec>): seq<Spec> {
    if s == [] then []
    else
      var before, last := s[..|s| - 1], s[|s| - 1];
      if last.Indirect? && last in before then Once(before) else Once(before) + [last]
  }

  lemma {:induction false} OnceListsEachOnce(s: seq<Spec>)
    ensures forall x :: x in Once(s) <==> x in s
    ensures forall i, j :: 0 <= i < j < |Once(s)| && Once(s)[i].Indirect? ==> Once(s)[i] != Once(s)[j]
    ensures |Once(s)| <= |s|
  {
    if s != [] {
      var before, last := s[..|s| - 1], s[|s| - 1];
      OnceListsEachOnce(before);
      assert s == before + [last];
    }
  }

  /** What is seen first is listed first: more files seen later add to the end of the list only. */
  lemma {:induction false} OnceIsFirstSeen(a: seq<Spec>, b: seq<Spec>)
    ensures Once(a) <= Once(a + b)
    ensures Once(Once(a) + b) == Once(a + b)
  {
    if b == [] {
      assert a + b == a && Once(a) + b == Once(a);
      OnceTwice(a);
    } else {
      var before, last := b[..|b| - 1], b[|b| - 1];
      OnceIsFirstSeen(a, before);
      OnceListsEachOnce(a);
      assert (a + b)[..|a + b| - 1] == a + before;
      assert (Once(a) + b)[..|Once(a) + b| - 1] == Once(a) + before;
      assert last in a + before <==> last in Once(a) + before;
    }
  }

  lemma {:induction false} OnceTwice(a: seq<Spec>)
    ensures Once(Once(a)) == Once(a)
  {
    if a != [] {
      var before, last := a[..|a| - 1], a[|a| - 1];
      OnceTwice(before);
      OnceListsEachOnce(before);
      if !(last.Indirect? && last in before) {
        assert (Once(before) + [last])[..|Once(before)|] == Once(before);
      }
    }
  }

  /** The loop of _write_embedded_files over the associated files, with the set of those listed. */
  method ListOnce(associated: seq<Spec>) returns (unique: seq<Spec>)
    ensures unique == Once(associated)
  {
    var listed: set<Id> := {};
    unique := [];
    for i := 0 to |associated|
      invariant unique == Once(associated[..i])
      invariant forall id :: id in listed <==> Indirect(id) in associated[..i]
    {
      var spec := associated[i];
      assert associated[..i + 1][..i] == associated[..i];
      assert associated[..i + 1] == associated[..i] + [spec];
      if spec.Direct? || spec.id !in listed {
        if spec.Indirect? {
          listed := listed + {spec.id};
        }
        unique := unique + [spec];
      }
    }
    assert associated[..|associated|] == associated;
  }

  // ----- The operations -----------------------------------------------------------------------

  /** Write the files as one sorted node, and each associated file once; nothing where there is nothing. */
  function Written(f: Files, entries: seq<(string, Spec)>, associated: seq<Spec>): Files {
    if entries == [] && associated == [] then f
    else Files(Some(Node(ByName(entries), [])), Once(associated))
  }

  /** Rewrite the files of the document a merge is built on. */
  function Tidied(f: Files): Files {
    Written(f, Embedded(f), f.associated)
  }

  function CopySpec(s: Spec, ren: Id -> Id): Spec {
    if s.Indirect? then Indirect(ren(s.id)) else s
  }

  function CopySpecs(s: seq<Spec>, ren: Id -> Id): (r: seq<Spec>)
    ensures |r| == |s| && forall i :: 0 <= i < |s| ==> r[i] == CopySpec(s[i], ren)
  {
    seq(|s|, i requires 0 <= i < |s| => CopySpec(s[i], ren))
  }

  /** The added entries: copies, each under a name none before it has. */
  function Named(added: seq<(string, Spec)>, taken: set<string>, ren: Id -> Id): seq<(string, Spec)> {
    if added == [] then []
    else
      var unique := UniqueName(added[0].0, taken);
      [(unique, CopySpec(added[0].1, ren))] + Named(added[1..], taken + {unique}, ren)
  }

  /** The loop of _add_embedded_files over the added entries, with the set of the names taken. */
  method AppendNamed(own: seq<(string, Spec)>, added: seq<(string, Spec)>,
                     ren: Id -> Id) returns (entries: seq<(string, Spec)>)
    ensures entries == own + Named(added, NameSet(own), ren)
  {
    entries := own;
    var taken := NameSet(own);
    for i := 0 to |added|
      invariant entries + Named(added[i..], taken, ren) == own + Named(added, NameSet(own), ren)
    {
      var (name, spec) := added[i];
      var unique := FindUniqueName(name, taken);
      assert added[i..][0] == added[i] && added[i..][1..] == added[i + 1..];
      ghost var rest := Named(added[i + 1..], taken + {unique}, ren);
      assert entries + ([(unique, CopySpec(spec, ren))] + rest) == (entries + [(unique, CopySpec(spec, ren))]) + rest;
      taken := taken + {unique};
      entries := entries + [(unique, CopySpec(spec, ren))];
    }
  }

  /** Take over the files a source embeds and associates with itself; nothing where it embeds none. */
  function AddFiles(target: Files, source: Files, ren: Id -> Id): Files {
    var added := Embedded(source);
    if added == [] then target
    else
      var entries := Embedded(target);
      Written(target, entries + Named(added, NameSet(entries), ren),
              target.associated + CopySpecs(source.associated, ren))
  }

  lemma {:induction false} NamedAreDistinct(added: seq<(string, Spec)>, taken: set<string>, ren: Id -> Id)
    ensures NoDup(Names(Named(added, taken, ren)))
    ensures forall n :: n in Names(Named(added, taken, ren)) ==> n !in taken
    ensures Specs(Named(added, taken, ren)) == CopySpecs(Specs(added), ren)
  {
    if added != [] {
      var unique := UniqueName(added[0].0, taken);
      var rest := Named(added[1..], taken + {unique}, ren);
      NamedAreDistinct(added[1..], taken + {unique}, ren);
      assert Names(Named(added, taken, ren)) == [unique] + Names(rest);
      NoDupConcat([unique], Names(rest));
    }
  }

  // ----- The files of a whole merge -----------------------------------------------------------

  function Merged(first: Files, rest: seq<Files>, rens: seq<Id -> Id>): Files
    requires |rens| == |rest|
  {
    if rest == [] then Tidied(first)
    else AddFiles(Merged(first, rest[..|rest| - 1], rens[..|rest| - 1]), rest[|rest| - 1], rens[|rest| - 1])
  }

  /** The embedded files of all documents, one after the other, as the merge knows them. */
  function AllEmbedded(first: Files, rest: seq<Files>, rens: seq<Id -> Id>): seq<Spec>
    requires |rens| == |rest|
  {
    if rest == [] then Specs(Embedded(first))
    else AllEmbedded(first, rest[..|rest| - 1], rens[..|rest| - 1])
         + CopySpecs(Specs(Embedded(rest[|rest| - 1])), rens[|rest| - 1])
  }

  /** The associated files of the first document, and of all others that embed files. */
  function AllAssociated(first: Files, rest: seq<Files>, rens: seq<Id -> Id>): seq<Spec>
    requires |rens| == |rest|
  {
    if rest == [] then first.associated
    else AllAssociated(first, rest[..|rest| - 1], rens[..|rest| - 1])
         + if Embedded(rest[|rest| - 1]) == [] then [] else CopySpecs(rest[|rest| - 1].associated, rens[|rest| - 1])
  }

  lemma WrittenReadsBack(f: Files, entries: seq<(string, Spec)>, associated: seq<Spec>)
    requires entries != [] || associated != []
    ensures Embedded(Written(f, entries, associated)) == ByName(entries)
  {
    var t := Node(ByName(entries), []);
    assert KidEntries(t.kids) == [];
    assert TreeEntries(t) == t.names + [];
  }

  lemma TidiedReadsBack(f: Files)
    ensures Embedded(Tidied(f)) == ByName(Embedded(f))
  {
    if Embedded(f) != [] || f.associated != [] {
      WrittenReadsBack(f, Embedded(f), f.associated);
    }
  }

  /** The entries of the target, and copies of those of the source under names of their own, sorted. */
  lemma AddFilesReadsBack(target: Files, source: Files, ren: Id -> Id)
    requires Embedded(source) != []
    ensures Embedded(AddFiles(target, source, ren))
         == ByName(Embedded(target) + Named(Embedded(source), NameSet(Embedded(target)), ren))
  {
    var entries := Embedded(target) + Named(Embedded(source), NameSet(Embedded(target)), ren);
    WrittenReadsBack(target, entries, target.associated + CopySpecs(source.associated, ren));
  }

  lemma NamedKeepsDistinct(entries: seq<(string, Spec)>, added: seq<(string, Spec)>, ren: Id -> Id)
    ensures NoDup(Names(entries + Named(added, NameSet(entries), ren))) <==> NoDup(Names(entries))
  {
    var named := Named(added, NameSet(entries), ren);
    NamedAreDistinct(added, NameSet(entries), ren);
    assert Names(entries + named) == Names(entries) + Names(named);
    assert forall n :: n in Names(entries) ==> n in NameSet(entries);
    NoDupConcatIff(Names(entries), Names(named));
  }

  /** Adding files leaves distinct names distinct, and does not mend ones that are not. */
  lemma AddFilesKeepsDistinct(target: Files, source: Files, ren: Id -> Id)
    ensures NoDup(Names(Embedded(AddFiles(target, source, ren)))) <==> NoDup(Names(Embedded(target)))
    ensures StrictlyAscending(Embedded(target)) ==> StrictlyAscending(Embedded(AddFiles(target, source, ren)))
  {
    if Embedded(source) != [] {
      var all := Embedded(target) + Named(Embedded(source), NameSet(Embedded(target)), ren);
      AddFilesReadsBack(target, source, ren);
      NamedKeepsDistinct(Embedded(target), Embedded(source), ren);
      ByNameMovesNames(all);
      ByNameIsStrict(all);
      if StrictlyAscending(Embedded(target)) {
        StrictMeansDistinct(Embedded(target));
      }
    }
  }

  lemma AddFilesConserves(target: Files, source: Files, ren: Id -> Id)
    ensures multiset(Specs(Embedded(AddFiles(target, source, ren))))
         == multiset(Specs(Embedded(target)) + CopySpecs(Specs(Embedded(source)), ren))
  {
    var entries, added := Embedded(target), Embedded(source);
    if added == [] {
      assert Specs(entries) + CopySpecs(Specs(added), ren) == Specs(entries);
    } else {
      var named := Named(added, NameSet(entries), ren);
      AddFilesReadsBack(target, source, ren);
      NamedAreDistinct(added, NameSet(entries), ren);
      ByNameMovesSpecs(entries + named);
      assert Specs(entries + named) == Specs(entries) + Specs(named);
    }
  }

  /**
    The names of the result are strictly ascending, as those of a name tree have to be, exactly when the names of the
    first document are distinct: those of the others are made so, its own are only sorted.
   */
  lemma MergedNamesAscendIff(first: Files, rest: seq<Files>, rens: seq<Id -> Id>)
    requires |rens| == |rest|
    ensures StrictlyAscending(Embedded(Merged(first, rest, rens))) <==> NoDup(Names(Embedded(first)))
  {
    MergedKeepsDistinct(first, rest, rens);
    if StrictlyAscending(Embedded(Merged(first, rest, rens))) {
      StrictMeansDistinct(Embedded(Merged(first, rest, rens)));
    }
  }

  /** A name that stands twice in the first document stands twice in the merge. */
  lemma SameNamesStay()
    ensures var first := Files(Some(Node([("a.txt", Indirect(1)), ("a.txt", Indirect(2))], [])), []);
      !StrictlyAscending(Embedded(Merged(first, [], [])))
  {
    var first := Files(Some(Node([("a.txt", Indirect(1)), ("a.txt", Indirect(2))], [])), []);
    assert Embedded(first) == [("a.txt", Indirect(1)), ("a.txt", Indirect(2))];
    assert Names(Embedded(first))[0] == Names(Embedded(first))[1];
    MergedNamesAscendIff(first, [], []);
  }

  lemma {:induction false} MergedKeepsDistinct(first: Files, rest: seq<Files>, rens: seq<Id -> Id>)
    requires |rens| == |rest|
    ensures NoDup(Names(Embedded(Merged(first, rest, rens)))) <==> NoDup(Names(Embedded(first)))
    ensures NoDup(Names(Embedded(first))) ==> StrictlyAscending(Embedded(Merged(first, rest, rens)))
  {
    if rest == [] {
      TidiedReadsBack(first);
      ByNameMovesNames(Embedded(first));
      ByNameIsStrict(Embedded(first));
    } else {
      MergedKeepsDistinct(first, rest[..|rest| - 1], rens[..|rest| - 1]);
      AddFilesKeepsDistinct(Merged(first, rest[..|rest| - 1], rens[..|rest| - 1]), rest[|rest| - 1], rens[|rest| - 1]);
    }
  }

  /** The result embeds the files of every document, each exactly as often as the documents did. */
  lemma {:induction false} MergedFilesConserved(first: Files, rest: seq<Files>, rens: seq<Id -> Id>)
    requires |rens| == |rest|
    ensures multiset(Specs(Embedded(Merged(first, rest, rens)))) == multiset(AllEmbedded(first, rest, rens))
  {
    if rest == [] {
      TidiedReadsBack(first);
      ByNameMovesSpecs(Embedded(first));
    } else {
      MergedFilesConserved(first, rest[..|rest| - 1], rens[..|rest| - 1]);
      AddFilesConserves(Merged(first, rest[..|rest| - 1], rens[..|rest| - 1]), rest[|rest| - 1], rens[|rest| - 1]);
    }
  }

  /** The associated files are those of the documents, each indirect one once, where it was first seen. */
  lemma {:induction false} MergedAssociatedOnce(first: Files, rest: seq<Files>, rens: seq<Id -> Id>)
    requires |rens| == |rest|
    ensures Merged(first, rest, rens).associated == Once(AllAssociated(first, rest, rens))
  {
    if rest == [] {
    } else {
      var last, ren := rest[|rest| - 1], rens[|rest| - 1];
      MergedAssociatedOnce(first, rest[..|rest| - 1], rens[..|rest| - 1]);
      var all := AllAssociated(first, rest[..|rest| - 1], rens[..|rest| - 1]);
      if Embedded(last) == [] {
        assert all + [] == all;
      } else {
        OnceIsFirstSeen(all, CopySpecs(last.associated, ren));
      }
    }
  }

  /** Documents merged later add to the end of the list only. */
  lemma {:induction false} MergedAssociatedGrows(first: Files, rest: seq<Files>, rens: seq<Id -> Id>, j: nat)
    requires |rens| == |rest| && j <= |rest|
    ensures Merged(first, rest[..j], rens[..j]).associated <= Merged(first, rest, rens).associated
  {
    var n := |rest|;
    if j == n {
      assert rest[..j] == rest && rens[..j] == rens;
    } else {
      MergedAssociatedGrows(first, rest[..n - 1], rens[..n - 1], j);
      assert rest[..n - 1][..j] == rest[..j] && rens[..n - 1][..j] == rens[..j];
      MergedAssociatedOnce(first, rest, rens);
      MergedAssociatedOnce(first, rest[..n - 1], rens[..n - 1]);
      OnceIsFirstSeen(AllAssociated(first, rest[..n - 1], rens[..n - 1]),
                      if Embedded(rest[n - 1]) == [] then [] else CopySpecs(rest[n - 1].associated, rens[n - 1]));
    }
  }

  /** A document that associates an indirect file with itself embeds some file. */
  predicate EmbedsIfAssociates(f: Files) {
    (exists s :: s in f.associated && s.Indirect?) ==> Embedded(f) != []
  }

  /** The indirect files that a document associates with itself are listed, as copies. */
  predicate ListsCopies(f: Files, ren: Id -> Id, listed: seq<Spec>) {
    forall s :: s in f.associated && s.Indirect? ==> CopySpec(s, ren) in listed
  }

  /** Every indirect file that a document associates with itself is listed in the merge. */
  predicate AllListed(first: Files, rest: seq<Files>, rens: seq<Id -> Id>)
    requires |rens| == |rest|
  {
    var listed := Merged(first, rest, rens).associated;
    (forall s :: s in first.associated ==> s in listed)
    && forall i :: 0 <= i < |rest| ==> ListsCopies(rest[i], rens[i], listed)
  }

  /** The later documents' files are copied to new objects, each document's to others. */
  ghost predicate FilesApart(first: Files, rens: seq<Id -> Id>) {
    (forall i, x :: 0 <= i < |rens| ==> Indirect(rens[i](x)) !in first.associated)
    && (forall i, j, x, y :: 0 <= i < j < |rens| ==> rens[i](x) != rens[j](y))
  }

  /** Where an associated file of a merge comes from. */
  ghost predicate ListedFrom(f: Files, ren: Id -> Id, x: Spec) {
    Embedded(f) != [] && x in CopySpecs(f.associated, ren)
  }

  lemma {:induction false} AllAssociatedFrom(first: Files, rest: seq<Files>, rens: seq<Id -> Id>, x: Spec)
    requires |rens| == |rest|
    ensures x in AllAssociated(first, rest, rens)
       <==> x in first.associated || exists i :: 0 <= i < |rest| && ListedFrom(rest[i], rens[i], x)
  {
    if rest != [] {
      var n := |rest| - 1;
      AllAssociatedFrom(first, rest[..n], rens[..n], x);
      assert x in AllAssociated(first, rest, rens)
        <==> x in AllAssociated(first, rest[..n], rens[..n]) || ListedFrom(rest[n], rens[n], x);
      if exists i :: 0 <= i < |rest| && ListedFrom(rest[i], rens[i], x) {
        var i :| 0 <= i < |rest| && ListedFrom(rest[i], rens[i], x);
        assert i == n || ListedFrom(rest[..n][i], rens[..n][i], x);
      }
      if exists i :: 0 <= i < n && ListedFrom(rest[..n][i], rens[..n][i], x) {
        var i :| 0 <= i < n && ListedFrom(rest[..n][i], rens[..n][i], x);
        assert ListedFrom(rest[i], rens[i], x);
      }
    }
  }

  lemma CopiedSpecMember(specs: seq<Spec>, ren: Id -> Id, s: Spec)
    requires s in specs
    ensures CopySpec(s, ren) in CopySpecs(specs, ren)
  {
    var k :| 0 <= k < |specs| && specs[k] == s;
    assert CopySpecs(specs, ren)[k] == CopySpec(s, ren);
  }

  lemma CopiedSpecOrigin(specs: seq<Spec>, ren: Id -> Id, x: Spec) returns (s: Spec)
    requires x in CopySpecs(specs, ren)
    ensures s in specs && x == CopySpec(s, ren)
  {
    var k :| 0 <= k < |specs| && CopySpecs(specs, ren)[k] == x;
    s := specs[k];
  }

  /** An indirect file of one of the later documents is listed exactly if that document embeds some file. */
  lemma ListedIffEmbeds(first: Files, rest: seq<Files>, rens: seq<Id -> Id>, i: nat, s: Spec)
    requires |rens| == |rest| && FilesApart(first, rens) && i < |rest| && s in rest[i].associated && s.Indirect?
    ensures CopySpec(s, rens[i]) in AllAssociated(first, rest, rens) <==> Embedded(rest[i]) != []
  {
    var x := CopySpec(s, rens[i]);
    AllAssociatedFrom(first, rest, rens, x);
    CopiedSpecMember(rest[i].associated, rens[i], s);
    forall j | 0 <= j < |rest| && ListedFrom(rest[j], rens[j], x) ensures j == i {
      var t := CopiedSpecOrigin(rest[j].associated, rens[j], x);
      assert rens[j](t.id) == rens[i](s.id);
    }
    if Embedded(rest[i]) != [] {
      assert ListedFrom(rest[i], rens[i], x);
    }
  }

  /**
    Every indirect file that any document associates with itself is listed in the merge if and only if each later
    document that associates one also embeds some file: of one that embeds none, what it associates is left out.
   */
  lemma AllListedIff(first: Files, rest: seq<Files>, rens: seq<Id -> Id>)
    requires |rens| == |rest| && FilesApart(first, rens)
    ensures AllListed(first, rest, rens) <==> forall i :: 0 <= i < |rest| ==> EmbedsIfAssociates(rest[i])
  {
    var all, listed := AllAssociated(first, rest, rens), Merged(first, rest, rens).associated;
    MergedAssociatedOnce(first, rest, rens);
    OnceListsEachOnce(all);
    forall s | s in first.associated ensures s in listed {
      AllAssociatedFrom(first, rest, rens, s);
    }
    forall i | 0 <= i < |rest| ensures ListsCopies(rest[i], rens[i], listed) <==> EmbedsIfAssociates(rest[i]) {
      OneListsIff(first, rest, rens, i, listed);
    }
  }

  lemma OneListsIff(first: Files, rest: seq<Files>, rens: seq<Id -> Id>, i: nat, listed: seq<Spec>)
    requires |rens| == |rest| && FilesApart(first, rens) && i < |rest|
    requires forall x :: x in listed <==> x in AllAssociated(first, rest, rens)
    ensures ListsCopies(rest[i], rens[i], listed) <==> EmbedsIfAssociates(rest[i])
  {
    forall s | s in rest[i].associated && s.Indirect?
      ensures CopySpec(s, rens[i]) in listed <==> Embedded(rest[i]) != []
    {
      ListedIffEmbeds(first, rest, rens, i, s);
    }
  }

  /** A document that embeds nothing loses what it associates. */
  lemma AssociatedIsLeftOut()
    ensures Merged(Files(None, []), [Files(None, [Indirect(7)])], [(x: Id) => x + 10]).associated == []
  {
    var first, next := Files(None, []), Files(None, [Indirect(7)]);
    assert [next][..0] == [] && Merged(first, [next][..0], [(x: Id) => x + 10][..0]) == first;
  }

  /** Every embedded file is associated. */
  ghost predicate AllAreAssociated(f: Files) {
    forall s :: s in Specs(Embedded(f)) ==> s in f.associated
  }

  /** Every embedded file of the result is associated, if that was so in each document, as PDF/A-4f requires. */
  lemma {:induction false} MergedFilesAreAssociated(first: Files, rest: seq<Files>, rens: seq<Id -> Id>)
    requires |rens| == |rest| && AllAreAssociated(first) && forall i :: 0 <= i < |rest| ==> AllAreAssociated(rest[i])
    ensures AllAreAssociated(Merged(first, rest, rens))
  {
    MergedFilesConserved(first, rest, rens);
    MergedAssociatedOnce(first, rest, rens);
    OnceListsEachOnce(AllAssociated(first, rest, rens));
    AllEmbeddedAreAssociated(first, rest, rens);
    var specs := Specs(Embedded(Merged(first, rest, rens)));
    forall s | s in specs ensures s in AllAssociated(first, rest, rens) {
      assert s in multiset(specs);
      assert s in multiset(AllEmbedded(first, rest, rens));
    }
  }

  lemma {:induction false} AllEmbeddedAreAssociated(first: Files, rest: seq<Files>, rens: seq<Id -> Id>)
    requires |rens| == |rest| && AllAreAssociated(first) && forall i :: 0 <= i < |rest| ==> AllAreAssociated(rest[i])
    ensures forall s :: s in AllEmbedded(first, rest, rens) ==> s in AllAssociated(first, rest, rens)
  {
    if rest != [] {
      var last, ren := rest[|rest| - 1], rens[|rest| - 1];
      AllEmbeddedAreAssociated(first, rest[..|rest| - 1], rens[..|rest| - 1]);
      CopiesAreAssociated(Specs(Embedded(last)), last.associated, ren);
    }
  }

  lemma CopiesAreAssociated(a: seq<Spec>, b: seq<Spec>, ren: Id -> Id)
    requires forall s :: s in a ==> s in b
    ensures forall s :: s in CopySpecs(a, ren) ==> s in CopySpecs(b, ren)
  {
    forall s | s in CopySpecs(a, ren) ensures s in CopySpecs(b, ren) {
      var i :| 0 <= i < |a| && CopySpecs(a, ren)[i] == s;
      assert a[i] in b;
      var j :| 0 <= j < |b| && b[j] == a[i];
      assert CopySpecs(b, ren)[j] == s;
    }
  }
}
