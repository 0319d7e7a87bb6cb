/**
  The keys of a merge, whatever the documents' own parent trees hold: when no two pages or annotations share a key, and
  the parent tree holds the keys in use and no others.
 */
module MergeKeys {
  import opened Wrappers
  import opened NumberTree
  import opened StructTree
  import opened StructCopy
  import opened TaggedPdf
  import opened TaggedLaw
  import opened AddLaw
  import opened Merge
  import EmbeddedFiles

  /** Of a tagged document: keys are distinct, and the parent tree holds those in use and no others. */
  ghost predicate KeysFit(d: Doc) {
    d.structure.Some? ==> KeysDistinct(d.pages, d.annots) && KeysMatch(d.pages, d.annots, Entries(d))
  }

  /** Pages that can be told apart, whose keys, if the document is tagged, are distinct and not negative. */
  ghost predicate Keyed(d: Doc) {
    PagesDistinct(d.pages)
    && (d.structure.Some? ==> KeysDistinct(d.pages, d.annots) && forall k :: k in AllKeys(d.pages, d.annots) ==> k >= 0)
  }

  /** The keys of its pages, less the placeholder, have entries in its parent tree. */
  ghost predicate KeysCatered(d: Doc) {
    d.structure.Some? ==> KeysStand(AllKeys(Strip(d).pages, d.annots), Entries(d))
  }

  ghost predicate AllCatered(docs: seq<Doc>) {
    forall i :: 0 <= i < |docs| ==> KeysCatered(docs[i])
  }

  lemma AllCateredLast(docs: seq<Doc>)
    requires docs != []
    ensures AllCatered(docs) <==> AllCatered(Front(docs)) && KeysCatered(Last(docs))
  {
    assert docs == Front(docs) + [Last(docs)];
  }

  // ----- One addition -------------------------------------------------------------------------

  lemma OwnKeysWereDistinct(own: seq<Page>, was: map<Id, Option<int>>, copies: seq<Page>, annots: map<Id, Option<int>>,
                            atStart: bool)
    requires KeysDistinct(Joined(own, copies, atStart), annots)
    requires forall p :: p in own ==> KeysOf(p, annots) == KeysOf(p, was)
    ensures KeysDistinct(own, was)
  {
    JoinedMembers(own, copies, atStart);
  }

  /** A key that own pages and copies both hold is held twice. */
  lemma NotHeldByBoth(own: seq<Page>, copies: seq<Page>, annots: map<Id, Option<int>>, atStart: bool, k: int)
    requires KeysDistinct(Joined(own, copies, atStart), annots) && TaggedLaw.Apart(own, copies)
    ensures !(HoldsKey(own, annots, k) && HoldsKey(copies, annots, k))
  {
    JoinedMembers(own, copies, atStart);
    forall p, q | p in own && q in copies && k in KeysOf(p, annots) ensures k !in KeysOf(q, annots) {
      assert p != q;
    }
  }

  lemma OwnEntryWasHeld(own: seq<Page>, copies: seq<Page>, annots: map<Id, Option<int>>, ownEntries: map<int, Entry>,
                        keys: seq<int>, source: map<int, Entry>, ren: Id -> Id, atStart: bool, k: int)
    requires KeysMatch(Joined(own, copies, atStart), annots,
                       CopyEntries(ownEntries, source, keys, NextKey(ownEntries), ren))
    requires forall x :: HoldsKey(copies, annots, x) <==> IsShifted(x, keys, NextKey(ownEntries))
    requires (forall x :: x in keys ==> x >= 0) && k in ownEntries
    ensures HoldsKey(own, annots, k) && k >= 0 && !ownEntries[k].Null?
  {
    var offset := NextKey(ownEntries);
    assert !IsShifted(k, keys, offset) by {
      var was := k - offset;
      assert was < 0;
    }
    CopyEntriesLeaves(ownEntries, source, keys, offset, ren, k);
    JoinedHoldsKey(own, copies, annots, atStart, k);
  }

  lemma HeldKeyWasEntry(own: seq<Page>, copies: seq<Page>, annots: map<Id, Option<int>>, ownEntries: map<int, Entry>,
                        keys: seq<int>, source: map<int, Entry>, ren: Id -> Id, atStart: bool, k: int)
    requires KeysDistinct(Joined(own, copies, atStart), annots) && TaggedLaw.Apart(own, copies)
    requires KeysMatch(Joined(own, copies, atStart), annots,
                       CopyEntries(ownEntries, source, keys, NextKey(ownEntries), ren))
    requires forall x :: HoldsKey(copies, annots, x) <==> IsShifted(x, keys, NextKey(ownEntries))
    requires HoldsKey(own, annots, k)
    ensures k in ownEntries
  {
    JoinedHoldsKey(own, copies, annots, atStart, k);
    CopyEntriesComeFrom(ownEntries, source, keys, NextKey(ownEntries), ren, k);
    NotHeldByBoth(own, copies, annots, atStart, k);
  }

  /**
    What fits after an addition fitted before it, and the source's parent tree catered for the keys that were taken.
   */
  lemma FittedBefore(own: seq<Page>, was: map<Id, Option<int>>, copies: seq<Page>, annots: map<Id, Option<int>>,
                     ownEntries: map<int, Entry>, keys: seq<int>, source: map<int, Entry>, ren: Id -> Id, atStart: bool)
    requires KeysDistinct(Joined(own, copies, atStart), annots) && TaggedLaw.Apart(own, copies)
    requires KeysMatch(Joined(own, copies, atStart), annots,
                       CopyEntries(ownEntries, source, keys, NextKey(ownEntries), ren))
    requires forall x :: HoldsKey(copies, annots, x) <==> IsShifted(x, keys, NextKey(ownEntries))
    requires forall p :: p in own ==> KeysOf(p, annots) == KeysOf(p, was)
    requires forall x :: x in keys ==> x >= 0
    ensures KeysDistinct(own, was) && KeysMatch(own, was, ownEntries) && KeysStand(keys, source)
  {
    OwnKeysWereDistinct(own, was, copies, annots, atStart);
    forall k ensures HoldsKey(own, annots, k) <==> HoldsKey(own, was, k) {
    }
    forall k | k in ownEntries ensures HoldsKey(own, was, k) && k >= 0 && !ownEntries[k].Null? {
      OwnEntryWasHeld(own, copies, annots, ownEntries, keys, source, ren, atStart, k);
    }
    forall k | HoldsKey(own, was, k) ensures k in ownEntries {
      HeldKeyWasEntry(own, copies, annots, ownEntries, keys, source, ren, atStart, k);
    }
    forall k | k in keys ensures k >= 0 && k in source && !source[k].Null? {
      assert IsShifted(k + NextKey(ownEntries), keys, NextKey(ownEntries));
      HeldKeyStood(copies, annots, ownEntries, keys, source, ren, own, atStart, k);
    }
  }

  lemma FitsAfterIff(own: seq<Page>, was: map<Id, Option<int>>, ownEntries: map<int, Entry>, pages: seq<Page>,
                     srcAnnots: map<Id, Option<int>>, source: map<int, Entry>, copies: seq<Page>,
                     annots: map<Id, Option<int>>, ren: Id -> Id, atStart: bool)
    requires KeysDistinct(pages, srcAnnots) && forall k :: k in AllKeys(pages, srcAnnots) ==> k >= 0
    requires forall p :: p in own ==> KeysOf(p, annots) == KeysOf(p, was)
    requires PagesDistinct(copies) && TaggedLaw.Apart(own, copies)
    requires ShiftedCopies(pages, srcAnnots, copies, annots, ren, NextKey(ownEntries))
    ensures var keys := AllKeys(pages, srcAnnots);
      KeysDistinct(Joined(own, copies, atStart), annots)
      && KeysMatch(Joined(own, copies, atStart), annots,
                   CopyEntries(ownEntries, source, keys, NextKey(ownEntries), ren))
      <==> KeysDistinct(own, was) && KeysMatch(own, was, ownEntries) && KeysStand(keys, source)
  {
    var keys, offset := AllKeys(pages, srcAnnots), NextKey(ownEntries);
    if KeysDistinct(own, was) && KeysMatch(own, was, ownEntries) && KeysStand(keys, source) {
      KeysAfter(own, was, ownEntries, pages, srcAnnots, source, copies, annots, ren, atStart);
    }
    if KeysDistinct(Joined(own, copies, atStart), annots)
       && KeysMatch(Joined(own, copies, atStart), annots, CopyEntries(ownEntries, source, keys, offset, ren)) {
      forall k ensures HoldsKey(copies, annots, k) <==> IsShifted(k, keys, offset) {
        CopiesHoldShiftedKeys(pages, srcAnnots, copies, annots, ren, offset, k);
      }
      FittedBefore(own, was, copies, annots, ownEntries, keys, source, ren, atStart);
    }
  }

  lemma SelectedKeys(pages: seq<Page>, d: Doc)
    requires Keyed(d) && d.structure.Some? && Selected(pages, d)
    ensures KeysDistinct(pages, d.annots) && forall k :: k in AllKeys(pages, d.annots) ==> k >= 0
  {
    SelectedDistinct(pages, d);
    AllKeysHold(pages, d.annots);
    AllKeysHold(d.pages, d.annots);
    forall k | k in AllKeys(pages, d.annots) ensures k >= 0 {
      assert HoldsKey(d.pages, d.annots, k);
    }
  }

  lemma AddedFits(target: Doc, source: Doc, pages: seq<Page>, ren: Id -> Id, atStart: bool)
    requires target.structure.Some? && source.structure.Some? && Injective(ren)
    ensures var all, annots := Joined(target.pages, AddedPages(target, pages, ren), atStart),
                               AddedAnnots(target, source, pages, ren);
      Add(target, source, pages, ren, atStart).pages == all
      && (KeysFit(Add(target, source, pages, ren, atStart))
          <==> KeysDistinct(all, annots) && KeysMatch(all, annots, AddedEntries(target, source, pages, ren)))
  {
    ReadWritten(AddedEntries(target, source, pages, ren));
  }

  lemma AddTaggedFitsIff(target: Doc, source: Doc, pages: seq<Page>, ren: Id -> Id, atStart: bool)
    requires target.structure.Some? && source.structure.Some? && PagesDistinct(target.pages) && Fresh(ren, target)
    requires Keyed(source) && Selected(pages, source)
    ensures PagesDistinct(Add(target, source, pages, ren, atStart).pages)
    ensures KeysFit(Add(target, source, pages, ren, atStart))
       <==> KeysFit(target) && KeysStand(AllKeys(pages, source.annots), Entries(source))
  {
    var copies, annots := AddedPages(target, pages, ren), AddedAnnots(target, source, pages, ren);
    AddedPagesFacts(target, source, pages, ren);
    JoinedPagesDistinct(target.pages, copies, atStart);
    SelectedKeys(pages, source);
    forall p | p in target.pages ensures KeysOf(p, annots) == KeysOf(p, target.annots) {
      OwnKeysStay(p, target.annots, annots);
    }
    AddedFits(target, source, pages, ren, atStart);
    FitsAfterIff(target.pages, target.annots, Entries(target), pages, source.annots, Entries(source), copies, annots,
                 ren, atStart);
  }

  lemma KeylessPagesFitIff(own: seq<Page>, was: map<Id, Option<int>>, entries: map<int, Entry>, added: seq<Page>,
                           annots: map<Id, Option<int>>, atStart: bool)
    requires forall p :: p in own ==> KeysOf(p, annots) == KeysOf(p, was)
    requires Unkeyed(added, annots)
    ensures KeysDistinct(Joined(own, added, atStart), annots) && KeysMatch(Joined(own, added, atStart), annots, entries)
       <==> KeysDistinct(own, was) && KeysMatch(own, was, entries)
  {
    JoinedMembers(own, added, atStart);
    forall k ensures HoldsKey(Joined(own, added, atStart), annots, k) <==> HoldsKey(own, was, k) {
      JoinedHoldsKey(own, added, annots, atStart, k);
      assert HoldsKey(own, annots, k) <==> HoldsKey(own, was, k);
    }
  }

  lemma AddUntaggedFitsIff(target: Doc, source: Doc, pages: seq<Page>, ren: Id -> Id, atStart: bool)
    requires target.structure.Some? && source.structure.None? && PagesDistinct(target.pages) && Fresh(ren, target)
    requires PagesDistinct(source.pages) && Selected(pages, source)
    ensures PagesDistinct(Add(target, source, pages, ren, atStart).pages)
    ensures KeysFit(Add(target, source, pages, ren, atStart)) <==> KeysFit(target)
  {
    var copies, after := DetachPages(CopyPages(pages, ren)), Add(target, source, pages, ren, atStart);
    DetachedPagesFacts(target, source, pages, ren);
    JoinedPagesDistinct(target.pages, copies, atStart);
    forall p | p in target.pages ensures KeysOf(p, after.annots) == KeysOf(p, target.annots) {
      OwnKeysStay(p, target.annots, after.annots);
    }
    KeylessPagesFitIff(target.pages, target.annots, Entries(target), copies, after.annots, atStart);
  }

  // ----- Whole merges -------------------------------------------------------------------------

  lemma StripKeyed(d: Doc)
    requires Keyed(d)
    ensures Keyed(Strip(d)) && Selected(Strip(d).pages, d) && Strip(d).annots == d.annots
    ensures Strip(d).structure.Some? <==> d.structure.Some?
  {
    if StartsWithPlaceholder(d) {
      var rest := d.pages[1..];
      assert d.pages == [d.pages[0]] + rest;
      NoDupParts([d.pages[0]], rest);
      if d.structure.Some? {
        SelectedKeys(rest, d);
      }
    }
  }

  /** Stripped of its placeholder a document has entries for the same of the keys that are left. */
  lemma StripKeepsEntries(d: Doc)
    requires Keyed(d) && d.structure.Some?
    ensures Strip(d).structure.Some?
    ensures KeysStand(AllKeys(Strip(d).pages, d.annots), Entries(Strip(d))) <==> KeysCatered(d)
  {
    if StartsWithPlaceholder(d) {
      var rest, left := d.pages[1..], WithoutKeys(Entries(d), KeysOf(d.pages[0], d.annots));
      ReadWritten(left);
      assert Entries(Strip(d)) == left;
      AllKeysHold(rest, d.annots);
      assert d.pages == [d.pages[0]] + rest;
      NoDupParts([d.pages[0]], rest);
      assert d.pages[0] in [d.pages[0]];
      forall k | k in AllKeys(rest, d.annots) ensures k !in KeysOf(d.pages[0], d.annots) {
        var p :| p in rest && k in KeysOf(p, d.annots);
        assert p != d.pages[0];
      }
    }
  }

  /** Documents whose keys can be told apart, each copied to objects new to the merge so far. */
  ghost predicate KeyedMerge(first: Doc, rest: seq<Doc>, rens: seq<Id -> Id>) {
    |rens| == |rest| && AllInjective(rens)
    && if rest == [] then PagesDistinct(first.pages) && first.structure.Some?
       else KeyedMerge(first, Front(rest), Front(rens)) && Keyed(Last(rest))
            && Fresh(Last(rens), MergeDocs(first, Front(rest), Front(rens)))
  }

  lemma ExtendedFitsIff(merged: Doc, next: Doc, ren: Id -> Id)
    requires merged.structure.Some? && PagesDistinct(merged.pages) && Fresh(ren, merged) && Keyed(next)
    ensures Extended(merged, next, ren).structure.Some? && PagesDistinct(Extended(merged, next, ren).pages)
    ensures KeysFit(Extended(merged, next, ren)) <==> KeysFit(merged) && KeysCatered(next)
  {
    var source := Strip(next);
    StripKeyed(next);
    if next.structure.Some? {
      StripKeepsEntries(next);
      AddTaggedFitsIff(merged, source, source.pages, ren, false);
    } else {
      AddUntaggedFitsIff(merged, source, source.pages, ren, false);
    }
  }

  /**
    In a merge of any number of documents no two pages or annotations share a key, and the parent tree holds the keys in
    use and no others, if and only if that is so of the first, less its placeholder, and each later tagged document has
    entries for all keys of the pages taken from it.
   */
  lemma {:induction false} MergeKeysFitIff(first: Doc, rest: seq<Doc>, rens: seq<Id -> Id>)
    requires KeyedMerge(first, rest, rens)
    ensures MergeDocs(first, rest, rens).structure.Some? && PagesDistinct(MergeDocs(first, rest, rens).pages)
    ensures KeysFit(MergeDocs(first, rest, rens))
       <==> KeysFit(Strip(first)) && AllCatered(rest)
  {
    if rest == [] {
      if StartsWithPlaceholder(first) {
        assert first.pages == [first.pages[0]] + first.pages[1..];
        NoDupParts([first.pages[0]], first.pages[1..]);
      }
    } else {
      MergeKeysFitIff(first, Front(rest), Front(rens));
      ExtendedFitsIff(MergeDocs(first, Front(rest), Front(rens)), Last(rest), Last(rens));
      AllCateredLast(rest);
    }
  }

  // ----- A merge whose keys do not fit --------------------------------------------------------

  /** A tagged document whose page holds a key that its parent tree does not. */
  function Uncatered(): Doc {
    Doc([Page(1, Some(5), [], false)], map[],
        Some(Structure(Element(10, "Document", None, None, []), Node([], []), None)), Some("en"),
        EmbeddedFiles.Files(None, []))
  }

  lemma UncateredIsKeyed()
    ensures Keyed(Uncatered()) && Strip(Uncatered()) == Uncatered()
    ensures AllKeys(Uncatered().pages, Uncatered().annots) == [5]
    ensures Entries(Uncatered()) == map[] && !KeysCatered(Uncatered())
  {
    var d := Uncatered();
    var page := d.pages[0];
    assert d.pages[1..] == [] && KeysOf(page, d.annots) == [5];
    assert page in d.pages;
    assert 5 in AllKeys(d.pages, d.annots);
  }

  /** A key the source has no entry for adds none. */
  lemma NothingTaken(own: map<int, Entry>, key: int, offset: int, ren: Id -> Id)
    ensures CopyEntries(own, map[], [key], offset, ren) == own
  {
    assert [key][1..] == [];
  }

  lemma UncateredAdds(target: Doc, ren: Id -> Id)
    requires target.structure.Some?
    ensures AddedEntries(target, Uncatered(), Uncatered().pages, ren) == Entries(target)
    ensures AddedPages(target, Uncatered().pages, ren) == [Page(ren(1), Some(5 + NextKey(Entries(target))), [], false)]
  {
    UncateredIsKeyed();
    NothingTaken(Entries(target), 5, NextKey(Entries(target)), ren);
    OnePageAdded(ren, NextKey(Entries(target)));
  }

  lemma OnePageAdded(ren: Id -> Id, offset: int)
    ensures ShiftPages(CopyPages(Uncatered().pages, ren), offset) == [Page(ren(1), Some(5 + offset), [], false)]
  {
    assert CopyPages(Uncatered().pages, ren) == [Page(ren(1), Some(5), [], false)];
  }

  /** Adding it shifts its key past the target's entries, and leaves these as they are. */
  lemma UncateredShifts(target: Doc, ren: Id -> Id)
    requires target.structure.Some? && Injective(ren)
    ensures var after := Extended(target, Uncatered(), ren);
      after.structure.Some? && Entries(after) == Entries(target)
      && after.pages == target.pages + [Page(ren(1), Some(5 + NextKey(Entries(target))), [], false)]
  {
    UncateredIsKeyed();
    UncateredAdds(target, ren);
    ReadWritten(Entries(target));
    var added := Add(target, Uncatered(), Uncatered().pages, ren, false);
    assert added.pages == target.pages + AddedPages(target, Uncatered().pages, ren);
    assert Entries(added) == Entries(target);
  }

  lemma SharedKey(pages: seq<Page>, annots: map<Id, Option<int>>, p: Page, q: Page, k: int)
    requires p in pages && q in pages && p != q && p.key == Some(k) && q.key == Some(k)
    ensures !KeysDistinct(pages, annots)
  {
    assert KeysOf(p, annots)[0] == k && KeysOf(q, annots)[0] == k;
    assert k in KeysOf(p, annots) && k in KeysOf(q, annots);
  }

  /** Two such documents, added one after the other, leave two pages with one key. */
  lemma TwoUncateredCollide(target: Doc, a: Id -> Id, b: Id -> Id)
    requires target.structure.Some? && Injective(a) && Fresh(b, Extended(target, Uncatered(), a))
    ensures var two := Extended(Extended(target, Uncatered(), a), Uncatered(), b); !KeysDistinct(two.pages, two.annots)
  {
    var one := Extended(target, Uncatered(), a);
    var two := Extended(one, Uncatered(), b);
    UncateredShifts(target, a);
    UncateredShifts(one, b);
    var k := 5 + NextKey(Entries(target));
    var p, q := Page(a(1), Some(k), [], false), Page(b(1), Some(k), [], false);
    assert one.pages[|one.pages| - 1] == p && two.pages[|two.pages| - 1] == q;
    assert p in one.pages;
    IdIsUsed(one, p);
    assert two.pages == one.pages + [q];
    SharedKey(two.pages, two.annots, p, q, k);
  }

  lemma IdIsUsed(d: Doc, p: Page)
    requires p in d.pages
    ensures p.id in UsedIds(d)
  {
    assert p.id in PageIds(d.pages) && PageIds(d.pages) <= UsedIds(d);
  }

  /** So a whole document and two of these make a merge whose keys are not distinct. */
  lemma MissingKeysCollide() returns (rens: seq<Id -> Id>)
    ensures Whole(SmallDocument()) && KeyedMerge(SmallDocument(), [Uncatered(), Uncatered()], rens)
    ensures var d := MergeDocs(SmallDocument(), [Uncatered(), Uncatered()], rens); !KeysDistinct(d.pages, d.annots)
  {
    var start := Started(SmallDocument());
    SmallDocumentIsWhole();
    UncateredIsKeyed();
    var a := FreshRenamingExists(start);
    var b := FreshRenamingExists(Extended(start, Uncatered(), a));
    rens := [a, b];
    TwoUncateredCollide(start, a, b);
    TwoMerged(SmallDocument(), Uncatered(), a, b);
  }

  lemma OneMerged(first: Doc, d: Doc, a: Id -> Id)
    requires Injective(a)
    ensures AllInjective([a]) && MergeDocs(first, [d], [a]) == Extended(Started(first), d, a)
    ensures (PagesDistinct(first.pages) && first.structure.Some? && Keyed(d) && Fresh(a, Started(first))) ==>
            KeyedMerge(first, [d], [a])
  {
    assert AllInjective([]) && AllInjective([a]);
    assert Front([d]) == [] && Front([a]) == [] && Last([d]) == d && Last([a]) == a;
    assert MergeDocs(first, [], []) == Started(first);
  }

  lemma TwoMerged(first: Doc, d: Doc, a: Id -> Id, b: Id -> Id)
    requires Injective(a) && Injective(b)
    ensures AllInjective([a, b]) && MergeDocs(first, [d, d], [a, b]) == Extended(Extended(Started(first), d, a), d, b)
    ensures (PagesDistinct(first.pages) && first.structure.Some? && Keyed(d)
             && Fresh(a, Started(first)) && Fresh(b, Extended(Started(first), d, a))) ==>
            KeyedMerge(first, [d, d], [a, b])
  {
    assert AllInjective([a, b]);
    OneMerged(first, d, a);
    assert Front([d, d]) == [d] && Front([a, b]) == [a] && Last([d, d]) == d && Last([a, b]) == b;
  }
}
