/** Adding pages of another document, tagged or not, keeps the law of a tagged document, and what each lookup finds. */
module AddLaw {
  import opened Wrappers
  import opened NumberTree
  import opened StructTree
  import opened StructCopy
  import opened TaggedPdf
  import opened TaggedLaw

  /** Sound documents, and what is asked of the pages taken and of the renaming. */
  ghost predicate Addable(target: Doc, source: Doc, pages: seq<Page>, ren: Id -> Id) {
    Sound(target) && Sound(source) && Fresh(ren, target) && Selected(pages, source)
  }

  lemma SelectedDistinct(pages: seq<Page>, source: Doc)
    requires PagesDistinct(source.pages) && Selected(pages, source)
    ensures PagesDistinct(pages)
    ensures KeysDistinct(source.pages, source.annots) ==> KeysDistinct(pages, source.annots)
  {
  }

  /** The pages of the result, and where their keys come from. */
  lemma AddedPagesFacts(target: Doc, source: Doc, pages: seq<Page>, ren: Id -> Id)
    requires target.structure.Some? && Fresh(ren, target) && PagesDistinct(source.pages) && Selected(pages, source)
    ensures PagesDistinct(pages) && PagesDistinct(AddedPages(target, pages, ren))
    ensures Apart(target.pages, AddedPages(target, pages, ren))
    ensures RenamedPages(pages, AddedPages(target, pages, ren), ren)
    ensures ShiftedCopies(pages, source.annots, AddedPages(target, pages, ren),
                          AddedAnnots(target, source, pages, ren), ren,
                          NextKey(Entries(target)))
    ensures forall p, a :: p in target.pages && a in p.annots ==>
      AnnotKey(AddedAnnots(target, source, pages, ren), a) == AnnotKey(target.annots, a)
    ensures forall x :: ren(x) !in PageIds(target.pages)
  {
    var offset := NextKey(Entries(target));
    SelectedDistinct(pages, source);
    FreshApart(target, AddedPages(target, pages, ren), pages, ren);
    CopiesDistinct(pages, AddedPages(target, pages, ren), ren);
    AddedPagesAreShiftedCopies(pages, target.annots, source.annots, ren, offset);
    OwnAnnotsKeepKeys(target, source.annots, pages, ren, offset);
  }

  lemma AddedKeys(target: Doc, source: Doc, pages: seq<Page>, ren: Id -> Id, atStart: bool)
    requires target.structure.Some? && source.structure.Some? && Addable(target, source, pages, ren)
    ensures var after, annots := Joined(target.pages, AddedPages(target, pages, ren), atStart),
        AddedAnnots(target, source, pages, ren);
      PagesDistinct(after) && KeysDistinct(after, annots)
      && KeysMatch(after, annots, AddedEntries(target, source, pages, ren))
  {
    var annots := AddedAnnots(target, source, pages, ren);
    AddedPagesFacts(target, source, pages, ren);
    SelectedDistinct(pages, source);
    JoinedPagesDistinct(target.pages, AddedPages(target, pages, ren), atStart);
    SelectedKeysStand(pages, source.pages, source.annots, Entries(source));
    forall p | p in target.pages ensures KeysOf(p, annots) == KeysOf(p, target.annots) {
      OwnKeysStay(p, target.annots, annots);
    }
    KeysAfter(target.pages, target.annots, Entries(target), pages, source.annots, Entries(source),
              AddedPages(target, pages, ren), annots, ren, atStart);
  }

  /** What is found from a page of the target stays what it was. */
  lemma AddedOwnLookup(target: Doc, source: Doc, pages: seq<Page>, ren: Id -> Id, p: Page, content: Content)
    requires target.structure.Some? && source.structure.Some? && Addable(target, source, pages, ren)
    requires p in target.pages
    ensures Lookup(p, AddedAnnots(target, source, pages, ren), AddedEntries(target, source, pages, ren), content)
         == Lookup(p, target.annots, Entries(target), content)
  {
    AddedPagesFacts(target, source, pages, ren);
    SelectedKeysStand(pages, source.pages, source.annots, Entries(source));
    OwnLookup(target.pages, target.annots, Entries(target), AddedAnnots(target, source, pages, ren),
              AllKeys(pages, source.annots), Entries(source), ren, p, content);
  }

  /** What is found from a copied page is the copy of what is found from its original. */
  lemma AddedCopyLookup(target: Doc, source: Doc, pages: seq<Page>, ren: Id -> Id, i: nat, content: Content)
    requires target.structure.Some? && source.structure.Some? && Addable(target, source, pages, ren) && i < |pages|
    ensures Lookup(AddedPages(target, pages, ren)[i], AddedAnnots(target, source, pages, ren),
                   AddedEntries(target, source, pages, ren), CopyContent(content, ren))
         == RenameRef(Lookup(pages[i], source.annots, Entries(source), content), ren)
  {
    AddedPagesFacts(target, source, pages, ren);
    SelectedKeysStand(pages, source.pages, source.annots, Entries(source));
    CopyLookup(Entries(target), pages, source.annots, Entries(source), AddedAnnots(target, source, pages, ren), ren,
               pages[i], AddedPages(target, pages, ren)[i], content);
  }

  predicate RefFollows(e: Option<Id>, copy: Option<Id>, ren: Id -> Id) {
    if e.Some? then copy == Some(ren(e.value)) else copy == None
  }

  /** An entry and its copy: for each MCID, or the one object, the copy of the element, and in the same place. */
  predicate EntryFollows(entry: Entry, copy: Entry, ren: Id -> Id) {
    match entry
    case Owners(elems, indirect) =>
      copy.Owners? && |copy.elems| == |elems| && RefFollows(indirect, copy.indirect, ren)
      && forall i :: 0 <= i < |elems| ==> RefFollows(elems[i], copy.elems[i], ren)
    case Owner(elem) => copy.Owner? && RefFollows(elem, copy.elem, ren)
    case Null => copy.Null?
  }

  /** The parent tree after adding: the target's entries as they were, and past them copies of the source's. */
  lemma AddedEntriesAre(target: Doc, source: Doc, pages: seq<Page>, ren: Id -> Id, atStart: bool, k: int)
    requires target.structure.Some? && source.structure.Some? && Addable(target, source, pages, ren)
    ensures Add(target, source, pages, ren, atStart).structure.Some?
    ensures EntriesAre(Entries(target), Entries(source), AllKeys(pages, source.annots), ren,
                       Entries(Add(target, source, pages, ren, atStart)), k)
  {
    AddedEntriesRead(target, source, pages, ren, atStart);
    SelectedKeysStand(pages, source.pages, source.annots, Entries(source));
    CopiedEntriesAre(Entries(target), Entries(source), AllKeys(pages, source.annots), ren, k);
  }

  /** An own entry is as it was, and the copy of one of the source's under its key, shifted. */
  predicate EntriesAre(own: map<int, Entry>, source: map<int, Entry>, keys: seq<int>, ren: Id -> Id,
                       after: map<int, Entry>, k: int)
  {
    (k in own ==> k in after && after[k] == own[k])
    && (k in keys ==>
          k in source && k + NextKey(own) in after && EntryFollows(source[k], after[k + NextKey(own)], ren))
  }

  lemma AddedEntriesRead(target: Doc, source: Doc, pages: seq<Page>, ren: Id -> Id, atStart: bool)
    requires target.structure.Some? && source.structure.Some? && Injective(ren)
    ensures Add(target, source, pages, ren, atStart).structure.Some?
    ensures Entries(Add(target, source, pages, ren, atStart)) == AddedEntries(target, source, pages, ren)
  {
    ReadWritten(AddedEntries(target, source, pages, ren));
  }

  lemma CopiedEntriesAre(own: map<int, Entry>, source: map<int, Entry>, keys: seq<int>, ren: Id -> Id, k: int)
    requires KeysStand(keys, source) && forall k :: k in own ==> k >= 0
    ensures EntriesAre(own, source, keys, ren, CopyEntries(own, source, keys, NextKey(own), ren), k)
  {
    EntriesAfter(own, source, keys, ren);
    if k in keys {
      CopyEntriesTakes(own, source, keys, NextKey(own), ren, k);
      CopiedEntryFollows(source[k], ren);
    }
  }

  lemma CopiedEntryFollows(entry: Entry, ren: Id -> Id)
    ensures EntryFollows(entry, CopyEntry(entry, ren), ren)
  {
  }

  lemma AddedTree(target: Doc, source: Doc, pages: seq<Page>, ren: Id -> Id, atStart: bool)
    requires target.structure.Some? && source.structure.Some? && Addable(target, source, pages, ren)
    ensures GoodTree(AddedDocument(target, source, pages, ren, atStart))
    ensures Items(AddedDocument(target, source, pages, ren, atStart))
         == Joined(Items(target.structure.value.document),
                   MovedItems(Items(source.structure.value.document), PageIds(pages), ren), atStart)
  {
    var document := target.structure.value.document;
    var ids := [document.id] + ElementIds(Descendants(document));
    forall n | 0 <= n < |ids| ensures ids[n] in UsedIds(target) {
      if n > 0 {
        assert Descendants(document)[n - 1] in Descendants(document);
      }
    }
    forall x ensures ren(x) !in ids {
      assert ren(x) !in UsedIds(target);
    }
    SplicedTree(document, source.structure.value.document, PageIds(pages), ren, MarkedLang(target.lang, source.lang),
                atStart);
  }

  lemma AddedInverse(target: Doc, source: Doc, pages: seq<Page>, ren: Id -> Id, atStart: bool)
    requires target.structure.Some? && source.structure.Some? && Addable(target, source, pages, ren)
    ensures Inverse(Joined(target.pages, AddedPages(target, pages, ren), atStart),
                    AddedAnnots(target, source, pages, ren),
                    AddedEntries(target, source, pages, ren),
                    Joined(Items(target.structure.value.document),
                           MovedItems(Items(source.structure.value.document), PageIds(pages), ren), atStart))
  {
    var annots, entries := AddedAnnots(target, source, pages, ren), AddedEntries(target, source, pages, ren);
    var own, other := Items(target.structure.value.document), Items(source.structure.value.document);
    var copies := AddedPages(target, pages, ren);
    AddedPagesFacts(target, source, pages, ren);
    ItemsOnPagesAfter(target.pages, own, pages, other, copies, ren, atStart);
    JoinedMembers(target.pages, copies, atStart);
    forall p, content, elem | p in Joined(target.pages, copies, atStart)
      ensures Agree(p, annots, entries, Joined(own, MovedItems(other, PageIds(pages), ren), atStart), content, elem)
    {
      if p in target.pages {
        AddedOwnPageAgrees(target, source, pages, ren, atStart, p, content, elem);
      } else {
        var i :| 0 <= i < |copies| && copies[i] == p;
        AddedCopyAgrees(target, source, pages, ren, atStart, i, content, elem);
      }
    }
  }

  lemma AddedOwnPageAgrees(target: Doc, source: Doc, pages: seq<Page>, ren: Id -> Id, atStart: bool, p: Page,
                           content: Content, elem: Id)
    requires target.structure.Some? && source.structure.Some? && Addable(target, source, pages, ren)
    requires p in target.pages
    ensures Agree(p, AddedAnnots(target, source, pages, ren), AddedEntries(target, source, pages, ren),
                  Joined(Items(target.structure.value.document),
                         MovedItems(Items(source.structure.value.document), PageIds(pages), ren),
                         atStart), content, elem)
  {
    AddedPagesFacts(target, source, pages, ren);
    AddedOwnLookup(target, source, pages, ren, p, content);
    assert p.id in PageIds(target.pages);
    AgreeOnOwnPage(p, target.annots, Entries(target), Items(target.structure.value.document),
                   AddedAnnots(target, source, pages, ren), AddedEntries(target, source, pages, ren),
                   Items(source.structure.value.document), PageIds(pages), ren, atStart, content, elem);
  }

  lemma AddedCopyAgrees(target: Doc, source: Doc, pages: seq<Page>, ren: Id -> Id, atStart: bool, i: nat,
                        content: Content, elem: Id)
    requires target.structure.Some? && source.structure.Some? && Addable(target, source, pages, ren) && i < |pages|
    ensures Agree(AddedPages(target, pages, ren)[i], AddedAnnots(target, source, pages, ren),
                  AddedEntries(target, source, pages, ren),
                  Joined(Items(target.structure.value.document),
                         MovedItems(Items(source.structure.value.document), PageIds(pages), ren),
                         atStart), content, elem)
  {
    var copy := AddedPages(target, pages, ren)[i];
    AddedPagesFacts(target, source, pages, ren);
    forall c ensures Lookup(copy, AddedAnnots(target, source, pages, ren), AddedEntries(target, source, pages, ren),
                            CopyContent(c, ren))
                  == RenameRef(Lookup(pages[i], source.annots, Entries(source), c), ren) {
      AddedCopyLookup(target, source, pages, ren, i, c);
    }
    assert pages[i] in source.pages;
    AgreeOnCopiedPage(pages[i], source.annots, Entries(source), Items(source.structure.value.document), copy,
                      AddedAnnots(target, source, pages, ren), AddedEntries(target, source, pages, ren),
                      Items(target.structure.value.document), PageIds(pages), ren, NextKey(Entries(target)), atStart,
                      content, elem);
  }

  /** Two tagged documents: the result keeps the law. */
  lemma AddTaggedKeepsWhole(target: Doc, source: Doc, pages: seq<Page>, ren: Id -> Id, atStart: bool)
    requires target.structure.Some? && source.structure.Some? && Addable(target, source, pages, ren)
    ensures Sound(Add(target, source, pages, ren, atStart))
    ensures Entries(Add(target, source, pages, ren, atStart)) == AddedEntries(target, source, pages, ren)
  {
    ReadWritten(AddedEntries(target, source, pages, ren));
    AddedTree(target, source, pages, ren, atStart);
    AddedKeys(target, source, pages, ren, atStart);
    AddedInverse(target, source, pages, ren, atStart);
  }

  // ----- A document without a structure -------------------------------------------------------

  lemma {:induction false} NoAnnotKeys(ids: seq<Id>, annots: map<Id, Option<int>>)
    requires forall i :: 0 <= i < |ids| ==> AnnotKey(annots, ids[i]).None?
    ensures AnnotKeys(ids, annots) == []
  {
    if ids != [] {
      assert forall i :: 0 <= i < |ids| - 1 ==> ids[1..][i] == ids[i + 1];
      NoAnnotKeys(ids[1..], annots);
    }
  }

  lemma DetachedPagesHoldNoKeys(copies: seq<Page>, annots: map<Id, Option<int>>)
    ensures forall p :: p in DetachPages(copies) ==> KeysOf(p, DetachAnnots(annots, copies)) == []
  {
    forall p | p in DetachPages(copies) ensures KeysOf(p, DetachAnnots(annots, copies)) == [] {
      var i :| 0 <= i < |copies| && DetachPages(copies)[i] == p;
      assert copies[i] in copies;
      forall n | 0 <= n < |p.annots| ensures AnnotKey(DetachAnnots(annots, copies), p.annots[n]).None? {
        assert copies[i].annots[n] in copies[i].annots;
      }
      NoAnnotKeys(p.annots, DetachAnnots(annots, copies));
    }
  }

  lemma DetachedKeepsOwnAnnots(target: Doc, other: map<Id, Option<int>>, copies: seq<Page>, ren: Id -> Id)
    requires Fresh(ren, target) && Apart(target.pages, copies)
    ensures forall p, a :: p in target.pages && a in p.annots ==>
      AnnotKey(DetachAnnots(target.annots + CopyAnnots(other, ren), copies), a) == AnnotKey(target.annots, a)
  {
    forall p, a | p in target.pages && a in p.annots
      ensures AnnotKey(DetachAnnots(target.annots + CopyAnnots(other, ren), copies), a) == AnnotKey(target.annots, a)
    {
      assert forall q :: q in copies ==> a !in q.annots;
      assert a in UsedIds(target);
      assert a !in CopyAnnots(other, ren);
    }
  }

  /** Pages added without their structure hold no keys, and the target's pages keep theirs. */
  lemma DetachedPagesFacts(target: Doc, source: Doc, pages: seq<Page>, ren: Id -> Id)
    requires Fresh(ren, target) && PagesDistinct(source.pages) && Selected(pages, source)
    ensures var copies := DetachPages(CopyPages(pages, ren));
      var annots := DetachAnnots(target.annots + CopyAnnots(source.annots, ren), CopyPages(pages, ren));
      PagesDistinct(copies) && Apart(target.pages, copies)
      && (forall p :: p in copies ==> KeysOf(p, annots) == [])
      && (forall p, a :: p in target.pages && a in p.annots ==> AnnotKey(annots, a) == AnnotKey(target.annots, a))
      && (forall p :: p in copies ==> p.id !in PageIds(target.pages))
  {
    var copies := CopyPages(pages, ren);
    SelectedDistinct(pages, source);
    CopiesDistinct(pages, DetachPages(copies), ren);
    FreshApart(target, copies, pages, ren);
    FreshApart(target, DetachPages(copies), pages, ren);
    DetachedPagesHoldNoKeys(copies, target.annots + CopyAnnots(source.annots, ren));
    DetachedKeepsOwnAnnots(target, source.annots, copies, ren);
  }

  lemma KeylessPagesKeepKeys(own: seq<Page>, annots: map<Id, Option<int>>, entries: map<int, Entry>, added: seq<Page>,
                             annots': map<Id, Option<int>>, atStart: bool)
    requires KeysDistinct(own, annots) && KeysMatch(own, annots, entries)
    requires forall p :: p in own ==> KeysOf(p, annots') == KeysOf(p, annots)
    requires forall p :: p in added ==> KeysOf(p, annots') == []
    ensures KeysDistinct(Joined(own, added, atStart), annots')
    ensures KeysMatch(Joined(own, added, atStart), annots', entries)
  {
    JoinedMembers(own, added, atStart);
    forall k ensures k in entries <==> HoldsKey(Joined(own, added, atStart), annots', k) {
      JoinedHoldsKey(own, added, annots', atStart, k);
      assert HoldsKey(own, annots', k) <==> HoldsKey(own, annots, k);
      assert !HoldsKey(added, annots', k);
    }
  }

  lemma KeylessPagesKeepInverse(own: seq<Page>, annots: map<Id, Option<int>>, entries: map<int, Entry>,
                                items: seq<Item>, added: seq<Page>, annots': map<Id, Option<int>>, atStart: bool)
    requires Inverse(own, annots, entries, items)
    requires forall p, a :: p in own && a in p.annots ==> AnnotKey(annots', a) == AnnotKey(annots, a)
    requires forall p :: p in added ==> KeysOf(p, annots') == [] && p.id !in PageIds(own)
    ensures Inverse(Joined(own, added, atStart), annots', entries, items)
  {
    JoinedMembers(own, added, atStart);
    forall p, content, elem | p in Joined(own, added, atStart)
      ensures Agree(p, annots', entries, items, content, elem)
    {
      KeyForIsHeld(p, annots', content);
      if p in own {
        OwnKeysStay(p, annots, annots');
        assert Agree(p, annots, entries, items, content, elem);
      }
    }
    forall item | item in items ensures item.page.value in PageIds(Joined(own, added, atStart)) {
      var p :| p in own && p.id == item.page.value;
      assert p in Joined(own, added, atStart);
    }
  }

  /**
    Added to keep their keys or lose them: pages hold none exactly if the target's held none, and the added hold none.
   */
  lemma JoinedUnkeyed(own: seq<Page>, annots: map<Id, Option<int>>, added: seq<Page>, annots': map<Id, Option<int>>,
                      atStart: bool)
    requires forall p :: p in own ==> KeysOf(p, annots') == KeysOf(p, annots)
    requires Unkeyed(added, annots')
    ensures Unkeyed(Joined(own, added, atStart), annots') <==> Unkeyed(own, annots)
  {
    JoinedMembers(own, added, atStart);
  }

  /** Without a structure on one side the added pages lose their keys, the target's keep theirs, and so the law. */
  lemma AddUntaggedKeepsWhole(target: Doc, source: Doc, pages: seq<Page>, ren: Id -> Id, atStart: bool)
    requires Addable(target, source, pages, ren) && (target.structure.None? || source.structure.None?)
    ensures var after, copies := Add(target, source, pages, ren, atStart), DetachPages(CopyPages(pages, ren));
      after.pages == Joined(target.pages, copies, atStart) && Unkeyed(copies, after.annots)
      && forall p :: p in target.pages ==> KeysOf(p, after.annots) == KeysOf(p, target.annots)
    ensures Sound(Add(target, source, pages, ren, atStart))
    ensures Whole(Add(target, source, pages, ren, atStart)) <==> Whole(target)
  {
    var copies, after := DetachPages(CopyPages(pages, ren)), Add(target, source, pages, ren, atStart);
    DetachedPagesFacts(target, source, pages, ren);
    JoinedPagesDistinct(target.pages, copies, atStart);
    forall p | p in target.pages ensures KeysOf(p, after.annots) == KeysOf(p, target.annots) {
      OwnKeysStay(p, target.annots, after.annots);
    }
    JoinedUnkeyed(target.pages, target.annots, copies, after.annots, atStart);
    if target.structure.Some? {
      UntaggedPagesKeepSound(target, copies, after.annots, atStart);
    }
  }

  lemma UntaggedPagesKeepSound(target: Doc, copies: seq<Page>, annots: map<Id, Option<int>>, atStart: bool)
    requires Sound(target) && target.structure.Some? && Unkeyed(copies, annots)
    requires forall p :: p in target.pages ==> KeysOf(p, annots) == KeysOf(p, target.annots)
    requires forall p, a :: p in target.pages && a in p.annots ==> AnnotKey(annots, a) == AnnotKey(target.annots, a)
    requires forall p :: p in copies ==> p.id !in PageIds(target.pages)
    ensures var pages := Joined(target.pages, copies, atStart);
      KeysDistinct(pages, annots) && KeysMatch(pages, annots, Entries(target))
      && Inverse(pages, annots, Entries(target), Items(target.structure.value.document))
  {
    KeylessPagesKeepKeys(target.pages, target.annots, Entries(target), copies, annots, atStart);
    KeylessPagesKeepInverse(target.pages, target.annots, Entries(target), Items(target.structure.value.document),
                            copies, annots, atStart);
  }

  /**
    Adding pages of any sound document, tagged or not, to any whole document keeps the law, and does not mend one that
    is not.
   */
  lemma AddKeepsWhole(target: Doc, source: Doc, pages: seq<Page>, ren: Id -> Id, atStart: bool)
    requires Addable(target, source, pages, ren)
    ensures Sound(Add(target, source, pages, ren, atStart))
    ensures Whole(Add(target, source, pages, ren, atStart)) <==> Whole(target)
  {
    if target.structure.None? || source.structure.None? {
      AddUntaggedKeepsWhole(target, source, pages, ren, atStart);
    } else {
      AddTaggedKeepsWhole(target, source, pages, ren, atStart);
    }
  }

  // ----- What the conditions are needed for ---------------------------------------------------

  /** A copied entry comes from the target, or from an entry of the source for one of the keys. */
  lemma {:induction false} CopyEntriesComeFrom(entries: map<int, Entry>, source: map<int, Entry>, keys: seq<int>,
                                               offset: int, ren: Id -> Id, k: int)
    requires k in CopyEntries(entries, source, keys, offset, ren)
    ensures k in entries || (IsShifted(k, keys, offset) && k - offset in source && !source[k - offset].Null?)
    decreases keys
  {
    if keys != [] {
      var key := keys[0];
      assert keys == [key] + keys[1..];
      var taken := if key !in source || source[key].Null? then entries
                   else entries[key + offset := CopyEntry(source[key], ren)];
      CopyEntriesComeFrom(taken, source, keys[1..], offset, ren, k);
    }
  }

  lemma HeldKeyStood(copies: seq<Page>, annots: map<Id, Option<int>>, ownEntries: map<int, Entry>, keys: seq<int>,
                     srcEntries: map<int, Entry>, ren: Id -> Id, own: seq<Page>, atStart: bool, k: int)
    requires HoldsKey(copies, annots, k + NextKey(ownEntries)) && k >= 0
    requires KeysMatch(Joined(own, copies, atStart), annots,
                       CopyEntries(ownEntries, srcEntries, keys, NextKey(ownEntries), ren))
    ensures k in srcEntries && !srcEntries[k].Null?
  {
    var offset := NextKey(ownEntries);
    JoinedHoldsKey(own, copies, annots, atStart, k + offset);
    assert k + offset in CopyEntries(ownEntries, srcEntries, keys, offset, ren);
    CopyEntriesComeFrom(ownEntries, srcEntries, keys, offset, ren, k + offset);
  }

  lemma KeysMatchAfterIff(own: seq<Page>, copies: seq<Page>, annots: map<Id, Option<int>>, ownEntries: map<int, Entry>,
                          keys: seq<int>, srcEntries: map<int, Entry>, ren: Id -> Id, atStart: bool)
    requires forall k :: k in ownEntries ==> k >= 0 && !ownEntries[k].Null?
    requires forall k :: HoldsKey(own, annots, k) <==> k in ownEntries
    requires forall k :: HoldsKey(copies, annots, k) <==> IsShifted(k, keys, NextKey(ownEntries))
    requires forall k :: k in keys ==> k >= 0
    ensures KeysMatch(Joined(own, copies, atStart), annots,
                      CopyEntries(ownEntries, srcEntries, keys, NextKey(ownEntries), ren))
       <==> KeysStand(keys, srcEntries)
  {
    var offset := NextKey(ownEntries);
    var after, entries := Joined(own, copies, atStart), CopyEntries(ownEntries, srcEntries, keys, offset, ren);
    if KeysStand(keys, srcEntries) {
      KeysMatchAfter(own, copies, annots, ownEntries, keys, srcEntries, ren, atStart);
    }
    if KeysMatch(after, annots, entries) {
      forall k | k in keys ensures k >= 0 && k in srcEntries && !srcEntries[k].Null? {
        assert IsShifted(k + offset, keys, offset);
        HeldKeyStood(copies, annots, ownEntries, keys, srcEntries, ren, own, atStart, k);
      }
    }
  }

  /**
    The parent tree holds the keys of pages and annotations, and no others, exactly if the source's parent tree had an
    entry for every key of the pages that were taken: a key it lacks is shifted with its page, and never catered for.
   */
  lemma AddKeepsKeysIff(target: Doc, source: Doc, pages: seq<Page>, ren: Id -> Id, atStart: bool)
    requires target.structure.Some? && source.structure.Some? && Sound(target) && Fresh(ren, target)
    requires PagesDistinct(source.pages) && Selected(pages, source)
      && forall k :: k in AllKeys(pages, source.annots) ==> k >= 0
    ensures KeysMatch(Joined(target.pages, AddedPages(target, pages, ren), atStart),
                      AddedAnnots(target, source, pages, ren),
                      AddedEntries(target, source, pages, ren))
       <==> KeysStand(AllKeys(pages, source.annots), Entries(source))
  {
    var annots, copies, offset := AddedAnnots(target, source, pages,
                                              ren), AddedPages(target, pages, ren), NextKey(Entries(target));
    AddedPagesFacts(target, source, pages, ren);
    forall p | p in target.pages ensures KeysOf(p, annots) == KeysOf(p, target.annots) {
      OwnKeysStay(p, target.annots, annots);
    }
    OwnKeysHeld(target.pages, target.annots, Entries(target), annots);
    forall k ensures HoldsKey(copies, annots, k) <==> IsShifted(k, AllKeys(pages, source.annots), offset) {
      CopiesHoldShiftedKeys(pages, source.annots, copies, annots, ren, offset, k);
    }
    KeysMatchAfterIff(target.pages, copies, annots, Entries(target), AllKeys(pages, source.annots), Entries(source),
                      ren, atStart);
  }
}
