/** Removing the placeholder page and adding pages of another document keep the law of a tagged document. */
module TaggedLaw {
  import opened Wrappers
  import opened NumberTree
  import opened StructTree
  import opened StructCopy
  import opened TaggedPdf

  // ----- Keys ---------------------------------------------------------------------------------

  lemma {:induction false} AnnotKeysHold(ids: seq<Id>, annots: map<Id, Option<int>>)
    ensures forall k :: k in AnnotKeys(ids, annots) <==> exists a :: a in ids && AnnotKey(annots, a) == Some(k)
  {
    if ids != [] {
      AnnotKeysHold(ids[1..], annots);
      assert ids == [ids[0]] + ids[1..];
    }
  }

  lemma {:induction false} AnnotKeyIsHeld(ids: seq<Id>, annots: map<Id, Option<int>>, a: Id)
    requires a in ids && AnnotKey(annots, a).Some?
    ensures AnnotKey(annots, a).value in AnnotKeys(ids, annots)
  {
    if a != ids[0] {
      assert a in ids[1..];
      AnnotKeyIsHeld(ids[1..], annots, a);
    }
  }

  lemma KeyForIsHeld(page: Page, annots: map<Id, Option<int>>, content: Content)
    ensures KeyFor(page, annots, content).Some? ==> KeyFor(page, annots, content).value in KeysOf(page, annots)
  {
    if content.Object? && content.obj in page.annots && AnnotKey(annots, content.obj).Some? {
      AnnotKeyIsHeld(page.annots, annots, content.obj);
    }
  }

  /** A lookup depends on the entries for the keys of its page only. */
  lemma LookupNeedsItsKeys(p: Page, annots: map<Id, Option<int>>, a: map<int, Entry>, b: map<int, Entry>,
                           content: Content)
    requires forall k :: k in KeysOf(p, annots) ==> (k in a <==> k in b) && (k in a ==> a[k] == b[k])
    ensures Lookup(p, annots, a, content) == Lookup(p, annots, b, content)
  {
    KeyForIsHeld(p, annots, content);
    var key := KeyFor(p, annots, content);
    if key.Some? {
      var k := key.value;
      assert k in KeysOf(p, annots);
      assert k in a <==> k in b;
    }
  }

  // ----- Removing the placeholder -------------------------------------------------------------

  lemma PruneKeepsGoodTree(e: Element, pages: set<Id>)
    requires GoodTree(e)
    ensures GoodTree(Prune(e, pages))
    ensures Items(Prune(e, pages)) == KeptItems(Items(e), pages)
  {
    PagedReferencesDoNotStray(e, pages);
    PruneFiltersItems(e, pages);
    PruneKeepsSurvivors(e, pages);
    var ids, kept := ElementIds(Descendants(e)), ElementIds(Descendants(Prune(e, pages)));
    NoDupParts([e.id], ids);
    SurvivorsKeepIds(Descendants(e), pages);
    assert e.id in [e.id];
    NoDupConcat([e.id], kept);
    PruneKeepsChildren(e.kids, OnKeptPage(e.pg, pages), pages);
  }

  lemma {:induction false} PruneKeepsChildren(kids: seq<Kid>, on: bool, pages: set<Id>)
    requires forall i :: 0 <= i < |kids| ==> kids[i].Child?
    ensures forall kid :: kid in PruneKids(kids, on, pages) ==> kid.Child?
  {
    if kids != [] {
      PruneKeepsChildren(kids[1..], on, pages);
    }
  }

  lemma FewerPagesKeepKeys(pages: seq<Page>, annots: map<Id, Option<int>>, entries: map<int, Entry>)
    requires |pages| > 0 && PagesDistinct(pages) && KeysDistinct(pages, annots) && KeysMatch(pages, annots, entries)
    ensures PagesDistinct(pages[1..]) && KeysDistinct(pages[1..], annots)
    ensures KeysMatch(pages[1..], annots, WithoutKeys(entries, KeysOf(pages[0], annots)))
    ensures forall p, content :: p in pages[1..] ==>
      Lookup(p, annots, WithoutKeys(entries, KeysOf(pages[0], annots)), content) == Lookup(p, annots, entries, content)
  {
    var first, rest, left := pages[0], pages[1..], WithoutKeys(entries, KeysOf(pages[0], annots));
    assert pages == [first] + rest;
    NoDupParts([first], rest);
    assert first in [first];
    forall k ensures k in left <==> HoldsKey(rest, annots, k) {
      assert k in entries <==> HoldsKey(pages, annots, k);
    }
    forall p, content | p in rest
      ensures Lookup(p, annots, left, content) == Lookup(p, annots, entries, content)
    {
      assert p != first && first in pages && p in pages;
      LookupNeedsItsKeys(p, annots, left, entries, content);
    }
  }

  lemma FewerPagesKeepInverse(pages: seq<Page>, rest: seq<Page>, annots: map<Id, Option<int>>,
                              entries: map<int, Entry>, left: map<int, Entry>, items: seq<Item>)
    requires Inverse(pages, annots, entries, items)
    requires forall p :: p in rest ==> p in pages
    requires forall p, content :: p in rest ==> Lookup(p, annots, left, content) == Lookup(p, annots, entries, content)
    ensures Inverse(rest, annots, left, KeptItems(items, PageIds(rest)))
  {
    var kept := KeptItems(items, PageIds(rest));
    KeptItemsMembers(items, PageIds(rest));
    forall p, content, elem | p in rest ensures Agree(p, annots, left, kept, content, elem) {
      assert Agree(p, annots, entries, items, content, elem);
      assert p.id in PageIds(rest);
    }
  }

  /** What is left of a tagged document after its first page keeps the law, and every lookup on it. */
  lemma RemoveFirstPageKeepsWhole(d: Doc)
    requires Sound(d) && |d.pages| > 0
    ensures Sound(RemoveFirstPage(d)) && (Whole(d) ==> Whole(RemoveFirstPage(d)))
    ensures d.structure.Some? ==>
      var after := RemoveFirstPage(d);
      forall p, content :: p in after.pages ==>
        Lookup(p, after.annots, Read(after.structure.value.parentTree), content)
        == Lookup(p, d.annots, Read(d.structure.value.parentTree), content)
  {
    var rest := d.pages[1..];
    assert d.pages == [d.pages[0]] + rest;
    NoDupParts([d.pages[0]], rest);
    if d.structure.Some? {
      var s := d.structure.value;
      var entries, left := Read(s.parentTree), WithoutKeys(Read(s.parentTree), KeysOf(d.pages[0], d.annots));
      ReadWritten(left);
      FewerPagesKeepKeys(d.pages, d.annots, entries);
      FewerPagesKeepInverse(d.pages, rest, d.annots, entries, left, Items(s.document));
      PruneKeepsGoodTree(s.document, PageIds(rest));
    }
  }

  // ----- Shifting and copying keys ------------------------------------------------------------

  lemma {:induction false} ShiftAnnotsShifts(annots: map<Id, Option<int>>, ids: seq<Id>, offset: int)
    requires NoDup(ids)
    ensures forall a :: AnnotKey(ShiftAnnots(annots, ids, offset), a)
                     == if a in ids then Shifted(AnnotKey(annots, a), offset) else AnnotKey(annots, a)
  {
    if ids != [] {
      assert ids == [ids[0]] + ids[1..];
      NoDupParts([ids[0]], ids[1..]);
      assert ids[0] in [ids[0]];
      ShiftAnnotsShifts(if ids[0] in annots then annots[ids[0] := Shifted(annots[ids[0]], offset)] else annots,
                        ids[1..], offset);
    }
  }

  /** Where no annotation stands on two pages, each annotation of the pages is shifted once, and no other is. */
  lemma {:induction false} ShiftAllAnnotsShifts(annots: map<Id, Option<int>>, pages: seq<Page>, offset: int)
    requires PagesDistinct(pages)
    ensures forall p, a :: p in pages && a in p.annots ==>
      AnnotKey(ShiftAllAnnots(annots, pages, offset), a) == Shifted(AnnotKey(annots, a), offset)
    ensures forall a :: (forall p :: p in pages ==> a !in p.annots) ==>
      AnnotKey(ShiftAllAnnots(annots, pages, offset), a) == AnnotKey(annots, a)
    decreases pages
  {
    if pages != [] {
      var first, rest := pages[0], pages[1..];
      assert pages == [first] + rest;
      NoDupParts([first], rest);
      assert first in [first];
      assert forall p, q, a :: p in pages && q in pages && p != q && a in p.annots ==> a !in q.annots;
      ShiftAnnotsShifts(annots, first.annots, offset);
      ShiftAllAnnotsShifts(ShiftAnnots(annots, first.annots, offset), rest, offset);
      forall p, a | p in pages && a in p.annots
        ensures AnnotKey(ShiftAllAnnots(annots, pages, offset), a) == Shifted(AnnotKey(annots, a), offset)
      {
        if p == first {
          assert forall q :: q in rest ==> a !in q.annots;
        } else {
          assert p in rest && a !in first.annots;
        }
      }
    }
  }

  /** The annotations of a target, and copies of those of a source: a copy has the key of its original. */
  lemma CopiedAnnotKeys(own: map<Id, Option<int>>, other: map<Id, Option<int>>, ren: Id -> Id, a: Id)
    requires Injective(ren) && forall x :: ren(x) !in own
    ensures AnnotKey(own + CopyAnnots(other, ren), ren(a)) == AnnotKey(other, a)
  {
  }

  function ShiftAll(keys: seq<int>, offset: int): (r: seq<int>)
    ensures |r| == |keys| && forall i :: 0 <= i < |keys| ==> r[i] == keys[i] + offset
  {
    seq(|keys|, i requires 0 <= i < |keys| => keys[i] + offset)
  }

  lemma ShiftAllMembers(keys: seq<int>, offset: int)
    ensures forall k :: k in ShiftAll(keys, offset) <==> k - offset in keys
    ensures NoDup(keys) ==> NoDup(ShiftAll(keys, offset))
  {
    forall k | k - offset in keys ensures k in ShiftAll(keys, offset) {
      var i :| 0 <= i < |keys| && keys[i] == k - offset;
      assert ShiftAll(keys, offset)[i] == k;
    }
  }

  lemma ShiftAllConcat(a: seq<int>, b: seq<int>, offset: int)
    ensures ShiftAll(a + b, offset) == ShiftAll(a, offset) + ShiftAll(b, offset)
  {
  }

  lemma {:induction false} ShiftedAnnotKeys(ids: seq<Id>, annots: map<Id, Option<int>>, ids': seq<Id>,
                                            annots': map<Id, Option<int>>, offset: int)
    requires |ids| == |ids'|
    requires forall i :: 0 <= i < |ids| ==> AnnotKey(annots', ids'[i]) == Shifted(AnnotKey(annots, ids[i]), offset)
    ensures AnnotKeys(ids', annots') == ShiftAll(AnnotKeys(ids, annots), offset)
  {
    if ids != [] {
      var head := if AnnotKey(annots, ids[0]).Some? then [AnnotKey(annots, ids[0]).value] else [];
      assert forall i :: 0 <= i < |ids| - 1 ==> ids[1..][i] == ids[i + 1] && ids'[1..][i] == ids'[i + 1];
      ShiftedAnnotKeys(ids[1..], annots, ids'[1..], annots', offset);
      ShiftAllConcat(head, AnnotKeys(ids[1..], annots), offset);
      assert AnnotKeys(ids', annots') == ShiftAll(head, offset) + AnnotKeys(ids'[1..], annots');
    }
  }

  /** A page whose key and annotations' keys are those of another, shifted. */
  ghost predicate ShiftedCopy(page: Page, annots: map<Id, Option<int>>, copy: Page, annots': map<Id, Option<int>>,
                              ren: Id -> Id, offset: int)
  {
    copy.id == ren(page.id) && copy.key == Shifted(page.key, offset) && copy.annots == RenameIds(page.annots, ren)
    && forall i :: 0 <= i < |page.annots| ==>
      AnnotKey(annots', ren(page.annots[i])) == Shifted(AnnotKey(annots, page.annots[i]), offset)
  }

  lemma ShiftedCopyKeys(page: Page, annots: map<Id, Option<int>>, copy: Page, annots': map<Id, Option<int>>,
                        ren: Id -> Id, offset: int)
    requires ShiftedCopy(page, annots, copy, annots', ren, offset)
    ensures KeysOf(copy, annots') == ShiftAll(KeysOf(page, annots), offset)
  {
    var own := if page.key.Some? then [page.key.value] else [];
    ShiftedAnnotKeys(page.annots, annots, copy.annots, annots', offset);
    ShiftAllConcat(own, AnnotKeys(page.annots, annots), offset);
    assert KeysOf(copy, annots') == ShiftAll(own, offset) + AnnotKeys(copy.annots, annots');
  }

  // ----- Copying entries ----------------------------------------------------------------------

  /** The key is one of the given keys, shifted. */
  predicate IsShifted(k: int, keys: seq<int>, offset: int) {
    k - offset in keys
  }

  /** Where each of the keys stands for something, their shifted keys are added and no other is. */
  lemma {:induction false} CopyEntriesDomain(entries: map<int, Entry>, source: map<int, Entry>, keys: seq<int>,
                                             offset: int, ren: Id -> Id)
    requires forall k :: k in keys ==> k in source && !source[k].Null?
    ensures forall k ::
      k in CopyEntries(entries, source, keys, offset, ren) <==> k in entries || IsShifted(k, keys, offset)
    decreases keys
  {
    if keys != [] {
      var key, rest := keys[0], keys[1..];
      assert keys == [key] + rest;
      assert key in keys;
      var taken := entries[key + offset := CopyEntry(source[key], ren)];
      CopyEntriesDomain(taken, source, rest, offset, ren);
      forall k ensures IsShifted(k, keys, offset) <==> k == key + offset || IsShifted(k, rest, offset) {
      }
    }
  }

  lemma {:induction false} CopyEntriesLeaves(entries: map<int, Entry>, source: map<int, Entry>, keys: seq<int>,
                                             offset: int, ren: Id -> Id, k: int)
    requires k in entries && !IsShifted(k, keys, offset)
    ensures k in CopyEntries(entries, source, keys, offset, ren)
    ensures CopyEntries(entries, source, keys, offset, ren)[k] == entries[k]
    decreases keys
  {
    if keys != [] {
      var key := keys[0];
      assert key in keys;
      var taken := if key !in source || source[key].Null? then entries
                   else entries[key + offset := CopyEntry(source[key], ren)];
      assert !IsShifted(k, keys[1..], offset);
      CopyEntriesLeaves(taken, source, keys[1..], offset, ren, k);
    }
  }

  /** The entry of a key is taken over, shifted. */
  lemma {:induction false} CopyEntriesTakes(entries: map<int, Entry>, source: map<int, Entry>, keys: seq<int>,
                                            offset: int, ren: Id -> Id, k: int)
    requires forall k :: k in keys ==> k in source && !source[k].Null?
    requires k in keys
    ensures k + offset in CopyEntries(entries, source, keys, offset, ren)
    ensures CopyEntries(entries, source, keys, offset, ren)[k + offset] == CopyEntry(source[k], ren)
    decreases keys
  {
    var key, rest := keys[0], keys[1..];
    assert keys == [key] + rest;
    assert key in keys;
    var taken := entries[key + offset := CopyEntry(source[key], ren)];
    if k in rest {
      CopyEntriesTakes(taken, source, rest, offset, ren, k);
    } else {
      CopyEntriesLeaves(taken, source, rest, offset, ren, k + offset);
    }
  }

  lemma {:induction false} AllKeysHold(pages: seq<Page>, annots: map<Id, Option<int>>)
    ensures forall k :: k in AllKeys(pages, annots) <==> HoldsKey(pages, annots, k)
  {
    if pages != [] {
      AllKeysHold(pages[1..], annots);
      assert pages == [pages[0]] + pages[1..];
      assert pages[0] in pages;
      forall k ensures k in AllKeys(pages, annots) <==> HoldsKey(pages, annots, k) {
        assert k in AllKeys(pages, annots) <==> k in KeysOf(pages[0], annots) || HoldsKey(pages[1..], annots, k);
      }
    }
  }

  /** The copy of a key's entry is under the shifted key. */
  ghost predicate KeyIsTaken(key: Option<int>, source: map<int, Entry>, entries: map<int, Entry>, ren: Id -> Id,
                             offset: int)
  {
    key.Some? ==>
      key.value in source && key.value + offset in entries
      && entries[key.value + offset] == CopyEntry(source[key.value], ren)
  }

  lemma CopiedLookup(page: Page, annots: map<Id, Option<int>>, source: map<int, Entry>, copy: Page,
                     annots': map<Id, Option<int>>, entries: map<int, Entry>, ren: Id -> Id, offset: int,
                     content: Content)
    requires Injective(ren) && ShiftedCopy(page, annots, copy, annots', ren, offset)
    requires KeyIsTaken(KeyFor(page, annots, content), source, entries, ren, offset)
    ensures Lookup(copy, annots', entries, CopyContent(content, ren))
         == RenameRef(Lookup(page, annots, source, content), ren)
  {
    var key := KeyFor(page, annots, content);
    assert KeyFor(copy, annots', CopyContent(content, ren)) == Shifted(key, offset) by {
      if content.Object? {
        var a := content.obj;
        if ren(a) in copy.annots {
          var i :| 0 <= i < |copy.annots| && copy.annots[i] == ren(a);
          assert page.annots[i] == a;
        }
        if a in page.annots {
          var i :| 0 <= i < |page.annots| && page.annots[i] == a;
          assert copy.annots[i] == ren(a);
        }
      }
    }
    if key.Some? {
      var k := key.value;
      assert OwnerIn(CopyEntry(source[k], ren), CopyContent(content, ren))
        == RenameRef(OwnerIn(source[k], content), ren);
    }
  }

  /** A copy's lookups find copies of content only. */
  lemma CopiedLookupFindsCopies(page: Page, annots: map<Id, Option<int>>, copy: Page, annots': map<Id, Option<int>>,
                                entries: map<int, Entry>, ren: Id -> Id, offset: int, content: Content)
    returns (original: Content)
    requires ShiftedCopy(page, annots, copy, annots', ren, offset)
    requires Lookup(copy, annots', entries, content).Some?
    ensures CopyContent(original, ren) == content
  {
    match content {
      case Mark(_) =>
        original := content;
      case Object(b) =>
        var i :| 0 <= i < |copy.annots| && copy.annots[i] == b;
        original := Object(page.annots[i]);
    }
  }

  // ----- The spliced structure ----------------------------------------------------------------

  lemma {:induction false} ChildrenItemsNeedNoOwner(kids: seq<Kid>, a: Id, p: Option<Id>, b: Id, q: Option<Id>)
    requires forall i :: 0 <= i < |kids| ==> kids[i].Child?
    ensures KidItems(kids, a, p) == KidItems(kids, b, q)
  {
    if kids != [] {
      ChildrenItemsNeedNoOwner(kids[1..], a, p, b, q);
    }
  }

  /** What is moved to the target: elements only, with the copied items, under the ids the renaming gives them. */
  lemma MovedKids(source: Element, copied: set<Id>, ren: Id -> Id, mark: Option<string>, owner: Id, pg: Option<Id>)
    requires GoodTree(source) && Injective(ren)
    ensures var moved := MarkKids(Copy(Prune(source, copied), ren, copied).kids, mark);
      KidItems(moved, owner, pg) == CopyItems(KeptItems(Items(source), copied), ren, copied)
      && KidsReferencesPaged(moved)
      && (forall i :: 0 <= i < |moved| ==> moved[i].Child?)
      && ElementIds(KidElements(moved)) == RenameIds(ElementIds(Descendants(Prune(source, copied))), ren)
      && NoDup(ElementIds(KidElements(moved)))
  {
    var pruned := Prune(source, copied);
    var kids := Copy(pruned, ren, copied).kids;
    PruneKeepsGoodTree(source, copied);
    CopyRenamesItems(source, ren, copied);
    CopyRenamesElements(pruned.kids, ren, copied);
    CopyKeepsReferencesPaged(source.kids, OnKeptPage(source.pg, copied), ren, copied);
    MarkKeepsItems(kids, mark, owner, pg);
    MarkKeepsElements(kids, mark);
    CopyKeepsChildren(pruned.kids, ren, copied);
    ChildrenItemsNeedNoOwner(kids, owner, pg, ren(source.id), CopyPageRef(source.pg, ren, copied));
    NoDupParts([pruned.id], ElementIds(Descendants(pruned)));
    RenameKeepsNoDup(ElementIds(Descendants(pruned)), ren);
  }

  lemma {:induction false} CopyKeepsChildren(kids: seq<Kid>, ren: Id -> Id, copied: set<Id>)
    requires forall i :: 0 <= i < |kids| ==> kids[i].Child?
    ensures forall i :: 0 <= i < |kids| ==> CopyKids(kids, ren, copied)[i].Child?
  {
    if kids != [] {
      CopyKeepsChildren(kids[1..], ren, copied);
      assert forall i :: 1 <= i < |kids| ==> CopyKids(kids, ren, copied)[i] == CopyKids(kids[1..], ren, copied)[i - 1];
    }
  }

  /** The references left by pruning are on copied pages, so their copies still state a page. */
  lemma {:induction false} CopyKeepsReferencesPaged(kids: seq<Kid>, on: bool, ren: Id -> Id, copied: set<Id>)
    requires KidsReferencesPaged(kids)
    ensures KidsReferencesPaged(CopyKids(PruneKids(kids, on, copied), ren, copied))
    decreases kids, 0
  {
    if kids != [] {
      var first, rest := PruneKid(kids[0], on, copied), PruneKids(kids[1..], on, copied);
      CopyKidsConcat(first, rest, ren, copied);
      KidsReferencesPagedConcat(CopyKids(first, ren, copied), CopyKids(rest, ren, copied));
      CopyKeepsReferencePaged(kids[0], on, ren, copied);
      CopyKeepsReferencesPaged(kids[1..], on, ren, copied);
    }
  }

  lemma {:induction false} CopyKeepsReferencePaged(kid: Kid, on: bool, ren: Id -> Id, copied: set<Id>)
    requires ReferencePaged(kid)
    ensures KidsReferencesPaged(CopyKids(PruneKid(kid, on, copied), ren, copied))
    decreases kid, 2
  {
    var kept := PruneKid(kid, on, copied);
    if kept != [] {
      var copies := CopyKids(kept, ren, copied);
      assert kept == [kept[0]];
      assert copies == [CopyKid(kept[0], ren, copied)] && copies[1..] == [];
      assert ReferencePaged(copies[0]) by {
        if kid.Child? {
          assert kept[0] == Child(Prune(kid.elem, copied));
          assert copies[0] == Child(Copy(Prune(kid.elem, copied), ren, copied));
          CopyKeepsElementPaged(kid.elem, ren, copied);
        }
      }
    }
  }

  lemma {:induction false} CopyKeepsElementPaged(e: Element, ren: Id -> Id, copied: set<Id>)
    requires ReferencesPaged(e)
    ensures ReferencesPaged(Copy(Prune(e, copied), ren, copied))
    decreases e, 1
  {
    CopyKeepsReferencesPaged(e.kids, OnKeptPage(e.pg, copied), ren, copied);
    assert Prune(e, copied).kids == PruneKids(e.kids, OnKeptPage(e.pg, copied), copied);
    assert Copy(Prune(e, copied), ren, copied).kids == CopyKids(Prune(e, copied).kids, ren, copied);
  }

  lemma JoinedIds(id: Id, a: seq<Kid>, b: seq<Kid>)
    requires var first, second := ElementIds(KidElements(a)), ElementIds(KidElements(b));
      NoDup(first) && NoDup(second) && id !in first && id !in second && forall x :: x in first ==> x !in second
    ensures NoDup([id] + ElementIds(KidElements(a + b)))
  {
    KidElementsConcat(a, b);
    var first, second := ElementIds(KidElements(a)), ElementIds(KidElements(b));
    assert ElementIds(KidElements(a + b)) == first + second;
    NoDupConcat(first, second);
    NoDupCons(id, first + second);
  }

  /** An element with two lists of elements under it, which have none in common. */
  lemma JoinedTree(e: Element, a: seq<Kid>, b: seq<Kid>)
    requires KidsReferencesPaged(a) && KidsReferencesPaged(b)
    requires (forall i :: 0 <= i < |a| ==> a[i].Child?) && forall i :: 0 <= i < |b| ==> b[i].Child?
    requires NoDup([e.id] + ElementIds(KidElements(a + b)))
    ensures GoodTree(e.(kids := a + b))
  {
    KidsReferencesPagedConcat(a, b);
    assert Descendants(e.(kids := a + b)) == KidElements(a + b);
  }

  /** The spliced Document: a good tree, which holds the target's items and the copied ones, side by side. */
  lemma SplicedTree(document: Element, source: Element, copied: set<Id>, ren: Id -> Id, mark: Option<string>,
                    atStart: bool)
    requires GoodTree(document) && GoodTree(source) && Injective(ren)
    requires forall x :: ren(x) !in [document.id] + ElementIds(Descendants(document))
    ensures var spliced := Spliced(document, source, copied, ren, mark, atStart);
      GoodTree(spliced)
      && Items(spliced) == Joined(Items(document), CopyItems(KeptItems(Items(source), copied), ren, copied), atStart)
  {
    var moved := MarkKids(Copy(Prune(source, copied), ren, copied).kids, mark);
    MovedKids(source, copied, ren, mark, document.id, document.pg);
    NoDupCons(document.id, ElementIds(KidElements(document.kids)));
    if atStart {
      JoinedIds(document.id, moved, document.kids);
      JoinedTree(document, moved, document.kids);
      KidItemsConcat(moved, document.kids, document.id, document.pg);
    } else {
      JoinedIds(document.id, document.kids, moved);
      JoinedTree(document, document.kids, moved);
      KidItemsConcat(document.kids, moved, document.id, document.pg);
    }
  }

  // ----- Adding pages -------------------------------------------------------------------------

  /** Pages of a document, each taken once. */
  ghost predicate Selected(pages: seq<Page>, source: Doc) {
    NoDup(pages) && forall p :: p in pages ==> p in source.pages
  }

  /** Copies of pages, in their order, with their keys shifted. */
  ghost predicate ShiftedCopies(pages: seq<Page>, annots: map<Id, Option<int>>, copies: seq<Page>,
                                annots': map<Id, Option<int>>, ren: Id -> Id, offset: int)
  {
    |copies| == |pages|
    && forall i :: 0 <= i < |pages| ==> ShiftedCopy(pages[i], annots, copies[i], annots', ren, offset)
  }

  lemma JoinedMembers<T(!new)>(own: seq<T>, added: seq<T>, atStart: bool)
    ensures forall x :: x in Joined(own, added, atStart) <==> x in own || x in added
    ensures NoDup(own) && NoDup(added) && (forall x :: x in own ==> x !in added) ==> NoDup(Joined(own, added, atStart))
  {
    if NoDup(own) && NoDup(added) && (forall x :: x in own ==> x !in added) {
      if atStart {
        NoDupConcat(added, own);
      } else {
        NoDupConcat(own, added);
      }
    }
  }

  /** Pages of two documents without an object in common stand apart. */
  ghost predicate Apart(own: seq<Page>, added: seq<Page>) {
    forall p, q :: p in own && q in added ==> p.id != q.id && forall a :: a in p.annots ==> a !in q.annots
  }

  lemma JoinedPagesDistinct(own: seq<Page>, added: seq<Page>, atStart: bool)
    requires PagesDistinct(own) && PagesDistinct(added) && Apart(own, added)
    ensures PagesDistinct(Joined(own, added, atStart))
  {
    JoinedMembers(own, added, atStart);
  }

  lemma RenamedOrigin(ids: seq<Id>, ren: Id -> Id, x: Id) returns (y: Id)
    requires x in RenameIds(ids, ren)
    ensures y in ids && ren(y) == x
  {
    var i :| 0 <= i < |ids| && RenameIds(ids, ren)[i] == x;
    y := ids[i];
  }

  lemma RenamedStayDisjoint(a: seq<Id>, b: seq<Id>, ren: Id -> Id)
    requires Injective(ren) && forall x :: x in a ==> x !in b
    ensures forall x :: x in RenameIds(a, ren) ==> x !in RenameIds(b, ren)
  {
    forall x | x in RenameIds(a, ren) && x in RenameIds(b, ren) ensures false {
      var y := RenamedOrigin(a, ren, x);
      var z := RenamedOrigin(b, ren, x);
    }
  }

  /** Pages that are the renamed ones of others, in their order. */
  ghost predicate RenamedPages(pages: seq<Page>, copies: seq<Page>, ren: Id -> Id) {
    |copies| == |pages|
    && forall i :: 0 <= i < |pages| ==>
       copies[i].id == ren(pages[i].id) && copies[i].annots == RenameIds(pages[i].annots, ren)
  }

  lemma CopiesDistinct(pages: seq<Page>, copies: seq<Page>, ren: Id -> Id)
    requires PagesDistinct(pages) && Injective(ren) && RenamedPages(pages, copies, ren)
    ensures PagesDistinct(copies)
  {
    forall i, j | 0 <= i < j < |copies| ensures copies[i].id != copies[j].id {
      assert pages[i] in pages && pages[j] in pages;
    }
    forall p | p in copies ensures NoDup(p.annots) {
      var i :| 0 <= i < |copies| && copies[i] == p;
      assert pages[i] in pages;
      RenameKeepsNoDup(pages[i].annots, ren);
    }
    forall p, q | p in copies && q in copies && p != q
      ensures p.id != q.id && forall a :: a in p.annots ==> a !in q.annots
    {
      var i :| 0 <= i < |copies| && copies[i] == p;
      var j :| 0 <= j < |copies| && copies[j] == q;
      assert pages[i] in pages && pages[j] in pages && pages[i] != pages[j];
      RenamedStayDisjoint(pages[i].annots, pages[j].annots, ren);
    }
  }

  /** A fresh renaming gives no object of the target away. */
  lemma FreshApart(target: Doc, copies: seq<Page>, pages: seq<Page>, ren: Id -> Id)
    requires Fresh(ren, target) && RenamedPages(pages, copies, ren)
    ensures Apart(target.pages, copies)
    ensures forall x :: ren(x) !in target.annots && ren(x) !in PageIds(target.pages)
  {
    forall x ensures ren(x) !in target.annots && ren(x) !in PageIds(target.pages) {
      assert ren(x) !in UsedIds(target);
      assert target.annots.Keys <= UsedIds(target);
      assert PageIds(target.pages) <= UsedIds(target);
    }
    forall p, q | p in target.pages && q in copies
      ensures p.id != q.id && forall a :: a in p.annots ==> a !in q.annots
    {
      var i :| 0 <= i < |copies| && copies[i] == q;
      assert p.id in PageIds(target.pages);
      forall a | a in q.annots ensures a !in p.annots {
        var y := RenamedOrigin(pages[i].annots, ren, a);
        assert ren(y) !in UsedIds(target);
      }
    }
  }

  /** The added pages hold the keys of their originals, shifted. */
  lemma AddedPagesAreShiftedCopies(pages: seq<Page>, own: map<Id, Option<int>>, other: map<Id, Option<int>>,
                                   ren: Id -> Id, offset: int)
    requires PagesDistinct(pages) && Injective(ren) && forall x :: ren(x) !in own
    ensures var copies := CopyPages(pages, ren);
      ShiftedCopies(pages, other, ShiftPages(copies, offset),
                    ShiftAllAnnots(own + CopyAnnots(other, ren), copies, offset), ren, offset)
  {
    var copies := CopyPages(pages, ren);
    var joined := own + CopyAnnots(other, ren);
    var annots := ShiftAllAnnots(joined, copies, offset);
    CopiesDistinct(pages, copies, ren);
    ShiftAllAnnotsShifts(joined, copies, offset);
    forall i, n | 0 <= i < |pages| && 0 <= n < |pages[i].annots|
      ensures AnnotKey(annots, ren(pages[i].annots[n])) == Shifted(AnnotKey(other, pages[i].annots[n]), offset)
    {
      CopiedAnnotKeys(own, other, ren, pages[i].annots[n]);
      assert copies[i] in copies && copies[i].annots[n] in copies[i].annots;
    }
  }

  /** The annotations of the target's own pages keep their keys. */
  lemma OwnAnnotsKeepKeys(target: Doc, other: map<Id, Option<int>>, pages: seq<Page>, ren: Id -> Id, offset: int)
    requires PagesDistinct(pages) && Fresh(ren, target)
    ensures forall p, a :: p in target.pages && a in p.annots ==>
      AnnotKey(ShiftAllAnnots(target.annots + CopyAnnots(other, ren), CopyPages(pages, ren), offset), a)
      == AnnotKey(target.annots, a)
  {
    var copies := CopyPages(pages, ren);
    CopiesDistinct(pages, copies, ren);
    ShiftAllAnnotsShifts(target.annots + CopyAnnots(other, ren), copies, offset);
    FreshApart(target, copies, pages, ren);
    forall p, a | p in target.pages && a in p.annots
      ensures AnnotKey(ShiftAllAnnots(target.annots + CopyAnnots(other, ren), copies, offset), a)
           == AnnotKey(target.annots, a)
    {
      assert forall q :: q in copies ==> a !in q.annots;
      assert a in UsedIds(target);
      assert a !in CopyAnnots(other, ren);
    }
  }

  lemma {:induction false} SameAnnotKeys(ids: seq<Id>, annots: map<Id, Option<int>>, annots': map<Id, Option<int>>)
    requires forall i :: 0 <= i < |ids| ==> AnnotKey(annots', ids[i]) == AnnotKey(annots, ids[i])
    ensures AnnotKeys(ids, annots') == AnnotKeys(ids, annots)
  {
    if ids != [] {
      assert forall i :: 0 <= i < |ids| - 1 ==> ids[1..][i] == ids[i + 1];
      SameAnnotKeys(ids[1..], annots, annots');
    }
  }

  lemma OwnKeysStay(p: Page, annots: map<Id, Option<int>>, annots': map<Id, Option<int>>)
    requires forall a :: a in p.annots ==> AnnotKey(annots', a) == AnnotKey(annots, a)
    ensures KeysOf(p, annots') == KeysOf(p, annots)
    ensures forall content :: KeyFor(p, annots', content) == KeyFor(p, annots, content)
  {
    SameAnnotKeys(p.annots, annots, annots');
  }

  // ----- Keys after adding --------------------------------------------------------------------

  /** Keys of pages that stand for entries of a parent tree. */
  ghost predicate KeysStand(keys: seq<int>, entries: map<int, Entry>) {
    forall k :: k in keys ==> k >= 0 && k in entries && !entries[k].Null?
  }

  lemma SelectedKeysStand(pages: seq<Page>, all: seq<Page>, annots: map<Id, Option<int>>, entries: map<int, Entry>)
    requires KeysMatch(all, annots, entries) && forall p :: p in pages ==> p in all
    ensures KeysStand(AllKeys(pages, annots), entries)
  {
    AllKeysHold(pages, annots);
    forall k | k in AllKeys(pages, annots) ensures k >= 0 && k in entries && !entries[k].Null? {
      assert HoldsKey(all, annots, k);
    }
  }

  /** The entries after adding: the own ones unchanged, and others past them only. */
  lemma EntriesAfter(own: map<int, Entry>, source: map<int, Entry>, keys: seq<int>, ren: Id -> Id)
    requires KeysStand(keys, source) && forall k :: k in own ==> k >= 0
    ensures var entries := CopyEntries(own, source, keys, NextKey(own), ren);
      (forall k :: k in entries <==> k in own || IsShifted(k, keys, NextKey(own)))
      && (forall k :: k in own ==> entries[k] == own[k])
  {
    var offset := NextKey(own);
    NextKeyIsNonNegative(own);
    CopyEntriesDomain(own, source, keys, offset, ren);
    forall k | k in own ensures CopyEntries(own, source, keys, offset, ren)[k] == own[k] {
      assert !IsShifted(k, keys, offset) by {
        var was := k - offset;
        assert was < 0;
      }
      CopyEntriesLeaves(own, source, keys, offset, ren, k);
    }
  }

  lemma ShiftedCopyKeyMembers(page: Page, annots: map<Id, Option<int>>, copy: Page, annots': map<Id, Option<int>>,
                              ren: Id -> Id, offset: int)
    requires ShiftedCopy(page, annots, copy, annots', ren, offset)
    ensures forall k :: k in KeysOf(copy, annots') <==> IsShifted(k, KeysOf(page, annots), offset)
    ensures NoDup(KeysOf(page, annots)) ==> NoDup(KeysOf(copy, annots'))
  {
    ShiftedCopyKeys(page, annots, copy, annots', ren, offset);
    ShiftAllMembers(KeysOf(page, annots), offset);
  }

  lemma CopyOrigin(pages: seq<Page>, annots: map<Id, Option<int>>, copies: seq<Page>, annots': map<Id, Option<int>>,
                   ren: Id -> Id, offset: int, copy: Page) returns (page: Page)
    requires ShiftedCopies(pages, annots, copies, annots', ren, offset) && copy in copies
    ensures page in pages && ShiftedCopy(page, annots, copy, annots', ren, offset)
  {
    var i :| 0 <= i < |copies| && copies[i] == copy;
    page := pages[i];
  }

  /** Shifted copies of pages that share no key share none. */
  lemma CopiesShareNoKey(o: Page, r: Page, annots: map<Id, Option<int>>, p: Page, q: Page,
                         annots': map<Id, Option<int>>, ren: Id -> Id, offset: int)
    requires ShiftedCopy(o, annots, p, annots', ren, offset) && ShiftedCopy(r, annots, q, annots', ren, offset)
    requires forall k :: k in KeysOf(o, annots) ==> k !in KeysOf(r, annots)
    ensures forall k :: k in KeysOf(p, annots') ==> k !in KeysOf(q, annots')
  {
    ShiftedCopyKeyMembers(o, annots, p, annots', ren, offset);
    ShiftedCopyKeyMembers(r, annots, q, annots', ren, offset);
    forall k | k in KeysOf(p, annots') ensures k !in KeysOf(q, annots') {
      assert IsShifted(k, KeysOf(o, annots), offset);
      assert !IsShifted(k, KeysOf(r, annots), offset);
    }
  }

  lemma CopyHoldsKeysOnce(o: Page, annots: map<Id, Option<int>>, p: Page, annots': map<Id, Option<int>>, ren: Id -> Id,
                          offset: int)
    requires ShiftedCopy(o, annots, p, annots', ren, offset) && NoDup(KeysOf(o, annots))
    ensures NoDup(KeysOf(p, annots'))
  {
    ShiftedCopyKeyMembers(o, annots, p, annots', ren, offset);
  }

  lemma CopiesKeysDistinct(pages: seq<Page>, annots: map<Id, Option<int>>, copies: seq<Page>,
                           annots': map<Id, Option<int>>, ren: Id -> Id, offset: int)
    requires ShiftedCopies(pages, annots, copies, annots', ren, offset)
    requires KeysDistinct(pages, annots) && PagesDistinct(copies)
    ensures KeysDistinct(copies, annots')
  {
    forall p | p in copies ensures NoDup(KeysOf(p, annots')) {
      var o := CopyOrigin(pages, annots, copies, annots', ren, offset, p);
      CopyHoldsKeysOnce(o, annots, p, annots', ren, offset);
    }
    forall p, q | p in copies && q in copies && p != q
      ensures forall k :: k in KeysOf(p, annots') ==> k !in KeysOf(q, annots')
    {
      var o := CopyOrigin(pages, annots, copies, annots', ren, offset, p);
      var r := CopyOrigin(pages, annots, copies, annots', ren, offset, q);
      assert p.id != q.id && o != r;
      CopiesShareNoKey(o, r, annots, p, q, annots', ren, offset);
    }
  }

  lemma JoinedKeysDistinct(own: seq<Page>, copies: seq<Page>, annots: map<Id, Option<int>>, bound: int, atStart: bool)
    requires KeysDistinct(own, annots) && KeysDistinct(copies, annots)
    requires forall p, k :: p in own && k in KeysOf(p, annots) ==> k < bound
    requires forall p, k :: p in copies && k in KeysOf(p, annots) ==> bound <= k
    ensures KeysDistinct(Joined(own, copies, atStart), annots)
  {
    JoinedMembers(own, copies, atStart);
  }

  lemma CopiesHoldShiftedKeys(pages: seq<Page>, annots: map<Id, Option<int>>, copies: seq<Page>,
                              annots': map<Id, Option<int>>, ren: Id -> Id, offset: int, k: int)
    requires ShiftedCopies(pages, annots, copies, annots', ren, offset)
    ensures HoldsKey(copies, annots', k) <==> IsShifted(k, AllKeys(pages, annots), offset)
  {
    AllKeysHold(pages, annots);
    if HoldsKey(copies, annots', k) {
      var p :| p in copies && k in KeysOf(p, annots');
      var o := CopyOrigin(pages, annots, copies, annots', ren, offset, p);
      ShiftedCopyKeyMembers(o, annots, p, annots', ren, offset);
      assert IsShifted(k, KeysOf(o, annots), offset);
      assert HoldsKey(pages, annots, k - offset);
    }
    if IsShifted(k, AllKeys(pages, annots), offset) {
      var was := k - offset;
      assert HoldsKey(pages, annots, was);
      var o :| o in pages && was in KeysOf(o, annots);
      var i :| 0 <= i < |pages| && pages[i] == o;
      ShiftedCopyKeyMembers(o, annots, copies[i], annots', ren, offset);
      assert IsShifted(k, KeysOf(o, annots), offset);
      assert copies[i] in copies;
    }
  }

  lemma KeysMatchAfter(own: seq<Page>, copies: seq<Page>, annots: map<Id, Option<int>>, ownEntries: map<int, Entry>,
                       keys: seq<int>, srcEntries: map<int, Entry>, ren: Id -> Id, atStart: bool)
    requires KeysStand(keys, srcEntries)
    requires forall k :: k in ownEntries ==> k >= 0 && !ownEntries[k].Null?
    requires forall k :: HoldsKey(own, annots, k) <==> k in ownEntries
    requires forall k :: HoldsKey(copies, annots, k) <==> IsShifted(k, keys, NextKey(ownEntries))
    ensures KeysMatch(Joined(own, copies, atStart), annots,
                      CopyEntries(ownEntries, srcEntries, keys, NextKey(ownEntries), ren))
  {
    var offset := NextKey(ownEntries);
    var after, entries := Joined(own, copies, atStart), CopyEntries(ownEntries, srcEntries, keys, offset, ren);
    NextKeyIsNonNegative(ownEntries);
    EntriesAfter(ownEntries, srcEntries, keys, ren);
    forall k ensures k in entries <==> HoldsKey(after, annots, k) {
      JoinedHoldsKey(own, copies, annots, atStart, k);
    }
    EntriesStand(ownEntries, srcEntries, keys, ren);
  }

  lemma EntriesStand(own: map<int, Entry>, source: map<int, Entry>, keys: seq<int>, ren: Id -> Id)
    requires KeysStand(keys, source) && forall k :: k in own ==> k >= 0 && !own[k].Null?
    ensures var entries := CopyEntries(own, source, keys, NextKey(own), ren);
      forall k :: k in entries ==> k >= 0 && !entries[k].Null?
  {
    var offset := NextKey(own);
    var entries := CopyEntries(own, source, keys, offset, ren);
    NextKeyIsNonNegative(own);
    EntriesAfter(own, source, keys, ren);
    forall k | k in entries ensures k >= 0 && !entries[k].Null? {
      if k !in own {
        assert IsShifted(k, keys, offset);
        var was := k - offset;
        CopyEntriesTakes(own, source, keys, offset, ren, was);
      }
    }
  }

  lemma JoinedHoldsKey(own: seq<Page>, copies: seq<Page>, annots: map<Id, Option<int>>, atStart: bool, k: int)
    ensures HoldsKey(Joined(own, copies, atStart), annots, k)
       <==> HoldsKey(own, annots, k) || HoldsKey(copies, annots, k)
  {
    JoinedMembers(own, copies, atStart);
  }

  /** The keys own pages hold are those of the own entries, still. */
  lemma OwnKeysHeld(own: seq<Page>, ownAnnots: map<Id, Option<int>>, ownEntries: map<int, Entry>,
                    annots: map<Id, Option<int>>)
    requires KeysDistinct(own, ownAnnots) && KeysMatch(own, ownAnnots, ownEntries)
    requires forall p :: p in own ==> KeysOf(p, annots) == KeysOf(p, ownAnnots)
    ensures KeysDistinct(own, annots)
    ensures forall k :: HoldsKey(own, annots, k) <==> k in ownEntries
    ensures forall p, k :: p in own && k in KeysOf(p, annots) ==> k < NextKey(ownEntries)
  {
    forall k ensures HoldsKey(own, annots, k) <==> k in ownEntries {
      assert HoldsKey(own, annots, k) <==> HoldsKey(own, ownAnnots, k);
    }
    forall p, k | p in own && k in KeysOf(p, annots) ensures k < NextKey(ownEntries) {
      assert HoldsKey(own, annots, k);
    }
  }

  /** The keys the copies hold are the keys of their originals, shifted to the offset and past it. */
  lemma CopyKeysHeld(pages: seq<Page>, srcAnnots: map<Id, Option<int>>, srcEntries: map<int, Entry>,
                     copies: seq<Page>, annots: map<Id, Option<int>>, ren: Id -> Id, offset: int)
    requires KeysDistinct(pages, srcAnnots) && KeysStand(AllKeys(pages, srcAnnots), srcEntries)
    requires PagesDistinct(copies) && ShiftedCopies(pages, srcAnnots, copies, annots, ren, offset)
    ensures KeysDistinct(copies, annots)
    ensures forall k :: HoldsKey(copies, annots, k) <==> IsShifted(k, AllKeys(pages, srcAnnots), offset)
    ensures forall p, k :: p in copies && k in KeysOf(p, annots) ==> offset <= k
  {
    CopiesKeysDistinct(pages, srcAnnots, copies, annots, ren, offset);
    forall k ensures HoldsKey(copies, annots, k) <==> IsShifted(k, AllKeys(pages, srcAnnots), offset) {
      CopiesHoldShiftedKeys(pages, srcAnnots, copies, annots, ren, offset, k);
    }
    forall p, k | p in copies && k in KeysOf(p, annots) ensures offset <= k {
      assert HoldsKey(copies, annots, k);
      KeysStandAtLeast(AllKeys(pages, srcAnnots), srcEntries, offset, k);
    }
  }

  lemma KeysStandAtLeast(keys: seq<int>, entries: map<int, Entry>, offset: int, k: int)
    requires KeysStand(keys, entries) && IsShifted(k, keys, offset)
    ensures offset <= k
  {
    var was := k - offset;
    assert was in keys;
  }

  /**
    Own keys below the offset, and the shifted keys from it on: distinct, and the parent tree holds them and no
    others.
   */
  lemma KeysAfter(own: seq<Page>, ownAnnots: map<Id, Option<int>>, ownEntries: map<int, Entry>,
                  pages: seq<Page>, srcAnnots: map<Id, Option<int>>, srcEntries: map<int, Entry>,
                  copies: seq<Page>, annots: map<Id, Option<int>>, ren: Id -> Id, atStart: bool)
    requires KeysDistinct(own, ownAnnots) && KeysMatch(own, ownAnnots, ownEntries)
    requires KeysDistinct(pages, srcAnnots) && KeysStand(AllKeys(pages, srcAnnots), srcEntries)
    requires forall p :: p in own ==> KeysOf(p, annots) == KeysOf(p, ownAnnots)
    requires PagesDistinct(copies) && ShiftedCopies(pages, srcAnnots, copies, annots, ren, NextKey(ownEntries))
    ensures KeysDistinct(Joined(own, copies, atStart), annots)
    ensures KeysMatch(Joined(own, copies, atStart), annots,
                      CopyEntries(ownEntries, srcEntries, AllKeys(pages, srcAnnots), NextKey(ownEntries), ren))
  {
    OwnKeysHeld(own, ownAnnots, ownEntries, annots);
    CopyKeysHeld(pages, srcAnnots, srcEntries, copies, annots, ren, NextKey(ownEntries));
    JoinedKeysDistinct(own, copies, annots, NextKey(ownEntries), atStart);
    KeysMatchAfter(own, copies, annots, ownEntries, AllKeys(pages, srcAnnots), srcEntries, ren, atStart);
  }

  // ----- Lookups after adding -----------------------------------------------------------------

  /** What is found from a page of the target stays what it was. */
  lemma OwnLookup(own: seq<Page>, ownAnnots: map<Id, Option<int>>, ownEntries: map<int, Entry>,
                  annots: map<Id, Option<int>>, keys: seq<int>, srcEntries: map<int, Entry>, ren: Id -> Id, p: Page,
                  content: Content)
    requires KeysMatch(own, ownAnnots, ownEntries) && p in own && KeysStand(keys, srcEntries)
    requires forall a :: a in p.annots ==> AnnotKey(annots, a) == AnnotKey(ownAnnots, a)
    ensures Lookup(p, annots, CopyEntries(ownEntries, srcEntries, keys, NextKey(ownEntries), ren), content)
         == Lookup(p, ownAnnots, ownEntries, content)
  {
    var entries := CopyEntries(ownEntries, srcEntries, keys, NextKey(ownEntries), ren);
    OwnKeysStay(p, ownAnnots, annots);
    EntriesAfter(ownEntries, srcEntries, keys, ren);
    forall k | k in KeysOf(p, ownAnnots) ensures k in ownEntries && k in entries && entries[k] == ownEntries[k] {
      assert HoldsKey(own, ownAnnots, k);
    }
    LookupNeedsItsKeys(p, ownAnnots, entries, ownEntries, content);
  }

  lemma KeyIsAmongAll(pages: seq<Page>, annots: map<Id, Option<int>>, page: Page, k: int)
    requires page in pages && k in KeysOf(page, annots)
    ensures k in AllKeys(pages, annots)
  {
    AllKeysHold(pages, annots);
    assert HoldsKey(pages, annots, k);
  }

  /** What is found from a copy is the copy of what is found from its original. */
  lemma CopyLookup(ownEntries: map<int, Entry>, pages: seq<Page>, srcAnnots: map<Id, Option<int>>,
                   srcEntries: map<int, Entry>, annots: map<Id, Option<int>>, ren: Id -> Id, page: Page, copy: Page,
                   content: Content)
    requires Injective(ren) && page in pages && KeysStand(AllKeys(pages, srcAnnots), srcEntries)
    requires ShiftedCopy(page, srcAnnots, copy, annots, ren, NextKey(ownEntries))
    ensures Lookup(copy, annots,
                   CopyEntries(ownEntries, srcEntries, AllKeys(pages, srcAnnots), NextKey(ownEntries), ren),
                   CopyContent(content, ren))
         == RenameRef(Lookup(page, srcAnnots, srcEntries, content), ren)
  {
    var offset := NextKey(ownEntries);
    var entries := CopyEntries(ownEntries, srcEntries, AllKeys(pages, srcAnnots), offset, ren);
    KeyForIsAmongAll(pages, srcAnnots, page, content);
    KeyTaken(ownEntries, srcEntries, AllKeys(pages, srcAnnots), offset, ren, KeyFor(page, srcAnnots, content));
    CopiedLookup(page, srcAnnots, srcEntries, copy, annots, entries, ren, offset, content);
  }

  lemma KeyForIsAmongAll(pages: seq<Page>, annots: map<Id, Option<int>>, page: Page, content: Content)
    requires page in pages
    ensures var key := KeyFor(page, annots, content); key.Some? ==> key.value in AllKeys(pages, annots)
  {
    if KeyFor(page, annots, content).Some? {
      KeyForIsHeld(page, annots, content);
      KeyIsAmongAll(pages, annots, page, KeyFor(page, annots, content).value);
    }
  }

  lemma KeyTaken(entries: map<int, Entry>, source: map<int, Entry>, keys: seq<int>, offset: int, ren: Id -> Id,
                 key: Option<int>)
    requires KeysStand(keys, source) && (key.Some? ==> key.value in keys)
    ensures KeyIsTaken(key, source, CopyEntries(entries, source, keys, offset, ren), ren, offset)
  {
    if key.Some? {
      CopyEntriesTakes(entries, source, keys, offset, ren, key.value);
    }
  }

  // ----- The inverse after adding -------------------------------------------------------------

  /** The items that come with copied pages. */
  function MovedItems(items: seq<Item>, copied: set<Id>, ren: Id -> Id): seq<Item> {
    CopyItems(KeptItems(items, copied), ren, copied)
  }

  lemma MovedOrigin(items: seq<Item>, copied: set<Id>, ren: Id -> Id, item: Item) returns (origin: Item)
    requires item in MovedItems(items, copied, ren)
    requires forall i :: i in items ==> i.page.Some?
    ensures origin in items && origin.page.Some? && origin.page.value in copied && item == CopyItem(origin, ren, copied)
  {
    var kept := KeptItems(items, copied);
    KeptItemsMembers(items, copied);
    var n :| 0 <= n < |kept| && MovedItems(items, copied, ren)[n] == item;
    origin := kept[n];
    assert origin in kept;
  }

  lemma MovedMember(items: seq<Item>, copied: set<Id>, ren: Id -> Id, origin: Item)
    requires origin in items && origin.page.Some? && origin.page.value in copied
    ensures CopyItem(origin, ren, copied) in MovedItems(items, copied, ren)
  {
    var kept := KeptItems(items, copied);
    KeptItemsMembers(items, copied);
    var n :| 0 <= n < |kept| && kept[n] == origin;
    assert MovedItems(items, copied, ren)[n] == CopyItem(origin, ren, copied);
  }

  /** On a page of the target the two agree as before: no moved item is on it. */
  lemma AgreeOnOwnPage(p: Page, annots: map<Id, Option<int>>, entries: map<int, Entry>, items: seq<Item>,
                       annots': map<Id, Option<int>>, entries': map<int, Entry>, srcItems: seq<Item>, copied: set<Id>,
                       ren: Id -> Id, atStart: bool, content: Content, elem: Id)
    requires Agree(p, annots, entries, items, content, elem)
    requires Lookup(p, annots', entries', content) == Lookup(p, annots, entries, content)
    requires forall i :: i in srcItems ==> i.page.Some?
    requires forall x :: ren(x) != p.id
    ensures Agree(p, annots', entries', Joined(items, MovedItems(srcItems, copied, ren), atStart), content, elem)
  {
    var item := Item(elem, Some(p.id), content);
    JoinedMembers(items, MovedItems(srcItems, copied, ren), atStart);
    if item in MovedItems(srcItems, copied, ren) {
      var origin := MovedOrigin(srcItems, copied, ren, item);
    }
  }

  /** On a copied page they agree because they did on its original: all that is there is a copy. */
  lemma AgreeOnCopiedPage(page: Page, annots: map<Id, Option<int>>, entries: map<int, Entry>, srcItems: seq<Item>,
                          copy: Page, annots': map<Id, Option<int>>, entries': map<int, Entry>, ownItems: seq<Item>,
                          copied: set<Id>, ren: Id -> Id, offset: int, atStart: bool, content: Content, elem: Id)
    requires Injective(ren) && page.id in copied && ShiftedCopy(page, annots, copy, annots', ren, offset)
    requires forall c, e :: Agree(page, annots, entries, srcItems, c, e)
    requires forall c ::
      Lookup(copy, annots', entries', CopyContent(c, ren)) == RenameRef(Lookup(page, annots, entries, c), ren)
    requires forall i :: i in srcItems ==> i.page.Some?
    requires forall i :: i in ownItems ==> i.page != Some(copy.id)
    ensures Agree(copy, annots', entries', Joined(ownItems, MovedItems(srcItems, copied, ren), atStart), content, elem)
  {
    var moved, item := MovedItems(srcItems, copied, ren), Item(elem, Some(copy.id), content);
    JoinedMembers(ownItems, moved, atStart);
    if Lookup(copy, annots', entries', content) == Some(elem) {
      var c := CopiedLookupFindsCopies(page, annots, copy, annots', entries', ren, offset, content);
      var e := Lookup(page, annots, entries, c).value;
      assert Agree(page, annots, entries, srcItems, c, e);
      MovedMember(srcItems, copied, ren, Item(e, Some(page.id), c));
    }
    if item in moved {
      var origin := MovedOrigin(srcItems, copied, ren, item);
      assert ren(origin.page.value) == ren(page.id);
      assert Agree(page, annots, entries, srcItems, origin.content, origin.owner);
    }
  }

  /** Every item is on a page of the document. */
  lemma ItemsOnPagesAfter(own: seq<Page>, ownItems: seq<Item>, pages: seq<Page>, srcItems: seq<Item>, copies: seq<Page>,
                          ren: Id -> Id, atStart: bool)
    requires forall i :: i in ownItems ==> i.page.Some? && i.page.value in PageIds(own)
    requires forall i :: i in srcItems ==> i.page.Some?
    requires RenamedPages(pages, copies, ren)
    ensures forall i :: i in Joined(ownItems, MovedItems(srcItems, PageIds(pages), ren), atStart) ==>
      i.page.Some? && i.page.value in PageIds(Joined(own, copies, atStart))
  {
    var moved, after := MovedItems(srcItems, PageIds(pages), ren), Joined(own, copies, atStart);
    JoinedMembers(ownItems, moved, atStart);
    JoinedMembers(own, copies, atStart);
    forall i | i in moved ensures i.page.Some? && i.page.value in PageIds(after) {
      var origin := MovedOrigin(srcItems, PageIds(pages), ren, i);
      var p :| p in pages && p.id == origin.page.value;
      var n :| 0 <= n < |pages| && pages[n] == p;
      assert copies[n] in after && copies[n].id == i.page.value;
    }
    forall i | i in ownItems ensures i.page.value in PageIds(after) {
      var p :| p in own && p.id == i.page.value;
      assert p in after;
    }
  }
}
