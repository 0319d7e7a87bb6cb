/** Covers and whole merges: folding any number of documents into the first. */
module Merge {
  import opened Wrappers
  import opened NumberTree
  import opened StructTree
  import opened StructCopy
  import opened TaggedPdf
  import opened TaggedLaw
  import opened AddLaw
  import EmbeddedFiles

  // ----- The operations -----------------------------------------------------------------------

  /** A document without its placeholder page, where it starts with one. */
  function Strip(d: Doc): Doc {
    if StartsWithPlaceholder(d) then RemoveFirstPage(d) else d
  }

  const NO_PAGES := "Cover page PDF has no pages"

  /** Put the first page of the cover in place of the placeholder page of the content. */
  function ReplaceFirstPageWithCover(content: Doc, cover: Doc, ren: Id -> Id): Result<Doc>
    requires Injective(ren)
  {
    if cover.pages == [] then Err(NO_PAGES)
    else Ok(Add(Strip(content), cover, [cover.pages[0]], ren, true))
  }

  /** The document a merge is built on. */
  function Started(first: Doc): Doc {
    Strip(first).(files := EmbeddedFiles.Tidied(first.files))
  }

  /** A merge with one more document. */
  function Extended(merged: Doc, next: Doc, ren: Id -> Id): Doc
    requires Injective(ren)
  {
    Add(merged, Strip(next), Strip(next).pages, ren,
        false).(files := EmbeddedFiles.AddFiles(merged.files, next.files, ren))
  }

  /** The merge of documents in their order; each of the later ones is copied under a renaming of its own. */
  function MergeDocs(first: Doc, rest: seq<Doc>, rens: seq<Id -> Id>): Doc
    requires |rens| == |rest| && AllInjective(rens)
  {
    if rest == [] then Started(first)
    else Extended(MergeDocs(first, Front(rest), Front(rens)), Last(rest), Last(rens))
  }

  function Front<T>(s: seq<T>): seq<T>
    requires s != []
  {
    s[..|s| - 1]
  }

  function Last<T>(s: seq<T>): T
    requires s != []
  {
    s[|s| - 1]
  }

  ghost predicate AllInjective(rens: seq<Id -> Id>) {
    forall i :: 0 <= i < |rens| ==> Injective(rens[i])
  }

  /** Sound documents, each copied to objects new to the merge so far. */
  ghost predicate Mergeable(first: Doc, rest: seq<Doc>, rens: seq<Id -> Id>) {
    |rens| == |rest| && AllInjective(rens)
    && if rest == [] then Sound(first)
       else Mergeable(first, Front(rest), Front(rens)) && Sound(Last(rest))
            && Fresh(Last(rens), MergeDocs(first, Front(rest), Front(rens)))
  }

  /** There is always a renaming to copy with. */
  lemma FreshRenamingExists(d: Doc) returns (ren: Id -> Id)
    ensures Fresh(ren, d)
  {
    var entries := map x: int | x in UsedIds(d) :: 0;
    NextKeyIsNonNegative(entries);
    var offset: nat := NextKey(entries);
    forall x: int | x in UsedIds(d) ensures x < offset {
      assert x in entries;
    }
    ren := x => x + offset;
  }

  /** A tagged document of one page, with a paragraph on it and a link. */
  function SmallDocument(): Doc {
    Doc([Page(1, Some(0), [2], false)], map[2 := Some(1)], Some(Structure(SmallTree(), Node(SmallNums(), []), Some(2))),
        Some("en"), EmbeddedFiles.Files(None, []))
  }

  function SmallTree(): Element {
    var link := Element(12, "Link", None, None, [Reference(Some(1), Object(2))]);
    Element(10, "Document", None, None, [Child(Element(11, "P", Some(1), None, [Mcid(0), Child(link)]))])
  }

  function SmallNums(): seq<(int, Entry)> {
    [(0, Owners([Some(11)], None)), (1, Owner(Some(12)))]
  }

  lemma SmallTreeIsGood()
    ensures GoodTree(SmallTree()) && Items(SmallTree()) == [Item(11, Some(1), Mark(0)), Item(12, Some(1), Object(2))]
  {
    var paragraph := SmallTree().kids[0].elem;
    var link := paragraph.kids[1].elem;
    assert Items(link) == [Item(12, Some(1), Object(2))];
    assert Items(paragraph) == [Item(11, Some(1), Mark(0)), Item(12, Some(1), Object(2))];
    assert Descendants(link) == [] && Descendants(paragraph) == [link] && Descendants(SmallTree()) == [paragraph, link];
    assert ReferencesPaged(link) && ReferencesPaged(paragraph);
  }

  lemma SmallKeysMatch(page: Page, annots: map<Id, Option<int>>)
    requires page == Page(1, Some(0), [2], false) && annots == map[2 := Some(1)]
    ensures Read(Node(SmallNums(), [])) == map[0 := Owners([Some(11)], None), 1 := Owner(Some(12))]
    ensures KeysOf(page, annots) == [0, 1] && KeysDistinct([page], annots) && PagesDistinct([page])
    ensures KeysMatch([page], annots, Read(Node(SmallNums(), [])))
  {
    var nums := SmallNums();
    assert nums[1..] == [nums[1]] && nums[1..][1..] == [];
    assert FromPairs(nums) == map[nums[0].0 := nums[0].1] + (map[nums[1].0 := nums[1].1] + map[]);
    assert page.annots[1..] == [] && AnnotKey(annots, 2) == Some(1);
    assert AnnotKeys(page.annots, annots) == [1];
    assert page in [page];
  }

  /** There are whole documents. */
  lemma SmallDocumentIsWhole()
    ensures Whole(SmallDocument())
  {
    SmallTreeIsGood();
    SmallKeysMatch(Page(1, Some(0), [2], false), map[2 := Some(1)]);
    SmallInverse(SmallDocument().pages, SmallDocument().annots, Entries(SmallDocument()), Items(SmallTree()));
  }

  lemma SmallInverse(pages: seq<Page>, annots: map<Id, Option<int>>, entries: map<int, Entry>, items: seq<Item>)
    requires pages == [Page(1, Some(0), [2], false)] && annots == map[2 := Some(1)]
    requires entries == map[0 := Owners([Some(11)], None), 1 := Owner(Some(12))]
    requires items == [Item(11, Some(1), Mark(0)), Item(12, Some(1), Object(2))]
    ensures Inverse(pages, annots, entries, items)
  {
    assert pages[0] in pages && 1 in PageIds(pages);
  }

  // ----- The law over a whole merge -----------------------------------------------------------

  lemma StripKeepsWhole(d: Doc)
    requires Sound(d)
    ensures Sound(Strip(d)) && (Whole(d) ==> Whole(Strip(d)))
  {
    if StartsWithPlaceholder(d) {
      RemoveFirstPageKeepsWhole(d);
    }
  }

  /** All pages of a document can be taken. */
  lemma AllPagesSelected(d: Doc)
    requires Sound(d)
    ensures Selected(d.pages, d)
  {
  }

  lemma ExtendedKeepsWhole(merged: Doc, next: Doc, ren: Id -> Id)
    requires Sound(merged) && Sound(next) && Fresh(ren, merged)
    ensures Sound(Extended(merged, next, ren)) && (Whole(Extended(merged, next, ren)) <==> Whole(merged))
    ensures Addable(merged, Strip(next), Strip(next).pages, ren)
  {
    StripKeepsWhole(next);
    AllPagesSelected(Strip(next));
    AddKeepsWhole(merged, Strip(next), Strip(next).pages, ren, false);
  }

  /**
    The merge of any number of sound documents, tagged or not, is sound, and whole exactly if the first is, less its
    placeholder; a whole first document stays so without it.
   */
  lemma {:induction false} MergeKeepsWhole(first: Doc, rest: seq<Doc>, rens: seq<Id -> Id>)
    requires Mergeable(first, rest, rens)
    ensures Sound(MergeDocs(first, rest, rens)) && (Whole(MergeDocs(first, rest, rens)) <==> Whole(Strip(first)))
    ensures Whole(first) ==> Whole(MergeDocs(first, rest, rens))
    ensures MergeDocs(first, rest, rens).structure.Some? <==> first.structure.Some?
    ensures MergeDocs(first, rest, rens).lang == first.lang
  {
    if rest == [] {
      StripKeepsWhole(first);
    } else {
      MergeKeepsWhole(first, Front(rest), Front(rens));
      ExtendedKeepsWhole(MergeDocs(first, Front(rest), Front(rens)), Last(rest), Last(rens));
    }
  }

  /** A cover, as well, leaves a whole document; one without pages is refused. */
  lemma CoverKeepsWhole(content: Doc, cover: Doc, ren: Id -> Id)
    requires Sound(content) && Sound(cover) && Fresh(ren, Strip(content))
    ensures ReplaceFirstPageWithCover(content, cover, ren).Err? <==> cover.pages == []
    ensures cover.pages != [] ==> Addable(Strip(content), cover, [cover.pages[0]], ren)
    ensures cover.pages != [] ==>
      var covered := ReplaceFirstPageWithCover(content, cover, ren).value;
      Sound(covered) && (Whole(covered) <==> Whole(Strip(content))) && (Whole(content) ==> Whole(covered))
  {
    StripKeepsWhole(content);
    if cover.pages != [] {
      AddKeepsWhole(Strip(content), cover, [cover.pages[0]], ren, true);
    }
  }

  /** Sound documents can be merged: there are renamings to copy them with. */
  lemma {:induction false} MergeableExists(first: Doc, rest: seq<Doc>) returns (rens: seq<Id -> Id>)
    requires Sound(first) && forall i :: 0 <= i < |rest| ==> Sound(rest[i])
    ensures Mergeable(first, rest, rens)
  {
    if rest == [] {
      rens := [];
    } else {
      var before := MergeableExists(first, Front(rest));
      var ren := FreshRenamingExists(MergeDocs(first, Front(rest), before));
      rens := before + [ren];
      assert Front(rens) == before && Last(rens) == ren;
    }
  }

  /** A key past all that pages and annotations hold, and no further than needed. */
  ghost predicate PastAllKeys(next: int, pages: seq<Page>, annots: map<Id, Option<int>>) {
    (forall k :: HoldsKey(pages, annots, k) ==> 0 <= k < next)
    && (if next == 0 then forall k :: !HoldsKey(pages, annots, k) else HoldsKey(pages, annots, next - 1))
  }

  lemma NextKeyIsPastAll(pages: seq<Page>, annots: map<Id, Option<int>>, entries: map<int, Entry>)
    requires KeysMatch(pages, annots, entries)
    ensures PastAllKeys(NextKey(entries), pages, annots)
  {
    if NextKey(entries) != 0 {
      var last := NextKey(entries) - 1;
      assert last in entries;
    }
  }

  /** The next key the structure names is the one past the greatest. */
  predicate NamesNextKey(d: Doc) {
    d.structure.Some? && d.structure.value.nextKey == Some(NextKey(Entries(d)))
  }

  lemma RewrittenNamesNextKey(document: Element, entries: map<int, Entry>)
    ensures var s := Rewritten(document, entries);
      Read(s.parentTree) == entries && s.nextKey == Some(NextKey(Read(s.parentTree)))
  {
    ReadWritten(entries);
  }

  lemma StripNamesNextKey(d: Doc)
    requires d.structure.Some?
    ensures NamesNextKey(Strip(d)) <==> NamesNextKey(d) || StartsWithPlaceholder(d)
  {
    if StartsWithPlaceholder(d) {
      RewrittenNamesNextKey(Prune(d.structure.value.document, PageIds(d.pages[1..])),
                            WithoutKeys(Entries(d), KeysOf(d.pages[0], d.annots)));
    }
  }

  lemma AddNamesNextKey(target: Doc, source: Doc, pages: seq<Page>, ren: Id -> Id, atStart: bool)
    requires Injective(ren) && target.structure.Some?
    ensures NamesNextKey(Add(target, source, pages, ren, atStart)) <==> NamesNextKey(target) || source.structure.Some?
  {
    if source.structure.Some? {
      RewrittenNamesNextKey(AddedDocument(target, source, pages, ren, atStart),
                            AddedEntries(target, source, pages, ren));
    }
  }

  /** Some document is tagged. */
  predicate AnyTagged(docs: seq<Doc>) {
    exists i :: 0 <= i < |docs| && docs[i].structure.Some?
  }

  lemma AnyTaggedLast(docs: seq<Doc>)
    requires docs != []
    ensures AnyTagged(docs) <==> AnyTagged(Front(docs)) || Last(docs).structure.Some?
  {
    if AnyTagged(docs) {
      var i :| 0 <= i < |docs| && docs[i].structure.Some?;
      assert i == |docs| - 1 || Front(docs)[i] == docs[i];
    }
    if AnyTagged(Front(docs)) {
      var i :| 0 <= i < |Front(docs)| && Front(docs)[i].structure.Some?;
      assert docs[i] == Front(docs)[i];
    }
  }

  /** A merge names the right next key exactly if the first document does, or its parent tree is ever rewritten. */
  lemma {:induction false} MergeNamesNextKeyIff(first: Doc, rest: seq<Doc>, rens: seq<Id -> Id>)
    requires |rens| == |rest| && AllInjective(rens) && first.structure.Some?
    ensures MergeDocs(first, rest, rens).structure.Some?
    ensures NamesNextKey(MergeDocs(first, rest, rens))
       <==> NamesNextKey(first) || StartsWithPlaceholder(first) || AnyTagged(rest)
  {
    if rest == [] {
      StripNamesNextKey(first);
    } else {
      MergeNamesNextKeyIff(first, Front(rest), Front(rens));
      AddNamesNextKey(MergeDocs(first, Front(rest), Front(rens)), Strip(Last(rest)), Strip(Last(rest)).pages,
                      Last(rens), false);
      AnyTaggedLast(rest);
    }
  }

  lemma PastAllIsNextKey(next: int, pages: seq<Page>, annots: map<Id, Option<int>>, entries: map<int, Entry>)
    requires KeysMatch(pages, annots, entries)
    ensures PastAllKeys(next, pages, annots) <==> next == NextKey(entries)
  {
    NextKeyIsPastAll(pages, annots, entries);
    if PastAllKeys(next, pages, annots) && next != 0 {
      assert next - 1 in entries;
    }
    if entries != map[] {
      assert HoldsKey(pages, annots, NextKey(entries) - 1);
    }
  }

  /**
    Of a merge, the next key is past every key that a page or annotation holds, and one past the greatest, exactly if
    the first document names it so, or starts with a placeholder, or some later document is tagged.
   */
  lemma MergedNextKeyIsFreeIff(first: Doc, rest: seq<Doc>, rens: seq<Id -> Id>)
    requires Mergeable(first, rest, rens) && first.structure.Some?
    ensures MergeDocs(first, rest, rens).structure.Some?
    ensures var d := MergeDocs(first, rest, rens);
      (d.structure.value.nextKey.Some? && PastAllKeys(d.structure.value.nextKey.value, d.pages, d.annots))
      <==> NamesNextKey(first) || StartsWithPlaceholder(first) || AnyTagged(rest)
  {
    MergeKeepsWhole(first, rest, rens);
    MergeNamesNextKeyIff(first, rest, rens);
    var d := MergeDocs(first, rest, rens);
    if d.structure.value.nextKey.Some? {
      PastAllIsNextKey(d.structure.value.nextKey.value, d.pages, d.annots, Entries(d));
    }
  }

  // ----- Pages --------------------------------------------------------------------------------

  /** Pages without their keys: which they are, and in which order. */
  function Keyless(pages: seq<Page>): (r: seq<Page>)
    ensures |r| == |pages| && forall i :: 0 <= i < |pages| ==> r[i] == pages[i].(key := None)
  {
    seq(|pages|, i requires 0 <= i < |pages| => pages[i].(key := None))
  }

  lemma KeylessJoined(own: seq<Page>, changed: seq<Page>, pages: seq<Page>, atStart: bool)
    requires |changed| == |pages| && forall i :: 0 <= i < |pages| ==> changed[i].(key := None) == pages[i].(key := None)
    ensures Keyless(Joined(own, changed, atStart)) == Joined(Keyless(own), Keyless(pages), atStart)
  {
  }

  /** Adding pages adds copies of exactly these, in their order. */
  lemma AddedPagesAreCopies(target: Doc, source: Doc, pages: seq<Page>, ren: Id -> Id, atStart: bool)
    requires Injective(ren)
    ensures Keyless(Add(target, source, pages, ren, atStart).pages)
         == Joined(Keyless(target.pages), Keyless(CopyPages(pages, ren)), atStart)
  {
    var copies := CopyPages(pages, ren);
    if target.structure.None? || source.structure.None? {
      KeylessJoined(target.pages, DetachPages(copies), copies, atStart);
    } else {
      KeylessJoined(target.pages, AddedPages(target, pages, ren), copies, atStart);
    }
  }

  /** The pages of a document less its placeholder, which is the first of several pages that is marked as one. */
  function TakenPages(d: Doc): seq<Page> {
    if |d.pages| > 1 && d.pages[0].placeholder then d.pages[1..] else d.pages
  }

  /** Copies of pages: a new identity for each page and each of its annotations, in the same order, and no keys. */
  function PageCopies(pages: seq<Page>, ren: Id -> Id): (r: seq<Page>)
    ensures |r| == |pages|
  {
    seq(|pages|, i requires 0 <= i < |pages| =>
      Page(ren(pages[i].id), None,
           seq(|pages[i].annots|, k requires 0 <= k < |pages[i].annots| => ren(pages[i].annots[k])),
           pages[i].placeholder))
  }

  lemma KeylessCopies(pages: seq<Page>, ren: Id -> Id)
    ensures Keyless(CopyPages(pages, ren)) == PageCopies(pages, ren)
  {
    forall i | 0 <= i < |pages| ensures Keyless(CopyPages(pages, ren))[i] == PageCopies(pages, ren)[i] {
      assert RenameIds(pages[i].annots, ren) == PageCopies(pages, ren)[i].annots;
    }
  }

  /** The pages of the documents, each less its placeholder, one document after the other. */
  function AllPages(first: Doc, rest: seq<Doc>, rens: seq<Id -> Id>): seq<Page>
    requires |rens| == |rest|
  {
    if rest == [] then Keyless(TakenPages(first))
    else AllPages(first, Front(rest), Front(rens)) + PageCopies(TakenPages(Last(rest)), Last(rens))
  }

  /** The merged pages are those of the documents, in order, less the placeholders. */
  lemma {:induction false} MergeConservesPages(first: Doc, rest: seq<Doc>, rens: seq<Id -> Id>)
    requires |rens| == |rest| && AllInjective(rens)
    ensures Keyless(MergeDocs(first, rest, rens).pages) == AllPages(first, rest, rens)
  {
    if rest != [] {
      MergeConservesPages(first, Front(rest), Front(rens));
      KeylessCopies(TakenPages(Last(rest)), Last(rens));
      AddedPagesAreCopies(MergeDocs(first, Front(rest), Front(rens)), Strip(Last(rest)), Strip(Last(rest)).pages,
                          Last(rens), false);
    }
  }

  /** How many pages the documents have, all in all. */
  function PageCount(docs: seq<Doc>): nat {
    if docs == [] then 0 else |docs[0].pages| + PageCount(docs[1..])
  }

  /** How many of the documents have several pages, of which the first is a placeholder. */
  function PlaceholderCount(docs: seq<Doc>): nat {
    if docs == [] then 0
    else (if |docs[0].pages| > 1 && docs[0].pages[0].placeholder then 1 else 0) + PlaceholderCount(docs[1..])
  }

  lemma {:induction false} CountsConcat(a: seq<Doc>, b: seq<Doc>)
    ensures PageCount(a + b) == PageCount(a) + PageCount(b)
    ensures PlaceholderCount(a + b) == PlaceholderCount(a) + PlaceholderCount(b)
  {
    if a == [] {
      assert a + b == b;
    } else {
      assert (a + b)[0] == a[0] && (a + b)[1..] == a[1..] + b;
      CountsConcat(a[1..], b);
    }
  }

  /** A merge has the pages of its documents, less one for each of several pages that starts with a placeholder. */
  lemma {:induction false} MergeCountsPages(first: Doc, rest: seq<Doc>, rens: seq<Id -> Id>)
    requires |rens| == |rest| && AllInjective(rens)
    ensures |MergeDocs(first, rest, rens).pages| == PageCount([first] + rest) - PlaceholderCount([first] + rest)
  {
    MergeConservesPages(first, rest, rens);
    AllPagesCount(first, rest, rens);
    assert |Keyless(MergeDocs(first, rest, rens).pages)| == |AllPages(first, rest, rens)|;
  }

  lemma {:induction false} AllPagesCount(first: Doc, rest: seq<Doc>, rens: seq<Id -> Id>)
    requires |rens| == |rest|
    ensures |AllPages(first, rest, rens)| == PageCount([first] + rest) - PlaceholderCount([first] + rest)
  {
    if rest == [] {
      OneDocCounts(first);
      assert [first] + rest == [first];
    } else {
      AllPagesCount(first, Front(rest), Front(rens));
      CountsConcat([first] + Front(rest), [Last(rest)]);
      OneDocCounts(Last(rest));
      assert [first] + rest == [first] + Front(rest) + [Last(rest)];
    }
  }

  lemma OneDocCounts(d: Doc)
    ensures |Strip(d).pages| == PageCount([d]) - PlaceholderCount([d])
  {
    assert [d][1..] == [];
  }

  /**
    A document under a cover loses another page at the merge exactly when the cover itself is a placeholder, in front of
    pages of its own: else the placeholder goes once, with the cover, and the merge takes no further page.
   */
  lemma CoverThenMergeStripsOnce(content: Doc, cover: Doc, ren: Id -> Id)
    requires Injective(ren) && cover.pages != []
    ensures var covered := ReplaceFirstPageWithCover(content, cover, ren).value;
      |covered.pages| == 1 + |Strip(content).pages|
      && (Strip(covered).pages == covered.pages <==> !(cover.pages[0].placeholder && content.pages != []))
      && (StartsWithPlaceholder(content) && !cover.pages[0].placeholder ==>
            Strip(covered) == covered && Keyless(covered.pages[1..]) == Keyless(content.pages[1..]))
  {
    var covered := ReplaceFirstPageWithCover(content, cover, ren).value;
    AddedPagesAreCopies(Strip(content), cover, [cover.pages[0]], ren, true);
    var kept, added := Keyless(Strip(content).pages), Keyless(CopyPages([cover.pages[0]], ren));
    assert Keyless(covered.pages) == added + kept;
    assert covered.pages[0].placeholder == Keyless(covered.pages)[0].placeholder == added[0].placeholder;
    assert Keyless(covered.pages[1..]) == Keyless(covered.pages)[1..] == kept;
    assert |Strip(content).pages| > 0 <==> content.pages != [];
    if StartsWithPlaceholder(covered) {
      assert |Strip(covered).pages| < |covered.pages|;
    }
  }

  /** The first page of a cover goes at the merge, if it is a placeholder before a page of the content. */
  lemma PlaceholderCoverIsTaken(ren: Id -> Id)
    requires Injective(ren)
    ensures var content := SmallDocument();
      var cover := content.(pages := [content.pages[0].(placeholder := true)]);
      var covered := ReplaceFirstPageWithCover(content, cover, ren).value;
      |covered.pages| == 2 && |Strip(covered).pages| == 1
  {
    var content := SmallDocument();
    CoverThenMergeStripsOnce(content, content.(pages := [content.pages[0].(placeholder := true)]), ren);
  }

  /** The second pruning of a document whose placeholder is gone, when it is added to a merge, changes nothing. */
  lemma StrippedIsPrunedAlready(d: Doc)
    requires StartsWithPlaceholder(d) && d.structure.Some?
    ensures Prune(Strip(d).structure.value.document, PageIds(Strip(d).pages)) == Strip(d).structure.value.document
  {
    PruneIdempotent(d.structure.value.document, PageIds(d.pages[1..]));
  }

  // ----- Lookups over a whole merge -----------------------------------------------------------

  /** A page of the document with the given identity finds the element for a content item. */
  ghost predicate Finds(d: Doc, page: Id, content: Content, elem: Id) {
    d.structure.Some?
    && exists p :: p in d.pages && p.id == page && Lookup(p, d.annots, Entries(d), content) == Some(elem)
  }

  /** In a whole document a lookup finds exactly the element that holds the item, reached from the structure. */
  lemma FindsWhatHolds(d: Doc, page: Id, content: Content, elem: Id)
    requires Sound(d) && d.structure.Some?
    ensures Finds(d, page, content, elem) <==> Item(elem, Some(page), content) in Items(d.structure.value.document)
    ensures Finds(d, page, content, elem) ==>
      elem in [d.structure.value.document.id] + ElementIds(Descendants(d.structure.value.document))
  {
    var document := d.structure.value.document;
    var item := Item(elem, Some(page), content);
    if item in Items(document) {
      var p :| p in d.pages && p.id == page;
      assert Agree(p, d.annots, Entries(d), Items(document), content, elem);
      OwnersAreElements(document.kids, document.id, document.pg);
      assert elem == document.id || elem in ElementIds(KidElements(document.kids));
    }
    if Finds(d, page, content, elem) {
      var p :| p in d.pages && p.id == page && Lookup(p, d.annots, Entries(d), content) == Some(elem);
      assert Agree(p, d.annots, Entries(d), Items(document), content, elem);
    }
  }

  lemma {:induction false} OwnersAreElements(kids: seq<Kid>, owner: Id, pg: Option<Id>)
    ensures forall i :: i in KidItems(kids, owner, pg) ==> i.owner == owner || i.owner in ElementIds(KidElements(kids))
    decreases kids, 0
  {
    if kids != [] {
      OwnersAreElements(kids[1..], owner, pg);
      OwnersAreElementsOf(kids[0], owner, pg);
      assert ElementIds(KidElements(kids)) == ElementIds(ElementsOf(kids[0])) + ElementIds(KidElements(kids[1..]));
    }
  }

  lemma {:induction false} OwnersAreElementsOf(kid: Kid, owner: Id, pg: Option<Id>)
    ensures forall i :: i in ItemsOf(kid, owner, pg) ==> i.owner == owner || i.owner in ElementIds(ElementsOf(kid))
    decreases kid, 2
  {
    if kid.Child? {
      OwnersAreElements(kid.elem.kids, kid.elem.id, kid.elem.pg);
      assert ElementIds(ElementsOf(kid)) == [kid.elem.id] + ElementIds(Descendants(kid.elem));
    }
  }

  /** Items on the pages kept are all kept. */
  lemma {:induction false} KeptItemsAll(items: seq<Item>, pages: set<Id>)
    requires forall i :: i in items ==> i.page.Some? && i.page.value in pages
    ensures KeptItems(items, pages) == items
  {
    if items != [] {
      assert items[0] in items;
      KeptItemsAll(items[1..], pages);
    }
  }

  /** Stripped of its placeholder, a document holds the items of the other pages, in order. */
  lemma StrippedItems(d: Doc)
    requires Sound(d) && d.structure.Some?
    ensures Items(Strip(d).structure.value.document)
         == KeptItems(Items(d.structure.value.document), PageIds(Strip(d).pages))
  {
    if StartsWithPlaceholder(d) {
      PruneKeepsGoodTree(d.structure.value.document, PageIds(d.pages[1..]));
    } else {
      KeptItemsAll(Items(d.structure.value.document), PageIds(d.pages));
    }
  }

  /** What a document brings to a merge: copies of the items of its pages, less the placeholder, if it is tagged. */
  function BroughtItems(d: Doc, ren: Id -> Id): seq<Item> {
    if d.structure.None? then []
    else MovedItems(Items(d.structure.value.document), PageIds(Strip(d).pages), ren)
  }

  function AllItems(first: Doc, rest: seq<Doc>, rens: seq<Id -> Id>): seq<Item>
    requires |rens| == |rest| && first.structure.Some?
  {
    if rest == [] then KeptItems(Items(first.structure.value.document), PageIds(Strip(first).pages))
    else AllItems(first, Front(rest), Front(rens)) + BroughtItems(Last(rest), Last(rens))
  }

  /**
    The content items of the merge are those of the tagged documents, copied, one document after the other: none is
    lost, none is doubled, and each stays with the copy of its element and the copy of its page.
   */
  lemma {:induction false} MergeConservesItems(first: Doc, rest: seq<Doc>, rens: seq<Id -> Id>)
    requires Mergeable(first, rest, rens) && first.structure.Some?
    ensures MergeDocs(first, rest, rens).structure.Some?
    ensures Items(MergeDocs(first, rest, rens).structure.value.document) == AllItems(first, rest, rens)
  {
    MergeKeepsWhole(first, rest, rens);
    if rest == [] {
      StrippedItems(first);
    } else {
      var merged, next, ren := MergeDocs(first, Front(rest), Front(rens)), Last(rest), Last(rens);
      MergeKeepsWhole(first, Front(rest), Front(rens));
      MergeConservesItems(first, Front(rest), Front(rens));
      ExtendedItems(merged, next, ren);
    }
  }

  lemma ExtendedItems(merged: Doc, next: Doc, ren: Id -> Id)
    requires Sound(merged) && Sound(next) && Fresh(ren, merged) && merged.structure.Some?
    ensures Items(Extended(merged, next, ren).structure.value.document)
         == Items(merged.structure.value.document) + BroughtItems(next, ren)
  {
    if next.structure.Some? {
      var source := Strip(next);
      ExtendedKeepsWhole(merged, next, ren);
      AddedTree(merged, source, source.pages, ren, false);
      StrippedItems(next);
      var kept := Items(source.structure.value.document);
      KeptItemsMembers(Items(next.structure.value.document), PageIds(source.pages));
      KeptItemsAll(kept, PageIds(source.pages));
    }
  }

  /**
    Every lookup of every tagged document is answered by the merge as the document answers it: from the copy of the
    page, for the copy of the content, the copy of the element.
   */
  lemma MergeKeepsLookups(first: Doc, rest: seq<Doc>, rens: seq<Id -> Id>, i: nat, page: Page, content: Content,
                          elem: Id)
    requires Mergeable(first, rest, rens) && first.structure.Some?
    requires i < |rest| && rest[i].structure.Some? && page in Strip(rest[i]).pages
    ensures Finds(rest[i], page.id, content, elem) <==>
            Finds(MergeDocs(first, rest, rens), rens[i](page.id), CopyContent(content, rens[i]), rens[i](elem))
  {
    var merged, ren := MergeDocs(first, rest, rens), rens[i];
    var item := Item(elem, Some(page.id), content);
    EachIsWhole(first, rest, rens, i);
    MergeKeepsWhole(first, rest, rens);
    MergeConservesItems(first, rest, rens);
    FindsCopyIff(rest[i], ren, page, content, elem);
    FindsWhatHolds(merged, ren(page.id), CopyContent(content, ren), ren(elem));
    ItemsOfOnePage(first, rest, rens, i, page, Item(ren(elem), Some(ren(page.id)), CopyContent(content, ren)));
  }

  /**
    And by nothing else: what is found from a copied page is copied from what its own, tagged, document finds there.
   */
  lemma MergeFindsCopiesOnly(first: Doc, rest: seq<Doc>, rens: seq<Id -> Id>, i: nat, page: Page, found: Content,
                             elem: Id)
    returns (content: Content, owner: Id)
    requires Mergeable(first, rest, rens) && first.structure.Some? && i < |rest| && page in Strip(rest[i]).pages
    requires Finds(MergeDocs(first, rest, rens), rens[i](page.id), found, elem)
    ensures rest[i].structure.Some? && found == CopyContent(content, rens[i]) && elem == rens[i](owner)
    ensures Finds(rest[i], page.id, content, owner)
  {
    var merged, ren := MergeDocs(first, rest, rens), rens[i];
    var item := Item(elem, Some(ren(page.id)), found);
    EachIsWhole(first, rest, rens, i);
    MergeKeepsWhole(first, rest, rens);
    MergeConservesItems(first, rest, rens);
    FindsWhatHolds(merged, ren(page.id), found, elem);
    ItemsOfOnePage(first, rest, rens, i, page, item);
    content, owner := BroughtFrom(rest[i], ren, page, item);
  }

  /** An item brought with a page is copied from an item the document finds there. */
  lemma BroughtFrom(d: Doc, ren: Id -> Id, page: Page, item: Item) returns (content: Content, owner: Id)
    requires Sound(d) && Injective(ren) && page in Strip(d).pages
    requires item in BroughtItems(d, ren) && item.page == Some(ren(page.id))
    ensures d.structure.Some? && item.content == CopyContent(content, ren) && item.owner == ren(owner)
    ensures Finds(d, page.id, content, owner)
  {
    var origin := MovedOrigin(Items(d.structure.value.document), PageIds(Strip(d).pages), ren, item);
    content, owner := origin.content, origin.owner;
    assert origin == Item(owner, Some(page.id), content);
    FindsWhatHolds(d, page.id, content, owner);
  }

  lemma FindsCopyIff(d: Doc, ren: Id -> Id, page: Page, content: Content, elem: Id)
    requires Sound(d) && d.structure.Some? && Injective(ren) && page in Strip(d).pages
    ensures Finds(d, page.id, content, elem)
        <==> Item(ren(elem), Some(ren(page.id)), CopyContent(content, ren)) in BroughtItems(d, ren)
  {
    var item := Item(elem, Some(page.id), content);
    FindsWhatHolds(d, page.id, content, elem);
    BroughtItemIff(d, ren, page, item);
  }

  /** A brought item is on a page that is new to the merge. */
  lemma BroughtPageIsNew(merged: Doc, next: Doc, ren: Id -> Id, item: Item)
    requires Sound(next) && Fresh(ren, merged) && item in BroughtItems(next, ren)
    ensures item.page.Some? && item.page.value !in PageIds(merged.pages)
  {
    var origin := MovedOrigin(Items(next.structure.value.document), PageIds(Strip(next).pages), ren, item);
    assert ren(origin.page.value) !in UsedIds(merged);
  }

  lemma {:induction false} EachIsWhole(first: Doc, rest: seq<Doc>, rens: seq<Id -> Id>, i: nat)
    requires Mergeable(first, rest, rens) && i < |rest|
    ensures Sound(rest[i]) && Injective(rens[i])
  {
    if i < |rest| - 1 {
      EachIsWhole(first, Front(rest), Front(rens), i);
    }
  }

  /** Whatever is on the copy of a page was brought by its document: the other documents are copied apart. */
  lemma {:induction false} ItemsOfOnePage(first: Doc, rest: seq<Doc>, rens: seq<Id -> Id>, i: nat, page: Page,
                                          item: Item)
    requires Mergeable(first, rest, rens) && first.structure.Some?
    requires i < |rest| && page in Strip(rest[i]).pages && item.page == Some(rens[i](page.id))
    ensures item in AllItems(first, rest, rens) <==> item in BroughtItems(rest[i], rens[i])
    ensures rens[i](page.id) in PageIds(MergeDocs(first, rest, rens).pages)
  {
    var merged, ren := MergeDocs(first, Front(rest), Front(rens)), Last(rens);
    CopiedPagesAreThere(merged, Last(rest), ren);
    if i == |rest| - 1 {
      MergeConservesItems(first, Front(rest), Front(rens));
      MergeKeepsWhole(first, Front(rest), Front(rens));
      NewPageHasNoItem(merged, ren, page.id, item);
    } else {
      ItemsOfOnePage(first, Front(rest), Front(rens), i, page, item);
      if item in BroughtItems(Last(rest), ren) {
        BroughtPageIsNew(merged, Last(rest), ren, item);
      }
    }
  }

  lemma NewPageHasNoItem(merged: Doc, ren: Id -> Id, page: Id, item: Item)
    requires Sound(merged) && merged.structure.Some? && Fresh(ren, merged) && item.page == Some(ren(page))
    ensures item !in Items(merged.structure.value.document)
  {
    assert ren(page) !in UsedIds(merged);
  }

  lemma CopiedPagesAreThere(merged: Doc, next: Doc, ren: Id -> Id)
    requires Injective(ren)
    ensures PageIds(merged.pages) <= PageIds(Extended(merged, next, ren).pages)
    ensures forall p :: p in Strip(next).pages ==> ren(p.id) in PageIds(Extended(merged, next, ren).pages)
  {
    var source := Strip(next).pages;
    AddedPagesAreCopies(merged, Strip(next), source, ren, false);
    KeylessParts(Extended(merged, next, ren).pages, merged.pages, CopyPages(source, ren));
    forall p | p in source ensures ren(p.id) in PageIds(CopyPages(source, ren)) {
      var n :| 0 <= n < |source| && source[n] == p;
      assert CopyPages(source, ren)[n] in CopyPages(source, ren);
    }
  }

  /** Pages with the keys left out are still the pages. */
  lemma KeylessParts(pages: seq<Page>, a: seq<Page>, b: seq<Page>)
    requires Keyless(pages) == Keyless(a) + Keyless(b)
    ensures PageIds(a) <= PageIds(pages) && PageIds(b) <= PageIds(pages)
  {
    KeylessIds(pages);
    KeylessIds(a);
    KeylessIds(b);
    assert forall p :: p in Keyless(a) || p in Keyless(b) ==> p in Keyless(pages);
  }

  lemma KeylessIds(pages: seq<Page>)
    ensures PageIds(Keyless(pages)) == PageIds(pages)
  {
    forall p | p in pages ensures p.id in PageIds(Keyless(pages)) {
      var n :| 0 <= n < |pages| && pages[n] == p;
      assert Keyless(pages)[n] in Keyless(pages);
    }
    assert forall p :: p in Keyless(pages) ==> exists n :: 0 <= n < |pages| && p.id == pages[n].id && pages[n] in pages;
  }

  lemma BroughtItemIff(d: Doc, ren: Id -> Id, page: Page, item: Item)
    requires Sound(d) && d.structure.Some? && Injective(ren)
    requires page in Strip(d).pages && item.page == Some(page.id)
    ensures item in Items(d.structure.value.document)
       <==> CopyItem(item, ren, PageIds(Strip(d).pages)) in BroughtItems(d, ren)
  {
    var items, pages := Items(d.structure.value.document), PageIds(Strip(d).pages);
    if item in items {
      MovedMember(items, pages, ren, item);
    }
    if CopyItem(item, ren, pages) in BroughtItems(d, ren) {
      var origin := MovedOrigin(items, pages, ren, CopyItem(item, ren, pages));
      assert origin == item;
    }
  }

  /** The lookups of the first document are answered as before. */
  lemma MergeKeepsFirstLookups(first: Doc, rest: seq<Doc>, rens: seq<Id -> Id>, page: Page, content: Content, elem: Id)
    requires Mergeable(first, rest, rens) && first.structure.Some? && page in Strip(first).pages
    ensures Finds(first, page.id, content, elem) <==> Finds(MergeDocs(first, rest, rens), page.id, content, elem)
  {
    FirstIsWhole(first, rest, rens);
    MergeKeepsWhole(first, rest, rens);
    MergeConservesItems(first, rest, rens);
    FindsWhatHolds(first, page.id, content, elem);
    FindsWhatHolds(MergeDocs(first, rest, rens), page.id, content, elem);
    ItemsOfFirstPage(first, rest, rens, page, Item(elem, Some(page.id), content));
  }

  lemma {:induction false} FirstIsWhole(first: Doc, rest: seq<Doc>, rens: seq<Id -> Id>)
    requires Mergeable(first, rest, rens)
    ensures Sound(first)
  {
    if rest != [] {
      FirstIsWhole(first, Front(rest), Front(rens));
    }
  }

  lemma {:induction false} ItemsOfFirstPage(first: Doc, rest: seq<Doc>, rens: seq<Id -> Id>, page: Page, item: Item)
    requires Mergeable(first, rest, rens) && first.structure.Some?
    requires page in Strip(first).pages && item.page == Some(page.id)
    ensures item in AllItems(first, rest, rens) <==> item in Items(first.structure.value.document)
    ensures page.id in PageIds(MergeDocs(first, rest, rens).pages)
  {
    if rest == [] {
      KeptItemsMembers(Items(first.structure.value.document), PageIds(Strip(first).pages));
    } else {
      var merged := MergeDocs(first, Front(rest), Front(rens));
      ItemsOfFirstPage(first, Front(rest), Front(rens), page, item);
      CopiedPagesAreThere(merged, Last(rest), Last(rens));
      if item in BroughtItems(Last(rest), Last(rens)) {
        BroughtPageIsNew(merged, Last(rest), Last(rens), item);
      }
    }
  }

  // ----- Files --------------------------------------------------------------------------------

  function FilesOf(docs: seq<Doc>): (r: seq<EmbeddedFiles.Files>)
    ensures |r| == |docs| && forall i :: 0 <= i < |docs| ==> r[i] == docs[i].files
  {
    seq(|docs|, i requires 0 <= i < |docs| => docs[i].files)
  }

  /** The files of the merge are the merged files of the documents. */
  lemma {:induction false} MergeMergesFiles(first: Doc, rest: seq<Doc>, rens: seq<Id -> Id>)
    requires |rens| == |rest| && AllInjective(rens)
    ensures MergeDocs(first, rest, rens).files == EmbeddedFiles.Merged(first.files, FilesOf(rest), rens)
  {
    if rest != [] {
      MergeMergesFiles(first, Front(rest), Front(rens));
      assert FilesOf(rest)[..|rest| - 1] == FilesOf(Front(rest));
    }
  }
}
