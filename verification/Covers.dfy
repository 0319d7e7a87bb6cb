/** What a document is under a cover: its catalog, its pages, its elements, and its lookups. */
module Covers {
  import opened Wrappers
  import opened StructTree
  import opened StructCopy
  import opened TaggedPdf
  import opened TaggedLaw
  import opened AddLaw
  import opened Merge
  import opened Elements

  /** The document under a cover with some page. */
  function Covered(content: Doc, cover: Doc, ren: Id -> Id): Doc
    requires Injective(ren) && cover.pages != []
  {
    ReplaceFirstPageWithCover(content, cover, ren).value
  }

  /** The catalog is the content's: the files it embeds and associates, its language, its Document but for the kids. */
  lemma CoverKeepsCatalog(content: Doc, cover: Doc, ren: Id -> Id)
    requires Injective(ren) && cover.pages != []
    ensures var d := Covered(content, cover, ren);
      d.files == content.files && d.lang == content.lang && (d.structure.Some? <==> content.structure.Some?)
      && (d.structure.Some? ==>
            var own, document := content.structure.value.document, d.structure.value.document;
            document == own.(kids := document.kids))
  {
  }

  /** The first page is the copy of the first page of the cover, the others are the content's, less the placeholder. */
  lemma CoverComesFirst(content: Doc, cover: Doc, ren: Id -> Id)
    requires Injective(ren) && cover.pages != []
    ensures Keyless(Covered(content, cover, ren).pages)
         == PageCopies([cover.pages[0]], ren) + Keyless(TakenPages(content))
  {
    AddedPagesAreCopies(Strip(content), cover, [cover.pages[0]], ren, true);
    KeylessCopies([cover.pages[0]], ren);
  }

  // ----- Elements -----------------------------------------------------------------------------

  /** The elements of the content stay, those of the placeholder page excepted. */
  lemma CoverKeepsElements(content: Doc, cover: Doc, ren: Id -> Id, x: Element) returns (y: Element)
    requires Injective(ren) && cover.pages != [] && content.structure.Some?
    requires x in Descendants(content.structure.value.document)
    requires |content.pages| > 1 && content.pages[0].placeholder ==> Stays(x, PageIds(content.pages[1..]))
    ensures Covered(content, cover, ren).structure.Some? && LeftOfFirst(content, x, y)
    ensures y in Descendants(Covered(content, cover, ren).structure.value.document)
  {
    y := StripKeepsElement(content, x);
    AddKeepsElements(Strip(content), cover, [cover.pages[0]], ren, true);
  }

  /** And each element of the cover of which something stands on its first page has its copy. */
  lemma CoverBringsElements(content: Doc, cover: Doc, ren: Id -> Id, x: Element) returns (y: Element)
    requires Injective(ren) && cover.pages != [] && content.structure.Some? && cover.structure.Some?
    requires x in Descendants(cover.structure.value.document) && Stays(x, {cover.pages[0].id})
    ensures Covered(content, cover, ren).structure.Some?
    ensures y in Descendants(Covered(content, cover, ren).structure.value.document)
    ensures Follows(x, y, ren, {cover.pages[0].id})
    ensures StatesLang(x, y, Child(x) in cover.structure.value.document.kids, cover.lang, content.lang)
  {
    OnePageId(cover.pages[0]);
    y := AddBringsElement(Strip(content), cover, [cover.pages[0]], ren, true, x);
  }

  lemma OnePageId(page: Page)
    ensures PageIds([page]) == {page.id}
  {
    assert page in [page];
  }

  /** There are no others, and the cover's come first. */
  lemma CoverConservesElements(content: Doc, cover: Doc, ren: Id -> Id)
    requires Injective(ren) && cover.pages != [] && content.structure.Some?
    ensures Covered(content, cover, ren).structure.Some?
    ensures ElementIds(Descendants(Covered(content, cover, ren).structure.value.document))
         == (if cover.structure.None? then []
             else RenameIds(StayingIds(Descendants(cover.structure.value.document), {cover.pages[0].id}), ren))
            + OwnIds(content)
  {
    StripIds(content);
    if cover.structure.Some? {
      OnePageId(cover.pages[0]);
      AddedIds(Strip(content), cover, [cover.pages[0]], ren, true);
    }
  }

  // ----- Lookups ------------------------------------------------------------------------------

  /** The items of the document under a cover. */
  lemma CoveredItems(content: Doc, cover: Doc, ren: Id -> Id)
    requires Sound(content) && Sound(cover) && Fresh(ren, Strip(content)) && cover.pages != []
    requires content.structure.Some?
    ensures Covered(content, cover, ren).structure.Some? && Sound(Covered(content, cover, ren))
    ensures Items(Covered(content, cover, ren).structure.value.document)
         == (if cover.structure.None? then []
             else MovedItems(Items(cover.structure.value.document), {cover.pages[0].id}, ren))
            + KeptItems(Items(content.structure.value.document), PageIds(TakenPages(content)))
  {
    CoverKeepsWhole(content, cover, ren);
    StrippedItems(content);
    OnePageId(cover.pages[0]);
    if cover.structure.Some? {
      AddedTree(Strip(content), cover, [cover.pages[0]], ren, true);
    }
  }

  /** From the pages of the content everything is found as before. */
  lemma CoverKeepsLookups(content: Doc, cover: Doc, ren: Id -> Id, page: Page, what: Content, elem: Id)
    requires Sound(content) && Sound(cover) && Fresh(ren, Strip(content)) && cover.pages != []
    requires content.structure.Some? && page in TakenPages(content)
    ensures Finds(content, page.id, what, elem) <==> Finds(Covered(content, cover, ren), page.id, what, elem)
  {
    var item := Item(elem, Some(page.id), what);
    CoveredItems(content, cover, ren);
    FindsWhatHolds(content, page.id, what, elem);
    FindsWhatHolds(Covered(content, cover, ren), page.id, what, elem);
    KeptItemsMembers(Items(content.structure.value.document), PageIds(TakenPages(content)));
    assert page.id in UsedIds(Strip(content));
    if cover.structure.Some? {
      MovedAreOnCopy(cover, cover.pages[0].id, ren);
    }
  }

  /** The items that come with a page are on the copy of the page. */
  lemma MovedAreOnCopy(d: Doc, page: Id, ren: Id -> Id)
    requires Sound(d) && d.structure.Some?
    ensures forall item :: item in MovedItems(Items(d.structure.value.document), {page}, ren) ==>
      item.page == Some(ren(page))
  {
    var items := Items(d.structure.value.document);
    forall item | item in MovedItems(items, {page}, ren) ensures item.page == Some(ren(page)) {
      var origin := MovedOrigin(items, {page}, ren, item);
    }
  }

  /** The copy of an item of a page comes with the page exactly if the item is there. */
  lemma MovedIff(items: seq<Item>, page: Id, ren: Id -> Id, item: Item)
    requires Injective(ren) && (forall i :: i in items ==> i.page.Some?) && item.page == Some(page)
    ensures item in items
       <==> Item(ren(item.owner), Some(ren(page)), CopyContent(item.content, ren)) in MovedItems(items, {page}, ren)
  {
    var copy := Item(ren(item.owner), Some(ren(page)), CopyContent(item.content, ren));
    if item in items {
      MovedMember(items, {page}, ren, item);
    }
    if copy in MovedItems(items, {page}, ren) {
      var origin := MovedOrigin(items, {page}, ren, copy);
      assert origin.owner == item.owner && origin.page == item.page;
      assert origin.content == item.content;
    }
  }

  /** From the copy of the cover's page the copies are found of what the cover finds there. */
  lemma CoverBringsLookups(content: Doc, cover: Doc, ren: Id -> Id, what: Content, elem: Id)
    requires Sound(content) && Sound(cover) && Fresh(ren, Strip(content)) && cover.pages != []
    requires content.structure.Some? && cover.structure.Some?
    ensures Finds(cover, cover.pages[0].id, what, elem) <==>
            Finds(Covered(content, cover, ren), ren(cover.pages[0].id), CopyContent(what, ren), ren(elem))
  {
    var page, items := cover.pages[0], Items(cover.structure.value.document);
    var item := Item(elem, Some(page.id), what);
    var copy := Item(ren(elem), Some(ren(page.id)), CopyContent(what, ren));
    CoveredItems(content, cover, ren);
    FindsWhatHolds(cover, page.id, what, elem);
    FindsWhatHolds(Covered(content, cover, ren), ren(page.id), CopyContent(what, ren), ren(elem));
    CopyIsNoKeptItem(content, ren, page.id, copy);
    MovedIff(items, page.id, ren, item);
  }

  /** And nothing else. */
  lemma CoverFindsCopiesOnly(content: Doc, cover: Doc, ren: Id -> Id, found: Content, elem: Id)
    returns (what: Content, owner: Id)
    requires Sound(content) && Sound(cover) && Fresh(ren, Strip(content)) && cover.pages != []
    requires content.structure.Some? && Finds(Covered(content, cover, ren), ren(cover.pages[0].id), found, elem)
    ensures cover.structure.Some? && found == CopyContent(what, ren) && elem == ren(owner)
    ensures Finds(cover, cover.pages[0].id, what, owner)
  {
    var page, item := cover.pages[0], Item(elem, Some(ren(cover.pages[0].id)), found);
    CoveredItems(content, cover, ren);
    FindsWhatHolds(Covered(content, cover, ren), ren(page.id), found, elem);
    CopyIsNoKeptItem(content, ren, page.id, item);
    what, owner := MovedFrom(cover, page.id, ren, item);
  }

  /** An item that comes with a page is copied from an item that is found from the page. */
  lemma MovedFrom(d: Doc, page: Id, ren: Id -> Id, item: Item) returns (what: Content, owner: Id)
    requires Sound(d) && d.structure.Some? && item in MovedItems(Items(d.structure.value.document), {page}, ren)
    ensures item.content == CopyContent(what, ren) && item.owner == ren(owner) && Finds(d, page, what, owner)
  {
    var origin := MovedOrigin(Items(d.structure.value.document), {page}, ren, item);
    what, owner := origin.content, origin.owner;
    assert origin == Item(owner, Some(page), what);
    FindsWhatHolds(d, page, what, owner);
  }

  lemma CopyIsNoKeptItem(content: Doc, ren: Id -> Id, page: Id, item: Item)
    requires Fresh(ren, Strip(content)) && content.structure.Some? && item.page == Some(ren(page))
    ensures item !in KeptItems(Items(content.structure.value.document), PageIds(TakenPages(content)))
  {
    KeptItemsMembers(Items(content.structure.value.document), PageIds(TakenPages(content)));
    assert ren(page) !in UsedIds(Strip(content));
  }
}
