/**
  A tagged document: its pages and annotations hold keys into the parent tree, the parent tree points at elements of the
  structure, and the elements point back at the pages (ISO 32000-1:2008, section 14.7.4.4).
 */
module TaggedPdf {
  import opened Wrappers
  import opened NumberTree
  import opened StructTree
  import opened StructCopy
  import opened EmbeddedFiles

  /** A page: its key (/StructParents), its annotations, and whether its text holds the placeholder marker. */
  datatype Page = Page(id: Id, key: Option<int>, annots: seq<Id>, placeholder: bool)

  /** An entry of the parent tree: for a page the element of each MCID, for an annotation the one element. */
  datatype Entry = Owners(elems: seq<Option<Id>>, indirect: Option<Id>) | Owner(elem: Option<Id>) | Null

  datatype Structure = Structure(document: Element, parentTree: Tree<Entry>, nextKey: Option<int>)

  /** A document; annots holds the key (/StructParent) of each annotation object, where it has one. */
  datatype Doc = Doc(pages: seq<Page>, annots: map<Id, Option<int>>, structure: Option<Structure>, lang: Option<string>,
                     files: Files)

  // ----- Keys ---------------------------------------------------------------------------------

  function AnnotKey(annots: map<Id, Option<int>>, a: Id): Option<int> {
    if a in annots then annots[a] else None
  }

  function AnnotKeys(ids: seq<Id>, annots: map<Id, Option<int>>): seq<int> {
    if ids == [] then []
    else (if AnnotKey(annots, ids[0]).Some? then [AnnotKey(annots, ids[0]).value] else []) + AnnotKeys(ids[1..], annots)
  }

  /** The keys a page holds into the parent tree: its own, and those of its annotations. */
  function KeysOf(page: Page, annots: map<Id, Option<int>>): seq<int> {
    (if page.key.Some? then [page.key.value] else []) + AnnotKeys(page.annots, annots)
  }

  function AllKeys(pages: seq<Page>, annots: map<Id, Option<int>>): seq<int> {
    if pages == [] then [] else KeysOf(pages[0], annots) + AllKeys(pages[1..], annots)
  }

  function PageIds(pages: seq<Page>): set<Id> {
    set p | p in pages :: p.id
  }

  function Shifted(key: Option<int>, offset: int): Option<int> {
    if key.Some? then Some(key.value + offset) else None
  }

  function ShiftAnnots(annots: map<Id, Option<int>>, ids: seq<Id>, offset: int): map<Id, Option<int>> {
    if ids == [] then annots
    else ShiftAnnots(if ids[0] in annots then annots[ids[0] := Shifted(annots[ids[0]], offset)] else annots,
                     ids[1..], offset)
  }

  function ShiftAllAnnots(annots: map<Id, Option<int>>, pages: seq<Page>, offset: int): map<Id, Option<int>>
    decreases pages
  {
    if pages == [] then annots else ShiftAllAnnots(ShiftAnnots(annots, pages[0].annots, offset), pages[1..], offset)
  }

  function ShiftPages(pages: seq<Page>, offset: int): (r: seq<Page>)
    ensures |r| == |pages| && forall i :: 0 <= i < |pages| ==> r[i] == pages[i].(key := Shifted(pages[i].key, offset))
  {
    seq(|pages|, i requires 0 <= i < |pages| => pages[i].(key := Shifted(pages[i].key, offset)))
  }

  function DetachAnnots(annots: map<Id, Option<int>>, pages: seq<Page>): map<Id, Option<int>> {
    map a | a in annots :: if exists p :: p in pages && a in p.annots then None else annots[a]
  }

  function DetachPages(pages: seq<Page>): (r: seq<Page>)
    ensures |r| == |pages| && forall i :: 0 <= i < |pages| ==> r[i] == pages[i].(key := None)
  {
    seq(|pages|, i requires 0 <= i < |pages| => pages[i].(key := None))
  }

  // ----- Copying ------------------------------------------------------------------------------

  function CopyPages(pages: seq<Page>, ren: Id -> Id): (r: seq<Page>)
    ensures |r| == |pages|
    ensures forall i :: 0 <= i < |pages| ==>
      r[i] == Page(ren(pages[i].id), pages[i].key, RenameIds(pages[i].annots, ren), pages[i].placeholder)
  {
    seq(|pages|, i requires 0 <= i < |pages| =>
      Page(ren(pages[i].id), pages[i].key, RenameIds(pages[i].annots, ren), pages[i].placeholder))
  }

  /** The annotations' copies, each with the key of its original. */
  function CopyAnnots(annots: map<Id, Option<int>>, ren: Id -> Id): (r: map<Id, Option<int>>)
    requires Injective(ren)
    decreases |annots|
    ensures forall a {:trigger annots[a]} :: a in annots ==> ren(a) in r && r[ren(a)] == annots[a]
    ensures forall b {:trigger r[b]} :: b in r ==> exists a :: a in annots && b == ren(a)
  {
    if annots == map[] then map[]
    else
      var a := Least(annots.Keys);
      var rest := annots - {a};
      assert forall x :: x in annots && x != a ==> x in rest && rest[x] == annots[x];
      CopyAnnots(rest, ren)[ren(a) := annots[a]]
  }

  function RenameRef(e: Option<Id>, ren: Id -> Id): Option<Id> {
    if e.Some? then Some(ren(e.value)) else None
  }

  function CopyEntry(entry: Entry, ren: Id -> Id): Entry {
    match entry
    case Owners(elems, indirect) =>
      Owners(seq(|elems|, i requires 0 <= i < |elems| => RenameRef(elems[i], ren)), RenameRef(indirect, ren))
    case Owner(elem) => Owner(RenameRef(elem, ren))
    case Null => Null
  }

  /** The target's entries, with those of the source for the given keys, shifted; a missing one is passed over. */
  function CopyEntries(entries: map<int, Entry>, source: map<int, Entry>, keys: seq<int>, offset: int, ren: Id -> Id)
    : map<int, Entry>
    decreases keys
  {
    if keys == [] then entries
    else
      var key := keys[0];
      var taken := if key !in source || source[key].Null? then entries
                   else entries[key + offset := CopyEntry(source[key], ren)];
      CopyEntries(taken, source, keys[1..], offset, ren)
  }

  /** What the copied elements are marked with: the source's language, where the target's is another. */
  function MarkedLang(target: Option<string>, source: Option<string>): Option<string> {
    if source.Some? && source != target then source else None
  }

  function Joined<T>(own: seq<T>, added: seq<T>, atStart: bool): seq<T> {
    if atStart then added + own else own + added
  }

  // ----- The operations -----------------------------------------------------------------------

  /** Whether the first of several pages is the placeholder; a document of one page keeps it. */
  predicate StartsWithPlaceholder(d: Doc) {
    |d.pages| > 1 && d.pages[0].placeholder
  }

  function WithoutKeys(entries: map<int, Entry>, keys: seq<int>): map<int, Entry> {
    map k | k in entries && k !in keys :: entries[k]
  }

  function Rewritten(document: Element, entries: map<int, Entry>): Structure {
    Structure(document, Write(entries), Some(NextKey(entries)))
  }

  /** Remove the placeholder page, with what the structure holds of it. */
  function RemoveFirstPage(d: Doc): Doc
    requires |d.pages| > 0
  {
    d.(pages := d.pages[1..],
       structure := if d.structure.None? then None else
         var s := d.structure.value;
         Some(Rewritten(Prune(s.document, PageIds(d.pages[1..])),
                        WithoutKeys(Read(s.parentTree), KeysOf(d.pages[0], d.annots)))))
  }

  /** The entries of the parent tree. */
  function Entries(d: Doc): map<int, Entry>
    requires d.structure.Some?
  {
    Read(d.structure.value.parentTree)
  }

  /** The added pages: copies, whose keys are shifted past the target's. */
  function AddedPages(target: Doc, pages: seq<Page>, ren: Id -> Id): seq<Page>
    requires target.structure.Some?
  {
    ShiftPages(CopyPages(pages, ren), NextKey(Entries(target)))
  }

  function AddedAnnots(target: Doc, source: Doc, pages: seq<Page>, ren: Id -> Id): map<Id, Option<int>>
    requires target.structure.Some? && Injective(ren)
  {
    ShiftAllAnnots(target.annots + CopyAnnots(source.annots, ren), CopyPages(pages, ren), NextKey(Entries(target)))
  }

  function AddedEntries(target: Doc, source: Doc, pages: seq<Page>, ren: Id -> Id): map<int, Entry>
    requires target.structure.Some? && source.structure.Some?
  {
    CopyEntries(Entries(target), Entries(source), AllKeys(pages, source.annots), NextKey(Entries(target)), ren)
  }

  function AddedDocument(target: Doc, source: Doc, pages: seq<Page>, ren: Id -> Id, atStart: bool): Element
    requires target.structure.Some? && source.structure.Some?
  {
    Spliced(target.structure.value.document, source.structure.value.document, PageIds(pages), ren,
            MarkedLang(target.lang, source.lang), atStart)
  }

  /**
    Add pages of a source to a target, with their part of its structure. Where one of the two has no structure, the
    added pages lose their keys, which would point into nothing.
   */
  function Add(target: Doc, source: Doc, pages: seq<Page>, ren: Id -> Id, atStart: bool): Doc
    requires Injective(ren)
  {
    if target.structure.None? || source.structure.None? then
      var copies := CopyPages(pages, ren);
      target.(pages := Joined(target.pages, DetachPages(copies), atStart),
              annots := DetachAnnots(target.annots + CopyAnnots(source.annots, ren), copies))
    else
      target.(pages := Joined(target.pages, AddedPages(target, pages, ren), atStart),
              annots := AddedAnnots(target, source, pages, ren),
              structure := Some(Rewritten(AddedDocument(target, source, pages, ren, atStart),
                                          AddedEntries(target, source, pages, ren))))
  }

  /** A target's Document with the elements of a source's, pruned to the copied pages, at its start or end. */
  function Spliced(document: Element, source: Element, copied: set<Id>, ren: Id -> Id, mark: Option<string>,
                   atStart: bool)
    : Element
  {
    var moved := Copy(Prune(source, copied), ren, copied).kids;
    document.(kids := Joined(document.kids, MarkKids(moved, mark), atStart))
  }

  // ----- The law ------------------------------------------------------------------------------

  /** The key by which the element of a content item of a page is found. */
  function KeyFor(page: Page, annots: map<Id, Option<int>>, content: Content): Option<int> {
    match content
    case Mark(_) => page.key
    case Object(a) => if a in page.annots then AnnotKey(annots, a) else None
  }

  function Found(entries: map<int, Entry>, key: Option<int>, content: Content): Option<Id> {
    if key.None? || key.value !in entries then None else OwnerIn(entries[key.value], content)
  }

  function OwnerIn(entry: Entry, content: Content): Option<Id> {
    match content
    case Mark(m) => if entry.Owners? && 0 <= m < |entry.elems| then entry.elems[m] else None
    case Object(_) => if entry.Owner? then entry.elem else None
  }

  /** The element the parent tree gives for a content item of a page. */
  function Lookup(page: Page, annots: map<Id, Option<int>>, entries: map<int, Entry>, content: Content): Option<Id> {
    Found(entries, KeyFor(page, annots, content), content)
  }

  /** The parent tree and the structure agree on whether an element holds a content item of a page. */
  predicate Agree(page: Page, annots: map<Id, Option<int>>, entries: map<int, Entry>, items: seq<Item>,
                  content: Content, elem: Id)
  {
    Lookup(page, annots, entries, content) == Some(elem) <==> Item(elem, Some(page.id), content) in items
  }

  /** They are inverses: they agree on all there is to ask, and the structure holds nothing off the pages. */
  ghost predicate Inverse(pages: seq<Page>, annots: map<Id, Option<int>>, entries: map<int, Entry>, items: seq<Item>) {
    (forall p, content, elem :: p in pages ==> Agree(p, annots, entries, items, content, elem))
    && (forall item :: item in items ==> item.page.Some? && item.page.value in PageIds(pages))
  }

  /** No page stands twice, and no annotation does. */
  ghost predicate PagesDistinct(pages: seq<Page>) {
    NoDup(pages)
    && (forall p :: p in pages ==> NoDup(p.annots))
    && (forall p, q :: p in pages && q in pages && p != q ==> p.id != q.id)
    && (forall p, q, a :: p in pages && q in pages && p != q && a in p.annots ==> a !in q.annots)
  }

  /** No two pages or annotations share a key. */
  ghost predicate KeysDistinct(pages: seq<Page>, annots: map<Id, Option<int>>) {
    (forall p :: p in pages ==> NoDup(KeysOf(p, annots)))
    && (forall p, q, k :: p in pages && q in pages && p != q && k in KeysOf(p, annots) ==> k !in KeysOf(q, annots))
  }

  ghost predicate HoldsKey(pages: seq<Page>, annots: map<Id, Option<int>>, key: int) {
    exists p :: p in pages && key in KeysOf(p, annots)
  }

  /** The parent tree's keys are those pages and annotations hold, and of nothing else, and stand for something. */
  ghost predicate KeysMatch(pages: seq<Page>, annots: map<Id, Option<int>>, entries: map<int, Entry>) {
    (forall k :: k in entries <==> HoldsKey(pages, annots, k))
    && (forall k :: k in entries ==> k >= 0 && !entries[k].Null?)
  }

  /**
    The Document of a structure: a tree of elements, of which it holds elements only, whose references state a page.
   */
  ghost predicate GoodTree(document: Element) {
    NoDup([document.id] + ElementIds(Descendants(document)))
    && (forall i :: 0 <= i < |document.kids| ==> document.kids[i].Child?)
    && ReferencesPaged(document)
  }

  /** What is asked of a document that is added to another: if it is tagged, pages, parent tree and structure fit. */
  ghost predicate Sound(d: Doc) {
    PagesDistinct(d.pages)
    && (d.structure.Some? ==>
          var s := d.structure.value;
          GoodTree(s.document)
          && KeysDistinct(d.pages, d.annots)
          && KeysMatch(d.pages, d.annots, Read(s.parentTree))
          && Inverse(d.pages, d.annots, Read(s.parentTree), Items(s.document)))
  }

  /** No page holds a key. */
  ghost predicate Unkeyed(pages: seq<Page>, annots: map<Id, Option<int>>) {
    forall p :: p in pages ==> KeysOf(p, annots) == []
  }

  /** The law of a document: sound, and without a structure no key points into nothing. */
  ghost predicate Whole(d: Doc) {
    Sound(d) && (d.structure.None? ==> Unkeyed(d.pages, d.annots))
  }

  // ----- The objects of a document ------------------------------------------------------------

  function UsedIds(d: Doc): set<Id> {
    PageIds(d.pages) + (set p, a | p in d.pages && a in p.annots :: a) + d.annots.Keys + FileIds(d.files)
    + (if d.structure.None? then {} else
         var document := d.structure.value.document;
         {document.id} + set e | e in Descendants(document) :: e.id)
  }

  /** The renaming makes new objects of the document only. */
  ghost predicate Fresh(ren: Id -> Id, d: Doc) {
    Injective(ren) && forall x :: ren(x) !in UsedIds(d)
  }
}
