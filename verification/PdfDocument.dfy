/**
  A PDF as the code changes it: in place, page by page and object by object, each operation against its specification.
 */
module PdfDocument {
  import opened Wrappers
  import opened NumberTree
  import opened StructTree
  import opened StructCopy
  import opened ElementStore
  import opened TaggedPdf
  import EmbeddedFiles
  import Merge

  /** The root of a structure: its Document, its parent tree, and the next key. */
  datatype StructRoot = StructRoot(document: Id, parentTree: Tree<Entry>, nextKey: Option<int>)

  // ----- Parent trees -------------------------------------------------------------------------

  /** _write_number_tree: one flat node, its keys sorted. */
  method FlatTree(entries: map<int, Entry>) returns (tree: Tree<Entry>)
    ensures tree == Write(entries)
  {
    var keys := Sorted(entries.Keys);
    var nums := [];
    for i := 0 to |keys|
      invariant nums == FlatPairs(keys[..i], entries)
    {
      nums := nums + [(keys[i], entries[keys[i]])];
    }
    assert keys[..|keys|] == keys;
    tree := Node(nums, []);
  }

  /** The entries without those of the given keys, whether it has them or not. */
  method DropEntries(from: map<int, Entry>, keys: seq<int>) returns (entries: map<int, Entry>)
    ensures entries == WithoutKeys(from, keys)
  {
    entries := from;
    for i := 0 to |keys|
      invariant entries == WithoutKeys(from, keys[..i])
    {
      entries := entries - {keys[i]};
    }
    assert keys[..|keys|] == keys;
  }

  /** _copy_entries: the entries of the source for the given keys, taken over one by one. */
  method TakeEntries(own: map<int, Entry>, source: map<int, Entry>, keys: seq<int>, offset: int, ren: Id -> Id)
    returns (entries: map<int, Entry>)
    ensures entries == CopyEntries(own, source, keys, offset, ren)
  {
    entries := own;
    for i := 0 to |keys|
      invariant CopyEntries(entries, source, keys[i..], offset, ren) == CopyEntries(own, source, keys, offset, ren)
    {
      var key := keys[i];
      if key !in source || source[key].Null? {
        continue;
      }
      entries := entries[key + offset := CopyEntry(source[key], ren)];
    }
  }

  // ----- Pages --------------------------------------------------------------------------------

  /** _copy_pages: the copies go in one by one, at the start or the end. */
  method InsertCopies(own: seq<Page>, copies: seq<Page>, atStart: bool) returns (pages: seq<Page>)
    ensures pages == Joined(own, copies, atStart)
  {
    pages := own;
    for i := 0 to |copies|
      invariant pages == Joined(own, copies[..i], atStart)
    {
      assert copies[..i + 1] == copies[..i] + [copies[i]];
      if atStart {
        pages := pages[..i] + [copies[i]] + pages[i..];
      } else {
        pages := pages + [copies[i]];
      }
    }
    assert copies[..|copies|] == copies;
  }

  /** _shift_keys: the page's own, then those of its annotations. */
  method ShiftKeys(page: Page, annots: map<Id, Option<int>>,
                   offset: int) returns (shifted: Page, keys: map<Id, Option<int>>)
    ensures shifted == page.(key := Shifted(page.key, offset))
    ensures keys == ShiftAnnots(annots, page.annots, offset)
  {
    shifted, keys := page, annots;
    if page.key.Some? {
      shifted := page.(key := Some(page.key.value + offset));
    }
    for i := 0 to |page.annots|
      invariant ShiftAnnots(keys, page.annots[i..], offset) == ShiftAnnots(annots, page.annots, offset)
    {
      var a := page.annots[i];
      assert page.annots[i..][0] == a && page.annots[i..][1..] == page.annots[i + 1..];
      assert a in keys && keys[a].None? ==> keys[a := Shifted(keys[a], offset)] == keys;
      if a in keys && keys[a].Some? {
        keys := keys[a := Some(keys[a].value + offset)];
      }
    }
  }

  /** _detach: remove the keys of a page. */
  method Detach(page: Page, annots: map<Id, Option<int>>) returns (detached: Page, keys: map<Id, Option<int>>)
    ensures detached == page.(key := None) && keys == DetachAnnots(annots, [page])
  {
    detached, keys := page.(key := None), annots;
    for i := 0 to |page.annots|
      invariant keys.Keys == annots.Keys
      invariant forall a :: a in keys ==> keys[a] == if a in page.annots[..i] then None else annots[a]
    {
      var a := page.annots[i];
      if a in keys {
        keys := keys[a := None];
      }
    }
  }

  /** The copies have their keys shifted. */
  method ShiftCopies(copies: seq<Page>, annots: map<Id, Option<int>>, offset: int)
    returns (shifted: seq<Page>, keys: map<Id, Option<int>>)
    ensures shifted == ShiftPages(copies, offset) && keys == ShiftAllAnnots(annots, copies, offset)
  {
    shifted, keys := [], annots;
    assert copies[0..] == copies;
    for i := 0 to |copies|
      invariant shifted == ShiftPages(copies[..i], offset)
      invariant ShiftAllAnnots(keys, copies[i..], offset) == ShiftAllAnnots(annots, copies, offset)
    {
      assert copies[i..][0] == copies[i] && copies[i..][1..] == copies[i + 1..];
      var copy;
      copy, keys := ShiftKeys(copies[i], keys, offset);
      shifted := shifted + [copy];
    }
    assert copies[..|copies|] == copies;
  }

  /** The copies lose their keys. */
  method DetachCopies(copies: seq<Page>, annots: map<Id, Option<int>>)
    returns (detached: seq<Page>, keys: map<Id, Option<int>>)
    ensures detached == DetachPages(copies) && keys == DetachAnnots(annots, copies)
  {
    detached, keys := [], annots;
    for i := 0 to |copies|
      invariant detached == DetachPages(copies[..i])
      invariant keys == DetachAnnots(annots, copies[..i])
    {
      assert copies[..i + 1] == copies[..i] + [copies[i]];
      DetachOneMore(annots, copies[..i], copies[i]);
      var copy;
      copy, keys := Detach(copies[i], keys);
      detached := detached + [copy];
    }
    assert copies[..|copies|] == copies;
  }

  lemma DetachOneMore(annots: map<Id, Option<int>>, pages: seq<Page>, page: Page)
    ensures DetachAnnots(DetachAnnots(annots, pages), [page]) == DetachAnnots(annots, pages + [page])
  {
  }

  /** The parts of a document that pages were added to. */
  lemma AddedParts(target: Doc, given: Doc, pages: seq<Page>, annots: map<Id, Option<int>>, flat: Tree<Entry>,
                   next: int, from: seq<Page>, ren: Id -> Id, atStart: bool)
    requires Injective(ren) && target.structure.Some? && given.structure.Some?
    requires var copies, ours := TaggedPdf.CopyPages(from, ren), Read(target.structure.value.parentTree);
      var theirs := Read(given.structure.value.parentTree);
      var entries := CopyEntries(ours, theirs, AllKeys(from, given.annots), NextKey(ours), ren);
      pages == Joined(target.pages, ShiftPages(copies, NextKey(ours)), atStart)
      && annots == ShiftAllAnnots(target.annots + CopyAnnots(given.annots, ren), copies, NextKey(ours))
      && flat == Write(entries) && next == NextKey(entries)
    ensures var document := AddedDocument(target, given, from, ren, atStart);
      Doc(pages, annots, Some(Structure(document, flat, Some(next))), target.lang, target.files)
      == TaggedPdf.Add(target, given, from, ren, atStart)
  {
  }

  /**
    The keys of the copies are shifted, and their entries taken over into a parent tree, with the next key after them.
   */
  method AddEntries(copies: seq<Page>, annots: map<Id, Option<int>>, own: Tree<Entry>, given: Tree<Entry>,
                    keys: seq<int>, ren: Id -> Id)
    returns (pages: seq<Page>, shifted: map<Id, Option<int>>, flat: Tree<Entry>, next: int)
    ensures pages == ShiftPages(copies, NextKey(Read(own)))
    ensures shifted == ShiftAllAnnots(annots, copies, NextKey(Read(own)))
    ensures var entries := CopyEntries(Read(own), Read(given), keys, NextKey(Read(own)), ren);
      flat == Write(entries) && next == NextKey(entries)
  {
    var entries := ReadNumberTree(own);
    var offset := NextKey(entries);
    pages, shifted := ShiftCopies(copies, annots, offset);
    var source := ReadNumberTree(given);
    entries := TakeEntries(entries, source, keys, offset, ren);
    flat := FlatTree(entries);
    next := NextKey(entries);
  }

  // ----- The document -------------------------------------------------------------------------

  class Pdf {
    var pages: seq<Page>
    var annots: map<Id, Option<int>>
    var elements: Store
    var root: Option<StructRoot>
    var lang: Option<string>
    var files: EmbeddedFiles.Files

    /** What the objects under the Document amount to. */
    ghost var tree: Option<Element>

    ghost predicate Valid()
      reads this
    {
      (root.Some? <==> tree.Some?)
      && (root.Some? ==>
            root.value.document == tree.value.id && Separate(tree.value) && root.value.document in elements
            && Represents(elements, tree.value, elements[root.value.document].parent))
    }

    /** The document as a value. */
    ghost function Contents(): Doc
      reads this
    {
      Doc(pages, annots,
          if root.None? || tree.None? then None
          else Some(Structure(tree.value, root.value.parentTree, root.value.nextKey)),
          lang, files)
    }

    ghost predicate Unmoved(pages: seq<Page>, annots: map<Id, Option<int>>, lang: Option<string>,
                            files: EmbeddedFiles.Files)
      reads this
    {
      this.pages == pages && this.annots == annots && this.lang == lang && this.files == files
    }

    /** A new document, without pages. */
    constructor ()
      ensures Valid() && Contents() == Doc([], map[], None, None, EmbeddedFiles.Files(None, []))
    {
      pages, annots, elements, root, lang := [], map[], map[], None, None;
      files, tree := EmbeddedFiles.Files(None, []), None;
    }

    /** A document as it is opened: the objects, and what they amount to. */
    constructor Open(pages: seq<Page>, annots: map<Id, Option<int>>, elements: Store, root: Option<StructRoot>,
                     lang: Option<string>, files: EmbeddedFiles.Files, ghost tree: Option<Element>)
      requires root.Some? <==> tree.Some?
      requires root.Some? ==>
        root.value.document == tree.value.id && GoodTree(tree.value) && tree.value.id in elements
        && Represents(elements, tree.value, elements[tree.value.id].parent)
      ensures Valid() && this.elements == elements
      ensures var structure := if root.None? then None
                               else Some(Structure(tree.value, root.value.parentTree, root.value.nextKey));
        Contents() == Doc(pages, annots, structure, lang, files)
    {
      this.pages, this.annots, this.elements, this.root := pages, annots, elements, root;
      this.lang, this.files, this.tree := lang, files, tree;
      if root.Some? {
        DistinctIsSeparate(tree.value);
      }
    }

    // ----- The structure ----------------------------------------------------------------------

    /** _prune: keep only what of an element is on the given pages; whether the element is kept. */
    method PruneElement(ghost e: Element, ghost parent: Option<Id>, id: Id, kept: set<Id>) returns (keeps: bool)
      requires e.id == id && Represents(elements, e, parent) && Separate(e)
      modifies this`elements
      ensures keeps == Keeps(e, kept) && Represents(elements, Prune(e, kept), parent)
      ensures SameOff(old(elements), elements, IdsOf(e))
      decreases e
    {
      var element := elements[id];
      var on := element.pg.None? || element.pg.value in kept;
      var kids := ListOf(element.k);
      if kids == [] {
        assert e.kids == [];
        return on;
      }
      var left := [];
      assert e.kids[0..] == e.kids;
      for i := 0 to |kids|
        invariant left == Refs(PruneKids(e.kids[..i], on, kept))
        invariant RepresentsKids(elements, PruneKids(e.kids[..i], on, kept), id)
        invariant RepresentsKids(elements, e.kids[i..], id)
        invariant SameOff(old(elements), elements, KidsIds(e.kids[..i]))
        invariant elements[id] == element
      {
        ghost var before := elements;
        NextKid(elements, e.kids, i, id);
        var keep := PruneKidOf(e.kids[i], id, kids[i], on, kept);
        PruneNextKid(before, elements, e.kids, i, on, kept, id, keep);
        if keep {
          left := left + [kids[i]];
        }
      }
      assert e.kids[..|kids|] == e.kids;
      ghost var before := elements;
      elements := elements[id := element.(k := Many(left))];
      PruneTakesIds(e, kept);
      WithKidsRepresents(before, e, PruneKids(e.kids, on, kept), parent);
      return |left| > 0;
    }

    /** One turn of its loop: whether a kid is kept, an element once it has been pruned. */
    method PruneKidOf(ghost kid: Kid, ghost owner: Id, ref: KidRef, on: bool, kept: set<Id>) returns (keep: bool)
      requires ref == Ref(kid) && RepresentsKid(elements, kid, owner) && KidSeparate(kid)
      modifies this`elements
      ensures keep <==> PruneKid(kid, on, kept) != []
      ensures kid.Child? ==> Represents(elements, Prune(kid.elem, kept), Some(owner))
      ensures SameOff(old(elements), elements, KidIds(kid))
      decreases kid
    {
      match ref {
        case ToElement(child) =>
          assert kid.elem < kid;
          keep := PruneElement(kid.elem, Some(owner), child, kept);
        case Number(_) => keep := on;
        case Dictionary(pg, _) => keep := pg.None? || pg.value in kept;
      }
    }

    /** Prune the whole structure. */
    method PruneDocument(kept: set<Id>)
      requires Valid() && root.Some?
      modifies this`elements, this`tree
      ensures Valid() && tree == Some(Prune(old(tree).value, kept))
      ensures elements.Keys == old(elements.Keys)
    {
      PruneTakesIds(tree.value, kept);
      ghost var parent := elements[root.value.document].parent;
      var _ := PruneElement(tree.value, parent, root.value.document, kept);
      tree := Some(Prune(tree.value, kept));
    }

    // ----- The placeholder page ---------------------------------------------------------------

    /** _remove_first_page: the page, its entries of the parent tree, and what the structure holds of it. */
    method RemoveFirstPage()
      requires Valid() && |pages| > 0
      modifies this
      ensures Valid() && Contents() == TaggedPdf.RemoveFirstPage(old(Contents()))
      ensures elements.Keys == old(elements.Keys)
    {
      if root.Some? {
        var entries := ReadNumberTree(root.value.parentTree);
        var keys := KeysOf(pages[0], annots);
        entries := DropEntries(entries, keys);
        var flat := FlatTree(entries);
        root := Some(StructRoot(root.value.document, flat, Some(NextKey(entries))));
        PruneDocument(PageIds(pages[1..]));
      }
      pages := pages[1..];
    }

    /** The first of several pages is removed where it is the placeholder. */
    method StripPlaceholder()
      requires Valid()
      modifies this
      ensures Valid() && Contents() == Merge.Strip(old(Contents()))
      ensures elements.Keys == old(elements.Keys)
    {
      if |pages| > 1 && pages[0].placeholder {
        RemoveFirstPage();
      }
    }

    // ----- Adding the structure ---------------------------------------------------------------

    /** The kids are given another parent, and marked with a language where they state none. */
    method MoveKids(ghost kids: seq<Kid>, moved: seq<KidRef>, ghost from: Id, to: Id, mark: Option<string>)
      requires moved == Refs(kids) && RepresentsKids(elements, kids, from) && KidsSeparate(kids)
      modifies this`elements
      ensures RepresentsKids(elements, MarkKids(kids, mark), to) && SameOff(old(elements), elements, KidsIds(kids))
    {
      assert kids[0..] == kids;
      for i := 0 to |moved|
        invariant RepresentsKids(elements, MarkKids(kids[..i], mark), to)
        invariant RepresentsKids(elements, kids[i..], from)
        invariant SameOff(old(elements), elements, KidsIds(kids))
      {
        ghost var before := elements;
        NextKid(elements, kids, i, from);
        if moved[i].ToElement? {
          var kid := moved[i].id;
          elements := elements[kid := Moved(elements[kid], to, mark)];
        }
        MoveNextKid(before, elements, kids, i, mark, from, to);
      }
      assert kids[..|moved|] == kids;
    }

    /**
      copy_foreign of an element: whatever is reached from one element, through its parent or kids, is copied with it.
     */
    method CopyForeign(source: Pdf, ren: Id -> Id, copied: set<Id>)
      requires Valid() && source.Valid() && source != this && root.Some? && source.root.Some?
      requires Injective(ren) && New(ren, elements)
      modifies this`elements
      ensures Valid() && elements.Keys == old(elements.Keys) + RenameSet(old(source.elements.Keys), ren)
      ensures elements[root.value.document] == old(elements)[root.value.document]
      ensures var copy := Copy(source.tree.value, ren, copied);
        IdsOf(tree.value) !! KidsIds(copy.kids)
        && copy.id in elements && ListOf(elements[copy.id].k) == Refs(copy.kids)
        && RepresentsKids(elements, copy.kids, copy.id) && KidsSeparate(copy.kids)
    {
      BroughtIn(elements, source.elements, tree.value, source.tree.value, elements[root.value.document].parent, ren,
                copied);
      elements := elements + CopyStore(source.elements, ren, copied);
    }

    /** _copy_elements: those of the source's Document are put among the kids of this one's, at their start or end. */
    method CopyElements(source: Pdf, ren: Id -> Id, copied: set<Id>, atStart: bool)
      requires Valid() && source.Valid() && source != this && root.Some? && source.root.Some?
      requires Injective(ren) && New(ren, elements)
      modifies this`elements, this`tree
      ensures Valid() && Unmoved(old(pages), old(annots), old(lang), old(files)) && root == old(root)
      ensures var moved := Copy(old(source.tree).value, ren, copied).kids;
        tree == Some(old(tree).value.(kids := Joined(old(tree).value.kids,
                                                     MarkKids(moved, MarkedLang(lang, source.lang)), atStart)))
      ensures elements.Keys == old(elements.Keys) + RenameSet(source.elements.Keys, ren)
    {
      var document, mark := root.value.document, MarkedLang(lang, source.lang);
      ghost var parent, own, copy := elements[document].parent, tree.value.kids, Copy(source.tree.value, ren, copied);
      CopyForeign(source, ren, copied);
      ghost var keys := elements.Keys;
      ghost var brought := elements;
      var moved := ListOf(elements[ren(source.root.value.document)].k);
      MoveKids(copy.kids, moved, copy.id, document, mark);
      MovedUnder(brought, elements, tree.value, copy.kids, mark, atStart, parent);
      var there := ListOf(elements[document].k);
      elements := elements[document :=
                           elements[document].(k := Many(if atStart then moved + there else there + moved))];
      assert elements.Keys == keys;
      tree := Some(tree.value.(kids := Joined(own, MarkKids(copy.kids, mark), atStart)));
    }

    /**
      What _add does to two tagged documents: the source's structure is pruned before any of it is copied, and the
      target takes the pages, the parent tree, and the elements.
     */
    method TakeOver(source: Pdf, from: set<Id>, ren: Id -> Id, atStart: bool, pages': seq<Page>,
                    annots': map<Id, Option<int>>, flat: Tree<Entry>, next: int)
      requires Valid() && source.Valid() && source != this && root.Some? && source.root.Some?
      requires Injective(ren) && New(ren, elements)
      modifies this, source`elements, source`tree
      ensures Valid() && source.Valid() && Unmoved(pages', annots', old(lang), old(files))
      ensures root == Some(StructRoot(old(root).value.document, flat, Some(next)))
      ensures source.tree == Some(Prune(old(source.tree).value, from))
      ensures var moved := Copy(Prune(old(source.tree).value, from), ren, from).kids;
        tree == Some(old(tree).value.(kids := Joined(old(tree).value.kids,
                                                     MarkKids(moved, MarkedLang(lang, source.lang)), atStart)))
      ensures elements.Keys == old(elements.Keys) + RenameSet(old(source.elements.Keys), ren)
    {
      ghost var known := elements.Keys + RenameSet(source.elements.Keys, ren);
      source.PruneDocument(from);
      assert elements.Keys + RenameSet(source.elements.Keys, ren) == known;
      pages, annots, root := pages', annots', Some(StructRoot(root.value.document, flat, Some(next)));
      CopyElements(source, ren, from, atStart);
    }

    /** _add: pages of another document, with their part of its structure; the other's structure is pruned to them. */
    method Add(source: Pdf, from: seq<Page>, ren: Id -> Id, atStart: bool)
      requires Valid() && source.Valid() && source != this
      requires Injective(ren) && New(ren, elements)
      modifies this, source`elements, source`tree
      ensures Valid() && source.Valid()
      ensures source.tree == if old(root).Some? && old(source.root).Some?
                             then Some(Prune(old(source.tree).value, PageIds(from))) else old(source.tree)
      ensures Contents() == TaggedPdf.Add(old(Contents()), old(source.Contents()), from, ren, atStart)
      ensures elements.Keys <= old(elements.Keys) + RenameSet(old(source.elements.Keys), ren)
    {
      var copies, known := TaggedPdf.CopyPages(from, ren), annots + CopyAnnots(source.annots, ren);
      if root.None? || source.root.None? {
        var added, keys := DetachCopies(copies, known);
        var all := InsertCopies(pages, added, atStart);
        pages, annots := all, keys;
      } else {
        AddTagged(source, from, copies, known, ren, atStart);
      }
    }

    /** The same of two tagged documents, with the pages copied. */
    method AddTagged(source: Pdf, from: seq<Page>, copies: seq<Page>, known: map<Id, Option<int>>, ren: Id -> Id,
                     atStart: bool)
      requires Valid() && source.Valid() && source != this && root.Some? && source.root.Some?
      requires Injective(ren) && New(ren, elements)
      requires copies == TaggedPdf.CopyPages(from, ren) && known == annots + CopyAnnots(source.annots, ren)
      modifies this, source`elements, source`tree
      ensures Valid() && source.Valid() && source.tree == Some(Prune(old(source.tree).value, PageIds(from)))
      ensures Contents() == TaggedPdf.Add(old(Contents()), old(source.Contents()), from, ren, atStart)
      ensures elements.Keys == old(elements.Keys) + RenameSet(old(source.elements.Keys), ren)
    {
      var all, shifted, flat, next := NewParts(source, from, copies, known, ren, atStart);
      TakeOver(source, PageIds(from), ren, atStart, all, shifted, flat, next);
    }

    /** The pages, the annotations' keys, the parent tree and the next key that a tagged document is to have. */
    method NewParts(source: Pdf, from: seq<Page>, copies: seq<Page>, known: map<Id, Option<int>>, ren: Id -> Id,
                    atStart: bool)
      returns (all: seq<Page>, shifted: map<Id, Option<int>>, flat: Tree<Entry>, next: int)
      requires Valid() && source.Valid() && root.Some? && source.root.Some? && Injective(ren)
      requires copies == TaggedPdf.CopyPages(from, ren) && known == annots + CopyAnnots(source.annots, ren)
      ensures var document := AddedDocument(Contents(), source.Contents(), from, ren, atStart);
        Doc(all, shifted, Some(Structure(document, flat, Some(next))), lang, files)
        == TaggedPdf.Add(Contents(), source.Contents(), from, ren, atStart)
    {
      var keys := AllKeys(from, source.annots);
      var added;
      added, shifted, flat, next := AddEntries(copies, known, root.value.parentTree, source.root.value.parentTree,
                                               keys, ren);
      all := InsertCopies(pages, added, atStart);
      AddedParts(Contents(), source.Contents(), all, shifted, flat, next, from, ren, atStart);
    }

    // ----- Embedded files ---------------------------------------------------------------------

    /** _write_embedded_files: one name tree, sorted, and each associated file once; nothing where there is nothing. */
    method WriteEmbeddedFiles(entries: seq<(string, EmbeddedFiles.Spec)>, associated: seq<EmbeddedFiles.Spec>)
      modifies this`files
      ensures files == EmbeddedFiles.Written(old(files), entries, associated)
    {
      if entries == [] && associated == [] {
        return;
      }
      var unique := EmbeddedFiles.ListOnce(associated);
      files := EmbeddedFiles.Files(Some(EmbeddedFiles.Node(EmbeddedFiles.ByName(entries), [])), unique);
    }

    /** _tidy_embedded_files. */
    method TidyEmbeddedFiles()
      modifies this`files
      ensures files == EmbeddedFiles.Tidied(old(files))
    {
      var entries := EmbeddedFiles.ReadEntries(files);
      WriteEmbeddedFiles(entries, files.associated);
    }

    /** _add_embedded_files: the files of the source, each under a name that is free by then. */
    method AddEmbeddedFiles(source: Pdf, ren: Id -> Id)
      modifies this`files
      ensures files == EmbeddedFiles.AddFiles(old(files), old(source.files), ren)
    {
      var associated := files.associated + EmbeddedFiles.CopySpecs(source.files.associated, ren);
      var added := EmbeddedFiles.ReadEntries(source.files);
      if added == [] {
        return;
      }
      var entries := EmbeddedFiles.ReadEntries(files);
      entries := EmbeddedFiles.AppendNamed(entries, added, ren);
      WriteEmbeddedFiles(entries, associated);
    }

    /** What a merge does to its first document. */
    method StartMerge()
      requires Valid()
      modifies this
      ensures Valid() && Contents() == Merge.Started(old(Contents())) && elements.Keys == old(elements.Keys)
    {
      StripPlaceholder();
      TidyEmbeddedFiles();
    }
  }

  // ----- Covers and merges ----------------------------------------------------------------------

  /** replace_first_page_with_cover: what went wrong, or nothing; the content is changed. */
  method ReplaceFirstPageWithCover(content: Pdf, cover: Pdf, ren: Id -> Id) returns (error: Option<string>)
    requires content.Valid() && cover.Valid() && content != cover
    requires Injective(ren) && New(ren, content.elements)
    modifies content, cover
    ensures content.Valid()
    ensures match Merge.ReplaceFirstPageWithCover(old(content.Contents()), old(cover.Contents()), ren)
            case Err(message) => error == Some(message) && content.Contents() == old(content.Contents())
            case Ok(result) => error == None && content.Contents() == result
  {
    if |cover.pages| == 0 {
      return Some(Merge.NO_PAGES);
    }
    content.StripPlaceholder();
    content.Add(cover, [cover.pages[0]], ren, true);
    return None;
  }

  /** Documents, from one on, as they were opened. */
  ghost predicate Opened(docs: seq<Pdf>, contents: seq<Doc>, from: nat)
    reads docs
  {
    |docs| == |contents| && forall i :: from <= i < |docs| ==> docs[i].Valid() && docs[i].Contents() == contents[i]
  }

  ghost predicate Distinct(docs: seq<Pdf>) {
    forall i, j :: 0 <= i < j < |docs| ==> docs[i] != docs[j]
  }

  /** No two documents are copied to the same objects. */
  ghost predicate Apart(rens: seq<Id -> Id>) {
    Merge.AllInjective(rens) && forall i, j, x, y :: 0 <= i < j < |rens| ==> rens[i](x) != rens[j](y)
  }

  /** The objects that the documents from one on will be copied to are new. */
  ghost predicate NewFrom(rens: seq<Id -> Id>, from: nat, s: Store) {
    forall j :: from <= j < |rens| ==> New(rens[j], s)
  }

  lemma StillNew(rens: seq<Id -> Id>, i: nat, s: Store, t: Store, ids: set<Id>)
    requires Apart(rens) && i < |rens| && NewFrom(rens, i, s) && t.Keys <= s.Keys + RenameSet(ids, rens[i])
    ensures NewFrom(rens, i + 1, t)
  {
    forall j | i + 1 <= j < |rens| ensures New(rens[j], t) {
      forall y ensures rens[j](y) !in t {
        assert rens[j](y) !in RenameSet(ids, rens[i]);
        assert New(rens[j], s);
      }
    }
  }

  /** A merge with one more document, as the loop makes it. */
  lemma MergeOneMore(first: Doc, rest: seq<Doc>, rens: seq<Id -> Id>, i: nat)
    requires i < |rest| == |rens| && Merge.AllInjective(rens)
    ensures Merge.AllInjective(rens[..i]) && Merge.AllInjective(rens[..i + 1]) && Injective(rens[i])
    ensures Merge.MergeDocs(first, rest[..i + 1], rens[..i + 1])
         == Merge.Extended(Merge.MergeDocs(first, rest[..i], rens[..i]), rest[i], rens[i])
  {
    var docs, copies := rest[..i + 1], rens[..i + 1];
    assert Merge.Front(docs) == rest[..i] && Merge.Last(docs) == rest[i];
    assert Merge.Front(copies) == rens[..i] && Merge.Last(copies) == rens[i];
    assert docs != [];
  }

  /** One turn of the loop of merge_pdf_files, for a document that is not the first. */
  method MergeNext(merged: Pdf, next: Pdf, rens: seq<Id -> Id>, i: nat)
    requires merged.Valid() && next.Valid() && merged != next
    requires Apart(rens) && i < |rens| && NewFrom(rens, i, merged.elements)
    modifies merged, next
    ensures merged.Valid() && merged.Contents() == Merge.Extended(old(merged.Contents()), old(next.Contents()), rens[i])
    ensures NewFrom(rens, i + 1, merged.elements)
  {
    ghost var files, before, ids := next.files, merged.elements, next.elements.Keys;
    next.StripPlaceholder();
    assert next.files == files;
    assert New(rens[i], before);
    merged.Add(next, next.pages, rens[i], false);
    merged.AddEmbeddedFiles(next, rens[i]);
    StillNew(rens, i, before, merged.elements, ids);
  }

  /** The documents after it are as they were opened. */
  method MergeTurn(merged: Pdf, others: seq<Pdf>, rens: seq<Id -> Id>, ghost rest: seq<Doc>, i: nat)
    requires merged.Valid() && merged !in others && Distinct(others) && Opened(others, rest, i) && i < |rest| == |rens|
    requires Apart(rens) && NewFrom(rens, i, merged.elements)
    modifies merged, others[i]
    ensures Opened(others, rest, i + 1) && merged.Valid() && NewFrom(rens, i + 1, merged.elements)
    ensures merged.Contents() == Merge.Extended(old(merged.Contents()), rest[i], rens[i])
  {
    MergeNext(merged, others[i], rens, i);
    forall j | i + 1 <= j < |rest| ensures others[j].Valid() && others[j].Contents() == rest[j] {
      assert others[j] in others && others[j] != others[i];
      assert old(others[j].Valid()) && old(others[j].Contents()) == rest[j];
    }
  }

  /** The loop of merge_pdf_files over the documents after the first, which are merged into it in their order. */
  method MergeInto(merged: Pdf, others: seq<Pdf>, rens: seq<Id -> Id>, ghost first: Doc, ghost rest: seq<Doc>)
    requires merged.Valid() && merged.Contents() == first && merged !in others && Distinct(others)
    requires Opened(others, rest, 0)
    requires |rens| == |rest| && Apart(rens) && NewFrom(rens, 0, merged.elements)
    modifies merged, others
    ensures merged.Valid() && merged.Contents() == Merge.MergeDocs(first, rest, rens)
  {
    merged.StartMerge();
    for i := 0 to |rens|
      invariant merged.Valid() && Merge.AllInjective(rens[..i])
      invariant merged.Contents() == Merge.MergeDocs(first, rest[..i], rens[..i])
      invariant Opened(others, rest, i) && NewFrom(rens, i, merged.elements)
    {
      MergeOneMore(first, rest, rens, i);
      MergeTurn(merged, others, rens, rest, i);
    }
    assert rest[..|rens|] == rest && rens[..|rens|] == rens;
  }

  /** merge_pdf_files: the documents are merged into the first; of no documents the merge is an empty one. */
  method MergePdfFiles(docs: seq<Pdf>, rens: seq<Id -> Id>, ghost contents: seq<Doc>) returns (merged: Pdf)
    requires Distinct(docs) && Opened(docs, contents, 0)
    requires docs == [] || (|rens| == |docs| - 1 && Apart(rens) && NewFrom(rens, 0, docs[0].elements))
    modifies docs
    ensures merged.Valid()
    ensures merged.Contents() == if docs == [] then Doc([], map[], None, None, EmbeddedFiles.Files(None, []))
                                 else Merge.MergeDocs(contents[0], contents[1..], rens)
  {
    if docs == [] {
      merged := new Pdf();
    } else {
      merged := docs[0];
      assert forall d :: d in docs[1..] ==> d in docs;
      MergeInto(merged, docs[1..], rens, contents[0], contents[1..]);
    }
  }
}
