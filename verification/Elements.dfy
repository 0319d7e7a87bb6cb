/** What becomes of each element of a structure in a merge, or under a cover. */
module Elements {
  import opened Wrappers
  import opened StructTree
  import opened StructCopy
  import opened TaggedPdf
  import opened TaggedLaw
  import opened Merge

  // ----- What an element is afterwards --------------------------------------------------------

  /** Something of the element stays: an item or a childless element of its subtree, or a stray reference. */
  ghost predicate Stays(x: Element, pages: set<Id>) {
    Anchored(Items(x), LeafPages(x), pages) || Strays(x, pages) > 0
  }

  /** A kid stays: an element as above, a bare MCID with the page of its element, a reference with its own. */
  ghost predicate KidStays(kid: Kid, on: bool, pages: set<Id>) {
    match kid
    case Child(e) => Stays(e, pages)
    case Mcid(_) => on
    case Reference(pg, _) => pg.None? || pg.value in pages
  }

  /** The page stated by a copy: the copy of the page, and none where that was not copied. */
  predicate PageFollows(pg: Option<Id>, copy: Option<Id>, ren: Id -> Id, pages: set<Id>) {
    if pg.Some? && pg.value in pages then copy == Some(ren(pg.value)) else copy == None
  }

  predicate ContentFollows(content: Content, copy: Content, ren: Id -> Id) {
    match content
    case Mark(_) => copy == content
    case Object(obj) => copy == Object(ren(obj))
  }

  predicate KidFollows(kid: Kid, copy: Kid, ren: Id -> Id, pages: set<Id>) {
    match kid
    case Child(e) => copy.Child? && copy.elem.id == ren(e.id)
    case Mcid(_) => copy == kid
    case Reference(pg, content) =>
      copy.Reference? && PageFollows(pg, copy.pg, ren, pages) && ContentFollows(content, copy.content, ren)
  }

  /** The kids of a copy are those of the kids that stay, in their order. */
  ghost predicate KidsFollow(kids: seq<Kid>, copies: seq<Kid>, on: bool, ren: Id -> Id, pages: set<Id>)
    decreases kids
  {
    if kids == [] then copies == []
    else if KidStays(kids[0], on, pages) then
      copies != [] && KidFollows(kids[0], copies[0], ren, pages) && KidsFollow(kids[1..], copies[1..], on, ren, pages)
    else KidsFollow(kids[1..], copies, on, ren, pages)
  }

  /** An element and its copy: the same structure type, the copy of its page, and the copies of the kids that stay. */
  ghost predicate Follows(x: Element, y: Element, ren: Id -> Id, pages: set<Id>) {
    y.id == ren(x.id) && y.tag == x.tag && PageFollows(x.pg, y.pg, ren, pages)
    && KidsFollow(x.kids, y.kids, x.pg.None? || x.pg.value in pages, ren, pages)
  }

  const SAME: Id -> Id := x => x

  /** An element and what pruning leaves of it: all it states, and the kids that stay. */
  ghost predicate LeftOf(x: Element, y: Element, pages: set<Id>) {
    y.id == x.id && y.tag == x.tag && y.pg == x.pg && y.lang == x.lang
    && KidsFollow(x.kids, y.kids, x.pg.None? || x.pg.value in pages, SAME, pages)
  }

  lemma StaysIff(x: Element, pages: set<Id>)
    ensures Keeps(x, pages) <==> Stays(x, pages)
  {
    KeepsIffAnchored(x, pages);
  }

  lemma KidStaysIff(kid: Kid, on: bool, pages: set<Id>)
    ensures KidStays(kid, on, pages) <==> PruneKid(kid, on, pages) != []
    ensures PruneKid(kid, on, pages) != [] ==> |PruneKid(kid, on, pages)| == 1
  {
    if kid.Child? {
      StaysIff(kid.elem, pages);
    }
  }

  lemma {:induction false} PrunedKidsFollow(kids: seq<Kid>, on: bool, pages: set<Id>)
    ensures KidsFollow(kids, PruneKids(kids, on, pages), on, SAME, pages)
  {
    if kids != [] {
      KidStaysIff(kids[0], on, pages);
      PrunedKidsFollow(kids[1..], on, pages);
      var first, rest := PruneKid(kids[0], on, pages), PruneKids(kids[1..], on, pages);
      if first != [] {
        assert first + rest == [first[0]] + rest;
        assert (first + rest)[1..] == rest;
      } else {
        assert first + rest == rest;
      }
    }
  }

  lemma CopiedKidFollows(kid: Kid, on: bool, ren: Id -> Id, pages: set<Id>)
    requires PruneKid(kid, on, pages) != []
    ensures KidFollows(kid, CopyKid(PruneKid(kid, on, pages)[0], ren, pages), ren, pages)
  {
    if kid.Child? {
      assert PruneKid(kid, on, pages)[0] == Child(Prune(kid.elem, pages));
      assert Copy(Prune(kid.elem, pages), ren, pages).id == ren(kid.elem.id);
    }
  }

  lemma {:induction false} CopiedKidsFollow(kids: seq<Kid>, on: bool, ren: Id -> Id, pages: set<Id>)
    ensures KidsFollow(kids, CopyKids(PruneKids(kids, on, pages), ren, pages), on, ren, pages)
  {
    if kids != [] {
      KidStaysIff(kids[0], on, pages);
      CopiedKidsFollow(kids[1..], on, ren, pages);
      var first, rest := PruneKid(kids[0], on, pages), PruneKids(kids[1..], on, pages);
      if first != [] {
        assert first + rest == [first[0]] + rest;
        assert (first + rest)[1..] == rest;
        var copies := CopyKids(first + rest, ren, pages);
        assert copies[0] == CopyKid(first[0], ren, pages) && copies[1..] == CopyKids(rest, ren, pages);
        CopiedKidFollows(kids[0], on, ren, pages);
      } else {
        assert first + rest == rest;
      }
    }
  }

  /** What pruning leaves of an element keeps its structure type, its page, and its language. */
  lemma PrunedIsLeft(x: Element, pages: set<Id>)
    ensures LeftOf(x, Prune(x, pages), pages)
  {
    PrunedKidsFollow(x.kids, OnKeptPage(x.pg, pages), pages);
  }

  lemma CopyFollows(x: Element, ren: Id -> Id, pages: set<Id>)
    ensures Follows(x, Copy(Prune(x, pages), ren, pages), ren, pages)
  {
    CopiedKidsFollow(x.kids, OnKeptPage(x.pg, pages), ren, pages);
  }

  // ----- Where it is --------------------------------------------------------------------------

  lemma {:induction false} ChildIsElement(kids: seq<Kid>, e: Element)
    requires Child(e) in kids
    ensures e in KidElements(kids) && forall x :: x in Descendants(e) ==> x in KidElements(kids)
  {
    assert kids == [kids[0]] + kids[1..];
    if kids[0] == Child(e) {
      assert KidElements(kids) == ([e] + Descendants(e)) + KidElements(kids[1..]);
    } else {
      ChildIsElement(kids[1..], e);
    }
  }

  /** An element below is a kid, or below a kid. */
  lemma {:induction false} ElementIsBelow(kids: seq<Kid>, x: Element) returns (i: nat)
    requires x in KidElements(kids)
    ensures i < |kids| && kids[i].Child? && (kids[i].elem == x || x in Descendants(kids[i].elem))
  {
    assert kids == [kids[0]] + kids[1..];
    if x in ElementsOf(kids[0]) {
      i := 0;
    } else {
      i := ElementIsBelow(kids[1..], x);
      i := i + 1;
    }
  }

  lemma {:induction false} PrunedChild(kids: seq<Kid>, e: Element, on: bool, pages: set<Id>)
    requires Child(e) in kids && Keeps(e, pages)
    ensures Child(Prune(e, pages)) in PruneKids(kids, on, pages)
  {
    assert kids == [kids[0]] + kids[1..];
    if kids[0] == Child(e) {
      assert PruneKid(kids[0], on, pages) == [Child(Prune(e, pages))];
    } else {
      PrunedChild(kids[1..], e, on, pages);
    }
  }

  lemma CopiedChild(kids: seq<Kid>, e: Element, ren: Id -> Id, copied: set<Id>)
    requires Child(e) in kids
    ensures Child(Copy(e, ren, copied)) in CopyKids(kids, ren, copied)
  {
    var i :| 0 <= i < |kids| && kids[i] == Child(e);
    CopiedKidAt(kids, i, ren, copied);
  }

  lemma {:induction false} CopiedKidAt(kids: seq<Kid>, i: nat, ren: Id -> Id, copied: set<Id>)
    requires i < |kids|
    ensures CopyKids(kids, ren, copied)[i] == CopyKid(kids[i], ren, copied)
  {
    if i > 0 {
      CopiedKidAt(kids[1..], i - 1, ren, copied);
    }
  }

  function Marked(e: Element, lang: Option<string>): Element {
    if lang.Some? && e.lang.None? then e.(lang := lang) else e
  }

  lemma {:induction false} MarkedChild(kids: seq<Kid>, e: Element, lang: Option<string>)
    requires Child(e) in kids
    ensures Child(Marked(e, lang)) in MarkKids(kids, lang)
  {
    assert kids == [kids[0]] + kids[1..];
    if kids[0] != Child(e) {
      MarkedChild(kids[1..], e, lang);
    }
  }

  /** An element that stays leaves something of those above it. */
  lemma BelowKeeps(e: Element, x: Element, pages: set<Id>)
    requires x in Descendants(e) && Keeps(x, pages)
    ensures Keeps(e, pages) && Prune(x, pages) in Descendants(Prune(e, pages))
  {
    PruneKeepsSurvivors(e, pages);
    SurvivorIsThere(Descendants(e), pages, x);
    assert e.kids != [];
  }

  lemma {:induction false} SurvivorIsThere(elems: seq<Element>, pages: set<Id>, x: Element)
    requires x in elems && Keeps(x, pages)
    ensures Prune(x, pages) in PrunedSurvivors(elems, pages)
  {
    assert elems == [elems[0]] + elems[1..];
    if elems[0] != x {
      SurvivorIsThere(elems[1..], pages, x);
    }
  }

  lemma {:induction false} CopiedElement(kids: seq<Kid>, x: Element, ren: Id -> Id, copied: set<Id>)
    requires x in KidElements(kids)
    ensures Copy(x, ren, copied) in KidElements(CopyKids(kids, ren, copied))
    decreases kids
  {
    var i := ElementIsBelow(kids, x);
    var e := kids[i].elem;
    assert Child(e) in kids;
    CopiedChild(kids, e, ren, copied);
    ChildIsElement(CopyKids(kids, ren, copied), Copy(e, ren, copied));
    if e != x {
      assert kids[i].elem < kids[i];
      CopiedElement(kids[i].elem.kids, x, ren, copied);
    }
  }

  /** What a pruned, copied, and marked list of kids holds for an element that stays. */
  lemma BroughtElement(kids: seq<Kid>, on: bool, ren: Id -> Id, pages: set<Id>, mark: Option<string>, x: Element)
    returns (y: Element)
    requires x in KidElements(kids) && Stays(x, pages)
    ensures y in KidElements(MarkKids(CopyKids(PruneKids(kids, on, pages), ren, pages), mark))
    ensures var copy := Copy(Prune(x, pages), ren, pages); y == if Child(x) in kids then Marked(copy, mark) else copy
  {
    StaysIff(x, pages);
    var i := ElementIsBelow(kids, x);
    var e := if Child(x) in kids then x else kids[i].elem;
    if e != x {
      BelowKeeps(e, x, pages);
      CopiedElement(Prune(e, pages).kids, Prune(x, pages), ren, pages);
    }
    BroughtChild(kids, e, on, ren, pages, mark);
    y := if e == x then Marked(Copy(Prune(x, pages), ren, pages), mark) else Copy(Prune(x, pages), ren, pages);
  }

  lemma BroughtChild(kids: seq<Kid>, e: Element, on: bool, ren: Id -> Id, pages: set<Id>, mark: Option<string>)
    requires Child(e) in kids && Keeps(e, pages)
    ensures var copy, all := Copy(Prune(e, pages), ren, pages),
                             KidElements(MarkKids(CopyKids(PruneKids(kids, on, pages), ren, pages), mark));
      Marked(copy, mark) in all && forall z :: z in Descendants(copy) ==> z in all
  {
    var copy, copies := Copy(Prune(e, pages), ren, pages), CopyKids(PruneKids(kids, on, pages), ren, pages);
    PrunedChild(kids, e, on, pages);
    CopiedChild(PruneKids(kids, on, pages), Prune(e, pages), ren, pages);
    MarkedChild(copies, copy, mark);
    ChildIsElement(MarkKids(copies, mark), Marked(copy, mark));
    assert Descendants(Marked(copy, mark)) == Descendants(copy);
  }

  // ----- Adding pages -------------------------------------------------------------------------

  /** The language a copy states: that of the original, or for a kid of the Document the catalog's, where it differs. */
  predicate StatesLang(x: Element, y: Element, top: bool, source: Option<string>, target: Option<string>) {
    y.lang == if top && x.lang.None? && source.Some? && source != target then source else x.lang
  }

  lemma AddBrings(target: Doc, source: Doc, pages: seq<Page>, ren: Id -> Id, atStart: bool, x: Element)
    returns (y: Element)
    requires Injective(ren) && target.structure.Some? && source.structure.Some?
    requires x in Descendants(source.structure.value.document) && Stays(x, PageIds(pages))
    ensures Add(target, source, pages, ren, atStart).structure.Some?
    ensures y in Descendants(Add(target, source, pages, ren, atStart).structure.value.document)
    ensures var copy := Copy(Prune(x, PageIds(pages)), ren, PageIds(pages));
      y == if Child(x) in source.structure.value.document.kids then Marked(copy, MarkedLang(target.lang, source.lang))
           else copy
  {
    var document, from := source.structure.value.document, PageIds(pages);
    var own, mark := target.structure.value.document.kids, MarkedLang(target.lang, source.lang);
    var moved := MarkKids(CopyKids(PruneKids(document.kids, OnKeptPage(document.pg, from), from), ren, from), mark);
    y := BroughtElement(document.kids, OnKeptPage(document.pg, from), ren, from, mark, x);
    KidElementsConcat(own, moved);
    KidElementsConcat(moved, own);
    assert Add(target, source, pages, ren, atStart).structure.value.document.kids == Joined(own, moved, atStart);
  }

  /** What is added to a tagged document for an element of a tagged source. */
  lemma AddBringsElement(target: Doc, source: Doc, pages: seq<Page>, ren: Id -> Id, atStart: bool, x: Element)
    returns (y: Element)
    requires Injective(ren) && target.structure.Some? && source.structure.Some?
    requires x in Descendants(source.structure.value.document) && Stays(x, PageIds(pages))
    ensures Add(target, source, pages, ren, atStart).structure.Some?
    ensures y in Descendants(Add(target, source, pages, ren, atStart).structure.value.document)
    ensures Follows(x, y, ren, PageIds(pages))
    ensures StatesLang(x, y, Child(x) in source.structure.value.document.kids, source.lang, target.lang)
  {
    y := AddBrings(target, source, pages, ren, atStart, x);
    CopyFollows(x, ren, PageIds(pages));
  }

  /** The target's own elements stay as they are, and its Document but for its kids. */
  lemma AddKeepsElements(target: Doc, source: Doc, pages: seq<Page>, ren: Id -> Id, atStart: bool)
    requires Injective(ren) && target.structure.Some?
    ensures Add(target, source, pages, ren, atStart).structure.Some?
    ensures var own, document := target.structure.value.document,
                                 Add(target, source, pages, ren, atStart).structure.value.document;
      document == own.(kids := document.kids)
      && forall y :: y in Descendants(own) ==> y in Descendants(document)
  {
    if source.structure.Some? {
      var own, document := target.structure.value.document, source.structure.value.document;
      var moved := MarkKids(Copy(Prune(document, PageIds(pages)), ren, PageIds(pages)).kids,
                            MarkedLang(target.lang, source.lang));
      KidElementsConcat(own.kids, moved);
      KidElementsConcat(moved, own.kids);
      assert Add(target, source, pages, ren, atStart).structure.value.document.kids == Joined(own.kids, moved, atStart);
    }
  }

  // ----- A whole merge ------------------------------------------------------------------------

  /** What is left of an element once its document is stripped of its placeholder. */
  lemma StripLeaves(d: Doc, x: Element) returns (z: Element)
    requires d.structure.Some? && GoodTree(d.structure.value.document)
    requires x in Descendants(d.structure.value.document) && Stays(x, PageIds(TakenPages(d)))
    ensures Strip(d).structure.Some? && Strip(d).pages == TakenPages(d) && Strip(d).lang == d.lang
    ensures z in Descendants(Strip(d).structure.value.document) && Stays(z, PageIds(TakenPages(d)))
    ensures Prune(z, PageIds(TakenPages(d))) == Prune(x, PageIds(TakenPages(d)))
    ensures Child(z) in Strip(d).structure.value.document.kids <==> Child(x) in d.structure.value.document.kids
  {
    var document, pages := d.structure.value.document, PageIds(TakenPages(d));
    z := x;
    if StartsWithPlaceholder(d) {
      z := Prune(x, pages);
      StaysIff(x, pages);
      StaysIff(z, pages);
      PruneIdempotent(x, pages);
      PruneKeepsSurvivors(document, pages);
      SurvivorIsThere(Descendants(document), pages, x);
      TopStaysTop(document, x, pages);
    }
  }

  /** Of elements with distinct identities, those left among the kids of the Document are those that were there. */
  lemma TopStaysTop(document: Element, x: Element, pages: set<Id>)
    requires GoodTree(document) && x in Descendants(document) && Keeps(x, pages)
    ensures Child(Prune(x, pages)) in Prune(document, pages).kids <==> Child(x) in document.kids
  {
    var on := OnKeptPage(document.pg, pages);
    if Child(x) in document.kids {
      PrunedChild(document.kids, x, on, pages);
    }
    if Child(Prune(x, pages)) in PruneKids(document.kids, on, pages) {
      var e := PrunedChildOrigin(document.kids, on, pages, Prune(x, pages));
      ChildIsElement(document.kids, e);
      SameIdSameElement(document, e, x);
    }
  }

  lemma {:induction false} PrunedChildOrigin(kids: seq<Kid>, on: bool, pages: set<Id>, z: Element)
    returns (e: Element)
    requires Child(z) in PruneKids(kids, on, pages)
    ensures Child(e) in kids && Prune(e, pages) == z
  {
    assert kids == [kids[0]] + kids[1..];
    if Child(z) in PruneKid(kids[0], on, pages) {
      e := kids[0].elem;
    } else {
      e := PrunedChildOrigin(kids[1..], on, pages, z);
    }
  }

  lemma SameIdSameElement(document: Element, a: Element, b: Element)
    requires GoodTree(document) && a in Descendants(document) && b in Descendants(document) && a.id == b.id
    ensures a == b
  {
    var ids := ElementIds(Descendants(document));
    NoDupParts([document.id], ids);
    var i :| 0 <= i < |ids| && Descendants(document)[i] == a;
    var j :| 0 <= j < |ids| && Descendants(document)[j] == b;
    assert ids[i] == ids[j];
  }

  lemma ExtendedBrings(merged: Doc, next: Doc, ren: Id -> Id, x: Element) returns (y: Element)
    requires Injective(ren) && merged.structure.Some? && next.structure.Some?
    requires GoodTree(next.structure.value.document)
    requires x in Descendants(next.structure.value.document) && Stays(x, PageIds(TakenPages(next)))
    ensures Extended(merged, next, ren).structure.Some?
    ensures y in Descendants(Extended(merged, next, ren).structure.value.document)
    ensures Follows(x, y, ren, PageIds(TakenPages(next)))
    ensures StatesLang(x, y, Child(x) in next.structure.value.document.kids, next.lang, merged.lang)
  {
    var z := StripLeaves(next, x);
    y := AddBrings(merged, Strip(next), Strip(next).pages, ren, false, z);
    CopyFollows(x, ren, PageIds(TakenPages(next)));
  }

  /**
    Every element of a later tagged document of which something stays has an element in the merge: of the same structure
    type, on the copy of its page, with copies of the kids that stay, and stating the language it stated, or that of its
    catalog where it is a kid of the Document, states none, and the first document's catalog states another.
   */
  lemma {:induction false} MergeKeepsElements(first: Doc, rest: seq<Doc>, rens: seq<Id -> Id>, i: nat, x: Element)
    returns (y: Element)
    requires |rens| == |rest| && AllInjective(rens) && first.structure.Some? && i < |rest|
    requires rest[i].structure.Some? && GoodTree(rest[i].structure.value.document)
    requires x in Descendants(rest[i].structure.value.document) && Stays(x, PageIds(TakenPages(rest[i])))
    ensures MergeDocs(first, rest, rens).structure.Some?
    ensures y in Descendants(MergeDocs(first, rest, rens).structure.value.document)
    ensures Follows(x, y, rens[i], PageIds(TakenPages(rest[i])))
    ensures StatesLang(x, y, Child(x) in rest[i].structure.value.document.kids, rest[i].lang, first.lang)
  {
    var merged := MergeDocs(first, Front(rest), Front(rens));
    MergeKeepsDocument(first, Front(rest), Front(rens));
    if i == |rest| - 1 {
      y := ExtendedBrings(merged, Last(rest), Last(rens), x);
    } else {
      y := MergeKeepsElements(first, Front(rest), Front(rens), i, x);
      AddKeepsElements(merged, Strip(Last(rest)), Strip(Last(rest)).pages, Last(rens), false);
    }
  }

  /** The Document of a merge is the first document's, but for its kids, and so is the catalog language. */
  lemma {:induction false} MergeKeepsDocument(first: Doc, rest: seq<Doc>, rens: seq<Id -> Id>)
    requires |rens| == |rest| && AllInjective(rens) && first.structure.Some?
    ensures MergeDocs(first, rest, rens).structure.Some? && MergeDocs(first, rest, rens).lang == first.lang
    ensures var own, document := first.structure.value.document, MergeDocs(first, rest, rens).structure.value.document;
      document == own.(kids := document.kids)
  {
    if rest != [] {
      MergeKeepsDocument(first, Front(rest), Front(rens));
      AddKeepsElements(MergeDocs(first, Front(rest), Front(rens)), Strip(Last(rest)), Strip(Last(rest)).pages,
                       Last(rens), false);
    }
  }

  /** What is left of an element of the first document: all of it, or what stays once the placeholder page is gone. */
  ghost predicate LeftOfFirst(first: Doc, x: Element, y: Element) {
    if |first.pages| > 1 && first.pages[0].placeholder then LeftOf(x, y, PageIds(first.pages[1..])) else y == x
  }

  /** The elements of the first document stay, those of the placeholder page excepted. */
  lemma {:induction false} MergeKeepsFirstElements(first: Doc, rest: seq<Doc>, rens: seq<Id -> Id>, x: Element)
    returns (y: Element)
    requires |rens| == |rest| && AllInjective(rens) && first.structure.Some?
    requires x in Descendants(first.structure.value.document)
    requires |first.pages| > 1 && first.pages[0].placeholder ==> Stays(x, PageIds(first.pages[1..]))
    ensures MergeDocs(first, rest, rens).structure.Some? && LeftOfFirst(first, x, y)
    ensures y in Descendants(MergeDocs(first, rest, rens).structure.value.document)
  {
    if rest == [] {
      y := StripKeepsElement(first, x);
    } else {
      y := MergeKeepsFirstElements(first, Front(rest), Front(rens), x);
      AddKeepsElements(MergeDocs(first, Front(rest), Front(rens)), Strip(Last(rest)), Strip(Last(rest)).pages,
                       Last(rens), false);
    }
  }

  lemma StripKeepsElement(d: Doc, x: Element) returns (y: Element)
    requires d.structure.Some? && x in Descendants(d.structure.value.document)
    requires |d.pages| > 1 && d.pages[0].placeholder ==> Stays(x, PageIds(d.pages[1..]))
    ensures Strip(d).structure.Some? && LeftOfFirst(d, x, y)
    ensures y in Descendants(Strip(d).structure.value.document)
  {
    y := x;
    if StartsWithPlaceholder(d) {
      var pages := PageIds(d.pages[1..]);
      y := Prune(x, pages);
      StaysIff(x, pages);
      PrunedIsLeft(x, pages);
      PruneKeepsSurvivors(d.structure.value.document, pages);
      SurvivorIsThere(Descendants(d.structure.value.document), pages, x);
    }
  }

  // ----- No others ----------------------------------------------------------------------------

  /** The identities of the elements that stay, in their order. */
  ghost function StayingIds(elems: seq<Element>, pages: set<Id>): seq<Id> {
    if elems == [] then [] else (if Stays(elems[0], pages) then [elems[0].id] else []) + StayingIds(elems[1..], pages)
  }

  lemma {:induction false} SurvivorIds(elems: seq<Element>, pages: set<Id>)
    ensures ElementIds(PrunedSurvivors(elems, pages)) == StayingIds(elems, pages)
  {
    if elems != [] {
      SurvivorIds(elems[1..], pages);
      StaysIff(elems[0], pages);
      var rest := PrunedSurvivors(elems[1..], pages);
      if Keeps(elems[0], pages) {
        assert PrunedSurvivors(elems, pages) == [Prune(elems[0], pages)] + rest;
        assert ElementIds(PrunedSurvivors(elems, pages)) == [elems[0].id] + ElementIds(rest);
      } else {
        assert PrunedSurvivors(elems, pages) == rest;
      }
    }
  }

  /** The identities of the elements under the Document of a document's structure, less the placeholder's. */
  ghost function OwnIds(d: Doc): seq<Id>
    requires d.structure.Some?
  {
    var elems := Descendants(d.structure.value.document);
    if |d.pages| > 1 && d.pages[0].placeholder then StayingIds(elems, PageIds(d.pages[1..])) else ElementIds(elems)
  }

  /** The identities of the copies of the elements that come with a document, if it is tagged. */
  ghost function BroughtIds(d: Doc, ren: Id -> Id): seq<Id> {
    if d.structure.None? then []
    else RenameIds(StayingIds(Descendants(d.structure.value.document), PageIds(TakenPages(d))), ren)
  }

  ghost function AllIds(first: Doc, rest: seq<Doc>, rens: seq<Id -> Id>): seq<Id>
    requires |rens| == |rest| && first.structure.Some?
  {
    if rest == [] then OwnIds(first)
    else AllIds(first, Front(rest), Front(rens)) + BroughtIds(Last(rest), Last(rens))
  }

  lemma StripIds(d: Doc)
    requires d.structure.Some?
    ensures Strip(d).structure.Some? && ElementIds(Descendants(Strip(d).structure.value.document)) == OwnIds(d)
  {
    if StartsWithPlaceholder(d) {
      PruneKeepsSurvivors(d.structure.value.document, PageIds(d.pages[1..]));
      SurvivorIds(Descendants(d.structure.value.document), PageIds(d.pages[1..]));
    }
  }

  lemma AddedIds(target: Doc, source: Doc, pages: seq<Page>, ren: Id -> Id, atStart: bool)
    requires Injective(ren) && target.structure.Some? && source.structure.Some?
    ensures Add(target, source, pages, ren, atStart).structure.Some?
    ensures ElementIds(Descendants(Add(target, source, pages, ren, atStart).structure.value.document))
         == Joined(ElementIds(Descendants(target.structure.value.document)),
                   RenameIds(StayingIds(Descendants(source.structure.value.document), PageIds(pages)), ren), atStart)
  {
    var own, document, from := target.structure.value.document, source.structure.value.document, PageIds(pages);
    var copies := Copy(Prune(document, from), ren, from).kids;
    var moved := MarkKids(copies, MarkedLang(target.lang, source.lang));
    KidElementsConcat(own.kids, moved);
    KidElementsConcat(moved, own.kids);
    IdsConcat(KidElements(own.kids), KidElements(moved));
    IdsConcat(KidElements(moved), KidElements(own.kids));
    MarkKeepsElements(copies, MarkedLang(target.lang, source.lang));
    CopyRenamesElements(Prune(document, from).kids, ren, from);
    PruneKeepsSurvivors(document, from);
    SurvivorIds(Descendants(document), from);
    assert Add(target, source, pages, ren, atStart).structure.value.document.kids == Joined(own.kids, moved, atStart);
  }

  /** Pruned twice to the same pages, the elements left are those left after once. */
  lemma StrippedStay(d: Doc)
    requires d.structure.Some?
    ensures Strip(d).structure.Some?
    ensures StayingIds(Descendants(Strip(d).structure.value.document), PageIds(TakenPages(d)))
         == StayingIds(Descendants(d.structure.value.document), PageIds(TakenPages(d)))
  {
    if StartsWithPlaceholder(d) {
      var document, pages := d.structure.value.document, PageIds(TakenPages(d));
      PruneIdempotent(document, pages);
      PruneKeepsSurvivors(document, pages);
      PruneKeepsSurvivors(Prune(document, pages), pages);
      SurvivorIds(Descendants(document), pages);
      SurvivorIds(Descendants(Prune(document, pages)), pages);
    }
  }

  /** The elements of a merge are those of the tagged documents that stay, one document after the other: no others. */
  lemma {:induction false} MergeConservesElements(first: Doc, rest: seq<Doc>, rens: seq<Id -> Id>)
    requires |rens| == |rest| && AllInjective(rens) && first.structure.Some?
    ensures MergeDocs(first, rest, rens).structure.Some?
    ensures ElementIds(Descendants(MergeDocs(first, rest, rens).structure.value.document)) == AllIds(first, rest, rens)
  {
    if rest == [] {
      StripIds(first);
    } else {
      var merged, next := MergeDocs(first, Front(rest), Front(rens)), Last(rest);
      MergeConservesElements(first, Front(rest), Front(rens));
      if next.structure.Some? {
        StrippedStay(next);
        AddedIds(merged, Strip(next), Strip(next).pages, Last(rens), false);
      }
    }
  }
}
