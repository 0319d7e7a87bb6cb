/**
  Copying a pruned structure into another document. The copy of an object is the one object a renaming gives it, so
  whatever points at it points at the same copy; a reference to a page that was not copied becomes null.
 */
module StructCopy {
  import opened Wrappers
  import opened StructTree

  ghost predicate Injective(ren: Id -> Id) {
    forall x, y :: ren(x) == ren(y) ==> x == y
  }

  function CopyPageRef(pg: Option<Id>, ren: Id -> Id, copied: set<Id>): Option<Id> {
    if pg.Some? && pg.value in copied then Some(ren(pg.value)) else None
  }

  function CopyContent(content: Content, ren: Id -> Id): Content {
    match content
    case Mark(_) => content
    case Object(obj) => Object(ren(obj))
  }

  function Copy(e: Element, ren: Id -> Id, copied: set<Id>): Element
    decreases e, 1
  {
    Element(ren(e.id), e.tag, CopyPageRef(e.pg, ren, copied), e.lang, CopyKids(e.kids, ren, copied))
  }

  function CopyKids(kids: seq<Kid>, ren: Id -> Id, copied: set<Id>): (r: seq<Kid>)
    ensures |r| == |kids|
    decreases kids, 0
  {
    if kids == [] then [] else [CopyKid(kids[0], ren, copied)] + CopyKids(kids[1..], ren, copied)
  }

  function CopyKid(kid: Kid, ren: Id -> Id, copied: set<Id>): Kid
    decreases kid, 2
  {
    match kid
    case Child(e) => Child(Copy(e, ren, copied))
    case Mcid(_) => kid
    case Reference(pg, content) => Reference(CopyPageRef(pg, ren, copied), CopyContent(content, ren))
  }

  // ----- References with a page of their own --------------------------------------------------

  /** Every reference of the subtree states its page. */
  predicate ReferencesPaged(e: Element)
    decreases e, 1
  {
    KidsReferencesPaged(e.kids)
  }

  predicate KidsReferencesPaged(kids: seq<Kid>)
    decreases kids, 0
  {
    kids == [] || (ReferencePaged(kids[0]) && KidsReferencesPaged(kids[1..]))
  }

  predicate ReferencePaged(kid: Kid)
    decreases kid, 2
  {
    match kid
    case Child(e) => ReferencesPaged(e)
    case Mcid(_) => true
    case Reference(pg, _) => pg.Some?
  }

  lemma {:induction false} KidsReferencesPagedConcat(a: seq<Kid>, b: seq<Kid>)
    ensures KidsReferencesPaged(a + b) <==> KidsReferencesPaged(a) && KidsReferencesPaged(b)
  {
    if a == [] {
      assert a + b == b;
    } else {
      assert (a + b)[0] == a[0] && (a + b)[1..] == a[1..] + b;
      KidsReferencesPagedConcat(a[1..], b);
    }
  }

  /** Then none is stray, whatever pages are kept, and pruning leaves it so. */
  lemma {:induction false} PagedReferencesDoNotStray(e: Element, pages: set<Id>)
    requires ReferencesPaged(e)
    ensures Strays(e, pages) == 0 && ReferencesPaged(Prune(e, pages))
    decreases e, 1
  {
    PagedKidsDoNotStray(e.kids, OnKeptPage(e.pg, pages), pages);
  }

  lemma {:induction false} PagedKidsDoNotStray(kids: seq<Kid>, on: bool, pages: set<Id>)
    requires KidsReferencesPaged(kids)
    ensures KidStrays(kids, on, pages) == 0 && KidsReferencesPaged(PruneKids(kids, on, pages))
    decreases kids, 0
  {
    if kids != [] {
      KidsReferencesPagedConcat(PruneKid(kids[0], on, pages), PruneKids(kids[1..], on, pages));
      PagedKidsDoNotStray(kids[1..], on, pages);
      if kids[0].Child? {
        assert kids[0].elem < kids[0];
        PagedReferencesDoNotStray(kids[0].elem, pages);
      }
      var first := PruneKid(kids[0], on, pages);
      assert first != [] ==> first[1..] == [];
    }
  }

  // ----- The items of a copy ------------------------------------------------------------------

  function CopyItem(i: Item, ren: Id -> Id, copied: set<Id>): Item {
    Item(ren(i.owner), CopyPageRef(i.page, ren, copied), CopyContent(i.content, ren))
  }

  function CopyItems(items: seq<Item>, ren: Id -> Id, copied: set<Id>): (r: seq<Item>)
    ensures |r| == |items|
    ensures forall k :: 0 <= k < |items| ==> r[k] == CopyItem(items[k], ren, copied)
  {
    seq(|items|, k requires 0 <= k < |items| => CopyItem(items[k], ren, copied))
  }

  /**
    A pruned element copied with the pages it was pruned to holds the copies of its items, in their order: no item
    loses its page, though an element that stays may lose its own.
   */
  lemma {:induction false} CopyRenamesItems(e: Element, ren: Id -> Id, pages: set<Id>)
    requires ReferencesPaged(e)
    ensures Items(Copy(Prune(e, pages), ren, pages)) == CopyItems(Items(Prune(e, pages)), ren, pages)
    decreases e, 1
  {
    CopyRenamesKidItems(e.kids, e.id, e.pg, ren, pages);
  }

  lemma {:induction false} CopyRenamesKidItems(kids: seq<Kid>, owner: Id, pg: Option<Id>, ren: Id -> Id, pages: set<Id>)
    requires KidsReferencesPaged(kids)
    ensures var kept := PruneKids(kids, OnKeptPage(pg, pages), pages);
            KidItems(CopyKids(kept, ren, pages), ren(owner), CopyPageRef(pg, ren, pages))
            == CopyItems(KidItems(kept, owner, pg), ren, pages)
    decreases kids, 0
  {
    if kids != [] {
      var on := OnKeptPage(pg, pages);
      var first, rest := PruneKid(kids[0], on, pages), PruneKids(kids[1..], on, pages);
      var to := CopyPageRef(pg, ren, pages);
      CopyKidsConcat(first, rest, ren, pages);
      KidItemsConcat(CopyKids(first, ren, pages), CopyKids(rest, ren, pages), ren(owner), to);
      KidItemsConcat(first, rest, owner, pg);
      CopyItemsConcat(KidItems(first, owner, pg), KidItems(rest, owner, pg), ren, pages);
      CopyRenamesItemsOf(kids[0], owner, pg, ren, pages);
      CopyRenamesKidItems(kids[1..], owner, pg, ren, pages);
    }
  }

  lemma {:induction false} CopyRenamesItemsOf(kid: Kid, owner: Id, pg: Option<Id>, ren: Id -> Id, pages: set<Id>)
    requires ReferencePaged(kid)
    ensures var kept := PruneKid(kid, OnKeptPage(pg, pages), pages);
            KidItems(CopyKids(kept, ren, pages), ren(owner), CopyPageRef(pg, ren, pages))
            == CopyItems(KidItems(kept, owner, pg), ren, pages)
    decreases kid, 2
  {
    var kept := PruneKid(kid, OnKeptPage(pg, pages), pages);
    if kept != [] {
      assert kept == [kept[0]];
      assert CopyKids(kept, ren, pages) == [CopyKid(kept[0], ren, pages)];
      SingleKid(kept[0], owner, pg);
      SingleKid(CopyKid(kept[0], ren, pages), ren(owner), CopyPageRef(pg, ren, pages));
      if kid.Child? {
        CopyRenamesItems(kid.elem, ren, pages);
      }
    }
  }

  lemma CopyItemsConcat(a: seq<Item>, b: seq<Item>, ren: Id -> Id, copied: set<Id>)
    ensures CopyItems(a + b, ren, copied) == CopyItems(a, ren, copied) + CopyItems(b, ren, copied)
  {
  }

  lemma {:induction false} CopyKidsConcat(a: seq<Kid>, b: seq<Kid>, ren: Id -> Id, copied: set<Id>)
    ensures CopyKids(a + b, ren, copied) == CopyKids(a, ren, copied) + CopyKids(b, ren, copied)
  {
    if a == [] {
      assert a + b == b;
    } else {
      assert (a + b)[0] == a[0] && (a + b)[1..] == a[1..] + b;
      CopyKidsConcat(a[1..], b, ren, copied);
    }
  }

  // ----- The elements of a copy ---------------------------------------------------------------

  function ElementIds(elems: seq<Element>): (r: seq<Id>)
    ensures |r| == |elems|
    ensures forall k :: 0 <= k < |elems| ==> r[k] == elems[k].id
  {
    seq(|elems|, k requires 0 <= k < |elems| => elems[k].id)
  }

  function RenameIds(ids: seq<Id>, ren: Id -> Id): (r: seq<Id>)
    ensures |r| == |ids|
    ensures forall k :: 0 <= k < |ids| ==> r[k] == ren(ids[k])
  {
    seq(|ids|, k requires 0 <= k < |ids| => ren(ids[k]))
  }

  lemma RenameKeepsNoDup(ids: seq<Id>, ren: Id -> Id)
    requires NoDup(ids) && Injective(ren)
    ensures NoDup(RenameIds(ids, ren))
  {
  }

  lemma RenameConcat(a: seq<Id>, b: seq<Id>, ren: Id -> Id)
    ensures RenameIds(a + b, ren) == RenameIds(a, ren) + RenameIds(b, ren)
  {
  }

  lemma IdsConcat(a: seq<Element>, b: seq<Element>)
    ensures ElementIds(a + b) == ElementIds(a) + ElementIds(b)
  {
  }

  lemma {:induction false} CopyRenamesElements(kids: seq<Kid>, ren: Id -> Id, copied: set<Id>)
    ensures ElementIds(KidElements(CopyKids(kids, ren, copied))) == RenameIds(ElementIds(KidElements(kids)), ren)
    decreases kids, 0
  {
    if kids != [] {
      var copies := CopyKids(kids, ren, copied);
      CopyRenamesElements(kids[1..], ren, copied);
      CopyRenamesElementsOf(kids[0], ren, copied);
      assert copies[0] == CopyKid(kids[0], ren, copied) && copies[1..] == CopyKids(kids[1..], ren, copied);
      IdsConcat(ElementsOf(kids[0]), KidElements(kids[1..]));
      IdsConcat(ElementsOf(copies[0]), KidElements(copies[1..]));
      RenameConcat(ElementIds(ElementsOf(kids[0])), ElementIds(KidElements(kids[1..])), ren);
    }
  }

  lemma {:induction false} CopyRenamesElementsOf(kid: Kid, ren: Id -> Id, copied: set<Id>)
    ensures ElementIds(ElementsOf(CopyKid(kid, ren, copied))) == RenameIds(ElementIds(ElementsOf(kid)), ren)
    decreases kid, 2
  {
    if kid.Child? {
      CopyRenamesElements(kid.elem.kids, ren, copied);
      var inner := Descendants(kid.elem);
      assert ElementIds(ElementsOf(kid)) == [kid.elem.id] + ElementIds(inner);
    }
  }

  lemma {:induction false} SurvivorsKeepIds(elems: seq<Element>, pages: set<Id>)
    ensures forall x :: x in ElementIds(PrunedSurvivors(elems, pages)) ==> x in ElementIds(elems)
    ensures NoDup(ElementIds(elems)) ==> NoDup(ElementIds(PrunedSurvivors(elems, pages)))
  {
    if elems != [] {
      SurvivorsKeepIds(elems[1..], pages);
      var ids, rest := ElementIds(elems), ElementIds(elems[1..]);
      var kept := ElementIds(PrunedSurvivors(elems[1..], pages));
      assert ids == [elems[0].id] + rest;
      if Keeps(elems[0], pages) {
        assert ElementIds(PrunedSurvivors(elems, pages)) == [elems[0].id] + kept;
      } else {
        assert ElementIds(PrunedSurvivors(elems, pages)) == kept;
      }
      if NoDup(ids) {
        NoDupParts([elems[0].id], rest);
        assert elems[0].id in [elems[0].id];
        NoDupConcat([elems[0].id], kept);
      }
    }
  }

  // ----- The language of an element -----------------------------------------------------------

  /** An element and the language it is in: its own, or that of the nearest element above it, or that of the catalog. */
  datatype Spoken = Spoken(elem: Id, lang: Option<string>)

  function Langs(kids: seq<Kid>, inherited: Option<string>): seq<Spoken>
    decreases kids, 0
  {
    if kids == [] then [] else LangsOf(kids[0], inherited) + Langs(kids[1..], inherited)
  }

  function LangsOf(kid: Kid, inherited: Option<string>): seq<Spoken>
    decreases kid, 2
  {
    match kid
    case Child(e) =>
      var lang := if e.lang.Some? then e.lang else inherited;
      [Spoken(e.id, lang)] + Langs(e.kids, lang)
    case _ => []
  }

  lemma {:induction false} LangsConcat(a: seq<Kid>, b: seq<Kid>, inherited: Option<string>)
    ensures Langs(a + b, inherited) == Langs(a, inherited) + Langs(b, inherited)
  {
    if a == [] {
      assert a + b == b;
    } else {
      assert (a + b)[0] == a[0] && (a + b)[1..] == a[1..] + b;
      LangsConcat(a[1..], b, inherited);
    }
  }

  function RenameSpoken(s: seq<Spoken>, ren: Id -> Id): (r: seq<Spoken>)
    ensures |r| == |s|
    ensures forall k :: 0 <= k < |s| ==> r[k] == Spoken(ren(s[k].elem), s[k].lang)
  {
    seq(|s|, k requires 0 <= k < |s| => Spoken(ren(s[k].elem), s[k].lang))
  }

  lemma {:induction false} CopyKeepsLangs(kids: seq<Kid>, ren: Id -> Id, copied: set<Id>, inherited: Option<string>)
    ensures Langs(CopyKids(kids, ren, copied), inherited) == RenameSpoken(Langs(kids, inherited), ren)
    decreases kids, 0
  {
    if kids != [] {
      CopyKeepsLangs(kids[1..], ren, copied, inherited);
      CopyKeepsLangsOf(kids[0], ren, copied, inherited);
    }
  }

  lemma {:induction false} CopyKeepsLangsOf(kid: Kid, ren: Id -> Id, copied: set<Id>, inherited: Option<string>)
    ensures LangsOf(CopyKid(kid, ren, copied), inherited) == RenameSpoken(LangsOf(kid, inherited), ren)
    decreases kid, 2
  {
    if kid.Child? {
      CopyKeepsLangs(kid.elem.kids, ren, copied, if kid.elem.lang.Some? then kid.elem.lang else inherited);
    }
  }

  /** An element that survives pruning is in the language it was in. */
  lemma {:induction false} PruneKeepsLangs(kids: seq<Kid>, on: bool, pages: set<Id>, inherited: Option<string>)
    ensures forall s :: s in Langs(PruneKids(kids, on, pages), inherited) ==> s in Langs(kids, inherited)
    decreases kids, 0
  {
    if kids != [] {
      LangsConcat(PruneKid(kids[0], on, pages), PruneKids(kids[1..], on, pages), inherited);
      PruneKeepsLangs(kids[1..], on, pages, inherited);
      PruneKeepsLangsOf(kids[0], on, pages, inherited);
    }
  }

  lemma {:induction false} PruneKeepsLangsOf(kid: Kid, on: bool, pages: set<Id>, inherited: Option<string>)
    ensures forall s :: s in Langs(PruneKid(kid, on, pages), inherited) ==> s in LangsOf(kid, inherited)
    decreases kid, 2
  {
    var kept := PruneKid(kid, on, pages);
    if kept != [] {
      assert kept[1..] == [];
      assert Langs(kept, inherited) == LangsOf(kept[0], inherited);
      if kid.Child? {
        var e := kid.elem;
        PruneKeepsLangs(e.kids, OnKeptPage(e.pg, pages), pages, if e.lang.Some? then e.lang else inherited);
      }
    }
  }

  /** The elements among the kids state the given language, where they state none. */
  function MarkKids(kids: seq<Kid>, lang: Option<string>): (r: seq<Kid>)
    ensures |r| == |kids|
  {
    if kids == [] then []
    else [if kids[0].Child? && lang.Some? && kids[0].elem.lang.None? then Child(kids[0].elem.(lang := lang))
          else kids[0]]
         + MarkKids(kids[1..], lang)
  }

  /**
    Marked, they are in the language they were in under a catalog of that language, whatever they are now put under.
   */
  lemma {:induction false} MarkKeepsLangs(kids: seq<Kid>, lang: Option<string>, inherited: Option<string>)
    ensures Langs(MarkKids(kids, lang), inherited) == Langs(kids, if lang.Some? then lang else inherited)
  {
    if kids != [] {
      MarkKeepsLangs(kids[1..], lang, inherited);
    }
  }

  /** Marking changes neither the items of a kid, nor which elements there are. */
  lemma MarkKeepsKid(kid: Kid, m: Kid, owner: Id, pg: Option<Id>)
    requires m == kid || (kid.Child? && m.Child? && m.elem == kid.elem.(lang := m.elem.lang))
    ensures ItemsOf(m, owner, pg) == ItemsOf(kid, owner, pg) && m.Child? == kid.Child?
    ensures ElementIds(ElementsOf(m)) == ElementIds(ElementsOf(kid)) && ReferencePaged(m) == ReferencePaged(kid)
  {
  }

  lemma {:induction false} MarkKeepsItems(kids: seq<Kid>, lang: Option<string>, owner: Id, pg: Option<Id>)
    ensures KidItems(MarkKids(kids, lang), owner, pg) == KidItems(kids, owner, pg)
    ensures KidsReferencesPaged(MarkKids(kids, lang)) == KidsReferencesPaged(kids)
  {
    if kids != [] {
      var m := MarkKids(kids, lang);
      MarkKeepsItems(kids[1..], lang, owner, pg);
      MarkKeepsKid(kids[0], m[0], owner, pg);
      assert m[1..] == MarkKids(kids[1..], lang);
    }
  }

  lemma {:induction false} MarkKeepsElements(kids: seq<Kid>, lang: Option<string>)
    ensures ElementIds(KidElements(MarkKids(kids, lang))) == ElementIds(KidElements(kids))
    ensures forall k :: 0 <= k < |kids| ==> MarkKids(kids, lang)[k].Child? == kids[k].Child?
  {
    if kids != [] {
      var m := MarkKids(kids, lang);
      MarkKeepsElements(kids[1..], lang);
      MarkKeepsKid(kids[0], m[0], 0, None);
      assert m[1..] == MarkKids(kids[1..], lang);
      IdsConcat(ElementsOf(m[0]), KidElements(m[1..]));
      IdsConcat(ElementsOf(kids[0]), KidElements(kids[1..]));
      assert forall k :: 1 <= k < |kids| ==> kids[k] == kids[1..][k - 1] && m[k] == m[1..][k - 1];
    }
  }
}
