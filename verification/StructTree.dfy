/**
  The structure tree of a tagged PDF (ISO 32000-1:2008, section 14.7.2), and what
  pruning it to a set of pages leaves of it.
 */
module StructTree {
  import opened Wrappers

  /** What a content item is: a marked-content sequence of a page, or a whole object, as an annotation. */
  datatype Content = Mark(mcid: int) | Object(obj: Id)

  /** A kid of an element: an element (a dictionary with /S), a bare MCID, or a reference dictionary (without /S). */
  datatype Kid = Child(elem: Element) | Mcid(mcid: int) | Reference(pg: Option<Id>, content: Content)

  datatype Element = Element(id: Id, tag: string, pg: Option<Id>, lang: Option<string>, kids: seq<Kid>)

  predicate OnKeptPage(pg: Option<Id>, pages: set<Id>) {
    pg.None? || pg.value in pages
  }

  // ----- Pruning ------------------------------------------------------------------------------

  function Prune(e: Element, pages: set<Id>): Element
    decreases e, 1
  {
    e.(kids := PruneKids(e.kids, OnKeptPage(e.pg, pages), pages))
  }

  /** Whether an element is kept by the element above it. */
  predicate Keeps(e: Element, pages: set<Id>)
    decreases e, 1
  {
    if e.kids == [] then OnKeptPage(e.pg, pages)
    else PruneKids(e.kids, OnKeptPage(e.pg, pages), pages) != []
  }

  function PruneKids(kids: seq<Kid>, on: bool, pages: set<Id>): seq<Kid>
    decreases kids, 0
  {
    if kids == [] then [] else PruneKid(kids[0], on, pages) + PruneKids(kids[1..], on, pages)
  }

  function PruneKid(kid: Kid, on: bool, pages: set<Id>): seq<Kid>
    decreases kid, 2
  {
    match kid
    case Child(e) => if Keeps(e, pages) then [Child(Prune(e, pages))] else []
    case Mcid(_) => if on then [kid] else []
    case Reference(pg, _) => if OnKeptPage(pg, pages) then [kid] else []
  }

  lemma {:induction false} PruneKidsConcat(a: seq<Kid>, b: seq<Kid>, on: bool, pages: set<Id>)
    ensures PruneKids(a + b, on, pages) == PruneKids(a, on, pages) + PruneKids(b, on, pages)
  {
    if a == [] {
      assert a + b == b;
    } else {
      assert (a + b)[0] == a[0] && (a + b)[1..] == a[1..] + b;
      PruneKidsConcat(a[1..], b, on, pages);
    }
  }

  // ----- Content items ------------------------------------------------------------------------

  /**
    A content item as the structure names it: the element that holds it, the page it is on, and what it is.
    A reference without a page of its own is on the page of its element (ISO 32000-1:2008, section 14.7.4.2).
   */
  datatype Item = Item(owner: Id, page: Option<Id>, content: Content)

  /** The content items of an element and of everything under it, in order. */
  function Items(e: Element): seq<Item>
    decreases e, 1
  {
    KidItems(e.kids, e.id, e.pg)
  }

  function KidItems(kids: seq<Kid>, owner: Id, pg: Option<Id>): seq<Item>
    decreases kids, 0
  {
    if kids == [] then [] else ItemsOf(kids[0], owner, pg) + KidItems(kids[1..], owner, pg)
  }

  function ItemsOf(kid: Kid, owner: Id, pg: Option<Id>): seq<Item>
    decreases kid, 2
  {
    match kid
    case Child(e) => Items(e)
    case Mcid(n) => [Item(owner, pg, Mark(n))]
    case Reference(own, content) => [Item(owner, if own.Some? then own else pg, content)]
  }

  lemma {:induction false} KidItemsConcat(a: seq<Kid>, b: seq<Kid>, owner: Id, pg: Option<Id>)
    ensures KidItems(a + b, owner, pg) == KidItems(a, owner, pg) + KidItems(b, owner, pg)
  {
    if a == [] {
      assert a + b == b;
    } else {
      assert (a + b)[0] == a[0] && (a + b)[1..] == a[1..] + b;
      KidItemsConcat(a[1..], b, owner, pg);
    }
  }

  function KeptItems(items: seq<Item>, pages: set<Id>): seq<Item> {
    if items == [] then []
    else (if OnKeptPage(items[0].page, pages) then [items[0]] else []) + KeptItems(items[1..], pages)
  }

  lemma {:induction false} KeptItemsConcat(a: seq<Item>, b: seq<Item>, pages: set<Id>)
    ensures KeptItems(a + b, pages) == KeptItems(a, pages) + KeptItems(b, pages)
  {
    if a == [] {
      assert a + b == b;
    } else {
      var head := if OnKeptPage(a[0].page, pages) then [a[0]] else [];
      assert (a + b)[0] == a[0] && (a + b)[1..] == a[1..] + b;
      KeptItemsConcat(a[1..], b, pages);
      assert KeptItems(a + b, pages) == head + KeptItems(a[1..] + b, pages);
      assert KeptItems(a, pages) == head + KeptItems(a[1..], pages);
    }
  }

  lemma {:induction false} KeptItemsMembers(items: seq<Item>, pages: set<Id>)
    ensures forall i :: i in KeptItems(items, pages) <==> i in items && OnKeptPage(i.page, pages)
  {
    if items != [] {
      KeptItemsMembers(items[1..], pages);
      assert items == [items[0]] + items[1..];
    }
  }

  /**
    How many references without a page of their own stand under an element whose page is left out. The code keeps
    them, although what they point at is not on a kept page.
   */
  function Strays(e: Element, pages: set<Id>): nat
    decreases e, 1
  {
    KidStrays(e.kids, OnKeptPage(e.pg, pages), pages)
  }

  function KidStrays(kids: seq<Kid>, on: bool, pages: set<Id>): nat
    decreases kids, 0
  {
    if kids == [] then 0 else StraysOf(kids[0], on, pages) + KidStrays(kids[1..], on, pages)
  }

  function StraysOf(kid: Kid, on: bool, pages: set<Id>): nat
    decreases kid, 2
  {
    match kid
    case Child(e) => Strays(e, pages)
    case Mcid(_) => 0
    case Reference(pg, _) => if pg.None? && !on then 1 else 0
  }

  /** Pruning leaves as many content items as are on kept pages, and each stray reference on top. */
  lemma {:induction false} PruneCountsItems(e: Element, pages: set<Id>)
    ensures |Items(Prune(e, pages))| == |KeptItems(Items(e), pages)| + Strays(e, pages)
    decreases e, 1
  {
    PruneCountsKidItems(e.kids, e.id, e.pg, pages);
  }

  lemma {:induction false} PruneCountsKidItems(kids: seq<Kid>, owner: Id, pg: Option<Id>, pages: set<Id>)
    ensures var on := OnKeptPage(pg, pages);
            |KidItems(PruneKids(kids, on, pages), owner, pg)|
            == |KeptItems(KidItems(kids, owner, pg), pages)| + KidStrays(kids, on, pages)
    decreases kids, 0
  {
    if kids != [] {
      var on := OnKeptPage(pg, pages);
      KidItemsConcat(PruneKid(kids[0], on, pages), PruneKids(kids[1..], on, pages), owner, pg);
      KeptItemsConcat(ItemsOf(kids[0], owner, pg), KidItems(kids[1..], owner, pg), pages);
      PruneCountsItemsOf(kids[0], owner, pg, pages);
      PruneCountsKidItems(kids[1..], owner, pg, pages);
    }
  }

  lemma {:induction false} PruneCountsItemsOf(kid: Kid, owner: Id, pg: Option<Id>, pages: set<Id>)
    ensures var on := OnKeptPage(pg, pages);
            |KidItems(PruneKid(kid, on, pages), owner, pg)|
            == |KeptItems(ItemsOf(kid, owner, pg), pages)| + StraysOf(kid, on, pages)
    decreases kid, 2
  {
    match kid {
      case Child(e) =>
        PruneCountsItems(e, pages);
        SingleKid(Child(Prune(e, pages)), owner, pg);
        if !Keeps(e, pages) {
          assert Prune(e, pages).kids == [];
        }
      case _ =>
        SingleKid(kid, owner, pg);
    }
  }

  lemma SingleKid(kid: Kid, owner: Id, pg: Option<Id>)
    ensures KidItems([kid], owner, pg) == ItemsOf(kid, owner, pg)
    ensures KidElements([kid]) == ElementsOf(kid)
  {
    assert [kid][1..] == [];
  }

  /** Where no reference is stray, what is left is exactly the items on kept pages, in their order. */
  lemma {:induction false} PruneFiltersItems(e: Element, pages: set<Id>)
    requires Strays(e, pages) == 0
    ensures Items(Prune(e, pages)) == KeptItems(Items(e), pages)
    decreases e, 1
  {
    PruneFiltersKidItems(e.kids, e.id, e.pg, pages);
  }

  lemma {:induction false} PruneFiltersKidItems(kids: seq<Kid>, owner: Id, pg: Option<Id>, pages: set<Id>)
    requires KidStrays(kids, OnKeptPage(pg, pages), pages) == 0
    ensures KidItems(PruneKids(kids, OnKeptPage(pg, pages), pages), owner, pg)
         == KeptItems(KidItems(kids, owner, pg), pages)
    decreases kids, 0
  {
    if kids != [] {
      var on := OnKeptPage(pg, pages);
      KidItemsConcat(PruneKid(kids[0], on, pages), PruneKids(kids[1..], on, pages), owner, pg);
      KeptItemsConcat(ItemsOf(kids[0], owner, pg), KidItems(kids[1..], owner, pg), pages);
      PruneFiltersItemsOf(kids[0], owner, pg, pages);
      PruneFiltersKidItems(kids[1..], owner, pg, pages);
    }
  }

  lemma {:induction false} PruneFiltersItemsOf(kid: Kid, owner: Id, pg: Option<Id>, pages: set<Id>)
    requires StraysOf(kid, OnKeptPage(pg, pages), pages) == 0
    ensures KidItems(PruneKid(kid, OnKeptPage(pg, pages), pages), owner, pg)
         == KeptItems(ItemsOf(kid, owner, pg), pages)
    decreases kid, 2
  {
    match kid {
      case Child(e) =>
        PruneFiltersItems(e, pages);
        SingleKid(Child(Prune(e, pages)), owner, pg);
        if !Keeps(e, pages) {
          assert Prune(e, pages).kids == [];
        }
      case _ =>
        SingleKid(kid, owner, pg);
    }
  }

  /**
    The items left are the filter of the original ones to kept pages exactly when no reference is stray: the guard
    "/Pg" in kid of the code lets a reference without a page through whatever page its element is on.
   */
  lemma PruneFiltersItemsIff(e: Element, pages: set<Id>)
    ensures Items(Prune(e, pages)) == KeptItems(Items(e), pages) <==> Strays(e, pages) == 0
  {
    PruneCountsItems(e, pages);
    if Strays(e, pages) == 0 {
      PruneFiltersItems(e, pages);
    }
  }

  /** A stray reference: an element on page 1 holding a reference without a page, pruned to page 2, still holds it. */
  lemma StrayReferenceIsKept()
    ensures var e := Element(0, "Link", Some(1), None, [Reference(None, Object(7))]);
            Items(Prune(e, {2})) != KeptItems(Items(e), {2})
  {
    var e := Element(0, "Link", Some(1), None, [Reference(None, Object(7))]);
    assert Strays(e, {2}) == 1 by {
      assert e.kids[1..] == [];
      assert KidStrays(e.kids, false, {2}) == StraysOf(e.kids[0], false, {2}) + KidStrays(e.kids[1..], false, {2});
    }
    PruneFiltersItemsIff(e, {2});
  }

  // ----- Which elements survive ---------------------------------------------------------------

  /** The elements under an element, in preorder. */
  function Descendants(e: Element): seq<Element>
    decreases e, 1
  {
    KidElements(e.kids)
  }

  function KidElements(kids: seq<Kid>): seq<Element>
    decreases kids, 0
  {
    if kids == [] then [] else ElementsOf(kids[0]) + KidElements(kids[1..])
  }

  function ElementsOf(kid: Kid): seq<Element>
    decreases kid, 2
  {
    if kid.Child? then [kid.elem] + Descendants(kid.elem) else []
  }

  lemma {:induction false} KidElementsConcat(a: seq<Kid>, b: seq<Kid>)
    ensures KidElements(a + b) == KidElements(a) + KidElements(b)
  {
    if a == [] {
      assert a + b == b;
    } else {
      assert (a + b)[0] == a[0] && (a + b)[1..] == a[1..] + b;
      KidElementsConcat(a[1..], b);
    }
  }

  function PrunedSurvivors(elems: seq<Element>, pages: set<Id>): seq<Element> {
    if elems == [] then []
    else (if Keeps(elems[0], pages) then [Prune(elems[0], pages)] else []) + PrunedSurvivors(elems[1..], pages)
  }

  lemma {:induction false} PrunedSurvivorsConcat(a: seq<Element>, b: seq<Element>, pages: set<Id>)
    ensures PrunedSurvivors(a + b, pages) == PrunedSurvivors(a, pages) + PrunedSurvivors(b, pages)
  {
    if a == [] {
      assert a + b == b;
    } else {
      assert (a + b)[0] == a[0] && (a + b)[1..] == a[1..] + b;
      PrunedSurvivorsConcat(a[1..], b, pages);
      assert PrunedSurvivors(a + b, pages)
        == (if Keeps(a[0], pages) then [Prune(a[0], pages)] else []) + PrunedSurvivors(a[1..] + b, pages);
    }
  }

  /**
    The elements left under a pruned element are those that keep something of their own, each pruned, in their order:
    an element that is kept never loses the elements above it.
   */
  lemma {:induction false} PruneKeepsSurvivors(e: Element, pages: set<Id>)
    ensures Descendants(Prune(e, pages)) == PrunedSurvivors(Descendants(e), pages)
    decreases e, 1
  {
    PruneKeepsKidSurvivors(e.kids, OnKeptPage(e.pg, pages), pages);
  }

  lemma {:induction false} PruneKeepsKidSurvivors(kids: seq<Kid>, on: bool, pages: set<Id>)
    ensures KidElements(PruneKids(kids, on, pages)) == PrunedSurvivors(KidElements(kids), pages)
    decreases kids, 0
  {
    if kids != [] {
      var first, rest := PruneKid(kids[0], on, pages), PruneKids(kids[1..], on, pages);
      KidElementsConcat(first, rest);
      PrunedSurvivorsConcat(ElementsOf(kids[0]), KidElements(kids[1..]), pages);
      PruneKeepsKidSurvivors(kids[1..], on, pages);
      if kids[0].Child? {
        var e := kids[0].elem;
        assert e < kids[0];
        PruneKeepsSurvivors(e, pages);
        assert ([e] + Descendants(e))[1..] == Descendants(e);
        if Keeps(e, pages) {
          assert first[1..] == [];
          assert KidElements(first) == [Prune(e, pages)] + Descendants(Prune(e, pages));
        } else {
          assert Prune(e, pages).kids == [];
        }
      }
    }
  }

  /** The pages of the childless elements of a subtree, the element itself included. */
  function LeafPages(e: Element): seq<Option<Id>>
    decreases e, 1
  {
    if e.kids == [] then [e.pg] else KidLeafPages(e.kids)
  }

  function KidLeafPages(kids: seq<Kid>): seq<Option<Id>>
    decreases kids, 0
  {
    if kids == [] then [] else LeafPagesOf(kids[0]) + KidLeafPages(kids[1..])
  }

  function LeafPagesOf(kid: Kid): seq<Option<Id>>
    decreases kid, 2
  {
    if kid.Child? then LeafPages(kid.elem) else []
  }

  /** Something on a kept page: a content item of the subtree, or a childless element of it. */
  ghost predicate Anchored(items: seq<Item>, leaves: seq<Option<Id>>, pages: set<Id>) {
    (exists i :: i in items && OnKeptPage(i.page, pages)) || (exists pg :: pg in leaves && OnKeptPage(pg, pages))
  }

  /**
    An element is kept exactly when its subtree holds a kept content item, a childless element on no left-out page, or a
    stray reference.
   */
  lemma {:induction false} KeepsIffAnchored(e: Element, pages: set<Id>)
    ensures Keeps(e, pages) <==> Anchored(Items(e), LeafPages(e), pages) || Strays(e, pages) > 0
    decreases e, 1
  {
    if e.kids == [] {
      assert e.pg in LeafPages(e);
    } else {
      KeepsAnyIffAnchored(e.kids, e.id, e.pg, pages);
    }
  }

  lemma {:induction false} KeepsAnyIffAnchored(kids: seq<Kid>, owner: Id, pg: Option<Id>, pages: set<Id>)
    ensures var on := OnKeptPage(pg, pages);
      PruneKids(kids, on, pages) != []
      <==> Anchored(KidItems(kids, owner, pg), KidLeafPages(kids), pages) || KidStrays(kids, on, pages) > 0
    decreases kids, 0
  {
    if kids != [] {
      KeepsAnyIffAnchored(kids[1..], owner, pg, pages);
      KeepsKidIffAnchored(kids[0], owner, pg, pages);
      AnchoredEither(ItemsOf(kids[0], owner, pg), KidItems(kids[1..], owner, pg), LeafPagesOf(kids[0]),
                     KidLeafPages(kids[1..]), pages);
    }
  }

  lemma {:induction false} KeepsKidIffAnchored(kid: Kid, owner: Id, pg: Option<Id>, pages: set<Id>)
    ensures var on := OnKeptPage(pg, pages);
      PruneKid(kid, on, pages) != []
      <==> Anchored(ItemsOf(kid, owner, pg), LeafPagesOf(kid), pages) || StraysOf(kid, on, pages) > 0
    decreases kid, 2
  {
    match kid {
      case Child(e) => KeepsIffAnchored(e, pages);
      case Mcid(n) => assert ItemsOf(kid, owner, pg)[0] in ItemsOf(kid, owner, pg);
      case Reference(own, content) => assert ItemsOf(kid, owner, pg)[0] in ItemsOf(kid, owner, pg);
    }
  }

  lemma AnchoredEither(a: seq<Item>, b: seq<Item>, x: seq<Option<Id>>, y: seq<Option<Id>>, pages: set<Id>)
    ensures Anchored(a + b, x + y, pages) <==> Anchored(a, x, pages) || Anchored(b, y, pages)
  {
    assert forall i :: i in a + b <==> i in a || i in b;
    assert forall l :: l in x + y <==> l in x || l in y;
  }

  // ----- Pruning twice, and pruning nothing ---------------------------------------------------

  /** Pruning to one set of pages and then to another is pruning to the pages they share. */
  lemma {:induction false} PruneTwice(e: Element, p: set<Id>, q: set<Id>)
    ensures Prune(Prune(e, p), q) == Prune(e, p * q)
    decreases e, 1
  {
    PruneKidsTwice(e.kids, OnKeptPage(e.pg, p), OnKeptPage(e.pg, q), p, q);
  }

  lemma {:induction false} PruneKidsTwice(kids: seq<Kid>, onP: bool, onQ: bool, p: set<Id>, q: set<Id>)
    ensures PruneKids(PruneKids(kids, onP, p), onQ, q) == PruneKids(kids, onP && onQ, p * q)
    decreases kids, 0
  {
    if kids != [] {
      PruneKidsConcat(PruneKid(kids[0], onP, p), PruneKids(kids[1..], onP, p), onQ, q);
      PruneKidTwice(kids[0], onP, onQ, p, q);
      PruneKidsTwice(kids[1..], onP, onQ, p, q);
    }
  }

  lemma {:induction false} PruneKidTwice(kid: Kid, onP: bool, onQ: bool, p: set<Id>, q: set<Id>)
    ensures PruneKids(PruneKid(kid, onP, p), onQ, q) == PruneKid(kid, onP && onQ, p * q)
    decreases kid, 2
  {
    var once := PruneKid(kid, onP, p);
    assert once != [] ==> once[1..] == [];
    if kid.Child? {
      var e := kid.elem;
      PruneTwice(e, p, q);
      assert Keeps(e, p * q) <==> Keeps(e, p) && Keeps(Prune(e, p), q) by {
        PruneKidsTwice(e.kids, OnKeptPage(e.pg, p), OnKeptPage(e.pg, q), p, q);
      }
    }
  }

  lemma PruneIdempotent(e: Element, pages: set<Id>)
    ensures Prune(Prune(e, pages), pages) == Prune(e, pages)
  {
    PruneTwice(e, pages, pages);
    assert pages * pages == pages;
  }

  /** A subtree wholly on kept pages: its marked content, its references and its childless elements. */
  predicate WhollyOn(e: Element, pages: set<Id>)
    decreases e, 1
  {
    (e.kids == [] ==> OnKeptPage(e.pg, pages)) && KidsWhollyOn(e.kids, OnKeptPage(e.pg, pages), pages)
  }

  predicate KidsWhollyOn(kids: seq<Kid>, on: bool, pages: set<Id>)
    decreases kids, 0
  {
    kids == [] || (KidWhollyOn(kids[0], on, pages) && KidsWhollyOn(kids[1..], on, pages))
  }

  predicate KidWhollyOn(kid: Kid, on: bool, pages: set<Id>)
    decreases kid, 2
  {
    match kid
    case Child(e) => WhollyOn(e, pages)
    case Mcid(_) => on
    case Reference(pg, _) => OnKeptPage(pg, pages)
  }

  /** A subtree wholly on kept pages is kept as it is, and no other is: a regular table stays regular. */
  lemma {:induction false} PruneIsIdentityIff(e: Element, pages: set<Id>)
    ensures (Keeps(e, pages) && Prune(e, pages) == e) <==> WhollyOn(e, pages)
    decreases e, 1
  {
    PruneKidsIsIdentityIff(e.kids, OnKeptPage(e.pg, pages), pages);
  }

  lemma {:induction false} PruneKidsIsIdentityIff(kids: seq<Kid>, on: bool, pages: set<Id>)
    ensures |PruneKids(kids, on, pages)| <= |kids|
    ensures PruneKids(kids, on, pages) == kids <==> KidsWhollyOn(kids, on, pages)
    decreases kids, 0
  {
    if kids != [] {
      var first, rest := PruneKid(kids[0], on, pages), PruneKids(kids[1..], on, pages);
      PruneKidsIsIdentityIff(kids[1..], on, pages);
      if kids[0].Child? {
        assert kids[0].elem < kids[0];
        PruneIsIdentityIff(kids[0].elem, pages);
      }
      assert kids == [kids[0]] + kids[1..];
      assert first == [kids[0]] <==> KidWhollyOn(kids[0], on, pages);
      if first + rest == kids {
        assert |first| == 1;
        assert first[0] == (first + rest)[0] && rest == (first + rest)[1..];
      }
    }
  }

  /** An element left in the pruned tree whose own page is left out holds no bare MCID. */
  lemma {:induction false} LeftOutPageHoldsNoBareMark(e: Element, pages: set<Id>, x: Element)
    requires x == Prune(e, pages) || x in Descendants(Prune(e, pages))
    requires !OnKeptPage(x.pg, pages)
    ensures forall kid :: kid in x.kids ==> !kid.Mcid?
  {
    PruneKeepsSurvivors(e, pages);
    if x == Prune(e, pages) {
      OffPageKidsHoldNoMark(e.kids, pages);
    } else {
      var y := SurvivorOrigin(Descendants(e), pages, x);
      OffPageKidsHoldNoMark(y.kids, pages);
    }
  }

  lemma {:induction false} OffPageKidsHoldNoMark(kids: seq<Kid>, pages: set<Id>)
    ensures forall kid :: kid in PruneKids(kids, false, pages) ==> !kid.Mcid?
  {
    if kids != [] {
      OffPageKidsHoldNoMark(kids[1..], pages);
    }
  }

  lemma {:induction false} SurvivorOrigin(elems: seq<Element>, pages: set<Id>, x: Element) returns (y: Element)
    requires x in PrunedSurvivors(elems, pages)
    ensures y in elems && Keeps(y, pages) && x == Prune(y, pages)
  {
    if x in PrunedSurvivors(elems[1..], pages) {
      y := SurvivorOrigin(elems[1..], pages, x);
    } else {
      y := elems[0];
    }
  }
}
