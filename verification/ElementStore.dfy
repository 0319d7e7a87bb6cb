/**
  The objects of a structure: each element is an indirect object that names its parent (/P) and its kids (/K), and a
  tree of elements is what the objects under one of them amount to.
 */
module ElementStore {
  import opened Wrappers
  import opened StructTree
  import opened StructCopy

  /** A kid as it stands in /K: the element it refers to, a bare MCID, or a reference dictionary. */
  datatype KidRef = ToElement(id: Id) | Number(mcid: int) | Dictionary(pg: Option<Id>, content: Content)

  /** The value of /K, which may be absent, one object, or an array. */
  datatype KidsValue = Absent | One(kid: KidRef) | Many(kids: seq<KidRef>)

  datatype ElementObject = ElementObject(tag: string, parent: Option<Id>, pg: Option<Id>, lang: Option<string>,
                                         k: KidsValue)

  type Store = map<Id, ElementObject>

  /** _list: an array as a list, a single object as a list of one, nothing as an empty list. */
  function ListOf(k: KidsValue): seq<KidRef> {
    match k
    case Absent => []
    case One(kid) => [kid]
    case Many(kids) => kids
  }

  function Ref(kid: Kid): KidRef {
    match kid
    case Child(e) => ToElement(e.id)
    case Mcid(n) => Number(n)
    case Reference(pg, content) => Dictionary(pg, content)
  }

  function Refs(kids: seq<Kid>): (r: seq<KidRef>)
    ensures |r| == |kids| && forall i :: 0 <= i < |kids| ==> r[i] == Ref(kids[i])
  {
    seq(|kids|, i requires 0 <= i < |kids| => Ref(kids[i]))
  }

  // ----- What the objects amount to -----------------------------------------------------------

  /** The objects under an element are the tree, and every element of it names its parent. */
  ghost predicate Represents(s: Store, e: Element, parent: Option<Id>)
    decreases e, 1
  {
    e.id in s && s[e.id] == ElementObject(e.tag, parent, e.pg, e.lang, s[e.id].k)
    && ListOf(s[e.id].k) == Refs(e.kids) && RepresentsKids(s, e.kids, e.id)
  }

  ghost predicate RepresentsKids(s: Store, kids: seq<Kid>, owner: Id)
    decreases kids, 0
  {
    kids == [] || (RepresentsKid(s, kids[0], owner) && RepresentsKids(s, kids[1..], owner))
  }

  ghost predicate RepresentsKid(s: Store, kid: Kid, owner: Id)
    decreases kid, 2
  {
    match kid
    case Child(e) => Represents(s, e, Some(owner))
    case _ => true
  }

  lemma {:induction false} RepresentsKidsConcat(s: Store, a: seq<Kid>, b: seq<Kid>, owner: Id)
    ensures RepresentsKids(s, a + b, owner) <==> RepresentsKids(s, a, owner) && RepresentsKids(s, b, owner)
  {
    if a == [] {
      assert a + b == b;
    } else {
      assert (a + b)[0] == a[0] && (a + b)[1..] == a[1..] + b;
      RepresentsKidsConcat(s, a[1..], b, owner);
    }
  }

  /** The objects a tree is made of. */
  function IdsOf(e: Element): set<Id>
    decreases e, 1
  {
    {e.id} + KidsIds(e.kids)
  }

  function KidsIds(kids: seq<Kid>): set<Id>
    decreases kids, 0
  {
    if kids == [] then {} else KidIds(kids[0]) + KidsIds(kids[1..])
  }

  function KidIds(kid: Kid): set<Id>
    decreases kid, 2
  {
    match kid
    case Child(e) => IdsOf(e)
    case _ => {}
  }

  lemma {:induction false} KidsIdsConcat(a: seq<Kid>, b: seq<Kid>)
    ensures KidsIds(a + b) == KidsIds(a) + KidsIds(b)
  {
    if a == [] {
      assert a + b == b;
    } else {
      assert (a + b)[0] == a[0] && (a + b)[1..] == a[1..] + b;
      KidsIdsConcat(a[1..], b);
    }
  }

  /** No object stands in the tree twice. */
  ghost predicate Separate(e: Element)
    decreases e, 1
  {
    e.id !in KidsIds(e.kids) && KidsSeparate(e.kids)
  }

  ghost predicate KidsSeparate(kids: seq<Kid>)
    decreases kids, 0
  {
    kids == [] || (KidSeparate(kids[0]) && KidIds(kids[0]) !! KidsIds(kids[1..]) && KidsSeparate(kids[1..]))
  }

  ghost predicate KidSeparate(kid: Kid)
    decreases kid, 2
  {
    match kid
    case Child(e) => Separate(e)
    case _ => true
  }

  lemma {:induction false} KidsSeparateConcat(a: seq<Kid>, b: seq<Kid>)
    ensures KidsSeparate(a + b) <==> KidsSeparate(a) && KidsSeparate(b) && KidsIds(a) !! KidsIds(b)
  {
    if a == [] {
      assert a + b == b;
    } else {
      assert (a + b)[0] == a[0] && (a + b)[1..] == a[1..] + b;
      KidsSeparateConcat(a[1..], b);
      KidsIdsConcat(a[1..], b);
    }
  }

  /** A tree without an element that stands twice is one. */
  lemma {:induction false} DistinctIsSeparate(e: Element)
    requires NoDup([e.id] + ElementIds(Descendants(e)))
    ensures Separate(e) && forall x :: x in IdsOf(e) <==> x in [e.id] + ElementIds(Descendants(e))
    decreases e, 1
  {
    NoDupCons(e.id, ElementIds(Descendants(e)));
    DistinctKidsAreSeparate(e.kids);
  }

  lemma {:induction false} DistinctKidsAreSeparate(kids: seq<Kid>)
    requires NoDup(ElementIds(KidElements(kids)))
    ensures KidsSeparate(kids) && forall x :: x in KidsIds(kids) <==> x in ElementIds(KidElements(kids))
    decreases kids, 0
  {
    if kids != [] {
      var first, rest := ElementIds(ElementsOf(kids[0])), ElementIds(KidElements(kids[1..]));
      assert ElementIds(KidElements(kids)) == first + rest;
      NoDupParts(first, rest);
      DistinctKidsAreSeparate(kids[1..]);
      if kids[0].Child? {
        var e := kids[0].elem;
        assert e < kids[0];
        assert first == [e.id] + ElementIds(Descendants(e));
        DistinctIsSeparate(e);
        assert KidIds(kids[0]) == IdsOf(e);
      }
      assert forall x :: x in KidIds(kids[0]) <==> x in first;
      assert KidIds(kids[0]) !! KidsIds(kids[1..]);
    }
  }

  // ----- What does not change it --------------------------------------------------------------

  ghost predicate SameOn(s: Store, t: Store, ids: set<Id>) {
    forall x :: x in ids && x in s ==> x in t && t[x] == s[x]
  }

  /** No other object has changed, and none has come or gone. */
  ghost predicate SameOff(s: Store, t: Store, ids: set<Id>) {
    t.Keys == s.Keys && forall x :: x in s && x !in ids ==> t[x] == s[x]
  }

  lemma {:induction false} RepresentsStill(s: Store, t: Store, e: Element, parent: Option<Id>)
    requires Represents(s, e, parent) && SameOn(s, t, IdsOf(e))
    ensures Represents(t, e, parent)
    decreases e, 1
  {
    RepresentsKidsStill(s, t, e.kids, e.id);
  }

  lemma {:induction false} RepresentsKidsStill(s: Store, t: Store, kids: seq<Kid>, owner: Id)
    requires RepresentsKids(s, kids, owner) && SameOn(s, t, KidsIds(kids))
    ensures RepresentsKids(t, kids, owner)
    decreases kids, 0
  {
    if kids != [] {
      RepresentsKidsStill(s, t, kids[1..], owner);
      if kids[0].Child? {
        assert kids[0].elem < kids[0];
        assert IdsOf(kids[0].elem) == KidIds(kids[0]) <= KidsIds(kids);
        RepresentsStill(s, t, kids[0].elem, Some(owner));
      }
    }
  }

  // ----- Pruning ------------------------------------------------------------------------------

  lemma {:induction false} PruneTakesIds(e: Element, pages: set<Id>)
    ensures IdsOf(Prune(e, pages)) <= IdsOf(e)
    ensures Separate(e) ==> Separate(Prune(e, pages))
    decreases e, 1
  {
    PruneTakesKidsIds(e.kids, OnKeptPage(e.pg, pages), pages);
  }

  lemma SingleKidIds(kids: seq<Kid>)
    requires |kids| <= 1
    ensures kids != [] ==> KidsIds(kids) == KidIds(kids[0]) && KidsSeparate(kids) == KidSeparate(kids[0])
    ensures kids == [] ==> KidsIds(kids) == {} && KidsSeparate(kids)
  {
    if kids != [] {
      assert kids[1..] == [];
    }
  }

  lemma {:induction false} PruneTakesKidsIds(kids: seq<Kid>, on: bool, pages: set<Id>)
    ensures KidsIds(PruneKids(kids, on, pages)) <= KidsIds(kids)
    ensures KidsSeparate(kids) ==> KidsSeparate(PruneKids(kids, on, pages))
    decreases kids, 0
  {
    if kids != [] {
      var first, rest := PruneKid(kids[0], on, pages), PruneKids(kids[1..], on, pages);
      PruneTakesKidsIds(kids[1..], on, pages);
      if kids[0].Child? {
        assert kids[0].elem < kids[0];
        PruneTakesIds(kids[0].elem, pages);
        assert IdsOf(kids[0].elem) == KidIds(kids[0]);
      }
      SingleKidIds(first);
      assert KidsIds(first) <= KidIds(kids[0]);
      if KidsSeparate(kids) && first != [] {
        assert KidSeparate(kids[0]);
        assert kids[0].Child? ==> first == [Child(Prune(kids[0].elem, pages))];
        assert KidSeparate(first[0]);
      }
      KidsIdsConcat(first, rest);
      KidsSeparateConcat(first, rest);
    }
  }

  lemma OneKidApart(done: seq<Kid>, kid: Kid, rest: seq<Kid>)
    requires KidsSeparate(done + [kid] + rest)
    ensures KidsIds(done) !! KidIds(kid) && KidsIds(rest) !! KidIds(kid)
    ensures KidSeparate(kid)
  {
    KidsSeparateConcat(done + [kid], rest);
    KidsSeparateConcat(done, [kid]);
    KidsIdsConcat(done, [kid]);
    SingleKidIds([kid]);
  }

  lemma PruneKidsOneMore(done: seq<Kid>, kid: Kid, on: bool, pages: set<Id>)
    ensures PruneKids(done + [kid], on, pages) == PruneKids(done, on, pages) + PruneKid(kid, on, pages)
  {
    PruneKidsConcat(done, [kid], on, pages);
    assert [kid][1..] == [];
    assert PruneKids([kid], on, pages) == PruneKid(kid, on, pages) + [];
  }

  /** What there is to know of the next kid. */
  lemma NextKid(s: Store, kids: seq<Kid>, i: nat, owner: Id)
    requires i < |kids| && KidsSeparate(kids) && RepresentsKids(s, kids[i..], owner)
    ensures RepresentsKid(s, kids[i], owner) && RepresentsKids(s, kids[i + 1..], owner)
    ensures KidSeparate(kids[i]) && KidIds(kids[i]) <= KidsIds(kids)
    ensures KidsIds(kids[..i + 1]) == KidsIds(kids[..i]) + KidIds(kids[i])
  {
    assert kids[i..][0] == kids[i] && kids[i..][1..] == kids[i + 1..];
    assert kids == kids[..i] + [kids[i]] + kids[i + 1..];
    assert kids[..i + 1] == kids[..i] + [kids[i]];
    OneKidApart(kids[..i], kids[i], kids[i + 1..]);
    SingleKidIds([kids[i]]);
    KidsIdsConcat(kids[..i], [kids[i]]);
    KidsIdsConcat(kids[..i + 1], kids[i + 1..]);
  }

  lemma PruneNextKid(s: Store, t: Store, kids: seq<Kid>, i: nat, on: bool, pages: set<Id>, owner: Id, keep: bool)
    requires i < |kids| && KidsSeparate(kids)
    requires RepresentsKids(s, PruneKids(kids[..i], on, pages), owner) && RepresentsKids(s, kids[i + 1..], owner)
    requires kids[i].Child? ==> Represents(t, Prune(kids[i].elem, pages), Some(owner))
    requires SameOff(s, t, KidIds(kids[i])) && (keep <==> PruneKid(kids[i], on, pages) != [])
    ensures RepresentsKids(t, PruneKids(kids[..i + 1], on, pages), owner) && RepresentsKids(t, kids[i + 1..], owner)
    ensures Refs(PruneKids(kids[..i + 1], on, pages))
         == Refs(PruneKids(kids[..i], on, pages)) + if keep then [Ref(kids[i])] else []
  {
    assert kids == kids[..i] + [kids[i]] + kids[i + 1..];
    assert kids[..i + 1] == kids[..i] + [kids[i]];
    PrunedKid(t, kids[i], on, pages, owner, keep);
    PruneOneMore(s, t, kids[..i], kids[i], kids[i + 1..], on, pages, owner);
    PruneKidsOneMore(kids[..i], kids[i], on, pages);
  }

  lemma PrunedKid(t: Store, kid: Kid, on: bool, pages: set<Id>, owner: Id, keep: bool)
    requires kid.Child? ==> Represents(t, Prune(kid.elem, pages), Some(owner))
    requires keep <==> PruneKid(kid, on, pages) != []
    ensures RepresentsKids(t, PruneKid(kid, on, pages), owner)
    ensures Refs(PruneKid(kid, on, pages)) == if keep then [Ref(kid)] else []
  {
    var kept := PruneKid(kid, on, pages);
    if kept != [] {
      assert kept[1..] == [];
      assert RepresentsKid(t, kept[0], owner);
    }
  }

  /** Pruning one kid leaves the kids before it pruned, and those after it as they were. */
  lemma PruneOneMore(s: Store, t: Store, done: seq<Kid>, kid: Kid, rest: seq<Kid>, on: bool, pages: set<Id>, owner: Id)
    requires KidsSeparate(done + [kid] + rest)
    requires RepresentsKids(s, PruneKids(done, on, pages), owner) && RepresentsKids(s, rest, owner)
    requires RepresentsKids(t, PruneKid(kid, on, pages), owner)
    requires SameOff(s, t, KidIds(kid))
    ensures RepresentsKids(t, PruneKids(done + [kid], on, pages), owner) && RepresentsKids(t, rest, owner)
  {
    OneKidApart(done, kid, rest);
    PruneTakesKidsIds(done, on, pages);
    RepresentsKidsStill(s, t, PruneKids(done, on, pages), owner);
    RepresentsKidsStill(s, t, rest, owner);
    PruneKidsOneMore(done, kid, on, pages);
    RepresentsKidsConcat(t, PruneKids(done, on, pages), PruneKid(kid, on, pages), owner);
  }

  // ----- Copying ------------------------------------------------------------------------------

  function RenameId(x: Option<Id>, ren: Id -> Id): Option<Id> {
    if x.Some? then Some(ren(x.value)) else None
  }

  function CopyRef(kid: KidRef, ren: Id -> Id, copied: set<Id>): KidRef {
    match kid
    case ToElement(id) => ToElement(ren(id))
    case Number(_) => kid
    case Dictionary(pg, content) => Dictionary(CopyPageRef(pg, ren, copied), CopyContent(content, ren))
  }

  function CopyRefs(kids: seq<KidRef>, ren: Id -> Id, copied: set<Id>): (r: seq<KidRef>)
    ensures |r| == |kids| && forall i :: 0 <= i < |kids| ==> r[i] == CopyRef(kids[i], ren, copied)
  {
    seq(|kids|, i requires 0 <= i < |kids| => CopyRef(kids[i], ren, copied))
  }

  function CopyValue(k: KidsValue, ren: Id -> Id, copied: set<Id>): KidsValue {
    match k
    case Absent => Absent
    case One(kid) => One(CopyRef(kid, ren, copied))
    case Many(kids) => Many(CopyRefs(kids, ren, copied))
  }

  function CopyObject(o: ElementObject, ren: Id -> Id, copied: set<Id>): ElementObject {
    ElementObject(o.tag, RenameId(o.parent, ren), CopyPageRef(o.pg, ren, copied), o.lang, CopyValue(o.k, ren, copied))
  }

  function RenameSet(ids: set<Id>, ren: Id -> Id): set<Id> {
    set x | x in ids :: ren(x)
  }

  /** The copies of all objects; whatever is reached from one of them, through its parent or kids, is copied with it. */
  function CopyStore(s: Store, ren: Id -> Id, copied: set<Id>): (t: Store)
    requires Injective(ren)
    ensures forall x {:trigger s[x]} :: x in s ==> ren(x) in t && t[ren(x)] == CopyObject(s[x], ren, copied)
    ensures t.Keys == RenameSet(s.Keys, ren)
  {
    map x | x in s :: ren(x) := CopyObject(s[x], ren, copied)
  }

  /** The copies amount to the copy of the tree. */
  lemma {:induction false} CopyRepresents(s: Store, e: Element, parent: Option<Id>, ren: Id -> Id, copied: set<Id>)
    requires Represents(s, e, parent) && Injective(ren)
    ensures Represents(CopyStore(s, ren, copied), Copy(e, ren, copied), RenameId(parent, ren))
    decreases e, 1
  {
    CopyRepresentsKids(s, e.kids, e.id, ren, copied);
    CopyRefsOfKids(e.kids, ren, copied);
  }

  lemma {:induction false} CopyRepresentsKids(s: Store, kids: seq<Kid>, owner: Id, ren: Id -> Id, copied: set<Id>)
    requires RepresentsKids(s, kids, owner) && Injective(ren)
    ensures RepresentsKids(CopyStore(s, ren, copied), CopyKids(kids, ren, copied), ren(owner))
    decreases kids, 0
  {
    if kids != [] {
      CopyRepresentsKids(s, kids[1..], owner, ren, copied);
      assert CopyKids(kids, ren, copied)[1..] == CopyKids(kids[1..], ren, copied);
      if kids[0].Child? {
        assert kids[0].elem < kids[0];
        CopyRepresents(s, kids[0].elem, Some(owner), ren, copied);
      }
    }
  }

  lemma {:induction false} CopyRefsOfKids(kids: seq<Kid>, ren: Id -> Id, copied: set<Id>)
    ensures CopyRefs(Refs(kids), ren, copied) == Refs(CopyKids(kids, ren, copied))
  {
    if kids != [] {
      CopyRefsOfKids(kids[1..], ren, copied);
      assert CopyKids(kids, ren, copied) == [CopyKid(kids[0], ren, copied)] + CopyKids(kids[1..], ren, copied);
      assert Refs(kids) == [Ref(kids[0])] + Refs(kids[1..]);
    }
  }

  lemma {:induction false} CopyKeepsSeparate(e: Element, ren: Id -> Id, copied: set<Id>)
    requires Injective(ren)
    ensures forall y :: y in IdsOf(Copy(e, ren, copied)) <==> exists x :: x in IdsOf(e) && y == ren(x)
    ensures Separate(e) ==> Separate(Copy(e, ren, copied))
    decreases e, 1
  {
    CopyKidsKeepsSeparate(e.kids, ren, copied);
  }

  lemma {:induction false} CopyKidsKeepsSeparate(kids: seq<Kid>, ren: Id -> Id, copied: set<Id>)
    requires Injective(ren)
    ensures forall y :: y in KidsIds(CopyKids(kids, ren, copied)) <==> exists x :: x in KidsIds(kids) && y == ren(x)
    ensures KidsSeparate(kids) ==> KidsSeparate(CopyKids(kids, ren, copied))
    decreases kids, 0
  {
    if kids != [] {
      CopyKidsKeepsSeparate(kids[1..], ren, copied);
      var copies := CopyKids(kids, ren, copied);
      assert copies[1..] == CopyKids(kids[1..], ren, copied);
      CopyKidKeepsSeparate(kids[0], ren, copied);
      assert KidsIds(kids) == KidIds(kids[0]) + KidsIds(kids[1..]);
      assert KidsIds(copies) == KidIds(copies[0]) + KidsIds(copies[1..]);
    }
  }

  lemma {:induction false} CopyKidKeepsSeparate(kid: Kid, ren: Id -> Id, copied: set<Id>)
    requires Injective(ren)
    ensures forall y :: y in KidIds(CopyKid(kid, ren, copied)) <==> exists x :: x in KidIds(kid) && y == ren(x)
    ensures KidSeparate(kid) ==> KidSeparate(CopyKid(kid, ren, copied))
    decreases kid, 2
  {
    if kid.Child? {
      CopyKeepsSeparate(kid.elem, ren, copied);
    }
  }

  // ----- Moving the copies --------------------------------------------------------------------

  lemma {:induction false} MarkKidsConcat(a: seq<Kid>, b: seq<Kid>, lang: Option<string>)
    ensures MarkKids(a + b, lang) == MarkKids(a, lang) + MarkKids(b, lang)
  {
    if a == [] {
      assert a + b == b;
    } else {
      assert (a + b)[0] == a[0] && (a + b)[1..] == a[1..] + b;
      MarkKidsConcat(a[1..], b, lang);
    }
  }

  lemma {:induction false} MarkKeepsObjects(kids: seq<Kid>, lang: Option<string>)
    ensures KidsIds(MarkKids(kids, lang)) == KidsIds(kids) && Refs(MarkKids(kids, lang)) == Refs(kids)
    ensures KidsSeparate(MarkKids(kids, lang)) <==> KidsSeparate(kids)
  {
    if kids != [] {
      MarkKeepsObjects(kids[1..], lang);
      var marked := MarkKids(kids[1..], lang);
      var m := MarkedHead(kids, lang);
      ObjectsOfCons(m, marked);
      ObjectsOfCons(kids[0], kids[1..]);
      assert kids == [kids[0]] + kids[1..];
    }
  }

  lemma MarkedHead(kids: seq<Kid>, lang: Option<string>) returns (m: Kid)
    requires kids != []
    ensures MarkKids(kids, lang) == [m] + MarkKids(kids[1..], lang)
    ensures KidIds(m) == KidIds(kids[0]) && Ref(m) == Ref(kids[0]) && (KidSeparate(m) <==> KidSeparate(kids[0]))
  {
    m := MarkKids(kids, lang)[0];
    assert m == kids[0] || m == Child(kids[0].elem.(lang := lang));
  }

  lemma ObjectsOfCons(kid: Kid, rest: seq<Kid>)
    ensures KidsIds([kid] + rest) == KidIds(kid) + KidsIds(rest) && Refs([kid] + rest) == [Ref(kid)] + Refs(rest)
    ensures KidsSeparate([kid] + rest) <==> KidSeparate(kid) && KidsSeparate(rest) && KidIds(kid) !! KidsIds(rest)
  {
    assert ([kid] + rest)[0] == kid && ([kid] + rest)[1..] == rest;
  }

  /** What a kid that is moved to another parent becomes. */
  function Moved(o: ElementObject, parent: Id, lang: Option<string>): ElementObject {
    o.(parent := Some(parent), lang := if lang.Some? && o.lang.None? then lang else o.lang)
  }

  /** Moving one kid leaves the kids before it moved, and those after it as they were. */
  lemma MoveOneMore(s: Store, t: Store, done: seq<Kid>, kid: Kid, rest: seq<Kid>, lang: Option<string>, from: Id,
                    to: Id)
    requires KidsSeparate(done + [kid] + rest)
    requires RepresentsKids(s, MarkKids(done, lang), to) && RepresentsKids(s, [kid] + rest, from)
    requires t == if kid.Child? && kid.elem.id in s then s[kid.elem.id := Moved(s[kid.elem.id], to, lang)] else s
    ensures RepresentsKids(t, MarkKids(done + [kid], lang), to) && RepresentsKids(t, rest, from)
  {
    OneKidApart(done, kid, rest);
    MarkKeepsObjects(done, lang);
    assert ([kid] + rest)[1..] == rest;
    assert RepresentsKid(s, kid, from);
    assert kid.Child? ==> Represents(s, kid.elem, Some(from)) && kid.elem.id in KidIds(kid);
    RepresentsKidsStill(s, t, MarkKids(done, lang), to);
    RepresentsKidsStill(s, t, rest, from);
    MarkKidsConcat(done, [kid], lang);
    MovedRepresents(s, t, kid, lang, from, to);
    RepresentsKidsConcat(t, MarkKids(done, lang), MarkKids([kid], lang), to);
  }

  lemma MoveNextKid(s: Store, t: Store, kids: seq<Kid>, i: nat, lang: Option<string>, from: Id, to: Id)
    requires i < |kids| && KidsSeparate(kids)
    requires RepresentsKids(s, MarkKids(kids[..i], lang), to) && RepresentsKids(s, kids[i..], from)
    requires var at := if kids[i].Child? then Some(kids[i].elem.id) else None;
      t == if at.Some? && at.value in s then s[at.value := Moved(s[at.value], to, lang)] else s
    ensures RepresentsKids(t, MarkKids(kids[..i + 1], lang), to) && RepresentsKids(t, kids[i + 1..], from)
  {
    assert kids == kids[..i] + [kids[i]] + kids[i + 1..];
    assert kids[..i + 1] == kids[..i] + [kids[i]];
    assert kids[i..] == [kids[i]] + kids[i + 1..];
    MoveOneMore(s, t, kids[..i], kids[i], kids[i + 1..], lang, from, to);
  }

  lemma MovedRepresents(s: Store, t: Store, kid: Kid, lang: Option<string>, from: Id, to: Id)
    requires RepresentsKid(s, kid, from) && KidSeparate(kid)
    requires kid.Child? ==> kid.elem.id in s && t == s[kid.elem.id := Moved(s[kid.elem.id], to, lang)]
    ensures RepresentsKids(t, MarkKids([kid], lang), to)
  {
    var m := MarkKids([kid], lang);
    assert m[1..] == [];
    if kid.Child? {
      var e, f := kid.elem, m[0].elem;
      assert f == e.(lang := if lang.Some? && e.lang.None? then lang else e.lang);
      assert e.id !in KidsIds(e.kids) && RepresentsKids(s, e.kids, e.id);
      RepresentsKidsStill(s, t, e.kids, e.id);
      assert t[f.id] == ElementObject(f.tag, Some(to), f.pg, f.lang, t[f.id].k);
      assert Represents(t, f, Some(to));
    }
    assert RepresentsKid(t, m[0], to);
  }

  lemma {:induction false} RepresentedIsStored(s: Store, e: Element, parent: Option<Id>)
    requires Represents(s, e, parent)
    ensures IdsOf(e) <= s.Keys
    decreases e, 1
  {
    RepresentedKidsAreStored(s, e.kids, e.id);
  }

  lemma {:induction false} RepresentedKidsAreStored(s: Store, kids: seq<Kid>, owner: Id)
    requires RepresentsKids(s, kids, owner)
    ensures KidsIds(kids) <= s.Keys
    decreases kids, 0
  {
    if kids != [] {
      RepresentedKidsAreStored(s, kids[1..], owner);
      if kids[0].Child? {
        assert kids[0].elem < kids[0];
        RepresentedIsStored(s, kids[0].elem, Some(owner));
        assert KidIds(kids[0]) == IdsOf(kids[0].elem);
      }
    }
  }

  lemma JoinedKids(s: Store, a: seq<Kid>, b: seq<Kid>, owner: Id)
    requires RepresentsKids(s, a, owner) && RepresentsKids(s, b, owner)
    requires KidsSeparate(a) && KidsSeparate(b) && KidsIds(a) !! KidsIds(b)
    ensures RepresentsKids(s, a + b, owner) && KidsSeparate(a + b) && KidsIds(a + b) == KidsIds(a) + KidsIds(b)
    ensures Refs(a + b) == Refs(a) + Refs(b)
  {
    RepresentsKidsConcat(s, a, b, owner);
    KidsSeparateConcat(a, b);
    KidsIdsConcat(a, b);
  }

  /** An element with other kids. */
  lemma WithKidsRepresents(s: Store, e: Element, kids: seq<Kid>, parent: Option<Id>)
    requires e.id in s && s[e.id] == ElementObject(e.tag, parent, e.pg, e.lang, s[e.id].k)
    requires RepresentsKids(s, kids, e.id) && KidsSeparate(kids) && e.id !in KidsIds(kids)
    ensures var t := s[e.id := s[e.id].(k := Many(Refs(kids)))];
      Represents(t, e.(kids := kids), parent) && Separate(e.(kids := kids))
  {
    var t := s[e.id := s[e.id].(k := Many(Refs(kids)))];
    RepresentsKidsStill(s, t, kids, e.id);
  }

  /** The Document with the moved elements among its kids. */
  lemma SplicedRepresents(s: Store, document: Element, kids: seq<Kid>, atStart: bool, parent: Option<Id>)
    requires Represents(s, document, parent) && RepresentsKids(s, kids, document.id)
    requires Separate(document) && KidsSeparate(kids) && IdsOf(document) !! KidsIds(kids)
    ensures var all := if atStart then kids + document.kids else document.kids + kids;
      Refs(all) == (if atStart then Refs(kids) + ListOf(s[document.id].k) else ListOf(s[document.id].k) + Refs(kids))
      && Represents(s[document.id := s[document.id].(k := Many(Refs(all)))], document.(kids := all), parent)
      && Separate(document.(kids := all))
  {
    JoinedKids(s, document.kids, kids, document.id);
    JoinedKids(s, kids, document.kids, document.id);
    WithKidsRepresents(s, document, if atStart then kids + document.kids else document.kids + kids, parent);
  }

  /** Copied in, the objects of a source stand beside those that are there, which have not changed. */
  lemma BroughtIn(own: Store, source: Store, document: Element, other: Element, parent: Option<Id>, ren: Id -> Id,
                  copied: set<Id>)
    requires Represents(own, document, parent) && other.id in source
    requires Represents(source, other, source[other.id].parent)
    requires Separate(document) && Separate(other) && Injective(ren) && New(ren, own)
    ensures var s, copy := own + CopyStore(source, ren, copied), Copy(other, ren, copied);
      Represents(s, document, parent) && IdsOf(document) !! KidsIds(copy.kids)
      && copy.id in s && ListOf(s[copy.id].k) == Refs(copy.kids)
      && RepresentsKids(s, copy.kids, copy.id) && KidsSeparate(copy.kids)
  {
    var copies := CopyStore(source, ren, copied);
    RepresentedIsStored(own, document, parent);
    RepresentsStill(own, own + copies, document, parent);
    CopyRepresents(source, other, source[other.id].parent, ren, copied);
    RepresentsStill(copies, own + copies, Copy(other, ren, copied), RenameId(source[other.id].parent, ren));
    CopyKeepsSeparate(other, ren, copied);
  }

  /** And moved under the Document, they are among its kids. */
  lemma MovedUnder(brought: Store, s: Store, document: Element, moved: seq<Kid>, mark: Option<string>, atStart: bool,
                   parent: Option<Id>)
    requires Represents(brought, document, parent) && Separate(document)
    requires KidsSeparate(moved) && IdsOf(document) !! KidsIds(moved)
    requires SameOff(brought, s, KidsIds(moved)) && RepresentsKids(s, MarkKids(moved, mark), document.id)
    ensures var own, kids := document.kids, MarkKids(moved, mark);
      var all := if atStart then kids + own else own + kids;
      document.id in s && ListOf(s[document.id].k) == Refs(own)
      && Refs(all) == (if atStart then Refs(moved) + Refs(own) else Refs(own) + Refs(moved))
      && Represents(s[document.id := s[document.id].(k := Many(Refs(all)))], document.(kids := all), parent)
      && Separate(document.(kids := all))
  {
    MarkKeepsObjects(moved, mark);
    RepresentsStill(brought, s, document, parent);
    SplicedRepresents(s, document, MarkKids(moved, mark), atStart, parent);
  }

  /** Copying makes new objects: none of the renamed ones is there yet. */
  ghost predicate New(ren: Id -> Id, s: Store) {
    forall x :: ren(x) !in s
  }
}
