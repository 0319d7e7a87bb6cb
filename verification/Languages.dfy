/**
  The language of each element of a structure: its own, or that of the nearest element above it, or that of the catalog
  (ISO 32000-1:2008, section 14.9.2), and what a merge makes of it.
 */
module Languages {
  import opened Wrappers
  import opened StructTree
  import opened StructCopy
  import opened TaggedPdf
  import opened Merge

  /** What the elements under the Document inherit: its language, or that of the catalog. */
  function Inherited(d: Doc): Option<string> {
    if d.structure.Some? && d.structure.value.document.lang.Some? then d.structure.value.document.lang else d.lang
  }

  /** The languages of the elements under the Document. */
  function Languages(d: Doc): seq<Spoken>
    requires d.structure.Some?
  {
    Langs(d.structure.value.document.kids, Inherited(d))
  }

  // ----- What a language depends on -----------------------------------------------------------

  /** Each element among the kids states a language. */
  predicate AllState(kids: seq<Kid>) {
    forall i :: 0 <= i < |kids| && kids[i].Child? ==> kids[i].elem.lang.Some?
  }

  lemma {:induction false} LangsCount(kids: seq<Kid>, x: Option<string>, y: Option<string>)
    ensures |Langs(kids, x)| == |Langs(kids, y)|
    decreases kids, 0
  {
    if kids != [] {
      LangsCount(kids[1..], x, y);
      LangsCountOf(kids[0], x, y);
    }
  }

  lemma {:induction false} LangsCountOf(kid: Kid, x: Option<string>, y: Option<string>)
    ensures |LangsOf(kid, x)| == |LangsOf(kid, y)|
    decreases kid, 2
  {
    if kid.Child? {
      LangsCount(kid.elem.kids, if kid.elem.lang.Some? then kid.elem.lang else x,
                 if kid.elem.lang.Some? then kid.elem.lang else y);
    }
  }

  lemma SameParts<T>(a: seq<T>, b: seq<T>, x: seq<T>, y: seq<T>)
    requires |a| == |b|
    ensures a + x == b + y <==> a == b && x == y
  {
    if a + x == b + y {
      assert a == (a + x)[..|a|] == b;
      assert x == (a + x)[|a|..] == y;
    }
  }

  /** Elements are in the same languages under both exactly if these are the same, or no element inherits. */
  lemma {:induction false} LangsDependIff(kids: seq<Kid>, x: Option<string>, y: Option<string>)
    ensures Langs(kids, x) == Langs(kids, y) <==> x == y || AllState(kids)
  {
    if kids != [] {
      LangsDependIff(kids[1..], x, y);
      LangsCountOf(kids[0], x, y);
      SameParts(LangsOf(kids[0], x), LangsOf(kids[0], y), Langs(kids[1..], x), Langs(kids[1..], y));
      assert AllState(kids) <==> (kids[0].Child? ==> kids[0].elem.lang.Some?) && AllState(kids[1..]) by {
        assert forall i :: 1 <= i < |kids| ==> kids[i] == kids[1..][i - 1];
      }
      if kids[0].Child? && kids[0].elem.lang.None? && x != y {
        assert LangsOf(kids[0], x)[0] != LangsOf(kids[0], y)[0];
      }
    }
  }

  lemma {:induction false} CopyStates(kids: seq<Kid>, ren: Id -> Id, copied: set<Id>)
    ensures AllState(CopyKids(kids, ren, copied)) <==> AllState(kids)
  {
    if kids != [] {
      CopyStates(kids[1..], ren, copied);
      var copies := CopyKids(kids, ren, copied);
      assert copies[0] == CopyKid(kids[0], ren, copied) && copies[1..] == CopyKids(kids[1..], ren, copied);
      assert forall i :: 1 <= i < |kids| ==> kids[i] == kids[1..][i - 1] && copies[i] == copies[1..][i - 1];
    }
  }

  // ----- One addition -------------------------------------------------------------------------

  /** What elements of a source that inherit come under in a target: they are marked, or inherit from the target. */
  function ComeUnder(target: Doc, source: Doc): Option<string> {
    if MarkedLang(target.lang, source.lang).Some? then source.lang else Inherited(target)
  }

  /** The elements of a document, pruned to some pages, with the languages they are in there, as copies of them. */
  function BroughtLanguages(d: Doc, pages: set<Id>, ren: Id -> Id): seq<Spoken> {
    if d.structure.None? then []
    else RenameSpoken(Langs(Prune(d.structure.value.document, pages).kids, Inherited(d)), ren)
  }

  /**
    Nothing the source's elements inherit is lost: they come under what they had, or none of those that stay inherits.
   */
  predicate Fits(target: Doc, source: Doc, pages: set<Id>) {
    source.structure.Some? ==>
      Inherited(source) == ComeUnder(target, source) || AllState(Prune(source.structure.value.document, pages).kids)
  }

  /** The elements after an addition: those of the target, and the source's in the languages they come under. */
  lemma AddedLanguages(target: Doc, source: Doc, pages: seq<Page>, ren: Id -> Id, atStart: bool)
    requires Injective(ren) && target.structure.Some? && source.structure.Some?
    ensures var after := Add(target, source, pages, ren, atStart);
      after.structure.Some? && Inherited(after) == Inherited(target) && after.lang == target.lang
      && Languages(after)
         == Joined(Languages(target),
                   RenameSpoken(Langs(Prune(source.structure.value.document, PageIds(pages)).kids,
                                      ComeUnder(target, source)), ren),
                   atStart)
  {
    var document, mark := source.structure.value.document, MarkedLang(target.lang, source.lang);
    var pruned := Prune(document, PageIds(pages));
    var moved := Copy(pruned, ren, PageIds(pages)).kids;
    MarkKeepsLangs(moved, mark, Inherited(target));
    CopyKeepsLangs(pruned.kids, ren, PageIds(pages), ComeUnder(target, source));
    LangsConcat(target.structure.value.document.kids, MarkKids(moved, mark), Inherited(target));
    LangsConcat(MarkKids(moved, mark), target.structure.value.document.kids, Inherited(target));
  }

  lemma RenamedSameIff(a: seq<Spoken>, b: seq<Spoken>, ren: Id -> Id)
    requires Injective(ren)
    ensures RenameSpoken(a, ren) == RenameSpoken(b, ren) <==> a == b
  {
    if RenameSpoken(a, ren) == RenameSpoken(b, ren) {
      assert |a| == |RenameSpoken(a, ren)| == |b|;
      forall k | 0 <= k < |a| ensures a[k] == b[k] {
        assert RenameSpoken(a, ren)[k] == RenameSpoken(b, ren)[k];
      }
    }
  }

  /**
    The elements a source brings to a target are in the languages they were in, and the target's in theirs, if and
    only if nothing they inherit is lost: a source that states no language, or states it at its Document, may come
    under another.
   */
  lemma AddKeepsLanguagesIff(target: Doc, source: Doc, pages: seq<Page>, ren: Id -> Id, atStart: bool)
    requires Injective(ren) && target.structure.Some?
    ensures Add(target, source, pages, ren, atStart).structure.Some?
    ensures Languages(Add(target, source, pages, ren, atStart))
            == Joined(Languages(target), BroughtLanguages(source, PageIds(pages), ren), atStart)
       <==> Fits(target, source, PageIds(pages))
  {
    if source.structure.Some? {
      var kids, x, y := Prune(source.structure.value.document,
                              PageIds(pages)).kids, ComeUnder(target, source), Inherited(source);
      AddedLanguages(target, source, pages, ren, atStart);
      LangsDependIff(kids, x, y);
      RenamedSameIff(Langs(kids, x), Langs(kids, y), ren);
      JoinedSameIff(Languages(target), RenameSpoken(Langs(kids, x), ren), RenameSpoken(Langs(kids, y), ren), atStart);
    }
  }

  lemma JoinedSameIff(own: seq<Spoken>, x: seq<Spoken>, y: seq<Spoken>, atStart: bool)
    ensures Joined(own, x, atStart) == Joined(own, y, atStart) <==> x == y
  {
    if Joined(own, x, atStart) == Joined(own, y, atStart) {
      assert |x| == |y|;
      SameParts(own, own, x, y);
      SameParts(x, y, own, own);
    }
  }

  /** It does where both catalogs state a language and no Document does, and where nothing states any. */
  lemma StatedFits(target: Doc, source: Doc, pages: set<Id>)
    requires source.structure.Some? ==> Inherited(source) == source.lang
    requires Inherited(target) == target.lang
    ensures source.lang.Some? || target.lang.None? ==> Fits(target, source, pages)
  {
  }

  // ----- Whole merges -------------------------------------------------------------------------

  /** The elements of the documents, pruned to the pages less the placeholder, in the languages they are in there. */
  function AllLanguages(first: Doc, rest: seq<Doc>, rens: seq<Id -> Id>): seq<Spoken>
    requires |rens| == |rest| && first.structure.Some?
  {
    if rest == [] then Languages(Strip(first))
    else AllLanguages(first, Front(rest), Front(rens))
         + BroughtLanguages(Strip(Last(rest)), PageIds(Strip(Last(rest)).pages), Last(rens))
  }

  predicate FitsMerge(first: Doc, next: Doc) {
    Fits(first, Strip(next), PageIds(Strip(next).pages))
  }

  predicate AllFit(first: Doc, rest: seq<Doc>) {
    forall i :: 0 <= i < |rest| ==> FitsMerge(first, rest[i])
  }

  lemma AllFitLast(first: Doc, rest: seq<Doc>)
    requires rest != []
    ensures AllFit(first, rest) <==> AllFit(first, Front(rest)) && FitsMerge(first, Last(rest))
  {
    assert rest == Front(rest) + [Last(rest)];
  }

  lemma StripKeepsInherited(d: Doc)
    ensures Strip(d).structure.Some? <==> d.structure.Some?
    ensures Strip(d).lang == d.lang && Inherited(Strip(d)) == Inherited(d)
  {
  }

  /** A merge inherits what its first document does, and has as many elements as the documents bring. */
  lemma {:induction false} MergeInherits(first: Doc, rest: seq<Doc>, rens: seq<Id -> Id>)
    requires |rens| == |rest| && AllInjective(rens) && first.structure.Some?
    ensures var d := MergeDocs(first, rest, rens);
      d.structure.Some? && d.lang == first.lang && Inherited(d) == Inherited(first)
      && |Languages(d)| == |AllLanguages(first, rest, rens)|
  {
    if rest == [] {
      StripKeepsInherited(first);
    } else {
      var merged, next := MergeDocs(first, Front(rest), Front(rens)), Strip(Last(rest));
      MergeInherits(first, Front(rest), Front(rens));
      if next.structure.Some? {
        AddedLanguages(merged, next, next.pages, Last(rens), false);
        LangsCount(Prune(next.structure.value.document, PageIds(next.pages)).kids, ComeUnder(merged, next),
                   Inherited(next));
      }
    }
  }

  /**
    Every element of a merge is in the language it was in, or its original: its own, or that of the nearest element
    above it, or of its catalog, if and only if each later document fits the first.
   */
  lemma {:induction false} MergeKeepsLanguagesIff(first: Doc, rest: seq<Doc>, rens: seq<Id -> Id>)
    requires |rens| == |rest| && AllInjective(rens) && first.structure.Some?
    ensures MergeDocs(first, rest, rens).structure.Some?
    ensures Languages(MergeDocs(first, rest, rens)) == AllLanguages(first, rest, rens)
       <==> AllFit(first, rest)
  {
    MergeInherits(first, rest, rens);
    if rest != [] {
      MergeKeepsLanguagesIff(first, Front(rest), Front(rens));
      ExtendedLanguagesIff(first, rest, rens);
      AllFitLast(first, rest);
    }
  }

  lemma ExtendedLanguagesIff(first: Doc, rest: seq<Doc>, rens: seq<Id -> Id>)
    requires |rens| == |rest| && AllInjective(rens) && first.structure.Some? && rest != []
    ensures var merged := MergeDocs(first, Front(rest), Front(rens));
      merged.structure.Some? && MergeDocs(first, rest, rens).structure.Some?
      && (Languages(MergeDocs(first, rest, rens)) == AllLanguages(first, rest, rens)
          <==> Languages(merged) == AllLanguages(first, Front(rest), Front(rens)) && FitsMerge(first, Last(rest)))
  {
    var merged, next, ren := MergeDocs(first, Front(rest), Front(rens)), Strip(Last(rest)), Last(rens);
    MergeInherits(first, Front(rest), Front(rens));
    MergeInherits(first, rest, rens);
    if next.structure.Some? {
      var kids := Prune(next.structure.value.document, PageIds(next.pages)).kids;
      var x, y := RenameSpoken(Langs(kids, ComeUnder(merged, next)),
                               ren), RenameSpoken(Langs(kids, Inherited(next)), ren);
      AddedLanguages(merged, next, next.pages, ren, false);
      LangsDependIff(kids, ComeUnder(merged, next), Inherited(next));
      RenamedSameIff(Langs(kids, ComeUnder(merged, next)), Langs(kids, Inherited(next)), ren);
      SameParts(Languages(merged), AllLanguages(first, Front(rest), Front(rens)), x, y);
    } else {
      SameParts(Languages(merged), AllLanguages(first, Front(rest), Front(rens)), [], []);
    }
  }

  /** What the documents bring, pruned, is in the languages it was in before pruning. */
  lemma PrunedLanguagesAreOld(d: Doc, pages: set<Id>, s: Spoken)
    requires d.structure.Some? && s in Langs(Prune(d.structure.value.document, pages).kids, Inherited(d))
    ensures s in Languages(d)
  {
    var document := d.structure.value.document;
    PruneKeepsLangs(document.kids, OnKeptPage(document.pg, pages), pages, Inherited(d));
  }

  lemma StrippedLanguagesAreOld(d: Doc, s: Spoken)
    requires d.structure.Some? && Strip(d).structure.Some? && s in Languages(Strip(d))
    ensures s in Languages(d)
  {
    StripKeepsInherited(d);
    if StartsWithPlaceholder(d) {
      PrunedLanguagesAreOld(d, PageIds(d.pages[1..]), s);
    }
  }

  /** A copy of an element of a document, in the language of its original. */
  ghost predicate CopiedFrom(d: Doc, ren: Id -> Id, s: Spoken) {
    d.structure.Some? && exists t :: t in Languages(d) && s == Spoken(ren(t.elem), t.lang)
  }

  lemma BroughtLanguagesAreOld(d: Doc, pages: set<Id>, ren: Id -> Id, s: Spoken)
    requires s in BroughtLanguages(Strip(d), pages, ren)
    ensures CopiedFrom(d, ren, s)
  {
    var source := Strip(d);
    var pruned := Langs(Prune(source.structure.value.document, pages).kids, Inherited(source));
    var n :| 0 <= n < |pruned| && RenameSpoken(pruned, ren)[n] == s;
    assert pruned[n] in pruned;
    PrunedLanguagesAreOld(source, pages, pruned[n]);
    StripKeepsInherited(d);
    StrippedLanguagesAreOld(d, pruned[n]);
  }

  /** The document an element is from, and the language it is in there. */
  ghost predicate SpokenBefore(first: Doc, rest: seq<Doc>, rens: seq<Id -> Id>, s: Spoken)
    requires |rens| == |rest|
  {
    (first.structure.Some? && s in Languages(first))
    || exists i :: 0 <= i < |rest| && CopiedFrom(rest[i], rens[i], s)
  }

  lemma SpokenBeforeGrows(first: Doc, rest: seq<Doc>, rens: seq<Id -> Id>, s: Spoken)
    requires |rens| == |rest| > 0 && SpokenBefore(first, Front(rest), Front(rens), s)
    ensures SpokenBefore(first, rest, rens, s)
  {
    if !(first.structure.Some? && s in Languages(first)) {
      var i :| 0 <= i < |Front(rest)| && CopiedFrom(Front(rest)[i], Front(rens)[i], s);
      assert CopiedFrom(rest[i], rens[i], s);
    }
  }

  /** The languages the documents bring are those their elements have in them. */
  lemma {:induction false} AllLanguagesAreOld(first: Doc, rest: seq<Doc>, rens: seq<Id -> Id>, s: Spoken)
    requires |rens| == |rest| && first.structure.Some? && s in AllLanguages(first, rest, rens)
    ensures SpokenBefore(first, rest, rens, s)
  {
    if rest == [] {
      StrippedLanguagesAreOld(first, s);
    } else if s in AllLanguages(first, Front(rest), Front(rens)) {
      AllLanguagesAreOld(first, Front(rest), Front(rens), s);
      SpokenBeforeGrows(first, rest, rens, s);
    } else {
      BroughtLanguagesAreOld(Last(rest), PageIds(Strip(Last(rest)).pages), Last(rens), s);
      SpokenByLast(first, rest, rens, s);
    }
  }

  lemma SpokenByLast(first: Doc, rest: seq<Doc>, rens: seq<Id -> Id>, s: Spoken)
    requires |rens| == |rest| > 0 && CopiedFrom(Last(rest), Last(rens), s)
    ensures SpokenBefore(first, rest, rens, s)
  {
    assert CopiedFrom(rest[|rest| - 1], rens[|rest| - 1], s);
  }

  /** A document that states no language, merged to one that does: its elements come to be in that language. */
  lemma UnstatedLanguageIsTakenOver(ren: Id -> Id)
    requires Injective(ren)
    ensures var first, next := SmallDocument(), SmallDocument().(lang := None);
      MergeDocs(first, [next], [ren]).structure.Some?
      && Languages(MergeDocs(first, [next], [ren])) != AllLanguages(first, [next], [ren])
  {
    var first, next := SmallDocument(), SmallDocument().(lang := None);
    assert AllInjective([ren]);
    MergeKeepsLanguagesIff(first, [next], [ren]);
    SmallParagraphStays();
    assert !FitsMerge(first, [next][0]);
  }

  lemma SmallParagraphStays()
    ensures !AllState(Prune(SmallTree(), PageIds(SmallDocument().pages)).kids)
  {
    var pages := PageIds(SmallDocument().pages);
    var paragraph := SmallTree().kids[0].elem;
    assert SmallDocument().pages[0] in SmallDocument().pages;
    assert PruneKid(Mcid(0), true, pages) == [Mcid(0)];
    assert Keeps(paragraph, pages);
    assert Prune(SmallTree(), pages).kids[0] == Child(Prune(paragraph, pages));
  }

  /** A cover keeps the languages of the content, and those of its own elements, exactly if it fits the content. */
  lemma CoverKeepsLanguagesIff(content: Doc, cover: Doc, ren: Id -> Id)
    requires Injective(ren) && cover.pages != [] && content.structure.Some?
    ensures ReplaceFirstPageWithCover(content, cover, ren).Ok?
    ensures Strip(content).structure.Some? && ReplaceFirstPageWithCover(content, cover, ren).value.structure.Some?
    ensures var covered, page := ReplaceFirstPageWithCover(content, cover, ren).value, PageIds([cover.pages[0]]);
      Languages(covered) == BroughtLanguages(cover, page, ren) + Languages(Strip(content))
      <==> Fits(content, cover, page)
  {
    StripKeepsInherited(content);
    AddKeepsLanguagesIff(Strip(content), cover, [cover.pages[0]], ren, true);
  }
}
