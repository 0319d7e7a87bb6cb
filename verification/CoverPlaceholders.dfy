/** The page-number placeholders of a cover page: {{ PAGE_NUMBER }} and {{ PAGES_TOTAL_COUNT }}. */
module CoverPlaceholders {
  import opened Text

  const PAGE_NUMBER := "PAGE_NUMBER"
  const PAGES_TOTAL_COUNT := "PAGES_TOTAL_COUNT"

  /** What \s of a Python pattern for strings matches. */
  predicate IsSpace(c: char) {
    var n := c as int;
    9 <= n <= 13 || 28 <= n <= 32 || n == 0x85 || n == 0xA0 || n == 0x1680 || 0x2000 <= n <= 0x200A
    || n == 0x2028 || n == 0x2029 || n == 0x202F || n == 0x205F || n == 0x3000
  }

  predicate IsNameChar(c: char) {
    'A' <= c <= 'Z' || c == '_'
  }

  predicate IsName(word: string) {
    |word| > 0 && forall i :: 0 <= i < |word| ==> IsNameChar(word[i])
  }

  predicate AllDigits(s: string) {
    |s| > 0 && forall i :: 0 <= i < |s| ==> IsDigit(s[i])
  }

  // ----- Matching -----------------------------------------------------------------------------

  /** The pattern: two braces, spaces, the word, spaces, two braces. */
  ghost predicate Matches(w: string, word: string) {
    exists a, b :: IsMatch(w, word, a, b)
  }

  ghost predicate IsMatch(w: string, word: string, a: string, b: string) {
    AllSpaces(a) && AllSpaces(b) && w == "{{" + (a + (word + (b + "}}")))
  }

  predicate AllSpaces(s: string) {
    forall i :: 0 <= i < |s| ==> IsSpace(s[i])
  }

  /** The number of spaces a string starts with. */
  function Spaces(s: string): (n: nat)
    ensures n <= |s| && (forall i :: 0 <= i < n ==> IsSpace(s[i])) && (n < |s| ==> !IsSpace(s[n]))
  {
    if s == [] || !IsSpace(s[0]) then 0 else 1 + Spaces(s[1..])
  }

  function StartsWith(s: string, prefix: string): bool {
    |prefix| <= |s| && s[..|prefix|] == prefix
  }

  /** The length of the match a string starts with, and 0 where it starts with none. */
  function MatchLength(word: string, s: string): (n: nat)
    ensures n <= |s| && (n > 0 ==> n >= 4)
  {
    if !StartsWith(s, "{{") then 0
    else
      var a := Spaces(s[2..]);
      var n := EndLength(word, s[2..][a..]);
      if n > 0 then 2 + a + n else 0
  }

  /** The same of what stands after the first spaces: the word, spaces, two braces. */
  function EndLength(word: string, t: string): (n: nat)
    ensures n <= |t| && (n > 0 ==> n >= 2)
  {
    if !StartsWith(t, word) then 0
    else
      var b := Spaces(t[|word|..]);
      if StartsWith(t[|word|..][b..], "}}") then |word| + b + 2 else 0
  }

  lemma MatchLengthIsMatch(word: string, s: string)
    ensures MatchLength(word, s) > 0 ==> Matches(s[..MatchLength(word, s)], word)
  {
    if MatchLength(word, s) > 0 {
      var u := s[2..];
      var n := Spaces(u);
      var a := u[..n];
      var b := EndParts(word, u[n..]);
      var rest := word + (b + "}}");
      TakeMore(u, n, EndLength(word, u[n..]), a, rest);
      TakeMore(s, 2, n + EndLength(word, u[n..]), "{{", a + rest);
      assert MatchLength(word, s) == 2 + (n + EndLength(word, u[n..]));
      IsMatchMatches(s[..MatchLength(word, s)], word, a, b);
    }
  }

  lemma IsMatchMatches(w: string, word: string, a: string, b: string)
    requires IsMatch(w, word, a, b)
    ensures Matches(w, word)
  {
  }

  lemma EndParts(word: string, t: string) returns (b: string)
    requires EndLength(word, t) > 0
    ensures AllSpaces(b) && t[..EndLength(word, t)] == word + (b + "}}")
  {
    var u := t[|word|..];
    b := u[..Spaces(u)];
    TakeMore(u, |b|, 2, b, "}}");
    TakeMore(t, |word|, |b| + 2, word, b + "}}");
  }

  lemma TakeMore(s: string, m: nat, n: nat, first: string, later: string)
    requires m + n <= |s| && s[..m] == first && s[m..][..n] == later
    ensures s[..m + n] == first + later
  {
  }

  lemma {:induction false} SpacesOf(a: string, rest: string)
    requires AllSpaces(a)
    requires rest != [] && !IsSpace(rest[0])
    ensures Spaces(a + rest) == |a|
  {
    if a == [] {
      assert a + rest == rest;
    } else {
      assert (a + rest)[1..] == a[1..] + rest;
      SpacesOf(a[1..], rest);
    }
  }

  /** A string that starts with a match starts with no other: the length found is the length of it. */
  lemma MatchIsFound(word: string, w: string, rest: string)
    requires IsName(word) && Matches(w, word)
    ensures MatchLength(word, w + rest) == |w| > 0
  {
    var a, b :| IsMatch(w, word, a, b);
    var t := word + (b + ("}}" + rest));
    assert w + rest == "{{" + (a + t);
    TakeAndDrop("{{", a + t);
    SpacesOf(a, t);
    TakeAndDrop(a, t);
    EndIsFound(word, b, rest);
  }

  lemma EndIsFound(word: string, b: string, rest: string)
    requires AllSpaces(b)
    ensures EndLength(word, word + (b + ("}}" + rest))) == |word| + |b| + 2
  {
    TakeAndDrop(word, b + ("}}" + rest));
    SpacesOf(b, "}}" + rest);
    TakeAndDrop(b, "}}" + rest);
    TakeAndDrop("}}", rest);
  }

  lemma TakeAndDrop(a: string, b: string)
    ensures (a + b)[..|a|] == a && (a + b)[|a|..] == b
  {
  }

  /** A match holds no digit, and braces are at its ends only. */
  lemma MatchShape(w: string, word: string)
    requires IsName(word) && Matches(w, word)
    ensures |w| >= 4 && w[0] == '{' && w[1] == '{'
    ensures forall i :: 2 <= i < |w| ==> w[i] != '{'
    ensures forall i :: 0 <= i < |w| ==> !IsDigit(w[i])
  {
    var a, b :| IsMatch(w, word, a, b);
    assert w == "{{" + a + word + b + "}}";
  }

  /** No string starts with matches of two names. */
  lemma MatchesDiffer(word: string, other: string, s: string)
    requires IsName(word) && IsName(other) && word != other
    ensures MatchLength(word, s) == 0 || MatchLength(other, s) == 0
  {
    if MatchLength(word, s) > 0 && MatchLength(other, s) > 0 {
      var t := s[2..][Spaces(s[2..])..];
      FollowedByNoName(word, t);
      FollowedByNoName(other, t);
      NamesEndTogether(word, other, t);
    }
  }

  lemma NamesEndTogether(word: string, other: string, t: string)
    requires IsName(word) && IsName(other)
    requires |word| < |t| && t[..|word|] == word && !IsNameChar(t[|word|])
    requires |other| < |t| && t[..|other|] == other && !IsNameChar(t[|other|])
    ensures word == other
  {
    assert forall i :: 0 <= i < |word| ==> t[i] == t[..|word|][i];
    assert forall i :: 0 <= i < |other| ==> t[i] == t[..|other|][i];
  }

  lemma FollowedByNoName(word: string, t: string)
    requires EndLength(word, t) > 0
    ensures |word| < |t| && t[..|word|] == word && !IsNameChar(t[|word|])
  {
    var u := t[|word|..];
    var b := Spaces(u);
    assert u[b..][..2] == "}}";
    assert u[b] == u[b..][..2][0];
    assert t[|word|] == u[0];
  }

  // ----- Substitution -------------------------------------------------------------------------

  /** re.sub: every match, from the left, becomes the replacement. */
  function Substitute(word: string, repl: string, s: string): string
    decreases |s|
  {
    if s == [] then []
    else
      var n := MatchLength(word, s);
      if n > 0 then repl + Substitute(word, repl, s[n..]) else [s[0]] + Substitute(word, repl, s[1..])
  }

  /** What starts the result, and holds no digit, started the string: no replacement takes part in it. */
  lemma {:induction false} DigitFreeStartIsOld(word: string, repl: string, s: string, w: string)
    requires AllDigits(repl) && StartsWith(Substitute(word, repl, s), w)
    requires forall i :: 0 <= i < |w| ==> !IsDigit(w[i])
    ensures StartsWith(s, w)
    decreases |s|
  {
    if w != [] {
      StartsWithFirst(Substitute(word, repl, s), w);
      if MatchLength(word, s) == 0 {
        StartOfCons(s[0], Substitute(word, repl, s[1..]), w);
        DigitFreeStartIsOld(word, repl, s[1..], w[1..]);
        StartOfCons(s[0], s[1..], w);
        assert s == [s[0]] + s[1..];
      } else {
        assert false;
      }
    }
  }

  lemma StartsWithFirst(s: string, w: string)
    requires w != [] && StartsWith(s, w)
    ensures s != [] && s[0] == w[0]
  {
    assert s[..|w|][0] == s[0];
  }

  lemma StartOfCons(c: char, rest: string, w: string)
    requires w != []
    ensures StartsWith([c] + rest, w) <==> w[0] == c && StartsWith(rest, w[1..])
  {
    if |w| <= 1 + |rest| {
      assert ([c] + rest)[..|w|] == [c] + rest[..|w| - 1];
      assert w == [w[0]] + w[1..];
    }
  }

  /** One step of the scan: the start of the string it is at, what it puts there, and the rest of the string. */
  lemma ScanStep(word: string, repl: string, s: string) returns (start: string, first: string, rest: string)
    requires s != []
    ensures s == start + rest && start != []
    ensures Substitute(word, repl, s) == first + Substitute(word, repl, rest)
    ensures first == if MatchLength(word, s) > 0 then repl else start
    ensures MatchLength(word, s) == 0 ==> |start| == 1
  {
    var n := MatchLength(word, s);
    if n > 0 {
      start, first, rest := s[..n], repl, s[n..];
      assert s == s[..n] + s[n..];
    } else {
      start, first, rest := [s[0]], [s[0]], s[1..];
      assert s == [s[0]] + s[1..];
    }
  }

  /** A part of the result without a digit. */
  predicate DigitFreeAt(r: string, i: nat, w: string) {
    i <= |r| && StartsWith(r[i..], w) && |w| > 0 && forall k :: 0 <= k < |w| ==> !IsDigit(w[k])
  }

  lemma StartIsOld(word: string, repl: string, s: string, w: string)
    requires AllDigits(repl) && DigitFreeAt(Substitute(word, repl, s), 0, w)
    ensures StartsWith(s, w)
  {
    assert Substitute(word, repl, s)[0..] == Substitute(word, repl, s);
    DigitFreeStartIsOld(word, repl, s, w);
  }

  /** What stands anywhere in the result, and holds no digit, stood in the string where the scan found no match. */
  lemma {:induction false} DigitFreePartIsOld(word: string, repl: string, s: string, i: nat, w: string)
    returns (before: string, part: string)
    requires AllDigits(repl) && DigitFreeAt(Substitute(word, repl, s), i, w)
    ensures s == before + part && StartsWith(part, w) && MatchLength(word, part) == 0
    decreases |s|, 1
  {
    if MatchLength(word, s) == 0 && i == 0 {
      StartIsOld(word, repl, s, w);
      before, part := [], s;
    } else {
      before, part := LaterPartIsOld(word, repl, s, i, w);
    }
  }

  /** A part that is not where the scan starts is past what the start of the string was replaced by. */
  lemma {:induction false} LaterPartIsOld(word: string, repl: string, s: string, i: nat, w: string)
    returns (before: string, part: string)
    requires AllDigits(repl) && DigitFreeAt(Substitute(word, repl, s), i, w) && (i > 0 || MatchLength(word, s) > 0)
    ensures s == before + part && StartsWith(part, w) && MatchLength(word, part) == 0
    decreases |s|, 0
  {
    assert s != [];
    var start, first, rest := ScanStep(word, repl, s);
    PastFirst(first, Substitute(word, repl, rest), i, w);
    var later, part' := DigitFreePartIsOld(word, repl, rest, i - |first|, w);
    Regroup(start, later, part');
    before, part := start + later, part';
  }

  lemma Regroup(a: string, b: string, c: string)
    ensures a + (b + c) == (a + b) + c
  {
  }

  lemma PastFirst(first: string, later: string, i: nat, w: string)
    requires AllDigits(first) || |first| <= i
    requires DigitFreeAt(first + later, i, w)
    ensures |first| <= i && DigitFreeAt(later, i - |first|, w)
  {
    if i < |first| {
      PastDigits(first, later, i, w);
    }
    DropPast(first, later, i);
  }

  lemma DropPast(a: string, b: string, i: nat)
    requires |a| <= i <= |a| + |b|
    ensures (a + b)[i..] == b[i - |a|..]
  {
  }

  /** What starts with a character that is no digit starts past the digits. */
  lemma PastDigits(digits: string, rest: string, i: nat, w: string)
    requires AllDigits(digits) && i <= |digits| + |rest| && StartsWith((digits + rest)[i..], w) && |w| > 0
    requires !IsDigit(w[0])
    ensures i >= |digits| && (digits + rest)[i..] == rest[i - |digits|..]
  {
    assert w[0] == (digits + rest)[i..][0] == (digits + rest)[i];
    assert forall k :: 0 <= k < |digits| ==> IsDigit((digits + rest)[k]);
  }

  /** No part of the string is a match of the word. */
  ghost predicate Free(word: string, s: string) {
    forall i, j :: 0 <= i <= j <= |s| ==> !Matches(s[i..j], word)
  }

  lemma NoMatchStart(word: string, s: string, w: string)
    requires IsName(word) && Matches(w, word) && StartsWith(s, w)
    ensures MatchLength(word, s) > 0
  {
    assert s == w + s[|w|..];
    MatchIsFound(word, w, s[|w|..]);
  }

  lemma PartOfFree(word: string, s: string, before: string, part: string, w: string)
    requires Free(word, s) && s == before + part && StartsWith(part, w)
    ensures !Matches(w, word)
  {
    assert s[|before|..|before| + |w|] == part[..|w|] == w;
  }

  /** A substitution leaves no match of its own word, and makes none of another that was not there. */
  lemma SubstituteFrees(word: string, repl: string, s: string, other: string)
    requires IsName(word) && IsName(other) && AllDigits(repl) && (other == word || Free(other, s))
    ensures Free(other, Substitute(word, repl, s))
  {
    var r := Substitute(word, repl, s);
    forall i, j | 0 <= i <= j <= |r| ensures !Matches(r[i..j], other) {
      var w := r[i..j];
      if Matches(w, other) {
        MatchShape(w, other);
        assert r[i..][..|w|] == w;
        var before, part := DigitFreePartIsOld(word, repl, s, i, w);
        if other == word {
          NoMatchStart(word, part, w);
        } else {
          PartOfFree(other, s, before, part, w);
        }
        assert false;
      }
    }
  }

  lemma {:induction false} SubstituteNothing(word: string, repl: string, s: string)
    requires IsName(word) && Free(word, s)
    ensures Substitute(word, repl, s) == s
    decreases |s|
  {
    if s != [] {
      MatchLengthIsMatch(word, s);
      assert s[0..MatchLength(word, s)] == s[..MatchLength(word, s)];
      assert MatchLength(word, s) == 0;
      forall i, j | 0 <= i <= j <= |s[1..]| ensures !Matches(s[1..][i..j], word) {
        assert s[1..][i..j] == s[i + 1..j + 1];
      }
      SubstituteNothing(word, repl, s[1..]);
    }
  }

  // ----- Both substitutions -------------------------------------------------------------------

  /** Both words replaced in one scan. */
  function Both(word: string, repl: string, other: string, otherRepl: string, s: string): string
    decreases |s|
  {
    if s == [] then []
    else if MatchLength(word, s) > 0 then repl + Both(word, repl, other, otherRepl, s[MatchLength(word, s)..])
    else if MatchLength(other, s) > 0 then otherRepl + Both(word, repl, other, otherRepl, s[MatchLength(other, s)..])
    else [s[0]] + Both(word, repl, other, otherRepl, s[1..])
  }

  predicate QuietAt(word: string, s: string, k: nat)
    requires k <= |s|
  {
    MatchLength(word, s[k..]) == 0
  }

  /** Where no match starts, the scan goes through. */
  lemma {:induction false} ScanThrough(word: string, repl: string, s: string, n: nat)
    requires n <= |s| && forall k :: 0 <= k < n ==> QuietAt(word, s, k)
    ensures Substitute(word, repl, s) == s[..n] + Substitute(word, repl, s[n..])
    decreases n
  {
    if n == 0 {
      assert s[0..] == s;
    } else {
      ScanThrough(word, repl, s, n - 1);
      QuietStep(word, repl, s, n - 1);
      JoinOne(s, n, Substitute(word, repl, s[n..]));
    }
  }

  lemma JoinOne(s: string, n: nat, rest: string)
    requires 0 < n <= |s|
    ensures s[..n - 1] + ([s[n - 1]] + rest) == s[..n] + rest
  {
  }

  lemma QuietStep(word: string, repl: string, s: string, k: nat)
    requires k < |s| && QuietAt(word, s, k)
    ensures Substitute(word, repl, s[k..]) == [s[k]] + Substitute(word, repl, s[k + 1..])
  {
    assert s[k..][1..] == s[k + 1..];
  }

  /** One substitution after the other is both at once. */
  lemma {:induction false} OneAfterTheOther(word: string, repl: string, other: string, otherRepl: string, s: string)
    requires IsName(word) && IsName(other) && word != other && AllDigits(repl) && AllDigits(otherRepl)
    ensures Substitute(word, repl, Substitute(other, otherRepl, s)) == Both(word, repl, other, otherRepl, s)
    decreases |s|
  {
    if s != [] {
      MatchesDiffer(word, other, s);
      var n := MatchLength(word, s);
      var m := MatchLength(other, s);
      if n > 0 {
        OneAfterTheOther(word, repl, other, otherRepl, s[n..]);
        FirstIsLeftForLater(word, repl, other, otherRepl, s);
      } else if m > 0 {
        OneAfterTheOther(word, repl, other, otherRepl, s[m..]);
        DigitsAreLeft(word, repl, otherRepl, Substitute(other, otherRepl, s[m..]));
      } else {
        OneAfterTheOther(word, repl, other, otherRepl, s[1..]);
        NoneIsMade(word, other, otherRepl, s);
        var rest := Substitute(other, otherRepl, s[1..]);
        assert ([s[0]] + rest)[0] == s[0] && ([s[0]] + rest)[1..] == rest;
      }
    }
  }

  /** The substitution of one word leaves the match of another at the start, which the next one then takes. */
  lemma FirstIsLeftForLater(word: string, repl: string, other: string, otherRepl: string, s: string)
    requires IsName(word) && IsName(other) && MatchLength(word, s) > 0 && MatchLength(other, s) == 0
    ensures var rest := Substitute(other, otherRepl, s[MatchLength(word, s)..]);
      Substitute(word, repl, Substitute(other, otherRepl, s)) == repl + Substitute(word, repl, rest)
  {
    var n := MatchLength(word, s);
    var w, rest := s[..n], Substitute(other, otherRepl, s[n..]);
    MatchLengthIsMatch(word, s);
    MatchShape(w, word);
    forall k | 0 <= k < n ensures QuietAt(other, s, k) {
      MatchIsQuiet(other, s, n, k);
    }
    ScanThrough(other, otherRepl, s, n);
    MatchIsFound(word, w, rest);
    TakeAndDrop(w, rest);
    assert w + rest != [];
  }

  lemma MatchIsQuiet(other: string, s: string, n: nat, k: nat)
    requires k < n <= |s| && 4 <= n && MatchLength(other, s) == 0
    requires forall i :: 2 <= i < n ==> s[..n][i] != '{'
    ensures QuietAt(other, s, k)
  {
    if k == 0 {
      assert s[0..] == s;
    } else {
      var i := if k == 1 then 2 else k;
      assert s[k..][i - k] == s[..n][i];
      NoBracesNoMatch(other, s[k..]);
    }
  }

  lemma DigitsAreLeft(word: string, repl: string, digits: string, rest: string)
    requires AllDigits(digits)
    ensures Substitute(word, repl, digits + rest) == digits + Substitute(word, repl, rest)
  {
    var r := digits + rest;
    forall k | 0 <= k < |digits| ensures QuietAt(word, r, k) {
      assert r[k..][0] == digits[k];
      NoBracesNoMatch(word, r[k..]);
    }
    ScanThrough(word, repl, r, |digits|);
    TakeAndDrop(digits, rest);
  }

  /** Where no match of a word starts, none starts after the other word was replaced. */
  lemma NoneIsMade(word: string, other: string, otherRepl: string, s: string)
    requires IsName(word) && AllDigits(otherRepl) && MatchLength(word, s) == 0
    ensures MatchLength(word, Substitute(other, otherRepl, s)) == 0
  {
    var r := Substitute(other, otherRepl, s);
    var n := MatchLength(word, r);
    if n > 0 {
      var w := r[..n];
      MatchLengthIsMatch(word, r);
      MatchShape(w, word);
      DigitFreeStartIsOld(other, otherRepl, s, w);
      NoMatchStart(word, s, w);
      assert false;
    }
  }

  lemma NoBracesNoMatch(word: string, s: string)
    ensures |s| < 2 || s[0] != '{' || s[1] != '{' ==> MatchLength(word, s) == 0
  {
    if StartsWith(s, "{{") {
      assert s[0] == s[..2][0] && s[1] == s[..2][1];
    }
  }

  lemma {:induction false} BothEitherWay(word: string, repl: string, other: string, otherRepl: string, s: string)
    requires IsName(word) && IsName(other) && word != other
    ensures Both(word, repl, other, otherRepl, s) == Both(other, otherRepl, word, repl, s)
    decreases |s|
  {
    if s != [] {
      MatchesDiffer(word, other, s);
      if MatchLength(word, s) > 0 {
        BothEitherWay(word, repl, other, otherRepl, s[MatchLength(word, s)..]);
      } else if MatchLength(other, s) > 0 {
        BothEitherWay(word, repl, other, otherRepl, s[MatchLength(other, s)..]);
      } else {
        BothEitherWay(word, repl, other, otherRepl, s[1..]);
      }
    }
  }

  /** The order of two substitutions by digits does not matter. */
  lemma SubstitutionsCommute(word: string, repl: string, other: string, otherRepl: string, s: string)
    requires IsName(word) && IsName(other) && word != other && AllDigits(repl) && AllDigits(otherRepl)
    ensures Substitute(word, repl, Substitute(other, otherRepl, s))
         == Substitute(other, otherRepl, Substitute(word, repl, s))
  {
    OneAfterTheOther(word, repl, other, otherRepl, s);
    OneAfterTheOther(other, otherRepl, word, repl, s);
    BothEitherWay(word, repl, other, otherRepl, s);
  }

  /** resolve_cover_page_placeholders */
  function Resolve(html: string, pageCount: nat): string {
    Substitute(PAGES_TOTAL_COUNT, Decimal(pageCount), Substitute(PAGE_NUMBER, "1", html))
  }

  lemma WordsAreNames()
    ensures IsName(PAGE_NUMBER) && IsName(PAGES_TOTAL_COUNT) && PAGE_NUMBER != PAGES_TOTAL_COUNT && AllDigits("1")
  {
    assert |PAGE_NUMBER| != |PAGES_TOTAL_COUNT|;
  }

  /** The result holds no placeholder, is what the other order gives, and resolving it again changes nothing. */
  lemma ResolveIsFinal(html: string, pageCount: nat, again: nat)
    ensures Free(PAGE_NUMBER, Resolve(html, pageCount)) && Free(PAGES_TOTAL_COUNT, Resolve(html, pageCount))
    ensures Resolve(html, pageCount)
         == Substitute(PAGE_NUMBER, "1", Substitute(PAGES_TOTAL_COUNT, Decimal(pageCount), html))
    ensures Resolve(Resolve(html, pageCount), again) == Resolve(html, pageCount)
  {
    WordsAreNames();
    var once := Substitute(PAGE_NUMBER, "1", html);
    SubstituteFrees(PAGE_NUMBER, "1", html, PAGE_NUMBER);
    SubstituteFrees(PAGES_TOTAL_COUNT, Decimal(pageCount), once, PAGE_NUMBER);
    SubstituteFrees(PAGES_TOTAL_COUNT, Decimal(pageCount), once, PAGES_TOTAL_COUNT);
    SubstitutionsCommute(PAGES_TOTAL_COUNT, Decimal(pageCount), PAGE_NUMBER, "1", html);
    SubstituteNothing(PAGE_NUMBER, "1", Resolve(html, pageCount));
    SubstituteNothing(PAGES_TOTAL_COUNT, Decimal(again), Resolve(html, pageCount));
  }

  // ----- What the placeholders become ---------------------------------------------------------

  /** No match of a word starts before a place. */
  ghost predicate NoneStartsBefore(word: string, s: string, n: nat) {
    forall i, j :: 0 <= i < n && i <= j <= |s| ==> !Matches(s[i..j], word)
  }

  lemma NoneStartsIsQuiet(word: string, s: string, n: nat, k: nat)
    requires NoneStartsBefore(word, s, n) && k < n <= |s|
    ensures QuietAt(word, s, k)
  {
    var m := MatchLength(word, s[k..]);
    MatchLengthIsMatch(word, s[k..]);
    assert s[k..][..m] == s[k..k + m];
  }

  lemma {:induction false} BothThrough(word: string, repl: string, other: string, otherRepl: string, s: string, n: nat)
    requires n <= |s| && forall k :: 0 <= k < n ==> QuietAt(word, s, k) && QuietAt(other, s, k)
    ensures Both(word, repl, other, otherRepl, s) == s[..n] + Both(word, repl, other, otherRepl, s[n..])
    decreases n
  {
    if n == 0 {
      assert s[0..] == s;
    } else {
      BothThrough(word, repl, other, otherRepl, s, n - 1);
      assert QuietAt(word, s, n - 1) && QuietAt(other, s, n - 1);
      assert s[n - 1..][1..] == s[n..];
      JoinOne(s, n, Both(word, repl, other, otherRepl, s[n..]));
    }
  }

  lemma BothAt(word: string, repl: string, other: string, otherRepl: string, w: string, rest: string)
    requires IsName(word) && IsName(other) && word != other
    ensures Matches(w, word) ==>
      Both(word, repl, other, otherRepl, w + rest) == repl + Both(word, repl, other, otherRepl, rest)
    ensures Matches(w, other) ==>
      Both(word, repl, other, otherRepl, w + rest) == otherRepl + Both(word, repl, other, otherRepl, rest)
  {
    TakeAndDrop(w, rest);
    MatchesDiffer(word, other, w + rest);
    if Matches(w, word) {
      MatchIsFound(word, w, rest);
    }
    if Matches(w, other) {
      MatchIsFound(other, w, rest);
    }
  }

  lemma ResolveIsBoth(html: string, pageCount: nat)
    ensures Resolve(html, pageCount) == Both(PAGES_TOTAL_COUNT, Decimal(pageCount), PAGE_NUMBER, "1", html)
  {
    WordsAreNames();
    OneAfterTheOther(PAGES_TOTAL_COUNT, Decimal(pageCount), PAGE_NUMBER, "1", html);
  }

  /**
    Resolving goes through what stands before the first placeholder, puts 1 for a page number and the count of pages for
    a total, and goes on after it; what holds no placeholder stays as it is.
   */
  lemma ResolveReplacesFirst(before: string, w: string, rest: string, pageCount: nat)
    requires NoneStartsBefore(PAGE_NUMBER, before + (w + rest), |before|)
    requires NoneStartsBefore(PAGES_TOTAL_COUNT, before + (w + rest), |before|)
    ensures Matches(w, PAGE_NUMBER) ==>
      Resolve(before + (w + rest), pageCount) == before + ("1" + Resolve(rest, pageCount))
    ensures Matches(w, PAGES_TOTAL_COUNT) ==>
      Resolve(before + (w + rest), pageCount) == before + (Decimal(pageCount) + Resolve(rest, pageCount))
  {
    var html := before + (w + rest);
    WordsAreNames();
    ResolveIsBoth(html, pageCount);
    ResolveIsBoth(rest, pageCount);
    forall k | 0 <= k < |before| ensures QuietAt(PAGES_TOTAL_COUNT, html, k) && QuietAt(PAGE_NUMBER, html, k) {
      NoneStartsIsQuiet(PAGES_TOTAL_COUNT, html, |before|, k);
      NoneStartsIsQuiet(PAGE_NUMBER, html, |before|, k);
    }
    BothThrough(PAGES_TOTAL_COUNT, Decimal(pageCount), PAGE_NUMBER, "1", html, |before|);
    TakeAndDrop(before, w + rest);
    BothAt(PAGES_TOTAL_COUNT, Decimal(pageCount), PAGE_NUMBER, "1", w, rest);
  }

  lemma ResolveLeavesTheRest(html: string, pageCount: nat)
    requires Free(PAGE_NUMBER, html) && Free(PAGES_TOTAL_COUNT, html)
    ensures Resolve(html, pageCount) == html
  {
    WordsAreNames();
    SubstituteNothing(PAGE_NUMBER, "1", html);
    SubstituteNothing(PAGES_TOTAL_COUNT, Decimal(pageCount), html);
  }
}
