/**
  The throttle on forced refreshes of the key set: a signature that does not verify is checked once more against a fresh
  key set, and a fresh key set is fetched this rarely, whoever asks for it.
 */
module KeyRefresh {
  import opened Wrappers

  /** Seconds between two forced refreshes. */
  const INTERVAL := 30.0

  /**
    How one decoding ends: with claims, on a signature that does not verify, without a key set, or refused otherwise.
   */
  datatype Attempt = Claims(claims: string) | InvalidSignature | Unavailable | Rejected

  // ----- Every history of asking --------------------------------------------------------------

  /** Which of the asked-for refreshes are made: one, where none was, or the last lies long enough ago. */
  function Granted(asked: seq<real>): (g: seq<real>)
    ensures |g| <= |asked|
    ensures forall t :: t in g ==> t in asked
  {
    if asked == [] then []
    else
      var before, now := Granted(asked[..|asked| - 1]), asked[|asked| - 1];
      if before == [] || now - before[|before| - 1] >= INTERVAL then before + [now] else before
  }

  /** Any two lie 30 seconds apart for each step between them. */
  ghost predicate Spaced(s: seq<real>) {
    forall i, j :: 0 <= i <= j < |s| ==> s[j] - s[i] >= 30.0 * (j - i) as real
  }

  lemma SpacedExtends(s: seq<real>, x: real)
    requires Spaced(s) && (s == [] || x - s[|s| - 1] >= INTERVAL)
    ensures Spaced(s + [x])
  {
    var t := s + [x];
    forall i, j | 0 <= i <= j < |t| ensures t[j] - t[i] >= INTERVAL * (j - i) as real {
      if i < j == |s| {
        assert s[|s| - 1] - s[i] >= INTERVAL * (|s| - 1 - i) as real;
      }
    }
  }

  /** Whatever is asked for, and whenever: any two refreshes lie an interval apart for each step between them. */
  lemma {:induction false} GrantedAreSpaced(asked: seq<real>)
    ensures Spaced(Granted(asked))
  {
    if asked != [] {
      GrantedAreSpaced(asked[..|asked| - 1]);
      var before := Granted(asked[..|asked| - 1]);
      if before == [] || asked[|asked| - 1] - before[|before| - 1] >= INTERVAL {
        SpacedExtends(before, asked[|asked| - 1]);
      }
    }
  }

  /** Those of a sequence of times that lie in a window. */
  function Within(s: seq<real>, from: real, length: real): seq<real> {
    if s == [] then []
    else
      var before, last := Within(s[..|s| - 1], from, length), s[|s| - 1];
      if from <= last <= from + length then before + [last] else before
  }

  lemma {:induction false} WithinIsSpaced(s: seq<real>, from: real, length: real)
    requires Spaced(s)
    ensures Spaced(Within(s, from, length))
    ensures forall t :: t in Within(s, from, length) ==> t in s && from <= t <= from + length
  {
    if s != [] {
      var front, last := s[..|s| - 1], s[|s| - 1];
      assert Spaced(front) by {
        forall i, j | 0 <= i <= j < |front| ensures front[j] - front[i] >= INTERVAL * (j - i) as real {
          assert front[j] == s[j] && front[i] == s[i];
        }
      }
      WithinIsSpaced(front, from, length);
      var before := Within(front, from, length);
      if from <= last <= from + length && before != [] {
        var t := before[|before| - 1];
        assert t in front;
        var i :| 0 <= i < |front| && front[i] == t;
        assert s[|s| - 1] - s[i] >= INTERVAL * (|s| - 1 - i) as real >= INTERVAL;
        SpacedExtends(before, last);
      } else if from <= last <= from + length {
        SpacedExtends(before, last);
      }
    }
  }

  /** A window of some length holds at most as many refreshes as intervals fit in it, and one. */
  lemma RefreshesInWindow(asked: seq<real>, from: real, length: real)
    requires length >= 0.0
    ensures |Within(Granted(asked), from, length)| as real <= length / 30.0 + 1.0
  {
    var w := Within(Granted(asked), from, length);
    GrantedAreSpaced(asked);
    WithinIsSpaced(Granted(asked), from, length);
    if w != [] {
      assert w[0] in w && w[|w| - 1] in w;
      assert w[|w| - 1] - w[0] >= INTERVAL * (|w| - 1) as real;
    }
  }

  /** Times in the order they passed. */
  ghost predicate NonDecreasing(s: seq<real>) {
    forall i, j :: 0 <= i <= j < |s| ==> s[i] <= s[j]
  }

  /** On a clock that does not go back, one is refused exactly when another was made less than an interval before. */
  lemma RefusedIffRecent(asked: seq<real>, now: real)
    requires NonDecreasing(asked + [now])
    ensures Granted(asked + [now]) == Granted(asked) <==> exists t :: t in Granted(asked) && now - 30.0 < t <= now
  {
    var g := Granted(asked);
    assert (asked + [now])[..|asked|] == asked;
    GrantedAreSpaced(asked);
    forall t | t in g ensures t <= now {
      var i :| 0 <= i < |asked| && asked[i] == t;
      assert (asked + [now])[i] == t && (asked + [now])[|asked|] == now;
    }
    if g != [] {
      assert g[|g| - 1] in g;
      forall t | t in g ensures t <= g[|g| - 1] {
        var i :| 0 <= i < |g| && g[i] == t;
      }
    }
  }

  // ----- The verifier -------------------------------------------------------------------------

  class TokenVerifier {
    /** When a refresh was forced last; none before the first. */
    var lastForcedRefresh: Option<real>

    /** When refreshes were asked for, in the order the lock was taken. */
    ghost var asked: seq<real>

    ghost predicate Valid()
      reads this
    {
      var g := Granted(asked);
      lastForcedRefresh == if g == [] then None else Some(g[|g| - 1])
    }

    constructor ()
      ensures Valid() && asked == []
    {
      lastForcedRefresh := None;
      asked := [];
    }

    /**
      Force a re-fetch of the key set unless one was forced recently. The time is read, and the field written, under the
      lock; a fetch that fails is a fetch all the same.
     */
    method Refresh(now: real, fetched: bool) returns (done: Result<bool>)
      requires Valid()
      modifies this
      ensures Valid() && asked == old(asked) + [now]
      ensures done == if Granted(asked) == Granted(old(asked)) then Ok(false)
                      else if fetched then Ok(true) else Err("key set unreachable")
    {
      asked := asked + [now];
      assert asked[..|asked| - 1] == old(asked);
      if lastForcedRefresh.Some? && now - lastForcedRefresh.value < INTERVAL {
        return Ok(false);
      }
      lastForcedRefresh := Some(now);
      if !fetched {
        return Err("key set unreachable");
      }
      return Ok(true);
    }

    /**
      Decode a token: once, and once more on a fresh key set where its signature did not verify and a refresh is made.
      The outcomes of the decodings and of the fetch are given.
     */
    method Decode(first: Attempt, now: real, fetched: bool, second: Attempt) returns (result: Attempt, decodings: nat)
      requires Valid()
      modifies this
      ensures Valid() && asked == if first.InvalidSignature? then old(asked) + [now] else old(asked)
      ensures 1 <= decodings <= 2
      ensures decodings == 2 <==> fetched && Granted(asked) != Granted(old(asked))
      ensures result == if decodings == 2 then second
                        else if Granted(asked) != Granted(old(asked)) then Unavailable else first
    {
      result, decodings := first, 1;
      if first.InvalidSignature? {
        var done := Refresh(now, fetched);
        match done {
          case Err(_) => result := Unavailable;
          case Ok(refreshed) =>
            if refreshed {
              result, decodings := second, 2;
            }
        }
      }
    }
  }
}
