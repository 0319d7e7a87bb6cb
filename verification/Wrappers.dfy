/** The shapes shared by every part of the model. */
module Wrappers {

  datatype Option<+T> = None | Some(value: T)

  datatype Result<+T> = Ok(value: T) | Err(error: string)

  /** The identity of an indirect PDF object: its objgen. */
  type Id = nat

  /** No value stands twice in the sequence. */
  ghost predicate NoDup<T(!new)>(s: seq<T>) {
    forall i, j :: 0 <= i < j < |s| ==> s[i] != s[j]
  }

  lemma NoDupConcat<T(!new)>(a: seq<T>, b: seq<T>)
    requires NoDup(a) && NoDup(b)
    requires forall x :: x in a ==> x !in b
    ensures NoDup(a + b)
  {
    var s := a + b;
    forall i, j | 0 <= i < j < |s| ensures s[i] != s[j] {
      if i < |a| <= j {
        assert s[i] in a && s[j] == b[j - |a|];
      }
    }
  }

  lemma NoDupParts<T(!new)>(a: seq<T>, b: seq<T>)
    requires NoDup(a + b)
    ensures NoDup(a) && NoDup(b)
    ensures forall x :: x in a ==> x !in b
  {
    forall i, j | 0 <= i < j < |a| ensures a[i] != a[j] {
      assert (a + b)[i] == a[i] && (a + b)[j] == a[j];
    }
    forall i, j | 0 <= i < j < |b| ensures b[i] != b[j] {
      assert (a + b)[|a| + i] == b[i] && (a + b)[|a| + j] == b[j];
    }
    forall x | x in a ensures x !in b {
      var i :| 0 <= i < |a| && a[i] == x;
      forall j | 0 <= j < |b| ensures b[j] != x {
        assert (a + b)[i] == x && (a + b)[|a| + j] == b[j];
      }
    }
  }

  lemma NoDupCons<T(!new)>(x: T, s: seq<T>)
    ensures NoDup([x] + s) <==> x !in s && NoDup(s)
  {
    if NoDup([x] + s) {
      NoDupParts([x], s);
      assert x in [x];
    }
    if x !in s && NoDup(s) {
      NoDupConcat([x], s);
    }
  }

  lemma NoDupConcatIff<T(!new)>(a: seq<T>, b: seq<T>)
    ensures NoDup(a + b) <==> NoDup(a) && NoDup(b) && forall x :: x in a ==> x !in b
  {
    if NoDup(a + b) {
      NoDupParts(a, b);
    }
    if NoDup(a) && NoDup(b) && forall x :: x in a ==> x !in b {
      NoDupConcat(a, b);
    }
  }

  lemma SomeMember<T>(s: set<T>) returns (x: T)
    requires s != {}
    ensures x in s
  {
    x :| x in s;
  }
}
