/**
  Number trees (ISO 32000-1:2008, section 7.9.7), as the parent tree of a structure is one: read at any nesting, and
  written flat.
 */
module NumberTree {
  import opened Wrappers

  /** A node holds pairs of a key and a value (/Nums), and further nodes (/Kids). */
  datatype Tree<V> = Node(nums: seq<(int, V)>, kids: seq<Tree<V>>)

  // ----- Reading ------------------------------------------------------------------------------

  /** The entries of a node: its own, then those of its kids; of two entries for a key the later one counts. */
  function Read<V>(t: Tree<V>): map<int, V>
    decreases t, 1
  {
    FromPairs(t.nums) + ReadKids(t.kids)
  }

  function ReadKids<V>(kids: seq<Tree<V>>): map<int, V>
    decreases kids, 0
  {
    if kids == [] then map[] else Read(kids[0]) + ReadKids(kids[1..])
  }

  function FromPairs<V>(pairs: seq<(int, V)>): map<int, V> {
    if pairs == [] then map[] else map[pairs[0].0 := pairs[0].1] + FromPairs(pairs[1..])
  }

  /** All pairs of a tree, in the order they are stored in. */
  function Pairs<V>(t: Tree<V>): seq<(int, V)>
    decreases t, 1
  {
    t.nums + KidPairs(t.kids)
  }

  function KidPairs<V>(kids: seq<Tree<V>>): seq<(int, V)>
    decreases kids, 0
  {
    if kids == [] then [] else Pairs(kids[0]) + KidPairs(kids[1..])
  }

  lemma UpdateInOrder<V>(a: map<int, V>, b: map<int, V>, c: map<int, V>)
    ensures (a + b) + c == a + (b + c)
  {
  }

  lemma {:induction false} FromPairsConcat<V>(a: seq<(int, V)>, b: seq<(int, V)>)
    ensures FromPairs(a + b) == FromPairs(a) + FromPairs(b)
  {
    if a == [] {
      assert a + b == b;
    } else {
      var head := map[a[0].0 := a[0].1];
      assert (a + b)[0] == a[0] && (a + b)[1..] == a[1..] + b;
      FromPairsConcat(a[1..], b);
      assert FromPairs(a + b) == head + FromPairs(a[1..] + b);
      UpdateInOrder(head, FromPairs(a[1..]), FromPairs(b));
    }
  }

  /** However the tree is split into nodes, reading it gives what its pairs give in one list. */
  lemma {:induction false} ReadIgnoresNesting<V>(t: Tree<V>)
    ensures Read(t) == FromPairs(Pairs(t))
    decreases t, 1
  {
    ReadKidsIgnoresNesting(t.kids);
    FromPairsConcat(t.nums, KidPairs(t.kids));
  }

  lemma {:induction false} ReadKidsIgnoresNesting<V>(kids: seq<Tree<V>>)
    ensures ReadKids(kids) == FromPairs(KidPairs(kids))
    decreases kids, 0
  {
    if kids != [] {
      ReadIgnoresNesting(kids[0]);
      ReadKidsIgnoresNesting(kids[1..]);
      FromPairsConcat(Pairs(kids[0]), KidPairs(kids[1..]));
    }
  }

  /** A node, or some node under it, stores a value under a key. */
  ghost predicate Stores<V(!new)>(t: Tree<V>, key: int, value: V)
    decreases t
  {
    (key, value) in t.nums || exists i :: 0 <= i < |t.kids| && Stores(t.kids[i], key, value)
  }

  lemma {:induction false} PairsAreStored<V(!new)>(t: Tree<V>, key: int, value: V)
    ensures (key, value) in Pairs(t) <==> Stores(t, key, value)
    decreases t, 1
  {
    KidPairsAreStored(t.kids, key, value);
  }

  lemma {:induction false} KidPairsAreStored<V(!new)>(kids: seq<Tree<V>>, key: int, value: V)
    ensures (key, value) in KidPairs(kids) <==> exists i :: 0 <= i < |kids| && Stores(kids[i], key, value)
    decreases kids, 0
  {
    if kids != [] {
      PairsAreStored(kids[0], key, value);
      KidPairsAreStored(kids[1..], key, value);
      assert forall i :: 1 <= i < |kids| ==> kids[i] == kids[1..][i - 1];
    }
  }

  /** In a tree that holds no key twice, a lookup finds a value exactly when some node of the tree stores it. */
  lemma {:induction false} ReadFindsEveryPair<V(!new)>(t: Tree<V>, key: int, value: V)
    requires forall i, j :: 0 <= i < j < |Pairs(t)| ==> Pairs(t)[i].0 != Pairs(t)[j].0
    ensures key in Read(t) && Read(t)[key] == value <==> Stores(t, key, value)
  {
    ReadIgnoresNesting(t);
    FromPairsFindsEveryPair(Pairs(t), key, value);
    PairsAreStored(t, key, value);
  }

  /** Where a key stands twice, the pair that is stored last is the one that is read. */
  lemma ReadTakesLast<V(!new)>(t: Tree<V>, i: nat)
    requires i < |Pairs(t)| && forall j :: i < j < |Pairs(t)| ==> Pairs(t)[j].0 != Pairs(t)[i].0
    ensures Pairs(t)[i].0 in Read(t) && Read(t)[Pairs(t)[i].0] == Pairs(t)[i].1
  {
    ReadIgnoresNesting(t);
    FromPairsTakesLast(Pairs(t), i);
  }

  lemma {:induction false} FromPairsTakesLast<V(!new)>(pairs: seq<(int, V)>, i: nat)
    requires i < |pairs| && forall j :: i < j < |pairs| ==> pairs[j].0 != pairs[i].0
    ensures pairs[i].0 in FromPairs(pairs) && FromPairs(pairs)[pairs[i].0] == pairs[i].1
  {
    if i > 0 {
      FromPairsTakesLast(pairs[1..], i - 1);
    } else {
      NotAmongPairs(pairs[1..], pairs[0].0);
    }
  }

  lemma {:induction false} NotAmongPairs<V(!new)>(pairs: seq<(int, V)>, key: int)
    requires forall j :: 0 <= j < |pairs| ==> pairs[j].0 != key
    ensures key !in FromPairs(pairs)
  {
    if pairs != [] {
      NotAmongPairs(pairs[1..], key);
    }
  }

  lemma {:induction false} FromPairsFindsEveryPair<V(!new)>(pairs: seq<(int, V)>, key: int, value: V)
    requires forall i, j :: 0 <= i < j < |pairs| ==> pairs[i].0 != pairs[j].0
    ensures key in FromPairs(pairs) && FromPairs(pairs)[key] == value <==> (key, value) in pairs
    ensures key in FromPairs(pairs) <==> exists i :: 0 <= i < |pairs| && pairs[i].0 == key
  {
    if pairs != [] {
      FromPairsFindsEveryPair(pairs[1..], key, value);
      assert pairs == [pairs[0]] + pairs[1..];
      assert forall i :: 1 <= i < |pairs| ==> pairs[i] == pairs[1..][i - 1];
    }
  }

  lemma {:induction false} ReadKidsConcat<V>(a: seq<Tree<V>>, b: seq<Tree<V>>)
    ensures ReadKids(a + b) == ReadKids(a) + ReadKids(b)
  {
    if a == [] {
      assert a + b == b;
    } else {
      assert (a + b)[0] == a[0] && (a + b)[1..] == a[1..] + b;
      ReadKidsConcat(a[1..], b);
      assert ReadKids(a + b) == Read(a[0]) + ReadKids(a[1..] + b);
      UpdateInOrder(Read(a[0]), ReadKids(a[1..]), ReadKids(b));
    }
  }

  lemma ReadOneMore<V>(pairs: seq<(int, V)>, i: nat)
    requires i < |pairs|
    ensures FromPairs(pairs[..i + 1]) == FromPairs(pairs[..i])[pairs[i].0 := pairs[i].1]
  {
    assert pairs[..i + 1] == pairs[..i] + [pairs[i]];
    FromPairsConcat(pairs[..i], [pairs[i]]);
  }

  lemma ReadOneMoreKid<V>(kids: seq<Tree<V>>, i: nat)
    requires i < |kids|
    ensures ReadKids(kids[..i + 1]) == ReadKids(kids[..i]) + Read(kids[i])
  {
    assert kids[..i + 1] == kids[..i] + [kids[i]];
    ReadKidsConcat(kids[..i], [kids[i]]);
    assert [kids[i]][1..] == [];
    assert ReadKids([kids[i]]) == Read(kids[i]) + map[];
  }

  /** _number_tree: the entries, filled in node by node. */
  method ReadNumberTree<V>(t: Tree<V>) returns (entries: map<int, V>)
    ensures entries == Read(t)
    decreases t
  {
    entries := map[];
    for i := 0 to |t.nums|
      invariant entries == FromPairs(t.nums[..i])
    {
      ReadOneMore(t.nums, i);
      entries := entries[t.nums[i].0 := t.nums[i].1];
    }
    assert t.nums[..|t.nums|] == t.nums;
    for i := 0 to |t.kids|
      invariant entries == FromPairs(t.nums) + ReadKids(t.kids[..i])
    {
      ReadOneMoreKid(t.kids, i);
      var more := ReadNumberTree(t.kids[i]);
      UpdateInOrder(FromPairs(t.nums), ReadKids(t.kids[..i]), more);
      entries := entries + more;
    }
    assert t.kids[..|t.kids|] == t.kids;
  }

  // ----- Writing ------------------------------------------------------------------------------

  lemma {:induction false} LeastExists(s: set<int>)
    requires s != {}
    ensures exists m :: m in s && forall y :: y in s ==> m <= y
  {
    var x := SomeMember(s);
    var others := s - {x};
    if others == {} {
      assert x in s && forall y :: y in s ==> x <= y by { assert s == {x}; }
    } else {
      LeastExists(others);
      var m :| m in others && forall y :: y in others ==> m <= y;
      assert forall y :: y in s ==> y == x || y in others;
      var least := if x < m then x else m;
      assert least in s && forall y :: y in s ==> least <= y;
    }
  }

  function Least(s: set<int>): (m: int)
    requires s != {}
    ensures m in s && forall y :: y in s ==> m <= y
  {
    LeastExists(s);
    var m :| m in s && forall y :: y in s ==> m <= y;
    m
  }

  /** sorted(): the keys, strictly ascending. */
  function Sorted(s: set<int>): (r: seq<int>)
    ensures forall k :: k in r <==> k in s
    ensures forall i, j :: 0 <= i < j < |r| ==> r[i] < r[j]
  {
    if s == {} then [] else [Least(s)] + Sorted(s - {Least(s)})
  }

  function FlatPairs<V>(keys: seq<int>, entries: map<int, V>): (r: seq<(int, V)>)
    requires forall i :: 0 <= i < |keys| ==> keys[i] in entries
    ensures |r| == |keys| && forall i :: 0 <= i < |keys| ==> r[i] == (keys[i], entries[keys[i]])
  {
    seq(|keys|, i requires 0 <= i < |keys| => (keys[i], entries[keys[i]]))
  }

  /** The entries as one node, its keys ascending. */
  function Write<V>(entries: map<int, V>): (t: Tree<V>)
    ensures t.kids == [] && forall i, j :: 0 <= i < j < |t.nums| ==> t.nums[i].0 < t.nums[j].0
  {
    Node(FlatPairs(Sorted(entries.Keys), entries), [])
  }

  /** What is written reads back as what was written. */
  lemma ReadWritten<V(!new)>(entries: map<int, V>)
    ensures Read(Write(entries)) == entries
  {
    var pairs := Write(entries).nums;
    forall key ensures key in FromPairs(pairs) <==> key in entries
               ensures key in entries ==> FromPairs(pairs)[key] == entries[key] {
      if key in entries {
        var i :| 0 <= i < |pairs| && Sorted(entries.Keys)[i] == key;
        assert pairs[i] == (key, entries[key]);
        FromPairsFindsEveryPair(pairs, key, entries[key]);
      } else {
        if key in FromPairs(pairs) {
          FromPairsFindsEveryPair(pairs, key, FromPairs(pairs)[key]);
        }
      }
    }
  }

  /** A tree of any nesting, read, written flat and read again, gives the entries it gave. */
  lemma RoundTrip<V(!new)>(t: Tree<V>)
    ensures Read(Write(Read(t))) == Read(t)
    ensures forall i, j :: 0 <= i < j < |Pairs(Write(Read(t)))| ==>
      Pairs(Write(Read(t)))[i].0 < Pairs(Write(Read(t)))[j].0
  {
    ReadWritten(Read(t));
    assert Pairs(Write(Read(t))) == Write(Read(t)).nums;
  }

  /** One past the greatest key, and 0 where there is none. */
  function NextKey<V>(entries: map<int, V>): (next: int)
    ensures forall k :: k in entries ==> k < next
    ensures if entries == map[] then next == 0 else next - 1 in entries
  {
    var keys := Sorted(entries.Keys);
    if keys == [] then
      assert entries.Keys == {} by { assert forall k :: k in entries.Keys ==> k in keys; }
      0
    else
      assert keys[|keys| - 1] in keys;
      assert forall k :: k in entries ==> k in keys;
      keys[|keys| - 1] + 1
  }

  lemma NextKeyIsNonNegative<V>(entries: map<int, V>)
    requires forall k :: k in entries ==> k >= 0
    ensures NextKey(entries) >= 0
  {
    if entries != map[] {
      assert NextKey(entries) - 1 in entries;
    }
  }
}
