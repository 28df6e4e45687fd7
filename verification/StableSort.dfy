/** Python's sorted() and list.sort() with a key: by the key, and in the old order where
keys are the same. Both tools put their records in the order of time with it.
*/
module StableSort {
  // In front of what is later, behind what is earlier or at the same time.
  function Insert<T>(sorted: seq<T>, x: T, key: T -> real): seq<T> {
    if sorted == [] || key(sorted[|sorted| - 1]) <= key(x) then sorted + [x]
    else Insert(sorted[..|sorted| - 1], x, key) + [sorted[|sorted| - 1]]
  }

  function Sort<T>(s: seq<T>, key: T -> real): seq<T> {
    if s == [] then [] else Insert(Sort(s[..|s| - 1], key), s[|s| - 1], key)
  }

  predicate InOrder<T>(s: seq<T>, key: T -> real) {
    forall i, j :: 0 <= i < j < |s| ==> key(s[i]) <= key(s[j])
  }

  lemma {:induction false} InsertAdds<T>(sorted: seq<T>, x: T, key: T -> real)
    ensures multiset(Insert(sorted, x, key)) == multiset(sorted) + multiset{x}
  {
    if sorted == [] || key(sorted[|sorted| - 1]) <= key(x) {
    } else {
      var init, last := sorted[..|sorted| - 1], sorted[|sorted| - 1];
      InsertAdds(init, x, key);
      assert sorted == init + [last];
    }
  }

  lemma {:induction false} InsertKeepsOrder<T>(sorted: seq<T>, x: T, key: T -> real)
    requires InOrder(sorted, key)
    ensures InOrder(Insert(sorted, x, key), key)
  {
    if sorted == [] || key(sorted[|sorted| - 1]) <= key(x) {
    } else {
      var init, last := sorted[..|sorted| - 1], sorted[|sorted| - 1];
      var inserted := Insert(init, x, key);
      InsertKeepsOrder(init, x, key);
      InsertAdds(init, x, key);
      forall i | 0 <= i < |inserted|
        ensures key(inserted[i]) <= key(last)
      {
        assert inserted[i] in multiset(inserted);
      }
    }
  }

  /** The same elements, in order. */
  lemma {:induction false} SortSorts<T>(s: seq<T>, key: T -> real)
    ensures multiset(Sort(s, key)) == multiset(s) && InOrder(Sort(s, key), key)
  {
    if s == [] {
    } else {
      var init, x := s[..|s| - 1], s[|s| - 1];
      SortSorts(init, key);
      InsertAdds(Sort(init, key), x, key);
      InsertKeepsOrder(Sort(init, key), x, key);
      assert s == init + [x];
    }
  }

  /** What is in order already stays as it is. */
  lemma {:induction false} SortedStays<T>(s: seq<T>, key: T -> real)
    requires InOrder(s, key)
    ensures Sort(s, key) == s
  {
    if s == [] {
    } else {
      SortedStays(s[..|s| - 1], key);
      assert s == s[..|s| - 1] + [s[|s| - 1]];
    }
  }

  // ---------------------------------------------------------------------------
  // Keys that tell
  // ---------------------------------------------------------------------------

  // No two different elements have the same key.
  ghost predicate KeysTell<T(!new)>(s: seq<T>, key: T -> real) {
    forall x, y :: x in s && y in s && key(x) == key(y) ==> x == y
  }

  lemma LastIsLatest<T>(s: seq<T>, x: T, key: T -> real)
    requires InOrder(s, key) && x in multiset(s)
    ensures s != [] && key(x) <= key(s[|s| - 1])
  {
    var i :| 0 <= i < |s| && s[i] == x;
  }

  lemma DropLast<T>(s: seq<T>)
    requires s != []
    ensures multiset(s[..|s| - 1]) == multiset(s) - multiset{s[|s| - 1]}
  {
    assert s == s[..|s| - 1] + [s[|s| - 1]];
  }

  lemma SameSize<T>(a: seq<T>, b: seq<T>)
    requires multiset(a) == multiset(b)
    ensures |a| == |b|
  {
    assert |a| == |multiset(a)| && |b| == |multiset(b)|;
  }

  lemma SortedPrefix<T(!new)>(s: seq<T>, key: T -> real)
    requires s != []
    ensures InOrder(s, key) ==> InOrder(s[..|s| - 1], key)
    ensures KeysTell(s, key) ==> KeysTell(s[..|s| - 1], key)
  {
    assert forall x :: x in s[..|s| - 1] ==> x in s;
  }

  // The latest element is the same on both sides.
  lemma LastsAgree<T(!new)>(a: seq<T>, b: seq<T>, key: T -> real)
    requires a != [] && multiset(a) == multiset(b) && InOrder(a, key) && InOrder(b, key) && KeysTell(a, key)
    ensures b != [] && a[|a| - 1] == b[|b| - 1]
  {
    SameSize(a, b);
    hide InOrder;
    var x, y := a[|a| - 1], b[|b| - 1];
    assert x in multiset(a) && y in multiset(b);
    LastIsLatest(a, y, key);
    LastIsLatest(b, x, key);
    assert y in multiset(a) && y in a && x in a;
  }

  lemma {:induction false} OrderIsUnique<T(!new)>(a: seq<T>, b: seq<T>, key: T -> real)
    requires multiset(a) == multiset(b) && InOrder(a, key) && InOrder(b, key) && KeysTell(a, key)
    ensures a == b
  {
    hide InOrder, KeysTell;
    SameSize(a, b);
    if a == [] {
    } else {
      LastsAgree(a, b, key);
      DropLast(a);
      DropLast(b);
      SortedPrefix(a, key);
      SortedPrefix(b, key);
      OrderIsUnique(a[..|a| - 1], b[..|b| - 1], key);
      WithLast(a);
      WithLast(b);
    }
  }

  lemma WithLast<T>(s: seq<T>)
    requires s != []
    ensures s == s[..|s| - 1] + [s[|s| - 1]]
  {}

  /** Where keys tell the elements apart, the old order is forgotten. */
  lemma OrderIsForgotten<T(!new)>(a: seq<T>, b: seq<T>, key: T -> real)
    requires multiset(a) == multiset(b) && KeysTell(a, key)
    ensures Sort(a, key) == Sort(b, key)
  {
    SortSorts(a, key);
    SortSorts(b, key);
    forall x | x in Sort(a, key)
      ensures x in a
    {
      assert x in multiset(Sort(a, key));
    }
    OrderIsUnique(Sort(a, key), Sort(b, key), key);
  }
}
