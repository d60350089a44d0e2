/** Stable sorting (`sort_by_key`) and ordered traversal of a key set (`BTreeMap::values`). */
module Sorting {
  import opened Primitives
  import opened Types

  /** Insert after every element that is not greater, which keeps equal keys in input order. */
  function Insert<T>(less: (T, T) -> bool, s: seq<T>, x: T): (r: seq<T>)
    ensures |r| == |s| + 1
  {
    if |s| == 0 || !less(x, s[|s| - 1]) then s + [x]
    else Insert(less, s[..|s| - 1], x) + [s[|s| - 1]]
  }

  function SortBy<T>(less: (T, T) -> bool, s: seq<T>): (r: seq<T>)
    ensures |r| == |s|
  {
    if |s| == 0 then [] else Insert(less, SortBy(less, s[..|s| - 1]), s[|s| - 1])
  }

  ghost predicate Ordered<T>(less: (T, T) -> bool, s: seq<T>) {
    forall i, j :: 0 <= i < j < |s| ==> !less(s[j], s[i])
  }

  lemma {:induction false} InsertMultiset<T>(less: (T, T) -> bool, s: seq<T>, x: T)
    ensures multiset(Insert(less, s, x)) == multiset(s) + multiset{x}
  {
    if |s| > 0 && less(x, s[|s| - 1]) {
      InsertMultiset(less, s[..|s| - 1], x);
      assert s == s[..|s| - 1] + [s[|s| - 1]];
    }
  }

  lemma {:induction false} SortMultiset<T>(less: (T, T) -> bool, s: seq<T>)
    ensures multiset(SortBy(less, s)) == multiset(s)
  {
    if |s| > 0 {
      SortMultiset(less, s[..|s| - 1]);
      InsertMultiset(less, SortBy(less, s[..|s| - 1]), s[|s| - 1]);
      assert s == s[..|s| - 1] + [s[|s| - 1]];
    }
  }

  lemma SortMembers<T>(less: (T, T) -> bool, s: seq<T>)
    ensures forall x :: x in SortBy(less, s) <==> x in s
  {
    SortMultiset(less, s);
    forall x ensures x in SortBy(less, s) <==> x in s {
      assert x in SortBy(less, s) <==> x in multiset(SortBy(less, s));
      assert x in s <==> x in multiset(s);
    }
  }

  lemma InsertLast<T>(less: (T, T) -> bool, s: seq<T>, x: T)
    requires |s| == 0 || !less(x, s[|s| - 1])
    ensures Insert(less, s, x) == s + [x]
  {
  }

  lemma OrderedInit<T>(less: (T, T) -> bool, s: seq<T>)
    requires Ordered(less, s) && |s| > 0
    ensures Ordered(less, s[..|s| - 1]) && (|s| > 1 ==> !less(s[|s| - 1], s[|s| - 2]))
  {
  }

  /** Sorting an ordered list is a no-op. */
  lemma {:induction false} SortOrdered<T>(less: (T, T) -> bool, s: seq<T>)
    requires Ordered(less, s)
    ensures SortBy(less, s) == s
    decreases |s|
  {
    hide Ordered, Insert;
    if |s| > 0 {
      var init, last := s[..|s| - 1], s[|s| - 1];
      OrderedInit(less, s);
      SortOrdered(less, init);
      InsertLast(less, init, last);
      assert s == init + [last];
    }
  }

  /** A strict weak order, as `Ord` on a key gives. */
  ghost predicate WeakOrder<T(!new)>(less: (T, T) -> bool) {
    (forall x, y :: less(x, y) ==> !less(y, x)) &&
    (forall x, y, z :: less(x, z) ==> less(x, y) || less(y, z))
  }

  lemma {:induction false} InsertOrdered<T(!new)>(less: (T, T) -> bool, s: seq<T>, x: T)
    requires WeakOrder(less) && Ordered(less, s)
    ensures Ordered(less, Insert(less, s, x))
  {
    if |s| > 0 && less(x, s[|s| - 1]) {
      var init, last := s[..|s| - 1], s[|s| - 1];
      InsertOrdered(less, init, x);
      var r := Insert(less, init, x);
      InsertMultiset(less, init, x);
      forall i | 0 <= i < |r| ensures !less(last, r[i]) {
        assert r[i] in multiset(r);
        if r[i] != x {
          assert r[i] in multiset(init);
          assert r[i] in init;
        }
      }
    }
  }

  lemma {:induction false} SortIsOrdered<T(!new)>(less: (T, T) -> bool, s: seq<T>)
    requires WeakOrder(less)
    ensures Ordered(less, SortBy(less, s))
  {
    if |s| > 0 {
      SortIsOrdered(less, s[..|s| - 1]);
      InsertOrdered(less, SortBy(less, s[..|s| - 1]), s[|s| - 1]);
    }
  }

  // ---------- keys of a BTreeMap ----------

  ghost predicate Ascending(s: seq<Hash32>) {
    forall i, j :: 0 <= i < j < |s| ==> LexLess(s[i], s[j])
  }

  predicate IsLeast(k: Hash32, s: set<Hash32>) {
    k in s && forall j :: j in s && j != k ==> LexLess(k, j)
  }

  lemma {:induction false} LeastExists(s: set<Hash32>)
    requires s != {}
    ensures exists k: Hash32 :: IsLeast(k, s)
    ensures forall a: Hash32, b: Hash32 :: IsLeast(a, s) && IsLeast(b, s) ==> a == b
  {
    forall a: Hash32, b: Hash32 | IsLeast(a, s) && IsLeast(b, s) ensures a == b {
      if a != b { LexAsymmetric(a, b); }
    }
    var x: Hash32 :| x in s;
    if s == {x} {
      assert IsLeast(x, s);
    } else {
      var rest := s - {x};
      LeastExists(rest);
      var k: Hash32 :| IsLeast(k, rest);
      LexTotal(k, x);
      if LexLess(k, x) {
        assert IsLeast(k, s);
      } else {
        forall j: Hash32 | j in s && j != x ensures LexLess(x, j) {
          if j != k { LexTransitive(x, k, j); }
        }
        assert IsLeast(x, s);
      }
    }
  }

  /** The keys of a `BTreeMap`, in its iteration order. */
  function KeysInOrder(s: set<Hash32>): (r: seq<Hash32>)
    ensures |r| == |s|
    ensures forall k :: k in r <==> k in s
    ensures Ascending(r)
    decreases |s|
  {
    if s == {} then []
    else
      LeastExists(s);
      var k: Hash32 :| IsLeast(k, s);
      var rest := KeysInOrder(s - {k});
      assert forall j :: 0 <= j < |rest| ==> rest[j] in s - {k};
      [k] + rest
  }
}
