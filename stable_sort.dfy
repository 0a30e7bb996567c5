/** A stable insertion sort driven by a three-way comparator, the model of the built-in array
    sort with a comparator callback. Only the sign of the comparator matters. A ghost `key`
    function names what the comparator looks at: two elements compare equal exactly when
    their keys agree, and stability is stated per key class. */
module StableSort {

  /** The comparator is a consistent total preorder whose zero classes are the key classes. */
  ghost predicate Consistent<T(!new), K>(cmp: (T, T) -> int, key: T -> K) {
    && (forall a, b :: cmp(a, b) == 0 <==> key(a) == key(b))
    && (forall a, b :: cmp(b, a) == -cmp(a, b))
    && (forall a, b, c :: cmp(a, b) <= 0 && cmp(b, c) <= 0 ==> cmp(a, c) <= 0)
  }

  /** Every pair of positions is in comparator order. */
  ghost predicate Sorted<T>(s: seq<T>, cmp: (T, T) -> int) {
    forall i, j :: 0 <= i < j < |s| ==> cmp(s[i], s[j]) <= 0
  }

  /** The elements of `s` whose key is `k`, in their order in `s`. */
  function WithKey<T, K(==)>(s: seq<T>, key: T -> K, k: K): (r: seq<T>)
    ensures |r| <= |s|
  {
    if s == [] then []
    else (if key(s[0]) == k then [s[0]] else []) + WithKey(s[1..], key, k)
  }

  /** The key class of `k` holds exactly the elements of `s` with key `k`. */
  lemma {:induction false} WithKeyMember<T, K>(s: seq<T>, key: T -> K, k: K, x: T)
    ensures x in WithKey(s, key, k) <==> x in s && key(x) == k
  {
    if s != [] {
      WithKeyMember(s[1..], key, k, x);
      assert x in s <==> x == s[0] || x in s[1..];
    }
  }

  /** Inserts `x` into `s` in front of the first element that `x` does not sort after. */
  function Insert<T>(x: T, s: seq<T>, cmp: (T, T) -> int): (r: seq<T>)
    ensures |r| == |s| + 1
  {
    if s == [] then [x]
    else if cmp(x, s[0]) <= 0 then [x] + s
    else [s[0]] + Insert(x, s[1..], cmp)
  }

  /** Sorts `s` by inserting its first element into the sorted rest. */
  function Sort<T>(s: seq<T>, cmp: (T, T) -> int): (r: seq<T>)
    ensures |r| == |s|
  {
    if s == [] then []
    else Insert(s[0], Sort(s[1..], cmp), cmp)
  }

  // ---------------------------------------------------------------- evaluation steps

  lemma SortCons<T>(x: T, s: seq<T>, cmp: (T, T) -> int)
    ensures Sort([x] + s, cmp) == Insert(x, Sort(s, cmp), cmp)
  {
    assert ([x] + s)[0] == x && ([x] + s)[1..] == s;
  }

  lemma InsertAfter<T>(x: T, y: T, s: seq<T>, cmp: (T, T) -> int)
    requires cmp(x, y) > 0
    ensures Insert(x, [y] + s, cmp) == [y] + Insert(x, s, cmp)
  {
    assert ([y] + s)[0] == y && ([y] + s)[1..] == s;
  }

  lemma InsertBefore<T>(x: T, y: T, s: seq<T>, cmp: (T, T) -> int)
    requires cmp(x, y) <= 0
    ensures Insert(x, [y] + s, cmp) == [x, y] + s
  {
    assert ([y] + s)[0] == y;
  }

  // ---------------------------------------------------------------- permutation

  /** Inserting adds exactly one copy of `x`. */
  lemma {:induction false} InsertPermutation<T>(x: T, s: seq<T>, cmp: (T, T) -> int)
    ensures multiset(Insert(x, s, cmp)) == multiset(s) + multiset{x}
  {
    if s == [] {
    } else if cmp(x, s[0]) <= 0 {
      assert Insert(x, s, cmp) == [x] + s;
    } else {
      assert s == [s[0]] + s[1..];
      InsertAfter(x, s[0], s[1..], cmp);
      calc {
        multiset(Insert(x, s, cmp));
        multiset([s[0]] + Insert(x, s[1..], cmp));
        multiset{s[0]} + multiset(Insert(x, s[1..], cmp));
        { InsertPermutation(x, s[1..], cmp); }
        multiset{s[0]} + multiset(s[1..]) + multiset{x};
        multiset([s[0]] + s[1..]) + multiset{x};
      }
    }
  }

  /** The result is a permutation of the input. */
  lemma {:induction false} SortPermutation<T>(s: seq<T>, cmp: (T, T) -> int)
    ensures multiset(Sort(s, cmp)) == multiset(s)
  {
    if s != [] {
      SortPermutation(s[1..], cmp);
      InsertPermutation(s[0], Sort(s[1..], cmp), cmp);
      assert s == [s[0]] + s[1..];
    }
  }

  // ---------------------------------------------------------------- sortedness

  /** Prepending an element that sorts no later than every element keeps a sequence sorted. */
  lemma ConsSorted<T>(y: T, t: seq<T>, cmp: (T, T) -> int)
    requires Sorted(t, cmp)
    requires forall z :: z in t ==> cmp(y, z) <= 0
    ensures Sorted([y] + t, cmp)
  {
    var r := [y] + t;
    forall i, j | 0 <= i < j < |r| ensures cmp(r[i], r[j]) <= 0 {
      assert r[j] == t[j - 1];
      if i > 0 {
        assert r[i] == t[i - 1];
      }
    }
  }

  /** Every element of `Insert(x, s)` is `x` or an element of `s`. */
  lemma InsertElements<T>(x: T, s: seq<T>, cmp: (T, T) -> int)
    ensures forall z :: z in Insert(x, s, cmp) ==> z == x || z in s
  {
    InsertPermutation(x, s, cmp);
    forall z | z in Insert(x, s, cmp) ensures z == x || z in s {
      assert z in multiset(Insert(x, s, cmp));
    }
  }

  lemma {:induction false} InsertSorted<T(!new), K>(x: T, s: seq<T>, cmp: (T, T) -> int, key: T -> K)
    requires Consistent(cmp, key) && Sorted(s, cmp)
    ensures Sorted(Insert(x, s, cmp), cmp)
  {
    if s == [] {
    } else if cmp(x, s[0]) <= 0 {
      forall z | z in s ensures cmp(x, z) <= 0 {
        SortedHeadFirst(s, z, cmp, key);
      }
      ConsSorted(x, s, cmp);
    } else {
      var y, t := s[0], Insert(x, s[1..], cmp);
      SortedTail(s, cmp);
      InsertSorted(x, s[1..], cmp, key);
      InsertElements(x, s[1..], cmp);
      forall z | z in t ensures cmp(y, z) <= 0 {
        if z != x {
          SortedHeadFirst(s, z, cmp, key);
        }
      }
      ConsSorted(y, t, cmp);
    }
  }

  /** The result is in comparator order. */
  lemma {:induction false} SortSorted<T(!new), K>(s: seq<T>, cmp: (T, T) -> int, key: T -> K)
    requires Consistent(cmp, key)
    ensures Sorted(Sort(s, cmp), cmp)
  {
    if s != [] {
      SortSorted(s[1..], cmp, key);
      InsertSorted(s[0], Sort(s[1..], cmp), cmp, key);
    }
  }

  // ---------------------------------------------------------------- stability

  lemma WithKeyCons<T, K>(y: T, t: seq<T>, key: T -> K, k: K)
    ensures WithKey([y] + t, key, k) == (if key(y) == k then [y] else []) + WithKey(t, key, k)
  {
    assert ([y] + t)[0] == y && ([y] + t)[1..] == t;
  }

  lemma {:induction false} WithKeyAppend<T, K>(a: seq<T>, b: seq<T>, key: T -> K, k: K)
    ensures WithKey(a + b, key, k) == WithKey(a, key, k) + WithKey(b, key, k)
  {
    if a == [] {
      assert a + b == b;
    } else {
      var c := a + b;
      assert c[0] == a[0] && c[1..] == a[1..] + b;
      WithKeyAppend(a[1..], b, key, k);
      var h := if key(a[0]) == k then [a[0]] else [];
      assert WithKey(c, key, k) == h + (WithKey(a[1..], key, k) + WithKey(b, key, k));
      assert WithKey(a, key, k) == h + WithKey(a[1..], key, k);
    }
  }

  lemma {:induction false} WithKeyNone<T, K>(s: seq<T>, key: T -> K, k: K)
    requires forall x :: x in s ==> key(x) != k
    ensures WithKey(s, key, k) == []
  {
    if s != [] {
      assert s[0] in s;
      assert forall x :: x in s[1..] ==> x in s;
      WithKeyNone(s[1..], key, k);
    }
  }

  /** Inserting `x` puts it in front of the elements with its own key and leaves the relative
      order of every key class unchanged. */
  lemma {:induction false} InsertWithKey<T(!new), K>(x: T, s: seq<T>, cmp: (T, T) -> int, key: T -> K, k: K)
    requires Consistent(cmp, key)
    ensures WithKey(Insert(x, s, cmp), key, k) == (if key(x) == k then [x] else []) + WithKey(s, key, k)
  {
    if s == [] {
      WithKeyCons(x, [], key, k);
    } else if cmp(x, s[0]) <= 0 {
      WithKeyCons(x, s, key, k);
    } else {
      assert key(x) != key(s[0]);
      InsertWithKey(x, s[1..], cmp, key, k);
      WithKeyCons(s[0], Insert(x, s[1..], cmp), key, k);
      WithKeyCons(s[0], s[1..], key, k);
      assert s == [s[0]] + s[1..];
    }
  }

  /** Stability: elements that compare equal keep the relative order they had in the input. */
  lemma {:induction false} SortStable<T(!new), K>(s: seq<T>, cmp: (T, T) -> int, key: T -> K, k: K)
    requires Consistent(cmp, key)
    ensures WithKey(Sort(s, cmp), key, k) == WithKey(s, key, k)
  {
    if s != [] {
      SortStable(s[1..], cmp, key, k);
      InsertWithKey(s[0], Sort(s[1..], cmp), cmp, key, k);
      WithKeyCons(s[0], s[1..], key, k);
      assert s == [s[0]] + s[1..];
    }
  }

  // ---------------------------------------------------------------- uniqueness

  /** The first element of a sorted sequence sorts no later than any of its elements. */
  lemma SortedHeadFirst<T(!new), K>(u: seq<T>, x: T, cmp: (T, T) -> int, key: T -> K)
    requires Consistent(cmp, key) && Sorted(u, cmp) && x in u
    ensures cmp(u[0], x) <= 0
  {
    var j :| 0 <= j < |u| && u[j] == x;
    if j == 0 {
      assert key(x) == key(x);
    }
  }

  lemma SortedTail<T>(s: seq<T>, cmp: (T, T) -> int)
    requires s != [] && Sorted(s, cmp)
    ensures Sorted(s[1..], cmp)
  {
    forall i, j | 0 <= i < j < |s[1..]| ensures cmp(s[1..][i], s[1..][j]) <= 0 {
      assert s[1..][i] == s[i + 1] && s[1..][j] == s[j + 1];
    }
  }

  /** The first element of a non-empty sequence heads its own key class. */
  lemma HeadOfClass<T, K>(s: seq<T>, key: T -> K)
    requires s != []
    ensures WithKey(s, key, key(s[0])) != [] && WithKey(s, key, key(s[0]))[0] == s[0]
  {
    assert WithKey(s, key, key(s[0])) == [s[0]] + WithKey(s[1..], key, key(s[0]));
  }

  /** Two sorted sequences with the same key classes start with the same element. */
  lemma SameHead<T(!new), K>(t: seq<T>, u: seq<T>, cmp: (T, T) -> int, key: T -> K)
    requires Consistent(cmp, key) && t != [] && u != []
    requires Sorted(t, cmp) && Sorted(u, cmp)
    requires WithKey(t, key, key(t[0])) == WithKey(u, key, key(t[0]))
    requires WithKey(t, key, key(u[0])) == WithKey(u, key, key(u[0]))
    ensures t[0] == u[0]
  {
    var kt, ku := key(t[0]), key(u[0]);
    if kt != ku {
      WithKeyMember(t, key, kt, t[0]);
      WithKeyMember(u, key, kt, t[0]);
      WithKeyMember(u, key, ku, u[0]);
      WithKeyMember(t, key, ku, u[0]);
      SortedHeadFirst(u, t[0], cmp, key);
      SortedHeadFirst(t, u[0], cmp, key);
      assert false;
    }
    HeadOfClass(t, key);
    HeadOfClass(u, key);
  }

  /** Two sequences with the same first element and the same class for `k` have tails with the
      same class for `k`. */
  lemma SameTailClass<T, K>(t: seq<T>, u: seq<T>, key: T -> K, k: K)
    requires t != [] && u != [] && t[0] == u[0]
    requires WithKey(t, key, k) == WithKey(u, key, k)
    ensures WithKey(t[1..], key, k) == WithKey(u[1..], key, k)
  {
    var a, b := WithKey(t[1..], key, k), WithKey(u[1..], key, k);
    if key(t[0]) == k {
      assert WithKey(t, key, k) == [t[0]] + a;
      assert WithKey(u, key, k) == [t[0]] + b;
      assert a == ([t[0]] + a)[1..];
      assert b == ([t[0]] + b)[1..];
    } else {
      assert WithKey(t, key, k) == a;
      assert WithKey(u, key, k) == b;
    }
  }

  /** Sequences with the same key classes are both empty or both non-empty. */
  lemma SameClassesEmpty<T, K>(t: seq<T>, u: seq<T>, key: T -> K)
    requires forall k :: WithKey(t, key, k) == WithKey(u, key, k)
    ensures t == [] <==> u == []
  {
    if u != [] {
      HeadOfClass(u, key);
      assert WithKey(t, key, key(u[0])) != [];
    }
    if t != [] {
      HeadOfClass(t, key);
      assert WithKey(u, key, key(t[0])) != [];
    }
  }

  /** Two sequences that are both in comparator order and agree on the order of every key
      class are the same sequence. */
  lemma {:induction false} SortedStableUnique<T(!new), K>(t: seq<T>, u: seq<T>, cmp: (T, T) -> int, key: T -> K)
    requires Consistent(cmp, key) && Sorted(t, cmp) && Sorted(u, cmp)
    requires forall k :: WithKey(t, key, k) == WithKey(u, key, k)
    ensures t == u
    decreases |t|
  {
    SameClassesEmpty(t, u, key);
    if t != [] {
      assert WithKey(t, key, key(t[0])) == WithKey(u, key, key(t[0]));
      assert WithKey(t, key, key(u[0])) == WithKey(u, key, key(u[0]));
      SameHead(t, u, cmp, key);
      forall k ensures WithKey(t[1..], key, k) == WithKey(u[1..], key, k) {
        SameTailClass(t, u, key, k);
      }
      SortedTail(t, cmp);
      SortedTail(u, cmp);
      SortedStableUnique(t[1..], u[1..], cmp, key);
      assert t == [t[0]] + t[1..] && u == [u[0]] + u[1..];
    }
  }

  /** The sort result is the only sequence that is in comparator order and keeps every key
      class in input order. */
  lemma SortUnique<T(!new), K>(s: seq<T>, r: seq<T>, cmp: (T, T) -> int, key: T -> K)
    requires Consistent(cmp, key) && Sorted(r, cmp)
    requires forall k :: WithKey(r, key, k) == WithKey(s, key, k)
    ensures r == Sort(s, cmp)
  {
    var sorted := Sort(s, cmp);
    SortSorted(s, cmp, key);
    forall k ensures WithKey(r, key, k) == WithKey(sorted, key, k) {
      SortStable(s, cmp, key, k);
    }
    SortedStableUnique(r, sorted, cmp, key);
  }

  // ---------------------------------------------------------------- flipped comparators

  /** `s` back to front. */
  function Reverse<T>(s: seq<T>): (r: seq<T>)
    ensures |r| == |s|
    ensures forall i :: 0 <= i < |s| ==> r[i] == s[|s| - 1 - i]
  {
    if s == [] then [] else Reverse(s[1..]) + [s[0]]
  }

  lemma {:induction false} ReverseAppend<T>(a: seq<T>, b: seq<T>)
    ensures Reverse(a + b) == Reverse(b) + Reverse(a)
  {
    var c := a + b;
    assert |Reverse(c)| == |Reverse(b) + Reverse(a)|;
    forall i | 0 <= i < |c| ensures Reverse(c)[i] == (Reverse(b) + Reverse(a))[i] {
      if i < |b| {
        assert Reverse(c)[i] == b[|b| - 1 - i];
      } else {
        assert Reverse(c)[i] == a[|c| - 1 - i];
      }
    }
  }

  /** The key classes of a reversed sequence are the reversed key classes. */
  lemma {:induction false} WithKeyReverse<T, K>(s: seq<T>, key: T -> K, k: K)
    ensures WithKey(Reverse(s), key, k) == Reverse(WithKey(s, key, k))
  {
    if s != [] {
      var h := if key(s[0]) == k then [s[0]] else [];
      var w := WithKey(s[1..], key, k);
      WithKeyReverse(s[1..], key, k);
      WithKeyAppend(Reverse(s[1..]), [s[0]], key, k);
      WithKeyCons(s[0], [], key, k);
      assert WithKey([s[0]], key, k) == h;
      ReverseAppend(h, w);
      assert Reverse(h) == h;
      assert WithKey(s, key, k) == h + w;
    }
  }

  /** When no two elements of `s` share a key, every key class has at most one element. */
  lemma {:induction false} DistinctKeysClasses<T, K>(s: seq<T>, key: T -> K, k: K)
    requires forall i, j :: 0 <= i < j < |s| ==> key(s[i]) != key(s[j])
    ensures |WithKey(s, key, k)| <= 1
  {
    if s != [] {
      var t := s[1..];
      assert forall i, j :: 0 <= i < j < |t| ==> key(t[i]) != key(t[j]) by {
        forall i, j | 0 <= i < j < |t| ensures key(t[i]) != key(t[j]) {
          assert t[i] == s[i + 1] && t[j] == s[j + 1];
        }
      }
      if key(s[0]) == k {
        forall x | x in t ensures key(x) != k {
          var j :| 0 <= j < |t| && t[j] == x;
          assert s[j + 1] == x;
        }
        WithKeyNone(t, key, k);
      } else {
        DistinctKeysClasses(t, key, k);
      }
    }
  }

  /** Reading a sorted sequence back to front gives a sequence sorted by the flipped comparator. */
  lemma ReverseSortedFlipped<T>(t: seq<T>, cmp: (T, T) -> int, flipped: (T, T) -> int)
    requires Sorted(t, cmp)
    requires forall a, b :: flipped(a, b) == cmp(b, a)
    ensures Sorted(Reverse(t), flipped)
  {
    var r := Reverse(t);
    forall i, j | 0 <= i < j < |r| ensures flipped(r[i], r[j]) <= 0 {
      assert r[i] == t[|t| - 1 - i] && r[j] == t[|t| - 1 - j];
    }
  }

  /** Reversing keeps a key class that has at most one element. */
  lemma ReverseSmallClass<T, K>(t: seq<T>, s: seq<T>, key: T -> K, k: K)
    requires WithKey(t, key, k) == WithKey(s, key, k) && |WithKey(s, key, k)| <= 1
    ensures WithKey(Reverse(t), key, k) == WithKey(s, key, k)
  {
    WithKeyReverse(t, key, k);
    var w := WithKey(s, key, k);
    assert Reverse(w) == w;
  }

  /** Sorting with the flipped comparator gives the reversed result when every key class has at
      most one element. Elements that compare equal keep their input order in both directions,
      so the restriction cannot be dropped. */
  lemma SortFlippedIsReversed<T(!new), K>(s: seq<T>, cmp: (T, T) -> int, flipped: (T, T) -> int, key: T -> K)
    requires Consistent(cmp, key) && Consistent(flipped, key)
    requires forall a, b :: flipped(a, b) == cmp(b, a)
    requires forall k :: |WithKey(s, key, k)| <= 1
    ensures Sort(s, flipped) == Reverse(Sort(s, cmp))
  {
    var t := Sort(s, cmp);
    SortSorted(s, cmp, key);
    ReverseSortedFlipped(t, cmp, flipped);
    forall k ensures WithKey(Reverse(t), key, k) == WithKey(s, key, k) {
      SortStable(s, cmp, key, k);
      ReverseSmallClass(t, s, key, k);
    }
    SortUnique(s, Reverse(t), flipped, key);
  }

  /** A comparator that calls every pair equal leaves the input as it is. */
  lemma {:induction false} SortAllEqualKeepsOrder<T>(s: seq<T>, cmp: (T, T) -> int)
    requires forall a, b :: cmp(a, b) == 0
    ensures Sort(s, cmp) == s
  {
    if s != [] {
      SortAllEqualKeepsOrder(s[1..], cmp);
      assert s == [s[0]] + s[1..];
    }
  }
}
