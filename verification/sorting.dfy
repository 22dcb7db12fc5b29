/**
 * A stable sort by an integer key, in either direction: the shape of
 * `Collections.sort` with a comparator that compares one integer score,
 * non-increasing or non-decreasing.
 */
module StableSort {

  /** `a` may stand before `b`: a key at least as good in the chosen direction. */
  predicate Precedes(ka: int, kb: int, descending: bool)
  {
    if descending then ka >= kb else ka <= kb
  }

  /** Every element stands no worse than every later one. */
  predicate Ordered<T>(xs: seq<T>, key: T -> int, descending: bool)
  {
    forall i, j :: 0 <= i < j < |xs| ==> Precedes(key(xs[i]), key(xs[j]), descending)
  }

  /** The elements whose key is `k`, in their order. */
  function WithKey<T>(xs: seq<T>, key: T -> int, k: int): (ys: seq<T>)
    ensures |ys| <= |xs|
    ensures forall y :: y in ys ==> y in xs && key(y) == k
  {
    if |xs| == 0 then []
    else (if key(xs[0]) == k then [xs[0]] else []) + WithKey(xs[1..], key, k)
  }

  /** Inserts `x` after every element that may stand before it. */
  function Insert<T>(x: T, xs: seq<T>, key: T -> int, descending: bool): (ys: seq<T>)
    ensures multiset(ys) == multiset(xs) + multiset{x}
  {
    if |xs| == 0 then [x]
    else
      assert xs == [xs[0]] + xs[1..];
      if Precedes(key(xs[0]), key(x), descending) then [xs[0]] + Insert(x, xs[1..], key, descending)
      else [x] + xs
  }

  /** Insertion sort, each element inserted in input order. */
  function Sort<T>(xs: seq<T>, key: T -> int, descending: bool): (ys: seq<T>)
    ensures multiset(ys) == multiset(xs)
    decreases |xs|
  {
    if |xs| == 0 then []
    else
      assert xs == xs[..|xs| - 1] + [xs[|xs| - 1]];
      Insert(xs[|xs| - 1], Sort(xs[..|xs| - 1], key, descending), key, descending)
  }

  /** The head of a sorted sequence stands before everything inserted behind it, when it stands before the new element. */
  lemma HeadPrecedesInsert<T>(x: T, xs: seq<T>, key: T -> int, descending: bool)
    requires |xs| > 0 && Ordered(xs, key, descending) && Precedes(key(xs[0]), key(x), descending)
    ensures forall y :: y in Insert(x, xs[1..], key, descending) ==> Precedes(key(xs[0]), key(y), descending)
  {
    var rest := Insert(x, xs[1..], key, descending);
    forall y | y in rest
      ensures Precedes(key(xs[0]), key(y), descending)
    {
      assert y in multiset(rest);
      if y != x {
        assert y in multiset(xs[1..]);
        var m :| 0 <= m < |xs[1..]| && xs[1..][m] == y;
        assert xs[m + 1] == y;
      }
    }
  }

  /** An element that stands before everything in a sorted sequence can head it. */
  lemma ConsOrdered<T>(h: T, rest: seq<T>, key: T -> int, descending: bool)
    requires Ordered(rest, key, descending)
    requires forall y :: y in rest ==> Precedes(key(h), key(y), descending)
    ensures Ordered([h] + rest, key, descending)
  {
    var ys := [h] + rest;
    forall i, j | 0 <= i < j < |ys|
      ensures Precedes(key(ys[i]), key(ys[j]), descending)
    {
      assert ys[j] == rest[j - 1] && ys[j] in rest;
      if i > 0 {
        assert ys[i] == rest[i - 1];
      }
    }
  }

  /** Insertion keeps a sorted sequence sorted. */
  lemma {:induction false} InsertOrdered<T>(x: T, xs: seq<T>, key: T -> int, descending: bool)
    requires Ordered(xs, key, descending)
    ensures Ordered(Insert(x, xs, key, descending), key, descending)
  {
    if |xs| == 0 {
      assert Insert(x, xs, key, descending) == [x];
    } else if Precedes(key(xs[0]), key(x), descending) {
      var rest := Insert(x, xs[1..], key, descending);
      assert Ordered(xs[1..], key, descending);
      InsertOrdered(x, xs[1..], key, descending);
      HeadPrecedesInsert(x, xs, key, descending);
      ConsOrdered(xs[0], rest, key, descending);
      assert Insert(x, xs, key, descending) == [xs[0]] + rest;
    } else {
      forall y | y in xs
        ensures Precedes(key(x), key(y), descending)
      {
        var m :| 0 <= m < |xs| && xs[m] == y;
        assert m == 0 || Precedes(key(xs[0]), key(xs[m]), descending);
      }
      ConsOrdered(x, xs, key, descending);
      assert Insert(x, xs, key, descending) == [x] + xs;
    }
  }

  /** The result of `Sort` is ordered by key. */
  lemma {:induction false} SortOrdered<T>(xs: seq<T>, key: T -> int, descending: bool)
    ensures Ordered(Sort(xs, key, descending), key, descending)
    decreases |xs|
  {
    if |xs| > 0 {
      SortOrdered(xs[..|xs| - 1], key, descending);
      InsertOrdered(xs[|xs| - 1], Sort(xs[..|xs| - 1], key, descending), key, descending);
    }
  }

  lemma {:induction false} WithKeyAppend<T>(a: seq<T>, b: seq<T>, key: T -> int, k: int)
    ensures WithKey(a + b, key, k) == WithKey(a, key, k) + WithKey(b, key, k)
  {
    if |a| == 0 {
      assert a + b == b;
    } else {
      assert (a + b)[0] == a[0];
      assert (a + b)[1..] == a[1..] + b;
      WithKeyAppend(a[1..], b, key, k);
    }
  }

  /**
   * Stability of one insertion into a sorted sequence: `x` lands after
   * every element of equal key, so those keep their order and `x` follows
   * them.
   */
  lemma {:induction false} InsertStable<T>(x: T, xs: seq<T>, key: T -> int, descending: bool, k: int)
    requires Ordered(xs, key, descending)
    ensures WithKey(Insert(x, xs, key, descending), key, k)
            == WithKey(xs, key, k) + (if key(x) == k then [x] else [])
    decreases |xs|, 1
  {
    if |xs| == 0 {
      WithKeyCons(x, [], key, k);
      assert [x] + [] == [x];
    } else if Precedes(key(xs[0]), key(x), descending) {
      InsertStableBehind(x, xs, key, descending, k);
    } else {
      assert Insert(x, xs, key, descending) == [x] + xs;
      InsertStableFront(x, xs, key, descending, k);
    }
  }

  lemma SeqAssoc<T>(a: seq<T>, b: seq<T>, c: seq<T>)
    ensures a + (b + c) == (a + b) + c
  {
  }

  /** Stability when `x` goes behind the head: the head keeps its place and the rest follows by induction. */
  lemma {:induction false} InsertStableBehind<T>(x: T, xs: seq<T>, key: T -> int, descending: bool, k: int)
    requires Ordered(xs, key, descending)
    requires |xs| > 0 && Precedes(key(xs[0]), key(x), descending)
    ensures WithKey(Insert(x, xs, key, descending), key, k)
            == WithKey(xs, key, k) + (if key(x) == k then [x] else [])
    decreases |xs|, 0
  {
    var tail := if key(x) == k then [x] else [];
    var head := if key(xs[0]) == k then [xs[0]] else [];
    var rest := Insert(x, xs[1..], key, descending);
    assert Ordered(xs[1..], key, descending);
    calc {
      WithKey(Insert(x, xs, key, descending), key, k);
      { assert Insert(x, xs, key, descending) == [xs[0]] + rest; }
      WithKey([xs[0]] + rest, key, k);
      { WithKeyCons(xs[0], rest, key, k); }
      head + WithKey(rest, key, k);
      { InsertStable(x, xs[1..], key, descending, k); }
      head + (WithKey(xs[1..], key, k) + tail);
      { SeqAssoc(head, WithKey(xs[1..], key, k), tail); }
      (head + WithKey(xs[1..], key, k)) + tail;
      { WithKeyCons(xs[0], xs[1..], key, k); assert [xs[0]] + xs[1..] == xs; }
      WithKey(xs, key, k) + tail;
    }
  }

  /** `WithKey` of a sequence with a known head. */
  lemma WithKeyCons<T>(y: T, ys: seq<T>, key: T -> int, k: int)
    ensures WithKey([y] + ys, key, k) == (if key(y) == k then [y] else []) + WithKey(ys, key, k)
  {
    assert ([y] + ys)[0] == y;
    assert ([y] + ys)[1..] == ys;
  }

  /** Stability when `x` goes in front: every element after it is strictly worse, so none shares its key. */
  lemma InsertStableFront<T>(x: T, xs: seq<T>, key: T -> int, descending: bool, k: int)
    requires Ordered(xs, key, descending)
    requires |xs| > 0 && !Precedes(key(xs[0]), key(x), descending)
    ensures WithKey([x] + xs, key, k) == WithKey(xs, key, k) + (if key(x) == k then [x] else [])
  {
    WithKeyCons(x, xs, key, k);
    if key(x) == k {
      NoneWithKey(xs, key, descending, k);
    }
  }

  /** In a sorted sequence whose head is strictly worse than key `k`, no element has key `k`. */
  lemma {:induction false} NoneWithKey<T>(xs: seq<T>, key: T -> int, descending: bool, k: int)
    requires Ordered(xs, key, descending)
    requires |xs| > 0 && !Precedes(key(xs[0]), k, descending)
    ensures WithKey(xs, key, k) == []
    decreases |xs|
  {
    if |xs| > 1 {
      assert Precedes(key(xs[0]), key(xs[1]), descending);
      NoneWithKey(xs[1..], key, descending, k);
    }
  }

  lemma WithKeySnoc<T>(xs: seq<T>, key: T -> int, k: int)
    requires |xs| > 0
    ensures WithKey(xs, key, k) == WithKey(xs[..|xs| - 1], key, k)
                                   + (if key(xs[|xs| - 1]) == k then [xs[|xs| - 1]] else [])
  {
    var last := xs[|xs| - 1];
    assert xs == xs[..|xs| - 1] + [last];
    WithKeyAppend(xs[..|xs| - 1], [last], key, k);
    assert [last][1..] == [];
  }

  /** Stability of `Sort`: for every key, the elements with that key keep their input order. */
  lemma {:induction false} SortStable<T>(xs: seq<T>, key: T -> int, descending: bool, k: int)
    ensures WithKey(Sort(xs, key, descending), key, k) == WithKey(xs, key, k)
    decreases |xs|
  {
    if |xs| > 0 {
      var init, last := xs[..|xs| - 1], xs[|xs| - 1];
      SortStable(init, key, descending, k);
      SortOrdered(init, key, descending);
      InsertStable(last, Sort(init, key, descending), key, descending, k);
      WithKeySnoc(xs, key, k);
    }
  }
}
