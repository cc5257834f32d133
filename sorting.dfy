/** The two orderings the program relies on: Python's `<` on strings (for
    `sorted(list(a_set))`) and the stable `list.sort(key=...)` on an integer
    key (for ordering candidate images by their sequence number). */
module Sorting {

  // ---------------------------------------------------------------------------
  // String order
  // ---------------------------------------------------------------------------

  /** Python's `a < b` on `str`: code point by code point, a proper prefix first. */
  predicate Below(a: string, b: string)
  {
    if a == [] then b != []
    else if b == [] then false
    else if a[0] != b[0] then a[0] < b[0]
    else Below(a[1..], b[1..])
  }

  lemma {:induction false} BelowIrreflexive(a: string)
    ensures !Below(a, a)
  {
    if a != [] {
      BelowIrreflexive(a[1..]);
    }
  }

  lemma {:induction false} BelowTransitive(a: string, b: string, c: string)
    requires Below(a, b) && Below(b, c)
    ensures Below(a, c)
  {
    if a != [] && b != [] && c != [] && a[0] == b[0] && b[0] == c[0] {
      BelowTransitive(a[1..], b[1..], c[1..]);
    }
  }

  lemma {:induction false} BelowTotal(a: string, b: string)
    requires a != b
    ensures Below(a, b) || Below(b, a)
  {
    if a != [] && b != [] && a[0] == b[0] {
      assert a == [a[0]] + a[1..] && b == [b[0]] + b[1..];
      BelowTotal(a[1..], b[1..]);
    }
  }

  lemma {:induction false} BelowAsymmetric(a: string, b: string)
    requires Below(a, b)
    ensures !Below(b, a)
  {
    if a != [] && b != [] && a[0] == b[0] {
      BelowAsymmetric(a[1..], b[1..]);
    }
  }

  predicate StrictlySorted(xs: seq<string>)
  {
    forall i, j :: 0 <= i < j < |xs| ==> Below(xs[i], xs[j])
  }

  /** Inserting into a strictly sorted list without duplicates. */
  function Insert(xs: seq<string>, x: string): (r: seq<string>)
    requires StrictlySorted(xs)
    ensures StrictlySorted(r)
    ensures forall y :: y in r <==> y in xs || y == x
  {
    if xs == [] then [x]
    else if x == xs[0] then xs
    else if Below(x, xs[0]) then
      assert forall j :: 0 < j < |xs| ==> Below(xs[0], xs[j]);
      forall j | 0 <= j < |xs| ensures Below(x, xs[j]) {
        if j > 0 {
          BelowTransitive(x, xs[0], xs[j]);
        }
      }
      [x] + xs
    else
      BelowTotal(x, xs[0]);
      var tail := Insert(xs[1..], x);
      forall j | 0 <= j < |tail| ensures Below(xs[0], tail[j]) {
        assert tail[j] in xs[1..] || tail[j] == x;
      }
      [xs[0]] + tail
  }

  /** Two strictly sorted lists with the same elements are the same list:
      `sorted(list(s))` depends on the set only. */
  lemma {:induction false} SortedUnique(a: seq<string>, b: seq<string>)
    requires StrictlySorted(a) && StrictlySorted(b)
    requires forall x :: x in a <==> x in b
    ensures a == b
  {
    if a != [] {
      assert a[0] in a;
    }
    if b != [] {
      assert b[0] in b;
    }
    if a != [] && b != [] {
      SameHead(a, b);
      forall x ensures x in a[1..] <==> x in b[1..] {
        SortedTail(a, x);
        SortedTail(b, x);
      }
      SortedUnique(a[1..], b[1..]);
      assert a == [a[0]] + a[1..] && b == [b[0]] + b[1..];
    }
  }

  /** The least element heads a strictly sorted list. */
  lemma SameHead(a: seq<string>, b: seq<string>)
    requires StrictlySorted(a) && StrictlySorted(b) && a != [] && b != []
    requires forall x :: x in a <==> x in b
    ensures a[0] == b[0]
  {
    assert a[0] in a && b[0] in b;
    var i :| 0 <= i < |a| && a[i] == b[0];
    var j :| 0 <= j < |b| && b[j] == a[0];
    if a[0] != b[0] {
      assert i > 0 && j > 0;
      BelowAsymmetric(a[0], a[i]);
    }
  }

  lemma SortedTail(a: seq<string>, x: string)
    requires StrictlySorted(a) && a != []
    ensures x in a[1..] <==> x in a && x != a[0]
  {
    if x in a[1..] {
      var j :| 1 <= j < |a| && a[j] == x;
      BelowIrreflexive(a[0]);
    }
    if x in a && x != a[0] {
      var j :| 0 <= j < |a| && a[j] == x;
      assert a[1..][j - 1] == x;
    }
  }

  /** `sorted(list(s))`: the elements of `s` in increasing order, each once. */
  method SortedList(s: set<string>) returns (r: seq<string>)
    ensures StrictlySorted(r)
    ensures forall x :: x in r <==> x in s
  {
    r := [];
    var rest := s;
    while rest != {}
      invariant rest <= s
      invariant StrictlySorted(r)
      invariant forall x :: x in r <==> x in s && x !in rest
      decreases |rest|
    {
      var x :| x in rest;
      r := Insert(r, x);
      rest := rest - {x};
    }
  }

  // ---------------------------------------------------------------------------
  // Stable sort by an integer key
  // ---------------------------------------------------------------------------

  /** The items of `xs` whose key is `k`, in their order. */
  function WithKey<T>(xs: seq<(int, T)>, k: int): (r: seq<(int, T)>)
    ensures |r| <= |xs|
  {
    if xs == [] then []
    else (if xs[0].0 == k then [xs[0]] else []) + WithKey(xs[1..], k)
  }

  predicate KeySorted<T>(xs: seq<(int, T)>)
  {
    forall i, j :: 0 <= i < j < |xs| ==> xs[i].0 <= xs[j].0
  }

  /** Insert after every item whose key is not larger. */
  function InsertByKey<T>(xs: seq<(int, T)>, x: (int, T)): (r: seq<(int, T)>)
    requires KeySorted(xs)
    ensures KeySorted(r)
    ensures multiset(r) == multiset(xs) + multiset{x}
  {
    if xs == [] then [x]
    else if x.0 < xs[0].0 then
      KeySortedFront(xs);
      KeySortedCons(x, xs);
      [x] + xs
    else
      KeySortedTail(xs);
      var tail := InsertByKey(xs[1..], x);
      InsertBehind(xs, x, tail);
      [xs[0]] + tail
  }

  /** The insertion into the tail, behind the first item. */
  lemma InsertBehind<T>(xs: seq<(int, T)>, x: (int, T), tail: seq<(int, T)>)
    requires KeySorted(xs) && xs != [] && xs[0].0 <= x.0
    requires KeySorted(tail) && multiset(tail) == multiset(xs[1..]) + multiset{x}
    ensures KeySorted([xs[0]] + tail)
    ensures multiset([xs[0]] + tail) == multiset(xs) + multiset{x}
  {
    assert multiset(xs) == multiset{xs[0]} + multiset(xs[1..]) by {
      assert xs == [xs[0]] + xs[1..];
    }
    KeySortedFront(xs);
    forall j | 0 <= j < |tail| ensures xs[0].0 <= tail[j].0 {
      assert tail[j] in multiset(tail);
    }
    KeySortedCons(xs[0], tail);
  }

  lemma KeySortedTail<T>(xs: seq<(int, T)>)
    requires KeySorted(xs) && xs != []
    ensures KeySorted(xs[1..])
  {
    forall i, j | 0 <= i < j < |xs[1..]| ensures xs[1..][i].0 <= xs[1..][j].0 {
      assert xs[1..][i] == xs[i + 1] && xs[1..][j] == xs[j + 1];
    }
  }

  /** No key is smaller than the first one, which every later pair then bounds from below. */
  lemma KeySortedFront<T>(xs: seq<(int, T)>)
    requires KeySorted(xs) && xs != []
    ensures forall j :: 0 <= j < |xs| ==> xs[0].0 <= xs[j].0
  {
    forall j | 0 < j < |xs| ensures xs[0].0 <= xs[j].0 {
    }
  }

  lemma KeySortedCons<T>(h: (int, T), t: seq<(int, T)>)
    requires KeySorted(t) && forall j :: 0 <= j < |t| ==> h.0 <= t[j].0
    ensures KeySorted([h] + t)
  {
    var r := [h] + t;
    forall i, j | 0 <= i < j < |r| ensures r[i].0 <= r[j].0 {
      assert r[j] == t[j - 1];
      if i > 0 {
        assert r[i] == t[i - 1];
      }
    }
  }

  /** `list.sort(key=lambda x: x[0])`: Python's sort is stable, so items
      with equal keys keep their order. */
  function SortByKey<T>(xs: seq<(int, T)>): (r: seq<(int, T)>)
    ensures KeySorted(r)
    ensures multiset(r) == multiset(xs)
  {
    if xs == [] then []
    else
      assert xs == xs[..|xs| - 1] + [xs[|xs| - 1]];
      InsertByKey(SortByKey(xs[..|xs| - 1]), xs[|xs| - 1])
  }

  lemma {:induction false} WithKeyAppend<T>(a: seq<(int, T)>, b: seq<(int, T)>, k: int)
    ensures WithKey(a + b, k) == WithKey(a, k) + WithKey(b, k)
  {
    if a != [] {
      assert (a + b)[0] == a[0];
      assert (a + b)[1..] == a[1..] + b;
      WithKeyAppend(a[1..], b, k);
      calc {
        WithKey(a + b, k);
        (if a[0].0 == k then [a[0]] else []) + WithKey(a[1..] + b, k);
        (if a[0].0 == k then [a[0]] else []) + (WithKey(a[1..], k) + WithKey(b, k));
        WithKey(a, k) + WithKey(b, k);
      }
    } else {
      assert a + b == b;
    }
  }

  lemma {:induction false} InsertByKeyStable<T>(xs: seq<(int, T)>, x: (int, T), k: int)
    requires KeySorted(xs)
    ensures WithKey(InsertByKey(xs, x), k) == WithKey(xs, k) + WithKey([x], k)
  {
    if xs == [] {
    } else if x.0 < xs[0].0 {
      InsertFront(xs, x, k);
    } else {
      var tail := InsertByKey(xs[1..], x);
      assert InsertByKey(xs, x) == [xs[0]] + tail;
      InsertByKeyStable(xs[1..], x, k);
      WithKeyAppend([xs[0]], tail, k);
      WithKeyAppend([xs[0]], xs[1..], k);
      assert [xs[0]] + xs[1..] == xs;
    }
  }

  lemma InsertFront<T>(xs: seq<(int, T)>, x: (int, T), k: int)
    requires KeySorted(xs) && xs != [] && x.0 < xs[0].0
    ensures WithKey([x] + xs, k) == WithKey(xs, k) + WithKey([x], k)
  {
    WithKeyAppend([x], xs, k);
    if x.0 == k {
      forall i | 0 <= i < |xs| ensures xs[i].0 > k {
        assert xs[0].0 <= xs[i].0;
      }
      WithKeyNone(xs, k);
    }
  }

  lemma {:induction false} WithKeyNone<T>(xs: seq<(int, T)>, k: int)
    requires forall i :: 0 <= i < |xs| ==> xs[i].0 > k
    ensures WithKey(xs, k) == []
  {
    if xs != [] {
      WithKeyNone(xs[1..], k);
    }
  }

  /** Stability: for every key, the items with that key come out in the
      order they went in. */
  lemma {:induction false} SortByKeyStable<T>(xs: seq<(int, T)>, k: int)
    ensures WithKey(SortByKey(xs), k) == WithKey(xs, k)
  {
    if xs != [] {
      var init := xs[..|xs| - 1];
      var last := xs[|xs| - 1];
      SortByKeyStable(init, k);
      InsertByKeyStable(SortByKey(init), last, k);
      WithKeyAppend(init, [last], k);
      assert init + [last] == xs;
    }
  }

  /** When all keys are equal (as for OCT images, whose number is always
      0), sorting keeps the list as it is. */
  lemma {:induction false} SortByKeyConstant<T>(xs: seq<(int, T)>, k: int)
    requires forall i :: 0 <= i < |xs| ==> xs[i].0 == k
    ensures SortByKey(xs) == xs
  {
    SortByKeyStable(xs, k);
    WithKeyAll(xs, k);
    var r := SortByKey(xs);
    forall i | 0 <= i < |r| ensures r[i].0 == k {
      assert r[i] in multiset(r);
      var j :| 0 <= j < |xs| && xs[j] == r[i];
    }
    WithKeyAll(r, k);
  }

  lemma {:induction false} WithKeyAll<T>(xs: seq<(int, T)>, k: int)
    requires forall i :: 0 <= i < |xs| ==> xs[i].0 == k
    ensures WithKey(xs, k) == xs
  {
    if xs != [] {
      WithKeyAll(xs[1..], k);
      assert [xs[0]] + xs[1..] == xs;
    }
  }
}
