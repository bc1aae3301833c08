/** Python's built-in `sorted(xs, key=...)`: a stable sort by a key. Here it
    is a stable insertion sort over real-valued keys. */
module Sorting {

  /** Keys do not decrease along `s`. */
  ghost predicate Ascending<T>(s: seq<T>, key: T -> real)
  {
    forall i, j | 0 <= i < j < |s| :: key(s[i]) <= key(s[j])
  }

  /** Elements of `s` with equal keys are equal. */
  ghost predicate KeyInjective<T>(s: seq<T>, key: T -> real)
  {
    forall x, y | x in s && y in s && key(x) == key(y) :: x == y
  }

  /** The elements of `s` whose key is `k`, in their order in `s`. */
  ghost function WithKey<T>(s: seq<T>, key: T -> real, k: real): seq<T>
  {
    if s == [] then []
    else (if key(s[0]) == k then [s[0]] else []) + WithKey(s[1..], key, k)
  }

  /** Puts `x` in front of the first element whose key is at least its own. */
  function Insert<T>(x: T, s: seq<T>, key: T -> real): (r: seq<T>)
    ensures multiset(r) == multiset(s) + multiset{x}
  {
    if s == [] then [x]
    else if key(x) <= key(s[0]) then [x] + s
    else
      assert s == [s[0]] + s[1..];
      [s[0]] + Insert(x, s[1..], key)
  }

  /** The elements of a list are those of any list with the same multiset. */
  lemma SameElements<T>(a: seq<T>, b: seq<T>)
    requires multiset(a) == multiset(b)
    ensures forall y :: y in a <==> y in b
  {
    forall y ensures y in a <==> y in b {
      assert y in a <==> y in multiset(a);
      assert y in b <==> y in multiset(b);
    }
  }

  /** Prepending an element no greater than any element keeps a list ascending. */
  lemma ConsAscending<T>(h: T, t: seq<T>, key: T -> real)
    requires Ascending(t, key)
    requires forall j | 0 <= j < |t| :: key(h) <= key(t[j])
    ensures Ascending([h] + t, key)
  {
    var r := [h] + t;
    forall i, j | 0 <= i < j < |r| ensures key(r[i]) <= key(r[j]) {
      assert r[j] == t[j - 1];
      if i > 0 {
        assert r[i] == t[i - 1];
      }
    }
  }

  /** Every element of an insertion is the inserted one or an old one. */
  lemma InsertElement<T>(x: T, s: seq<T>, key: T -> real, j: int)
    requires 0 <= j < |Insert(x, s, key)|
    ensures Insert(x, s, key)[j] == x || Insert(x, s, key)[j] in s
  {
    var y := Insert(x, s, key)[j];
    assert y in multiset(Insert(x, s, key));
  }

  lemma {:induction false} InsertAscending<T>(x: T, s: seq<T>, key: T -> real)
    requires Ascending(s, key)
    ensures Ascending(Insert(x, s, key), key)
  {
    if s == [] {
    } else if key(x) <= key(s[0]) {
      ConsAscending(x, s, key);
    } else {
      var rest := Insert(x, s[1..], key);
      AscendingTail(s, key);
      InsertAscending(x, s[1..], key);
      forall j | 0 <= j < |rest| ensures key(s[0]) <= key(rest[j]) {
        InsertElement(x, s[1..], key, j);
        if rest[j] != x {
          var m :| 0 <= m < |s| - 1 && s[1..][m] == rest[j];
          assert s[m + 1] == rest[j];
        }
      }
      ConsAscending(s[0], rest, key);
    }
  }

  /** The tail of an ascending list is ascending. */
  lemma AscendingTail<T>(s: seq<T>, key: T -> real)
    requires s != [] && Ascending(s, key)
    ensures Ascending(s[1..], key)
  {
    forall i, j | 0 <= i < j < |s| - 1 ensures key(s[1..][i]) <= key(s[1..][j]) {
      assert s[1..][i] == s[i + 1] && s[1..][j] == s[j + 1];
    }
  }

  /** Stable ascending sort of `s` by `key`. */
  function SortBy<T>(s: seq<T>, key: T -> real): (r: seq<T>)
    ensures multiset(r) == multiset(s)
    ensures Ascending(r, key)
  {
    if s == [] then []
    else
      assert s == [s[0]] + s[1..];
      var sorted := SortBy(s[1..], key);
      InsertAscending(s[0], sorted, key);
      Insert(s[0], sorted, key)
  }

  /** Unfolds WithKey on a list built by prepending one element. */
  lemma WithKeyCons<T>(y: T, t: seq<T>, key: T -> real, k: real)
    ensures WithKey([y] + t, key, k) == (if key(y) == k then [y] else []) + WithKey(t, key, k)
  {
    assert ([y] + t)[1..] == t;
  }

  /** Inserting `x` keeps, for every key, the order of the elements that carry it,
      `x` going before the elements of `s` with its key. */
  lemma {:induction false} InsertStable<T>(x: T, s: seq<T>, key: T -> real, k: real)
    ensures WithKey(Insert(x, s, key), key, k) == WithKey([x] + s, key, k)
  {
    if s != [] && key(x) > key(s[0]) {
      InsertStable(x, s[1..], key, k);
      SkipHead(x, s, Insert(x, s[1..], key), key, k);
    }
  }

  /** One step of InsertStable: `x` passes over a head `s[0]` with a smaller key. */
  lemma SkipHead<T>(x: T, s: seq<T>, rest: seq<T>, key: T -> real, k: real)
    requires s != [] && key(x) > key(s[0])
    requires WithKey(rest, key, k) == WithKey([x] + s[1..], key, k)
    ensures WithKey([s[0]] + rest, key, k) == WithKey([x] + s, key, k)
  {
    var tail := WithKey(s[1..], key, k);
    WithKeyCons(s[0], rest, key, k);
    WithKeyCons(x, s[1..], key, k);
    WithKeyCons(x, s, key, k);
    if key(s[0]) == k {
      assert WithKey(s, key, k) == [s[0]] + tail;
    } else {
      assert WithKey(s, key, k) == tail;
    }
  }

  /** SortBy is stable: for every key, the elements carrying it keep their order. */
  lemma {:induction false} SortByStable<T>(s: seq<T>, key: T -> real, k: real)
    ensures WithKey(SortBy(s, key), key, k) == WithKey(s, key, k)
  {
    if s != [] {
      var sorted := SortBy(s[1..], key);
      SortByStable(s[1..], key, k);
      InsertStable(s[0], sorted, key, k);
      WithKeyCons(s[0], sorted, key, k);
      WithKeyCons(s[0], s[1..], key, k);
      assert [s[0]] + s[1..] == s;
    }
  }

  /** Two lists with the same multiset and the same head have tails with the
      same multiset. */
  lemma SameTails<T>(a: seq<T>, b: seq<T>)
    requires a != [] && b != [] && a[0] == b[0]
    requires multiset(a) == multiset(b)
    ensures multiset(a[1..]) == multiset(b[1..])
  {
    assert a == [a[0]] + a[1..];
    assert b == [b[0]] + b[1..];
    assert multiset(a[1..]) == multiset(a) - multiset{a[0]};
    assert multiset(b[1..]) == multiset(b) - multiset{b[0]};
  }

  /** Two ascending lists with the same elements start with the same element
      when the key tells the elements apart. */
  lemma SameHead<T>(a: seq<T>, b: seq<T>, key: T -> real)
    requires a != [] && Ascending(a, key) && Ascending(b, key)
    requires multiset(a) == multiset(b)
    requires KeyInjective(a, key)
    ensures b != [] && a[0] == b[0]
  {
    assert a[0] in multiset(b);
    assert b[0] in multiset(a);
    var i :| 0 <= i < |a| && a[i] == b[0];
    var j :| 0 <= j < |b| && b[j] == a[0];
    assert key(a[0]) <= key(a[i]) == key(b[0]) <= key(b[j]) == key(a[0]);
  }

  /** The tail of a list whose key tells the elements apart has the same property. */
  lemma InjectiveTail<T>(s: seq<T>, key: T -> real)
    requires s != [] && KeyInjective(s, key)
    ensures KeyInjective(s[1..], key)
  {
    forall x, y | x in s[1..] && y in s[1..] && key(x) == key(y) ensures x == y {
      assert x in s && y in s;
    }
  }

  /** Two ascending lists with the same elements are equal when the key tells
      the elements apart. */
  lemma {:induction false} AscendingUnique<T>(a: seq<T>, b: seq<T>, key: T -> real)
    requires Ascending(a, key) && Ascending(b, key)
    requires multiset(a) == multiset(b)
    requires KeyInjective(a, key)
    ensures a == b
  {
    if a == [] {
      assert |b| == |multiset(b)| == 0;
    } else {
      SameHead(a, b, key);
      SameTails(a, b);
      AscendingTail(a, key);
      AscendingTail(b, key);
      InjectiveTail(a, key);
      AscendingUnique(a[1..], b[1..], key);
      assert a == [a[0]] + a[1..];
      assert b == [b[0]] + b[1..];
    }
  }

  /** When the key tells the elements apart, the sorted list depends only on
      which elements there are, not on their order. */
  lemma SortByPermutationInvariant<T>(s: seq<T>, t: seq<T>, key: T -> real)
    requires multiset(s) == multiset(t)
    requires KeyInjective(s, key)
    ensures SortBy(s, key) == SortBy(t, key)
  {
    var a, b := SortBy(s, key), SortBy(t, key);
    forall x | x in a ensures x in s {
      assert x in multiset(a);
    }
    AscendingUnique(a, b, key);
  }
}
