/** Stable sorting by a key, as the library's `sort_by_key` does it. */
module StableSorting {

  function Insert<T>(x: T, s: seq<T>, key: T -> int): seq<T> {
    if s == [] || key(x) <= key(s[0]) then [x] + s else [s[0]] + Insert(x, s[1..], key)
  }

  function Sort<T>(s: seq<T>, key: T -> int): seq<T> {
    if s == [] then [] else Insert(s[0], Sort(s[1..], key), key)
  }

  predicate SortedBy<T>(s: seq<T>, key: T -> int) {
    forall i, j | 0 <= i < j < |s| :: key(s[i]) <= key(s[j])
  }

  lemma {:induction false} InsertedIsOldOrNew<T>(x: T, s: seq<T>, key: T -> int, y: T)
    requires y in Insert(x, s, key)
    ensures y == x || y in s
  {
    if s != [] && key(x) > key(s[0]) && y != s[0] {
      InsertedIsOldOrNew(x, s[1..], key, y);
    }
  }

  lemma SortedCons<T>(x: T, s: seq<T>, key: T -> int)
    requires SortedBy(s, key) && forall j | 0 <= j < |s| :: key(x) <= key(s[j])
    ensures SortedBy([x] + s, key)
  {
  }

  lemma {:induction false} InsertSorts<T>(x: T, s: seq<T>, key: T -> int)
    requires SortedBy(s, key)
    ensures SortedBy(Insert(x, s, key), key)
  {
    if s != [] && key(x) > key(s[0]) {
      var t := s[1..];
      InsertSorts(x, t, key);
      assert s == [s[0]] + t;
      var r := Insert(x, t, key);
      forall j | 0 <= j < |r| ensures key(s[0]) <= key(r[j]) {
        InsertedIsOldOrNew(x, t, key, r[j]);
        if r[j] != x {
          var i :| 0 <= i < |t| && t[i] == r[j];
          assert s[i + 1] == r[j];
        }
      }
      SortedCons(s[0], r, key);
    }
  }

  lemma {:induction false} InsertAdds<T>(x: T, s: seq<T>, key: T -> int)
    ensures multiset(Insert(x, s, key)) == multiset{x} + multiset(s)
  {
    if s != [] && key(x) > key(s[0]) {
      InsertAdds(x, s[1..], key);
      assert s == [s[0]] + s[1..];
    }
  }

  /** Sorted, and a permutation. */
  lemma {:induction false} SortSorts<T>(s: seq<T>, key: T -> int)
    ensures SortedBy(Sort(s, key), key)
    ensures multiset(Sort(s, key)) == multiset(s)
  {
    if s != [] {
      SortSorts(s[1..], key);
      InsertSorts(s[0], Sort(s[1..], key), key);
      InsertAdds(s[0], Sort(s[1..], key), key);
      assert s == [s[0]] + s[1..];
    }
  }

  function WithKey<T>(s: seq<T>, key: T -> int, k: int): seq<T> {
    if s == [] then [] else if key(s[0]) == k then [s[0]] + WithKey(s[1..], key, k) else WithKey(s[1..], key, k)
  }

  lemma {:induction false} InsertIsStable<T>(x: T, s: seq<T>, key: T -> int, k: int)
    requires SortedBy(s, key)
    ensures WithKey(Insert(x, s, key), key, k) == if key(x) == k then [x] + WithKey(s, key, k) else WithKey(s, key, k)
  {
    if s == [] || key(x) <= key(s[0]) {
      assert ([x] + s)[1..] == s;
    } else {
      InsertIsStable(x, s[1..], key, k);
      assert ([s[0]] + Insert(x, s[1..], key))[1..] == Insert(x, s[1..], key);
    }
  }

  /** Elements with the same key keep their order. */
  lemma {:induction false} SortIsStable<T>(s: seq<T>, key: T -> int, k: int)
    ensures WithKey(Sort(s, key), key, k) == WithKey(s, key, k)
  {
    if s != [] {
      SortIsStable(s[1..], key, k);
      SortSorts(s[1..], key);
      InsertIsStable(s[0], Sort(s[1..], key), key, k);
    }
  }

  function Map<T, U>(f: T -> U, s: seq<T>): seq<U> {
    seq(|s|, i requires 0 <= i < |s| => f(s[i]))
  }

  lemma {:induction false} InsertCommutes<T, U>(f: T -> U, x: T, s: seq<T>, key: T -> int, key': U -> int)
    requires forall t :: key'(f(t)) == key(t)
    ensures Insert(f(x), Map(f, s), key') == Map(f, Insert(x, s, key))
  {
    if s != [] && key(x) > key(s[0]) {
      InsertCommutes(f, x, s[1..], key, key');
      assert Map(f, s)[1..] == Map(f, s[1..]);
    }
  }

  /** Sorting looks at keys only, so it commutes with any map that keeps them. */
  lemma {:induction false} SortCommutes<T, U>(f: T -> U, s: seq<T>, key: T -> int, key': U -> int)
    requires forall t :: key'(f(t)) == key(t)
    ensures Sort(Map(f, s), key') == Map(f, Sort(s, key))
  {
    if s != [] {
      SortCommutes(f, s[1..], key, key');
      assert Map(f, s)[1..] == Map(f, s[1..]);
      InsertCommutes(f, s[0], Sort(s[1..], key), key, key');
    }
  }
}
