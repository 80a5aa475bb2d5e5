/** Stands for the library sorts the source calls: callers know only that the result is
    a permutation of the input in ascending key order, as for an unstable sort. */
module Sorting {
  ghost predicate SortedBy<T(!new)>(s: seq<T>, key: T -> int) {
    s == [] || ((forall y :: y in s[1..] ==> key(s[0]) <= key(y)) && SortedBy(s[1..], key))
  }

  ghost predicate IsSortOf<T(!new)>(r: seq<T>, s: seq<T>, key: T -> int) {
    SortedBy(r, key) && multiset(r) == multiset(s)
  }

  /** Elements with one key are one value, so their order cannot matter. */
  ghost predicate KeyDetermines<T(!new)>(s: seq<T>, key: T -> int) {
    forall x, y :: x in s && y in s && key(x) == key(y) ==> x == y
  }

  function Insert<T>(x: T, s: seq<T>, key: T -> int): seq<T> {
    if s == [] || key(x) <= key(s[0]) then [x] + s else [s[0]] + Insert(x, s[1..], key)
  }

  function InsertionSort<T>(s: seq<T>, key: T -> int): seq<T> {
    if s == [] then [] else Insert(s[0], InsertionSort(s[1..], key), key)
  }

  lemma SameElements<T>(r: seq<T>, s: seq<T>)
    requires multiset(r) == multiset(s)
    ensures |r| == |s|
    ensures forall y :: y in r <==> y in s
  {
    assert |multiset(r)| == |r| && |multiset(s)| == |s|;
    forall y ensures y in r <==> y in s {
      assert y in r <==> y in multiset(r);
    }
  }

  lemma {:induction false} SortedAt<T(!new)>(s: seq<T>, key: T -> int, i: nat, j: nat)
    requires SortedBy(s, key) && i <= j < |s|
    ensures key(s[i]) <= key(s[j])
  {
    if 0 < i {
      SortedAt(s[1..], key, i - 1, j - 1);
    } else if 0 < j {
      assert s[j] == s[1..][j - 1];
    }
  }

  lemma {:induction false} InsertIsSort<T(!new)>(x: T, s: seq<T>, key: T -> int)
    requires SortedBy(s, key)
    ensures IsSortOf(Insert(x, s, key), [x] + s, key)
  {
    if s == [] {
    } else if key(x) <= key(s[0]) {
      assert ([x] + s)[1..] == s;
    } else {
      var tail := Insert(x, s[1..], key);
      InsertIsSort(x, s[1..], key);
      SameElements(tail, [x] + s[1..]);
      assert ([s[0]] + tail)[1..] == tail;
      assert s == [s[0]] + s[1..];
      assert multiset(Insert(x, s, key)) == multiset{s[0]} + multiset(tail);
    }
  }

  lemma {:induction false} InsertionSortIsSort<T(!new)>(s: seq<T>, key: T -> int)
    ensures IsSortOf(InsertionSort(s, key), s, key)
  {
    if s == [] {
    } else {
      InsertionSortIsSort(s[1..], key);
      InsertIsSort(s[0], InsertionSort(s[1..], key), key);
      assert s == [s[0]] + s[1..];
    }
  }

  method SortUnstable<T(!new)>(s: seq<T>, key: T -> int) returns (r: seq<T>)
    ensures IsSortOf(r, s, key)
  {
    InsertionSortIsSort(s, key);
    r := InsertionSort(s, key);
  }

  lemma TailMultiset<T>(r: seq<T>)
    requires r != []
    ensures multiset(r[1..]) == multiset(r) - multiset{r[0]}
  {
    assert r == [r[0]] + r[1..];
  }

  lemma SortedHead<T(!new)>(r: seq<T>, key: T -> int, y: T)
    requires SortedBy(r, key) && y in r
    ensures key(r[0]) <= key(y)
  {
  }

  /** Whatever an unstable sort does with ties, its result is unique once keys determine elements. */
  lemma {:induction false} SortIsUnique<T(!new)>(r1: seq<T>, r2: seq<T>, key: T -> int)
    requires SortedBy(r1, key) && SortedBy(r2, key)
    requires multiset(r1) == multiset(r2) && KeyDetermines(r1, key)
    ensures r1 == r2
  {
    SameElements(r1, r2);
    if r1 != [] {
      SortedHead(r1, key, r2[0]);
      SortedHead(r2, key, r1[0]);
      assert r1[0] == r2[0];
      TailMultiset(r1);
      TailMultiset(r2);
      KeyDeterminesTail(r1, key);
      SortIsUnique(r1[1..], r2[1..], key);
      assert r1 == [r1[0]] + r1[1..] && r2 == [r2[0]] + r2[1..];
    }
  }

  lemma KeyDeterminesTail<T(!new)>(s: seq<T>, key: T -> int)
    requires s != [] && KeyDetermines(s, key)
    ensures KeyDetermines(s[1..], key)
  {
  }
}
