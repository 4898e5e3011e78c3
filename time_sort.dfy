/**
 * `array.sort((a, b) => time(a) - time(b))` as the services use it: a stable sort by an
 * integer key (milliseconds). It is given once as a function, SortByKey (an insertion sort
 * that places each record after every earlier record whose key is not greater), proved
 * sorted, a permutation, and to end with the latest record of maximal key; and once as the
 * in-place array method SortInPlace, proved to produce exactly SortByKey.
 */
module TimeSort {

  predicate SortedBy<T>(s: seq<T>, key: T -> int) {
    forall i, j :: 0 <= i < j < |s| ==> key(s[i]) <= key(s[j])
  }

  /** Inserts x after every element of s whose key is not greater, scanning from the right. */
  function Insert<T>(s: seq<T>, x: T, key: T -> int): (r: seq<T>)
    ensures |r| == |s| + 1
  {
    if s == [] || key(s[|s| - 1]) <= key(x) then s + [x]
    else Insert(s[..|s| - 1], x, key) + [s[|s| - 1]]
  }

  lemma {:induction false} InsertPermutation<T>(s: seq<T>, x: T, key: T -> int)
    ensures multiset(Insert(s, x, key)) == multiset(s) + multiset{x}
    decreases |s|
  {
    if s != [] && key(s[|s| - 1]) > key(x) {
      assert s == s[..|s| - 1] + [s[|s| - 1]];
      InsertPermutation(s[..|s| - 1], x, key);
    }
  }

  /** The stable sort by key: each record is inserted, in input order, into the sorted prefix. */
  function SortByKey<T>(s: seq<T>, key: T -> int): (r: seq<T>)
    ensures |r| == |s|
  {
    if s == [] then [] else Insert(SortByKey(s[..|s| - 1], key), s[|s| - 1], key)
  }

  /** SortByKey only reorders: the result has the same records, each as often. */
  lemma {:induction false} SortByKeyPermutation<T>(s: seq<T>, key: T -> int)
    ensures multiset(SortByKey(s, key)) == multiset(s)
    decreases |s|
  {
    if s != [] {
      assert s == s[..|s| - 1] + [s[|s| - 1]];
      SortByKeyPermutation(s[..|s| - 1], key);
      InsertPermutation(SortByKey(s[..|s| - 1], key), s[|s| - 1], key);
    }
  }

  /** SortByKey keeps exactly the records of its input. */
  lemma SortByKeyMembers<T>(s: seq<T>, key: T -> int)
    ensures forall x :: x in SortByKey(s, key) <==> x in s
  {
    SortByKeyPermutation(s, key);
    forall x
      ensures x in SortByKey(s, key) <==> x in s
    {
      assert x in SortByKey(s, key) <==> x in multiset(SortByKey(s, key));
      assert x in s <==> x in multiset(s);
    }
  }

  lemma {:induction false} InsertSorted<T>(s: seq<T>, x: T, key: T -> int)
    requires SortedBy(s, key)
    ensures SortedBy(Insert(s, x, key), key)
    decreases |s|
  {
    if s != [] && key(s[|s| - 1]) > key(x) {
      var init, last := s[..|s| - 1], s[|s| - 1];
      InsertSorted(init, x, key);
      var r' := Insert(init, x, key);
      InsertPermutation(init, x, key);
      forall i | 0 <= i < |r'|
        ensures key(r'[i]) <= key(last)
      {
        assert r'[i] in multiset(r');
        assert r'[i] in multiset(init) || r'[i] == x;
        if r'[i] != x {
          var k :| 0 <= k < |init| && init[k] == r'[i];
          assert s[k] == init[k];
        }
      }
    }
  }

  /** The result of SortByKey is in non-decreasing key order. */
  lemma {:induction false} SortByKeySorted<T>(s: seq<T>, key: T -> int)
    ensures SortedBy(SortByKey(s, key), key)
    decreases |s|
  {
    if s != [] {
      SortByKeySorted(s[..|s| - 1], key);
      InsertSorted(SortByKey(s[..|s| - 1], key), s[|s| - 1], key);
    }
  }

  /** In a sorted sequence no record has a greater key than the last one. */
  lemma LastHasMaxKey<T>(s: seq<T>, key: T -> int, x: T)
    requires SortedBy(s, key) && x in multiset(s)
    ensures key(x) <= key(s[|s| - 1])
  {
    var i :| 0 <= i < |s| && s[i] == x;
    if i < |s| - 1 {
      assert key(s[i]) <= key(s[|s| - 1]);
    }
  }

  lemma DropLastMultiset<T>(s: seq<T>)
    requires |s| > 0
    ensures multiset(s[..|s| - 1]) == multiset(s) - multiset{s[|s| - 1]}
  {
    assert s == s[..|s| - 1] + [s[|s| - 1]];
  }

  lemma EqualByLast<T>(a: seq<T>, b: seq<T>)
    requires |a| == |b| > 0
    requires a[..|a| - 1] == b[..|b| - 1] && a[|a| - 1] == b[|b| - 1]
    ensures a == b
  {
    assert a == a[..|a| - 1] + [a[|a| - 1]];
    assert b == b[..|b| - 1] + [b[|b| - 1]];
  }

  /** Two sorted orderings of the same records, keyed injectively, end with the same record. */
  lemma SameLast<T>(a: seq<T>, b: seq<T>, key: T -> int, among: iset<T>)
    requires SortedBy(a, key) && SortedBy(b, key)
    requires multiset(a) == multiset(b) && |a| > 0
    requires forall i :: 0 <= i < |a| ==> a[i] in among
    requires forall x, y :: x in among && y in among && key(x) == key(y) ==> x == y
    ensures |b| == |a| && a[|a| - 1] == b[|b| - 1]
  {
    assert |a| == |multiset(a)| == |multiset(b)| == |b|;
    var x, y := a[|a| - 1], b[|b| - 1];
    assert x in multiset(b) && y in multiset(a);
    LastHasMaxKey(b, key, x);
    LastHasMaxKey(a, key, y);
    var j :| 0 <= j < |a| && a[j] == y;
    assert a[j] in among;
  }

  /**
   * Two orderings of the same records that are both sorted by a key telling the records
   * apart (on a set `among` holding all of them) are the same sequence: a sort by such a
   * key has only one possible outcome.
   */
  lemma {:induction false} SortedUnique<T>(a: seq<T>, b: seq<T>, key: T -> int, among: iset<T>)
    requires SortedBy(a, key) && SortedBy(b, key)
    requires multiset(a) == multiset(b)
    requires forall i :: 0 <= i < |a| ==> a[i] in among
    requires forall x, y :: x in among && y in among && key(x) == key(y) ==> x == y
    ensures a == b
    decreases |a|
  {
    if a == [] {
      assert |b| == |multiset(b)| == 0;
    } else {
      SameLast(a, b, key, among);
      DropLastMultiset(a);
      DropLastMultiset(b);
      SortedUnique(a[..|a| - 1], b[..|b| - 1], key, among);
      EqualByLast(a, b);
    }
  }

  /** s[k] has the greatest key of s, and every later record has a strictly smaller key. */
  predicate IsLatestMax<T>(s: seq<T>, k: int, key: T -> int) {
    && 0 <= k < |s|
    && (forall j :: 0 <= j < |s| ==> key(s[j]) <= key(s[k]))
    && (forall j :: k < j < |s| ==> key(s[j]) < key(s[k]))
  }

  /**
   * Stability made concrete: the last record after sorting is the record of greatest key
   * that comes last in input order among the records sharing that key.
   */
  lemma {:induction false} SortByKeyLast<T>(s: seq<T>, key: T -> int) returns (k: nat)
    requires |s| > 0
    ensures IsLatestMax(s, k, key)
    ensures SortByKey(s, key)[|s| - 1] == s[k]
    decreases |s|
  {
    var init, x := s[..|s| - 1], s[|s| - 1];
    var sorted := SortByKey(init, key);
    if init == [] {
      k := 0;
    } else {
      var k' := SortByKeyLast(init, key);
      if key(init[k']) <= key(x) {
        k := |s| - 1;
        assert Insert(sorted, x, key) == sorted + [x];
      } else {
        k := k';
        assert Insert(sorted, x, key) == Insert(sorted[..|sorted| - 1], x, key) + [sorted[|sorted| - 1]];
      }
    }
  }

  /** Inserting x where the shifting loop stops gives Insert(s, x, key). */
  lemma {:induction false} InsertAt<T>(s: seq<T>, x: T, key: T -> int, j: nat)
    requires j <= |s|
    requires j > 0 ==> key(s[j - 1]) <= key(x)
    requires forall k :: j <= k < |s| ==> key(s[k]) > key(x)
    ensures Insert(s, x, key) == s[..j] + [x] + s[j..]
    decreases |s| - j
  {
    if j == |s| {
      assert s[..j] == s && s[j..] == [];
    } else {
      var init := s[..|s| - 1];
      InsertAt(init, x, key, j);
      assert init[..j] == s[..j];
      assert init[j..] + [s[|s| - 1]] == s[j..];
    }
  }

  /** One pass of insertion sort: a[i] moves left past every record with a greater key. */
  method InsertInPlace<T>(a: array<T>, i: nat, key: T -> int)
    requires i < a.Length
    modifies a
    ensures a[..i + 1] == Insert(old(a[..i]), old(a[i]), key)
    ensures forall k :: i < k < a.Length ==> a[k] == old(a[k])
  {
    var x := a[i];
    ghost var sorted := a[..i];
    var j := i;
    while j > 0 && key(a[j - 1]) > key(x)
      invariant 0 <= j <= i
      invariant forall k :: 0 <= k < j ==> a[k] == sorted[k]
      invariant forall k :: j < k <= i ==> a[k] == sorted[k - 1]
      invariant forall k :: j <= k < i ==> key(sorted[k]) > key(x)
      invariant forall k :: i < k < a.Length ==> a[k] == old(a[k])
    {
      a[j] := a[j - 1];
      j := j - 1;
    }
    a[j] := x;
    InsertAt(sorted, x, key, j);
    assert a[..i + 1] == sorted[..j] + [x] + sorted[j..];
  }

  /** Insertion sort of an array in place by key, shifting larger records right. */
  method SortInPlace<T>(a: array<T>, key: T -> int)
    modifies a
    ensures a[..] == SortByKey(old(a[..]), key)
  {
    ghost var input := a[..];
    var i := 0;
    while i < a.Length
      invariant 0 <= i <= a.Length
      invariant a[..i] == SortByKey(input[..i], key)
      invariant forall k :: i <= k < a.Length ==> a[k] == input[k]
    {
      InsertInPlace(a, i, key);
      assert input[..i + 1][..i] == input[..i];
      i := i + 1;
    }
    assert input[..a.Length] == input;
  }

  /** Sorts a copy of s held in a fresh array, as the services sort their fetched lists. */
  method SortedCopy<T>(s: seq<T>, key: T -> int) returns (r: seq<T>)
    ensures r == SortByKey(s, key)
  {
    var a := new T[|s|](i requires 0 <= i < |s| => s[i]);
    assert a[..] == s;
    SortInPlace(a, key);
    r := a[..];
  }
}
