/**
 * `records.reduce((sum, r) => sum + f(r), 0)`, the reduction every service and screen uses,
 * as a left fold over integer and over real contributions, with the facts the callers need:
 * it is additive over concatenation and does not depend on the order of the records.
 * Also `map` and `flatMap`, which the services apply to the fetched records.
 */
module Reduce {
  import opened Wrappers

  /** The left fold `sum + f(r)` from 0 over integer contributions. */
  function SumInt<T>(s: seq<T>, f: T -> int): int {
    if s == [] then 0 else SumInt(s[..|s| - 1], f) + f(s[|s| - 1])
  }

  /** The left fold `sum + f(r)` from 0 over real contributions. */
  function SumReal<T>(s: seq<T>, f: T -> real): real {
    if s == [] then 0.0 else SumReal(s[..|s| - 1], f) + f(s[|s| - 1])
  }

  lemma {:induction false} SumIntAppend<T>(a: seq<T>, b: seq<T>, f: T -> int)
    ensures SumInt(a + b, f) == SumInt(a, f) + SumInt(b, f)
    decreases |b|
  {
    if b != [] {
      assert (a + b)[..|a + b| - 1] == a + b[..|b| - 1];
      SumIntAppend(a, b[..|b| - 1], f);
    } else {
      assert a + b == a;
    }
  }

  lemma {:induction false} SumRealAppend<T>(a: seq<T>, b: seq<T>, f: T -> real)
    ensures SumReal(a + b, f) == SumReal(a, f) + SumReal(b, f)
    decreases |b|
  {
    if b != [] {
      assert (a + b)[..|a + b| - 1] == a + b[..|b| - 1];
      SumRealAppend(a, b[..|b| - 1], f);
    } else {
      assert a + b == a;
    }
  }

  /** The last record of a occurs in b at some j, and the rest of a is a reordering of b without it. */
  lemma PickLast<T>(a: seq<T>, b: seq<T>) returns (j: nat)
    requires a != [] && multiset(a) == multiset(b)
    ensures j < |b| && b[j] == a[|a| - 1]
    ensures multiset(a[..|a| - 1]) == multiset(b[..j] + b[j + 1..])
  {
    var front, x := a[..|a| - 1], a[|a| - 1];
    assert a == front + [x];
    assert multiset(a) == multiset(front) + multiset{x};
    assert x in multiset(b);
    j :| 0 <= j < |b| && b[j] == x;
    var l, r := b[..j], b[j + 1..];
    assert b == l + [x] + r;
    assert multiset(b) == multiset(l) + multiset{x} + multiset(r);
    assert multiset(l + r) == multiset(l) + multiset(r) == multiset(b) - multiset{x};
    assert multiset(front) == multiset(a) - multiset{x};
  }

  /** Cutting b around position j and gluing the pieces back gives b. */
  lemma SplitAt<T>(b: seq<T>, j: nat)
    requires j < |b|
    ensures b == (b[..j] + [b[j]]) + b[j + 1..]
  {
  }

  lemma SumIntWithout<T>(b: seq<T>, j: nat, f: T -> int)
    requires j < |b|
    ensures SumInt(b, f) == SumInt(b[..j] + b[j + 1..], f) + f(b[j])
  {
    SplitAt(b, j);
    SumIntMiddle(b[..j], b[j], b[j + 1..], f);
  }

  lemma SumIntMiddle<T>(l: seq<T>, x: T, r: seq<T>, f: T -> int)
    ensures SumInt((l + [x]) + r, f) == SumInt(l + r, f) + f(x)
  {
    SumIntAppend(l + [x], r, f);
    SumIntSnoc(l, x, f);
    SumIntAppend(l, r, f);
  }

  lemma SumIntSnoc<T>(l: seq<T>, x: T, f: T -> int)
    ensures SumInt(l + [x], f) == SumInt(l, f) + f(x)
  {
    assert (l + [x])[..|l|] == l;
  }

  lemma SumRealWithout<T>(b: seq<T>, j: nat, f: T -> real)
    requires j < |b|
    ensures SumReal(b, f) == SumReal(b[..j] + b[j + 1..], f) + f(b[j])
  {
    SplitAt(b, j);
    SumRealMiddle(b[..j], b[j], b[j + 1..], f);
  }

  lemma SumRealMiddle<T>(l: seq<T>, x: T, r: seq<T>, f: T -> real)
    ensures SumReal((l + [x]) + r, f) == SumReal(l + r, f) + f(x)
  {
    SumRealAppend(l + [x], r, f);
    SumRealSnoc(l, x, f);
    SumRealAppend(l, r, f);
  }

  lemma SumRealSnoc<T>(l: seq<T>, x: T, f: T -> real)
    ensures SumReal(l + [x], f) == SumReal(l, f) + f(x)
  {
    assert (l + [x])[..|l|] == l;
  }

  /** Reordering the records leaves an integer total unchanged. */
  lemma {:induction false} SumIntPermutation<T>(a: seq<T>, b: seq<T>, f: T -> int)
    requires multiset(a) == multiset(b)
    ensures SumInt(a, f) == SumInt(b, f)
    decreases |a|
  {
    if a == [] {
      assert |b| == |multiset(b)| == 0;
    } else {
      var j := PickLast(a, b);
      SumIntPermutation(a[..|a| - 1], b[..j] + b[j + 1..], f);
      SumIntWithout(b, j, f);
    }
  }

  /** Reordering the records leaves a real total unchanged. */
  lemma {:induction false} SumRealPermutation<T>(a: seq<T>, b: seq<T>, f: T -> real)
    requires multiset(a) == multiset(b)
    ensures SumReal(a, f) == SumReal(b, f)
    decreases |a|
  {
    if a == [] {
      assert |b| == |multiset(b)| == 0;
    } else {
      var j := PickLast(a, b);
      SumRealPermutation(a[..|a| - 1], b[..j] + b[j + 1..], f);
      SumRealWithout(b, j, f);
    }
  }

  /** If every contribution is non-negative, so is the total. */
  lemma {:induction false} SumIntNonNegative<T>(s: seq<T>, f: T -> int)
    requires forall i :: 0 <= i < |s| ==> f(s[i]) >= 0
    ensures SumInt(s, f) >= 0
  {
    if s != [] {
      SumIntNonNegative(s[..|s| - 1], f);
    }
  }

  /** With every contribution between lo and hi, the total lies between |s| * lo and |s| * hi. */
  lemma {:induction false} SumIntBounds<T>(s: seq<T>, f: T -> int, lo: int, hi: int)
    requires forall i :: 0 <= i < |s| ==> lo <= f(s[i]) <= hi
    ensures |s| * lo <= SumInt(s, f) <= |s| * hi
  {
    if s != [] {
      SumIntBounds(s[..|s| - 1], f, lo, hi);
    }
  }

  /** If every contribution is non-negative, so is the total. */
  lemma {:induction false} SumRealNonNegative<T>(s: seq<T>, f: T -> real)
    requires forall i :: 0 <= i < |s| ==> f(s[i]) >= 0.0
    ensures SumReal(s, f) >= 0.0
  {
    if s != [] {
      SumRealNonNegative(s[..|s| - 1], f);
    }
  }

  /** `Math.max(...s.map(f))` on a non-empty list: a value of some element, and no element's is larger. */
  function MaxInt<T>(s: seq<T>, f: T -> int): (m: int)
    requires s != []
    ensures exists i :: 0 <= i < |s| && f(s[i]) == m
    ensures forall i :: 0 <= i < |s| ==> f(s[i]) <= m
  {
    if |s| == 1 then f(s[0])
    else
      var rest := MaxInt(s[..|s| - 1], f);
      if f(s[|s| - 1]) > rest then f(s[|s| - 1]) else rest
  }

  /** `Math.min(...s.map(f))` on a non-empty list: a value of some element, and no element's is smaller. */
  function MinInt<T>(s: seq<T>, f: T -> int): (m: int)
    requires s != []
    ensures exists i :: 0 <= i < |s| && f(s[i]) == m
    ensures forall i :: 0 <= i < |s| ==> m <= f(s[i])
  {
    if |s| == 1 then f(s[0])
    else
      var rest := MinInt(s[..|s| - 1], f);
      if f(s[|s| - 1]) < rest then f(s[|s| - 1]) else rest
  }

  /**
   * `Math.max(...s.map(f))` over real values. Dafny has no ordering shared by `int` and
   * `real`, so the int version is repeated deliberately for calorie values.
   */
  function MaxReal<T>(s: seq<T>, f: T -> real): (m: real)
    requires s != []
    ensures exists i :: 0 <= i < |s| && f(s[i]) == m
    ensures forall i :: 0 <= i < |s| ==> f(s[i]) <= m
  {
    if |s| == 1 then f(s[0])
    else
      var rest := MaxReal(s[..|s| - 1], f);
      if f(s[|s| - 1]) > rest then f(s[|s| - 1]) else rest
  }

  /** `Math.min(...s.map(f))` over real values, repeated from MinInt for the same reason. */
  function MinReal<T>(s: seq<T>, f: T -> real): (m: real)
    requires s != []
    ensures exists i :: 0 <= i < |s| && f(s[i]) == m
    ensures forall i :: 0 <= i < |s| ==> m <= f(s[i])
  {
    if |s| == 1 then f(s[0])
    else
      var rest := MinReal(s[..|s| - 1], f);
      if f(s[|s| - 1]) < rest then f(s[|s| - 1]) else rest
  }

  /** `s.length > 0 ? s[s.length - 1] : null`. */
  function LastOf<T>(s: seq<T>): (r: Option<T>)
    ensures r.None? <==> s == []
    ensures r.Some? ==> r.value == s[|s| - 1]
  {
    if |s| > 0 then Some(s[|s| - 1]) else None
  }

  /** `s.map(f)`. */
  function MapSeq<T, U>(s: seq<T>, f: T -> U): (r: seq<U>)
    ensures |r| == |s| && forall i :: 0 <= i < |s| ==> r[i] == f(s[i])
  {
    seq(|s|, i requires 0 <= i < |s| => f(s[i]))
  }

  lemma MapAppend<T, U>(a: seq<T>, b: seq<T>, f: T -> U)
    ensures MapSeq(a + b, f) == MapSeq(a, f) + MapSeq(b, f)
  {
  }

  /** Mapping two orderings of the same records gives two orderings of the same results. */
  lemma {:induction false} MapPermutation<T, U>(a: seq<T>, b: seq<T>, f: T -> U)
    requires multiset(a) == multiset(b)
    ensures multiset(MapSeq(a, f)) == multiset(MapSeq(b, f))
    decreases |a|
  {
    if a == [] {
      assert |b| == |multiset(b)| == 0;
    } else {
      var x, a' := a[|a| - 1], a[..|a| - 1];
      var j := PickLast(a, b);
      var b' := b[..j] + b[j + 1..];
      assert a == a' + [x];
      assert b == b[..j] + [x] + b[j + 1..];
      MapPermutation(a', b', f);
      MapAppend(a', [x], f);
      MapAppend(b[..j] + [x], b[j + 1..], f);
      MapAppend(b[..j], [x], f);
      MapAppend(b[..j], b[j + 1..], f);
    }
  }

  /** `s.flatMap(f)`: the lists f(x) of the records x, concatenated in record order. */
  function FlatMap<T, U>(s: seq<T>, f: T -> seq<U>): seq<U> {
    if s == [] then [] else FlatMap(s[..|s| - 1], f) + f(s[|s| - 1])
  }

  lemma {:induction false} FlatMapAppend<T, U>(a: seq<T>, b: seq<T>, f: T -> seq<U>)
    ensures FlatMap(a + b, f) == FlatMap(a, f) + FlatMap(b, f)
    decreases |b|
  {
    if b == [] {
      assert a + b == a;
    } else {
      assert (a + b)[..|a + b| - 1] == a + b[..|b| - 1];
      FlatMapAppend(a, b[..|b| - 1], f);
    }
  }

  /** The flattened list is as long as all the lists together, counted by `count`. */
  lemma {:induction false} FlatMapLength<T, U>(s: seq<T>, f: T -> seq<U>, count: T -> int)
    requires forall x :: count(x) == |f(x)|
    ensures |FlatMap(s, f)| == SumInt(s, count)
  {
    if s != [] {
      FlatMapLength(s[..|s| - 1], f, count);
    }
  }
}
