/** List operations the services use through Java streams and JavaScript arrays. */
module Seqs {

  /** Appending one element after a concatenation appends it to the second part. */
  lemma AppendOneAssoc<T>(a: seq<T>, b: seq<T>, x: T)
    ensures (a + b) + [x] == a + (b + [x])
  {
  }

  /** A non-empty sequence is its front followed by its last element. */
  lemma FrontLast<T>(s: seq<T>)
    requires s != []
    ensures s[..|s| - 1] + [s[|s| - 1]] == s
  {
  }

  /** A prefix one longer is the shorter prefix followed by the next element. */
  lemma TakeOneMore<T>(s: seq<T>, k: int)
    requires 0 <= k < |s|
    ensures s[..k + 1] == s[..k] + [s[k]]
  {
  }

  /** `filter`: the elements satisfying p, in their original order. */
  function Filter<T(!new)>(s: seq<T>, p: T -> bool): (r: seq<T>)
    ensures |r| <= |s|
    ensures forall i :: 0 <= i < |r| ==> p(r[i])
    ensures forall x :: x in r <==> x in s && p(x)
  {
    if s == [] then []
    else
      assert forall x :: x in s <==> x == s[0] || x in s[1..];
      if p(s[0]) then [s[0]] + Filter(s[1..], p) else Filter(s[1..], p)
  }

  /** Filtering keeps nothing when no element satisfies p. */
  lemma {:induction false} FilterNone<T(!new)>(s: seq<T>, p: T -> bool)
    requires forall i :: 0 <= i < |s| ==> !p(s[i])
    ensures Filter(s, p) == []
  {
    if s != [] {
      FilterNone(s[1..], p);
    }
  }

  /** Filtering one more element adds it at the end exactly when it satisfies p. */
  lemma FilterSnoc<T(!new)>(s: seq<T>, x: T, p: T -> bool)
    ensures Filter(s + [x], p) == Filter(s, p) + (if p(x) then [x] else [])
  {
    FilterAppend(s, [x], p);
    assert [x][1..] == [];
  }

  lemma AppendAssoc<T>(a: seq<T>, b: seq<T>, c: seq<T>)
    ensures (a + b) + c == a + (b + c)
  {
  }

  /** Filtering a list with a first element decides that element, then filters the rest. */
  lemma FilterCons<T(!new)>(x: T, s: seq<T>, p: T -> bool)
    ensures Filter([x] + s, p) == (if p(x) then [x] else []) + Filter(s, p)
  {
    assert ([x] + s)[1..] == s;
  }

  /** Filtering distributes over concatenation, so it keeps the relative order of the elements. */
  lemma {:induction false} FilterAppend<T(!new)>(a: seq<T>, b: seq<T>, p: T -> bool)
    ensures Filter(a + b, p) == Filter(a, p) + Filter(b, p)
  {
    if a == [] {
      assert a + b == b;
    } else {
      var x, t := a[0], a[1..];
      var head := if p(x) then [x] else [];
      assert a == [x] + t;
      assert a + b == [x] + (t + b);
      FilterCons(x, t + b, p);
      FilterCons(x, t, p);
      FilterAppend(t, b, p);
      AppendAssoc(head, Filter(t, p), Filter(b, p));
    }
  }

  /** Filtering keeps everything exactly when every element satisfies p. */
  lemma {:induction false} FilterKeepsAll<T(!new)>(s: seq<T>, p: T -> bool)
    ensures Filter(s, p) == s <==> forall i :: 0 <= i < |s| ==> p(s[i])
  {
    if s != [] {
      var tail := s[1..];
      FilterKeepsAll(tail, p);
      if !p(s[0]) {
        assert Filter(s, p) == Filter(tail, p);
        assert |Filter(s, p)| < |s|;
      } else {
        assert Filter(s, p) == [s[0]] + Filter(tail, p);
        assert (forall i :: 0 <= i < |s| ==> p(s[i])) <==> (forall i :: 0 <= i < |tail| ==> p(tail[i])) by {
          assert forall i :: 0 < i < |s| ==> s[i] == tail[i - 1];
        }
        assert s == [s[0]] + tail;
      }
    }
  }

  /** Filtering out exactly one element removes it and keeps the rest in order. */
  lemma FilterDropsOne<T(!new)>(a: seq<T>, x: T, b: seq<T>, p: T -> bool)
    requires !p(x)
    requires forall i :: 0 <= i < |a| ==> p(a[i])
    requires forall i :: 0 <= i < |b| ==> p(b[i])
    ensures Filter(a + [x] + b, p) == a + b
  {
    FilterAppend(a + [x], b, p);
    FilterSnoc(a, x, p);
    FilterKeepsAll(a, p);
    FilterKeepsAll(b, p);
    assert Filter(a, p) + [] == a;
  }

  /** Filtering a list whose only failing element sits at k removes just that element. */
  lemma FilterDropsAt<T(!new)>(s: seq<T>, k: int, p: T -> bool)
    requires 0 <= k < |s| && !p(s[k])
    requires forall i :: 0 <= i < |s| && i != k ==> p(s[i])
    ensures Filter(s, p) == s[..k] + s[k + 1..]
  {
    var before, after := s[..k], s[k + 1..];
    forall i | 0 <= i < |before| ensures p(before[i]) {
      assert before[i] == s[i];
    }
    forall i | 0 <= i < |after| ensures p(after[i]) {
      assert after[i] == s[k + 1 + i];
    }
    SplitAt(s, k);
    FilterDropsOne(before, s[k], after, p);
  }

  /** No two elements share a key. */
  predicate UniqueKeys<T, K(==)>(s: seq<T>, key: T -> K)
  {
    forall i, j :: 0 <= i < j < |s| ==> key(s[i]) != key(s[j])
  }

  /** Whether an element's key is another than k. */
  function KeyOtherThan<T, K(==)>(key: T -> K, k: K): T -> bool
  {
    (x: T) => key(x) != k
  }

  /** The elements whose key is not k, in order. */
  function WithoutKey<T(!new), K(==)>(s: seq<T>, key: T -> K, k: K): (r: seq<T>)
    ensures forall x :: x in r <==> x in s && key(x) != k
    ensures |r| <= |s|
  {
    Filter(s, KeyOtherThan(key, k))
  }

  /** Removing a key no element has keeps the list as it is. */
  lemma WithoutAbsentKey<T(!new), K>(s: seq<T>, key: T -> K, k: K)
    requires forall i :: 0 <= i < |s| ==> key(s[i]) != k
    ensures WithoutKey(s, key, k) == s
  {
    FilterKeepsAll(s, KeyOtherThan(key, k));
  }

  /**
   * With unique keys, removing the key of the element at i removes that
   * element only and keeps the others in their order.
   */
  lemma WithoutKeyAt<T(!new), K>(s: seq<T>, key: T -> K, i: int)
    requires UniqueKeys(s, key) && 0 <= i < |s|
    ensures WithoutKey(s, key, key(s[i])) == s[..i] + s[i + 1..]
  {
    FilterDropsAt(s, i, KeyOtherThan(key, key(s[i])));
  }

  /** The number of elements satisfying p. */
  function Count<T>(s: seq<T>, p: T -> bool): (n: nat)
    ensures n <= |s|
    ensures n == 0 <==> forall i :: 0 <= i < |s| ==> !p(s[i])
    ensures n == |s| <==> forall i :: 0 <= i < |s| ==> p(s[i])
  {
    if s == [] then 0
    else
      var rest := Count(s[1..], p);
      assert forall i :: 1 <= i < |s| ==> s[i] == s[1..][i - 1];
      (if p(s[0]) then 1 else 0) + rest
  }

  /** Counting is the length of the filtered list. */
  lemma {:induction false} CountIsFilterLength<T(!new)>(s: seq<T>, p: T -> bool)
    ensures Count(s, p) == |Filter(s, p)|
  {
    if s != [] {
      CountIsFilterLength(s[1..], p);
    }
  }

  lemma {:induction false} CountAppend<T>(a: seq<T>, b: seq<T>, p: T -> bool)
    ensures Count(a + b, p) == Count(a, p) + Count(b, p)
  {
    if a != [] {
      assert (a + b)[1..] == a[1..] + b;
      CountAppend(a[1..], b, p);
    } else {
      assert a + b == b;
    }
  }

  /** Leaving out one element that satisfies p counts one fewer. */
  lemma CountDropsOne<T>(a: seq<T>, x: T, b: seq<T>, p: T -> bool)
    requires p(x)
    ensures Count(a + b, p) == Count(a + [x] + b, p) - 1
  {
    CountAppend(a, b, p);
    CountAppend(a + [x], b, p);
    CountAppend(a, [x], p);
    assert [x][1..] == [];
  }

  /** Swapping one element for another changes the count only by what the two contribute. */
  lemma CountSwap<T>(a: seq<T>, x: T, y: T, b: seq<T>, p: T -> bool)
    ensures Count(a + [y] + b, p) + (if p(x) then 1 else 0) == Count(a + [x] + b, p) + (if p(y) then 1 else 0)
  {
    CountAppend(a + [y], b, p);
    CountAppend(a, [y], p);
    CountAppend(a + [x], b, p);
    CountAppend(a, [x], p);
    assert [x][1..] == [] && [y][1..] == [];
  }

  /** Updating the element at k changes the count only by what the old and the new element contribute. */
  lemma CountUpdate<T>(s: seq<T>, k: int, y: T, p: T -> bool)
    requires 0 <= k < |s|
    ensures Count(s[k := y], p) + (if p(s[k]) then 1 else 0) == Count(s, p) + (if p(y) then 1 else 0)
  {
    var a, b := s[..k], s[k + 1..];
    assert s == a + [s[k]] + b;
    assert s[k := y] == a + [y] + b;
    CountSwap(a, s[k], y, b, p);
  }

  /** Leaving out the element at k, which satisfies p, counts one fewer. */
  lemma CountWithoutAt<T>(s: seq<T>, k: int, p: T -> bool)
    requires 0 <= k < |s| && p(s[k])
    ensures Count(s[..k] + s[k + 1..], p) == Count(s, p) - 1
  {
    SplitAt(s, k);
    CountDropsOne(s[..k], s[k], s[k + 1..], p);
  }

  /** A list is what comes before k, the element at k, and what comes after. */
  lemma SplitAt<T>(s: seq<T>, k: int)
    requires 0 <= k < |s|
    ensures s[..k] + [s[k]] + s[k + 1..] == s
  {
  }

  /** `map`: f applied to each element, in order. */
  function Map<T, U>(s: seq<T>, f: T -> U): (r: seq<U>)
    ensures |r| == |s|
  {
    if s == [] then [] else Map(s[..|s| - 1], f) + [f(s[|s| - 1])]
  }

  /** The k-th element of the mapped list is the image of the k-th element. */
  lemma {:induction false} MapAt<T, U>(s: seq<T>, f: T -> U)
    ensures forall k :: 0 <= k < |s| ==> Map(s, f)[k] == f(s[k])
  {
    if s != [] {
      MapAt(s[..|s| - 1], f);
    }
  }

  /** Mapping one more element appends its image. */
  lemma MapSnoc<T, U>(s: seq<T>, i: int, f: T -> U)
    requires 0 <= i < |s|
    ensures Map(s[..i + 1], f) == Map(s[..i], f) + [f(s[i])]
  {
    assert s[..i + 1][..i] == s[..i];
  }

  /** The identity on booleans, to count the true elements of a list. */
  predicate IsTrue(b: bool) { b }

  /** No element occurs twice. */
  predicate Distinct<T(==)>(s: seq<T>)
  {
    forall i, j :: 0 <= i < j < |s| ==> s[i] != s[j]
  }
}
