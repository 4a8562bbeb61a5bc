/**
 * Sorting by a comparison, as `sorted(...)`, `sort_values(...)` and `most_common(...)` do in the
 * application. Insertion sort stands for whichever algorithm the library uses: every sort
 * by a total preorder returns a sorted permutation, which is all the model relies on.
 */
module Sorting {
  import opened Common

  /** `le` compares every pair and is transitive. */
  ghost predicate IsTotalPreorder<T(!new)>(le: (T, T) -> bool)
  {
    && (forall a, b :: le(a, b) || le(b, a))
    && (forall a, b, c :: le(a, b) && le(b, c) ==> le(a, c))
  }

  /** Every element comes before (by `le`) every later one. */
  ghost predicate SortedBy<T>(s: seq<T>, le: (T, T) -> bool)
  {
    forall i, j :: 0 <= i < j < |s| ==> le(s[i], s[j])
  }

  /** Places `x` before the first element it is `le` to. */
  function Insert<T>(x: T, s: seq<T>, le: (T, T) -> bool): (r: seq<T>)
    ensures multiset(r) == multiset(s) + multiset{x}
  {
    if s == [] || le(x, s[0]) then [x] + s
    else
      assert s == [s[0]] + s[1..];
      [s[0]] + Insert(x, s[1..], le)
  }

  function SortBy<T>(s: seq<T>, le: (T, T) -> bool): (r: seq<T>)
    ensures multiset(r) == multiset(s)
    ensures |r| == |s|
  {
    if s == [] then []
    else
      assert s == [s[0]] + s[1..];
      Insert(s[0], SortBy(s[1..], le), le)
  }

  lemma {:induction false} InsertSorted<T(!new)>(x: T, s: seq<T>, le: (T, T) -> bool)
    requires IsTotalPreorder(le)
    requires SortedBy(s, le)
    ensures SortedBy(Insert(x, s, le), le)
  {
    if s != [] && !le(x, s[0]) {
      var tail := Insert(x, s[1..], le);
      InsertSorted(x, s[1..], le);
      assert le(s[0], x);
      forall k | 0 <= k < |tail| ensures le(s[0], tail[k]) {
        assert tail[k] in multiset(tail);
        if tail[k] != x {
          assert tail[k] in multiset(s[1..]);
          var m :| 0 <= m < |s[1..]| && s[1..][m] == tail[k];
          assert s[m + 1] == tail[k];
        }
      }
      PrependSorted(s[0], tail, le);
    } else if s != [] {
      forall k | 0 <= k < |s| ensures le(x, s[k]) {
        if k > 0 {
          assert le(s[0], s[k]);
        }
      }
      PrependSorted(x, s, le);
    }
  }

  /** An element `le` to every element of a sorted sequence can go in front of it. */
  lemma PrependSorted<T>(y: T, s: seq<T>, le: (T, T) -> bool)
    requires SortedBy(s, le)
    requires forall k :: 0 <= k < |s| ==> le(y, s[k])
    ensures SortedBy([y] + s, le)
  {
    var r := [y] + s;
    forall i, j | 0 <= i < j < |r| ensures le(r[i], r[j]) {
      assert r[j] == s[j - 1];
      if i > 0 {
        assert r[i] == s[i - 1];
      }
    }
  }


  /** The result of `SortBy` is sorted (and, by its contract, a permutation of the input). */
  lemma {:induction false} SortBySorted<T(!new)>(s: seq<T>, le: (T, T) -> bool)
    requires IsTotalPreorder(le)
    ensures SortedBy(SortBy(s, le), le)
  {
    if s != [] {
      SortBySorted(s[1..], le);
      InsertSorted(s[0], SortBy(s[1..], le), le);
    }
  }

  /** An element of a sequence sits at some index. */
  lemma IndexOf<T>(s: seq<T>, x: T) returns (i: nat)
    requires x in multiset(s)
    ensures i < |s| && s[i] == x
  {
    assert x in s;
    i :| i < |s| && s[i] == x;
  }

  /** Each element of a permutation has a position in the other sequence. */
  lemma PermutationIndex<T>(a: seq<T>, b: seq<T>, j: int) returns (i: nat)
    requires multiset(a) == multiset(b) && 0 <= j < |b|
    ensures i < |a| && a[i] == b[j]
  {
    assert b[j] in multiset(b);
    i := IndexOf(a, b[j]);
  }

  /** Each element of a sequence without repeats occurs in it once. */
  lemma DistinctMultiplicity<T>(s: seq<T>, x: T)
    requires Distinct(s)
    ensures multiset(s)[x] <= 1
  {
    if s != [] {
      var init := s[..|s| - 1];
      assert s == init + [s[|s| - 1]];
      assert Distinct(init);
      DistinctMultiplicity(init, x);
      if x == s[|s| - 1] {
        assert x !in init;
      }
    }
  }

  /** A permutation of a sequence without repeats has none either. */
  lemma PermutationDistinct<T>(a: seq<T>, b: seq<T>)
    requires Distinct(a) && multiset(a) == multiset(b)
    ensures Distinct(b)
  {
    forall i, j | 0 <= i < j < |b| ensures b[i] != b[j] {
      if b[i] == b[j] {
        var x := b[i];
        assert b == b[..j] + b[j..];
        assert x in b[..j] && x in b[j..];
        assert multiset(b)[x] == multiset(b[..j])[x] + multiset(b[j..])[x];
        DistinctMultiplicity(a, x);
      }
    }
  }

  /** Removing the element at index `m` takes one copy of it out of the multiset. */
  lemma RemoveAt<T>(s: seq<T>, m: int)
    requires 0 <= m < |s|
    ensures multiset(s) == multiset(s[..m] + s[m + 1..]) + multiset{s[m]}
  {
    assert s == s[..m] + [s[m]] + s[m + 1..];
  }

  /** The members of `[x] + s` are `x` and the members of `s`. */
  lemma ConsMembers<T>(x: T, s: seq<T>)
    ensures forall y :: y in [x] + s <==> y == x || y in s
  {
    forall y | y in [x] + s ensures y == x || y in s {
      var i :| 0 <= i < |[x] + s| && ([x] + s)[i] == y;
      if i > 0 {
        assert s[i - 1] == y;
      }
    }
  }

  lemma Cancel<T>(a: multiset<T>, b: multiset<T>, x: T)
    requires a + multiset{x} == b + multiset{x}
    ensures a == b
  {
    forall e ensures a[e] == b[e] {
      assert a[e] == (a + multiset{x})[e] - multiset{x}[e];
      assert b[e] == (b + multiset{x})[e] - multiset{x}[e];
    }
  }

  /** `[f(x) for x in s]`. */
  function MapSeq<T, U>(s: seq<T>, f: T -> U): (r: seq<U>)
    ensures |r| == |s|
  {
    if s == [] then [] else [f(s[0])] + MapSeq(s[1..], f)
  }

  lemma MapSeqAll<T, U>(s: seq<T>, f: T -> U)
    ensures forall i :: 0 <= i < |s| ==> MapSeq(s, f)[i] == f(s[i])
  {
    forall i | 0 <= i < |s| ensures MapSeq(s, f)[i] == f(s[i]) {
      MapSeqAt(s, f, i);
    }
  }

  lemma {:induction false} MapSeqAt<T, U>(s: seq<T>, f: T -> U, i: int)
    requires 0 <= i < |s|
    ensures MapSeq(s, f)[i] == f(s[i])
  {
    if i > 0 {
      MapSeqAt(s[1..], f, i - 1);
    }
  }

  /** Applying a function to the elements of two permutations of each other gives two permutations again. */
  lemma {:induction false} PermutationMap<T, U>(a: seq<T>, b: seq<T>, f: T -> U)
    requires multiset(a) == multiset(b)
    ensures multiset(MapSeq(a, f)) == multiset(MapSeq(b, f))
  {
    if a == [] {
      assert |b| == |multiset(b)| == 0;
    } else {
      var m := PermutationIndex(b, a, 0);
      var rest := b[..m] + b[m + 1..];
      RemoveFirstMatching(a, b, m);
      PermutationMap(a[1..], rest, f);
      MapRemovedMultiset(b, f, m);
      MapConsMultiset(a, f);
    }
  }

  /** Taking the first element from one permutation and a copy of it from the other leaves permutations. */
  lemma RemoveFirstMatching<T>(a: seq<T>, b: seq<T>, m: int)
    requires multiset(a) == multiset(b) && |a| > 0 && 0 <= m < |b| && b[m] == a[0]
    ensures multiset(a[1..]) == multiset(b[..m] + b[m + 1..])
  {
    RemoveAt(a, 0);
    assert a[..0] + a[1..] == a[1..];
    RemoveAt(b, m);
    Cancel(multiset(a[1..]), multiset(b[..m] + b[m + 1..]), a[0]);
  }

  /** Mapping a sequence maps the element at `m` once and the rest as they are. */
  lemma MapRemovedMultiset<T, U>(b: seq<T>, f: T -> U, m: int)
    requires 0 <= m < |b|
    ensures multiset(MapSeq(b, f)) == multiset(MapSeq(b[..m] + b[m + 1..], f)) + multiset{f(b[m])}
  {
    var mapped := MapSeq(b, f);
    RemoveAt(mapped, m);
    MapRemoveAt(b, f, m);
    MapSeqAt(b, f, m);
  }

  lemma MapConsMultiset<T, U>(a: seq<T>, f: T -> U)
    requires |a| > 0
    ensures multiset(MapSeq(a, f)) == multiset(MapSeq(a[1..], f)) + multiset{f(a[0])}
  {
    var tail := MapSeq(a[1..], f);
    assert MapSeq(a, f) == [f(a[0])] + tail;
    assert multiset([f(a[0])] + tail) == multiset([f(a[0])]) + multiset(tail);
  }

  lemma {:induction false} MapRemoveAt<T, U>(s: seq<T>, f: T -> U, m: int)
    requires 0 <= m < |s|
    ensures MapSeq(s[..m] + s[m + 1..], f) == MapSeq(s, f)[..m] + MapSeq(s, f)[m + 1..]
  {
    var rest := s[..m] + s[m + 1..];
    var mapped := MapSeq(s, f);
    var removed := mapped[..m] + mapped[m + 1..];
    assert |MapSeq(rest, f)| == |removed|;
    forall i | 0 <= i < |rest| ensures MapSeq(rest, f)[i] == removed[i] {
      MapSeqAt(rest, f, i);
      if i < m {
        assert rest[i] == s[i] && removed[i] == mapped[i];
        MapSeqAt(s, f, i);
      } else {
        assert rest[i] == s[i + 1] && removed[i] == mapped[i + 1];
        MapSeqAt(s, f, i + 1);
      }
    }
  }

  /** Mapping by `key` and then by a function that undoes it gives back the sequence. */
  lemma MapInverse<T, U>(s: seq<T>, key: T -> U, back: U -> T)
    requires forall x :: x in s ==> back(key(x)) == x
    ensures MapSeq(MapSeq(s, key), back) == s
  {
    var mapped := MapSeq(s, key);
    forall i | 0 <= i < |s| ensures MapSeq(mapped, back)[i] == s[i] {
      MapSeqAt(mapped, back, i);
      MapSeqAt(s, key, i);
      assert s[i] in s;
    }
  }
}
