/**
 * Array.prototype.sort with a consistent comparator, as the source uses it:
 * a stable sort. A comparator is represented by a key into Rank, compared
 * lexicographically, and the sort is insertion sort: the element taken
 * from the front of the input goes before every element it does not rank
 * strictly after, so equal-ranked elements keep their input order.
 */
module Sorting {

  datatype Rank = Rank(major: int, minor: int)

  /** a ranks strictly before b. */
  predicate Before(a: Rank, b: Rank)
  {
    a.major < b.major || (a.major == b.major && a.minor < b.minor)
  }

  ghost predicate SortedBy<T>(s: seq<T>, key: T -> Rank)
  {
    forall i, j :: 0 <= i < j < |s| ==> !Before(key(s[j]), key(s[i]))
  }

  /** The elements of s whose rank is k, in the order of s. */
  function WithRank<T>(s: seq<T>, key: T -> Rank, k: Rank): seq<T>
  {
    if s == [] then []
    else (if key(s[0]) == k then [s[0]] else []) + WithRank(s[1..], key, k)
  }

  function InsertBy<T>(x: T, s: seq<T>, key: T -> Rank): seq<T>
  {
    if s == [] || !Before(key(s[0]), key(x)) then [x] + s
    else [s[0]] + InsertBy(x, s[1..], key)
  }

  /**
   * The stable sort. Its result is a permutation of the input, in
   * ascending rank, and for every rank the elements of that rank appear in
   * their input order.
   */
  function StableSortBy<T(==)>(xs: seq<T>, key: T -> Rank): (r: seq<T>)
    ensures |r| == |xs|
    ensures multiset(r) == multiset(xs)
    ensures SortedBy(r, key)
    ensures forall k :: WithRank(r, key, k) == WithRank(xs, key, k)
  {
    if xs == [] then []
    else
      var rest := StableSortBy(xs[1..], key);
      InsertByProperties(xs[0], rest, key);
      assert xs == [xs[0]] + xs[1..];
      InsertBy(xs[0], rest, key)
  }

  lemma InsertByProperties<T>(x: T, s: seq<T>, key: T -> Rank)
    requires SortedBy(s, key)
    ensures |InsertBy(x, s, key)| == |s| + 1
    ensures multiset(InsertBy(x, s, key)) == multiset(s) + multiset{x}
    ensures SortedBy(InsertBy(x, s, key), key)
    ensures forall k :: WithRank(InsertBy(x, s, key), key, k) == (if key(x) == k then [x] else []) + WithRank(s, key, k)
  {
    InsertByPermutes(x, s, key);
    InsertBySorted(x, s, key);
    forall k ensures WithRank(InsertBy(x, s, key), key, k) == (if key(x) == k then [x] else []) + WithRank(s, key, k) {
      InsertByWithRank(x, s, key, k);
    }
  }

  lemma {:induction false} InsertByPermutes<T>(x: T, s: seq<T>, key: T -> Rank)
    ensures |InsertBy(x, s, key)| == |s| + 1
    ensures multiset(InsertBy(x, s, key)) == multiset(s) + multiset{x}
  {
    if s == [] || !Before(key(s[0]), key(x)) {
    } else {
      InsertByPermutes(x, s[1..], key);
      assert s == [s[0]] + s[1..];
    }
  }

  /** Inserting x before the first element not ranked strictly before it keeps the order. */
  lemma {:induction false} InsertBySorted<T>(x: T, s: seq<T>, key: T -> Rank)
    requires SortedBy(s, key)
    ensures SortedBy(InsertBy(x, s, key), key)
  {
    if s == [] || !Before(key(s[0]), key(x)) {
      var r := [x] + s;
      forall i, j | 0 <= i < j < |r| ensures !Before(key(r[j]), key(r[i])) {
        assert r[j] == s[j - 1];
        if i > 0 {
          assert r[i] == s[i - 1];
        } else {
          assert !Before(key(s[j - 1]), key(s[0]));
        }
      }
    } else {
      var tail := s[1..];
      assert SortedBy(tail, key) by {
        forall i, j | 0 <= i < j < |tail| ensures !Before(key(tail[j]), key(tail[i])) {
          assert tail[i] == s[i + 1] && tail[j] == s[j + 1];
        }
      }
      InsertBySorted(x, tail, key);
      InsertByPermutes(x, tail, key);
      var ins := InsertBy(x, tail, key);
      var r := [s[0]] + ins;
      forall i, j | 0 <= i < j < |r| ensures !Before(key(r[j]), key(r[i])) {
        assert r[j] == ins[j - 1];
        if i > 0 {
          assert r[i] == ins[i - 1];
        } else {
          // every element of ins is x or an element of tail, none ranked before s[0]
          assert r[j] in multiset(ins);
          if r[j] != x {
            assert r[j] in multiset(tail);
            var m :| 0 <= m < |tail| && tail[m] == r[j];
            assert tail[m] == s[m + 1];
          }
        }
      }
    }
  }

  lemma {:induction false} InsertByWithRank<T>(x: T, s: seq<T>, key: T -> Rank, k: Rank)
    ensures WithRank(InsertBy(x, s, key), key, k) == (if key(x) == k then [x] else []) + WithRank(s, key, k)
  {
    if s == [] || !Before(key(s[0]), key(x)) {
      var r := [x] + s;
      assert r[1..] == s;
    } else {
      InsertByWithRank(x, s[1..], key, k);
      var r := [s[0]] + InsertBy(x, s[1..], key);
      assert r[1..] == InsertBy(x, s[1..], key);
    }
  }

  /** Ascending sort of numbers, as `sort((a, b) => a - b)`. */
  function SortInts(xs: seq<int>): (r: seq<int>)
    ensures |r| == |xs|
    ensures multiset(r) == multiset(xs)
    ensures forall i, j :: 0 <= i < j < |r| ==> r[i] <= r[j]
  {
    var r := StableSortBy(xs, IntRank);
    assert forall i, j :: 0 <= i < j < |r| ==> !Before(IntRank(r[j]), IntRank(r[i]));
    r
  }

  function IntRank(x: int): Rank
  {
    Rank(x, 0)
  }

  /** Two ascending sequences with the same elements are equal. */
  lemma {:induction false} AscendingUnique(a: seq<int>, b: seq<int>)
    requires multiset(a) == multiset(b)
    requires forall i, j :: 0 <= i < j < |a| ==> a[i] <= a[j]
    requires forall i, j :: 0 <= i < j < |b| ==> b[i] <= b[j]
    ensures a == b
  {
    assert |a| == |multiset(a)| == |multiset(b)| == |b|;
    if a != [] {
      AscendingHeads(a, b);
      TailsPermuted(a, b);
      AscendingUnique(a[1..], b[1..]);
    }
  }

  /** Two ascending permutations of each other start with the same element. */
  lemma AscendingHeads(a: seq<int>, b: seq<int>)
    requires a != [] && b != [] && multiset(a) == multiset(b)
    requires forall i, j :: 0 <= i < j < |a| ==> a[i] <= a[j]
    requires forall i, j :: 0 <= i < j < |b| ==> b[i] <= b[j]
    ensures a[0] == b[0]
  {
    assert a[0] in multiset(b) && b[0] in multiset(a);
    var i :| 0 <= i < |b| && b[i] == a[0];
    var j :| 0 <= j < |a| && a[j] == b[0];
    assert b[0] <= b[i] && a[0] <= a[j];
  }

  /** Taking equal first elements off two permutations of each other leaves permutations. */
  lemma TailsPermuted<T>(a: seq<T>, b: seq<T>)
    requires a != [] && b != [] && multiset(a) == multiset(b) && a[0] == b[0]
    ensures multiset(a[1..]) == multiset(b[1..])
  {
    assert a == [a[0]] + a[1..] && b == [b[0]] + b[1..];
    assert multiset(a) == multiset{a[0]} + multiset(a[1..]);
    assert multiset(b) == multiset{b[0]} + multiset(b[1..]);
    forall e ensures multiset(a[1..])[e] == multiset(b[1..])[e] {
      assert multiset(a)[e] == multiset(b)[e];
    }
  }

  /** Taking the last element off one of two permutations and any equal one off the other leaves permutations. */
  lemma LastRemoved<T>(a: seq<T>, b: seq<T>, j: nat)
    requires multiset(a) == multiset(b) && a != [] && j < |b| && b[j] == a[|a| - 1]
    ensures multiset(a[..|a| - 1]) == multiset(b[..j] + b[j + 1..])
  {
    var init := a[..|a| - 1];
    var x := a[|a| - 1];
    var rest := b[..j] + b[j + 1..];
    assert a == init + [x];
    assert b == b[..j] + [x] + b[j + 1..];
    assert multiset(b) == multiset(rest) + multiset{x};
    assert multiset(a) == multiset(init) + multiset{x};
    forall e ensures multiset(init)[e] == multiset(rest)[e] {
      assert multiset(a)[e] == multiset(b)[e];
    }
  }
}
