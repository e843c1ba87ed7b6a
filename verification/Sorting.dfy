/**
 * Sorting and filtering of sequences under a caller-supplied strict order.
 *
 * The library sort that the classifier calls is specified by its result: with a strict
 * order that is total on the elements there is exactly one ascending arrangement, so any
 * sorting algorithm returns the value of `Sort`.
 */
module Sorting {

  /** `less` is a strict order that relates every two positions of `s`. */
  ghost predicate StrictTotalOn<T>(less: (T, T) -> bool, s: seq<T>) {
    && (forall x | x in s :: !less(x, x))
    && (forall x, y | x in s && y in s && less(x, y) :: !less(y, x))
    && (forall x, y, z | x in s && y in s && z in s && less(x, y) && less(y, z) :: less(x, z))
    && (forall i, j | 0 <= i < j < |s| :: less(s[i], s[j]) || less(s[j], s[i]))
  }

  ghost predicate Ascending<T>(less: (T, T) -> bool, s: seq<T>) {
    forall i, j | 0 <= i < j < |s| :: less(s[i], s[j])
  }

  ghost predicate SameElements<T(!new)>(a: seq<T>, b: seq<T>) {
    forall x :: x in a <==> x in b
  }

  ghost predicate NoRepeats<T>(s: seq<T>) {
    forall i, j | 0 <= i < j < |s| :: s[i] != s[j]
  }

  function Insert<T>(less: (T, T) -> bool, x: T, s: seq<T>): (r: seq<T>)
    ensures |r| == |s| + 1
    ensures multiset(r) == multiset(s) + multiset{x}
  {
    if s == [] then
      [x]
    else if less(s[0], x) then
      assert s == [s[0]] + s[1..];
      [s[0]] + Insert(less, x, s[1..])
    else
      [x] + s
  }

  function Sort<T>(less: (T, T) -> bool, s: seq<T>): (r: seq<T>)
    ensures |r| == |s|
    ensures multiset(r) == multiset(s)
  {
    if s == [] then
      []
    else
      assert s == [s[0]] + s[1..];
      Insert(less, s[0], Sort(less, s[1..]))
  }

  lemma MultisetMembership<T(!new)>(a: seq<T>, b: seq<T>)
    requires multiset(a) == multiset(b)
    ensures forall x :: x in a <==> x in b
    ensures |a| == |b|
  {
    assert |multiset(a)| == |multiset(b)|;
    forall x
      ensures x in a <==> x in b
    {
      assert x in a <==> x in multiset(a);
      assert x in b <==> x in multiset(b);
    }
  }

  lemma {:induction false} InsertHolds<T(!new)>(less: (T, T) -> bool, x: T, s: seq<T>, y: T)
    requires y in Insert(less, x, s)
    ensures y == x || y in s
  {
    if s != [] && less(s[0], x) && y != s[0] {
      InsertHolds(less, x, s[1..], y);
    }
  }

  lemma AscendingCons<T>(less: (T, T) -> bool, x: T, s: seq<T>)
    requires Ascending(less, s) && forall i | 0 <= i < |s| :: less(x, s[i])
    ensures Ascending(less, [x] + s)
  {
  }

  lemma {:induction false} InsertAscending<T(!new)>(less: (T, T) -> bool, x: T, s: seq<T>)
    requires Ascending(less, s)
    requires forall y | y in s :: less(x, y) || less(y, x)
    requires forall y, z | y in s && z in s && less(x, y) && less(y, z) :: less(x, z)
    ensures Ascending(less, Insert(less, x, s))
  {
    if s != [] {
      var rest := s[1..];
      assert s == [s[0]] + rest && s[0] in s && forall y | y in rest :: y in s;
      if less(s[0], x) {
        InsertAscending(less, x, rest);
        var r := Insert(less, x, rest);
        forall i | 0 <= i < |r|
          ensures less(s[0], r[i])
        {
          InsertHolds(less, x, rest, r[i]);
        }
        AscendingCons(less, s[0], r);
      } else {
        forall i | 0 <= i < |s|
          ensures less(x, s[i])
        {
          assert s[i] in s;
        }
        AscendingCons(less, x, s);
      }
    }
  }

  lemma {:induction false} SortAscending<T(!new)>(less: (T, T) -> bool, s: seq<T>)
    requires StrictTotalOn(less, s)
    ensures Ascending(less, Sort(less, s))
  {
    if s != [] {
      assert StrictTotalOn(less, s[1..]) by {
        assert forall y | y in s[1..] :: y in s;
      }
      SortAscending(less, s[1..]);
      var rest := Sort(less, s[1..]);
      MultisetMembership(rest, s[1..]);
      assert StrictTotalOn(less, [s[0]] + rest) by {
        var all := [s[0]] + rest;
        assert forall y | y in all :: y in s;
        forall i, j | 0 <= i < j < |all|
          ensures less(all[i], all[j]) || less(all[j], all[i])
        {
          if i == 0 {
            assert rest[j - 1] in s[1..];
            var k :| 0 <= k < |s[1..]| && s[1..][k] == rest[j - 1];
            assert s[k + 1] == all[j];
          } else {
            assert less(rest[i - 1], rest[j - 1]);
          }
        }
      }
      InsertAscending(less, s[0], rest);
    }
  }

  /** An ascending arrangement is determined by its elements. */
  lemma {:induction false} AscendingUnique<T(!new)>(less: (T, T) -> bool, a: seq<T>, b: seq<T>)
    requires Ascending(less, a) && Ascending(less, b)
    requires forall x | x in a :: !less(x, x)
    requires forall x, y | x in a && y in a && less(x, y) :: !less(y, x)
    requires SameElements(a, b)
    ensures a == b
  {
    assert |b| > 0 ==> b[0] in a;
    if a != [] {
      assert a[0] in b;
      var k :| 0 <= k < |b| && b[k] == a[0];
      assert b[0] in a;
      var m :| 0 <= m < |a| && a[m] == b[0];
      assert a[0] == b[0];
      forall x
        ensures x in a[1..] <==> x in b[1..]
      {
        if x in a[1..] {
          assert x in a;
          var i :| 0 <= i < |a[1..]| && a[1..][i] == x;
          assert less(a[0], a[i + 1]);
          var j :| 0 <= j < |b| && b[j] == x;
          assert j != 0;
          assert b[1..][j - 1] == x;
        }
        if x in b[1..] {
          var j :| 0 <= j < |b[1..]| && b[1..][j] == x;
          assert x == b[j + 1] && less(b[0], b[j + 1]);
          assert x in a;
          var i :| 0 <= i < |a| && a[i] == x;
          assert i != 0;
          assert a[1..][i - 1] == x;
        }
      }
      AscendingUnique(less, a[1..], b[1..]);
      assert a == [a[0]] + a[1..] && b == [b[0]] + b[1..];
    }
  }

  /** The elements satisfying `p`, in order. */
  function Filter<T>(p: T -> bool, s: seq<T>): (r: seq<T>)
    ensures |r| <= |s|
  {
    if s == [] then
      []
    else
      var rest := Filter(p, s[..|s| - 1]);
      if p(s[|s| - 1]) then rest + [s[|s| - 1]] else rest
  }

  lemma {:induction false} FilterMembers<T(!new)>(p: T -> bool, s: seq<T>)
    ensures forall x :: x in Filter(p, s) <==> x in s && p(x)
  {
    if s != [] {
      FilterMembers(p, s[..|s| - 1]);
      assert s == s[..|s| - 1] + [s[|s| - 1]];
    }
  }

  lemma {:induction false} FilterAscending<T(!new)>(less: (T, T) -> bool, p: T -> bool, s: seq<T>)
    requires Ascending(less, s)
    ensures Ascending(less, Filter(p, s))
  {
    if s != [] {
      var init := s[..|s| - 1];
      FilterAscending(less, p, init);
      FilterMembers(p, init);
      var r := Filter(p, init);
      forall i | 0 <= i < |r|
        ensures less(r[i], s[|s| - 1])
      {
        var y: T := r[i];
        assert y in Filter(p, init);
        assert y in init;
        var k :| 0 <= k < |init| && init[k] == y;
        assert s[k] == r[i];
      }
    }
  }

  /** Two ascending sequences whose selected elements agree have the same selection. */
  lemma FilterDeterminedByElements<T(!new)>(less: (T, T) -> bool, p: T -> bool, a: seq<T>, b: seq<T>)
    requires Ascending(less, a) && Ascending(less, b)
    requires forall x | x in a :: !less(x, x)
    requires forall x, y | x in a && y in a && less(x, y) :: !less(y, x)
    requires forall x :: x in a && p(x) <==> x in b && p(x)
    ensures Filter(p, a) == Filter(p, b)
  {
    FilterMembers(p, a);
    FilterMembers(p, b);
    FilterAscending(less, p, a);
    FilterAscending(less, p, b);
    AscendingUnique(less, Filter(p, a), Filter(p, b));
  }

  lemma {:induction false} NoRepeatsCount<T(!new)>(s: seq<T>, x: T)
    requires NoRepeats(s)
    ensures multiset(s)[x] <= 1
  {
    if s != [] {
      assert s == [s[0]] + s[1..];
      NoRepeatsCount(s[1..], x);
      if s[0] == x {
        assert x !in s[1..];
        assert x !in multiset(s[1..]);
      }
    }
  }

  lemma RepeatCount<T>(s: seq<T>, i: nat, j: nat)
    requires i < j < |s| && s[i] == s[j]
    ensures multiset(s)[s[i]] >= 2
  {
    assert s == s[..i] + [s[i]] + s[i + 1..j] + [s[j]] + s[j + 1..];
  }

  lemma NoRepeatsPermutation<T(!new)>(a: seq<T>, b: seq<T>)
    requires multiset(a) == multiset(b)
    requires NoRepeats(a)
    ensures NoRepeats(b)
  {
    forall i, j | 0 <= i < j < |b|
      ensures b[i] != b[j]
    {
      if b[i] == b[j] {
        RepeatCount(b, i, j);
        NoRepeatsCount(a, b[i]);
      }
    }
  }

  lemma {:induction false} FilterMultiset<T(!new)>(p: T -> bool, s: seq<T>, x: T)
    ensures multiset(Filter(p, s))[x] == if p(x) then multiset(s)[x] else 0
  {
    if s != [] {
      assert s == s[..|s| - 1] + [s[|s| - 1]];
      FilterMultiset(p, s[..|s| - 1], x);
    }
  }

  /** A permutation leaves the selected elements, and hence their number, unchanged. */
  lemma FilterPermutation<T(!new)>(p: T -> bool, a: seq<T>, b: seq<T>)
    requires multiset(a) == multiset(b)
    ensures multiset(Filter(p, a)) == multiset(Filter(p, b))
    ensures |Filter(p, a)| == |Filter(p, b)|
  {
    forall x
      ensures multiset(Filter(p, a))[x] == multiset(Filter(p, b))[x]
    {
      FilterMultiset(p, a, x);
      FilterMultiset(p, b, x);
    }
    assert multiset(Filter(p, a)) == multiset(Filter(p, b));
    assert |multiset(Filter(p, a))| == |multiset(Filter(p, b))|;
  }

  lemma {:induction false} FilterConcat<T>(p: T -> bool, a: seq<T>, b: seq<T>)
    ensures Filter(p, a + b) == Filter(p, a) + Filter(p, b)
  {
    if b == [] {
      assert a + b == a;
    } else {
      assert (a + b)[..|a + b| - 1] == a + b[..|b| - 1];
      FilterConcat(p, a, b[..|b| - 1]);
    }
  }

  lemma {:induction false} FilterAll<T(!new)>(p: T -> bool, s: seq<T>)
    requires forall x | x in s :: p(x)
    ensures Filter(p, s) == s
  {
    if s != [] {
      assert s == s[..|s| - 1] + [s[|s| - 1]];
      FilterAll(p, s[..|s| - 1]);
    }
  }

  lemma {:induction false} FilterNone<T(!new)>(p: T -> bool, s: seq<T>)
    requires forall x | x in s :: !p(x)
    ensures Filter(p, s) == []
  {
    if s != [] {
      FilterNone(p, s[..|s| - 1]);
    }
  }

  /** Splitting by a predicate loses nothing. */
  lemma {:induction false} FilterPartition<T(!new)>(p: T -> bool, q: T -> bool, s: seq<T>)
    requires forall x :: q(x) <==> !p(x)
    ensures multiset(Filter(p, s)) + multiset(Filter(q, s)) == multiset(s)
    ensures |Filter(p, s)| + |Filter(q, s)| == |s|
  {
    if s != [] {
      assert s == s[..|s| - 1] + [s[|s| - 1]];
      FilterPartition(p, q, s[..|s| - 1]);
    }
  }

  function Map<T, U>(f: T -> U, s: seq<T>): (r: seq<U>)
    ensures |r| == |s|
    ensures forall i | 0 <= i < |s| :: r[i] == f(s[i])
  {
    seq(|s|, i requires 0 <= i < |s| => f(s[i]))
  }

  function Without<T>(s: seq<T>, k: nat): seq<T>
    requires k < |s|
  {
    s[..k] + s[k + 1..]
  }

  lemma WithoutMultiset<T>(s: seq<T>, k: nat)
    requires k < |s|
    ensures multiset(s) == multiset(Without(s, k)) + multiset{s[k]}
    ensures multiset(Without(s, k)) == multiset(s) - multiset{s[k]}
  {
    assert s == s[..k] + [s[k]] + s[k + 1..];
  }

  lemma MapWithout<T, U>(f: T -> U, s: seq<T>, k: nat)
    requires k < |s|
    ensures Map(f, Without(s, k)) == Without(Map(f, s), k)
  {
  }

  lemma {:induction false} MapPermutation<T(!new), U>(f: T -> U, a: seq<T>, b: seq<T>)
    requires multiset(a) == multiset(b)
    ensures multiset(Map(f, a)) == multiset(Map(f, b))
  {
    MultisetMembership(a, b);
    if a != [] {
      assert a[0] in b;
      var k :| 0 <= k < |b| && b[k] == a[0];
      WithoutMultiset(a, 0);
      WithoutMultiset(b, k);
      MapPermutation(f, Without(a, 0), Without(b, k));
      MapWithout(f, a, 0);
      MapWithout(f, b, k);
      WithoutMultiset(Map(f, a), 0);
      WithoutMultiset(Map(f, b), k);
    }
  }

  lemma {:induction false} FilterAgrees<T(!new)>(p: T -> bool, q: T -> bool, s: seq<T>)
    requires forall x | x in s :: p(x) == q(x)
    ensures Filter(p, s) == Filter(q, s)
  {
    if s != [] {
      assert s[|s| - 1] in s;
      assert forall x | x in s[..|s| - 1] :: x in s;
      FilterAgrees(p, q, s[..|s| - 1]);
    }
  }

  lemma {:induction false} FilterNoRepeats<T(!new)>(p: T -> bool, s: seq<T>)
    requires NoRepeats(s)
    ensures NoRepeats(Filter(p, s))
  {
    if s != [] {
      var init, last := s[..|s| - 1], s[|s| - 1];
      FilterNoRepeats(p, init);
      FilterMembers(p, init);
      assert last !in init;
      assert last !in Filter(p, init);
    }
  }

  lemma FilterSingleton<T>(p: T -> bool, x: T)
    ensures Filter(p, [x]) == if p(x) then [x] else []
  {
    assert [x][..0] == [];
  }

  ghost predicate Suffix<T>(a: seq<T>, b: seq<T>) {
    |a| <= |b| && a == b[|b| - |a|..]
  }

  lemma SuffixMembers<T(!new)>(a: seq<T>, b: seq<T>)
    requires Suffix(a, b)
    ensures forall x | x in a :: x in b
  {
  }

  lemma HeadNotInTail<T>(x: T, tail: seq<T>)
    requires NoRepeats([x] + tail)
    ensures x !in tail
  {
    forall k | 0 <= k < |tail|
      ensures tail[k] != x
    {
      assert ([x] + tail)[0] != ([x] + tail)[k + 1];
    }
  }

  /** Removing the head of the whole list from a suffix of it leaves a suffix of the tail. */
  lemma RemoveHeadFromSuffix<T(!new)>(p: T -> bool, ids: seq<T>, x: T, tail: seq<T>)
    requires NoRepeats([x] + tail) && Suffix(ids, [x] + tail)
    requires forall y :: p(y) <==> y != x
    ensures Suffix(Filter(p, ids), tail)
  {
    HeadNotInTail(x, tail);
    if |ids| == |tail| + 1 {
      assert ids == [x] + tail;
      FilterConcat(p, [x], tail);
      FilterSingleton(p, x);
      FilterAll(p, tail);
    } else {
      assert ids == tail[|tail| - |ids|..];
      SuffixMembers(ids, tail);
      FilterAll(p, ids);
    }
  }

  lemma TailMembers<T(!new)>(s: seq<T>, x: T)
    requires NoRepeats(s) && s != []
    ensures x in s[1..] <==> x in s && x != s[0]
  {
    assert s == [s[0]] + s[1..];
    HeadNotInTail(s[0], s[1..]);
  }

  lemma AppendNoRepeats<T(!new)>(s: seq<T>, x: T)
    requires NoRepeats(s) && x !in s
    ensures NoRepeats(s + [x])
  {
  }

  // ---- sorting with ties ---------------------------------------------------

  ghost predicate WeaklySorted<T>(less: (T, T) -> bool, s: seq<T>) {
    forall i, j | 0 <= i < j < |s| :: !less(s[j], s[i])
  }

  /** A strict order in which being incomparable is transitive. */
  ghost predicate StrictWeakOrder<T(!new)>(less: (T, T) -> bool) {
    && (forall x, y | less(x, y) :: !less(y, x))
    && (forall x, y, z | less(x, y) && less(y, z) :: less(x, z))
    && (forall x, y, z | !less(y, x) && !less(z, y) :: !less(z, x))
  }

  lemma {:induction false} InsertWeaklySorted<T(!new)>(less: (T, T) -> bool, x: T, s: seq<T>)
    requires StrictWeakOrder(less) && WeaklySorted(less, s)
    ensures WeaklySorted(less, Insert(less, x, s))
  {
    if s != [] && less(s[0], x) {
      assert s == [s[0]] + s[1..];
      var rest := s[1..];
      InsertWeaklySorted(less, x, rest);
      var r := Insert(less, x, rest);
      MultisetMembership(r, rest + [x]);
      forall i | 0 <= i < |r|
        ensures !less(r[i], s[0])
      {
        assert r[i] in rest + [x];
      }
    }
  }

  lemma {:induction false} SortWeaklySorted<T(!new)>(less: (T, T) -> bool, s: seq<T>)
    requires StrictWeakOrder(less)
    ensures WeaklySorted(less, Sort(less, s))
  {
    if s != [] {
      SortWeaklySorted(less, s[1..]);
      InsertWeaklySorted(less, s[0], Sort(less, s[1..]));
    }
  }

  /** Weakly sorted without neighbouring ties is strictly ascending. */
  lemma NoTiesAscending<T(!new)>(less: (T, T) -> bool, s: seq<T>)
    requires StrictWeakOrder(less) && WeaklySorted(less, s)
    requires forall i | 1 <= i < |s| :: less(s[i - 1], s[i])
    ensures Ascending(less, s)
  {
    forall i, j | 0 <= i < j < |s|
      ensures less(s[i], s[j])
    {
      AscendingBetween(less, s, i, j);
    }
  }

  lemma {:induction false} AscendingBetween<T(!new)>(less: (T, T) -> bool, s: seq<T>, i: nat, j: nat)
    requires StrictWeakOrder(less)
    requires forall k | 1 <= k < |s| :: less(s[k - 1], s[k])
    requires i < j < |s|
    ensures less(s[i], s[j])
  {
    assert less(s[j - 1], s[j]);
    if i < j - 1 {
      AscendingBetween(less, s, i, j - 1);
    }
  }

  /** An ascending sequence is its own sorted arrangement. */
  lemma {:induction false} SortOfAscending<T(!new)>(less: (T, T) -> bool, s: seq<T>)
    requires StrictWeakOrder(less) && Ascending(less, s)
    ensures Sort(less, s) == s
  {
    if s != [] {
      SortOfAscending(less, s[1..]);
      assert s == [s[0]] + s[1..];
    }
  }
}
