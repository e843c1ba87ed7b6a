/** Listing the keys of a table in identity order, independent of how the table is stored. */
module Enumeration {
  import opened Domain
  import opened Sorting

  ghost predicate IsLeast(m: string, s: set<string>) {
    m in s && forall x | x in s :: x == m || TextLess(m, x)
  }

  lemma {:induction false} LeastExists(s: set<string>)
    requires s != {}
    ensures exists m :: IsLeast(m, s)
    decreases |s|
  {
    var m :| m in s;
    if s == {m} {
      assert IsLeast(m, s);
    } else {
      LeastExists(s - {m});
      var n :| IsLeast(n, s - {m});
      TextLessTotal(m, n);
      if TextLess(n, m) {
        assert IsLeast(n, s);
      } else {
        forall x | x in s
          ensures x == m || TextLess(m, x)
        {
          if x != m && x != n {
            TextLessTransitive(m, n, x);
          }
        }
        assert IsLeast(m, s);
      }
    }
  }

  ghost function Least(s: set<string>): (m: string)
    requires s != {}
    ensures IsLeast(m, s)
  {
    LeastExists(s);
    var m :| IsLeast(m, s);
    m
  }

  /** The members of a finite set of identities in ascending order. */
  ghost function SortedIds(s: set<string>): (r: seq<string>)
    ensures |r| == |s|
    decreases |s|
  {
    if s == {} then [] else [Least(s)] + SortedIds(s - {Least(s)})
  }

  lemma {:induction false} SortedIdsProperties(s: set<string>)
    ensures forall x :: x in SortedIds(s) <==> x in s
    ensures Ascending(TextLess, SortedIds(s))
    decreases |s|
  {
    if s != {} {
      var m := Least(s);
      SortedIdsProperties(s - {m});
      var rest := SortedIds(s - {m});
      forall i | 0 <= i < |rest|
        ensures TextLess(m, rest[i])
      {
        assert rest[i] in rest;
      }
    }
  }

  /** The entries of a table in identity order. */
  ghost function Entries<T>(m: map<string, T>): (r: seq<T>)
    ensures |r| == |m|
  {
    SortedIdsProperties(m.Keys);
    assert forall i | 0 <= i < |SortedIds(m.Keys)| :: SortedIds(m.Keys)[i] in SortedIds(m.Keys);
    seq(|m|, i requires 0 <= i < |m| => m[SortedIds(m.Keys)[i]])
  }

  lemma EntriesMembers<T(!new)>(m: map<string, T>)
    ensures forall k | k in m :: m[k] in Entries(m)
    ensures forall i | 0 <= i < |Entries(m)| :: SortedIds(m.Keys)[i] in m && Entries(m)[i] == m[SortedIds(m.Keys)[i]]
  {
    SortedIdsProperties(m.Keys);
    var ids := SortedIds(m.Keys);
    forall i | 0 <= i < |ids|
      ensures ids[i] in m
    {
      assert ids[i] in ids;
    }
    forall k | k in m
      ensures m[k] in Entries(m)
    {
      assert k in ids;
      var i :| 0 <= i < |ids| && ids[i] == k;
      assert Entries(m)[i] == m[k];
    }
  }

  // ---- collecting and sorting a table -------------------------------------

  ghost predicate Keyed<T>(m: map<string, T>, key: T -> string) {
    forall k | k in m :: key(m[k]) == k
  }

  function ByKey<T>(key: T -> string): (T, T) -> bool {
    (a, b) => TextLess(key(a), key(b))
  }

  ghost predicate DistinctKeys<T>(key: T -> string, s: seq<T>) {
    forall i, j | 0 <= i < j < |s| :: key(s[i]) != key(s[j])
  }

  lemma ByKeyTotal<T(!new)>(key: T -> string, s: seq<T>)
    requires DistinctKeys(key, s)
    ensures StrictTotalOn(ByKey(key), s)
  {
    forall x | x in s
      ensures !ByKey(key)(x, x)
    {
      TextLessIrreflexive(key(x));
    }
    forall x, y | x in s && y in s && ByKey(key)(x, y)
      ensures !ByKey(key)(y, x)
    {
      TextLessAsymmetric(key(x), key(y));
    }
    forall x, y, z | x in s && y in s && z in s && ByKey(key)(x, y) && ByKey(key)(y, z)
      ensures ByKey(key)(x, z)
    {
      TextLessTransitive(key(x), key(y), key(z));
    }
    forall i, j | 0 <= i < j < |s|
      ensures ByKey(key)(s[i], s[j]) || ByKey(key)(s[j], s[i])
    {
      TextLessTotal(key(s[i]), key(s[j]));
    }
  }

  lemma EntriesAscending<T(!new)>(m: map<string, T>, key: T -> string)
    requires Keyed(m, key)
    ensures Ascending(ByKey(key), Entries(m))
  {
    SortedIdsProperties(m.Keys);
    EntriesMembers(m);
  }

  lemma EntriesAreValues<T(!new)>(m: map<string, T>, x: T)
    ensures x in Entries(m) <==> exists k | k in m :: m[k] == x
  {
    EntriesMembers(m);
    var es := Entries(m);
    if x in es {
      var i :| 0 <= i < |es| && es[i] == x;
      assert m[SortedIds(m.Keys)[i]] == x;
    }
  }

  /** Any sorted listing of the values of a table is its listing in identity order. */
  lemma EntriesUnique<T(!new)>(m: map<string, T>, key: T -> string, r: seq<T>)
    requires Keyed(m, key) && DistinctKeys(key, r)
    requires forall x :: x in r <==> exists k | k in m :: m[k] == x
    ensures Sort(ByKey(key), r) == Entries(m)
  {
    ByKeyTotal(key, r);
    SortAscending(ByKey(key), r);
    EntriesAscending(m, key);
    var sorted := Sort(ByKey(key), r);
    MultisetMembership(sorted, r);
    forall x
      ensures x in sorted <==> x in Entries(m)
    {
      EntriesAreValues(m, x);
    }
    AscendingUnique(ByKey(key), sorted, Entries(m));
  }

  /** Collects the values of a table and sorts them by identity. */
  method SortedEntries<T(!new)>(m: map<string, T>, key: T -> string) returns (out: seq<T>)
    requires Keyed(m, key)
    ensures out == Entries(m)
  {
    out := [];
    var todo := m.Keys;
    while todo != {}
      invariant todo <= m.Keys
      invariant DistinctKeys(key, out)
      invariant forall i | 0 <= i < |out| :: key(out[i]) in m && key(out[i]) !in todo && m[key(out[i])] == out[i]
      invariant forall k | k in m && k !in todo :: m[k] in out
      decreases |todo|
    {
      var k :| k in todo;
      out := out + [m[k]];
      todo := todo - {k};
    }
    forall x
      ensures x in out <==> exists k | k in m :: m[k] == x
    {
      if x in out {
        var i :| 0 <= i < |out| && out[i] == x;
        assert m[key(out[i])] == x;
      }
    }
    EntriesUnique(m, key, out);
    out := Sort(ByKey(key), out);
  }
}
