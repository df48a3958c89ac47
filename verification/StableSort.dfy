/** The stable sort by a (position, priority) key that the history engine ends with. */
module StableSort {
  import opened Base

  datatype Keyed<+T> = Keyed(index: nat, priority: nat, value: T)

  predicate Before<T>(a: Keyed<T>, b: Keyed<T>) {
    a.index < b.index || (a.index == b.index && a.priority < b.priority)
  }

  predicate SameKey<T>(a: Keyed<T>, b: Keyed<T>) {
    a.index == b.index && a.priority == b.priority
  }

  ghost predicate Sorted<T>(s: seq<Keyed<T>>) {
    forall i, j :: 0 <= i < j < |s| ==> !Before(s[j], s[i])
  }

  ghost predicate StrictlySorted<T>(s: seq<Keyed<T>>) {
    forall i, j :: 0 <= i < j < |s| ==> Before(s[i], s[j])
  }

  ghost predicate DistinctKeys<T>(s: seq<Keyed<T>>) {
    forall i, j :: 0 <= i < j < |s| ==> !SameKey(s[i], s[j])
  }

  /** Places `x` behind every element whose key is not greater. */
  function Insert<T>(s: seq<Keyed<T>>, x: Keyed<T>): (r: seq<Keyed<T>>)
    ensures |r| == |s| + 1
  {
    if s == [] || !Before(x, Last(s)) then s + [x]
    else Insert(Front(s), x) + [Last(s)]
  }

  function Sort<T>(s: seq<Keyed<T>>): (r: seq<Keyed<T>>)
    ensures |r| == |s|
  {
    if s == [] then [] else Insert(Sort(Front(s)), Last(s))
  }

  lemma {:induction false} InsertKeeps<T>(s: seq<Keyed<T>>, x: Keyed<T>)
    ensures multiset(Insert(s, x)) == multiset(s) + multiset{x}
    ensures forall y :: y in Insert(s, x) ==> y == x || y in s
  {
    if s == [] || !Before(x, Last(s)) {
    } else {
      InsertKeeps(Front(s), x);
      assert s == Front(s) + [Last(s)];
    }
  }

  lemma {:induction false} InsertSorted<T>(s: seq<Keyed<T>>, x: Keyed<T>)
    requires Sorted(s)
    ensures Sorted(Insert(s, x))
  {
    if s == [] || !Before(x, Last(s)) {
    } else {
      InsertSorted(Front(s), x);
      InsertKeeps(Front(s), x);
      forall y | y in Insert(Front(s), x)
        ensures !Before(Last(s), y)
      {
        if y in Front(s) {
          var i :| 0 <= i < |Front(s)| && Front(s)[i] == y;
          assert s[i] == y;
        }
      }
    }
  }

  lemma {:induction false} SortSorted<T>(s: seq<Keyed<T>>)
    ensures Sorted(Sort(s))
    ensures multiset(Sort(s)) == multiset(s)
  {
    if s != [] {
      SortSorted(Front(s));
      InsertSorted(Sort(Front(s)), Last(s));
      InsertKeeps(Sort(Front(s)), Last(s));
      assert s == Front(s) + [Last(s)];
    }
  }

  lemma SortMembers<T>(s: seq<Keyed<T>>)
    ensures forall x :: x in Sort(s) <==> x in s
  {
    SortSorted(s);
    forall x
      ensures x in Sort(s) <==> x in s
    {
      assert x in Sort(s) <==> x in multiset(Sort(s));
      assert x in s <==> x in multiset(s);
    }
  }

  lemma {:induction false} SortIdentity<T>(s: seq<Keyed<T>>)
    requires Sorted(s)
    ensures Sort(s) == s
  {
    if s != [] {
      SortIdentity(Front(s));
      assert Front(s) + [Last(s)] == s;
      if Front(s) != [] {
        assert Last(Front(s)) == s[|s| - 2];
      }
    }
  }

  lemma SameHead<T>(a: seq<Keyed<T>>, b: seq<Keyed<T>>)
    requires StrictlySorted(a) && StrictlySorted(b)
    requires multiset(a) == multiset(b) && a != []
    ensures b != [] && a[0] == b[0]
  {
    assert a[0] in multiset(b);
    assert b[0] in multiset(a);
    var i :| 0 <= i < |b| && b[i] == a[0];
    var j :| 0 <= j < |a| && a[j] == b[0];
    assert i > 0 ==> Before(b[0], a[0]);
    assert j > 0 ==> Before(a[0], b[0]);
  }

  lemma Unhead<T>(a: seq<T>)
    requires a != []
    ensures multiset(a[1..]) == multiset(a) - multiset{a[0]}
  {
    assert a == [a[0]] + a[1..];
  }

  /** A sequence in strict key order is determined by its elements. */
  lemma {:induction false} StrictOrderIsUnique<T>(a: seq<Keyed<T>>, b: seq<Keyed<T>>)
    requires StrictlySorted(a) && StrictlySorted(b)
    requires multiset(a) == multiset(b)
    ensures a == b
  {
    assert |multiset(a)| == |a| && |multiset(b)| == |b|;
    if a != [] {
      SameHead(a, b);
      Unhead(a);
      Unhead(b);
      StrictOrderIsUnique(a[1..], b[1..]);
      assert a == [a[0]] + a[1..] && b == [b[0]] + b[1..];
    }
  }

  lemma {:induction false} DistinctCount<T>(s: seq<Keyed<T>>, x: Keyed<T>)
    requires DistinctKeys(s)
    ensures multiset(s)[x] <= 1
  {
    if s != [] {
      DistinctCount(Front(s), x);
      assert s == Front(s) + [Last(s)];
      if x == Last(s) && x in Front(s) {
        var i :| 0 <= i < |Front(s)| && Front(s)[i] == x;
        assert SameKey(s[i], s[|s| - 1]);
        assert false;
      }
      assert x !in Front(s) ==> multiset(Front(s))[x] == 0;
    }
  }

  /** Equal elements and distinct keys make two sequences permutations of each other. */
  lemma SameMultiset<T>(a: seq<Keyed<T>>, b: seq<Keyed<T>>)
    requires DistinctKeys(a) && DistinctKeys(b)
    requires forall x :: x in a <==> x in b
    ensures multiset(a) == multiset(b)
  {
    forall x
      ensures multiset(a)[x] == multiset(b)[x]
    {
      DistinctCount(a, x);
      DistinctCount(b, x);
      assert x in a <==> x in multiset(a);
      assert x in b <==> x in multiset(b);
    }
  }

  lemma SortStrict<T>(s: seq<Keyed<T>>)
    requires DistinctKeys(s)
    ensures StrictlySorted(Sort(s))
  {
    SortSorted(s);
    var r := Sort(s);
    forall i, j | 0 <= i < j < |r|
      ensures Before(r[i], r[j])
    {
      if SameKey(r[i], r[j]) {
        assert r[i] in multiset(r) && r[j] in multiset(r);
        assert r[i] in s && r[j] in s;
        var k :| 0 <= k < |s| && s[k] == r[i];
        var l :| 0 <= l < |s| && s[l] == r[j];
        if k == l {
          TwoPlaces(r, i, j);
          DistinctCount(s, s[k]);
        }
        assert false;
      }
    }
  }

  lemma TwoPlaces<T>(r: seq<T>, i: nat, j: nat)
    requires i < j < |r| && r[i] == r[j]
    ensures multiset(r)[r[i]] >= 2
  {
    assert r == r[..j] + [r[j]] + r[j + 1..];
    assert r[i] == r[..j][i];
    assert r[i] in r[..j];
    assert r[i] in multiset(r[..j]);
  }

  /** The order in which distinctly keyed elements arrive does not affect the sorted result. */
  lemma SortForgetsOrder<T>(a: seq<Keyed<T>>, b: seq<Keyed<T>>)
    requires DistinctKeys(a) && DistinctKeys(b)
    requires forall x :: x in a <==> x in b
    ensures Sort(a) == Sort(b)
  {
    SameMultiset(a, b);
    SortSorted(a);
    SortSorted(b);
    SortStrict(a);
    SortStrict(b);
    StrictOrderIsUnique(Sort(a), Sort(b));
  }

  /** A strictly ordered sequence with the same elements is the sorted form of a distinctly keyed one. */
  lemma SortedForm<T>(a: seq<Keyed<T>>, b: seq<Keyed<T>>)
    requires DistinctKeys(a) && StrictlySorted(b)
    requires forall x :: x in a <==> x in b
    ensures Sort(a) == b
  {
    SortForgetsOrder(a, b);
    SortIdentity(b);
  }

  lemma {:induction false} SortExtends<T>(a: seq<Keyed<T>>, b: seq<Keyed<T>>, c: seq<Keyed<T>>)
    requires Sort(a) == Sort(b)
    ensures Sort(a + c) == Sort(b + c)
  {
    if c == [] {
      assert a + c == a && b + c == b;
    } else {
      assert Front(a + c) == a + Front(c) && Front(b + c) == b + Front(c);
      assert Last(a + c) == Last(c) == Last(b + c);
      SortExtends(a, b, Front(c));
    }
  }

  /** A strictly ordered permutation of `s` is its sorted form. */
  lemma SortIs<T>(s: seq<Keyed<T>>, t: seq<Keyed<T>>)
    requires StrictlySorted(t)
    requires multiset(s) == multiset(t)
    ensures Sort(s) == t
  {
    SortSorted(s);
    SortSorted(t);
    assert DistinctKeys(t);
    var r := Sort(s);
    forall i, j | 0 <= i < j < |r|
      ensures Before(r[i], r[j])
    {
      assert r[i] in multiset(r) && r[j] in multiset(r);
      assert r[i] in multiset(t) && r[j] in multiset(t);
      var k :| 0 <= k < |t| && t[k] == r[i];
      var l :| 0 <= l < |t| && t[l] == r[j];
      if k == l {
        TwoPlaces(r, i, j);
        DistinctCount(t, t[k]);
        assert false;
      }
    }
    StrictOrderIsUnique(r, t);
  }

  /** Strictly ordered parts, each at its own position, form a strictly ordered whole. */
  lemma {:induction false} ConcatStrict<T>(parts: seq<seq<Keyed<T>>>)
    requires forall i :: 0 <= i < |parts| ==> StrictlySorted(parts[i])
    requires forall i, e :: 0 <= i < |parts| && e in parts[i] ==> e.index == i
    ensures StrictlySorted(Concat(parts))
    ensures forall e :: e in Concat(parts) ==> e.index < |parts|
  {
    if parts != [] {
      ConcatStrict(Front(parts));
    }
  }

  // ---- Entries collected from a map in arbitrary order ---------------------------------------

  ghost predicate Spread<K, T>(at: map<K, Keyed<T>>) {
    forall r, q :: r in at && q in at && r != q ==> !SameKey(at[r], at[q])
  }

  /** `entries` holds exactly the values of `at` at the keys in `done`. */
  ghost predicate Holds<K, T>(at: map<K, Keyed<T>>, done: set<K>, entries: seq<Keyed<T>>) {
    && done <= at.Keys
    && DistinctKeys(entries)
    && (forall r :: r in done ==> at[r] in entries)
    && (forall e :: e in entries ==> exists r :: r in done && e == at[r])
  }

  lemma HoldsOneMore<K, T>(at: map<K, Keyed<T>>, done: set<K>, entries: seq<Keyed<T>>, r: K)
    requires Spread(at) && Holds(at, done, entries)
    requires r in at && r !in done
    ensures Holds(at, done + {r}, entries + [at[r]])
  {
    forall i | 0 <= i < |entries|
      ensures !SameKey(entries[i], at[r])
    {
      assert entries[i] in entries;
    }
  }

  /** Whatever order the keys came in, sorting the entries before the same tail gives the same list. */
  lemma HoldsAll<K, T>(at: map<K, Keyed<T>>, entries: seq<Keyed<T>>, target: seq<Keyed<T>>, tail: seq<Keyed<T>>)
    requires Holds(at, at.Keys, entries) && DistinctKeys(target)
    requires forall e :: e in target <==> exists r :: r in at && e == at[r]
    ensures Sort(entries + tail) == Sort(target + tail)
  {
    SortForgetsOrder(entries, target);
    SortExtends(entries, target, tail);
  }
}
