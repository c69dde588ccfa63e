/** `[...s].sort(compare)`: a stable sort by insertion, what it guarantees, and why sorting is
    canonical when the order is strict. */
module StableSort {
  import opened Collections

  type Compare<!T> = (T, T) -> int

  function Insert<T>(s: seq<T>, x: T, cmp: Compare<T>): (r: seq<T>)
    ensures |r| == |s| + 1
  {
    if s == [] || cmp(s[|s| - 1], x) <= 0 then s + [x] else Insert(s[..|s| - 1], x, cmp) + [s[|s| - 1]]
  }

  function Sort<T>(s: seq<T>, cmp: Compare<T>): (r: seq<T>)
    ensures |r| == |s|
  {
    if s == [] then [] else Insert(Sort(s[..|s| - 1], cmp), s[|s| - 1], cmp)
  }

  ghost predicate Ordered<T>(s: seq<T>, cmp: Compare<T>) {
    forall i, j :: 0 <= i < j < |s| ==> cmp(s[i], s[j]) <= 0
  }

  ghost predicate Preorder<T(!new)>(cmp: Compare<T>) {
    && (forall a, b :: cmp(a, b) <= 0 || cmp(b, a) <= 0)
    && (forall a, b, c :: cmp(a, b) <= 0 && cmp(b, c) <= 0 ==> cmp(a, c) <= 0)
  }

  lemma SortOneMore<T>(s: seq<T>, x: T, cmp: Compare<T>)
    ensures Sort(s + [x], cmp) == Insert(Sort(s, cmp), x, cmp)
  {
    assert (s + [x])[..|s|] == s;
  }

  lemma {:induction false} SortedStays<T>(s: seq<T>, cmp: Compare<T>)
    requires Ordered(s, cmp)
    ensures Sort(s, cmp) == s
  {
    if s != [] {
      var n := |s| - 1;
      SortedStays(s[..n], cmp);
      assert n > 0 ==> cmp(s[n - 1], s[n]) <= 0;
      assert s == s[..n] + [s[n]];
    }
  }

  lemma {:induction false} InsertMembers<T>(s: seq<T>, x: T, cmp: Compare<T>, y: T)
    ensures y in Insert(s, x, cmp) <==> y in s || y == x
  {
    if s != [] && cmp(s[|s| - 1], x) > 0 {
      InsertMembers(s[..|s| - 1], x, cmp, y);
      assert s == s[..|s| - 1] + [s[|s| - 1]];
    }
  }

  lemma OrderedSnoc<T>(s: seq<T>, x: T, cmp: Compare<T>)
    requires Ordered(s, cmp) && forall i :: 0 <= i < |s| ==> cmp(s[i], x) <= 0
    ensures Ordered(s + [x], cmp)
  {
  }

  lemma AllBelow<T(!new)>(s: seq<T>, x: T, cmp: Compare<T>)
    requires Preorder(cmp) && Ordered(s, cmp) && s != [] && cmp(s[|s| - 1], x) <= 0
    ensures forall i :: 0 <= i < |s| ==> cmp(s[i], x) <= 0
  {
    forall i | 0 <= i < |s| - 1
      ensures cmp(s[i], x) <= 0
    {
      assert cmp(s[i], s[|s| - 1]) <= 0;
    }
  }

  lemma {:induction false} InsertKeepsOrdered<T(!new)>(s: seq<T>, x: T, cmp: Compare<T>)
    requires Preorder(cmp) && Ordered(s, cmp)
    ensures Ordered(Insert(s, x, cmp), cmp)
  {
    if s == [] {
    } else if cmp(s[|s| - 1], x) <= 0 {
      AllBelow(s, x, cmp);
      hide Preorder;
      OrderedSnoc(s, x, cmp);
    } else {
      var n := |s| - 1;
      var r := Insert(s[..n], x, cmp);
      InsertKeepsOrdered(s[..n], x, cmp);
      assert cmp(x, s[n]) <= 0;
      hide Preorder;
      forall i | 0 <= i < |r|
        ensures cmp(r[i], s[n]) <= 0
      {
        InsertMembers(s[..n], x, cmp, r[i]);
        if r[i] in s[..n] {
          var k :| 0 <= k < n && s[k] == r[i];
        }
      }
      hide Insert;
      OrderedSnoc(r, s[n], cmp);
    }
  }

  lemma {:induction false} SortOrders<T(!new)>(s: seq<T>, cmp: Compare<T>)
    requires Preorder(cmp)
    ensures Ordered(Sort(s, cmp), cmp)
  {
    if s != [] {
      SortOrders(s[..|s| - 1], cmp);
      InsertKeepsOrdered(Sort(s[..|s| - 1], cmp), s[|s| - 1], cmp);
    }
  }

  lemma {:induction false} SortMembers<T>(s: seq<T>, cmp: Compare<T>, y: T)
    ensures y in Sort(s, cmp) <==> y in s
  {
    if s != [] {
      SortMembers(s[..|s| - 1], cmp, y);
      InsertMembers(Sort(s[..|s| - 1], cmp), s[|s| - 1], cmp, y);
      assert s == s[..|s| - 1] + [s[|s| - 1]];
    }
  }

  lemma {:induction false} InsertKeepsUnique<T(!new), K>(s: seq<T>, x: T, cmp: Compare<T>, key: T -> K)
    requires UniqueBy(s, key) && forall y :: y in s ==> key(y) != key(x)
    ensures UniqueBy(Insert(s, x, cmp), key)
  {
    if s != [] && cmp(s[|s| - 1], x) > 0 {
      var n := |s| - 1;
      var r := Insert(s[..n], x, cmp);
      InsertKeepsUnique(s[..n], x, cmp, key);
      forall i | 0 <= i < |r|
        ensures key(r[i]) != key(s[n])
      {
        InsertMembers(s[..n], x, cmp, r[i]);
        if r[i] in s[..n] {
          var k :| 0 <= k < n && s[k] == r[i];
        }
      }
    }
  }

  lemma {:induction false} SortKeepsUnique<T(!new), K>(s: seq<T>, cmp: Compare<T>, key: T -> K)
    requires UniqueBy(s, key)
    ensures UniqueBy(Sort(s, cmp), key)
  {
    if s != [] {
      var n := |s| - 1;
      SortKeepsUnique(s[..n], cmp, key);
      forall y | y in Sort(s[..n], cmp)
        ensures key(y) != key(s[n])
      {
        SortMembers(s[..n], cmp, y);
        var k :| 0 <= k < n && s[k] == y;
      }
      InsertKeepsUnique(Sort(s[..n], cmp), s[n], cmp, key);
    }
  }

  // ------------------------------------------------------------------- strict orders

  ghost predicate StrictlyOrdered<T>(s: seq<T>, cmp: Compare<T>) {
    forall i, j :: 0 <= i < j < |s| ==> cmp(s[i], s[j]) < 0
  }

  ghost predicate Asymmetric<T(!new)>(cmp: Compare<T>) {
    forall a, b :: cmp(a, b) < 0 ==> !(cmp(b, a) < 0) && a != b
  }

  ghost predicate SameMembers<T(!new)>(a: seq<T>, b: seq<T>) {
    forall x :: x in a <==> x in b
  }

  lemma StrictFirst<T(!new)>(a: seq<T>, b: seq<T>, cmp: Compare<T>)
    requires Asymmetric(cmp) && StrictlyOrdered(a, cmp) && StrictlyOrdered(b, cmp) && SameMembers(a, b)
    requires a != [] && b != []
    ensures a[0] == b[0]
  {
    assert a[0] in b && b[0] in a;
    FirstIsLeast(a, cmp, b[0]);
    FirstIsLeast(b, cmp, a[0]);
  }

  lemma FirstIsLeast<T(!new)>(s: seq<T>, cmp: Compare<T>, x: T)
    requires StrictlyOrdered(s, cmp) && x in s
    ensures x == s[0] || cmp(s[0], x) < 0
  {
    var i :| 0 <= i < |s| && s[i] == x;
  }

  lemma StrictTail<T(!new)>(s: seq<T>, cmp: Compare<T>, x: T)
    requires Asymmetric(cmp) && StrictlyOrdered(s, cmp) && s != []
    ensures StrictlyOrdered(s[1..], cmp) && (x in s[1..] <==> x in s && x != s[0])
  {
    assert forall i :: 0 <= i < |s[1..]| ==> s[1..][i] == s[i + 1];
    if x in s[1..] {
      var k :| 1 <= k < |s| && s[k] == x;
      assert cmp(s[0], s[k]) < 0;
    }
  }

  lemma SameTails<T(!new)>(a: seq<T>, b: seq<T>, cmp: Compare<T>)
    requires Asymmetric(cmp) && StrictlyOrdered(a, cmp) && StrictlyOrdered(b, cmp) && SameMembers(a, b)
    requires a != [] && b != [] && a[0] == b[0]
    ensures SameMembers(a[1..], b[1..])
  {
    hide StrictlyOrdered, Asymmetric;
    forall x
      ensures x in a[1..] <==> x in b[1..]
    {
      StrictTail(a, cmp, x);
      StrictTail(b, cmp, x);
    }
  }

  lemma EmptyTogether<T(!new)>(a: seq<T>, b: seq<T>)
    requires SameMembers(a, b)
    ensures a == [] <==> b == []
  {
    assert a != [] ==> a[0] in a;
    assert b != [] ==> b[0] in b;
  }

  /** A strictly ordered list is determined by its members. */
  lemma {:induction false} StrictListsAreEqual<T(!new)>(a: seq<T>, b: seq<T>, cmp: Compare<T>)
    requires Asymmetric(cmp) && StrictlyOrdered(a, cmp) && StrictlyOrdered(b, cmp) && SameMembers(a, b)
    ensures a == b
    decreases |a|
  {
    hide Asymmetric, StrictlyOrdered, SameMembers;
    EmptyTogether(a, b);
    if a != [] {
      StrictFirst(a, b, cmp);
      StrictTail(a, cmp, a[0]);
      StrictTail(b, cmp, b[0]);
      SameTails(a, b, cmp);
      StrictListsAreEqual(a[1..], b[1..], cmp);
      assert a == [a[0]] + a[1..] && b == [b[0]] + b[1..];
    }
  }

  /** Sorting is canonical: two lists with the same members and no ties sort to the same list. */
  lemma SortIsCanonical<T(!new)>(a: seq<T>, b: seq<T>, cmp: Compare<T>)
    requires Asymmetric(cmp) && SameMembers(a, b)
    requires StrictlyOrdered(Sort(a, cmp), cmp) && StrictlyOrdered(Sort(b, cmp), cmp)
    ensures Sort(a, cmp) == Sort(b, cmp)
  {
    hide Asymmetric, StrictlyOrdered;
    forall x
      ensures x in Sort(a, cmp) <==> x in Sort(b, cmp)
    {
      SortMembers(a, cmp, x);
      SortMembers(b, cmp, x);
    }
    StrictListsAreEqual(Sort(a, cmp), Sort(b, cmp), cmp);
  }

  ghost predicate Distinct<T(!new)>(s: seq<T>) {
    forall i, j :: 0 <= i < j < |s| ==> s[i] != s[j]
  }

  lemma StrictIsDistinct<T(!new)>(s: seq<T>, cmp: Compare<T>)
    requires Asymmetric(cmp) && StrictlyOrdered(s, cmp)
    ensures Distinct(s)
  {
    forall i, j | 0 <= i < j < |s|
      ensures s[i] != s[j]
    {
      assert cmp(s[i], s[j]) < 0;
    }
  }

  ghost function Prefix<T(!new)>(s: seq<T>, k: nat): set<T>
    requires k <= |s|
  {
    set x | x in s[..k]
  }

  lemma PrefixGrows<T(!new)>(s: seq<T>, k: nat)
    requires Distinct(s) && k < |s|
    ensures Prefix(s, k + 1) == Prefix(s, k) + {s[k]} && s[k] !in Prefix(s, k)
  {
    assert s[..k + 1] == s[..k] + [s[k]];
    forall i | 0 <= i < k
      ensures s[..k][i] != s[k]
    {
      assert s[i] != s[k];
    }
  }

  lemma {:induction false} PrefixHasSize<T(!new)>(s: seq<T>, k: nat)
    requires Distinct(s) && k <= |s|
    ensures |Prefix(s, k)| == k
  {
    if k > 0 {
      PrefixHasSize(s, k - 1);
      PrefixGrows(s, k - 1);
      hide Prefix, Distinct;
    }
  }

  lemma InPrefix<T(!new)>(s: seq<T>, i: nat, k: nat)
    requires Distinct(s) && i < |s| && k <= |s|
    ensures s[i] in Prefix(s, k) <==> i < k
  {
    assert i < k ==> s[..k][i] == s[i];
  }
}
