/** `boundedRecords` of src/admin-security/persistent-admin-rate-limiter.ts: a stable sort by
    `updatedAt` followed by `slice(-maxEntries)`. */
module RecordOrder {
  import opened Collections
  import opened StableSort
  import opened RateLimiter

  function KeyOf(r: Record): Key { r.key }

  function ByUpdated(): Compare<Record> {
    (l: Record, r: Record) => l.updatedAt - r.updatedAt
  }

  lemma UpdatesArePreordered()
    ensures Preorder(ByUpdated())
  {
  }

  /** How many records of `s` were updated after `t`. */
  function Newer(s: seq<Record>, t: int): nat {
    if s == [] then 0
    else Newer(s[..|s| - 1], t) + if s[|s| - 1].updatedAt > t then 1 else 0
  }

  lemma NewerOneMore(s: seq<Record>, x: Record, t: int)
    ensures Newer(s + [x], t) == Newer(s, t) + if x.updatedAt > t then 1 else 0
  {
    assert (s + [x])[..|s|] == s;
  }

  lemma {:induction false} NoneNewer(s: seq<Record>, t: int)
    requires forall r :: r in s ==> r.updatedAt <= t
    ensures Newer(s, t) == 0
  {
    if s != [] {
      NoneNewer(s[..|s| - 1], t);
    }
  }

  lemma {:induction false} InsertCountsNewer(s: seq<Record>, x: Record, t: int)
    ensures Newer(Insert(s, x, ByUpdated()), t) == Newer(s, t) + if x.updatedAt > t then 1 else 0
  {
    if s == [] || ByUpdated()(s[|s| - 1], x) <= 0 {
      NewerOneMore(s, x, t);
    } else {
      var init, last := s[..|s| - 1], s[|s| - 1];
      InsertCountsNewer(init, x, t);
      NewerOneMore(Insert(init, x, ByUpdated()), last, t);
    }
  }

  lemma {:induction false} SortCountsNewer(s: seq<Record>, t: int)
    ensures Newer(Sort(s, ByUpdated()), t) == Newer(s, t)
  {
    if s != [] {
      SortCountsNewer(s[..|s| - 1], t);
      InsertCountsNewer(Sort(s[..|s| - 1], ByUpdated()), s[|s| - 1], t);
    }
  }

  /** Among sorted records, a new one is put just before those that are newer. */
  lemma {:induction false} InsertPosition(s: seq<Record>, x: Record)
    requires Ordered(s, ByUpdated())
    ensures Newer(s, x.updatedAt) <= |s| && Insert(s, x, ByUpdated())[|s| - Newer(s, x.updatedAt)] == x
  {
    if s == [] {
    } else if ByUpdated()(s[|s| - 1], x) <= 0 {
      forall r | r in s
        ensures r.updatedAt <= x.updatedAt
      {
        var i :| 0 <= i < |s| && s[i] == r;
        assert i < |s| - 1 ==> ByUpdated()(s[i], s[|s| - 1]) <= 0;
      }
      NoneNewer(s, x.updatedAt);
    } else {
      InsertPosition(s[..|s| - 1], x);
    }
  }

  lemma SortedMembers(s: seq<Record>)
    ensures forall y :: y in Sort(s, ByUpdated()) <==> y in s
  {
    forall y
      ensures y in Sort(s, ByUpdated()) <==> y in s
    {
      SortMembers(s, ByUpdated(), y);
    }
  }

  /** `boundedRecords`: the newest `maxEntries` records, oldest first. */
  function Bounded(s: seq<Record>, maxEntries: nat): (r: seq<Record>)
    ensures |r| == if |s| <= maxEntries then |s| else maxEntries
    ensures forall y :: y in r ==> y in s
    ensures |s| <= maxEntries ==> forall y :: y in s ==> y in r
  {
    SortedMembers(s);
    Latest(Sort(s, ByUpdated()), maxEntries)
  }

  lemma BoundedKeepsUnique(s: seq<Record>, n: nat)
    requires UniqueBy(s, KeyOf)
    ensures UniqueBy(Bounded(s, n), KeyOf)
  {
    SortKeepsUnique(s, ByUpdated(), KeyOf);
    var sorted, r := Sort(s, ByUpdated()), Bounded(s, n);
    var d := |sorted| - |r|;
    forall i, j | 0 <= i < j < |r|
      ensures KeyOf(r[i]) != KeyOf(r[j])
    {
      assert KeyOf(sorted[i + d]) != KeyOf(sorted[j + d]);
    }
  }

  lemma LastPosition(others: seq<Record>, x: Record)
    ensures
      var p := |others| - Newer(others, x.updatedAt);
      0 <= p && Sort(others + [x], ByUpdated())[p] == x
  {
    hide Sort, Insert, Preorder, Ordered, Newer, ByUpdated;
    UpdatesArePreordered();
    SortOrders(others, ByUpdated());
    SortCountsNewer(others, x.updatedAt);
    var base := Sort(others, ByUpdated());
    InsertPosition(base, x);
    assert |base| == |others|;
    assert Newer(base, x.updatedAt) == Newer(others, x.updatedAt);
    var p := |others| - Newer(others, x.updatedAt);
    assert Insert(base, x, ByUpdated())[p] == x;
    SortOneMore(others, x, ByUpdated());
  }

  lemma LatestFromPosition(s: seq<Record>, x: Record, p: nat, n: nat)
    requires UniqueBy(s, KeyOf) && p < |s| && s[p] == x
    ensures x in Latest(s, n) <==> |s| - p <= n
  {
    var r := Latest(s, n);
    var d := |s| - |r|;
    if p >= d {
      assert r[p - d] == x;
    } else {
      forall i | 0 <= i < |r|
        ensures r[i] != x
      {
        assert KeyOf(s[p]) != KeyOf(s[i + d]);
      }
    }
  }

  /** The record appended last survives the cut exactly when fewer than `n` of the others are
      newer than it. */
  lemma LastIsKeptExactly(others: seq<Record>, x: Record, n: nat)
    requires UniqueBy(others + [x], KeyOf)
    ensures x in Bounded(others + [x], n) <==> Newer(others, x.updatedAt) < n
  {
    hide Sort, Newer, ByUpdated, UniqueBy;
    var sorted, p := Sort(others + [x], ByUpdated()), |others| - Newer(others, x.updatedAt);
    LastPosition(others, x);
    SortKeepsUnique(others + [x], ByUpdated(), KeyOf);
    LatestFromPosition(sorted, x, p, n);
  }
}
