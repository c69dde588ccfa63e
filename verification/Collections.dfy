/** Sequence idioms of the modelled program: `find`, `filter`, `slice(-n)`, and the
    uniqueness of a key over a list of records. */
module Collections {

  datatype Option<+T> = None | Some(value: T)

  /** The first element satisfying `p`. */
  function Find<T(!new)>(s: seq<T>, p: T -> bool): (r: Option<T>)
    ensures r.Some? ==> r.value in s && p(r.value)
    ensures r.None? <==> forall x :: x in s ==> !p(x)
  {
    if s == [] then None
    else if p(s[0]) then Some(s[0])
    else
      assert forall x :: x in s ==> x == s[0] || x in s[1..];
      Find(s[1..], p)
  }

  function Filter<T(!new)>(s: seq<T>, p: T -> bool): (r: seq<T>)
    ensures |r| <= |s|
    ensures forall x :: x in r <==> x in s && p(x)
  {
    if s == [] then []
    else
      assert forall x :: x in s <==> x == s[0] || x in s[1..];
      (if p(s[0]) then [s[0]] else []) + Filter(s[1..], p)
  }

  /** `s.slice(-n)` for a positive `n`. */
  function Latest<T(!new)>(s: seq<T>, n: nat): (r: seq<T>)
    ensures |r| == if |s| <= n then |s| else n
    ensures forall x :: x in r ==> x in s
    ensures 0 < n && 0 < |s| ==> s[|s| - 1] in r
  {
    if |s| <= n then s
    else
      assert 0 < n ==> s[|s| - n..][n - 1] == s[|s| - 1];
      s[|s| - n..]
  }

  /** `[...s.filter(keep), x].slice(-n)`: the shape of every bounded append of the service. */
  function Retain<T(!new)>(s: seq<T>, keep: T -> bool, x: T, n: nat): (r: seq<T>)
    requires 0 < n
    ensures |r| <= n && x in r
    ensures forall y :: y in r ==> y == x || (y in s && keep(y))
  {
    var kept := Filter(s, keep);
    assert (kept + [x])[|kept|] == x;
    Latest(kept + [x], n)
  }

  lemma HasMember<T(!new)>(s: seq<T>)
    ensures s != [] ==> exists x :: x in s
  {
    if s != [] {
      assert s[0] in s;
    }
  }

  /** No two positions of `s` carry the same key. */
  ghost predicate UniqueBy<T(!new), K>(s: seq<T>, key: T -> K) {
    forall i, j :: 0 <= i < j < |s| ==> key(s[i]) != key(s[j])
  }

  lemma UniqueMembers<T(!new), K>(s: seq<T>, key: T -> K, x: T, y: T)
    requires UniqueBy(s, key) && x in s && y in s && key(x) == key(y)
    ensures x == y
  {
    var i :| 0 <= i < |s| && s[i] == x;
    var j :| 0 <= j < |s| && s[j] == y;
    assert key(s[i]) == key(s[j]);
  }

  lemma {:induction false} FilterKeepsUnique<T(!new), K>(s: seq<T>, p: T -> bool, key: T -> K)
    requires UniqueBy(s, key)
    ensures UniqueBy(Filter(s, p), key)
  {
    if s != [] {
      var rest := s[1..];
      assert forall i :: 0 <= i < |rest| ==> rest[i] == s[i + 1];
      FilterKeepsUnique(rest, p, key);
      forall x | x in Filter(rest, p)
        ensures key(x) != key(s[0])
      {
        var k :| 0 <= k < |rest| && rest[k] == x;
        assert key(s[0]) != key(s[k + 1]);
      }
    }
  }

  lemma RetainKeepsUnique<T(!new), K>(s: seq<T>, keep: T -> bool, x: T, n: nat, key: T -> K)
    requires 0 < n && UniqueBy(s, key)
    requires forall y :: y in s ==> key(y) != key(x)
    ensures UniqueBy(Retain(s, keep, x, n), key)
  {
    FilterKeepsUnique(s, keep, key);
    var kept := Filter(s, keep);
    var all := kept + [x];
    forall i, j | 0 <= i < j < |all|
      ensures key(all[i]) != key(all[j])
    {
      assert all[i] in kept;
    }
    if |all| > n {
      var d := |all| - n;
      assert forall i :: 0 <= i < n ==> all[d..][i] == all[i + d];
    }
  }

  /** Rewriting records in place does not disturb a key the rewriting leaves alone. */
  lemma RewriteKeepsUnique<T(!new), K>(s: seq<T>, t: seq<T>, key: T -> K)
    requires UniqueBy(s, key) && |s| == |t|
    requires forall i :: 0 <= i < |s| ==> key(t[i]) == key(s[i])
    ensures UniqueBy(t, key)
  {
    forall i, j | 0 <= i < j < |t|
      ensures key(t[i]) != key(t[j])
    {
      assert key(s[i]) != key(s[j]);
    }
  }

  lemma {:induction false} FilterSplits<T(!new)>(a: seq<T>, b: seq<T>, p: T -> bool)
    ensures Filter(a + b, p) == Filter(a, p) + Filter(b, p)
  {
    if a == [] {
      assert a + b == b;
    } else {
      assert (a + b)[1..] == a[1..] + b;
      FilterSplits(a[1..], b, p);
    }
  }

  /** A bounded append drops a record exactly when it no longer qualifies, or when as many as fit
      beside the new one qualify and come after it. */
  lemma RetainedExactly<T(!new), K>(s: seq<T>, keep: T -> bool, x: T, n: nat, i: nat, key: T -> K)
    requires i < |s| && 0 < n && UniqueBy(s + [x], key)
    ensures s[i] in Retain(s, keep, x, n) <==> keep(s[i]) && |Filter(s[i + 1..], keep)| + 2 <= n
  {
    assert s[i] != x by {
      assert key((s + [x])[i]) != key((s + [x])[|s|]);
    }
    if keep(s[i]) {
      var before, after := Filter(s[..i], keep), Filter(s[i + 1..], keep);
      assert s == s[..i] + ([s[i]] + s[i + 1..]);
      FilterSplits(s[..i], [s[i]] + s[i + 1..], keep);
      FilterSplits([s[i]], s[i + 1..], keep);
      assert Filter([s[i]], keep) == [s[i]];
      var all := Filter(s, keep) + [x];
      assert all == before + [s[i]] + (after + [x]);
      assert forall y :: y in s <==> y in s[..i] || y == s[i] || y in s[i + 1..];
      NotElsewhere(s, i, key, x);
      assert s[i] !in after + [x];
      LatestOfMiddle(before, s[i], after + [x], n);
    }
  }

  lemma NotElsewhere<T(!new), K>(s: seq<T>, i: nat, key: T -> K, x: T)
    requires i < |s| && UniqueBy(s + [x], key)
    ensures s[i] !in s[i + 1..] && s[i] != x
  {
    var all := s + [x];
    assert key(all[i]) != key(all[|s|]);
    forall k | i < k < |s|
      ensures s[k] != s[i]
    {
      assert key(all[i]) != key(all[k]);
    }
  }

  lemma LatestOfMiddle<T(!new)>(a: seq<T>, y: T, b: seq<T>, n: nat)
    requires y !in b && 0 < n
    ensures y in Latest(a + [y] + b, n) <==> |b| < n
  {
    var all := a + [y] + b;
    assert all[|a|] == y;
    var r := Latest(all, n);
    var d := |all| - |r|;
    if |a| >= d {
      assert r[|a| - d] == y;
    } else {
      forall k | 0 <= k < |r|
        ensures r[k] != y
      {
        assert r[k] == b[k + d - |a| - 1];
      }
    }
  }
}
