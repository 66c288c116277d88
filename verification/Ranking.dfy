/**
 The order in which a k-nearest-neighbour query reports rows, what it means to be the first k of a
 set in that order, and why merging two such lists gives the first k of the union.
 */
module Ranking {
  /** A candidate row: its distance to the query, and the chunk and slot that hold it. */
  datatype Hit = Hit(distance: real, chunk: nat, slot: nat, rowid: int)

  /** Nearest first; equal distances are broken by earlier chunk, then by higher slot. */
  predicate Before(x: Hit, y: Hit) {
    || x.distance < y.distance
    || (x.distance == y.distance && x.chunk < y.chunk)
    || (x.distance == y.distance && x.chunk == y.chunk && x.slot > y.slot)
  }

  ghost predicate Ascending(hits: seq<Hit>) {
    forall i, j :: 0 <= i < j < |hits| ==> Before(hits[i], hits[j])
  }

  function Min(x: int, y: int): int {
    if x < y then x else y
  }

  /** `top` is exactly the first `k` elements of `all`, in order. */
  ghost predicate IsTop(top: seq<Hit>, all: set<Hit>, k: nat) {
    && |top| == Min(k, |all|)
    && Ascending(top)
    && (forall i :: 0 <= i < |top| ==> top[i] in all)
    && (forall x, i :: x in all && x !in top && 0 <= i < |top| ==> Before(top[i], x))
  }

  /** Each element of a top list is the first of everything not listed before it. */
  lemma TopElementIsFirst(top: seq<Hit>, all: set<Hit>, k: nat, n: nat, x: Hit)
    requires IsTop(top, all, k) && n < |top|
    requires x in all && x !in top[..n] && x != top[n]
    ensures Before(top[n], x)
  {
    if x in top {
      var j :| 0 <= j < |top| && top[j] == x;
      assert forall i :: 0 <= i < n ==> top[i] == top[..n][i] && top[i] != x;
    }
  }

  /** There is only one right answer, order included. */
  lemma TopIsUnique(r: seq<Hit>, s: seq<Hit>, all: set<Hit>, k: nat)
    requires IsTop(r, all, k) && IsTop(s, all, k)
    ensures r == s
  {
    for n := 0 to |r|
      invariant r[..n] == s[..n]
    {
      assert forall i :: 0 <= i < n ==> Before(r[..n][i], r[n]) && Before(s[..n][i], s[n]);
      if r[n] != s[n] {
        TopElementIsFirst(r, all, k, n, s[n]);
        TopElementIsFirst(s, all, k, n, r[n]);
      }
      assert r[..n + 1] == r[..n] + [r[n]] && s[..n + 1] == s[..n] + [s[n]];
    }
  }

  ghost predicate Distinct<T>(s: seq<T>) {
    forall i, j :: 0 <= i < j < |s| ==> s[i] != s[j]
  }

  /** A duplicate-free list has as many elements as the set of them. */
  lemma {:induction false} DistinctCount<T>(s: seq<T>, all: set<T>)
    requires Distinct(s)
    requires forall i :: 0 <= i < |s| ==> s[i] in all
    ensures |s| <= |all|
    ensures |s| == |all| <==> forall x :: x in all ==> x in s
  {
    if s == [] {
      if all != {} {
        var x :| x in all;
        assert x !in s;
      }
    } else {
      var n := |s| - 1;
      DistinctCount(s[..n], all - {s[n]});
      assert s == s[..n] + [s[n]];
    }
  }

  // ---- merging the running top k with one chunk's top k ----

  /** The first `k` elements of two ascending lists; the left one wins equal distances. */
  function Merge(a: seq<Hit>, b: seq<Hit>, k: nat): seq<Hit>
    decreases k
  {
    if k == 0 || (a == [] && b == []) then []
    else if a == [] || (b != [] && !(a[0].distance <= b[0].distance)) then [b[0]] + Merge(a, b[1..], k - 1)
    else [a[0]] + Merge(a[1..], b, k - 1)
  }

  ghost predicate EarlierChunks(a: seq<Hit>, b: seq<Hit>) {
    forall i, j :: 0 <= i < |a| && 0 <= j < |b| ==> a[i].chunk < b[j].chunk
  }

  /** `m` is an ascending arrangement of the first `p` of `a` and the first `q` of `b`, all before the rest. */
  ghost predicate MadeOf(m: seq<Hit>, a: seq<Hit>, b: seq<Hit>, p: nat, q: nat) {
    && p <= |a| && q <= |b| && |m| == p + q
    && Ascending(m)
    && (forall x :: x in m <==> x in a[..p] || x in b[..q])
    && (p < |a| ==> forall i :: 0 <= i < |m| ==> Before(m[i], a[p]))
    && (q < |b| ==> forall i :: 0 <= i < |m| ==> Before(m[i], b[q]))
  }

  /** Taking the head of `a` when it comes before everything else. */
  lemma TakeHead(m: seq<Hit>, a: seq<Hit>, b: seq<Hit>, p: nat, q: nat)
    requires a != [] && MadeOf(m, a[1..], b, p, q)
    requires forall i :: 0 < i < |a| ==> Before(a[0], a[i])
    requires forall i :: 0 <= i < |b| ==> Before(a[0], b[i])
    ensures MadeOf([a[0]] + m, a, b, p + 1, q)
  {
    var n := [a[0]] + m;
    assert a[..p + 1] == [a[0]] + a[1..][..p];
    forall j | 0 <= j < |m|
      ensures Before(a[0], m[j])
    {
      assert m[j] in m;
    }
  }

  lemma MadeOfSwapped(m: seq<Hit>, a: seq<Hit>, b: seq<Hit>, p: nat, q: nat)
    requires MadeOf(m, a, b, p, q)
    ensures MadeOf(m, b, a, q, p)
  {}

  lemma NothingMade(a: seq<Hit>, b: seq<Hit>)
    ensures MadeOf([], a, b, 0, 0)
  {}

  lemma HeadFirst(a: seq<Hit>, b: seq<Hit>)
    requires Ascending(a) && Ascending(b) && a != []
    requires b != [] ==> Before(a[0], b[0])
    ensures forall i :: 0 < i < |a| ==> Before(a[0], a[i])
    ensures forall i :: 0 <= i < |b| ==> Before(a[0], b[i])
  {}

  lemma HeadsApart(a: seq<Hit>, b: seq<Hit>)
    requires EarlierChunks(a, b)
    ensures a != [] && b != [] ==> if a[0].distance <= b[0].distance then Before(a[0], b[0]) else Before(b[0], a[0])
  {}

  lemma TailAscends(a: seq<Hit>)
    requires Ascending(a) && a != []
    ensures Ascending(a[1..])
  {}

  /** A merge takes a prefix of each list and leaves nothing behind that should have come first. */
  lemma {:induction false} MergeTakesPrefixes(a: seq<Hit>, b: seq<Hit>, k: nat) returns (p: nat, q: nat)
    requires Ascending(a) && Ascending(b) && EarlierChunks(a, b)
    ensures MadeOf(Merge(a, b, k), a, b, p, q) && p + q == Min(k, |a| + |b|)
    decreases k
  {
    hide MadeOf, Ascending, Before;
    if k == 0 || (a == [] && b == []) {
      p, q := 0, 0;
      NothingMade(a, b);
    } else if a == [] || (b != [] && !(a[0].distance <= b[0].distance)) {
      TailAscends(b);
      p, q := MergeTakesPrefixes(a, b[1..], k - 1);
      HeadsApart(a, b);
      HeadFirst(b, a);
      var m := Merge(a, b[1..], k - 1);
      MadeOfSwapped(m, a, b[1..], p, q);
      TakeHead(m, b, a, q, p);
      q := q + 1;
      MadeOfSwapped([b[0]] + m, b, a, q, p);
    } else {
      TailAscends(a);
      p, q := MergeTakesPrefixes(a[1..], b, k - 1);
      HeadsApart(a, b);
      HeadFirst(a, b);
      TakeHead(Merge(a[1..], b, k - 1), a, b, p, q);
      p := p + 1;
    }
  }

  /**
   Cutting both inputs to their first k before merging loses nothing: the merge is the top k
   of the union, whatever the two sets were.
   */
  lemma MergeIsTop(a: seq<Hit>, b: seq<Hit>, s: set<Hit>, t: set<Hit>, k: nat)
    requires IsTop(a, s, k) && IsTop(b, t, k)
    requires forall x, y :: x in s && y in t ==> x.chunk < y.chunk
    ensures IsTop(Merge(a, b, k), s + t, k)
  {
    var m := Merge(a, b, k);
    var p, q := MergeTakesPrefixes(a, b, k);
    assert s !! t;
    assert |s + t| == |s| + |t|;
    forall i | 0 <= i < |m|
      ensures m[i] in s + t
    {
      assert m[i] in a[..p] || m[i] in b[..q];
    }
    forall x, i | x in s + t && x !in m && 0 <= i < |m|
      ensures Before(m[i], x)
    {
      assert m[i] in m;
      if x in s {
        LaterThanRest(a, s, k, p, m[i], x);
      } else {
        LaterThanRest(b, t, k, q, m[i], x);
      }
    }
  }

  /** What a merge leaves of one list, and what that list itself left out, comes after `y`. */
  lemma LaterThanRest(a: seq<Hit>, s: set<Hit>, k: nat, p: nat, y: Hit, x: Hit)
    requires IsTop(a, s, k) && p <= |a|
    requires x in s && x !in a[..p]
    requires p < |a| ==> Before(y, a[p])
    requires p == k ==> y in a
    ensures Before(y, x)
  {
    if x in a {
      var j :| 0 <= j < |a| && a[j] == x;
      assert forall i :: 0 <= i < p ==> a[i] == a[..p][i];
    } else if p == |a| {
      DistinctCount(a, s);
    }
  }

  /** Parallel arrays of distances and rowids hold the given hits. */
  ghost predicate InArrays(hits: seq<Hit>, distances: seq<real>, rowids: seq<int>) {
    && |hits| == |distances| == |rowids|
    && forall i :: 0 <= i < |hits| ==> distances[i] == hits[i].distance && rowids[i] == hits[i].rowid
  }

  // ---- the answer by rowid ----

  /** Nearest first, as many as asked for or as there are, and none left out that is nearer. */
  ghost predicate Nearest(wanted: set<int>, distance: map<int, real>, k: nat, rowids: seq<int>, distances: seq<real>)
    requires wanted <= distance.Keys
  {
    && |rowids| == |distances| == Min(k, |wanted|)
    && Distinct(rowids)
    && (forall i :: 0 <= i < |rowids| ==> rowids[i] in wanted && distances[i] == distance[rowids[i]])
    && (forall i, j :: 0 <= i < j < |rowids| ==> distances[i] <= distances[j])
    && (forall r, i :: r in wanted && r !in rowids && 0 <= i < |rowids| ==> distances[i] <= distance[r])
  }

  lemma {:induction false} ValuesCount<K, V>(m: map<K, V>)
    requires forall a, b :: a in m && b in m && a != b ==> m[a] != m[b]
    ensures |m.Values| == |m.Keys|
  {
    if |m| > 0 {
      var k :| k in m;
      var rest := m - {k};
      ValuesCount(rest);
      assert m.Values == rest.Values + {m[k]};
      assert m.Keys == rest.Keys + {k};
    } else {
      assert m == map[];
    }
  }

  lemma KeyOf<K, V>(m: map<K, V>, v: V) returns (k: K)
    requires v in m.Values
    ensures k in m && m[k] == v
  {
    k :| k in m && m[k] == v;
  }

  /** A top list of one hit per wanted row lists the nearest wanted rows. */
  lemma TopIsNearest(top: seq<Hit>, hitOf: map<int, Hit>, distance: map<int, real>, k: nat, rowids: seq<int>,
                     distances: seq<real>)
    requires hitOf.Keys <= distance.Keys
    requires forall r :: r in hitOf ==> hitOf[r].rowid == r && hitOf[r].distance == distance[r]
    requires IsTop(top, hitOf.Values, k) && InArrays(top, distances, rowids)
    ensures Nearest(hitOf.Keys, distance, k, rowids, distances)
  {
    assert forall a, b :: a in hitOf && b in hitOf && a != b ==> hitOf[a] != hitOf[b];
    ValuesCount(hitOf);
    forall i | 0 <= i < |top|
      ensures rowids[i] in hitOf && top[i] == hitOf[rowids[i]]
    {
      var r := KeyOf(hitOf, top[i]);
    }
    forall r, i | r in hitOf && r !in rowids && 0 <= i < |rowids|
      ensures distances[i] <= distance[r]
    {
      assert hitOf[r] in hitOf.Values && hitOf[r] !in top;
    }
    assert forall i, j :: 0 <= i < j < |top| ==> Before(top[i], top[j]);
  }
}
