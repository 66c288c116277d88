/**
 Three-way comparisons, their lexicographic combination, and sorting by one. A comparison under which
 only equal values tie leaves one sorted arrangement of any collection.
 */
module Ordering {
  import opened Wrappers

  datatype Ordering = Less | Equal | Greater {
    function Then(next: Ordering): Ordering {
      if Equal? then next else this
    }

    function Reverse(): Ordering {
      match this
      case Less => Greater
      case Equal => Equal
      case Greater => Less
    }
  }

  type Comparator<!T> = (T, T) -> Ordering

  /** A total order in which only equal values tie, on three values. */
  ghost predicate OrderedTriple<T>(compare: Comparator<T>, a: T, b: T, c: T) {
    && (compare(a, b) == Equal <==> a == b)
    && compare(b, a) == compare(a, b).Reverse()
    && (compare(a, b) != Greater && compare(b, c) != Greater ==> compare(a, c) != Greater)
  }

  ghost predicate IsOrder<T(!new)>(compare: Comparator<T>) {
    forall a, b, c :: OrderedTriple(compare, a, b, c)
  }

  function CompareNat(a: nat, b: nat): Ordering {
    if a < b then Less else if a == b then Equal else Greater
  }

  function CompareChar(a: char, b: char): Ordering {
    if a < b then Less else if a == b then Equal else Greater
  }

  /** `None` comes before every value. */
  function CompareOption(a: Option<nat>, b: Option<nat>): Ordering {
    if a.None? then (if b.None? then Equal else Less)
    else if b.None? then Greater
    else CompareNat(a.value, b.value)
  }

  function CompareSeq<T>(compare: Comparator<T>, a: seq<T>, b: seq<T>): Ordering {
    if a == [] then (if b == [] then Equal else Less)
    else if b == [] then Greater
    else compare(a[0], b[0]).Then(CompareSeq(compare, a[1..], b[1..]))
  }

  lemma {:induction false} CompareSeqOrdered<T(!new)>(compare: Comparator<T>, a: seq<T>, b: seq<T>, c: seq<T>)
    requires IsOrder(compare)
    ensures OrderedTriple((x, y) => CompareSeq(compare, x, y), a, b, c)
  {
    if a != [] && b != [] {
      assert a == [a[0]] + a[1..] && b == [b[0]] + b[1..];
      var rest := if c == [] then c else c[1..];
      CompareSeqOrdered(compare, a[1..], b[1..], rest);
      assert OrderedTriple((x, y) => CompareSeq(compare, x, y), a[1..], b[1..], rest);
      assert OrderedTriple(compare, a[0], b[0], if c == [] then b[0] else c[0]);
      if c != [] {
        assert OrderedTriple(compare, b[0], c[0], a[0]);
        assert OrderedTriple(compare, a[0], c[0], b[0]);
      }
    }
  }

  /** The sequences part at some element, the lesser in `a`, or `a` ends there first. */
  ghost predicate Lexicographic<T(!new)>(before: (T, T) -> bool, a: seq<T>, b: seq<T>) {
    exists k :: 0 <= k <= |a| && k < |b| && a[..k] == b[..k] && (k == |a| || before(a[k], b[k]))
  }

  /** The comparison calls the lesser less, and only equals equal. */
  ghost predicate Compares<T(!new)>(compare: Comparator<T>, before: (T, T) -> bool) {
    forall x, y :: (compare(x, y) == Less <==> before(x, y)) && (compare(x, y) == Equal <==> x == y)
  }

  lemma LexicographicTail<T(!new)>(before: (T, T) -> bool, a: seq<T>, b: seq<T>)
    requires a != [] && b != [] && a[0] == b[0] && !before(a[0], b[0])
    ensures Lexicographic(before, a, b) <==> Lexicographic(before, a[1..], b[1..])
  {
    var x, y := a[1..], b[1..];
    if Lexicographic(before, a, b) {
      var k :| 0 <= k <= |a| && k < |b| && a[..k] == b[..k] && (k == |a| || before(a[k], b[k]));
      assert x[..k - 1] == a[..k][1..] && y[..k - 1] == b[..k][1..];
    }
    if Lexicographic(before, x, y) {
      var k :| 0 <= k <= |x| && k < |y| && x[..k] == y[..k] && (k == |x| || before(x[k], y[k]));
      assert a[..k + 1] == [a[0]] + x[..k] && b[..k + 1] == [b[0]] + y[..k];
    }
  }

  /** Comparing element by element, and the shorter before the longer, is the lexicographic order. */
  lemma {:induction false} CompareSeqMeans<T(!new)>(compare: Comparator<T>, before: (T, T) -> bool, a: seq<T>,
                                                    b: seq<T>)
    requires Compares(compare, before)
    ensures CompareSeq(compare, a, b) == Less <==> Lexicographic(before, a, b)
    ensures CompareSeq(compare, a, b) == Equal <==> a == b
  {
    if a == [] || b == [] {
      assert a[..0] == b[..0];
    } else {
      assert compare(a[0], b[0]) == Less <==> before(a[0], b[0]);
      assert compare(a[0], b[0]) == Equal <==> a[0] == b[0];
      assert a == [a[0]] + a[1..] && b == [b[0]] + b[1..];
      if a[0] == b[0] {
        LexicographicTail(before, a, b);
        CompareSeqMeans(compare, before, a[1..], b[1..]);
      } else {
        assert a[..0] == b[..0];
      }
    }
  }

  // ---- sorting ----

  ghost predicate Sorted<T>(compare: Comparator<T>, s: seq<T>) {
    forall i, j :: 0 <= i < j < |s| ==> compare(s[i], s[j]) != Greater
  }

  function Inserted<T>(compare: Comparator<T>, x: T, s: seq<T>): seq<T> {
    if s == [] then [x]
    else if compare(x, s[0]) != Greater then [x] + s
    else [s[0]] + Inserted(compare, x, s[1..])
  }

  /** The stable sort of a vector by a comparison. */
  function SortBy<T>(compare: Comparator<T>, s: seq<T>): seq<T> {
    if s == [] then [] else Inserted(compare, s[0], SortBy(compare, s[1..]))
  }

  lemma {:induction false} InsertedKeeps<T(!new)>(compare: Comparator<T>, x: T, s: seq<T>)
    requires IsOrder(compare) && Sorted(compare, s)
    ensures multiset(Inserted(compare, x, s)) == multiset(s) + multiset{x}
    ensures Sorted(compare, Inserted(compare, x, s))
  {
    if s != [] {
      assert s == [s[0]] + s[1..];
      assert OrderedTriple(compare, x, s[0], x);
      if compare(x, s[0]) != Greater {
        forall j | 0 <= j < |s|
          ensures compare(x, s[j]) != Greater
        {
          assert OrderedTriple(compare, x, s[0], s[j]);
        }
      } else {
        var tail := Inserted(compare, x, s[1..]);
        InsertedKeeps(compare, x, s[1..]);
        forall j | 0 <= j < |tail|
          ensures compare(s[0], tail[j]) != Greater
        {
          assert tail[j] in multiset(s[1..]) + multiset{x};
          assert OrderedTriple(compare, s[0], x, x);
        }
      }
    }
  }

  lemma {:induction false} SortBySorts<T(!new)>(compare: Comparator<T>, s: seq<T>)
    requires IsOrder(compare)
    ensures multiset(SortBy(compare, s)) == multiset(s)
    ensures Sorted(compare, SortBy(compare, s))
  {
    if s != [] {
      SortBySorts(compare, s[1..]);
      InsertedKeeps(compare, s[0], SortBy(compare, s[1..]));
      assert s == [s[0]] + s[1..];
    }
  }

  lemma SortedHeads<T(!new)>(compare: Comparator<T>, s: seq<T>, t: seq<T>)
    requires IsOrder(compare) && Sorted(compare, s) && Sorted(compare, t)
    requires multiset(s) == multiset(t) && s != [] && t != []
    ensures s[0] == t[0]
  {
    assert s[0] in multiset(t) && t[0] in multiset(s);
    assert OrderedTriple(compare, s[0], t[0], s[0]);
    assert OrderedTriple(compare, t[0], t[0], t[0]) && OrderedTriple(compare, s[0], s[0], s[0]);
  }

  /** Two sorted arrangements of the same elements are the same sequence. */
  lemma {:induction false} SortedUnique<T(!new)>(compare: Comparator<T>, s: seq<T>, t: seq<T>)
    requires IsOrder(compare) && Sorted(compare, s) && Sorted(compare, t)
    requires multiset(s) == multiset(t)
    ensures s == t
  {
    hide IsOrder;
    assert |s| == |multiset(s)| == |multiset(t)| == |t|;
    if s != [] {
      SortedHeads(compare, s, t);
      assert s == [s[0]] + s[1..] && t == [t[0]] + t[1..];
      assert multiset(s[1..]) == multiset(s) - multiset{s[0]} == multiset(t[1..]);
      SortedUnique(compare, s[1..], t[1..]);
    }
  }

  /** Sorting answers one sequence for a collection, whatever order it is given in. */
  lemma SortByUnique<T(!new)>(compare: Comparator<T>, s: seq<T>, t: seq<T>)
    requires IsOrder(compare)
    ensures SortBy(compare, s) == SortBy(compare, t) <==> multiset(s) == multiset(t)
  {
    SortBySorts(compare, s);
    SortBySorts(compare, t);
    if multiset(s) == multiset(t) {
      SortedUnique(compare, SortBy(compare, s), SortBy(compare, t));
    }
  }

  // ---- mapping a collection ----

  function Map<T, U>(f: T -> U, s: seq<T>): (r: seq<U>)
    ensures |r| == |s|
    ensures forall i :: 0 <= i < |s| ==> r[i] == f(s[i])
  {
    seq(|s|, i requires 0 <= i < |s| => f(s[i]))
  }

  /** Equal collections stay equal when the same element leaves both. */
  lemma RemoveSame<T>(s: seq<T>, t: seq<T>, k: nat)
    requires multiset(s) == multiset(t) && s != [] && k < |t| && t[k] == s[0]
    ensures multiset(s[1..]) == multiset(t[..k] + t[k + 1..])
  {
    assert s == [s[0]] + s[1..] && t == t[..k] + [t[k]] + t[k + 1..];
    assert multiset(s[1..]) == multiset(s) - multiset{s[0]};
    assert multiset(t[..k] + t[k + 1..]) == multiset(t) - multiset{t[k]};
  }

  lemma MapRemove<T, U>(f: T -> U, s: seq<T>, k: nat)
    requires k < |s|
    ensures multiset(Map(f, s)) == multiset(Map(f, s[..k] + s[k + 1..])) + multiset{f(s[k])}
  {
    var m := Map(f, s);
    assert m == m[..k] + [m[k]] + m[k + 1..];
    assert Map(f, s[..k] + s[k + 1..]) == m[..k] + m[k + 1..];
  }

  /** Mapping equal collections yields equal collections. */
  lemma {:induction false} MapKeepsMultiset<T, U>(f: T -> U, s: seq<T>, t: seq<T>)
    requires multiset(s) == multiset(t)
    ensures multiset(Map(f, s)) == multiset(Map(f, t))
  {
    hide Map;
    assert |s| == |multiset(s)| == |multiset(t)| == |t|;
    if s == [] {
      assert s == t;
    } else {
      assert s[0] in multiset(t);
      var k :| 0 <= k < |t| && t[k] == s[0];
      var rest := t[..k] + t[k + 1..];
      RemoveSame(s, t, k);
      MapKeepsMultiset(f, s[1..], rest);
      MapRemove(f, t, k);
      MapFirst(f, s);
    }
  }

  lemma MapFirst<T, U>(f: T -> U, s: seq<T>)
    requires s != []
    ensures multiset(Map(f, s)) == multiset(Map(f, s[1..])) + multiset{f(s[0])}
  {
    assert Map(f, s) == [f(s[0])] + Map(f, s[1..]);
  }

  lemma MapKeepsMembers<T, U>(f: T -> U, s: seq<T>, t: seq<T>, y: U)
    requires multiset(s) == multiset(t)
    ensures y in Map(f, s) <==> y in Map(f, t)
  {
    MapKeepsMultiset(f, s, t);
    assert y in Map(f, s) <==> y in multiset(Map(f, s));
    assert y in Map(f, t) <==> y in multiset(Map(f, t));
  }
}
