/**
 Looking a rowid up in the sorted list of a `rowid in (...)` constraint, with the comparator that narrows to 32 bits.
 */
module RowidSearch {
  import opened SqlValue

  function Compare(a: int, b: int): int {
    Narrow(a - b)
  }

  /** The library's binary search between two indices. */
  function SearchBetween(ids: seq<int>, key: int, lo: nat, hi: nat): bool
    requires lo <= hi <= |ids|
    decreases hi - lo
  {
    if lo >= hi then false
    else
      var mid := (lo + hi) / 2;
      var order := Compare(key, ids[mid]);
      if order < 0 then SearchBetween(ids, key, lo, mid)
      else if order > 0 then SearchBetween(ids, key, mid + 1, hi)
      else true
  }

  predicate Found(ids: seq<int>, key: int) {
    SearchBetween(ids, key, 0, |ids|)
  }

  method Bsearch(ids: seq<int>, key: int) returns (found: bool)
    ensures found == Found(ids, key)
  {
    var lo, hi := 0, |ids|;
    while lo < hi
      invariant 0 <= lo <= hi <= |ids|
      invariant Found(ids, key) == SearchBetween(ids, key, lo, hi)
    {
      var mid := (lo + hi) / 2;
      var order := Compare(key, ids[mid]);
      if order < 0 {
        hi := mid;
      } else if order > 0 {
        lo := mid + 1;
      } else {
        return true;
      }
    }
    return false;
  }

  predicate Sorted(ids: seq<int>) {
    forall i, j :: 0 <= i < j < |ids| ==> ids[i] <= ids[j]
  }

  /** Every difference to the key survives the narrowing. */
  predicate Within(ids: seq<int>, key: int) {
    forall i :: 0 <= i < |ids| ==> -TWO_31 <= key - ids[i] < TWO_31
  }

  /** Within 32 bits the search is membership. */
  lemma SearchIsMembership(ids: seq<int>, key: int)
    requires Sorted(ids) && Within(ids, key)
    ensures Found(ids, key) <==> key in ids
  {
    SearchFinds(ids, key, 0, |ids|);
  }

  lemma {:induction false} SearchFinds(ids: seq<int>, key: int, lo: nat, hi: nat)
    requires lo <= hi <= |ids| && Sorted(ids) && Within(ids, key)
    requires forall i :: 0 <= i < |ids| && ids[i] == key ==> lo <= i < hi
    ensures SearchBetween(ids, key, lo, hi) <==> key in ids
    decreases hi - lo
  {
    if lo < hi {
      var mid := (lo + hi) / 2;
      if key < ids[mid] {
        SearchFinds(ids, key, lo, mid);
      } else if key > ids[mid] {
        SearchFinds(ids, key, mid + 1, hi);
      }
    }
  }

  /** A sorted list and a key, all between two bounds. */
  predicate InWindow(ids: seq<int>, key: int, lo: int, hi: int) {
    Sorted(ids) && lo <= key <= hi && forall i :: 0 <= i < |ids| ==> lo <= ids[i] <= hi
  }

  /**
   Between two bounds the search is membership, for every list and key, if and only if they are less than 2^31 apart.
   */
  lemma WindowExactIff(lo: int, hi: int)
    requires lo <= hi
    ensures (forall ids, key :: InWindow(ids, key, lo, hi) ==> (Found(ids, key) <==> key in ids)) <==> hi - lo < TWO_31
  {
    if hi - lo < TWO_31 {
      forall ids, key | InWindow(ids, key, lo, hi)
        ensures Found(ids, key) <==> key in ids
      {
        SearchIsMembership(ids, key);
      }
    } else {
      var key := lo + TWO_31;
      var ids := [lo, lo, key];
      assert InWindow(ids, key, lo, hi) && key in ids;
      MissedPastTheMiddle(lo);
    }
  }

  /** The last of three ids is missed when it is 2^31 above the middle one. */
  lemma MissedPastTheMiddle(lo: int)
    ensures !Found([lo, lo, lo + TWO_31], lo + TWO_31)
  {
    var ids := [lo, lo, lo + TWO_31];
    assert Compare(lo + TWO_31, ids[1]) < 0 && Compare(lo + TWO_31, ids[0]) < 0;
    assert !SearchBetween(ids, lo + TWO_31, 0, 0);
    assert !SearchBetween(ids, lo + TWO_31, 0, 1);
  }

  /** A one-element list matches a key exactly when they agree modulo 2^32, not only when they are equal. */
  lemma SingletonMatchesModulo(id: int, key: int)
    ensures Found([id], key) <==> (key - id) % TWO_32 == 0
  {
    assert SearchBetween([id], key, 0, 0) == false && SearchBetween([id], key, 1, 1) == false;
  }

  /** Rowid 2^32 is found in the list holding only rowid 0. */
  lemma NarrowingCounterexample()
    ensures Found([0], TWO_32) && TWO_32 !in [0]
  {
    SingletonMatchesModulo(0, TWO_32);
  }
}
