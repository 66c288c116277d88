/** Selecting the nearest k candidates of a chunk, and merging them into the running top k. */
module TopK {
  import opened Bitmap
  import opened Ranking

  // ---- selecting the nearest k candidates of one chunk ----

  /** Slot `i` is taken before slot `j`: nearer, or as near with a higher index. */
  predicate Precedes(distances: seq<real>, i: nat, j: nat)
    requires i < |distances| && j < |distances|
  {
    distances[i] < distances[j] || (distances[i] == distances[j] && i > j)
  }

  ghost function Candidates(bits: seq<bool>): set<nat> {
    set i: nat | i < |bits| && bits[i]
  }

  /** `chosen` lists candidate slots in selection order, with no other candidate before them. */
  ghost predicate IsPrefix(chosen: seq<nat>, distances: seq<real>, bits: seq<bool>)
    requires |bits| == |distances|
  {
    && (forall i :: 0 <= i < |chosen| ==> chosen[i] < |bits| && bits[chosen[i]])
    && (forall i, j :: 0 <= i < j < |chosen| ==> Precedes(distances, chosen[i], chosen[j]))
    && (forall x: nat, i :: x < |bits| && bits[x] && x !in chosen && 0 <= i < |chosen| ==>
          Precedes(distances, chosen[i], x))
  }

  /** `chosen` is the first min(k, candidates) candidate slots in selection order. */
  ghost predicate IsSelection(chosen: seq<nat>, distances: seq<real>, bits: seq<bool>, k: nat)
    requires |bits| == |distances|
  {
    |chosen| == Min(k, |Candidates(bits)|) && IsPrefix(chosen, distances, bits)
  }

  /** `best` is a candidate not yet taken that precedes every other one. */
  ghost predicate IsNearest(best: nat, distances: seq<real>, bits: seq<bool>, taken: seq<bool>)
    requires |bits| == |taken| == |distances|
  {
    && best < |bits| && bits[best] && !taken[best]
    && (forall i: nat :: i < |bits| && i != best && bits[i] && !taken[i] ==> Precedes(distances, best, i))
  }

  lemma ExtendPrefix(chosen: seq<nat>, distances: seq<real>, bits: seq<bool>, taken: seq<bool>, best: nat)
    requires |bits| == |taken| == |distances|
    requires IsPrefix(chosen, distances, bits) && IsNearest(best, distances, bits, taken)
    requires forall i: nat :: i < |bits| ==> taken[i] == (i in chosen)
    ensures IsPrefix(chosen + [best], distances, bits)
    ensures forall i: nat :: i < |bits| ==> taken[best := true][i] == (i in chosen + [best])
  {
    assert forall i :: 0 <= i < |chosen| ==> Precedes(distances, chosen[i], best);
  }

  lemma PrefixIsSelection(chosen: seq<nat>, distances: seq<real>, bits: seq<bool>, k: nat)
    requires |bits| == |distances| && IsPrefix(chosen, distances, bits)
    requires |chosen| == k || (|chosen| < k && forall x: nat :: x < |bits| && bits[x] ==> x in chosen)
    ensures IsSelection(chosen, distances, bits, k)
  {
    DistinctCount(chosen, Candidates(bits));
  }

  /** The nearest free candidate slot, or the number of slots when none is free. */
  method NearestFree(distances: array<real>, candidates: array<Byte>, taken: array<Byte>)
    returns (best: nat)
    requires CHAR_BIT * candidates.Length == CHAR_BIT * taken.Length == distances.Length
    ensures best < distances.Length ==> IsNearest(best, distances[..], Bits(candidates[..]), Bits(taken[..]))
    ensures best >= distances.Length ==>
              forall i: nat :: i < distances.Length && Bits(candidates[..])[i] ==> Bits(taken[..])[i]
  {
    var n := distances.Length;
    best := 0;
    while best < n && (GetBit(taken, best) || !GetBit(candidates, best))
      invariant best <= n
      invariant forall i: nat :: i < best && Bits(candidates[..])[i] ==> Bits(taken[..])[i]
    {
      best := best + 1;
    }
    if best >= n {
      return;
    }
    ghost var first := best;
    for i := 0 to n
      invariant best < n && Bits(candidates[..])[best] && !Bits(taken[..])[best]
      invariant best < i || best == first
      invariant forall j: nat :: j < i && j != best && Bits(candidates[..])[j] && !Bits(taken[..])[j] ==>
                  Precedes(distances[..], best, j)
    {
      if distances[i] <= distances[best] && !GetBit(taken, i) && GetBit(candidates, i) {
        best := i;
      }
    }
  }

  /** Writes the nearest `k` candidate slots to `out` and marks exactly them in `taken`. */
  method MinIdx(distances: array<real>, candidates: array<Byte>, out: array<nat>, k: nat, taken: array<Byte>)
    returns (used: nat)
    requires CHAR_BIT * candidates.Length == CHAR_BIT * taken.Length == distances.Length
    requires 0 < k <= distances.Length && k <= out.Length
    requires candidates != taken && distances as object != taken
    requires out as object != distances && out as object != candidates && out as object != taken
    modifies out, taken
    ensures used <= k
    ensures IsSelection(out[..used], distances[..], Bits(candidates[..]), k)
    ensures forall i: nat :: i < distances.Length ==> Bits(taken[..])[i] == (i in out[..used])
  {
    ghost var d, c := distances[..], candidates[..];
    ghost var bits, chosen: seq<nat> := Bits(c), [];
    Clear(taken);
    used := 0;
    while used < k
      invariant used <= k && chosen == out[..used]
      invariant d == distances[..] && c == candidates[..]
      invariant IsPrefix(chosen, d, bits)
      invariant forall i: nat :: i < |d| ==> Bits(taken[..])[i] == (i in chosen)
    {
      ghost var t := taken[..];
      var best := NearestFree(distances, candidates, taken);
      assert d == distances[..] && c == candidates[..] && t == taken[..];
      if best >= distances.Length {
        break;
      }
      ExtendPrefix(chosen, d, bits, Bits(t), best);
      out[used] := best;
      assert t == taken[..];
      SetBit(taken, best, true);
      chosen := chosen + [best];
      used := used + 1;
    }
    PrefixIsSelection(chosen, d, bits, k);
  }

  /** The slots of one chunk as hits. */
  function HitAt(distances: seq<real>, rowids: seq<int>, chunk: nat, slot: nat): Hit
    requires slot < |distances| && slot < |rowids|
  {
    Hit(distances[slot], chunk, slot, rowids[slot])
  }

  ghost function ChunkHits(distances: seq<real>, rowids: seq<int>, bits: seq<bool>, chunk: nat): set<Hit>
    requires |bits| == |distances| == |rowids|
  {
    set i: nat | i < |bits| && bits[i] :: HitAt(distances, rowids, chunk, i)
  }

  function SelectedHits(distances: seq<real>, rowids: seq<int>, chunk: nat, chosen: seq<nat>): (r: seq<Hit>)
    requires |distances| == |rowids|
    requires forall i :: 0 <= i < |chosen| ==> chosen[i] < |distances|
    ensures |r| == |chosen|
  {
    seq(|chosen|, i requires 0 <= i < |chosen| => HitAt(distances, rowids, chunk, chosen[i]))
  }

  /** A selection of slots is the chunk's top k. */
  lemma SelectionIsTop(chosen: seq<nat>, distances: seq<real>, rowids: seq<int>, bits: seq<bool>, chunk: nat, k: nat)
    requires |bits| == |distances| == |rowids| && IsSelection(chosen, distances, bits, k)
    ensures IsTop(SelectedHits(distances, rowids, chunk, chosen), ChunkHits(distances, rowids, bits, chunk), k)
  {
    var all := ChunkHits(distances, rowids, bits, chunk);
    var top := SelectedHits(distances, rowids, chunk, chosen);
    HitsPerSlot(distances, rowids, bits, chunk, Candidates(bits), all);
    forall x, i | x in all && x !in top && 0 <= i < |top|
      ensures Before(top[i], x)
    {
      assert forall j :: 0 <= j < |chosen| && chosen[j] == x.slot ==> top[j] == x;
    }
  }

  lemma {:induction false} HitsPerSlot(distances: seq<real>, rowids: seq<int>, bits: seq<bool>, chunk: nat,
                                       slots: set<nat>, hits: set<Hit>)
    requires |bits| == |distances| == |rowids| && slots <= Candidates(bits)
    requires hits == set i | i in slots :: HitAt(distances, rowids, chunk, i)
    ensures |hits| == |slots|
    decreases slots
  {
    if slots != {} {
      var i :| i in slots;
      var hit := HitAt(distances, rowids, chunk, i);
      HitsPerSlot(distances, rowids, bits, chunk, slots - {i}, hits - {hit});
    }
  }

  lemma Appended(done: seq<Hit>, next: Hit, rest: seq<Hit>)
    ensures done + ([next] + rest) == done + [next] + rest
  {}

  /** Merges the running top k with the slots chosen from one chunk. */
  method MergeSortedLists(a: array<real>, aRowids: array<int>, aLength: nat,
                          b: array<real>, bRowids: seq<int>, bTopIdxs: array<nat>, bLength: nat,
                          out: array<real>, outRowids: array<int>, outLength: nat,
                          ghost left: seq<Hit>, ghost chunk: nat)
    returns (used: nat)
    requires aLength <= a.Length && aLength <= aRowids.Length
    requires outLength <= out.Length && outLength <= outRowids.Length
    requires b.Length == |bRowids| && bLength <= bTopIdxs.Length
    requires forall i :: 0 <= i < bLength ==> bTopIdxs[i] < b.Length
    requires out != a && out != b && outRowids != aRowids
    requires out as object != aRowids && out as object != bTopIdxs && out as object != outRowids
    requires outRowids as object != a && outRowids as object != b && outRowids as object != bTopIdxs
    requires InArrays(left, a[..aLength], aRowids[..aLength])
    modifies out, outRowids
    ensures var merged := Merge(left, SelectedHits(b[..], bRowids, chunk, bTopIdxs[..bLength]), outLength);
      used == |merged| <= outLength && InArrays(merged, out[..used], outRowids[..used])
  {
    ghost var right := SelectedHits(b[..], bRowids, chunk, bTopIdxs[..bLength]);
    ghost var merged := Merge(left, right, outLength);
    ghost var done: seq<Hit> := [];
    var ptrA, ptrB := 0, 0;
    used := 0;
    while used < outLength
      invariant used <= outLength && ptrA <= aLength && ptrB <= bLength
      invariant |done| == used && merged == done + Merge(left[ptrA..], right[ptrB..], outLength - used)
      invariant forall i :: 0 <= i < used ==> out[i] == done[i].distance && outRowids[i] == done[i].rowid
    {
      if ptrA >= aLength && ptrB >= bLength {
        return;
      }
      ghost var x, y := left[ptrA..], right[ptrB..];
      if ptrA >= aLength || (ptrB < bLength && !(a[ptrA] <= b[bTopIdxs[ptrB]])) {
        out[used], outRowids[used] := b[bTopIdxs[ptrB]], bRowids[bTopIdxs[ptrB]];
        Appended(done, y[0], Merge(x, y[1..], outLength - used - 1));
        done := done + [y[0]];
        ptrB := ptrB + 1;
      } else {
        out[used], outRowids[used] := a[ptrA], aRowids[ptrA];
        Appended(done, x[0], Merge(x[1..], y, outLength - used - 1));
        done := done + [x[0]];
        ptrA := ptrA + 1;
      }
      used := used + 1;
    }
  }

}
