/**
 The k-nearest-neighbour query: one pass over the chunks, each narrowed to its candidate slots by
 bitmaps, its nearest k selected and merged into the running top k; and the proof that the answer
 is the first k of all matching rows.
 */
module Knn {
  import opened Bitmap
  import opened Wrappers
  import opened SqlValue
  import opened Metadata
  import opened Store
  import opened Ranking
  import opened TopK
  import opened FilterBitmap
  import RowidSearch
  import VectorBlob

  datatype PartitionConstraint = PartitionConstraint(column: nat, op: Operator, value: Value)
  datatype MetadataConstraint = MetadataConstraint(column: nat, op: Operator, target: Target)

  datatype DistanceOperator = FartherThan | AtLeast | NearerThan | AtMost
  datatype DistanceConstraint = DistanceConstraint(op: DistanceOperator, bound: real)

  /** A query as its plan presents it; `distance` is the column's metric, a total order on its results. */
  datatype Query = Query(
    column: nat,
    vector: VectorBlob.Vector,
    distance: (seq<Byte>, seq<Byte>) -> real,
    k: int,
    rowidIn: Option<seq<int>>,
    partitions: seq<PartitionConstraint>,
    metadata: seq<MetadataConstraint>,
    distances: seq<DistanceConstraint>)

  datatype QueryError = WrongVector | NegativeK | KTooLarge | FilterFailed

  datatype Answer = Rowids(rowids: seq<int>, distances: seq<real>) | Failed(error: QueryError)

  const K_MAX := 4096

  /** What query planning guarantees about the constraints. */
  predicate QueryOk(schema: Schema, q: Query) {
    && q.column < |schema.vectors|
    && (forall c :: c in q.partitions ==> c.column < |schema.partitions| && !c.op.IN?)
    && (forall c :: c in q.metadata ==>
          c.column < |schema.metadata| && TargetOk(schema.metadata[c.column], c.op, c.target))
  }

  // ---- what a query asks of a slot, and of a row ----

  function DistanceTo(q: Query, vector: seq<Byte>): real {
    q.distance(vector, q.vector.bytes)
  }

  /** The WHERE clause put on the chunk scan. */
  predicate PartitionPasses(q: Query, partition: seq<Value>)
    requires forall c :: c in q.partitions ==> c.column < |partition|
  {
    forall c :: c in q.partitions ==> SqlHolds(c.op, partition[c.column], c.value)
  }

  predicate DistancePasses(c: DistanceConstraint, d: real) {
    match c.op
    case FartherThan => d > c.bound
    case AtLeast => d >= c.bound
    case NearerThan => d < c.bound
    case AtMost => d <= c.bound
  }

  predicate RowidPasses(q: Query, r: int) {
    q.rowidIn.Some? ==> RowidSearch.Found(q.rowidIn.value, r)
  }

  function Verdict(st: State, c: MetadataConstraint, s: Slot): Option<bool>
    requires |st.texts| == |st.schema.metadata| == |s.cells| && c.column < |s.cells|
    requires CellKind(st.schema.metadata[c.column], s.cells[c.column])
    requires TargetOk(st.schema.metadata[c.column], c.op, c.target)
  {
    CellVerdict(st.schema.metadata[c.column], c.op, c.target, s.cells[c.column], st.texts[c.column], s.owner)
  }

  predicate SlotPasses(st: State, q: Query, p: Position)
    requires ShapeOk(st) && InRange(st, p) && QueryOk(st.schema, q)
  {
    var s := SlotAt(st, p);
    && s.live && RowidPasses(q, s.owner)
    && (forall c :: c in q.metadata ==> Verdict(st, c, s) == Some(true))
    && (forall c :: c in q.distances ==> DistancePasses(c, DistanceTo(q, s.vectors[q.column])))
  }

  predicate Scanned(st: State, q: Query, c: nat)
    requires ShapeOk(st) && QueryOk(st.schema, q) && c < |st.chunks|
  {
    PartitionPasses(q, st.chunks[c].partition)
  }

  function HitOf(st: State, q: Query, p: Position): Hit
    requires ShapeOk(st) && InRange(st, p) && QueryOk(st.schema, q)
  {
    var s := SlotAt(st, p);
    Hit(DistanceTo(q, s.vectors[q.column]), p.chunk, p.slot, s.owner)
  }

  /** The hits of one chunk: none when the scan skips it. */
  ghost function HitsIn(st: State, q: Query, c: nat): set<Hit>
    requires ShapeOk(st) && QueryOk(st.schema, q) && c < |st.chunks|
  {
    set i: nat | i < st.schema.chunkSize && Scanned(st, q, c) && SlotPasses(st, q, Position(c, i)) ::
      HitOf(st, q, Position(c, i))
  }

  /** The hits of the first `n` chunks. */
  ghost function HitsBelow(st: State, q: Query, n: nat): set<Hit>
    requires ShapeOk(st) && QueryOk(st.schema, q) && n <= |st.chunks|
  {
    if n == 0 then {} else HitsBelow(st, q, n - 1) + HitsIn(st, q, n - 1)
  }

  /** Some metadata filter fails on some slot of a scanned chunk. */
  ghost predicate FilterFails(st: State, q: Query, c: nat)
    requires ShapeOk(st) && QueryOk(st.schema, q) && c < |st.chunks|
  {
    Scanned(st, q, c) &&
    exists i: nat, m :: i < st.schema.chunkSize && m in q.metadata && Verdict(st, m, SlotAt(st, Position(c, i))).None?
  }

  // ---- the passes over one chunk ----

  /** Keeps the candidates whose rowid is in the list. */
  method ApplyRowidIn(ch: Chunk, size: nat, ids: seq<int>, b: array<Byte>, bmRowids: array<Byte>)
    requires b != bmRowids && CHAR_BIT * b.Length == CHAR_BIT * bmRowids.Length == size
    requires CHAR_BIT * |ch.validity| == size == |ch.rowids|
    modifies b, bmRowids
    ensures forall i: nat :: i < size ==>
              Bits(b[..])[i] == (old(Bits(b[..]))[i] && Bits(ch.validity)[i] && RowidSearch.Found(ids, ch.rowids[i]))
  {
    ghost var was := b[..];
    Clear(bmRowids);
    for i := 0 to size
      invariant b[..] == was
      invariant forall j: nat :: j < i ==>
                  Bits(bmRowids[..])[j] == (Bits(ch.validity)[j] && RowidSearch.Found(ids, ch.rowids[j]))
      invariant forall j: nat :: i <= j < size ==> !Bits(bmRowids[..])[j]
    {
      if !BitOf(ch.validity[i / CHAR_BIT], i % CHAR_BIT) {
        continue;
      }
      var found := RowidSearch.Bsearch(ids, ch.rowids[i]);
      SetBit(bmRowids, i, found);
    }
    AndInPlace(b, bmRowids);
  }

  ghost predicate Allowed(st: State, constraints: seq<MetadataConstraint>, s: Slot)
    requires |st.texts| == |st.schema.metadata| == |s.cells|
    requires forall m :: 0 <= m < |s.cells| ==> CellKind(st.schema.metadata[m], s.cells[m])
    requires forall c :: c in constraints ==>
               c.column < |s.cells| && TargetOk(st.schema.metadata[c.column], c.op, c.target)
  {
    forall c :: c in constraints ==> Verdict(st, c, s) == Some(true)
  }

  /** Ands in the bitmap of one metadata constraint, or reports that its filter failed. */
  method ApplyConstraint(st: State, c: nat, constraint: MetadataConstraint, b: array<Byte>, bm: array<Byte>)
    returns (ok: bool)
    requires ShapeOk(st) && c < |st.chunks| && b != bm
    requires CHAR_BIT * b.Length == CHAR_BIT * bm.Length == st.schema.chunkSize
    requires constraint.column < |st.schema.metadata|
    requires TargetOk(st.schema.metadata[constraint.column], constraint.op, constraint.target)
    modifies b, bm
    ensures ok <==> forall i: nat :: i < st.schema.chunkSize ==>
                      Verdict(st, constraint, SlotAt(st, Position(c, i))).Some?
    ensures ok ==> forall i: nat :: i < st.schema.chunkSize ==>
              Bits(b[..])[i] ==
              (old(Bits(b[..]))[i] && Verdict(st, constraint, SlotAt(st, Position(c, i))) == Some(true))
  {
    ghost var was := b[..];
    Clear(bm);
    var ch := st.chunks[c];
    var m := constraint.column;
    ok := SetMetadataFilterBitmap(st.schema.metadata[m], constraint.op, constraint.target, ch.metadata[m],
                                  st.schema.chunkSize, st.texts[m], ch.rowids, bm);
    assert b[..] == was;
    forall i: nat | i < st.schema.chunkSize
      ensures Verdict(st, constraint, SlotAt(st, Position(c, i))) ==
              CellVerdict(st.schema.metadata[m], constraint.op, constraint.target,
                          CellAt(st.schema.metadata[m], ch.metadata[m], st.schema.chunkSize, i), st.texts[m],
                            ch.rowids[i])
    {
    }
    if ok {
      AndInPlace(b, bm);
    }
  }

  method ApplyMetadata(st: State, q: Query, c: nat, b: array<Byte>, bm: array<Byte>) returns (ok: bool)
    requires ShapeOk(st) && QueryOk(st.schema, q) && c < |st.chunks|
    requires b != bm && CHAR_BIT * b.Length == CHAR_BIT * bm.Length == st.schema.chunkSize
    modifies b, bm
    ensures ok <==> forall i: nat, m :: i < st.schema.chunkSize && m in q.metadata ==>
        Verdict(st, m, SlotAt(st, Position(c, i))).Some?
    ensures ok ==> forall i: nat :: i < st.schema.chunkSize ==>
              Bits(b[..])[i] == (old(Bits(b[..]))[i] && Allowed(st, q.metadata, SlotAt(st, Position(c, i))))
  {
    ghost var was := Bits(b[..]);
    for j := 0 to |q.metadata|
      invariant forall i: nat, m :: i < st.schema.chunkSize && m in q.metadata[..j] ==>
          Verdict(st, m, SlotAt(st, Position(c, i))).Some?
      invariant forall i: nat :: i < st.schema.chunkSize ==>
                  Bits(b[..])[i] == (was[i] && Allowed(st, q.metadata[..j], SlotAt(st, Position(c, i))))
    {
      var constraint := q.metadata[j];
      ok := ApplyConstraint(st, c, constraint, b, bm);
      if !ok {
        return;
      }
      assert q.metadata[..j + 1] == q.metadata[..j] + [constraint];
    }
    assert q.metadata[..|q.metadata|] == q.metadata;
    ok := true;
  }

  method ComputeDistances(st: State, q: Query, c: nat, b: array<Byte>, distances: array<real>)
    requires ShapeOk(st) && QueryOk(st.schema, q) && c < |st.chunks|
    requires CHAR_BIT * b.Length == st.schema.chunkSize == distances.Length && distances as object != b
    modifies distances
    ensures forall i: nat :: i < distances.Length && Bits(b[..])[i] ==>
              distances[i] == HitOf(st, q, Position(c, i)).distance
  {
    var ch := st.chunks[c];
    ghost var bits := b[..];
    for i := 0 to distances.Length
      invariant b[..] == bits
      invariant forall j: nat :: j < i && Bits(bits)[j] ==> distances[j] == HitOf(st, q, Position(c, j)).distance
    {
      if !GetBit(b, i) {
        continue;
      }
      distances[i] :=
        DistanceTo(q, VectorBlob.KnnRead(st.schema.vectors[q.column], ch.vectors[q.column], st.schema.chunkSize, i));
    }
  }

  method ApplyDistances(constraints: seq<DistanceConstraint>, distances: array<real>, b: array<Byte>)
    requires CHAR_BIT * b.Length == distances.Length && distances as object != b
    modifies b
    ensures forall i: nat :: i < distances.Length ==>
              Bits(b[..])[i] == (old(Bits(b[..]))[i] && forall c :: c in constraints ==>
                DistancePasses(c, distances[i]))
  {
    ghost var was := Bits(b[..]);
    ghost var d := distances[..];
    for j := 0 to |constraints|
      invariant distances[..] == d
      invariant forall i: nat :: i < |d| ==>
                  Bits(b[..])[i] == (was[i] && forall c :: c in constraints[..j] ==> DistancePasses(c, d[i]))
    {
      var constraint := constraints[j];
      ghost var before := Bits(b[..]);
      for i := 0 to distances.Length
        invariant distances[..] == d
        invariant forall n: nat :: n < i ==> Bits(b[..])[n] == (before[n] && DistancePasses(constraint, d[n]))
        invariant forall n: nat :: i <= n < |d| ==> Bits(b[..])[n] == before[n]
      {
        if GetBit(b, i) && !DistancePasses(constraint, distances[i]) {
          SetBit(b, i, false);
        }
      }
      assert constraints[..j + 1] == constraints[..j] + [constraint];
    }
    assert constraints[..|constraints|] == constraints;
  }

  // ---- one chunk, then all of them ----

  lemma BitsAreHits(st: State, q: Query, c: nat, distances: seq<real>, bits: seq<bool>)
    requires ShapeOk(st) && QueryOk(st.schema, q) && c < |st.chunks| && Scanned(st, q, c)
    requires |bits| == |distances| == st.schema.chunkSize
    requires forall i: nat :: i < |bits| ==> bits[i] == SlotPasses(st, q, Position(c, i))
    requires forall i: nat :: i < |bits| && bits[i] ==> distances[i] == HitOf(st, q, Position(c, i)).distance
    ensures ChunkHits(distances, st.chunks[c].rowids, bits, c) == HitsIn(st, q, c)
  {
    forall i: nat | i < |bits| && bits[i]
      ensures HitAt(distances, st.chunks[c].rowids, c, i) == HitOf(st, q, Position(c, i))
    {
    }
  }

  /** A chunk cannot hold more hits than slots, so capping k at the chunk size changes nothing. */
  lemma CappedK(top: seq<Hit>, distances: seq<real>, rowids: seq<int>, bits: seq<bool>, c: nat, k: nat)
    requires |bits| == |distances| == |rowids|
    requires IsTop(top, ChunkHits(distances, rowids, bits, c), Min(k, |bits|))
    ensures IsTop(top, ChunkHits(distances, rowids, bits, c), k)
  {
    HitsPerSlot(distances, rowids, bits, c, Candidates(bits), ChunkHits(distances, rowids, bits, c));
    CandidatesBounded(bits);
  }

  lemma {:induction false} CandidatesBounded(bits: seq<bool>)
    ensures |Candidates(bits)| <= |bits|
  {
    if bits != [] {
      var n := |bits| - 1;
      CandidatesBounded(bits[..n]);
      assert Candidates(bits) == Candidates(bits[..n]) + if bits[n] then {n} else {};
    }
  }

  /** `b` and `distances` describe exactly the slots of a scanned chunk that pass the query. */
  ghost predicate Narrowed(st: State, q: Query, c: nat, bits: seq<bool>, distances: seq<real>)
    requires ShapeOk(st) && QueryOk(st.schema, q) && c < |st.chunks|
    requires |bits| == |distances| == st.schema.chunkSize
  {
    && (forall i: nat :: i < |bits| ==> bits[i] == SlotPasses(st, q, Position(c, i)))
    && (forall i: nat :: i < |bits| && bits[i] ==> distances[i] == HitOf(st, q, Position(c, i)).distance)
  }

  /** Intersects validity, the rowid list, the metadata bitmaps and the distance bounds, in that order. */
  method NarrowChunk(st: State, q: Query, c: nat, b: array<Byte>, bmRowids: array<Byte>, bmMetadata: array<Byte>,
                     distances: array<real>)
    returns (ok: bool)
    requires ShapeOk(st) && QueryOk(st.schema, q) && c < |st.chunks| && Scanned(st, q, c)
    requires CHAR_BIT * b.Length == CHAR_BIT * bmRowids.Length == CHAR_BIT * bmMetadata.Length == st.schema.chunkSize ==
        distances.Length
    requires b != bmRowids && b != bmMetadata && distances as object != b
    modifies b, bmRowids, bmMetadata, distances
    ensures ok <==> !FilterFails(st, q, c)
    ensures ok ==> Narrowed(st, q, c, Bits(b[..]), distances[..])
  {
    var ch := st.chunks[c];
    Copy(b, ch.validity);
    if q.rowidIn.Some? {
      ApplyRowidIn(ch, st.schema.chunkSize, q.rowidIn.value, b, bmRowids);
    }
    ghost var bits1 := Bits(b[..]);
    assert forall i: nat :: i < |bits1| ==> bits1[i] == (Bits(ch.validity)[i] && RowidPasses(q, ch.rowids[i]));
    ok := ApplyMetadata(st, q, c, b, bmMetadata);
    if ok {
      ghost var bits2 := Bits(b[..]);
      ghost var b2 := b[..];
      ComputeDistances(st, q, c, b, distances);
      assert b[..] == b2;
      ghost var d := distances[..];
      ApplyDistances(q.distances, distances, b);
      assert distances[..] == d;
      Narrowing(st, q, c, bits1, bits2, Bits(b[..]), d);
    }
  }

  lemma Narrowing(st: State, q: Query, c: nat, bits1: seq<bool>, bits2: seq<bool>, bits3: seq<bool>, d: seq<real>)
    requires ShapeOk(st) && QueryOk(st.schema, q) && c < |st.chunks|
    requires |bits1| == |bits2| == |bits3| == |d| == st.schema.chunkSize
    requires forall i: nat :: i < |bits1| ==>
               bits1[i] == (Bits(st.chunks[c].validity)[i] && RowidPasses(q, st.chunks[c].rowids[i]))
    requires forall i: nat :: i < |bits2| ==>
               bits2[i] == (bits1[i] && Allowed(st, q.metadata, SlotAt(st, Position(c, i))))
    requires forall i: nat :: i < |d| && bits2[i] ==> d[i] == HitOf(st, q, Position(c, i)).distance
    requires forall i: nat :: i < |bits3| ==>
               bits3[i] == (bits2[i] && forall x :: x in q.distances ==> DistancePasses(x, d[i]))
    ensures Narrowed(st, q, c, bits3, d)
  {
    forall i: nat | i < |bits3|
      ensures bits3[i] == SlotPasses(st, q, Position(c, i))
    {
      var s := SlotAt(st, Position(c, i));
      assert bits2[i] == (s.live && RowidPasses(q, s.owner) && Allowed(st, q.metadata, s));
    }
  }

  lemma NarrowedSelectionIsTop(st: State, q: Query, c: nat, k: nat, bits: seq<bool>, d: seq<real>, chosen: seq<nat>)
    requires ShapeOk(st) && QueryOk(st.schema, q) && c < |st.chunks| && Scanned(st, q, c)
    requires |bits| == |d| == st.schema.chunkSize && Narrowed(st, q, c, bits, d)
    requires IsSelection(chosen, d, bits, Min(k, st.schema.chunkSize))
    ensures IsTop(SelectedHits(d, st.chunks[c].rowids, c, chosen), HitsIn(st, q, c), k)
  {
    var rowids := st.chunks[c].rowids;
    SelectionIsTop(chosen, d, rowids, bits, c, Min(k, |bits|));
    CappedK(SelectedHits(d, rowids, c, chosen), d, rowids, bits, c, k);
    BitsAreHits(st, q, c, d, bits);
  }

  /** Narrows one scanned chunk to its candidates and selects its nearest k. */
  method ScanChunk(st: State, q: Query, c: nat, k: nat, b: array<Byte>, bmRowids: array<Byte>, bmMetadata: array<Byte>,
                   distances: array<real>, idxs: array<nat>, taken: array<Byte>)
    returns (ok: bool, used: nat)
    requires ShapeOk(st) && QueryOk(st.schema, q) && c < |st.chunks| && Scanned(st, q, c)
    requires CHAR_BIT * b.Length == CHAR_BIT * bmRowids.Length == CHAR_BIT * bmMetadata.Length == st.schema.chunkSize
    requires CHAR_BIT * taken.Length == st.schema.chunkSize == distances.Length && 0 < k <= idxs.Length
    requires b != bmRowids && b != bmMetadata && b != taken
    requires distances as object != b && distances as object != taken
    requires idxs as object != distances && idxs as object != b && idxs as object != taken
    modifies b, bmRowids, bmMetadata, distances, idxs, taken
    ensures ok <==> !FilterFails(st, q, c)
    ensures ok ==> used <= idxs.Length && forall i :: 0 <= i < used ==> idxs[i] < distances.Length
    ensures ok ==> IsTop(SelectedHits(distances[..], st.chunks[c].rowids, c, idxs[..used]), HitsIn(st, q, c), k)
  {
    hide FilterFails, Narrowed, HitsIn, IsTop, Scanned;
    used := 0;
    ok := NarrowChunk(st, q, c, b, bmRowids, bmMetadata, distances);
    if ok {
      ghost var d, bits := distances[..], Bits(b[..]);
      used := MinIdx(distances, b, idxs, Min(k, st.schema.chunkSize), taken);
      assert d == distances[..];
      NarrowedSelectionIsTop(st, q, c, k, bits, d, idxs[..used]);
    }
  }

  lemma {:induction false} EarlierHits(st: State, q: Query, n: nat)
    requires ShapeOk(st) && QueryOk(st.schema, q) && n <= |st.chunks|
    ensures forall x :: x in HitsBelow(st, q, n) ==> x.chunk < n
  {
    if n > 0 {
      EarlierHits(st, q, n - 1);
    }
  }

  /** The accumulator's step: merging one chunk's top k keeps it the top k of everything seen. */
  lemma MergedIsTop(st: State, q: Query, c: nat, k: nat, seen: seq<Hit>, chunk: seq<Hit>)
    requires ShapeOk(st) && QueryOk(st.schema, q) && c < |st.chunks|
    requires IsTop(seen, HitsBelow(st, q, c), k) && IsTop(chunk, HitsIn(st, q, c), k)
    ensures IsTop(Merge(seen, chunk, k), HitsBelow(st, q, c + 1), k)
  {
    EarlierHits(st, q, c);
    MergeIsTop(seen, chunk, HitsBelow(st, q, c), HitsIn(st, q, c), k);
  }

  /** Merges one chunk's selection into the running arrays, through temporary ones that are copied back. */
  method MergeChunk(topDistances: array<real>, topRowids: array<int>, used: nat,
                    chunkDistances: array<real>, chunkRowids: seq<int>, idxs: array<nat>, chunkUsed: nat,
                    tmpDistances: array<real>, tmpRowids: array<int>, ghost top: seq<Hit>, ghost c: nat)
    returns (newUsed: nat)
    requires topDistances.Length == topRowids.Length == tmpDistances.Length == tmpRowids.Length
    requires used <= topDistances.Length && InArrays(top, topDistances[..used], topRowids[..used])
    requires chunkDistances.Length == |chunkRowids| && chunkUsed <= idxs.Length
    requires forall i :: 0 <= i < chunkUsed ==> idxs[i] < chunkDistances.Length
    requires tmpDistances != topDistances && tmpDistances != chunkDistances && tmpRowids != topRowids
    requires topDistances as object != topRowids && tmpDistances as object != tmpRowids
    requires tmpDistances as object != topRowids && tmpRowids as object != topDistances
    requires tmpDistances as object != idxs && tmpRowids as object != chunkDistances && tmpRowids as object != idxs
    modifies topDistances, topRowids, tmpDistances, tmpRowids
    ensures newUsed <= topDistances.Length
    ensures InArrays(Merge(top, old(SelectedHits(chunkDistances[..], chunkRowids, c, idxs[..chunkUsed])),
                           topDistances.Length),
                     topDistances[..newUsed], topRowids[..newUsed])
  {
    ghost var merged := Merge(top, SelectedHits(chunkDistances[..], chunkRowids, c, idxs[..chunkUsed]),
                              topDistances.Length);
    newUsed := MergeSortedLists(topDistances, topRowids, used, chunkDistances, chunkRowids, idxs, chunkUsed,
                                tmpDistances, tmpRowids, topDistances.Length, top, c);
    for i := 0 to newUsed
      invariant InArrays(merged, tmpDistances[..newUsed], tmpRowids[..newUsed])
      invariant forall j :: 0 <= j < i ==> topRowids[j] == merged[j].rowid && topDistances[j] == merged[j].distance
    {
      topRowids[i], topDistances[i] := tmpRowids[i], tmpDistances[i];
    }
  }

  /** The running top k, as rowids and distances. */
  method KnnChunks(st: State, q: Query, k: nat)
    returns (ok: bool, rowids: seq<int>, distances: seq<real>, ghost top: seq<Hit>)
    requires ShapeOk(st) && QueryOk(st.schema, q) && 0 < k
    ensures ok <==> forall c :: 0 <= c < |st.chunks| ==> !FilterFails(st, q, c)
    ensures ok ==> IsTop(top, HitsBelow(st, q, |st.chunks|), k) && InArrays(top, distances, rowids)
  {
    hide FilterFails, HitsBelow, HitsIn, IsTop, Scanned, Merge, SelectedHits, QueryOk, InArrays;
    var size := st.schema.chunkSize;
    var topRowids, topDistances := new int[k], new real[k];
    var tmpRowids, tmpDistances := new int[k], new real[k];
    var chunkDistances := new real[size];
    var b, taken := new Byte[size / CHAR_BIT], new Byte[size / CHAR_BIT];
    var bmRowids, bmMetadata := new Byte[size / CHAR_BIT], new Byte[size / CHAR_BIT];
    var idxs := new nat[k];
    var used: nat := 0;
    rowids, distances, top := [], [], [];
    NothingSeen(st, q, k);
    assert topDistances[..0] == [] && topRowids[..0] == [];
    for c := 0 to |st.chunks|
      invariant used <= k && InArrays(top, topDistances[..used], topRowids[..used])
      invariant IsTop(top, HitsBelow(st, q, c), k)
      invariant forall d :: 0 <= d < c ==> !FilterFails(st, q, d)
    {
      if !Scanned(st, q, c) {
        SkippedChunk(st, q, c);
        continue;
      }
      var chunkUsed;
      ok, chunkUsed := ScanChunk(st, q, c, k, b, bmRowids, bmMetadata, chunkDistances, idxs, taken);
      if !ok {
        return;
      }
      assert InArrays(top, topDistances[..used], topRowids[..used]);
      ghost var chunkTop := SelectedHits(chunkDistances[..], st.chunks[c].rowids, c, idxs[..chunkUsed]);
      used := MergeChunk(topDistances, topRowids, used, chunkDistances, st.chunks[c].rowids, idxs, chunkUsed,
                         tmpDistances, tmpRowids, top, c);
      MergedIsTop(st, q, c, k, top, chunkTop);
      top := Merge(top, chunkTop, k);
    }
    return true, topRowids[..used], topDistances[..used], top;
  }

  lemma NothingSeen(st: State, q: Query, k: nat)
    requires ShapeOk(st) && QueryOk(st.schema, q)
    ensures IsTop([], HitsBelow(st, q, 0), k) && InArrays([], [], [])
  {}

  lemma SkippedChunk(st: State, q: Query, c: nat)
    requires ShapeOk(st) && QueryOk(st.schema, q) && c < |st.chunks| && !Scanned(st, q, c)
    ensures HitsBelow(st, q, c + 1) == HitsBelow(st, q, c) && !FilterFails(st, q, c)
  {
    assert HitsIn(st, q, c) == {};
  }
}
