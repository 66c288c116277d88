/**
 Where rows go over time: which slot an insert takes, what it leaves alone, that live slots and
 rows are in bijection, and that once a partition has moved on to a newer chunk the older one only
 ever empties.
 */
module Allocation {
  import opened Bitmap
  import opened Wrappers
  import opened SqlValue
  import opened Store
  import opened Statements
  import opened Refinement
  import opened VectorBlob
  import Ranking

  // ---- live slots and rows ----

  ghost function LiveSlots(st: State): set<Position>
    requires ShapeOk(st)
  {
    set c: nat, i: nat | c < |st.chunks| && i < st.schema.chunkSize && SlotAt(st, Position(c, i)).live :: Position(c, i)
  }

  /** The set validity bits are exactly the rows' positions, one bit for each row. */
  lemma LiveSlotsAreRows(st: State)
    requires Inv(st)
    ensures LiveSlots(st) == st.positions.Values && |LiveSlots(st)| == |st.positions| == |Rows(st)|
  {
    hide LiveSlots, SlotAt;
    LiveSlotsArePositions(st);
    forall a, b | a in st.positions && b in st.positions && a != b
      ensures st.positions[a] != st.positions[b]
    {
      PositionsDistinct(st, a);
    }
    Ranking.ValuesCount(st.positions);
    assert |Rows(st).Keys| == |st.positions.Keys|;
  }

  lemma LiveSlotsArePositions(st: State)
    requires Inv(st)
    ensures LiveSlots(st) == st.positions.Values
  {
    forall r | r in st.positions
      ensures st.positions[r] in LiveSlots(st)
    {
      assert RowPlaced(st, r);
      var p := st.positions[r];
      assert p == Position(p.chunk, p.slot);
    }
    forall p | p in LiveSlots(st)
      ensures p in st.positions.Values
    {
      assert InRange(st, p);
      assert SlotAt(st, p).owner in st.positions;
    }
  }

  // ---- the reach of a statement ----

  /** Writing metadata leaves every other slot, every position and every chunk's partition alone. */
  lemma {:induction false} WriteCellsLocal(st: State, p: Position, r: int, m: nat, values: seq<Option<Value>>,
                                           isUpdate: bool)
    requires ShapeOk(st) && InRange(st, p) && |values| == |st.schema.metadata| && m <= |values|
    ensures var res := WriteCells(st, p, r, m, values, isUpdate);
      res.Ok? ==> Local(st, res.value, p, r) && res.value.positions == st.positions
    decreases |values| - m
  {
    hide WriteCell;
    if m < |values| {
      if values[m].None? {
        WriteCellsLocal(st, p, r, m + 1, values, isUpdate);
      } else {
        var one := WriteCell(st, p, r, m, values[m].value, isUpdate);
        if one.Ok? {
          MetadataWriteLocal(st, p, r, m, values[m].value, isUpdate);
          WriteCellsLocal(one.value, p, r, m + 1, values, isUpdate);
          if WriteCells(st, p, r, m, values, isUpdate).Ok? {
            LocalTrans(st, one.value, WriteCells(st, p, r, m, values, isUpdate).value, p, r);
          }
        }
      }
    }
  }

  lemma MetadataWriteLocal(st: State, p: Position, r: int, m: nat, value: Value, isUpdate: bool)
    requires ShapeOk(st) && InRange(st, p) && m < |st.schema.metadata|
    ensures var res := WriteCell(st, p, r, m, value, isUpdate);
      res.Ok? ==> Local(st, res.value, p, r) && res.value.positions == st.positions
  {
    var one := WriteCell(st, p, r, m, value, isUpdate);
    if one.Ok? {
      ChunkChangeIsLocal(st, p, r, one.value.chunks[p.chunk], SlotOf(st.schema, one.value.chunks[p.chunk], p.slot));
    }
  }

  /** `st'` has the chunks of `st`, perhaps one more, and among the old slots only `p` may differ. */
  ghost predicate OnlySlot(st: State, st': State, p: Position) {
    && ShapeOk(st) && ShapeOk(st') && st'.schema == st.schema && |st.chunks| <= |st'.chunks|
    && (forall c :: 0 <= c < |st.chunks| ==> st'.chunks[c].partition == st.chunks[c].partition)
    && (forall q: Position :: InRange(st, q) && q != p ==> SlotAt(st', q) == SlotAt(st, q))
  }

  /** Where an insert puts a row: the newest chunk's least clear slot, or slot 0 of a fresh chunk. */
  function Allotted(st: State, partition: seq<Value>): Position {
    var c := LatestChunk(st.chunks, partition);
    var free := if c < 0 then -1 else LeastClear(Bits(st.chunks[c].validity));
    if free < 0 then Position(|st.chunks|, 0) else Position(c, free)
  }

  /** A successful insert takes exactly that slot, which no row was using, and touches no other. */
  lemma InsertAllocates(st: State, id: Option<int>, partition: seq<Value>, vectors: seq<Vector>, metadata: seq<Value>)
    requires Inv(st) && Arity(st.schema, partition, |vectors|, |metadata|)
    ensures var res := Insert(st, id, partition, vectors, metadata);
      res.Ok? ==>
        var (st', r) := res.value;
        && Inv(st') && r !in st.positions && r in st'.positions && st'.positions[r] == Allotted(st, partition)
        && OnlySlot(st, st', Allotted(st, partition))
        && (forall x :: x in st.positions ==> st.positions[x] != Allotted(st, partition))
  {
    hide OnlySlot, Local, WriteCells, Place, Rows, RowOf;
    if Insert(st, id, partition, vectors, metadata).Ok? {
      InsertRefines(st, id, partition, vectors, metadata);
      var (ready, p) := NextAvailable(st, partition);
      var (st', r) := Insert(st, id, partition, vectors, metadata).value;
      NextAvailableIsFree(st, partition);
      FreeSlotUnused(ready, p);
      PlaceLocal(ready, r, p, SomeAll(vectors));
      var placed := Place(ready, r, p, SomeAll(vectors));
      WriteCellsLocal(placed, p, r, 0, SomeAll(metadata), false);
      LocalTrans(ready, placed, st', p, r);
      ReadyExtends(st, partition);
      OnlySlotThenLocal(st, ready, st', p, r);
    }
  }

  lemma OnlySlotThenLocal(st: State, ready: State, st': State, p: Position, r: int)
    requires OnlySlot(st, ready, p) && InRange(ready, p) && Local(ready, st', p, r)
    ensures OnlySlot(st, st', p)
  {
    forall q: Position | InRange(st, q) && q != p
      ensures SlotAt(st', q) == SlotAt(st, q)
    {
      assert InRange(ready, q);
    }
  }

  lemma PlaceLocal(st: State, r: int, p: Position, vectors: seq<Option<Vector>>)
    requires ShapeOk(st) && InRange(st, p) && |vectors| == |st.schema.vectors| && VectorsFit(st.schema, vectors)
    ensures Local(st, Place(st, r, p, vectors), p, r) && Place(st, r, p, vectors).positions == st.positions[r := p]
  {
    var s := SlotAt(st, p);
    ChunkChangeIsLocal(st, p, r, Place(st, r, p, vectors).chunks[p.chunk],
                       Slot(true, r, OverlayVectors(s.vectors, vectors, 0), s.cells));
  }

  lemma ReadyExtends(st: State, partition: seq<Value>)
    requires ShapeOk(st) && PartitionTypesOk(st.schema, partition)
    ensures var (ready, p) := NextAvailable(st, partition);
      && p == Allotted(st, partition) && OnlySlot(st, ready, p)
      && (forall q: Position :: InRange(st, q) ==> SlotAt(ready, q) == SlotAt(st, q))
  {}

  // ---- chunks that have been left behind ----

  /** A newer chunk of the same partition exists, or the partition key has a NULL and so never matches. */
  predicate LeftBehind(st: State, c: nat) {
    && c < |st.chunks|
    && ((exists d :: c < d < |st.chunks| && PartitionMatches(st.chunks[d].partition, st.chunks[c].partition))
        || exists i :: 0 <= i < |st.chunks[c].partition| && st.chunks[c].partition[i].Null?)
  }

  lemma NullNeverMatches(stored: seq<Value>, wanted: seq<Value>, i: nat)
    requires i < |stored| && stored[i].Null?
    ensures !PartitionMatches(stored, wanted)
  {
    assert |stored| == |wanted| ==> !SqlHolds(EQ, stored[i], wanted[i]);
  }

  /** No insert is ever allotted a slot in a chunk left behind. */
  lemma NotAllotted(st: State, partition: seq<Value>, c: nat)
    requires ShapeOk(st) && PartitionTypesOk(st.schema, partition) && LeftBehind(st, c)
    ensures Allotted(st, partition).chunk != c
  {
    var stored := st.chunks[c].partition;
    if i :| 0 <= i < |stored| && stored[i].Null? {
      NullNeverMatches(stored, partition, i);
    } else if PartitionMatches(stored, partition) {
      PartitionMatchesIsEqual(st.schema, stored, partition);
    }
  }

  lemma StaysLeftBehind(st: State, st': State, p: Position, c: nat)
    requires OnlySlot(st, st', p) && LeftBehind(st, c)
    ensures LeftBehind(st', c)
  {}

  /** Every slot of `c` that is live in `st'` was live in `st`, for the same row. */
  ghost predicate Shrinks(st: State, st': State, c: nat)
    requires ShapeOk(st) && ShapeOk(st') && st'.schema == st.schema && c < |st.chunks| <= |st'.chunks|
  {
    forall i: nat :: i < st.schema.chunkSize ==>
      var was, now := SlotAt(st, Position(c, i)), SlotAt(st', Position(c, i));
      now.live ==> was.live && now.owner == was.owner
  }

  lemma DeleteOnlySlot(st: State, r: int)
    requires Inv(st) && Delete(st, r).Ok?
    ensures r in st.positions && OnlySlot(st, Delete(st, r).value, st.positions[r])
    ensures !SlotAt(Delete(st, r).value, st.positions[r]).live
  {
    DeleteLocal(st, r, Delete(st, r).value);
  }

  lemma UpdateOnlySlot(st: State, r: int, changed: bool, vectors: seq<Option<Vector>>, metadata: seq<Option<Value>>)
    requires Inv(st) && |vectors| == |st.schema.vectors| && |metadata| == |st.schema.metadata|
    ensures var res := Update(st, r, changed, vectors, metadata);
      res.Ok? ==> r in st.positions && OnlySlot(st, res.value, st.positions[r]) && res.value.positions == st.positions
  {
    if Update(st, r, changed, vectors, metadata).Ok? {
      var p := st.positions[r];
      WriteCellsLocal(st, p, r, 0, metadata, true);
      var next := WriteCells(st, p, r, 0, metadata, true).value;
      var ch := WriteVectors(next.schema, next.chunks[p.chunk], p.slot, vectors, 0);
      ChunkChangeIsLocal(next, p, r, ch, SlotOf(next.schema, ch, p.slot));
      LocalTrans(st, next, next.(chunks := next.chunks[p.chunk := ch]), p, r);
    }
  }

  /** A change to one slot, if it revives nothing in `c`, shrinks `c`. */
  lemma OnlySlotShrinks(st: State, st': State, p: Position, c: nat)
    requires OnlySlot(st, st', p) && LeftBehind(st, c)
    requires p.chunk == c && InRange(st, p) && SlotAt(st', p).live ==>
               SlotAt(st, p).live && SlotAt(st', p).owner == SlotAt(st, p).owner
    ensures LeftBehind(st', c) && Shrinks(st, st', c)
  {
    StaysLeftBehind(st, st', p, c);
    forall i: nat | i < st.schema.chunkSize
      ensures var was, now := SlotAt(st, Position(c, i)), SlotAt(st', Position(c, i));
        now.live ==> was.live && now.owner == was.owner
    {
      assert InRange(st, Position(c, i));
    }
  }

  ghost predicate Shrunk(st: State, st': State, c: nat)
    requires ShapeOk(st) && LeftBehind(st, c)
  {
    ShapeOk(st') && st'.schema == st.schema && |st.chunks| <= |st'.chunks| && LeftBehind(st', c) && Shrinks(st, st', c)
  }

  lemma InsertShrinks(st: State, id: Option<int>, partition: seq<Value>, vectors: seq<Vector>, metadata: seq<Value>,
                      c: nat)
    requires Inv(st) && Arity(st.schema, partition, |vectors|, |metadata|) && LeftBehind(st, c)
    ensures var res := Insert(st, id, partition, vectors, metadata); res.Ok? ==> Shrunk(st, res.value.0, c)
  {
    hide Insert, Allotted;
    if Insert(st, id, partition, vectors, metadata).Ok? {
      InsertAllocates(st, id, partition, vectors, metadata);
      var st' := Insert(st, id, partition, vectors, metadata).value.0;
      InsertPartitionOk(st, id, partition, vectors, metadata);
      NotAllotted(st, partition, c);
      OnlySlotShrinks(st, st', Allotted(st, partition), c);
    }
  }

  lemma InsertPartitionOk(st: State, id: Option<int>, partition: seq<Value>, vectors: seq<Vector>, metadata: seq<Value>)
    requires Inv(st) && Arity(st.schema, partition, |vectors|, |metadata|)
    ensures Insert(st, id, partition, vectors, metadata).Ok? ==> PartitionTypesOk(st.schema, partition)
  {}

  lemma DeleteShrinks(st: State, r: int, c: nat)
    requires Inv(st) && LeftBehind(st, c) && Delete(st, r).Ok?
    ensures Shrunk(st, Delete(st, r).value, c)
  {
    DeleteOnlySlot(st, r);
    hide Delete;
    OnlySlotShrinks(st, Delete(st, r).value, st.positions[r], c);
  }

  lemma UpdateShrinks(st: State, r: int, changed: bool, vectors: seq<Option<Vector>>, metadata: seq<Option<Value>>,
                      c: nat)
    requires Inv(st) && |vectors| == |st.schema.vectors| && |metadata| == |st.schema.metadata| && LeftBehind(st, c)
    ensures var res := Update(st, r, changed, vectors, metadata); res.Ok? ==> Shrunk(st, res.value, c)
  {
    hide Update, UpdateRow;
    if Update(st, r, changed, vectors, metadata).Ok? {
      UpdateRefines(st, r, changed, vectors, metadata);
      UpdateOnlySlot(st, r, changed, vectors, metadata);
      var st' := Update(st, r, changed, vectors, metadata).value;
      assert RowPlaced(st, r) && RowPlaced(st', r);
      OnlySlotShrinks(st, st', st.positions[r], c);
    }
  }

  lemma StepShrinks(st: State, s: Statement, c: nat)
    requires Inv(st) && Fitting(st.schema, s) && LeftBehind(st, c)
    ensures Shrunk(st, Step(st, s), c)
  {
    assert ShapeOk(st);
    hide Inv, Insert, Delete, Update, LeftBehind;
    match s {
      case InsertStatement(id, partition, vectors, metadata) =>
        if Insert(st, id, partition, vectors, metadata).Ok? {
          InsertShrinks(st, id, partition, vectors, metadata, c);
        }
      case DeleteStatement(r) =>
        if Delete(st, r).Ok? {
          DeleteShrinks(st, r, c);
        }
      case UpdateStatement(r, changed, vectors, metadata) =>
        if Update(st, r, changed, vectors, metadata).Ok? {
          UpdateShrinks(st, r, changed, vectors, metadata, c);
        }
    }
  }

  lemma ShrunkSelf(st: State, c: nat)
    requires ShapeOk(st) && LeftBehind(st, c)
    ensures Shrunk(st, st, c)
  {}

  lemma ShrunkLeaves(st: State, st': State, c: nat)
    requires ShapeOk(st) && LeftBehind(st, c) && Shrunk(st, st', c)
    ensures LeftBehind(st', c)
  {}

  lemma ShrunkTrans(st: State, mid: State, st': State, c: nat)
    requires ShapeOk(st) && LeftBehind(st, c) && Shrunk(st, mid, c)
    requires ShapeOk(mid) && LeftBehind(mid, c) && Shrunk(mid, st', c)
    ensures Shrunk(st, st', c)
  {
    hide LeftBehind;
  }

  /** Over any run, the live rows of a chunk left behind only ever become fewer. */
  lemma {:induction false} RunShrinks(st: State, run: seq<Statement>, c: nat)
    requires Inv(st) && (forall i :: 0 <= i < |run| ==> Fitting(st.schema, run[i])) && LeftBehind(st, c)
    ensures Shrunk(st, Run(st, run), c)
    decreases |run|
  {
    hide LeftBehind, Shrunk, Step;
    if run == [] {
      ShrunkSelf(st, c);
    } else {
      var n := |run| - 1;
      var mid := Run(st, run[..n]);
      RunShrinks(st, run[..n], c);
      ShrunkLeaves(st, mid, c);
      StepShrinks(mid, run[n], c);
      ShrunkTrans(st, mid, Step(mid, run[n]), c);
    }
  }
}
