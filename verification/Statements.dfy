/**
 INSERT, DELETE and UPDATE as the steps they take on the shadow tables, and the plain map from
 rowid to row that they refine, statement by statement and over whole runs.
 */
module Statements {
  import opened Bitmap
  import opened Wrappers
  import opened SqlValue
  import opened Metadata
  import opened Store
  import opened VectorBlob

  datatype Error =
    | PartitionTypeMismatch
    | VectorMismatch
    | DuplicateRowid
    | RowidsExhausted
    | MetadataTypeMismatch
    | SideTableConflict
    | NotFound
    | ValidityBitNotSet
    | PartitionKeyUpdate

  datatype Result<+T> = Ok(value: T) | Err(error: Error)

  const MAX_ROWID := 0x7fff_ffff_ffff_ffff

  function Max(x: int, y: int): (m: int)
    ensures m >= x && m >= y && (m == x || m == y)
  {
    if x < y then y else x
  }

  // ---- finding the slot for a new row ----

  /** Whether SQL finds every partition key of a chunk equal to the wanted one; NULL never is. */
  predicate PartitionMatches(stored: seq<Value>, wanted: seq<Value>) {
    |stored| == |wanted| && forall i :: 0 <= i < |stored| ==> SqlHolds(EQ, stored[i], wanted[i])
  }

  /** The newest chunk of a partition, or -1. */
  function LatestChunk(chunks: seq<Chunk>, wanted: seq<Value>): (c: int)
    ensures -1 <= c < |chunks|
    ensures c >= 0 ==> PartitionMatches(chunks[c].partition, wanted)
    ensures forall d :: c < d < |chunks| ==> !PartitionMatches(chunks[d].partition, wanted)
  {
    var n := |chunks| - 1;
    if chunks == [] then -1
    else if PartitionMatches(chunks[n].partition, wanted) then n
    else LatestChunk(chunks[..n], wanted)
  }

  /** The least clear slot, or -1. */
  function LeastClear(bits: seq<bool>): (i: int)
    ensures -1 <= i < |bits|
    ensures i >= 0 ==> !bits[i] && forall j :: 0 <= j < i ==> bits[j]
    ensures i == -1 ==> forall j :: 0 <= j < |bits| ==> bits[j]
  {
    if bits == [] then -1
    else if !bits[0] then 0
    else
      var i := LeastClear(bits[1..]);
      if i == -1 then -1 else i + 1
  }

  function BlankChunk(schema: Schema, partition: seq<Value>): (ch: Chunk)
    requires SchemaOk(schema) && PartitionTypesOk(schema, partition)
    ensures ChunkOk(schema, ch) && ch.partition == partition
    ensures forall slot: nat :: slot < schema.chunkSize ==>
              var s := SlotOf(schema, ch, slot); !s.live && Blank(s)
  {
    var ch := Chunk(partition, Zeros(schema.chunkSize / CHAR_BIT), seq(schema.chunkSize, _ => 0),
                    seq(|schema.vectors|, i requires 0 <= i < |schema.vectors| => Zeros(BlobSize(schema.vectors[i],
                      schema.chunkSize))),
                    seq(|schema.metadata|, m requires 0 <= m < |schema.metadata| => ZeroBlob(schema.metadata[m],
                      schema.chunkSize)));
    assert forall slot: nat, m ::
      slot < schema.chunkSize && 0 <= m < |schema.metadata| && schema.metadata[m].TextColumn? ==>
        SlotOf(schema, ch, slot).cells[m].view == ViewOf([]) by {
      forall slot: nat, m | slot < schema.chunkSize && 0 <= m < |schema.metadata| && schema.metadata[m].TextColumn?
        ensures SlotOf(schema, ch, slot).cells[m].view == ViewOf([])
      {
        ZeroBlobCells(schema.metadata[m], schema.chunkSize, slot);
      }
    }
    ch
  }

  function NewChunk(st: State, partition: seq<Value>): State
    requires ShapeOk(st) && PartitionTypesOk(st.schema, partition)
  {
    st.(chunks := st.chunks + [BlankChunk(st.schema, partition)])
  }

  lemma NewChunkRow(st: State, partition: seq<Value>, r: int)
    requires WellPlaced(st) && PartitionTypesOk(st.schema, partition) && r in st.positions
    requires WellPlaced(NewChunk(st, partition))
    ensures RowOf(NewChunk(st, partition), r) == RowOf(st, r)
    ensures RowPlaced(st, r) ==> RowPlaced(NewChunk(st, partition), r)
  {
    assert SlotAt(NewChunk(st, partition), st.positions[r]) == SlotAt(st, st.positions[r]);
  }

  lemma NewChunkRows(st: State, partition: seq<Value>)
    requires WellPlaced(st) && RowsPlaced(st) && PartitionTypesOk(st.schema, partition)
    requires WellPlaced(NewChunk(st, partition))
    ensures RowsPlaced(NewChunk(st, partition)) && Rows(NewChunk(st, partition)) == Rows(st)
  {
    var st' := NewChunk(st, partition);
    forall r | r in st'.positions
      ensures RowPlaced(st', r) && Rows(st')[r] == Rows(st)[r]
    {
      assert RowPlaced(st, r);
      NewChunkRow(st, partition, r);
    }
    SameMap(Rows(st'), Rows(st));
  }

  lemma NewChunkSlots(st: State, partition: seq<Value>)
    requires Inv(st) && PartitionTypesOk(st.schema, partition)
    requires WellPlaced(NewChunk(st, partition))
    ensures SlotsOwned(NewChunk(st, partition))
  {
    var st' := NewChunk(st, partition);
    forall p: Position | InRange(st', p)
      ensures var s := SlotAt(st', p);
        if s.live then s.owner in st'.positions && st'.positions[s.owner] == p else Blank(s)
    {
      if p.chunk < |st.chunks| {
        assert InRange(st, p) && SlotAt(st', p) == SlotAt(st, p);
      }
    }
  }

  lemma NewChunkKeeps(st: State, partition: seq<Value>)
    requires Inv(st) && PartitionTypesOk(st.schema, partition)
    ensures Inv(NewChunk(st, partition)) && Rows(NewChunk(st, partition)) == Rows(st)
  {
    NewChunkRows(st, partition);
    NewChunkSlots(st, partition);
  }

  /** Where the next row of a partition goes, with a new chunk opened when there is no room. */
  function NextAvailable(st: State, partition: seq<Value>): (State, Position)
    requires ShapeOk(st) && PartitionTypesOk(st.schema, partition)
  {
    var c := LatestChunk(st.chunks, partition);
    var free := if c < 0 then -1 else LeastClear(Bits(st.chunks[c].validity));
    if free < 0 then (NewChunk(st, partition), Position(|st.chunks|, 0)) else (st, Position(c, free))
  }

  lemma SqlEqualSameType(a: Value, b: Value)
    requires SqlHolds(EQ, a, b)
    requires (a.IntValue? && b.IntValue?) || (a.TextValue? && b.TextValue?)
    ensures a == b
  {
    if a.TextValue? {
      TextCompareZero(a.t, b.t);
    }
  }

  lemma PartitionMatchesIsEqual(schema: Schema, stored: seq<Value>, wanted: seq<Value>)
    requires PartitionTypesOk(schema, stored) && PartitionTypesOk(schema, wanted)
    requires PartitionMatches(stored, wanted)
    ensures stored == wanted
  {
    forall i | 0 <= i < |stored|
      ensures stored[i] == wanted[i]
    {
      assert SqlHolds(EQ, stored[i], wanted[i]);
      SqlEqualSameType(stored[i], wanted[i]);
    }
  }

  /** Two keys of the declared types match exactly when they are the same key and none of its values is NULL. */
  lemma PartitionMatchesIff(schema: Schema, stored: seq<Value>, wanted: seq<Value>)
    requires PartitionTypesOk(schema, stored) && PartitionTypesOk(schema, wanted)
    ensures PartitionMatches(stored, wanted) <==> stored == wanted && Null !in wanted
  {
    if PartitionMatches(stored, wanted) {
      PartitionMatchesIsEqual(schema, stored, wanted);
      assert forall i :: 0 <= i < |stored| ==> SqlHolds(EQ, stored[i], wanted[i]);
    }
    if stored == wanted && Null !in wanted {
      forall i | 0 <= i < |stored|
        ensures SqlHolds(EQ, stored[i], wanted[i])
      {
        assert wanted[i] in wanted && wanted[i] != Null;
        if wanted[i].TextValue? {
          TextCompareZero(wanted[i].t, wanted[i].t);
        }
      }
    }
  }

  /** The chunk looked into is the newest with the very same key; in a table without keys, the newest. */
  lemma LatestChunkIs(schema: Schema, chunks: seq<Chunk>, wanted: seq<Value>)
    requires PartitionTypesOk(schema, wanted)
    requires forall d :: 0 <= d < |chunks| ==> PartitionTypesOk(schema, chunks[d].partition)
    ensures var c := LatestChunk(chunks, wanted);
      && (c >= 0 ==> chunks[c].partition == wanted && Null !in wanted)
      && (Null !in wanted ==> forall d :: c < d < |chunks| ==> chunks[d].partition != wanted)
      && (Null in wanted ==> c == -1)
      && (wanted == [] ==> c == |chunks| - 1)
  {
    hide PartitionMatches, PartitionTypesOk;
    var c := LatestChunk(chunks, wanted);
    forall d | 0 <= d < |chunks|
      ensures PartitionMatches(chunks[d].partition, wanted) <==> chunks[d].partition == wanted && Null !in wanted
      ensures wanted == [] ==> chunks[d].partition == []
    {
      PartitionMatchesIff(schema, chunks[d].partition, wanted);
      KeysAsMany(schema, chunks[d].partition, wanted);
    }
  }

  lemma KeysAsMany(schema: Schema, stored: seq<Value>, wanted: seq<Value>)
    requires PartitionTypesOk(schema, stored) && PartitionTypesOk(schema, wanted)
    ensures |stored| == |wanted|
  {}

  /** `p` is a free slot of `st'`, in a chunk carrying exactly the given partition key. */
  ghost predicate FreeIn(st': State, p: Position, partition: seq<Value>)
    requires ShapeOk(st')
  {
    InRange(st', p) && !SlotAt(st', p).live && st'.chunks[p.chunk].partition == partition
  }

  lemma LatestChunkFree(st: State, partition: seq<Value>, c: nat, free: nat)
    requires ShapeOk(st) && PartitionTypesOk(st.schema, partition) && c < |st.chunks|
    requires PartitionMatches(st.chunks[c].partition, partition)
    requires free < st.schema.chunkSize && !Bits(st.chunks[c].validity)[free]
    ensures FreeIn(st, Position(c, free), partition)
  {
    PartitionMatchesIsEqual(st.schema, st.chunks[c].partition, partition);
  }

  /** The chosen slot is free, and choosing it changes no row. */
  lemma NextAvailableIsFree(st: State, partition: seq<Value>)
    requires Inv(st) && PartitionTypesOk(st.schema, partition)
    ensures var (st', p) := NextAvailable(st, partition);
      && Inv(st') && Rows(st') == Rows(st) && FreeIn(st', p, partition)
      && st'.positions == st.positions && st'.texts == st.texts && st'.sequence == st.sequence
        && st'.schema == st.schema
  {
    var c := LatestChunk(st.chunks, partition);
    var free := if c < 0 then -1 else LeastClear(Bits(st.chunks[c].validity));
    if free < 0 {
      NewChunkKeeps(st, partition);
    } else {
      LatestChunkFree(st, partition, c, free);
    }
  }

  // ---- writing columns ----

  predicate VectorsFit(schema: Schema, vectors: seq<Option<Vector>>)
    requires |vectors| == |schema.vectors|
  {
    forall i :: 0 <= i < |vectors| && vectors[i].Some? ==> Fits(schema.vectors[i], vectors[i].value)
  }

  function OverlayVectors(old_: seq<seq<Byte>>, vectors: seq<Option<Vector>>, from: nat): (r: seq<seq<Byte>>)
    requires |old_| == |vectors|
    ensures |r| == |old_|
  {
    seq(|old_|, i requires 0 <= i < |old_| => if i >= from && vectors[i].Some? then vectors[i].value.bytes else old_[i])
  }

  /** Writes the given vectors into one slot, column by column. */
  function WriteVectors(schema: Schema, ch: Chunk, slot: nat, vectors: seq<Option<Vector>>, from: nat): (r: Chunk)
    requires ChunkOk(schema, ch) && slot < schema.chunkSize
    requires |vectors| == |schema.vectors| && VectorsFit(schema, vectors) && from <= |vectors|
    ensures var was := SlotOf(schema, ch, slot);
      OneSlot(schema, ch, r, slot, was.(vectors := OverlayVectors(was.vectors, vectors, from)))
    decreases |vectors| - from
  {
    var was := SlotOf(schema, ch, slot);
    if from == |vectors| then
      assert OverlayVectors(was.vectors, vectors, from) == was.vectors;
      ch
    else if vectors[from].None? then
      assert OverlayVectors(was.vectors, vectors, from) == OverlayVectors(was.vectors, vectors, from + 1);
      WriteVectors(schema, ch, slot, vectors, from + 1)
    else
      var next := SetVector(schema, ch, from, slot, vectors[from].value);
      assert OverlayVectors(was.vectors, vectors, from) ==
             OverlayVectors(was.vectors[from := vectors[from].value.bytes], vectors, from + 1);
      WriteVectors(schema, next, slot, vectors, from + 1)
  }

  /** A row's metadata with the given columns replaced by what is stored of their new values. */
  function OverlayValues(schema: Schema, old_: seq<Value>, values: seq<Option<Value>>, from: nat): (r: seq<Value>)
    requires |old_| == |values| == |schema.metadata|
    ensures |r| == |old_|
  {
    seq(|old_|, m requires 0 <= m < |old_| =>
      if m >= from && values[m].Some? then Stored(schema.metadata[m], values[m].value) else old_[m])
  }

  predicate AllAccepted(schema: Schema, values: seq<Option<Value>>, from: nat)
    requires |values| == |schema.metadata|
  {
    forall m :: from <= m < |values| && values[m].Some? ==> Accepts(schema.metadata[m], values[m].value)
  }

  /** One metadata value into its blob and, for text, the side table. */
  function WriteCell(st: State, p: Position, r: int, m: nat, v: Value, isUpdate: bool): (res: Result<State>)
    requires ShapeOk(st) && InRange(st, p) && m < |st.schema.metadata|
    ensures res.Ok? ==> ShapeOk(res.value) && InRange(res.value, p) && res.value.schema == st.schema
  {
    if !Accepts(st.schema.metadata[m], v) then Err(MetadataTypeMismatch)
    else
      var side := WriteSide(st.texts[m], r, PreviousLength(SlotAt(st, p).cells[m]), v, isUpdate);
      if side.None? then Err(SideTableConflict)
      else
        Ok(st.(chunks := st.chunks[p.chunk := SetCell(st.schema, st.chunks[p.chunk], m, p.slot, v)],
               texts := st.texts[m := side.value]))
  }

  /** The write touches one slot and one side-table row, and the slot then reads back the value. */
  lemma WriteCellLocal(st: State, r: int, m: nat, v: Value, isUpdate: bool) returns (st': State)
    requires Inv(st) && r in st.positions && m < |st.schema.metadata|
    requires isUpdate || r !in st.texts[m]
    requires Accepts(st.schema.metadata[m], v)
    ensures WriteCell(st, st.positions[r], r, m, v, isUpdate) == Ok(st')
    ensures Local(st, st', st.positions[r], r)
    ensures st'.positions == st.positions && st'.sequence == st.sequence
    ensures forall j :: 0 <= j < |st.texts| && j != m ==> st'.texts[j] == st.texts[j]
    ensures var s, s' := SlotAt(st, st.positions[r]), SlotAt(st', st.positions[r]);
      && s' == s.(cells := s.cells[m := s'.cells[m]])
      && CellOk(s'.cells[m], st'.texts[m], r)
      && ReadCell(s'.cells[m], st'.texts[m], r) == Some(Stored(st.schema.metadata[m], v))
  {
    hide WriteSide, ReadCell;
    var p := st.positions[r];
    var s := SlotAt(st, p);
    assert RowPlaced(st, r);
    var kind := st.schema.metadata[m];
    Metadata.WriteThenRead(kind, s.cells[m], st.texts[m], r, v, isUpdate);
    var ch := SetCell(st.schema, st.chunks[p.chunk], m, p.slot, v);
    ChunkChangeIsLocal(st, p, r, ch, s.(cells := s.cells[m := CellOf(kind, v)]));
    st' := WriteCell(st, p, r, m, v, isUpdate).value;
  }

  lemma WriteCellKeeps(st: State, r: int, m: nat, v: Value, isUpdate: bool) returns (st': State)
    requires Inv(st) && r in st.positions && m < |st.schema.metadata|
    requires isUpdate || r !in st.texts[m]
    requires Accepts(st.schema.metadata[m], v)
    ensures WriteCell(st, st.positions[r], r, m, v, isUpdate) == Ok(st')
    ensures Inv(st') && st'.positions == st.positions && st'.schema == st.schema && st'.sequence == st.sequence
    ensures forall j :: 0 <= j < |st.texts| && j != m ==> st'.texts[j] == st.texts[j]
    ensures var row := RowOf(st, r);
      Rows(st') == Rows(st)[r := row.(metadata := row.metadata[m := Stored(st.schema.metadata[m], v)])]
  {
    st' := WriteCellLocal(st, r, m, v, isUpdate);
    assert RowPlaced(st, r);
    assert RowPlaced(st', r);
    InPlace(st, st', r);
    WriteCellRow(st, st', r, m, Stored(st.schema.metadata[m], v));
  }

  lemma WriteCellRow(st: State, st': State, r: int, m: nat, v: Value)
    requires WellPlaced(st) && WellPlaced(st') && r in st.positions && m < |st.schema.metadata|
    requires Local(st, st', st.positions[r], r) && st'.positions == st.positions
    requires forall j :: 0 <= j < |st.texts| && j != m ==> st'.texts[j] == st.texts[j]
    requires var s, s' := SlotAt(st, st.positions[r]), SlotAt(st', st.positions[r]);
      s' == s.(cells := s.cells[m := s'.cells[m]]) && ReadCell(s'.cells[m], st'.texts[m], r) == Some(v)
    ensures var row := RowOf(st, r); RowOf(st', r) == row.(metadata := row.metadata[m := v])
  {
    hide ReadCell, CellKind;
    var row, row' := RowOf(st, r), RowOf(st', r);
    assert row'.metadata == row.metadata[m := v];
  }

  /** The metadata columns from `m` on, in order, stopping at the first error. */
  function WriteCells(st: State, p: Position, r: int, m: nat, values: seq<Option<Value>>,
                      isUpdate: bool): (res: Result<State>)
    requires ShapeOk(st) && InRange(st, p) && |values| == |st.schema.metadata| && m <= |values|
    ensures res.Ok? ==> ShapeOk(res.value) && InRange(res.value, p) && res.value.schema == st.schema
    decreases |values| - m
  {
    if m == |values| then Ok(st)
    else if values[m].None? then WriteCells(st, p, r, m + 1, values, isUpdate)
    else
      match WriteCell(st, p, r, m, values[m].value, isUpdate)
      case Err(e) => Err(e)
      case Ok(next) => WriteCells(next, p, r, m + 1, values, isUpdate)
  }

  ghost predicate NoLongText(st: State, r: int, from: nat) {
    forall j :: from <= j < |st.texts| ==> r !in st.texts[j]
  }

  lemma OverlayValuesStep(schema: Schema, old_: seq<Value>, values: seq<Option<Value>>, m: nat)
    requires |old_| == |values| == |schema.metadata| && m < |values|
    ensures OverlayValues(schema, old_, values, m) ==
            OverlayValues(schema, if values[m].Some? then old_[m := Stored(schema.metadata[m], values[m].value)]
              else old_, values, m + 1)
    ensures AllAccepted(schema, values, m) <==>
            (values[m].Some? ==> Accepts(schema.metadata[m], values[m].value)) && AllAccepted(schema, values, m + 1)
  {}

  /** What a pass over the metadata columns leaves: the row overlaid, everything else as it was. */
  ghost predicate Overlaid(st: State, st': State, r: int, values: seq<Option<Value>>, m: nat)
    requires Inv(st) && r in st.positions && |values| == |st.schema.metadata|
  {
    && Inv(st') && st'.positions == st.positions && st'.schema == st.schema && st'.sequence == st.sequence
    && var row := Rows(st)[r];
       Rows(st') == Rows(st)[r := row.(metadata := OverlayValues(st.schema, row.metadata, values, m))]
  }

  lemma UpdateTwice<K, V>(a: map<K, V>, k: K, v: V, w: V)
    ensures a[k := v][k := w] == a[k := w]
  {}

  lemma OverlaidStep(st: State, next: State, st': State, r: int, values: seq<Option<Value>>, m: nat)
    requires Inv(st) && Inv(next) && r in st.positions && |values| == |st.schema.metadata| && m < |values|
    requires next.positions == st.positions && next.schema == st.schema && next.sequence == st.sequence
    requires values[m].Some? && var row := Rows(st)[r];
      Rows(next) == Rows(st)[r := row.(metadata := row.metadata[m := Stored(st.schema.metadata[m], values[m].value)])]
    requires Overlaid(next, st', r, values, m + 1)
    ensures Overlaid(st, st', r, values, m)
  {
    var row := Rows(st)[r];
    OverlayValuesStep(st.schema, row.metadata, values, m);
    UpdateTwice(Rows(st), r, Rows(next)[r], row.(metadata := OverlayValues(st.schema, row.metadata, values, m)));
  }

  lemma OverlaidSkip(st: State, st': State, r: int, values: seq<Option<Value>>, m: nat)
    requires Inv(st) && r in st.positions && |values| == |st.schema.metadata| && m < |values|
    requires values[m].None? && Overlaid(st, st', r, values, m + 1)
    ensures Overlaid(st, st', r, values, m)
  {
    OverlayValuesStep(st.schema, Rows(st)[r].metadata, values, m);
  }

  lemma OverlaidNothing(st: State, r: int, values: seq<Option<Value>>)
    requires Inv(st) && r in st.positions && |values| == |st.schema.metadata|
    ensures Overlaid(st, st, r, values, |values|)
  {
    var row := Rows(st)[r];
    assert OverlayValues(st.schema, row.metadata, values, |values|) == row.metadata;
    assert row.(metadata := OverlayValues(st.schema, row.metadata, values, |values|)) == row;
  }

  /** Writing metadata fails on a type mismatch only, and otherwise overlays the row. */
  ghost predicate CellsWritten(st: State, r: int, m: nat, values: seq<Option<Value>>, res: Result<State>)
    requires Inv(st) && r in st.positions && |values| == |st.schema.metadata| && m <= |values|
  {
    if AllAccepted(st.schema, values, m) then res.Ok? && Overlaid(st, res.value, r, values, m)
    else res == Err(MetadataTypeMismatch)
  }

  lemma CellsWrittenStep(st: State, next: State, r: int, m: nat, values: seq<Option<Value>>, res: Result<State>)
    requires Inv(st) && Inv(next) && r in st.positions && |values| == |st.schema.metadata| && m < |values|
    requires next.positions == st.positions && next.schema == st.schema && next.sequence == st.sequence
    requires values[m].Some? && Accepts(st.schema.metadata[m], values[m].value)
    requires var row := Rows(st)[r];
      Rows(next) == Rows(st)[r := row.(metadata := row.metadata[m := Stored(st.schema.metadata[m], values[m].value)])]
    requires CellsWritten(next, r, m + 1, values, res)
    ensures CellsWritten(st, r, m, values, res)
  {
    OverlayValuesStep(st.schema, Rows(st)[r].metadata, values, m);
    if AllAccepted(st.schema, values, m) {
      OverlaidStep(st, next, res.value, r, values, m);
    }
  }

  lemma CellsWrittenSkip(st: State, r: int, m: nat, values: seq<Option<Value>>, res: Result<State>)
    requires Inv(st) && r in st.positions && |values| == |st.schema.metadata| && m < |values|
    requires values[m].None? && CellsWritten(st, r, m + 1, values, res)
    ensures CellsWritten(st, r, m, values, res)
  {
    OverlayValuesStep(st.schema, Rows(st)[r].metadata, values, m);
    if AllAccepted(st.schema, values, m) {
      OverlaidSkip(st, res.value, r, values, m);
    }
  }

  lemma CellsWrittenNothing(st: State, r: int, values: seq<Option<Value>>)
    requires Inv(st) && r in st.positions && |values| == |st.schema.metadata|
    ensures CellsWritten(st, r, |values|, values, Ok(st))
  {
    OverlaidNothing(st, r, values);
  }

  lemma CellsWrittenMistyped(st: State, r: int, m: nat, values: seq<Option<Value>>)
    requires Inv(st) && r in st.positions && |values| == |st.schema.metadata| && m < |values|
    requires values[m].Some? && !Accepts(st.schema.metadata[m], values[m].value)
    ensures CellsWritten(st, r, m, values, Err(MetadataTypeMismatch))
  {}

  lemma WriteCellRefused(st: State, p: Position, r: int, m: nat, v: Value, isUpdate: bool)
    requires ShapeOk(st) && InRange(st, p) && m < |st.schema.metadata| && !Accepts(st.schema.metadata[m], v)
    ensures WriteCell(st, p, r, m, v, isUpdate) == Err(MetadataTypeMismatch)
  {}

  lemma LongTextAt(st: State, r: int, m: nat, isUpdate: bool)
    requires m < |st.texts| && (isUpdate || NoLongText(st, r, m))
    ensures isUpdate || r !in st.texts[m]
  {}

  lemma LongTextAfter(st: State, next: State, r: int, m: nat, isUpdate: bool)
    requires (isUpdate || NoLongText(st, r, m)) && |next.texts| == |st.texts|
    requires forall j :: 0 <= j < |st.texts| && j != m ==> next.texts[j] == st.texts[j]
    ensures isUpdate || NoLongText(next, r, m + 1)
  {}

  lemma {:induction false} WriteCellsKeeps(st: State, r: int, m: nat, values: seq<Option<Value>>, isUpdate: bool)
    requires Inv(st) && r in st.positions && |values| == |st.schema.metadata| && m <= |values|
    requires isUpdate || NoLongText(st, r, m)
    ensures CellsWritten(st, r, m, values, WriteCells(st, st.positions[r], r, m, values, isUpdate))
    decreases |values| - m
  {
    hide CellsWritten, Rows, WriteCell, Accepts, NoLongText;
    if m == |values| {
      CellsWrittenNothing(st, r, values);
    } else if values[m].None? {
      LongTextAfter(st, st, r, m, isUpdate);
      WriteCellsKeeps(st, r, m + 1, values, isUpdate);
      CellsWrittenSkip(st, r, m, values, WriteCells(st, st.positions[r], r, m + 1, values, isUpdate));
    } else if Accepts(st.schema.metadata[m], values[m].value) {
      LongTextAt(st, r, m, isUpdate);
      var next := WriteCellKeeps(st, r, m, values[m].value, isUpdate);
      LongTextAfter(st, next, r, m, isUpdate);
      WriteCellsKeeps(next, r, m + 1, values, isUpdate);
      CellsWrittenStep(st, next, r, m, values, WriteCells(next, st.positions[r], r, m + 1, values, isUpdate));
    } else {
      WriteCellRefused(st, st.positions[r], r, m, values[m].value, isUpdate);
      CellsWrittenMistyped(st, r, m, values);
    }
  }

  // ---- INSERT ----

  function SomeAll<T>(xs: seq<T>): (r: seq<Option<T>>)
    ensures |r| == |xs|
    ensures forall i :: 0 <= i < |xs| ==> r[i] == Some(xs[i])
  {
    seq(|xs|, i requires 0 <= i < |xs| => Some(xs[i]))
  }

  /** Marks the slot live, writes the vectors, names the owner and records the position. */
  function Place(st: State, r: int, p: Position, vectors: seq<Option<Vector>>): State
    requires ShapeOk(st) && InRange(st, p) && |vectors| == |st.schema.vectors| && VectorsFit(st.schema, vectors)
  {
    var marked := SetLive(st.schema, st.chunks[p.chunk], p.slot, true);
    var filled := WriteVectors(st.schema, marked, p.slot, vectors, 0);
    var named := SetOwner(st.schema, filled, p.slot, r);
    st.(chunks := st.chunks[p.chunk := named], positions := st.positions[r := p], sequence := Max(st.sequence, r))
  }

  lemma PlaceKeeps(st: State, r: int, p: Position, partition: seq<Value>, vectors: seq<Option<Vector>>)
    requires Inv(st) && r !in st.positions && FreeIn(st, p, partition)
    requires |vectors| == |st.schema.vectors| && VectorsFit(st.schema, vectors)
    ensures var st' := Place(st, r, p, vectors);
      && Inv(st') && st'.positions == st.positions[r := p] && st'.schema == st.schema
      && st'.sequence == Max(st.sequence, r) && NoLongText(st', r, 0)
      && Rows(st') == Rows(st)[r := RowOf(st', r)]
      && RowOf(st', r).partition == partition
      && RowOf(st', r).vectors == OverlayVectors(SlotAt(st, p).vectors, vectors, 0)
  {
    var st' := Place(st, r, p, vectors);
    var s := SlotAt(st, p);
    var ch := st'.chunks[p.chunk];
    ChunkChangeIsLocal(st, p, r, ch, Slot(true, r, OverlayVectors(s.vectors, vectors, 0), s.cells));
    AddRow(st, st', r, p);
  }

  /** A statement's arguments as SQLite passes them: one per declared column. */
  predicate Arity(schema: Schema, partition: seq<Value>, vectors: nat, metadata: nat) {
    |partition| == |schema.partitions| && vectors == |schema.vectors| && metadata == |schema.metadata|
  }

  /** The writing steps of an insert whose checks passed: choose a slot, place the row, write its metadata. */
  function InsertRowid(st: State, r: int, partition: seq<Value>, vectors: seq<Vector>,
                       metadata: seq<Value>): Result<(State, int)>
    requires ShapeOk(st) && Arity(st.schema, partition, |vectors|, |metadata|)
    requires PartitionTypesOk(st.schema, partition) && VectorsFit(st.schema, SomeAll(vectors))
  {
    var (ready, p) := NextAvailable(st, partition);
    match WriteCells(Place(ready, r, p, SomeAll(vectors)), p, r, 0, SomeAll(metadata), false)
    case Err(e) => Err(e)
    case Ok(st') => Ok((st', r))
  }

  function Insert(st: State, id: Option<int>, partition: seq<Value>, vectors: seq<Vector>,
                  metadata: seq<Value>): Result<(State, int)>
    requires ShapeOk(st) && Arity(st.schema, partition, |vectors|, |metadata|)
  {
    if !PartitionTypesOk(st.schema, partition) then Err(PartitionTypeMismatch)
    else if !VectorsFit(st.schema, SomeAll(vectors)) then Err(VectorMismatch)
    else if id.None? && st.sequence >= MAX_ROWID then Err(RowidsExhausted)
    else
      var r := id.GetOr(st.sequence + 1);
      if r in st.positions then Err(DuplicateRowid)
      else InsertRowid(st, r, partition, vectors, metadata)
  }

  // ---- DELETE ----

  function ZeroCells(schema: Schema, cells: seq<Cell>, from: nat): (r: seq<Cell>)
    requires |cells| == |schema.metadata|
    ensures |r| == |cells|
  {
    seq(|cells|, m requires 0 <= m < |cells| =>
      if m >= from then CellOf(schema.metadata[m], ZeroValue(schema.metadata[m])) else cells[m])
  }

  /** Blanks one metadata column of a slot and drops its long text, if the view says there is some. */
  function ClearColumn(st: State, p: Position, r: int, m: nat): (st': State)
    requires ShapeOk(st) && InRange(st, p) && m < |st.schema.metadata|
    ensures ShapeOk(st') && InRange(st', p) && st'.schema == st.schema
  {
    var long := PreviousLength(SlotAt(st, p).cells[m]) > TEXT_VIEW_DATA;
    st.(chunks := st.chunks[p.chunk := SetCell(st.schema, st.chunks[p.chunk], m, p.slot,
                                               ZeroValue(st.schema.metadata[m]))],
        texts := st.texts[m := if long then st.texts[m] - {r} else st.texts[m]])
  }

  function ClearColumns(st: State, p: Position, r: int, from: nat): (st': State)
    requires ShapeOk(st) && InRange(st, p) && from <= |st.schema.metadata|
    ensures ShapeOk(st') && InRange(st', p) && st'.schema == st.schema
    decreases |st.schema.metadata| - from
  {
    if from == |st.schema.metadata| then st
    else ClearColumns(ClearColumn(st, p, r, from), p, r, from + 1)
  }

  lemma ClearColumnLocal(st: State, p: Position, r: int, m: nat)
    requires ShapeOk(st) && InRange(st, p) && m < |st.schema.metadata|
    ensures var s, st' := SlotAt(st, p), ClearColumn(st, p, r, m);
      && Local(st, st', p, r)
      && SlotAt(st', p) == s.(cells := s.cells[m := CellOf(st.schema.metadata[m], ZeroValue(st.schema.metadata[m]))])
  {
    var s := SlotAt(st, p);
    var ch := SetCell(st.schema, st.chunks[p.chunk], m, p.slot, ZeroValue(st.schema.metadata[m]));
    ChunkChangeIsLocal(st, p, r, ch, SlotOf(st.schema, ch, p.slot));
  }

  /** Blanking a slot stays within the slot and within the row's side-table entries, which it removes. */
  lemma {:induction false} ClearColumnsLocal(st: State, p: Position, r: int, from: nat)
    requires ShapeOk(st) && InRange(st, p) && from <= |st.schema.metadata|
    ensures var s, st' := SlotAt(st, p), ClearColumns(st, p, r, from);
      && Local(st, st', p, r) && st'.positions == st.positions && st'.sequence == st.sequence
      && SlotAt(st', p) == s.(cells := ZeroCells(st.schema, s.cells, from))
      && (forall j :: 0 <= j < |st.texts| ==>
            st'.texts[j] == if j >= from && PreviousLength(s.cells[j]) > TEXT_VIEW_DATA then st.texts[j] - {r}
              else st.texts[j])
    decreases |st.schema.metadata| - from
  {
    var s := SlotAt(st, p);
    if from == |st.schema.metadata| {
      assert ZeroCells(st.schema, s.cells, from) == s.cells;
    } else {
      var next := ClearColumn(st, p, r, from);
      ClearColumnLocal(st, p, r, from);
      ClearColumnsLocal(next, p, r, from + 1);
      LocalTrans(st, next, ClearColumns(next, p, r, from + 1), p, r);
      assert ZeroCells(st.schema, s.cells, from) == ZeroCells(st.schema, SlotAt(next, p).cells, from + 1);
    }
  }

  /** The delete's own check: some bit at or above the slot's, within its byte, is set. */
  predicate BitsRemain(x: Byte, j: nat)
    requires j < CHAR_BIT
  {
    x >> j != 0
  }

  lemma SetBitRemains(x: Byte, j: nat)
    requires j < CHAR_BIT && BitOf(x, j)
    ensures BitsRemain(x, j)
  {
    EightCases(j);
  }

  function Delete(st: State, r: int): Result<State>
    requires WellPlaced(st)
  {
    if r !in st.positions then Err(NotFound)
    else
      var p := st.positions[r];
      var ch := st.chunks[p.chunk];
      if !BitsRemain(ch.validity[p.slot / CHAR_BIT], p.slot % CHAR_BIT) then Err(ValidityBitNotSet)
      else
        var unplaced := st.(chunks := st.chunks[p.chunk := SetLive(st.schema, ch, p.slot, false)],
                            positions := st.positions - {r});
        Ok(ClearColumns(unplaced, p, r, 0))
  }

  lemma DeleteKeeps(st: State, r: int)
    requires Inv(st)
    ensures var res := Delete(st, r);
      if r in st.positions then
        && res.Ok? && Inv(res.value) && Rows(res.value) == Rows(st) - {r}
        && res.value.schema == st.schema && res.value.sequence == st.sequence
      else res == Err(NotFound)
  {
    if r in st.positions {
      var p := st.positions[r];
      assert RowPlaced(st, r);
      SetBitRemains(st.chunks[p.chunk].validity[p.slot / CHAR_BIT], p.slot % CHAR_BIT);
      var st' := Delete(st, r).value;
      DeleteLocal(st, r, st');
      RemoveRow(st, st', r);
    }
  }

  lemma DeleteLocal(st: State, r: int, st': State)
    requires Inv(st) && r in st.positions && Delete(st, r) == Ok(st')
    ensures Local(st, st', st.positions[r], r)
    ensures var s, s' := SlotAt(st, st.positions[r]), SlotAt(st', st.positions[r]);
      !s'.live && Blank(s') && s'.owner == r && s'.vectors == s.vectors
    ensures NoLongText(st', r, 0) && st'.positions == st.positions - {r} && st'.sequence == st.sequence
  {
    var p := st.positions[r];
    var ch := st.chunks[p.chunk];
    var s := SlotAt(st, p);
    assert RowPlaced(st, r);
    var unmarked := SetLive(st.schema, ch, p.slot, false);
    ChunkChangeIsLocal(st, p, r, unmarked, s.(live := false));
    var unplaced := st.(chunks := st.chunks[p.chunk := unmarked], positions := st.positions - {r});
    ClearColumnsLocal(unplaced, p, r, 0);
    hide Local, ClearColumns, ReadCell;
    LocalTrans(st, unplaced, st', p, r);
    forall m | 0 <= m < |st.texts|
      ensures r !in st'.texts[m]
    {
      assert CellOk(s.cells[m], st.texts[m], r);
    }
  }

  // ---- UPDATE ----

  function Update(st: State, r: int, partitionChanged: bool, vectors: seq<Option<Vector>>,
                  metadata: seq<Option<Value>>): Result<State>
    requires WellPlaced(st) && |vectors| == |st.schema.vectors| && |metadata| == |st.schema.metadata|
  {
    if r !in st.positions then Err(NotFound)
    else if partitionChanged then Err(PartitionKeyUpdate)
    else
      var p := st.positions[r];
      match WriteCells(st, p, r, 0, metadata, true)
      case Err(e) => Err(e)
      case Ok(next) =>
        if !VectorsFit(next.schema, vectors) then Err(VectorMismatch)
        else Ok(next.(chunks := next.chunks[p.chunk := WriteVectors(next.schema, next.chunks[p.chunk], p.slot, vectors,
                                                                    0)]))
  }
}
