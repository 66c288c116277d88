/**
 The shadow tables of a vec0 table as one value: the fixed-size chunks, the map from rowid to
 (chunk, slot) and the long-text side tables, with the storage invariant over them and the plain
 map from rowid to row contents that they stand for.
 */
module Store {
  import opened Bitmap
  import opened SqlValue
  import opened Metadata
  import VectorBlob

  datatype PartitionType = IntegerKey | TextKey

  datatype Schema = Schema(
    chunkSize: nat,
    partitions: seq<PartitionType>,
    vectors: seq<VectorBlob.VectorColumn>,
    metadata: seq<Kind>)

  /** What table creation enforces on the chunk size. */
  predicate SchemaOk(schema: Schema) {
    0 < schema.chunkSize <= VectorBlob.CHUNK_SIZE_MAX && schema.chunkSize % CHAR_BIT == 0
  }

  /** One row of the chunks table with the vector and metadata blobs stored under its id. */
  datatype Chunk = Chunk(
    partition: seq<Value>,
    validity: seq<Byte>,
    rowids: seq<int>,
    vectors: seq<seq<Byte>>,
    metadata: seq<Blob>)

  datatype Position = Position(chunk: nat, slot: nat)

  /** Chunk ids are handed out in order and chunks are never removed, so a chunk's id is its index. */
  datatype State = State(
    schema: Schema,
    chunks: seq<Chunk>,
    positions: map<int, Position>,
    texts: seq<SideTable>,
    sequence: int)

  // ---- one slot ----

  /** The insert-time check of partition key values: NULL or a value of the declared type. */
  predicate PartitionTypesOk(schema: Schema, partition: seq<Value>) {
    && |partition| == |schema.partitions|
    && forall i :: 0 <= i < |partition| ==>
         match partition[i]
         case Null => true
         case IntValue(_) => schema.partitions[i].IntegerKey?
         case TextValue(_) => schema.partitions[i].TextKey?
         case RealValue(_) => false
  }

  predicate ChunkOk(schema: Schema, ch: Chunk) {
    && SchemaOk(schema)
    && PartitionTypesOk(schema, ch.partition)
    && CHAR_BIT * |ch.validity| == schema.chunkSize == |ch.rowids|
    && |ch.vectors| == |schema.vectors|
    && (forall i :: 0 <= i < |ch.vectors| ==>
          |ch.vectors[i]| == VectorBlob.BlobSize(schema.vectors[i], schema.chunkSize))
    && |ch.metadata| == |schema.metadata|
    && (forall m :: 0 <= m < |ch.metadata| ==> BlobOk(schema.metadata[m], ch.metadata[m], schema.chunkSize))
  }

  /** Everything the blobs of a chunk hold for one slot, live or stale. */
  datatype Slot = Slot(live: bool, owner: int, vectors: seq<seq<Byte>>, cells: seq<Cell>)

  function SlotOf(schema: Schema, ch: Chunk, slot: nat): (s: Slot)
    requires ChunkOk(schema, ch) && slot < schema.chunkSize
    ensures |s.vectors| == |schema.vectors| && |s.cells| == |schema.metadata|
    ensures forall m :: 0 <= m < |s.cells| ==> CellKind(schema.metadata[m], s.cells[m])
  {
    Slot(
      Bits(ch.validity)[slot],
      ch.rowids[slot],
      seq(|ch.vectors|, i requires 0 <= i < |ch.vectors| =>
        VectorBlob.Read(schema.vectors[i], ch.vectors[i], schema.chunkSize, slot)),
      seq(|ch.metadata|, m requires 0 <= m < |ch.metadata| =>
        CellAt(schema.metadata[m], ch.metadata[m], schema.chunkSize, slot)))
  }

  /** `to` is `from` with one slot replaced. */
  ghost predicate OneSlot(schema: Schema, from: Chunk, to: Chunk, slot: nat, s: Slot)
    requires ChunkOk(schema, from) && slot < schema.chunkSize
  {
    && ChunkOk(schema, to) && to.partition == from.partition
    && forall other: nat :: other < schema.chunkSize ==>
         SlotOf(schema, to, other) == if other == slot then s else SlotOf(schema, from, other)
  }

  function SetLive(schema: Schema, ch: Chunk, slot: nat, live: bool): (r: Chunk)
    requires ChunkOk(schema, ch) && slot < schema.chunkSize
    ensures OneSlot(schema, ch, r, slot, SlotOf(schema, ch, slot).(live := live))
  {
    ch.(validity := Put(ch.validity, slot, live))
  }

  function SetOwner(schema: Schema, ch: Chunk, slot: nat, rowid: int): (r: Chunk)
    requires ChunkOk(schema, ch) && slot < schema.chunkSize
    ensures OneSlot(schema, ch, r, slot, SlotOf(schema, ch, slot).(owner := rowid))
  {
    ch.(rowids := ch.rowids[slot := rowid])
  }

  function SetVector(schema: Schema, ch: Chunk, i: nat, slot: nat, v: VectorBlob.Vector): (r: Chunk)
    requires ChunkOk(schema, ch) && slot < schema.chunkSize && i < |schema.vectors|
    requires VectorBlob.Fits(schema.vectors[i], v)
    ensures var was := SlotOf(schema, ch, slot);
      OneSlot(schema, ch, r, slot, was.(vectors := was.vectors[i := v.bytes]))
  {
    var r := ch.(vectors := ch.vectors[i := VectorBlob.Write(schema.vectors[i], ch.vectors[i], schema.chunkSize, slot,
                                                             v)]);
    assert forall other: nat :: other < schema.chunkSize ==>
      SlotOf(schema, r, other).vectors ==
      if other == slot then SlotOf(schema, ch, other).vectors[i := v.bytes] else SlotOf(schema, ch, other).vectors by {
      forall other: nat | other < schema.chunkSize
        ensures SlotOf(schema, r, other).vectors ==
                if other == slot then SlotOf(schema, ch, other).vectors[i := v.bytes]
                  else SlotOf(schema, ch, other).vectors
      {
        VectorBlob.WriteThenRead(schema.vectors[i], ch.vectors[i], schema.chunkSize, slot, v, other);
      }
    }
    r
  }

  function SetCell(schema: Schema, ch: Chunk, m: nat, slot: nat, v: Value): (r: Chunk)
    requires ChunkOk(schema, ch) && slot < schema.chunkSize && m < |schema.metadata| && Accepts(schema.metadata[m], v)
    ensures var was := SlotOf(schema, ch, slot);
      OneSlot(schema, ch, r, slot, was.(cells := was.cells[m := CellOf(schema.metadata[m], v)]))
  {
    var r := ch.(metadata := ch.metadata[m := WriteSlot(schema.metadata[m], ch.metadata[m], schema.chunkSize, slot,
                                                        v)]);
    assert forall other: nat :: other < schema.chunkSize ==>
      SlotOf(schema, r, other).cells ==
      if other == slot then SlotOf(schema, ch, other).cells[m := CellOf(schema.metadata[m], v)]
        else SlotOf(schema, ch, other).cells;
    r
  }

  // ---- the whole table ----

  predicate ShapeOk(st: State) {
    && SchemaOk(st.schema)
    && |st.texts| == |st.schema.metadata|
    && forall c :: 0 <= c < |st.chunks| ==> ChunkOk(st.schema, st.chunks[c])
  }

  predicate InRange(st: State, p: Position) {
    p.chunk < |st.chunks| && p.slot < st.schema.chunkSize
  }

  function SlotAt(st: State, p: Position): (s: Slot)
    requires ShapeOk(st) && InRange(st, p)
    ensures |s.vectors| == |st.schema.vectors| && |s.cells| == |st.schema.metadata|
    ensures forall m :: 0 <= m < |s.cells| ==> CellKind(st.schema.metadata[m], s.cells[m])
  {
    SlotOf(st.schema, st.chunks[p.chunk], p.slot)
  }

  predicate WellPlaced(st: State) {
    ShapeOk(st) && forall r :: r in st.positions ==> InRange(st, st.positions[r])
  }

  ghost predicate CellsOk(st: State, s: Slot, r: int)
    requires |s.cells| == |st.texts| == |st.schema.metadata|
    requires forall m :: 0 <= m < |s.cells| ==> CellKind(st.schema.metadata[m], s.cells[m])
  {
    forall m :: 0 <= m < |s.cells| ==>
      assert CellKind(st.schema.metadata[m], s.cells[m]);
      CellOk(s.cells[m], st.texts[m], r)
  }

  /** A freed or never used slot shows no text. */
  predicate Blank(s: Slot) {
    forall m :: 0 <= m < |s.cells| && s.cells[m].TextCell? ==> s.cells[m].view == ViewOf([])
  }

  /** The row has a live slot that names it and holds its metadata in order. */
  ghost predicate RowPlaced(st: State, r: int)
    requires WellPlaced(st) && r in st.positions
  {
    var s := SlotAt(st, st.positions[r]);
    s.live && s.owner == r && CellsOk(st, s, r)
  }

  ghost predicate RowsPlaced(st: State)
    requires WellPlaced(st)
  {
    forall r :: r in st.positions ==> RowPlaced(st, r)
  }

  /** Every live slot belongs to exactly the row it names; every other slot is blank. */
  ghost predicate SlotsOwned(st: State)
    requires WellPlaced(st)
  {
    forall p: Position :: InRange(st, p) ==>
      var s := SlotAt(st, p);
      if s.live then s.owner in st.positions && st.positions[s.owner] == p else Blank(s)
  }

  /** Long text is kept for live rows only. */
  ghost predicate SidesOwned(st: State) {
    forall m, r :: 0 <= m < |st.texts| && r in st.texts[m] ==> r in st.positions
  }

  /** The storage invariant. */
  ghost predicate Inv(st: State) {
    && WellPlaced(st)
    && RowsPlaced(st)
    && SlotsOwned(st)
    && SidesOwned(st)
    && 0 <= st.sequence && forall r :: r in st.positions ==> r <= st.sequence
  }

  // ---- abstraction ----

  /** What a user stored under one rowid. */
  datatype Row = Row(partition: seq<Value>, vectors: seq<seq<Byte>>, metadata: seq<Value>)

  /** The value a metadata column shows for a row; Null stands for the read error of a broken store. */
  function ReadMetadata(st: State, r: int, m: nat): Value
    requires WellPlaced(st) && r in st.positions && m < |st.schema.metadata|
  {
    ReadCell(SlotAt(st, st.positions[r]).cells[m], st.texts[m], r).GetOr(Null)
  }

  function RowOf(st: State, r: int): (row: Row)
    requires WellPlaced(st) && r in st.positions
    ensures |row.metadata| == |st.schema.metadata| && |row.vectors| == |st.schema.vectors|
  {
    var p := st.positions[r];
    Row(st.chunks[p.chunk].partition, SlotAt(st, p).vectors,
        seq(|st.schema.metadata|, m requires 0 <= m < |st.schema.metadata| => ReadMetadata(st, r, m)))
  }

  function Rows(st: State): (rows: map<int, Row>)
    requires WellPlaced(st)
    ensures rows.Keys == st.positions.Keys
    ensures forall r :: r in rows ==> rows[r] == RowOf(st, r)
  {
    map r | r in st.positions :: RowOf(st, r)
  }

  /**
   The split storage of text: a live slot's view is longer than 12 exactly when the side table has the row's
   text, of which it then holds the length and the first 12 bytes; a free slot's view is empty.
   */
  lemma SplitText(st: State, p: Position, m: nat)
    requires Inv(st) && InRange(st, p) && m < |st.schema.metadata| && SlotAt(st, p).cells[m].TextCell?
    ensures var s := SlotAt(st, p);
      var view, side := s.cells[m].view, st.texts[m];
      if s.live then
        && (s.owner in side <==> view.n > 12)
        && (s.owner in side ==> |side[s.owner]| == view.n && side[s.owner][..12] == view.prefix)
      else view.n == 0
    ensures forall r :: r in st.texts[m] ==> r in st.positions && SlotAt(st, st.positions[r]).live
  {
    assert forall r :: r in st.positions ==> RowPlaced(st, r);
    var s := SlotAt(st, p);
    if s.live {
      assert RowPlaced(st, s.owner);
      assert CellOk(s.cells[m], st.texts[m], s.owner);
    }
  }

  /** No read of a live row ever fails, and what it returns has the column's type. */
  lemma ReadsSucceed(st: State, r: int, m: nat)
    requires Inv(st) && r in st.positions && m < |st.schema.metadata|
    ensures ReadCell(SlotAt(st, st.positions[r]).cells[m], st.texts[m], r).Some?
    ensures TypeOk(st.schema.metadata[m], RowOf(st, r).metadata[m])
  {
    var s := SlotAt(st, st.positions[r]);
    assert RowPlaced(st, r);
    CellReads(st.schema.metadata[m], s.cells[m], st.texts[m], r);
  }

  // ---- changes confined to one slot and one row ----

  /** A row with one value per column, each metadata value of its column's type. */
  predicate RowTyped(schema: Schema, row: Row) {
    && |row.partition| == |schema.partitions| && |row.vectors| == |schema.vectors|
    && |row.metadata| == |schema.metadata|
    && forall m :: 0 <= m < |row.metadata| ==> TypeOk(schema.metadata[m], row.metadata[m])
  }

  predicate RowsTyped(st: State)
    requires WellPlaced(st)
  {
    forall r :: r in st.positions ==> RowTyped(st.schema, RowOf(st, r))
  }

  lemma RowsAreTyped(st: State)
    requires Inv(st)
    ensures RowsTyped(st)
  {
    forall r | r in st.positions
      ensures RowTyped(st.schema, RowOf(st, r))
    {
      forall m | 0 <= m < |st.schema.metadata|
        ensures TypeOk(st.schema.metadata[m], RowOf(st, r).metadata[m])
      {
        ReadsSucceed(st, r, m);
      }
    }
  }

  /** From `st` to `st'` only the slot `p` and the side-table rows of `r` may differ. */
  ghost predicate Local(st: State, st': State, p: Position, r: int)
    requires ShapeOk(st) && InRange(st, p)
  {
    && ShapeOk(st') && st'.schema == st.schema && |st'.chunks| == |st.chunks|
    && (forall c :: 0 <= c < |st.chunks| ==> st'.chunks[c].partition == st.chunks[c].partition)
    && (forall q: Position :: InRange(st, q) && q != p ==> SlotAt(st', q) == SlotAt(st, q))
    && (forall m :: 0 <= m < |st.texts| ==> st'.texts[m] - {r} == st.texts[m] - {r})
  }

  lemma LocalTrans(a: State, b: State, c: State, p: Position, r: int)
    requires ShapeOk(a) && InRange(a, p) && Local(a, b, p, r) && Local(b, c, p, r)
    ensures Local(a, c, p, r)
  {
    forall q: Position | InRange(a, q) && q != p
      ensures SlotAt(c, q) == SlotAt(a, q)
    {
      assert InRange(b, q);
    }
  }

  /** Replacing one chunk by one that differs in one slot is a local change. */
  lemma ChunkChangeIsLocal(st: State, p: Position, r: int, ch: Chunk, s: Slot)
    requires ShapeOk(st) && InRange(st, p) && OneSlot(st.schema, st.chunks[p.chunk], ch, p.slot, s)
    ensures var st' := st.(chunks := st.chunks[p.chunk := ch]);
      Local(st, st', p, r) && SlotAt(st', p) == s
  {}

  lemma SideEntry(side: SideTable, side': SideTable, r: int, x: int)
    requires side' - {r} == side - {r} && x != r
    ensures x in side' <==> x in side
    ensures x in side ==> side'[x] == side[x]
  {
    assert x in side <==> x in side - {r};
    assert x in side' <==> x in side' - {r};
    if x in side {
      assert (side - {r})[x] == side[x] && (side' - {r})[x] == side'[x];
    }
  }

  /** Any other row reads back unchanged. */
  lemma OtherRow(st: State, st': State, p: Position, r: int, x: int)
    requires WellPlaced(st) && InRange(st, p) && Local(st, st', p, r) && WellPlaced(st')
    requires x != r && x in st.positions && x in st'.positions && st'.positions[x] == st.positions[x] != p
    ensures RowOf(st', x) == RowOf(st, x)
    ensures RowPlaced(st, x) ==> RowPlaced(st', x)
  {
    forall m | 0 <= m < |st.texts|
      ensures x in st'.texts[m] <==> x in st.texts[m]
      ensures x in st.texts[m] ==> st'.texts[m][x] == st.texts[m][x]
    {
      SideEntry(st.texts[m], st'.texts[m], r, x);
    }
  }

  /** Rows other than `r` keep their positions, and the slot `p` is the only one `r` ever uses. */
  ghost predicate SamePositionsBut(st: State, st': State, p: Position, r: int) {
    && (forall x :: x != r ==> (x in st'.positions <==> x in st.positions))
    && (forall x :: x != r && x in st.positions ==> st'.positions[x] == st.positions[x] != p)
    && (r in st.positions ==> st.positions[r] == p)
    && (r in st'.positions ==> st'.positions[r] == p)
  }

  lemma StaysWellPlaced(st: State, st': State, p: Position, r: int)
    requires WellPlaced(st) && InRange(st, p) && Local(st, st', p, r) && SamePositionsBut(st, st', p, r)
    ensures WellPlaced(st')
  {}

  lemma OtherRowsStay(st: State, st': State, p: Position, r: int)
    requires Inv(st) && InRange(st, p) && Local(st, st', p, r) && SamePositionsBut(st, st', p, r)
    requires WellPlaced(st')
    ensures forall x :: x in Rows(st') && x != r ==> Rows(st')[x] == Rows(st)[x]
    ensures forall x :: x in st'.positions && x != r ==> RowPlaced(st', x)
  {
    forall x | x in st'.positions && x != r
      ensures Rows(st')[x] == Rows(st)[x] && RowPlaced(st', x)
    {
      assert RowPlaced(st, x);
      OtherRow(st, st', p, r, x);
    }
  }

  lemma SlotsStayOwned(st: State, st': State, p: Position, r: int)
    requires Inv(st) && InRange(st, p) && Local(st, st', p, r) && SamePositionsBut(st, st', p, r)
    requires WellPlaced(st')
    requires var s' := SlotAt(st', p); if s'.live then s'.owner == r && r in st'.positions else Blank(s')
    ensures SlotsOwned(st')
  {
    forall q: Position | InRange(st', q)
      ensures var s := SlotAt(st', q);
        if s.live then s.owner in st'.positions && st'.positions[s.owner] == q else Blank(s)
    {
      assert InRange(st, q);
    }
  }

  lemma SidesStayOwned(st: State, st': State, p: Position, r: int)
    requires ShapeOk(st) && InRange(st, p) && Local(st, st', p, r) && SidesOwned(st)
    requires SamePositionsBut(st, st', p, r)
    requires r in st'.positions || forall m :: 0 <= m < |st'.texts| ==> r !in st'.texts[m]
    ensures SidesOwned(st')
  {
    forall m, x | 0 <= m < |st'.texts| && x in st'.texts[m] && x != r
      ensures x in st'.positions
    {
      SideEntry(st.texts[m], st'.texts[m], r, x);
    }
  }

  /** Two rows never share a slot. */
  lemma PositionsDistinct(st: State, r: int)
    requires Inv(st) && r in st.positions
    ensures forall x :: x in st.positions && x != r ==> st.positions[x] != st.positions[r]
  {
    assert RowPlaced(st, r);
    assert forall x :: x in st.positions ==> RowPlaced(st, x);
  }

  /** No row sits in a slot whose bit is clear. */
  lemma FreeSlotUnused(st: State, p: Position)
    requires Inv(st) && InRange(st, p) && !SlotAt(st, p).live
    ensures forall x :: x in st.positions ==> st.positions[x] != p
  {
    assert forall x :: x in st.positions ==> RowPlaced(st, x);
  }

  lemma SameMap<K, V>(a: map<K, V>, b: map<K, V>)
    requires a.Keys == b.Keys
    requires forall k :: k in a ==> a[k] == b[k]
    ensures a == b
  {}

  lemma MapWith<K, V>(a: map<K, V>, b: map<K, V>, k: K)
    requires k in b && b.Keys == a.Keys + {k}
    requires forall x :: x in b && x != k ==> b[x] == a[x]
    ensures b == a[k := b[k]]
  {}

  lemma MapWithout<K, V>(a: map<K, V>, b: map<K, V>, k: K)
    requires b.Keys == a.Keys - {k}
    requires forall x :: x in b && x != k ==> b[x] == a[x]
    ensures b == a - {k}
  {}

  lemma RowsWith(st: State, st': State, r: int)
    requires WellPlaced(st) && WellPlaced(st') && r in st'.positions
    requires st'.positions.Keys == st.positions.Keys + {r}
    requires forall x :: x in Rows(st') && x != r ==> Rows(st')[x] == Rows(st)[x]
    ensures Rows(st') == Rows(st)[r := RowOf(st', r)]
  {
    MapWith(Rows(st), Rows(st'), r);
  }

  lemma RowsWithout(st: State, st': State, r: int)
    requires WellPlaced(st) && WellPlaced(st')
    requires st'.positions.Keys == st.positions.Keys - {r}
    requires forall x :: x in Rows(st') && x != r ==> Rows(st')[x] == Rows(st)[x]
    ensures Rows(st') == Rows(st) - {r}
  {
    MapWithout(Rows(st), Rows(st'), r);
  }

  /** Rewriting the contents of a live row's slot keeps the invariant and every other row. */
  lemma InPlace(st: State, st': State, r: int)
    requires Inv(st) && r in st.positions
    requires Local(st, st', st.positions[r], r)
    requires st'.positions == st.positions && st'.sequence == st.sequence
    requires WellPlaced(st') && RowPlaced(st', r)
    ensures Inv(st') && Rows(st') == Rows(st)[r := RowOf(st', r)]
  {
    var p := st.positions[r];
    PositionsDistinct(st, r);
    StaysWellPlaced(st, st', p, r);
    OtherRowsStay(st, st', p, r);
    SlotsStayOwned(st, st', p, r);
    SidesStayOwned(st, st', p, r);
    RowsWith(st, st', r);
  }

  /** A blank slot is in order for any rowid that has no long text. */
  lemma BlankIsOk(st: State, s: Slot, r: int)
    requires |s.cells| == |st.texts| == |st.schema.metadata| && Blank(s)
    requires forall m :: 0 <= m < |s.cells| ==> CellKind(st.schema.metadata[m], s.cells[m])
    requires forall m :: 0 <= m < |st.texts| ==> r !in st.texts[m]
    ensures CellsOk(st, s, r)
  {
    assert ViewOf([]).prefix[..0] == [];
  }

  /** Giving a free slot to a new rowid adds exactly one row. */
  lemma AddRow(st: State, st': State, r: int, p: Position)
    requires Inv(st) && r !in st.positions && InRange(st, p) && !SlotAt(st, p).live
    requires Local(st, st', p, r) && st'.texts == st.texts
    requires st'.positions == st.positions[r := p]
    requires st'.sequence >= st.sequence && st'.sequence >= r
    requires var s' := SlotAt(st', p); s'.live && s'.owner == r && s'.cells == SlotAt(st, p).cells
    ensures Inv(st') && Rows(st') == Rows(st)[r := RowOf(st', r)]
  {
    hide Rows, RowOf, CellKind;
    FreeSlotUnused(st, p);
    StaysWellPlaced(st, st', p, r);
    OtherRowsStay(st, st', p, r);
    SlotsStayOwned(st, st', p, r);
    SidesStayOwned(st, st', p, r);
    RowsWith(st, st', r);
    BlankIsOk(st', SlotAt(st', p), r);
  }

  /** Freeing a row's slot removes exactly that row. */
  lemma RemoveRow(st: State, st': State, r: int)
    requires Inv(st) && r in st.positions
    requires Local(st, st', st.positions[r], r)
    requires st'.positions == st.positions - {r} && st'.sequence == st.sequence
    requires var s' := SlotAt(st', st.positions[r]); !s'.live && Blank(s')
    requires forall m :: 0 <= m < |st'.texts| ==> r !in st'.texts[m]
    ensures Inv(st') && Rows(st') == Rows(st) - {r}
  {
    var p := st.positions[r];
    PositionsDistinct(st, r);
    StaysWellPlaced(st, st', p, r);
    OtherRowsStay(st, st', p, r);
    SlotsStayOwned(st, st', p, r);
    SidesStayOwned(st, st', p, r);
    RowsWithout(st, st', r);
  }
}
