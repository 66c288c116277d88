/**
 The table as its users see it, a map from rowid to row, and the theorem that every statement,
 and so every run of statements, does to the shadow tables what it does to that map.
 */
module Refinement {
  import opened Bitmap
  import opened Wrappers
  import opened SqlValue
  import opened Metadata
  import opened Store
  import opened Statements
  import opened VectorBlob

  /** The user's view: rows by rowid, and the counter behind automatic rowids. */
  datatype Table = Table(schema: Schema, rows: map<int, Row>, sequence: int)

  function TableOf(st: State): (t: Table)
    requires Inv(st)
    ensures RowShapes(t)
  {
    RowsAreTyped(st);
    Table(st.schema, Rows(st), st.sequence)
  }

  /** Every row has one value per column, of the column's type. */
  predicate RowShapes(t: Table) {
    forall x :: x in t.rows ==> RowTyped(t.schema, t.rows[x])
  }

  // ---- the statements on the user's view ----

  /** What is stored of a row's metadata. */
  function StoredAll(schema: Schema, metadata: seq<Value>): (r: seq<Value>)
    requires |metadata| == |schema.metadata|
    ensures |r| == |metadata|
  {
    seq(|metadata|, m requires 0 <= m < |metadata| => Stored(schema.metadata[m], metadata[m]))
  }

  function InsertRow(t: Table, id: Option<int>, partition: seq<Value>, vectors: seq<Vector>,
                     metadata: seq<Value>): Result<(Table, int)>
    requires Arity(t.schema, partition, |vectors|, |metadata|)
  {
    if !PartitionTypesOk(t.schema, partition) then Err(PartitionTypeMismatch)
    else if exists i :: 0 <= i < |vectors| && !Fits(t.schema.vectors[i], vectors[i]) then Err(VectorMismatch)
    else if id.None? && t.sequence >= 9223372036854775807 then Err(RowidsExhausted)
    else
      var r := id.GetOr(t.sequence + 1);
      if r in t.rows then Err(DuplicateRowid) else InsertRowAt(t, r, partition, vectors, metadata)
  }

  function InsertRowAt(t: Table, r: int, partition: seq<Value>, vectors: seq<Vector>,
                       metadata: seq<Value>): Result<(Table, int)>
    requires Arity(t.schema, partition, |vectors|, |metadata|)
  {
    if exists m :: 0 <= m < |metadata| && !Accepts(t.schema.metadata[m], metadata[m]) then Err(MetadataTypeMismatch)
    else
      var row := Row(partition, VectorBytes(vectors), StoredAll(t.schema, metadata));
      Ok((Table(t.schema, t.rows[r := row], Max(t.sequence, r)), r))
  }

  function DeleteRow(t: Table, r: int): Result<Table> {
    if r in t.rows then Ok(t.(rows := t.rows - {r})) else Err(NotFound)
  }

  /** Columns given as Some are replaced, the others kept. */
  function UpdateRow(t: Table, r: int, partitionChanged: bool, vectors: seq<Option<Vector>>,
                     metadata: seq<Option<Value>>): Result<Table>
    requires |vectors| == |t.schema.vectors| && |metadata| == |t.schema.metadata|
    requires RowShapes(t)
  {
    if r !in t.rows then Err(NotFound)
    else if partitionChanged then Err(PartitionKeyUpdate)
    else if !AllAccepted(t.schema, metadata, 0) then Err(MetadataTypeMismatch)
    else if !VectorsFit(t.schema, vectors) then Err(VectorMismatch)
    else
      var row := t.rows[r];
      Ok(t.(rows := t.rows[r := row.(vectors := OverlayVectors(row.vectors, vectors, 0),
                                     metadata := OverlayValues(t.schema, row.metadata, metadata, 0))]))
  }

  // ---- each statement refines its counterpart ----

  /** The two levels give the same answer: the same table and rowid, or the same error. */
  ghost predicate InsertsAgree(res: Result<(State, int)>, expected: Result<(Table, int)>) {
    match res
    case Ok((st', r)) => Inv(st') && expected == Ok((TableOf(st'), r))
    case Err(e) => expected == Err(e)
  }

  /** An insert adds exactly the given row, or fails for the reason the map-level insert fails. */
  lemma InsertRefines(st: State, id: Option<int>, partition: seq<Value>, vectors: seq<Vector>, metadata: seq<Value>)
    requires Inv(st) && Arity(st.schema, partition, |vectors|, |metadata|)
    ensures InsertsAgree(Insert(st, id, partition, vectors, metadata),
                         InsertRow(TableOf(st), id, partition, vectors, metadata))
  {
    hide InsertRowid, InsertRowAt, Inv, Rows;
    var r := id.GetOr(st.sequence + 1);
    VectorChecksAgree(st.schema, vectors);
    if PartitionTypesOk(st.schema, partition) && VectorsFit(st.schema, SomeAll(vectors)) && r !in st.positions {
      InsertRowidAgrees(st, r, partition, vectors, metadata);
    }
  }

  lemma InsertRowidAgrees(st: State, r: int, partition: seq<Value>, vectors: seq<Vector>, metadata: seq<Value>)
    requires Inv(st) && Arity(st.schema, partition, |vectors|, |metadata|) && r !in st.positions
    requires PartitionTypesOk(st.schema, partition) && VectorsFit(st.schema, SomeAll(vectors))
    ensures InsertsAgree(InsertRowid(st, r, partition, vectors, metadata),
                         InsertRowAt(TableOf(st), r, partition, vectors, metadata))
  {
    InsertPlaces(st, r, partition, vectors);
    var (ready, p) := NextAvailable(st, partition);
    InsertWritesMetadata(st, Place(ready, r, p, SomeAll(vectors)), r, p, partition, vectors, metadata);
    hide Inv, NextAvailable, Place, WriteCells, Rows, RowAdded;
  }

  lemma VectorChecksAgree(schema: Schema, vectors: seq<Vector>)
    requires |vectors| == |schema.vectors|
    ensures VectorsFit(schema, SomeAll(vectors)) <==>
            !exists i :: 0 <= i < |vectors| && !Fits(schema.vectors[i], vectors[i])
  {
    assert forall i :: 0 <= i < |vectors| ==> SomeAll(vectors)[i] == Some(vectors[i]);
  }

  lemma AcceptChecksAgree(schema: Schema, metadata: seq<Value>)
    requires |metadata| == |schema.metadata|
    ensures AllAccepted(schema, SomeAll(metadata), 0) <==>
            !exists m :: 0 <= m < |metadata| && !Accepts(schema.metadata[m], metadata[m])
  {
    assert forall m :: 0 <= m < |metadata| ==> SomeAll(metadata)[m] == Some(metadata[m]);
  }

  function VectorBytes(vectors: seq<Vector>): seq<seq<Byte>> {
    seq(|vectors|, i requires 0 <= i < |vectors| => vectors[i].bytes)
  }

  /** `placed` is `st` with one more row, whose partition and vectors are as given. */
  ghost predicate RowAdded(st: State, placed: State, r: int, p: Position, partition: seq<Value>, vectors: seq<Vector>) {
    && Inv(st) && Inv(placed) && r in placed.positions && placed.positions[r] == p
    && placed.schema == st.schema && placed.sequence == Max(st.sequence, r) && NoLongText(placed, r, 0)
    && Rows(placed) == Rows(st)[r := Rows(placed)[r]]
    && Rows(placed)[r].partition == partition && Rows(placed)[r].vectors == VectorBytes(vectors)
  }

  lemma OverlayAll(was: seq<seq<Byte>>, vectors: seq<Vector>)
    requires |was| == |vectors|
    ensures OverlayVectors(was, SomeAll(vectors), 0) == VectorBytes(vectors)
  {}

  lemma PlacedIsAdded(st: State, ready: State, r: int, p: Position, partition: seq<Value>, vectors: seq<Vector>)
    requires Inv(st) && Inv(ready) && Rows(ready) == Rows(st) && FreeIn(ready, p, partition)
    requires ready.positions == st.positions && ready.sequence == st.sequence && ready.schema == st.schema
    requires |vectors| == |st.schema.vectors| && VectorsFit(st.schema, SomeAll(vectors)) && r !in st.positions
    ensures RowAdded(st, Place(ready, r, p, SomeAll(vectors)), r, p, partition, vectors)
  {
    hide Place, OverlayVectors;
    PlaceKeeps(ready, r, p, partition, SomeAll(vectors));
    OverlayAll(SlotAt(ready, p).vectors, vectors);
  }

  /** The first two steps of an insert: find a slot, place the row. */
  lemma InsertPlaces(st: State, r: int, partition: seq<Value>, vectors: seq<Vector>)
    requires Inv(st) && |vectors| == |st.schema.vectors|
    requires PartitionTypesOk(st.schema, partition) && VectorsFit(st.schema, SomeAll(vectors)) && r !in st.positions
    ensures var (ready, p) := NextAvailable(st, partition);
      && ShapeOk(ready) && InRange(ready, p) && ready.schema == st.schema
      && RowAdded(st, Place(ready, r, p, SomeAll(vectors)), r, p, partition, vectors)
  {
    hide NextAvailable, Place, RowAdded, Rows;
    NextAvailableIsFree(st, partition);
    var (ready, p) := NextAvailable(st, partition);
    PlacedIsAdded(st, ready, r, p, partition, vectors);
  }

  /** The last step: write the metadata of the row just placed. */
  lemma InsertWritesMetadata(st: State, placed: State, r: int, p: Position, partition: seq<Value>, vectors: seq<Vector>,
                             metadata: seq<Value>)
    requires RowAdded(st, placed, r, p, partition, vectors) && |metadata| == |st.schema.metadata|
    ensures var res := WriteCells(placed, p, r, 0, SomeAll(metadata), false);
      if exists m :: 0 <= m < |metadata| && !Accepts(st.schema.metadata[m], metadata[m]) then
          res == Err(MetadataTypeMismatch)
      else
        && res.Ok? && Inv(res.value)
        && TableOf(res.value) == Table(st.schema,
                                       Rows(st)[r := Row(partition, VectorBytes(vectors),
                                                         StoredAll(st.schema, metadata))],
                                       Max(st.sequence, r))
  {
    hide WriteCells, RowOf, Rows;
    WriteCellsKeeps(placed, r, 0, SomeAll(metadata), false);
    AcceptChecksAgree(st.schema, metadata);
    var row := Rows(placed)[r];
    assert OverlayValues(st.schema, row.metadata, SomeAll(metadata), 0) == StoredAll(st.schema, metadata);
    UpdateTwice(Rows(st), r, row, Row(partition, VectorBytes(vectors), StoredAll(st.schema, metadata)));
  }

  /** A delete removes exactly its row. */
  lemma DeleteRefines(st: State, r: int)
    requires Inv(st)
    ensures match Delete(st, r)
      case Ok(st') => Inv(st') && DeleteRow(TableOf(st), r) == Ok(TableOf(st'))
      case Err(e) => DeleteRow(TableOf(st), r) == Err(e)
  {
    DeleteKeeps(st, r);
  }

  /** An update replaces exactly the given columns of its row. */
  lemma UpdateRefines(st: State, r: int, partitionChanged: bool, vectors: seq<Option<Vector>>,
                      metadata: seq<Option<Value>>)
    requires Inv(st) && |vectors| == |st.schema.vectors| && |metadata| == |st.schema.metadata|
    ensures match Update(st, r, partitionChanged, vectors, metadata)
      case Ok(st') => Inv(st') && UpdateRow(TableOf(st), r, partitionChanged, vectors, metadata) == Ok(TableOf(st'))
      case Err(e) => UpdateRow(TableOf(st), r, partitionChanged, vectors, metadata) == Err(e)
  {
    if r in st.positions && !partitionChanged {
      WriteCellsKeeps(st, r, 0, metadata, true);
      if AllAccepted(st.schema, metadata, 0) && VectorsFit(st.schema, vectors) {
        var next := WriteCells(st, st.positions[r], r, 0, metadata, true).value;
        UpdateVectors(next, r, vectors);
        var row := Rows(st)[r];
        UpdateTwice(Rows(st), r, Rows(next)[r], row.(vectors := OverlayVectors(row.vectors, vectors, 0),
                                                     metadata := OverlayValues(st.schema, row.metadata, metadata, 0)));
      }
    }
  }

  lemma UpdateVectors(st: State, r: int, vectors: seq<Option<Vector>>)
    requires Inv(st) && r in st.positions && |vectors| == |st.schema.vectors| && VectorsFit(st.schema, vectors)
    ensures var p := st.positions[r];
      var st' := st.(chunks := st.chunks[p.chunk := WriteVectors(st.schema, st.chunks[p.chunk], p.slot, vectors, 0)]);
      && Inv(st')
      && var row := Rows(st)[r]; Rows(st') == Rows(st)[r := row.(vectors := OverlayVectors(row.vectors, vectors, 0))]
  {
    var p := st.positions[r];
    var ch := WriteVectors(st.schema, st.chunks[p.chunk], p.slot, vectors, 0);
    var st' := st.(chunks := st.chunks[p.chunk := ch]);
    var s := SlotAt(st, p);
    assert RowPlaced(st, r);
    ChunkChangeIsLocal(st, p, r, ch, s.(vectors := OverlayVectors(s.vectors, vectors, 0)));
    VectorsChanged(st, st', r);
    hide WriteVectors;
    InPlace(st, st', r);
    hide Inv, RowOf, SlotAt;
  }

  lemma VectorsChanged(st: State, st': State, r: int)
    requires WellPlaced(st) && r in st.positions && RowPlaced(st, r)
    requires Local(st, st', st.positions[r], r) && st'.positions == st.positions && st'.texts == st.texts
    requires var s, s' := SlotAt(st, st.positions[r]), SlotAt(st', st.positions[r]); s' == s.(vectors := s'.vectors)
    ensures WellPlaced(st') && RowPlaced(st', r)
    ensures RowOf(st', r) == RowOf(st, r).(vectors := SlotAt(st', st.positions[r]).vectors)
  {
    assert RowOf(st', r).metadata == RowOf(st, r).metadata;
  }

  // ---- whole runs ----

  datatype Statement =
    | InsertStatement(id: Option<int>, partition: seq<Value>, vectors: seq<Vector>, metadata: seq<Value>)
    | DeleteStatement(rowid: int)
    | UpdateStatement(rowid: int, partitionChanged: bool, newVectors: seq<Option<Vector>>,
                      newMetadata: seq<Option<Value>>)

  predicate Fitting(schema: Schema, s: Statement) {
    match s
    case InsertStatement(_, partition, vectors, metadata) => Arity(schema, partition, |vectors|, |metadata|)
    case DeleteStatement(_) => true
    case UpdateStatement(_, _, vectors, metadata) => |vectors| == |schema.vectors| && |metadata| == |schema.metadata|
  }

  /** A statement that fails is rolled back. */
  function Step(st: State, s: Statement): State
    requires WellPlaced(st) && Fitting(st.schema, s)
  {
    match s
    case InsertStatement(id, partition, vectors, metadata) =>
      (match Insert(st, id, partition, vectors, metadata) case Ok((st', _)) => st' case Err(_) => st)
    case DeleteStatement(r) =>
      (match Delete(st, r) case Ok(st') => st' case Err(_) => st)
    case UpdateStatement(r, changed, vectors, metadata) =>
      (match Update(st, r, changed, vectors, metadata) case Ok(st') => st' case Err(_) => st)
  }

  function TableStep(t: Table, s: Statement): (t': Table)
    requires RowShapes(t) && Fitting(t.schema, s)
    ensures RowShapes(t') && t'.schema == t.schema
  {
    match s
    case InsertStatement(id, partition, vectors, metadata) =>
      (match InsertRow(t, id, partition, vectors, metadata) case Ok((t', _)) => t' case Err(_) => t)
    case DeleteStatement(r) =>
      (match DeleteRow(t, r) case Ok(t') => t' case Err(_) => t)
    case UpdateStatement(r, changed, vectors, metadata) =>
      (match UpdateRow(t, r, changed, vectors, metadata) case Ok(t') => t' case Err(_) => t)
  }

  lemma StepRefines(st: State, s: Statement)
    requires Inv(st) && Fitting(st.schema, s)
    ensures Inv(Step(st, s)) && TableOf(Step(st, s)) == TableStep(TableOf(st), s)
    ensures Step(st, s).schema == st.schema
  {
    hide Inv, Rows, Insert, InsertRow, Update, UpdateRow, Delete, DeleteRow;
    match s {
      case InsertStatement(id, partition, vectors, metadata) =>
        InsertRefines(st, id, partition, vectors, metadata);
      case DeleteStatement(r) => DeleteRefines(st, r);
      case UpdateStatement(r, changed, vectors, metadata) => UpdateRefines(st, r, changed, vectors, metadata);
    }
  }

  /** A table just created. */
  function Empty(schema: Schema): (st: State)
    requires SchemaOk(schema)
    ensures Inv(st) && st.schema == schema && Rows(st) == map[]
  {
    State(schema, [], map[], seq(|schema.metadata|, _ => map[]), 0)
  }

  /** A run of statements from a state, last statement last. */
  function Run(st: State, run: seq<Statement>): (r: State)
    requires Inv(st) && forall i :: 0 <= i < |run| ==> Fitting(st.schema, run[i])
    ensures Inv(r) && r.schema == st.schema
    decreases |run|
  {
    if run == [] then st
    else
      var before := Run(st, run[..|run| - 1]);
      StepRefines(before, run[|run| - 1]);
      Step(before, run[|run| - 1])
  }

  function TableRun(t: Table, run: seq<Statement>): (r: Table)
    requires RowShapes(t) && forall i :: 0 <= i < |run| ==> Fitting(t.schema, run[i])
    ensures RowShapes(r) && r.schema == t.schema
    decreases |run|
  {
    if run == [] then t else TableStep(TableRun(t, run[..|run| - 1]), run[|run| - 1])
  }

  /** After any run the shadow tables satisfy the storage invariant and read back as the plain map. */
  lemma {:induction false} RunRefines(st: State, run: seq<Statement>)
    requires Inv(st) && forall i :: 0 <= i < |run| ==> Fitting(st.schema, run[i])
    ensures Inv(Run(st, run)) && TableOf(Run(st, run)) == TableRun(TableOf(st), run)
    decreases |run|
  {
    if run != [] {
      var n := |run| - 1;
      RunRefines(st, run[..n]);
      StepRefines(Run(st, run[..n]), run[n]);
    }
  }

  lemma EmptyInv(schema: Schema)
    requires SchemaOk(schema)
    ensures TableOf(Empty(schema)) == Table(schema, map[], 0)
  {}
}
