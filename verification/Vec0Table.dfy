/** The table object: its statements change the shadow tables step by step, its queries read them. */
module Vec0Table {
  import opened Bitmap
  import opened Wrappers
  import opened SqlValue
  import opened Metadata
  import opened Store
  import opened Statements
  import opened Refinement
  import opened VectorBlob
  import opened Knn
  import opened KnnRows

  class Vec0Table {
    const schema: Schema
    var chunks: seq<Chunk>
    var positions: map<int, Position>
    var texts: seq<SideTable>
    var sequence: int

    function Contents(): State
      reads this
    {
      State(schema, chunks, positions, texts, sequence)
    }

    ghost predicate Valid()
      reads this
    {
      Inv(Contents())
    }

    /** The rows as a user sees them. */
    ghost function Table(): Refinement.Table
      requires Valid()
      reads this
    {
      TableOf(Contents())
    }

    constructor (schema: Schema)
      requires SchemaOk(schema)
      ensures this.schema == schema && Contents() == Empty(schema)
      ensures Valid() && Table() == Refinement.Table(schema, map[], 0)
    {
      this.schema := schema;
      chunks, positions, sequence := [], map[], 0;
      texts := seq(|schema.metadata|, _ => map[]);
      new;
      EmptyInv(schema);
    }

    // ---- the steps of an insert ----

    /** The slot for the next row of a partition, opening a chunk when the newest one is full or absent. */
    method InsertNextAvailableStep(partition: seq<Value>) returns (p: Position)
      requires ShapeOk(Contents()) && PartitionTypesOk(schema, partition)
      modifies this
      ensures (Contents(), p) == NextAvailable(old(Contents()), partition)
    {
      var c := LatestChunk(chunks, partition);
      var offset := -1;
      if c >= 0 {
        offset := FirstClear(chunks[c].validity);
        assert offset == LeastClear(Bits(chunks[c].validity));
      }
      if offset == -1 {
        c := |chunks|;
        chunks := chunks + [BlankChunk(schema, partition)];
        offset := 0;
      }
      p := Position(c, offset);
    }

    /** Marks the validity bit, writes every vector, then the owner and the row's position. */
    method InsertWriteFinalStep(r: int, p: Position, vectors: seq<Vector>)
      requires ShapeOk(Contents()) && InRange(Contents(), p)
      requires |vectors| == |schema.vectors| && VectorsFit(schema, SomeAll(vectors))
      modifies this
      ensures Contents() == Place(old(Contents()), r, p, SomeAll(vectors))
    {
      ghost var given := SomeAll(vectors);
      var ch := SetLive(schema, chunks[p.chunk], p.slot, true);
      ghost var marked := ch;
      for i := 0 to |schema.vectors|
        invariant ChunkOk(schema, ch)
        invariant WriteVectors(schema, marked, p.slot, given, 0) == WriteVectors(schema, ch, p.slot, given, i)
      {
        ch := SetVector(schema, ch, i, p.slot, vectors[i]);
      }
      ch := SetOwner(schema, ch, p.slot, r);
      chunks := chunks[p.chunk := ch];
      positions := positions[r := p];
      sequence := Max(sequence, r);
    }

    /** Writes one metadata value, replacing, adding or removing the row of its side table. */
    method WriteMetadataValue(p: Position, r: int, m: nat, v: Value, isUpdate: bool) returns (res: Result<()>)
      requires ShapeOk(Contents()) && InRange(Contents(), p) && m < |schema.metadata|
      modifies this
      ensures match WriteCell(old(Contents()), p, r, m, v, isUpdate)
        case Ok(st) => res == Ok(()) && Contents() == st
        case Err(e) => res == Err(e)
    {
      if !Accepts(schema.metadata[m], v) {
        return Err(MetadataTypeMismatch);
      }
      var previous := PreviousLength(CellAt(schema.metadata[m], chunks[p.chunk].metadata[m], schema.chunkSize, p.slot));
      var side := WriteSide(texts[m], r, previous, v, isUpdate);
      if side.None? {
        return Err(SideTableConflict);
      }
      chunks := chunks[p.chunk := SetCell(schema, chunks[p.chunk], m, p.slot, v)];
      texts := texts[m := side.value];
      return Ok(());
    }

    method WriteMetadata(p: Position, r: int, values: seq<Option<Value>>, isUpdate: bool) returns (res: Result<()>)
      requires ShapeOk(Contents()) && InRange(Contents(), p) && |values| == |schema.metadata|
      modifies this
      ensures match WriteCells(old(Contents()), p, r, 0, values, isUpdate)
        case Ok(st) => res == Ok(()) && Contents() == st
        case Err(e) => res == Err(e)
    {
      ghost var all := WriteCells(Contents(), p, r, 0, values, isUpdate);
      for m := 0 to |values|
        invariant ShapeOk(Contents()) && InRange(Contents(), p)
        invariant WriteCells(Contents(), p, r, m, values, isUpdate) == all
      {
        if values[m].Some? {
          res := WriteMetadataValue(p, r, m, values[m].value, isUpdate);
          if res.Err? {
            return;
          }
        }
      }
      return Ok(());
    }

    /** A failed statement is rolled back by the host. */
    method Rollback(savepoint: State)
      requires savepoint.schema == schema
      modifies this
      ensures Contents() == savepoint
    {
      chunks, positions := savepoint.chunks, savepoint.positions;
      texts, sequence := savepoint.texts, savepoint.sequence;
    }

    // ---- statements ----

    /**
     The rowid of a new row names no row yet: the one supplied, or one above every row there is or ever was.
     It is refused only when the supplied one is taken, or no automatic one is left.
     */
    method InsertRowidStep(id: Option<int>) returns (res: Result<int>)
      requires Valid()
      ensures match res
        case Ok(r) =>
          && r !in Table().rows
          && (if id.Some? then r == id.value
            else r == Table().sequence + 1 && r <= 9223372036854775807 && forall x :: x in Table().rows ==> x < r)
        case Err(DuplicateRowid) => id.Some? && id.value in Table().rows
        case Err(RowidsExhausted) => id.None? && Table().sequence >= 9223372036854775807
        case Err(_) => false
    {
      if id.None? && sequence >= MAX_ROWID {
        return Err(RowidsExhausted);
      }
      var r := id.GetOr(sequence + 1);
      return if r in positions then Err(DuplicateRowid) else Ok(r);
    }

    method InsertRowidSteps(r: int, partition: seq<Value>, vectors: seq<Vector>, metadata: seq<Value>)
      returns (res: Result<()>)
      requires ShapeOk(Contents()) && Arity(schema, partition, |vectors|, |metadata|)
      requires PartitionTypesOk(schema, partition) && VectorsFit(schema, SomeAll(vectors))
      modifies this
      ensures match InsertRowid(old(Contents()), r, partition, vectors, metadata)
        case Ok((st, n)) => n == r && res == Ok(()) && Contents() == st
        case Err(e) => res == Err(e)
    {
      var p := InsertNextAvailableStep(partition);
      InsertWriteFinalStep(r, p, vectors);
      hide Place, NextAvailable;
      res := WriteMetadata(p, r, SomeAll(metadata), false);
    }

    /** The whole statement on the shadow tables, with rollback on failure. */
    method InsertSteps(id: Option<int>, partition: seq<Value>, vectors: seq<Vector>, metadata: seq<Value>)
      returns (res: Result<int>)
      requires Valid() && Arity(schema, partition, |vectors|, |metadata|)
      modifies this
      ensures match Statements.Insert(old(Contents()), id, partition, vectors, metadata)
        case Ok((st, r)) => res == Ok(r) && Contents() == st
        case Err(e) => res == Err(e) && Contents() == old(Contents())
    {
      hide ShapeOk, InsertRowid;
      var savepoint := Contents();
      if !PartitionTypesOk(schema, partition) {
        return Err(PartitionTypeMismatch);
      }
      if !VectorsFit(schema, SomeAll(vectors)) {
        return Err(VectorMismatch);
      }
      res := InsertRowidStep(id);
      if res.Ok? {
        var written := InsertRowidSteps(res.value, partition, vectors, metadata);
        if written.Err? {
          Rollback(savepoint);
          res := Err(written.error);
        }
      }
    }

    /** INSERT: adds exactly the given row to the table, or changes nothing. */
    method Insert(id: Option<int>, partition: seq<Value>, vectors: seq<Vector>, metadata: seq<Value>)
      returns (res: Result<int>)
      requires Valid() && Arity(schema, partition, |vectors|, |metadata|)
      modifies this
      ensures Valid()
      ensures match InsertRow(old(Table()), id, partition, vectors, metadata)
        case Ok((t, r)) => res == Ok(r) && Table() == t
        case Err(e) => res == Err(e) && Contents() == old(Contents())
    {
      InsertRefines(Contents(), id, partition, vectors, metadata);
      hide Statements.Insert, InsertRow, TableOf;
      res := InsertSteps(id, partition, vectors, metadata);
    }

    method ClearMetadataColumn(p: Position, r: int, m: nat)
      requires ShapeOk(Contents()) && InRange(Contents(), p) && m < |schema.metadata|
      modifies this
      ensures Contents() == ClearColumn(old(Contents()), p, r, m)
    {
      var length := PreviousLength(CellAt(schema.metadata[m], chunks[p.chunk].metadata[m], schema.chunkSize, p.slot));
      chunks := chunks[p.chunk := SetCell(schema, chunks[p.chunk], m, p.slot, ZeroValue(schema.metadata[m]))];
      if length > TEXT_VIEW_DATA {
        texts := texts[m := texts[m] - {r}];
      }
    }

    /** Blanks one slot's metadata, column by column, dropping its long text from the side tables. */
    method ClearMetadata(p: Position, r: int)
      requires ShapeOk(Contents()) && InRange(Contents(), p)
      modifies this
      ensures Contents() == ClearColumns(old(Contents()), p, r, 0)
    {
      hide ShapeOk, ClearColumn;
      for m := 0 to |schema.metadata|
        invariant ShapeOk(Contents()) && InRange(Contents(), p)
        invariant ClearColumns(Contents(), p, r, m) == ClearColumns(old(Contents()), p, r, 0)
      {
        ClearMetadataColumn(p, r, m);
      }
    }

    /** Clears the validity bit, forgets the position, and blanks the slot's metadata. */
    method DeleteRowSteps(r: int)
      requires WellPlaced(Contents()) && r in positions && Statements.Delete(Contents(), r).Ok?
      modifies this
      ensures Contents() == Statements.Delete(old(Contents()), r).value
    {
      var p := positions[r];
      chunks := chunks[p.chunk := SetLive(schema, chunks[p.chunk], p.slot, false)];
      positions := positions - {r};
      ClearMetadata(p, r);
    }

    /** DELETE: removes exactly one row; its vector and rowid bytes stay behind. */
    method Delete(r: int) returns (res: Result<()>)
      requires Valid()
      modifies this
      ensures Valid()
      ensures match DeleteRow(old(Table()), r)
        case Ok(t) => res == Ok(()) && Table() == t
        case Err(e) => res == Err(e) && Contents() == old(Contents())
    {
      DeleteRefines(Contents(), r);
      if r !in positions {
        return Err(NotFound);
      }
      var p := positions[r];
      if !BitsRemain(chunks[p.chunk].validity[p.slot / CHAR_BIT], p.slot % CHAR_BIT) {
        return Err(ValidityBitNotSet);
      }
      DeleteRowSteps(r);
      return Ok(());
    }

    method UpdateVectors(p: Position, vectors: seq<Option<Vector>>)
      requires ShapeOk(Contents()) && InRange(Contents(), p)
      requires |vectors| == |schema.vectors| && VectorsFit(schema, vectors)
      modifies this
      ensures var st := old(Contents());
        Contents() == st.(chunks := st.chunks[p.chunk := WriteVectors(schema, st.chunks[p.chunk], p.slot, vectors, 0)])
    {
      var ch := chunks[p.chunk];
      for i := 0 to |vectors|
        invariant ChunkOk(schema, ch)
        invariant WriteVectors(schema, chunks[p.chunk], p.slot, vectors, 0) ==
            WriteVectors(schema, ch, p.slot, vectors, i)
      {
        if vectors[i].Some? {
          ch := SetVector(schema, ch, i, p.slot, vectors[i].value);
        }
      }
      chunks := chunks[p.chunk := ch];
    }

    /** UPDATE: replaces exactly the given columns of one row, or changes nothing. */
    method Update(r: int, partitionChanged: bool, vectors: seq<Option<Vector>>, metadata: seq<Option<Value>>)
      returns (res: Result<()>)
      requires Valid() && |vectors| == |schema.vectors| && |metadata| == |schema.metadata|
      modifies this
      ensures Valid()
      ensures match UpdateRow(old(Table()), r, partitionChanged, vectors, metadata)
        case Ok(t) => res == Ok(()) && Table() == t
        case Err(e) => res == Err(e) && Contents() == old(Contents())
    {
      UpdateRefines(Contents(), r, partitionChanged, vectors, metadata);
      var savepoint := Contents();
      if r !in positions {
        return Err(NotFound);
      }
      if partitionChanged {
        return Err(PartitionKeyUpdate);
      }
      var p := positions[r];
      var written := WriteMetadata(p, r, metadata, true);
      if written.Err? {
        Rollback(savepoint);
        return Err(written.error);
      }
      if !VectorsFit(schema, vectors) {
        Rollback(savepoint);
        return Err(VectorMismatch);
      }
      UpdateVectors(p, vectors);
      return Ok(());
    }

    // ---- reads ----

    /** Point read of a vector: the bytes last written for the row, None when there is no such row. */
    method GetVectorData(r: int, i: nat) returns (bytes: Option<seq<Byte>>)
      requires Valid() && i < |schema.vectors|
      ensures bytes == if r in Table().rows then Some(Table().rows[r].vectors[i]) else None
    {
      if r !in positions {
        return None;
      }
      var p := positions[r];
      return Some(Read(schema.vectors[i], chunks[p.chunk].vectors[i], schema.chunkSize, p.slot));
    }

    /** Point read of a metadata value: the value last written for the row; the read never fails on a live row. */
    method GetMetadataValue(r: int, m: nat) returns (v: Option<Value>)
      requires Valid() && m < |schema.metadata|
      ensures v == if r in Table().rows then Some(Table().rows[r].metadata[m]) else None
    {
      if r !in positions {
        return None;
      }
      var p := positions[r];
      ReadsSucceed(Contents(), r, m);
      v := ReadCell(CellAt(schema.metadata[m], chunks[p.chunk].metadata[m], schema.chunkSize, p.slot), texts[m], r);
    }

    /**
     The k-nearest-neighbour query: the first k matching rows of the whole table, or the reason there is no answer.
     */
    method QueryKnn(q: Query) returns (answer: Answer)
      requires Valid() && QueryOk(schema, q)
      ensures Answers(Contents(), q, answer)
    {
      RowsAreTyped(Contents());
      if !Fits(schema.vectors[q.column], q.vector) {
        return Knn.Failed(WrongVector);
      }
      if q.k < 0 {
        return Knn.Failed(NegativeK);
      }
      if q.k > K_MAX {
        return Knn.Failed(KTooLarge);
      }
      if q.k == 0 {
        return Rowids([], []);
      }
      var ok, rowids, distances, top := KnnChunks(Contents(), q, q.k);
      ScanFailsIff(Contents(), q);
      ScanFindsMatches(Contents(), q);
      if !ok {
        return Knn.Failed(FilterFailed);
      }
      return Rowids(rowids, distances);
    }
  }
}
