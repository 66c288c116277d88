/**
 What INSERT and UPDATE accept and store, in the terms of the statement's arguments: which argument lists succeed,
 which error the others meet, and what the row then reads as.
 */
module Admission {
  import opened Wrappers
  import opened SqlValue
  import opened Metadata
  import opened Store
  import opened Statements
  import opened Refinement
  import opened VectorBlob

  /** A partition key may be NULL, or an integer or text as declared. */
  predicate KeysAdmitted(schema: Schema, partition: seq<Value>)
    requires |partition| == |schema.partitions|
  {
    forall i :: 0 <= i < |partition| ==>
      || partition[i] == Null
      || (schema.partitions[i] == IntegerKey && partition[i].IntValue?)
      || (schema.partitions[i] == TextKey && partition[i].TextValue?)
  }

  /** Four bytes a dimension, one, or one for eight; of the declared element type; and not empty. */
  predicate VectorAdmitted(column: VectorColumn, v: Vector) {
    && v.elementType == column.elementType && |v.bytes| > 0
    && match column.elementType
       case Float32 => |v.bytes| == 4 * column.dimensions
       case Int8 => |v.bytes| == column.dimensions
       case Bit => 8 * |v.bytes| == column.dimensions
  }

  /** A boolean column admits the integers that are 0 or 1 in their low 32 bits. */
  predicate ValueAdmitted(kind: Kind, v: Value) {
    match kind
    case Boolean => v.IntValue? && (v.i % 4294967296 == 0 || v.i % 4294967296 == 1)
    case Integer => v.IntValue?
    case Float => v.RealValue?
    case TextColumn => v.TextValue?
  }

  /** A boolean column keeps the low 32 bits, any other the value itself. */
  function Kept(kind: Kind, v: Value): Value {
    if kind == Boolean && v.IntValue? then IntValue(v.i % 4294967296) else v
  }

  lemma KeysChecked(schema: Schema, partition: seq<Value>)
    requires |partition| == |schema.partitions|
    ensures PartitionTypesOk(schema, partition) <==> KeysAdmitted(schema, partition)
  {
    if KeysAdmitted(schema, partition) {
      forall i | 0 <= i < |partition|
        ensures match partition[i]
          case Null => true
          case IntValue(_) => schema.partitions[i].IntegerKey?
          case TextValue(_) => schema.partitions[i].TextKey?
          case RealValue(_) => false
      {}
    }
  }

  /** The parser's dimension count agrees with the column's just when the bytes are as many as declared. */
  lemma VectorChecked(column: VectorColumn, v: Vector)
    ensures Fits(column, v) <==> VectorAdmitted(column, v)
  {}

  lemma ValueChecked(kind: Kind, v: Value)
    ensures Accepts(kind, v) <==> ValueAdmitted(kind, v)
    ensures Accepts(kind, v) ==> Stored(kind, v) == Kept(kind, v)
  {}

  /** Every value of a column's type is accepted, and kept as it is. */
  lemma TypedIsKept(kind: Kind, v: Value)
    requires TypeOk(kind, v)
    ensures ValueAdmitted(kind, v) && Kept(kind, v) == v
  {}

  /** What an insert of these arguments is to answer: an error, checked for in this order, or the row and its rowid. */
  function InsertAnswer(t: Table, id: Option<int>, partition: seq<Value>, vectors: seq<Vector>, metadata: seq<Value>):
    Result<(int, Row)>
    requires Arity(t.schema, partition, |vectors|, |metadata|)
  {
    var r := if id.Some? then id.value else t.sequence + 1;
    if !KeysAdmitted(t.schema, partition) then Err(PartitionTypeMismatch)
    else if exists i :: 0 <= i < |vectors| && !VectorAdmitted(t.schema.vectors[i], vectors[i]) then Err(VectorMismatch)
    else if id.None? && t.sequence >= 9223372036854775807 then Err(RowidsExhausted)
    else if r in t.rows then Err(DuplicateRowid)
    else if exists m :: 0 <= m < |metadata| && !ValueAdmitted(t.schema.metadata[m], metadata[m]) then
      Err(MetadataTypeMismatch)
    else Ok((r, Row(partition, seq(|vectors|, i requires 0 <= i < |vectors| => vectors[i].bytes),
                    seq(|metadata|, m requires 0 <= m < |metadata| => Kept(t.schema.metadata[m], metadata[m])))))
  }

  lemma AdmissionAgrees(schema: Schema, partition: seq<Value>, vectors: seq<Vector>, metadata: seq<Value>)
    requires Arity(schema, partition, |vectors|, |metadata|)
    ensures PartitionTypesOk(schema, partition) <==> KeysAdmitted(schema, partition)
    ensures forall i :: 0 <= i < |vectors| ==>
              (Fits(schema.vectors[i], vectors[i]) <==> VectorAdmitted(schema.vectors[i], vectors[i]))
    ensures forall m :: 0 <= m < |metadata| ==>
              (Accepts(schema.metadata[m], metadata[m]) <==> ValueAdmitted(schema.metadata[m], metadata[m]))
    ensures (forall m :: 0 <= m < |metadata| ==> Accepts(schema.metadata[m], metadata[m])) ==>
              StoredAll(schema, metadata) ==
              seq(|metadata|, m requires 0 <= m < |metadata| => Kept(schema.metadata[m], metadata[m]))
  {
    KeysChecked(schema, partition);
    forall m | 0 <= m < |metadata|
      ensures Accepts(schema.metadata[m], metadata[m]) <==> ValueAdmitted(schema.metadata[m], metadata[m])
      ensures Accepts(schema.metadata[m], metadata[m]) ==>
                Stored(schema.metadata[m], metadata[m]) == Kept(schema.metadata[m], metadata[m])
    {
      ValueChecked(schema.metadata[m], metadata[m]);
    }
    hide Accepts, ValueAdmitted, Stored, Kept, PartitionTypesOk, KeysAdmitted;
  }

  lemma TableInsertMeans(t: Table, id: Option<int>, partition: seq<Value>, vectors: seq<Vector>, metadata: seq<Value>)
    requires Arity(t.schema, partition, |vectors|, |metadata|)
    ensures match InsertAnswer(t, id, partition, vectors, metadata)
      case Err(e) => InsertRow(t, id, partition, vectors, metadata) == Err(e)
      case Ok((r, row)) =>
        var res := InsertRow(t, id, partition, vectors, metadata);
        res.Ok? && res.value.1 == r && res.value.0.rows == t.rows[r := row]
  {
    AdmissionAgrees(t.schema, partition, vectors, metadata);
    hide PartitionTypesOk, KeysAdmitted, Fits, VectorAdmitted, Accepts, ValueAdmitted, Stored, Kept, StoredAll, Max;
    assert VectorBytes(vectors) == seq(|vectors|, i requires 0 <= i < |vectors| => vectors[i].bytes);
  }

  /**
   An insert answers what its arguments call for: it fails with the first error among them, or returns its rowid and
   adds that row, leaving every other.
   */
  lemma InsertMeans(st: State, id: Option<int>, partition: seq<Value>, vectors: seq<Vector>, metadata: seq<Value>)
    requires Inv(st) && Arity(st.schema, partition, |vectors|, |metadata|)
    ensures match InsertAnswer(TableOf(st), id, partition, vectors, metadata)
      case Err(e) => Insert(st, id, partition, vectors, metadata) == Err(e)
      case Ok((r, row)) =>
        var res := Insert(st, id, partition, vectors, metadata);
        res.Ok? && res.value.1 == r && Inv(res.value.0) && Rows(res.value.0) == Rows(st)[r := row]
  {
    assert ShapeOk(st);
    InsertRefines(st, id, partition, vectors, metadata);
    TableInsertMeans(TableOf(st), id, partition, vectors, metadata);
    hide Inv, Rows, Insert, InsertRow, InsertAnswer, ShapeOk, RowShapes;
  }

  /** The row an update is to leave: given columns replaced, the others as they were. */
  function Updated(schema: Schema, row: Row, vectors: seq<Option<Vector>>, metadata: seq<Option<Value>>): Row
    requires |row.vectors| == |vectors| && |row.metadata| == |metadata| == |schema.metadata|
  {
    Row(row.partition,
        seq(|vectors|, i requires 0 <= i < |vectors| =>
          if vectors[i].Some? then vectors[i].value.bytes else row.vectors[i]),
        seq(|metadata|, m requires 0 <= m < |metadata| =>
          if metadata[m].Some? then Kept(schema.metadata[m], metadata[m].value) else row.metadata[m]))
  }

  lemma UpdateAdmissionAgrees(schema: Schema, vectors: seq<Option<Vector>>, metadata: seq<Option<Value>>, row: Row)
    requires |vectors| == |schema.vectors| == |row.vectors| && |metadata| == |schema.metadata| == |row.metadata|
    ensures VectorsFit(schema, vectors) <==>
            !exists i :: 0 <= i < |vectors| && vectors[i].Some?
                         && !VectorAdmitted(schema.vectors[i], vectors[i].value)
    ensures AllAccepted(schema, metadata, 0) <==>
            !exists m :: 0 <= m < |metadata| && metadata[m].Some?
                         && !ValueAdmitted(schema.metadata[m], metadata[m].value)
    ensures AllAccepted(schema, metadata, 0) ==>
              row.(vectors := OverlayVectors(row.vectors, vectors, 0),
                   metadata := OverlayValues(schema, row.metadata, metadata, 0)) ==
              Updated(schema, row, vectors, metadata)
  {
    forall i | 0 <= i < |vectors| && vectors[i].Some?
      ensures Fits(schema.vectors[i], vectors[i].value) <==> VectorAdmitted(schema.vectors[i], vectors[i].value)
    {
      VectorChecked(schema.vectors[i], vectors[i].value);
    }
    forall m | 0 <= m < |metadata| && metadata[m].Some?
      ensures var kind, v := schema.metadata[m], metadata[m].value;
        (Accepts(kind, v) <==> ValueAdmitted(kind, v)) && (Accepts(kind, v) ==> Stored(kind, v) == Kept(kind, v))
    {
      ValueChecked(schema.metadata[m], metadata[m].value);
    }
    hide Fits, VectorAdmitted, Accepts, ValueAdmitted, Stored, Kept;
    var updated := Updated(schema, row, vectors, metadata);
    assert OverlayVectors(row.vectors, vectors, 0) == updated.vectors;
    if AllAccepted(schema, metadata, 0) {
      assert OverlayValues(schema, row.metadata, metadata, 0) == updated.metadata;
    }
  }

  /** What an update of these arguments is to answer: an error, checked for in this order, or the row it leaves. */
  function UpdateAnswer(t: Table, r: int, partitionChanged: bool, vectors: seq<Option<Vector>>,
                        metadata: seq<Option<Value>>): Result<Row>
    requires RowShapes(t) && |vectors| == |t.schema.vectors| && |metadata| == |t.schema.metadata|
  {
    if r !in t.rows then Err(NotFound)
    else if partitionChanged then Err(PartitionKeyUpdate)
    else if exists m :: 0 <= m < |metadata| && metadata[m].Some?
                        && !ValueAdmitted(t.schema.metadata[m], metadata[m].value) then Err(MetadataTypeMismatch)
    else if exists i :: 0 <= i < |vectors| && vectors[i].Some?
                        && !VectorAdmitted(t.schema.vectors[i], vectors[i].value) then Err(VectorMismatch)
    else
      assert RowTyped(t.schema, t.rows[r]);
      Ok(Updated(t.schema, t.rows[r], vectors, metadata))
  }

  lemma TableUpdateMeans(t: Table, r: int, partitionChanged: bool, vectors: seq<Option<Vector>>,
                         metadata: seq<Option<Value>>)
    requires RowShapes(t) && |vectors| == |t.schema.vectors| && |metadata| == |t.schema.metadata|
    ensures UpdateRow(t, r, partitionChanged, vectors, metadata) ==
              match UpdateAnswer(t, r, partitionChanged, vectors, metadata)
              case Err(e) => Err(e)
              case Ok(row) => Ok(t.(rows := t.rows[r := row]))
  {
    if r in t.rows {
      assert RowTyped(t.schema, t.rows[r]);
      UpdateAdmissionAgrees(t.schema, vectors, metadata, t.rows[r]);
    }
    hide VectorsFit, AllAccepted, VectorAdmitted, ValueAdmitted, OverlayVectors, OverlayValues, Updated, RowTyped;
  }

  /** An update replaces exactly the columns given, or fails with the first error its arguments call for. */
  lemma UpdateMeans(st: State, r: int, partitionChanged: bool, vectors: seq<Option<Vector>>,
                    metadata: seq<Option<Value>>)
    requires Inv(st) && |vectors| == |st.schema.vectors| && |metadata| == |st.schema.metadata|
    ensures var res := Update(st, r, partitionChanged, vectors, metadata);
      match UpdateAnswer(TableOf(st), r, partitionChanged, vectors, metadata)
      case Err(e) => res == Err(e)
      case Ok(row) => res.Ok? && Inv(res.value) && Rows(res.value) == Rows(st)[r := row]
  {
    assert WellPlaced(st);
    var t := TableOf(st);
    assert RowShapes(t) && t.schema == st.schema && t.rows == Rows(st);
    hide Inv, Rows, Update, UpdateRow, UpdateAnswer, ShapeOk, WellPlaced, RowShapes;
    UpdateRefines(st, r, partitionChanged, vectors, metadata);
    TableUpdateMeans(t, r, partitionChanged, vectors, metadata);
    var res := Update(st, r, partitionChanged, vectors, metadata);
    var answer := UpdateAnswer(t, r, partitionChanged, vectors, metadata);
    if res.Ok? {
      assert answer.Ok?;
      assert TableOf(res.value).rows == t.rows[r := answer.value];
    }
  }
}
