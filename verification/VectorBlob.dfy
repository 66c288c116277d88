/** Vectors of one chunk packed into one blob: sizes, addresses, and reading back what was written. */
module VectorBlob {
  import opened Bitmap

  datatype ElementType = Float32 | Int8 | Bit

  datatype VectorColumn = VectorColumn(elementType: ElementType, dimensions: nat)

  /** A parsed vector argument: its element type and bytes. */
  datatype Vector = Vector(elementType: ElementType, bytes: seq<Byte>)

  const CHUNK_SIZE_MAX := 4096
  const SIZEOF_F32 := 4

  /** The parser's dimension count; None is a zero-length or ragged vector. */
  function Dimensions(v: Vector): (d: int)
    ensures d >= -1
  {
    if |v.bytes| == 0 then -1
    else match v.elementType
      case Float32 => if |v.bytes| % SIZEOF_F32 != 0 then -1 else |v.bytes| / SIZEOF_F32
      case Int8 => |v.bytes|
      case Bit => |v.bytes| * CHAR_BIT
  }

  /** The checks an inserted, updated or query vector must pass for a column. */
  predicate Fits(column: VectorColumn, v: Vector) {
    v.elementType == column.elementType && Dimensions(v) == column.dimensions
  }

  function ByteSize(column: VectorColumn): nat {
    match column.elementType
    case Float32 => column.dimensions * SIZEOF_F32
    case Int8 => column.dimensions
    case Bit => column.dimensions / CHAR_BIT
  }

  function BlobSize(column: VectorColumn, chunkSize: nat): nat {
    chunkSize * ByteSize(column)
  }

  // ---- the three address computations ----

  function WriteLength(column: VectorColumn): nat {
    match column.elementType
    case Float32 => column.dimensions * SIZEOF_F32
    case Int8 => column.dimensions
    case Bit => column.dimensions / CHAR_BIT
  }

  function WriteOffset(column: VectorColumn, slot: nat): nat {
    match column.elementType
    case Float32 => slot * column.dimensions * SIZEOF_F32
    case Int8 => slot * column.dimensions
    case Bit => slot * column.dimensions / CHAR_BIT
  }

  function PointReadOffset(column: VectorColumn, slot: nat): nat {
    slot * ByteSize(column)
  }

  /** Pointer arithmetic in elements, rescaled to bytes. */
  function KnnReadOffset(column: VectorColumn, slot: nat): nat {
    match column.elementType
    case Float32 => (slot * column.dimensions) * SIZEOF_F32
    case Int8 => slot * column.dimensions
    case Bit => slot * (column.dimensions / CHAR_BIT)
  }

  lemma DivideExact(slot: nat, bytes: nat)
    ensures slot * (bytes * CHAR_BIT) / CHAR_BIT == slot * bytes
  {
    assert slot * (bytes * CHAR_BIT) == (slot * bytes) * CHAR_BIT;
  }

  /** Whenever some vector fits the column, writer and both readers use the same bytes. */
  lemma AddressesAgree(column: VectorColumn, v: Vector, slot: nat)
    requires Fits(column, v)
    ensures |v.bytes| == ByteSize(column) == WriteLength(column) > 0
    ensures WriteOffset(column, slot) == PointReadOffset(column, slot) == KnnReadOffset(column, slot)
  {
    match column.elementType {
      case Float32 => assert slot * column.dimensions * SIZEOF_F32 == slot * (column.dimensions * SIZEOF_F32);
      case Int8 =>
      case Bit =>
        assert column.dimensions == |v.bytes| * CHAR_BIT;
        DivideExact(slot, |v.bytes|);
    }
  }

  lemma SlotsApart(width: nat, slot: nat, other: nat, count: nat)
    requires slot < count && other < count
    ensures slot * width + width <= count * width
    ensures slot < other ==> slot * width + width <= other * width
  {
    assert slot * width + width == (slot + 1) * width;
    MulMonotone(slot + 1, count, width);
    if slot < other {
      MulMonotone(slot + 1, other, width);
    }
  }

  lemma MulMonotone(a: nat, b: nat, c: nat)
    requires a <= b
    ensures a * c <= b * c
  {
    assert b * c == a * c + (b - a) * c;
  }

  /**
   Distinct slots occupy disjoint bytes inside the blob, and within the limits on chunk size and
   dimensions every address fits a 32-bit int with room to spare.
   */
  lemma SlotsDisjointAndBounded(column: VectorColumn, v: Vector, chunkSize: nat, slot: nat, other: nat)
    requires Fits(column, v) && slot < chunkSize && other < chunkSize
    ensures WriteOffset(column, slot) + WriteLength(column) <= BlobSize(column, chunkSize)
    ensures slot != other ==>
              || WriteOffset(column, slot) + WriteLength(column) <= WriteOffset(column, other)
              || WriteOffset(column, other) + WriteLength(column) <= WriteOffset(column, slot)
    ensures chunkSize <= 4096 && column.dimensions <= 8192 ==> BlobSize(column, chunkSize) <= 0x800_0000
  {
    AddressesAgree(column, v, slot);
    AddressesAgree(column, v, other);
    SlotsApart(ByteSize(column), slot, other, chunkSize);
    SlotsApart(ByteSize(column), other, slot, chunkSize);
    if chunkSize <= 4096 && column.dimensions <= 8192 {
      MulMonotone(chunkSize, 4096, ByteSize(column));
    }
  }

  // ---- reading and writing ----

  function Splice(blob: seq<Byte>, at: nat, data: seq<Byte>): (r: seq<Byte>)
    requires at + |data| <= |blob|
    ensures |r| == |blob|
    ensures r[at..at + |data|] == data
  {
    blob[..at] + data + blob[at + |data|..]
  }

  lemma SpliceElsewhere(blob: seq<Byte>, at: nat, data: seq<Byte>, from: nat, length: nat)
    requires at + |data| <= |blob| && from + length <= |blob|
    requires from + length <= at || at + |data| <= from
    ensures Splice(blob, at, data)[from..from + length] == blob[from..from + length]
  {}

  function Write(column: VectorColumn, blob: seq<Byte>, chunkSize: nat, slot: nat, v: Vector): (r: seq<Byte>)
    requires Fits(column, v) && slot < chunkSize && |blob| == BlobSize(column, chunkSize)
    ensures |r| == |blob|
  {
    SlotsDisjointAndBounded(column, v, chunkSize, slot, slot);
    AddressesAgree(column, v, slot);
    Splice(blob, WriteOffset(column, slot), v.bytes)
  }

  function Read(column: VectorColumn, blob: seq<Byte>, chunkSize: nat, slot: nat): (r: seq<Byte>)
    requires slot < chunkSize && |blob| == BlobSize(column, chunkSize)
  {
    SlotsApart(ByteSize(column), slot, slot, chunkSize);
    var at := PointReadOffset(column, slot);
    blob[at..at + ByteSize(column)]
  }

  /** The bytes a k-nearest-neighbour query hands to the distance function. */
  function KnnRead(column: VectorColumn, blob: seq<Byte>, chunkSize: nat, slot: nat): (r: seq<Byte>)
    requires slot < chunkSize && |blob| == BlobSize(column, chunkSize)
    ensures r == Read(column, blob, chunkSize, slot)
  {
    SlotsApart(ByteSize(column), slot, slot, chunkSize);
    assert slot * column.dimensions * SIZEOF_F32 == slot * (column.dimensions * SIZEOF_F32);
    var at := KnnReadOffset(column, slot);
    blob[at..at + ByteSize(column)]
  }

  /** A write is read back from its slot and leaves every other slot's vector as it was. */
  lemma WriteThenRead(column: VectorColumn, blob: seq<Byte>, chunkSize: nat, slot: nat, v: Vector, other: nat)
    requires Fits(column, v) && slot < chunkSize && other < chunkSize && |blob| == BlobSize(column, chunkSize)
    ensures Read(column, Write(column, blob, chunkSize, slot, v), chunkSize, other) ==
            if other == slot then v.bytes else Read(column, blob, chunkSize, other)
  {
    SlotsDisjointAndBounded(column, v, chunkSize, slot, other);
    SlotsDisjointAndBounded(column, v, chunkSize, other, slot);
    AddressesAgree(column, v, slot);
    AddressesAgree(column, v, other);
    if other != slot {
      SpliceElsewhere(blob, WriteOffset(column, slot), v.bytes, PointReadOffset(column, other), ByteSize(column));
    }
  }
}
