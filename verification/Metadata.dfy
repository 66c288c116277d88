/**
 Metadata columns of one chunk: how a value is laid out in the column's blob (and, for long
 text, in a side table keyed by rowid), how it is read back, and how a constraint on the column
 becomes a bitmap over the chunk's slots.
 */
module Metadata {
  import opened Bitmap
  import opened Wrappers
  import opened SqlValue

  /** Bytes of text kept in the chunk itself; longer text goes to the side table as well. */
  const TEXT_VIEW_DATA := 12

  datatype Kind = Boolean | Integer | Float | TextColumn

  /** A text slot: the length of the value and its first bytes, zero padded. */
  datatype View = View(n: nat, prefix: Text)

  datatype Blob =
    | BoolBlob(bits: seq<Byte>)
    | IntBlob(ints: seq<I64>)
    | RealBlob(reals: seq<real>)
    | TextBlob(views: seq<View>)

  /** Long text by rowid. */
  type SideTable = map<int, Text>

  predicate BlobOk(kind: Kind, blob: Blob, size: nat) {
    match kind
    case Boolean => blob.BoolBlob? && CHAR_BIT * |blob.bits| == size
    case Integer => blob.IntBlob? && |blob.ints| == size
    case Float => blob.RealBlob? && |blob.reals| == size
    case TextColumn =>
      && blob.TextBlob? && |blob.views| == size
      && forall i :: 0 <= i < size ==> |blob.views[i].prefix| == TEXT_VIEW_DATA
  }

  /** What a column holds. */
  predicate TypeOk(kind: Kind, v: Value) {
    match kind
    case Boolean => v == IntValue(0) || v == IntValue(1)
    case Integer => v.IntValue?
    case Float => v.RealValue?
    case TextColumn => v.TextValue?
  }

  /** What the writer accepts: a boolean is checked, and read, as a C int. */
  predicate Accepts(kind: Kind, v: Value) {
    match kind
    case Boolean => v.IntValue? && (Narrow(v.i) == 0 || Narrow(v.i) == 1)
    case Integer => v.IntValue?
    case Float => v.RealValue?
    case TextColumn => v.TextValue?
  }

  /** What is stored of an accepted value. */
  function Stored(kind: Kind, v: Value): (s: Value)
    ensures Accepts(kind, v) ==> TypeOk(kind, s)
  {
    if kind.Boolean? && v.IntValue? then IntValue(Narrow(v.i)) else v
  }

  /** An accepted value is stored as it is given if and only if it has the column's type. */
  lemma StoredAsGivenIff(kind: Kind, v: Value)
    requires Accepts(kind, v)
    ensures Stored(kind, v) == v <==> TypeOk(kind, v)
  {}

  /** The boolean column accepts 2^32 and stores it as false. */
  lemma BooleanNarrowed()
    ensures Accepts(Boolean, IntValue(TWO_32)) && Stored(Boolean, IntValue(TWO_32)) == IntValue(0)
  {}

  function Zeroes(n: nat): (r: Text)
    ensures |r| == n
  {
    seq(n, _ => 0 as Octet)
  }

  function ViewOf(t: Text): (v: View)
    ensures |v.prefix| == TEXT_VIEW_DATA && v.n == |t|
    ensures forall i :: 0 <= i < TEXT_VIEW_DATA ==> v.prefix[i] == if i < |t| then t[i] else 0
  {
    if |t| < TEXT_VIEW_DATA then View(|t|, t + Zeroes(TEXT_VIEW_DATA - |t|)) else View(|t|, t[..TEXT_VIEW_DATA])
  }

  function ZeroBlob(kind: Kind, size: nat): (b: Blob)
    requires size % CHAR_BIT == 0
    ensures BlobOk(kind, b, size)
  {
    match kind
    case Boolean => BoolBlob(Zeros(size / CHAR_BIT))
    case Integer => IntBlob(seq(size, _ => 0))
    case Float => RealBlob(seq(size, _ => 0.0))
    case TextColumn => TextBlob(seq(size, _ => View(0, Zeroes(TEXT_VIEW_DATA))))
  }

  /** The all-zero contents a freed slot is reset to. */
  function ZeroValue(kind: Kind): (v: Value)
    ensures TypeOk(kind, v) && Accepts(kind, v)
  {
    match kind
    case Boolean => IntValue(0)
    case Integer => IntValue(0)
    case Float => RealValue(0.0)
    case TextColumn => TextValue([])
  }

  // ---- one slot of a blob ----

  /** What a blob holds at one slot. */
  datatype Cell =
    | BoolCell(bit: bool)
    | IntCell(i: I64)
    | RealCell(r: real)
    | TextCell(view: View)

  function CellAt(kind: Kind, blob: Blob, size: nat, slot: nat): (c: Cell)
    requires BlobOk(kind, blob, size) && slot < size
    ensures CellKind(kind, c)
  {
    match kind
    case Boolean => BoolCell(Bits(blob.bits)[slot])
    case Integer => IntCell(blob.ints[slot])
    case Float => RealCell(blob.reals[slot])
    case TextColumn => TextCell(blob.views[slot])
  }

  predicate CellKind(kind: Kind, c: Cell) {
    match kind
    case Boolean => c.BoolCell?
    case Integer => c.IntCell?
    case Float => c.RealCell?
    case TextColumn => c.TextCell? && |c.view.prefix| == TEXT_VIEW_DATA
  }

  /** The cell a value is written as. */
  function CellOf(kind: Kind, v: Value): (c: Cell)
    requires Accepts(kind, v)
    ensures CellKind(kind, c)
  {
    match kind
    case Boolean => BoolCell(Narrow(v.i) != 0)
    case Integer => IntCell(v.i)
    case Float => RealCell(v.r)
    case TextColumn => TextCell(ViewOf(v.t))
  }

  /** Rewrites one slot of the blob in place of the old value. */
  function WriteSlot(kind: Kind, blob: Blob, size: nat, slot: nat, v: Value): (b: Blob)
    requires BlobOk(kind, blob, size) && slot < size && Accepts(kind, v)
    ensures BlobOk(kind, b, size)
    ensures forall other: nat :: other < size ==>
              CellAt(kind, b, size, other) == if other == slot then CellOf(kind, v) else CellAt(kind, blob, size, other)
  {
    match kind
    case Boolean => BoolBlob(Put(blob.bits, slot, Narrow(v.i) != 0))
    case Integer => IntBlob(blob.ints[slot := v.i])
    case Float => RealBlob(blob.reals[slot := v.r])
    case TextColumn => TextBlob(blob.views[slot := ViewOf(v.t)])
  }

  lemma ZeroBlobCells(kind: Kind, size: nat, slot: nat)
    requires size % CHAR_BIT == 0 && slot < size
    ensures CellAt(kind, ZeroBlob(kind, size), size, slot) == CellOf(kind, ZeroValue(kind))
  {}

  // ---- point reads and the side table ----

  /** The value a point read returns; None is the error of a missing side-table row. */
  function ReadCell(c: Cell, side: SideTable, rowid: int): Option<Value>
    requires c.TextCell? ==> |c.view.prefix| == TEXT_VIEW_DATA
  {
    match c
    case BoolCell(bit) => Some(IntValue(if bit then 1 else 0))
    case IntCell(i) => Some(IntValue(i))
    case RealCell(r) => Some(RealValue(r))
    case TextCell(view) =>
      if view.n <= TEXT_VIEW_DATA then Some(TextValue(view.prefix[..view.n]))
      else if rowid in side then Some(TextValue(side[rowid])) else None
  }

  function PreviousLength(c: Cell): nat {
    if c.TextCell? then c.view.n else 0
  }

  /**
   The side table after writing `v` over a slot whose previous text had `previous` bytes: an UPDATE,
   an INSERT (None when the key is already there) or a DELETE.
   */
  function WriteSide(side: SideTable, rowid: int, previous: nat, v: Value, isUpdate: bool): Option<SideTable> {
    if !v.TextValue? then Some(side)
    else if |v.t| > TEXT_VIEW_DATA then
      if isUpdate && previous > TEXT_VIEW_DATA then
        Some(if rowid in side then side[rowid := v.t] else side)
      else if rowid in side then None
      else Some(side[rowid := v.t])
    else if previous > TEXT_VIEW_DATA then Some(side - {rowid})
    else Some(side)
  }

  /**
   The split text invariant of a live row's slot: the view's length exceeds 12 exactly when the
   side table has a row for the rowid, and then length and first 12 bytes match it.
   */
  ghost predicate CellOk(c: Cell, side: SideTable, rowid: int)
    requires c.TextCell? ==> |c.view.prefix| == TEXT_VIEW_DATA
  {
    if c.TextCell? then
      && (rowid in side <==> c.view.n > TEXT_VIEW_DATA)
      && (rowid in side ==> c.view == ViewOf(side[rowid]))
      && (rowid !in side ==> c.view == ViewOf(c.view.prefix[..c.view.n]))
    else rowid !in side
  }

  /**
   A write over a slot in order never collides in the side table, and a read then returns what is stored of the
   value.
   */
  lemma WriteThenRead(kind: Kind, c: Cell, side: SideTable, rowid: int, v: Value, isUpdate: bool)
    requires CellKind(kind, c) && Accepts(kind, v) && CellOk(c, side, rowid)
    requires isUpdate || rowid !in side
    ensures WriteSide(side, rowid, PreviousLength(c), v, isUpdate).Some?
    ensures var side' := WriteSide(side, rowid, PreviousLength(c), v, isUpdate).value;
      && CellOk(CellOf(kind, v), side', rowid)
      && ReadCell(CellOf(kind, v), side', rowid) == Some(Stored(kind, v))
      && side' - {rowid} == side - {rowid}
  {
    if kind.TextColumn? && |v.t| <= TEXT_VIEW_DATA {
      assert ViewOf(v.t).prefix[..|v.t|] == v.t;
    }
  }

  /** A live row's cell always reads back as a value of the column's type. */
  lemma CellReads(kind: Kind, c: Cell, side: SideTable, rowid: int)
    requires CellKind(kind, c) && CellOk(c, side, rowid)
    ensures ReadCell(c, side, rowid).Some? && TypeOk(kind, ReadCell(c, side, rowid).value)
  {}

  // ---- constraints ----

  /** The right-hand side of a constraint: one value, or the list of an IN. */
  datatype Target = One(value: Value) | Many(values: seq<Value>)

  /** The operators that query planning lets through for a column. */
  predicate OperatorOk(kind: Kind, op: Operator) {
    match kind
    case Boolean => op.EQ? || op.NE?
    case Integer => true
    case Float => !op.IN?
    case TextColumn => true
  }

  /** A target as the operator takes it, one value or a list: numbers or NULL for a column of numbers, text for text. */
  predicate TargetTyped(kind: Kind, op: Operator, target: Target) {
    && (op.IN? <==> target.Many?)
    && match kind
       case TextColumn => if target.One? then target.value.TextValue?
         else forall v :: v in target.values ==> v.TextValue?
       case _ => if target.One? then !target.value.TextValue?
         else forall v :: v in target.values ==> !v.TextValue?
  }

  /** A target once read as the column's type. */
  predicate TargetRead(kind: Kind, op: Operator, target: Target) {
    && OperatorOk(kind, op)
    && (op.IN? <==> target.Many?)
    && match kind
       case Boolean => target.One? ==> target.value.IntValue?
       case Integer => if target.One? then target.value.IntValue? else forall v :: v in target.values ==> v.IntValue?
       case Float => target.One? ==> target.value.RealValue?
       case TextColumn => if target.One? then target.value.TextValue?
         else forall v :: v in target.values ==> v.TextValue?
  }

  /** What the filter reads a target as: integers and booleans as 64-bit integers, floats as reals. */
  function ReadTarget(kind: Kind, target: Target): Target
    requires exists op :: TargetTyped(kind, op, target)
  {
    match kind
    case TextColumn => target
    case Float => if target.One? then One(RealValue(ReadReal(target.value))) else target
    case _ =>
      if target.One? then One(IntValue(ReadInt(target.value))) else Many(ReadInts(target.values))
  }

  function ReadInts(values: seq<Value>): (r: seq<Value>)
    requires forall v :: v in values ==> !v.TextValue?
    ensures |r| == |values| && forall i :: 0 <= i < |values| ==> r[i] == IntValue(ReadInt(values[i]))
  {
    seq(|values|, i requires 0 <= i < |values| => IntValue(ReadInt(values[i])))
  }

  lemma ReadTargetRead(kind: Kind, op: Operator, target: Target)
    requires TargetOk(kind, op, target)
    ensures TargetRead(kind, op, ReadTarget(kind, target))
  {
    if kind.Integer? && target.Many? {
      var read := ReadInts(target.values);
      assert forall v :: v in read ==> v.IntValue?;
    }
  }

  /** The constraints a query may put on a column. */
  predicate TargetOk(kind: Kind, op: Operator, target: Target) {
    OperatorOk(kind, op) && TargetTyped(kind, op, target)
  }

  function Shorter(x: nat, y: nat): nat {
    if x < y then x else y
  }

  /** Text equality as the filter decides it: length, prefix, and only then the long value. */
  function TextEquals(view: View, long: Option<Text>, t: Text): Option<bool>
  {
    if view.n != |t| then Some(false)
    else
      var prefixOrder := Strncmp(view.prefix, t, Shorter(view.n, TEXT_VIEW_DATA));
      if view.n <= TEXT_VIEW_DATA then Some(prefixOrder == 0)
      else if prefixOrder != 0 then Some(false)
      else if long.None? || |long.value| != view.n then None
      else Some(Strncmp(long.value, t, |long.value|) == 0)
  }

  function TextIn(view: View, long: Option<Text>, targets: seq<Value>): Option<bool>
    requires forall v :: v in targets ==> v.TextValue?
  {
    if targets == [] then Some(false)
    else
      assert targets[0] in targets;
      var first := TextEquals(view, long, targets[0].t);
      if first == Some(false) then TextIn(view, long, targets[1..]) else first
  }

  /** The ordered operators: the view decides below 12 bytes, the long value from 12 on. */
  function TextOrdered(op: Operator, view: View, long: Option<Text>, t: Text): Option<bool>
  {
    if view.n < TEXT_VIEW_DATA then
      var prefixOrder := Strncmp(view.prefix, t, Shorter(Shorter(view.n, TEXT_VIEW_DATA), |t|));
      Some(Holds(op, if prefixOrder == 0 then view.n - |t| else prefixOrder))
    else if long.None? || |long.value| != view.n then None
    else Some(Holds(op, Strncmp(long.value, t, |long.value|)))
  }

  function TextVerdict(op: Operator, target: Target, view: View, long: Option<Text>): Option<bool>
    requires TargetOk(TextColumn, op, target)
  {
    match op
    case EQ => TextEquals(view, long, target.value.t)
    case NE =>
      var same := TextEquals(view, long, target.value.t);
      if same.None? then None else Some(!same.value)
    case IN => TextIn(view, long, target.values)
    case _ => TextOrdered(op, view, long, target.value.t)
  }

  function LongText(side: SideTable, rowid: int): Option<Text> {
    if rowid in side then Some(side[rowid]) else None
  }

  predicate NumberVerdict(op: Operator, target: Target, stored: Value)
    requires stored.IntValue? || stored.RealValue?
    requires TargetRead(if stored.IntValue? then Integer else Float, op, target)
  {
    if op.IN? then stored in target.values
    else if stored.IntValue? then Holds(op, stored.i - target.value.i)
    else Holds(op, if stored.r < target.value.r then -1 else if stored.r == target.value.r then 0 else 1)
  }

  /** A boolean constraint copies the column's bits, or their negation; its target is read as a C int. */
  predicate BooleanVerdict(op: Operator, target: int, stored: bool) {
    var narrowed := Narrow(target);
    if (narrowed != 0 && op.EQ?) || (narrowed == 0 && op.NE?) then stored else !stored
  }

  /** What the filter decides for one slot; None is an error that aborts the query. */
  function CellVerdict(kind: Kind, op: Operator, target: Target, c: Cell, side: SideTable, rowid: int): Option<bool>
    requires CellKind(kind, c) && TargetOk(kind, op, target)
  {
    ReadTargetRead(kind, op, target);
    var read := ReadTarget(kind, target);
    match kind
    case Boolean => Some(BooleanVerdict(op, read.value.i, c.bit))
    case Integer => Some(NumberVerdict(op, read, IntValue(c.i)))
    case Float => Some(NumberVerdict(op, read, RealValue(c.r)))
    case TextColumn => TextVerdict(op, target, c.view, LongText(side, rowid))
  }

  /** What the filter decides about a row holding `v` in the column. */
  function ValueVerdict(kind: Kind, op: Operator, target: Target, v: Value): Option<bool>
    requires TypeOk(kind, v) && TargetOk(kind, op, target)
  {
    ReadTargetRead(kind, op, target);
    var read := ReadTarget(kind, target);
    match kind
    case Boolean => Some(BooleanVerdict(op, read.value.i, v.i != 0))
    case Integer => Some(NumberVerdict(op, read, v))
    case Float => Some(NumberVerdict(op, read, v))
    case TextColumn =>
      TextVerdict(op, target, ViewOf(v.t), if |v.t| > TEXT_VIEW_DATA then Some(v.t) else None)
  }

  /** The filter sees a live row's full value through its view and the side table. */
  lemma CellVerdictIsValueVerdict(kind: Kind, op: Operator, target: Target, c: Cell, side: SideTable, rowid: int)
    requires CellKind(kind, c) && TargetOk(kind, op, target) && CellOk(c, side, rowid)
    ensures ReadCell(c, side, rowid).Some? && TypeOk(kind, ReadCell(c, side, rowid).value)
    ensures CellVerdict(kind, op, target, c, side, rowid) ==
            ValueVerdict(kind, op, target, ReadCell(c, side, rowid).value)
  {
    CellReads(kind, c, side, rowid);
  }

  /** What the constraint means in SQL. */
  predicate Satisfies(op: Operator, target: Target, v: Value)
    requires op.IN? <==> target.Many?
  {
    if op.IN? then exists t :: t in target.values && SqlHolds(EQ, v, t) else SqlHolds(op, v, target.value)
  }
}
