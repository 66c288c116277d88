/** Filling a chunk's bitmap from one metadata constraint, slot by slot and in place. */
module FilterBitmap {
  import opened Bitmap
  import opened Wrappers
  import opened SqlValue
  import opened Metadata

  method BooleanFilter(bits: seq<Byte>, op: Operator, target: int, b: array<Byte>)
    requires b.Length == |bits|
    modifies b
    ensures forall i :: 0 <= i < CHAR_BIT * |bits| ==> Bits(b[..])[i] == BooleanVerdict(op, target, Bits(bits)[i])
  {
    var narrowed := Narrow(target);
    var keep := (narrowed != 0 && op.EQ?) || (narrowed == 0 && op.NE?);
    for i := 0 to CHAR_BIT * |bits|
      invariant forall j :: 0 <= j < i ==> Bits(b[..])[j] == BooleanVerdict(op, target, Bits(bits)[j])
    {
      var stored := BitOf(bits[i / CHAR_BIT], i % CHAR_BIT);
      SetBit(b, i, if keep then stored else !stored);
    }
  }

  /** Comparison operators on an integer or float column. */
  method NumberFilter(values: seq<Value>, op: Operator, target: Target, b: array<Byte>)
    requires !op.IN? && target.One? && CHAR_BIT * b.Length == |values|
    requires forall i :: 0 <= i < |values| ==>
               (values[i].IntValue? && TargetRead(Integer, op, target))
                 || (values[i].RealValue? && TargetRead(Float, op, target))
    modifies b
    ensures forall i :: 0 <= i < |values| ==> Bits(b[..])[i] == NumberVerdict(op, target, values[i])
  {
    for i := 0 to |values|
      invariant forall j :: 0 <= j < i ==> Bits(b[..])[j] == NumberVerdict(op, target, values[j])
    {
      var holds;
      match op {
        case EQ => holds := values[i] == target.value;
        case GT => holds := Number(values[i]) > Number(target.value);
        case LE => holds := Number(values[i]) <= Number(target.value);
        case LT => holds := Number(values[i]) < Number(target.value);
        case GE => holds := Number(values[i]) >= Number(target.value);
        case NE => holds := values[i] != target.value;
      }
      SetBit(b, i, holds);
    }
  }

  /** `x in (...)` on an integer column: bits are only ever set, over a cleared bitmap. */
  method IntegerInFilter(values: seq<I64>, targets: seq<Value>, b: array<Byte>)
    requires CHAR_BIT * b.Length == |values|
    requires forall t :: t in targets ==> t.IntValue?
    requires forall i :: 0 <= i < |values| ==> !Bits(b[..])[i]
    modifies b
    ensures forall i :: 0 <= i < |values| ==> Bits(b[..])[i] == (IntValue(values[i]) in targets)
  {
    for i := 0 to |values|
      invariant forall j :: 0 <= j < i ==> Bits(b[..])[j] == (IntValue(values[j]) in targets)
      invariant forall j :: i <= j < |values| ==> !Bits(b[..])[j]
    {
      for k := 0 to |targets|
        invariant IntValue(values[i]) !in targets[..k]
        invariant forall j :: 0 <= j < i ==> Bits(b[..])[j] == (IntValue(values[j]) in targets)
        invariant forall j :: i <= j < |values| ==> !Bits(b[..])[j]
      {
        if targets[k] == IntValue(values[i]) {
          SetBit(b, i, true);
          break;
        }
      }
      assert targets[..|targets|] == targets;
    }
  }

  /** One slot against an IN list: stops at the first target that matches or fails. */
  method TextInSlot(view: View, long: Option<Text>, targets: seq<Value>) returns (verdict: Option<bool>)
    requires forall v :: v in targets ==> v.TextValue?
    ensures verdict == TextIn(view, long, targets)
  {
    for k := 0 to |targets|
      invariant TextIn(view, long, targets) == TextIn(view, long, targets[k..])
    {
      verdict := TextEquals(view, long, targets[k].t);
      if verdict != Some(false) {
        return;
      }
    }
    verdict := Some(false);
  }

  method TextFilter(views: seq<View>, op: Operator, target: Target, side: SideTable, rowids: seq<int>, b: array<Byte>)
    returns (ok: bool)
    requires TargetOk(TextColumn, op, target) && CHAR_BIT * b.Length == |views| == |rowids|
    modifies b
    ensures ok <==> forall i :: 0 <= i < |views| ==> TextVerdict(op, target, views[i], LongText(side, rowids[i])).Some?
    ensures ok ==> forall i :: 0 <= i < |views| ==>
                     Some(Bits(b[..])[i]) == TextVerdict(op, target, views[i], LongText(side, rowids[i]))
  {
    for i := 0 to |views|
      invariant forall j :: 0 <= j < i ==>
                  Some(Bits(b[..])[j]) == TextVerdict(op, target, views[j], LongText(side, rowids[j]))
    {
      var long := LongText(side, rowids[i]);
      var verdict;
      match op {
        case EQ => verdict := TextEquals(views[i], long, target.value.t);
        case NE =>
          verdict := TextEquals(views[i], long, target.value.t);
          verdict := if verdict.None? then None else Some(!verdict.value);
        case IN => verdict := TextInSlot(views[i], long, target.values);
        case _ => verdict := TextOrdered(op, views[i], long, target.value.t);
      }
      if verdict.None? {
        return false;
      }
      SetBit(b, i, verdict.value);
    }
    return true;
  }

  /** The bitmap of one constraint over one chunk, or false when the filter fails. */
  method SetMetadataFilterBitmap(kind: Kind, op: Operator, target: Target, blob: Blob, size: nat,
                                 side: SideTable, rowids: seq<int>, b: array<Byte>)
    returns (ok: bool)
    requires BlobOk(kind, blob, size) && TargetOk(kind, op, target)
    requires CHAR_BIT * b.Length == size == |rowids|
    requires forall i :: 0 <= i < size ==> !Bits(b[..])[i]
    modifies b
    ensures ok <==> forall i: nat :: i < size ==> CellVerdict(kind, op, target, CellAt(kind, blob, size, i), side,
                                                              rowids[i]).Some?
    ensures ok ==> forall i: nat :: i < size ==>
                     Some(Bits(b[..])[i]) == CellVerdict(kind, op, target, CellAt(kind, blob, size, i), side, rowids[i])
  {
    ok := true;
    ReadTargetRead(kind, op, target);
    var read := ReadTarget(kind, target);
    match kind {
      case Boolean => BooleanFilter(blob.bits, op, read.value.i, b);
      case Integer =>
        if op.IN? {
          IntegerInFilter(blob.ints, read.values, b);
        } else {
          NumberFilter(seq(size, i requires 0 <= i < size => IntValue(blob.ints[i])), op, read, b);
        }
      case Float => NumberFilter(seq(size, i requires 0 <= i < size => RealValue(blob.reals[i])), op, read, b);
      case TextColumn => ok := TextFilter(blob.views, op, target, side, rowids, b);
    }
  }
}
