/**
 When the metadata filters agree with SQL. Equality and membership of text are exact for every
 stored value exactly when the target has no embedded zero byte; the ordered operators fail on
 12-byte values and treat a long value that is a proper prefix of the target as equal to it.
 */
module FilterExactness {
  import opened Wrappers
  import opened SqlValue
  import opened Metadata

  function LongOf(s: Text): Option<Text> {
    if |s| > TEXT_VIEW_DATA then Some(s) else None
  }

  /** Same length and same C string: what text equality really tests. */
  predicate SameCString(s: Text, t: Text) {
    |s| == |t| && UpToZero(s) == UpToZero(t)
  }

  lemma TextEqualsIsSameCString(s: Text, t: Text)
    ensures TextEquals(ViewOf(s), LongOf(s), t) == Some(SameCString(s, t))
  {
    if |s| == |t| {
      var n := Shorter(|s|, TEXT_VIEW_DATA);
      assert ViewOf(s).prefix[..n] == s[..n];
      StrncmpPrefix(ViewOf(s).prefix, s, t, n);
      StrncmpWhole(s, t);
      if Strncmp(s, t, |s|) == 0 {
        StrncmpShorter(s, t, n, |s|);
      }
    }
  }

  /** No zero byte except possibly the last one. */
  predicate NoEmbeddedZero(t: Text) {
    forall i :: 0 <= i < |t| - 1 ==> t[i] != 0
  }

  lemma {:induction false} NoEmbeddedZeroDecides(s: Text, t: Text)
    requires NoEmbeddedZero(t) && SameCString(s, t)
    ensures s == t
  {
    if |t| > 0 {
      assert s[0] != 0 ==> UpToZero(s)[0] == s[0] && UpToZero(s)[1..] == UpToZero(s[1..]);
      assert t[0] != 0 ==> UpToZero(t)[0] == t[0] && UpToZero(t)[1..] == UpToZero(t[1..]);
      assert s[0] == t[0];
      if t[0] != 0 {
        NoEmbeddedZeroDecides(s[1..], t[1..]);
        assert s == [s[0]] + s[1..] && t == [t[0]] + t[1..];
      }
    }
  }

  /** Another text of the same length that the filter cannot tell from `t`. */
  lemma {:induction false} EmbeddedZeroConfuses(t: Text) returns (s: Text)
    requires !NoEmbeddedZero(t)
    ensures s != t && SameCString(s, t)
  {
    if t[0] == 0 {
      s := t[1 := if t[1] == 1 then 2 else 1];
    } else {
      assert !NoEmbeddedZero(t[1..]) by {
        var i :| 0 <= i < |t| - 1 && t[i] == 0;
        assert t[1..][i - 1] == 0;
      }
      var rest := EmbeddedZeroConfuses(t[1..]);
      s := [t[0]] + rest;
      assert s[1..] == rest;
      assert UpToZero(s) == [t[0]] + UpToZero(rest) && UpToZero(t) == [t[0]] + UpToZero(t[1..]);
    }
  }

  /** Text equality is SQL equality on every stored value if and only if the target has no embedded zero byte. */
  lemma EqualityExactIff(t: Text)
    ensures (forall s: Text :: TextEquals(ViewOf(s), LongOf(s), t) == Some(s == t)) <==> NoEmbeddedZero(t)
  {
    forall s: Text | NoEmbeddedZero(t)
      ensures TextEquals(ViewOf(s), LongOf(s), t) == Some(s == t)
    {
      TextEqualsIsSameCString(s, t);
      if SameCString(s, t) {
        NoEmbeddedZeroDecides(s, t);
      }
    }
    if !NoEmbeddedZero(t) {
      var s := EmbeddedZeroConfuses(t);
      TextEqualsIsSameCString(s, t);
    }
  }

  lemma {:induction false} MembershipExact(s: Text, targets: seq<Value>)
    requires forall v :: v in targets ==> v.TextValue? && NoEmbeddedZero(v.t)
    ensures TextIn(ViewOf(s), LongOf(s), targets) == Some(TextValue(s) in targets)
  {
    if targets != [] {
      assert targets[0] in targets;
      EqualityExactIff(targets[0].t);
      assert targets == [targets[0]] + targets[1..];
      MembershipExact(s, targets[1..]);
    }
  }

  predicate Ordered(op: Operator) {
    op.GT? || op.LE? || op.LT? || op.GE?
  }

  /** A 12-byte value sends every ordered constraint to a side-table row that is not there. */
  lemma OrderedErrorIff(op: Operator, s: Text, t: Text)
    ensures TextOrdered(op, ViewOf(s), LongOf(s), t).None? <==> |s| == 12
  {}

  /** The condition under which an ordered constraint agrees with the collation order. */
  predicate OrderedAgrees(op: Operator, s: Text, t: Text) {
    && |s| != 12
    && !(|s| > 12 && (op.GE? || op.LT?) && ProperPrefix(s, t))
  }

  /** An ordered constraint decides SQL's answer if and only if `OrderedAgrees`. */
  lemma OrderedExactIff(op: Operator, s: Text, t: Text)
    requires Ordered(op) && ZeroFree(s) && ZeroFree(t)
    ensures TextOrdered(op, ViewOf(s), LongOf(s), t) == Some(Holds(op, TextCompare(s, t))) <==> OrderedAgrees(op, s, t)
  {
    if |s| < TEXT_VIEW_DATA {
      var n := Shorter(|s|, |t|);
      assert ViewOf(s).prefix[..n] == s[..n];
      StrncmpPrefix(ViewOf(s).prefix, s, t, n);
      StrncmpCommon(s, t, n);
    } else if |s| > TEXT_VIEW_DATA {
      StrncmpStored(s, t);
    }
  }

  // ---- constraints on columns of numbers ----

  /**
   When a boolean constraint is exact for a stored value: its target, cut to a C int, must be as true as the whole
   target is equal to the value. NULL is read as 0.
   */
  predicate BooleanAgrees(op: Operator, target: Value, v: Value)
    requires TypeOk(Boolean, v) && !target.TextValue?
  {
    if target.Null? then (if op.EQ? then v.i == 1 else v.i == 0)
    else if v.i == 0 then Narrow(ReadInt(target)) == 0 <==> Number(target) == 0.0
    else Narrow(ReadInt(target)) != 0 <==> Number(target) == 1.0
  }

  /** A boolean constraint decides SQL's answer if and only if `BooleanAgrees`. */
  lemma BooleanExactIff(op: Operator, target: Value, v: Value)
    requires (op.EQ? || op.NE?) && TypeOk(Boolean, v) && !target.TextValue?
    ensures BooleanVerdict(op, ReadInt(target), v.i != 0) == SqlHolds(op, v, target) <==> BooleanAgrees(op, target, v)
  {}

  /** For every stored value at once the target must be 0 or 1. */
  lemma BooleanTargetExactIff(op: Operator, target: Value)
    requires (op.EQ? || op.NE?) && !target.TextValue?
    ensures (forall v :: TypeOk(Boolean, v) ==>
               BooleanVerdict(op, ReadInt(target), v.i != 0) == SqlHolds(op, v, target))
       <==> (!target.Null? && (Number(target) == 0.0 || Number(target) == 1.0))
  {
    BooleanExactIff(op, target, IntValue(0));
    BooleanExactIff(op, target, IntValue(1));
    assert TypeOk(Boolean, IntValue(0)) && TypeOk(Boolean, IntValue(1));
  }

  /** A false value passes `= 4294967296`. */
  lemma WideTargetCounterexample()
    ensures BooleanVerdict(EQ, ReadInt(IntValue(TWO_32)), false) && !SqlHolds(EQ, IntValue(0), IntValue(TWO_32))
  {}

  /**
   When a comparison with an integer column is exact: a fractional target is cut to the integer next to it towards
   zero, which matters only to a stored value equal to that integer, and not to the operators that lie on its far side.
   */
  predicate IntegerAgrees(op: Operator, target: Value, v: I64)
    requires !target.TextValue?
  {
    match target
    case Null => !Holds(op, v)
    case IntValue(_) => true
    case RealValue(r) =>
      var n := Truncate(r);
      n as real == r || v != n || (if n as real < r then op.GT? || op.LE? else op.GE? || op.LT?)
  }

  lemma IntegerExactIff(op: Operator, target: Value, v: I64)
    requires !op.IN? && !target.TextValue?
    ensures Holds(op, v - ReadInt(target)) == SqlHolds(op, IntValue(v), target) <==> IntegerAgrees(op, target, v)
  {
    if target.RealValue? {
      TruncateNext(target.r, v);
    }
  }

  /** A real lies within one of what it is cut to, beyond it as seen from zero; only 64-bit integers tell. */
  lemma TruncateNext(r: real, v: I64)
    ensures var n := Truncate(r);
      && (n as real < r ==> (v <= n <==> v as real < r) && (v > n <==> v as real > r))
      && (n as real > r ==> (v >= n <==> v as real > r) && (v < n <==> v as real < r))
  {}

  /** `year < 2024.5` loses 2024. */
  lemma FractionCounterexample()
    ensures !Holds(LT, 2024 - ReadInt(RealValue(2024.5))) && SqlHolds(LT, IntValue(2024), RealValue(2024.5))
  {}

  /**
   An integer is found in a list exactly when SQL finds it, if whatever target is read as it comes with an equal one.
   */
  predicate MembersAgree(targets: seq<Value>, v: I64)
    requires forall t :: t in targets ==> !t.TextValue?
  {
    (exists t :: t in targets && ReadInt(t) == v) ==> exists t :: t in targets && SqlHolds(EQ, IntValue(v), t)
  }

  lemma IntegerMembershipExactIff(targets: seq<Value>, v: I64)
    requires forall t :: t in targets ==> !t.TextValue?
    ensures (IntValue(v) in ReadInts(targets)) == (exists t :: t in targets && SqlHolds(EQ, IntValue(v), t)) <==>
            MembersAgree(targets, v)
  {
    var read := ReadInts(targets);
    if IntValue(v) in read {
      var i :| 0 <= i < |read| && read[i] == IntValue(v);
      assert targets[i] in targets && ReadInt(targets[i]) == v;
    }
    forall t | t in targets && SqlHolds(EQ, IntValue(v), t)
      ensures ReadInt(t) == v
    {
      IntegerExactIff(EQ, t, v);
    }
    forall t | t in targets && ReadInt(t) == v
      ensures IntValue(v) in read
    {
      var i :| 0 <= i < |targets| && targets[i] == t;
      assert read[i] == IntValue(v);
    }
  }

  /** A float column compares NULL as 0 and every number as it is. */
  predicate FloatAgrees(op: Operator, target: Value, v: real) {
    target.Null? ==> !Holds(op, Sign(v))
  }

  function Sign(v: real): int {
    if v < 0.0 then -1 else if v == 0.0 then 0 else 1
  }

  lemma FloatExactIff(op: Operator, target: Value, v: real)
    requires !op.IN? && !target.TextValue?
    ensures NumberVerdict(op, One(RealValue(ReadReal(target))), RealValue(v)) == SqlHolds(op, RealValue(v), target) <==>
            FloatAgrees(op, target, v)
  {}

  /** Where a constraint means what SQL says it means. */
  predicate Exact(kind: Kind, op: Operator, target: Target, v: Value)
    requires TypeOk(kind, v) && TargetOk(kind, op, target)
  {
    match kind
    case Boolean => BooleanAgrees(op, target.value, v)
    case Integer =>
      if op.IN? then MembersAgree(target.values, v.i) else IntegerAgrees(op, target.value, v.i)
    case Float => FloatAgrees(op, target.value, v.r)
    case TextColumn =>
      if op.IN? then forall t :: t in target.values ==> NoEmbeddedZero(t.t)
      else if Ordered(op) then ZeroFree(v.t) && ZeroFree(target.value.t) && OrderedAgrees(op, v.t, target.value.t)
      else NoEmbeddedZero(target.value.t)
  }

  lemma VerdictIsSql(kind: Kind, op: Operator, target: Target, v: Value)
    requires TypeOk(kind, v) && TargetOk(kind, op, target) && Exact(kind, op, target, v)
    ensures ValueVerdict(kind, op, target, v) == Some(Satisfies(op, target, v))
  {
    match kind {
      case Boolean => BooleanExactIff(op, target.value, v);
      case Integer =>
        if op.IN? {
          IntegerMembershipExactIff(target.values, v.i);
        } else {
          IntegerExactIff(op, target.value, v.i);
        }
      case Float => FloatExactIff(op, target.value, v.r);
      case TextColumn =>
        if op.IN? {
          MembershipExact(v.t, target.values);
          TextMembership(v, target.values);
        } else if Ordered(op) {
          OrderedExactIff(op, v.t, target.value.t);
        } else {
          EqualityExactIff(target.value.t);
          TextCompareZero(v.t, target.value.t);
        }
    }
  }

  /** The text, or every text of the list, is without zero bytes. */
  predicate PlainText(op: Operator, target: Target)
    requires TargetOk(TextColumn, op, target)
  {
    if op.IN? then forall t :: t in target.values ==> ZeroFree(t.t) else ZeroFree(target.value.t)
  }

  /** The condition is exact itself: on numbers, and on text without zero bytes, nothing else agrees with SQL. */
  lemma ExactIff(kind: Kind, op: Operator, target: Target, v: Value)
    requires TypeOk(kind, v) && TargetOk(kind, op, target)
    requires kind.TextColumn? ==> ZeroFree(v.t) && PlainText(op, target)
    ensures ValueVerdict(kind, op, target, v) == Some(Satisfies(op, target, v)) <==> Exact(kind, op, target, v)
  {
    if Exact(kind, op, target, v) {
      VerdictIsSql(kind, op, target, v);
    }
    match kind {
      case Boolean => BooleanExactIff(op, target.value, v);
      case Integer =>
        if op.IN? {
          IntegerMembershipExactIff(target.values, v.i);
        } else {
          IntegerExactIff(op, target.value, v.i);
        }
      case Float => FloatExactIff(op, target.value, v.r);
      case TextColumn =>
        if Ordered(op) {
          OrderedExactIff(op, v.t, target.value.t);
        }
    }
  }

  lemma TextMembership(v: Value, targets: seq<Value>)
    requires v.TextValue? && forall t :: t in targets ==> t.TextValue?
    ensures v in targets <==> exists t :: t in targets && SqlHolds(EQ, v, t)
  {
    forall t | t in targets
      ensures SqlHolds(EQ, v, t) <==> v == t
    {
      TextCompareZero(v.t, t.t);
    }
  }

  /** Twelve bytes: "at least the empty text" is an error instead of true. */
  lemma TwelveByteCounterexample()
    ensures exists s: Text ::
              |s| == 12 && Holds(GE, TextCompare(s, [])) && TextOrdered(GE, ViewOf(s), LongOf(s), []).None?
  {
    var s: Text := seq(12, _ => 97);
    assert |s| == 12 && Holds(GE, TextCompare(s, [])) && TextOrdered(GE, ViewOf(s), LongOf(s), []).None?;
  }

  /** Thirteen bytes against the same thirteen and one more: found greater or equal, though it is less. */
  lemma LongPrefixCounterexample()
    ensures exists s: Text, t: Text :: TextCompare(s, t) < 0 && TextOrdered(GE, ViewOf(s), LongOf(s), t) == Some(true)
  {
    var s: Text := seq(13, _ => 97);
    var t := s + [97];
    StrncmpStored(s, t);
    assert t[..|s|] == s;
    assert TextCompare(s, t) < 0 && TextOrdered(GE, ViewOf(s), LongOf(s), t) == Some(true);
  }
}
