/** SQL values, the comparison SQLite gives them, and the C string comparison the filters use. */
module SqlValue {

  type Octet = x: int | 0 <= x < 256

  /** TEXT as its bytes. */
  type Text = seq<Octet>

  const I64_MAX := 0x7FFF_FFFF_FFFF_FFFF
  const I64_MIN := -0x8000_0000_0000_0000

  type I64 = x: int | I64_MIN <= x <= I64_MAX

  const TWO_31 := 0x8000_0000
  const TWO_32 := 0x1_0000_0000

  /** A 64-bit integer stored in a 32-bit int. */
  function Narrow(x: int): (r: int)
    ensures -TWO_31 <= r < TWO_31
    ensures -TWO_31 <= x < TWO_31 ==> r == x
    ensures r == 0 <==> x % TWO_32 == 0
  {
    (x + TWO_31) % TWO_32 - TWO_31
  }

  datatype Value =
    | Null
    | IntValue(i: I64)
    | RealValue(r: real)
    | TextValue(t: Text)

  /** The constraint operators of partition key and metadata columns. */
  datatype Operator = EQ | GT | LE | LT | GE | NE | IN

  function Head(s: Text): Octet {
    if s == [] then 0 else s[0]
  }

  function Tail(s: Text): Text {
    if s == [] then [] else s[1..]
  }

  /** C's `strncmp` on zero-terminated byte strings: it stops at a zero byte. */
  function Strncmp(a: Text, b: Text, n: nat): int
    decreases n
  {
    if n == 0 then 0
    else if Head(a) != Head(b) then Head(a) - Head(b)
    else if Head(a) == 0 then 0
    else Strncmp(Tail(a), Tail(b), n - 1)
  }

  /** The order of the BINARY collation: first differing byte, then length. */
  function TextCompare(a: Text, b: Text): int {
    if a == [] && b == [] then 0
    else if a == [] then -1
    else if b == [] then 1
    else if a[0] != b[0] then a[0] - b[0]
    else TextCompare(a[1..], b[1..])
  }

  predicate Holds(op: Operator, order: int) {
    match op
    case EQ => order == 0
    case GT => order > 0
    case LE => order <= 0
    case LT => order < 0
    case GE => order >= 0
    case NE => order != 0
    case IN => order == 0
  }

  /** A real read as a 64-bit integer: cut towards zero, and at the ends of the range. */
  function Truncate(r: real): I64 {
    if r <= I64_MIN as real then I64_MIN
    else if r >= I64_MAX as real then I64_MAX
    else if r >= 0.0 then r.Floor
    else -((-r).Floor)
  }

  /** A number or NULL read as a 64-bit integer. */
  function ReadInt(v: Value): I64
    requires !v.TextValue?
  {
    match v
    case Null => 0
    case IntValue(i) => i
    case RealValue(r) => Truncate(r)
  }

  /** A number or NULL read as a real. */
  function ReadReal(v: Value): real
    requires !v.TextValue?
  {
    match v
    case Null => 0.0
    case IntValue(i) => i as real
    case RealValue(r) => r
  }

  function Number(v: Value): real
    requires v.IntValue? || v.RealValue?
  {
    match v
    case IntValue(i) => i as real
    case RealValue(r) => r
  }

  /** The order of two values that are not NULL: numbers come before text. */
  function ValueCompare(a: Value, b: Value): int
    requires !a.Null? && !b.Null?
  {
    if a.TextValue? then
      if b.TextValue? then TextCompare(a.t, b.t) else 1
    else if b.TextValue? then -1
    else if Number(a) < Number(b) then -1
    else if Number(a) == Number(b) then 0
    else 1
  }

  /** Whether SQLite finds `stored op target` true; NULL is neither equal nor unequal to anything. */
  predicate SqlHolds(op: Operator, stored: Value, target: Value) {
    !stored.Null? && !target.Null? && Holds(op, ValueCompare(stored, target))
  }

  // ---- what the comparisons and conversions mean ----

  /** The texts part at some byte, the smaller in `a`, or `a` ends there first. */
  ghost predicate TextBefore(a: Text, b: Text) {
    exists k :: 0 <= k <= |a| && k < |b| && a[..k] == b[..k] && (k == |a| || a[k] < b[k])
  }

  lemma TextBeforeTail(a: Text, b: Text)
    requires a != [] && b != [] && a[0] == b[0]
    ensures TextBefore(a, b) <==> TextBefore(a[1..], b[1..])
  {
    var x, y := a[1..], b[1..];
    if TextBefore(a, b) {
      var k :| 0 <= k <= |a| && k < |b| && a[..k] == b[..k] && (k == |a| || a[k] < b[k]);
      assert x[..k - 1] == a[..k][1..] && y[..k - 1] == b[..k][1..];
    }
    if TextBefore(x, y) {
      var k :| 0 <= k <= |x| && k < |y| && x[..k] == y[..k] && (k == |x| || x[k] < y[k]);
      assert a[..k + 1] == [a[0]] + x[..k] && b[..k + 1] == [b[0]] + y[..k];
    }
  }

  lemma {:induction false} TextCompareMeans(a: Text, b: Text)
    ensures TextCompare(a, b) < 0 <==> TextBefore(a, b)
    ensures TextCompare(a, b) == 0 <==> a == b
    ensures TextCompare(a, b) > 0 <==> TextBefore(b, a)
  {
    TextCompareZero(a, b);
    if a == [] || b == [] || a[0] != b[0] {
      assert a[..0] == b[..0];
    } else {
      TextBeforeTail(a, b);
      TextBeforeTail(b, a);
      TextCompareMeans(a[1..], b[1..]);
    }
  }

  /** The order of values that are not NULL: numbers, by what they are, and then texts. */
  ghost predicate Before(a: Value, b: Value)
    requires !a.Null? && !b.Null?
  {
    match (a, b)
    case (IntValue(x), IntValue(y)) => x < y
    case (IntValue(x), RealValue(y)) => x as real < y
    case (RealValue(x), IntValue(y)) => x < y as real
    case (RealValue(x), RealValue(y)) => x < y
    case (TextValue(x), TextValue(y)) => TextBefore(x, y)
    case (TextValue(_), _) => false
    case _ => true
  }

  /** What each operator asks; NULL answers none of them, on either side. */
  lemma SqlHoldsMeans(op: Operator, stored: Value, target: Value)
    ensures stored.Null? || target.Null? ==> !SqlHolds(op, stored, target)
    ensures !stored.Null? && !target.Null? ==>
              (SqlHolds(op, stored, target) <==>
               match op
               case GT => Before(target, stored)
               case LT => Before(stored, target)
               case GE => !Before(stored, target)
               case LE => !Before(target, stored)
               case NE => Before(stored, target) || Before(target, stored)
               case EQ => !Before(stored, target) && !Before(target, stored)
               case IN => !Before(stored, target) && !Before(target, stored))
  {
    if stored.TextValue? && target.TextValue? {
      TextCompareMeans(stored.t, target.t);
    }
  }

  /** The low 32 bits, read as a signed number. */
  lemma NarrowMeans(x: int)
    ensures -2147483648 <= Narrow(x) < 2147483648 && (x - Narrow(x)) % 4294967296 == 0
  {
    var q := (x + 2147483648) / 4294967296;
    assert x - Narrow(x) == 4294967296 * q;
  }

  /** A real in the range of 64-bit integers is cut towards zero, by less than one; one outside is the nearer end. */
  lemma TruncateMeans(r: real)
    ensures 0.0 <= r < 9223372036854775807.0 ==>
              0 <= Truncate(r) && Truncate(r) as real <= r < Truncate(r) as real + 1.0
    ensures -9223372036854775808.0 < r <= 0.0 ==>
              Truncate(r) <= 0 && Truncate(r) as real - 1.0 < r <= Truncate(r) as real
    ensures r >= 9223372036854775807.0 ==> Truncate(r) == 9223372036854775807
    ensures r <= -9223372036854775808.0 ==> Truncate(r) == -9223372036854775808
  {}

  // ---- what strncmp decides ----

  predicate ZeroFree(s: Text) {
    forall i :: 0 <= i < |s| ==> s[i] != 0
  }

  /** The C string at the start of a text. */
  function UpToZero(s: Text): (r: Text)
    ensures ZeroFree(r)
  {
    if Head(s) == 0 then [] else [s[0]] + UpToZero(s[1..])
  }

  lemma {:induction false} TextCompareZero(a: Text, b: Text)
    ensures TextCompare(a, b) == 0 <==> a == b
  {
    if a != [] && b != [] && a[0] == b[0] {
      TextCompareZero(a[1..], b[1..]);
      assert a == [a[0]] + a[1..] && b == [b[0]] + b[1..];
    }
  }

  /** Comparing all the bytes of texts of one length compares their C strings. */
  lemma {:induction false} StrncmpWhole(a: Text, b: Text)
    requires |a| == |b|
    ensures Strncmp(a, b, |a|) == 0 <==> UpToZero(a) == UpToZero(b)
  {
    if a != [] {
      assert a[0] != 0 ==> UpToZero(a)[0] == a[0] && UpToZero(a)[1..] == UpToZero(a[1..]);
      assert b[0] != 0 ==> UpToZero(b)[0] == b[0] && UpToZero(b)[1..] == UpToZero(b[1..]);
      if a[0] == b[0] != 0 {
        StrncmpWhole(a[1..], b[1..]);
      }
    }
  }

  /** Equal strings have equal prefixes, so a differing prefix settles the comparison. */
  lemma {:induction false} StrncmpShorter(a: Text, b: Text, m: nat, n: nat)
    requires m <= n && Strncmp(a, b, n) == 0
    ensures Strncmp(a, b, m) == 0
    decreases m
  {
    if m > 0 && Head(a) == Head(b) && Head(a) != 0 {
      StrncmpShorter(Tail(a), Tail(b), m - 1, n - 1);
    }
  }

  /** Bytes past the compared length do not matter. */
  lemma {:induction false} StrncmpPrefix(a: Text, a': Text, b: Text, n: nat)
    requires n <= |a| && n <= |a'| && a[..n] == a'[..n]
    ensures Strncmp(a, b, n) == Strncmp(a', b, n)
    decreases n
  {
    if n > 0 {
      assert a[..n][0] == a'[..n][0];
      assert a[1..][..n - 1] == a[..n][1..] && a'[1..][..n - 1] == a'[..n][1..];
      if Head(a) == Head(b) && Head(a) != 0 {
        StrncmpPrefix(a[1..], a'[1..], b[1..], n - 1);
      }
    }
  }

  predicate SameSign(x: int, y: int) {
    (x < 0 <==> y < 0) && (x > 0 <==> y > 0)
  }

  predicate ProperPrefix(a: Text, b: Text) {
    |a| < |b| && a == b[..|a|]
  }

  /** Comparing only the common length, then the lengths, is the collation order. */
  lemma {:induction false} StrncmpCommon(a: Text, b: Text, n: nat)
    requires n == if |a| < |b| then |a| else |b|
    requires ZeroFree(a) && ZeroFree(b)
    ensures SameSign(TextCompare(a, b), if Strncmp(a, b, n) == 0 then |a| - |b| else Strncmp(a, b, n))
    decreases n
  {
    if n > 0 && a[0] == b[0] {
      StrncmpCommon(a[1..], b[1..], n - 1);
    }
  }

  lemma PrefixHead(a: Text, b: Text)
    ensures ProperPrefix(a, b) && a != [] ==> b != [] && a[0] == b[0]
  {
    if ProperPrefix(a, b) && a != [] {
      assert a[0] == b[..|a|][0];
    }
  }

  /**
   Comparing the stored text's full length is the collation order, except that a proper prefix
   of the target is called equal to it.
   */
  lemma {:induction false} StrncmpStored(a: Text, b: Text)
    requires ZeroFree(a) && ZeroFree(b)
    ensures ProperPrefix(a, b) ==> Strncmp(a, b, |a|) == 0 && TextCompare(a, b) < 0
    ensures !ProperPrefix(a, b) ==> SameSign(TextCompare(a, b), Strncmp(a, b, |a|))
  {
    if a != [] && b != [] && a[0] == b[0] {
      StrncmpStored(a[1..], b[1..]);
      assert ProperPrefix(a, b) <==> ProperPrefix(a[1..], b[1..]) by {
        if ProperPrefix(a, b) {
          assert a[1..] == b[..|a|][1..] == b[1..][..|a| - 1];
        }
        if ProperPrefix(a[1..], b[1..]) {
          assert a == [a[0]] + a[1..] && b[..|a|] == [b[0]] + b[1..][..|a| - 1];
        }
      }
    } else {
      PrefixHead(a, b);
    }
  }
}
