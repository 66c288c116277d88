/**
 The distance of bit vectors: a byte-table loop, a 64-bit-word loop used when the dimension allows,
 and both equal to the number of differing coordinates; with binary quantisation feeding them.
 */
module Hamming {
  import opened Bitmap

  /** Set bits of every byte value, sixteen to a row. */
  const HAMDIST_TABLE: seq<seq<nat>> := [
    [0, 1, 1, 2, 1, 2, 2, 3, 1, 2, 2, 3, 2, 3, 3, 4],
    [1, 2, 2, 3, 2, 3, 3, 4, 2, 3, 3, 4, 3, 4, 4, 5],
    [1, 2, 2, 3, 2, 3, 3, 4, 2, 3, 3, 4, 3, 4, 4, 5],
    [2, 3, 3, 4, 3, 4, 4, 5, 3, 4, 4, 5, 4, 5, 5, 6],
    [1, 2, 2, 3, 2, 3, 3, 4, 2, 3, 3, 4, 3, 4, 4, 5],
    [2, 3, 3, 4, 3, 4, 4, 5, 3, 4, 4, 5, 4, 5, 5, 6],
    [2, 3, 3, 4, 3, 4, 4, 5, 3, 4, 4, 5, 4, 5, 5, 6],
    [3, 4, 4, 5, 4, 5, 5, 6, 4, 5, 5, 6, 5, 6, 6, 7],
    [1, 2, 2, 3, 2, 3, 3, 4, 2, 3, 3, 4, 3, 4, 4, 5],
    [2, 3, 3, 4, 3, 4, 4, 5, 3, 4, 4, 5, 4, 5, 5, 6],
    [2, 3, 3, 4, 3, 4, 4, 5, 3, 4, 4, 5, 4, 5, 5, 6],
    [3, 4, 4, 5, 4, 5, 5, 6, 4, 5, 5, 6, 5, 6, 6, 7],
    [2, 3, 3, 4, 3, 4, 4, 5, 3, 4, 4, 5, 4, 5, 5, 6],
    [3, 4, 4, 5, 4, 5, 5, 6, 4, 5, 5, 6, 5, 6, 6, 7],
    [3, 4, 4, 5, 4, 5, 5, 6, 4, 5, 5, 6, 5, 6, 6, 7],
    [4, 5, 5, 6, 5, 6, 6, 7, 5, 6, 6, 7, 6, 7, 7, 8]
  ]

  const NIBBLE: seq<nat> := [0, 1, 1, 2, 1, 2, 2, 3, 1, 2, 2, 3, 2, 3, 3, 4]

  function One(b: bool): (r: nat)
    ensures r < 2
  {
    if b then 1 else 0
  }

  function Differ(p: bool, q: bool): nat {
    One(p != q)
  }

  /** The number of positions below `n` at which two bit strings differ. */
  function Differences(x: seq<bool>, y: seq<bool>, n: nat): nat
    requires n <= |x| && n <= |y|
  {
    if n == 0 then 0 else Differences(x, y, n - 1) + Differ(x[n - 1], y[n - 1])
  }

  function Popcount(x: Byte): nat {
    One(BitOf(x, 0)) + One(BitOf(x, 1)) + One(BitOf(x, 2)) + One(BitOf(x, 3)) +
    One(BitOf(x, 4)) + One(BitOf(x, 5)) + One(BitOf(x, 6)) + One(BitOf(x, 7))
  }

  // ---- the table ----

  lemma SixteenCases(n: nat)
    requires n < 16
    ensures n == 0 || n == 1 || n == 2 || n == 3 || n == 4 || n == 5 || n == 6 || n == 7
         || n == 8 || n == 9 || n == 10 || n == 11 || n == 12 || n == 13 || n == 14 || n == 15
  {}

  lemma TableRow(high: nat)
    requires high < 16
    ensures |HAMDIST_TABLE| == 16 && |HAMDIST_TABLE[high]| == 16 && |NIBBLE| == 16
    ensures forall low :: 0 <= low < 16 ==> HAMDIST_TABLE[high][low] == NIBBLE[high] + NIBBLE[low]
  {
    SixteenCases(high);
    forall low | 0 <= low < 16
      ensures HAMDIST_TABLE[high][low] == NIBBLE[high] + NIBBLE[low]
    {
      SixteenCases(low);
    }
  }

  lemma NibbleBits(b0: nat, b1: nat, b2: nat, b3: nat)
    requires b0 < 2 && b1 < 2 && b2 < 2 && b3 < 2
    ensures |NIBBLE| == 16 && NIBBLE[b0 + 2 * b1 + 4 * b2 + 8 * b3] == b0 + b1 + b2 + b3
  {}

  lemma ByteValue(x: Byte)
    ensures x as int == One(BitOf(x, 0)) + 2 * One(BitOf(x, 1)) + 4 * One(BitOf(x, 2)) + 8 * One(BitOf(x, 3)) +
                        16 * (One(BitOf(x, 4)) + 2 * One(BitOf(x, 5)) + 4 * One(BitOf(x, 6)) + 8 * One(BitOf(x, 7)))
  {}

  function TableAt(n: nat): (r: nat)
    requires n < 256
    ensures |NIBBLE| == 16 && r == NIBBLE[n / 16] + NIBBLE[n % 16]
  {
    TableRow(n / 16);
    HAMDIST_TABLE[n / 16][n % 16]
  }

  lemma Nibbles(n: nat, low: nat, high: nat)
    requires low < 16 && n == low + 16 * high
    ensures n / 16 == high && n % 16 == low
  {}

  lemma TableOfBits(n: nat, b0: nat, b1: nat, b2: nat, b3: nat, b4: nat, b5: nat, b6: nat, b7: nat)
    requires b0 < 2 && b1 < 2 && b2 < 2 && b3 < 2 && b4 < 2 && b5 < 2 && b6 < 2 && b7 < 2
    requires n == b0 + 2 * b1 + 4 * b2 + 8 * b3 + 16 * (b4 + 2 * b5 + 4 * b6 + 8 * b7)
    ensures n < 256 && TableAt(n) == b0 + b1 + b2 + b3 + b4 + b5 + b6 + b7
  {
    hide NIBBLE, HAMDIST_TABLE;
    Nibbles(n, b0 + 2 * b1 + 4 * b2 + 8 * b3, b4 + 2 * b5 + 4 * b6 + 8 * b7);
    NibbleBits(b0, b1, b2, b3);
    NibbleBits(b4, b5, b6, b7);
  }

  /** The table holds the number of set bits of every byte. */
  lemma TableIsPopcount(x: Byte)
    ensures TableAt(x as int) == Popcount(x)
  {
    hide BitOf, TableAt, NIBBLE, HAMDIST_TABLE, One;
    ByteValue(x);
    TableOfBits(x as int,
      One(BitOf(x, 0)), One(BitOf(x, 1)), One(BitOf(x, 2)), One(BitOf(x, 3)),
      One(BitOf(x, 4)), One(BitOf(x, 5)), One(BitOf(x, 6)), One(BitOf(x, 7)));
  }

  lemma XorBit(x: Byte, y: Byte, i: nat)
    requires i < CHAR_BIT
    ensures One(BitOf(x ^ y, i)) == Differ(BitOf(x, i), BitOf(y, i))
  {
    EightCases(i);
  }

  /** Differing bits of two equally long byte strings. */
  function BitDistance(a: seq<Byte>, b: seq<Byte>): nat
    requires |a| == |b|
  {
    Differences(Bits(a), Bits(b), CHAR_BIT * |a|)
  }

  lemma {:induction false} DifferencesConcat(x: seq<bool>, y: seq<bool>, u: seq<bool>, v: seq<bool>, n: nat)
    requires |x| == |y| && |u| == |v| && n <= |u|
    ensures Differences(x + u, y + v, |x| + n) == Differences(x, y, |x|) + Differences(u, v, n)
  {
    if n == 0 {
      DifferencesPrefix(x, y, u, v, |x|);
    } else {
      DifferencesConcat(x, y, u, v, n - 1);
    }
  }

  lemma {:induction false} DifferencesPrefix(x: seq<bool>, y: seq<bool>, u: seq<bool>, v: seq<bool>, n: nat)
    requires |x| == |y| && n <= |x|
    ensures Differences(x + u, y + v, n) == Differences(x, y, n)
  {
    if n > 0 {
      DifferencesPrefix(x, y, u, v, n - 1);
    }
  }

  lemma BitsConcat(a: seq<Byte>, b: seq<Byte>)
    ensures Bits(a + b) == Bits(a) + Bits(b)
  {}

  lemma DistanceConcat(a: seq<Byte>, b: seq<Byte>, c: seq<Byte>, d: seq<Byte>)
    requires |a| == |b| && |c| == |d|
    ensures BitDistance(a + c, b + d) == BitDistance(a, b) + BitDistance(c, d)
  {
    hide Bits, Differences;
    BitsConcat(a, c);
    BitsConcat(b, d);
    DifferencesConcat(Bits(a), Bits(b), Bits(c), Bits(d), CHAR_BIT * |c|);
  }

  lemma BitsOfOne(x: Byte)
    ensures Bits([x]) == [BitOf(x, 0), BitOf(x, 1), BitOf(x, 2), BitOf(x, 3), BitOf(x, 4), BitOf(x, 5), BitOf(x, 6),
                          BitOf(x, 7)]
  {
    hide BitOf;
    forall i | 0 <= i < CHAR_BIT
      ensures Bits([x])[i] == BitOf(x, i)
    {}
  }

  lemma EightDifferences(x: seq<bool>, y: seq<bool>)
    requires |x| == |y| == 8
    ensures Differences(x, y, 8) ==
              Differ(x[0], y[0]) + Differ(x[1], y[1]) + Differ(x[2], y[2]) + Differ(x[3], y[3]) +
              Differ(x[4], y[4]) + Differ(x[5], y[5]) + Differ(x[6], y[6]) + Differ(x[7], y[7])
  {
    hide Differ;
    assert Differences(x, y, 1) == Differ(x[0], y[0]);
    assert Differences(x, y, 2) == Differ(x[0], y[0]) + Differ(x[1], y[1]);
    assert Differences(x, y, 4) == Differences(x, y, 2) + Differ(x[2], y[2]) + Differ(x[3], y[3]);
    assert Differences(x, y, 6) == Differences(x, y, 4) + Differ(x[4], y[4]) + Differ(x[5], y[5]);
  }

  lemma XorBits(x: Byte, y: Byte)
    ensures Popcount(x ^ y) ==
              Differ(BitOf(x, 0), BitOf(y, 0)) + Differ(BitOf(x, 1), BitOf(y, 1)) +
              Differ(BitOf(x, 2), BitOf(y, 2)) + Differ(BitOf(x, 3), BitOf(y, 3)) +
              Differ(BitOf(x, 4), BitOf(y, 4)) + Differ(BitOf(x, 5), BitOf(y, 5)) +
              Differ(BitOf(x, 6), BitOf(y, 6)) + Differ(BitOf(x, 7), BitOf(y, 7))
  {
    hide BitOf, One, Differ;
    XorBit(x, y, 0);
    XorBit(x, y, 1);
    XorBit(x, y, 2);
    XorBit(x, y, 3);
    XorBit(x, y, 4);
    XorBit(x, y, 5);
    XorBit(x, y, 6);
    XorBit(x, y, 7);
  }

  /** The bits in which two bytes differ are the set bits of their exclusive or. */
  lemma ByteDistance(x: Byte, y: Byte)
    ensures BitDistance([x], [y]) == Popcount(x ^ y)
  {
    hide BitOf, Bits, Differences, Differ, Popcount;
    BitsOfOne(x);
    BitsOfOne(y);
    EightDifferences(Bits([x]), Bits([y]));
    XorBits(x, y);
  }

  /** The byte-table loop. */
  method DistanceHammingU8(a: seq<Byte>, b: seq<Byte>, n: nat) returns (same: nat)
    requires n <= |a| && n <= |b|
    ensures same == BitDistance(a[..n], b[..n])
  {
    hide BitDistance, TableAt, Popcount;
    EmptyDistance(a[..0], b[..0]);
    same := 0;
    for i := 0 to n
      invariant same == BitDistance(a[..i], b[..i])
    {
      same := same + TableAt((a[i] ^ b[i]) as int);
      TableIsPopcount(a[i] ^ b[i]);
      DistancePrefix(a, b, i);
    }
  }

  // ---- the word loop ----

  /** Eight bytes of memory read as one little-endian word. */
  function Word(s: seq<Byte>): bv64
    requires |s| == 8
  {
    (s[0] as bv64) | ((s[1] as bv64) << 8) | ((s[2] as bv64) << 16) | ((s[3] as bv64) << 24) |
    ((s[4] as bv64) << 32) | ((s[5] as bv64) << 40) | ((s[6] as bv64) << 48) | ((s[7] as bv64) << 56)
  }

  function Low(w: bv64): Byte {
    (w & 0xFF) as Byte
  }

  /** The compiler's population count: the set bits of the word, counted byte by byte. */
  function PopcountWord(w: bv64): nat {
    Popcount(Low(w)) + Popcount(Low(w >> 8)) + Popcount(Low(w >> 16)) + Popcount(Low(w >> 24)) +
    Popcount(Low(w >> 32)) + Popcount(Low(w >> 40)) + Popcount(Low(w >> 48)) + Popcount(Low(w >> 56))
  }

  /** The exclusive or of two words holds the exclusive ors of their bytes. */
  lemma WordBytes(s: seq<Byte>, t: seq<Byte>)
    requires |s| == 8 && |t| == 8
    ensures var w := Word(s) ^ Word(t);
      && Low(w) == s[0] ^ t[0] && Low(w >> 8) == s[1] ^ t[1] && Low(w >> 16) == s[2] ^ t[2]
        && Low(w >> 24) == s[3] ^ t[3]
      && Low(w >> 32) == s[4] ^ t[4] && Low(w >> 40) == s[5] ^ t[5] && Low(w >> 48) == s[6] ^ t[6]
        && Low(w >> 56) == s[7] ^ t[7]
  {}

  lemma WordDistance(s: seq<Byte>, t: seq<Byte>)
    requires |s| == 8 && |t| == 8
    ensures BitDistance(s, t) == PopcountWord(Word(s) ^ Word(t))
  {
    hide Popcount, Word, Low, BitDistance;
    WordBytes(s, t);
    DistancePrefix(s, t, 0);
    DistancePrefix(s, t, 1);
    DistancePrefix(s, t, 2);
    DistancePrefix(s, t, 3);
    DistancePrefix(s, t, 4);
    DistancePrefix(s, t, 5);
    DistancePrefix(s, t, 6);
    DistancePrefix(s, t, 7);
    EmptyDistance(s[..0], t[..0]);
    assert s[..8] == s && t[..8] == t;
  }

  lemma EmptyDistance(s: seq<Byte>, t: seq<Byte>)
    requires s == [] && t == []
    ensures BitDistance(s, t) == 0
  {}

  /** One more byte adds the set bits of its exclusive or. */
  lemma DistancePrefix(s: seq<Byte>, t: seq<Byte>, i: nat)
    requires i < |s| && i < |t|
    ensures BitDistance(s[..i + 1], t[..i + 1]) == BitDistance(s[..i], t[..i]) + Popcount(s[i] ^ t[i])
  {
    ByteDistance(s[i], t[i]);
    DistanceConcat(s[..i], t[..i], [s[i]], [t[i]]);
    assert s[..i + 1] == s[..i] + [s[i]] && t[..i + 1] == t[..i] + [t[i]];
  }

  /** The word loop, over the memory of two vectors. */
  method DistanceHammingU64(a: seq<Byte>, b: seq<Byte>, n: nat) returns (same: nat)
    requires 8 * n <= |a| && 8 * n <= |b|
    ensures same == BitDistance(a[..8 * n], b[..8 * n])
  {
    hide BitDistance, PopcountWord, Word;
    EmptyDistance(a[..0], b[..0]);
    same := 0;
    for i := 0 to n
      invariant same == BitDistance(a[..8 * i], b[..8 * i])
    {
      var s, t := a[8 * i..8 * i + 8], b[8 * i..8 * i + 8];
      same := same + PopcountWord(Word(s) ^ Word(t));
      WordDistance(s, t);
      DistanceConcat(a[..8 * i], b[..8 * i], s, t);
      assert a[..8 * (i + 1)] == a[..8 * i] + s && b[..8 * (i + 1)] == b[..8 * i] + t;
    }
  }

  /** Both loops, chosen by the dimension, count the differing bits of the two vectors. */
  method DistanceHamming(a: seq<Byte>, b: seq<Byte>, dimensions: nat) returns (distance: nat)
    requires dimensions % CHAR_BIT == 0
    requires |a| == |b| == dimensions / CHAR_BIT
    ensures distance == BitDistance(a, b)
  {
    hide BitDistance;
    if dimensions % 64 == 0 {
      assert dimensions == 64 * (dimensions / 64);
      distance := DistanceHammingU64(a, b, dimensions / 8 / CHAR_BIT);
    } else {
      distance := DistanceHammingU8(a, b, dimensions / CHAR_BIT);
    }
    assert a[..|a|] == a && b[..|b|] == b;
  }

  // ---- binary quantisation ----

  datatype Vector = Float32(floats: seq<real>) | Int8(ints: seq<int>) | BitVector(dimensions: nat, bytes: seq<Byte>)

  datatype QuantizeError = ZeroLength | NotDivisible | AlreadyBits

  datatype Quantized = Blob(bytes: seq<Byte>) | Error(error: QuantizeError)

  function Dimensions(v: Vector): nat {
    match v
    case Float32(floats) => |floats|
    case Int8(ints) => |ints|
    case BitVector(dimensions, _) => dimensions
  }

  predicate IsPositive(v: Vector, i: nat)
    requires !v.BitVector? && i < Dimensions(v)
  {
    match v
    case Float32(floats) => floats[i] > 0.0
    case Int8(ints) => ints[i] > 0
  }

  /** One bit a coordinate: whether it is positive. */
  function Signs(v: Vector): (r: seq<bool>)
    requires !v.BitVector?
    ensures |r| == Dimensions(v)
  {
    match v
    case Float32(floats) => seq(|floats|, i requires 0 <= i < |floats| => floats[i] > 0.0)
    case Int8(ints) => seq(|ints|, i requires 0 <= i < |ints| => ints[i] > 0)
  }

  /** `out[i / 8] |= res << (i % 8)` over a zero-filled output. */
  method QuantizeBinary(v: Vector) returns (r: Quantized)
    ensures r.Error? <==> Dimensions(v) == 0 || Dimensions(v) % CHAR_BIT != 0 || v.BitVector?
    ensures r == Error(ZeroLength) <==> Dimensions(v) == 0
    ensures r == Error(NotDivisible) <==> Dimensions(v) % CHAR_BIT != 0
    ensures r == Error(AlreadyBits) <==> Dimensions(v) != 0 && Dimensions(v) % CHAR_BIT == 0 && v.BitVector?
    ensures r.Blob? ==> !v.BitVector? && CHAR_BIT * |r.bytes| == Dimensions(v) && Bits(r.bytes) == Signs(v)
  {
    hide Bits;
    var dimensions := Dimensions(v);
    if dimensions == 0 {
      return Error(ZeroLength);
    }
    if dimensions % CHAR_BIT != 0 {
      return Error(NotDivisible);
    }
    if v.BitVector? {
      return Error(AlreadyBits);
    }
    var out := Zeros(dimensions / CHAR_BIT);
    for i := 0 to dimensions
      invariant CHAR_BIT * |out| == dimensions
      invariant forall j :: 0 <= j < dimensions ==> Bits(out)[j] == (j < i && IsPositive(v, j))
    {
      OrBit(out, i, IsPositive(v, i));
      var res: Byte := if IsPositive(v, i) then 1 else 0;
      out := out[i / 8 := out[i / 8] | (res << (i % 8))];
    }
    assert Bits(out) == Signs(v);
    r := Blob(out);
  }

  lemma OrByte(x: Byte, j: nat, value: bool)
    requires j < CHAR_BIT && !BitOf(x, j)
    ensures x | ((if value then 1 as Byte else 0) << j) == WithBit(x, j, value)
  {
    EightCases(j);
  }

  /** Or-ing a bit into a clear position rewrites that position alone. */
  lemma OrBit(s: seq<Byte>, i: nat, value: bool)
    requires i < CHAR_BIT * |s| && !Bits(s)[i]
    ensures Bits(s[i / 8 := s[i / 8] | ((if value then 1 as Byte else 0) << (i % 8))]) == Bits(s)[i := value]
  {
    hide BitOf, WithBit;
    OrByte(s[i / 8], i % 8, value);
    assert Put(s, i, value) == s[i / 8 := WithBit(s[i / 8], i % 8, value)];
  }

  /** The set of coordinates whose positivity differs. */
  function SignChanges(v: Vector, w: Vector): set<nat>
    requires !v.BitVector? && !w.BitVector? && Dimensions(v) == Dimensions(w)
  {
    set i: nat | i < Dimensions(v) && IsPositive(v, i) != IsPositive(w, i)
  }

  function DifferentAt(x: seq<bool>, y: seq<bool>, n: nat): set<nat>
    requires n <= |x| && n <= |y|
  {
    set i: nat | i < n && x[i] != y[i]
  }

  lemma {:induction false} DifferencesIsCardinality(x: seq<bool>, y: seq<bool>, n: nat)
    requires n <= |x| && n <= |y|
    ensures Differences(x, y, n) == |DifferentAt(x, y, n)|
  {
    if n > 0 {
      DifferencesIsCardinality(x, y, n - 1);
      var before := DifferentAt(x, y, n - 1);
      assert DifferentAt(x, y, n) == if x[n - 1] != y[n - 1] then before + {n - 1} else before;
    }
  }

  /** The distance of two quantised vectors is the number of coordinates whose positivity differs. */
  method QuantizedDistance(v: Vector, w: Vector) returns (distance: nat)
    requires Dimensions(v) == Dimensions(w) && Dimensions(v) > 0 && Dimensions(v) % CHAR_BIT == 0
    requires !v.BitVector? && !w.BitVector?
    ensures distance == |SignChanges(v, w)|
  {
    var x := QuantizeBinary(v);
    var y := QuantizeBinary(w);
    assert x.Blob? && y.Blob?;
    distance := DistanceHamming(x.bytes, y.bytes, Dimensions(v));
    DifferencesIsCardinality(Signs(v), Signs(w), Dimensions(v));
    assert DifferentAt(Signs(v), Signs(w), Dimensions(v)) == SignChanges(v, w);
  }
}
