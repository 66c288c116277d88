/**
 Bitmaps that keep eight slots to a byte: a chunk's validity bitmap, the boolean metadata
 column of a chunk, and the candidate and taken bitmaps of a k-nearest-neighbour query.
 `Bits` is the meaning of a bitmap: one boolean per slot.
 */
module Bitmap {

  type Byte = bv8

  const CHAR_BIT := 8

  predicate BitOf(x: Byte, j: nat)
    requires j < CHAR_BIT
  {
    (x >> j) & 1 == 1
  }

  function WithBit(x: Byte, j: nat, value: bool): Byte
    requires j < CHAR_BIT
  {
    if value then x | ((1 as Byte) << j) else x & !((1 as Byte) << j)
  }

  lemma EightCases(j: nat)
    requires j < CHAR_BIT
    ensures j == 0 || j == 1 || j == 2 || j == 3 || j == 4 || j == 5 || j == 6 || j == 7
  {}

  /** Writing one bit of a byte leaves its seven neighbours alone. */
  lemma WithBitOnly(x: Byte, j: nat, value: bool, i: nat)
    requires j < CHAR_BIT && i < CHAR_BIT
    ensures BitOf(WithBit(x, j, value), i) == if i == j then value else BitOf(x, i)
  {
    EightCases(j);
    EightCases(i);
  }

  lemma AndBit(x: Byte, y: Byte, i: nat)
    requires i < CHAR_BIT
    ensures BitOf(x & y, i) == (BitOf(x, i) && BitOf(y, i))
  {
    if i < 4 {
      assert i == 0 || i == 1 || i == 2 || i == 3;
    } else {
      assert i == 4 || i == 5 || i == 6 || i == 7;
    }
  }

  lemma ZeroBit(i: nat)
    requires i < CHAR_BIT
    ensures !BitOf(0, i)
  {
    EightCases(i);
  }

  /** The byte skipped by the free-slot search is exactly the one with no clear bit. */
  lemma FullByte(x: Byte)
    ensures x == 0xFF <==> forall j: nat :: j < CHAR_BIT ==> BitOf(x, j)
  {
    if forall j: nat :: j < CHAR_BIT ==> BitOf(x, j) {
      assert BitOf(x, 0) && BitOf(x, 1) && BitOf(x, 2) && BitOf(x, 3);
      assert BitOf(x, 4) && BitOf(x, 5) && BitOf(x, 6) && BitOf(x, 7);
    }
    forall j: nat | x == 0xFF && j < CHAR_BIT
      ensures BitOf(x, j)
    {
      EightCases(j);
    }
  }

  /** The bitmap as one boolean per slot. */
  function Bits(s: seq<Byte>): (r: seq<bool>)
    ensures |r| == CHAR_BIT * |s|
  {
    seq(CHAR_BIT * |s|, i requires 0 <= i < CHAR_BIT * |s| => BitOf(s[i / CHAR_BIT], i % CHAR_BIT))
  }

  /** The bitmap with one slot rewritten. */
  function Put(s: seq<Byte>, position: nat, value: bool): (r: seq<Byte>)
    requires position < CHAR_BIT * |s|
    ensures |r| == |s|
    ensures Bits(r) == Bits(s)[position := value]
  {
    var at := position / CHAR_BIT;
    var r := s[at := WithBit(s[at], position % CHAR_BIT, value)];
    assert Bits(r) == Bits(s)[position := value] by {
      forall i | 0 <= i < CHAR_BIT * |s|
        ensures Bits(r)[i] == Bits(s)[position := value][i]
      {
        WithBitOnly(s[at], position % CHAR_BIT, value, i % CHAR_BIT);
      }
    }
    r
  }

  /** A zero-filled blob. */
  function Zeros(n: nat): (r: seq<Byte>)
    ensures |r| == n
    ensures forall i :: 0 <= i < CHAR_BIT * n ==> !Bits(r)[i]
  {
    var r := seq(n, _ => 0 as Byte);
    assert forall i :: 0 <= i < CHAR_BIT * n ==> !Bits(r)[i] by {
      forall i | 0 <= i < CHAR_BIT * n
        ensures !Bits(r)[i]
      {
        ZeroBit(i % CHAR_BIT);
      }
    }
    r
  }

  predicate GetBit(bitmap: array<Byte>, position: nat): (set_: bool)
    requires position < CHAR_BIT * bitmap.Length
    reads bitmap
    ensures set_ == Bits(bitmap[..])[position]
  {
    BitOf(bitmap[position / CHAR_BIT], position % CHAR_BIT)
  }

  method SetBit(bitmap: array<Byte>, position: nat, value: bool)
    requires position < CHAR_BIT * bitmap.Length
    modifies bitmap
    ensures Bits(bitmap[..]) == old(Bits(bitmap[..]))[position := value]
  {
    ghost var was := bitmap[..];
    var at := position / CHAR_BIT;
    bitmap[at] := WithBit(bitmap[at], position % CHAR_BIT, value);
    assert bitmap[..] == Put(was, position, value);
  }

  lemma AndBits(x: seq<Byte>, y: seq<Byte>, r: seq<Byte>)
    requires |x| == |y| == |r|
    requires forall j :: 0 <= j < |x| ==> r[j] == x[j] & y[j]
    ensures forall i :: 0 <= i < CHAR_BIT * |x| ==> Bits(r)[i] == (Bits(x)[i] && Bits(y)[i])
  {
    forall i | 0 <= i < CHAR_BIT * |x|
      ensures Bits(r)[i] == (Bits(x)[i] && Bits(y)[i])
    {
      AndBit(x[i / CHAR_BIT], y[i / CHAR_BIT], i % CHAR_BIT);
    }
  }

  method AndInPlace(base: array<Byte>, other: array<Byte>)
    requires base != other && base.Length == other.Length
    modifies base
    ensures forall i :: 0 <= i < CHAR_BIT * base.Length ==>
              Bits(base[..])[i] == (old(Bits(base[..]))[i] && Bits(other[..])[i])
  {
    ghost var was := base[..];
    for i := 0 to base.Length
      invariant forall j :: 0 <= j < i ==> base[j] == was[j] & other[j]
      invariant forall j :: i <= j < base.Length ==> base[j] == was[j]
    {
      base[i] := base[i] & other[i];
    }
    AndBits(was, other[..], base[..]);
  }

  method Clear(bitmap: array<Byte>)
    modifies bitmap
    ensures forall i :: 0 <= i < CHAR_BIT * bitmap.Length ==> !Bits(bitmap[..])[i]
  {
    for i := 0 to bitmap.Length
      invariant forall j :: 0 <= j < i ==> bitmap[j] == 0
    {
      bitmap[i] := 0;
    }
    assert bitmap[..] == Zeros(bitmap.Length);
  }

  method Copy(base: array<Byte>, from: seq<Byte>)
    requires base.Length == |from|
    modifies base
    ensures base[..] == from
  {
    for i := 0 to base.Length
      invariant forall j :: 0 <= j < i ==> base[j] == from[j]
    {
      base[i] := from[i];
    }
  }

  /** The least clear slot of a validity bitmap, or -1 when every slot is taken. */
  method FirstClear(validity: seq<Byte>) returns (offset: int)
    ensures -1 <= offset < CHAR_BIT * |validity|
    ensures offset == -1 ==> forall k :: 0 <= k < CHAR_BIT * |validity| ==> Bits(validity)[k]
    ensures offset >= 0 ==> !Bits(validity)[offset]
    ensures offset >= 0 ==> forall k :: 0 <= k < offset ==> Bits(validity)[k]
  {
    for i := 0 to |validity|
      invariant forall k :: 0 <= k < CHAR_BIT * i ==> Bits(validity)[k]
    {
      FullByte(validity[i]);
      if validity[i] == 0xFF {
        assert forall k :: CHAR_BIT * i <= k < CHAR_BIT * (i + 1) ==> k / CHAR_BIT == i;
        continue;
      }
      for j := 0 to CHAR_BIT
        invariant forall k :: 0 <= k < CHAR_BIT * i + j ==> Bits(validity)[k]
        invariant forall k: nat :: k < j ==> BitOf(validity[i], k)
      {
        assert (CHAR_BIT * i + j) / CHAR_BIT == i && (CHAR_BIT * i + j) % CHAR_BIT == j;
        if !BitOf(validity[i], j) {
          return CHAR_BIT * i + j;
        }
      }
    }
    return -1;
  }
}
