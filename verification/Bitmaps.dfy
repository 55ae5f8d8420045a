/** Bitmaps of bytes, as block groups keep them: bit i is bit i % 8 of byte i / 8. */
module Bitmaps {
  type Bitmap = seq<bv8>

  function BitMask(k: nat): bv8
    requires k < 8
  {
    1 << k
  }

  predicate Has(x: bv8, k: nat)
    requires k < 8
  {
    x & BitMask(k) != 0
  }

  function With(x: bv8, k: nat): bv8
    requires k < 8
  {
    x | BitMask(k)
  }

  function Without(x: bv8, k: nat): bv8
    requires k < 8
  {
    x & !BitMask(k)
  }

  predicate Bit(b: Bitmap, i: nat)
    requires i / 8 < |b|
  {
    Has(b[i / 8], i % 8)
  }

  function SetBit(b: Bitmap, i: nat): (r: Bitmap)
    requires i / 8 < |b|
    ensures |r| == |b|
  {
    b[i / 8 := With(b[i / 8], i % 8)]
  }

  function ClearBit(b: Bitmap, i: nat): (r: Bitmap)
    requires i / 8 < |b|
    ensures |r| == |b|
  {
    b[i / 8 := Without(b[i / 8], i % 8)]
  }

  lemma MaskBits(x: bv8, k: nat, j: nat)
    requires k < 8 && j < 8
    ensures Has(With(x, k), j) <==> j == k || Has(x, j)
    ensures Has(Without(x, k), j) <==> j != k && Has(x, j)
    ensures !Has(x, k) ==> Without(With(x, k), k) == x
  {
    hide BitMask;
    MaskIs(k);
    MaskIs(j);
  }

  lemma MaskIs(k: nat)
    requires k < 8
    ensures BitMask(k) == (match k case 0 => 0x01 case 1 => 0x02 case 2 => 0x04 case 3 => 0x08
                                   case 4 => 0x10 case 5 => 0x20 case 6 => 0x40 case _ => 0x80)
  {
  }

  lemma SamePlace(i: nat, j: nat)
    ensures i / 8 == j / 8 && i % 8 == j % 8 <==> i == j
  {
  }

  /** Setting or clearing a bit leaves every other bit alone. */
  lemma OneBit(b: Bitmap, i: nat, j: nat)
    requires i / 8 < |b| && j / 8 < |b|
    ensures Bit(SetBit(b, i), j) <==> j == i || Bit(b, j)
    ensures Bit(ClearBit(b, i), j) <==> j != i && Bit(b, j)
  {
    hide Has, With, Without;
    SamePlace(i, j);
    MaskBits(b[i / 8], i % 8, j % 8);
  }

  lemma ClearUndoesSet(b: Bitmap, i: nat)
    requires i / 8 < |b| && !Bit(b, i)
    ensures ClearBit(SetBit(b, i), i) == b
  {
    hide Has, With, Without;
    MaskBits(b[i / 8], i % 8, i % 8);
  }

  /** The number of clear bits among the first n. */
  function Clear(b: Bitmap, n: nat): (c: nat)
    requires n <= 8 * |b|
    ensures c <= n
  {
    if n == 0 then 0 else Clear(b, n - 1) + if Bit(b, n - 1) then 0 else 1
  }

  lemma {:induction false} ClearAfterSet(b: Bitmap, i: nat, n: nat)
    requires n <= 8 * |b| && i / 8 < |b| && !Bit(b, i)
    ensures Clear(SetBit(b, i), n) == Clear(b, n) - if i < n then 1 else 0
    decreases n
  {
    hide Bit, SetBit;
    if n > 0 {
      ClearAfterSet(b, i, n - 1);
      OneBit(b, i, n - 1);
    }
  }

  lemma {:induction false} ClearAfterClear(b: Bitmap, i: nat, n: nat)
    requires n <= 8 * |b| && i / 8 < |b| && Bit(b, i)
    ensures Clear(ClearBit(b, i), n) == Clear(b, n) + if i < n then 1 else 0
    decreases n
  {
    hide Bit, ClearBit;
    if n > 0 {
      ClearAfterClear(b, i, n - 1);
      OneBit(b, i, n - 1);
    }
  }

  /** With no clear bit counted there is none, and the other way round. */
  lemma {:induction false} ClearNone(b: Bitmap, n: nat)
    requires n <= 8 * |b|
    ensures Clear(b, n) == 0 <==> forall i :: 0 <= i < n ==> i / 8 < |b| && Bit(b, i)
    decreases n
  {
    hide Bit;
    if n > 0 {
      ClearNone(b, n - 1);
    }
  }
}
