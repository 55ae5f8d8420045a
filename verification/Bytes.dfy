/** Byte buffers and the little-endian field accessors that every on-disk and in-memory
    layout of the system is written with. */
module Bytes {
  import opened Common


  type Byte = x: int | 0 <= x < 256

  function Zeros(n: nat): (z: seq<Byte>)
    ensures |z| == n && forall i :: 0 <= i < n ==> z[i] == 0
  {
    seq(n, _ => 0)
  }

  function U16Get(b: seq<Byte>, off: nat): (v: nat)
    requires off + 2 <= |b|
    ensures v < LIMIT16
  {
    b[off] as int + 0x100 * b[off + 1] as int
  }

  function U32Get(b: seq<Byte>, off: nat): (v: nat)
    requires off + 4 <= |b|
    ensures v < LIMIT32
  {
    U16Get(b, off) + LIMIT16 * U16Get(b, off + 2)
  }

  function U64Get(b: seq<Byte>, off: nat): (v: nat)
    requires off + 8 <= |b|
    ensures v < LIMIT64
  {
    U32Get(b, off) + LIMIT32 * U32Get(b, off + 4)
  }

  function U16Bytes(v: nat): (b: seq<Byte>)
    requires v < LIMIT16
    ensures |b| == 2 && U16Get(b, 0) == v
  {
    [v % 0x100, v / 0x100]
  }

  function U32Bytes(v: nat): (b: seq<Byte>)
    requires v < LIMIT32
    ensures |b| == 4 && U32Get(b, 0) == v
  {
    U16Bytes(v % LIMIT16) + U16Bytes(v / LIMIT16)
  }

  function U64Bytes(v: nat): (b: seq<Byte>)
    requires v < LIMIT64
    ensures |b| == 8 && U64Get(b, 0) == v
  {
    assert v == v % LIMIT32 + LIMIT32 * (v / LIMIT32);
    U32Bytes(v % LIMIT32) + U32Bytes(v / LIMIT32)
  }

  /** Copies `data` over `b` starting at `off`. */
  function Splice(b: seq<Byte>, off: nat, data: seq<Byte>): (r: seq<Byte>)
    requires off + |data| <= |b|
    ensures |r| == |b|
    ensures forall i :: 0 <= i < |b| ==>
              r[i] == if off <= i < off + |data| then data[i - off] else b[i]
  {
    b[..off] + data + b[off + |data|..]
  }

  function U16Set(b: seq<Byte>, off: nat, v: nat): (r: seq<Byte>)
    requires off + 2 <= |b| && v < LIMIT16
    ensures |r| == |b|
    ensures U16Get(r, off) == v
    ensures forall i :: 0 <= i < |b| && !(off <= i < off + 2) ==> r[i] == b[i]
  {
    Splice(b, off, U16Bytes(v))
  }

  function U32Set(b: seq<Byte>, off: nat, v: nat): (r: seq<Byte>)
    requires off + 4 <= |b| && v < LIMIT32
    ensures |r| == |b|
    ensures U32Get(r, off) == v
    ensures forall i :: 0 <= i < |b| && !(off <= i < off + 4) ==> r[i] == b[i]
  {
    Splice(b, off, U32Bytes(v))
  }

  function U64Set(b: seq<Byte>, off: nat, v: nat): (r: seq<Byte>)
    requires off + 8 <= |b| && v < LIMIT64
    ensures |r| == |b|
    ensures U64Get(r, off) == v
    ensures forall i :: 0 <= i < |b| && !(off <= i < off + 8) ==> r[i] == b[i]
  {
    Splice(b, off, U64Bytes(v))
  }

  /** Multiples of four, and the next of them. */
  predicate Quad(n: int) { n % 4 == 0 }

  lemma QuadSums(m: int, n: int)
    requires Quad(m) && Quad(n)
    ensures Quad(m - n) && Quad(m + n)
  {
  }

  function Align4(n: nat): (a: nat)
    ensures n <= a < n + 4 && Quad(a)
  {
    (n + 3) / 4 * 4
  }
}
