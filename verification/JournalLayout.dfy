/** The on-disk format of the metadata journal: where its sectors live, and the bytes of its
    header and descriptor table. */
module JournalLayout {
  import opened Common
  import opened Bytes
  import opened Disk

  const VERSION: nat := 1
  const PREPARED: nat := 1
  const COMMITTED: nat := 2
  const RECORDS: nat := 64
  const JOURNAL_SECTORS: nat := 2048
  const MAGIC: seq<Byte> := [82, 66, 74, 78, 76, 48, 48, 49]   // "RBJNL001"

  /** The journal file's blocks, the sectors per block and the file system's block count. */
  datatype Layout = Layout(blocks: seq<nat>, spb: nat, blocksCount: nat)

  type U64 = x: int | 0 <= x < LIMIT64

  datatype Record = Record(sector: U64, data: Sector)

  /** A mounted file system of at most `n` sectors whose journal file has its full size and
      no block twice. */
  predicate ValidLayout(l: Layout, n: nat) {
    && (l.spb == 2 || l.spb == 4 || l.spb == 8)
    && |l.blocks| == JOURNAL_SECTORS / l.spb
    && l.blocksCount < LIMIT32
    && l.blocksCount * l.spb <= n
    && (forall i :: 0 <= i < |l.blocks| ==> 0 < l.blocks[i] < l.blocksCount)
    && (forall i, j :: 0 <= i < j < |l.blocks| ==> l.blocks[i] != l.blocks[j])
  }

  /** Whether a sector belongs to the journal file; the block number is a 32-bit value. */
  predicate Storage(l: Layout, sector: nat) {
    l.spb > 0 && (sector / l.spb) % LIMIT32 in l.blocks
  }

  function MapSector(l: Layout, slot: nat): (sector: nat)
    requires l.spb > 0 && slot / l.spb < |l.blocks|
  {
    l.blocks[slot / l.spb] * l.spb + slot % l.spb
  }

  lemma BlockAndOffset(slot: nat, spb: nat)
    requires (spb == 2 || spb == 4 || spb == 8) && slot < JOURNAL_SECTORS
    ensures slot / spb < JOURNAL_SECTORS / spb && slot % spb < spb
  {
    if spb == 2 {
    } else if spb == 4 {
    } else {
      assert spb == 8;
    }
  }

  lemma BlockBounds(block: nat, r: nat, spb: nat, count: nat)
    requires (spb == 2 || spb == 4 || spb == 8) && r < spb && block < count
    ensures (block * spb + r) / spb == block && (block * spb + r) % spb == r
    ensures block * spb + r < count * spb
  {
    if spb == 2 {
    } else if spb == 4 {
    } else {
      assert spb == 8;
    }
  }

  lemma SlotIsStorage(l: Layout, n: nat, slot: nat)
    requires ValidLayout(l, n) && slot < JOURNAL_SECTORS
    ensures slot / l.spb < |l.blocks|
    ensures MapSector(l, slot) < n && Storage(l, MapSector(l, slot))
    ensures MapSector(l, slot) / l.spb == l.blocks[slot / l.spb]
    ensures MapSector(l, slot) % l.spb == slot % l.spb
  {
    BlockAndOffset(slot, l.spb);
    var b := l.blocks[slot / l.spb];
    BlockBounds(b, slot % l.spb, l.spb, l.blocksCount);
  }

  /** The device sector of a journal slot. */
  function Slot(l: Layout, n: nat, slot: nat): (sector: nat)
    requires ValidLayout(l, n) && slot < JOURNAL_SECTORS
    ensures sector < n && Storage(l, sector)
  {
    SlotIsStorage(l, n, slot);
    MapSector(l, slot)
  }

  /** No two journal slots share a sector. */
  lemma SlotsDistinct(l: Layout, n: nat, a: nat, b: nat)
    requires ValidLayout(l, n) && a < JOURNAL_SECTORS && b < JOURNAL_SECTORS
    ensures Slot(l, n, a) == Slot(l, n, b) <==> a == b
  {
    SlotIsStorage(l, n, a);
    SlotIsStorage(l, n, b);
  }

  function Xor(a: nat, b: nat): nat
    decreases a + b
  {
    if a == 0 && b == 0 then 0 else (a + b) % 2 + 2 * Xor(a / 2, b / 2)
  }

  lemma XorHalf(a: nat, b: nat)
    ensures Xor(a, b) / 2 == Xor(a / 2, b / 2) && Xor(a, b) % 2 == (a + b) % 2
  {
  }

  /** Exclusive or is its own inverse. */
  lemma {:induction false} XorUndoes(a: nat, b: nat)
    ensures Xor(Xor(a, b), b) == a
    decreases a + b
  {
    hide Xor;
    XorHalf(a, b);
    XorHalf(Xor(a, b), b);
    if a != 0 || b != 0 {
      XorUndoes(a / 2, b / 2);
    } else {
      XorNone();
    }
  }

  lemma XorNone()
    ensures Xor(0, 0) == 0
  {
  }

  lemma {:induction false} XorSwaps(a: nat, b: nat)
    ensures Xor(a, b) == Xor(b, a)
    decreases a + b
  {
    if a != 0 || b != 0 {
      XorSwaps(a / 2, b / 2);
    }
  }

  function Doubled(k: nat): nat { if k == 0 then 1 else 2 * Doubled(k - 1) }

  lemma {:induction false} XorBelow(a: nat, b: nat, k: nat)
    requires a < Doubled(k) && b < Doubled(k)
    ensures Xor(a, b) < Doubled(k)
  {
    if k > 0 && (a != 0 || b != 0) {
      XorBelow(a / 2, b / 2, k - 1);
    }
  }

  lemma DoubledIs()
    ensures Doubled(32) == LIMIT32
  {
    assert Doubled(8) == 256;
    assert Doubled(16) == 65536;
    assert Doubled(24) == 16777216;
  }

  /** The multiplier has an inverse of 32 bits. */
  lemma Scales(u: nat, v: nat)
    requires u < LIMIT32 && v < LIMIT32 && u * 16777619 % LIMIT32 == v * 16777619 % LIMIT32
    ensures u == v
  {
    var d, t := u - v, u * 16777619 / LIMIT32 - v * 16777619 / LIMIT32;
    assert d * 16777619 == t * LIMIT32;
    assert d == (t * 899433627 - d * 3513497) * LIMIT32;
  }

  lemma MixDiffers(s: nat, x: nat, t: nat, y: nat)
    requires s < LIMIT32 && t < LIMIT32 && x < LIMIT32 && y < LIMIT32 && (s == t <==> x != y)
    ensures Xor(s, x) * 16777619 % LIMIT32 != Xor(t, y) * 16777619 % LIMIT32
  {
    hide Xor, Doubled;
    DoubledIs();
    XorBelow(s, x, 32);
    XorBelow(t, y, 32);
    XorUndoes(s, x);
    XorUndoes(t, y);
    XorUndoes(x, s);
    XorUndoes(y, t);
    XorSwaps(s, x);
    XorSwaps(t, y);
    if Xor(s, x) * 16777619 % LIMIT32 == Xor(t, y) * 16777619 % LIMIT32 {
      Scales(Xor(s, x), Xor(t, y));
    }
  }

  /** A single wrong byte always changes the checksum. */
  lemma {:induction false} OneByteShows(data: seq<Byte>, i: nat, x: Byte)
    requires i < |data| && x != data[i]
    ensures Checksum(data[i := x]) != Checksum(data)
  {
    var k := |data| - 1;
    var after := data[i := x];
    if i == k {
      assert after[..k] == data[..k];
    } else {
      OneByteShows(data[..k], i, x);
      assert after[..k] == data[..k][i := x];
    }
    MixDiffers(Checksum(data[..k]), data[k], Checksum(after[..k]), after[k]);
  }

  /** 32-bit FNV-1a. */
  function Checksum(data: seq<Byte>): (sum: nat)
    ensures sum < LIMIT32
  {
    if data == [] then 2166136261
    else Xor(Checksum(data[..|data| - 1]), data[|data| - 1]) * 16777619 % LIMIT32
  }

  /** The header with its own checksum field still zero. */
  function BareHeader(state: nat, count: nat, sequence: nat, descriptorSum: nat): (h: Sector)
    requires state < LIMIT32 && count < LIMIT32 && descriptorSum < LIMIT32
  {
    var h := Splice(Zeros(SECTOR_SIZE), 0, MAGIC);
    var h := U32Set(h, 8, VERSION);
    var h := U32Set(h, 12, state);
    var h := U32Set(h, 16, count);
    var h := U32Set(h, 20, sequence % LIMIT32);
    U32Set(h, 28, descriptorSum)
  }

  function Header(state: nat, count: nat, sequence: nat, descriptorSum: nat): (h: Sector)
    requires state < LIMIT32 && count < LIMIT32 && descriptorSum < LIMIT32
  {
    var bare := BareHeader(state, count, sequence, descriptorSum);
    U32Set(bare, 24, Checksum(bare))
  }

  predicate HeaderValid(h: Sector) {
    h[..8] == MAGIC && U32Get(h, 8) == VERSION
  }

  /** All the checks replay makes on the header sector alone. */
  predicate HeaderAccepted(h: Sector) {
    && HeaderValid(h)
    && U32Get(h, 24) == Checksum(U32Set(h, 24, 0))
    && (U32Get(h, 12) == PREPARED || U32Get(h, 12) == COMMITTED)
    && U32Get(h, 16) <= RECORDS
  }

  /** A header that orders replay to write home sectors. */
  predicate Commits(h: Sector) {
    h != Zeros(SECTOR_SIZE) && HeaderAccepted(h) && U32Get(h, 12) == COMMITTED
  }

  lemma BareHeaderFields(state: nat, count: nat, sequence: nat, descriptorSum: nat)
    requires state < LIMIT32 && count < LIMIT32 && descriptorSum < LIMIT32
    ensures var h := BareHeader(state, count, sequence, descriptorSum);
            && HeaderValid(h) && U32Get(h, 12) == state && U32Get(h, 16) == count
            && U32Get(h, 28) == descriptorSum && h[24] == h[25] == h[26] == h[27] == 0
  {
    hide Bytes.U32Bytes, Bytes.Splice;
    var h0 := Splice(Zeros(SECTOR_SIZE), 0, MAGIC);
    var h1 := U32Set(h0, 8, VERSION);
    var h2 := U32Set(h1, 12, state);
    var h3 := U32Set(h2, 16, count);
    var h4 := U32Set(h3, 20, sequence % LIMIT32);
    var h := U32Set(h4, 28, descriptorSum);
    assert h[..8] == MAGIC;
  }

  /** What replay reads back from a header that commit wrote. */
  lemma HeaderRoundTrip(state: nat, count: nat, sequence: nat, descriptorSum: nat)
    requires state == PREPARED || state == COMMITTED
    requires count <= RECORDS && descriptorSum < LIMIT32
    ensures var h := Header(state, count, sequence, descriptorSum);
            && h != Zeros(SECTOR_SIZE) && HeaderAccepted(h)
            && U32Get(h, 12) == state && U32Get(h, 16) == count && U32Get(h, 28) == descriptorSum
  {
    hide Bytes.U32Bytes, Bytes.Splice, BareHeader, Checksum;
    var bare := BareHeader(state, count, sequence, descriptorSum);
    var h := Header(state, count, sequence, descriptorSum);
    BareHeaderFields(state, count, sequence, descriptorSum);
    assert U32Get(h, 8) == U32Get(bare, 8);
    assert h[..8] == bare[..8];
    assert h[0] == MAGIC[0];
    var cleared := U32Set(h, 24, 0);
    forall i | 0 <= i < SECTOR_SIZE ensures cleared[i] == bare[i] {
      if 24 <= i < 28 {
        assert cleared[i] == U32Bytes(0)[i - 24];
      }
    }
    assert cleared == bare;
  }

  /** The two descriptor sectors: 16 bytes per record, its sector number and the checksum of
      its payload. */
  function Descriptors(recs: seq<Record>): (d: seq<Byte>)
    requires |recs| <= RECORDS
    ensures |d| == 2 * SECTOR_SIZE
  {
    if recs == [] then Zeros(2 * SECTOR_SIZE)
    else
      var k := |recs| - 1;
      var before := Descriptors(recs[..k]);
      U32Set(U64Set(before, 16 * k, recs[k].sector), 16 * k + 8, Checksum(recs[k].data))
  }

  lemma SameField(a: seq<Byte>, b: seq<Byte>, off: nat)
    requires |a| == |b| && off + 8 <= |a| && forall i :: off <= i < off + 8 ==> a[i] == b[i]
    ensures U64Get(a, off) == U64Get(b, off) && U32Get(a, off) == U32Get(b, off)
  {
  }

  lemma {:induction false} DescriptorRoundTrip(recs: seq<Record>, i: nat)
    requires i < |recs| <= RECORDS
    ensures U64Get(Descriptors(recs), 16 * i) == recs[i].sector
    ensures U32Get(Descriptors(recs), 16 * i + 8) == Checksum(recs[i].data)
  {
    hide Bytes.U32Set, Bytes.U64Set, Bytes.U64Get, Bytes.U32Get, Checksum;
    var k := |recs| - 1;
    var before := Descriptors(recs[..k]);
    var mid := U64Set(before, 16 * k, recs[k].sector);
    var d := Descriptors(recs);
    if i == k {
      SameField(d, mid, 16 * k);
    } else {
      DescriptorRoundTrip(recs[..k], i);
      SameField(d, before, 16 * i);
      SameField(d, before, 16 * i + 8);
    }
  }
}
