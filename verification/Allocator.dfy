/** The block and inode allocators: a bitmap and a free count per group, a total in the
    superblock, and a cursor that moves from group to group. */
module Allocator {
  import opened Common
  import opened Bitmaps


  /** What is on disk: the groups' bitmaps and free counts, and the superblock's count. */
  datatype Pool = Pool(bitmaps: seq<Bitmap>, free: seq<int>, total: int)

  /** How items are numbered: group g holds sizes[g] items from base + g * per on. */
  datatype Geometry = Geometry(base: nat, per: nat, sizes: seq<nat>)

  ghost predicate GeometryOk(d: Geometry) {
    && |d.sizes| > 0 && 0 < d.per < LIMIT16 && (forall g :: 0 <= g < |d.sizes| ==> d.sizes[g] <= d.per)
    && |d.sizes| * d.per < LIMIT32
  }

  ghost predicate Shaped(p: Pool, d: Geometry) {
    && GeometryOk(d) && |p.bitmaps| == |p.free| == |d.sizes|
    && forall g :: 0 <= g < |d.sizes| ==> d.sizes[g] <= 8 * |p.bitmaps[g]|
  }

  function Sum(s: seq<int>): int {
    if s == [] then 0 else s[0] + Sum(s[1..])
  }

  lemma {:induction false} SumUpdate(s: seq<int>, g: nat, x: int)
    requires g < |s|
    ensures Sum(s[g := x]) == Sum(s) - s[g] + x
    decreases g
  {
    if g == 0 {
      assert s[0 := x][1..] == s[1..];
    } else {
      assert s[g := x][1..] == s[1..][g - 1 := x];
      SumUpdate(s[1..], g - 1, x);
    }
  }

  lemma {:induction false} SumBounds(s: seq<int>, top: nat)
    requires forall i :: 0 <= i < |s| ==> 0 <= s[i] <= top
    ensures 0 <= Sum(s) <= |s| * top
    ensures forall g :: 0 <= g < |s| ==> s[g] <= Sum(s)
  {
    if s != [] {
      SumBounds(s[1..], top);
      assert |s| * top == top + (|s| - 1) * top;
      assert forall g :: 0 < g < |s| ==> s[g] == s[1..][g - 1];
    }
  }

  /** Every group's free count is its number of clear bits, and the total is their sum. */
  ghost predicate CountsOk(p: Pool, d: Geometry) {
    && Shaped(p, d) && p.total == Sum(p.free)
    && forall g :: 0 <= g < |d.sizes| ==> p.free[g] == Clear(p.bitmaps[g], d.sizes[g])
  }

  lemma TotalBounds(p: Pool, d: Geometry)
    requires CountsOk(p, d)
    ensures 0 <= p.total < LIMIT32 && forall g :: 0 <= g < |p.free| ==> 0 <= p.free[g] <= p.total && p.free[g] < LIMIT16
  {
    SumBounds(p.free, d.per);
  }

  function Wrap16(x: int): int { x % LIMIT16 }

  function Wrap32(x: int): int { x % LIMIT32 }

  lemma NoWrap(x: int)
    ensures 0 <= x < LIMIT16 ==> Wrap16(x) == x
    ensures 0 <= x < LIMIT32 ==> Wrap32(x) == x
  {
  }

  /** Item `bit` of group g is taken; the counts are 16- and 32-bit. */
  function Taken(p: Pool, g: nat, bit: nat): Pool
    requires g < |p.bitmaps| == |p.free| && bit / 8 < |p.bitmaps[g]|
  {
    Pool(p.bitmaps[g := SetBit(p.bitmaps[g], bit)], p.free[g := Wrap16(p.free[g] - 1)], Wrap32(p.total - 1))
  }

  function Returned(p: Pool, g: nat, bit: nat): Pool
    requires g < |p.bitmaps| == |p.free| && bit / 8 < |p.bitmaps[g]|
  {
    Pool(p.bitmaps[g := ClearBit(p.bitmaps[g], bit)], p.free[g := Wrap16(p.free[g] + 1)], Wrap32(p.total + 1))
  }

  lemma TakenOk(p: Pool, d: Geometry, g: nat, bit: nat)
    requires CountsOk(p, d) && g < |d.sizes| && bit < d.sizes[g] && !Bit(p.bitmaps[g], bit)
    ensures CountsOk(Taken(p, g, bit), d) && p.free[g] > 0 && p.total > 0
  {
    hide Clear, Bit, SetBit, Sum, Wrap16, Wrap32;
    TotalBounds(p, d);
    ClearAfterSet(p.bitmaps[g], bit, d.sizes[g]);
    SumUpdate(p.free, g, p.free[g] - 1);
    NoWrap(p.free[g] - 1);
    NoWrap(p.total - 1);
  }

  /** Bit `bit` of group g is `taken`, and every other bit is as it was. */
  ghost predicate BitBecomes(p: Pool, q: Pool, g: nat, bit: nat, taken: bool) {
    && |q.bitmaps| == |p.bitmaps|
    && forall h :: 0 <= h < |p.bitmaps| ==>
         |q.bitmaps[h]| == |p.bitmaps[h]| && BitsAre(p.bitmaps[h], q.bitmaps[h], if h == g then bit else -1, taken)
  }

  ghost predicate BitsAre(b: Bitmap, c: Bitmap, bit: int, taken: bool)
    requires |c| == |b|
  {
    forall i :: 0 <= i < 8 * |b| ==> i / 8 < |b| && Bit(c, i) == if i == bit then taken else Bit(b, i)
  }

  /** The free counts of group g and of all change by n, in 16 and 32 bits. */
  ghost predicate CountsMove(p: Pool, q: Pool, g: nat, n: int) {
    && |q.free| == |p.free| && q.total == (p.total + n) % LIMIT32
    && forall h :: 0 <= h < |p.free| ==> q.free[h] == if h == g then (p.free[h] + n) % LIMIT16 else p.free[h]
  }

  lemma TakenBits(p: Pool, g: nat, bit: nat)
    requires g < |p.bitmaps| == |p.free| && bit / 8 < |p.bitmaps[g]|
    ensures BitBecomes(p, Taken(p, g, bit), g, bit, true) && CountsMove(p, Taken(p, g, bit), g, -1)
    ensures BitBecomes(p, Returned(p, g, bit), g, bit, false) && CountsMove(p, Returned(p, g, bit), g, 1)
  {
    hide Bit, SetBit, ClearBit;
    forall i | 0 <= i < 8 * |p.bitmaps[g]|
      ensures i / 8 < |p.bitmaps[g]|
      ensures Bit(SetBit(p.bitmaps[g], bit), i) <==> i == bit || Bit(p.bitmaps[g], i)
      ensures Bit(ClearBit(p.bitmaps[g], bit), i) <==> i != bit && Bit(p.bitmaps[g], i)
    {
      OneBit(p.bitmaps[g], bit, i);
    }
  }

  /** Giving back an item keeps the counts right exactly when it was taken. */
  lemma ReturnedOk(p: Pool, d: Geometry, g: nat, bit: nat)
    requires CountsOk(p, d) && g < |d.sizes| && bit < d.sizes[g]
    ensures CountsOk(Returned(p, g, bit), d) <==> Bit(p.bitmaps[g], bit)
  {
    hide Clear, Bit, SetBit, ClearBit, Sum, Wrap16, Wrap32;
    TotalBounds(p, d);
    if Bit(p.bitmaps[g], bit) {
      ClearAfterClear(p.bitmaps[g], bit, d.sizes[g]);
      CountBelow(p, d, g, bit);
      SumUpdate(p.free, g, p.free[g] + 1);
      NoWrap(p.free[g] + 1);
      NoWrap(p.total + 1);
    } else {
      ClearAgain(p.bitmaps[g], bit, d.sizes[g]);
      WrapMoves(p.free[g]);
    }
  }

  lemma WrapMoves(x: int)
    requires 0 <= x < LIMIT16
    ensures Wrap16(x + 1) != x
  {
  }

  /** Room in the counts for one more item. */
  lemma CountBelow(p: Pool, d: Geometry, g: nat, bit: nat)
    requires CountsOk(p, d) && g < |d.sizes| && bit < d.sizes[g] && Bit(p.bitmaps[g], bit)
    ensures p.free[g] + 1 < LIMIT16 && p.total + 1 < LIMIT32
  {
    ClearAfterClear(p.bitmaps[g], bit, d.sizes[g]);
    hide Bit, ClearBit;
    SumUpdate(p.free, g, p.free[g] + 1);
    SumBounds(p.free[g := p.free[g] + 1], d.per);
  }

  lemma ClearAgain(b: Bitmap, i: nat, n: nat)
    requires n <= 8 * |b| && i / 8 < |b| && !Bit(b, i)
    ensures Clear(ClearBit(b, i), n) == Clear(b, n)
    decreases n
  {
    hide Bit, ClearBit;
    if n > 0 {
      ClearAgain(b, i, n - 1);
      OneBit(b, i, n - 1);
    }
  }

  /** Giving back undoes taking, to the bit. */
  lemma ReturnUndoesTake(p: Pool, d: Geometry, g: nat, bit: nat)
    requires CountsOk(p, d) && g < |d.sizes| && bit < d.sizes[g] && !Bit(p.bitmaps[g], bit)
    ensures Returned(Taken(p, g, bit), g, bit) == p
  {
    hide Clear, Bit, SetBit, ClearBit, Sum, Wrap16, Wrap32;
    TotalBounds(p, d);
    TakenOk(p, d, g, bit);
    ClearUndoesSet(p.bitmaps[g], bit);
    NoWrap(p.free[g] - 1);
    NoWrap(p.total - 1);
    NoWrap(p.free[g]);
    NoWrap(p.total);
  }

  /** The number of item `bit` of group g. */
  function ItemOf(d: Geometry, g: nat, bit: nat): nat { d.base + g * d.per + bit }

  /** Item x, counted from the first, lies in a group and its bit is set. */
  ghost predicate InUse(p: Pool, d: Geometry, x: int) {
    && x >= 0 && d.per > 0 && x / d.per < |p.bitmaps| && x % d.per / 8 < |p.bitmaps[x / d.per]|
    && Bit(p.bitmaps[x / d.per], x % d.per)
  }

  // ---- The moving cursor ---------------------------------------------------------------------

  /** The group after g, around the end. */
  function NextGroup(g: nat, n: nat): nat
    requires g < n
  {
    (g + 1) % n
  }

  lemma NextGroupIs(g: nat, n: nat)
    requires g < n
    ensures NextGroup(g, n) == if g + 1 == n then 0 else g + 1
  {
  }

  /** Group g was visited by one of the attempts 1 .. a - 1 that follow a first one at `start`. */
  predicate Visited(start: nat, a: nat, n: nat, g: nat) {
    start < g < start + a || g < start + a - n
  }

  class Allocator {
    const d: Geometry
    var pool: Pool
    var cursorGroup: nat
    var cursorBit: nat

    ghost predicate Valid()
      reads this
    {
      CountsOk(pool, d) && cursorGroup < |d.sizes|
    }

    constructor (geometry: Geometry, p: Pool)
      requires CountsOk(p, geometry)
      ensures Valid() && d == geometry && pool == p
    {
      d, pool, cursorGroup, cursorBit := geometry, p, 0, 0;
    }

    /** The first clear bit of group g from `from` on, or the group's size. */
    method FindClear(g: nat, from: nat) returns (bit: nat)
      requires Valid() && g < |d.sizes|
      ensures bit < d.sizes[g] ==> !Bit(pool.bitmaps[g], bit)
      ensures from <= bit
      ensures forall i :: from <= i < bit && i < d.sizes[g] ==> i / 8 < |pool.bitmaps[g]| && Bit(pool.bitmaps[g], i)
    {
      hide Clear, Bit, Sum;
      bit := from;
      while bit < d.sizes[g]
        invariant from <= bit
        invariant forall i :: from <= i < bit && i < d.sizes[g] ==> i / 8 < |pool.bitmaps[g]| && Bit(pool.bitmaps[g], i)
        decreases d.sizes[g] - bit
      {
        if !Bit(pool.bitmaps[g], bit) {
          return;
        }
        bit := bit + 1;
      }
    }

    /** Takes the first free item of the cursor's group that the cursor has not passed. */
    method TryGroup() returns (found: bool, bit: nat)
      requires Valid()
      modifies `pool, `cursorBit
      ensures Valid()
      ensures found ==>
                && old(pool.total) > 0 && bit < d.sizes[cursorGroup] && !Bit(old(pool.bitmaps)[cursorGroup], bit)
                && BitBecomes(old(pool), pool, cursorGroup, bit, true) && CountsMove(old(pool), pool, cursorGroup, -1)
                && old(cursorBit) <= bit && cursorBit == bit + 1
      ensures !found ==>
                pool == old(pool) && cursorBit == old(cursorBit) && (cursorBit == 0 ==> pool.free[cursorGroup] == 0)
    {
      hide Clear, Bit, SetBit, Sum, Taken, GeometryOk;
      found, bit := false, 0;
      if pool.free[cursorGroup] != 0 {
        bit := FindClear(cursorGroup, cursorBit);
        if bit < d.sizes[cursorGroup] {
          TakenOk(pool, d, cursorGroup, bit);
          TakenBits(pool, cursorGroup, bit);
          pool := Taken(pool, cursorGroup, bit);
          cursorBit := bit + 1;
          return true, bit;
        }
        ClearNone(pool.bitmaps[cursorGroup], d.sizes[cursorGroup]);
      }
    }

    /** Takes a free item. Despite the cursor, it fails only when there is none. */
    method Alloc() returns (ok: bool, item: nat, ghost g: nat, ghost bit: nat)
      requires Valid()
      modifies `pool, `cursorGroup, `cursorBit
      ensures Valid()
      ensures ok ==> && g < |d.sizes| && bit < d.sizes[g] && item == ItemOf(d, g, bit)
                     && !Bit(old(pool.bitmaps)[g], bit)
                     && BitBecomes(old(pool), pool, g, bit, true) && CountsMove(old(pool), pool, g, -1)
      ensures !ok ==> pool == old(pool) && forall h :: 0 <= h < |d.sizes| ==> pool.free[h] == 0
      ensures ok <==> old(pool.total) > 0
    {
      hide Clear, Bit, SetBit, Sum, Taken, NextGroup, ItemOf, GeometryOk;
      ghost var start := cursorGroup;
      g, bit := 0, 0;
      var n := |d.sizes|;
      TotalBounds(pool, d);
      var attempt := 0;
      while attempt < n + 1
        invariant 0 <= attempt <= n + 1 && Valid() && pool == old(pool) && start < n
        invariant attempt <= n ==> cursorGroup == if start + attempt < n then start + attempt else start + attempt - n
        invariant attempt > 0 ==> cursorBit == 0
        invariant forall h :: 0 <= h < n && Visited(start, attempt, n, h) ==> pool.free[h] == 0
        decreases n + 1 - attempt
      {
        NextGroupIs(cursorGroup, n);
        var found, b := TryGroup();
        if found {
          g, bit := cursorGroup, b;
          return true, ItemOf(d, cursorGroup, b), g, bit;
        }
        cursorGroup := NextGroup(cursorGroup, n);
        cursorBit := 0;
        attempt := attempt + 1;
      }
      AllZero(pool.free);
      ok, item := false, 0;
    }

    /** Gives an item back. The bitmap is not looked at first: the counts stay right exactly
        when the item was in use. */
    method FreeBlock(item: nat, ghost g: nat, ghost bit: nat) returns (ok: bool)
      requires Valid() && (item >= d.base ==> g < |d.sizes| && bit < d.sizes[g] && item == ItemOf(d, g, bit))
      modifies `pool
      ensures ok <==> item >= d.base
      ensures !ok ==> pool == old(pool)
      ensures ok ==> BitBecomes(old(pool), pool, g, bit, false) && CountsMove(old(pool), pool, g, 1)
      ensures ok ==> (Valid() <==> Bit(old(pool.bitmaps)[g], bit))
    {
      hide Clear, Bit, SetBit, ClearBit, Sum, Returned;
      if item < d.base {
        return false;
      }
      var rel := item - d.base;
      GroupBit(d, g, bit);
      var group, b := rel / d.per, rel % d.per;
      ReturnedOk(pool, d, g, bit);
      TakenBits(pool, g, bit);
      pool := Returned(pool, group, b);
      ok := true;
    }

    /** Gives an inode back, if it is one that is in use. */
    method FreeInode(ino: nat, count: nat) returns (ok: bool, ghost g: nat, ghost bit: nat)
      requires Valid() && d.base == 1 && forall h :: 0 <= h < |d.sizes| ==> d.sizes[h] == d.per
      modifies `pool
      ensures Valid()
      ensures !ok ==> pool == old(pool)
      ensures ok <==> 0 < ino <= count && InUse(old(pool), d, ino - 1)
      ensures ok ==> && 0 < ino <= count && g < |d.sizes| && bit < d.sizes[g] && ino == ItemOf(d, g, bit)
                     && Bit(old(pool.bitmaps)[g], bit)
                     && BitBecomes(old(pool), pool, g, bit, false) && CountsMove(old(pool), pool, g, 1)
    {
      hide Clear, Bit, SetBit, ClearBit, Sum, Returned, BitBecomes, CountsMove, InUse, ItemOf;
      ok, g, bit := false, 0, 0;
      if ino == 0 || ino > count {
        return;
      }
      var group, b := (ino - 1) / d.per, (ino - 1) % d.per;
      InodePlace(pool, d, ino, group, b);
      if group >= |d.sizes| {
        return;
      }
      if !Bit(pool.bitmaps[group], b) {
        return;
      }
      ReturnedOk(pool, d, group, b);
      TakenBits(pool, group, b);
      pool := Returned(pool, group, b);
      ok, g, bit := true, group, b;
    }
  }

  lemma GroupBit(d: Geometry, g: nat, bit: nat)
    requires 0 < d.per && bit < d.per
    ensures (ItemOf(d, g, bit) - d.base) / d.per == g && (ItemOf(d, g, bit) - d.base) % d.per == bit
  {
    var x := g * d.per + bit;
    var q, r := x / d.per, x % d.per;
    assert (q - g) * d.per == bit - r;
    Multiple(q - g, d.per);
  }

  /** Where the bit of an inode is. */
  lemma InodePlace(p: Pool, d: Geometry, ino: nat, g: nat, bit: nat)
    requires Shaped(p, d) && d.base == 1 && forall h :: 0 <= h < |d.sizes| ==> d.sizes[h] == d.per
    requires 0 < ino && g == (ino - 1) / d.per && bit == (ino - 1) % d.per
    ensures bit < d.per && ino == ItemOf(d, g, bit)
    ensures g < |d.sizes| ==> bit / 8 < |p.bitmaps[g]|
    ensures InUse(p, d, ino - 1) <==> g < |d.sizes| && Bit(p.bitmaps[g], bit)
  {
    hide Bit;
    Divided(ino - 1, d.per);
  }

  lemma Multiple(k: int, n: nat)
    ensures k >= 1 ==> k * n >= n
    ensures k <= -1 ==> k * n + n <= 0
  {
  }

  lemma Divided(x: nat, n: nat)
    requires n > 0
    ensures x == x / n * n + x % n && 0 <= x % n < n
  {
  }

  lemma {:induction false} AllZero(s: seq<int>)
    requires forall i :: 0 <= i < |s| ==> s[i] == 0
    ensures Sum(s) == 0
  {
    if s != [] {
      AllZero(s[1..]);
    }
  }
}
