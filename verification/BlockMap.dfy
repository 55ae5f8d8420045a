/** The block map of an inode: twelve direct pointers, an indirect block and a double indirect
    block that hold the blocks of a file in order. */
module BlockMap {
  import opened Common

  const DIRECT: nat := 12

  /** The pointers of one inode (0 is no block) and the indirect blocks of the volume, each an
      array of `width` block numbers. */
  datatype Map = Map(width: nat, direct: seq<int>, indirect: int, dindirect: int, tables: map<int, seq<int>>)

  function At(list: seq<int>, i: nat): int { if i < |list| then list[i] else 0 }

  function Zeros(n: nat): (z: seq<int>)
    ensures |z| == n && forall i :: 0 <= i < n ==> z[i] == 0
  {
    seq(n, _ => 0)
  }

  /** The place in the file of the first block behind entry di of the double indirect block. */
  function Row(width: nat, di: nat): nat {
    if di == 0 then DIRECT + width else Row(width, di - 1) + width
  }

  lemma {:induction false} RowIs(width: nat, di: nat)
    ensures Row(width, di) == DIRECT + width + di * width
  {
    if di > 0 {
      RowIs(width, di - 1);
    }
  }

  lemma {:induction false} RowOrder(width: nat, di: nat, dj: nat)
    requires di < dj
    ensures Row(width, di) + width <= Row(width, dj)
  {
    if di + 1 < dj {
      RowOrder(width, di, dj - 1);
    }
  }

  /** Row numbers are ordered like the rows. */
  lemma RowLess(width: nat, di: nat, dj: nat)
    requires width > 0
    ensures Row(width, di) < Row(width, dj) <==> di < dj
  {
    if di < dj {
      RowOrder(width, di, dj);
    } else if dj < di {
      RowOrder(width, dj, di);
    }
  }

  /** Table t holds the blocks of the file from place `from` on. */
  ghost predicate TableOk(m: Map, t: int, list: seq<int>, from: nat) {
    t in m.tables && |m.tables[t]| == m.width && forall i :: 0 <= i < m.width ==> m.tables[t][i] == At(list, from + i)
  }

  ghost predicate DirectOk(m: Map, list: seq<int>) {
    |m.direct| == DIRECT && forall i :: 0 <= i < DIRECT ==> m.direct[i] == At(list, i)
  }

  ghost predicate IndirectOk(m: Map, list: seq<int>) {
    (|list| > DIRECT ==> m.indirect != 0) && (m.indirect != 0 ==> TableOk(m, m.indirect, list, DIRECT))
  }

  ghost predicate HasDouble(m: Map) {
    m.dindirect != 0 && m.dindirect in m.tables && |m.tables[m.dindirect]| == m.width && m.dindirect != m.indirect
  }

  /** Entry di of the double indirect block; 0 when it has none. */
  ghost function Entry(m: Map, di: nat): int {
    if HasDouble(m) && di < m.width then m.tables[m.dindirect][di] else 0
  }

  ghost predicate RowOk(m: Map, list: seq<int>, di: nat) {
    && (Row(m.width, di) < |list| ==> Entry(m, di) != 0)
    && (Entry(m, di) != 0 ==> TableOk(m, Entry(m, di), list, Row(m.width, di)))
    && (Entry(m, di) != 0 ==> Entry(m, di) != m.indirect && Entry(m, di) != m.dindirect)
  }

  ghost predicate RowsApart(m: Map) {
    forall di, dj :: 0 <= di < dj < m.width && Entry(m, di) != 0 ==> Entry(m, di) != Entry(m, dj)
  }

  ghost predicate DoubleOk(m: Map, list: seq<int>) {
    && (|list| > DIRECT + m.width ==> m.dindirect != 0)
    && (m.dindirect != 0 ==> HasDouble(m))
    && (forall di :: 0 <= di < m.width ==> RowOk(m, list, di))
    && RowsApart(m)
  }

  /** The inode holds exactly the blocks of `list`, in order. */
  ghost predicate Holds(m: Map, list: seq<int>) {
    && m.width > 0 && |list| <= Row(m.width, m.width) && (forall i :: 0 <= i < |list| ==> list[i] != 0)
    && DirectOk(m, list) && IndirectOk(m, list) && DoubleOk(m, list)
  }

  /** Every indirect block is needed for a file of n blocks. */
  ghost predicate Tight(m: Map, n: nat) {
    && (m.indirect == 0 <==> n <= DIRECT)
    && (m.dindirect == 0 <==> n <= DIRECT + m.width)
    && (forall di :: 0 <= di < m.width ==> (Entry(m, di) != 0 <==> Row(m.width, di) < n))
  }

  // ---- Walking -------------------------------------------------------------------------------

  /** Copies the entries of a table behind `out` until `need` are there or an entry is empty; it
      overruns when there is an entry to copy and the buffer is full. */
  method WalkTable(table: seq<int>, need: nat, out: seq<int>, ghost list: seq<int>)
    returns (all: seq<int>, ended: bool, overrun: bool)
    requires |out| <= need && |out| <= |list| && out == list[..|out|] && |out| <= MAX_BLOCKS
    requires forall i :: 0 <= i < |table| ==> table[i] == At(list, |out| + i)
    requires forall i :: 0 <= i < |list| ==> list[i] != 0
    ensures |out| <= |all| <= need && |all| <= |list| && all == list[..|all|] && |all| <= MAX_BLOCKS
    ensures overrun ==> ended && |all| == MAX_BLOCKS < Min(need, |list|)
    ensures ended && !overrun ==> |all| == |list|
    ensures !ended ==> |all| == need || |all| == |out| + |table|
  {
    all := out;
    var i := 0;
    while i < |table| && |all| < need
      invariant 0 <= i <= |table| && |all| == |out| + i <= need && |all| <= |list| && all == list[..|all|]
      invariant |all| <= MAX_BLOCKS
    {
      if table[i] == 0 {
        return all, true, false;
      }
      if |all| == MAX_BLOCKS {
        return all, true, true;
      }
      all := all + [table[i]];
      i := i + 1;
    }
    ended, overrun := false, false;
  }

  function Min(a: nat, b: nat): (n: nat)
    ensures n <= a && n <= b && (n == a || n == b)
  {
    if a < b then a else b
  }

  /** What a walk leaves: the blocks asked for, or as many as the buffer holds. */
  ghost predicate Walked(need: nat, list: seq<int>, out: seq<int>, overrun: bool) {
    && (overrun <==> Min(need, |list|) > MAX_BLOCKS)
    && out == list[..Min(Min(need, |list|), MAX_BLOCKS)]
  }

  /** Walks the tables behind the double indirect block. */
  method WalkDouble(m: Map, need: nat, out: seq<int>, ghost list: seq<int>) returns (all: seq<int>, overrun: bool)
    requires Holds(m, list) && m.dindirect != 0
    requires |out| < need && |out| <= |list| && out == list[..|out|] && |out| <= MAX_BLOCKS
    requires |out| == Row(m.width, 0) || |out| == |list| <= DIRECT
    ensures Walked(need, list, all, overrun)
  {
    hide RowsApart;
    all, overrun := out, false;
    var di := 0;
    while di < m.width && |all| < need
      invariant 0 <= di <= m.width && |all| <= need && |all| <= |list| && all == list[..|all|]
      invariant |all| <= MAX_BLOCKS && !overrun
      invariant |all| < need ==> |all| == Row(m.width, di) || |all| == |list| <= DIRECT
    {
      assert RowOk(m, list, di);
      RowsAfter(m.width, di);
      var sind := m.tables[m.dindirect][di];
      if sind == 0 {
        break;
      }
      var ended;
      all, ended, overrun := WalkTable(m.tables[sind], need, all, list);
      if ended {
        return;
      }
      di := di + 1;
    }
  }

  lemma RowsAfter(width: nat, di: nat)
    ensures Row(width, di) >= DIRECT + width && Row(width, di + 1) == Row(width, di) + width
  {
    if di > 0 {
      RowOrder(width, 0, di);
    }
  }

  /** The blocks of an inode in order, at most `need` of them, in a buffer of MAX_BLOCKS entries
      that nothing checks: the walk stays inside it exactly when no more are asked for and there. */
  method WalkInode(m: Map, need: nat, ghost list: seq<int>) returns (out: seq<int>, overrun: bool)
    requires Holds(m, list)
    ensures overrun <==> Min(need, |list|) > MAX_BLOCKS
    ensures out == list[..Min(Min(need, |list|), MAX_BLOCKS)]
  {
    hide RowsApart;
    var ended;
    out, ended, overrun := WalkTable(m.direct, need, [], list);
    if ended {
      return;
    }
    if |out| < need && m.indirect != 0 {
      out, ended, overrun := WalkTable(m.tables[m.indirect], need, out, list);
      if ended {
        return;
      }
    }
    if |out| < need && m.dindirect != 0 {
      out, overrun := WalkDouble(m, need, out, list);
    }
  }

  // ---- Appending -----------------------------------------------------------------------------

  /** The blocks of a file after block b was put at place k: behind them, or instead of one. */
  function Placed(list: seq<int>, k: nat, b: int): (r: seq<int>)
    requires k <= |list|
    ensures |r| == (if k < |list| then |list| else k + 1) && forall i :: At(r, i) == if i == k then b else At(list, i)
  {
    if k < |list| then list[k := b] else list + [b]
  }

  /** Each step of an append either keeps the blocks of the file or puts one in its place. */
  lemma HeldDirect(m: Map, list: seq<int>, k: nat, b: int)
    requires Holds(m, list) && k <= |list| && k < DIRECT && b != 0
    ensures Holds(m.(direct := m.direct[k := b]), Placed(list, k, b))
    ensures forall n :: Tight(m, n) == Tight(m.(direct := m.direct[k := b]), n)
  {
    var m', list' := m.(direct := m.direct[k := b]), Placed(list, k, b);
    assert m.indirect != 0 ==> TableOk(m', m.indirect, list', DIRECT);
    forall di | 0 <= di < m.width ensures RowOk(m', list', di) {
      assert RowOk(m, list, di);
      RowsAfter(m.width, di);
      assert Entry(m', di) == Entry(m, di);
    }
    forall di ensures Entry(m', di) == Entry(m, di) {}
    RowsAfter(m.width, m.width);
  }

  /** An empty indirect block. */
  function WithIndirect(m: Map, a: int): Map {
    m.(indirect := a, tables := m.tables[a := Zeros(m.width)])
  }

  lemma NewIndirect(m: Map, list: seq<int>, a: int)
    requires Holds(m, list) && m.indirect == 0 && a != 0 && a !in m.tables
    ensures Holds(WithIndirect(m, a), list)
    ensures Tight(m, DIRECT) ==> Tight(WithIndirect(m, a), DIRECT + 1)
  {
    var m' := WithIndirect(m, a);
    forall di | 0 <= di < m.width ensures RowOk(m', list, di) && Row(m.width, di) >= DIRECT + 1 {
      assert RowOk(m, list, di);
      assert Entry(m', di) == Entry(m, di);
      RowsAfter(m.width, di);
    }
    forall di ensures Entry(m', di) == Entry(m, di) {}
  }

  /** Block b at place i of table t. */
  function WithBlock(m: Map, t: int, i: nat, b: int): Map
    requires t in m.tables && i < |m.tables[t]|
  {
    m.(tables := m.tables[t := m.tables[t][i := b]])
  }

  lemma HeldIndirect(m: Map, list: seq<int>, k: nat, b: int)
    requires Holds(m, list) && k <= |list| && DIRECT <= k < DIRECT + m.width && m.indirect != 0 && b != 0
    ensures Holds(WithBlock(m, m.indirect, k - DIRECT, b), Placed(list, k, b))
    ensures forall n :: Tight(m, n) == Tight(WithBlock(m, m.indirect, k - DIRECT, b), n)
  {
    var m', list' := WithBlock(m, m.indirect, k - DIRECT, b), Placed(list, k, b);
    assert TableOk(m', m.indirect, list', DIRECT);
    forall di | 0 <= di < m.width ensures RowOk(m', list', di) {
      assert RowOk(m, list, di);
      RowsAfter(m.width, di);
      assert Entry(m', di) == Entry(m, di);
    }
    forall di ensures Entry(m', di) == Entry(m, di) {}
    RowsAfter(m.width, m.width);
  }

  /** An empty double indirect block. */
  function WithDouble(m: Map, a: int): Map {
    m.(dindirect := a, tables := m.tables[a := Zeros(m.width)])
  }

  lemma NewDouble(m: Map, list: seq<int>, a: int)
    requires Holds(m, list) && m.dindirect == 0 && a != 0 && a !in m.tables
    ensures Holds(WithDouble(m, a), list)
    ensures forall di :: 0 <= di < m.width ==> Entry(WithDouble(m, a), di) == 0
  {
    var m' := WithDouble(m, a);
    forall di | 0 <= di < m.width ensures RowOk(m', list, di) {
      assert RowOk(m, list, di);
      RowsAfter(m.width, di);
    }
  }

  /** An empty table behind entry di of the double indirect block. */
  function WithRow(m: Map, di: nat, a: int): Map
    requires m.dindirect in m.tables && di < |m.tables[m.dindirect]| && a != m.dindirect
  {
    WithBlock(m.(tables := m.tables[a := Zeros(m.width)]), m.dindirect, di, a)
  }

  lemma NewRow(m: Map, list: seq<int>, di: nat, a: int)
    requires Holds(m, list) && HasDouble(m) && di < m.width && Entry(m, di) == 0 && a != 0 && a !in m.tables
    ensures Holds(WithRow(m, di, a), list)
    ensures forall dj :: 0 <= dj < m.width ==> Entry(WithRow(m, di, a), dj) == if dj == di then a else Entry(m, dj)
  {
    var m' := WithRow(m, di, a);
    forall dj | 0 <= dj < m.width
      ensures Entry(m', dj) == if dj == di then a else Entry(m, dj)
      ensures RowOk(m', list, dj) && Entry(m, dj) != a
    {
      assert RowOk(m, list, dj);
    }
  }

  lemma HeldRow(m: Map, list: seq<int>, di: nat, si: nat, b: int)
    requires Holds(m, list) && di < m.width && si < m.width && Entry(m, di) != 0 && b != 0
    requires Row(m.width, di) + si <= |list|
    requires Entry(m, di) in m.tables && |m.tables[Entry(m, di)]| == m.width
    ensures Holds(WithBlock(m, Entry(m, di), si, b), Placed(list, Row(m.width, di) + si, b))
    ensures forall n :: Tight(m, n) == Tight(WithBlock(m, Entry(m, di), si, b), n)
  {
    assert RowOk(m, list, di);
    var m', list' := WithBlock(m, Entry(m, di), si, b), Placed(list, Row(m.width, di) + si, b);
    forall dj ensures Entry(m', dj) == Entry(m, dj) {}
    RowsAfter(m.width, di);
    assert m.indirect != 0 ==> TableOk(m', m.indirect, list', DIRECT);
    forall dj | 0 <= dj < m.width ensures RowOk(m', list', dj) {
      HeldOther(m, list, di, si, b, dj);
    }
    RowOrder(m.width, di, m.width);
  }

  lemma HeldOther(m: Map, list: seq<int>, di: nat, si: nat, b: int, dj: nat)
    requires HasDouble(m) && di < m.width && dj < m.width && si < m.width && Entry(m, di) != 0
    requires RowOk(m, list, di) && RowOk(m, list, dj) && RowsApart(m) && Row(m.width, di) + si <= |list|
    ensures RowOk(WithBlock(m, Entry(m, di), si, b), Placed(list, Row(m.width, di) + si, b), dj)
  {
    var m' := WithBlock(m, Entry(m, di), si, b);
    assert Entry(m', dj) == Entry(m, dj);
    if dj < di {
      RowOrder(m.width, dj, di);
    } else if di < dj {
      RowOrder(m.width, di, dj);
    }
  }

  /** The indirect blocks of a file are those it needs, also after the first block of a new row. */
  lemma TightRow(m: Map, m': Map, di: nat)
    requires di < m.width == m'.width && m.indirect == m'.indirect && m'.dindirect != 0
    requires Tight(m, Row(m.width, di))
    requires forall dj :: 0 <= dj < m.width && dj != di ==> (Entry(m, dj) != 0 <==> Entry(m', dj) != 0)
    requires Entry(m', di) != 0
    ensures Tight(m', Row(m.width, di) + 1)
  {
    RowsAfter(m.width, di);
    forall dj | 0 <= dj < m.width ensures Entry(m', dj) != 0 <==> Row(m.width, dj) < Row(m.width, di) + 1 {
      RowLess(m.width, dj, di);
      RowLess(m.width, di, dj);
    }
  }

  /** Within a row, and within the direct and the indirect blocks, one block more needs no other
      indirect block. */
  lemma TightNext(m: Map, n: nat)
    requires m.width > 0 && Tight(m, n) && n != DIRECT
    requires forall di :: 0 <= di < m.width ==> n != Row(m.width, di)
    ensures Tight(m, n + 1)
  {
    assert Row(m.width, 0) == DIRECT + m.width;
  }

  /** The entry of the double indirect block, and the entry of the table behind it, where the
      block at place idx behind the indirect block is kept. */
  function Outer(width: nat, idx: nat): nat
    requires width > 0
  {
    idx / width
  }

  function Inner(width: nat, idx: nat): nat
    requires width > 0
  {
    idx % width
  }

  lemma RowOf(width: nat, idx: nat)
    requires width > 0
    ensures Row(width, Outer(width, idx)) + Inner(width, idx) == DIRECT + width + idx
    ensures Inner(width, idx) < width
    ensures Outer(width, idx) >= width <==> DIRECT + width + idx >= Row(width, width)
  {
    if Outer(width, idx) < width {
      RowOrder(width, Outer(width, idx), width);
    }
    RowIs(width, idx / width);
    assert idx == width * (idx / width) + idx % width;
    if idx / width >= width {
      RowLess(width, width, idx / width);
      RowLess(width, idx / width, width);
    }
  }

  // ---- Counting and freeing ------------------------------------------------------------------

  function One(b: int): seq<int> { if b != 0 then [b] else [] }

  /** The entries of a table that name a block. */
  function Kept(s: seq<int>): seq<int> {
    if s == [] then [] else Kept(s[..|s| - 1]) + One(s[|s| - 1])
  }

  /** Every block that belongs to the file: its data and its indirect blocks. */
  function Owned(m: Map, list: seq<int>): seq<int> {
    list + One(m.indirect) + (if m.dindirect in m.tables then Kept(m.tables[m.dindirect]) else []) + One(m.dindirect)
  }

  /** How many blocks of bs bytes hold `size` bytes, in 32 bits. */
  function NeedBlocks(size: nat, bs: nat): nat
    requires bs > 0
  {
    (size + bs - 1) % LIMIT32 / bs
  }

  /** The last of n blocks holds a byte of the file, and rounding the size up does not wrap. */
  predicate Covers(size: nat, bs: nat, n: nat) {
    n == 0 || ((n - 1) * bs < size && size + bs <= LIMIT32)
  }

  lemma NeedCovers(size: nat, bs: nat, n: nat)
    requires 0 < bs < LIMIT32 && size < LIMIT32
    ensures NeedBlocks(size, bs) >= n <==> Covers(size, bs, n)
  {
    var sum := size + bs - 1;
    if sum < LIMIT32 {
      AtLeast(sum, bs, n);
    } else {
      assert sum % LIMIT32 == sum - LIMIT32;
    }
  }

  lemma AtLeast(x: nat, bs: nat, n: nat)
    requires bs > 0
    ensures x / bs >= n <==> n * bs <= x
  {
    var q := x / bs;
    assert x == q * bs + x % bs;
    if q >= n {
      assert (q - n) * bs >= 0;
    } else {
      assert (n - q - 1) * bs >= 0;
    }
  }

  lemma DoubleThere(m: Map, list: seq<int>)
    requires Holds(m, list)
    ensures m.width > 0
    ensures m.dindirect != 0 ==> m.dindirect in m.tables && |m.tables[m.dindirect]| == m.width
  {
  }

  lemma OwnedLess(m: Map, list: seq<int>, k: nat)
    requires k <= |list|
    ensures Owned(m, list[..k]) == Owned(m, list) <==> k == |list|
  {
    if k == |list| {
      assert list[..k] == list;
    } else {
      assert |Owned(m, list[..k])| < |Owned(m, list)|;
    }
  }

  /** They are the data blocks and every indirect block. */
  lemma OwnedMeans(m: Map, list: seq<int>, data: seq<int>)
    requires Holds(m, list) && (m.dindirect == 0 ==> 0 !in m.tables)
    ensures forall x :: x in Owned(m, data) <==> x in data || (x != 0 && Uses(m, x))
  {
    forall x ensures x in Owned(m, data) <==> x in data || (x != 0 && Uses(m, x)) {
      var rows := if m.dindirect in m.tables then Kept(m.tables[m.dindirect]) else [];
      if m.dindirect in m.tables {
        KeptFrom(m.tables[m.dindirect], x);
        if x != 0 {
          EntryIn(m, x);
        }
      }
      assert x in Owned(m, data) <==> x in data || x in One(m.indirect) || x in rows || x in One(m.dindirect);
    }
  }

  lemma EntryIn(m: Map, x: int)
    requires HasDouble(m) && x != 0
    ensures x in m.tables[m.dindirect] <==> exists di :: 0 <= di < m.width && Entry(m, di) == x
  {
    var d := m.tables[m.dindirect];
    forall di | 0 <= di < m.width ensures Entry(m, di) == d[di] {}
    if x in d {
      var i :| 0 <= i < |d| && d[i] == x;
      assert Entry(m, i) == x;
    }
  }

  /** Frees the blocks of a file of `size` bytes, in the order they are freed; nothing is said of
      what an overrun of the buffer leaves. All blocks are freed exactly when the size covers them
      and the buffer holds them. */
  method FreeInodeBlocks(m: Map, size: nat, ghost list: seq<int>) returns (freed: seq<int>, overrun: bool)
    requires Holds(m, list) && (m.dindirect == 0 ==> 0 !in m.tables)
    requires 4 * m.width < LIMIT32 && size < LIMIT32
    ensures overrun <==> Min(NeedBlocks(size, 4 * m.width), |list|) > MAX_BLOCKS
    ensures !overrun ==> freed == Owned(m, list[..Min(NeedBlocks(size, 4 * m.width), |list|)])
    ensures !overrun ==>
              forall x :: x in freed <==>
                x in list[..Min(NeedBlocks(size, 4 * m.width), |list|)] || (x != 0 && Uses(m, x))
    ensures !overrun && freed == Owned(m, list) <==> Covers(size, 4 * m.width, |list|) && |list| <= MAX_BLOCKS
  {
    hide NeedBlocks, Covers, Holds, Uses, Owned;
    DoubleThere(m, list);
    var need := NeedBlocks(size, 4 * m.width);
    NeedCovers(size, 4 * m.width, |list|);
    OwnedLess(m, list, Min(need, |list|));
    OwnedMeans(m, list, list[..Min(need, |list|)]);
    freed, overrun := WalkInode(m, need, list);
    if !overrun {
      freed := FreeTables(m, freed);
    }
  }

  /** Frees the indirect block, the tables of the double indirect block and that block itself. */
  method FreeTables(m: Map, data: seq<int>) returns (freed: seq<int>)
    requires if m.dindirect == 0 then 0 !in m.tables else m.dindirect in m.tables && |m.tables[m.dindirect]| == m.width
    ensures freed == Owned(m, data)
  {
    freed := data + One(m.indirect);
    if m.dindirect != 0 {
      var dind := m.tables[m.dindirect];
      ghost var before := freed;
      var i := 0;
      while i < m.width
        invariant 0 <= i <= m.width && freed == before + Kept(dind[..i])
      {
        assert dind[..i + 1][..i] == dind[..i];
        if dind[i] != 0 {
          freed := freed + [dind[i]];
        }
        i := i + 1;
      }
      assert dind[..i] == dind;
      freed := freed + [m.dindirect];
    }
  }

  lemma DistinctAppend(s: seq<int>, t: seq<int>)
    requires Distinct(s) && Distinct(t) && forall x :: x in s ==> x !in t
    ensures Distinct(s + t)
  {
    forall i, j | 0 <= i < j < |s + t| ensures (s + t)[i] != (s + t)[j] {
      if i < |s| <= j {
        assert s[i] in s && t[j - |s|] in t;
      }
    }
  }

  lemma {:induction false} KeptFrom(s: seq<int>, x: int)
    ensures x in Kept(s) <==> x != 0 && x in s
  {
    if s != [] {
      KeptFrom(s[..|s| - 1], x);
      assert s == s[..|s| - 1] + [s[|s| - 1]];
    }
  }

  lemma {:induction false} KeptDistinct(s: seq<int>)
    requires forall i, j :: 0 <= i < j < |s| && s[i] != 0 ==> s[i] != s[j]
    ensures Distinct(Kept(s))
  {
    if s != [] {
      var front, last := s[..|s| - 1], s[|s| - 1];
      KeptDistinct(front);
      forall x | x in Kept(front) ensures x !in One(last) {
        KeptFrom(front, x);
      }
      DistinctAppend(Kept(front), One(last));
    }
  }

  /** No block of a file is freed twice. */
  lemma OwnedOnce(m: Map, list: seq<int>)
    requires Holds(m, list) && 0 !in m.tables
    requires Distinct(list) && forall x :: x in list ==> x !in m.tables
    ensures Distinct(Owned(m, list))
  {
    var rows := if m.dindirect in m.tables then Kept(m.tables[m.dindirect]) else [];
    if m.dindirect in m.tables {
      var d := m.tables[m.dindirect];
      forall i, j | 0 <= i < j < |d| && d[i] != 0 ensures d[i] != d[j] {
        assert Entry(m, i) == d[i] && Entry(m, j) == d[j];
      }
      KeptDistinct(d);
      forall x | x in rows ensures x in m.tables && x != m.indirect && x != m.dindirect {
        KeptFrom(d, x);
        var i :| 0 <= i < |d| && d[i] == x;
        assert Entry(m, i) == x && RowOk(m, list, i);
      }
    }
    DistinctAppend(list, One(m.indirect));
    DistinctAppend(list + One(m.indirect), rows);
    DistinctAppend(list + One(m.indirect) + rows, One(m.dindirect));
  }

  /** Tables it takes to hold x blocks. */
  function Ceil(x: nat, width: nat): nat
    requires width > 0
  {
    (x + width - 1) / width
  }

  /** The rows of the double indirect block that a file of n blocks is said to use. */
  function RowCount(m: Map, n: nat): nat
    requires m.width > 0
  {
    Ceil(if n > DIRECT + m.width then n - DIRECT - m.width else 0, m.width)
  }

  /** The sector count kept in the inode, before it is cut to 32 bits; acl is its attribute block. */
  function RawSectors(m: Map, n: nat, perBlock: nat, acl: int): nat
    requires m.width > 0
  {
    n * perBlock
    + (if m.indirect != 0 then perBlock else 0)
    + (if m.dindirect != 0 then perBlock + RowCount(m, n) * perBlock else 0)
    + (if acl != 0 then perBlock else 0)
  }

  function Sectors(m: Map, n: nat, perBlock: nat, acl: int): nat
    requires m.width > 0
  {
    RawSectors(m, n, perBlock, acl) % LIMIT32
  }

  lemma {:induction false} KeptPrefix(s: seq<int>, k: nat)
    requires k <= |s| && forall i :: 0 <= i < |s| ==> (s[i] != 0 <==> i < k)
    ensures |Kept(s)| == k
  {
    if s != [] {
      KeptPrefix(s[..|s| - 1], if k == |s| then k - 1 else k);
    }
  }

  lemma CeilDiv(x: nat, w: nat, k: int)
    requires w > 0 && x > 0 && k == Ceil(x, w)
    ensures k > 0 && (k - 1) * w < x <= k * w
  {
    assert x + w - 1 == k * w + (x + w - 1) % w;
    assert (k - 1) * w == k * w - w;
  }

  /** The rows a file of n blocks reaches into. */
  lemma RowsUsed(width: nat, n: nat, di: nat, k: nat)
    requires width > 0 && n > DIRECT + width && k == Ceil(n - DIRECT - width, width)
    ensures Row(width, di) < n <==> di < k
  {
    CeilDiv(n - DIRECT - width, width, k);
    RowIs(width, k);
    RowIs(width, k - 1);
    if di < k - 1 {
      RowOrder(width, di, k - 1);
    } else if di > k {
      RowOrder(width, k, di);
    }
  }

  lemma CountRows(m: Map, list: seq<int>, k: nat)
    requires Holds(m, list) && Tight(m, |list|) && m.dindirect != 0
    requires k == Ceil(|list| - DIRECT - m.width, m.width)
    ensures |Kept(m.tables[m.dindirect])| == k
  {
    var n, w := |list|, m.width;
    RowsUsed(w, n, w, k);
    var d := m.tables[m.dindirect];
    forall i | 0 <= i < |d| ensures d[i] != 0 <==> i < k {
      assert Entry(m, i) == d[i];
      RowsUsed(w, n, i, k);
    }
    KeptPrefix(d, k);
  }

  lemma SectorsAre(m: Map, n: nat, perBlock: nat, acl: int, i: nat, k: nat, x: nat)
    requires m.width > 0 && i == |One(m.indirect)| && x == |One(acl)|
    requires k == if m.dindirect == 0 then 0 else 1 + RowCount(m, n)
    ensures RawSectors(m, n, perBlock, acl) == perBlock * (n + i + k + x)
  {
    hide RowCount;
    Spread(perBlock, n, i, k, x);
    if k > 0 {
      Spread(perBlock, k - 1, 1, 0, 0);
    }
  }

  lemma Spread(p: nat, a: nat, b: nat, c: nat, d: nat)
    ensures p * (a + b + c + d) == a * p + b * p + c * p + d * p
  {
  }

  /** The sector count is exact: one block's worth for every block the file owns. With blocks of
      at most 4096 bytes the 32-bit sum does not wrap. */
  lemma SectorsExact(m: Map, list: seq<int>, perBlock: nat, acl: int)
    requires Holds(m, list) && Tight(m, |list|) && 0 !in m.tables
    requires m.width <= 1024 && perBlock <= 8
    ensures Sectors(m, |list|, perBlock, acl) == perBlock * |Owned(m, list) + One(acl)|
  {
    hide RawSectors, Holds, Tight, Kept, Ceil;
    HeldSizes(m, list);
    var k := if m.dindirect == 0 then 0 else 1 + Ceil(|list| - DIRECT - m.width, m.width);
    if m.dindirect != 0 {
      CountRows(m, list, k - 1);
    }
    var i, x := |One(m.indirect)|, |One(acl)|;
    SectorsAre(m, |list|, perBlock, acl, i, k, x);
    assert |Owned(m, list) + One(acl)| == |list| + i + k + x;
    SmallEnough(m.width, |list| + i + k + x, perBlock);
  }

  /** What a file of this width can have at most. */
  lemma HeldSizes(m: Map, list: seq<int>)
    requires Holds(m, list) && Tight(m, |list|)
    ensures m.width > 0 && |list| <= DIRECT + m.width + m.width * m.width
    ensures m.dindirect != 0 ==>
              |list| > DIRECT + m.width && m.dindirect in m.tables && |m.tables[m.dindirect]| == m.width
    ensures m.dindirect != 0 ==> Ceil(|list| - DIRECT - m.width, m.width) <= m.width
  {
    RowIs(m.width, m.width);
    if m.dindirect != 0 {
      RowsUsed(m.width, |list|, m.width, Ceil(|list| - DIRECT - m.width, m.width));
    }
  }

  lemma SmallEnough(w: nat, n: nat, p: nat)
    requires w <= 1024 && n <= DIRECT + w + w * w + w + 3 && p <= 8
    ensures 0 <= p * n < LIMIT32
  {
    Grows(w, 1024, w);
    Grows(w, 1024, 1024);
    Grows(p, 8, n);
  }

  lemma Grows(a: nat, b: nat, c: nat)
    requires a <= b
    ensures a * c <= b * c
  {
    assert (b - a) * c >= 0;
  }

  // ---- Every list of blocks ------------------------------------------------------------------

  function Slice(list: seq<int>, from: nat, width: nat): (t: seq<int>)
    ensures |t| == width && forall i :: 0 <= i < width ==> t[i] == At(list, from + i)
  {
    seq(width, i requires 0 <= i < width => At(list, from + i))
  }

  /** The entries of the double indirect block: as many tables as the list needs, from block 3 on. */
  function RowTable(list: seq<int>, width: nat): (t: seq<int>)
    ensures |t| == width && forall di :: 0 <= di < width ==> t[di] == if Row(width, di) < |list| then 3 + di else 0
  {
    seq(width, di requires 0 <= di < width => if Row(width, di) < |list| then 3 + di else 0)
  }

  /** What block t holds in the map of a list: block 1 is its indirect block, block 2 its double
      indirect block, and the tables behind that follow. */
  function TableOf(list: seq<int>, width: nat, t: int): (table: seq<int>)
    ensures |table| == width
  {
    if t < 2 then Slice(list, DIRECT, width)
    else if t == 2 then RowTable(list, width) else Slice(list, Row(width, t - 3), width)
  }

  function MapOf(width: nat, list: seq<int>): (m: Map)
    ensures m.width == width && forall t :: t in m.tables <==> 1 <= t < 3 + width
    ensures forall t :: t in m.tables ==> m.tables[t] == TableOf(list, width, t)
  {
    Map(width, Slice(list, 0, DIRECT), if |list| > DIRECT then 1 else 0, if |list| > DIRECT + width then 2 else 0,
        map t | 1 <= t < 3 + width :: TableOf(list, width, t))
  }

  lemma MapEntries(width: nat, list: seq<int>, di: nat)
    requires width > 0 && di < width
    ensures Entry(MapOf(width, list), di) == if Row(width, di) < |list| then 3 + di else 0
    ensures RowOk(MapOf(width, list), list, di)
  {
    var m := MapOf(width, list);
    hide Row;
    RowsAfter(width, di);
    if Row(width, di) < |list| {
      assert m.tables[2] == RowTable(list, width);
      assert m.tables[3 + di] == Slice(list, Row(width, di), width);
    }
  }

  /** Every list of blocks that the three levels have room for is held by some inode, with no
      indirect block too many. */
  lemma EveryListIsHeld(width: nat, list: seq<int>)
    requires width > 0 && |list| <= Row(width, width) && forall i :: 0 <= i < |list| ==> list[i] != 0
    ensures Holds(MapOf(width, list), list) && Tight(MapOf(width, list), |list|)
  {
    hide Row, RowOk, Entry, MapOf, TableOf;
    var m := MapOf(width, list);
    forall di | 0 <= di < width
      ensures RowOk(m, list, di) && Entry(m, di) == if Row(width, di) < |list| then 3 + di else 0
    {
      MapEntries(width, list, di);
    }
    MapLevels(width, list);
  }

  lemma MapLevels(width: nat, list: seq<int>)
    ensures var m := MapOf(width, list);
            && DirectOk(m, list) && IndirectOk(m, list) && (m.dindirect != 0 ==> HasDouble(m))
            && (m.indirect == 0 <==> |list| <= DIRECT) && (m.dindirect == 0 <==> |list| <= DIRECT + width)
  {
    hide Row;
    assert TableOf(list, width, 1) == Slice(list, DIRECT, width);
  }

  /** Which blocks are not freed when only the first k are counted: those behind them. */
  lemma FreedBlocks(m: Map, list: seq<int>, k: nat, i: nat)
    requires Holds(m, list) && 0 !in m.tables && Distinct(list) && forall x :: x in list ==> x !in m.tables
    requires k <= |list| && i < |list|
    ensures list[i] in Owned(m, list[..k]) <==> i < k
  {
    hide Holds, Kept;
    OwnedOnce(m, list);
    var all, rest := Owned(m, list), Owned(m, list)[|list|..];
    assert Owned(m, list[..k]) == list[..k] + rest;
    forall j | 0 <= j < |rest| ensures rest[j] != list[i] {
      assert all[|list| + j] == rest[j] && all[i] == list[i];
    }
    if i < k {
      assert list[..k][i] == list[i];
    }
  }

  /** A file that is opened counts its blocks from its size: the next block that is appended takes
      the place of one it has exactly when the size does not cover them. */
  lemma ReopenedAppend(size: nat, bs: nat, list: seq<int>, b: int)
    requires 0 < bs < LIMIT32 && size < LIMIT32 && Distinct(list) && b !in list
    ensures (forall x :: x in list ==> x in Placed(list, Min(NeedBlocks(size, bs), |list|), b))
       <==> Covers(size, bs, |list|)
  {
    hide NeedBlocks, Covers;
    NeedCovers(size, bs, |list|);
    var k := Min(NeedBlocks(size, bs), |list|);
    var after := Placed(list, k, b);
    if k < |list| {
      forall i | 0 <= i < |after| ensures after[i] != list[k] {
        assert At(after, i) == if i == k then b else At(list, i);
      }
      assert list[k] in list && list[k] !in after;
      assert !Covers(size, bs, |list|);
      assert !(forall x :: x in list ==> x in after);
    } else {
      assert after == list + [b];
    }
  }

  function Numbered(n: nat): (list: seq<int>)
    ensures |list| == n && forall i :: 0 <= i < n ==> list[i] == 1000 + i
  {
    seq(n, i => 1000 + i)
  }

  /** A file of n blocks of 1024 bytes, behind its tables. */
  lemma SomeFile(n: nat)
    requires n <= 65000
    ensures var m, list := MapOf(256, Numbered(n)), Numbered(n);
            Holds(m, list) && 0 !in m.tables && Distinct(list) && forall x :: x in list ==> x !in m.tables
  {
    RowIs(256, 256);
    EveryListIsHeld(256, Numbered(n));
  }

  /** A file of one block more than the buffer holds, with its right size: the walk overruns. */
  lemma LongFileOverruns()
    ensures var m, list := MapOf(256, Numbered(4097)), Numbered(4097);
            && Holds(m, list) && Covers(4097 * 1024, 4 * m.width, |list|)
            && Min(NeedBlocks(4097 * 1024, 4 * m.width), |list|) > MAX_BLOCKS
  {
    SomeFile(4097);
  }

  /** A file of one block whose size was not written yet, as a power cut after the block was
      appended leaves it: the block is not freed. So it is with the largest size, which wraps. */
  lemma BlockIsNotFreed(size: nat)
    requires size == 0 || size == LIMIT32 - 1
    ensures var m, list := MapOf(256, Numbered(1)), Numbered(1);
            && Holds(m, list) && !Covers(size, 4 * m.width, |list|)
            && list[0] !in Owned(m, list[..Min(NeedBlocks(size, 4 * m.width), |list|)])
  {
    SomeFile(1);
    assert NeedBlocks(size, 1024) == 0;
    FreedBlocks(MapOf(256, Numbered(1)), Numbered(1), 0, 0);
  }

  // ---- The inode in memory -------------------------------------------------------------------

  /** Block t is one of the indirect blocks of the file. */
  ghost predicate Uses(m: Map, t: int) {
    t == m.indirect || t == m.dindirect || exists di :: 0 <= di < m.width && Entry(m, di) == t
  }

  /** Indirect blocks that are not this file's stay as they are. */
  ghost predicate OthersKept(m: Map, m': Map) {
    && m'.width == m.width
    && forall t :: t in m.tables && !Uses(m, t) ==> t in m'.tables && m'.tables[t] == m.tables[t]
  }

  /** A file whose indirect blocks are its own keeps its blocks while another one grows. */
  lemma OtherFilesKept(m: Map, m': Map, o: Map, list: seq<int>)
    requires OthersKept(m, m') && o.width == m.width && o.tables == m.tables && Holds(o, list)
    requires forall t :: t != 0 && Uses(o, t) ==> !Uses(m, t)
    ensures Holds(o.(tables := m'.tables), list)
  {
    var o' := o.(tables := m'.tables);
    forall di | 0 <= di < o.width ensures RowOk(o', list, di) && Entry(o', di) == Entry(o, di) {
      assert RowOk(o, list, di);
      assert Entry(o, di) != 0 ==> Uses(o, Entry(o, di));
    }
  }

  /** The file can take a block at place n: there is a place for it, and the allocator had a block
      for each indirect block that is missing. */
  ghost predicate Room(m: Map, n: nat, forTable: int, forRow: int)
    requires m.width > 0
  {
    if n < DIRECT then true
    else if n < DIRECT + m.width then m.indirect != 0 || forTable != 0
    else var di := Outer(m.width, n - DIRECT - m.width);
      n < Row(m.width, m.width) && (m.dindirect != 0 || forTable != 0) && (Entry(m, di) != 0 || forRow != 0)
  }

  class File {
    var m: Map
    ghost var list: seq<int>

    ghost predicate Valid()
      reads this
    {
      Holds(m, list) && 0 !in m.tables
    }

    /** A write behind the end of the file takes one block more, if the allocator has one (b is 0
        when it has none): the server never grows a file past what its buffers hold. */
    method Grow(n: nat, b: int, forTable: int, forRow: int) returns (ok: bool)
      requires Valid() && n <= |list|
      requires forTable !in m.tables && forRow !in m.tables && (forTable == forRow ==> forTable == 0)
      modifies this
      ensures Valid() && OthersKept(old(m), m)
      ensures ok <==> n < MAX_BLOCKS && b != 0 && old(Room(m, n, forTable, forRow))
      ensures list == if ok then Placed(old(list), n, b) else old(list)
      ensures old(|list|) <= MAX_BLOCKS ==> |list| <= MAX_BLOCKS
    {
      if n >= MAX_BLOCKS || b == 0 {
        return false;
      }
      ok := AppendBlock(n, b, forTable, forRow);
    }

    /** Writes block number b at place n of the file, which is its end if all its blocks were counted;
        the other blocks stay where they are. The allocator hands out no block that is an indirect
        block already, and 0 when it has none. */
    method AppendBlock(n: nat, b: int, forTable: int, forRow: int) returns (ok: bool)
      requires Valid() && n <= |list| && b != 0
      requires forTable !in m.tables && forRow !in m.tables && (forTable == forRow ==> forTable == 0)
      modifies this
      ensures Valid() && OthersKept(old(m), m)
      ensures ok <==> old(Room(m, n, forTable, forRow))
      ensures list == if ok then Placed(old(list), n, b) else old(list)
      ensures ok && old(Tight(m, |list|)) ==> Tight(m, |list|)
      ensures m.tables.Keys <= old(m.tables.Keys) + {forTable, forRow}
    {
      hide IndirectOk, DoubleOk, Tight, Row, Outer, Inner;
      if n < DIRECT {
        AppendDirect(n, b);
        return true;
      }
      var idx := n - DIRECT;
      if idx < m.width {
        ok := AppendIndirect(n, b, forTable);
        return;
      }
      idx := idx - m.width;
      RowOf(m.width, idx);
      var di, si := Outer(m.width, idx), Inner(m.width, idx);
      if di >= m.width {
        return false;
      }
      ok := AppendRow(n, di, si, b, forTable, forRow);
    }

    method AppendDirect(n: nat, b: int)
      requires Valid() && n <= |list| && n < DIRECT && b != 0
      modifies this
      ensures Valid() && OthersKept(old(m), m) && list == Placed(old(list), n, b)
      ensures old(Tight(m, |list|)) ==> Tight(m, |list|)
      ensures m.tables == old(m.tables)
    {
      HeldDirect(m, list, n, b);
      if n == |list| && Tight(m, n) {
        RowsAbove(m.width, n);
        TightNext(m, n);
      }
      m := m.(direct := m.direct[n := b]);
      list := Placed(list, n, b);
    }

    method AppendIndirect(n: nat, b: int, forTable: int) returns (ok: bool)
      requires Valid() && DIRECT <= n <= |list| && n < DIRECT + m.width && b != 0 && forTable !in m.tables
      modifies this
      ensures Valid() && OthersKept(old(m), m)
      ensures ok <==> old(m).indirect != 0 || forTable != 0
      ensures list == if ok then Placed(old(list), n, b) else old(list)
      ensures old(Tight(m, |list|)) ==> Tight(m, |list|)
      ensures m.tables.Keys <= old(m.tables.Keys) + {forTable}
    {
      ghost var m0 := m;
      if m.indirect == 0 {
        if forTable == 0 {
          return false;
        }
        NewIndirect(m, list, forTable);
        m := WithIndirect(m, forTable);
      } else if n == |list| && Tight(m, n) {
        RowsAbove(m.width, n);
        TightNext(m, n);
      }
      HeldIndirect(m, list, n, b);
      m := WithBlock(m, m.indirect, n - DIRECT, b);
      list := Placed(list, n, b);
      ok := true;
    }

    method AppendRow(n: nat, di: nat, si: nat, b: int, forTable: int, forRow: int) returns (ok: bool)
      requires Valid() && n <= |list| && di < m.width && si < m.width && n == Row(m.width, di) + si && b != 0
      requires forTable !in m.tables && forRow !in m.tables && (forTable == forRow ==> forTable == 0)
      modifies this
      ensures Valid() && OthersKept(old(m), m)
      ensures ok <==> (old(m).dindirect != 0 || forTable != 0) && (Entry(old(m), di) != 0 || forRow != 0)
      ensures list == if ok then Placed(old(list), n, b) else old(list)
      ensures ok && old(Tight(m, |list|)) ==> Tight(m, |list|)
      ensures m.tables.Keys <= old(m.tables.Keys) + {forTable, forRow}
    {
      hide DirectOk, IndirectOk, RowsApart, Tight, Row;
      ghost var m0 := m;
      RowsAfter(m.width, di);
      assert RowOk(m, list, di);
      if m.dindirect == 0 {
        if forTable == 0 {
          return false;
        }
        NewDouble(m, list, forTable);
        m := WithDouble(m, forTable);
      }
      if m.tables[m.dindirect][di] == 0 {
        if forRow == 0 {
          return false;
        }
        NewRow(m, list, di, forRow);
        m := WithRow(m, di, forRow);
      }
      assert RowOk(m, list, di);
      HeldRow(m, list, di, si, b);
      if n == |list| && Tight(m0, n) {
        TightAppend(m0, m, di, si);
      }
      m := WithBlock(m, m.tables[m.dindirect][di], si, b);
      list := Placed(list, n, b);
      ok := true;
    }
  }

  /** A new row is begun exactly where the blocks of the file reach it. */
  lemma TightAppend(m: Map, m': Map, di: nat, si: nat)
    requires di < m.width == m'.width && si < m.width && m.indirect == m'.indirect && m'.dindirect != 0
    requires Tight(m, Row(m.width, di) + si)
    requires forall dj :: 0 <= dj < m.width && dj != di ==> (Entry(m, dj) != 0 <==> Entry(m', dj) != 0)
    requires Entry(m', di) != 0
    ensures Tight(m', Row(m.width, di) + si + 1)
  {
    if si == 0 {
      TightRow(m, m', di);
    } else {
      RowsAfter(m.width, di);
      forall dj | 0 <= dj < m.width ensures Row(m.width, di) + si != Row(m.width, dj) {
        if di < dj {
          RowOrder(m.width, di, dj);
        } else if dj < di {
          RowOrder(m.width, dj, di);
        }
      }
      assert Tight(m', Row(m.width, di) + si);
      TightNext(m', Row(m.width, di) + si);
    }
  }

  lemma RowsAbove(width: nat, n: nat)
    requires n < DIRECT + width
    ensures forall di :: 0 <= di < width ==> n < Row(width, di)
  {
    forall di | 0 <= di < width ensures n < Row(width, di) {
      RowsAfter(width, di);
    }
  }
}
