/** Four-level page tables: tables of 512 entries in physical memory, walked from a root by the
    four index fields of an address (section 4.5 of the Intel SDM, volume 3A). */
module PageTables {
  const ENTRIES: nat := 512

  // ---- Entries -------------------------------------------------------------------------------

  /** An entry: the flags the kernel uses and the page-aligned address it points to. */
  datatype Entry = Entry(present: bool, writable: bool, user: bool, large: bool, noExecute: bool, address: nat)

  const EMPTY: Entry := Entry(false, false, false, false, false, 0)

  /** Protection asked for. */
  datatype Prot = Prot(write: bool, exec: bool, user: bool)

  /** A physical address as mapping takes it and unmapping gives it: unmapping leaves the
      no-execute bit of the entry in it. */
  datatype Frame = Frame(address: nat, noExecute: bool)

  const NO_FRAME: Frame := Frame(0, false)

  /** The entry that points to a next-level table. */
  function TableEntry(table: nat): Entry { Entry(true, true, true, false, false, table) }

  /** The entry that maps a frame. */
  function PageEntry(f: Frame, prot: Prot): Entry {
    Entry(true, prot.write, prot.user, false, f.noExecute || !prot.exec, f.address)
  }

  // ---- Tables --------------------------------------------------------------------------------

  type Memory = map<int, seq<Entry>>

  /** The indices of an address at the four levels, top first. */
  datatype Page = Page(i4: nat, i3: nat, i2: nat, i1: nat)

  predicate PageOk(p: Page) { p.i4 < ENTRIES && p.i3 < ENTRIES && p.i2 < ENTRIES && p.i1 < ENTRIES }

  /** The tables in use form trees: a table below the top level is pointed to from exactly one
      entry, its owner, that restricts no access, and there are no large pages. */
  ghost predicate Forest(mem: Memory, level: map<int, int>, owner: map<int, (int, nat)>) {
    && (forall t :: t in level ==> t in mem && |mem[t]| == ENTRIES && 1 <= level[t] <= 4)
    && (forall t, i :: t in level && level[t] > 1 && 0 <= i < ENTRIES && mem[t][i].present ==>
          Child(mem[t][i], level, owner, t, i))
  }

  ghost predicate Child(e: Entry, level: map<int, int>, owner: map<int, (int, nat)>, t: int, i: nat) {
    var c := e.address;
    && !e.large && e.writable && e.user && !e.noExecute
    && c in level && t in level && level[c] == level[t] - 1 && c in owner && owner[c] == (t, i)
  }

  /** The table an entry leads to, or none. */
  datatype Step = Nowhere | To(table: int)

  function Down(mem: Memory, t: int, i: nat): Step {
    if t in mem && i < |mem[t]| && mem[t][i].present then To(mem[t][i].address) else Nowhere
  }

  /** The last-level table of a page, if the walk gets there. */
  function Last(mem: Memory, root: int, p: Page): Step {
    match Down(mem, root, p.i4)
    case Nowhere => Nowhere
    case To(t3) =>
      match Down(mem, t3, p.i3)
      case Nowhere => Nowhere
      case To(t2) => Down(mem, t2, p.i2)
  }

  /** The entry of a page, empty when the walk ends early. */
  function EntryOf(mem: Memory, root: int, p: Page): Entry {
    match Last(mem, root, p)
    case Nowhere => EMPTY
    case To(t1) => if t1 in mem && p.i1 < |mem[t1]| then mem[t1][p.i1] else EMPTY
  }

  /** The frame a page is mapped to, or 0. */
  function Translation(mem: Memory, root: int, p: Page): int {
    var e := EntryOf(mem, root, p);
    if e.present then e.address else 0
  }

  // ---- Access ----------------------------------------------------------------------------------

  /** An access: whether it writes, fetches an instruction, comes from user mode. */
  datatype Access = Access(write: bool, exec: bool, user: bool)

  predicate Allows(e: Entry, a: Access) {
    e.present && (a.write ==> e.writable) && (a.exec ==> !e.noExecute) && (a.user ==> e.user)
  }

  function EntryAt(mem: Memory, t: int, i: nat): Entry { if t in mem && i < |mem[t]| then mem[t][i] else EMPTY }

  /** The processor allows an access that the entries of all four levels allow (section 4.6.1 of the
      Intel SDM, volume 3A, with write protection on). */
  predicate Permits(mem: Memory, root: int, p: Page, a: Access) {
    var e4 := EntryAt(mem, root, p.i4);
    var e3 := EntryAt(mem, e4.address, p.i3);
    var e2 := EntryAt(mem, e3.address, p.i2);
    Allows(e4, a) && Allows(e3, a) && Allows(e2, a) && Allows(EntryAt(mem, e2.address, p.i1), a)
  }

  /** Only the entry of the page itself counts. */
  lemma PermitsLast(mem: Memory, level: map<int, int>, owner: map<int, (int, nat)>, r: int, p: Page)
    requires Forest(mem, level, owner) && Root(level, r) && PageOk(p)
    ensures forall a :: Permits(mem, r, p, a) <==> Allows(EntryOf(mem, r, p), a)
  {
    DownIs(mem, level, owner, r, p.i4);
    if Down(mem, r, p.i4).To? {
      var t3 := Down(mem, r, p.i4).table;
      assert Child(mem[r][p.i4], level, owner, r, p.i4);
      DownIs(mem, level, owner, t3, p.i3);
      if Down(mem, t3, p.i3).To? {
        var t2 := Down(mem, t3, p.i3).table;
        assert Child(mem[t3][p.i3], level, owner, t3, p.i3);
        DownIs(mem, level, owner, t2, p.i2);
        if Down(mem, t2, p.i2).To? {
          assert Child(mem[t2][p.i2], level, owner, t2, p.i2);
        }
      }
    }
  }

  ghost predicate Root(level: map<int, int>, r: int) {
    r in level && level[r] == 4
  }

  /** Following a present entry of a table in use leads to its child. */
  lemma DownIs(mem: Memory, level: map<int, int>, owner: map<int, (int, nat)>, t: int, i: nat)
    requires Forest(mem, level, owner) && t in level && level[t] > 1 && i < ENTRIES
    ensures Down(mem, t, i).To? ==>
              var c := Down(mem, t, i).table; c in level && level[c] == level[t] - 1 && c in owner && owner[c] == (t, i)
  {
  }

  /** The last-level table of a page belongs to that page's table path alone. */
  lemma LastIs(mem: Memory, level: map<int, int>, owner: map<int, (int, nat)>, r: int, p: Page)
    requires Forest(mem, level, owner) && Root(level, r) && PageOk(p)
    ensures Last(mem, r, p).To? ==>
              var t1 := Last(mem, r, p).table;
              && t1 in level && level[t1] == 1 && t1 in owner && owner[t1].1 == p.i2
              && owner[t1].0 in owner && owner[owner[t1].0].1 == p.i3
              && owner[owner[t1].0].0 in owner && owner[owner[owner[t1].0].0] == (r, p.i4)
  {
    hide Forest, Down;
    DownIs(mem, level, owner, r, p.i4);
    if Down(mem, r, p.i4).To? {
      var t3 := Down(mem, r, p.i4).table;
      DownIs(mem, level, owner, t3, p.i3);
      if Down(mem, t3, p.i3).To? {
        DownIs(mem, level, owner, Down(mem, t3, p.i3).table, p.i2);
      }
    }
  }

  lemma SamePath(mem: Memory, level: map<int, int>, owner: map<int, (int, nat)>, r: int, p: Page, r': int, p': Page)
    requires Forest(mem, level, owner) && Root(level, r) && Root(level, r') && PageOk(p) && PageOk(p')
    requires Last(mem, r, p).To? && Last(mem, r, p) == Last(mem, r', p')
    ensures r == r' && p.i4 == p'.i4 && p.i3 == p'.i3 && p.i2 == p'.i2
  {
    hide Forest, Last;
    LastIs(mem, level, owner, r, p);
    LastIs(mem, level, owner, r', p');
  }

  // ---- A new table ---------------------------------------------------------------------------

  function Zeros(): (s: seq<Entry>)
    ensures |s| == ENTRIES && forall i :: 0 <= i < ENTRIES ==> s[i] == EMPTY
  {
    seq(ENTRIES, _ => EMPTY)
  }

  function Hang(mem: Memory, t: int, i: nat, c: nat): Memory
    requires t in mem && i < |mem[t]|
  {
    mem[c := Zeros()][t := mem[t][i := TableEntry(c)]]
  }

  ghost predicate Hangable(mem: Memory, level: map<int, int>, owner: map<int, (int, nat)>, t: int, i: nat, c: nat) {
    && Forest(mem, level, owner) && t in level && level[t] > 1 && i < ENTRIES && !mem[t][i].present
    && c !in level
  }

  lemma HangForest(mem: Memory, level: map<int, int>, owner: map<int, (int, nat)>, t: int, i: nat, c: nat)
    requires Hangable(mem, level, owner, t, i, c)
    ensures t in mem && i < |mem[t]| && Forest(Hang(mem, t, i, c), level[c := level[t] - 1], owner[c := (t, i)])
  {
  }

  /** A new empty table changes no walk but the one step that now leads to it. */
  lemma HangDown(mem: Memory, level: map<int, int>, owner: map<int, (int, nat)>, t: int, i: nat, c: nat, s: int, j: nat)
    requires Hangable(mem, level, owner, t, i, c) && j < ENTRIES
    ensures t in mem && i < |mem[t]|
    ensures s in level && (s, j) != (t, i) ==> Down(Hang(mem, t, i, c), s, j) == Down(mem, s, j)
    ensures Down(mem, t, i) == Nowhere && Down(Hang(mem, t, i, c), t, i) == To(c)
    ensures Down(Hang(mem, t, i, c), c, j) == Nowhere
  {
  }

  lemma HangEntry(mem: Memory, level: map<int, int>, owner: map<int, (int, nat)>, t: int, i: nat, c: nat, r: int,
                  p: Page)
    requires Hangable(mem, level, owner, t, i, c) && Root(level, r) && PageOk(p)
    ensures t in mem && i < |mem[t]| && EntryOf(Hang(mem, t, i, c), r, p) == EntryOf(mem, r, p)
  {
    hide Forest, Down, Hang;
    HangDown(mem, level, owner, t, i, c, r, p.i4);
    HangDown(mem, level, owner, t, i, c, r, p.i3);
    DownIs(mem, level, owner, r, p.i4);
    if Down(mem, r, p.i4).To? {
      var t3 := Down(mem, r, p.i4).table;
      HangDown(mem, level, owner, t, i, c, t3, p.i3);
      HangDown(mem, level, owner, t, i, c, t3, p.i2);
      DownIs(mem, level, owner, t3, p.i3);
      if Down(mem, t3, p.i3).To? {
        var t2 := Down(mem, t3, p.i3).table;
        HangDown(mem, level, owner, t, i, c, t2, p.i2);
        DownIs(mem, level, owner, t2, p.i2);
        HangTable(mem, level, owner, t, i, c, if Down(mem, t2, p.i2).To? then Down(mem, t2, p.i2).table else c);
      }
    }
  }

  /** Last-level tables are as before, and the new one is empty. */
  lemma HangTable(mem: Memory, level: map<int, int>, owner: map<int, (int, nat)>, t: int, i: nat, c: nat, s: int)
    requires Hangable(mem, level, owner, t, i, c) && (s == c || (s in level && level[s] == 1))
    ensures t in mem && i < |mem[t]| && s in Hang(mem, t, i, c) && |Hang(mem, t, i, c)[s]| == ENTRIES
    ensures s == c ==> forall j :: 0 <= j < ENTRIES ==> Hang(mem, t, i, c)[s][j] == EMPTY
    ensures s != c ==> s in mem && Hang(mem, t, i, c)[s] == mem[s]
  {
  }

  // ---- A changed page ------------------------------------------------------------------------

  function Put(mem: Memory, t: int, i: nat, e: Entry): Memory
    requires t in mem && i < |mem[t]|
  {
    mem[t := mem[t][i := e]]
  }

  lemma PutForest(mem: Memory, level: map<int, int>, owner: map<int, (int, nat)>, t: int, i: nat, e: Entry)
    requires Forest(mem, level, owner) && t in level && level[t] == 1 && i < ENTRIES
    ensures t in mem && i < |mem[t]| && Forest(Put(mem, t, i, e), level, owner)
  {
  }

  lemma PutDown(mem: Memory, level: map<int, int>, owner: map<int, (int, nat)>, t: int, i: nat, e: Entry, s: int,
                j: nat)
    requires Forest(mem, level, owner) && t in level && level[t] == 1 && i < ENTRIES && s in level && level[s] > 1
    ensures t in mem && i < |mem[t]| && Down(Put(mem, t, i, e), s, j) == Down(mem, s, j)
  {
  }

  lemma PutLast(mem: Memory, level: map<int, int>, owner: map<int, (int, nat)>, t: int, i: nat, e: Entry, r: int,
                p: Page)
    requires Forest(mem, level, owner) && t in level && level[t] == 1 && i < ENTRIES && Root(level, r) && PageOk(p)
    ensures t in mem && i < |mem[t]| && Last(Put(mem, t, i, e), r, p) == Last(mem, r, p)
  {
    hide Forest, Down, Put;
    PutDown(mem, level, owner, t, i, e, r, p.i4);
    DownIs(mem, level, owner, r, p.i4);
    if Down(mem, r, p.i4).To? {
      var t3 := Down(mem, r, p.i4).table;
      PutDown(mem, level, owner, t, i, e, t3, p.i3);
      DownIs(mem, level, owner, t3, p.i3);
      if Down(mem, t3, p.i3).To? {
        PutDown(mem, level, owner, t, i, e, Down(mem, t3, p.i3).table, p.i2);
      }
    }
  }

  /** Writing the entry of one page changes the entry of no other page, in any address space. */
  lemma PutEntry(mem: Memory, level: map<int, int>, owner: map<int, (int, nat)>, r: int, p: Page, e: Entry, r': int,
                 p': Page)
    requires Forest(mem, level, owner) && Root(level, r) && PageOk(p) && Last(mem, r, p).To? && Root(level, r')
    requires PageOk(p')
    ensures var t := Last(mem, r, p).table;
            && t in mem && p.i1 < |mem[t]|
            && EntryOf(Put(mem, t, p.i1, e), r', p') == if r' == r && p' == p then e else EntryOf(mem, r', p')
  {
    hide Forest, Down, Last;
    var t := Last(mem, r, p).table;
    LastIs(mem, level, owner, r, p);
    LastIs(mem, level, owner, r', p');
    PutLast(mem, level, owner, t, p.i1, e, r', p');
    TableSize(mem, level, owner, t);
    if Last(mem, r', p') == To(t) {
      SamePath(mem, level, owner, r, p, r', p');
    }
  }

  lemma TableSize(mem: Memory, level: map<int, int>, owner: map<int, (int, nat)>, t: int)
    requires Forest(mem, level, owner) && t in level
    ensures t in mem && |mem[t]| == ENTRIES
  {
  }

  // ---- Operations ----------------------------------------------------------------------------

  /** Every page of every address space has the entry it had. */
  ghost predicate SameEntries(mem: Memory, mem': Memory, level: map<int, int>) {
    forall r, p :: Root(level, r) && PageOk(p) ==> EntryOf(mem', r, p) == EntryOf(mem, r, p)
  }

  /** Every page of every address space but one has the entry it had. */
  ghost predicate OneEntry(mem: Memory, mem': Memory, level: map<int, int>, r: int, p: Page, e: Entry) {
    && EntryOf(mem', r, p) == e
    && forall r', p' :: Root(level, r') && PageOk(p') && (r' != r || p' != p) ==>
         EntryOf(mem', r', p') == EntryOf(mem, r', p')
  }

  /** Physical memory with the page tables of all address spaces in it, and the pages the
      allocator has left. */
  class Mmu {
    var mem: Memory
    var pool: seq<nat>
    ghost var level: map<int, int>
    ghost var owner: map<int, (int, nat)>

    ghost predicate Valid()
      reads this
    {
      Forest(mem, level, owner) && Spare(pool, level)
    }

    constructor (pages: seq<nat>)
      requires forall i, j :: 0 <= i < j < |pages| ==> pages[i] != pages[j]
      ensures Valid() && level == map[] && pool == pages
    {
      mem, pool, level, owner := map[], pages, map[], map[];
    }

    /** The table below entry i of table t, which is allocated if it is missing. */
    method GetNextLevel(t: int, i: nat) returns (next: int)
      requires Valid() && t in level && level[t] > 1 && i < ENTRIES && |pool| > 0
      modifies this
      ensures Valid() && Down(mem, t, i) == To(next) && next in level && level[next] == old(level)[t] - 1
      ensures SameEntries(old(mem), mem, old(level)) && Grown(old(level), level) && |pool| >= |old(pool)| - 1
      ensures forall s, j :: s in old(level) && 0 <= j < ENTRIES && (s, j) != (t, i) ==>
                Down(mem, s, j) == Down(old(mem), s, j)
    {
      TableSize(mem, level, owner, t);
      if !mem[t][i].present {
        var spare := pool[0];
        HangForest(mem, level, owner, t, i, spare);
        forall r, p | Root(level, r) && PageOk(p) ensures EntryOf(Hang(mem, t, i, spare), r, p) == EntryOf(mem, r, p) {
          HangEntry(mem, level, owner, t, i, spare, r, p);
        }
        forall s, j | s in level && 0 <= j < ENTRIES && (s, j) != (t, i)
          ensures Down(Hang(mem, t, i, spare), s, j) == Down(mem, s, j)
        {
          HangDown(mem, level, owner, t, i, spare, s, j);
        }
        pool := pool[1..];
        mem := mem[spare := Zeros()];
        mem := mem[t := mem[t][i := TableEntry(spare)]];
        level, owner := level[spare := level[t] - 1], owner[spare := (t, i)];
      }
      next := mem[t][i].address;
      DownIs(mem, level, owner, t, i);
    }

    /** Maps one page; the translation of no other page changes, in any address space. */
    method MapPage(root: int, p: Page, f: Frame, prot: Prot)
      requires Valid() && Root(level, root) && PageOk(p) && |pool| >= 3
      modifies this
      ensures Valid() && Grown(old(level), level) && |pool| >= |old(pool)| - 3
      ensures OneEntry(old(mem), mem, old(level), root, p, PageEntry(f, prot))
      ensures EntryOf(mem, root, p).present && EntryOf(mem, root, p).address == f.address
      ensures forall a :: Permits(mem, root, p, a) <==>
                (a.write ==> prot.write) && (a.exec ==> prot.exec && !f.noExecute) && (a.user ==> prot.user)
    {
      hide Forest, Down, Put, EntryOf, Permits;
      var t3 := GetNextLevel(root, p.i4);
      var t2 := GetNextLevel(t3, p.i3);
      var t1 := GetNextLevel(t2, p.i2);
      assert Last(mem, root, p) == To(t1);
      TableSize(mem, level, owner, t1);
      PutForest(mem, level, owner, t1, p.i1, PageEntry(f, prot));
      forall r', p' | Root(old(level), r') && PageOk(p')
        ensures EntryOf(Put(mem, t1, p.i1, PageEntry(f, prot)), r', p')
                == if r' == root && p' == p then PageEntry(f, prot) else EntryOf(mem, r', p')
      {
        PutEntry(mem, level, owner, root, p, PageEntry(f, prot), r', p');
      }
      PutIs(mem, t1, p.i1, PageEntry(f, prot));
      mem := mem[t1 := mem[t1][p.i1 := PageEntry(f, prot)]];
      PermitsLast(mem, level, owner, root, p);
    }

    /** The last-level table of a page, or -1 when the walk ends early. There are no large pages
        to stop at. */
    method WalkToTable(root: int, p: Page) returns (t: int)
      requires Valid() && Root(level, root) && PageOk(p)
      ensures t == -1 <==> Last(mem, root, p).Nowhere?
      ensures t != -1 ==> Last(mem, root, p) == To(t) && t in level && level[t] == 1 && t in mem && |mem[t]| == ENTRIES
    {
      LastIs(mem, level, owner, root, p);
      TableSize(mem, level, owner, root);
      if !mem[root][p.i4].present {
        return -1;
      }
      DownIs(mem, level, owner, root, p.i4);
      var t3 := mem[root][p.i4].address;
      if !mem[t3][p.i3].present {
        return -1;
      }
      DownIs(mem, level, owner, t3, p.i3);
      var t2 := mem[t3][p.i3].address;
      if !mem[t2][p.i2].present {
        return -1;
      }
      t := mem[t2][p.i2].address;
    }

    /** Unmaps one page and returns what it was mapped to. */
    method UnmapPage(root: int, p: Page) returns (f: Frame)
      requires Valid() && Root(level, root) && PageOk(p)
      modifies `mem
      ensures Valid()
      ensures f == if EntryOf(old(mem), root, p).present
                   then Frame(EntryOf(old(mem), root, p).address, EntryOf(old(mem), root, p).noExecute) else NO_FRAME
      ensures !EntryOf(mem, root, p).present && forall a :: !Permits(mem, root, p, a)
      ensures OneEntry(old(mem), mem, level, root, p, Dropped(EntryOf(old(mem), root, p)))
    {
      hide Forest, Down, Put, Last, Permits;
      var t := WalkToTable(root, p);
      if t == -1 || !mem[t][p.i1].present {
        PermitsLast(mem, level, owner, root, p);
        return NO_FRAME;
      }
      f := Frame(mem[t][p.i1].address, mem[t][p.i1].noExecute);
      PutForest(mem, level, owner, t, p.i1, EMPTY);
      forall r', p' | Root(level, r') && PageOk(p')
        ensures EntryOf(Put(mem, t, p.i1, EMPTY), r', p') == if r' == root && p' == p then EMPTY
                  else EntryOf(mem, r', p')
      {
        PutEntry(mem, level, owner, root, p, EMPTY, r', p');
      }
      PutIs(mem, t, p.i1, EMPTY);
      mem := mem[t := mem[t][p.i1 := EMPTY]];
      PermitsLast(mem, level, owner, root, p);
    }

    /** The frame a page is mapped to, or 0. */
    method Translate(root: int, p: Page) returns (f: int)
      requires Valid() && Root(level, root) && PageOk(p)
      ensures f == Translation(mem, root, p)
    {
      hide Forest, Last;
      var t := WalkToTable(root, p);
      if t == -1 || !mem[t][p.i1].present {
        return 0;
      }
      f := mem[t][p.i1].address;
    }

    /** A new address space maps nothing and changes no other. */
    method CreateAddressSpace() returns (root: int)
      requires Valid() && |pool| >= 2
      modifies this
      ensures Valid() && Root(level, root) && root !in old(level) && |pool| >= |old(pool)| - 2
      ensures forall p :: PageOk(p) ==> EntryOf(mem, root, p) == EMPTY && Translation(mem, root, p) == 0
      ensures SameEntries(old(mem), mem, old(level))
    {
      ghost var was := mem;
      root := pool[0];
      NewRoot(mem, level, owner, root);
      pool := pool[1..];
      mem := mem[root := Zeros()];
      level := level[root := 4];
      var _ := GetNextLevel(root, 0);
    }

    /** Any sequence of maps and unmaps has the effect it would have on a plain map from pages to
        frames. */
    method Run(ops: seq<Op>)
      requires Valid() && |pool| >= 3 * |ops|
      requires forall i :: 0 <= i < |ops| ==> Root(level, ops[i].root) && PageOk(ops[i].page)
      modifies this
      ensures Valid() && Grown(old(level), level)
      ensures forall r, p :: Root(old(level), r) && PageOk(p) ==>
                Translation(mem, r, p) == After(ops, r, p, Translation(old(mem), r, p))
    {
      hide Forest, EntryOf, Spare;
      for i := 0 to |ops|
        invariant Valid() && Grown(old(level), level) && |pool| >= 3 * (|ops| - i)
        invariant forall r, p :: Root(old(level), r) && PageOk(p) ==>
                    Translation(mem, r, p) == After(ops[..i], r, p, Translation(old(mem), r, p))
      {
        forall r, p, t ensures After(ops[..i + 1], r, p, t) == Effect(ops[i], r, p, After(ops[..i], r, p, t)) {
          assert ops[..i + 1] == ops[..i] + [ops[i]];
          AfterLast(ops[..i], ops[i], r, p, t);
        }
        match ops[i] {
          case Map(root, page, f, prot) => MapPage(root, page, f, prot);
          case Unmap(root, page) => var _ := UnmapPage(root, page);
        }
      }
      assert ops[..|ops|] == ops;
    }
  }

  datatype Op = Map(root: int, page: Page, frame: Frame, prot: Prot) | Unmap(root: int, page: Page)

  /** The effect of one operation on the translation of one page. */
  function Effect(op: Op, r: int, p: Page, t: int): int {
    if op.root != r || op.page != p then t else if op.Map? then op.frame.address else 0
  }

  function After(ops: seq<Op>, r: int, p: Page, t: int): int {
    if ops == [] then t else After(ops[1..], r, p, Effect(ops[0], r, p, t))
  }

  lemma {:induction false} AfterLast(ops: seq<Op>, op: Op, r: int, p: Page, t: int)
    ensures After(ops + [op], r, p, t) == Effect(op, r, p, After(ops, r, p, t))
  {
    if ops == [] {
      assert After([op], r, p, t) == After([], r, p, Effect(op, r, p, t));
    } else {
      assert (ops + [op])[1..] == ops[1..] + [op];
      AfterLast(ops[1..], op, r, p, Effect(ops[0], r, p, t));
    }
  }

  /** What unmapping an entry gives back. */
  function Unmapped(e: Entry): Frame {
    if e.present then Frame(e.address, e.noExecute) else NO_FRAME
  }

  /** What unmapping leaves of an entry. */
  function Dropped(e: Entry): Entry { if e.present then EMPTY else e }

  lemma NewRoot(mem: Memory, level: map<int, int>, owner: map<int, (int, nat)>, root: nat)
    requires Forest(mem, level, owner) && root !in level
    ensures Forest(mem[root := Zeros()], level[root := 4], owner)
    ensures forall p :: PageOk(p) ==> EntryOf(mem[root := Zeros()], root, p) == EMPTY
    ensures SameEntries(mem, mem[root := Zeros()], level)
  {
    forall r, p | Root(level, r) && PageOk(p) ensures EntryOf(mem[root := Zeros()], r, p) == EntryOf(mem, r, p) {
      LastIs(mem, level, owner, r, p);
      DownIs(mem, level, owner, r, p.i4);
    }
  }

  /** Tables are only ever added, and none at the top level. */
  ghost predicate Grown(level: map<int, int>, level': map<int, int>) {
    && (forall t :: t in level ==> t in level' && level'[t] == level[t])
    && (forall t :: t in level' && level'[t] == 4 ==> t in level)
  }

  /** The allocator's pages are distinct and none of them is in use as a table. */
  ghost predicate Spare(pool: seq<nat>, level: map<int, int>) {
    && (forall i :: 0 <= i < |pool| ==> pool[i] !in level)
    && (forall i, j :: 0 <= i < j < |pool| ==> pool[i] != pool[j])
  }

  lemma PutIs(mem: Memory, t: int, i: nat, e: Entry)
    requires t in mem && i < |mem[t]|
    ensures Put(mem, t, i, e) == mem[t := mem[t][i := e]]
  {
  }
}
