/** Moving pages between address spaces and copying bytes to and from user memory. */
module UserMemory {
  import opened Common
  import opened PageTables

  const BATCH_MAX: nat := 32
  const PAGE: nat := 0x1000
  const PAGES: nat := 0x10_0000_0000   // pages the four index fields can name

  /** The number of the page an address lies in, as far as the index fields see it. */
  function PageNumber(va: nat): nat { va / PAGE % PAGES }

  function PageAt(n: nat): Page {
    Page(n / 0x800_0000 % ENTRIES, n / 0x4_0000 % ENTRIES, n / ENTRIES % ENTRIES, n % ENTRIES)
  }

  /** The index fields of an address. */
  function PageOf(va: nat): Page { PageAt(PageNumber(va)) }

  lemma PageAtIs(n: nat)
    requires n < PAGES
    ensures PageOk(PageAt(n))
    ensures n == PageAt(n).i1 + ENTRIES * (PageAt(n).i2 + ENTRIES * (PageAt(n).i3 + ENTRIES * PageAt(n).i4))
  {
  }

  lemma PageAtInjective(n: nat, m: nat)
    requires n < PAGES && m < PAGES && PageAt(n) == PageAt(m)
    ensures n == m
  {
    hide PageAt;
    PageAtIs(n);
    PageAtIs(m);
  }

  /** `count` pages in a row, from the page of an address on. */
  function PagesFrom(va: nat, count: nat): (s: seq<Page>)
    ensures |s| == count && forall i :: 0 <= i < count ==> s[i] == PageOf((va + i * PAGE) % LIMIT64)
  {
    seq(count, i requires 0 <= i < count => PageOf((va + i * PAGE) % LIMIT64))
  }

  lemma PageNumberStep(va: nat, i: nat)
    ensures PageNumber((va + i * PAGE) % LIMIT64) == (va / PAGE + i) % PAGES
  {
    var a := va + i * PAGE;
    PageShift(va, i);
    PageWrap(a / LIMIT64, a % LIMIT64);
    ModShift(a / LIMIT64, a % LIMIT64 / PAGE);
  }

  lemma PageShift(va: nat, i: nat)
    ensures (va + i * PAGE) / PAGE == va / PAGE + i
  {
  }

  lemma PageWrap(q: nat, r: nat)
    ensures (q * LIMIT64 + r) / PAGE == q * 0x10_0000_0000_0000 + r / PAGE
  {
  }

  lemma ModShift(q: nat, e: nat)
    ensures (q * 0x10_0000_0000_0000 + e) % PAGES == e % PAGES
  {
    ModAdd(q * 0x1_0000, e);
  }

  lemma ModAdd(k: nat, e: nat)
    ensures (e + k * PAGES) % PAGES == e % PAGES
  {
    assert (e + k * PAGES) / PAGES == e / PAGES + k;
  }

  /** Pages in a row are valid and distinct. */
  lemma PagesDistinct(va: nat, count: nat)
    requires count <= BATCH_MAX
    ensures forall i :: 0 <= i < count ==> PageOk(PagesFrom(va, count)[i])
    ensures forall i, j :: 0 <= i < j < count ==> PagesFrom(va, count)[i] != PagesFrom(va, count)[j]
  {
    hide PageAt, PageNumber;
    forall i | 0 <= i < count ensures PageOk(PagesFrom(va, count)[i]) {
      PageNumberStep(va, i);
      PageAtIs((va / PAGE + i) % PAGES);
    }
    forall i, j | 0 <= i < j < count ensures PagesFrom(va, count)[i] != PagesFrom(va, count)[j] {
      PageNumberStep(va, i);
      PageNumberStep(va, j);
      if PagesFrom(va, count)[i] == PagesFrom(va, count)[j] {
        PageAtInjective((va / PAGE + i) % PAGES, (va / PAGE + j) % PAGES);
        NearApart(va / PAGE, i, j);
      }
    }
  }

  lemma NearApart(n: nat, i: nat, j: nat)
    requires i < j <= BATCH_MAX
    ensures (n + i) % PAGES != (n + j) % PAGES
  {
  }

  // ---- Moving pages --------------------------------------------------------------------------

  ghost predicate ValidPages(s: seq<Page>) {
    (forall i :: 0 <= i < |s| ==> PageOk(s[i])) && Distinct(s)
  }

  /** The entry of a page once the first n pages `sp` of `src` were taken out, and the first k of
      those mapped again with protection `prot`. Looking at the next page, which was found not to
      be mapped, dropped its entry. */
  ghost function Expected(was: Memory, src: int, sp: seq<Page>, n: nat, k: nat, prot: Prot, r: int, p: Page): Entry
    requires k <= n <= |sp|
  {
    var e := EntryOf(was, r, p);
    if r != src then e
    else if p in sp[..k] then PageEntry(Unmapped(e), prot)
    else if p in sp[..n] then EMPTY
    else if n < |sp| && p == sp[n] && Unmapped(e) == NO_FRAME then Dropped(e)
    else e
  }

  ghost predicate TakenOut(was: Memory, mem: Memory, level: map<int, int>, src: int, sp: seq<Page>, n: nat, k: nat,
                           prot: Prot) {
    && k <= n <= |sp|
    && forall r, p :: Root(level, r) && PageOk(p) ==> EntryOf(mem, r, p) == Expected(was, src, sp, n, k, prot, r, p)
  }

  /** All pages `sp` of `src` were taken out, and the first k pages `dp` of `dst` map their frames. */
  ghost predicate Arrived(was: Memory, mem: Memory, level: map<int, int>, src: int, sp: seq<Page>, dst: int,
                          dp: seq<Page>, k: nat, prot: Prot) {
    && |sp| == |dp| && k <= |dp|
    && (forall j :: 0 <= j < k ==> EntryOf(mem, dst, dp[j]) == PageEntry(Unmapped(EntryOf(was, src, sp[j])), prot))
    && forall r, p :: Root(level, r) && PageOk(p) && (r != dst || p !in dp[..k]) ==>
         EntryOf(mem, r, p) == if r == src && p in sp then EMPTY else EntryOf(was, r, p)
  }

  /** Unmaps pages until one is not mapped; `frames` is what they were mapped to. */
  method TakeOut(m: Mmu, src: int, sp: seq<Page>, ghost prot: Prot) returns (frames: seq<Frame>)
    requires m.Valid() && Root(m.level, src) && ValidPages(sp)
    modifies m`mem
    ensures m.Valid() && |frames| <= |sp| && TakenOut(old(m.mem), m.mem, m.level, src, sp, |frames|, 0, prot)
    ensures forall j :: 0 <= j < |frames| ==>
              frames[j] == Unmapped(EntryOf(old(m.mem), src, sp[j])) && frames[j] != NO_FRAME
    ensures |frames| < |sp| ==> Unmapped(EntryOf(old(m.mem), src, sp[|frames|])) == NO_FRAME
  {
    hide EntryOf, Forest, Spare;
    frames := [];
    while |frames| < |sp|
      invariant m.Valid() && |frames| <= |sp|
      invariant forall r, p :: Root(m.level, r) && PageOk(p) ==>
                  EntryOf(m.mem, r, p) == if r == src && p in sp[..|frames|] then EMPTY else EntryOf(old(m.mem), r, p)
      invariant forall j :: 0 <= j < |frames| ==>
                frames[j] == Unmapped(EntryOf(old(m.mem), src, sp[j])) && frames[j] != NO_FRAME
      decreases |sp| - |frames|
    {
      var n := |frames|;
      assert sp[n] !in sp[..n];
      var f := m.UnmapPage(src, sp[n]);
      assert forall p :: p in sp[..n + 1] <==> p in sp[..n] || p == sp[n];
      if f == NO_FRAME {
        return;
      }
      frames := frames + [f];
    }
  }

  /** Maps the first pages of `sp` back to where they were, with the protection asked for. */
  method PutBack(m: Mmu, src: int, sp: seq<Page>, frames: seq<Frame>, prot: Prot, ghost was: Memory)
    requires m.Valid() && Root(m.level, src) && ValidPages(sp) && |frames| <= |sp| && |m.pool| >= 3 * |frames|
    requires TakenOut(was, m.mem, m.level, src, sp, |frames|, 0, prot)
    requires forall j :: 0 <= j < |frames| ==> frames[j] == Unmapped(EntryOf(was, src, sp[j]))
    modifies m
    ensures m.Valid() && Grown(old(m.level), m.level)
    ensures TakenOut(was, m.mem, old(m.level), src, sp, |frames|, |frames|, prot)
  {
    hide EntryOf, Forest, Spare, TakenOut, OneEntry;
    var j := 0;
    while j < |frames|
      invariant 0 <= j <= |frames| && m.Valid() && Grown(old(m.level), m.level) && |m.pool| >= 3 * (|frames| - j)
      invariant TakenOut(was, m.mem, old(m.level), src, sp, |frames|, j, prot)
    {
      ghost var mem, level := m.mem, m.level;
      m.MapPage(src, sp[j], frames[j], prot);
      BackNext(was, mem, m.mem, old(m.level), level, src, sp, |frames|, j, prot);
      j := j + 1;
    }
  }

  lemma BackNext(was: Memory, mem: Memory, mem': Memory, level: map<int, int>, level': map<int, int>, src: int,
                 sp: seq<Page>, n: nat, k: nat, prot: Prot)
    requires TakenOut(was, mem, level, src, sp, n, k, prot) && k < n && ValidPages(sp) && Root(level, src)
    requires Grown(level, level')
    requires OneEntry(mem, mem', level', src, sp[k], PageEntry(Unmapped(EntryOf(was, src, sp[k])), prot))
    ensures TakenOut(was, mem', level, src, sp, n, k + 1, prot)
  {
    hide EntryOf;
    assert forall p :: p in sp[..k + 1] <==> p in sp[..k] || p == sp[k];
  }

  /** Maps pages of `dst` to the frames taken out of `src`. */
  method PutIn(m: Mmu, src: int, sp: seq<Page>, dst: int, dp: seq<Page>, frames: seq<Frame>, prot: Prot,
               ghost was: Memory)
    requires m.Valid() && Root(m.level, src) && Root(m.level, dst) && ValidPages(dp) && |frames| == |sp| == |dp|
    requires |m.pool| >= 3 * |frames|
    requires TakenOut(was, m.mem, m.level, src, sp, |sp|, 0, prot)
    requires forall j :: 0 <= j < |frames| ==> frames[j] == Unmapped(EntryOf(was, src, sp[j]))
    modifies m
    ensures m.Valid() && Grown(old(m.level), m.level) && Arrived(was, m.mem, old(m.level), src, sp, dst, dp, |dp|, prot)
  {
    hide EntryOf, Forest, Spare, Arrived, OneEntry;
    ArrivedNone(was, m.mem, m.level, src, sp, dst, dp, prot);
    var i := 0;
    while i < |dp|
      invariant 0 <= i <= |dp| && m.Valid() && Grown(old(m.level), m.level) && |m.pool| >= 3 * (|dp| - i)
      invariant Arrived(was, m.mem, old(m.level), src, sp, dst, dp, i, prot)
    {
      ghost var mem, level := m.mem, m.level;
      m.MapPage(dst, dp[i], frames[i], prot);
      ArrivedNext(was, mem, m.mem, old(m.level), level, src, sp, dst, dp, i, prot);
      i := i + 1;
    }
  }

  lemma ArrivedNone(was: Memory, mem: Memory, level: map<int, int>, src: int, sp: seq<Page>, dst: int, dp: seq<Page>,
                    prot: Prot)
    requires TakenOut(was, mem, level, src, sp, |sp|, 0, prot) && |sp| == |dp|
    ensures Arrived(was, mem, level, src, sp, dst, dp, 0, prot)
  {
    hide EntryOf;
    assert sp[..|sp|] == sp;
  }

  lemma ArrivedNext(was: Memory, mem: Memory, mem': Memory, level: map<int, int>, level': map<int, int>, src: int,
                    sp: seq<Page>, dst: int, dp: seq<Page>, k: nat, prot: Prot)
    requires Arrived(was, mem, level, src, sp, dst, dp, k, prot) && k < |dp| && ValidPages(dp) && Root(level, dst)
    requires Grown(level, level')
    requires OneEntry(mem, mem', level', dst, dp[k], PageEntry(Unmapped(EntryOf(was, src, sp[k])), prot))
    ensures Arrived(was, mem', level, src, sp, dst, dp, k + 1, prot)
  {
    hide EntryOf;
    assert forall p :: p in dp[..k + 1] <==> p in dp[..k] || p == dp[k];
  }

  /** Every page of every address space has the translation it had. */
  ghost predicate SameTranslations(was: Memory, mem: Memory, level: map<int, int>) {
    forall r, p :: Root(level, r) && PageOk(p) ==> Translation(mem, r, p) == Translation(was, r, p)
  }

  /** Pages `dp` of `dst` have the translations that pages `sp` of `src` had, those have none, and
      all others the ones they had. */
  ghost predicate Moved(was: Memory, mem: Memory, level: map<int, int>, src: int, sp: seq<Page>, dst: int,
                        dp: seq<Page>) {
    && |sp| == |dp| && (forall j :: 0 <= j < |dp| ==> Translation(mem, dst, dp[j]) == Translation(was, src, sp[j]))
    && forall r, p :: Root(level, r) && PageOk(p) && (r != dst || p !in dp) ==>
         Translation(mem, r, p) == if r == src && p in sp then 0 else Translation(was, r, p)
  }

  /** Moves pages in a row from one address space to another: all of them, or none. When page n is
      the first that is not mapped, the pages before it are mapped again as asked for. */
  method XferPages(m: Mmu, src: int, dst: int, srcVa: nat, dstVa: nat, count: nat, prot: Prot)
    returns (ok: bool, ghost n: nat)
    requires m.Valid() && Root(m.level, src) && Root(m.level, dst) && |m.pool| >= 3 * BATCH_MAX
    modifies m
    ensures m.Valid() && Grown(old(m.level), m.level)
    ensures ok <==> 0 < count <= BATCH_MAX
                    && forall i :: 0 <= i < count ==>
                         Unmapped(EntryOf(old(m.mem), src, PagesFrom(srcVa, count)[i])) != NO_FRAME
    ensures ok ==>
              Arrived(old(m.mem), m.mem, old(m.level), src, PagesFrom(srcVa, count), dst, PagesFrom(dstVa, count),
                count, prot)
    ensures ok ==> Moved(old(m.mem), m.mem, old(m.level), src, PagesFrom(srcVa, count), dst, PagesFrom(dstVa, count))
    ensures !ok ==> SameTranslations(old(m.mem), m.mem, old(m.level))
    ensures !(0 < count <= BATCH_MAX) ==> m.mem == old(m.mem)
    ensures !ok && 0 < count <= BATCH_MAX ==>
              && FirstGap(old(m.mem), src, PagesFrom(srcVa, count), n)
              && TakenOut(old(m.mem), m.mem, old(m.level), src, PagesFrom(srcVa, count), n, n, prot)
  {
    hide EntryOf, Forest, Spare, PagesFrom, TakenOut, Arrived, Moved;
    n := 0;
    if count == 0 || count > BATCH_MAX {
      return false, 0;
    }
    var sp, dp := PagesFrom(srcVa, count), PagesFrom(dstVa, count);
    PagesDistinct(srcVa, count);
    PagesDistinct(dstVa, count);
    var frames := TakeOut(m, src, sp, prot);
    if |frames| < count {
      PutBack(m, src, sp, frames, prot, old(m.mem));
      BackTranslations(old(m.mem), m.mem, old(m.level), src, sp, |frames|, prot);
      return false, |frames|;
    }
    PutIn(m, src, sp, dst, dp, frames, prot, old(m.mem));
    ArrivedMoved(old(m.mem), m.mem, old(m.level), src, sp, dst, dp, prot);
    return true, 0;
  }

  /** Page n is the first of `sp` that is not mapped. */
  ghost predicate FirstGap(was: Memory, src: int, sp: seq<Page>, n: nat) {
    && n < |sp| && Unmapped(EntryOf(was, src, sp[n])) == NO_FRAME
    && forall j :: 0 <= j < n ==> Unmapped(EntryOf(was, src, sp[j])) != NO_FRAME
  }

  lemma BackTranslations(was: Memory, mem: Memory, level: map<int, int>, src: int, sp: seq<Page>, n: nat, prot: Prot)
    requires TakenOut(was, mem, level, src, sp, n, n, prot) && FirstGap(was, src, sp, n)
    ensures SameTranslations(was, mem, level)
  {
    hide EntryOf;
  }

  lemma ArrivedMoved(was: Memory, mem: Memory, level: map<int, int>, src: int, sp: seq<Page>, dst: int, dp: seq<Page>,
                     prot: Prot)
    requires Arrived(was, mem, level, src, sp, dst, dp, |dp|, prot)
    requires forall j :: 0 <= j < |sp| ==> Unmapped(EntryOf(was, src, sp[j])) != NO_FRAME
    ensures Moved(was, mem, level, src, sp, dst, dp)
  {
    hide EntryOf;
    assert dp[..|dp|] == dp;
  }

  /** A page has just the protection that is asked for, short of being executable. */
  predicate Protects(e: Entry, prot: Prot) {
    !e.large && e.writable == prot.write && e.user == prot.user && (e.noExecute || prot.exec)
  }

  /** A move that fails leaves every entry as it was exactly when the pages before the first gap
      had the protection asked for and the gap is not a page that maps frame 0. */
  lemma FailedMoveRestores(was: Memory, mem: Memory, level: map<int, int>, src: int, sp: seq<Page>, n: nat, prot: Prot)
    requires TakenOut(was, mem, level, src, sp, n, n, prot) && FirstGap(was, src, sp, n) && ValidPages(sp)
    requires Root(level, src)
    ensures SameEntries(was, mem, level) <==>
              (forall j :: 0 <= j < n ==> Protects(EntryOf(was, src, sp[j]), prot)) && !EntryOf(was, src, sp[n]).present
  {
    hide EntryOf;
    forall j | 0 <= j < n ensures EntryOf(mem, src, sp[j]) == PageEntry(Unmapped(EntryOf(was, src, sp[j])), prot) {
      assert sp[j] in sp[..n];
    }
    assert EntryOf(mem, src, sp[n]) == Dropped(EntryOf(was, src, sp[n]));
    if (forall j :: 0 <= j < n ==> Protects(EntryOf(was, src, sp[j]), prot)) && !EntryOf(was, src, sp[n]).present {
      forall r, p | Root(level, r) && PageOk(p) ensures EntryOf(mem, r, p) == EntryOf(was, r, p) {
        if r == src && p in sp[..n] {
          var j :| 0 <= j < n && sp[..n][j] == p;
          assert sp[j] == p;
        }
      }
    }
  }

  /** Such a call: of two pages only the first is mapped, read-only. Moving both with write access
      fails, and the first page is writable after it. */
  method ReadOnlyPageBecomesWritable(pages: seq<nat>) returns (m: Mmu, root: int, ok: bool, ghost was: Memory)
    requires Distinct(pages) && |pages| >= 3 * BATCH_MAX + 5
    ensures fresh(m) && m.Valid() && Root(m.level, root) && !ok
    ensures EntryOf(was, root, PageOf(0)) == PageEntry(Frame(PAGE, true), Prot(false, false, true))
    ensures EntryOf(m.mem, root, PageOf(0)) == PageEntry(Frame(PAGE, true), Prot(true, false, true))
  {
    hide EntryOf, Forest, Spare, OneEntry, PagesFrom, TakenOut;
    m := new Mmu(pages);
    root := m.CreateAddressSpace();
    ghost var clear := m.mem;
    TwoPages();
    ghost var before := m.level;
    m.MapPage(root, PageOf(0), Frame(PAGE, true), Prot(false, false, true));
    OneMapped(clear, m.mem, before, root);
    was := m.mem;
    ghost var level := m.level;
    ghost var n;
    ok, n := XferPages(m, root, root, 0, 0, 2, Prot(true, false, true));
    GapAtOne(was, m.mem, level, root, n);
  }

  lemma OneMapped(clear: Memory, mem: Memory, level: map<int, int>, root: int)
    requires Root(level, root) && forall p :: PageOk(p) ==> EntryOf(clear, root, p) == EMPTY
    requires OneEntry(clear, mem, level, root, PageOf(0), PageEntry(Frame(PAGE, true), Prot(false, false, true)))
    ensures EntryOf(mem, root, PageOf(0)) == PageEntry(Frame(PAGE, true), Prot(false, false, true))
    ensures EntryOf(mem, root, PageOf(PAGE)) == EMPTY
  {
    hide EntryOf;
    TwoPages();
  }

  lemma GapAtOne(was: Memory, mem: Memory, level: map<int, int>, root: int, n: nat)
    requires EntryOf(was, root, PageOf(0)) == PageEntry(Frame(PAGE, true), Prot(false, false, true))
    requires FirstGap(was, root, PagesFrom(0, 2), n) && Root(level, root)
    requires TakenOut(was, mem, level, root, PagesFrom(0, 2), n, n, Prot(true, false, true))
    ensures EntryOf(mem, root, PageOf(0)) == PageEntry(Frame(PAGE, true), Prot(true, false, true))
  {
    hide EntryOf, PagesFrom;
    TwoPages();
    assert PagesFrom(0, 2)[0] == PageOf(0) && Unmapped(EntryOf(was, root, PageOf(0))) != NO_FRAME;
    assert n == 1;
    assert PageOf(0) in PagesFrom(0, 2)[..1];
  }

  lemma TwoPages()
    ensures PagesFrom(0, 2) == [PageOf(0), PageOf(PAGE)] && PageOk(PageOf(0)) && PageOk(PageOf(PAGE))
    ensures PageOf(0) != PageOf(PAGE)
  {
  }

  // ---- Copying -------------------------------------------------------------------------------

  /** Physical memory, byte by byte. */
  type Ram = map<int, int>

  function ByteAt(ram: Ram, a: int): int { if a in ram then ram[a] else 0 }

  /** The physical address of a byte of user memory, or 0 when its page is not mapped. */
  function AddressOf(mem: Memory, root: int, va: nat): int {
    var f := Translation(mem, root, PageOf(va));
    if f == 0 then 0 else f + va % PAGE
  }

  predicate Mapped(mem: Memory, root: int, va: nat) { Translation(mem, root, PageOf(va)) != 0 }

  lemma SamePage(va: nat, i: nat)
    requires va % PAGE + i < PAGE
    ensures PageNumber(va + i) == PageNumber(va) && (va + i) % PAGE == va % PAGE + i
    ensures PageNumber(va - va % PAGE) == PageNumber(va)
  {
    InPage(va / PAGE, va % PAGE + i);
    InPage(va / PAGE, 0);
  }

  lemma InPage(q: nat, r: nat)
    requires r < PAGE
    ensures (q * PAGE + r) / PAGE == q && (q * PAGE + r) % PAGE == r
  {
  }

  /** One address calculation serves a whole chunk within a page. */
  lemma ChunkAddress(mem: Memory, root: int, va: nat, i: nat)
    requires va % PAGE + i < PAGE
    ensures Mapped(mem, root, va + i) <==> Translation(mem, root, PageOf(va - va % PAGE)) != 0
    ensures Mapped(mem, root, va + i) ==>
              AddressOf(mem, root, va + i) == Translation(mem, root, PageOf(va - va % PAGE)) + va % PAGE + i
  {
    hide Translation, PageNumber, PageAt;
    SamePage(va, i);
  }

  /** Bytes 0..n of user memory from va on, read one at a time. */
  function ReadBytes(ram: Ram, mem: Memory, root: int, va: nat, n: nat): (s: seq<int>)
    ensures |s| == n && forall k :: 0 <= k < n ==> s[k] == ByteAt(ram, AddressOf(mem, root, va + k))
  {
    seq(n, k requires 0 <= k < n => ByteAt(ram, AddressOf(mem, root, va + k)))
  }

  /** Memory after the first n bytes of data are written to user memory one at a time. */
  function WriteBytes(ram: Ram, mem: Memory, root: int, va: nat, data: seq<int>, n: nat): Ram
    requires n <= |data|
  {
    if n == 0 then ram
    else WriteBytes(ram, mem, root, va, data, n - 1)[AddressOf(mem, root, va + n - 1) := data[n - 1]]
  }

  /** Bytes 0..n of user memory are mapped, and the next one is not or n is the length. */
  ghost predicate UpTo(mem: Memory, root: int, va: nat, len: nat, n: nat) {
    && n <= len && (forall a :: va <= a < va + n ==> Mapped(mem, root, a))
    && (n < len ==> !Mapped(mem, root, va + n))
  }

  /** The 64-bit sum of address and length does not wrap. */
  predicate Fits(va: nat, len: nat) { len == 0 || (va + len) % LIMIT64 >= va }

  /** Copies from user memory page by page. */
  method CopyFromUser(m: Mmu, ram: Ram, root: int, src: nat, len: nat) returns (ok: bool, out: seq<int>)
    requires m.Valid() && Root(m.level, root) && src < LIMIT64 && len < LIMIT64
    ensures ok <==> Fits(src, len) && forall a :: src <= a < src + len ==> Mapped(m.mem, root, a)
    ensures Fits(src, len) ==> UpTo(m.mem, root, src, len, |out|) && out == ReadBytes(ram, m.mem, root, src, |out|)
    ensures !Fits(src, len) ==> out == []
  {
    hide Translation, Forest, Spare, PageAt, PageNumber, AddressOf, Mapped;
    out := [];
    if len != 0 && (src + len) % LIMIT64 < src {
      return false, [];
    }
    while |out| < len
      invariant |out| <= len && out == ReadBytes(ram, m.mem, root, src, |out|)
      invariant forall a :: src <= a < src + |out| ==> Mapped(m.mem, root, a)
      decreases len - |out|
    {
      var va := src + |out|;
      var off := va % PAGE;
      PageNumberOk(va - off);
      var frame := m.Translate(root, PageOf(va - off));
      ChunkAddress(m.mem, root, va, 0);
      if frame == 0 {
        return false, out;
      }
      var chunk := if PAGE - off > len - |out| then len - |out| else PAGE - off;
      forall a | va <= a < va + chunk
        ensures Mapped(m.mem, root, a) && AddressOf(m.mem, root, a) == frame + off + a - va
      {
        ChunkAddress(m.mem, root, va, a - va);
      }
      var piece := Chunk(ram, frame + off, chunk);
      ghost var was := out;
      out := out + piece;
      forall k | 0 <= k < |out| ensures out[k] == ByteAt(ram, AddressOf(m.mem, root, src + k)) {
        if k >= |was| {
          assert out[k] == piece[k - |was|] == ByteAt(ram, frame + off + (k - |was|));
          assert src + k == va + (k - |was|);
        }
      }
    }
    return true, out;
  }

  function Chunk(ram: Ram, base: int, n: nat): (s: seq<int>)
    ensures |s| == n && forall k :: 0 <= k < n ==> s[k] == ByteAt(ram, base + k)
  {
    seq(n, k requires 0 <= k < n => ByteAt(ram, base + k))
  }

  lemma PageNumberOk(va: nat)
    ensures PageOk(PageOf(va))
  {
    hide PageAt;
    PageAtIs(PageNumber(va));
  }

  /** Copies to user memory page by page; on a page that is not mapped, what comes before it has
      been written. */
  method CopyToUser(m: Mmu, ram: Ram, root: int, dst: nat, data: seq<int>) returns (ok: bool, ram': Ram, ghost n: nat)
    requires m.Valid() && Root(m.level, root) && dst < LIMIT64 && |data| < LIMIT64
    ensures ok <==> Fits(dst, |data|) && n == |data|
    ensures Fits(dst, |data|) ==> UpTo(m.mem, root, dst, |data|, n)
    ensures !Fits(dst, |data|) ==> n == 0
    ensures n <= |data| && ram' == WriteBytes(ram, m.mem, root, dst, data, n)
  {
    hide Translation, Forest, Spare, PageAt, PageNumber, AddressOf, Mapped;
    ram', n := ram, 0;
    if |data| != 0 && (dst + |data|) % LIMIT64 < dst {
      return false, ram, 0;
    }
    var copied := 0;
    while copied < |data|
      invariant 0 <= copied <= |data| && n == copied && ram' == WriteBytes(ram, m.mem, root, dst, data, copied)
      invariant forall a :: dst <= a < dst + copied ==> Mapped(m.mem, root, a)
    {
      var va := dst + copied;
      var off := va % PAGE;
      PageNumberOk(va - off);
      var frame := m.Translate(root, PageOf(va - off));
      ChunkAddress(m.mem, root, va, 0);
      if frame == 0 {
        return false, ram', n;
      }
      var chunk := if PAGE - off > |data| - copied then |data| - copied else PAGE - off;
      var k := 0;
      while k < chunk
        invariant 0 <= k <= chunk && ram' == WriteBytes(ram, m.mem, root, dst, data, copied + k)
        invariant forall a :: dst <= a < dst + copied + k ==> Mapped(m.mem, root, a)
      {
        ChunkAddress(m.mem, root, va, k);
        assert va + k == dst + (copied + k + 1) - 1;
        ram' := ram'[frame + off + k := data[copied + k]];
        k := k + 1;
      }
      copied, n := copied + chunk, copied + chunk;
    }
    ok := true;
  }
}
