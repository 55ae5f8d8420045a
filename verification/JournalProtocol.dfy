/** The commit and replay protocols as sequences of device operations, and what a power cut
    at any point of either can leave behind. */
module JournalProtocol {
  import opened Common
  import opened Bytes
  import opened Disk
  import opened JournalLayout

  // ---- Vocabulary -------------------------------------------------------------------

  predicate ValidRecords(l: Layout, recs: seq<Record>) {
    && |recs| <= RECORDS
    && (forall i :: 0 <= i < |recs| ==> recs[i].sector < l.blocksCount * l.spb && !Storage(l, recs[i].sector))
    && (forall i, j :: 0 <= i < j < |recs| ==> recs[i].sector != recs[j].sector)
  }

  function HomeWrites(recs: seq<Record>): (ws: seq<Write>)
    ensures |ws| == |recs| && forall i :: 0 <= i < |recs| ==> ws[i] == Write(recs[i].sector, recs[i].data)
  {
    seq(|recs|, i requires 0 <= i < |recs| => Write(recs[i].sector, recs[i].data))
  }

  /** The image with every record of the transaction at its home sector. */
  function Installed(img: Image, recs: seq<Record>): (r: Image)
    ensures |r| == |img|
  {
    Apply(img, HomeWrites(recs))
  }

  /** Equality on every sector outside the journal file. */
  predicate SameHome(l: Layout, a: Image, b: Image) {
    |a| == |b| && forall s :: 0 <= s < |a| && !Storage(l, s) ==> a[s] == b[s]
  }

  // ---- The operations commit and replay perform ---------------------------------------

  function DescriptorSum(recs: seq<Record>): (sum: nat)
    requires |recs| <= RECORDS
    ensures sum < LIMIT32
  {
    Checksum(Descriptors(recs))
  }

  function HeaderWrite(l: Layout, n: nat, state: nat, recs: seq<Record>, q: nat): (w: Write)
    requires ValidLayout(l, n) && |recs| <= RECORDS && state < LIMIT32
    ensures w.sector == Slot(l, n, 0) < n
  {
    Write(Slot(l, n, 0), Header(state, |recs|, q, DescriptorSum(recs)))
  }

  function PayloadWrites(l: Layout, n: nat, recs: seq<Record>): (ws: seq<Write>)
    requires ValidLayout(l, n) && |recs| <= RECORDS
    ensures |ws| == |recs|
    ensures forall i :: 0 <= i < |recs| ==> ws[i] == Write(Slot(l, n, 3 + i), recs[i].data)
  {
    seq(|recs|, i requires 0 <= i < |recs| => Write(Slot(l, n, 3 + i), recs[i].data))
  }

  function DescriptorWrites(l: Layout, n: nat, recs: seq<Record>): (ws: seq<Write>)
    requires ValidLayout(l, n) && |recs| <= RECORDS
    ensures |ws| == 2
  {
    [Write(Slot(l, n, 1), Descriptors(recs)[..SECTOR_SIZE]),
     Write(Slot(l, n, 2), Descriptors(recs)[SECTOR_SIZE..])]
  }

  /** The writes of the first phase, in order: descriptors, payloads, PREPARED header. */
  function PrepareWrites(l: Layout, n: nat, recs: seq<Record>, q: nat): (ws: seq<Write>)
    requires ValidLayout(l, n) && |recs| <= RECORDS
    ensures |ws| == |recs| + 3
  {
    DescriptorWrites(l, n, recs) + PayloadWrites(l, n, recs) + [HeaderWrite(l, n, PREPARED, recs, q)]
  }

  function ClearOps(l: Layout, n: nat): (ops: seq<Op>)
    requires ValidLayout(l, n)
  {
    [Put(Write(Slot(l, n, 0), Zeros(SECTOR_SIZE))), Flush]
  }

  /** What follows a durable COMMITTED header, in commit and in replay alike. */
  function InstallOps(l: Layout, n: nat, recs: seq<Record>): (ops: seq<Op>)
    requires ValidLayout(l, n)
    ensures |ops| == |recs| + 3
  {
    Puts(HomeWrites(recs)) + [Flush] + ClearOps(l, n)
  }

  function PrepareOps(l: Layout, n: nat, recs: seq<Record>, q: nat): (ops: seq<Op>)
    requires ValidLayout(l, n) && |recs| <= RECORDS
    ensures |ops| == |recs| + 4
  {
    Puts(PrepareWrites(l, n, recs, q)) + [Flush]
  }

  function DecideOps(l: Layout, n: nat, recs: seq<Record>, q: nat): (ops: seq<Op>)
    requires ValidLayout(l, n) && |recs| <= RECORDS
    ensures |ops| == 2
  {
    [Put(HeaderWrite(l, n, COMMITTED, recs, q)), Flush]
  }

  /** Everything journal_commit asks of the device for a non-empty transaction. */
  function CommitOps(l: Layout, n: nat, recs: seq<Record>, q: nat): (ops: seq<Op>)
    requires ValidLayout(l, n) && |recs| <= RECORDS
    ensures |ops| == 2 * |recs| + 9
  {
    PrepareOps(l, n, recs, q) + DecideOps(l, n, recs, q) + InstallOps(l, n, recs)
  }

  datatype Replay = Replay(ops: seq<Op>, rc: int)

  function StoredDescriptors(l: Layout, img: Image): (d: seq<Byte>)
    requires ValidLayout(l, |img|)
    ensures |d| == 2 * SECTOR_SIZE
  {
    var first: seq<Byte> := img[Slot(l, |img|, 1)];
    first + img[Slot(l, |img|, 2)]
  }

  function StoredRecord(l: Layout, img: Image, i: nat): (r: Record)
    requires ValidLayout(l, |img|) && i < RECORDS
  {
    Record(U64Get(StoredDescriptors(l, img), 16 * i), img[Slot(l, |img|, 3 + i)])
  }

  /** The checks replay makes on one record before it writes it home. */
  predicate RecordAccepted(l: Layout, img: Image, i: nat)
    requires ValidLayout(l, |img|) && i < RECORDS
  {
    var r := StoredRecord(l, img, i);
    && r.sector < l.blocksCount * l.spb
    && !Storage(l, r.sector)
    && U32Get(StoredDescriptors(l, img), 16 * i + 8) == Checksum(r.data)
  }

  /** The longest prefix of the first `count` stored records that passes those checks. */
  function AcceptedRecords(l: Layout, img: Image, count: nat): (recs: seq<Record>)
    requires ValidLayout(l, |img|) && count <= RECORDS
    ensures |recs| <= count
    ensures forall i :: 0 <= i < |recs| ==> recs[i] == StoredRecord(l, img, i) && RecordAccepted(l, img, i)
    ensures |recs| < count ==> !RecordAccepted(l, img, |recs|)
  {
    if count == 0 then []
    else
      var before := AcceptedRecords(l, img, count - 1);
      if |before| == count - 1 && RecordAccepted(l, img, count - 1)
      then before + [StoredRecord(l, img, count - 1)]
      else before
  }

  /** journal_replay on a disk that holds `img`: the operations it performs when the device
      reports no error, and what it returns after them. */
  function ReplayOf(l: Layout, img: Image): (r: Replay)
    requires ValidLayout(l, |img|)
  {
    var h := img[Slot(l, |img|, 0)];
    if h == Zeros(SECTOR_SIZE) then Replay([], 0)
    else if !HeaderAccepted(h) then Replay([], -1)
    else if U32Get(h, 28) != Checksum(StoredDescriptors(l, img)) then Replay([], -1)
    else if U32Get(h, 12) == PREPARED then Replay(ClearOps(l, |img|), 0)
    else
      var count := U32Get(h, 16);
      var recs := AcceptedRecords(l, img, count);
      if |recs| < count then Replay(Puts(HomeWrites(recs)), -1)
      else Replay(InstallOps(l, |img|, recs), 0)
  }

  // ---- What an image says about the last transaction ----------------------------------

  /** No committed transaction in the journal, and home sectors as in `base`. */
  ghost predicate Inert(l: Layout, img: Image, base: Image)
    requires ValidLayout(l, |img|)
  {
    !Commits(img[Slot(l, |img|, 0)]) && SameHome(l, img, base)
  }

  /** The journal area holds the whole transaction under a header of the given state. */
  ghost predicate Holds(l: Layout, img: Image, state: nat, recs: seq<Record>)
    requires ValidLayout(l, |img|) && |recs| <= RECORDS && state < LIMIT32
  {
    && (exists q: nat :: img[Slot(l, |img|, 0)] == Header(state, |recs|, q, DescriptorSum(recs)))
    && StoredDescriptors(l, img) == Descriptors(recs)
    && forall i :: 0 <= i < |recs| ==> img[Slot(l, |img|, 3 + i)] == recs[i].data
  }

  /** Each home sector has its contents from before or from after the transaction. */
  ghost predicate Mixed(l: Layout, img: Image, base: Image, recs: seq<Record>) {
    && |img| == |base|
    && forall s :: 0 <= s < |img| && !Storage(l, s) ==> img[s] == base[s] || img[s] == Installed(base, recs)[s]
  }

  ghost predicate InFlight(l: Layout, img: Image, base: Image, recs: seq<Record>)
    requires ValidLayout(l, |img|) && |recs| <= RECORDS
  {
    Holds(l, img, COMMITTED, recs) && Mixed(l, img, base, recs)
  }

  /** The transaction's fate is decided: it will be, or already is, installed. */
  ghost predicate Decided(l: Layout, img: Image, base: Image, recs: seq<Record>)
    requires ValidLayout(l, |img|) && |recs| <= RECORDS
  {
    |img| == |base| && (InFlight(l, img, base, recs) || Inert(l, img, Installed(base, recs)))
  }

  ghost predicate Recoverable(l: Layout, img: Image, base: Image, recs: seq<Record>)
    requires ValidLayout(l, |img|) && |recs| <= RECORDS
  {
    |img| == |base| && (Inert(l, img, base) || Decided(l, img, base, recs))
  }

  /** No transaction is under way: the only cached writes are to the journal file, and none
      of them commits anything. */
  ghost predicate Settled(l: Layout, d: Disk, base: Image)
    requires ValidLayout(l, |d.durable|)
  {
    var n := |d.durable|;
    && Inert(l, d.durable, base)
    && forall w :: w in d.pending ==>
         w.sector < n && Storage(l, w.sector) && (w.sector == Slot(l, n, 0) ==> !Commits(w.data))
  }

  /** Settled is exactly: every power cut leaves an inert image. */
  lemma SettledIffEveryCrashInert(l: Layout, d: Disk, base: Image)
    requires ValidLayout(l, |d.durable|)
    requires forall w :: w in d.pending ==> w.sector < |d.durable|
    requires forall w :: w in d.pending && !Storage(l, w.sector) ==> w.data != d.durable[w.sector]
    ensures Settled(l, d, base) <==> forall img :: CrashImage(d, img) ==> Inert(l, img, base)
  {
    if forall img :: CrashImage(d, img) ==> Inert(l, img, base) {
      assert CrashImage(d, d.durable);
      forall w | w in d.pending
        ensures Storage(l, w.sector) && (w.sector == Slot(l, |d.durable|, 0) ==> !Commits(w.data))
      {
        var img := d.durable[w.sector := w.data];
        assert CrashImage(d, img);
      }
    }
  }

  // ---- Phase one: preparing --------------------------------------------------------------

  lemma PreparedHeaderDoesNotCommit(count: nat, q: nat, sum: nat)
    requires count <= RECORDS && sum < LIMIT32
    ensures !Commits(Header(PREPARED, count, q, sum))
  {
    HeaderRoundTrip(PREPARED, count, q, sum);
  }

  /** The journal slot that the i-th write of the first phase goes to. */
  function PrepareSlot(recs: seq<Record>, i: nat): (slot: nat)
    requires |recs| <= RECORDS && i < |recs| + 3
    ensures slot < JOURNAL_SECTORS
  {
    if i == |recs| + 2 then 0 else i + 1
  }

  lemma PrepareWriteAt(l: Layout, n: nat, recs: seq<Record>, q: nat, i: nat)
    requires ValidLayout(l, n) && |recs| <= RECORDS && i < |recs| + 3
    ensures var w := PrepareWrites(l, n, recs, q)[i];
            && w.sector == Slot(l, n, PrepareSlot(recs, i))
            && (i == |recs| + 2 ==> w == HeaderWrite(l, n, PREPARED, recs, q))
            && (2 <= i < |recs| + 2 ==> w.data == recs[i - 2].data)
            && (i < 2 ==> w == DescriptorWrites(l, n, recs)[i])
  {
    hide Slot, Header, Descriptors, ValidLayout, DescriptorSum;
    var ws := PrepareWrites(l, n, recs, q);
    if 2 <= i < |recs| + 2 {
      assert ws[i] == PayloadWrites(l, n, recs)[i - 2];
    }
  }

  lemma PrepareWritesAreHarmless(l: Layout, n: nat, recs: seq<Record>, q: nat)
    requires ValidLayout(l, n) && |recs| <= RECORDS
    ensures forall w :: w in PrepareWrites(l, n, recs, q) ==>
              w.sector < n && Storage(l, w.sector) && (w.sector == Slot(l, n, 0) ==> !Commits(w.data))
  {
    hide Header, Descriptors, Commits, DescriptorSum, PrepareWrites, Storage;
    PreparedHeaderDoesNotCommit(|recs|, q, DescriptorSum(recs));
    var ws := PrepareWrites(l, n, recs, q);
    forall w | w in ws
      ensures w.sector < n && Storage(l, w.sector) && (w.sector == Slot(l, n, 0) ==> !Commits(w.data))
    {
      var i :| 0 <= i < |ws| && ws[i] == w;
      PrepareWriteAt(l, n, recs, q, i);
      SlotsDistinct(l, n, PrepareSlot(recs, i), 0);
    }
  }

  /** Harmless writes and flushes keep a settled disk settled. */
  lemma {:induction false} SettledAfter(l: Layout, d: Disk, base: Image, ops: seq<Op>)
    requires ValidLayout(l, |d.durable|) && Settled(l, d, base)
    requires forall op :: op in ops && op.Put? ==>
               op.w.sector < |d.durable| && Storage(l, op.w.sector)
               && (op.w.sector == Slot(l, |d.durable|, 0) ==> !Commits(op.w.data))
    ensures Settled(l, Run(d, ops), base)
  {
    if ops != [] {
      var k := |ops| - 1;
      SettledAfter(l, d, base, ops[..k]);
      var before := Run(d, ops[..k]);
      if ops[k].Flush? {
        SettledFlush(l, before, base);
      }
    }
  }

  lemma SettledFlush(l: Layout, d: Disk, base: Image)
    requires ValidLayout(l, |d.durable|) && Settled(l, d, base)
    ensures Settled(l, Step(d, Flush), base)
  {
    var after := Contents(d);
    forall s | 0 <= s < |after| && !Storage(l, s) ensures after[s] == base[s] {
      ApplyUntouched(d.durable, d.pending, s);
    }
    ApplyPicksAWrite(d.durable, d.pending, Slot(l, |d.durable|, 0));
  }

  lemma SettledAfterPreparing(l: Layout, d: Disk, base: Image, recs: seq<Record>, q: nat, k: nat)
    requires ValidLayout(l, |d.durable|) && Settled(l, d, base) && |recs| <= RECORDS
    requires k <= |recs| + 4
    ensures Settled(l, Run(d, PrepareOps(l, |d.durable|, recs, q)[..k]), base)
  {
    hide PrepareWrites, Slot, ValidLayout, Storage, Run, Commits, Settled;
    var ops := PrepareOps(l, |d.durable|, recs, q);
    PrepareWritesAreHarmless(l, |d.durable|, recs, q);
    forall op | op in ops[..k] && op.Put? ensures op.w in PrepareWrites(l, |d.durable|, recs, q) {
    }
    SettledAfter(l, d, base, ops[..k]);
  }

  /** Once the first flush has succeeded the journal area holds the whole transaction. */
  lemma PreparedHolds(l: Layout, d: Disk, recs: seq<Record>, q: nat)
    requires ValidLayout(l, |d.durable|) && |recs| <= RECORDS
    ensures var after := Run(d, PrepareOps(l, |d.durable|, recs, q));
            after.pending == [] && Holds(l, after.durable, PREPARED, recs)
  {
    hide Header, Descriptors, DescriptorSum, PrepareWrites, Slot, ValidLayout, Apply, Storage, Run;
    var n := |d.durable|;
    var ws := PrepareWrites(l, n, recs, q);
    PrepareRuns(l, d, recs, q);
    var img := Apply(d.durable, d.pending + ws);
    forall i: nat | i < |ws|
      ensures ws[i].sector == Slot(l, n, PrepareSlot(recs, i)) && img[ws[i].sector] == ws[i].data
    {
      PrepareSlotReadsBack(l, d, recs, q, i);
      PrepareWriteAt(l, n, recs, q, i);
    }
    PrepareWriteAt(l, n, recs, q, 0);
    PrepareWriteAt(l, n, recs, q, 1);
    PrepareWriteAt(l, n, recs, q, |recs| + 2);
    var all := Descriptors(recs);
    assert all == all[..SECTOR_SIZE] + all[SECTOR_SIZE..];
    forall i | 0 <= i < |recs| ensures img[Slot(l, n, 3 + i)] == recs[i].data {
      PrepareWriteAt(l, n, recs, q, 2 + i);
    }
  }

  lemma PrepareRuns(l: Layout, d: Disk, recs: seq<Record>, q: nat)
    requires ValidLayout(l, |d.durable|) && |recs| <= RECORDS
    ensures Run(d, PrepareOps(l, |d.durable|, recs, q))
            == Disk(Apply(d.durable, d.pending + PrepareWrites(l, |d.durable|, recs, q)), [])
  {
    hide PrepareWrites, Apply;
    var ws := PrepareWrites(l, |d.durable|, recs, q);
    var ops := PrepareOps(l, |d.durable|, recs, q);
    assert ops[..|ops| - 1] == Puts(ws);
    RunPuts(d, ws);
  }

  lemma PrepareSectorsDistinct(l: Layout, n: nat, recs: seq<Record>, q: nat, i: nat, j: nat)
    requires ValidLayout(l, n) && |recs| <= RECORDS && i < j < |recs| + 3
    ensures PrepareWrites(l, n, recs, q)[i].sector != PrepareWrites(l, n, recs, q)[j].sector
    ensures PrepareWrites(l, n, recs, q)[i].sector < n
  {
    hide PrepareWrites, ValidLayout, HeaderWrite, DescriptorWrites, Storage, Slot;
    PrepareWriteAt(l, n, recs, q, i);
    PrepareWriteAt(l, n, recs, q, j);
    SlotsDistinct(l, n, PrepareSlot(recs, i), PrepareSlot(recs, j));
  }

  lemma PrepareSlotReadsBack(l: Layout, d: Disk, recs: seq<Record>, q: nat, i: nat)
    requires ValidLayout(l, |d.durable|) && |recs| <= RECORDS && i < |recs| + 3
    ensures var ws := PrepareWrites(l, |d.durable|, recs, q);
            ws[i].sector < |d.durable| && Apply(d.durable, d.pending + ws)[ws[i].sector] == ws[i].data
  {
    hide *;
    var n := |d.durable|;
    var ws := PrepareWrites(l, n, recs, q);
    var all := d.pending + ws;
    PrepareWriteAt(l, n, recs, q, i);
    var at := |d.pending| + i;
    forall j | at < j < |all| ensures all[j].sector != ws[i].sector {
      PrepareSectorsDistinct(l, n, recs, q, i, j - |d.pending|);
    }
    ApplyLast(d.durable, all, at);
  }
}
