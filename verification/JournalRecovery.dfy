/** Replay, interrupted any number of times, and whole runs of the journalled file system
    against a ledger of atomic transactions. */
module JournalRecovery {
  import opened Common
  import opened Bytes
  import opened Disk
  import opened JournalLayout
  import opened JournalProtocol
  import opened JournalCrash

  // ---- What replay does with each kind of image ------------------------------------------

  /** Replay reads back exactly the records that commit stored. */
  lemma StoredRecordIsRecord(l: Layout, img: Image, state: nat, recs: seq<Record>, i: nat)
    requires ValidLayout(l, |img|) && ValidRecords(l, recs) && state < LIMIT32 && i < |recs|
    requires Holds(l, img, state, recs)
    ensures StoredRecord(l, img, i) == recs[i] && RecordAccepted(l, img, i)
  {
    hide ValidLayout, Slot, Storage, Header, Descriptors, DescriptorSum, Checksum, Bytes.U64Get, Bytes.U32Get;
    DescriptorRoundTrip(recs, i);
  }

  lemma AcceptsAllRecords(l: Layout, img: Image, state: nat, recs: seq<Record>)
    requires ValidLayout(l, |img|) && ValidRecords(l, recs) && state < LIMIT32
    requires Holds(l, img, state, recs)
    ensures AcceptedRecords(l, img, |recs|) == recs
  {
    hide *;
    RecordCount(l, recs);
    var got := AcceptedRecords(l, img, |recs|);
    if |got| < |recs| {
      StoredRecordIsRecord(l, img, state, recs, |got|);
    }
    forall i | 0 <= i < |recs| ensures got[i] == recs[i] {
      StoredRecordIsRecord(l, img, state, recs, i);
    }
  }

  lemma RecordCount(l: Layout, recs: seq<Record>)
    requires ValidRecords(l, recs)
    ensures |recs| <= RECORDS
  {
  }

  lemma HeldHeader(l: Layout, img: Image, state: nat, recs: seq<Record>)
    requires ValidLayout(l, |img|) && |recs| <= RECORDS && (state == PREPARED || state == COMMITTED)
    requires Holds(l, img, state, recs)
    ensures var h := img[Slot(l, |img|, 0)];
            && h != Zeros(SECTOR_SIZE) && HeaderAccepted(h) && U32Get(h, 12) == state
            && U32Get(h, 16) == |recs| && U32Get(h, 28) == Checksum(StoredDescriptors(l, img))
  {
    hide ValidLayout, Slot, Header, HeaderAccepted, Descriptors, Bytes.U32Get, Checksum;
    var q: nat :| img[Slot(l, |img|, 0)] == Header(state, |recs|, q, DescriptorSum(recs));
    HeaderRoundTrip(state, |recs|, q, DescriptorSum(recs));
  }

  /** A journal that holds a committed transaction is replayed in full. */
  lemma ReplayOfCommitted(l: Layout, img: Image, recs: seq<Record>)
    requires ValidLayout(l, |img|) && ValidRecords(l, recs) && Holds(l, img, COMMITTED, recs)
    ensures ReplayOf(l, img) == Replay(InstallOps(l, |img|, recs), 0)
    ensures Commits(img[Slot(l, |img|, 0)])
  {
    hide ValidLayout, Slot, Storage, HeaderAccepted, Holds, AcceptedRecords, StoredDescriptors,
      Bytes.U32Get, Checksum, InstallOps;
    HeldHeader(l, img, COMMITTED, recs);
    AcceptsAllRecords(l, img, COMMITTED, recs);
  }

  /** A journal that holds a prepared transaction is discarded. */
  lemma ReplayOfPrepared(l: Layout, img: Image, recs: seq<Record>)
    requires ValidLayout(l, |img|) && |recs| <= RECORDS && Holds(l, img, PREPARED, recs)
    ensures ReplayOf(l, img) == Replay(ClearOps(l, |img|), 0)
    ensures !Commits(img[Slot(l, |img|, 0)])
  {
    hide ValidLayout, Slot, HeaderAccepted, Holds, StoredDescriptors, Bytes.U32Get, Checksum;
    HeldHeader(l, img, PREPARED, recs);
  }

  /** Replay of an uncommitted journal writes no home sector, whether it refuses or not. */
  lemma ReplayOfUncommitted(l: Layout, img: Image)
    requires ValidLayout(l, |img|) && !Commits(img[Slot(l, |img|, 0)])
    ensures var r := ReplayOf(l, img);
            && (r.ops == [] || (r.ops == ClearOps(l, |img|) && r.rc == 0))
            && (r.rc != 0 ==> r.ops == [])
            && (r.ops == [] && r.rc == 0 ==> img[Slot(l, |img|, 0)] == Zeros(SECTOR_SIZE))
  {
    hide ValidLayout, Slot, HeaderValid, StoredDescriptors, Bytes.U32Get, Bytes.U32Set, Checksum, InstallOps,
      AcceptedRecords;
  }

  // ---- One replay ------------------------------------------------------------------------

  lemma ClearRun(l: Layout, img: Image)
    requires ValidLayout(l, |img|)
    ensures var zero := Write(Slot(l, |img|, 0), Zeros(SECTOR_SIZE));
            && Run(Disk(img, []), ClearOps(l, |img|)[..0]) == Disk(img, [])
            && Run(Disk(img, []), ClearOps(l, |img|)[..1]) == Disk(img, [zero])
            && Run(Disk(img, []), ClearOps(l, |img|)) == Disk(img[zero.sector := zero.data], [])
            && ClearOps(l, |img|)[..2] == ClearOps(l, |img|)
  {
    hide ValidLayout, Slot, Run;
    var zero := Write(Slot(l, |img|, 0), Zeros(SECTOR_SIZE));
    DecideRun(img, zero);
    RunNothing(Disk(img, []));
    assert ClearOps(l, |img|)[..0] == [];
    assert ClearOps(l, |img|)[..1] == [Put(zero)];
  }

  /** A power cut while replay discards an uncommitted journal changes nothing at home. */
  lemma DiscardCrash(l: Layout, start: Image, base: Image, k: nat, img: Image)
    requires ValidLayout(l, |start|) && Inert(l, start, base)
    requires k <= |ReplayOf(l, start).ops|
    requires CrashImage(Run(Disk(start, []), ReplayOf(l, start).ops[..k]), img)
    ensures Inert(l, img, base)
  {
    hide ValidLayout, Slot, Storage, ReplayOf, Run, Commits, ClearOps;
    var r := ReplayOf(l, start);
    ReplayOfUncommitted(l, start);
    ZeroHeaderDoesNotCommit();
    if r.ops == [] {
      assert r.ops[..k] == [];
      RunNothing(Disk(start, []));
      assert img == start;
    } else {
      ClearRun(l, start);
      var slot := Slot(l, |start|, 0);
      ClearLength(l, |start|);
      assert img == start || img == start[slot := Zeros(SECTOR_SIZE)];
    }
  }

  lemma ClearLength(l: Layout, n: nat)
    requires ValidLayout(l, n)
    ensures |ClearOps(l, n)| == 2
  {
    hide ValidLayout, Slot;
  }

  /** Whatever a replay is cut short by, the image stays recoverable, and a decided
      transaction stays decided. */
  lemma ReplayCrash(l: Layout, start: Image, base: Image, recs: seq<Record>, k: nat, img: Image)
    requires ValidLayout(l, |start|) && ValidRecords(l, recs) && Recoverable(l, start, base, recs)
    requires k <= |ReplayOf(l, start).ops|
    requires CrashImage(Run(Disk(start, []), ReplayOf(l, start).ops[..k]), img)
    ensures Recoverable(l, img, base, recs)
    ensures Decided(l, start, base, recs) ==> Decided(l, img, base, recs)
    ensures Inert(l, start, base) ==> Inert(l, img, base)
  {
    hide ValidLayout, Slot, Storage, ReplayOf, Run, Inert, Holds, Mixed, Installed, InstallOps;
    if Inert(l, start, base) {
      DiscardCrash(l, start, base, k, img);
    }
    if Inert(l, start, Installed(base, recs)) {
      DiscardCrash(l, start, Installed(base, recs), k, img);
    }
    if InFlight(l, start, base, recs) {
      ReplayOfCommitted(l, start, recs);
      InstallCrash(l, start, base, recs, k, img);
    }
  }

  /** A replay that returns 0 leaves a clear journal and all of the transaction or none. */
  lemma ReplayDone(l: Layout, start: Image, base: Image, recs: seq<Record>)
    requires ValidLayout(l, |start|) && ValidRecords(l, recs) && Recoverable(l, start, base, recs)
    requires ReplayOf(l, start).rc == 0
    ensures var after := Run(Disk(start, []), ReplayOf(l, start).ops);
            && after.pending == []
            && after.durable[Slot(l, |start|, 0)] == Zeros(SECTOR_SIZE)
            && (SameHome(l, after.durable, base) || SameHome(l, after.durable, Installed(base, recs)))
            && (Decided(l, start, base, recs) ==> SameHome(l, after.durable, Installed(base, recs)))
            && (Inert(l, start, base) ==> SameHome(l, after.durable, base))
  {
    hide ValidLayout, Slot, Storage, ReplayOf, Run, Holds, Mixed, Installed, InstallOps, Inert;
    if Inert(l, start, base) {
      DiscardDone(l, start, base);
    }
    if Inert(l, start, Installed(base, recs)) {
      DiscardDone(l, start, Installed(base, recs));
    }
    if InFlight(l, start, base, recs) {
      ReplayOfCommitted(l, start, recs);
      InstallDone(l, start, base, recs);
    }
  }

  lemma DiscardDone(l: Layout, start: Image, base: Image)
    requires ValidLayout(l, |start|) && Inert(l, start, base) && ReplayOf(l, start).rc == 0
    ensures var after := Run(Disk(start, []), ReplayOf(l, start).ops);
            && after.pending == []
            && after.durable[Slot(l, |start|, 0)] == Zeros(SECTOR_SIZE)
            && SameHome(l, after.durable, base)
  {
    hide ValidLayout, Slot, Storage, ReplayOf, Run, Commits, ClearOps;
    ReplayOfUncommitted(l, start);
    ClearRun(l, start);
    RunNothing(Disk(start, []));
  }

  // ---- Any number of replays ----------------------------------------------------------------

  /** One attempt to recover image `a` that a power cut turns into image `b`. */
  ghost predicate Attempt(l: Layout, a: Image, b: Image)
    requires ValidLayout(l, |a|)
  {
    exists k: nat :: k <= |ReplayOf(l, a).ops| && CrashImage(Run(Disk(a, []), ReplayOf(l, a).ops[..k]), b)
  }

  /** The images found by consecutive replays, all but the last of them cut short. */
  ghost predicate Chain(l: Layout, n: nat, imgs: seq<Image>)
    requires ValidLayout(l, n)
  {
    && (forall i :: 0 <= i < |imgs| ==> |imgs[i]| == n)
    && forall i :: 0 < i < |imgs| ==> Attempt(l, imgs[i - 1], imgs[i])
  }

  lemma {:induction false} ChainRecoverable(l: Layout, n: nat, imgs: seq<Image>, base: Image, recs: seq<Record>)
    requires ValidLayout(l, n) && ValidRecords(l, recs) && imgs != [] && Chain(l, n, imgs)
    requires Recoverable(l, imgs[0], base, recs)
    ensures var last := imgs[|imgs| - 1];
            && Recoverable(l, last, base, recs)
            && (Decided(l, imgs[0], base, recs) ==> Decided(l, last, base, recs))
            && (Inert(l, imgs[0], base) ==> Inert(l, last, base))
  {
    hide ValidLayout, Slot, Storage, ReplayOf, Run, Recoverable, Decided, Inert, ValidRecords, CrashImage;
    if |imgs| > 1 {
      var m := |imgs| - 1;
      ChainRecoverable(l, n, imgs[..m], base, recs);
      var a, b := imgs[m - 1], imgs[m];
      assert Attempt(l, a, b);
      var k: nat :| k <= |ReplayOf(l, a).ops| && CrashImage(Run(Disk(a, []), ReplayOf(l, a).ops[..k]), b);
      ReplayCrash(l, a, base, recs, k, b);
    }
  }

  /** The journal's promise. Interrupt a commit after any number `k` of its device operations,
      losing any subset of the unflushed writes; replay, losing power again any number of
      times, until a replay returns 0. Then every sector outside the journal file is as it was
      before the transaction, or every one is as the transaction left it; the latter always
      when the COMMITTED header had been flushed, the former always when it was not yet
      written. */
  lemma AtomicAndDurable(l: Layout, d: Disk, base: Image, recs: seq<Record>, q: nat, k: nat, imgs: seq<Image>)
    requires ValidLayout(l, |d.durable|) && ValidRecords(l, recs) && Settled(l, d, base)
    requires k <= 2 * |recs| + 9 && imgs != [] && Chain(l, |d.durable|, imgs)
    requires CrashImage(Run(d, CommitOps(l, |d.durable|, recs, q)[..k]), imgs[0])
    requires ReplayOf(l, imgs[|imgs| - 1]).rc == 0
    ensures var last := imgs[|imgs| - 1];
            var after := Run(Disk(last, []), ReplayOf(l, last).ops);
            && after.pending == [] && after.durable[Slot(l, |last|, 0)] == Zeros(SECTOR_SIZE)
            && (SameHome(l, after.durable, base) || SameHome(l, after.durable, Installed(base, recs)))
            && (k <= |recs| + 4 ==> SameHome(l, after.durable, base))
            && (k >= |recs| + 6 ==> SameHome(l, after.durable, Installed(base, recs)))
  {
    hide *;
    RecordCount(l, recs);
    var last := imgs[|imgs| - 1];
    ChainLengths(l, |d.durable|, imgs);
    CommitCrash(l, d, base, recs, q, k, imgs[0]);
    ChainRecoverable(l, |d.durable|, imgs, base, recs);
    ReplayDone(l, last, base, recs);
  }

  lemma ChainLengths(l: Layout, n: nat, imgs: seq<Image>)
    requires ValidLayout(l, n) && Chain(l, n, imgs) && imgs != []
    ensures |imgs[0]| == |imgs[|imgs| - 1]| == n
  {
    hide Attempt;
  }
}
