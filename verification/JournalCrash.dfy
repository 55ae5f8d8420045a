/** Crash atomicity and durability of the journal: a power cut anywhere in a commit, followed
    by any number of interrupted replays, leaves all of the transaction or none of it. */
module JournalCrash {
  import opened Common
  import opened Bytes
  import opened Disk
  import opened JournalLayout
  import opened JournalProtocol

  // ---- Installing a committed transaction ---------------------------------------------

  lemma {:induction false} InstalledAt(img: Image, recs: seq<Record>, i: nat)
    requires i < |recs| && recs[i].sector < |img|
    requires forall a, b :: 0 <= a < b < |recs| ==> recs[a].sector != recs[b].sector
    ensures Installed(img, recs)[recs[i].sector] == recs[i].data
  {
    ApplyLast(img, HomeWrites(recs), i);
  }

  lemma {:induction false} InstalledElsewhere(img: Image, recs: seq<Record>, s: nat)
    requires s < |img| && forall i :: 0 <= i < |recs| ==> recs[i].sector != s
    ensures Installed(img, recs)[s] == img[s]
  {
    ApplyUntouched(img, HomeWrites(recs), s);
  }

  /** Record sectors are on the device, since the file system fits on it. */
  lemma RecordInRange(l: Layout, n: nat, recs: seq<Record>, i: nat)
    requires ValidLayout(l, n) && ValidRecords(l, recs) && i < |recs|
    ensures recs[i].sector < n && !Storage(l, recs[i].sector)
  {
    hide Storage;
  }

  /** Installing over any mixture of old and new home sectors completes the transaction. */
  lemma InstallOverMixture(l: Layout, img: Image, base: Image, recs: seq<Record>)
    requires ValidLayout(l, |img|) && ValidRecords(l, recs) && Mixed(l, img, base, recs)
    ensures SameHome(l, Installed(img, recs), Installed(base, recs))
  {
    hide ValidLayout, Installed, Storage;
    forall s | 0 <= s < |img| && !Storage(l, s) ensures Installed(img, recs)[s] == Installed(base, recs)[s] {
      if i :| 0 <= i < |recs| && recs[i].sector == s {
        InstalledAt(img, recs, i);
        InstalledAt(base, recs, i);
      } else {
        InstalledElsewhere(img, recs, s);
        InstalledElsewhere(base, recs, s);
      }
    }
  }

  /** Installing does not touch the journal file. */
  lemma InstallKeepsStorage(l: Layout, img: Image, recs: seq<Record>, k: nat, s: nat)
    requires ValidLayout(l, |img|) && ValidRecords(l, recs) && k <= |recs|
    requires s < |img| && Storage(l, s)
    ensures Apply(img, HomeWrites(recs)[..k])[s] == img[s]
  {
    hide ValidLayout, Storage;
    ApplyUntouched(img, HomeWrites(recs)[..k], s);
  }

  /** The journal area is a function of the journal file's sectors. */
  lemma HoldsFrame(l: Layout, a: Image, b: Image, state: nat, recs: seq<Record>)
    requires ValidLayout(l, |a|) && |recs| <= RECORDS && state < LIMIT32 && |a| == |b|
    requires forall s :: 0 <= s < |a| && Storage(l, s) ==> a[s] == b[s]
    requires Holds(l, a, state, recs)
    ensures Holds(l, b, state, recs)
  {
    hide ValidLayout, Slot, Storage, Header, Descriptors, DescriptorSum;
    var n := |a|;
    assert b[Slot(l, n, 0)] == a[Slot(l, n, 0)];
    assert b[Slot(l, n, 1)] == a[Slot(l, n, 1)];
    assert b[Slot(l, n, 2)] == a[Slot(l, n, 2)];
    forall i | 0 <= i < |recs| ensures b[Slot(l, n, 3 + i)] == recs[i].data {
      assert a[Slot(l, n, 3 + i)] == recs[i].data;
    }
  }

  /** A committed transaction with some home writes cached. */
  ghost predicate Flying(l: Layout, d: Disk, base: Image, recs: seq<Record>)
    requires ValidLayout(l, |d.durable|) && |recs| <= RECORDS
  {
    && InFlight(l, d.durable, base, recs)
    && forall w :: w in d.pending ==>
         w.sector < |base| && !Storage(l, w.sector) && w.data == Installed(base, recs)[w.sector]
  }

  lemma FlyingCrash(l: Layout, d: Disk, base: Image, recs: seq<Record>, img: Image)
    requires ValidLayout(l, |d.durable|) && |recs| <= RECORDS
    requires Flying(l, d, base, recs) && CrashImage(d, img)
    ensures InFlight(l, img, base, recs)
  {
    hide ValidLayout, Storage, Installed, Holds;
    forall s | 0 <= s < |img| && Storage(l, s) ensures d.durable[s] == img[s] {
      assert Write(s, img[s]) !in d.pending;
    }
    HoldsFrame(l, d.durable, img, COMMITTED, recs);
  }

  lemma FlyingPuts(l: Layout, img: Image, base: Image, recs: seq<Record>, k: nat)
    requires ValidLayout(l, |img|) && ValidRecords(l, recs) && k <= |recs|
    requires InFlight(l, img, base, recs)
    ensures Flying(l, Disk(img, HomeWrites(recs)[..k]), base, recs)
  {
    hide ValidLayout, Storage, Installed, Holds;
    var ws := HomeWrites(recs)[..k];
    forall w | w in ws
      ensures w.sector < |base| && !Storage(l, w.sector) && w.data == Installed(base, recs)[w.sector]
    {
      var i :| 0 <= i < |ws| && ws[i] == w;
      RecordInRange(l, |img|, recs, i);
      InstalledAt(base, recs, i);
    }
  }

  /** The disk after the first `k` operations of the install phase. */
  lemma InstallRun(l: Layout, img: Image, recs: seq<Record>, k: nat)
    requires ValidLayout(l, |img|) && k <= |recs| + 3
    ensures var zero := Write(Slot(l, |img|, 0), Zeros(SECTOR_SIZE));
            Run(Disk(img, []), InstallOps(l, |img|, recs)[..k])
            == if k <= |recs| then Disk(img, HomeWrites(recs)[..k])
               else if k == |recs| + 1 then Disk(Installed(img, recs), [])
               else if k == |recs| + 2 then Disk(Installed(img, recs), [zero])
               else Disk(Apply(Installed(img, recs), [zero]), [])
  {
    hide ValidLayout, Slot, Apply;
    var ops := InstallOps(l, |img|, recs);
    var ws := HomeWrites(recs);
    if k <= |recs| {
      assert ops[..k] == Puts(ws[..k]);
      RunPuts(Disk(img, []), ws[..k]);
      assert [] + ws[..k] == ws[..k];
    } else {
      InstallRun(l, img, recs, k - 1);
      assert ops[..k][..k - 1] == ops[..k - 1];
      assert ws[..|recs|] == ws;
    }
  }

  lemma ZeroHeaderDoesNotCommit()
    ensures !Commits(Zeros(SECTOR_SIZE))
  {
    hide HeaderAccepted;
  }

  lemma ApplyOne(img: Image, w: Write)
    requires w.sector < |img|
    ensures Apply(img, [w]) == img[w.sector := w.data]
  {
    ApplyAppend(img, [], w);
    assert [] + [w] == [w];
  }

  /** After the install phase: the header is clear and the transaction is in place. */
  lemma InstallDone(l: Layout, img: Image, base: Image, recs: seq<Record>)
    requires ValidLayout(l, |img|) && ValidRecords(l, recs) && InFlight(l, img, base, recs)
    ensures var after := Run(Disk(img, []), InstallOps(l, |img|, recs));
            && after.pending == []
            && after.durable[Slot(l, |img|, 0)] == Zeros(SECTOR_SIZE)
            && SameHome(l, after.durable, Installed(base, recs))
  {
    hide ValidLayout, Slot, Storage, Installed, Holds, Run, Apply;
    var ops := InstallOps(l, |img|, recs);
    assert ops[..|recs| + 3] == ops;
    InstallRun(l, img, recs, |recs| + 3);
    InstallOverMixture(l, img, base, recs);
    ApplyOne(Installed(img, recs), Write(Slot(l, |img|, 0), Zeros(SECTOR_SIZE)));
  }

  /** A power cut anywhere in the install phase keeps the transaction decided. */
  lemma InstallCrash(l: Layout, start: Image, base: Image, recs: seq<Record>, k: nat, img: Image)
    requires ValidLayout(l, |start|) && ValidRecords(l, recs) && InFlight(l, start, base, recs)
    requires k <= |recs| + 3
    requires CrashImage(Run(Disk(start, []), InstallOps(l, |start|, recs)[..k]), img)
    ensures Decided(l, img, base, recs)
  {
    hide ValidLayout, Slot, Storage, Holds, Run, Installed, Commits;
    InstallRun(l, start, recs, k);
    if k <= |recs| {
      FlyingPuts(l, start, base, recs, k);
      FlyingCrash(l, Disk(start, HomeWrites(recs)[..k]), base, recs, img);
    } else {
      InstalledStaysInFlight(l, start, base, recs);
      InstallOverMixture(l, start, base, recs);
      ClearCrash(l, Installed(start, recs), base, recs, img);
    }
  }

  lemma InstalledStaysInFlight(l: Layout, img: Image, base: Image, recs: seq<Record>)
    requires ValidLayout(l, |img|) && ValidRecords(l, recs) && InFlight(l, img, base, recs)
    ensures InFlight(l, Installed(img, recs), base, recs)
  {
    hide ValidLayout, Slot, Storage, Holds, Run, Apply;
    var after := Installed(img, recs);
    assert HomeWrites(recs)[..|recs|] == HomeWrites(recs);
    forall s | 0 <= s < |img| && Storage(l, s) ensures img[s] == after[s] {
      InstallKeepsStorage(l, img, recs, |recs|, s);
    }
    HoldsFrame(l, img, after, COMMITTED, recs);
    InstallOverMixture(l, img, base, recs);
  }

  /** Clearing the header of a fully installed transaction. */
  lemma ClearCrash(l: Layout, done: Image, base: Image, recs: seq<Record>, img: Image)
    requires ValidLayout(l, |done|) && |recs| <= RECORDS && InFlight(l, done, base, recs)
    requires SameHome(l, done, Installed(base, recs))
    requires var zero := Write(Slot(l, |done|, 0), Zeros(SECTOR_SIZE));
             || CrashImage(Disk(done, []), img)
             || CrashImage(Disk(done, [zero]), img)
             || CrashImage(Disk(Apply(done, [zero]), []), img)
    ensures Decided(l, img, base, recs)
  {
    hide ValidLayout, Slot, Storage, Holds, Mixed, Installed, Commits, Apply;
    var zero := Write(Slot(l, |done|, 0), Zeros(SECTOR_SIZE));
    ApplyOne(done, zero);
    ZeroHeaderDoesNotCommit();
    if img[zero.sector] == done[zero.sector] && img[zero.sector] != zero.data {
      assert img == done;
    } else {
      assert img == done[zero.sector := zero.data];
      assert Inert(l, img, Installed(base, recs));
    }
  }

  // ---- Deciding ------------------------------------------------------------------------

  /** Only the header separates a prepared journal from a committed one. */
  lemma CommittedHeaderDecides(l: Layout, img: Image, recs: seq<Record>, q: nat)
    requires ValidLayout(l, |img|) && |recs| <= RECORDS && Holds(l, img, PREPARED, recs)
    ensures var w := HeaderWrite(l, |img|, COMMITTED, recs, q);
            Holds(l, img[w.sector := w.data], COMMITTED, recs)
  {
    hide ValidLayout, Slot, Storage, Header, Descriptors, DescriptorSum;
    var n := |img|;
    var w := HeaderWrite(l, n, COMMITTED, recs, q);
    var after := img[w.sector := w.data];
    SlotsDistinct(l, n, 0, 1);
    SlotsDistinct(l, n, 0, 2);
    forall i | 0 <= i < |recs| ensures after[Slot(l, n, 3 + i)] == recs[i].data {
      SlotsDistinct(l, n, 0, 3 + i);
    }
    assert StoredDescriptors(l, after) == StoredDescriptors(l, img);
  }

  lemma DecideMakesInFlight(l: Layout, prepared: Image, base: Image, recs: seq<Record>, q: nat)
    requires ValidLayout(l, |prepared|) && |recs| <= RECORDS
    requires Holds(l, prepared, PREPARED, recs) && Inert(l, prepared, base)
    ensures var w := HeaderWrite(l, |prepared|, COMMITTED, recs, q);
            InFlight(l, prepared[w.sector := w.data], base, recs)
  {
    hide ValidLayout, Slot, Storage, Holds, Header, Installed;
    CommittedHeaderDecides(l, prepared, recs, q);
  }

  /** While the COMMITTED header is cached, the transaction has happened or it has not. */
  lemma DecideCrash(l: Layout, prepared: Image, base: Image, recs: seq<Record>, q: nat, img: Image)
    requires ValidLayout(l, |prepared|) && |recs| <= RECORDS
    requires Holds(l, prepared, PREPARED, recs) && Inert(l, prepared, base)
    requires CrashImage(Disk(prepared, [HeaderWrite(l, |prepared|, COMMITTED, recs, q)]), img)
    ensures Inert(l, img, base) || InFlight(l, img, base, recs)
  {
    hide ValidLayout, Slot, Storage, Holds, Header, Installed, Inert, InFlight;
    var w := HeaderWrite(l, |prepared|, COMMITTED, recs, q);
    DecideMakesInFlight(l, prepared, base, recs, q);
    if img[w.sector] == prepared[w.sector] {
      assert img == prepared;
    } else {
      assert img == prepared[w.sector := w.data];
    }
  }

  // ---- Commit ---------------------------------------------------------------------------

  /** The disk contents once the first flush of a commit has succeeded. */
  function Prepared(l: Layout, d: Disk, recs: seq<Record>, q: nat): (img: Image)
    requires ValidLayout(l, |d.durable|) && |recs| <= RECORDS
    ensures |img| == |d.durable|
  {
    Run(d, PrepareOps(l, |d.durable|, recs, q)).durable
  }

  /** The disk contents once the COMMITTED header has been flushed. */
  function AfterDecide(l: Layout, d: Disk, recs: seq<Record>, q: nat): (img: Image)
    requires ValidLayout(l, |d.durable|) && |recs| <= RECORDS
    ensures |img| == |d.durable|
  {
    hide Prepared, HeaderWrite, ValidLayout, Slot;
    var w := HeaderWrite(l, |d.durable|, COMMITTED, recs, q);
    Prepared(l, d, recs, q)[w.sector := w.data]
  }

  /** The two resting points of a commit. */
  lemma CommitMilestones(l: Layout, d: Disk, base: Image, recs: seq<Record>, q: nat)
    requires ValidLayout(l, |d.durable|) && |recs| <= RECORDS && Settled(l, d, base)
    ensures Run(d, PrepareOps(l, |d.durable|, recs, q)) == Disk(Prepared(l, d, recs, q), [])
    ensures Holds(l, Prepared(l, d, recs, q), PREPARED, recs)
    ensures Inert(l, Prepared(l, d, recs, q), base)
    ensures InFlight(l, AfterDecide(l, d, recs, q), base, recs)
  {
    hide ValidLayout, Slot, Storage, Commits, Run, PrepareOps, Holds, SameHome, InFlight, Installed, HeaderWrite;
    var ops := PrepareOps(l, |d.durable|, recs, q);
    assert ops[..|recs| + 4] == ops;
    SettledAfterPreparing(l, d, base, recs, q, |recs| + 4);
    PreparedHolds(l, d, recs, q);
    DecideMakesInFlight(l, Prepared(l, d, recs, q), base, recs, q);
  }

  lemma DecideRun(img: Image, w: Write)
    requires w.sector < |img|
    ensures Run(Disk(img, []), [Put(w)]) == Disk(img, [w])
    ensures Run(Disk(img, []), [Put(w), Flush]) == Disk(img[w.sector := w.data], [])
  {
    hide Apply;
    var d := Disk(img, []);
    assert [Put(w)][..0] == [];
    assert Run(d, []) == d;
    assert [] + [w] == [w];
    assert [Put(w), Flush][..1] == [Put(w)];
    ApplyOne(img, w);
  }

  /** Where a commit that has completed `k` operations stands. */
  lemma CommitRun(l: Layout, d: Disk, base: Image, recs: seq<Record>, q: nat, k: nat)
    requires ValidLayout(l, |d.durable|) && |recs| <= RECORDS && Settled(l, d, base)
    requires k <= 2 * |recs| + 9
    ensures var n := |d.durable|;
            var p := |recs| + 4;
            Run(d, CommitOps(l, n, recs, q)[..k])
            == if k <= p then Run(d, PrepareOps(l, n, recs, q)[..k])
               else if k == p + 1 then Disk(Prepared(l, d, recs, q), [HeaderWrite(l, n, COMMITTED, recs, q)])
               else Run(Disk(AfterDecide(l, d, recs, q), []), InstallOps(l, n, recs)[..k - p - 2])
  {
    hide ValidLayout, Slot, PrepareOps, InstallOps, Settled, Holds, Inert, InFlight, Run, Prepared, Header;
    var n := |d.durable|;
    var p := |recs| + 4;
    var a, b, c := PrepareOps(l, n, recs, q), DecideOps(l, n, recs, q), InstallOps(l, n, recs);
    RunPhases(d, a, b, c, k);
    CommitMilestones(l, d, base, recs, q);
    var prepared := Prepared(l, d, recs, q);
    var w := HeaderWrite(l, n, COMMITTED, recs, q);
    DecideRun(prepared, w);
    if k == p + 1 {
      assert b[..1] == [Put(w)];
    } else if k == p + 2 {
      assert b[..2] == b;
      assert c[..0] == [];
      RunNothing(Disk(AfterDecide(l, d, recs, q), []));
    }
  }

  lemma RunNothing(d: Disk)
    ensures Run(d, []) == d
  {
  }

  lemma SettledCrash(l: Layout, d: Disk, base: Image, img: Image)
    requires ValidLayout(l, |d.durable|) && Settled(l, d, base) && CrashImage(d, img)
    ensures Inert(l, img, base)
  {
    hide ValidLayout, Slot, Storage, Commits;
  }

  /** Crash atomicity of journal_commit. Whatever operation the power cut interrupts, the
      image left behind is recoverable: no trace of the transaction outside the journal file,
      or a decided transaction; and it is decided once the COMMITTED header was flushed. */
  lemma CommitCrash(l: Layout, d: Disk, base: Image, recs: seq<Record>, q: nat, k: nat, img: Image)
    requires ValidLayout(l, |d.durable|) && ValidRecords(l, recs) && Settled(l, d, base)
    requires k <= 2 * |recs| + 9
    requires CrashImage(Run(d, CommitOps(l, |d.durable|, recs, q)[..k]), img)
    ensures Recoverable(l, img, base, recs)
    ensures k <= |recs| + 4 ==> Inert(l, img, base)
    ensures k >= |recs| + 6 ==> Decided(l, img, base, recs)
  {
    hide ValidLayout, Slot, Storage, Holds, Run, CommitOps, PrepareOps, InstallOps, Installed, Commits,
      InFlight, HeaderWrite, Prepared, AfterDecide, Settled, Decided;
    var n := |d.durable|;
    CommitRun(l, d, base, recs, q, k);
    if k <= |recs| + 4 {
      SettledAfterPreparing(l, d, base, recs, q, k);
      SettledCrash(l, Run(d, PrepareOps(l, n, recs, q)[..k]), base, img);
    } else {
      CommitMilestones(l, d, base, recs, q);
      if k == |recs| + 5 {
        DecideCrash(l, Prepared(l, d, recs, q), base, recs, q, img);
        InFlightIsDecided(l, img, base, recs);
      } else {
        InstallCrash(l, AfterDecide(l, d, recs, q), base, recs, k - |recs| - 6, img);
        InFlightIsDecided(l, img, base, recs);
      }
    }
  }

  lemma InFlightIsDecided(l: Layout, img: Image, base: Image, recs: seq<Record>)
    requires ValidLayout(l, |img|) && |recs| <= RECORDS
    ensures InFlight(l, img, base, recs) ==> Decided(l, img, base, recs)
    ensures Decided(l, img, base, recs) ==> |img| == |base|
    ensures Inert(l, img, base) ==> |img| == |base|
  {
    hide ValidLayout, Slot, Storage, Holds, Installed, Commits;
  }

  /** An uninterrupted commit installs the whole transaction and leaves the disk settled. */
  lemma CommitDone(l: Layout, d: Disk, base: Image, recs: seq<Record>, q: nat)
    requires ValidLayout(l, |d.durable|) && ValidRecords(l, recs) && Settled(l, d, base)
    ensures var after := Run(d, CommitOps(l, |d.durable|, recs, q));
            && after.pending == []
            && after.durable[Slot(l, |d.durable|, 0)] == Zeros(SECTOR_SIZE)
            && Settled(l, after, Installed(base, recs))
  {
    hide ValidLayout, Slot, Storage, Holds, Run, CommitOps, PrepareOps, InstallOps, Installed, Commits,
      InFlight, HeaderWrite, Prepared, AfterDecide, Settled;
    var n := |d.durable|;
    var ops := CommitOps(l, n, recs, q);
    assert ops[..2 * |recs| + 9] == ops;
    CommitRun(l, d, base, recs, q, 2 * |recs| + 9);
    var install := InstallOps(l, n, recs);
    assert install[..|recs| + 3] == install;
    CommitMilestones(l, d, base, recs, q);
    InstallDone(l, AfterDecide(l, d, recs, q), base, recs);
    ClearedIsSettled(l, Run(d, ops), Installed(base, recs));
  }

  lemma ClearedIsSettled(l: Layout, d: Disk, base: Image)
    requires ValidLayout(l, |d.durable|) && d.pending == [] && SameHome(l, d.durable, base)
    requires d.durable[Slot(l, |d.durable|, 0)] == Zeros(SECTOR_SIZE)
    ensures Settled(l, d, base)
  {
    hide ValidLayout, Slot, Storage, Commits;
    ZeroHeaderDoesNotCommit();
  }
}
