/** Whole runs of the journalled file system. With a device that may fail and lose power at
    any time, every run is a run of a ledger whose transactions are atomic. With a device
    that persists writes in order, no run ever produces a journal that replay refuses. */
module JournalRuns {
  import opened Bytes
  import opened Disk
  import opened JournalLayout
  import opened JournalProtocol
  import opened JournalCrash
  import opened JournalRecovery

  // ---- Replays that fail --------------------------------------------------------------------

  ghost predicate FailedAt(d: Disk, ops: seq<Op>, at: nat, after: Disk)
    requires at < |ops|
  {
    Fails(Run(d, ops[..at]), ops[at], after)
  }

  /** journal_replay returned `rc` and left the disk as `after`: it did all of ReplayOf, or it
      was stopped between two operations by a failed read, or at one by a failed write. */
  ghost predicate Replayed(l: Layout, img: Image, after: Disk, rc: int)
    requires ValidLayout(l, |img|)
  {
    var r := ReplayOf(l, img);
    var d := Disk(img, []);
    if rc == 0 then r.rc == 0 && after == Run(d, r.ops)
    else || (exists at: nat :: at <= |r.ops| && after == Run(d, r.ops[..at]))
         || (exists at: nat :: at < |r.ops| && FailedAt(d, r.ops, at, after))
  }

  /** However a replay ends, a power cut after it leaves a recoverable image. */
  lemma ReplayedStaysRecoverable(l: Layout, img: Image, base: Image, recs: seq<Record>, after: Disk, rc: int,
                                 cut: Image)
    requires ValidLayout(l, |img|) && ValidRecords(l, recs) && Recoverable(l, img, base, recs)
    requires Replayed(l, img, after, rc) && CrashImage(after, cut) && |cut| == |img|
    ensures Recoverable(l, cut, base, recs)
    ensures Decided(l, img, base, recs) ==> Decided(l, cut, base, recs)
  {
    hide ValidLayout, ValidRecords, Recoverable, Decided, ReplayOf, Run, CrashImage, Fails, Step, Inert;
    var ops := ReplayOf(l, img).ops;
    var d := Disk(img, []);
    if rc == 0 {
      assert ops[..|ops|] == ops;
      ReplayCrash(l, img, base, recs, |ops|, cut);
    } else if at: nat :| at <= |ops| && after == Run(d, ops[..at]) {
      ReplayCrash(l, img, base, recs, at, cut);
    } else {
      var at: nat :| at < |ops| && FailedAt(d, ops, at, after);
      FailureAddsNoImage(Run(d, ops[..at]), ops[at], after, cut);
      assert ops[..at + 1] == ops[..at] + [ops[at]];
      RunSnoc(d, ops[..at], ops[at]);
      if CrashImage(Run(d, ops[..at]), cut) {
        ReplayCrash(l, img, base, recs, at, cut);
      } else {
        ReplayCrash(l, img, base, recs, at + 1, cut);
      }
    }
  }

  // ---- Failing devices and power cuts -----------------------------------------------------

  /** The server as far as the journal is concerned. A faulted server starts no transaction. */
  datatype Server = Server(disk: Disk, faulted: bool)

  datatype Event =
    | Committed(recs: seq<Record>, q: nat)
      // journal_commit returned 0
    | Failed(recs: seq<Record>, q: nat, at: nat, left: Disk)
      // operation number `at` of journal_commit reported an error and left the disk so
    | Recovered(imgs: seq<Image>)
      // a power cut and replays that found these images, of which the last returned 0
    | Refused(img: Image, left: Disk)
      // a power cut left this image, and its replay reported an error and left the disk so

  ghost predicate Enabled(l: Layout, s: Server, e: Event) {
    var n := |s.disk.durable|;
    && ValidLayout(l, n)
    && match e
       case Committed(recs, q) => !s.faulted && ValidRecords(l, recs)
       case Failed(recs, q, at, left) =>
         && !s.faulted && ValidRecords(l, recs) && at < 2 * |recs| + 9
         && |left.durable| == n
         && Fails(Run(s.disk, CommitOps(l, n, recs, q)[..at]), CommitOps(l, n, recs, q)[at], left)
       case Recovered(imgs) =>
         && imgs != [] && Chain(l, n, imgs) && CrashImage(s.disk, imgs[0])
         && ReplayOf(l, imgs[|imgs| - 1]).rc == 0
       case Refused(img, left) =>
         CrashImage(s.disk, img) && |left.durable| == n && Replayed(l, img, left, -1)
  }

  /** An error up to the first flush aborts the transaction; a later one faults the journal. */
  ghost function After(l: Layout, s: Server, e: Event): Server
    requires Enabled(l, s, e)
  {
    match e
    case Committed(recs, q) => Server(Run(s.disk, CommitOps(l, |s.disk.durable|, recs, q)), false)
    case Failed(recs, q, at, left) => Server(left, at > |recs| + 3)
    case Recovered(imgs) =>
      var last := imgs[|imgs| - 1];
      Server(Run(Disk(last, []), ReplayOf(l, last).ops), false)
    case Refused(_, left) => Server(left, true)
  }

  /** What the user was promised: the image made by the transactions so far, and at most one
      transaction that was neither acknowledged nor undone. */
  datatype Ledger = Ledger(base: Image, doubtful: seq<seq<Record>>)

  /** The transaction in doubt; the empty one when there is none. */
  function Doubt(a: Ledger): seq<Record> { if a.doubtful == [] then [] else a.doubtful[0] }

  ghost predicate LedgerStep(a: Ledger, e: Event, b: Ledger) {
    match e
    case Committed(recs, q) => b == Ledger(Installed(a.base, recs), [])
    case Failed(recs, q, at, left) => b == if at > |recs| + 3 then Ledger(a.base, [recs]) else a
    case Recovered(_) =>
      b == Ledger(a.base, []) || (|a.doubtful| == 1 && b == Ledger(Installed(a.base, a.doubtful[0]), []))
    case Refused(_, _) => b == a
  }

  /** The server keeps the ledger's promise. */
  ghost predicate Agrees(l: Layout, s: Server, a: Ledger) {
    && ValidLayout(l, |s.disk.durable|)
    && |a.base| == |s.disk.durable|
    && |a.doubtful| <= 1
    && (!s.faulted ==> a.doubtful == [] && Settled(l, s.disk, a.base))
    && (s.faulted ==> ValidRecords(l, Doubt(a))
                      && forall img :: CrashImage(s.disk, img) ==> Recoverable(l, img, a.base, Doubt(a)))
  }

  /** An error inside the first phase leaves the disk settled. */
  lemma FailedPrepareSettled(l: Layout, d: Disk, base: Image, recs: seq<Record>, q: nat, at: nat, left: Disk)
    requires ValidLayout(l, |d.durable|) && |recs| <= RECORDS && Settled(l, d, base)
    requires at <= |recs| + 3 && |left.durable| == |d.durable|
    requires Fails(Run(d, CommitOps(l, |d.durable|, recs, q)[..at]), CommitOps(l, |d.durable|, recs, q)[at], left)
    ensures Settled(l, left, base)
  {
    hide ValidLayout, Slot, Storage, Run, PrepareOps, DecideOps, InstallOps, Settled;
    var n := |d.durable|;
    var ops, prep := CommitOps(l, n, recs, q), PrepareOps(l, n, recs, q);
    assert ops[..at] == prep[..at] && ops[..at + 1] == prep[..at + 1];
    assert prep[..at + 1] == prep[..at] + [ops[at]];
    var before := Run(d, ops[..at]);
    SettledAfterPreparing(l, d, base, recs, q, at);
    SettledAfterPreparing(l, d, base, recs, q, at + 1);
    RunSnoc(d, prep[..at], ops[at]);
    if ops[at].Flush? {
      PartialFlushSettled(l, before, base, left);
    }
  }

  lemma RunSnoc(d: Disk, ops: seq<Op>, op: Op)
    ensures Run(d, ops + [op]) == Step(Run(d, ops), op)
  {
    assert (ops + [op])[..|ops|] == ops;
  }

  lemma PartialFlushSettled(l: Layout, d: Disk, base: Image, left: Disk)
    requires ValidLayout(l, |d.durable|) && Settled(l, d, base)
    requires left.pending == d.pending && CrashImage(d, left.durable)
    ensures Settled(l, left, base)
  {
    hide ValidLayout, Slot, Storage, Commits;
  }

  /** An error after the first flush leaves the transaction recoverable. */
  lemma FailedCommitRecoverable(l: Layout, d: Disk, base: Image, recs: seq<Record>, q: nat, at: nat,
                                left: Disk, img: Image)
    requires ValidLayout(l, |d.durable|) && ValidRecords(l, recs) && Settled(l, d, base)
    requires at < 2 * |recs| + 9 && |left.durable| == |d.durable|
    requires Fails(Run(d, CommitOps(l, |d.durable|, recs, q)[..at]), CommitOps(l, |d.durable|, recs, q)[at], left)
    requires CrashImage(left, img)
    ensures Recoverable(l, img, base, recs)
  {
    hide ValidLayout, Slot, Storage, Run, CommitOps, Settled, Recoverable, Fails, Step, ValidRecords;
    RecordCount(l, recs);
    var ops := CommitOps(l, |d.durable|, recs, q);
    FailureAddsNoImage(Run(d, ops[..at]), ops[at], left, img);
    assert ops[..at + 1] == ops[..at] + [ops[at]];
    RunSnoc(d, ops[..at], ops[at]);
    if CrashImage(Run(d, ops[..at]), img) {
      CommitCrash(l, d, base, recs, q, at, img);
    } else {
      CommitCrash(l, d, base, recs, q, at + 1, img);
    }
  }

  /** Whatever power cut follows, the image has all of the transaction in doubt or none. */
  lemma AgreesCrash(l: Layout, s: Server, a: Ledger, img: Image)
    requires Agrees(l, s, a) && CrashImage(s.disk, img)
    ensures |img| == |s.disk.durable| && ValidRecords(l, Doubt(a)) && Recoverable(l, img, a.base, Doubt(a))
  {
    hide ValidLayout, Slot, Storage, Settled, Recoverable, Installed;
    NoRecords(l);
    if !s.faulted {
      SettledCrash(l, s.disk, a.base, img);
      InertIsRecoverable(l, img, a.base, []);
    }
  }

  /** The image a recovery chain starts from, and what the ledger may become. */
  lemma RecoveredAgrees(l: Layout, s: Server, a: Ledger, imgs: seq<Image>) returns (b: Ledger)
    requires Agrees(l, s, a) && Enabled(l, s, Recovered(imgs))
    ensures LedgerStep(a, Recovered(imgs), b) && Agrees(l, After(l, s, Recovered(imgs)), b)
  {
    var n := |s.disk.durable|;
    var last := imgs[|imgs| - 1];
    AgreesCrash(l, s, a, imgs[0]);
    hide ValidLayout, Slot, Storage, Run, Settled, Recoverable, ReplayOf, CrashImage, Chain, SameHome;
    ChainLengths(l, n, imgs);
    ChainRecoverable(l, n, imgs, a.base, Doubt(a));
    ReplayDone(l, last, a.base, Doubt(a));
    var after := Run(Disk(last, []), ReplayOf(l, last).ops);
    if SameHome(l, after.durable, a.base) {
      b := Ledger(a.base, []);
    } else {
      NothingInstalled(a.base);
      b := Ledger(Installed(a.base, Doubt(a)), []);
    }
    ClearedIsSettled(l, after, b.base);
  }

  lemma NothingInstalled(img: Image)
    ensures Installed(img, []) == img
  {
    assert HomeWrites([]) == [];
  }

  /** A replay that reports an error takes nothing back and decides nothing. */
  lemma RefusedAgrees(l: Layout, s: Server, a: Ledger, img: Image, left: Disk)
    requires Agrees(l, s, a) && Enabled(l, s, Refused(img, left))
    ensures Agrees(l, Server(left, true), a)
  {
    AgreesCrash(l, s, a, img);
    hide ValidLayout, Slot, Storage, Settled, Recoverable, Replayed, ValidRecords, CrashImage;
    forall cut | CrashImage(left, cut) ensures Recoverable(l, cut, a.base, Doubt(a)) {
      CrashLength(left, cut);
      ReplayedStaysRecoverable(l, img, a.base, Doubt(a), left, -1, cut);
    }
  }

  lemma CrashLength(d: Disk, img: Image)
    requires CrashImage(d, img)
    ensures |img| == |d.durable|
  {
  }

  lemma InertIsRecoverable(l: Layout, img: Image, base: Image, recs: seq<Record>)
    requires ValidLayout(l, |img|) && |recs| <= RECORDS && Inert(l, img, base)
    ensures Recoverable(l, img, base, recs)
  {
    hide ValidLayout, Slot, Storage, Commits, Decided;
  }

  /** One event: the ledger can follow. */
  lemma EventAgrees(l: Layout, s: Server, a: Ledger, e: Event) returns (b: Ledger)
    requires Agrees(l, s, a) && Enabled(l, s, e)
    ensures LedgerStep(a, e, b) && Agrees(l, After(l, s, e), b)
  {
    hide ValidLayout, Slot, Storage, Run, Settled, Recoverable, ReplayOf, Chain,
      CommitOps, Installed, Fails;
    match e {
      case Committed(recs, q) =>
        CommitDone(l, s.disk, a.base, recs, q);
        b := Ledger(Installed(a.base, recs), []);
      case Failed(recs, q, at, left) =>
        RecordCount(l, recs);
        if at <= |recs| + 3 {
          FailedPrepareSettled(l, s.disk, a.base, recs, q, at, left);
          b := a;
        } else {
          forall img | CrashImage(left, img) ensures Recoverable(l, img, a.base, recs) {
            FailedCommitRecoverable(l, s.disk, a.base, recs, q, at, left, img);
          }
          b := Ledger(a.base, [recs]);
        }
      case Recovered(imgs) =>
        b := RecoveredAgrees(l, s, a, imgs);
      case Refused(img, left) =>
        RefusedAgrees(l, s, a, img, left);
        b := a;
    }
  }

  lemma NoRecords(l: Layout)
    ensures ValidRecords(l, [])
  {
  }

  ghost predicate RunsTo(l: Layout, s: Server, es: seq<Event>, t: Server)
    decreases |es|
  {
    if es == [] then s == t
    else Enabled(l, s, es[0]) && RunsTo(l, After(l, s, es[0]), es[1..], t)
  }

  ghost predicate LedgerRunsTo(a: Ledger, es: seq<Event>, b: Ledger)
    decreases |es|
  {
    if es == [] then a == b
    else exists c :: LedgerStep(a, es[0], c) && LedgerRunsTo(c, es[1..], b)
  }

  /** Every run of commits, device errors, power cuts, and replays cut short or refused, of any
      length, keeps some run of the ledger: acknowledged transactions stay, aborted ones leave no
      trace, and only a transaction whose commit reported a late error may turn out either
      way, once and for all, at the next recovery. */
  lemma {:induction false} RunsKeepTheLedger(l: Layout, s: Server, a: Ledger, es: seq<Event>, t: Server)
    requires Agrees(l, s, a) && RunsTo(l, s, es, t)
    ensures exists b :: LedgerRunsTo(a, es, b) && Agrees(l, t, b)
    decreases |es|
  {
    hide Enabled, After, Agrees, LedgerStep;
    if es == [] {
      assert LedgerRunsTo(a, es, a);
    } else {
      var c := EventAgrees(l, s, a, es[0]);
      RunsKeepTheLedger(l, After(l, s, es[0]), c, es[1..], t);
      var b :| LedgerRunsTo(c, es[1..], b) && Agrees(l, t, b);
      assert LedgerRunsTo(a, es, b);
    }
  }

  // ---- In-order devices ---------------------------------------------------------------------

  /** A journal that replay accepts: clear, or holding one whole transaction. */
  ghost predicate Sound(l: Layout, img: Image)
    requires ValidLayout(l, |img|)
  {
    || img[Slot(l, |img|, 0)] == Zeros(SECTOR_SIZE)
    || exists recs :: ValidRecords(l, recs) && (Holds(l, img, PREPARED, recs) || Holds(l, img, COMMITTED, recs))
  }

  lemma SoundIsAccepted(l: Layout, img: Image)
    requires ValidLayout(l, |img|) && Sound(l, img)
    ensures ReplayOf(l, img).rc == 0
  {
    hide ValidLayout, Slot, Holds, HeaderAccepted, AcceptedRecords, StoredDescriptors, Checksum, Bytes.U32Get,
      InstallOps, ClearOps;
    if img[Slot(l, |img|, 0)] != Zeros(SECTOR_SIZE) {
      var recs :| ValidRecords(l, recs) && (Holds(l, img, PREPARED, recs) || Holds(l, img, COMMITTED, recs));
      if Holds(l, img, PREPARED, recs) {
        ReplayOfPrepared(l, img, recs);
      } else {
        ReplayOfCommitted(l, img, recs);
      }
    }
  }

  /** No transaction under way and nothing cached: the state between transactions. */
  ghost predicate Clean(l: Layout, d: Disk)
    requires ValidLayout(l, |d.durable|)
  {
    d.pending == [] && d.durable[Slot(l, |d.durable|, 0)] == Zeros(SECTOR_SIZE)
  }

  lemma CleanIsSettled(l: Layout, d: Disk)
    requires ValidLayout(l, |d.durable|) && Clean(l, d)
    ensures Settled(l, d, d.durable)
  {
    hide ValidLayout, Slot, Storage;
    ClearedIsSettled(l, d, d.durable);
  }

  /** Before the PREPARED header is written, the header sector is still clear. */
  lemma EarlyPrepareIsSound(l: Layout, d: Disk, recs: seq<Record>, q: nat, k: nat)
    requires ValidLayout(l, |d.durable|) && Clean(l, d) && |recs| <= RECORDS && k <= |recs| + 2
    ensures Contents(Run(d, PrepareOps(l, |d.durable|, recs, q)[..k]))[Slot(l, |d.durable|, 0)] == Zeros(SECTOR_SIZE)
  {
    hide ValidLayout, Slot, Storage, Apply, Run, PrepareWrites, HeaderWrite, DescriptorWrites;
    var n := |d.durable|;
    var ws := PrepareWrites(l, n, recs, q);
    assert PrepareOps(l, n, recs, q)[..k] == Puts(ws[..k]);
    RunPuts(d, ws[..k]);
    assert [] + ws[..k] == ws[..k];
    forall w | w in ws[..k] ensures w.sector != Slot(l, n, 0) {
      var i :| 0 <= i < k && ws[i] == w;
      PrepareWriteAt(l, n, recs, q, i);
      SlotsDistinct(l, n, PrepareSlot(recs, i), 0);
    }
    ApplyUntouched(d.durable, ws[..k], Slot(l, n, 0));
  }

  /** Once it is written, the cache holds the whole prepared transaction. */
  lemma PreparedContents(l: Layout, d: Disk, recs: seq<Record>, q: nat, k: nat)
    requires ValidLayout(l, |d.durable|) && |recs| <= RECORDS && |recs| + 3 <= k <= |recs| + 4
    ensures Contents(Run(d, PrepareOps(l, |d.durable|, recs, q)[..k])) == Prepared(l, d, recs, q)
  {
    hide ValidLayout, Slot, Storage, PrepareWrites, Apply;
    var n := |d.durable|;
    var ops := PrepareOps(l, n, recs, q);
    var ws := PrepareWrites(l, n, recs, q);
    PrepareRuns(l, d, recs, q);
    if k == |recs| + 4 {
      assert ops[..k] == ops;
      ApplyNothing(Prepared(l, d, recs, q));
    } else {
      assert ops[..k] == Puts(ws);
      RunPuts(d, ws);
    }
  }

  lemma ApplyNothing(img: Image)
    ensures Apply(img, []) == img
  {
  }

  /** The contents at each point of the install phase. */
  lemma InstallIsSound(l: Layout, start: Image, recs: seq<Record>, k: nat)
    requires ValidLayout(l, |start|) && ValidRecords(l, recs) && Holds(l, start, COMMITTED, recs)
    requires k <= |recs| + 3
    ensures Sound(l, Contents(Run(Disk(start, []), InstallOps(l, |start|, recs)[..k])))
  {
    hide ValidLayout, Slot, Storage, Holds, Run, Apply, ValidRecords;
    RecordCount(l, recs);
    InstallRun(l, start, recs, k);
    var zero := Write(Slot(l, |start|, 0), Zeros(SECTOR_SIZE));
    var j := if k <= |recs| then k else |recs|;
    var img := Apply(start, HomeWrites(recs)[..j]);
    if k <= |recs| + 1 {
      forall s | 0 <= s < |start| && Storage(l, s) ensures start[s] == img[s] {
        InstallKeepsStorage(l, start, recs, j, s);
      }
      HoldsFrame(l, start, img, COMMITTED, recs);
      assert HomeWrites(recs)[..|recs|] == HomeWrites(recs);
      ApplyNothing(img);
    } else {
      ApplyOne(Installed(start, recs), zero);
      ApplyNothing(Apply(Installed(start, recs), [zero]));
    }
  }

  /** In-order crash points of one commit: everything issued so far is on the disk. */
  lemma CommitIsSound(l: Layout, d: Disk, recs: seq<Record>, q: nat, k: nat)
    requires ValidLayout(l, |d.durable|) && Clean(l, d) && ValidRecords(l, recs) && k <= 2 * |recs| + 9
    ensures Sound(l, Contents(Run(d, CommitOps(l, |d.durable|, recs, q)[..k])))
  {
    hide ValidLayout, Slot, Storage, Holds, Run, Apply, ValidRecords, CommitOps, PrepareOps, InstallOps, Prepared,
      HeaderWrite, Settled, Inert, Mixed;
    var n := |d.durable|;
    RecordCount(l, recs);
    CleanIsSettled(l, d);
    CommitRun(l, d, d.durable, recs, q, k);
    CommitMilestones(l, d, d.durable, recs, q);
    if k <= |recs| + 2 {
      EarlyPrepareIsSound(l, d, recs, q, k);
    } else if k <= |recs| + 4 {
      PreparedContents(l, d, recs, q, k);
    } else if k == |recs| + 5 {
      ApplyOne(Prepared(l, d, recs, q), HeaderWrite(l, n, COMMITTED, recs, q));
    } else {
      InstallIsSound(l, AfterDecide(l, d, recs, q), recs, k - |recs| - 6);
    }
  }

  lemma CommitIsClean(l: Layout, d: Disk, recs: seq<Record>, q: nat)
    requires ValidLayout(l, |d.durable|) && Clean(l, d) && ValidRecords(l, recs)
    ensures Clean(l, Run(d, CommitOps(l, |d.durable|, recs, q)))
  {
    hide ValidLayout, Slot, Storage, Run, CommitOps, ValidRecords, Settled;
    CleanIsSettled(l, d);
    CommitDone(l, d, d.durable, recs, q);
  }

  datatype Txn = Txn(recs: seq<Record>, q: nat)

  function RunOps(l: Layout, n: nat, txns: seq<Txn>): (ops: seq<Op>)
    requires ValidLayout(l, n) && forall i :: 0 <= i < |txns| ==> ValidRecords(l, txns[i].recs)
    decreases |txns|
  {
    if txns == [] then []
    else
      assert ValidRecords(l, txns[0].recs);
      CommitOps(l, n, txns[0].recs, txns[0].q) + RunOps(l, n, txns[1..])
  }

  /** With error-free writes that persist in order, every crash point of every run of
      transactions leaves a journal that replay accepts. */
  lemma {:induction false} InOrderNeverRefused(l: Layout, d: Disk, txns: seq<Txn>, k: nat)
    requires ValidLayout(l, |d.durable|) && Clean(l, d)
    requires forall i :: 0 <= i < |txns| ==> ValidRecords(l, txns[i].recs)
    requires k <= |RunOps(l, |d.durable|, txns)|
    ensures var img := Contents(Run(d, RunOps(l, |d.durable|, txns)[..k]));
            Sound(l, img) && ReplayOf(l, img).rc == 0
    decreases |txns|
  {
    hide ValidLayout, Slot, Storage, Run, CommitOps, Sound, ReplayOf, Apply;
    var n := |d.durable|;
    if txns == [] {
      assert RunOps(l, n, txns)[..k] == [];
      RunNothing(d);
      CleanIsSound(l, d);
    } else {
      var t := txns[0];
      RecordCount(l, t.recs);
      var first, rest := CommitOps(l, n, t.recs, t.q), RunOps(l, n, txns[1..]);
      if k <= |first| {
        assert (first + rest)[..k] == first[..k];
        CommitIsSound(l, d, t.recs, t.q, k);
      } else {
        assert (first + rest)[..k] == first + rest[..k - |first|];
        RunConcat(d, first, rest[..k - |first|]);
        CommitIsClean(l, d, t.recs, t.q);
        InOrderNeverRefused(l, Run(d, first), txns[1..], k - |first|);
      }
    }
    SoundIsAccepted(l, Contents(Run(d, RunOps(l, n, txns)[..k])));
  }

  lemma CleanIsSound(l: Layout, d: Disk)
    requires ValidLayout(l, |d.durable|) && Clean(l, d)
    ensures Sound(l, Contents(d))
  {
    hide ValidLayout, Slot, Holds;
  }

  /** The same holds of every crash point of the replay that follows, and a replay that runs
      to its end clears the journal. */
  lemma InOrderReplayNeverRefused(l: Layout, img: Image, k: nat)
    requires ValidLayout(l, |img|) && Sound(l, img) && k <= |ReplayOf(l, img).ops|
    ensures var cut := Contents(Run(Disk(img, []), ReplayOf(l, img).ops[..k]));
            Sound(l, cut) && ReplayOf(l, cut).rc == 0
    ensures Clean(l, Run(Disk(img, []), ReplayOf(l, img).ops))
  {
    hide ValidLayout, Slot, Storage, Run, Holds, ReplayOf, Apply, InstallOps, ClearOps, Commits;
    var zero := Zeros(SECTOR_SIZE);
    var h := img[Slot(l, |img|, 0)];
    var ops := ReplayOf(l, img).ops;
    if h == zero {
      ZeroHeaderDoesNotCommit();
      ReplayOfClear(l, img);
      assert ops[..k] == [];
      RunNothing(Disk(img, []));
      ApplyNothing(img);
    } else {
      var recs :| ValidRecords(l, recs) && (Holds(l, img, PREPARED, recs) || Holds(l, img, COMMITTED, recs));
      RecordCount(l, recs);
      if Holds(l, img, PREPARED, recs) {
        ReplayOfPrepared(l, img, recs);
        ClearRun(l, img);
        ClearLength(l, |img|);
        ApplyNothing(img);
        ApplyOne(img, Write(Slot(l, |img|, 0), zero));
        ApplyNothing(img[Slot(l, |img|, 0) := zero]);
      } else {
        ReplayOfCommitted(l, img, recs);
        InstallIsSound(l, img, recs, k);
        CommittedIsInFlight(l, img, recs);
        InstallDone(l, img, img, recs);
      }
    }
    SoundIsAccepted(l, Contents(Run(Disk(img, []), ops[..k])));
  }

  lemma ReplayOfClear(l: Layout, img: Image)
    requires ValidLayout(l, |img|) && img[Slot(l, |img|, 0)] == Zeros(SECTOR_SIZE)
    ensures ReplayOf(l, img) == Replay([], 0)
  {
    hide ValidLayout, Slot, HeaderAccepted, StoredDescriptors, Checksum, InstallOps, AcceptedRecords;
  }

  lemma CommittedIsInFlight(l: Layout, img: Image, recs: seq<Record>)
    requires ValidLayout(l, |img|) && |recs| <= RECORDS && Holds(l, img, COMMITTED, recs)
    ensures InFlight(l, img, img, recs)
  {
    hide ValidLayout, Slot, Holds, Installed;
  }
}
