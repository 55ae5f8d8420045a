/** The journal code in use: transactions and restarts of the server, in any order, against the
    ledger of what the user was promised. A power cut inside a commit or a replay is an operation
    that fails, followed by a restart. */
module JournalSessions {
  import opened Common
  import opened Bytes
  import opened Disk
  import opened JournalLayout
  import opened JournalProtocol
  import opened JournalCrash
  import opened JournalRecovery
  import opened JournalRuns
  import opened J = Journal

  ghost function ServerOf(j: J.Journal): Server
    reads j
  {
    Server(j.disk, j.faulted || !j.ready)
  }

  /** Between transactions, and true to the ledger. */
  ghost predicate Keeps(j: J.Journal, a: Ledger)
    reads j
  {
    j.Valid() && !j.active && Agrees(j.l, ServerOf(j), a)
  }

  predicate OnVolume(l: Layout, ws: seq<Write>) {
    l.blocksCount * l.spb <= LIMIT64 && forall i :: 0 <= i < |ws| ==> ws[i].sector < l.blocksCount * l.spb
  }

  // ---- One transaction -----------------------------------------------------------------------

  lemma {:induction false} SameHomeApply(l: Layout, a: Image, b: Image, ws: seq<Write>)
    requires SameHome(l, a, b)
    ensures SameHome(l, Apply(a, ws), Apply(b, ws))
  {
    hide Storage;
    if ws != [] {
      var front, last := ws[..|ws| - 1], ws[|ws| - 1];
      SameHomeApply(l, a, b, front);
      assert ws == front + [last];
      ApplyAppend(a, front, last);
      ApplyAppend(b, front, last);
    }
  }

  /** A settled disk reads as the ledger says. */
  lemma SettledReads(l: Layout, d: Disk, base: Image)
    requires ValidLayout(l, |d.durable|) && Settled(l, d, base)
    ensures SameHome(l, Contents(d), base)
  {
    hide ValidLayout, Slot, Storage, Apply, Commits;
    forall s | 0 <= s < |d.durable| && !Storage(l, s) ensures Contents(d)[s] == d.durable[s] {
      ApplyUntouched(d.durable, d.pending, s);
    }
  }

  /** The records of a transaction mean its writes, on the ledger's image as on the disk. */
  lemma RecordsMeanWrites(l: Layout, d: Disk, base: Image, recs: seq<Record>, ws: seq<Write>)
    requires ValidLayout(l, |d.durable|) && Settled(l, d, base) && TableOk(l, recs)
    requires Installed(Contents(d), recs) == Apply(Contents(d), ws)
    ensures SameHome(l, Installed(base, recs), Apply(base, ws))
  {
    SettledReads(l, d, base);
    hide ValidLayout, Settled, TableOk, Installed, Contents, Apply;
    SameHomeInstalled(l, Contents(d), base, recs);
    SameHomeApply(l, Contents(d), base, ws);
    SameHomeThrough(l, Installed(Contents(d), recs), Installed(base, recs), Apply(base, ws));
  }

  lemma SameHomeThrough(l: Layout, a: Image, b: Image, c: Image)
    requires SameHome(l, a, b) && SameHome(l, a, c)
    ensures SameHome(l, b, c)
  {
    hide Storage;
  }

  lemma FailsLength(d: Disk, ops: seq<Op>, at: nat, after: Disk)
    requires at < |ops| && FailedAt(d, ops, at, after)
    ensures |after.durable| == |d.durable|
  {
  }

  function SectorsIn(ws: seq<Write>): set<nat> { set i | 0 <= i < |ws| :: ws[i].sector }

  /** The table takes these writes: none is to a sector of the journal, and the sectors they name are
      not too many. */
  predicate Takes(l: Layout, ws: seq<Write>) {
    (forall i :: 0 <= i < |ws| ==> !Storage(l, ws[i].sector)) && |SectorsIn(ws)| <= RECORDS
  }

  lemma SectorsStep(ws: seq<Write>, k: nat)
    requires k < |ws|
    ensures SectorsIn(ws[..k + 1]) == SectorsIn(ws[..k]) + {ws[k].sector} && |SectorsIn(ws[..k + 1])| <= |SectorsIn(ws)|
  {
    var a, b := ws[..k], ws[..k + 1];
    forall x | x in SectorsIn(b) ensures x in SectorsIn(ws) && x in SectorsIn(a) + {ws[k].sector} {
      var i :| 0 <= i < |b| && b[i].sector == x;
      assert ws[i].sector == x && (i < k ==> a[i].sector == x);
    }
    forall x | x in SectorsIn(a) ensures x in SectorsIn(b) {
      var i :| 0 <= i < |a| && a[i].sector == x;
      assert b[i].sector == x;
    }
    assert b[k].sector in SectorsIn(b);
    SmallerSet(SectorsIn(b), SectorsIn(ws));
  }

  lemma SmallerSet(a: set<nat>, b: set<nat>)
    requires a <= b
    ensures |a| <= |b|
  {
    assert b == a + (b - a);
  }

  /** A table has as many records as they name sectors. */
  lemma {:induction false} CountSectors(l: Layout, recs: seq<Record>)
    requires TableOk(l, recs)
    ensures |SectorsOf(recs)| == |recs|
  {
    hide Storage;
    if recs != [] {
      var front, last := recs[..|recs| - 1], recs[|recs| - 1];
      CountSectors(l, front);
      assert recs == front + [last];
      SectorsAppend(front, last);
      assert last.sector !in SectorsOf(front);
    }
  }

  /** Fills the table with the writes of a transaction, up to the first that is refused. */
  method WriteAll(j: J.Journal, ws: seq<Write>) returns (ok: bool)
    requires j.Valid() && j.active && j.records == [] && OnVolume(j.l, ws)
    modifies j`records
    ensures j.Valid() && j.active
    ensures ok <==> Takes(j.l, ws)
    ensures ok ==> Installed(Contents(j.disk), j.records) == Apply(Contents(j.disk), ws)
    ensures ValidRecords(j.l, j.records)
  {
    hide Apply, Contents, ValidLayout, Storage, Takes, SectorsIn, SectorsOf, ValidRecords;
    ghost var img := Contents(j.disk);
    NoSectors();
    NothingInstalled(img);
    ApplyNothing(img);
    for k := 0 to |ws|
      invariant j.Valid() && j.active && j.View() == Apply(img, ws[..k])
      invariant SectorsOf(j.records) == SectorsIn(ws[..k])
      invariant forall i :: 0 <= i < k ==> !Storage(j.l, ws[i].sector)
    {
      assert ws[..k + 1] == ws[..k] + [ws[k]];
      ApplyAppend(img, ws[..k], ws[k]);
      SectorsStep(ws, k);
      TableOnVolume(j.l, j.records, ws, k);
      if Refuses(j.l, j.records, ws[k].sector) {
        FullTable(j.l, j.records, ws, k);
      }
      var rc := j.MetadataWriteSector(ws[k].sector, ws[k].data);
      if rc != 0 {
        return false;
      }
    }
    assert ws[..|ws|] == ws;
    TableTakes(j.l, j.records, ws);
    TableOnVolume(j.l, j.records, ws, |ws|);
    ok := true;
  }

  lemma TableOnVolume(l: Layout, recs: seq<Record>, ws: seq<Write>, k: nat)
    requires TableOk(l, recs) && k <= |ws| && SectorsOf(recs) == SectorsIn(ws[..k]) && OnVolume(l, ws)
    ensures ValidRecords(l, recs)
  {
    hide Storage;
    forall i | 0 <= i < |recs| ensures recs[i].sector < l.blocksCount * l.spb {
      assert recs[i].sector in SectorsOf(recs);
      var j :| 0 <= j < k && ws[..k][j].sector == recs[i].sector;
      assert ws[..k][j] == ws[j];
    }
  }

  /** A write that is refused is one the table cannot take, whatever follows it. */
  lemma TableTakes(l: Layout, recs: seq<Record>, ws: seq<Write>)
    requires TableOk(l, recs) && SectorsOf(recs) == SectorsIn(ws)
    requires forall i :: 0 <= i < |ws| ==> !Storage(l, ws[i].sector)
    ensures Takes(l, ws)
  {
    hide Storage;
    CountSectors(l, recs);
  }

  lemma NoSectors()
    ensures SectorsOf([]) == SectorsIn([])
  {
  }

  lemma FullTable(l: Layout, recs: seq<Record>, ws: seq<Write>, k: nat)
    requires TableOk(l, recs) && k < |ws| && SectorsOf(recs) == SectorsIn(ws[..k]) && Refuses(l, recs, ws[k].sector)
    ensures !Takes(l, ws)
  {
    hide Storage;
    SectorsStep(ws, k);
    CountSectors(l, recs);
    if !Storage(l, ws[k].sector) {
      assert ws[k].sector !in SectorsOf(recs);
    }
  }

  /** What a commit did, as an event of the ledger's runs. */
  lemma CommitEvent(l: Layout, d: Disk, recs: seq<Record>, q: nat, after: Disk, rc: int, faulted: bool)
    returns (e: Event)
    requires ValidLayout(l, |d.durable|) && ValidRecords(l, recs)
    requires if rc == 0 then !faulted && after == Run(d, CommitOps(l, |d.durable|, recs, q))
             else CommitFailed(l, d, recs, q, after, faulted)
    ensures Enabled(l, Server(d, false), e) && After(l, Server(d, false), e) == Server(after, faulted)
    ensures if rc == 0 then e == Committed(recs, q) else e.Failed? && e.recs == recs && (faulted <==> e.at > |recs| + 3)
  {
    hide ValidLayout, ValidRecords, CommitOps, Run, Fails;
    RecordCount(l, recs);
    if rc == 0 {
      e := Committed(recs, q);
    } else {
      var at: nat :| at < 2 * |recs| + 9 && FailedAt(d, CommitOps(l, |d.durable|, recs, q), at, after)
                     && (faulted <==> at > |recs| + 3);
      FailsLength(d, CommitOps(l, |d.durable|, recs, q), at, after);
      e := Failed(recs, q, at, after);
    }
  }

  lemma OneEvent(l: Layout, s: Server, e: Event, a: Ledger) returns (b: Ledger)
    requires Agrees(l, s, a) && Enabled(l, s, e)
    ensures Agrees(l, After(l, s, e), b) && LedgerStep(a, e, b)
    ensures RunsTo(l, s, [e], After(l, s, e)) && LedgerRunsTo(a, [e], b)
  {
    hide Agrees, Enabled, After, LedgerStep;
    b := EventAgrees(l, s, a, e);
    assert [e][1..] == [];
    assert LedgerRunsTo(b, [], b);
  }

  /** A transaction: acknowledged, its writes are in the ledger; not acknowledged, the ledger is
      as before, and at most its writes are in doubt. */
  method Update(j: J.Journal, ws: seq<Write>, ghost a: Ledger) returns (rc: int, ghost es: seq<Event>, ghost b: Ledger)
    requires Keeps(j, a) && OnVolume(j.l, ws)
    modifies j
    ensures Keeps(j, b) && RunsTo(j.l, old(ServerOf(j)), es, ServerOf(j)) && LedgerRunsTo(a, es, b)
    ensures rc == 0 ==> b.doubtful == [] && SameHome(j.l, b.base, Apply(a.base, ws))
    ensures j.errors >= old(j.errors)
    ensures j.errors == old(j.errors) ==> (rc == 0 <==> !old(ServerOf(j)).faulted && Takes(j.l, ws))
    ensures rc != 0 ==> b.base == a.base
    ensures rc != 0 && b != a ==> a.doubtful == [] && SameHome(j.l, Installed(a.base, Doubt(b)), Apply(a.base, ws))
  {
    hide Agrees, Enabled, After, ValidLayout, ValidRecords, TableOk, CommitOps, Run, Installed, SameHome, Apply,
      Contents, CommitFailed;
    es, b := [], a;
    assert LedgerRunsTo(a, [], a);
    rc := j.Begin();
    if rc != 0 {
      return;
    }
    ghost var d := j.disk;
    Unfaulted(j.l, d, a);
    var ok := WriteAll(j, ws);
    if !ok {
      j.Abort();
      return -1, es, b;
    }
    ghost var recs, q := j.records, j.sequence + 1;
    RecordsMeanWrites(j.l, d, a.base, recs, ws);
    rc := j.Commit();
    if recs == [] {
      NothingInstalled(a.base);
    } else {
      var e := CommitEvent(j.l, d, recs, q, j.disk, rc, j.faulted);
      b := OneEvent(j.l, Server(d, false), e, a);
      es := [e];
    }
  }

  lemma Unfaulted(l: Layout, d: Disk, a: Ledger)
    requires Agrees(l, Server(d, false), a)
    ensures ValidLayout(l, |d.durable|) && Settled(l, d, a.base) && a.doubtful == []
  {
  }

  // ---- Restarts ------------------------------------------------------------------------------

  /** The start of the server: the journal is replayed and the superblock read. On a device that
      reports no error it succeeds exactly when the replay accepts the journal, which it does when
      that is clear or holds a whole transaction. */
  method Start(j: J.Journal) returns (rc: int)
    requires j.Valid() && j.disk.pending == []
    modifies j
    ensures rc == 0 || rc == -1
    ensures Replayed(j.l, old(j.disk).durable, j.disk, rc)
    ensures j.ready == (rc == 0) && !j.active && !j.faulted && j.records == []
    ensures |j.sb| == |j.snapshot| == 1024 && |j.disk.durable| == old(|j.disk.durable|)
    ensures j.errors >= old(j.errors)
    ensures j.errors == old(j.errors) ==> rc == ReplayOf(j.l, old(j.disk).durable).rc
    ensures j.errors == old(j.errors) && Sound(j.l, old(j.disk).durable) ==> rc == 0
  {
    hide ValidLayout, Run, Replayed, ReplayOf, Sound;
    ghost var img := j.disk.durable;
    j.records, j.active, j.faulted, j.sequence := [], false, false, 0;
    if Sound(j.l, img) {
      SoundIsAccepted(j.l, img);
    }
    rc := j.ReplayJournal();
    ReplayedLength(j.l, img, j.disk, rc);
    if rc == 0 {
      var sb;
      rc, sb := j.DeviceReadMany(2, 2);
      if rc == 0 {
        var first: seq<Byte> := sb[0];
        j.sb := first + sb[1];
      }
      StillReplayed(j.l, img, j.disk);
    }
    j.ready := rc == 0;
  }

  /** Power is lost, which leaves any image it can, and the server starts again. A start that fails
      leaves the server without a journal and the ledger as it was; one that ends well decides the
      transaction in doubt. */
  method Restart(j: J.Journal, ghost a: Ledger)
    returns (rc: int, ghost es: seq<Event>, ghost b: Ledger, ghost img: Image)
    requires Keeps(j, a)
    modifies j
    ensures Keeps(j, b) && RunsTo(j.l, old(ServerOf(j)), es, ServerOf(j)) && LedgerRunsTo(a, es, b)
    ensures rc == 0 ==>
              j.ready && !j.faulted && b.doubtful == [] && (b.base == a.base || b.base == Installed(a.base, Doubt(a)))
    ensures rc != 0 ==> !j.ready && b == a
    ensures CrashImage(old(j.disk), img) && ValidLayout(j.l, |img|)
    ensures j.errors == old(j.errors) && Sound(j.l, img) ==> rc == 0
  {
    hide Agrees, ValidLayout, Run, Replayed, ReplayOf, Installed, Sound, Slot;
    var left: Image := *;
    if !CrashImage(j.disk, left) {
      left := j.disk.durable;
    }
    img := left;
    ghost var s := ServerOf(j);
    j.disk := Disk(left, []);
    rc := Start(j);
    EmptyTableOk(j.l);
    ghost var e := RestartEvent(j.l, s, img, j.disk, rc);
    b := OneEvent(j.l, s, e, a);
    es := [e];
    AgreesValid(j.l, ServerOf(j), b);
  }

  /** To do all of a replay and report an error is one way to fail. */
  lemma StillReplayed(l: Layout, img: Image, after: Disk)
    requires ValidLayout(l, |img|) && Replayed(l, img, after, 0)
    ensures Replayed(l, img, after, -1)
  {
    hide ValidLayout, ReplayOf, Run, FailedAt;
    var ops := ReplayOf(l, img).ops;
    assert ops[..|ops|] == ops;
  }

  lemma AgreesValid(l: Layout, s: Server, a: Ledger)
    requires Agrees(l, s, a)
    ensures ValidLayout(l, |s.disk.durable|)
  {
  }

  /** What a restart did, as an event of the ledger's runs. */
  lemma RestartEvent(l: Layout, s: Server, img: Image, after: Disk, rc: int) returns (e: Event)
    requires ValidLayout(l, |s.disk.durable|) && CrashImage(s.disk, img)
    requires Replayed(l, img, after, rc) && (rc == 0 || rc == -1)
    ensures Enabled(l, s, e) && After(l, s, e) == Server(after, rc != 0)
    ensures if rc == 0 then e == Recovered([img]) else e == Refused(img, after)
  {
    hide ValidLayout, Run, ReplayOf, Fails;
    CrashLength(s.disk, img);
    ReplayedLength(l, img, after, rc);
    e := if rc == 0 then Recovered([img]) else Refused(img, after);
  }

  lemma ReplayedLength(l: Layout, img: Image, after: Disk, rc: int)
    requires ValidLayout(l, |img|) && Replayed(l, img, after, rc)
    ensures |after.durable| == |img|
  {
    hide ValidLayout, ReplayOf, Run, FailedAt;
    var d, ops := Disk(img, []), ReplayOf(l, img).ops;
    if rc != 0 {
      if at: nat :| at <= |ops| && after == Run(d, ops[..at]) {
      } else {
        var at: nat :| at < |ops| && FailedAt(d, ops, at, after);
        FailsLength(d, ops, at, after);
      }
    }
  }

  // ---- Sessions ------------------------------------------------------------------------------

  datatype Action = Transact(ws: seq<Write>) | PowerCut

  lemma {:induction false} RunsJoin(l: Layout, s: Server, es: seq<Event>, t: Server, fs: seq<Event>, u: Server)
    requires RunsTo(l, s, es, t) && RunsTo(l, t, fs, u)
    ensures RunsTo(l, s, es + fs, u)
    decreases |es|
  {
    hide Enabled, After;
    if es == [] {
      assert es + fs == fs;
    } else {
      RunsJoin(l, After(l, s, es[0]), es[1..], t, fs, u);
      assert (es + fs)[1..] == es[1..] + fs;
    }
  }

  lemma {:induction false} LedgersJoin(a: Ledger, es: seq<Event>, b: Ledger, fs: seq<Event>, c: Ledger)
    requires LedgerRunsTo(a, es, b) && LedgerRunsTo(b, fs, c)
    ensures LedgerRunsTo(a, es + fs, c)
    decreases |es|
  {
    hide LedgerStep;
    if es == [] {
      assert es + fs == fs;
    } else {
      var m :| LedgerStep(a, es[0], m) && LedgerRunsTo(m, es[1..], b);
      LedgersJoin(m, es[1..], b, fs, c);
      assert (es + fs)[1..] == es[1..] + fs;
      assert LedgerRunsTo(a, es + fs, c);
    }
  }

  /** Every session of the journal code, whatever the device does, is a run of the ledger. */
  method Session(j: J.Journal, actions: seq<Action>, ghost a: Ledger) returns (ghost es: seq<Event>, ghost b: Ledger)
    requires Keeps(j, a)
    requires forall i :: 0 <= i < |actions| && actions[i].Transact? ==> OnVolume(j.l, actions[i].ws)
    modifies j
    ensures Keeps(j, b) && RunsTo(j.l, old(ServerOf(j)), es, ServerOf(j)) && LedgerRunsTo(a, es, b)
  {
    hide Keeps, ServerOf, OnVolume, Enabled, After, LedgerStep, LedgerRunsTo, RunsTo;
    es, b := [], a;
    NoEvents(j.l, ServerOf(j), a);
    for i := 0 to |actions|
      invariant Keeps(j, b) && RunsTo(j.l, old(ServerOf(j)), es, ServerOf(j)) && LedgerRunsTo(a, es, b)
    {
      ghost var s, fs, c := ServerOf(j), [], b;
      var rc;
      match actions[i] {
        case Transact(ws) => rc, fs, c := Update(j, ws, b);
        case PowerCut =>
          ghost var img;
          rc, fs, c, img := Restart(j, b);
      }
      RunsJoin(j.l, old(ServerOf(j)), es, s, fs, ServerOf(j));
      LedgersJoin(a, es, b, fs, c);
      es, b := es + fs, c;
    }
  }

  lemma NoEvents(l: Layout, s: Server, a: Ledger)
    ensures RunsTo(l, s, [], s) && LedgerRunsTo(a, [], a)
  {
  }
}
