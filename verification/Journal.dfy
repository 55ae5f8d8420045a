/** The journal server code itself: the record table that overlays metadata reads, and the
    commit and replay procedures as they drive a device that may fail at any operation. */
module Journal {
  import opened Common
  import opened Bytes
  import opened Disk
  import opened JournalLayout
  import opened JournalProtocol
  import opened JournalCrash
  import opened JournalRecovery
  import opened JournalRuns
  import opened JournalIntegrity

  /** `ops` run to the end, or stopped by an error at some operation. */
  ghost predicate Performed(d: Disk, ops: seq<Op>, after: Disk, rc: int) {
    if rc == 0 then after == Run(d, ops)
    else exists at: nat :: at < |ops| && FailedAt(d, ops, at, after)
  }

  /** journal_commit stopped by an error: the journal is faulted exactly when the error came
      after the first flush. */
  ghost predicate CommitFailed(l: Layout, d: Disk, recs: seq<Record>, q: nat, after: Disk, faulted: bool)
    requires ValidLayout(l, |d.durable|) && |recs| <= RECORDS
  {
    exists at: nat :: at < 2 * |recs| + 9 && FailedAt(d, CommitOps(l, |d.durable|, recs, q), at, after)
                      && (faulted <==> at > |recs| + 3)
  }

  lemma PerformedThen(d: Disk, a: seq<Op>, mid: Disk, b: seq<Op>, after: Disk, rc: int)
    requires Performed(d, a, mid, 0) && Performed(mid, b, after, rc)
    ensures Performed(d, a + b, after, rc)
    ensures rc != 0 ==> exists at: nat :: |a| <= at < |a + b| && FailedAt(d, a + b, at, after)
  {
    hide Run, Fails;
    RunConcat(d, a, b);
    if rc != 0 {
      var at: nat :| at < |b| && FailedAt(mid, b, at, after);
      assert (a + b)[..|a| + at] == a + b[..at];
      RunConcat(d, a, b[..at]);
      assert FailedAt(d, a + b, |a| + at, after);
    }
  }

  lemma PerformedShort(d: Disk, a: seq<Op>, b: seq<Op>, after: Disk, rc: int)
    requires rc != 0 && Performed(d, a, after, rc)
    ensures exists at: nat :: at < |a| && at < |a + b| && FailedAt(d, a + b, at, after)
  {
    hide Run, Fails;
    var at: nat :| at < |a| && FailedAt(d, a, at, after);
    assert (a + b)[..at] == a[..at];
    assert FailedAt(d, a + b, at, after);
  }

  lemma PerformedOne(d: Disk, op: Op, after: Disk, rc: int)
    requires if rc == 0 then after == Step(d, op) else Fails(d, op, after)
    ensures Performed(d, [op], after, rc)
  {
    hide Fails, Step;
    assert [op][..0] == [];
    RunNothing(d);
    if rc == 0 {
      RunSnoc(d, [], op);
      assert [] + [op] == [op];
    } else {
      assert FailedAt(d, [op], 0, after);
    }
  }

  lemma PerformedNone(d: Disk)
    ensures Performed(d, [], d, 0)
  {
  }

  /** The loop of journal_checksum. */
  method ComputeChecksum(data: seq<Byte>) returns (value: nat)
    ensures value == Checksum(data)
  {
    value := 2166136261;
    for i := 0 to |data|
      invariant value == Checksum(data[..i])
    {
      assert data[..i + 1][..i] == data[..i];
      value := Xor(value, data[i]) * 16777619 % LIMIT32;
    }
    assert data[..|data|] == data;
  }

  /** The loop of journal_storage_sector. */
  method IsStorage(l: Layout, sector: nat) returns (found: bool)
    requires l.spb > 0
    ensures found <==> Storage(l, sector)
  {
    var block := (sector / l.spb) % LIMIT32;
    for i := 0 to |l.blocks|
      invariant block !in l.blocks[..i]
    {
      if l.blocks[i] == block {
        return true;
      }
    }
    assert l.blocks[..|l.blocks|] == l.blocks;
    return false;
  }

  /** The descriptor table as journal_write_descriptors fills it in. */
  method BuildDescriptors(recs: seq<Record>) returns (d: seq<Byte>)
    requires |recs| <= RECORDS
    ensures d == Descriptors(recs)
  {
    hide Bytes.U32Set, Bytes.U64Set, Checksum;
    d := Zeros(2 * SECTOR_SIZE);
    for i := 0 to |recs|
      invariant d == Descriptors(recs[..i])
    {
      assert recs[..i + 1][..i] == recs[..i];
      var sum := ComputeChecksum(recs[i].data);
      d := U32Set(U64Set(d, 16 * i, recs[i].sector), 16 * i + 8, sum);
    }
    assert recs[..|recs|] == recs;
  }

  /** The table invariant: no sector twice, none of the journal's own. */
  predicate TableOk(l: Layout, recs: seq<Record>) {
    && |recs| <= RECORDS
    && (forall i :: 0 <= i < |recs| ==> !Storage(l, recs[i].sector))
    && (forall i, j :: 0 <= i < j < |recs| ==> recs[i].sector != recs[j].sector)
  }

  function SectorsOf(recs: seq<Record>): set<nat> { set i | 0 <= i < |recs| :: recs[i].sector }

  lemma SectorsAppend(recs: seq<Record>, r: Record)
    ensures SectorsOf(recs + [r]) == SectorsOf(recs) + {r.sector}
  {
    var all := recs + [r];
    assert all[|recs|] == r && forall i :: 0 <= i < |recs| ==> all[i] == recs[i];
    forall x | x in SectorsOf(recs) ensures x in SectorsOf(all) {
      var i :| 0 <= i < |recs| && recs[i].sector == x;
      assert all[i].sector == x;
    }
    assert r.sector in SectorsOf(all);
  }

  lemma SectorsReplace(recs: seq<Record>, i: nat, data: Sector)
    requires i < |recs|
    ensures SectorsOf(recs[i := recs[i].(data := data)]) == SectorsOf(recs) + {recs[i].sector}
  {
    var all := recs[i := recs[i].(data := data)];
    assert forall j :: 0 <= j < |recs| ==> all[j].sector == recs[j].sector;
    assert recs[i].sector in SectorsOf(recs);
    forall x | x in SectorsOf(recs) ensures x in SectorsOf(all) {
      var j :| 0 <= j < |recs| && recs[j].sector == x;
      assert all[j].sector == x;
    }
  }

  /** The table takes no write to this sector: it is one of the journal's own, or there is no room
      for it. */
  predicate Refuses(l: Layout, recs: seq<Record>, target: nat) {
    Storage(l, target) || (|recs| == RECORDS && forall i :: 0 <= i < RECORDS ==> recs[i].sector != target)
  }

  lemma EmptyTableOk(l: Layout)
    ensures TableOk(l, [])
  {
  }

  class Journal {
    const l: Layout
    var disk: Disk
    var ready: bool
    var active: bool
    var faulted: bool
    var records: seq<Record>
    var sequence: nat
    var sb: seq<Byte>
    var snapshot: seq<Byte>
    /** How often the device reported an error. */
    ghost var errors: nat

    ghost predicate Valid()
      reads this
    {
      && ValidLayout(l, |disk.durable|)
      && |sb| == 1024 && |snapshot| == 1024
      && TableOk(l, records)
      && (active ==> ready && !faulted)
    }

    /** What metadata reads see: the disk under the records of the open transaction. */
    ghost function View(): (img: Image)
      reads this
    {
      if active then Installed(Contents(disk), records) else Contents(disk)
    }

    constructor (l: Layout, disk: Disk, sb: seq<Byte>)
      requires ValidLayout(l, |disk.durable|) && |sb| == 1024
      ensures Valid() && this.l == l && this.disk == disk && this.sb == sb
      ensures !ready && !active && !faulted && records == []
    {
      this.l := l;
      this.disk := disk;
      this.sb := sb;
      snapshot := Zeros(1024);
      ready, active, faulted := false, false, false;
      records, sequence := [], 0;
      errors := 0;
    }

    // ---- The device ---------------------------------------------------------------------

    /** The device does as it is told, or reports an error and counts it. */
    method DeviceRead(sector: nat) returns (rc: int, data: Sector)
      modifies this`errors
      ensures rc == 0 || rc == -1
      ensures errors == old(errors) + if rc == 0 then 0 else 1
      ensures rc == 0 ==> sector < |disk.durable| && data == Contents(disk)[sector]
    {
      data := Zeros(SECTOR_SIZE);
      var fails: bool := *;
      if fails || sector >= |disk.durable| {
        errors := errors + 1;
        return -1, data;
      }
      return 0, Contents(disk)[sector];
    }

    method DeviceWrite(sector: nat, data: Sector) returns (rc: int)
      modifies this`disk, this`errors
      ensures rc == 0 || rc == -1
      ensures errors == old(errors) + if rc == 0 then 0 else 1
      ensures Performed(old(disk), [Put(Write(sector, data))], disk, rc)
      ensures |disk.durable| == |old(disk).durable|
    {
      var op := Put(Write(sector, data));
      var reached: bool := *;
      if reached && sector < |disk.durable| {
        disk := Step(disk, op);
      }
      var fails: bool := *;
      rc := if fails || !reached || sector >= |disk.durable| then -1 else 0;
      if rc != 0 {
        errors := errors + 1;
      }
      PerformedOne(old(disk), op, disk, rc);
    }

    method DeviceFlush() returns (rc: int)
      modifies this`disk, this`errors
      ensures rc == 0 || rc == -1
      ensures errors == old(errors) + if rc == 0 then 0 else 1
      ensures Performed(old(disk), [Flush], disk, rc)
      ensures |disk.durable| == |old(disk).durable|
    {
      var fails: bool := *;
      if fails {
        var persisted: Image := *;
        if CrashImage(disk, persisted) {
          disk := disk.(durable := persisted);
        }
        errors := errors + 1;
        rc := -1;
      } else {
        disk := Step(disk, Flush);
        rc := 0;
      }
      PerformedOne(old(disk), Flush, disk, rc);
    }

    // ---- Transactions ----------------------------------------------------------------------

    method Begin() returns (rc: int)
      requires Valid()
      modifies this
      ensures Valid() && disk == old(disk) && sb == old(sb) && ready == old(ready) && faulted == old(faulted)
      ensures errors == old(errors)
      ensures rc == 0 <==> old(ready && !active && !faulted)
      ensures rc == 0 ==> active && records == [] && snapshot == sb && View() == Contents(disk)
      ensures rc != 0 ==> active == old(active) && records == old(records) && snapshot == old(snapshot)
    {
      if !ready || active || faulted {
        return -1;
      }
      snapshot := sb;
      records := [];
      active := true;
      ApplyNothing(Contents(disk));
      assert HomeWrites([]) == [];
      return 0;
    }

    /** Abort leaves the disk untouched and the superblock as it was at begin. */
    method Abort()
      requires Valid()
      modifies this`sb, this`records, this`active
      ensures Valid() && !active
      ensures old(active) ==> sb == snapshot && records == []
      ensures !old(active) ==> sb == old(sb) && records == old(records)
      ensures View() == Contents(disk)
    {
      if !active {
        return;
      }
      sb := snapshot;
      records := [];
      active := false;
    }

    /** blkdev_read of several sectors. */
    method DeviceReadMany(sector: nat, count: nat) returns (rc: int, out: seq<Sector>)
      modifies this`errors
      ensures rc == 0 || rc == -1
      ensures errors >= old(errors) && (rc == 0 <==> errors == old(errors))
      ensures rc == 0 ==> sector + count <= |disk.durable| && out == Contents(disk)[sector..sector + count]
    {
      hide Contents;
      out := [];
      if sector + count > |disk.durable| {
        errors := errors + 1;
        return -1, [];
      }
      var data: Sector;
      for s := 0 to count
        invariant errors == old(errors)
        invariant out == Contents(disk)[sector..sector + s]
      {
        rc, data := DeviceRead(sector + s);
        if rc != 0 {
          return -1, [];
        }
        out := out + [data];
      }
      return 0, out;
    }

    /** A metadata read agrees with the view, sector by sector. */
    method MetadataRead(sector: nat, count: nat) returns (rc: int, out: seq<Sector>)
      requires Valid()
      modifies this`errors
      ensures rc == 0 || rc == -1
      ensures errors >= old(errors) && (rc == 0 <==> errors == old(errors))
      ensures rc == 0 ==> sector + count <= |disk.durable| && out == View()[sector..sector + count]
    {
      hide Contents, Apply, TableOk, ValidLayout;
      rc, out := DeviceReadMany(sector, count);
      if rc != 0 || !active {
        return;
      }
      ghost var img := Contents(disk);
      ghost var ws := HomeWrites(records);
      ApplyNothing(img);
      for i := 0 to |records|
        invariant out == Apply(img, ws[..i])[sector..sector + count]
        invariant errors == old(errors)
      {
        assert ws[..i + 1] == ws[..i] + [ws[i]];
        ApplyAppend(img, ws[..i], ws[i]);
        if sector <= records[i].sector < sector + count {
          out := out[records[i].sector - sector := records[i].data];
        }
      }
      assert ws[..|records|] == ws;
    }

    /** A metadata write inside a transaction updates the view and nothing else; the disk is
        not touched. It is refused for the journal's own sectors and when the table is full. */
    method MetadataWriteSector(target: U64, data: Sector) returns (rc: int)
      requires Valid() && active
      modifies this`records
      ensures Valid()
      ensures rc == 0 || rc == -1
      ensures rc != 0 ==> records == old(records)
      ensures rc != 0 <==> Refuses(l, old(records), target)
      ensures rc == 0 && target < |disk.durable| ==> View() == old(View())[target := data]
      ensures rc == 0 && target >= |disk.durable| ==> View() == old(View())
      ensures rc == 0 ==> SectorsOf(records) == SectorsOf(old(records)) + {target as nat}
    {
      var storage := IsStorage(l, target);
      if storage {
        return -1;
      }
      var i := 0;
      while i < |records| && records[i].sector != target
        invariant i <= |records|
        invariant forall j :: 0 <= j < i ==> records[j].sector != target
      {
        i := i + 1;
      }
      if i == |records| {
        if |records| == RECORDS {
          return -1;
        }
        records := records + [Record(target, data)];
        AppendUpdatesView(Contents(disk), old(records), Record(target, data));
        SectorsAppend(old(records), Record(target, data));
      } else {
        records := records[i := records[i].(data := data)];
        ReplaceUpdatesView(Contents(disk), old(records), i, data);
        SectorsReplace(old(records), i, data);
      }
      return 0;
    }

    /** journal_metadata_write: straight to the device outside a transaction; inside one,
        sector by sector into the table, stopping at the first refusal. */
    method MetadataWrite(sector: nat, data: seq<Sector>) returns (rc: int)
      requires Valid() && sector + |data| <= LIMIT64
      modifies this`records, this`disk, this`errors
      ensures Valid()
      ensures rc == 0 || rc == -1
      ensures !active ==> records == old(records) && Performed(old(disk), Puts(SectorWrites(sector, data)), disk, rc)
      ensures errors >= old(errors) && (!active ==> (rc == 0 <==> errors == old(errors)))
      ensures active ==> disk == old(disk) && errors == old(errors)
      ensures active ==> exists k: nat :: WroteUpTo(l, old(View()), View(), records, sector, data, k, rc)
    {
      hide WroteUpTo;
      if active {
        rc := TableWrite(sector, data);
      } else {
        rc := DeviceWriteMany(sector, data);
      }
    }

    /** The writes of a transaction go into the table, up to the first that it refuses. */
    method TableWrite(sector: nat, data: seq<Sector>) returns (rc: int)
      requires Valid() && active && sector + |data| <= LIMIT64
      modifies this`records
      ensures Valid()
      ensures rc == 0 || rc == -1
      ensures exists k: nat :: WroteUpTo(l, old(View()), View(), records, sector, data, k, rc)
    {
      hide Apply, TableOk, Contents, Storage;
      ApplyNothing(View());
      assert SectorWrites(sector, data[..0]) == [];
      for s := 0 to |data|
        invariant Valid() && View() == Apply(old(View()), SectorWrites(sector, data[..s]))
      {
        var ws := SectorWrites(sector, data[..s]);
        assert SectorWrites(sector, data[..s + 1]) == ws + [Write(sector + s, data[s])];
        ApplyAppend(old(View()), ws, Write(sector + s, data[s]));
        var r := MetadataWriteSector(sector + s, data[s]);
        if r != 0 {
          assert WroteUpTo(l, old(View()), View(), records, sector, data, s, -1);
          return -1;
        }
      }
      assert data[..|data|] == data;
      assert WroteUpTo(l, old(View()), View(), records, sector, data, |data|, 0);
      return 0;
    }

    /** blkdev_write of several sectors. */
    method DeviceWriteMany(sector: nat, data: seq<Sector>) returns (rc: int)
      requires ValidLayout(l, |disk.durable|)
      modifies this`disk, this`errors
      ensures rc == 0 || rc == -1
      ensures errors >= old(errors) && (rc == 0 <==> errors == old(errors))
      ensures Performed(old(disk), Puts(SectorWrites(sector, data)), disk, rc)
      ensures |disk.durable| == |old(disk).durable|
    {
      hide Performed, ValidLayout;
      ghost var ops := Puts(SectorWrites(sector, data));
      PerformedNone(disk);
      for i := 0 to |data|
        invariant |disk.durable| == |old(disk).durable| && errors == old(errors)
        invariant Performed(old(disk), ops[..i], disk, 0)
      {
        ghost var mid := disk;
        rc := DeviceWrite(sector + i, data[i]);
        assert ops[..i + 1] == ops[..i] + [ops[i]];
        PerformedThen(old(disk), ops[..i], mid, [ops[i]], disk, rc);
        if rc != 0 {
          assert ops == ops[..i + 1] + ops[i + 1..];
          FailsEarly(old(disk), ops[..i + 1], ops[i + 1..], disk, rc);
          return;
        }
      }
      assert ops[..|data|] == ops;
      return 0;
    }

    // ---- Commit ------------------------------------------------------------------------------

    method DiskWrite(slot: nat, data: Sector) returns (rc: int)
      requires ValidLayout(l, |disk.durable|) && slot < JOURNAL_SECTORS
      modifies this`disk, this`errors
      ensures rc == 0 || rc == -1
      ensures errors >= old(errors) && (rc == 0 <==> errors == old(errors))
      ensures Performed(old(disk), [Put(Write(Slot(l, |old(disk).durable|, slot), data))], disk, rc)
      ensures |disk.durable| == |old(disk).durable|
    {
      rc := DeviceWrite(Slot(l, |disk.durable|, slot), data);
    }

    method WriteDescriptors() returns (rc: int)
      requires Valid()
      modifies this`disk, this`errors
      ensures rc == 0 || rc == -1
      ensures errors >= old(errors) && (rc == 0 <==> errors == old(errors))
      ensures Performed(old(disk), Puts(DescriptorWrites(l, |old(disk).durable|, records)), disk, rc)
      ensures |disk.durable| == |old(disk).durable|
    {
      hide Performed, Descriptors, Slot, Storage, TableOk, Run;
      RecordsFit();
      ghost var n := |disk.durable|;
      var d := BuildDescriptors(records);
      ghost var ops := Puts(DescriptorWrites(l, n, records));
      ghost var a, b := [ops[0]], [ops[1]];
      assert ops == a + b;
      rc := DiskWrite(1, d[..SECTOR_SIZE]);
      ghost var mid := disk;
      if rc != 0 {
        FailsEarly(old(disk), a, b, mid, rc);
        return;
      }
      rc := DiskWrite(2, d[SECTOR_SIZE..]);
      PerformedThen(old(disk), a, mid, b, disk, rc);
    }

    lemma RecordsFit()
      requires Valid()
      ensures |records| <= RECORDS
    {
    }

    lemma FailsEarly(d: Disk, a: seq<Op>, b: seq<Op>, after: Disk, rc: int)
      requires rc != 0 && Performed(d, a, after, rc)
      ensures Performed(d, a + b, after, rc)
    {
      PerformedShort(d, a, b, after, rc);
    }

    method WritePayloads() returns (rc: int)
      requires Valid()
      modifies this`disk, this`errors
      ensures rc == 0 || rc == -1
      ensures errors >= old(errors) && (rc == 0 <==> errors == old(errors))
      ensures Performed(old(disk), Puts(PayloadWrites(l, |old(disk).durable|, records)), disk, rc)
      ensures |disk.durable| == |old(disk).durable|
    {
      hide Performed, Slot, Storage, Run, ValidLayout;
      RecordsFit();
      ghost var n := |disk.durable|;
      ghost var ops := Puts(PayloadWrites(l, n, records));
      PerformedNone(disk);
      rc := 0;
      for i := 0 to |records|
        invariant ValidLayout(l, |disk.durable|) && |disk.durable| == n && rc == 0 && errors == old(errors)
        invariant Performed(old(disk), ops[..i], disk, 0)
      {
        ghost var mid := disk;
        rc := DiskWrite(3 + i, records[i].data);
        assert ops[..i + 1] == ops[..i] + [ops[i]];
        PerformedThen(old(disk), ops[..i], mid, [ops[i]], disk, rc);
        if rc != 0 {
          assert ops == ops[..i + 1] + ops[i + 1..];
          FailsEarly(old(disk), ops[..i + 1], ops[i + 1..], disk, rc);
          return;
        }
      }
      assert ops[..|records|] == ops;
    }

    /** The header is built from the descriptors read back from the device. */
    method WriteHeader(state: nat) returns (rc: int)
      requires Valid() && (state == PREPARED || state == COMMITTED)
      requires StoredDescriptors(l, Contents(disk)) == Descriptors(records)
      modifies this`disk, this`errors
      ensures rc == 0 || rc == -1
      ensures errors >= old(errors) && (rc == 0 <==> errors == old(errors))
      ensures Performed(old(disk), [Put(HeaderWrite(l, |old(disk).durable|, state, records, sequence))], disk, rc)
      ensures |disk.durable| == |old(disk).durable|
    {
      hide Performed, Slot, Storage, Run, Descriptors, Header, BareHeader, Apply, Bytes.U32Set, TableOk;
      RecordsFit();
      ghost var op := Put(HeaderWrite(l, |disk.durable|, state, records, sequence));
      var first, second: Sector;
      rc, first := DeviceRead(Slot(l, |disk.durable|, 1));
      if rc != 0 {
        NothingHappened(disk, op);
        return;
      }
      rc, second := DeviceRead(Slot(l, |disk.durable|, 2));
      if rc != 0 {
        NothingHappened(disk, op);
        return;
      }
      var both: seq<Byte> := first;
      var descriptorSum := ComputeChecksum(both + second);
      var header := BareHeader(state, |records|, sequence, descriptorSum);
      var sum := ComputeChecksum(header);
      HeaderFromParts(state, |records|, sequence, descriptorSum);
      rc := DiskWrite(0, U32Set(header, 24, sum));
    }

    lemma HeaderFromParts(state: nat, count: nat, q: nat, descriptorSum: nat)
      requires state < LIMIT32 && count < LIMIT32 && descriptorSum < LIMIT32
      ensures var h := BareHeader(state, count, q, descriptorSum);
              Header(state, count, q, descriptorSum) == U32Set(h, 24, Checksum(h))
    {
      hide BareHeader, Bytes.U32Set;
    }

    lemma NothingHappened(d: Disk, op: Op)
      requires op.Put?
      ensures Performed(d, [op], d, -1)
    {
      PerformedOne(d, op, d, -1);
    }

    /** Descriptors and payloads read back while the first phase is under way. */
    lemma DescriptorsReadBack(d: Disk)
      requires Valid() && ValidLayout(l, |d.durable|)
      ensures var n := |d.durable|;
              var ws := DescriptorWrites(l, n, records) + PayloadWrites(l, n, records);
              StoredDescriptors(l, Contents(Run(d, Puts(ws)))) == Descriptors(records)
    {
      hide Slot, Storage, Run, Descriptors, Apply, TableOk, PrepareWrites, ValidLayout, HeaderWrite;
      RecordsFit();
      var n := |d.durable|;
      var ws := DescriptorWrites(l, n, records) + PayloadWrites(l, n, records);
      RunPuts(d, ws);
      var img := Apply(d.durable, d.pending + ws);
      forall i: nat | i < 2 ensures img[ws[i].sector] == ws[i].data {
        var all := d.pending + ws;
        var at := |d.pending| + i;
        assert all[at] == ws[i];
        forall j | at < j < |all| ensures all[j].sector != ws[i].sector {
          var k := j - |d.pending|;
          assert all[j] == ws[k];
          SlotsDistinct(l, n, i + 1, k + 1);
          if k >= 2 { assert ws[k] == PayloadWrites(l, n, records)[k - 2]; }
        }
        ApplyLast(d.durable, all, at);
      }
      assert ws[0] == DescriptorWrites(l, n, records)[0] && ws[1] == DescriptorWrites(l, n, records)[1];
      var table := Descriptors(records);
      assert table == table[..SECTOR_SIZE] + table[SECTOR_SIZE..];
    }

    /** The first phase: descriptors, payloads, PREPARED header, flush. */
    method Prepare() returns (rc: int)
      requires Valid()
      modifies this`disk, this`errors
      ensures rc == 0 || rc == -1
      ensures errors >= old(errors) && (rc == 0 <==> errors == old(errors))
      ensures Performed(old(disk), PrepareOps(l, |old(disk).durable|, records, sequence), disk, rc)
      ensures |disk.durable| == |old(disk).durable|
    {
      hide Performed, Slot, Storage, Run, Descriptors, TableOk, HeaderWrite, DescriptorWrites, Apply,
        StoredDescriptors, ValidLayout;
      RecordsFit();
      ghost var n, d0 := |disk.durable|, disk;
      ghost var dw, pw := DescriptorWrites(l, n, records), PayloadWrites(l, n, records);
      ghost var hw := HeaderWrite(l, n, PREPARED, records, sequence);
      ghost var a, b, c := Puts(dw), Puts(pw), [Put(hw)];
      ghost var ops := PrepareOps(l, n, records, sequence);
      assert ops == a + (b + c + [Flush]) && ops == a + b + (c + [Flush]) && ops == a + b + c + [Flush];
      rc := WriteDescriptors();
      if rc != 0 {
        FailsEarly(d0, a, b + c + [Flush], disk, rc);
        return;
      }
      ghost var d1 := disk;
      rc := WritePayloads();
      PerformedThen(d0, a, d1, b, disk, rc);
      if rc != 0 {
        FailsEarly(d0, a + b, c + [Flush], disk, rc);
        return;
      }
      DescriptorsReadBack(d0);
      PutsConcat(dw, pw);
      PerformedMeans(d0, a + b, disk);
      ghost var d2 := disk;
      rc := WriteHeader(PREPARED);
      PerformedThen(d0, a + b, d2, c, disk, rc);
      if rc != 0 {
        FailsEarly(d0, a + b + c, [Flush], disk, rc);
        return;
      }
      ghost var d3 := disk;
      rc := DeviceFlush();
      PerformedThen(d0, a + b + c, d3, [Flush], disk, rc);
    }

    lemma PutsConcat(a: seq<Write>, b: seq<Write>)
      ensures Puts(a) + Puts(b) == Puts(a + b)
    {
    }

    lemma PerformedMeans(d: Disk, ops: seq<Op>, after: Disk)
      requires Performed(d, ops, after, 0)
      ensures after == Run(d, ops)
    {
    }

    /** After the first phase the journal on disk is the prepared transaction. */
    lemma PreparedDescriptors(d: Disk)
      requires Valid() && ValidLayout(l, |d.durable|)
      ensures var after := Run(d, PrepareOps(l, |d.durable|, records, sequence));
              StoredDescriptors(l, Contents(after)) == Descriptors(records)
    {
      hide Slot, Storage, Run, Descriptors, TableOk, Header;
      RecordsFit();
      PreparedHolds(l, d, records, sequence);
      ApplyNothing(Run(d, PrepareOps(l, |d.durable|, records, sequence)).durable);
    }

    method Decide() returns (rc: int)
      requires Valid() && StoredDescriptors(l, Contents(disk)) == Descriptors(records)
      modifies this`disk, this`errors
      ensures rc == 0 || rc == -1
      ensures errors >= old(errors) && (rc == 0 <==> errors == old(errors))
      ensures Performed(old(disk), DecideOps(l, |old(disk).durable|, records, sequence), disk, rc)
      ensures |disk.durable| == |old(disk).durable|
    {
      hide Performed, Slot, Storage, Run, Descriptors, TableOk, HeaderWrite, Apply, StoredDescriptors, ValidLayout;
      RecordsFit();
      ghost var d0 := disk;
      ghost var a := [Put(HeaderWrite(l, |disk.durable|, COMMITTED, records, sequence))];
      assert DecideOps(l, |disk.durable|, records, sequence) == a + [Flush];
      rc := WriteHeader(COMMITTED);
      if rc != 0 {
        FailsEarly(d0, a, [Flush], disk, rc);
        return;
      }
      ghost var d1 := disk;
      rc := DeviceFlush();
      PerformedThen(d0, a, d1, [Flush], disk, rc);
    }

    method Clear() returns (rc: int)
      requires ValidLayout(l, |disk.durable|)
      modifies this`disk, this`errors
      ensures rc == 0 || rc == -1
      ensures errors >= old(errors) && (rc == 0 <==> errors == old(errors))
      ensures Performed(old(disk), ClearOps(l, |old(disk).durable|), disk, rc)
      ensures |disk.durable| == |old(disk).durable|
    {
      hide Performed, Slot, Storage, Run, ValidLayout;
      ghost var d0 := disk;
      ghost var a := [Put(Write(Slot(l, |disk.durable|, 0), Zeros(SECTOR_SIZE)))];
      assert ClearOps(l, |disk.durable|) == a + [Flush];
      rc := DiskWrite(0, Zeros(SECTOR_SIZE));
      if rc != 0 {
        FailsEarly(d0, a, [Flush], disk, rc);
        return;
      }
      ghost var d1 := disk;
      rc := DeviceFlush();
      PerformedThen(d0, a, d1, [Flush], disk, rc);
    }

    method Install() returns (rc: int)
      requires Valid()
      modifies this`disk, this`errors
      ensures rc == 0 || rc == -1
      ensures errors >= old(errors) && (rc == 0 <==> errors == old(errors))
      ensures Performed(old(disk), InstallOps(l, |old(disk).durable|, records), disk, rc)
      ensures |disk.durable| == |old(disk).durable|
    {
      hide Performed, Slot, Storage, Run, ValidLayout, TableOk, ClearOps;
      ghost var d0, n := disk, |disk.durable|;
      ghost var a, c := Puts(HomeWrites(records)), ClearOps(l, n);
      ghost var ops := InstallOps(l, n, records);
      PerformedNone(disk);
      rc := 0;
      for i := 0 to |records|
        invariant ValidLayout(l, |disk.durable|) && |disk.durable| == n && rc == 0 && errors == old(errors)
        invariant Performed(d0, a[..i], disk, 0)
      {
        ghost var mid := disk;
        rc := DeviceWrite(records[i].sector, records[i].data);
        assert a[..i + 1] == a[..i] + [a[i]];
        PerformedThen(d0, a[..i], mid, [a[i]], disk, rc);
        if rc != 0 {
          assert ops == a[..i + 1] + (a[i + 1..] + [Flush] + c);
          FailsEarly(d0, a[..i + 1], a[i + 1..] + [Flush] + c, disk, rc);
          return;
        }
      }
      assert a[..|records|] == a && ops == a + ([Flush] + c) && ops == a + [Flush] + c;
      ghost var d1 := disk;
      rc := DeviceFlush();
      PerformedThen(d0, a, d1, [Flush], disk, rc);
      if rc != 0 {
        FailsEarly(d0, a + [Flush], c, disk, rc);
        return;
      }
      ghost var d2 := disk;
      rc := Clear();
      PerformedThen(d0, a + [Flush], d2, c, disk, rc);
    }

    /** journal_commit drives the device through CommitOps, and an error at operation `at`
        aborts the transaction up to the first flush and faults the journal after it. */
    method Commit() returns (rc: int)
      requires Valid()
      modifies this
      ensures Valid() && !active && ready == old(ready) && snapshot == old(snapshot)
      ensures rc == 0 || rc == -1
      ensures errors >= old(errors) && (old(active) ==> (rc == 0 <==> errors == old(errors)))
      ensures !old(active) ==> rc == -1 && disk == old(disk) && faulted == old(faulted) && sb == old(sb)
      ensures old(active) && old(records) == [] ==> rc == 0 && disk == old(disk) && !faulted && sb == old(sb)
      ensures old(active) && old(records) != [] && rc == 0 ==>
                && disk == Run(old(disk), CommitOps(l, |old(disk).durable|, old(records), old(sequence) + 1))
                && !faulted && records == [] && sb == old(sb)
      ensures rc == 0 ==> SameHome(l, Contents(disk), old(View()))
      ensures old(active) && old(records) != [] && rc != 0 ==>
                && CommitFailed(l, old(disk), old(records), old(sequence) + 1, disk, faulted)
                && (!faulted ==> sb == snapshot && records == [])
    {
      hide Performed, Slot, Storage, Run, TableOk, PrepareOps, DecideOps, InstallOps, Descriptors,
        StoredDescriptors, FailedAt, Apply, ValidLayout;
      if !active {
        return -1;
      }
      if records == [] {
        assert HomeWrites(records) == [];
        ApplyNothing(Contents(disk));
        active := false;
        return 0;
      }
      RecordsFit();
      sequence := sequence + 1;
      ghost var n, d0, q := |disk.durable|, disk, sequence;
      ghost var a, b, c := PrepareOps(l, n, records, q), DecideOps(l, n, records, q), InstallOps(l, n, records);
      ghost var ops := CommitOps(l, n, records, q);
      assert ops == a + (b + c) && ops == a + b + c;
      rc := Prepare();
      if rc != 0 {
        PerformedShort(d0, a, b + c, disk, rc);
        Abort();
        return -1;
      }
      PerformedMeans(d0, a, disk);
      PreparedDescriptors(d0);
      ghost var d1 := disk;
      rc := Decide();
      PerformedThen(d0, a, d1, b, disk, rc);
      if rc != 0 {
        FailsMidway(d0, a, b, c, disk);
        active, faulted := false, true;
        return -1;
      }
      ghost var d2 := disk;
      rc := Install();
      PerformedThen(d0, a + b, d2, c, disk, rc);
      if rc != 0 {
        active, faulted := false, true;
        return -1;
      }
      PerformedMeans(d0, a + b + c, disk);
      CommitInstallsView(l, d0, records, q);
      EmptyTableOk(l);
      records, active := [], false;
      return 0;
    }

    // ---- Replay --------------------------------------------------------------------------------

    /** Replay. When the device reports no error it does what the image calls for: a prepared
        transaction is dropped by clearing the header, and a committed one is brought home. */
    method ReplayJournal() returns (rc: int)
      requires ValidLayout(l, |disk.durable|) && disk.pending == []
      modifies this`disk, this`errors
      ensures rc == 0 || rc == -1
      ensures Replayed(l, old(disk).durable, disk, rc)
      ensures errors >= old(errors) && (errors == old(errors) ==> AllReplayed(l, old(disk).durable, disk, rc))
      ensures errors == old(errors) ==>
                forall recs :: |recs| <= RECORDS && Holds(l, old(disk).durable, PREPARED, recs) ==>
                  rc == 0 && disk == Disk(old(disk).durable[Slot(l, |old(disk).durable|, 0) := Zeros(SECTOR_SIZE)], [])
      ensures errors == old(errors) ==>
                forall recs :: ValidRecords(l, recs) && Holds(l, old(disk).durable, COMMITTED, recs) ==>
                  rc == 0 && AtHome(l, old(disk).durable, recs, disk)
      ensures OnlyAllowed(l, old(disk).durable, disk)
    {
      hide Slot, ValidLayout, Replayed, AllReplayed, AtHome, Holds, OnlyAllowed;
      ghost var img := disk.durable;
      rc := ReplayHeader();
      ReplayedAllowed(l, img, disk, rc);
      if errors == old(errors) {
        forall recs | |recs| <= RECORDS && Holds(l, img, PREPARED, recs)
          ensures rc == 0 && disk == Disk(img[Slot(l, |img|, 0) := Zeros(SECTOR_SIZE)], [])
        {
          PreparedIsCleared(l, img, recs, disk, rc);
        }
        forall recs | ValidRecords(l, recs) && Holds(l, img, COMMITTED, recs)
          ensures rc == 0 && AtHome(l, img, recs, disk)
        {
          CommittedIsInstalled(l, img, recs, disk, rc);
        }
      }
    }

    /** Reads the header and both descriptor sectors and decides what to do with them. */
    method ReplayHeader() returns (rc: int)
      requires ValidLayout(l, |disk.durable|) && disk.pending == []
      modifies this`disk, this`errors
      ensures rc == 0 || rc == -1
      ensures Replayed(l, old(disk).durable, disk, rc)
      ensures errors >= old(errors) && (errors == old(errors) ==> AllReplayed(l, old(disk).durable, disk, rc))
    {
      hide Slot, Storage, Run, ValidLayout, HeaderAccepted, StoredDescriptors, Replayed, ReplayOf, Performed,
        Checksum, Bytes.U32Get, ClearOps, AcceptedRecords, AllReplayed;
      ghost var img := disk.durable;
      var n := |disk.durable|;
      BootContents(disk);
      RunNothing(disk);
      var header: Sector;
      rc, header := DeviceRead(Slot(l, n, 0));
      if rc != 0 {
        CutShort(l, img, 0, disk);
        return -1;
      }
      if header == Zeros(SECTOR_SIZE) {
        ReplayCases(l, img);
        ReplayedAll(l, img, disk, 0);
        return 0;
      }
      var accepted := CheckHeader(header);
      var first, second: Sector;
      if !accepted {
        ReplayCases(l, img);
        ReplayedAll(l, img, disk, -1);
        return -1;
      }
      rc, first := DeviceRead(Slot(l, n, 1));
      if rc == 0 {
        rc, second := DeviceRead(Slot(l, n, 2));
      }
      if rc != 0 {
        CutShort(l, img, 0, disk);
        return -1;
      }
      var both: seq<Byte> := first;
      var descriptors := both + second;
      var sum := ComputeChecksum(descriptors);
      DescriptorsAre(l, img, first, second);
      ReplayCases(l, img);
      if U32Get(header, 28) != sum {
        ReplayedAll(l, img, disk, -1);
        return -1;
      }
      if U32Get(header, 12) == PREPARED {
        rc := Clear();
        ReplayedPerformed(l, img, disk, rc);
        return;
      }
      rc := ReplayRecords(img, U32Get(header, 16), descriptors);
    }

    lemma BootContents(d: Disk)
      requires d.pending == []
      ensures Contents(d) == d.durable && d == Disk(d.durable, [])
    {
      ApplyNothing(d.durable);
    }

    lemma DescriptorsAre(l: Layout, img: Image, first: Sector, second: Sector)
      requires ValidLayout(l, |img|) && first == img[Slot(l, |img|, 1)] && second == img[Slot(l, |img|, 2)]
      ensures var both: seq<Byte> := first; both + second == StoredDescriptors(l, img)
    {
      hide ValidLayout, Slot;
    }

    /** The record loop of replay: write each record home as soon as it passes its checks. */
    method ReplayRecords(ghost img: Image, count: nat, descriptors: seq<Byte>) returns (rc: int)
      requires ValidLayout(l, |img|) && count <= RECORDS && disk == Disk(img, [])
      requires descriptors == StoredDescriptors(l, img)
      requires ReplayOf(l, img) == CommittedReplay(l, img, count)
      modifies this`disk, this`errors
      ensures rc == 0 || rc == -1
      ensures Replayed(l, img, disk, rc)
      ensures errors >= old(errors) && (errors == old(errors) ==> AllReplayed(l, img, disk, rc))
    {
      hide Slot, Storage, Run, ValidLayout, StoredDescriptors, Replayed, ReplayOf, Performed, Apply,
        Checksum, Bytes.U32Get, Bytes.U64Get, ClearOps, AcceptedRecords, RecordAccepted, HomeWrites, Puts;
      ghost var all := AcceptedRecords(l, img, count);
      ghost var ops, d0 := Puts(HomeWrites(all)), disk;
      ReplayPrefix(l, img, count);
      PerformedNone(disk);
      for i := 0 to count
        invariant |disk.durable| == |img| && i <= |all| && errors == old(errors)
        invariant forall j :: 0 <= j < i ==> RecordAccepted(l, img, j)
        invariant Performed(d0, ops[..i], disk, 0)
      {
        PerformedMeans(d0, ops[..i], disk);
        PayloadIntact(l, img, all, i);
        CutShortInPuts(l, img, count, i, disk);
        var sector := U64Get(descriptors, 16 * i);
        var storage := IsStorageSector(sector);
        RecordChecks(l, img, i, descriptors);
        RefusedRecord(l, img, count, i, disk);
        if sector >= l.blocksCount * l.spb || storage {
          return -1;
        }
        var payload: Sector;
        rc, payload := DeviceRead(Slot(l, |disk.durable|, 3 + i));
        if rc != 0 {
          return -1;
        }
        var sum := ComputeChecksum(payload);
        if U32Get(descriptors, 16 * i + 8) != sum {
          return -1;
        }
        AcceptedMeansIn(l, img, count, i);
        ghost var mid := disk;
        rc := DeviceWrite(sector, payload);
        assert ops[..i + 1] == ops[..i] + [ops[i]];
        PerformedThen(d0, ops[..i], mid, [ops[i]], disk, rc);
        if rc != 0 {
          FailsInPuts(l, img, count, i, disk);
          return -1;
        }
      }
      assert ops[..count] == ops;
      rc := FinishReplay(img, all);
    }

    method IsStorageSector(sector: nat) returns (found: bool)
      requires ValidLayout(l, |disk.durable|)
      ensures found <==> Storage(l, sector)
    {
      found := IsStorage(l, sector);
    }

    /** All records written: flush, then clear the header. */
    method FinishReplay(ghost img: Image, ghost all: seq<Record>) returns (rc: int)
      requires ValidLayout(l, |img|) && |disk.durable| == |img|
      requires Performed(Disk(img, []), Puts(HomeWrites(all)), disk, 0)
      requires ReplayOf(l, img) == Replay(InstallOps(l, |img|, all), 0)
      modifies this`disk, this`errors
      ensures rc == 0 || rc == -1
      ensures Replayed(l, img, disk, rc)
      ensures errors >= old(errors) && (errors == old(errors) ==> AllReplayed(l, img, disk, rc))
    {
      hide Slot, Storage, Run, ValidLayout, Replayed, ReplayOf, Performed, ClearOps, HomeWrites, Puts, AllReplayed;
      ghost var d0, d1 := Disk(img, []), disk;
      ghost var a, c := Puts(HomeWrites(all)), ClearOps(l, |img|);
      assert InstallOps(l, |img|, all) == a + [Flush] + c;
      rc := DeviceFlush();
      PerformedThen(d0, a, d1, [Flush], disk, rc);
      if rc != 0 {
        FailsEarly(d0, a + [Flush], c, disk, rc);
        ReplayedPerformed(l, img, disk, rc);
        return;
      }
      ghost var d2 := disk;
      rc := Clear();
      PerformedThen(d0, a + [Flush], d2, c, disk, rc);
      ReplayedPerformed(l, img, disk, rc);
    }

    lemma FailsMidway(d: Disk, a: seq<Op>, b: seq<Op>, c: seq<Op>, after: Disk)
      requires exists at: nat :: |a| <= at < |a + b| && FailedAt(d, a + b, at, after)
      ensures exists at: nat :: |a| <= at < |a + b + c| && FailedAt(d, a + b + c, at, after)
    {
      hide Run, Fails;
      var at: nat :| |a| <= at < |a + b| && FailedAt(d, a + b, at, after);
      assert (a + b + c)[..at] == (a + b)[..at];
      assert FailedAt(d, a + b + c, at, after);
    }
  }

  /** Operations on the journal file alone do not change what is read at home. */
  lemma {:induction false} StorageOpsKeepHome(l: Layout, d: Disk, ops: seq<Op>)
    requires forall op :: op in ops && op.Put? ==> Storage(l, op.w.sector)
    ensures SameHome(l, Contents(Run(d, ops)), Contents(d))
  {
    hide Storage, Apply;
    if ops != [] {
      var k := |ops| - 1;
      StorageOpsKeepHome(l, d, ops[..k]);
      var before := Run(d, ops[..k]);
      match ops[k] {
        case Put(w) => ApplyAppend(before.durable, before.pending, w);
        case Flush => ApplyNothing(Contents(before));
      }
    }
  }

  /** A commit that completes turns the disk into the view of the open transaction. */
  lemma CommitInstallsView(l: Layout, d: Disk, recs: seq<Record>, q: nat)
    requires ValidLayout(l, |d.durable|) && TableOk(l, recs)
    ensures var after := Run(d, CommitOps(l, |d.durable|, recs, q));
            after.pending == [] && SameHome(l, Contents(after), Installed(Contents(d), recs))
  {
    hide ValidLayout, Slot, Storage, Run, PrepareOps, DecideOps, InstallOps, Apply, AfterDecide, SameHome, Installed;
    var n := |d.durable|;
    var a, b, c := PrepareOps(l, n, recs, q), DecideOps(l, n, recs, q), InstallOps(l, n, recs);
    RunConcat(d, a + b, c);
    DecidedContents(l, d, recs, q);
    InstalledContents(l, AfterDecide(l, d, recs, q), Contents(d), recs);
  }

  /** Up to the flush of the COMMITTED header only the journal file has changed. */
  lemma DecidedContents(l: Layout, d: Disk, recs: seq<Record>, q: nat)
    requires ValidLayout(l, |d.durable|) && |recs| <= RECORDS
    ensures var mid := AfterDecide(l, d, recs, q);
            && Run(d, PrepareOps(l, |d.durable|, recs, q) + DecideOps(l, |d.durable|, recs, q)) == Disk(mid, [])
            && SameHome(l, mid, Contents(d))
  {
    hide ValidLayout, Slot, Storage, Run, PrepareOps, Apply, HeaderWrite, Holds, SameHome;
    var n := |d.durable|;
    var a, b := PrepareOps(l, n, recs, q), DecideOps(l, n, recs, q);
    RunConcat(d, a, b);
    PreparedHolds(l, d, recs, q);
    DecideRun(Run(d, a).durable, HeaderWrite(l, n, COMMITTED, recs, q));
    JournalOpsAreStorage(l, n, recs, q);
    StorageOpsKeepHome(l, d, a + b);
    ApplyNothing(AfterDecide(l, d, recs, q));
  }

  lemma InstalledContents(l: Layout, mid: Image, base: Image, recs: seq<Record>)
    requires ValidLayout(l, |mid|) && TableOk(l, recs) && SameHome(l, mid, base)
    ensures var after := Run(Disk(mid, []), InstallOps(l, |mid|, recs));
            after.pending == [] && SameHome(l, Contents(after), Installed(base, recs))
  {
    hide ValidLayout, Slot, Storage, Run, InstallOps, Apply, Installed;
    var c := InstallOps(l, |mid|, recs);
    assert c[..|recs| + 3] == c;
    InstallRun(l, mid, recs, |recs| + 3);
    SameHomeInstalled(l, mid, base, recs);
    var zero := Write(Slot(l, |mid|, 0), Zeros(SECTOR_SIZE));
    ApplyOne(Installed(mid, recs), zero);
    ApplyNothing(Apply(Installed(mid, recs), [zero]));
  }

  lemma JournalOpsAreStorage(l: Layout, n: nat, recs: seq<Record>, q: nat)
    requires ValidLayout(l, n) && |recs| <= RECORDS
    ensures forall op :: op in PrepareOps(l, n, recs, q) + DecideOps(l, n, recs, q) && op.Put? ==>
              Storage(l, op.w.sector)
  {
    hide ValidLayout, Slot, Storage, PrepareWrites;
    PrepareWritesAreHarmless(l, n, recs, q);
    forall op | op in PrepareOps(l, n, recs, q) && op.Put? ensures Storage(l, op.w.sector) {
      assert op.w in PrepareWrites(l, n, recs, q);
    }
  }

  lemma SameHomeInstalled(l: Layout, a: Image, b: Image, recs: seq<Record>)
    requires SameHome(l, a, b) && TableOk(l, recs)
    ensures SameHome(l, Installed(a, recs), Installed(b, recs))
  {
    hide Storage, Installed;
    forall s | 0 <= s < |a| && !Storage(l, s) ensures Installed(a, recs)[s] == Installed(b, recs)[s] {
      if i :| 0 <= i < |recs| && recs[i].sector == s {
        InstalledAt(a, recs, i);
        InstalledAt(b, recs, i);
      } else {
        InstalledElsewhere(a, recs, s);
        InstalledElsewhere(b, recs, s);
      }
    }
  }

  /** The checks of replay on the header sector. */
  method CheckHeader(header: Sector) returns (ok: bool)
    ensures ok <==>
              && header[..8] == MAGIC && U32Get(header, 8) == VERSION
              && U32Get(header, 24) == Checksum(U32Set(header, 24, 0))
              && (U32Get(header, 12) == PREPARED || U32Get(header, 12) == COMMITTED) && U32Get(header, 16) <= RECORDS
    ensures ok <==> HeaderAccepted(header)
  {
    hide Bytes.U32Set, Bytes.U32Get, Checksum;
    if !(header[..8] == MAGIC && U32Get(header, 8) == VERSION) {
      return false;
    }
    var saved := U32Get(header, 24);
    var cleared := U32Set(header, 24, 0);
    var sum := ComputeChecksum(cleared);
    if saved != sum {
      return false;
    }
    var state, count := U32Get(header, 12), U32Get(header, 16);
    return !((state != PREPARED && state != COMMITTED) || count > RECORDS);
  }

  /** A replay with no device error does what its image calls for, and returns what that calls for. */
  ghost predicate AllReplayed(l: Layout, img: Image, after: Disk, rc: int)
    requires ValidLayout(l, |img|)
  {
    rc == ReplayOf(l, img).rc && after == Run(Disk(img, []), ReplayOf(l, img).ops)
  }

  /** Every record is at its home sector, every other home sector is as it was, and the journal is
      clear. */
  ghost predicate AtHome(l: Layout, img: Image, recs: seq<Record>, d: Disk)
    requires ValidLayout(l, |img|)
  {
    && d.pending == [] && |d.durable| == |img| && d.durable[Slot(l, |img|, 0)] == Zeros(SECTOR_SIZE)
    && (forall i :: 0 <= i < |recs| ==> recs[i].sector < |img| && d.durable[recs[i].sector] == recs[i].data)
    && forall s :: 0 <= s < |img| && !Storage(l, s) && (forall i :: 0 <= i < |recs| ==> recs[i].sector != s) ==>
         d.durable[s] == img[s]
  }

  lemma PreparedIsCleared(l: Layout, img: Image, recs: seq<Record>, after: Disk, rc: int)
    requires ValidLayout(l, |img|) && |recs| <= RECORDS && Holds(l, img, PREPARED, recs)
    requires AllReplayed(l, img, after, rc)
    ensures rc == 0 && after == Disk(img[Slot(l, |img|, 0) := Zeros(SECTOR_SIZE)], [])
  {
    hide ValidLayout, Slot, Holds, ReplayOf, Run;
    ReplayOfPrepared(l, img, recs);
    ClearRun(l, img);
  }

  lemma CommittedIsInstalled(l: Layout, img: Image, recs: seq<Record>, after: Disk, rc: int)
    requires ValidLayout(l, |img|) && ValidRecords(l, recs) && Holds(l, img, COMMITTED, recs)
    requires AllReplayed(l, img, after, rc)
    ensures rc == 0 && AtHome(l, img, recs, after)
  {
    hide ValidLayout, Slot, Storage, Holds, ReplayOf, Run, InstallOps, Installed, ValidRecords, SameHome, AtHome,
      InFlight;
    ReplayOfCommitted(l, img, recs);
    RecordCount(l, recs);
    CommittedIsInFlight(l, img, recs);
    InstallDone(l, img, img, recs);
    InstalledIsHome(l, img, recs, after);
  }

  lemma InstalledIsHome(l: Layout, img: Image, recs: seq<Record>, d: Disk)
    requires ValidLayout(l, |img|) && ValidRecords(l, recs) && SameHome(l, d.durable, Installed(img, recs))
    requires d.pending == [] && d.durable[Slot(l, |img|, 0)] == Zeros(SECTOR_SIZE)
    ensures AtHome(l, img, recs, d)
  {
    RecordsOnDevice(l, img, recs);
    hide ValidLayout, Slot, Storage, Installed;
    forall i | 0 <= i < |recs| ensures Installed(img, recs)[recs[i].sector] == recs[i].data {
      InstalledAt(img, recs, i);
    }
    forall s | 0 <= s < |img| && forall i :: 0 <= i < |recs| ==> recs[i].sector != s
      ensures Installed(img, recs)[s] == img[s]
    {
      InstalledElsewhere(img, recs, s);
    }
  }

  lemma RecordsOnDevice(l: Layout, img: Image, recs: seq<Record>)
    requires ValidLayout(l, |img|) && ValidRecords(l, recs)
    ensures forall i :: 0 <= i < |recs| ==> recs[i].sector < |img|
  {
  }

  /** Where a record is not accepted the replay ends. */
  lemma RefusedRecord(l: Layout, img: Image, count: nat, i: nat, d: Disk)
    requires ValidLayout(l, |img|) && i < count <= RECORDS && ReplayOf(l, img) == CommittedReplay(l, img, count)
    requires i <= |AcceptedRecords(l, img, count)|
    requires d == Run(Disk(img, []), Puts(HomeWrites(AcceptedRecords(l, img, count)))[..i])
    ensures !RecordAccepted(l, img, i) ==> AllReplayed(l, img, d, -1)
  {
    hide ValidLayout, ReplayOf, Run, RecordAccepted, InstallOps;
    var ops := Puts(HomeWrites(AcceptedRecords(l, img, count)));
    if !RecordAccepted(l, img, i) {
      assert ops[..i] == ops;
    }
  }

  lemma CutShort(l: Layout, img: Image, at: nat, after: Disk)
    requires ValidLayout(l, |img|) && at <= |ReplayOf(l, img).ops|
    requires after == Run(Disk(img, []), ReplayOf(l, img).ops[..at]) || (at == 0 && after == Disk(img, []))
    ensures Replayed(l, img, after, -1)
  {
    hide ValidLayout, ReplayOf;
    assert ReplayOf(l, img).ops[..0] == [];
    RunNothing(Disk(img, []));
  }

  lemma ReplayedAll(l: Layout, img: Image, after: Disk, rc: int)
    requires ValidLayout(l, |img|) && rc == ReplayOf(l, img).rc
    requires after == Run(Disk(img, []), ReplayOf(l, img).ops)
    ensures Replayed(l, img, after, rc) && AllReplayed(l, img, after, rc)
  {
    hide ValidLayout, ReplayOf, Run;
    var ops := ReplayOf(l, img).ops;
    assert ops[..|ops|] == ops;
  }

  lemma ReplayedPerformed(l: Layout, img: Image, after: Disk, rc: int)
    requires ValidLayout(l, |img|) && ReplayOf(l, img).rc == 0
    requires Performed(Disk(img, []), ReplayOf(l, img).ops, after, rc)
    ensures Replayed(l, img, after, rc) && (rc == 0 ==> AllReplayed(l, img, after, rc))
  {
    hide ValidLayout, ReplayOf, Run, FailedAt;
  }

  /** What ReplayOf is once the header and the descriptor checksum are accepted. */
  function CommittedReplay(l: Layout, img: Image, count: nat): (r: Replay)
    requires ValidLayout(l, |img|) && count <= RECORDS
  {
    var recs := AcceptedRecords(l, img, count);
    if |recs| < count then Replay(Puts(HomeWrites(recs)), -1) else Replay(InstallOps(l, |img|, recs), 0)
  }

  lemma ReplayCases(l: Layout, img: Image)
    requires ValidLayout(l, |img|)
    ensures var h := img[Slot(l, |img|, 0)];
            var r := ReplayOf(l, img);
            if h == Zeros(SECTOR_SIZE) then r == Replay([], 0)
            else if !HeaderAccepted(h) || U32Get(h, 28) != Checksum(StoredDescriptors(l, img)) then r == Replay([], -1)
            else if U32Get(h, 12) == PREPARED then r == Replay(ClearOps(l, |img|), 0)
            else U32Get(h, 16) <= RECORDS && r == CommittedReplay(l, img, U32Get(h, 16))
  {
    hide ValidLayout, Slot, HeaderValid, Checksum, StoredDescriptors, ClearOps, InstallOps, AcceptedRecords,
      Bytes.U32Get, Bytes.U32Set;
  }

  lemma ReplayPrefix(l: Layout, img: Image, count: nat)
    requires ValidLayout(l, |img|) && count <= RECORDS
    ensures var all := AcceptedRecords(l, img, count);
            var ops := CommittedReplay(l, img, count).ops;
            |Puts(HomeWrites(all))| == |all| <= |ops| && ops[..|all|] == Puts(HomeWrites(all))
  {
    hide ValidLayout, AcceptedRecords, ClearOps;
  }

  lemma CutShortInPuts(l: Layout, img: Image, count: nat, i: nat, after: Disk)
    requires ValidLayout(l, |img|) && count <= RECORDS && ReplayOf(l, img) == CommittedReplay(l, img, count)
    requires i <= |AcceptedRecords(l, img, count)|
    requires after == Run(Disk(img, []), Puts(HomeWrites(AcceptedRecords(l, img, count)))[..i])
    ensures Replayed(l, img, after, -1)
  {
    hide ValidLayout, ReplayOf, Run, AcceptedRecords, CommittedReplay, HomeWrites, Replayed;
    ReplayPrefix(l, img, count);
    var all := AcceptedRecords(l, img, count);
    var ops := ReplayOf(l, img).ops;
    assert ops[..i] == ops[..|all|][..i];
    CutShort(l, img, i, after);
  }

  lemma FailsInPuts(l: Layout, img: Image, count: nat, i: nat, after: Disk)
    requires ValidLayout(l, |img|) && count <= RECORDS && ReplayOf(l, img) == CommittedReplay(l, img, count)
    requires i < |AcceptedRecords(l, img, count)|
    requires Performed(Disk(img, []), Puts(HomeWrites(AcceptedRecords(l, img, count)))[..i + 1], after, -1)
    ensures Replayed(l, img, after, -1)
  {
    hide ValidLayout, ReplayOf, Run, AcceptedRecords, CommittedReplay, HomeWrites, Fails;
    ReplayPrefix(l, img, count);
    var all := AcceptedRecords(l, img, count);
    var puts, ops := Puts(HomeWrites(all)), ReplayOf(l, img).ops;
    assert puts[..i + 1] == ops[..|all|][..i + 1] == ops[..i + 1];
    assert ops == puts[..i + 1] + ops[i + 1..];
    PerformedShort(Disk(img, []), puts[..i + 1], ops[i + 1..], after, -1);
  }

  lemma AcceptedMeansIn(l: Layout, img: Image, count: nat, i: nat)
    requires ValidLayout(l, |img|) && i < count <= RECORDS
    requires forall j :: 0 <= j <= i ==> RecordAccepted(l, img, j)
    ensures var all := AcceptedRecords(l, img, count);
            && i < |all|
            && Puts(HomeWrites(all))[i] == Put(Write(StoredRecord(l, img, i).sector, StoredRecord(l, img, i).data))
  {
    hide ValidLayout, Slot, RecordAccepted, StoredRecord, AcceptedRecords;
  }

  lemma RecordChecks(l: Layout, img: Image, i: nat, descriptors: seq<Byte>)
    requires ValidLayout(l, |img|) && i < RECORDS && descriptors == StoredDescriptors(l, img)
    ensures var sector := U64Get(descriptors, 16 * i);
            var payload := img[Slot(l, |img|, 3 + i)];
            && StoredRecord(l, img, i) == Record(sector, payload)
            && (RecordAccepted(l, img, i) <==>
                 sector < l.blocksCount * l.spb && !Storage(l, sector)
                 && U32Get(descriptors, 16 * i + 8) == Checksum(payload))
  {
    hide ValidLayout, Slot, Storage, Checksum, StoredDescriptors, Bytes.U32Get, Bytes.U64Get;
  }

  /** The home writes so far have not touched the payload area. */
  lemma PayloadIntact(l: Layout, img: Image, all: seq<Record>, i: nat)
    requires ValidLayout(l, |img|) && i <= |all| <= RECORDS && i < RECORDS
    requires forall j :: 0 <= j < |all| ==> all[j] == StoredRecord(l, img, j) && RecordAccepted(l, img, j)
    ensures var d := Run(Disk(img, []), Puts(HomeWrites(all))[..i]);
            |d.durable| == |img| && Contents(d)[Slot(l, |img|, 3 + i)] == img[Slot(l, |img|, 3 + i)]
  {
    hide ValidLayout, Slot, Storage, Checksum, StoredDescriptors, Bytes.U32Get, Bytes.U64Get, Apply, Run;
    var ws := HomeWrites(all)[..i];
    assert Puts(HomeWrites(all))[..i] == Puts(ws);
    RunPuts(Disk(img, []), ws);
    assert [] + ws == ws;
    ApplyUntouched(img, ws, Slot(l, |img|, 3 + i));
  }

  /** The first k sectors of a write are in the view, and the next one is refused if there is one. */
  ghost predicate WroteUpTo(l: Layout, was: Image, now: Image, recs: seq<Record>, sector: nat, data: seq<Sector>,
                            k: nat, rc: int) {
    && k <= |data| && (rc == 0 <==> k == |data|)
    && now == Apply(was, SectorWrites(sector, data[..k]))
    && (rc != 0 ==> Refuses(l, recs, sector + k))
  }

  /** The writes that store `data` in consecutive sectors. */
  function SectorWrites(sector: nat, data: seq<Sector>): (ws: seq<Write>)
    ensures |ws| == |data| && forall i :: 0 <= i < |data| ==> ws[i] == Write(sector + i, data[i])
  {
    seq(|data|, i requires 0 <= i < |data| => Write(sector + i, data[i]))
  }

  lemma AppendUpdatesView(img: Image, recs: seq<Record>, r: Record)
    ensures Installed(img, recs + [r])
            == if r.sector < |img| then Installed(img, recs)[r.sector := r.data] else Installed(img, recs)
  {
    hide Apply;
    assert HomeWrites(recs + [r]) == HomeWrites(recs) + [Write(r.sector, r.data)];
    ApplyAppend(img, HomeWrites(recs), Write(r.sector, r.data));
  }

  /** Overwriting a record in place has the same effect as a later write: no other record
      names its sector. */
  lemma ReplaceUpdatesView(img: Image, recs: seq<Record>, i: nat, data: Sector)
    requires i < |recs| && forall a, b :: 0 <= a < b < |recs| ==> recs[a].sector != recs[b].sector
    ensures var after := recs[i := recs[i].(data := data)];
            Installed(img, after)
            == if recs[i].sector < |img| then Installed(img, recs)[recs[i].sector := data] else Installed(img, recs)
  {
    hide Apply, Installed;
    var after := recs[i := recs[i].(data := data)];
    forall s | 0 <= s < |img|
      ensures Installed(img, after)[s] == if s == recs[i].sector then data else Installed(img, recs)[s]
    {
      if j :| 0 <= j < |recs| && recs[j].sector == s {
        InstalledAt(img, recs, j);
        InstalledAt(img, after, j);
      } else {
        InstalledElsewhere(img, recs, s);
        InstalledElsewhere(img, after, s);
      }
    }
  }
}
