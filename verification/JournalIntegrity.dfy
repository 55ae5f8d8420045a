/** What replay may write: whatever it finds on the device, and however it ends, a sector outside the
    journal keeps its contents or gets the payload of a record that every checksum vouches for. */
module JournalIntegrity {
  import opened Bytes
  import opened Disk
  import opened JournalLayout
  import opened JournalProtocol
  import opened JournalRecovery
  import opened JournalRuns

  /** Record i of the journal in `img` is the write w, with its checksum, to a place outside the
      journal. */
  ghost predicate Payload(l: Layout, img: Image, i: nat, w: Write)
    requires ValidLayout(l, |img|) && i < RECORDS
  {
    && U64Get(StoredDescriptors(l, img), 16 * i) == w.sector && img[Slot(l, |img|, 3 + i)] == w.data
    && U32Get(StoredDescriptors(l, img), 16 * i + 8) == Checksum(w.data)
    && w.sector < l.blocksCount * l.spb && !Storage(l, w.sector)
  }

  /** The write is a payload under a header that is intact and says committed. */
  ghost predicate Vouched(l: Layout, img: Image, w: Write)
    requires ValidLayout(l, |img|)
  {
    var h := img[Slot(l, |img|, 0)];
    && h[..8] == MAGIC && U32Get(h, 8) == VERSION && U32Get(h, 12) == COMMITTED
    && U32Get(h, 24) == Checksum(U32Set(h, 24, 0)) && U32Get(h, 28) == Checksum(StoredDescriptors(l, img))
    && exists i: nat :: i < RECORDS && i < U32Get(h, 16) && Payload(l, img, i, w)
  }

  ghost predicate Allowed(l: Layout, img: Image, w: Write)
    requires ValidLayout(l, |img|)
  {
    Storage(l, w.sector) || Vouched(l, img, w)
  }

  /** Every sector, durable or cached, is as in `img` or was allowed. */
  ghost predicate OnlyAllowed(l: Layout, img: Image, d: Disk)
    requires ValidLayout(l, |img|)
  {
    && |d.durable| == |img| && (forall w :: w in d.pending ==> Allowed(l, img, w))
    && forall s :: 0 <= s < |img| ==> d.durable[s] == img[s] || Allowed(l, img, Write(s, d.durable[s]))
  }

  lemma AllowedStep(l: Layout, img: Image, d: Disk, op: Op)
    requires ValidLayout(l, |img|) && OnlyAllowed(l, img, d) && (op.Put? ==> Allowed(l, img, op.w))
    ensures OnlyAllowed(l, img, Step(d, op))
  {
    hide ValidLayout, Allowed, Apply;
    if op.Flush? {
      forall s | 0 <= s < |img|
        ensures Contents(d)[s] == img[s] || Allowed(l, img, Write(s, Contents(d)[s]))
      {
        ApplyPicksAWrite(d.durable, d.pending, s);
      }
    }
  }

  lemma AllowedFailure(l: Layout, img: Image, d: Disk, op: Op, after: Disk)
    requires ValidLayout(l, |img|) && OnlyAllowed(l, img, d) && (op.Put? ==> Allowed(l, img, op.w))
    requires Fails(d, op, after)
    ensures OnlyAllowed(l, img, after)
  {
    hide ValidLayout, Allowed;
    AllowedStep(l, img, d, op);
  }

  ghost predicate AllAllowed(l: Layout, img: Image, ops: seq<Op>)
    requires ValidLayout(l, |img|)
  {
    forall op :: op in ops && op.Put? ==> Allowed(l, img, op.w)
  }

  lemma {:induction false} AllowedRun(l: Layout, img: Image, ops: seq<Op>)
    requires ValidLayout(l, |img|) && AllAllowed(l, img, ops)
    ensures OnlyAllowed(l, img, Run(Disk(img, []), ops))
  {
    hide ValidLayout, Allowed, Step, OnlyAllowed;
    if ops == [] {
      AllowedNone(l, img);
    } else {
      var k := |ops| - 1;
      AllowedRun(l, img, ops[..k]);
      AllowedStep(l, img, Run(Disk(img, []), ops[..k]), ops[k]);
    }
  }

  lemma AllowedNone(l: Layout, img: Image)
    requires ValidLayout(l, |img|)
    ensures OnlyAllowed(l, img, Disk(img, []))
  {
  }

  /** Replay asks the device for nothing else. */
  lemma ReplayAllowed(l: Layout, img: Image)
    requires ValidLayout(l, |img|)
    ensures AllAllowed(l, img, ReplayOf(l, img).ops)
  {
    hide ValidLayout, Slot, Storage, Checksum, StoredDescriptors, Bytes.U32Get, Bytes.U64Get, Bytes.U32Set;
    SlotIsStorage(l, |img|, 0);
    var h := img[Slot(l, |img|, 0)];
    if HeaderAccepted(h) && U32Get(h, 28) == Checksum(StoredDescriptors(l, img)) && U32Get(h, 12) == COMMITTED {
      var recs := AcceptedRecords(l, img, U32Get(h, 16));
      forall i | 0 <= i < |recs| ensures Allowed(l, img, Write(recs[i].sector, recs[i].data)) {
        assert Payload(l, img, i, Write(recs[i].sector, recs[i].data));
      }
    }
  }

  /** However replay ends, and whatever a power cut then keeps. */
  lemma ReplayedAllowed(l: Layout, img: Image, after: Disk, rc: int)
    requires ValidLayout(l, |img|) && Replayed(l, img, after, rc)
    ensures OnlyAllowed(l, img, after)
    ensures forall cut :: CrashImage(after, cut) ==> OnlyAllowed(l, img, Disk(cut, []))
  {
    hide ValidLayout, Run, ReplayOf, OnlyAllowed, Fails, Allowed, CrashImage;
    ReplayAllowed(l, img);
    var ops, d := ReplayOf(l, img).ops, Disk(img, []);
    if rc == 0 {
      AllowedRun(l, img, ops);
    } else if at: nat :| at <= |ops| && after == Run(d, ops[..at]) {
      AllowedRun(l, img, ops[..at]);
    } else {
      var at: nat :| at < |ops| && FailedAt(d, ops, at, after);
      AllowedRun(l, img, ops[..at]);
      AllowedFailure(l, img, Run(d, ops[..at]), ops[at], after);
    }
    forall cut | CrashImage(after, cut) ensures OnlyAllowed(l, img, Disk(cut, [])) {
      AllowedCut(l, img, after, cut);
    }
  }

  lemma AllowedCut(l: Layout, img: Image, d: Disk, cut: Image)
    requires ValidLayout(l, |img|) && OnlyAllowed(l, img, d) && CrashImage(d, cut)
    ensures OnlyAllowed(l, img, Disk(cut, []))
  {
    hide ValidLayout, Allowed;
  }

  /** Of a committed transaction with one wrong byte in a payload, replay installs nothing from that
      record on, and reports it. */
  lemma WrongByteIsRefused(l: Layout, img: Image, recs: seq<Record>, i: nat, b: nat, x: Byte)
    requires ValidLayout(l, |img|) && ValidRecords(l, recs) && |recs| <= RECORDS && Holds(l, img, COMMITTED, recs)
    requires i < |recs| && b < SECTOR_SIZE && x != recs[i].data[b]
    ensures var cut := img[Slot(l, |img|, 3 + i) := recs[i].data[b := x]];
            && ReplayOf(l, cut).rc == -1 && |AcceptedRecords(l, cut, |recs|)| <= i
            && ReplayOf(l, cut).ops == Puts(HomeWrites(AcceptedRecords(l, cut, |recs|)))
  {
    hide ValidLayout, Slot, Storage, Checksum, Bytes.U32Get, Bytes.U64Get, HeaderAccepted, Descriptors, Header,
      DescriptorSum;
    var cut := img[Slot(l, |img|, 3 + i) := recs[i].data[b := x]];
    SlotsDistinct(l, |img|, 0, 3 + i);
    SlotsDistinct(l, |img|, 1, 3 + i);
    SlotsDistinct(l, |img|, 2, 3 + i);
    HeldHeader(l, img, COMMITTED, recs);
    AcceptsAllRecords(l, img, COMMITTED, recs);
    assert RecordAccepted(l, img, i);
    OneByteShows(recs[i].data, b, x);
    assert StoredDescriptors(l, cut) == StoredDescriptors(l, img);
    assert !RecordAccepted(l, cut, i);
  }
}
