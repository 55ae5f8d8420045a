/** A block device with a volatile write cache: sector writes are atomic, reads see the
    cache, and only a flush makes the cached writes durable. */
module Disk {
  import opened Bytes

  const SECTOR_SIZE: nat := 512

  type Sector = s: seq<Byte> | |s| == SECTOR_SIZE witness Zeros(SECTOR_SIZE)

  type Image = seq<Sector>

  datatype Write = Write(sector: nat, data: Sector)

  datatype Disk = Disk(durable: Image, pending: seq<Write>)

  datatype Op = Put(w: Write) | Flush

  /** The image after performing `ws` in order; a write past the end has no effect. */
  function Apply(img: Image, ws: seq<Write>): (r: Image)
    ensures |r| == |img|
  {
    if ws == [] then img
    else
      var w := ws[|ws| - 1];
      var before := Apply(img, ws[..|ws| - 1]);
      if w.sector < |img| then before[w.sector := w.data] else before
  }

  /** What a read returns for every sector. */
  function Contents(d: Disk): (r: Image)
    ensures |r| == |d.durable|
  {
    Apply(d.durable, d.pending)
  }

  function Step(d: Disk, op: Op): (r: Disk)
    ensures |r.durable| == |d.durable|
  {
    match op
    case Put(w) => d.(pending := d.pending + [w])
    case Flush => Disk(Contents(d), [])
  }

  function Run(d: Disk, ops: seq<Op>): (r: Disk)
    ensures |r.durable| == |d.durable|
  {
    if ops == [] then d else Step(Run(d, ops[..|ops| - 1]), ops[|ops| - 1])
  }

  /** A power cut leaves each sector with its durable contents or those of any one of the
      cached writes to it, independently of the other sectors. */
  predicate CrashImage(d: Disk, img: Image) {
    && |img| == |d.durable|
    && forall s :: 0 <= s < |img| ==> img[s] == d.durable[s] || Write(s, img[s]) in d.pending
  }

  /** What an operation that reports an error may have done: a write reached the cache or
      did not, and a flush persisted any part of the cache. */
  predicate Fails(d: Disk, op: Op, after: Disk) {
    match op
    case Put(_) => after == d || after == Step(d, op)
    case Flush => after.pending == d.pending && CrashImage(d, after.durable)
  }

  function Puts(ws: seq<Write>): (ops: seq<Op>)
    ensures |ops| == |ws| && forall i :: 0 <= i < |ws| ==> ops[i] == Put(ws[i])
  {
    seq(|ws|, i requires 0 <= i < |ws| => Put(ws[i]))
  }

  /** The writes of `ws` that `mask` selects, in their order. */
  function Kept(ws: seq<Write>, mask: seq<bool>): seq<Write>
    requires |mask| == |ws|
  {
    if ws == [] then []
    else
      var k := |ws| - 1;
      Kept(ws[..k], mask[..k]) + if mask[k] then [ws[k]] else []
  }

  lemma {:induction false} ApplyPicksAWrite(img: Image, ws: seq<Write>, s: nat)
    requires s < |img|
    ensures Apply(img, ws)[s] == img[s] || Write(s, Apply(img, ws)[s]) in ws
  {
    if ws != [] {
      ApplyPicksAWrite(img, ws[..|ws| - 1], s);
    }
  }

  lemma {:induction false} KeptFrom(ws: seq<Write>, mask: seq<bool>, w: Write)
    requires |mask| == |ws| && w in Kept(ws, mask)
    ensures w in ws
  {
    var k := |ws| - 1;
    if !(mask[k] && w == ws[k]) {
      KeptFrom(ws[..k], mask[..k], w);
    }
  }

  lemma ApplyAppend(img: Image, ws: seq<Write>, w: Write)
    ensures Apply(img, ws + [w])
            == if w.sector < |img| then Apply(img, ws)[w.sector := w.data] else Apply(img, ws)
  {
    assert (ws + [w])[..|ws|] == ws;
  }

  lemma KeptLast(ws: seq<Write>, mask: seq<bool>)
    requires |mask| == |ws| > 0
    ensures var k := |ws| - 1;
            Kept(ws, mask) == if mask[k] then Kept(ws[..k], mask[..k]) + [ws[k]] else Kept(ws[..k], mask[..k])
  {
  }

  /** With every kept write agreeing with `img`, the result agrees with it wherever some
      write was kept and with `base` elsewhere. */
  lemma {:induction false} ApplyAgreeing(base: Image, ws: seq<Write>, mask: seq<bool>, img: Image, s: nat)
    requires |mask| == |ws| && |img| == |base| && s < |img|
    requires forall i :: 0 <= i < |ws| ==>
               (mask[i] <==> ws[i].sector < |img| && ws[i].data == img[ws[i].sector])
    ensures Apply(base, Kept(ws, mask))[s] == if Write(s, img[s]) in ws then img[s] else base[s]
  {
    hide Kept, Apply;
    if ws == [] {
      EmptyKept(base, mask);
    } else {
      var k := |ws| - 1;
      ApplyAgreeing(base, ws[..k], mask[..k], img, s);
      KeptLast(ws, mask);
      ApplyAppend(base, Kept(ws[..k], mask[..k]), ws[k]);
      InPrefixOrLast(ws, Write(s, img[s]));
    }
  }

  lemma EmptyKept(base: Image, mask: seq<bool>)
    requires mask == []
    ensures Apply(base, Kept([], mask)) == base
  {
  }

  lemma InPrefixOrLast(ws: seq<Write>, w: Write)
    requires ws != []
    ensures w in ws <==> w in ws[..|ws| - 1] || w == ws[|ws| - 1]
  {
    assert ws == ws[..|ws| - 1] + [ws[|ws| - 1]];
  }

  /** The per-sector description of a power cut is exactly "some subset of the cached writes
      reached the platter". */
  lemma CrashKeepsAnySubset(d: Disk, img: Image)
    ensures CrashImage(d, img) <==>
            exists mask: seq<bool> :: |mask| == |d.pending| && Apply(d.durable, Kept(d.pending, mask)) == img
  {
    var ws := d.pending;
    if CrashImage(d, img) {
      var mask := seq(|ws|, i requires 0 <= i < |ws| =>
        ws[i].sector < |img| && ws[i].data == img[ws[i].sector]);
      forall s | 0 <= s < |img| ensures Apply(d.durable, Kept(ws, mask))[s] == img[s] {
        ApplyAgreeing(d.durable, ws, mask, img, s);
      }
      assert Apply(d.durable, Kept(ws, mask)) == img;
    }
    forall mask: seq<bool> | |mask| == |ws| && Apply(d.durable, Kept(ws, mask)) == img
      ensures CrashImage(d, img)
    {
      forall s | 0 <= s < |img| ensures img[s] == d.durable[s] || Write(s, img[s]) in ws {
        ApplyPicksAWrite(d.durable, Kept(ws, mask), s);
        if Write(s, img[s]) in Kept(ws, mask) {
          KeptFrom(ws, mask, Write(s, img[s]));
        }
      }
    }
  }

  /** A sector that no write names keeps its contents. */
  lemma {:induction false} ApplyUntouched(img: Image, ws: seq<Write>, s: nat)
    requires s < |img| && forall w :: w in ws ==> w.sector != s
    ensures Apply(img, ws)[s] == img[s]
  {
    if ws != [] {
      ApplyUntouched(img, ws[..|ws| - 1], s);
    }
  }

  /** The last write to a sector is the one that is read back. */
  lemma {:induction false} ApplyLast(img: Image, ws: seq<Write>, i: nat)
    requires i < |ws| && ws[i].sector < |img|
    requires forall j :: i < j < |ws| ==> ws[j].sector != ws[i].sector
    ensures Apply(img, ws)[ws[i].sector] == ws[i].data
  {
    if i < |ws| - 1 {
      ApplyLast(img, ws[..|ws| - 1], i);
    }
  }

  lemma {:induction false} RunConcat(d: Disk, a: seq<Op>, b: seq<Op>)
    ensures Run(d, a + b) == Run(Run(d, a), b)
  {
    if b == [] {
      assert a + b == a;
    } else {
      var k := |b| - 1;
      assert (a + b)[..|a| + k] == a + b[..k];
      RunConcat(d, a, b[..k]);
    }
  }

  /** A run cut short somewhere in three consecutive phases. */
  lemma RunPhases(d: Disk, a: seq<Op>, b: seq<Op>, c: seq<Op>, k: nat)
    requires k <= |a| + |b| + |c|
    ensures Run(d, (a + b + c)[..k])
            == if k <= |a| then Run(d, a[..k])
               else if k <= |a| + |b| then Run(Run(d, a), b[..k - |a|])
               else Run(Run(Run(d, a), b), c[..k - |a| - |b|])
  {
    hide Run;
    var ops := a + b + c;
    if k <= |a| {
      assert ops[..k] == a[..k];
    } else if k <= |a| + |b| {
      assert ops[..k] == a + b[..k - |a|];
      RunConcat(d, a, b[..k - |a|]);
    } else {
      var tail := c[..k - |a| - |b|];
      assert ops[..k] == a + b + tail;
      RunConcat(d, a + b, tail);
      RunConcat(d, a, b);
    }
  }

  lemma {:induction false} RunPuts(d: Disk, ws: seq<Write>)
    ensures Run(d, Puts(ws)) == d.(pending := d.pending + ws)
  {
    if ws == [] {
      assert d.pending + ws == d.pending;
    } else {
      var k := |ws| - 1;
      assert Puts(ws)[..k] == Puts(ws[..k]);
      RunPuts(d, ws[..k]);
      assert d.pending + ws[..k] + [ws[k]] == d.pending + ws;
    }
  }

  /** Nothing new can be lost or kept after an error: a disk left by a failed operation
      crashes only into images that the operation attempted or not could leave. */
  lemma FailureAddsNoImage(d: Disk, op: Op, after: Disk, img: Image)
    requires Fails(d, op, after) && CrashImage(after, img)
    ensures CrashImage(d, img) || CrashImage(Step(d, op), img)
  {
    if op.Flush? {
      forall s | 0 <= s < |img| ensures img[s] == d.durable[s] || Write(s, img[s]) in d.pending {
      }
    }
  }
}
