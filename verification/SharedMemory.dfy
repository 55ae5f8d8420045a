/** Shared memory segments: their identifiers, attachments to address spaces, and the frames they
    own from creation until the last attachment of a removed segment goes. */
module SharedMemory {
  import opened Common

  const SEGMENTS: nat := 32
  const ATTACHES: nat := 64
  const MAX_PAGES: nat := 4096
  const PAGE: nat := 4096
  const VA_BASE: nat := 0x1_4000_0000

  datatype Segment = Segment(used: bool, key: int, gen: nat, size: nat, frames: seq<nat>, nattch: int, marked: bool)

  datatype Attach = Attach(used: bool, shmid: int, space: nat, va: nat, npages: nat)

  /** The two tables, and the frames taken from the allocator and not given back. */
  datatype Sys = Sys(segs: seq<Segment>, atts: seq<Attach>, held: set<nat>)

  /** The identifier decodes to the segment in this slot. */
  predicate Names(segs: seq<Segment>, shmid: int, slot: nat) {
    slot < |segs| && SlotOf(shmid) == slot && segs[slot].used && segs[slot].gen == GenOf(shmid)
  }

  // ---- Counting attachments ------------------------------------------------------------------

  /** A live attachment whose identifier decodes to this slot and generation. */
  predicate Hits(a: Attach, slot: nat, gen: nat) { a.used && SlotOf(a.shmid) == slot && GenOf(a.shmid) == gen }

  function One(b: bool): nat { if b then 1 else 0 }

  function Count(atts: seq<Attach>, slot: nat, gen: nat): nat {
    if atts == [] then 0 else Count(atts[..|atts| - 1], slot, gen) + One(Hits(atts[|atts| - 1], slot, gen))
  }

  lemma {:induction false} CountUpdate(atts: seq<Attach>, i: nat, a: Attach, slot: nat, gen: nat)
    requires i < |atts|
    ensures Count(atts[i := a], slot, gen)
            == Count(atts, slot, gen) - One(Hits(atts[i], slot, gen)) + One(Hits(a, slot, gen))
  {
    hide Hits;
    var n := |atts| - 1;
    if i < n {
      CountUpdate(atts[..n], i, a, slot, gen);
      assert atts[i := a][..n] == atts[..n][i := a];
    } else {
      assert atts[i := a][..n] == atts[..n];
    }
  }

  lemma {:induction false} CountZero(atts: seq<Attach>, slot: nat, gen: nat)
    ensures Count(atts, slot, gen) == 0 <==> forall i :: 0 <= i < |atts| ==> !Hits(atts[i], slot, gen)
  {
    hide Hits;
    if atts != [] {
      CountZero(atts[..|atts| - 1], slot, gen);
    }
  }

  // ---- The invariant -------------------------------------------------------------------------

  ghost predicate SegmentOk(v: Sys, s: nat)
    requires s < |v.segs|
  {
    var g := v.segs[s];
    && g.gen < GENERATIONS
    && (g.used ==> g.nattch == Count(v.atts, s, g.gen))
    && (forall f :: Owns(g, f) ==> f in v.held)
    && (forall i, j :: 0 <= i < j < |g.frames| ==> g.frames[i] != g.frames[j])
    && (g.used ==> 0 < g.size <= |g.frames| * PAGE)
  }

  /** A live attachment has a live segment and covers all of it. */
  ghost predicate AttachOk(v: Sys, i: nat)
    requires i < |v.atts|
  {
    v.atts[i].used ==> Names(v.segs, v.atts[i].shmid, SlotOf(v.atts[i].shmid))
                       && v.atts[i].npages == |v.segs[SlotOf(v.atts[i].shmid)].frames|
  }

  predicate Below(a: Attach, b: Attach) { a.va + a.npages * PAGE <= b.va }

  /** Attachments of one address space lie apart. */
  ghost predicate Apart(a: Attach, b: Attach) {
    a.used && b.used && a.space == b.space ==> Below(a, b) || Below(b, a)
  }

  ghost predicate Owns(g: Segment, f: nat) { g.used && f in g.frames }

  ghost predicate FramesOk(v: Sys) {
    && (forall s, t, f :: 0 <= s < t < |v.segs| && Owns(v.segs[s], f) ==> !Owns(v.segs[t], f))
    && (forall f :: f in v.held ==> exists s :: 0 <= s < |v.segs| && Owns(v.segs[s], f))
  }

  ghost predicate Counted(v: Sys) {
    && |v.segs| == SEGMENTS && |v.atts| == ATTACHES
    && (forall s :: 0 <= s < SEGMENTS ==> SegmentOk(v, s))
    && (forall i :: 0 <= i < ATTACHES ==> AttachOk(v, i))
    && (forall i, j :: 0 <= i < j < ATTACHES ==> Apart(v.atts[i], v.atts[j]))
    && FramesOk(v)
  }

  /** A removed segment stays only while it is attached. */
  predicate Settled(v: Sys) {
    forall s :: 0 <= s < |v.segs| && v.segs[s].used && v.segs[s].marked ==> v.segs[s].nattch > 0
  }

  ghost predicate Sound(v: Sys) { Counted(v) && Settled(v) }

  // ---- Steps ---------------------------------------------------------------------------------

  function SetOf(s: seq<nat>): set<nat> { set f | f in s }

  /** A segment gives its frames back and its slot gets the next generation. */
  function Freed(v: Sys, s: nat): Sys
    requires s < |v.segs|
  {
    var g := v.segs[s];
    v.(segs := v.segs[s := g.(used := false, frames := [], gen := (g.gen + 1) % GENERATIONS)],
      held := v.held - SetOf(g.frames))
  }

  lemma FreedCounted(v: Sys, s: nat)
    requires Counted(v) && s < SEGMENTS && v.segs[s].used && v.segs[s].nattch == 0
    ensures Counted(Freed(v, s))
  {
    var w, g := Freed(v, s), v.segs[s];
    assert SegmentOk(v, s);
    CountZero(v.atts, s, g.gen);
    forall t | 0 <= t < SEGMENTS ensures SegmentOk(w, t) {
      assert SegmentOk(v, t);
      assert forall f :: Owns(w.segs[t], f) ==> Owns(v.segs[t], f) && !Owns(g, f);
    }
    forall i | 0 <= i < ATTACHES ensures AttachOk(w, i) {
      assert AttachOk(v, i);
      assert !Hits(v.atts[i], s, g.gen);
    }
    forall f | f in w.held ensures exists t :: 0 <= t < SEGMENTS && Owns(w.segs[t], f) {
      var t :| 0 <= t < SEGMENTS && Owns(v.segs[t], f);
      assert t != s;
      assert Owns(w.segs[t], f);
    }
  }

  /** A new segment in a free slot. */
  function Created(v: Sys, s: nat, key: int, size: nat, frames: seq<nat>): Sys
    requires s < |v.segs|
  {
    v.(segs := v.segs[s := Segment(true, key, v.segs[s].gen, size, frames, 0, false)], held := v.held + SetOf(frames))
  }

  lemma CreatedSound(v: Sys, s: nat, key: int, size: nat, frames: seq<nat>)
    requires Sound(v) && s < SEGMENTS && !v.segs[s].used
    requires forall f :: f in frames ==> f !in v.held
    requires forall i, j :: 0 <= i < j < |frames| ==> frames[i] != frames[j]
    requires 0 < size <= |frames| * PAGE
    ensures Sound(Created(v, s, key, size, frames))
  {
    var w := Created(v, s, key, size, frames);
    forall i | 0 <= i < ATTACHES ensures AttachOk(w, i) && !Hits(v.atts[i], s, v.segs[s].gen) {
      assert AttachOk(v, i);
    }
    CountZero(v.atts, s, v.segs[s].gen);
    forall t | 0 <= t < SEGMENTS
      ensures SegmentOk(w, t)
      ensures t != s ==> forall f :: Owns(w.segs[t], f) ==> f !in frames
    {
      assert SegmentOk(v, t);
    }
    forall f | f in w.held ensures exists t :: 0 <= t < SEGMENTS && Owns(w.segs[t], f) {
      if f in frames {
        assert Owns(w.segs[s], f);
      } else {
        var t :| 0 <= t < SEGMENTS && Owns(v.segs[t], f);
        assert Owns(w.segs[t], f);
      }
    }
  }

  /** One attachment more, at va. */
  function Attached(v: Sys, i: nat, shmid: int, space: nat, va: nat): Sys
    requires i < |v.atts| && SlotOf(shmid) < |v.segs|
  {
    var s := SlotOf(shmid);
    v.(atts := v.atts[i := Attach(true, shmid, space, va, |v.segs[s].frames|)],
       segs := v.segs[s := v.segs[s].(nattch := v.segs[s].nattch + 1)])
  }

  /** va is behind everything that is attached to the space. */
  ghost predicate Clear(atts: seq<Attach>, space: nat, va: nat) {
    forall i :: 0 <= i < |atts| && atts[i].used && atts[i].space == space ==> atts[i].va + atts[i].npages * PAGE <= va
  }

  lemma AttachedSound(v: Sys, i: nat, shmid: int, space: nat, va: nat)
    requires Sound(v) && i < ATTACHES && !v.atts[i].used && Names(v.segs, shmid, SlotOf(shmid))
    requires Clear(v.atts, space, va)
    ensures Sound(Attached(v, i, shmid, space, va))
  {
    var w, s := Attached(v, i, shmid, space, va), SlotOf(shmid);
    forall t | 0 <= t < SEGMENTS ensures SegmentOk(w, t) {
      assert SegmentOk(v, t);
      CountUpdate(v.atts, i, w.atts[i], t, v.segs[t].gen);
      assert forall f :: Owns(w.segs[t], f) == Owns(v.segs[t], f);
    }
    forall j | 0 <= j < ATTACHES ensures AttachOk(w, j) {
      assert AttachOk(v, j);
    }
    SameFrames(v, w);
  }

  lemma SameFrames(v: Sys, w: Sys)
    requires FramesOk(v) && w.held == v.held && |w.segs| == |v.segs|
    requires forall s :: 0 <= s < |v.segs| ==> w.segs[s].used == v.segs[s].used && w.segs[s].frames == v.segs[s].frames
    ensures FramesOk(w)
  {
    assert forall s, f :: 0 <= s < |v.segs| ==> Owns(w.segs[s], f) == Owns(v.segs[s], f);
  }

  /** One attachment less; the segment goes with the last one when it was removed. */
  function Unattached(v: Sys, i: nat): Sys
    requires i < |v.atts| && SlotOf(v.atts[i].shmid) < |v.segs|
  {
    var s := SlotOf(v.atts[i].shmid);
    v.(atts := v.atts[i := v.atts[i].(used := false)], segs := v.segs[s := v.segs[s].(nattch := v.segs[s].nattch - 1)])
  }

  function Detached(v: Sys, i: nat): Sys
    requires i < |v.atts| && SlotOf(v.atts[i].shmid) < |v.segs|
  {
    var w, s := Unattached(v, i), SlotOf(v.atts[i].shmid);
    if w.segs[s].nattch == 0 && w.segs[s].marked then Freed(w, s) else w
  }

  lemma DetachedSound(v: Sys, i: nat)
    requires Sound(v) && i < ATTACHES && v.atts[i].used
    ensures SlotOf(v.atts[i].shmid) < SEGMENTS && Names(v.segs, v.atts[i].shmid, SlotOf(v.atts[i].shmid))
    ensures Sound(Detached(v, i))
  {
    assert AttachOk(v, i);
    var w, s := Unattached(v, i), SlotOf(v.atts[i].shmid);
    forall t | 0 <= t < SEGMENTS ensures SegmentOk(w, t) {
      assert SegmentOk(v, t);
      CountUpdate(v.atts, i, w.atts[i], t, v.segs[t].gen);
      assert forall f :: Owns(w.segs[t], f) == Owns(v.segs[t], f);
    }
    forall j | 0 <= j < ATTACHES ensures AttachOk(w, j) {
      assert AttachOk(v, j);
    }
    SameFrames(v, w);
    assert SegmentOk(w, s);
    if w.segs[s].nattch == 0 && w.segs[s].marked {
      FreedCounted(w, s);
    }
  }

  /** A segment is removed: at once when nothing is attached to it. */
  function Removed(v: Sys, s: nat): Sys
    requires s < |v.segs|
  {
    var w := v.(segs := v.segs[s := v.segs[s].(marked := true)]);
    if v.segs[s].nattch == 0 then Freed(w, s) else w
  }

  lemma RemovedSound(v: Sys, s: nat)
    requires Sound(v) && s < SEGMENTS && v.segs[s].used
    ensures Sound(Removed(v, s))
  {
    var w := v.(segs := v.segs[s := v.segs[s].(marked := true)]);
    forall t | 0 <= t < SEGMENTS ensures SegmentOk(w, t) {
      assert SegmentOk(v, t);
      assert forall f :: Owns(w.segs[t], f) == Owns(v.segs[t], f);
    }
    forall j | 0 <= j < ATTACHES ensures AttachOk(w, j) {
      assert AttachOk(v, j);
    }
    SameFrames(v, w);
    assert SegmentOk(w, s);
    if v.segs[s].nattch == 0 {
      FreedCounted(w, s);
    }
  }

  // ---- The tables ----------------------------------------------------------------------------

  datatype Error = Exists | Invalid | Missing | NoSpace | NoMemory

  datatype Result<T> = Ok(value: T) | Err(error: Error)

  /** Pages of a segment; the sum is of 64 bits. */
  function Pages(size: nat): nat { (size + PAGE - 1) % LIMIT64 / PAGE }

  /** The pages cover the size exactly when the sum does not wrap, and are none when it does. */
  lemma PagesCover(size: nat)
    requires 0 < size < LIMIT64
    ensures Pages(size) * PAGE >= size <==> size <= LIMIT64 - PAGE
    ensures Pages(size) == 0 <==> size > LIMIT64 - PAGE
  {
  }

  /** A live segment of this key that is not removed. */
  predicate Keyed(g: Segment, key: int) { g.used && !g.marked && g.key == key }

  /** No live segment answers to this key; 0 is always a new segment. */
  predicate Unkeyed(segs: seq<Segment>, key: int) {
    key == 0 || forall s :: 0 <= s < |segs| ==> !Keyed(segs[s], key)
  }

  /** There is a slot for a segment of this size, which rounds up to pages without a wrap. */
  predicate Creatable(segs: seq<Segment>, size: nat) {
    && 0 < size <= LIMIT64 - PAGE && Pages(size) <= MAX_PAGES
    && exists s :: 0 <= s < |segs| && !segs[s].used
  }

  datatype Event =
    | Get(key: int, size: nat, create: bool, exclusive: bool, listed: bool, supply: seq<nat>)
    | At(space: nat, shmid: int, mapped: bool)
    | Dt(space: nat, va: nat)
    | Remove(shmid: int)
    | Exit(space: nat)

  /** What an event does to the tables, where it can happen. */
  ghost predicate Did(e: Event, v: Sys, w: Sys) {
    && |v.segs| == |w.segs| == SEGMENTS && |v.atts| == |w.atts| == ATTACHES
    && match e
       case Get(key, size, create, _, listed, supply) =>
         Suppliable(v.held, supply) && Unkeyed(v.segs, key) && (key == 0 || create) && Creatable(v.segs, size) && listed
         && |supply| >= Pages(size) ==>
           exists s :: 0 <= s < SEGMENTS && !v.segs[s].used && w.segs == v.segs[s := w.segs[s]] && w.segs[s].used
             && w.segs[s].key == key && w.segs[s].size == size && w.segs[s].frames == supply[..Pages(size)]
       case At(space, shmid, mapped) =>
         Names(v.segs, shmid, SlotOf(shmid)) && mapped && (exists i :: 0 <= i < ATTACHES && !v.atts[i].used) ==>
           exists i :: 0 <= i < ATTACHES && !v.atts[i].used && w.atts[i].used && w.atts[i].space == space
             && w.atts[i].shmid == shmid && w.atts == v.atts[i := w.atts[i]]
       case Dt(space, va) =>
         (exists i :: 0 <= i < ATTACHES && Is(v.atts[i], space, va)) ==>
           exists i :: 0 <= i < ATTACHES && Is(v.atts[i], space, va) && Ends(v, w, i)
       case Remove(shmid) =>
         Names(v.segs, shmid, SlotOf(shmid)) ==>
           Lost(v.segs[SlotOf(shmid)].(marked := true), w.segs[SlotOf(shmid)], 0)
       case Exit(space) => forall i :: 0 <= i < ATTACHES && v.atts[i].space == space ==> !w.atts[i].used
  }

  class Shm {
    var segs: seq<Segment>
    var atts: seq<Attach>
    var held: set<nat>

    ghost function V(): Sys
      reads this
    {
      Sys(segs, atts, held)
    }

    constructor ()
      ensures Sound(V()) && held == {}
    {
      segs := seq(SEGMENTS, _ => Segment(false, 0, 0, 0, [], 0, false));
      atts := seq(ATTACHES, _ => Attach(false, 0, 0, 0, 0));
      held := {};
      new;
      forall s | 0 <= s < SEGMENTS ensures SegmentOk(V(), s) {}
      forall i | 0 <= i < ATTACHES ensures AttachOk(V(), i) {}
    }

    /** The slot an identifier names; SEGMENTS when it names none. */
    method FindSegment(shmid: int) returns (s: nat)
      requires |segs| == SEGMENTS
      ensures s <= SEGMENTS && (s < SEGMENTS <==> Names(segs, shmid, SlotOf(shmid)))
      ensures s < SEGMENTS ==> s == SlotOf(shmid)
    {
      s := SlotOf(shmid);
      if s >= SEGMENTS || !segs[s].used || segs[s].gen != GenOf(shmid) {
        s := SEGMENTS;
      }
    }

    method FreeSegmentFrames(s: nat)
      requires s < |segs|
      modifies this
      ensures V() == Freed(old(V()), s)
    {
      held := held - SetOf(segs[s].frames);
      segs := segs[s := segs[s].(used := false, frames := [], gen := (segs[s].gen + 1) % GENERATIONS)];
    }

    /** The first segment of a key that is not removed; SEGMENTS when there is none. */
    method FindKey(key: int) returns (s: nat)
      requires |segs| == SEGMENTS
      ensures s <= SEGMENTS && (s < SEGMENTS ==> Keyed(segs[s], key))
      ensures forall t :: 0 <= t < s ==> !Keyed(segs[t], key)
    {
      s := 0;
      while s < SEGMENTS
        invariant s <= SEGMENTS && forall t :: 0 <= t < s ==> !Keyed(segs[t], key)
      {
        if segs[s].used && !segs[s].marked && segs[s].key == key {
          return;
        }
        s := s + 1;
      }
    }

    method FreeSlot() returns (s: nat)
      requires |segs| == SEGMENTS
      ensures s <= SEGMENTS && (s < SEGMENTS ==> !segs[s].used) && forall t :: 0 <= t < s ==> segs[t].used
    {
      s := 0;
      while s < SEGMENTS
        invariant s <= SEGMENTS && forall t :: 0 <= t < s ==> segs[t].used
      {
        if !segs[s].used {
          return;
        }
        s := s + 1;
      }
    }

    /** Finds the segment of a key or makes one of fresh frames; `listed` is whether the heap has
        room for the list of them, which it never has for an empty list, and supply is what the
        frame allocator hands out before it runs dry. */
    method GetSegment(key: int, size: nat, create: bool, exclusive: bool, listed: bool, supply: seq<nat>)
      returns (r: Result<int>)
      requires Sound(V()) && size < LIMIT64
      requires Suppliable(held, supply)
      modifies this
      ensures Sound(V())
      ensures r.Ok? ==> Names(segs, r.value, SlotOf(r.value)) && size <= segs[SlotOf(r.value)].size
      ensures r.Ok? && !old(Unkeyed(segs, key)) ==> V() == old(V())
      ensures old(Unkeyed(segs, key)) ==>
                (r.Ok? <==> (key == 0 || create) && old(Creatable(segs, size)) && listed && |supply| >= Pages(size))
      ensures r.Ok? && old(Unkeyed(segs, key)) ==>
                var s := SlotOf(r.value);
                && !old(segs)[s].used && (forall t :: 0 <= t < s ==> old(segs)[t].used)
                && segs == old(segs)[s := segs[s]] && atts == old(atts)
                && segs[s].key == key && segs[s].gen == old(segs)[s].gen && segs[s].size == size
                && segs[s].nattch == 0 && !segs[s].marked && |supply| >= Pages(size)
                && segs[s].frames == supply[..Pages(size)] && held == old(held) + SetOf(segs[s].frames)
      ensures r.Ok? && key != 0 ==> Keyed(segs[SlotOf(r.value)], key)
      ensures r.Err? ==> V() == old(V())
      ensures r == Err(Exists) <==> !old(Unkeyed(segs, key)) && create && exclusive
    {
      hide Counted, Settled;
      Sizes(V());
      if key != 0 {
        var s := FindKey(key);
        if s < SEGMENTS {
          if create && exclusive {
            return Err(Exists);
          }
          if size != 0 && size > segs[s].size {
            return Err(Invalid);
          }
          Generations(V(), s);
          IdRoundTrip(s, segs[s].gen);
          return Ok(MakeId(s, segs[s].gen));
        }
        if !create {
          return Err(Missing);
        }
      }
      if size == 0 || Pages(size) > MAX_PAGES {
        return Err(Invalid);
      }
      var s := FreeSlot();
      if s == SEGMENTS {
        return Err(NoSpace);
      }
      PagesCover(size);
      if Pages(size) == 0 || !listed || |supply| < Pages(size) {
        return Err(NoMemory);
      }
      var frames := supply[..Pages(size)];
      CreatedSound(V(), s, key, size, frames);
      Generations(V(), s);
      IdRoundTrip(s, segs[s].gen);
      segs := segs[s := Segment(true, key, segs[s].gen, size, frames, 0, false)];
      held := held + SetOf(frames);
      r := Ok(MakeId(s, segs[s].gen));
    }

    /** Attaches a segment behind everything that the address space has attached; `mapped` is
        whether its pages could be mapped there. */
    method AttachSegment(space: nat, shmid: int, mapped: bool) returns (r: Result<nat>)
      requires Sound(V())
      modifies this
      ensures Sound(V())
      ensures r.Ok? <==>
                old(Names(segs, shmid, SlotOf(shmid))) && mapped && exists i :: 0 <= i < ATTACHES && !old(atts)[i].used
      ensures r.Ok? ==> r.value >= VA_BASE && Clear(old(atts), space, r.value)
      ensures r.Ok? ==> r.value == VA_BASE || exists j :: 0 <= j < ATTACHES && EndsAt(old(atts)[j], space, r.value)
      ensures r.Ok? ==>
                && SlotOf(shmid) < SEGMENTS && held == old(held)
                && (forall s :: 0 <= s < SEGMENTS ==>
                      segs[s] == if s == SlotOf(shmid) then old(segs)[s].(nattch := old(segs)[s].nattch + 1)
                                 else old(segs)[s])
                && exists i :: 0 <= i < ATTACHES && !old(atts)[i].used
                     && Is(atts[i], space, r.value) && atts[i].shmid == shmid
                     && atts[i].npages == |segs[SlotOf(shmid)].frames| && atts == old(atts)[i := atts[i]]
      ensures r == Err(Missing) <==> !old(Names(segs, shmid, SlotOf(shmid)))
      ensures r.Err? ==> V() == old(V())
    {
      hide Counted, Settled;
      Sizes(V());
      var s := FindSegment(shmid);
      if s == SEGMENTS {
        return Err(Missing);
      }
      var va, i := VA_BASE, 0;
      while i < ATTACHES
        invariant i <= ATTACHES && va >= VA_BASE
        invariant va == VA_BASE || exists j :: 0 <= j < ATTACHES && EndsAt(atts[j], space, va)
        invariant forall j :: 0 <= j < i && atts[j].used && atts[j].space == space ==>
                  atts[j].va + atts[j].npages * PAGE <= va
      {
        if atts[i].used && atts[i].space == space {
          var end := atts[i].va + atts[i].npages * PAGE;
          if end > va {
            va := end;
            assert EndsAt(atts[i], space, va);
          }
        }
        i := i + 1;
      }
      i := 0;
      while i < ATTACHES && atts[i].used
        invariant i <= ATTACHES && forall j :: 0 <= j < i ==> atts[j].used
      {
        i := i + 1;
      }
      if i == ATTACHES {
        return Err(NoSpace);
      }
      if !mapped {
        return Err(NoMemory);
      }
      AttachedSound(V(), i, shmid, space, va);
      atts := atts[i := Attach(true, shmid, space, va, |segs[s].frames|)];
      segs := segs[s := segs[s].(nattch := segs[s].nattch + 1)];
      r := Ok(va);
    }

    /** Ends attachment i. */
    method DetachAt(i: nat)
      requires Sound(V()) && i < ATTACHES && atts[i].used && SlotOf(atts[i].shmid) < |segs|
      modifies this
      ensures Sound(V()) && V() == Detached(old(V()), i) && Ends(old(V()), V(), i)
    {
      hide Counted, Settled;
      Sizes(V());
      DetachedSound(V(), i);
      var s := FindSegment(atts[i].shmid);
      atts := atts[i := atts[i].(used := false)];
      segs := segs[s := segs[s].(nattch := segs[s].nattch - 1)];
      if segs[s].nattch == 0 && segs[s].marked {
        FreeSegmentFrames(s);
      }
    }

    /** Detaches what an address space has at an address. */
    method DetachSegment(space: nat, va: nat) returns (found: bool)
      requires Sound(V())
      modifies this
      ensures Sound(V())
      ensures found <==> exists i :: 0 <= i < ATTACHES && Is(old(atts)[i], space, va)
      ensures !found ==> V() == old(V())
      ensures found ==>
                exists i :: 0 <= i < ATTACHES && Is(old(atts)[i], space, va) && Ends(old(V()), V(), i)
    {
      hide Counted, Settled;
      Sizes(V());
      var i := 0;
      while i < ATTACHES
        invariant i <= ATTACHES && V() == old(V()) && forall j :: 0 <= j < i ==> !Is(atts[j], space, va)
      {
        if atts[i].used && atts[i].space == space && atts[i].va == va {
          DetachedSound(V(), i);
          DetachAt(i);
          return true;
        }
        i := i + 1;
      }
      found := false;
    }

    /** Removes a segment; its frames go when nothing is attached to it. */
    method RemoveSegment(shmid: int) returns (found: bool)
      requires Sound(V())
      modifies this
      ensures Sound(V())
      ensures found <==> old(Names(segs, shmid, SlotOf(shmid)))
      ensures !found ==> V() == old(V())
      ensures found ==>
                && SlotOf(shmid) < SEGMENTS == |segs| && atts == old(atts)
                && (forall s :: 0 <= s < SEGMENTS ==>
                      if s == SlotOf(shmid) then Lost(old(segs)[s].(marked := true), segs[s], 0)
                      else segs[s] == old(segs)[s])
                && var s := SlotOf(shmid); held == old(held) - (if segs[s].used then {} else SetOf(old(segs)[s].frames))
    {
      hide Counted, Settled;
      Sizes(V());
      var s := FindSegment(shmid);
      if s == SEGMENTS {
        return false;
      }
      RemovedSound(V(), s);
      segs := segs[s := segs[s].(marked := true)];
      if segs[s].nattch == 0 {
        FreeSegmentFrames(s);
      }
      found := true;
    }

    /** An address space goes: all its attachments end, and no other. */
    method DetachAll(space: nat)
      requires Sound(V())
      modifies this
      ensures Sound(V())
      ensures forall i :: 0 <= i < ATTACHES ==>
                atts[i] == if old(atts)[i].space == space then old(atts)[i].(used := false) else old(atts)[i]
      ensures forall s :: 0 <= s < SEGMENTS ==> Outlives(old(segs)[s], segs[s])
    {
      hide Counted, Settled;
      Sizes(V());
      var i := 0;
      while i < ATTACHES
        invariant i <= ATTACHES == |atts| == old(|atts|) && Sound(V())
        invariant forall j :: 0 <= j < i ==>
                  atts[j] == if old(atts)[j].space == space then old(atts)[j].(used := false) else old(atts)[j]
        invariant forall j :: i <= j < ATTACHES ==> atts[j] == old(atts)[j]
        invariant |segs| == SEGMENTS == old(|segs|)
        invariant forall s :: 0 <= s < SEGMENTS ==> Outlives(old(segs)[s], segs[s])
      {
        Sizes(V());
        if atts[i].used && atts[i].space == space {
          DetachedSound(V(), i);
          DetachAt(i);
        }
        i := i + 1;
      }
    }

    method Step(e: Event)
      requires Sound(V()) && (e.Get? ==> e.size < LIMIT64)
      modifies this
      ensures Sound(V()) && Did(e, old(V()), V())
    {
      hide Sound;
      Sizes(V());
      match e {
        case Get(key, size, create, exclusive, listed, supply) =>
          if Suppliable(held, supply) {
            var _ := GetSegment(key, size, create, exclusive, listed, supply);
          }
        case At(space, shmid, mapped) => var _ := AttachSegment(space, shmid, mapped);
        case Dt(space, va) => var _ := DetachSegment(space, va);
        case Remove(shmid) => var _ := RemoveSegment(shmid);
        case Exit(space) => DetachAll(space);
      }
      Sizes(V());
    }

    /** In every run each event does what it is for, and the tables stay sound. */
    method Run(events: seq<Event>) returns (ghost trace: seq<Sys>)
      requires Sound(V()) && forall k :: 0 <= k < |events| && events[k].Get? ==> events[k].size < LIMIT64
      modifies this
      ensures Sound(V()) && |trace| == |events| + 1 && trace[0] == old(V()) && trace[|events|] == V()
      ensures forall k :: 0 <= k < |events| ==> Did(events[k], trace[k], trace[k + 1])
    {
      hide Sound, Did;
      trace := [V()];
      var k := 0;
      while k < |events|
        invariant 0 <= k <= |events| && Sound(V()) && |trace| == k + 1 && trace[0] == old(V()) && trace[k] == V()
        invariant forall j :: 0 <= j < k ==> Did(events[j], trace[j], trace[j + 1])
      {
        Step(events[k]);
        trace := trace + [V()];
        k := k + 1;
      }
    }
  }

  /** The frame allocator hands out frames that are not out already, and each once. */
  predicate Suppliable(held: set<nat>, supply: seq<nat>) {
    (forall f :: f in supply ==> f !in held) && forall i, j :: 0 <= i < j < |supply| ==> supply[i] != supply[j]
  }

  /** An attachment of the space ends at an address. */
  predicate EndsAt(a: Attach, space: nat, va: nat) { a.used && a.space == space && a.va + a.npages * PAGE == va }

  /** A segment that lost n attachments: a removed one that has none left is free for a new
      generation, and its frames are given back. */
  ghost predicate Lost(g: Segment, g': Segment, n: nat) {
    if g.marked && g.nattch == n
    then !g'.used && g'.frames == [] && g'.gen == (g.gen + 1) % GENERATIONS
    else g' == g.(nattch := g.nattch - n)
  }

  /** A segment changes only in how often it is attached, unless it was removed and its slot is free. */
  ghost predicate Outlives(g: Segment, g': Segment) {
    || g' == g.(nattch := g'.nattch)
    || (g.used && g.marked && !g'.used && g'.frames == [] && g'.gen == (g.gen + 1) % GENERATIONS)
  }

  /** Attachment i is over, for its segment and for nothing else. */
  ghost predicate Ends(v: Sys, w: Sys, i: nat) {
    && |w.segs| == |v.segs| && i < |v.atts| && w.atts == v.atts[i := v.atts[i].(used := false)]
    && SlotOf(v.atts[i].shmid) < |v.segs|
    && (forall s :: 0 <= s < |v.segs| ==>
          if s == SlotOf(v.atts[i].shmid) then Lost(v.segs[s], w.segs[s], 1) else w.segs[s] == v.segs[s])
    && var s := SlotOf(v.atts[i].shmid); w.held == v.held - (if w.segs[s].used then {} else SetOf(v.segs[s].frames))
  }

  predicate Is(a: Attach, space: nat, va: nat) { a.used && a.space == space && a.va == va }

  lemma Sizes(v: Sys)
    requires Sound(v)
    ensures |v.segs| == SEGMENTS && |v.atts| == ATTACHES
  {
  }

  lemma Generations(v: Sys, s: nat)
    requires Sound(v) && s < SEGMENTS
    ensures v.segs[s].gen < GENERATIONS
  {
    assert SegmentOk(v, s);
  }
}
