/** Requests to load a program from the file system: slots that a requesting thread waits on, that
    the file server picks up, and that its reply completes. */
module ExecRequests {
  import opened Common

  const SLOTS: nat := 8

  datatype Phase = Empty | Queued | Delivered | PollDone

  /** requester is 0 for a request that the kernel polls for; child is what a polled one gave. */
  datatype Slot = Slot(phase: Phase, gen: nat, requester: nat, spawns: bool, child: nat)

  datatype Reply = NoReply | Started(child: nat) | Replaced | NoMemory | NotFound

  /** Whether a thread waits for an exec request, the slot it last asked on, and what it was told. */
  datatype Thread = Thread(waiting: bool, slot: nat, reply: Reply)

  /** The slots and the threads; lives counts how often each slot was freed, and asked is that
      count for the request a thread made last. A request is a slot and its count. */
  datatype Sys = Sys(server: nat, slots: seq<Slot>, threads: map<nat, Thread>, lives: seq<nat>, asked: map<nat, nat>)

  predicate Open(p: Phase) { p == Queued || p == Delivered }

  /** A waiting thread has a slot that names it and that it names, and that is still its request. */
  ghost predicate Waits(v: Sys, t: nat)
    requires t in v.threads
  {
    var i := v.threads[t].slot;
    && i < |v.slots| && i < |v.lives|
    && Open(v.slots[i].phase) && v.slots[i].requester == t
    && t in v.asked && v.asked[t] == v.lives[i]
  }

  ghost predicate SlotOk(v: Sys, i: nat)
    requires i < |v.slots| && i < |v.lives|
  {
    var s := v.slots[i];
    && s.gen == v.lives[i] % GENERATIONS
    && (s.phase != Empty && s.requester != 0 ==> s.requester in v.threads)
    && (s.phase == PollDone ==> s.requester == 0)
    && (v.server !in v.threads ==> s.phase == Empty)
  }

  ghost predicate Sound(v: Sys) {
    && |v.slots| == SLOTS == |v.lives| && 0 !in v.threads
    && (forall i :: 0 <= i < SLOTS ==> SlotOk(v, i))
    && (forall t :: t in v.threads && v.threads[t].waiting ==> Waits(v, t))
  }

  /** Two threads never wait on one slot, and none waits once the server is gone. */
  lemma NobodyStranded(v: Sys, t: nat, u: nat)
    requires Sound(v) && t in v.threads && u in v.threads && v.threads[t].waiting && v.threads[u].waiting
    ensures t != u ==> v.threads[t].slot != v.threads[u].slot
    ensures v.server in v.threads
  {
    assert Waits(v, t) && Waits(v, u);
    assert SlotOk(v, v.threads[t].slot);
  }

  // ---- Steps ---------------------------------------------------------------------------------

  function Freed(v: Sys, i: nat): Sys
    requires i < |v.slots| && i < |v.lives|
  {
    v.(slots := v.slots[i := v.slots[i].(phase := Empty, gen := (v.slots[i].gen + 1) % GENERATIONS)],
       lives := v.lives[i := v.lives[i] + 1])
  }

  lemma FreedSound(v: Sys, i: nat)
    requires Sound(v) && i < SLOTS
    requires forall t :: t in v.threads && v.threads[t].waiting ==> v.threads[t].slot != i
    ensures Sound(Freed(v, i))
  {
    NextGeneration(v.lives[i]);
    var w := Freed(v, i);
    forall j | 0 <= j < SLOTS ensures SlotOk(w, j) {
      assert SlotOk(v, j);
    }
    forall t | t in w.threads && w.threads[t].waiting ensures Waits(w, t) {
      assert Waits(v, t);
    }
  }

  /** A thread is told the outcome and runs again. */
  function Told(v: Sys, t: nat, r: Reply): Sys
    requires t in v.threads
  {
    v.(threads := v.threads[t := v.threads[t].(waiting := false, reply := r)])
  }

  lemma ToldSound(v: Sys, t: nat, r: Reply)
    requires Sound(v) && t in v.threads
    ensures Sound(Told(v, t, r))
  {
    var w := Told(v, t, r);
    forall j | 0 <= j < SLOTS ensures SlotOk(w, j) {
      assert SlotOk(v, j);
    }
    forall u | u in w.threads && w.threads[u].waiting ensures Waits(w, u) {
      assert Waits(v, u);
    }
  }

  /** Thread t asks on slot i, for the kernel itself when t is 0. */
  function Asked(v: Sys, i: nat, t: nat, spawns: bool, p: Phase): Sys
    requires i < |v.slots| && i < |v.lives|
  {
    var w := v.(slots := v.slots[i := v.slots[i].(phase := p, requester := t, spawns := spawns,
      child := if t == 0 then 0 else v.slots[i].child)]);
    if t == 0 then w
    else w.(threads := v.threads[t := Thread(true, i, NoReply)], asked := v.asked[t := v.lives[i]])
  }

  lemma AskedSound(v: Sys, i: nat, t: nat, spawns: bool, p: Phase)
    requires Sound(v) && i < SLOTS && v.slots[i].phase == Empty && Open(p) && v.server in v.threads
    requires t == 0 || (t in v.threads && !v.threads[t].waiting)
    ensures Sound(Asked(v, i, t, spawns, p))
  {
    var w := Asked(v, i, t, spawns, p);
    forall j | 0 <= j < SLOTS ensures SlotOk(w, j) {
      assert SlotOk(v, j);
    }
    forall u | u in w.threads && w.threads[u].waiting ensures Waits(w, u) {
      if u != t {
        assert Waits(v, u);
      }
    }
  }

  function WithPhase(v: Sys, i: nat, p: Phase): Sys
    requires i < |v.slots|
  {
    v.(slots := v.slots[i := v.slots[i].(phase := p)])
  }

  lemma DeliveredSound(v: Sys, i: nat)
    requires Sound(v) && i < SLOTS && v.slots[i].phase == Queued
    ensures Sound(WithPhase(v, i, Delivered))
  {
    var w := WithPhase(v, i, Delivered);
    forall j | 0 <= j < SLOTS ensures SlotOk(w, j) {
      assert SlotOk(v, j);
    }
    forall u | u in w.threads && w.threads[u].waiting ensures Waits(w, u) {
      assert Waits(v, u);
    }
  }

  lemma PolledSound(v: Sys, i: nat, child: nat)
    requires Sound(v) && i < SLOTS && v.slots[i].phase == Delivered && v.slots[i].requester == 0
    ensures Sound(Polled(v, i, child))
  {
    var w := Polled(v, i, child);
    forall j | 0 <= j < SLOTS ensures SlotOk(w, j) {
      assert SlotOk(v, j);
    }
    forall u | u in w.threads && w.threads[u].waiting ensures Waits(w, u) {
      assert Waits(v, u);
    }
  }

  function Polled(v: Sys, i: nat, child: nat): Sys
    requires i < |v.slots|
  {
    v.(slots := v.slots[i := v.slots[i].(phase := PollDone, child := child)])
  }

  /** A new thread, as a spawn makes; 0 is none. */
  function Born(v: Sys, t: nat): Sys {
    if t == 0 then v else v.(threads := v.threads[t := Thread(false, 0, NoReply)])
  }

  lemma BornSound(v: Sys, t: nat)
    requires Sound(v) && t !in v.threads
    ensures Sound(Born(v, t))
  {
    var w := Born(v, t);
    forall j | 0 <= j < SLOTS ensures SlotOk(w, j) {
      assert SlotOk(v, j);
    }
    forall u | u in w.threads && w.threads[u].waiting ensures Waits(w, u) {
      assert Waits(v, u);
    }
  }

  /** What a reply brings: the server's status, whether the image could be copied in whole, and
      the thread it was loaded into, 0 when loading failed. */
  datatype Outcome = Outcome(status: int, copied: bool, child: nat)

  predicate Image(o: Outcome) { o.status == 0 && o.copied }

  function ReplyFor(s: Slot, o: Outcome): Reply {
    if !Image(o) then NotFound
    else if o.child == 0 then NoMemory
    else if s.spawns then Started(o.child) else Replaced
  }

  /** The effect of a reply to slot i with generation gen. */
  function Completed(v: Sys, i: nat, gen: nat, o: Outcome): Sys
    requires |v.slots| == |v.lives|
  {
    if i >= |v.slots| || v.slots[i].phase != Delivered || v.slots[i].gen != gen then v
    else
      var s := v.slots[i];
      var made := if Image(o) && (s.requester == 0 || s.spawns) then o.child else 0;
      if s.requester == 0 then Polled(Born(v, made), i, made)
      else if s.requester !in v.threads || !v.threads[s.requester].waiting
        || v.threads[s.requester].slot != i then Freed(v, i)
      else Freed(Told(Born(v, made), s.requester, ReplyFor(s, o)), i)
  }

  lemma CompletedSound(v: Sys, i: nat, gen: nat, o: Outcome)
    requires Sound(v) && o.child !in v.threads
    ensures Sound(Completed(v, i, gen, o))
  {
    if !(i >= |v.slots| || v.slots[i].phase != Delivered || v.slots[i].gen != gen) {
      var s := v.slots[i];
      var made := if Image(o) && (s.requester == 0 || s.spawns) then o.child else 0;
      BornSound(v, made);
      var w := Born(v, made);
      if s.requester == 0 {
        PolledSound(w, i, made);
      } else if s.requester !in v.threads || !v.threads[s.requester].waiting || v.threads[s.requester].slot != i {
        OnlyRequester(v, i);
        FreedSound(v, i);
      } else {
        assert Waits(v, s.requester);
        ToldSound(w, s.requester, ReplyFor(s, o));
        OnlyRequester(Told(w, s.requester, ReplyFor(s, o)), i);
        FreedSound(Told(w, s.requester, ReplyFor(s, o)), i);
      }
    }
  }

  /** The thread that slot i names waits on it. */
  predicate WaitsOn(v: Sys, i: nat) {
    && i < |v.slots| && v.slots[i].requester in v.threads
    && v.threads[v.slots[i].requester].waiting && v.threads[v.slots[i].requester].slot == i
  }

  /** The request of slot i, and of no other, is over: the slot is free for a new generation, or for
      a polled request it keeps the answer. */
  ghost predicate Concludes(v: Sys, w: Sys, i: nat) {
    && i < |v.slots| == |w.slots| && (forall j :: 0 <= j < |v.slots| && j != i ==> w.slots[j] == v.slots[j])
    && (v.slots[i].requester == 0 ==> w.slots[i].phase == PollDone && w.slots[i].gen == v.slots[i].gen)
    && (v.slots[i].requester != 0 ==>
          w.slots[i].phase == Empty && w.slots[i].gen == (v.slots[i].gen + 1) % GENERATIONS)
    && forall t :: t in v.threads && t != v.slots[i].requester ==> t in w.threads && w.threads[t] == v.threads[t]
  }

  /** The answer to a polled request: the thread that was started, if one was. */
  ghost predicate PollAnswered(v: Sys, w: Sys, i: nat, o: Outcome) {
    && i < |w.slots|
    && (w.slots[i].child == 0 <==> o.status != 0 || !o.copied || o.child == 0)
    && (w.slots[i].child == 0 ==> w.threads == v.threads)
    && (w.slots[i].child != 0 ==>
          w.slots[i].child !in v.threads && w.threads == v.threads[o.child := Thread(false, 0, NoReply)]
          && w.slots[i].child == o.child)
  }

  /** What the requester learns is what happened to the threads. */
  ghost predicate Answered(v: Sys, w: Sys, i: nat, o: Outcome)
    requires i < |v.slots|
  {
    var r := v.slots[i].requester;
    && r in v.threads && r in w.threads && !w.threads[r].waiting && w.threads[r].slot == v.threads[r].slot
    && (forall k :: w.threads[r].reply == Started(k) <==> k !in v.threads && w.threads.Keys == v.threads.Keys + {k})
    && (forall k :: w.threads[r].reply == Started(k) ==> v.slots[i].spawns && w.threads[k] == Thread(false, 0, NoReply))
    && (!w.threads[r].reply.Started? ==> w.threads.Keys == v.threads.Keys)
    && (w.threads[r].reply == NotFound <==> o.status != 0 || !o.copied)
    && (w.threads[r].reply == NoMemory <==> o.status == 0 && o.copied && o.child == 0)
    && (w.threads[r].reply == Replaced <==> o.status == 0 && o.copied && o.child != 0 && !v.slots[i].spawns)
  }

  /** A reply does what it says, and nothing else. */
  lemma CompletedTells(v: Sys, i: nat, gen: nat, o: Outcome)
    requires Sound(v) && o.child !in v.threads
    requires i < SLOTS && v.slots[i].phase == Delivered && v.slots[i].gen == gen
    ensures var w := Completed(v, i, gen, o);
            && Concludes(v, w, i)
            && (v.slots[i].requester == 0 ==> PollAnswered(v, w, i, o))
            && (v.slots[i].requester != 0 && !WaitsOn(v, i) ==> w.threads == v.threads)
            && (v.slots[i].requester != 0 && WaitsOn(v, i) ==> Answered(v, w, i, o))
  {
    var w := Completed(v, i, gen, o);
    if v.slots[i].requester != 0 && WaitsOn(v, i) {
      forall k ensures w.threads[v.slots[i].requester].reply == Started(k) <==>
                       k !in v.threads && w.threads.Keys == v.threads.Keys + {k}
      {
        if k !in v.threads && w.threads.Keys == v.threads.Keys + {k} {
          assert k in w.threads.Keys;
        }
      }
    }
  }

  /** No thread but the one a slot names waits on it. */
  lemma OnlyRequester(v: Sys, i: nat)
    requires Sound(v) && i < SLOTS
    ensures forall t :: t in v.threads && v.threads[t].waiting && v.threads[t].slot == i ==> t == v.slots[i].requester
  {
    forall t | t in v.threads && v.threads[t].waiting && v.threads[t].slot == i ensures t == v.slots[i].requester {
      assert Waits(v, t);
    }
  }

  // ---- Old replies ---------------------------------------------------------------------------

  /** A reply names the generation its slot had when the request was delivered. After the slot was
      freed it still matches exactly when it was freed a multiple of 65536 times. */
  lemma StaleMatches(v: Sys, i: nat, life: nat)
    requires Sound(v) && i < SLOTS && life <= v.lives[i]
    ensures life % GENERATIONS == v.slots[i].gen <==> (v.lives[i] - life) % GENERATIONS == 0
  {
    assert SlotOk(v, i);
    SameGeneration(life, v.lives[i]);
  }

  /** State v comes after state u: slots are only freed, and one that was not still has the
      request it had. */
  ghost predicate Later(u: Sys, v: Sys) {
    && |v.slots| == |u.slots| == SLOTS && |v.lives| == |u.lives| == SLOTS && v.server == u.server
    && forall i :: 0 <= i < SLOTS ==> SlotLater(u, v, i)
  }

  ghost predicate SlotLater(u: Sys, v: Sys, i: nat)
    requires i < |u.slots| && i < |v.slots| && i < |u.lives| && i < |v.lives|
  {
    && v.lives[i] >= u.lives[i]
    && (v.lives[i] == u.lives[i] && u.slots[i].phase != Empty ==>
          && v.slots[i].requester == u.slots[i].requester && v.slots[i].spawns == u.slots[i].spawns
          && v.slots[i].phase != Empty && (u.slots[i].phase != Queued ==> v.slots[i].phase != Queued))
  }

  lemma LaterChain(u: Sys, v: Sys, w: Sys)
    requires Later(u, v) && Later(v, w)
    ensures Later(u, w)
  {
    forall i | 0 <= i < SLOTS ensures SlotLater(u, w, i) {
      assert SlotLater(u, v, i) && SlotLater(v, w, i);
    }
  }

  /** A reply to request (i, life), short of a wrap of the generation, changes only that request:
      it wakes no thread but the one that made it and still waits for it, and when the slot was
      freed since then it changes nothing. */
  lemma ReplyReachesItsRequest(u: Sys, v: Sys, i: nat, life: nat, o: Outcome)
    requires Sound(u) && Sound(v) && Later(u, v) && i < SLOTS
    requires u.slots[i].phase == Delivered && u.lives[i] == life && v.lives[i] - life < GENERATIONS
    requires o.child !in v.threads
    ensures v.lives[i] != life ==> Completed(v, i, life % GENERATIONS, o) == v
    ensures forall t :: t in v.threads && v.threads[t] != Completed(v, i, life % GENERATIONS, o).threads[t] ==>
              t == u.slots[i].requester && v.threads[t].waiting && v.threads[t].slot == i && v.asked[t] == life
  {
    assert SlotLater(u, v, i);
    StaleMatches(v, i, life);
    OnlyRequester(v, i);
    if v.lives[i] == life && v.slots[i].requester in v.threads && v.threads[v.slots[i].requester].waiting {
      assert Waits(v, v.slots[i].requester);
    }
  }

  /** After 65536 frees the old generation is back, and an old reply is taken for the new request. */
  lemma OldReplyAfterWrap(v: Sys, i: nat, o: Outcome)
    requires Sound(v) && i < SLOTS && v.slots[i].phase == Delivered && v.lives[i] >= GENERATIONS
    ensures Completed(v, i, (v.lives[i] - GENERATIONS) % GENERATIONS, o) == Completed(v, i, v.slots[i].gen, o) != v
  {
    StaleMatches(v, i, v.lives[i] - GENERATIONS);
  }

  lemma FreedLater(v: Sys, i: nat)
    requires |v.slots| == SLOTS == |v.lives| && i < SLOTS
    ensures Later(v, Freed(v, i))
  {
    forall j | 0 <= j < SLOTS ensures SlotLater(v, Freed(v, i), j) {}
  }

  lemma CompletedLater(v: Sys, i: nat, gen: nat, o: Outcome)
    requires |v.slots| == SLOTS == |v.lives|
    ensures Later(v, Completed(v, i, gen, o))
  {
    var w := Completed(v, i, gen, o);
    forall j | 0 <= j < SLOTS ensures SlotLater(v, w, j) {}
  }

  // ---- Freeing many slots --------------------------------------------------------------------

  function FreedSlot(s: Slot): Slot { s.(phase := Empty, gen := (s.gen + 1) % GENERATIONS) }

  /** A slot in use names the thread. */
  predicate Names(s: Slot, t: nat) { s.phase != Empty && s.requester == t }

  /** The slots in use that name thread t, below k, are freed. */
  function Dropped(v: Sys, t: nat, k: nat): (w: Sys)
    requires k <= |v.slots| == |v.lives|
    ensures |w.slots| == |v.slots| && |w.lives| == |v.lives|
  {
    if k == 0 then v
    else
      var w := Dropped(v, t, k - 1);
      if Names(v.slots[k - 1], t) then Freed(w, k - 1) else w
  }

  lemma {:induction false} DroppedAt(v: Sys, t: nat, k: nat)
    requires k <= SLOTS == |v.slots| == |v.lives|
    ensures Dropped(v, t, k).threads == v.threads && Dropped(v, t, k).server == v.server
    ensures Dropped(v, t, k).asked == v.asked
    ensures forall i :: 0 <= i < SLOTS ==>
              Dropped(v, t, k).slots[i] == if i < k && Names(v.slots[i], t) then FreedSlot(v.slots[i]) else v.slots[i]
  {
    if k > 0 {
      DroppedAt(v, t, k - 1);
    }
  }

  lemma {:induction false} DroppedSound(v: Sys, t: nat, k: nat)
    requires Sound(v) && k <= SLOTS && t in v.threads && !v.threads[t].waiting
    ensures Sound(Dropped(v, t, k)) && Later(v, Dropped(v, t, k))
  {
    DroppedAt(v, t, k);
    if k > 0 {
      DroppedSound(v, t, k - 1);
      DroppedAt(v, t, k - 1);
      var w := Dropped(v, t, k - 1);
      if Names(v.slots[k - 1], t) {
        OnlyRequester(w, k - 1);
        FreedSound(w, k - 1);
        FreedLater(w, k - 1);
        LaterChain(v, w, Freed(w, k - 1));
      }
    } else {
      forall i | 0 <= i < SLOTS ensures SlotLater(v, v, i) {}
    }
  }

  /** Slot i fails: a thread that waits on it is told so. */
  function FailedOne(v: Sys, i: nat): Sys
    requires i < |v.slots| && i < |v.lives|
  {
    var r := v.slots[i].requester;
    if v.slots[i].phase == Empty then v
    else if r in v.threads && v.threads[r].waiting && v.threads[r].slot == i then Freed(Told(v, r, NotFound), i)
    else Freed(v, i)
  }

  function Failed(v: Sys, k: nat): (w: Sys)
    requires k <= |v.slots| == |v.lives|
    ensures |w.slots| == |v.slots| && |w.lives| == |v.lives|
  {
    if k == 0 then v else FailedOne(Failed(v, k - 1), k - 1)
  }

  lemma FailedOneSound(v: Sys, i: nat)
    requires Sound(v) && i < SLOTS
    ensures Sound(FailedOne(v, i)) && Later(v, FailedOne(v, i)) && FailedOne(v, i).slots[i].phase == Empty
    ensures FailedOne(v, i).threads.Keys == v.threads.Keys
    ensures forall j :: 0 <= j < SLOTS && j != i ==> FailedOne(v, i).slots[j] == v.slots[j]
  {
    OnlyRequester(v, i);
    var r := v.slots[i].requester;
    forall j | 0 <= j < SLOTS ensures SlotLater(v, FailedOne(v, i), j) {}
    if v.slots[i].phase != Empty {
      if r in v.threads && v.threads[r].waiting && v.threads[r].slot == i {
        ToldSound(v, r, NotFound);
        FreedSound(Told(v, r, NotFound), i);
      } else {
        FreedSound(v, i);
      }
    }
  }

  /** When the server goes every request fails: the slots are free and nobody waits any more. */
  lemma {:induction false} FailedSound(v: Sys, k: nat)
    requires Sound(v) && k <= SLOTS
    ensures Sound(Failed(v, k)) && Later(v, Failed(v, k)) && Failed(v, k).threads.Keys == v.threads.Keys
    ensures forall i :: 0 <= i < k ==> Failed(v, k).slots[i].phase == Empty
    ensures k == SLOTS ==> forall t :: t in v.threads ==> !Failed(v, k).threads[t].waiting
  {
    if k == 0 {
      forall i | 0 <= i < SLOTS ensures SlotLater(v, v, i) {}
    } else {
      FailedSound(v, k - 1);
      FailedOneSound(Failed(v, k - 1), k - 1);
      LaterChain(v, Failed(v, k - 1), Failed(v, k));
    }
    if k == SLOTS {
      hide SlotOk, Later;
      forall t | t in v.threads ensures !Failed(v, k).threads[t].waiting {
        assert Failed(v, k).threads[t].waiting ==> Waits(Failed(v, k), t);
      }
    }
  }

  /** Slot i once its request, if it has one, was given up. */
  predicate GivenUp(s: Slot, s': Slot) {
    if s.phase == Empty then s' == s else s' == s.(phase := Empty, gen := (s.gen + 1) % GENERATIONS)
  }

  lemma FailedOneAt(v: Sys, i: nat)
    requires i < |v.slots| == |v.lives|
    requires forall t :: t in v.threads && v.threads[t].waiting && v.threads[t].slot == i ==>
               t == v.slots[i].requester && v.slots[i].phase != Empty
    ensures var w := FailedOne(v, i);
            && w.threads.Keys == v.threads.Keys && |w.slots| == |v.slots|
            && (forall t :: t in v.threads ==>
                  w.threads[t] == if v.threads[t].waiting && v.threads[t].slot == i
                                  then v.threads[t].(waiting := false, reply := NotFound) else v.threads[t])
            && GivenUp(v.slots[i], w.slots[i])
            && forall j :: 0 <= j < |v.slots| && j != i ==> w.slots[j] == v.slots[j]
  {
  }

  /** Each thread that waits on a slot below k learns that its program was not found; nothing else
      changes. */
  lemma {:induction false} FailedAt(v: Sys, k: nat)
    requires Sound(v) && k <= SLOTS
    ensures var w := Failed(v, k);
            && w.threads.Keys == v.threads.Keys
            && (forall t :: t in v.threads ==>
                  w.threads[t] == if v.threads[t].waiting && v.threads[t].slot < k
                                  then v.threads[t].(waiting := false, reply := NotFound) else v.threads[t])
            && forall j :: 0 <= j < SLOTS ==>
                 if j < k then GivenUp(v.slots[j], w.slots[j]) else w.slots[j] == v.slots[j]
  {
    if k > 0 {
      FailedAt(v, k - 1);
      OnlyRequester(v, k - 1);
      assert forall t :: t in v.threads && v.threads[t].waiting ==> Waits(v, t);
      hide Sound, GivenUp, FailedOne;
      FailedOneAt(Failed(v, k - 1), k - 1);
    }
  }

  /** A thread that no slot in use names is gone. */
  lemma GoneSound(v: Sys, t: nat)
    requires Sound(v) && t in v.threads && !v.threads[t].waiting
    requires forall i :: 0 <= i < SLOTS && v.slots[i].phase != Empty ==> v.slots[i].requester != t
    requires t == v.server ==> forall i :: 0 <= i < SLOTS ==> v.slots[i].phase == Empty
    ensures Sound(v.(threads := v.threads - {t}))
  {
    var w := v.(threads := v.threads - {t});
    forall j | 0 <= j < SLOTS ensures SlotOk(w, j) {
      assert SlotOk(v, j);
    }
    forall u | u in w.threads && w.threads[u].waiting ensures Waits(w, u) {
      assert Waits(v, u);
    }
  }

  // ---- The kernel's table --------------------------------------------------------------------

  datatype Event =
    | Submit(t: nat, spawns: bool)
    | SubmitPoll
    | FinishPoll(slot: nat, gen: nat)
    | TryDeliver
    | Complete(slot: nat, gen: nat, outcome: Outcome)
    | Signal(t: nat)
    | Create(t: nat)
    | Terminate(t: nat)

  /** What an event does to the table, where it can happen. */
  ghost predicate Did(e: Event, ready: bool, v: Sys, w: Sys) {
    && |v.slots| == |w.slots| == SLOTS == |v.lives|
    && match e
       case Submit(t, spawns) =>
         t in v.threads && !v.threads[t].waiting ==> AskedBy(v, w, t, spawns, ready)
       case SubmitPoll => AskedBy(v, w, 0, true, ready)
       case FinishPoll(i, gen) => Done(v, i, gen) ==> w.slots[i].phase == Empty
       case TryDeliver =>
         (exists i :: 0 <= i < SLOTS && v.slots[i].phase == Queued) ==>
           exists i :: 0 <= i < SLOTS && v.slots[i].phase == Queued
             && w.slots == v.slots[i := v.slots[i].(phase := Delivered)]
       case Complete(i, gen, o) =>
         o.child !in v.threads && i < SLOTS && v.slots[i].phase == Delivered && v.slots[i].gen == gen ==>
           && Concludes(v, w, i) && (WaitsOn(v, i) && v.slots[i].requester != 0 ==> Answered(v, w, i, o))
       case Signal(t) => t in v.threads ==> t in w.threads && !w.threads[t].waiting
       case Create(t) => t != 0 ==> t in w.threads
       case Terminate(t) => t !in w.threads
  }

  /** A request is made, if the server is there and a slot is free. */
  ghost predicate AskedBy(v: Sys, w: Sys, t: nat, spawns: bool, ready: bool) {
    v.server in v.threads && (exists i :: 0 <= i < |v.slots| && v.slots[i].phase == Empty) ==>
      exists i :: 0 <= i < |v.slots| == |w.slots| && v.slots[i].phase == Empty && w.slots[i].requester == t
        && w.slots[i].spawns == spawns && w.slots[i].phase == (if ready then Delivered else Queued)
        && (t != 0 ==> t in w.threads && w.threads[t] == Thread(true, i, NoReply))
  }

  class Requests {
    const server: nat
    var slots: seq<Slot>
    var threads: map<nat, Thread>
    ghost var lives: seq<nat>
    ghost var asked: map<nat, nat>

    ghost function V(): Sys
      reads this
    {
      Sys(server, slots, threads, lives, asked)
    }

    constructor (server: nat)
      requires server != 0
      ensures Sound(V()) && this.server == server && threads == map[server := Thread(false, 0, NoReply)]
      ensures forall i :: 0 <= i < SLOTS ==> slots[i].phase == Empty && slots[i].gen == 0
    {
      this.server := server;
      slots := seq(SLOTS, _ => Slot(Empty, 0, 0, false, 0));
      threads := map[server := Thread(false, 0, NoReply)];
      lives := seq(SLOTS, _ => 0);
      asked := map[];
      new;
      forall i | 0 <= i < SLOTS ensures SlotOk(V(), i) {}
    }

    /** The first free slot, or SLOTS. */
    method AllocSlot() returns (i: nat)
      requires |slots| == SLOTS
      ensures i <= SLOTS && (i < SLOTS ==> slots[i].phase == Empty)
      ensures forall j :: 0 <= j < i ==> slots[j].phase != Empty
    {
      i := 0;
      while i < SLOTS
        invariant i <= SLOTS && forall j :: 0 <= j < i ==> slots[j].phase != Empty
      {
        if slots[i].phase == Empty {
          return;
        }
        i := i + 1;
      }
    }

    method FreeSlot(i: nat)
      requires i < |slots| == |lives|
      modifies this
      ensures V() == Freed(old(V()), i) && threads == old(threads)
      ensures slots == old(slots)[i := old(slots)[i].(phase := Empty, gen := (old(slots)[i].gen + 1) % GENERATIONS)]
    {
      slots := slots[i := slots[i].(phase := Empty, gen := (slots[i].gen + 1) % GENERATIONS)];
      lives := lives[i := lives[i] + 1];
    }

    /** A thread, or the kernel as t == 0, asks for a program. The request goes to the server at
        once when it is ready to receive from anyone. */
    method SubmitRequest(t: nat, spawns: bool, ready: bool) returns (i: nat)
      requires Sound(V()) && (t == 0 || (t in threads && !threads[t].waiting))
      modifies this
      ensures Sound(V()) && Later(old(V()), V()) && i <= SLOTS
      ensures i == SLOTS <==> server !in old(threads) || forall j :: 0 <= j < SLOTS ==> old(slots)[j].phase != Empty
      ensures i == SLOTS ==> V() == old(V())
      ensures i < SLOTS ==> old(slots)[i].phase == Empty
      ensures i < SLOTS ==> forall j :: 0 <= j < i ==> old(slots)[j].phase != Empty
      ensures i < SLOTS ==>
                && slots[i].phase == (if ready then Delivered else Queued) && slots[i].gen == old(slots)[i].gen
                && slots[i].requester == t && slots[i].spawns == spawns && (t == 0 ==> slots[i].child == 0)
                && forall j :: 0 <= j < SLOTS && j != i ==> slots[j] == old(slots)[j]
      ensures i < SLOTS ==> threads == if t == 0 then old(threads) else old(threads)[t := Thread(true, i, NoReply)]
    {
      hide SlotOk, Waits, Later;
      LaterSelf(V());
      if server !in threads {
        return SLOTS;
      }
      i := AllocSlot();
      if i == SLOTS {
        return;
      }
      AskedSound(V(), i, t, spawns, if ready then Delivered else Queued);
      AskedLater(V(), i, t, spawns, if ready then Delivered else Queued);
      slots := slots[i := slots[i].(phase := Queued, requester := t, spawns := spawns)];
      if t == 0 {
        slots := slots[i := slots[i].(child := 0)];
      } else {
        threads := threads[t := Thread(true, i, NoReply)];
        asked := asked[t := lives[i]];
      }
      if ready {
        slots := slots[i := slots[i].(phase := Delivered)];
      }
      assert slots == Asked(old(V()), i, t, spawns, if ready then Delivered else Queued).slots;
    }

    /** 1 when a polled request is done, 0 when it is not, -1 when there is no such request. */
    method PollReady(i: nat, gen: nat) returns (r: int)
      requires Sound(V())
      ensures r == -1 <==> i >= SLOTS || slots[i].phase == Empty || lives[i] % GENERATIONS != gen
      ensures r == 1 ==> slots[i].phase == PollDone && slots[i].requester == 0
      ensures r == 0 ==> Open(slots[i].phase)
      ensures -1 <= r <= 1
    {
      assert i < SLOTS ==> SlotOk(V(), i);
      if i >= SLOTS || slots[i].phase == Empty || slots[i].gen != gen {
        return -1;
      }
      r := if slots[i].phase == PollDone then 1 else 0;
    }

    /** Takes the child of a polled request that is done; 0 is none. */
    method FinishPollSpawn(i: nat, gen: nat) returns (child: nat)
      requires Sound(V())
      modifies this
      ensures Sound(V()) && Later(old(V()), V())
      ensures Done(old(V()), i, gen) ==>
                && slots == old(slots)[i := slots[i]] && slots[i].phase == Empty && threads == old(threads)
                && slots[i].gen == (gen + 1) % GENERATIONS
      ensures !Done(old(V()), i, gen) ==> V() == old(V())
      ensures child == if Done(old(V()), i, gen) then old(slots)[i].child else 0
    {
      LaterSelf(V());
      assert i < SLOTS ==> SlotOk(V(), i);
      if i >= SLOTS || slots[i].gen != gen || slots[i].phase != PollDone {
        return 0;
      }
      child := slots[i].child;
      OnlyRequester(V(), i);
      FreedSound(V(), i);
      FreedLater(V(), i);
      FreeSlot(i);
    }

    /** Hands the first queued request to the server; SLOTS is none. */
    method TryDeliverQueued() returns (i: nat, gen: nat)
      requires Sound(V())
      modifies this
      ensures Sound(V()) && Later(old(V()), V()) && i <= SLOTS
      ensures forall j :: 0 <= j < i ==> old(slots)[j].phase != Queued
      ensures i < SLOTS ==> old(slots)[i].phase == Queued && gen == lives[i] % GENERATIONS
      ensures threads == old(threads) && lives == old(lives) && asked == old(asked)
      ensures slots == if i < SLOTS then old(slots)[i := old(slots)[i].(phase := Delivered)] else old(slots)
    {
      hide Waits;
      LaterSelf(V());
      i, gen := 0, 0;
      while i < SLOTS
        invariant i <= SLOTS && V() == old(V()) && forall j :: 0 <= j < i ==> slots[j].phase != Queued
      {
        if slots[i].phase == Queued {
          DeliveredSound(V(), i);
          assert SlotOk(V(), i);
          slots := slots[i := slots[i].(phase := Delivered)];
          gen := slots[i].gen;
          forall j | 0 <= j < SLOTS ensures SlotLater(old(V()), V(), j) {}
          return;
        }
        i := i + 1;
      }
    }

    /** The server replies to a request. */
    method CompleteRequest(i: nat, gen: nat, o: Outcome)
      requires Sound(V()) && o.child !in threads
      modifies this
      ensures Sound(V()) && Later(old(V()), V()) && V() == Completed(old(V()), i, gen, o)
      ensures !(i < SLOTS && old(slots)[i].phase == Delivered && old(slots)[i].gen == gen) ==> V() == old(V())
      ensures i < SLOTS && old(slots)[i].phase == Delivered && old(slots)[i].gen == gen ==>
                && Concludes(old(V()), V(), i)
                && (old(slots)[i].requester == 0 ==> PollAnswered(old(V()), V(), i, o))
                && (old(slots)[i].requester != 0 && !WaitsOn(old(V()), i) ==> threads == old(threads))
                && (old(slots)[i].requester != 0 && WaitsOn(old(V()), i) ==> Answered(old(V()), V(), i, o))
    {
      CompletedSound(V(), i, gen, o);
      CompletedLater(V(), i, gen, o);
      if i < SLOTS && slots[i].phase == Delivered && slots[i].gen == gen {
        CompletedTells(V(), i, gen, o);
      }
      hide Sound, Later;
      if i >= SLOTS || slots[i].phase != Delivered || slots[i].gen != gen {
        return;
      }
      var s := slots[i];
      if s.requester == 0 {
        var child := if Image(o) then o.child else 0;
        if child != 0 {
          threads := threads[child := Thread(false, 0, NoReply)];
        }
        slots := slots[i := s.(phase := PollDone, child := child)];
        return;
      }
      if s.requester !in threads || !threads[s.requester].waiting || threads[s.requester].slot != i {
        FreeSlot(i);
        return;
      }
      if Image(o) && s.spawns && o.child != 0 {
        threads := threads[o.child := Thread(false, 0, NoReply)];
      }
      threads := threads[s.requester := threads[s.requester].(waiting := false, reply := ReplyFor(s, o))];
      FreeSlot(i);
    }

    /** Frees every request of thread t. */
    method CancelRequester(t: nat)
      requires |slots| == SLOTS == |lives|
      modifies this
      ensures V() == Dropped(old(V()), t, SLOTS) && threads == old(threads)
      ensures forall j :: 0 <= j < SLOTS ==>
                if old(slots)[j].requester == t then GivenUp(old(slots)[j], slots[j]) else slots[j] == old(slots)[j]
    {
      var i := 0;
      while i < SLOTS
        invariant i <= SLOTS && |slots| == SLOTS == |lives| && V() == Dropped(old(V()), t, i)
      {
        DroppedAt(old(V()), t, i);
        if slots[i].phase != Empty && slots[i].requester == t {
          FreeSlot(i);
        }
        i := i + 1;
      }
      DroppedAt(old(V()), t, SLOTS);
    }

    /** Fails every request. */
    method FailAll()
      requires |slots| == SLOTS == |lives|
      modifies this
      ensures V() == Failed(old(V()), SLOTS)
      ensures old(Sound(V())) ==>
                && threads.Keys == old(threads).Keys
                && (forall t :: t in threads ==>
                      threads[t] == if old(threads)[t].waiting
                                    then old(threads)[t].(waiting := false, reply := NotFound) else old(threads)[t])
                && forall j :: 0 <= j < SLOTS ==> GivenUp(old(slots)[j], slots[j])
    {
      if Sound(V()) {
        FailedAt(V(), SLOTS);
        assert forall t :: t in threads && threads[t].waiting ==> Waits(V(), t);
      }
      hide SlotOk, Waits;
      var i := 0;
      while i < SLOTS
        invariant i <= SLOTS && |slots| == SLOTS == |lives| && V() == Failed(old(V()), i)
      {
        if slots[i].phase != Empty {
          var r := slots[i].requester;
          if r in threads && threads[r].waiting && threads[r].slot == i {
            threads := threads[r := threads[r].(waiting := false, reply := NotFound)];
          }
          FreeSlot(i);
        }
        i := i + 1;
      }
    }

    /** A thread ends: its requests are freed, and all of them fail when it was the server. */
    method TerminateThread(t: nat)
      requires Sound(V()) && t in threads
      modifies this
      ensures Sound(V()) && Later(old(V()), V()) && threads.Keys == old(threads).Keys - {t}
      ensures forall i :: 0 <= i < SLOTS ==> !Names(slots[i], t)
      ensures t == server ==> forall u :: u in threads ==> !threads[u].waiting
      ensures forall u :: u in threads ==>
                threads[u] == if t == server && old(threads)[u].waiting
                              then old(threads)[u].(waiting := false, reply := NotFound) else old(threads)[u]
      ensures forall j :: 0 <= j < SLOTS ==>
                if t == server || old(slots)[j].requester == t then GivenUp(old(slots)[j], slots[j])
                else slots[j] == old(slots)[j]
    {
      ghost var v0 := V();
      ToldSound(V(), t, threads[t].reply);
      ToldLater(V(), t, threads[t].reply);
      threads := threads[t := threads[t].(waiting := false)];
      ghost var v1 := V();
      DroppedSound(v1, t, SLOTS);
      DroppedAt(v1, t, SLOTS);
      LaterChain(v0, v1, Dropped(v1, t, SLOTS));
      hide Sound, Later;
      CancelRequester(t);
      ghost var v2 := V();
      if t == server {
        FailedSound(v2, SLOTS);
        LaterChain(v0, v2, Failed(v2, SLOTS));
        SoundSizes(v2);
        FailAll();
      }
      ghost var v3 := V();
      SoundSizes(v3);
      GoneSound(v3, t);
      SameSlotsLater(v0, v3, v3.(threads := v3.threads - {t}));
      threads := threads - {t};
    }

    /** A signal makes a waiting thread run again; its request stays with the server. */
    method SignalThread(t: nat)
      requires Sound(V()) && t in threads
      modifies this
      ensures Sound(V()) && Later(old(V()), V())
      ensures threads == old(threads)[t := old(threads)[t].(waiting := false)] && slots == old(slots)
    {
      ToldSound(V(), t, threads[t].reply);
      ToldLater(V(), t, threads[t].reply);
      threads := threads[t := threads[t].(waiting := false)];
    }

    method CreateThread(t: nat)
      requires Sound(V()) && t !in threads && t != 0
      modifies this
      ensures Sound(V()) && Later(old(V()), V())
      ensures threads == old(threads)[t := Thread(false, 0, NoReply)] && slots == old(slots)
    {
      BornSound(V(), t);
      LaterSelf(V());
      SameSlotsLater(V(), V(), Born(V(), t));
      threads := threads[t := Thread(false, 0, NoReply)];
    }

    /** One event; those that cannot happen now are passed over. */
    method Step(e: Event, ready: bool)
      requires Sound(V())
      modifies this
      ensures Sound(V()) && Later(old(V()), V()) && Did(e, ready, old(V()), V())
    {
      hide Sound, Later, Concludes, Answered, GivenUp;
      SoundSizes(V());
      LaterSelf(V());
      match e {
        case Submit(t, spawns) =>
          if t in threads && !threads[t].waiting {
            var _ := SubmitRequest(t, spawns, ready);
          }
        case SubmitPoll => var _ := SubmitRequest(0, true, ready);
        case FinishPoll(i, gen) => var _ := FinishPollSpawn(i, gen);
        case TryDeliver => var _, _ := TryDeliverQueued();
        case Complete(i, gen, o) =>
          if o.child !in threads {
            CompleteRequest(i, gen, o);
          }
        case Signal(t) =>
          if t in threads {
            SignalThread(t);
          }
        case Create(t) =>
          if t !in threads && t != 0 {
            CreateThread(t);
          }
        case Terminate(t) =>
          if t in threads {
            TerminateThread(t);
          }
      }
      SoundSizes(V());
    }

    /** In every run each event does what it is for, the table stays sound, and no slot goes back to an
        earlier request. */
    method Run(events: seq<(Event, bool)>) returns (ghost trace: seq<Sys>)
      requires Sound(V())
      modifies this
      ensures Sound(V()) && Later(old(V()), V())
      ensures |trace| == |events| + 1 && trace[0] == old(V()) && trace[|events|] == V()
      ensures forall k :: 0 <= k < |events| ==> Did(events[k].0, events[k].1, trace[k], trace[k + 1])
    {
      hide Sound, Later, Did;
      SoundSizes(V());
      LaterSelf(V());
      trace := [V()];
      var i := 0;
      while i < |events|
        invariant 0 <= i <= |events| && Sound(V()) && Later(old(V()), V())
        invariant |trace| == i + 1 && trace[0] == old(V()) && trace[i] == V()
        invariant forall k :: 0 <= k < i ==> Did(events[k].0, events[k].1, trace[k], trace[k + 1])
      {
        ghost var v := V();
        Step(events[i].0, events[i].1);
        LaterChain(old(V()), v, V());
        trace := trace + [V()];
        i := i + 1;
      }
    }
  }

  ghost predicate Done(v: Sys, i: nat, gen: nat) {
    i < SLOTS == |v.slots| == |v.lives| && v.slots[i].phase == PollDone && v.lives[i] % GENERATIONS == gen
  }

  lemma SoundSizes(v: Sys)
    requires Sound(v)
    ensures |v.slots| == SLOTS == |v.lives| && 0 !in v.threads
  {
  }

  lemma ToldLater(v: Sys, t: nat, r: Reply)
    requires |v.slots| == SLOTS == |v.lives| && t in v.threads
    ensures Later(v, Told(v, t, r))
  {
    forall i | 0 <= i < SLOTS ensures SlotLater(v, Told(v, t, r), i) {}
  }

  lemma SameSlotsLater(u: Sys, v: Sys, w: Sys)
    requires Later(u, v) && w.slots == v.slots && w.lives == v.lives && w.server == v.server
    ensures Later(u, w)
  {
    forall i | 0 <= i < SLOTS ensures SlotLater(u, w, i) {
      assert SlotLater(u, v, i);
    }
  }

  lemma LaterSelf(v: Sys)
    requires |v.slots| == SLOTS == |v.lives|
    ensures Later(v, v)
  {
    forall i | 0 <= i < SLOTS ensures SlotLater(v, v, i) {}
  }

  lemma AskedLater(v: Sys, i: nat, t: nat, spawns: bool, p: Phase)
    requires |v.slots| == SLOTS == |v.lives| && i < SLOTS && v.slots[i].phase == Empty
    ensures Later(v, Asked(v, i, t, spawns, p))
  {
    forall j | 0 <= j < SLOTS ensures SlotLater(v, Asked(v, i, t, spawns, p), j) {}
  }
}
