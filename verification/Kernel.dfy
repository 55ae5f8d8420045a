/** The scheduler and synchronous IPC of the kernel: one thread table, per-priority ready
    queues under a bitmap, a wake inbox, per-thread send queues, sleepers and timers, and
    several CPUs taking turns under one lock. */
module Kernel {
  import opened Common
  import opened IntrusiveList
  import opened Threads
  import opened Scheduling
  import opened Timekeeping
  import opened Messages
  import opened Wakeups
  import opened Periods

  const TIMESLICE: int := 5
  const MAX_ARM: int := 500

  class Kernel {
    // Thread control blocks, field by field.
    var state: seq<State>
    var prio: seq<int>
    var timeslice: seq<int>
    var frame: seq<Frame>
    var partner: seq<int>
    var recvAfter: seq<int>
    var buffer: seq<seq<int>>
    var pager: seq<int>
    var parent: seq<int>
    var waitFilter: seq<int>
    // The lists threaded through them.
    var ready: ReadyList
    var wake: WakeList
    var send: SendLists
    // Per CPU: the current thread (NIL for the idle thread), the reschedule flag, the timer.
    var current: seq<int>
    var need: seq<bool>
    var armed: seq<int>
    var clock: Clock
    ghost var lists: Lists

    ghost predicate Shape()
      reads `timeslice, `frame, `recvAfter, `pager, `parent, `waitFilter, `current, `need, `armed
    {
      && |timeslice| == |frame| == |recvAfter| == |pager| == |parent| == |waitFilter| == THREADS
      && |current| == |need| == |armed| > 0
    }

    ghost function V(): View
      reads `state, `prio, `partner, `buffer, `ready, `wake, `send, `current, `lists
    {
      View(state, prio, partner, buffer, ready, wake, send, current, lists)
    }

    ghost function M(): Mail
      reads `state, `partner, `recvAfter, `frame, `lists
    {
      Mail(state, partner, recvAfter, frame, lists)
    }

    ghost function S(): Snap
      reads this
    {
      Snap(V(), M(), clock, need, armed, pager, parent, waitFilter)
    }

    ghost predicate Inv(c: int)
      reads this
    {
      Shape() && CoreOk(V(), c, {}) && Timely(clock, state)
    }

    /** Every thread slot is dead and every CPU idles. */
    constructor (cpus: nat, timers: nat, notifications: nat)
      requires cpus > 0
      ensures Inv(-1) && |current| == cpus && |clock.timers| == timers && |clock.notifs| == notifications
    {
      state, prio, timeslice := Fill(THREADS, Dead), Fill(THREADS, 0), Fill(THREADS, 0);
      frame := Fill(THREADS, Frame([], 0, 0));
      partner, recvAfter, buffer := Fill(THREADS, 0), Fill(THREADS, 0), Fill(THREADS, []);
      pager, parent, waitFilter := Fill(THREADS, 0), Fill(THREADS, 0), Fill(THREADS, 0);
      ready, wake, send := NoReady(), WakeList(Fill(THREADS, NIL), NIL), NoSends();
      current, need, armed := Fill(cpus, NIL), Fill(cpus, false), Fill(cpus, 0);
      clock := Clock(Fill(THREADS, 0), 0, NEVER, Fill(timers, Timer(false, 0, 0, 0, 0)),
                     Fill(notifications, Notification(0, 0)));
      lists := EmptyLists();
      new;
      hide CoreOk, EmptyLists, NoReady, NoSends;
      EmptyCore(cpus);
    }

    // ---- Ready queues and the inbox -----------------------------------------------------------

    method RqPush(t: int)
      requires ReadyOk(prio, ready, lists.rq) && Tid(t)
      modifies `ready, `lists
      ensures ReadyOk(prio, ready, lists.rq)
      ensures old(ready.inRq[t]) ==> lists == old(lists) && ready == old(ready)
      ensures !old(ready.inRq[t]) ==>
                && ready.inRq == old(ready.inRq)[t := true]
                && lists == old(lists).(rq := old(lists.rq)[prio[t] := old(lists.rq)[prio[t]] + [t]])
    {
      hide ReadyOk;
      ReadySizes(prio, ready, lists.rq);
      if ready.inRq[t] {
        return;
      }
      ReadyPush(prio, ready, lists.rq, t);
      var r := ready.(inRq := ready.inRq[t := true], next := ready.next[t := NIL]);
      var p := prio[t];
      if r.tail[p] != NIL {
        r := r.(next := r.next[r.tail[p] := t]);
      } else {
        r := r.(head := r.head[p := t]);
      }
      ready := r.(tail := r.tail[p := t], bits := r.bits[p := true]);
      lists := lists.(rq := lists.rq[p := lists.rq[p] + [t]]);
    }

    /** Takes the head of queue p off. */
    method RqUnlinkHead(p: nat) returns (t: int, ghost rest: seq<int>)
      requires ReadyOk(prio, ready, lists.rq) && p < PRIOS && ready.bits[p]
      modifies `ready, `lists
      ensures ReadyOk(prio, ready, lists.rq)
      ensures old(lists.rq)[p] == [t] + rest && Tid(t) && old(ready.inRq)[t] && prio[t] == p
      ensures ready.inRq == old(ready.inRq)[t := false] && lists == old(lists).(rq := old(lists.rq)[p := rest])
    {
      hide ReadyOk;
      ReadyPop(prio, ready, lists.rq, p);
      ReadySizes(prio, ready, lists.rq);
      t := ready.head[p];
      rest := lists.rq[p][1..];
      var r := ready.(head := ready.head[p := ready.next[t]]);
      if r.tail[p] == t {
        r := r.(tail := r.tail[p := NIL]);
      }
      if r.head[p] == NIL {
        r := r.(bits := r.bits[p := false]);
      }
      ready := r.(inRq := r.inRq[t := false], next := r.next[t := NIL]);
      lists := lists.(rq := lists.rq[p := rest]);
    }

    /** The highest priority whose bit is set, or -1. */
    method HighestBit() returns (p: int)
      requires |ready.bits| == PRIOS
      ensures -1 <= p < PRIOS && (p >= 0 ==> ready.bits[p])
      ensures forall o :: p < o < PRIOS ==> !ready.bits[o]
    {
      p := PRIOS - 1;
      while p >= 0 && !ready.bits[p]
        invariant -1 <= p < PRIOS
        invariant forall o :: p < o < PRIOS ==> !ready.bits[o]
      {
        p := p - 1;
      }
    }

    /** The first ready thread of the highest priority that has one; stale entries in front of
        it are dropped. */
    method RqPopHighest() returns (next: int)
      requires ReadyOk(prio, ready, lists.rq) && |state| == THREADS
      modifies `ready, `lists
      ensures ReadyOk(prio, ready, lists.rq) && lists == old(lists).(rq := lists.rq)
      ensures Popped(Search(state, prio, old(ready.inRq), old(lists.rq)), ready.inRq, lists.rq, next)
    {
      hide ReadyOk, Dropping, Popped, RankOf;
      ReadySizes(prio, ready, lists.rq);
      ghost var g := Search(state, prio, ready.inRq, lists.rq);
      DroppingNone(g);
      var p := HighestBit();
      while p >= 0
        invariant -1 <= p < PRIOS && |ready.bits| == PRIOS && (p >= 0 ==> ready.bits[p])
        invariant forall o :: p < o < PRIOS ==> !ready.bits[o]
        invariant ReadyOk(prio, ready, lists.rq) && lists == old(lists).(rq := lists.rq)
        invariant Dropping(g, ready.inRq, lists.rq)
        decreases RankOf(lists.rq)
      {
        ReadySizes(prio, ready, lists.rq);
        ghost var r, rq := ready, lists.rq;
        ghost var rest;
        next, rest := RqUnlinkHead(p);
        RankDrops(rq, p, next, rest);
        if state[next].Ready? {
          PopStep(g, r, rq, p, next, rest);
          return;
        }
        DropMore(g, r.inRq, rq, p, next, rest);
        ReadySizes(prio, ready, lists.rq);
        p := HighestBit();
      }
      next := NIL;
      DropEnd(g, ready, lists.rq);
    }

    /** Wakes t unless it is dead, running or already in a ready queue: a woken thread goes to
        the front of the inbox. */
    method Wake(c: nat, t: int, ghost but: set<int>)
      requires CoreOk(V(), c, but) && c < |current| == |need| && Tid(t) && !lists.inIb[t] && !lists.inSq[t]
      modifies `state, `wake, `lists, `need
      ensures |old(state)| == |old(lists.inIb)| == |old(ready.inRq)| == THREADS
      ensures !Wakes(old(state), old(ready.inRq), t) ==>
                state == old(state) && lists == old(lists) && CoreOk(V(), c, but) && need == old(need)
      ensures Wakes(old(state), old(ready.inRq), t) ==>
                && state == old(state)[t := Ready]
                && lists == old(lists).(ib := [t] + old(lists.ib), inIb := old(lists.inIb)[t := true])
                && CoreOk(V(), c, but - {t}) && (but == {} ==> CoreOk(V(), c, {}))
                && need == Urged(old(need), prio, current, c, t)
      ensures |need| == |old(need)|
    {
      hide CoreOk;
      CoreSizes(V(), c, but);
      CpuThread(V(), c, but, c);
      CorePlaced(V(), c, but, t);
      if state[t].Dead? || state[t].Running? || state[t].Zombie? {
        return;
      }
      if state[t].Ready? && ready.inRq[t] {
        return;
      }
      CoreWake(V(), c, but, t);
      state := state[t := Ready];
      wake := WakeList(wake.next[t := wake.first], t);
      lists := lists.(ib := [t] + lists.ib, inIb := lists.inIb[t := true]);
      if prio[t] > (if current[c] == NIL then 0 else prio[current[c]]) {
        need := need[c := true];
      }
    }

    /** Moves the front of a detached inbox to its ready queue, unless it stopped being ready. */
    method DrainOne(list: int) returns (next: int)
      requires ReadyOk(prio, ready, lists.rq) && InboxOk(lists.inIb, WakeList(wake.next, list), lists.ib)
      requires |state| == THREADS && list != NIL && !ready.inRq[list]
      modifies `ready, `wake, `lists
      ensures ReadyOk(prio, ready, lists.rq) && InboxOk(lists.inIb, WakeList(wake.next, next), lists.ib)
      ensures wake.first == old(wake.first) && |old(lists.ib)| > 0 && list == old(lists.ib)[0]
      ensures ready.inRq == if state[list].Ready? then old(ready.inRq)[list := true] else old(ready.inRq)
      ensures lists == old(lists).(ib := old(lists.ib)[1..], inIb := old(lists.inIb)[list := false],
                                   rq := if state[list].Ready?
                                         then old(lists.rq)[prio[list] := old(lists.rq)[prio[list]] + [list]]
                                         else old(lists.rq))
    {
      hide ReadyOk, InboxOk;
      ReadySizes(prio, ready, lists.rq);
      InboxSizes(lists.inIb, WakeList(wake.next, list), lists.ib);
      InboxPop(lists.inIb, WakeList(wake.next, list), lists.ib);
      next := wake.next[list];
      wake := wake.(next := wake.next[list := NIL]);
      lists := lists.(inIb := lists.inIb[list := false], ib := lists.ib[1..]);
      if state[list].Ready? {
        RqPush(list);
      }
    }

    /** Moves the inbox to the ready queues, front first. */
    method DrainInbox()
      requires ReadyOk(prio, ready, lists.rq) && InboxOk(lists.inIb, wake, lists.ib) && |state| == THREADS
      requires forall t :: 0 <= t < THREADS && lists.inIb[t] ==> !ready.inRq[t]
      modifies `ready, `wake, `lists
      ensures ReadyOk(prio, ready, lists.rq) && InboxOk(lists.inIb, wake, lists.ib)
      ensures lists == old(lists).(rq := lists.rq, ib := [], inIb := lists.inIb)
      ensures Moved(state, old(ready.inRq), old(lists.inIb), ready.inRq, lists.inIb)
      ensures forall i :: 0 <= i < |old(lists.ib)| ==> Tid(old(lists.ib)[i])
      ensures Joining(old(lists.rq), old(lists.ib), lists.rq, [], state, prio)
    {
      hide *;
      ReadySizes(prio, ready, lists.rq);
      InboxSizes(lists.inIb, wake, lists.ib);
      MovedNone(state, ready.inRq, lists.inIb);
      JoiningAll(lists.rq, lists.ib, state, prio);
      var list := wake.first;
      wake := wake.(first := NIL);
      while list != NIL
        invariant ReadyOk(prio, ready, lists.rq) && InboxOk(lists.inIb, WakeList(wake.next, list), lists.ib)
        invariant lists == old(lists).(rq := lists.rq, ib := lists.ib, inIb := lists.inIb) && wake.first == NIL
        invariant Moved(state, old(ready.inRq), old(lists.inIb), ready.inRq, lists.inIb)
        invariant Joining(old(lists.rq), old(lists.ib), lists.rq, lists.ib, state, prio)
        decreases |lists.ib|
      {
        DrainReady(list, old(ready.inRq), old(lists.inIb), old(lists.rq), old(lists.ib));
        list := DrainOne(list);
      }
      InboxSizes(lists.inIb, WakeList(wake.next, list), lists.ib);
      assert wake == WakeList(wake.next, list);
    }

    /** What draining the front of the inbox adds up to. */
    lemma DrainReady(list: int, inRq: seq<bool>, inIb: seq<bool>, rq: seq<seq<int>>, ib: seq<int>)
      requires ReadyOk(prio, ready, lists.rq) && InboxOk(lists.inIb, WakeList(wake.next, list), lists.ib) && list != NIL
      requires Moved(state, inRq, inIb, ready.inRq, lists.inIb) && Joining(rq, ib, lists.rq, lists.ib, state, prio)
      ensures |state| == THREADS && Tid(list) && !ready.inRq[list] && |lists.ib| > 0 && lists.ib[0] == list
      ensures |lists.rq| == PRIOS && 0 <= prio[list] < PRIOS
      ensures Moved(state, inRq, inIb,
                    if state[list].Ready? then ready.inRq[list := true] else ready.inRq,
                    lists.inIb[list := false])
      ensures Joining(rq, ib,
                      if state[list].Ready? then lists.rq[prio[list] := lists.rq[prio[list]] + [list]] else lists.rq,
                      lists.ib[1..], state, prio)
    {
      ReadySizes(prio, ready, lists.rq);
      InboxPop(lists.inIb, WakeList(wake.next, list), lists.ib);
      JoiningStep(rq, ib, lists.rq, lists.ib, state, prio);
      MovedStep(state, inRq, inIb, ready.inRq, lists.inIb, list);
    }

    // ---- Switching threads --------------------------------------------------------------------

    /** Draining keeps the queue conditions. */
    method Drain(c: int)
      requires CoreOk(V(), c, {})
      modifies `ready, `wake, `lists
      ensures CoreOk(V(), c, {}) && lists == old(lists).(rq := lists.rq, ib := [], inIb := lists.inIb)
      ensures Joining(old(lists.rq), old(lists.ib), lists.rq, [], state, prio)
    {
      hide ReadyOk, SendOk, InboxOk, PlacedAll, SendersOk, CpusOk, Joining, Moved;
      PlacedApart(state, ready.inRq, lists.inIb, lists.inSq);
      ghost var v := V();
      DrainInbox();
      CoreDrained(v, c, ready, wake, lists);
    }

    /** The thread CPU c leaves goes back to its ready queue if it can still run. */
    method Requeue(c: nat)
      requires CoreOk(V(), c, {}) && c < |current| && lists.ib == []
      modifies `state, `ready, `lists
      ensures CoreOk(V(), c, {}) && |old(state)| == THREADS && (current[c] == NIL || Tid(current[c]))
      ensures state == Left(old(state), current[c])
      ensures lists == old(lists).(rq := lists.rq)
      ensures Requeued(old(lists.rq), lists.rq, old(state), prio, current[c])
    {
      hide CoreOk, ReadyOk;
      var prev := current[c];
      CoreSizes(V(), c, {});
      if prev == NIL {
        return;
      }
      CorePlaced(V(), c, {}, prev);
      AllReady(V(), c);
      ghost var v := V();
      if state[prev].Running? {
        state := state[prev := Ready];
      }
      if state[prev].Ready? {
        CoreReadyOk(v, c, {});
        RqPush(prev);
        if v.state[prev].Running? {
          CoreReady(v, c, prev, ready, lists.rq);
        }
      }
    }

    method PopNext(c: nat) returns (next: int)
      requires CoreOk(V(), c, {}) && c < |current| && lists.ib == []
      requires current[c] == NIL || !state[current[c]].Running?
      modifies `ready, `lists
      ensures PickedNext(old(V()), ready, lists, c, next)
    {
      hide CoreOk, ReadyOk, Popped, Picked;
      ghost var v := V();
      CoreSizes(v, c, {});
      CoreReadyOk(v, c, {});
      next := RqPopHighest();
      CorePicked(v, c, ready, lists.rq, next);
    }

    /** CPU c takes up the ready thread at the head of the highest non-empty queue, or idles. */
    method PickNext(c: nat)
      requires CoreOk(V(), c, {}) && c < |current| == |need| && lists.ib == [] && |timeslice| == THREADS
      requires current[c] == NIL || !state[current[c]].Running?
      modifies `state, `ready, `lists, `current, `need, `timeslice
      ensures CoreOk(V(), -1, {}) && |timeslice| == THREADS && |current| == |old(current)|
      ensures current == old(current)[c := current[c]] && need == old(need)[c := false]
      ensures lists == old(lists).(rq := lists.rq) && Picked(old(lists.rq), lists.rq, prio, current[c])
      ensures state == if current[c] == NIL then old(state) else old(state)[current[c] := Running]
      ensures current[c] != NIL ==> Tid(current[c]) && |old(state)| == THREADS && old(state)[current[c]].Ready?
      ensures |old(timeslice)| == THREADS
      ensures timeslice == if current[c] != NIL && old(timeslice)[current[c]] <= 0
                           then old(timeslice)[current[c] := TIMESLICE] else old(timeslice)
    {
      hide CoreOk, Picked;
      CoreSizes(V(), c, {});
      var next := PopNext(c);
      if next != NIL {
        state := state[next := Running];
        if timeslice[next] <= 0 {
          timeslice := timeslice[next := TIMESLICE];
        }
      }
      current := current[c := next];
      need := need[c := false];
    }

    /** The woken threads and the one CPU c was running line up behind the ready ones. */
    method LineUp(c: nat)
      requires CoreOk(V(), c, {}) && c < |current|
      modifies `state, `ready, `wake, `lists
      ensures CoreOk(V(), c, {}) && (current[c] == NIL || !state[current[c]].Running?)
      ensures lists == old(lists).(rq := lists.rq, ib := [], inIb := lists.inIb)
      ensures Lineable(old(lists.rq), old(lists.ib), old(state), prio, current[c])
      ensures lists.rq == Lines(old(lists.rq), old(lists.ib), old(state), prio, current[c])
      ensures state == Left(old(state), current[c])
    {
      hide CoreOk, Joining, Lines, Lineable, Requeued;
      CoreSizes(V(), c, {});
      Drain(c);
      ghost var drained := lists.rq;
      Requeue(c);
      LinesAre(old(lists.rq), old(lists.ib), drained, lists.rq, old(state), prio, current[c]);
    }

    /** A full reschedule of CPU c: of the threads that line up, the head of the highest
        priority runs. */
    method Schedule(c: nat)
      requires CoreOk(V(), c, {}) && c < |current| == |need| && |timeslice| == THREADS
      modifies `state, `ready, `wake, `lists, `current, `need, `timeslice
      ensures CoreOk(V(), -1, {}) && |timeslice| == THREADS && |current| == |old(current)|
      ensures current == old(current)[c := current[c]] && need == old(need)[c := false]
      ensures lists == old(lists).(rq := lists.rq, ib := [], inIb := lists.inIb)
      ensures Lineable(old(lists.rq), old(lists.ib), old(state), prio, old(current)[c])
      ensures Picked(Lines(old(lists.rq), old(lists.ib), old(state), prio, old(current)[c]), lists.rq, prio, current[c])
      ensures state == if current[c] == NIL then Left(old(state), old(current)[c])
                else Left(old(state), old(current)[c])[current[c] := Running]
      ensures current[c] != NIL ==> Tid(current[c]) && Left(old(state), old(current)[c])[current[c]].Ready?
      ensures |old(timeslice)| == THREADS
      ensures timeslice == if current[c] != NIL && old(timeslice)[current[c]] <= 0
                           then old(timeslice)[current[c] := TIMESLICE] else old(timeslice)
      ensures forall t :: 0 <= t < THREADS && state[t].Ready? ==> current[c] != NIL && prio[t] <= prio[current[c]]
      ensures InTurn(old(lists.rq), old(state), prio, old(current)[c], lists.rq, current[c])
    {
      hide CoreOk, Lines, Lineable, Picked, Left, InTurn;
      LineUp(c);
      ghost var lined := lists.rq;
      PickNext(c);
      TakesTurns(old(lists.rq), old(lists.ib), old(state), prio, old(current)[c], lists.rq, current[c]);
      HighestRuns(V(), current[c], lined);
    }

    /** The thread CPU c runs blocks. */
    method Block(c: nat, why: State)
      requires CoreOk(V(), c, {}) && c < |current| && Tid(current[c]) && state[current[c]].Running?
      requires Live(why) && !why.Running? && !why.Ready? && !why.WaitSend?
      modifies `state
      ensures CoreOk(V(), c, {}) && |old(state)| == THREADS && state == old(state)[current[c] := why]
    {
      hide CoreOk;
      var cur := current[c];
      CorePlaced(V(), c, {}, cur);
      CoreHold(V(), c, {}, cur, why);
      state := state[cur := why];
    }

    /** The thread CPU c runs goes to the end of its ready queue. */
    method ReadyNow(c: nat)
      requires CoreOk(V(), c, {}) && c < |current| && Tid(current[c]) && state[current[c]].Running?
      modifies `state, `ready, `lists
      ensures CoreOk(V(), c, {}) && |old(state)| == THREADS && state == old(state)[current[c] := Ready]
      ensures |old(lists.rq)| == PRIOS && |prio| == THREADS && 0 <= prio[current[c]] < PRIOS
      ensures lists
              == old(lists).(rq := old(lists.rq)[prio[current[c]] := old(lists.rq)[prio[current[c]]] + [current[c]]])
    {
      hide CoreOk, ReadyOk;
      var cur := current[c];
      ghost var v := V();
      CoreSizes(v, c, {});
      CorePlaced(v, c, {}, cur);
      CoreReadyOk(v, c, {});
      state := state[cur := Ready];
      RqPush(cur);
      CoreReady(v, c, cur, ready, lists.rq);
    }

    /** CPU c goes on with a blocked thread, passing over the ready queues. */
    method DirectSwitch(c: nat, dest: int)
      requires CoreOk(V(), c, {}) && c < |current| && Tid(dest)
      requires !state[dest].Running? && !state[dest].Ready? && !state[dest].WaitSend?
      requires current[c] == NIL || !state[current[c]].Running?
      modifies `state, `current
      ensures CoreOk(V(), -1, {}) && |old(state)| == THREADS
      ensures state == old(state)[dest := Running] && current == old(current)[c := dest]
    {
      hide CoreOk;
      CorePlaced(V(), c, {}, dest);
      CoreSwitch(V(), c, dest);
      state := state[dest := Running];
      current := current[c := dest];
    }

    // ---- Send queues --------------------------------------------------------------------------

    method SendqAppend(r: int, s: int)
      requires SendOk(partner, lists.inSq, send, lists.sq) && Tid(r) && Tid(s) && !lists.inSq[s] && partner[s] == r
      modifies `send, `lists
      ensures SendOk(partner, lists.inSq, send, lists.sq)
      ensures lists == old(lists).(sq := old(lists.sq)[r := old(lists.sq)[r] + [s]], inSq := old(lists.inSq)[s := true])
    {
      hide SendOk;
      SendSizes(partner, lists.inSq, send, lists.sq);
      SendAppend(partner, lists.inSq, send, lists.sq, r, s);
      var q := send.(next := send.next[s := NIL]);
      if q.tail[r] != NIL {
        q := q.(next := q.next[q.tail[r] := s]);
      } else {
        q := q.(head := q.head[r := s]);
      }
      send := q.(tail := q.tail[r := s]);
      lists := lists.(sq := lists.sq[r := lists.sq[r] + [s]], inSq := lists.inSq[s := true]);
    }

    /** The thread CPU c runs posts its message at the end of dest's send queue and blocks. */
    method Post(c: nat, dest: int, words: seq<int>, after: int)
      requires CoreOk(V(), c, {}) && c < |current| && Tid(current[c]) && state[current[c]].Running?
      requires Tid(dest) && dest != current[c] && Live(state[dest]) && |recvAfter| == THREADS
      modifies `state, `partner, `buffer, `recvAfter, `send, `lists
      ensures CoreOk(V(), c, {})
      ensures |old(lists.sq)| == |old(lists.posted)| == |old(lists.inSq)| == |old(state)| == THREADS
      ensures state == old(state)[current[c] := WaitSend] && recvAfter == old(recvAfter)[current[c] := after]
      ensures |old(partner)| == |old(buffer)| == THREADS && partner == old(partner)[current[c] := dest]
      ensures buffer == old(buffer)[current[c] := words]
      ensures lists == old(lists).(sq := old(lists.sq)[dest := old(lists.sq)[dest] + [current[c]]],
                                   inSq := old(lists.inSq)[current[c] := true],
                                   posted := old(lists.posted)[current[c] := words])
    {
      hide CoreOk, SendOk;
      var cur := current[c];
      ghost var v := V();
      CoreSizes(v, c, {});
      CorePlaced(v, c, {}, cur);
      CoreSendOk(v, c, {});
      SendRekey(partner, lists.inSq, send, lists.sq, cur, dest);
      buffer := buffer[cur := words];
      partner := partner[cur := dest];
      recvAfter := recvAfter[cur := after];
      SendqAppend(dest, cur);
      CorePost(v, c, cur, dest, words, send);
      state := state[cur := WaitSend];
      lists := lists.(posted := lists.posted[cur := words]);
    }

    /** Unlinks the i-th sender s of r, which follows prev. */
    method SendqUnlink(r: int, prev: int, s: int, ghost i: nat)
      requires SendOk(partner, lists.inSq, send, lists.sq) && Tid(r)
      requires i < |lists.sq[r]| && s == lists.sq[r][i] && prev == if i == 0 then NIL else lists.sq[r][i - 1]
      modifies `send, `lists
      ensures SendOk(partner, lists.inSq, send, lists.sq)
      ensures Tid(s) && old(lists.inSq)[s] && partner[s] == r
      ensures lists == old(lists).(sq := old(lists.sq)[r := Without(old(lists.sq)[r], i)],
                inSq := old(lists.inSq)[s := false])
    {
      hide SendOk;
      SendSizes(partner, lists.inSq, send, lists.sq);
      SendRemove(partner, lists.inSq, send, lists.sq, r, i);
      var l := send;
      if prev != NIL {
        l := l.(next := l.next[prev := l.next[s]]);
      } else {
        l := l.(head := l.head[r := l.next[s]]);
      }
      if l.tail[r] == s {
        l := l.(tail := l.tail[r := prev]);
      }
      send := l.(next := l.next[s := NIL]);
      lists := lists.(sq := lists.sq[r := Without(lists.sq[r], i)], inSq := lists.inSq[s := false]);
    }

    /** Takes the earliest sender that the filter admits off r's send queue. */
    method SendqTake(r: int, filter: int) returns (s: int)
      requires SendOk(partner, lists.inSq, send, lists.sq) && Tid(r)
      modifies `send, `lists
      ensures SendOk(partner, lists.inSq, send, lists.sq)
      ensures var q := old(lists.sq)[r];
              var i := First(q, filter);
              if i == |q| then s == NIL && lists == old(lists) && send == old(send)
              else && s == q[i] && Tid(s) && old(lists.inSq)[s] && partner[s] == r
                   && lists == old(lists).(sq := old(lists.sq)[r := Without(q, i)], inSq := old(lists.inSq)[s := false])
    {
      hide SendOk, First;
      SendSizes(partner, lists.inSq, send, lists.sq);
      var prev := NIL;
      ghost var i := 0;
      ghost var q := lists.sq[r];
      SendWalk(partner, lists.inSq, send, lists.sq, r, 0);
      s := send.head[r];
      while s != NIL
        invariant 0 <= i <= |q| && s == (if i < |q| then q[i] else NIL) && prev == (if i == 0 then NIL else q[i - 1])
        invariant (forall j :: 0 <= j < i ==> !Admits(filter, q[j])) && send == old(send) && lists == old(lists)
        decreases |q| - i
      {
        SendWalk(partner, lists.inSq, send, lists.sq, r, i);
        if filter == ANY || s == filter {
          FirstIs(q, filter, i);
          SendqUnlink(r, prev, s, i);
          return;
        }
        prev := s;
        s := send.next[s];
        i := i + 1;
      }
      SendWalk(partner, lists.inSq, send, lists.sq, r, i);
      FirstIs(q, filter, i);
    }

    /** Takes the earliest admitted sender of the thread CPU c runs. */
    method TakeParked(c: nat, filter: int) returns (s: int)
      requires CoreOk(V(), c, {}) && c < |current| && Tid(current[c])
      modifies `send, `lists
      ensures |old(lists.sq)| == |old(lists.inSq)| == |old(lists.posted)| == THREADS
      ensures s == Earliest(old(lists.sq)[current[c]], filter)
      ensures s == NIL ==> V() == old(V())
      ensures s != NIL ==>
                && Tid(s) && s != current[c] && state[s].WaitSend? && buffer[s] == old(lists.posted)[s]
                && CoreOk(V(), c, {s}) && Free(V(), s)
                && lists == TakenFrom(old(lists), current[c], filter)
    {
      hide CoreOk, SendOk, First;
      ghost var v := V();
      CoreSizes(v, c, {});
      CoreSendOk(v, c, {});
      s := SendqTake(current[c], filter);
      if s != NIL {
        CoreTake(v, c, s, send, lists.sq);
        EarliestTid(v, current[c], filter);
      }
    }

    /** Hands the message of a sender taken off its queue to the thread CPU c runs, and resumes
        the sender: into its own receive, or ready. */
    method CompleteParked(c: nat, s: int, xferOk: bool)
      requires CoreOk(V(), c, {s}) && Free(V(), s) && c < |current| == |need| && Tid(current[c])
      requires state[s].WaitSend? && MailOk(M()) && buffer[s] == lists.posted[s] && s != current[c]
      modifies `frame, `recvAfter, `partner, `state, `wake, `lists, `need
      ensures CoreOk(V(), c, {}) && |need| == |old(need)|
      ensures M() == HandOver(old(M()), current[c], s, xferOk)
      ensures HandedOver(old(frame), frame, current[c], s, buffer[s], xferOk) && GoesOn(old(M()), M(), s)
      ensures NeedIs(old(state), state, prio, current, c, old(need), need)
    {
      hide CoreOk, HandedOver, GoesOn, NeedIs, Woken;
      HandOverReaches(M(), current[c], s, xferOk);
      CoreSizes(V(), c, {s});
      var cur := current[c];
      frame := frame[cur := Frame(buffer[s], s, ERR_NONE)];
      frame := frame[s := frame[s].(result := if xferOk then ERR_NONE else ERR_NO_CAP)];
      GoOn(c, s);
    }

    /** A sender whose message was taken goes on: to the receive it asked for, or to run. */
    method GoOn(c: nat, s: int)
      requires CoreOk(V(), c, {s}) && Free(V(), s) && c < |current| == |need| && |recvAfter| == THREADS
      requires state[s].WaitSend?
      modifies `recvAfter, `partner, `state, `wake, `lists, `need
      ensures CoreOk(V(), c, {}) && |need| == |old(need)|
      ensures |old(state)| == |old(partner)| == |old(recvAfter)| == |old(lists.inIb)| == THREADS && Tid(s)
      ensures old(recvAfter)[s] != NO_RECV ==>
                && state == old(state)[s := WaitRecv] && partner == old(partner)[s := old(recvAfter)[s]]
                && recvAfter == old(recvAfter)[s := NO_RECV] && lists == old(lists)
      ensures old(recvAfter)[s] == NO_RECV ==>
                && state == old(state)[s := Ready] && partner == old(partner) && recvAfter == old(recvAfter)
                && lists == Woken(old(lists), s)
      ensures NeedIs(old(state), state, prio, current, c, old(need), need)
    {
      hide CoreOk, NeedIs, Woke, Urged;
      CoreSizes(V(), c, {s});
      NeedOne(state, prio, current, c, need, s);
      NeedHeld(state, prio, current, c, need, s, WaitRecv);
      assert {s} - {s} == {};
      if recvAfter[s] != NO_RECV {
        CoreRekey(V(), c, {s}, s, recvAfter[s]);
        CoreHold(V().(partner := partner[s := recvAfter[s]]), c, {s}, s, WaitRecv);
        partner := partner[s := recvAfter[s]];
        recvAfter := recvAfter[s := NO_RECV];
        state := state[s := WaitRecv];
      } else {
        Wake(c, s, {s});
      }
    }

    // ---- Send and receive ---------------------------------------------------------------------

    /** The thread CPU c runs waits to receive. */
    method WaitToReceive(c: nat, filter: int)
      requires Inv(c) && c < |current| && Tid(current[c]) && state[current[c]].Running?
      modifies `state, `partner
      ensures Inv(c) && MailOk(old(M()))
      ensures M() == old(M()).(state := old(state)[current[c] := WaitRecv],
                partner := old(partner)[current[c] := filter])
    {
      hide CoreOk, Timely;
      var cur := current[c];
      CoreMail(c, {});
      CorePlaced(V(), c, {}, cur);
      CoreRekey(V(), c, {}, cur, filter);
      TimelyState(clock, state, cur, WaitRecv);
      partner := partner[cur := filter];
      Block(c, WaitRecv);
    }

    /** The thread CPU c runs finds no sender: it takes what is on offer or blocks. */
    method ReceiveNone(c: nat, filter: int, noblock: bool, offer: Offer)
      requires Inv(c) && c < |current| && Tid(current[c]) && state[current[c]].Running?
      modifies `state, `partner, `frame
      ensures Inv(c) && MailOk(old(M())) && M() == Unmatched(old(M()), current[c], filter, noblock, offer)
    {
      hide CoreOk, Timely;
      CoreMail(c, {});
      frame := frame[current[c] := Offered(frame[current[c]], offer, noblock)];
      if offer.NoOffer? && !noblock {
        WaitToReceive(c, filter);
      }
    }

    method ReceiveFrom(c: nat, s: int, xferOk: bool)
      requires Shape() && CoreOk(V(), c, {s}) && Timely(clock, state) && Free(V(), s) && c < |current|
      requires Tid(current[c])
      requires state[s].WaitSend? && MailOk(M()) && buffer[s] == lists.posted[s] && s != current[c]
      modifies `frame, `recvAfter, `partner, `state, `wake, `lists, `need
      ensures Inv(c) && M() == HandOver(old(M()), current[c], s, xferOk)
      ensures NeedIs(old(state), state, prio, current, c, old(need), need)
    {
      hide CoreOk, Timely, HandOver, HandedOver, GoesOn, NeedIs;
      HandOverTimely(clock, M(), current[c], s, xferOk);
      CompleteParked(c, s, xferOk);
    }

    /** The receive of the thread CPU c runs: from its earliest admitted sender, or what else is
        on offer, or it blocks. */
    method Receive(c: nat, filter: int, noblock: bool, offer: Offer, xferOk: bool)
      requires Inv(c) && c < |current| && Tid(current[c]) && state[current[c]].Running?
      modifies `state, `partner, `recvAfter, `frame, `send, `wake, `lists, `need
      ensures Inv(c) && MailOk(old(M())) && M() == Received(old(M()), current[c], filter, noblock, offer, xferOk)
      ensures |buffer| == THREADS
      ensures var s := Earliest(old(lists.sq)[current[c]], filter);
              Took(old(M()), M(), current[c], filter, noblock, offer, xferOk, if Tid(s) then buffer[s] else [])
      ensures NeedIs(old(state), state, prio, current, c, old(need), need)
    {
      hide CoreOk, Timely, First, Earliest, HandOver, Unmatched, MailOk, NeedIs, Took;
      CoreMail(c, {});
      var s := TakeParked(c, filter);
      ReceivedTook(old(M()), current[c], filter, noblock, offer, xferOk, if Tid(s) then buffer[s] else []);
      if s != NIL {
        CoreMail(c, {s});
        ReceiveFrom(c, s, xferOk);
      } else {
        ReceiveNone(c, filter, noblock, offer);
        UnmatchedWakes(old(M()), current[c], filter, noblock, offer);
        NeedSame(old(state), state, prio, current, c, need);
      }
    }

    method WakeBlocked(c: nat, dest: int)
      requires Inv(c) && c < |current| && Tid(dest) && Blocked(state[dest]) && !state[dest].WaitNotification?
      modifies `state, `wake, `lists, `need
      ensures Inv(c) && MailOk(old(M())) && M() == WakeMail(old(M()), dest)
      ensures |old(state)| == THREADS && state == old(state)[dest := Ready]
      ensures NeedIs(old(state), state, prio, current, c, old(need), need)
    {
      hide CoreOk, Timely, NeedIs;
      CoreMail(c, {});
      CoreSizes(V(), c, {});
      CorePlaced(V(), c, {}, dest);
      TimelyState(clock, state, dest, Ready);
      NeedOne(state, prio, current, c, need, dest);
      Wake(c, dest, {});
    }

    /** The thread CPU c runs is put off for dest. */
    method ReadyAndSwitch(c: nat, dest: int)
      requires Inv(c) && c < |current| && Tid(current[c]) && state[current[c]].Running? && Tid(dest)
      requires state[dest].WaitRecv?
      modifies `state, `ready, `lists, `current, `timeslice
      ensures Inv(c) && MailOk(old(M())) && |prio| == THREADS && current == old(current)[c := dest]
      ensures M() == PutOff(old(M()), prio, old(current)[c], dest)
      ensures |old(timeslice)| == THREADS && timeslice == old(timeslice)[dest := old(timeslice)[old(current)[c]]]
    {
      hide CoreOk, Timely;
      var cur := current[c];
      CoreMail(c, {});
      TimelyState(clock, state, cur, Ready);
      TimelyState(clock, state[cur := Ready], dest, Running);
      ReadyNow(c);
      timeslice := timeslice[dest := timeslice[cur]];
      DirectSwitch(c, dest);
      CoreAny(V(), c, {});
    }

    /** The thread CPU c runs waits to receive and dest runs. */
    method WaitAndSwitch(c: nat, dest: int, filter: int)
      requires Inv(c) && c < |current| && Tid(current[c]) && state[current[c]].Running? && Tid(dest)
      requires state[dest].WaitRecv?
      modifies `state, `partner, `current, `timeslice
      ensures Inv(c) && MailOk(old(M())) && current == old(current)[c := dest]
      ensures M() == WaitsFor(old(M()), old(current)[c], dest, filter)
      ensures |old(timeslice)| == THREADS && timeslice == old(timeslice)[dest := old(timeslice)[old(current)[c]]]
    {
      hide CoreOk, Timely;
      var cur := current[c];
      CoreMail(c, {});
      WaitToReceive(c, filter);
      TimelyState(clock, state, dest, Running);
      timeslice := timeslice[dest := timeslice[cur]];
      DirectSwitch(c, dest);
      CoreAny(V(), c, {});
    }

    /** dest is woken, and the thread CPU c runs receives from a sender taken off its queue. */
    method WakeThenReceive(c: nat, dest: int, waiting: int, parkedOk: bool)
      requires Shape() && CoreOk(V(), c, {waiting}) && Timely(clock, state) && Free(V(), waiting) && c < |current|
      requires Tid(current[c])
      requires state[waiting].WaitSend? && MailOk(M()) && buffer[waiting] == lists.posted[waiting]
      requires waiting != current[c] && Tid(dest) && state[dest].WaitRecv?
      modifies `frame, `recvAfter, `partner, `state, `wake, `lists, `need
      ensures Inv(c) && M() == HandOver(WakeMail(old(M()), dest), current[c], waiting, parkedOk)
      ensures NeedIs(old(state), state, prio, current, c, old(need), need)
    {
      hide CoreOk, Timely, HandOver, MailOk, NeedIs;
      CoreMail(c, {waiting});
      CoreSizes(V(), c, {waiting});
      NeedOne(state, prio, current, c, need, dest);
      CorePlaced(V(), c, {waiting}, dest);
      TimelyState(clock, state, dest, Ready);
      Wake(c, dest, {waiting});
      assert {waiting} - {dest} == {waiting};
      CoreMail(c, {waiting});
      ghost var n := M();
      ghost var mid := need;
      ReceiveFrom(c, waiting, parkedOk);
      WokenTwice(old(M()), dest, n, current[c], waiting, parkedOk);
      NeedJoined(old(state), n.state, state, prio, current, c, old(need), mid, need);
    }

    /** The sender of a message that dest got receives in turn. */
    method SendThenReceive(c: nat, dest: int, filter: int, parkedOk: bool)
      requires Inv(c) && c < |current| && Tid(current[c]) && state[current[c]].Running? && Tid(dest)
      requires state[dest].WaitRecv?
      modifies `state, `partner, `recvAfter, `frame, `send, `wake, `lists, `need, `current, `timeslice
      ensures Inv(c) && MailOk(old(M())) && M() == ReceivedAfterSend(old(M()), old(current)[c], dest, filter, parkedOk)
      ensures var sender := Earliest(old(lists.sq)[old(current)[c]], filter);
              && current == old(current)[c := if Tid(sender) then old(current)[c] else dest]
              && (!Tid(sender) ==> forall t :: !Woke(old(state), state, t))
              && |old(timeslice)| == THREADS
              && timeslice == (if Tid(sender) then old(timeslice)
                               else old(timeslice)[dest := old(timeslice)[old(current)[c]]])
      ensures NeedIs(old(state), state, prio, old(current), c, old(need), need)
    {
      hide CoreOk, Timely, First, Earliest, HandOver, MailOk, WaitsFor, WakeMail, NeedIs;
      CoreMail(c, {});
      var waiting := TakeParked(c, filter);
      if waiting != NIL {
        CoreMail(c, {waiting});
        WakeThenReceive(c, dest, waiting, parkedOk);
      } else {
        WaitAndSwitch(c, dest, filter);
        WaitsWakes(old(M()), old(current)[c], dest, filter);
        NeedSame(old(state), state, prio, old(current), c, need);
      }
    }

    method Deliver(from: int, dest: int, xferOk: bool)
      requires MailOk(M()) && Tid(from) && Tid(dest)
      modifies `frame
      ensures M() == Delivered(old(M()), from, dest, xferOk) && |frame| == THREADS
    {
      frame := frame[dest := Frame(frame[from].words, from, ERR_NONE)];
      frame := frame[from := frame[from].(result := if xferOk then ERR_NONE else ERR_NO_CAP)];
    }

    /** A message goes straight to dest, which waits for it. Then the thread CPU c runs receives
        from a queued sender, or gives its CPU to dest, or goes on. */
    method SendDirect(c: nat, dest: int, wantRecv: bool, filter: int, xferOk: bool, parkedOk: bool)
      requires Inv(c) && c < |current| && Tid(current[c]) && state[current[c]].Running? && Tid(dest)
      requires state[dest].WaitRecv?
      modifies `state, `partner, `recvAfter, `frame, `send, `wake, `lists, `need, `ready, `current, `timeslice
      ensures Inv(c) && MailOk(old(M())) && |prio| == THREADS
      ensures M() == SentDirect(old(M()), prio, old(current)[c], dest, wantRecv, filter, xferOk, parkedOk)
      ensures current == old(current)[c := RunsAfterSend(old(M()), prio, old(current)[c], dest, wantRecv, filter)]
      ensures |frame| == |old(frame)| == |old(timeslice)| == THREADS
      ensures frame[dest] == Frame(old(frame)[old(current)[c]].words, old(current)[c], ERR_NONE)
      ensures timeslice == if current != old(current) then old(timeslice)[dest := old(timeslice)[old(current)[c]]]
                           else old(timeslice)
      ensures NeedIs(old(state), state, prio, old(current), c, old(need), need)
      ensures current != old(current) ==> forall t :: !Woke(old(state), state, t)
    {
      hide CoreOk, Timely, Earliest, MailOk, AfterSend, Delivered, NeedIs, SentDirect, Woke, RunsAfterSend;
      CoreMail(c, {});
      CoreSizes(V(), c, {});
      SenderIs(V(), c, current[c], filter, dest);
      ghost var m := M();
      SentDirectFrame(m, prio, current[c], dest, wantRecv, filter, xferOk, parkedOk);
      DeliveredLists(m, current[c], dest, xferOk);
      Deliver(current[c], dest, xferOk);
      RunsAlike(m, M(), prio, current[c], dest, wantRecv, filter);
      ShareCpu(c, dest, wantRecv, filter, parkedOk);
    }

    /** Once dest has the message, who runs. */
    method ShareCpu(c: nat, dest: int, wantRecv: bool, filter: int, parkedOk: bool)
      requires Inv(c) && c < |current| && Tid(current[c]) && state[current[c]].Running? && Tid(dest)
      requires state[dest].WaitRecv?
      modifies `state, `partner, `recvAfter, `frame, `send, `wake, `lists, `need, `ready, `current, `timeslice
      ensures Inv(c) && MailOk(old(M())) && |prio| == THREADS
      ensures M() == AfterSend(old(M()), prio, old(current)[c], dest, wantRecv, filter, parkedOk)
      ensures current == old(current)[c := RunsAfterSend(old(M()), prio, old(current)[c], dest, wantRecv, filter)]
      ensures |old(timeslice)| == THREADS
      ensures timeslice == if current != old(current) then old(timeslice)[dest := old(timeslice)[old(current)[c]]]
                           else old(timeslice)
      ensures NeedIs(old(state), state, prio, old(current), c, old(need), need)
      ensures current != old(current) ==> forall t :: !Woke(old(state), state, t)
    {
      hide CoreOk, Timely, Earliest, MailOk, ReceivedAfterSend, PutOff, WakeMail, NeedIs, Woke;
      CoreMail(c, {});
      CoreSizes(V(), c, {});
      if wantRecv {
        SendThenReceive(c, dest, filter, parkedOk);
      } else if prio[dest] >= prio[current[c]] {
        ReadyAndSwitch(c, dest);
        PutOffWakes(old(M()), prio, old(current)[c], dest);
        NeedSame(old(state), state, prio, old(current), c, need);
      } else {
        WakeBlocked(c, dest);
      }
    }

    method PostMessage(c: nat, dest: int, after: int)
      requires Inv(c) && c < |current| && Tid(current[c]) && state[current[c]].Running?
      requires Tid(dest) && dest != current[c] && Live(state[dest])
      modifies `state, `partner, `buffer, `recvAfter, `send, `lists
      ensures Inv(c) && MailOk(old(M())) && M() == Posted(old(M()), current[c], dest, after)
      ensures QueuedTo(old(M()), M(), buffer, current[c], dest, after)
    {
      hide CoreOk, Timely;
      CoreMail(c, {});
      TimelyState(clock, state, current[c], WaitSend);
      Post(c, dest, frame[current[c]].words, after);
    }

    /** A pager's send to a thread it resolves a fault for wakes that thread. */
    method ResolveFault(c: nat, dest: int)
      requires Inv(c) && c < |current| && Tid(current[c]) && Tid(dest) && state[dest].WaitPagefault?
      modifies `state, `wake, `lists, `need, `frame
      ensures Inv(c) && MailOk(old(M())) && M() == WithResult(WakeMail(old(M()), dest), current[c], ERR_NONE)
      ensures |old(state)| == THREADS && state == old(state)[dest := Ready]
      ensures NeedIs(old(state), state, prio, current, c, old(need), need)
    {
      hide CoreOk, Timely, NeedIs;
      CoreMail(c, {});
      WakeBlocked(c, dest);
      frame := frame[current[c] := frame[current[c]].(result := ERR_NONE)];
    }

    method ResolveThenReceive(c: nat, a: Call)
      requires Inv(c) && c < |current| && Tid(current[c]) && state[current[c]].Running?
      requires Tid(a.dest) && state[a.dest].WaitPagefault?
      modifies `state, `partner, `recvAfter, `frame, `send, `wake, `lists, `need
      ensures Inv(c) && MailOk(old(M())) && M() == Resolved(old(M()), current[c], a)
      ensures NeedIs(old(state), state, prio, current, c, old(need), need)
    {
      hide CoreOk, Timely, MailOk, Received, WithResult, WakeMail, NeedIs, Took;
      CoreMail(c, {});
      ResolveFault(c, a.dest);
      if a.wantRecv {
        ghost var n, mid := M(), need;
        FirstSender(V(), c, current[c], a.filter);
        ghost var s := Earliest(n.lists.sq[current[c]], a.filter);
        Receive(c, a.filter, a.noblock, a.offer, a.parkedOk);
        TookJoins(old(state), n, M(), current[c], a.dest, a.filter, a.noblock, a.offer, a.parkedOk,
                  if Tid(s) then buffer[s] else []);
        NeedJoined(old(state), n.state, state, prio, current, c, old(need), mid, need);
      }
    }

    /** The send and receive system call of the thread CPU c runs. Words reach whom they were sent to,
        and this CPU gives way to whom it woke. */
    method Ipc(c: nat, a: Call)
      requires Inv(c) && c < |current| && Tid(current[c]) && state[current[c]].Running?
      requires a.dest != 0 || a.wantRecv
      modifies `state, `partner, `buffer, `recvAfter, `frame, `send, `wake, `lists, `need, `ready, `current, `timeslice
      ensures Inv(c) && MailOk(old(M())) && |prio| == |pager| == THREADS
      ensures M() == Called(old(M()), prio, pager, old(current)[c], a)
      ensures current == old(current)[c := RunsAfter(old(M()), prio, pager, old(current)[c], a)]
      ensures Reaches(old(M()), M(), prio, pager, old(current)[c], a, old(buffer), buffer)
      ensures |old(timeslice)| == THREADS
      ensures timeslice == if current != old(current) && Tid(a.dest)
                           then old(timeslice)[a.dest := old(timeslice)[old(current)[c]]] else old(timeslice)
      ensures NeedIs(old(state), state, prio, old(current), c, old(need), need)
      ensures Yields(old(state), state, prio, current, c, need)
    {
      hide CoreOk, Timely, MailOk, Called, RunsAfter, NeedIs, Yields, Reaches, Aside, Woke;
      CoreMail(c, {});
      FirstSender(V(), c, current[c], a.filter);
      SendAndReceive(c, a);
      CoreMail(c, {});
      AsideMeans(old(M()), M(), pager, old(current)[c], a.dest, old(current), current, old(timeslice), timeslice,
                 buffer);
      CalledTo(old(M()), prio, pager, old(current)[c], a, old(buffer), buffer);
      NeedYields(old(state), state, prio, old(current), c, old(need), need);
      YieldsAfter(old(state), state, prio, old(current), current, c, need);
    }

    method SendAndReceive(c: nat, a: Call)
      requires Inv(c) && c < |current| && Tid(current[c]) && state[current[c]].Running?
      requires a.dest != 0 || a.wantRecv
      modifies `state, `partner, `buffer, `recvAfter, `frame, `send, `wake, `lists, `need, `ready, `current, `timeslice
      ensures Inv(c) && MailOk(old(M())) && |prio| == |pager| == THREADS
      ensures M() == Called(old(M()), prio, pager, old(current)[c], a)
      ensures current == old(current)[c := RunsAfter(old(M()), prio, pager, old(current)[c], a)]
      ensures Aside(old(M()), M(), pager, old(current)[c], a.dest, old(current), current, old(timeslice), timeslice,
                    buffer)
      ensures NeedIs(old(state), state, prio, old(current), c, old(need), need)
    {
      hide CoreOk, Timely, MailOk, Received, Resolved, WithResult, SentDirect, Posted, RunsAfterSend, NeedIs, Took,
        QueuedTo, Woke, Aside;
      CoreMail(c, {});
      CoreSizes(V(), c, {});
      var cur := current[c];
      NeedNone(state, prio, current, c, need);
      ghost var m := M();
      if a.dest == 0 {
        Receive(c, a.filter, a.noblock, a.offer, a.parkedOk);
      } else if !Tid(a.dest) || !Live(state[a.dest]) || a.dest == cur {
        SetResult(cur, ERR_NOT_FOUND);
      } else if state[a.dest].WaitPagefault? && cur == pager[a.dest] {
        ResolveThenReceive(c, a);
      } else {
        SendWords(c, a);
        return;
      }
      AsideIs(m, M(), pager, cur, a.dest, old(current), current, old(timeslice), timeslice, buffer);
    }

    /** A send to a thread that lives: at once when it waits for it, else in turn. */
    method SendWords(c: nat, a: Call)
      requires Inv(c) && c < |current| && Tid(current[c]) && state[current[c]].Running? && MailOk(M())
      requires |pager| == THREADS && Sends(M(), pager, current[c], a.dest)
      modifies `state, `partner, `buffer, `recvAfter, `frame, `send, `wake, `lists, `need, `ready, `current, `timeslice
      ensures Inv(c) && MailOk(old(M())) && |prio| == |pager| == THREADS
      ensures M() == Called(old(M()), prio, pager, old(current)[c], a)
      ensures current == old(current)[c := RunsAfter(old(M()), prio, pager, old(current)[c], a)]
      ensures Aside(old(M()), M(), pager, old(current)[c], a.dest, old(current), current, old(timeslice), timeslice,
                    buffer)
      ensures NeedIs(old(state), state, prio, old(current), c, old(need), need)
    {
      hide CoreOk, Timely, MailOk, Received, Resolved, WithResult, SentDirect, Posted, RunsAfterSend, NeedIs, Took,
        QueuedTo, Woke, Aside;
      CoreMail(c, {});
      CoreSizes(V(), c, {});
      var cur := current[c];
      ghost var m := M();
      if state[a.dest].WaitRecv? && (partner[a.dest] == ANY || partner[a.dest] == cur) {
        SendDirect(c, a.dest, a.wantRecv, a.filter, a.xferOk, a.parkedOk);
      } else {
        PostMessage(c, a.dest, if a.wantRecv then a.filter else NO_RECV);
        QueuedBuffer(m, M(), buffer, cur, a.dest, if a.wantRecv then a.filter else NO_RECV);
        NeedSame(m.state, state, prio, current, c, need);
      }
      AsideIs(m, M(), pager, cur, a.dest, old(current), current, old(timeslice), timeslice, buffer);
    }

    method SetResult(t: int, result: int)
      requires MailOk(M()) && Tid(t)
      modifies `frame
      ensures M() == WithResult(old(M()), t, result) && |frame| == THREADS && state == old(state)
    {
      frame := frame[t := frame[t].(result := result)];
    }

    // ---- The life of a thread -----------------------------------------------------------------

    /** The first dead slot of the table, or NIL. */
    method FindDead() returns (t: int)
      requires |state| == THREADS
      ensures t == NIL ==> forall i :: 0 < i < THREADS ==> !state[i].Dead?
      ensures t != NIL ==> Tid(t) && state[t].Dead? && forall i :: 0 < i < t ==> !state[i].Dead?
    {
      t := 1;
      while t < THREADS && !state[t].Dead?
        invariant 0 < t <= THREADS && forall i :: 0 < i < t ==> !state[i].Dead?
      {
        t := t + 1;
      }
      if t == THREADS {
        t := NIL;
      }
    }

    /** Clears the queue links and IPC fields of a dead slot. */
    method ClearLinks(c: nat, t: int, priority: nat)
      requires CoreOk(V(), c, {}) && Tid(t) && state[t].Dead? && priority < PRIOS
      modifies `prio, `partner, `buffer, `wake, `send
      ensures CoreOk(V(), c, {}) && |old(prio)| == THREADS && prio == old(prio)[t := priority]
      ensures |partner| == |buffer| == THREADS && partner[t] == 0 && buffer[t] == [0, 0, 0, 0, 0, 0]
    {
      hide CoreOk;
      CoreCleared(V(), c, t, priority, [0, 0, 0, 0, 0, 0]);
      prio := prio[t := priority];
      partner := partner[t := 0];
      buffer := buffer[t := [0, 0, 0, 0, 0, 0]];
      wake := wake.(next := wake.next[t := NIL]);
      send := SendLists(send.next[t := NIL], send.head[t := NIL], send.tail[t := NIL]);
    }

    method ClearFields(c: nat, t: int, pagerTid: int, parentTid: int)
      requires Shape() && Timely(clock, state) && Tid(t) && state[t].Dead?
      modifies `timeslice, `frame, `recvAfter, `pager, `parent, `waitFilter, `clock
      ensures Shape() && Timely(clock, state)
      ensures pager == old(pager)[t := pagerTid] && parent == old(parent)[t := parentTid]
      ensures waitFilter == old(waitFilter)[t := 0] && recvAfter == old(recvAfter)[t := 0]
      ensures frame == old(frame)[t := Frame([0, 0, 0, 0, 0, 0], 0, 0)] && timeslice == old(timeslice)[t := TIMESLICE]
      ensures |old(clock.wakeAt)| == THREADS && clock == old(clock).(wakeAt := old(clock.wakeAt)[t := 0])
    {
      hide Timely;
      TimelyCleared(clock, state, t);
      clock := clock.(wakeAt := clock.wakeAt[t := 0]);
      timeslice := timeslice[t := TIMESLICE];
      frame := frame[t := Frame([0, 0, 0, 0, 0, 0], 0, 0)];
      recvAfter := recvAfter[t := 0];
      pager := pager[t := pagerTid];
      parent := parent[t := parentTid];
      waitFilter := waitFilter[t := 0];
    }

    /** A new thread takes the first dead slot of the table, cleared, and is ready. */
    method Create(c: nat, priority: nat, pagerTid: int, parentTid: int) returns (t: int)
      requires Inv(c) && priority < PRIOS
      modifies `state, `prio, `timeslice, `frame, `partner, `recvAfter, `buffer, `pager, `parent, `waitFilter, `ready,
        `wake, `send, `lists, `clock
      ensures Inv(c) && |old(state)| == |old(prio)| == THREADS && |old(lists.rq)| == PRIOS
      ensures |partner| == |buffer| == THREADS
      ensures |old(pager)| == |old(parent)| == |old(waitFilter)| == |old(recvAfter)| == THREADS
      ensures |old(frame)| == |old(timeslice)| == THREADS
      ensures t == NIL ==>
                (forall i :: 0 < i < THREADS ==> !old(state)[i].Dead?) && state == old(state) && lists == old(lists)
      ensures t != NIL ==>
                && Tid(t) && old(state)[t].Dead? && (forall i :: 0 < i < t ==> !old(state)[i].Dead?)
                && state == old(state)[t := Ready] && prio == old(prio)[t := priority]
                && lists == Queued(old(lists), priority, t) && partner[t] == 0 && buffer[t] == [0, 0, 0, 0, 0, 0]
                && pager == old(pager)[t := pagerTid] && parent == old(parent)[t := parentTid]
                && waitFilter == old(waitFilter)[t := 0] && recvAfter == old(recvAfter)[t := 0]
                && frame == old(frame)[t := Frame([0, 0, 0, 0, 0, 0], 0, 0)]
                && timeslice == old(timeslice)[t := TIMESLICE]
    {
      hide CoreOk, Timely, Queued;
      CoreSizes(V(), c, {});
      t := FindDead();
      if t != NIL {
        ClearLinks(c, t, priority);
        ClearFields(c, t, pagerTid, parentTid);
        TimelyState(clock, state, t, Ready);
        MakeReady(c, t);
      }
    }

    /** A cleared thread goes to the end of its ready queue. */
    method MakeReady(c: nat, t: int)
      requires CoreOk(V(), c, {}) && Tid(t) && state[t].Dead?
      modifies `state, `ready, `lists
      ensures CoreOk(V(), c, {}) && |old(state)| == |prio| == THREADS && |old(lists.rq)| == PRIOS
      ensures state == old(state)[t := Ready] && lists == Queued(old(lists), prio[t], t)
    {
      hide CoreOk, ReadyOk;
      ghost var v := V();
      CoreSizes(v, c, {});
      CoreReadyOk(v, c, {});
      CorePlaced(v, c, {}, t);
      state := state[t := Ready];
      RqPush(t);
      CoreReady(v, c, t, ready, lists.rq);
    }

    /** Wakes a thread whose partner is gone. */
    method WakeFailed(c: nat, t: int, ghost but: set<int>)
      requires CoreOk(V(), c, but) && Free(V(), t) && (state[t].WaitSend? || state[t].WaitRecv?)
      requires c < |current| == |need| && |frame| == THREADS
      modifies `state, `wake, `lists, `need, `frame
      ensures CoreOk(V(), c, but - {t}) && (but == {} ==> CoreOk(V(), c, {}))
      ensures |need| == |old(need)| && |frame| == |old(state)| == |old(lists.inIb)| == THREADS
      ensures state == old(state)[t := Ready] && lists == Woken(old(lists), t)
      ensures frame == old(frame)[t := old(frame)[t].(result := ERR_NOT_FOUND)]
      ensures need == Urged(old(need), prio, current, c, t)
    {
      hide CoreOk;
      CoreSizes(V(), c, but);
      frame := frame[t := frame[t].(result := ERR_NOT_FOUND)];
      Wake(c, t, but);
    }

    /** The thread CPU c runs dies, and every thread queued to send to it is woken with an error. */
    method DropSenders(c: nat, final: State)
      requires Inv(c) && c < |current| && Tid(current[c]) && state[current[c]].Running? && !Live(final)
      modifies `state, `send, `wake, `lists, `need, `frame
      ensures Shape() && CoreOk(V(), c, {}) && Timely(clock, state) && MailOk(old(M()))
      ensures FailedThreads(Departed(old(M()), current[c], final), M(), SetOf(old(lists.sq)[current[c]]))
      ensures OnlyAt(old(need), need, c)
    {
      hide CoreOk, Timely, Detached, FailedThreads, Cleared;
      var t := current[c];
      CoreMail(c, {});
      ghost var q := lists.sq[t];
      DetachStart(V(), c, t, final);
      TimelyState(clock, state, t, final);
      state := state[t := final];
      var s := send.head[t];
      send := SendLists(send.next, send.head[t := NIL], send.tail[t := NIL]);
      lists := lists.(sq := lists.sq[t := []], inSq := Cleared(lists.inSq, q));
      FailedNone(M());
      WakeSenders(c, s, q, M());
    }

    method WakeSenders(c: nat, first: int, ghost q: seq<int>, ghost was: Mail)
      requires Shape() && Detached(V(), c, q) && Timely(clock, state) && c < |current|
      requires first == (if q == [] then NIL else q[0]) && FailedThreads(was, M(), {})
      modifies `state, `send, `wake, `lists, `need, `frame
      ensures Shape() && CoreOk(V(), c, {}) && Timely(clock, state) && FailedThreads(was, M(), SetOf(q))
      ensures OnlyAt(old(need), need, c)
    {
      hide CoreOk, Timely, Detached, FailedThreads;
      var s := first;
      ghost var rest := q;
      assert SetOf(q) - SetOf(q) == {};
      while s != NIL
        invariant Shape() && Detached(V(), c, rest) && Timely(clock, state) && c < |current|
        invariant s == (if rest == [] then NIL else rest[0]) && SetOf(rest) <= SetOf(q)
        invariant FailedThreads(was, M(), SetOf(q) - SetOf(rest)) && OnlyAt(old(need), need, c)
        decreases |rest|
      {
        ghost var done := SetOf(q) - SetOf(rest);
        s := WakeSender(c, s, rest, was, done);
        assert SetOf(q) - SetOf(rest[1..]) == done + {rest[0]};
        rest := rest[1..];
      }
      DetachEnd(V(), c, rest);
      assert SetOf(q) - SetOf([]) == SetOf(q);
    }

    method WakeSender(c: nat, s: int, ghost rest: seq<int>, ghost was: Mail, ghost done: set<int>) returns (next: int)
      requires Shape() && Detached(V(), c, rest) && Timely(clock, state) && c < |current|
      requires rest != [] && s == rest[0] && s !in done && FailedThreads(was, M(), done)
      modifies `state, `send, `wake, `lists, `need, `frame
      ensures Shape() && Detached(V(), c, rest[1..]) && Timely(clock, state) && SetOf(rest[1..]) == SetOf(rest) - {s}
      ensures next == (if |rest| > 1 then rest[1] else NIL) && FailedThreads(was, M(), done + {s})
      ensures OnlyAt(old(need), need, c)
    {
      hide CoreOk, Timely, Detached, FailedThreads;
      ghost var v, m := V(), M();
      DetachFirst(v, c, rest);
      next := send.next[s];
      send := send.(next := send.next[s := NIL]);
      TimelyState(clock, state, s, Ready);
      WakeFailed(c, s, SetOf(rest));
      DetachNext(v, V(), c, rest);
      FailedMore(was, m, done, M(), s);
    }

    /** Tells thread i that `gone` is gone. */
    method TellOne(c: nat, gone: int, i: nat, ghost was: Mail, ghost parents: seq<int>)
      requires Inv(c) && c < |current| && 0 < i < THREADS && Told(was, parents, M(), parent, gone, i)
      modifies `state, `wake, `lists, `need, `frame, `parent
      ensures Inv(c) && Told(was, parents, M(), parent, gone, i + 1)
      ensures OnlyAt(old(need), need, c)
    {
      hide CoreOk, Timely, Told;
      CoreMail(c, {});
      CorePlaced(V(), c, {}, i);
      ToldNext(was, parents, M(), parent, gone, i);
      if state[i].WaitRecv? && partner[i] == gone {
        TimelyState(clock, state, i, Ready);
        WakeFailed(c, i, {});
      }
      if parent[i] == gone {
        parent := parent[i := 0];
        if state[i].Zombie? {
          CoreReap(V(), c, i);
          TimelyState(clock, state, i, Dead);
          state := state[i := Dead];
        }
      }
    }

    /** Fails the receives that name `gone` and orphans its children. */
    method TellOthers(c: nat, gone: int)
      requires Inv(c) && c < |current|
      modifies `state, `wake, `lists, `need, `frame, `parent
      ensures Inv(c) && Told(old(M()), old(parent), M(), parent, gone, THREADS)
      ensures OnlyAt(old(need), need, c)
    {
      hide CoreOk, Timely, Told;
      CoreMail(c, {});
      ToldNone(M(), parent, gone);
      var i := 1;
      while i < THREADS
        invariant 0 < i <= THREADS && Inv(c) && c < |current| && Told(old(M()), old(parent), M(), parent, gone, i)
        invariant OnlyAt(old(need), need, c)
      {
        TellOne(c, gone, i, old(M()), old(parent));
        i := i + 1;
      }
    }

    /** The thread CPU c runs ends. */
    method Terminate(c: nat, final: State)
      requires Inv(c) && c < |current| && Tid(current[c]) && state[current[c]].Running? && !Live(final)
      modifies `state, `send, `wake, `lists, `need, `frame, `parent
      ensures Inv(c) && MailOk(old(M())) && Gone(old(M()), old(parent), M(), parent, current[c], final)
      ensures need == old(need)[c := true]
    {
      hide CoreOk, Timely, Told, FailedThreads, Departed, Gone;
      CoreMail(c, {});
      SendersOf(V(), c, current[c]);
      DropSenders(c, final);
      ghost var left := M();
      TellOthers(c, current[c]);
      GoneBy(old(M()), old(parent), left, M(), parent, current[c], final);
      need := need[c := true];
    }

    /** The thread CPU c runs exits: a parent waiting for it is woken, and it stays a zombie
        only for a live parent that is not. */
    method Exit(c: nat, status: int)
      requires Inv(c) && c < |current| && Tid(current[c]) && state[current[c]].Running?
      modifies `state, `send, `wake, `lists, `need, `frame, `parent
      ensures Inv(c) && MailOk(old(M())) && |old(parent)| == |waitFilter| == THREADS
      ensures Exited(old(M()), old(parent), waitFilter, M(), parent, current[c], status)
      ensures Bequeaths(old(M()), M(), old(parent), waitFilter, current[c], status)
      ensures need == old(need)[c := true]
    {
      hide CoreOk, Timely, MailOk, Exited, Bequeaths;
      CoreMail(c, {});
      SendersOf(V(), c, current[c]);
      Leave(c, status);
      ExitedBequeaths(old(M()), M(), old(parent), parent, waitFilter, current[c], status);
    }

    method Leave(c: nat, status: int)
      requires Inv(c) && c < |current| && Tid(current[c]) && state[current[c]].Running?
      modifies `state, `send, `wake, `lists, `need, `frame, `parent
      ensures Inv(c) && MailOk(old(M())) && |old(parent)| == |waitFilter| == THREADS
      ensures Exited(old(M()), old(parent), waitFilter, M(), parent, current[c], status)
      ensures need == old(need)[c := true]
    {
      hide CoreOk, Timely, Gone, MailOk, WakeMail, Reaping;
      CoreMail(c, {});
      var cur := current[c];
      var p := parent[cur];
      if Tid(p) && Live(state[p]) {
        if state[p].WaitChild? && (waitFilter[p] == 0 || waitFilter[p] == cur) {
          ReapingIs(M(), p, cur, status);
          frame := frame[p := Reaped(frame[p], cur, status)];
          WakeBlocked(c, p);
          Terminate(c, Dead);
        } else {
          Terminate(c, Zombie);
        }
      } else {
        Terminate(c, Dead);
      }
    }

    /** A zombie's slot becomes free. */
    method Reap(c: nat, t: int)
      requires Inv(c) && Tid(t) && state[t].Zombie?
      modifies `state
      ensures Inv(c) && |old(state)| == THREADS && state == old(state)[t := Dead]
    {
      hide CoreOk, Timely;
      CorePlaced(V(), c, {}, t);
      CoreReap(V(), c, t);
      TimelyState(clock, state, t, Dead);
      state := state[t := Dead];
    }

    /** The thread CPU c runs blocks outside of IPC: on a page fault, a child, the console or an
        exec request. */
    method BlockOther(c: nat, why: State)
      requires Inv(c) && c < |current| && Tid(current[c]) && state[current[c]].Running?
      requires Wakeable(why)
      modifies `state
      ensures Inv(c) && |old(state)| == THREADS && state == old(state)[current[c] := why]
    {
      hide CoreOk, Timely;
      CorePlaced(V(), c, {}, current[c]);
      TimelyState(clock, state, current[c], why);
      Block(c, why);
    }

    // ---- Time and notifications ---------------------------------------------------------------

    method Yield(c: nat)
      requires Inv(c) && c < |current|
      modifies `need
      ensures Inv(c) && need == old(need)[c := true]
    {
      hide CoreOk, Timely;
      need := need[c := true];
    }

    method Sleep(c: nat, ticks: nat)
      requires Inv(c) && c < |current| && Tid(current[c]) && state[current[c]].Running?
      modifies `need, `state, `clock
      ensures Inv(c) && |old(clock.wakeAt)| == THREADS == |old(state)|
      ensures ticks == 0 ==> need == old(need)[c := true] && state == old(state) && clock == old(clock)
      ensures ticks > 0 ==>
                var at := (old(clock.now) + ticks) % LIMIT64;
                && state == old(state)[current[c] := Sleeping] && need == old(need)
                && clock == old(clock).(wakeAt := old(clock.wakeAt)[current[c] := at],
                                        nextDeadline := Sooner(old(clock.nextDeadline), at))
    {
      hide CoreOk, Timely, Wired;
      TimelyIsWired(clock, state);
      WiredSizes(clock, state);
      TimelySleep(clock, state, current[c], (clock.now + ticks) % LIMIT64);
      if ticks == 0 {
        Yield(c);
        return;
      }
      var at := (clock.now + ticks) % LIMIT64;
      clock := clock.(wakeAt := clock.wakeAt[current[c] := at]);
      Block(c, Sleeping);
      if at < clock.nextDeadline {
        clock := clock.(nextDeadline := at);
      }
    }

    /** Adds bits to a notification and hands its word to the waiter, if there is one. */
    method NotifDeliver(c: nat, i: nat, bits: Bits)
      requires CoreOk(V(), c, {}) && Wired(clock, state) && i < |clock.notifs| && c < |current| == |need|
      requires |frame| == THREADS
      modifies `state, `wake, `lists, `need, `frame, `clock
      ensures CoreOk(V(), c, {}) && |need| == |old(need)| && |frame| == THREADS
      ensures clock == Notified(old(clock), i, bits)
      ensures var w := old(clock.notifs)[i].waiter;
              if w == 0 then state == old(state) && lists == old(lists) && frame == old(frame)
              else && Tid(w) && |old(state)| == |old(lists.inIb)| == THREADS
                   && state == old(state)[w := Ready] && lists == Woken(old(lists), w)
                   && frame == old(frame)[w := Signalled(old(frame)[w], Or(old(clock.notifs)[i].word, bits))]
      ensures NeedIs(old(state), state, prio, current, c, old(need), need)
    {
      hide CoreOk, Wired, Signalled, Or, NeedIs;
      NeedNone(state, prio, current, c, need);
      WiredNotify(clock, state, i, bits);
      var n := clock.notifs[i];
      n := n.(word := Or(n.word, bits));
      if n.waiter != 0 {
        SignalWaiter(c, n.waiter, n.word);
        n := Notification(0, 0);
      }
      clock := clock.(notifs := clock.notifs[i := n]);
    }

    /** A waiter is live while it is recorded, so the source's check for that always passes. */
    method SignalWaiter(c: nat, w: int, word: Bits)
      requires CoreOk(V(), c, {}) && c < |current| == |need| && |frame| == THREADS && Tid(w)
      requires state[w].WaitNotification?
      modifies `state, `wake, `lists, `need, `frame
      ensures CoreOk(V(), c, {}) && |need| == |old(need)| && |old(state)| == |old(lists.inIb)| == THREADS
      ensures state == old(state)[w := Ready] && lists == Woken(old(lists), w)
      ensures frame == old(frame)[w := Signalled(old(frame)[w], word)]
      ensures NeedIs(old(state), state, prio, current, c, old(need), need)
    {
      hide CoreOk, Signalled, NeedIs;
      CoreSizes(V(), c, {});
      NeedOne(state, prio, current, c, need, w);
      CorePlaced(V(), c, {}, w);
      frame := frame[w := Signalled(frame[w], word)];
      Wake(c, w, {});
    }

    method NotifSignal(c: nat, i: nat, bits: Bits)
      requires Inv(c) && c < |current| && i < |clock.notifs|
      modifies `state, `wake, `lists, `need, `frame, `clock
      ensures Inv(c) && clock == Notified(old(clock), i, bits)
      ensures |frame| == |old(frame)| == |state| == |old(state)| == THREADS
      ensures var n := old(clock.notifs)[i];
              && |clock.notifs| == |old(clock.notifs)| && (forall j :: 0 <= j < |clock.notifs| && j != i ==>
                    clock.notifs[j] == old(clock.notifs)[j])
              && if n.waiter == 0 then
                   && clock.notifs[i].waiter == 0
                   && Has(clock.notifs[i].word, bits) && Has(clock.notifs[i].word, n.word)
                   && state == old(state) && frame == old(frame)
                 else
                   && clock.notifs[i] == Notification(0, 0) && Tid(n.waiter) && state == old(state)[n.waiter := Ready]
                   && GotWord(old(frame)[n.waiter], frame[n.waiter], Or(n.word, bits))
                   && forall t :: 0 <= t < THREADS && t != n.waiter ==> frame[t] == old(frame)[t]
      ensures NeedIs(old(state), state, prio, current, c, old(need), need)
    {
      hide CoreOk, Timely, Wired, NeedIs, Signalled, Has, GotWord;
      CoreSizes(V(), c, {});
      ghost var n := clock.notifs[i];
      OrHas(n.word, bits);
      if n.waiter != 0 {
        TimelyIsWired(clock, state);
        WiredNotify(clock, state, i, bits);
        SignalledWord(frame[n.waiter], Or(n.word, bits));
      }
      TimelyIsWired(clock, state);
      TimelyNotify(clock, state, i, bits);
      NotifDeliver(c, i, bits);
    }

    /** Takes the pending bits of a notification, or waits for some. */
    method NotifWait(c: nat, i: nat)
      requires Inv(c) && c < |current| && Tid(current[c]) && state[current[c]].Running? && i < |clock.notifs|
      modifies `state, `frame, `clock
      ensures Inv(c) && |old(state)| == |old(frame)| == THREADS
      ensures var n := old(clock.notifs)[i];
              if n.word != 0 then
                && state == old(state) && |frame| == THREADS
                && GotWord(old(frame)[current[c]], frame[current[c]], n.word)
                && frame == old(frame)[current[c] := frame[current[c]]]
                && clock == old(clock).(notifs := old(clock.notifs)[i := n.(word := 0)])
              else
                && state == old(state)[current[c] := WaitNotification] && frame == old(frame)
                && clock == old(clock).(notifs := old(clock.notifs)[i := n.(waiter := current[c])])
    {
      hide CoreOk, Timely;
      CorePlaced(V(), c, {}, current[c]);
      var n := clock.notifs[i];
      SignalledWord(frame[current[c]], n.word);
      if n.word != 0 {
        TimelyDrain(clock, state, i);
        frame := frame[current[c] := Signalled(frame[current[c]], n.word)];
        clock := clock.(notifs := clock.notifs[i := n.(word := 0)]);
      } else {
        TimelyWait(clock, state, i, current[c]);
        clock := clock.(notifs := clock.notifs[i := n.(waiter := current[c])]);
        Block(c, WaitNotification);
      }
    }

    method TimerArm(c: nat, i: nat, notif: nat, ticksFromNow: nat, bits: Bits, period: nat)
      requires Inv(c) && i < |clock.timers| && notif < |clock.notifs| && ticksFromNow < LIMIT64 && period < LIMIT64
      modifies `clock
      ensures Inv(c)
      ensures var at := (old(clock.now) + if ticksFromNow < 1 then 1 else ticksFromNow) % LIMIT64;
              clock == old(clock).(timers := old(clock.timers)[i := Timer(true, at, notif, bits, period)],
                                   nextDeadline := Sooner(old(clock.nextDeadline), at))
    {
      hide CoreOk, Timely;
      var deadline := (clock.now + if ticksFromNow < 1 then 1 else ticksFromNow) % LIMIT64;
      TimelyArm(clock, state, i, Timer(true, deadline, notif, bits, period));
      clock := clock.(timers := clock.timers[i := Timer(true, deadline, notif, bits, period)]);
      if deadline < clock.nextDeadline {
        clock := clock.(nextDeadline := deadline);
      }
    }

    method TimerDisarm(c: nat, i: nat)
      requires Inv(c) && i < |clock.timers|
      modifies `clock
      ensures Inv(c) && clock == old(clock).(timers := old(clock.timers)[i := old(clock.timers)[i].(armed := false)])
    {
      hide CoreOk, Timely;
      TimelyDisarm(clock, state, i);
      clock := clock.(timers := clock.timers[i := clock.timers[i].(armed := false)]);
    }

    /** Wakes every sleeper that is due. */
    method WakeSleepers(c: nat)
      requires CoreOk(V(), c, {}) && Scanned(clock, state, 1, 0) && c < |current| == |need|
      modifies `state, `wake, `lists, `need, `clock
      ensures CoreOk(V(), c, {}) && Scanned(clock, state, THREADS, 0) && |need| == |old(need)|
      ensures clock == old(clock).(nextDeadline := clock.nextDeadline) && Roused(clock, old(state), state, THREADS)
      ensures NeedIs(old(state), state, prio, current, c, old(need), need)
    {
      hide CoreOk, Scanned, Roused, Wired, NeedIs;
      NeedNone(state, prio, current, c, need);
      ScannedSizes(clock, state, 1, 0);
      RousedNone(clock, state);
      var i := 1;
      while i < THREADS
        invariant 0 < i <= THREADS && |need| == |old(need)| && |state| == |clock.wakeAt| == THREADS
        invariant CoreOk(V(), c, {}) && Scanned(clock, state, i, 0)
        invariant clock == old(clock).(nextDeadline := clock.nextDeadline) && Roused(clock, old(state), state, i)
        invariant NeedIs(old(state), state, prio, current, c, old(need), need)
      {
        ScanThread(clock, state, i, 0);
        RousedAt(clock, old(state), state, i);
        RousedNext(clock, old(state), state, i);
        if state[i].Sleeping? {
          if clock.wakeAt[i] <= clock.now {
            CorePlaced(V(), c, {}, i);
            CoreSizes(V(), c, {});
            NeedWoken(old(state), state, prio, current, c, old(need), need, i);
            Wake(c, i, {});
          } else if clock.wakeAt[i] < clock.nextDeadline {
            RousedDeadline(clock, old(state), state, i + 1, clock.wakeAt[i]);
            clock := clock.(nextDeadline := clock.wakeAt[i]);
          }
        }
        i := i + 1;
      }
    }

    /** Signals timer i if it is due, and sets it to its next deadline or off. */
    method RescanTimer(c: nat, i: nat, ghost was: Clock, ghost from: seq<State>, ghost fromFrame: seq<Frame>)
      requires CoreOk(V(), c, {}) && Scanned(clock, state, THREADS, i) && c < |current| == |need| && |frame| == THREADS
      requires i < |clock.timers| && Rung(was, clock, from, state, i) && RescanEnds(was, clock.now)
      requires Heard(was, clock, clock.now, from, state, fromFrame, frame, i) && OneWait(was)
      modifies `state, `wake, `lists, `need, `frame, `clock
      ensures CoreOk(V(), c, {}) && Scanned(clock, state, THREADS, i + 1) && |need| == |old(need)| && |frame| == THREADS
      ensures Rung(was, clock, from, state, i + 1) && clock.now == old(clock.now)
      ensures Heard(was, clock, clock.now, from, state, fromFrame, frame, i + 1)
      ensures NeedIs(old(state), state, prio, current, c, old(need), need) && OnlyWoken(old(state), state)
    {
      hide CoreOk, Scanned, Wired, Rung, Notified, Heard, NeedIs, OneWait, Signalled, Or, OnlyWoken;
      NeedNone(state, prio, current, c, need);
      OnlyNone(state);
      RungAt(was, clock, from, state, i);
      ghost var k := clock;
      ScannedAt(clock, state, THREADS, i, i);
      var t := clock.timers[i];
      if t.armed && t.deadline <= clock.now {
        ScannedNotify(clock, state, THREADS, i, t.notif, t.bits);
        RungNotified(was, clock, from, state, i, t.notif, t.bits, clock.notifs[t.notif].waiter);
        NotifiedTimers(clock, t.notif, t.bits);
        HeardRings(was, clock, clock.now, from, state, fromFrame, frame, i, Notified(clock, t.notif, t.bits));
        NotifDeliver(c, t.notif, t.bits);
        OnlyOne(old(state), k.notifs[t.notif].waiter);
        if t.period != 0 {
          var d := CatchUp(t.deadline, t.period, clock.now);
          t := t.(deadline := d);
        } else {
          t := t.(armed := false);
        }
      }
      if !Due(was.timers[i], clock.now) {
        HeardQuiet(was, clock, clock.now, from, state, fromFrame, frame, i, clock);
      }
      HeardSame(was, clock, clock.now, from, state, fromFrame, frame, i + 1);
      ScanTimer(clock, state, i, t);
      RungNext(was, clock, from, state, i, t,
               if t.armed then Sooner(clock.nextDeadline, t.deadline) else clock.nextDeadline);
      clock := clock.(timers := clock.timers[i := t]);
      if t.armed && t.deadline < clock.nextDeadline {
        clock := clock.(nextDeadline := t.deadline);
      }
    }

    method RescanTimers(c: nat)
      requires CoreOk(V(), c, {}) && Scanned(clock, state, THREADS, 0) && c < |current| == |need| && |frame| == THREADS
      requires RescanEnds(clock, clock.now)
      modifies `state, `wake, `lists, `need, `frame, `clock
      ensures CoreOk(V(), c, {}) && Scanned(clock, state, THREADS, |clock.timers|) && |need| == |old(need)|
      ensures |frame| == THREADS
      ensures Rung(old(clock), clock, old(state), state, |clock.timers|) && |clock.timers| == |old(clock.timers)|
      ensures Heard(old(clock), clock, clock.now, old(state), state, old(frame), frame, |clock.timers|)
      ensures NeedIs(old(state), state, prio, current, c, old(need), need) && OnlyWoken(old(state), state)
    {
      hide CoreOk, Scanned, Wired, Rung, Heard, NeedIs, OneWait, OnlyWoken;
      ScannedSizes(clock, state, THREADS, 0);
      WiredOneWait(clock, state);
      RungNone(clock, state);
      HeardNone(clock, clock.now, state, frame);
      NeedNone(state, prio, current, c, need);
      OnlyNone(state);
      var i := 0;
      while i < |clock.timers|
        invariant 0 <= i <= |clock.timers| && |need| == |old(need)| && |frame| == THREADS && clock.now == old(clock.now)
        invariant CoreOk(V(), c, {}) && Scanned(clock, state, THREADS, i)
        invariant Rung(old(clock), clock, old(state), state, i) && |clock.timers| == |old(clock.timers)|
        invariant Heard(old(clock), clock, clock.now, old(state), state, old(frame), frame, i)
        invariant NeedIs(old(state), state, prio, current, c, old(need), need) && OnlyWoken(old(state), state)
        decreases |old(clock.timers)| - i
      {
        RungAt(old(clock), clock, old(state), state, i);
        ghost var mid, midNeed := state, need;
        RescanTimer(c, i, old(clock), old(state), old(frame));
        OnlyJoined(old(state), mid, state);
        NeedJoined(old(state), mid, state, prio, current, c, old(need), midNeed, need);
        ScannedSizes(clock, state, THREADS, i + 1);
        RungNow(old(clock), clock, old(state), state, i + 1);
        i := i + 1;
      }
    }

    /** Time has reached the next deadline: everything due is seen to. */
    method RescanAll(c: nat)
      requires Inv(c) && c < |current| && RescanEnds(clock, clock.now) && clock.now >= clock.nextDeadline
      modifies `state, `wake, `lists, `need, `frame, `clock
      ensures Inv(c) && NoneOverdue(clock, state) && clock.now == old(clock.now)
      ensures Ticked(old(clock), clock, old(state), state, clock.now)
      ensures |old(frame)| == THREADS
      ensures Heard(old(clock), clock, clock.now, old(state), state, old(frame), frame, |old(clock.timers)|)
      ensures NeedIs(old(state), state, prio, current, c, old(need), need)
    {
      hide CoreOk, Timely, Scanned, Wired, Roused, Rung, Ticked, NoneOverdue, RescanEnds, Heard, NeedIs, OnlyWoken;
      TimelyIsWired(clock, state);
      WiredSizes(clock, state);
      ScanStart(clock, state);
      RescanEndsSame(clock, clock.now, NEVER);
      clock := clock.(nextDeadline := NEVER);
      WakeSleepers(c);
      ghost var k, roused, mid := clock, state, need;
      RescanEndsSame(old(clock), clock.now, clock.nextDeadline);
      assert clock == old(clock).(nextDeadline := clock.nextDeadline);
      RescanTimers(c);
      ScanEnd(clock, state);
      RungNow(k, clock, roused, state, |clock.timers|);
      assert old(clock).(now := clock.now, nextDeadline := k.nextDeadline) == k;
      TickedBy(old(clock), clock, old(state), roused, state, clock.now, k.nextDeadline);
      HeardRoused(old(clock), k, clock, old(state), roused, state, old(frame), frame);
      RousedOnly(k, old(state), roused);
      OnlyJoined(old(state), roused, state);
      NeedJoined(old(state), roused, state, prio, current, c, old(need), mid, need);
    }

    /** The time after the next tick of CPU c. */
    function NextTick(c: nat): int
      requires c < |armed|
      reads `clock, `armed
    {
      (clock.now + if armed[c] < 1 then 1 else armed[c]) % LIMIT64
    }

    /** Whether an entry never leaves the kernel: the tick of the first CPU reaches the rescan, and
        the catch-up loop of a timer goes round for ever. */
    ghost predicate Hangs(c: nat, op: Op)
      requires c < |armed|
      reads `clock, `armed
    {
      op.DoTick? && c == 0 && NextTick(c) >= clock.nextDeadline && exists i :: Endless(clock, i, NextTick(c))
    }

    /** The timer interrupt of CPU c. The first CPU keeps time: after it, nothing is overdue. */
    method Tick(c: nat)
      requires Inv(c) && c < |current|
      requires c == 0 ==> RescanEnds(clock, NextTick(c))
      modifies `state, `wake, `lists, `need, `frame, `clock, `timeslice, `armed
      ensures Inv(c)
      ensures c != 0 ==> clock == old(clock) && state == old(state)
      ensures c == 0 ==> NoneOverdue(clock, state)
      ensures c == 0 ==> Ticked(old(clock), clock, old(state), state, old(NextTick(c)))
      ensures |old(frame)| == |old(timeslice)| == THREADS && |armed| == |current|
      ensures armed == old(armed)[c := armed[c]] && ArmedFor(armed[c], current[c], timeslice, c == 0, clock)
      ensures c == 0 ==>
                Heard(old(clock), clock, old(NextTick(c)), old(state), state, old(frame), frame, |old(clock.timers)|)
      ensures timeslice == if current[c] == NIL then old(timeslice) else
                var ticks := if old(armed)[c] < 1 then 1 else old(armed)[c];
                old(timeslice)[current[c] := old(timeslice)[current[c]] - ticks]
      ensures var spent := current[c] != NIL && timeslice[current[c]] <= 0;
              need == if Outranked(old(state), state, prio, current, c) || spent then old(need)[c := true]
                      else old(need)
    {
      hide CoreOk, Timely, Scanned, Wired, Roused, Rung, Ticked, NoneOverdue, RescanEnds, Heard, Outranked;
      CoreSizes(V(), c, {});
      NeedNone(state, prio, current, c, need);
      var n := if armed[c] < 1 then 1 else armed[c];
      if c == 0 {
        Advance(c, (clock.now + n) % LIMIT64);
      }
      CoreSizes(V(), c, {});
      TickLocal(c, n);
      Arm(c);
    }

    method Advance(c: nat, now: int)
      requires Inv(c) && c < |current| && RescanEnds(clock, now) && 0 <= now < LIMIT64
      modifies `state, `wake, `lists, `need, `frame, `clock
      ensures Inv(c) && NoneOverdue(clock, state) && Ticked(old(clock), clock, old(state), state, now)
      ensures |old(frame)| == THREADS
      ensures Heard(old(clock), clock, now, old(state), state, old(frame), frame, |old(clock.timers)|)
      ensures NeedIs(old(state), state, prio, current, c, old(need), need)
    {
      hide CoreOk, Timely, Scanned, Wired, Roused, Rung, Ticked, NoneOverdue, RescanEnds, Heard, NeedIs;
      NeedNone(state, prio, current, c, need);
      TimelyNow(clock, state, now);
      RescanEndsNow(clock, now);
      ghost var k := clock;
      clock := clock.(now := now);
      if clock.now >= clock.nextDeadline {
        RescanAll(c);
        TickedNow(k, clock, old(state), state, now);
        HeardLike(k.(now := now), k, clock, now, old(state), state, old(frame), frame);
      } else {
        TimelyAhead(clock, state);
        TimelyIsWired(clock, state);
        WiredSizes(clock, state);
        HeardAhead(clock, k, clock, now, state, frame);
        TickedNone(k, clock, state, now);
      }
    }

    method TickLocal(c: nat, n: int)
      requires c < |current| == |need| && |timeslice| == THREADS && (current[c] == NIL || Tid(current[c]))
      modifies `need, `timeslice
      ensures |timeslice| == THREADS && |need| == |old(need)|
      ensures timeslice == if current[c] == NIL then old(timeslice)
                           else old(timeslice)[current[c] := old(timeslice)[current[c]] - n]
      ensures need == if current[c] != NIL && timeslice[current[c]] <= 0 then old(need)[c := true] else old(need)
    {
      if current[c] != NIL {
        timeslice := timeslice[current[c] := timeslice[current[c]] - n];
        if timeslice[current[c]] <= 0 {
          need := need[c := true];
        }
      }
    }

    /** Sets the timer of CPU c: within bounds, no later than the slice of its thread ends and,
        on the first CPU, no later than the next deadline. */
    method Arm(c: nat)
      requires c < |current| == |armed| && |timeslice| == THREADS && (current[c] == NIL || Tid(current[c]))
      modifies `armed
      ensures |armed| == |old(armed)| && armed == old(armed)[c := armed[c]]
      ensures ArmedFor(armed[c], current[c], timeslice, c == 0, clock)
    {
      var n := if current[c] == NIL then MAX_ARM else if timeslice[current[c]] > 0 then timeslice[current[c]] else 1;
      if c == 0 && clock.nextDeadline != NEVER {
        var sleeper := if clock.nextDeadline > clock.now then clock.nextDeadline - clock.now else 1;
        if sleeper < n {
          n := sleeper;
        }
      }
      if n > MAX_ARM {
        n := MAX_ARM;
      }
      if n < 1 {
        n := 1;
      }
      armed := armed[c := n];
    }

    // ---- Leaving the kernel -------------------------------------------------------------------

    /** Before the lock is released: CPU c reschedules if asked to or if its thread stopped
        running. Every CPU then idles or runs a running thread. */
    method Resume(c: nat)
      requires Inv(c) && c < |current|
      modifies `state, `ready, `wake, `lists, `current, `need, `timeslice, `armed
      ensures Inv(-1) && |current| == |old(current)|
      ensures old(need[c] || (current[c] != NIL && !state[current[c]].Running?)) ==>
                && Lineable(old(lists.rq), old(lists.ib), old(state), prio, old(current)[c])
                && Picked(Lines(old(lists.rq), old(lists.ib), old(state), prio, old(current)[c]), lists.rq, prio,
                     current[c])
                && (forall t :: 0 <= t < THREADS && state[t].Ready? ==>
                      current[c] != NIL && prio[t] <= prio[current[c]])
                && (current[c] == NIL || Tid(current[c])) && need == old(need)[c := false]
                && InTurn(old(lists.rq), old(state), prio, old(current)[c], lists.rq, current[c])
                && |armed| == |old(armed)| == |current| && ArmedFor(armed[c], current[c], timeslice, c == 0, clock)
                && timeslice == if current[c] != NIL && old(timeslice)[current[c]] <= 0
                                then old(timeslice)[current[c] := TIMESLICE] else old(timeslice)
      ensures !old(need[c]) && old(current[c] == NIL || state[current[c]].Running?) ==>
                V() == old(V()) && need == old(need) && timeslice == old(timeslice) && armed == old(armed)
    {
      hide CoreOk, Timely, Lines, Lineable, Picked, Left;
      CoreSizes(V(), c, {});
      if need[c] || (current[c] != NIL && !state[current[c]].Running?) {
        Schedule(c);
        SwitchTimely(clock, old(state), old(current)[c], current[c]);
        CoreSizes(V(), -1, {});
        Arm(c);
      } else {
        CoreBack(V(), c);
      }
    }

    // ---- Runs ---------------------------------------------------------------------------------

    /** One stay of CPU c in the kernel, from taking the lock to releasing it. A step that the
        table has no thread, timer or notification for does nothing; one that hangs is not taken. */
    method Step(c: nat, op: Op) returns (hangs: bool, ghost mid: Snap)
      requires Inv(-1) && c < |current|
      modifies this
      ensures Inv(-1) && |current| == |old(current)| && |old(armed)| == |old(current)|
      ensures hangs <==> old(Hangs(c, op))
      ensures hangs ==> S() == old(S())
      ensures !hangs ==> Entered(op, c, old(S()), mid, S())
      ensures forall t :: Woke(old(state), state, t) ==>
                && |prio| == THREADS && prio[t] <= Rank(prio, current, c)
                && (prio[t] > 0 ==> current[c] != NIL)
    {
      hide CoreOk, Timely, RescanEnds, Endless, Woke, Yields, Enters, Resumed;
      mid := S();
      NoneWoke(state);
      CoreAny(V(), c, {});
      CoreSizes(V(), c, {});
      CpuRuns(V(), c);
      HangsExactly(clock, state, NextTick(c));
      hangs := op.DoTick? && c == 0 && !RescanEnds(clock, NextTick(c));
      if hangs {
        return;
      }
      Enter(c, op);
      mid := S();
      CoreSizes(mid.v, c, {});
      CpuThread(mid.v, c, {}, c);
      GoBack(c);
      CoreSizes(V(), -1, {});
      EntryRanks(old(state), c, mid, S());
    }

    /** What the entry is for. */
    method Enter(c: nat, op: Op)
      requires Inv(c) && c < |current| && !Hangs(c, op)
      requires current[c] == NIL || (Tid(current[c]) && |state| == THREADS && state[current[c]].Running?)
      modifies this
      ensures Inv(c) && |current| == |old(current)|
      ensures Yields(old(state), state, prio, current, c, need)
      ensures Enters(op, c, old(S()), S())
    {
      hide CoreOk, Timely, Yields, DidCall, DidClock, Serves;
      if current[c] != NIL {
        RunningStep(c, op);
      } else {
        IdleStep(c, op);
      }
    }

    /** The way out. */
    method GoBack(c: nat)
      requires Inv(c) && c < |current|
      modifies `state, `ready, `wake, `lists, `current, `need, `timeslice, `armed
      ensures Inv(-1) && |current| == |old(current)| && Resumed(c, old(S()), S())
    {
      hide CoreOk, Timely, Lineable, Lines, Picked, InTurn, ArmedFor;
      CoreSizes(V(), c, {});
      CpuThread(V(), c, {}, c);
      Resume(c);
      CoreSizes(V(), -1, {});
    }

    /** An idle CPU counts as one that runs a thread of priority 0: it stays idle when such a thread is
        woken. */
    method IdleStaysIdle(c: nat, t: int)
      requires Inv(-1) && c < |current| && current[c] == NIL && !need[c]
      requires Tid(t) && Wakeable(state[t]) && |prio| == THREADS && prio[t] == 0
      modifies `state, `ready, `wake, `lists, `current, `need, `timeslice, `armed
      ensures Inv(-1) && c < |current| && current[c] == NIL && |state| == THREADS && state[t].Ready?
    {
      hide CoreOk, Timely, Lineable, Lines, Picked;
      CoreAny(V(), c, {});
      CoreSizes(V(), c, {});
      WakeBlocked(c, t);
      CoreSizes(V(), c, {});
      Resume(c);
    }

    /** Steps any CPU can take. */
    method IdleStep(c: nat, op: Op)
      requires Inv(c) && c < |current| && !Hangs(c, op)
      modifies this
      ensures Inv(c) && |current| == |old(current)|
      ensures Yields(old(state), state, prio, current, c, need)
      ensures Serves(op, c, old(state), state, prio, need, old(clock), clock, old(armed))
    {
      hide CoreOk, Timely, RescanEnds, Endless, Yields, NeedIs, Woke, NoneOverdue;
      CoreSizes(V(), c, {});
      NoneWoke(state);
      match op {
        case DoCreate(priority, pagerTid, parentTid) =>
          if priority < PRIOS {
            CreateStep(c, priority, pagerTid, parentTid);
          } else {
            QuietYields(old(state), state, prio, current, c, need);
          }
        case DoWake(t) =>
          if Tid(t) && Wakeable(state[t]) {
            WakeBlocked(c, t);
            NeedYields(old(state), state, prio, current, c, old(need), need);
          } else {
            QuietYields(old(state), state, prio, current, c, need);
          }
        case DoReap(t) =>
          if Tid(t) && state[t].Zombie? {
            Reap(c, t);
            NotWoken(old(state), t, Dead);
          }
          QuietYields(old(state), state, prio, current, c, need);
        case DoTick => TickStep(c);
        case _ =>
          Yield(c);
          AskedYields(old(state), state, prio, current, c, need);
      }
      CoreSizes(V(), c, {});
    }

    method CreateStep(c: nat, priority: nat, pagerTid: int, parentTid: int)
      requires Inv(c) && c < |current| && priority < PRIOS
      modifies `state, `prio, `timeslice, `frame, `partner, `recvAfter, `buffer, `pager, `parent, `waitFilter, `ready,
        `wake, `send, `lists, `clock
      ensures Inv(c) && Yields(old(state), state, prio, current, c, need)
      ensures |old(state)| == |state| == |prio| == THREADS
      ensures (exists t :: Tid(t) && old(state)[t].Dead?) ==>
                exists t :: Tid(t) && old(state)[t].Dead? && state[t].Ready? && prio[t] == priority
    {
      hide CoreOk, Timely, Yields, Woke, Queued;
      NoneWoke(state);
      CoreSizes(V(), c, {});
      var t := Create(c, priority, pagerTid, parentTid);
      CoreSizes(V(), c, {});
      if t != NIL {
        NotWoken(old(state), t, Ready);
      }
      QuietYields(old(state), state, prio, current, c, need);
    }

    method TickStep(c: nat)
      requires Inv(c) && c < |current| && !Hangs(c, DoTick)
      modifies `state, `wake, `lists, `need, `frame, `clock, `timeslice, `armed
      ensures Inv(c) && Yields(old(state), state, prio, current, c, need) && |old(armed)| == |current|
      ensures c == 0 ==>
                && clock.now == (old(clock.now) + if old(armed)[c] < 1 then 1 else old(armed)[c]) % LIMIT64
                && NoneOverdue(clock, state)
    {
      hide CoreOk, Timely, RescanEnds, Endless, Yields, Woke, Outranked, Rank, Heard, ArmedFor, NoneOverdue;
      CoreSizes(V(), c, {});
      HangsExactly(clock, state, NextTick(c));
      Tick(c);
      TickYields(old(state), state, prio, current, c, old(need), need,
                 current[c] != NIL && timeslice[current[c]] <= 0);
    }

    method SignalStep(c: nat, i: nat, bits: Bits)
      requires Inv(c) && c < |current| && i < |clock.notifs|
      modifies `state, `wake, `lists, `need, `frame, `clock
      ensures Inv(c) && Yields(old(state), state, prio, current, c, need) && clock == Notified(old(clock), i, bits)
    {
      hide CoreOk, Timely, Notified, Yields, NeedIs, GotWord, Has;
      NotifSignal(c, i, bits);
      NeedYields(old(state), state, prio, current, c, old(need), need);
    }

    /** Steps of a CPU that runs a thread. */
    method RunningStep(c: nat, op: Op)
      requires Inv(c) && c < |current| && !Hangs(c, op) && Tid(current[c]) && state[current[c]].Running?
      modifies this
      ensures Inv(c) && |current| == |old(current)|
      ensures Yields(old(state), state, prio, current, c, need)
      ensures Calls(op) ==>
                DidCall(op, old(current)[c], old(M()), M(), prio, pager, old(parent), waitFilter, old(clock), clock)
      ensures Clocks(op) ==> DidClock(op, old(current)[c], state, old(clock), clock)
      ensures !Calls(op) && !Clocks(op) ==> Serves(op, c, old(state), state, prio, need, old(clock), clock, old(armed))
    {
      hide CoreOk, Timely, Yields, DidCall, DidClock, Serves;
      if Calls(op) {
        CallStep(c, op);
      } else if Clocks(op) {
        ClockStep(c, op);
      } else {
        IdleStep(c, op);
      }
    }

    method CallStep(c: nat, op: Op)
      requires Inv(c) && c < |current| && Tid(current[c]) && state[current[c]].Running?
      requires Calls(op)
      modifies this
      ensures Inv(c) && |current| == |old(current)|
      ensures Yields(old(state), state, prio, current, c, need)
      ensures DidCall(op, old(current)[c], old(M()), M(), prio, pager, old(parent), waitFilter, old(clock), clock)
    {
      hide CoreOk, Timely, Called, RunsAfter, Exited, Bequeaths, Reaches, Yields, NeedIs, Woke, MailOk, Sooner;
      CoreMail(c, {});
      NoneWoke(state);
      match op {
        case DoIpc(a) =>
          if a.dest != 0 || a.wantRecv {
            Ipc(c, a);
          } else {
            QuietYields(old(state), state, prio, current, c, need);
          }
        case DoSleep(ticks) =>
          Sleep(c, ticks);
          NotWoken(old(state), current[c], Sleeping);
          QuietYields(old(state), state, prio, current, c, need);
        case DoExit(status) =>
          Exit(c, status);
          AskedYields(old(state), state, prio, current, c, need);
        case DoBlock(why) =>
          if Wakeable(why) {
            BlockOther(c, why);
            NotWoken(old(state), current[c], why);
          }
          QuietYields(old(state), state, prio, current, c, need);
      }
      CoreMail(c, {});
      CoreSizes(V(), c, {});
    }

    method ClockStep(c: nat, op: Op)
      requires Inv(c) && c < |current| && Tid(current[c]) && state[current[c]].Running?
      requires Clocks(op)
      modifies this
      ensures Inv(c) && |current| == |old(current)|
      ensures Yields(old(state), state, prio, current, c, need)
      ensures DidClock(op, old(current)[c], state, old(clock), clock)
    {
      hide CoreOk, Timely, Notified, Yields, NeedIs, Woke, GotWord, Sooner;
      CoreMail(c, {});
      NoneWoke(state);
      match op {
        case DoSignal(i, bits) =>
          if i < |clock.notifs| {
            SignalStep(c, i, bits);
          } else {
            QuietYields(old(state), state, prio, current, c, need);
          }
        case DoWait(i) =>
          if i < |clock.notifs| {
            NotifWait(c, i);
            NotWoken(old(state), current[c], WaitNotification);
          }
          QuietYields(old(state), state, prio, current, c, need);
        case DoArm(i, notif, ticks, bits, period) =>
          if i < |clock.timers| && notif < |clock.notifs| && ticks < LIMIT64 && period < LIMIT64 {
            TimerArm(c, i, notif, ticks, bits, period);
          }
          QuietYields(old(state), state, prio, current, c, need);
        case DoDisarm(i) =>
          if i < |clock.timers| {
            TimerDisarm(c, i);
          }
          QuietYields(old(state), state, prio, current, c, need);
      }
      CoreMail(c, {});
      CoreSizes(V(), c, {});
    }

    /** Every run of kernel entries, in any order on any CPUs: each does what it is for, and the
        conditions hold at each release of the lock, up to an entry that hangs; n is how many were
        taken. */
    method Run(steps: seq<(nat, Op)>) returns (n: nat, ghost trace: seq<Snap>, ghost mids: seq<Snap>)
      requires Inv(-1)
      modifies this
      ensures Inv(-1) && n <= |steps|
      ensures n < |steps| ==> steps[n].0 < |armed| && Hangs(steps[n].0, steps[n].1)
      ensures |trace| == n + 1 && |mids| == n && trace[0] == old(S()) && trace[n] == S()
      ensures forall k :: 0 <= k < n ==> Stepped(steps[k].0, steps[k].1, trace[k], mids[k], trace[k + 1])
    {
      hide CoreOk, Timely, RescanEnds, Endless, Entered;
      n, trace, mids := 0, [S()], [];
      while n < |steps|
        invariant Inv(-1) && n <= |steps|
        invariant |trace| == n + 1 && |mids| == n && trace[0] == old(S()) && trace[n] == S()
        invariant forall k :: 0 <= k < n ==> Stepped(steps[k].0, steps[k].1, trace[k], mids[k], trace[k + 1])
      {
        ghost var mid := S();
        if steps[n].0 < |current| {
          var hangs;
          hangs, mid := Step(steps[n].0, steps[n].1);
          if hangs {
            return;
          }
        }
        trace, mids := trace + [S()], mids + [mid];
        n := n + 1;
      }
    }

    lemma CoreMail(c: int, but: set<int>)
      requires CoreOk(V(), c, but) && |frame| == |recvAfter| == THREADS
      ensures MailOk(M())
      ensures |state| == |partner| == |buffer| == THREADS
      ensures |lists.posted| == |lists.inIb| == |lists.sq| == |lists.inSq| == THREADS
    {
      CoreSizes(V(), c, but);
    }
  }

  /** n ticks are the longest time to arm a timer for: within bounds, no longer than the slice of the
      thread that runs and, on the first CPU, not past the next deadline. */
  ghost predicate ArmedFor(n: int, current: int, timeslice: seq<int>, first: bool, k: Clock) {
    && |timeslice| == THREADS && (current == NIL || Tid(current)) && 1 <= n <= MAX_ARM
    && (current != NIL && timeslice[current] > 0 ==> n <= timeslice[current])
    && (first && k.nextDeadline != NEVER && k.now < k.nextDeadline ==> k.now + n <= k.nextDeadline)
    && (|| n == MAX_ARM || (current != NIL && (n == timeslice[current] || (timeslice[current] <= 0 && n == 1)))
        || (first && k.nextDeadline != NEVER && (k.now + n == k.nextDeadline || (k.nextDeadline <= k.now && n == 1))))
  }

  /** Waiting for something that no call of a thread ends. */
  predicate Wakeable(s: State) { s.WaitPagefault? || s.WaitChild? || s.WaitConsole? || s.WaitExecreq? }

  /** The kernel's state, as far as entries are concerned. */
  datatype Snap = Snap(v: View, m: Mail, clock: Clock, need: seq<bool>, armed: seq<int>, pager: seq<int>,
                       parent: seq<int>, waitFilter: seq<int>)

  /** What an entry that needs no running thread does, where it can; every other asks for a reschedule. */
  ghost predicate Serves(op: Op, c: nat, state: seq<State>, state': seq<State>, prio: seq<int>, need: seq<bool>,
                         k: Clock, k': Clock, armed: seq<int>) {
    && |state| == |state'| == |prio| == THREADS && c < |armed| && c < |need|
    && match op
       case DoCreate(priority, _, _) =>
         priority < PRIOS && (exists t :: Tid(t) && state[t].Dead?) ==>
           exists t :: Tid(t) && state[t].Dead? && state'[t].Ready? && prio[t] == priority
       case DoWake(t) => Tid(t) && Wakeable(state[t]) ==> state'[t].Ready?
       case DoReap(t) => Tid(t) && state[t].Zombie? ==> state'[t].Dead?
       case DoTick =>
         c == 0 ==> k'.now == (k.now + if armed[c] < 1 then 1 else armed[c]) % LIMIT64 && NoneOverdue(k', state')
       case _ => need[c]
  }

  /** What a call of the running thread cur does, where it can. */
  ghost predicate DidCall(op: Op, cur: int, m: Mail, m': Mail, prio: seq<int>, pager: seq<int>, parent: seq<int>,
                          waitFilter: seq<int>, k: Clock, k': Clock) {
    && MailOk(m) && Tid(cur) && |m'.state| == |prio| == |pager| == |parent| == |waitFilter| == THREADS
    && match op
       case DoIpc(a) => a.dest != 0 || a.wantRecv ==> m' == Called(m, prio, pager, cur, a)
       case DoSleep(ticks) =>
         ticks > 0 ==>
           m'.state[cur] == Sleeping && |k'.wakeAt| == THREADS && k'.wakeAt[cur] == (k.now + ticks) % LIMIT64
       case DoExit(status) => Bequeaths(m, m', parent, waitFilter, cur, status)
       case DoBlock(why) => Wakeable(why) ==> m'.state[cur] == why
       case _ => true
  }

  /** What it does to notifications and timers. */
  ghost predicate DidClock(op: Op, cur: int, state: seq<State>, k: Clock, k': Clock) {
    && Tid(cur) && |state| == THREADS
    && match op
       case DoSignal(i, bits) => i < |k.notifs| ==> k' == Notified(k, i, bits)
       case DoWait(i) =>
         i < |k.notifs| && k.notifs[i].word == 0 ==>
           state[cur] == WaitNotification && |k'.notifs| == |k.notifs| && k'.notifs[i].waiter == cur
       case DoArm(i, notif, ticks, bits, period) =>
         i < |k.timers| && notif < |k.notifs| && ticks < LIMIT64 && period < LIMIT64 ==>
           && |k'.timers| == |k.timers|
           && k'.timers[i] == Timer(true, k'.timers[i].deadline, notif, bits, period)
       case DoDisarm(i) => i < |k.timers| ==> |k'.timers| == |k.timers| && !k'.timers[i].armed
       case _ => true
  }

  predicate Calls(op: Op) { op.DoIpc? || op.DoSleep? || op.DoExit? || op.DoBlock? }

  predicate Clocks(op: Op) { op.DoSignal? || op.DoWait? || op.DoArm? || op.DoDisarm? }

  /** What leaving the kernel does: on a CPU that is to reschedule, or whose thread stopped, the one
      that waits longest of the highest priority runs; else nothing changes. */
  ghost predicate Resumed(c: nat, a: Snap, b: Snap) {
    && c < |a.need| && c < |a.v.current| == |b.v.current| && |a.v.state| == |b.v.state| == |b.v.prio| == THREADS
    && b.clock == a.clock && b.m.frame == a.m.frame && b.m.partner == a.m.partner && b.m.recvAfter == a.m.recvAfter
    && if a.need[c] || (Tid(a.v.current[c]) && !a.v.state[a.v.current[c]].Running?)
       then && InTurn(a.v.lists.rq, a.v.state, b.v.prio, a.v.current[c], b.v.lists.rq, b.v.current[c])
            && forall t :: 0 <= t < THREADS && b.v.state[t].Ready? ==>
                 Tid(b.v.current[c]) && b.v.prio[t] <= b.v.prio[b.v.current[c]]
       else b.v == a.v
  }

  /** What an entry did, of the thread that runs or without one. */
  ghost predicate Enters(op: Op, c: nat, a: Snap, b: Snap) {
    && c < |a.v.current|
    && if a.v.current[c] == NIL || !(Calls(op) || Clocks(op))
       then Serves(op, c, a.v.state, b.v.state, b.v.prio, b.need, a.clock, b.clock, a.armed)
       else if Calls(op)
       then DidCall(op, a.v.current[c], a.m, b.m, b.v.prio, b.pager, a.parent, b.waitFilter, a.clock, b.clock)
       else DidClock(op, a.v.current[c], b.v.state, a.clock, b.clock)
  }

  /** One entry: what it is for, then the way out. */
  ghost predicate Entered(op: Op, c: nat, a: Snap, mid: Snap, b: Snap) {
    Enters(op, c, a, mid) && Resumed(c, mid, b)
  }

  /** After an entry, who was woken does not outrank the thread that runs. */
  lemma EntryRanks(was: seq<State>, c: nat, a: Snap, b: Snap)
    requires |was| == |a.v.state| == |a.v.prio| == THREADS && b.v.prio == a.v.prio && |a.need| == |a.v.current|
    requires Resumed(c, a, b) && Yields(was, a.v.state, a.v.prio, a.v.current, c, a.need)
    requires a.v.current[c] == NIL || Tid(a.v.current[c])
    ensures forall t :: Woke(was, b.v.state, t) ==>
              && b.v.prio[t] <= Rank(b.v.prio, b.v.current, c) && (b.v.prio[t] > 0 ==> b.v.current[c] != NIL)
  {
    RanksAfter(was, a.v, a.need, c, b.v);
  }

  /** A step of a run; one of a CPU that is not there does nothing. */
  ghost predicate Stepped(c: nat, op: Op, a: Snap, mid: Snap, b: Snap) {
    if c < |a.v.current| then Entered(op, c, a, mid, b) else b == a
  }

  /** A reason to enter the kernel. */
  datatype Op =
    | DoCreate(priority: nat, pagerTid: int, parentTid: int)
    | DoIpc(call: Call)
    | DoYield
    | DoSleep(ticks: nat)
    | DoExit(status: int)
    | DoBlock(why: State)
    | DoWake(thread: int)
    | DoReap(zombie: int)
    | DoSignal(notification: nat, bits: Bits)
    | DoWait(waited: nat)
    | DoArm(timer: nat, notif: nat, ticksFromNow: nat, timerBits: Bits, period: nat)
    | DoDisarm(disarmed: nat)
    | DoTick

  /** Every CPU idles or has a thread. */
  lemma CpuThread(v: View, c: int, but: set<int>, d: nat)
    requires CoreOk(v, c, but) && d < |v.current|
    ensures |v.prio| == THREADS && (v.current[d] == NIL || Tid(v.current[d]))
  {
  }

  lemma CpuRuns(v: View, c: nat)
    requires CoreOk(v, -1, {}) && c < |v.current|
    ensures |v.state| == THREADS && (v.current[c] == NIL || (Tid(v.current[c]) && v.state[v.current[c]].Running?))
  {
  }
}
