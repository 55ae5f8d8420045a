/** What the scheduler's list operations amount to: draining the wake inbox, searching the ready
    queues for the next thread, and lining threads up for a reschedule. */
module Scheduling {
  import opened IntrusiveList
  import opened Threads
  import opened Timekeeping

  /** Waking has an effect: not on dead, running or queued threads. */
  predicate Wakes(state: seq<State>, inRq: seq<bool>, t: int)
    requires |state| == |inRq| == THREADS && Tid(t)
  {
    Live(state[t]) && !state[t].Running? && !inRq[t]
  }

  /** The ready threads of `ib` with priority p, in order. */
  ghost function Arrivals(ib: seq<int>, state: seq<State>, prio: seq<int>, p: int): (q: seq<int>)
    requires |state| == |prio| && forall i :: 0 <= i < |ib| ==> 0 <= ib[i] < |prio|
  {
    if ib == [] then []
    else (if state[ib[0]].Ready? && prio[ib[0]] == p then [ib[0]] else []) + Arrivals(ib[1..], state, prio, p)
  }

  lemma CoreSendOk(v: View, c: int, but: set<int>)
    requires CoreOk(v, c, but)
    ensures SendOk(v.partner, v.lists.inSq, v.send, v.lists.sq)
  {
  }

  /** Exactly the ready threads of the inbox have joined the ready queues. */
  ghost predicate Moved(state: seq<State>, inRq: seq<bool>, inIb: seq<bool>, inRq': seq<bool>, inIb': seq<bool>) {
    && |state| == |inRq| == |inIb| == |inRq'| == |inIb'| == THREADS
    && (forall t :: 0 <= t < THREADS ==>
          (inRq'[t] || (inIb'[t] && state[t].Ready?) <==> inRq[t] || (inIb[t] && state[t].Ready?)))
    && (forall t :: 0 <= t < THREADS && inIb'[t] ==> inIb[t] && !inRq'[t])
  }

  lemma MovedNone(state: seq<State>, inRq: seq<bool>, inIb: seq<bool>)
    requires |state| == |inRq| == |inIb| == THREADS && forall t :: 0 <= t < THREADS && inIb[t] ==> !inRq[t]
    ensures Moved(state, inRq, inIb, inRq, inIb)
  {
  }

  lemma MovedStep(state: seq<State>, inRq: seq<bool>, inIb: seq<bool>, inRq': seq<bool>, inIb': seq<bool>, t: int)
    requires Moved(state, inRq, inIb, inRq', inIb') && Tid(t) && inIb'[t]
    ensures !inRq'[t]
    ensures Moved(state, inRq, inIb, if state[t].Ready? then inRq'[t := true] else inRq', inIb'[t := false])
  {
  }

  /** Queues `rq` with `ib` still to come make up queues `was` with all of `all` to come. */
  ghost predicate Joining(was: seq<seq<int>>, all: seq<int>, rq: seq<seq<int>>, ib: seq<int>, state: seq<State>,
                          prio: seq<int>) {
    && |state| == |prio| == THREADS && |was| == |rq| == PRIOS
    && (forall i :: 0 <= i < |all| ==> Tid(all[i])) && (forall i :: 0 <= i < |ib| ==> Tid(ib[i]))
    && forall p :: 0 <= p < PRIOS ==> rq[p] + Arrivals(ib, state, prio, p) == was[p] + Arrivals(all, state, prio, p)
  }

  lemma JoiningAll(rq: seq<seq<int>>, ib: seq<int>, state: seq<State>, prio: seq<int>)
    requires |state| == |prio| == THREADS && |rq| == PRIOS && forall i :: 0 <= i < |ib| ==> Tid(ib[i])
    ensures Joining(rq, ib, rq, ib, state, prio)
  {
  }

  lemma JoiningStep(was: seq<seq<int>>, all: seq<int>, rq: seq<seq<int>>, ib: seq<int>, state: seq<State>,
                    prio: seq<int>)
    requires Joining(was, all, rq, ib, state, prio) && ib != [] && 0 <= prio[ib[0]] < PRIOS
    ensures var p := prio[ib[0]];
            Joining(was, all, if state[ib[0]].Ready? then rq[p := rq[p] + [ib[0]]] else rq, ib[1..], state, prio)
  {
    var p := prio[ib[0]];
    var rq' := if state[ib[0]].Ready? then rq[p := rq[p] + [ib[0]]] else rq;
    forall k | 0 <= k < PRIOS
      ensures rq'[k] + Arrivals(ib[1..], state, prio, k) == was[k] + Arrivals(all, state, prio, k)
    {
      JoinOne(rq[k], ib, state, prio, k);
    }
  }

  lemma JoinOne(q: seq<int>, ib: seq<int>, state: seq<State>, prio: seq<int>, k: int)
    requires |state| == |prio| && ib != [] && forall i :: 0 <= i < |ib| ==> 0 <= ib[i] < |prio|
    ensures (if state[ib[0]].Ready? && prio[ib[0]] == k then q + [ib[0]] else q) + Arrivals(ib[1..], state, prio, k)
            == q + Arrivals(ib, state, prio, k)
  {
    hide Arrivals;
    ArrivalsStep(ib, state, prio, k);
  }

  /** What the ready queues are once everything has joined. */
  lemma JoinedAll(was: seq<seq<int>>, all: seq<int>, rq: seq<seq<int>>, state: seq<State>, prio: seq<int>)
    requires Joining(was, all, rq, [], state, prio)
    ensures |was| == |rq| == PRIOS && |state| == |prio|
    ensures forall i :: 0 <= i < |all| ==> Tid(all[i]) && 0 <= all[i] < |prio|
    ensures forall p :: 0 <= p < PRIOS ==> rq[p] == was[p] + Arrivals(all, state, prio, p)
  {
  }

  lemma CoreReadyOk(v: View, c: int, but: set<int>)
    requires CoreOk(v, c, but)
    ensures ReadyOk(v.prio, v.ready, v.lists.rq)
  {
  }

  lemma CoreDrained(v: View, c: int, ready: ReadyList, wake: WakeList, lists: Lists)
    requires CoreOk(v, c, {}) && ReadyOk(v.prio, ready, lists.rq) && InboxOk(lists.inIb, wake, lists.ib)
    requires lists == v.lists.(rq := lists.rq, ib := [], inIb := lists.inIb)
    requires Moved(v.state, v.ready.inRq, v.lists.inIb, ready.inRq, lists.inIb)
    ensures CoreOk(v.(ready := ready, wake := wake, lists := lists), c, {})
  {
    hide ReadyOk, SendOk, PlacedAll, SendersOk, CpusOk, Moved;
    InboxSizes(lists.inIb, wake, lists.ib);
    PlacedMoved(v.state, v.ready.inRq, v.lists.inIb, ready.inRq, lists.inIb, v.lists.inSq);
  }

  /** The queues once `next` has been taken off them, and the conditions once CPU c runs it. */
  ghost predicate PickedNext(v: View, ready: ReadyList, lists: Lists, c: nat, next: int) {
    match v
    case View(state, prio, _, _, _, _, _, current, _) =>
      && |state| == THREADS && c < |current| && (next == NIL || (Tid(next) && state[next].Ready?))
      && Picked(v.lists.rq, lists.rq, prio, next) && lists == v.lists.(rq := lists.rq)
      && CoreOk(v.(state := if next == NIL then state else state[next := Running], ready := ready,
                   lists := lists, current := current[c := next]), -1, {})
  }

  lemma CorePicked(v: View, c: nat, ready: ReadyList, rq: seq<seq<int>>, next: int)
    requires CoreOk(v, c, {}) && c < |v.current| && (v.current[c] == NIL || !v.state[v.current[c]].Running?)
    requires v.lists.ib == [] && ReadyOk(v.prio, ready, rq)
    requires Popped(Search(v.state, v.prio, v.ready.inRq, v.lists.rq), ready.inRq, rq, next)
    ensures (next == NIL || (Tid(next) && v.state[next].Ready?)) && Picked(v.lists.rq, rq, v.prio, next)
    ensures CoreOk(v.(state := if next == NIL then v.state else v.state[next := Running], ready := ready,
                      lists := v.lists.(rq := rq), current := v.current[c := next]), -1, {})
  {
    hide ReadyOk, SendOk, InboxOk, PlacedAll, SendersOk, CpusOk, Dropped, Taken, Unqueued, Picked;
    CoreReadyOk(v, c, {});
    AllReady(v, c);
    ReadySizes(v.prio, v.ready, v.lists.rq);
    ReadySizes(v.prio, ready, rq);
    PickedFrom(v.ready.inRq, v.state, v.prio, v.lists.rq, rq, next);
    UnqueuedIs(v.state, v.ready.inRq, ready.inRq, v.lists.inIb, v.lists.inSq, next);
    if next == NIL {
      CpusIdle(v.state, v.current, c);
    } else {
      CpusSwitch(v.state, v.current, c, next);
      SendersState(v.state, v.lists.inSq, v.partner, v.buffer, v.lists.posted, next, Running);
    }
  }

  /** With the inbox empty, the ready queues hold exactly the ready threads. */
  lemma AllReady(v: View, c: int)
    requires CoreOk(v, c, {}) && v.lists.ib == []
    ensures |v.state| == |v.ready.inRq| == THREADS
    ensures forall t :: 0 <= t < THREADS ==> (v.ready.inRq[t] <==> v.state[t].Ready?)
  {
    hide ReadyOk, SendOk, SendersOk, CpusOk;
    InboxSizes(v.lists.inIb, v.wake, v.lists.ib);
  }

  lemma HighestRuns(v: View, next: int, lined: seq<seq<int>>)
    requires CoreOk(v, -1, {}) && v.lists.ib == [] && Picked(lined, v.lists.rq, v.prio, next)
    ensures |v.state| == |v.prio| == THREADS
    ensures forall t :: 0 <= t < THREADS && v.state[t].Ready? ==> next != NIL && v.prio[t] <= v.prio[next]
  {
    hide CoreOk;
    AllReady(v, -1);
    CoreReadyOk(v, -1, {});
    forall t | 0 <= t < THREADS && v.state[t].Ready? ensures next != NIL && v.prio[t] <= v.prio[next] {
      ReadyMember(v.prio, v.ready, v.lists.rq, t);
    }
  }

  lemma PlacedApart(state: seq<State>, inRq: seq<bool>, inIb: seq<bool>, inSq: seq<bool>)
    requires PlacedAll(state, inRq, inIb, inSq, {})
    ensures |state| == |inRq| == |inIb| == THREADS && forall t :: 0 <= t < THREADS && inIb[t] ==> !inRq[t]
  {
  }

  lemma PlacedMoved(state: seq<State>, inRq: seq<bool>, inIb: seq<bool>, inRq': seq<bool>, inIb': seq<bool>,
                    inSq: seq<bool>)
    requires PlacedAll(state, inRq, inIb, inSq, {}) && Moved(state, inRq, inIb, inRq', inIb')
    requires forall t :: 0 <= t < THREADS ==> !inIb'[t]
    ensures PlacedAll(state, inRq', inIb', inSq, {})
  {
  }

  lemma ArrivalsStep(ib: seq<int>, state: seq<State>, prio: seq<int>, p: int)
    requires |state| == |prio| && ib != [] && forall i :: 0 <= i < |ib| ==> 0 <= ib[i] < |prio|
    ensures Arrivals(ib, state, prio, p)
            == (if state[ib[0]].Ready? && prio[ib[0]] == p then [ib[0]] else []) + Arrivals(ib[1..], state, prio, p)
  {
  }

  /** The head of the highest non-empty queue has been taken off, or all are empty. */
  ghost predicate Picked(was: seq<seq<int>>, rq: seq<seq<int>>, prio: seq<int>, next: int) {
    match next == NIL
    case true => |was| == PRIOS && |prio| == THREADS && rq == was && forall p :: 0 <= p < PRIOS ==> was[p] == []
    case false =>
      && |was| == |rq| == PRIOS && |prio| == THREADS && Tid(next) && 0 <= prio[next] < PRIOS
      && was[prio[next]] != [] && was[prio[next]][0] == next && rq == was[prio[next] := was[prio[next]][1..]]
      && forall p :: prio[next] < p < PRIOS ==> was[p] == []
  }

  ghost predicate Lineable(rq: seq<seq<int>>, ib: seq<int>, state: seq<State>, prio: seq<int>, prev: int) {
    && |rq| == PRIOS && |state| == |prio| == THREADS && (prev == NIL || Tid(prev))
    && forall i :: 0 <= i < |ib| ==> Tid(ib[i])
  }

  /** The ready queues a reschedule picks from: those there, then the inbox, then the thread
      the CPU was running. */
  ghost function Lines(rq: seq<seq<int>>, ib: seq<int>, state: seq<State>, prio: seq<int>, prev: int): seq<seq<int>>
    requires Lineable(rq, ib, state, prio, prev)
  {
    seq(PRIOS, p requires 0 <= p < PRIOS =>
      rq[p] + Arrivals(ib, state, prio, p)
      + if prev != NIL && state[prev].Running? && prio[prev] == p then [prev] else [])
  }

  /** Threads of one priority take turns: the one that waits longest runs, nobody overtakes those
      that waited before, and the thread that ran goes behind all of them. */
  ghost predicate InTurn(rq: seq<seq<int>>, state: seq<State>, prio: seq<int>, prev: int, rq': seq<seq<int>>,
                         next: int) {
    && |rq| == |rq'| == PRIOS && |prio| == |state| == THREADS
    && (next != NIL ==> Tid(next) && 0 <= prio[next] < PRIOS && (rq[prio[next]] != [] ==> next == rq[prio[next]][0]))
    && (forall p :: 0 <= p < PRIOS ==> Waiting(rq, prio, next, p) <= rq'[p])
    && (prev != NIL && Tid(prev) && state[prev].Running? && prev != next && 0 <= prio[prev] < PRIOS ==>
          rq'[prio[prev]] != [] && rq'[prio[prev]][|rq'[prio[prev]]| - 1] == prev)
  }

  /** Those of priority p that waited and do not run next. */
  ghost function Waiting(rq: seq<seq<int>>, prio: seq<int>, next: int, p: int): seq<int>
    requires 0 <= p < |rq|
  {
    if 0 <= next < |prio| && prio[next] == p && rq[p] != [] then rq[p][1..] else rq[p]
  }

  lemma TakesTurns(rq: seq<seq<int>>, ib: seq<int>, state: seq<State>, prio: seq<int>, prev: int, rq': seq<seq<int>>,
                   next: int)
    requires Lineable(rq, ib, state, prio, prev) && Picked(Lines(rq, ib, state, prio, prev), rq', prio, next)
    ensures InTurn(rq, state, prio, prev, rq', next)
  {
    hide Arrivals;
    var was := Lines(rq, ib, state, prio, prev);
    forall p | 0 <= p < PRIOS ensures rq[p] <= was[p] && Waiting(rq, prio, next, p) <= rq'[p] {}
  }

  /** The states once a CPU has stopped running `prev`. */
  function Left(state: seq<State>, prev: int): (after: seq<State>)
    requires |state| == THREADS && (prev == NIL || Tid(prev))
    ensures |after| == |state|
  {
    if prev != NIL && state[prev].Running? then state[prev := Ready] else state
  }

  /** The thread a CPU was running has joined its queue. */
  ghost predicate Requeued(rq: seq<seq<int>>, rq': seq<seq<int>>, state: seq<State>, prio: seq<int>, prev: int) {
    && |rq| == PRIOS && |state| == |prio| == THREADS && (prev == NIL || (Tid(prev) && 0 <= prio[prev] < PRIOS))
    && rq' == if prev != NIL && state[prev].Running? then rq[prio[prev] := rq[prio[prev]] + [prev]] else rq
  }

  lemma LinesAre(rq: seq<seq<int>>, ib: seq<int>, drained: seq<seq<int>>, lined: seq<seq<int>>,
                 state: seq<State>, prio: seq<int>, prev: int)
    requires Joining(rq, ib, drained, [], state, prio) && Requeued(drained, lined, state, prio, prev)
    ensures Lineable(rq, ib, state, prio, prev) && Lines(rq, ib, state, prio, prev) == lined
  {
    hide Arrivals;
    JoinedAll(rq, ib, drained, state, prio);
    assert forall p :: 0 <= p < PRIOS ==> Lines(rq, ib, state, prio, prev)[p] == lined[p];
  }

  lemma UnqueuedIs(state: seq<State>, flagged: seq<bool>, inRq: seq<bool>, inIb: seq<bool>, inSq: seq<bool>, next: int)
    requires PlacedAll(state, flagged, inIb, inSq, {}) && Unqueued(state, flagged, inRq, next)
    requires forall t :: 0 <= t < THREADS ==> (flagged[t] <==> state[t].Ready?)
    requires next != NIL ==> Tid(next) && flagged[next] && !inRq[next]
    ensures PlacedAll(if next == NIL then state else state[next := Running], inRq, inIb, inSq, {})
  {
  }

  lemma PickedFrom(flagged: seq<bool>, state: seq<State>, prio: seq<int>, was: seq<seq<int>>, rq: seq<seq<int>>,
                   next: int)
    requires |flagged| == |state| == |prio| == THREADS && |was| == |rq| == PRIOS
    requires forall t :: 0 <= t < THREADS ==> (flagged[t] <==> state[t].Ready?)
    requires forall p, i :: 0 <= p < PRIOS && 0 <= i < |was[p]| ==>
              Tid(was[p][i]) && flagged[was[p][i]] && prio[was[p][i]] == p
    requires next != NIL ==> Tid(next) && 0 <= prio[next] < PRIOS && Taken(was[prio[next]], rq[prio[next]], next, state)
    requires next != NIL ==> forall t :: 0 <= t < THREADS && flagged[t] ==> prio[t] <= prio[next]
    requires next == NIL ==> forall p :: 0 <= p < PRIOS ==> rq[p] == []
    requires forall p :: 0 <= p < PRIOS && (next == NIL || p != prio[next]) ==> Dropped(was[p], rq[p], state)
    ensures Picked(was, rq, prio, next)
  {
    hide Dropped, Taken;
    forall p | 0 <= p < PRIOS && (next == NIL || p != prio[next]) ensures rq[p] == was[p] {
      NoneDropped(was[p], rq[p], state);
    }
    if next != NIL {
      FirstTaken(was[prio[next]], rq[prio[next]], next, state);
      forall p | 0 <= p < PRIOS && was[p] != [] ensures p <= prio[next] {
        assert flagged[was[p][0]] && prio[was[p][0]] == p;
      }
      assert rq == was[prio[next] := was[prio[next]][1..]];
    }
  }

  lemma NoneDropped(q: seq<int>, r: seq<int>, state: seq<State>)
    requires Dropped(q, r, state) && forall i :: 0 <= i < |q| ==> Tid(q[i]) && state[q[i]].Ready?
    ensures q == r
  {
    assert |q| > 0 ==> state[q[0]].Ready?;
  }

  lemma FirstTaken(q: seq<int>, r: seq<int>, next: int, state: seq<State>)
    requires Taken(q, r, next, state) && forall i :: 0 <= i < |q| ==> Tid(q[i]) && state[q[i]].Ready?
    ensures q != [] && q[0] == next && r == q[1..]
  {
    var k := |q| - |r| - 1;
    NoneDropped(q, q[k..], state);
    assert |q[k..]| == |q| - k;
    assert k == 0;
  }

  /** Only stale threads and `next` have left the ready queues. */
  ghost predicate Unqueued(state: seq<State>, flagged: seq<bool>, inRq: seq<bool>, next: int) {
    && |state| == |flagged| == |inRq| == THREADS
    && (forall t :: 0 <= t < THREADS && state[t].Ready? && t != next ==> inRq[t] == flagged[t])
    && (forall t :: 0 <= t < THREADS && inRq[t] ==> flagged[t])
  }

  /** r is q without a prefix of threads that are not ready. */
  ghost predicate Dropped(q: seq<int>, r: seq<int>, state: seq<State>) {
    && |r| <= |q| && r == q[|q| - |r|..] && |state| == THREADS
    && forall j :: 0 <= j < |q| - |r| ==> Tid(q[j]) && !state[q[j]].Ready?
  }

  /** r is what follows the first ready thread of q, which is `next`. */
  ghost predicate Taken(q: seq<int>, r: seq<int>, next: int, state: seq<State>) {
    && |r| < |q| && Dropped(q, q[|q| - |r| - 1..], state)
    && q[|q| - |r| - 1] == next && r == q[|q| - |r|..]
  }

  /** What a search for the next thread starts from. */
  datatype Search = Search(state: seq<State>, prio: seq<int>, flagged: seq<bool>, was: seq<seq<int>>)

  /** `next` is the first ready thread of the highest priority that has one, and what left the
      queues with it was not ready. */
  ghost predicate Popped(g: Search, inRq: seq<bool>, rq: seq<seq<int>>, next: int) {
    match g
    case Search(state, prio, flagged, was) =>
      && |prio| == THREADS && |was| == |rq| == PRIOS && Unqueued(state, flagged, inRq, next)
      && (next == NIL ==> forall p :: 0 <= p < PRIOS ==> rq[p] == [])
      && (next != NIL ==>
            && Tid(next) && state[next].Ready? && flagged[next] && !inRq[next] && 0 <= prio[next] < PRIOS
            && (forall t :: 0 <= t < THREADS && flagged[t] && state[t].Ready? ==> prio[t] <= prio[next])
            && Taken(was[prio[next]], rq[prio[next]], next, state))
      && (forall p :: 0 <= p < PRIOS && (next == NIL || p != prio[next]) ==> Dropped(was[p], rq[p], state))
  }

  /** Only stale threads have left the ready queues so far. */
  ghost predicate Dropping(g: Search, inRq: seq<bool>, rq: seq<seq<int>>) {
    match g
    case Search(state, prio, flagged, was) =>
      && |prio| == THREADS && |was| == |rq| == PRIOS && Unqueued(state, flagged, inRq, NIL)
      && forall p :: 0 <= p < PRIOS ==> Dropped(was[p], rq[p], state)
  }

  lemma DroppingNone(g: Search)
    requires |g.state| == |g.prio| == |g.flagged| == THREADS && |g.was| == PRIOS
    ensures Dropping(g, g.flagged, g.was)
  {
    forall p | 0 <= p < PRIOS ensures Dropped(g.was[p], g.was[p], g.state) { DropNone(g.was[p], g.state); }
  }

  ghost function RankOf(rq: seq<seq<int>>): nat {
    Total(rq, |rq|)
  }

  /** The head of the highest queue is the thread to run, if it is ready. */
  lemma PopStep(g: Search, r: ReadyList, rq: seq<seq<int>>, p: nat, next: int, rest: seq<int>)
    requires Dropping(g, r.inRq, rq) && ReadyOk(g.prio, r, rq)
    requires p < PRIOS && rq[p] == [next] + rest && (forall o :: p < o < PRIOS ==> !r.bits[o])
    requires Tid(next) && r.inRq[next] && g.prio[next] == p && g.state[next].Ready?
    ensures Popped(g, r.inRq[next := false], rq[p := rest], next)
  {
    hide Dropped, Taken, ReadyOk;
    ReadySizes(g.prio, r, rq);
    TakeOne(g.was[p], rq[p], g.state);
    assert rq[p][1..] == rest;
    forall t | 0 <= t < THREADS && g.flagged[t] && g.state[t].Ready? ensures g.prio[t] <= p {
      ReadyMember(g.prio, r, rq, t);
    }
  }

  /** One more stale entry is dropped. */
  lemma DropMore(g: Search, inRq: seq<bool>, rq: seq<seq<int>>, p: nat, next: int, rest: seq<int>)
    requires Dropping(g, inRq, rq) && p < PRIOS && rq[p] == [next] + rest && Tid(next) && !g.state[next].Ready?
    ensures Dropping(g, inRq[next := false], rq[p := rest])
  {
    hide Dropped;
    DropOne(g.was[p], rq[p], g.state);
    assert rq[p][1..] == rest;
  }

  lemma RankDrops(rq: seq<seq<int>>, p: nat, next: int, rest: seq<int>)
    requires p < |rq| && rq[p] == [next] + rest
    ensures RankOf(rq[p := rest]) < RankOf(rq)
  {
    assert rq[p][1..] == rest;
    TotalDrops(rq, |rq|, p);
  }

  lemma DropEnd(g: Search, r: ReadyList, rq: seq<seq<int>>)
    requires Dropping(g, r.inRq, rq) && ReadyOk(g.prio, r, rq) && forall o :: 0 <= o < PRIOS ==> !r.bits[o]
    ensures Popped(g, r.inRq, rq, NIL)
  {
    hide Dropped, Sorted, Linked;
  }

  lemma DropNone(q: seq<int>, state: seq<State>)
    requires |state| == THREADS
    ensures Dropped(q, q, state)
  {
  }

  lemma DropOne(q: seq<int>, r: seq<int>, state: seq<State>)
    requires Dropped(q, r, state) && r != [] && Tid(r[0]) && !state[r[0]].Ready?
    ensures Dropped(q, r[1..], state)
  {
  }

  lemma TakeOne(q: seq<int>, r: seq<int>, state: seq<State>)
    requires Dropped(q, r, state) && r != []
    ensures Taken(q, r[1..], r[0], state)
  {
  }

  ghost function Total(rq: seq<seq<int>>, n: nat): nat
    requires n <= |rq|
  {
    if n == 0 then 0 else |rq[n - 1]| + Total(rq, n - 1)
  }

  lemma TotalSame(a: seq<seq<int>>, b: seq<seq<int>>, n: nat)
    requires n <= |a| == |b| && forall i :: 0 <= i < n ==> a[i] == b[i]
    ensures Total(a, n) == Total(b, n)
  {
  }

  lemma {:induction false} TotalDrops(rq: seq<seq<int>>, n: nat, p: nat)
    requires p < n <= |rq| && rq[p] != []
    ensures Total(rq[p := rq[p][1..]], n) == Total(rq, n) - 1
  {
    if p < n - 1 {
      TotalDrops(rq, n - 1, p);
    } else {
      TotalSame(rq, rq[p := rq[p][1..]], n - 1);
    }
  }

  lemma SwitchTimely(k: Clock, state: seq<State>, prev: int, next: int)
    requires Timely(k, state) && |state| == THREADS && (prev == NIL || Tid(prev))
    requires next != NIL ==> Tid(next) && Left(state, prev)[next].Ready?
    ensures Timely(k, if next == NIL then Left(state, prev) else Left(state, prev)[next := Running])
  {
    hide Timely;
    if prev != NIL && state[prev].Running? {
      TimelyState(k, state, prev, Ready);
    }
    if next != NIL {
      TimelyState(k, Left(state, prev), next, Running);
    }
  }
}
