/** The conditions the scheduler and IPC keep on the thread table, and how single list and
    state updates move them. Each sequence is one field of the thread control blocks, indexed
    by thread id. */
module Threads {
  import opened Common
  import opened IntrusiveList

  const THREADS: nat := 64
  const PRIOS: nat := 32

  datatype State =
    | Running | Ready | WaitRecv | WaitSend | WaitPagefault | Sleeping | WaitNotification
    | Dead | Zombie | WaitChild | WaitConsole | WaitExecreq

  predicate Tid(t: int) { 0 < t < THREADS }

  predicate Live(s: State) { !s.Dead? && !s.Zombie? }

  /** Waiting for something, and in no queue. */
  predicate Blocked(s: State) { Live(s) && !s.Running? && !s.Ready? && !s.WaitSend? }

  /** The queue a thread is linked in is decided by its state. */
  predicate Placed(s: State, inRq: bool, inIb: bool, inSq: bool) {
    (s.Ready? <==> inRq || inIb) && !(inRq && inIb) && (s.WaitSend? <==> inSq)
  }

  /** Every thread is placed, except that those of `but` are linked nowhere. */
  ghost predicate PlacedAll(state: seq<State>, inRq: seq<bool>, inIb: seq<bool>, inSq: seq<bool>, but: set<int>) {
    && |state| == |inRq| == |inIb| == |inSq| == THREADS
    && forall t :: 0 <= t < THREADS ==>
         if t in but then !inRq[t] && !inIb[t] && !inSq[t] else Placed(state[t], inRq[t], inIb[t], inSq[t])
  }

  /** A thread queued to send names a live receiver, and its message is still as posted. */
  ghost predicate SendersOk(state: seq<State>, inSq: seq<bool>, partner: seq<int>,
                            buffer: seq<seq<int>>, posted: seq<seq<int>>) {
    && |state| == |inSq| == |partner| == |buffer| == |posted| == THREADS
    && forall t :: 0 <= t < THREADS && inSq[t] ==>
         Tid(partner[t]) && partner[t] != t && Live(state[partner[t]]) && buffer[t] == posted[t]
  }

  /** No two CPUs share a thread, every running thread is current on a CPU, and every CPU
      except `but` idles or runs a running thread. */
  ghost predicate CpusOk(state: seq<State>, current: seq<int>, but: int) {
    && |state| == THREADS
    && (forall c :: 0 <= c < |current| ==> current[c] == NIL || Tid(current[c]))
    && (forall c, d :: 0 <= c < d < |current| && current[c] == current[d] ==> current[c] == NIL)
    && (forall c :: 0 <= c < |current| && c != but && current[c] != NIL ==> state[current[c]].Running?)
    && (forall t :: 0 <= t < THREADS && state[t].Running? ==> t in current)
  }

  /** The ready queues as the source keeps them: membership flags, links, heads, tails and the
      bitmap of non-empty priorities. */
  datatype ReadyList = ReadyList(inRq: seq<bool>, next: seq<int>, head: seq<int>, tail: seq<int>, bits: seq<bool>)

  /** The wake inbox: links and the most recently woken thread. */
  datatype WakeList = WakeList(next: seq<int>, first: int)

  /** The send queues, one per receiving thread. */
  datatype SendLists = SendLists(next: seq<int>, head: seq<int>, tail: seq<int>)

  /** Each ready queue holds exactly the flagged threads of its priority, properly linked, and
      its bitmap bit says whether it is non-empty. */
  ghost predicate ReadyOk(prio: seq<int>, r: ReadyList, rq: seq<seq<int>>) {
    match r
    case ReadyList(inRq, next, head, tail, bits) =>
      && |prio| == |next| == |inRq| == THREADS && |rq| == |bits| == |head| == |tail| == PRIOS
      && Sorted(prio, inRq, rq) && Linked(next, head, tail, rq)
      && (forall t :: 0 <= t < THREADS ==> 0 <= prio[t] < PRIOS)
      && (forall p :: 0 <= p < PRIOS ==> (bits[p] <==> rq[p] != []))
  }

  /** The inbox holds exactly the flagged threads. */
  ghost predicate InboxOk(inIb: seq<bool>, w: WakeList, ib: seq<int>) {
    match w
    case WakeList(next, first) =>
      && |inIb| == |next| == THREADS
      && Chain(next, ib) && first == (if ib == [] then NIL else ib[0])
      && (forall t :: t in ib ==> Tid(t) && inIb[t])
      && (forall t :: 0 <= t < THREADS && inIb[t] ==> t in ib)
  }

  /** Thread r's send queue holds exactly the flagged threads whose partner is r. */
  ghost predicate SendOk(partner: seq<int>, inSq: seq<bool>, q: SendLists, sq: seq<seq<int>>) {
    match q
    case SendLists(next, head, tail) =>
      && |partner| == |inSq| == |next| == |head| == |tail| == |sq| == THREADS
      && Sorted(partner, inSq, sq) && Linked(next, head, tail, sq)
  }

  // ---- State steps ---------------------------------------------------------------------------

  lemma PlacedSizes(state: seq<State>, inRq: seq<bool>, inIb: seq<bool>, inSq: seq<bool>, but: set<int>, t: int)
    requires PlacedAll(state, inRq, inIb, inSq, but) && 0 <= t < THREADS
    ensures |state| == |inRq| == |inIb| == |inSq| == THREADS
    ensures if t in but then !inRq[t] && !inIb[t] && !inSq[t] else Placed(state[t], inRq[t], inIb[t], inSq[t])
  {
  }

  /** A thread linked nowhere enters the inbox. */
  lemma PlacedWake(state: seq<State>, inRq: seq<bool>, inIb: seq<bool>, inSq: seq<bool>, but: set<int>, t: int)
    requires PlacedAll(state, inRq, inIb, inSq, but) && 0 <= t < THREADS && !inRq[t] && !inSq[t]
    ensures PlacedAll(state[t := Ready], inRq, inIb[t := true], inSq, but - {t})
  {
  }

  /** A thread linked nowhere takes up a state in which it stays so. */
  lemma PlacedHold(state: seq<State>, inRq: seq<bool>, inIb: seq<bool>, inSq: seq<bool>, but: set<int>, t: int,
                   s: State)
    requires PlacedAll(state, inRq, inIb, inSq, but) && 0 <= t < THREADS && !inRq[t] && !inIb[t] && !inSq[t]
    requires !s.Ready? && !s.WaitSend?
    ensures PlacedAll(state[t := s], inRq, inIb, inSq, but - {t})
  {
  }

  lemma PlacedPost(state: seq<State>, inRq: seq<bool>, inIb: seq<bool>, inSq: seq<bool>, but: set<int>, t: int)
    requires PlacedAll(state, inRq, inIb, inSq, but) && 0 <= t < THREADS && !inRq[t] && !inIb[t]
    ensures PlacedAll(state[t := WaitSend], inRq, inIb, inSq[t := true], but - {t})
  {
  }

  /** A thread leaves the send queue it was in. */
  lemma PlacedTake(state: seq<State>, inRq: seq<bool>, inIb: seq<bool>, inSq: seq<bool>, but: set<int>, t: int)
    requires PlacedAll(state, inRq, inIb, inSq, but) && 0 <= t < THREADS && inSq[t]
    ensures PlacedAll(state, inRq, inIb, inSq[t := false], but + {t})
  {
  }

  lemma SendersPost(state: seq<State>, inSq: seq<bool>, partner: seq<int>, buffer: seq<seq<int>>,
                    posted: seq<seq<int>>, t: int, dest: int, words: seq<int>)
    requires SendersOk(state, inSq, partner, buffer, posted) && Tid(t) && Tid(dest) && dest != t && Live(state[dest])
    ensures SendersOk(state[t := WaitSend], inSq[t := true], partner[t := dest], buffer[t := words], posted[t := words])
  {
  }

  lemma SendersTake(state: seq<State>, inSq: seq<bool>, partner: seq<int>, buffer: seq<seq<int>>,
                    posted: seq<seq<int>>, t: int)
    requires SendersOk(state, inSq, partner, buffer, posted) && Tid(t)
    ensures SendersOk(state, inSq[t := false], partner, buffer, posted)
    ensures inSq[t] ==> partner[t] != t && buffer[t] == posted[t]
  {
  }

  lemma SendersRekey(state: seq<State>, inSq: seq<bool>, partner: seq<int>, buffer: seq<seq<int>>,
                     posted: seq<seq<int>>, t: int, r: int)
    requires SendersOk(state, inSq, partner, buffer, posted) && Tid(t) && !inSq[t]
    ensures SendersOk(state, inSq, partner[t := r], buffer, posted)
  {
  }

  lemma SendersState(state: seq<State>, inSq: seq<bool>, partner: seq<int>, buffer: seq<seq<int>>,
                     posted: seq<seq<int>>, t: int, s: State)
    requires SendersOk(state, inSq, partner, buffer, posted) && 0 <= t < THREADS && Live(s)
    ensures SendersOk(state[t := s], inSq, partner, buffer, posted)
  {
  }

  lemma CpusState(state: seq<State>, current: seq<int>, c: int, t: int, s: State)
    requires CpusOk(state, current, c) && 0 <= t < THREADS
    requires !s.Running? && (state[t].Running? ==> 0 <= c < |current| && current[c] == t)
    ensures CpusOk(state[t := s], current, c)
  {
  }

  /** CPU c takes up a thread that was not running. */
  lemma CpusSwitch(state: seq<State>, current: seq<int>, c: nat, t: int)
    requires CpusOk(state, current, c) && c < |current| && Tid(t) && !state[t].Running?
    requires current[c] == NIL || !state[current[c]].Running?
    ensures CpusOk(state[t := Running], current[c := t], -1)
  {
    var state' := state[t := Running];
    var current' := current[c := t];
    assert current'[c] == t;
    forall s | 0 <= s < THREADS && state'[s].Running? ensures s in current' {
      if s != t {
        var d :| 0 <= d < |current| && current[d] == s;
        assert current'[d] == s;
      }
    }
  }

  lemma CpusIdle(state: seq<State>, current: seq<int>, c: nat)
    requires CpusOk(state, current, c) && c < |current|
    requires current[c] == NIL || !state[current[c]].Running?
    ensures CpusOk(state, current[c := NIL], -1)
  {
    var current' := current[c := NIL];
    forall s | 0 <= s < THREADS && state[s].Running? ensures s in current' {
      var d :| 0 <= d < |current| && current[d] == s;
      assert current'[d] == s;
    }
  }

  // ---- List steps ----------------------------------------------------------------------------

  lemma ReadyPush(prio: seq<int>, r: ReadyList, rq: seq<seq<int>>, t: int)
    requires ReadyOk(prio, r, rq) && Tid(t) && !r.inRq[t]
    ensures var p := prio[t];
            && (r.tail[p] == NIL || 0 <= r.tail[p] < THREADS)
            && ReadyOk(prio, ReadyList(r.inRq[t := true], Joined(r.next, r.tail[p], t),
                                       if r.tail[p] != NIL then r.head else r.head[p := t],
                                       r.tail[p := t], r.bits[p := true]), rq[p := rq[p] + [t]])
  {
    hide Linked, Sorted, Joined;
    FamilyAppend(prio, r.inRq, r.next, r.head, r.tail, rq, prio[t], t);
    assert prio[t := prio[t]] == prio;
  }

  /** Unlinking the head of a queue. */
  lemma ReadyPop(prio: seq<int>, r: ReadyList, rq: seq<seq<int>>, p: nat)
    requires ReadyOk(prio, r, rq) && p < PRIOS && r.bits[p]
    ensures rq[p] != []
    ensures var t := rq[p][0];
            && t == r.head[p] && Tid(t) && r.inRq[t] && prio[t] == p
            && ReadyOk(prio, ReadyList(r.inRq[t := false], r.next[t := NIL], r.head[p := r.next[t]],
                                       if r.tail[p] == t then r.tail[p := NIL] else r.tail,
                                       if r.next[t] == NIL then r.bits[p := false] else r.bits), rq[p := rq[p][1..]])
  {
    hide Linked, Sorted;
    PopParts(prio, r.inRq, r.next, r.head, r.tail, rq, p);
    BitsPop(r.bits, rq, p, r.next[rq[p][0]]);
  }

  lemma PopParts(prio: seq<int>, inRq: seq<bool>, next: seq<int>, head: seq<int>, tail: seq<int>,
                 rq: seq<seq<int>>, p: nat)
    requires Sorted(prio, inRq, rq) && Linked(next, head, tail, rq) && |next| == |prio| && p < |rq| && rq[p] != []
    ensures |head| == |tail| == |rq| && |inRq| == |prio|
    ensures var t := rq[p][0];
            && t == head[p] && 0 < t < |prio| && inRq[t] && prio[t] == p && (next[t] == NIL <==> |rq[p]| == 1)
            && Sorted(prio, inRq[t := false], rq[p := rq[p][1..]])
            && Linked(next[t := NIL], head[p := next[t]], if tail[p] == t then tail[p := NIL] else tail,
                 rq[p := rq[p][1..]])
  {
    hide Linked, Sorted, Chain, Bypassed;
    FamilySizes(prio, inRq, next, head, tail, rq);
    FamilyRemove(prio, inRq, next, head, tail, rq, p, 0);
    TailIs(next, head, tail, rq, p);
    ChainTail(next, rq[p]);
    PopLinks(next, rq[p]);
    if |rq[p]| > 1 {
      assert rq[p][1] in rq[p];
      QueuedIs(prio, inRq, rq, rq[p][1], p);
    }
  }

  lemma PopLinks(next: seq<int>, q: seq<int>)
    requires q != [] && 0 <= q[0] < |next|
    ensures Bypassed(next, NIL, q[0]) == next[q[0] := NIL] && Without(q, 0) == q[1..]
  {
  }

  lemma BitsPop(bits: seq<bool>, rq: seq<seq<int>>, p: nat, link: int)
    requires |bits| == |rq| && forall k :: 0 <= k < |rq| ==> (bits[k] <==> rq[k] != [])
    requires p < |rq| && rq[p] != [] && (link == NIL <==> |rq[p]| == 1)
    ensures var after := if link == NIL then bits[p := false] else bits;
            forall k :: 0 <= k < |rq| ==> (after[k] <==> rq[p := rq[p][1..]][k] != [])
  {
  }

  lemma ReadyMember(prio: seq<int>, r: ReadyList, rq: seq<seq<int>>, t: int)
    requires ReadyOk(prio, r, rq) && 0 <= t < THREADS && r.inRq[t]
    ensures 0 <= prio[t] < PRIOS && t in rq[prio[t]] && r.bits[prio[t]] && Tid(t)
  {
  }

  lemma ReadySizes(prio: seq<int>, r: ReadyList, rq: seq<seq<int>>)
    requires ReadyOk(prio, r, rq)
    ensures |prio| == |r.next| == |r.inRq| == THREADS && |rq| == |r.bits| == |r.head| == |r.tail| == PRIOS
    ensures forall t :: 0 <= t < THREADS ==> 0 <= prio[t] < PRIOS
    ensures forall p, i :: 0 <= p < PRIOS && 0 <= i < |rq[p]| ==>
              Tid(rq[p][i]) && r.inRq[rq[p][i]] && prio[rq[p][i]] == p
  {
    forall p, i | 0 <= p < PRIOS && 0 <= i < |rq[p]|
      ensures Tid(rq[p][i]) && r.inRq[rq[p][i]] && prio[rq[p][i]] == p
    {
      assert rq[p][i] in rq[p];
    }
  }

  /** The priority of a thread that is not queued may change. */
  lemma ReadyRekey(prio: seq<int>, r: ReadyList, rq: seq<seq<int>>, t: int, p: int)
    requires ReadyOk(prio, r, rq) && Tid(t) && !r.inRq[t] && 0 <= p < PRIOS
    ensures ReadyOk(prio[t := p], r, rq)
  {
    hide Linked;
  }

  lemma InboxSizes(inIb: seq<bool>, w: WakeList, ib: seq<int>)
    requires InboxOk(inIb, w, ib)
    ensures |inIb| == |w.next| == THREADS && (w.first == NIL <==> ib == [])
    ensures forall i :: 0 <= i < |ib| ==> Tid(ib[i]) && inIb[ib[i]]
    ensures ib == [] ==> forall t :: 0 <= t < THREADS ==> !inIb[t]
  {
    assert forall i :: 0 <= i < |ib| ==> ib[i] in ib;
  }

  lemma InboxPush(inIb: seq<bool>, w: WakeList, ib: seq<int>, t: int)
    requires InboxOk(inIb, w, ib) && Tid(t) && !inIb[t]
    ensures InboxOk(inIb[t := true], WakeList(w.next[t := w.first], t), [t] + ib)
  {
    hide Chain;
    PushNode(w.next, ib, t);
  }

  lemma InboxPop(inIb: seq<bool>, w: WakeList, ib: seq<int>)
    requires InboxOk(inIb, w, ib) && ib != []
    ensures Tid(w.first) && w.first == ib[0] && inIb[w.first] && ib[0] !in ib[1..]
    ensures InboxOk(inIb[w.first := false], WakeList(w.next[w.first := NIL], w.next[w.first]), ib[1..])
  {
    hide Chain;
    assert ib[0] in ib;
    ChainTail(w.next, ib);
    ChainElsewhere(w.next, w.next[w.first := NIL], ib[1..], w.first, w.first);
    assert forall s :: s in ib <==> s == w.first || s in ib[1..];
  }

  lemma SendAppend(partner: seq<int>, inSq: seq<bool>, q: SendLists, sq: seq<seq<int>>, r: int, s: int)
    requires SendOk(partner, inSq, q, sq) && Tid(r) && Tid(s) && !inSq[s] && partner[s] == r
    ensures q.tail[r] == NIL || 0 <= q.tail[r] < THREADS
    ensures SendOk(partner, inSq[s := true],
                   SendLists(Joined(q.next, q.tail[r], s), if q.tail[r] != NIL then q.head else q.head[r := s],
                             q.tail[r := s]), sq[r := sq[r] + [s]])
  {
    hide Linked, Sorted, Joined;
    FamilyAppend(partner, inSq, q.next, q.head, q.tail, sq, r, s);
    assert partner[s := r] == partner;
  }

  lemma SendRemove(partner: seq<int>, inSq: seq<bool>, q: SendLists, sq: seq<seq<int>>, r: int, i: nat)
    requires SendOk(partner, inSq, q, sq) && Tid(r) && i < |sq[r]|
    ensures var s := sq[r][i];
            var prev := if i == 0 then NIL else sq[r][i - 1];
            && Tid(s) && inSq[s] && partner[s] == r && (i > 0 ==> Tid(prev))
            && SendOk(partner, inSq[s := false],
                      SendLists(Bypassed(q.next, prev, s), if prev != NIL then q.head else q.head[r := q.next[s]],
                                if q.tail[r] == s then q.tail[r := prev] else q.tail), sq[r := Without(sq[r], i)])
  {
    hide Linked, Sorted, Bypassed;
    FamilyRemove(partner, inSq, q.next, q.head, q.tail, sq, r, i);
  }

  lemma SendSizes(partner: seq<int>, inSq: seq<bool>, q: SendLists, sq: seq<seq<int>>)
    requires SendOk(partner, inSq, q, sq)
    ensures |partner| == |inSq| == |q.next| == |q.head| == |q.tail| == |sq| == THREADS
  {
  }

  /** The partner of a thread that is not queued to send may change freely. */
  lemma SendRekey(partner: seq<int>, inSq: seq<bool>, q: SendLists, sq: seq<seq<int>>, s: int, r: int)
    requires SendOk(partner, inSq, q, sq) && Tid(s) && !inSq[s]
    ensures SendOk(partner[s := r], inSq, q, sq)
  {
    hide Linked;
  }

  /** Following the links of a send queue. */
  lemma SendWalk(partner: seq<int>, inSq: seq<bool>, q: SendLists, sq: seq<seq<int>>, r: int, i: nat)
    requires SendOk(partner, inSq, q, sq) && Tid(r) && i <= |sq[r]|
    ensures q.head[r] == if sq[r] == [] then NIL else sq[r][0]
    ensures i < |sq[r]| ==> Tid(sq[r][i]) && inSq[sq[r][i]] && partner[sq[r][i]] == r
    ensures i < |sq[r]| ==> q.next[sq[r][i]] == if i + 1 < |sq[r]| then sq[r][i + 1] else NIL
    ensures Chain(q.next, sq[r])
  {
    hide Chain, Sorted, Linked;
    TailIs(q.next, q.head, q.tail, sq, r);
    if i < |sq[r]| {
      assert sq[r][i] in sq[r];
      QueuedIs(partner, inSq, sq, sq[r][i], r);
      ChainLink(q.next, sq[r], i);
    }
  }

  lemma ChainLink(next: seq<int>, q: seq<int>, i: nat)
    requires Chain(next, q) && i < |q|
    ensures 0 <= q[i] < |next| && next[q[i]] == if i + 1 < |q| then q[i + 1] else NIL
  {
    SuccessorIs(q, i);
  }

  /** Flags with the members of one queue cleared. */
  ghost function Cleared(inSq: seq<bool>, q: seq<int>): (r: seq<bool>)
    ensures |r| == |inSq|
    ensures forall t :: 0 <= t < |inSq| ==> (r[t] <==> inSq[t] && t !in q)
  {
    seq(|inSq|, t requires 0 <= t < |inSq| => inSq[t] && t !in q)
  }

  /** Taking a whole send queue off. */
  lemma SendClear(partner: seq<int>, inSq: seq<bool>, q: SendLists, sq: seq<seq<int>>, r: int)
    requires SendOk(partner, inSq, q, sq) && Tid(r)
    ensures SendOk(partner, Cleared(inSq, sq[r]), SendLists(q.next, q.head[r := NIL], q.tail[r := NIL]), sq[r := []])
    ensures forall t :: 0 <= t < THREADS ==> (t in sq[r] <==> inSq[t] && partner[t] == r)
    ensures forall t :: t in sq[r] ==> Tid(t)
  {
    assert List(q.next, NIL, NIL, []);
  }

  /** The link of a node that is not queued to send may be cleared. */
  lemma SendRelink(partner: seq<int>, inSq: seq<bool>, q: SendLists, sq: seq<seq<int>>, s: int)
    requires SendOk(partner, inSq, q, sq) && Tid(s) && !inSq[s]
    ensures SendOk(partner, inSq, q.(next := q.next[s := NIL]), sq)
  {
    hide Chain, Sorted, Linked;
    forall k | 0 <= k < |sq| ensures List(q.next[s := NIL], q.head[k], q.tail[k], sq[k]) {
      NotQueued(partner, inSq, sq, s, k);
      TailIs(q.next, q.head, q.tail, sq, k);
      ChainElsewhere(q.next, q.next[s := NIL], sq[k], s, s);
    }
    LinkedAll(q.next[s := NIL], q.head, q.tail, sq);
  }

  lemma LinkedAll(next: seq<int>, head: seq<int>, tail: seq<int>, qs: seq<seq<int>>)
    requires |head| == |tail| == |qs|
    requires forall k :: 0 <= k < |qs| ==> List(next, head[k], tail[k], qs[k])
    ensures Linked(next, head, tail, qs)
  {
  }

  // ---- All conditions together ---------------------------------------------------------------

  /** The lists as sequences, the membership flags the source leaves implicit, and each queued
      message as it was posted. */
  datatype Lists = Lists(rq: seq<seq<int>>, ib: seq<int>, inIb: seq<bool>, sq: seq<seq<int>>, inSq: seq<bool>,
                         posted: seq<seq<int>>)

  datatype View = View(state: seq<State>, prio: seq<int>, partner: seq<int>, buffer: seq<seq<int>>,
                       ready: ReadyList, wake: WakeList, send: SendLists, current: seq<int>, lists: Lists)

  /** The queue conditions, with CPU c between threads and the threads of `but` unlinked. */
  ghost predicate CoreOk(v: View, c: int, but: set<int>) {
    match v
    case View(state, prio, partner, buffer, ready, wake, send, current, lists) =>
      && ReadyOk(prio, ready, lists.rq)
      && InboxOk(lists.inIb, wake, lists.ib)
      && SendOk(partner, lists.inSq, send, lists.sq)
      && PlacedAll(state, ready.inRq, lists.inIb, lists.inSq, but)
      && SendersOk(state, lists.inSq, partner, buffer, lists.posted)
      && CpusOk(state, current, c)
  }

  ghost predicate Free(v: View, t: int) {
    && Tid(t) && |v.ready.inRq| == |v.lists.inIb| == |v.lists.inSq| == THREADS
    && !v.ready.inRq[t] && !v.lists.inIb[t] && !v.lists.inSq[t]
  }

  lemma CoreSizes(v: View, c: int, but: set<int>)
    requires CoreOk(v, c, but)
    ensures |v.state| == |v.prio| == |v.partner| == |v.buffer| == |v.ready.inRq| == |v.wake.next| == THREADS
    ensures |v.send.next| == |v.send.head| == |v.send.tail| == THREADS
    ensures |v.lists.inIb| == |v.lists.inSq| == |v.lists.sq| == |v.lists.posted| == THREADS
    ensures |v.lists.rq| == PRIOS && forall t :: 0 <= t < THREADS ==> 0 <= v.prio[t] < PRIOS
    ensures forall d :: 0 <= d < |v.current| ==> v.current[d] == NIL || Tid(v.current[d])
  {
    hide Sorted, Linked, Chain, PlacedAll, SendersOk;
    PlacedSizes(v.state, v.ready.inRq, v.lists.inIb, v.lists.inSq, but, 1);
    SendersSizes(v.state, v.lists.inSq, v.partner, v.buffer, v.lists.posted);
  }

  lemma SendersSizes(state: seq<State>, inSq: seq<bool>, partner: seq<int>, buffer: seq<seq<int>>,
                     posted: seq<seq<int>>)
    requires SendersOk(state, inSq, partner, buffer, posted)
    ensures |state| == |inSq| == |partner| == |buffer| == |posted| == THREADS
  {
  }

  lemma CorePlaced(v: View, c: int, but: set<int>, t: int)
    requires CoreOk(v, c, but) && Tid(t)
    ensures |v.state| == |v.ready.inRq| == |v.lists.inIb| == |v.lists.inSq| == THREADS
    ensures if t in but then Free(v, t) else Placed(v.state[t], v.ready.inRq[t], v.lists.inIb[t], v.lists.inSq[t])
    ensures !v.state[t].Ready? && !v.state[t].WaitSend? ==> Free(v, t)
  {
    hide ReadyOk, SendOk, InboxOk, SendersOk, CpusOk;
  }

  /** A free thread takes up a state in which it stays free. */
  lemma CoreHold(v: View, c: int, but: set<int>, t: int, s: State)
    requires CoreOk(v, c, but) && Free(v, t) && Live(s) && !s.Running? && !s.Ready? && !s.WaitSend?
    requires v.state[t].Running? ==> 0 <= c < |v.current| && v.current[c] == t
    ensures CoreOk(v.(state := v.state[t := s]), c, but - {t})
    ensures but == {} ==> CoreOk(v.(state := v.state[t := s]), c, {})
  {
    hide ReadyOk, SendOk, InboxOk, PlacedAll, SendersOk, CpusOk;
    SendersState(v.state, v.lists.inSq, v.partner, v.buffer, v.lists.posted, t, s);
    CpusState(v.state, v.current, c, t, s);
    PlacedHold(v.state, v.ready.inRq, v.lists.inIb, v.lists.inSq, but, t, s);
    assert but == {} ==> but - {t} == {};
  }

  /** A free thread is woken into the inbox. */
  lemma CoreWake(v: View, c: int, but: set<int>, t: int)
    requires CoreOk(v, c, but) && Free(v, t) && !v.state[t].Running?
    ensures var after := v.(state := v.state[t := Ready], wake := WakeList(v.wake.next[t := v.wake.first], t),
                            lists := v.lists.(ib := [t] + v.lists.ib, inIb := v.lists.inIb[t := true]));
            CoreOk(after, c, but - {t}) && (but == {} ==> CoreOk(after, c, {}))
  {
    hide ReadyOk, SendOk, InboxOk, PlacedAll, SendersOk, CpusOk;
    SendersState(v.state, v.lists.inSq, v.partner, v.buffer, v.lists.posted, t, Ready);
    CpusState(v.state, v.current, c, t, Ready);
    PlacedWake(v.state, v.ready.inRq, v.lists.inIb, v.lists.inSq, but, t);
    InboxPush(v.lists.inIb, v.wake, v.lists.ib, t);
    assert but == {} ==> but - {t} == {};
  }

  /** A thread that CPU c leaves, or a new one, joins the ready queues. */
  lemma CoreReady(v: View, c: int, t: int, ready: ReadyList, rq: seq<seq<int>>)
    requires CoreOk(v, c, {}) && Free(v, t) && ReadyOk(v.prio, ready, rq) && ready.inRq == v.ready.inRq[t := true]
    requires v.state[t].Running? ==> 0 <= c < |v.current| && v.current[c] == t
    ensures CoreOk(v.(state := v.state[t := Ready], ready := ready, lists := v.lists.(rq := rq)), c, {})
  {
    hide ReadyOk, SendOk, InboxOk, PlacedAll, SendersOk, CpusOk;
    SendersState(v.state, v.lists.inSq, v.partner, v.buffer, v.lists.posted, t, Ready);
    CpusState(v.state, v.current, c, t, Ready);
    PlacedReady(v.state, v.ready.inRq, v.lists.inIb, v.lists.inSq, t);
  }

  lemma PlacedReady(state: seq<State>, inRq: seq<bool>, inIb: seq<bool>, inSq: seq<bool>, t: int)
    requires PlacedAll(state, inRq, inIb, inSq, {}) && 0 <= t < THREADS && !inRq[t] && !inIb[t] && !inSq[t]
    ensures PlacedAll(state[t := Ready], inRq[t := true], inIb, inSq, {})
  {
  }

  /** CPU c takes up a free thread that is not running. */
  lemma CoreSwitch(v: View, c: nat, t: int)
    requires CoreOk(v, c, {}) && Free(v, t) && c < |v.current| && !v.state[t].Running?
    requires v.current[c] == NIL || !v.state[v.current[c]].Running?
    ensures CoreOk(v.(state := v.state[t := Running], current := v.current[c := t]), -1, {})
  {
    hide ReadyOk, SendOk, InboxOk, PlacedAll, SendersOk, CpusOk;
    SendersState(v.state, v.lists.inSq, v.partner, v.buffer, v.lists.posted, t, Running);
    CpusSwitch(v.state, v.current, c, t);
    PlacedHold(v.state, v.ready.inRq, v.lists.inIb, v.lists.inSq, {}, t, Running);
    assert {} - {t} == {};
  }

  /** CPU c's thread has queued to send to dest. */
  lemma CorePost(v: View, c: int, t: int, dest: int, words: seq<int>, send: SendLists)
    requires CoreOk(v, c, {}) && Free(v, t) && Tid(dest) && dest != t && Live(v.state[dest])
    requires v.state[t].Running? ==> 0 <= c < |v.current| && v.current[c] == t
    requires SendOk(v.partner[t := dest], v.lists.inSq[t := true], send, v.lists.sq[dest := v.lists.sq[dest] + [t]])
    ensures CoreOk(v.(state := v.state[t := WaitSend], partner := v.partner[t := dest],
                      buffer := v.buffer[t := words], send := send,
                      lists := v.lists.(sq := v.lists.sq[dest := v.lists.sq[dest] + [t]],
                                        inSq := v.lists.inSq[t := true],
                                        posted := v.lists.posted[t := words])), c, {})
  {
    hide ReadyOk, SendOk, InboxOk, PlacedAll, SendersOk, CpusOk;
    SendersPost(v.state, v.lists.inSq, v.partner, v.buffer, v.lists.posted, t, dest, words);
    CpusState(v.state, v.current, c, t, WaitSend);
    PlacedPost(v.state, v.ready.inRq, v.lists.inIb, v.lists.inSq, {}, t);
    assert {} - {t} == {};
  }

  /** A sender has left the queue it was in. */
  lemma CoreTake(v: View, c: int, t: int, send: SendLists, sq: seq<seq<int>>)
    requires CoreOk(v, c, {}) && Tid(t) && v.lists.inSq[t] && SendOk(v.partner, v.lists.inSq[t := false], send, sq)
    ensures CoreOk(v.(send := send, lists := v.lists.(sq := sq, inSq := v.lists.inSq[t := false])), c, {t})
    ensures v.partner[t] != t && v.buffer[t] == v.lists.posted[t] && v.state[t].WaitSend?
    ensures Free(v.(send := send, lists := v.lists.(sq := sq, inSq := v.lists.inSq[t := false])), t)
  {
    hide ReadyOk, SendOk, InboxOk, PlacedAll, SendersOk, CpusOk;
    CorePlaced(v, c, {}, t);
    PlacedTake(v.state, v.ready.inRq, v.lists.inIb, v.lists.inSq, {}, t);
    assert {} + {t} == {t};
    SendersTake(v.state, v.lists.inSq, v.partner, v.buffer, v.lists.posted, t);
  }

  /** The partner of a free thread may change. */
  lemma CoreRekey(v: View, c: int, but: set<int>, t: int, r: int)
    requires CoreOk(v, c, but) && Free(v, t)
    ensures CoreOk(v.(partner := v.partner[t := r]), c, but)
  {
    hide ReadyOk, SendOk, InboxOk, PlacedAll, SendersOk, CpusOk;
    SendSizes(v.partner, v.lists.inSq, v.send, v.lists.sq);
    SendRekey(v.partner, v.lists.inSq, v.send, v.lists.sq, t, r);
    SendersRekey(v.state, v.lists.inSq, v.partner, v.buffer, v.lists.posted, t, r);
  }

  /** A CPU that idles or runs a running thread is not between threads. */
  lemma CoreBack(v: View, c: nat)
    requires CoreOk(v, c, {}) && c < |v.current| && (v.current[c] == NIL || v.state[v.current[c]].Running?)
    ensures CoreOk(v, -1, {})
  {
    hide ReadyOk, SendOk, InboxOk, PlacedAll, SendersOk;
  }

  /** With no CPU between threads, none needs to be. */
  lemma CoreAny(v: View, c: int, but: set<int>)
    requires CoreOk(v, -1, but)
    ensures CoreOk(v, c, but)
  {
    hide ReadyOk, SendOk, InboxOk, PlacedAll, SendersOk;
  }

  /** The fields of a dead thread may be cleared and its priority set. */
  lemma CoreCleared(v: View, c: int, t: int, p: int, words: seq<int>)
    requires CoreOk(v, c, {}) && Tid(t) && v.state[t].Dead? && 0 <= p < PRIOS
    ensures |v.send.next| == |v.send.head| == |v.send.tail| == |v.wake.next| == THREADS
    ensures |v.prio| == |v.partner| == |v.buffer| == THREADS
    ensures CoreOk(v.(prio := v.prio[t := p], partner := v.partner[t := 0], buffer := v.buffer[t := words],
                      wake := v.wake.(next := v.wake.next[t := NIL]),
                      send := SendLists(v.send.next[t := NIL], v.send.head[t := NIL], v.send.tail[t := NIL])), c, {})
  {
    hide ReadyOk, SendOk, InboxOk, PlacedAll, SendersOk, CpusOk;
    CoreSizes(v, c, {});
    CorePlaced(v, c, {}, t);
    ReadyRekey(v.prio, v.ready, v.lists.rq, t, p);
    InboxRelink(v.lists.inIb, v.wake, v.lists.ib, t);
    NoSenders(v, c, t);
    SendWalk(v.partner, v.lists.inSq, v.send, v.lists.sq, t, 0);
    SendRelink(v.partner, v.lists.inSq, v.send, v.lists.sq, t);
    SendRekey(v.partner, v.lists.inSq, v.send.(next := v.send.next[t := NIL]), v.lists.sq, t, 0);
    SendTailNil(v.partner, v.lists.inSq, v.send, v.lists.sq, t);
    assert v.send.head[t := NIL] == v.send.head && v.send.tail[t := NIL] == v.send.tail;
    SendersClear(v.state, v.lists.inSq, v.partner, v.buffer, v.lists.posted, t, words);
  }

  lemma SendersClear(state: seq<State>, inSq: seq<bool>, partner: seq<int>, buffer: seq<seq<int>>,
                     posted: seq<seq<int>>, t: int, words: seq<int>)
    requires SendersOk(state, inSq, partner, buffer, posted) && Tid(t) && !inSq[t]
    ensures SendersOk(state, inSq, partner[t := 0], buffer[t := words], posted)
  {
  }

  lemma SendTailNil(partner: seq<int>, inSq: seq<bool>, q: SendLists, sq: seq<seq<int>>, r: int)
    requires SendOk(partner, inSq, q, sq) && Tid(r) && sq[r] == []
    ensures q.tail[r] == NIL && q.head[r] == NIL
  {
    TailIs(q.next, q.head, q.tail, sq, r);
  }

  /** Nobody is queued to send to a thread that is not live. */
  lemma NoSenders(v: View, c: int, t: int)
    requires CoreOk(v, c, {}) && Tid(t) && !Live(v.state[t])
    ensures |v.lists.sq| == THREADS && v.lists.sq[t] == []
  {
    hide ReadyOk, SendOk, InboxOk, PlacedAll, CpusOk;
    CoreSizes(v, c, {});
    SendWalk(v.partner, v.lists.inSq, v.send, v.lists.sq, t, 0);
  }

  lemma InboxRelink(inIb: seq<bool>, w: WakeList, ib: seq<int>, t: int)
    requires InboxOk(inIb, w, ib) && Tid(t) && !inIb[t]
    ensures InboxOk(inIb, w.(next := w.next[t := NIL]), ib)
  {
    hide Chain;
    ChainElsewhere(w.next, w.next[t := NIL], ib, t, t);
  }

  // ---- A thread goes away --------------------------------------------------------------------

  ghost function SetOf(q: seq<int>): set<int> { set t | t in q }

  /** The threads of `rest`, linked from one to the next, are senders taken off their queue. */
  ghost predicate Detached(v: View, c: int, rest: seq<int>) {
    match v
    case View(state, _, _, _, ready, _, send, _, lists) =>
      && CoreOk(v, c, SetOf(rest)) && Chain(send.next, rest) && |state| == THREADS
      && forall i :: 0 <= i < |rest| ==> Free(v, rest[i]) && state[rest[i]].WaitSend?
  }

  ghost function Dying(v: View, t: int, final: State): View
    requires Tid(t) && |v.state| == |v.send.head| == |v.send.tail| == |v.lists.sq| == |v.lists.inSq| == THREADS
  {
    v.(state := v.state[t := final], send := SendLists(v.send.next, v.send.head[t := NIL], v.send.tail[t := NIL]),
       lists := v.lists.(sq := v.lists.sq[t := []], inSq := Cleared(v.lists.inSq, v.lists.sq[t])))
  }

  /** The running thread dies and its senders are left detached. */
  lemma DetachStart(v: View, c: nat, t: int, final: State)
    requires CoreOk(v, c, {}) && c < |v.current| && v.current[c] == t && Tid(t) && v.state[t].Running? && !Live(final)
    ensures |v.state| == |v.send.head| == |v.send.tail| == |v.lists.sq| == |v.lists.inSq| == THREADS
    ensures Detached(Dying(v, t, final), c, v.lists.sq[t])
    ensures v.send.head[t] == if v.lists.sq[t] == [] then NIL else v.lists.sq[t][0]
  {
    hide ReadyOk, SendOk, InboxOk, PlacedAll, SendersOk, CpusOk, Cleared, Chain;
    CoreSizes(v, c, {});
    var q := v.lists.sq[t];
    SendClear(v.partner, v.lists.inSq, v.send, v.lists.sq, t);
    SendWalk(v.partner, v.lists.inSq, v.send, v.lists.sq, t, 0);
    CpusState(v.state, v.current, c, t, final);
    PlacedDying(v.state, v.ready.inRq, v.lists.inIb, v.lists.inSq, q, t, final);
    SendersDying(v.state, v.lists.inSq, v.partner, v.buffer, v.lists.posted, q, t, final);
    forall i | 0 <= i < |q| ensures Free(Dying(v, t, final), q[i]) && v.state[t := final][q[i]].WaitSend? {
      SendWalk(v.partner, v.lists.inSq, v.send, v.lists.sq, t, i);
      CorePlaced(v, c, {}, q[i]);
    }
  }

  lemma PlacedDying(state: seq<State>, inRq: seq<bool>, inIb: seq<bool>, inSq: seq<bool>, q: seq<int>, t: int,
                    final: State)
    requires PlacedAll(state, inRq, inIb, inSq, {}) && Tid(t) && state[t].Running? && !Live(final)
    requires forall s :: s in q ==> Tid(s) && inSq[s]
    ensures PlacedAll(state[t := final], inRq, inIb, Cleared(inSq, q), SetOf(q))
  {
  }

  lemma SendersDying(state: seq<State>, inSq: seq<bool>, partner: seq<int>, buffer: seq<seq<int>>,
                     posted: seq<seq<int>>, q: seq<int>, t: int, final: State)
    requires SendersOk(state, inSq, partner, buffer, posted) && Tid(t)
    requires forall s :: 0 <= s < THREADS && inSq[s] && partner[s] == t ==> s in q
    ensures SendersOk(state[t := final], Cleared(inSq, q), partner, buffer, posted)
  {
  }

  /** The first detached sender may be unlinked from the rest. */
  lemma DetachFirst(v: View, c: int, rest: seq<int>)
    requires Detached(v, c, rest) && rest != []
    ensures Tid(rest[0]) && |v.send.next| == |v.state| == THREADS && v.state[rest[0]].WaitSend?
    ensures rest[0] in SetOf(rest)
    ensures v.send.next[rest[0]] == if |rest| > 1 then rest[1] else NIL
    ensures CoreOk(v.(send := v.send.(next := v.send.next[rest[0] := NIL])), c, SetOf(rest))
    ensures Free(v.(send := v.send.(next := v.send.next[rest[0] := NIL])), rest[0])
  {
    hide ReadyOk, SendOk, InboxOk, PlacedAll, SendersOk, CpusOk, Chain;
    assert Free(v, rest[0]);
    SendSizes(v.partner, v.lists.inSq, v.send, v.lists.sq);
    SendRelink(v.partner, v.lists.inSq, v.send, v.lists.sq, rest[0]);
    ChainLink(v.send.next, rest, 0);
  }

  lemma DetachNext(v: View, v': View, c: int, rest: seq<int>)
    requires Detached(v, c, rest) && rest != [] && Tid(rest[0])
    requires |v.state| == |v.send.next| == |v.lists.inIb| == THREADS
    requires CoreOk(v', c, SetOf(rest) - {rest[0]}) && v'.ready == v.ready
    requires v'.send.next == v.send.next[rest[0] := NIL]
    requires v'.state == v.state[rest[0] := Ready] && v'.lists.inIb == v.lists.inIb[rest[0] := true]
    requires v'.lists.inSq == v.lists.inSq
    ensures Detached(v', c, rest[1..]) && SetOf(rest[1..]) == SetOf(rest) - {rest[0]}
  {
    hide CoreOk, Chain;
    ChainTail(v.send.next, rest);
    ChainElsewhere(v.send.next, v'.send.next, rest[1..], rest[0], rest[0]);
    assert SetOf(rest[1..]) == SetOf(rest) - {rest[0]};
    forall i | 0 <= i < |rest[1..]| ensures Free(v', rest[1..][i]) && v'.state[rest[1..][i]].WaitSend? {
      assert rest[1..][i] == rest[i + 1] && Free(v, rest[i + 1]) && rest[i + 1] in rest[1..];
    }
  }

  lemma DetachEnd(v: View, c: int, rest: seq<int>)
    requires Detached(v, c, rest) && NIL == if rest == [] then NIL else rest[0]
    ensures rest == [] && CoreOk(v, c, {})
  {
    hide CoreOk;
    if rest == [] {
      assert SetOf(rest) == {};
    }
  }

  /** A zombie is reaped. */
  lemma CoreReap(v: View, c: int, t: int)
    requires CoreOk(v, c, {}) && Tid(t) && v.state[t].Zombie?
    ensures CoreOk(v.(state := v.state[t := Dead]), c, {})
  {
    hide ReadyOk, SendOk, InboxOk, PlacedAll, CpusOk;
    CorePlaced(v, c, {}, t);
    CpusState(v.state, v.current, c, t, Dead);
    PlacedHold(v.state, v.ready.inRq, v.lists.inIb, v.lists.inSq, {}, t, Dead);
    assert {} - {t} == {};
  }

  /** The senders in t's queue wait to send to it. */
  lemma SendersOf(v: View, c: int, t: int)
    requires CoreOk(v, c, {}) && Tid(t)
    ensures |v.lists.sq| == |v.state| == |v.partner| == THREADS && t !in v.lists.sq[t]
    ensures forall s :: s in v.lists.sq[t] ==> Tid(s) && v.state[s].WaitSend? && v.partner[s] == t
  {
    hide ReadyOk, SendOk, InboxOk, CpusOk;
    SendSizes(v.partner, v.lists.inSq, v.send, v.lists.sq);
    SendClear(v.partner, v.lists.inSq, v.send, v.lists.sq, t);
  }

  // ---- What the conditions mean --------------------------------------------------------------

  /** With no CPU between threads: every ready thread is linked exactly once, in the queue of
      its priority or in the inbox; every thread blocked on a send is linked exactly once, in
      the queue of the live thread it names, with its message as posted; nothing else is
      linked; the bitmap tells which queues are non-empty; and a thread runs just if it is
      current on one CPU. */
  lemma LinkedOnce(v: View)
    requires CoreOk(v, -1, {})
    ensures |v.state| == |v.prio| == |v.partner| == |v.lists.sq| == |v.buffer| == |v.lists.posted| == THREADS
    ensures |v.lists.rq| == |v.ready.bits| == PRIOS
    ensures forall t :: Tid(t) ==> 0 <= v.prio[t] < PRIOS
    ensures forall t :: Tid(t) ==> (v.state[t].Ready? <==> t in v.lists.rq[v.prio[t]] || t in v.lists.ib)
    ensures forall t :: Tid(t) ==> !(t in v.lists.rq[v.prio[t]] && t in v.lists.ib)
    ensures forall p, t {:trigger t in v.lists.rq[p]} :: 0 <= p < PRIOS && t in v.lists.rq[p] ==>
              Tid(t) && v.prio[t] == p
    ensures forall t :: t in v.lists.ib ==> Tid(t)
    ensures forall r, t {:trigger t in v.lists.sq[r]} :: Tid(r) && t in v.lists.sq[r] ==>
              Tid(t) && v.state[t].WaitSend? && v.partner[t] == r
    ensures forall t :: Tid(t) && v.state[t].WaitSend? ==>
              && Tid(v.partner[t]) && v.partner[t] != t && Live(v.state[v.partner[t]])
              && t in v.lists.sq[v.partner[t]] && v.buffer[t] == v.lists.posted[t]
    ensures Distinct(v.lists.ib) && (forall p :: 0 <= p < PRIOS ==> Distinct(v.lists.rq[p]))
    ensures forall r :: Tid(r) ==> Distinct(v.lists.sq[r])
    ensures forall p :: 0 <= p < PRIOS ==> (v.ready.bits[p] <==> v.lists.rq[p] != [])
    ensures forall t :: Tid(t) ==> (v.state[t].Running? <==> t in v.current)
    ensures forall c, d :: 0 <= c < d < |v.current| && v.current[c] == v.current[d] ==> v.current[c] == NIL
  {
    LinkedReady(v.prio, v.ready, v.lists.rq);
    LinkedSend(v.partner, v.lists.inSq, v.send, v.lists.sq);
    LinkedInbox(v.lists.inIb, v.wake, v.lists.ib);
    hide ReadyOk, SendOk, InboxOk;
  }

  lemma LinkedReady(prio: seq<int>, r: ReadyList, rq: seq<seq<int>>)
    requires ReadyOk(prio, r, rq)
    ensures |prio| == |r.inRq| == THREADS && |rq| == |r.bits| == PRIOS && (forall t :: Tid(t) ==> 0 <= prio[t] < PRIOS)
    ensures forall t :: Tid(t) ==> (r.inRq[t] <==> t in rq[prio[t]])
    ensures forall p, t {:trigger t in rq[p]} :: 0 <= p < PRIOS && t in rq[p] ==> Tid(t) && prio[t] == p
    ensures forall p :: 0 <= p < PRIOS ==> Distinct(rq[p]) && (r.bits[p] <==> rq[p] != [])
  {
    forall p | 0 <= p < PRIOS ensures Distinct(rq[p]) {
      TailIs(r.next, r.head, r.tail, rq, p);
    }
  }

  lemma LinkedSend(partner: seq<int>, inSq: seq<bool>, q: SendLists, sq: seq<seq<int>>)
    requires SendOk(partner, inSq, q, sq)
    ensures |partner| == |inSq| == |sq| == THREADS
    ensures forall t :: Tid(t) && inSq[t] ==> 0 <= partner[t] < THREADS && t in sq[partner[t]]
    ensures forall r, t {:trigger t in sq[r]} :: Tid(r) && t in sq[r] ==> Tid(t) && inSq[t] && partner[t] == r
    ensures forall r :: Tid(r) ==> Distinct(sq[r])
  {
    forall r | Tid(r) ensures Distinct(sq[r]) {
      TailIs(q.next, q.head, q.tail, sq, r);
    }
  }

  lemma LinkedInbox(inIb: seq<bool>, w: WakeList, ib: seq<int>)
    requires InboxOk(inIb, w, ib)
    ensures |inIb| == THREADS && Distinct(ib) && (forall t :: Tid(t) ==> (inIb[t] <==> t in ib))
    ensures forall t :: t in ib ==> Tid(t)
  {
  }

  // ---- An empty table ------------------------------------------------------------------------

  function Fill<T>(n: nat, x: T): (s: seq<T>)
    ensures |s| == n && forall i :: 0 <= i < n ==> s[i] == x
  {
    seq(n, _ => x)
  }

  ghost function EmptyLists(): Lists {
    Lists(Fill(PRIOS, []), [], Fill(THREADS, false), Fill(THREADS, []), Fill(THREADS, false), Fill(THREADS, []))
  }

  function NoReady(): ReadyList {
    ReadyList(Fill(THREADS, false), Fill(THREADS, NIL), Fill(PRIOS, NIL), Fill(PRIOS, NIL), Fill(PRIOS, false))
  }

  function NoSends(): SendLists {
    SendLists(Fill(THREADS, NIL), Fill(THREADS, NIL), Fill(THREADS, NIL))
  }

  lemma EmptyCore(cpus: nat)
    ensures CoreOk(View(Fill(THREADS, Dead), Fill(THREADS, 0), Fill(THREADS, 0), Fill(THREADS, []), NoReady(),
                        WakeList(Fill(THREADS, NIL), NIL), NoSends(), Fill(cpus, NIL), EmptyLists()), -1, {})
  {
  }
}
