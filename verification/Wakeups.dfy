/** When a CPU is asked to give way: exactly for a thread that it woke and that outranks the one it
    runs. */
module Wakeups {
  import opened IntrusiveList
  import opened Threads
  import opened Timekeeping
  import opened Messages

  // ---- Asking for a reschedule ---------------------------------------------------------------

  /** The priority of what CPU c runs; that of the idle thread is the lowest. */
  function Rank(prio: seq<int>, current: seq<int>, c: nat): int {
    if c < |current| && 0 <= current[c] < |prio| then prio[current[c]] else 0
  }

  /** The reschedule flags once CPU c has woken t. */
  function Urged(need: seq<bool>, prio: seq<int>, current: seq<int>, c: nat, t: int): (after: seq<bool>)
    ensures |after| == |need| && (c < |need| && need[c] ==> after[c])
  {
    if 0 <= t < |prio| && c < |need| && prio[t] > Rank(prio, current, c) then need[c := true] else need
  }

  predicate Waits(s: State) { Live(s) && !s.Running? && !s.Ready? }

  /** Thread t was waiting and is ready. */
  predicate Woke(was: seq<State>, state: seq<State>, t: int) {
    0 <= t < |was| && t < |state| && Waits(was[t]) && state[t].Ready?
  }

  /** Some thread that was woken outranks what CPU c runs. */
  ghost predicate Outranked(was: seq<State>, state: seq<State>, prio: seq<int>, current: seq<int>, c: nat) {
    exists t :: 0 <= t < |prio| && Woke(was, state, t) && prio[t] > Rank(prio, current, c)
  }

  /** CPU c is asked to reschedule exactly for a thread that outranks what it runs. */
  ghost predicate NeedIs(was: seq<State>, state: seq<State>, prio: seq<int>, current: seq<int>, c: nat,
                         need: seq<bool>, need': seq<bool>) {
    c < |need| && need' == if Outranked(was, state, prio, current, c) then need[c := true] else need
  }

  /** CPU c gives way to every thread that was woken and outranks what it runs. */
  ghost predicate Yields(was: seq<State>, state: seq<State>, prio: seq<int>, current: seq<int>, c: nat,
                         need: seq<bool>) {
    forall t :: 0 <= t < |prio| && Woke(was, state, t) ==>
      || (c < |need| && need[c])
      || (c < |current| && 0 <= current[c] < |state| && !state[current[c]].Running?)
      || prio[t] <= Rank(prio, current, c)
  }

  lemma NoneWoke(state: seq<State>)
    ensures forall t :: !Woke(state, state, t)
  {
  }

  lemma NeedNone(state: seq<State>, prio: seq<int>, current: seq<int>, c: nat, need: seq<bool>)
    requires c < |need|
    ensures NeedIs(state, state, prio, current, c, need, need)
  {
  }

  lemma NeedWoken(was: seq<State>, state: seq<State>, prio: seq<int>, current: seq<int>, c: nat,
                  need: seq<bool>, need': seq<bool>, t: int)
    requires NeedIs(was, state, prio, current, c, need, need') && 0 <= t < |prio| == |state| == |was|
    requires Waits(was[t]) && state[t] == was[t]
    ensures NeedIs(was, state[t := Ready], prio, current, c, need, Urged(need', prio, current, c, t))
  {
    var state' := state[t := Ready];
    assert Woke(was, state', t);
    if Outranked(was, state, prio, current, c) {
      var o :| 0 <= o < |prio| && Woke(was, state, o) && prio[o] > Rank(prio, current, c);
      assert Woke(was, state', o);
    }
    if Outranked(was, state', prio, current, c) && !(prio[t] > Rank(prio, current, c)) {
      var o :| 0 <= o < |prio| && Woke(was, state', o) && prio[o] > Rank(prio, current, c);
      assert Woke(was, state, o);
    }
  }

  lemma NeedOne(state: seq<State>, prio: seq<int>, current: seq<int>, c: nat, need: seq<bool>, t: int)
    requires c < |need| && 0 <= t < |prio| == |state| && Waits(state[t])
    ensures NeedIs(state, state[t := Ready], prio, current, c, need, Urged(need, prio, current, c, t))
  {
    NeedNone(state, prio, current, c, need);
    NeedWoken(state, state, prio, current, c, need, need, t);
  }

  lemma NeedHeld(state: seq<State>, prio: seq<int>, current: seq<int>, c: nat, need: seq<bool>, t: int, s: State)
    requires c < |need| && 0 <= t < |state| && !s.Ready?
    ensures NeedIs(state, state[t := s], prio, current, c, need, need)
  {
  }

  /** Nobody was woken. */
  lemma NeedSame(was: seq<State>, state: seq<State>, prio: seq<int>, current: seq<int>, c: nat, need: seq<bool>)
    requires c < |need| && forall t :: !Woke(was, state, t)
    ensures NeedIs(was, state, prio, current, c, need, need)
  {
  }

  lemma NeedJoined(a: seq<State>, b: seq<State>, d: seq<State>, prio: seq<int>, current: seq<int>, c: nat,
                   need: seq<bool>, mid: seq<bool>, need': seq<bool>)
    requires NeedIs(a, b, prio, current, c, need, mid) && NeedIs(b, d, prio, current, c, mid, need')
    requires forall t :: Woke(a, d, t) <==> Woke(a, b, t) || Woke(b, d, t)
    ensures NeedIs(a, d, prio, current, c, need, need')
  {
    if Outranked(a, b, prio, current, c) {
      var o :| 0 <= o < |prio| && Woke(a, b, o) && prio[o] > Rank(prio, current, c);
      assert Woke(a, d, o);
    }
    if Outranked(b, d, prio, current, c) {
      var o :| 0 <= o < |prio| && Woke(b, d, o) && prio[o] > Rank(prio, current, c);
      assert Woke(a, d, o);
    }
    if Outranked(a, d, prio, current, c) {
      var o :| 0 <= o < |prio| && Woke(a, d, o) && prio[o] > Rank(prio, current, c);
      assert Woke(a, b, o) || Woke(b, d, o);
    }
  }

  lemma NeedYields(was: seq<State>, state: seq<State>, prio: seq<int>, current: seq<int>, c: nat,
                   need: seq<bool>, need': seq<bool>)
    requires NeedIs(was, state, prio, current, c, need, need')
    ensures Yields(was, state, prio, current, c, need')
  {
  }

  lemma QuietYields(was: seq<State>, state: seq<State>, prio: seq<int>, current: seq<int>, c: nat, need: seq<bool>)
    requires forall t :: !Woke(was, state, t)
    ensures Yields(was, state, prio, current, c, need)
  {
  }

  lemma NotWoken(was: seq<State>, t: int, s: State)
    requires 0 <= t < |was| && (s.Ready? ==> !Waits(was[t]))
    ensures var state := was[t := s]; forall o :: !Woke(was, state, o)
  {
  }

  lemma AskedYields(was: seq<State>, state: seq<State>, prio: seq<int>, current: seq<int>, c: nat, need: seq<bool>)
    requires c < |need| && need[c]
    ensures Yields(was, state, prio, current, c, need)
  {
  }

  lemma TickYields(was: seq<State>, state: seq<State>, prio: seq<int>, current: seq<int>, c: nat, need: seq<bool>,
                   need': seq<bool>, spent: bool)
    requires c < |need| && need' == if Outranked(was, state, prio, current, c) || spent then need[c := true] else need
    ensures Yields(was, state, prio, current, c, need')
  {
  }

  /** Only CPU c may have been asked to reschedule. */
  predicate OnlyAt(need: seq<bool>, need': seq<bool>, c: nat) {
    |need'| == |need| && forall d :: 0 <= d < |need| && d != c ==> need'[d] == need[d]
  }

  /** Threads at most stopped waiting. */
  ghost predicate OnlyWoken(was: seq<State>, state: seq<State>) {
    |was| == |state| && forall t :: 0 <= t < |was| ==> state[t] == was[t] || Woke(was, state, t)
  }

  lemma RousedOnly(k: Clock, was: seq<State>, state: seq<State>)
    requires Roused(k, was, state, THREADS)
    ensures OnlyWoken(was, state)
  {
  }

  lemma OnlyNone(state: seq<State>)
    ensures OnlyWoken(state, state)
  {
  }

  lemma OnlyOne(state: seq<State>, t: int)
    requires 0 <= t < |state| && (t != 0 ==> Waits(state[t]))
    ensures t != 0 ==> OnlyWoken(state, state[t := Ready])
  {
  }

  lemma OnlyJoined(a: seq<State>, b: seq<State>, d: seq<State>)
    requires OnlyWoken(a, b) && OnlyWoken(b, d)
    ensures OnlyWoken(a, d) && forall t :: Woke(a, d, t) <==> Woke(a, b, t) || Woke(b, d, t)
  {
  }

  // ---- Who is woken --------------------------------------------------------------------------

  /** The first sender that the filter admits waits on cur, with its message as it was posted. */
  lemma SenderIs(v: View, c: int, cur: int, filter: int, dest: int)
    requires CoreOk(v, c, {}) && Tid(cur) && Tid(dest) && v.state[dest].WaitRecv?
    ensures |v.lists.sq| == |v.buffer| == |v.lists.posted| == |v.state| == THREADS
    ensures var s := Earliest(v.lists.sq[cur], filter);
            Tid(s) ==> v.state[s].WaitSend? && s != cur && s != dest && v.buffer[s] == v.lists.posted[s]
  {
    FirstSender(v, c, cur, filter);
  }

  lemma PostedAs(v: View, c: int)
    requires CoreOk(v, c, {})
    ensures |v.state| == |v.buffer| == |v.lists.posted| == THREADS
    ensures forall t :: 0 <= t < THREADS && v.state[t].WaitSend? ==> v.buffer[t] == v.lists.posted[t]
  {
    hide ReadyOk, SendOk, InboxOk, CpusOk;
  }

  /** The first sender of cur that the filter admits, in the table as it is. */
  lemma FirstSender(v: View, c: int, cur: int, filter: int)
    requires CoreOk(v, c, {}) && Tid(cur)
    ensures |v.lists.sq| == |v.buffer| == |v.lists.posted| == |v.state| == THREADS
    ensures var s := Earliest(v.lists.sq[cur], filter);
            Tid(s) ==> v.state[s].WaitSend? && s != cur && v.buffer[s] == v.lists.posted[s]
  {
    SendersOf(v, c, cur);
    PostedAs(v, c);
    hide CoreOk, First;
  }

  lemma UnmatchedWakes(m: Mail, r: int, filter: int, noblock: bool, offer: Offer)
    requires MailOk(m) && Tid(r)
    ensures forall t :: !Woke(m.state, Unmatched(m, r, filter, noblock, offer).state, t)
  {
  }

  lemma WaitsWakes(m: Mail, cur: int, dest: int, filter: int)
    requires MailOk(m) && Tid(cur) && Tid(dest)
    ensures forall t :: !Woke(m.state, WaitsFor(m, cur, dest, filter).state, t)
  {
  }

  lemma PutOffWakes(m: Mail, prio: seq<int>, cur: int, dest: int)
    requires MailOk(m) && Tid(cur) && Tid(dest) && |prio| == THREADS && m.state[cur].Running?
    ensures forall t :: !Woke(m.state, PutOff(m, prio, cur, dest).state, t)
  {
  }

  /** dest is woken, and then perhaps the sender that r takes a message from. */
  lemma WokenTwice(m: Mail, dest: int, n: Mail, r: int, s: int, xferOk: bool)
    requires MailOk(m) && Tid(dest) && Tid(r) && Tid(s) && s != dest && m.state[dest].WaitRecv?
    requires n == WakeMail(m, dest)
    ensures var after := HandOver(n, r, s, xferOk).state;
            forall t :: Woke(m.state, after, t) <==> Woke(m.state, n.state, t) || Woke(n.state, after, t)
  {
  }

  lemma TookJoins(was: seq<State>, m: Mail, n: Mail, r: int, dest: int, filter: int, noblock: bool, offer: Offer,
                  xferOk: bool, words: seq<int>)
    requires Took(m, n, r, filter, noblock, offer, xferOk, words) && Tid(dest) && |was| == THREADS
    requires m.state == was[dest := Ready] && was[dest].WaitPagefault?
    requires var s := Earliest(m.lists.sq[r], filter); Tid(s) ==> m.state[s].WaitSend?
    requires r != dest && was[r].Running?
    ensures forall t :: Woke(was, n.state, t) <==> Woke(was, m.state, t) || Woke(m.state, n.state, t)
  {
    hide First, HandedOver, TookOffer;
  }

  lemma QueuedBuffer(m: Mail, n: Mail, buffer: seq<seq<int>>, cur: int, dest: int, after: int)
    requires QueuedTo(m, n, buffer, cur, dest, after) && m.state[cur].Running?
    ensures |buffer| == THREADS && buffer[cur] == m.frame[cur].words && forall t :: !Woke(m.state, n.state, t)
  {
  }

  /** A CPU that switched threads woke nobody. */
  lemma YieldsAfter(was: seq<State>, state: seq<State>, prio: seq<int>, before: seq<int>, current: seq<int>, c: nat,
                    need: seq<bool>)
    requires Yields(was, state, prio, before, c, need) && (current == before || forall t :: !Woke(was, state, t))
    ensures Yields(was, state, prio, current, c, need)
  {
  }

  /** What an IPC call does besides: who is switched to takes over the time slice and nobody is woken
      then, and the words of a send that has to wait are in the sender's buffer. */
  ghost predicate Aside(m: Mail, n: Mail, pager: seq<int>, cur: int, dest: int, before: seq<int>, current: seq<int>,
                        slice: seq<int>, slice': seq<int>, buffer: seq<seq<int>>) {
    match m
    case Mail(state, partner, _, frame, _) =>
      && |slice| == |buffer| == |frame| == THREADS && Tid(cur)
      && slice' == (if current != before && Tid(dest) then slice[dest := slice[cur]] else slice)
      && (Sends(m, pager, cur, dest) && |partner| == THREADS && !AcceptsNow(state[dest], partner[dest], cur) ==>
            buffer[cur] == frame[cur].words)
      && (current != before ==> forall t :: !Woke(state, n.state, t))
  }

  lemma AsideIs(m: Mail, n: Mail, pager: seq<int>, cur: int, dest: int, before: seq<int>, current: seq<int>,
                slice: seq<int>, slice': seq<int>, buffer: seq<seq<int>>)
    requires MailOk(m) && |slice| == |buffer| == THREADS && Tid(cur)
    requires slice' == (if current != before && Tid(dest) then slice[dest := slice[cur]] else slice)
    requires Sends(m, pager, cur, dest) && !AcceptsNow(m.state[dest], m.partner[dest], cur) ==>
               buffer[cur] == m.frame[cur].words
    requires current != before ==> forall t :: !Woke(m.state, n.state, t)
    ensures Aside(m, n, pager, cur, dest, before, current, slice, slice', buffer)
  {
  }

  lemma AsideMeans(m: Mail, n: Mail, pager: seq<int>, cur: int, dest: int, before: seq<int>, current: seq<int>,
                   slice: seq<int>, slice': seq<int>, buffer: seq<seq<int>>)
    requires Aside(m, n, pager, cur, dest, before, current, slice, slice', buffer) && MailOk(m)
    ensures |slice| == |buffer| == THREADS
    ensures slice' == if current != before && Tid(dest) then slice[dest := slice[cur]] else slice
    ensures Sends(m, pager, cur, dest) && !AcceptsNow(m.state[dest], m.partner[dest], cur) ==>
              buffer[cur] == m.frame[cur].words
    ensures current != before ==> forall t :: !Woke(m.state, n.state, t)
  {
  }

  /** After a stay in the kernel, who was woken does not outrank the one this CPU runs. */
  lemma RanksAfter(was: seq<State>, v: View, need: seq<bool>, c: nat, after: View)
    requires |was| == |v.state| == |v.prio| == |after.state| == THREADS && after.prio == v.prio
    requires c < |need| == |v.current| == |after.current| && (v.current[c] == NIL || Tid(v.current[c]))
    requires Yields(was, v.state, v.prio, v.current, c, need)
    requires need[c] || (v.current[c] != NIL && !v.state[v.current[c]].Running?) ==>
               && (after.current[c] == NIL || Tid(after.current[c]))
               && forall t :: 0 <= t < THREADS && after.state[t].Ready? ==>
                    after.current[c] != NIL && after.prio[t] <= after.prio[after.current[c]]
    requires !need[c] && (v.current[c] == NIL || v.state[v.current[c]].Running?) ==> after == v
    ensures forall t :: Woke(was, after.state, t) ==> after.prio[t] <= Rank(after.prio, after.current, c)
  {
  }
}
