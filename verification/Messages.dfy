/** What the send and receive calls do to threads' states, registers and queues, as functions. */
module Messages {
  import opened IntrusiveList
  import opened Threads
  import opened Timekeeping

  const ANY: int := 0        // receive filter that admits every sender
  const NO_RECV: int := 0xFFFF_FFFF   // no receive follows the send
  const ERR_NONE: int := 0
  const ERR_NOT_FOUND: int := -1
  const ERR_NO_CAP: int := -4
  const ERR_WOULDBLOCK: int := -5

  /** The message registers of a saved user context. */
  datatype Frame = Frame(words: seq<int>, from: int, result: int)

  predicate Admits(filter: int, s: int) { filter == ANY || s == filter }

  /** The place of the first sender of q that the filter admits, or its length. */
  function First(q: seq<int>, filter: int): (i: nat)
    ensures i <= |q| && (i < |q| ==> Admits(filter, q[i]))
    ensures forall j :: 0 <= j < i ==> !Admits(filter, q[j])
  {
    if q == [] || Admits(filter, q[0]) then 0 else 1 + First(q[1..], filter)
  }

  lemma {:induction false} FirstIs(q: seq<int>, filter: int, i: nat)
    requires i <= |q| && (forall j :: 0 <= j < i ==> !Admits(filter, q[j])) && (i < |q| ==> Admits(filter, q[i]))
    ensures First(q, filter) == i
  {
    if i > 0 {
      assert !Admits(filter, q[0]);
      FirstIs(q[1..], filter, i - 1);
    }
  }

  /** The part of the thread table that messages move. */
  datatype Mail = Mail(state: seq<State>, partner: seq<int>, recvAfter: seq<int>, frame: seq<Frame>, lists: Lists)

  ghost predicate MailOk(m: Mail) {
    match m
    case Mail(state, partner, recvAfter, frame, lists) =>
      && |state| == |partner| == |recvAfter| == |frame| == THREADS
      && |lists.sq| == |lists.inSq| == |lists.inIb| == |lists.posted| == THREADS
  }

  /** Receiver r gets the message of s; s goes on to its own receive, or is ready. */
  ghost function HandOver(m: Mail, r: int, s: int, xferOk: bool): (after: Mail)
    requires MailOk(m) && Tid(r) && Tid(s)
    ensures MailOk(after)
  {
    var frame := m.frame[r := Frame(m.lists.posted[s], s, ERR_NONE)];
    var frame := frame[s := frame[s].(result := if xferOk then ERR_NONE else ERR_NO_CAP)];
    if m.recvAfter[s] != NO_RECV then
      Mail(m.state[s := WaitRecv], m.partner[s := m.recvAfter[s]], m.recvAfter[s := NO_RECV], frame, m.lists)
    else
      Mail(m.state[s := Ready], m.partner, m.recvAfter, frame, Woken(m.lists, s))
  }

  /** What a receive by r does: the earliest admitted sender hands over its message; with none,
      r takes what is on offer or waits. */
  ghost function Received(m: Mail, r: int, filter: int, noblock: bool, offer: Offer, xferOk: bool): (after: Mail)
    requires MailOk(m) && Tid(r)
    ensures MailOk(after)
  {
    var s := Earliest(m.lists.sq[r], filter);
    if Tid(s) then
      HandOver(m.(lists := TakenFrom(m.lists, r, filter)), r, s, xferOk)
    else
      Unmatched(m, r, filter, noblock, offer)
  }

  ghost function Unmatched(m: Mail, r: int, filter: int, noblock: bool, offer: Offer): (after: Mail)
    requires MailOk(m) && Tid(r)
    ensures MailOk(after)
  {
    var m' := m.(frame := m.frame[r := Offered(m.frame[r], offer, noblock)]);
    if offer.NoOffer? && !noblock then m'.(state := m.state[r := WaitRecv], partner := m.partner[r := filter]) else m'
  }

  ghost function WakeMail(m: Mail, t: int): (after: Mail)
    requires MailOk(m) && Tid(t)
    ensures MailOk(after)
  {
    m.(state := m.state[t := Ready], lists := Woken(m.lists, t))
  }

  /** A message from `from` lands in the registers of dest. */
  ghost function Delivered(m: Mail, from: int, dest: int, xferOk: bool): (after: Mail)
    requires MailOk(m) && Tid(from) && Tid(dest)
    ensures MailOk(after)
  {
    var frame := m.frame[dest := Frame(m.frame[from].words, from, ERR_NONE)];
    m.(frame := frame[from := frame[from].(result := if xferOk then ERR_NONE else ERR_NO_CAP)])
  }

  lemma DeliveredLists(m: Mail, from: int, dest: int, xferOk: bool)
    requires MailOk(m) && Tid(from) && Tid(dest)
    ensures Delivered(m, from, dest, xferOk) == m.(frame := Delivered(m, from, dest, xferOk).frame)
  {
  }

  /** `cur`, whose message dest has, receives: from its earliest admitted sender while dest is
      woken, or it waits while dest runs. */
  ghost function ReceivedAfterSend(m: Mail, cur: int, dest: int, filter: int, parkedOk: bool): (after: Mail)
    requires MailOk(m) && Tid(cur) && Tid(dest)
    ensures MailOk(after)
  {
    var s := Earliest(m.lists.sq[cur], filter);
    if Tid(s) then HandOver(WakeMail(m.(lists := TakenFrom(m.lists, cur, filter)), dest), cur, s, parkedOk)
    else WaitsFor(m, cur, dest, filter)
  }

  ghost function WaitsFor(m: Mail, cur: int, dest: int, filter: int): (after: Mail)
    requires MailOk(m) && Tid(cur) && Tid(dest)
    ensures MailOk(after)
  {
    m.(state := m.state[cur := WaitRecv][dest := Running], partner := m.partner[cur := filter])
  }

  ghost function PutOff(m: Mail, prio: seq<int>, cur: int, dest: int): (after: Mail)
    requires MailOk(m) && Tid(cur) && Tid(dest) && |prio| == THREADS
    ensures MailOk(after)
  {
    m.(state := m.state[cur := Ready][dest := Running], lists := Queued(m.lists, prio[cur], cur))
  }

  /** A send to a waiting receiver. */
  ghost function SentDirect(m: Mail, prio: seq<int>, cur: int, dest: int, wantRecv: bool, filter: int,
                            xferOk: bool, parkedOk: bool): (after: Mail)
    requires MailOk(m) && Tid(cur) && Tid(dest) && |prio| == THREADS
    ensures MailOk(after)
  {
    AfterSend(Delivered(m, cur, dest, xferOk), prio, cur, dest, wantRecv, filter, parkedOk)
  }

  /** The message is delivered: cur receives, or the one with the higher priority runs. */
  ghost function AfterSend(m: Mail, prio: seq<int>, cur: int, dest: int, wantRecv: bool, filter: int,
                           parkedOk: bool): (after: Mail)
    requires MailOk(m) && Tid(cur) && Tid(dest) && |prio| == THREADS
    ensures MailOk(after)
  {
    if wantRecv then ReceivedAfterSend(m, cur, dest, filter, parkedOk)
    else if prio[dest] >= prio[cur] then PutOff(m, prio, cur, dest)
    else WakeMail(m, dest)
  }

  ghost function Queued(l: Lists, p: int, t: int): Lists {
    if 0 <= p < |l.rq| then l.(rq := l.rq[p := l.rq[p] + [t]]) else l
  }

  /** The thread its CPU runs after a send to a waiting receiver. */
  ghost function RunsAfterSend(m: Mail, prio: seq<int>, cur: int, dest: int, wantRecv: bool, filter: int): int
    requires MailOk(m) && Tid(cur) && Tid(dest) && |prio| == THREADS
  {
    if wantRecv then (if Tid(Earliest(m.lists.sq[cur], filter)) then cur else dest)
    else if prio[dest] >= prio[cur] then dest else cur
  }

  lemma RunsAlike(m: Mail, n: Mail, prio: seq<int>, cur: int, dest: int, wantRecv: bool, filter: int)
    requires MailOk(m) && MailOk(n) && Tid(cur) && Tid(dest) && |prio| == THREADS && m.lists == n.lists
    ensures RunsAfterSend(n, prio, cur, dest, wantRecv, filter) == RunsAfterSend(m, prio, cur, dest, wantRecv, filter)
  {
  }

  lemma HandOverTimely(k: Clock, m: Mail, r: int, s: int, xferOk: bool)
    requires MailOk(m) && Tid(r) && Tid(s) && Timely(k, m.state) && !m.state[s].WaitNotification?
    ensures Timely(k, HandOver(m, r, s, xferOk).state)
  {
    hide Timely;
    TimelyState(k, m.state, s, WaitRecv);
    TimelyState(k, m.state, s, Ready);
  }

  /** What a receiver may be given besides a queued message: a page fault to resolve or a read
      to serve for an exec request. */
  datatype Offer = NoOffer | FaultOffer(address: int, code: int, thread: int) | ExecOffer(words: seq<int>)

  /** The registers of a receiver that found no sender. */
  function Offered(f: Frame, offer: Offer, noblock: bool): Frame {
    match offer
    case FaultOffer(address, code, thread) =>
      Frame([address, code, thread] + (if |f.words| >= 3 then f.words[3..] else []), thread, ERR_NONE)
    case ExecOffer(words) => Frame(words, 0, ERR_NONE)
    case NoOffer => if noblock then f.(result := ERR_WOULDBLOCK) else f
  }

  lemma EarliestTid(v: View, r: int, filter: int)
    requires Tid(r) && |v.lists.sq| == |v.lists.inSq| == THREADS
    ensures Earliest(v.lists.sq[r], filter) != NIL ==> First(v.lists.sq[r], filter) < |v.lists.sq[r]|
  {
  }

  /** The earliest sender of q that the filter admits, or NIL. */
  function Earliest(q: seq<int>, filter: int): int {
    var i := First(q, filter);
    if i < |q| then q[i] else NIL
  }

  /** The lists once the earliest sender that r's filter admits is taken off its queue. */
  ghost function TakenFrom(l: Lists, r: int, filter: int): Lists
    requires |l.sq| == |l.inSq| == THREADS && Tid(r)
  {
    var q := l.sq[r];
    var i := First(q, filter);
    if i < |q| && Tid(q[i]) then l.(sq := l.sq[r := Without(q, i)], inSq := l.inSq[q[i] := false]) else l
  }

  /** The lists once t is woken. */
  ghost function Woken(l: Lists, t: int): Lists
    requires |l.inIb| == THREADS && Tid(t)
  {
    l.(ib := [t] + l.ib, inIb := l.inIb[t := true])
  }

  /** A message waits at the end of dest's send queue, its sender blocked. */
  ghost function Posted(m: Mail, cur: int, dest: int, next: int): (after: Mail)
    requires MailOk(m) && Tid(cur) && Tid(dest)
    ensures MailOk(after)
  {
    Mail(m.state[cur := WaitSend], m.partner[cur := dest], m.recvAfter[cur := next], m.frame,
         m.lists.(sq := m.lists.sq[dest := m.lists.sq[dest] + [cur]], inSq := m.lists.inSq[cur := true],
                  posted := m.lists.posted[cur := m.frame[cur].words]))
  }

  ghost function WithResult(m: Mail, t: int, result: int): (after: Mail)
    requires MailOk(m) && Tid(t)
    ensures MailOk(after)
  {
    m.(frame := m.frame[t := m.frame[t].(result := result)])
  }

  /** The registers of a thread given a notification word. */
  function Signalled(f: Frame, word: Bits): Frame {
    f.(words := [word as int] + (if |f.words| >= 1 then f.words[1..] else []), result := ERR_NONE)
  }

  /** Registers f' are f but for a word in the first of them, and no error. */
  ghost predicate GotWord(f: Frame, f': Frame, word: Bits) {
    && |f'.words| == (if |f.words| < 1 then 1 else |f.words|) && f'.words[0] == word as int
    && (forall i :: 1 <= i < |f.words| ==> f'.words[i] == f.words[i])
    && f'.from == f.from && f'.result == ERR_NONE
  }

  lemma SignalledWord(f: Frame, word: Bits)
    ensures GotWord(f, Signalled(f, word), word)
  {
  }

  // ---- What a rescan tells threads -----------------------------------------------------------

  /** The thread that waited on notification j, and the timers before m, as far as they are due. */
  ghost predicate Hears(was: Clock, now: int, j: nat, m: nat, t: int) {
    && j < |was.notifs| && m <= |was.timers| && was.notifs[j].waiter == t && t != 0
    && Signals(was.timers, now, j, m) != []
  }

  /** What thread t is told: what it waited for and the first signal, or nothing. */
  ghost predicate ToldOf(was: Clock, now: int, m: nat, t: int, s: State, s': State, f: Frame, f': Frame) {
    && (forall j: nat :: Hears(was, now, j, m, t) ==>
          s' == Ready && GotWord(f, f', Or(was.notifs[j].word, Signals(was.timers, now, j, m)[0])))
    && ((forall j: nat :: !Hears(was, now, j, m, t)) ==> f' == f && (s.WaitNotification? ==> s' == s))
  }

  /** The due timers before m have signalled their notifications: each waiter is ready with what it
      waited for and the first signal, the other signals are pending, and nobody else is told. */
  ghost predicate Heard(was: Clock, k: Clock, now: int, state: seq<State>, state': seq<State>,
                        frame: seq<Frame>, frame': seq<Frame>, m: nat) {
    && |state| == |state'| == |frame| == |frame'| == THREADS && |k.notifs| == |was.notifs| && m <= |was.timers|
    && (forall j: nat :: j < |was.notifs| ==>
          k.notifs[j] == Signalling(was.notifs[j], Signals(was.timers, now, j, m)))
    && (forall t :: 0 <= t < THREADS ==> ToldOf(was, now, m, t, state[t], state'[t], frame[t], frame'[t]))
  }

  lemma HeardNone(k: Clock, now: int, state: seq<State>, frame: seq<Frame>)
    requires |state| == |frame| == THREADS
    ensures Heard(k, k, now, state, state, frame, frame, 0)
  {
  }

  /** A timer that is not due tells nobody. */
  lemma HeardQuiet(was: Clock, k: Clock, now: int, state: seq<State>, state': seq<State>,
                   frame: seq<Frame>, frame': seq<Frame>, m: nat, k': Clock)
    requires Heard(was, k, now, state, state', frame, frame', m) && m < |was.timers| && !Due(was.timers[m], now)
    requires k'.notifs == k.notifs
    ensures Heard(was, k', now, state, state', frame, frame', m + 1)
  {
    forall j: nat ensures Signals(was.timers, now, j, m + 1) == Signals(was.timers, now, j, m) {}
    forall t | 0 <= t < THREADS ensures ToldOf(was, now, m + 1, t, state[t], state'[t], frame[t], frame'[t]) {
      ToldMore(was, now, m, t, state[t], state'[t], frame[t], frame'[t]);
    }
  }

  /** Thread t is told no more by timer m, which does not signal what it waits on, or not first. */
  lemma ToldMore(was: Clock, now: int, m: nat, t: int, s: State, s': State, f: Frame, f': Frame)
    requires ToldOf(was, now, m, t, s, s', f, f') && m < |was.timers|
    requires forall j: nat :: j < |was.notifs| && was.notifs[j].waiter == t && t != 0 ==>
               || Signals(was.timers, now, j, m + 1) == Signals(was.timers, now, j, m)
               || Signals(was.timers, now, j, m) != []
    ensures ToldOf(was, now, m + 1, t, s, s', f, f')
  {
    hide Or, Signals, GotWord;
    forall j: nat ensures Hears(was, now, j, m + 1, t) <==> Hears(was, now, j, m, t) {
      SignalsGrow(was.timers, now, j, m);
    }
    forall j: nat | Hears(was, now, j, m, t)
      ensures Signals(was.timers, now, j, m + 1)[0] == Signals(was.timers, now, j, m)[0]
    {
      SignalsGrow(was.timers, now, j, m);
    }
  }

  lemma SignalsGrow(timers: seq<Timer>, now: int, j: nat, m: nat)
    requires m < |timers|
    ensures Signals(timers, now, j, m) <= Signals(timers, now, j, m + 1)
  {
  }

  /** No thread waits on two notifications. */
  ghost predicate OneWait(k: Clock) {
    forall i, j :: 0 <= i < j < |k.notifs| && k.notifs[i].waiter == k.notifs[j].waiter ==> k.notifs[i].waiter == 0
  }

  lemma WiredOneWait(k: Clock, state: seq<State>)
    requires Wired(k, state)
    ensures OneWait(k)
  {
  }

  /** Only the notifications of a clock are heard. */
  lemma HeardSame(was: Clock, k: Clock, now: int, state: seq<State>, state': seq<State>,
                  frame: seq<Frame>, frame': seq<Frame>, m: nat)
    requires Heard(was, k, now, state, state', frame, frame', m)
    ensures forall timers, d ::
              Heard(was, k.(timers := timers, nextDeadline := d), now, state, state', frame, frame', m)
  {
  }

  /** The same, of a clock with the same timers and notifications. */
  lemma HeardLike(was: Clock, was': Clock, k: Clock, now: int, state: seq<State>, state': seq<State>,
                  frame: seq<Frame>, frame': seq<Frame>)
    requires Heard(was, k, now, state, state', frame, frame', |was.timers|)
    requires was'.timers == was.timers && was'.notifs == was.notifs
    ensures Heard(was', k, now, state, state', frame, frame', |was'.timers|)
  {
    hide Signals, Signalling, GotWord;
    forall t | 0 <= t < THREADS
      ensures ToldOf(was', now, |was.timers|, t, state[t], state'[t], frame[t], frame'[t])
    {
      assert ToldOf(was, now, |was.timers|, t, state[t], state'[t], frame[t], frame'[t]);
      forall j: nat ensures Hears(was', now, j, |was.timers|, t) <==> Hears(was, now, j, |was.timers|, t) {}
    }
  }

  /** The sleepers that are roused first hear nothing. */
  lemma HeardRoused(was: Clock, k: Clock, after: Clock, state: seq<State>, roused: seq<State>, state': seq<State>,
                    frame: seq<Frame>, frame': seq<Frame>)
    requires Heard(k, after, after.now, roused, state', frame, frame', |k.timers|) && Roused(k, state, roused, THREADS)
    requires k.timers == was.timers && k.notifs == was.notifs
    ensures Heard(was, after, after.now, state, state', frame, frame', |was.timers|)
  {
    hide Signals, Signalling, GotWord;
    HeardLike(k, was, after, after.now, roused, state', frame, frame');
    forall t | 0 <= t < THREADS
      ensures ToldOf(was, after.now, |was.timers|, t, state[t], state'[t], frame[t], frame'[t])
    {
      assert ToldOf(was, after.now, |was.timers|, t, roused[t], state'[t], frame[t], frame'[t]);
    }
  }

  /** Before the next deadline nobody hears anything. */
  lemma HeardAhead(k: Clock, was: Clock, after: Clock, now: int, state: seq<State>, frame: seq<Frame>)
    requires Timely(k, state) && k.now < k.nextDeadline && now == k.now && |state| == |frame| == THREADS
    requires was.timers == k.timers && was.notifs == k.notifs == after.notifs
    ensures Heard(was, after, now, state, state, frame, frame, |was.timers|)
  {
    hide Timely;
    forall j: nat ensures Signals(was.timers, now, j, |was.timers|) == [] {
      NoSignals(k, state, j, |k.timers|);
    }
  }

  /** Before a due timer signals notification i, its waiter, if it still has one, was told nothing. */
  lemma HeardAt(was: Clock, k: Clock, now: int, state: seq<State>, state': seq<State>,
                frame: seq<Frame>, frame': seq<Frame>, m: nat, i: nat)
    requires Heard(was, k, now, state, state', frame, frame', m) && OneWait(was) && i < |k.notifs|
    ensures var w := k.notifs[i].waiter;
            w != 0 ==>
              && was.notifs[i] == k.notifs[i] && Signals(was.timers, now, i, m) == []
              && (0 <= w < THREADS ==> frame'[w] == frame[w])
  {
    var w := k.notifs[i].waiter;
    hide Ors;
    if w != 0 {
      forall j: nat ensures !Hears(was, now, j, m, w) {
        assert j < |was.notifs| && was.notifs[j].waiter == w ==> j == i;
      }
    }
  }

  /** A due timer signals its notification. */
  lemma HeardRings(was: Clock, k: Clock, now: int, state: seq<State>, state': seq<State>,
                   frame: seq<Frame>, frame': seq<Frame>, m: nat, k': Clock)
    requires Heard(was, k, now, state, state', frame, frame', m) && OneWait(was)
    requires m < |was.timers| && Due(was.timers[m], now) && 0 <= was.timers[m].notif < |k.notifs|
    requires k.notifs[was.timers[m].notif].waiter == 0 || Tid(k.notifs[was.timers[m].notif].waiter)
    requires k'.notifs == Notified(k, was.timers[m].notif, was.timers[m].bits).notifs
    ensures var n := k.notifs[was.timers[m].notif];
            if n.waiter == 0 then Heard(was, k', now, state, state', frame, frame', m + 1)
            else Heard(was, k', now, state, state'[n.waiter := Ready], frame,
                       frame'[n.waiter := Signalled(frame'[n.waiter], Or(n.word, was.timers[m].bits))], m + 1)
  {
    hide Or, Ors, Signalled;
    var i: nat, b := was.timers[m].notif, was.timers[m].bits;
    var n, bs := k.notifs[i], Signals(was.timers, now, i, m);
    HeardAt(was, k, now, state, state', frame, frame', m, i);
    SignallingOne(was.notifs[i], bs, b);
    assert Signals(was.timers, now, i, m + 1) == bs + [b];
    forall j: nat | j != i ensures Signals(was.timers, now, j, m + 1) == Signals(was.timers, now, j, m) {}
    var state'', frame'' := state', frame';
    if n.waiter != 0 {
      state'' := state'[n.waiter := Ready];
      frame'' := frame'[n.waiter := Signalled(frame'[n.waiter], Or(n.word, b))];
    }
    forall t | 0 <= t < THREADS ensures ToldOf(was, now, m + 1, t, state[t], state''[t], frame[t], frame''[t]) {
      if t != n.waiter || t == 0 {
        assert was.notifs[i].waiter == t && t != 0 ==> bs != [];
        ToldMore(was, now, m, t, state[t], state'[t], frame[t], frame'[t]);
      } else {
        SignalledWord(frame'[t], Or(n.word, b));
        assert Hears(was, now, i, m + 1, t);
      }
    }
  }

  /** No due timer goes off in vain: its bits are pending in the word of its notification, or in the
      registers of the thread that waited for it, which is ready. */
  lemma TimerBitsKept(was: Clock, k: Clock, now: int, state: seq<State>, state': seq<State>,
                      frame: seq<Frame>, frame': seq<Frame>, i: nat)
    requires Heard(was, k, now, state, state', frame, frame', |was.timers|)
    requires i < |was.timers| && Due(was.timers[i], now) && 0 <= was.timers[i].notif < |was.notifs|
    requires var w := was.notifs[was.timers[i].notif].waiter; w == 0 || Tid(w)
    ensures var j, b := was.timers[i].notif, was.timers[i].bits;
            var w := was.notifs[j].waiter;
            || Has(k.notifs[j].word, b)
            || (w != 0 && state'[w] == Ready && |frame'[w].words| > 0
                && exists word: Bits :: frame'[w].words[0] == word as int && Has(word, b))
  {
    hide Has, Or, Ors, Signals;
    var j: nat, b := was.timers[i].notif, was.timers[i].bits;
    var n, bs := was.notifs[j], Signals(was.timers, now, j, |was.timers|);
    var at := DueSignals(was.timers, now, i, |was.timers|);
    SignalsKept(n, bs, at);
    if n.waiter != 0 && at == 0 {
      assert Hears(was, now, j, |was.timers|, n.waiter);
      assert ToldOf(was, now, |was.timers|, n.waiter, state[n.waiter], state'[n.waiter], frame[n.waiter],
                    frame'[n.waiter]);
      assert frame'[n.waiter].words[0] == Or(n.word, bs[0]) as int;
    }
  }

  /** What an IPC call asks for: a destination (0 for none), whether a receive follows and from
      whom, and how the outside world answers: what else is on offer, and whether the memory
      transfers that go with the messages succeed. */
  datatype Call = Call(dest: int, wantRecv: bool, filter: int, noblock: bool, offer: Offer, xferOk: bool,
                       parkedOk: bool)

  /** The receiver accepts a message from cur at once. */
  predicate AcceptsNow(state: State, partner: int, cur: int) {
    state.WaitRecv? && (partner == ANY || partner == cur)
  }

  /** A pager's send wakes the thread whose fault it resolves, and the pager may then receive. */
  ghost function Resolved(m: Mail, cur: int, a: Call): (after: Mail)
    requires MailOk(m) && Tid(cur) && Tid(a.dest)
    ensures MailOk(after)
  {
    var m' := WithResult(WakeMail(m, a.dest), cur, ERR_NONE);
    if a.wantRecv then Received(m', cur, a.filter, a.noblock, a.offer, a.parkedOk) else m'
  }

  // ---- What reaches whom ---------------------------------------------------------------------

  /** Receiver r has the words of sender s in its registers; s is told whether the transfer that went
      with them succeeded, and no other register changes. */
  ghost predicate HandedOver(was: seq<Frame>, now: seq<Frame>, r: int, s: int, words: seq<int>, xferOk: bool) {
    && |was| == |now| == THREADS && Tid(r) && Tid(s)
    && now[r].words == words && now[r].from == s && now[r].result == ERR_NONE
    && now[s].words == was[s].words && now[s].from == was[s].from
    && now[s].result == (if xferOk then ERR_NONE else ERR_NO_CAP)
    && forall t :: 0 <= t < THREADS && t != r && t != s ==> now[t] == was[t]
  }

  /** A sender whose message was taken waits for the receive it asked for, or is ready. */
  ghost predicate GoesOn(m: Mail, n: Mail, s: int) {
    && MailOk(m) && MailOk(n) && Tid(s)
    && (forall t :: 0 <= t < THREADS && t != s ==>
          n.state[t] == m.state[t] && n.partner[t] == m.partner[t] && n.recvAfter[t] == m.recvAfter[t])
    && n.recvAfter[s] == NO_RECV
    && if m.recvAfter[s] == NO_RECV then n.state[s] == Ready && n.partner[s] == m.partner[s]
       else n.state[s] == WaitRecv && n.partner[s] == m.recvAfter[s]
  }

  /** Registers after a receive that found no sender: the address, code and thread of a fault, the
      words of a request, or nothing. */
  ghost predicate TookOffer(f: Frame, f': Frame, offer: Offer, noblock: bool) {
    match offer
    case FaultOffer(address, code, thread) =>
      && |f'.words| >= 3 && f'.words[0] == address && f'.words[1] == code && f'.words[2] == thread
      && (forall i :: 3 <= i < |f.words| ==> i < |f'.words| && f'.words[i] == f.words[i])
      && f'.from == thread && f'.result == ERR_NONE
    case ExecOffer(words) => f'.words == words && f'.from == 0 && f'.result == ERR_NONE
    case NoOffer =>
      f'.words == f.words && f'.from == f.from && f'.result == if noblock then ERR_WOULDBLOCK else f.result
  }

  /** What a receive by r did: the message of the first sender it admits, given in `words`, or what is
      on offer; with neither it waits, if it may. */
  ghost predicate Took(m: Mail, n: Mail, r: int, filter: int, noblock: bool, offer: Offer, xferOk: bool,
                       words: seq<int>) {
    && MailOk(m) && MailOk(n) && Tid(r)
    && var s := Earliest(m.lists.sq[r], filter);
       if Tid(s) then
         && HandedOver(m.frame, n.frame, r, s, words, xferOk) && GoesOn(m, n, s)
         && |n.lists.sq[r]| == |m.lists.sq[r]| - 1
         && (forall t :: 0 <= t < THREADS && t != r ==> n.lists.sq[t] == m.lists.sq[t])
       else
         && TookOffer(m.frame[r], n.frame[r], offer, noblock) && n.lists == m.lists && n.recvAfter == m.recvAfter
         && (forall t :: 0 <= t < THREADS && t != r ==>
               n.frame[t] == m.frame[t] && n.state[t] == m.state[t] && n.partner[t] == m.partner[t])
         && if offer.NoOffer? && !noblock then n.state[r] == WaitRecv && n.partner[r] == filter
            else n.state[r] == m.state[r] && n.partner[r] == m.partner[r]
  }

  lemma HandOverReaches(m: Mail, r: int, s: int, xferOk: bool)
    requires MailOk(m) && Tid(r) && Tid(s) && r != s
    ensures HandedOver(m.frame, HandOver(m, r, s, xferOk).frame, r, s, m.lists.posted[s], xferOk)
    ensures GoesOn(m, HandOver(m, r, s, xferOk), s) && HandOver(m, r, s, xferOk).lists.sq == m.lists.sq
  {
  }

  lemma ReceivedTook(m: Mail, r: int, filter: int, noblock: bool, offer: Offer, xferOk: bool, words: seq<int>)
    requires MailOk(m) && Tid(r)
    requires var s := Earliest(m.lists.sq[r], filter); Tid(s) ==> s != r && words == m.lists.posted[s]
    ensures Took(m, Received(m, r, filter, noblock, offer, xferOk), r, filter, noblock, offer, xferOk, words)
  {
    hide HandOver, HandedOver, GoesOn, First;
    var s := Earliest(m.lists.sq[r], filter);
    if Tid(s) {
      var m' := m.(lists := TakenFrom(m.lists, r, filter));
      HandOverReaches(m', r, s, xferOk);
      GoesOnFrom(m, m', Received(m, r, filter, noblock, offer, xferOk), s);
    }
  }

  lemma GoesOnFrom(m: Mail, m': Mail, n: Mail, s: int)
    requires GoesOn(m', n, s) && MailOk(m)
    requires m'.state == m.state && m'.partner == m.partner && m'.recvAfter == m.recvAfter
    ensures GoesOn(m, n, s)
  {
  }

  /** What a send by cur to dest, which waited for it, did: dest has the words of cur. Then cur
      receives those of its own first sender while dest is ready, or waits while dest runs; without a
      receive, the one with the higher priority runs and the other is ready. */
  ghost predicate SentTo(m: Mail, n: Mail, prio: seq<int>, cur: int, dest: int, wantRecv: bool, filter: int,
                         xferOk: bool, parkedOk: bool, words: seq<int>) {
    && MailOk(m) && MailOk(n) && Tid(cur) && Tid(dest) && |prio| == THREADS
    && n.frame[dest].words == m.frame[cur].words && n.frame[dest].from == cur && n.frame[dest].result == ERR_NONE
    && var s := Earliest(m.lists.sq[cur], filter);
       var sent := if xferOk then ERR_NONE else ERR_NO_CAP;
       if wantRecv && Tid(s) then
         && n.frame[cur].words == words && n.frame[cur].from == s && n.frame[cur].result == ERR_NONE
         && n.frame[s].words == m.frame[s].words && n.state[dest] == Ready && n.state[cur] == m.state[cur]
         && (if m.recvAfter[s] == NO_RECV then n.state[s] == Ready
             else n.state[s] == WaitRecv && n.partner[s] == m.recvAfter[s])
         && Alike(m, n, {cur, dest, s})
       else
         && n.frame[cur].words == m.frame[cur].words && n.frame[cur].result == sent && Alike(m, n, {cur, dest})
         && if wantRecv then n.state[cur] == WaitRecv && n.partner[cur] == filter && n.state[dest] == Running
            else if prio[dest] >= prio[cur] then n.state[cur] == Ready && n.state[dest] == Running
            else n.state[cur] == m.state[cur] && n.state[dest] == Ready
  }

  /** Threads outside of `but` are as they were. */
  ghost predicate Alike(m: Mail, n: Mail, but: set<int>) {
    && MailOk(m) && MailOk(n)
    && forall t :: 0 <= t < THREADS && t !in but ==>
         && n.state[t] == m.state[t] && n.partner[t] == m.partner[t] && n.recvAfter[t] == m.recvAfter[t]
         && n.frame[t] == m.frame[t]
  }

  lemma SentDirectFrame(m: Mail, prio: seq<int>, cur: int, dest: int, wantRecv: bool, filter: int, xferOk: bool,
                        parkedOk: bool)
    requires MailOk(m) && Tid(cur) && Tid(dest) && |prio| == THREADS && cur != dest
    requires var s := Earliest(m.lists.sq[cur], filter); Tid(s) ==> s != dest
    ensures var n := SentDirect(m, prio, cur, dest, wantRecv, filter, xferOk, parkedOk);
            |n.frame| == THREADS && n.frame[dest] == Frame(m.frame[cur].words, cur, ERR_NONE)
    ensures var d := Delivered(m, cur, dest, xferOk);
            SentDirect(m, prio, cur, dest, wantRecv, filter, xferOk, parkedOk)
            == AfterSend(d, prio, cur, dest, wantRecv, filter, parkedOk)
  {
    hide First;
  }

  lemma SentDirectReaches(m: Mail, prio: seq<int>, cur: int, dest: int, wantRecv: bool, filter: int, xferOk: bool,
                          parkedOk: bool, words: seq<int>)
    requires MailOk(m) && Tid(cur) && Tid(dest) && |prio| == THREADS && cur != dest
    requires var s := Earliest(m.lists.sq[cur], filter);
             Tid(s) ==> s != cur && s != dest && words == m.lists.posted[s]
    ensures SentTo(m, SentDirect(m, prio, cur, dest, wantRecv, filter, xferOk, parkedOk), prio, cur, dest, wantRecv,
                   filter, xferOk, parkedOk, words)
  {
    hide First;
  }

  /** What a send by cur to dest, which does not wait for it, did: the words of cur are kept until dest
      takes them, in turn after those sent before, and cur waits. */
  ghost predicate QueuedTo(m: Mail, n: Mail, buffer: seq<seq<int>>, cur: int, dest: int, after: int) {
    && MailOk(m) && MailOk(n) && Tid(cur) && Tid(dest) && |buffer| == THREADS
    && buffer[cur] == m.frame[cur].words && n.lists.sq[dest] == m.lists.sq[dest] + [cur]
    && (forall t :: 0 <= t < THREADS && t != dest ==> n.lists.sq[t] == m.lists.sq[t])
    && n.state[cur] == WaitSend && n.partner[cur] == dest && n.recvAfter[cur] == after && n.frame == m.frame
    && Alike(m, n, {cur})
  }

  /** A send by cur goes to dest, and is not the answer to a fault. */
  ghost predicate Sends(m: Mail, pager: seq<int>, cur: int, dest: int) {
    && MailOk(m) && |pager| == THREADS && Tid(dest) && Live(m.state[dest]) && dest != cur
    && !(m.state[dest].WaitPagefault? && pager[dest] == cur)
  }

  /** A send by cur to dest answers a fault of dest that cur is the pager of. */
  ghost predicate Resolves(m: Mail, pager: seq<int>, cur: int, dest: int) {
    MailOk(m) && |pager| == THREADS && Tid(dest) && dest != cur && m.state[dest].WaitPagefault? && pager[dest] == cur
  }

  /** What the answer to a fault did: dest is ready to run again, with its registers as they were; then
      cur receives, if it wants to. */
  ghost predicate ResolvedTo(m: Mail, n: Mail, cur: int, a: Call, words: seq<int>) {
    && MailOk(m) && MailOk(n) && Tid(cur) && Tid(a.dest)
    && n.state[a.dest] == Ready && n.frame[a.dest] == m.frame[a.dest]
    && var s := Earliest(m.lists.sq[cur], a.filter);
       if a.wantRecv && Tid(s) then
         && n.frame[cur].words == words && n.frame[cur].from == s && n.frame[cur].result == ERR_NONE
         && n.frame[s].words == m.frame[s].words && n.state[cur] == m.state[cur]
         && (if m.recvAfter[s] == NO_RECV then n.state[s] == Ready
             else n.state[s] == WaitRecv && n.partner[s] == m.recvAfter[s])
         && Alike(m, n, {cur, a.dest, s})
       else
         && Alike(m, n, {cur, a.dest}) && n.lists.sq == m.lists.sq
         && if a.wantRecv then
              && TookOffer(m.frame[cur].(result := ERR_NONE), n.frame[cur], a.offer, a.noblock)
              && if a.offer.NoOffer? && !a.noblock then n.state[cur] == WaitRecv && n.partner[cur] == a.filter
                 else n.state[cur] == m.state[cur] && n.partner[cur] == m.partner[cur]
            else n.frame[cur] == m.frame[cur].(result := ERR_NONE) && n.state[cur] == m.state[cur]
  }

  lemma ResolvedReaches(m: Mail, cur: int, a: Call, words: seq<int>)
    requires MailOk(m) && Tid(cur) && Tid(a.dest) && a.dest != cur && m.state[a.dest].WaitPagefault?
    requires var s := Earliest(m.lists.sq[cur], a.filter);
             Tid(s) ==> s != cur && m.state[s].WaitSend? && words == m.lists.posted[s]
    ensures ResolvedTo(m, Resolved(m, cur, a), cur, a, words)
  {
    hide First;
  }

  /** The whole of send and receive, as a function of the thread table. */
  ghost function Called(m: Mail, prio: seq<int>, pager: seq<int>, cur: int, a: Call): (after: Mail)
    requires MailOk(m) && Tid(cur) && |prio| == |pager| == THREADS
    ensures MailOk(after)
  {
    if a.dest == 0 then
      Received(m, cur, a.filter, a.noblock, a.offer, a.parkedOk)
    else if !Tid(a.dest) || !Live(m.state[a.dest]) || a.dest == cur then
      WithResult(m, cur, ERR_NOT_FOUND)
    else if m.state[a.dest].WaitPagefault? && pager[a.dest] == cur then
      Resolved(m, cur, a)
    else if AcceptsNow(m.state[a.dest], m.partner[a.dest], cur) then
      SentDirect(m, prio, cur, a.dest, a.wantRecv, a.filter, a.xferOk, a.parkedOk)
    else
      Posted(m, cur, a.dest, if a.wantRecv then a.filter else NO_RECV)
  }

  /** The thread its CPU runs after a call. */
  ghost function RunsAfter(m: Mail, prio: seq<int>, pager: seq<int>, cur: int, a: Call): int
    requires MailOk(m) && Tid(cur) && |prio| == |pager| == THREADS
  {
    if Tid(a.dest) && a.dest != cur && !(m.state[a.dest].WaitPagefault? && pager[a.dest] == cur)
       && AcceptsNow(m.state[a.dest], m.partner[a.dest], cur)
    then RunsAfterSend(m, prio, cur, a.dest, a.wantRecv, a.filter)
    else cur
  }

  // ---- A thread goes away --------------------------------------------------------------------

  /** The threads of `done`, and no others, were woken with an error. */
  ghost predicate FailedThreads(was: Mail, m: Mail, done: set<int>) {
    match m
    case Mail(state, partner, recvAfter, frame, lists) =>
      && MailOk(was) && |state| == |frame| == THREADS && partner == was.partner && recvAfter == was.recvAfter
      && lists == was.lists.(ib := lists.ib, inIb := lists.inIb)
      && (forall t :: 0 <= t < THREADS ==> state[t] == if t in done then Ready else was.state[t])
      && (forall t :: 0 <= t < THREADS ==>
           frame[t] == if t in done then was.frame[t].(result := ERR_NOT_FOUND) else was.frame[t])
  }

  /** A thread has died and left its send queue, whose members are still to be woken. */
  ghost function Departed(m: Mail, t: int, final: State): (after: Mail)
    requires MailOk(m) && Tid(t)
    ensures MailOk(after)
  {
    m.(state := m.state[t := final],
      lists := m.lists.(sq := m.lists.sq[t := []], inSq := Cleared(m.lists.inSq, m.lists.sq[t])))
  }

  lemma FailedNone(m: Mail)
    requires MailOk(m)
    ensures FailedThreads(m, m, {})
  {
  }

  lemma FailedMore(was: Mail, m: Mail, done: set<int>, m': Mail, t: int)
    requires FailedThreads(was, m, done) && Tid(t) && t !in done && |m.lists.inIb| == THREADS
    requires m' == m.(state := m.state[t := Ready], frame := m.frame[t := m.frame[t].(result := ERR_NOT_FOUND)],
              lists := Woken(m.lists, t))
    ensures FailedThreads(was, m', done + {t})
  {
  }

  /** What the end of thread `gone` makes of thread t, seen in a table already without it and
      its senders: a receive from it fails, and its children are orphaned, zombies for good. */
  function Bereft(state: State, partner: int, parent: int, gone: int): State {
    if state.WaitRecv? && partner == gone then Ready
    else if state.Zombie? && parent == gone then Dead
    else state
  }

  /** The threads before n have been told that `gone` is gone. */
  ghost predicate Told(was: Mail, parents: seq<int>, m: Mail, parents': seq<int>, gone: int, n: nat) {
    match m
    case Mail(state, partner, recvAfter, frame, lists) =>
      && MailOk(was) && |state| == |frame| == |parents| == |parents'| == THREADS && n <= THREADS
      && partner == was.partner && recvAfter == was.recvAfter && lists == was.lists.(ib := lists.ib, inIb := lists.inIb)
      && (forall t :: 0 <= t < THREADS ==>
            state[t] == if 0 < t < n then Bereft(was.state[t], partner[t], parents[t], gone) else was.state[t])
      && (forall t :: 0 <= t < THREADS ==>
            frame[t] == if 0 < t < n && was.state[t].WaitRecv? && partner[t] == gone
                        then was.frame[t].(result := ERR_NOT_FOUND) else was.frame[t])
      && (forall t :: 0 <= t < THREADS ==> parents'[t] == if 0 < t < n && parents[t] == gone then 0 else parents[t])
  }

  lemma ToldNone(m: Mail, parents: seq<int>, gone: int)
    requires MailOk(m) && |parents| == THREADS
    ensures Told(m, parents, m, parents, gone, 1)
  {
  }

  lemma ToldNext(was: Mail, parents: seq<int>, m: Mail, parents': seq<int>, gone: int, n: nat)
    requires Told(was, parents, m, parents', gone, n) && 0 < n < THREADS && |m.lists.inIb| == THREADS
    ensures m.state[n] == was.state[n] && parents'[n] == parents[n] && m.partner[n] == was.partner[n]
    ensures var waits := m.state[n].WaitRecv? && m.partner[n] == gone;
            var m' := if waits then m.(state := m.state[n := Ready],
              frame := m.frame[n := m.frame[n].(result := ERR_NOT_FOUND)], lists := Woken(m.lists, n))
                      else if m.state[n].Zombie? && parents'[n] == gone then m.(state := m.state[n := Dead]) else m;
            Told(was, parents, m', if parents'[n] == gone then parents'[n := 0] else parents', gone, n + 1)
  {
  }

  /** What the end of thread t makes of the table: its senders and the receivers that name it
      are woken with an error, its children are orphaned, and nobody waits for it any more. */
  ghost predicate Gone(m: Mail, parents: seq<int>, m': Mail, parents': seq<int>, t: int, final: State) {
    match m
    case Mail(state, partner, recvAfter, frame, lists) =>
      && MailOk(m) && |m'.state| == |m'.frame| == |m'.lists.inSq| == |parents| == |parents'| == THREADS && Tid(t)
      && m'.partner == partner && m'.recvAfter == recvAfter && m'.lists.rq == lists.rq
      && m'.lists.sq == lists.sq[t := []]
      && (forall s :: Tid(s) && s != t ==>
            var fails := s in lists.sq[t] || (state[s].WaitRecv? && partner[s] == t);
            && m'.state[s] == (if fails then Ready else if state[s].Zombie? && parents[s] == t then Dead else state[s])
            && m'.frame[s] == (if fails then frame[s].(result := ERR_NOT_FOUND) else frame[s]))
      && (forall s :: Tid(s) ==> parents'[s] == if parents[s] == t then 0 else parents[s])
      && m'.state[t] == (if final.Zombie? && parents[t] == t then Dead else final) && m'.frame[t] == frame[t]
      && (forall s :: Tid(s) && s != t && m'.state[s].WaitRecv? ==> partner[s] != t)
      && (forall s :: Tid(s) && m'.lists.inSq[s] ==> s !in lists.sq[t])
  }

  lemma GoneBy(m: Mail, parents: seq<int>, left: Mail, m': Mail, parents': seq<int>, t: int, final: State)
    requires MailOk(m) && Tid(t) && !Live(final) && t !in m.lists.sq[t]
    requires forall s :: s in m.lists.sq[t] ==> Tid(s) && m.state[s].WaitSend?
    requires FailedThreads(Departed(m, t, final), left, SetOf(m.lists.sq[t]))
    requires Told(left, parents, m', parents', t, THREADS)
    ensures Gone(m, parents, m', parents', t, final)
  {
  }

  /** The registers of a parent told of its child's exit. */
  function Reaped(f: Frame, child: int, status: int): Frame {
    f.(words := [child, status] + (if |f.words| >= 2 then f.words[2..] else []), result := ERR_NONE)
  }

  /** A waiting parent is given its child's status and woken. */
  ghost function Reaping(m: Mail, p: int, child: int, status: int): (after: Mail)
    requires MailOk(m) && Tid(p)
    ensures MailOk(after)
  {
    WakeMail(m.(frame := m.frame[p := Reaped(m.frame[p], child, status)]), p)
  }

  lemma ReapingIs(m: Mail, p: int, child: int, status: int)
    requires MailOk(m) && Tid(p)
    ensures |m.frame| == THREADS && MailOk(m.(frame := m.frame[p := Reaped(m.frame[p], child, status)]))
    ensures Reaping(m, p, child, status) == WakeMail(m.(frame := m.frame[p := Reaped(m.frame[p], child, status)]), p)
  {
  }

  /** What the exit of thread t makes of the table. */
  ghost predicate Exited(m: Mail, parents: seq<int>, waitFilter: seq<int>, m': Mail, parents': seq<int>, t: int,
                         status: int)
    requires MailOk(m) && Tid(t) && |parents| == |waitFilter| == THREADS
  {
    var p := parents[t];
    if Tid(p) && Live(m.state[p]) && m.state[p].WaitChild? && (waitFilter[p] == 0 || waitFilter[p] == t)
    then Gone(Reaping(m, p, t, status), parents, m', parents', t, Dead)
    else Gone(m, parents, m', parents', t, if Tid(p) && Live(m.state[p]) then Zombie else Dead)
  }

  /** What an IPC call did, to whom: a receive takes a message; a send to nobody fails; one to a
      waiting thread hands its words over, and one to another keeps them for it. */
  ghost predicate Reaches(m: Mail, n: Mail, prio: seq<int>, pager: seq<int>, cur: int, a: Call,
                          buffer: seq<seq<int>>, buffer': seq<seq<int>>) {
    && MailOk(m) && MailOk(n) && Tid(cur) && |buffer| == |buffer'| == THREADS
    && var s := Earliest(m.lists.sq[cur], a.filter);
       var words := if Tid(s) then buffer[s] else [];
       && (a.dest == 0 ==> Took(m, n, cur, a.filter, a.noblock, a.offer, a.parkedOk, words))
       && (a.dest != 0 && (!Tid(a.dest) || !Live(m.state[a.dest]) || a.dest == cur) ==>
             Alike(m, n, {cur}) && n.state == m.state && n.lists == m.lists && n.frame[cur].result == ERR_NOT_FOUND)
       && (Resolves(m, pager, cur, a.dest) ==> ResolvedTo(m, n, cur, a, words))
       && (Sends(m, pager, cur, a.dest) ==>
             if m.state[a.dest].WaitRecv? && (m.partner[a.dest] == ANY || m.partner[a.dest] == cur)
             then SentTo(m, n, prio, cur, a.dest, a.wantRecv, a.filter, a.xferOk, a.parkedOk, words)
             else QueuedTo(m, n, buffer', cur, a.dest, if a.wantRecv then a.filter else NO_RECV))
  }

  lemma CalledTo(m: Mail, prio: seq<int>, pager: seq<int>, cur: int, a: Call, buffer: seq<seq<int>>,
                 buffer': seq<seq<int>>)
    requires MailOk(m) && Tid(cur) && |prio| == |pager| == |buffer| == |buffer'| == THREADS
    requires var s := Earliest(m.lists.sq[cur], a.filter);
             Tid(s) ==> s != cur && m.state[s].WaitSend? && buffer[s] == m.lists.posted[s]
    requires Sends(m, pager, cur, a.dest) && !AcceptsNow(m.state[a.dest], m.partner[a.dest], cur) ==>
               buffer'[cur] == m.frame[cur].words
    ensures Reaches(m, Called(m, prio, pager, cur, a), prio, pager, cur, a, buffer, buffer')
  {
    hide First, Received, SentDirect, Took, SentTo, Resolved, ResolvedTo;
    var s := Earliest(m.lists.sq[cur], a.filter);
    var words := if Tid(s) then buffer[s] else [];
    ReceivedTook(m, cur, a.filter, a.noblock, a.offer, a.parkedOk, words);
    if Sends(m, pager, cur, a.dest) && AcceptsNow(m.state[a.dest], m.partner[a.dest], cur) {
      SentDirectReaches(m, prio, cur, a.dest, a.wantRecv, a.filter, a.xferOk, a.parkedOk, words);
    }
    if Resolves(m, pager, cur, a.dest) {
      ResolvedReaches(m, cur, a, words);
    }
  }

  /** What a parent learns: one that waits for this child is ready, with child and status in its
      registers, and the child is gone; for one that lives and does not wait it stays a zombie. */
  ghost predicate Bequeaths(m: Mail, n: Mail, parents: seq<int>, waitFilter: seq<int>, t: int, status: int) {
    && MailOk(m) && |n.state| == |n.frame| == |parents| == |waitFilter| == THREADS && Tid(t)
    && var p := parents[t];
       if Tid(p) && m.state[p].WaitChild? && (waitFilter[p] == 0 || waitFilter[p] == t) then
         && n.state[p] == Ready && n.state[t] == Dead
         && |n.frame[p].words| >= 2 && n.frame[p].words[0] == t && n.frame[p].words[1] == status
         && n.frame[p].result == ERR_NONE && n.frame[p].from == m.frame[p].from
         && forall i :: 2 <= i < |m.frame[p].words| ==>
              i < |n.frame[p].words| && n.frame[p].words[i] == m.frame[p].words[i]
       else if Tid(p) && p != t && Live(m.state[p]) then n.state[t] == Zombie
       else n.state[t] == Dead
  }

  lemma ExitedBequeaths(m: Mail, n: Mail, parents: seq<int>, parents': seq<int>, waitFilter: seq<int>, t: int,
                        status: int)
    requires MailOk(m) && Tid(t) && |parents| == |waitFilter| == THREADS && m.state[t].Running?
    requires Exited(m, parents, waitFilter, n, parents', t, status)
    requires forall s :: s in m.lists.sq[t] ==> Tid(s) && m.state[s].WaitSend?
    ensures Bequeaths(m, n, parents, waitFilter, t, status)
  {
  }
}
