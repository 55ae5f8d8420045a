/** Sleepers, timers and notifications. */
module Timekeeping {
  import opened Common
  import opened Periods
  import opened Threads

  const NEVER: int := LIMIT64 - 1

  /** A 64-bit word of event bits. */
  type Bits = bv64

  function Or(a: Bits, b: Bits): Bits { a | b }

  datatype Timer = Timer(armed: bool, deadline: int, notif: int, bits: Bits, period: int)

  datatype Notification = Notification(word: Bits, waiter: int)

  datatype Clock = Clock(wakeAt: seq<int>, now: int, nextDeadline: int, timers: seq<Timer>, notifs: seq<Notification>)

  /** Values are 64-bit, armed timers signal existing notifications, and a notification's waiter
      is blocked on it and on no other. */
  ghost predicate Wired(k: Clock, state: seq<State>) {
    match k
    case Clock(wakeAt, now, nextDeadline, timers, notifs) =>
      && |state| == |wakeAt| == THREADS && 0 <= now < LIMIT64 && nextDeadline <= NEVER
      && (forall t :: 0 <= t < THREADS ==> 0 <= wakeAt[t] < LIMIT64)
      && (forall i :: 0 <= i < |timers| && timers[i].armed ==>
            0 <= timers[i].notif < |notifs| && 0 <= timers[i].deadline < LIMIT64 && 0 <= timers[i].period < LIMIT64)
      && (forall i :: 0 <= i < |notifs| && notifs[i].waiter != 0 ==>
            Tid(notifs[i].waiter) && state[notifs[i].waiter].WaitNotification?)
      && (forall i, j :: 0 <= i < j < |notifs| && notifs[i].waiter == notifs[j].waiter ==> notifs[i].waiter == 0)
  }

  /** No sleeper and no armed timer is due before the next deadline. */
  ghost predicate Timely(k: Clock, state: seq<State>) {
    match k
    case Clock(wakeAt, now, nextDeadline, timers, notifs) =>
      && Wired(k, state)
      && (forall t :: 0 < t < THREADS && state[t].Sleeping? ==> nextDeadline <= wakeAt[t])
      && (forall i :: 0 <= i < |timers| && timers[i].armed ==> nextDeadline <= timers[i].deadline)
  }

  /** Nothing that sleeps or is armed should already have gone off. */
  ghost predicate NoneOverdue(k: Clock, state: seq<State>) {
    match k
    case Clock(wakeAt, now, nextDeadline, timers, notifs) =>
      && |state| == |wakeAt| == THREADS
      && (forall t :: 0 < t < THREADS && state[t].Sleeping? ==> now < wakeAt[t])
      && (forall i :: 0 <= i < |timers| && timers[i].armed ==> now < timers[i].deadline)
  }

  /** A rescan has seen to the first n threads and the first m timers. */
  ghost predicate Scanned(k: Clock, state: seq<State>, n: nat, m: nat) {
    match k
    case Clock(wakeAt, now, nextDeadline, timers, notifs) =>
      && Wired(k, state) && n <= THREADS && m <= |timers|
      && (forall t :: 0 < t < n && state[t].Sleeping? ==> now < wakeAt[t] && nextDeadline <= wakeAt[t])
      && (forall i :: 0 <= i < m && timers[i].armed ==> now < timers[i].deadline && nextDeadline <= timers[i].deadline)
  }

  lemma TimelyState(k: Clock, state: seq<State>, t: int, s: State)
    requires Timely(k, state) && 0 <= t < THREADS && !state[t].WaitNotification? && !s.Sleeping?
    ensures Timely(k, state[t := s])
  {
  }

  lemma ScannedSizes(k: Clock, state: seq<State>, n: nat, m: nat)
    requires Scanned(k, state, n, m)
    ensures Wired(k, state) && |state| == |k.wakeAt| == THREADS && 0 <= k.now < LIMIT64 && m <= |k.timers|
  {
  }

  lemma ScannedAt(k: Clock, state: seq<State>, n: nat, m: nat, i: nat)
    requires Scanned(k, state, n, m) && i < |k.timers|
    ensures Wired(k, state) && |state| == THREADS && 0 <= k.now < LIMIT64
    ensures k.timers[i].armed ==>
              && 0 <= k.timers[i].notif < |k.notifs| && 0 <= k.timers[i].deadline < LIMIT64
              && 0 <= k.timers[i].period < LIMIT64
  {
  }

  lemma WiredSizes(k: Clock, state: seq<State>)
    requires Wired(k, state)
    ensures |state| == |k.wakeAt| == THREADS && 0 <= k.now < LIMIT64
  {
  }

  lemma TimelyIsWired(k: Clock, state: seq<State>)
    requires Timely(k, state)
    ensures Wired(k, state)
  {
  }

  /** The conditions do not depend on the time. */
  lemma TimelyNow(k: Clock, state: seq<State>, now: int)
    requires Timely(k, state) && 0 <= now < LIMIT64
    ensures Timely(k.(now := now), state)
  {
  }

  /** With time still short of the next deadline, nothing is overdue. */
  lemma TimelyAhead(k: Clock, state: seq<State>)
    requires Timely(k, state) && k.now < k.nextDeadline
    ensures NoneOverdue(k, state)
  {
  }

  lemma ScanStart(k: Clock, state: seq<State>)
    requires Wired(k, state)
    ensures Scanned(k.(nextDeadline := NEVER), state, 1, 0)
  {
  }

  lemma ScanEnd(k: Clock, state: seq<State>)
    requires Scanned(k, state, THREADS, |k.timers|)
    ensures Timely(k, state) && NoneOverdue(k, state)
  {
  }

  function Sooner(a: int, b: int): (least: int)
    ensures least <= a && least <= b && (least == a || least == b)
  {
    if b < a then b else a
  }

  /** Thread t is asleep past now, awake, or just woken. */
  lemma ScanThread(k: Clock, state: seq<State>, t: nat, m: nat)
    requires Scanned(k, state, t, m) && t < THREADS
    ensures !state[t].Sleeping? ==> Scanned(k, state, t + 1, m)
    ensures state[t].Sleeping? && k.wakeAt[t] <= k.now ==> Scanned(k, state[t := Ready], t + 1, m)
    ensures state[t].Sleeping? && k.wakeAt[t] > k.now ==>
              Scanned(k.(nextDeadline := Sooner(k.nextDeadline, k.wakeAt[t])), state, t + 1, m)
  {
  }

  /** What a rescan at `now` makes of the threads' states before thread n. */
  ghost predicate Roused(k: Clock, was: seq<State>, state: seq<State>, n: nat) {
    match k
    case Clock(wakeAt, now, _, _, _) =>
      && |was| == |state| == |wakeAt| == THREADS && n <= THREADS
      && forall t :: 0 <= t < THREADS ==>
           state[t] == if 0 < t < n && was[t].Sleeping? && wakeAt[t] <= now then Ready else was[t]
  }

  lemma RousedAt(k: Clock, was: seq<State>, state: seq<State>, n: nat)
    requires Roused(k, was, state, n) && n < THREADS
    ensures |was| == |state| == THREADS && state[n] == was[n]
  {
  }

  /** Nothing is due before the next deadline. */
  lemma {:induction false} NoSignals(k: Clock, state: seq<State>, j: nat, m: nat)
    requires Timely(k, state) && k.now < k.nextDeadline && m <= |k.timers|
    ensures Signals(k.timers, k.now, j, m) == []
  {
    if m > 0 {
      NoSignals(k, state, j, m - 1);
    }
  }

  lemma RousedNone(k: Clock, state: seq<State>)
    requires |state| == |k.wakeAt| == THREADS
    ensures Roused(k, state, state, 1)
  {
  }

  lemma RousedNext(k: Clock, was: seq<State>, state: seq<State>, n: nat)
    requires Roused(k, was, state, n) && 0 < n < THREADS
    ensures was[n] == state[n]
    ensures Roused(k, was, if state[n].Sleeping? && k.wakeAt[n] <= k.now then state[n := Ready] else state, n + 1)
  {
  }

  lemma RousedDeadline(k: Clock, was: seq<State>, state: seq<State>, n: nat, d: int)
    requires Roused(k, was, state, n)
    ensures Roused(k.(nextDeadline := d), was, state, n)
  {
  }

  /** Timer i is set to go off after now, or is off. */
  lemma ScanTimer(k: Clock, state: seq<State>, i: nat, r: Timer)
    requires Scanned(k, state, THREADS, i) && i < |k.timers|
    requires r.armed ==> k.now < r.deadline < LIMIT64 && 0 <= r.notif < |k.notifs| && 0 <= r.period < LIMIT64
    ensures Scanned(k.(timers := k.timers[i := r],
                       nextDeadline := if r.armed then Sooner(k.nextDeadline, r.deadline) else k.nextDeadline),
                    state, THREADS, i + 1)
  {
  }

  lemma TimelySleep(k: Clock, state: seq<State>, t: int, at: int)
    requires Timely(k, state) && Tid(t) && !state[t].WaitNotification? && 0 <= at < LIMIT64
    ensures |k.wakeAt| == THREADS
    ensures Timely(k.(wakeAt := k.wakeAt[t := at], nextDeadline := Sooner(k.nextDeadline, at)), state[t := Sleeping])
  {
  }

  lemma TimelyCleared(k: Clock, state: seq<State>, t: int)
    requires Timely(k, state) && Tid(t) && !state[t].Sleeping?
    ensures |k.wakeAt| == THREADS && Timely(k.(wakeAt := k.wakeAt[t := 0]), state)
  {
  }

  lemma TimelyArm(k: Clock, state: seq<State>, i: nat, r: Timer)
    requires Timely(k, state) && i < |k.timers| && r.armed
    requires 0 <= r.notif < |k.notifs| && 0 <= r.deadline < LIMIT64 && 0 <= r.period < LIMIT64
    ensures Timely(k.(timers := k.timers[i := r], nextDeadline := Sooner(k.nextDeadline, r.deadline)), state)
  {
  }

  lemma TimelyDisarm(k: Clock, state: seq<State>, i: nat)
    requires Timely(k, state) && i < |k.timers|
    ensures Timely(k.(timers := k.timers[i := k.timers[i].(armed := false)]), state)
  {
  }

  lemma TimelyWait(k: Clock, state: seq<State>, i: nat, t: int)
    requires Timely(k, state) && i < |k.notifs| && Tid(t) && state[t].Running?
    ensures Timely(k.(notifs := k.notifs[i := k.notifs[i].(waiter := t)]), state[t := WaitNotification])
  {
  }

  lemma TimelyDrain(k: Clock, state: seq<State>, i: nat)
    requires Timely(k, state) && i < |k.notifs|
    ensures Timely(k.(notifs := k.notifs[i := k.notifs[i].(word := 0)]), state)
  {
  }

  /** Delivering a notification wakes its waiter. */
  function Notified(k: Clock, i: nat, bits: Bits): Clock
    requires i < |k.notifs|
  {
    var n := k.notifs[i];
    k.(notifs := k.notifs[i := if n.waiter != 0 then Notification(0, 0) else n.(word := Or(n.word, bits))])
  }

  lemma NotifiedTimers(k: Clock, i: nat, bits: Bits)
    requires i < |k.notifs|
    ensures Notified(k, i, bits) == k.(notifs := Notified(k, i, bits).notifs)
    ensures |Notified(k, i, bits).notifs| == |k.notifs|
  {
  }

  lemma WiredNotify(k: Clock, state: seq<State>, i: nat, bits: Bits)
    requires Wired(k, state) && i < |k.notifs|
    ensures var w := k.notifs[i].waiter;
            && (w != 0 ==> Tid(w) && state[w].WaitNotification?)
            && Wired(Notified(k, i, bits), if w != 0 then state[w := Ready] else state)
  {
  }

  lemma ScannedNotify(k: Clock, state: seq<State>, n: nat, m: nat, i: nat, bits: Bits)
    requires Scanned(k, state, n, m) && i < |k.notifs|
    ensures var w := k.notifs[i].waiter;
            && (w != 0 ==> Tid(w) && state[w].WaitNotification?)
            && Scanned(Notified(k, i, bits), if w != 0 then state[w := Ready] else state, n, m)
  {
    hide Wired;
    WiredSizes(k, state);
    WiredNotify(k, state, i, bits);
  }

  lemma TimelyNotify(k: Clock, state: seq<State>, i: nat, bits: Bits)
    requires Timely(k, state) && i < |k.notifs|
    ensures var w := k.notifs[i].waiter;
            && (w != 0 ==> Tid(w) && state[w].WaitNotification?)
            && Timely(Notified(k, i, bits), if w != 0 then state[w := Ready] else state)
  {
    hide Wired;
    WiredSizes(k, state);
    WiredNotify(k, state, i, bits);
  }

  // ---- Periodic timers -----------------------------------------------------------------------

  /** What a rescan at `now` makes of a timer: one that is due goes off, and is switched off or
      set to where its deadline lands. */
  ghost predicate Rescanned(t: Timer, now: int, r: Timer) {
    if !t.armed || now < t.deadline then r == t
    else if t.period == 0 then r == t.(armed := false)
    else r == t.(deadline := r.deadline) && Lands(t.deadline, t.period, now, r.deadline)
  }

  /** A periodic timer that went off holds the least deadline after now in step with its period
      exactly when that fits 64 bits. */
  lemma RescannedInStep(t: Timer, now: int, r: Timer)
    requires Rescanned(t, now, r) && t.armed && 0 <= t.deadline <= now < LIMIT64 && 0 < t.period < LIMIT64
    ensures now < r.deadline < LIMIT64
    ensures r.deadline == LeastAfter(t.deadline, t.period, now) <==>
              t.deadline + PeriodCount(t.deadline, t.period, now) * t.period < LIMIT64
  {
    LandsInStep(t.deadline, t.period, now, r.deadline);
  }

  /** An armed timer with the longest period, due at tick 11: it next goes off at the last tick of
      64 bits, which is not in step with its period. */
  lemma LongestTimer(t: Timer, r: Timer)
    requires t.armed && t.deadline == 11 && t.period == LONGEST && Rescanned(t, 11, r)
    ensures r == t.(deadline := LONGEST) && r.deadline != LeastAfter(t.deadline, t.period, 11)
  {
    hide Lands;
    LongestPeriod();
    LandsOnce(11, LONGEST, 11, r.deadline, LONGEST);
  }

  /** No periodic timer due at `now` goes round for ever. */
  predicate RescanEnds(k: Clock, now: int) {
    forall i :: 0 <= i < |k.timers| && k.timers[i].armed && k.timers[i].period > 0 && k.timers[i].deadline <= now ==>
      Ends(k.timers[i].deadline, k.timers[i].period, now)
  }

  /** A rescan ends unless some timer that is due gets no deadline after now, ever. */
  lemma RescanEndsExactly(k: Clock, state: seq<State>, now: int)
    requires Wired(k, state)
    ensures !RescanEnds(k, now) <==>
              exists i :: 0 <= i < |k.timers| && k.timers[i].armed && k.timers[i].deadline <= now
                && Stuck(k.timers[i], now)
  {
    forall i | 0 <= i < |k.timers| && k.timers[i].armed && k.timers[i].period > 0
      ensures Stuck(k.timers[i], now) <==> !Ends(k.timers[i].deadline, k.timers[i].period, now)
    {
      EndsExactly(k.timers[i].deadline, k.timers[i].period, now);
    }
  }

  ghost predicate Stuck(t: Timer, now: int) {
    t.period > 0 && forall k: nat :: At(t.deadline, t.period, k) <= now
  }

  /** Timer i is due and its catch-up loop never passes now. */
  ghost predicate Endless(k: Clock, i: nat, now: int) {
    i < |k.timers| && k.timers[i].armed && k.timers[i].deadline <= now && Stuck(k.timers[i], now)
  }

  /** A tick to `now` gets to the rescan, and the rescan does not end, exactly for an endless timer:
      the next deadline is no later than any timer that is due. */
  lemma HangsExactly(k: Clock, state: seq<State>, now: int)
    requires Timely(k, state)
    ensures !RescanEnds(k, now) <==> now >= k.nextDeadline && exists i :: Endless(k, i, now)
  {
    RescanEndsExactly(k, state, now);
    if !RescanEnds(k, now) {
      var i :| 0 <= i < |k.timers| && k.timers[i].armed && k.timers[i].deadline <= now && Stuck(k.timers[i], now);
      assert Endless(k, i, now);
    }
  }

  /** The timers before m are as a rescan leaves them, and threads at most stopped waiting for
      a notification. */
  ghost predicate Rung(was: Clock, k: Clock, state: seq<State>, state': seq<State>, m: nat) {
    match k
    case Clock(wakeAt, now, _, timers, notifs) =>
      && wakeAt == was.wakeAt && now == was.now && |timers| == |was.timers| && |notifs| == |was.notifs| && m <= |timers|
      && (forall i :: 0 <= i < |timers| && was.timers[i].armed ==> 0 <= was.timers[i].period)
      && (forall i :: 0 <= i < |timers| ==>
           if i < m then Rescanned(was.timers[i], now, timers[i]) else timers[i] == was.timers[i])
      && |state| == |state'| == THREADS
      && (forall t :: 0 <= t < THREADS ==> state'[t] == state[t] || (state[t].WaitNotification? && state'[t].Ready?))
  }

  lemma RungAt(was: Clock, k: Clock, state: seq<State>, state': seq<State>, m: nat)
    requires Rung(was, k, state, state', m) && m < |k.timers|
    ensures m < |was.timers| && k.timers[m] == was.timers[m] && (was.timers[m].armed ==> 0 <= was.timers[m].period)
  {
  }

  lemma RungNone(k: Clock, state: seq<State>)
    requires Wired(k, state)
    ensures Rung(k, k, state, state, 0)
  {
  }

  lemma RungNotified(was: Clock, k: Clock, state: seq<State>, state': seq<State>, m: nat, i: nat, bits: Bits, w: int)
    requires Rung(was, k, state, state', m) && i < |k.notifs| && (w != 0 ==> Tid(w) && state'[w].WaitNotification?)
    ensures Rung(was, Notified(k, i, bits), state, if w != 0 then state'[w := Ready] else state', m)
  {
  }

  lemma RungNext(was: Clock, k: Clock, state: seq<State>, state': seq<State>, m: nat, r: Timer, d: int)
    requires Rung(was, k, state, state', m) && m < |k.timers| && Rescanned(was.timers[m], k.now, r)
    ensures Rung(was, k.(timers := k.timers[m := r], nextDeadline := d), state, state', m + 1)
  {
  }

  /** What a tick of the first CPU to time `now` does: nothing before the next deadline; from
      then on every due sleeper is roused and every due timer is seen to. */
  ghost predicate Ticked(was: Clock, k: Clock, state: seq<State>, state': seq<State>, now: int) {
    match k
    case Clock(_, now', _, timers, _) =>
      && now' == now && |state| == THREADS
      && if now < was.nextDeadline then k == was.(now := now) && state' == state
         else exists roused: seq<State>, d: int ::
                && Roused(was.(now := now, nextDeadline := d), state, roused, THREADS)
                && Rung(was.(now := now, nextDeadline := d), k, roused, state', |timers|)
  }

  lemma TickedBy(was: Clock, k: Clock, state: seq<State>, roused: seq<State>, state': seq<State>, now: int, d: int)
    requires now >= was.nextDeadline && |state| == THREADS
    requires Roused(was.(now := now, nextDeadline := d), state, roused, THREADS)
    requires Rung(was.(now := now, nextDeadline := d), k, roused, state', |k.timers|)
    ensures Ticked(was, k, state, state', now)
  {
  }

  lemma TickedNow(was: Clock, k: Clock, state: seq<State>, state': seq<State>, now: int)
    requires Ticked(was.(now := now), k, state, state', now)
    ensures Ticked(was, k, state, state', now)
  {
    if now >= was.nextDeadline {
      var roused: seq<State>, d: int :|
        && Roused(was.(now := now).(now := now, nextDeadline := d), state, roused, THREADS)
        && Rung(was.(now := now).(now := now, nextDeadline := d), k, roused, state', |k.timers|);
      assert was.(now := now).(now := now, nextDeadline := d) == was.(now := now, nextDeadline := d);
      TickedBy(was, k, state, roused, state', now, d);
    }
  }

  lemma TickedNone(was: Clock, k: Clock, state: seq<State>, now: int)
    requires k == was.(now := now) && now < was.nextDeadline && |state| == THREADS
    ensures Ticked(was, k, state, state, now)
  {
  }

  lemma RescanEndsSame(k: Clock, now: int, d: int)
    requires RescanEnds(k, now)
    ensures RescanEnds(k.(nextDeadline := d), now)
  {
  }

  lemma RescanEndsNow(k: Clock, now: int)
    requires RescanEnds(k, now)
    ensures RescanEnds(k.(now := now), now)
  {
  }

  lemma RungNow(was: Clock, k: Clock, state: seq<State>, state': seq<State>, m: nat)
    requires Rung(was, k, state, state', m)
    ensures k.now == was.now && |k.timers| == |was.timers|
  {
  }

  // ---- What timers signal --------------------------------------------------------------------

  predicate Due(t: Timer, now: int) { t.armed && t.deadline <= now }

  /** The bits that the due timers before m signal on notification j, in their order. */
  function Signals(timers: seq<Timer>, now: int, j: nat, m: nat): seq<Bits>
    requires m <= |timers|
  {
    if m == 0 then []
    else Signals(timers, now, j, m - 1)
         + if Due(timers[m - 1], now) && timers[m - 1].notif == j then [timers[m - 1].bits] else []
  }

  function Ors(word: Bits, bs: seq<Bits>): Bits {
    if bs == [] then word else Or(Ors(word, bs[..|bs| - 1]), bs[|bs| - 1])
  }

  /** What notification n is after these signals: its waiter took the first of them. */
  function Signalling(n: Notification, bs: seq<Bits>): Notification {
    if bs == [] then n
    else if n.waiter == 0 then Notification(Ors(n.word, bs), 0)
    else Notification(Ors(0, bs[1..]), 0)
  }

  /** One signal more is one delivery more. */
  lemma SignallingOne(n: Notification, bs: seq<Bits>, b: Bits)
    ensures var p := Signalling(n, bs);
            Signalling(n, bs + [b]) == if p.waiter != 0 then Notification(0, 0) else p.(word := Or(p.word, b))
    ensures Signalling(n, bs).waiter == if bs == [] then n.waiter else 0
  {
    hide Or;
    var all := bs + [b];
    assert all != [] && all[..|all| - 1] == bs && all[|all| - 1] == b;
    if bs != [] {
      var rest := all[1..];
      assert rest[..|rest| - 1] == bs[1..] && rest[|rest| - 1] == b && rest != [];
    } else {
      assert all[1..] == [] && Ors(0, all[1..]) == 0 && Ors(n.word, all[..0]) == n.word;
      assert Ors(n.word, all) == Or(n.word, b);
    }
  }

  /** Word w has all bits of b. */
  predicate Has(w: Bits, b: Bits) { Or(w, b) == w }

  lemma OrHas(a: Bits, b: Bits)
    ensures Has(Or(a, b), b) && Has(Or(a, b), a)
  {
  }

  lemma OrKeeps(a: Bits, b: Bits, c: Bits)
    requires Has(a, c)
    ensures Has(Or(a, b), c)
  {
    assert (a | b) | c == (a | c) | b;
  }

  lemma {:induction false} OrsHas(word: Bits, bs: seq<Bits>, i: nat)
    requires i < |bs|
    ensures Has(Ors(word, bs), bs[i])
  {
    hide Has, Or;
    var k := |bs| - 1;
    if i == k {
      OrHas(Ors(word, bs[..k]), bs[k]);
    } else {
      OrsHas(word, bs[..k], i);
      OrKeeps(Ors(word, bs[..k]), bs[k], bs[i]);
    }
  }

  /** No signal is lost: every one is in the word of the notification, but the first, which the
      waiter took if there was one. */
  lemma SignalsKept(n: Notification, bs: seq<Bits>, i: nat)
    requires i < |bs|
    ensures n.waiter == 0 || i > 0 ==> Has(Signalling(n, bs).word, bs[i])
    ensures Has(Or(n.word, bs[0]), bs[0]) && Has(Or(n.word, bs[0]), n.word)
  {
    hide Has, Or;
    OrHas(n.word, bs[0]);
    if n.waiter == 0 {
      OrsHas(n.word, bs, i);
    } else if i > 0 {
      OrsHas(0, bs[1..], i - 1);
    }
  }

  /** Every due timer is among those that signal its notification. */
  lemma {:induction false} DueSignals(timers: seq<Timer>, now: int, i: nat, m: nat) returns (k: nat)
    requires i < m <= |timers| && Due(timers[i], now) && timers[i].notif >= 0
    ensures k < |Signals(timers, now, timers[i].notif, m)|
    ensures Signals(timers, now, timers[i].notif, m)[k] == timers[i].bits
  {
    if i == m - 1 {
      k := |Signals(timers, now, timers[i].notif, m - 1)|;
    } else {
      k := DueSignals(timers, now, i, m - 1);
    }
  }
}
