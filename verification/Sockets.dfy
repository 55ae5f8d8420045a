/** Local sockets: a table of sockets that listen, connect, and then send bytes to each other. */
module Sockets {
  import opened Common
  import opened Bytes
  import opened Rings

  const SOCKETS: nat := 32
  const BACKLOG: nat := 8
  const RING: nat := 4096

  datatype State = Unbound | Listening | Connecting | Connected

  datatype Entry = Entry(slot: nat, gen: nat)

  datatype Socket = Socket(used: bool, gen: nat, state: State, owner: nat, path: seq<Byte>, hasPath: bool,
                           backlog: seq<Entry>, peer: int, peerGen: nat, peerClosed: bool, ring: Ring)

  /** The table; lives counts how often each slot was closed, and peerLives is that count of the
      recorded peer when the connection was made. */
  datatype Sys = Sys(socks: seq<Socket>, lives: seq<nat>, peerLives: seq<nat>)

  /** The recorded peer of socket a is there, as far as its slot and generation tell. */
  predicate PeerThere(v: Sys, a: nat) {
    && a < |v.socks| && 0 <= v.socks[a].peer < |v.socks| && v.socks[v.socks[a].peer].used
    && v.socks[v.socks[a].peer].gen == v.socks[a].peerGen
  }

  /** Socket a is open and connected. */
  predicate Joined(v: Sys, a: nat) { a < |v.socks| && v.socks[a].used && v.socks[a].state == Connected }

  /** What is recorded of the peer of a connected socket: it is a connection of before, or the peer
      records this socket in turn. */
  ghost predicate Link(v: Sys, a: nat)
    requires a < |v.socks| == |v.lives| == |v.peerLives|
  {
    var s := v.socks[a];
    Joined(v, a) ==>
      && 0 <= s.peer < |v.socks| && s.peer != a && s.peerGen == v.peerLives[a] % GENERATIONS
      && v.peerLives[a] <= v.lives[s.peer] && (!v.socks[s.peer].used ==> v.peerLives[a] < v.lives[s.peer])
      && (v.peerLives[a] == v.lives[s.peer] ==> Mutual(v, a))
  }

  /** The peer of socket a is connected and records a, as it is now, in turn. */
  ghost predicate Mutual(v: Sys, a: nat)
    requires a < |v.socks| == |v.lives| == |v.peerLives| && 0 <= v.socks[a].peer < |v.socks|
  {
    var b := v.socks[a].peer;
    v.socks[b].state == Connected && v.socks[b].peer == a && v.peerLives[b] == v.lives[a]
  }

  ghost predicate Sound(v: Sys) {
    && |v.socks| == SOCKETS == |v.lives| == |v.peerLives|
    && (forall i :: 0 <= i < SOCKETS ==> v.socks[i].gen == v.lives[i] % GENERATIONS)
    && (forall i :: 0 <= i < SOCKETS ==> Link(v, i))
  }

  /** The connected socket a has no peer any more: its slot was closed since. */
  ghost predicate Bereft(v: Sys, a: nat)
    requires a < |v.socks| == |v.lives| == |v.peerLives|
  {
    v.socks[a].state == Connected && 0 <= v.socks[a].peer < |v.socks| && v.peerLives[a] < v.lives[v.socks[a].peer]
  }

  /** A socket that is told its peer is closed has no peer any more, if it is not a misled one. */
  ghost predicate Honest(v: Sys, misled: set<nat>)
    requires |v.socks| == |v.lives| == |v.peerLives|
  {
    forall a :: 0 <= a < |v.socks| && a !in misled && v.socks[a].used && v.socks[a].peerClosed ==> Bereft(v, a)
  }

  /** Peers are symmetric. The open socket in the slot that a connected socket records is its peer,
      and records it in turn, exactly when that slot was not closed since; and it is taken for its
      peer exactly when the slot was closed a multiple of 65536 times since. */
  lemma PeersAreMutual(v: Sys, a: nat)
    requires Sound(v) && a < SOCKETS && Joined(v, a)
    ensures 0 <= v.socks[a].peer < SOCKETS && v.peerLives[a] <= v.lives[v.socks[a].peer]
    ensures v.socks[v.socks[a].peer].used ==> (Mutual(v, a) <==> v.lives[v.socks[a].peer] == v.peerLives[a])
    ensures PeerThere(v, a) <==>
              v.socks[v.socks[a].peer].used && (v.lives[v.socks[a].peer] - v.peerLives[a]) % GENERATIONS == 0
    ensures PeerThere(v, a) && Mutual(v, a) ==> Joined(v, v.socks[a].peer) && PeerThere(v, v.socks[a].peer)
  {
    var b := v.socks[a].peer;
    assert Link(v, a) && Link(v, b);
    SameGeneration(v.peerLives[a], v.lives[b]);
  }

  /** So while the slot was closed fewer than 65536 times since, the peer that is there is the
      one that was connected to. */
  lemma RecentPeer(v: Sys, a: nat)
    requires Sound(v) && a < SOCKETS && Joined(v, a) && PeerThere(v, a)
    requires v.lives[v.socks[a].peer] - v.peerLives[a] < GENERATIONS
    ensures Mutual(v, a) && Joined(v, v.socks[a].peer) && PeerThere(v, v.socks[a].peer)
  {
    PeersAreMutual(v, a);
  }

  // ---- Steps ---------------------------------------------------------------------------------

  /** A socket that is not connected changes into another that is not. */
  lemma OtherState(v: Sys, i: nat, s: Socket, misled: set<nat>)
    requires Sound(v) && Honest(v, misled) && i < SOCKETS && s.gen == v.socks[i].gen
    requires !Joined(v, i) && !(s.used && s.state == Connected)
    requires s.used && s.peerClosed ==> v.socks[i].used && v.socks[i].peerClosed
    ensures Sound(v.(socks := v.socks[i := s])) && Honest(v.(socks := v.socks[i := s]), misled)
  {
    var w := v.(socks := v.socks[i := s]);
    forall a | 0 <= a < SOCKETS ensures Link(w, a) {
      assert Link(v, a);
    }
  }

  /** What connections do not depend on. */
  predicate SameLink(s: Socket, t: Socket) {
    && t.used == s.used && t.gen == s.gen && t.state == s.state
    && t.peer == s.peer && t.peerGen == s.peerGen && t.peerClosed == s.peerClosed
  }

  lemma Unlinked(v: Sys, i: nat, s: Socket, misled: set<nat>)
    requires Sound(v) && Honest(v, misled) && i < SOCKETS && SameLink(v.socks[i], s)
    ensures Sound(v.(socks := v.socks[i := s])) && Honest(v.(socks := v.socks[i := s]), misled)
  {
    var w := v.(socks := v.socks[i := s]);
    forall a | 0 <= a < SOCKETS ensures Link(w, a) {
      assert Link(v, a);
    }
  }

  /** Client c and the new socket n of the server are connected. */
  function Accepted(v: Sys, c: nat, n: nat, owner: nat): Sys
    requires c < |v.socks| && n < |v.socks| && |v.lives| == |v.socks| == |v.peerLives|
  {
    var srv := v.socks[n].(used := true, state := Connected, owner := owner, hasPath := false, peerClosed := false,
                           ring := Ring(v.socks[n].ring.data, 0, 0), peer := c, peerGen := v.socks[c].gen);
    var client := v.socks[c].(peer := n, peerGen := v.socks[n].gen, state := Connected);
    v.(socks := v.socks[n := srv][c := client], peerLives := v.peerLives[n := v.lives[c]][c := v.lives[n]])
  }

  lemma AcceptedSound(v: Sys, c: nat, n: nat, owner: nat, misled: set<nat>)
    requires Sound(v) && Honest(v, misled) && c < SOCKETS && n < SOCKETS && !v.socks[n].used
    requires v.socks[c].used && v.socks[c].state == Connecting
    ensures Sound(Accepted(v, c, n, owner)) && Honest(Accepted(v, c, n, owner), misled)
  {
    var w := Accepted(v, c, n, owner);
    forall a | 0 <= a < SOCKETS ensures Link(w, a) {
      assert Link(v, a);
    }
  }

  /** Socket i is closed, and its peer learns of it. */
  function Told(v: Sys, i: nat): Sys
    requires i < |v.socks|
  {
    if v.socks[i].state == Connected && PeerThere(v, i)
    then v.(socks := v.socks[v.socks[i].peer := v.socks[v.socks[i].peer].(peerClosed := true)])
    else v
  }

  function Closed(v: Sys, i: nat): Sys
    requires i < |v.socks| == |v.lives|
  {
    var w := Told(v, i);
    w.(socks := w.socks[i := w.socks[i].(used := false, gen := (w.socks[i].gen + 1) % GENERATIONS)],
      lives := w.lives[i := w.lives[i] + 1])
  }

  lemma ClosedLink(v: Sys, i: nat, a: nat)
    requires Sound(v) && i < SOCKETS && a < SOCKETS && v.socks[i].used
    ensures Link(Closed(v, i), a)
  {
    assert Link(v, a);
  }

  lemma ClosedSound(v: Sys, i: nat)
    requires Sound(v) && i < SOCKETS && v.socks[i].used
    ensures Sound(Closed(v, i))
  {
    hide Link;
    forall a | 0 <= a < SOCKETS ensures Link(Closed(v, i), a) {
      ClosedLink(v, i, a);
    }
    NextGeneration(v.lives[i]);
  }

  /** Another socket is taken for the peer of socket i, whose slot came round to its generation. */
  ghost predicate Stray(v: Sys, i: nat) {
    && |v.socks| == |v.lives| == |v.peerLives| && Joined(v, i) && PeerThere(v, i)
    && v.lives[v.socks[i].peer] != v.peerLives[i]
  }

  /** The socket that closing socket i would mislead, if any: a stranger whose own peer is there, or
      that is not connected. */
  ghost function Fooled(v: Sys, i: nat): set<nat> {
    if Stray(v, i) && !Bereft(v, v.socks[i].peer) then {v.socks[i].peer as nat} else {}
  }

  /** Closing a socket misleads at most that one, and tells the truth exactly when there is none or
      it was misled before. */
  lemma ClosedHonest(v: Sys, i: nat, misled: set<nat>)
    requires Sound(v) && Honest(v, misled) && i < SOCKETS && v.socks[i].used
    ensures Honest(Closed(v, i), misled - {i} + Fooled(v, i))
    ensures Honest(Closed(v, i), misled - {i}) <==> Fooled(v, i) <= misled
  {
    var w := Closed(v, i);
    assert Link(v, i);
    if v.socks[i].state == Connected && PeerThere(v, i) {
      var b := v.socks[i].peer;
      PeersAreMutual(v, i);
      assert Link(v, b);
      assert w.socks[b].used && w.socks[b].peerClosed;
      assert Bereft(w, b) <==> !Stray(v, i) || Bereft(v, b);
    }
  }

  /** After 65536 closes of the slot of its peer, a connected socket is a stray: what it writes goes
      to the new socket there, and when it is closed that one is told, though its own peer is there. */
  lemma StrayAfterWrap(v: Sys, i: nat)
    requires Sound(v) && Honest(v, {}) && i < SOCKETS && Joined(v, i)
    requires 0 <= v.socks[i].peer < SOCKETS && Joined(v, v.socks[i].peer)
    requires v.lives[v.socks[i].peer] == v.peerLives[i] + GENERATIONS && !Bereft(v, v.socks[i].peer)
    ensures PeerThere(v, i) && !Mutual(v, i) && Fooled(v, i) == {v.socks[i].peer as nat} && !Honest(Closed(v, i), {})
  {
    PeersAreMutual(v, i);
    ClosedHonest(v, i, {});
    assert {} - {i} == {};
  }

  /** Such a table: socket 0 was connected to slot 1, which was closed 65536 times and is now
      connected to socket 2. */
  function WornOut(): Sys {
    var none := Socket(false, 0, Unbound, 0, [], false, [], -1, 0, false, Ring(Zeros(RING), 0, 0));
    var on := none.(used := true, state := Connected);
    Sys(seq(SOCKETS, i => if i == 0 || i == 2 then on.(peer := 1) else if i == 1 then on.(peer := 2) else none),
        seq(SOCKETS, i => if i == 1 then GENERATIONS else 0), seq(SOCKETS, i => if i == 2 then GENERATIONS else 0))
  }

  lemma WornOutStrays()
    ensures var v := WornOut();
            && RingsOk(v.socks, seq(SOCKETS, _ => Log([], []))) && Sound(v) && Honest(v, {})
            && PeerThere(v, 0) && Fooled(v, 0) == {1} && !Honest(Closed(v, 0), {})
  {
    var v := WornOut();
    forall i | 0 <= i < SOCKETS ensures Link(v, i) {}
    StrayAfterWrap(v, 0);
  }

  // ---- The table -----------------------------------------------------------------------------

  datatype Status = Fine | NotFound | Invalid | Exists | NoSpace | WouldBlock

  /** Bytes put into the ring of a socket since it was made, and bytes read of them. */
  datatype Log = Log(sent: seq<Byte>, got: seq<Byte>)

  ghost predicate RingsOk(socks: seq<Socket>, logs: seq<Log>) {
    |socks| == SOCKETS == |logs| && forall i :: 0 <= i < SOCKETS ==> RingLog(socks[i].ring, logs[i])
  }

  ghost predicate RingLog(r: Ring, l: Log) {
    RingOk(r) && |r.data| == RING && l.got + Contents(r) == l.sent
  }

  const PATH_MAX: nat := 32

  /** What a socket keeps of a path: all but the last byte of its buffer. */
  function Cut(path: seq<Byte>): seq<Byte> { if |path| < PATH_MAX then path else path[..PATH_MAX - 1] }

  predicate Names(socks: seq<Socket>, id: int) {
    SlotOf(id) < |socks| && socks[SlotOf(id)].used && socks[SlotOf(id)].gen == GenOf(id)
  }

  predicate Owned(socks: seq<Socket>, id: int, t: nat) { Names(socks, id) && socks[SlotOf(id)].owner == t }

  function Fresh(s: Socket, owner: nat): Socket {
    s.(used := true, state := Unbound, owner := owner, hasPath := false, backlog := [], peer := -1, peerClosed := false,
      ring := Ring(s.ring.data, 0, 0))
  }

  predicate Listens(s: Socket, path: seq<Byte>) { s.used && s.state == Listening && s.hasPath && s.path == path }

  ghost predicate FirstListener(socks: seq<Socket>, path: seq<Byte>, l: nat) {
    l < |socks| && Listens(socks[l], path) && forall j :: 0 <= j < l ==> !Listens(socks[j], path)
  }

  lemma OneFirst(socks: seq<Socket>, path: seq<Byte>, l: nat)
    requires l < |socks| && Listens(socks[l], path) && forall j :: 0 <= j < l ==> !Listens(socks[j], path)
    ensures FirstListener(socks, path, l) && forall k: nat :: FirstListener(socks, path, k) ==> k == l
  {
  }

  /** Socket i waits behind all others in the backlog of listener l. */
  ghost predicate JoinsBacklog(socks: seq<Socket>, socks': seq<Socket>, i: nat, l: nat) {
    && |socks'| == |socks| && i < |socks| && l < |socks| && i != l
    && socks[l].backlog < socks'[l].backlog && |socks'[l].backlog| == |socks[l].backlog| + 1
    && socks'[l].backlog[|socks[l].backlog|] == Entry(i, socks[i].gen)
    && socks'[l] == socks[l].(backlog := socks'[l].backlog)
    && socks'[i] == socks[i].(state := Connecting, peer := -1)
    && forall j :: 0 <= j < |socks| && j != i && j != l ==> socks'[j] == socks[j]
  }

  /** Entry k of a backlog is the first of a socket that still tries; there is none when k is their
      number. */
  ghost predicate FirstTrying(socks: seq<Socket>, backlog: seq<Entry>, k: nat) {
    && k <= |backlog| && (k < |backlog| ==> Tries(socks, backlog[k]))
    && forall j :: 0 <= j < k ==> !Tries(socks, backlog[j])
  }

  predicate Tries(socks: seq<Socket>, e: Entry) {
    e.slot < |socks| && socks[e.slot].used && socks[e.slot].gen == e.gen && socks[e.slot].state == Connecting
  }

  datatype Event =
    | Create(t: nat)
    | Bind(t: nat, id: int, path: seq<Byte>)
    | Listen(t: nat, id: int)
    | Connect(t: nat, id: int, path: seq<Byte>)
    | Accept(t: nat, id: int)
    | Read(id: int, max: nat)
    | Write(id: int, bytes: seq<Byte>)
    | Close(t: nat, id: int)
    | Exit(t: nat)

  /** The table, and what went through its rings. */
  datatype Table = Table(v: Sys, logs: seq<Log>)

  /** What an event does to the sockets, where it can happen. */
  ghost predicate Did(e: Event, a: Table, b: Table) {
    var s, s' := a.v.socks, b.v.socks;
    && |s| == |s'| == |a.logs| == |b.logs| == SOCKETS
    && match e
       case Create(t) =>
         (exists i :: 0 <= i < SOCKETS && !s[i].used) ==>
           exists i :: 0 <= i < SOCKETS && !s[i].used && s'[i].used && s'[i].owner == t && s'[i].state == Unbound
       case Bind(t, id, path) =>
         Owned(s, id, t) && s[SlotOf(id)].state == Unbound
         && (forall i :: 0 <= i < SOCKETS && s[i].used && s[i].hasPath ==> s[i].path != path) ==>
           s'[SlotOf(id)].hasPath && s'[SlotOf(id)].path == Cut(path)
       case Listen(t, id) =>
         Owned(s, id, t) && s[SlotOf(id)].state == Unbound && s[SlotOf(id)].hasPath ==>
           s'[SlotOf(id)].state == Listening
       case Connect(t, id, path) =>
         Owned(s, id, t) && s[SlotOf(id)].state == Unbound ==>
           forall l: nat :: FirstListener(s, path, l) && |s[l].backlog| + 1 < BACKLOG ==>
             JoinsBacklog(s, s', SlotOf(id), l)
       case Accept(t, id) =>
         Owned(s, id, t) && s[SlotOf(id)].state == Listening && (exists j :: 0 <= j < SOCKETS && !s[j].used) ==>
           forall k: nat :: k < |s[SlotOf(id)].backlog| && FirstTrying(s, s[SlotOf(id)].backlog, k) ==>
             exists n: nat :: Meets(s, s', SlotOf(id), k, n, t)
       case Read(id, max) =>
         Names(s, id) && s[SlotOf(id)].state == Connected ==>
           && a.logs[SlotOf(id)].got <= b.logs[SlotOf(id)].got
           && |b.logs[SlotOf(id)].got| ==
                |a.logs[SlotOf(id)].got| + if max < s[SlotOf(id)].ring.count then max else s[SlotOf(id)].ring.count
       case Write(id, bytes) =>
         Names(s, id) && s[SlotOf(id)].state == Connected && PeerThere(a.v, SlotOf(id)) ==>
           var p := s[SlotOf(id)].peer;
           var space := RING - s[p].ring.count;
           && space >= 0 && b.logs[p].sent == a.logs[p].sent + if |bytes| < space then bytes else bytes[..space]
       case Close(t, id) => Owned(s, id, t) ==> HangsUp(a.v, b.v, SlotOf(id))
       case Exit(t) => forall i :: 0 <= i < SOCKETS ==> !(s'[i].used && s'[i].owner == t)
  }

  class Sockets {
    var socks: seq<Socket>
    ghost var lives: seq<nat>
    ghost var peerLives: seq<nat>
    ghost var logs: seq<Log>
    ghost var misled: set<nat>

    ghost function V(): Sys
      reads this
    {
      Sys(socks, lives, peerLives)
    }

    /** Rings hold what was sent and not read, connections are sound, and a socket is told that its
        peer is closed only when it is, unless a stray was closed. */
    ghost predicate Valid()
      reads this
    {
      RingsOk(socks, logs) && Sound(V()) && Honest(V(), misled)
    }

    constructor ()
      ensures Valid() && misled == {}
    {
      socks := seq(SOCKETS, _ => Socket(false, 0, Unbound, 0, [], false, [], -1, 0, false, Ring(Zeros(RING), 0, 0)));
      lives := seq(SOCKETS, _ => 0);
      peerLives := seq(SOCKETS, _ => 0);
      logs := seq(SOCKETS, _ => Log([], []));
      misled := {};
      new;
      forall i | 0 <= i < SOCKETS ensures Link(V(), i) {}
    }

    method FindSocket(id: int) returns (i: nat)
      requires |socks| == SOCKETS
      ensures i <= SOCKETS && (i < SOCKETS <==> Names(socks, id)) && (i < SOCKETS ==> i == SlotOf(id))
    {
      i := SlotOf(id);
      if i >= SOCKETS || !socks[i].used || socks[i].gen != GenOf(id) {
        i := SOCKETS;
      }
    }

    method FreeSlot() returns (i: nat)
      requires |socks| == SOCKETS
      ensures i <= SOCKETS && (i < SOCKETS ==> !socks[i].used) && forall j :: 0 <= j < i ==> socks[j].used
    {
      i := 0;
      while i < SOCKETS && socks[i].used
        invariant i <= SOCKETS && forall j :: 0 <= j < i ==> socks[j].used
      {
        i := i + 1;
      }
    }

    method CreateSocket(t: nat) returns (r: Status, id: int)
      requires Valid()
      modifies this
      ensures Valid() && misled == old(misled) && lives == old(lives)
      ensures r == Fine <==> exists i :: 0 <= i < SOCKETS && !old(socks)[i].used
      ensures r == Fine ==>
                && SlotOf(id) < SOCKETS && Owned(socks, id, t) && !old(socks)[SlotOf(id)].used
                && (forall j :: 0 <= j < SOCKETS && j != SlotOf(id) ==> socks[j] == old(socks)[j])
                && (forall j :: 0 <= j < SlotOf(id) ==> socks[j].used)
                && socks[SlotOf(id)].state == Unbound && !socks[SlotOf(id)].hasPath && socks[SlotOf(id)].ring.count == 0
                && socks[SlotOf(id)].backlog == [] && !socks[SlotOf(id)].peerClosed && socks[SlotOf(id)].peer == -1
                && logs == old(logs)[SlotOf(id) := Log([], [])]
      ensures r == Fine || r == NoSpace
      ensures r != Fine ==> socks == old(socks) && logs == old(logs)
    {
      hide Link;
      var i := FreeSlot();
      if i == SOCKETS {
        return NoSpace, 0;
      }
      OtherState(V(), i, Fresh(socks[i], t), misled);
      socks := socks[i := Fresh(socks[i], t)];
      logs := logs[i := Log([], [])];
      IdRoundTrip(i, socks[i].gen);
      r, id := Fine, MakeId(i, socks[i].gen);
    }

    method BindSocket(t: nat, id: int, path: seq<Byte>) returns (r: Status)
      requires Valid()
      modifies this
      ensures Valid() && misled == old(misled) && lives == old(lives) && logs == old(logs)
      ensures r == Fine <==>
                && old(Owned(socks, id, t)) && old(socks)[SlotOf(id)].state == Unbound
                && forall i :: 0 <= i < SOCKETS && old(socks)[i].used && old(socks)[i].hasPath ==>
                     old(socks)[i].path != path
      ensures r == Fine ==>
                socks == old(socks)[SlotOf(id) := old(socks)[SlotOf(id)].(path := Cut(path), hasPath := true)]
      ensures r != Fine ==> socks == old(socks)
    {
      hide Link;
      var i := FindSocket(id);
      if i == SOCKETS || socks[i].owner != t {
        return NotFound;
      }
      if socks[i].state != Unbound {
        return Invalid;
      }
      var j := 0;
      while j < SOCKETS
        invariant 0 <= j <= SOCKETS && socks == old(socks) && logs == old(logs) && lives == old(lives) && Valid()
        invariant forall k :: 0 <= k < j && socks[k].used && socks[k].hasPath ==> socks[k].path != path
      {
        if socks[j].used && socks[j].hasPath && socks[j].path == path {
          return Exists;
        }
        j := j + 1;
      }
      Unlinked(V(), i, socks[i].(path := Cut(path), hasPath := true), misled);
      socks := socks[i := socks[i].(path := Cut(path), hasPath := true)];
      r := Fine;
    }

    method ListenSocket(t: nat, id: int) returns (r: Status)
      requires Valid()
      modifies this
      ensures Valid() && misled == old(misled) && lives == old(lives) && logs == old(logs)
      ensures r == Fine <==>
                old(Owned(socks, id, t)) && old(socks)[SlotOf(id)].state == Unbound && old(socks)[SlotOf(id)].hasPath
      ensures r == Fine ==>
                socks == old(socks)[SlotOf(id) := old(socks)[SlotOf(id)].(state := Listening, backlog := [])]
      ensures r != Fine ==> socks == old(socks)
    {
      hide Link;
      var i := FindSocket(id);
      if i == SOCKETS || socks[i].owner != t {
        return NotFound;
      }
      if !socks[i].hasPath || socks[i].state != Unbound {
        return Invalid;
      }
      OtherState(V(), i, socks[i].(state := Listening, backlog := []), misled);
      socks := socks[i := socks[i].(state := Listening, backlog := [])];
      r := Fine;
    }

    /** Joins the backlog of the first listener on a path, which has room for seven. */
    method ConnectSocket(t: nat, id: int, path: seq<Byte>) returns (r: Status)
      requires Valid()
      modifies this
      ensures Valid() && misled == old(misled) && lives == old(lives) && logs == old(logs)
      ensures r == Fine ==>
                && socks == old(socks) && old(Owned(socks, id, t))
                && (socks[SlotOf(id)].state == Connected || socks[SlotOf(id)].state == Connecting)
      ensures r == WouldBlock ==>
                old(Owned(socks, id, t)) && |socks| == SOCKETS && socks[SlotOf(id)].state == Connecting
      ensures r == WouldBlock && old(socks)[SlotOf(id)].state != Unbound ==> socks == old(socks)
      ensures r == WouldBlock && old(socks)[SlotOf(id)].state == Unbound ==>
                exists l: nat :: FirstListener(old(socks), path, l) && |old(socks)[l].backlog| + 1 < BACKLOG
                  && JoinsBacklog(old(socks), socks, SlotOf(id), l)
      ensures r == NoSpace <==>
                && old(Owned(socks, id, t)) && old(socks)[SlotOf(id)].state == Unbound
                && exists l: nat :: FirstListener(old(socks), path, l) && |old(socks)[l].backlog| + 1 >= BACKLOG
      ensures r == Invalid <==> old(Owned(socks, id, t)) && old(socks)[SlotOf(id)].state == Listening
      ensures r == NotFound <==>
                || !old(Owned(socks, id, t))
                || (old(socks)[SlotOf(id)].state == Unbound
                    && forall l :: 0 <= l < SOCKETS ==> !Listens(socks[l], path))
      ensures r != WouldBlock ==> socks == old(socks)
      ensures r != Exists
    {
      hide Link;
      var i := FindSocket(id);
      if i == SOCKETS || socks[i].owner != t {
        return NotFound;
      }
      if socks[i].state == Connected {
        return Fine;
      }
      if socks[i].state == Connecting {
        return if socks[i].peer < 0 then WouldBlock else Fine;
      }
      if socks[i].state != Unbound {
        return Invalid;
      }
      var l := 0;
      while l < SOCKETS && !Listens(socks[l], path)
        invariant 0 <= l <= SOCKETS && forall j :: 0 <= j < l ==> !Listens(socks[j], path)
      {
        l := l + 1;
      }
      if l == SOCKETS {
        return NotFound;
      }
      OneFirst(socks, path, l);
      if |socks[l].backlog| + 1 >= BACKLOG {
        return NoSpace;
      }
      var b := socks[l].(backlog := socks[l].backlog + [Entry(i, socks[i].gen)]);
      Unlinked(V(), l, b, misled);
      OtherState(V().(socks := socks[l := b]), i, socks[l := b][i].(state := Connecting, peer := -1), misled);
      socks := socks[l := b];
      socks := socks[i := socks[i].(state := Connecting, peer := -1)];
      assert JoinsBacklog(old(socks), socks, i, l);
      r := WouldBlock;
    }

    /** Takes the first socket that still tries to connect out of the backlog of l, with those
        before it; k is its place, the length of the backlog when there is none. */
    method TakeWaiting(l: nat) returns (k: nat)
      requires Valid() && l < SOCKETS && socks[l].used && socks[l].state == Listening
      modifies this
      ensures Valid() && misled == old(misled) && lives == old(lives) && peerLives == old(peerLives)
      ensures logs == old(logs)
      ensures FirstTrying(old(socks), old(socks)[l].backlog, k) && Shortened(old(socks), socks, l, k)
    {
      hide Sound, Honest;
      SoundSizes(V());
      var backlog := socks[l].backlog;
      k := 0;
      while k < |backlog| && !Tries(socks, backlog[k])
        invariant 0 <= k <= |backlog| && forall j :: 0 <= j < k ==> !Tries(socks, backlog[j])
      {
        k := k + 1;
      }
      var rest := socks[l].(backlog := backlog[if k < |backlog| then k + 1 else k..]);
      assert RingLog(rest.ring, logs[l]);
      Unlinked(V(), l, rest, misled);
      socks := socks[l := rest];
    }

    /** Connects the first socket that still tries to, in the order they asked, to a new one. */
    method AcceptSocket(t: nat, id: int) returns (r: Status, newId: int)
      requires Valid()
      modifies this
      ensures Valid() && misled == old(misled) && lives == old(lives)
      ensures r == NotFound || r == Invalid <==>
                !(old(Owned(socks, id, t)) && old(socks)[SlotOf(id)].state == Listening)
      ensures r == NotFound || r == Invalid ==> V() == old(V()) && logs == old(logs)
      ensures r == WouldBlock || r == NoSpace ==> logs == old(logs)
      ensures r == WouldBlock ==>
                var n := |old(socks)[SlotOf(id)].backlog|;
                && FirstTrying(old(socks), old(socks)[SlotOf(id)].backlog, n)
                && Shortened(old(socks), socks, SlotOf(id), n)
      ensures r == NoSpace ==>
                && (exists k: nat :: k < |old(socks)[SlotOf(id)].backlog|
                     && FirstTrying(old(socks), old(socks)[SlotOf(id)].backlog, k)
                     && Shortened(old(socks), socks, SlotOf(id), k))
                && forall j :: 0 <= j < SOCKETS ==> socks[j].used
      ensures r == Fine ==>
                && Owned(socks, newId, t) && SlotOf(newId) < SOCKETS
                && logs == old(logs)[SlotOf(newId) := Log([], [])]
                && exists k: nat :: Meets(old(socks), socks, SlotOf(id), k, SlotOf(newId), t)
      ensures r != Exists
    {
      hide Link, RingLog, Accepted;
      var l := FindSocket(id);
      if l == SOCKETS || socks[l].owner != t {
        return NotFound, 0;
      }
      if socks[l].state != Listening {
        return Invalid, 0;
      }
      var backlog := socks[l].backlog;
      var k := TakeWaiting(l);
      if k == |backlog| {
        return WouldBlock, 0;
      }
      var c := backlog[k].slot;
      var n := FreeSlot();
      if n == SOCKETS {
        return NoSpace, 0;
      }
      AcceptedSound(V(), c, n, t, misled);
      AcceptedRings(V(), c, n, t, logs);
      AcceptedMeets(old(V()), V(), l, k, n, t);
      Connect2(c, n, t);
      IdRoundTrip(n, socks[n].gen);
      r, newId := Fine, MakeId(n, socks[n].gen);
    }

    /** The two sockets of a new connection. */
    method Connect2(c: nat, n: nat, t: nat)
      requires c < SOCKETS && n < SOCKETS && |socks| == SOCKETS == |lives| == |peerLives| == |logs|
      modifies this
      ensures V() == Accepted(old(V()), c, n, t) && logs == old(logs)[n := Log([], [])]
      ensures lives == old(lives) && |peerLives| == SOCKETS == |socks| && misled == old(misled)
    {
      var srv := socks[n].(used := true, state := Connected, owner := t, hasPath := false, peerClosed := false,
                           ring := Ring(socks[n].ring.data, 0, 0), peer := c, peerGen := socks[c].gen);
      var client := socks[c].(peer := n, peerGen := socks[n].gen, state := Connected);
      socks, peerLives := socks[n := srv][c := client], peerLives[n := lives[c]][c := lives[n]];
      logs := logs[n := Log([], [])];
    }

    /** Takes bytes out of a socket's ring. The end of the stream is reported once the ring is empty
        and the peer is closed. */
    method ReadSocket(id: int, max: nat) returns (r: Status, bytes: seq<Byte>)
      requires Valid()
      modifies this
      ensures Valid() && misled == old(misled) && lives == old(lives) && |socks| == old(|socks|)
      ensures r == Fine || r == WouldBlock <==> old(Names(socks, id)) && old(socks)[SlotOf(id)].state == Connected
      ensures r == WouldBlock ==> old(socks)[SlotOf(id)].ring.count == 0 && !old(socks)[SlotOf(id)].peerClosed
      ensures r == Fine && max > 0 && bytes == [] ==>
                old(logs)[SlotOf(id)].got == old(logs)[SlotOf(id)].sent && old(socks)[SlotOf(id)].peerClosed
      ensures r == Fine && max > 0 && bytes == [] && SlotOf(id) !in misled ==> Bereft(old(V()), SlotOf(id))
      ensures r == Fine ==>
                logs == old(logs)[SlotOf(id) := old(logs)[SlotOf(id)].(got := old(logs)[SlotOf(id)].got + bytes)]
      ensures r == Fine ==>
                |bytes| == if max < old(socks)[SlotOf(id)].ring.count then max else old(socks)[SlotOf(id)].ring.count
      ensures r == Fine ==> socks == old(socks)[SlotOf(id) := old(socks)[SlotOf(id)].(ring := socks[SlotOf(id)].ring)]
      ensures r != Fine ==> bytes == [] && socks == old(socks) && logs == old(logs)
    {
      hide Link, Contents, Wrap;
      var i := FindSocket(id);
      if i == SOCKETS {
        return NotFound, [];
      }
      if socks[i].state != Connected {
        return Invalid, [];
      }
      assert RingLog(socks[i].ring, logs[i]);
      ghost var l := logs[i];
      if socks[i].ring.count == 0 {
        assert l.got == l.sent && l.got + [] == l.got;
        return if socks[i].peerClosed then Fine else WouldBlock, [];
      }
      var ring;
      ring, bytes := Drain(socks[i].ring, max);
      assert l.got + (bytes + Contents(ring)) == l.got + bytes + Contents(ring);
      Unlinked(V(), i, socks[i].(ring := ring), misled);
      socks := socks[i := socks[i].(ring := ring)];
      logs := logs[i := l.(got := l.got + bytes)];
      r := Fine;
    }

    /** Puts bytes into the ring of the peer, as many as there is room for. */
    method WriteSocket(id: int, bytes: seq<Byte>) returns (r: Status, n: nat)
      requires Valid()
      modifies this
      ensures Valid() && misled == old(misled) && lives == old(lives) && |socks| == old(|socks|)
      ensures r == Fine <==>
                old(Names(socks, id)) && old(socks)[SlotOf(id)].state == Connected && PeerThere(old(V()), SlotOf(id))
      ensures r == Fine ==> var p := old(socks)[SlotOf(id)].peer;
                && n == (if |bytes| < RING - old(socks)[p].ring.count then |bytes| else RING - old(socks)[p].ring.count)
                && logs == old(logs)[p := old(logs)[p].(sent := old(logs)[p].sent + bytes[..n])]
                && socks == old(socks)[p := old(socks)[p].(ring := socks[p].ring)]
      ensures r != Fine ==> n == 0 && socks == old(socks) && logs == old(logs)
    {
      hide Link, Contents, Wrap;
      n := 0;
      var i := FindSocket(id);
      if i == SOCKETS {
        return NotFound, 0;
      }
      if socks[i].state != Connected {
        return Invalid, 0;
      }
      var p := socks[i].peer;
      if p < 0 || p >= SOCKETS || !socks[p].used || socks[p].gen != socks[i].peerGen {
        return NotFound, 0;
      }
      assert RingLog(socks[p].ring, logs[p]);
      ghost var l := logs[p];
      var space := RING - socks[p].ring.count;
      n := if |bytes| < space then |bytes| else space;
      var ring := Fill(socks[p].ring, bytes[..n]);
      assert l.got + (Contents(socks[p].ring) + bytes[..n]) == l.sent + bytes[..n];
      Unlinked(V(), p, socks[p].(ring := ring), misled);
      socks := socks[p := socks[p].(ring := ring)];
      logs := logs[p := l.(sent := l.sent + bytes[..n])];
      r := Fine;
    }

    method CloseAt(i: nat)
      requires Valid() && i < SOCKETS && socks[i].used
      modifies this
      ensures Valid() && V() == Closed(old(V()), i) && logs == old(logs) && misled == old(misled - {i} + Fooled(V(), i))
      ensures HangsUp(old(V()), V(), i)
    {
      hide Sound, Honest, Fooled;
      SoundSizes(V());
      ClosedSound(V(), i);
      ClosedHonest(V(), i, misled);
      misled := misled - {i} + Fooled(V(), i);
      var p := socks[i].peer;
      assert RingLog(socks[i].ring, logs[i]);
      if socks[i].state == Connected && 0 <= p < SOCKETS && socks[p].used && socks[p].gen == socks[i].peerGen {
        assert RingLog(socks[p].ring, logs[p]);
        socks := socks[p := socks[p].(peerClosed := true)];
      }
      socks := socks[i := socks[i].(used := false, gen := (socks[i].gen + 1) % GENERATIONS)];
      lives := lives[i := lives[i] + 1];
    }

    method CloseSocket(t: nat, id: int) returns (r: Status)
      requires Valid()
      modifies this
      ensures Valid() && |lives| == old(|lives|) && forall i :: 0 <= i < SOCKETS ==> old(lives)[i] <= lives[i]
      ensures r == Fine <==> old(Owned(socks, id, t))
      ensures r == Fine ==>
                && HangsUp(old(V()), V(), SlotOf(id)) && logs == old(logs)
                && misled == old(misled - {SlotOf(id)} + Fooled(V(), SlotOf(id)))
      ensures r != Fine ==> V() == old(V()) && logs == old(logs) && misled == old(misled)
    {
      hide Link;
      var i := FindSocket(id);
      if i == SOCKETS || socks[i].owner != t {
        return NotFound;
      }
      CloseAt(i);
      r := Fine;
    }

    /** A thread that ends leaves no socket open. */
    method Cleanup(t: nat)
      requires Valid()
      modifies this
      ensures Valid() && |lives| == old(|lives|) && forall i :: 0 <= i < SOCKETS ==> old(lives)[i] <= lives[i]
      ensures forall i :: 0 <= i < SOCKETS ==> !(socks[i].used && socks[i].owner == t)
      ensures forall i :: 0 <= i < SOCKETS && old(socks)[i].owner != t ==>
                && socks[i] == old(socks)[i].(peerClosed := socks[i].peerClosed)
                && (old(socks)[i].peerClosed ==> socks[i].peerClosed)
    {
      hide Sound, Honest, RingLog, Closed, Fooled;
      SoundSizes(V());
      var i := 0;
      while i < SOCKETS
        invariant 0 <= i <= SOCKETS == |socks| && Valid() && |lives| == old(|lives|) == SOCKETS
        invariant forall j :: 0 <= j < SOCKETS ==> old(lives)[j] <= lives[j] && socks[j].owner == old(socks)[j].owner
        invariant forall j :: 0 <= j < i ==> !(socks[j].used && socks[j].owner == t)
        invariant forall j :: 0 <= j < SOCKETS && old(socks)[j].owner != t ==>
                    && socks[j] == old(socks)[j].(peerClosed := socks[j].peerClosed)
                    && (old(socks)[j].peerClosed ==> socks[j].peerClosed)
      {
        if socks[i].used && socks[i].owner == t {
          ClosedEffect(V(), i);
          CloseAt(i);
        }
        i := i + 1;
      }
    }

    method Step(e: Event)
      requires Valid()
      modifies this
      ensures Valid() && Did(e, old(Table(V(), logs)), Table(V(), logs))
    {
      hide Sound, Honest, Link, RingLog, JoinsBacklog, HangsUp;
      SoundSizes(V());
      match e {
        case Create(t) => var _, _ := CreateSocket(t);
        case Bind(t, id, path) => var _ := BindSocket(t, id, path);
        case Listen(t, id) => var _ := ListenSocket(t, id);
        case Connect(t, id, path) =>
          OnlyFirst(socks, path);
          var _ := ConnectSocket(t, id, path);
        case Accept(t, id) =>
          OnlyTrying(socks, id);
          var _, _ := AcceptSocket(t, id);
        case Read(id, max) => var _, _ := ReadSocket(id, max);
        case Write(id, bytes) =>
          RingRoom(socks, logs);
          var _, _ := WriteSocket(id, bytes);
        case Close(t, id) => var _ := CloseSocket(t, id);
        case Exit(t) => Cleanup(t);
      }
      SoundSizes(V());
    }

    /** In every run each event does what it is for, the rings are queues, and peers are mutual as long
        as generations last. */
    method Run(events: seq<Event>) returns (ghost trace: seq<Table>)
      requires Valid()
      modifies this
      ensures Valid() && |trace| == |events| + 1
      ensures trace[0] == old(Table(V(), logs)) && trace[|events|] == Table(V(), logs)
      ensures forall k :: 0 <= k < |events| ==> Did(events[k], trace[k], trace[k + 1])
    {
      hide Sound, Honest, Link, RingsOk, Did;
      trace := [Table(V(), logs)];
      var k := 0;
      while k < |events|
        invariant 0 <= k <= |events| && Valid() && |trace| == k + 1
        invariant trace[0] == old(Table(V(), logs)) && trace[k] == Table(V(), logs)
        invariant forall j :: 0 <= j < k ==> Did(events[j], trace[j], trace[j + 1])
      {
        Step(events[k]);
        trace := trace + [Table(V(), logs)];
        k := k + 1;
      }
    }
  }

  /** The backlog of listener l has lost entry k and those before it, and nothing else changed. */
  ghost predicate Shortened(socks: seq<Socket>, socks': seq<Socket>, l: nat, k: nat) {
    && |socks'| == |socks| && l < |socks| && k <= |socks[l].backlog|
    && socks'[l] == socks[l].(backlog := socks[l].backlog[if k < |socks[l].backlog| then k + 1 else k..])
    && forall j :: 0 <= j < |socks| && j != l ==> socks'[j] == socks[j]
  }

  /** Socket n, new and owned by t, and the socket of backlog entry k of listener l, the first that
      still tries, are each other's peer; nothing else changed. */
  ghost predicate Meets(socks: seq<Socket>, socks': seq<Socket>, l: nat, k: nat, n: nat, t: nat) {
    && |socks'| == |socks| && l < |socks| && n < |socks| && k < |socks[l].backlog|
    && FirstTrying(socks, socks[l].backlog, k) && socks[l].backlog[k].slot < |socks|
    && var c := socks[l].backlog[k].slot;
       && c != l && n != l && n != c && !socks[n].used && (forall j :: 0 <= j < n ==> socks[j].used)
       && socks'[l] == socks[l].(backlog := socks[l].backlog[k + 1..])
       && socks'[c] == socks[c].(state := Connected, peer := n, peerGen := socks[n].gen)
       && socks'[n].used && socks'[n].gen == socks[n].gen && socks'[n].state == Connected && socks'[n].owner == t
       && socks'[n].peer == c && socks'[n].peerGen == socks[c].gen && !socks'[n].peerClosed && !socks'[n].hasPath
       && socks'[n].ring.count == 0
       && forall j :: 0 <= j < |socks| && j != l && j != c && j != n ==> socks'[j] == socks[j]
  }

  lemma AcceptedMeets(v: Sys, w: Sys, l: nat, k: nat, n: nat, t: nat)
    requires l < |v.socks| && FirstTrying(v.socks, v.socks[l].backlog, k) && Shortened(v.socks, w.socks, l, k)
    requires v.socks[l].used && v.socks[l].state == Listening && k < |v.socks[l].backlog|
    requires n < |w.socks| && !w.socks[n].used && forall j :: 0 <= j < n ==> w.socks[j].used
    requires |w.socks| == |w.lives| == |w.peerLives|
    ensures v.socks[l].backlog[k].slot < |w.socks|
    ensures Meets(v.socks, Accepted(w, v.socks[l].backlog[k].slot, n, t).socks, l, k, n, t)
  {
  }

  /** Socket i is free for a new generation; the socket that is taken for its peer is told, and
      nothing else changed. */
  ghost predicate HangsUp(v: Sys, w: Sys, i: nat) {
    && |w.socks| == |v.socks| && i < |v.socks|
    && !w.socks[i].used && w.socks[i].gen == (v.socks[i].gen + 1) % GENERATIONS
    && forall j :: 0 <= j < |v.socks| && j != i ==>
         w.socks[j] == if v.socks[i].state == Connected && PeerThere(v, i) && v.socks[i].peer == j
                       then v.socks[j].(peerClosed := true) else v.socks[j]
  }

  /** Closing a socket keeps the owners and the rings of all, and the other sockets open. */
  lemma ClosedEffect(v: Sys, i: nat)
    requires i < |v.socks| == |v.lives|
    ensures var w := Closed(v, i); |w.socks| == |v.socks| == |w.lives| && !w.socks[i].used
    ensures var w := Closed(v, i); forall j :: 0 <= j < |v.socks| ==>
              w.socks[j].owner == v.socks[j].owner && w.socks[j].ring == v.socks[j].ring && w.lives[j] >= v.lives[j]
    ensures var w := Closed(v, i); forall j :: 0 <= j < |v.socks| && j != i ==> w.socks[j].used == v.socks[j].used
  {
  }

  lemma OnlyFirst(socks: seq<Socket>, path: seq<Byte>)
    ensures forall k: nat, l: nat :: FirstListener(socks, path, k) && FirstListener(socks, path, l) ==> k == l
  {
  }

  lemma OnlyTrying(socks: seq<Socket>, id: int)
    requires |socks| == SOCKETS
    ensures SlotOf(id) < SOCKETS ==>
              var backlog := socks[SlotOf(id)].backlog;
              forall j: nat, k: nat :: FirstTrying(socks, backlog, j) && FirstTrying(socks, backlog, k) ==> j == k
  {
  }

  lemma RingRoom(socks: seq<Socket>, logs: seq<Log>)
    requires RingsOk(socks, logs)
    ensures forall i :: 0 <= i < SOCKETS ==> socks[i].ring.count <= RING
  {
    forall i | 0 <= i < SOCKETS ensures socks[i].ring.count <= RING {
      assert RingLog(socks[i].ring, logs[i]);
    }
  }

  lemma SoundSizes(v: Sys)
    requires Sound(v)
    ensures |v.socks| == SOCKETS == |v.lives| == |v.peerLives|
  {
  }

  lemma AcceptedRings(v: Sys, c: nat, n: nat, t: nat, logs: seq<Log>)
    requires RingsOk(v.socks, logs) && c < SOCKETS && n < SOCKETS && c != n && |v.lives| == SOCKETS == |v.peerLives|
    ensures RingsOk(Accepted(v, c, n, t).socks, logs[n := Log([], [])])
  {
    assert RingLog(v.socks[c].ring, logs[c]) && RingLog(v.socks[n].ring, logs[n]);
  }
}
