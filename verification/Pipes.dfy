/** Pipes: rings of bytes with a set of threads that hold each end. */
module Pipes {
  import opened Bytes
  import opened Rings

  const POOL: nat := 16
  const RING: nat := 1024
  const CHUNK: nat := 32
  const GENERATIONS: nat := 0x1_0000_0000

  datatype Pipe = Pipe(gen: nat, readers: set<nat>, writers: set<nat>, ring: Ring)

  /** What became of a pipe since it was last created, and how often that was. */
  datatype Log = Log(births: nat, written: seq<Byte>, got: seq<Byte>)

  datatype Handle = Handle(idx: nat, gen: nat)

  datatype Status = Fine | NotFound

  predicate Free(p: Pipe) { p.readers == {} && p.writers == {} }

  predicate Live(pool: seq<Pipe>, h: Handle) {
    h.idx < |pool| && pool[h.idx].gen == h.gen && !Free(pool[h.idx])
  }

  /** What was read and what the ring holds is what was written, in order. */
  ghost predicate PipeOk(p: Pipe, l: Log) {
    RingOk(p.ring) && |p.ring.data| == RING && l.got + Contents(p.ring) == l.written
  }

  ghost predicate Sound(pool: seq<Pipe>, logs: seq<Log>) {
    |pool| == POOL == |logs| && forall i :: 0 <= i < POOL ==> PipeOk(pool[i], logs[i])
  }

  /** A pipe of the same birth has only been written to and read from further. */
  ghost predicate Further(l: Log, m: Log) {
    l.births < m.births || (l.births == m.births && l.written <= m.written && l.got <= m.got)
  }

  ghost predicate Later(logs: seq<Log>, after: seq<Log>) {
    |after| == |logs| && forall i :: 0 <= i < |logs| ==> Further(logs[i], after[i])
  }

  /** Some readers and writers let go; a pipe nobody holds any more gets the next generation. */
  ghost predicate LetsGo(p: Pipe, q: Pipe, readers: set<nat>, writers: set<nat>) {
    && q.readers == p.readers - readers && q.writers == p.writers - writers && q.ring == p.ring
    && q.gen == if q.readers == {} && q.writers == {} then (p.gen + 1) % GENERATIONS else p.gen
  }

  function Settle(p: Pipe): Pipe { if Free(p) then p.(gen := (p.gen + 1) % GENERATIONS) else p }

  function Without(p: Pipe, t: nat): Pipe {
    if t in p.readers + p.writers then Settle(p.(readers := p.readers - {t}, writers := p.writers - {t})) else p
  }

  function WithChild(p: Pipe, parent: nat, child: nat): Pipe {
    p.(readers := if parent in p.readers then p.readers + {child} else p.readers,
       writers := if parent in p.writers then p.writers + {child} else p.writers)
  }

  function Least(a: nat, b: nat): (n: nat)
    ensures n <= a && n <= b && (n == a || n == b)
  {
    if a < b then a else b
  }

  datatype Event =
    | Create(t: nat)
    | Read(h: Handle, max: nat)
    | Write(h: Handle, bytes: seq<Byte>)
    | Close(t: nat, h: Handle, writeEnd: bool)
    | AddHolder(t: nat, h: Handle, writeEnd: bool)
    | Fork(parent: nat, child: nat)
    | Death(t: nat)

  datatype Table = Table(pool: seq<Pipe>, logs: seq<Log>)

  /** What an event does to the pipes, where it can happen. */
  ghost predicate Did(e: Event, v: Table, w: Table) {
    && |v.pool| == |w.pool| == |v.logs| == |w.logs| == POOL
    && match e
       case Create(t) =>
         (exists i :: 0 <= i < POOL && Free(v.pool[i])) ==>
           exists i :: 0 <= i < POOL && Free(v.pool[i]) && w.pool[i].readers == w.pool[i].writers == {t}
             && w.logs[i].written == [] && w.pool == v.pool[i := w.pool[i]]
       case Read(h, max) =>
         Live(v.pool, h) ==>
           && v.logs[h.idx].got <= w.logs[h.idx].got
           && |w.logs[h.idx].got| == |v.logs[h.idx].got| + Least(Least(max, v.pool[h.idx].ring.count), CHUNK)
       case Write(h, bytes) =>
         Live(v.pool, h) && v.pool[h.idx].readers != {} && v.pool[h.idx].ring.count <= RING ==>
           var n := Least(Least(|bytes|, RING - v.pool[h.idx].ring.count), CHUNK);
           w.logs[h.idx].written == v.logs[h.idx].written + bytes[..n]
       case Close(t, h, writeEnd) =>
         h.idx < POOL && v.pool[h.idx].gen == h.gen ==>
           LetsGo(v.pool[h.idx], w.pool[h.idx], if writeEnd then {} else {t}, if writeEnd then {t} else {})
       case AddHolder(t, h, writeEnd) =>
         h.idx < POOL && v.pool[h.idx].gen == h.gen ==>
           t in if writeEnd then w.pool[h.idx].writers else w.pool[h.idx].readers
       case Fork(parent, child) =>
         forall i :: 0 <= i < POOL ==>
           && (parent in v.pool[i].readers ==> child in w.pool[i].readers)
           && (parent in v.pool[i].writers ==> child in w.pool[i].writers)
       case Death(t) => forall i :: 0 <= i < POOL ==> t !in w.pool[i].readers + w.pool[i].writers
  }

  class Pipes {
    var pool: seq<Pipe>
    ghost var logs: seq<Log>

    constructor ()
      ensures Sound(pool, logs) && forall i :: 0 <= i < POOL ==> Free(pool[i]) && pool[i].gen == 0
    {
      pool := seq(POOL, _ => Pipe(0, {}, {}, Ring(Zeros(RING), 0, 0)));
      logs := seq(POOL, _ => Log(0, [], []));
    }

    /** Makes a pipe of the first one that is free: it is empty and the creator holds both ends. */
    method CreatePipe(t: nat) returns (r: Status, h: Handle)
      requires Sound(pool, logs)
      modifies this
      ensures Sound(pool, logs) && Later(old(logs), logs)
      ensures r == Fine <==> exists i :: 0 <= i < POOL && Free(old(pool)[i])
      ensures r == Fine ==> Live(pool, h) && Free(old(pool)[h.idx]) && h.gen == old(pool)[h.idx].gen
      ensures r == Fine ==> forall j :: 0 <= j < h.idx ==> !Free(old(pool)[j])
      ensures r == Fine ==> pool == old(pool)[h.idx := pool[h.idx]] && logs == old(logs)[h.idx := logs[h.idx]]
      ensures r == Fine ==> logs[h.idx].written == [] && pool[h.idx].readers == {t} == pool[h.idx].writers
      ensures r == NotFound ==> pool == old(pool) && logs == old(logs)
    {
      h := Handle(0, 0);
      var i := 0;
      while i < POOL
        invariant 0 <= i <= POOL && pool == old(pool) && logs == old(logs)
        invariant forall j :: 0 <= j < i ==> !Free(pool[j])
      {
        if Free(pool[i]) {
          pool := pool[i := Pipe(pool[i].gen, {t}, {t}, Ring(pool[i].ring.data, 0, 0))];
          logs := logs[i := Log(logs[i].births + 1, [], [])];
          return Fine, Handle(i, pool[i].gen);
        }
        i := i + 1;
      }
      r := NotFound;
    }

    /** Takes up to `max` bytes out, at most 32 of them. Of a pipe that is there, nothing found is
        the end of the stream: no writer is left and every byte written was read. */
    method ReadPipe(h: Handle, max: nat) returns (r: Status, bytes: seq<Byte>)
      requires Sound(pool, logs)
      modifies this
      ensures Sound(pool, logs) && Later(old(logs), logs) && |pool| == old(|pool|)
      ensures r == NotFound <==>
                !old(Live(pool, h)) || (old(pool)[h.idx].writers == {}
                  && old(logs)[h.idx].got == old(logs)[h.idx].written)
      ensures r == NotFound ==> bytes == [] && pool == old(pool) && logs == old(logs)
      ensures r == Fine ==> |bytes| == Least(Least(max, old(pool)[h.idx].ring.count), CHUNK)
      ensures r == Fine ==> logs == old(logs)[h.idx := old(logs)[h.idx].(got := old(logs)[h.idx].got + bytes)]
      ensures r == Fine ==> pool == old(pool)[h.idx := old(pool)[h.idx].(ring := pool[h.idx].ring)]
    {
      if h.idx >= POOL || pool[h.idx].gen != h.gen || Free(pool[h.idx]) {
        return NotFound, [];
      }
      hide Contents, Wrap;
      var p := pool[h.idx];
      ghost var l := logs[h.idx];
      assert PipeOk(p, l);
      if p.ring.count == 0 {
        assert Contents(p.ring) == [];
        r := if p.writers == {} then NotFound else Fine;
        bytes := [];
        assert l.got + [] == l.got;
        assert logs == logs[h.idx := l];
        return;
      }
      assert l.got != l.written;
      var n := Least(Least(max, p.ring.count), CHUNK);
      bytes := Peek(p.ring, n);
      PulledContents(p.ring, n);
      assert l.got + Contents(p.ring) == l.got + bytes + Contents(p.ring)[n..];
      var ring := Ring(p.ring.data, Wrap(p.ring.head + n, RING), p.ring.count - n);
      pool := pool[h.idx := p.(ring := ring)];
      logs := logs[h.idx := l.(got := l.got + bytes)];
      r := Fine;
    }

    /** Puts bytes in, as many as there is room for and at most 32. */
    method WritePipe(h: Handle, bytes: seq<Byte>) returns (r: Status, n: nat)
      requires Sound(pool, logs)
      modifies this
      ensures Sound(pool, logs) && Later(old(logs), logs) && |pool| == old(|pool|)
      ensures r == NotFound <==> !old(Live(pool, h)) || old(pool)[h.idx].readers == {}
      ensures r == NotFound ==> n == 0 && pool == old(pool) && logs == old(logs)
      ensures r == Fine ==> n == Least(Least(|bytes|, RING - old(pool)[h.idx].ring.count), CHUNK)
      ensures r == Fine ==>
                logs == old(logs)[h.idx := old(logs)[h.idx].(written := old(logs)[h.idx].written + bytes[..n])]
      ensures r == Fine ==> pool == old(pool)[h.idx := old(pool)[h.idx].(ring := pool[h.idx].ring)]
    {
      if h.idx >= POOL || pool[h.idx].gen != h.gen || Free(pool[h.idx]) || pool[h.idx].readers == {} {
        return NotFound, 0;
      }
      hide Contents;
      var p := pool[h.idx];
      ghost var l := logs[h.idx];
      assert PipeOk(p, l);
      n := Least(Least(|bytes|, RING - p.ring.count), CHUNK);
      var ring := Fill(p.ring, bytes[..n]);
      assert l.got + (Contents(p.ring) + bytes[..n]) == l.written + bytes[..n];
      pool := pool[h.idx := p.(ring := ring)];
      logs := logs[h.idx := l.(written := l.written + bytes[..n])];
      r := Fine;
    }

    method ClosePipe(t: nat, h: Handle, writeEnd: bool) returns (r: Status)
      requires Sound(pool, logs)
      modifies this`pool
      ensures Sound(pool, logs)
      ensures r == Fine <==> h.idx < POOL && old(pool)[h.idx].gen == h.gen
      ensures r == Fine ==>
                && (forall i :: 0 <= i < POOL && i != h.idx ==> pool[i] == old(pool)[i])
                && LetsGo(old(pool)[h.idx], pool[h.idx], if writeEnd then {} else {t}, if writeEnd then {t} else {})
      ensures r == NotFound ==> pool == old(pool)
    {
      if h.idx >= POOL || pool[h.idx].gen != h.gen {
        return NotFound;
      }
      var p := pool[h.idx];
      assert PipeOk(p, logs[h.idx]);
      p := if writeEnd then p.(writers := p.writers - {t}) else p.(readers := p.readers - {t});
      if Free(p) {
        p := p.(gen := (p.gen + 1) % GENERATIONS);
      }
      pool := pool[h.idx := p];
      r := Fine;
    }

    method AddPipeHolder(t: nat, h: Handle, writeEnd: bool) returns (r: Status)
      requires Sound(pool, logs)
      modifies this`pool
      ensures Sound(pool, logs)
      ensures r == Fine <==> h.idx < POOL && old(pool)[h.idx].gen == h.gen
      ensures r == Fine ==>
                && (forall i :: 0 <= i < POOL && i != h.idx ==> pool[i] == old(pool)[i])
                && pool[h.idx].readers == old(pool)[h.idx].readers + (if writeEnd then {} else {t})
                && pool[h.idx].writers == old(pool)[h.idx].writers + (if writeEnd then {t} else {})
                && pool[h.idx].gen == old(pool)[h.idx].gen && pool[h.idx].ring == old(pool)[h.idx].ring
      ensures r == NotFound ==> pool == old(pool)
    {
      if h.idx >= POOL || pool[h.idx].gen != h.gen {
        return NotFound;
      }
      var p := pool[h.idx];
      assert PipeOk(p, logs[h.idx]);
      pool := pool[h.idx := if writeEnd then p.(writers := p.writers + {t}) else p.(readers := p.readers + {t})];
      r := Fine;
    }

    /** A child holds the ends its parent holds. */
    method InheritFork(parent: nat, child: nat)
      requires Sound(pool, logs)
      modifies this`pool
      ensures Sound(pool, logs)
      ensures forall i :: 0 <= i < POOL ==>
                && pool[i].readers == old(pool)[i].readers + (if parent in old(pool)[i].readers then {child} else {})
                && pool[i].writers == old(pool)[i].writers + (if parent in old(pool)[i].writers then {child} else {})
                && pool[i].gen == old(pool)[i].gen && pool[i].ring == old(pool)[i].ring
    {
      var i := 0;
      while i < POOL
        invariant 0 <= i <= POOL == |pool| && Sound(pool, logs)
        invariant forall j :: 0 <= j < POOL ==>
                  pool[j] == if j < i then WithChild(old(pool)[j], parent, child) else old(pool)[j]
      {
        assert PipeOk(pool[i], logs[i]);
        pool := pool[i := WithChild(pool[i], parent, child)];
        i := i + 1;
      }
    }

    /** A thread that ends lets go of every end it holds. */
    method InvalidateDeath(t: nat)
      requires Sound(pool, logs)
      modifies this`pool
      ensures Sound(pool, logs)
      ensures forall i :: 0 <= i < POOL ==>
                if t in old(pool)[i].readers + old(pool)[i].writers then LetsGo(old(pool)[i], pool[i], {t}, {t})
                else pool[i] == old(pool)[i]
      ensures forall i :: 0 <= i < POOL ==> t !in pool[i].readers + pool[i].writers
    {
      var i := 0;
      while i < POOL
        invariant 0 <= i <= POOL == |pool| && Sound(pool, logs)
        invariant forall j :: 0 <= j < POOL ==> pool[j] == if j < i then Without(old(pool)[j], t) else old(pool)[j]
      {
        assert PipeOk(pool[i], logs[i]);
        pool := pool[i := Without(pool[i], t)];
        i := i + 1;
      }
    }

    /** In every run, each event does what it is for, and what was read of a pipe is the beginning of
        what was written to it. */
    method Run(events: seq<Event>) returns (ghost trace: seq<Table>)
      requires Sound(pool, logs)
      modifies this
      ensures Sound(pool, logs) && Later(old(logs), logs)
      ensures |trace| == |events| + 1 && trace[0] == old(Table(pool, logs)) && trace[|events|] == Table(pool, logs)
      ensures forall k :: 0 <= k < |events| ==> Did(events[k], trace[k], trace[k + 1])
      ensures forall i :: 0 <= i < POOL ==> logs[i].got <= logs[i].written
    {
      hide Did;
      trace := [Table(pool, logs)];
      var k := 0;
      while k < |events|
        invariant 0 <= k <= |events| && Sound(pool, logs) && Later(old(logs), logs)
        invariant |trace| == k + 1 && trace[0] == old(Table(pool, logs)) && trace[k] == Table(pool, logs)
        invariant forall j :: 0 <= j < k ==> Did(events[j], trace[j], trace[j + 1])
      {
        ghost var before := logs;
        Step(events[k]);
        LaterChain(old(logs), before, logs);
        trace := trace + [Table(pool, logs)];
        k := k + 1;
      }
      assert forall i :: 0 <= i < POOL ==> PipeOk(pool[i], logs[i]);
    }

    method Step(e: Event)
      requires Sound(pool, logs)
      modifies this
      ensures Sound(pool, logs) && Later(old(logs), logs)
      ensures Did(e, old(Table(pool, logs)), Table(pool, logs))
    {
      hide Contents;
      match e {
        case Create(t) => var _, _ := CreatePipe(t);
        case Read(h, max) => var _, _ := ReadPipe(h, max);
        case Write(h, bytes) => var _, _ := WritePipe(h, bytes);
        case Close(t, h, writeEnd) => var _ := ClosePipe(t, h, writeEnd);
        case AddHolder(t, h, writeEnd) => var _ := AddPipeHolder(t, h, writeEnd);
        case Fork(parent, child) => InheritFork(parent, child);
        case Death(t) => InvalidateDeath(t);
      }
    }
  }

  lemma LaterChain(a: seq<Log>, b: seq<Log>, c: seq<Log>)
    requires Later(a, b) && Later(b, c)
    ensures Later(a, c)
  {
    forall i | 0 <= i < |a| ensures Further(a[i], c[i]) {
      assert Further(a[i], b[i]) && Further(b[i], c[i]);
    }
  }
}
