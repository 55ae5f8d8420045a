/** Byte rings: the buffers of pipes and sockets, read as the bytes they hold in order. */
module Rings {
  import opened Bytes

  datatype Ring = Ring(data: seq<Byte>, head: nat, count: nat)

  predicate RingOk(r: Ring) { r.head < |r.data| && r.count <= |r.data| }

  function Wrap(i: nat, n: nat): (j: nat)
    requires n > 0
    ensures j < n
  {
    i % n
  }

  lemma WrapIs(i: nat, n: nat)
    requires n > 0 && i < 2 * n
    ensures Wrap(i, n) == if i < n then i else i - n
  {
    if i >= n {
      assert i == n + (i - n);
    }
  }

  /** Wrapping on the way makes no difference. */
  lemma WrapTwice(i: nat, j: nat, n: nat)
    requires n > 0 && i < 2 * n && j < n
    ensures Wrap(Wrap(i, n) + j, n) == if i + j < n then i + j else if i + j < 2 * n then i + j - n else i + j - 2 * n
  {
    WrapIs(i, n);
    WrapIs(Wrap(i, n) + j, n);
  }

  function Contents(r: Ring): (s: seq<Byte>)
    requires RingOk(r)
    ensures |s| == r.count
  {
    seq(r.count, i requires 0 <= i < r.count => r.data[Wrap(r.head + i, |r.data|)])
  }

  /** A byte written behind the last one. */
  function Pushed(r: Ring, b: Byte): Ring
    requires RingOk(r)
  {
    Ring(r.data[Wrap(r.head + r.count, |r.data|) := b], r.head, r.count + 1)
  }

  lemma PushedContents(r: Ring, b: Byte)
    requires RingOk(r) && r.count < |r.data|
    ensures RingOk(Pushed(r, b)) && Contents(Pushed(r, b)) == Contents(r) + [b]
  {
    var q, n := Pushed(r, b), |r.data|;
    forall i | 0 <= i < q.count ensures Contents(q)[i] == (Contents(r) + [b])[i] {
      WrapIs(r.head + i, n);
      WrapIs(r.head + r.count, n);
    }
  }

  /** The first k bytes taken out. */
  function Pulled(r: Ring, k: nat): Ring
    requires RingOk(r) && k <= r.count
  {
    Ring(r.data, Wrap(r.head + k, |r.data|), r.count - k)
  }

  lemma PulledContents(r: Ring, k: nat)
    requires RingOk(r) && k <= r.count
    ensures RingOk(Pulled(r, k)) && Contents(Pulled(r, k)) == Contents(r)[k..]
  {
    var q, n := Pulled(r, k), |r.data|;
    forall i | 0 <= i < q.count ensures Contents(q)[i] == Contents(r)[k..][i] {
      WrapTwice(r.head + k, i, n);
      WrapIs(r.head + k + i, n);
    }
  }

  /** Bytes written one by one behind the last one, as a pipe does. */
  method Fill(r: Ring, bytes: seq<Byte>) returns (q: Ring)
    requires RingOk(r) && r.count + |bytes| <= |r.data|
    ensures RingOk(q) && |q.data| == |r.data| && Contents(q) == Contents(r) + bytes
  {
    hide Wrap, Contents;
    var n := |r.data|;
    var tail := Wrap(r.head + r.count, n);
    q := r;
    var i := 0;
    while i < |bytes|
      invariant 0 <= i <= |bytes| && RingOk(q) && |q.data| == n && q.head == r.head && q.count == r.count + i
      invariant Contents(q) == Contents(r) + bytes[..i]
    {
      WrapTwice(r.head + r.count, i, n);
      WrapIs(q.head + q.count, n);
      PushedContents(q, bytes[i]);
      q := Ring(q.data[Wrap(tail + i, n) := bytes[i]], q.head, q.count + 1);
      assert Contents(r) + bytes[..i] + [bytes[i]] == Contents(r) + bytes[..i + 1];
      i := i + 1;
    }
    assert bytes[..i] == bytes;
  }

  /** The first k bytes read without taking them out. */
  method Peek(r: Ring, k: nat) returns (bytes: seq<Byte>)
    requires RingOk(r) && k <= r.count
    ensures bytes == Contents(r)[..k]
  {
    bytes := [];
    var i := 0;
    while i < k
      invariant 0 <= i <= k && bytes == Contents(r)[..i]
    {
      bytes := bytes + [r.data[Wrap(r.head + i, |r.data|)]];
      i := i + 1;
    }
  }

  /** Bytes taken out one by one, as a socket does. */
  method Drain(r: Ring, max: nat) returns (q: Ring, bytes: seq<Byte>)
    requires RingOk(r)
    ensures RingOk(q) && |q.data| == |r.data| && bytes + Contents(q) == Contents(r)
    ensures |bytes| == if max < r.count then max else r.count
  {
    hide Wrap, Contents;
    q, bytes := r, [];
    while |bytes| < max && q.count > 0
      invariant RingOk(q) && q.data == r.data && q.count == r.count - |bytes| && |bytes| <= max
      invariant bytes + Contents(q) == Contents(r)
      decreases q.count
    {
      PulledContents(q, 1);
      FirstByte(q);
      bytes := bytes + [q.data[q.head]];
      q := Ring(q.data, Wrap(q.head + 1, |q.data|), q.count - 1);
    }
  }

  lemma FirstByte(r: Ring)
    requires RingOk(r) && r.count > 0
    ensures Contents(r) == [r.data[r.head]] + Contents(r)[1..]
  {
    WrapIs(r.head, |r.data|);
  }
}
