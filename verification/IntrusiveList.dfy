/** Singly linked lists threaded through a table of `next` links, as the kernel keeps its
    ready, send and wake queues: NIL-terminated, with head and tail held apart. */
module IntrusiveList {

  const NIL: int := -1

  /** `q` is the sequence of nodes reached by following links. */
  ghost predicate Chain(next: seq<int>, q: seq<int>) {
    && (forall i :: 0 <= i < |q| ==> 0 <= q[i] < |next|)
    && (forall i, j :: 0 <= i < j < |q| ==> q[i] != q[j])
    && (forall i {:trigger next[q[i]]} {:trigger Successor(q, i)} :: 0 <= i < |q| ==> next[q[i]] == Successor(q, i))
  }

  function Successor(q: seq<int>, i: nat): int
    requires i < |q|
  {
    if i + 1 < |q| then q[i + 1] else NIL
  }

  ghost predicate List(next: seq<int>, head: int, tail: int, q: seq<int>) {
    && Chain(next, q)
    && head == (if q == [] then NIL else q[0])
    && tail == (if q == [] then NIL else q[|q| - 1])
  }

  /** The links of a list depend on its own nodes only. */
  lemma ChainFrame(next: seq<int>, other: seq<int>, q: seq<int>)
    requires Chain(next, q) && |other| == |next|
    requires forall i :: 0 <= i < |q| ==> other[q[i]] == next[q[i]]
    ensures Chain(other, q)
  {
  }

  /** Linking a new node behind the tail. */
  lemma AppendNode(next: seq<int>, q: seq<int>, t: int)
    requires Chain(next, q) && 0 <= t < |next| && t !in q
    ensures var linked := next[t := NIL];
            Chain(if q == [] then linked else linked[q[|q| - 1] := t], q + [t])
  {
    hide Successor;
    var r := q + [t];
    var after := if q == [] then next[t := NIL] else next[t := NIL][q[|q| - 1] := t];
    forall i | 0 <= i < |r| ensures after[r[i]] == Successor(r, i) {
      SuccessorIs(r, i);
      if i < |q| {
        assert r[i] == q[i] && next[q[i]] == Successor(q, i);
        SuccessorIs(q, i);
      }
    }
  }

  lemma SuccessorIs(q: seq<int>, i: nat)
    requires i < |q|
    ensures Successor(q, i) == if i + 1 < |q| then q[i + 1] else NIL
  {
  }

  /** Linking a new node before the head. */
  lemma PushNode(next: seq<int>, q: seq<int>, t: int)
    requires Chain(next, q) && 0 <= t < |next| && t !in q
    ensures Chain(next[t := if q == [] then NIL else q[0]], [t] + q)
  {
    hide Successor;
    var r := [t] + q;
    var after := next[t := if q == [] then NIL else q[0]];
    forall i | 0 <= i < |r| ensures after[r[i]] == Successor(r, i) {
      SuccessorIs(r, i);
      if i > 0 {
        assert r[i] == q[i - 1] && next[q[i - 1]] == Successor(q, i - 1);
        SuccessorIs(q, i - 1);
      }
    }
  }

  lemma ChainTail(next: seq<int>, q: seq<int>)
    requires Chain(next, q) && q != []
    ensures Chain(next, q[1..]) && q[0] !in q[1..]
    ensures next[q[0]] == if |q| > 1 then q[1] else NIL
  {
    var r := q[1..];
    forall i | 0 <= i < |r| ensures next[r[i]] == Successor(r, i) {
      assert r[i] == q[i + 1] && Successor(r, i) == Successor(q, i + 1);
    }
  }

  function Without<T>(q: seq<T>, k: nat): (r: seq<T>)
    requires k < |q|
    ensures |r| == |q| - 1
    ensures forall i :: 0 <= i < |r| ==> r[i] == if i < k then q[i] else q[i + 1]
  {
    q[..k] + q[k + 1..]
  }

  /** Unlinking node k: its predecessor takes over its link, and its own link is cleared. */
  lemma UnlinkNode(next: seq<int>, q: seq<int>, k: nat)
    requires Chain(next, q) && k < |q|
    ensures var bypass := if k == 0 then next else next[q[k - 1] := next[q[k]]];
            Chain(bypass[q[k] := NIL], Without(q, k))
  {
    hide Successor;
    var bypass := if k == 0 then next else next[q[k - 1] := next[q[k]]];
    var after := bypass[q[k] := NIL];
    var r := Without(q, k);
    forall i | 0 <= i < |r| ensures after[r[i]] == Successor(r, i) {
      var at := if i < k then i else i + 1;
      UnlinkedSuccessor(q, k, i);
      if k > 0 && at == k - 1 {
        assert after[q[at]] == next[q[k]];
      } else {
        assert after[q[at]] == next[q[at]];
      }
    }
  }

  lemma UnlinkedSuccessor(q: seq<int>, k: nat, i: nat)
    requires k < |q| && i < |q| - 1
    ensures Successor(Without(q, k), i)
            == Successor(q, if k > 0 && i == k - 1 then k else if i < k then i else i + 1)
  {
  }

  lemma WithoutMembers<T>(q: seq<T>, k: nat, t: T)
    requires k < |q| && forall i, j :: 0 <= i < j < |q| ==> q[i] != q[j]
    ensures t in Without(q, k) <==> t in q && t != q[k]
  {
    var r := Without(q, k);
    if t in q && t != q[k] {
      var i :| 0 <= i < |q| && q[i] == t;
      assert r[if i < k then i else i - 1] == t;
    }
  }

  // ---- Families of lists over one table ----------------------------------------------------

  /** Every queue of a family is linked from its head to its tail. */
  ghost predicate Linked(next: seq<int>, head: seq<int>, tail: seq<int>, qs: seq<seq<int>>) {
    && |head| == |tail| == |qs|
    && forall k :: 0 <= k < |qs| ==> List(next, head[k], tail[k], qs[k])
  }

  /** The flagged nodes are exactly the queued ones, each in the queue its key names. Node 0
      is never queued. */
  ghost predicate Sorted(key: seq<int>, queued: seq<bool>, qs: seq<seq<int>>) {
    && |key| == |queued|
    && (forall k, t {:trigger t in qs[k]} :: 0 <= k < |qs| && t in qs[k] ==> 0 < t < |key| && key[t] == k && queued[t])
    && (forall t :: 0 <= t < |key| && queued[t] ==> 0 <= key[t] < |qs| && t in qs[key[t]])
  }

  /** Relinking two nodes leaves a list that contains neither alone. */
  lemma ChainElsewhere(next: seq<int>, after: seq<int>, q: seq<int>, a: int, b: int)
    requires Chain(next, q) && |after| == |next| && a !in q && b !in q
    requires forall i :: 0 <= i < |next| && i != a && i != b ==> after[i] == next[i]
    ensures Chain(after, q)
  {
    ChainFrame(next, after, q);
  }

  lemma ListMember(next: seq<int>, q: seq<int>, t: int)
    requires Chain(next, q) && t in q
    ensures 0 <= t < |next|
  {
  }

  function Joined(next: seq<int>, last: int, t: int): (r: seq<int>)
    requires 0 <= t < |next| && (last == NIL || 0 <= last < |next|)
    ensures |r| == |next|
  {
    if last != NIL then next[t := NIL][last := t] else next[t := NIL]
  }

  function Bypassed(next: seq<int>, prev: int, t: int): (r: seq<int>)
    requires 0 <= t < |next| && (prev == NIL || 0 <= prev < |next|)
    ensures |r| == |next|
  {
    (if prev != NIL then next[prev := next[t]] else next)[t := NIL]
  }

  lemma FamilySizes(key: seq<int>, queued: seq<bool>, next: seq<int>, head: seq<int>, tail: seq<int>, qs: seq<seq<int>>)
    requires Sorted(key, queued, qs) && Linked(next, head, tail, qs)
    ensures |head| == |tail| == |qs| && |key| == |queued|
  {
  }

  lemma NotQueued(key: seq<int>, queued: seq<bool>, qs: seq<seq<int>>, t: int, k: int)
    requires Sorted(key, queued, qs) && 0 <= t < |key| && 0 <= k < |qs| && (!queued[t] || key[t] != k)
    ensures t !in qs[k]
  {
  }

  lemma QueuedIs(key: seq<int>, queued: seq<bool>, qs: seq<seq<int>>, t: int, k: int)
    requires Sorted(key, queued, qs) && 0 <= k < |qs| && t in qs[k]
    ensures 0 < t < |key| && key[t] == k && queued[t]
  {
  }

  lemma TailIs(next: seq<int>, head: seq<int>, tail: seq<int>, qs: seq<seq<int>>, k: int)
    requires Linked(next, head, tail, qs) && 0 <= k < |qs|
    ensures Chain(next, qs[k])
    ensures qs[k] == [] ==> tail[k] == head[k] == NIL
    ensures qs[k] != [] ==> tail[k] == qs[k][|qs[k]| - 1] && tail[k] in qs[k] && 0 <= tail[k] < |next|
                            && head[k] == qs[k][0] && head[k] in qs[k] && 0 <= head[k] < |next|
  {
    assert List(next, head[k], tail[k], qs[k]);
    if qs[k] != [] {
      ListMember(next, qs[k], tail[k]);
      ListMember(next, qs[k], head[k]);
    }
  }

  /** Appending an unqueued node to queue k. */
  lemma FamilyAppend(key: seq<int>, queued: seq<bool>, next: seq<int>, head: seq<int>, tail: seq<int>,
                     qs: seq<seq<int>>, k: int, t: int)
    requires Sorted(key, queued, qs) && Linked(next, head, tail, qs) && |next| == |key|
    requires 0 <= k < |qs| && 0 < t < |next| && !queued[t]
    ensures |head| == |tail| == |qs| && |key| == |queued|
    ensures tail[k] == NIL || 0 <= tail[k] < |next|
    ensures Linked(Joined(next, tail[k], t), if tail[k] != NIL then head else head[k := t], tail[k := t],
                   qs[k := qs[k] + [t]])
    ensures Sorted(key[t := k], queued[t := true], qs[k := qs[k] + [t]])
  {
    hide Chain, Sorted, Linked;
    FamilySizes(key, queued, next, head, tail, qs);
    TailIs(next, head, tail, qs, k);
    NotQueued(key, queued, qs, t, k);
    AppendNode(next, qs[k], t);
    var after := Joined(next, tail[k], t);
    forall o | 0 <= o < |qs| && o != k
      ensures Chain(after, qs[o]) && List(next, head[o], tail[o], qs[o])
    {
      NotQueued(key, queued, qs, t, o);
      if tail[k] in qs[o] {
        QueuedIs(key, queued, qs, tail[k], o);
        QueuedIs(key, queued, qs, tail[k], k);
      }
      TailIs(next, head, tail, qs, o);
      ChainElsewhere(next, after, qs[o], t, tail[k]);
    }
    LinkedFrom(next, head, tail, qs, after, if tail[k] != NIL then head else head[k := t], tail[k := t], k,
      qs[k] + [t]);
    SortedAppend(key, queued, qs, k, t);
  }

  /** A family after one of its queues is replaced. */
  lemma LinkedFrom(next: seq<int>, head: seq<int>, tail: seq<int>, qs: seq<seq<int>>,
                   after: seq<int>, head': seq<int>, tail': seq<int>, k: int, q: seq<int>)
    requires Linked(next, head, tail, qs) && 0 <= k < |qs|
    requires |head'| == |head| && |tail'| == |tail| && List(after, head'[k], tail'[k], q)
    requires forall o :: 0 <= o < |qs| && o != k ==> head'[o] == head[o] && tail'[o] == tail[o]
    requires forall o :: 0 <= o < |qs| && o != k ==> Chain(after, qs[o])
    ensures Linked(after, head', tail', qs[k := q])
  {
    hide Chain;
  }

  lemma SortedAppend(key: seq<int>, queued: seq<bool>, qs: seq<seq<int>>, k: int, t: int)
    requires Sorted(key, queued, qs) && 0 <= k < |qs| && 0 < t < |key| && !queued[t]
    ensures Sorted(key[t := k], queued[t := true], qs[k := qs[k] + [t]])
  {
  }

  /** Unlinking the i-th node of queue k. */
  lemma FamilyRemove(key: seq<int>, queued: seq<bool>, next: seq<int>, head: seq<int>, tail: seq<int>,
                     qs: seq<seq<int>>, k: int, i: nat)
    requires Sorted(key, queued, qs) && Linked(next, head, tail, qs) && |next| == |key|
    requires 0 <= k < |qs| && i < |qs[k]|
    ensures var t := qs[k][i];
            var prev := if i == 0 then NIL else qs[k][i - 1];
            && 0 < t < |next| && queued[t] && key[t] == k && (i > 0 ==> 0 < prev < |next|)
            && Linked(Bypassed(next, prev, t), if prev != NIL then head else head[k := next[t]],
                      if tail[k] == t then tail[k := prev] else tail, qs[k := Without(qs[k], i)])
            && Sorted(key, queued[t := false], qs[k := Without(qs[k], i)])
  {
    hide Chain, Sorted, Linked;
    FamilySizes(key, queued, next, head, tail, qs);
    var q := qs[k];
    var t := q[i];
    var prev := if i == 0 then NIL else q[i - 1];
    TailIs(next, head, tail, qs, k);
    QueuedIs(key, queued, qs, t, k);
    if i > 0 { QueuedIs(key, queued, qs, prev, k); }
    UnlinkNode(next, q, i);
    ChainEnds(next, q, i);
    var after := Bypassed(next, prev, t);
    forall o | 0 <= o < |qs| && o != k ensures Chain(after, qs[o]) {
      NotQueued(key, queued, qs, t, o);
      if prev in qs[o] { QueuedIs(key, queued, qs, prev, o); }
      TailIs(next, head, tail, qs, o);
      ChainElsewhere(next, after, qs[o], t, prev);
    }
    LinkedFrom(next, head, tail, qs, after, if prev != NIL then head else head[k := next[t]],
               if tail[k] == t then tail[k := prev] else tail, k, Without(q, i));
    SortedRemove(key, queued, next, qs, k, i);
  }

  lemma SortedRemove(key: seq<int>, queued: seq<bool>, next: seq<int>, qs: seq<seq<int>>, k: int, i: nat)
    requires Sorted(key, queued, qs) && 0 <= k < |qs| && i < |qs[k]| && Chain(next, qs[k])
    ensures qs[k][i] in qs[k] && 0 < qs[k][i] < |key|
    ensures Sorted(key, queued[qs[k][i] := false], qs[k := Without(qs[k], i)])
  {
    assert qs[k][i] in qs[k];
    forall t ensures t in Without(qs[k], i) <==> t in qs[k] && t != qs[k][i] {
      WithoutMembers(qs[k], i, t);
    }
  }

  /** Head and tail of a list after its k-th node is unlinked. */
  lemma ChainEnds(next: seq<int>, q: seq<int>, k: nat)
    requires Chain(next, q) && k < |q|
    ensures var r := Without(q, k);
            && (if r == [] then NIL else r[0]) == (if k == 0 then next[q[k]] else q[0])
            && (if r == [] then NIL else r[|r| - 1])
               == (if q[|q| - 1] == q[k] then (if k == 0 then NIL else q[k - 1]) else q[|q| - 1])
  {
    assert next[q[k]] == Successor(q, k);
  }
}
