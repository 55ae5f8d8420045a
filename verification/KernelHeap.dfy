/** The kernel heap: blocks with a size word in front, and a linked list of the free ones. */
module KernelHeap {
  import opened Common

  const NODE: nat := 16
  const WORD: nat := 8

  /** The bytes taken for n: a size word and n bytes, rounded up to 16, in 64 bits. */
  function Need(n: nat): nat { (n + WORD + 15) % LIMIT64 / 16 * 16 }

  /** They suffice exactly when the sum does not wrap. */
  lemma NeedSuffices(n: nat)
    requires 0 < n < LIMIT64
    ensures Need(n) >= n + WORD <==> n + WORD + 15 < LIMIT64
    ensures n + WORD + 15 < LIMIT64 ==> Need(n) >= NODE
    ensures n + WORD + 15 >= LIMIT64 ==> Need(n) == 0 || Need(n) == NODE
  {
  }

  /** The heap in memory: size words and links, by address, and the first free block. */
  datatype Heap = Heap(start: nat, end: nat, sizes: map<nat, nat>, nexts: map<nat, nat>, head: nat)

  /** The size word at an address. */
  function SizeAt(h: Heap, a: nat): nat { if a in h.sizes then h.sizes[a] else 0 }

  ghost predicate FirstFit(h: Heap, free: seq<nat>, i: nat, need: nat) {
    i < |free| && SizeAt(h, free[i]) >= need && forall j :: 0 <= j < i ==> SizeAt(h, free[j]) < need
  }

  /** Blocks tile the heap in this order. */
  ghost predicate Tiles(h: Heap, order: seq<nat>) {
    |order| > 0 && order[0] == h.start && forall i :: 0 <= i < |order| ==> BlockOk(h, order, i)
  }

  /** Block i ends where the next one begins, and the last one at the end of the heap. */
  ghost predicate BlockOk(h: Heap, order: seq<nat>, i: nat)
    requires i < |order|
  {
    order[i] in h.sizes && h.sizes[order[i]] >= NODE && order[i] + h.sizes[order[i]] == After(h, order, i + 1)
  }

  ghost function After(h: Heap, order: seq<nat>, i: nat): nat { if i < |order| then order[i] else h.end }

  /** Blocks do not overlap. */
  lemma {:induction false} TilesApart(h: Heap, order: seq<nat>, i: nat, j: nat)
    requires Tiles(h, order) && i < j <= |order|
    ensures BlockOk(h, order, i)
    ensures order[i] + h.sizes[order[i]] <= After(h, order, j)
    decreases j
  {
    assert BlockOk(h, order, i);
    if i + 1 < j {
      TilesApart(h, order, i, j - 1);
      assert BlockOk(h, order, j - 1);
    }
  }

  /** The free list links these blocks; 0 ends it. */
  ghost predicate Linked(h: Heap, free: seq<nat>) {
    && h.head == At(free, 0)
    && forall i :: 0 <= i < |free| ==> free[i] in h.nexts && h.nexts[free[i]] == At(free, i + 1)
  }

  ghost function At(free: seq<nat>, i: nat): nat { if i < |free| then free[i] else 0 }

  ghost predicate Sound(h: Heap, order: seq<nat>, free: seq<nat>) {
    && 0 < h.start && Tiles(h, order) && Linked(h, free) && Distinct(free)
    && forall i :: 0 <= i < |free| ==> free[i] in order
  }

  /** A block that is handed out. */
  ghost predicate Live(order: seq<nat>, free: seq<nat>, a: nat) { a in order && a !in free }

  /** Two blocks, handed out or free, have no byte in common, and lie in the heap. */
  lemma NoOverlap(h: Heap, order: seq<nat>, free: seq<nat>, a: nat, b: nat)
    requires Sound(h, order, free) && a in order && b in order && a < b
    ensures a in h.sizes && b in h.sizes && h.start <= a && a + h.sizes[a] <= b && b + h.sizes[b] <= h.end
  {
    var i :| 0 <= i < |order| && order[i] == a;
    var j :| 0 <= j < |order| && order[j] == b;
    assert BlockOk(h, order, i) && BlockOk(h, order, j);
    if i < j {
      TilesApart(h, order, i, j);
    } else {
      TilesApart(h, order, j, i);
    }
    if i > 0 {
      TilesApart(h, order, 0, i);
    }
    TilesApart(h, order, j, |order|);
  }

  // ---- Steps ---------------------------------------------------------------------------------

  /** The link that led to position i of the free list leads to `to`. */
  function Relink(h: Heap, prev: nat, to: nat): Heap {
    if prev == 0 then h.(head := to) else h.(nexts := h.nexts[prev := to])
  }

  /** Block cur is cut after `need` bytes, and the rest takes its place in the free list. */
  function SplitAt(h: Heap, prev: nat, cur: nat, need: nat): Heap
    requires cur in h.sizes && cur in h.nexts && need <= h.sizes[cur]
  {
    var rest := cur + need;
    Relink(h.(sizes := h.sizes[rest := h.sizes[cur] - need][cur := need], nexts := h.nexts[rest := h.nexts[cur]]),
           prev, rest)
  }

  function Inserted(order: seq<nat>, k: nat, a: nat): seq<nat>
    requires k < |order|
  {
    order[..k + 1] + [a] + order[k + 1..]
  }

  lemma SplitTiles(h: Heap, order: seq<nat>, k: nat, need: nat, g: Heap)
    requires Tiles(h, order) && k < |order| && BlockOk(h, order, k) && NODE <= need && need + NODE <= h.sizes[order[k]]
    requires g.start == h.start && g.end == h.end
    requires g.sizes == h.sizes[order[k] + need := h.sizes[order[k]] - need][order[k] := need]
    ensures Tiles(g, Inserted(order, k, order[k] + need)) && order[k] + need !in order
  {
    var cur := order[k];
    var os := Inserted(order, k, cur + need);
    forall j | 0 <= j < |order| ensures order[j] != cur + need && (j != k ==> order[j] != cur) {
      assert BlockOk(h, order, j);
      if j < k {
        TilesApart(h, order, j, k);
      } else if k < j {
        TilesApart(h, order, k, j);
      }
    }
    forall i | 0 <= i < |os| ensures BlockOk(g, os, i) {
      if i <= k {
        assert BlockOk(h, order, i);
      } else if i > k + 1 {
        assert BlockOk(h, order, i - 1);
        assert os[i] == order[i - 1];
      }
    }
  }

  function Before(free: seq<nat>, i: nat): nat
    requires i <= |free|
  {
    if i == 0 then 0 else free[i - 1]
  }

  /** Blocks do not begin at 0. */
  lemma NotNull(h: Heap, order: seq<nat>, k: nat)
    requires Tiles(h, order) && 0 < h.start && k < |order|
    ensures order[k] >= h.start && BlockOk(h, order, k) && order[k] + h.sizes[order[k]] <= h.end
  {
    assert BlockOk(h, order, k);
    if k > 0 {
      TilesApart(h, order, 0, k);
    }
    TilesApart(h, order, k, |order|);
  }

  lemma SplitSound(h: Heap, order: seq<nat>, free: seq<nat>, i: nat, k: nat, need: nat)
    requires Sound(h, order, free) && i < |free| && k < |order| && free[i] == order[k]
    requires free[i] in h.sizes && free[i] in h.nexts && NODE <= need && need + NODE <= h.sizes[free[i]]
    ensures var rest := free[i] + need;
            Sound(SplitAt(h, Before(free, i), free[i], need), Inserted(order, k, rest), free[i := rest])
    ensures free[i] + need !in order
  {
    hide Tiles, BlockOk, Linked;
    var cur, rest := free[i], free[i] + need;
    var g, fs, os := SplitAt(h, Before(free, i), cur, need), free[i := rest], Inserted(order, k, rest);
    NotNull(h, order, k);
    SplitTiles(h, order, k, need, g);
    forall j | 0 <= j < |fs| ensures fs[j] in os && free[j] > 0 && free[j] != rest {
      Positive(h, order, free[j]);
      if j != i {
        InOrder(order, k, rest, free[j]);
      } else {
        assert os[k + 1] == rest;
      }
    }
    SplitLinked(h, free, i, need);
  }

  lemma SplitLinked(h: Heap, free: seq<nat>, i: nat, need: nat)
    requires Linked(h, free) && Distinct(free) && i < |free| && free[i] in h.sizes && need <= h.sizes[free[i]]
    requires forall j :: 0 <= j < |free| ==> free[j] > 0 && free[j] != free[i] + need
    ensures Linked(SplitAt(h, Before(free, i), free[i], need), free[i := free[i] + need])
    ensures Distinct(free[i := free[i] + need])
  {
    var g, fs := SplitAt(h, Before(free, i), free[i], need), free[i := free[i] + need];
    forall j | 0 <= j < |fs| ensures fs[j] in g.nexts && g.nexts[fs[j]] == At(fs, j + 1) {
      assert free[j] in h.nexts && h.nexts[free[j]] == At(free, j + 1);
    }
  }

  lemma InOrder(order: seq<nat>, k: nat, a: nat, x: nat)
    requires k < |order| && x in order
    ensures x in Inserted(order, k, a)
  {
    var j :| 0 <= j < |order| && order[j] == x;
    if j <= k {
      assert Inserted(order, k, a)[j] == x;
    } else {
      assert Inserted(order, k, a)[j + 1] == x;
    }
  }

  lemma Positive(h: Heap, order: seq<nat>, x: nat)
    requires Tiles(h, order) && 0 < h.start && x in order
    ensures x > 0
  {
    var j :| 0 <= j < |order| && order[j] == x;
    NotNull(h, order, j);
  }

  function Cut(free: seq<nat>, i: nat): seq<nat>
    requires i < |free|
  {
    free[..i] + free[i + 1..]
  }

  lemma TakeSound(h: Heap, order: seq<nat>, free: seq<nat>, i: nat)
    requires Sound(h, order, free) && i < |free| && free[i] in h.nexts
    ensures Sound(Relink(h, Before(free, i), h.nexts[free[i]]), order, Cut(free, i))
    ensures free[i] !in Cut(free, i)
  {
    var g, fs := Relink(h, Before(free, i), h.nexts[free[i]]), Cut(free, i);
    if i > 0 {
      Positive(h, order, free[i - 1]);
    }
    forall j | 0 <= j < |fs| ensures fs[j] == free[if j < i then j else j + 1] && fs[j] in order && fs[j] != free[i] {}
    forall j | 0 <= j < |fs| ensures fs[j] in g.nexts && g.nexts[fs[j]] == At(fs, j + 1) {}
    forall j | 0 <= j < |order| ensures BlockOk(g, order, j) {
      assert BlockOk(h, order, j);
    }
  }

  function Returned(h: Heap, a: nat): Heap { h.(nexts := h.nexts[a := h.head], head := a) }

  lemma ReturnSound(h: Heap, order: seq<nat>, free: seq<nat>, a: nat)
    requires Sound(h, order, free) && Live(order, free, a)
    ensures Sound(Returned(h, a), order, [a] + free)
  {
    var g, fs := Returned(h, a), [a] + free;
    forall j | 0 <= j < |order| ensures BlockOk(g, order, j) {
      assert BlockOk(h, order, j);
    }
    forall j | 0 <= j < |fs| ensures fs[j] in g.nexts && g.nexts[fs[j]] == At(fs, j + 1) {
      if j > 0 {
        assert fs[j] == free[j - 1];
      }
    }
  }

  // ---- The allocator -------------------------------------------------------------------------

  datatype Event = Malloc(n: nat) | Free(p: nat)

  class Allocator {
    var h: Heap
    ghost var order: seq<nat>
    ghost var free: seq<nat>

    constructor (base: nat, size: nat)
      requires base > 0 && size >= NODE
      ensures Sound(h, order, free) && order == [base] == free && h.start == base && h.end == base + size
    {
      h := Heap(base, base + size, map[base := size], map[base := 0], base);
      order, free := [base], [base];
      new;
      assert BlockOk(h, order, 0);
    }

    /** The first free block that is large enough, cut down when enough of it remains. What is
        returned is behind the size word of a block of its own; 0 is none. The heap stays sound
        exactly unless the size wraps to nothing and the first free block is large. */
    method Kmalloc(n: nat) returns (p: nat)
      requires Sound(h, order, free) && n < LIMIT64
      modifies this
      ensures p == 0 <==> n == 0 || forall i :: 0 <= i < old(|free|) ==> SizeAt(old(h), old(free)[i]) < Need(n)
      ensures p == 0 ==> h == old(h) && order == old(order) && free == old(free)
      ensures p != 0 ==>
                exists i: nat :: FirstFit(old(h), old(free), i, Need(n)) && p == old(free)[i] + WORD
                  && (Overruns(n, old(h), old(free)) || free == Taken(old(h), old(free), i, Need(n)))
      ensures Sound(h, order, free) <==> !Overruns(n, old(h), old(free))
      ensures Overruns(n, old(h), old(free)) ==> Broken(h)
      ensures !Overruns(n, old(h), old(free)) ==> Handed(old(h), old(order), old(free), h, order, free, p, Need(n))
      ensures p != 0 && n + WORD + 15 < LIMIT64 ==> n + WORD <= SizeAt(h, p - WORD)
    {
      p := 0;
      if n == 0 {
        return;
      }
      NeedSuffices(n);
      hide Need, Tiles, Linked;
      var need := Need(n);
      var prev, cur := 0, h.head;
      ghost var i := 0;
      Sizes(h, order, free);
      First(h, order, free);
      while cur != 0
        invariant 0 <= i <= |free| && cur == At(free, i) && prev == Before(free, i)
        invariant h == old(h) && order == old(order) && free == old(free)
        invariant forall j :: 0 <= j < i ==> h.sizes[free[j]] < need
        decreases |free| - i
      {
        if h.sizes[cur] >= need {
          assert FirstFit(h, free, i, need);
          if need == 0 {
            GrantNothing(cur);
          } else {
            Grant(prev, cur, need, i);
          }
          return cur + WORD;
        }
        Following(h, order, free, i);
        prev, cur := cur, h.nexts[cur];
        i := i + 1;
      }
      NoneLeft(h, order, free, i);
    }

    /** Takes no bytes off the first free block: a large one stays in the list with a size of 0. */
    method GrantNothing(cur: nat)
      requires Sound(h, order, free) && free != [] && cur == free[0] && cur in h.sizes && cur in h.nexts && cur in order
      modifies this
      ensures SizeAt(old(h), cur) >= 2 * NODE ==> Broken(h) && !Sound(h, order, free)
      ensures SizeAt(old(h), cur) < 2 * NODE ==>
                && Sound(h, order, free) && Handed(old(h), old(order), old(free), h, order, free, cur + WORD, 0)
                && free == Taken(old(h), old(free), 0, 0)
    {
      hide Tiles, Linked;
      Sizes(h, order, free);
      if h.sizes[cur] >= 2 * NODE {
        h := SplitAt(h, 0, cur, 0);
        if Sound(h, order, free) {
          SoundNotBroken(h, order, free);
        }
      } else {
        TakeSound(h, order, free, 0);
        h := Relink(h, 0, h.nexts[cur]);
        free := Cut(free, 0);
      }
    }

    /** Takes block cur, at place i of the free list. */
    method Grant(prev: nat, cur: nat, need: nat, ghost i: nat)
      requires Sound(h, order, free) && i < |free| && cur == free[i] && prev == Before(free, i) && need >= NODE
      requires cur in h.sizes && cur in h.nexts && cur in order && h.sizes[cur] >= need
      modifies this
      ensures Sound(h, order, free) && Handed(old(h), old(order), old(free), h, order, free, cur + WORD, need)
      ensures free == Taken(old(h), old(free), i, need)
    {
      hide Tiles, Linked;
      Sizes(h, order, free);
      var remaining := h.sizes[cur] - need;
      if remaining >= 2 * NODE {
        ghost var k :| 0 <= k < |order| && order[k] == cur;
        SplitSound(h, order, free, i, k, need);
        SplitLive(h, order, free, i, k, cur + need);
        h := SplitAt(h, prev, cur, need);
        order, free := Inserted(order, k, cur + need), free[i := cur + need];
      } else {
        TakeSound(h, order, free, i);
        h := Relink(h, prev, h.nexts[cur]);
        free := Cut(free, i);
      }
    }

    /** Gives a block back; pointers outside the heap are left alone. */
    method Kfree(p: nat)
      requires Sound(h, order, free)
      requires h.start <= p < h.end ==> p >= WORD && Live(order, free, p - WORD)
      modifies this
      ensures Sound(h, order, free) && order == old(order) && h.sizes == old(h.sizes) && h.start == old(h.start)
      ensures h.end == old(h.end)
      ensures free == (if h.start <= p < h.end then [p - WORD] else []) + old(free)
    {
      if p == 0 || p < h.start || p >= h.end {
        assert free == [] + free;
        return;
      }
      ReturnSound(h, order, free, p - WORD);
      h := Returned(h, p - WORD);
      free := [p - WORD] + free;
    }

    /** In every run of allocations, and frees of what was allocated, the blocks tile the heap and
        those handed out stay handed out, up to a request whose size wraps to nothing; k is how
        many were served. */
    method Run(events: seq<Event>) returns (given: set<nat>, k: nat, ghost trace: seq<Loan>)
      requires Sound(h, order, free)
      modifies this
      ensures Sound(h, order, free) && k <= |events|
      ensures k < |events| ==> events[k].Malloc? && (events[k].n >= LIMIT64 || Overruns(events[k].n, h, free))
      ensures forall p :: p in given ==> p > WORD && Live(order, free, p - WORD)
      ensures forall a: nat :: Live(order, free, a) ==> a + WORD in given || Live(old(order), old(free), a)
      ensures |trace| == k + 1 && trace[0] == Loan(old(h), old(free), {}) && trace[k] == Loan(h, free, given)
      ensures forall i :: 0 <= i < k ==> Did(events[i], trace[i], trace[i + 1])
    {
      hide Sound, Need, Did;
      given, k := {}, 0;
      trace := [Loan(h, free, given)];
      while k < |events|
        invariant k <= |events| && Sound(h, order, free)
        invariant forall p :: p in given ==> p > WORD && Live(order, free, p - WORD)
        invariant forall a: nat :: Live(order, free, a) ==> a + WORD in given || Live(old(order), old(free), a)
        invariant |trace| == k + 1 && trace[0] == Loan(old(h), old(free), {}) && trace[k] == Loan(h, free, given)
        invariant forall i :: 0 <= i < k ==> Did(events[i], trace[i], trace[i + 1])
      {
        FirstIs(h, order, free);
        match events[k] {
          case Malloc(n) =>
            if n >= LIMIT64 || (n > 0 && Need(n) == 0 && h.head != 0 && SizeAt(h, h.head) >= 2 * NODE) {
              return;
            }
          case Free(_) =>
        }
        given := Serve(events[k], given);
        trace := trace + [Loan(h, free, given)];
        k := k + 1;
      }
    }

    /** One request, among blocks that were given out and not given back. */
    method Serve(e: Event, given: set<nat>) returns (given': set<nat>)
      requires Sound(h, order, free) && (e.Malloc? ==> e.n < LIMIT64 && !Overruns(e.n, h, free))
      requires forall p :: p in given ==> p > WORD && Live(order, free, p - WORD)
      modifies this
      ensures Sound(h, order, free) && Did(e, Loan(old(h), old(free), given), Loan(h, free, given'))
      ensures forall p :: p in given' ==> p > WORD && Live(order, free, p - WORD)
      ensures forall a: nat :: Live(order, free, a) ==>
                a + WORD in given' || (Live(old(order), old(free), a) && a + WORD !in given)
    {
      hide Sound, Need, SizeAt, Taken, Broken;
      given' := given;
      match e
      case Malloc(n) =>
        var p := Kmalloc(n);
        if p != 0 {
          given' := given + {p};
        }
      case Free(p) =>
        if p in given {
          InHeap(h, order, free, p - WORD);
          Kfree(p);
          given' := given - {p};
        }
    }
  }

  /** The heap, its free list, and what was given out. */
  datatype Loan = Loan(h: Heap, free: seq<nat>, given: set<nat>)

  /** What a request does: an allocation gives out a block that was free, if one is large enough, and a
      block that is given back is the first of the free list. */
  ghost predicate Did(e: Event, v: Loan, w: Loan) {
    match e
    case Malloc(n) =>
      if n > 0 && exists i :: 0 <= i < |v.free| && SizeAt(v.h, v.free[i]) >= Need(n)
      then exists i: nat :: FirstFit(v.h, v.free, i, Need(n)) && v.free[i] + WORD !in v.given
                           && w.given == v.given + {v.free[i] + WORD} && w.free == Taken(v.h, v.free, i, Need(n))
      else w == v
    case Free(p) => if p in v.given then w.given == v.given - {p} && w.free == [p - WORD] + v.free else w == v
  }

  /** A request whose size wraps to nothing, met by a large block. */
  ghost predicate Overruns(n: nat, h: Heap, free: seq<nat>) {
    n > 0 && Need(n) == 0 && free != [] && SizeAt(h, free[0]) >= 2 * NODE
  }

  /** The first block of the free list has no size: no tiling of the heap fits it. */
  predicate Broken(h: Heap) { h.head != 0 && SizeAt(h, h.head) < NODE }

  lemma SoundNotBroken(h: Heap, order: seq<nat>, free: seq<nat>)
    requires Sound(h, order, free)
    ensures !Broken(h)
  {
    Sizes(h, order, free);
    if free != [] {
      var j :| 0 <= j < |order| && order[j] == free[0];
      assert BlockOk(h, order, j);
    }
  }

  /** What an allocation of `need` bytes does: p is behind the size word of a block that is handed
      out, of little more than that size, and no block handed out before changes. */
  ghost predicate Handed(h: Heap, order: seq<nat>, free: seq<nat>, h': Heap, order': seq<nat>, free': seq<nat>, p: nat,
                         need: nat) {
    && h'.start == h.start && h'.end == h.end
    && (p != 0 ==> p > WORD && Live(order', free', p - WORD) && need <= SizeAt(h', p - WORD) < need + 2 * NODE)
    && (forall a :: Live(order, free, a) ==> Live(order', free', a) && SizeAt(h', a) == SizeAt(h, a) && a != p - WORD)
    && forall a :: Live(order', free', a) ==> a == p - WORD || Live(order, free, a)
  }

  /** The free list after its block i was taken: a large one leaves its rest there, behind `need`
      bytes. */
  function Taken(h: Heap, free: seq<nat>, i: nat, need: nat): seq<nat>
    requires i < |free|
  {
    if SizeAt(h, free[i]) >= need + 2 * NODE then free[i := free[i] + need] else free[..i] + free[i + 1..]
  }

  lemma FirstIs(h: Heap, order: seq<nat>, free: seq<nat>)
    requires Sound(h, order, free)
    ensures h.head == At(free, 0) && (h.head == 0 <==> free == [])
  {
    Sizes(h, order, free);
  }

  lemma Sizes(h: Heap, order: seq<nat>, free: seq<nat>)
    requires Sound(h, order, free)
    ensures forall a :: a in order ==> a in h.sizes && a > 0
    ensures forall i :: 0 <= i < |free| ==> free[i] in order && free[i] in h.sizes && free[i] in h.nexts && free[i] > 0
  {
    forall a | a in order ensures a in h.sizes && a > 0 {
      var j :| 0 <= j < |order| && order[j] == a;
      NotNull(h, order, j);
    }
  }

  lemma First(h: Heap, order: seq<nat>, free: seq<nat>)
    requires Sound(h, order, free)
    ensures h.head == At(free, 0)
  {
  }

  lemma Following(h: Heap, order: seq<nat>, free: seq<nat>, i: nat)
    requires Sound(h, order, free) && i < |free|
    ensures free[i] in h.nexts && h.nexts[free[i]] == At(free, i + 1)
  {
  }

  lemma NoneLeft(h: Heap, order: seq<nat>, free: seq<nat>, i: nat)
    requires Sound(h, order, free) && i <= |free| && At(free, i) == 0
    ensures i == |free|
  {
    Sizes(h, order, free);
  }

  lemma InHeap(h: Heap, order: seq<nat>, free: seq<nat>, a: nat)
    requires Sound(h, order, free) && a in order
    ensures h.start <= a && a + NODE <= h.end
  {
    var j :| 0 <= j < |order| && order[j] == a;
    NotNull(h, order, j);
  }

  lemma SplitLive(h: Heap, order: seq<nat>, free: seq<nat>, i: nat, k: nat, rest: nat)
    requires Sound(h, order, free) && i < |free| && k < |order| && free[i] == order[k] && rest !in order
    ensures Live(Inserted(order, k, rest), free[i := rest], free[i])
    ensures forall a :: Live(order, free, a) ==> Live(Inserted(order, k, rest), free[i := rest], a)
    ensures forall a :: Live(Inserted(order, k, rest), free[i := rest], a) ==> a == free[i] || Live(order, free, a)
  {
    forall a | Live(Inserted(order, k, rest), free[i := rest], a) && a != free[i] ensures Live(order, free, a) {
      assert free[i := rest][i] == rest;
      forall j | 0 <= j < |free| ensures free[j] != a {
        assert free[i := rest][j] == if j == i then rest else free[j];
      }
    }
    assert order[k] in order;
    InOrder(order, k, rest, order[k]);
    forall a | Live(order, free, a) ensures Live(Inserted(order, k, rest), free[i := rest], a) {
      InOrder(order, k, rest, a);
    }
  }
}
