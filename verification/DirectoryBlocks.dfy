/** The blocks of a directory: chains of records that tile each block, read as the bindings of
    names to inodes they hold. */
module DirectoryBlocks {
  import opened Common
  import opened Bytes

  const HEADER: nat := 8

  type Name = seq<Byte>

  datatype Binding = Binding(name: Name, ino: nat, kind: Byte)

  /** A record begins at off and ends before hi: it is a multiple of four bytes long and has room
      for its name. */
  predicate RecordAt(b: seq<Byte>, off: nat, hi: nat) {
    && off + HEADER <= hi <= |b|
    && var len := U16Get(b, off + 4); len >= HEADER && Quad(len) && off + len <= hi && HEADER + b[off + 6] <= len
  }

  function Len(b: seq<Byte>, off: nat): nat
    requires off + HEADER <= |b|
  {
    U16Get(b, off + 4)
  }

  function Ino(b: seq<Byte>, off: nat): nat
    requires off + HEADER <= |b|
  {
    U32Get(b, off)
  }

  function NameAt(b: seq<Byte>, off: nat): Name
    requires off + HEADER <= |b| && off + HEADER + b[off + 6] <= |b|
  {
    b[off + HEADER..off + HEADER + b[off + 6]]
  }

  /** Records tile the bytes from lo to hi. */
  predicate Tiled(b: seq<Byte>, lo: nat, hi: nat)
    decreases hi - lo
  {
    lo == hi <= |b| || (lo < hi && RecordAt(b, lo, hi) && Tiled(b, lo + Len(b, lo), hi))
  }

  /** The binding of one record, if it is in use. */
  function Held(b: seq<Byte>, off: nat): seq<Binding>
    requires off + HEADER <= |b| && off + HEADER + b[off + 6] <= |b|
  {
    if Ino(b, off) == 0 then [] else [Binding(NameAt(b, off), Ino(b, off), b[off + 7])]
  }

  /** The bindings of the records from lo to hi, in order. */
  function View(b: seq<Byte>, lo: nat, hi: nat): seq<Binding>
    requires Tiled(b, lo, hi)
    decreases hi - lo
  {
    if lo == hi then [] else Held(b, lo) + View(b, lo + Len(b, lo), hi)
  }

  lemma {:induction false} Chained(b: seq<Byte>, lo: nat, mid: nat, hi: nat)
    requires Tiled(b, lo, mid) && Tiled(b, mid, hi)
    ensures Tiled(b, lo, hi) && View(b, lo, hi) == View(b, lo, mid) + View(b, mid, hi)
    decreases mid - lo
  {
    if lo < mid {
      Chained(b, lo + Len(b, lo), mid, hi);
    }
  }

  /** A record depends on its own bytes alone. */
  lemma SameRecord(b: seq<Byte>, c: seq<Byte>, off: nat, hi: nat)
    requires RecordAt(b, off, hi) && hi <= |c| && forall i :: off <= i < off + HEADER + b[off + 6] ==> c[i] == b[i]
    ensures RecordAt(c, off, hi) && Len(c, off) == Len(b, off) && Held(c, off) == Held(b, off)
  {
    assert NameAt(c, off) == NameAt(b, off);
  }

  lemma {:induction false} Local(b: seq<Byte>, c: seq<Byte>, lo: nat, hi: nat)
    requires Tiled(b, lo, hi) && hi <= |c| && forall i :: lo <= i < hi ==> c[i] == b[i]
    ensures Tiled(c, lo, hi) && View(c, lo, hi) == View(b, lo, hi)
    decreases hi - lo
  {
    hide U16Get, U32Get, Held;
    if lo < hi {
      SameRecord(b, c, lo, hi);
      Local(b, c, lo + Len(b, lo), hi);
    }
  }

  /** One record is a chain. */
  lemma Single(b: seq<Byte>, off: nat, hi: nat)
    requires RecordAt(b, off, hi) && off + Len(b, off) == hi
    ensures Tiled(b, off, hi) && View(b, off, hi) == Held(b, off)
  {
  }

  /** The first record of a chain and the rest of it. */
  lemma Unchained(b: seq<Byte>, off: nat, hi: nat)
    requires Tiled(b, off, hi) && off < hi
    ensures RecordAt(b, off, hi) && Tiled(b, off + Len(b, off), hi)
    ensures Tiled(b, off, off + Len(b, off)) && View(b, off, off + Len(b, off)) == Held(b, off)
    ensures View(b, off, hi) == Held(b, off) + View(b, off + Len(b, off), hi)
  {
    Single(b, off, off + Len(b, off));
  }

  // ---- Lookup --------------------------------------------------------------------------------

  /** Index of the first binding of a name; the number of bindings when there is none. */
  function Find(es: seq<Binding>, name: Name): (k: nat)
    ensures k <= |es| && (k < |es| ==> es[k].name == name)
    ensures forall i :: 0 <= i < k ==> es[i].name != name
  {
    if es == [] then 0 else if es[0].name == name then 0 else 1 + Find(es[1..], name)
  }

  /** Whether the record at off is in use and has this name. */
  method Matches(b: seq<Byte>, off: nat, name: Name) returns (same: bool)
    requires off + HEADER <= |b| && off + HEADER + b[off + 6] <= |b|
    ensures same <==> Held(b, off) != [] && Held(b, off)[0].name == name
  {
    same := Ino(b, off) != 0 && b[off + 6] == |name|;
    var i := 0;
    while same && i < |name|
      invariant 0 <= i <= |name| && (same ==> Ino(b, off) != 0 && b[off + 6] == |name|)
      invariant same ==> NameAt(b, off)[..i] == name[..i]
      invariant !same ==> Ino(b, off) == 0 || NameAt(b, off) != name
      decreases |name| - i, same
    {
      if b[off + HEADER + i] != name[i] {
        same := false;
      } else {
        i := i + 1;
      }
    }
    assert same ==> NameAt(b, off) == name;
  }

  // ---- Adding a record -----------------------------------------------------------------------

  /** The bytes of a record's name are copied behind its header. */
  method CopyName(b: seq<Byte>, off: nat, name: Name) returns (c: seq<Byte>)
    requires off + |name| <= |b|
    ensures c == Splice(b, off, name)
  {
    c := b;
    var i := 0;
    while i < |name|
      invariant 0 <= i <= |name| && c == Splice(b, off, name[..i])
    {
      c := c[off + i := name[i]];
      i := i + 1;
    }
    assert name[..i] == name;
  }

  /** Free bytes behind the record at off, or all of it when it is unused. */
  function Avail(b: seq<Byte>, off: nat): int
    requires off + HEADER <= |b|
  {
    Len(b, off) - if Ino(b, off) != 0 then Align4(HEADER + b[off + 6]) else 0
  }

  /** Some record from lo to hi has room for `need` bytes. */
  predicate Fits(b: seq<Byte>, lo: nat, hi: nat, need: nat)
    requires Tiled(b, lo, hi)
    decreases hi - lo
  {
    lo < hi && (Avail(b, lo) >= need || Fits(b, lo + Len(b, lo), hi, need))
  }

  /** Only the bytes from lo to hi may differ. */
  ghost predicate SameOutside(b: seq<Byte>, c: seq<Byte>, lo: nat, hi: nat) {
    |c| == |b| && forall i :: 0 <= i < |b| && !(lo <= i < hi) ==> c[i] == b[i]
  }

  /** What fits a record: a nonzero 32-bit inode number and a name of at most 255 bytes. */
  predicate Storable(e: Binding) { 0 < e.ino < LIMIT32 && |e.name| < 256 }

  /** Fills in the record at off, keeping its length. */
  method PutBinding(b: seq<Byte>, off: nat, e: Binding) returns (c: seq<Byte>)
    requires Storable(e) && off + HEADER + |e.name| <= |b|
    ensures SameOutside(b, c, off, off + HEADER + |e.name|) && Len(c, off) == Len(b, off)
    ensures c[off + 6] == |e.name| && Held(c, off) == [e]
  {
    c := U32Set(b, off, e.ino);
    c := c[off + 6 := |e.name|];
    c := c[off + 7 := e.kind];
    c := CopyName(c, off + HEADER, e.name);
    assert Ino(c, off) == e.ino;
    assert NameAt(c, off) == e.name;
  }

  /** A record that shrank to its name and a new one behind it hold the old binding and the new. */
  lemma SplitView(b: seq<Byte>, c: seq<Byte>, off: nat, e: Binding)
    requires RecordAt(b, off, |b|) && Ino(b, off) != 0
    requires |c| == |b| && Storable(e) && Align4(HEADER + |e.name|) <= Avail(b, off)
    requires SameOutside(b, c, off + 4, off + Len(b, off))
    requires forall i :: off + 6 <= i < off + HEADER + b[off + 6] ==> c[i] == b[i]
    requires Len(c, off) == Align4(HEADER + b[off + 6])
    requires var at := off + Len(c, off);
             Len(c, at) == off + Len(b, off) - at && c[at + 6] == |e.name| && Held(c, at) == [e]
    ensures Tiled(c, off, off + Len(b, off)) && View(c, off, off + Len(b, off)) == Held(b, off) + [e]
  {
    var at, hi := off + Len(c, off), off + Len(b, off);
    hide Held, U16Get, U32Get, Align4, Quad;
    QuadSums(Len(b, off), Len(c, off));
    Shrunk(b, c, off);
    Single(c, at, hi);
    Single(c, off, at);
    Chained(c, off, at, hi);
  }

  lemma Shrunk(b: seq<Byte>, c: seq<Byte>, off: nat)
    requires RecordAt(b, off, |b|) && |c| == |b|
    requires forall i :: off <= i < off + HEADER + b[off + 6] && !(off + 4 <= i < off + 6) ==> c[i] == b[i]
    requires Len(c, off) == Align4(HEADER + b[off + 6])
    ensures RecordAt(c, off, off + Len(c, off)) && Held(c, off) == Held(b, off)
  {
    assert NameAt(c, off) == NameAt(b, off);
    assert Ino(c, off) == Ino(b, off);
  }

  /** Changing the bytes of a stretch of records changes the bindings of that stretch alone. */
  lemma Around(b: seq<Byte>, c: seq<Byte>, lo: nat, hi: nat)
    requires Tiled(b, 0, lo) && Tiled(b, lo, hi) && Tiled(b, hi, |b|)
    requires SameOutside(b, c, lo, hi) && lo <= hi && Tiled(c, lo, hi)
    ensures Tiled(b, 0, |b|) && Tiled(c, 0, |c|)
    ensures View(b, 0, |b|) == View(b, 0, lo) + View(b, lo, hi) + View(b, hi, |b|)
    ensures View(c, 0, |c|) == View(b, 0, lo) + View(c, lo, hi) + View(b, hi, |b|)
  {
    Local(b, c, 0, lo);
    Local(b, c, hi, |b|);
    Chained(b, 0, lo, hi);
    Chained(b, 0, hi, |b|);
    Chained(c, 0, lo, hi);
    Chained(c, 0, hi, |b|);
  }

  function Put(es: seq<Binding>, k: nat, e: Binding): seq<Binding>
    requires k <= |es|
  {
    es[..k] + [e] + es[k..]
  }

  function Cut(es: seq<Binding>, k: nat): seq<Binding>
    requires k < |es|
  {
    es[..k] + es[k + 1..]
  }

  /** A block whose records tile it. */
  predicate BlockOk(b: seq<Byte>) { |b| < LIMIT16 && Tiled(b, 0, |b|) }

  function Bindings(b: seq<Byte>): seq<Binding>
    requires BlockOk(b)
  {
    View(b, 0, |b|)
  }

  lemma SameLen(b: seq<Byte>, c: seq<Byte>, off: nat)
    requires off + HEADER <= |b| == |c| && c[off + 4] == b[off + 4] && c[off + 5] == b[off + 5]
    ensures Len(c, off) == Len(b, off)
  {
  }

  lemma Unused(b: seq<Byte>, off: nat)
    requires off + HEADER <= |b| && off + HEADER + b[off + 6] <= |b|
    ensures Ino(b, off) == 0 <==> Held(b, off) == []
    ensures Ino(b, off) != 0 ==> |Held(b, off)| == 1 && Held(b, off)[0].ino == Ino(b, off)
  {
  }

  /** Puts a binding behind the one that the record at off holds. */
  method InsertBehind(b: seq<Byte>, off: nat, e: Binding) returns (c: seq<Byte>)
    requires |b| < LIMIT16 && RecordAt(b, off, |b|) && Ino(b, off) != 0 && Storable(e)
    requires Avail(b, off) >= Align4(HEADER + |e.name|)
    ensures SameOutside(b, c, off, off + Len(b, off)) && Tiled(c, off, off + Len(b, off))
    ensures View(c, off, off + Len(b, off)) == Held(b, off) + [e]
  {
    hide U16Get, U32Get, Align4, Quad, Held;
    var len := Len(b, off);
    var ideal := Align4(HEADER + b[off + 6]);
    var at := off + ideal;
    var d := U16Set(b, off + 4, ideal);
    c := U16Set(d, at + 4, len - ideal);
    c := PutBinding(c, at, e);
    SameLen(d, c, off);
    SplitView(b, c, off, e);
  }

  /** Puts a binding into the record at off: behind the one it holds, or in its place. */
  method InsertAt(b: seq<Byte>, off: nat, e: Binding) returns (c: seq<Byte>, ghost k: nat)
    requires BlockOk(b) && Storable(e) && off < |b| && Tiled(b, 0, off) && Tiled(b, off, |b|)
    requires Avail(b, off) >= Align4(HEADER + |e.name|)
    ensures |c| == |b| && BlockOk(c) && k <= |Bindings(b)| && Bindings(c) == Put(Bindings(b), k, e)
  {
    hide U16Get, U32Get, Align4, Quad, Held, Tiled, View, Put;
    Unchained(b, off, |b|);
    Unused(b, off);
    var hi := off + Len(b, off);
    if Ino(b, off) != 0 {
      c := InsertBehind(b, off, e);
    } else {
      c := PutBinding(b, off, e);
      Single(c, off, hi);
      assert Held(b, off) + [e] == [e];
    }
    Around(b, c, off, hi);
    k := |View(b, 0, off) + Held(b, off)|;
    PutAfter(View(b, 0, off), Held(b, off), View(b, hi, |b|), e);
  }

  lemma PutAfter(front: seq<Binding>, held: seq<Binding>, rest: seq<Binding>, e: Binding)
    ensures Put(front + held + rest, |front + held|, e) == front + (held + [e]) + rest
  {
  }

  lemma CutAfter(front: seq<Binding>, held: seq<Binding>, one: seq<Binding>, rest: seq<Binding>)
    requires |one| == 1
    ensures Cut(front + (held + one) + rest, |front + held|) == front + held + rest
  {
  }

  /** Puts a binding into the first record with room for it. */
  method InsertInBlock(b: seq<Byte>, e: Binding) returns (done: bool, c: seq<Byte>, ghost k: nat)
    requires BlockOk(b) && Storable(e)
    ensures |c| == |b| && BlockOk(c) && k <= |Bindings(b)|
    ensures done <==> Fits(b, 0, |b|, Align4(HEADER + |e.name|))
    ensures Bindings(c) == if done then Put(Bindings(b), k, e) else Bindings(b)
  {
    hide U16Get, U32Get, Align4, Quad, Held;
    var need := Align4(HEADER + |e.name|);
    var off := 0;
    while off + HEADER <= |b|
      invariant off <= |b| && Tiled(b, 0, off) && Tiled(b, off, |b|)
      invariant Fits(b, 0, |b|, need) == Fits(b, off, |b|, need)
      decreases |b| - off
    {
      Unchained(b, off, |b|);
      if Avail(b, off) >= need {
        c, k := InsertAt(b, off, e);
        return true, c, k;
      }
      Chained(b, 0, off, off + Len(b, off));
      off := off + Len(b, off);
    }
    done, c, k := false, b, 0;
  }

  lemma {:induction false} FindAppend(es: seq<Binding>, fs: seq<Binding>, name: Name)
    ensures Find(es + fs, name) == if Find(es, name) < |es| then Find(es, name) else |es| + Find(fs, name)
  {
    if es == [] {
      assert es + fs == fs;
    } else {
      FindAppend(es[1..], fs, name);
      assert (es + fs)[1..] == es[1..] + fs;
    }
  }

  /** The records before off do not have the name. */
  ghost predicate Scanned(b: seq<Byte>, off: nat, name: Name) {
    off <= |b| && Tiled(b, 0, off) && Tiled(b, off, |b|) && Find(View(b, 0, off), name) == |View(b, 0, off)|
  }

  ghost predicate MatchAt(b: seq<Byte>, off: nat, name: Name) {
    && off + HEADER <= |b| && off + HEADER + b[off + 6] <= |b|
    && Held(b, off) != [] && Held(b, off)[0].name == name
  }

  /** A record that has the name is its first binding; one that has not is passed over. */
  lemma ScanStep(b: seq<Byte>, off: nat, name: Name)
    requires BlockOk(b) && Scanned(b, off, name) && off < |b|
    ensures RecordAt(b, off, |b|)
    ensures MatchAt(b, off, name) ==>
              && Find(Bindings(b), name) == |View(b, 0, off)| < |Bindings(b)|
              && Ino(b, off) == Bindings(b)[|View(b, 0, off)|].ino != 0
    ensures !MatchAt(b, off, name) ==> Scanned(b, off + Len(b, off), name)
  {
    hide U16Get, U32Get, Quad, Held, Find, Tiled, View;
    Unchained(b, off, |b|);
    Unused(b, off);
    Chained(b, 0, off, |b|);
    FindAppend(View(b, 0, off), View(b, off, |b|), name);
    FindAppend(Held(b, off), View(b, off + Len(b, off), |b|), name);
    FindOne(Held(b, off), name);
    if !MatchAt(b, off, name) {
      Chained(b, 0, off, off + Len(b, off));
      FindAppend(View(b, 0, off), Held(b, off), name);
    }
  }

  lemma FindOne(es: seq<Binding>, name: Name)
    requires |es| <= 1
    ensures Find(es, name) == if es == [] || es[0].name == name then 0 else 1
  {
  }

  lemma ScanStart(b: seq<Byte>, name: Name)
    requires BlockOk(b)
    ensures Scanned(b, 0, name)
  {
  }

  /** Drops the record at off: its bytes go to the record before it, or it becomes unused when it
      is the first of its block. */
  method RemoveAt(b: seq<Byte>, prev: nat, off: nat) returns (c: seq<Byte>)
    requires BlockOk(b) && off < |b| && Tiled(b, 0, off) && Tiled(b, off, |b|) && Held(b, off) != []
    requires if prev == |b| then off == 0
             else prev < off && Tiled(b, 0, prev) && RecordAt(b, prev, off) && prev + Len(b, prev) == off
    ensures |c| == |b| && BlockOk(c)
    ensures |View(b, 0, off)| < |Bindings(b)| && Bindings(c) == Cut(Bindings(b), |View(b, 0, off)|)
    ensures prev != |b| ==> Len(c, prev) == Len(b, prev) + Len(b, off)
  {
    hide U16Get, U32Get, Align4, Quad, Held, Tiled, View, Cut;
    Unchained(b, off, |b|);
    Unused(b, off);
    var hi := off + Len(b, off);
    if prev != |b| {
      c := U16Set(b, prev + 4, Len(b, prev) + Len(b, off));
      Merged(b, c, prev, off);
      Single(b, prev, off);
      Chained(b, 0, prev, off);
      Chained(b, prev, off, hi);
      Around(b, c, prev, hi);
      CutAfter(View(b, 0, prev), Held(b, prev), Held(b, off), View(b, hi, |b|));
    } else {
      c := U32Set(b, off, 0);
      Cleared(b, c, off);
      Around(b, c, off, hi);
      CutAfter(View(b, 0, off), [], Held(b, off), View(b, hi, |b|));
      assert [] + Held(b, off) == Held(b, off) && View(b, 0, off) + [] == View(b, 0, off);
    }
  }

  /** A record that took over the one behind it holds its own binding. */
  lemma Merged(b: seq<Byte>, c: seq<Byte>, prev: nat, off: nat)
    requires RecordAt(b, prev, off) && prev + Len(b, prev) == off && RecordAt(b, off, |b|)
    requires SameOutside(b, c, prev + 4, prev + 6) && Len(c, prev) == Len(b, prev) + Len(b, off)
    ensures Tiled(c, prev, off + Len(b, off)) && View(c, prev, off + Len(b, off)) == Held(b, prev)
  {
    assert NameAt(c, prev) == NameAt(b, prev);
    assert Ino(c, prev) == Ino(b, prev);
    QuadSums(Len(b, prev), Len(b, off));
    Single(c, prev, off + Len(b, off));
  }

  lemma Cleared(b: seq<Byte>, c: seq<Byte>, off: nat)
    requires RecordAt(b, off, |b|) && SameOutside(b, c, off, off + 4) && Ino(c, off) == 0
    ensures Tiled(c, off, off + Len(b, off)) && View(c, off, off + Len(b, off)) == []
  {
    SameLen(b, c, off);
    Single(c, off, off + Len(b, off));
  }

  /** Removes the first binding of a name. */
  method RemoveFromBlock(b: seq<Byte>, name: Name) returns (found: bool, ino: nat, c: seq<Byte>)
    requires BlockOk(b)
    ensures |c| == |b| && BlockOk(c)
    ensures found <==> Find(Bindings(b), name) < |Bindings(b)|
    ensures found ==> ino == Bindings(b)[Find(Bindings(b), name)].ino && ino != 0
    ensures Bindings(c) == if found then Cut(Bindings(b), Find(Bindings(b), name)) else Bindings(b)
  {
    hide U16Get, U32Get, Quad, Held, Find;
    var off: nat, prev: nat := 0, |b|;
    ScanStart(b, name);
    while off + HEADER <= |b|
      invariant Scanned(b, off, name)
      invariant prev == |b| ==> off == 0
      invariant prev != |b| ==> prev < off && Tiled(b, 0, prev) && RecordAt(b, prev, off) && prev + Len(b, prev) == off
      decreases |b| - off
    {
      ScanStep(b, off, name);
      var same := Matches(b, off, name);
      if same {
        c := RemoveAt(b, prev, off);
        return true, Ino(b, off), c;
      }
      prev, off := off, off + Len(b, off);
    }
    found, ino, c := false, 0, b;
  }

  /** Looks a name up. */
  method FindInBlock(b: seq<Byte>, name: Name) returns (found: bool, ino: nat)
    requires BlockOk(b)
    ensures found <==> Find(Bindings(b), name) < |Bindings(b)|
    ensures found ==> ino == Bindings(b)[Find(Bindings(b), name)].ino
  {
    hide U16Get, U32Get, Quad, Held, Find;
    var off: nat := 0;
    ScanStart(b, name);
    while off + HEADER <= |b|
      invariant Scanned(b, off, name)
      decreases |b| - off
    {
      ScanStep(b, off, name);
      var same := Matches(b, off, name);
      if same {
        return true, Ino(b, off);
      }
      off := off + Len(b, off);
    }
    found, ino := false, 0;
  }

  // ---- Renumbering a record ------------------------------------------------------------------

  function Renumber(es: seq<Binding>, k: nat, ino: nat): seq<Binding>
    requires k < |es|
  {
    es[k := es[k].(ino := ino)]
  }

  lemma Renumbered(b: seq<Byte>, c: seq<Byte>, off: nat, ino: nat)
    requires RecordAt(b, off, |b|) && Held(b, off) != []
    requires SameOutside(b, c, off, off + 4) && Ino(c, off) == ino != 0
    ensures Tiled(c, off, off + Len(b, off)) && View(c, off, off + Len(b, off)) == Renumber(Held(b, off), 0, ino)
  {
    assert NameAt(c, off) == NameAt(b, off);
    SameLen(b, c, off);
    Single(c, off, off + Len(b, off));
  }

  lemma RenumberInside(front: seq<Binding>, one: seq<Binding>, rest: seq<Binding>, k: nat, ino: nat)
    requires k < |one|
    ensures Renumber(front + one + rest, |front| + k, ino) == front + Renumber(one, k, ino) + rest
    ensures (front + one + rest)[|front| + k] == one[k]
  {
  }

  /** Writes another inode number into the record at off. */
  method RenumberAt(b: seq<Byte>, off: nat, ino: nat) returns (c: seq<Byte>)
    requires BlockOk(b) && off < |b| && Tiled(b, 0, off) && Tiled(b, off, |b|) && Held(b, off) != []
    requires 0 < ino < LIMIT32
    ensures |c| == |b| && BlockOk(c)
    ensures |View(b, 0, off)| < |Bindings(b)| && Bindings(c) == Renumber(Bindings(b), |View(b, 0, off)|, ino)
  {
    hide U16Get, U32Get, Quad, Held, Tiled, View, Renumber;
    Unchained(b, off, |b|);
    var hi := off + Len(b, off);
    c := U32Set(b, off, ino);
    Renumbered(b, c, off, ino);
    Around(b, c, off, hi);
    RenumberInside(View(b, 0, off), Held(b, off), View(b, hi, |b|), 0, ino);
  }

  /** Gives the first binding of a name another inode number. */
  method RenumberInBlock(b: seq<Byte>, name: Name, ino: nat) returns (found: bool, c: seq<Byte>)
    requires BlockOk(b) && 0 < ino < LIMIT32
    ensures |c| == |b| && BlockOk(c)
    ensures found <==> Find(Bindings(b), name) < |Bindings(b)|
    ensures Bindings(c) == if found then Renumber(Bindings(b), Find(Bindings(b), name), ino) else Bindings(b)
  {
    hide U16Get, U32Get, Quad, Held, Find;
    var off: nat := 0;
    ScanStart(b, name);
    while off + HEADER <= |b|
      invariant Scanned(b, off, name)
      decreases |b| - off
    {
      ScanStep(b, off, name);
      var same := Matches(b, off, name);
      if same {
        c := RenumberAt(b, off, ino);
        return true, c;
      }
      off := off + Len(b, off);
    }
    found, c := false, b;
  }
}
