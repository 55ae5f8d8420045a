/** Extended attributes of an inode: a block with a table of names growing from its front and their
    values growing from its end. */
module Attributes {
  import opened Common
  import opened Bytes

  const HEADER: nat := 32
  const ENTRY: nat := 16
  const MAX_ENTRIES: nat := 8
  const NAME_MAX: nat := 255
  const VALUE_MAX: nat := 1024
  const USER: Byte := 1
  const MAGIC: nat := 0xEA02_0000

  datatype Entry = Entry(name: seq<Byte>, value: seq<Byte>)

  datatype Result<T> = Ok(value: T) | Corrupt | Unsupported

  // ---- Layout --------------------------------------------------------------------------------

  function Size(e: Entry): nat { Align4(ENTRY + |e.name|) }

  /** Where entry k of the table begins, and where the table ends for k == |es|. */
  function Place(es: seq<Entry>, k: nat): nat
    requires k <= |es|
  {
    if k == 0 then HEADER else Place(es, k - 1) + Size(es[k - 1])
  }

  /** Where the values of the first k entries begin, from the end of a block of `size` bytes. */
  function Cursor(es: seq<Entry>, size: nat, k: nat): int
    requires k <= |es|
  {
    if k == 0 then size else Cursor(es, size, k - 1) - Align4(|es[k - 1].value|)
  }

  function ValueAt(es: seq<Entry>, size: nat, k: nat): int
    requires k < |es|
  {
    if es[k].value == [] then 0 else Cursor(es, size, k + 1)
  }

  lemma {:induction false} PlaceOrder(es: seq<Entry>, i: nat, j: nat)
    requires i <= j <= |es|
    ensures HEADER <= Place(es, i) <= Place(es, j) && (i < j ==> Place(es, i) + ENTRY + |es[i].name| <= Place(es, j))
  {
    if i < j {
      PlaceOrder(es, i, j - 1);
    } else if i > 0 {
      PlaceOrder(es, i - 1, j - 1);
    }
  }

  lemma PlaceNext(es: seq<Entry>, k: nat)
    requires k < |es|
    ensures HEADER <= Place(es, k) && Place(es, k) + Size(es[k]) == Place(es, k + 1) <= Place(es, |es|)
  {
    PlaceOrder(es, k, k);
    PlaceOrder(es, k + 1, |es|);
  }

  lemma {:induction false} CursorOrder(es: seq<Entry>, size: nat, i: nat, j: nat)
    requires i <= j <= |es|
    ensures Cursor(es, size, j) <= Cursor(es, size, i) <= size
    ensures i < j ==> Cursor(es, size, j) <= Cursor(es, size, i + 1) <= Cursor(es, size, i) - |es[i].value|
  {
    if i < j {
      CursorOrder(es, size, i, j - 1);
    } else if i > 0 {
      CursorOrder(es, size, i - 1, j - 1);
    }
  }

  predicate EntryOk(e: Entry) { 0 < |e.name| <= NAME_MAX && |e.value| <= VALUE_MAX }

  /** The entries fit a block: the table with its terminator ends before the values begin. */
  predicate Fits(es: seq<Entry>, size: nat) {
    && (forall i :: 0 <= i < |es| ==> EntryOk(es[i]))
    && Place(es, |es|) + 4 <= Cursor(es, size, |es|)
  }

  /** The values overlap neither each other nor the table with its terminator. */
  lemma ValuesApart(es: seq<Entry>, size: nat, i: nat, j: nat)
    requires Fits(es, size) && i < j < |es| && es[i].value != [] && es[j].value != []
    ensures Place(es, |es|) + 4 <= ValueAt(es, size, j)
    ensures ValueAt(es, size, j) + |es[j].value| <= ValueAt(es, size, i)
    ensures ValueAt(es, size, i) + |es[i].value| <= size
  {
    CursorOrder(es, size, j + 1, |es|);
    CursorOrder(es, size, i + 1, j);
    CursorOrder(es, size, 0, i);
    CursorOrder(es, size, j, j + 1);
    CursorOrder(es, size, i, i + 1);
  }

  // ---- Reading -------------------------------------------------------------------------------

  /** What the table has at a place: its terminator, an entry of some size, or neither. */
  datatype Item = End | Next(entry: Entry, size: nat) | Cut | Bad

  function ItemAt(b: seq<Byte>, offset: nat, count: nat): (i: Item)
    ensures i.Next? ==> i.size > 0 && offset + i.size <= |b|
  {
    if offset + 4 > |b| then Cut
    else if b[offset] == 0 && b[offset + 1] == 0 then End
    else
      var len := Align4(ENTRY + b[offset]);
      if b[offset] == 0 || offset + len > |b| || count >= MAX_ENTRIES || b[offset + 1] != USER
        || U32Get(b, offset + 4) != 0 then Bad
      else
        var n, at := U32Get(b, offset + 8), U16Get(b, offset + 2);
        if n > VALUE_MAX || (n != 0 && (at < HEADER || at + n > |b|)) then Bad
        else Next(Entry(b[offset + ENTRY..offset + ENTRY + b[offset]], if n == 0 then [] else b[at..at + n]), len)
  }

  function Behind(es: seq<Entry>, r: Result<seq<Entry>>): Result<seq<Entry>> {
    match r
    case Ok(fs) => Ok(es + fs)
    case Corrupt => Corrupt
    case Unsupported => Unsupported
  }

  /** The entries from `offset` on, behind `count` read already. */
  function Parse(b: seq<Byte>, offset: nat, count: nat): Result<seq<Entry>>
    decreases |b| - offset
  {
    match ItemAt(b, offset, count)
    case End => Ok([])
    case Cut => Corrupt
    case Bad => Unsupported
    case Next(e, size) => Behind([e], Parse(b, offset + size, count + 1))
  }

  /** A block as it is read: its magic number, one block, and a nonzero count of inodes using it. */
  function Read(b: seq<Byte>): Result<seq<Entry>>
    requires |b| >= HEADER
  {
    if U32Get(b, 0) != MAGIC || U32Get(b, 8) != 1 || U32Get(b, 4) == 0 then Corrupt else Parse(b, HEADER, 0)
  }

  lemma BehindNone(r: Result<seq<Entry>>)
    ensures Behind([], r) == r
  {
    assert r.Ok? ==> [] + r.value == r.value;
  }

  lemma BehindOne(es: seq<Entry>, e: Entry, r: Result<seq<Entry>>)
    ensures Behind(es, Behind([e], r)) == Behind(es + [e], r)
  {
    assert r.Ok? ==> es + ([e] + r.value) == es + [e] + r.value;
  }

  /** Reads the entries of a block. */
  method ReadEntries(b: seq<Byte>) returns (r: Result<seq<Entry>>)
    requires |b| >= HEADER
    ensures r == Read(b)
  {
    hide U16Get, U32Get, ItemAt, Behind;
    if U32Get(b, 0) != MAGIC || U32Get(b, 8) != 1 || U32Get(b, 4) == 0 {
      return Corrupt;
    }
    var es: seq<Entry> := [];
    var offset := HEADER;
    BehindNone(Parse(b, offset, 0));
    while true
      invariant offset <= |b| && Read(b) == Behind(es, Parse(b, offset, |es|))
      decreases |b| - offset
    {
      BehindEnds(es);
      match ItemAt(b, offset, |es|)
      case End => return Ok(es);
      case Cut => return Corrupt;
      case Bad => return Unsupported;
      case Next(e, size) =>
        BehindOne(es, e, Parse(b, offset + size, |es| + 1));
        es := es + [e];
        offset := offset + size;
    }
  }

  lemma BehindEnds(es: seq<Entry>)
    ensures Behind(es, Ok([])) == Ok(es) && Behind(es, Corrupt) == Corrupt && Behind(es, Unsupported) == Unsupported
  {
    assert es + [] == es;
  }

  // ---- Building ------------------------------------------------------------------------------

  /** Entry e lies in the table at o, and its value at `at`. */
  ghost predicate Lies(b: seq<Byte>, e: Entry, o: nat, at: nat) {
    && o + ENTRY + |e.name| <= |b| && at + |e.value| <= |b|
    && b[o] == |e.name| && b[o + 1] == USER
    && U16Get(b, o + 2) == at && U32Get(b, o + 4) == 0 && U32Get(b, o + 8) == |e.value|
    && b[o + ENTRY..o + ENTRY + |e.name|] == e.name
    && (e.value != [] ==> b[at..at + |e.value|] == e.value)
  }

  /** Entry k lies in the block as the layout has it. */
  ghost predicate Stored(b: seq<Byte>, es: seq<Entry>, k: nat)
    requires k < |es|
  {
    ValueAt(es, |b|, k) >= 0 && Lies(b, es[k], Place(es, k), ValueAt(es, |b|, k))
  }

  ghost predicate Headed(b: seq<Byte>) {
    |b| >= HEADER && U32Get(b, 0) == MAGIC && U32Get(b, 4) == 1 && U32Get(b, 8) == 1
  }

  /** Zeros from entry k of the table to the end of its terminator. */
  ghost predicate ClearFrom(b: seq<Byte>, es: seq<Entry>, k: nat)
    requires k <= |es|
  {
    Place(es, |es|) + 4 <= |b| && forall x :: Place(es, k) <= x < Place(es, |es|) + 4 ==> b[x] == 0
  }

  ghost predicate Encodes(b: seq<Byte>, es: seq<Entry>) {
    && Fits(es, |b|) && |b| < LIMIT16 && Headed(b) && ClearFrom(b, es, |es|)
    && forall k :: 0 <= k < |es| ==> Stored(b, es, k)
  }

  /** A block that holds entries is read back as just those entries, in order. */
  lemma EncodedReads(b: seq<Byte>, es: seq<Entry>)
    requires Encodes(b, es) && |es| <= MAX_ENTRIES
    ensures Read(b) == Ok(es)
  {
    EncodedParses(b, es, 0);
    assert es[0..] == es;
  }

  lemma {:induction false} EncodedParses(b: seq<Byte>, es: seq<Entry>, k: nat)
    requires Encodes(b, es) && |es| <= MAX_ENTRIES && k <= |es|
    ensures Parse(b, Place(es, k), k) == Ok(es[k..])
    decreases |es| - k
  {
    hide U16Get, U32Get, Align4, Quad, Cursor, ItemAt;
    if k < |es| {
      EncodedParses(b, es, k + 1);
      StoredItem(b, es, k);
      assert es[k..] == [es[k]] + es[k + 1..];
    } else {
      ClearItem(b, es);
      assert es[k..] == [];
    }
  }

  lemma StoredItem(b: seq<Byte>, es: seq<Entry>, k: nat)
    requires Encodes(b, es) && |es| <= MAX_ENTRIES && k < |es|
    ensures ItemAt(b, Place(es, k), k) == Next(es[k], Size(es[k]))
  {
    hide U16Get, U32Get, Align4, Quad, Cursor, Place, Lies, ItemAt, Headed, ClearFrom;
    PlaceNext(es, k);
    TableFits(es, |b|);
    assert Stored(b, es, k);
    if es[k].value != [] {
      ValueBounds(es, |b|, k);
    }
    LyingItem(b, es[k], Place(es, k), ValueAt(es, |b|, k), k);
  }

  lemma LyingItem(b: seq<Byte>, e: Entry, o: nat, at: nat, count: nat)
    requires EntryOk(e) && Lies(b, e, o, at) && o + Size(e) <= |b| && count < MAX_ENTRIES
    requires e.value != [] ==> at >= HEADER
    ensures ItemAt(b, o, count) == Next(e, Size(e))
  {
    hide U16Get, U32Get, Align4, Quad;
  }

  lemma ClearItem(b: seq<Byte>, es: seq<Entry>)
    requires Encodes(b, es)
    ensures ItemAt(b, Place(es, |es|), |es|) == End
  {
  }

  lemma TableFits(es: seq<Entry>, size: nat)
    requires Fits(es, size)
    ensures Place(es, |es|) + 4 <= size
  {
    CursorOrder(es, size, 0, |es|);
  }

  lemma ValueBounds(es: seq<Entry>, size: nat, k: nat)
    requires Fits(es, size) && k < |es| && es[k].value != []
    ensures HEADER < Place(es, |es|) + 4 <= ValueAt(es, size, k) <= ValueAt(es, size, k) + |es[k].value| <= size
  {
    PlaceOrder(es, |es|, |es|);
    CursorOrder(es, size, k + 1, |es|);
    CursorOrder(es, size, 0, k);
    CursorOrder(es, size, k, k + 1);
  }

  /** Only the table entry and the value at these places may differ. */
  ghost predicate SameBut(b: seq<Byte>, c: seq<Byte>, e: Entry, o: nat, at: nat) {
    && |c| == |b|
    && forall x :: 0 <= x < |b| && !(o <= x < o + ENTRY + |e.name|) && !(at <= x < at + |e.value|) ==> c[x] == b[x]
  }

  /** Writes one entry and its value, which lie apart. */
  method PutEntry(b: seq<Byte>, e: Entry, o: nat, at: nat) returns (c: seq<Byte>)
    requires EntryOk(e) && o + ENTRY + |e.name| <= |b| < LIMIT16 && at + |e.value| <= |b|
    requires e.value != [] ==> o + ENTRY + |e.name| <= at
    ensures Lies(c, e, o, at) && SameBut(b, c, e, o, at)
  {
    hide Splice;
    c := b[o := |e.name|];
    c := c[o + 1 := USER];
    c := U16Set(c, o + 2, at);
    c := U32Set(c, o + 4, 0);
    c := U32Set(c, o + 8, |e.value|);
    ghost var d := c;
    c := CopyBytes(c, o + ENTRY, e.name);
    c := CopyBytes(c, at, e.value);
    SameFields(d, c, o);
    assert c[o + ENTRY..o + ENTRY + |e.name|] == e.name;
    assert e.value != [] ==> c[at..at + |e.value|] == e.value;
  }

  lemma SameFields(b: seq<Byte>, c: seq<Byte>, o: nat)
    requires o + ENTRY <= |b| == |c| && forall x :: o <= x < o + ENTRY ==> c[x] == b[x]
    ensures U16Get(c, o + 2) == U16Get(b, o + 2) && U32Get(c, o + 4) == U32Get(b, o + 4)
    ensures U32Get(c, o + 8) == U32Get(b, o + 8)
  {
  }

  method CopyBytes(b: seq<Byte>, at: nat, data: seq<Byte>) returns (c: seq<Byte>)
    requires at + |data| <= |b|
    ensures c == Splice(b, at, data)
  {
    c := b;
    var i := 0;
    while i < |data|
      invariant 0 <= i <= |data| && c == Splice(b, at, data[..i])
    {
      c := c[at + i := data[i]];
      i := i + 1;
    }
    assert data[..i] == data;
  }

  /** An entry stays where it lies while bytes elsewhere change. */
  lemma LiesKept(b: seq<Byte>, c: seq<Byte>, e: Entry, o: nat, at: nat)
    requires Lies(b, e, o, at) && |c| == |b|
    requires forall x :: o <= x < o + ENTRY + |e.name| ==> c[x] == b[x]
    requires forall x :: at <= x < at + |e.value| ==> c[x] == b[x]
    ensures Lies(c, e, o, at)
  {
    SameFields(b, c, o);
    assert c[o + ENTRY..o + ENTRY + |e.name|] == b[o + ENTRY..o + ENTRY + |e.name|];
    assert c[at..at + |e.value|] == b[at..at + |e.value|];
  }

  /** Writing entry i leaves the earlier ones stored and the rest of the table clear. */
  lemma PutKeeps(b: seq<Byte>, c: seq<Byte>, es: seq<Entry>, i: nat, j: nat)
    requires Fits(es, |b|) && j < i < |es| && Stored(b, es, j)
    requires ValueAt(es, |b|, i) >= 0 && SameBut(b, c, es[i], Place(es, i), ValueAt(es, |b|, i))
    ensures Stored(c, es, j)
  {
    hide Lies, Align4, Quad, U16Get, U32Get, Cursor, Place;
    TableFits(es, |b|);
    PlaceOrder(es, j, i);
    PlaceOrder(es, j, |es|);
    PlaceNext(es, i);
    if es[i].value != [] {
      ValueBounds(es, |b|, i);
      if es[j].value != [] {
        ValuesApart(es, |b|, j, i);
      }
    }
    if es[j].value != [] {
      ValueBounds(es, |b|, j);
    }
    LiesKept(b, c, es[j], Place(es, j), ValueAt(es, |b|, j));
  }

  lemma PutClears(b: seq<Byte>, c: seq<Byte>, es: seq<Entry>, i: nat)
    requires Fits(es, |b|) && i < |es| && ClearFrom(b, es, i) && Headed(b)
    requires ValueAt(es, |b|, i) >= 0 && SameBut(b, c, es[i], Place(es, i), ValueAt(es, |b|, i))
    ensures ClearFrom(c, es, i + 1) && Headed(c)
  {
    hide Align4, Quad, Cursor, Place;
    PlaceNext(es, i);
    if es[i].value != [] {
      ValueBounds(es, |b|, i);
    }
    assert forall x :: 0 <= x < HEADER ==> c[x] == b[x];
  }

  /** Lays the entries out in a block of `size` bytes; it fails exactly when they do not fit. */
  method BuildBlock(es: seq<Entry>, size: nat) returns (ok: bool, b: seq<Byte>)
    requires |es| <= MAX_ENTRIES && HEADER + 4 <= size < LIMIT16
    requires forall i :: 0 <= i < |es| ==> |es[i].name| <= NAME_MAX
    ensures ok <==> Fits(es, size)
    ensures ok ==> |b| == size && Encodes(b, es) && Read(b) == Ok(es)
  {
    hide Align4, Quad, U16Get, U32Get, Lies;
    var end, fits := TableEnd(es, size);
    CursorOrder(es, size, 0, |es|);
    if !fits {
      return false, [];
    }
    var offsets;
    offsets, fits := PlaceValues(es, size, end);
    if !fits {
      return false, [];
    }
    b := Zeros(size);
    b := U32Set(b, 0, MAGIC);
    b := U32Set(b, 4, 1);
    b := U32Set(b, 8, 1);
    FreshHeader(size, b);
    var o := HEADER;
    var i := 0;
    while i < |es|
      invariant 0 <= i <= |es| && |b| == size && o == Place(es, i) && ClearFrom(b, es, i) && Headed(b)
      invariant forall j :: 0 <= j < i ==> Stored(b, es, j)
    {
      PlaceNext(es, i);
      if es[i].value != [] {
        ValueBounds(es, size, i);
      }
      var c := PutEntry(b, es[i], o, offsets[i]);
      PutClears(b, c, es, i);
      forall j | 0 <= j < i ensures Stored(c, es, j) {
        PutKeeps(b, c, es, i, j);
      }
      b := c;
      o := o + Align4(ENTRY + |es[i].name|);
      i := i + 1;
    }
    EncodedReads(b, es);
    ok := true;
  }

  lemma FreshHeader(size: nat, b: seq<Byte>)
    requires HEADER <= size < LIMIT16 && b == U32Set(U32Set(U32Set(Zeros(size), 0, MAGIC), 4, 1), 8, 1)
    ensures Headed(b) && forall x :: HEADER <= x < size ==> b[x] == 0
  {
    var z := Zeros(size);
    var b0 := U32Set(z, 0, MAGIC);
    var b1 := U32Set(b0, 4, 1);
    assert U32Get(b1, 0) == U32Get(b0, 0);
    assert U32Get(b, 0) == U32Get(b1, 0);
    assert U32Get(b, 4) == U32Get(b1, 4);
  }

  /** The end of the table with its terminator, if every entry is acceptable and the table fits. */
  method TableEnd(es: seq<Entry>, size: nat) returns (end: nat, fits: bool)
    requires HEADER + 4 <= size && forall i :: 0 <= i < |es| ==> |es[i].name| <= NAME_MAX
    ensures fits <==> (forall i :: 0 <= i < |es| ==> EntryOk(es[i])) && Place(es, |es|) + 4 <= size
    ensures fits ==> end == Place(es, |es|) + 4
  {
    hide Align4, Quad;
    end := HEADER + 4;
    var i := 0;
    while i < |es|
      invariant 0 <= i <= |es| && end == Place(es, i) + 4 <= size
      invariant forall j :: 0 <= j < i ==> EntryOk(es[j])
    {
      PlaceNext(es, i);
      if |es[i].name| == 0 || |es[i].value| > VALUE_MAX {
        return 0, false;
      }
      end := end + Align4(ENTRY + |es[i].name|);
      if end > size {
        return 0, false;
      }
      i := i + 1;
    }
    fits := true;
  }

  /** The places of the values, if none reaches below `end`. */
  method PlaceValues(es: seq<Entry>, size: nat, end: nat) returns (offsets: seq<nat>, fits: bool)
    requires end <= size
    ensures fits <==> end <= Cursor(es, size, |es|)
    ensures fits ==> |offsets| == |es| && forall i :: 0 <= i < |es| ==> offsets[i] == ValueAt(es, size, i)
  {
    hide Align4, Quad;
    offsets := [];
    var cursor := size;
    var i := 0;
    while i < |es|
      invariant 0 <= i <= |es| && |offsets| == i && cursor == Cursor(es, size, i) && end <= cursor
      invariant forall j :: 0 <= j < i ==> offsets[j] == ValueAt(es, size, j)
    {
      var n := |es[i].value|;
      CursorOrder(es, size, i + 1, |es|);
      AlignZero();
      if n == 0 {
        offsets := offsets + [0];
      } else {
        var aligned := Align4(n);
        if cursor < aligned {
          return [], false;
        }
        cursor := cursor - aligned;
        if cursor < end {
          return [], false;
        }
        offsets := offsets + [cursor];
      }
      i := i + 1;
    }
    fits := true;
  }

  lemma AlignZero()
    ensures Align4(0) == 0
  {
  }
}
