/** The boot information block: a list of tags that the boot loader writes and the kernel reads. */
module BootInfo {
  import opened Common
  import opened Bytes

  const IDENTITY_LIMIT: nat := 0x4000_0000

  datatype Region = Region(addr: nat, len: nat, kind: nat)

  /** The tags; other ones (frame buffer, ACPI tables) are a type and bytes. */
  datatype Tag =
    | Cmdline(text: seq<Byte>)
    | Module(start: nat, end: nat, name: seq<Byte>)
    | Mmap(regions: seq<Region>)
    | Other(kind: nat, bytes: seq<Byte>)

  function Align8(n: nat): (a: nat)
    ensures n <= a < n + 8
  {
    (n + 7) / 8 * 8
  }

  function Size(t: Tag): nat {
    match t
    case Cmdline(text) => 8 + |text| + 1
    case Module(_, _, name) => 16 + |name| + 1
    case Mmap(regions) => 16 + |regions| * 24
    case Other(_, bytes) => 8 + |bytes|
  }

  function Step(t: Tag): (n: nat)
    ensures n >= Size(t) && n >= 8
  {
    Align8(Size(t))
  }

  function Kind(t: Tag): nat {
    match t
    case Cmdline(_) => 1
    case Module(_, _, _) => 3
    case Mmap(_) => 6
    case Other(kind, _) => kind
  }

  /** A string and its terminator lie at off. */
  ghost predicate StringAt(b: seq<Byte>, off: nat, s: seq<Byte>) {
    off + |s| < |b| && b[off..off + |s|] == s && b[off + |s|] == 0 && 0 !in s
  }

  ghost predicate RegionAt(b: seq<Byte>, off: nat, r: Region) {
    off + 24 <= |b| && U64Get(b, off) == r.addr && U64Get(b, off + 8) == r.len && U32Get(b, off + 16) == r.kind
  }

  ghost predicate BodyAt(b: seq<Byte>, off: nat, t: Tag)
    requires off + 8 <= |b|
  {
    match t
    case Cmdline(text) => StringAt(b, off + 8, text)
    case Module(start, end, name) =>
      && off + 16 <= |b| && U32Get(b, off + 8) == start && U32Get(b, off + 12) == end
      && StringAt(b, off + 16, name)
    case Mmap(regions) =>
      && off + 16 <= |b| && U32Get(b, off + 8) == 24
      && forall i :: 0 <= i < |regions| ==> RegionAt(b, off + 16 + i * 24, regions[i])
    case Other(kind, bytes) =>
      && kind != 0 && kind != 1 && kind != 3 && kind != 6 && off + 8 + |bytes| <= |b|
      && b[off + 8..off + 8 + |bytes|] == bytes
  }

  ghost predicate TagAt(b: seq<Byte>, off: nat, t: Tag) {
    && off + Size(t) <= |b| && off + 8 <= |b|
    && U32Get(b, off) == Kind(t) && U32Get(b, off + 4) == Size(t) && BodyAt(b, off, t)
  }

  /** The tags lie one behind the other from off to end. */
  ghost predicate Laid(b: seq<Byte>, off: nat, tags: seq<Tag>, end: nat)
    decreases tags
  {
    if tags == [] then off == end <= |b|
    else TagAt(b, off, tags[0]) && off + Step(tags[0]) <= end && Laid(b, off + Step(tags[0]), tags[1..], end)
  }

  /** A finished block with these tags. */
  ghost predicate Holds(b: seq<Byte>, tags: seq<Tag>) {
    exists end :: HoldsTo(b, tags, end)
  }

  ghost predicate HoldsTo(b: seq<Byte>, tags: seq<Tag>, end: nat) {
    Laid(b, 8, tags, end) && end + 8 <= |b| < LIMIT32 && U32Get(b, 0) == end + 8 && U32Get(b, end) == 0
  }

  // ---- Locality ------------------------------------------------------------------------------

  lemma SameNumbers(b: seq<Byte>, c: seq<Byte>, off: nat)
    requires off + 8 <= |b| && off + 8 <= |c| && forall i :: off <= i < off + 8 ==> c[i] == b[i]
    ensures U32Get(c, off) == U32Get(b, off) && U32Get(c, off + 4) == U32Get(b, off + 4)
    ensures U64Get(c, off) == U64Get(b, off)
  {
  }

  lemma TagLocal(b: seq<Byte>, c: seq<Byte>, off: nat, t: Tag)
    requires TagAt(b, off, t) && off + Step(t) <= |c| && off + Step(t) <= |b|
    requires forall i :: off <= i < off + Step(t) ==> c[i] == b[i]
    ensures TagAt(c, off, t)
  {
    hide U32Get, U64Get, Align8;
    SameNumbers(b, c, off);
    match t {
      case Cmdline(text) => assert c[off + 8..off + 8 + |text|] == b[off + 8..off + 8 + |text|];
      case Module(_, _, name) =>
        SameNumbers(b, c, off + 8);
        assert c[off + 16..off + 16 + |name|] == b[off + 16..off + 16 + |name|];
      case Mmap(regions) =>
        SameNumbers(b, c, off + 8);
        forall i | 0 <= i < |regions| ensures RegionAt(c, off + 16 + i * 24, regions[i]) {
          assert RegionAt(b, off + 16 + i * 24, regions[i]);
          SameNumbers(b, c, off + 16 + i * 24);
          SameNumbers(b, c, off + 16 + i * 24 + 8);
          SameNumbers(b, c, off + 16 + i * 24 + 16);
        }
      case Other(_, bytes) => assert c[off + 8..off + 8 + |bytes|] == b[off + 8..off + 8 + |bytes|];
    }
  }

  lemma {:induction false} LaidLocal(b: seq<Byte>, c: seq<Byte>, off: nat, tags: seq<Tag>, end: nat)
    requires Laid(b, off, tags, end) && end <= |b| && end <= |c| && forall i :: off <= i < end ==> c[i] == b[i]
    ensures Laid(c, off, tags, end)
    decreases tags
  {
    hide TagAt, Step;
    if tags != [] {
      TagLocal(b, c, off, tags[0]);
      LaidLocal(b, c, off + Step(tags[0]), tags[1..], end);
    }
  }

  lemma {:induction false} LaidAppend(b: seq<Byte>, off: nat, tags: seq<Tag>, end: nat, t: Tag)
    requires Laid(b, off, tags, end) && TagAt(b, end, t) && end + Step(t) <= |b|
    ensures Laid(b, off, tags + [t], end + Step(t))
    decreases tags
  {
    hide TagAt, Step;
    if tags == [] {
      assert (tags + [t])[1..] == [];
    } else {
      LaidAppend(b, off + Step(tags[0]), tags[1..], end, t);
      assert (tags + [t])[1..] == tags[1..] + [t];
    }
  }

  // ---- Writing -------------------------------------------------------------------------------

  ghost predicate SameBefore(b: seq<Byte>, c: seq<Byte>, off: nat) {
    |c| == |b| && off <= |b| && forall i :: 0 <= i < off ==> c[i] == b[i]
  }

  /** A tag written behind the others. */
  lemma Appended(b: seq<Byte>, c: seq<Byte>, tags: seq<Tag>, off: nat, t: Tag)
    requires Laid(b, 8, tags, off) && off >= 8 && SameBefore(b, c, off) && TagAt(c, off, t) && off + Step(t) <= |b|
    ensures Laid(c, 8, tags + [t], off + Step(t))
  {
    hide TagAt, Step;
    LaidLocal(b, c, 8, tags, off);
    LaidAppend(c, 8, tags, off, t);
  }

  method PutHead(b: seq<Byte>, off: nat, kind: nat, size: nat) returns (c: seq<Byte>)
    requires off + 8 <= |b| && kind < LIMIT32 && size < LIMIT32
    ensures SameBefore(b, c, off) && U32Get(c, off) == kind && U32Get(c, off + 4) == size
  {
    hide Splice;
    var d := U32Set(b, off, kind);
    c := U32Set(d, off + 4, size);
    SameWord(d, c, off);
  }

  lemma SameWord(b: seq<Byte>, c: seq<Byte>, off: nat)
    requires off + 4 <= |b| == |c| && forall i :: off <= i < off + 4 ==> c[i] == b[i]
    ensures U32Get(c, off) == U32Get(b, off)
  {
  }

  /** A string with its terminator. */
  method PutString(b: seq<Byte>, off: nat, s: seq<Byte>) returns (c: seq<Byte>)
    requires off + |s| < |b| && 0 !in s
    ensures SameBefore(b, c, off) && StringAt(c, off, s)
  {
    c := b;
    var i := 0;
    while i < |s|
      invariant 0 <= i <= |s| && SameBefore(b, c, off)
      invariant forall j :: 0 <= j < i ==> c[off + j] == s[j]
    {
      c := c[off + i := s[i]];
      i := i + 1;
    }
    c := c[off + i := 0];
    assert c[off..off + |s|] == s;
  }

  method AppendCmdline(b: seq<Byte>, off: nat, text: seq<Byte>, ghost tags: seq<Tag>) returns (c: seq<Byte>, next: nat)
    requires off >= 8 && Laid(b, 8, tags, off) && 0 !in text && off + Step(Cmdline(text)) <= |b| < LIMIT32
    ensures |c| == |b| && next == off + Step(Cmdline(text)) && Laid(c, 8, tags + [Cmdline(text)], next)
  {
    hide U32Get, Align8;
    var d := PutHead(b, off, 1, 8 + |text| + 1);
    c := PutString(d, off + 8, text);
    SameNumbers(d, c, off);
    Appended(b, c, tags, off, Cmdline(text));
    next := off + Align8(8 + |text| + 1);
  }

  method AppendModule(b: seq<Byte>, off: nat, start: nat, end: nat, name: seq<Byte>, ghost tags: seq<Tag>)
    returns (c: seq<Byte>, next: nat)
    requires off >= 8 && Laid(b, 8, tags, off) && 0 !in name && off + Step(Module(start, end, name)) <= |b| < LIMIT32
    requires start < LIMIT32 && end < LIMIT32
    ensures |c| == |b| && next == off + Step(Module(start, end, name))
    ensures Laid(c, 8, tags + [Module(start, end, name)], next)
  {
    hide U32Get, Align8;
    var d := PutHead(b, off, 3, 16 + |name| + 1);
    var e := PutHead(d, off + 8, start, end);
    c := PutString(e, off + 16, name);
    SameNumbers(d, c, off);
    SameNumbers(e, c, off + 8);
    Appended(b, c, tags, off, Module(start, end, name));
    next := off + Align8(16 + |name| + 1);
  }

  method AppendOther(b: seq<Byte>, off: nat, kind: nat, bytes: seq<Byte>, ghost tags: seq<Tag>)
    returns (c: seq<Byte>, next: nat)
    requires off >= 8 && Laid(b, 8, tags, off) && kind in {8, 14, 15} && off + Step(Other(kind, bytes)) <= |b| < LIMIT32
    ensures |c| == |b| && next == off + Step(Other(kind, bytes)) && Laid(c, 8, tags + [Other(kind, bytes)], next)
  {
    hide U32Get, Align8;
    var d := PutHead(b, off, kind, 8 + |bytes|);
    c := Splice(d, off + 8, bytes);
    SameNumbers(d, c, off);
    assert c[off + 8..off + 8 + |bytes|] == bytes;
    Appended(b, c, tags, off, Other(kind, bytes));
    next := off + Align8(8 + |bytes|);
  }

  /** The regions of a BIOS memory map, of 20 bytes each. */
  function Regions(raw: seq<Byte>, n: nat): (rs: seq<Region>)
    requires n * 20 <= |raw|
    ensures |rs| == n
  {
    seq(n, i requires 0 <= i < n => Region(U64Get(raw, i * 20), U64Get(raw, i * 20 + 8), U32Get(raw, i * 20 + 16)))
  }

  /** One region copied, with four bytes of padding. */
  method PutRegion(b: seq<Byte>, off: nat, raw: seq<Byte>, at: nat) returns (c: seq<Byte>)
    requires off + 24 <= |b| && at + 20 <= |raw|
    ensures SameBefore(b, c, off)
    ensures RegionAt(c, off, Region(U64Get(raw, at), U64Get(raw, at + 8), U32Get(raw, at + 16)))
    ensures forall i :: off + 24 <= i < |b| ==> c[i] == b[i]
  {
    c := Splice(b, off, raw[at..at + 20] + [0, 0, 0, 0]);
    assert c[off..off + 20] == raw[at..at + 20];
    OnSlice(c, off);
    OnSlice(raw, at);
  }

  lemma OnSlice(b: seq<Byte>, off: nat)
    requires off + 20 <= |b|
    ensures var s := b[off..off + 20];
            && U64Get(b, off) == U64Get(s, 0) && U64Get(b, off + 8) == U64Get(s, 8)
            && U32Get(b, off + 16) == U32Get(s, 16)
  {
  }

  method AppendMmap(b: seq<Byte>, off: nat, raw: seq<Byte>, n: nat, ghost tags: seq<Tag>)
    returns (c: seq<Byte>, next: nat)
    requires off >= 8 && Laid(b, 8, tags, off) && n * 20 <= |raw| && off + Step(Mmap(Regions(raw, n))) <= |b| < LIMIT32
    ensures |c| == |b| && next == off + Step(Mmap(Regions(raw, n))) && Laid(c, 8, tags + [Mmap(Regions(raw, n))], next)
  {
    hide U32Get, U64Get, Align8, RegionAt;
    var d := PutHead(b, off, 6, 16 + n * 24);
    var e := PutHead(d, off + 8, 24, 0);
    c := e;
    var i := 0;
    while i < n
      invariant 0 <= i <= n && SameBefore(e, c, off + 16)
      invariant forall j :: 0 <= j < i ==> RegionAt(c, off + 16 + j * 24, Regions(raw, n)[j])
    {
      var f := PutRegion(c, off + 16 + i * 24, raw, i * 20);
      forall j | 0 <= j < i ensures RegionAt(f, off + 16 + j * 24, Regions(raw, n)[j]) {
        RegionLocal(c, f, off + 16 + j * 24, Regions(raw, n)[j]);
      }
      c := f;
      i := i + 1;
    }
    SameNumbers(d, c, off);
    SameNumbers(e, c, off + 8);
    Appended(b, c, tags, off, Mmap(Regions(raw, n)));
    next := off + Align8(16 + n * 24);
  }

  lemma RegionLocal(b: seq<Byte>, c: seq<Byte>, off: nat, r: Region)
    requires RegionAt(b, off, r) && |c| == |b| && forall i :: off <= i < off + 24 ==> c[i] == b[i]
    ensures RegionAt(c, off, r)
  {
    SameNumbers(b, c, off);
    SameNumbers(b, c, off + 8);
    SameNumbers(b, c, off + 16);
  }

  /** Ends the list and puts its size in front. */
  method Finalize(b: seq<Byte>, off: nat, ghost tags: seq<Tag>) returns (c: seq<Byte>, total: nat)
    requires off >= 8 && Laid(b, 8, tags, off) && off + 8 <= |b| < LIMIT32
    ensures |c| == |b| && total == off + 8 && Holds(c, tags) && U32Get(c, 4) == 0
  {
    hide U32Get, Laid, Splice;
    var d := PutHead(b, off, 0, 8);
    LaidLocal(b, d, 8, tags, off);
    c := U32Set(d, 0, off + 8);
    var e := c;
    c := U32Set(c, 4, 0);
    SameWord(e, c, 0);
    SameWord(d, c, off);
    LaidLocal(d, c, 8, tags, off);
    total := off + 8;
    assert HoldsTo(c, tags, off);
  }

  // ---- Reading -------------------------------------------------------------------------------

  datatype Range = Range(base: nat, len: nat)

  /** The modules among the tags, in order. */
  function Modules(tags: seq<Tag>): (ms: seq<Tag>)
    ensures forall i :: 0 <= i < |ms| ==> ms[i].Module?
  {
    if tags == [] then [] else (if tags[0].Module? then [tags[0]] else []) + Modules(tags[1..])
  }

  function Text(tags: seq<Tag>): Option<seq<Byte>> {
    if tags == [] then None else if tags[0].Cmdline? then Some(tags[0].text) else Text(tags[1..])
  }

  /** The length is a difference of 32-bit words. */
  function RangeOf(m: Tag): Range
    requires m.Module?
  {
    Range(m.start, (m.end - m.start) % LIMIT32)
  }

  function Named(tags: seq<Tag>, name: seq<Byte>): Option<Range> {
    if tags == [] then None
    else if tags[0].Module? && tags[0].name == name then Some(RangeOf(tags[0])) else Named(tags[1..], name)
  }

  /** A reader at off has the tags `rest` before it. */
  ghost predicate Reads(b: seq<Byte>, off: nat, rest: seq<Tag>, end: nat) {
    off <= end && end + 8 <= |b| && Laid(b, off, rest, end) && U32Get(b, 0) == end + 8 && U32Get(b, end) == 0
  }

  /** The type at off is 0 at the end of the tags, and tells what the next one is before it. */
  lemma ReadsNext(b: seq<Byte>, off: nat, rest: seq<Tag>, end: nat)
    requires Reads(b, off, rest, end)
    ensures off + 8 <= |b| && off < U32Get(b, 0) && (U32Get(b, off) == 0 <==> rest == [])
    ensures rest != [] ==>
              && TagAt(b, off, rest[0]) && Align8(U32Get(b, off + 4)) == Step(rest[0])
              && Reads(b, off + Step(rest[0]), rest[1..], end)
              && (U32Get(b, off) == 1 <==> rest[0].Cmdline?) && (U32Get(b, off) == 3 <==> rest[0].Module?)
              && (U32Get(b, off) == 6 <==> rest[0].Mmap?)
  {
  }

  lemma ReadsStart(b: seq<Byte>, tags: seq<Tag>) returns (end: nat)
    requires Holds(b, tags)
    ensures Reads(b, 8, tags, end)
  {
    end :| HoldsTo(b, tags, end);
    LaidEnds(b, 8, tags, end);
  }

  lemma {:induction false} LaidEnds(b: seq<Byte>, off: nat, tags: seq<Tag>, end: nat)
    requires Laid(b, off, tags, end)
    ensures off <= end
    decreases tags
  {
    hide TagAt, Step;
    if tags != [] {
      LaidEnds(b, off + Step(tags[0]), tags[1..], end);
    }
  }

  /** The string at off, up to its terminator. */
  method ReadString(b: seq<Byte>, off: nat, ghost s: seq<Byte>) returns (r: seq<Byte>)
    requires StringAt(b, off, s)
    ensures r == s
  {
    r := [];
    while b[off + |r|] != 0
      invariant |r| <= |s| && r == s[..|r|]
      decreases |s| - |r|
    {
      StringByte(b, off, s, |r|);
      r := r + [b[off + |r|]];
    }
    StringByte(b, off, s, |r|);
  }

  /** The command line of a block is that of its first such tag. */
  method ReadCmdline(b: seq<Byte>, ghost tags: seq<Tag>) returns (r: Option<seq<Byte>>)
    requires |b| >= 8 && Holds(b, tags)
    ensures r == Text(tags)
  {
    hide U32Get, Reads, TagAt, Step, Align8;
    ghost var end := ReadsStart(b, tags);
    ghost var rest := tags;
    var off: nat := 8;
    while off < U32Get(b, 0)
      invariant Reads(b, off, rest, end) && Text(tags) == Text(rest)
      decreases |rest|
    {
      ReadsNext(b, off, rest, end);
      if U32Get(b, off) == 0 {
        break;
      }
      if U32Get(b, off) == 1 {
        CmdlineAt(b, off, rest[0]);
        var s := ReadString(b, off + 8, rest[0].text);
        return Some(s);
      }
      off := off + Align8(U32Get(b, off + 4));
      rest := rest[1..];
    }
    ReadsNext(b, off, rest, end);
    r := None;
  }

  lemma CmdlineAt(b: seq<Byte>, off: nat, t: Tag)
    requires TagAt(b, off, t) && t.Cmdline?
    ensures StringAt(b, off + 8, t.text)
  {
  }

  lemma ModuleAt(b: seq<Byte>, off: nat, t: Tag)
    requires TagAt(b, off, t) && t.Module?
    ensures off + 16 <= |b| && StringAt(b, off + 16, t.name) && U32Get(b, off + 8) == t.start
    ensures U32Get(b, off + 12) == t.end
  {
  }

  /** The number of modules. */
  method ModuleCount(b: seq<Byte>, ghost tags: seq<Tag>) returns (n: nat)
    requires |b| >= 8 && Holds(b, tags)
    ensures n == |Modules(tags)|
  {
    hide U32Get, Reads, TagAt, Step, Align8;
    ghost var end := ReadsStart(b, tags);
    ghost var rest := tags;
    var off: nat := 8;
    n := 0;
    while off < U32Get(b, 0)
      invariant Reads(b, off, rest, end) && |Modules(tags)| == n + |Modules(rest)|
      decreases |rest|
    {
      ReadsNext(b, off, rest, end);
      if U32Get(b, off) == 0 {
        break;
      }
      if U32Get(b, off) == 3 {
        n := n + 1;
      }
      off := off + Align8(U32Get(b, off + 4));
      rest := rest[1..];
    }
    ReadsNext(b, off, rest, end);
  }

  function Nth(tags: seq<Tag>, i: nat): Option<Range> {
    if tags == [] then None
    else if !tags[0].Module? then Nth(tags[1..], i)
    else if i == 0 then Some(RangeOf(tags[0])) else Nth(tags[1..], i - 1)
  }

  lemma {:induction false} NthModule(tags: seq<Tag>, i: nat)
    ensures Nth(tags, i) == if i < |Modules(tags)| then Some(RangeOf(Modules(tags)[i])) else None
  {
    if tags != [] {
      if !tags[0].Module? {
        NthModule(tags[1..], i);
        assert Modules(tags) == Modules(tags[1..]);
      } else if i > 0 {
        NthModule(tags[1..], i - 1);
      }
    }
  }

  /** The range of the i-th module. */
  method ModuleRange(b: seq<Byte>, i: nat, ghost tags: seq<Tag>) returns (r: Option<Range>)
    requires |b| >= 8 && Holds(b, tags)
    ensures r == if i < |Modules(tags)| then Some(RangeOf(Modules(tags)[i])) else None
  {
    hide U32Get, Reads, TagAt, Step, Align8, Modules;
    NthModule(tags, i);
    ghost var end := ReadsStart(b, tags);
    ghost var rest := tags;
    var off: nat, cur: nat := 8, 0;
    while off < U32Get(b, 0)
      invariant Reads(b, off, rest, end) && cur <= i && Nth(tags, i) == Nth(rest, i - cur)
      decreases |rest|
    {
      ReadsNext(b, off, rest, end);
      if U32Get(b, off) == 0 {
        break;
      }
      if U32Get(b, off) == 3 {
        if cur == i {
          ModuleAt(b, off, rest[0]);
          return Some(Range(U32Get(b, off + 8), (U32Get(b, off + 12) - U32Get(b, off + 8)) % LIMIT32));
        }
        cur := cur + 1;
      }
      off := off + Align8(U32Get(b, off + 4));
      rest := rest[1..];
    }
    ReadsNext(b, off, rest, end);
    r := None;
  }

  /** Whether the string at off is this name. */
  method SameString(b: seq<Byte>, off: nat, name: seq<Byte>, ghost s: seq<Byte>) returns (same: bool)
    requires StringAt(b, off, s) && 0 !in name
    ensures same <==> s == name
  {
    var i := 0;
    while b[off + i] != 0 && i < |name|
      invariant 0 <= i <= |s| && i <= |name| && s[..i] == name[..i]
      decreases |name| - i
    {
      StringByte(b, off, s, i);
      if b[off + i] != name[i] {
        return false;
      }
      i := i + 1;
    }
    StringByte(b, off, s, i);
    same := b[off + i] == 0 && i == |name|;
    assert same ==> s[..i] == s && name[..i] == name;
  }

  lemma StringByte(b: seq<Byte>, off: nat, s: seq<Byte>, i: nat)
    requires StringAt(b, off, s) && i <= |s|
    ensures b[off + i] == 0 <==> i == |s|
    ensures i < |s| ==> b[off + i] == s[i]
  {
    if i < |s| {
      assert b[off..off + |s|][i] == b[off + i];
      assert s[i] in s;
    }
  }

  /** The range of the first module with a name. */
  method ModuleByName(b: seq<Byte>, name: seq<Byte>, ghost tags: seq<Tag>) returns (r: Option<Range>)
    requires |b| >= 8 && Holds(b, tags) && 0 !in name
    ensures r == Named(tags, name)
  {
    hide U32Get, Reads, TagAt, Step, Align8;
    ghost var end := ReadsStart(b, tags);
    ghost var rest := tags;
    var off: nat := 8;
    while off < U32Get(b, 0)
      invariant Reads(b, off, rest, end) && Named(tags, name) == Named(rest, name)
      decreases |rest|
    {
      ReadsNext(b, off, rest, end);
      if U32Get(b, off) == 0 {
        break;
      }
      if U32Get(b, off) == 3 {
        ModuleAt(b, off, rest[0]);
        var same := SameString(b, off + 16, name, rest[0].name);
        if same {
          return Some(Range(U32Get(b, off + 8), (U32Get(b, off + 12) - U32Get(b, off + 8)) % LIMIT32));
        }
      }
      off := off + Align8(U32Get(b, off + 4));
      rest := rest[1..];
    }
    ReadsNext(b, off, rest, end);
    r := None;
  }

  /** The bytes of a region below the limit of the identity map. */
  function Usable(r: Region): nat {
    if r.kind != 1 || r.addr >= IDENTITY_LIMIT then 0
    else if r.len < IDENTITY_LIMIT - r.addr then r.len else IDENTITY_LIMIT - r.addr
  }

  /** Region i is the first of the largest usable ones. */
  ghost predicate Largest(rs: seq<Region>, i: nat) {
    && i < |rs| && Usable(rs[i]) > 0
    && (forall j :: 0 <= j < |rs| ==> Usable(rs[j]) <= Usable(rs[i]))
    && (forall j :: 0 <= j < i ==> Usable(rs[j]) < Usable(rs[i]))
  }

  ghost predicate AnyUsable(rs: seq<Region>) {
    exists i :: 0 <= i < |rs| && Usable(rs[i]) > 0
  }

  /** The first memory map with usable memory. */
  ghost function MemoryMap(tags: seq<Tag>): Option<seq<Region>> {
    if tags == [] then None
    else if tags[0].Mmap? && AnyUsable(tags[0].regions) then Some(tags[0].regions)
    else MemoryMap(tags[1..])
  }

  lemma MmapAt(b: seq<Byte>, off: nat, t: Tag)
    requires TagAt(b, off, t) && t.Mmap?
    ensures off + 16 + |t.regions| * 24 <= |b| && U32Get(b, off + 8) == 24
    ensures U32Get(b, off + 4) == 16 + |t.regions| * 24
    ensures EntryCount(U32Get(b, off + 4), U32Get(b, off + 8)) == |t.regions|
    ensures forall i :: 0 <= i < |t.regions| ==> RegionAt(b, EntryAt(off, i, 24), t.regions[i])
  {
    forall i | 0 <= i < |t.regions| ensures RegionAt(b, EntryAt(off, i, 24), t.regions[i]) {
      assert RegionAt(b, off + 16 + i * 24, t.regions[i]);
    }
  }

  /** The entries of a map whose tag says how large each is. */
  function EntryCount(total: int, size: nat): int
    requires size > 0
  {
    (total - 16) / size
  }

  function EntryAt(off: nat, i: nat, size: nat): nat { off + 16 + i * size }

  /** The largest usable region of one memory map. */
  method LargestRegion(b: seq<Byte>, off: nat, ghost t: Tag) returns (r: Option<Range>)
    requires TagAt(b, off, t) && t.Mmap?
    ensures r.None? <==> !AnyUsable(t.regions)
    ensures r.Some? ==> exists i: nat :: Largest(t.regions, i) && r.value == Range(t.regions[i].addr, t.regions[i].len)
  {
    hide U32Get, U64Get, TagAt, EntryAt, EntryCount;
    MmapAt(b, off, t);
    var size := U32Get(b, off + 8);
    var n := EntryCount(U32Get(b, off + 4), size);
    var best, base, len := 0, 0, 0;
    ghost var at := 0;
    var i := 0;
    while i < n
      invariant 0 <= i <= n && best >= 0
      invariant forall j :: 0 <= j < i ==> Usable(t.regions[j]) <= best
      invariant best > 0 ==>
                0 <= at < i && Usable(t.regions[at]) == best && base == t.regions[at].addr && len == t.regions[at].len
      invariant best > 0 ==> forall j :: 0 <= j < at ==> Usable(t.regions[j]) < best
      invariant best == 0 ==> len == 0
    {
      var e := EntryAt(off, i, size);
      assert RegionAt(b, e, t.regions[i]);
      if U32Get(b, e + 16) == 1 {
        var region := Region(U64Get(b, e), U64Get(b, e + 8), 1);
        if Usable(region) > best {
          best, base, len, at := Usable(region), region.addr, region.len, i;
        }
      }
      i := i + 1;
    }
    if len > 0 {
      assert Largest(t.regions, at);
      return Some(Range(base, len));
    }
    r := None;
  }

  /** The memory the kernel takes: the largest usable region of the first map that has one. */
  method DetectMemory(b: seq<Byte>, ghost tags: seq<Tag>) returns (r: Option<Range>)
    requires |b| >= 8 && Holds(b, tags)
    ensures r.None? <==> MemoryMap(tags).None?
    ensures r.Some? ==>
              var rs := MemoryMap(tags).value;
              exists i: nat :: Largest(rs, i) && r.value == Range(rs[i].addr, rs[i].len)
  {
    hide U32Get, Reads, TagAt, Step, Align8, Largest, AnyUsable;
    ghost var end := ReadsStart(b, tags);
    ghost var rest := tags;
    var off: nat := 8;
    while off < U32Get(b, 0)
      invariant Reads(b, off, rest, end) && MemoryMap(tags) == MemoryMap(rest)
      decreases |rest|
    {
      ReadsNext(b, off, rest, end);
      if U32Get(b, off) == 0 {
        break;
      }
      if U32Get(b, off) == 6 {
        r := LargestRegion(b, off, rest[0]);
        if r.Some? {
          return;
        }
      }
      off := off + Align8(U32Get(b, off + 4));
      rest := rest[1..];
    }
    ReadsNext(b, off, rest, end);
    r := None;
  }

  // ---- From the loader to the kernel ---------------------------------------------------------

  /** What the loader appends; a memory map comes as the bytes the BIOS gave. */
  datatype Request =
    | AddCmdline(text: seq<Byte>)
    | AddModule(start: nat, end: nat, name: seq<Byte>)
    | AddMmap(raw: seq<Byte>, n: nat)
    | AddOther(kind: nat, bytes: seq<Byte>)

  predicate Proper(q: Request) {
    match q
    case AddCmdline(text) => 0 !in text
    case AddModule(start, end, name) => start < LIMIT32 && end < LIMIT32 && 0 !in name
    case AddMmap(raw, n) => n * 20 <= |raw|
    case AddOther(kind, _) => kind in {8, 14, 15}
  }

  function TagOf(q: Request): Tag
    requires Proper(q)
  {
    match q
    case AddCmdline(text) => Cmdline(text)
    case AddModule(start, end, name) => Module(start, end, name)
    case AddMmap(raw, n) => Mmap(Regions(raw, n))
    case AddOther(kind, bytes) => Other(kind, bytes)
  }

  function TagsOf(qs: seq<Request>): (tags: seq<Tag>)
    requires forall i :: 0 <= i < |qs| ==> Proper(qs[i])
    ensures |tags| == |qs|
  {
    seq(|qs|, i requires 0 <= i < |qs| => TagOf(qs[i]))
  }

  function Room(tags: seq<Tag>): nat {
    if tags == [] then 0 else Room(tags[..|tags| - 1]) + Step(tags[|tags| - 1])
  }

  lemma {:induction false} RoomGrows(tags: seq<Tag>, i: nat)
    requires i < |tags|
    ensures Room(tags[..i]) + Step(tags[i]) == Room(tags[..i + 1]) <= Room(tags)
    decreases |tags| - i
  {
    hide Step;
    assert tags[..i + 1][..i] == tags[..i];
    if i + 1 < |tags| {
      RoomGrows(tags, i + 1);
    } else {
      assert tags[..i + 1] == tags;
    }
  }

  /** Appends one tag of any kind. */
  method Append(b: seq<Byte>, off: nat, q: Request, ghost tags: seq<Tag>) returns (c: seq<Byte>, next: nat)
    requires off >= 8 && Laid(b, 8, tags, off) && Proper(q) && off + Step(TagOf(q)) <= |b| < LIMIT32
    ensures |c| == |b| && next == off + Step(TagOf(q)) && Laid(c, 8, tags + [TagOf(q)], next)
  {
    hide Laid, Step, Regions;
    match q {
      case AddCmdline(text) => c, next := AppendCmdline(b, off, text, tags);
      case AddModule(start, end, name) => c, next := AppendModule(b, off, start, end, name, tags);
      case AddMmap(raw, n) => c, next := AppendMmap(b, off, raw, n, tags);
      case AddOther(kind, bytes) => c, next := AppendOther(b, off, kind, bytes, tags);
    }
  }

  /** Every list of tags that fits is in the finished block, in order. */
  method Build(b: seq<Byte>, qs: seq<Request>) returns (c: seq<Byte>, total: nat)
    requires forall i :: 0 <= i < |qs| ==> Proper(qs[i])
    requires 16 + Room(TagsOf(qs)) <= |b| < LIMIT32
    ensures |c| == |b| && total == 16 + Room(TagsOf(qs)) && Holds(c, TagsOf(qs))
  {
    hide Laid, Step, TagOf, Proper, Room;
    ghost var tags := TagsOf(qs);
    c := b;
    var off: nat := 8;
    NoneLaid(b, tags);
    for i := 0 to |qs|
      invariant |c| == |b| && off == 8 + Room(tags[..i]) && Laid(c, 8, tags[..i], off)
    {
      RoomGrows(tags, i);
      assert tags[..i] + [tags[i]] == tags[..i + 1];
      c, off := Append(c, off, qs[i], tags[..i]);
    }
    assert tags[..|qs|] == tags;
    c, total := Finalize(c, off, tags);
  }

  lemma NoneLaid(b: seq<Byte>, tags: seq<Tag>)
    requires |b| >= 8
    ensures Laid(b, 8, tags[..0], 8) && Room(tags[..0]) == 0
  {
  }

  /** Whatever the loader appends, the kernel reads back: the command line, every module by number
      and by name, and the memory. */
  method Handover(b: seq<Byte>, qs: seq<Request>, i: nat, name: seq<Byte>)
    returns (text: Option<seq<Byte>>, count: nat, nth: Option<Range>, named: Option<Range>, memory: Option<Range>)
    requires forall i :: 0 <= i < |qs| ==> Proper(qs[i])
    requires 16 + Room(TagsOf(qs)) <= |b| < LIMIT32 && 0 !in name
    ensures text == Text(TagsOf(qs)) && count == |Modules(TagsOf(qs))| && named == Named(TagsOf(qs), name)
    ensures nth == if i < count then Some(RangeOf(Modules(TagsOf(qs))[i])) else None
    ensures memory.None? <==> MemoryMap(TagsOf(qs)).None?
    ensures memory.Some? ==>
              var rs := MemoryMap(TagsOf(qs)).value;
              exists j: nat :: Largest(rs, j) && memory.value == Range(rs[j].addr, rs[j].len)
  {
    hide Holds, Largest, Text, Named, Modules, MemoryMap, TagOf, Proper, Room;
    ghost var tags := TagsOf(qs);
    var c, _ := Build(b, qs);
    text := ReadCmdline(c, tags);
    count := ModuleCount(c, tags);
    nth := ModuleRange(c, i, tags);
    named := ModuleByName(c, name, tags);
    memory := DetectMemory(c, tags);
  }
}
