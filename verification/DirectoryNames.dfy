/** A directory: its blocks hold the bindings of names to inodes, and its operations change just
    the binding they are asked to. */
module DirectoryNames {
  import opened Common
  import opened Bytes
  import opened DirectoryBlocks

  predicate Blocks(bs: seq<seq<Byte>>, size: nat) {
    forall i :: 0 <= i < |bs| ==> |bs[i]| == size && BlockOk(bs[i])
  }

  /** The bindings of a directory, in the order they are scanned. */
  function All(bs: seq<seq<Byte>>, size: nat): seq<Binding>
    requires Blocks(bs, size)
  {
    if bs == [] then [] else All(bs[..|bs| - 1], size) + Bindings(bs[|bs| - 1])
  }

  lemma {:induction false} AllAppend(bs: seq<seq<Byte>>, cs: seq<seq<Byte>>, size: nat)
    requires Blocks(bs, size) && Blocks(cs, size)
    ensures Blocks(bs + cs, size) && All(bs + cs, size) == All(bs, size) + All(cs, size)
  {
    hide BlockOk, Bindings;
    if cs == [] {
      assert bs + cs == bs;
    } else {
      var front := cs[..|cs| - 1];
      AllAppend(bs, front, size);
      assert (bs + cs)[..|bs + cs| - 1] == bs + front && (bs + cs)[|bs + cs| - 1] == cs[|cs| - 1];
      assert All(bs + cs, size) == All(bs + front, size) + Bindings(cs[|cs| - 1]);
    }
  }

  lemma AllOne(b: seq<Byte>, size: nat)
    requires |b| == size && BlockOk(b)
    ensures Blocks([b], size) && All([b], size) == Bindings(b)
  {
    assert [b][..0] == [];
  }

  /** The bindings of the blocks around block i. */
  lemma AllAround(bs: seq<seq<Byte>>, i: nat, c: seq<Byte>, size: nat)
    requires Blocks(bs, size) && i < |bs| && |c| == size && BlockOk(c)
    ensures Blocks(bs[i := c], size)
    ensures All(bs, size) == All(bs[..i], size) + Bindings(bs[i]) + All(bs[i + 1..], size)
    ensures All(bs[i := c], size) == All(bs[..i], size) + Bindings(c) + All(bs[i + 1..], size)
  {
    hide BlockOk, Bindings, All;
    assert bs == bs[..i] + [bs[i]] + bs[i + 1..];
    assert bs[i := c] == bs[..i] + [c] + bs[i + 1..];
    AllOne(bs[i], size);
    AllOne(c, size);
    AllAppend(bs[..i], [bs[i]], size);
    AllAppend(bs[..i], [c], size);
    AllAppend(bs[..i] + [bs[i]], bs[i + 1..], size);
    AllAppend(bs[..i] + [c], bs[i + 1..], size);
  }

  // ---- Names ---------------------------------------------------------------------------------

  function Lookup(es: seq<Binding>, name: Name): Option<nat> {
    var k := Find(es, name); if k < |es| then Some(es[k].ino) else None
  }

  lemma LookupAppend(es: seq<Binding>, fs: seq<Binding>, name: Name)
    ensures Lookup(es + fs, name) == if Lookup(es, name).Some? then Lookup(es, name) else Lookup(fs, name)
  {
    FindAppend(es, fs, name);
  }

  /** No name is bound twice. */
  ghost predicate UniqueNames(es: seq<Binding>) {
    forall i, j :: 0 <= i < j < |es| ==> es[i].name != es[j].name
  }

  /** The bindings are those of the name table. */
  ghost predicate Reads(es: seq<Binding>, names: map<Name, nat>) {
    && UniqueNames(es)
    && forall name :: Lookup(es, name) == if name in names then Some(names[name]) else None
  }

  lemma LookupOne(e: Binding, name: Name)
    ensures Lookup([e], name) == if name == e.name then Some(e.ino) else None
  {
  }

  lemma LookupNone(es: seq<Binding>, name: Name)
    ensures Lookup(es, name) == None <==> forall i :: 0 <= i < |es| ==> es[i].name != name
  {
  }

  /** A binding of a new name is added, whatever the record it went into. */
  lemma PutReads(es: seq<Binding>, names: map<Name, nat>, k: nat, e: Binding)
    requires Reads(es, names) && k <= |es| && e.name !in names
    ensures Reads(Put(es, k, e), names[e.name := e.ino])
  {
    var fs := Put(es, k, e);
    forall name
      ensures Lookup(fs, name) == if name in names[e.name := e.ino] then Some(names[e.name := e.ino][name]) else None
    {
      LookupParts(es, k, name);
      LookupAppend(es[..k] + [e], es[k..], name);
      LookupAppend(es[..k], [e], name);
      LookupOne(e, name);
    }
    LookupNone(es, e.name);
    forall i, j | 0 <= i < j < |fs| ensures fs[i].name != fs[j].name {
      assert fs[i] == if i < k then es[i] else if i == k then e else es[i - 1];
      assert fs[j] == if j < k then es[j] else if j == k then e else es[j - 1];
    }
  }

  lemma LookupParts(es: seq<Binding>, k: nat, name: Name)
    requires k <= |es|
    ensures Lookup(es, name) == if Lookup(es[..k], name).Some? then Lookup(es[..k], name) else Lookup(es[k..], name)
  {
    assert es == es[..k] + es[k..];
    LookupAppend(es[..k], es[k..], name);
  }

  /** Dropping one of several bindings of different names leaves the others. */
  lemma CutLookup(es: seq<Binding>, k: nat, name: Name)
    requires UniqueNames(es) && k < |es|
    ensures Lookup(Cut(es, k), name) == if name == es[k].name then None else Lookup(es, name)
    ensures Lookup(es, es[k].name) == Some(es[k].ino)
  {
    var e := es[k];
    LookupNone(es[..k], e.name);
    LookupNone(es[k + 1..], e.name);
    hide Find, Lookup;
    LookupParts(es, k, name);
    LookupParts(es, k, e.name);
    assert es[k..] == [e] + es[k + 1..];
    LookupAppend([e], es[k + 1..], name);
    LookupAppend([e], es[k + 1..], e.name);
    LookupAppend(es[..k], es[k + 1..], name);
    LookupOne(e, name);
    LookupOne(e, e.name);
  }

  /** Dropping a binding takes its name out of the table, and no other. */
  lemma CutReads(es: seq<Binding>, names: map<Name, nat>, k: nat)
    requires Reads(es, names) && k < |es|
    ensures es[k].name in names && names[es[k].name] == es[k].ino
    ensures Reads(Cut(es, k), names - {es[k].name})
  {
    hide Find, Lookup;
    var fs := Cut(es, k);
    forall name ensures Lookup(fs, name) == if name in names - {es[k].name} then Some(names[name]) else None {
      CutLookup(es, k, name);
    }
    CutLookup(es, k, es[k].name);
    assert forall i :: 0 <= i < |fs| ==> fs[i] == es[if i < k then i else i + 1];
  }

  lemma RenumberLookup(es: seq<Binding>, k: nat, ino: nat, name: Name)
    requires UniqueNames(es) && k < |es|
    ensures Lookup(Renumber(es, k, ino), name) == if name == es[k].name then Some(ino) else Lookup(es, name)
  {
    var e, f := es[k], es[k].(ino := ino);
    LookupNone(es[..k], e.name);
    hide Find, Lookup;
    LookupParts(es, k, name);
    assert es[k..] == [e] + es[k + 1..];
    LookupAppend([e], es[k + 1..], name);
    assert Renumber(es, k, ino) == es[..k] + ([f] + es[k + 1..]);
    LookupAppend(es[..k], [f] + es[k + 1..], name);
    LookupAppend([f], es[k + 1..], name);
    LookupOne(e, name);
    LookupOne(f, name);
  }

  /** Renumbering a binding changes what its name stands for, and no other. */
  lemma RenumberReads(es: seq<Binding>, names: map<Name, nat>, k: nat, ino: nat)
    requires Reads(es, names) && k < |es|
    ensures Reads(Renumber(es, k, ino), names[es[k].name := ino])
  {
    hide Find, Lookup;
    var names' := names[es[k].name := ino];
    forall name ensures Lookup(Renumber(es, k, ino), name) == if name in names' then Some(names'[name]) else None {
      RenumberLookup(es, k, ino, name);
    }
  }

  // ---- The directory -------------------------------------------------------------------------

  /** A block with one record that takes all of it. */
  method FreshBlock(size: nat, e: Binding) returns (b: seq<Byte>)
    requires HEADER + |e.name| <= size < LIMIT16 && Quad(size) && Storable(e)
    ensures |b| == size && BlockOk(b) && Bindings(b) == [e]
  {
    hide U16Get, U32Get, Quad, Held;
    b := Zeros(size);
    b := U16Set(b, 4, size);
    b := PutBinding(b, 0, e);
    Single(b, 0, size);
  }

  const DOT: Name := [46]
  const DOTDOT: Name := [46, 46]

  ghost predicate OnlyDots(es: seq<Binding>) {
    forall i :: 0 <= i < |es| ==> es[i].name == DOT || es[i].name == DOTDOT
  }

  /** Whether the record at off is unused or binds "." or "..". */
  method DotAt(b: seq<Byte>, off: nat) returns (dots: bool)
    requires RecordAt(b, off, |b|)
    ensures dots <==> OnlyDots(Held(b, off))
  {
    var dot := b[off + 6] == 1 && b[off + HEADER] == 46;
    var dotdot := b[off + 6] == 2 && b[off + HEADER] == 46 && b[off + HEADER + 1] == 46;
    dots := !(Ino(b, off) != 0 && !dot && !dotdot);
    ghost var name := NameAt(b, off);
    assert dot <==> name == DOT by {
      assert dot ==> name == DOT;
      assert name == DOT ==> |name| == 1 && name[0] == 46;
    }
    assert dotdot <==> name == DOTDOT by {
      assert dotdot ==> name == DOTDOT;
      assert name == DOTDOT ==> |name| == 2 && name[0] == 46 && name[1] == 46;
    }
  }

  /** Whether a block holds no binding but those of "." and "..". */
  method DotsInBlock(b: seq<Byte>) returns (dots: bool)
    requires BlockOk(b)
    ensures dots <==> OnlyDots(Bindings(b))
  {
    hide U16Get, U32Get, Quad, Held, OnlyDots;
    var off: nat := 0;
    DotsNone();
    while off + HEADER <= |b|
      invariant off <= |b| && Tiled(b, 0, off) && Tiled(b, off, |b|) && OnlyDots(View(b, 0, off))
      decreases |b| - off
    {
      Unchained(b, off, |b|);
      var here := DotAt(b, off);
      Chained(b, 0, off, |b|);
      DotsAppend(View(b, 0, off), View(b, off, |b|));
      DotsAppend(Held(b, off), View(b, off + Len(b, off), |b|));
      if !here {
        return false;
      }
      Chained(b, 0, off, off + Len(b, off));
      DotsAppend(View(b, 0, off), Held(b, off));
      off := off + Len(b, off);
    }
    dots := true;
  }

  lemma DotsNone()
    ensures OnlyDots([])
  {
  }

  lemma DotsAppend(es: seq<Binding>, fs: seq<Binding>)
    ensures OnlyDots(es + fs) <==> OnlyDots(es) && OnlyDots(fs)
  {
    if OnlyDots(es + fs) {
      assert forall i :: 0 <= i < |es| ==> es[i] == (es + fs)[i];
      assert forall i :: 0 <= i < |fs| ==> fs[i] == (es + fs)[|es| + i];
    }
  }

  /** The bindings are those of "." and ".." when the names are. */
  lemma DotsAreNames(es: seq<Binding>, names: map<Name, nat>)
    requires Reads(es, names)
    ensures OnlyDots(es) <==> names.Keys <= {DOT, DOTDOT}
  {
    forall i | 0 <= i < |es| ensures es[i].name in names {
      LookupNone(es, es[i].name);
    }
    forall name | name in names ensures exists i :: 0 <= i < |es| && es[i].name == name {
      LookupNone(es, name);
    }
  }

  class Directory {
    const size: nat
    var blocks: seq<seq<Byte>>
    ghost var names: map<Name, nat>

    ghost predicate Valid()
      reads this
    {
      && 264 <= size < LIMIT16 && Quad(size)
      && |blocks| <= MAX_BLOCKS && Blocks(blocks, size) && Reads(All(blocks, size), names)
    }

    /** Looks a name up. */
    method FindInDir(name: Name) returns (r: Option<nat>)
      requires Valid()
      ensures r == if name in names then Some(names[name]) else None
    {
      hide BlockOk, Bindings, Find;
      var bi := 0;
      while bi < |blocks|
        invariant 0 <= bi <= |blocks| && Lookup(All(blocks[..bi], size), name) == None
      {
        var found, ino := FindInBlock(blocks[bi], name);
        AllAround(blocks, bi, blocks[bi], size);
        LookupAppend(All(blocks[..bi], size) + Bindings(blocks[bi]), All(blocks[bi + 1..], size), name);
        LookupAppend(All(blocks[..bi], size), Bindings(blocks[bi]), name);
        if found {
          return Some(ino);
        }
        assert blocks[..bi + 1][..bi] == blocks[..bi];
        bi := bi + 1;
      }
      assert blocks[..bi] == blocks;
      r := None;
    }

    /** Whether the directory holds nothing but "." and "..". */
    method IsEmpty() returns (empty: bool)
      requires Valid()
      ensures empty <==> names.Keys <= {DOT, DOTDOT}
    {
      hide BlockOk, Bindings, Reads, OnlyDots, Quad;
      DotsAreNames(All(blocks, size), names);
      DotsNone();
      var bi := 0;
      while bi < |blocks|
        invariant 0 <= bi <= |blocks| && OnlyDots(All(blocks[..bi], size))
      {
        var dots := DotsInBlock(blocks[bi]);
        AllAround(blocks, bi, blocks[bi], size);
        DotsAppend(All(blocks[..bi], size) + Bindings(blocks[bi]), All(blocks[bi + 1..], size));
        DotsAppend(All(blocks[..bi], size), Bindings(blocks[bi]));
        if !dots {
          return false;
        }
        assert blocks[..bi + 1][..bi] == blocks[..bi];
        bi := bi + 1;
      }
      assert blocks[..bi] == blocks;
      empty := true;
    }

    /** Adds a binding of a new name: in the first record with room for it, or in a block of its
        own. */
    method InsertDirent(e: Binding, gotBlock: bool) returns (ok: bool)
      requires Valid() && Storable(e) && e.name !in names
      modifies this
      ensures Valid()
      ensures ok <==> old(Roomy(blocks, size, Align4(HEADER + |e.name|))) || (gotBlock && old(|blocks|) < MAX_BLOCKS)
      ensures names == if ok then old(names)[e.name := e.ino] else old(names)
      ensures |blocks| == old(|blocks|) + if ok && !old(Roomy(blocks, size, Align4(HEADER + |e.name|))) then 1 else 0
    {
      hide BlockOk, Bindings, Fits, Align4, Quad, Reads, All;
      var bi := 0;
      while bi < |blocks|
        invariant 0 <= bi <= |blocks| && blocks == old(blocks) && names == old(names) && Valid()
        invariant forall i :: 0 <= i < bi ==> !RoomIn(blocks[i], Align4(HEADER + |e.name|))
      {
        var done, c, k := InsertInBlock(blocks[bi], e);
        if done {
          AllAround(blocks, bi, c, size);
          PutInside(All(blocks[..bi], size), Bindings(blocks[bi]), All(blocks[bi + 1..], size), k, e);
          PutReads(All(blocks, size), names, |All(blocks[..bi], size)| + k, e);
          blocks := blocks[bi := c];
          names := names[e.name := e.ino];
          return true;
        }
        bi := bi + 1;
      }
      if |blocks| >= MAX_BLOCKS || !gotBlock {
        return false;
      }
      var b := FreshBlock(size, e);
      AllOne(b, size);
      AllAppend(blocks, [b], size);
      PutReads(All(blocks, size), names, |All(blocks, size)|, e);
      PutLast(All(blocks, size), e);
      blocks := blocks + [b];
      names := names[e.name := e.ino];
      ok := true;
    }

    /** Removes the binding of a name. */
    method RemoveDirent(name: Name) returns (r: Option<nat>)
      requires Valid()
      modifies this
      ensures Valid() && |blocks| == old(|blocks|)
      ensures r == if name in old(names) then Some(old(names)[name]) else None
      ensures names == old(names) - {name}
    {
      hide BlockOk, Bindings, Find, Quad, Reads, All;
      var bi := 0;
      ghost var es := All(blocks, size);
      NoneBefore(blocks, size, name);
      while bi < |blocks|
        invariant 0 <= bi <= |blocks| && blocks == old(blocks) && names == old(names) && Valid()
        invariant Lookup(All(blocks[..bi], size), name) == None
      {
        var found, ino, c := RemoveFromBlock(blocks[bi], name);
        AllAround(blocks, bi, c, size);
        if found {
          ghost var k := Find(Bindings(blocks[bi]), name);
          CutInside(All(blocks[..bi], size), Bindings(blocks[bi]), All(blocks[bi + 1..], size), k);
          CutReads(es, names, |All(blocks[..bi], size)| + k);
          blocks := blocks[bi := c];
          names := names - {name};
          return Some(ino);
        }
        PassBlock(blocks, bi, size, name);
        bi := bi + 1;
      }
      assert blocks[..bi] == blocks;
      ReadsLookup(es, names, name);
      r := None;
      names := names - {name};
      assert names == old(names);
    }

    /** Makes ".." stand for another directory: only that name changes, and only when it is there. */
    method SetParent(parent: nat) returns (ok: bool)
      requires Valid() && 0 < parent < LIMIT32
      modifies this
      ensures Valid() && |blocks| == old(|blocks|)
      ensures ok <==> DOTDOT in old(names)
      ensures names == if ok then old(names)[DOTDOT := parent] else old(names)
    {
      hide BlockOk, Bindings, Find, Quad, Reads, All, Renumber;
      var bi := 0;
      ghost var es := All(blocks, size);
      NoneBefore(blocks, size, DOTDOT);
      ReadsLookup(es, names, DOTDOT);
      while bi < |blocks|
        invariant 0 <= bi <= |blocks| && blocks == old(blocks) && names == old(names) && Valid()
        invariant Lookup(All(blocks[..bi], size), DOTDOT) == None
      {
        var found, c := RenumberInBlock(blocks[bi], DOTDOT, parent);
        AllAround(blocks, bi, c, size);
        if found {
          ghost var k := Find(Bindings(blocks[bi]), DOTDOT);
          ghost var at := |All(blocks[..bi], size)| + k;
          RenumberInside(All(blocks[..bi], size), Bindings(blocks[bi]), All(blocks[bi + 1..], size), k, parent);
          RenumberReads(es, names, at, parent);
          NameThere(es, names, at);
          blocks := blocks[bi := c];
          names := names[DOTDOT := parent];
          return true;
        }
        PassBlock(blocks, bi, size, DOTDOT);
        bi := bi + 1;
      }
      assert blocks[..bi] == blocks;
      ok := false;
    }
  }

  lemma NameThere(es: seq<Binding>, names: map<Name, nat>, k: nat)
    requires Reads(es, names) && k < |es|
    ensures es[k].name in names
  {
    LookupNone(es, es[k].name);
  }

  /** A block has a record with room. */
  ghost predicate RoomIn(b: seq<Byte>, need: nat) {
    BlockOk(b) && Fits(b, 0, |b|, need)
  }

  ghost predicate Roomy(bs: seq<seq<Byte>>, size: nat, need: nat) {
    exists i :: 0 <= i < |bs| && RoomIn(bs[i], need)
  }

  lemma ReadsLookup(es: seq<Binding>, names: map<Name, nat>, name: Name)
    requires Reads(es, names)
    ensures Lookup(es, name) == if name in names then Some(names[name]) else None
  {
  }

  lemma NoneBefore(bs: seq<seq<Byte>>, size: nat, name: Name)
    requires Blocks(bs, size)
    ensures Lookup(All(bs[..0], size), name) == None
  {
  }

  lemma PassBlock(bs: seq<seq<Byte>>, bi: nat, size: nat, name: Name)
    requires Blocks(bs, size) && bi < |bs| && Lookup(All(bs[..bi], size), name) == None
    requires Find(Bindings(bs[bi]), name) == |Bindings(bs[bi])|
    ensures Lookup(All(bs[..bi + 1], size), name) == None
  {
    hide BlockOk, Bindings, Find;
    assert bs[..bi + 1][..bi] == bs[..bi];
    LookupAppend(All(bs[..bi], size), Bindings(bs[bi]), name);
  }

  lemma PutInside(front: seq<Binding>, mid: seq<Binding>, rest: seq<Binding>, k: nat, e: Binding)
    requires k <= |mid|
    ensures Put(front + mid + rest, |front| + k, e) == front + Put(mid, k, e) + rest
  {
    assert (front + mid + rest)[..|front| + k] == front + mid[..k];
    assert (front + mid + rest)[|front| + k..] == mid[k..] + rest;
  }

  lemma CutInside(front: seq<Binding>, mid: seq<Binding>, rest: seq<Binding>, k: nat)
    requires k < |mid|
    ensures (front + mid + rest)[|front| + k] == mid[k]
    ensures Cut(front + mid + rest, |front| + k) == front + Cut(mid, k) + rest
  {
    assert (front + mid + rest)[..|front| + k] == front + mid[..k];
    assert (front + mid + rest)[|front| + k + 1..] == mid[k + 1..] + rest;
  }

  lemma PutLast(es: seq<Binding>, e: Binding)
    ensures Put(es, |es|, e) == es + [e]
  {
  }
}
