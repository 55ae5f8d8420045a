/** Creating, removing and renaming directories: the handlers of the file server over the
    directory tree, link counts, group counts and inodes in use. A handler works on a copy that
    takes effect only if every step succeeds, as its journal transaction does. */
module Directories {
  import opened Common
  import opened Tree

  const OK: int := 0
  const NOT_FOUND: int := -1
  const NO_SPACE: int := -4
  const IS_DIR: int := -5
  const EXISTS: int := -6
  const NOT_DIR: int := -7
  const NOT_EMPTY: int := -8
  const INVALID: int := -9

  /** The inodes of a file system: its directories, the link count of every inode in use, the
      number of directories of every group. */
  datatype Fs = Fs(dirs: Dirs, links: map<int, int>, used: seq<int>, perGroup: int, count: int)

  /** The directories form a tree of inodes in use, every name stands for an inode in use, and
      one that is no directory of the tree has as many links as names. */
  ghost predicate FsOk(fs: Fs) {
    match fs
    case Fs(dirs, links, used, perGroup, count) =>
      TreeOk(dirs) && Sized(links, used, perGroup, count) && InUse(dirs, links) && FileLinks(dirs, links)
  }

  /** A group has at most as many inodes as a bitmap of one block of 4096 bytes can tell apart. */
  const GROUP_MAX: int := 32768

  ghost predicate Sized(links: map<int, int>, used: seq<int>, perGroup: int, count: int) {
    && 0 < perGroup <= GROUP_MAX
    && (forall ino :: ino in links ==> 1 <= ino <= count && 0 <= links[ino] < LIMIT16)
    && (forall ino :: 1 <= ino <= count ==> 0 <= GroupOf(ino, perGroup) < |used|)
    && (forall g :: 0 <= g < |used| ==> 0 <= used[g] < LIMIT16)
  }

  ghost predicate InUse(dirs: Dirs, links: map<int, int>) {
    dirs.dotdot.Keys <= links.Keys && forall k :: k in dirs.names ==> dirs.names[k] in links
  }

  ghost predicate FileLinks(dirs: Dirs, links: map<int, int>) {
    forall f :: f in links && f !in dirs.dotdot ==> links[f] == |NamesOf(dirs, f)|
  }

  /** Link counts and group counts are right. */
  ghost predicate CountsOk(fs: Fs) {
    LinksOk(fs.dirs.dotdot, fs.links) && UsedOk(fs.dirs.dotdot, fs.used, fs.perGroup)
  }

  /** The inode a name in a directory stands for, or 0. */
  function Find(t: Dirs, dir: int, name: string): int
    requires dir in t.dotdot
  {
    if name == "." then dir
    else if name == ".." then t.dotdot[dir]
    else if (dir, name) in t.names then t.names[(dir, name)]
    else 0
  }

  predicate ValidLeaf(name: string) {
    name != "" && name != "." && name != ".."
  }

  lemma FsFacts(fs: Fs)
    requires FsOk(fs)
    ensures TreeOk(fs.dirs) && 0 < fs.perGroup <= GROUP_MAX && ROOT in fs.dirs.dotdot && Closed(fs.dirs.dotdot)
    ensures fs.dirs.dotdot.Keys <= fs.links.Keys
    ensures (forall k :: k in fs.dirs.names ==> k.0 in fs.dirs.dotdot && fs.dirs.names[k] in fs.links)
    ensures forall ino :: ino in fs.links ==>
              1 <= ino <= fs.count && 0 <= GroupOf(ino, fs.perGroup) < |fs.used| && 0 <= fs.links[ino] < LIMIT16
    ensures forall g :: 0 <= g < |fs.used| ==> 0 <= fs.used[g] < LIMIT16
  {
    TreeKeys(fs.dirs);
    hide TreeOk, GroupOf;
  }

  // ---- Ancestors -----------------------------------------------------------------------------

  function Between(low: int, n: nat): (s: set<int>)
    ensures |s| == n && forall x :: x in s <==> low < x <= low + n
  {
    if n == 0 then {} else Between(low, n - 1) + {low + n}
  }

  lemma PigeonHole(s: set<int>, low: int, n: nat)
    requires forall x :: x in s ==> low < x <= low + n
    ensures |s| <= n
  {
    assert Between(low, n) == s + (Between(low, n) - s);
  }

  /** A group has no more directories than inodes. */
  lemma GroupBound(dotdot: map<int, int>, g: int, perGroup: int)
    requires perGroup > 0
    ensures |InGroup(dotdot, g, perGroup)| <= perGroup
  {
    forall d | d in InGroup(dotdot, g, perGroup) ensures g * perGroup < d <= g * perGroup + perGroup {
      assert d - 1 == perGroup * ((d - 1) / perGroup) + (d - 1) % perGroup;
    }
    PigeonHole(InGroup(dotdot, g, perGroup), g * perGroup, perGroup);
  }

  /** Whether `ancestor` is `descendant` or a directory above it. */
  method IsAncestor(fs: Fs, ancestor: int, descendant: int) returns (r: int)
    requires FsOk(fs) && descendant in fs.dirs.dotdot
    ensures Closed(fs.dirs.dotdot)
    ensures r == if exists k: nat :: Up(fs.dirs.dotdot, descendant, k) == ancestor then 1 else 0
  {
    hide FsOk, TreeOk;
    FsFacts(fs);
    var dotdot := fs.dirs.dotdot;
    ghost var depth := RankOf(fs.dirs);
    var current := descendant;
    var hops := 0;
    while hops <= fs.count
      invariant current in dotdot && 0 <= hops
      invariant Above(dotdot, depth, ancestor, descendant) <==> Above(dotdot, depth, ancestor, current)
      invariant depth[current] + hops == depth[descendant]
      decreases fs.count - hops
    {
      if current == ancestor {
        AboveIsUp(dotdot, depth, ancestor, descendant);
        return 1;
      }
      var parent := dotdot[current];
      if parent == current {
        NotAbove(dotdot, depth, ancestor, descendant);
        return 0;
      }
      current := parent;
      hops := hops + 1;
    }
    DepthBound(fs, depth, descendant);
    assert false;
    r := -1;
  }

  lemma NotAbove(dotdot: map<int, int>, depth: map<int, nat>, a: int, d: int)
    requires Ranked(dotdot, depth) && Closed(dotdot) && d in dotdot && !Above(dotdot, depth, a, d)
    ensures forall k: nat :: Up(dotdot, d, k) != a
  {
    forall k: nat ensures Up(dotdot, d, k) != a {
      if Up(dotdot, d, k) == a {
        UpIsAbove(dotdot, depth, a, d, k);
      }
    }
  }

  /** No directory lies deeper than there are inodes. */
  lemma DepthBound(fs: Fs, depth: map<int, nat>, d: int)
    requires FsOk(fs) && Ranked(fs.dirs.dotdot, depth) && d in fs.dirs.dotdot
    ensures depth[d] < fs.count
  {
    hide FsOk;
    FsFacts(fs);
    PigeonHole(Line(fs.dirs.dotdot, depth, d), 0, fs.count);
  }

  // ---- Steps of the handlers -----------------------------------------------------------------

  /** Adds delta to the link count of a directory, unless that leaves 16 bits. */
  method UpdateParentLinks(fs: Fs, ino: int, delta: int) returns (ok: bool, fs': Fs)
    requires ino in fs.links && (delta == 1 || delta == -1)
    ensures ok <==> !(delta < 0 && fs.links[ino] == 0) && !(delta > 0 && fs.links[ino] == LIMIT16 - 1)
    ensures fs' == if ok then fs.(links := fs.links[ino := fs.links[ino] + delta]) else fs
  {
    var links := fs.links[ino];
    if (delta < 0 && links == 0) || (delta > 0 && links == LIMIT16 - 1) {
      return false, fs;
    }
    return true, fs.(links := fs.links[ino := links + delta]);
  }

  method UpdateGroupUsedDirs(fs: Fs, ino: int, delta: int) returns (ok: bool, fs': Fs)
    requires fs.perGroup > 0 && (delta == 1 || delta == -1) && 0 <= GroupOf(ino, fs.perGroup) < |fs.used|
    ensures var g := GroupOf(ino, fs.perGroup);
            && (ok <==> !(delta < 0 && fs.used[g] == 0) && !(delta > 0 && fs.used[g] == LIMIT16 - 1))
            && fs' == if ok then fs.(used := fs.used[g := fs.used[g] + delta]) else fs
  {
    var g := GroupOf(ino, fs.perGroup);
    var used := fs.used[g];
    if (delta < 0 && used == 0) || (delta > 0 && used == LIMIT16 - 1) {
      return false, fs;
    }
    return true, fs.(used := fs.used[g := used + delta]);
  }

  /** An inode without links and open handles is freed. */
  function Reclaimed(fs: Fs, ino: int, open: set<int>): Fs
    requires ino in fs.links
  {
    if ino in open || fs.links[ino] != 0 then fs else fs.(links := fs.links - {ino})
  }

  /** A file loses one name. */
  function Unlinked(fs: Fs, parent: int, leaf: string, ino: int, open: set<int>): Fs
    requires ino in fs.links
  {
    Reclaimed(fs.(dirs := DropName(fs.dirs, parent, leaf), links := fs.links[ino := fs.links[ino] - 1]), ino, open)
  }

  /** A directory goes, with its name, its place in its parent's count and in its group's. */
  function Removed(fs: Fs, parent: int, leaf: string, ino: int, open: set<int>): Fs
    requires parent in fs.links && ino in fs.links && fs.perGroup > 0 && 0 <= GroupOf(ino, fs.perGroup) < |fs.used|
  {
    var g := GroupOf(ino, fs.perGroup);
    Reclaimed(fs.(dirs := DropDir(fs.dirs, parent, leaf, ino),
                  links := fs.links[ino := 0][parent := fs.links[parent] - 1],
                  used := fs.used[g := fs.used[g] - 1]), ino, open)
  }

  /** Takes a name of an inode away; an empty directory goes with it. */
  method DetachExisting(fs: Fs, parent: int, leaf: string, ino: int, isDir: bool, open: set<int>)
    returns (ok: bool, fs': Fs)
    requires FsOk(fs) && StandsFor(fs.dirs, parent, leaf, ino)
    requires isDir == (ino in fs.dirs.dotdot) && (isDir ==> EmptyDir(fs.dirs, ino))
    ensures parent in fs.links && ino in fs.links && fs.perGroup > 0 && 0 <= GroupOf(ino, fs.perGroup) < |fs.used|
    ensures ok <==> !isDir || (fs.links[ino] >= 2 && fs.links[parent] > 0 && fs.used[GroupOf(ino, fs.perGroup)] > 0)
    ensures ok ==>
              && FsOk(fs') && fs'.count == fs.count && fs'.perGroup == fs.perGroup
              && fs' == if isDir then Removed(fs, parent, leaf, ino, open) else Unlinked(fs, parent, leaf, ino, open)
  {
    hide FsOk, GroupOf, Removed, Unlinked;
    FsFacts(fs);
    assert (parent, leaf) in fs.dirs.names;
    if isDir {
      ok, fs' := DetachDir(fs, parent, leaf, ino, open);
    } else {
      ok, fs' := DetachFile(fs, parent, leaf, ino, open);
    }
  }

  method DetachFile(fs: Fs, parent: int, leaf: string, ino: int, open: set<int>) returns (ok: bool, fs': Fs)
    requires FsOk(fs) && StandsFor(fs.dirs, parent, leaf, ino) && ino !in fs.dirs.dotdot && ino in fs.links
    ensures ok && FsOk(fs') && fs'.count == fs.count && fs'.perGroup == fs.perGroup
    ensures fs' == Unlinked(fs, parent, leaf, ino, open)
  {
    hide FsOk;
    NamedFile(fs, parent, leaf, ino);
    UnlinkedOk(fs, parent, leaf, ino, open);
    if fs.links[ino] == 0 {
      return false, fs;
    }
    ok := true;
    fs' := Reclaimed(fs.(dirs := DropName(fs.dirs, parent, leaf), links := fs.links[ino := fs.links[ino] - 1]),
                     ino, open);
  }

  method DetachDir(fs: Fs, parent: int, leaf: string, ino: int, open: set<int>) returns (ok: bool, fs': Fs)
    requires FsOk(fs) && StandsFor(fs.dirs, parent, leaf, ino) && ino in fs.dirs.dotdot && EmptyDir(fs.dirs, ino)
    requires parent in fs.links && ino in fs.links && fs.perGroup > 0 && 0 <= GroupOf(ino, fs.perGroup) < |fs.used|
    ensures ok <==> fs.links[ino] >= 2 && fs.links[parent] > 0 && fs.used[GroupOf(ino, fs.perGroup)] > 0
    ensures ok ==> FsOk(fs') && fs'.count == fs.count && fs'.perGroup == fs.perGroup
    ensures ok ==> fs' == Removed(fs, parent, leaf, ino, open)
  {
    hide FsOk, GroupOf, TreeOk;
    FsFacts(fs);
    DropDirOk(fs.dirs, parent, leaf, ino);
    if fs.links[ino] < 2 {
      return false, fs;
    }
    fs' := fs.(dirs := DropDir(fs.dirs, parent, leaf, ino), links := fs.links[ino := 0]);
    ok, fs' := UpdateParentLinks(fs', parent, -1);
    if ok {
      ok, fs' := UpdateGroupUsedDirs(fs', ino, -1);
    }
    if ok {
      RemovedOk(fs, parent, leaf, ino, open);
      fs' := Reclaimed(fs', ino, open);
    }
  }

  // ---- What the steps keep -------------------------------------------------------------------

  /** A named file has a link. */
  lemma NamedFile(fs: Fs, parent: int, leaf: string, ino: int)
    requires FsOk(fs) && StandsFor(fs.dirs, parent, leaf, ino) && ino !in fs.dirs.dotdot
    ensures ino in fs.links && 0 < fs.links[ino] < LIMIT16
  {
    hide TreeOk;
    assert (parent, leaf) in NamesOf(fs.dirs, ino);
  }

  lemma UnlinkedOk(fs: Fs, parent: int, leaf: string, ino: int, open: set<int>)
    requires FsOk(fs) && StandsFor(fs.dirs, parent, leaf, ino) && ino !in fs.dirs.dotdot && ino in fs.links
    ensures FsOk(Unlinked(fs, parent, leaf, ino, open))
    ensures CountsOk(fs) ==> CountsOk(Unlinked(fs, parent, leaf, ino, open))
  {
    hide TreeOk, Sized, InUse, FileLinks, LinksOk, UsedOk;
    NamedFile(fs, parent, leaf, ino);
    DropNameOk(fs.dirs, parent, leaf);
    var dirs := DropName(fs.dirs, parent, leaf);
    var links := Unlinked(fs, parent, leaf, ino, open).links;
    SizedLinks(fs, ino, fs.links[ino] - 1, open);
    FileDropped(fs, parent, leaf, ino, open);
    LinksElsewhere(fs.dirs.dotdot, fs.links, links);
  }

  /** A link count of an inode in use may change within 16 bits, and an inode may be freed. */
  lemma SizedLinks(fs: Fs, ino: int, n: int, open: set<int>)
    requires FsOk(fs) && ino in fs.links && 0 <= n < LIMIT16
    ensures Sized(Reclaimed(fs.(links := fs.links[ino := n]), ino, open).links, fs.used, fs.perGroup, fs.count)
    ensures Sized(fs.links[ino := n], fs.used, fs.perGroup, fs.count)
  {
    hide TreeOk, InUse, FileLinks, GroupOf;
  }

  lemma FileDropped(fs: Fs, parent: int, leaf: string, ino: int, open: set<int>)
    requires FsOk(fs) && StandsFor(fs.dirs, parent, leaf, ino) && ino !in fs.dirs.dotdot && ino in fs.links
    ensures InUse(DropName(fs.dirs, parent, leaf), Unlinked(fs, parent, leaf, ino, open).links)
    ensures FileLinks(DropName(fs.dirs, parent, leaf), Unlinked(fs, parent, leaf, ino, open).links)
    ensures forall d :: d in fs.dirs.dotdot && d in fs.links ==>
              && d in Unlinked(fs, parent, leaf, ino, open).links
              && Unlinked(fs, parent, leaf, ino, open).links[d] == fs.links[d]
  {
    hide TreeOk, Sized, NamesOf;
    var dirs := DropName(fs.dirs, parent, leaf);
    forall f ensures |NamesOf(dirs, f)| == |NamesOf(fs.dirs, f)| - if f == ino then 1 else 0 {
      NamesDrop((parent, leaf), f, fs.dirs, dirs);
    }
    if fs.links[ino] == 1 {
      NoNames(dirs, ino);
    }
  }

  lemma LinksElsewhere(dotdot: map<int, int>, links: map<int, int>, links': map<int, int>)
    requires forall d :: d in dotdot && d in links ==> d in links' && links'[d] == links[d]
    ensures LinksOk(dotdot, links) ==> LinksOk(dotdot, links')
  {
    hide Subdirs;
  }

  lemma RemovedOk(fs: Fs, parent: int, leaf: string, ino: int, open: set<int>)
    requires FsOk(fs) && StandsFor(fs.dirs, parent, leaf, ino) && ino in fs.dirs.dotdot && EmptyDir(fs.dirs, ino)
    requires parent in fs.links && ino in fs.links && fs.perGroup > 0 && 0 <= GroupOf(ino, fs.perGroup) < |fs.used|
    requires fs.links[parent] > 0 && fs.used[GroupOf(ino, fs.perGroup)] > 0
    ensures FsOk(Removed(fs, parent, leaf, ino, open))
  {
    hide TreeOk, InUse, FileLinks, GroupOf;
    DropDirOk(fs.dirs, parent, leaf, ino);
    DirDropped(fs, parent, leaf, ino, open);
  }

  lemma DirDropped(fs: Fs, parent: int, leaf: string, ino: int, open: set<int>)
    requires FsOk(fs) && StandsFor(fs.dirs, parent, leaf, ino) && ino in fs.dirs.dotdot && EmptyDir(fs.dirs, ino)
    requires parent in fs.links && ino in fs.links && fs.perGroup > 0 && 0 <= GroupOf(ino, fs.perGroup) < |fs.used|
    ensures InUse(DropDir(fs.dirs, parent, leaf, ino), Removed(fs, parent, leaf, ino, open).links)
    ensures FileLinks(DropDir(fs.dirs, parent, leaf, ino), Removed(fs, parent, leaf, ino, open).links)
  {
    hide TreeOk, Sized, NamesOf, GroupOf;
    FsFacts(fs);
    OnlyName(fs.dirs, parent, leaf, ino);
    var dirs := DropDir(fs.dirs, parent, leaf, ino);
    forall f ensures |NamesOf(dirs, f)| == |NamesOf(fs.dirs, f)| - if f == ino then 1 else 0 {
      NamesDrop((parent, leaf), f, fs.dirs, dirs);
    }
    NoNames(dirs, ino);
  }

  /** With right counts, removing an empty directory never fails and keeps them right. */
  lemma RemovedCounts(fs: Fs, parent: int, leaf: string, ino: int, open: set<int>)
    requires FsOk(fs) && StandsFor(fs.dirs, parent, leaf, ino) && ino in fs.dirs.dotdot && EmptyDir(fs.dirs, ino)
    requires CountsOk(fs)
    ensures parent in fs.links && ino in fs.links && fs.perGroup > 0 && 0 <= GroupOf(ino, fs.perGroup) < |fs.used|
    ensures fs.links[ino] >= 2 && fs.links[parent] > 0 && fs.used[GroupOf(ino, fs.perGroup)] > 0
    ensures CountsOk(Removed(fs, parent, leaf, ino, open))
  {
    hide FsOk, TreeOk, GroupOf, Subdirs, InGroup, UsedOk, EmptyDir;
    FsFacts(fs);
    DropDirOk(fs.dirs, parent, leaf, ino);
    UsedDrop(fs.dirs.dotdot, fs.used, fs.perGroup, ino);
    LinksDrop(fs.dirs.dotdot, fs.links, ino, Removed(fs, parent, leaf, ino, open).links);
  }

  // ---- Making a directory --------------------------------------------------------------------

  /** Directory c appears below p. The counts are plain 16-bit additions. */
  function Made(fs: Fs, p: int, n: string, c: int): Fs
    requires p in fs.links && fs.perGroup > 0 && 0 <= GroupOf(c, fs.perGroup) < |fs.used|
  {
    var g := GroupOf(c, fs.perGroup);
    fs.(dirs := AddDir(fs.dirs, p, n, c), links := fs.links[c := 2][p := (fs.links[p] + 1) % LIMIT16],
        used := fs.used[g := (fs.used[g] + 1) % LIMIT16])
  }

  /** A free inode can become a new directory. */
  ghost predicate Makeable(fs: Fs, p: int, n: string, c: int) {
    p in fs.dirs.dotdot && (p, n) !in fs.dirs.names && c !in fs.links && 1 <= c <= fs.count
  }

  lemma MakeFacts(fs: Fs, p: int, n: string, c: int)
    requires FsOk(fs) && Makeable(fs, p, n, c)
    ensures p in fs.links && fs.perGroup > 0 && 0 <= GroupOf(c, fs.perGroup) < |fs.used|
    ensures 0 <= fs.links[p] < LIMIT16 && 0 <= fs.used[GroupOf(c, fs.perGroup)] < LIMIT16
    ensures c !in fs.dirs.dotdot && c != ROOT && c != p && forall k :: k in fs.dirs.names ==> fs.dirs.names[k] != c
  {
    FsFacts(fs);
    hide TreeOk, FileLinks, GroupOf;
  }

  lemma MadeOk(fs: Fs, p: int, n: string, c: int)
    requires FsOk(fs) && Makeable(fs, p, n, c)
    ensures p in fs.links && fs.perGroup > 0 && 0 <= GroupOf(c, fs.perGroup) < |fs.used|
    ensures FsOk(Made(fs, p, n, c))
  {
    hide TreeOk, InUse, FileLinks, GroupOf;
    MakeFacts(fs, p, n, c);
    AddedDir(fs, p, n, c);
  }

  lemma AddedDir(fs: Fs, p: int, n: string, c: int)
    requires FsOk(fs) && Makeable(fs, p, n, c) && p in fs.links && fs.perGroup > 0
    requires 0 <= GroupOf(c, fs.perGroup) < |fs.used|
    ensures TreeOk(AddDir(fs.dirs, p, n, c))
    ensures InUse(AddDir(fs.dirs, p, n, c), Made(fs, p, n, c).links)
    ensures FileLinks(AddDir(fs.dirs, p, n, c), Made(fs, p, n, c).links)
  {
    MakeFacts(fs, p, n, c);
    AddDirOk(fs.dirs, p, n, c);
    hide TreeOk, Sized, NamesOf, GroupOf;
    var dirs := AddDir(fs.dirs, p, n, c);
    forall f ensures |NamesOf(dirs, f)| == |NamesOf(fs.dirs, f)| + if f == c then 1 else 0 {
      NamesAdd((p, n), c, f, fs.dirs, dirs);
    }
  }

  /** The counts stay right exactly when the link count of the parent is not at its 16-bit limit. */
  lemma MadeCounts(fs: Fs, p: int, n: string, c: int)
    requires FsOk(fs) && Makeable(fs, p, n, c) && CountsOk(fs)
    ensures p in fs.links && fs.perGroup > 0 && 0 <= GroupOf(c, fs.perGroup) < |fs.used|
    ensures CountsOk(Made(fs, p, n, c)) <==> fs.links[p] < LIMIT16 - 1
  {
    hide TreeOk, GroupOf, Subdirs, InGroup;
    MakeFacts(fs, p, n, c);
    FsFacts(fs);
    hide FsOk;
    var dotdot := fs.dirs.dotdot;
    var g := GroupOf(c, fs.perGroup);
    LinksAdd(dotdot, fs.links, p, c);
    UsedAdd(dotdot, fs.used, fs.perGroup, p, c);
    assert fs.links[p := fs.links[p] + 1][c := 2] == fs.links[c := 2][p := fs.links[p] + 1];
    if fs.links[p] == LIMIT16 - 1 {
      assert Made(fs, p, n, c).links[p] == 0;
    }
    GroupBound(dotdot, g, fs.perGroup);
  }

  // ---- Moving ----------------------------------------------------------------------------------

  /** An inode's name moves. A directory that changes its parent takes its place in both link
      counts along. */
  function Moved(fs: Fs, op: int, on: string, np: int, nn: string, c: int): Fs
    requires op in fs.links && np in fs.links
  {
    if c in fs.dirs.dotdot then
      fs.(dirs := MoveDir(fs.dirs, op, on, np, nn, c),
          links := if op == np then fs.links else fs.links[op := fs.links[op] - 1][np := fs.links[np] + 1])
    else
      fs.(dirs := DropName(AddName(fs.dirs, np, nn, c), op, on))
  }

  ghost predicate Movable(fs: Fs, op: int, on: string, np: int, nn: string, c: int) {
    && StandsFor(fs.dirs, op, on, c) && np in fs.dirs.dotdot && (np, nn) !in fs.dirs.names && Closed(fs.dirs.dotdot)
    && (c in fs.dirs.dotdot ==> forall k: nat :: Up(fs.dirs.dotdot, np, k) != c)
  }

  lemma MovedTree(fs: Fs, op: int, on: string, np: int, nn: string, c: int)
    requires FsOk(fs) && Movable(fs, op, on, np, nn, c) && op in fs.links && np in fs.links
    ensures TreeOk(Moved(fs, op, on, np, nn, c).dirs)
  {
    hide FsOk;
    FsFacts(fs);
    if c in fs.dirs.dotdot {
      var depth := RankOf(fs.dirs);
      if Above(fs.dirs.dotdot, depth, c, np) {
        AboveIsUp(fs.dirs.dotdot, depth, c, np);
        assert false;
      }
      MoveDirOk(fs.dirs, depth, op, on, np, nn, c);
    } else {
      AddNameOk(fs.dirs, np, nn, c);
      DropNameOk(AddName(fs.dirs, np, nn, c), op, on);
    }
  }

  lemma MovedOk(fs: Fs, op: int, on: string, np: int, nn: string, c: int)
    requires FsOk(fs) && Movable(fs, op, on, np, nn, c)
    ensures op in fs.links && np in fs.links
    ensures c !in fs.dirs.dotdot || op == np || (fs.links[op] > 0 && fs.links[np] < LIMIT16 - 1) ==>
              FsOk(Moved(fs, op, on, np, nn, c))
  {
    hide TreeOk, InUse, FileLinks, GroupOf;
    FsFacts(fs);
    assert (op, on) in fs.dirs.names;
    MovedTree(fs, op, on, np, nn, c);
    MovedNames(fs, op, on, np, nn, c);
  }

  lemma MovedNames(fs: Fs, op: int, on: string, np: int, nn: string, c: int)
    requires FsOk(fs) && Movable(fs, op, on, np, nn, c) && op in fs.dirs.dotdot && op in fs.links && np in fs.links
    ensures InUse(Moved(fs, op, on, np, nn, c).dirs, Moved(fs, op, on, np, nn, c).links)
    ensures FileLinks(Moved(fs, op, on, np, nn, c).dirs, Moved(fs, op, on, np, nn, c).links)
  {
    hide TreeOk, Sized, NamesOf, GroupOf;
    var mid := AddName(fs.dirs, np, nn, c);
    var dirs := Moved(fs, op, on, np, nn, c).dirs;
    assert dirs.names == mid.names - {(op, on)};
    forall f ensures |NamesOf(dirs, f)| == |NamesOf(fs.dirs, f)| {
      NamesAdd((np, nn), c, f, fs.dirs, mid);
      NamesDrop((op, on), f, mid, dirs);
    }
  }

  lemma MovedCounts(fs: Fs, op: int, on: string, np: int, nn: string, c: int)
    requires FsOk(fs) && Movable(fs, op, on, np, nn, c) && CountsOk(fs)
    ensures op in fs.links && np in fs.links && CountsOk(Moved(fs, op, on, np, nn, c))
  {
    hide TreeOk, GroupOf, Subdirs, InGroup;
    FsFacts(fs);
    hide FsOk;
    assert (op, on) in fs.dirs.names;
    if c in fs.dirs.dotdot {
      OnlyName(fs.dirs, op, on, c);
      UsedMove(fs.dirs.dotdot, fs.used, fs.perGroup, np, c);
      NotRoot(fs.dirs, op, on, c);
      if op == np {
        LinksSame(fs.dirs.dotdot, fs.links, np, c);
      } else {
        LinksMove(fs.dirs.dotdot, fs.links, np, c);
      }
    }
  }

  lemma NotRoot(t: Dirs, p: int, n: string, c: int)
    requires TreeOk(t) && StandsFor(t, p, n, c) && c in t.dotdot
    ensures c != ROOT
  {
  }

  // ---- The handlers ----------------------------------------------------------------------------

  /** Whatever stands in the way of a new name is gone. */
  function Cleared(fs: Fs, np: int, nn: string, open: set<int>): Fs
    requires np in fs.links && fs.perGroup > 0
    requires (np, nn) in fs.dirs.names ==>
               fs.dirs.names[(np, nn)] in fs.links && 0 <= GroupOf(fs.dirs.names[(np, nn)], fs.perGroup) < |fs.used|
  {
    if (np, nn) !in fs.dirs.names then fs
    else if fs.dirs.names[(np, nn)] in fs.dirs.dotdot then Removed(fs, np, nn, fs.dirs.names[(np, nn)], open)
    else Unlinked(fs, np, nn, fs.dirs.names[(np, nn)], open)
  }

  /** Once the way is cleared, the name can move. */
  lemma ClearedMovable(fs: Fs, op: int, on: string, np: int, nn: string, c: int, open: set<int>)
    requires FsOk(fs) && StandsFor(fs.dirs, op, on, c) && np in fs.dirs.dotdot && (op, on) != (np, nn)
    requires Closed(fs.dirs.dotdot)
    requires c in fs.dirs.dotdot ==> forall k: nat :: Up(fs.dirs.dotdot, np, k) != c
    requires np in fs.links && fs.perGroup > 0
    requires (np, nn) in fs.dirs.names ==>
               && fs.dirs.names[(np, nn)] in fs.links && 0 <= GroupOf(fs.dirs.names[(np, nn)], fs.perGroup) < |fs.used|
               && fs.dirs.names[(np, nn)] != c && (c in fs.dirs.dotdot <==> fs.dirs.names[(np, nn)] in fs.dirs.dotdot)
               && (c in fs.dirs.dotdot ==> EmptyDir(fs.dirs, fs.dirs.names[(np, nn)]))
    requires FsOk(Cleared(fs, np, nn, open))
    ensures Movable(Cleared(fs, np, nn, open), op, on, np, nn, c)
    ensures c in fs.dirs.dotdot <==> c in Cleared(fs, np, nn, open).dirs.dotdot
  {
    hide FsOk, TreeOk, GroupOf;
    FsFacts(fs);
    FsFacts(Cleared(fs, np, nn, open));
    if (np, nn) in fs.dirs.names && c in fs.dirs.dotdot {
      var e := fs.dirs.names[(np, nn)];
      DropDirOk(fs.dirs, np, nn, e);
      forall k: nat ensures Up(fs.dirs.dotdot - {e}, np, k) != c {
        UpWithout(fs.dirs.dotdot, e, np, k);
      }
    }
  }

  // ---- What the handlers do, on the fields -----------------------------------------------------

  /** Inode ino has n links; without links and open handles it is free. */
  function WithLinks(links: map<int, int>, ino: int, n: int, open: set<int>): map<int, int> {
    if n == 0 && ino !in open then links - {ino} else links[ino := n]
  }

  /** The group of an inode counts n more directories, in 16 bits. */
  ghost predicate CountedIn(fs: Fs, ino: int, n: int, used: seq<int>) {
    && fs.perGroup > 0 && |used| == |fs.used|
    && forall g :: 0 <= g < |used| ==>
         used[g] == if g == GroupOf(ino, fs.perGroup) then (fs.used[g] + n) % LIMIT16 else fs.used[g]
  }

  /** What a name stands for, if anything. */
  function Target(t: Dirs, p: int, n: string): set<int> {
    if (p, n) in t.names then {t.names[(p, n)]} else {}
  }

  /** The links of a directory d once directory c went from op to np, in place of a directory or not. */
  function LinksAfter(links: int, d: int, op: int, np: int, over: bool): int {
    links - (if d == op then 1 else 0) + (if d == np then 1 else 0) - (if d == np && over then 1 else 0)
  }

  /** All counts follow a rename of c from directory op to directory np, where it takes the place of
      the target. */
  ghost predicate CountsFollow(fs: Fs, op: int, c: int, np: int, target: set<int>, open: set<int>, after: Fs) {
    && after.links.Keys <= fs.links.Keys
    && (forall i :: i in fs.links && i !in target ==>
          && i in after.links
          && after.links[i] ==
               if c in fs.dirs.dotdot then LinksAfter(fs.links[i], i, op, np, target != {}) else fs.links[i])
    && (forall e :: e in target ==>
          && e in fs.links
          && (e in after.links <==> e in open || (c !in fs.dirs.dotdot && fs.links[e] > 1))
          && (e in after.links ==> after.links[e] == if c in fs.dirs.dotdot then 0 else fs.links[e] - 1))
    && (c !in fs.dirs.dotdot || target == {} ==> after.used == fs.used)
    && (c in fs.dirs.dotdot ==> forall e :: e in target ==> CountedIn(fs, e, -1, after.used))
  }

  lemma ClearedFields(fs: Fs, c: int, np: int, nn: string, open: set<int>)
    requires FsOk(fs) && np in fs.dirs.dotdot && Clearing(fs, np, nn) && Clearable(fs, c, np, nn)
    requires c in fs.dirs.dotdot && (np, nn) in fs.dirs.names ==>
               fs.used[GroupOf(fs.dirs.names[(np, nn)], fs.perGroup)] > 0
    ensures var w := Cleared(fs, np, nn, open);
            && w.dirs.names == fs.dirs.names - {(np, nn)}
            && w.dirs.dotdot == fs.dirs.dotdot - Target(fs.dirs, np, nn)
            && CountsFollow(fs, np, c, np, Target(fs.dirs, np, nn), open, w)
  {
    hide GroupOf, TreeOk;
    FsFacts(fs);
    if (np, nn) in fs.dirs.names {
      var e := fs.dirs.names[(np, nn)];
      if c in fs.dirs.dotdot {
        DropDirOk(fs.dirs, np, nn, e);
      } else {
        NamedFile(fs, np, nn, e);
      }
    }
  }

  /** A rename as the handler does it, on names, parent entries and counts. */
  lemma RenamedFields(fs: Fs, op: int, on: string, np: int, nn: string, c: int, open: set<int>, after: Fs)
    requires FsOk(fs) && op in fs.dirs.dotdot && np in fs.dirs.dotdot && StandsFor(fs.dirs, op, on, c)
    requires (op, on) != (np, nn) && Clearing(fs, np, nn) && Clearable(fs, c, np, nn)
    requires c in fs.dirs.dotdot && (np, nn) in fs.dirs.names ==>
               fs.used[GroupOf(fs.dirs.names[(np, nn)], fs.perGroup)] > 0
    requires RenamedTo(fs, op, on, np, nn, open, after)
    ensures after.dirs.names == fs.dirs.names - {(op, on)} + map[(np, nn) := c]
    ensures after.dirs.dotdot.Keys == fs.dirs.dotdot.Keys - Target(fs.dirs, np, nn)
    ensures forall d :: d in after.dirs.dotdot ==> after.dirs.dotdot[d] == if d == c then np else fs.dirs.dotdot[d]
    ensures CountsFollow(fs, op, c, np, Target(fs.dirs, np, nn), open, after)
  {
    hide GroupOf, FsOk, Cleared;
    ClearedFields(fs, c, np, nn, open);
    if c in fs.dirs.dotdot && (np, nn) in fs.dirs.names {
      assert EmptyDir(fs.dirs, fs.dirs.names[(np, nn)]);
    }
  }

  /** The server's directory requests, each naming directories that its path walk has found. */
  class Server {
    var fs: Fs
    var open: set<int>   // inodes with open handles

    constructor (root: Fs)
      requires FsOk(root)
      ensures fs == root && open == {}
    {
      fs := root;
      open := {};
    }

    /** Makes a directory. `newIno` is the inode the allocator gives, 0 for none; `room` whether
        there is a block for it and for its name. */
    method Mkdir(parent: int, name: string, newIno: int, room: bool) returns (status: int)
      requires FsOk(fs) && parent in fs.dirs.dotdot && (newIno == 0 || (1 <= newIno <= fs.count && newIno !in fs.links))
      modifies `fs
      ensures FsOk(fs) && fs.count == old(fs.count) && fs.perGroup == old(fs.perGroup)
      ensures status != OK ==> fs == old(fs)
      ensures status == EXISTS <==> Find(old(fs.dirs), parent, name) != 0
      ensures status == NO_SPACE <==> Find(old(fs.dirs), parent, name) == 0 && (newIno == 0 || !room)
      ensures status == OK || status == EXISTS || status == NO_SPACE
      ensures status == OK ==>
                && Makeable(old(fs), parent, name, newIno)
                && fs.dirs.names == old(fs.dirs.names)[(parent, name) := newIno]
                && fs.dirs.dotdot == old(fs.dirs.dotdot)[newIno := parent]
      ensures status == OK ==>
                && parent in old(fs.links)
                && fs.links == old(fs.links)[newIno := 2][parent := (old(fs.links)[parent] + 1) % LIMIT16]
                && CountedIn(old(fs), newIno, 1, fs.used)
      ensures status == OK && CountsOk(old(fs)) ==> (CountsOk(fs) <==> !Full(old(fs), parent))
    {
      hide FsOk, CountsOk, GroupOf;
      FsFacts(fs);
      if Find(fs.dirs, parent, name) != 0 {
        return EXISTS;
      }
      FindNone(fs, parent, name);
      if newIno == 0 || !room {
        return NO_SPACE;
      }
      MakeFacts(fs, parent, name, newIno);
      MadeOk(fs, parent, name, newIno);
      if CountsOk(fs) {
        MadeCounts(fs, parent, name, newIno);
      }
      fs := Made(fs, parent, name, newIno);
      status := OK;
    }

    /** Removes an empty directory. */
    method Rmdir(parent: int, leaf: string) returns (status: int)
      requires FsOk(fs) && parent in fs.dirs.dotdot
      modifies `fs
      ensures FsOk(fs) && fs.count == old(fs.count) && fs.perGroup == old(fs.perGroup)
      ensures status != OK ==> fs == old(fs)
      ensures status == INVALID <==> !ValidLeaf(leaf)
      ensures status == NOT_FOUND <==> ValidLeaf(leaf) && (parent, leaf) !in old(fs.dirs.names)
      ensures ValidLeaf(leaf) && (parent, leaf) in old(fs.dirs.names) ==>
                var ino := old(fs.dirs.names)[(parent, leaf)];
                && (status == NOT_DIR <==> ino !in old(fs.dirs.dotdot))
                && (status == NOT_EMPTY <==> ino in old(fs.dirs.dotdot) && !EmptyDir(old(fs.dirs), ino))
                && (CountsOk(old(fs)) ==> (status == OK <==> ino in old(fs.dirs.dotdot) && EmptyDir(old(fs.dirs), ino)))
      ensures status == OK ==>
                && ValidLeaf(leaf) && (parent, leaf) in old(fs.dirs.names)
                && var ino := old(fs.dirs.names)[(parent, leaf)];
                   && ino in old(fs.dirs.dotdot) && EmptyDir(old(fs.dirs), ino)
                   && fs.dirs.names == old(fs.dirs.names) - {(parent, leaf)}
                   && fs.dirs.dotdot == old(fs.dirs.dotdot) - {ino}
                   && parent in old(fs.links)
                   && fs.links == WithLinks(old(fs.links), ino, 0, open)[parent := old(fs.links)[parent] - 1]
                   && CountedIn(old(fs), ino, -1, fs.used)
      ensures CountsOk(old(fs)) ==> CountsOk(fs)
    {
      hide FsOk, CountsOk, GroupOf, EmptyDir;
      FsFacts(fs);
      if !ValidLeaf(leaf) {
        return INVALID;
      }
      var ino := Find(fs.dirs, parent, leaf);
      if ino == 0 {
        return NOT_FOUND;
      }
      if ino !in fs.dirs.dotdot {
        return NOT_DIR;
      }
      if !EmptyDir(fs.dirs, ino) {
        return NOT_EMPTY;
      }
      DropDirOk(fs.dirs, parent, leaf, ino);
      if CountsOk(fs) {
        RemovedCounts(fs, parent, leaf, ino, open);
      }
      var ok, after := DetachExisting(fs, parent, leaf, ino, true, open);
      if !ok {
        return NO_SPACE;
      }
      fs := after;
      status := OK;
    }

    /** Removes a name of a file. */
    method Unlink(parent: int, leaf: string) returns (status: int)
      requires FsOk(fs) && parent in fs.dirs.dotdot
      modifies `fs
      ensures FsOk(fs) && fs.count == old(fs.count) && fs.perGroup == old(fs.perGroup)
      ensures status != OK ==> fs == old(fs)
      ensures status == INVALID <==> !ValidLeaf(leaf)
      ensures status == NOT_FOUND <==> ValidLeaf(leaf) && (parent, leaf) !in old(fs.dirs.names)
      ensures ValidLeaf(leaf) && (parent, leaf) in old(fs.dirs.names) ==>
                var ino := old(fs.dirs.names)[(parent, leaf)];
                && (status == IS_DIR <==> ino in old(fs.dirs.dotdot))
                && (status == OK <==> ino !in old(fs.dirs.dotdot))
      ensures status == OK ==>
                && fs.dirs.names == old(fs.dirs.names) - {(parent, leaf)}
                && fs.dirs.dotdot == old(fs.dirs.dotdot) && fs.used == old(fs.used)
      ensures status == OK ==>
                && (parent, leaf) in old(fs.dirs.names) && old(fs.dirs.names)[(parent, leaf)] in old(fs.links)
                && var ino := old(fs.dirs.names)[(parent, leaf)];
                   fs.links == WithLinks(old(fs.links), ino, old(fs.links)[ino] - 1, open)
      ensures CountsOk(old(fs)) ==> CountsOk(fs)
    {
      hide FsOk, CountsOk, GroupOf;
      FsFacts(fs);
      if !ValidLeaf(leaf) {
        return INVALID;
      }
      var ino := Find(fs.dirs, parent, leaf);
      if ino == 0 {
        return NOT_FOUND;
      }
      if ino in fs.dirs.dotdot {
        return IS_DIR;
      }
      UnlinkedOk(fs, parent, leaf, ino, open);
      var ok, after := DetachExisting(fs, parent, leaf, ino, false, open);
      fs := after;
      status := OK;
    }

    /** Moves a name, to take the place of an existing one if it may. */
    method Rename(op: int, on: string, np: int, nn: string, room: bool) returns (status: int)
      requires FsOk(fs) && op in fs.dirs.dotdot && np in fs.dirs.dotdot
      modifies `fs
      ensures FsOk(fs) && fs.count == old(fs.count) && fs.perGroup == old(fs.perGroup)
      ensures status != OK ==> fs == old(fs)
      ensures status == OK ==> ValidLeaf(on) && ValidLeaf(nn) && (op, on) in old(fs.dirs.names)
      ensures status == OK && !SameInode(old(fs.dirs), op, on, np, nn) ==>
                && fs.dirs.names == old(fs.dirs.names) - {(op, on)} + map[(np, nn) := old(fs.dirs.names)[(op, on)]]
                && fs.dirs.dotdot.Keys == old(fs.dirs.dotdot).Keys - Target(old(fs.dirs), np, nn)
                && forall d :: d in fs.dirs.dotdot ==>
                     fs.dirs.dotdot[d] == if d == old(fs.dirs.names)[(op, on)] then np else old(fs.dirs.dotdot)[d]
      ensures status == OK && !SameInode(old(fs.dirs), op, on, np, nn) ==>
                CountsFollow(old(fs), op, old(fs.dirs.names)[(op, on)], np, Target(old(fs.dirs), np, nn), open, fs)
      ensures status == OK && SameInode(old(fs.dirs), op, on, np, nn) ==> fs == old(fs)
      ensures CountsOk(old(fs)) ==> CountsOk(fs)
      ensures CountsOk(old(fs)) ==>
                (status == NO_SPACE <==>
                  MayMove(old(fs), op, on, np, nn) && (!room || Stopped(old(fs), op, on, np, nn, open)))
      ensures CountsOk(old(fs)) ==>
                (status == OK <==>
                  || (ValidLeaf(on) && ValidLeaf(nn) && SameInode(old(fs.dirs), op, on, np, nn))
                  || (MayMove(old(fs), op, on, np, nn) && room && !Stopped(old(fs), op, on, np, nn, open)))
    {
      hide FsOk, CountsOk, GroupOf, EmptyDir, CountsFollow, TreeOk, Stopped, Clearable;
      FsFacts(fs);
      if !ValidLeaf(on) {
        return INVALID;
      }
      var c := Find(fs.dirs, op, on);
      if c == 0 {
        return NOT_FOUND;
      }
      if !ValidLeaf(nn) {
        return INVALID;
      }
      if op == np && on == nn {
        return OK;
      }
      var isDir := c in fs.dirs.dotdot;
      if isDir {
        if SameInode(fs.dirs, op, on, np, nn) {
          OneName(fs.dirs, op, on, np, nn);
          assert false;
        }
        var ancestry := IsAncestor(fs, c, np);
        if ancestry != 0 {
          return INVALID;
        }
      }
      assert c == fs.dirs.names[(op, on)] && (isDir ==> forall k: nat :: Up(fs.dirs.dotdot, np, k) != c);
      assert MayMove(fs, op, on, np, nn) <==> Clearable(fs, c, np, nn);
      status, fs := MoveOver(fs, op, on, np, nn, c, open, room);
    }

    /** Any sequence of requests, answered in order, leaves a tree, each doing what it is for; and right
        counts, unless a directory was made in one whose link count was full. */
    method Run(requests: seq<Request>) returns (ghost overran: bool, ghost trace: seq<Volume>)
      requires FsOk(fs)
      modifies this
      ensures |trace| == |requests| + 1 && trace[0] == old(Volume(fs, open)) && trace[|requests|] == Volume(fs, open)
      ensures forall k :: 0 <= k < |requests| ==> Did(requests[k], trace[k], trace[k + 1])
      ensures FsOk(fs) && fs.count == old(fs.count) && fs.perGroup == old(fs.perGroup)
      ensures CountsOk(old(fs)) && !overran ==> CountsOk(fs)
    {
      hide FsOk, CountsOk, Did;
      overran := false;
      trace := [Volume(fs, open)];
      for i := 0 to |requests|
        invariant |trace| == i + 1 && trace[0] == old(Volume(fs, open)) && trace[i] == Volume(fs, open)
        invariant forall k :: 0 <= k < i ==> Did(requests[k], trace[k], trace[k + 1])
        invariant FsOk(fs) && fs.count == old(fs.count) && fs.perGroup == old(fs.perGroup)
        invariant CountsOk(old(fs)) && !overran ==> CountsOk(fs)
      {
        ghost var full := Serve(requests[i]);
        overran := overran || full;
        trace := trace + [Volume(fs, open)];
      }
    }

    /** Answers one request; one that names no directory does nothing. */
    method Serve(q: Request) returns (ghost full: bool)
      requires FsOk(fs)
      modifies this
      ensures FsOk(fs) && fs.count == old(fs.count) && fs.perGroup == old(fs.perGroup)
      ensures full <==> q.DoMkdir? && Full(old(fs), q.dir) && fs.dirs != old(fs.dirs)
      ensures CountsOk(old(fs)) ==> (CountsOk(fs) <==> !full)
      ensures Did(q, old(Volume(fs, open)), Volume(fs, open))
    {
      hide FsOk, CountsOk, EmptyDir, GroupOf, MayMove, Stopped, CountsFollow, CountedIn;
      full := false;
      match q
      case DoMkdir(p, n, newIno, room) =>
        if p in fs.dirs.dotdot && (newIno == 0 || (1 <= newIno <= fs.count && newIno !in fs.links)) {
          FsFacts(fs);
          var status := Mkdir(p, n, newIno, room);
          full := status == OK && Full(old(fs), p);
          assert status == OK ==> newIno in fs.dirs.dotdot;
        }
      case DoRmdir(p, n) =>
        if p in fs.dirs.dotdot {
          var _ := Rmdir(p, n);
        }
      case DoUnlink(p, n) =>
        if p in fs.dirs.dotdot {
          var _ := Unlink(p, n);
        }
      case DoRename(op, on, np, nn, room) =>
        if op in fs.dirs.dotdot && np in fs.dirs.dotdot {
          var _ := Rename(op, on, np, nn, room);
        }
      case DoOpen(ino) =>
        open := open + {ino};
      case DoClose(ino) =>
        Close(ino);
    }

    /** The last handle of an inode closes: an inode outside the tree that no name stands for is
        freed. */
    method Close(ino: int)
      requires FsOk(fs)
      modifies this
      ensures FsOk(fs) && open == old(open) - {ino}
      ensures CountsOk(old(fs)) ==> CountsOk(fs)
      ensures fs == old(fs).(links := fs.links)
      ensures fs.links == if ino in old(fs.links) && ino !in old(fs.dirs.dotdot) && old(fs.links)[ino] == 0
                          then old(fs.links) - {ino} else old(fs.links)
    {
      hide FsOk, CountsOk;
      open := open - {ino};
      if ino in fs.links && ino !in fs.dirs.dotdot {
        ReclaimedOk(fs, ino, open);
        fs := Reclaimed(fs, ino, open);
      }
    }
  }

  lemma ReclaimedOk(fs: Fs, ino: int, open: set<int>)
    requires FsOk(fs) && ino in fs.links && ino !in fs.dirs.dotdot
    ensures FsOk(Reclaimed(fs, ino, open))
    ensures CountsOk(fs) ==> CountsOk(Reclaimed(fs, ino, open))
  {
    hide TreeOk, GroupOf, Subdirs, InGroup, UsedOk;
    if fs.links[ino] == 0 {
      NoNames(fs.dirs, ino);
    }
  }

  /** The file system and the inodes with open handles. */
  datatype Volume = Volume(fs: Fs, open: set<int>)

  /** What a request does, where it can be granted. */
  ghost predicate Did(q: Request, v: Volume, w: Volume) {
    match q
    case DoMkdir(p, n, newIno, room) =>
      p in v.fs.dirs.dotdot && Find(v.fs.dirs, p, n) == 0 && room && 1 <= newIno <= v.fs.count
      && newIno !in v.fs.links ==>
        && w.fs.dirs.names == v.fs.dirs.names[(p, n) := newIno]
        && w.fs.dirs.dotdot == v.fs.dirs.dotdot[newIno := p] && w.open == v.open
    case DoRmdir(p, n) =>
      p in v.fs.dirs.dotdot && ValidLeaf(n) && (p, n) in v.fs.dirs.names && CountsOk(v.fs)
      && v.fs.dirs.names[(p, n)] in v.fs.dirs.dotdot && EmptyDir(v.fs.dirs, v.fs.dirs.names[(p, n)]) ==>
        && w.fs.dirs.names == v.fs.dirs.names - {(p, n)}
        && w.fs.dirs.dotdot == v.fs.dirs.dotdot - {v.fs.dirs.names[(p, n)]} && w.open == v.open
    case DoUnlink(p, n) =>
      p in v.fs.dirs.dotdot && ValidLeaf(n) && (p, n) in v.fs.dirs.names
      && v.fs.dirs.names[(p, n)] !in v.fs.dirs.dotdot ==>
        && w.fs.dirs.names == v.fs.dirs.names - {(p, n)}
        && w.fs.dirs.dotdot == v.fs.dirs.dotdot && w.open == v.open
    case DoRename(op, on, np, nn, room) =>
      op in v.fs.dirs.dotdot && np in v.fs.dirs.dotdot && CountsOk(v.fs) && MayMove(v.fs, op, on, np, nn) && room
      && !Stopped(v.fs, op, on, np, nn, v.open) && (op, on) in v.fs.dirs.names
      && !SameInode(v.fs.dirs, op, on, np, nn) ==>
        && w.fs.dirs.names == v.fs.dirs.names - {(op, on)} + map[(np, nn) := v.fs.dirs.names[(op, on)]]
        && w.open == v.open
    case DoOpen(ino) => w.open == v.open + {ino} && w.fs == v.fs
    case DoClose(ino) => w.open == v.open - {ino} && w.fs.dirs == v.fs.dirs
  }

  datatype Request =
    | DoMkdir(dir: int, name: string, newIno: int, room: bool)
    | DoRmdir(dir: int, name: string)
    | DoUnlink(dir: int, name: string)
    | DoRename(op: int, on: string, np: int, nn: string, room: bool)
    | DoOpen(ino: int)
    | DoClose(ino: int)

  /** On a file system with few enough inodes no count comes near its limit. */
  lemma BelowLimit(fs: Fs)
    requires FsOk(fs) && CountsOk(fs) && fs.count < LIMIT16 - 3
    ensures forall d :: d in fs.dirs.dotdot ==> !Full(fs, d)
  {
    hide FsOk, GroupOf;
    FsFacts(fs);
    forall d | d in fs.dirs.dotdot ensures !Full(fs, d) {
      PigeonHole(Subdirs(fs.dirs.dotdot, d), 0, fs.count);
    }
  }

  /** The directory can count no more subdirectories. */
  ghost predicate Full(fs: Fs, d: int) { d in fs.links && fs.links[d] == LIMIT16 - 1 }

  /** What may be cleared away for a rename of c: nothing, or another inode of the same kind, and
      of a directory only an empty one. */
  ghost predicate Clearable(fs: Fs, c: int, np: int, nn: string) {
    (np, nn) in fs.dirs.names ==>
      var target := fs.dirs.names[(np, nn)];
      && target != c && (c in fs.dirs.dotdot <==> target in fs.dirs.dotdot)
      && (c in fs.dirs.dotdot ==> EmptyDir(fs.dirs, target))
  }

  /** Nothing but lack of space is in the way of a rename. */
  ghost predicate MayMove(fs: Fs, op: int, on: string, np: int, nn: string)
    requires np in fs.dirs.dotdot
  {
    && ValidLeaf(on) && ValidLeaf(nn) && (op, on) in fs.dirs.names && (op, on) != (np, nn)
    && var c := fs.dirs.names[(op, on)];
       && Closed(fs.dirs.dotdot) && (c in fs.dirs.dotdot ==> forall k: nat :: Up(fs.dirs.dotdot, np, k) != c)
       && Clearable(fs, c, np, nn)
  }

  /** A directory is to move to another one that, with the way cleared, is still full. */
  ghost predicate Stopped(fs: Fs, op: int, on: string, np: int, nn: string, open: set<int>) {
    && Clearing(fs, np, nn) && (op, on) in fs.dirs.names && fs.dirs.names[(op, on)] in fs.dirs.dotdot
    && op != np && Full(Cleared(fs, np, nn, open), np)
  }

  ghost predicate Clearing(fs: Fs, np: int, nn: string) {
    && np in fs.links && fs.perGroup > 0
    && ((np, nn) in fs.dirs.names ==>
          fs.dirs.names[(np, nn)] in fs.links && 0 <= GroupOf(fs.dirs.names[(np, nn)], fs.perGroup) < |fs.used|)
  }

  // ---- A directory at the limit ----------------------------------------------------------------

  /** A volume of 70000 inodes that has just its root. */
  function JustRoot(): Fs {
    Fs(Dirs(map[], map[ROOT := ROOT]), map[ROOT := 2], [1, 0, 0], GROUP_MAX, 70000)
  }

  lemma JustRootOk()
    ensures FsOk(JustRoot()) && CountsOk(JustRoot())
  {
    var fs := JustRoot();
    var depth: map<int, nat>, leaf: map<int, string> := map[ROOT := 0], map[];
    assert Ranked(fs.dirs.dotdot, depth) && Named(fs.dirs, leaf);
    assert Subdirs(fs.dirs.dotdot, ROOT) == {};
    assert InGroup(fs.dirs.dotdot, 0, GROUP_MAX) == {ROOT};
    assert InGroup(fs.dirs.dotdot, 1, GROUP_MAX) == {} == InGroup(fs.dirs.dotdot, 2, GROUP_MAX);
    forall ino | 1 <= ino <= fs.count ensures 0 <= GroupOf(ino, GROUP_MAX) < 3 {}
  }

  /** Three letters for each number below 68921. */
  function Letter(x: nat): char
    requires x < 41
  {
    (65 + x) as char
  }

  function NameOf(i: nat): string
    requires i < 68921
  {
    [Letter(i / 1681), Letter(i / 41 % 41), Letter(i % 41)]
  }

  lemma NamesDiffer(i: nat, j: nat)
    requires i < 68921 && j < 68921 && NameOf(i) == NameOf(j)
    ensures i == j
  {
    hide Letter;
    assert NameOf(i)[0] == NameOf(j)[0] && NameOf(i)[1] == NameOf(j)[1] && NameOf(i)[2] == NameOf(j)[2];
    SameLetter(i / 1681, j / 1681);
    SameLetter(i / 41 % 41, j / 41 % 41);
    SameLetter(i % 41, j % 41);
    Digits(i);
    Digits(j);
  }

  lemma SameLetter(x: nat, y: nat)
    requires x < 41 && y < 41 && Letter(x) == Letter(y)
    ensures x == y
  {
    assert (Letter(x) as int) - 65 == x;
  }

  lemma Digits(i: nat)
    ensures i == 1681 * (i / 1681) + 41 * (i / 41 % 41) + i % 41
  {
    assert i / 41 / 41 == i / 1681;
  }

  /** The root after n directories were made in it, with inodes from 3 on and three-letter names. */
  ghost predicate GrownTo(fs: Fs, n: nat) {
    && FsOk(fs) && CountsOk(fs) && fs.count == 70000 && ROOT in fs.dirs.dotdot && ROOT in fs.links
    && fs.links[ROOT] == 2 + n
    && (forall ino :: ino in fs.links ==> ino < 3 + n)
    && forall k :: k in fs.dirs.names ==> exists i :: 0 <= i < n && i < 68921 && k.1 == NameOf(i)
  }

  lemma GrowOnce(fs: Fs, n: nat)
    requires GrownTo(fs, n) && n < LIMIT16 - 3
    ensures ROOT in fs.links && fs.perGroup > 0 && 0 <= GroupOf(3 + n, fs.perGroup) < |fs.used|
    ensures GrownTo(Made(fs, ROOT, NameOf(n), 3 + n), n + 1)
  {
    hide FsOk, CountsOk, GroupOf, AddDir, NameOf;
    var name := NameOf(n);
    NewName(fs, n);
    MakeFacts(fs, ROOT, name, 3 + n);
    MadeOk(fs, ROOT, name, 3 + n);
    MadeCounts(fs, ROOT, name, 3 + n);
    AddedNames(fs, ROOT, name, 3 + n);
  }

  lemma NewName(fs: Fs, n: nat)
    requires GrownTo(fs, n) && n <= LIMIT16 - 3
    ensures (ROOT, NameOf(n)) !in fs.dirs.names
  {
    hide FsOk, CountsOk, NameOf;
    forall i | 0 <= i < n ensures NameOf(i) != NameOf(n) {
      if NameOf(i) == NameOf(n) {
        NamesDiffer(i, n);
      }
    }
  }

  lemma {:induction false} Grow(n: nat) returns (fs: Fs)
    requires n <= LIMIT16 - 3
    ensures GrownTo(fs, n)
  {
    hide GrownTo;
    if n == 0 {
      fs := JustRoot();
      Sprout();
    } else {
      fs := Grow(n - 1);
      GrowOnce(fs, n - 1);
      fs := Made(fs, ROOT, NameOf(n - 1), 2 + n);
    }
  }

  lemma Sprout()
    ensures GrownTo(JustRoot(), 0)
  {
    hide FsOk, CountsOk;
    JustRootOk();
  }

  lemma AddedNames(fs: Fs, p: int, n: string, c: int)
    ensures forall k :: k in AddDir(fs.dirs, p, n, c).names ==> k in fs.dirs.names || k == (p, n)
    ensures forall d :: d in fs.dirs.dotdot ==> d in AddDir(fs.dirs, p, n, c).dotdot
  {
  }

  /** A volume with right counts can be at the limit: the next directory made in its root breaks
      them. */
  lemma LimitIsReached() returns (fs: Fs, name: string)
    ensures FsOk(fs) && CountsOk(fs) && Full(fs, ROOT) && Makeable(fs, ROOT, name, LIMIT16)
    ensures fs.perGroup > 0 && 0 <= GroupOf(LIMIT16, fs.perGroup) < |fs.used|
    ensures !CountsOk(Made(fs, ROOT, name, LIMIT16))
  {
    hide FsOk, CountsOk, GroupOf, NameOf;
    fs := Grow(LIMIT16 - 3);
    name := NameOf(LIMIT16 - 3);
    NewName(fs, LIMIT16 - 3);
    MadeCounts(fs, ROOT, name, LIMIT16);
  }

  /** With right counts, a move is stopped exactly by a full link count of the new parent. */
  lemma MoveStops(fs: Fs, op: int, on: string, np: int, nn: string, c: int, open: set<int>)
    requires Clearing(fs, np, nn) && StandsFor(fs.dirs, op, on, c)
    requires c in fs.dirs.dotdot <==> c in Cleared(fs, np, nn, open).dirs.dotdot
    requires FsOk(Cleared(fs, np, nn, open)) && CountsOk(Cleared(fs, np, nn, open))
    requires Movable(Cleared(fs, np, nn, open), op, on, np, nn, c)
    ensures op in Cleared(fs, np, nn, open).links && np in Cleared(fs, np, nn, open).links
    ensures var links := Cleared(fs, np, nn, open).links;
            Stopped(fs, op, on, np, nn, open) <==>
              c in fs.dirs.dotdot && op != np && !(links[op] > 0 && links[np] < LIMIT16 - 1)
  {
    hide FsOk, GroupOf, Subdirs;
    var cleared := Cleared(fs, np, nn, open);
    FsFacts(cleared);
    assert (op, on) in cleared.dirs.names;
  }

  const SAME: int := 1   // the new name already stands for the inode

  /** Both names stand for one inode. */
  predicate SameInode(t: Dirs, op: int, on: string, np: int, nn: string) {
    (op, on) in t.names && (np, nn) in t.names && t.names[(op, on)] == t.names[(np, nn)]
  }

  /** The way is cleared and the name moved. */
  ghost predicate RenamedTo(fs: Fs, op: int, on: string, np: int, nn: string, open: set<int>, after: Fs) {
    && np in fs.links && op in fs.links && fs.perGroup > 0 && (op, on) in fs.dirs.names
    && ((np, nn) in fs.dirs.names ==>
          fs.dirs.names[(np, nn)] in fs.links && 0 <= GroupOf(fs.dirs.names[(np, nn)], fs.perGroup) < |fs.used|)
    && np in Cleared(fs, np, nn, open).links && op in Cleared(fs, np, nn, open).links
    && after == Moved(Cleared(fs, np, nn, open), op, on, np, nn, fs.dirs.names[(op, on)])
  }

  /** Clears the way and moves the name of c; nothing is done when both names stand for c. */
  method MoveOver(fs: Fs, op: int, on: string, np: int, nn: string, c: int, open: set<int>, room: bool)
    returns (status: int, fs': Fs)
    requires FsOk(fs) && op in fs.dirs.dotdot && np in fs.dirs.dotdot && StandsFor(fs.dirs, op, on, c)
    requires ValidLeaf(on) && ValidLeaf(nn) && (op, on) != (np, nn) && Closed(fs.dirs.dotdot)
    requires c in fs.dirs.dotdot ==> forall k: nat :: Up(fs.dirs.dotdot, np, k) != c
    ensures FsOk(fs') && fs'.count == fs.count && fs'.perGroup == fs.perGroup && (status != OK ==> fs' == fs)
    ensures status == OK && SameInode(fs.dirs, op, on, np, nn) ==> fs' == fs
    ensures status == OK && !SameInode(fs.dirs, op, on, np, nn) ==>
              && fs'.dirs.names == fs.dirs.names - {(op, on)} + map[(np, nn) := c]
              && fs'.dirs.dotdot.Keys == fs.dirs.dotdot.Keys - Target(fs.dirs, np, nn)
              && (forall d :: d in fs'.dirs.dotdot ==> fs'.dirs.dotdot[d] == if d == c then np else fs.dirs.dotdot[d])
              && CountsFollow(fs, op, c, np, Target(fs.dirs, np, nn), open, fs')
    ensures CountsOk(fs) ==>
              && CountsOk(fs')
              && (status == NO_SPACE <==> Clearable(fs, c, np, nn) && (!room || Stopped(fs, op, on, np, nn, open)))
              && (status == OK <==>
                    || SameInode(fs.dirs, op, on, np, nn)
                    || (Clearable(fs, c, np, nn) && room && !Stopped(fs, op, on, np, nn, open)))
  {
    hide FsOk, CountsOk, GroupOf, EmptyDir, Moved, Cleared, Movable, CountsFollow, Stopped, TreeOk;
    FsFacts(fs);
    var ok, cleared := ClearWay(fs, c, np, nn, open);
    if ok != OK {
      return if ok > 0 then OK else ok, fs;
    }
    ClearedMovable(fs, op, on, np, nn, c, open);
    if !room {
      return NO_SPACE, fs;
    }
    var done, after := MoveName(cleared, op, on, np, nn, c);
    if CountsOk(fs) {
      MoveStops(fs, op, on, np, nn, c, open);
    }
    if !done {
      return NO_SPACE, fs;
    }
    RenamedFields(fs, op, on, np, nn, c, open, after);
    return OK, after;
  }

  lemma OneName(t: Dirs, op: int, on: string, np: int, nn: string)
    requires TreeOk(t) && SameInode(t, op, on, np, nn) && t.names[(op, on)] in t.dotdot
    ensures (op, on) == (np, nn)
  {
  }

  /** Removes what the new name stands for, if a rename of c may. */
  method ClearWay(fs: Fs, c: int, np: int, nn: string, open: set<int>) returns (status: int, fs': Fs)
    requires FsOk(fs) && np in fs.dirs.dotdot && ValidLeaf(nn)
    ensures Clearing(fs, np, nn)
    ensures status == SAME <==> (np, nn) in fs.dirs.names && fs.dirs.names[(np, nn)] == c
    ensures status == OK || status == SAME || status < 0
    ensures status == OK ==> fs' == Cleared(fs, np, nn, open) && FsOk(fs') && (CountsOk(fs) ==> CountsOk(fs'))
    ensures status == OK ==> fs'.count == fs.count && fs'.perGroup == fs.perGroup
    ensures status == OK ==> Clearable(fs, c, np, nn)
    ensures status == OK && c in fs.dirs.dotdot && (np, nn) in fs.dirs.names ==>
              fs.used[GroupOf(fs.dirs.names[(np, nn)], fs.perGroup)] > 0
    ensures CountsOk(fs) ==> (status == OK <==> Clearable(fs, c, np, nn)) && status != NO_SPACE
  {
    hide FsOk, CountsOk, GroupOf, EmptyDir, Removed, Unlinked;
    FsFacts(fs);
    var target := Find(fs.dirs, np, nn);
    if target == 0 {
      FindNone(fs, np, nn);
      return OK, fs;
    }
    if target == c {
      return SAME, fs;
    }
    var newIsDir := target in fs.dirs.dotdot;
    if c in fs.dirs.dotdot && !newIsDir {
      return NOT_DIR, fs;
    }
    if c !in fs.dirs.dotdot && newIsDir {
      return IS_DIR, fs;
    }
    if newIsDir {
      if !EmptyDir(fs.dirs, target) {
        return NOT_EMPTY, fs;
      }
      if CountsOk(fs) {
        RemovedCounts(fs, np, nn, target, open);
      }
    } else {
      UnlinkedOk(fs, np, nn, target, open);
    }
    var ok;
    ok, fs' := DetachExisting(fs, np, nn, target, newIsDir, open);
    status := if ok then OK else NO_SPACE;
  }

  /** The new name, the parent entry, the old name and both link counts, in that order. */
  method MoveName(fs: Fs, op: int, on: string, np: int, nn: string, c: int) returns (ok: bool, fs': Fs)
    requires FsOk(fs) && Movable(fs, op, on, np, nn, c)
    ensures op in fs.links && np in fs.links
    ensures ok <==> c !in fs.dirs.dotdot || op == np || (fs.links[op] > 0 && fs.links[np] < LIMIT16 - 1)
    ensures ok ==>
              && fs'.count == fs.count && fs'.perGroup == fs.perGroup
              && fs' == Moved(fs, op, on, np, nn, c) && FsOk(fs')
              && (CountsOk(fs) ==> CountsOk(fs'))
  {
    hide FsOk, CountsOk, GroupOf;
    FsFacts(fs);
    MovedOk(fs, op, on, np, nn, c);
    if CountsOk(fs) {
      MovedCounts(fs, op, on, np, nn, c);
    }
    fs' := fs.(dirs := AddName(fs.dirs, np, nn, c));
    if c in fs.dirs.dotdot && op != np {
      fs' := fs'.(dirs := fs'.dirs.(dotdot := fs'.dirs.dotdot[c := np]));
    }
    fs' := fs'.(dirs := DropName(fs'.dirs, op, on));
    if c in fs.dirs.dotdot && op != np {
      ok, fs' := UpdateParentLinks(fs', op, -1);
      if ok {
        ok, fs' := UpdateParentLinks(fs', np, 1);
      }
    } else {
      if c in fs.dirs.dotdot {
        OnlyName(fs.dirs, op, on, c);
        assert fs.dirs.dotdot[c := np] == fs.dirs.dotdot;
      }
      ok := true;
    }
  }

  lemma FindNone(fs: Fs, dir: int, name: string)
    requires FsOk(fs) && dir in fs.dirs.dotdot && Find(fs.dirs, dir, name) == 0
    ensures (dir, name) !in fs.dirs.names
  {
    hide FsOk;
    FsFacts(fs);
  }
}
