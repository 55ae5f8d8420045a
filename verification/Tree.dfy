/** The directories of the file system as a tree: each directory's names, its parent entry, and
    how creating, removing and moving a directory changes them. */
module Tree {
  const ROOT: int := 2

  /** The directories reachable from the root: what each name in them stands for, "." and ".."
      apart, and the parent each records. */
  datatype Dirs = Dirs(names: map<(int, string), int>, dotdot: map<int, int>)

  /** `depth` measures every directory's distance from the root along parent entries. */
  ghost predicate Ranked(dotdot: map<int, int>, depth: map<int, nat>) {
    && dotdot.Keys == depth.Keys && ROOT in dotdot && dotdot[ROOT] == ROOT && depth[ROOT] == 0
    && forall d :: d in dotdot && d != ROOT ==> dotdot[d] in dotdot && depth[d] == depth[dotdot[d]] + 1
  }

  /** Every directory but the root has exactly one name, `leaf`, in the directory it records as
      its parent; names lie in directories. */
  ghost predicate Named(t: Dirs, leaf: map<int, string>) {
    && (forall k :: k in t.names ==> k.0 in t.dotdot)
    && (forall d :: d in t.dotdot && d != ROOT ==> d in leaf && StandsFor(t, t.dotdot[d], leaf[d], d))
    && (forall k :: k in t.names && t.names[k] in t.dotdot ==>
          t.names[k] != ROOT && t.names[k] in leaf && k == (t.dotdot[t.names[k]], leaf[t.names[k]]))
  }

  predicate StandsFor(t: Dirs, p: int, n: string, ino: int) {
    (p, n) in t.names && t.names[(p, n)] == ino
  }

  /** The directories form a tree rooted at the root inode. */
  ghost predicate TreeOk(t: Dirs) {
    exists depth: map<int, nat>, leaf: map<int, string> :: Ranked(t.dotdot, depth) && Named(t, leaf)
  }

  predicate EmptyDir(t: Dirs, d: int) {
    forall k :: k in t.names ==> k.0 != d
  }

  lemma RankOf(t: Dirs) returns (depth: map<int, nat>)
    requires TreeOk(t)
    ensures Ranked(t.dotdot, depth)
  {
    var leaf: map<int, string>;
    depth, leaf :| Ranked(t.dotdot, depth) && Named(t, leaf);
  }

  // ---- Chains of parent entries ------------------------------------------------------------

  ghost predicate Closed(dotdot: map<int, int>) {
    forall x :: x in dotdot ==> dotdot[x] in dotdot
  }

  /** The directory k parent entries above d. */
  ghost function Up(dotdot: map<int, int>, d: int, k: nat): int
    requires d in dotdot && Closed(dotdot)
    decreases k
  {
    if k == 0 then d else Up(dotdot, dotdot[d], k - 1)
  }

  lemma RankedClosed(dotdot: map<int, int>, depth: map<int, nat>)
    requires Ranked(dotdot, depth)
    ensures Closed(dotdot)
  {
  }

  lemma {:induction false} DepthUp(dotdot: map<int, int>, depth: map<int, nat>, d: int)
    requires Ranked(dotdot, depth) && Closed(dotdot) && d in dotdot
    ensures Up(dotdot, d, depth[d]) == ROOT
    decreases depth[d]
  {
    if d != ROOT {
      DepthUp(dotdot, depth, dotdot[d]);
    }
  }

  /** Every chain of parent entries reaches the root. */
  lemma ReachesRoot(t: Dirs, d: int)
    requires TreeOk(t) && d in t.dotdot
    ensures Closed(t.dotdot) && exists k: nat :: Up(t.dotdot, d, k) == ROOT
  {
    var depth: map<int, nat>, leaf :| Ranked(t.dotdot, depth) && Named(t, leaf);
    RankedClosed(t.dotdot, depth);
    DepthUp(t.dotdot, depth, d);
  }

  /** a is d or lies above it. */
  ghost predicate Above(dotdot: map<int, int>, depth: map<int, nat>, a: int, d: int)
    requires Ranked(dotdot, depth) && d in dotdot
    decreases depth[d]
  {
    d == a || (d != ROOT && Above(dotdot, depth, a, dotdot[d]))
  }

  /** Being above is having a chain of parent entries, however long. */
  lemma {:induction false} UpIsAbove(dotdot: map<int, int>, depth: map<int, nat>, a: int, d: int, k: nat)
    requires Ranked(dotdot, depth) && Closed(dotdot) && d in dotdot && Up(dotdot, d, k) == a
    ensures Above(dotdot, depth, a, d)
    decreases k
  {
    if k > 0 {
      UpIsAbove(dotdot, depth, a, dotdot[d], k - 1);
      if d == ROOT {
        RootAbove(dotdot, depth, a);
      }
    }
  }

  lemma RootAbove(dotdot: map<int, int>, depth: map<int, nat>, a: int)
    requires Ranked(dotdot, depth)
    ensures Above(dotdot, depth, a, ROOT) <==> a == ROOT
  {
  }

  lemma {:induction false} AboveIsUp(dotdot: map<int, int>, depth: map<int, nat>, a: int, d: int)
    requires Ranked(dotdot, depth) && Closed(dotdot) && d in dotdot && Above(dotdot, depth, a, d)
    ensures exists k: nat :: Up(dotdot, d, k) == a
    decreases depth[d]
  {
    if d == a {
      assert Up(dotdot, d, 0) == a;
    } else {
      AboveIsUp(dotdot, depth, a, dotdot[d]);
      var k: nat :| Up(dotdot, dotdot[d], k) == a;
      assert Up(dotdot, d, k + 1) == a;
    }
  }

  /** Chains are the same once a directory that records no one's parent is gone. */
  lemma {:induction false} UpWithout(dotdot: map<int, int>, e: int, d: int, k: nat)
    requires Closed(dotdot) && Closed(dotdot - {e}) && d in dotdot && d != e
    ensures Up(dotdot - {e}, d, k) == Up(dotdot, d, k)
    decreases k
  {
    if k > 0 {
      assert (dotdot - {e})[d] in dotdot - {e};
      UpWithout(dotdot, e, dotdot[d], k - 1);
    }
  }

  /** The directories above d, d included. */
  ghost function Line(dotdot: map<int, int>, depth: map<int, nat>, d: int): (s: set<int>)
    requires Ranked(dotdot, depth) && d in dotdot
    ensures s <= dotdot.Keys && |s| == depth[d] + 1 && forall x :: x in s ==> depth[x] <= depth[d]
    decreases depth[d]
  {
    if d == ROOT then {ROOT} else Line(dotdot, depth, dotdot[d]) + {d}
  }

  // ---- Steps -------------------------------------------------------------------------------

  function AddName(t: Dirs, p: int, n: string, ino: int): Dirs {
    t.(names := t.names[(p, n) := ino])
  }

  function DropName(t: Dirs, p: int, n: string): Dirs {
    t.(names := t.names - {(p, n)})
  }

  function AddDir(t: Dirs, p: int, n: string, c: int): Dirs {
    Dirs(t.names[(p, n) := c], t.dotdot[c := p])
  }

  function DropDir(t: Dirs, p: int, n: string, c: int): Dirs {
    Dirs(t.names - {(p, n)}, t.dotdot - {c})
  }

  /** A directory moves: a new name, its parent entry, then its old name goes. */
  function MoveDir(t: Dirs, op: int, on: string, np: int, nn: string, c: int): Dirs {
    Dirs(t.names[(np, nn) := c] - {(op, on)}, t.dotdot[c := np])
  }

  lemma TreeIs(t: Dirs, depth: map<int, nat>, leaf: map<int, string>)
    requires Ranked(t.dotdot, depth) && Named(t, leaf)
    ensures TreeOk(t)
  {
  }

  lemma AddDirOk(t: Dirs, p: int, n: string, c: int)
    requires TreeOk(t) && p in t.dotdot && (p, n) !in t.names && c !in t.dotdot
    requires forall k :: k in t.names ==> t.names[k] != c
    ensures TreeOk(AddDir(t, p, n, c))
  {
    var depth: map<int, nat>, leaf: map<int, string> :| Ranked(t.dotdot, depth) && Named(t, leaf);
    AddDirRanked(t.dotdot, depth, p, c);
    AddDirNamed(t, p, n, c, leaf);
    TreeIs(AddDir(t, p, n, c), depth[c := depth[p] + 1], leaf[c := n]);
  }

  lemma AddDirRanked(dotdot: map<int, int>, depth: map<int, nat>, p: int, c: int)
    requires Ranked(dotdot, depth) && p in dotdot && c !in dotdot
    ensures Ranked(dotdot[c := p], depth[c := depth[p] + 1])
  {
  }

  lemma AddDirNamed(t: Dirs, p: int, n: string, c: int, leaf: map<int, string>)
    requires Named(t, leaf) && p in t.dotdot && (p, n) !in t.names && c !in t.dotdot && c != ROOT
    requires forall k :: k in t.names ==> t.names[k] != c
    ensures Named(AddDir(t, p, n, c), leaf[c := n])
  {
  }

  lemma DropDirOk(t: Dirs, p: int, n: string, c: int)
    requires TreeOk(t) && StandsFor(t, p, n, c) && c in t.dotdot && EmptyDir(t, c)
    ensures c != ROOT && p != c && t.dotdot[c] == p && TreeOk(DropDir(t, p, n, c))
  {
    var depth: map<int, nat>, leaf: map<int, string> :| Ranked(t.dotdot, depth) && Named(t, leaf);
    DropDirNamed(t, p, n, c, leaf);
    DropDirRanked(t.dotdot, depth, c);
    TreeIs(DropDir(t, p, n, c), depth - {c}, leaf);
  }

  lemma DropDirRanked(dotdot: map<int, int>, depth: map<int, nat>, c: int)
    requires Ranked(dotdot, depth) && c != ROOT && forall d :: d in dotdot ==> dotdot[d] != c
    ensures Ranked(dotdot - {c}, depth - {c})
  {
  }

  lemma DropDirNamed(t: Dirs, p: int, n: string, c: int, leaf: map<int, string>)
    requires Named(t, leaf) && ROOT in t.dotdot && t.dotdot[ROOT] == ROOT
    requires StandsFor(t, p, n, c) && c in t.dotdot && EmptyDir(t, c)
    ensures c != ROOT && p != c && t.dotdot[c] == p && Named(DropDir(t, p, n, c), leaf)
    ensures forall d :: d in t.dotdot ==> t.dotdot[d] != c
  {
  }

  lemma AddNameOk(t: Dirs, p: int, n: string, ino: int)
    requires TreeOk(t) && p in t.dotdot && (p, n) !in t.names && ino !in t.dotdot
    ensures TreeOk(AddName(t, p, n, ino))
  {
    var depth: map<int, nat>, leaf: map<int, string> :| Ranked(t.dotdot, depth) && Named(t, leaf);
    TreeIs(AddName(t, p, n, ino), depth, leaf);
  }

  lemma DropNameOk(t: Dirs, p: int, n: string)
    requires TreeOk(t) && (p, n) in t.names && t.names[(p, n)] !in t.dotdot
    ensures TreeOk(DropName(t, p, n))
  {
    var depth: map<int, nat>, leaf: map<int, string> :| Ranked(t.dotdot, depth) && Named(t, leaf);
    TreeIs(DropName(t, p, n), depth, leaf);
  }

  // ---- Moving a directory ------------------------------------------------------------------

  /** Depths after directory c moves below np: its whole subtree shifts. */
  ghost function Shifted(dotdot: map<int, int>, depth: map<int, nat>, c: int, np: int): (r: map<int, nat>)
    requires Ranked(dotdot, depth) && c in dotdot && np in dotdot
  {
    map d | d in dotdot :: if Above(dotdot, depth, c, d) then DepthBelow(dotdot, depth, c, d) + depth[np] + 1
      else depth[d]
  }

  /** How far below c directory d lies. */
  ghost function DepthBelow(dotdot: map<int, int>, depth: map<int, nat>, c: int, d: int): (n: nat)
    requires Ranked(dotdot, depth) && d in dotdot && Above(dotdot, depth, c, d)
    decreases depth[d]
  {
    if d == c then 0 else DepthBelow(dotdot, depth, c, dotdot[d]) + 1
  }

  lemma MoveRanked(dotdot: map<int, int>, depth: map<int, nat>, c: int, np: int)
    requires Ranked(dotdot, depth) && c in dotdot && c != ROOT && np in dotdot && !Above(dotdot, depth, c, np)
    ensures Ranked(dotdot[c := np], Shifted(dotdot, depth, c, np))
  {
    RootAbove(dotdot, depth, c);
  }

  lemma MoveNamed(t: Dirs, op: int, on: string, np: int, nn: string, c: int, leaf: map<int, string>)
    requires Named(t, leaf) && StandsFor(t, op, on, c) && c in t.dotdot && np in t.dotdot && (np, nn) !in t.names
    ensures c != ROOT && Named(MoveDir(t, op, on, np, nn, c), leaf[c := nn])
  {
  }

  /** Moving a directory to a place that is not below it keeps the tree. */
  lemma MoveDirOk(t: Dirs, depth: map<int, nat>, op: int, on: string, np: int, nn: string, c: int)
    requires TreeOk(t) && Ranked(t.dotdot, depth) && StandsFor(t, op, on, c) && c in t.dotdot
    requires np in t.dotdot && (np, nn) !in t.names && !Above(t.dotdot, depth, c, np)
    ensures TreeOk(MoveDir(t, op, on, np, nn, c))
  {
    var leaf: map<int, string> :| Named(t, leaf);
    MoveNamed(t, op, on, np, nn, c, leaf);
    MoveRanked(t.dotdot, depth, c, np);
    TreeIs(MoveDir(t, op, on, np, nn, c), Shifted(t.dotdot, depth, c, np), leaf[c := nn]);
  }

  // ---- Counts ------------------------------------------------------------------------------

  /** The directories that record d as their parent. */
  ghost function Subdirs(dotdot: map<int, int>, d: int): set<int> {
    set c | c in dotdot && c != ROOT && dotdot[c] == d
  }

  /** The block group of an inode. */
  function GroupOf(ino: int, perGroup: int): int
    requires perGroup > 0
  {
    (ino - 1) / perGroup
  }

  ghost function InGroup(dotdot: map<int, int>, g: int, perGroup: int): set<int>
    requires perGroup > 0
  {
    set d | d in dotdot && GroupOf(d, perGroup) == g
  }

  /** Every directory's link count is two and its subdirectories. */
  ghost predicate LinksOk(dotdot: map<int, int>, links: map<int, int>) {
    forall d :: d in dotdot ==> d in links && links[d] == 2 + |Subdirs(dotdot, d)|
  }

  /** Every group's count of directories is right. */
  ghost predicate UsedOk(dotdot: map<int, int>, used: seq<int>, perGroup: int) {
    perGroup > 0 && forall g :: 0 <= g < |used| ==> used[g] == |InGroup(dotdot, g, perGroup)|
  }

  lemma SubdirsAdd(dotdot: map<int, int>, p: int, c: int, d: int)
    requires c !in dotdot && c != ROOT
    ensures |Subdirs(dotdot[c := p], d)| == |Subdirs(dotdot, d)| + if d == p then 1 else 0
  {
    if d == p {
      assert Subdirs(dotdot[c := p], d) == Subdirs(dotdot, d) + {c};
    } else {
      assert Subdirs(dotdot[c := p], d) == Subdirs(dotdot, d);
    }
  }

  lemma SubdirsDrop(dotdot: map<int, int>, c: int, d: int)
    requires c in dotdot && c != ROOT
    ensures |Subdirs(dotdot - {c}, d)| == |Subdirs(dotdot, d)| - if d == dotdot[c] then 1 else 0
  {
    if d == dotdot[c] {
      assert Subdirs(dotdot, d) == Subdirs(dotdot - {c}, d) + {c};
    } else {
      assert Subdirs(dotdot, d) == Subdirs(dotdot - {c}, d);
    }
  }

  lemma SubdirsMove(dotdot: map<int, int>, np: int, c: int, d: int)
    requires c in dotdot && c != ROOT
    ensures |Subdirs(dotdot[c := np], d)|
            == |Subdirs(dotdot, d)| - (if d == dotdot[c] then 1 else 0) + (if d == np then 1 else 0)
  {
    SubdirsDrop(dotdot, c, d);
    SubdirsAdd(dotdot - {c}, np, c, d);
    assert (dotdot - {c})[c := np] == dotdot[c := np];
  }

  lemma InGroupAdd(dotdot: map<int, int>, p: int, c: int, g: int, perGroup: int)
    requires c !in dotdot && perGroup > 0
    ensures |InGroup(dotdot[c := p], g, perGroup)|
            == |InGroup(dotdot, g, perGroup)| + if g == GroupOf(c, perGroup) then 1 else 0
  {
    hide GroupOf;
    if g == GroupOf(c, perGroup) {
      assert InGroup(dotdot[c := p], g, perGroup) == InGroup(dotdot, g, perGroup) + {c};
    } else {
      assert InGroup(dotdot[c := p], g, perGroup) == InGroup(dotdot, g, perGroup);
    }
  }

  lemma InGroupDrop(dotdot: map<int, int>, c: int, g: int, perGroup: int)
    requires c in dotdot && perGroup > 0
    ensures |InGroup(dotdot - {c}, g, perGroup)|
            == |InGroup(dotdot, g, perGroup)| - if g == GroupOf(c, perGroup) then 1 else 0
  {
    hide GroupOf;
    if g == GroupOf(c, perGroup) {
      assert InGroup(dotdot, g, perGroup) == InGroup(dotdot - {c}, g, perGroup) + {c};
    } else {
      assert InGroup(dotdot, g, perGroup) == InGroup(dotdot - {c}, g, perGroup);
    }
  }

  lemma InGroupMove(dotdot: map<int, int>, np: int, c: int, g: int, perGroup: int)
    requires c in dotdot && perGroup > 0
    ensures InGroup(dotdot[c := np], g, perGroup) == InGroup(dotdot, g, perGroup)
  {
  }

  /** Link counts once c joins p, and p counts it. */
  lemma LinksAdd(dotdot: map<int, int>, links: map<int, int>, p: int, c: int)
    requires LinksOk(dotdot, links) && p in dotdot && c !in dotdot && c != ROOT
    requires forall d :: d in dotdot ==> dotdot[d] in dotdot
    ensures LinksOk(dotdot[c := p], links[p := links[p] + 1][c := 2])
  {
    var after := links[p := links[p] + 1][c := 2];
    forall d | d in dotdot[c := p] ensures after[d] == 2 + |Subdirs(dotdot[c := p], d)| {
      SubdirsAdd(dotdot, p, c, d);
      if d == c {
        assert Subdirs(dotdot, c) == {};
      }
    }
  }

  lemma LinksDrop(dotdot: map<int, int>, links: map<int, int>, c: int, rest: map<int, int>)
    requires LinksOk(dotdot, links) && c in dotdot && c != ROOT && dotdot[c] in dotdot && dotdot[c] != c
    requires forall d :: d in dotdot && d != c ==> d in rest && rest[d] == links[d] - if d == dotdot[c] then 1 else 0
    ensures LinksOk(dotdot - {c}, rest)
  {
    forall d | d in dotdot - {c} ensures d in rest && rest[d] == 2 + |Subdirs(dotdot - {c}, d)| {
      SubdirsDrop(dotdot, c, d);
    }
  }

  lemma LinksMove(dotdot: map<int, int>, links: map<int, int>, np: int, c: int)
    requires LinksOk(dotdot, links) && c in dotdot && c != ROOT && np in dotdot && dotdot[c] in dotdot
    requires dotdot[c] != np
    ensures LinksOk(dotdot[c := np], links[dotdot[c] := links[dotdot[c]] - 1][np := links[np] + 1])
  {
    var after := links[dotdot[c] := links[dotdot[c]] - 1][np := links[np] + 1];
    forall d | d in dotdot ensures after[d] == 2 + |Subdirs(dotdot[c := np], d)| {
      SubdirsMove(dotdot, np, c, d);
    }
  }

  lemma LinksSame(dotdot: map<int, int>, links: map<int, int>, np: int, c: int)
    requires LinksOk(dotdot, links) && c in dotdot && dotdot[c] == np
    ensures LinksOk(dotdot[c := np], links)
  {
    assert dotdot[c := np] == dotdot;
  }

  lemma UsedAdd(dotdot: map<int, int>, used: seq<int>, perGroup: int, p: int, c: int)
    requires UsedOk(dotdot, used, perGroup) && c !in dotdot && 0 <= GroupOf(c, perGroup) < |used|
    ensures UsedOk(dotdot[c := p], used[GroupOf(c, perGroup) := used[GroupOf(c, perGroup)] + 1], perGroup)
  {
    hide GroupOf;
    var after := used[GroupOf(c, perGroup) := used[GroupOf(c, perGroup)] + 1];
    forall g | 0 <= g < |used| ensures after[g] == |InGroup(dotdot[c := p], g, perGroup)| {
      InGroupAdd(dotdot, p, c, g, perGroup);
    }
  }

  lemma UsedDrop(dotdot: map<int, int>, used: seq<int>, perGroup: int, c: int)
    requires UsedOk(dotdot, used, perGroup) && c in dotdot && 0 <= GroupOf(c, perGroup) < |used|
    ensures used[GroupOf(c, perGroup)] > 0
    ensures UsedOk(dotdot - {c}, used[GroupOf(c, perGroup) := used[GroupOf(c, perGroup)] - 1], perGroup)
  {
    hide GroupOf;
    assert c in InGroup(dotdot, GroupOf(c, perGroup), perGroup);
    var after := used[GroupOf(c, perGroup) := used[GroupOf(c, perGroup)] - 1];
    forall g | 0 <= g < |used| ensures after[g] == |InGroup(dotdot - {c}, g, perGroup)| {
      InGroupDrop(dotdot, c, g, perGroup);
    }
  }

  lemma UsedMove(dotdot: map<int, int>, used: seq<int>, perGroup: int, np: int, c: int)
    requires UsedOk(dotdot, used, perGroup) && c in dotdot
    ensures UsedOk(dotdot[c := np], used, perGroup)
  {
    forall g | 0 <= g < |used| ensures used[g] == |InGroup(dotdot[c := np], g, perGroup)| {
      InGroupMove(dotdot, np, c, g, perGroup);
    }
  }

  // ---- Names of an inode -------------------------------------------------------------------

  /** The places an inode is named in. */
  ghost function NamesOf(t: Dirs, ino: int): set<(int, string)> {
    set k | k in t.names && t.names[k] == ino
  }

  lemma NamesAdd(k: (int, string), ino: int, f: int, t: Dirs, t': Dirs)
    requires k !in t.names && t'.names == t.names[k := ino]
    ensures |NamesOf(t', f)| == |NamesOf(t, f)| + if f == ino then 1 else 0
  {
    assert NamesOf(t', f) == if f == ino then NamesOf(t, f) + {k} else NamesOf(t, f);
  }

  lemma NamesDrop(k: (int, string), f: int, t: Dirs, t': Dirs)
    requires k in t.names && t'.names == t.names - {k}
    ensures |NamesOf(t', f)| == |NamesOf(t, f)| - if f == t.names[k] then 1 else 0
  {
    assert NamesOf(t, f) == if f == t.names[k] then NamesOf(t', f) + {k} else NamesOf(t', f);
  }

  lemma NoNames(t: Dirs, ino: int)
    requires |NamesOf(t, ino)| == 0
    ensures forall k :: k in t.names ==> t.names[k] != ino
  {
    forall k | k in t.names ensures t.names[k] != ino {
      assert k !in NamesOf(t, ino);
    }
  }

  /** A directory of the tree has just one name. */
  lemma OnlyName(t: Dirs, p: int, n: string, c: int)
    requires TreeOk(t) && StandsFor(t, p, n, c) && c in t.dotdot
    ensures |NamesOf(t, c)| == 1 && t.dotdot[c] == p
  {
    assert NamesOf(t, c) == {(p, n)};
  }

  lemma TreeKeys(t: Dirs)
    requires TreeOk(t)
    ensures ROOT in t.dotdot && Closed(t.dotdot) && forall k :: k in t.names ==> k.0 in t.dotdot
  {
  }
}
