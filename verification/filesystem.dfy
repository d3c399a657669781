/** An abstract filesystem: a map from absolute paths to entries that carry
    their kind and their owner and group ids, with the operations the module
    performs on it (rmtree, mkdir, the unpack step, the chown walk). */
module FileSystem {
  import opened Paths
  import opened Wrappers

  /** What `os.path.isdir` and `os.walk` see of an entry. A symbolic link
      records whether its target is a directory. */
  datatype Kind = Dir | File | Link(toDir: bool)

  datatype Node = Node(kind: Kind, uid: int, gid: int)

  type FS = map<Path, Node>

  function Parent(p: Path): Path
    requires |p| > 0
  {
    p[..|p| - 1]
  }

  /** The entries form a tree: every entry below '/' lies in a directory entry. */
  predicate WellFormed(fs: FS)
  {
    forall p :: p in fs && |p| > 0 ==> Parent(p) in fs && fs[Parent(p)].kind == Dir
  }

  /** `os.path.isdir`: the path names a directory, or a link to one. */
  predicate IsDir(fs: FS, p: Option<Path>)
  {
    p.Some? && p.value in fs && (fs[p.value].kind == Dir || fs[p.value].kind == Link(true))
  }

  /** The lookup of the path string `s` from `cwd` gets to its last piece:
      every entry it passes through is a directory or a link to one. A ".."
      after a missing entry or a file fails here, as it does for the
      kernel, although `Resolve` would cancel the two pieces. */
  predicate Reachable(fs: FS, cwd: Path, s: string)
    requires ProperPath(cwd)
  {
    forall p | p in TraversedBy(cwd, s) :: IsDir(fs, Some(p))
  }

  /** `shutil.rmtree(p, ignore_errors=True)`, with removal taken as total.
      rmtree refuses a symbolic link named without a trailing '/' or "/.",
      and the swallowed error leaves it in place. Named with one, the link
      is followed and its target emptied; a link here carries no target, so
      that case is not modelled and the link is left in place as well. */
  function RemoveTree(fs: FS, p: Path): (r: FS)
    ensures p in fs && fs[p].kind == Dir ==> forall q :: q in r <==> q in fs && !(p <= q)
    ensures !(p in fs && fs[p].kind == Dir) ==> r == fs
    ensures forall q :: q in r ==> q in fs && r[q] == fs[q]
  {
    if p in fs && fs[p].kind == Dir then map q | q in fs && !(p <= q) :: fs[q] else fs
  }

  /** `shutil.rmtree(p, ignore_errors=True)` on a path string ending in "."
      or "..": everything below the directory goes, but the final `os.rmdir`
      is refused and the swallowed error leaves the directory itself. */
  function RemoveBelow(fs: FS, p: Path): (r: FS)
    ensures forall q :: q in r <==> q in fs && !(p < q)
    ensures forall q :: q in r ==> r[q] == fs[q]
  {
    map q | q in fs && !(p < q) :: fs[q]
  }

  /** `os.mkdir(p)` succeeds: nothing of that name exists and the parent is a directory. */
  predicate CanMkdir(fs: FS, p: Path)
  {
    |p| > 0 && p !in fs && Parent(p) in fs && fs[Parent(p)].kind == Dir
  }

  /** The unpack step writes the entries of `tree` (paths relative to `root`)
      below `root`; an entry with the empty relative path would be `root`
      itself and is not written. */
  function Place(fs: FS, root: Path, tree: FS): (r: FS)
    ensures forall p :: p in r <==> p in fs || (root < p && p[|root|..] in tree)
    ensures forall p :: p in r ==> r[p] == if root < p && p[|root|..] in tree then tree[p[|root|..]] else fs[p]
  {
    assert forall p :: root < p ==> p == root + p[|root|..];
    assert forall rel :: root <= root + rel && (root + rel)[|root|..] == rel;
    fs + map rel | rel in tree && rel != [] :: root + rel := tree[rel]
  }

  /** Writing no entries leaves the disk as it was. */
  lemma PlaceNothing(fs: FS, root: Path)
    ensures Place(fs, root, map[]) == fs
  {
  }

  /** `os.chown(path, uid, gid, follow_symlinks=False)` on one entry: an id of
      -1 leaves that id as it was. */
  function Chowned(n: Node, uid: int, gid: int): Node
  {
    n.(uid := if uid == -1 then n.uid else uid, gid := if gid == -1 then n.gid else gid)
  }

  /** What `os.walk` lists under `filenames`: entries that are not directories
      and not links to directories. */
  predicate Leaf(k: Kind)
  {
    k == File || k == Link(false)
  }

  /** `p` may be opened for reading as a file: it is a file or a link to
      something other than a directory. Whether a link leads to a readable
      file, and whether the file is a valid archive, is up to the unpack
      outcome. */
  predicate Readable(fs: FS, p: Option<Path>)
  {
    p.Some? && p.value in fs && Leaf(fs[p.value].kind)
  }

  /** `os.walk(root)` reaches `p` as a `dirpath`: `p` is `root` or lies below
      it, and every step from `root` down to `p` is a real directory (the
      walk does not descend through links). */
  predicate Reached(fs: FS, root: Path, p: Path)
  {
    root <= p && forall k :: |root| <= k <= |p| ==> p[..k] in fs && fs[p[..k]].kind == Dir
  }

  /** Every `dirpath` the walk yields. */
  function WalkedDirs(fs: FS, root: Path): set<Path>
  {
    set p | p in fs && Reached(fs, root, p)
  }

  /** The `filenames` listed in the directories `dirs`. */
  function FilesIn(fs: FS, dirs: set<Path>): set<Path>
  {
    set p | p in fs && |p| > 0 && Parent(p) in dirs && Leaf(fs[p].kind)
  }

  /** Every path the chown loop visits: each walked directory and each file
      listed in one. Links to directories are in neither. */
  function Targets(fs: FS, root: Path): set<Path>
  {
    Covered(fs, WalkedDirs(fs, root))
  }

  /** The directories `dirs` together with the files listed in them. */
  function Covered(fs: FS, dirs: set<Path>): set<Path>
  {
    dirs + FilesIn(fs, dirs)
  }

  /** The filesystem once every path in `targets` has been chowned. */
  function ChownAll(fs: FS, targets: set<Path>, uid: int, gid: int): FS
  {
    map p | p in fs :: if p in targets then Chowned(fs[p], uid, gid) else fs[p]
  }

  /** `after` is `before` with the paths in `done` chowned and nothing else changed. */
  predicate ChownedExactly(before: FS, after: FS, done: set<Path>, uid: int, gid: int)
  {
    after.Keys == before.Keys &&
    forall p :: p in before ==> after[p] == if p in done then Chowned(before[p], uid, gid) else before[p]
  }

  /** What an aborted walk leaves: the same entries, each either untouched or
      chowned, and only paths in `targets` chowned. */
  predicate PartlyChowned(before: FS, after: FS, targets: set<Path>, uid: int, gid: int)
  {
    after.Keys == before.Keys &&
    forall p :: p in before ==> after[p] == before[p] || (p in targets && after[p] == Chowned(before[p], uid, gid))
  }

  /** Chowning one more path extends what has been chowned by that path. */
  lemma ChownStep(before: FS, now: FS, done: set<Path>, p: Path, uid: int, gid: int)
    requires ChownedExactly(before, now, done, uid, gid) && p in before
    ensures ChownedExactly(before, now[p := Chowned(now[p], uid, gid)], done + {p}, uid, gid)
  {
  }

  /** Stopping part-way leaves a partly chowned filesystem. */
  lemma StopEarly(before: FS, now: FS, done: set<Path>, targets: set<Path>, uid: int, gid: int)
    requires ChownedExactly(before, now, done, uid, gid) && done <= targets
    ensures PartlyChowned(before, now, targets, uid, gid)
  {
  }

  /** Having chowned every target is ChownAll. */
  lemma ChownedAll(before: FS, now: FS, targets: set<Path>, uid: int, gid: int)
    requires ChownedExactly(before, now, targets, uid, gid)
    ensures now == ChownAll(before, targets, uid, gid)
    ensures PartlyChowned(before, now, targets, uid, gid)
  {
  }

  /** Covering one more directory adds it and the files listed in it. */
  lemma CoveredAdd(fs: FS, dirs: set<Path>, d: Path)
    ensures Covered(fs, dirs + {d}) == Covered(fs, dirs) + {d} + FilesIn(fs, {d})
  {
    assert FilesIn(fs, dirs + {d}) == FilesIn(fs, dirs) + FilesIn(fs, {d});
  }

  lemma CoveredMono(fs: FS, a: set<Path>, b: set<Path>)
    requires a <= b
    ensures Covered(fs, a) <= Covered(fs, b)
  {
    assert FilesIn(fs, a) <= FilesIn(fs, b);
  }

  /** In a tree, every proper ancestor of an entry is a directory entry. */
  lemma {:induction false} AncestorsAreDirs(fs: FS, p: Path, k: nat)
    requires WellFormed(fs) && p in fs && k < |p|
    ensures p[..k] in fs && fs[p[..k]].kind == Dir
    decreases |p| - k
  {
    if k == |p| - 1 {
      assert p[..k] == Parent(p);
    } else {
      AncestorsAreDirs(fs, p, k + 1);
      assert p[..k] == Parent(p[..k + 1]);
    }
  }

  /** In a tree, nothing lies below a path that is not there. */
  lemma NothingBelowAbsent(fs: FS, root: Path)
    requires WellFormed(fs) && root !in fs
    ensures forall p :: p in fs ==> !(root <= p)
  {
    forall p | p in fs && root <= p
      ensures false
    {
      if p != root {
        assert p[..|root|] == root;
        AncestorsAreDirs(fs, p, |root|);
      }
    }
  }

  /** On a well-formed disk only a directory has entries below it. */
  lemma OnlyDirsHaveEntriesBelow(fs: FS, root: Path)
    requires WellFormed(fs)
    ensures forall p :: p in fs && root < p ==> root in fs && fs[root].kind == Dir
  {
    forall p | p in fs && root < p
      ensures root in fs && fs[root].kind == Dir
    {
      assert p[..|root|] == root;
      AncestorsAreDirs(fs, p, |root|);
    }
  }

  /** Removing a subtree leaves a tree. */
  lemma RemoveTreeKeepsShape(fs: FS, root: Path)
    requires WellFormed(fs)
    ensures WellFormed(RemoveTree(fs, root))
  {
    var r := RemoveTree(fs, root);
    forall p | p in r && |p| > 0
      ensures Parent(p) in r && r[Parent(p)].kind == Dir
    {
      if root <= Parent(p) {
        assert root <= p;
      }
    }
  }

  /** Emptying a directory leaves a tree. */
  lemma RemoveBelowKeepsShape(fs: FS, root: Path)
    requires WellFormed(fs)
    ensures WellFormed(RemoveBelow(fs, root))
  {
    var r := RemoveBelow(fs, root);
    forall p | p in r && |p| > 0
      ensures Parent(p) in r && r[Parent(p)].kind == Dir
    {
      assert root < Parent(p) ==> root < p;
    }
  }

  /** The unpack pipeline writes a tree: every written entry more than one
      level down sits in a written directory. */
  predicate TreeShaped(tree: FS)
  {
    forall rel :: rel in tree && |rel| > 1 ==> Parent(rel) in tree && tree[Parent(rel)].kind == Dir
  }

  /** Creating an entry where mkdir may create one keeps a tree a tree. */
  lemma MkdirKeepsShape(fs: FS, p: Path, n: Node)
    requires WellFormed(fs) && CanMkdir(fs, p)
    ensures WellFormed(fs[p := n])
  {
    var r := fs[p := n];
    forall q | q in r && |q| > 0
      ensures Parent(q) in r && r[Parent(q)].kind == Dir
    {
      if q != p {
        assert q in fs;
        assert Parent(q) != p by {
          assert Parent(q) in fs;
        }
      }
    }
  }

  /** Writing a tree below a directory with nothing below it keeps a tree a tree. */
  lemma PlaceKeepsShape(fs: FS, root: Path, tree: FS)
    requires WellFormed(fs) && root in fs && fs[root].kind == Dir && TreeShaped(tree)
    requires forall p :: p in fs ==> !(root < p)
    ensures WellFormed(Place(fs, root, tree))
  {
    var r := Place(fs, root, tree);
    forall p | p in r && |p| > 0
      ensures Parent(p) in r && r[Parent(p)].kind == Dir
    {
      PlacedParent(fs, root, tree, p);
    }
  }

  /** One entry of `PlaceKeepsShape`: the parent of a placed entry is a
      placed directory. */
  lemma PlacedParent(fs: FS, root: Path, tree: FS, p: Path)
    requires WellFormed(fs) && root in fs && fs[root].kind == Dir && TreeShaped(tree)
    requires forall p :: p in fs ==> !(root < p)
    requires p in Place(fs, root, tree) && |p| > 0
    ensures Parent(p) in Place(fs, root, tree) && Place(fs, root, tree)[Parent(p)].kind == Dir
  {
    var q := Parent(p);
    if root < p && p[|root|..] in tree {
      var rel := p[|root|..];
      if |rel| == 1 {
        assert q == root && !(root < q);
      } else {
        assert q == root + Parent(rel);
        WrittenParent(root, tree, rel);
      }
    } else {
      assert p in fs;
      assert q in fs && fs[q].kind == Dir;
      assert !(root < q);
    }
  }

  /** The parent of an entry written more than one level down is written,
      as a directory. */
  lemma WrittenParent(root: Path, tree: FS, rel: Path)
    requires TreeShaped(tree) && rel in tree && |rel| > 1
    ensures var q := root + Parent(rel);
            root < q && q[|root|..] in tree && tree[q[|root|..]].kind == Dir
  {
    assert (root + Parent(rel))[|root|..] == Parent(rel);
  }

  /** The walk only visits existing entries at or below its root. */
  lemma TargetsBelow(fs: FS, root: Path)
    ensures forall p :: p in Targets(fs, root) ==> p in fs && root <= p
  {
    forall p | p in Targets(fs, root)
      ensures p in fs && root <= p
    {
      if p !in WalkedDirs(fs, root) {
        assert Reached(fs, root, Parent(p));
      }
    }
  }

  /** Link-aware coverage: in a tree whose root is a directory, the walk
      chowns every entry at or below the root except links to directories. */
  lemma WalkCoversTree(fs: FS, root: Path, p: Path)
    requires WellFormed(fs) && root in fs && fs[root].kind == Dir
    requires p in fs && root <= p
    ensures p in Targets(fs, root) <==> fs[p].kind != Link(true)
  {
    var dirs := WalkedDirs(fs, root);
    if fs[p].kind == Dir {
      forall k | |root| <= k <= |p|
        ensures p[..k] in fs && fs[p[..k]].kind == Dir
      {
        if k < |p| {
          AncestorsAreDirs(fs, p, k);
        } else {
          assert p[..k] == p;
        }
      }
      assert p in dirs;
    } else {
      assert p !in dirs by {
        assert p[..|p|] == p;
      }
      if Leaf(fs[p].kind) {
        assert p != root;
        var q := Parent(p);
        forall k | |root| <= k <= |q|
          ensures q[..k] in fs && fs[q[..k]].kind == Dir
        {
          AncestorsAreDirs(fs, p, k);
          assert q[..k] == p[..k];
        }
        assert q in dirs;
        assert p in FilesIn(fs, dirs);
      }
    }
  }

  /** Chowning changes no entry's kind, so it keeps a tree a tree. */
  lemma ChownAllKeepsShape(fs: FS, targets: set<Path>, uid: int, gid: int)
    requires WellFormed(fs)
    ensures WellFormed(ChownAll(fs, targets, uid, gid))
  {
  }

  /** The disk the module works on; rmtree, mkdir, the unpack step and chown
      change it in place. */
  class Disk {
    var nodes: FS

    constructor (nodes: FS)
      ensures this.nodes == nodes
    {
      this.nodes := nodes;
    }

    /** The nested loops over `os.walk(root)`: chown each `dirpath`, then each
        of its `filenames`. The first chown that raises PermissionError ends
        the walk; what was already chowned stays chowned, and a refused
        entry is left as it was. Directories are
        taken in any order, the top-down order of `os.walk` being one of them. */
    method ChownWalk(root: Path, uid: int, gid: int, denied: set<Path>) returns (ok: bool)
      modifies this
      ensures ok <==> Targets(old(nodes), root) !! denied
      ensures ok ==> nodes == ChownAll(old(nodes), Targets(old(nodes), root), uid, gid)
      ensures PartlyChowned(old(nodes), nodes, Targets(old(nodes), root) - denied, uid, gid)
    {
      var tree := nodes;
      var dirs := WalkedDirs(tree, root);
      ghost var targets := Targets(tree, root);
      var todo := dirs;
      ghost var done: set<Path> := {};
      assert Covered(tree, {}) == {};
      while todo != {}
        invariant todo <= dirs
        invariant done == Covered(tree, dirs - todo)
        invariant done !! denied
        invariant ChownedExactly(tree, nodes, done, uid, gid)
        decreases todo
      {
        var d :| d in todo;
        CoveredAdd(tree, dirs - todo, d);
        CoveredMono(tree, (dirs - todo) + {d}, dirs);
        ghost var next := Covered(tree, (dirs - todo) + {d});
        if d in denied {
          StopEarly(tree, nodes, done, targets - denied, uid, gid);
          ok := false;
          return;
        }
        ChownStep(tree, nodes, done, d, uid, gid);
        nodes := nodes[d := Chowned(nodes[d], uid, gid)];
        done := done + {d};
        ok, done := ChownFiles(tree, d, uid, gid, denied, done);
        if !ok {
          StopEarly(tree, nodes, done, targets - denied, uid, gid);
          return;
        }
        assert dirs - (todo - {d}) == (dirs - todo) + {d};
        todo := todo - {d};
      }
      assert dirs - todo == dirs;
      ChownedAll(tree, nodes, targets, uid, gid);
      assert targets - denied == targets;
      ok := true;
    }

    /** The inner loop of the walk: chown the files listed in directory `d`
        of `tree`, stopping at the first one whose chown is denied. */
    method ChownFiles(tree: FS, d: Path, uid: int, gid: int, denied: set<Path>, ghost done0: set<Path>)
      returns (ok: bool, ghost done: set<Path>)
      requires ChownedExactly(tree, nodes, done0, uid, gid) && done0 !! denied
      modifies this
      ensures done0 <= done <= done0 + FilesIn(tree, {d})
      ensures ChownedExactly(tree, nodes, done, uid, gid)
      ensures done !! denied
      ensures ok <==> FilesIn(tree, {d}) !! denied
      ensures ok ==> done == done0 + FilesIn(tree, {d})
    {
      var files := FilesIn(tree, {d});
      done := done0;
      while files != {}
        invariant files <= FilesIn(tree, {d})
        invariant done + files == done0 + FilesIn(tree, {d})
        invariant done0 <= done && done !! denied
        invariant (FilesIn(tree, {d}) - files) !! denied
        invariant ChownedExactly(tree, nodes, done, uid, gid)
        decreases files
      {
        var f :| f in files;
        if f in denied {
          return false, done;
        }
        ChownStep(tree, nodes, done, f, uid, gid);
        nodes := nodes[f := Chowned(nodes[f], uid, gid)];
        done := done + {f};
        files := files - {f};
      }
      ok := true;
    }
  }
}
