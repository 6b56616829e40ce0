/** Additive delivery of a Git snapshot. */
module GitDelivery {
  // Paths are sequences of names below the workspace root.  Contents are compared as such; what
  // the repository configuration and the packed references may contain is left to two arbitrary
  // checks.

  type Path = seq<string>

  datatype Kind = Directory | Regular | Special

  datatype Entry = Entry(path: Path, kind: Kind, content: string, uid: int, gid: int)

  datatype File = File(path: Path, content: string, directory: bool, uid: int, gid: int)

  datatype Result = Delta(files: seq<File>) | Unsafe

  datatype Snapshot = Snapshot(sha: string, operation: string, packName: string, pack: string, index: string)

  /** Which contents of `.git/config` and `.git/packed-refs` are acceptable. */
  datatype Checks = Checks(config: string -> bool, refs: string -> bool)

  // ----- The snapshot's files -----

  predicate Hex(s: string, n: nat) {
    |s| == n && forall c <- s :: '0' <= c <= '9' || 'a' <= c <= 'f'
  }

  predicate ValidSnapshot(s: Snapshot) {
    Hex(s.sha, 40) && Hex(s.operation, 64) && Hex(s.packName, 40)
  }

  function Files(s: Snapshot): seq<File> {
    [File([".git", "objects", "pack", "pack-" + s.packName + ".pack"], s.pack, false, 0, 0),
     File([".git", "objects", "pack", "pack-" + s.packName + ".idx"], s.index, false, 0, 0),
     File([".git", "refs", "omnigrex", "default", s.operation], s.sha + "\n", false, 0, 0)]
  }

  /** A proper ancestor, below the workspace root. */
  predicate Ancestor(p: Path, q: Path) {
    0 < |p| < |q| && p == q[..|p|]
  }

  /** The files have different paths, and none is an ancestor of another. */
  lemma FilesApart(s: Snapshot)
    ensures forall i, j :: 0 <= i < j < |Files(s)| ==> Files(s)[i].path != Files(s)[j].path
    ensures forall f <- Files(s), g <- Files(s) :: !Ancestor(f.path, g.path)
    ensures forall f <- Files(s) :: !f.directory && |f.path| >= 2 && f.path[0] == ".git" && f.uid == 0 && f.gid == 0
  {
    var a, b, c := Files(s)[0].path, Files(s)[1].path, Files(s)[2].path;
    assert a[3][|a[3]| - 1] == 'k' && b[3][|b[3]| - 1] == 'x';
    assert c[1] == "refs" && a[1] == "objects" && b[1] == "objects";
    assert "refs"[0] != "objects"[0];
  }

  // ----- What an archive may contain -----

  predicate Internal(p: Path) {
    |p| > 0 && p[0] == ".git"
  }

  /** A name that is not in its shortest form, or that leaves the workspace. */
  predicate Unclean(p: Path) {
    p != ["."] && p != [".."] && ("" in p || "." in p || ".." in p)
  }

  predicate Within(p: Path, dir: Path) {
    dir <= p
  }

  predicate EndsWith(s: string, suffix: string) {
    |suffix| <= |s| && s[|s| - |suffix|..] == suffix
  }

  /** Locks, linked repositories, substituted history and other storage formats are not supported. */
  predicate Forbidden(p: Path)
    requires |p| > 0
  {
    || EndsWith(p[|p| - 1], ".lock")
    || p == [".git", "commondir"] || p == [".git", "gitdir"] || p == [".git", "shallow"]
    || Within(p, [".git", "reftable"]) || p == [".git", "info", "grafts"]
    || p == [".git", "objects", "info", "alternates"] || p == [".git", "objects", "info", "http-alternates"]
    || Within(p, [".git", "refs", "replace"])
  }

  predicate SameFile(e: Entry, f: File) {
    e.kind.Regular? && e.content == f.content
  }

  predicate EntryOk(e: Entry, files: seq<File>, checks: Checks) {
    if e.path == [] then e.kind.Directory?
    else
      && !Unclean(e.path)
      && (Internal(e.path) ==>
            && !e.kind.Special? && !Forbidden(e.path)
            && (e.path == [".git", "config"] ==> e.kind.Regular? && checks.config(e.content))
            && (e.path == [".git", "packed-refs"] ==> checks.refs(e.content))
            && forall f <- files :: f.path == e.path ==> SameFile(e, f))
  }

  /** What the archive says about paths below `.git`. */
  datatype Node = Dir | Blob(content: string) | Odd

  function NodeOf(e: Entry): Node {
    match e.kind
    case Directory => Dir
    case Regular => Blob(e.content)
    case Special => Odd
  }

  function TreeOf(entries: seq<Entry>): map<Path, Node> {
    if |entries| == 0 then map[]
    else
      var tree, e := TreeOf(entries[..|entries| - 1]), entries[|entries| - 1];
      if Internal(e.path) then tree[e.path := NodeOf(e)] else tree
  }

  predicate NoDuplicates(entries: seq<Entry>) {
    forall i, j :: 0 <= i < j < |entries| && Internal(entries[i].path) ==> entries[i].path != entries[j].path
  }

  predicate IsDir(tree: map<Path, Node>, p: Path) {
    p in tree && tree[p].Dir?
  }

  predicate HasRepository(tree: map<Path, Node>) {
    IsDir(tree, [".git"]) && IsDir(tree, [".git", "objects"]) && IsDir(tree, [".git", "refs"])
  }

  predicate AncestorsAreDirs(tree: map<Path, Node>, f: File) {
    forall k :: 0 < k < |f.path| && f.path[..k] in tree ==> tree[f.path[..k]].Dir?
  }

  /** An archive the snapshot may be delivered to. */
  predicate Safe(entries: seq<Entry>, files: seq<File>, checks: Checks) {
    && (forall e <- entries :: EntryOk(e, files, checks)) && NoDuplicates(entries)
    && HasRepository(TreeOf(entries))
    && forall f <- files :: AncestorsAreDirs(TreeOf(entries), f)
  }

  /** The owner of `.git`. */
  function Owner(entries: seq<Entry>): (int, int) {
    if |entries| == 0 then (0, 0)
    else
      var e := entries[|entries| - 1];
      if e.path == [".git"] then (e.uid, e.gid) else Owner(entries[..|entries| - 1])
  }

  // ----- What a delta must be -----

  function Paths(files: seq<File>): set<Path> {
    set f <- files :: f.path
  }

  predicate HasParent(tree: map<Path, Node>, before: seq<File>, p: Path) {
    |p| >= 2 && (IsDir(tree, p[..|p| - 1]) || exists d <- before :: d.directory && d.path == p[..|p| - 1])
  }

  predicate Distinct(files: seq<File>) {
    forall i, j :: 0 <= i < j < |files| ==> files[i].path != files[j].path
  }

  predicate ParentsFirst(tree: map<Path, Node>, delta: seq<File>) {
    forall i :: 0 <= i < |delta| ==> HasParent(tree, delta[..i], delta[i].path)
  }

  predicate Owned(f: File, owner: (int, int)) {
    f.uid == owner.0 && f.gid == owner.1
  }

  /** The missing files among `files`, with exact contents. */
  predicate Supplies(tree: map<Path, Node>, files: seq<File>, delta: seq<File>, owner: (int, int)) {
    forall f <- files :: f.path in tree || f.(uid := owner.0, gid := owner.1) in delta
  }

  /** Nothing but missing files and missing directories above them. */
  predicate Wanted(tree: map<Path, Node>, files: seq<File>, owner: (int, int), d: File) {
    && d.path !in tree && Owned(d, owner)
    && if d.directory then d.content == "" && exists f <- files :: f.path !in tree && Ancestor(d.path, f.path)
       else d.(uid := 0, gid := 0) in files
  }

  predicate AllWanted(tree: map<Path, Node>, files: seq<File>, delta: seq<File>, owner: (int, int)) {
    forall d <- delta :: Wanted(tree, files, owner, d)
  }

  /** A delta that completes the tree: additive, without repetition, parents first, exact and minimal. */
  predicate CompletesTree(tree: map<Path, Node>, files: seq<File>, delta: seq<File>, owner: (int, int)) {
    && Distinct(delta) && ParentsFirst(tree, delta)
    && Supplies(tree, files, delta, owner) && AllWanted(tree, files, delta, owner)
  }

  // ----- Computing the delta -----

  method ReadArchive(entries: seq<Entry>, files: seq<File>, checks: Checks)
    returns (ok: bool, seen: map<Path, Kind>, matches: set<Path>, uid: int, gid: int)
    ensures ok <==> (forall e <- entries :: EntryOk(e, files, checks)) && NoDuplicates(entries)
    ensures ok ==> seen.Keys == TreeOf(entries).Keys
    ensures ok ==> forall p <- seen :: seen[p].Directory? <==> TreeOf(entries)[p].Dir?
    ensures ok ==> forall p :: p in matches <==> p in seen && p in Paths(files)
    ensures ok ==> (uid, gid) == Owner(entries)
  {
    hide Unclean, Forbidden, SameFile, TreeOf, Owner, NoDuplicates;
    ok, seen, matches, uid, gid := true, map[], {}, 0, 0;
    NothingRead();
    assert entries[..0] == [];
    for i := 0 to |entries|
      invariant ok && (forall e <- entries[..i] :: EntryOk(e, files, checks)) && NoDuplicates(entries[..i])
      invariant seen.Keys == TreeOf(entries[..i]).Keys
      invariant forall p <- seen :: seen[p].Directory? <==> TreeOf(entries[..i])[p].Dir?
      invariant forall p :: p in matches <==> p in seen && p in Paths(files)
      invariant (uid, gid) == Owner(entries[..i])
    {
      var e := entries[i];
      EntriesSnoc(entries[..i], e, files, checks);
      assert entries[..i + 1] == entries[..i] + [e];
      PrefixOf(entries, i + 1, files, checks);
      if e.path == [] {
        if !e.kind.Directory? {
          return false, seen, matches, uid, gid;
        }
        continue;
      }
      if Unclean(e.path) {
        return false, seen, matches, uid, gid;
      }
      if e.path[0] != ".git" {
        continue;
      }
      if e.path in seen {
        return false, seen, matches, uid, gid;
      }
      seen := seen[e.path := e.kind];
      if e.path == [".git"] {
        uid, gid := e.uid, e.gid;
      }
      if e.kind.Special? || Forbidden(e.path) {
        return false, seen, matches, uid, gid;
      }
      if e.path == [".git", "config"] && (!e.kind.Regular? || !checks.config(e.content)) {
        return false, seen, matches, uid, gid;
      }
      if e.path == [".git", "packed-refs"] && !checks.refs(e.content) {
        return false, seen, matches, uid, gid;
      }
      var same, matched := MatchFile(e, files);
      if !same {
        return false, seen, matches, uid, gid;
      }
      if matched {
        matches := matches + {e.path};
      }
    }
    assert entries[..|entries|] == entries;
  }

  lemma NothingRead()
    ensures TreeOf([]) == map[] && Owner([]) == (0, 0) && NoDuplicates([])
  {
  }

  /** Compares an entry with the file to be delivered at its path, if there is one. */
  method MatchFile(e: Entry, files: seq<File>) returns (same: bool, matched: bool)
    ensures same <==> forall f <- files :: f.path == e.path ==> SameFile(e, f)
    ensures same ==> (matched <==> e.path in Paths(files))
  {
    same, matched := true, false;
    for j := 0 to |files|
      invariant same && forall f <- files[..j] :: f.path == e.path ==> SameFile(e, f)
      invariant matched <==> e.path in Paths(files[..j])
    {
      var f := files[j];
      assert files[..j + 1] == files[..j] + [f];
      if e.path == f.path {
        if !e.kind.Regular? || e.content != f.content {
          assert f in files;
          return false, matched;
        }
        matched := true;
      }
    }
    assert files[..|files|] == files;
  }

  lemma {:induction false} TreeKeys(entries: seq<Entry>)
    ensures forall p :: p in TreeOf(entries) <==> Internal(p) && exists e <- entries :: e.path == p
  {
    if |entries| > 0 {
      var front, e := entries[..|entries| - 1], entries[|entries| - 1];
      TreeKeys(front);
      assert entries == front + [e];
    }
  }

  lemma EntriesSnoc(front: seq<Entry>, e: Entry, files: seq<File>, checks: Checks)
    ensures (forall x <- front + [e] :: EntryOk(x, files, checks)) <==>
            (forall x <- front :: EntryOk(x, files, checks)) && EntryOk(e, files, checks)
    ensures NoDuplicates(front + [e]) <==> NoDuplicates(front) && (Internal(e.path) ==> e.path !in TreeOf(front))
    ensures TreeOf(front + [e]) == if Internal(e.path) then TreeOf(front)[e.path := NodeOf(e)] else TreeOf(front)
    ensures Owner(front + [e]) == if e.path == [".git"] then (e.uid, e.gid) else Owner(front)
  {
    var all := front + [e];
    assert all[..|all| - 1] == front && all[|all| - 1] == e;
    assert forall x :: x in all <==> x in front || x == e;
    TreeKeys(front);
    hide EntryOk, TreeOf;
    assert forall i :: 0 <= i < |front| ==> all[i] == front[i];
    forall x | x in front && x.path == e.path && Internal(e.path) ensures !NoDuplicates(all) {
      var i :| 0 <= i < |front| && front[i] == x;
      assert all[i].path == all[|front|].path;
    }
    if NoDuplicates(all) {
      forall i, j | 0 <= i < j < |front| && Internal(front[i].path) ensures front[i].path != front[j].path {
        assert all[i].path != all[j].path;
      }
    }
  }

  lemma PrefixOf(entries: seq<Entry>, n: nat, files: seq<File>, checks: Checks)
    requires n <= |entries|
    ensures !(forall e <- entries[..n] :: EntryOk(e, files, checks)) ==>
            !(forall e <- entries :: EntryOk(e, files, checks))
    ensures !NoDuplicates(entries[..n]) ==> !NoDuplicates(entries)
  {
    hide EntryOk;
  }

  /** The tree's keys that are directories, as the archive reader saw them. */
  predicate Sees(seen: map<Path, Kind>, tree: map<Path, Node>) {
    seen.Keys == tree.Keys && forall p <- seen :: seen[p].Directory? <==> tree[p].Dir?
  }

  method CheckAncestors(seen: map<Path, Kind>, f: File, ghost tree: map<Path, Node>) returns (ok: bool)
    requires Sees(seen, tree)
    ensures ok == AncestorsAreDirs(tree, f)
  {
    var k := |f.path| - 1;
    while k > 0
      invariant k < |f.path| || f.path == []
      invariant forall j :: k < j < |f.path| && 0 < j && f.path[..j] in tree ==> tree[f.path[..j]].Dir?
    {
      if f.path[..k] in seen && !seen[f.path[..k]].Directory? {
        return false;
      }
      k := k - 1;
    }
    return true;
  }

  /** The delta so far: everything but that the files are supplied. */
  predicate Partial(tree: map<Path, Node>, files: seq<File>, delta: seq<File>, owner: (int, int)) {
    Distinct(delta) && ParentsFirst(tree, delta) && AllWanted(tree, files, delta, owner)
  }

  predicate Covers(tree: map<Path, Node>, delta: seq<File>, p: Path) {
    IsDir(tree, p) || exists d <- delta :: d.directory && d.path == p
  }

  lemma DistinctSnoc(delta: seq<File>, d: File)
    requires Distinct(delta) && d.path !in Paths(delta)
    ensures Distinct(delta + [d]) && Paths(delta + [d]) == Paths(delta) + {d.path}
  {
    var all := delta + [d];
    assert forall x :: x in all <==> x in delta || x == d;
    forall i, j | 0 <= i < j < |all| ensures all[i].path != all[j].path {
      assert all[i] in delta && all[i].path in Paths(delta);
    }
  }

  lemma CoveredParent(tree: map<Path, Node>, delta: seq<File>, p: Path)
    requires |p| >= 2 && Covers(tree, delta, p[..|p| - 1])
    ensures HasParent(tree, delta, p)
  {
  }

  lemma ParentsSnoc(tree: map<Path, Node>, delta: seq<File>, d: File)
    requires ParentsFirst(tree, delta) && |d.path| >= 2 && Covers(tree, delta, d.path[..|d.path| - 1])
    ensures ParentsFirst(tree, delta + [d])
  {
    hide HasParent, Covers;
    var all := delta + [d];
    CoveredParent(tree, delta, d.path);
    forall i | 0 <= i < |all| ensures HasParent(tree, all[..i], all[i].path) {
      assert i < |delta| ==> all[..i] == delta[..i];
      assert i == |delta| ==> all[..i] == delta;
    }
  }

  lemma CoversSnoc(tree: map<Path, Node>, delta: seq<File>, d: File, p: Path)
    ensures Covers(tree, delta, p) || (d.directory && p == d.path) ==> Covers(tree, delta + [d], p)
  {
    assert forall x :: x in delta + [d] <==> x in delta || x == d;
  }

  lemma PartialSnoc(tree: map<Path, Node>, files: seq<File>, delta: seq<File>, owner: (int, int), d: File)
    requires Partial(tree, files, delta, owner) && Wanted(tree, files, owner, d)
    requires d.path !in Paths(delta) && |d.path| >= 2 && Covers(tree, delta, d.path[..|d.path| - 1])
    ensures Partial(tree, files, delta + [d], owner)
    ensures Paths(delta + [d]) == Paths(delta) + {d.path}
    ensures forall p :: Covers(tree, delta, p) || (d.directory && p == d.path) ==> Covers(tree, delta + [d], p)
  {
    hide Wanted, Distinct, ParentsFirst, Covers;
    DistinctSnoc(delta, d);
    ParentsSnoc(tree, delta, d);
    forall p ensures Covers(tree, delta, p) || (d.directory && p == d.path) ==> Covers(tree, delta + [d], p) {
      CoversSnoc(tree, delta, d, p);
    }
  }

  /** Adds the missing ancestors of a missing file, from the top down, and the file itself. */
  method AddFile(
    seen: map<Path, Kind>, f: File, files: seq<File>, delta: seq<File>, addedDirs: set<Path>, uid: int, gid: int,
    ghost tree: map<Path, Node>) returns (delta': seq<File>, addedDirs': set<Path>)
    requires Sees(seen, tree) && Partial(tree, files, delta, (uid, gid)) && IsDir(tree, [".git"])
    requires forall p :: p in addedDirs <==> exists d <- delta :: d.directory && d.path == p
    requires f in files && f.path !in tree && f.path !in Paths(delta) && AncestorsAreDirs(tree, f)
    requires |f.path| >= 2 && f.path[0] == ".git" && !f.directory && f.uid == 0 && f.gid == 0
    requires forall d <- delta :: !d.directory ==> !Ancestor(d.path, f.path)
    ensures Partial(tree, files, delta', (uid, gid))
    ensures forall p :: p in addedDirs' <==> exists d <- delta' :: d.directory && d.path == p
    ensures delta <= delta' && f.(uid := uid, gid := gid) in delta'
    ensures forall d <- delta' ::
              d in delta || (d.directory && Ancestor(d.path, f.path)) || d == f.(uid := uid, gid := gid)
  {
    hide Partial, Covers, AncestorsAreDirs, Paths, Sees, Wanted;
    delta', addedDirs' := delta, addedDirs;
    SeenIs(seen, tree);
    RootIsCovered(tree, delta, f);
    for k := 1 to |f.path|
      invariant Partial(tree, files, delta', (uid, gid))
      invariant forall p :: p in addedDirs' <==> exists d <- delta' :: d.directory && d.path == p
      invariant delta <= delta'
      invariant forall d <- delta' :: d in delta || (d.directory && Ancestor(d.path, f.path) && |d.path| < k)
      invariant Covers(tree, delta', f.path[..if k > 1 then k - 1 else 1])
    {
      var p := f.path[..k];
      if p !in seen && p !in addedDirs' {
        var d := File(p, "", true, uid, gid);
        DirectoryIsNew(tree, files, delta', (uid, gid), f, k);
        PartialSnoc(tree, files, delta', (uid, gid), d);
        delta' := delta' + [d];
        addedDirs' := addedDirs' + {p};
      } else {
        SeenIsCovered(tree, delta', f, k);
      }
    }
    var owned := f.(uid := uid, gid := gid);
    FileIsNew(tree, files, delta, delta', f, uid, gid);
    PartialSnoc(tree, files, delta', (uid, gid), owned);
    delta' := delta' + [owned];
  }

  lemma SeenIs(seen: map<Path, Kind>, tree: map<Path, Node>)
    requires Sees(seen, tree)
    ensures forall p :: p in seen <==> p in tree
  {
    assert forall p :: p in seen <==> p in seen.Keys;
  }

  lemma RootIsCovered(tree: map<Path, Node>, delta: seq<File>, f: File)
    requires IsDir(tree, [".git"]) && |f.path| >= 2 && f.path[0] == ".git"
    ensures Covers(tree, delta, f.path[..1])
  {
    assert f.path[..1] == [".git"];
  }

  /** A missing ancestor of a missing file is wanted, and was not added before. */
  lemma DirectoryIsNew(tree: map<Path, Node>, files: seq<File>, delta: seq<File>, owner: (int, int), f: File, k: nat)
    requires f in files && f.path !in tree && 0 < k < |f.path| && f.path[..k] !in tree
    requires IsDir(tree, [".git"]) && f.path[0] == ".git"
    requires !exists d <- delta :: d.directory && d.path == f.path[..k]
    requires forall d <- delta :: !d.directory ==> !Ancestor(d.path, f.path)
    requires Covers(tree, delta, f.path[..if k > 1 then k - 1 else 1])
    ensures var p := f.path[..k];
            && |p| >= 2 && Wanted(tree, files, owner, File(p, "", true, owner.0, owner.1))
            && p !in Paths(delta) && Covers(tree, delta, p[..|p| - 1])
  {
    hide Covers;
    var p := f.path[..k];
    assert k == 1 ==> p == [".git"];
    assert Ancestor(p, f.path) && p[..k - 1] == f.path[..k - 1];
  }

  lemma SeenIsCovered(tree: map<Path, Node>, delta: seq<File>, f: File, k: nat)
    requires AncestorsAreDirs(tree, f) && 0 < k < |f.path|
    requires f.path[..k] in tree || exists d <- delta :: d.directory && d.path == f.path[..k]
    ensures Covers(tree, delta, f.path[..k])
  {
  }

  /** The file itself is wanted, and only directories above it were added since. */
  lemma FileIsNew(
    tree: map<Path, Node>, files: seq<File>, delta: seq<File>, delta': seq<File>, f: File, uid: int, gid: int)
    requires f in files && f.path !in tree && f.path !in Paths(delta) && !f.directory && f.uid == 0 && f.gid == 0
    requires forall d <- delta' :: d in delta || Ancestor(d.path, f.path)
    ensures Wanted(tree, files, (uid, gid), f.(uid := uid, gid := gid)) && f.path !in Paths(delta')
  {
    assert f.(uid := uid, gid := gid).(uid := 0, gid := 0) == f;
  }

  /** Reads the archive and returns what has to be added to it, or refuses it. */
  method ComputeDelta(entries: seq<Entry>, snapshot: Snapshot, checks: Checks) returns (result: Result)
    ensures result.Delta? <==> ValidSnapshot(snapshot) && Safe(entries, Files(snapshot), checks)
    ensures result.Delta? ==> CompletesTree(TreeOf(entries), Files(snapshot), result.files, Owner(entries))
  {
    hide Safe, EntryOk, NoDuplicates, Forbidden, TreeOf, Owner, Partial, Supplies, CompletesTree, Files;
    if !ValidSnapshot(snapshot) {
      return Unsafe;
    }
    var files := Files(snapshot);
    var ok, seen, matches, uid, gid := ReadArchive(entries, files, checks);
    ghost var tree := TreeOf(entries);
    SafeIs(entries, files, checks);
    if !ok {
      return Unsafe;
    }
    if ([".git"] !in seen || !seen[[".git"]].Directory?) ||
      ([".git", "objects"] !in seen || !seen[[".git", "objects"]].Directory?)
      || ([".git", "refs"] !in seen || !seen[[".git", "refs"]].Directory?) {
      return Unsafe;
    }
    var fine, delta := AddFiles(seen, matches, snapshot, uid, gid, tree);
    if !fine {
      return Unsafe;
    }
    CompletesIs(tree, files, delta, (uid, gid));
    result := Delta(delta);
  }

  /** Adds what the tree lacks of the snapshot's files, unless an ancestor of one of them is no directory. */
  method AddFiles(
    seen: map<Path, Kind>, matches: set<Path>, snapshot: Snapshot, uid: int, gid: int, ghost tree: map<Path, Node>)
    returns (ok: bool, delta: seq<File>)
    requires ValidSnapshot(snapshot) && Sees(seen, tree) && IsDir(tree, [".git"])
    requires forall p :: p in matches <==> p in seen && p in Paths(Files(snapshot))
    ensures ok <==> forall f <- Files(snapshot) :: AncestorsAreDirs(tree, f)
    ensures ok ==> Partial(tree, Files(snapshot), delta, (uid, gid)) &&
                   Supplies(tree, Files(snapshot), delta, (uid, gid))
  {
    hide Files, ValidSnapshot, FromFiles, Partial, AncestorsAreDirs, Wanted;
    var files := Files(snapshot);
    FilesApart(snapshot);
    SeenIs(seen, tree);
    ok, delta := true, [];
    var addedDirs := {};
    PartialNone(tree, files, (uid, gid));
    for i := 0 to |files|
      invariant Partial(tree, files, delta, (uid, gid))
      invariant forall p :: p in addedDirs <==> exists d <- delta :: d.directory && d.path == p
      invariant forall f <- files[..i] :: AncestorsAreDirs(tree, f)
      invariant Supplies(tree, files[..i], delta, (uid, gid))
      invariant forall d <- delta :: FromFiles(files[..i], d)
    {
      var f := files[i];
      assert files[..i + 1] == files[..i] + [f] && f in files;
      var fine := CheckAncestors(seen, f, tree);
      if !fine {
        return false, delta;
      }
      ghost var before := delta;
      if f.path !in matches {
        NotYet(snapshot, i, delta);
        delta, addedDirs := AddFile(seen, f, files, delta, addedDirs, uid, gid, tree);
      }
      FromFilesGrows(files[..i], f, before, delta, uid, gid);
    }
    assert files[..|files|] == files;
  }

  lemma SafeIs(entries: seq<Entry>, files: seq<File>, checks: Checks)
    ensures Safe(entries, files, checks) <==>
            && (forall e <- entries :: EntryOk(e, files, checks)) && NoDuplicates(entries)
            && HasRepository(TreeOf(entries)) && forall f <- files :: AncestorsAreDirs(TreeOf(entries), f)
  {
  }

  lemma PartialNone(tree: map<Path, Node>, files: seq<File>, owner: (int, int))
    ensures Partial(tree, files, [], owner)
  {
  }

  lemma CompletesIs(tree: map<Path, Node>, files: seq<File>, delta: seq<File>, owner: (int, int))
    requires Partial(tree, files, delta, owner) && Supplies(tree, files, delta, owner)
    ensures CompletesTree(tree, files, delta, owner)
  {
  }

  /** A delta element that comes from one of these files. */
  predicate FromFiles(files: seq<File>, d: File) {
    exists f <- files :: d.path == f.path || (d.directory && Ancestor(d.path, f.path))
  }

  lemma FromFilesGrows(files: seq<File>, f: File, before: seq<File>, delta: seq<File>, uid: int, gid: int)
    requires forall d <- before :: FromFiles(files, d)
    requires forall d <- delta ::
               d in before || (d.directory && Ancestor(d.path, f.path)) || d == f.(uid := uid, gid := gid)
    ensures forall d <- delta :: FromFiles(files + [f], d)
  {
    assert f in files + [f];
    forall d | d in before ensures FromFiles(files + [f], d) {
      var g :| g in files && (d.path == g.path || (d.directory && Ancestor(d.path, g.path)));
      assert g in files + [f];
    }
  }

  /** What was added for the files before is neither this file nor, unless a directory, above it. */
  lemma NotYet(s: Snapshot, i: nat, delta: seq<File>)
    requires i < |Files(s)| && forall d <- delta :: FromFiles(Files(s)[..i], d)
    ensures Files(s)[i].path !in Paths(delta)
    ensures forall d <- delta :: !d.directory ==> !Ancestor(d.path, Files(s)[i].path)
  {
    FilesApart(s);
    var files := Files(s);
    hide Files;
    forall d | d in delta
      ensures d.path != files[i].path && (!d.directory ==> !Ancestor(d.path, files[i].path))
    {
      var g :| g in files[..i] && (d.path == g.path || (d.directory && Ancestor(d.path, g.path)));
      var j :| 0 <= j < i && files[j] == g;
      assert files[j] in files && files[i] in files;
    }
  }

  // ----- What delivery achieves -----

  function NodeFor(d: File): Node {
    if d.directory then Dir else Blob(d.content)
  }

  /** The tree after the delta's directories and files are added to it. */
  function Apply(tree: map<Path, Node>, delta: seq<File>): map<Path, Node> {
    if |delta| == 0 then tree
    else Apply(tree, delta[..|delta| - 1])[delta[|delta| - 1].path := NodeFor(delta[|delta| - 1])]
  }

  lemma PathsSnoc(front: seq<File>, last: File)
    ensures Paths(front + [last]) == Paths(front) + {last.path}
    ensures Distinct(front + [last]) ==> Distinct(front) && last.path !in Paths(front)
  {
    var all := front + [last];
    assert forall f :: f in all <==> f in front || f == last;
    if Distinct(all) {
      forall i, j | 0 <= i < j < |front| ensures front[i].path != front[j].path {
        assert all[i].path != all[j].path;
      }
      forall f | f in front ensures f.path != last.path {
        var i :| 0 <= i < |front| && front[i] == f;
        assert all[i].path != all[|front|].path;
      }
    }
  }

  lemma {:induction false} AppliedAt(tree: map<Path, Node>, delta: seq<File>)
    requires Distinct(delta)
    ensures Apply(tree, delta).Keys == tree.Keys + Paths(delta)
    ensures forall d <- delta :: Apply(tree, delta)[d.path] == NodeFor(d)
    ensures forall p <- tree :: p !in Paths(delta) ==> Apply(tree, delta)[p] == tree[p]
  {
    hide Distinct, NodeFor, Paths;
    if |delta| == 0 {
      PathsOfNone();
    } else {
      var front, last := delta[..|delta| - 1], delta[|delta| - 1];
      assert delta == front + [last];
      PathsSnoc(front, last);
      AppliedAt(tree, front);
      assert forall d :: d in delta <==> d in front || d == last;
      PathsHold(front);
    }
  }

  lemma PathsOfNone()
    ensures Paths([]) == {}
  {
  }

  lemma PathsHold(delta: seq<File>)
    ensures forall d <- delta :: d.path in Paths(delta)
  {
  }

  lemma {:induction false} TreeAt(entries: seq<Entry>, e: Entry)
    requires NoDuplicates(entries) && e in entries && Internal(e.path)
    ensures e.path in TreeOf(entries) && TreeOf(entries)[e.path] == NodeOf(e)
  {
    var front, last := entries[..|entries| - 1], entries[|entries| - 1];
    assert entries == front + [last];
    if e in front {
      var i :| 0 <= i < |front| && front[i] == e;
      assert entries[i].path != entries[|entries| - 1].path;
      TreeAt(front, e);
    }
  }

  lemma WantedPaths(tree: map<Path, Node>, files: seq<File>, delta: seq<File>, owner: (int, int))
    requires AllWanted(tree, files, delta, owner)
    ensures forall d <- delta :: d.path !in tree && (d.directory || d.path in Paths(files))
  {
    forall d | d in delta ensures d.path !in tree && (d.directory || d.path in Paths(files)) {
      assert Wanted(tree, files, owner, d);
    }
  }

  lemma NewParent(tree: map<Path, Node>, after: map<Path, Node>, delta: seq<File>, d: File)
    requires ParentsFirst(tree, delta) && d in delta
    requires forall p <- tree :: p in after && after[p] == tree[p]
    requires forall x <- delta :: x.path in after && after[x.path] == NodeFor(x)
    ensures |d.path| >= 2 && IsDir(after, d.path[..|d.path| - 1])
  {
    var i :| 0 <= i < |delta| && delta[i] == d;
    assert HasParent(tree, delta[..i], d.path);
    assert forall x <- delta[..i] :: x in delta;
  }

  lemma NewPaths(tree: map<Path, Node>, files: seq<File>, delta: seq<File>, owner: (int, int))
    requires CompletesTree(tree, files, delta, owner)
    ensures forall p <- tree :: p in Apply(tree, delta) && Apply(tree, delta)[p] == tree[p]
    ensures forall d <- delta ::
              d.path !in tree && |d.path| >= 2 && IsDir(Apply(tree, delta), d.path[..|d.path| - 1]) &&
              (d.directory || d.path in Paths(files))
    ensures forall p <- Apply(tree, delta) :: p in tree || p in Paths(delta)
    ensures forall d <- delta :: d.path in Apply(tree, delta) && Apply(tree, delta)[d.path] == NodeFor(d)
  {
    hide Apply, Distinct, ParentsFirst, AllWanted, Supplies, IsDir, NodeFor;
    AppliedAt(tree, delta);
    WantedPaths(tree, files, delta, owner);
    assert forall d <- delta :: d.path in Paths(delta);
    assert forall p <- tree :: p !in Paths(delta);
    var after := Apply(tree, delta);
    forall d | d in delta ensures |d.path| >= 2 && IsDir(after, d.path[..|d.path| - 1]) {
      NewParent(tree, after, delta, d);
    }
  }

  /** Every entry of the tree is unchanged; the snapshot's files are there with their contents;
      and whatever is new is one of them or a directory, with its parent a directory of the new tree. */
  lemma DeliveredTree(entries: seq<Entry>, snapshot: Snapshot, checks: Checks, delta: seq<File>)
    requires Safe(entries, Files(snapshot), checks)
    requires CompletesTree(TreeOf(entries), Files(snapshot), delta, Owner(entries))
    ensures var tree, after := TreeOf(entries), Apply(TreeOf(entries), delta);
            && (forall p <- tree :: p in after && after[p] == tree[p])
            && (forall f <- Files(snapshot) :: f.path in after && after[f.path] == Blob(f.content))
            && (forall p <- after :: p !in tree ==>
                  |p| >= 2 && IsDir(after, p[..|p| - 1]) && (after[p].Dir? || p in Paths(Files(snapshot))))
  {
    hide Safe, Files, Apply, TreeOf, CompletesTree, Owner, IsDir;
    var tree, files := TreeOf(entries), Files(snapshot);
    var after := Apply(tree, delta);
    NewPaths(tree, files, delta, Owner(entries));
    forall f | f in files ensures f.path in after && after[f.path] == Blob(f.content) {
      FileDelivered(entries, snapshot, checks, delta, f);
    }
  }

  /** A file of the snapshot was there already, with the same content, or comes with the delta. */
  lemma FileDelivered(entries: seq<Entry>, snapshot: Snapshot, checks: Checks, delta: seq<File>, f: File)
    requires Safe(entries, Files(snapshot), checks) && f in Files(snapshot)
    requires CompletesTree(TreeOf(entries), Files(snapshot), delta, Owner(entries))
    ensures var after := Apply(TreeOf(entries), delta); f.path in after && after[f.path] == Blob(f.content)
  {
    hide HasRepository, Files, AncestorsAreDirs, EntryOk, Apply, TreeOf, NoDuplicates, Distinct, ParentsFirst,
      AllWanted, HasParent, Paths, Owner;
    NewPaths(TreeOf(entries), Files(snapshot), delta, Owner(entries));
    FilesApart(snapshot);
    if f.path in TreeOf(entries) {
      TreeKeys(entries);
      var e :| e in entries && e.path == f.path;
      FileMatches(e, Files(snapshot), checks, f);
      TreeAt(entries, e);
    } else {
      assert f.(uid := Owner(entries).0, gid := Owner(entries).1) in delta;
    }
  }

  lemma FileMatches(e: Entry, files: seq<File>, checks: Checks, f: File)
    requires EntryOk(e, files, checks) && f in files && f.path == e.path && Internal(e.path)
    ensures NodeOf(e) == Blob(f.content)
  {
    hide Unclean, Forbidden;
  }

  function EntryFor(d: File): Entry {
    Entry(d.path, if d.directory then Directory else Regular, d.content, d.uid, d.gid)
  }

  /** An archive of the workspace after delivery, in any order. */
  ghost predicate Relisted(after: seq<Entry>, entries: seq<Entry>, delta: seq<File>) {
    && NoDuplicates(after)
    && forall e :: e in after <==> e in entries || exists d <- delta :: e == EntryFor(d)
  }

  lemma TreeRelisted(after: seq<Entry>, entries: seq<Entry>, delta: seq<File>)
    requires NoDuplicates(entries) && Relisted(after, entries, delta) && forall d <- delta :: Internal(d.path)
    ensures forall p <- TreeOf(entries) :: p in TreeOf(after) && TreeOf(after)[p] == TreeOf(entries)[p]
    ensures forall d <- delta :: d.path in TreeOf(after) && TreeOf(after)[d.path] == NodeFor(d)
    ensures forall p <- TreeOf(after) :: p in TreeOf(entries) || p in Paths(delta)
  {
    TreeKeys(entries);
    TreeKeys(after);
    forall p | p in TreeOf(entries) ensures p in TreeOf(after) && TreeOf(after)[p] == TreeOf(entries)[p] {
      var e :| e in entries && e.path == p;
      TreeAt(entries, e);
      TreeAt(after, e);
    }
    forall d | d in delta ensures d.path in TreeOf(after) && TreeOf(after)[d.path] == NodeFor(d) {
      assert EntryFor(d) in after;
      TreeAt(after, EntryFor(d));
    }
  }

  lemma EndsInLock(s: string)
    ensures EndsWith(s, ".lock") ==> |s| >= 5 && s[|s| - 1] == 'k' && s[|s| - 4] == 'l'
  {
    if EndsWith(s, ".lock") {
      assert s[|s| - 5..][4] == ".lock"[4] && s[|s| - 5..][1] == ".lock"[1];
    }
  }

  lemma DiffersAt(p: Path, q: Path, k: nat)
    requires k < |p| && k < |q| && p[k] != q[k]
    ensures p != q && !(q <= p)
  {
  }

  lemma HarmlessPack(p: Path, name: string)
    requires p == [".git", "objects", "pack", name] || p == [".git", "objects", "pack"] || p == [".git", "objects"]
    requires |name| >= 5 && (name[|name| - 1] == 'x' || name[|name| - 4] == 'p')
    ensures Internal(p) && !Unclean(p) && !Forbidden(p) && p != [".git", "config"] && p != [".git", "packed-refs"]
  {
    hide EndsWith;
    EndsInLock(p[|p| - 1]);
    assert "objects"[0] == 'o' && "config"[0] == 'c' && "packed-refs"[0] == 'p' && "reftable"[0] == 'r' &&
      "refs"[0] == 'r';
    assert "commondir"[0] == 'c' && "gitdir"[0] == 'g' && "shallow"[0] == 's';
    DiffersAt(p, [".git", "reftable"], 1);
    DiffersAt(p, [".git", "refs", "replace"], 1);
    if |p| > 2 {
      assert "pack"[0] == 'p' && "info"[0] == 'i';
      DiffersAt(p, [".git", "objects", "info", "alternates"], 2);
      DiffersAt(p, [".git", "objects", "info", "http-alternates"], 2);
    }
  }

  lemma LastDigit(operation: string)
    requires Hex(operation, 64)
    ensures |operation| == 64 && operation[63] != 'k' && operation != "" && operation != "." && operation != ".."
  {
    assert operation[63] in operation;
  }

  lemma HarmlessRef(p: Path, operation: string)
    requires p == [".git", "refs", "omnigrex", "default", operation] || p == [".git", "refs", "omnigrex", "default"]
      || p == [".git", "refs", "omnigrex"] || p == [".git", "refs"]
    requires Hex(operation, 64)
    ensures Internal(p) && !Unclean(p) && !Forbidden(p) && p != [".git", "config"] && p != [".git", "packed-refs"]
  {
    hide EndsWith, Hex;
    EndsInLock(p[|p| - 1]);
    LastDigit(operation);
    assert "refs"[0] == 'r' && "config"[0] == 'c' && "packed-refs"[0] == 'p' && |"reftable"| == 8 && |"refs"| == 4;
    assert "commondir"[0] == 'c' && "gitdir"[0] == 'g' && "shallow"[0] == 's' && "info"[0] == 'i' &&
      "objects"[0] == 'o';
    DiffersAt(p, [".git", "reftable"], 1);
    if |p| > 2 {
      assert "omnigrex"[0] == 'o' && "replace"[0] == 'r';
      DiffersAt(p, [".git", "refs", "replace"], 2);
    }
  }

  /** The snapshot's paths are harmless, and so are their ancestors. */
  lemma HarmlessPaths(snapshot: Snapshot, f: File, p: Path)
    requires ValidSnapshot(snapshot) && f in Files(snapshot) && (p == f.path || Ancestor(p, f.path)) && |p| >= 2
    ensures Internal(p) && !Unclean(p) && !Forbidden(p) && p != [".git", "config"] && p != [".git", "packed-refs"]
  {
    hide Unclean, Forbidden, Hex;
    assert p == f.path[..|p|];
    if f == Files(snapshot)[2] {
      HarmlessRef(p, snapshot.operation);
    } else {
      var name := f.path[3];
      HarmlessPack(p, name);
    }
  }

  lemma DeltaEntryOk(tree: map<Path, Node>, snapshot: Snapshot, checks: Checks, owner: (int, int), d: File)
    requires ValidSnapshot(snapshot) && Wanted(tree, Files(snapshot), owner, d) && |d.path| >= 2
    ensures Internal(d.path) && EntryOk(EntryFor(d), Files(snapshot), checks)
  {
    hide Unclean, Forbidden, Files, ValidSnapshot;
    FilesApart(snapshot);
    var files := Files(snapshot);
    if d.directory {
      var f :| f in files && f.path !in tree && Ancestor(d.path, f.path);
      HarmlessPaths(snapshot, f, d.path);
      assert forall g <- files :: g.path != d.path;
    } else {
      var f := d.(uid := 0, gid := 0);
      HarmlessPaths(snapshot, f, d.path);
      forall g | g in files && g.path == d.path ensures g == f {
        var i :| 0 <= i < |files| && files[i] == g;
        var j :| 0 <= j < |files| && files[j] == f;
      }
    }
  }

  /** Delivery is complete: the workspace with the delta added is safe, and needs nothing more. */
  lemma DeliveredOnce(
    entries: seq<Entry>, snapshot: Snapshot, checks: Checks, delta: seq<File>, after: seq<Entry>, again: seq<File>)
    requires ValidSnapshot(snapshot) && Safe(entries, Files(snapshot), checks)
    requires CompletesTree(TreeOf(entries), Files(snapshot), delta, Owner(entries))
    requires Relisted(after, entries, delta)
    ensures Safe(after, Files(snapshot), checks)
    ensures CompletesTree(TreeOf(after), Files(snapshot), again, Owner(after)) ==> again == []
  {
    hide Files, EntryOk, NoDuplicates, Unclean, Forbidden, ValidSnapshot, TreeOf, Wanted;
    var tree, files := TreeOf(entries), Files(snapshot);
    forall d | d in delta ensures Internal(d.path) && EntryOk(EntryFor(d), files, checks) {
      var i :| 0 <= i < |delta| && delta[i] == d;
      assert HasParent(tree, delta[..i], d.path);
      DeltaEntryOk(tree, snapshot, checks, Owner(entries), d);
    }
    TreeRelisted(after, entries, delta);
    FilesApart(snapshot);
    NodesAfter(entries, files, delta, after);
    if CompletesTree(TreeOf(after), files, again, Owner(after)) && again != [] {
      assert again[0] in again;
      NothingWanted(TreeOf(after), files, Owner(after), again[0]);
    }
  }

  lemma NothingWanted(tree: map<Path, Node>, files: seq<File>, owner: (int, int), d: File)
    requires forall f <- files :: f.path in tree
    ensures !Wanted(tree, files, owner, d)
  {
  }

  lemma NodesAfter(entries: seq<Entry>, files: seq<File>, delta: seq<File>, after: seq<Entry>)
    requires HasRepository(TreeOf(entries)) && forall f <- files :: AncestorsAreDirs(TreeOf(entries), f)
    requires CompletesTree(TreeOf(entries), files, delta, Owner(entries))
    requires forall p <- TreeOf(entries) :: p in TreeOf(after) && TreeOf(after)[p] == TreeOf(entries)[p]
    requires forall d <- delta :: d.path in TreeOf(after) && TreeOf(after)[d.path] == NodeFor(d)
    requires forall p <- TreeOf(after) :: p in TreeOf(entries) || p in Paths(delta)
    requires forall f <- files, g <- files :: !Ancestor(f.path, g.path)
    ensures HasRepository(TreeOf(after)) && forall f <- files :: AncestorsAreDirs(TreeOf(after), f)
    ensures forall f <- files :: f.path in TreeOf(after)
  {
    hide TreeOf, Distinct, ParentsFirst;
    forall f, k | f in files && 0 < k < |f.path| && f.path[..k] in TreeOf(after)
      ensures TreeOf(after)[f.path[..k]].Dir?
    {
      var p := f.path[..k];
      if p !in TreeOf(entries) {
        var d :| d in delta && d.path == p;
        assert Wanted(TreeOf(entries), files, Owner(entries), d);
        assert Ancestor(p, f.path);
      }
    }
    forall f | f in files ensures f.path in TreeOf(after) {
      if f.path !in TreeOf(entries) {
        var d := f.(uid := Owner(entries).0, gid := Owner(entries).1);
        assert d in delta;
      }
    }
  }
}
