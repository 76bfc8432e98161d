/**
 * The in-memory file system of `request-example.go`: one flat map from full
 * paths to files. Files are shared (hard links) and change in place, and each
 * knows a name of its own, which for a directory must be its one path.
 */
module MemFs {
  import opened Bytes
  import opened Options
  import opened Paths

  datatype Error = NotExist | Exist | Invalid | TooManySymlinks | NotDir | IsDir | NotEmpty | LinkToDir

  datatype Result<T> = Ok(value: T) | Err(error: Error)

  const MAX_SYMLINK_FOLLOWS := 5

  class MemFile {
    const symlink: Option<Path>
    const isdir: bool
    var name: Path
    var content: Data

    constructor (name: Path, symlink: Option<Path>, isdir: bool)
      ensures this.name == name && this.symlink == symlink && this.isdir == isdir && content == []
    {
      this.name, this.symlink, this.isdir, this.content := name, symlink, isdir, [];
    }
  }

  type Files = map<Path, MemFile>

  predicate IsDirAt(files: Files, p: Path) {
    p == [] || (p in files && files[p].isdir)
  }

  /** Every entry's parent is an existing directory, and a directory has one entry only. */
  ghost predicate Tree(files: Files, root: MemFile) {
    && root.isdir && root.symlink.None?
    && (forall p :: p in files ==> p != [] && files[p] != root && IsDirAt(files, Parent(p)))
    && (forall p :: p in files && files[p].isdir ==> files[p].symlink.None?)
    && (forall p, q :: p in files && q in files && files[p] == files[q] && files[p].isdir ==> p == q)
  }

  /** No entry lies below something that is not a directory, however deep. */
  lemma {:induction false} BelowDirs(files: Files, root: MemFile, p: Path, d: Path)
    requires Tree(files, root) && p in files && d < p
    ensures IsDirAt(files, d)
    decreases |p|
  {
    assert IsDirAt(files, Parent(p));
    if d != Parent(p) {
      assert d < Parent(p);
      BelowDirs(files, root, Parent(p), d);
    }
  }

  /** A directory without direct children has nothing below it at all. */
  lemma {:induction false} NothingBelow(files: Files, root: MemFile, p: Path, d: Path)
    requires Tree(files, root) && p in files && d < p
    ensures exists c :: c in files && c != [] && Parent(c) == d
    decreases |p|
  {
    if d == Parent(p) {
      assert p in files;
    } else {
      assert d < Parent(p);
      assert IsDirAt(files, Parent(p));
      NothingBelow(files, root, Parent(p), d);
    }
  }

  function LFetch(files: Files, root: MemFile, p: Path): Result<MemFile> {
    if p == [] then Ok(root) else if p in files then Ok(files[p]) else Err(NotExist)
  }

  /** Follow at most `n` more symbolic links from a file. */
  function Follow(files: Files, root: MemFile, f: MemFile, n: nat): Result<MemFile>
    decreases n
  {
    if f.symlink.None? then Ok(f)
    else if n == 0 then Err(TooManySymlinks)
    else
      var next := LFetch(files, root, f.symlink.value);
      if next.Ok? then Follow(files, root, next.value, n - 1) else next
  }

  function Resolve(files: Files, root: MemFile, p: Path): Result<MemFile> {
    var f := LFetch(files, root, p);
    if f.Ok? then Follow(files, root, f.value, MAX_SYMLINK_FOLLOWS) else f
  }

  /** What a path resolves to is an entry of the file system, and not a link. */
  lemma {:induction false} FollowFinds(files: Files, root: MemFile, f: MemFile, n: nat)
    requires f == root || f in files.Values
    ensures var r := Follow(files, root, f, n); r.Ok? ==> r.value.symlink.None? && (r.value == root || r.value in files.Values)
    decreases n
  {
    if f.symlink.Some? && n > 0 {
      var next := LFetch(files, root, f.symlink.value);
      if next.Ok? {
        FollowFinds(files, root, next.value, n - 1);
      }
    }
  }

  lemma FollowFindsAll(files: Files, root: MemFile, p: Path)
    ensures var r := Resolve(files, root, p); r.Ok? ==> r.value.symlink.None? && (r.value == root || r.value in files.Values)
  {
    var f := LFetch(files, root, p);
    if f.Ok? {
      assert p != [] ==> files[p] in files.Values;
      FollowFinds(files, root, f.value, MAX_SYMLINK_FOLLOWS);
    }
  }

  /** Where a chain of links ends, existing or not. */
  function LinkTarget(files: Files, root: MemFile, p: Path, n: nat): Result<Path>
    decreases n
  {
    var link := LFetch(files, root, p);
    if link.Err? || link.value.symlink.None? then Ok(p)
    else if n == 0 then Err(TooManySymlinks)
    else LinkTarget(files, root, link.value.symlink.value, n - 1)
  }

  /** At `p` there is a link that names `q`. */
  predicate LinksTo(files: Files, root: MemFile, p: Path, q: Path) {
    var f := LFetch(files, root, p);
    f.Ok? && f.value.symlink == Some(q)
  }

  /** Paths at each of which there is a link that names the next. */
  predicate Chain(files: Files, root: MemFile, c: seq<Path>) {
    c != [] && (|c| > 1 ==> LinksTo(files, root, c[0], c[1]) && Chain(files, root, c[1..]))
  }

  predicate IsLink(files: Files, root: MemFile, p: Path) {
    var f := LFetch(files, root, p);
    f.Ok? && f.value.symlink.Some?
  }

  /** A chain from `p` to `q`, where it ends, of at most `n` links. */
  ghost predicate LeadsTo(files: Files, root: MemFile, p: Path, q: Path, n: nat, c: seq<Path>) {
    Chain(files, root, c) && c[0] == p && c[|c| - 1] == q && !IsLink(files, root, q) && |c| <= n + 1
  }

  lemma {:induction false} TargetChain(files: Files, root: MemFile, p: Path, n: nat) returns (c: seq<Path>)
    ensures Chain(files, root, c) && c[0] == p
    ensures var t := LinkTarget(files, root, p, n);
      if t.Ok? then LeadsTo(files, root, p, t.value, n, c)
      else t == Err(TooManySymlinks) && |c| == n + 1 && IsLink(files, root, c[n])
    decreases n
  {
    var link := LFetch(files, root, p);
    if link.Err? || link.value.symlink.None? || n == 0 {
      c := [p];
    } else {
      var rest := TargetChain(files, root, link.value.symlink.value, n - 1);
      c := [p] + rest;
      assert c[1..] == rest;
    }
  }

  lemma {:induction false} ChainIsOne(files: Files, root: MemFile, p: Path, q: Path, n: nat, c: seq<Path>)
    requires LeadsTo(files, root, p, q, n, c)
    ensures LinkTarget(files, root, p, n) == Ok(q)
    decreases n
  {
    if |c| > 1 {
      ChainIsOne(files, root, c[1], q, n - 1, c[1..]);
    }
  }

  /**
   * Following links: where `LinkTarget` ends is the end of a chain of at most `n` links from the path, each leading to
   * the path it names; it gives up if and only if there is no such chain.
   */
  lemma LinkTargetIff(files: Files, root: MemFile, p: Path, n: nat, q: Path)
    ensures LinkTarget(files, root, p, n) == Ok(q) <==> exists c :: LeadsTo(files, root, p, q, n, c)
    ensures LinkTarget(files, root, p, n).Err? ==> LinkTarget(files, root, p, n) == Err(TooManySymlinks)
  {
    hide LinkTarget;
    var c := TargetChain(files, root, p, n);
    if LinkTarget(files, root, p, n) == Ok(q) {
      assert LeadsTo(files, root, p, q, n, c);
    }
    if d :| LeadsTo(files, root, p, q, n, d) {
      ChainIsOne(files, root, p, q, n, d);
    }
  }

  lemma {:induction false} FollowIsTarget(files: Files, root: MemFile, p: Path, n: nat)
    requires LFetch(files, root, p).Ok?
    ensures
      var t := LinkTarget(files, root, p, n);
      Follow(files, root, LFetch(files, root, p).value, n) == if t.Ok? then LFetch(files, root, t.value) else Err(t.error)
    decreases n
  {
    var f := LFetch(files, root, p).value;
    if f.symlink.Some? && n > 0 && LFetch(files, root, f.symlink.value).Ok? {
      FollowIsTarget(files, root, f.symlink.value, n - 1);
    }
  }

  /** What a path resolves to is what is found at the end of its chain of links. */
  lemma ResolveIsTarget(files: Files, root: MemFile, p: Path)
    ensures
      var t := LinkTarget(files, root, p, MAX_SYMLINK_FOLLOWS);
      Resolve(files, root, p) == if t.Ok? then LFetch(files, root, t.value) else Err(t.error)
  {
    hide Follow;
    if LFetch(files, root, p).Ok? {
      FollowIsTarget(files, root, p, MAX_SYMLINK_FOLLOWS);
    }
  }

  /** Where a new file goes: to the end of a chain of links, but with `excl` only to the path itself, and not over a link. */
  function CreateTarget(files: Files, root: MemFile, p: Path, excl: bool): Result<Path> {
    if !excl then LinkTarget(files, root, p, MAX_SYMLINK_FOLLOWS)
    else if IsLink(files, root, p) then Err(Invalid)
    else Ok(p)
  }

  /** A directory's own path leads to it. */
  lemma ResolveDir(files: Files, root: MemFile, d: Path)
    requires Tree(files, root) && IsDirAt(files, d)
    ensures Resolve(files, root, d) == LFetch(files, root, d)
  {
  }

  lemma AddTree(files: Files, root: MemFile, p: Path, f: MemFile)
    requires Tree(files, root) && p != [] && p !in files && IsDirAt(files, Parent(p)) && f != root
    requires f.isdir ==> f !in files.Values && f.symlink.None?
    ensures Tree(files[p := f], root)
  {
    var files' := files[p := f];
    forall q | q in files' ensures q != [] && files'[q] != root && IsDirAt(files', Parent(q)) {
      assert IsDirAt(files, Parent(q));
    }
    forall a | a in files && f.isdir ensures files[a] != f {
      assert files[a] in files.Values;
    }
    forall a, b | a in files' && b in files' && files'[a] == files'[b] && files'[a].isdir ensures a == b {
    }
  }

  lemma RemoveTree(files: Files, root: MemFile, p: Path)
    requires Tree(files, root) && forall q :: q in files ==> Parent(q) != p || q == []
    ensures Tree(files - {p}, root)
  {
    forall q | q in files - {p} ensures IsDirAt(files - {p}, Parent(q)) {
      assert IsDirAt(files, Parent(q));
    }
  }

  // ---- moving a subtree ----

  /** The entries of `before` with those in `moved` taken from below `d` to below `n`. */
  ghost predicate Partly(before: Files, moved: set<Path>, files: Files, d: Path, n: Path) {
    && (forall p :: p in before && p !in moved ==> p in files && files[p] == before[p])
    && (forall p :: p in moved ==> p in before && d < p && p !in files)
    && (forall p :: p in moved ==> Rebase(p, d, n) in files && files[Rebase(p, d, n)] == before[p])
    && (forall q :: q in files ==> (q in before && q !in moved) || (n < q && Rebase(q, n, d) in moved))
  }

  /** The subtree at `d` is now at `n`, file by file, and nothing else has changed, except that what was at `n` is gone. */
  ghost predicate Moved(before: Files, files: Files, d: Path, n: Path) {
    && (forall p :: p in before && p != n ==> Rebase(p, d, n) in files && files[Rebase(p, d, n)] == before[p])
    && (forall q :: q in files ==> CameFrom(before, q, d, n))
  }

  predicate CameFrom(before: Files, q: Path, d: Path, n: Path) {
    Rebase(q, n, d) in before && (d <= q ==> n <= q)
  }

  /** The paths of the entries strictly below a directory. */
  function Below(files: Files, d: Path): set<Path> {
    set p | p in files && d < p
  }

  predicate Apart(d: Path, n: Path) {
    !(d <= n) && !(n <= d)
  }

  lemma RebaseBack(p: Path, d: Path, n: Path)
    requires d <= p && Apart(d, n)
    ensures n <= Rebase(p, d, n) && Rebase(Rebase(p, d, n), n, d) == p && !(d <= Rebase(p, d, n))
    ensures d < p <==> n < Rebase(p, d, n)
  {
    var q := Rebase(p, d, n);
    assert q[..|n|] == n && q[|n|..] == p[|d|..];
  }

  lemma ParentRebase(q: Path, n: Path, d: Path)
    requires n < q
    ensures n <= Parent(q) && Parent(Rebase(q, n, d)) == Rebase(Parent(q), n, d)
  {
    assert Parent(q)[|n|..] == q[|n|..|q| - 1];
  }

  lemma PartlyMore(before: Files, moved: set<Path>, files: Files, d: Path, n: Path, p: Path)
    requires Partly(before, moved, files, d, n) && Apart(d, n) && p in before && p !in moved && d < p
    requires forall q :: q in before ==> !(n < q)
    ensures Partly(before, moved + {p}, files[Rebase(p, d, n) := files[p]] - {p}, d, n)
  {
    hide Rebase, Apart;
    var p' := Rebase(p, d, n);
    var files', moved' := files[p' := files[p]] - {p}, moved + {p};
    RebaseBack(p, d, n);
    forall x | x in before && x !in moved' ensures x in files' && files'[x] == before[x] {
    }
    forall x | x in moved' ensures x in before && d < x && x !in files' {
    }
    forall x | x in moved' ensures Rebase(x, d, n) in files' && files'[Rebase(x, d, n)] == before[x] {
      RebaseBack(x, d, n);
    }
    forall q | q in files' ensures (q in before && q !in moved') || (n < q && Rebase(q, n, d) in moved') {
    }
  }

  lemma PartlyHas(before: Files, moved: set<Path>, files: Files, d: Path, n: Path, p: Path)
    requires Partly(before, moved, files, d, n) && p in before && p !in moved
    ensures p in files && files[p] == before[p]
  {
  }

  lemma PartlyForward(was: Files, moved: set<Path>, files: Files, d: Path, n: Path, f: MemFile, p: Path)
    requires Apart(d, n) && d in was && f == was[d] && Partly(was[n := f], moved, files, d, n)
    requires (d < p ==> p in moved) && p in was && p != n
    ensures Rebase(p, d, n) in files && Rebase(p, d, n) != d && files[Rebase(p, d, n)] == was[p]
  {
    if p == d {
      assert Rebase(d, d, n) == n;
      assert n in was[n := f] && n !in moved;
    } else if d < p {
      RebaseBack(p, d, n);
    } else {
      assert p in was[n := f] && p !in moved;
    }
  }

  lemma PartlyBack(was: Files, moved: set<Path>, files: Files, d: Path, n: Path, f: MemFile, q: Path)
    requires Apart(d, n) && d in was && f == was[d] && Partly(was[n := f], moved, files, d, n)
    requires (forall p :: p in was && d < p ==> p in moved) && (forall x :: x in was ==> !(n < x))
    requires q in files && q != d
    ensures CameFrom(was, q, d, n)
  {
    if q == n {
      assert Rebase(n, n, d) == d;
    } else if n < q {
      assert q !in was[n := f];
      assert Rebase(q, n, d) in moved;
      assert Rebase(q, n, d) in was[n := f];
      RebaseBack(q, n, d);
    } else {
      assert q in was && q !in moved;
    }
  }

  lemma PartlyDone(was: Files, moved: set<Path>, files: Files, d: Path, n: Path, f: MemFile)
    requires Apart(d, n) && d in was && f == was[d] && Partly(was[n := f], moved, files, d, n)
    requires forall p :: p in was && d < p ==> p in moved
    requires forall q :: q in was ==> !(n < q)
    ensures Moved(was, files - {d}, d, n)
  {
    hide Partly, Apart, Rebase;
    forall p | p in was && p != n ensures Rebase(p, d, n) in files - {d} && (files - {d})[Rebase(p, d, n)] == was[p] {
      PartlyForward(was, moved, files, d, n, f, p);
    }
    forall q | q in files - {d} ensures CameFrom(was, q, d, n) {
      PartlyBack(was, moved, files, d, n, f, q);
    }
  }

  /** A moved tree is a tree. */
  lemma MovedTree(was: Files, files: Files, root: MemFile, d: Path, n: Path)
    requires Tree(was, root) && Moved(was, files, d, n) && Apart(d, n) && d in was && n != []
    requires IsDirAt(was, Parent(n)) && (forall q :: q in was ==> !(n < q))
    ensures Tree(files, root)
  {
    forall q | q in files ensures q != [] && files[q] != root && IsDirAt(files, Parent(q)) {
      MovedParent(was, files, root, d, n, q);
    }
    forall p, q | p in files && q in files && files[p] == files[q] && files[p].isdir ensures p == q {
      MovedSource(was, files, d, n, p);
      MovedSource(was, files, d, n, q);
    }
    forall q | q in files && files[q].isdir ensures files[q].symlink.None? {
      MovedSource(was, files, d, n, q);
    }
  }

  /** Where an entry of the moved tree came from. */
  lemma MovedSource(was: Files, files: Files, d: Path, n: Path, q: Path)
    requires Moved(was, files, d, n) && Apart(d, n) && q in files
    ensures var p := Rebase(q, n, d); p in was && p != n && files[q] == was[p] && Rebase(p, d, n) == q
  {
    var p := Rebase(q, n, d);
    assert CameFrom(was, q, d, n);
    if n <= q {
      RebaseBack(q, n, d);
    }
  }

  lemma MovedDir(was: Files, files: Files, d: Path, n: Path, p: Path)
    requires Moved(was, files, d, n) && IsDirAt(was, p) && p != n && d != []
    ensures IsDirAt(files, Rebase(p, d, n))
  {
  }

  lemma MovedParent(was: Files, files: Files, root: MemFile, d: Path, n: Path, q: Path)
    requires Tree(was, root) && Moved(was, files, d, n) && Apart(d, n) && d in was && n != [] && q in files
    requires IsDirAt(was, Parent(n)) && (forall x :: x in was ==> !(n < x))
    ensures q != [] && files[q] != root && IsDirAt(files, Parent(q))
  {
    hide Moved;
    MovedSource(was, files, d, n, q);
    var p := Rebase(q, n, d);
    if q == n {
      MovedDir(was, files, d, n, Parent(n));
    } else if n < q {
      ParentRebase(q, n, d);
      RebaseBack(Parent(q), n, d);
      assert Parent(p) != n;
      MovedDir(was, files, d, n, Parent(p));
    } else {
      assert Parent(q) != n;
      MovedDir(was, files, d, n, Parent(q));
    }
  }

  /** Why what is at `n` may not be replaced by `file`. */
  function RoomError(files: Files, file: MemFile, n: Path): Error {
    if !file.isdir then IsDir else if IsDirAt(files, n) then NotEmpty else NotDir
  }

  class Root {
    const rootFile: MemFile
    var files: Files

    ghost predicate Names()
      reads this, rootFile, files.Values
    {
      rootFile.name == [] && forall p :: p in files && files[p].isdir ==> files[p].name == p
    }

    ghost predicate Valid()
      reads this, rootFile, files.Values
    {
      Tree(files, rootFile) && Names()
    }

    constructor ()
      ensures Valid() && files == map[] && fresh(rootFile)
    {
      rootFile := new MemFile([], None, true);
      files := map[];
    }

    /** `fetch`: follow symbolic links, five at most. */
    method Fetch(p: Path) returns (r: Result<MemFile>)
      ensures r == Resolve(files, rootFile, p)
    {
      r := LFetch(files, rootFile, p);
      if r.Err? {
        return;
      }
      var count := 0;
      while r.value.symlink.Some?
        invariant r.Ok? && count <= MAX_SYMLINK_FOLLOWS
        invariant Follow(files, rootFile, r.value, MAX_SYMLINK_FOLLOWS - count) == Resolve(files, rootFile, p)
        decreases MAX_SYMLINK_FOLLOWS - count
      {
        count := count + 1;
        if count > MAX_SYMLINK_FOLLOWS {
          return Err(TooManySymlinks);
        }
        r := LFetch(files, rootFile, r.value.symlink.value);
        if r.Err? {
          return;
        }
      }
    }

    /** The canonical form of a path: its last component in the directory that the rest leads to. */
    function Canon(p: Path): Result<Path>
      reads this, rootFile, files.Values
    {
      var dir := Resolve(files, rootFile, Parent(p));
      if dir.Err? then Err(dir.error)
      else if !dir.value.isdir then Err(NotDir)
      else
        FollowFindsAll(files, rootFile, Parent(p));
        Ok(if p == [] then dir.value.name else dir.value.name + [p[|p| - 1]])
    }

    /** A canonical path lies in an existing directory, and canonical paths stay as they are. */
    lemma CanonFacts(p: Path)
      requires Valid()
      ensures var r := Canon(p); r.Ok? ==> (r.value == [] <==> p == [])
      ensures var r := Canon(p); r.Ok? && p != [] ==> IsDirAt(files, Parent(r.value)) && r.value[|r.value| - 1] == p[|p| - 1]
      ensures IsDirAt(files, Parent(p)) ==> Canon(p) == Ok(p)
    {
      var dir := Resolve(files, rootFile, Parent(p));
      if dir.Ok? && dir.value.isdir {
        FollowFindsAll(files, rootFile, Parent(p));
        if dir.value != rootFile {
          var d :| d in files && files[d] == dir.value;
          assert dir.value.name == d;
        }
      }
      if IsDirAt(files, Parent(p)) {
        ResolveDir(files, rootFile, Parent(p));
        assert p != [] ==> Parent(p) + [p[|p| - 1]] == p;
      }
    }

    method CanonName(p: Path) returns (r: Result<Path>)
      ensures r == Canon(p)
    {
      var dir := Fetch(Parent(p));
      if dir.Err? {
        return Err(dir.error);
      }
      if !dir.value.isdir {
        return Err(NotDir);
      }
      r := Ok(if p == [] then dir.value.name else dir.value.name + [p[|p| - 1]]);
    }

    /** Why no entry can be made at a path: there is no directory to put it in, or something is there. */
    function PutError(p: Path): Error
      reads this, rootFile, files.Values
    {
      if Canon(p).Err? then Canon(p).error else Exist
    }

    /** `putfile`: a new entry in an existing directory, never in place of another. */
    method PutFile(pathname: Path, file: MemFile) returns (r: Result<Path>)
      requires file != rootFile && (file.isdir ==> file !in files.Values && file.symlink.None?)
      modifies this`files, file`name
      ensures old(Valid()) ==> Valid()
      ensures r.Ok? ==> r.value !in old(files) && files == old(files)[r.value := file] && file.name == r.value
      ensures r.Ok? ==> old(Canon(pathname)) == r && files.Values <= old(files.Values) + {file}
      ensures r.Err? ==> files == old(files) && file.name == old(file.name) && r.error == old(PutError(pathname))
      ensures r.Err? <==> old(Canon(pathname)).Err? || old(Canon(pathname)).value == [] || old(Canon(pathname)).value in old(files)
    {
      hide Canon, Tree;
      if Valid() {
        CanonFacts(pathname);
      }
      r := CanonName(pathname);
      if r.Err? {
        return;
      }
      var there := LFetch(files, rootFile, r.value);
      if there != Err(NotExist) {
        return Err(Exist);
      }
      if Valid() {
        AddTree(files, rootFile, r.value, file);
      }
      file.name := r.value;
      files := files[r.value := file];
    }

    /** A canonical path at which a new entry can be made. */
    predicate CanPut(p: Path)
      reads this, rootFile, files.Values
    {
      Canon(p).Ok? && Canon(p).value != [] && Canon(p).value !in files
    }

    method Mkdir(pathname: Path) returns (r: Result<Path>)
      modifies this`files
      ensures old(Valid()) ==> Valid()
      ensures (r.Ok? <==> old(CanPut(pathname))) && (r.Ok? ==> r == old(Canon(pathname)))
      ensures r.Ok? ==>
        r.value !in old(files) && r.value in files && files[r.value].isdir && files - {r.value} == old(files)
      ensures fresh(files.Values - old(files.Values))
      ensures r.Err? ==> files == old(files) && r.error == old(PutError(pathname))
    {
      hide Tree, Canon;
      var dir := new MemFile([], None, true);
      r := PutFile(pathname, dir);
    }

    method Symlink(target: Path, linkpath: Path) returns (r: Result<Path>)
      requires Valid()
      modifies this`files
      ensures Valid() && (r.Ok? <==> old(CanPut(linkpath))) && (r.Ok? ==> r == old(Canon(linkpath)))
      ensures r.Ok? ==>
        && r.value !in old(files) && r.value in files && files[r.value].symlink == Some(target)
        && files - {r.value} == old(files)
      ensures fresh(files.Values - old(files.Values))
      ensures r.Err? ==> files == old(files) && r.error == old(PutError(linkpath))
    {
      hide Tree, Canon;
      var link := new MemFile([], Some(target), false);
      r := PutFile(linkpath, link);
    }

    /** A hard link: the same file under a second path. */
    method Link(oldpath: Path, newpath: Path) returns (r: Result<Path>)
      requires Valid()
      modifies this`files, files.Values`name
      ensures Valid() && (r.Ok? <==> oldpath in old(files) && !old(files)[oldpath].isdir && old(CanPut(newpath)))
      ensures r.Ok? ==>
        r == old(Canon(newpath)) && files == old(files)[r.value := old(files)[oldpath]]
      ensures r.Err? ==> files == old(files)
      ensures files.Values <= old(files.Values)
      ensures IsDirAt(old(files), oldpath) ==> r == Err(LinkToDir)
      ensures r.Err? && !IsDirAt(old(files), oldpath) ==>
        r.error == if oldpath in old(files) then old(PutError(newpath)) else NotExist
    {
      var file := LFetch(files, rootFile, oldpath);
      if file.Err? {
        return Err(file.error);
      }
      if file.value.isdir {
        return Err(LinkToDir);
      }
      r := PutFile(newpath, file.value);
    }

    method Unlink(pathname: Path) returns (r: Result<Path>)
      requires Valid()
      modifies this`files
      ensures Valid()
      ensures r.Ok? <==> pathname in old(files) && !old(files)[pathname].isdir
      ensures r.Err? ==> r.error == if IsDirAt(old(files), pathname) then Invalid else NotExist
      ensures files == if r.Ok? then old(files) - {pathname} else old(files)
      ensures files.Values <= old(files.Values)
    {
      var file := LFetch(files, rootFile, pathname);
      if file.Err? {
        return Err(file.error);
      }
      if file.value.isdir {
        return Err(Invalid);
      }
      forall q | q in files ensures Parent(q) != pathname || q == [] {
        assert IsDirAt(files, Parent(q));
      }
      RemoveTree(files, rootFile, pathname);
      files := files - {pathname};
      r := Ok(pathname);
    }

    /** `rmdir` removes a directory exactly when nothing lies in it; the root is never an entry. */
    method Rmdir(pathname: Path) returns (r: Result<Path>)
      requires Valid()
      modifies this`files
      ensures Valid()
      ensures r.Ok? <==> IsDirAt(old(files), pathname) && forall q :: q in old(files) ==> Parent(q) != pathname
      ensures r.Err? ==>
        r.error == if IsDirAt(old(files), pathname) then NotEmpty else if pathname in old(files) then NotDir else NotExist
      ensures files == if r.Ok? then old(files) - {pathname} else old(files)
      ensures files.Values <= old(files.Values)
    {
      var dir := LFetch(files, rootFile, pathname);
      if dir.Err? {
        return Err(dir.error);
      }
      if !dir.value.isdir {
        return Err(NotDir);
      }
      var name := dir.value.name;
      assert name == pathname;
      var todo := files.Keys;
      while todo != {}
        invariant todo <= files.Keys && files == old(files)
        invariant forall q :: q in files && q !in todo ==> Parent(q) != name
        decreases todo
      {
        var q :| q in todo;
        if Parent(q) == name {
          return Err(NotEmpty);
        }
        todo := todo - {q};
      }
      RemoveTree(files, rootFile, name);
      files := files - {name};
      r := Ok(pathname);
    }

    ghost predicate NamesBut(n: Path)
      reads this, files.Values
    {
      forall q :: q in files && files[q].isdir && q != n ==> files[q].name == q
    }

    method MoveOne(name: Path, file: MemFile, d: Path, n: Path, ghost before: Files, ghost moved: set<Path>)
      requires Partly(before, moved, files, d, n) && Apart(d, n) && (forall q :: q in before ==> !(n < q)) && NamesBut(n)
      requires name in before && name !in moved && d < name && name in files && file == files[name]
      modifies this`files, file`name
      ensures Partly(before, moved + {name}, files, d, n) && NamesBut(n)
      ensures n < Rebase(name, d, n) && files == old(files)[Rebase(name, d, n) := file] - {name}
    {
      PartlyMore(before, moved, files, d, n, name);
      RebaseBack(name, d, n);
      hide Partly, Apart, Rebase;
      var newname := Rebase(name, d, n);
      files := files[newname := file];
      file.name := newname;
      files := files - {name};
    }

    /**
     * The loop of `rename`: the map is walked while it changes, so its first keys come up in any order, and
     * the keys put in on the way may come up or not.
     */
    method MoveChildren(d: Path, n: Path)
      requires Apart(d, n) && d in files && n in files && (forall q :: q in files ==> !(n < q)) && NamesBut(n)
      modifies this`files, files.Values`name
      ensures Partly(old(files), Below(old(files), d), files, d, n) && NamesBut(n)
    {
      ghost var before := files;
      var pending, extra: set<Path>, again := files.Keys, {}, true;
      ghost var moved: set<Path> := {};
      while pending != {} || (extra != {} && again)
        invariant Partly(before, moved, files, d, n) && NamesBut(n)
        invariant Waiting(before, moved, pending, d) && Beyond(extra, n)
        decreases pending, extra
      {
        hide Partly, NamesBut, Rebase, Waiting, Beyond;
        var name :| name in pending + extra;
        StillWaiting(before, moved, pending, d, n, extra, name);
        pending, extra := pending - {name}, extra - {name};
        if d < name {
          PartlyHas(before, moved, files, d, n, name);
          assert before[name] in before.Values;
          MoveOne(name, files[name], d, n, before, moved);
          OneBeyond(extra, n, Rebase(name, d, n));
          extra := extra + {Rebase(name, d, n)};
          moved := moved + {name};
        }
        again := *;
      }
      MovedAreBelow(before, moved, files, d, n);
    }

    /** The second half of `rename`, once the way is clear. */
    method MoveTo(file: MemFile, d: Path, n: Path)
      requires Valid() && d in files && file == files[d] && n != [] && IsDirAt(files, Parent(n)) && Apart(d, n)
      requires (forall q :: q in files ==> !(n < q)) && (n in files ==> !files[n].isdir)
      modifies this`files, files.Values`name
      ensures Valid() && Moved(old(files), files, d, n) && files.Values <= old(files.Values)
    {
      hide Tree, Partly, Moved, Apart, Rebase;
      ghost var was := files;
      ghost var added := files[n := file];
      FreshTarget(was, added, rootFile, d, n);
      files := files[n := file];
      assert NamesBut(n);
      if file.isdir {
        MoveChildren(file.name, n);
      } else {
        NoChildren(was, added, rootFile, d, n);
      }
      PartlyDone(was, Below(added, d), files, d, n, file);
      ghost var after := files - {d};
      MovedTree(was, after, rootFile, d, n);
      MovedNames(was, after, rootFile, d, n);
      assert n in after;
      assert after[n] == files[n];
      assert forall q :: q in files && q != d ==> q in after && after[q] == files[q];
      Retitle(file, d, n);
    }

    /** The last two statements of `rename`. */
    method Retitle(file: MemFile, d: Path, n: Path)
      requires NamesBut(n) && n in files && n != d && files[n] == file && file != rootFile && rootFile.name == []
      requires file.isdir ==> forall q :: q in files && q != n && q != d ==> files[q] != file
      modifies this`files, file`name
      ensures Names() && files == old(files) - {d}
    {
      file.name := n;
      files := files - {d};
    }

    /** The two limits under which `rename` keeps a tree: not the root, and no directory into its own subtree. */
    predicate WithinLimits(oldpath: Path, newpath: Path)
      reads this, rootFile, files.Values
    {
      oldpath != [] && (IsDirAt(files, oldpath) && Canon(newpath).Ok? ==> !(oldpath < Canon(newpath).value))
    }

    /** The first half of `rename`: what is at the new path already; `Ok(true)` when there is nothing to do. */
    method MakeRoom(file: MemFile, d: Path, n: Path) returns (r: Result<bool>)
      requires Valid() && LFetch(files, rootFile, d) == Ok(file) && (n != [] ==> IsDirAt(files, Parent(n)))
      modifies this`files
      ensures Valid()
      ensures r.Ok? <==> if n == [] then d == [] else Replaceable(old(files), file, n)
      ensures r.Ok? ==> (r.value <==> n == [] || SameFile(old(files), d, n))
      ensures r.Ok? && !r.value ==> Room(old(files), files, d, n)
      ensures r.Err? || r.value ==> files == old(files)
      ensures r.Err? ==> r.error == RoomError(old(files), file, n)
    {
      if d != [] {
        RootIsBusy(files, rootFile, d);
      }
      NoParentless(files, rootFile, n);
      var target := LFetch(files, rootFile, n);
      if target.Ok? {
        if target.value == file {
          return Ok(true);
        }
        if file.isdir {
          var removed := Rmdir(n);
          if removed.Err? {
            return Err(removed.error);
          }
        } else if target.value.isdir {
          return Err(IsDir);
        }
      }
      r := Ok(false);
    }

    /** Where a rename can go to: what is there is the same file, or may be replaced; over the root only the root. */
    ghost predicate CanRename(oldpath: Path, newpath: Path)
      reads this, rootFile, files.Values
    {
      var file, n := LFetch(files, rootFile, oldpath), Canon(newpath);
      file.Ok? && n.Ok? && if n.value == [] then oldpath == [] else Replaceable(files, file.value, n.value)
    }

    function RenameError(oldpath: Path, newpath: Path): Error
      reads this, rootFile, files.Values
    {
      var file, n := LFetch(files, rootFile, oldpath), Canon(newpath);
      if file.Err? then NotExist else if n.Err? then n.error else RoomError(files, file.value, n.value)
    }

    /** The root has become an entry of its own file system, and goes by that entry's path. */
    ghost predicate RootMoved(was: Files, n: Path)
      reads this, rootFile
    {
      n != [] && files == was[n := rootFile] && rootFile.name == n
    }

    /** The second half of `rename` for the root: no name begins with its name and a slash, so no entry is moved. */
    method MoveRoot(n: Path)
      requires Valid() && n != []
      modifies this`files, rootFile`name
      ensures RootMoved(old(files), n)
    {
      files := files[n := rootFile];
      rootFile.name := n;
    }

    /** The second half of `rename` for a directory and a path below it; the walk may bring up what it has put in. */
    method MoveInto(file: MemFile, d: Path, n: Path)
      requires Valid() && d in files && file == files[d] && file.isdir && d < n
      modifies this`files, files.Values`name
      ensures exists keys :: Walked(old(files), files, d, n, keys)
      ensures !Tree(files, rootFile) && files.Values <= old(files.Values)
    {
      var steps: nat :| steps >= 0;
      ghost var keys: seq<Path> := [];
      files := files[n := file];
      ghost var added := files;
      for i := 0 to steps
        invariant files == MoveKeys(added, keys, d, n) && files.Values <= old(files.Values) && d in files && files[d] == file
      {
        hide MoveKeys, Rebase;
        var name :| name in files;
        MoveKeysNext(added, keys, name, d, n);
        keys := keys + [name];
        if d < name {
          RebaseDeeper(name, d, n);
          var moving := files[name];
          assert moving in files.Values;
          files := files[Rebase(name, d, n) := moving];
          moving.name := Rebase(name, d, n);
          files := files - {name};
        }
      }
      file.name := n;
      files := files - {d};
      assert Walked(old(files), files, d, n, keys);
      IntoItselfBreaks(old(files), rootFile, d, n, keys);
    }

    /**
     * `rename`. It succeeds exactly when the entry exists, the new path lies in a directory, and what is there
     * already is the same file or may be replaced. Within the limits the whole subtree has then moved, nothing else
     * changed and the tree is kept; outside them it is not, unless the root is renamed to itself.
     */
    method Rename(oldpath: Path, newpath: Path) returns (r: Result<Path>)
      requires Valid()
      modifies this`files, files.Values`name, rootFile`name
      ensures r.Ok? <==> old(CanRename(oldpath, newpath))
      ensures r.Ok? ==> r == old(Canon(newpath))
      ensures Valid() <==> r.Err? || old(WithinLimits(oldpath, newpath)) || r.value == []
      ensures r.Ok? && old(WithinLimits(oldpath, newpath)) ==>
        && oldpath in old(files) && r.value != [] && files.Values <= old(files.Values)
        && if SameFile(old(files), oldpath, r.value) then files == old(files) else Moved(old(files), files, oldpath, r.value)
      ensures r.Ok? && oldpath != [] && !old(WithinLimits(oldpath, newpath)) ==>
        exists keys :: Walked(old(files), files, oldpath, r.value, keys)
      ensures r.Ok? && oldpath == [] && r.value != [] ==> RootMoved(old(files), r.value)
      ensures r.Ok? && oldpath == [] && r.value == [] ==> files == old(files)
      ensures r.Err? ==> files == old(files) && r.error == old(RenameError(oldpath, newpath))
      ensures files.Values <= old(files.Values) + {rootFile}
    {
      hide Tree, Apart, Moved, Replaceable, Room, Canon;
      var file := LFetch(files, rootFile, oldpath);
      if file.Err? {
        return Err(file.error);
      }
      CanonFacts(newpath);
      r := CanonName(newpath);
      if r.Err? {
        return;
      }
      var n := r.value;
      var room := MakeRoom(file.value, oldpath, n);
      if room.Err? {
        return Err(room.error);
      }
      if room.value {
        SameDir(files, rootFile, oldpath, n);
      } else {
        ghost var was := files;
        if oldpath == [] {
          MoveRoot(n);
          RoomAgain(old(files), was, oldpath, n, rootFile);
          RootTwice(old(files), rootFile, n);
        } else if file.value.isdir && oldpath < n {
          MoveInto(file.value, oldpath, n);
          ghost var keys :| Walked(was, files, oldpath, n, keys);
          RoomAgain(old(files), was, oldpath, n, file.value);
          assert Walked(old(files), files, oldpath, n, keys);
        } else {
          WayIsClear(old(files), files, rootFile, oldpath, n);
          MoveTo(file.value, oldpath, n);
          StillMoved(old(files), was, files, oldpath, n);
        }
      }
    }

    /** The RENAME packet: unlike `rename` itself it never replaces anything. */
    method RenameNew(oldpath: Path, newpath: Path) returns (r: Result<Path>)
      requires Valid()
      modifies this`files, files.Values`name, rootFile`name
      ensures Valid() <==> r.Err? || old(WithinLimits(oldpath, newpath))
      ensures r.Ok? <==> old(CanRename(oldpath, newpath) && CanPut(newpath))
      ensures r.Ok? ==> r == old(Canon(newpath)) && r.value !in old(files)
      ensures r.Ok? && old(WithinLimits(oldpath, newpath)) ==>
        oldpath in old(files) && files.Values <= old(files.Values) && Moved(old(files), files, oldpath, r.value)
      ensures r.Ok? && oldpath == [] ==> RootMoved(old(files), r.value)
      ensures r.Err? ==>
        && files == old(files)
        && r.error == if old(Canon(newpath)).Ok? && !old(CanPut(newpath)) then Exist else old(RenameError(oldpath, newpath))
      ensures files.Values <= old(files.Values) + {rootFile}
    {
      hide Tree, Moved, Replaceable, Canon;
      var there := CanonName(newpath);
      if there.Ok? && LFetch(files, rootFile, there.value) != Err(NotExist) {
        return Err(Exist);
      }
      r := Rename(oldpath, newpath);
    }

    /**
     * Once the root has been renamed it no longer goes by its path, it is found under two paths, and whatever is made
     * in it is put below the new one.
     */
    lemma RootMovedBreaks(was: Files, n: Path, x: Data)
      requires Tree(was, rootFile) && RootMoved(was, n)
      ensures !Names() && !Tree(files, rootFile)
      ensures LFetch(files, rootFile, []) == LFetch(files, rootFile, n) == Ok(rootFile)
      ensures Canon([x]) == Ok(n + [x])
    {
      assert Parent([x]) == [];
      RootTwice(was, rootFile, n);
    }

    /** `openfile`: an existing plain file, or a new one, possibly through a chain of dangling links. */
    method OpenFile(pathname: Path, creat: bool, excl: bool, trunc: bool) returns (r: Result<MemFile>)
      requires Valid()
      modifies this`files, files.Values`content
      ensures Valid()
      ensures var f := old(Resolve(files, rootFile, pathname));
        && (f.Ok? ==> files == old(files))
        && (f.Ok? ==> r == if creat && excl then Err(Exist) else if f.value.isdir then Err(Invalid) else f)
        && (f.Err? && (f.error != NotExist || !creat) ==> r == f && files == old(files))
      ensures r.Ok? && r.value in old(files).Values ==> r.value.content == if trunc then [] else old(r.value.content)
      ensures forall f :: f in old(files).Values && Ok(f) != r ==> f.content == old(f.content)
      ensures r.Ok? ==> !r.value.isdir && r.value.symlink.None?
      ensures fresh(files.Values - old(files.Values))
      ensures
        var target := CreateTarget(old(files), rootFile, pathname, excl);
        old(Resolve(files, rootFile, pathname)) == Err(NotExist) && creat ==>
          if target.Err? then r == Err(target.error)
          else if old(CanPut(target.value)) then r.Ok? && Ok(r.value.name) == old(Canon(target.value))
          else r == Err(old(PutError(target.value)))
      ensures r.Ok? && old(Resolve(files, rootFile, pathname)).Err? ==>
        && fresh(r.value) && r.value.content == [] && r.value.name !in old(files) && r.value.name in files
        && files[r.value.name] == r.value && files - {r.value.name} == old(files)
      ensures r.Err? ==> files == old(files)
    {
      hide Canon, CreateTarget, Resolve;
      r := Fetch(pathname);
      FollowFindsAll(files, rootFile, pathname);
      if r == Err(NotExist) {
        if !creat {
          return;
        }
        r := Create(pathname, excl);
        return;
      }
      if r.Err? {
        return;
      }
      if creat && excl {
        return Err(Exist);
      }
      if r.value.isdir {
        return Err(Invalid);
      }
      if trunc {
        r.value.content := [];
      }
    }

    method Create(start: Path, excl: bool) returns (r: Result<MemFile>)
      requires Valid()
      modifies this`files
      ensures Valid()
      ensures r.Ok? ==>
        && fresh(r.value) && r.value.content == [] && !r.value.isdir && r.value.symlink.None? && r.value.name !in old(files)
        && r.value.name in files && files[r.value.name] == r.value && files - {r.value.name} == old(files)
      ensures r.Err? ==> files == old(files)
      ensures fresh(files.Values - old(files.Values))
      ensures
        var target := CreateTarget(old(files), rootFile, start, excl);
        if target.Err? then r == Err(target.error)
        else if old(CanPut(target.value)) then r.Ok? && Ok(r.value.name) == old(Canon(target.value))
        else r == Err(old(PutError(target.value)))
    {
      hide Tree, Canon;
      var pathname, count := start, 0;
      var link := LFetch(files, rootFile, pathname);
      while link.Ok? && link.value.symlink.Some?
        invariant files == old(files) && Valid() && count <= MAX_SYMLINK_FOLLOWS
        invariant link == LFetch(files, rootFile, pathname) && (count == 0 ==> pathname == start) && (count > 0 ==> !excl)
        invariant LinkTarget(files, rootFile, start, MAX_SYMLINK_FOLLOWS)
               == LinkTarget(files, rootFile, pathname, MAX_SYMLINK_FOLLOWS - count)
        decreases MAX_SYMLINK_FOLLOWS - count
      {
        if excl {
          return Err(Invalid);
        }
        count := count + 1;
        if count > MAX_SYMLINK_FOLLOWS {
          return Err(TooManySymlinks);
        }
        pathname := link.value.symlink.value;
        link := LFetch(files, rootFile, pathname);
      }
      var file := new MemFile([], None, false);
      var put := PutFile(pathname, file);
      if put.Err? {
        return Err(put.error);
      }
      r := Ok(file);
    }

    /** However a path leads to a directory, the directory's own name is its one path, with no link on it. */
    lemma CanonicalPath(p: Path)
      requires Valid() && Resolve(files, rootFile, p).Ok? && Resolve(files, rootFile, p).value.isdir
      ensures var dir := Resolve(files, rootFile, p).value;
        LFetch(files, rootFile, dir.name) == Ok(dir) && forall d :: LFetch(files, rootFile, d) == Ok(dir) ==> d == dir.name
    {
      FollowFindsAll(files, rootFile, p);
      var dir := Resolve(files, rootFile, p).value;
      if dir != rootFile {
        var d :| d in files && files[d] == dir;
      }
    }

    /** Canonical form, said without the names that directories carry. */
    lemma CanonIs(p: Path, q: Path)
      requires Valid()
      ensures Canon(p) == Ok(q) <==> Canonical(files, rootFile, p, q)
    {
      hide Tree, Resolve;
      var dir := Resolve(files, rootFile, Parent(p));
      if dir.Ok? && dir.value.isdir {
        CanonicalPath(Parent(p));
        CanonFacts(p);
        if p != [] {
          assert Canonical(files, rootFile, p, q) ==> q == Parent(q) + [p[|p| - 1]];
          assert Parent(dir.value.name + [p[|p| - 1]]) == dir.value.name;
        }
      }
    }

    lemma CanonMeans(p: Path)
      requires Valid()
      ensures forall q :: Canon(p) == Ok(q) <==> Canonical(files, rootFile, p, q)
      ensures CanPut(p) <==> exists q :: FreeFor(files, rootFile, p, q)
    {
      hide Tree, Canon, Canonical;
      forall q ensures Canon(p) == Ok(q) <==> Canonical(files, rootFile, p, q) {
        CanonIs(p, q);
      }
      if CanPut(p) {
        assert FreeFor(files, rootFile, p, Canon(p).value);
      }
    }

    predicate Safe(op: Op)
      reads this, rootFile, files.Values
    {
      op.Move? || op.PosixMove? ==> WithinLimits(op.p, op.q)
    }

    lemma SafeMeans(op: Op)
      requires Valid()
      ensures Safe(op) <==> (op.Move? || op.PosixMove? ==> Within(files, rootFile, op.p, op.q))
    {
      hide Tree, Canon, Canonical;
      if op.Move? || op.PosixMove? {
        CanonMeans(op.q);
      }
    }

    method Perform(op: Op) returns (ok: bool)
      requires Valid()
      modifies this`files, files.Values, rootFile`name
      ensures (!ok || old(Safe(op)) ==> Valid()) && fresh(files.Values - old(files.Values) - {rootFile})
      ensures old(Safe(op)) ==> Does(op, rootFile, old(files), files, ok)
    {
      hide Tree, Moved, Replaceable, Canon, Resolve, Canonical;
      match op {
        case MakeDir(p) => ok := PerformMake(op);
        case SoftLink(p, q) => ok := PerformMake(op);
        case HardLink(p, q) =>
          CanonMeans(q);
          var r := Link(p, q);
          ok := r.Ok?;
        case Remove(p) =>
          var r := Unlink(p);
          ok := r.Ok?;
        case RemoveDir(p) =>
          var r := Rmdir(p);
          ok := r.Ok?;
        case Move(p, q) => ok := PerformMove(op);
        case PosixMove(p, q) => ok := PerformMove(op);
        case Open(p, creat, excl, trunc) => ok := PerformOpen(op);
      }
    }

    method PerformMake(op: Op) returns (ok: bool)
      requires Valid() && (op.MakeDir? || op.SoftLink?)
      modifies this`files
      ensures Valid() && fresh(files.Values - old(files.Values)) && Does(op, rootFile, old(files), files, ok)
    {
      hide Tree, Canon, Resolve, Canonical;
      CanonMeans(if op.MakeDir? then op.p else op.q);
      var r;
      if op.MakeDir? {
        r := Mkdir(op.p);
      } else {
        r := Symlink(op.p, op.q);
      }
      ok := r.Ok?;
    }

    method PerformMove(op: Op) returns (ok: bool)
      requires Valid() && (op.Move? || op.PosixMove?)
      modifies this`files, files.Values`name, rootFile`name
      ensures (!ok || old(Safe(op)) ==> Valid()) && files.Values <= old(files.Values) + {rootFile}
      ensures old(Safe(op)) ==> Does(op, rootFile, old(files), files, ok)
    {
      hide Tree, Moved, Replaceable, Canon, Resolve, Canonical;
      CanonMeans(op.q);
      RootIsNoEntry(files, rootFile);
      var r;
      if op.Move? {
        r := RenameNew(op.p, op.q);
      } else {
        r := Rename(op.p, op.q);
      }
      ok := r.Ok?;
      if ok && old(Safe(op)) {
        assert Renames(old(files), rootFile, op.p, op.q, r.value);
      } else if q :| Renames(old(files), rootFile, op.p, op.q, q) {
        assert old(Canon(op.q)) == Ok(q);
      }
    }

    method PerformOpen(op: Op) returns (ok: bool)
      requires Valid() && op.Open?
      modifies this`files, files.Values`content
      ensures Valid() && fresh(files.Values - old(files.Values)) && Does(op, rootFile, old(files), files, ok)
    {
      hide Tree, Canon, Resolve, Canonical;
      ghost var target := CreateTarget(files, rootFile, op.p, op.excl);
      if target.Ok? {
        CanonMeans(target.value);
      }
      var f := OpenFile(op.p, op.creat, op.excl, op.trunc);
      ok := f.Ok?;
    }
  }

  datatype Op =
    | MakeDir(p: Path) | SoftLink(p: Path, q: Path) | HardLink(p: Path, q: Path) | Remove(p: Path) | RemoveDir(p: Path)
    | Move(p: Path, q: Path) | PosixMove(p: Path, q: Path) | Open(p: Path, creat: bool, excl: bool, trunc: bool)

  /** `q` is the canonical form of `p`: its last component, in the directory that the rest leads to. */
  predicate Canonical(files: Files, root: MemFile, p: Path, q: Path) {
    var dir := Resolve(files, root, Parent(p));
    && dir.Ok? && dir.value.isdir
    && if p == [] then q == [] else q != [] && q[|q| - 1] == p[|p| - 1] && LFetch(files, root, Parent(q)) == dir
  }

  /** The canonical form of `p`, and nothing is there. */
  predicate FreeFor(files: Files, root: MemFile, p: Path, q: Path) {
    Canonical(files, root, p, q) && q != [] && q !in files
  }

  /** The rename is neither of the root nor of a directory into its own subtree. */
  ghost predicate Within(files: Files, root: MemFile, p: Path, n: Path) {
    p != [] && forall q :: IsDirAt(files, p) && Canonical(files, root, n, q) ==> !(p < q)
  }

  /** There is one more entry, at `q`. */
  predicate Added(files: Files, files': Files, q: Path) {
    q in files' && files' - {q} == files
  }

  /** The rename of the entry at `p` to `q` is possible. */
  ghost predicate Renames(files: Files, root: MemFile, p: Path, n: Path, q: Path) {
    p in files && Canonical(files, root, n, q) && q != [] && Replaceable(files, files[p], q)
  }

  /** What an operation, renames within their limits, does to the entries, and when it succeeds. */
  ghost predicate Does(op: Op, root: MemFile, files: Files, files': Files, ok: bool) {
    && (!ok ==> files' == files)
    && match op
       case MakeDir(p) =>
         && (ok <==> exists q :: FreeFor(files, root, p, q))
         && (ok ==> exists q :: FreeFor(files, root, p, q) && Added(files, files', q) && files'[q].isdir)
       case SoftLink(t, p) =>
         && (ok <==> exists q :: FreeFor(files, root, p, q))
         && (ok ==> exists q :: FreeFor(files, root, p, q) && Added(files, files', q) && files'[q].symlink == Some(t))
       case HardLink(p, n) =>
         && (ok <==> p in files && !files[p].isdir && exists q :: FreeFor(files, root, n, q))
         && (ok ==> exists q :: FreeFor(files, root, n, q) && files' == files[q := files[p]])
       case Remove(p) => (ok <==> p in files && !files[p].isdir) && (ok ==> files' == files - {p})
       case RemoveDir(p) =>
         (ok <==> IsDirAt(files, p) && forall q :: q in files ==> Parent(q) != p) && (ok ==> files' == files - {p})
       case Move(p, n) =>
         && (ok <==> exists q :: Renames(files, root, p, n, q) && q !in files)
         && (ok ==> exists q :: Renames(files, root, p, n, q) && Moved(files, files', p, q))
       case PosixMove(p, n) =>
         && (ok <==> exists q :: Renames(files, root, p, n, q))
         && (ok ==> exists q :: Renames(files, root, p, n, q)
                     && if SameFile(files, p, q) then files' == files else Moved(files, files', p, q))
       case Open(p, creat, excl, trunc) =>
         var f := Resolve(files, root, p);
         if f.Ok? then files' == files && (ok <==> !(creat && excl) && !f.value.isdir)
         else if f.error != NotExist || !creat then !ok
         else
           var target := CreateTarget(files, root, p, excl);
           && (ok <==> target.Ok? && exists q :: FreeFor(files, root, target.value, q))
           && (ok ==> exists q :: FreeFor(files, root, target.value, q) && Added(files, files', q)
                       && !files'[q].isdir && files'[q].symlink.None?)
  }

  /** The entries after each operation in turn; a rename outside the limits is passed over. */
  ghost predicate History(ops: seq<Op>, root: MemFile, states: seq<Files>, oks: seq<bool>) {
    && |states| == |ops| + 1 && |oks| == |ops| && states[0] == map[]
    && forall i :: 0 <= i < |ops| ==> Next(ops[i], root, states[i], states[i + 1], oks[i])
  }

  ghost predicate Next(op: Op, root: MemFile, files: Files, files': Files, ok: bool) {
    if (op.Move? || op.PosixMove?) && !Within(files, root, op.p, op.q) then !ok && files' == files
    else Does(op, root, files, files', ok)
  }

  lemma HistoryNext(ops: seq<Op>, root: MemFile, states: seq<Files>, oks: seq<bool>, i: nat, files: Files, ok: bool)
    requires i < |ops| && History(ops[..i], root, states, oks) && Next(ops[i], root, states[i], files, ok)
    ensures History(ops[..i + 1], root, states + [files], oks + [ok])
  {
    hide Next;
    var states', oks' := states + [files], oks + [ok];
    forall k | 0 <= k < i + 1 ensures Next(ops[..i + 1][k], root, states'[k], states'[k + 1], oks'[k]) {
      if k < i {
        assert ops[..i][k] == ops[k];
      }
    }
  }

  lemma RootIsNoEntry(files: Files, root: MemFile)
    requires Tree(files, root)
    ensures [] !in files
  {
  }

  /**
   * Every run of operations from an empty file system, renames within their limits, ends in a proper tree, which is
   * what the operations, one after the other, make of it.
   */
  method Session(ops: seq<Op>) returns (fs: Root, oks: seq<bool>, ghost states: seq<Files>)
    ensures fs.Valid()
    ensures History(ops, fs.rootFile, states, oks) && states[|ops|] == fs.files
  {
    fs := new Root();
    oks, states := [], [fs.files];
    for i := 0 to |ops|
      invariant fs.Valid() && fresh(fs) && fresh(fs.rootFile) && fresh(fs.files.Values)
      invariant History(ops[..i], fs.rootFile, states, oks) && states[i] == fs.files
    {
      hide Root.Valid, Root.Safe, Within, Does, History;
      var op := ops[i];
      var ok := false;
      ghost var before := fs.files;
      fs.SafeMeans(op);
      if fs.Safe(op) {
        ok := fs.Perform(op);
      }
      HistoryNext(ops, fs.rootFile, states, oks, i, fs.files, ok);
      oks, states := oks + [ok], states + [fs.files];
    }
    assert ops[..|ops|] == ops;
  }

  predicate SameFile(files: Files, p: Path, q: Path) {
    p in files && q in files && files[p] == files[q]
  }

  /** What may be at the new path: nothing, the same file, an empty directory for a directory, a file for a file. */
  ghost predicate Replaceable(files: Files, file: MemFile, n: Path) {
    n in files ==> files[n] == file || (files[n].isdir == file.isdir && forall q :: q in files ==> Parent(q) != n)
  }

  /** Where there is an entry, the root is not empty. */
  lemma RootIsBusy(files: Files, root: MemFile, p: Path)
    requires Tree(files, root) && p in files
    ensures exists q :: q in files && Parent(q) == []
  {
    NothingBelow(files, root, p, []);
  }

  /** What the first half leaves for the second. */
  ghost predicate Room(was: Files, files: Files, d: Path, n: Path) {
    && (files == was || files == was - {n}) && n != d && (n in files ==> !files[n].isdir)
    && forall q :: q in was ==> Parent(q) != n
  }

  lemma NoParentless(files: Files, root: MemFile, n: Path)
    requires Tree(files, root)
    ensures !IsDirAt(files, n) ==> forall q :: q in files ==> Parent(q) != n
  {
  }

  lemma StillMoved(was: Files, cut: Files, files: Files, d: Path, n: Path)
    requires Moved(cut, files, d, n) && Room(was, cut, d, n)
    ensures Moved(was, files, d, n)
  {
    forall p | p in was && p != n ensures Rebase(p, d, n) in files && files[Rebase(p, d, n)] == was[p] {
      assert p in cut && cut[p] == was[p];
    }
    forall q | q in files ensures CameFrom(was, q, d, n) {
      assert CameFrom(cut, q, d, n);
    }
  }

  lemma WayIsClear(was: Files, files: Files, root: MemFile, d: Path, n: Path)
    requires Tree(was, root) && n != [] && IsDirAt(was, Parent(n)) && d in was && Room(was, files, d, n)
    requires was[d].isdir ==> !(d < n)
    ensures Apart(d, n) && IsDirAt(files, Parent(n)) && d in files && files[d] == was[d]
    ensures (forall q :: q in files ==> !(n < q)) && (n in files ==> !files[n].isdir)
  {
    forall q | q in was ensures !(n < q) {
      if n < q {
        NothingBelow(was, root, q, n);
      }
    }
    if d < n {
      if d != Parent(n) {
        BelowDirs(was, root, Parent(n), d);
      }
    }
  }

  lemma FreshTarget(was: Files, added: Files, root: MemFile, d: Path, n: Path)
    requires Tree(was, root) && d in was && Apart(d, n) && (forall q :: q in was ==> !(n < q)) && added == was[n := was[d]]
    ensures root !in added.Values && forall q :: q in added ==> !(n < q)
    ensures forall p :: p in was && d < p ==> p in Below(added, d)
  {
  }

  /** Nothing lies below a file that is not a directory. */
  lemma NoChildren(was: Files, added: Files, root: MemFile, d: Path, n: Path)
    requires Tree(was, root) && d in was && !was[d].isdir && Apart(d, n) && added == was[n := was[d]]
    ensures Below(added, d) == {} && Partly(added, {}, added, d, n)
  {
    forall p | p in added ensures !(d < p) {
      if d < p && p in was {
        BelowDirs(was, root, p, d);
      }
    }
  }

  lemma MovedNames(was: Files, files: Files, root: MemFile, d: Path, n: Path)
    requires Tree(was, root) && Moved(was, files, d, n) && Apart(d, n) && d in was
    ensures n in files && files[n] == was[d] && d !in files && was[d] != root
    ensures forall q :: q in files && q != n && files[q] == was[d] ==> !was[d].isdir
    ensures files.Values <= was.Values
  {
    assert Rebase(d, d, n) == n;
    forall q | q in files ensures files[q] in was.Values {
      MovedSource(was, files, d, n, q);
    }
    forall q | q in files && q != n && files[q] == was[d] ensures !was[d].isdir {
      MovedSource(was, files, d, n, q);
    }
  }

  /** The keys the walk has still to bring up: among them whatever is to be moved. */
  ghost predicate Waiting(before: Files, moved: set<Path>, pending: set<Path>, d: Path) {
    pending <= before.Keys && moved !! pending && Below(before, d) <= pending + moved
  }

  ghost predicate Beyond(extra: set<Path>, n: Path) {
    forall q :: q in extra ==> n < q
  }

  lemma OneBeyond(extra: set<Path>, n: Path, q: Path)
    requires Beyond(extra, n) && n < q
    ensures Beyond(extra + {q}, n)
  {
  }

  /** A key that comes up is to be moved exactly when it is below the directory, and then it was there before. */
  lemma StillWaiting(before: Files, moved: set<Path>, pending: set<Path>, d: Path, n: Path, extra: set<Path>, name: Path)
    requires Waiting(before, moved, pending, d) && Beyond(extra, n) && Apart(d, n) && name in pending + extra
    ensures Beyond(extra - {name}, n)
    ensures d < name ==> name in before && name in pending && name !in moved && Waiting(before, moved + {name}, pending - {name}, d)
    ensures !(d < name) ==> Waiting(before, moved, pending - {name}, d)
  {
  }

  lemma MovedAreBelow(before: Files, moved: set<Path>, files: Files, d: Path, n: Path)
    requires Partly(before, moved, files, d, n) && Below(before, d) <= moved
    ensures moved == Below(before, d)
  {
  }

  // ---- outside the limits ----

  /** The loop of `rename` bringing up these keys, one after the other; those not below the directory stay. */
  function MoveKeys(files: Files, keys: seq<Path>, d: Path, n: Path): Files
    decreases |keys|
  {
    if keys == [] then files
    else
      var p := keys[0];
      MoveKeys(if p in files && d < p then files[Rebase(p, d, n) := files[p]] - {p} else files, keys[1..], d, n)
  }

  /** What `rename` leaves of a directory's entries when the walk brings up these keys. */
  predicate Walked(was: Files, files: Files, d: Path, n: Path, keys: seq<Path>) {
    d in was && files == MoveKeys(was[n := was[d]], keys, d, n) - {d}
  }

  lemma {:induction false} SomethingBelow(files: Files, keys: seq<Path>, d: Path, n: Path, q: Path) returns (r: Path)
    requires d < n && q in files && d < q
    ensures r in MoveKeys(files, keys, d, n) && d < r
    decreases |keys|
  {
    if keys == [] {
      r := q;
    } else {
      var p := keys[0];
      if p in files && d < p {
        var p' := Rebase(p, d, n);
        assert d < p' && |p'| > |p|;
        r := SomethingBelow(files[p' := files[p]] - {p}, keys[1..], d, n, if q == p then p' else q);
      } else {
        r := SomethingBelow(files, keys[1..], d, n, q);
      }
    }
  }

  /**
   * The limit on the new path is exact: a directory renamed into its own subtree leaves no tree, whatever keys
   * the walk over the map brings up and however often, since the directory's old entry goes in the end.
   */
  lemma IntoItselfBreaks(files: Files, root: MemFile, d: Path, n: Path, keys: seq<Path>)
    requires d in files && d != [] && d < n
    ensures !Tree(MoveKeys(files[n := files[d]], keys, d, n) - {d}, root)
  {
    var after := MoveKeys(files[n := files[d]], keys, d, n) - {d};
    var r := SomethingBelow(files[n := files[d]], keys, d, n, n);
    if Tree(after, root) {
      BelowDirs(after, root, r, d);
    }
  }

  lemma {:induction false} MoveKeysNext(files: Files, keys: seq<Path>, p: Path, d: Path, n: Path)
    ensures
      var before := MoveKeys(files, keys, d, n);
      MoveKeys(files, keys + [p], d, n) ==
        if p in before && d < p then before[Rebase(p, d, n) := before[p]] - {p} else before
    decreases |keys|
  {
    if keys == [] {
      assert keys + [p] == [p];
      assert [p][1..] == [];
    } else {
      var k := keys[0];
      var next := if k in files && d < k then files[Rebase(k, d, n) := files[k]] - {k} else files;
      assert (keys + [p])[1..] == keys[1..] + [p];
      MoveKeysNext(next, keys[1..], p, d, n);
    }
  }

  lemma RebaseDeeper(p: Path, d: Path, n: Path)
    requires d < n && d < p
    ensures Rebase(p, d, n) != d && Rebase(p, d, n) != p
  {
    assert |Rebase(p, d, n)| > |p| > |d|;
  }

  lemma SameDir(files: Files, root: MemFile, p: Path, q: Path)
    requires Tree(files, root)
    ensures (SameFile(files, p, q) && files[p].isdir ==> p == q) && [] !in files
  {
  }

  /** Putting an entry where one was taken away. */
  lemma RoomAgain(was: Files, files: Files, d: Path, n: Path, f: MemFile)
    requires Room(was, files, d, n)
    ensures files[n := f] == was[n := f]
  {
  }

  lemma RootTwice(files: Files, root: MemFile, n: Path)
    requires n != []
    ensures !Tree(files[n := root], root)
  {
    assert n in files[n := root];
  }

  /** From an empty file system: after the root is renamed to "/a", making "/x" makes "/a/x". */
  method RenamedRootMisplaces(a: Data, x: Data) returns (fs: Root, moved: Result<Path>, made: Result<Path>)
    ensures moved == Ok([a]) && made == Ok([a, x]) && [a, x] in fs.files && (x != a ==> [x] !in fs.files)
  {
    fs := new Root();
    assert Parent([a]) == [] && IsDirAt(fs.files, []);
    fs.CanonFacts([a]);
    moved := fs.Rename([], [a]);
    ghost var none: Files := map[];
    fs.RootMovedBreaks(none, [a], x);
    assert [a] + [x] == [a, x] && [a, x] !in fs.files;
    made := fs.Mkdir([x]);
    assert [x] in fs.files ==> [x] == [a] || [x] == [a, x];
  }
}
