/**
 * The host filesystem as the packager sees it through `os`, `pathlib`, `glob`
 * and `shutil`.
 *
 * The filesystem is its namespace: a map from every path a directory walk can
 * reach to the node found there.  A path that runs through a symlinked
 * directory may be a key of its own, which is what Python's recursive glob
 * visits.  A symlink at the end of a path is followed (up to 40 links, Linux's
 * MAXSYMLINKS) by the calls that follow links; `..` is resolved lexically.
 */
module FileSystem {
  import opened Wrappers
  import opened Paths
  import Text

  /** Permission bits of a mode (`st_mode & 0o7777`). */
  type Mode = bv16

  /** What a symlink stores: `/`-rooted or not, and its components. */
  datatype LinkTarget = LinkTarget(absolute: bool, parts: seq<string>)

  datatype Node =
    | File(size: nat, mode: Mode, content: string)
    | Dir(size: nat, mode: Mode)
    | Symlink(target: LinkTarget)

  type FS = map<Path, Node>

  /** Linux's limit on the number of links followed in one lookup. */
  const MaxSymlinks: nat := 40
  /** 0o644: `open(p, "w")` on a new file, 0o666 under the usual umask 0o022. */
  const NewFileMode: Mode := 0x1A4
  /** 0o755: `os.makedirs` and `os.mkdir` under the usual umask 0o022. */
  const NewDirMode: Mode := 0x1ED
  /** 0o111: `stat.S_IXUSR | stat.S_IXGRP | stat.S_IXOTH`. */
  const ExecBits: Mode := 0x49
  /** 0o7777: the bits `os.chmod` applies. */
  const PermissionMask: Mode := 0xFFF
  /** What `os.path.getsize` reports for a directory the packager creates. */
  const NewDirSize: nat := 4096

  /** The key of the entry a path names: `..` resolved lexically. */
  function Key(p: seq<string>): Path {
    if Plain(p) then p else Resolve([], p)
  }

  /** Where a symlink found at `p` points. */
  function LinkDestination(p: Path, t: LinkTarget): Path {
    Resolve(if t.absolute then [] else Parent(p), t.parts)
  }

  /** The key reached from `p` by following symlinks at the final component. */
  function Follow(fs: FS, p: Path, fuel: nat): (r: Result<Path>)
    ensures r.Ok? ==> !(r.value in fs && fs[r.value].Symlink?)
    ensures !(p in fs && fs[p].Symlink?) ==> r == Ok(p)
    decreases fuel
  {
    if p in fs && fs[p].Symlink? then
      if fuel == 0 then Err(OSError(TooManyLinks, p))
      else Follow(fs, LinkDestination(p, fs[p].target), fuel - 1)
    else Ok(p)
  }

  /** `os.stat(p)`: the node after following a final symlink, if any. */
  function Stat(fs: FS, p: seq<string>): (r: Option<Node>)
    ensures r.Some? ==> !r.value.Symlink?
  {
    match Follow(fs, Key(p), MaxSymlinks)
    case Ok(q) => if q in fs then Some(fs[q]) else None
    case Err(_) => None
  }

  /** `os.lstat(p)`: the node itself; a symlink is not followed. */
  function Lstat(fs: FS, p: seq<string>): Option<Node> {
    if Key(p) in fs then Some(fs[Key(p)]) else None
  }

  /** `Path.exists()`. */
  predicate Exists(fs: FS, p: seq<string>) { Stat(fs, p).Some? }

  /** `Path.is_dir()`, following a final symlink. */
  predicate IsDir(fs: FS, p: seq<string>) { Stat(fs, p).Some? && Stat(fs, p).value.Dir? }

  /** `Path.is_file()`, following a final symlink. */
  predicate IsFile(fs: FS, p: seq<string>) { Stat(fs, p).Some? && Stat(fs, p).value.File? }

  /** `Path.is_symlink()` / `os.path.islink()`. */
  predicate IsSymlink(fs: FS, p: seq<string>) { Lstat(fs, p).Some? && Lstat(fs, p).value.Symlink? }

  /** `os.path.getsize(p)`. */
  function GetSize(fs: FS, p: seq<string>): Result<nat> {
    match Stat(fs, p)
    case None => Err(OSError(NotFound, p))
    case Some(n) => Ok(n.size)
  }

  /** `open(p).read()`: a final symlink is followed. */
  function ReadText(fs: FS, p: seq<string>): (r: Result<string>)
    ensures r.Ok? <==> IsFile(fs, p)
    ensures r.Ok? ==> r.value == Stat(fs, p).value.content
    ensures r.Err? && r.error.OSError? && r.error.reason == NotFound ==> !Exists(fs, p)
  {
    match Follow(fs, Key(p), MaxSymlinks)
    case Err(e) => Err(e)
    case Ok(q) =>
      if q !in fs then Err(OSError(NotFound, p))
      else if fs[q].Dir? then Err(OSError(IsADirectory, p))
      else Ok(fs[q].content)
  }

  /** Every entry is named by a plain path, as the entries of a real directory tree are. */
  predicate PlainKeys(fs: FS) {
    forall k :: k in fs ==> Plain(k)
  }

  /** Every entry is named by a resolved path, as every key `Key` and `Follow` produce is. */
  predicate ResolvedKeys(fs: FS) {
    forall k :: k in fs ==> Resolved(k)
  }

  /** `Key` gives a resolved path, and leaves a resolved path as it is. */
  lemma KeyResolved(p: seq<string>)
    ensures Resolved(Key(p))
    ensures Resolved(p) ==> Key(p) == p
  {
    ResolveStaysResolved([], p);
    if Resolved(p) {
      ResolvePlainPath(p);
    }
  }

  /** Following links from a resolved path ends at a resolved path. */
  lemma {:induction false} FollowResolved(fs: FS, p: Path, fuel: nat)
    requires Resolved(p) && Follow(fs, p, fuel).Ok?
    ensures Resolved(Follow(fs, p, fuel).value)
    decreases fuel
  {
    if p in fs && fs[p].Symlink? {
      var t := fs[p].target;
      assert Resolved(Parent(p)) by {
        assert forall i :: 0 <= i < |Parent(p)| ==> Parent(p)[i] == p[i];
      }
      ResolveStaysResolved(if t.absolute then [] else Parent(p), t.parts);
      FollowResolved(fs, LinkDestination(p, t), fuel - 1);
    }
  }

  // ---------------------------------------------------------------------------
  // Globs.  A glob returns the paths it finds spelled with the directory it was
  // given, followed by the entry's components below that directory.

  /** No component starts with `.`: what `**` and `*` visit without `include_hidden`. */
  predicate NoHidden(rel: seq<string>) {
    forall i :: 0 <= i < |rel| ==> !Text.StartsWith(rel[i], ".")
  }

  /** The paths found directly in directory `dir`. */
  function Children(fs: FS, dir: seq<string>): (r: set<seq<string>>)
    ensures forall p :: p in r ==> |p| == |dir| + 1 && p[..|dir|] == dir
  {
    var d := Key(dir);
    if !IsDir(fs, dir) then {}
    else set k | k in fs && |k| == |d| + 1 && k[..|d|] == d :: dir + [k[|d|]]
  }

  /** The paths found at any depth strictly below directory `dir`. */
  function Below(fs: FS, dir: seq<string>, includeHidden: bool): (r: set<seq<string>>)
    ensures forall p :: p in r ==> |p| > |dir| && p[..|dir|] == dir
  {
    var d := Key(dir);
    if !IsDir(fs, dir) then {}
    else set k | k in fs && IsStrictlyBelow(d, k) && (includeHidden || NoHidden(k[|d|..])) :: dir + k[|d|..]
  }

  /** Recursive glob of `**` in `dir`: `dir` itself and everything below it. */
  function Tree(fs: FS, dir: seq<string>, includeHidden: bool): (r: set<seq<string>>)
    ensures forall p :: p in r ==> IsPrefix(dir, p)
  {
    if IsDir(fs, dir) then {dir} + Below(fs, dir, includeHidden) else {}
  }

  // ---------------------------------------------------------------------------
  // Operations that change the filesystem.  Each gives the new namespace or the
  // error the call raises; a failed call changes nothing.

  /** `Path.unlink(missing_ok)`: removes a non-directory entry; a symlink itself, not its target. */
  function AfterUnlink(fs: FS, p: seq<string>, missingOk: bool): (r: Result<FS>)
    ensures r.Ok? ==> r.value == fs - {Key(p)}
    ensures r.Ok? <==> (Key(p) !in fs && missingOk) || (Key(p) in fs && !fs[Key(p)].Dir?)
  {
    var k := Key(p);
    if k !in fs then (if missingOk then Ok(fs) else Err(OSError(NotFound, p)))
    else if fs[k].Dir? then Err(OSError(IsADirectory, p))
    else Ok(fs - {k})
  }

  /** `os.symlink(target, p)`: `p` must not exist, its directory must. */
  function AfterSymlink(fs: FS, target: LinkTarget, p: seq<string>): (r: Result<FS>)
    ensures r.Ok? <==> Key(p) !in fs && IsDir(fs, Parent(Key(p)))
    ensures r.Ok? ==> r.value == fs[Key(p) := Symlink(target)]
  {
    var k := Key(p);
    if k in fs then Err(OSError(AlreadyExists, p))
    else if !IsDir(fs, Parent(k)) then Err(OSError(NotFound, p))
    else Ok(fs[k := Symlink(target)])
  }

  /** `os.mkdir(p)`. */
  function AfterMkdir(fs: FS, p: seq<string>): (r: Result<FS>)
    ensures r.Ok? <==> Key(p) !in fs && IsDir(fs, Parent(Key(p)))
    ensures r.Ok? ==> r.value == fs[Key(p) := Dir(NewDirSize, NewDirMode)]
  {
    var k := Key(p);
    if k in fs then Err(OSError(AlreadyExists, p))
    else if !IsDir(fs, Parent(k)) then Err(OSError(NotFound, p))
    else Ok(fs[k := Dir(NewDirSize, NewDirMode)])
  }

  /**
   * `os.makedirs(p, exist_ok=True)`: creates a missing parent first (a parent
   * that appears meanwhile is not an error), then `p`; an existing directory
   * at `p` is fine.
   */
  function AfterMakeDirs(fs: FS, p: seq<string>): (r: Result<FS>)
    ensures r.Ok? ==> IsDir(r.value, p)
    decreases |p|, 1
  {
    match MakeParent(fs, p)
    case Err(e) => Err(e)
    case Ok(f) =>
      match AfterMkdir(f, p)
      case Ok(g) => Ok(g)
      case Err(e) => if IsDir(f, p) then Ok(f) else Err(e)
  }

  /** The first half of `os.makedirs`: the missing parent. */
  function MakeParent(fs: FS, p: seq<string>): Result<FS>
    decreases |p|, 0
  {
    if |p| > 0 && !Exists(fs, Parent(p)) then
      match AfterMakeDirs(fs, Parent(p))
      case Ok(f) => Ok(f)
      case Err(e) => if e.OSError? && e.reason == AlreadyExists then Ok(fs) else Err(e)
    else Ok(fs)
  }

  /** `open(p, "w").write(text)`: a final symlink is followed; a new file gets mode 0o644. */
  function AfterWriteText(fs: FS, p: seq<string>, text: string): (r: Result<FS>)
  {
    match Follow(fs, Key(p), MaxSymlinks)
    case Err(e) => Err(e)
    case Ok(q) =>
      if q in fs then
        if fs[q].Dir? then Err(OSError(IsADirectory, p))
        else Ok(fs[q := File(|text|, fs[q].mode, text)])
      else if !IsDir(fs, Parent(q)) then Err(OSError(NotFound, p))
      else Ok(fs[q := File(|text|, NewFileMode, text)])
  }

  /** `os.stat(p).st_mode`, permission bits. */
  function ModeOf(fs: FS, p: seq<string>): Result<Mode> {
    match Stat(fs, p)
    case None => Err(OSError(NotFound, p))
    case Some(n) => Ok(if n.File? then n.mode else n.mode)
  }

  /** `os.chmod(p, mode)`: a final symlink is followed. */
  function AfterChmod(fs: FS, p: seq<string>, mode: Mode): (r: Result<FS>)
  {
    match Follow(fs, Key(p), MaxSymlinks)
    case Err(e) => Err(e)
    case Ok(q) =>
      if q !in fs then Err(OSError(NotFound, p))
      else match fs[q]
        case File(size, _, content) => Ok(fs[q := File(size, mode & PermissionMask, content)])
        case Dir(size, _) => Ok(fs[q := Dir(size, mode & PermissionMask)])
        case Symlink(_) => Err(OSError(TooManyLinks, p))
  }

  /** `shutil.rmtree(p)`: removes a directory and everything below it; refuses a symlink. */
  function AfterRmTree(fs: FS, p: seq<string>): (r: Result<FS>)
    ensures r.Ok? ==> forall k :: k in r.value <==> k in fs && !IsPrefix(Key(p), k)
    ensures r.Ok? ==> forall k :: k in r.value ==> r.value[k] == fs[k]
  {
    var k := Key(p);
    if k !in fs then Err(OSError(NotFound, p))
    else if fs[k].Symlink? then Err(OSError(SymlinkRoot, p))
    else if fs[k].File? then Err(OSError(NotADirectory, p))
    else Ok(map q | q in fs && !IsPrefix(k, q) :: fs[q])
  }

  /** The copy of `src`'s subtree placed at `dst`, laid over `base`. */
  function Transplant(fs: FS, base: FS, src: Path, dst: Path, top: Node): (r: FS)
    ensures dst in r && r[dst] == top
    ensures forall q :: IsStrictlyBelow(src, q) && q in fs ==> dst + q[|src|..] in r && r[dst + q[|src|..]] == fs[q]
    ensures forall q :: q in base ==> q in r
    ensures forall q :: q in r && !IsPrefix(dst, q) ==> q in base && r[q] == base[q]
  {
    (base + Moved(fs, src, dst))[dst := top]
  }

  /** The entries strictly below `src`, each moved to the same place below `dst`. */
  function Moved(fs: FS, src: Path, dst: Path): (r: FS)
    ensures forall q :: IsStrictlyBelow(src, q) && q in fs ==> dst + q[|src|..] in r && r[dst + q[|src|..]] == fs[q]
    ensures forall q :: q in r ==> IsStrictlyBelow(dst, q)
  {
    assert forall a, b :: IsStrictlyBelow(src, a) && IsStrictlyBelow(src, b) && dst + a[|src|..] == dst + b[|src|..] ==> a == b by {
      forall a, b | IsStrictlyBelow(src, a) && IsStrictlyBelow(src, b) && dst + a[|src|..] == dst + b[|src|..] ensures a == b {
        ShiftInjective(src, dst, a, b);
      }
    }
    map q | q in fs && IsStrictlyBelow(src, q) :: dst + q[|src|..] := fs[q]
  }

  /** Moving below `dst` keeps distinct paths below `src` distinct. */
  lemma ShiftInjective(src: Path, dst: Path, a: Path, b: Path)
    requires IsStrictlyBelow(src, a) && IsStrictlyBelow(src, b) && dst + a[|src|..] == dst + b[|src|..]
    ensures a == b
  {
    assert a[|src|..] == (dst + a[|src|..])[|dst|..];
    assert b[|src|..] == (dst + b[|src|..])[|dst|..];
    assert a == src + a[|src|..] && b == src + b[|src|..];
  }

  /**
   * `shutil.copytree(src, dst, symlinks=True, dirs_exist_ok=True)`: `dst` is
   * created with `os.makedirs`, then every entry below `src` is copied as it
   * is, symlinks as symlinks (dangling ones too), files with content and mode.
   */
  function AfterCopyTree(fs: FS, src: seq<string>, dst: seq<string>): (r: Result<FS>)
    ensures r.Ok? <==> IsDir(fs, src) && AfterMakeDirs(fs, dst).Ok?
    ensures r.Ok? ==> Key(dst) in r.value && r.value[Key(dst)] == Stat(fs, src).value
    ensures r.Ok? ==> forall q :: IsStrictlyBelow(Key(src), q) && q in fs ==>
      Key(dst) + q[|Key(src)|..] in r.value && r.value[Key(dst) + q[|Key(src)|..]] == fs[q]
    ensures r.Ok? ==> forall q :: q in fs ==> q in r.value
    ensures r.Ok? ==> forall q :: q in r.value && !IsPrefix(Key(dst), q) ==>
      if q in fs then r.value[q] == fs[q] else r.value[q] == Dir(NewDirSize, NewDirMode) && OnPath(dst, q)
  {
    match Stat(fs, src)
    case None => Err(OSError(NotFound, src))
    case Some(top) =>
      if !top.Dir? then Err(OSError(NotADirectory, src))
      else
        match AfterMakeDirs(fs, dst)
        case Err(e) => Err(e)
        case Ok(f) =>
          MakeDirsFrame(fs, dst);
          Ok(Transplant(fs, f, Key(src), Key(dst), top))
  }

  /** Where `shutil.copy` and `shutil.move` put `src`: `dst/<name of src>` when `dst` is a directory, `dst` otherwise. */
  function Destination(fs: FS, src: seq<string>, dst: seq<string>): seq<string> {
    if IsDir(fs, dst) then dst + [Name(Key(src))] else dst
  }

  /** A node that is not a directory can be stored at `q`: no directory is there, and a new `q`'s directory exists. */
  predicate CanStore(fs: FS, q: Path) {
    (q in fs ==> !fs[q].Dir?) && (q !in fs ==> IsDir(fs, Parent(q)))
  }

  /** `after` is `before` with `q` holding `n`: every other entry is as it was, and none is added or removed. */
  ghost predicate StoredAt(before: FS, after: FS, q: Path, n: Node) {
    q in after && after[q] == n &&
    forall k :: k != q ==> (k in after <==> k in before) && (k in before ==> after[k] == before[k])
  }

  /** `os.path.samefile(a, b)`: both exist and lead to the same entry. */
  predicate SameFile(fs: FS, a: seq<string>, b: seq<string>) {
    Exists(fs, a) && Exists(fs, b) && Follow(fs, Key(a), MaxSymlinks) == Follow(fs, Key(b), MaxSymlinks)
  }

  /**
   * `shutil.copy(src, dst)`: into `dst/<name of src>` when `dst` is a directory;
   * the destination gets the content and the permission bits of `src`.
   * SameFileError comes first, when the source and the destination are one file.
   */
  function AfterCopyFile(fs: FS, src: seq<string>, dst: seq<string>): (r: Result<FS>)
    ensures SameFile(fs, src, Destination(fs, src, dst)) ==> r == Err(SameFileError(Destination(fs, src, dst)))
    ensures r.Ok? <==>
      !SameFile(fs, src, Destination(fs, src, dst)) &&
      IsFile(fs, src) && Follow(fs, Key(Destination(fs, src, dst)), MaxSymlinks).Ok? &&
      CanStore(fs, Follow(fs, Key(Destination(fs, src, dst)), MaxSymlinks).value)
    ensures r.Ok? ==> StoredAt(fs, r.value, Follow(fs, Key(Destination(fs, src, dst)), MaxSymlinks).value, Stat(fs, src).value)
  {
    var target := Destination(fs, src, dst);
    if SameFile(fs, src, target) then Err(SameFileError(target))
    else match Stat(fs, src)
    case None => Err(OSError(NotFound, src))
    case Some(n) =>
      if !n.File? then Err(OSError(IsADirectory, src))
      else
        match Follow(fs, Key(target), MaxSymlinks)
        case Err(e) => Err(e)
        case Ok(q) =>
          if q in fs && fs[q].Dir? then Err(OSError(IsADirectory, target))
          else if q !in fs && !IsDir(fs, Parent(q)) then Err(OSError(NotFound, target))
          else Ok(fs[q := n])
  }

  /**
   * `shutil.move(src, dst)` of a file: into `dst` when it is a directory, else
   * renamed over it; the entry itself moves, a symlink is not followed.  When
   * `dst` is a directory in which `<name of src>` already exists, shutil.Error
   * is raised before anything is renamed.
   */
  function AfterMove(fs: FS, src: seq<string>, dst: seq<string>): (r: Result<FS>)
    ensures IsDir(fs, dst) && Exists(fs, Destination(fs, src, dst)) ==> r == Err(ShutilError(Destination(fs, src, dst)))
    ensures r.Ok? <==>
      !(IsDir(fs, dst) && Exists(fs, Destination(fs, src, dst))) &&
      Key(src) in fs && (Key(Destination(fs, src, dst)) in fs ==> !fs[Key(Destination(fs, src, dst))].Dir?) &&
      IsDir(fs, Parent(Key(Destination(fs, src, dst))))
    ensures r.Ok? ==> Key(Destination(fs, src, dst)) in r.value && r.value[Key(Destination(fs, src, dst))] == fs[Key(src)]
    ensures r.Ok? && Key(Destination(fs, src, dst)) != Key(src) ==> Key(src) !in r.value
    ensures r.Ok? ==> forall k :: k != Key(src) && k != Key(Destination(fs, src, dst)) ==>
      (k in r.value <==> k in fs) && (k in fs ==> r.value[k] == fs[k])
  {
    var s := Key(src);
    var placed := Destination(fs, src, dst);
    var target := Key(placed);
    if IsDir(fs, dst) && Exists(fs, placed) then Err(ShutilError(placed))
    else if s !in fs then Err(OSError(NotFound, src))
    else if target in fs && fs[target].Dir? then Err(OSError(IsADirectory, dst))
    else if !IsDir(fs, Parent(target)) then Err(OSError(NotFound, dst))
    else Ok((fs - {s})[target := fs[s]])
  }

  /** The state after a sequence of calls, and how the sequence ended. */
  datatype Run = Run(fs: FS, outcome: Outcome)

  /** One call: on success the state is its result, on failure it is unchanged. */
  function Atomic(fs: FS, step: Result<FS>): (r: Run)
    ensures step.Ok? ==> r == Run(step.value, Pass)
    ensures step.Err? ==> r == Run(fs, Fail(step.error))
  {
    match step
    case Ok(f) => Run(f, Pass)
    case Err(e) => Run(fs, Fail(e))
  }

  /** `p` names the same entry as one of the leading parts of `path`. */
  predicate OnPath(path: seq<string>, k: Path) {
    exists i :: 0 <= i <= |path| && k == Key(path[..i])
  }

  /** `after` keeps every entry of `before` and adds only new directories along `path`. */
  predicate Grows(before: FS, after: FS, path: seq<string>) {
    (forall k :: k in before ==> k in after && after[k] == before[k]) &&
    (forall k :: k in after && k !in before ==> after[k] == Dir(NewDirSize, NewDirMode) && OnPath(path, k))
  }

  lemma GrowsAlongParent(before: FS, after: FS, p: seq<string>)
    requires Grows(before, after, Parent(p))
    ensures Grows(before, after, p)
  {
    forall k | k in after && k !in before ensures OnPath(p, k) {
      var i :| 0 <= i <= |Parent(p)| && k == Key(Parent(p)[..i]);
      assert Parent(p)[..i] == p[..i];
    }
  }

  /** `os.makedirs` keeps every entry and adds only directories along the path. */
  lemma {:induction false} MakeDirsFrame(fs: FS, p: seq<string>)
    requires AfterMakeDirs(fs, p).Ok?
    ensures Grows(fs, AfterMakeDirs(fs, p).value, p)
    decreases |p|, 1
  {
    MakeParentFrame(fs, p);
    var f := MakeParent(fs, p).value;
    GrowsAlongParent(fs, f, p);
    if AfterMkdir(f, p).Ok? {
      var m := AfterMkdir(f, p).value;
      assert p[..|p|] == p;
      assert OnPath(p, Key(p));
      assert m == f[Key(p) := Dir(NewDirSize, NewDirMode)];
    }
  }

  lemma {:induction false} MakeParentFrame(fs: FS, p: seq<string>)
    requires MakeParent(fs, p).Ok?
    ensures Grows(fs, MakeParent(fs, p).value, Parent(p))
    decreases |p|, 0
  {
    if |p| > 0 && !Exists(fs, Parent(p)) && AfterMakeDirs(fs, Parent(p)).Ok? {
      MakeDirsFrame(fs, Parent(p));
    }
  }

  /** Growing along a path adds only resolved keys. */
  lemma GrowsResolved(before: FS, after: FS, path: seq<string>)
    requires ResolvedKeys(before) && Grows(before, after, path)
    ensures ResolvedKeys(after)
  {
    forall k | k in after ensures Resolved(k) {
      if k !in before {
        var i :| 0 <= i <= |path| && k == Key(path[..i]);
        KeyResolved(path[..i]);
      }
    }
  }

  /** Following links in a larger namespace that agrees on every entry of `fs` ends where it ended in `fs`. */
  lemma {:induction false} FollowGrows(fs: FS, g: FS, p: Path, fuel: nat)
    requires forall k :: k in fs ==> k in g && g[k] == fs[k]
    requires Follow(fs, p, fuel).Ok? && Follow(fs, p, fuel).value in fs
    ensures Follow(g, p, fuel) == Follow(fs, p, fuel)
    decreases fuel
  {
    if p in fs && fs[p].Symlink? {
      FollowGrows(fs, g, LinkDestination(p, fs[p].target), fuel - 1);
    }
  }

  /** Following links is unaffected by storing a non-link at the entry it reaches. */
  lemma {:induction false} FollowAfterStore(fs: FS, p: Path, fuel: nat, node: Node)
    requires Follow(fs, p, fuel).Ok? && !node.Symlink?
    ensures Follow(fs[Follow(fs, p, fuel).value := node], p, fuel) == Follow(fs, p, fuel)
    decreases fuel
  {
    var q := Follow(fs, p, fuel).value;
    if p in fs && fs[p].Symlink? {
      assert p != q;
      FollowAfterStore(fs, LinkDestination(p, fs[p].target), fuel - 1, node);
    }
  }

  /**
   * A write stores the text at the entry the path leads to, keeping its mode
   * (0o644 for a new file), changes nothing else, and reads back as written.
   */
  lemma WriteReadsBack(fs: FS, p: seq<string>, text: string)
    requires AfterWriteText(fs, p, text).Ok?
    ensures Follow(fs, Key(p), MaxSymlinks).Ok?
    ensures var q := Follow(fs, Key(p), MaxSymlinks).value;
      StoredAt(fs, AfterWriteText(fs, p, text).value, q, File(|text|, if q in fs then fs[q].mode else NewFileMode, text))
    ensures ReadText(AfterWriteText(fs, p, text).value, p) == Ok(text)
  {
    var q := Follow(fs, Key(p), MaxSymlinks).value;
    var written := File(|text|, if q in fs then fs[q].mode else NewFileMode, text);
    assert AfterWriteText(fs, p, text).value == fs[q := written];
    FollowAfterStore(fs, Key(p), MaxSymlinks, written);
  }

  /** `g` agrees with `fs` everywhere except strictly below `d`, and neither has a symlink there. */
  ghost predicate AgreeAbove(fs: FS, g: FS, d: Path) {
    (forall k :: !IsStrictlyBelow(d, k) ==> (k in g <==> k in fs) && (k in fs ==> g[k] == fs[k])) &&
    (forall k :: k in fs && IsStrictlyBelow(d, k) ==> !fs[k].Symlink?) &&
    (forall k :: k in g && IsStrictlyBelow(d, k) ==> !g[k].Symlink?)
  }

  /**
   * Following links from `p` in a namespace that differs from `fs` only below
   * `d`, where neither holds a link, ends where it ended in `fs` when that end
   * is not below `d`.
   */
  lemma {:induction false} FollowAbove(fs: FS, g: FS, d: Path, p: Path, fuel: nat)
    requires AgreeAbove(fs, g, d)
    requires Follow(fs, p, fuel).Ok? ==> !IsStrictlyBelow(d, Follow(fs, p, fuel).value)
    ensures Follow(g, p, fuel) == Follow(fs, p, fuel)
    decreases fuel
  {
    if p in fs && fs[p].Symlink? {
      assert !IsStrictlyBelow(d, p);
      if fuel > 0 {
        FollowAbove(fs, g, d, LinkDestination(p, fs[p].target), fuel - 1);
      }
    } else {
      assert !IsStrictlyBelow(d, p);
    }
  }

  /** `os.stat` of a plain path agrees as well. */
  lemma StatAbove(fs: FS, g: FS, d: Path, p: Path)
    requires AgreeAbove(fs, g, d) && Plain(p)
    requires Follow(fs, p, MaxSymlinks).Ok? ==> !IsStrictlyBelow(d, Follow(fs, p, MaxSymlinks).value)
    ensures Follow(g, p, MaxSymlinks) == Follow(fs, p, MaxSymlinks)
    ensures Stat(g, p) == Stat(fs, p)
  {
    FollowAbove(fs, g, d, p, MaxSymlinks);
  }

  /** The host's filesystem, changed in place by the packager. */
  class Host {
    var nodes: FS

    constructor (initial: FS)
      ensures nodes == initial
    {
      nodes := initial;
    }

    method Unlink(p: seq<string>, missingOk: bool) returns (r: Outcome)
      modifies this
      ensures Run(nodes, r) == Atomic(old(nodes), AfterUnlink(old(nodes), p, missingOk))
    {
      r := Update(AfterUnlink(nodes, p, missingOk));
    }

    method Symlink(target: LinkTarget, p: seq<string>) returns (r: Outcome)
      modifies this
      ensures Run(nodes, r) == Atomic(old(nodes), AfterSymlink(old(nodes), target, p))
    {
      r := Update(AfterSymlink(nodes, target, p));
    }

    method MakeDirs(p: seq<string>) returns (r: Outcome)
      modifies this
      ensures Run(nodes, r) == Atomic(old(nodes), AfterMakeDirs(old(nodes), p))
    {
      r := Update(AfterMakeDirs(nodes, p));
    }

    method WriteText(p: seq<string>, text: string) returns (r: Outcome)
      modifies this
      ensures Run(nodes, r) == Atomic(old(nodes), AfterWriteText(old(nodes), p, text))
    {
      r := Update(AfterWriteText(nodes, p, text));
    }

    method Chmod(p: seq<string>, mode: Mode) returns (r: Outcome)
      modifies this
      ensures Run(nodes, r) == Atomic(old(nodes), AfterChmod(old(nodes), p, mode))
    {
      r := Update(AfterChmod(nodes, p, mode));
    }

    method RmTree(p: seq<string>) returns (r: Outcome)
      modifies this
      ensures Run(nodes, r) == Atomic(old(nodes), AfterRmTree(old(nodes), p))
    {
      r := Update(AfterRmTree(nodes, p));
    }

    method CopyTree(src: seq<string>, dst: seq<string>) returns (r: Outcome)
      modifies this
      ensures Run(nodes, r) == Atomic(old(nodes), AfterCopyTree(old(nodes), src, dst))
    {
      r := Update(AfterCopyTree(nodes, src, dst));
    }

    method CopyFile(src: seq<string>, dst: seq<string>) returns (r: Outcome)
      modifies this
      ensures Run(nodes, r) == Atomic(old(nodes), AfterCopyFile(old(nodes), src, dst))
    {
      r := Update(AfterCopyFile(nodes, src, dst));
    }

    method Move(src: seq<string>, dst: seq<string>) returns (r: Outcome)
      modifies this
      ensures Run(nodes, r) == Atomic(old(nodes), AfterMove(old(nodes), src, dst))
    {
      r := Update(AfterMove(nodes, src, dst));
    }

    /** Commits the result of one call. */
    method Update(step: Result<FS>) returns (r: Outcome)
      modifies this
      ensures Run(nodes, r) == Atomic(old(nodes), step)
    {
      match step
      case Ok(f) => nodes := f; r := Pass;
      case Err(e) => r := Fail(e);
    }
  }
}
