/**
 * The RPM packager: the file list of the `.spec` file, the version fix-up,
 * the scriptlets, the search for the built package and the order of the
 * steps of `create_package`.
 */
module Rpm {
  import opened Wrappers
  import opened Paths
  import opened FileSystem
  import opened AppDirs
  import opened Packaging
  import Text
  import Meta
  import Sorting

  /** `RpmMetaInfo.packager_prefix()`: variables `LDNP_META_RPM_*` are RPM-specific. */
  const MetaPrefix: string := "RPM"

  /** `make_meta_info()`: the metadata read from the environment with the RPM prefix. */
  method MakeMetaInfo(environ: Meta.Environment) returns (m: Meta.MetaInfo)
    ensures fresh(m) && m.data == Meta.Populate(MetaPrefix, environ)
  {
    m := new Meta.MetaInfo(MetaPrefix, environ);
  }

  // ---------------------------------------------------------------------------
  // The ancestor test.

  /** The entry `root / rel[..m]` is a directory that is not a symlink. */
  predicate PlainDirAt(fs: FS, root: seq<string>, rel: seq<string>, m: nat)
    requires m <= |rel|
  {
    IsDir(fs, root + rel[..m]) && !IsSymlink(fs, root + rel[..m])
  }

  /**
   * The loop of `is_any_parent_dir_a_symlink` from prefix length `i` on: each
   * proper prefix, shortest first, must be a directory (AssertionError
   * otherwise); the first symlink among them gives true.
   */
  function AncestorScan(fs: FS, root: seq<string>, rel: seq<string>, i: nat): Result<bool>
    decreases |rel| - i
  {
    if i >= |rel| then Ok(false)
    else if !IsDir(fs, root + rel[..i]) then Err(AssertionError)
    else if IsSymlink(fs, root + rel[..i]) then Ok(true)
    else AncestorScan(fs, root, rel, i + 1)
  }

  /**
   * What the scan finds: false exactly when every proper prefix from `i` on
   * is a plain directory; true at a symlinked directory preceded only by
   * plain ones; AssertionError at a non-directory preceded only by plain ones.
   */
  lemma AncestorScanSpec(fs: FS, root: seq<string>, rel: seq<string>, i: nat)
    ensures AncestorScan(fs, root, rel, i) == Ok(false) <==>
      forall m :: i <= m < |rel| ==> PlainDirAt(fs, root, rel, m)
    ensures AncestorScan(fs, root, rel, i) == Ok(true) ==>
      exists j :: i <= j < |rel| && IsDir(fs, root + rel[..j]) && IsSymlink(fs, root + rel[..j]) &&
        forall m :: i <= m < j ==> PlainDirAt(fs, root, rel, m)
    ensures AncestorScan(fs, root, rel, i).Err? ==>
      AncestorScan(fs, root, rel, i).error == AssertionError &&
      exists j :: i <= j < |rel| && !IsDir(fs, root + rel[..j]) &&
        forall m :: i <= m < j ==> PlainDirAt(fs, root, rel, m)
  {
    ScanFalse(fs, root, rel, i);
    ScanTrue(fs, root, rel, i);
    ScanError(fs, root, rel, i);
  }

  lemma ScanFalse(fs: FS, root: seq<string>, rel: seq<string>, i: nat)
    ensures AncestorScan(fs, root, rel, i) == Ok(false) <==>
      forall m :: i <= m < |rel| ==> PlainDirAt(fs, root, rel, m)
  {
    if forall m :: i <= m < |rel| ==> PlainDirAt(fs, root, rel, m) {
      ScanFalseFromPlain(fs, root, rel, i);
    }
    ScanFalseToPlain(fs, root, rel, i);
  }

  lemma {:induction false} ScanFalseFromPlain(fs: FS, root: seq<string>, rel: seq<string>, i: nat)
    requires forall m :: i <= m < |rel| ==> PlainDirAt(fs, root, rel, m)
    ensures AncestorScan(fs, root, rel, i) == Ok(false)
    decreases |rel| - i
  {
    if i < |rel| {
      assert PlainDirAt(fs, root, rel, i);
      ScanFalseFromPlain(fs, root, rel, i + 1);
    }
  }

  lemma {:induction false} ScanFalseToPlain(fs: FS, root: seq<string>, rel: seq<string>, i: nat)
    ensures AncestorScan(fs, root, rel, i) == Ok(false) ==>
      forall m :: i <= m < |rel| ==> PlainDirAt(fs, root, rel, m)
    decreases |rel| - i
  {
    if AncestorScan(fs, root, rel, i) == Ok(false) {
      forall m | i <= m < |rel| ensures PlainDirAt(fs, root, rel, m) {
        ScanFalseAt(fs, root, rel, i, m);
      }
    }
  }

  lemma {:induction false} ScanFalseAt(fs: FS, root: seq<string>, rel: seq<string>, i: nat, m: nat)
    requires i <= m < |rel| && AncestorScan(fs, root, rel, i) == Ok(false)
    ensures PlainDirAt(fs, root, rel, m)
    decreases m - i
  {
    ScanFalseStep(fs, root, rel, i);
    if m > i {
      ScanFalseAt(fs, root, rel, i + 1, m);
    }
  }

  /** A scan that finds nothing passed a plain directory at `i` and finds nothing from `i + 1` on. */
  lemma ScanFalseStep(fs: FS, root: seq<string>, rel: seq<string>, i: nat)
    requires i < |rel| && AncestorScan(fs, root, rel, i) == Ok(false)
    ensures PlainDirAt(fs, root, rel, i) && AncestorScan(fs, root, rel, i + 1) == Ok(false)
  {
  }

  lemma {:induction false} ScanTrue(fs: FS, root: seq<string>, rel: seq<string>, i: nat)
    ensures AncestorScan(fs, root, rel, i) == Ok(true) ==>
      exists j :: i <= j < |rel| && IsDir(fs, root + rel[..j]) && IsSymlink(fs, root + rel[..j]) &&
        forall m :: i <= m < j ==> PlainDirAt(fs, root, rel, m)
    decreases |rel| - i
  {
    if i < |rel| && AncestorScan(fs, root, rel, i) == Ok(true) {
      if PlainDirAt(fs, root, rel, i) {
        ScanTrue(fs, root, rel, i + 1);
        var j :| i + 1 <= j < |rel| && IsDir(fs, root + rel[..j]) && IsSymlink(fs, root + rel[..j]) &&
          forall m :: i + 1 <= m < j ==> PlainDirAt(fs, root, rel, m);
        assert forall m :: i <= m < j ==> PlainDirAt(fs, root, rel, m);
      } else {
        assert IsDir(fs, root + rel[..i]) && IsSymlink(fs, root + rel[..i]);
      }
    }
  }

  lemma {:induction false} ScanError(fs: FS, root: seq<string>, rel: seq<string>, i: nat)
    ensures AncestorScan(fs, root, rel, i).Err? ==>
      AncestorScan(fs, root, rel, i).error == AssertionError &&
      exists j :: i <= j < |rel| && !IsDir(fs, root + rel[..j]) &&
        forall m :: i <= m < j ==> PlainDirAt(fs, root, rel, m)
    decreases |rel| - i
  {
    if i < |rel| && AncestorScan(fs, root, rel, i).Err? {
      if PlainDirAt(fs, root, rel, i) {
        ScanError(fs, root, rel, i + 1);
        var j :| i + 1 <= j < |rel| && !IsDir(fs, root + rel[..j]) &&
          forall m :: i + 1 <= m < j ==> PlainDirAt(fs, root, rel, m);
        assert forall m :: i <= m < j ==> PlainDirAt(fs, root, rel, m);
      } else {
        assert !IsDir(fs, root + rel[..i]);
      }
    }
  }

  /**
   * `is_any_parent_dir_a_symlink(root, rel)` as written: an entry that is (or
   * leads to) a directory must be a symlink and gives false at once, without
   * its ancestors being looked at; any other entry gets the ancestor scan.
   */
  function AnyParentDirIsSymlink(fs: FS, root: seq<string>, rel: seq<string>): (r: Result<bool>)
    ensures IsDir(fs, root + rel) ==> r == (if IsSymlink(fs, root + rel) then Ok(false) else Err(AssertionError))
    ensures !IsDir(fs, root + rel) ==> r == AncestorScan(fs, root, rel, 1)
  {
    if IsDir(fs, root + rel) then
      if IsSymlink(fs, root + rel) then Ok(false) else Err(AssertionError)
    else AncestorScan(fs, root, rel, 1)
  }

  /** The scan as the source runs it: a loop over the prefix lengths with an early return. */
  method ScanAncestors(fs: FS, root: seq<string>, rel: seq<string>) returns (r: Result<bool>)
    ensures r == AncestorScan(fs, root, rel, 1)
  {
    var i := 1;
    while i < |rel|
      invariant 1 <= i
      invariant AncestorScan(fs, root, rel, 1) == AncestorScan(fs, root, rel, i)
      decreases |rel| - i
    {
      var part := root + rel[..i];
      if !IsDir(fs, part) {
        return Err(AssertionError);
      }
      if IsSymlink(fs, part) {
        return Ok(true);
      }
      i := i + 1;
    }
    return Ok(false);
  }

  /** `is_any_parent_dir_a_symlink`, as written. */
  method IsAnyParentDirASymlink(fs: FS, root: seq<string>, rel: seq<string>) returns (r: Result<bool>)
    ensures r == AnyParentDirIsSymlink(fs, root, rel)
  {
    var full := root + rel;
    if IsDir(fs, full) {
      if !IsSymlink(fs, full) {
        return Err(AssertionError);
      }
      return Ok(false);
    }
    r := ScanAncestors(fs, root, rel);
  }

  /**
   * The ancestor test as the file list needs it: a plain directory is refused
   * as before, and every other entry, a symlinked directory included, gets
   * the ancestor scan.
   */
  function LinkedAncestor(fs: FS, root: seq<string>, rel: seq<string>): (r: Result<bool>)
    ensures IsDir(fs, root + rel) && !IsSymlink(fs, root + rel) ==> r == Err(AssertionError)
    ensures !(IsDir(fs, root + rel) && !IsSymlink(fs, root + rel)) ==> r == AncestorScan(fs, root, rel, 1)
    ensures !IsDir(fs, root + rel) ==> r == AnyParentDirIsSymlink(fs, root, rel)
  {
    if IsDir(fs, root + rel) && !IsSymlink(fs, root + rel) then Err(AssertionError)
    else AncestorScan(fs, root, rel, 1)
  }

  /** Which ancestor test the file list runs: the source's, or the corrected one. */
  datatype AncestorTest = AsWritten | Corrected

  function ParentLinked(fs: FS, root: seq<string>, rel: seq<string>, test: AncestorTest): (r: Result<bool>)
    ensures test == AsWritten ==> r == AnyParentDirIsSymlink(fs, root, rel)
    ensures test == Corrected ==> r == LinkedAncestor(fs, root, rel)
  {
    match test
    case AsWritten => AnyParentDirIsSymlink(fs, root, rel)
    case Corrected => LinkedAncestor(fs, root, rel)
  }

  /**
   * The two tests differ only on a symlinked directory: where the entry is not
   * a directory, or the test is the corrected one, false means that every
   * proper ancestor below the install root is a plain directory.
   */
  lemma ParentLinkedFalse(fs: FS, root: seq<string>, rel: seq<string>, test: AncestorTest)
    requires ParentLinked(fs, root, rel, test) == Ok(false)
    requires test == Corrected || !IsDir(fs, root + rel)
    ensures forall m :: 1 <= m < |rel| ==> PlainDirAt(fs, root, rel, m)
  {
    AncestorScanSpec(fs, root, rel, 1);
  }

  /** A concrete install root: `/r/a` links to `/d`, and `/r/a/b`, seen through that link, links to `/e`. */
  function NestedLinks(): FS {
    map[
      ["r"] := Dir(NewDirSize, NewDirMode),
      ["r", "a"] := Symlink(LinkTarget(true, ["d"])),
      ["r", "a", "b"] := Symlink(LinkTarget(true, ["e"])),
      ["d"] := Dir(NewDirSize, NewDirMode),
      ["d", "b"] := Symlink(LinkTarget(true, ["e"])),
      ["e"] := Dir(NewDirSize, NewDirMode)
    ]
  }

  lemma NestedLinksLookups()
    ensures IsDir(NestedLinks(), ["r", "a"]) && IsSymlink(NestedLinks(), ["r", "a"])
    ensures IsDir(NestedLinks(), ["r", "a", "b"]) && IsSymlink(NestedLinks(), ["r", "a", "b"])
  {
    var fs := NestedLinks();
    assert PlainComponent("r") && PlainComponent("a") && PlainComponent("b");
    assert Key(["r", "a"]) == ["r", "a"];
    assert Key(["r", "a", "b"]) == ["r", "a", "b"];
    assert Resolve([], ["d"]) == Resolve(["d"], []) == ["d"];
    assert Resolve([], ["e"]) == Resolve(["e"], []) == ["e"];
    assert Follow(fs, ["d"], MaxSymlinks - 1) == Ok(["d"]);
    assert Follow(fs, ["e"], MaxSymlinks - 1) == Ok(["e"]);
    assert Follow(fs, ["r", "a"], MaxSymlinks) == Ok(["d"]);
    assert Follow(fs, ["r", "a", "b"], MaxSymlinks) == Ok(["e"]);
  }

  /**
   * As written, the test lets `/a/b` into the file list although its parent
   * `/a` is a symlink that is listed too: both are symlinked directories, so
   * neither is skipped as a plain directory and both get false at once.  The
   * corrected test finds the symlinked parent.
   */
  lemma AsWrittenListsLinkBelowLink()
    ensures !PlainDirAt(NestedLinks(), ["r"], ["a"], 1) && !PlainDirAt(NestedLinks(), ["r"], ["a", "b"], 2)
    ensures AnyParentDirIsSymlink(NestedLinks(), ["r"], ["a"]) == Ok(false)
    ensures AnyParentDirIsSymlink(NestedLinks(), ["r"], ["a", "b"]) == Ok(false)
    ensures IsStrictlyBelow(["a"], ["a", "b"])
    ensures LinkedAncestor(NestedLinks(), ["r"], ["a", "b"]) == Ok(true)
  {
    NestedLinksLookups();
    assert ["r"] + ["a"] == ["r", "a"] && ["r"] + ["a", "b"] == ["r", "a", "b"];
    assert ["a"][..1] == ["a"] && ["a", "b"][..2] == ["a", "b"] && ["a", "b"][..1] == ["a"];
  }

  // ---------------------------------------------------------------------------
  // The file list.

  /**
   * What the loop of `generate_spec_file` does with one globbed path: skip a
   * plain directory (None); otherwise take it relative to the install root
   * and skip it when a parent directory is a symlink; otherwise list it as
   * `/` followed by that relative path.
   */
  function Entry(fs: FS, root: seq<string>, fd: seq<string>, test: AncestorTest): Result<Option<Path>> {
    if IsDir(fs, fd) && !IsSymlink(fs, fd) then Ok(None)
    else
      match RelativeTo(fd, root)
      case Err(e) => Err(e)
      case Ok(rel) =>
        match ParentLinked(fs, root, rel, test)
        case Err(e) => Err(e)
        case Ok(linked) => if linked then Ok(None) else Ok(Some(rel))
  }

  /**
   * A path is skipped exactly when it is a plain directory or the ancestor
   * test finds a symlinked ancestor below the install root; a listed path is
   * the globbed one relative to the root, is not a plain directory, and has
   * only plain directories as ancestors unless (as written) it is itself a
   * symlinked directory; a path outside the root is a ValueError.
   */
  lemma EntrySpec(fs: FS, root: seq<string>, fd: seq<string>, test: AncestorTest)
    ensures Entry(fs, root, fd, test) == Ok(None) <==>
      (IsDir(fs, fd) && !IsSymlink(fs, fd)) ||
      (IsPrefix(root, fd) && ParentLinked(fs, root, fd[|root|..], test) == Ok(true))
    ensures var r := Entry(fs, root, fd, test);
      r.Ok? && r.value.Some? ==> (
        IsPrefix(root, fd) && fd == root + r.value.value && !PlainDirAt(fs, root, r.value.value, |r.value.value|) &&
        ParentLinked(fs, root, r.value.value, test) == Ok(false))
    ensures var r := Entry(fs, root, fd, test);
      r.Ok? && r.value.Some? && (test == Corrected || !IsDir(fs, fd)) ==>
        forall m :: 1 <= m < |r.value.value| ==> PlainDirAt(fs, root, r.value.value, m)
    ensures !(IsDir(fs, fd) && !IsSymlink(fs, fd)) && !IsPrefix(root, fd) ==>
      Entry(fs, root, fd, test).Err? && Entry(fs, root, fd, test).error.ValueError?
  {
    if !(IsDir(fs, fd) && !IsSymlink(fs, fd)) && IsPrefix(root, fd) {
      var rel := fd[|root|..];
      assert root + rel == fd;
      assert rel[..|rel|] == rel;
      if ParentLinked(fs, root, rel, test) == Ok(false) && (test == Corrected || !IsDir(fs, fd)) {
        ParentLinkedFalse(fs, root, rel, test);
      }
    }
  }

  /** The list the loop builds from the first entries; AssertionError when a path would be listed twice. */
  function FileList(fs: FS, root: seq<string>, entries: seq<seq<string>>, test: AncestorTest): Result<seq<Path>>
    decreases |entries|
  {
    if entries == [] then Ok([])
    else AddEntry(FileList(fs, root, entries[..|entries| - 1], test), Entry(fs, root, entries[|entries| - 1], test))
  }

  /** What one entry does to the list so far: an error stays, a skipped entry adds nothing, a path is appended unless already listed. */
  function AddEntry(acc: Result<seq<Path>>, kept: Result<Option<Path>>): (r: Result<seq<Path>>)
    ensures acc.Err? ==> r == acc
    ensures acc.Ok? && kept.Err? ==> r == Err(kept.error)
    ensures acc.Ok? && kept == Ok(None) ==> r == acc
    ensures acc.Ok? && kept.Ok? && kept.value.Some? ==>
      if kept.value.value in acc.value then r == Err(AssertionError) else r == Ok(acc.value + [kept.value.value])
  {
    match acc
    case Err(e) => Err(e)
    case Ok(files) =>
      match kept
      case Err(e) => Err(e)
      case Ok(k) =>
        if k.None? then Ok(files)
        else if k.value in files then Err(AssertionError)
        else Ok(files + [k.value])
  }

  /**
   * A successful list holds no path twice and holds exactly the paths that
   * the entries give.
   */
  lemma {:induction false} FileListMembers(fs: FS, root: seq<string>, entries: seq<seq<string>>, test: AncestorTest)
    requires FileList(fs, root, entries, test).Ok?
    ensures var files := FileList(fs, root, entries, test).value;
      forall i, j :: 0 <= i < j < |files| ==> files[i] != files[j]
    ensures var files := FileList(fs, root, entries, test).value;
      forall x :: x in files <==> Gives(fs, root, entries, x, test)
    decreases |entries|
  {
    if entries != [] {
      var n := |entries| - 1;
      var init := entries[..n];
      FileListMembers(fs, root, init, test);
      FileListLast(fs, root, entries, test);
      var files := FileList(fs, root, init, test).value;
      var kept := Entry(fs, root, entries[n], test).value;
      forall x ensures x in FileList(fs, root, entries, test).value <==> Gives(fs, root, entries, x, test)
      {
        GivesLast(fs, root, entries, x, test);
      }
    }
  }

  /** Some entry is listed as `x`. */
  predicate Gives(fs: FS, root: seq<string>, entries: seq<seq<string>>, x: Path, test: AncestorTest) {
    exists i :: 0 <= i < |entries| && Entry(fs, root, entries[i], test) == Ok(Some(x))
  }

  lemma GivesLast(fs: FS, root: seq<string>, entries: seq<seq<string>>, x: Path, test: AncestorTest)
    requires entries != []
    ensures Gives(fs, root, entries, x, test) <==>
      Gives(fs, root, entries[..|entries| - 1], x, test) || Entry(fs, root, entries[|entries| - 1], test) == Ok(Some(x))
  {
    GivesFromInit(fs, root, entries, x, test);
    GivesSplit(fs, root, entries, x, test);
  }

  lemma GivesFromInit(fs: FS, root: seq<string>, entries: seq<seq<string>>, x: Path, test: AncestorTest)
    requires entries != []
    ensures Gives(fs, root, entries[..|entries| - 1], x, test) ==> Gives(fs, root, entries, x, test)
  {
    var init := entries[..|entries| - 1];
    if Gives(fs, root, init, x, test) {
      var i :| 0 <= i < |init| && Entry(fs, root, init[i], test) == Ok(Some(x));
      assert init[i] == entries[i];
    }
  }

  lemma GivesSplit(fs: FS, root: seq<string>, entries: seq<seq<string>>, x: Path, test: AncestorTest)
    requires entries != []
    ensures Gives(fs, root, entries, x, test) ==>
      Gives(fs, root, entries[..|entries| - 1], x, test) || Entry(fs, root, entries[|entries| - 1], test) == Ok(Some(x))
  {
    var n := |entries| - 1;
    if Gives(fs, root, entries, x, test) {
      var i :| 0 <= i < |entries| && Entry(fs, root, entries[i], test) == Ok(Some(x));
      if i < n {
        assert entries[..n][i] == entries[i];
      }
    }
  }

  /** A successful list is the list of all entries but the last, extended by what the last one gives. */
  lemma FileListLast(fs: FS, root: seq<string>, entries: seq<seq<string>>, test: AncestorTest)
    requires entries != [] && FileList(fs, root, entries, test).Ok?
    ensures var init := entries[..|entries| - 1];
      var e := Entry(fs, root, entries[|entries| - 1], test);
      FileList(fs, root, init, test).Ok? && e.Ok? &&
      (e.value.None? ==> FileList(fs, root, entries, test).value == FileList(fs, root, init, test).value) &&
      (e.value.Some? ==> (e.value.value !in FileList(fs, root, init, test).value &&
        FileList(fs, root, entries, test).value == FileList(fs, root, init, test).value + [e.value.value]))
  {
  }

  /** An error in the first `k` entries is the error of the whole list. */
  lemma {:induction false} FileListErrorStays(fs: FS, root: seq<string>, entries: seq<seq<string>>, k: nat, test: AncestorTest)
    requires k <= |entries| && FileList(fs, root, entries[..k], test).Err?
    ensures FileList(fs, root, entries, test) == FileList(fs, root, entries[..k], test)
    decreases |entries| - k
  {
    if k < |entries| {
      assert entries[..k + 1][..k] == entries[..k];
      FileListErrorStays(fs, root, entries, k + 1, test);
    } else {
      assert entries[..k] == entries;
    }
  }

  /** Two globbed paths listed under the same name are the same path. */
  lemma EntryKeptOnce(fs: FS, root: seq<string>, p: seq<string>, q: seq<string>, test: AncestorTest, rel: seq<string>)
    requires Entry(fs, root, p, test) == Ok(Some(rel)) && Entry(fs, root, q, test) == Ok(Some(rel))
    ensures p == q
  {
    EntrySpec(fs, root, p, test);
    EntrySpec(fs, root, q, test);
  }

  /**
   * The duplicate assertion never fires on a glob result: entries that are
   * pairwise distinct and each handled without error give a list.
   */
  lemma {:induction false} FileListSucceeds(fs: FS, root: seq<string>, entries: seq<seq<string>>, test: AncestorTest)
    requires forall i, j :: 0 <= i < j < |entries| ==> entries[i] != entries[j]
    requires forall i :: 0 <= i < |entries| ==> Entry(fs, root, entries[i], test).Ok?
    ensures FileList(fs, root, entries, test).Ok?
    decreases |entries|
  {
    if entries != [] {
      var n := |entries| - 1;
      var init := entries[..n];
      assert forall i :: 0 <= i < n ==> init[i] == entries[i];
      FileListSucceeds(fs, root, init, test);
      FileListMembers(fs, root, init, test);
      var files := FileList(fs, root, init, test).value;
      var kept := Entry(fs, root, entries[n], test).value;
      if kept.Some? && kept.value in files {
        var i :| 0 <= i < n && Entry(fs, root, init[i], test) == Ok(Some(kept.value));
        EntryKeptOnce(fs, root, init[i], entries[n], test, kept.value);
        assert false;
      }
      assert FileList(fs, root, entries, test) == AddEntry(Ok(files), Ok(kept));
    }
  }

  /**
   * What RPM needs of the list: no listed path lies below another listed
   * path, the install root itself aside, so that a symlinked directory is
   * listed without what is seen through it.  The corrected test gives this;
   * as written it fails exactly for a symlinked directory below a listed one.
   */
  lemma NothingListedBelowListed(fs: FS, root: seq<string>, entries: seq<seq<string>>, test: AncestorTest)
    requires FileList(fs, root, entries, test).Ok?
    ensures var files := FileList(fs, root, entries, test).value;
      forall x, y :: x in files && y in files && |x| > 0 && IsStrictlyBelow(x, y) ==>
        test == AsWritten && IsDir(fs, root + y) && IsSymlink(fs, root + y)
  {
    FileListMembers(fs, root, entries, test);
    var files := FileList(fs, root, entries, test).value;
    forall x, y | x in files && y in files && |x| > 0 && IsStrictlyBelow(x, y)
      ensures test == AsWritten && IsDir(fs, root + y) && IsSymlink(fs, root + y)
    {
      assert Gives(fs, root, entries, x, test) && Gives(fs, root, entries, y, test);
      var i :| 0 <= i < |entries| && Entry(fs, root, entries[i], test) == Ok(Some(x));
      var j :| 0 <= j < |entries| && Entry(fs, root, entries[j], test) == Ok(Some(y));
      EntrySpec(fs, root, entries[i], test);
      EntrySpec(fs, root, entries[j], test);
      if test == Corrected || !IsDir(fs, entries[j]) {
        NotBelowListed(fs, root, x, y);
      }
    }
  }

  /**
   * On the tree of `NestedLinks`, with the glob finding `/r/a` (the link) and
   * `/r/a/b` (seen through it): as written both are listed, and `/a/b` lies
   * below `/a`; the corrected test lists `/a` alone.
   */
  lemma NestedLinksFileLists()
    ensures FileList(NestedLinks(), ["r"], [["r", "a"], ["r", "a", "b"]], AsWritten) == Ok([["a"], ["a", "b"]])
    ensures FileList(NestedLinks(), ["r"], [["r", "a"], ["r", "a", "b"]], Corrected) == Ok([["a"]])
    ensures IsStrictlyBelow(["a"], ["a", "b"])
  {
    NestedLinksEntries();
    FileListOfTwo(NestedLinks(), ["r"], ["r", "a"], ["r", "a", "b"], AsWritten);
    FileListOfTwo(NestedLinks(), ["r"], ["r", "a"], ["r", "a", "b"], Corrected);
  }

  lemma NestedLinksEntries()
    ensures Entry(NestedLinks(), ["r"], ["r", "a"], AsWritten) == Ok(Some(["a"]))
    ensures Entry(NestedLinks(), ["r"], ["r", "a"], Corrected) == Ok(Some(["a"]))
    ensures Entry(NestedLinks(), ["r"], ["r", "a", "b"], AsWritten) == Ok(Some(["a", "b"]))
    ensures Entry(NestedLinks(), ["r"], ["r", "a", "b"], Corrected) == Ok(None)
  {
    NestedLinksLookups();
    AsWrittenListsLinkBelowLink();
    assert RelativeTo(["r", "a"], ["r"]) == Ok(["a"]);
    assert RelativeTo(["r", "a", "b"], ["r"]) == Ok(["a", "b"]);
    assert ["r"] + ["a"] == ["r", "a"];
  }

  /** The list of two entries, from what each gives. */
  lemma FileListOfTwo(fs: FS, root: seq<string>, e1: seq<string>, e2: seq<string>, test: AncestorTest)
    requires Entry(fs, root, e1, test).Ok? && Entry(fs, root, e1, test).value.Some?
    requires Entry(fs, root, e2, test).Ok?
    requires Entry(fs, root, e2, test).value.Some? ==> Entry(fs, root, e2, test).value.value != Entry(fs, root, e1, test).value.value
    ensures var x := Entry(fs, root, e1, test).value.value;
      var y := Entry(fs, root, e2, test).value;
      FileList(fs, root, [e1, e2], test) == Ok(if y.Some? then [x, y.value] else [x])
  {
    var entries := [e1, e2];
    assert entries[..1] == [e1] && entries[1] == e2;
    assert [e1][..0] == [] && [e1][0] == e1;
    var x := Entry(fs, root, e1, test).value.value;
    assert FileList(fs, root, [], test) == Ok([]);
    assert [] + [x] == [x] && [x] + [x] != [x];
    assert FileList(fs, root, [e1], test) == Ok([x]);
    var y := Entry(fs, root, e2, test).value;
    if y.Some? {
      assert y.value !in [x] && [x] + [y.value] == [x, y.value];
    }
  }

  lemma NotBelowListed(fs: FS, root: seq<string>, x: Path, y: Path)
    requires |x| > 0 && !PlainDirAt(fs, root, x, |x|)
    requires forall m :: 1 <= m < |y| ==> PlainDirAt(fs, root, y, m)
    ensures !IsStrictlyBelow(x, y)
  {
    assert x[..|x|] == x;
    if |x| < |y| {
      assert PlainDirAt(fs, root, y, |x|);
    }
  }

  /** The loop of `generate_spec_file` that collects the file list. */
  method CollectFiles(fs: FS, root: seq<string>, entries: seq<seq<string>>) returns (r: Result<seq<Path>>)
    ensures r == FileList(fs, root, entries, AsWritten)
  {
    var files: seq<Path> := [];
    var i := 0;
    while i < |entries|
      invariant 0 <= i <= |entries|
      invariant FileList(fs, root, entries[..i], AsWritten) == Ok(files)
    {
      var kept := ListEntry(fs, root, entries[i]);
      FileListExtend(fs, root, entries, i, files, kept);
      if kept.Err? {
        return Err(kept.error);
      }
      if kept.value.Some? {
        if kept.value.value in files {
          return Err(AssertionError);
        }
        files := files + [kept.value.value];
      }
      i := i + 1;
    }
    assert entries[..i] == entries;
    return Ok(files);
  }

  /** One step of that loop: what the `i`-th entry does to the list of the first `i`. */
  lemma FileListExtend(fs: FS, root: seq<string>, entries: seq<seq<string>>, i: nat, files: seq<Path>, kept: Result<Option<Path>>)
    requires i < |entries| && FileList(fs, root, entries[..i], AsWritten) == Ok(files)
    requires kept == Entry(fs, root, entries[i], AsWritten)
    ensures kept.Err? ==> FileList(fs, root, entries, AsWritten) == Err(kept.error)
    ensures kept.Ok? && kept.value.None? ==> FileList(fs, root, entries[..i + 1], AsWritten) == Ok(files)
    ensures kept.Ok? && kept.value.Some? && kept.value.value in files ==> FileList(fs, root, entries, AsWritten) == Err(AssertionError)
    ensures kept.Ok? && kept.value.Some? && kept.value.value !in files ==>
      FileList(fs, root, entries[..i + 1], AsWritten) == Ok(files + [kept.value.value])
  {
    var pre := entries[..i + 1];
    assert pre[..|pre| - 1] == entries[..i] && pre[|pre| - 1] == entries[i];
    assert FileList(fs, root, pre, AsWritten) == AddEntry(Ok(files), kept);
    if kept.Err? || (kept.value.Some? && kept.value.value in files) {
      FileListErrorStays(fs, root, entries, i + 1, AsWritten);
    }
  }

  /** The body of that loop for one globbed path. */
  method ListEntry(fs: FS, root: seq<string>, fd: seq<string>) returns (r: Result<Option<Path>>)
    ensures r == Entry(fs, root, fd, AsWritten)
  {
    if IsDir(fs, fd) && !IsSymlink(fs, fd) {
      return Ok(None);
    }
    var rel := RelativeTo(fd, root);
    if rel.Err? {
      return Err(rel.error);
    }
    var linked := IsAnyParentDirASymlink(fs, root, rel.value);
    if linked.Err? {
      return Err(linked.error);
    }
    if linked.value {
      return Ok(None);
    }
    return Ok(Some(rel.value));
  }

  // ---------------------------------------------------------------------------
  // The version.

  /** `version.replace("-", "_")`. */
  function FixVersion(version: string): (r: string)
    ensures |r| == |version| && '-' !in r
    ensures forall i :: 0 <= i < |version| ==> r[i] == (if version[i] == '-' then '_' else version[i])
    ensures r == version <==> '-' !in version
  {
    var r := Text.ReplaceChar(version, '-', '_');
    assert r == version <==> '-' !in version by {
      if '-' in version {
        var i :| 0 <= i < |version| && version[i] == '-';
        assert r[i] != version[i];
      } else {
        assert forall i :: 0 <= i < |version| ==> r[i] == version[i];
      }
    }
    r
  }

  /** The warning about an incompatible version is logged exactly when the version has a `-`. */
  predicate VersionWarned(version: string) {
    FixVersion(version) != version
  }

  lemma VersionWarnedIff(version: string)
    ensures VersionWarned(version) <==> '-' in version
  {
  }

  // ---------------------------------------------------------------------------
  // Scriptlets.

  const ScriptletTypes: seq<string> := ["pretrans", "pre", "post", "preun", "postun", "posttrans"]

  /** `LDNP_RPM_SCRIPTLET_<type>`: the variable that names a scriptlet's file. */
  function ScriptletVariable(kind: string): string {
    "LDNP_RPM_SCRIPTLET_" + kind
  }

  /** The line boundaries of `str.splitlines`. */
  predicate LineBreak(c: char) {
    c == '\n' || c == '\r' || c == '\U{B}' || c == '\U{C}' || c == '\U{1C}' || c == '\U{1D}' ||
    c == '\U{1E}' || c == '\U{85}' || c == '\U{2028}' || c == '\U{2029}'
  }

  /** The text up to the first line boundary. */
  function FirstLine(s: string): (r: string)
    ensures |r| <= |s| && s[..|r|] == r
    ensures forall i :: 0 <= i < |r| ==> !LineBreak(r[i])
    ensures |r| < |s| ==> LineBreak(s[|r|])
    decreases |s|
  {
    if s == "" || LineBreak(s[0]) then "" else [s[0]] + FirstLine(s[1..])
  }

  /**
   * `Scriptlet._extract_shebang`: IndexError for an empty text, which has no
   * first line; the first line without its `#!` when it has one; None otherwise.
   */
  function ExtractShebang(data: string): (r: Result<Option<string>>)
    ensures r.Err? <==> data == ""
    ensures r.Err? ==> r.error == IndexError
    ensures r == Ok(None) <==> data != "" && !Text.StartsWith(data, "#!")
    ensures r.Ok? && r.value.Some? ==> (
      var line := "#!" + r.value.value;
      Text.StartsWith(data, line) && (|line| == |data| || LineBreak(data[|line|])) &&
      forall i :: 0 <= i < |r.value.value| ==> !LineBreak(r.value.value[i]))
  {
    if data == "" then Err(IndexError)
    else
      var line := FirstLine(data);
      FirstLineOfShebang(data);
      if |line| >= 2 && line[..2] == "#!" then
        assert line == "#!" + line[2..];
        Ok(Some(line[2..]))
      else
        Ok(None)
  }

  /** A text starting with `#!` has a first line starting with `#!`. */
  lemma FirstLineOfShebang(data: string)
    ensures Text.StartsWith(data, "#!") ==> |FirstLine(data)| >= 2 && FirstLine(data)[..2] == "#!"
  {
    if Text.StartsWith(data, "#!") {
      assert data[0] == '#' && data[1] == '!';
      assert FirstLine(data) == ['#'] + FirstLine(data[1..]);
      assert FirstLine(data[1..]) == ['!'] + FirstLine(data[2..]);
    }
  }

  /** A scriptlet of the `.spec` file: its type, its text and its interpreter. */
  datatype Scriptlet = Scriptlet(kind: string, content: string, shebang: Option<string>)

  /** `Scriptlet(kind, source)`: the file is read and its shebang extracted. */
  function ReadScriptlet(fs: FS, kind: string, source: string): (r: Result<Scriptlet>)
    ensures r.Ok? ==> (ReadText(fs, Parse(source).parts).Ok? && r.value.kind == kind &&
      r.value.content == ReadText(fs, Parse(source).parts).value &&
      ExtractShebang(r.value.content) == Ok(r.value.shebang))
    ensures r.Err? ==> ReadText(fs, Parse(source).parts).Err? || ReadText(fs, Parse(source).parts) == Ok("")
  {
    var content :- ReadText(fs, Parse(source).parts);
    var shebang :- ExtractShebang(content);
    Ok(Scriptlet(kind, content, shebang))
  }

  /** The types of `kinds`, in order, whose variable is set to a non-empty value. */
  function Configured(environ: Meta.Environment, kinds: seq<string>): seq<string>
    decreases |kinds|
  {
    if kinds == [] then []
    else (if Meta.EnvSet(environ, ScriptletVariable(kinds[0])) then [kinds[0]] else []) + Configured(environ, kinds[1..])
  }

  function Kinds(scriptlets: seq<Scriptlet>): seq<string>
    decreases |scriptlets|
  {
    if scriptlets == [] then [] else [scriptlets[0].kind] + Kinds(scriptlets[1..])
  }

  /** The scriptlets of `kinds`, in order; the first file that cannot be read ends the collection. */
  function Scriptlets(fs: FS, environ: Meta.Environment, kinds: seq<string>): Result<seq<Scriptlet>>
    decreases |kinds|
  {
    if kinds == [] then Ok([])
    else
      var first :- ScriptletFor(fs, environ, kinds[0]);
      var rest :- Scriptlets(fs, environ, kinds[1..]);
      Ok(first + rest)
  }

  /** The scriptlet of one type, when its variable is set. */
  function ScriptletFor(fs: FS, environ: Meta.Environment, kind: string): (r: Result<seq<Scriptlet>>)
    ensures r.Ok? ==> |r.value| <= 1 && (r.value != [] <==> Meta.EnvSet(environ, ScriptletVariable(kind)))
    ensures r.Ok? && r.value != [] ==> r.value[0].kind == kind
  {
    var source := Meta.EnvGet(environ, ScriptletVariable(kind));
    if source.None? || source.value == "" then Ok([])
    else
      var s :- ReadScriptlet(fs, kind, source.value);
      Ok([s])
  }

  lemma KindsAppend(a: seq<Scriptlet>, b: seq<Scriptlet>)
    ensures Kinds(a + b) == Kinds(a) + Kinds(b)
    decreases |a|
  {
    if a != [] {
      assert (a + b)[0] == a[0] && (a + b)[1..] == a[1..] + b;
      KindsAppend(a[1..], b);
    } else {
      assert a + b == b;
    }
  }

  /** The scriptlets come in the order of `kinds`, one for each type whose variable is set. */
  lemma {:induction false} ScriptletsInOrder(fs: FS, environ: Meta.Environment, kinds: seq<string>)
    requires Scriptlets(fs, environ, kinds).Ok?
    ensures Kinds(Scriptlets(fs, environ, kinds).value) == Configured(environ, kinds)
    decreases |kinds|
  {
    if kinds != [] {
      ScriptletsInOrder(fs, environ, kinds[1..]);
      var first := ScriptletFor(fs, environ, kinds[0]).value;
      KindsAppend(first, Scriptlets(fs, environ, kinds[1..]).value);
      if first != [] {
        assert Kinds(first) == [kinds[0]] by { assert first[1..] == []; }
      }
    }
  }

  /** The loop of `generate_spec_file` over the scriptlet types. */
  method CollectScriptlets(fs: FS, environ: Meta.Environment, kinds: seq<string>) returns (r: Result<seq<Scriptlet>>)
    ensures r == Scriptlets(fs, environ, kinds)
  {
    var found: seq<Scriptlet> := [];
    var i := 0;
    assert kinds[i..] == kinds;
    PrependNothing(Scriptlets(fs, environ, kinds));
    while i < |kinds|
      invariant 0 <= i <= |kinds|
      invariant Scriptlets(fs, environ, kinds) == Prepend(found, Scriptlets(fs, environ, kinds[i..]))
    {
      ScriptletsStep(fs, environ, kinds[i..]);
      assert kinds[i..][0] == kinds[i] && kinds[i..][1..] == kinds[i + 1..];
      var s := CollectScriptlet(fs, environ, kinds[i]);
      if s.Err? {
        return Err(s.error);
      }
      PrependAppend(found, s.value, Scriptlets(fs, environ, kinds[i + 1..]));
      found := found + s.value;
      i := i + 1;
    }
    assert found + [] == found;
    return Ok(found);
  }

  /** The body of that loop for one type. */
  method CollectScriptlet(fs: FS, environ: Meta.Environment, kind: string) returns (r: Result<seq<Scriptlet>>)
    ensures r == ScriptletFor(fs, environ, kind)
  {
    var source := Meta.EnvGet(environ, ScriptletVariable(kind));
    if source.None? || source.value == "" {
      return Ok([]);
    }
    var s := ReadScriptlet(fs, kind, source.value);
    if s.Err? {
      return Err(s.error);
    }
    return Ok([s.value]);
  }

  lemma ScriptletsStep(fs: FS, environ: Meta.Environment, kinds: seq<string>)
    requires kinds != []
    ensures var first := ScriptletFor(fs, environ, kinds[0]);
      Scriptlets(fs, environ, kinds) ==
        if first.Err? then Err(first.error) else Prepend(first.value, Scriptlets(fs, environ, kinds[1..]))
  {
  }

  lemma PrependNothing(rest: Result<seq<Scriptlet>>)
    ensures Prepend([], rest) == rest
  {
    if rest.Ok? {
      assert [] + rest.value == rest.value;
    }
  }

  /** `done` followed by what `rest` collects, or the error `rest` ends in. */
  function Prepend(done: seq<Scriptlet>, rest: Result<seq<Scriptlet>>): Result<seq<Scriptlet>> {
    match rest
    case Err(e) => Err(e)
    case Ok(s) => Ok(done + s)
  }

  lemma PrependAppend(a: seq<Scriptlet>, b: seq<Scriptlet>, rest: Result<seq<Scriptlet>>)
    ensures Prepend(a, Prepend(b, rest)) == Prepend(a + b, rest)
  {
    if rest.Ok? {
      assert a + (b + rest.value) == (a + b) + rest.value;
    }
  }

  // ---------------------------------------------------------------------------
  // The `.spec` file.

  /** What the `rpm/spec` template is given. */
  datatype SpecInputs = SpecInputs(files: seq<Path>, meta: map<string, string>, fixedVersion: string, scriptlets: seq<Scriptlet>)

  /** Rendering of the `rpm/spec` template. */
  type SpecRenderer = SpecInputs -> string

  /** `work_dir/package.spec`. */
  function SpecPath(p: Packager): seq<string> {
    p.context.workDir + ["package.spec"]
  }

  /**
   * `generate_spec_file`: the file list over the recursive glob of the install
   * root (hidden entries included), the asserted package name and version, the
   * fixed version, the scriptlets, then the rendered text written to the work
   * directory.
   */
  function SpecRun(p: Packager, fs: FS, listing: Listing, environ: Meta.Environment, render: SpecRenderer, test: AncestorTest): Run
    reads p.meta
  {
    match FileList(fs, p.context.installRoot, listing(Tree(fs, p.context.installRoot, true)), test)
    case Err(e) => Run(fs, Fail(e))
    case Ok(files) =>
      match Required(p.meta, "package_name")
      case Err(e) => Run(fs, Fail(e))
      case Ok(_) =>
        match Required(p.meta, "version")
        case Err(e) => Run(fs, Fail(e))
        case Ok(version) =>
          match Scriptlets(fs, environ, ScriptletTypes)
          case Err(e) => Run(fs, Fail(e))
          case Ok(scriptlets) =>
            var inputs := SpecInputs(Sorting.Sort(files), p.meta.data, FixVersion(version), scriptlets);
            Atomic(fs, AfterWriteText(fs, SpecPath(p), render(inputs)))
  }

  /**
   * A `.spec` file written is the rendering of a sorted file list without
   * duplicates, a version without `-`, and the scriptlets in the fixed order;
   * nothing is listed below another listed path except, as written, a
   * symlinked directory; the spec file is the only entry written.
   */
  lemma SpecResult(p: Packager, fs: FS, listing: Listing, environ: Meta.Environment, render: SpecRenderer, test: AncestorTest)
    requires SpecRun(p, fs, listing, environ, render, test).outcome == Pass
    ensures var root := p.context.installRoot;
      var entries := listing(Tree(fs, root, true));
      FileList(fs, root, entries, test).Ok? && Required(p.meta, "version").Ok? &&
      Scriptlets(fs, environ, ScriptletTypes).Ok? &&
      var files := FileList(fs, root, entries, test).value;
      var inputs := SpecInputs(Sorting.Sort(files), p.meta.data, FixVersion(Required(p.meta, "version").value),
        Scriptlets(fs, environ, ScriptletTypes).value);
      Sorting.Sorted(inputs.files) && multiset(inputs.files) == multiset(files) &&
      (forall i, j :: 0 <= i < j < |files| ==> files[i] != files[j]) &&
      (forall x, y :: x in files && y in files && |x| > 0 && IsStrictlyBelow(x, y) ==>
        test == AsWritten && IsDir(fs, root + y) && IsSymlink(fs, root + y)) &&
      '-' !in inputs.fixedVersion &&
      Kinds(inputs.scriptlets) == Configured(environ, ScriptletTypes) &&
      AfterWriteText(fs, SpecPath(p), render(inputs)) == Ok(SpecRun(p, fs, listing, environ, render, test).fs)
  {
    var root := p.context.installRoot;
    var entries := listing(Tree(fs, root, true));
    FileListMembers(fs, root, entries, test);
    NothingListedBelowListed(fs, root, entries, test);
    ScriptletsInOrder(fs, environ, ScriptletTypes);
  }

  method GenerateSpecFile(p: Packager, host: Host, listing: Listing, environ: Meta.Environment, render: SpecRenderer)
    returns (r: Outcome)
    modifies host
    ensures Run(host.nodes, r) == SpecRun(p, old(host.nodes), listing, environ, render, AsWritten)
  {
    var root := p.context.installRoot;
    var files := CollectFiles(host.nodes, root, listing(Tree(host.nodes, root, true)));
    if files.Err? {
      return Fail(files.error);
    }
    var name := Required(p.meta, "package_name");
    if name.Err? {
      return Fail(name.error);
    }
    var version := Required(p.meta, "version");
    if version.Err? {
      return Fail(version.error);
    }
    var fixed := FixVersion(version.value);
    var scriptlets := CollectScriptlets(host.nodes, environ, ScriptletTypes);
    if scriptlets.Err? {
      return Fail(scriptlets.error);
    }
    var rendered := render(SpecInputs(Sorting.Sort(files.value), p.meta.data, fixed, scriptlets.value));
    r := host.WriteText(SpecPath(p), rendered);
  }

  // ---------------------------------------------------------------------------
  // The built package and `create_package`.

  /** The recursive glob for `.rpm` files below the output directory; hidden entries are not visited. */
  function BuiltRpms(fs: FS, outDir: seq<string>): (r: set<seq<string>>)
    ensures forall x :: x in r <==> x in Below(fs, outDir, false) && Text.EndsWith(Name(x), ".rpm")
  {
    set x | x in Below(fs, outDir, false) && Text.EndsWith(Name(x), ".rpm")
  }

  /**
   * The part of `generate_rpm` after `rpmbuild`: ValueError when nothing was
   * built and when more than two packages were, otherwise the first one found
   * is moved to the output path (shutil.Error when that is a directory which
   * already holds an entry of the package's name).  On success that package, and nothing else,
   * has moved; on failure nothing has changed.
   */
  function RpmRun(p: Packager, fs: FS, outPath: seq<string>, listing: Listing): (r: Run)
    ensures var built := listing(BuiltRpms(fs, p.context.outDir));
      r.outcome == Pass <==> 1 <= |built| <= 2 && AfterMove(fs, built[0], outPath).Ok?
    ensures |listing(BuiltRpms(fs, p.context.outDir))| == 0 ==> r.outcome == Fail(ValueError("no built RPM found"))
    ensures |listing(BuiltRpms(fs, p.context.outDir))| > 2 ==> r.outcome == Fail(ValueError("more than one RPM built"))
    ensures var built := listing(BuiltRpms(fs, p.context.outDir));
      1 <= |built| <= 2 && IsDir(fs, outPath) && Exists(fs, Destination(fs, built[0], outPath)) ==>
        r.outcome == Fail(ShutilError(Destination(fs, built[0], outPath)))
    ensures r.outcome.Fail? ==> r.fs == fs
    ensures r.outcome == Pass ==>
      var pkg := Key(listing(BuiltRpms(fs, p.context.outDir))[0]);
      var placed := Key(Destination(fs, listing(BuiltRpms(fs, p.context.outDir))[0], outPath));
      placed in r.fs && r.fs[placed] == fs[pkg] && (placed != pkg ==> pkg !in r.fs) &&
      forall k :: k != pkg && k != placed ==> (k in r.fs <==> k in fs) && (k in fs ==> r.fs[k] == fs[k])
  {
    var built := listing(BuiltRpms(fs, p.context.outDir));
    if |built| == 0 then Run(fs, Fail(ValueError("no built RPM found")))
    else if |built| > 2 then Run(fs, Fail(ValueError("more than one RPM built")))
    else Atomic(fs, AfterMove(fs, built[0], outPath))
  }

  /** Two packages found are not refused: the first is moved, whatever the second is. */
  lemma TwoBuiltRpmsAccepted(p: Packager, fs: FS, outPath: seq<string>, listing: Listing)
    requires |listing(BuiltRpms(fs, p.context.outDir))| == 2
    requires AfterMove(fs, listing(BuiltRpms(fs, p.context.outDir))[0], outPath).Ok?
    ensures RpmRun(p, fs, outPath, listing) ==
      Run(AfterMove(fs, listing(BuiltRpms(fs, p.context.outDir))[0], outPath).value, Pass)
  {
  }

  /**
   * The last step of `generate_rpm` as its error message means it: more than
   * one package found is refused.  It differs from RpmRun only when exactly
   * two were found.
   */
  function SingleRpmRun(p: Packager, fs: FS, outPath: seq<string>, listing: Listing): (r: Run)
    ensures var built := listing(BuiltRpms(fs, p.context.outDir));
      r.outcome == Pass <==> |built| == 1 && AfterMove(fs, built[0], outPath).Ok?
    ensures |listing(BuiltRpms(fs, p.context.outDir))| > 1 ==> r == Run(fs, Fail(ValueError("more than one RPM built")))
    ensures |listing(BuiltRpms(fs, p.context.outDir))| != 2 ==> r == RpmRun(p, fs, outPath, listing)
  {
    var built := listing(BuiltRpms(fs, p.context.outDir));
    if |built| == 0 then Run(fs, Fail(ValueError("no built RPM found")))
    else if |built| > 1 then Run(fs, Fail(ValueError("more than one RPM built")))
    else Atomic(fs, AfterMove(fs, built[0], outPath))
  }

  method GenerateRpm(p: Packager, host: Host, outPath: seq<string>, listing: Listing) returns (r: Outcome)
    modifies host
    ensures Run(host.nodes, r) == RpmRun(p, old(host.nodes), outPath, listing)
  {
    var built := listing(BuiltRpms(host.nodes, p.context.outDir));
    if |built| == 0 {
      return Fail(ValueError("no built RPM found"));
    }
    if |built| > 2 {
      return Fail(ValueError("more than one RPM built"));
    }
    r := host.Move(built[0], outPath);
  }

  /** The collaborators of the RPM build: parsers, the glob order, the renderers, and `rpmbuild`'s effect. */
  datatype Tools = Tools(
    parse: EntryParser, split: Splitter, listing: Listing,
    read: ConfigReader, write: ConfigWriter, render: SpecRenderer, rpmbuild: FS -> FS)

  /** The name `create_package` builds: `.rpm` with the `build_arch` metadata, when set. */
  function PackageName(p: Packager, out: string): (r: string)
    reads p.meta
    ensures Text.EndsWith(r, ".rpm")
  {
    OutputName(out, ".rpm", p.meta.Get("build_arch", None))
  }

  /**
   * `create_package`: copy the AppDir, merge its data into the install root,
   * write the configuration and the `.spec` file, build, then move the package
   * into place; the first step that fails ends the run.
   */
  function PackageRun(p: Packager, fs: FS, out: string, environ: Meta.Environment, t: Tools): Run
    reads p.meta
  {
    var copied := CopyRun(fs, p.appdir.path, p.InstallPath());
    if copied.outcome.Fail? then copied
    else
      var merged := DataRun(p, copied.fs, t.parse, t.split, t.listing);
      if merged.outcome.Fail? then merged
      else
        var conf := ConfRun(p, merged.fs, t.read, t.write);
        if conf.outcome.Fail? then conf
        else
          var spec := SpecRun(p, conf.fs, t.listing, environ, t.render, AsWritten);
          if spec.outcome.Fail? then spec
          else RpmRun(p, t.rpmbuild(spec.fs), Parse(PackageName(p, out)).parts, t.listing)
  }

  method CreatePackage(p: Packager, host: Host, out: string, environ: Meta.Environment, t: Tools)
    returns (r: Outcome, name: string)
    modifies host
    ensures name == PackageName(p, out)
    ensures Run(host.nodes, r) == PackageRun(p, old(host.nodes), out, environ, t)
  {
    name := PackageName(p, out);
    r := CopyAppDirContents(p, host);
    if r.Fail? {
      return;
    }
    r := CopyDataToUsr(p, host, t.parse, t.split, t.listing);
    if r.Fail? {
      return;
    }
    r := WriteLdnpConf(p, host, t.read, t.write);
    if r.Fail? {
      return;
    }
    r := GenerateSpecFile(p, host, t.listing, environ, t.render);
    if r.Fail? {
      return;
    }
    r := host.Update(Ok(t.rpmbuild(host.nodes)));
    r := GenerateRpm(p, host, Parse(name).parts, t.listing);
  }
}
