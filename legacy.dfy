/**
 * The older packager (`ldnp/packager.py`): the same merge of an AppDir copy
 * into the install root in a simpler form.  The binary named by a desktop
 * file's `Exec=` is linked into `usr/bin` instead of getting a launcher, and
 * every icon is mirrored once all desktop files are handled.
 */
module Legacy {
  import opened Wrappers
  import opened Paths
  import opened FileSystem
  import opened AppDirs
  import opened Packaging
  import Text

  /** A single proper component parses as itself, relative. */
  lemma ParseComponent(c: string)
    requires ProperComponent(c)
    ensures Parse(c) == PurePath(false, [c])
  {
    Text.SplitNoSep(c, '/');
    assert c[0] in c;
    assert [c][1..] == [];
    assert KeepProper([c]) == [c];
  }

  /** The first word every `Exec=` value splits into is a plain file name, without `/`. */
  ghost predicate PlainWords(split: Splitter) {
    forall s :: split(s).Ok? && |split(s).value| > 0 ==> PlainComponent(split(s).value[0])
  }

  /** No entry at or below `dir` is added or changed from `before` to `after`; some may be removed. */
  ghost predicate AddsNothingUnder(dir: seq<string>, before: FS, after: FS) {
    forall k :: k in after && IsPrefix(dir, k) ==> k in before && before[k] == after[k]
  }

  /** A child of a plain directory resolves to itself, to the directory or to its parent. */
  lemma ChildKey(base: seq<string>, n: string)
    requires Plain(base)
    ensures Key(base + [n]) == (if n == ".." then Parent(base) else if n == "" || n == "." then base else base + [n])
  {
    if Plain(base + [n]) {
      assert (base + [n])[|base|] == n;
    } else {
      ResolveAppend([], base, [n]);
      ResolvePlainPath(base);
      assert [n][1..] == [];
    }
  }

  /** Neither a desktop file's link nor the entry it names lies in the install root's `usr/bin`. */
  lemma DesktopLinkOutsideBin(root: seq<string>, n: string)
    requires Plain(root)
    ensures !IsPrefix(root + BinLocation, root + DesktopFilesLocation + [n])
    ensures !IsPrefix(root + BinLocation, Key(root + DesktopFilesLocation + [n]))
  {
    var dst := root + DesktopFilesLocation + [n];
    LocationsPlain();
    PlainConcat(root, DesktopFilesLocation);
    ChildKey(root + DesktopFilesLocation, n);
    assert dst[|root| + 1] == "share";
    assert Key(dst)[|root| + 1] == "share";
    assert (root + BinLocation)[|root| + 1] == "bin";
  }

  /**
   * The icon phase of the older `copy_data_to_usr`: every icon deployed is
   * mirrored by a link back to it, and the install root's applications
   * directory is left as the desktop loop made it.
   */
  lemma IconPhase(root: seq<string>, install: seq<string>, listing: Listing, desktop: FS)
    requires ResolvedKeys(desktop) && Plain(root) && Plain(install) && ListsFound(listing)
    requires DeployEachRun(desktop, root, install, listing(DottedBelow(desktop, install + IconsLocation)), None).outcome == Pass
    ensures var after := DeployEachRun(desktop, root, install, listing(DottedBelow(desktop, install + IconsLocation)), None).fs;
      KeepsApplications(root, desktop, after) &&
      forall x :: x in Deployed(desktop, root, install, listing(DottedBelow(desktop, install + IconsLocation)), None) ==>
        MirroredAt(root, install, after, x)
  {
    LocationsPlain();
    ShareDeploy(desktop, root, install, IconsLocation, listing);
  }

  class LegacyPackager {
    const appdir: AppDir
    const context: Context
    const packageName: string
    const version: string
    const filenamePrefix: string
    var description: Option<string>
    var shortDescription: Option<string>

    /** Stores its arguments; both descriptions start unset.  Nothing is validated. */
    constructor (appdir: AppDir, packageName: string, version: string, filenamePrefix: string, context: Context)
      ensures this.appdir == appdir && this.context == context
      ensures this.packageName == packageName && this.version == version && this.filenamePrefix == filenamePrefix
      ensures description == None && shortDescription == None
    {
      this.appdir := appdir;
      this.context := context;
      this.packageName := packageName;
      this.version := version;
      this.filenamePrefix := filenamePrefix;
      description := None;
      shortDescription := None;
    }

    /** `appdir_install_path`: `install_root/opt/<package_name>.AppDir`. */
    function InstallPath(): (r: seq<string>)
      ensures PlainComponent(packageName + ".AppDir") ==>
        r == context.installRoot + ["opt", packageName + ".AppDir"]
    {
      var name := packageName + ".AppDir";
      if PlainComponent(name) then ParseComponent(name); JoinStr(context.installRoot + ["opt"], name)
      else JoinStr(context.installRoot + ["opt"], name)
    }

    method SetDescription(d: string)
      modifies this
      ensures description == Some(d) && shortDescription == old(shortDescription)
    {
      description := Some(d);
    }

    /** `set_short_description` stores its argument as the description; the short description is left alone. */
    method SetShortDescription(d: string)
      modifies this
      ensures description == Some(d) && shortDescription == old(shortDescription)
    {
      description := Some(d);
    }

    /** `find_desktop_files`: the `*.desktop` entries directly in the applications directory of the copy. */
    function FindDesktopFiles(fs: FS): (r: set<seq<string>>)
      ensures forall d :: d in r <==>
        d in Children(fs, InstallPath() + DesktopFilesLocation) && MatchesDesktopGlob(Name(d))
    {
      DesktopFilesIn(fs, InstallPath() + DesktopFilesLocation)
    }

    /** `find_icons` on a filesystem that does not change meanwhile: every regular file with a dot in its name below the icons directory. */
    function FindIcons(fs: FS): (r: set<seq<string>>)
      ensures forall x :: x in r <==>
        x in Below(fs, InstallPath() + IconsLocation, true) && '.' in Name(x) && IsFile(fs, x)
    {
      set x | x in DottedBelow(fs, InstallPath() + IconsLocation) && Yields(fs, x, None)
    }

    /**
     * One desktop file: link it into the applications directory, read the
     * link, check its `Exec=`, then link its binary into `usr/bin`.
     */
    function DesktopStep(fs: FS, d: seq<string>, parse: EntryParser, split: Splitter): Run {
      var root := context.installRoot;
      var dst := root + DesktopFilesLocation + [Name(d)];
      var linked := RelinkRun(fs, root, d, dst);
      if linked.outcome.Fail? then linked
      else BinaryStep(linked.fs, dst, parse, split)
    }

    /** The rest of a desktop file's step, once it is linked at `dst`. */
    function BinaryStep(fs: FS, dst: seq<string>, parse: EntryParser, split: Splitter): Run {
      match ReadEntry(fs, dst, parse)
      case Err(e) => Run(fs, Fail(e))
      case Ok(entry) =>
        match ExecBinary(fs, InstallPath(), entry.exec, split)
        case Err(e) => Run(fs, Fail(e))
        case Ok(bin) => RelinkRun(fs, context.installRoot, BinarySource(bin), BinaryLink(bin))
    }

    /** `appdir_install_path/usr/bin/<bin>`. */
    function BinarySource(bin: string): seq<string> {
      JoinStr(InstallPath() + BinLocation, bin)
    }

    /** `install_root/usr/bin/<bin>`. */
    function BinaryLink(bin: string): seq<string> {
      JoinStr(context.installRoot + BinLocation, bin)
    }

    function DesktopLoopRun(fs: FS, ds: seq<seq<string>>, parse: EntryParser, split: Splitter): Run
      decreases |ds|
    {
      if ds == [] then Run(fs, Pass)
      else
        var first := DesktopStep(fs, ds[0], parse, split);
        if first.outcome.Fail? then first
        else DesktopLoopRun(first.fs, ds[1..], parse, split)
    }

    /**
     * `copy_data_to_usr`: create the applications and `usr/bin` directories,
     * handle every desktop file, then mirror every icon, with no name filter.
     */
    function DataRun(fs: FS, parse: EntryParser, split: Splitter, listing: Listing): Run {
      var root := context.installRoot;
      match AfterMakeDirs(fs, root + DesktopFilesLocation)
      case Err(e) => Run(fs, Fail(e))
      case Ok(f1) =>
        match AfterMakeDirs(f1, root + BinLocation)
        case Err(e) => Run(f1, Fail(e))
        case Ok(f2) => FilesRun(f2, parse, split, listing)
    }

    /** Once both directories exist: the desktop loop, then the icons. */
    function FilesRun(fs: FS, parse: EntryParser, split: Splitter, listing: Listing): Run {
      var desktop := DesktopLoopRun(fs, listing(FindDesktopFiles(fs)), parse, split);
      if desktop.outcome.Fail? then desktop
      else DeployEachRun(desktop.fs, context.installRoot, InstallPath(),
        listing(DottedBelow(desktop.fs, InstallPath() + IconsLocation)), None)
    }

    /**
     * A handled desktop file leaves `usr/bin/<bin>` a relative link that leads
     * back to the binary in the AppDir copy, and changes nothing else in that
     * last step.
     */
    lemma BinaryLinked(fs: FS, dst: seq<string>, parse: EntryParser, split: Splitter)
      requires BinaryStep(fs, dst, parse, split).outcome == Pass
      ensures ReadEntry(fs, dst, parse).Ok?
      ensures var bin := ExecBinary(fs, InstallPath(), ReadEntry(fs, dst, parse).value.exec, split);
        bin.Ok? && Exists(fs, BinarySource(bin.value)) &&
        var link := Key(BinaryLink(bin.value));
        var after := BinaryStep(fs, dst, parse, split).fs;
        link in after && after[link].Symlink? && !after[link].target.absolute &&
        (forall k :: k in fs && k != link ==> k in after && after[k] == fs[k]) &&
        (forall k :: k in after ==> k in fs || k == link) &&
        (Plain(BinarySource(bin.value)) && Plain(BinaryLink(bin.value)) ==>
          LinkDestination(link, after[link].target) == BinarySource(bin.value))
    {
      BinaryStepRelinks(fs, dst, parse, split);
      var bin := ExecBinary(fs, InstallPath(), ReadEntry(fs, dst, parse).value.exec, split).value;
      var link := Key(BinaryLink(bin));
      var run := RelinkRun(fs, context.installRoot, BinarySource(bin), BinaryLink(bin));
      RelinkResult(fs, context.installRoot, BinarySource(bin), BinaryLink(bin));
      var target := LinkTarget(false, RelativeSymlinkTarget(context.installRoot, BinarySource(bin), BinaryLink(bin)).value);
      assert run.fs == fs[link := Symlink(target)];
      if Plain(BinarySource(bin)) && Plain(BinaryLink(bin)) {
        assert Resolved(BinarySource(bin)) && Resolved(BinaryLink(bin)) by {
          assert forall i :: 0 <= i < |BinarySource(bin)| ==> PlainComponent(BinarySource(bin)[i]);
          assert forall i :: 0 <= i < |BinaryLink(bin)| ==> PlainComponent(BinaryLink(bin)[i]);
        }
      }
    }

    /** A passing binary step read the entry, found its binary, and relinked that binary. */
    lemma BinaryStepRelinks(fs: FS, dst: seq<string>, parse: EntryParser, split: Splitter)
      requires BinaryStep(fs, dst, parse, split).outcome == Pass
      ensures ReadEntry(fs, dst, parse).Ok?
      ensures var bin := ExecBinary(fs, InstallPath(), ReadEntry(fs, dst, parse).value.exec, split);
        bin.Ok? && Exists(fs, BinarySource(bin.value)) &&
        BinaryStep(fs, dst, parse, split) == RelinkRun(fs, context.installRoot, BinarySource(bin.value), BinaryLink(bin.value))
    {
    }

    /** A resolved path directly in the applications directory of the AppDir copy. */
    predicate InDesktopDir(d: seq<string>) {
      Resolved(d) && |d| > 0 && Parent(d) == InstallPath() + DesktopFilesLocation
    }

    /** A desktop file the glob finds lies directly in the applications directory of the copy. */
    lemma DesktopFound(fs: FS, d: seq<string>)
      requires ResolvedKeys(fs) && Plain(InstallPath()) && d in FindDesktopFiles(fs)
      ensures InDesktopDir(d)
    {
      LocationsPlain();
      PlainConcat(InstallPath(), DesktopFilesLocation);
      ChildFound(fs, InstallPath() + DesktopFilesLocation, d);
    }

    /** For a plain binary name, the link goes to `install_root/usr/bin/<bin>` and leads to the AppDir's `usr/bin/<bin>`. */
    lemma BinaryPlace(bin: string)
      requires Plain(context.installRoot) && PlainComponent(bin)
      ensures BinaryLink(bin) == context.installRoot + BinLocation + [bin] && Key(BinaryLink(bin)) == BinaryLink(bin)
      ensures BinarySource(bin) == InstallPath() + BinLocation + [bin]
      ensures Plain(InstallPath()) ==> Resolved(BinarySource(bin))
    {
      ParseComponent(bin);
      LocationsPlain();
      assert Plain(BinaryLink(bin)) by {
        forall i | 0 <= i < |BinaryLink(bin)| ensures PlainComponent(BinaryLink(bin)[i]) {
          if i < |context.installRoot| {
            assert BinaryLink(bin)[i] == context.installRoot[i];
          }
        }
      }
      if Plain(InstallPath()) {
        forall i | 0 <= i < |BinarySource(bin)| ensures PlainComponent(BinarySource(bin)[i]) {
          if i < |InstallPath()| {
            assert BinarySource(bin)[i] == InstallPath()[i];
          }
        }
      }
    }

    /** With plain binary names, the binary link changes nothing outside the install root's `usr/bin`. */
    lemma BinaryStepKeeps(fs: FS, dst: seq<string>, parse: EntryParser, split: Splitter, k: Path)
      requires Plain(context.installRoot) && PlainWords(split)
      requires BinaryStep(fs, dst, parse, split).outcome == Pass
      requires k in fs && !IsPrefix(context.installRoot + BinLocation, k)
      ensures k in BinaryStep(fs, dst, parse, split).fs && BinaryStep(fs, dst, parse, split).fs[k] == fs[k]
    {
      var bin := ExecBinary(fs, InstallPath(), ReadEntry(fs, dst, parse).value.exec, split).value;
      BinaryPlace(bin);
      RelinkResult(fs, context.installRoot, BinarySource(bin), BinaryLink(bin));
      assert BinaryLink(bin)[..|context.installRoot + BinLocation|] == context.installRoot + BinLocation;
    }

    /** The binary link adds only a resolved key. */
    lemma BinaryStepResolved(fs: FS, dst: seq<string>, parse: EntryParser, split: Splitter)
      requires ResolvedKeys(fs) && BinaryStep(fs, dst, parse, split).outcome == Pass
      ensures ResolvedKeys(BinaryStep(fs, dst, parse, split).fs)
    {
      var bin := ExecBinary(fs, InstallPath(), ReadEntry(fs, dst, parse).value.exec, split).value;
      RelinkResolved(fs, context.installRoot, BinarySource(bin), BinaryLink(bin));
    }

    /**
     * A desktop file in the AppDir copy that goes through its step stays
     * linked from the applications directory: the binary link made after it
     * lies in `usr/bin`.
     */
    lemma DesktopStepLinks(fs: FS, d: seq<string>, parse: EntryParser, split: Splitter)
      requires ResolvedKeys(fs) && Plain(context.installRoot) && PlainWords(split) && InDesktopDir(d)
      requires DesktopStep(fs, d, parse, split).outcome == Pass
      ensures ResolvedKeys(DesktopStep(fs, d, parse, split).fs)
      ensures DesktopLinked(context.installRoot, DesktopStep(fs, d, parse, split).fs, d)
    {
      var root := context.installRoot;
      var dst := root + DesktopFilesLocation + [Name(d)];
      LinkPlace(root, d);
      RelinkResult(fs, root, d, dst);
      RelinkResolved(fs, root, d, dst);
      var linked := RelinkRun(fs, root, d, dst).fs;
      DesktopLinkOutsideBin(root, Name(d));
      BinaryStepKeeps(linked, dst, parse, split, dst);
      BinaryStepResolved(linked, dst, parse, split);
    }

    /** A desktop file's step leaves the link of a desktop file with another name alone. */
    lemma DesktopStepKeepsLink(fs: FS, d: seq<string>, parse: EntryParser, split: Splitter, n: string)
      requires Plain(context.installRoot) && PlainWords(split) && InDesktopDir(d) && Name(d) != n
      requires context.installRoot + DesktopFilesLocation + [n] in fs
      requires DesktopStep(fs, d, parse, split).outcome == Pass
      ensures var k := context.installRoot + DesktopFilesLocation + [n];
        k in DesktopStep(fs, d, parse, split).fs && DesktopStep(fs, d, parse, split).fs[k] == fs[k]
    {
      var root := context.installRoot;
      var k := root + DesktopFilesLocation + [n];
      var dst := root + DesktopFilesLocation + [Name(d)];
      LinkPlace(root, d);
      assert k != dst by {
        assert k[|k| - 1] == n && dst[|dst| - 1] == Name(d);
      }
      RelinkResult(fs, root, d, dst);
      DesktopLinkOutsideBin(root, n);
      BinaryStepKeeps(RelinkRun(fs, root, d, dst).fs, dst, parse, split, k);
    }

    /** The desktop-file loop leaves the link of a desktop file whose name it does not handle alone. */
    lemma {:induction false} DesktopLoopKeepsLink(fs: FS, ds: seq<seq<string>>, parse: EntryParser, split: Splitter, n: string)
      requires Plain(context.installRoot) && PlainWords(split)
      requires forall i :: 0 <= i < |ds| ==> InDesktopDir(ds[i]) && Name(ds[i]) != n
      requires context.installRoot + DesktopFilesLocation + [n] in fs
      requires DesktopLoopRun(fs, ds, parse, split).outcome == Pass
      ensures var k := context.installRoot + DesktopFilesLocation + [n];
        k in DesktopLoopRun(fs, ds, parse, split).fs && DesktopLoopRun(fs, ds, parse, split).fs[k] == fs[k]
      decreases |ds|
    {
      if ds != [] {
        var first := DesktopStep(fs, ds[0], parse, split);
        DesktopStepKeepsLink(fs, ds[0], parse, split, n);
        forall i | 0 <= i < |ds[1..]| ensures InDesktopDir(ds[1..][i]) && Name(ds[1..][i]) != n {
          assert ds[1..][i] == ds[i + 1];
        }
        DesktopLoopKeepsLink(first.fs, ds[1..], parse, split, n);
      }
    }

    /**
     * After a successful desktop-file loop every desktop file it handled is
     * linked from the install root's applications directory.
     */
    lemma {:induction false} DesktopLoopLinks(fs: FS, ds: seq<seq<string>>, parse: EntryParser, split: Splitter)
      requires ResolvedKeys(fs) && Plain(context.installRoot) && PlainWords(split)
      requires forall i :: 0 <= i < |ds| ==> InDesktopDir(ds[i])
      requires DesktopLoopRun(fs, ds, parse, split).outcome == Pass
      ensures ResolvedKeys(DesktopLoopRun(fs, ds, parse, split).fs)
      ensures forall i :: 0 <= i < |ds| ==> DesktopLinked(context.installRoot, DesktopLoopRun(fs, ds, parse, split).fs, ds[i])
      decreases |ds|
    {
      if ds != [] {
        var root := context.installRoot;
        var first := DesktopStep(fs, ds[0], parse, split);
        var rest := ds[1..];
        var after := DesktopLoopRun(first.fs, rest, parse, split).fs;
        DesktopStepLinks(fs, ds[0], parse, split);
        forall i | 0 <= i < |rest| ensures InDesktopDir(rest[i]) {
          assert rest[i] == ds[i + 1];
        }
        DesktopLoopLinks(first.fs, rest, parse, split);
        if j :| 0 <= j < |rest| && Name(rest[j]) == Name(ds[0]) {
          assert rest[j] == Parent(rest[j]) + [Name(rest[j])];
          assert ds[0] == Parent(ds[0]) + [Name(ds[0])];
          assert DesktopLinked(root, after, ds[0]);
        } else {
          DesktopLoopKeepsLink(first.fs, rest, parse, split, Name(ds[0]));
        }
        forall i | 0 <= i < |ds| ensures DesktopLinked(root, after, ds[i]) {
          if i > 0 {
            assert ds[i] == rest[i - 1];
          }
        }
      }
    }

    /**
     * The `Exec=` checks come before anything in `usr/bin` is touched: a
     * failed step adds or changes nothing there, and removes an entry there
     * only once the desktop file was read and its binary found.
     */
    lemma FailedStepSparesBin(fs: FS, d: seq<string>, parse: EntryParser, split: Splitter)
      requires Plain(context.installRoot)
      requires DesktopStep(fs, d, parse, split).outcome.Fail?
      ensures AddsNothingUnder(context.installRoot + BinLocation, fs, DesktopStep(fs, d, parse, split).fs)
      ensures var dst := context.installRoot + DesktopFilesLocation + [Name(d)];
        var linked := RelinkRun(fs, context.installRoot, d, dst).fs;
        forall k :: k in fs && IsPrefix(context.installRoot + BinLocation, k) && k !in DesktopStep(fs, d, parse, split).fs ==>
          ReadEntry(linked, dst, parse).Ok? &&
          ExecBinary(linked, InstallPath(), ReadEntry(linked, dst, parse).value.exec, split).Ok?
    {
      var root := context.installRoot;
      var dst := root + DesktopFilesLocation + [Name(d)];
      var bindir := root + BinLocation;
      DesktopLinkOutsideBin(root, Name(d));
      RelinkResult(fs, root, d, dst);
      var linked := RelinkRun(fs, root, d, dst);
      var after := DesktopStep(fs, d, parse, split).fs;
      if linked.outcome == Pass {
        var entry := ReadEntry(linked.fs, dst, parse);
        if entry.Ok? {
          var bin := ExecBinary(linked.fs, InstallPath(), entry.value.exec, split);
          if bin.Ok? {
            RelinkResult(linked.fs, root, BinarySource(bin.value), BinaryLink(bin.value));
          }
        }
        assert forall k :: IsPrefix(bindir, k) ==> k != Key(dst);
      }
    }

    /**
     * What the older `copy_data_to_usr` leaves once its directories exist in
     * `fs`: every desktop file the loop handled is linked from the install
     * root's applications directory, and every icon deployed is mirrored by a
     * link back to it, in the final state `after`.
     */
    ghost predicate FilesLinked(fs: FS, parse: EntryParser, split: Splitter, listing: Listing, after: FS) {
      var root := context.installRoot;
      var ds := listing(FindDesktopFiles(fs));
      var desktop := DesktopLoopRun(fs, ds, parse, split).fs;
      var icons := listing(DottedBelow(desktop, InstallPath() + IconsLocation));
      (forall i :: 0 <= i < |ds| ==> DesktopLinked(root, after, ds[i])) &&
      (forall x :: x in Deployed(desktop, root, InstallPath(), icons, None) ==> MirroredAt(root, InstallPath(), after, x))
    }

    /** The desktop loop and the icon deployment, when they pass, leave their files linked. */
    lemma FilesResult(fs: FS, parse: EntryParser, split: Splitter, listing: Listing)
      requires ResolvedKeys(fs) && Plain(context.installRoot) && Plain(InstallPath()) && ListsFound(listing) && PlainWords(split)
      requires FilesRun(fs, parse, split, listing).outcome == Pass
      ensures FilesLinked(fs, parse, split, listing, FilesRun(fs, parse, split, listing).fs)
    {
      var ds := listing(FindDesktopFiles(fs));
      var desktop := DesktopLoopRun(fs, ds, parse, split).fs;
      forall i | 0 <= i < |ds| ensures InDesktopDir(ds[i]) {
        assert ds[i] in ds;
        DesktopFound(fs, ds[i]);
      }
      DesktopLoopLinks(fs, ds, parse, split);
      IconPhase(context.installRoot, InstallPath(), listing, desktop);
      LinksKept(context.installRoot, desktop, FilesRun(fs, parse, split, listing).fs, ds);
    }

    /**
     * A successful older `copy_data_to_usr` leaves its files linked, as
     * FilesLinked states, from the state after its two `makedirs`.
     */
    lemma DataResult(fs: FS, parse: EntryParser, split: Splitter, listing: Listing)
      requires ResolvedKeys(fs) && Plain(context.installRoot) && Plain(InstallPath()) && ListsFound(listing) && PlainWords(split)
      requires DataRun(fs, parse, split, listing).outcome == Pass
      ensures var root := context.installRoot;
        var f2 := AfterMakeDirs(AfterMakeDirs(fs, root + DesktopFilesLocation).value, root + BinLocation).value;
        FilesLinked(f2, parse, split, listing, DataRun(fs, parse, split, listing).fs)
    {
      var root := context.installRoot;
      var f1 := AfterMakeDirs(fs, root + DesktopFilesLocation).value;
      var f2 := AfterMakeDirs(f1, root + BinLocation).value;
      MakeDirsFrame(fs, root + DesktopFilesLocation);
      GrowsResolved(fs, f1, root + DesktopFilesLocation);
      MakeDirsFrame(f1, root + BinLocation);
      GrowsResolved(f1, f2, root + BinLocation);
      FilesResult(f2, parse, split, listing);
    }

    method CopyDataToUsr(host: Host, parse: EntryParser, split: Splitter, listing: Listing) returns (r: Outcome)
      modifies host
      ensures Run(host.nodes, r) == DataRun(old(host.nodes), parse, split, listing)
    {
      var root := context.installRoot;
      r := host.MakeDirs(root + DesktopFilesLocation);
      if r.Fail? {
        return;
      }
      r := host.MakeDirs(root + BinLocation);
      if r.Fail? {
        return;
      }
      r := InstallDesktopFiles(host, listing(FindDesktopFiles(host.nodes)), parse, split);
      if r.Fail? {
        return;
      }
      var icons := listing(DottedBelow(host.nodes, InstallPath() + IconsLocation));
      r := DeployEach(host, root, InstallPath(), icons, None);
    }

    /** The desktop-file loop of `copy_data_to_usr`. */
    method InstallDesktopFiles(host: Host, ds: seq<seq<string>>, parse: EntryParser, split: Splitter) returns (r: Outcome)
      modifies host
      ensures Run(host.nodes, r) == DesktopLoopRun(old(host.nodes), ds, parse, split)
    {
      ghost var whole := DesktopLoopRun(host.nodes, ds, parse, split);
      var i := 0;
      while i < |ds|
        invariant 0 <= i <= |ds|
        invariant DesktopLoopRun(host.nodes, ds[i..], parse, split) == whole
      {
        assert ds[i..][0] == ds[i] && ds[i..][1..] == ds[i + 1..];
        r := InstallDesktopFile(host, ds[i], parse, split);
        if r.Fail? {
          return;
        }
        i := i + 1;
      }
      r := Pass;
    }

    /** The body of the desktop-file loop. */
    method InstallDesktopFile(host: Host, d: seq<string>, parse: EntryParser, split: Splitter) returns (r: Outcome)
      modifies host
      ensures Run(host.nodes, r) == DesktopStep(old(host.nodes), d, parse, split)
    {
      var root := context.installRoot;
      var dst := root + DesktopFilesLocation + [Name(d)];
      r := CreateRelativeSymlink(host, root, d, dst);
      if r.Fail? {
        return;
      }
      var entry := ReadEntry(host.nodes, dst, parse);
      if entry.Err? {
        return Fail(entry.error);
      }
      var bin := ExecBinary(host.nodes, InstallPath(), entry.value.exec, split);
      if bin.Err? {
        return Fail(bin.error);
      }
      r := CreateRelativeSymlink(host, root, BinarySource(bin.value), BinaryLink(bin.value));
    }

    /** `copy_appdir_contents`: remove an existing copy, then copy the AppDir with its symlinks. */
    method CopyAppDirContents(host: Host) returns (r: Outcome)
      modifies host
      ensures Run(host.nodes, r) == CopyRun(old(host.nodes), appdir.path, InstallPath())
    {
      if Exists(host.nodes, InstallPath()) {
        r := host.RmTree(InstallPath());
        if r.Fail? {
          return;
        }
      }
      r := host.CopyTree(appdir.path, InstallPath());
    }
  }
}
