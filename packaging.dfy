/**
 * The packager base class: a packager stages a copy of the AppDir under the
 * install root at `/opt/<package_name>.AppDir`, then merges the AppDir's desktop
 * files, launchers, icons, MIME and cloud-provider files into the system-wide
 * locations next to it, and records the installed path in `linuxdeploy.conf`.
 *
 * Every operation is a function from the filesystem before it to a `Run`: the
 * filesystem after it and how it ended.  A failing call leaves the effects of
 * the calls before it in place, as the source does.  The imperative methods
 * make the same calls one after another on a `Host` and are proved to end in
 * the state and outcome the functions describe.
 */
module Packaging {
  import opened Wrappers
  import opened Paths
  import opened FileSystem
  import opened AppDirs
  import Text
  import Shell
  import Meta

  /** The directories of one packaging run: the install root the package is staged in, a scratch directory, the output directory. */
  datatype Context = Context(installRoot: seq<string>, workDir: seq<string>, outDir: seq<string>)

  /** The order in which a glob yields the paths it found (directory order). */
  type Listing = set<seq<string>> -> seq<seq<string>>

  /** `xs` lists the elements of `s`, each once. */
  predicate Enumerates(xs: seq<seq<string>>, s: set<seq<string>>) {
    (forall x :: x in xs ==> x in s) && (forall x :: x in s ==> x in xs) &&
    (forall i, j :: 0 <= i < j < |xs| ==> xs[i] != xs[j])
  }

  /** `shlex.split`: the words, or the ValueError it raises ("No closing quotation", "No escaped character"). */
  type Splitter = string -> Result<seq<string>>

  const BinLocation: seq<string> := ["usr", "bin"]

  const ExecNotSet: string := "Exec= entry not set"
  const MissingBinary: string := "binary Exec= entry points to non-existing binary in AppDir/usr/bin/"

  /**
   * The name `create_package` gives the package: `out` without a trailing
   * `ext`, then `_<arch>` when the architecture is set and not empty, then `ext`.
   */
  function OutputName(out: string, ext: string, arch: Option<string>): (r: string)
    ensures Text.EndsWith(r, ext)
    ensures arch.Some? && arch.value != "" ==> r == Text.RemoveSuffix(out, ext) + "_" + arch.value + ext
    ensures !(arch.Some? && arch.value != "") ==> r == Text.RemoveSuffix(out, ext) + ext
  {
    var stem := Text.RemoveSuffix(out, ext);
    var named := if arch.Some? && arch.value != "" then stem + "_" + arch.value else stem;
    assert (named + ext)[|named + ext| - |ext|..] == ext;
    named + ext
  }

  /** Without an architecture the name is settled after one pass: naming it again changes nothing. */
  lemma OutputNameIdempotent(out: string, ext: string)
    ensures OutputName(OutputName(out, ext, None), ext, None) == OutputName(out, ext, None)
  {
    var once := OutputName(out, ext, None);
    assert Text.RemoveSuffix(once, ext) + ext == once;
  }

  /** A name that already ends in `ext` is kept when no architecture is set. */
  lemma OutputNameKeepsExtension(out: string, ext: string)
    requires Text.EndsWith(out, ext)
    ensures OutputName(out, ext, None) == out
  {
  }

  // ---------------------------------------------------------------------------
  // Construction.

  /** A value the constructor asserts: KeyError when it is missing, AssertionError when it is empty. */
  function Required(meta: Meta.MetaInfo, key: string): (r: Result<string>)
    reads meta
    ensures r.Ok? <==> meta.Lookup(key).Ok? && meta.Lookup(key).value != ""
    ensures r.Ok? ==> r.value == meta.Lookup(key).value
    ensures meta.Lookup(key).Err? ==> r == Err(meta.Lookup(key).error)
    ensures meta.Lookup(key) == Ok("") ==> r == Err(AssertionError)
  {
    match meta.Lookup(key)
    case Err(e) => Err(e)
    case Ok(v) => if v == "" then Err(AssertionError) else Ok(v)
  }

  datatype Packager = Packager(appdir: AppDir, meta: Meta.MetaInfo, context: Context, packageName: string) {
    /** `appdir_installed_path`: `/opt/<package_name>.AppDir`, as components. */
    function Installed(): seq<string> {
      Parse("/opt/" + packageName + ".AppDir").parts
    }

    /** `appdir_install_path`: the installed path without its leading `/`, joined to the install root. */
    function InstallPath(): (r: seq<string>)
      ensures r == context.installRoot + Installed()
    {
      InstalledJoin(context.installRoot, packageName);
      JoinStr(context.installRoot, Text.LStrip(ToString(Installed()), '/'))
    }

    /** `find_desktop_files`: the `*.desktop` entries directly in the applications directory of the AppDir copy. */
    function FindDesktopFiles(fs: FS): (r: set<seq<string>>)
      ensures forall d :: d in r <==>
        d in Children(fs, InstallPath() + DesktopFilesLocation) && MatchesDesktopGlob(Name(d))
    {
      DesktopFilesIn(fs, InstallPath() + DesktopFilesLocation)
    }

    /**
     * `find_icons(prefix)` on a filesystem that does not change meanwhile: the
     * regular files with a dot in their name at any depth below the icons
     * directory of the AppDir copy, hidden ones included, whose name starts
     * with `prefix` when one is given.
     */
    function FindIcons(fs: FS, prefix: Option<string>): (r: set<seq<string>>)
      ensures forall x :: x in r <==>
        x in Below(fs, InstallPath() + IconsLocation, true) && '.' in Name(x) && IsFile(fs, x) &&
        (prefix.Some? ==> Text.StartsWith(Name(x), prefix.value))
    {
      set x | x in DottedBelow(fs, InstallPath() + IconsLocation) && Yields(fs, x, prefix)
    }

    /** `find_mime_files`, likewise below the MIME directory. */
    function FindMimeFiles(fs: FS): (r: set<seq<string>>)
      ensures forall x :: x in r <==>
        x in Below(fs, InstallPath() + MimeFilesLocation, true) && '.' in Name(x) && IsFile(fs, x)
    {
      set x | x in DottedBelow(fs, InstallPath() + MimeFilesLocation) && Yields(fs, x, None)
    }

    /** `find_cloudproviders_files`, likewise below the cloud-providers directory. */
    function FindCloudProvidersFiles(fs: FS): (r: set<seq<string>>)
      ensures forall x :: x in r <==>
        x in Below(fs, InstallPath() + CloudProvidersLocation, true) && '.' in Name(x) && IsFile(fs, x)
    {
      set x | x in DottedBelow(fs, InstallPath() + CloudProvidersLocation) && Yields(fs, x, None)
    }
  }

  /** The components of `/opt/<x>`. */
  lemma ParseOpt(x: string)
    ensures Parse("/opt/" + x).parts == ["opt"] + KeepProper(Text.Split(x, '/'))
  {
    var rest := Text.Split(x, '/');
    assert "/opt/" + x == "" + "/" + ("opt" + "/" + x);
    Text.SplitCons("", '/', "opt" + "/" + x);
    Text.SplitCons("opt", '/', x);
    var pieces := Text.Split("/opt/" + x, '/');
    assert pieces == [""] + (["opt"] + rest);
    assert pieces[1..] == ["opt"] + rest;
    assert (["opt"] + rest)[1..] == rest;
    assert KeepProper(pieces) == KeepProper(["opt"] + rest);
    assert KeepProper(["opt"] + rest) == ["opt"] + KeepProper(rest);
  }

  /** Stripping the leading `/` of the installed path and joining it to `root` appends its components. */
  lemma InstalledJoin(root: seq<string>, name: string)
    ensures JoinStr(root, Text.LStrip(ToString(Parse("/opt/" + name + ".AppDir").parts), '/'))
      == root + Parse("/opt/" + name + ".AppDir").parts
  {
    var x := name + ".AppDir";
    assert "/opt/" + name + ".AppDir" == "/opt/" + x;
    ParseOpt(x);
    var rest := Text.Split(x, '/');
    var k := KeepProper(rest);
    var installed := Parse("/opt/" + x).parts;
    assert installed == ["opt"] + k;
    var joined := Text.Join(installed, "/");
    Text.JoinHead(installed, "/");
    assert joined[0] == 'o';
    assert ("/" + joined)[1..] == joined;
    assert Text.LStrip(ToString(installed), '/') == joined;
    assert forall i :: 0 <= i < |installed| ==> '/' !in installed[i] by {
      forall i | 0 <= i < |installed| ensures '/' !in installed[i] {
        if i > 0 { assert installed[i] == k[i - 1]; assert k[i - 1] in rest; }
      }
    }
    Text.SplitJoin(installed, '/');
    KeepProperIdentity(installed);
    assert !Text.StartsWith(joined, "/");
  }

  /** For a name without `/`, the installed path is `/opt/<name>.AppDir`. */
  lemma InstalledSimple(p: Packager)
    requires '/' !in p.packageName
    ensures p.Installed() == ["opt", p.packageName + ".AppDir"]
    ensures p.InstallPath() == p.context.installRoot + ["opt", p.packageName + ".AppDir"]
  {
    var x := p.packageName + ".AppDir";
    assert "/opt/" + p.packageName + ".AppDir" == "/opt/" + x;
    ParseOpt(x);
    assert '/' !in x by { assert forall c :: c in x ==> c in p.packageName || c in ".AppDir"; }
    Text.SplitNoSep(x, '/');
    assert x != "" && x != "." by { assert |x| >= 7; }
    assert KeepProper([x]) == [x] + KeepProper([]);
  }

  /**
   * The constructor: `package_name`, `version` and `filename_prefix` must be
   * set and non-empty, checked in that order.
   */
  function NewPackager(appdir: AppDir, meta: Meta.MetaInfo, context: Context): (r: Result<Packager>)
    reads meta
    ensures r.Ok? <==>
      Required(meta, "package_name").Ok? && Required(meta, "version").Ok? && Required(meta, "filename_prefix").Ok?
    ensures r.Ok? ==> r.value == Packager(appdir, meta, context, meta.Lookup("package_name").value)
    ensures r.Ok? ==> r.value.packageName != ""
    ensures Required(meta, "package_name").Err? ==> r == Err(Required(meta, "package_name").error)
    ensures Required(meta, "package_name").Ok? && Required(meta, "version").Err? ==>
      r == Err(Required(meta, "version").error)
  {
    var name :- Required(meta, "package_name");
    var _ :- Required(meta, "version");
    var _ :- Required(meta, "filename_prefix");
    Ok(Packager(appdir, meta, context, name))
  }

  // ---------------------------------------------------------------------------
  // Finding files.

  /** The recursive glob of `*.*` below `dir`, hidden entries included: every path below `dir` whose name has a dot. */
  function DottedBelow(fs: FS, dir: seq<string>): (r: set<seq<string>>)
    ensures forall x :: x in r <==> x in Below(fs, dir, true) && '.' in Name(x)
  {
    set x | x in Below(fs, dir, true) && '.' in Name(x)
  }

  /** The filter the generators apply to a globbed path when it is reached: a regular file, with the prefix. */
  predicate Yields(fs: FS, x: seq<string>, prefix: Option<string>) {
    IsFile(fs, x) && (prefix.Some? ==> Text.StartsWith(Name(x), prefix.value))
  }

  // ---------------------------------------------------------------------------
  // The launcher script.

  /** The lines `create_binary_script` joins; the two comment literals of one list element make one line. */
  function LauncherLines(installed: string, target: string): seq<string> {
    PreambleLines(installed) + HookLines + ExecLines(target)
  }

  /** The shebang, `set -e`, and `this_dir` and `APPDIR` set to the installed path. */
  function PreambleLines(installed: string): seq<string> {
    [ "#! /bin/sh",
      "",
      "set -e",
      "",
      "# might be used by some AppRun " + "scripts, e.g., craft runenv hook",
      "# shellcheck disable=SC2034",
      "this_dir=" + Shell.Quote(installed),
      "",
      "# might be used by some other scripts, " + "generally a good idea to set it",
      "APPDIR=\"$this_dir\"",
      "export APPDIR",
      ""
    ]
  }

  /** The part of the launcher that sources every regular file in `$APPDIR/apprun-hooks`. */
  const HookLines: seq<string> := [
    "script_dir=\"$APPDIR/apprun-hooks\"",
    "if [ -d \"$script_dir\" ]; then",
    "    for script in \"$script_dir\"/*; do",
    MergedComment,
    "        [ ! -f \"$script\" ] && continue",
    "",
    "        # shellcheck disable=SC1090",
    "        . \"$script\"",
    "    done",
    "fi"
  ]

  /** Two comment literals that the missing comma between them makes one line. */
  const MergedComment: string :=
    "        # some plugins put non-script " + "files in the directory" +
    "        # we do our best to avoid " + "running them by accident"

  /** The `exec` of the target with all arguments, and the empty last line. */
  function ExecLines(target: string): seq<string> {
    ["", "exec " + Shell.Quote(target) + " \"$@\"", ""]
  }

  /** The launcher's text: its lines joined by line breaks. */
  function LauncherText(installed: string, target: string): string {
    Text.Join(LauncherLines(installed, target), "\n")
  }

  predicate NoBreaks(lines: seq<string>) {
    forall k :: 0 <= k < |lines| ==> '\n' !in lines[k]
  }

  lemma ConcatNoBreak(a: string, b: string)
    requires '\n' !in a && '\n' !in b
    ensures '\n' !in a + b
  {
    forall i | 0 <= i < |a + b| ensures (a + b)[i] != '\n' {
      if i >= |a| { assert (a + b)[i] == b[i - |a|]; }
    }
  }

  lemma PreambleNoBreaks(installed: string)
    requires '\n' !in installed
    ensures NoBreaks(PreambleLines(installed))
  {
    var pre := PreambleLines(installed);
    Shell.QuoteNoNewline(installed);
    ConcatNoBreak("this_dir=", Shell.Quote(installed));
    ConcatNoBreak("# might be used by some AppRun ", "scripts, e.g., craft runenv hook");
    ConcatNoBreak("# might be used by some other scripts, ", "generally a good idea to set it");
    assert '\n' !in pre[0];
    assert '\n' !in pre[2];
    assert '\n' !in pre[5];
    assert '\n' !in pre[9];
    assert '\n' !in pre[10];
  }

  lemma HookNoBreaks()
    ensures NoBreaks(HookLines)
  {
    MergedCommentNoBreak();
    assert HookLines[3] == MergedComment;
    assert '\n' !in HookLines[0];
    assert '\n' !in HookLines[1];
    assert '\n' !in HookLines[2];
    assert '\n' !in HookLines[4];
    assert '\n' !in HookLines[6];
    assert '\n' !in HookLines[7];
    assert '\n' !in HookLines[8];
    assert '\n' !in HookLines[9];
  }

  lemma MergedCommentNoBreak()
    ensures '\n' !in MergedComment
  {
    var a := "        # some plugins put non-script ";
    var b := "files in the directory";
    var c := "        # we do our best to avoid ";
    var d := "running them by accident";
    ConcatNoBreak(a, b);
    ConcatNoBreak(a + b, c);
    ConcatNoBreak(a + b + c, d);
  }

  lemma ExecNoBreaks(target: string)
    requires '\n' !in target
    ensures NoBreaks(ExecLines(target))
  {
    Shell.QuoteNoNewline(target);
    ConcatNoBreak("exec ", Shell.Quote(target));
    ConcatNoBreak("exec " + Shell.Quote(target), " \"$@\"");
  }

  /**
   * Read line by line, the launcher starts with `#! /bin/sh` and `set -e`,
   * sets `this_dir` to a word the shell reads as the installed path, exports
   * it as `APPDIR`, sources the hooks, and ends by exec-ing a word the shell
   * reads as the target with all arguments, then a final line break.
   */
  lemma LauncherReads(installed: string, target: string)
    requires '\n' !in installed && '\n' !in target
    ensures Text.Split(LauncherText(installed, target), '\n') == LauncherLines(installed, target)
    ensures LauncherShape(LauncherLines(installed, target), installed, target)
  {
    LauncherNoBreaks(installed, target);
    Text.SplitJoin(LauncherLines(installed, target), '\n');
    LauncherHasShape(installed, target);
  }

  /** The lines of a launcher for `installed` and `target`, as the shell reads them. */
  predicate LauncherShape(lines: seq<string>, installed: string, target: string) {
    |lines| == 25 && lines[0] == "#! /bin/sh" && lines[2] == "set -e" &&
    Text.StartsWith(lines[6], "this_dir=") && Shell.Unquote(lines[6][9..]) == Some(installed) &&
    lines[9] == "APPDIR=\"$this_dir\"" && lines[10] == "export APPDIR" &&
    lines[12..22] == HookLines &&
    |lines[23]| > 10 && Text.StartsWith(lines[23], "exec ") && Text.EndsWith(lines[23], " \"$@\"") &&
    Shell.Unquote(lines[23][5..|lines[23]| - 5]) == Some(target) &&
    lines[24] == ""
  }

  lemma LauncherHasShape(installed: string, target: string)
    ensures LauncherShape(LauncherLines(installed, target), installed, target)
  {
    var lines := LauncherLines(installed, target);
    var pre, post := PreambleLines(installed), ExecLines(target);
    assert lines[..12] == pre && lines[12..22] == HookLines && lines[22..] == post;
    assert lines[6] == pre[6] && lines[23] == post[1];
    assert pre[6][9..] == Shell.Quote(installed);
    assert post[1][5..|post[1]| - 5] == Shell.Quote(target);
    Shell.QuoteRoundTrip(installed);
    Shell.QuoteRoundTrip(target);
  }

  lemma LauncherNoBreaks(installed: string, target: string)
    requires '\n' !in installed && '\n' !in target
    ensures NoBreaks(LauncherLines(installed, target))
  {
    var pre, post := PreambleLines(installed), ExecLines(target);
    var lines := LauncherLines(installed, target);
    PreambleNoBreaks(installed);
    ExecNoBreaks(target);
    HookNoBreaks();
    forall k | 0 <= k < |lines| ensures '\n' !in lines[k] {
      if k < 12 { assert lines[k] == pre[k]; }
      else if k < 22 { assert lines[k] == HookLines[k - 12]; }
      else { assert lines[k] == post[k - 22]; }
    }
  }

  // ---------------------------------------------------------------------------
  // The steps of `copy_data_to_usr`.

  /** `create_relative_symlink(src, dst)`: the relative target, then `dst.unlink(missing_ok=True)`, then `os.symlink`. */
  function RelinkRun(fs: FS, root: seq<string>, src: seq<string>, dst: seq<string>): Run {
    match RelativeSymlinkTarget(root, src, dst)
    case Err(e) => Run(fs, Fail(e))
    case Ok(target) =>
      match AfterUnlink(fs, dst, true)
      case Err(e) => Run(fs, Fail(e))
      case Ok(f) => Atomic(f, AfterSymlink(f, LinkTarget(false, target), dst))
  }

  /** `create_binary_script`: write the launcher, then add the three execute bits to its mode. */
  function ScriptRun(fs: FS, script: seq<string>, installed: string, target: string): Run {
    WriteExecutableRun(fs, script, LauncherText(installed, target))
  }

  /** Write `text` to `p`, then add the execute bits to the mode `p` has afterwards. */
  function WriteExecutableRun(fs: FS, p: seq<string>, text: string): Run {
    match AfterWriteText(fs, p, text)
    case Err(e) => Run(fs, Fail(e))
    case Ok(f) =>
      match ModeOf(f, p)
      case Err(e) => Run(f, Fail(e))
      case Ok(m) => Atomic(f, AfterChmod(f, p, m | ExecBits))
  }

  /** `deploy_file_as_is(path)`: a link at the path's place relative to the AppDir copy, below the install root. */
  function DeployRun(fs: FS, root: seq<string>, install: seq<string>, path: seq<string>): Run {
    match RelativeTo(path, install)
    case Err(e) => Run(fs, Fail(e))
    case Ok(rel) =>
      match AfterMakeDirs(fs, Parent(root + rel))
      case Err(e) => Run(fs, Fail(e))
      case Ok(f) => RelinkRun(f, root, path, root + rel)
  }

  /** A loop over globbed paths that deploys each one the generator yields when it is reached. */
  function DeployEachRun(fs: FS, root: seq<string>, install: seq<string>, paths: seq<seq<string>>, prefix: Option<string>): Run
    decreases |paths|
  {
    if paths == [] then Run(fs, Pass)
    else
      var first := if Yields(fs, paths[0], prefix) then DeployRun(fs, root, install, paths[0]) else Run(fs, Pass);
      if first.outcome.Fail? then first
      else DeployEachRun(first.fs, root, install, paths[1..], prefix)
  }

  /**
   * The Exec= checks: ValueError for an empty entry, the ValueError
   * `shlex.split` raises, IndexError when it finds no word, ValueError when the
   * first word names nothing in the AppDir copy's `usr/bin`.
   */
  function ExecBinary(fs: FS, install: seq<string>, exec: string, split: Splitter): (r: Result<string>)
    ensures r.Ok? <==>
      exec != "" && split(exec).Ok? && |split(exec).value| > 0 &&
      Exists(fs, JoinStr(install + BinLocation, split(exec).value[0]))
    ensures r.Ok? ==> r.value == split(exec).value[0]
    ensures exec == "" ==> r == Err(ValueError(ExecNotSet))
    ensures exec != "" && split(exec).Err? ==> r == Err(split(exec).error)
    ensures (exec != "" && split(exec).Ok? && |split(exec).value| > 0 &&
      !Exists(fs, JoinStr(install + BinLocation, split(exec).value[0]))) ==> r == Err(ValueError(MissingBinary))
  {
    if exec == "" then Err(ValueError(ExecNotSet))
    else
      match split(exec)
      case Err(e) => Err(e)
      case Ok(words) =>
        if |words| == 0 then Err(IndexError)
        else if !Exists(fs, JoinStr(install + BinLocation, words[0])) then Err(ValueError(MissingBinary))
        else Ok(words[0])
  }

  /**
   * One desktop file: link it into the applications directory, read the link,
   * deploy its icons, check its Exec=, write the launcher for its binary.
   */
  function DesktopStep(p: Packager, fs: FS, d: seq<string>, parse: EntryParser, split: Splitter, listing: Listing): Run {
    var root := p.context.installRoot;
    var dst := root + DesktopFilesLocation + [Name(d)];
    var linked := RelinkRun(fs, root, d, dst);
    if linked.outcome.Fail? then linked
    else EntryStep(p, linked.fs, dst, parse, split, listing)
  }

  /** The rest of a desktop file's step, once it is linked at `dst`: read it, deploy its icons, then its launcher. */
  function EntryStep(p: Packager, fs: FS, dst: seq<string>, parse: EntryParser, split: Splitter, listing: Listing): Run {
    match ReadEntry(fs, dst, parse)
    case Err(e) => Run(fs, Fail(e))
    case Ok(entry) =>
      var icons := IconsRun(p, fs, entry.icon, listing);
      if icons.outcome.Fail? then icons
      else LaunchStep(p, icons.fs, entry.exec, split)
  }

  /** `deploy_file_as_is` for every icon of the AppDir copy whose name starts with `<icon>.`. */
  function IconsRun(p: Packager, fs: FS, icon: string, listing: Listing): Run {
    DeployEachRun(fs, p.context.installRoot, p.InstallPath(),
      listing(DottedBelow(fs, p.InstallPath() + IconsLocation)), Some(icon + "."))
  }

  /** The `Exec=` checks, then the launcher in the install root's `usr/bin`. */
  function LaunchStep(p: Packager, fs: FS, exec: string, split: Splitter): Run {
    match ExecBinary(fs, p.InstallPath(), exec, split)
    case Err(e) => Run(fs, Fail(e))
    case Ok(bin) =>
      ScriptRun(fs, JoinStr(p.context.installRoot + BinLocation, bin),
        ToString(p.Installed()), ToString(JoinStr(p.Installed() + BinLocation, bin)))
  }

  /** The loop over the desktop files. */
  function DesktopLoopRun(p: Packager, fs: FS, ds: seq<seq<string>>, parse: EntryParser, split: Splitter, listing: Listing): Run
    decreases |ds|
  {
    if ds == [] then Run(fs, Pass)
    else
      var first := DesktopStep(p, fs, ds[0], parse, split, listing);
      if first.outcome.Fail? then first
      else DesktopLoopRun(p, first.fs, ds[1..], parse, split, listing)
  }

  /**
   * `copy_data_to_usr`: create the applications and `usr/bin` directories
   * under the install root, handle every desktop file, then deploy the MIME and
   * the cloud-provider files as they are.
   */
  function DataRun(p: Packager, fs: FS, parse: EntryParser, split: Splitter, listing: Listing): Run {
    var root := p.context.installRoot;
    match AfterMakeDirs(fs, root + DesktopFilesLocation)
    case Err(e) => Run(fs, Fail(e))
    case Ok(f1) =>
      match AfterMakeDirs(f1, root + BinLocation)
      case Err(e) => Run(f1, Fail(e))
      case Ok(f2) =>
        FilesRun(p, f2, parse, split, listing)
  }

  /** Once both directories exist: the desktop loop, then the shared files. */
  function FilesRun(p: Packager, fs: FS, parse: EntryParser, split: Splitter, listing: Listing): Run {
    var desktop := DesktopLoopRun(p, fs, listing(p.FindDesktopFiles(fs)), parse, split, listing);
    if desktop.outcome.Fail? then desktop else ShareRun(p.context.installRoot, p.InstallPath(), desktop.fs, listing)
  }

  /** The MIME files of the copy are deployed, then its cloud-provider files. */
  function ShareRun(root: seq<string>, install: seq<string>, fs: FS, listing: Listing): Run {
    var mime := DeployEachRun(fs, root, install, listing(DottedBelow(fs, install + MimeFilesLocation)), None);
    if mime.outcome.Fail? then mime
    else DeployEachRun(mime.fs, root, install, listing(DottedBelow(mime.fs, install + CloudProvidersLocation)), None)
  }

  // ---------------------------------------------------------------------------
  // Copying the AppDir and writing `linuxdeploy.conf`.

  /** `copy_appdir_contents`: remove an existing copy, then copy the AppDir with its symlinks. */
  function CopyRun(fs: FS, src: seq<string>, install: seq<string>): Run {
    var cleared := if Exists(fs, install) then AfterRmTree(fs, install) else Ok(fs);
    match cleared
    case Err(e) => Run(fs, Fail(e))
    case Ok(f) => Atomic(f, AfterCopyTree(f, src, install))
  }

  /** An INI file as `configparser` holds it: sections of keys. */
  type Config = map<string, map<string, string>>

  /** `ConfigParser.read_file`; None where it raises. */
  type ConfigReader = string -> Option<Config>

  /** `ConfigParser.write`. */
  type ConfigWriter = Config -> string

  const ConfSection: string := "native_packages"
  const ConfKey: string := "appdir_installed_path"

  function ConfPath(p: Packager): seq<string> {
    p.InstallPath() + BinLocation + ["linuxdeploy.conf"]
  }

  /** The configuration read from `path`: empty when the file is missing, ParsingError when it does not parse. */
  function ReadConfig(fs: FS, path: seq<string>, read: ConfigReader): (r: Result<Config>)
    ensures !Exists(fs, path) && ReadText(fs, path) == Err(OSError(NotFound, path)) ==> r == Ok(map[])
    ensures IsFile(fs, path) ==>
      r == (if read(ReadText(fs, path).value).Some? then Ok(read(ReadText(fs, path).value).value) else Err(ParsingError(path)))
  {
    match ReadText(fs, path)
    case Err(e) => if e.OSError? && e.reason == NotFound then Ok(map[]) else Err(e)
    case Ok(text) =>
      match read(text)
      case None => Err(ParsingError(path))
      case Some(c) => Ok(c)
  }

  /** `config["native_packages"] = {...}`: that section holds exactly the installed path; every other section is kept. */
  function MergeConf(config: Config, installed: string): (r: Config)
    ensures ConfSection in r && r[ConfSection] == map[ConfKey := installed]
    ensures |r[ConfSection]| == 1
    ensures forall s :: s != ConfSection ==> (s in r <==> s in config)
    ensures forall s :: s != ConfSection && s in config ==> r[s] == config[s]
  {
    config[ConfSection := map[ConfKey := installed]]
  }

  /** `write_ldnp_conf`. */
  function ConfRun(p: Packager, fs: FS, read: ConfigReader, write: ConfigWriter): Run {
    var path := ConfPath(p);
    match ReadConfig(fs, path, read)
    case Err(e) => Run(fs, Fail(e))
    case Ok(config) => Atomic(fs, AfterWriteText(fs, path, write(MergeConf(config, ToString(p.Installed())))))
  }

  // ---------------------------------------------------------------------------
  // What the steps do.

  /**
   * `create_relative_symlink` succeeds exactly when both paths lie under the
   * root, no directory sits at `dst` and `dst`'s directory exists; it then
   * replaces the entry at `dst` by the link and changes nothing else.  The link
   * leads back to `src`.
   */
  lemma RelinkResult(fs: FS, root: seq<string>, src: seq<string>, dst: seq<string>)
    ensures RelinkRun(fs, root, src, dst).outcome == Pass <==>
      RelativeSymlinkTarget(root, src, dst).Ok? && (Key(dst) in fs ==> !fs[Key(dst)].Dir?) &&
      IsDir(fs - {Key(dst)}, Parent(Key(dst)))
    ensures RelinkRun(fs, root, src, dst).outcome == Pass ==>
      RelinkRun(fs, root, src, dst).fs ==
        fs[Key(dst) := Symlink(LinkTarget(false, RelativeSymlinkTarget(root, src, dst).value))]
    ensures RelinkRun(fs, root, src, dst).outcome.Fail? ==>
      RelinkRun(fs, root, src, dst).fs == fs || RelinkRun(fs, root, src, dst).fs == fs - {Key(dst)}
    ensures RelinkRun(fs, root, src, dst).outcome == Pass && Resolved(src) && Resolved(dst) ==>
      LinkDestination(Key(dst), RelinkRun(fs, root, src, dst).fs[Key(dst)].target) == src
  {
    var k := Key(dst);
    if RelativeSymlinkTarget(root, src, dst).Ok? && AfterUnlink(fs, dst, true).Ok? {
      var t := RelativeSymlinkTarget(root, src, dst).value;
      assert (fs - {k})[k := Symlink(LinkTarget(false, t))] == fs[k := Symlink(LinkTarget(false, t))];
      if Resolved(src) && Resolved(dst) {
        KeyResolved(dst);
        RelativeSymlinkRoundTrip(root, src, dst);
      }
    }
  }

  /**
   * Writing an executable succeeds exactly when the text can be written; the
   * entry the path leads to then holds the text with the execute bits added
   * to its mode (0o644 for a new file), and nothing else changes.
   */
  lemma WriteExecutableResult(fs: FS, p: seq<string>, text: string)
    ensures WriteExecutableRun(fs, p, text).outcome == Pass <==> AfterWriteText(fs, p, text).Ok?
    ensures WriteExecutableRun(fs, p, text).outcome == Pass ==>
      Follow(fs, Key(p), MaxSymlinks).Ok? &&
      var q := Follow(fs, Key(p), MaxSymlinks).value;
      var before := if q in fs then fs[q].mode else NewFileMode;
      WriteExecutableRun(fs, p, text).fs == fs[q := File(|text|, (before | ExecBits) & PermissionMask, text)]
  {
    if AfterWriteText(fs, p, text).Ok? {
      var q := Follow(fs, Key(p), MaxSymlinks).value;
      var before := if q in fs then fs[q].mode else NewFileMode;
      var written := File(|text|, before, text);
      var f := AfterWriteText(fs, p, text).value;
      assert f == fs[q := written];
      FollowAfterStore(fs, Key(p), MaxSymlinks, written);
      assert Follow(f, Key(p), MaxSymlinks) == Ok(q);
      assert ModeOf(f, p) == Ok(before);
      assert AfterChmod(f, p, before | ExecBits) == Ok(f[q := File(|text|, (before | ExecBits) & PermissionMask, text)]);
      assert f[q := File(|text|, (before | ExecBits) & PermissionMask, text)]
        == fs[q := File(|text|, (before | ExecBits) & PermissionMask, text)];
    }
  }

  /** `after` differs from `before` only at `k` and in new directories along `dirs`. */
  predicate ChangesOnly(before: FS, after: FS, k: Path, dirs: seq<string>) {
    (forall x :: x in before && x != k ==> x in after && after[x] == before[x]) &&
    (forall x :: x in after && x !in before && x != k ==> after[x] == Dir(NewDirSize, NewDirMode) && OnPath(dirs, x))
  }

  /**
   * `deploy_file_as_is` mirrors a path of the AppDir copy under the install
   * root: the mirrored path becomes a link that leads back to it, missing
   * parent directories are created, and nothing else changes.
   */
  lemma DeployResult(fs: FS, root: seq<string>, install: seq<string>, path: seq<string>)
    requires DeployRun(fs, root, install, path).outcome == Pass
    ensures IsPrefix(install, path)
    ensures var dst := root + path[|install|..];
      var after := DeployRun(fs, root, install, path).fs;
      Key(dst) in after && after[Key(dst)] == Symlink(LinkTarget(false, RelativeSymlinkTarget(root, path, dst).value)) &&
      ChangesOnly(fs, after, Key(dst), Parent(dst))
    ensures Resolved(path) && Resolved(root + path[|install|..]) ==>
      var dst := root + path[|install|..];
      LinkDestination(Key(dst), DeployRun(fs, root, install, path).fs[Key(dst)].target) == path
  {
    var dst := root + path[|install|..];
    var m := AfterMakeDirs(fs, Parent(dst)).value;
    MakeDirsFrame(fs, Parent(dst));
    RelinkResult(m, root, path, dst);
  }

  /** Path `x` is the mirror of one of `paths`. */
  predicate Mirrors(root: seq<string>, install: seq<string>, paths: seq<seq<string>>, x: Path) {
    exists i :: 0 <= i < |paths| && |install| <= |paths[i]| && x == Key(root + paths[i][|install|..])
  }

  /** A mirror of either part of a joined list is a mirror of the list. */
  lemma MirrorsJoined(root: seq<string>, install: seq<string>, head: seq<seq<string>>, tail: seq<seq<string>>, x: Path)
    requires Mirrors(root, install, head, x) || Mirrors(root, install, tail, x)
    ensures Mirrors(root, install, head + tail, x)
  {
    if Mirrors(root, install, head, x) {
      var i :| 0 <= i < |head| && |install| <= |head[i]| && x == Key(root + head[i][|install|..]);
      assert (head + tail)[i] == head[i];
    } else {
      var i :| 0 <= i < |tail| && |install| <= |tail[i]| && x == Key(root + tail[i][|install|..]);
      assert (head + tail)[|head| + i] == tail[i];
    }
  }

  /** A mirror of some of the paths is a mirror of the paths. */
  lemma MirrorsListed(root: seq<string>, install: seq<string>, some: seq<seq<string>>, paths: seq<seq<string>>, x: Path)
    requires forall y :: y in some ==> y in paths
    requires Mirrors(root, install, some, x)
    ensures Mirrors(root, install, paths, x)
  {
    var i :| 0 <= i < |some| && |install| <= |some[i]| && x == Key(root + some[i][|install|..]);
    assert some[i] in some;
    var j :| 0 <= j < |paths| && paths[j] == some[i];
  }

  /** The paths a deployment loop deploys, in order: each one its generator yields when it is reached. */
  function Deployed(fs: FS, root: seq<string>, install: seq<string>, paths: seq<seq<string>>, prefix: Option<string>): (r: seq<seq<string>>)
    ensures forall x :: x in r ==> x in paths
    decreases |paths|
  {
    if paths == [] then []
    else
      var first := if Yields(fs, paths[0], prefix) then DeployRun(fs, root, install, paths[0]) else Run(fs, Pass);
      var rest := if first.outcome.Fail? then [] else Deployed(first.fs, root, install, paths[1..], prefix);
      (if Yields(fs, paths[0], prefix) then [paths[0]] else []) + rest
  }

  /** The install root mirrors `x`, a path of the AppDir copy, by a link that leads back to it. */
  predicate MirroredAt(root: seq<string>, install: seq<string>, fs: FS, x: seq<string>) {
    IsPrefix(install, x) &&
    var dst := root + x[|install|..];
    dst in fs && fs[dst].Symlink? && LinkDestination(dst, fs[dst].target) == x
  }

  /** A successful deployment loop leaves every entry alone that is not the mirror of a deployed path. */
  lemma {:induction false} DeployEachFrame(fs: FS, root: seq<string>, install: seq<string>, paths: seq<seq<string>>, prefix: Option<string>)
    requires DeployEachRun(fs, root, install, paths, prefix).outcome == Pass
    ensures forall x :: x in fs && !Mirrors(root, install, Deployed(fs, root, install, paths, prefix), x) ==>
      x in DeployEachRun(fs, root, install, paths, prefix).fs && DeployEachRun(fs, root, install, paths, prefix).fs[x] == fs[x]
    decreases |paths|
  {
    if paths != [] {
      var first := if Yields(fs, paths[0], prefix) then DeployRun(fs, root, install, paths[0]) else Run(fs, Pass);
      var head := if Yields(fs, paths[0], prefix) then [paths[0]] else [];
      var rest := Deployed(first.fs, root, install, paths[1..], prefix);
      assert Deployed(fs, root, install, paths, prefix) == head + rest;
      DeployEachFrame(first.fs, root, install, paths[1..], prefix);
      if Yields(fs, paths[0], prefix) {
        DeployResult(fs, root, install, paths[0]);
      }
      forall x | x in fs && !Mirrors(root, install, head + rest, x)
        ensures x in first.fs && first.fs[x] == fs[x] && !Mirrors(root, install, rest, x)
      {
        if Mirrors(root, install, head, x) || Mirrors(root, install, rest, x) {
          MirrorsJoined(root, install, head, rest, x);
        }
        if Yields(fs, paths[0], prefix) {
          assert head[0] == paths[0];
          assert x != Key(root + paths[0][|install|..]);
        }
      }
    }
  }

  /** Two paths of the AppDir copy with the same resolved mirror are the same path. */
  lemma MirrorInjective(root: seq<string>, install: seq<string>, x: seq<string>, y: seq<string>)
    requires Resolved(root) && Resolved(y) && IsPrefix(install, x) && IsPrefix(install, y)
    requires root + x[|install|..] == Key(root + y[|install|..])
    ensures x == y
  {
    var m := root + y[|install|..];
    assert Resolved(m) by {
      forall i | 0 <= i < |m| ensures m[i] != "" && m[i] != "." && m[i] != ".." {
        if i >= |root| {
          assert m[i] == y[|install| + i - |root|];
        }
      }
    }
    KeyResolved(m);
    assert x[|install|..] == (root + x[|install|..])[|root|..];
    assert y[|install|..] == m[|root|..];
    assert x == install + x[|install|..] && y == install + y[|install|..];
  }

  /**
   * After a successful deployment loop over resolved paths, every path it
   * deployed is mirrored under the install root by a link back to it: a later
   * path never takes an earlier one's mirror, since only the same path has the
   * same mirror.
   */
  lemma {:induction false} DeployEachResult(fs: FS, root: seq<string>, install: seq<string>, paths: seq<seq<string>>, prefix: Option<string>)
    requires DeployEachRun(fs, root, install, paths, prefix).outcome == Pass
    requires Resolved(root) && forall i :: 0 <= i < |paths| ==> Resolved(paths[i])
    ensures forall x :: x in Deployed(fs, root, install, paths, prefix) ==>
      MirroredAt(root, install, DeployEachRun(fs, root, install, paths, prefix).fs, x)
    decreases |paths|
  {
    if paths != [] {
      var p0 := paths[0];
      var first := if Yields(fs, p0, prefix) then DeployRun(fs, root, install, p0) else Run(fs, Pass);
      var rest := Deployed(first.fs, root, install, paths[1..], prefix);
      var after := DeployEachRun(first.fs, root, install, paths[1..], prefix).fs;
      forall i | 0 <= i < |paths[1..]| ensures Resolved(paths[1..][i]) {
        assert paths[1..][i] == paths[i + 1];
      }
      DeployEachResult(first.fs, root, install, paths[1..], prefix);
      if Yields(fs, p0, prefix) && p0 !in rest {
        DeployResult(fs, root, install, p0);
        var dst := root + p0[|install|..];
        assert Resolved(dst) by {
          forall i | 0 <= i < |dst| ensures dst[i] != "" && dst[i] != "." && dst[i] != ".." {
            if i >= |root| {
              assert dst[i] == p0[|install| + i - |root|];
            }
          }
        }
        KeyResolved(dst);
        DeployEachFrame(first.fs, root, install, paths[1..], prefix);
        if Mirrors(root, install, rest, dst) {
          var i :| 0 <= i < |rest| && |install| <= |rest[i]| && dst == Key(root + rest[i][|install|..]);
          assert rest[i] in rest;
          var j :| 0 <= j < |paths[1..]| && paths[1..][j] == rest[i];
          MirrorInjective(root, install, p0, rest[i]);
        }
        assert MirroredAt(root, install, after, p0);
      }
    }
  }

  /** The applications directory of the install root holds, at a desktop file's name, a link back to it. */
  predicate DesktopLinked(root: seq<string>, fs: FS, d: seq<string>) {
    var dst := root + DesktopFilesLocation + [Name(d)];
    dst in fs && fs[dst].Symlink? && LinkDestination(dst, fs[dst].target) == d
  }

  /** A glob listing yields only paths the glob found. */
  ghost predicate ListsFound(listing: Listing) {
    forall s: set<seq<string>>, x :: x in listing(s) ==> x in s
  }

  /** A resolved path directly in the applications directory of the AppDir copy. */
  predicate InDesktopDir(p: Packager, d: seq<string>) {
    Resolved(d) && |d| > 0 && Parent(d) == p.InstallPath() + DesktopFilesLocation
  }

  /** A desktop file the glob finds lies directly in the applications directory of the copy. */
  lemma DesktopFound(p: Packager, fs: FS, d: seq<string>)
    requires ResolvedKeys(fs) && Plain(p.InstallPath())
    requires d in p.FindDesktopFiles(fs)
    ensures InDesktopDir(p, d)
  {
    LocationsPlain();
    PlainConcat(p.InstallPath(), DesktopFilesLocation);
    ChildFound(fs, p.InstallPath() + DesktopFilesLocation, d);
  }

  /** A child the glob lists below a plain directory is resolved and lies directly in it. */
  lemma ChildFound(fs: FS, dir: seq<string>, d: seq<string>)
    requires ResolvedKeys(fs) && Plain(dir) && d in Children(fs, dir)
    ensures Resolved(d) && |d| > 0 && Parent(d) == dir
  {
    assert Key(dir) == dir;
    var k :| k in fs && |k| == |dir| + 1 && k[..|dir|] == dir && d == dir + [k[|dir|]];
    assert Resolved(k);
    forall i | 0 <= i < |d| ensures d[i] != "" && d[i] != "." && d[i] != ".." {
      if i < |dir| {
        assert d[i] == dir[i];
      } else {
        assert d[i] == k[|dir|];
      }
    }
    assert Parent(d) == dir;
  }

  /** Where a desktop file's link goes: a resolved path in the install root's applications directory. */
  lemma DesktopLinkPlace(p: Packager, d: seq<string>)
    requires Plain(p.InstallPath()) && InDesktopDir(p, d)
    ensures Plain(p.context.installRoot)
    ensures var dst := p.context.installRoot + DesktopFilesLocation + [Name(d)];
      Resolved(dst) && Key(dst) == dst
  {
    PlainSplit(p.context.installRoot, p.Installed());
    LinkPlace(p.context.installRoot, d);
  }

  /** The link of a resolved path in the applications directory below a plain root is resolved and its own key. */
  lemma LinkPlace(root: seq<string>, d: seq<string>)
    requires Plain(root) && Resolved(d) && |d| > 0
    ensures var dst := root + DesktopFilesLocation + [Name(d)];
      Resolved(dst) && Key(dst) == dst
  {
    var dst := root + DesktopFilesLocation + [Name(d)];
    LocationsPlain();
    assert Name(d) == d[|d| - 1];
    forall i | 0 <= i < |dst| ensures dst[i] != "" && dst[i] != "." && dst[i] != ".." {
      if i < |root| {
        assert dst[i] == root[i];
      } else if i < |root| + 3 {
        assert dst[i] == DesktopFilesLocation[i - |root|];
      }
    }
    KeyResolved(dst);
  }


  /** Every path a listing of the dotted glob below `dir` gives is a resolved path strictly below `dir`. */
  lemma ListedBelow(fs: FS, dir: seq<string>, listing: Listing)
    requires ResolvedKeys(fs) && Plain(dir) && ListsFound(listing)
    ensures forall i :: 0 <= i < |listing(DottedBelow(fs, dir))| ==>
      Resolved(listing(DottedBelow(fs, dir))[i]) && IsStrictlyBelow(dir, listing(DottedBelow(fs, dir))[i])
  {
    var paths := listing(DottedBelow(fs, dir));
    assert Key(dir) == dir;
    forall i | 0 <= i < |paths| ensures Resolved(paths[i]) && IsStrictlyBelow(dir, paths[i]) {
      var c := paths[i];
      assert c in paths;
      assert c in Below(fs, dir, true);
      var k :| k in fs && IsStrictlyBelow(dir, k) && c == dir + k[|dir|..];
      assert c == k;
    }
  }

  /** Paths strictly below `install + loc` mirror only onto paths strictly below `root + loc`. */
  lemma MirrorsBelow(root: seq<string>, install: seq<string>, loc: seq<string>, paths: seq<seq<string>>, x: Path)
    requires Resolved(root) && |loc| == 3
    requires forall i :: 0 <= i < |paths| ==> Resolved(paths[i]) && IsStrictlyBelow(install + loc, paths[i])
    requires Mirrors(root, install, paths, x)
    ensures IsStrictlyBelow(root + loc, x) && x[|root| + 2] == loc[2]
  {
    var i :| 0 <= i < |paths| && |install| <= |paths[i]| && x == Key(root + paths[i][|install|..]);
    var y := paths[i];
    var m := root + y[|install|..];
    forall j | 0 <= j < |m| ensures m[j] != "" && m[j] != "." && m[j] != ".." {
      if j >= |root| {
        assert m[j] == y[|install| + j - |root|];
      }
    }
    KeyResolved(m);
    assert y[..|install + loc|] == install + loc;
    forall j | 0 <= j < |root + loc| ensures m[j] == (root + loc)[j] {
      if j >= |root| {
        assert m[j] == y[|install| + j - |root|] == (install + loc)[|install| + j - |root|];
      }
    }
    assert m[..|root + loc|] == root + loc;
    assert m[|root| + 2] == (root + loc)[|root| + 2];
  }

  /** No icon globbed below the AppDir copy mirrors onto a desktop file's link. */
  lemma IconsMissDesktopLink(g: FS, root: seq<string>, install: seq<string>, listing: Listing, n: string)
    requires ResolvedKeys(g) && Plain(root) && Plain(install) && ListsFound(listing)
    ensures !Mirrors(root, install, listing(DottedBelow(g, install + IconsLocation)), root + DesktopFilesLocation + [n])
  {
    LocationsPlain();
    PlainConcat(install, IconsLocation);
    ListedBelow(g, install + IconsLocation, listing);
    var dst := root + DesktopFilesLocation + [n];
    assert dst[|root| + 2] == "applications";
    if Mirrors(root, install, listing(DottedBelow(g, install + IconsLocation)), dst) {
      MirrorsBelow(root, install, IconsLocation, listing(DottedBelow(g, install + IconsLocation)), dst);
    }
  }

  /**
   * A desktop file in the AppDir copy that goes through its step stays linked
   * from the applications directory: the icons deployed after the link and the
   * launcher written after them do not touch it.
   */
  lemma DesktopStepLinks(p: Packager, fs: FS, d: seq<string>, parse: EntryParser, split: Splitter, listing: Listing)
    requires ResolvedKeys(fs) && Plain(p.InstallPath()) && ListsFound(listing)
    requires InDesktopDir(p, d)
    requires DesktopStep(p, fs, d, parse, split, listing).outcome == Pass
    ensures DesktopLinked(p.context.installRoot, DesktopStep(p, fs, d, parse, split, listing).fs, d)
  {
    var root := p.context.installRoot;
    DesktopLinkPlace(p, d);
    var dst := root + DesktopFilesLocation + [Name(d)];
    RelinkResult(fs, root, d, dst);
    var linked := RelinkRun(fs, root, d, dst);
    assert linked.fs[dst].Symlink? && LinkDestination(dst, linked.fs[dst].target) == d;
    RelinkResolved(fs, root, d, dst);
    EntryStepKeepsLink(p, linked.fs, dst, parse, split, listing, Name(d));
  }

  /** A desktop file's step leaves the link of a desktop file with another name alone. */
  lemma DesktopStepKeepsLink(p: Packager, fs: FS, d: seq<string>, parse: EntryParser, split: Splitter, listing: Listing, n: string)
    requires ResolvedKeys(fs) && Plain(p.InstallPath()) && ListsFound(listing)
    requires InDesktopDir(p, d) && Name(d) != n
    requires var k := p.context.installRoot + DesktopFilesLocation + [n]; k in fs && fs[k].Symlink?
    requires DesktopStep(p, fs, d, parse, split, listing).outcome == Pass
    ensures var k := p.context.installRoot + DesktopFilesLocation + [n];
      k in DesktopStep(p, fs, d, parse, split, listing).fs && DesktopStep(p, fs, d, parse, split, listing).fs[k] == fs[k]
  {
    var root := p.context.installRoot;
    var k := root + DesktopFilesLocation + [n];
    DesktopLinkPlace(p, d);
    var dst := root + DesktopFilesLocation + [Name(d)];
    assert k != dst by {
      assert k[|k| - 1] == n && dst[|dst| - 1] == Name(d);
    }
    RelinkResult(fs, root, d, dst);
    RelinkResolved(fs, root, d, dst);
    EntryStepKeepsLink(p, RelinkRun(fs, root, d, dst).fs, dst, parse, split, listing, n);
  }

  /** Reading an entry, deploying its icons and writing its launcher leave every desktop file's link alone. */
  lemma EntryStepKeepsLink(p: Packager, fs: FS, dst: seq<string>, parse: EntryParser, split: Splitter, listing: Listing, n: string)
    requires ResolvedKeys(fs) && Plain(p.InstallPath()) && ListsFound(listing)
    requires var k := p.context.installRoot + DesktopFilesLocation + [n]; k in fs && fs[k].Symlink?
    requires EntryStep(p, fs, dst, parse, split, listing).outcome == Pass
    ensures var k := p.context.installRoot + DesktopFilesLocation + [n];
      k in EntryStep(p, fs, dst, parse, split, listing).fs && EntryStep(p, fs, dst, parse, split, listing).fs[k] == fs[k]
  {
    var root := p.context.installRoot;
    var install := p.InstallPath();
    var k := root + DesktopFilesLocation + [n];
    PlainSplit(root, p.Installed());
    var entry := ReadEntry(fs, dst, parse).value;
    var paths := listing(DottedBelow(fs, install + IconsLocation));
    var icons := IconsRun(p, fs, entry.icon, listing);
    DeployEachFrame(fs, root, install, paths, Some(entry.icon + "."));
    IconsMissDesktopLink(fs, root, install, listing, n);
    if Mirrors(root, install, Deployed(fs, root, install, paths, Some(entry.icon + ".")), k) {
      MirrorsListed(root, install, Deployed(fs, root, install, paths, Some(entry.icon + ".")), paths, k);
    }
    LaunchStepKeepsLinks(p, icons.fs, entry.exec, split, k);
  }

  /** Creating a relative link adds only a resolved key. */
  lemma RelinkResolved(fs: FS, root: seq<string>, src: seq<string>, dst: seq<string>)
    requires ResolvedKeys(fs) && RelinkRun(fs, root, src, dst).outcome == Pass
    ensures ResolvedKeys(RelinkRun(fs, root, src, dst).fs)
  {
    RelinkResult(fs, root, src, dst);
    KeyResolved(dst);
  }

  /** A deployment loop adds only resolved keys. */
  lemma {:induction false} DeployEachResolved(fs: FS, root: seq<string>, install: seq<string>, paths: seq<seq<string>>, prefix: Option<string>)
    requires ResolvedKeys(fs) && DeployEachRun(fs, root, install, paths, prefix).outcome == Pass
    ensures ResolvedKeys(DeployEachRun(fs, root, install, paths, prefix).fs)
    decreases |paths|
  {
    if paths != [] {
      var first := if Yields(fs, paths[0], prefix) then DeployRun(fs, root, install, paths[0]) else Run(fs, Pass);
      if Yields(fs, paths[0], prefix) {
        DeployResult(fs, root, install, paths[0]);
        var dst := root + paths[0][|install|..];
        KeyResolved(dst);
        ChangesOnlyResolved(fs, first.fs, Key(dst), Parent(dst));
      }
      DeployEachResolved(first.fs, root, install, paths[1..], prefix);
    }
  }

  /** A change at a resolved key and new directories along a path adds only resolved keys. */
  lemma ChangesOnlyResolved(before: FS, after: FS, k: Path, dirs: seq<string>)
    requires ResolvedKeys(before) && Resolved(k) && ChangesOnly(before, after, k, dirs)
    ensures ResolvedKeys(after)
  {
    forall x | x in after ensures Resolved(x) {
      if x !in before && x != k {
        var i :| 0 <= i <= |dirs| && x == Key(dirs[..i]);
        KeyResolved(dirs[..i]);
      }
    }
  }

  /** Writing an executable adds at most the resolved key its path leads to. */
  lemma WriteExecutableResolved(fs: FS, p: seq<string>, text: string)
    requires ResolvedKeys(fs) && WriteExecutableRun(fs, p, text).outcome == Pass
    ensures ResolvedKeys(WriteExecutableRun(fs, p, text).fs)
  {
    WriteExecutableResult(fs, p, text);
    KeyResolved(p);
    FollowResolved(fs, Key(p), MaxSymlinks);
  }

  /** A desktop file's step adds only resolved keys. */
  lemma DesktopStepResolved(p: Packager, fs: FS, d: seq<string>, parse: EntryParser, split: Splitter, listing: Listing)
    requires ResolvedKeys(fs) && DesktopStep(p, fs, d, parse, split, listing).outcome == Pass
    ensures ResolvedKeys(DesktopStep(p, fs, d, parse, split, listing).fs)
  {
    var root := p.context.installRoot;
    var dst := root + DesktopFilesLocation + [Name(d)];
    var linked := RelinkRun(fs, root, d, dst).fs;
    RelinkResolved(fs, root, d, dst);
    var entry := ReadEntry(linked, dst, parse).value;
    var icons := IconsRun(p, linked, entry.icon, listing);
    DeployEachResolved(linked, root, p.InstallPath(), listing(DottedBelow(linked, p.InstallPath() + IconsLocation)), Some(entry.icon + "."));
    var bin := ExecBinary(icons.fs, p.InstallPath(), entry.exec, split).value;
    WriteExecutableResolved(icons.fs, JoinStr(root + BinLocation, bin),
      LauncherText(ToString(p.Installed()), ToString(JoinStr(p.Installed() + BinLocation, bin))));
  }

  /** The desktop-file loop leaves the link of a desktop file whose name it does not handle alone. */
  lemma {:induction false} DesktopLoopKeepsLink(p: Packager, fs: FS, ds: seq<seq<string>>, parse: EntryParser, split: Splitter, listing: Listing, n: string)
    requires ResolvedKeys(fs) && Plain(p.InstallPath()) && ListsFound(listing)
    requires forall i :: 0 <= i < |ds| ==> InDesktopDir(p, ds[i]) && Name(ds[i]) != n
    requires var k := p.context.installRoot + DesktopFilesLocation + [n]; k in fs && fs[k].Symlink?
    requires DesktopLoopRun(p, fs, ds, parse, split, listing).outcome == Pass
    ensures var k := p.context.installRoot + DesktopFilesLocation + [n];
      k in DesktopLoopRun(p, fs, ds, parse, split, listing).fs && DesktopLoopRun(p, fs, ds, parse, split, listing).fs[k] == fs[k]
    decreases |ds|
  {
    if ds != [] {
      var first := DesktopStep(p, fs, ds[0], parse, split, listing);
      DesktopStepKeepsLink(p, fs, ds[0], parse, split, listing, n);
      DesktopStepResolved(p, fs, ds[0], parse, split, listing);
      forall i | 0 <= i < |ds[1..]| ensures InDesktopDir(p, ds[1..][i]) && Name(ds[1..][i]) != n {
        assert ds[1..][i] == ds[i + 1];
      }
      DesktopLoopKeepsLink(p, first.fs, ds[1..], parse, split, listing, n);
    }
  }

  /**
   * After a successful desktop-file loop every desktop file it handled is
   * linked from the install root's applications directory: a later file with
   * the same name is the same file.
   */
  lemma {:induction false} DesktopLoopLinks(p: Packager, fs: FS, ds: seq<seq<string>>, parse: EntryParser, split: Splitter, listing: Listing)
    requires ResolvedKeys(fs) && Plain(p.InstallPath()) && ListsFound(listing)
    requires forall i :: 0 <= i < |ds| ==> InDesktopDir(p, ds[i])
    requires DesktopLoopRun(p, fs, ds, parse, split, listing).outcome == Pass
    ensures ResolvedKeys(DesktopLoopRun(p, fs, ds, parse, split, listing).fs)
    ensures forall i :: 0 <= i < |ds| ==> DesktopLinked(p.context.installRoot, DesktopLoopRun(p, fs, ds, parse, split, listing).fs, ds[i])
    decreases |ds|
  {
    if ds != [] {
      var root := p.context.installRoot;
      var first := DesktopStep(p, fs, ds[0], parse, split, listing);
      var rest := ds[1..];
      var after := DesktopLoopRun(p, first.fs, rest, parse, split, listing).fs;
      DesktopStepLinks(p, fs, ds[0], parse, split, listing);
      DesktopStepResolved(p, fs, ds[0], parse, split, listing);
      forall i | 0 <= i < |rest| ensures InDesktopDir(p, rest[i]) {
        assert rest[i] == ds[i + 1];
      }
      DesktopLoopLinks(p, first.fs, rest, parse, split, listing);
      if j :| 0 <= j < |rest| && Name(rest[j]) == Name(ds[0]) {
        assert rest[j] == Parent(rest[j]) + [Name(rest[j])];
        assert ds[0] == Parent(ds[0]) + [Name(ds[0])];
        assert DesktopLinked(root, after, ds[0]);
      } else {
        DesktopLoopKeepsLink(p, first.fs, rest, parse, split, listing, Name(ds[0]));
      }
      forall i | 0 <= i < |ds| ensures DesktopLinked(root, after, ds[i]) {
        if i > 0 {
          assert ds[i] == rest[i - 1];
        }
      }
    }
  }

  /** The `Exec=` checks and the launcher leave every symlink alone. */
  lemma LaunchStepKeepsLinks(p: Packager, fs: FS, exec: string, split: Splitter, k: Path)
    requires LaunchStep(p, fs, exec, split).outcome == Pass
    requires k in fs && fs[k].Symlink?
    ensures k in LaunchStep(p, fs, exec, split).fs && LaunchStep(p, fs, exec, split).fs[k] == fs[k]
  {
    var bin := ExecBinary(fs, p.InstallPath(), exec, split).value;
    var script := JoinStr(p.context.installRoot + BinLocation, bin);
    var text := LauncherText(ToString(p.Installed()), ToString(JoinStr(p.Installed() + BinLocation, bin)));
    WriteExecutableKeepsLinks(fs, script, text, k);
  }

  /**
   * A passing launcher step found the binary named by the first word of
   * `Exec=` in the copy's `usr/bin`, and the file its `usr/bin` path leads to
   * holds the launcher that runs it, with all three execute bits set.
   */
  lemma LaunchStepWrites(p: Packager, fs: FS, exec: string, split: Splitter)
    requires LaunchStep(p, fs, exec, split).outcome == Pass
    ensures ExecBinary(fs, p.InstallPath(), exec, split).Ok?
    ensures var bin := ExecBinary(fs, p.InstallPath(), exec, split).value;
      var script := JoinStr(p.context.installRoot + BinLocation, bin);
      var after := LaunchStep(p, fs, exec, split).fs;
      Follow(fs, Key(script), MaxSymlinks).Ok? &&
      var q := Follow(fs, Key(script), MaxSymlinks).value;
      q in after && after[q].File? && after[q].mode & ExecBits == ExecBits &&
      after[q].content == LauncherText(ToString(p.Installed()), ToString(JoinStr(p.Installed() + BinLocation, bin)))
  {
    var bin := ExecBinary(fs, p.InstallPath(), exec, split).value;
    var script := JoinStr(p.context.installRoot + BinLocation, bin);
    var text := LauncherText(ToString(p.Installed()), ToString(JoinStr(p.Installed() + BinLocation, bin)));
    WriteExecutableResult(fs, script, text);
  }

  /** Writing an executable through a path leaves every symlink as it was. */
  lemma WriteExecutableKeepsLinks(fs: FS, p: seq<string>, text: string, k: Path)
    requires WriteExecutableRun(fs, p, text).outcome == Pass
    requires k in fs && fs[k].Symlink?
    ensures k in WriteExecutableRun(fs, p, text).fs && WriteExecutableRun(fs, p, text).fs[k] == fs[k]
  {
    WriteExecutableResult(fs, p, text);
  }

  /**
   * A successful deployment loop over paths below `install + loc` keeps every
   * entry of the install root outside `usr/share/<loc's name>`.
   */
  lemma DeployKeepsOutside(fs: FS, root: seq<string>, install: seq<string>, loc: seq<string>, paths: seq<seq<string>>,
                           prefix: Option<string>, k: Path)
    requires Plain(root) && |loc| == 3
    requires forall i :: 0 <= i < |paths| ==> Resolved(paths[i]) && IsStrictlyBelow(install + loc, paths[i])
    requires DeployEachRun(fs, root, install, paths, prefix).outcome == Pass
    requires k in fs && |k| > |root| + 2 && k[|root| + 2] != loc[2]
    ensures k in DeployEachRun(fs, root, install, paths, prefix).fs && DeployEachRun(fs, root, install, paths, prefix).fs[k] == fs[k]
  {
    DeployEachFrame(fs, root, install, paths, prefix);
    if Mirrors(root, install, Deployed(fs, root, install, paths, prefix), k) {
      MirrorsListed(root, install, Deployed(fs, root, install, paths, prefix), paths, k);
      MirrorsBelow(root, install, loc, paths, k);
    }
  }

  /**
   * Deploying the files below one `usr/share` location of the AppDir copy
   * mirrors each deployed file by a link back to it, adds only resolved keys,
   * and keeps every entry of the install root outside that location.
   */
  lemma ShareDeploy(fs: FS, root: seq<string>, install: seq<string>, loc: seq<string>, listing: Listing)
    requires ResolvedKeys(fs) && Plain(root) && Plain(install) && Plain(loc) && |loc| == 3 && ListsFound(listing)
    requires DeployEachRun(fs, root, install, listing(DottedBelow(fs, install + loc)), None).outcome == Pass
    ensures var paths := listing(DottedBelow(fs, install + loc));
      var after := DeployEachRun(fs, root, install, paths, None).fs;
      ResolvedKeys(after) &&
      (forall x :: x in Deployed(fs, root, install, paths, None) ==>
        MirroredAt(root, install, after, x) && IsStrictlyBelow(install + loc, x)) &&
      (forall k :: k in fs && |k| > |root| + 2 && k[|root| + 2] != loc[2] ==> k in after && after[k] == fs[k])
  {
    var paths := listing(DottedBelow(fs, install + loc));
    PlainConcat(install, loc);
    ListedBelow(fs, install + loc, listing);
    DeployEachResult(fs, root, install, paths, None);
    DeployEachResolved(fs, root, install, paths, None);
    forall x | x in Deployed(fs, root, install, paths, None) ensures IsStrictlyBelow(install + loc, x) {
      var j :| 0 <= j < |paths| && paths[j] == x;
    }
    forall k | k in fs && |k| > |root| + 2 && k[|root| + 2] != loc[2]
      ensures k in DeployEachRun(fs, root, install, paths, None).fs && DeployEachRun(fs, root, install, paths, None).fs[k] == fs[k]
    {
      DeployKeepsOutside(fs, root, install, loc, paths, None, k);
    }
  }

  /** The mirror of a path below `install + loc` has `loc`'s name where the install root's `usr/share/<name>` has it. */
  lemma MirrorPlace(root: seq<string>, install: seq<string>, loc: seq<string>, x: seq<string>)
    requires |loc| == 3 && IsStrictlyBelow(install + loc, x)
    ensures |root + x[|install|..]| > |root| + 2 && (root + x[|install|..])[|root| + 2] == loc[2]
  {
    assert x[..|install + loc|] == install + loc;
    assert x[|install| + 2] == (install + loc)[|install| + 2];
  }

  /** The desktop loop of `copy_data_to_usr` links every desktop file it handles and adds only resolved keys. */
  lemma DesktopPhase(p: Packager, f2: FS, parse: EntryParser, split: Splitter, listing: Listing,
                     ds: seq<seq<string>>, desktop: FS)
    requires ResolvedKeys(f2) && Plain(p.InstallPath()) && ListsFound(listing)
    requires ds == listing(p.FindDesktopFiles(f2))
    requires DesktopLoopRun(p, f2, ds, parse, split, listing) == Run(desktop, Pass)
    ensures ResolvedKeys(desktop)
    ensures forall i :: 0 <= i < |ds| ==> DesktopLinked(p.context.installRoot, desktop, ds[i])
  {
    forall i | 0 <= i < |ds| ensures InDesktopDir(p, ds[i]) {
      assert ds[i] in ds;
      DesktopFound(p, f2, ds[i]);
    }
    DesktopLoopLinks(p, f2, ds, parse, split, listing);
  }

  /**
   * The MIME and cloud-provider deployments of `copy_data_to_usr`: each
   * deployed file is mirrored in the final state, and the applications
   * directory of the install root is left as the desktop loop made it.
   */
  lemma SharePhases(root: seq<string>, install: seq<string>, listing: Listing, desktop: FS)
    requires ResolvedKeys(desktop) && Plain(root) && Plain(install) && ListsFound(listing)
    requires ShareRun(root, install, desktop, listing).outcome == Pass
    ensures var mime := DeployEachRun(desktop, root, install, listing(DottedBelow(desktop, install + MimeFilesLocation)), None).fs;
      var after := ShareRun(root, install, desktop, listing).fs;
      KeepsApplications(root, desktop, after) &&
      (forall x :: x in Deployed(desktop, root, install, listing(DottedBelow(desktop, install + MimeFilesLocation)), None) ==>
        MirroredAt(root, install, after, x)) &&
      (forall x :: x in Deployed(mime, root, install, listing(DottedBelow(mime, install + CloudProvidersLocation)), None) ==>
        MirroredAt(root, install, after, x))
  {
    var mime := DeployEachRun(desktop, root, install, listing(DottedBelow(desktop, install + MimeFilesLocation)), None).fs;
    var after := ShareRun(root, install, desktop, listing).fs;
    LocationsPlain();
    ShareDeploy(desktop, root, install, MimeFilesLocation, listing);
    ShareDeploy(mime, root, install, CloudProvidersLocation, listing);
    MirrorsKept(root, install, listing, desktop, mime, after);
  }

  /** Mirrors made by the MIME deployment survive the cloud-provider one, which leaves `usr/share/mime` alone. */
  lemma MirrorsKept(root: seq<string>, install: seq<string>, listing: Listing, desktop: FS, mime: FS, after: FS)
    requires ResolvedKeys(mime) && Plain(root) && Plain(install) && ListsFound(listing)
    requires forall x :: x in Deployed(desktop, root, install, listing(DottedBelow(desktop, install + MimeFilesLocation)), None) ==>
      MirroredAt(root, install, mime, x) && IsStrictlyBelow(install + MimeFilesLocation, x)
    requires DeployEachRun(mime, root, install,
      listing(DottedBelow(mime, install + CloudProvidersLocation)), None) == Run(after, Pass)
    ensures forall x :: x in Deployed(desktop, root, install, listing(DottedBelow(desktop, install + MimeFilesLocation)), None) ==>
      MirroredAt(root, install, after, x)
  {
    LocationsPlain();
    ShareDeploy(mime, root, install, CloudProvidersLocation, listing);
    forall x | x in Deployed(desktop, root, install, listing(DottedBelow(desktop, install + MimeFilesLocation)), None)
      ensures MirroredAt(root, install, after, x)
    {
      MirrorPlace(root, install, MimeFilesLocation, x);
    }
  }

  /** `after` keeps every entry of `before` in the install root's `usr/share/applications`. */
  ghost predicate KeepsApplications(root: seq<string>, before: FS, after: FS) {
    forall k :: k in before && |k| > |root| + 2 && k[|root| + 2] == DesktopFilesLocation[2] ==>
      k in after && after[k] == before[k]
  }

  /** Desktop links survive a run that keeps the applications directory. */
  lemma LinksKept(root: seq<string>, before: FS, after: FS, ds: seq<seq<string>>)
    requires KeepsApplications(root, before, after)
    requires forall i :: 0 <= i < |ds| ==> DesktopLinked(root, before, ds[i])
    ensures forall i :: 0 <= i < |ds| ==> DesktopLinked(root, after, ds[i])
  {
    forall i | 0 <= i < |ds| ensures DesktopLinked(root, after, ds[i]) {
      var dst := root + DesktopFilesLocation + [Name(ds[i])];
      assert dst[|root| + 2] == DesktopFilesLocation[2];
    }
  }

  /**
   * What `copy_data_to_usr` leaves once its directories exist in `fs`: every
   * desktop file the loop handled is linked from the install root's
   * applications directory, and every MIME and cloud-provider file deployed
   * is mirrored by a link back to it, in the final state `after`.
   */
  ghost predicate FilesLinked(p: Packager, fs: FS, parse: EntryParser, split: Splitter, listing: Listing, after: FS) {
    var root := p.context.installRoot;
    var install := p.InstallPath();
    var ds := listing(p.FindDesktopFiles(fs));
    var desktop := DesktopLoopRun(p, fs, ds, parse, split, listing).fs;
    var mimes := listing(DottedBelow(desktop, install + MimeFilesLocation));
    var mime := DeployEachRun(desktop, root, install, mimes, None).fs;
    var clouds := listing(DottedBelow(mime, install + CloudProvidersLocation));
    (forall i :: 0 <= i < |ds| ==> DesktopLinked(root, after, ds[i])) &&
    (forall x :: x in Deployed(desktop, root, install, mimes, None) ==> MirroredAt(root, install, after, x)) &&
    (forall x :: x in Deployed(mime, root, install, clouds, None) ==> MirroredAt(root, install, after, x))
  }

  /** The desktop loop and the shared-file deployments, when they pass, leave their files linked. */
  lemma FilesResult(p: Packager, fs: FS, parse: EntryParser, split: Splitter, listing: Listing)
    requires ResolvedKeys(fs) && Plain(p.InstallPath()) && ListsFound(listing)
    requires FilesRun(p, fs, parse, split, listing).outcome == Pass
    ensures FilesLinked(p, fs, parse, split, listing, FilesRun(p, fs, parse, split, listing).fs)
  {
    var root := p.context.installRoot;
    var install := p.InstallPath();
    var ds := listing(p.FindDesktopFiles(fs));
    var desktop := DesktopLoopRun(p, fs, ds, parse, split, listing).fs;
    var after := FilesRun(p, fs, parse, split, listing).fs;
    DesktopPhase(p, fs, parse, split, listing, ds, desktop);
    PlainSplit(root, p.Installed());
    SharePhases(root, install, listing, desktop);
    LinksKept(root, desktop, after, ds);
  }

  /** A successful `copy_data_to_usr` leaves its files linked, as FilesLinked states, from the state after its two `makedirs`. */
  lemma DataResult(p: Packager, fs: FS, parse: EntryParser, split: Splitter, listing: Listing)
    requires ResolvedKeys(fs) && Plain(p.InstallPath()) && ListsFound(listing)
    requires DataRun(p, fs, parse, split, listing).outcome == Pass
    ensures var root := p.context.installRoot;
      var f2 := AfterMakeDirs(AfterMakeDirs(fs, root + DesktopFilesLocation).value, root + BinLocation).value;
      FilesLinked(p, f2, parse, split, listing, DataRun(p, fs, parse, split, listing).fs)
  {
    var root := p.context.installRoot;
    var f1 := AfterMakeDirs(fs, root + DesktopFilesLocation).value;
    var f2 := AfterMakeDirs(f1, root + BinLocation).value;
    MakeDirsFrame(fs, root + DesktopFilesLocation);
    GrowsResolved(fs, f1, root + DesktopFilesLocation);
    MakeDirsFrame(f1, root + BinLocation);
    GrowsResolved(f1, f2, root + BinLocation);
    FilesResult(p, f2, parse, split, listing);
  }

  /**
   * `copy_appdir_contents` is idempotent: run again on its own result, it
   * gives the same filesystem.  The AppDir must be a real directory apart
   * from the install path, and there must be no link at the install path and
   * no stray entries below it.
   */
  lemma CopyIdempotent(fs: FS, src: seq<string>, install: seq<string>)
    requires Plain(src) && Plain(install)
    requires src in fs && fs[src].Dir?
    requires !IsPrefix(src, install) && !IsPrefix(install, src)
    requires !IsSymlink(fs, install)
    requires install !in fs ==> forall k :: k in fs ==> !IsStrictlyBelow(install, k)
    requires CopyRun(fs, src, install).outcome == Pass
    ensures CopyRun(CopyRun(fs, src, install).fs, src, install) == CopyRun(fs, src, install)
  {
    var f1, f := FirstCopy(fs, src, install);
    SecondCopy(f1, f, src, install, fs[src]);
  }

  /**
   * The first run: `f1` is the state after clearing the install path and `f`
   * the state with its parent directories made; the copy is laid over `f`
   * with the install path created.
   */
  lemma FirstCopy(fs: FS, src: seq<string>, install: seq<string>) returns (f1: FS, f: FS)
    requires Plain(src) && Plain(install)
    requires src in fs && fs[src].Dir?
    requires !IsPrefix(src, install) && !IsPrefix(install, src)
    requires !IsSymlink(fs, install)
    requires install !in fs ==> forall k :: k in fs ==> !IsStrictlyBelow(install, k)
    requires CopyRun(fs, src, install).outcome == Pass
    ensures src in f1 && f1[src] == fs[src]
    ensures forall k :: k in f1 ==> !IsPrefix(install, k)
    ensures forall k :: k in f1 ==> k in f && f[k] == f1[k]
    ensures forall k :: k in f && k !in f1 ==> |k| < |install| && install[..|k|] == k
    ensures Key(install) == install && AfterMkdir(f, install).Ok?
    ensures CopyRun(fs, src, install) ==
      Run(Transplant(f1, f[install := Dir(NewDirSize, NewDirMode)], src, install, fs[src]), Pass)
  {
    f1 := if Exists(fs, install) then AfterRmTree(fs, install).value else fs;
    ClearedInstall(fs, src, install);
    f := MakeParent(f1, install).value;
    MakeParentFrame(f1, install);
    NewDirsAboveInstall(f1, f, install);
    assert Key(install) == install;
    assert install !in f by {
      assert IsPrefix(install, install);
    }
    StatOfNode(f1, src);
    assert AfterMakeDirs(f1, install).Ok?;
    MkdirAfterParent(f1, install, f);
    var f2 := f[install := Dir(NewDirSize, NewDirMode)];
    MakeDirsFresh(f1, install, f);
    CopyTreeFresh(f1, src, install, f2, fs[src]);
  }

  /** `os.stat` of an entry that is not a link is that entry. */
  lemma StatOfNode(fs: FS, p: seq<string>)
    requires Plain(p) && p in fs && !fs[p].Symlink?
    ensures Key(p) == p && Stat(fs, p) == Some(fs[p])
  {
  }

  /** `os.makedirs` of a path that is still missing once its parents are made creates it itself. */
  lemma MkdirAfterParent(f1: FS, install: seq<string>, f: FS)
    requires Plain(install) && MakeParent(f1, install) == Ok(f) && install !in f
    requires AfterMakeDirs(f1, install).Ok?
    ensures AfterMkdir(f, install).Ok?
  {
    assert Key(install) == install;
    assert !IsDir(f, install);
  }

  /** `os.makedirs` of a missing directory whose parents are made first. */
  lemma MakeDirsFresh(f1: FS, install: seq<string>, f: FS)
    requires MakeParent(f1, install) == Ok(f) && Key(install) == install && AfterMkdir(f, install).Ok?
    ensures AfterMakeDirs(f1, install) == Ok(f[install := Dir(NewDirSize, NewDirMode)])
  {
  }

  /** `shutil.copytree` once its destination directory is made. */
  lemma CopyTreeFresh(f1: FS, src: seq<string>, install: seq<string>, f2: FS, top: Node)
    requires Key(src) == src && Key(install) == install && Stat(f1, src) == Some(top) && top.Dir?
    requires AfterMakeDirs(f1, install) == Ok(f2)
    ensures AfterCopyTree(f1, src, install) == Ok(Transplant(f1, f2, src, install, top))
  {
  }

  /**
   * The second run clears the copy, finds the parent directories in place
   * and copies the same entries again.
   */
  lemma SecondCopy(f1: FS, f: FS, src: seq<string>, install: seq<string>, top: Node)
    requires Plain(src) && Plain(install) && !IsPrefix(src, install)
    requires src in f1 && f1[src] == top && top.Dir?
    requires forall k :: k in f1 ==> !IsPrefix(install, k)
    requires forall k :: k in f1 ==> k in f && f[k] == f1[k]
    requires forall k :: k in f && k !in f1 ==> |k| < |install| && install[..|k|] == k
    requires Key(install) == install && AfterMkdir(f, install).Ok?
    ensures var f3 := Transplant(f1, f[install := Dir(NewDirSize, NewDirMode)], src, install, top);
      CopyRun(f3, src, install) == Run(f3, Pass)
  {
    var f2 := f[install := Dir(NewDirSize, NewDirMode)];
    var f3 := Transplant(f1, f2, src, install, top);
    assert Exists(f3, install);
    SecondClear(f, f2, f3, f1, src, install, top);
    assert MakeParent(f, install) == Ok(f);
    assert AfterMakeDirs(f, install) == Ok(f2);
    assert Stat(f, src) == Some(top);
    TransplantBelowFrom(f1, f, src, install);
    TransplantBelow(f1, f, f2, src, install, top);
  }

  /** Clearing the install path leaves nothing at or below it, and the AppDir in place. */
  lemma ClearedInstall(fs: FS, src: seq<string>, install: seq<string>)
    requires Plain(src) && Plain(install)
    requires src in fs && fs[src].Dir?
    requires !IsPrefix(install, src)
    requires !IsSymlink(fs, install)
    requires install !in fs ==> forall k :: k in fs ==> !IsStrictlyBelow(install, k)
    requires Exists(fs, install) ==> AfterRmTree(fs, install).Ok?
    ensures var f1 := if Exists(fs, install) then AfterRmTree(fs, install).value else fs;
      (forall k :: k in f1 ==> !IsPrefix(install, k)) && src in f1 && f1[src] == fs[src]
  {
    assert Key(install) == install;
    if !Exists(fs, install) {
      assert install !in fs;
      forall k | k in fs ensures !IsPrefix(install, k) {
        if |k| == |install| {
          assert k[..|install|] == k;
        }
      }
    }
  }

  /** The directories `os.makedirs` adds for a parent lie strictly above the path. */
  lemma NewDirsAboveInstall(before: FS, after: FS, install: seq<string>)
    requires Plain(install) && |install| > 0 && Grows(before, after, Parent(install))
    ensures forall k :: k in after && k !in before ==> |k| < |install| && install[..|k|] == k
  {
    forall k | k in after && k !in before ensures |k| < |install| && install[..|k|] == k {
      var i :| 0 <= i <= |Parent(install)| && k == Key(Parent(install)[..i]);
      var a := Parent(install)[..i];
      assert a == install[..i];
      assert Plain(a) by {
        forall n | 0 <= n < i ensures PlainComponent(a[n]) { assert a[n] == install[n]; }
      }
      assert k == a;
    }
  }

  /** Clearing the copy again gives back the state the copy was laid over. */
  lemma SecondClear(f: FS, f2: FS, f3: FS, f1: FS, src: seq<string>, install: seq<string>, top: Node)
    requires Plain(install) && install !in f && top.Dir?
    requires forall k :: k in f ==> !IsPrefix(install, k)
    requires f2 == f[install := Dir(NewDirSize, NewDirMode)]
    requires f3 == Transplant(f1, f2, src, install, top)
    ensures AfterRmTree(f3, install) == Ok(f)
  {
    assert Key(install) == install;
    var g1 := AfterRmTree(f3, install).value;
    forall k | k in g1 ensures k in f && g1[k] == f[k] { }
    forall k | k in f ensures k in g1 { assert k in f2; }
    assert g1 == f;
  }

  /** A transplant depends only on what lies below its source. */
  lemma TransplantBelowFrom(a: FS, b: FS, src: Path, install: seq<string>)
    requires Plain(install) && !IsPrefix(src, install)
    requires forall k :: k in a ==> k in b && b[k] == a[k]
    requires forall k :: k in b && k !in a ==> |k| < |install| && install[..|k|] == k
    ensures forall q :: IsStrictlyBelow(src, q) ==> (q in a <==> q in b) && (q in a ==> a[q] == b[q])
  {
  }

  /** A transplant depends only on what lies below its source. */
  lemma TransplantBelow(a: FS, b: FS, base: FS, src: Path, dst: Path, top: Node)
    requires forall q :: IsStrictlyBelow(src, q) ==> (q in a <==> q in b) && (q in a ==> a[q] == b[q])
    ensures Transplant(a, base, src, dst, top) == Transplant(b, base, src, dst, top)
  {
  }

  /**
   * `write_ldnp_conf` succeeds exactly when the file can be read (or is
   * missing) and parsed, and the merged configuration written; the entry the
   * path leads to then holds the written text, reading the path back gives that
   * text, and nothing else changes.
   */
  lemma ConfResult(p: Packager, fs: FS, read: ConfigReader, write: ConfigWriter)
    ensures ConfRun(p, fs, read, write).outcome == Pass <==>
      ReadConfig(fs, ConfPath(p), read).Ok? &&
      AfterWriteText(fs, ConfPath(p), write(MergeConf(ReadConfig(fs, ConfPath(p), read).value, ToString(p.Installed())))).Ok?
    ensures ConfRun(p, fs, read, write).outcome == Pass ==>
      var text := write(MergeConf(ReadConfig(fs, ConfPath(p), read).value, ToString(p.Installed())));
      Follow(fs, Key(ConfPath(p)), MaxSymlinks).Ok? &&
      var q := Follow(fs, Key(ConfPath(p)), MaxSymlinks).value;
      StoredAt(fs, ConfRun(p, fs, read, write).fs, q, File(|text|, if q in fs then fs[q].mode else NewFileMode, text)) &&
      ReadText(ConfRun(p, fs, read, write).fs, ConfPath(p)) == Ok(text)
  {
    if ConfRun(p, fs, read, write).outcome == Pass {
      WriteReadsBack(fs, ConfPath(p), write(MergeConf(ReadConfig(fs, ConfPath(p), read).value, ToString(p.Installed()))));
    }
  }

  // ---------------------------------------------------------------------------
  // The imperative methods.

  method CreateRelativeSymlink(host: Host, root: seq<string>, src: seq<string>, dst: seq<string>) returns (r: Outcome)
    modifies host
    ensures Run(host.nodes, r) == RelinkRun(old(host.nodes), root, src, dst)
  {
    var distance := RelativeTo(Parent(dst), root);
    if distance.Err? {
      return Fail(distance.error);
    }
    var below := RelativeTo(src, root);
    if below.Err? {
      return Fail(below.error);
    }
    r := host.Unlink(dst, true);
    if r.Fail? {
      return;
    }
    r := host.Symlink(LinkTarget(false, Dots(|distance.value|) + below.value), dst);
  }

  method CreateBinaryScript(host: Host, script: seq<string>, installed: string, target: string) returns (r: Outcome)
    modifies host
    ensures Run(host.nodes, r) == ScriptRun(old(host.nodes), script, installed, target)
  {
    r := host.WriteText(script, LauncherText(installed, target));
    if r.Fail? {
      return;
    }
    var mode := ModeOf(host.nodes, script);
    if mode.Err? {
      return Fail(mode.error);
    }
    r := host.Chmod(script, mode.value | ExecBits);
  }

  method DeployFileAsIs(host: Host, root: seq<string>, install: seq<string>, path: seq<string>) returns (r: Outcome)
    modifies host
    ensures Run(host.nodes, r) == DeployRun(old(host.nodes), root, install, path)
  {
    var rel := RelativeTo(path, install);
    if rel.Err? {
      return Fail(rel.error);
    }
    var dst := root + rel.value;
    r := host.MakeDirs(Parent(dst));
    if r.Fail? {
      return;
    }
    r := CreateRelativeSymlink(host, root, path, dst);
  }

  /** The loop `for x in <generator>: deploy_file_as_is(x)` over the globbed `paths`. */
  method DeployEach(host: Host, root: seq<string>, install: seq<string>, paths: seq<seq<string>>, prefix: Option<string>)
    returns (r: Outcome)
    modifies host
    ensures Run(host.nodes, r) == DeployEachRun(old(host.nodes), root, install, paths, prefix)
  {
    ghost var whole := DeployEachRun(host.nodes, root, install, paths, prefix);
    var i := 0;
    while i < |paths|
      invariant 0 <= i <= |paths|
      invariant DeployEachRun(host.nodes, root, install, paths[i..], prefix) == whole
    {
      assert paths[i..][0] == paths[i] && paths[i..][1..] == paths[i + 1..];
      if Yields(host.nodes, paths[i], prefix) {
        r := DeployFileAsIs(host, root, install, paths[i]);
        if r.Fail? {
          return;
        }
      }
      i := i + 1;
    }
    r := Pass;
  }

  /** The body of the desktop-file loop of `copy_data_to_usr`. */
  method InstallDesktopFile(p: Packager, host: Host, d: seq<string>, parse: EntryParser, split: Splitter, listing: Listing)
    returns (r: Outcome)
    modifies host
    ensures Run(host.nodes, r) == DesktopStep(p, old(host.nodes), d, parse, split, listing)
  {
    var root := p.context.installRoot;
    var dst := root + DesktopFilesLocation + [Name(d)];
    r := CreateRelativeSymlink(host, root, d, dst);
    if r.Fail? {
      return;
    }
    r := InstallEntry(p, host, dst, parse, split, listing);
  }

  method InstallEntry(p: Packager, host: Host, dst: seq<string>, parse: EntryParser, split: Splitter, listing: Listing)
    returns (r: Outcome)
    modifies host
    ensures Run(host.nodes, r) == EntryStep(p, old(host.nodes), dst, parse, split, listing)
  {
    var entry := ReadEntry(host.nodes, dst, parse);
    if entry.Err? {
      return Fail(entry.error);
    }
    var icons := listing(DottedBelow(host.nodes, p.InstallPath() + IconsLocation));
    r := DeployEach(host, p.context.installRoot, p.InstallPath(), icons, Some(entry.value.icon + "."));
    if r.Fail? {
      return;
    }
    var bin := ExecBinary(host.nodes, p.InstallPath(), entry.value.exec, split);
    if bin.Err? {
      return Fail(bin.error);
    }
    r := CreateBinaryScript(host, JoinStr(p.context.installRoot + BinLocation, bin.value),
      ToString(p.Installed()), ToString(JoinStr(p.Installed() + BinLocation, bin.value)));
  }

  /** The desktop-file loop of `copy_data_to_usr`. */
  method InstallDesktopFiles(p: Packager, host: Host, ds: seq<seq<string>>, parse: EntryParser, split: Splitter, listing: Listing)
    returns (r: Outcome)
    modifies host
    ensures Run(host.nodes, r) == DesktopLoopRun(p, old(host.nodes), ds, parse, split, listing)
  {
    ghost var whole := DesktopLoopRun(p, host.nodes, ds, parse, split, listing);
    var i := 0;
    while i < |ds|
      invariant 0 <= i <= |ds|
      invariant DesktopLoopRun(p, host.nodes, ds[i..], parse, split, listing) == whole
    {
      assert ds[i..][0] == ds[i] && ds[i..][1..] == ds[i + 1..];
      r := InstallDesktopFile(p, host, ds[i], parse, split, listing);
      if r.Fail? {
        return;
      }
      i := i + 1;
    }
    r := Pass;
  }

  method CopyDataToUsr(p: Packager, host: Host, parse: EntryParser, split: Splitter, listing: Listing) returns (r: Outcome)
    modifies host
    ensures Run(host.nodes, r) == DataRun(p, old(host.nodes), parse, split, listing)
  {
    var root := p.context.installRoot;
    r := host.MakeDirs(root + DesktopFilesLocation);
    if r.Fail? {
      return;
    }
    r := host.MakeDirs(root + BinLocation);
    if r.Fail? {
      return;
    }
    r := InstallDesktopFiles(p, host, listing(p.FindDesktopFiles(host.nodes)), parse, split, listing);
    if r.Fail? {
      return;
    }
    var mime := listing(DottedBelow(host.nodes, p.InstallPath() + MimeFilesLocation));
    r := DeployEach(host, root, p.InstallPath(), mime, None);
    if r.Fail? {
      return;
    }
    var cloud := listing(DottedBelow(host.nodes, p.InstallPath() + CloudProvidersLocation));
    r := DeployEach(host, root, p.InstallPath(), cloud, None);
  }

  method CopyAppDirContents(p: Packager, host: Host) returns (r: Outcome)
    modifies host
    ensures Run(host.nodes, r) == CopyRun(old(host.nodes), p.appdir.path, p.InstallPath())
  {
    if Exists(host.nodes, p.InstallPath()) {
      r := host.RmTree(p.InstallPath());
      if r.Fail? {
        return;
      }
    }
    r := host.CopyTree(p.appdir.path, p.InstallPath());
  }

  method WriteLdnpConf(p: Packager, host: Host, read: ConfigReader, write: ConfigWriter) returns (r: Outcome)
    modifies host
    ensures Run(host.nodes, r) == ConfRun(p, old(host.nodes), read, write)
  {
    var path := ConfPath(p);
    var config := ReadConfig(host.nodes, path, read);
    if config.Err? {
      return Fail(config.error);
    }
    var merged := config.value[ConfSection := map[ConfKey := ToString(p.Installed())]];
    r := host.WriteText(path, write(merged));
  }
}
