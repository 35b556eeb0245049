/** An AppDir on the host filesystem and the queries the packager makes of it. */
module AppDirs {
  import opened Wrappers
  import opened Paths
  import opened FileSystem
  import Text

  /** `AppDir.DESKTOP_FILES_RELATIVE_LOCATION`: `usr/share/applications`. */
  const DesktopFilesLocation: seq<string> := ["usr", "share", "applications"]

  /**
   * `AppDir.ICONS_RELATIVE_LOCATION`, `MIME_FILES_RELATIVE_LOCATION` and
   * `CLOUDPROVIDERS_FILES_RELATIVE_LOCATION`; `ldnp/appdir.py` as shown does not
   * define them, so the model takes the freedesktop.org locations.
   */
  const IconsLocation: seq<string> := ["usr", "share", "icons"]
  const MimeFilesLocation: seq<string> := ["usr", "share", "mime"]
  const CloudProvidersLocation: seq<string> := ["usr", "share", "cloud-providers"]

  /** The fixed locations name entries directly. */
  lemma LocationsPlain()
    ensures Plain(DesktopFilesLocation) && Plain(IconsLocation)
    ensures Plain(MimeFilesLocation) && Plain(CloudProvidersLocation)
  {
    assert PlainComponent("usr") && PlainComponent("share");
    assert PlainComponent("applications") && PlainComponent("icons");
    assert PlainComponent("mime") && PlainComponent("cloud-providers");
  }

  /** The two keys the packager reads from a desktop entry (`getExec()`, `getIcon()`; empty when absent). */
  datatype DesktopEntry = DesktopEntry(exec: string, icon: string)

  /** Desktop-entry parsing of a file's text; None where the parser raises. */
  type EntryParser = string -> Option<DesktopEntry>

  /**
   * `os.path.splitext(name)[1] == ext` for an extension made of one leading
   * dot and no other: `name` ends with `ext` after something other than dots
   * (leading dots do not start an extension).
   */
  predicate ExtensionIs(name: string, ext: string) {
    Text.EndsWith(name, ext) && exists i :: 0 <= i < |name| - |ext| && name[i] != '.'
  }

  /**
   * pyxdg's `DesktopEntry(path)`.  A path that exists is parsed: ParsingError
   * unless it leads to a regular file the parser accepts.  A path that does
   * not (a dangling or looping link included) gives a new blank entry, with
   * empty `Exec=` and `Icon=`, when its extension is `.desktop` or
   * `.directory`, and ParsingError otherwise.
   */
  function ReadEntry(fs: FS, path: seq<string>, parse: EntryParser): (r: Result<DesktopEntry>)
    ensures Exists(fs, path) ==>
      (r.Ok? <==> ReadText(fs, path).Ok? && parse(ReadText(fs, path).value).Some?)
    ensures Exists(fs, path) && r.Ok? ==> r.value == parse(ReadText(fs, path).value).value
    ensures !Exists(fs, path) ==>
      (r.Ok? <==> ExtensionIs(Name(path), ".desktop") || ExtensionIs(Name(path), ".directory"))
    ensures !Exists(fs, path) && r.Ok? ==> r.value == DesktopEntry("", "")
    ensures r.Err? ==> r.error == ParsingError(path)
  {
    if !Exists(fs, path) then
      if ExtensionIs(Name(path), ".desktop") || ExtensionIs(Name(path), ".directory") then Ok(DesktopEntry("", ""))
      else Err(ParsingError(path))
    else
      match ReadText(fs, path)
      case Err(_) => Err(ParsingError(path))
      case Ok(text) =>
        match parse(text)
        case None => Err(ParsingError(path))
        case Some(entry) => Ok(entry)
  }

  /** A desktop file whose link dangles reads as a blank entry: no `Exec=`, no `Icon=`. */
  lemma DanglingEntryBlank(fs: FS, path: seq<string>, parse: EntryParser)
    requires !Exists(fs, path) && MatchesDesktopGlob(Name(path))
    ensures ReadEntry(fs, path, parse) == Ok(DesktopEntry("", ""))
  {
  }

  /** The glob pattern `*.desktop`: a name ending in `.desktop`; `*` does not match a leading dot. */
  predicate MatchesDesktopGlob(name: string) {
    Text.EndsWith(name, ".desktop") && !Text.StartsWith(name, ".")
  }

  /** Glob of `*.desktop` in `dir`: the entries directly in `dir` whose name matches. */
  function DesktopFilesIn(fs: FS, dir: seq<string>): (r: set<seq<string>>)
    ensures forall p :: p in r <==> p in Children(fs, dir) && MatchesDesktopGlob(Name(p))
  {
    set p | p in Children(fs, dir) && MatchesDesktopGlob(Name(p))
  }

  datatype AppDir = AppDir(path: seq<string>, installName: string) {
    /** `relative_install_path`: `opt/<install_name>` (an absolute name replaces `opt`). */
    function RelativeInstallPath(): (r: PurePath)
      ensures !Parse(installName).absolute ==> r == PurePath(false, ["opt"] + Parse(installName).parts)
      ensures Parse(installName).absolute ==> r == Parse(installName)
    {
      var name := Parse(installName);
      if name.absolute then name else PurePath(false, ["opt"] + name.parts)
    }

    /** The directory `find_desktop_files` lists: `path/opt/<install_name>/usr/share/applications`. */
    function DesktopFilesDir(): seq<string> {
      JoinStr(path + ["opt"], installName) + DesktopFilesLocation
    }
  }

  /** `find_desktop_files`: the `*.desktop` entries directly in the applications directory, nothing deeper. */
  function FindDesktopFiles(fs: FS, a: AppDir): (r: set<seq<string>>)
    ensures forall p :: p in r ==>
      |p| == |a.DesktopFilesDir()| + 1 && p[..|a.DesktopFilesDir()|] == a.DesktopFilesDir() && MatchesDesktopGlob(Name(p))
  {
    DesktopFilesIn(fs, a.DesktopFilesDir())
  }

  /** `root_desktop_file`: AssertionError unless exactly one `*.desktop` sits directly in the AppDir. */
  ghost function RootDesktopFile(fs: FS, a: AppDir, parse: EntryParser): (r: Result<DesktopEntry>)
    ensures |DesktopFilesIn(fs, a.path)| != 1 ==> r == Err(AssertionError)
    ensures |DesktopFilesIn(fs, a.path)| == 1 ==>
      exists p :: DesktopFilesIn(fs, a.path) == {p} && r == ReadEntry(fs, p, parse)
  {
    var files := DesktopFilesIn(fs, a.path);
    if |files| != 1 then Err(AssertionError)
    else
      var p :| p in files;
      OnlyElement(files, p);
      ReadEntry(fs, p, parse)
  }

  lemma OnlyElement<T>(s: set<T>, p: T)
    requires |s| == 1 && p in s
    ensures s == {p}
  {
    var rest := s - {p};
    assert |rest| == 0;
  }
}
