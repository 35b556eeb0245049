# linuxdeploy-plugin-native_packages, modelled in Dafny

linuxdeploy-plugin-native_packages turns an AppDir into a native package, either `.rpm` or `.deb`. The steps are:

1. Copy the AppDir into a staging install root under `/opt/<package_name>.AppDir`.
2. Merge its desktop files, icons, MIME files and cloud-provider files into the root's `usr/share` as relative symlinks.
3. Put a launcher script for each desktop file's binary into `usr/bin`.
4. Record the installed path in the copy's `linuxdeploy.conf`.
5. Synthesise the manifest the native tool consumes:
   - for RPM, a `.spec` file with the file list, a fixed-up version and the scriptlets;
   - for Debian, a `DEBIAN/control` file with `Installed-Size` and the blank lines removed, plus any extra Debian files.
6. Name the output after the architecture.

The project models this core over an abstract filesystem, a map from paths (sequences of components) to nodes `File | Dir | Symlink`:

- the metadata dictionary filled from `LDNP_META_*` environment variables (`Meta`);
- pathlib/str behaviour (`Paths`, `Text`) and `shlex.quote` (`Shell`);
- the filesystem calls the packager makes (`FileSystem`);
- the AppDir queries (`AppDirs`);
- the shared packager (`Packaging`), the RPM packager (`Rpm`) and the Debian packager (`Deb`);
- the older `Packager` class (`Legacy`).

Operations that change the filesystem appear twice:

- as a function from the old state to a `Run` (new state plus outcome);
- as a method on a `Host` object whose `nodes` field the method updates in place. Each method proves `Run(host.nodes, r)` equal to the function from the old state.

The properties are stated as lemmas about these functions.

Modelling decisions:

- **Globs.** A glob's result is a set of paths. Where the source iterates a glob, the order is a `Listing` parameter.
- **Collaborators.** These are function parameters:
  - desktop-entry parsing (`EntryParser`);
  - `shlex.split` (`Splitter`);
  - `configparser` reading and writing;
  - the Jinja renderers;
  - the effect of `rpmbuild` and `dpkg-deb` on the filesystem.
- **Symlinks.** Only the last component of a path is followed, at most 40 times. A path seen through a symlinked directory is an entry of its own, which is what Python's recursive glob yields.

## Model

| member | source | states |
|---|---|---|
| Meta.EnvGet | ldnp/rpm.py:122 | `os.environ.get`: present exactly when some variable has the name; the value is that of the last such variable |
| Meta.StoredKey | ldnp/abstractpackager.py:62-73 | only names starting with `LDNP_META_` are kept; the packager-specific prefix is removed when present, otherwise `LDNP_META_`; the key is upper-cased |
| Meta.PopulateSpec | ldnp/abstractpackager.py:56-75 | a key is stored exactly when some variable maps to it, and its value is that of the last such variable in environment order |
| Meta.PrecedenceFollowsOrder | ldnp/abstractpackager.py:67-75 | in every environment, a generic `LDNP_META_` variable listed after a packager-specific one with the same key, with no later variable for that key, is the value stored; the specific one does not take precedence, despite the comment at line 69 |
| Meta.PreferringSpecificWins | ldnp/abstractpackager.py:69-75 | the corrected half: when a packager-specific variable exists for a key, the value stored is that of the last specific variable for it, wherever generic ones stand |
| Meta.MetaInfo.constructor | ldnp/abstractpackager.py:56-75 | the loop over the environment leaves the dictionary equal to `Populate` |
| Meta.MetaInfo.Set | ldnp/abstractpackager.py:77-79 | stores the value under the upper-cased key and changes nothing else |
| Meta.MetaInfo.Lookup | ldnp/abstractpackager.py:81-90 | found exactly when the upper-cased identifier is a key; otherwise KeyError `Could not find <IDENTIFIER>` |
| Meta.MetaInfo.Get | ldnp/abstractpackager.py:93-97 | the stored value when present, the default otherwise; never an error |
| Meta.MetaInfo.SetDefault | ldnp/abstractpackager.py:100-104 | always overwrites: afterwards the key maps to the default whether or not it was set |
| Text.Upper | ldnp/abstractpackager.py:79 | same length, each character upper-cased |
| Text.UpperIdempotent | ldnp/abstractpackager.py:83-90 | upper-casing twice is upper-casing once, so the error names the same key |
| Text.RemovePrefix | ldnp/abstractpackager.py:71-73 | `removeprefix`: the prefix plus the result is the input when it starts with the prefix, else the input |
| Text.RemoveSuffix | ldnp/rpm.py:186 | `removesuffix`: the result plus the suffix is the input when it ends with the suffix, else the input |
| Text.ReplaceChar | ldnp/rpm.py:114 | `replace` of one character: same length, each occurrence replaced, the rest kept |
| Text.JoinSplit | ldnp/deb.py:72 | joining the pieces of `split(';')` with `;` gives back the variable's value |
| Text.SplitJoin | ldnp/abstractpackager.py:168 | splitting a join of break-free lines on line breaks gives back the lines |
| Text.LStrip | ldnp/abstractpackager.py:118 | `lstrip('/')`: a suffix of the input, everything removed is `/`, and the result does not start with `/` |
| Paths.Parse | ldnp/abstractpackager.py:117 | a parsed path has only proper components (no empty, `.` or `/`) |
| Paths.JoinStr | ldnp/abstractpackager.py:118 | `base / s`: an absolute `s` replaces the base, a relative one is appended |
| Paths.RelativeTo | ldnp/abstractpackager.py:156 | `relative_to`: defined exactly when the root is a prefix; the root plus the result is the path |
| Paths.RelativeSymlinkTarget | ldnp/abstractpackager.py:156-158 | defined exactly when `dst.parent` and `src` lie under the root; the target is then one `..` per component of `dst.parent` below the root, followed by `src` below the root |
| Paths.RelativeSymlinkRoundTrip | ldnp/abstractpackager.py:153-161 | for a resolved `src` (no empty, `.` or `..` component), resolving the relative target from `dst.parent` gives back `src` |
| Paths.ResolveDots | ldnp/abstractpackager.py:157 | one `..` per component climbs back exactly to the root |
| Shell.Quote | ldnp/abstractpackager.py:176 | `shlex.quote` is never empty |
| Shell.QuoteRoundTrip | ldnp/abstractpackager.py:194 | the shell reads the quoted word back as the original string |
| Shell.QuoteNoNewline | ldnp/abstractpackager.py:176 | quoting adds no line break, so the launcher line stays one line |
| Sorting.Sort | ldnp/rpm.py:131 | `sorted`: the result is ordered and a permutation of the input |
| Sorting.PathLessTotal | ldnp/rpm.py:131 | path order is total, with PathLessIrreflexive and PathLessTrans making it a strict order |
| FileSystem.Follow | ldnp/rpm.py:21 | following ends on a non-link, and a non-link path is its own destination |
| FileSystem.ReadText | ldnp/rpm.py:59-60 | reading succeeds exactly on a regular file (after following) and gives its content |
| FileSystem.AfterUnlink | ldnp/abstractpackager.py:160 | `unlink(missing_ok=True)` removes exactly the entry; it fails on a directory |
| FileSystem.AfterSymlink | ldnp/abstractpackager.py:161 | `os.symlink` succeeds exactly when the path is free and its parent a directory, and adds just the link |
| FileSystem.AfterMakeDirs | ldnp/abstractpackager.py:206-209 | `os.makedirs(exist_ok=True)` leaves a directory at the path |
| FileSystem.MakeDirsFrame | ldnp/abstractpackager.py:215 | `os.makedirs` keeps every entry and adds only directories along the path |
| FileSystem.AfterRmTree | ldnp/abstractpackager.py:261 | `rmtree` removes exactly the entries at or below the path and keeps the rest |
| FileSystem.AfterCopyTree | ldnp/abstractpackager.py:263-269 | `copytree` succeeds exactly from a directory to a destination that `makedirs` can create; the destination then holds the source's node, each entry below the source sits at the corresponding place below it, no entry is lost, and outside the destination only new parent directories appear |
| FileSystem.Transplant | ldnp/abstractpackager.py:263-269 | the copy holds each entry below the source at the corresponding place and keeps what lies outside the destination |
| FileSystem.AfterCopyFile | ldnp/deb.py:75 | `shutil.copy` raises SameFileError when the source and the destination (`dst/<name>` when `dst` is a directory) are one file; otherwise it succeeds exactly from a regular file to a target that can be stored after following links, which then holds the source's node while nothing else changes |
| FileSystem.AfterMove | ldnp/rpm.py:178 | `shutil.move` raises shutil.Error when `dst` is a directory that already holds an existing `<name>`; otherwise it succeeds exactly when the source exists, no directory is at the target and the target's parent is a directory; the target then holds the source's node, the source is gone and nothing else changes |
| FileSystem.WriteReadsBack | ldnp/abstractpackager.py:286-287 | after a write, the file the path leads to holds the text and reading the path back gives it |
| FileSystem.KeyResolved | ldnp/abstractpackager.py:156-158 | the key of any path has no empty, `.` or `..` component, and a resolved path is its own key |
| FileSystem.GrowsResolved | ldnp/abstractpackager.py:206-215 | `makedirs` adds only resolved keys |
| FileSystem.Atomic | ldnp/abstractpackager.py:160-161 | a call either succeeds with its new state or fails and changes nothing |
| AppDirs.LocationsPlain | ldnp/appdir.py:15 | `usr/share/applications` and the other locations are plain relative paths |
| AppDirs.AppDir.RelativeInstallPath | ldnp/appdir.py:20 | `opt/<install_name>`; an absolute name replaces it |
| AppDirs.FindDesktopFiles | ldnp/appdir.py:22-26 | only `*.desktop` entries directly in `path/opt/<install_name>/usr/share/applications` |
| AppDirs.DesktopFilesIn | ldnp/appdir.py:23-25 | the glob `*.desktop` yields exactly the children of the directory whose name matches |
| AppDirs.RootDesktopFile | ldnp/appdir.py:28-34 | AssertionError unless exactly one `*.desktop` sits in the AppDir root; otherwise that file's parsed entry |
| AppDirs.ReadEntry | ldnp/abstractpackager.py:224-225 | pyxdg's `DesktopEntry(path)`: an existing path is parsed when it reads as a regular file the parser accepts, ParsingError otherwise; a missing or dangling path gives a blank entry when it ends in `.desktop` or `.directory`, ParsingError otherwise |
| AppDirs.DanglingEntryBlank | ldnp/abstractpackager.py:224-235 | a dangling `*.desktop` link reads as a blank entry, so the step deploys icons for the prefix `.` and then raises "Exec= entry not set" |
| Packaging.OutputName | ldnp/rpm.py:183-194 | always ends with the extension; `_<arch>` is inserted exactly when the arch is set and non-empty |
| Packaging.OutputNameIdempotent | ldnp/deb.py:93-104 | without an architecture, naming a name already produced changes nothing |
| Packaging.OutputNameKeepsExtension | ldnp/deb.py:93-104 | without an architecture, a name ending in the extension is kept |
| Packaging.Required | ldnp/abstractpackager.py:113-115 | KeyError when the key is missing, AssertionError when its value is empty, else the value |
| Packaging.NewPackager | ldnp/abstractpackager.py:108-118 | succeeds exactly when `package_name`, `version` and `filename_prefix` are set and non-empty; the first failing check gives the error |
| Packaging.Packager.InstallPath | ldnp/abstractpackager.py:117-118 | the install root followed by the installed path `/opt/<package_name>.AppDir` without its leading `/` |
| Packaging.InstalledSimple | ldnp/abstractpackager.py:117-118 | for a name without `/`, the install path is `root/opt/<name>.AppDir` |
| Packaging.Packager.FindDesktopFiles | ldnp/abstractpackager.py:125-127 | the `*.desktop` children of the copy's applications directory |
| Packaging.Packager.FindIcons | ldnp/abstractpackager.py:130-142 | regular files with a dot in their name below the icons directory, hidden ones included, whose name starts with the prefix when one is given |
| Packaging.Packager.FindMimeFiles | ldnp/abstractpackager.py:144-145 | likewise below the MIME directory, without a prefix |
| Packaging.Packager.FindCloudProvidersFiles | ldnp/abstractpackager.py:147-150 | likewise below the cloud-providers directory |
| Packaging.LauncherReads | ldnp/abstractpackager.py:167-198 | the launcher's lines read back from its text, and they have the expected shape: shebang, `set -e`, quoted `this_dir`, exported `APPDIR`, the hook loop, `exec <quoted target> "$@"`, final newline |
| Packaging.LauncherHasShape | ldnp/abstractpackager.py:168-196 | the joined lines are in that order, with lines 185-186 merged into one comment line |
| Packaging.LauncherNoBreaks | ldnp/abstractpackager.py:168-196 | for an installed path and a target without line breaks, no line holds a break |
| Packaging.RelinkResult | ldnp/abstractpackager.py:153-161 | succeeds exactly when both paths lie under the root, no directory is at `dst` and its parent exists; then only `dst` changes, to the relative link, which for resolved paths leads back to `src`; a failure leaves the state, or the state without `dst` when the unlink already happened |
| Packaging.WriteExecutableResult | ldnp/abstractpackager.py:166-201 | the script holds the text and has mode `old | 0o111` (0o644 for a new file); nothing else changes |
| Packaging.ExecBinary | ldnp/abstractpackager.py:234-243 | ValueError for an empty `Exec=`, the ValueError `shlex.split` raises, IndexError for no word, ValueError for a first word not in the copy's `usr/bin`, otherwise the first word |
| Packaging.DeployResult | ldnp/abstractpackager.py:211-216 | the path is mirrored under the install root by its place relative to the copy, as a link that leads back to it for resolved paths; only that entry and new parent directories change |
| Packaging.DeployEachFrame | ldnp/abstractpackager.py:231-232 | a passing deployment loop leaves every entry alone that is not the mirror of a path it deployed |
| Packaging.DeployEachResult | ldnp/abstractpackager.py:231-232 | after a passing deployment loop over resolved paths, every path it deployed is mirrored by a link back to it |
| Packaging.MirrorInjective | ldnp/abstractpackager.py:213-214 | two paths of the copy with the same mirror are the same path |
| Packaging.ShareDeploy | ldnp/abstractpackager.py:250-257 | deploying the files below one `usr/share` location mirrors each deployed file by a link back to it, adds only resolved keys and keeps every entry outside that location |
| Packaging.IconsMissDesktopLink | ldnp/abstractpackager.py:218-232 | no icon mirrors onto a desktop file's link |
| Packaging.DesktopStepLinks | ldnp/abstractpackager.py:218-248 | after a passing step for a desktop file of the copy, the applications directory holds a link back to it, whatever the icons and the launcher do |
| Packaging.DesktopFound | ldnp/abstractpackager.py:125-127 | a desktop file the glob finds is resolved and lies directly in the copy's applications directory |
| Packaging.DesktopStepKeepsLink | ldnp/abstractpackager.py:218-248 | a step for a desktop file leaves the link of a desktop file with another name alone |
| Packaging.DesktopLoopLinks | ldnp/abstractpackager.py:218-248 | after a passing desktop loop every desktop file it handled is linked from the applications directory, and the keys stay resolved |
| Packaging.EntryStepKeepsLink | ldnp/abstractpackager.py:224-248 | the icons, the Exec checks and the launcher leave the desktop link alone |
| Packaging.LaunchStepKeepsLinks | ldnp/abstractpackager.py:234-248 | the Exec checks and the launcher change no symlink |
| Packaging.LaunchStepWrites | ldnp/abstractpackager.py:234-248 | a passing launcher step found the first word of `Exec=` in the copy's `usr/bin`, and the file its `usr/bin` path leads to then holds the launcher for it with the three execute bits set |
| Packaging.FilesResult | ldnp/abstractpackager.py:218-257 | once both directories exist, a passing run leaves every desktop file the loop handled linked from the applications directory, and every MIME and cloud-provider file it deployed mirrored by a link back to it |
| Packaging.DataResult | ldnp/abstractpackager.py:205-257 | a passing `copy_data_to_usr` leaves the links FilesResult states in its final state |
| Packaging.MergeConf | ldnp/abstractpackager.py:282-284 | `native_packages` holds exactly the installed path; every other section is kept |
| Packaging.ReadConfig | ldnp/abstractpackager.py:274-280 | a missing file gives an empty configuration; a regular file is parsed |
| Packaging.ConfResult | ldnp/abstractpackager.py:271-287 | the run passes exactly when the configuration reads (or is missing) and the merged text can be written; the file the path leads to then holds that text, reading the path back gives it, and every other entry is unchanged |
| Packaging.CopyIdempotent | ldnp/abstractpackager.py:259-269 | copying the AppDir a second time gives the same state and outcome |
| Packaging.CreateRelativeSymlink | ldnp/abstractpackager.py:153-161 | unlink then symlink, as RelinkRun |
| Packaging.CreateBinaryScript | ldnp/abstractpackager.py:163-201 | write then chmod, as ScriptRun |
| Packaging.DeployFileAsIs | ldnp/abstractpackager.py:211-216 | makedirs then relink, as DeployRun |
| Packaging.DeployEach | ldnp/abstractpackager.py:231-232 | the deployment loop, as DeployEachRun, whose effect DeployEachResult and DeployEachFrame state |
| Packaging.InstallDesktopFile | ldnp/abstractpackager.py:218-248 | one desktop file, as DesktopStep |
| Packaging.InstallEntry | ldnp/abstractpackager.py:224-248 | the entry checks, icons and launcher, as EntryStep |
| Packaging.CopyDataToUsr | ldnp/abstractpackager.py:152-257 | `copy_data_to_usr`: the two makedirs, the desktop loop, then MIME and cloud-provider files, as DataRun, whose effect DataResult states |
| Packaging.CopyAppDirContents | ldnp/abstractpackager.py:259-269 | rmtree of an existing copy, then copytree, as CopyRun |
| Packaging.WriteLdnpConf | ldnp/abstractpackager.py:271-287 | `write_ldnp_conf`, as ConfRun |
| Rpm.MakeMetaInfo | ldnp/rpm.py:40-43 | the metadata populated with prefix `RPM` |
| Rpm.AncestorScanSpec | ldnp/rpm.py:29-37 | no symlink found exactly when every checked prefix is a plain directory; True only at the first symlinked prefix, with all earlier ones plain; AssertionError only at a prefix that is no directory |
| Rpm.ScanAncestors | ldnp/rpm.py:29-37 | the loop over prefix lengths with early return computes the scan |
| Rpm.AnyParentDirIsSymlink | ldnp/rpm.py:17-37 | as written: a directory that is a symlink gives False without checking its ancestors; a plain directory gives AssertionError; otherwise the scan |
| Rpm.IsAnyParentDirASymlink | ldnp/rpm.py:17-37 | the method computes the as-written test |
| Rpm.AsWrittenListsLinkBelowLink | ldnp/rpm.py:21-23 | for a link under a linked directory the as-written test says False, although its ancestor is a symlink |
| Rpm.LinkedAncestor | ldnp/rpm.py:17-37 | the corrected test: a plain directory is AssertionError, anything else is checked against its ancestors; agrees with the as-written test on non-directories |
| Rpm.EntrySpec | ldnp/rpm.py:83-106 | for the source's ancestor test and for the corrected one: a globbed path is skipped exactly when it is a plain directory or the test finds a symlinked ancestor; a listed one lies under the root, is its path below the root and is no plain directory; its ancestors are plain directories unless, with the source's test, it is itself a symlinked directory; ValueError for a path outside the root |
| Rpm.FileListMembers | ldnp/rpm.py:83-106 | the list has no duplicates and holds exactly the paths some entry gives |
| Rpm.FileListSucceeds | ldnp/rpm.py:104 | for distinct globbed paths that each pass, the duplicate assertion never fires |
| Rpm.NothingListedBelowListed | ldnp/rpm.py:96-100 | with the corrected test nothing is listed below a listed path; with the source's test the only such path is a symlinked directory |
| Rpm.NestedLinksFileLists | ldnp/rpm.py:83-106 | on the tree of the Findings row, the source's list is `/a`, `/a/b`, the second below the first; the corrected list is `/a` alone |
| Rpm.CollectFiles | ldnp/rpm.py:83-106 | the loop computes FileList with the source's ancestor test |
| Rpm.ListEntry | ldnp/rpm.py:84-106 | the loop body computes Entry with the source's ancestor test, calling IsAnyParentDirASymlink |
| Rpm.FixVersion | ldnp/rpm.py:110-114 | same length and no `-`; each `-` becomes `_`; unchanged exactly when there was no `-` |
| Rpm.VersionWarnedIff | ldnp/rpm.py:116-117 | the warning is logged exactly when the version holds a `-` |
| Rpm.FirstLine | ldnp/rpm.py:49 | a prefix without line boundaries, followed by a boundary or the end |
| Rpm.ExtractShebang | ldnp/rpm.py:48-54 | IndexError exactly for empty data; None exactly when the text does not start with `#!`; otherwise the rest of the first line |
| Rpm.ReadScriptlet | ldnp/rpm.py:56-62 | the file's content with its shebang, of the given type; an error when the file cannot be read or is empty |
| Rpm.ScriptletFor | ldnp/rpm.py:122-126 | at most one scriptlet, present exactly when `LDNP_RPM_SCRIPTLET_<type>` is non-empty |
| Rpm.ScriptletsInOrder | ldnp/rpm.py:119-126 | the collected types are the configured types in the fixed order |
| Rpm.CollectScriptlets | ldnp/rpm.py:119-126 | the loop computes Scriptlets |
| Rpm.SpecResult | ldnp/rpm.py:74-138 | a successful run writes, to `work_dir/package.spec` and nowhere else, the rendering of a sorted, duplicate-free permutation of the file list, a version without `-` and the scriptlets in order; a path listed below another is a symlinked directory, and only under the source's test |
| Rpm.GenerateSpecFile | ldnp/rpm.py:74-138 | `generate_spec_file`, as SpecRun with the source's ancestor test |
| Rpm.BuiltRpms | ldnp/rpm.py:170 | the `.rpm` entries below the output directory |
| Rpm.RpmRun | ldnp/rpm.py:170-178 | ValueError for none and for more than two packages found; shutil.Error when the output path is a directory already holding the package's name; otherwise passes exactly when the first can be moved, and then it sits at the destination, its old place is empty and nothing else changes; a failure changes nothing |
| Rpm.TwoBuiltRpmsAccepted | ldnp/rpm.py:175-178 | two built packages are accepted and the first is moved |
| Rpm.SingleRpmRun | ldnp/rpm.py:172-178 | the corrected half: more than one package found is refused; it passes exactly when one package is found and can be moved, and differs from RpmRun only for two |
| Rpm.GenerateRpm | ldnp/rpm.py:170-178 | `generate_rpm` after `rpmbuild`, as RpmRun |
| Rpm.PackageName | ldnp/rpm.py:183-194 | ends with `.rpm`, with `_<build_arch>` when set |
| Rpm.CreatePackage | ldnp/rpm.py:180-202 | returns the name and runs copy, merge, conf, spec (with the source's ancestor test) and rpm in order, as PackageRun |
| Deb.MakeMetaInfo | ldnp/deb.py:16-19 | the metadata populated with prefix `DEB` |
| Deb.EntrySize | ldnp/deb.py:32-36 | a symlink counts 0, anything else its `getsize`; the AppDir root, which the glob yields as `<appdir>/` so that `islink` sees through it, always counts its `getsize`, also when it is a symlink |
| Deb.SumSizesOk | ldnp/deb.py:41-46 | the sum exists exactly when every entry can be measured |
| Deb.SumSizesPermutation | ldnp/deb.py:41-46 | the sum does not depend on the glob order |
| Deb.KiB | ldnp/deb.py:40-48 | the least number of 1024-unit blocks that covers the total |
| Deb.KiBExact | ldnp/deb.py:40-48 | the size is 0 only for nothing, exact multiples give their quotient, and one byte more costs one more KiB |
| Deb.InstalledSizeOrderFree | ldnp/deb.py:40-48 | any two orders of the same glob give the same size |
| Deb.InstalledSizeCountsRoot | ldnp/deb.py:33-48 | a measured AppDir covers at least the `getsize` of the directory its root leads to, also when the AppDir is a symlink |
| Deb.LinkCountsNothing | ldnp/deb.py:33-34 | for every listing, the sum (or its error) is that of the listing's entries that `islink` does not report, wherever the links lead; the AppDir root is always kept |
| Deb.ReplacePairs | ldnp/deb.py:57 | `replace("\n\n", "\n")` shortens any text with a pair, so the loop ends |
| Deb.SqueezeReplacePairs | ldnp/deb.py:56-57 | one pass does not change what the loop ends with |
| Deb.SqueezeHasNoDouble | ldnp/deb.py:56 | the result holds no pair of newlines |
| Deb.SqueezeIdempotent | ldnp/deb.py:55-57 | collapsing again changes nothing |
| Deb.SqueezeKeepsLetters | ldnp/deb.py:55-57 | every other character is kept in order |
| Deb.Collapse | ldnp/deb.py:55-57 | the loop ends with the squeezed text and no pair of newlines |
| Deb.ControlTextShape | ldnp/deb.py:54-58 | the control text ends with a newline and has no blank line before it |
| Deb.ExtraTarget | ldnp/deb.py:73 | `DEBIAN/<basename>` |
| Deb.ExtraPieces | ldnp/deb.py:70-72 | none when the variable is unset or empty, otherwise its `;`-separated pieces |
| Deb.ExtraFileCopied | ldnp/deb.py:73-75 | one copy into a `DEBIAN` of regular files succeeds exactly when the piece names a regular file that is not `DEBIAN/<name>` itself, which is then stored at `DEBIAN/<name>` with nothing else changed; a piece leading to `DEBIAN/<name>` raises SameFileError |
| Deb.ExtraFilesResult | ldnp/deb.py:69-75 | the copies succeed exactly when every piece names a regular file; then each `DEBIAN/<name>` that no later piece is copied to holds its piece's file as it was, and every entry no piece is copied to is unchanged |
| Deb.DeployExtraFiles | ldnp/deb.py:72-75 | the loop, as ExtraFilesRun, whose effect ExtraFilesResult states |
| Deb.GenerateControlFile | ldnp/deb.py:31-75 | `generate_control_file`, as ControlRun |
| Deb.PackageName | ldnp/deb.py:93-104 | ends with `.deb`, with `_<architecture>` when set |
| Deb.GenerateShlibsFile | ldnp/deb.py:77-82 | does nothing and succeeds |
| Deb.CreatePackage | ldnp/deb.py:90-113 | returns the name and runs the six steps in order, as PackageRun |
| Legacy.LegacyPackager.constructor | ldnp/packager.py:18-34 | the fields are stored and both descriptions start as None |
| Legacy.LegacyPackager.InstallPath | ldnp/packager.py:28 | `install_root/opt/<package_name>.AppDir` for a plain name |
| Legacy.LegacyPackager.SetDescription | ldnp/packager.py:36-37 | sets the description, keeps the short description |
| Legacy.LegacyPackager.SetShortDescription | ldnp/packager.py:39-40 | as written: sets the description; the short description is unchanged |
| Legacy.LegacyPackager.FindDesktopFiles | ldnp/packager.py:42-44 | the `*.desktop` children of the copy's applications directory |
| Legacy.LegacyPackager.FindIcons | ldnp/packager.py:46-57 | every regular file with a dot in its name below the icons directory, hidden ones included |
| Legacy.LegacyPackager.BinaryLinked | ldnp/packager.py:89-97 | `usr/bin/<bin>` becomes a relative link, no entry other than it is added or changed, and when both paths are plain the link leads back to the copy's `usr/bin/<bin>` |
| Legacy.LegacyPackager.DesktopFound | ldnp/packager.py:42-44 | a desktop file the glob finds is resolved and lies directly in the copy's applications directory |
| Legacy.LegacyPackager.BinaryStepKeeps | ldnp/packager.py:89-97 | for a plain binary name, the binary link changes nothing outside the install root's `usr/bin` |
| Legacy.LegacyPackager.FailedStepSparesBin | ldnp/packager.py:83-97 | the `Exec=` checks come first: a failing step adds or changes nothing in `usr/bin`, and removes an entry there only after the entry was read and its binary found |
| Legacy.LegacyPackager.DesktopStepLinks | ldnp/packager.py:77-97 | after a passing step the applications directory holds a link back to the desktop file, and the keys stay resolved |
| Legacy.LegacyPackager.DesktopStepKeepsLink | ldnp/packager.py:77-97 | a step leaves the link of a desktop file with another name alone |
| Legacy.LegacyPackager.DesktopLoopLinks | ldnp/packager.py:77-97 | after a passing desktop loop every desktop file it handled is linked from the applications directory |
| Legacy.IconPhase | ldnp/packager.py:99-103 | the icon loop keeps the applications directory and mirrors every icon it deployed by a link back to it |
| Legacy.LegacyPackager.FilesResult | ldnp/packager.py:77-103 | once both directories exist, a passing run leaves every desktop file linked and every icon it deployed mirrored by a link back to it |
| Legacy.LegacyPackager.DataResult | ldnp/packager.py:71-103 | a passing older `copy_data_to_usr` leaves the links FilesResult states in its final state |
| Legacy.LegacyPackager.InstallDesktopFile | ldnp/packager.py:77-97 | one desktop file, as DesktopStep |
| Legacy.LegacyPackager.CopyDataToUsr | ldnp/packager.py:59-103 | the makedirs, the desktop loop, then the icons, as DataRun, whose effect DataResult states |
| Legacy.LegacyPackager.CopyAppDirContents | ldnp/packager.py:105-115 | rmtree of an existing copy, then copytree |

## Findings

| source | as written | input that shows it | evidently intended | confidence | as-written member | corrected member |
|---|---|---|---|---|---|---|
| ldnp/rpm.py:21-23 | an entry that is a symlinked directory makes `is_any_parent_dir_a_symlink` return False without checking its ancestors | install root `/r` with `/r/a` → `/d`, and `/r/a/b` (seen through that link) → `/e`: both `/a` and `/a/b` are listed, the second below the first | every entry that is not a plain directory is checked against its ancestors, so nothing is listed below a listed symlink | not executed | Rpm.AnyParentDirIsSymlink, Rpm.AsWrittenListsLinkBelowLink | Rpm.LinkedAncestor, Rpm.NothingListedBelowListed |
| ldnp/rpm.py:175-176 | `generate_rpm` refuses only more than two packages found, although its error message says "more than one RPM built" | an output directory in which `rpmbuild` left two `.rpm` files: no error, and the first one the glob lists is moved | two or more packages found are refused | not executed | Rpm.TwoBuiltRpmsAccepted | Rpm.SingleRpmRun |
| ldnp/abstractpackager.py:67-75 | the comment says a packager-specific `LDNP_META_<PREFIX>_` variable always takes precedence, but each variable overwrites the key in environment order, so the last one wins | `LDNP_META_RPM_VERSION=2` followed by `LDNP_META_VERSION=1` stores version `1` | the specific variable's value is stored whenever one exists | not executed | Meta.PrecedenceFollowsOrder | Meta.PreferringSpecificWins |

The packaging runs model the program as written in all three cases:
- `Rpm.SpecRun` runs with `AsWritten`;
- `Rpm.PackageRun` uses `RpmRun`;
- `Meta.MetaInfo` fills its dictionary with `Populate`.

The corrected members stand beside them, and the lemmas show where the two differ.

## Left out

- The command line (`ldnp/__main__.py`), logging, `run_command` and signing (`rpmsign`, `dpkg-sig`, the gnupg key lookup) are not part of this model.
  - They are entry-point glue or external processes.
- `rpmbuild` and `dpkg-deb` are parameters (`FS -> FS`) that give the output directory's new content. Their arguments are not modelled.
  - Because these parameters are total, a build that fails (`check_call` raising CalledProcessError) cannot occur in the model.
  - In particular, a `build_arch` that is None is passed to `subprocess` as it stands. That raises TypeError in the source; here the build runs.
- Template rendering (`ldnp/templating.py`) is a renderer parameter of the inputs it is given. The templates are not part of this model.
- `xdg.DesktopEntry`, `shlex.split` and `configparser`'s file syntax are parameters. `shlex.quote` is modelled and its round trip proved.
- Directory listing order is a `Listing` parameter. The lemmas hold for every listing.
- Filesystem semantics are simplified:
  - only the final symlink of a path is followed;
  - `..` is resolved lexically;
  - a path reached through a symlinked directory is its own entry, and later changes do not keep such entries in step with their link;
  - the umask is taken as 0o022;
  - `getsize` is the size an entry carries: a write sets a file's size to the text's length in characters, a directory the packager creates has 4096, and any other entry keeps the size it was given.
- Paths given relative in the environment (scriptlet files, extra Debian files) and the output path are taken from `/`. The process's working directory is not modelled.
- The icon, MIME and cloud-provider locations are not defined in the AppDir source. They are modelled as `usr/share/icons`, `usr/share/mime` and `usr/share/cloud-providers`.
- `str.upper` is modelled on ASCII letters only.
- Deb.InstalledSize: `math.ceil(sum / 1024)` is computed with integers. No floating-point rounding is modelled for very large totals.
- Legacy.LegacyPackager.InstallPath: the ensures states the path only for a package name that is one plain component. For other names the path is whatever `JoinStr` gives.
- The `guess_package_*` stubs of `AppDir` return NotImplemented and are not modelled.
- Packaging.CopyDataToUsr: the whole-run lemmas (`Packaging.DataResult`, `Packaging.FilesResult`) state the desktop links and the MIME and cloud-provider mirrors. The launchers in `usr/bin` and the icon mirrors are stated per step (`Packaging.LaunchStepWrites`, `Packaging.DeployEachResult`), not over the whole desktop loop. Two cases stand in the way of a whole-loop statement:
  - a first `Exec=` word that is not one plain component (`../share/icons/…` passes the existence check at ldnp/abstractpackager.py:239-243), so that a later launcher is written through an icon mirror or another desktop file's link into the AppDir copy;
  - two `usr/bin` paths that lead to the same file, so that a later launcher overwrites an earlier one.
- Packaging.DataResult: stated for an install path of plain components (a package name without `/`, `.` or `..` parts) and for a listing that yields only globbed paths.
- Packaging.FilesResult: stated under the same two hypotheses as `Packaging.DataResult`.
- Legacy.LegacyPackager.DataResult: also assumes that the first word of every `Exec=` is one plain path component (`PlainWords`). A first word holding `/`, `.` or `..` puts the binary link elsewhere in the install root, possibly over a desktop link, and nothing is stated for that case.
- Legacy.LegacyPackager.FilesResult: stated under the same `PlainWords` and plain-path hypotheses as `Legacy.LegacyPackager.DataResult`.
- Legacy.LegacyPackager.BinaryLinked: the `usr/bin` link is stated for one desktop file's step, not over the whole loop. A later desktop file naming the same binary replaces the link.
- Deb.ExtraFilesResult: stated for a `DEBIAN` that holds regular files only, and for pieces that are plain paths none of which leads below `DEBIAN`. A copy onto a link inside `DEBIAN`, or from a file the earlier copies changed, is not stated.
- FileSystem.AfterMove: models the rename of a single entry, as for the built package file. Moving a directory onto itself (the same-file rename of `shutil.move`) and the copy that `shutil.move` falls back to across filesystems are not modelled; a directory source would move without the entries below it.
- Meta.MetaInfo.SetDefault: `default` is a string. The source's `default=None` stores None, which a dictionary of strings cannot hold.
