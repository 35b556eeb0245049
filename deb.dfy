/**
 * The Debian packager: the `Installed-Size` field, the control file with its
 * blank lines collapsed, the extra files of the `DEBIAN` directory and the
 * order of the steps of `create_package`.
 */
module Deb {
  import opened Wrappers
  import opened Paths
  import opened FileSystem
  import opened AppDirs
  import opened Packaging
  import Text
  import Meta

  /** `DebMetaInfo.packager_prefix()`: variables `LDNP_META_DEB_*` are Debian-specific. */
  const MetaPrefix: string := "DEB"

  /** `make_meta_info()`: the metadata read from the environment with the Debian prefix. */
  method MakeMetaInfo(environ: Meta.Environment) returns (m: Meta.MetaInfo)
    ensures fresh(m) && m.data == Meta.Populate(MetaPrefix, environ)
  {
    m := new Meta.MetaInfo(MetaPrefix, environ);
  }

  // ---------------------------------------------------------------------------
  // Installed-Size (section 5.6.20 of the Debian Policy Manual: an estimate in KiB).

  /**
   * Whether `os.path.islink` is True for the glob's item naming `p`.  The glob
   * of the root, `**` with `recursive=True`, yields the root itself as `<root>/`, and a trailing slash
   * makes `lstat` resolve a symlinked directory, so the root is never a link
   * here; any other symlink is.
   */
  predicate CountedAsLink(fs: FS, root: seq<string>, p: seq<string>) {
    p != root && IsSymlink(fs, p)
  }

  /** `get_size`: a symlink counts 0; anything else what `os.path.getsize` reports. */
  function EntrySize(fs: FS, root: seq<string>, p: seq<string>): (r: Result<nat>)
    ensures CountedAsLink(fs, root, p) ==> r == Ok(0)
    ensures !CountedAsLink(fs, root, p) ==> r == GetSize(fs, p)
    ensures p == root ==> r == GetSize(fs, p)
  {
    if CountedAsLink(fs, root, p) then Ok(0) else GetSize(fs, p)
  }

  /** `sum(map(get_size, paths))`: the first entry that cannot be measured raises. */
  function SumSizes(fs: FS, root: seq<string>, paths: seq<seq<string>>): Result<nat>
    decreases |paths|
  {
    if paths == [] then Ok(0)
    else
      var first :- EntrySize(fs, root, paths[0]);
      var rest :- SumSizes(fs, root, paths[1..]);
      Ok(first + rest)
  }

  predicate Measurable(fs: FS, root: seq<string>, paths: seq<seq<string>>) {
    forall i :: 0 <= i < |paths| ==> EntrySize(fs, root, paths[i]).Ok?
  }

  /** The sum exists exactly when every entry can be measured. */
  lemma {:induction false} SumSizesOk(fs: FS, root: seq<string>, paths: seq<seq<string>>)
    ensures SumSizes(fs, root, paths).Ok? <==> Measurable(fs, root, paths)
    decreases |paths|
  {
    if paths != [] {
      SumSizesOk(fs, root, paths[1..]);
      assert forall i :: 1 <= i < |paths| ==> paths[1..][i - 1] == paths[i];
      if Measurable(fs, root, paths[1..]) && EntrySize(fs, root, paths[0]).Ok? {
        forall i | 0 <= i < |paths| ensures EntrySize(fs, root, paths[i]).Ok? {
          if i > 0 { assert paths[i] == paths[1..][i - 1]; }
        }
      }
    }
  }

  /** The measured size of each entry, 0 for one that cannot be measured. */
  function SizeOf(fs: FS, root: seq<string>): seq<string> -> nat {
    p => if EntrySize(fs, root, p).Ok? then EntrySize(fs, root, p).value else 0
  }

  /** The total weight of a listing. */
  function Total(w: seq<string> -> nat, paths: seq<seq<string>>): nat
    decreases |paths|
  {
    if paths == [] then 0 else w(paths[0]) + Total(w, paths[1..])
  }

  lemma {:induction false} SumSizesTotal(fs: FS, root: seq<string>, paths: seq<seq<string>>)
    requires Measurable(fs, root, paths)
    ensures SumSizes(fs, root, paths) == Ok(Total(SizeOf(fs, root), paths))
    decreases |paths|
  {
    if paths != [] {
      assert forall i :: 0 <= i < |paths| - 1 ==> paths[1..][i] == paths[i + 1];
      SumSizesTotal(fs, root, paths[1..]);
    }
  }

  lemma {:induction false} TotalAppend(w: seq<string> -> nat, a: seq<seq<string>>, b: seq<seq<string>>)
    ensures Total(w, a + b) == Total(w, a) + Total(w, b)
    decreases |a|
  {
    if a == [] {
      assert a + b == b;
    } else {
      assert (a + b)[0] == a[0] && (a + b)[1..] == a[1..] + b;
      TotalAppend(w, a[1..], b);
    }
  }

  lemma {:induction false} TotalPermutation(w: seq<string> -> nat, a: seq<seq<string>>, b: seq<seq<string>>)
    requires multiset(a) == multiset(b)
    ensures Total(w, a) == Total(w, b)
    decreases |a|
  {
    if a == [] {
      assert |b| == |multiset(b)| == 0;
    } else {
      assert a[0] in multiset(b);
      var k :| 0 <= k < |b| && b[k] == a[0];
      var rest := b[..k] + b[k + 1..];
      RemoveOne(a, b, k);
      TotalPermutation(w, a[1..], rest);
      TotalRemove(w, b, k);
    }
  }

  /** Taking the same element out of two permutations leaves permutations. */
  lemma RemoveOne(a: seq<seq<string>>, b: seq<seq<string>>, k: nat)
    requires multiset(a) == multiset(b) && a != [] && k < |b| && b[k] == a[0]
    ensures multiset(a[1..]) == multiset(b[..k] + b[k + 1..])
  {
    var rest := b[..k] + b[k + 1..];
    assert b == b[..k] + ([b[k]] + b[k + 1..]);
    assert a == [a[0]] + a[1..];
    calc {
      multiset(a[1..]) + multiset([a[0]]);
      multiset(b);
      multiset(b[..k]) + multiset([b[k]]) + multiset(b[k + 1..]);
      multiset(rest) + multiset([a[0]]);
    }
    forall x ensures multiset(a[1..])[x] == multiset(rest)[x] {
      assert (multiset(a[1..]) + multiset([a[0]]))[x] == (multiset(rest) + multiset([a[0]]))[x];
    }
  }

  /** The total of a listing is the weight of one entry plus the total of the others. */
  lemma TotalRemove(w: seq<string> -> nat, b: seq<seq<string>>, k: nat)
    requires k < |b|
    ensures Total(w, b) == w(b[k]) + Total(w, b[..k] + b[k + 1..])
  {
    var pre, post := b[..k], b[k + 1..];
    var tail := [b[k]] + post;
    assert b == pre + tail;
    assert tail[0] == b[k] && tail[1..] == post;
    assert Total(w, tail) == w(b[k]) + Total(w, post);
    TotalAppend(w, pre, post);
    TotalAppend(w, pre, tail);
  }

  /**
   * The sum does not depend on the order the glob yields the entries in: two
   * listings of the same entries are both measurable or both not, and give
   * the same total.
   */
  lemma SumSizesPermutation(fs: FS, root: seq<string>, a: seq<seq<string>>, b: seq<seq<string>>)
    requires multiset(a) == multiset(b)
    ensures SumSizes(fs, root, a).Ok? <==> SumSizes(fs, root, b).Ok?
    ensures SumSizes(fs, root, a).Ok? ==> SumSizes(fs, root, a) == SumSizes(fs, root, b)
  {
    SumSizesOk(fs, root, a);
    SumSizesOk(fs, root, b);
    MeasurableSameElements(fs, root, a, b);
    MeasurableSameElements(fs, root, b, a);
    if Measurable(fs, root, a) {
      SumSizesTotal(fs, root, a);
      SumSizesTotal(fs, root, b);
      TotalPermutation(SizeOf(fs, root), a, b);
    }
  }

  /** Measurability carries over to a listing whose entries all occur in a measurable one. */
  lemma MeasurableSameElements(fs: FS, root: seq<string>, a: seq<seq<string>>, b: seq<seq<string>>)
    requires forall x :: x in multiset(b) ==> x in multiset(a)
    ensures Measurable(fs, root, a) ==> Measurable(fs, root, b)
  {
    if Measurable(fs, root, a) {
      forall i | 0 <= i < |b| ensures EntrySize(fs, root, b[i]).Ok? {
        assert b[i] in multiset(b);
        var j :| 0 <= j < |a| && a[j] == b[i];
      }
    }
  }

  /** `math.ceil(total / 1024)` on a non-negative total, as integer arithmetic. */
  function KiB(total: nat): (r: nat)
    ensures r * 1024 >= total
    ensures r > 0 ==> (r - 1) * 1024 < total
  {
    (total + 1023) / 1024
  }

  /** The rounding gives zero only for nothing, exact multiples of 1024 exactly, and one byte more a block more. */
  lemma KiBExact(k: nat)
    ensures KiB(k) == 0 <==> k == 0
    ensures KiB(k * 1024) == k
    ensures KiB(k * 1024 + 1) == k + 1
  {
  }

  /**
   * `installed_size`: the recursive glob of the original AppDir (the AppDir
   * itself included as `<appdir>/`, hidden entries not), every entry
   * measured, rounded up to KiB.
   */
  function InstalledSize(fs: FS, a: AppDir, listing: Listing): Result<nat> {
    var total :- SumSizes(fs, a.path, listing(Tree(fs, a.path, false)));
    Ok(KiB(total))
  }

  /** Any two listings of the same glob result give the same size. */
  lemma InstalledSizeOrderFree(fs: FS, a: AppDir, l1: Listing, l2: Listing)
    requires Enumerates(l1(Tree(fs, a.path, false)), Tree(fs, a.path, false))
    requires Enumerates(l2(Tree(fs, a.path, false)), Tree(fs, a.path, false))
    ensures InstalledSize(fs, a, l1) == InstalledSize(fs, a, l2) || (InstalledSize(fs, a, l1).Err? && InstalledSize(fs, a, l2).Err?)
  {
    var t := Tree(fs, a.path, false);
    DistinctMultiset(l1(t), t);
    DistinctMultiset(l2(t), t);
    SumSizesPermutation(fs, a.path, l1(t), l2(t));
  }

  /**
   * The AppDir's own directory is always counted, also when the AppDir is a
   * symlink to it: a measured glob covers at least the size `getsize`
   * reports for the directory the root leads to.
   */
  lemma InstalledSizeCountsRoot(fs: FS, a: AppDir, listing: Listing)
    requires Enumerates(listing(Tree(fs, a.path, false)), Tree(fs, a.path, false))
    requires IsDir(fs, a.path)
    ensures InstalledSize(fs, a, listing).Ok? ==> InstalledSize(fs, a, listing).value * 1024 >= Stat(fs, a.path).value.size
  {
    var xs := listing(Tree(fs, a.path, false));
    if InstalledSize(fs, a, listing).Ok? {
      assert a.path in Tree(fs, a.path, false);
      var i :| 0 <= i < |xs| && xs[i] == a.path;
      EntryWithinSum(fs, a.path, xs, i);
    }
  }

  /** Every entry of a measured listing weighs at most the whole sum. */
  lemma EntryWithinSum(fs: FS, root: seq<string>, paths: seq<seq<string>>, i: nat)
    requires i < |paths| && SumSizes(fs, root, paths).Ok?
    ensures EntrySize(fs, root, paths[i]).Ok? && EntrySize(fs, root, paths[i]).value <= SumSizes(fs, root, paths).value
  {
    SumSizesOk(fs, root, paths);
    SumSizesTotal(fs, root, paths);
    TotalRemove(SizeOf(fs, root), paths, i);
  }

  /** A duplicate-free enumeration of a set holds each member once. */
  lemma DistinctMultiset(xs: seq<seq<string>>, s: set<seq<string>>)
    requires Enumerates(xs, s)
    ensures forall x :: multiset(xs)[x] == if x in s then 1 else 0
  {
    forall x ensures multiset(xs)[x] == if x in s then 1 else 0 {
      DistinctCount(xs, x);
    }
  }

  lemma {:induction false} DistinctCount(xs: seq<seq<string>>, x: seq<string>)
    requires forall i, j :: 0 <= i < j < |xs| ==> xs[i] != xs[j]
    ensures multiset(xs)[x] == if x in xs then 1 else 0
    decreases |xs|
  {
    if xs != [] {
      var rest := xs[1..];
      assert xs == [xs[0]] + rest;
      assert forall i, j :: 0 <= i < j < |rest| ==> rest[i] == xs[i + 1] && rest[j] == xs[j + 1];
      DistinctCount(rest, x);
      if x == xs[0] {
        assert x !in rest;
      }
    }
  }

  /** The entries of a listing that are not symlinks, in their order. */
  function NonLinks(fs: FS, root: seq<string>, paths: seq<seq<string>>): (r: seq<seq<string>>)
    ensures forall x :: x in r <==> x in paths && !CountedAsLink(fs, root, x)
    decreases |paths|
  {
    if paths == [] then []
    else (if CountedAsLink(fs, root, paths[0]) then [] else [paths[0]]) + NonLinks(fs, root, paths[1..])
  }

  /**
   * Symlinks count nothing, wherever they lead: a listing measures exactly as
   * its entries that are not symlinks do, errors included.
   */
  lemma {:induction false} LinkCountsNothing(fs: FS, root: seq<string>, paths: seq<seq<string>>)
    ensures SumSizes(fs, root, paths) == SumSizes(fs, root, NonLinks(fs, root, paths))
    decreases |paths|
  {
    if paths != [] {
      var tail := paths[1..];
      LinkCountsNothing(fs, root, tail);
      var rest := NonLinks(fs, root, tail);
      if CountedAsLink(fs, root, paths[0]) {
        assert NonLinks(fs, root, paths) == rest;
        SumSizesSkipsLink(fs, root, paths);
      } else {
        var kept := [paths[0]] + rest;
        assert NonLinks(fs, root, paths) == kept;
        assert kept[0] == paths[0] && kept[1..] == rest;
        SumSizesSameHead(fs, root, paths, kept);
      }
    }
  }

  lemma SumSizesSkipsLink(fs: FS, root: seq<string>, paths: seq<seq<string>>)
    requires paths != [] && CountedAsLink(fs, root, paths[0])
    ensures SumSizes(fs, root, paths) == SumSizes(fs, root, paths[1..])
  {
  }

  lemma SumSizesSameHead(fs: FS, root: seq<string>, a: seq<seq<string>>, b: seq<seq<string>>)
    requires a != [] && b != [] && a[0] == b[0] && SumSizes(fs, root, a[1..]) == SumSizes(fs, root, b[1..])
    ensures SumSizes(fs, root, a) == SumSizes(fs, root, b)
  {
    var first, rest := EntrySize(fs, root, a[0]), SumSizes(fs, root, a[1..]);
    assert SumSizes(fs, root, a) == if first.Err? then Err(first.error) else if rest.Err? then Err(rest.error) else Ok(first.value + rest.value);
    assert SumSizes(fs, root, b) == if first.Err? then Err(first.error) else if rest.Err? then Err(rest.error) else Ok(first.value + rest.value);
  }

  // ---------------------------------------------------------------------------
  // Collapsing blank lines.

  /** `"\n\n" in s`. */
  predicate HasDouble(s: string) {
    exists i :: 0 <= i < |s| - 1 && s[i] == '\n' && s[i + 1] == '\n'
  }

  /** `s.replace("\n\n", "\n")`: pairs are replaced left to right, without overlap. */
  function ReplacePairs(s: string): (r: string)
    ensures |r| <= |s|
    ensures HasDouble(s) ==> |r| < |s|
    ensures s != "" ==> r != "" && r[0] == s[0]
    decreases |s|
  {
    if |s| >= 2 && s[0] == '\n' && s[1] == '\n' then "\n" + ReplacePairs(s[2..])
    else if s == "" then ""
    else
      var r := [s[0]] + ReplacePairs(s[1..]);
      assert HasDouble(s) ==> HasDouble(s[1..]) by {
        if HasDouble(s) {
          var i :| 0 <= i < |s| - 1 && s[i] == '\n' && s[i + 1] == '\n';
          assert s[1..][i - 1] == s[i];
        }
      }
      r
  }

  /** The text with every run of newlines reduced to one newline: what the loop computes. */
  function Squeeze(s: string): string
    decreases |s|
  {
    if |s| < 2 then s
    else if s[0] == '\n' && s[1] == '\n' then Squeeze(s[1..])
    else [s[0]] + Squeeze(s[1..])
  }

  /** Putting `c` in front of an already squeezed text. */
  function Cons(c: char, u: string): string {
    if c == '\n' && u != "" && u[0] == '\n' then u else [c] + u
  }

  lemma SqueezeHead(s: string)
    ensures s != "" <==> Squeeze(s) != ""
    ensures s != "" ==> Squeeze(s)[0] == s[0]
    decreases |s|
  {
    if |s| >= 2 && s[0] == '\n' && s[1] == '\n' {
      SqueezeHead(s[1..]);
    }
  }

  lemma SqueezeCons(c: char, t: string)
    ensures Squeeze([c] + t) == Cons(c, Squeeze(t))
  {
    SqueezeHead(t);
    assert ([c] + t)[1..] == t;
  }

  /** One pass of `replace` does not change what the loop ends with. */
  lemma {:induction false} SqueezeReplacePairs(s: string)
    ensures Squeeze(ReplacePairs(s)) == Squeeze(s)
    decreases |s|
  {
    if |s| >= 2 && s[0] == '\n' && s[1] == '\n' {
      SqueezeReplacePairs(s[2..]);
      SqueezeCons('\n', ReplacePairs(s[2..]));
      SqueezeCons('\n', s[2..]);
      assert s[1..] == "\n" + s[2..];
    } else if s != "" {
      SqueezeReplacePairs(s[1..]);
      SqueezeCons(s[0], ReplacePairs(s[1..]));
      SqueezeCons(s[0], s[1..]);
      assert s == [s[0]] + s[1..];
    }
  }

  /** A text without a pair of newlines is already squeezed. */
  lemma {:induction false} SqueezeNoDouble(s: string)
    requires !HasDouble(s)
    ensures Squeeze(s) == s
    decreases |s|
  {
    if |s| >= 2 {
      assert !(s[0] == '\n' && s[1] == '\n');
      assert !HasDouble(s[1..]);
      SqueezeNoDouble(s[1..]);
    }
  }

  /** A squeezed text has no pair of newlines. */
  lemma {:induction false} SqueezeHasNoDouble(s: string)
    ensures !HasDouble(Squeeze(s))
    decreases |s|
  {
    if |s| >= 2 {
      SqueezeHasNoDouble(s[1..]);
      if !(s[0] == '\n' && s[1] == '\n') {
        var t := Squeeze(s[1..]);
        SqueezeHead(s[1..]);
        var r := [s[0]] + t;
        forall i | 0 <= i < |r| - 1 ensures !(r[i] == '\n' && r[i + 1] == '\n') {
          if i > 0 {
            assert r[i] == t[i - 1] && r[i + 1] == t[i];
          }
        }
      }
    }
  }

  /** Collapsing is idempotent. */
  lemma SqueezeIdempotent(s: string)
    ensures Squeeze(Squeeze(s)) == Squeeze(s)
  {
    SqueezeHasNoDouble(s);
    SqueezeNoDouble(Squeeze(s));
  }

  /** The characters other than newlines, in order. */
  function Letters(s: string): (r: string)
    ensures '\n' !in r
    decreases |s|
  {
    if s == "" then "" else (if s[0] == '\n' then "" else [s[0]]) + Letters(s[1..])
  }

  /** Collapsing keeps every other character, in order. */
  lemma {:induction false} SqueezeKeepsLetters(s: string)
    ensures Letters(Squeeze(s)) == Letters(s)
    decreases |s|
  {
    if |s| >= 2 {
      SqueezeKeepsLetters(s[1..]);
      if !(s[0] == '\n' && s[1] == '\n') {
        assert ([s[0]] + Squeeze(s[1..]))[1..] == Squeeze(s[1..]);
      }
    }
  }

  /** The loop of `generate_control_file`: replace pairs of newlines until none is left. */
  method Collapse(rendered: string) returns (r: string)
    ensures r == Squeeze(rendered)
    ensures !HasDouble(r)
  {
    r := rendered;
    while HasDouble(r)
      invariant Squeeze(r) == Squeeze(rendered)
      decreases |r|
    {
      SqueezeReplacePairs(r);
      r := ReplacePairs(r);
    }
    SqueezeNoDouble(r);
  }

  /** The control text written: the collapsed rendering and a trailing newline. */
  function ControlText(rendered: string): string {
    Squeeze(rendered) + "\n"
  }

  /** It ends in a newline, and has no blank line before that final newline. */
  lemma ControlTextShape(rendered: string)
    ensures var t := ControlText(rendered);
      t != "" && t[|t| - 1] == '\n' && !HasDouble(t[..|t| - 1]) &&
      Letters(t) == Letters(rendered)
  {
    var t := ControlText(rendered);
    SqueezeHasNoDouble(rendered);
    SqueezeKeepsLetters(rendered);
    assert t[..|t| - 1] == Squeeze(rendered);
    LettersAppend(Squeeze(rendered), "\n");
  }

  lemma {:induction false} LettersAppend(a: string, b: string)
    ensures Letters(a + b) == Letters(a) + Letters(b)
    decreases |a|
  {
    if a == "" {
      assert a + b == b;
    } else {
      assert (a + b)[0] == a[0] && (a + b)[1..] == a[1..] + b;
      LettersAppend(a[1..], b);
    }
  }

  // ---------------------------------------------------------------------------
  // The control file and the extra files.

  /** What the `deb/control` template is given. */
  datatype ControlInputs = ControlInputs(meta: map<string, string>, installedSize: nat)

  /** Rendering of the `deb/control` template. */
  type ControlRenderer = ControlInputs -> string

  /** `install_root_dir/DEBIAN`. */
  function DebianDir(p: Packager): seq<string> {
    p.context.installRoot + ["DEBIAN"]
  }

  const ExtraFilesVariable: string := "LDNP_DEB_EXTRA_DEBIAN_FILES"

  /** `debian_dir / path.name`: the directory itself for a path without a name. */
  function ExtraTarget(debianDir: seq<string>, piece: string): (r: seq<string>)
    ensures Name(Parse(piece).parts) == "" ==> r == debianDir
    ensures Name(Parse(piece).parts) != "" ==> r == debianDir + [Name(Parse(piece).parts)]
  {
    var name := Name(Parse(piece).parts);
    if name == "" then debianDir else debianDir + [name]
  }

  /** The extra files copied one after the other; the first copy that fails ends the run. */
  function ExtraFilesRun(fs: FS, debianDir: seq<string>, pieces: seq<string>): Run
    decreases |pieces|
  {
    if pieces == [] then Run(fs, Pass)
    else
      match AfterCopyFile(fs, Parse(pieces[0]).parts, ExtraTarget(debianDir, pieces[0]))
      case Err(e) => Run(fs, Fail(e))
      case Ok(f) => ExtraFilesRun(f, debianDir, pieces[1..])
  }

  /** The pieces of the variable, or none when it is unset or empty. */
  function ExtraPieces(environ: Meta.Environment): (r: seq<string>)
    ensures !Meta.EnvSet(environ, ExtraFilesVariable) ==> r == []
    ensures Meta.EnvSet(environ, ExtraFilesVariable) ==>
      r == Text.Split(Meta.EnvGet(environ, ExtraFilesVariable).value, ';') &&
      Text.Join(r, ";") == Meta.EnvGet(environ, ExtraFilesVariable).value
  {
    match Meta.EnvGet(environ, ExtraFilesVariable)
    case None => []
    case Some(v) =>
      if v == "" then []
      else
        Text.JoinSplit(v, ';');
        Text.Split(v, ';')
  }

  /**
   * `generate_control_file`: measure the AppDir, render and collapse the
   * control text, create `DEBIAN` and write `DEBIAN/control`, then copy the
   * extra files into `DEBIAN`.
   */
  function ControlRun(p: Packager, fs: FS, environ: Meta.Environment, listing: Listing, render: ControlRenderer): Run
    reads p.meta
  {
    match InstalledSize(fs, p.appdir, listing)
    case Err(e) => Run(fs, Fail(e))
    case Ok(size) =>
      var text := ControlText(render(ControlInputs(p.meta.data, size)));
      match AfterMakeDirs(fs, DebianDir(p))
      case Err(e) => Run(fs, Fail(e))
      case Ok(f1) =>
        match AfterWriteText(f1, DebianDir(p) + ["control"], text)
        case Err(e) => Run(f1, Fail(e))
        case Ok(f2) => ExtraFilesRun(f2, DebianDir(p), ExtraPieces(environ))
  }

  /** `DEBIAN` is a directory that holds regular files only. */
  ghost predicate FlatDir(fs: FS, d: Path) {
    d in fs && fs[d].Dir? && forall k :: k in fs && IsStrictlyBelow(d, k) ==> fs[k].File?
  }

  /** Every piece names a plain path, and none leads through links to an entry below `d`. */
  ghost predicate SourcesOutside(fs: FS, d: Path, pieces: seq<string>) {
    forall i :: 0 <= i < |pieces| ==>
      Plain(Parse(pieces[i]).parts) &&
      (Follow(fs, Parse(pieces[i]).parts, MaxSymlinks).Ok? ==>
        !IsStrictlyBelow(d, Follow(fs, Parse(pieces[i]).parts, MaxSymlinks).value))
  }

  /**
   * One copy into a `DEBIAN` of regular files succeeds exactly when the piece
   * names a regular file other than `DEBIAN/<name>` itself; its node is then
   * stored at `DEBIAN/<name>` and nothing else changes.  A piece that leads to
   * `DEBIAN/<name>` raises SameFileError.
   */
  lemma ExtraFileCopied(fs: FS, d: Path, piece: string)
    requires Plain(d) && FlatDir(fs, d) && Plain(Parse(piece).parts)
    ensures var src := Parse(piece).parts;
      AfterCopyFile(fs, src, ExtraTarget(d, piece)).Ok? <==>
        |src| > 0 && IsFile(fs, src) && Follow(fs, src, MaxSymlinks) != Ok(ExtraTarget(d, piece))
    ensures |Parse(piece).parts| > 0 ==> IsStrictlyBelow(d, ExtraTarget(d, piece))
    ensures var src := Parse(piece).parts;
      |src| > 0 && IsFile(fs, src) && Follow(fs, src, MaxSymlinks) == Ok(ExtraTarget(d, piece)) ==>
        AfterCopyFile(fs, src, ExtraTarget(d, piece)) == Err(SameFileError(ExtraTarget(d, piece)))
    ensures var src := Parse(piece).parts;
      |src| > 0 && IsFile(fs, src) && Follow(fs, src, MaxSymlinks) != Ok(ExtraTarget(d, piece)) ==>
        StoredAt(fs, AfterCopyFile(fs, src, ExtraTarget(d, piece)).value, ExtraTarget(d, piece), Stat(fs, src).value)
  {
    var src := Parse(piece).parts;
    var t := ExtraTarget(d, piece);
    assert Key(d) == d;
    assert Follow(fs, d, MaxSymlinks) == Ok(d);
    if |src| > 0 {
      var name := src[|src| - 1];
      assert PlainComponent(name);
      assert t == d + [name];
      PlainConcat(d, [name]);
      assert Key(t) == t;
      assert Follow(fs, t, MaxSymlinks) == Ok(t);
      assert !IsDir(fs, t);
      assert Destination(fs, src, t) == t;
      assert Parent(t) == d;
    } else if IsFile(fs, src) {
      assert t == d;
      assert Destination(fs, src, t) == d + [""];
      assert (d + [""])[|d|] == "";
      ResolveAppend([], d, [""]);
      ResolvePlainPath(d);
      assert [""][1..] == [];
      assert Resolve(d, [""]) == d;
      assert Key(d + [""]) == d;
    }
  }

  /** Every piece names a regular file. */
  ghost predicate CopiesSucceed(fs: FS, pieces: seq<string>) {
    forall i :: 0 <= i < |pieces| ==> |Parse(pieces[i]).parts| > 0 && IsFile(fs, Parse(pieces[i]).parts)
  }

  /** No piece after the `i`-th is copied to the `i`-th piece's target. */
  ghost predicate LastTo(d: Path, pieces: seq<string>, i: nat)
    requires i < |pieces|
  {
    forall j :: i < j < |pieces| ==> ExtraTarget(d, pieces[j]) != ExtraTarget(d, pieces[i])
  }

  /** The `i`-th piece's target holds that piece's file as `fs` has it. */
  ghost predicate LandsAt(fs: FS, after: FS, d: Path, pieces: seq<string>, i: nat)
    requires i < |pieces|
  {
    ExtraTarget(d, pieces[i]) in after && Stat(fs, Parse(pieces[i]).parts) == Some(after[ExtraTarget(d, pieces[i])])
  }

  /** Each target that no later piece is copied to holds its piece's file as `fs` has it. */
  ghost predicate LastCopiesLand(fs: FS, after: FS, d: Path, pieces: seq<string>) {
    forall i :: 0 <= i < |pieces| && LastTo(d, pieces, i) ==> LandsAt(fs, after, d, pieces, i)
  }

  /** Every entry that no piece is copied to is as in `fs`. */
  ghost predicate OthersKept(fs: FS, after: FS, d: Path, pieces: seq<string>) {
    forall k :: (forall i :: 0 <= i < |pieces| ==> k != ExtraTarget(d, pieces[i])) ==>
      (k in after <==> k in fs) && (k in fs ==> after[k] == fs[k])
  }

  /**
   * `DEBIAN/<name>` receives each piece's file as it was before the copies:
   * the copies succeed exactly when every piece names a regular file; then a
   * target that no later piece is copied to holds its piece's file, and every
   * entry that no piece is copied to is as it was.
   */
  lemma {:induction false} ExtraFilesResult(fs: FS, d: Path, pieces: seq<string>)
    requires Plain(d) && FlatDir(fs, d) && SourcesOutside(fs, d, pieces)
    ensures ExtraFilesRun(fs, d, pieces).outcome == Pass <==> CopiesSucceed(fs, pieces)
    ensures ExtraFilesRun(fs, d, pieces).outcome == Pass ==>
      LastCopiesLand(fs, ExtraFilesRun(fs, d, pieces).fs, d, pieces) &&
      OthersKept(fs, ExtraFilesRun(fs, d, pieces).fs, d, pieces)
    decreases |pieces|
  {
    if pieces != [] {
      var src := Parse(pieces[0]).parts;
      var t := ExtraTarget(d, pieces[0]);
      ExtraFileCopied(fs, d, pieces[0]);
      if |src| > 0 && IsFile(fs, src) {
        var f := AfterCopyFile(fs, src, t).value;
        var rest := pieces[1..];
        assert AgreeAbove(fs, f, d);
        assert FlatDir(f, d);
        forall j | 0 <= j < |rest|
          ensures Follow(f, Parse(rest[j]).parts, MaxSymlinks) == Follow(fs, Parse(rest[j]).parts, MaxSymlinks)
          ensures Stat(f, Parse(rest[j]).parts) == Stat(fs, Parse(rest[j]).parts)
        {
          assert rest[j] == pieces[j + 1];
          StatAbove(fs, f, d, Parse(rest[j]).parts);
        }
        assert SourcesOutside(f, d, rest);
        assert ExtraFilesRun(fs, d, pieces) == ExtraFilesRun(f, d, rest);
        ExtraFilesResult(f, d, rest);
        var after := ExtraFilesRun(f, d, rest).fs;
        RestSucceed(fs, f, pieces);
        if ExtraFilesRun(f, d, rest).outcome == Pass {
          RestLand(fs, f, after, d, pieces, Stat(fs, src).value);
          RestKept(fs, f, after, d, pieces, Stat(fs, src).value);
        }
      } else {
        assert !(|Parse(pieces[0]).parts| > 0 && IsFile(fs, Parse(pieces[0]).parts));
      }
    }
  }

  lemma RestSucceed(fs: FS, f: FS, pieces: seq<string>)
    requires pieces != [] && |Parse(pieces[0]).parts| > 0 && IsFile(fs, Parse(pieces[0]).parts)
    requires forall j :: 0 <= j < |pieces[1..]| ==> Stat(f, Parse(pieces[1..][j]).parts) == Stat(fs, Parse(pieces[1..][j]).parts)
    ensures CopiesSucceed(fs, pieces) <==> CopiesSucceed(f, pieces[1..])
  {
    if CopiesSucceed(f, pieces[1..]) {
      forall i | 1 <= i < |pieces| ensures |Parse(pieces[i]).parts| > 0 && IsFile(fs, Parse(pieces[i]).parts) {
        assert pieces[i] == pieces[1..][i - 1];
      }
    }
    if CopiesSucceed(fs, pieces) {
      forall j | 0 <= j < |pieces[1..]| ensures |Parse(pieces[1..][j]).parts| > 0 && IsFile(f, Parse(pieces[1..][j]).parts) {
        assert pieces[1..][j] == pieces[j + 1];
      }
    }
  }

  lemma RestLand(fs: FS, f: FS, after: FS, d: Path, pieces: seq<string>, n: Node)
    requires pieces != [] && Stat(fs, Parse(pieces[0]).parts) == Some(n)
    requires StoredAt(fs, f, ExtraTarget(d, pieces[0]), n)
    requires forall j :: 0 <= j < |pieces[1..]| ==> Stat(f, Parse(pieces[1..][j]).parts) == Stat(fs, Parse(pieces[1..][j]).parts)
    requires LastCopiesLand(f, after, d, pieces[1..]) && OthersKept(f, after, d, pieces[1..])
    ensures LastCopiesLand(fs, after, d, pieces)
  {
    forall i | 0 <= i < |pieces| && LastTo(d, pieces, i) ensures LandsAt(fs, after, d, pieces, i) {
      if i == 0 {
        LandFirst(fs, f, after, d, pieces, n);
      } else {
        LandLater(fs, f, after, d, pieces, i);
      }
    }
  }

  lemma LandFirst(fs: FS, f: FS, after: FS, d: Path, pieces: seq<string>, n: Node)
    requires pieces != [] && Stat(fs, Parse(pieces[0]).parts) == Some(n)
    requires StoredAt(fs, f, ExtraTarget(d, pieces[0]), n)
    requires OthersKept(f, after, d, pieces[1..]) && LastTo(d, pieces, 0)
    ensures LandsAt(fs, after, d, pieces, 0)
  {
    var rest := pieces[1..];
    forall j | 0 <= j < |rest| ensures ExtraTarget(d, pieces[0]) != ExtraTarget(d, rest[j]) {
      assert rest[j] == pieces[j + 1];
    }
  }

  lemma LandLater(fs: FS, f: FS, after: FS, d: Path, pieces: seq<string>, i: nat)
    requires 0 < i < |pieces|
    requires forall j :: 0 <= j < |pieces[1..]| ==> Stat(f, Parse(pieces[1..][j]).parts) == Stat(fs, Parse(pieces[1..][j]).parts)
    requires LastCopiesLand(f, after, d, pieces[1..]) && LastTo(d, pieces, i)
    ensures LandsAt(fs, after, d, pieces, i)
  {
    var rest := pieces[1..];
    assert rest[i - 1] == pieces[i];
    forall j | i - 1 < j < |rest| ensures ExtraTarget(d, rest[j]) != ExtraTarget(d, rest[i - 1]) {
      assert rest[j] == pieces[j + 1];
    }
    assert LastTo(d, rest, i - 1);
    assert LandsAt(f, after, d, rest, i - 1);
  }

  lemma RestKept(fs: FS, f: FS, after: FS, d: Path, pieces: seq<string>, n: Node)
    requires pieces != []
    requires StoredAt(fs, f, ExtraTarget(d, pieces[0]), n)
    requires OthersKept(f, after, d, pieces[1..])
    ensures OthersKept(fs, after, d, pieces)
  {
    forall k | (forall i :: 0 <= i < |pieces| ==> k != ExtraTarget(d, pieces[i]))
      ensures (k in after <==> k in fs) && (k in fs ==> after[k] == fs[k])
    {
      assert k != ExtraTarget(d, pieces[0]);
      forall j | 0 <= j < |pieces[1..]| ensures k != ExtraTarget(d, pieces[1..][j]) {
        assert pieces[1..][j] == pieces[j + 1];
      }
    }
  }

  method DeployExtraFiles(host: Host, debianDir: seq<string>, pieces: seq<string>) returns (r: Outcome)
    modifies host
    ensures Run(host.nodes, r) == ExtraFilesRun(old(host.nodes), debianDir, pieces)
  {
    ghost var whole := ExtraFilesRun(host.nodes, debianDir, pieces);
    var i := 0;
    while i < |pieces|
      invariant 0 <= i <= |pieces|
      invariant ExtraFilesRun(host.nodes, debianDir, pieces[i..]) == whole
      decreases |pieces| - i
    {
      assert pieces[i..][0] == pieces[i] && pieces[i..][1..] == pieces[i + 1..];
      r := host.CopyFile(Parse(pieces[i]).parts, ExtraTarget(debianDir, pieces[i]));
      if r.Fail? {
        return;
      }
      i := i + 1;
    }
    assert pieces[i..] == [];
    r := Pass;
  }

  /** `generate_control_file`, imperatively. */
  method GenerateControlFile(p: Packager, host: Host, environ: Meta.Environment, listing: Listing, render: ControlRenderer)
    returns (r: Outcome)
    modifies host
    ensures Run(host.nodes, r) == ControlRun(p, old(host.nodes), environ, listing, render)
  {
    var size := InstalledSize(host.nodes, p.appdir, listing);
    if size.Err? {
      return Fail(size.error);
    }
    var rendered := render(ControlInputs(p.meta.data, size.value));
    var collapsed := Collapse(rendered);
    var text := collapsed + "\n";
    r := host.MakeDirs(DebianDir(p));
    if r.Fail? {
      return;
    }
    r := host.WriteText(DebianDir(p) + ["control"], text);
    if r.Fail? {
      return;
    }
    r := DeployExtraFiles(host, DebianDir(p), ExtraPieces(environ));
  }

  // ---------------------------------------------------------------------------
  // `create_package`.

  /** The collaborators of the Debian build: parsers, the glob order, the renderer, and `dpkg-deb`'s effect. */
  datatype Tools = Tools(
    parse: EntryParser, split: Splitter, listing: Listing,
    read: ConfigReader, write: ConfigWriter, render: ControlRenderer, dpkgDeb: (FS, string) -> FS)

  /** The name `create_package` builds: `.deb` with the `architecture` metadata, when set. */
  function PackageName(p: Packager, out: string): (r: string)
    reads p.meta
    ensures Text.EndsWith(r, ".deb")
  {
    OutputName(out, ".deb", p.meta.Get("architecture", None))
  }

  /**
   * `create_package`: copy the AppDir, merge its data, write the configuration
   * and the control file; `generate_shlibs_file` does nothing; then build.
   */
  function PackageRun(p: Packager, fs: FS, out: string, environ: Meta.Environment, t: Tools): Run
    reads p.meta
  {
    var copied := CopyRun(fs, p.appdir.path, p.InstallPath());
    if copied.outcome.Fail? then copied
    else
      var merged := DataRun(p, copied.fs, t.parse, t.split, t.listing);
      if merged.outcome.Fail? then merged
      else
        var conf := ConfRun(p, merged.fs, t.read, t.write);
        if conf.outcome.Fail? then conf
        else
          var control := ControlRun(p, conf.fs, environ, t.listing, t.render);
          if control.outcome.Fail? then control
          else Run(t.dpkgDeb(control.fs, PackageName(p, out)), Pass)
  }

  /** `generate_shlibs_file`: does nothing. */
  method GenerateShlibsFile() returns (r: Outcome)
    ensures r == Pass
  {
    r := Pass;
  }

  method CreatePackage(p: Packager, host: Host, out: string, environ: Meta.Environment, t: Tools)
    returns (r: Outcome, name: string)
    modifies host
    ensures name == PackageName(p, out)
    ensures Run(host.nodes, r) == PackageRun(p, old(host.nodes), out, environ, t)
  {
    name := PackageName(p, out);
    r := CopyAppDirContents(p, host);
    if r.Fail? {
      return;
    }
    r := CopyDataToUsr(p, host, t.parse, t.split, t.listing);
    if r.Fail? {
      return;
    }
    r := WriteLdnpConf(p, host, t.read, t.write);
    if r.Fail? {
      return;
    }
    r := GenerateControlFile(p, host, environ, t.listing, t.render);
    if r.Fail? {
      return;
    }
    r := GenerateShlibsFile();
    r := host.Update(Ok(t.dpkgDeb(host.nodes, name)));
  }
}
