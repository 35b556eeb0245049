/**
 * Lexical path algebra in the style of Python's `pathlib.PurePosixPath`.
 *
 * A `Path` is the sequence of components of an absolute path below `/`
 * (`/opt/demo.AppDir` is `["opt", "demo.AppDir"]`, `/` is `[]`).
 */
module Paths {
  import opened Wrappers
  import Text

  type Path = seq<string>

  /** A component as `pathlib` keeps it after parsing: not empty, not `.`, no `/`. */
  predicate ProperComponent(c: string) {
    c != "" && c != "." && '/' !in c
  }

  /** A component that names an entry: proper and not `..`. */
  predicate PlainComponent(c: string) {
    ProperComponent(c) && c != ".."
  }

  /** A path without `..`, `.` or empty components, as the keys of a filesystem are. */
  predicate Plain(p: seq<string>) {
    forall i :: 0 <= i < |p| ==> PlainComponent(p[i])
  }

  /** A path after lexical resolution: no empty, `.` or `..` components (a `/` inside one is kept as it is). */
  predicate Resolved(p: seq<string>) {
    forall i :: 0 <= i < |p| ==> p[i] != "" && p[i] != "." && p[i] != ".."
  }

  /** A path string after parsing: whether it starts at `/`, and its proper components. */
  datatype PurePath = PurePath(absolute: bool, parts: seq<string>)

  function KeepProper(pieces: seq<string>): (r: seq<string>)
    ensures forall i :: 0 <= i < |r| ==> r[i] != "" && r[i] != "."
    ensures forall c :: c in r ==> c in pieces
  {
    if pieces == [] then []
    else if pieces[0] == "" || pieces[0] == "." then KeepProper(pieces[1..])
    else [pieces[0]] + KeepProper(pieces[1..])
  }

  /** Components that are already proper are all kept. */
  lemma {:induction false} KeepProperIdentity(pieces: seq<string>)
    requires forall i :: 0 <= i < |pieces| ==> pieces[i] != "" && pieces[i] != "."
    ensures KeepProper(pieces) == pieces
    decreases |pieces|
  {
    if pieces != [] {
      assert forall i :: 0 <= i < |pieces[1..]| ==> pieces[1..][i] == pieces[i + 1];
      KeepProperIdentity(pieces[1..]);
      assert [pieces[0]] + pieces[1..] == pieces;
    }
  }

  /** `PurePosixPath(s)`: split on `/`, drop empty and `.` components, keep `..`. */
  function Parse(s: string): (r: PurePath)
    ensures forall i :: 0 <= i < |r.parts| ==> ProperComponent(r.parts[i])
  {
    var pieces := Text.Split(s, '/');
    var kept := KeepProper(pieces);
    assert forall i :: 0 <= i < |kept| ==> kept[i] in pieces;
    PurePath(Text.StartsWith(s, "/"), kept)
  }

  /** `base / s`: an absolute `s` replaces `base`, a relative one is appended. */
  function JoinStr(base: seq<string>, s: string): (r: seq<string>)
    ensures Parse(s).absolute ==> r == Parse(s).parts
    ensures !Parse(s).absolute ==> r == base + Parse(s).parts
  {
    var q := Parse(s);
    if q.absolute then q.parts else base + q.parts
  }

  /** `str(p)` of an absolute path. */
  function ToString(p: seq<string>): string {
    "/" + Text.Join(p, "/")
  }

  /** `p.parent`; the parent of `/` is `/`. */
  function Parent(p: seq<string>): (r: seq<string>)
    ensures |p| > 0 ==> |r| == |p| - 1 && p == r + [p[|p| - 1]]
    ensures |p| == 0 ==> r == []
  {
    if |p| == 0 then [] else p[..|p| - 1]
  }

  /** `p.name`; the name of `/` is the empty string. */
  function Name(p: seq<string>): string {
    if |p| == 0 then "" else p[|p| - 1]
  }

  predicate IsPrefix(a: seq<string>, b: seq<string>) {
    |a| <= |b| && b[..|a|] == a
  }

  /** `b` lies strictly below `a`. */
  predicate IsStrictlyBelow(a: seq<string>, b: seq<string>) {
    |a| < |b| && b[..|a|] == a
  }

  /** `p.relative_to(root)`: the components after `root`, or ValueError. */
  function RelativeTo(p: seq<string>, root: seq<string>): (r: Result<seq<string>>)
    ensures r.Ok? <==> IsPrefix(root, p)
    ensures r.Ok? ==> root + r.value == p
  {
    if IsPrefix(root, p) then Ok(p[|root|..]) else Err(ValueError("is not in the subpath of the root"))
  }

  /** Lexical resolution of `parts` from directory `base`: `..` goes up (not above `/`). */
  function Resolve(base: seq<string>, parts: seq<string>): seq<string>
    decreases |parts|
  {
    if parts == [] then base
    else
      var c := parts[0];
      var next := if c == ".." then Parent(base) else if c == "" || c == "." then base else base + [c];
      Resolve(next, parts[1..])
  }

  /** `n` copies of `..`. */
  function Dots(n: nat): (r: seq<string>)
    ensures |r| == n
    ensures forall i :: 0 <= i < n ==> r[i] == ".."
  {
    if n == 0 then [] else [".."] + Dots(n - 1)
  }

  /**
   * The target written by `create_relative_symlink`: one `..` per component of
   * `dst.parent` below `root`, then `src` relative to `root`.  Both `relative_to`
   * calls raise ValueError when the path is not under `root`.
   */
  function RelativeSymlinkTarget(root: seq<string>, src: seq<string>, dst: seq<string>): (r: Result<seq<string>>)
    ensures r.Ok? <==> IsPrefix(root, Parent(dst)) && IsPrefix(root, src)
    ensures r.Ok? ==> r.value == Dots(|Parent(dst)| - |root|) + src[|root|..]
  {
    var distance :- RelativeTo(Parent(dst), root);
    var below :- RelativeTo(src, root);
    Ok(Dots(|distance|) + below)
  }

  lemma {:induction false} ResolveAppend(base: seq<string>, a: seq<string>, b: seq<string>)
    ensures Resolve(base, a + b) == Resolve(Resolve(base, a), b)
    decreases |a|
  {
    if a != [] {
      assert (a + b)[0] == a[0];
      assert (a + b)[1..] == a[1..] + b;
      var c := a[0];
      var next := if c == ".." then Parent(base) else if c == "" || c == "." then base else base + [c];
      assert Resolve(base, a + b) == Resolve(next, a[1..] + b);
      assert Resolve(base, a) == Resolve(next, a[1..]);
      ResolveAppend(next, a[1..], b);
    } else {
      assert a + b == b;
    }
  }

  lemma {:induction false} ResolveDots(top: seq<string>, below: seq<string>)
    ensures Resolve(top + below, Dots(|below|)) == top
    decreases |below|
  {
    if below != [] {
      var n := |below|;
      assert Dots(n)[0] == "..";
      assert Dots(n)[1..] == Dots(n - 1);
      assert Parent(top + below) == top + below[..n - 1];
      ResolveDots(top, below[..n - 1]);
    } else {
      assert top + below == top;
    }
  }

  /** Resolving already resolved components appends them. */
  lemma {:induction false} ResolveKeeps(base: seq<string>, parts: seq<string>)
    requires Resolved(parts)
    ensures Resolve(base, parts) == base + parts
    decreases |parts|
  {
    if parts != [] {
      assert Resolved(parts[1..]) by {
        forall i | 0 <= i < |parts[1..]| ensures parts[1..][i] != "" && parts[1..][i] != "." && parts[1..][i] != ".." {
          assert parts[1..][i] == parts[i + 1];
        }
      }
      ResolveKeeps(base + [parts[0]], parts[1..]);
      assert base + [parts[0]] + parts[1..] == base + parts;
    }
  }

  /** Resolution from a resolved directory gives a resolved path. */
  lemma {:induction false} ResolveStaysResolved(base: seq<string>, parts: seq<string>)
    requires Resolved(base)
    ensures Resolved(Resolve(base, parts))
    decreases |parts|
  {
    if parts != [] {
      var c := parts[0];
      var next := if c == ".." then Parent(base) else if c == "" || c == "." then base else base + [c];
      assert Resolved(next) by {
        if c == ".." && |base| > 0 {
          assert forall i :: 0 <= i < |Parent(base)| ==> Parent(base)[i] == base[i];
        }
      }
      ResolveStaysResolved(next, parts[1..]);
    }
  }

  /**
   * Round trip of `create_relative_symlink`: resolving the target lexically from
   * the directory that holds `dst` leads back to `src`.
   */
  lemma RelativeSymlinkRoundTrip(root: seq<string>, src: seq<string>, dst: seq<string>)
    requires RelativeSymlinkTarget(root, src, dst).Ok?
    requires Resolved(src)
    ensures Resolve(Parent(dst), RelativeSymlinkTarget(root, src, dst).value) == src
  {
    var distance := Parent(dst)[|root|..];
    var below := src[|root|..];
    assert RelativeSymlinkTarget(root, src, dst).value == Dots(|distance|) + below;
    assert root + distance == Parent(dst);
    assert root + below == src;
    ResolveAppend(Parent(dst), Dots(|distance|), below);
    ResolveDots(root, distance);
    assert Resolved(below) by {
      forall i | 0 <= i < |below| ensures below[i] != "" && below[i] != "." && below[i] != ".." {
        assert below[i] == src[|root| + i];
      }
    }
    ResolveKeeps(root, below);
  }

  /** A resolved path, a plain one in particular, resolves to itself from `/`. */
  lemma ResolvePlainPath(p: seq<string>)
    requires Resolved(p)
    ensures Resolve([], p) == p
  {
    ResolveKeeps([], p);
  }

  /** Plain paths joined are plain. */
  lemma PlainConcat(a: seq<string>, b: seq<string>)
    requires Plain(a) && Plain(b)
    ensures Plain(a + b)
  {
    forall i | 0 <= i < |a + b| ensures PlainComponent((a + b)[i]) {
      if i < |a| { assert (a + b)[i] == a[i]; } else { assert (a + b)[i] == b[i - |a|]; }
    }
  }

  /** The head and the tail of a plain path are plain. */
  lemma PlainSplit(a: seq<string>, b: seq<string>)
    requires Plain(a + b)
    ensures Plain(a) && Plain(b)
  {
    forall i | 0 <= i < |a| ensures PlainComponent(a[i]) { assert (a + b)[i] == a[i]; }
    forall i | 0 <= i < |b| ensures PlainComponent(b[i]) { assert (a + b)[i + |a|] == b[i]; }
  }
}
