/**
 * Python's `sorted` on a list of `pathlib` paths: paths compare as lists of
 * their components, each component compared as a string.
 */
module Sorting {
  import Text
  import opened Paths

  /** `a < b` on paths: lexicographic over components; a proper prefix is smaller. */
  predicate PathLess(a: Path, b: Path)
    decreases |a|
  {
    if |a| == 0 then |b| > 0
    else if |b| == 0 then false
    else if a[0] != b[0] then Text.StrLess(a[0], b[0])
    else PathLess(a[1..], b[1..])
  }

  lemma {:induction false} PathLessIrreflexive(a: Path)
    ensures !PathLess(a, a)
    decreases |a|
  {
    if |a| > 0 { PathLessIrreflexive(a[1..]); }
  }

  lemma {:induction false} PathLessTrans(a: Path, b: Path, c: Path)
    requires PathLess(a, b) && PathLess(b, c)
    ensures PathLess(a, c)
    decreases |a|
  {
    if |a| > 0 && |b| > 0 && |c| > 0 {
      if a[0] == b[0] && b[0] == c[0] {
        PathLessTrans(a[1..], b[1..], c[1..]);
      } else if a[0] != b[0] && b[0] != c[0] {
        Text.StrLessTrans(a[0], b[0], c[0]);
        Text.StrLessIrreflexive(a[0]);
      }
    }
  }

  lemma {:induction false} PathLessTotal(a: Path, b: Path)
    ensures a == b || PathLess(a, b) || PathLess(b, a)
    decreases |a|
  {
    if |a| > 0 && |b| > 0 {
      if a[0] == b[0] {
        PathLessTotal(a[1..], b[1..]);
        if a[1..] == b[1..] {
          assert a == [a[0]] + a[1..] && b == [b[0]] + b[1..];
        }
      } else {
        Text.StrLessTotal(a[0], b[0]);
      }
    }
  }

  /** `a <= b` on paths. */
  predicate PathLessEq(a: Path, b: Path) {
    a == b || PathLess(a, b)
  }

  predicate Sorted(s: seq<Path>) {
    forall i, j :: 0 <= i < j < |s| ==> PathLessEq(s[i], s[j])
  }

  /** Inserts `x` into a sorted list after every element smaller than it. */
  function Insert(x: Path, s: seq<Path>): (r: seq<Path>)
    requires Sorted(s)
    ensures Sorted(r)
    ensures multiset(r) == multiset(s) + multiset{x}
    decreases |s|
  {
    if s == [] then [x]
    else if PathLessEq(x, s[0]) then
      InsertFrontSorted(x, s);
      [x] + s
    else
      PathLessTotal(x, s[0]);
      assert Sorted(s[1..]);
      var rest := Insert(x, s[1..]);
      InsertAfterHead(x, s, rest);
      assert s == [s[0]] + s[1..];
      [s[0]] + rest
  }

  lemma InsertFrontSorted(x: Path, s: seq<Path>)
    requires Sorted(s) && s != [] && PathLessEq(x, s[0])
    ensures Sorted([x] + s)
  {
    var r := [x] + s;
    forall i, j | 0 <= i < j < |r| ensures PathLessEq(r[i], r[j]) {
      if i == 0 {
        assert r[j] == s[j - 1];
        if j > 1 {
          assert PathLessEq(s[0], s[j - 1]);
          if x != s[0] && s[0] != s[j - 1] { PathLessTrans(x, s[0], s[j - 1]); }
        }
      } else {
        assert r[i] == s[i - 1] && r[j] == s[j - 1];
      }
    }
  }

  lemma InsertAfterHead(x: Path, s: seq<Path>, rest: seq<Path>)
    requires Sorted(s) && s != [] && PathLess(s[0], x)
    requires Sorted(rest) && multiset(rest) == multiset(s[1..]) + multiset{x}
    ensures Sorted([s[0]] + rest)
  {
    var r := [s[0]] + rest;
    forall i, j | 0 <= i < j < |r| ensures PathLessEq(r[i], r[j]) {
      if i == 0 {
        assert r[j] == rest[j - 1];
        assert rest[j - 1] in multiset(rest);
        assert rest[j - 1] in multiset(s[1..]) + multiset{x};
        if rest[j - 1] == x {
        } else {
          assert rest[j - 1] in s[1..];
          var k :| 0 <= k < |s[1..]| && s[1..][k] == rest[j - 1];
          assert s[k + 1] == rest[j - 1];
        }
      } else {
        assert r[i] == rest[i - 1] && r[j] == rest[j - 1];
      }
    }
  }

  /** `sorted(s)`: an ordered permutation of `s` (insertion sort; ties are equal paths). */
  function Sort(s: seq<Path>): (r: seq<Path>)
    ensures Sorted(r)
    ensures multiset(r) == multiset(s)
    decreases |s|
  {
    if s == [] then []
    else
      assert s == [s[0]] + s[1..];
      Insert(s[0], Sort(s[1..]))
  }
}
