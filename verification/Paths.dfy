/**
 Clean absolute file paths as lists of components, their strings, and the subpath test.

 `Rel` is Go's `filepath.Rel` on two clean absolute paths; `IsSubpath` is the test built
 on its result string.
 */
module Paths {
  import opened Topics

  type Path = seq<string>

  predicate ValidComponent(n: string) {
    n != "" && '/' !in n && n != "." && n != ".."
  }

  predicate ValidPath(p: Path) {
    forall i :: 0 <= i < |p| ==> ValidComponent(p[i])
  }

  function Base(p: Path): string {
    if p == [] then "" else p[|p| - 1]
  }

  function PathString(p: Path): string {
    "/" + Join(p)
  }

  lemma PathStringInjective(p: Path, q: Path)
    requires ValidPath(p) && ValidPath(q) && PathString(p) == PathString(q)
    ensures p == q
  {
    assert Join(p) == PathString(p)[1..] == PathString(q)[1..] == Join(q);
    if p != [] && q != [] {
      JoinInjective(p, q);
    } else {
      JoinNotEmpty(p);
      JoinNotEmpty(q);
    }
  }

  lemma JoinNotEmpty(p: Path)
    requires ValidPath(p)
    ensures Join(p) == "" <==> p == []
  {
    if p != [] {
      assert ValidComponent(p[0]);
    }
  }

  // ---------------------------------------------------------------- subpaths

  function CommonPrefix(a: Path, b: Path): (k: nat)
    ensures k <= |a| && k <= |b| && a[..k] == b[..k]
    ensures k < |a| && k < |b| ==> a[k] != b[k]
  {
    if a == [] || b == [] || a[0] != b[0] then 0
    else
      var k := CommonPrefix(a[1..], b[1..]);
      assert a[..k + 1] == [a[0]] + a[1..][..k] && b[..k + 1] == [b[0]] + b[1..][..k];
      k + 1
  }

  lemma {:induction false} CommonPrefixOfPrefix(p: Path, n: nat)
    requires n <= |p|
    ensures CommonPrefix(p, p[..n]) == n
  {
    if n > 0 {
      assert p[..n][1..] == p[1..][..n - 1];
      CommonPrefixOfPrefix(p[1..], n - 1);
    }
  }

  function Ups(n: nat): seq<string> {
    seq(n, _ => "..")
  }

  function RelParts(base: Path, target: Path): seq<string> {
    var k := CommonPrefix(base, target);
    Ups(|base| - k) + target[k..]
  }

  function Rel(base: Path, target: Path): string {
    var parts := RelParts(base, target);
    if parts == [] then "." else Join(parts)
  }

  predicate HasPrefix(s: string, prefix: string) {
    prefix <= s
  }

  predicate IsSubpath(base: Path, candidate: Path) {
    !HasPrefix(Rel(base, candidate), "../")
  }

  lemma DotDotSlashHasSlash(s: string)
    ensures HasPrefix(s, "../") ==> '/' in s
  {
    if HasPrefix(s, "../") {
      assert s[2] == '/';
    }
  }

  /** A joined path starts with "../" exactly when its first component is ".." and more follow. */
  lemma DotDotSlashPrefix(parts: seq<string>)
    requires |parts| >= 1 && AllSlashFree(parts)
    ensures HasPrefix(Join(parts), "../") <==> |parts| >= 2 && parts[0] == ".."
  {
    var a := parts[0];
    assert SlashFree(a);
    if |parts| == 1 {
      DotDotSlashHasSlash(a);
    } else {
      var s := Join(parts);
      assert s == a + "/" + Join(parts[1..]);
      assert s[|a|] == '/' && s[..|a|] == a;
      assert |a| > 2 ==> a[2] == s[2] && a[2] != '/';
      if HasPrefix(s, "../") {
        assert s[0] == '.' && s[1] == '.' && s[2] == '/';
        assert a == [a[0], a[1]] == "..";
      }
      if a == ".." {
        assert s[..3] == "../";
      }
    }
  }

  predicate ImmediateParent(candidate: Path, base: Path) {
    |base| > 0 && candidate == base[..|base| - 1]
  }

  /**
   The subpath test accepts the base itself and everything below it, and also, because
   the relative path is then exactly "..", the base's immediate parent.
   */
  lemma IsSubpathExactly(base: Path, candidate: Path)
    requires ValidPath(base) && ValidPath(candidate)
    ensures IsSubpath(base, candidate) <==> base <= candidate || ImmediateParent(candidate, base)
    ensures ImmediateParent(candidate, base) ==> Rel(base, candidate) == ".."
  {
    hide HasPrefix;
    var k := CommonPrefix(base, candidate);
    var up, down := Ups(|base| - k), candidate[k..];
    var parts := up + down;
    forall i | 0 <= i < |parts| ensures SlashFree(parts[i]) {
      if i >= |up| {
        assert ValidComponent(candidate[k + i - |up|]);
      }
    }
    if ImmediateParent(candidate, base) {
      CommonPrefixOfPrefix(base, |base| - 1);
    }
    if parts == [] {
      assert base == base[..k] == candidate[..k] == candidate;
      DotDotSlashHasSlash(".");
    } else {
      DotDotSlashPrefix(parts);
      if k == |base| {
        assert base == candidate[..k];
        assert ValidComponent(candidate[k]);
      } else {
        assert parts[0] == "..";
        assert k < |candidate| ==> base[k] != candidate[k];
        if |parts| == 1 {
          assert |base| == k + 1 && candidate == candidate[..k];
          assert Join(parts) == "..";
        }
      }
    }
  }

  // ---------------------------------------------------------------- string order

  /** Go's order on strings. */
  predicate StringLeq(a: string, b: string) {
    if a == "" then true
    else if b == "" then false
    else if a[0] != b[0] then a[0] < b[0]
    else StringLeq(a[1..], b[1..])
  }

  lemma {:induction false} StringLeqTotal(a: string, b: string)
    ensures StringLeq(a, b) || StringLeq(b, a)
    ensures StringLeq(a, b) && StringLeq(b, a) ==> a == b
  {
    if a != "" && b != "" && a[0] == b[0] {
      StringLeqTotal(a[1..], b[1..]);
      assert a == [a[0]] + a[1..] && b == [b[0]] + b[1..];
    }
  }

  lemma {:induction false} StringLeqTransitive(a: string, b: string, c: string)
    requires StringLeq(a, b) && StringLeq(b, c)
    ensures StringLeq(a, c)
  {
    if a != "" && b != "" && c != "" && a[0] == b[0] == c[0] {
      StringLeqTransitive(a[1..], b[1..], c[1..]);
    }
  }

  predicate PathLeq(p: Path, q: Path) {
    StringLeq(PathString(p), PathString(q))
  }

  predicate Sorted(s: seq<Path>) {
    forall i, j :: 0 <= i < j < |s| ==> PathLeq(s[i], s[j])
  }

  function InsertPath(s: seq<Path>, p: Path): seq<Path> {
    if s == [] then [p]
    else if PathLeq(p, s[0]) then [p] + s
    else [s[0]] + InsertPath(s[1..], p)
  }

  /** Go's `sort.Strings` on path strings. */
  function SortPaths(s: seq<Path>): seq<Path> {
    if s == [] then [] else InsertPath(SortPaths(s[1..]), s[0])
  }

  lemma {:induction false} InsertPathSorts(s: seq<Path>, p: Path)
    requires Sorted(s)
    ensures Sorted(InsertPath(s, p))
    ensures multiset(InsertPath(s, p)) == multiset(s) + multiset{p}
  {
    hide PathLeq;
    if s == [] {
    } else if PathLeq(p, s[0]) {
      forall j | 0 <= j < |s| ensures PathLeq(p, s[j]) {
        if j > 0 {
          PathLeqTransitive(p, s[0], s[j]);
        }
      }
    } else {
      var rest, r := s[1..], InsertPath(s[1..], p);
      assert s == [s[0]] + rest;
      InsertPathSorts(rest, p);
      PathLeqTotal(p, s[0]);
      forall j | 0 <= j < |r| ensures PathLeq(s[0], r[j]) {
        assert r[j] in multiset(r);
        assert r[j] == p || r[j] in rest;
      }
    }
  }

  lemma PathLeqTransitive(p: Path, q: Path, r: Path)
    requires PathLeq(p, q) && PathLeq(q, r)
    ensures PathLeq(p, r)
  {
    StringLeqTransitive(PathString(p), PathString(q), PathString(r));
  }

  lemma PathLeqTotal(p: Path, q: Path)
    ensures PathLeq(p, q) || PathLeq(q, p)
    ensures ValidPath(p) && ValidPath(q) && PathLeq(p, q) && PathLeq(q, p) ==> p == q
  {
    hide StringLeq, PathString;
    StringLeqTotal(PathString(p), PathString(q));
    if ValidPath(p) && ValidPath(q) && PathString(p) == PathString(q) {
      PathStringInjective(p, q);
    }
  }

  /** Sorting keeps the elements and orders them. */
  lemma {:induction false} SortPathsSorts(s: seq<Path>)
    ensures Sorted(SortPaths(s))
    ensures multiset(SortPaths(s)) == multiset(s)
  {
    hide PathLeq;
    if s != [] {
      SortPathsSorts(s[1..]);
      InsertPathSorts(SortPaths(s[1..]), s[0]);
      assert s == [s[0]] + s[1..];
    }
  }

  /** A sorted list of valid paths is determined by its elements. */
  lemma {:induction false} SortedIsUnique(a: seq<Path>, b: seq<Path>)
    requires Sorted(a) && Sorted(b) && multiset(a) == multiset(b)
    requires forall p :: p in a ==> ValidPath(p)
    ensures a == b
  {
    hide PathLeq, ValidPath;
    assert |a| == |multiset(a)| == |multiset(b)| == |b|;
    if a != [] {
      HeadsAgree(a, b);
      assert a == [a[0]] + a[1..] && b == [b[0]] + b[1..];
      assert multiset(a[1..]) == multiset(a) - multiset{a[0]};
      assert multiset(b[1..]) == multiset(b) - multiset{b[0]};
      SortedIsUnique(a[1..], b[1..]);
    }
  }

  lemma HeadsAgree(a: seq<Path>, b: seq<Path>)
    requires a != [] && b != [] && Sorted(a) && Sorted(b) && multiset(a) == multiset(b)
    requires forall p :: p in a ==> ValidPath(p)
    ensures a[0] == b[0]
  {
    hide PathLeq, ValidPath;
    assert a[0] in multiset(b) && b[0] in multiset(a);
    PathLeqTotal(a[0], a[0]);
    PathLeqTotal(b[0], b[0]);
    var i :| 0 <= i < |b| && b[i] == a[0];
    var j :| 0 <= j < |a| && a[j] == b[0];
    assert PathLeq(b[0], a[0]);
    assert PathLeq(a[0], b[0]);
    PathLeqTotal(a[0], b[0]);
  }
}
