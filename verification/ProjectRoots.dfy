/** Detecting project roots by their marker files, and the root a file belongs to. */
module ProjectRoots {
  import opened Basics
  import T = Text

  const MARKERS: seq<string> := [
    "package.json", "tsconfig.json", "jsconfig.json", "go.mod", "pyproject.toml", "setup.py", "requirements.txt", "pom.xml",
    "build.gradle", "build.sbt", "compile_commands.json", "Cargo.toml", "Gemfile", "pubspec.yaml"]

  const MARKER_SUFFIXES: seq<string> := [".csproj", ".vbproj", ".fsproj", ".sln", ".gemspec"]

  predicate EndsWith(s: string, suffix: string) {
    |suffix| <= |s| && s[|s| - |suffix|..] == suffix
  }

  predicate IsMarker(basename: string) {
    basename in MARKERS || exists i :: 0 <= i < |MARKER_SUFFIXES| && EndsWith(basename, MARKER_SUFFIXES[i])
  }

  // Splitting at the last slash.

  function LastSlash(s: string): (r: Option<nat>)
    ensures r.Some? ==> r.value < |s| && s[r.value] == '/' && '/' !in s[r.value + 1..]
    ensures r.None? <==> '/' !in s
  {
    if s == "" then None
    else if s[|s| - 1] == '/' then Some(|s| - 1)
    else
      var r := LastSlash(s[..|s| - 1]);
      assert s == s[..|s| - 1] + [s[|s| - 1]];
      assert r.Some? ==> s[r.value + 1..] == s[..|s| - 1][r.value + 1..] + [s[|s| - 1]];
      r
  }

  function Basename(path: string): string {
    match LastSlash(path) case Some(i) => path[i + 1..] case None => path
  }

  function DirnameOrDot(path: string): string {
    match LastSlash(path) case Some(i) => path[..i] case None => "."
  }

  lemma {:induction false} LastSlashIs(path: string, k: nat)
    requires k < |path| && path[k] == '/' && '/' !in path[k + 1..]
    ensures LastSlash(path) == Some(k)
  {
    var n := |path| - 1;
    if k < n {
      assert path[n] == path[k + 1..][n - k - 1];
      assert path[k + 1..] == path[..n][k + 1..] + [path[n]];
      LastSlashIs(path[..n], k);
    }
  }

  /** A directory and a plain name come back apart. */
  lemma DirnameSplits(dir: string, name: string)
    requires '/' !in name
    ensures DirnameOrDot(dir + "/" + name) == dir && Basename(dir + "/" + name) == name
    ensures DirnameOrDot(name) == "." && Basename(name) == name
  {
    var path := dir + "/" + name;
    assert path[|dir|] == '/';
    assert path[..|dir|] == dir && path[|dir| + 1..] == name;
    LastSlashIs(path, |dir|);
  }

  // Byte lengths of prefixes.

  lemma {:induction false} ByteLenConcat(a: string, b: string)
    ensures T.ByteLen(a + b) == T.ByteLen(a) + T.ByteLen(b)
  {
    if a == "" {
      assert a + b == b;
    } else {
      assert (a + b)[1..] == a[1..] + b;
      ByteLenConcat(a[1..], b);
    }
  }

  lemma LongerHasMoreBytes(a: string, b: string)
    requires a <= b && T.ByteLen(a) == T.ByteLen(b)
    ensures a == b
  {
    assert b == a + b[|a|..];
    ByteLenConcat(a, b[|a|..]);
  }

  /** Two prefixes of one string with as many bytes are the same. */
  lemma PrefixByLength(a: string, b: string, s: string)
    requires a <= s && b <= s && T.ByteLen(a) == T.ByteLen(b)
    ensures a == b
  {
    if |a| <= |b| {
      LongerHasMoreBytes(a, b);
    } else {
      LongerHasMoreBytes(b, a);
    }
  }

  // The stable sort by descending byte length.

  function InsertRoot(x: string, v: seq<string>): seq<string> {
    if v == [] || T.ByteLen(v[0]) <= T.ByteLen(x) then [x] + v else [v[0]] + InsertRoot(x, v[1..])
  }

  /** `sort_by(|a, b| b.len().cmp(&a.len()))`; `SortedStably` says what that is. */
  function SortRoots(v: seq<string>): seq<string> {
    if v == [] then [] else InsertRoot(v[0], SortRoots(v[1..]))
  }

  ghost predicate Descending(v: seq<string>) {
    forall i, j :: 0 <= i < j < |v| ==> T.ByteLen(v[i]) >= T.ByteLen(v[j])
  }

  function OfLength(v: seq<string>, n: nat): seq<string> {
    if v == [] then [] else (if T.ByteLen(v[0]) == n then [v[0]] else []) + OfLength(v[1..], n)
  }

  ghost predicate NoLonger(v: seq<string>, n: nat) {
    forall i :: 0 <= i < |v| ==> T.ByteLen(v[i]) <= n
  }

  lemma DescendingCons(x: string, v: seq<string>)
    requires Descending(v) && NoLonger(v, T.ByteLen(x))
    ensures Descending([x] + v)
  {
  }

  lemma {:induction false} InsertRootNoLonger(x: string, v: seq<string>, n: nat)
    requires NoLonger(v, n) && T.ByteLen(x) <= n
    ensures NoLonger(InsertRoot(x, v), n)
  {
    if v == [] || T.ByteLen(v[0]) <= T.ByteLen(x) {
    } else {
      InsertRootNoLonger(x, v[1..], n);
    }
  }

  lemma {:induction false} InsertRootSorts(x: string, v: seq<string>)
    requires Descending(v)
    ensures Descending(InsertRoot(x, v))
  {
    if v == [] || T.ByteLen(v[0]) <= T.ByteLen(x) {
      DescendingCons(x, v);
    } else {
      InsertRootSorts(x, v[1..]);
      InsertRootNoLonger(x, v[1..], T.ByteLen(v[0]));
      DescendingCons(v[0], InsertRoot(x, v[1..]));
    }
  }

  lemma {:induction false} InsertRootKeeps(x: string, v: seq<string>)
    ensures multiset(InsertRoot(x, v)) == multiset(v) + multiset{x}
  {
    if v == [] || T.ByteLen(v[0]) <= T.ByteLen(x) {
    } else {
      InsertRootKeeps(x, v[1..]);
      assert v == [v[0]] + v[1..];
    }
  }

  lemma {:induction false} InsertRootIsStable(x: string, v: seq<string>, n: nat)
    requires Descending(v)
    ensures OfLength(InsertRoot(x, v), n) == (if T.ByteLen(x) == n then [x] else []) + OfLength(v, n)
  {
    if v == [] || T.ByteLen(v[0]) <= T.ByteLen(x) {
      assert ([x] + v)[1..] == v;
    } else {
      InsertRootIsStable(x, v[1..], n);
      assert InsertRoot(x, v)[1..] == InsertRoot(x, v[1..]);
      if T.ByteLen(x) == n { LongerHasNone(v, n); }
    }
  }

  lemma LongerHasNone(v: seq<string>, n: nat)
    requires v != [] && T.ByteLen(v[0]) > n
    ensures OfLength(v, n) == OfLength(v[1..], n)
  {
  }

  /** Descending by byte length, the same strings, and those of equal length in their old order. */
  lemma {:induction false} SortedStably(v: seq<string>, n: nat)
    ensures Descending(SortRoots(v)) && multiset(SortRoots(v)) == multiset(v)
    ensures OfLength(SortRoots(v), n) == OfLength(v, n)
  {
    if v != [] {
      assert v == [v[0]] + v[1..];
      SortedStably(v[1..], n);
      InsertRootSorts(v[0], SortRoots(v[1..]));
      InsertRootKeeps(v[0], SortRoots(v[1..]));
      InsertRootIsStable(v[0], SortRoots(v[1..]), n);
    }
  }

  // Detection.

  ghost predicate Marks(marker: string -> bool, paths: seq<string>, root: string) {
    exists i :: 0 <= i < |paths| && marker(Basename(paths[i])) && DirnameOrDot(paths[i]) == root
  }

  /** "." and the directories of the marker files. */
  ghost predicate Detected(marker: string -> bool, paths: seq<string>, root: string) {
    root == "." || Marks(marker, paths, root)
  }

  lemma MarksNext(marker: string -> bool, paths: seq<string>, i: nat, root: string)
    requires i < |paths|
    ensures Marks(marker, paths[..i + 1], root)
            <==> Marks(marker, paths[..i], root) || (marker(Basename(paths[i])) && DirnameOrDot(paths[i]) == root)
  {
    if Marks(marker, paths[..i], root) {
      var j :| 0 <= j < i && marker(Basename(paths[..i][j])) && DirnameOrDot(paths[..i][j]) == root;
      assert paths[..i + 1][j] == paths[..i][j];
    }
    assert paths[..i + 1][i] == paths[i];
    if Marks(marker, paths[..i + 1], root) {
      var j :| 0 <= j < i + 1 && marker(Basename(paths[..i + 1][j])) && DirnameOrDot(paths[..i + 1][j]) == root;
      if j < i { assert paths[..i][j] == paths[..i + 1][j]; }
    }
  }

  /** The roots in the order of `nearest_project_root`'s search. */
  ghost predicate SearchList(marker: string -> bool, paths: seq<string>, roots: seq<string>) {
    && Descending(roots) && Distinct(roots)
    && (forall r :: r in roots <==> Detected(marker, paths, r))
    && (exists k :: 0 <= k < |roots| && DotFirst(roots, k))
  }

  /** "." comes before every other root of at most one byte. */
  ghost predicate DotFirst(roots: seq<string>, k: nat)
    requires k < |roots|
  {
    roots[k] == "." && forall i :: 0 <= i < k ==> T.ByteLen(roots[i]) >= 2
  }

  lemma DotLen()
    ensures T.ByteLen(".") == 1
  {
    assert "."[1..] == "";
  }

  lemma {:induction false} InsertDot(v: seq<string>) returns (k: nat)
    ensures k < |InsertRoot(".", v)| && DotFirst(InsertRoot(".", v), k)
  {
    DotLen();
    if v == [] || T.ByteLen(v[0]) <= 1 {
      k := 0;
    } else {
      var j := InsertDot(v[1..]);
      k := j + 1;
    }
  }

  lemma DistinctByCount<X>(a: seq<X>, b: seq<X>)
    requires Distinct(a) && multiset(a) == multiset(b)
    ensures Distinct(b) && forall x :: x in a <==> x in b
  {
    forall x ensures x in a <==> x in b { assert x in multiset(a) <==> x in multiset(b); }
    forall i, j | 0 <= i < j < |b| ensures b[i] != b[j] {
      if b[i] == b[j] {
        CountTwice(b, i, j);
        CountOnce(a, b[i]);
      }
    }
  }

  lemma CountTwice<X>(b: seq<X>, i: nat, j: nat)
    requires i < j < |b| && b[i] == b[j]
    ensures multiset(b)[b[i]] >= 2
  {
    assert b == b[..j] + b[j..];
    assert b[i] in b[..j] && b[j] in b[j..];
    assert multiset(b) == multiset(b[..j]) + multiset(b[j..]);
  }

  lemma {:induction false} CountOnce<X>(a: seq<X>, x: X)
    requires Distinct(a)
    ensures multiset(a)[x] <= 1
  {
    if a != [] {
      CountOnce(a[1..], x);
      assert a == [a[0]] + a[1..];
      if x == a[0] { assert x !in a[1..]; assert x !in multiset(a[1..]); }
    }
  }

  lemma SortedIsSearchList(marker: string -> bool, paths: seq<string>, v: seq<string>)
    requires v != [] && v[0] == "." && Distinct(v) && forall r :: r in v <==> Detected(marker, paths, r)
    ensures SearchList(marker, paths, SortRoots(v))
  {
    SortedStably(v, 0);
    DistinctByCount(v, SortRoots(v));
    var k := InsertDot(SortRoots(v[1..]));
    assert DotFirst(SortRoots(v), k);
  }

  /** `detect_project_roots`. */
  method DetectProjectRoots(marker: string -> bool, paths: seq<string>) returns (roots: seq<string>)
    ensures SearchList(marker, paths, roots)
  {
    roots := ["."];
    var seen := {"."};
    for i := 0 to |paths|
      invariant roots != [] && roots[0] == "." && Distinct(roots)
      invariant forall r :: r in roots <==> r in seen
      invariant forall r :: r in seen <==> Detected(marker, paths[..i], r)
    {
      forall r
        ensures Detected(marker, paths[..i + 1], r) <==> Detected(marker, paths[..i], r) || (marker(Basename(paths[i])) && DirnameOrDot(paths[i]) == r)
      {
        MarksNext(marker, paths, i, r);
      }
      if marker(Basename(paths[i])) {
        var dir := DirnameOrDot(paths[i]);
        if dir !in seen {
          seen := seen + {dir};
          roots := roots + [dir];
        }
      }
    }
    assert paths[..|paths|] == paths;
    SortedIsSearchList(marker, paths, roots);
    roots := SortRoots(roots);
  }

  // The nearest root.

  /** The root is the path itself or a directory above it. */
  predicate Covers(root: string, path: string) {
    path == root || root + "/" <= path
  }

  predicate Matches(root: string, path: string) {
    root == "." || Covers(root, path)
  }

  ghost predicate FirstMatch(path: string, roots: seq<string>, j: nat) {
    j <= |roots| && (j < |roots| ==> Matches(roots[j], path)) && forall k :: 0 <= k < j ==> !Matches(roots[k], path)
  }

  /** `nearest_project_root`: the first root of the list that matches. */
  method NearestProjectRoot(path: string, roots: seq<string>) returns (r: string)
    ensures exists j: nat :: FirstMatch(path, roots, j) && r == if j < |roots| then roots[j] else "."
  {
    for i := 0 to |roots|
      invariant forall k :: 0 <= k < i ==> !Matches(roots[k], path)
    {
      if Matches(roots[i], path) {
        assert FirstMatch(path, roots, i);
        return roots[i];
      }
    }
    assert FirstMatch(path, roots, |roots|);
    return ".";
  }

  /** A detected root of at least two bytes at or above the path. */
  ghost predicate Candidate(marker: string -> bool, paths: seq<string>, path: string, root: string) {
    Detected(marker, paths, root) && T.ByteLen(root) >= 2 && Covers(root, path)
  }

  ghost predicate Longest(marker: string -> bool, paths: seq<string>, path: string, root: string) {
    && Candidate(marker, paths, path, root)
    && forall r :: Candidate(marker, paths, path, r) && r != root ==> T.ByteLen(r) < T.ByteLen(root)
  }

  ghost predicate Nearest(marker: string -> bool, paths: seq<string>, path: string, root: string) {
    if exists r :: Candidate(marker, paths, path, r) then Longest(marker, paths, path, root) else root == "."
  }

  lemma LaterIsShorter(marker: string -> bool, paths: seq<string>, roots: seq<string>, path: string, j: nat, r: string)
    requires SearchList(marker, paths, roots) && FirstMatch(path, roots, j) && j < |roots|
    requires Candidate(marker, paths, path, r) && r != roots[j]
    ensures roots[j] != "." && T.ByteLen(r) < T.ByteLen(roots[j])
  {
    DotLen();
    assert r in roots;
    var i :| 0 <= i < |roots| && roots[i] == r;
    assert Matches(roots[i], path);
    assert i > j;
    assert roots[j] != ".";
    if T.ByteLen(r) == T.ByteLen(roots[j]) {
      PrefixByLength(r, roots[j], path);
    }
  }

  lemma MatchIsCandidate(marker: string -> bool, paths: seq<string>, roots: seq<string>, path: string, j: nat)
    requires SearchList(marker, paths, roots) && FirstMatch(path, roots, j)
    ensures j < |roots| && (roots[j] != "." ==> Candidate(marker, paths, path, roots[j]))
  {
    var d :| 0 <= d < |roots| && DotFirst(roots, d);
    assert Matches(roots[d], path);
    if roots[j] != "." { assert roots[j] in roots; }
  }

  /** The first match in the search list is the one longest candidate, or "." when there is none. */
  lemma FirstMatchIsNearest(marker: string -> bool, paths: seq<string>, roots: seq<string>, path: string, j: nat)
    requires SearchList(marker, paths, roots) && FirstMatch(path, roots, j)
    ensures j < |roots| && Nearest(marker, paths, path, roots[j])
  {
    DotLen();
    MatchIsCandidate(marker, paths, roots, path, j);
    forall r | Candidate(marker, paths, path, r) && r != roots[j]
      ensures roots[j] != "." && T.ByteLen(r) < T.ByteLen(roots[j])
    {
      LaterIsShorter(marker, paths, roots, path, j, r);
    }
  }

  /** For every file list and path, with the code's markers. */
  method RootOf(paths: seq<string>, path: string) returns (root: string)
    ensures Nearest(IsMarker, paths, path, root)
  {
    var roots := DetectProjectRoots(IsMarker, paths);
    root := NearestProjectRoot(path, roots);
    ghost var j: nat :| FirstMatch(path, roots, j) && root == if j < |roots| then roots[j] else ".";
    FirstMatchIsNearest(IsMarker, paths, roots, path, j);
  }
}
