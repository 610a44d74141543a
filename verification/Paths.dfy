/** Pure POSIX paths and the two containment tests built on them (runtime_lab/workspace/__init__.py,
    runtime_lab/descriptors/schema.py). */
module Paths {

  /** `PurePosixPath`: its root is empty, one slash or exactly two; its parts are the components. */
  datatype PurePath = PurePath(root: string, parts: seq<string>)

  /** `s.split("/")` */
  function SplitSlash(s: string): (r: seq<string>)
    ensures r != []
  {
    if s == "" then [""]
    else
      var rest := SplitSlash(s[1..]);
      if s[0] == '/' then [""] + rest else [[s[0]] + rest[0]] + rest[1..]
  }

  /** Components that count: not empty and not a single dot. */
  predicate IsPart(c: string) {
    c != "" && c != "." && '/' !in c
  }

  function KeepParts(cs: seq<string>): seq<string> {
    if cs == [] then []
    else (if cs[0] == "" || cs[0] == "." then [] else [cs[0]]) + KeepParts(cs[1..])
  }

  function RootOf(s: string): string {
    if "//" <= s && !("///" <= s) then "//" else if "/" <= s then "/" else ""
  }

  function ParsePath(s: string): PurePath {
    PurePath(RootOf(s), KeepParts(SplitSlash(s)))
  }

  /** Every component with a slash in front. */
  function Slashed(parts: seq<string>): string {
    if parts == [] then "" else "/" + parts[0] + Slashed(parts[1..])
  }

  /** `"/".join(parts)` */
  function Join(parts: seq<string>): string {
    if parts == [] then "" else parts[0] + Slashed(parts[1..])
  }

  function PathString(p: PurePath): string {
    if p.root == "" && p.parts == [] then "." else p.root + Join(p.parts)
  }

  /** `_normalize_path` */
  function NormalizePath(s: string): string {
    PathString(ParsePath(s))
  }

  /** `_has_traversal` */
  predicate HasTraversal(s: string) {
    ".." in ParsePath(s).parts
  }

  predicate IsAbsolute(s: string) {
    ParsePath(s).root != ""
  }

  /** `_path_within_root`: the string test on normalised paths. */
  predicate PathWithinRoot(path: string, root: string) {
    NormalizePath(path) == NormalizePath(root) || NormalizePath(root) + "/" <= NormalizePath(path)
  }

  /** `path.relative_to(root)` succeeds: the component test. */
  predicate RelativeTo(path: string, root: string) {
    ParsePath(path).root == ParsePath(root).root && ParsePath(root).parts <= ParsePath(path).parts
  }

  /** `_artifact_path_within_workspace_boundary`, for the one allowed root. */
  predicate ArtifactWithinBoundary(path: string, root: string) {
    !IsAbsolute(path) && !HasTraversal(path) && !IsAbsolute(root) && !HasTraversal(root) && RelativeTo(path, root)
  }

  // ---------------------------------------------------------------- splitting and joining

  ghost predicate AllParts(parts: seq<string>) {
    forall i :: 0 <= i < |parts| ==> IsPart(parts[i])
  }

  lemma {:induction false} SplitHasNoSlash(s: string)
    ensures forall i :: 0 <= i < |SplitSlash(s)| ==> '/' !in SplitSlash(s)[i]
  {
    if s != "" {
      SplitHasNoSlash(s[1..]);
    }
  }

  lemma {:induction false} KeepPartsAreParts(cs: seq<string>)
    requires forall i :: 0 <= i < |cs| ==> '/' !in cs[i]
    ensures AllParts(KeepParts(cs))
  {
    if cs != [] {
      KeepPartsAreParts(cs[1..]);
    }
  }

  lemma {:induction false} ParsedParts(s: string)
    ensures AllParts(ParsePath(s).parts)
  {
    SplitHasNoSlash(s);
    KeepPartsAreParts(SplitSlash(s));
  }

  /** Splitting `c` followed by something that is empty or starts with a slash. */
  lemma {:induction false} SplitComponent(c: string, rest: string)
    requires '/' !in c
    requires rest == "" || rest[0] == '/'
    ensures SplitSlash(c + rest) == [c] + (if rest == "" then [] else SplitSlash(rest[1..]))
  {
    if c == "" {
      assert c + rest == rest;
    } else {
      assert (c + rest)[1..] == c[1..] + rest;
      SplitComponent(c[1..], rest);
      assert c == [c[0]] + c[1..];
    }
  }

  lemma {:induction false} SplitJoined(parts: seq<string>)
    requires parts != [] && AllParts(parts)
    ensures SplitSlash(Join(parts)) == parts
  {
    var rest := Slashed(parts[1..]);
    if |parts| > 1 {
      assert rest[1..] == Join(parts[1..]);
      SplitJoined(parts[1..]);
    }
    SplitComponent(parts[0], rest);
  }

  lemma {:induction false} KeepAllParts(parts: seq<string>)
    requires AllParts(parts)
    ensures KeepParts(parts) == parts
  {
    if parts != [] {
      KeepAllParts(parts[1..]);
    }
  }

  lemma {:induction false} RootBehind(root: string, s: string)
    requires root in {"", "/", "//"} && s != "" && s[0] != '/'
    ensures RootOf(root + s) == root
  {
    if root == "//" {
      assert (root + s)[2] == s[0];
    } else if root == "/" {
      assert (root + s)[1] == s[0];
    } else {
      assert root + s == s;
    }
  }

  lemma {:induction false} ParseOfDot()
    ensures ParsePath(".") == PurePath("", [])
  {
    SplitComponent(".", "");
    assert "." + "" == ".";
  }

  lemma {:induction false} ParseOfRoot(root: string)
    requires root in {"/", "//"}
    ensures ParsePath(root) == PurePath(root, [])
  {
    SplitRooted(root, "");
    assert root + "" == root;
    assert SplitSlash("") == [""];
  }

  /** Printing a parsed path and parsing it again changes nothing. */
  lemma {:induction false} ParseOfPathString(p: PurePath)
    requires AllParts(p.parts) && p.root in {"", "/", "//"}
    ensures ParsePath(PathString(p)) == p
  {
    if p.parts != [] {
      var joined := Join(p.parts);
      KeepAllParts(p.parts);
      SplitJoined(p.parts);
      assert IsPart(p.parts[0]) && joined[0] == p.parts[0][0];
      SplitRooted(p.root, joined);
      RootBehind(p.root, joined);
    } else if p.root == "" {
      ParseOfDot();
    } else {
      ParseOfRoot(p.root);
      assert p.root + Join([]) == p.root;
    }
  }

  lemma {:induction false} SplitRooted(root: string, s: string)
    requires root in {"", "/", "//"}
    ensures KeepParts(SplitSlash(root + s)) == KeepParts(SplitSlash(s))
  {
    if root == "" {
      assert root + s == s;
    } else {
      assert (root + s)[1..] == root[1..] + s;
      assert SplitSlash(root + s) == [""] + SplitSlash(root[1..] + s);
      assert root[1..] in {"", "/"};
      SplitRooted(root[1..], s);
      assert ([""] + SplitSlash(root[1..] + s))[1..] == SplitSlash(root[1..] + s);
    }
  }

  /** Normalisation is idempotent. */
  lemma {:induction false} NormalizeIdempotent(s: string)
    ensures NormalizePath(NormalizePath(s)) == NormalizePath(s)
    ensures ParsePath(NormalizePath(s)) == ParsePath(s)
  {
    ParsedParts(s);
    ParseOfPathString(ParsePath(s));
  }

  // ---------------------------------------------------------------- containment

  lemma {:induction false} ComponentReaches(a: string, s: string, b: string, t: string)
    requires '/' !in b && a + s == b + t
    requires s == "" || s[0] == '/'
    ensures |b| <= |a|
  {
    assert a == "" ==> a + s == s;
    if b != "" {
      assert b[0] in b && (b + t)[0] == b[0];
      if a != "" {
        assert (a + s)[1..] == a[1..] + s && (b + t)[1..] == b[1..] + t;
        ComponentReaches(a[1..], s, b[1..], t);
      }
    }
  }

  /** Two components, each followed by nothing or by a slash, agree when the strings do. */
  lemma {:induction false} FirstComponent(a: string, s: string, b: string, t: string)
    requires '/' !in a && '/' !in b
    requires (s == "" || s[0] == '/') && (t == "" || t[0] == '/')
    requires a + s == b + t
    ensures a == b && s == t
  {
    ComponentReaches(a, s, b, t);
    ComponentReaches(b, t, a, s);
    assert (a + s)[..|a|] == a && (b + t)[..|b|] == b;
    assert (a + s)[|a|..] == s && (b + t)[|b|..] == t;
  }

  lemma {:induction false} SlashedPrefix(xs: seq<string>, ys: seq<string>, t: string)
    requires AllParts(xs) && AllParts(ys)
    requires t == "" || t[0] == '/'
    requires Slashed(ys) == Slashed(xs) + t
    ensures xs <= ys
  {
    if xs != [] {
      assert ys != [];
      var s1, s2 := Slashed(xs[1..]), Slashed(ys[1..]);
      assert (Slashed(xs) + t)[1..] == xs[0] + (s1 + t);
      assert Slashed(ys)[1..] == ys[0] + s2;
      FirstComponent(xs[0], s1 + t, ys[0], s2);
      SlashedPrefix(xs[1..], ys[1..], t);
    }
  }

  lemma {:induction false} SlashedAppend(xs: seq<string>, ys: seq<string>)
    ensures Slashed(xs + ys) == Slashed(xs) + Slashed(ys)
  {
    if xs == [] {
      assert xs + ys == ys;
    } else {
      assert (xs + ys)[1..] == xs[1..] + ys;
      SlashedAppend(xs[1..], ys);
    }
  }

  lemma {:induction false} JoinedPrefixOnlyIf(xs: seq<string>, ys: seq<string>, t: string)
    requires AllParts(xs) && AllParts(ys) && xs != [] && ys != []
    requires t == "" || t[0] == '/'
    requires Join(ys) == Join(xs) + t
    ensures xs <= ys
  {
    var s1, s2 := Slashed(xs[1..]), Slashed(ys[1..]);
    assert Join(xs) + t == xs[0] + (s1 + t);
    FirstComponent(xs[0], s1 + t, ys[0], s2);
    SlashedPrefix(xs[1..], ys[1..], t);
  }

  lemma {:induction false} JoinedPrefixIf(xs: seq<string>, ys: seq<string>)
    requires xs != [] && xs <= ys
    ensures Join(ys) == Join(xs) || Join(xs) + "/" <= Join(ys)
  {
    var rest := ys[|xs|..];
    assert ys[1..] == xs[1..] + rest;
    SlashedAppend(xs[1..], rest);
    assert Join(ys) == Join(xs) + Slashed(rest);
    if rest != [] {
      assert Slashed(rest)[0] == '/';
    }
  }

  /** On joined components: equal, or behind a slash, exactly when the components are a prefix. */
  lemma {:induction false} JoinedPrefix(xs: seq<string>, ys: seq<string>)
    requires AllParts(xs) && AllParts(ys) && xs != [] && ys != []
    ensures (Join(ys) == Join(xs) || Join(xs) + "/" <= Join(ys)) <==> xs <= ys
  {
    if Join(ys) == Join(xs) || Join(xs) + "/" <= Join(ys) {
      var t := Join(ys)[|Join(xs)|..];
      JoinedPrefixOnlyIf(xs, ys, t);
    }
    if xs <= ys {
      JoinedPrefixIf(xs, ys);
    }
  }

  /** For relative paths the two containment tests agree exactly when the root has a component or the
      path has none: the string test never sees the root `.` as containing anything but itself. */
  lemma {:induction false} ContainmentTestsAgree(path: string, root: string)
    requires !IsAbsolute(path) && !IsAbsolute(root)
    ensures (PathWithinRoot(path, root) <==> RelativeTo(path, root))
      <==> (ParsePath(root).parts != [] || ParsePath(path).parts == [])
  {
    var xs, ys := ParsePath(root).parts, ParsePath(path).parts;
    ParsedParts(root);
    ParsedParts(path);
    assert NormalizePath(path) == if ys == [] then "." else Join(ys) by { assert "" + Join(ys) == Join(ys); }
    assert NormalizePath(root) == if xs == [] then "." else Join(xs) by { assert "" + Join(xs) == Join(xs); }
    if xs != [] && ys != [] {
      JoinedPrefix(xs, ys);
    } else if xs != [] {
      JoinIsNotDot(xs);
    } else if ys != [] {
      JoinIsNotDot(ys);
    }
  }

  /** They part at the root `.` and the path `a`. */
  lemma {:induction false} TestsPartAtDot()
    ensures RelativeTo("a", ".") && !PathWithinRoot("a", ".")
  {
    ParseOfDot();
    SplitComponent("a", "");
    assert "a" + "" == "a";
    assert ParsePath("a") == PurePath("", ["a"]);
    ContainmentTestsAgree("a", ".");
  }

  lemma {:induction false} JoinIsNotDot(parts: seq<string>)
    requires AllParts(parts) && parts != []
    ensures Join(parts) != "." && !("./" <= Join(parts)) && Join(parts) != ""
  {
    var first, rest := parts[0], Slashed(parts[1..]);
    if Join(parts) == "." {
      FirstComponent(first, rest, ".", "");
    }
    if "./" <= Join(parts) {
      assert Join(parts) == "." + Join(parts)[1..];
      FirstComponent(first, rest, ".", Join(parts)[1..]);
    }
  }

  // ---------------------------------------------------------------- what the parts are

  /** `c` stands between slashes, or between a slash and an end, or alone. */
  predicate Between(a: string, c: string, b: string) {
    (a == "" || a[|a| - 1] == '/') && (b == "" || b[0] == '/')
  }

  ghost predicate Segment(s: string, c: string) {
    exists a, b :: Between(a, c, b) && s == a + c + b
  }

  lemma {:induction false} SegmentOfSplit(s: string, k: nat) returns (a: string, b: string)
    requires k < |SplitSlash(s)|
    ensures s == a + SplitSlash(s)[k] + b
    ensures (if k == 0 then a == "" else a != "" && a[|a| - 1] == '/') && (b == "" || b[0] == '/')
  {
    if s == "" {
      a, b := "", "";
    } else if s[0] == '/' {
      if k == 0 {
        a, b := "", s;
      } else {
        a, b := SegmentOfSplit(s[1..], k - 1);
        a := "/" + a;
      }
      assert s == [s[0]] + s[1..];
    } else {
      a, b := SegmentOfSplit(s[1..], k);
      a := if k == 0 then "" else [s[0]] + a;
      assert s == [s[0]] + s[1..];
    }
  }

  lemma {:induction false} SplitAtSlash(a: string, t: string)
    ensures SplitSlash(a + "/" + t) == SplitSlash(a) + SplitSlash(t)
  {
    var whole := a + "/" + t;
    if a == "" {
      assert whole[1..] == t;
    } else {
      assert whole[1..] == a[1..] + "/" + t;
      SplitAtSlash(a[1..], t);
    }
  }

  /** The components between slashes are the segments. */
  lemma {:induction false} SplitMeans(s: string, c: string)
    requires '/' !in c
    ensures c in SplitSlash(s) <==> Segment(s, c)
  {
    if c in SplitSlash(s) {
      var k :| 0 <= k < |SplitSlash(s)| && SplitSlash(s)[k] == c;
      var a, b := SegmentOfSplit(s, k);
      assert Between(a, c, b) && s == a + c + b;
    }
    if Segment(s, c) {
      var a, b :| Between(a, c, b) && s == a + c + b;
      SegmentIsSplit(a, c, b);
    }
  }

  lemma {:induction false} SegmentIsSplit(a: string, c: string, b: string)
    requires '/' !in c && Between(a, c, b)
    ensures c in SplitSlash(a + c + b)
  {
    SplitComponent(c, b);
    assert SplitSlash(c + b)[0] == c;
    if a == "" {
      assert a + c + b == c + b;
    } else {
      var front := a[..|a| - 1];
      assert a == front + "/";
      Regroup(front, c, b);
      FirstBehindSlash(front, c + b);
    }
  }

  lemma {:induction false} FirstBehindSlash(front: string, tail: string)
    ensures SplitSlash(tail)[0] in SplitSlash(front + "/" + tail)
  {
    SplitAtSlash(front, tail);
  }

  lemma {:induction false} Regroup(front: string, c: string, b: string)
    ensures (front + "/") + c + b == front + "/" + (c + b)
  {
  }

  lemma {:induction false} KeptParts(cs: seq<string>, c: string)
    ensures c in KeepParts(cs) <==> c in cs && c != "" && c != "."
  {
    if cs != [] {
      KeptParts(cs[1..], c);
    }
  }

  /** A path is absolute when it begins with a slash; two slashes, but not more, are a root of their own. Its
      parts are its segments other than `.`, and it traverses upwards exactly when `..` is one of them. */
  lemma {:induction false} PathMeans(s: string, c: string)
    requires '/' !in c && c != "" && c != "."
    ensures IsAbsolute(s) <==> s != "" && s[0] == '/'
    ensures ParsePath(s).root == "//" <==> |s| >= 2 && s[0] == '/' && s[1] == '/' && (|s| == 2 || s[2] != '/')
    ensures c in ParsePath(s).parts <==> Segment(s, c)
    ensures HasTraversal(s) <==> Segment(s, "..")
  {
    SplitMeans(s, c);
    KeptParts(SplitSlash(s), c);
    SplitMeans(s, "..");
    KeptParts(SplitSlash(s), "..");
  }

  // ---------------------------------------------------------------- the path loop

  datatype PathVerdict = PathsAccepted | AbsoluteRejected | TraversalRejected | DeniedRejected | OutsideRejected

  predicate WithinSome(path: string, roots: seq<string>) {
    exists i :: 0 <= i < |roots| && PathWithinRoot(path, roots[i])
  }

  predicate PathClear(path: string, denied: set<string>, roots: seq<string>) {
    PathCode(path, denied, roots) == PathsAccepted
  }

  function PathCode(path: string, denied: set<string>, roots: seq<string>): (r: PathVerdict)
    ensures r == PathsAccepted <==>
      && !IsAbsolute(path) && !HasTraversal(path) && NormalizePath(path) !in denied
      && WithinSome(path, roots)
  {
    if IsAbsolute(path) then AbsoluteRejected
    else if HasTraversal(path) then TraversalRejected
    else if NormalizePath(path) in denied then DeniedRejected
    else if !WithinSome(path, roots) then OutsideRejected
    else PathsAccepted
  }

  function NormalizedSet(paths: seq<string>): set<string> {
    set i | 0 <= i < |paths| :: NormalizePath(paths[i])
  }

  /** The loop of `begin_workspace_transaction`: the first offending path decides. */
  method CheckRequestedPaths(paths: seq<string>, deniedPaths: seq<string>, roots: seq<string>)
    returns (v: PathVerdict, at: nat)
    ensures v == PathsAccepted ==> at == |paths|
    ensures v != PathsAccepted ==> at < |paths| && PathCode(paths[at], NormalizedSet(deniedPaths), roots) == v
    ensures forall j :: 0 <= j < at ==> PathClear(paths[j], NormalizedSet(deniedPaths), roots)
  {
    var denied := NormalizedSet(deniedPaths);
    at := 0;
    while at < |paths|
      invariant 0 <= at <= |paths|
      invariant forall j :: 0 <= j < at ==> PathClear(paths[j], denied, roots)
    {
      v := PathCode(paths[at], denied, roots);
      if v != PathsAccepted {
        return;
      }
      at := at + 1;
    }
    v := PathsAccepted;
  }

  /** When every root is relative, without `..`, and has a component, a path passes the loop's checks
      exactly when it is not denied and lies inside some root component by component. */
  lemma {:induction false} AcceptedIffInside(path: string, denied: set<string>, roots: seq<string>)
    requires forall i :: 0 <= i < |roots| ==>
      !IsAbsolute(roots[i]) && !HasTraversal(roots[i]) && ParsePath(roots[i]).parts != []
    ensures PathClear(path, denied, roots) <==>
      NormalizePath(path) !in denied && exists i :: 0 <= i < |roots| && ArtifactWithinBoundary(path, roots[i])
  {
    if !IsAbsolute(path) {
      forall i | 0 <= i < |roots| ensures PathWithinRoot(path, roots[i]) <==> RelativeTo(path, roots[i]) {
        ContainmentTestsAgree(path, roots[i]);
      }
    }
    if PathClear(path, denied, roots) {
      var i :| 0 <= i < |roots| && PathWithinRoot(path, roots[i]);
      assert ArtifactWithinBoundary(path, roots[i]);
    }
    if i :| 0 <= i < |roots| && ArtifactWithinBoundary(path, roots[i]) {
      assert PathWithinRoot(path, roots[i]);
    }
  }
}
