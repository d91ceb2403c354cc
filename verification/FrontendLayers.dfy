/**
 The frontend import checker, frontend/boundries.py: path resolution, the rule on single imports, and
 what it means for chains of imports.
 */
module FrontendLayers {
  import opened Common
  import opened Text

  // ---- POSIX paths ----

  predicate EndsWith(s: string, suffix: string) {
    |suffix| <= |s| && s[|s| - |suffix|..] == suffix
  }

  /** posixpath.join of two paths. */
  function JoinPath(a: string, b: string): string {
    if "/" <= b then b
    else if a == "" || EndsWith(a, "/") then a + b
    else a + "/" + b
  }

  function RStripSlashes(s: string): string {
    if EndsWith(s, "/") then RStripSlashes(s[..|s| - 1]) else s
  }

  /** Everything up to the last slash, that slash included. */
  function Head(p: string): string {
    if p == "" || p[|p| - 1] == '/' then p else Head(p[..|p| - 1])
  }

  function Dirname(p: string): string {
    var head := Head(p);
    var bare := RStripSlashes(head);
    if bare == "" then head else bare
  }

  /** One component pushed by the normalising loop. */
  function Push(acc: seq<string>, comp: string, rooted: bool): seq<string> {
    if comp == "" || comp == "." then acc
    else if comp != ".." || (!rooted && acc == []) || (acc != [] && acc[|acc| - 1] == "..") then acc + [comp]
    else if acc != [] then acc[..|acc| - 1]
    else acc
  }

  function PushAll(acc: seq<string>, comps: seq<string>, rooted: bool): seq<string>
    decreases |comps|
  {
    if comps == [] then acc else PushAll(Push(acc, comps[0], rooted), comps[1..], rooted)
  }

  function Slashes(path: string): nat {
    if "//" <= path && !("///" <= path) then 2 else if "/" <= path then 1 else 0
  }

  /** posixpath.normpath. */
  function NormPath(path: string): string {
    if path == "" then "."
    else
      var n := Slashes(path);
      var text := seq(n, _ => '/') + Join(PushAll([], Split(path, '/'), n > 0), '/');
      if text == "" then "." else text
  }

  method Normalize(path: string) returns (normalized: string)
    ensures normalized == NormPath(path)
  {
    if path == "" {
      return ".";
    }
    var n := Slashes(path);
    var comps := Split(path, '/');
    var acc: seq<string> := [];
    for i := 0 to |comps|
      invariant PushAll([], comps, n > 0) == PushAll(acc, comps[i..], n > 0)
    {
      var comp := comps[i];
      assert comps[i..][0] == comp && comps[i..][1..] == comps[i + 1..];
      if comp == "" || comp == "." {
        continue;
      }
      if comp != ".." || (n == 0 && acc == []) || (acc != [] && acc[|acc| - 1] == "..") {
        acc := acc + [comp];
      } else if acc != [] {
        acc := acc[..|acc| - 1];
      }
    }
    normalized := seq(n, _ => '/') + Join(acc, '/');
    if normalized == "" {
      normalized := ".";
    }
  }

  predicate Plain(comp: string) {
    comp != "" && comp != "." && comp != ".." && '/' !in comp
  }

  /** Ordinary names, after some leading ".." if the path is not rooted. */
  ghost predicate Normal(comps: seq<string>, rooted: bool) {
    && (forall i :: 0 <= i < |comps| ==> Plain(comps[i]) || (comps[i] == ".." && !rooted))
    && (forall i :: 0 < i < |comps| && comps[i] == ".." ==> comps[i - 1] == "..")
  }

  lemma {:induction false} PushAllNormal(acc: seq<string>, comps: seq<string>, rooted: bool)
    requires Normal(acc, rooted) && forall i :: 0 <= i < |comps| ==> '/' !in comps[i]
    ensures Normal(PushAll(acc, comps, rooted), rooted)
    decreases |comps|
  {
    if comps != [] {
      assert Normal(Push(acc, comps[0], rooted), rooted);
      PushAllNormal(Push(acc, comps[0], rooted), comps[1..], rooted);
    }
  }

  lemma {:induction false} NoLateDots(comps: seq<string>, i: nat)
    requires Normal(comps, false) && i < |comps| && comps[0] != ".."
    ensures Plain(comps[i])
  {
    if i > 0 {
      NoLateDots(comps, i - 1);
    }
  }

  // ---- resolution ----

  function StripExtension(s: string): string {
    if EndsWith(s, ".tsx") then s[..|s| - 4]
    else if EndsWith(s, ".ts") then s[..|s| - 3]
    else if EndsWith(s, ".jsx") then s[..|s| - 4]
    else if EndsWith(s, ".js") then s[..|s| - 3]
    else s
  }

  /** The normalised path of a local import, before its extension is stripped. */
  function Normalized(source: string, target: string): Option<string> {
    if "@/" <= target then Some(NormPath(target[2..]))
    else if "." <= target then Some(NormPath(JoinPath(Dirname(source), target)))
    else None
  }

  function TargetPath(source: string, target: string): Option<string> {
    match Normalized(source, target)
    case Some(n) => Some(StripExtension(n))
    case None => None
  }

  function Names(comps: seq<string>): seq<string> {
    if comps == [] then []
    else (if comps[0] == "" || comps[0] == "." then [] else [comps[0]]) + Names(comps[1..])
  }

  /** PurePosixPath(s).parts. */
  function Parts(s: string): seq<string> {
    (if Slashes(s) == 2 then ["//"] else if Slashes(s) == 1 then ["/"] else []) + Names(Split(s, '/'))
  }

  datatype Reason =
    | BackendSource
    | DatabaseClient
    | LocalAlias
    | Escapes
    | SharedUpward
    | FeatureUpward
    | NotTheIndex

  const DB_PACKAGES: set<string> := {"pg", "postgres", "postgresql", "prisma", "@prisma/client", "drizzle-orm", "mysql2"}

  predicate IsDatabase(target: string) {
    exists p :: p in DB_PACKAGES && (target == p || p + "/" <= target)
  }

  /** The rule on the parts of the importing file and of the resolved target. */
  function PartsViolation(src: seq<string>, dst: seq<string>): Option<Reason> {
    if src == [] || dst == [] then None
    else if src[0] == "shared" && (dst[0] == "features" || dst[0] == "app") then Some(SharedUpward)
    else if src[0] == "features" && dst[0] == "app" then Some(FeatureUpward)
    else if dst[0] == "features" && |dst| >= 2
            && !(src[0] == "features" && |src| >= 2 && src[1] == dst[1])
            && !(|dst| == 2 || (|dst| == 3 && dst[2] == "index")) then Some(NotTheIndex)
    else None
  }

  predicate EscapesRoot(resolved: string) {
    resolved == ".." || "../" <= resolved || "/" <= resolved
  }

  function Violation(source: string, target: string): Option<Reason> {
    if "backend" in Parts(target) then Some(BackendSource)
    else if IsDatabase(target) then Some(DatabaseClient)
    else
      match TargetPath(source, target)
      case None => if "~/" <= target || "#" <= target then Some(LocalAlias) else None
      case Some(resolved) =>
        if EscapesRoot(resolved) then Some(Escapes) else PartsViolation(Parts(source), Parts(resolved))
  }

  // ---- an accepted local import stays inside the source tree ----

  /** A suffix without a slash lies after every slash. */
  lemma SuffixAfterSlash(s: string, suffix: string, i: nat)
    requires EndsWith(s, suffix) && '/' !in suffix && i < |s| && s[i] == '/'
    ensures i < |s| - |suffix|
  {
    assert s == s[..|s| - |suffix|] + suffix;
  }

  lemma StripAfterSlash(s: string, i: nat)
    requires i < |s| && s[i] == '/'
    ensures i < |StripExtension(s)| <= |s| && StripExtension(s) == s[..|StripExtension(s)|]
  {
    if EndsWith(s, ".tsx") { SuffixAfterSlash(s, ".tsx", i); }
    else if EndsWith(s, ".ts") { SuffixAfterSlash(s, ".ts", i); }
    else if EndsWith(s, ".jsx") { SuffixAfterSlash(s, ".jsx", i); }
    else if EndsWith(s, ".js") { SuffixAfterSlash(s, ".js", i); }
  }

  /** Stripping an extension never hides that a path climbs out or is absolute. */
  lemma StripKeepsEscape(n: string)
    requires EscapesRoot(n)
    ensures EscapesRoot(StripExtension(n))
  {
    if "../" <= n {
      StripAfterSlash(n, 2);
    } else if "/" <= n {
      StripAfterSlash(n, 0);
    }
  }

  lemma JoinStartsWithDots(comps: seq<string>)
    requires comps != [] && comps[0] == ".."
    ensures EscapesRoot(Join(comps, '/'))
  {
    if |comps| > 1 {
      assert Join(comps, '/') == ".." + ['/'] + Join(comps[1..], '/');
    }
  }

  /** A normalised path that does not climb out or start at the root has no ".." in it. */
  lemma NormPathInside(path: string)
    requires !EscapesRoot(NormPath(path))
    ensures NormPath(path) == "." || forall i :: 0 <= i < |Split(NormPath(path), '/')| ==> Plain(Split(NormPath(path), '/')[i])
  {
    if path != "" {
      var n := Slashes(path);
      var comps := PushAll([], Split(path, '/'), n > 0);
      PushAllNormal([], Split(path, '/'), n > 0);
      var text := seq(n, _ => '/') + Join(comps, '/');
      if n > 0 {
        assert text[0] == '/';
      } else if comps != [] {
        assert text == Join(comps, '/');
        if comps[0] == ".." {
          JoinStartsWithDots(comps);
        } else {
          forall i | 0 <= i < |comps| ensures Plain(comps[i]) { NoLateDots(comps, i); }
          SplitJoin(comps, '/');
        }
      }
    }
  }

  /** However "." and ".." are nested in it, an accepted local target normalises to a path without "..". */
  lemma AcceptedStaysInside(source: string, target: string)
    requires Violation(source, target).None? && Normalized(source, target).Some?
    ensures var n := Normalized(source, target).value;
            n == "." || forall i :: 0 <= i < |Split(n, '/')| ==> Plain(Split(n, '/')[i])
  {
    var n := Normalized(source, target).value;
    if EscapesRoot(n) {
      StripKeepsEscape(n);
    }
    NormPathInside(if "@/" <= target then target[2..] else JoinPath(Dirname(source), target));
  }

  // ---- layering over chains of imports ----

  /** A src-relative path of at least two ordinary names: a source file, or a directory inside another. */
  predicate IsFile(f: string) {
    |Split(f, '/')| >= 2 && forall i :: 0 <= i < |Split(f, '/')| ==> Plain(Split(f, '/')[i])
  }

  function Area(f: string): string {
    Split(f, '/')[0]
  }

  predicate InAreas(f: string) {
    IsFile(f) && Area(f) in {"shared", "features", "app"}
  }

  /** TypeScript reads a path with a JavaScript extension as the TypeScript file beside it. */
  predicate Substitutes(n: string, f: string) {
    || (EndsWith(n, ".js") && (f == n[..|n| - 3] + ".ts" || f == n[..|n| - 3] + ".tsx"))
    || (EndsWith(n, ".jsx") && f == n[..|n| - 4] + ".tsx")
  }

  predicate Extends(n: string, f: string) {
    exists e :: e in EXTENSIONS && (f == n + e || f == n + "/index" + e)
  }

  /** The files a normalised import path may stand for: itself, with an extension, or as a directory index. */
  predicate Denotes(n: string, f: string) {
    Extends(n, f) || Substitutes(n, f)
  }

  const EXTENSIONS: set<string> := {"", ".tsx", ".ts", ".jsx", ".js"}

  /** f holds an accepted import that stands for g. */
  ghost predicate Imports(f: string, g: string) {
    exists target :: Violation(f, target).None? && Normalized(f, target).Some? && Denotes(Normalized(f, target).value, g)
  }

  lemma {:induction false} NamesOfPlain(comps: seq<string>)
    requires forall i :: 0 <= i < |comps| ==> Plain(comps[i])
    ensures Names(comps) == comps
    decreases |comps|
  {
    if comps != [] {
      NamesOfPlain(comps[1..]);
    }
  }

  /** The parts of a file's path are its components. */
  lemma PartsOfFile(f: string)
    requires IsFile(f)
    ensures Parts(f) == Split(f, '/')
  {
    var comps := Split(f, '/');
    JoinSplit(f, '/');
    assert f == comps[0] + ['/'] + Join(comps[1..], '/');
    assert f[0] == comps[0][0];
    assert f[0] != '/' by { assert comps[0][0] in comps[0]; }
    NamesOfPlain(comps);
  }

  /** The path text starts with its first directory. */
  lemma FirstComponent(first: string, tail: string)
    requires Plain(first)
    ensures Parts(first + ['/'] + tail) == [first] + Names(Split(tail, '/'))
    ensures Parts(first) == [first]
  {
    SplitPart(first, '/', tail);
    assert first[0] in first;
    assert (first + ['/'] + tail)[0] != '/' && first[0] != '/';
    assert Names([first]) == [first] by { assert [first][1..] == []; }
    assert ([first] + Split(tail, '/'))[1..] == Split(tail, '/');
  }

  lemma FileText(g: string)
    requires IsFile(g)
    ensures Plain(Area(g)) && |Area(g)| < |g| && g[..|Area(g)|] == Area(g) && g[|Area(g)|] == '/'
  {
    var comps := Split(g, '/');
    JoinSplit(g, '/');
    assert g == comps[0] + ['/'] + Join(comps[1..], '/');
  }

  /** A path whose text starts with a directory still does once its extension is gone. */
  lemma StrippedArea(n: string, first: string)
    requires Plain(first) && |first| < |n| && n[..|first|] == first && n[|first|] == '/'
    ensures Parts(StripExtension(n)) != [] && Parts(StripExtension(n))[0] == first
  {
    StripAfterSlash(n, |first|);
    var k := |StripExtension(n)|;
    PrefixText(n, first, k);
    FirstComponent(first, n[|first| + 1..k]);
  }

  lemma PrefixText(n: string, first: string, k: nat)
    requires |first| < k <= |n| && n[..|first|] == first && n[|first|] == '/'
    ensures n[..k] == first + ['/'] + n[|first| + 1..k]
  {
    assert n[..k] == n[..|first|] + [n[|first|]] + n[|first| + 1..k];
  }

  lemma AreaStripped(area: string)
    requires area in {"shared", "features", "app"}
    ensures StripExtension(area) == area
  {
  }

  /** A substituted path differs from the file in its extension only. */
  lemma SubstitutedStem(n: string, g: string) returns (m: string, j: string, e: string)
    requires Substitutes(n, g)
    ensures n == m + j && g == m + e && (j == ".js" || j == ".jsx")
    ensures e in EXTENSIONS && '/' !in e && '/' !in j
  {
    if EndsWith(n, ".js") && (g == n[..|n| - 3] + ".ts" || g == n[..|n| - 3] + ".tsx") {
      j := ".js";
      m := n[..|n| - 3];
      e := if g == m + ".ts" then ".ts" else ".tsx";
    } else {
      j, m, e := ".jsx", n[..|n| - 4], ".tsx";
    }
    assert n == n[..|m|] + n[|m|..];
  }

  /** What an import that stands for a file resolves to lies in the file's area. */
  lemma ResolvedArea(n: string, g: string)
    requires Denotes(n, g) && InAreas(g)
    ensures Parts(StripExtension(n)) != [] && Parts(StripExtension(n))[0] == Area(g)
  {
    if Substitutes(n, g) {
      SubstitutedArea(n, g);
    } else {
      ExtendedArea(n, g);
    }
  }

  lemma SubstitutedArea(n: string, g: string)
    requires Substitutes(n, g) && InAreas(g)
    ensures Parts(StripExtension(n)) != [] && Parts(StripExtension(n))[0] == Area(g)
  {
    var first := Area(g);
    FileText(g);
    var m, j, e := SubstitutedStem(n, g);
    SlashInStem(g, m, e, n, j, |first|);
    StrippedArea(n, first);
  }

  lemma SlashInStem(g: string, m: string, e: string, n: string, j: string, k: nat)
    requires g == m + e && n == m + j && '/' !in e && k < |g| && g[k] == '/'
    ensures k < |m| && k < |n| && n[..k] == g[..k] && n[k] == '/'
  {
    forall i | |m| <= i < |g| ensures g[i] != '/' {
      assert g[i] == e[i - |m|] && e[i - |m|] in e;
    }
  }

  lemma ExtendedArea(n: string, g: string)
    requires Extends(n, g) && InAreas(g)
    ensures Parts(StripExtension(n)) != [] && Parts(StripExtension(n))[0] == Area(g)
  {
    var first := Area(g);
    FileText(g);
    var e :| e in EXTENSIONS && (g == n + e || g == n + "/index" + e);
    NoSlashInExtension(e);
    assert n == g[..|n|];
    if |n| > |first| {
      assert n[..|first|] == first && n[|first|] == '/';
      StrippedArea(n, first);
    } else {
      NoSlashBefore(g, n, e, first);
      AreaStripped(first);
      FirstComponent(first, "");
    }
  }

  /** A path no longer than the first directory it shares with the file is that directory. */
  lemma NoSlashBefore(g: string, n: string, e: string, first: string)
    requires |n| <= |first| < |g| && g[..|first|] == first && g[|first|] == '/' && '/' !in first
    requires '/' !in e && (g == n + e || g == n + "/index" + e)
    ensures n == first
  {
    forall k | 0 <= k < |first| ensures g[k] != '/' {
      assert g[k] == first[k] && first[k] in first;
    }
    var rest := g[|n|..];
    assert rest[|first| - |n|] == '/';
    assert '/' in rest;
    assert rest != e;
    assert g == n + rest;
    assert rest[0] == '/';
  }

  /** One accepted import never points up: shared to features or app, or features to app. */
  lemma StepAreas(f: string, g: string)
    requires InAreas(f) && InAreas(g) && Imports(f, g)
    ensures NotUp(Area(f), Area(g))
  {
    var target :| Violation(f, target).None? && Normalized(f, target).Some? && Denotes(Normalized(f, target).value, g);
    var n := Normalized(f, target).value;
    PartsOfFile(f);
    ResolvedArea(n, g);
    AcceptedParts(f, target);
    AreasOfParts(Parts(f), Parts(StripExtension(n)));
  }

  /** From shared only to shared, from features never to app. */
  predicate NotUp(from: string, to: string) {
    (from == "shared" ==> to != "features" && to != "app") && (from == "features" ==> to != "app")
  }

  lemma AcceptedParts(source: string, target: string)
    requires Violation(source, target).None? && Normalized(source, target).Some?
    ensures PartsViolation(Parts(source), Parts(StripExtension(Normalized(source, target).value))).None?
  {
  }

  lemma AreasOfParts(src: seq<string>, dst: seq<string>)
    requires src != [] && dst != [] && PartsViolation(src, dst).None?
    ensures NotUp(src[0], dst[0])
  {
  }

  ghost predicate Chain(p: seq<string>) {
    p != [] && (forall i :: 0 <= i < |p| ==> InAreas(p[i])) && forall i :: 0 <= i < |p| - 1 ==> Imports(p[i], p[i + 1])
  }

  /** Along every chain of accepted imports shared reaches only shared, and features never reaches app. */
  lemma {:induction false} AreasAreTransitive(p: seq<string>, n: nat)
    requires Chain(p) && n < |p|
    ensures NotUp(Area(p[0]), Area(p[n]))
  {
    if n > 0 {
      AreasAreTransitive(p, n - 1);
      assert InAreas(p[n - 1]) && InAreas(p[n]);
      assert Imports(p[n - 1], p[n - 1 + 1]);
      StepAreas(p[n - 1], p[n]);
    }
  }

  // ---- cross-feature imports ----

  /** Stripping concerns the last component only. */
  lemma StripLast(dir: string, last: string)
    requires '/' !in last
    ensures StripExtension(dir + ['/'] + last) == dir + ['/'] + StripExtension(last)
  {
    var s := dir + ['/'] + last;
    StripOne(dir, last, ".tsx");
    StripOne(dir, last, ".ts");
    StripOne(dir, last, ".jsx");
    StripOne(dir, last, ".js");
  }

  lemma StripOne(dir: string, last: string, suffix: string)
    requires '/' !in last && '/' !in suffix
    ensures EndsWith(dir + ['/'] + last, suffix) <==> EndsWith(last, suffix)
    ensures EndsWith(last, suffix) ==>
              (dir + ['/'] + last)[..|dir + ['/'] + last| - |suffix|] == dir + ['/'] + last[..|last| - |suffix|]
  {
    var s := dir + ['/'] + last;
    assert |suffix| <= |last| ==> s[|s| - |suffix|..] == last[|last| - |suffix|..];
    if EndsWith(s, suffix) {
      SuffixAfterSlash(s, suffix, |dir|);
    }
  }

  lemma {:induction false} NamesAppend(a: seq<string>, b: seq<string>)
    ensures Names(a + b) == Names(a) + Names(b)
    decreases |a|
  {
    if a == [] {
      assert a + b == b;
    } else {
      assert (a + b)[1..] == a[1..] + b;
      NamesAppend(a[1..], b);
    }
  }

  lemma NotEscaping(area: string, tail: string)
    requires Plain(area)
    ensures !EscapesRoot(area + ['/'] + tail)
  {
    var s := area + ['/'] + tail;
    assert area[0] in area && s[0] == area[0] && s[|area|] == '/';
    if |area| == 2 {
      assert s[0..2] == area;
    } else if |area| > 2 {
      assert area[2] in area && s[2] == area[2];
    }
  }

  /** The parts of a file in a directory of ordinary names. */
  lemma PartsInside(dir: string, last: string)
    requires IsFile(dir) && '/' !in last
    ensures !EscapesRoot(dir + ['/'] + last)
    ensures Parts(dir + ['/'] + last) == Split(dir, '/') + if last == "" || last == "." then [] else [last]
  {
    var comps := Split(dir, '/');
    var area, tail := comps[0], Join(comps[1..], '/') + ['/'] + last;
    JoinSplit(dir, '/');
    assert dir + ['/'] + last == area + ['/'] + tail;
    NotEscaping(area, tail);
    FirstComponent(area, tail);
    SplitPart(area, '/', tail);
    SplitLast(dir, last);
    NamesAtEnd(comps, Split(tail, '/'), last);
  }

  /** Of a path split into ordinary names and a last component, all names but an empty or "." last one remain. */
  lemma NamesAtEnd(comps: seq<string>, rest: seq<string>, last: string)
    requires comps != [] && [comps[0]] + rest == comps + [last]
    requires forall i :: 0 <= i < |comps| ==> Plain(comps[i])
    ensures [comps[0]] + Names(rest) == comps + if last == "" || last == "." then [] else [last]
  {
    assert rest == ([comps[0]] + rest)[1..] == comps[1..] + [last];
    NamesAppend(comps[1..], [last]);
    NamesOfPlain(comps[1..]);
    assert [last][1..] == [];
    assert comps == [comps[0]] + comps[1..];
  }

  lemma {:induction false} SplitLast(dir: string, last: string)
    requires '/' !in last
    ensures Split(dir + ['/'] + last, '/') == Split(dir, '/') + [last]
    decreases |Split(dir, '/')|
  {
    var comps := Split(dir, '/');
    JoinSplit(dir, '/');
    SplitPart(last, '/', "");
    if |comps| == 1 {
      SplitPart(dir, '/', last);
    } else {
      var rest := Join(comps[1..], '/');
      assert dir == comps[0] + ['/'] + rest;
      SplitPart(comps[0], '/', rest);
      SplitLast(rest, last);
      SplitPart(comps[0], '/', rest + ['/'] + last);
      assert dir + ['/'] + last == comps[0] + ['/'] + (rest + ['/'] + last);
    }
  }

  /** The verdict on a local import whose normalised path is known. */
  lemma LocalVerdict(source: string, target: string, resolved: string)
    requires "backend" !in Parts(target) && !IsDatabase(target)
    requires TargetPath(source, target) == Some(resolved) && !EscapesRoot(resolved)
    ensures Violation(source, target) == PartsViolation(Parts(source), Parts(resolved))
  {
  }

  /** The feature's index, by whichever spelling leaves no further component. */
  predicate IsIndex(dir: seq<string>, bare: string) {
    var silent := bare == "" || bare == ".";
    (|dir| == 2 && (bare == "index" || silent)) || (|dir| == 3 && dir[2] == "index" && silent)
  }

  lemma IndexOnly(src: seq<string>, dir: seq<string>, bare: string)
    requires |src| >= 2 && |dir| >= 2 && dir[0] == "features"
    requires src[0] != "shared" && !(src[0] == "features" && src[1] == dir[1])
    ensures PartsViolation(src, dir + if bare == "" || bare == "." then [] else [bare]).None? <==> IsIndex(dir, bare)
  {
  }

  /**
   An import from outside a feature into that feature's directory, at any depth, is accepted exactly when
   it names the feature's index, or has no name left once its extension is gone ("" or ".").
   */
  lemma CrossFeatureIff(source: string, target: string, dir: string, last: string)
    requires IsFile(source) && IsFile(dir) && Plain(last) && Area(dir) == "features" && Area(source) != "shared"
    requires !(Area(source) == "features" && Split(source, '/')[1] == Split(dir, '/')[1])
    requires "backend" !in Parts(target) && !IsDatabase(target)
    requires Normalized(source, target) == Some(dir + ['/'] + last)
    ensures Violation(source, target).None? <==> IsIndex(Split(dir, '/'), StripExtension(last))
  {
    var bare := StripExtension(last);
    StripLast(dir, last);
    BareHasNoSlash(last);
    PartsOfFile(source);
    PartsInside(dir, bare);
    LocalVerdict(source, target, dir + ['/'] + bare);
    IndexOnly(Parts(source), Split(dir, '/'), bare);
  }

  lemma BareHasNoSlash(last: string)
    requires '/' !in last
    ensures '/' !in StripExtension(last)
  {
    assert StripExtension(last) == last[..|StripExtension(last)|];
  }

  // ---- which files cross-feature imports reach ----

  predicate Silent(name: string) {
    StripExtension(name) == "" || StripExtension(name) == "."
  }

  predicate EntryShape(rest: seq<string>, e: string, i: string, named: bool, silent: bool) {
    || rest == ["index" + e]
    || ((named || silent) && (rest == [i + e] || rest == [i, "index" + e]))
    || (silent && (rest == ["index", i + e] || rest == ["index", i, "index" + e]))
  }

  /** The components after the feature's own, for an import whose last component is named i. */
  predicate EntryWith(rest: seq<string>, e: string, i: string) {
    EntryShape(rest, e, i, StripExtension(i) == "index", Silent(i))
  }

  ghost predicate IsEntry(parts: seq<string>) {
    |parts| >= 3 && exists e, i :: e in EXTENSIONS && EntryWith(parts[2..], e, i)
  }

  /** The index of a feature, or a file behind a component that has no name once its extension is gone. */
  ghost predicate EntryFile(g: string) {
    IsEntry(Split(g, '/'))
  }

  /** g lies inside a feature and f does not lie inside that one. */
  predicate Crosses(f: string, g: string) {
    && IsFile(f) && IsFile(g) && Area(g) == "features" && |Split(g, '/')| >= 3
    && !(Area(f) == "features" && Split(f, '/')[1] == Split(g, '/')[1])
  }

  lemma LastComponent(n: string) returns (dir: string)
    requires |Split(n, '/')| >= 2
    ensures var comps := Split(n, '/');
            n == dir + ['/'] + comps[|comps| - 1] && Split(dir, '/') == comps[..|comps| - 1]
  {
    var comps := Split(n, '/');
    var k := |comps| - 1;
    dir := Join(comps[..k], '/');
    SplitJoin(comps[..k], '/');
    SplitLast(dir, comps[k]);
    assert comps[..k] + [comps[k]] == comps;
    JoinSplit(n, '/');
    JoinSplit(dir + ['/'] + comps[k], '/');
  }

  lemma SplitExtendedLast(dir: string, last: string, e: string)
    requires '/' !in last && '/' !in e
    ensures Split(dir + ['/'] + last + e, '/') == Split(dir, '/') + [last + e]
  {
    assert dir + ['/'] + last + e == dir + ['/'] + (last + e);
    SplitLast(dir, last + e);
  }

  lemma SplitExtended(n: string, e: string)
    requires '/' !in e
    ensures var comps := Split(n, '/');
            Split(n + e, '/') == comps[..|comps| - 1] + [comps[|comps| - 1] + e]
  {
    if |Split(n, '/')| == 1 {
      SplitExtendedSingle(n, e);
    } else {
      var dir := LastComponent(n);
      SplitExtendedLast(dir, Split(n, '/')[|Split(n, '/')| - 1], e);
    }
  }

  lemma SplitExtendedSingle(n: string, e: string)
    requires |Split(n, '/')| == 1 && '/' !in e
    ensures Split(n, '/') == [n] && Split(n + e, '/') == [n + e]
  {
    JoinSplit(n, '/');
    SplitPart(n + e, '/', "");
  }

  lemma SplitIndexed(n: string, e: string)
    requires '/' !in e
    ensures Split(n + "/index" + e, '/') == Split(n, '/') + ["index" + e]
  {
    SplitLast(n, "index" + e);
    assert n + "/index" + e == n + ['/'] + ("index" + e);
  }

  lemma DenotedSplit(n: string, g: string, e: string)
    requires '/' !in e && (g == n + e || g == n + "/index" + e)
    ensures var comps, parts := Split(n, '/'), Split(g, '/');
            parts == comps + ["index" + e] || parts == comps[..|comps| - 1] + [comps[|comps| - 1] + e]
  {
    if g == n + e {
      SplitExtended(n, e);
    } else {
      SplitIndexed(n, e);
    }
  }

  predicate AllPlain(comps: seq<string>) {
    forall i :: 0 <= i < |comps| ==> Plain(comps[i])
  }

  /** The components of a file inside a feature, from those of the path it was imported by. */
  predicate FromPath(comps: seq<string>, parts: seq<string>, e: string) {
    && |comps| >= 2 && |parts| >= 2 && comps[0] == parts[0] && comps[1] == parts[1] && AllPlain(comps)
    && (parts == comps + ["index" + e]
        || (|comps| >= 3 && parts == comps[..|comps| - 1] + [comps[|comps| - 1] + e]))
  }

  lemma DotSplits(n: string)
    ensures n == "." ==> |Split(n, '/')| == 1
  {
    SplitPart(".", '/', "");
  }

  /** What a file says about the path it was imported by. */
  lemma DenotedPath(n: string, g: string, e: string)
    requires '/' !in e && (g == n + e || g == n + "/index" + e) && |Split(g, '/')| >= 3
    requires n == "." || AllPlain(Split(n, '/'))
    ensures FromPath(Split(n, '/'), Split(g, '/'), e)
  {
    DenotedSplit(n, g, e);
    DotSplits(n);
    DenotedComponents(n == ".", Split(n, '/'), Split(g, '/'), e);
  }

  lemma DenotedComponents(dot: bool, comps: seq<string>, parts: seq<string>, e: string)
    requires comps != [] && |parts| >= 3
    requires parts == comps + ["index" + e] || parts == comps[..|comps| - 1] + [comps[|comps| - 1] + e]
    requires if dot then |comps| == 1 else AllPlain(comps)
    ensures FromPath(comps, parts, e)
  {
  }

  lemma TailAfterTwo<T>(a: seq<T>, b: seq<T>)
    requires |a| >= 2
    ensures (a + b)[2..] == a[2..] + b
  {
  }

  lemma EntryComponents(comps: seq<string>, parts: seq<string>, e: string, last: string)
    requires |comps| >= 3 && last == comps[|comps| - 1] && IsIndex(comps[..|comps| - 1], StripExtension(last))
    requires parts == comps + ["index" + e] || parts == comps[..|comps| - 1] + [last + e]
    ensures EntryWith(parts[2..], e, last)
  {
    var dir := comps[..|comps| - 1];
    TailAfterTwo(comps, ["index" + e]);
    TailAfterTwo(dir, [last + e]);
    assert comps[2..] == dir[2..] + [last];
    if |comps| == 3 {
      assert dir[2..] == [];
    } else {
      assert dir[2..] == [dir[2]];
    }
    EntryTail(dir[2..], parts[2..], e, last);
  }

  lemma EntryTail(dir: seq<string>, rest: seq<string>, e: string, last: string)
    requires dir == [] || dir == ["index"]
    requires if dir == [] then StripExtension(last) == "index" || Silent(last) else Silent(last)
    requires rest == dir + [last] + ["index" + e] || rest == dir + [last + e]
    ensures EntryWith(rest, e, last)
  {
  }

  /** From a file of some area other than shared, into a feature it is not part of. */
  predicate CrossesInto(src: seq<string>, comps: seq<string>) {
    && |src| >= 2 && AllPlain(src) && src[0] != "shared" && |comps| >= 3 && comps[0] == "features"
    && !(src[0] == "features" && src[1] == comps[1])
  }

  /** A path that crosses into a feature names its index. */
  predicate NamesIndex(src: seq<string>, comps: seq<string>) {
    CrossesInto(src, comps) && AllPlain(comps) ==> IsIndex(comps[..|comps| - 1], StripExtension(comps[|comps| - 1]))
  }

  lemma DirectoryOf(comps: seq<string>, dir: string)
    requires |comps| >= 3 && comps[0] == "features" && AllPlain(comps) && Split(dir, '/') == comps[..|comps| - 1]
    ensures IsFile(dir) && Area(dir) == "features" && Split(dir, '/')[1] == comps[1] && Plain(comps[|comps| - 1])
  {
  }

  lemma AcceptedNamesIndex(f: string, target: string, n: string)
    requires "backend" !in Parts(target) && !IsDatabase(target)
    requires Violation(f, target).None? && Normalized(f, target) == Some(n)
    requires CrossesInto(Split(f, '/'), Split(n, '/')) && AllPlain(Split(n, '/'))
    ensures NamesIndex(Split(f, '/'), Split(n, '/'))
  {
    var dir, last := Directory(n);
    CrossFeatureIff(f, target, dir, last);
  }

  lemma Directory(n: string) returns (dir: string, last: string)
    requires var comps := Split(n, '/'); |comps| >= 3 && comps[0] == "features" && AllPlain(comps)
    ensures var comps := Split(n, '/');
            && n == dir + ['/'] + last && IsFile(dir) && Plain(last) && Area(dir) == "features"
            && Split(dir, '/') == comps[..|comps| - 1] && last == comps[|comps| - 1] && Split(dir, '/')[1] == comps[1]
  {
    var comps := Split(n, '/');
    dir := LastComponent(n);
    last := comps[|comps| - 1];
    DirectoryOf(comps, dir);
  }

  lemma AcceptedTarget(f: string, target: string)
    requires Violation(f, target).None?
    ensures "backend" !in Parts(target) && !IsDatabase(target)
  {
  }

  lemma AcceptedPath(f: string, target: string, n: string)
    requires Violation(f, target).None? && Normalized(f, target) == Some(n)
    ensures n == "." || AllPlain(Split(n, '/'))
    ensures NamesIndex(Split(f, '/'), Split(n, '/'))
  {
    AcceptedStaysInside(f, target);
    AcceptedTarget(f, target);
    if CrossesInto(Split(f, '/'), Split(n, '/')) && AllPlain(Split(n, '/')) {
      AcceptedNamesIndex(f, target, n);
    }
  }

  lemma NoSlashInExtension(e: string)
    requires e in EXTENSIONS
    ensures '/' !in e
  {
  }

  lemma AcceptedImport(f: string, g: string) returns (n: string)
    requires Imports(f, g)
    ensures Denotes(n, g)
    ensures n == "." || AllPlain(Split(n, '/'))
    ensures NamesIndex(Split(f, '/'), Split(n, '/'))
  {
    var target :| Violation(f, target).None? && Normalized(f, target).Some? && Denotes(Normalized(f, target).value, g);
    n := Normalized(f, target).value;
    AcceptedPath(f, target, n);
  }

  lemma CrossingImport(f: string, g: string)
    requires InAreas(f) && InAreas(g) && Imports(f, g) && Crosses(f, g)
    ensures CrossesInto(Split(f, '/'), Split(g, '/'))
  {
    StepAreas(f, g);
  }

  lemma EntryOf(src: seq<string>, comps: seq<string>, parts: seq<string>, e: string)
    requires CrossesInto(src, parts) && FromPath(comps, parts, e) && NamesIndex(src, comps) && e in EXTENSIONS
    ensures IsEntry(parts)
  {
    if |comps| == 2 {
      assert parts[2..] == ["index" + e];
      assert EntryWith(parts[2..], e, "");
    } else {
      EntryComponents(comps, parts, e, comps[|comps| - 1]);
    }
  }

  lemma EntryBySubstitution(src: seq<string>, n: string, g: string)
    requires CrossesInto(src, Split(g, '/')) && NamesIndex(src, Split(n, '/')) && Substitutes(n, g)
    requires n == "." || AllPlain(Split(n, '/'))
    ensures EntryFile(g)
  {
    var m, j, e := SubstitutedStem(n, g);
    assert n != ".";
    EntryByStem(src, n, g, m, j, e);
  }

  lemma EntryByStem(src: seq<string>, n: string, g: string, m: string, j: string, e: string)
    requires CrossesInto(src, Split(g, '/')) && NamesIndex(src, Split(n, '/')) && AllPlain(Split(n, '/'))
    requires n == m + j && g == m + e && (j == ".js" || j == ".jsx") && e in EXTENSIONS && '/' !in j && '/' !in e
    ensures EntryFile(g)
  {
    StemSplits(n, g, m, j, e);
    SubstitutedEntry(src, Split(m, '/'), Split(n, '/'), Split(g, '/'), j, e);
  }

  lemma StemSplits(n: string, g: string, m: string, j: string, e: string)
    requires n == m + j && g == m + e && '/' !in j && '/' !in e
    ensures var comps := Split(m, '/');
            && Split(n, '/') == comps[..|comps| - 1] + [comps[|comps| - 1] + j]
            && Split(g, '/') == comps[..|comps| - 1] + [comps[|comps| - 1] + e]
  {
    SplitAs(n, m, j);
    SplitAs(g, m, e);
  }

  lemma SplitAs(p: string, n: string, e: string)
    requires p == n + e && '/' !in e
    ensures var comps := Split(n, '/'); Split(p, '/') == comps[..|comps| - 1] + [comps[|comps| - 1] + e]
  {
    SplitExtended(n, e);
  }

  lemma SubstitutedEntry(src: seq<string>, comps: seq<string>, from: seq<string>, parts: seq<string>, j: string, e: string)
    requires CrossesInto(src, parts) && NamesIndex(src, from) && e in EXTENSIONS && (j == ".js" || j == ".jsx")
    requires comps != [] && from == comps[..|comps| - 1] + [comps[|comps| - 1] + j]
    requires parts == comps[..|comps| - 1] + [comps[|comps| - 1] + e]
    requires AllPlain(from)
    ensures IsEntry(parts)
  {
    var k := |comps| - 1;
    var dir, last := comps[..k], comps[k];
    StemOf(last);
    Pointwise(dir, last + j, from);
    Pointwise(dir, last + e, parts);
    assert IsIndex(dir, last);
    IndexEntry(dir, last, parts, e);
  }

  lemma Pointwise<T>(dir: seq<T>, last: T, all: seq<T>)
    requires all == dir + [last]
    ensures |all| == |dir| + 1 && all[..|all| - 1] == dir && all[|all| - 1] == last && all[..|dir|] == dir
    ensures |dir| >= 2 ==> all[0] == dir[0] && all[1] == dir[1] && all[2..] == dir[2..] + [last]
  {
  }

  lemma IndexEntry(dir: seq<string>, last: string, parts: seq<string>, e: string)
    requires IsIndex(dir, last) && parts == dir + [last + e] && |dir| >= 2 && e in EXTENSIONS
    ensures IsEntry(parts)
  {
    Pointwise(dir, last + e, parts);
    if |dir| == 2 {
      assert dir[2..] == [];
    } else {
      assert dir[2..] == [dir[2]];
    }
    IndexStems(last);
    EntryTail(dir[2..], parts[2..], e, last);
    assert EntryWith(parts[2..], e, last);
  }

  lemma IndexStems(last: string)
    ensures last == "index" ==> StripExtension(last) == "index"
    ensures last == "" || last == "." ==> Silent(last)
  {
  }

  /** Stripping the JavaScript extension that was appended. */
  lemma StemOf(last: string)
    ensures StripExtension(last + ".js") == last && StripExtension(last + ".jsx") == last
  {
    StripJs(last);
    StripJsx(last);
  }

  lemma NotEnding(s: string, suffix: string, k: nat)
    requires 1 <= k <= |suffix| && k <= |s| && s[|s| - k] != suffix[|suffix| - k]
    ensures !EndsWith(s, suffix)
  {
    if |suffix| <= |s| {
      assert s[|s| - |suffix|..][|suffix| - k] == s[|s| - k];
    }
  }

  lemma StripJs(last: string)
    ensures StripExtension(last + ".js") == last
  {
    var s := last + ".js";
    assert s[..|last|] == last && s[|last|..] == ".js";
    NotEnding(s, ".tsx", 1);
    NotEnding(s, ".ts", 2);
    NotEnding(s, ".jsx", 1);
  }

  lemma StripJsx(last: string)
    ensures StripExtension(last + ".jsx") == last
  {
    var s := last + ".jsx";
    assert s[..|last|] == last && s[|last|..] == ".jsx";
    NotEnding(s, ".tsx", 3);
    NotEnding(s, ".ts", 1);
  }

  lemma EntryByExtension(src: seq<string>, n: string, g: string)
    requires CrossesInto(src, Split(g, '/')) && NamesIndex(src, Split(n, '/')) && Extends(n, g)
    requires n == "." || AllPlain(Split(n, '/'))
    ensures EntryFile(g)
  {
    var e :| e in EXTENSIONS && (g == n + e || g == n + "/index" + e);
    NoSlashInExtension(e);
    DenotedPath(n, g, e);
    EntryOf(src, Split(n, '/'), Split(g, '/'), e);
  }

  /** A feature is entered from outside only through its index, or a file behind a nameless component. */
  lemma CrossFeatureEntry(f: string, g: string)
    requires InAreas(f) && InAreas(g) && Imports(f, g) && Crosses(f, g)
    ensures EntryFile(g)
  {
    CrossingImport(f, g);
    var n := AcceptedImport(f, g);
    if Substitutes(n, g) {
      EntryBySubstitution(Split(f, '/'), n, g);
    } else {
      EntryByExtension(Split(f, '/'), n, g);
    }
  }

  predicate Dotted(name: string) {
    name == "" || name[0] == '.'
  }

  predicate NoneDotted(names: seq<string>) {
    forall k :: 0 <= k < |names| ==> !Dotted(names[k])
  }

  lemma ShorterPrefix(name: string, k: nat)
    requires k <= |name| && (k == 0 || name[..k] == ".")
    ensures k == 0 || Dotted(name)
  {
    assert k == 1 ==> name[..1][0] == name[0];
  }

  lemma SilentIsDotted(name: string)
    requires Silent(name)
    ensures Dotted(name)
  {
    var bare := StripExtension(name);
    assert bare == name[..|bare|];
    ShorterPrefix(name, |bare|);
  }

  lemma IndexStart(name: string)
    requires StripExtension(name) == "index"
    ensures "index" <= name
  {
    assert StripExtension(name) == name[..|StripExtension(name)|];
  }

  lemma ShapeIsIndex(rest: seq<string>, e: string, i: string, named: bool, silent: bool)
    requires EntryShape(rest, e, i, named, silent) && NoneDotted(rest)
    requires Dotted(e) && (silent ==> Dotted(i)) && (named ==> "index" <= i)
    ensures 1 <= |rest| <= 2 && "index" <= rest[0]
  {
    assert Dotted(i) ==> Dotted(i + e);
    assert |rest| >= 2 ==> !Dotted(rest[1]);
    assert !Dotted(rest[0]);
  }

  lemma EntryNames(rest: seq<string>, e: string, i: string)
    requires EntryWith(rest, e, i) && e in EXTENSIONS && NoneDotted(rest)
    ensures 1 <= |rest| <= 2 && "index" <= rest[0]
  {
    if Silent(i) {
      SilentIsDotted(i);
    }
    if StripExtension(i) == "index" {
      IndexStart(i);
    }
    ShapeIsIndex(rest, e, i, StripExtension(i) == "index", Silent(i));
  }

  lemma PartsNames(parts: seq<string>)
    requires IsEntry(parts) && NoneDotted(parts)
    ensures |parts| <= 4 && "index" <= parts[2]
  {
    var e, i :| e in EXTENSIONS && EntryWith(parts[2..], e, i);
    EntryNames(parts[2..], e, i);
  }

  /** Where no name starts with a dot, an entry is an index, or stands in a directory named as one. */
  lemma EntryIsIndex(g: string)
    requires EntryFile(g) && NoneDotted(Split(g, '/'))
    ensures |Split(g, '/')| <= 4 && "index" <= Split(g, '/')[2]
  {
    PartsNames(Split(g, '/'));
  }

  // ---- and that each of them is reached ----

  lemma {:induction false} PushAllPlain(acc: seq<string>, comps: seq<string>)
    requires AllPlain(comps)
    ensures PushAll(acc, comps, false) == acc + comps
    decreases |comps|
  {
    if comps == [] {
      assert acc + comps == acc;
    } else {
      PushAllPlain(acc + [comps[0]], comps[1..]);
      assert acc + [comps[0]] + comps[1..] == acc + comps;
    }
  }

  /** A path of ordinary names is its own normal form. */
  lemma NormPathPlain(n: string)
    requires IsFile(n)
    ensures NormPath(n) == n
  {
    var comps := Split(n, '/');
    JoinSplit(n, '/');
    FileText(n);
    assert n[0] == Area(n)[0] && Area(n)[0] in Area(n);
    PushAllPlain([], comps);
    assert [] + comps == comps;
    assert seq(0, _ => '/') + Join(comps, '/') == n;
  }

  lemma AliasIsNoDatabase(n: string)
    ensures !IsDatabase("@/" + n)
  {
    var target := "@/" + n;
    assert target[0] == '@' && target[1] == '/';
    forall p | p in DB_PACKAGES ensures target != p && !(p + "/" <= target) {
      assert |p| >= 2 && (p[0] != '@' || p[1] != '/');
      assert (p + "/")[0] == p[0] && (p + "/")[1] == p[1];
    }
  }

  lemma AliasParts(n: string)
    requires IsFile(n)
    ensures Parts("@/" + n) == ["@"] + Split(n, '/')
  {
    FirstComponent("@", n);
    NamesOfPlain(Split(n, '/'));
    assert "@/" + n == "@" + ['/'] + n;
  }

  /** The alias import of a path of ordinary names. */
  lemma AliasImport(f: string, n: string)
    requires IsFile(n) && "backend" !in Split(n, '/')
    ensures Normalized(f, "@/" + n) == Some(n)
    ensures "backend" !in Parts("@/" + n) && !IsDatabase("@/" + n)
  {
    NormPathPlain(n);
    AliasIsNoDatabase(n);
    AliasParts(n);
    assert ("@/" + n)[2..] == n;
  }

  lemma IndexTarget(f: string, target: string, n: string)
    requires "backend" !in Parts(target) && !IsDatabase(target) && Normalized(f, target) == Some(n)
    requires CrossesInto(Split(f, '/'), Split(n, '/')) && AllPlain(Split(n, '/'))
    requires var comps := Split(n, '/'); IsIndex(comps[..|comps| - 1], StripExtension(comps[|comps| - 1]))
    ensures Violation(f, target).None?
  {
    var dir, last := Directory(n);
    CrossFeatureIff(f, target, dir, last);
  }

  /** A path whose components name a feature's index can be imported from outside the feature. */
  lemma IndexPathImported(f: string, n: string)
    requires CrossesInto(Split(f, '/'), Split(n, '/')) && AllPlain(Split(n, '/')) && "backend" !in Split(n, '/')
    requires var comps := Split(n, '/'); IsIndex(comps[..|comps| - 1], StripExtension(comps[|comps| - 1]))
    ensures Violation(f, "@/" + n).None? && Normalized(f, "@/" + n) == Some(n)
  {
    AliasImport(f, n);
    IndexTarget(f, "@/" + n, n);
  }

  /** The components of a path that imports an entry file, and the extension it leaves off. */
  predicate PathFor(parts: seq<string>, comps: seq<string>, e: string) {
    && |parts| >= 3 && |comps| >= 3 && e in EXTENSIONS && comps[0] == parts[0] && comps[1] == parts[1]
    && IsIndex(comps[..|comps| - 1], StripExtension(comps[|comps| - 1]))
    && (parts == comps + ["index" + e] || parts == comps[..|comps| - 1] + [comps[|comps| - 1] + e])
  }

  lemma SameText(a: string, b: string)
    requires Split(a, '/') == Split(b, '/')
    ensures a == b
  {
    JoinSplit(a, '/');
    JoinSplit(b, '/');
  }

  lemma IndexDenoted(n: string, g: string, e: string)
    requires '/' !in e && Split(g, '/') == Split(n, '/') + ["index" + e]
    ensures g == n + "/index" + e
  {
    SplitIndexed(n, e);
    SameText(g, n + "/index" + e);
  }

  lemma ExtensionDenoted(n: string, g: string, e: string)
    requires '/' !in e
    requires var comps := Split(n, '/'); Split(g, '/') == comps[..|comps| - 1] + [comps[|comps| - 1] + e]
    ensures g == n + e
  {
    SplitExtended(n, e);
    SameText(g, n + e);
  }

  lemma PathDenotes(comps: seq<string>, e: string, n: string, g: string)
    requires PathFor(Split(g, '/'), comps, e) && Split(n, '/') == comps && '/' !in e
    ensures g == n + "/index" + e || g == n + e
  {
    if Split(g, '/') == comps + ["index" + e] {
      IndexDenoted(n, g, e);
    } else {
      ExtensionDenoted(n, g, e);
    }
  }

  lemma ShortNames()
    ensures StripExtension("") == "" && StripExtension(".") == "." && StripExtension("..") == ".."
  {
  }

  lemma StripTs(last: string)
    ensures StripExtension(last + ".ts") == last && StripExtension(last + ".tsx") == last
  {
    var s, x := last + ".ts", last + ".tsx";
    assert s[..|last|] == last && s[|last|..] == ".ts";
    assert x[..|last|] == last && x[|last|..] == ".tsx";
    NotEnding(s, ".tsx", 1);
  }

  lemma StripAny(last: string, e: string)
    requires e in EXTENSIONS && e != ""
    ensures StripExtension(last + e) == last
  {
    if e == ".js" {
      StripJs(last);
    } else if e == ".jsx" {
      StripJsx(last);
    } else {
      assert e == ".ts" || e == ".tsx";
      StripTs(last);
    }
  }

  lemma NamelessWith(i: string, e: string)
    requires (i == "" || i == ".") && e in EXTENSIONS
    ensures StripExtension(i + e) == i
  {
    ShortNames();
    if e == "" {
      assert i + e == i;
    } else {
      StripAny(i, e);
    }
  }

  lemma PlainStart(i: string, e: string)
    requires Plain(i + e) && i != "" && i != "." && i != ".."
    ensures Plain(i)
  {
    forall k | 0 <= k < |i| ensures i[k] != '/' {
      assert (i + e)[k] == i[k] && i[k] in i + e;
    }
  }

  predicate IndexName(i: string) {
    StripExtension(i) == "index" || Silent(i)
  }

  /** The name left for an import of the last component i + e: i itself, or all of it where i is no name. */
  lemma LastName(i: string, e: string) returns (name: string, left: string)
    requires e in EXTENSIONS && Plain(i + e) && IndexName(i)
    ensures name + left == i + e && left in EXTENSIONS && Plain(name)
    ensures StripExtension(name) == StripExtension(i)
  {
    ShortNames();
    if i == "" || i == "." {
      name, left := i + e, "";
      NamelessWith(i, e);
      assert name + left == i + e;
    } else {
      name, left := i, e;
      PlainStart(i, e);
    }
  }

  lemma BackendIsNoIndex(name: string)
    requires IndexName(name)
    ensures name != "backend"
  {
    NotEnding("backend", ".ts", 1);
    NotEnding("backend", ".tsx", 1);
    NotEnding("backend", ".js", 1);
    NotEnding("backend", ".jsx", 1);
  }

  lemma PathOf(dir: seq<string>, name: string, e: string, parts: seq<string>)
    requires |dir| >= 2 && AllPlain(dir) && "backend" !in dir && Plain(name) && IndexName(name) && e in EXTENSIONS
    requires IsIndex(dir, StripExtension(name))
    requires parts == dir + [name] + ["index" + e] || parts == dir + [name + e]
    ensures PathFor(parts, dir + [name], e) && AllPlain(dir + [name]) && "backend" !in dir + [name]
  {
    BackendIsNoIndex(name);
    Pointwise(dir, name, dir + [name]);
    Pointwise(dir, name + e, dir + [name + e]);
    Pointwise(dir + [name], "index" + e, dir + [name] + ["index" + e]);
  }

  /** Every entry file has a path to import it by. */
  lemma EntryPath(parts: seq<string>, e: string, i: string) returns (comps: seq<string>, left: string)
    requires |parts| >= 3 && AllPlain(parts) && "backend" !in parts && e in EXTENSIONS && EntryWith(parts[2..], e, i)
    ensures PathFor(parts, comps, left) && AllPlain(comps) && "backend" !in comps
  {
    var rest := parts[2..];
    if rest == ["index" + e] {
      comps, left := EntryLeaf(parts[..2], "index", e, parts);
    } else if rest == [i + e] && IndexName(i) {
      comps, left := EntryLeaf(parts[..2], i, e, parts);
    } else if rest == [i, "index" + e] && IndexName(i) {
      comps, left := EntryDirectory(parts[..2], i, e, parts);
    } else if rest == ["index", i + e] {
      assert parts[..3] == parts[..2] + ["index"];
      comps, left := EntryLeaf(parts[..3], i, e, parts);
    } else {
      assert parts[..3] == parts[..2] + ["index"];
      comps, left := EntryDirectory(parts[..3], i, e, parts);
    }
  }

  lemma EntryDirectory(dir: seq<string>, i: string, e: string, parts: seq<string>)
    returns (comps: seq<string>, left: string)
    requires |dir| >= 2 && AllPlain(parts) && "backend" !in parts && e in EXTENSIONS && IndexName(i)
    requires parts == dir + [i, "index" + e] && IsIndex(dir, StripExtension(i))
    ensures PathFor(parts, comps, left) && AllPlain(comps) && "backend" !in comps
  {
    Sublist(dir, [i, "index" + e], parts);
    assert parts[|dir|] == i;
    assert parts == dir + [i] + ["index" + e];
    PathOf(dir, i, e, parts);
    comps, left := dir + [i], e;
  }

  lemma Sublist(dir: seq<string>, rest: seq<string>, parts: seq<string>)
    requires parts == dir + rest && AllPlain(parts) && "backend" !in parts
    ensures AllPlain(dir) && "backend" !in dir
  {
    forall k | 0 <= k < |dir| ensures Plain(dir[k]) && dir[k] != "backend" {
      assert parts[k] == dir[k];
    }
  }

  lemma EntryLeaf(dir: seq<string>, i: string, e: string, parts: seq<string>) returns (comps: seq<string>, left: string)
    requires |dir| >= 2 && AllPlain(parts) && "backend" !in parts && e in EXTENSIONS && IndexName(i)
    requires parts == dir + [i + e] && IsIndex(dir, StripExtension(i))
    ensures PathFor(parts, comps, left) && AllPlain(comps) && "backend" !in comps
  {
    Sublist(dir, [i + e], parts);
    assert parts[|dir|] == i + e;
    var name, rest := LastName(i, e);
    PathOf(dir, name, rest, parts);
    comps, left := dir + [name], rest;
  }

  lemma EntryDenoted(g: string) returns (n: string, e: string)
    requires |Split(g, '/')| >= 3 && AllPlain(Split(g, '/')) && EntryFile(g) && "backend" !in Split(g, '/')
    ensures Denotes(n, g) && PathFor(Split(g, '/'), Split(n, '/'), e)
    ensures AllPlain(Split(n, '/')) && "backend" !in Split(n, '/')
  {
    var x, i :| x in EXTENSIONS && EntryWith(Split(g, '/')[2..], x, i);
    var comps, left := EntryPath(Split(g, '/'), x, i);
    n, e := Join(comps, '/'), left;
    SplitJoin(comps, '/');
    NoSlashInExtension(e);
    PathDenotes(comps, e, n, g);
  }

  /** Every entry file of a feature is reached by some accepted import from outside. */
  lemma EntryImported(f: string, g: string)
    requires Crosses(f, g) && Area(f) != "shared" && EntryFile(g) && "backend" !in Split(g, '/')
    ensures Imports(f, g)
  {
    var n, e := EntryDenoted(g);
    PathCrosses(f, g, Split(n, '/'), e);
    IndexPathImported(f, n);
    ImportsBy(f, "@/" + n, n, g);
  }

  lemma PathCrosses(f: string, g: string, comps: seq<string>, e: string)
    requires Crosses(f, g) && Area(f) != "shared" && PathFor(Split(g, '/'), comps, e)
    ensures CrossesInto(Split(f, '/'), comps)
  {
  }

  lemma ImportsBy(f: string, target: string, n: string, g: string)
    requires Violation(f, target).None? && Normalized(f, target) == Some(n) && Denotes(n, g)
    ensures Imports(f, g)
  {
  }

  /**
   The files of a feature that a file outside it can import are exactly its entry files, for files outside
   shared and paths without a component named backend.
   */
  lemma CrossFeatureEntryIff(f: string, g: string)
    requires InAreas(f) && InAreas(g) && Crosses(f, g) && "backend" !in Split(g, '/')
    ensures Imports(f, g) <==> Area(f) != "shared" && EntryFile(g)
  {
    if Imports(f, g) {
      StepAreas(f, g);
      CrossFeatureEntry(f, g);
    }
    if Area(f) != "shared" && EntryFile(g) {
      EntryImported(f, g);
    }
  }

  lemma NamelessIsEntry(parts: seq<string>)
    requires |parts| == 3 && parts[2] == ".ts"
    ensures IsEntry(parts)
  {
    ShortNames();
    assert "" + ".ts" == ".ts";
    assert parts[2..] == [".ts"];
    assert EntryWith(parts[2..], ".ts", "");
  }

  lemma NamelessCrosses(f: string, g: string, feature: string)
    requires InAreas(f) && feature != "backend" && Plain(feature)
    requires Split(g, '/') == ["features", feature, ".ts"] && !(Area(f) == "features" && Split(f, '/')[1] == feature)
    ensures Crosses(f, g) && "backend" !in Split(g, '/')
  {
  }

  /** So a file that is only an extension is imported across features although it is no index. */
  lemma NamelessFileImported(f: string, g: string, feature: string)
    requires InAreas(f) && Area(f) != "shared" && feature != "backend" && Plain(feature)
    requires Split(g, '/') == ["features", feature, ".ts"] && !(Area(f) == "features" && Split(f, '/')[1] == feature)
    ensures Imports(f, g)
  {
    NamelessIsEntry(Split(g, '/'));
    NamelessCrosses(f, g, feature);
    EntryImported(f, g);
  }

  /** Along every chain of accepted imports, each step into another feature lands on such a file. */
  lemma ChainsEnterByIndex(p: seq<string>)
    requires Chain(p)
    ensures forall i :: 0 <= i < |p| - 1 && Crosses(p[i], p[i + 1]) ==> EntryFile(p[i + 1])
  {
    forall i | 0 <= i < |p| - 1 && Crosses(p[i], p[i + 1]) ensures EntryFile(p[i + 1]) {
      assert Imports(p[i], p[i + 1]);
      CrossFeatureEntry(p[i], p[i + 1]);
    }
  }
}
