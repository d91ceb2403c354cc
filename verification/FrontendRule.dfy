/**
 The frontend rule put as what is allowed, and what a relative import names: frontend/boundries.py:25-64, read off the
 components of the paths.
 */
module FrontendRule {
  import opened Common
  import opened Text
  import opened FrontendLayers

  // ---- packages ----

  /** The package an import names, whole or a file of it. */
  predicate NamesDatabase(parts: seq<string>) {
    || (|parts| >= 1 && parts[0] in {"pg", "postgres", "postgresql", "prisma", "drizzle-orm", "mysql2"})
    || (|parts| >= 2 && parts[0] == "@prisma" && parts[1] == "client")
  }

  lemma PackageIff(target: string, p: string)
    requires '/' !in p
    ensures Under(target, p) <==> Split(target, '/')[0] == p
  {
    JoinSplit(target, '/');
    if target == p {
      SplitPart(p, '/', "");
    } else if p + "/" <= target {
      SplitPart(p, '/', target[|p| + 1..]);
      assert target == p + ['/'] + target[|p| + 1..];
    }
  }

  lemma ScopedIff(target: string, scope: string, p: string)
    requires '/' !in scope && '/' !in p
    ensures Under(target, scope + "/" + p)
            <==> |Split(target, '/')| >= 2 && Split(target, '/')[0] == scope && Split(target, '/')[1] == p
  {
    var parts := Split(target, '/');
    if Under(target, scope + "/" + p) {
      var rest := target[|scope| + 1..];
      assert target == scope + ['/'] + rest;
      SplitPart(scope, '/', rest);
      assert rest == p || p + "/" <= rest;
      PackageIff(rest, p);
    }
    if |parts| >= 2 && parts[0] == scope && parts[1] == p {
      JoinSplit(target, '/');
      var rest := Join(parts[1..], '/');
      SplitJoin(parts[1..], '/');
      PackageIff(rest, p);
      assert target == scope + "/" + rest;
    }
  }

  /** The package itself or something below it. */
  predicate Under(target: string, p: string) {
    target == p || p + "/" <= target
  }

  lemma ListedPackages(target: string)
    ensures IsDatabase(target)
            <==> Under(target, "pg") || Under(target, "postgres") || Under(target, "postgresql") || Under(target, "prisma")
                 || Under(target, "drizzle-orm") || Under(target, "mysql2") || Under(target, "@prisma/client")
  {
    forall p ensures p in DB_PACKAGES <==>
                       p in {"pg", "postgres", "postgresql", "prisma", "drizzle-orm", "mysql2", "@prisma/client"} {}
    if p :| p in DB_PACKAGES && Under(target, p) {
      assert IsDatabase(target);
    }
  }

  /** Database clients are refused by name and with any path below them. */
  lemma DatabaseIff(target: string)
    ensures IsDatabase(target) <==> NamesDatabase(Split(target, '/'))
  {
    ListedPackages(target);
    PackageIff(target, "pg");
    PackageIff(target, "postgres");
    PackageIff(target, "postgresql");
    PackageIff(target, "prisma");
    PackageIff(target, "drizzle-orm");
    PackageIff(target, "mysql2");
    ScopedIff(target, "@prisma", "client");
    assert "@prisma" + "/" + "client" == "@prisma/client";
  }

  lemma {:induction false} NamesIff(comps: seq<string>, x: string)
    ensures x in Names(comps) <==> x in comps && x != "" && x != "."
    decreases |comps|
  {
    if comps != [] {
      NamesIff(comps[1..], x);
      assert comps == [comps[0]] + comps[1..];
    }
  }

  lemma BackendIff(target: string)
    ensures "backend" in Parts(target) <==> "backend" in Split(target, '/')
  {
    NamesIff(Split(target, '/'), "backend");
  }

  /** An import that is neither relative nor by the alias is accepted exactly if it names no backend source, database client or other alias. */
  lemma PackageAcceptedIff(f: string, target: string)
    requires !("@/" <= target) && !("." <= target)
    ensures Violation(f, target).None?
            <==> && "backend" !in Split(target, '/') && !NamesDatabase(Split(target, '/'))
                 && !("~/" <= target) && !("#" <= target)
  {
    BackendIff(target);
    DatabaseIff(target);
  }

  /** No import at all may name backend source or a database client. */
  lemma AlwaysRefused(f: string, target: string)
    requires "backend" in Split(target, '/') || NamesDatabase(Split(target, '/'))
    ensures Violation(f, target).Some?
  {
    BackendIff(target);
    DatabaseIff(target);
  }

  // ---- areas ----

  predicate MayReach(area: string, other: string) {
    || other == "shared"
    || (other == "features" && area in {"features", "app"})
    || (other == "app" && area == "app")
  }

  predicate SameFeature(src: seq<string>, dst: seq<string>) {
    |src| >= 2 && |dst| >= 2 && src[0] == "features" && dst[0] == "features" && src[1] == dst[1]
  }

  /** A local import is accepted exactly if its area may be reached and, in another feature, it names the feature or its index. */
  lemma LocalAcceptedIff(f: string, target: string, resolved: string)
    requires InAreas(f) && TargetPath(f, target) == Some(resolved)
    requires IsFile(resolved) && Area(resolved) in {"shared", "features", "app"}
    ensures var dst := Split(resolved, '/');
            Violation(f, target).None?
            <==> && "backend" !in Split(target, '/') && !NamesDatabase(Split(target, '/'))
                 && MayReach(Area(f), dst[0])
                 && (dst[0] == "features" && !SameFeature(Split(f, '/'), dst) ==> |dst| == 2 || (|dst| == 3 && dst[2] == "index"))
  {
    BackendIff(target);
    DatabaseIff(target);
    PartsOfFile(f);
    PartsOfFile(resolved);
    InsideRoot(resolved);
    if "backend" !in Parts(target) && !IsDatabase(target) {
      LocalVerdict(f, target, resolved);
      AreasAcceptedIff(Split(f, '/'), Split(resolved, '/'));
    }
  }

  lemma AreasAcceptedIff(src: seq<string>, dst: seq<string>)
    requires |src| >= 2 && |dst| >= 2 && src[0] in {"shared", "features", "app"} && dst[0] in {"shared", "features", "app"}
    ensures PartsViolation(src, dst).None?
            <==> && MayReach(src[0], dst[0])
                 && (dst[0] == "features" && !SameFeature(src, dst) ==> |dst| == 2 || (|dst| == 3 && dst[2] == "index"))
  {
  }

  lemma InsideRoot(resolved: string)
    requires IsFile(resolved)
    ensures !EscapesRoot(resolved)
  {
    var parts := Split(resolved, '/');
    FileText(resolved);
    assert resolved[..|parts[0]|] == parts[0];
    assert parts[0][0] in parts[0];
    PackageIff(resolved, "..");
    assert ".." + "/" == "../";
  }

  // ---- relative imports ----

  lemma {:induction false} HeadOf(dir: string, file: string)
    requires '/' !in file
    ensures Head(dir + ['/'] + file) == dir + ['/']
    decreases |file|
  {
    var p := dir + ['/'] + file;
    if file == "" {
      assert p == dir + ['/'];
    } else {
      assert p[|p| - 1] == file[|file| - 1] && file[|file| - 1] in file;
      assert p[..|p| - 1] == dir + ['/'] + file[..|file| - 1];
      HeadOf(dir, file[..|file| - 1]);
    }
  }

  lemma {:induction false} HeadOfName(file: string)
    requires '/' !in file
    ensures Head(file) == ""
    decreases |file|
  {
    if file != "" {
      assert file[|file| - 1] in file;
      HeadOfName(file[..|file| - 1]);
    }
  }

  lemma DirnameOf(dir: string, file: string)
    requires '/' !in file && dir != "" && dir[|dir| - 1] != '/'
    ensures Dirname(dir + ['/'] + file) == dir
  {
    HeadOf(dir, file);
    var head := dir + ['/'];
    assert EndsWith(head, "/") && head[..|head| - 1] == dir;
    assert !EndsWith(dir, "/");
    assert RStripSlashes(dir) == dir;
    assert RStripSlashes(head) == RStripSlashes(head[..|head| - 1]);
  }

  /** The steps up, or the one dot of an import that goes none. */
  function Dots(up: nat): seq<string> {
    if up == 0 then ["."] else seq(up, _ => "..")
  }

  lemma {:induction false} PushAllAppend(acc: seq<string>, a: seq<string>, b: seq<string>)
    ensures PushAll(acc, a + b, false) == PushAll(PushAll(acc, a, false), b, false)
    decreases |a|
  {
    if a == [] {
      assert a + b == b;
    } else {
      assert (a + b)[0] == a[0] && (a + b)[1..] == a[1..] + b;
      PushAllAppend(Push(acc, a[0], false), a[1..], b);
    }
  }

  lemma {:induction false} PushUps(acc: seq<string>, ups: seq<string>)
    requires AllPlain(acc) && |ups| <= |acc| && forall i :: 0 <= i < |ups| ==> ups[i] == ".."
    ensures PushAll(acc, ups, false) == acc[..|acc| - |ups|]
    decreases |ups|
  {
    if ups != [] {
      var n := |acc| - 1;
      assert Push(acc, ups[0], false) == acc[..n];
      PushUps(acc[..n], ups[1..]);
      assert acc[..n][..n - |ups[1..]|] == acc[..|acc| - |ups|];
    } else {
      assert acc[..|acc|] == acc;
    }
  }

  lemma PushRelative(dirs: seq<string>, up: nat, rest: seq<string>)
    requires AllPlain(dirs) && AllPlain(rest) && up <= |dirs|
    ensures PushAll([], dirs + Dots(up) + rest, false) == dirs[..|dirs| - up] + rest
  {
    PushAllAppend([], dirs + Dots(up), rest);
    PushAllAppend([], dirs, Dots(up));
    PushAllPlain([], dirs);
    assert [] + dirs == dirs;
    if up > 0 {
      PushUps(dirs, Dots(up));
    } else {
      assert Dots(0)[1..] == [] && dirs[..|dirs|] == dirs;
    }
    PushAllPlain(dirs[..|dirs| - up], rest);
  }

  lemma {:induction false} JoinAppend(a: seq<string>, b: seq<string>)
    requires a != [] && b != []
    ensures Join(a + b, '/') == Join(a, '/') + ['/'] + Join(b, '/')
    decreases |a|
  {
    if |a| == 1 {
      assert (a + b)[1..] == b;
    } else {
      assert (a + b)[1..] == a[1..] + b;
      JoinAppend(a[1..], b);
    }
  }

  lemma {:induction false} JoinEnds(a: seq<string>)
    requires a != [] && AllPlain(a)
    ensures var s := Join(a, '/'); s != "" && s[0] != '/' && s[|s| - 1] != '/' && s[0] == a[0][0]
    decreases |a|
  {
    assert a[0][0] in a[0] && a[0][|a[0]| - 1] in a[0];
    if |a| > 1 {
      JoinEnds(a[1..]);
    }
  }

  /** A path of components none of which is a slash, normalised. */
  lemma NormPathOf(comps: seq<string>, kept: seq<string>)
    requires comps != [] && comps[0] != "" && forall i :: 0 <= i < |comps| ==> '/' !in comps[i]
    requires PushAll([], comps, false) == kept && kept != [] && AllPlain(kept)
    ensures NormPath(Join(comps, '/')) == Join(kept, '/')
  {
    var path := Join(comps, '/');
    SplitJoin(comps, '/');
    JoinEnds(kept);
    assert comps[0][0] in comps[0];
    assert path[0] == comps[0][0];
    assert Slashes(path) == 0;
    assert seq(0, _ => '/') + Join(kept, '/') == Join(kept, '/');
  }

  /** The path a relative target is looked up under: the directory of the file, then the target. */
  lemma RelativeText(dirs: seq<string>, file: string, tail: seq<string>)
    requires AllPlain(dirs) && Plain(file) && tail != [] && Join(tail, '/') != "" && Join(tail, '/')[0] == '.'
    ensures JoinPath(Dirname(Join(dirs + [file], '/')), Join(tail, '/')) == Join(dirs + tail, '/')
  {
    if dirs == [] {
      assert [] + [file] == [file] && [] + tail == tail;
      RootText(file, Join(tail, '/'));
    } else {
      JoinAppend(dirs, [file]);
      JoinAppend(dirs, tail);
      JoinEnds(dirs);
      DirectoryText(Join(dirs, '/'), file, Join(tail, '/'));
    }
  }

  lemma RootText(file: string, target: string)
    requires '/' !in file && target != "" && target[0] == '.'
    ensures JoinPath(Dirname(file), target) == target
  {
    HeadOfName(file);
    assert RStripSlashes("") == "";
  }

  lemma DirectoryText(dir: string, file: string, target: string)
    requires '/' !in file && dir != "" && dir[|dir| - 1] != '/' && target != "" && target[0] == '.'
    ensures JoinPath(Dirname(dir + ['/'] + file), target) == dir + ['/'] + target
  {
    DirnameOf(dir, file);
    assert !EndsWith(dir, "/");
  }

  /** From a file in dirs, an import that goes up some directories and down again names exactly that path. */
  lemma RelativeResolves(dirs: seq<string>, file: string, up: nat, rest: seq<string>)
    requires AllPlain(dirs) && Plain(file) && AllPlain(rest) && rest != [] && up <= |dirs|
    ensures Normalized(Join(dirs + [file], '/'), Join(Dots(up) + rest, '/')) == Some(Join(dirs[..|dirs| - up] + rest, '/'))
  {
    var tail := Dots(up) + rest;
    JoinAppend(Dots(up), rest);
    DotsText(up);
    RelativeText(dirs, file, tail);
    PushRelative(dirs, up, rest);
    assert dirs + Dots(up) + rest == dirs + tail;
    NormPathOf(dirs + tail, dirs[..|dirs| - up] + rest);
    NotAlias(Join(tail, '/'));
  }

  lemma NotAlias(target: string)
    requires target != "" && target[0] == '.'
    ensures "." <= target && !("@/" <= target)
  {
  }

  lemma DotsText(up: nat)
    ensures Join(Dots(up), '/') != "" && Join(Dots(up), '/')[0] == '.'
  {
  }

  // ---- paths that leave the tree ----

  lemma {:induction false} PushBeyond(acc: seq<string>, ups: seq<string>)
    requires AllPlain(acc) && |ups| > |acc| && forall i :: 0 <= i < |ups| ==> ups[i] == ".."
    ensures PushAll(acc, ups, false) == seq(|ups| - |acc|, _ => "..")
    decreases |ups|
  {
    PushUps(acc, ups[..|acc|]);
    PushAllAppend(acc, ups[..|acc|], ups[|acc|..]);
    assert ups == ups[..|acc|] + ups[|acc|..] && acc[..0] == [];
    PushMore([], ups[|acc|..]);
  }

  lemma {:induction false} PushMore(acc: seq<string>, ups: seq<string>)
    requires (forall i :: 0 <= i < |ups| ==> ups[i] == "..") && forall i :: 0 <= i < |acc| ==> acc[i] == ".."
    ensures PushAll(acc, ups, false) == seq(|acc| + |ups|, _ => "..")
    decreases |ups|
  {
    if ups != [] {
      assert Push(acc, "..", false) == acc + [".."];
      PushMore(acc + [".."], ups[1..]);
    } else {
      assert acc == seq(|acc|, _ => "..");
    }
  }

  lemma PushEscaping(dirs: seq<string>, up: nat, rest: seq<string>)
    requires AllPlain(dirs) && AllPlain(rest) && up > |dirs|
    ensures PushAll([], dirs + Dots(up) + rest, false) == seq(up - |dirs|, _ => "..") + rest
  {
    PushAllAppend([], dirs + Dots(up), rest);
    PushAllAppend([], dirs, Dots(up));
    PushAllPlain([], dirs);
    assert [] + dirs == dirs;
    PushBeyond(dirs, Dots(up));
    PushAllPlain(seq(up - |dirs|, _ => ".."), rest);
  }

  /** Such an import is looked up outside the tree. */
  lemma EscapingPath(dirs: seq<string>, file: string, up: nat, rest: seq<string>)
    requires AllPlain(dirs) && Plain(file) && AllPlain(rest) && rest != [] && up > |dirs|
    ensures Normalized(Join(dirs + [file], '/'), Join(Dots(up) + rest, '/'))
            == Some(Join(seq(up - |dirs|, _ => "..") + rest, '/'))
  {
    var tail := Dots(up) + rest;
    JoinAppend(Dots(up), rest);
    DotsText(up);
    RelativeText(dirs, file, tail);
    NotAlias(Join(tail, '/'));
    PushEscaping(dirs, up, rest);
    assert dirs + Dots(up) + rest == dirs + tail;
    UpwardText(dirs + tail, seq(up - |dirs|, _ => "..") + rest);
  }

  lemma EscapingRefused(source: string, target: string, n: string)
    requires Normalized(source, target) == Some(n) && EscapesRoot(n)
    ensures Violation(source, target).Some?
  {
    StripKeepsEscape(n);
  }

  /** An import that goes up more directories than there are is refused, wherever it goes down again. */
  lemma RelativeEscapes(dirs: seq<string>, file: string, up: nat, rest: seq<string>)
    requires AllPlain(dirs) && Plain(file) && AllPlain(rest) && rest != [] && up > |dirs|
    ensures Violation(Join(dirs + [file], '/'), Join(Dots(up) + rest, '/')).Some?
  {
    var kept := seq(up - |dirs|, _ => "..") + rest;
    EscapingPath(dirs, file, up, rest);
    StartsUpward(kept);
    EscapingRefused(Join(dirs + [file], '/'), Join(Dots(up) + rest, '/'), Join(kept, '/'));
  }

  lemma UpwardText(comps: seq<string>, kept: seq<string>)
    requires comps != [] && comps[0] != "" && forall i :: 0 <= i < |comps| ==> '/' !in comps[i]
    requires PushAll([], comps, false) == kept && kept != [] && kept[0] == ".."
    ensures NormPath(Join(comps, '/')) == Join(kept, '/')
  {
    var path := Join(comps, '/');
    SplitJoin(comps, '/');
    assert comps[0][0] in comps[0];
    assert path[0] == comps[0][0];
    assert Slashes(path) == 0;
    assert seq(0, _ => '/') + Join(kept, '/') == Join(kept, '/');
    assert Join(kept, '/')[0] == '.';
  }

  lemma StartsUpward(kept: seq<string>)
    requires |kept| >= 2 && kept[0] == ".."
    ensures "../" <= Join(kept, '/')
  {
    assert Join(kept, '/') == ".." + ['/'] + Join(kept[1..], '/');
  }

  /** A path from the root stays one: with two slashes if it has exactly two, else with one; an empty path is the directory itself. */
  lemma RootedKept(path: string)
    ensures path == "" ==> NormPath(path) == "."
    ensures "/" <= path && !("//" <= path) ==> "/" <= NormPath(path)
    ensures "///" <= path ==> "/" <= NormPath(path)
    ensures "//" <= path && !("///" <= path) ==> "//" <= NormPath(path)
  {
    if path != "" && path[0] == '/' {
      var n := Slashes(path);
      var text := Join(PushAll([], Split(path, '/'), n > 0), '/');
      assert (seq(n, _ => '/') + text)[..n] == seq(n, _ => '/');
    }
  }
}
