/**
 The backend import-layer checker, pre-devlopment-assets/ner-project/backend/boundries.py: a rule on
 single imports, and what it means for chains of imports.
 */
module BackendLayers {
  import opened Common
  import opened Text

  const DYNAMIC := "!dynamic_import"
  const INVALID := "!invalid_relative_import"

  const LAYERS: set<string> := {"api", "domain", "application", "infrastructure", "public"}
  const FORBIDDEN_EXTERNAL: set<string> :=
    {"fastapi", "sqlalchemy", "httpx", "requests", "celery", "redis", "boto3", "psycopg", "asyncpg"}

  datatype Reason =
    | NeedsReview
    | CoreImportsModules
    | DomainExternal
    | InfrastructurePackage
    | NotAContract
    | CrossModule
    | LayerOrder

  function Blocked(layer: string): set<string> {
    if layer == "domain" then {"api", "application", "infrastructure", "public"}
    else if layer == "application" then {"api", "infrastructure"}
    else if layer == "api" then {"infrastructure"}
    else if layer == "infrastructure" then {"api"}
    else {"api", "infrastructure"}
  }

  predicate UnderModules(parts: seq<string>) {
    |parts| >= 4 && parts[0] == "app" && parts[1] == "modules"
  }

  /** The rule for one import, with the interpreter's standard-library names. */
  function Violation(stdlib: set<string>, source: string, target: string): Option<Reason> {
    if "!" <= target then Some(NeedsReview)
    else
      var src, dst := Split(source, '.'), Split(target, '.');
      if "app.core" <= source && "app.modules" <= target then Some(CoreImportsModules)
      else if !UnderModules(src) || src[3] !in LAYERS then None
      else
        var mod, layer := src[2], src[3];
        if layer == "domain" && dst[0] != "app" && dst[0] !in stdlib then Some(DomainExternal)
        else if layer in {"domain", "application", "api"} && dst[0] in FORBIDDEN_EXTERNAL
                && !(layer == "api" && dst[0] == "fastapi") then Some(InfrastructurePackage)
        else if dst[0] != "app" then None
        else if |dst| >= 2 && dst[1] == "core" then None
        else if !UnderModules(dst) then Some(NotAContract)
        else if dst[2] != mod then
          if layer == "domain" || dst[3] != "public" then Some(CrossModule) else None
        else if dst[3] !in LAYERS || dst[3] in Blocked(layer) then Some(LayerOrder)
        else None
  }

  // ---- the imports of a file ----

  datatype Import =
    | Plain(names: seq<string>)
    | From(level: nat, mod: Option<string>, names: seq<string>)
    | DynamicCall

  /** module_name: the dotted name of a file from its path parts, with package files named after their directory. */
  function ModuleName(parts: seq<string>): string {
    var all := ["app"] + parts;
    if all[|all| - 1] == "__init__" then Join(all[..|all| - 1], '.') else Join(all, '.')
  }

  function Package(source: string, isPackage: bool): seq<string> {
    var parts := Split(source, '.');
    if isPackage then parts else parts[..|parts| - 1]
  }

  /** The absolute name a from-import reaches into; None when it climbs out of the tree. */
  function Base(i: Import, source: string, isPackage: bool): Option<string>
    requires i.From?
  {
    if i.level == 0 then Some(if i.mod.Some? then i.mod.value else "")
    else
      var package := Package(source, isPackage);
      var trim := i.level - 1;
      if trim >= |package| then None
      else
        Some(Join(package[..|package| - trim] + (if i.mod.Some? && i.mod.value != "" then Split(i.mod.value, '.') else []), '.'))
  }

  function Aliases(base: string, names: seq<string>): seq<string> {
    seq(|names|, i requires 0 <= i < |names| => base + "." + names[i])
  }

  function TargetsOf(i: Import, source: string, isPackage: bool): seq<string> {
    match i
    case Plain(names) => names
    case From(_, _, names) =>
      (match Base(i, source, isPackage)
       case None => [INVALID]
       case Some(base) => [base] + Aliases(base, names))
    case DynamicCall => [DYNAMIC]
  }

  function Targets(imports: seq<Import>, source: string, isPackage: bool): seq<string> {
    if imports == [] then [] else TargetsOf(imports[0], source, isPackage) + Targets(imports[1..], source, isPackage)
  }

  /** The targets of one import statement; a relative one is resolved against the package of its file. */
  method ImportTarget(i: Import, source: string, isPackage: bool) returns (targets: seq<string>)
    ensures targets == TargetsOf(i, source, isPackage)
  {
    match i {
      case Plain(names) => targets := names;
      case DynamicCall => targets := [DYNAMIC];
      case From(level, mod, names) =>
        var base := if mod.Some? then mod.value else "";
        if level > 0 {
          var package := Split(source, '.');
          if !isPackage { package := package[..|package| - 1]; }
          var trim := level - 1;
          if trim >= |package| {
            return [INVALID];
          }
          base := Join(package[..|package| - trim] + (if base != "" then Split(base, '.') else []), '.');
        }
        targets := [base];
        for n := 0 to |names|
          invariant targets == [base] + Aliases(base, names[..n])
        {
          targets := targets + [base + "." + names[n]];
          assert Aliases(base, names[..n + 1]) == Aliases(base, names[..n]) + [base + "." + names[n]];
        }
        assert names[..|names|] == names;
    }
  }

  method ImportTargets(imports: seq<Import>, source: string, isPackage: bool) returns (targets: seq<string>)
    ensures targets == Targets(imports, source, isPackage)
  {
    targets := [];
    for n := 0 to |imports|
      invariant Targets(imports, source, isPackage) == targets + Targets(imports[n..], source, isPackage)
    {
      TargetsStep(imports, source, isPackage, n);
      var more := ImportTarget(imports[n], source, isPackage);
      targets := targets + more;
    }
  }

  lemma TargetsStep(imports: seq<Import>, source: string, isPackage: bool, n: nat)
    requires n < |imports|
    ensures Targets(imports[n..], source, isPackage)
            == TargetsOf(imports[n], source, isPackage) + Targets(imports[n + 1..], source, isPackage)
  {
    assert imports[n..][0] == imports[n] && imports[n..][1..] == imports[n + 1..];
  }

  lemma {:induction false} TargetListed(imports: seq<Import>, source: string, isPackage: bool, n: nat, t: string)
    requires n < |imports| && t in TargetsOf(imports[n], source, isPackage)
    ensures t in Targets(imports, source, isPackage)
    decreases n
  {
    if n > 0 {
      assert imports[1..][n - 1] == imports[n];
      TargetListed(imports[1..], source, isPackage, n - 1, t);
    }
  }

  // ---- import graphs ----

  /** A source tree by dotted module names. */
  datatype File = File(isPackage: bool, imports: seq<Import>)

  type Tree = map<string, File>

  /** Executing f's n-th import runs g: it names g, or reaches into g, or takes g out of its parent. */
  ghost predicate Loads(tree: Tree, f: string, g: string) {
    f in tree && g in tree &&
    exists n :: 0 <= n < |tree[f].imports| && LoadedBy(tree[f].imports[n], f, tree[f].isPackage, g)
  }

  predicate LoadedBy(i: Import, source: string, isPackage: bool, g: string) {
    match i
    case Plain(names) => g in names
    case From(_, _, names) =>
      var base := Base(i, source, isPackage);
      base.Some? && (g == base.value || exists k :: 0 <= k < |names| && g == base.value + "." + names[k])
    case DynamicCall => false
  }

  /** The checker reports nothing. */
  ghost predicate Clean(stdlib: set<string>, tree: Tree) {
    forall f, t :: f in tree && t in Targets(tree[f].imports, f, tree[f].isPackage) ==> Violation(stdlib, f, t).None?
  }

  /** In a clean tree no import is dynamic or climbs out of the tree. */
  lemma CleanResolves(stdlib: set<string>, tree: Tree, f: string, n: nat)
    requires Clean(stdlib, tree) && f in tree && n < |tree[f].imports|
    ensures !tree[f].imports[n].DynamicCall?
    ensures tree[f].imports[n].From? ==> Base(tree[f].imports[n], f, tree[f].isPackage).Some?
  {
    assert Violation(stdlib, f, DYNAMIC).Some? && Violation(stdlib, f, INVALID).Some?;
    var i := tree[f].imports[n];
    var targets := TargetsOf(i, f, tree[f].isPackage);
    assert i.DynamicCall? ==> DYNAMIC in targets;
    assert i.From? && Base(i, f, tree[f].isPackage).None? ==> INVALID in targets;
    if DYNAMIC in targets {
      TargetListed(tree[f].imports, f, tree[f].isPackage, n, DYNAMIC);
    } else if INVALID in targets {
      TargetListed(tree[f].imports, f, tree[f].isPackage, n, INVALID);
    }
  }

  /** Whatever a clean file loads, the rule was applied to that very name and passed. */
  lemma LoadedIsAccepted(stdlib: set<string>, tree: Tree, f: string, g: string)
    requires Clean(stdlib, tree) && Loads(tree, f, g)
    ensures Violation(stdlib, f, g).None?
  {
    var n :| 0 <= n < |tree[f].imports| && LoadedBy(tree[f].imports[n], f, tree[f].isPackage, g);
    var i := tree[f].imports[n];
    if i.From? {
      var base := Base(i, f, tree[f].isPackage).value;
      if g != base {
        var k :| 0 <= k < |i.names| && g == base + "." + i.names[k];
        assert Aliases(base, i.names)[k] == g;
      }
    }
    TargetListed(tree[f].imports, f, tree[f].isPackage, n, g);
  }

  /** A chain of files each of which loads the next. */
  ghost predicate Chain(tree: Tree, p: seq<string>) {
    p != [] && forall i :: 0 <= i < |p| - 1 ==> Loads(tree, p[i], p[i + 1])
  }

  predicate InModules(name: string) {
    var parts := Split(name, '.');
    |parts| >= 2 && parts[0] == "app" && parts[1] == "modules"
  }

  predicate Layered(name: string) {
    UnderModules(Split(name, '.')) && Split(name, '.')[3] in LAYERS
  }

  function ModuleOf(name: string): string
    requires Layered(name)
  {
    Split(name, '.')[2]
  }

  function LayerOf(name: string): string
    requires Layered(name)
  {
    Split(name, '.')[3]
  }

  /** A file belongs to the module and layer its directories, or its own name, say: domain/x.py, domain/__init__.py, domain.py. */
  lemma FileLayer(parts: seq<string>)
    requires |parts| >= 3 && parts[0] == "modules" && parts[2] in LAYERS
    requires forall i :: 0 <= i < |parts| ==> '.' !in parts[i]
    ensures var name := ModuleName(parts);
            Layered(name) && ModuleOf(name) == parts[1] && LayerOf(name) == parts[2]
  {
    var all := ["app"] + parts;
    assert all[3] in LAYERS && "__init__" !in LAYERS;
    if all[|all| - 1] == "__init__" {
      NamedLayer(all[..|all| - 1]);
    } else {
      NamedLayer(all);
    }
  }

  /** The dotted name of a file under app is its path, without the name of a package file. */
  lemma FileName(dirs: seq<string>, name: string)
    requires (dirs != [] || name != "__init__") && forall c :: c in dirs + [name] ==> '.' !in c
    ensures Split(ModuleName(dirs + [name]), '.') == ["app"] + dirs + (if name == "__init__" then [] else [name])
  {
    var all := ["app"] + (dirs + [name]);
    var comps := ["app"] + dirs + (if name == "__init__" then [] else [name]);
    if name == "__init__" {
      assert all[..|all| - 1] == comps;
    } else {
      assert all == comps;
    }
    forall i | 0 <= i < |comps| ensures '.' !in comps[i] {
      assert i > 0 ==> comps[i] in dirs + [name];
    }
    SplitJoin(comps, '.');
  }

  lemma NamedLayer(comps: seq<string>)
    requires |comps| >= 4 && comps[0] == "app" && comps[1] == "modules" && comps[3] in LAYERS
    requires forall i :: 0 <= i < |comps| ==> '.' !in comps[i]
    ensures var name := Join(comps, '.');
            Layered(name) && ModuleOf(name) == comps[2] && LayerOf(name) == comps[3]
  {
    SplitJoin(comps, '.');
  }

  /** What may lie downstream of a layer. */
  predicate Below(layer: string, other: string) {
    && (layer in {"domain", "application", "public"} ==> other !in {"api", "infrastructure"})
    && (layer == "api" ==> other != "infrastructure")
  }

  lemma StepLayers(stdlib: set<string>, f: string, g: string)
    requires Violation(stdlib, f, g).None? && Layered(f) && InModules(g)
    ensures Layered(g) && Below(LayerOf(f), LayerOf(g))
    ensures ModuleOf(g) != ModuleOf(f) ==> LayerOf(g) == "public"
    ensures LayerOf(f) == "domain" ==> ModuleOf(g) == ModuleOf(f) && LayerOf(g) == "domain"
    ensures LayerOf(f) == "api" ==> LayerOf(g) != "infrastructure"
    ensures LayerOf(f) in {"domain", "application", "public"} ==> LayerOf(g) in {"domain", "application", "public"}
  {}

  // ---- the rule, put as what is allowed ----

  /** The layers a file of a layer may use within its own module. */
  predicate MayUse(layer: string, other: string) {
    || (layer == "domain" && other == "domain")
    || (layer in {"application", "public"} && other in {"domain", "application", "public"})
    || (layer == "api" && other in {"domain", "application", "public", "api"})
    || (layer == "infrastructure" && other in {"domain", "application", "public", "infrastructure"})
  }

  /** The external packages a layer may import: the domain the standard library alone, and only two layers the adapters. */
  predicate MayImport(stdlib: set<string>, layer: string, package: string) {
    && (layer == "domain" ==> package in stdlib)
    && (layer in {"domain", "application", "api"} ==>
          package !in {"sqlalchemy", "httpx", "requests", "celery", "redis", "boto3", "psycopg", "asyncpg"})
    && (layer in {"domain", "application"} ==> package != "fastapi")
  }

  lemma NotInCore(source: string)
    requires InModules(source)
    ensures !("app.core" <= source)
  {
    var parts := Split(source, '.');
    JoinSplit(source, '.');
    assert source == "app" + ['.'] + Join(parts[1..], '.');
    assert parts[1..][0] == "modules";
    assert Join(parts[1..], '.')[0] == 'm';
    assert source[4] == 'm' && "app.core"[4] == 'c';
  }

  /** Exactly these imports are accepted from a layered file: external ones it may have, the core, other modules' contracts, and its own module's layers. */
  lemma AcceptedIff(stdlib: set<string>, f: string, target: string)
    requires Layered(f)
    ensures var dst := Split(target, '.');
            Violation(stdlib, f, target).None? <==>
              && !("!" <= target)
              && if dst[0] != "app" then MayImport(stdlib, LayerOf(f), dst[0])
                 else
                   || (|dst| >= 2 && dst[1] == "core")
                   || (|dst| >= 4 && dst[1] == "modules"
                       && if dst[2] == ModuleOf(f) then MayUse(LayerOf(f), dst[3])
                          else LayerOf(f) != "domain" && dst[3] == "public")
  {
    NotInCore(f);
  }

  /** From any other file everything is accepted but unreadable imports and the core's of business modules. */
  lemma AcceptedElsewhere(stdlib: set<string>, f: string, target: string)
    requires !Layered(f)
    ensures Violation(stdlib, f, target).None? <==> !("!" <= target) && !("app.core" <= f && "app.modules" <= target)
  {
  }

  // ---- relative imports ----

  /** One dot names the package of the file, each further dot the one above it; a file of the package itself starts one lower. */
  lemma RelativeImport(kept: seq<string>, left: seq<string>, name: string, mod: seq<string>, names: seq<string>)
    requires kept != [] && mod != []
    requires forall c :: c in kept + left + [name] + mod ==> c != "" && '.' !in c
    ensures var i := From(|left| + 1, Some(Join(mod, '.')), names);
            && Base(i, Join(kept + left + [name], '.'), false) == Some(Join(kept + mod, '.'))
            && Base(i, Join(kept + left, '.'), true) == Some(Join(kept + mod, '.'))
    ensures var i := From(|left| + 1, None, names);
            Base(i, Join(kept + left + [name], '.'), false) == Some(Join(kept, '.'))
    ensures Base(From(|kept + left| + 1, None, names), Join(kept + left + [name], '.'), false) == None
    ensures Base(From(0, Some(Join(mod, '.')), names), Join(kept, '.'), false) == Some(Join(mod, '.'))
  {
    var dirs := kept + left;
    SplitJoin(dirs + [name], '.');
    SplitJoin(dirs, '.');
    SplitJoin(mod, '.');
    JoinNonempty(mod);
    assert (dirs + [name])[..|dirs|] == dirs;
    assert dirs[..|dirs| - |left|] == kept;
    assert kept + [] == kept;
  }

  lemma JoinNonempty(parts: seq<string>)
    requires parts != [] && parts[0] != ""
    ensures Join(parts, '.') != ""
  {
  }

  /** The listed targets are the names imported and nothing else. */
  lemma {:induction false} TargetsIff(imports: seq<Import>, source: string, isPackage: bool, t: string)
    ensures t in Targets(imports, source, isPackage)
            <==> exists n :: 0 <= n < |imports| && Listed(imports[n], source, isPackage, t)
    decreases |imports|
  {
    if imports != [] {
      TargetsIff(imports[1..], source, isPackage, t);
      ListedIff(imports[0], source, isPackage, t);
      if n :| 0 <= n < |imports| && Listed(imports[n], source, isPackage, t) {
        assert n > 0 ==> imports[1..][n - 1] == imports[n];
      }
      if n :| 0 <= n < |imports[1..]| && Listed(imports[1..][n], source, isPackage, t) {
        assert imports[n + 1] == imports[1..][n];
      }
    }
  }

  predicate Listed(i: Import, source: string, isPackage: bool, t: string) {
    || LoadedBy(i, source, isPackage, t)
    || (i.DynamicCall? && t == "!dynamic_import")
    || (i.From? && Base(i, source, isPackage).None? && t == "!invalid_relative_import")
  }

  lemma ListedIff(i: Import, source: string, isPackage: bool, t: string)
    ensures t in TargetsOf(i, source, isPackage) <==> Listed(i, source, isPackage, t)
  {
    if i.From? && Base(i, source, isPackage).Some? {
      var base := Base(i, source, isPackage).value;
      if k :| 0 <= k < |i.names| && t == base + "." + i.names[k] {
        assert Aliases(base, i.names)[k] == t;
      }
    }
  }

  // ---- chains ----

  lemma ChainStep(stdlib: set<string>, tree: Tree, p: seq<string>, n: nat)
    requires Clean(stdlib, tree) && Chain(tree, p) && 0 < n < |p|
    ensures Chain(tree, p[..n]) && Violation(stdlib, p[n - 1], p[n]).None?
  {
    forall i | 0 <= i < n - 1 ensures Loads(tree, p[..n][i], p[..n][i + 1]) {
      assert Loads(tree, p[i], p[i + 1]);
    }
    assert Loads(tree, p[n - 1], p[n - 1 + 1]);
    LoadedIsAccepted(stdlib, tree, p[n - 1], p[n]);
  }

  /** In a clean tree the layering holds along every chain of imports within app.modules, however long. */
  lemma {:induction false} LayeringIsTransitive(stdlib: set<string>, tree: Tree, p: seq<string>)
    requires Clean(stdlib, tree) && Chain(tree, p) && Layered(p[0])
    requires forall i :: 0 <= i < |p| ==> InModules(p[i])
    ensures forall i :: 0 <= i < |p| ==> Layered(p[i])
    ensures Below(LayerOf(p[0]), LayerOf(p[|p| - 1]))
    ensures LayerOf(p[0]) == "domain" ==> ModuleOf(p[|p| - 1]) == ModuleOf(p[0]) && LayerOf(p[|p| - 1]) == "domain"
    ensures LayerOf(p[0]) in {"domain", "application", "public"} ==> LayerOf(p[|p| - 1]) in {"domain", "application", "public"}
    ensures forall i :: 0 <= i < |p| - 1 && ModuleOf(p[i + 1]) != ModuleOf(p[i]) ==> LayerOf(p[i + 1]) == "public"
    decreases |p|
  {
    if |p| > 1 {
      var n := |p| - 1;
      var q := p[..n];
      ChainStep(stdlib, tree, p, n);
      LayeringIsTransitive(stdlib, tree, q);
      StepLayers(stdlib, p[n - 1], p[n]);
      forall i | 0 <= i < n && ModuleOf(p[i + 1]) != ModuleOf(p[i]) ensures LayerOf(p[i + 1]) == "public" {
        assert i < n - 1 ==> q[i + 1] == p[i + 1] && q[i] == p[i];
      }
    }
  }

  // ---- the whole tree ----

  predicate InApp(name: string) {
    Split(name, '.')[0] == "app"
  }

  predicate IsCore(name: string) {
    var parts := Split(name, '.');
    |parts| >= 2 && parts[0] == "app" && parts[1] == "core"
  }

  /** Where a layered file may lead: into core, or to a layered file not above it; a domain only into itself. */
  predicate Allowed(f: string, g: string)
    requires Layered(f)
  {
    IsCore(g)
    || (Layered(g) && Below(LayerOf(f), LayerOf(g))
        && (LayerOf(f) == "domain" ==> ModuleOf(g) == ModuleOf(f) && LayerOf(g) == "domain"))
  }

  ghost predicate IsPath(tree: Tree, p: seq<string>, f: string, g: string) {
    Chain(tree, p) && p[0] == f && p[|p| - 1] == g
  }

  /** A chain of imports leads from f to g. */
  ghost predicate Reaches(tree: Tree, f: string, g: string) {
    exists p :: IsPath(tree, p, f, g)
  }

  /** Layering of the whole tree, core and composition root included. */
  ghost predicate LayeredTree(tree: Tree) {
    forall f, g :: Layered(f) && Reaches(tree, f, g) ==> Allowed(f, g)
  }

  /** Core files that layered files reach load core files only. */
  ghost predicate ClosedCore(tree: Tree) {
    forall f, c, g :: Layered(f) && Reaches(tree, f, c) && IsCore(c) && Loads(tree, c, g) ==> IsCore(g)
  }

  /** One accepted import of a layered file within app. */
  lemma LayeredStep(stdlib: set<string>, f: string, g: string)
    requires Violation(stdlib, f, g).None? && Layered(f) && InApp(g)
    ensures Allowed(f, g)
  {
    if !IsCore(g) {
      assert InModules(g);
      StepLayers(stdlib, f, g);
    }
  }

  /** A core file never loads a layered one. */
  lemma CoreStep(stdlib: set<string>, c: string, g: string)
    requires Violation(stdlib, c, g).None? && IsCore(c)
    ensures !Layered(g)
  {
    if Layered(g) {
      PrefixOf(c, "core");
      PrefixOf(g, "modules");
    }
  }

  lemma PrefixOf(name: string, second: string)
    requires var parts := Split(name, '.'); |parts| >= 2 && parts[0] == "app" && parts[1] == second
    ensures "app" + ['.'] + second <= name
  {
    var parts := Split(name, '.');
    JoinSplit(name, '.');
    var tail := Join(parts[1..], '.');
    assert parts[1..][0] == second && second <= tail;
    assert name == "app" + ['.'] + tail;
  }

  lemma AllowedThen(f: string, m: string, g: string)
    requires Layered(f) && Layered(m) && Allowed(f, m) && Allowed(m, g) && !IsCore(m)
    ensures Allowed(f, g)
  {
  }

  lemma ReachesNext(tree: Tree, f: string, c: string, g: string)
    requires Reaches(tree, f, c) && Loads(tree, c, g)
    ensures Reaches(tree, f, g)
  {
    var p :| IsPath(tree, p, f, c);
    var q := p + [g];
    forall i | 0 <= i < |q| - 1 ensures Loads(tree, q[i], q[i + 1]) {
      assert i < |p| - 1 ==> Loads(tree, p[i], p[i + 1]);
    }
    assert IsPath(tree, q, f, g);
  }

  lemma ReachesBefore(tree: Tree, p: seq<string>, f: string, g: string)
    requires IsPath(tree, p, f, g) && |p| > 1
    ensures IsPath(tree, p[..|p| - 1], f, p[|p| - 2]) && Loads(tree, p[|p| - 2], g)
  {
    var q := p[..|p| - 1];
    forall i | 0 <= i < |q| - 1 ensures Loads(tree, q[i], q[i + 1]) {
      assert Loads(tree, p[i], p[i + 1]);
    }
    assert Loads(tree, p[|p| - 2], p[|p| - 2 + 1]);
  }

  lemma {:induction false} ClosedCoreLayers(stdlib: set<string>, tree: Tree, p: seq<string>, f: string, g: string)
    requires Clean(stdlib, tree) && (forall f :: f in tree ==> InApp(f)) && ClosedCore(tree)
    requires IsPath(tree, p, f, g) && Layered(f)
    ensures Allowed(f, g)
    decreases |p|
  {
    if |p| > 1 {
      var m := p[|p| - 2];
      ReachesBefore(tree, p, f, g);
      ClosedCoreLayers(stdlib, tree, p[..|p| - 1], f, m);
      assert Reaches(tree, f, m);
      if !IsCore(m) {
        LoadedIsAccepted(stdlib, tree, m, g);
        LayeredStep(stdlib, m, g);
        AllowedThen(f, m, g);
      }
    }
  }

  /** Nothing outside core that an accepted core file loads is layered. */
  lemma LayeredTreeClosesCore(stdlib: set<string>, tree: Tree, f: string, c: string, g: string)
    requires Clean(stdlib, tree) && LayeredTree(tree)
    requires Layered(f) && Reaches(tree, f, c) && IsCore(c) && Loads(tree, c, g)
    ensures IsCore(g)
  {
    ReachesNext(tree, f, c, g);
    LoadedIsAccepted(stdlib, tree, c, g);
    CoreStep(stdlib, c, g);
  }

  /**
   A clean tree is layered as a whole exactly if the core files its layered files reach load core files only;
   the checker asks nothing of what core loads outside app.modules.
   */
  lemma WholeTreeIff(stdlib: set<string>, tree: Tree)
    requires Clean(stdlib, tree) && forall f :: f in tree ==> InApp(f)
    ensures LayeredTree(tree) <==> ClosedCore(tree)
  {
    if ClosedCore(tree) {
      forall f, g | Layered(f) && Reaches(tree, f, g) ensures Allowed(f, g) {
        var p :| IsPath(tree, p, f, g);
        ClosedCoreLayers(stdlib, tree, p, f, g);
      }
    } else if LayeredTree(tree) {
      var f, c, g :| Layered(f) && Reaches(tree, f, c) && IsCore(c) && Loads(tree, c, g) && !IsCore(g);
      LayeredTreeClosesCore(stdlib, tree, f, c, g);
    }
  }

  lemma SecondPart(parts: seq<string>)
    requires |parts| >= 2 && parts[0] == "app" && |parts[1]| >= 2
    ensures var name := Join(parts, '.');
            |name| >= 6 && name[0] == 'a' && name[4] == parts[1][0] && name[5] == parts[1][1]
  {
    var tail := Join(parts[1..], '.');
    assert parts[1..][0] == parts[1];
    assert |tail| >= 2 && tail[0] == parts[1][0] && tail[1] == parts[1][1];
    assert Join(parts, '.') == "app" + ['.'] + tail;
  }

  /** A tree of four files, each importing the next. */
  function DetourTree(d: string, c: string, m: string, i: string): Tree {
    map[i := File(false, []), m := File(false, [Plain([i])]), c := File(false, [Plain([m])]), d := File(false, [Plain([c])])]
  }

  lemma SingleTarget(name: string, source: string)
    ensures Targets([Plain([name])], source, false) == [name]
    ensures LoadedBy([Plain([name])][0], source, false, name)
  {
    assert [Plain([name])][1..] == [];
    assert [name] + [] == [name];
  }

  lemma DetourAccepted(stdlib: set<string>, d: string, c: string, m: string, i: string)
    requires Split(d, '.') == ["app", "modules", "m", "domain", "d"]
    requires Split(c, '.') == ["app", "core", "c"] && |c| >= 6 && c[0] == 'a'
    requires Split(m, '.') == ["app", "main"] && |m| >= 6 && m[0] == 'a' && m[4] == 'm' && m[5] == 'a'
    requires |d| >= 6 && d[4] == 'm' && |i| >= 6 && i[0] == 'a'
    ensures Violation(stdlib, d, c).None?
    ensures Violation(stdlib, c, m).None?
    ensures Violation(stdlib, m, i).None?
  {
    assert "app.core"[4] == 'c' && "app.modules"[5] == 'o';
  }

  /** Outside app.modules the guarantee stops: app.core may import the composition root, and that anything. */
  lemma CoreDetour(stdlib: set<string>) returns (tree: Tree, p: seq<string>)
    ensures Clean(stdlib, tree) && Chain(tree, p)
    ensures Layered(p[0]) && LayerOf(p[0]) == "domain"
    ensures Layered(p[|p| - 1]) && LayerOf(p[|p| - 1]) == "infrastructure"
  {
    var d := Named(["app", "modules", "m", "domain", "d"]);
    var c := Named(["app", "core", "c"]);
    var m := Named(["app", "main"]);
    var i := Named(["app", "modules", "m", "infrastructure", "i"]);
    tree, p := DetourFrom(stdlib, d, c, m, i);
  }

  lemma Named(parts: seq<string>) returns (name: string)
    requires |parts| >= 2 && parts[0] == "app" && |parts[1]| >= 2
    requires forall i :: 0 <= i < |parts| ==> '.' !in parts[i]
    ensures Split(name, '.') == parts && |name| >= 6
    ensures name[0] == 'a' && name[4] == parts[1][0] && name[5] == parts[1][1]
  {
    name := Join(parts, '.');
    SplitJoin(parts, '.');
    SecondPart(parts);
  }

  lemma DetourFrom(stdlib: set<string>, d: string, c: string, m: string, i: string) returns (tree: Tree, p: seq<string>)
    requires Split(d, '.') == ["app", "modules", "m", "domain", "d"]
    requires Split(c, '.') == ["app", "core", "c"] && |c| >= 6 && c[0] == 'a'
    requires Split(m, '.') == ["app", "main"] && |m| >= 6 && m[0] == 'a' && m[4] == 'm' && m[5] == 'a'
    requires Split(i, '.') == ["app", "modules", "m", "infrastructure", "i"]
    requires |d| >= 6 && d[4] == 'm' && |i| >= 6 && i[0] == 'a'
    ensures p == [d, c, m, i] && Clean(stdlib, tree) && Chain(tree, p)
  {
    tree, p := DetourTree(d, c, m, i), [d, c, m, i];
    DetourAccepted(stdlib, d, c, m, i);
    assert d != c && d != m && d != i && c != m && c != i && m != i by {
      assert Split(d, '.')[1] != Split(c, '.')[1] && Split(d, '.')[3] != Split(i, '.')[3];
      assert Split(m, '.')[1] != Split(c, '.')[1] && Split(m, '.')[1] != Split(d, '.')[1];
      assert Split(c, '.')[1] != Split(i, '.')[1] && Split(m, '.')[1] != Split(i, '.')[1];
    }
    DetourTreeClean(stdlib, d, c, m, i);
  }

  lemma DetourTreeClean(stdlib: set<string>, d: string, c: string, m: string, i: string)
    requires d != c && d != m && d != i && c != m && c != i && m != i
    requires Violation(stdlib, d, c).None? && Violation(stdlib, c, m).None? && Violation(stdlib, m, i).None?
    ensures Clean(stdlib, DetourTree(d, c, m, i)) && Chain(DetourTree(d, c, m, i), [d, c, m, i])
  {
    var tree := DetourTree(d, c, m, i);
    SingleImport(stdlib, tree, d, c);
    SingleImport(stdlib, tree, c, m);
    SingleImport(stdlib, tree, m, i);
    assert Targets([], i, false) == [];
    forall f, t | f in tree && t in Targets(tree[f].imports, f, tree[f].isPackage) ensures Violation(stdlib, f, t).None? {
      assert f == d || f == c || f == m || f == i;
    }
  }

  lemma SingleImport(stdlib: set<string>, tree: Tree, f: string, g: string)
    requires f in tree && g in tree && tree[f] == File(false, [Plain([g])]) && Violation(stdlib, f, g).None?
    ensures Loads(tree, f, g)
    ensures forall t :: t in Targets(tree[f].imports, f, tree[f].isPackage) ==> Violation(stdlib, f, t).None?
  {
    SingleTarget(g, f);
  }
}
