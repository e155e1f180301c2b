/// main.ts `build`: the pages directory's `.astro` files become compilations; each page is
/// walked on its own, from a queue of itself, and made a route; the runtime and the
/// generated server are written to the target directory, whose server path is the result.
///
/// `Build` does this to a `Files` object and is proved to do what `BuildSpec` says to the
/// file map. The pages directory's listing and the working directory are parameters, and
/// so is the runtime's text (`runtime.ts` with its import specifiers resolved).
module Build {
  import opened Js
  import opened JsString
  import opened Paths
  import opened Artifacts
  import opened FileSystem
  import opened Toolchain
  import opened ComponentGraph
  import opened Routes
  import opened DirScan

  /** `fsTree.filter(path => path.endsWith('.astro'))`. */
  function AstroPaths(paths: seq<string>): (r: seq<string>)
    ensures |r| <= |paths|
    ensures forall i :: 0 <= i < |r| ==> EndsWith(r[i], ".astro")
  {
    if paths == [] then []
    else (if EndsWith(paths[0], ".astro") then [paths[0]] else []) + AstroPaths(paths[1..])
  }

  /** The compilation of the page at `path`, relative to the pages directory: its source
    * under the working directory's pages directory, its target under `pages` of the target
    * directory with `.ts` appended. */
  function PageCompilation(p: PathOps, cwd: string, pagesDir: string, targetDir: string, path: string): (c: Compilation)
    ensures EndsWith(c.target, ".ts")
  {
    Compilation(p.join([cwd, pagesDir, path]), p.join([targetDir, "pages", path]) + ".ts")
  }

  /** `astroFilePaths.map(...)`: one compilation per page, in order. */
  function PageCompilations(p: PathOps, cwd: string, pagesDir: string, targetDir: string, paths: seq<string>): (r: seq<Compilation>)
    ensures |r| == |paths|
    ensures forall i :: 0 <= i < |r| ==> r[i] == PageCompilation(p, cwd, pagesDir, targetDir, paths[i])
  {
    if paths == [] then []
    else [PageCompilation(p, cwd, pagesDir, targetDir, paths[0])] + PageCompilations(p, cwd, pagesDir, targetDir, paths[1..])
  }

  /** The compilations `build` starts from, for a pages directory with these entries. */
  function Compilations(p: PathOps, cwd: string, pagesDir: string, targetDir: string, tree: seq<Entry>): seq<Compilation> {
    PageCompilations(p, cwd, pagesDir, targetDir, AstroPaths(ReadDirNested(p, tree, "")))
  }

  /** The route of one page: `recursivelyCompileWriteAstroFiles([c])`, then the route made
    * of what it gathered. */
  function PageRoute(t: Tools, fs: map<string, string>, targetDir: string, c: Compilation, fuel: nat): (r: (Result<Route>, map<string, string>))
    ensures fs.Keys <= r.1.Keys
  {
    var w := ComponentGraph.Walk(t, fs, [c], Gathered([], []), fuel);
    ComponentGraph.WalkKeepsFiles(t, fs, [c], Gathered([], []), fuel);
    match w.0
    case Err(e) => (Err(e), w.1)
    case Ok(g) => (Ok(MakeRoute(t.paths, targetDir, c, g.styles, g.scriptPaths)), w.1)
  }

  /** What making one page's route does: its outcome and the files it leaves. */
  type RouteStep = (map<string, string>, Compilation) -> (Result<Route>, map<string, string>)

  /** `Promise.all(compilations.map(route))` over the first `n` pages, taken one after the
    * other: every page is handled, and the first failure, in page order, is the outcome. */
  function AllRoutes(route: RouteStep, fs: map<string, string>, cs: seq<Compilation>, n: nat): (r: (Result<seq<Route>>, map<string, string>))
    requires n <= |cs|
    decreases n
  {
    if n == 0 then (Ok([]), fs)
    else
      var prev := AllRoutes(route, fs, cs, n - 1);
      var next := route(prev.1, cs[n - 1]);
      match prev.0
      case Err(e) => (Err(e), next.1)
      case Ok(routes) =>
        match next.0
        case Err(e) => (Err(e), next.1)
        case Ok(r) => (Ok(routes + [r]), next.1)
  }

  /** The walks of the pages of `cs` and their routes. */
  function PageRoutes(t: Tools, fs: map<string, string>, targetDir: string, cs: seq<Compilation>, fuel: nat): (Result<seq<Route>>, map<string, string>) {
    AllRoutes((files, c) => PageRoute(t, files, targetDir, c, fuel), fs, cs, |cs|)
  }

  function RuntimePath(p: PathOps, targetDir: string): string {
    p.join([targetDir, "runtime.ts"])
  }

  function EntrypointPath(p: PathOps, targetDir: string): string {
    p.join([targetDir, "server.ts"])
  }

  /** The end of `build` once the pages were walked: the runtime is written, then the
    * server, whose path is the result; a failed walk or a module name that cannot be made
    * stops it. */
  function Finish(p: PathOps, targetDir: string, runtimeText: string, routes: (Result<seq<Route>>, map<string, string>)): (r: (Result<string>, map<string, string>))
  {
    match routes.0
    case Err(e) => (Err(e), routes.1)
    case Ok(rs) =>
      var withRuntime := routes.1[RuntimePath(p, targetDir) := runtimeText];
      match CreateEntrypoint(p, rs, StaticFiles(rs))
      case Err(e) => (Err(e), withRuntime)
      case Ok(text) => (Ok(EntrypointPath(p, targetDir)), withRuntime[EntrypointPath(p, targetDir) := text])
  }

  /** `build(pagesDir, targetDir)` on the files `fs`, for a pages directory with the entries `tree`. */
  function BuildSpec(t: Tools, fs: map<string, string>, cwd: string, pagesDir: string, targetDir: string, tree: seq<Entry>, runtimeText: string, fuel: nat): (Result<string>, map<string, string>)
  {
    var cs := Compilations(t.paths, cwd, pagesDir, targetDir, tree);
    Finish(t.paths, targetDir, runtimeText, PageRoutes(t, fs, targetDir, cs, fuel))
  }

  /** `build(pagesDir, targetDir)`, writing into `files`. */
  method Build(files: Files, t: Tools, cwd: string, pagesDir: string, targetDir: string, tree: seq<Entry>, runtimeText: string, fuel: nat) returns (r: Result<string>)
    modifies files
    ensures (r, files.contents) == BuildSpec(t, old(files.contents), cwd, pagesDir, targetDir, tree, runtimeText, fuel)
  {
    var cs := Compilations(t.paths, cwd, pagesDir, targetDir, tree);
    var routes := WalkPages(files, t, targetDir, cs, fuel);
    if routes.Err? {
      return Err(routes.error);
    }
    files.Write(RuntimePath(t.paths, targetDir), runtimeText);
    var entrypoint := CreateEntrypoint(t.paths, routes.value, StaticFiles(routes.value));
    if entrypoint.Err? {
      return Err(entrypoint.error);
    }
    files.Write(EntrypointPath(t.paths, targetDir), entrypoint.value);
    r := Ok(EntrypointPath(t.paths, targetDir));
  }

  /** The walks of the pages, one after the other, writing into `files`. */
  method WalkPages(files: Files, t: Tools, targetDir: string, cs: seq<Compilation>, fuel: nat) returns (routes: Result<seq<Route>>)
    modifies files
    ensures (routes, files.contents) == PageRoutes(t, old(files.contents), targetDir, cs, fuel)
  {
    ghost var route: RouteStep := (files, c) => PageRoute(t, files, targetDir, c, fuel);
    routes := Ok([]);
    var i := 0;
    while i < |cs|
      invariant i <= |cs|
      invariant (routes, files.contents) == AllRoutes(route, old(files.contents), cs, i)
    {
      ghost var before := files.contents;
      var r := WalkPage(files, t, targetDir, cs[i], fuel);
      var next := if routes.Err? then routes else if r.Err? then Err(r.error) else Ok(routes.value + [r.value]);
      AllRoutesNext(route, old(files.contents), cs, i, routes, before, r, files.contents);
      routes := next;
      i := i + 1;
    }
  }

  /** The route of one page, writing into `files`. */
  method WalkPage(files: Files, t: Tools, targetDir: string, c: Compilation, fuel: nat) returns (r: Result<Route>)
    modifies files
    ensures (r, files.contents) == PageRoute(t, old(files.contents), targetDir, c, fuel)
  {
    var g := CompileWriteAstroFiles(files, t, [c], Gathered([], []), fuel);
    if g.Err? {
      return Err(g.error);
    }
    r := Ok(MakeRoute(t.paths, targetDir, c, g.value.styles, g.value.scriptPaths));
  }

  // ---------------------------------------------------------------------------
  // Properties

  /** One more page: the fold succeeds when it had and the page's route does, the route
    * joining the end, and the files are what the page left. */
  lemma AllRoutesStep(route: RouteStep, fs: map<string, string>, cs: seq<Compilation>, n: nat)
    requires 0 < n <= |cs|
    ensures var prev := AllRoutes(route, fs, cs, n - 1);
      var next := route(prev.1, cs[n - 1]);
      var r := AllRoutes(route, fs, cs, n);
      && r.1 == next.1
      && (r.0.Ok? <==> prev.0.Ok? && next.0.Ok?)
      && (r.0.Ok? ==> r.0.value == prev.0.value + [next.0.value])
      && (prev.0.Err? ==> r.0 == prev.0)
  {
  }

  /** `AllRoutesStep` read forward: from the outcome and files of the first `n` pages and
    * what page `n` gives on those files, the fold of one more page. */
  lemma AllRoutesNext(route: RouteStep, fs: map<string, string>, cs: seq<Compilation>, n: nat,
                      routes: Result<seq<Route>>, before: map<string, string>, r: Result<Route>, after: map<string, string>)
    requires n < |cs|
    requires AllRoutes(route, fs, cs, n) == (routes, before)
    requires route(before, cs[n]) == (r, after)
    ensures AllRoutes(route, fs, cs, n + 1) ==
      (if routes.Err? then routes else if r.Err? then Err(r.error) else Ok(routes.value + [r.value]), after)
  {
  }

  /** When every route a page can get satisfies `P`, a successful fold has one route per
    * page, in page order, each satisfying `P` with its page. */
  lemma {:induction false} AllRoutesEach(route: RouteStep, P: (Compilation, Route) -> bool, fs: map<string, string>, cs: seq<Compilation>, n: nat)
    requires n <= |cs|
    requires forall files: map<string, string>, c: Compilation :: route(files, c).0.Ok? ==> P(c, route(files, c).0.value)
    requires AllRoutes(route, fs, cs, n).0.Ok?
    ensures var routes := AllRoutes(route, fs, cs, n).0.value;
      |routes| == n && forall i :: 0 <= i < n ==> P(cs[i], routes[i])
    decreases n
  {
    if n > 0 {
      AllRoutesStep(route, fs, cs, n);
      AllRoutesEach(route, P, fs, cs, n - 1);
      var prev := AllRoutes(route, fs, cs, n - 1);
      var routes := AllRoutes(route, fs, cs, n).0.value;
      assert P(cs[n - 1], routes[n - 1]);
      forall i | 0 <= i < n - 1
        ensures P(cs[i], routes[i])
      {
        assert routes[i] == prev.0.value[i];
      }
    }
  }

  /** When a page's route never removes a file and a successful one writes the page's
    * target, a successful fold wrote every page's target. */
  lemma {:induction false} AllRoutesWritePages(route: RouteStep, fs: map<string, string>, cs: seq<Compilation>, n: nat)
    requires n <= |cs|
    requires forall files: map<string, string>, c: Compilation :: files.Keys <= route(files, c).1.Keys
    requires forall files: map<string, string>, c: Compilation :: route(files, c).0.Ok? ==> c.target in route(files, c).1
    requires AllRoutes(route, fs, cs, n).0.Ok?
    ensures forall i :: 0 <= i < n ==> cs[i].target in AllRoutes(route, fs, cs, n).1
    decreases n
  {
    if n > 0 {
      AllRoutesStep(route, fs, cs, n);
      AllRoutesWritePages(route, fs, cs, n - 1);
    }
  }

  /** Once a page fails, the fold fails with that failure, whatever the pages after it. */
  lemma {:induction false} AllRoutesFailure(route: RouteStep, fs: map<string, string>, cs: seq<Compilation>, k: nat, n: nat)
    requires k < n <= |cs|
    requires AllRoutes(route, fs, cs, k).0.Ok?
    requires route(AllRoutes(route, fs, cs, k).1, cs[k]).0.Err?
    ensures AllRoutes(route, fs, cs, n).0 == Err(route(AllRoutes(route, fs, cs, k).1, cs[k]).0.error)
    decreases n
  {
    AllRoutesStep(route, fs, cs, n);
    if n > k + 1 {
      AllRoutesFailure(route, fs, cs, k, n - 1);
    }
  }

  /** A page whose walk succeeds is written to its target, and its route is found under the
    * path from the target directory to that target. */
  lemma PageRouteWritesPage(t: Tools, fs: map<string, string>, targetDir: string, c: Compilation, fuel: nat)
    requires PageRoute(t, fs, targetDir, c, fuel).0.Ok?
    ensures c.target in PageRoute(t, fs, targetDir, c, fuel).1
    ensures PageRoute(t, fs, targetDir, c, fuel).0.value.moduleSpecifier == Slashed(t.paths.relative(targetDir, c.target))
  {
    WalkWritesQueue(t, fs, [c], Gathered([], []), fuel);
  }

  /** The module specifier a page's route is imported by. */
  predicate ImportedAs(p: PathOps, targetDir: string, c: Compilation, r: Route) {
    r.moduleSpecifier == Slashed(p.relative(targetDir, c.target))
  }

  /** The walks of the pages, when they succeed, give one route per page, in page order,
    * each under the path from the target directory to the page's target, and wrote every
    * page to its target. */
  lemma PageRoutesOnePerPage(t: Tools, fs: map<string, string>, targetDir: string, cs: seq<Compilation>, fuel: nat)
    requires PageRoutes(t, fs, targetDir, cs, fuel).0.Ok?
    ensures var r := PageRoutes(t, fs, targetDir, cs, fuel);
      && |r.0.value| == |cs|
      && (forall i :: 0 <= i < |cs| ==> ImportedAs(t.paths, targetDir, cs[i], r.0.value[i]))
      && (forall i :: 0 <= i < |cs| ==> cs[i].target in r.1)
  {
    var route: RouteStep := (files, c) => PageRoute(t, files, targetDir, c, fuel);
    var P := (c, r) => ImportedAs(t.paths, targetDir, c, r);
    forall files: map<string, string>, c: Compilation
      ensures files.Keys <= route(files, c).1.Keys
      ensures route(files, c).0.Ok? ==> c.target in route(files, c).1 && P(c, route(files, c).0.value)
    {
      if route(files, c).0.Ok? {
        PageRouteWritesPage(t, files, targetDir, c, fuel);
      }
    }
    AllRoutesEach(route, P, fs, cs, |cs|);
    AllRoutesWritePages(route, fs, cs, |cs|);
  }

  /** A page is listed exactly when it is an `.astro` path of the listing. */
  lemma {:induction false} AstroPathsMembers(paths: seq<string>, x: string)
    ensures x in AstroPaths(paths) <==> x in paths && EndsWith(x, ".astro")
  {
    if paths != [] {
      AstroPathsMembers(paths[1..], x);
      assert paths == [paths[0]] + paths[1..];
    }
  }

  /** One compilation per `.astro` file path the directory scan found, and no other. */
  lemma PagesOfTree(p: PathOps, cwd: string, pagesDir: string, targetDir: string, tree: seq<Entry>, x: string)
    ensures var cs := Compilations(p, cwd, pagesDir, targetDir, tree);
      (Reaches(p, tree, "", x) && EndsWith(x, ".astro")) <==>
        exists i :: 0 <= i < |cs| && cs[i] == PageCompilation(p, cwd, pagesDir, targetDir, x) && AstroPaths(ReadDirNested(p, tree, ""))[i] == x
  {
    var found := ReadDirNested(p, tree, "");
    ReadDirNestedFinds(p, tree, "", x);
    AstroPathsMembers(found, x);
    var paths := AstroPaths(found);
    if x in paths {
      var i :| 0 <= i < |paths| && paths[i] == x;
      assert Compilations(p, cwd, pagesDir, targetDir, tree)[i] == PageCompilation(p, cwd, pagesDir, targetDir, x);
    }
  }

  /** The build's result is the server's path, written with the entry point of the routes,
    * after the runtime; a failed walk or entry point leaves no server written by the build. */
  lemma FinishWritesServer(p: PathOps, targetDir: string, runtimeText: string, routes: (Result<seq<Route>>, map<string, string>))
    ensures var r := Finish(p, targetDir, runtimeText, routes);
      && (r.0.Ok? <==> routes.0.Ok? && CreateEntrypoint(p, routes.0.value, StaticFiles(routes.0.value)).Ok?)
      && (r.0.Ok? ==>
            && r.0.value == EntrypointPath(p, targetDir)
            && r.1 == routes.1[RuntimePath(p, targetDir) := runtimeText][r.0.value := CreateEntrypoint(p, routes.0.value, StaticFiles(routes.0.value)).value])
      && (r.0.Err? && routes.0.Ok? ==> r.1 == routes.1[RuntimePath(p, targetDir) := runtimeText])
      && (routes.0.Err? ==> r == (Err(routes.0.error), routes.1))
  {
  }

  /** A successful build wrote the runtime, the server, and every page it found to its target. */
  lemma BuildWritesPages(t: Tools, fs: map<string, string>, cwd: string, pagesDir: string, targetDir: string, tree: seq<Entry>, runtimeText: string, fuel: nat)
    requires BuildSpec(t, fs, cwd, pagesDir, targetDir, tree, runtimeText, fuel).0.Ok?
    ensures var cs := Compilations(t.paths, cwd, pagesDir, targetDir, tree);
      var out := BuildSpec(t, fs, cwd, pagesDir, targetDir, tree, runtimeText, fuel).1;
      && RuntimePath(t.paths, targetDir) in out && EntrypointPath(t.paths, targetDir) in out
      && forall i :: 0 <= i < |cs| ==> cs[i].target in out
  {
    var cs := Compilations(t.paths, cwd, pagesDir, targetDir, tree);
    var routes := PageRoutes(t, fs, targetDir, cs, fuel);
    PageRoutesOnePerPage(t, fs, targetDir, cs, fuel);
    FinishWritesServer(t.paths, targetDir, runtimeText, routes);
  }
}
