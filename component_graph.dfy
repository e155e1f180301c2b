/// main.ts `recursivelyCompileWriteAstroFiles`: a first-in first-out worklist of
/// components. Each one is read, compiled and written to its target; its inline scripts
/// are walked by `recursivelyCompileWriteTsFiles`; the components it imports join the end
/// of the list; its styles and the files its scripts wrote are gathered in order.
///
/// As in the script walk, the functions (`Walk`, `Visit`, `Scripts`) say what happens to
/// the file map and the methods are proved to do it to a `Files` object. The worklist has
/// no visited set, so the walk carries fuel.
module ComponentGraph {
  import opened Js
  import opened JsString
  import opened Collections
  import opened Artifacts
  import opened FileSystem
  import opened Toolchain
  import ScriptGraph
  import AstroPostProcess
  import AstroCompiler

  /** `{ styles, scriptPaths }`, the walk's accumulators. */
  datatype Gathered = Gathered(styles: seq<string>, scriptPaths: seq<string>)

  /** What one component adds: the components it imports, its styles and its scripts' files. */
  datatype Visited = Visited(children: seq<Compilation>, styles: seq<string>, scriptPaths: seq<string>)

  /** The name an inline script's walk gives it: the component's source, `#inline-script`,
    * and from the second script on `-` and its position counted from one. */
  function InlineSourcePath(source: string, index: nat): string {
    source + "#inline-script" + (if index > 0 then "-" + DecimalString(index + 1) else "")
  }

  /** `join(targetTsFilePath, '..', hash + '.js')`: where an inline script is written. */
  function InlineTarget(t: Tools, target: string, code: string): string {
    t.paths.join([target, "..", Hash8(t, code) + ".js"])
  }

  /** An imported component: its source and target beside the importer's, the target with `.ts`. */
  function Child(t: Tools, c: Compilation, relativeAstroPath: string): (r: Compilation)
    ensures |r.target| >= 3 && r.target[|r.target| - 3..] == ".ts"
  {
    Compilation(t.paths.join([c.source, "..", relativeAstroPath]), t.paths.join([c.target, "..", relativeAstroPath]) + ".ts")
  }

  /** `importedModules.map(...)`: one child per imported module, in order. */
  function Children(t: Tools, c: Compilation, importedModules: seq<string>): (r: seq<Compilation>)
    ensures |r| == |importedModules|
    ensures forall i :: 0 <= i < |r| ==> r[i] == Child(t, c, importedModules[i])
  {
    if importedModules == [] then []
    else [Child(t, c, importedModules[0])] + Children(t, c, importedModules[1..])
  }

  predicate AllInline(scripts: seq<Script>) {
    forall i :: 0 <= i < |scripts| ==> scripts[i].Inline?
  }

  /** What walking one inline script does to the files, given its position and its code. */
  type ScriptStep = (map<string, string>, nat, string) -> (Result<ScriptGraph.Written>, map<string, string>)

  /** The walks of the first `n` inline scripts, one after the other: the files each wrote,
    * or the first failure. Every walk runs, whichever failed before it. */
  function AllScripts(walk: ScriptStep, fs: map<string, string>, scripts: seq<Script>, n: nat): (Result<seq<seq<string>>>, map<string, string>)
    requires n <= |scripts| && AllInline(scripts)
    decreases n
  {
    if n == 0 then (Ok([]), fs)
    else
      var prev := AllScripts(walk, fs, scripts, n - 1);
      var w := walk(prev.1, n - 1, scripts[n - 1].code);
      match prev.0
      case Err(e) => (Err(e), w.1)
      case Ok(lists) =>
        match w.0
        case Err(e) => (Err(e), w.1)
        case Ok(written) => (Ok(lists + [written.writtenFiles]), w.1)
  }

  /** `recursivelyCompileWriteTsFiles` on the inline script at a position of component `c`:
    * named after the component, written beside its target under its hash. */
  function ScriptWalk(t: Tools, c: Compilation, fuel: nat): ScriptStep {
    (files: map<string, string>, i: nat, code: string) =>
      ScriptGraph.Walk(t, files, code, InlineSourcePath(c.source, i), InlineTarget(t, c.target, code), fuel)
  }

  /** The inline scripts of component `c`, all walked. */
  function Scripts(t: Tools, fs: map<string, string>, c: Compilation, scripts: seq<Script>, fuel: nat): (Result<seq<seq<string>>>, map<string, string>)
    requires AllInline(scripts)
  {
    AllScripts(ScriptWalk(t, c, fuel), fs, scripts, |scripts|)
  }

  /** One component: read its source, compile it, write the code to its target, then refuse
    * it if it has an external script, or walk its inline scripts. */
  function Visit(t: Tools, fs: map<string, string>, c: Compilation, fuel: nat): (Result<Visited>, map<string, string>)
  {
    match ReadFrom(fs, c.source)
    case Err(e) => (Err(e), fs)
    case Ok(contents) =>
      match CompileAstro(t, contents)
      case Err(e) => (Err(e), fs)
      case Ok(res) =>
        var written := fs[c.target := res.code];
        match FirstExternal(res.scripts)
        case Some(i) => (Err(ExternalError(res.scripts[i].src)), written)
        case None =>
          var scripts := Scripts(t, written, c, res.scripts, fuel);
          match scripts.0
          case Err(e) => (Err(e), scripts.1)
          case Ok(lists) => (Ok(Visited(Children(t, c, res.importedModules), res.css, Flatten(lists))), scripts.1)
  }

  /** What handling one component does to the files, given the fuel left. */
  type VisitStep = (map<string, string>, Compilation, nat) -> (Result<Visited>, map<string, string>)

  /** The worklist driven by `visit`: the head is handled, the components it imports queue
    * up behind the remaining ones, and its styles and script files join the ends of the
    * accumulators; its failure ends the walk. */
  function WalkWith(visit: VisitStep, fs: map<string, string>, queue: seq<Compilation>, g: Gathered, fuel: nat): (Result<Gathered>, map<string, string>)
    decreases fuel
  {
    if queue == [] then (Ok(g), fs)
    else if fuel == 0 then (Err(FuelExhausted), fs)
    else
      var v := visit(fs, queue[0], fuel);
      match v.0
      case Err(e) => (Err(e), v.1)
      case Ok(more) =>
        WalkWith(visit, v.1, queue[1..] + more.children, Gathered(g.styles + more.styles, g.scriptPaths + more.scriptPaths), fuel - 1)
  }

  function VisitOf(t: Tools): VisitStep {
    (files: map<string, string>, c: Compilation, fuel: nat) => Visit(t, files, c, fuel)
  }

  /** `recursivelyCompileWriteAstroFiles(queue, g.styles, g.scriptPaths)` on the files `fs`. */
  function Walk(t: Tools, fs: map<string, string>, queue: seq<Compilation>, g: Gathered, fuel: nat): (Result<Gathered>, map<string, string>)
  {
    WalkWith(VisitOf(t), fs, queue, g, fuel)
  }

  /** `recursivelyCompileWriteAstroFiles(compilations, styles, scriptPaths)`, writing into `files`. */
  method CompileWriteAstroFiles(files: Files, t: Tools, compilations: seq<Compilation>, g: Gathered, fuel: nat) returns (r: Result<Gathered>)
    modifies files
    ensures (r, files.contents) == Walk(t, old(files.contents), compilations, g, fuel)
    decreases fuel
  {
    if compilations == [] {
      return Ok(g);
    }
    if fuel == 0 {
      return Err(FuelExhausted);
    }
    var v := WalkHead(files, t, compilations, g, fuel);
    if v.Err? {
      return Err(v.error);
    }
    var more := v.value;
    var rest := compilations[1..] + more.children;
    var next := Gathered(g.styles + more.styles, g.scriptPaths + more.scriptPaths);
    r := CompileWriteAstroFiles(files, t, rest, next, fuel - 1);
  }

  /** The first step of the worklist, writing into `files`: the walk from here on is the
    * walk of what the head left queued and gathered. */
  method WalkHead(files: Files, t: Tools, compilations: seq<Compilation>, g: Gathered, fuel: nat) returns (v: Result<Visited>)
    requires compilations != [] && fuel > 0
    modifies files
    ensures v.Err? ==> Walk(t, old(files.contents), compilations, g, fuel) == (Err(v.error), files.contents)
    ensures v.Ok? ==> Walk(t, old(files.contents), compilations, g, fuel) == Walk(t, files.contents, compilations[1..] + v.value.children, Gathered(g.styles + v.value.styles, g.scriptPaths + v.value.scriptPaths), fuel - 1)
  {
    ghost var before := files.contents;
    v := VisitComponent(files, t, compilations[0], fuel);
    VisitThenWalk(t, before, compilations, g, fuel, v, files.contents);
  }

  /** The handling of one component, writing into `files`. */
  method VisitComponent(files: Files, t: Tools, c: Compilation, fuel: nat) returns (r: Result<Visited>)
    modifies files
    ensures (r, files.contents) == Visit(t, old(files.contents), c, fuel)
  {
    var read := files.Read(c.source);
    if read.Err? {
      return Err(read.error);
    }
    var compiled := CompileAstro(t, read.value);
    if compiled.Err? {
      return Err(compiled.error);
    }
    var res := compiled.value;
    files.Write(c.target, res.code);
    var external := FirstExternal(res.scripts);
    if external.Some? {
      return Err(ExternalError(res.scripts[external.value].src));
    }
    var lists := WalkScripts(files, t, c, res.scripts, fuel);
    if lists.Err? {
      return Err(lists.error);
    }
    r := Ok(Visited(Children(t, c, res.importedModules), res.css, Flatten(lists.value)));
  }

  /** The inline scripts' walks, one after the other, writing into `files`. */
  method WalkScripts(files: Files, t: Tools, c: Compilation, scripts: seq<Script>, fuel: nat) returns (lists: Result<seq<seq<string>>>)
    requires AllInline(scripts)
    modifies files
    ensures (lists, files.contents) == Scripts(t, old(files.contents), c, scripts, fuel)
  {
    ghost var walk := ScriptWalk(t, c, fuel);
    lists := Ok([]);
    var i := 0;
    while i < |scripts|
      invariant i <= |scripts|
      invariant (lists, files.contents) == AllScripts(walk, old(files.contents), scripts, i)
    {
      lists := WalkScript(files, t, c, scripts, i, lists, old(files.contents), fuel);
      i := i + 1;
    }
  }

  /** The walk of the inline script at position `i`, writing into `files`, after the walks
    * of the scripts ahead of it began on `fs0` and gave `lists`. */
  method WalkScript(files: Files, t: Tools, c: Compilation, scripts: seq<Script>, i: nat, lists: Result<seq<seq<string>>>, ghost fs0: map<string, string>, fuel: nat) returns (next: Result<seq<seq<string>>>)
    requires i < |scripts| && AllInline(scripts)
    requires (lists, files.contents) == AllScripts(ScriptWalk(t, c, fuel), fs0, scripts, i)
    modifies files
    ensures (next, files.contents) == AllScripts(ScriptWalk(t, c, fuel), fs0, scripts, i + 1)
  {
    ghost var before := files.contents;
    var code := scripts[i].code;
    var w := ScriptGraph.CompileWriteTsFiles(files, t, code, InlineSourcePath(c.source, i), InlineTarget(t, c.target, code), fuel);
    AllScriptsStep(ScriptWalk(t, c, fuel), fs0, scripts, i, lists, before, w, files.contents);
    next := lists;
    if lists.Ok? {
      next := if w.Ok? then Ok(lists.value + [w.value.writtenFiles]) else Err(w.error);
    }
  }

  // ---------------------------------------------------------------------------
  // Properties

  /** Past an empty queue the walk hands back its accumulators and writes nothing. */
  lemma EmptyQueue(t: Tools, fs: map<string, string>, g: Gathered, fuel: nat)
    ensures Walk(t, fs, [], g, fuel) == (Ok(g), fs)
  {
  }

  /** One step of the worklist, for a head whose handling gave `v` and left the files `fs1`. */
  lemma WalkStep(visit: VisitStep, fs: map<string, string>, queue: seq<Compilation>, g: Gathered, fuel: nat, v: Result<Visited>, fs1: map<string, string>)
    requires queue != [] && fuel > 0 && visit(fs, queue[0], fuel) == (v, fs1)
    ensures v.Err? ==> WalkWith(visit, fs, queue, g, fuel) == (Err(v.error), fs1)
    ensures v.Ok? ==> WalkWith(visit, fs, queue, g, fuel) == WalkWith(visit, fs1, queue[1..] + v.value.children, Gathered(g.styles + v.value.styles, g.scriptPaths + v.value.scriptPaths), fuel - 1)
  {
  }

  /** The component walk's step, for a head whose handling gave `v` and left the files `fs1`. */
  lemma VisitThenWalk(t: Tools, fs: map<string, string>, queue: seq<Compilation>, g: Gathered, fuel: nat, v: Result<Visited>, fs1: map<string, string>)
    requires queue != [] && fuel > 0 && Visit(t, fs, queue[0], fuel) == (v, fs1)
    ensures v.Err? ==> Walk(t, fs, queue, g, fuel) == (Err(v.error), fs1)
    ensures v.Ok? ==> Walk(t, fs, queue, g, fuel) == Walk(t, fs1, queue[1..] + v.value.children, Gathered(g.styles + v.value.styles, g.scriptPaths + v.value.scriptPaths), fuel - 1)
  {
    WalkStep(VisitOf(t), fs, queue, g, fuel, v, fs1);
  }

  /** The walk of script `n`, which gave `w` and left `after`, runs on the files `before`
    * the walks ahead of it left, and extends their lists. */
  lemma AllScriptsStep(walk: ScriptStep, fs: map<string, string>, scripts: seq<Script>, n: nat, lists: Result<seq<seq<string>>>, before: map<string, string>, w: Result<ScriptGraph.Written>, after: map<string, string>)
    requires n < |scripts| && AllInline(scripts)
    requires AllScripts(walk, fs, scripts, n) == (lists, before)
    requires walk(before, n, scripts[n].code) == (w, after)
    ensures AllScripts(walk, fs, scripts, n + 1) == (if lists.Err? then Err(lists.error) else if w.Err? then Err(w.error) else Ok(lists.value + [w.value.writtenFiles]), after)
  {
  }

  /** When every script's walk keeps the files it is given, so do all of them. */
  lemma {:induction false} AllScriptsKeepFiles(walk: ScriptStep, fs: map<string, string>, scripts: seq<Script>, n: nat)
    requires n <= |scripts| && AllInline(scripts)
    requires forall files: map<string, string>, i: nat, code: string :: files.Keys <= walk(files, i, code).1.Keys
    ensures fs.Keys <= AllScripts(walk, fs, scripts, n).1.Keys
    decreases n
  {
    if n > 0 {
      AllScriptsKeepFiles(walk, fs, scripts, n - 1);
      var prev := AllScripts(walk, fs, scripts, n - 1);
      assert prev.1.Keys <= walk(prev.1, n - 1, scripts[n - 1].code).1.Keys;
    }
  }

  /** When every script's walk that succeeds lists files with property `P`, the walks of
    * `n` scripts that all succeed give one such list per script, in order. */
  lemma {:induction false} AllScriptsEach(walk: ScriptStep, P: (nat, string, seq<string>) -> bool, fs: map<string, string>, scripts: seq<Script>, n: nat)
    requires n <= |scripts| && AllInline(scripts)
    requires forall files: map<string, string>, i: nat, code: string :: walk(files, i, code).0.Ok? ==> P(i, code, walk(files, i, code).0.value.writtenFiles)
    requires AllScripts(walk, fs, scripts, n).0.Ok?
    ensures var lists := AllScripts(walk, fs, scripts, n).0.value;
      |lists| == n && forall i :: 0 <= i < n ==> P(i, scripts[i].code, lists[i])
    decreases n
  {
    if n > 0 {
      var prev := AllScripts(walk, fs, scripts, n - 1);
      var w := walk(prev.1, n - 1, scripts[n - 1].code);
      assert prev.0.Ok? && w.0.Ok?;
      AllScriptsEach(walk, P, fs, scripts, n - 1);
      var lists := AllScripts(walk, fs, scripts, n).0.value;
      assert lists == prev.0.value + [w.0.value.writtenFiles];
      forall i | 0 <= i < n
        ensures P(i, scripts[i].code, lists[i])
      {
        if i < n - 1 {
          assert lists[i] == prev.0.value[i];
        }
      }
    }
  }

  /** Walking a component's inline scripts keeps every file. */
  lemma ScriptsKeepFiles(t: Tools, fs: map<string, string>, c: Compilation, scripts: seq<Script>, fuel: nat)
    requires AllInline(scripts)
    ensures fs.Keys <= Scripts(t, fs, c, scripts, fuel).1.Keys
  {
    AllScriptsKeepFiles(ScriptWalk(t, c, fuel), fs, scripts, |scripts|);
  }

  /** When every script's walk that succeeds writes only the files it lists, walks of `n`
    * scripts that all succeed write only the files their lists hold together. */
  lemma {:induction false} AllScriptsFrame(walk: ScriptStep, fs: map<string, string>, scripts: seq<Script>, n: nat)
    requires n <= |scripts| && AllInline(scripts)
    requires forall files: map<string, string>, i: nat, code: string :: walk(files, i, code).0.Ok? ==>
      OnlyWrote(files, walk(files, i, code).1, walk(files, i, code).0.value.writtenFiles)
    requires AllScripts(walk, fs, scripts, n).0.Ok?
    ensures OnlyWrote(fs, AllScripts(walk, fs, scripts, n).1, Flatten(AllScripts(walk, fs, scripts, n).0.value))
    decreases n
  {
    if n > 0 {
      var prev := AllScripts(walk, fs, scripts, n - 1);
      var w := walk(prev.1, n - 1, scripts[n - 1].code);
      assert prev.0.Ok? && w.0.Ok?;
      AllScriptsFrame(walk, fs, scripts, n - 1);
      var last := w.0.value.writtenFiles;
      FlattenAppend(prev.0.value, [last]);
      assert Flatten([last]) == last + Flatten([last][1..]);
      OnlyWroteThen(fs, prev.1, w.1, Flatten(prev.0.value), last, Flatten(prev.0.value + [last]));
    }
  }

  /** A component's inline scripts, when all their walks succeed, write only the files
    * those walks list. */
  lemma ScriptsFrame(t: Tools, fs: map<string, string>, c: Compilation, scripts: seq<Script>, fuel: nat)
    requires AllInline(scripts)
    requires Scripts(t, fs, c, scripts, fuel).0.Ok?
    ensures OnlyWrote(fs, Scripts(t, fs, c, scripts, fuel).1, Flatten(Scripts(t, fs, c, scripts, fuel).0.value))
  {
    forall files: map<string, string>, i: nat, code: string
      ensures ScriptWalk(t, c, fuel)(files, i, code).0.Ok? ==>
        OnlyWrote(files, ScriptWalk(t, c, fuel)(files, i, code).1, ScriptWalk(t, c, fuel)(files, i, code).0.value.writtenFiles)
    {
      ScriptGraph.WalkFrame(t, files, code, InlineSourcePath(c.source, i), InlineTarget(t, c.target, code), fuel);
    }
    AllScriptsFrame(ScriptWalk(t, c, fuel), fs, scripts, |scripts|);
  }

  /** The files each inline script's walk wrote end with that script's hash-named target. */
  lemma ScriptsEndWithTargets(t: Tools, fs: map<string, string>, c: Compilation, scripts: seq<Script>, fuel: nat)
    requires AllInline(scripts)
    requires Scripts(t, fs, c, scripts, fuel).0.Ok?
    ensures var lists := Scripts(t, fs, c, scripts, fuel).0.value;
      && |lists| == |scripts|
      && forall i :: 0 <= i < |scripts| ==> lists[i] != [] && ScriptGraph.Last(lists[i]) == InlineTarget(t, c.target, scripts[i].code)
  {
    var P := (i: nat, code: string, w: seq<string>) => w != [] && ScriptGraph.Last(w) == InlineTarget(t, c.target, code);
    AllScriptsEach(ScriptWalk(t, c, fuel), P, fs, scripts, |scripts|);
  }

  /** Handling a component keeps every file. */
  lemma VisitKeepsFiles(t: Tools, fs: map<string, string>, c: Compilation, fuel: nat)
    ensures fs.Keys <= Visit(t, fs, c, fuel).1.Keys
  {
    if c.source in fs && CompileAstro(t, fs[c.source]).Ok? {
      var res := CompileAstro(t, fs[c.source]).value;
      if FirstExternal(res.scripts).None? {
        ScriptsKeepFiles(t, fs[c.target := res.code], c, res.scripts, fuel);
      }
    }
  }

  /** When every step keeps the files it is given, so does the walk. */
  lemma {:induction false} WalkWithKeepsFiles(visit: VisitStep, fs: map<string, string>, queue: seq<Compilation>, g: Gathered, fuel: nat)
    requires forall files: map<string, string>, c: Compilation, f: nat :: files.Keys <= visit(files, c, f).1.Keys
    ensures fs.Keys <= WalkWith(visit, fs, queue, g, fuel).1.Keys
    decreases fuel
  {
    if queue != [] && fuel > 0 {
      var v := visit(fs, queue[0], fuel);
      assert fs.Keys <= v.1.Keys;
      if v.0.Ok? {
        WalkWithKeepsFiles(visit, v.1, queue[1..] + v.0.value.children, Gathered(g.styles + v.0.value.styles, g.scriptPaths + v.0.value.scriptPaths), fuel - 1);
      }
    }
  }

  /** The component walk keeps every file. */
  lemma WalkKeepsFiles(t: Tools, fs: map<string, string>, queue: seq<Compilation>, g: Gathered, fuel: nat)
    ensures fs.Keys <= Walk(t, fs, queue, g, fuel).1.Keys
  {
    forall files: map<string, string>, c: Compilation, f: nat
      ensures files.Keys <= VisitOf(t)(files, c, f).1.Keys
    {
      VisitKeepsFiles(t, files, c, f);
    }
    WalkWithKeepsFiles(VisitOf(t), fs, queue, g, fuel);
  }

  /** The accumulators only grow, at their ends, whatever each step gathers. */
  lemma {:induction false} WalkAccumulates(visit: VisitStep, fs: map<string, string>, queue: seq<Compilation>, g: Gathered, fuel: nat)
    requires WalkWith(visit, fs, queue, g, fuel).0.Ok?
    ensures var out := WalkWith(visit, fs, queue, g, fuel).0.value;
      g.styles <= out.styles && g.scriptPaths <= out.scriptPaths
    decreases fuel
  {
    if queue != [] {
      var v := visit(fs, queue[0], fuel);
      var more := v.0.value;
      var next := Gathered(g.styles + more.styles, g.scriptPaths + more.scriptPaths);
      WalkAccumulates(visit, v.1, queue[1..] + more.children, next, fuel - 1);
      var out := WalkWith(visit, fs, queue, g, fuel).0.value;
      PrefixTrans(g.styles, next.styles, out.styles);
      PrefixTrans(g.scriptPaths, next.scriptPaths, out.scriptPaths);
    }
  }

  lemma PrefixTrans(a: seq<string>, b: seq<string>, c: seq<string>)
    requires a <= b && b <= c
    ensures a <= c
  {
  }

  /** A component that is read and compiled is written to its target. When it is handled
    * without failure, the files afterwards are those with its compiled code at its target,
    * changed further only at the files its scripts' walks list: the target holds the
    * compiled code unless one of its scripts' walks wrote the same path. */
  lemma VisitWritesTarget(t: Tools, fs: map<string, string>, c: Compilation, fuel: nat)
    requires c.source in fs && CompileAstro(t, fs[c.source]).Ok?
    ensures c.target in Visit(t, fs, c, fuel).1
    ensures var res := CompileAstro(t, fs[c.source]).value;
      var v := Visit(t, fs, c, fuel);
      v.0.Ok? ==>
        && OnlyWrote(fs[c.target := res.code], v.1, v.0.value.scriptPaths)
        && (c.target !in v.0.value.scriptPaths ==> v.1[c.target] == res.code)
  {
    var res := CompileAstro(t, fs[c.source]).value;
    if FirstExternal(res.scripts).None? {
      var written := fs[c.target := res.code];
      assert c.target in written;
      ScriptsKeepFiles(t, written, c, res.scripts, fuel);
      if Scripts(t, written, c, res.scripts, fuel).0.Ok? {
        ScriptsFrame(t, written, c, res.scripts, fuel);
      }
    }
  }

  /** A component handled without failure was read and compiled. */
  lemma VisitOkCompiles(t: Tools, fs: map<string, string>, c: Compilation, fuel: nat)
    requires Visit(t, fs, c, fuel).0.Ok?
    ensures c.source in fs && CompileAstro(t, fs[c.source]).Ok?
    ensures FirstExternal(CompileAstro(t, fs[c.source]).value.scripts).None?
  {
  }

  /** When every step keeps the files and a step that succeeds has written its component's
    * target, a walk that succeeds has written the target of every component it started from. */
  lemma {:induction false} WalkWithWritesQueue(visit: VisitStep, fs: map<string, string>, queue: seq<Compilation>, g: Gathered, fuel: nat)
    requires forall files: map<string, string>, c: Compilation, f: nat :: files.Keys <= visit(files, c, f).1.Keys
    requires forall files: map<string, string>, c: Compilation, f: nat :: visit(files, c, f).0.Ok? ==> c.target in visit(files, c, f).1
    requires WalkWith(visit, fs, queue, g, fuel).0.Ok?
    ensures forall i :: 0 <= i < |queue| ==> queue[i].target in WalkWith(visit, fs, queue, g, fuel).1
    decreases fuel
  {
    if queue != [] {
      var v := visit(fs, queue[0], fuel);
      var rest := queue[1..] + v.0.value.children;
      var next := Gathered(g.styles + v.0.value.styles, g.scriptPaths + v.0.value.scriptPaths);
      var out := WalkWith(visit, v.1, rest, next, fuel - 1);
      assert WalkWith(visit, fs, queue, g, fuel) == out;
      WalkWithWritesQueue(visit, v.1, rest, next, fuel - 1);
      WalkWithKeepsFiles(visit, v.1, rest, next, fuel - 1);
      TargetsOfRest(queue, v.0.value.children, out.1);
    }
  }

  lemma TargetsOfRest(queue: seq<Compilation>, children: seq<Compilation>, written: map<string, string>)
    requires queue != [] && queue[0].target in written
    requires forall i :: 0 <= i < |queue[1..] + children| ==> (queue[1..] + children)[i].target in written
    ensures forall i :: 0 <= i < |queue| ==> queue[i].target in written
  {
    forall i | 1 <= i < |queue|
      ensures queue[i].target in written
    {
      assert (queue[1..] + children)[i - 1] == queue[i];
    }
  }

  /** When the component walk succeeds, every component of the queue it started from was
    * written to its target. */
  lemma WalkWritesQueue(t: Tools, fs: map<string, string>, queue: seq<Compilation>, g: Gathered, fuel: nat)
    requires Walk(t, fs, queue, g, fuel).0.Ok?
    ensures forall i :: 0 <= i < |queue| ==> queue[i].target in Walk(t, fs, queue, g, fuel).1
  {
    forall files: map<string, string>, c: Compilation, f: nat
      ensures files.Keys <= VisitOf(t)(files, c, f).1.Keys
      ensures VisitOf(t)(files, c, f).0.Ok? ==> c.target in VisitOf(t)(files, c, f).1
    {
      VisitKeepsFiles(t, files, c, f);
      if Visit(t, files, c, f).0.Ok? {
        VisitOkCompiles(t, files, c, f);
        VisitWritesTarget(t, files, c, f);
      }
    }
    WalkWithWritesQueue(VisitOf(t), fs, queue, g, fuel);
  }

  /** Two inline scripts of one component are walked under different names. */
  lemma InlineSourcePathsDistinct(source: string, i: nat, j: nat)
    requires i != j
    ensures InlineSourcePath(source, i) != InlineSourcePath(source, j)
  {
    var head := source + "#inline-script";
    var a, b := InlineSourcePath(source, i), InlineSourcePath(source, j);
    if a == b {
      assert a[|head|..] == b[|head|..];
      if i > 0 && j > 0 {
        assert a[|head|..][1..] == DecimalString(i + 1);
        assert b[|head|..][1..] == DecimalString(j + 1);
        DecimalStringInjective(i + 1, j + 1);
      }
    }
  }

  /** A component with an external script is written, then refused with the first one. */
  lemma ExternalAborts(t: Tools, fs: map<string, string>, queue: seq<Compilation>, g: Gathered, fuel: nat)
    requires queue != [] && fuel > 0
    requires queue[0].source in fs && CompileAstro(t, fs[queue[0].source]).Ok?
    requires FirstExternal(CompileAstro(t, fs[queue[0].source]).value.scripts).Some?
    ensures var res := CompileAstro(t, fs[queue[0].source]).value;
      var i := FirstExternal(res.scripts).value;
      Walk(t, fs, queue, g, fuel) == (Err(ExternalError(res.scripts[i].src)), fs[queue[0].target := res.code])
  {
  }

  /** A handled component queues one child per import of an `.astro` module found in the
    * compiler's output, in order, and gathers the compiler's styles, whether the answer came
    * from the cache or from the compiler: the cache's entries are lawful and no other
    * source shares the component's hash. */
  lemma VisitQueuesImports(t: Tools, transform: string -> Foreign<TransformResult>, fs: map<string, string>, c: Compilation, fuel: nat)
    requires IsAstroCompiler(t, transform)
    requires Visit(t, fs, c, fuel).0.Ok?
    requires AstroLawful(t, t.astroEntries)
    requires c.source in fs && AstroUnshared(t, fs[c.source])
    ensures transform(fs[c.source]).Fulfilled?
    ensures var tr := transform(fs[c.source]).value;
      var v := Visit(t, fs, c, fuel).0.value;
      && v.styles == tr.css
      && v.children == Children(t, c, AstroPostProcess.ImportSpecifiers(tr.code))
      && forall k :: 0 <= k < |v.children| ==> AstroPostProcess.NamesAstroFile(AstroPostProcess.ImportSpecifiers(tr.code)[k])
  {
    AstroAnswerIsCompiled(t, fs[c.source]);
    assert t.astroCompile(fs[c.source]) == AstroCompiler.CompileLoaded(transform, fs[c.source]);
  }
}
