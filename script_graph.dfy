/// main.ts `recursivelyCompileWriteTsFiles`: a script's relative imports are compiled and
/// written first, each under the 8-character hash of its source next to the importing
/// script's target, the import specifiers are rewritten to point at those files, and then
/// the script itself is compiled and written.
///
/// The walk is stated twice: as functions from the file map to a result and a new file
/// map (`Walk`, `Fold`, `Step`, `Follow`), and as methods that change a `Files` object and
/// are proved to do what the functions say. The source has no guard against an import
/// cycle, so the walk carries fuel.
module ScriptGraph {
  import opened Js
  import opened JsString
  import opened Artifacts
  import opened FileSystem
  import opened Toolchain
  import Routes

  /** `{ code, writtenFiles }`: a compiled script and the files written for it, its own last. */
  datatype Written = Written(code: string, writtenFiles: seq<string>)

  /** What the `reduce` callback has done for a followed import before it awaits the
    * accumulator: where it wrote the import, the specifier that reaches it, and the files
    * the import's own walk wrote. */
  datatype Followed = Followed(target: string, relativePath: string, writtenFiles: seq<string>)

  /** Only specifiers that start with `./` are followed. */
  predicate IsFollowed(im: ImportRef) {
    "./" <= im.specifier
  }

  /** `join(sourcePath, '..', im.specifier)`: where the imported script is read. */
  function ImportSource(t: Tools, sourcePath: string, im: ImportRef): string {
    t.paths.join([sourcePath, "..", im.specifier])
  }

  /** `join(targetPath, '..', hash) + '.js'`: where the imported script is written. */
  function ImportTarget(t: Tools, targetPath: string, contents: string): string {
    t.paths.join([targetPath, "..", Hash8(t, contents)]) + ".js"
  }

  /** The new specifier's path: the import's target seen from the importing script's directory. */
  function RelativePath(t: Tools, targetPath: string, target: string): string {
    Routes.Slashed(t.paths.relative(t.paths.join([targetPath, ".."]), target))
  }

  /** `code.slice(0, start) + './' + relativePath + code.slice(end)`. */
  function Splice(code: string, span: Span, relativePath: string): string {
    Slice(code, 0, span.start) + "./" + relativePath + SliceFrom(code, span.end)
  }

  /** Every path of `paths` names a file of `fs`. */
  predicate AllIn(paths: seq<string>, fs: map<string, string>) {
    forall i :: 0 <= i < |paths| ==> paths[i] in fs
  }

  /** The last path of a non-empty list. */
  function Last(paths: seq<string>): string
    requires paths != []
  {
    paths[|paths| - 1]
  }

  /** `recursivelyCompileWriteTsFiles(code, sourcePath, targetPath)` run on the files `fs`:
    * its result and the files afterwards. The script's own target is written last and holds
    * the returned code, no file disappears, and every file it lists exists; `WalkFrame`
    * shows that it writes no file it does not list. */
  function Walk(t: Tools, fs: map<string, string>, code: string, sourcePath: string, targetPath: string, fuel: nat): (r: (Result<Written>, map<string, string>))
    ensures fs.Keys <= r.1.Keys
    ensures r.0.Ok? ==> r.0.value.writtenFiles != [] && Last(r.0.value.writtenFiles) == targetPath
    ensures r.0.Ok? ==> targetPath in r.1 && r.1[targetPath] == r.0.value.code
    ensures r.0.Ok? ==> AllIn(r.0.value.writtenFiles, r.1)
    decreases fuel, 3
  {
    if fuel == 0 then (Err(FuelExhausted), fs)
    else
      match ParseTsImports(t, code)
      case Err(e) => (Err(e), fs)
      case Ok(imports) =>
        var folded := Fold(t, fs, imports, |imports|, code, sourcePath, targetPath, fuel);
        match folded.0
        case Err(e) => (Err(e), folded.1)
        case Ok(w) =>
          match CompileTypescript(t, w.code)
          case Err(e) => (Err(e), folded.1)
          case Ok(js) => (Ok(Written(js, w.writtenFiles + [targetPath])), folded.1[targetPath := js])
  }

  /** The `reduce` over the first `n` imports, starting from the script's own code and no
    * files; each import is handled in turn on the files the previous ones left. */
  function Fold(t: Tools, fs: map<string, string>, imports: seq<ImportRef>, n: nat, code: string, sourcePath: string, targetPath: string, fuel: nat): (r: (Result<Written>, map<string, string>))
    requires n <= |imports| && fuel > 0
    ensures fs.Keys <= r.1.Keys
    ensures r.0.Ok? ==> AllIn(r.0.value.writtenFiles, r.1)
    decreases fuel, 2, n
  {
    if n == 0 then (Ok(Written(code, [])), fs)
    else
      var prev := Fold(t, fs, imports, n - 1, code, sourcePath, targetPath, fuel);
      Step(t, prev.1, imports[n - 1], prev.0, sourcePath, targetPath, fuel)
  }

  /** One call of the `reduce` callback. A specifier not starting with `./` hands the
    * accumulator on. Otherwise the import's own work is done first; its failure is the
    * result whatever the accumulator holds, and only then is the accumulator awaited. */
  function Step(t: Tools, fs: map<string, string>, im: ImportRef, acc: Result<Written>, sourcePath: string, targetPath: string, fuel: nat): (r: (Result<Written>, map<string, string>))
    requires fuel > 0
    ensures fs.Keys <= r.1.Keys
    ensures r.0.Ok? ==> acc.Ok? && (AllIn(acc.value.writtenFiles, fs) ==> AllIn(r.0.value.writtenFiles, r.1))
    decreases fuel, 1, 0
  {
    if !IsFollowed(im) then (acc, fs)
    else
      var own := Follow(t, fs, im, sourcePath, targetPath, fuel);
      match own.0
      case Err(e) => (Err(e), own.1)
      case Ok(f) =>
        match acc
        case Err(e) => (Err(e), own.1)
        case Ok(a) => (Ok(Written(Splice(a.code, im.span, f.relativePath), f.writtenFiles + a.writtenFiles + [f.target])), own.1)
  }

  /** The work for a followed import: read it, walk it with its hash-named target, compile
    * the code its walk returned once more, and write that to the same target. */
  function Follow(t: Tools, fs: map<string, string>, im: ImportRef, sourcePath: string, targetPath: string, fuel: nat): (r: (Result<Followed>, map<string, string>))
    requires fuel > 0
    ensures fs.Keys <= r.1.Keys
    ensures r.0.Ok? ==> r.0.value.target in r.1 && AllIn(r.0.value.writtenFiles, r.1)
    ensures r.0.Ok? ==> r.0.value.writtenFiles != [] && Last(r.0.value.writtenFiles) == r.0.value.target
    decreases fuel, 0, 0
  {
    var source := ImportSource(t, sourcePath, im);
    match ReadFrom(fs, source)
    case Err(e) => (Err(e), fs)
    case Ok(contents) =>
      var target := ImportTarget(t, targetPath, contents);
      var child := Walk(t, fs, contents, source, target, fuel - 1);
      match child.0
      case Err(e) => (Err(e), child.1)
      case Ok(w) =>
        match CompileTypescript(t, w.code)
        case Err(e) => (Err(e), child.1)
        case Ok(js) => (Ok(Followed(target, RelativePath(t, targetPath, target), w.writtenFiles)), child.1[target := js])
  }

  /** `recursivelyCompileWriteTsFiles`, writing into `files`. */
  method CompileWriteTsFiles(files: Files, t: Tools, code: string, sourcePath: string, targetPath: string, fuel: nat) returns (r: Result<Written>)
    modifies files
    ensures (r, files.contents) == Walk(t, old(files.contents), code, sourcePath, targetPath, fuel)
    decreases fuel, 1
  {
    if fuel == 0 {
      return Err(FuelExhausted);
    }
    var parsed := ParseTsImports(t, code);
    if parsed.Err? {
      return Err(parsed.error);
    }
    var imports := parsed.value;
    ghost var fs0 := files.contents;
    var acc: Result<Written> := Ok(Written(code, []));
    var i := 0;
    while i < |imports|
      invariant i <= |imports|
      invariant (acc, files.contents) == Fold(t, fs0, imports, i, code, sourcePath, targetPath, fuel)
    {
      acc := ImportStep(files, t, imports[i], acc, sourcePath, targetPath, fuel);
      i := i + 1;
    }
    if acc.Err? {
      return Err(acc.error);
    }
    var compiled := CompileTypescript(t, acc.value.code);
    if compiled.Err? {
      return Err(compiled.error);
    }
    files.Write(targetPath, compiled.value);
    r := Ok(Written(compiled.value, acc.value.writtenFiles + [targetPath]));
  }

  /** The `reduce` callback for one import, writing into `files`. */
  method ImportStep(files: Files, t: Tools, im: ImportRef, acc: Result<Written>, sourcePath: string, targetPath: string, fuel: nat) returns (r: Result<Written>)
    requires fuel > 0
    modifies files
    ensures (r, files.contents) == Step(t, old(files.contents), im, acc, sourcePath, targetPath, fuel)
    decreases fuel, 0
  {
    if !IsFollowed(im) {
      return acc;
    }
    var source := ImportSource(t, sourcePath, im);
    var read := files.Read(source);
    if read.Err? {
      return Err(read.error);
    }
    var target := ImportTarget(t, targetPath, read.value);
    var child := CompileWriteTsFiles(files, t, read.value, source, target, fuel - 1);
    if child.Err? {
      return Err(child.error);
    }
    var compiled := CompileTypescript(t, child.value.code);
    if compiled.Err? {
      return Err(compiled.error);
    }
    files.Write(target, compiled.value);
    match acc
    case Err(e) =>
      r := Err(e);
    case Ok(a) =>
      var relativePath := RelativePath(t, targetPath, target);
      r := Ok(Written(Splice(a.code, im.span, relativePath), child.value.writtenFiles + a.writtenFiles + [target]));
  }

  // ---------------------------------------------------------------------------
  // Properties

  /** An import whose specifier does not start with `./` changes neither the code nor the files. */
  lemma NotFollowedPassesThrough(t: Tools, fs: map<string, string>, im: ImportRef, acc: Result<Written>, sourcePath: string, targetPath: string, fuel: nat)
    requires fuel > 0 && !IsFollowed(im)
    ensures Step(t, fs, im, acc, sourcePath, targetPath, fuel) == (acc, fs)
  {
  }

  /** A rewrite replaces `code[start..end)` by `./` and the relative path and keeps the text
    * before `start` and from `end` on. */
  lemma SpliceKeepsOutside(code: string, span: Span, relativePath: string)
    requires 0 <= span.start <= span.end <= |code|
    ensures var r := Splice(code, span, relativePath);
      var k := span.start + 2 + |relativePath|;
      && |r| == |code| - (span.end - span.start) + 2 + |relativePath|
      && r[..span.start] == code[..span.start]
      && r[span.start..k] == "./" + relativePath
      && r[k..] == code[span.end..]
  {
    var head := Slice(code, 0, span.start);
    assert head == code[..span.start];
    SpliceParts(head, "./" + relativePath, code[span.end..]);
  }

  lemma SpliceParts(a: string, b: string, c: string)
    ensures var r := a + b + c;
      r[..|a|] == a && r[|a|..|a| + |b|] == b && r[|a| + |b|..] == c
  {
  }

  /** The rewrites use the spans of the original code: once a rewrite changes the length of
    * the text, a later span no longer covers the specifier it was parsed from. Rewriting
    * `a` at [0, 1) and then `b` at [1, 2) of `ab` gives `../yxb`, not `./x./y`. */
  lemma SpanDrift()
    ensures Splice(Splice("ab", Span(0, 1), "x"), Span(1, 2), "y") == "../yxb"
  {
    assert Splice("ab", Span(0, 1), "x") == "./xb";
    assert Slice("./xb", 0, 1) == ".";
    assert SliceFrom("./xb", 2) == "xb";
  }

  /** The error of a followed import's own work is the callback's result whatever the
    * accumulator holds; when its own work succeeds, a failed accumulator is passed on.
    * So of several failing imports, the last one's error is the walk's. */
  lemma StepFailures(t: Tools, fs: map<string, string>, im: ImportRef, acc: Result<Written>, sourcePath: string, targetPath: string, fuel: nat)
    requires fuel > 0 && IsFollowed(im)
    ensures var own := Follow(t, fs, im, sourcePath, targetPath, fuel);
      var r := Step(t, fs, im, acc, sourcePath, targetPath, fuel);
      && r.1 == own.1
      && (own.0.Err? ==> r.0 == Err(own.0.error))
      && (own.0.Ok? && acc.Err? ==> r.0 == acc)
  {
  }

  /** A followed import's target is listed twice: last in its own walk's files, and again
    * after the accumulator's files. */
  lemma FollowedTargetListedTwice(t: Tools, fs: map<string, string>, im: ImportRef, acc: Result<Written>, sourcePath: string, targetPath: string, fuel: nat)
    requires fuel > 0 && IsFollowed(im)
    requires Step(t, fs, im, acc, sourcePath, targetPath, fuel).0.Ok?
    ensures var f := Follow(t, fs, im, sourcePath, targetPath, fuel).0.value;
      var w := Step(t, fs, im, acc, sourcePath, targetPath, fuel).0.value.writtenFiles;
      && |f.writtenFiles| < |w|
      && w[|f.writtenFiles| - 1] == f.target
      && Last(w) == f.target
  {
  }

  /** The import's target is written twice: its own walk writes the compiled import there,
    * and the importing walk then overwrites it with that code compiled once more. */
  lemma TargetCompiledTwice(t: Tools, fs: map<string, string>, im: ImportRef, sourcePath: string, targetPath: string, fuel: nat)
    requires fuel > 0
    requires Follow(t, fs, im, sourcePath, targetPath, fuel).0.Ok?
    ensures var source := ImportSource(t, sourcePath, im);
      var contents := fs[source];
      var target := ImportTarget(t, targetPath, contents);
      var child := Walk(t, fs, contents, source, target, fuel - 1);
      var r := Follow(t, fs, im, sourcePath, targetPath, fuel);
      && source in fs
      && r.0.value.target == target
      && child.0.Ok? && child.1[target] == child.0.value.code
      && CompileTypescript(t, child.0.value.code) == Ok(r.1[target])
  {
  }

  /** With no import to follow the reduce leaves the code as it is and writes nothing. */
  lemma {:induction false} FoldWithoutFollowed(t: Tools, fs: map<string, string>, imports: seq<ImportRef>, n: nat, code: string, sourcePath: string, targetPath: string, fuel: nat)
    requires n <= |imports| && fuel > 0
    requires forall i :: 0 <= i < |imports| ==> !IsFollowed(imports[i])
    ensures Fold(t, fs, imports, n, code, sourcePath, targetPath, fuel) == (Ok(Written(code, [])), fs)
  {
    if n > 0 {
      FoldWithoutFollowed(t, fs, imports, n - 1, code, sourcePath, targetPath, fuel);
    }
  }

  /** A script with no `./` import is compiled as it is and written to its target, the only
    * file listed. */
  lemma WalkWithoutFollowed(t: Tools, fs: map<string, string>, code: string, sourcePath: string, targetPath: string, fuel: nat)
    requires fuel > 0 && ParseTsImports(t, code).Ok?
    requires var imports := ParseTsImports(t, code).value;
      forall i :: 0 <= i < |imports| ==> !IsFollowed(imports[i])
    requires CompileTypescript(t, code).Ok?
    ensures var js := CompileTypescript(t, code).value;
      Walk(t, fs, code, sourcePath, targetPath, fuel) == (Ok(Written(js, [targetPath])), fs[targetPath := js])
  {
    var imports := ParseTsImports(t, code).value;
    FoldWithoutFollowed(t, fs, imports, |imports|, code, sourcePath, targetPath, fuel);
    assert Fold(t, fs, imports, |imports|, code, sourcePath, targetPath, fuel).0 == Ok(Written(code, []));
    var js := CompileTypescript(t, code).value;
    assert [] + [targetPath] == [targetPath];
    assert Walk(t, fs, code, sourcePath, targetPath, fuel).0 == Ok(Written(js, [targetPath]));
    assert Walk(t, fs, code, sourcePath, targetPath, fuel).1 == fs[targetPath := js];
  }

  /** A walk that succeeds writes only the files it lists: every other file keeps its text,
    * and none appears. */
  lemma {:induction false} WalkFrame(t: Tools, fs: map<string, string>, code: string, sourcePath: string, targetPath: string, fuel: nat)
    ensures var r := Walk(t, fs, code, sourcePath, targetPath, fuel);
      r.0.Ok? ==> OnlyWrote(fs, r.1, r.0.value.writtenFiles)
    decreases fuel, 3
  {
    if fuel > 0 && ParseTsImports(t, code).Ok? {
      var imports := ParseTsImports(t, code).value;
      FoldFrame(t, fs, imports, |imports|, code, sourcePath, targetPath, fuel);
    }
  }

  /** The `reduce`, when it succeeds, writes only the files it lists. */
  lemma {:induction false} FoldFrame(t: Tools, fs: map<string, string>, imports: seq<ImportRef>, n: nat, code: string, sourcePath: string, targetPath: string, fuel: nat)
    requires n <= |imports| && fuel > 0
    ensures var r := Fold(t, fs, imports, n, code, sourcePath, targetPath, fuel);
      r.0.Ok? ==> OnlyWrote(fs, r.1, r.0.value.writtenFiles)
    decreases fuel, 2, n
  {
    if n > 0 {
      var prev := Fold(t, fs, imports, n - 1, code, sourcePath, targetPath, fuel);
      FoldFrame(t, fs, imports, n - 1, code, sourcePath, targetPath, fuel);
      var r := Step(t, prev.1, imports[n - 1], prev.0, sourcePath, targetPath, fuel);
      StepFrame(t, prev.1, imports[n - 1], prev.0, sourcePath, targetPath, fuel);
      if r.0.Ok? {
        OnlyWroteThen(fs, prev.1, r.1, prev.0.value.writtenFiles, r.0.value.writtenFiles, r.0.value.writtenFiles);
      }
    }
  }

  /** One callback, when it succeeds, writes only files it lists, and it lists every file
    * the accumulator listed. */
  lemma {:induction false} StepFrame(t: Tools, fs: map<string, string>, im: ImportRef, acc: Result<Written>, sourcePath: string, targetPath: string, fuel: nat)
    requires fuel > 0
    ensures var r := Step(t, fs, im, acc, sourcePath, targetPath, fuel);
      r.0.Ok? ==> (OnlyWrote(fs, r.1, r.0.value.writtenFiles) &&
        forall k :: k in acc.value.writtenFiles ==> k in r.0.value.writtenFiles)
    decreases fuel, 1, 0
  {
    if IsFollowed(im) {
      var own := Follow(t, fs, im, sourcePath, targetPath, fuel);
      FollowFrame(t, fs, im, sourcePath, targetPath, fuel);
      if own.0.Ok? && acc.Ok? {
        var listed := own.0.value.writtenFiles + acc.value.writtenFiles + [own.0.value.target];
        assert forall k :: k in own.0.value.writtenFiles ==> k in listed;
      }
    }
  }

  /** The work for a followed import, when it succeeds, writes only the files its walk
    * lists, the last of which is the import's target. */
  lemma {:induction false} FollowFrame(t: Tools, fs: map<string, string>, im: ImportRef, sourcePath: string, targetPath: string, fuel: nat)
    requires fuel > 0
    ensures var r := Follow(t, fs, im, sourcePath, targetPath, fuel);
      r.0.Ok? ==> OnlyWrote(fs, r.1, r.0.value.writtenFiles)
    decreases fuel, 0, 0
  {
    var source := ImportSource(t, sourcePath, im);
    if source in fs {
      var target := ImportTarget(t, targetPath, fs[source]);
      var child := Walk(t, fs, fs[source], source, target, fuel - 1);
      WalkFrame(t, fs, fs[source], source, target, fuel - 1);
      if child.0.Ok? && CompileTypescript(t, child.0.value.code).Ok? {
        var written := child.0.value.writtenFiles;
        assert target in written by {
          assert written[|written| - 1] == target;
        }
        OnlyWroteOneMore(fs, child.1, written, target, CompileTypescript(t, child.0.value.code).value);
      }
    }
  }
}
