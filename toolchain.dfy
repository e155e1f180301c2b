/// The compilers main.ts calls while it walks the pages. The names it imports,
/// `compileAstro`, `compileTypescript` and `parseTsImports`, are the cache-aside wrappers
/// `cachedCompileAstro` of astro-compiler.ts and `cachedCompileTypescript` and
/// `cachedParseTsImports` of typescript.ts: each looks the hash of its input up in the
/// `miniastro` cache and only on a miss loads the wasm module and calls the compiler.
///
/// The tools hold the entries each namespace has when the build starts. The build's own
/// misses add entries as it goes; `AstroCacheStable` and `TsCacheStable` show that those
/// change no answer, so the entries at the start decide every call. Each load is the one
/// outcome every call of the build meets: once it succeeds the flag keeps the module
/// loaded, and a failed load fails the call that made it and stores nothing.
module Toolchain {
  import opened Js
  import opened Hash
  import opened Artifacts
  import opened Paths
  import opened ResponseCache
  import AstroCompiler
  import TypeScript

  datatype Tools = Tools(
    astroLoad: Outcome,                                   // `loadAstroIfNeeded`
    astroCompile: string -> Result<AstroCompileResult>,   // the loaded compiler, see `IsAstroCompiler`
    astroEntries: map<string, AstroCompileResult>,        // `https://astro.compiler/` entries
    swcLoad: Outcome,                                     // `loadSwcIfNeeded`
    swcTransform: string -> Foreign<string>,              // SWC's `transform`
    swcParse: string -> Foreign<seq<ModuleItem>>,         // SWC's `parse`
    tsCode: map<string, string>,                          // `https://ts.compiler/` entries
    tsImports: map<string, seq<ImportRef>>,               // `https://ts.parser/` entries
    digester: Digester,
    paths: PathOps
  )

  /** The tools' loaded Astro compiler is astro-compiler.ts's: `transform`, then the
    * post-processing, or the compiler's rejection passed on. */
  ghost predicate IsAstroCompiler(t: Tools, transform: string -> Foreign<TransformResult>) {
    forall content :: t.astroCompile(content) == AstroCompiler.CompileLoaded(transform, content)
  }

  /** `compileAstro` of astro-compiler.ts, uncached: load, then compile. */
  function AstroUncached(t: Tools, content: string): Result<AstroCompileResult> {
    if t.astroLoad.Failed? then Err(AstroCompiler.LoadError(t.astroLoad.reason))
    else t.astroCompile(content)
  }

  /** `compileTypescript` of typescript.ts, uncached. */
  function TypescriptUncached(t: Tools, input: string): Result<string> {
    if t.swcLoad.Failed? then Err(TypeScript.LoadError(t.swcLoad.reason))
    else TypeScript.TransformLoaded(t.swcTransform, input)
  }

  /** `parseTsImports` of typescript.ts, uncached. */
  function ParseUncached(t: Tools, input: string): Result<seq<ImportRef>> {
    if t.swcLoad.Failed? then Err(TypeScript.LoadError(t.swcLoad.reason))
    else TypeScript.ParseLoaded(t.swcParse, input)
  }

  /** `cachedCompileAstro(content)`, imported by main.ts as `compileAstro`. */
  function CompileAstro(t: Tools, content: string): Result<AstroCompileResult> {
    Cached(t.astroEntries, AstroCompiler.AstroKey(t.digester, content), AstroUncached(t, content))
  }

  /** `cachedCompileTypescript(input)`, imported by main.ts as `compileTypescript`. */
  function CompileTypescript(t: Tools, input: string): Result<string> {
    Cached(t.tsCode, TypeScript.TsCompilerKey(t.digester, input), TypescriptUncached(t, input))
  }

  /** `cachedParseTsImports(input)`, imported by main.ts as `parseTsImports`. */
  function ParseTsImports(t: Tools, input: string): Result<seq<ImportRef>> {
    Cached(t.tsImports, TypeScript.TsParserKey(t.digester, input), ParseUncached(t, input))
  }

  /** `hashString(input, { truncateToLength: 8 })`, the name of an emitted script. */
  function Hash8(t: Tools, input: string): string {
    HashString(t.digester, input, TruncateTo(8))
  }

  /** The Astro entries are what the loaded compiler made of sources with their keys. */
  ghost predicate AstroLawful(t: Tools, entries: map<string, AstroCompileResult>) {
    Lawful(entries, AstroCompiler.KeyOf(t.digester), t.astroCompile)
  }

  /** The script entries are what the loaded SWC made of inputs with their keys. */
  ghost predicate TsLawful(t: Tools, code: map<string, string>, imports: map<string, seq<ImportRef>>) {
    && Lawful(code, TypeScript.CompilerKeyOf(t.digester), TypeScript.TransformedOf(t.swcTransform))
    && Lawful(imports, TypeScript.ParserKeyOf(t.digester), TypeScript.ParsedOf(t.swcParse))
  }

  /** The entries a coherent `AstroCompiler.Astro` store holds are lawful for tools whose
    * compiler is that class's. */
  lemma CoherentStoreIsLawful(t: Tools, transform: string -> Foreign<TransformResult>, entries: map<string, AstroCompileResult>)
    requires IsAstroCompiler(t, transform)
    requires Lawful(entries, AstroCompiler.KeyOf(t.digester), AstroCompiler.LoadedOf(transform))
    ensures AstroLawful(t, entries)
  {
    forall k | k in entries
      ensures StoredFrom(AstroCompiler.KeyOf(t.digester), t.astroCompile, k, entries[k])
    {
      var x :| AstroCompiler.KeyOf(t.digester)(x) == k && AstroCompiler.LoadedOf(transform)(x) == Ok(entries[k]);
      assert t.astroCompile(x) == AstroCompiler.CompileLoaded(transform, x);
    }
  }

  /** No other source shares the Astro cache key of `content`. */
  ghost predicate AstroUnshared(t: Tools, content: string) {
    Unshared(AstroCompiler.KeyOf(t.digester), content)
  }

  /** `later` holds every entry of `before`, unchanged. */
  ghost predicate Extends<V>(before: map<string, V>, later: map<string, V>) {
    forall k :: k in before ==> k in later && later[k] == before[k]
  }

  /** An input whose key is in the cache is answered from it whatever the loads turn out to
    * be: a build whose every source is cached needs no compiler. */
  lemma WarmCacheNeedsNoLoad(t: Tools, astroLoad: Outcome, swcLoad: Outcome, input: string)
    ensures AstroCompiler.AstroKey(t.digester, input) in t.astroEntries ==>
      CompileAstro(t.(astroLoad := astroLoad), input) == CompileAstro(t, input) == Ok(t.astroEntries[AstroCompiler.AstroKey(t.digester, input)])
    ensures TypeScript.TsCompilerKey(t.digester, input) in t.tsCode ==>
      CompileTypescript(t.(swcLoad := swcLoad), input) == CompileTypescript(t, input) == Ok(t.tsCode[TypeScript.TsCompilerKey(t.digester, input)])
    ensures TypeScript.TsParserKey(t.digester, input) in t.tsImports ==>
      ParseTsImports(t.(swcLoad := swcLoad), input) == ParseTsImports(t, input) == Ok(t.tsImports[TypeScript.TsParserKey(t.digester, input)])
  {
  }

  /** With lawful entries, a source no other shares its hash with and a compiler that
    * loads, the cached `compileAstro` answers as the uncached one. */
  lemma AstroCacheTransparent(t: Tools, content: string)
    requires t.astroLoad.Succeeded? && AstroLawful(t, t.astroEntries) && AstroUnshared(t, content)
    ensures CompileAstro(t, content) == AstroUncached(t, content) == t.astroCompile(content)
  {
    CachedTransparent(t.astroEntries, AstroCompiler.KeyOf(t.digester), t.astroCompile, content);
  }

  /** With lawful entries, a successful answer for a source no other shares its hash with is
    * the loaded compiler's, whether it came from the cache or from the compiler. */
  lemma AstroAnswerIsCompiled(t: Tools, content: string)
    requires AstroLawful(t, t.astroEntries) && AstroUnshared(t, content)
    requires CompileAstro(t, content).Ok?
    ensures CompileAstro(t, content) == t.astroCompile(content)
  {
    var keyOf := AstroCompiler.KeyOf(t.digester);
    assert keyOf(content) == AstroCompiler.AstroKey(t.digester, content);
    CachedTransparent(t.astroEntries, keyOf, t.astroCompile, content);
  }

  /** The entries the build adds to the Astro namespace, each stored by a compilation that
    * loaded (a failed load stores nothing), leave the answer for a source no other shares
    * its hash with as the entries at the start give it. */
  lemma AstroCacheStable(t: Tools, later: map<string, AstroCompileResult>, content: string)
    requires Extends(t.astroEntries, later)
    requires forall k :: k in later && k !in t.astroEntries ==>
      StoredFrom(AstroCompiler.KeyOf(t.digester), t.astroCompile, k, later[k])
    requires t.astroLoad.Failed? ==> later == t.astroEntries
    requires AstroUnshared(t, content)
    ensures CompileAstro(t.(astroEntries := later), content) == CompileAstro(t, content)
  {
    var keyOf := AstroCompiler.KeyOf(t.digester);
    assert keyOf(content) == AstroCompiler.AstroKey(t.digester, content);
    CachedStable(t.astroEntries, later, keyOf, t.astroCompile, AstroUncached(t, content), content);
  }

  /** With lawful entries, an input no other shares its hashes with and an SWC that loads,
    * the cached `compileTypescript` and `parseTsImports` answer as the uncached ones. */
  lemma TsCacheTransparent(t: Tools, input: string)
    requires t.swcLoad.Succeeded? && TsLawful(t, t.tsCode, t.tsImports)
    requires Unshared(TypeScript.CompilerKeyOf(t.digester), input) && Unshared(TypeScript.ParserKeyOf(t.digester), input)
    ensures CompileTypescript(t, input) == TypescriptUncached(t, input) == TypeScript.TransformLoaded(t.swcTransform, input)
    ensures ParseTsImports(t, input) == ParseUncached(t, input) == TypeScript.ParseLoaded(t.swcParse, input)
  {
    CachedTransparent(t.tsCode, TypeScript.CompilerKeyOf(t.digester), TypeScript.TransformedOf(t.swcTransform), input);
    CachedTransparent(t.tsImports, TypeScript.ParserKeyOf(t.digester), TypeScript.ParsedOf(t.swcParse), input);
  }

  /** The entries the build adds to the two script namespaces, each stored by a call that
    * loaded SWC, leave the answers for an input no other shares its hashes with as the
    * entries at the start give them. */
  lemma TsCacheStable(t: Tools, code: map<string, string>, imports: map<string, seq<ImportRef>>, input: string)
    requires Extends(t.tsCode, code) && Extends(t.tsImports, imports)
    requires forall k :: k in code && k !in t.tsCode ==>
      StoredFrom(TypeScript.CompilerKeyOf(t.digester), TypeScript.TransformedOf(t.swcTransform), k, code[k])
    requires forall k :: k in imports && k !in t.tsImports ==>
      StoredFrom(TypeScript.ParserKeyOf(t.digester), TypeScript.ParsedOf(t.swcParse), k, imports[k])
    requires t.swcLoad.Failed? ==> code == t.tsCode && imports == t.tsImports
    requires Unshared(TypeScript.CompilerKeyOf(t.digester), input) && Unshared(TypeScript.ParserKeyOf(t.digester), input)
    ensures CompileTypescript(t.(tsCode := code, tsImports := imports), input) == CompileTypescript(t, input)
    ensures ParseTsImports(t.(tsCode := code, tsImports := imports), input) == ParseTsImports(t, input)
  {
    var compilerKey, parserKey := TypeScript.CompilerKeyOf(t.digester), TypeScript.ParserKeyOf(t.digester);
    assert compilerKey(input) == TypeScript.TsCompilerKey(t.digester, input);
    assert parserKey(input) == TypeScript.TsParserKey(t.digester, input);
    CachedStable(t.tsCode, code, compilerKey, TypeScript.TransformedOf(t.swcTransform), TypescriptUncached(t, input), input);
    CachedStable(t.tsImports, imports, parserKey, TypeScript.ParsedOf(t.swcParse), ParseUncached(t, input), input);
  }
}
