/// astro-compiler.ts: the Astro compiler behind a load flag and a content-addressed cache.
/// The compiler's `transform` is a function of the component source; loading its wasm
/// module is an outcome handed to each call that may need it.
module AstroCompiler {
  import opened Js
  import opened Hash
  import opened Artifacts
  import opened ResponseCache
  import opened AstroPostProcess

  /** The key a component's compiled form is stored under: `https://astro.compiler/` and the
    * 32-character hash of its source. */
  function AstroKey(d: Digester, content: string): (k: string)
    ensures AstroNamespace <= k
  {
    Key(AstroNamespace, HashString(d, content, NoOptions))
  }

  /** What `compileAstro` yields once the compiler is loaded: the post-processed transform
    * result, or the compiler's own rejection passed on. */
  function CompileLoaded(transform: string -> Foreign<TransformResult>, content: string): Result<AstroCompileResult> {
    match transform(content)
    case Fulfilled(tr) => Ok(PostProcess(tr))
    case Rejected(e) => Err(Propagated(e))
  }

  /** The cache key of each source. */
  function KeyOf(d: Digester): string -> string {
    (content: string) => AstroKey(d, content)
  }

  /** What the loaded compiler makes of each source. */
  function LoadedOf(transform: string -> Foreign<TransformResult>): string -> Result<AstroCompileResult> {
    (content: string) => CompileLoaded(transform, content)
  }

  /** How `loadAstroIfNeeded` fails: the wasm module did not initialise. */
  function LoadError(reason: string): Error {
    Thrown("Astro compiler failed to load: " + reason, NoCause)
  }

  class Astro {
    var astroCompilerLoaded: bool
    const cache: Store<AstroCompileResult>
    const transform: string -> Foreign<TransformResult>
    const digester: Digester
    /** The sources handed to the compiler's `transform`, in order. */
    ghost var transformed: seq<string>

    /** Every compiled form in the cache is the compiler's output for some source with the
      * same key: a hit returns what a compilation would, unless two sources share a hash. */
    ghost predicate Coherent(entries: map<string, AstroCompileResult>) {
      Lawful(entries, KeyOf(digester), LoadedOf(transform))
    }

    constructor (cache: Store<AstroCompileResult>, transform: string -> Foreign<TransformResult>, digester: Digester)
      ensures !astroCompilerLoaded && transformed == []
      ensures this.cache == cache && this.transform == transform && this.digester == digester
    {
      astroCompilerLoaded := false;
      this.cache := cache;
      this.transform := transform;
      this.digester := digester;
      transformed := [];
    }

    /** `loadAstroIfNeeded`: `'ok'` at once when loaded, otherwise the load's outcome; the
      * flag is set only by a load that succeeded. */
    method LoadAstroIfNeeded(load: Outcome) returns (r: Result<()>)
      modifies this`astroCompilerLoaded
      ensures old(astroCompilerLoaded) ==> r == Ok(()) && astroCompilerLoaded
      ensures !old(astroCompilerLoaded) && load.Succeeded? ==> r == Ok(()) && astroCompilerLoaded
      ensures !old(astroCompilerLoaded) && load.Failed? ==> r == Err(LoadError(load.reason)) && !astroCompilerLoaded
    {
      if astroCompilerLoaded {
        return Ok(());
      }
      match load
      case Succeeded =>
        astroCompilerLoaded := true;
        r := Ok(());
      case Failed(e) =>
        r := Err(LoadError(e));
    }

    /** `compileAstro`: load if needed, transform once, post-process. */
    method CompileAstro(content: string, load: Outcome) returns (r: Result<AstroCompileResult>)
      modifies this`astroCompilerLoaded, this`transformed
      ensures astroCompilerLoaded == (old(astroCompilerLoaded) || load.Succeeded?)
      ensures astroCompilerLoaded ==> transformed == old(transformed) + [content] && r == CompileLoaded(transform, content)
      ensures !astroCompilerLoaded ==> transformed == old(transformed) && r == Err(LoadError(load.reason))
    {
      var loading := LoadAstroIfNeeded(load);
      if loading.Err? {
        return Err(loading.error);
      }
      transformed := transformed + [content];
      r := CompileLoaded(transform, content);
    }

    /** `cachedCompileAstro`: a hit returns the stored result and calls nothing; a miss
      * compiles once and stores a success under the key. */
    method CachedCompileAstro(content: string, load: Outcome) returns (r: Result<AstroCompileResult>)
      modifies this`astroCompilerLoaded, this`transformed, cache
      ensures var key := AstroKey(digester, content);
        key in old(cache.entries) ==>
          && r == Ok(old(cache.entries)[key])
          && cache.entries == old(cache.entries)
          && transformed == old(transformed)
          && astroCompilerLoaded == old(astroCompilerLoaded)
      ensures var key := AstroKey(digester, content);
        key !in old(cache.entries) ==>
          && astroCompilerLoaded == (old(astroCompilerLoaded) || load.Succeeded?)
          && (astroCompilerLoaded ==> transformed == old(transformed) + [content] && r == CompileLoaded(transform, content))
          && (!astroCompilerLoaded ==> transformed == old(transformed) && r == Err(LoadError(load.reason)))
          && (r.Ok? ==> cache.entries == old(cache.entries)[key := r.value])
          && (r.Err? ==> cache.entries == old(cache.entries))
      ensures Coherent(old(cache.entries)) ==> Coherent(cache.entries)
      ensures Coherent(old(cache.entries)) && r.Ok? ==> StoredFrom(KeyOf(digester), LoadedOf(transform), AstroKey(digester, content), r.value)
    {
      var key := AstroKey(digester, content);
      var cached := cache.Match(key);
      if cached.Some? {
        return Ok(cached.value);
      }
      r := CompileAstro(content, load);
      if r.Ok? {
        assert KeyOf(digester)(content) == key && LoadedOf(transform)(content) == Ok(r.value);
        if Coherent(cache.entries) {
          PutKeepsLawful(cache.entries, KeyOf(digester), LoadedOf(transform), content, r.value);
        }
        cache.Put(key, r.value);
      }
    }
  }
}
