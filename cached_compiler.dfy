/// cachedCompiler.ts: compiler.ts's `compileAstro` behind the content-addressed cache,
/// under the `https://astro.compiler/` namespace.
module CachedCompiler {
  import opened Js
  import opened Hash
  import opened Artifacts
  import opened ResponseCache
  import Compiler

  function CacheKey(d: Digester, content: string): string {
    Key(AstroNamespace, HashString(d, content, NoOptions))
  }

  function KeyOf(d: Digester): string -> string {
    (content: string) => CacheKey(d, content)
  }

  class CachedCompiler {
    const store: Store<CompileResult>
    const transform: string -> Foreign<TransformResult>
    const swcTransform: string -> Foreign<string>
    const digester: Digester
    /** The sources handed to `uncachedCompile`, in order. */
    ghost var compiledInputs: seq<string>

    /** The foreign steps of one `uncachedCompile` call, whose initialisation had outcome `init`. */
    function ToolsFor(init: Outcome): Compiler.Tools {
      Compiler.Tools(init, transform, swcTransform, digester)
    }

    /** What an initialised compiler makes of each source. */
    function Compiled(): string -> Result<CompileResult> {
      (content: string) => Compiler.CompileAstro(ToolsFor(Succeeded), content)
    }

    /** Every stored result is the compilation of some source with the same key. */
    ghost predicate Coherent(entries: map<string, CompileResult>) {
      Lawful(entries, KeyOf(digester), Compiled())
    }

    ghost predicate CompiledFrom(k: string, v: CompileResult) {
      StoredFrom(KeyOf(digester), Compiled(), k, v)
    }

    lemma PutKeepsCoherent(entries: map<string, CompileResult>, key: string, v: CompileResult)
      requires Coherent(entries) && CompiledFrom(key, v)
      ensures Coherent(entries[key := v])
    {
    }

    /** A compilation that succeeded initialised the compiler, so its result is stored lawfully. */
    lemma FreshlyCompiled(content: string, init: Outcome)
      requires Compiler.CompileAstro(ToolsFor(init), content).Ok?
      ensures CompiledFrom(CacheKey(digester, content), Compiler.CompileAstro(ToolsFor(init), content).value)
    {
      Compiler.CompileAstroOk(ToolsFor(init), content);
      assert ToolsFor(init) == ToolsFor(Succeeded);
      var v := Compiler.CompileAstro(ToolsFor(init), content).value;
      assert KeyOf(digester)(content) == CacheKey(digester, content) && Compiled()(content) == Ok(v);
    }

    constructor (store: Store<CompileResult>, transform: string -> Foreign<TransformResult>,
                 swcTransform: string -> Foreign<string>, digester: Digester)
      ensures this.store == store && this.transform == transform
      ensures this.swcTransform == swcTransform && this.digester == digester
      ensures compiledInputs == []
    {
      this.store := store;
      this.transform := transform;
      this.swcTransform := swcTransform;
      this.digester := digester;
      compiledInputs := [];
    }

    /** `compile`: a hit returns the stored result without compiling; a miss compiles once,
      * stores a success under the key and returns the fresh result. */
    method Compile(content: string, init: Outcome) returns (r: Result<CompileResult>)
      modifies this`compiledInputs, store
      ensures var key := CacheKey(digester, content);
        key in old(store.entries) ==>
          && r == Ok(old(store.entries)[key])
          && store.entries == old(store.entries)
          && compiledInputs == old(compiledInputs)
      ensures var key := CacheKey(digester, content);
        key !in old(store.entries) ==>
          && compiledInputs == old(compiledInputs) + [content]
          && r == Compiler.CompileAstro(ToolsFor(init), content)
          && (r.Ok? ==> store.entries == old(store.entries)[key := r.value])
          && (r.Err? ==> store.entries == old(store.entries))
      ensures Coherent(old(store.entries)) ==> Coherent(store.entries)
      ensures Coherent(old(store.entries)) && r.Ok? ==> CompiledFrom(CacheKey(digester, content), r.value)
    {
      var key := CacheKey(digester, content);
      var cached := store.Match(key);
      if cached.Some? {
        return Ok(cached.value);
      }
      compiledInputs := compiledInputs + [content];
      r := Compiler.CompileAstro(ToolsFor(init), content);
      if r.Ok? {
        FreshlyCompiled(content, init);
        if Coherent(store.entries) {
          PutKeepsCoherent(store.entries, key, r.value);
        }
        store.Put(key, r.value);
      }
    }
  }
}
