/// The values the compilers hand back and the build passes around.
module Artifacts {
  import opened Js

  /** A `<script>` the Astro compiler hoisted out of a component. */
  datatype Script =
    | Inline(code: string)   // `{ type: 'inline', code }`
    | External(src: string)  // `{ type: 'external', src }`

  /** How the build refuses an external script: `Error('external scripts are not supported', { cause })`. */
  function ExternalError(src: string): Error {
    Thrown("external scripts are not supported", ScriptCause(src))
  }

  /** The position of the first external script, if any. */
  function FirstExternal(scripts: seq<Script>): (r: Option<nat>)
    ensures r.None? ==> forall i :: 0 <= i < |scripts| ==> scripts[i].Inline?
    ensures r.Some? ==> r.value < |scripts| && scripts[r.value].External?
    ensures r.Some? ==> forall j :: 0 <= j < r.value ==> scripts[j].Inline?
  {
    if scripts == [] then None
    else if scripts[0].External? then Some(0)
    else
      match FirstExternal(scripts[1..])
      case None => None
      case Some(i) => Some(i + 1)
  }

  /** The fields of the Astro compiler's output that the build passes along untouched. */
  type Metadata = map<string, string>

  /** What the Astro compiler's `transform` returns. */
  datatype TransformResult = TransformResult(code: string, css: seq<string>, scripts: seq<Script>, rest: Metadata)

  /** What `compileAstro` of astro-compiler.ts returns: the transform result with its code post-processed. */
  datatype AstroCompileResult = AstroCompileResult(
    code: string,
    css: seq<string>,
    scripts: seq<Script>,
    importedModules: seq<string>,
    rest: Metadata
  )

  /** Offsets into a source text, as SWC reports them. */
  datatype Span = Span(start: int, end: int)

  /** One entry of `parseTsImports`' result. */
  datatype ImportRef = ImportRef(specifier: string, span: Span)

  /** What SWC's `parse` gives for one item of a module body. */
  datatype ModuleItem =
    | ImportDeclaration(source: string, sourceSpan: Span)   // `import … from '<source>'`, the span covering the quoted source
    | OtherItem

  /** `{ hash, code }`: an inline script of compiler.ts, named by its content hash. */
  datatype CompiledScript = CompiledScript(hash: string, code: string)

  /** The metadata compiler.ts returns next to the code. */
  datatype CompileMetadata = CompileMetadata(
    css: seq<string>,
    rest: Metadata,
    importedModules: seq<string>,
    scripts: seq<CompiledScript>
  )

  /** What `compileAstro` of compiler.ts returns. */
  datatype CompileResult = CompileResult(code: string, metadata: CompileMetadata)

  /** A component to compile: where its source is read and where its compiled form is written. */
  datatype Compilation = Compilation(source: string, target: string)
}
