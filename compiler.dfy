/// compiler.ts: the older, uncached compile step. It initialises the Astro compiler on
/// every call, post-processes the code as astro-compiler.ts does, refuses external
/// scripts and compiles each inline script with SWC, naming it by its content hash.
/// Its `hash` import is read as `hashString` of hash.ts.
module Compiler {
  import opened Js
  import opened Hash
  import opened Artifacts
  import opened AstroPostProcess

  /** The foreign steps of `compileAstro`. */
  datatype Tools = Tools(
    initialize: Outcome,                          // `Compiler.initialize({ wasmURL })`
    transform: string -> Foreign<TransformResult>,    // `Compiler.transform`
    swcTransform: string -> Foreign<string>,          // `transform` of swc.ts
    digester: Digester
  )

  /** `{ hash, code }` of one inline script: its 8-character hash and its compiled code. */
  function CompileScript(tools: Tools, code: string): Result<CompiledScript> {
    match tools.swcTransform(code)
    case Fulfilled(js) => Ok(CompiledScript(HashString(tools.digester, code, TruncateTo(8)), js))
    case Rejected(e) => Err(Propagated(e))
  }

  /** The scripts compiled one by one, in input order; the first failure is the result. */
  function CompileScripts(tools: Tools, scripts: seq<Script>): (r: Result<seq<CompiledScript>>)
    ensures r.Ok? ==> |r.value| == |scripts| && forall i :: 0 <= i < |scripts| ==>
      scripts[i].Inline? && CompileScript(tools, scripts[i].code) == Ok(r.value[i])
  {
    if scripts == [] then Ok([])
    else
      match scripts[0]
      case External(src) => Err(ExternalError(src))
      case Inline(code) =>
        match CompileScript(tools, code)
        case Err(e) => Err(e)
        case Ok(first) =>
          match CompileScripts(tools, scripts[1..])
          case Err(e) => Err(e)
          case Ok(rest) => Ok([first] + rest)
  }

  /** `compileAstro` of compiler.ts. An external script is refused before any inline script
    * finishes compiling, since the refusal happens before the first `await`. */
  function CompileAstro(tools: Tools, content: string): Result<CompileResult> {
    if tools.initialize.Failed? then Err(Propagated(tools.initialize.reason))
    else
      match tools.transform(content)
      case Rejected(e) => Err(Propagated(e))
      case Fulfilled(tr) =>
        match FirstExternal(tr.scripts)
        case Some(i) => Err(ExternalError(tr.scripts[i].src))
        case None =>
          match CompileScripts(tools, tr.scripts)
          case Err(e) => Err(e)
          case Ok(scripts) =>
            Ok(CompileResult(PostProcessCode(tr.code), CompileMetadata(tr.css, tr.rest, ImportSpecifiers(tr.code), scripts)))
  }

  /** Any external script makes the compilation fail with the first one. */
  lemma ExternalScriptRejected(tools: Tools, content: string, tr: TransformResult, i: nat)
    requires tools.initialize.Succeeded? && tools.transform(content) == Fulfilled(tr)
    requires i < |tr.scripts| && tr.scripts[i].External?
    ensures CompileAstro(tools, content).Err?
    ensures exists j ::
      0 <= j <= i && tr.scripts[j].External? && CompileAstro(tools, content) == Err(ExternalError(tr.scripts[j].src))
  {
    var j := FirstExternal(tr.scripts).value;
    assert j <= i;
  }

  /** A successful compilation: the code post-processed as in astro-compiler.ts, the specifiers
    * of the untransformed code, the other metadata as it came, and every script inline and
    * tagged with its 8-character hash, in input order. */
  lemma CompileAstroOk(tools: Tools, content: string)
    requires CompileAstro(tools, content).Ok?
    ensures tools.initialize.Succeeded? && tools.transform(content).Fulfilled?
    ensures var tr := tools.transform(content).value;
      var res := CompileAstro(tools, content).value;
      && res.code == PostProcess(tr).code
      && res.metadata.importedModules == PostProcess(tr).importedModules
      && res.metadata.css == tr.css && res.metadata.rest == tr.rest
      && |res.metadata.scripts| == |tr.scripts|
      && forall i :: 0 <= i < |tr.scripts| ==>
           tr.scripts[i].Inline? &&
           res.metadata.scripts[i].hash == HashString(tools.digester, tr.scripts[i].code, TruncateTo(8)) &&
           tools.swcTransform(tr.scripts[i].code) == Fulfilled(res.metadata.scripts[i].code)
  {
  }
}
