/// typescript.ts: SWC's `transform` and `parse` behind a load flag and two
/// content-addressed caches, and the import list `parseTsImports` extracts.
module TypeScript {
  import opened Js
  import opened Hash
  import opened Artifacts
  import opened ResponseCache

  // ---------------------------------------------------------------------------
  // The import list

  /** `ast.body.flatMap(x => x.type !== 'ImportDeclaration' ? [] : [{ specifier, span }])`:
    * one entry per import declaration, in body order, whose span keeps the start of the
    * quoted source and ends two before its end. */
  function ImportsOf(body: seq<ModuleItem>): (r: seq<ImportRef>)
    ensures |r| <= |body|
  {
    if body == [] then []
    else
      match body[0]
      case ImportDeclaration(source, span) => [ImportRef(source, Span(span.start, span.end - 2))] + ImportsOf(body[1..])
      case OtherItem => ImportsOf(body[1..])
  }

  /** The entry `parseTsImports` makes of one import declaration. */
  function RefOf(item: ModuleItem): ImportRef
    requires item.ImportDeclaration?
  {
    ImportRef(item.source, Span(item.sourceSpan.start, item.sourceSpan.end - 2))
  }

  /** The import declarations of a body, in order. */
  function Declarations(body: seq<ModuleItem>): (r: seq<ModuleItem>)
    ensures forall k :: 0 <= k < |r| ==> r[k].ImportDeclaration?
  {
    if body == [] then []
    else if body[0].ImportDeclaration? then [body[0]] + Declarations(body[1..])
    else Declarations(body[1..])
  }

  /** The `flatMap` is a filter of the import declarations followed by a map of each to its entry. */
  lemma {:induction false} ImportsOfIsFilterThenMap(body: seq<ModuleItem>)
    ensures var ds := Declarations(body);
      |ImportsOf(body)| == |ds| &&
      forall k :: 0 <= k < |ds| ==> ImportsOf(body)[k] == RefOf(ds[k])
  {
    if body != [] {
      ImportsOfIsFilterThenMap(body[1..]);
    }
  }

  // ---------------------------------------------------------------------------
  // The cached compiler and parser

  function TsCompilerKey(d: Digester, input: string): string {
    Key(TsCompilerNamespace, HashString(d, input, NoOptions))
  }

  function TsParserKey(d: Digester, input: string): string {
    Key(TsParserNamespace, HashString(d, input, NoOptions))
  }

  /** What `compileTypescript` yields once SWC is loaded. */
  function TransformLoaded(transform: string -> Foreign<string>, input: string): Result<string> {
    match transform(input)
    case Fulfilled(code) => Ok(code)
    case Rejected(e) => Err(Thrown("SWC failed to tranform source code: " + e, InputCause(input)))
  }

  /** What `parseTsImports` yields once SWC is loaded. */
  function ParseLoaded(parse: string -> Foreign<seq<ModuleItem>>, input: string): Result<seq<ImportRef>> {
    match parse(input)
    case Fulfilled(body) => Ok(ImportsOf(body))
    case Rejected(e) => Err(Thrown("SWC failed to parse input: " + e, InputCause(input)))
  }

  function CompilerKeyOf(d: Digester): string -> string {
    (input: string) => TsCompilerKey(d, input)
  }

  function ParserKeyOf(d: Digester): string -> string {
    (input: string) => TsParserKey(d, input)
  }

  /** What the loaded SWC makes of each input, compiling and parsing. */
  function TransformedOf(transform: string -> Foreign<string>): string -> Result<string> {
    (input: string) => TransformLoaded(transform, input)
  }

  function ParsedOf(parse: string -> Foreign<seq<ModuleItem>>): string -> Result<seq<ImportRef>> {
    (input: string) => ParseLoaded(parse, input)
  }

  /** How `loadSwcIfNeeded` fails. */
  function LoadError(reason: string): Error {
    Thrown("SWC failed to load: " + reason, NoCause)
  }

  class Swc {
    var swcLoaded: bool
    const compiled: Store<string>
    const parsed: Store<seq<ImportRef>>
    const transform: string -> Foreign<string>
    const parse: string -> Foreign<seq<ModuleItem>>
    const digester: Digester
    /** The inputs handed to SWC's `transform` and `parse`, in order. */
    ghost var transformed: seq<string>
    ghost var parsedInputs: seq<string>

    /** Every stored output is what SWC makes of some input with the same key. */
    ghost predicate Coherent(code: map<string, string>, imports: map<string, seq<ImportRef>>) {
      && Lawful(code, CompilerKeyOf(digester), TransformedOf(transform))
      && Lawful(imports, ParserKeyOf(digester), ParsedOf(parse))
    }

    constructor (compiled: Store<string>, parsed: Store<seq<ImportRef>>, transform: string -> Foreign<string>,
                 parse: string -> Foreign<seq<ModuleItem>>, digester: Digester)
      requires compiled as object != parsed as object
      ensures !swcLoaded && transformed == [] && parsedInputs == []
      ensures this.compiled == compiled && this.parsed == parsed
      ensures this.transform == transform && this.parse == parse && this.digester == digester
    {
      swcLoaded := false;
      this.compiled := compiled;
      this.parsed := parsed;
      this.transform := transform;
      this.parse := parse;
      this.digester := digester;
      transformed := [];
      parsedInputs := [];
    }

    /** `loadSwcIfNeeded`: `'ok'` at once when loaded, otherwise the load's outcome; the flag is
      * set only by a load that succeeded. */
    method LoadSwcIfNeeded(load: Outcome) returns (r: Result<()>)
      modifies this`swcLoaded
      ensures old(swcLoaded) ==> r == Ok(()) && swcLoaded
      ensures !old(swcLoaded) && load.Succeeded? ==> r == Ok(()) && swcLoaded
      ensures !old(swcLoaded) && load.Failed? ==> r == Err(LoadError(load.reason)) && !swcLoaded
    {
      if swcLoaded {
        return Ok(());
      }
      match load
      case Succeeded =>
        swcLoaded := true;
        r := Ok(());
      case Failed(e) =>
        r := Err(LoadError(e));
    }

    /** `compileTypescript`. */
    method CompileTypescript(input: string, load: Outcome) returns (r: Result<string>)
      modifies this`swcLoaded, this`transformed
      ensures swcLoaded == (old(swcLoaded) || load.Succeeded?)
      ensures swcLoaded ==> transformed == old(transformed) + [input] && r == TransformLoaded(transform, input)
      ensures !swcLoaded ==> transformed == old(transformed) && r == Err(LoadError(load.reason))
    {
      var loading := LoadSwcIfNeeded(load);
      if loading.Err? {
        return Err(loading.error);
      }
      transformed := transformed + [input];
      r := TransformLoaded(transform, input);
    }

    /** `parseTsImports`. */
    method ParseTsImports(input: string, load: Outcome) returns (r: Result<seq<ImportRef>>)
      modifies this`swcLoaded, this`parsedInputs
      ensures swcLoaded == (old(swcLoaded) || load.Succeeded?)
      ensures swcLoaded ==> parsedInputs == old(parsedInputs) + [input] && r == ParseLoaded(parse, input)
      ensures !swcLoaded ==> parsedInputs == old(parsedInputs) && r == Err(LoadError(load.reason))
    {
      var loading := LoadSwcIfNeeded(load);
      if loading.Err? {
        return Err(loading.error);
      }
      parsedInputs := parsedInputs + [input];
      r := ParseLoaded(parse, input);
    }

    /** `cachedCompileTypescript`: a hit returns the stored code and calls nothing; a miss
      * compiles once and stores a success. The import cache is not touched. */
    method CachedCompileTypescript(input: string, load: Outcome) returns (r: Result<string>)
      requires compiled as object != parsed as object
      modifies this`swcLoaded, this`transformed, compiled
      ensures parsedInputs == old(parsedInputs)
      ensures var key := TsCompilerKey(digester, input);
        key in old(compiled.entries) ==>
          && r == Ok(old(compiled.entries)[key])
          && compiled.entries == old(compiled.entries)
          && transformed == old(transformed)
          && swcLoaded == old(swcLoaded)
      ensures var key := TsCompilerKey(digester, input);
        key !in old(compiled.entries) ==>
          && swcLoaded == (old(swcLoaded) || load.Succeeded?)
          && (swcLoaded ==> transformed == old(transformed) + [input] && r == TransformLoaded(transform, input))
          && (!swcLoaded ==> transformed == old(transformed) && r == Err(LoadError(load.reason)))
          && (r.Ok? ==> compiled.entries == old(compiled.entries)[key := r.value])
          && (r.Err? ==> compiled.entries == old(compiled.entries))
      ensures Coherent(old(compiled.entries), parsed.entries) ==> Coherent(compiled.entries, parsed.entries)
      ensures Coherent(old(compiled.entries), parsed.entries) && r.Ok? ==> StoredFrom(CompilerKeyOf(digester), TransformedOf(transform), TsCompilerKey(digester, input), r.value)
    {
      var key := TsCompilerKey(digester, input);
      var cached := compiled.Match(key);
      if cached.Some? {
        return Ok(cached.value);
      }
      r := CompileTypescript(input, load);
      if r.Ok? {
        assert CompilerKeyOf(digester)(input) == key && TransformedOf(transform)(input) == Ok(r.value);
        if Coherent(compiled.entries, parsed.entries) {
          PutKeepsLawful(compiled.entries, CompilerKeyOf(digester), TransformedOf(transform), input, r.value);
        }
        compiled.Put(key, r.value);
      }
    }

    /** `cachedParseTsImports`: a hit returns the stored imports and calls nothing; a miss
      * parses once and stores a success. The code cache is not touched. */
    method CachedParseTsImports(input: string, load: Outcome) returns (r: Result<seq<ImportRef>>)
      requires compiled as object != parsed as object
      modifies this`swcLoaded, this`parsedInputs, parsed
      ensures transformed == old(transformed)
      ensures var key := TsParserKey(digester, input);
        key in old(parsed.entries) ==>
          && r == Ok(old(parsed.entries)[key])
          && parsed.entries == old(parsed.entries)
          && parsedInputs == old(parsedInputs)
          && swcLoaded == old(swcLoaded)
      ensures var key := TsParserKey(digester, input);
        key !in old(parsed.entries) ==>
          && swcLoaded == (old(swcLoaded) || load.Succeeded?)
          && (swcLoaded ==> parsedInputs == old(parsedInputs) + [input] && r == ParseLoaded(parse, input))
          && (!swcLoaded ==> parsedInputs == old(parsedInputs) && r == Err(LoadError(load.reason)))
          && (r.Ok? ==> parsed.entries == old(parsed.entries)[key := r.value])
          && (r.Err? ==> parsed.entries == old(parsed.entries))
      ensures Coherent(compiled.entries, old(parsed.entries)) ==> Coherent(compiled.entries, parsed.entries)
      ensures Coherent(compiled.entries, old(parsed.entries)) && r.Ok? ==> StoredFrom(ParserKeyOf(digester), ParsedOf(parse), TsParserKey(digester, input), r.value)
    {
      var key := TsParserKey(digester, input);
      var cached := parsed.Match(key);
      if cached.Some? {
        return Ok(cached.value);
      }
      r := ParseTsImports(input, load);
      if r.Ok? {
        assert ParserKeyOf(digester)(input) == key && ParsedOf(parse)(input) == Ok(r.value);
        if Coherent(compiled.entries, parsed.entries) {
          PutKeepsLawful(parsed.entries, ParserKeyOf(digester), ParsedOf(parse), input, r.value);
        }
        parsed.Put(key, r.value);
      }
    }
  }
}
