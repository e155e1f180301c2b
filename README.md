# miniastro build pipeline, modelled in Dafny

miniastro compiles a directory of Astro page components into a Deno server. `build` does the following:

1. It lists the `.astro` files under the pages directory.
2. For each page, it walks the graph of components the page imports. Each component is compiled by `cachedCompileAstro`, which answers from the `miniastro` cache by content hash and only on a miss loads and calls the Astro compiler, and is written as a `.ts` module. Each component's inline `<script>`s are walked through their own `./` imports, compiled and parsed by `cachedCompileTypescript` and `cachedParseTsImports` (cached likewise, calling SWC on a miss) and written under content-hash names.
3. It gathers each page's styles and script files into a route.
4. It writes the runtime and a `server.ts` entry point that imports every page and lists the routes.

The model covers the following:

- the build;
- the two worklists (components, and scripts with import rewriting);
- the directory scan;
- route and entry-point generation;
- the caching compiler wrappers of `astro-compiler.ts`, `typescript.ts`, `compiler.ts` and `cachedCompiler.ts`;
- the async-iterable helpers;
- content hashing;
- the router of `runtime.ts`.

The model has one module per concern:

- `Js`: errors, `Result`, `Option`, and how foreign promises settle.
- `JsString`: the JavaScript string operations used, regular-expression character classes, line splitting, and JSON string quoting with its inverse.
- `Collections`: `Array.from(new Set(..))` as `Dedup`, and `flat()`.
- `Paths`: `std/path`, as abstract functions.
- `Hash`: `hashString`.
- `Artifacts`: the compilers' results.
- `ResponseCache`: the Web Cache store, a class.
- `FileSystem`: the files, a class over a map.
- `Toolchain`: the cached compilers as the build calls them, with lemmas tying a cache answer to the compiler's.
- `AstroPostProcess`: the two regular expressions of `compileAstro`, decided line by line and proved equal to their regular-expression reading.
- `AstroCompiler`, `TypeScript`, `Compiler`, `CachedCompiler`: the compiler wrappers, as classes holding their load flag and cache.
- `AsyncIterable`: `map`, `filter`, `toArray` over an iterator class.
- `Runtime`: `createRouter`.
- `Routes`: `pattern`, `moduleName`, route construction and `createEntrypoint`.
- `ScriptGraph`: `recursivelyCompileWriteTsFiles`.
- `ComponentGraph`: `recursivelyCompileWriteAstroFiles`.
- `DirScan`: `readDirNested`.
- `Build`: `build`.

Code that changes files is written as methods on a `Files` object. Each such method is proved equal to a function that says what happens to the file map (for example, `ComponentGraph.CompileWriteAstroFiles` against `ComponentGraph.Walk`). The properties are proved about those functions.

The model follows the code exactly in these places:

- **Span drift.** Import specifiers are rewritten with the spans of the original script even after earlier rewrites changed its length (`ScriptGraph.SpanDrift`).
- **Imports compiled twice.** A followed import's target is written twice and listed twice (`ScriptGraph.TargetCompiledTwice`, `ScriptGraph.FollowedTargetListedTwice`).
- **`.` in `moduleName`'s pattern.** The `.` in `/.astro.ts$/` matches any character but a line terminator (`Routes.StripAstroTs`).
- **External scripts.** The write of the component's compiled file is issued at `main.ts` line 144 and awaited only at line 166. The external script is refused before that, in the `scripts.map` callback (line 147), so `writingFile` is never awaited. The build's rejection reaches `cli.ts` line 14, which does not await it. The model treats the issued write as completed and then fails (`ComponentGraph.ExternalAborts`).
- **Compiler loading.** The wrappers keep a plain `loaded` flag that only a successful load sets; a call made while a load is in flight starts another. The model keeps that flag (`AstroCompiler.Astro.LoadAstroIfNeeded`).

## Model

| member | source | states |
|---|---|---|
| Hash.HashString | hash.ts:17-23 | the hash is a prefix of the base58 text of the digest, as long as the requested length clamped the way `substring(0, n)` clamps it |
| Hash.DefaultsToSha512And32 | hash.ts:19-21 | without options, the hash is the first 32 characters of the SHA-512 digest's text |
| Hash.ShorterIsPrefix | hash.ts:21 | a shorter truncation of the same input is a prefix of a longer one |
| Hash.FileNameHashPrefixesCacheKeyHash | hash.ts:17-23 | the 8-character file-name hash is a prefix of the 32-character cache-key hash of the same text |
| Collections.Dedup | main.ts:60-61 | `Array.from(new Set(s))` holds every value of `s`, only values of `s`, none twice, and is no longer than `s` |
| Collections.DedupKeepsFirstSeenOrder | main.ts:60-61 | the deduplicated values stand in the order of their first appearance in `s` |
| Collections.InFlatten | main.ts:159 | an element is in `flat()` exactly when one of the parts holds it |
| Collections.FlattenAppend | main.ts:247 | flattening a concatenation is the concatenation of the flattenings |
| JsString.Skip | astro-compiler.ts:16 | the greedy run of a character class starting at `i`: every character up to its end is in the class, and the next one is not |
| JsString.SkipExact | astro-compiler.ts:16 | a run that stops before a character outside its class is the greedy one |
| JsString.IndexFrom | main.ts:254-255 | `indexOf` finds the first occurrence at or after `from`, and none means there is no occurrence there |
| JsString.ReplaceChar | main.ts:59 | `replaceAll` of one character removes it when the replacement lacks it, and leaves text without it unchanged; `JsString.ReplaceCharAppend` and `JsString.ReplaceCharOne` fix it character by character |
| JsString.ReplaceCharAppend | main.ts:59 | the replacement works piecewise: replacing in a concatenation is concatenating the replacements |
| JsString.ReplaceCharOne | main.ts:59 | a single character becomes the replacement when it is the replaced character and stays otherwise |
| JsString.RelativeIndex | main.ts:214 | `slice`'s index lands inside the string, and an index already inside it is kept |
| JsString.ToUpper | main.ts:271 | `toUpperCase` keeps the length and maps every character |
| JsString.ToLower | runtime.ts:21 | `toLowerCase` keeps the length and maps every character |
| JsString.DecimalString | main.ts:150 | `String(n)` is a non-empty run of digits |
| JsString.DecimalStringInjective | main.ts:150 | different numbers are written differently |
| JsString.LinesSpell | astro-compiler.ts:16-17 | the lines that `^` and `$` delimit spell the text back, and each but the last ends with one terminator |
| JsString.LinesOfFlatten | astro-compiler.ts:16-17 | cutting the concatenation of well-split lines gives those lines back |
| JsString.UnescapeEscape | main.ts:103 | the body `JSON.stringify` writes for a string reads back as that string |
| JsString.JsonRoundTrip | main.ts:103-106 | `JSON.parse(JSON.stringify(s)) == s` for every string |
| JsString.JsonStringify | main.ts:103-106 | `JSON.stringify` of a string: `JsString.JsonRoundTrip` shows `JSON.parse` reads it back as that string |
| ResponseCache.KeyDeterminesHash | astro-compiler.ts:36 | within one namespace the request URL determines the hash |
| ResponseCache.NamespacesDisjoint | typescript.ts:35 | the component, script-compile and import-parse keys never collide, whatever the hashes |
| ResponseCache.Cached | astro-compiler.ts:35-45 | cache-aside lookup: the stored value under the key, else the miss computation (`ResponseCache.CachedTransparent`, `ResponseCache.CachedStable`) |
| ResponseCache.PutKeepsLawful | astro-compiler.ts:45-49 | storing what the compiler made of an input under that input's key keeps every entry a compilation of an input with its key |
| ResponseCache.CachedTransparent | astro-compiler.ts:35-45 | with lawful entries and an input no other shares its key with, the cached answer is the uncached one |
| ResponseCache.CachedStable | astro-compiler.ts:35-49 | entries added lawfully after a lookup, with a miss stored only when it is the computation, leave the answer for an unshared input as it was |
| ResponseCache.Store.Match | astro-compiler.ts:38 | `cache.match` gives the stored value under the key, or nothing when there is none |
| ResponseCache.Store.Put | astro-compiler.ts:49 | `cache.put` stores the value under the key and changes no other entry |
| FileSystem.ReadFrom | main.ts:141 | a read succeeds exactly when the file exists, gives its text, and otherwise fails with `NotFound` of the path |
| FileSystem.Files.Read | main.ts:141 | `Deno.readTextFile` on the files object is `ReadFrom` of its contents |
| FileSystem.Files.Write | main.ts:231-235 | `mkdirWriteFile` sets the file's text and changes no other file |
| FileSystem.OnlyWroteThen | main.ts:206-225 | writing only the files of one list and then only those of another writes only files of a list holding both |
| FileSystem.OnlyWroteOneMore | main.ts:206 | writing again a file already listed keeps the list covering every write |
| Artifacts.FirstExternal | main.ts:146-147 | the first external script, every script before it inline; no position means every script is inline |
| AstroCompiler.AstroKey | astro-compiler.ts:35-36 | the cache key of a component lies in the `https://astro.compiler/` namespace |
| AstroCompiler.Astro.constructor | astro-compiler.ts:19-24 | the compiler starts unloaded, with nothing transformed |
| AstroCompiler.Astro.LoadAstroIfNeeded | astro-compiler.ts:78-86 | loaded: `ok` at once; otherwise the load's outcome, and the flag is set only by a load that succeeded |
| AstroCompiler.Astro.CompileAstro | astro-compiler.ts:54-73 | loads if needed; once loaded, transforms the source exactly once and returns the post-processed result; a failed load transforms nothing |
| AstroCompiler.Astro.CachedCompileAstro | astro-compiler.ts:29-52 | a hit returns the stored result and calls nothing; a miss compiles once and stores a success under the key and nothing on failure |
| AstroCompiler.CompileLoaded | astro-compiler.ts:59-72 | `compileAstro` after the load: the transform's rejection passed on, or the post-processed result (`AstroPostProcess.PostProcess`) |
| AstroPostProcess.PrefixEndIsLookBehind | astro-compiler.ts:16 | the computed start is `s` exactly when the look-behind `^\s*import\s+[\w$]+\s+from\s+['"]` holds at `s` |
| AstroPostProcess.PrefixEndOfExtension | astro-compiler.ts:16 | the look-behind reads only the text before the position it is tested at |
| AstroPostProcess.LastQuote | astro-compiler.ts:16 | the position of the last quote of the line, or none when it has no quote |
| AstroPostProcess.SpecifierSpan | astro-compiler.ts:16 | a found specifier is at least one character followed by `astro`, inside the line |
| AstroPostProcess.SpecifierSpanIsRegexMatch | astro-compiler.ts:16 | `SpecifierSpan` finds `(s, p)` exactly when the whole expression, look-behind, `.+astro` and look-ahead, matches there, so a line holds at most one match |
| AstroPostProcess.SpecifierSpanSound | astro-compiler.ts:16 | what is found is a match of the expression |
| AstroPostProcess.SpecifierSpanComplete | astro-compiler.ts:16 | every match of the expression is what is found |
| AstroPostProcess.SpecifierNamesAstroFile | astro-compiler.ts:16 | a matched specifier is at least one character followed by `astro` |
| AstroPostProcess.CssLineHasNoSpecifier | astro-compiler.ts:16-17 | a line the CSS-import expression matches holds no specifier match |
| AstroPostProcess.LinesOfMapLines | astro-compiler.ts:66-70 | a line-local `replaceAll` keeps the line structure: each line rewritten, its terminator kept |
| AstroPostProcess.AddTsLineOnce | astro-compiler.ts:70 | a line that got its `.ts` no longer matches the specifier expression |
| AstroPostProcess.AddTsLineIdempotent | astro-compiler.ts:70 | adding `.ts` to the specifiers twice is the same as once |
| AstroPostProcess.SpecifiersOf | astro-compiler.ts:64 | at most one specifier per line, each naming an `.astro` file |
| AstroPostProcess.ImportSpecifiersAfterRemoveCss | astro-compiler.ts:64-68 | removing the CSS imports does not change the specifiers the code holds |
| AstroPostProcess.PostProcessCode | astro-compiler.ts:66-70 | the lines of the result are the source's lines, each cleaned and with its terminator kept |
| AstroPostProcess.PostProcessLine | astro-compiler.ts:66-70 | line by line: a CSS-import line is emptied, a specifier gets `.ts` right after it, any other line is kept, and every terminator stays |
| AstroPostProcess.NoCssImportRemains | astro-compiler.ts:68 | no line of the result is a CSS import |
| AstroPostProcess.PostProcess | astro-compiler.ts:59-72 | the metadata passes through unchanged, the code is post-processed line by line, and `importedModules` holds the specifiers of the untransformed code |
| AstroPostProcess.RemoveCssImports | astro-compiler.ts:68 | `replaceAll(cssImports, '')`: `AstroPostProcess.NoCssImportRemains` and `AstroPostProcess.ImportSpecifiersAfterRemoveCss` |
| AstroPostProcess.AddTsExtensions | astro-compiler.ts:70 | `replaceAll(astroImportSpecifiers, s => s + '.ts')`, line by line: `AstroPostProcess.AddTsLineOnce`, `AstroPostProcess.AddTsLineIdempotent` |
| AstroPostProcess.ImportSpecifiers | astro-compiler.ts:64 | `_code.match(astroImportSpecifiers)`: `AstroPostProcess.SpecifiersOf` and `AstroPostProcess.SpecifierSpanIsRegexMatch` |
| TypeScript.ImportsOf | typescript.ts:103-110 | at most one entry per item of the module body |
| TypeScript.ImportsOfIsFilterThenMap | typescript.ts:103-110 | the `flatMap` is the import declarations, in order, each mapped to its specifier and its span shortened by two |
| TypeScript.Swc.constructor | typescript.ts:17-23 | SWC starts unloaded, with nothing transformed or parsed |
| TypeScript.Swc.LoadSwcIfNeeded | typescript.ts:118-128 | loaded: `ok` at once; otherwise the load's outcome, and the flag is set only by a load that succeeded |
| TypeScript.Swc.CompileTypescript | typescript.ts:53-71 | loads if needed; once loaded, transforms exactly once, with the rejection wrapped; a failed load transforms nothing |
| TypeScript.Swc.ParseTsImports | typescript.ts:94-113 | loads if needed; once loaded, parses exactly once and returns the import entries |
| TypeScript.Swc.CachedCompileTypescript | typescript.ts:28-51 | a hit returns the stored code and calls nothing; a miss compiles once and stores a success; the import cache is untouched |
| TypeScript.Swc.CachedParseTsImports | typescript.ts:73-92 | a hit returns the stored imports and calls nothing; a miss parses once and stores a success; the code cache is untouched |
| Compiler.CompileScripts | compiler.ts:41-46 | a success has one compiled script per script, in order, each inline and compiled from its code |
| Compiler.ExternalScriptRejected | compiler.ts:41-42 | any external script fails the compilation with an external script no later than it |
| Compiler.CompileAstroOk | compiler.ts:24-51 | a success: the code post-processed, the specifiers of the untransformed code, the metadata as it came, and every script inline, hashed to 8 characters and compiled |
| Compiler.CompileAstro | compiler.ts:24-51 | compiler.ts's `compileAstro`: `Compiler.CompileAstroOk` gives its success, `Compiler.ExternalScriptRejected` its refusal of external scripts |
| CachedCompiler.CachedCompiler.constructor | cachedCompiler.ts:10 | the wrapper starts with nothing compiled |
| CachedCompiler.CachedCompiler.Compile | cachedCompiler.ts:15-29 | a hit returns the stored result without compiling; a miss compiles once and stores a success; every stored result stays the compilation of a source with that key |
| CachedCompiler.CachedCompiler.PutKeepsCoherent | cachedCompiler.ts:26 | storing a compilation under its own key keeps the cache coherent |
| CachedCompiler.CachedCompiler.FreshlyCompiled | cachedCompiler.ts:23-26 | a successful compilation is lawfully stored under its source's key |
| Toolchain.CompileAstro | astro-compiler.ts:29-52 | `cachedCompileAstro` as main.ts calls it: `Toolchain.WarmCacheNeedsNoLoad`, `Toolchain.AstroAnswerIsCompiled`, `Toolchain.AstroCacheStable` |
| Toolchain.CompileTypescript | typescript.ts:28-51 | `cachedCompileTypescript` as main.ts calls it: `Toolchain.TsCacheTransparent`, `Toolchain.TsCacheStable` |
| Toolchain.ParseTsImports | typescript.ts:73-92 | `cachedParseTsImports` as main.ts calls it: `Toolchain.TsCacheTransparent`, `Toolchain.TsCacheStable` |
| Toolchain.WarmCacheNeedsNoLoad | astro-compiler.ts:38-42 | an input whose key is cached is answered with the stored value, whatever the load's outcome |
| Toolchain.AstroCacheTransparent | astro-compiler.ts:29-52 | with lawful entries, an unshared key and a compiler that loads, the cached `compileAstro` answers as the uncached one |
| Toolchain.CoherentStoreIsLawful | astro-compiler.ts:45-49 | the entries of a coherent `AstroCompiler.Astro` store are lawful for tools whose compiler is that class's |
| Toolchain.AstroAnswerIsCompiled | astro-compiler.ts:38-45 | with lawful entries and an unshared key, a successful answer is the loaded compiler's, hit or miss |
| Toolchain.AstroCacheStable | astro-compiler.ts:45-49 | the entries the build's own misses add change no answer for an unshared key |
| Toolchain.TsCacheTransparent | typescript.ts:28-92 | with lawful entries, unshared keys and an SWC that loads, the cached script compile and parse answer as the uncached ones |
| Toolchain.TsCacheStable | typescript.ts:28-92 | the entries the build's own misses add to the two script namespaces change no answer for unshared keys |
| AsyncIterable.Cursor.Next | asyncIterable.ts:13 | `iterator.next()` yields the next item and advances, or reports done at the end |
| AsyncIterable.Map | asyncIterable.ts:4-20 | the mapped items are `f` of each item, in order |
| AsyncIterable.Mapped.constructor | asyncIterable.ts:8 | the mapped iterable holds the source's iterator and the function |
| AsyncIterable.Mapped.Next | asyncIterable.ts:12-16 | a finished source is passed on as done; otherwise `f` of the next item, the source advanced by one |
| AsyncIterable.ToArray | asyncIterable.ts:40-47 | `toArray` drains the iterator and returns `Map` of the items it had left |
| AsyncIterable.ToArrayIdentity | asyncIterable.ts:52-54 | with the default `identity`, the items come back as they were |
| AsyncIterable.FilterMembers | asyncIterable.ts:22-36 | an item is yielded by `filter` exactly when the source has it and its verdict keeps it |
| AsyncIterable.Filter | asyncIterable.ts:22-36 | `filter` yields no more items than the source has; `AsyncIterable.FilterMembers` says which |
| AsyncIterable.NextKept | asyncIterable.ts:56-68 | the first kept position at or after `from`, no earlier one kept |
| AsyncIterable.FilterResult | asyncIterable.ts:56-68 | `filterResult` reads up to and including the next kept item and yields it, or reports done having read everything |
| AsyncIterable.Filtered.constructor | asyncIterable.ts:26 | the filtered iterable holds the source's iterator and the predicate |
| AsyncIterable.Filtered.Next | asyncIterable.ts:29-33 | each `next()` yields the head of what is left to filter, the rest still to come |
| AsyncIterable.FilterFrom | asyncIterable.ts:56-68 | filtering from a position is the next kept item followed by the filtering after it |
| AsyncIterable.SyncTruthyIsRejected | asyncIterable.ts:62-65 | a truthy non-`true` value returned directly drops the item, while the same value from a promise keeps it |
| Runtime.RouterTableKeys | runtime.ts:21 | the router table has a key exactly when some module is served under it |
| Runtime.RouterTableLastWins | runtime.ts:21 | a key maps to the last module served under it |
| Runtime.RouterTable | runtime.ts:21 | `new Map(modules.map(...))`: `Runtime.RouterTableKeys` and `Runtime.RouterTableLastWins` |
| Runtime.Route | runtime.ts:20-28 | an unknown path gets an empty 404; a known one is rendered with its module and that module's style element |
| Runtime.RouteOfModule | runtime.ts:22-27 | a path no module is served under gets the 404; otherwise it is rendered with the last module served under it |
| Runtime.RepeatedStylesAddNothing | runtime.ts:66-70 | styles already seen add nothing to the page's style element |
| Runtime.ToSsrElement | runtime.ts:66-70 | the distinct styles joined without separator: `Runtime.RepeatedStylesAddNothing` |
| Routes.ReplaceParamsNoBracket | main.ts:258 | text without `[` is left unchanged by the `[param]` rewrite |
| Routes.ReplaceParamsAt | main.ts:258 | the first `[name]` becomes `open + name + close`; the text before it stays, and the text after it is rewritten in turn |
| Routes.ReplaceParamsKeepsOut | main.ts:258 | the rewrite adds no character absent from the text and the delimiters |
| Routes.ReplaceParams | main.ts:258 | the `[param]` rewrite: `Routes.ReplaceParamsNoBracket`, `Routes.ReplaceParamsAt`, `Routes.ReplaceParamsKeepsOut` |
| Routes.ReplaceFirstAtStart | main.ts:254 | `replace('pages/', '/')` on text starting with `pages/` replaces that start |
| Routes.RemoveFirstAtEnd | main.ts:255 | `replace('.astro.ts', '')` removes the suffix when it is the only place the pattern can start |
| Routes.FirstOccurrence | main.ts:255 | an occurrence with none before it is what `indexOf` finds |
| Routes.FirstAtEnd | main.ts:255 | in text lacking the pattern's first character, the appended pattern is its first occurrence |
| Routes.RemoveFirstAfterLead | main.ts:254-255 | a leading character that cannot start the pattern keeps the appended pattern the first occurrence, which `replace` removes |
| Routes.PatternOfPage | main.ts:252-259 | the pattern of `pages/<p>.astro.ts`, when no `.astro.ts` starts inside `p`, is `/<p>`, with a trailing `index` dropped and every `[name]` turned into `:name` |
| Routes.UndottedPageName | main.ts:255 | in a page name without dots no `.astro.ts` starts, and `indexOf` finds the extension |
| Routes.Pattern | main.ts:252-259 | `pattern`: `Routes.PatternOfPage` |
| Routes.MatchesAstroTsParts | main.ts:266 | nine characters match `/.astro.ts/` exactly when the first and seventh are not line terminators, the second to sixth are `astro` and the last two `ts` |
| Routes.StripAstroTs | main.ts:266 | the last nine characters are removed when `/.astro.ts/` matches them, and the text is returned unchanged otherwise |
| Routes.StripAstroTsSuffix | main.ts:266 | a `.astro.ts` extension is removed, leaving exactly the text before it |
| Routes.CapitaliseAt | main.ts:267 | a separator and the character after it become that character in upper case; the text before stays |
| Routes.CapitaliseAfterSeparators | main.ts:267 | the separator rewrite: `Routes.CapitaliseAt` |
| Routes.CapitaliseSkip | main.ts:267 | text without separators before the rest is kept as it is, and only the rest is rewritten |
| Routes.ModuleName | main.ts:261-274 | an absolute specifier throws with the specifier as cause; a name is non-empty, does not start with a lower-case letter and holds no `.` |
| Routes.RewritesSkip | main.ts:266-270 | text without separators, dots or `[` before the rest passes through the separator, dot and parameter rewrites unchanged |
| Routes.ModuleNameUnder | main.ts:261-274 | a relative `<lead><rest>.astro.ts`, with a non-empty `lead` free of separators, dots and `[`, is named `lead` with its first character upper-cased, followed by `rest` with separators capitalised, dots dropped and every `[name]` written `$name$` |
| Routes.ModuleNameOfPage | main.ts:261-274 | a relative `pages/<p>.astro.ts` is named `Pages` followed by `/<p>` with separators capitalised, dots dropped and every `[name]` written `$name$` |
| Routes.Slashed | main.ts:59 | no backslash remains |
| Routes.LinkedScript | main.ts:62-63 | a link starts with `/` and holds no backslash |
| Routes.MakeRoute | main.ts:57-65 | the route's stylesheet is the distinct styles joined by spaces; one link per distinct script path, in first-seen order, each rooted and without backslashes |
| Routes.LinkedScriptsDistinct | main.ts:61-63 | when distinct paths give distinct links, a route's links are distinct |
| Routes.StaticFilesFlatten | main.ts:70 | the static files are the routes' links in route order, repeats kept |
| Routes.StaticFilesMembers | main.ts:70 | a path is a static file exactly when some route links it |
| Routes.StaticFiles | main.ts:70 | the `reduce` gathering the links: `Routes.StaticFilesFlatten`, `Routes.StaticFilesMembers` |
| Routes.ModuleNames | main.ts:99 | one name per route, each that route's `moduleName`; a failure is some route's failure |
| Routes.JoinContains | main.ts:119 | `join` contains every joined part |
| Routes.EntrypointImportsEveryRoute | main.ts:96-127 | the generated server imports every route's page under its module name |
| Routes.DynamicBeforeStatic | main.ts:101-121 | the route table has one dynamic entry per route, in order, then one static entry per static file |
| Routes.PatternLiteralReadsBack | main.ts:103 | the pattern literal of a dynamic entry parses back to the route's pattern |
| Routes.CreateEntrypoint | main.ts:96-127 | `createEntrypoint`: `Routes.EntrypointImportsEveryRoute`, `Routes.DynamicBeforeStatic`, `Routes.PatternLiteralReadsBack` |
| ScriptGraph.Walk | main.ts:175-226 | the script's own target is written last with the returned code, no file disappears, and every listed file exists; `ScriptGraph.WalkFrame` shows no other file changes |
| ScriptGraph.Fold | main.ts:188-219 | the `reduce` keeps every file, and every file it lists exists |
| ScriptGraph.Step | main.ts:191-219 | one callback keeps every file; it succeeds only on a successful accumulator, and the files it lists exist |
| ScriptGraph.Follow | main.ts:192-206 | a followed import's target is written and is the last file its walk lists |
| ScriptGraph.WalkFrame | main.ts:175-226 | a successful walk changes, adds or removes no file it does not list |
| ScriptGraph.FoldFrame | main.ts:188-219 | a successful `reduce` changes no file it does not list |
| ScriptGraph.StepFrame | main.ts:191-219 | a successful callback changes no file it does not list, and lists every file the accumulator listed |
| ScriptGraph.FollowFrame | main.ts:192-206 | following one import changes no file its walk does not list |
| ScriptGraph.CompileWriteTsFiles | main.ts:175-226 | `recursivelyCompileWriteTsFiles` on the files object does what `Walk` says to the file map |
| ScriptGraph.ImportStep | main.ts:191-219 | the `reduce` callback on the files object does what `Step` says |
| ScriptGraph.NotFollowedPassesThrough | main.ts:192 | an import not starting with `./` changes neither the code nor the files |
| ScriptGraph.SpliceKeepsOutside | main.ts:213-214 | a rewrite puts `./` and the path in place of the span and keeps the text around it |
| ScriptGraph.Splice | main.ts:213-214 | the specifier rewrite: `ScriptGraph.SpliceKeepsOutside`, `ScriptGraph.SpanDrift` |
| ScriptGraph.SpanDrift | main.ts:212-214 | a later span no longer covers its specifier once an earlier rewrite changed the length |
| ScriptGraph.StepFailures | main.ts:200-212 | the import's own failure wins over the accumulator's, so of several failing imports the last one's error is the walk's |
| ScriptGraph.FollowedTargetListedTwice | main.ts:200-215 | a followed import's target is listed at the end of its own walk's files and again last |
| ScriptGraph.TargetCompiledTwice | main.ts:200-206 | the import's target holds its walk's output compiled a second time |
| ScriptGraph.FoldWithoutFollowed | main.ts:191-219 | with no `./` import the `reduce` keeps the code and lists no file |
| ScriptGraph.WalkWithoutFollowed | main.ts:186-225 | a script with no `./` import is compiled as it is and written to its target, the only file listed |
| ComponentGraph.Child | main.ts:161-164 | an imported component's target ends with `.ts` |
| ComponentGraph.Children | main.ts:161-164 | one child per imported module, in order |
| ComponentGraph.CompileWriteAstroFiles | main.ts:129-173 | the worklist on the files object does what `Walk` says to the file map |
| ComponentGraph.WalkHead | main.ts:135-172 | after the head is handled, the rest of the walk is the walk of what it left queued and gathered |
| ComponentGraph.VisitComponent | main.ts:139-164 | handling one component on the files object does what `Visit` says |
| ComponentGraph.WalkScripts | main.ts:146-158 | the inline scripts' walks on the files object do what `Scripts` says |
| ComponentGraph.WalkScript | main.ts:149-155 | one inline script's walk extends the walks before it by one |
| ComponentGraph.EmptyQueue | main.ts:137 | an empty queue returns the accumulators and writes nothing |
| ComponentGraph.WalkStep | main.ts:168-172 | the head's failure ends the walk; otherwise its imports queue behind the rest and its styles and scripts join the accumulators' ends |
| ComponentGraph.VisitThenWalk | main.ts:168-172 | the same step for the component walk itself |
| ComponentGraph.AllScriptsStep | main.ts:146-158 | one more script: its walk runs on the files the earlier ones left, and the first failure stays |
| ComponentGraph.AllScriptsKeepFiles | main.ts:146-158 | when each script's walk keeps the files, so do all of them |
| ComponentGraph.AllScriptsEach | main.ts:146-158 | when every walk's files satisfy a property, the successful walks give one such list per script, in order |
| ComponentGraph.ScriptsKeepFiles | main.ts:146-158 | walking a component's scripts keeps every file |
| ComponentGraph.AllScriptsFrame | main.ts:146-159 | when each script's walk changes only the files it lists, all of them change only the flattened list |
| ComponentGraph.ScriptsFrame | main.ts:146-159 | walking a component's scripts changes only the script paths it returns |
| ComponentGraph.ScriptsEndWithTargets | main.ts:149-155 | each inline script's list of written files ends with that script's hash-named target |
| ComponentGraph.VisitKeepsFiles | main.ts:139-164 | handling a component keeps every file |
| ComponentGraph.WalkWithKeepsFiles | main.ts:129-173 | when each step keeps the files, so does the walk |
| ComponentGraph.WalkKeepsFiles | main.ts:129-173 | the component walk keeps every file |
| ComponentGraph.WalkAccumulates | main.ts:168-172 | the styles and script paths only grow, at their ends |
| ComponentGraph.VisitWritesTarget | main.ts:141-158 | a component read and compiled is written to its target; a successful visit leaves the files as writing the compiled code would, except for the script files it lists, so the target holds the code unless a script lists it |
| ComponentGraph.VisitOkCompiles | main.ts:141-147 | a component handled without failure was read, compiled, and had no external script |
| ComponentGraph.WalkWithWritesQueue | main.ts:129-173 | when each step keeps the files and writes its component's target, a successful walk wrote every queued target |
| ComponentGraph.WalkWritesQueue | main.ts:129-173 | a successful component walk wrote every component it started from |
| ComponentGraph.InlineSourcePathsDistinct | main.ts:150 | two inline scripts of one component get different names |
| ComponentGraph.ExternalAborts | main.ts:144-147 | a component with an external script is written, then the walk fails with the first one |
| ComponentGraph.VisitQueuesImports | main.ts:161-164 | with lawful cache entries and a source no other shares its key with, a handled component was transformed, queues one child per `.astro` import of the transformed code, in order, and gathers the compiler's styles |
| ComponentGraph.Visit | main.ts:139-164 | one component: `ComponentGraph.VisitKeepsFiles`, `ComponentGraph.VisitWritesTarget`, `ComponentGraph.VisitOkCompiles`, `ComponentGraph.VisitQueuesImports`, `ComponentGraph.ExternalAborts` |
| ComponentGraph.Walk | main.ts:129-173 | the worklist: `ComponentGraph.WalkKeepsFiles`, `ComponentGraph.WalkWritesQueue`, `ComponentGraph.WalkAccumulates`, `ComponentGraph.WalkHead` |
| DirScan.DirectFiles | main.ts:241-243 | at most one path per entry |
| DirScan.ReadDirNestedCount | main.ts:237-250 | one path per `.astro` file of the tree |
| DirScan.NestedCount | main.ts:245-249 | the direct and nested paths together count the tree's `.astro` files |
| DirScan.ReadDirNestedFinds | main.ts:237-250 | a path is listed exactly when it names an `.astro` file somewhere in the tree |
| DirScan.NestedFinds | main.ts:245-249 | the direct and nested paths together are exactly the tree's `.astro` files |
| DirScan.DirectFilesFirst | main.ts:249 | a directory's own `.astro` files come before those of its subdirectories |
| DirScan.ReadDirNested | main.ts:237-250 | `readDirNested`: `DirScan.ReadDirNestedFinds`, `DirScan.ReadDirNestedCount`, `DirScan.DirectFilesFirst` |
| Build.AstroPaths | main.ts:50 | only paths ending with `.astro` are kept |
| Build.AstroPathsMembers | main.ts:50 | a path is kept exactly when it is listed and ends with `.astro` |
| Build.PageCompilation | main.ts:52-55 | a page's target ends with `.ts` |
| Build.PageCompilations | main.ts:52-55 | one compilation per page path, in order |
| Build.PagesOfTree | main.ts:49-55 | exactly one compilation per `.astro` file the scan finds |
| Build.PageRoute | main.ts:57-66 | a page's walk and route keep every file |
| Build.PageRouteWritesPage | main.ts:57-66 | a successful page is written to its target and imported by the path from the target directory |
| Build.AllRoutesStep | main.ts:68 | one more page: the fold succeeds when the earlier pages and this one do, and the route joins the end |
| Build.AllRoutesNext | main.ts:68 | the same step, read forward |
| Build.AllRoutesEach | main.ts:57-68 | when every route satisfies a property, a successful fold has one such route per page, in order |
| Build.AllRoutesWritePages | main.ts:57-68 | when routes keep files and write their page, a successful fold wrote every page |
| Build.AllRoutesFailure | main.ts:68 | once a page fails, the whole fold fails with that failure |
| Build.PageRoutesOnePerPage | main.ts:57-68 | success gives one route per page, in page order, each imported by its page's path, and every page was written |
| Build.WalkPage | main.ts:57-66 | one page's route on the files object does what `PageRoute` says |
| Build.WalkPages | main.ts:57-68 | the pages' walks on the files object do what `PageRoutes` says |
| Build.Build | main.ts:47-82 | `build` on the files object does what `BuildSpec` says |
| Build.FinishWritesServer | main.ts:72-81 | success exactly when the pages and the entry point succeed: the result is the server's path, written after the runtime with the entry point; a failed entry point adds only the runtime; a failed page passes its error on and writes nothing more |
| Build.BuildWritesPages | main.ts:47-82 | a successful build wrote the runtime, the server, and every page found |
| Build.BuildSpec | main.ts:47-82 | `build` on the file map: `Build.BuildWritesPages`, `Build.FinishWritesServer`, `Build.PageRoutesOnePerPage` |

## Left out

- Concurrency. Every `Promise.all` runs its tasks one after another in index order, and its outcome is the first failure in that order. The async `reduce` of `main.ts` lines 191-219 starts every import's walk before it awaits the accumulator; the model runs each walk after the previous one. Unhandled rejections and interleavings of file writes are not modelled.
- Scripts still running after a failure. When a component has an external script, inline scripts whose walks were already running keep writing in the background. The model stops at the failure.
- Running every page. All pages are walked even after one fails (`Build.AllRoutes`), which matches `Promise.all` starting all tasks. The writes of pages after the first failure are kept.
- Cycles between components or scripts. Both worklists carry a fuel bound (`FuelExhausted`), because the source has no visited set and a cycle never ends.
- Directories. `mkdir` is not modelled: a write creates its file. A `readDir` failure is not modelled either: the directory tree is a parameter.
- Copying the runtime. `rewriteRuntimeImportSpecifiers` and the copy of `runtime.ts` are not modelled: the text written as the runtime is a parameter.
- Loading the compilers. Fetching and initialising the wasm compilers is reduced to one load outcome per build, passed as a parameter.
- The compilers themselves. The Astro compiler's `transform`, SWC's `transform` and `parse`, the digest and base58 are abstract functions.
- SWC spans. Spans are taken as SWC reports them.
- Logging and timing. `console` and `performance.now()` are not modelled.
- The JSON round trip through the cache. Storing a result and reading it back is treated as the identity.
- Shared stores. All three wrappers open the same `miniastro` cache, and astro-compiler.ts line 36 and cachedCompiler.ts line 18 both key under `https://astro.compiler/`. The model gives each wrapper a `Store` of its own, so an answer one wrapper finds under the other's entry is not modelled.
- Hash collisions. That a cache answer is the compiler's answer (`Toolchain.AstroAnswerIsCompiled`, `Toolchain.AstroCacheTransparent`, `Toolchain.TsCacheTransparent`) is proved for inputs no other input shares its cache key with (`Unshared`), since the digest is abstract.
- The cache during a build. The build reads each namespace as it is when the build starts (the entries of `Toolchain.Tools`). The entries its own misses add are proved to change no answer (`Toolchain.AstroCacheStable`, `Toolchain.TsCacheStable`). How often the build calls each compiler is not counted; the class methods of `AstroCompiler` and `TypeScript` count their calls.
- Storage failures. A failed `cache.put` is not modelled: it is not awaited and its errors are ignored.
- Build.Build: the working directory is a parameter rather than `Deno.cwd()`.
- Callback rejections. A `map` or `filter` callback that throws or rejects is not modelled in `AsyncIterable`.
- Multi-line imports. Each regular expression of `compileAstro` is decided line by line. This is exact for `^`, `$` and `.`. An import statement whose `\s` spans a line break is not recognised.
- Compiler.CompileAstro: `hash` imported by compiler.ts is read as `hashString`, which is what hash.ts exports. Its `compileTypescript` is the one of compiler.ts lines 53-64, SWC's `transform` giving the code.
- CachedCompiler.CachedCompiler.Compile: `hash` imported by cachedCompiler.ts line 4 as `createHash` is read as `hashString` with its defaults, since hash.ts exports no `hash`.
- ComponentGraph.Visit: the loaded Astro compiler is the function field `astroCompile` of the tools, behind the cache of `Toolchain.CompileAstro`. `ComponentGraph.VisitQueuesImports` ties it to astro-compiler.ts through `IsAstroCompiler`, for a source whose cache key no other source shares.
- UTF-16. A `char` is a Unicode scalar value, not a UTF-16 code unit, so `length`, `slice` and `result[0]` differ from JavaScript's for text with characters outside U+0000 to U+FFFF.
- The server's route table. The entry point is text: the route entries it writes (`main.ts` lines 101-117) carry no `name` field, yet `createRouter` (`runtime.ts` line 21) reads `m.name.toLowerCase()` of each. The model does not connect the two. `Runtime` is modelled on modules that have a name.
- JsString.ToUpper: maps only the ASCII letters, not Unicode case mapping.
- JsString.ToLower: maps only the ASCII letters, not Unicode case mapping.
- AsyncIterable.Filter: states only its length bound. Which items it yields is proved in `AsyncIterable.FilterMembers` and `AsyncIterable.FilterFrom`.
- Routes.LinkedScriptsDistinct: assumes distinct script paths give distinct links, since `relative` is abstract.
- swc.ts and cli.ts are not part of this model: they only wrap foreign code and argument parsing.
- Building in a temporary directory and running the server are not modelled: `buildInCWD` and `buildAndRun` are I/O around `build`.
