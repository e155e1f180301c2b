/// The string work of main.ts that turns compiled pages into the generated server: the URL
/// pattern and the identifier of each page, the route built for each page, and the text of
/// the server's entry point.
module Routes {
  import opened Js
  import opened JsString
  import opened Collections
  import opened Paths
  import opened Artifacts

  // ---------------------------------------------------------------------------
  // `/\[\w+\]/g`

  /** `s.replaceAll(/\[\w+\]/g, x => open + name + close)`, reading left to right. A match at
    * `[` is the longest run of word characters after it, closed by `]`: `]` is no word
    * character, so a shorter run cannot be followed by it. */
  function ReplaceParams(s: string, open: string, close: string): string
    decreases |s|
  {
    if s == [] then []
    else if s[0] == '[' && Skip(s, 1, IsWordChar) > 1 && Skip(s, 1, IsWordChar) < |s| && s[Skip(s, 1, IsWordChar)] == ']' then
      var j := Skip(s, 1, IsWordChar);
      open + s[1..j] + close + ReplaceParams(s[j + 1..], open, close)
    else [s[0]] + ReplaceParams(s[1..], open, close)
  }

  /** Text without `[` is left as it is. */
  lemma {:induction false} ReplaceParamsNoBracket(s: string, open: string, close: string)
    requires '[' !in s
    ensures ReplaceParams(s, open, close) == s
    decreases |s|
  {
    if s != [] {
      assert '[' !in s[1..];
      ReplaceParamsNoBracket(s[1..], open, close);
    }
  }

  /** The first `[name]` of the text becomes `open + name + close`; the text before it stays,
    * and the text after it is rewritten in turn. */
  lemma ReplaceParamsAt(a: string, name: string, b: string, open: string, close: string)
    requires '[' !in a && name != [] && forall k :: 0 <= k < |name| ==> IsWordChar(name[k])
    ensures ReplaceParams(a + ("[" + name + "]" + b), open, close) == a + (open + name + close + ReplaceParams(b, open, close))
  {
    ReplaceParamsSkip(a, "[" + name + "]" + b, open, close);
    ReplaceParamsHead(name, b, open, close);
  }

  /** Text without `[` before the rest passes through. */
  lemma {:induction false} ReplaceParamsSkip(a: string, rest: string, open: string, close: string)
    requires '[' !in a
    ensures ReplaceParams(a + rest, open, close) == a + ReplaceParams(rest, open, close)
    decreases |a|
  {
    if a == [] {
      assert a + rest == rest;
    } else {
      ConsParts(a, rest);
      ReplaceParamsPlain(a[0], a[1..] + rest, open, close);
      ReplaceParamsSkip(a[1..], rest, open, close);
      ConsParts(a, ReplaceParams(rest, open, close));
    }
  }

  lemma ConsParts(a: string, rest: string)
    requires a != []
    ensures a + rest == [a[0]] + (a[1..] + rest)
  {
  }

  lemma ReplaceParamsPlain(c: char, t: string, open: string, close: string)
    requires c != '['
    ensures ReplaceParams([c] + t, open, close) == [c] + ReplaceParams(t, open, close)
  {
    assert ([c] + t)[1..] == t;
  }

  lemma ReplaceParamsHead(name: string, b: string, open: string, close: string)
    requires name != [] && forall k :: 0 <= k < |name| ==> IsWordChar(name[k])
    ensures ReplaceParams("[" + name + "]" + b, open, close) == open + name + close + ReplaceParams(b, open, close)
  {
    var s := "[" + name + "]" + b;
    var j := |name| + 1;
    assert s[j] == ']' && s[1..j] == name && s[j + 1..] == b;
    SkipExact(s, 1, j, IsWordChar);
  }

  /** The rewrite adds no character that is not already in the text or in `open` or `close`. */
  lemma {:induction false} ReplaceParamsKeepsOut(s: string, open: string, close: string, c: char)
    requires c !in s && c !in open && c !in close
    ensures c !in ReplaceParams(s, open, close)
    decreases |s|
  {
    if s != [] {
      if s[0] == '[' && Skip(s, 1, IsWordChar) > 1 && Skip(s, 1, IsWordChar) < |s| && s[Skip(s, 1, IsWordChar)] == ']' {
        var j := Skip(s, 1, IsWordChar);
        assert c !in s[1..j] && c !in s[j + 1..];
        ReplaceParamsKeepsOut(s[j + 1..], open, close, c);
      } else {
        assert c !in s[1..];
        ReplaceParamsKeepsOut(s[1..], open, close, c);
      }
    }
  }

  // ---------------------------------------------------------------------------
  // `pattern`

  /** `s.replace(/index$/, '')`: `$` without the multiline flag is the end of the text. */
  function StripIndex(s: string): string {
    if |s| >= 5 && s[|s| - 5..] == "index" then s[..|s| - 5] else s
  }

  /** `pattern(astroFileName)`: the URL pattern a page is served under. */
  function Pattern(fileName: string): string {
    ReplaceParams(StripIndex(ReplaceFirst(ReplaceFirst(fileName, "pages/", "/"), ".astro.ts", "")), ":", "")
  }

  lemma ReplaceFirstAt(s: string, pat: string, rep: string, i: nat)
    requires OccursAt(s, pat, i) && forall j :: 0 <= j < i ==> !OccursAt(s, pat, j)
    ensures ReplaceFirst(s, pat, rep) == s[..i] + rep + s[i + |pat|..]
  {
    match IndexFrom(s, pat, 0)
    case None =>
    case Some(k) =>
  }

  /** Text that starts with the pattern has its start replaced. */
  lemma ReplaceFirstAtStart(pat: string, rest: string, rep: string)
    ensures ReplaceFirst(pat + rest, pat, rep) == rep + rest
  {
    var s := pat + rest;
    assert s[..|pat|] == pat && s[|pat|..] == rest;
    ReplaceFirstAt(s, pat, rep, 0);
  }

  lemma NotOccursAt(s: string, pat: string, i: nat)
    requires i < |s| && |pat| > 0 && s[i] != pat[0]
    ensures !OccursAt(s, pat, i)
  {
  }

  /** Text whose only character starting the pattern is at the pattern ending it loses that end. */
  lemma RemoveFirstAtEnd(x: string, pat: string)
    requires |pat| > 0 && pat[0] !in x
    ensures ReplaceFirst(x + pat, pat, "") == x
  {
    var s := x + pat;
    assert s[|x|..|x| + |pat|] == pat;
    forall j | 0 <= j < |x|
      ensures !OccursAt(s, pat, j)
    {
      assert s[j] == x[j];
      NotOccursAt(s, pat, j);
    }
    ReplaceFirstAt(s, pat, "", |x|);
    assert s[..|x|] == x && s[|x| + |pat|..] == [];
  }

  /** A character that cannot start the pattern, put in front of text in which the pattern
    * occurs first at its appended copy, leaves that copy the first occurrence. */
  lemma RemoveFirstAfterLead(lead: string, x: string, pat: string)
    requires |lead| == 1 && |pat| > 0 && pat[0] != lead[0]
    requires forall j :: 0 <= j < |x| ==> !OccursAt(x + pat, pat, j)
    ensures ReplaceFirst(lead + (x + pat), pat, "") == lead + x
  {
    var s := lead + (x + pat);
    assert s[|x| + 1..|x| + 1 + |pat|] == pat;
    forall j | 0 <= j < |x| + 1
      ensures !OccursAt(s, pat, j)
    {
      if j == 0 {
        NotOccursAt(s, pat, 0);
      } else {
        assert !OccursAt(x + pat, pat, j - 1);
        assert s[j..j + |pat|] == (x + pat)[j - 1..j - 1 + |pat|];
      }
    }
    ReplaceFirstAt(s, pat, "", |x| + 1);
    assert s[..|x| + 1] == lead + x && s[|x| + 1 + |pat|..] == [];
  }

  /** The pattern of the page `pages/<p>.astro.ts`, for a `p` in which no `.astro.ts`
    * starts, so that `replace('.astro.ts', '')` removes the extension: `/<p>`, a trailing
    * `index` dropped, every `[name]` turned into `:name`. */
  lemma PatternOfPage(p: string)
    requires forall j :: 0 <= j < |p| ==> !OccursAt(p + ".astro.ts", ".astro.ts", j)
    ensures Pattern("pages/" + (p + ".astro.ts")) == ReplaceParams(StripIndex("/" + p), ":", "")
  {
    var page := "/" + (p + ".astro.ts");
    assert ReplaceFirst("pages/" + (p + ".astro.ts"), "pages/", "/") == page by {
      ReplaceFirstAtStart("pages/", p + ".astro.ts", "/");
    }
    assert ReplaceFirst(page, ".astro.ts", "") == "/" + p by {
      RemoveFirstAfterLead("/", p, ".astro.ts");
    }
  }

  /** Text in which the pattern's first character does not occur holds no occurrence
    * before the appended pattern, which `indexOf` finds. */
  lemma FirstAtEnd(x: string, pat: string)
    requires |pat| > 0 && pat[0] !in x
    ensures forall j :: 0 <= j < |x| ==> !OccursAt(x + pat, pat, j)
    ensures IndexFrom(x + pat, pat, 0) == Some(|x|)
  {
    var s := x + pat;
    assert s[|x|..|x| + |pat|] == pat;
    forall j | 0 <= j < |x|
      ensures !OccursAt(s, pat, j)
    {
      assert s[j] == x[j];
      NotOccursAt(s, pat, j);
    }
    FirstOccurrence(s, pat, 0, |x|);
  }

  /** In a `p` without dots no `.astro.ts` starts, and `indexOf` finds the appended one. */
  lemma UndottedPageName(p: string)
    requires '.' !in p
    ensures forall j :: 0 <= j < |p| ==> !OccursAt(p + ".astro.ts", ".astro.ts", j)
    ensures IndexFrom(p + ".astro.ts", ".astro.ts", 0) == Some(|p|)
  {
    FirstAtEnd(p, ".astro.ts");
  }

  /** An occurrence at or after `from`, with none between, is what `indexOf` finds. */
  lemma {:induction false} FirstOccurrence(s: string, pat: string, from: nat, i: nat)
    requires from <= i && OccursAt(s, pat, i)
    requires forall j :: from <= j < i ==> !OccursAt(s, pat, j)
    ensures IndexFrom(s, pat, from) == Some(i)
    decreases i - from
  {
    if from < i {
      assert !OccursAt(s, pat, from);
      FirstOccurrence(s, pat, from + 1, i);
    }
  }

  // ---------------------------------------------------------------------------
  // `moduleName`

  /** Nine characters `/.astro.ts/` matches, read character by character: each `.` of the
    * expression is any character but a line terminator, every other character itself. */
  predicate MatchesAstroTs(t: string) {
    |t| == 9 && forall k :: 0 <= k < 9 ==>
      if k == 0 || k == 6 then !IsLineTerminator(t[k]) else t[k] == ".astro.ts"[k]
  }

  /** The expression's four parts: two any-characters and the literals `astro` and `ts`. */
  lemma MatchesAstroTsParts(t: string)
    requires |t| == 9
    ensures MatchesAstroTs(t) <==>
      !IsLineTerminator(t[0]) && t[1..6] == "astro" && !IsLineTerminator(t[6]) && t[7..] == "ts"
  {
    if !IsLineTerminator(t[0]) && t[1..6] == "astro" && !IsLineTerminator(t[6]) && t[7..] == "ts" {
      forall k | 0 <= k < 9
        ensures if k == 0 || k == 6 then !IsLineTerminator(t[k]) else t[k] == ".astro.ts"[k]
      {
        if 1 <= k <= 5 {
          assert t[k] == t[1..6][k - 1];
        } else if 7 <= k {
          assert t[k] == t[7..][k - 7];
        }
      }
    }
  }

  /** `s.replace(/.astro.ts$/, '')`: the last nine characters go exactly when the expression
    * matches them; `$` without the multiline flag is the end of the text. */
  function StripAstroTs(s: string): (r: string)
    ensures r == s || (|s| >= 9 && r == s[..|s| - 9])
    ensures |s| >= 9 && MatchesAstroTs(s[|s| - 9..]) ==> r == s[..|s| - 9]
    ensures !(|s| >= 9 && MatchesAstroTs(s[|s| - 9..])) ==> r == s
  {
    var n := |s|;
    if n >= 9 then
      var t := s[n - 9..];
      MatchesAstroTsParts(t);
      assert t[0] == s[n - 9] && t[6] == s[n - 3] && t[1..6] == s[n - 8..n - 3] && t[7..] == s[n - 2..];
      if !IsLineTerminator(s[n - 9]) && s[n - 8..n - 3] == "astro" && !IsLineTerminator(s[n - 3]) && s[n - 2..] == "ts"
      then s[..n - 9] else s
    else s
  }

  /** A `.astro.ts` extension is removed, and only it. */
  lemma StripAstroTsSuffix(p: string)
    ensures StripAstroTs(p + ".astro.ts") == p
  {
    var s := p + ".astro.ts";
    assert s[|s| - 9..] == ".astro.ts";
    assert MatchesAstroTs(s[|s| - 9..]);
    assert s[..|s| - 9] == p;
  }

  predicate IsSeparator(c: char) {
    c == '\\' || c == '/'
  }

  /** `s.replaceAll(/[\\/]./g, x => x.slice(1).toUpperCase())`: a separator and the
    * character after it become that character in upper case. */
  function CapitaliseAfterSeparators(s: string): string
    decreases |s|
  {
    if s == [] then []
    else if IsSeparator(s[0]) && |s| >= 2 && !IsLineTerminator(s[1]) then [UpperChar(s[1])] + CapitaliseAfterSeparators(s[2..])
    else [s[0]] + CapitaliseAfterSeparators(s[1..])
  }

  /** The first separator of the text and the character after it become that character in
    * upper case; the text before stays, and the text after is rewritten in turn. */
  lemma {:induction false} CapitaliseAt(a: string, sep: char, c: char, b: string)
    requires (forall k :: 0 <= k < |a| ==> !IsSeparator(a[k])) && IsSeparator(sep) && !IsLineTerminator(c)
    ensures CapitaliseAfterSeparators(a + [sep, c] + b) == a + [UpperChar(c)] + CapitaliseAfterSeparators(b)
    decreases |a|
  {
    var s := a + [sep, c] + b;
    if a == [] {
      assert s[2..] == b;
    } else {
      assert s[1..] == a[1..] + [sep, c] + b;
      CapitaliseAt(a[1..], sep, c, b);
      assert a == [a[0]] + a[1..];
    }
  }

  /** Text without a separator before the rest passes through. */
  lemma {:induction false} CapitaliseSkip(a: string, rest: string)
    requires forall k :: 0 <= k < |a| ==> !IsSeparator(a[k])
    ensures CapitaliseAfterSeparators(a + rest) == a + CapitaliseAfterSeparators(rest)
    decreases |a|
  {
    if a == [] {
      assert a + rest == rest;
    } else {
      assert (a + rest)[0] == a[0] && (a + rest)[1..] == a[1..] + rest;
      CapitaliseSkip(a[1..], rest);
      assert a == [a[0]] + a[1..];
    }
  }

  /** The message of the `TypeError` that `result[0].toUpperCase()` raises on an empty result. */
  const EmptyNameMessage := "Cannot read properties of undefined (reading 'toUpperCase')"

  /** `moduleName(moduleSpecifier)`: the identifier a page is imported under. */
  function ModuleName(paths: PathOps, moduleSpecifier: string): (r: Result<string>)
    ensures paths.isAbsolute(moduleSpecifier) ==>
      r == Err(Thrown("Absolute path provided to `moduleName`", PathCause(moduleSpecifier)))
    ensures r.Ok? ==> |r.value| > 0 && !('a' <= r.value[0] <= 'z') && '.' !in r.value
  {
    if paths.isAbsolute(moduleSpecifier) then
      Err(Thrown("Absolute path provided to `moduleName`", PathCause(moduleSpecifier)))
    else
      var undotted := ReplaceChar(CapitaliseAfterSeparators(StripAstroTs(moduleSpecifier)), '.', "");
      var result := ReplaceParams(undotted, "$", "$");
      ReplaceParamsKeepsOut(undotted, "$", "$", '.');
      if result == [] then Err(TypeError(EmptyNameMessage))
      else Ok([UpperChar(result[0])] + result[1..])
  }

  /** Text without separators, dots or brackets before the rest passes through the three
    * rewrites of `moduleName` unchanged. */
  lemma RewritesSkip(lead: string, rest: string)
    requires '.' !in lead && '[' !in lead
    requires forall k :: 0 <= k < |lead| ==> !IsSeparator(lead[k])
    ensures ReplaceParams(ReplaceChar(CapitaliseAfterSeparators(lead + rest), '.', ""), "$", "$")
      == lead + ReplaceParams(ReplaceChar(CapitaliseAfterSeparators(rest), '.', ""), "$", "$")
  {
    var c := CapitaliseAfterSeparators(rest);
    var d := ReplaceChar(c, '.', "");
    CapitaliseSkip(lead, rest);
    assert ReplaceChar(lead + c, '.', "") == lead + d by {
      ReplaceCharAppend(lead, c, '.', "");
    }
    ReplaceParamsSkip(lead, d, "$", "$");
  }

  /** The name of a module under a leading directory name without separators, dots or
    * brackets: that name with its first character in upper case, then the rest of the path
    * with each separator and the character after it turned into that character in upper case,
    * the dots dropped and each `[param]` written `$param$`. */
  lemma ModuleNameUnder(paths: PathOps, lead: string, rest: string)
    requires |lead| > 0 && '.' !in lead && '[' !in lead
    requires forall k :: 0 <= k < |lead| ==> !IsSeparator(lead[k])
    requires !paths.isAbsolute(lead + rest + ".astro.ts")
    ensures ModuleName(paths, lead + rest + ".astro.ts")
      == Ok([UpperChar(lead[0])] + lead[1..] + ReplaceParams(ReplaceChar(CapitaliseAfterSeparators(rest), '.', ""), "$", "$"))
  {
    var e := ReplaceParams(ReplaceChar(CapitaliseAfterSeparators(rest), '.', ""), "$", "$");
    StripAstroTsSuffix(lead + rest);
    RewritesSkip(lead, rest);
    var u := [UpperChar(lead[0])];
    assert u + (lead + e)[1..] == u + lead[1..] + e by {
      assert (lead + e)[1..] == lead[1..] + e;
    }
  }

  /** The name of a page under `pages/`: `Pages`, then the rest of its path rewritten as
    * `ModuleNameUnder` says. */
  lemma ModuleNameOfPage(paths: PathOps, p: string)
    requires !paths.isAbsolute("pages/" + p + ".astro.ts")
    ensures ModuleName(paths, "pages/" + p + ".astro.ts")
      == Ok("Pages" + ReplaceParams(ReplaceChar(CapitaliseAfterSeparators("/" + p), '.', ""), "$", "$"))
  {
    PagesLead(p);
    ModuleNameUnder(paths, "pages", "/" + p);
  }

  /** `pages` is a leading directory name `ModuleNameUnder` applies to, and becomes `Pages`. */
  lemma PagesLead(p: string)
    ensures "pages" + ("/" + p) + ".astro.ts" == "pages/" + p + ".astro.ts"
    ensures '.' !in "pages" && '[' !in "pages" && forall k :: 0 <= k < |"pages"| ==> !IsSeparator("pages"[k])
    ensures [UpperChar("pages"[0])] + "pages"[1..] == "Pages"
  {
    assert UpperChar('p') == 'P';
  }

  // ---------------------------------------------------------------------------
  // Routes

  datatype Route = Route(moduleSpecifier: string, inlineStylesheet: string, linkedScripts: seq<string>)

  /** `.replaceAll('\\', '/')`. */
  function Slashed(s: string): (r: string)
    ensures '\\' !in r
  {
    ReplaceChar(s, '\\', "/")
  }

  /** How a page refers to one of its scripts: `/` and the path from the page's directory. */
  function LinkedScript(paths: PathOps, c: Compilation, scriptPath: string): (r: string)
    ensures |r| > 0 && r[0] == '/' && '\\' !in r
  {
    "/" + Slashed(paths.relative(paths.join([c.target, ".."]), scriptPath))
  }

  /** The route `build` makes of a compiled page, from the styles and script paths its walk gathered. */
  function MakeRoute(paths: PathOps, targetDir: string, c: Compilation, styles: seq<string>, scriptPaths: seq<string>): (r: Route)
    ensures '\\' !in r.moduleSpecifier
    ensures r.inlineStylesheet == Join(Dedup(styles), " ")
    ensures |r.linkedScripts| == |Dedup(scriptPaths)| <= |scriptPaths|
    ensures forall i :: 0 <= i < |r.linkedScripts| ==>
      r.linkedScripts[i] == LinkedScript(paths, c, Dedup(scriptPaths)[i]) && r.linkedScripts[i][0] == '/' && '\\' !in r.linkedScripts[i]
  {
    var distinct := Dedup(scriptPaths);
    Route(
      Slashed(paths.relative(targetDir, c.target)),
      Join(Dedup(styles), " "),
      seq(|distinct|, i requires 0 <= i < |distinct| => LinkedScript(paths, c, distinct[i])))
  }

  /** The linked scripts of a route are distinct when distinct script paths give distinct links. */
  lemma LinkedScriptsDistinct(paths: PathOps, targetDir: string, c: Compilation, styles: seq<string>, scriptPaths: seq<string>)
    requires forall x, y :: x in scriptPaths && y in scriptPaths && x != y ==> LinkedScript(paths, c, x) != LinkedScript(paths, c, y)
    ensures Distinct(MakeRoute(paths, targetDir, c, styles, scriptPaths).linkedScripts)
  {
    var r := MakeRoute(paths, targetDir, c, styles, scriptPaths);
    var distinct := Dedup(scriptPaths);
    forall i, j | 0 <= i < j < |r.linkedScripts|
      ensures r.linkedScripts[i] != r.linkedScripts[j]
    {
      assert distinct[i] in scriptPaths && distinct[j] in scriptPaths && distinct[i] != distinct[j];
    }
  }

  /** `routes.reduce((filePaths, route) => [...filePaths, ...route.linkedScripts], [])`. */
  function StaticFiles(routes: seq<Route>): seq<string> {
    if routes == [] then [] else StaticFiles(routes[..|routes| - 1]) + routes[|routes| - 1].linkedScripts
  }

  function LinkedScriptsOf(routes: seq<Route>): (r: seq<seq<string>>)
    ensures |r| == |routes| && forall i :: 0 <= i < |routes| ==> r[i] == routes[i].linkedScripts
  {
    seq(|routes|, i requires 0 <= i < |routes| => routes[i].linkedScripts)
  }

  /** The static files are every route's linked scripts in route order, repeats kept. */
  lemma {:induction false} StaticFilesFlatten(routes: seq<Route>)
    ensures StaticFiles(routes) == Flatten(LinkedScriptsOf(routes))
  {
    if routes != [] {
      var init := routes[..|routes| - 1];
      StaticFilesFlatten(init);
      assert LinkedScriptsOf(routes) == LinkedScriptsOf(init) + [routes[|routes| - 1].linkedScripts];
      FlattenAppend(LinkedScriptsOf(init), [routes[|routes| - 1].linkedScripts]);
      assert Flatten([routes[|routes| - 1].linkedScripts]) == routes[|routes| - 1].linkedScripts by {
        assert [routes[|routes| - 1].linkedScripts][1..] == [];
      }
    }
  }

  /** A path is a static file exactly when some route links it. */
  lemma StaticFilesMembers(routes: seq<Route>, x: string)
    ensures x in StaticFiles(routes) <==> exists i :: 0 <= i < |routes| && x in routes[i].linkedScripts
  {
    StaticFilesFlatten(routes);
    InFlatten(LinkedScriptsOf(routes), x);
  }

  // ---------------------------------------------------------------------------
  // `createEntrypoint`

  /** The module names of the routes, in route order; the first route whose name fails fails all. */
  function ModuleNames(paths: PathOps, routes: seq<Route>): (r: Result<seq<string>>)
    ensures r.Ok? ==> |r.value| == |routes|
    ensures r.Ok? ==> forall i :: 0 <= i < |routes| ==> ModuleName(paths, routes[i].moduleSpecifier) == Ok(r.value[i])
    ensures r.Err? ==> exists i :: 0 <= i < |routes| && ModuleName(paths, routes[i].moduleSpecifier) == Err(r.error)
  {
    if routes == [] then Ok([])
    else
      match ModuleName(paths, routes[0].moduleSpecifier)
      case Err(e) => Err(e)
      case Ok(name) =>
        match ModuleNames(paths, routes[1..])
        case Err(e) => Err(e)
        case Ok(names) => Ok([name] + names)
  }

  function ImportStatement(name: string, r: Route): string {
    "import " + name + " from './" + r.moduleSpecifier + "'"
  }

  const DynamicHead := "{ type: \"dynamic\", pattern: "
  const StaticHead := "{ type: \"static\", pattern: "

  function DynamicEntry(name: string, r: Route): string {
    DynamicHead + JsonStringify(Pattern(r.moduleSpecifier)) + DynamicTail(name, r)
  }

  function DynamicTail(name: string, r: Route): string {
    ", module: " + name + ", inlineStylesheet: " + JsonStringify(r.inlineStylesheet)
      + ", linkedScripts: " + JsonStringifyAll(r.linkedScripts) + " }"
  }

  function StaticEntry(path: string): string {
    StaticHead + StaticTail(path)
  }

  function StaticTail(path: string): string {
    JsonStringify(path) + ", path: new URL(import.meta.resolve(" + JsonStringify("./pages" + path) + ")) }"
  }

  /** `[...routeEntries, ...staticEntries]`. */
  function Entries(names: seq<string>, routes: seq<Route>, staticFiles: seq<string>): seq<string>
    requires |names| == |routes|
  {
    seq(|routes|, i requires 0 <= i < |routes| => DynamicEntry(names[i], routes[i]))
      + seq(|staticFiles|, i requires 0 <= i < |staticFiles| => StaticEntry(staticFiles[i]))
  }

  function ImportStatements(names: seq<string>, routes: seq<Route>): seq<string>
    requires |names| == |routes|
  {
    seq(|routes|, i requires 0 <= i < |routes| => ImportStatement(names[i], routes[i]))
  }

  const EntrypointHeader := "import { serve } from \"https://deno.land/std@0.171.0/http/server.ts\"\nimport { createRouter } from \"./runtime.ts\"\n\n"
  const RoutesOpening := "\n\nconst routes = [\n\t"
  const EntrypointFooter := "\n]\n\nconst router = createRouter(routes)\n\nserve(router)\n"

  /** The template of the generated server, filled with its import lines and route entries. */
  function EntrypointText(imports: seq<string>, entries: seq<string>): string {
    EntrypointHeader + Join(imports, "\n") + (RoutesOpening + Join(entries, ",\n\t") + EntrypointFooter)
  }

  /** `createEntrypoint(routes, staticFiles)`: the text of the generated server. */
  function CreateEntrypoint(paths: PathOps, routes: seq<Route>, staticFiles: seq<string>): Result<string> {
    match ModuleNames(paths, routes)
    case Err(e) => Err(e)
    case Ok(names) => Ok(EntrypointText(ImportStatements(names, routes), Entries(names, routes, staticFiles)))
  }

  /** `part` occurs in `s`. */
  predicate Contains(s: string, part: string) {
    exists k: nat :: k <= |s| && OccursAt(s, part, k)
  }

  lemma OccursInside(a: string, x: string, b: string)
    ensures OccursAt(a + x + b, x, |a|)
  {
    assert (a + x + b)[|a|..|a| + |x|] == x;
  }

  lemma {:induction false} JoinContains(xs: seq<string>, sep: string, i: nat)
    requires i < |xs|
    ensures Contains(Join(xs, sep), xs[i])
  {
    if |xs| == 1 {
      OccursInside([], xs[0], []);
      assert [] + xs[0] + [] == Join(xs, sep);
    } else if i == 0 {
      OccursInside([], xs[0], sep + Join(xs[1..], sep));
      assert [] + xs[0] + (sep + Join(xs[1..], sep)) == Join(xs, sep);
    } else {
      JoinContains(xs[1..], sep, i - 1);
      ContainsInfix(xs[0] + sep, Join(xs[1..], sep), [], xs[i]);
      assert xs[0] + sep + Join(xs[1..], sep) + [] == Join(xs, sep);
    }
  }

  lemma ContainsInfix(a: string, s: string, b: string, part: string)
    requires Contains(s, part)
    ensures Contains(a + s + b, part)
  {
    var k: nat :| k <= |s| && OccursAt(s, part, k);
    var whole := a + s + b;
    assert whole[|a| + k..|a| + k + |part|] == s[k..k + |part|];
    assert OccursAt(whole, part, |a| + k);
  }

  /** The entry point imports every route's page under its module name. */
  lemma EntrypointImportsEveryRoute(paths: PathOps, routes: seq<Route>, staticFiles: seq<string>, i: nat)
    requires i < |routes| && CreateEntrypoint(paths, routes, staticFiles).Ok?
    ensures ModuleName(paths, routes[i].moduleSpecifier).Ok?
    ensures Contains(CreateEntrypoint(paths, routes, staticFiles).value,
      ImportStatement(ModuleName(paths, routes[i].moduleSpecifier).value, routes[i]))
  {
    var names := ModuleNames(paths, routes).value;
    var imports := ImportStatements(names, routes);
    var entries := Entries(names, routes, staticFiles);
    JoinContains(imports, "\n", i);
    ContainsInfix(EntrypointHeader, Join(imports, "\n"), RoutesOpening + Join(entries, ",\n\t") + EntrypointFooter, imports[i]);
  }

  /** The route table lists one dynamic entry per route, in route order, and then one static
    * entry per static file. */
  lemma DynamicBeforeStatic(names: seq<string>, routes: seq<Route>, staticFiles: seq<string>)
    requires |names| == |routes|
    ensures |Entries(names, routes, staticFiles)| == |routes| + |staticFiles|
    ensures forall i :: 0 <= i < |routes| ==> DynamicHead <= Entries(names, routes, staticFiles)[i]
    ensures forall i :: |routes| <= i < |routes| + |staticFiles| ==> StaticHead <= Entries(names, routes, staticFiles)[i]
  {
    var e := Entries(names, routes, staticFiles);
    forall i | 0 <= i < |routes|
      ensures DynamicHead <= e[i]
    {
      var r := routes[i];
      assert e[i] == DynamicEntry(names[i], r);
      HeadOf(DynamicHead, JsonStringify(Pattern(r.moduleSpecifier)) + DynamicTail(names[i], r));
    }
    forall i | |routes| <= i < |routes| + |staticFiles|
      ensures StaticHead <= e[i]
    {
      assert e[i] == StaticEntry(staticFiles[i - |routes|]);
      HeadOf(StaticHead, StaticTail(staticFiles[i - |routes|]));
    }
  }

  lemma HeadOf(head: string, rest: string)
    ensures head <= head + rest
  {
  }

  /** The pattern literal of a dynamic entry reads back, with `JSON.parse`, as the route's pattern. */
  lemma PatternLiteralReadsBack(name: string, r: Route)
    ensures var lit := JsonStringify(Pattern(r.moduleSpecifier));
      OccursAt(DynamicEntry(name, r), lit, |DynamicHead|) && JsonParseString(lit) == Some(Pattern(r.moduleSpecifier))
  {
    OccursInside(DynamicHead, JsonStringify(Pattern(r.moduleSpecifier)), DynamicTail(name, r));
    JsonRoundTrip(Pattern(r.moduleSpecifier));
  }
}
