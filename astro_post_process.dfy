/// The post-processing that astro-compiler.ts and compiler.ts both apply to the Astro
/// compiler's output code, with the two multiline regular expressions they declare:
///   cssImports            `^import ".+\?astro&type=style&index=\d+&lang.css";$`
///   astroImportSpecifiers `(?<=^\s*import\s+[\w$]+\s+from\s+['"]).+astro(?=['"]\s*;?\s*?$)`
/// Both are read one line at a time (`Lines` in JsString); a line here is the text
/// between two line terminators.
module AstroPostProcess {
  import opened Js
  import opened Collections
  import opened JsString
  import opened Artifacts

  // ---------------------------------------------------------------------------
  // Character classes

  predicate IsQuote(c: char) {
    c == '\'' || c == '"'
  }

  /** The class `[\w$]`. */
  predicate IsIdentChar(c: char) {
    IsWordChar(c) || c == '$'
  }

  lemma IdentIsNoSpace(c: char)
    requires IsIdentChar(c)
    ensures !IsSpace(c)
  {
  }

  // ---------------------------------------------------------------------------
  // The look-behind `^\s*import\s+[\w$]+\s+from\s+['"]`

  /** Where the pieces of the look-behind end: spaces up to `i0`, `import`, spaces up to
    * `i1`, an identifier up to `i2`, spaces up to `i3`, `from`, spaces up to `i4`, a quote. */
  datatype PrefixSplit = PrefixSplit(i0: nat, i1: nat, i2: nat, i3: nat, i4: nat)

  /** `c[..s]` matches the look-behind as the split `w` cuts it. */
  predicate SplitsImportPrefix(c: string, s: nat, w: PrefixSplit) {
    && w.i0 + 6 < w.i1 < w.i2 < w.i3 && w.i3 + 4 < w.i4 && s == w.i4 + 1 && s <= |c|
    && Run(c, 0, w.i0, IsSpace)
    && c[w.i0..w.i0 + 6] == "import"
    && Run(c, w.i0 + 6, w.i1, IsSpace)
    && Run(c, w.i1, w.i2, IsIdentChar)
    && Run(c, w.i2, w.i3, IsSpace)
    && c[w.i3..w.i3 + 4] == "from"
    && Run(c, w.i3 + 4, w.i4, IsSpace)
    && IsQuote(c[w.i4])
  }

  /** The one position at which the look-behind can hold in the line `c`, found by reading
    * its pieces left to right; each run is as long as it can be, since the piece after it
    * starts with a character outside its class. */
  function PrefixEnd(c: string): Option<nat> {
    var i0 := Skip(c, 0, IsSpace);
    if OccursAt(c, "import", i0) then AfterImport(c, i0 + 6) else None
  }

  /** The rest of the look-behind after `import`, up to `from`. */
  function AfterImport(c: string, j: nat): Option<nat>
    requires j <= |c|
  {
    var i1 := Skip(c, j, IsSpace);
    if i1 == j then None
    else
      var i2 := Skip(c, i1, IsIdentChar);
      if i2 == i1 then None
      else
        var i3 := Skip(c, i2, IsSpace);
        if i3 == i2 || !OccursAt(c, "from", i3) then None else AfterFrom(c, i3 + 4)
  }

  /** The rest of the look-behind after `from`: spaces and the opening quote. */
  function AfterFrom(c: string, j: nat): Option<nat>
    requires j <= |c|
  {
    var i4 := Skip(c, j, IsSpace);
    if i4 == j || i4 == |c| || !IsQuote(c[i4]) then None else Some(i4 + 1)
  }

  /** What `PrefixEnd` finds is a position at which the look-behind holds. */
  lemma PrefixEndSound(c: string)
    requires PrefixEnd(c).Some?
    ensures SplitsImportPrefix(c, PrefixEnd(c).value, SplitOf(c))
  {
  }

  /** The split at which `PrefixEnd` reads the pieces of the look-behind. */
  function SplitOf(c: string): PrefixSplit
    requires PrefixEnd(c).Some?
  {
    var i0 := Skip(c, 0, IsSpace);
    var i1 := Skip(c, i0 + 6, IsSpace);
    var i2 := Skip(c, i1, IsIdentChar);
    var i3 := Skip(c, i2, IsSpace);
    var i4 := Skip(c, i3 + 4, IsSpace);
    PrefixSplit(i0, i1, i2, i3, i4)
  }

  /** Wherever the look-behind holds, `PrefixEnd` finds it. */
  lemma PrefixEndComplete(c: string, s: nat, w: PrefixSplit)
    requires SplitsImportPrefix(c, s, w)
    ensures PrefixEnd(c) == Some(s)
  {
    FirstOfOccurrence(c, "import", w.i0);
    SkipExact(c, 0, w.i0, IsSpace);
    AfterImportComplete(c, s, w);
  }

  lemma AfterImportComplete(c: string, s: nat, w: PrefixSplit)
    requires SplitsImportPrefix(c, s, w)
    ensures AfterImport(c, w.i0 + 6) == Some(s)
  {
    FirstOfOccurrence(c, "from", w.i3);
    IdentIsNoSpace(c[w.i1]);
    SkipExact(c, w.i0 + 6, w.i1, IsSpace);
    SkipExact(c, w.i1, w.i2, IsIdentChar);
    SkipExact(c, w.i2, w.i3, IsSpace);
    SkipExact(c, w.i3 + 4, w.i4, IsSpace);
  }

  lemma FirstOfOccurrence(c: string, pat: string, i: nat)
    requires |pat| > 0 && i + |pat| <= |c| && c[i..i + |pat|] == pat
    ensures OccursAt(c, pat, i) && c[i] == pat[0]
  {
    assert c[i] == c[i..i + |pat|][0];
  }

  /** `PrefixEnd` finds `s` exactly when the look-behind holds at `s`. */
  lemma PrefixEndIsLookBehind(c: string, s: nat)
    ensures PrefixEnd(c) == Some(s) <==> exists w :: SplitsImportPrefix(c, s, w)
  {
    if PrefixEnd(c) == Some(s) {
      PrefixEndSound(c);
      assert SplitsImportPrefix(c, s, SplitOf(c));
    }
    if w :| SplitsImportPrefix(c, s, w) {
      PrefixEndComplete(c, s, w);
    }
  }

  /** `c` and `d` have the same first `n` characters. */
  predicate Agree(c: string, d: string, n: nat) {
    n <= |c| && n <= |d| && forall k :: 0 <= k < n ==> c[k] == d[k]
  }

  lemma RunAgree(c: string, d: string, n: nat, a: nat, b: nat, cls: char -> bool)
    requires Agree(c, d, n) && b <= n && Run(c, a, b, cls)
    ensures Run(d, a, b, cls)
  {
  }

  lemma SliceAgree(c: string, d: string, n: nat, a: nat, b: nat)
    requires Agree(c, d, n) && a <= b <= n
    ensures d[a..b] == c[a..b]
  {
  }

  /** A split of the look-behind in `c` is one in every `d` that starts as `c` does. */
  lemma SplitAgree(c: string, d: string, s: nat, w: PrefixSplit)
    requires SplitsImportPrefix(c, s, w) && Agree(c, d, s)
    ensures SplitsImportPrefix(d, s, w)
  {
    RunAgree(c, d, s, 0, w.i0, IsSpace);
    SliceAgree(c, d, s, w.i0, w.i0 + 6);
    RunAgree(c, d, s, w.i0 + 6, w.i1, IsSpace);
    RunAgree(c, d, s, w.i1, w.i2, IsIdentChar);
    RunAgree(c, d, s, w.i2, w.i3, IsSpace);
    SliceAgree(c, d, s, w.i3, w.i3 + 4);
    RunAgree(c, d, s, w.i3 + 4, w.i4, IsSpace);
  }

  /** The look-behind only reads the text before the position it is tested at. */
  lemma PrefixEndOfExtension(c: string, d: string, s: nat)
    requires PrefixEnd(c) == Some(s) && Agree(c, d, s)
    ensures PrefixEnd(d) == Some(s)
  {
    PrefixEndSound(c);
    SplitAgree(c, d, s, SplitOf(c));
    PrefixEndComplete(d, s, SplitOf(c));
  }

  // ---------------------------------------------------------------------------
  // The match `.+astro` and the look-ahead `['"]\s*;?\s*?$`

  /** `t` matches `\s*;?\s*` (`$` has nothing left to match but the end of the line). */
  predicate TailOk(t: string) {
    || Run(t, 0, |t|, IsSpace)
    || exists k :: 0 <= k < |t| && t[k] == ';' && Run(t, 0, k, IsSpace) && Run(t, k + 1, |t|, IsSpace)
  }

  lemma TailHasNoQuote(t: string, k: nat)
    requires TailOk(t) && k < |t|
    ensures !IsQuote(t[k])
  {
  }

  /** The position of the last quote of `c`. */
  function LastQuote(c: string): (r: Option<nat>)
    ensures r.Some? ==> r.value < |c| && IsQuote(c[r.value]) && forall k :: r.value < k < |c| ==> !IsQuote(c[k])
    ensures r.None? ==> forall k :: 0 <= k < |c| ==> !IsQuote(c[k])
  {
    if c == [] then None
    else if IsQuote(c[|c| - 1]) then Some(|c| - 1)
    else LastQuote(c[..|c| - 1])
  }

  /** The regular expression matches `c[s..p]` in the line `c`: the look-behind holds at `s`,
    * `c[s..p]` is at least one character followed by `astro`, and the look-ahead holds at `p`. */
  ghost predicate IsSpecifierMatch(c: string, s: nat, p: nat) {
    && (exists w :: SplitsImportPrefix(c, s, w))
    && s + 6 <= p < |c|
    && c[p - 5..p] == "astro"
    && IsQuote(c[p])
    && TailOk(c[p + 1..])
  }

  /** Where a specifier match starts and ends within its line. */
  datatype Found = Found(start: nat, end: nat)

  /** The specifier matched in the line `c`: the look-behind fixes its start, and since the
    * look-ahead admits no quote after the closing one, its end is the line's last quote. */
  function SpecifierSpan(c: string): (r: Option<Found>)
    ensures r.Some? ==> r.value.start + 6 <= r.value.end < |c|
  {
    match PrefixEnd(c)
    case None => None
    case Some(s) =>
      match LastQuote(c)
      case None => None
      case Some(p) =>
        if s + 6 <= p && c[p - 5..p] == "astro" && TailOk(c[p + 1..]) then Some(Found(s, p)) else None
  }

  lemma LastQuoteExact(c: string, p: nat)
    requires p < |c| && IsQuote(c[p])
    requires forall k :: p < k < |c| ==> !IsQuote(c[k])
    ensures LastQuote(c) == Some(p)
  {
  }

  /** The look-ahead admits no quote after the closing one. */
  lemma NoQuoteAfter(c: string, p: nat)
    requires p < |c| && TailOk(c[p + 1..])
    ensures forall k :: p < k < |c| ==> !IsQuote(c[k])
  {
    var tail := c[p + 1..];
    forall k | p < k < |c| ensures !IsQuote(c[k]) {
      assert c[k] == tail[k - p - 1];
      TailHasNoQuote(tail, k - p - 1);
    }
  }

  /** Every match of the regular expression is the one `SpecifierSpan` finds. */
  lemma SpecifierSpanComplete(c: string, s: nat, p: nat)
    requires IsSpecifierMatch(c, s, p)
    ensures SpecifierSpan(c) == Some(Found(s, p))
  {
    assert PrefixEnd(c) == Some(s) by {
      PrefixEndIsLookBehind(c, s);
    }
    assert LastQuote(c) == Some(p) by {
      NoQuoteAfter(c, p);
      LastQuoteExact(c, p);
    }
    SpecifierSpanAt(c, s, p);
  }

  lemma SpecifierSpanAt(c: string, s: nat, p: nat)
    requires PrefixEnd(c) == Some(s) && LastQuote(c) == Some(p)
    requires s + 6 <= p && c[p - 5..p] == "astro" && TailOk(c[p + 1..])
    ensures SpecifierSpan(c) == Some(Found(s, p))
  {
  }

  /** `SpecifierSpan` finds exactly the matches of the regular expression, so a line holds at most one. */
  lemma SpecifierSpanIsRegexMatch(c: string, s: nat, p: nat)
    ensures SpecifierSpan(c) == Some(Found(s, p)) <==> IsSpecifierMatch(c, s, p)
  {
    if SpecifierSpan(c) == Some(Found(s, p)) {
      SpecifierSpanSound(c, s, p);
    }
    if IsSpecifierMatch(c, s, p) {
      SpecifierSpanComplete(c, s, p);
    }
  }

  /** What `SpecifierSpan` finds is a match of the regular expression. */
  lemma SpecifierSpanSound(c: string, s: nat, p: nat)
    requires SpecifierSpan(c) == Some(Found(s, p))
    ensures IsSpecifierMatch(c, s, p)
  {
    assert PrefixEnd(c) == Some(s) && LastQuote(c) == Some(p);
    PrefixEndIsLookBehind(c, s);
  }

  // ---------------------------------------------------------------------------
  // The CSS-import lines

  const StyleMarker: string := "?astro&type=style&index="

  /** The line `c` matches `^import ".+\?astro&type=style&index=\d+&lang.css";$`:
    * `import "`, at least one character up to `i`, the marker, digits up to `j`,
    * `&lang`, any one character, `css";`. */
  predicate IsCssImportLine(c: string) {
    && |c| >= 44
    && c[..8] == "import \""
    && c[|c| - 2..] == "\";"
    && exists i: nat, j: nat :: i < |c| && j < |c| && CssSplit(c, i, j)
  }

  predicate CssSplit(c: string, i: nat, j: nat) {
    && 9 <= i && i + 24 < j && j + 11 == |c|
    && c[i..i + 24] == StyleMarker
    && Run(c, i + 24, j, IsDigit)
    && c[j..j + 5] == "&lang"
    && c[j + 6..j + 9] == "css"
  }

  /** A CSS-import line is never an import the specifier expression matches. */
  lemma CssLineHasNoSpecifier(c: string)
    requires IsCssImportLine(c)
    ensures PrefixEnd(c) == None && SpecifierSpan(c) == None
  {
    assert c[0] == c[..8][0] == 'i';
    assert c[6] == c[..8][6] == ' ';
    assert c[7] == c[..8][7] == '"';
    SkipExact(c, 0, 0, IsSpace);
    assert OccursAt(c, "import", 0) by { assert c[0..6] == c[..8][..6]; }
    SkipExact(c, 6, 7, IsSpace);
    SkipExact(c, 7, 7, IsIdentChar);
  }

  // ---------------------------------------------------------------------------
  // Rewriting line by line

  /** One line after `replaceAll(cssImports, '')`. */
  function RemoveCssLine(c: string): string {
    if IsCssImportLine(c) then [] else c
  }

  /** One line after `replaceAll(astroImportSpecifiers, s => s + '.ts')`. */
  function AddTsLine(c: string): string {
    match SpecifierSpan(c)
    case None => c
    case Some(f) => c[..f.end] + ".ts" + c[f.end..]
  }

  /** Each piece with its line's text replaced by `f` of it and its terminator kept. */
  function MapContents(pieces: seq<string>, f: string -> string): (r: seq<string>)
    ensures |r| == |pieces|
    ensures forall i :: 0 <= i < |pieces| ==> r[i] == f(Content(pieces[i])) + Terminator(pieces[i])
  {
    if pieces == [] then [] else [f(Content(pieces[0])) + Terminator(pieces[0])] + MapContents(pieces[1..], f)
  }

  /** A `replaceAll` whose matches lie each within one line, as a rewrite `f` of each line. */
  function MapLines(code: string, f: string -> string): string {
    Flatten(MapContents(Lines(code), f))
  }

  /** The text of a line without a terminator, followed by at most one terminator. */
  lemma ContentOfPiece(x: string, t: string)
    requires NoTerminator(x)
    requires t == [] || (|t| == 1 && IsLineTerminator(t[0]))
    ensures Content(x + t) == x && Terminator(x + t) == t
  {
    if t == [] {
      assert x + t == x;
    } else {
      assert (x + t)[..|x + t| - 1] == x;
    }
  }

  lemma PieceParts(p: string)
    requires IsLine(p) || NoTerminator(p)
    ensures NoTerminator(Content(p))
    ensures Terminator(p) == [] || (|Terminator(p)| == 1 && IsLineTerminator(Terminator(p)[0]))
    ensures Terminator(p) == [] <==> NoTerminator(p)
  {
  }

  lemma {:induction false} MapContentsWellSplit(pieces: seq<string>, f: string -> string)
    requires WellSplit(pieces)
    requires forall c :: NoTerminator(c) ==> NoTerminator(f(c))
    ensures WellSplit(MapContents(pieces, f))
  {
    var r := MapContents(pieces, f);
    PieceParts(pieces[0]);
    ContentOfPiece(f(Content(pieces[0])), Terminator(pieces[0]));
    if |pieces| == 1 {
      assert r[0] == f(Content(pieces[0]));
    } else {
      assert IsLine(r[0]) by {
        assert r[0][..|r[0]| - 1] == f(Content(pieces[0]));
      }
      MapContentsWellSplit(pieces[1..], f);
      assert r[1..] == MapContents(pieces[1..], f);
    }
  }

  /** Rewriting each line leaves the line structure intact: the lines of the result are the
    * lines of `code`, each with its text rewritten by `f` and its terminator kept. */
  lemma LinesOfMapLines(code: string, f: string -> string)
    requires forall c :: NoTerminator(c) ==> NoTerminator(f(c))
    ensures Lines(MapLines(code, f)) == MapContents(Lines(code), f)
  {
    LinesSpell(code);
    MapContentsWellSplit(Lines(code), f);
    LinesOfFlatten(MapContents(Lines(code), f));
  }

  lemma MapContentsCompose(pieces: seq<string>, f: string -> string, g: string -> string, h: string -> string)
    requires WellSplit(pieces)
    requires forall c :: NoTerminator(c) ==> NoTerminator(f(c))
    requires forall c :: h(c) == g(f(c))
    ensures MapContents(MapContents(pieces, f), g) == MapContents(pieces, h)
  {
    var fg := MapContents(MapContents(pieces, f), g);
    forall i | 0 <= i < |pieces| ensures fg[i] == h(Content(pieces[i])) + Terminator(pieces[i]) {
      var p := pieces[i];
      WellSplitPiece(pieces, i);
      PieceParts(p);
      ContentOfPiece(f(Content(p)), Terminator(p));
    }
  }

  /** Every piece of a well-split sequence is a line with its terminator, or has no terminator. */
  lemma {:induction false} WellSplitPiece(pieces: seq<string>, i: nat)
    requires WellSplit(pieces) && i < |pieces|
    ensures IsLine(pieces[i]) || NoTerminator(pieces[i])
  {
    if i > 0 {
      WellSplitPiece(pieces[1..], i - 1);
    }
  }

  lemma LinesPiece(code: string, i: nat)
    requires i < |Lines(code)|
    ensures NoTerminator(Content(Lines(code)[i]))
  {
    LinesSpell(code);
    WellSplitPiece(Lines(code), i);
    PieceParts(Lines(code)[i]);
  }

  lemma RemoveCssLineKeepsLine(c: string)
    ensures NoTerminator(c) ==> NoTerminator(RemoveCssLine(c))
  {
  }

  /** `.ts` inserted at `e`: the text before `e` stays, the text from `e` moves by three. */
  lemma InsertTs(c: string, e: nat)
    requires e <= |c|
    ensures var d := c[..e] + ".ts" + c[e..];
      && |d| == |c| + 3
      && Agree(c, d, e)
      && d[e] == '.' && d[e + 1] == 't' && d[e + 2] == 's'
      && forall k :: e + 3 <= k < |d| ==> d[k] == c[k - 3]
  {
  }

  lemma AddTsLineKeepsLine(c: string)
    ensures NoTerminator(c) ==> NoTerminator(AddTsLine(c))
  {
    if NoTerminator(c) && SpecifierSpan(c).Some? {
      InsertTs(c, SpecifierSpan(c).value.end);
    }
  }

  /** After `.ts` is inserted before the last quote, that quote is still the last one. */
  lemma LastQuoteAfterInsert(c: string, e: nat)
    requires LastQuote(c) == Some(e)
    ensures LastQuote(c[..e] + ".ts" + c[e..]) == Some(e + 3)
  {
    InsertTs(c, e);
    LastQuoteExact(c[..e] + ".ts" + c[e..], e + 3);
  }

  /** A line whose last quote follows an `s` holds no specifier. */
  lemma NoAstroBeforeLastQuote(d: string, q: nat)
    requires LastQuote(d) == Some(q) && q >= 5 && d[q - 1] == 's'
    ensures SpecifierSpan(d) == None
  {
    assert d[q - 5..q] != "astro" by {
      assert d[q - 5..q][4] == d[q - 1];
    }
  }

  /** An import line that got its `.ts` no longer matches, so the rewrite never applies twice. */
  lemma AddTsLineOnce(c: string)
    ensures SpecifierSpan(AddTsLine(c)) == None || AddTsLine(c) == c
  {
    if SpecifierSpan(c).Some? {
      var e := SpecifierSpan(c).value.end;
      var d := c[..e] + ".ts" + c[e..];
      assert AddTsLine(c) == d;
      assert LastQuote(c) == Some(e);
      LastQuoteAfterInsert(c, e);
      InsertTs(c, e);
      NoAstroBeforeLastQuote(d, e + 3);
    }
  }

  lemma AddTsLineIdempotent(c: string)
    ensures AddTsLine(AddTsLine(c)) == AddTsLine(c)
  {
    AddTsLineOnce(c);
  }

  // ---------------------------------------------------------------------------
  // The whole code

  /** `code.replaceAll(cssImports, '')`. */
  function RemoveCssImports(code: string): string {
    MapLines(code, RemoveCssLine)
  }

  /** `code.replaceAll(astroImportSpecifiers, s => s + '.ts')`. */
  function AddTsExtensions(code: string): string {
    MapLines(code, AddTsLine)
  }

  /** The specifiers matched in the given lines, in order. */
  function SpecifiersOf(pieces: seq<string>): (r: seq<string>)
    ensures |r| <= |pieces|
    ensures forall k :: 0 <= k < |r| ==> NamesAstroFile(r[k])
  {
    if pieces == [] then []
    else
      var c := Content(pieces[0]);
      match SpecifierSpan(c)
      case None => SpecifiersOf(pieces[1..])
      case Some(f) =>
        SpecifierNamesAstroFile(c, f);
        [c[f.start..f.end]] + SpecifiersOf(pieces[1..])
  }

  /** At least one character followed by `astro`. */
  predicate NamesAstroFile(x: string) {
    |x| >= 6 && x[|x| - 5..] == "astro"
  }

  lemma SpecifierNamesAstroFile(c: string, f: Found)
    requires SpecifierSpan(c) == Some(f)
    ensures f.end <= |c| && NamesAstroFile(c[f.start..f.end])
  {
    assert c[f.start..f.end][f.end - f.start - 5..] == c[f.end - 5..f.end];
  }

  /** `Array.from(code.match(astroImportSpecifiers) ?? [])`. */
  function ImportSpecifiers(code: string): seq<string> {
    SpecifiersOf(Lines(code))
  }

  lemma {:induction false} SpecifiersOfRemoveCss(pieces: seq<string>)
    ensures SpecifiersOf(MapContents(pieces, RemoveCssLine)) == SpecifiersOf(pieces)
  {
    if pieces != [] {
      var p := pieces[0];
      var m := MapContents(pieces, RemoveCssLine);
      assert m[1..] == MapContents(pieces[1..], RemoveCssLine);
      SpecifiersOfRemoveCss(pieces[1..]);
      if IsCssImportLine(Content(p)) {
        CssLineHasNoSpecifier(Content(p));
        assert Content(m[0]) == [] by {
          ContentOfPiece([], Terminator(p));
          assert m[0] == [] + Terminator(p);
        }
        assert SpecifierSpan([]) == None by {
          assert !OccursAt([], "import", 0);
        }
      } else {
        assert m[0] == p by { ContentTerminator(p); }
      }
    }
  }

  /** Removing the CSS imports first does not change which specifiers the code holds. */
  lemma ImportSpecifiersAfterRemoveCss(code: string)
    ensures ImportSpecifiers(RemoveCssImports(code)) == ImportSpecifiers(code)
  {
    forall c | NoTerminator(c) ensures NoTerminator(RemoveCssLine(c)) {
      RemoveCssLineKeepsLine(c);
    }
    LinesOfMapLines(code, RemoveCssLine);
    SpecifiersOfRemoveCss(Lines(code));
  }

  /** One line of the code `compileAstro` returns. */
  function CleanLine(c: string): string {
    AddTsLine(RemoveCssLine(c))
  }

  lemma PostProcessCodeLines(code: string)
    ensures Lines(AddTsExtensions(RemoveCssImports(code))) == MapContents(Lines(code), CleanLine)
  {
    forall c | NoTerminator(c) ensures NoTerminator(RemoveCssLine(c)) && NoTerminator(AddTsLine(c)) {
      RemoveCssLineKeepsLine(c);
      AddTsLineKeepsLine(c);
    }
    var removed := RemoveCssImports(code);
    LinesOfMapLines(code, RemoveCssLine);
    assert Lines(removed) == MapContents(Lines(code), RemoveCssLine);
    LinesOfMapLines(removed, AddTsLine);
    assert Lines(AddTsExtensions(removed)) == MapContents(Lines(removed), AddTsLine);
    LinesWellSplit(code);
    MapContentsCompose(Lines(code), RemoveCssLine, AddTsLine, CleanLine);
  }

  /** The code `compileAstro` returns: CSS imports removed, then `.ts` added to specifiers. */
  function PostProcessCode(code: string): (r: string)
    ensures Lines(r) == MapContents(Lines(code), CleanLine)
  {
    PostProcessCodeLines(code);
    AddTsExtensions(RemoveCssImports(code))
  }

  /** Line by line, the post-processed code: a CSS-import line is emptied, a line that holds an
    * `.astro` specifier gets `.ts` right after it, every other line is kept, and the line
    * terminators all stay. */
  lemma PostProcessLine(code: string, i: nat)
    requires i < |Lines(code)|
    ensures |Lines(PostProcessCode(code))| == |Lines(code)|
    ensures var c := Content(Lines(code)[i]);
      var out := Lines(PostProcessCode(code))[i];
      && Terminator(out) == Terminator(Lines(code)[i])
      && (IsCssImportLine(c) ==> Content(out) == [])
      && (!IsCssImportLine(c) && SpecifierSpan(c).Some? ==>
            var f := SpecifierSpan(c).value; Content(out) == c[..f.end] + ".ts" + c[f.end..])
      && (!IsCssImportLine(c) && SpecifierSpan(c).None? ==> Content(out) == c)
  {
    var p := Lines(code)[i];
    LinesSpell(code);
    WellSplitPiece(Lines(code), i);
    PieceParts(p);
    var c := Content(p);
    RemoveCssLineKeepsLine(c);
    AddTsLineKeepsLine(RemoveCssLine(c));
    ContentOfPiece(CleanLine(c), Terminator(p));
    if IsCssImportLine(c) {
      assert SpecifierSpan([]) == None by {
        assert !OccursAt([], "import", 0);
      }
    }
  }

  /** Adding `.ts` to a specifier does not make a line a CSS import. */
  lemma AddTsLineNotCss(x: string)
    requires !IsCssImportLine(x)
    ensures !IsCssImportLine(AddTsLine(x))
  {
    if SpecifierSpan(x).Some? {
      var f := SpecifierSpan(x).value;
      var out := AddTsLine(x);
      if IsCssImportLine(out) {
        CssLineHasNoSpecifier(out);
        InsertTs(x, f.end);
        PrefixEndOfExtension(x, out, f.start);
        assert false;
      }
    }
  }

  /** No line of the post-processed code is a CSS import. */
  lemma NoCssImportRemains(code: string, i: nat)
    requires i < |Lines(PostProcessCode(code))|
    ensures !IsCssImportLine(Content(Lines(PostProcessCode(code))[i]))
  {
    PostProcessLine(code, i);
    var c := Content(Lines(code)[i]);
    AddTsLineNotCss(RemoveCssLine(c));
  }

  /** The post-processing of compileAstro in astro-compiler.ts: the other metadata as it came. */
  function PostProcess(tr: TransformResult): (r: AstroCompileResult)
    ensures r.css == tr.css && r.scripts == tr.scripts && r.rest == tr.rest
    ensures Lines(r.code) == MapContents(Lines(tr.code), CleanLine)
    ensures r.importedModules == SpecifiersOf(Lines(tr.code))
  {
    AstroCompileResult(PostProcessCode(tr.code), tr.css, tr.scripts, ImportSpecifiers(tr.code), tr.rest)
  }
}
