/// The JavaScript string operations the build performs, with the semantics of
/// `String.prototype` (UTF-16 details aside: a `char` here is a Unicode scalar value).
module JsString {
  import opened Js
  import opened Collections

  /** The characters at which `^` and `$` of a multiline regular expression match, and `.` does not. */
  predicate IsLineTerminator(c: char) {
    c == '\n' || c == '\r' || c == '\U{2028}' || c == '\U{2029}'
  }

  predicate NoTerminator(s: string) {
    forall i :: 0 <= i < |s| ==> !IsLineTerminator(s[i])
  }

  /** The class `\s` of a JavaScript regular expression. */
  predicate IsSpace(c: char) {
    || c == '\t' || c == '\n' || c == '\U{B}' || c == '\U{C}' || c == '\r' || c == ' '
    || c == '\U{A0}' || c == '\U{1680}' || ('\U{2000}' <= c <= '\U{200A}')
    || c == '\U{2028}' || c == '\U{2029}' || c == '\U{202F}' || c == '\U{205F}'
    || c == '\U{3000}' || c == '\U{FEFF}'
  }

  /** The class `\w` of a JavaScript regular expression. */
  predicate IsWordChar(c: char) {
    ('a' <= c <= 'z') || ('A' <= c <= 'Z') || ('0' <= c <= '9') || c == '_'
  }

  /** The class `\d` of a JavaScript regular expression. */
  predicate IsDigit(c: char) {
    '0' <= c <= '9'
  }

  /** `t[a..b]` is made of characters of class `cls`. */
  predicate Run(t: string, a: nat, b: nat, cls: char -> bool) {
    a <= b <= |t| && forall k :: a <= k < b ==> cls(t[k])
  }

  /** The end of the longest run of class `cls` that starts at `i`. */
  function Skip(t: string, i: nat, cls: char -> bool): (j: nat)
    requires i <= |t|
    ensures Run(t, i, j, cls)
    ensures j == |t| || !cls(t[j])
    decreases |t| - i
  {
    if i < |t| && cls(t[i]) then Skip(t, i + 1, cls) else i
  }

  /** A run that stops at a character outside its class is the longest one. */
  lemma SkipExact(t: string, i: nat, j: nat, cls: char -> bool)
    requires Run(t, i, j, cls)
    requires j == |t| || !cls(t[j])
    ensures Skip(t, i, cls) == j
  {
  }

  predicate OccursAt(s: string, pat: string, i: nat) {
    i + |pat| <= |s| && s[i..i + |pat|] == pat
  }

  /** `s.endsWith(suffix)`. */
  predicate EndsWith(s: string, suffix: string) {
    |suffix| <= |s| && s[|s| - |suffix|..] == suffix
  }

  /** `s.indexOf(pat, from)`. */
  function IndexFrom(s: string, pat: string, from: nat): (r: Option<nat>)
    ensures r.Some? ==> from <= r.value && OccursAt(s, pat, r.value)
    ensures r.Some? ==> forall j :: from <= j < r.value ==> !OccursAt(s, pat, j)
    ensures r.None? ==> forall j :: from <= j ==> !OccursAt(s, pat, j)
    decreases |s| - from
  {
    if from + |pat| > |s| then None
    else if s[from..from + |pat|] == pat then Some(from)
    else IndexFrom(s, pat, from + 1)
  }

  /** `s.replace(pat, rep)` with a string pattern: only the first occurrence is replaced. */
  function ReplaceFirst(s: string, pat: string, rep: string): string {
    match IndexFrom(s, pat, 0)
    case None => s
    case Some(i) => s[..i] + rep + s[i + |pat|..]
  }

  /** `s.replaceAll(c, rep)` for a pattern of one character. */
  function ReplaceChar(s: string, c: char, rep: string): (r: string)
    ensures c !in rep ==> c !in r
    ensures c !in s ==> r == s
  {
    if s == [] then [] else (if s[0] == c then rep else [s[0]]) + ReplaceChar(s[1..], c, rep)
  }

  /** `replaceAll` works piecewise: the replacement of a concatenation is the concatenation
    * of the replacements. */
  lemma {:induction false} ReplaceCharAppend(s: string, t: string, c: char, rep: string)
    ensures ReplaceChar(s + t, c, rep) == ReplaceChar(s, c, rep) + ReplaceChar(t, c, rep)
  {
    if s == [] {
      assert s + t == t;
    } else {
      var head := if s[0] == c then rep else [s[0]];
      assert ReplaceChar(s + t, c, rep) == head + ReplaceChar(s[1..] + t, c, rep) by {
        assert (s + t)[0] == s[0] && (s + t)[1..] == s[1..] + t;
      }
      ReplaceCharAppend(s[1..], t, c, rep);
    }
  }

  /** A single character becomes the replacement when it is the replaced one and stays
    * otherwise. */
  lemma ReplaceCharOne(x: char, c: char, rep: string)
    ensures ReplaceChar([x], c, rep) == (if x == c then rep else [x])
  {
    assert [x][1..] == [];
  }

  /** How `slice` reads a possibly negative index into a string of length `len`. */
  function RelativeIndex(i: int, len: nat): (r: nat)
    ensures r <= len
    ensures 0 <= i <= len ==> r == i
  {
    if i < 0 then (if len + i < 0 then 0 else len + i) else if i > len then len else i
  }

  /** `s.slice(start, end)`. */
  function Slice(s: string, start: int, end: int): string {
    var from, to := RelativeIndex(start, |s|), RelativeIndex(end, |s|);
    if from < to then s[from..to] else []
  }

  /** `s.slice(start)`. */
  function SliceFrom(s: string, start: int): string {
    s[RelativeIndex(start, |s|)..]
  }

  /** `xs.join(sep)`. */
  function Join(xs: seq<string>, sep: string): string {
    if |xs| == 0 then [] else if |xs| == 1 then xs[0] else xs[0] + sep + Join(xs[1..], sep)
  }

  /** `toUpperCase` on one character, for the ASCII letters. */
  function UpperChar(c: char): char {
    if 'a' <= c <= 'z' then (c as int - 'a' as int + 'A' as int) as char else c
  }

  /** `toLowerCase` on one character, for the ASCII letters. */
  function LowerChar(c: char): char {
    if 'A' <= c <= 'Z' then (c as int - 'A' as int + 'a' as int) as char else c
  }

  function ToUpper(s: string): (r: string)
    ensures |r| == |s| && forall i :: 0 <= i < |s| ==> r[i] == UpperChar(s[i])
  {
    if s == [] then [] else [UpperChar(s[0])] + ToUpper(s[1..])
  }

  function ToLower(s: string): (r: string)
    ensures |r| == |s| && forall i :: 0 <= i < |s| ==> r[i] == LowerChar(s[i])
  {
    if s == [] then [] else [LowerChar(s[0])] + ToLower(s[1..])
  }

  function DigitChar(d: nat): char
    requires d < 10
  {
    ('0' as int + d) as char
  }

  /** `String(n)` for a natural number. */
  function DecimalString(n: nat): (r: string)
    ensures |r| >= 1 && forall i :: 0 <= i < |r| ==> IsDigit(r[i])
  {
    if n < 10 then [DigitChar(n)] else DecimalString(n / 10) + [DigitChar(n % 10)]
  }

  /** Different numbers are written differently. */
  lemma {:induction false} DecimalStringInjective(m: nat, n: nat)
    requires DecimalString(m) == DecimalString(n)
    ensures m == n
    decreases m
  {
    var a, b := DecimalString(m), DecimalString(n);
    if m >= 10 && n >= 10 {
      assert a[..|a| - 1] == DecimalString(m / 10);
      assert b[..|b| - 1] == DecimalString(n / 10);
      DecimalStringInjective(m / 10, n / 10);
      assert DigitChar(m % 10) == a[|a| - 1] == b[|b| - 1] == DigitChar(n % 10);
    } else if m < 10 && n < 10 {
      assert DigitChar(m) == a[0] == b[0] == DigitChar(n);
    }
  }

  // ---------------------------------------------------------------------------
  // Lines, as a multiline regular expression sees them

  /** The part of a piece of `Lines` before its line terminator. */
  function Content(piece: string): string {
    if |piece| > 0 && IsLineTerminator(piece[|piece| - 1]) then piece[..|piece| - 1] else piece
  }

  /** The line terminator that ends a piece of `Lines`, if any. */
  function Terminator(piece: string): string {
    if |piece| > 0 && IsLineTerminator(piece[|piece| - 1]) then [piece[|piece| - 1]] else []
  }

  /** One line followed by its terminator. */
  predicate IsLine(piece: string) {
    |piece| >= 1 && IsLineTerminator(piece[|piece| - 1]) && NoTerminator(piece[..|piece| - 1])
  }

  /** Every piece but the last is one line and its terminator; the last has no terminator. */
  predicate WellSplit(pieces: seq<string>) {
    |pieces| >= 1 &&
    if |pieces| == 1 then NoTerminator(pieces[0]) else IsLine(pieces[0]) && WellSplit(pieces[1..])
  }

  /** `s` cut after every line terminator: the lines that `^` and `$` delimit. */
  function Lines(s: string): (pieces: seq<string>)
    ensures |pieces| >= 1
  {
    if s == [] then [[]]
    else
      var rest := Lines(s[1..]);
      if IsLineTerminator(s[0]) then [[s[0]]] + rest
      else [[s[0]] + rest[0]] + rest[1..]
  }

  lemma {:induction false} LinesOfLinePrefix(a: string, t: string)
    requires NoTerminator(a)
    ensures Lines(a + t) == [a + Lines(t)[0]] + Lines(t)[1..]
  {
    if a != [] {
      assert (a + t)[0] == a[0] && !IsLineTerminator(a[0]);
      assert (a + t)[1..] == a[1..] + t;
      assert NoTerminator(a[1..]);
      LinesOfLinePrefix(a[1..], t);
      assert [a[0]] + (a[1..] + Lines(t)[0]) == a + Lines(t)[0];
    } else {
      assert a + t == t;
      assert a + Lines(t)[0] == Lines(t)[0];
      assert [Lines(t)[0]] + Lines(t)[1..] == Lines(t);
    }
  }

  lemma LinesOfLine(p: string, t: string)
    requires IsLine(p)
    ensures Lines(p + t) == [p] + Lines(t)
  {
    var a, c := p[..|p| - 1], p[|p| - 1];
    assert ([c] + t)[1..] == t;
    assert Lines([c] + t) == [[c]] + Lines(t);
    assert p + t == a + ([c] + t);
    LinesOfLinePrefix(a, [c] + t);
    assert a + [c] == p;
  }

  /** The pieces of `Lines(s)` spell `s`. */
  lemma {:induction false} LinesFlatten(s: string)
    ensures Flatten(Lines(s)) == s
  {
    if s != [] {
      var rest := Lines(s[1..]);
      LinesFlatten(s[1..]);
      if IsLineTerminator(s[0]) {
        assert Lines(s) == [[s[0]]] + rest;
        assert Lines(s)[1..] == rest;
      } else {
        var first := [s[0]] + rest[0];
        assert Lines(s) == [first] + rest[1..];
        assert Flatten(Lines(s)) == first + Flatten(rest[1..]);
        assert Flatten(rest) == rest[0] + Flatten(rest[1..]);
      }
    }
  }

  /** The pieces of `Lines(s)` are well split. */
  lemma {:induction false} LinesWellSplit(s: string)
    ensures WellSplit(Lines(s))
  {
    if s != [] {
      var rest := Lines(s[1..]);
      LinesWellSplit(s[1..]);
      if IsLineTerminator(s[0]) {
        assert Lines(s) == [[s[0]]] + rest;
        assert Lines(s)[1..] == rest;
        assert IsLine([s[0]]) by { assert [s[0]][..0] == []; }
      } else {
        var first := [s[0]] + rest[0];
        assert Lines(s) == [first] + rest[1..];
        if |rest| == 1 {
          assert NoTerminator(first);
        } else {
          assert IsLine(rest[0]);
          assert first[..|first| - 1] == [s[0]] + rest[0][..|rest[0]| - 1];
          assert IsLine(first);
          assert Lines(s)[1..] == rest[1..];
        }
      }
    }
  }

  /** The pieces of `Lines(s)` spell `s` and are well split. */
  lemma LinesSpell(s: string)
    ensures Flatten(Lines(s)) == s
    ensures WellSplit(Lines(s))
  {
    LinesFlatten(s);
    LinesWellSplit(s);
  }

  /** Cutting the concatenation of well-split pieces gives the pieces back. */
  lemma {:induction false} LinesOfFlatten(pieces: seq<string>)
    requires WellSplit(pieces)
    ensures Lines(Flatten(pieces)) == pieces
  {
    if |pieces| == 1 {
      assert Flatten(pieces) == pieces[0] + [];
      LinesOfLinePrefix(pieces[0], []);
      assert Lines([]) == [[]];
      assert pieces[0] + [] == pieces[0];
      assert pieces == [pieces[0]];
    } else {
      LinesOfFlatten(pieces[1..]);
      assert Flatten(pieces) == pieces[0] + Flatten(pieces[1..]);
      LinesOfLine(pieces[0], Flatten(pieces[1..]));
    }
  }

  /** Rebuilding a piece from its content and terminator. */
  lemma ContentTerminator(piece: string)
    ensures Content(piece) + Terminator(piece) == piece
  {
  }

  // ---------------------------------------------------------------------------
  // JSON string literals

  function HexDigit(n: nat): char
    requires n < 16
  {
    if n < 10 then ('0' as int + n) as char else ('a' as int + n - 10) as char
  }

  function HexValue(c: char): (r: Option<nat>)
    ensures r.Some? ==> r.value < 16
  {
    if '0' <= c <= '9' then Some(c as int - '0' as int)
    else if 'a' <= c <= 'f' then Some(c as int - 'a' as int + 10)
    else if 'A' <= c <= 'F' then Some(c as int - 'A' as int + 10)
    else None
  }

  /** How `JSON.stringify` writes one character of a string. */
  function EscapeChar(c: char): string {
    if c == '"' then "\\\""
    else if c == '\\' then "\\\\"
    else if c == '\U{8}' then "\\b"
    else if c == '\t' then "\\t"
    else if c == '\n' then "\\n"
    else if c == '\U{C}' then "\\f"
    else if c == '\r' then "\\r"
    else if (c as int) < 0x20 then "\\u00" + [HexDigit((c as int) / 16), HexDigit((c as int) % 16)]
    else [c]
  }

  function JsonEscape(s: string): string {
    if s == [] then [] else EscapeChar(s[0]) + JsonEscape(s[1..])
  }

  /** `JSON.stringify(s)` for a string `s`. */
  function JsonStringify(s: string): string {
    "\"" + JsonEscape(s) + "\""
  }

  /** `JSON.stringify(xs)` for an array of strings. */
  function JsonStringifyAll(xs: seq<string>): string {
    "[" + Join(seq(|xs|, i requires 0 <= i < |xs| => JsonStringify(xs[i])), ",") + "]"
  }

  /** The character each two-character escape of a JSON string stands for. */
  const SimpleEscapes: map<char, char> :=
    map['"' := '"', '\\' := '\\', '/' := '/', 'b' := '\U{8}', 'f' := '\U{C}',
        'n' := '\n', 'r' := '\r', 't' := '\t']

  /** The value of four hexadecimal digits. */
  function CodeUnit(h: string): (r: Option<nat>)
    requires |h| == 4
    ensures r.Some? ==> r.value < 0x10000
  {
    match (HexValue(h[0]), HexValue(h[1]), HexValue(h[2]), HexValue(h[3]))
    case (Some(a), Some(b), Some(c), Some(d)) => Some(a * 4096 + b * 256 + c * 16 + d)
    case _ => None
  }

  /** The body of a JSON string literal read back, as `JSON.parse` does. */
  function JsonUnescape(t: string): Option<string>
    decreases |t|
  {
    if t == [] then Some([])
    else if t[0] == '\\' then
      if |t| >= 2 && t[1] in SimpleEscapes then
        match JsonUnescape(t[2..])
        case None => None
        case Some(rest) => Some([SimpleEscapes[t[1]]] + rest)
      else if |t| >= 6 && t[1] == 'u' then
        match CodeUnit(t[2..6])
        case None => None
        case Some(v) =>
          if 0xD800 <= v < 0xE000 then None
          else match JsonUnescape(t[6..])
            case None => None
            case Some(rest) => Some([v as char] + rest)
      else None
    else if t[0] == '"' || (t[0] as int) < 0x20 then None
    else
      match JsonUnescape(t[1..])
      case None => None
      case Some(rest) => Some([t[0]] + rest)
  }

  /** `JSON.parse(t)` where `t` should be a string literal. */
  function JsonParseString(t: string): Option<string> {
    if |t| >= 2 && t[0] == '"' && t[|t| - 1] == '"' then JsonUnescape(t[1..|t| - 1]) else None
  }

  lemma UnescapeSimple(x: char, t: string, rest: string)
    requires x in SimpleEscapes && JsonUnescape(t) == Some(rest)
    ensures JsonUnescape(['\\', x] + t) == Some([SimpleEscapes[x]] + rest)
  {
    assert (['\\', x] + t)[2..] == t;
  }

  lemma UnescapeHex(n: nat, t: string, rest: string)
    requires n < 0x20 && JsonUnescape(t) == Some(rest)
    ensures JsonUnescape("\\u00" + [HexDigit(n / 16), HexDigit(n % 16)] + t) == Some([n as char] + rest)
  {
    var e := "\\u00" + [HexDigit(n / 16), HexDigit(n % 16)] + t;
    assert e[2..6] == ['0', '0', HexDigit(n / 16), HexDigit(n % 16)];
    assert CodeUnit(e[2..6]) == Some(n / 16 * 16 + n % 16);
    assert e[6..] == t;
  }

  lemma UnescapePlain(c: char, t: string, rest: string)
    requires c != '"' && c != '\\' && (c as int) >= 0x20 && JsonUnescape(t) == Some(rest)
    ensures JsonUnescape([c] + t) == Some([c] + rest)
  {
    assert ([c] + t)[1..] == t;
  }

  lemma EscapeCharThenUnescape(c: char, t: string, rest: string)
    requires JsonUnescape(t) == Some(rest)
    ensures JsonUnescape(EscapeChar(c) + t) == Some([c] + rest)
  {
    if c == '"' {
      UnescapeSimple('"', t, rest);
    } else if c == '\\' {
      UnescapeSimple('\\', t, rest);
    } else if c == '\U{8}' {
      UnescapeSimple('b', t, rest);
    } else if c == '\t' {
      UnescapeSimple('t', t, rest);
    } else if c == '\n' {
      UnescapeSimple('n', t, rest);
    } else if c == '\U{C}' {
      UnescapeSimple('f', t, rest);
    } else if c == '\r' {
      UnescapeSimple('r', t, rest);
    } else if (c as int) < 0x20 {
      UnescapeHex(c as int, t, rest);
    } else {
      UnescapePlain(c, t, rest);
    }
  }

  lemma {:induction false} UnescapeEscape(s: string)
    ensures JsonUnescape(JsonEscape(s)) == Some(s)
  {
    if s != [] {
      UnescapeEscape(s[1..]);
      assert JsonEscape(s) == EscapeChar(s[0]) + JsonEscape(s[1..]);
      EscapeCharThenUnescape(s[0], JsonEscape(s[1..]), s[1..]);
      assert [s[0]] + s[1..] == s;
    } else {
      assert JsonEscape(s) == [];
    }
  }

  /** What `JSON.stringify` writes, `JSON.parse` reads back unchanged. */
  lemma JsonRoundTrip(s: string)
    ensures JsonParseString(JsonStringify(s)) == Some(s)
  {
    var q := JsonStringify(s);
    assert q[1..|q| - 1] == JsonEscape(s);
    UnescapeEscape(s);
  }
}
