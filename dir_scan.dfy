/// main.ts `readDirNested`: the `.astro` files of the pages directory, as paths relative to
/// it. The directory tree stands for what `Deno.readDir` yields, directory by directory, in
/// the order it yields the entries.
module DirScan {
  import opened JsString
  import opened Collections
  import opened Paths

  /** An entry of `Deno.readDir`: a file, a directory with its own entries, or anything else
    * (a symbolic link), which is neither `isFile` nor `isDirectory`. */
  datatype Entry = File(name: string) | Directory(name: string, entries: seq<Entry>) | Other(name: string)

  /** `entry.isFile && entry.name.endsWith('.astro')`. */
  predicate IsAstroFile(e: Entry) {
    e.File? && EndsWith(e.name, ".astro")
  }

  /** `directFilePaths`: `join(relativePathToStart, entry.name)` of each `.astro` file, in order. */
  function DirectFiles(p: PathOps, entries: seq<Entry>, rel: string): (r: seq<string>)
    ensures |r| <= |entries|
  {
    if entries == [] then []
    else (if IsAstroFile(entries[0]) then [p.join([rel, entries[0].name])] else []) + DirectFiles(p, entries[1..], rel)
  }

  /** `readDirNested(currentDir, rel)` on a directory with these entries: its own `.astro`
    * files first, then those under each subdirectory, subdirectory after subdirectory. */
  function ReadDirNested(p: PathOps, entries: seq<Entry>, rel: string): seq<string>
    decreases entries, 1
  {
    DirectFiles(p, entries, rel) + Nested(p, entries, rel)
  }

  /** `nestedFilePaths`: the walks of the subdirectories among `entries`, flattened. */
  function Nested(p: PathOps, entries: seq<Entry>, rel: string): seq<string>
    decreases entries, 0
  {
    if entries == [] then []
    else
      (if entries[0].Directory? then ReadDirNested(p, entries[0].entries, p.join([rel, entries[0].name])) else [])
      + Nested(p, entries[1..], rel)
  }

  // ---------------------------------------------------------------------------
  // Reference definitions

  /** How many `.astro` files the tree holds, counted entry by entry. */
  function AstroCount(entries: seq<Entry>): nat
    decreases entries
  {
    if entries == [] then 0
    else
      (match entries[0]
       case File(_) => if IsAstroFile(entries[0]) then 1 else 0
       case Directory(_, children) => AstroCount(children)
       case Other(_) => 0)
      + AstroCount(entries[1..])
  }

  /** The path `x`, relative to the start, names an `.astro` file of the tree. */
  ghost predicate Reaches(p: PathOps, entries: seq<Entry>, rel: string, x: string)
    decreases entries, 1
  {
    exists i :: 0 <= i < |entries| && ReachesVia(p, entries, i, rel, x)
  }

  /** ... through the entry at position `i`: that file itself, or a file under it. */
  ghost predicate ReachesVia(p: PathOps, entries: seq<Entry>, i: nat, rel: string, x: string)
    requires i < |entries|
    decreases entries, 0
  {
    (IsAstroFile(entries[i]) && x == p.join([rel, entries[i].name]))
    || (entries[i].Directory? && Reaches(p, entries[i].entries, p.join([rel, entries[i].name]), x))
  }

  // ---------------------------------------------------------------------------
  // Properties

  /** One path per `.astro` file of the tree, whatever the tree. */
  lemma {:induction false} ReadDirNestedCount(p: PathOps, entries: seq<Entry>, rel: string)
    ensures |ReadDirNested(p, entries, rel)| == AstroCount(entries)
    decreases entries, 1
  {
    NestedCount(p, entries, rel);
  }

  lemma {:induction false} NestedCount(p: PathOps, entries: seq<Entry>, rel: string)
    ensures |DirectFiles(p, entries, rel)| + |Nested(p, entries, rel)| == AstroCount(entries)
    decreases entries, 0
  {
    if entries != [] {
      NestedCount(p, entries[1..], rel);
      if entries[0].Directory? {
        ReadDirNestedCount(p, entries[0].entries, p.join([rel, entries[0].name]));
      }
    }
  }

  /** A path is listed exactly when it names an `.astro` file somewhere in the tree. */
  lemma {:induction false} ReadDirNestedFinds(p: PathOps, entries: seq<Entry>, rel: string, x: string)
    ensures x in ReadDirNested(p, entries, rel) <==> Reaches(p, entries, rel, x)
    decreases entries, 1
  {
    NestedFinds(p, entries, rel, x);
  }

  lemma {:induction false} NestedFinds(p: PathOps, entries: seq<Entry>, rel: string, x: string)
    ensures x in DirectFiles(p, entries, rel) + Nested(p, entries, rel) <==> Reaches(p, entries, rel, x)
    decreases entries, 0
  {
    if entries != [] {
      var e, tail := entries[0], entries[1..];
      NestedFinds(p, tail, rel, x);
      var sub := if e.Directory? then ReadDirNested(p, e.entries, p.join([rel, e.name])) else [];
      if e.Directory? {
        ReadDirNestedFinds(p, e.entries, p.join([rel, e.name]), x);
      }
      var own := if IsAstroFile(e) then [p.join([rel, e.name])] else [];
      assert DirectFiles(p, entries, rel) + Nested(p, entries, rel) == own + DirectFiles(p, tail, rel) + sub + Nested(p, tail, rel);
      assert x in own + sub <==> ReachesVia(p, entries, 0, rel, x);
      ReachesCons(p, entries, rel, x);
    }
  }

  /** The tree reaches `x` through its first entry or through one of the others. */
  lemma ReachesCons(p: PathOps, entries: seq<Entry>, rel: string, x: string)
    requires entries != []
    ensures Reaches(p, entries, rel, x) <==> ReachesVia(p, entries, 0, rel, x) || Reaches(p, entries[1..], rel, x)
  {
    var tail := entries[1..];
    forall i | 0 < i < |entries|
      ensures ReachesVia(p, entries, i, rel, x) == ReachesVia(p, tail, i - 1, rel, x)
    {
      assert tail[i - 1] == entries[i];
    }
    if Reaches(p, tail, rel, x) {
      var i := ReachesWitness(p, tail, rel, x);
      assert ReachesVia(p, entries, i + 1, rel, x);
    }
  }

  lemma ReachesWitness(p: PathOps, entries: seq<Entry>, rel: string, x: string) returns (i: nat)
    requires Reaches(p, entries, rel, x)
    ensures i < |entries| && ReachesVia(p, entries, i, rel, x)
  {
    i :| 0 <= i < |entries| && ReachesVia(p, entries, i, rel, x);
  }

  /** The directory's own `.astro` files come first, in the order they were read. */
  lemma {:induction false} DirectFilesFirst(p: PathOps, entries: seq<Entry>, rel: string, i: nat)
    requires i < |entries| && IsAstroFile(entries[i])
    ensures p.join([rel, entries[i].name]) in ReadDirNested(p, entries, rel)[..|DirectFiles(p, entries, rel)|]
  {
    DirectFilesHas(p, entries, rel, i);
    assert ReadDirNested(p, entries, rel)[..|DirectFiles(p, entries, rel)|] == DirectFiles(p, entries, rel);
  }

  lemma {:induction false} DirectFilesHas(p: PathOps, entries: seq<Entry>, rel: string, i: nat)
    requires i < |entries| && IsAstroFile(entries[i])
    ensures p.join([rel, entries[i].name]) in DirectFiles(p, entries, rel)
  {
    if i > 0 {
      DirectFilesHas(p, entries[1..], rel, i - 1);
    }
  }
}
