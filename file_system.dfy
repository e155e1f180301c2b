/// The file system as the build sees it: text files by path. Directories, permissions
/// and failing writes are not part of the model.
module FileSystem {
  import opened Js

  class Files {
    var contents: map<string, string>

    constructor (contents: map<string, string>)
      ensures this.contents == contents
    {
      this.contents := contents;
    }

    /** `Deno.readTextFile(path)`: the text, or `NotFound` when no file is there. */
    method Read(path: string) returns (r: Result<string>)
      ensures r == ReadFrom(contents, path)
    {
      r := if path in contents then Ok(contents[path]) else Err(NotFound(path));
    }

    /** `Deno.writeTextFile(path, text)`, and `mkdirWriteFile`, whose directories are not modelled. */
    method Write(path: string, text: string)
      modifies this
      ensures contents == old(contents)[path := text]
    {
      contents := contents[path := text];
    }
  }

  /** What reading `path` from `files` gives. */
  function ReadFrom(files: map<string, string>, path: string): (r: Result<string>)
    ensures r.Ok? <==> path in files
    ensures r.Ok? ==> r.value == files[path]
    ensures r.Err? ==> r.error == NotFound(path)
  {
    if path in files then Ok(files[path]) else Err(NotFound(path))
  }

  /** Outside the paths `written`, `after` has exactly the files of `before`, with their texts. */
  ghost predicate OnlyWrote(before: map<string, string>, after: map<string, string>, written: seq<string>) {
    forall k :: k !in written ==> (k in after <==> k in before) && (k in before ==> after[k] == before[k])
  }

  /** Two rounds of writing change only what either listed. */
  lemma OnlyWroteThen(a: map<string, string>, b: map<string, string>, c: map<string, string>, first: seq<string>, second: seq<string>, written: seq<string>)
    requires OnlyWrote(a, b, first) && OnlyWrote(b, c, second)
    requires forall k :: k in first ==> k in written
    requires forall k :: k in second ==> k in written
    ensures OnlyWrote(a, c, written)
  {
  }

  /** Writing once more a file already listed keeps the list covering every write. */
  lemma OnlyWroteOneMore(before: map<string, string>, after: map<string, string>, written: seq<string>, path: string, text: string)
    requires OnlyWrote(before, after, written) && path in written
    ensures OnlyWrote(before, after[path := text], written)
  {
  }
}
