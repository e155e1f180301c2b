/// The functions of `std/path` the build calls. Their algorithms (normalising `..`,
/// the platform's separator) are not part of the model: the build only composes them.
module Paths {

  datatype PathOps = PathOps(
    join: seq<string> -> string,              // `join(...segments)`
    relative: (string, string) -> string,     // `relative(from, to)`
    isAbsolute: string -> bool                // `isAbsolute(path)`
  )
}
