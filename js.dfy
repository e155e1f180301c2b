/// The JavaScript notions the build leans on: optional values, thrown errors and
/// the way a promise returned by foreign code settles.
module Js {

  datatype Option<T> = None | Some(value: T)

  /** The `cause` carried by an `Error` the build throws. */
  datatype Cause =
    | NoCause
    | ScriptCause(src: string)    // the offending hoisted script, named by its `src`
    | InputCause(input: string)   // the source text a foreign compiler choked on
    | PathCause(path: string)     // the path an operation refused

  /** Every way an operation of the build can fail. */
  datatype Error =
    | Thrown(message: string, cause: Cause)   // `throw new Error(message, { cause })`
    | Propagated(reason: string)              // a rejection of foreign code, passed on unchanged
    | NotFound(path: string)                  // `Deno.readTextFile` of a path that holds no file
    | TypeError(message: string)              // a JavaScript runtime type error
    | FuelExhausted                           // the model's bound on a recursion the source leaves unguarded

  datatype Result<T> = Ok(value: T) | Err(error: Error)

  /** How a promise returned by code outside the model settles. */
  datatype Foreign<T> = Fulfilled(value: T) | Rejected(reason: string)

  /** How a promise that carries no value (loading a wasm module) settles. */
  datatype Outcome = Succeeded | Failed(reason: string)
}
