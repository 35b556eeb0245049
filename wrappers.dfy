/** Option and Result types, and the error taxonomy that the Python code raises. */
module Wrappers {

  datatype Option<T> = None | Some(value: T)

  /** Why an operating-system call failed (the errno classes the model distinguishes). */
  datatype OSReason =
    | NotFound          // ENOENT
    | AlreadyExists     // EEXIST
    | IsADirectory      // EISDIR
    | NotADirectory     // ENOTDIR
    | TooManyLinks      // ELOOP
    | SymlinkRoot       // shutil.rmtree on a symbolic link

  /** An exception raised by the packager. */
  datatype Error =
    | KeyError(key: string)
    | ValueError(message: string)
    | AssertionError
    | IndexError
    | ParsingError(path: seq<string>)
    | OSError(reason: OSReason, path: seq<string>)
    | ShutilError(path: seq<string>)     // shutil.Error: "Destination path … already exists"
    | SameFileError(path: seq<string>)   // shutil.SameFileError: source and destination are one file

  datatype Result<T> = Ok(value: T) | Err(error: Error) {
    predicate IsFailure() { Err? }

    function PropagateFailure<U>(): Result<U>
      requires Err?
    {
      Err(error)
    }

    function Extract(): T
      requires Ok?
    {
      value
    }
  }

  /** The result of an operation that returns nothing but may raise. */
  datatype Outcome = Pass | Fail(error: Error) {
    predicate IsFailure() { Fail? }

    function PropagateFailure(): Outcome
      requires Fail?
    {
      this
    }
  }
}
