/**
 The outcome of a Go call that returns `(value, error)`, extended with the one
 runtime panic the extractor can raise, and the error values gover produces.
 */
module Outcomes {

  datatype Option<+T> = None | Some(value: T)

  /**
   What a library call gover makes returns: its value, or an error known only
   by its text. Such a call cannot panic and cannot produce gover's own errors.
   */
  datatype Fallible<+T> = Done(value: T) | Failed(msg: string)

  /** The errors that reach the caller of `GetVersion`. */
  datatype Error =
    | OsError(msg: string)                              // from filepath.Abs or os.Stat, text chosen by the host
    | ParseError(msg: string)                           // from parser.ParseDir, text chosen by the host
    | PackageNotFound(pkgName: string, pkgDir: string)  // neither package "main" nor the directory's base name
    | NotBasicLiteral                                   // the first Version binding is not a literal token
    | NoVersionDeclaration                              // no top-level value spec binds Version

  /** The text `err.Error()` yields for each error. */
  function Message(e: Error): string
  {
    match e
    case OsError(msg) => msg
    case ParseError(msg) => msg
    case PackageNotFound(name, dir) => "cannot find package main or " + name + " in " + dir
    case NotBasicLiteral => "the Version object should be a basic literal"
    case NoVersionDeclaration => "no Version declaration found"
  }

  /**
   A Go `(value, error)` pair, or a runtime panic "index out of range [index]
   with length length", which unwinds through every caller unchanged.
   Failure-compatible, so `:-` gives Go's `if err != nil { return ..., err }`.
   */
  datatype Result<+T> = Ok(value: T) | Err(error: Error) | Panic(index: nat, length: nat) {

    predicate IsFailure() {
      !Ok?
    }

    function PropagateFailure<U>(): (r: Result<U>)
      requires IsFailure()
      ensures r.Err? <==> Err?
      ensures Err? ==> r.error == error
      ensures Panic? ==> r == Panic(index, length)
    {
      match this
      case Err(e) => Err(e)
      case Panic(i, n) => Panic(i, n)
    }

    function Extract(): T
      requires Ok?
    {
      value
    }
  }
}
