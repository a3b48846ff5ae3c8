/** The absent-or-present value that the TypeScript code writes as `T | undefined` or `T | null`. */
module Wrappers {

  datatype Option<+T> = None | Some(value: T)

  /** The present value, or `default` when there is none: how a spread treats one field. */
  function Pick<T>(o: Option<T>, default: T): T
  {
    match o
    case Some(v) => v
    case None => default
  }
}
