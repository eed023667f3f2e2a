/** Failure-carrying values shared by every module of the model. */
module Wrappers {

  /** A value that may be absent (Go's nil or zero value). */
  datatype Option<+T> = None | Some(value: T)

  /** Either a value or the error a Go function returned beside it. */
  datatype Result<+T, +E> = Success(value: T) | Failure(error: E)

  /** The errors the CRUD handlers surface to their caller. The handlers never
      inspect an error beyond passing it on, so collaborator errors stay opaque. */
  datatype Error =
    | ParseError(input: string)   // strconv.Atoi rejected the path parameter
    | BindError(detail: string)   // request binding (gin) failed
    | StoreError(detail: string)  // the persistence layer (gorm) failed
}
