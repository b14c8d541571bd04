/** Option and Result, standing in for Kotlin's nullable types and thrown exceptions. */
module Wrappers {

  /** A Kotlin `T?`: `None` is `null`. */
  datatype Option<+T> = None | Some(value: T) {
    function GetOr(default: T): T {
      match this
      case Some(v) => v
      case None => default
    }
  }

  /** The exceptions the modelled code can throw. */
  datatype Failure =
    | IllegalArgument(message: string)   // require(...) failed
    | IllegalState(message: string)      // check(...) / error(...) failed
    | NoSuchElement                      // first()/single() on an empty collection
    | ProcessorFailed(processorName: string, cause: Option<Failure>)  // DocProcessorFailedException
    | IndexOutOfBounds                   // subList(...) outside the list
    | Thrown(message: string)            // any other exception a caller-supplied function throws
    | StackOverflow                      // a call that recurses without end

  /** A computation that either returns a value or throws. */
  datatype Result<+R> = Ok(value: R) | Err(error: Failure)
}
