/** Failure-compatible wrappers and the shared loading tri-state of every page. */
module Base {

  /** `undefined`/`null` versus a present value. */
  datatype Option<+T> = None | Some(value: T) {
    function GetOr(default: T): T {
      match this
      case Some(v) => v
      case None => default
    }
  }

  /** The settled result of one remote call: the decoded body, or the message of the
      error the fetch wrapper throws (status, status text and body text). */
  datatype Outcome<+T> = Ok(value: T) | Err(message: string)

  /** `'idle' | 'loading' | 'error'` of each page's data sources. */
  datatype LoadingState = Idle | Loading | Error
}
