/** The exception classes the Python services raise and catch, with their messages. */
module Errors {
  /**
   * `OSError` stands also for `IOError` (the same class in Python 3);
   * `HfHubHttpError` is a subclass of `OSError` (through `requests.HTTPError`).
   */
  datatype Kind =
    | ValueError
    | OSError
    | HfHubHttpError
    | RuntimeError
    | TypeError
    | ForgeError
    | OtherError

  datatype Error = Error(kind: Kind, message: string)

  /** `isinstance(e, OSError)`. */
  predicate IsOSError(k: Kind) { k == OSError || k == HfHubHttpError }
}
