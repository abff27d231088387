/** Results shared by every component: an optional value, and a call that may raise. */
module Outcome {

  datatype Option<+T> = None | Some(value: T)

  /** The exceptions the modelled code raises, by their Python class. */
  datatype Error =
    | ValueError
    | KeyError
    | IndexError
    | RuntimeError
    | IntegrityError          // a database constraint fails and the transaction rolls back
    | FileExistsError
    | FileNotFoundError
    | OSError
    | ArtifactIntegrityError

  datatype Result<+T> = Ok(value: T) | Err(error: Error)
}
