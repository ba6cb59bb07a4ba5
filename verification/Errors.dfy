/** The errors that pass between the layers (errors.go, lines 12-40), and results that may be one. */
module Errors {
  import opened Common

  datatype Error =
    | Api(status: int, code: string, hasPendingRequest: bool)  // APIError: the server answered with a failure
    | Transport                                                // RequestError: no answer
    | NotLoggedIn
    | SessionHandleInvalid
    | SlotIDInvalid
    | SignNotActive
    | SignAlreadyActive
    | FindAlreadyActive
    | FindNotActive
    | NoToken
    | NoCredentials
    | NoCertificate
    | SignerNotFound
    | UndecodableCertificate
    | WrongKeyType
    | InvalidDigestInfo
    | UnsupportedMechanism
    | UndecodableSignature
    | SignBufferExceeded
  {
    predicate IsApprovalRequired() {
      Api? && status == 403 && code == "ApprovalRequired"
    }

    predicate IsUnauthorized() {
      Api? && status == 401
    }
  }

  datatype Result<+T> = Ok(value: T) | Err(error: Error)
}
