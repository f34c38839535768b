/** Errors and the failure-carrying result types shared by the whole model.
    Go's `(value, error)` pairs become `Result`, a bare `error` return becomes `Status`. */
module Errors {

  /** The registered claims (section 4.1 of RFC 7519) whose validators can reject a token. */
  datatype Claim = IssuedAt | Expiration | Audience | Issuer | Subject

  /** An error value. The texts that the middleware builds itself are constants below;
      errors raised by the jwt library, the signer or the caller's user lookup are opaque
      and travel as whatever `Error` those collaborators return. */
  datatype Error =
    | Message(text: string)        // errors.New(text), or any error a collaborator returns
    | ClaimInvalid(claim: Claim)   // the jwt library's validator error for that claim
    | NoCookie                     // net/http's "named cookie not present"

  /** The text of the error returned by config.New for a negative lifetime. */
  const NegativeExpireInText := "expireIn must be 0-included positive time.Duration"

  /** The text of the error returned when a verified token carries an empty ID. */
  const NotAuthenticatedUserText := "Not authenticated user"

  datatype Option<T> = None | Some(value: T)

  datatype Result<T> = Success(value: T) | Failure(error: Error)

  /** Go's plain `error` result: nil (`Pass`) or an error (`Fail`). */
  datatype Status = Pass | Fail(error: Error)
}
