/** `middleware.JwtToUser`: from a token string to the user the caller's lookup returns. */
module JwtConverter {
  import opened Errors
  import opened Jwt
  import opened Token
  import Config

  /** Extract the token, reject an empty ID, then look the ID up with `findUser`. The
      lookup is the caller's; `con` is the opaque value the caller hands back to it. */
  function JwtToUser<C, U>(
    jwtStr: string, findUser: (C, string) -> Result<U>, con: C,
    conf: Config.Config, codec: Codec, now: int): (r: Result<U>)
    ensures var t := ExtractToken(jwtStr, conf.signer, codec, conf.audience, conf.issuer, conf.subject, now);
      && (t.Failure? ==> r == Failure(t.error))
      && (t.Success? && t.value.id == "" ==> r == Failure(Message(NotAuthenticatedUserText)))
      && (t.Success? && t.value.id != "" ==> r == findUser(con, t.value.id))
  {
    match ExtractToken(jwtStr, conf.signer, codec, conf.audience, conf.issuer, conf.subject, now)
    case Failure(e) => Failure(e)
    case Success(token) =>
      if |token.id| < 1 then Failure(Message(NotAuthenticatedUserText))
      else
        match findUser(con, token.id)
        case Failure(e) => Failure(e)
        case Success(user) => Success(user)
  }

  /** A user is returned only for a token that is authentic, currently valid and carries a
      non-empty ID, and it is the very user the lookup returned for that ID. */
  lemma UserOnlyFromValidToken<C, U>(
    jwtStr: string, findUser: (C, string) -> Result<U>, con: C,
    conf: Config.Config, codec: Codec, now: int)
    requires JwtToUser(jwtStr, findUser, con, conf, codec, now).Success?
    ensures var t := ExtractToken(jwtStr, conf.signer, codec, conf.audience, conf.issuer, conf.subject, now);
      && t.Success? && t.value.id != ""
      && Carries(jwtStr, t.value, conf.signer, codec)
      && ClaimsValid(t.value, now, conf.audience, conf.issuer, conf.subject)
      && findUser(con, t.value.id) == JwtToUser(jwtStr, findUser, con, conf, codec, now)
  {
  }

  /** When extraction fails or the ID is empty the lookup is never consulted: any two
      lookups give the same result, and that result is an error. */
  lemma LookupOnlyForNonEmptyId<C, U>(
    jwtStr: string, findUser: (C, string) -> Result<U>, otherFindUser: (C, string) -> Result<U>, con: C,
    conf: Config.Config, codec: Codec, now: int)
    requires var t := ExtractToken(jwtStr, conf.signer, codec, conf.audience, conf.issuer, conf.subject, now);
      t.Failure? || t.value.id == ""
    ensures JwtToUser(jwtStr, findUser, con, conf, codec, now).Failure?
    ensures JwtToUser(jwtStr, findUser, con, conf, codec, now) == JwtToUser(jwtStr, otherFindUser, con, conf, codec, now)
  {
  }

  /** A token composed for `c` and presented inside its window, with the configured
      audience, issuer and subject and a non-empty ID, yields whatever the lookup returns
      for that ID: the user on success, the lookup's own error otherwise. */
  lemma ValidTokenReachesLookup<C, U>(
    c: Claims, findUser: (C, string) -> Result<U>, con: C,
    conf: Config.Config, codec: Codec, now: int)
    requires SignsVerifiably(conf.signer, codec) && RoundTrips(codec)
    requires ComposeToken(c, conf.signer, codec).Success?
    requires ClaimsValid(c, now, conf.audience, conf.issuer, conf.subject)
    requires c.id != ""
    ensures JwtToUser(ComposeToken(c, conf.signer, codec).value, findUser, con, conf, codec, now) == findUser(con, c.id)
  {
    ComposeThenExtract(c, conf.signer, codec, now);
  }

  /** A valid token with an empty ID is refused with "Not authenticated user". */
  lemma EmptyIdRejected<C, U>(
    c: Claims, findUser: (C, string) -> Result<U>, con: C,
    conf: Config.Config, codec: Codec, now: int)
    requires SignsVerifiably(conf.signer, codec) && RoundTrips(codec)
    requires ComposeToken(c, conf.signer, codec).Success?
    requires ClaimsValid(c, now, conf.audience, conf.issuer, conf.subject)
    requires c.id == ""
    ensures JwtToUser(ComposeToken(c, conf.signer, codec).value, findUser, con, conf, codec, now)
            == Failure(Message(NotAuthenticatedUserText))
  {
    ComposeThenExtract(c, conf.signer, codec, now);
  }

  /** A token for the configured audience, issuer and subject whose expiration time has
      passed is refused with the expiration error, whatever its ID. */
  lemma ExpiredTokenRefused<C, U>(
    c: Claims, findUser: (C, string) -> Result<U>, con: C,
    conf: Config.Config, codec: Codec, now: int)
    requires SignsVerifiably(conf.signer, codec) && RoundTrips(codec)
    requires ComposeToken(c, conf.signer, codec).Success?
    requires c.audience == conf.audience && c.issuer == conf.issuer && c.subject == conf.subject
    requires c.issuedAt <= now && c.expirationTime <= now
    ensures JwtToUser(ComposeToken(c, conf.signer, codec).value, findUser, con, conf, codec, now)
            == Failure(ClaimInvalid(Expiration))
  {
    ExpiredTokenRejected(c, conf.signer, codec, now);
  }
}
