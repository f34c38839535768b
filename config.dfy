/** The middleware's configuration and its validating factory `New`. */
module Config {
  import opened Errors
  import Http
  import Jwt

  /** `time.Duration`: a signed 64-bit count of nanoseconds. */
  type Duration = d: int | -0x8000_0000_0000_0000 <= d < 0x8000_0000_0000_0000

  const Second: Duration := 1_000_000_000
  const Minute: Duration := 60 * Second

  /** The lifetime `New` substitutes for a zero lifetime: 3600 minutes. */
  const DefaultExpireIn: Duration := 3600 * Minute

  /** Which transport the application uses; `Cookie` is Go's zero value. */
  datatype MiddlewareType = Cookie | Header

  /** The attributes `Login` copies onto the session cookie. */
  datatype CookieConfig = CookieConfig(path: string, domain: string, secure: bool, httpOnly: bool, sameSite: Http.SameSite)

  /** The one configuration record every operation reads. `sessionName` names the header
      or the cookie that carries the token. */
  datatype Config = Config(
    cookie: CookieConfig,
    sessionName: string,
    middlewareType: MiddlewareType,
    signer: Jwt.Signer,
    audience: string, issuer: string, subject: string,
    expireIn: Duration)

  /** A configuration `New` can produce: its lifetime is strictly positive. */
  predicate Normalised(c: Config)
  {
    c.expireIn > 0
  }

  /** `config.New`: rejects a negative lifetime, replaces a zero lifetime by the default,
      and copies every other argument unchecked. */
  function New(
    sessionName: string, middlewareType: MiddlewareType, signer: Jwt.Signer,
    audience: string, issuer: string, subject: string,
    expireIn: Duration, cookieConf: CookieConfig): (r: Result<Config>)
    ensures r.Failure? <==> expireIn < 0
    ensures r.Failure? ==> r.error == Message(NegativeExpireInText)
    ensures r.Success? ==> Normalised(r.value)
    ensures r.Success? && expireIn == 0 ==> r.value.expireIn == DefaultExpireIn
    ensures r.Success? && expireIn > 0 ==> r.value.expireIn == expireIn
    ensures r.Success? ==>
      && r.value.sessionName == sessionName && r.value.middlewareType == middlewareType
      && r.value.signer == signer && r.value.audience == audience
      && r.value.issuer == issuer && r.value.subject == subject && r.value.cookie == cookieConf
  {
    if expireIn < 0 then Failure(Message(NegativeExpireInText))
    else
      var lifetime := if expireIn == 0 then DefaultExpireIn else expireIn;
      Success(Config(cookieConf, sessionName, middlewareType, signer, audience, issuer, subject, lifetime))
  }

  /** Building a configuration again from the fields of one `New` produced gives the same
      configuration: `New` normalises once and for all. */
  lemma NewIsIdempotent(
    sessionName: string, middlewareType: MiddlewareType, signer: Jwt.Signer,
    audience: string, issuer: string, subject: string,
    expireIn: Duration, cookieConf: CookieConfig)
    requires New(sessionName, middlewareType, signer, audience, issuer, subject, expireIn, cookieConf).Success?
    ensures var c := New(sessionName, middlewareType, signer, audience, issuer, subject, expireIn, cookieConf).value;
      New(c.sessionName, c.middlewareType, c.signer, c.audience, c.issuer, c.subject, c.expireIn, c.cookie) == Success(c)
  {
  }

  /** Every normalised configuration is what `New` returns for its own fields, so the
      configurations `New` can produce are exactly the normalised ones. */
  lemma NormalisedIsReachable(c: Config)
    requires Normalised(c)
    ensures New(c.sessionName, c.middlewareType, c.signer, c.audience, c.issuer, c.subject, c.expireIn, c.cookie) == Success(c)
  {
  }
}
