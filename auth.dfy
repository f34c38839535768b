/** The required-mode middlewares of middleware/auth.go: the base pipelines with
    `failOnError` set, so a request that does not authenticate is answered with 401. */
module Auth {
  import opened Errors
  import opened Http
  import opened Jwt
  import opened Token
  import opened JwtConverter
  import opened Base
  import Config

  /** `HeaderLoginRequired`: `headerMiddlewareBase` with `failOnError` set. */
  method HeaderLoginRequired<C, U>(
    headerName: string, con: C, findUser: (C, string) -> Result<U>,
    conf: Config.Config, codec: Codec, now: int,
    w: ResponseRecorder<U>, r: Request<U>)
    modifies w
    ensures w.State() == Respond(old(w.State()),
      Authorize(r, HeaderAuthentication(headerName, con, findUser, conf, codec, now, r), true))
  {
    HeaderMiddlewareBase(headerName, con, findUser, conf, codec, true, now, w, r);
  }

  /** `CookieLoginRequired`: `cookieMiddlewareBase` with `failOnError` set. */
  method CookieLoginRequired<C, U>(
    cookieName: string, con: C, findUser: (C, string) -> Result<U>,
    conf: Config.Config, codec: Codec, now: int,
    w: ResponseRecorder<U>, r: Request<U>)
    modifies w
    ensures w.State() == Respond(old(w.State()),
      Authorize(r, CookieAuthentication(cookieName, con, findUser, conf, codec, now, r), true))
  {
    CookieMiddlewareBase(cookieName, con, findUser, conf, codec, true, now, w, r);
  }

  /** In required mode a failed authentication, whatever its cause, leaves a fresh
      recorder with status 401, the "Not Authorized." body and no call to the next handler. */
  lemma RequiredRefusesFailure<U>(r: Request<U>, auth: Result<U>)
    requires auth.Failure?
    ensures var t := Respond(Initial<U>(), Authorize(r, auth, true));
      t.code == StatusUnauthorized && t.body == NotAuthorizedBody && t.forwarded == []
  {
  }

  /** In required mode a valid token in the named header yields 200 and hands the found
      user to the next handler. */
  lemma HeaderRequiredAdmitsValidToken<C, U>(
    headerName: string, c: Claims, con: C, findUser: (C, string) -> Result<U>, user: U,
    conf: Config.Config, codec: Codec, now: int, r: Request<U>)
    requires SignsVerifiably(conf.signer, codec) && RoundTrips(codec)
    requires ComposeToken(c, conf.signer, codec).Success?
    requires r.HeaderGet(headerName) == ComposeToken(c, conf.signer, codec).value
    requires ClaimsValid(c, now, conf.audience, conf.issuer, conf.subject) && c.id != ""
    requires findUser(con, c.id) == Success(user)
    ensures var t := Respond(Initial<U>(),
              Authorize(r, HeaderAuthentication(headerName, con, findUser, conf, codec, now, r), true));
      t.code == StatusOK && !t.wroteHeader && t.forwarded == [r.WithUser(user)]
  {
    ValidTokenReachesLookup(c, findUser, con, conf, codec, now);
  }

  /** In required mode a valid token in the named cookie yields 200 and hands the found
      user to the next handler. */
  lemma CookieRequiredAdmitsValidToken<C, U>(
    cookieName: string, c: Claims, con: C, findUser: (C, string) -> Result<U>, user: U,
    conf: Config.Config, codec: Codec, now: int, r: Request<U>)
    requires SignsVerifiably(conf.signer, codec) && RoundTrips(codec)
    requires ComposeToken(c, conf.signer, codec).Success?
    requires r.Cookie(cookieName) == Success(ComposeToken(c, conf.signer, codec).value)
    requires ClaimsValid(c, now, conf.audience, conf.issuer, conf.subject) && c.id != ""
    requires findUser(con, c.id) == Success(user)
    ensures var t := Respond(Initial<U>(),
              Authorize(r, CookieAuthentication(cookieName, con, findUser, conf, codec, now, r), true));
      t.code == StatusOK && !t.wroteHeader && t.forwarded == [r.WithUser(user)]
  {
    ValidTokenReachesLookup(c, findUser, con, conf, codec, now);
  }

  /** In required mode a token on the named header is refused with 401 when its ID is
      empty, when it has expired, or when the lookup fails. */
  lemma HeaderRequiredRefusesBadToken<C, U>(
    headerName: string, c: Claims, con: C, findUser: (C, string) -> Result<U>,
    conf: Config.Config, codec: Codec, now: int, r: Request<U>)
    requires SignsVerifiably(conf.signer, codec) && RoundTrips(codec)
    requires ComposeToken(c, conf.signer, codec).Success?
    requires r.HeaderGet(headerName) == ComposeToken(c, conf.signer, codec).value
    requires c.audience == conf.audience && c.issuer == conf.issuer && c.subject == conf.subject
    requires c.issuedAt <= now
    requires || c.id == ""
             || c.expirationTime <= now
             || (now < c.expirationTime && findUser(con, c.id).Failure?)
    ensures var t := Respond(Initial<U>(),
              Authorize(r, HeaderAuthentication(headerName, con, findUser, conf, codec, now, r), true));
      t.code == StatusUnauthorized && t.body == NotAuthorizedBody && t.forwarded == []
  {
    if c.expirationTime <= now {
      ExpiredTokenRefused(c, findUser, con, conf, codec, now);
    } else if c.id == "" {
      EmptyIdRejected(c, findUser, con, conf, codec, now);
    } else {
      ValidTokenReachesLookup(c, findUser, con, conf, codec, now);
    }
  }

  /** In required mode a token in the named cookie is refused with 401 when its ID is
      empty, when it has expired, or when the lookup fails. */
  lemma CookieRequiredRefusesBadToken<C, U>(
    cookieName: string, c: Claims, con: C, findUser: (C, string) -> Result<U>,
    conf: Config.Config, codec: Codec, now: int, r: Request<U>)
    requires SignsVerifiably(conf.signer, codec) && RoundTrips(codec)
    requires ComposeToken(c, conf.signer, codec).Success?
    requires r.Cookie(cookieName) == Success(ComposeToken(c, conf.signer, codec).value)
    requires c.audience == conf.audience && c.issuer == conf.issuer && c.subject == conf.subject
    requires c.issuedAt <= now
    requires || c.id == ""
             || c.expirationTime <= now
             || (now < c.expirationTime && findUser(con, c.id).Failure?)
    ensures var t := Respond(Initial<U>(),
              Authorize(r, CookieAuthentication(cookieName, con, findUser, conf, codec, now, r), true));
      t.code == StatusUnauthorized && t.body == NotAuthorizedBody && t.forwarded == []
  {
    if c.expirationTime <= now {
      ExpiredTokenRefused(c, findUser, con, conf, codec, now);
    } else if c.id == "" {
      EmptyIdRejected(c, findUser, con, conf, codec, now);
    } else {
      ValidTokenReachesLookup(c, findUser, con, conf, codec, now);
    }
  }

  /** In required mode the header pipeline refuses a request that carries no such header
      (the token sits in a cookie, say), and the cookie pipeline refuses one without a
      cookie of its name (the token sits in a header or under another cookie name). */
  lemma RequiredRefusesWrongTransport<C, U>(
    name: string, con: C, findUser: (C, string) -> Result<U>,
    conf: Config.Config, codec: Codec, now: int, r: Request<U>)
    requires RejectsEmptyToken(codec)
    ensures name !in r.header ==>
      var t := Respond(Initial<U>(), Authorize(r, HeaderAuthentication(name, con, findUser, conf, codec, now, r), true));
      t.code == StatusUnauthorized && t.forwarded == []
    ensures (forall i :: 0 <= i < |r.cookies| ==> r.cookies[i].name != name) ==>
      var t := Respond(Initial<U>(), Authorize(r, CookieAuthentication(name, con, findUser, conf, codec, now, r), true));
      t.code == StatusUnauthorized && t.forwarded == []
  {
  }
}
