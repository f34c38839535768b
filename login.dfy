/** `core.Login`: compose a token for the user's ID and write it to the configured
    transport. `ComposeID` is a collaborator this model does not define (a composer that
    may fail); the clock's reading is the parameter `now`, in nanoseconds since the epoch. */
module Login {
  import opened Errors
  import opened Http
  import Config
  import Jwt

  /** `int(expireIn / time.Second)`: Go's integer division truncates toward zero. */
  function MaxAge(expireIn: Config.Duration): (seconds: int)
    ensures expireIn >= 0 ==> 0 <= seconds && seconds * Config.Second <= expireIn < (seconds + 1) * Config.Second
    ensures expireIn < 0 ==> seconds <= 0 && (seconds - 1) * Config.Second < expireIn <= seconds * Config.Second
  {
    var nanos: int := expireIn;
    if nanos >= 0 then nanos / Config.Second else -((-nanos) / Config.Second)
  }

  /** The session cookie `Login` sets for `token` (section 4.1 of RFC 6265): named after
      the session, carrying the token, with the configured attributes, expiring `expireIn`
      after `now` and living `MaxAge(expireIn)` seconds. */
  function SessionCookie(conf: Config.Config, token: string, now: int): (c: Cookie)
    ensures c.name == conf.sessionName && c.value == token
    ensures c.path == conf.cookie.path && c.domain == conf.cookie.domain
    ensures c.secure == conf.cookie.secure && c.httpOnly == conf.cookie.httpOnly && c.sameSite == conf.cookie.sameSite
    ensures c.expires - now == conf.expireIn
    ensures conf.expireIn >= 0 ==> 0 <= c.maxAge && c.maxAge * Config.Second <= conf.expireIn < (c.maxAge + 1) * Config.Second
  {
    Cookie(
      conf.sessionName, token, conf.cookie.path, conf.cookie.domain,
      now + conf.expireIn, MaxAge(conf.expireIn),
      conf.cookie.secure, conf.cookie.httpOnly, conf.cookie.sameSite)
  }

  /** What `Login` writes once the token is composed: a response header `X-<session>` in
      header mode, the session cookie otherwise. */
  function Issued<U>(s: Recording<U>, conf: Config.Config, token: string, now: int): (t: Recording<U>)
    ensures t.code == s.code && t.wroteHeader == s.wroteHeader && t.body == s.body && t.forwarded == s.forwarded
    ensures conf.middlewareType.Header? ==>
      t.setCookies == s.setCookies && t.header.Keys == s.header.Keys + {"X-" + conf.sessionName}
    ensures conf.middlewareType.Cookie? ==>
      t.header == s.header && t.setCookies == s.setCookies + [SessionCookie(conf, token, now)]
  {
    if conf.middlewareType.Header? then s.HeaderAdded("X-" + conf.sessionName, token)
    else s.CookieSet(SessionCookie(conf, token, now))
  }

  /** `core.Login`: the token is composed for `getID(user)` and for nothing else; a
      composition error is returned and nothing is written. */
  method Login<U, V>(
    w: ResponseRecorder<U>, conf: Config.Config, user: V, getID: V -> string,
    composeID: (string, Config.Config) -> Result<string>, now: int) returns (err: Status)
    modifies w
    ensures composeID(getID(user), conf).Failure? ==>
      err == Fail(composeID(getID(user), conf).error) && w.State() == old(w.State())
    ensures composeID(getID(user), conf).Success? ==>
      err == Pass && w.State() == Issued(old(w.State()), conf, composeID(getID(user), conf).value, now)
  {
    var token := composeID(getID(user), conf);
    if token.Failure? {
      return Fail(token.error);
    }
    if conf.middlewareType.Header? {
      w.AddHeader("X-" + conf.sessionName, token.value);
      return Pass;
    }
    w.SetCookie(SessionCookie(conf, token.value, now));
    return Pass;
  }

  /** In header mode `Login` appends the token as the one new value of `X-<session>`,
      leaves every other header alone and sets no cookie. */
  lemma HeaderLoginAddsOneHeader<U>(s: Recording<U>, conf: Config.Config, token: string, now: int)
    requires conf.middlewareType.Header?
    ensures var t := Issued(s, conf, token, now);
            var key := "X-" + conf.sessionName;
      && t.setCookies == s.setCookies && t.body == s.body && t.forwarded == s.forwarded
      && key in t.header && t.header[key] == (if key in s.header then s.header[key] else []) + [token]
      && (forall k :: k in s.header && k != key ==> k in t.header && t.header[k] == s.header[k])
      && t.header.Keys == s.header.Keys + {key}
  {
  }

  /** In cookie mode `Login` sets exactly one cookie and no other header: it carries the token
      under the session name, copies the configured path, domain, Secure, HttpOnly and
      SameSite, expires `expireIn` after `now`, and its Max-Age is the lifetime in whole
      seconds. */
  lemma CookieLoginSetsSessionCookie<U>(s: Recording<U>, conf: Config.Config, token: string, now: int)
    requires conf.middlewareType.Cookie?
    ensures var t := Issued(s, conf, token, now);
      && t.header == s.header && t.body == s.body && t.forwarded == s.forwarded
      && |t.setCookies| == |s.setCookies| + 1 && t.setCookies[..|s.setCookies|] == s.setCookies
      && var c := t.setCookies[|s.setCookies|];
         && c.name == conf.sessionName && c.value == token
         && c.path == conf.cookie.path && c.domain == conf.cookie.domain
         && c.secure == conf.cookie.secure && c.httpOnly == conf.cookie.httpOnly
         && c.sameSite == conf.cookie.sameSite
         && c.expires == now + conf.expireIn
         && (conf.expireIn >= 0 ==> c.maxAge * Config.Second <= conf.expireIn < (c.maxAge + 1) * Config.Second)
  {
  }

  /** A configuration built by `config.New` with a zero lifetime, in cookie mode, and a
      login on a fresh recorder: when the token is composed, the one cookie set expires
      3600 minutes after `now` with Max-Age 216000; otherwise nothing is written. */
  method DefaultLifetimeLogin<U, V>(
    sessionName: string, signer: Jwt.Signer, audience: string, issuer: string, subject: string,
    cookieConf: Config.CookieConfig, user: V, getID: V -> string,
    composeID: (string, Config.Config) -> Result<string>, now: int)
    returns (w: ResponseRecorder<U>, err: Status)
    ensures var conf := Config.New(sessionName, Config.Cookie, signer, audience, issuer, subject, 0, cookieConf);
      && conf.Success? && conf.value.expireIn == Config.DefaultExpireIn
      && (err == Pass <==> composeID(getID(user), conf.value).Success?)
    ensures w.code == StatusOK && !w.wroteHeader && w.body == "" && w.header == map[] && w.forwarded == []
    ensures err == Pass ==>
      && |w.setCookies| == 1 && w.setCookies[0].name == sessionName
      && w.setCookies[0].maxAge == 216000 && w.setCookies[0].expires == now + 3600 * Config.Minute
    ensures err.Fail? ==> w.setCookies == []
  {
    var conf := Config.New(sessionName, Config.Cookie, signer, audience, issuer, subject, 0, cookieConf);
    w := new ResponseRecorder<U>();
    err := Login(w, conf.value, user, getID, composeID, now);
  }
}
