/** The part of net/http the middleware touches: the incoming request (its header, its
    cookies and the user its context carries) and a response recorder that keeps the
    status, the response header, the Set-Cookie entries, the body and every request the
    middleware hands on to the next handler. */
module Http {
  import opened Errors

  const StatusOK := 200
  const StatusUnauthorized := 401

  /** net/http's SameSite cookie attribute; `SameSiteUnset` is the zero value. */
  datatype SameSite = SameSiteUnset | SameSiteDefaultMode | SameSiteLaxMode | SameSiteStrictMode | SameSiteNoneMode

  /** One cookie as the client sent it in the Cookie header. */
  datatype RequestCookie = RequestCookie(name: string, value: string)

  /** An incoming request. `header` holds every request header but `Cookie`, whose
      contents are parsed into `cookies`. `user` is the value stored in the request's context under the
      middleware's private key (`userCtxKey`); `None` means no user was attached. */
  datatype Request<U> = Request(header: map<string, seq<string>>, cookies: seq<RequestCookie>, user: Option<U>)
  {
    /** `r.Header.Get(name)`: the first value stored under `name`, or "" when there is none. */
    function HeaderGet(name: string): (v: string)
      ensures v != "" ==> name in header && |header[name]| > 0 && v == header[name][0]
      ensures name in header && |header[name]| > 0 ==> v == header[name][0]
    {
      if name in header && |header[name]| > 0 then header[name][0] else ""
    }

    /** `r.Cookie(name)`: the value of the first cookie called `name`, or the no-cookie error. */
    function Cookie(name: string): (r: Result<string>)
      ensures r.Failure? <==> forall i :: 0 <= i < |cookies| ==> cookies[i].name != name
      ensures r.Failure? ==> r.error == NoCookie
      ensures r.Success? ==> var k := CookieIndex(cookies, name); k < |cookies| && r.value == cookies[k].value
    {
      var k := CookieIndex(cookies, name);
      if k < |cookies| then Success(cookies[k].value) else Failure(NoCookie)
    }

    /** `r.WithContext(context.WithValue(r.Context(), userCtxKey, u))`. */
    function WithUser(u: U): (q: Request<U>)
      ensures q.header == header && q.cookies == cookies && q.user == Some(u)
    {
      this.(user := Some(u))
    }
  }

  /** The position of the first cookie called `name`, or `|cookies|` when there is none. */
  function CookieIndex(cookies: seq<RequestCookie>, name: string): (k: nat)
    ensures k <= |cookies|
    ensures k < |cookies| ==> cookies[k].name == name
    ensures forall j :: 0 <= j < k ==> cookies[j].name != name
  {
    if cookies == [] then 0
    else if cookies[0].name == name then 0
    else CookieIndex(cookies[1..], name) + 1
  }

  /** A cookie the response sets (`http.SetCookie`); `expires` is in nanoseconds since the epoch. */
  datatype Cookie = Cookie(
    name: string, value: string, path: string, domain: string,
    expires: int, maxAge: int, secure: bool, httpOnly: bool, sameSite: SameSite)

  /** Everything a response recorder has seen so far, as a value. `header` holds the
      response headers other than `Set-Cookie`, whose entries are `setCookies`. */
  datatype Recording<U> = Recording(
    code: int, wroteHeader: bool, header: map<string, seq<string>>,
    setCookies: seq<Cookie>, body: string, forwarded: seq<Request<U>>)
  {
    /** `WriteHeader(status)`: only the first status written takes effect. */
    function WithStatus(status: int): Recording<U>
    {
      this.(code := if wroteHeader then code else status, wroteHeader := true)
    }

    /** `Write(data)`: an implicit `WriteHeader(200)`, then the data is appended to the body. */
    function Written(data: string): Recording<U>
    {
      WithStatus(StatusOK).(body := body + data)
    }

    /** `Header().Add(key, value)`: `value` joins the values already stored under `key`. */
    function HeaderAdded(key: string, value: string): Recording<U>
    {
      this.(header := header[key := (if key in header then header[key] else []) + [value]])
    }

    /** `http.SetCookie(w, c)`. */
    function CookieSet(c: Cookie): Recording<U>
    {
      this.(setCookies := setCookies + [c])
    }

    /** `next.ServeHTTP(w, r)`: the next handler is called with `r`. */
    function Forwarded(r: Request<U>): Recording<U>
    {
      this.(forwarded := forwarded + [r])
    }
  }

  /** A recorder as `httptest.NewRecorder` returns it: status 200, nothing written yet. */
  function Initial<U>(): Recording<U>
  {
    Recording(StatusOK, false, map[], [], "", [])
  }

  /** The response writer handed to a handler, together with the count of calls the
      handler makes to the next handler (`forwarded` lists the request of each call). */
  class ResponseRecorder<U> {
    var code: int
    var wroteHeader: bool
    var header: map<string, seq<string>>
    var setCookies: seq<Cookie>
    var body: string
    var forwarded: seq<Request<U>>

    function State(): Recording<U>
      reads this
    {
      Recording(code, wroteHeader, header, setCookies, body, forwarded)
    }

    /** How many times the next handler has been called. */
    function NextCalls(): nat
      reads this
    {
      |forwarded|
    }

    constructor ()
      ensures State() == Initial()
    {
      code, wroteHeader, header, setCookies, body, forwarded := StatusOK, false, map[], [], "", [];
    }

    method WriteHeader(status: int)
      modifies this
      ensures State() == old(State()).WithStatus(status)
    {
      if !wroteHeader {
        code := status;
        wroteHeader := true;
      }
    }

    method Write(data: string)
      modifies this
      ensures State() == old(State()).Written(data)
    {
      WriteHeader(StatusOK);
      body := body + data;
    }

    method AddHeader(key: string, value: string)
      modifies this
      ensures State() == old(State()).HeaderAdded(key, value)
    {
      var values := if key in header then header[key] else [];
      header := header[key := values + [value]];
    }

    method SetCookie(c: Cookie)
      modifies this
      ensures State() == old(State()).CookieSet(c)
    {
      setCookies := setCookies + [c];
    }

    method ServeNext(r: Request<U>)
      modifies this
      ensures State() == old(State()).Forwarded(r)
      ensures NextCalls() == old(NextCalls()) + 1
    {
      forwarded := forwarded + [r];
    }
  }
}
