/** The surface of the third-party JWT library the middleware builds on: the claim set,
    the signer, the codec (JSON marshalling and JWS parsing) and the claim validators.
    Signing, base64 and JSON are not modelled: the signer and the codec are values made of
    functions, and what the middleware relies on them for is stated as predicates
    (`SignsVerifiably`, `RoundTrips`, `RejectsEmptyToken`) that the lemmas assume of them. */
module Jwt {
  import opened Errors

  /** The claim set of a token (section 4.1 of RFC 7519); times are Unix seconds. */
  datatype Claims = Claims(
    issuer: string, subject: string, audience: string,
    expirationTime: int, notBefore: int, issuedAt: int, id: string)

  /** A token split by the parser: the signed payload and the signature over it. */
  datatype Parts = Parts(payload: string, signature: string)

  /** `jwt.Signer`: `sign` turns a payload into a complete token, `verify` checks a
      signature against a payload. */
  datatype Signer = Signer(sign: string -> Result<string>, verify: (string, string) -> Status)

  /** The library's package-level functions `Marshal`, `Unmarshal` and `Parse`. */
  datatype Codec = Codec(
    marshal: Claims -> string,
    unmarshal: string -> Result<Claims>,
    parse: string -> Result<Parts>)

  /** Unmarshalling a marshalled claim set gives it back. */
  ghost predicate RoundTrips(codec: Codec)
  {
    forall c :: codec.unmarshal(codec.marshal(c)) == Success(c)
  }

  /** A token the signer produces parses back into the payload it signed, and its
      signature verifies: the model's form of `Verify(p, Sign(p))`. */
  ghost predicate SignsVerifiably(signer: Signer, codec: Codec)
  {
    forall p :: signer.sign(p).Success? ==>
      var parsed := codec.parse(signer.sign(p).value);
      parsed.Success? && parsed.value.payload == p
      && signer.verify(parsed.value.payload, parsed.value.signature) == Pass
  }

  /** The empty string is not a well-formed token. */
  ghost predicate RejectsEmptyToken(codec: Codec)
  {
    codec.parse("").Failure?
  }

  /** What the validators compare a claim set against: the current time (Unix seconds)
      and the expected audience, issuer and subject. */
  datatype Expected = Expected(now: int, audience: string, issuer: string, subject: string)

  /** Whether the validator for `claim` accepts `c`. A token issued at the current second
      is accepted; a token is expired from its expiration second on (section 4.1.4 of
      RFC 7519: the current time must be before the expiration time). */
  predicate Accepts(claim: Claim, c: Claims, e: Expected)
  {
    match claim
    case IssuedAt => c.issuedAt <= e.now
    case Expiration => e.now < c.expirationTime
    case Audience => c.audience == e.audience
    case Issuer => c.issuer == e.issuer
    case Subject => c.subject == e.subject
  }

  /** `jot.Validate(validators...)` runs the validators in turn and stops at the first
      that rejects; this is the position of that validator, if any. */
  function FirstRejection(validators: seq<Claim>, c: Claims, e: Expected): (r: Option<nat>)
    ensures r.Some? ==> r.value < |validators| && !Accepts(validators[r.value], c, e)
    ensures r.Some? ==> forall j :: 0 <= j < r.value ==> Accepts(validators[j], c, e)
    ensures r.None? <==> forall j :: 0 <= j < |validators| ==> Accepts(validators[j], c, e)
  {
    if validators == [] then None
    else if !Accepts(validators[0], c, e) then Some(0)
    else
      match FirstRejection(validators[1..], c, e)
      case None => None
      case Some(k) => Some(k + 1)
  }

  /** `jot.Validate(validators...)`: nil, or the error of the first validator that rejects. */
  function Validate(validators: seq<Claim>, c: Claims, e: Expected): (s: Status)
    ensures s == Pass <==> forall j :: 0 <= j < |validators| ==> Accepts(validators[j], c, e)
    ensures s.Fail? ==> exists j :: 0 <= j < |validators| && s.error == ClaimInvalid(validators[j])
                                   && !Accepts(validators[j], c, e)
  {
    match FirstRejection(validators, c, e)
    case None => Pass
    case Some(i) => Fail(ClaimInvalid(validators[i]))
  }
}
