/** Composing and verifying a token: `ComposeToken` and `ExtractToken`. The current time
    that `ExtractToken` reads from the system clock is a parameter (Unix seconds). */
module Token {
  import opened Errors
  import opened Jwt

  /** The validators `ExtractToken` runs, in the order it passes them. The token's ID and
      its not-before time are not among them. */
  const ValidationOrder: seq<Claim> := [IssuedAt, Expiration, Audience, Issuer, Subject]

  /** The reference meaning of "the claims are acceptable now": issued no later than now,
      not yet expired, and for the expected audience, issuer and subject. */
  predicate ClaimsValid(c: Claims, now: int, audience: string, issuer: string, subject: string)
  {
    && c.issuedAt <= now && now < c.expirationTime
    && c.audience == audience && c.issuer == issuer && c.subject == subject
  }

  /** `token` parses, its signature verifies under `signer`, and its payload unmarshals to `c`. */
  ghost predicate Carries(token: string, c: Claims, signer: Signer, codec: Codec)
  {
    && codec.parse(token).Success?
    && signer.verify(codec.parse(token).value.payload, codec.parse(token).value.signature) == Pass
    && codec.unmarshal(codec.parse(token).value.payload) == Success(c)
  }

  /** `core.ComposeToken`: marshal the claims and sign the payload. */
  function ComposeToken(model: Claims, signer: Signer, codec: Codec): (r: Result<string>)
    ensures r.Failure? <==> signer.sign(codec.marshal(model)).Failure?
    ensures r.Failure? ==> r.error == signer.sign(codec.marshal(model)).error
    ensures r.Success? && SignsVerifiably(signer, codec) && RoundTrips(codec) ==> Carries(r.value, model, signer, codec)
  {
    signer.sign(codec.marshal(model))
  }

  /** `core.ExtractToken`: parse, then verify the signature, then unmarshal, then run the
      validators in `ValidationOrder`; the first failure is returned and no claims with it. */
  function ExtractToken(
    token: string, signer: Signer, codec: Codec,
    audience: string, issuer: string, subject: string, now: int): (r: Result<Claims>)
    ensures codec.parse(token).Failure? ==> r == Failure(codec.parse(token).error)
    ensures r.Success? ==> Carries(token, r.value, signer, codec) && ClaimsValid(r.value, now, audience, issuer, subject)
    ensures forall c {:trigger Carries(token, c, signer, codec)} ::
      Carries(token, c, signer, codec) && ClaimsValid(c, now, audience, issuer, subject) ==> r == Success(c)
  {
    match codec.parse(token)
    case Failure(e) => Failure(e)
    case Success(parts) =>
      match signer.verify(parts.payload, parts.signature)
      case Fail(e) => Failure(e)
      case Pass =>
        match codec.unmarshal(parts.payload)
        case Failure(e) => Failure(e)
        case Success(jot) =>
          ValidationMeansClaimsValid(jot, now, audience, issuer, subject);
          match Validate(ValidationOrder, jot, Expected(now, audience, issuer, subject))
          case Fail(e) => Failure(e)
          case Pass => Success(jot)
  }

  /** The validators in `ValidationOrder` accept exactly the claims `ClaimsValid` describes. */
  lemma ValidationMeansClaimsValid(c: Claims, now: int, audience: string, issuer: string, subject: string)
    ensures Validate(ValidationOrder, c, Expected(now, audience, issuer, subject)) == Pass
            <==> ClaimsValid(c, now, audience, issuer, subject)
  {
    var e := Expected(now, audience, issuer, subject);
    if ClaimsValid(c, now, audience, issuer, subject) {
      forall j | 0 <= j < |ValidationOrder| ensures Accepts(ValidationOrder[j], c, e) {
      }
    } else {
      var j := if c.issuedAt > now then 0 else if now >= c.expirationTime then 1
               else if c.audience != audience then 2 else if c.issuer != issuer then 3 else 4;
      assert !Accepts(ValidationOrder[j], c, e);
    }
  }

  /** A signature that does not verify ends extraction with the signer's error before the
      payload is unmarshalled: the outcome is the same whatever `Unmarshal` would do. */
  lemma BadSignatureStopsBeforeUnmarshal(
    token: string, signer: Signer, codec: Codec, otherUnmarshal: string -> Result<Claims>,
    audience: string, issuer: string, subject: string, now: int)
    requires codec.parse(token).Success?
    requires signer.verify(codec.parse(token).value.payload, codec.parse(token).value.signature).Fail?
    ensures var e := signer.verify(codec.parse(token).value.payload, codec.parse(token).value.signature).error;
      ExtractToken(token, signer, codec, audience, issuer, subject, now) == Failure(e)
    ensures ExtractToken(token, signer, codec, audience, issuer, subject, now)
         == ExtractToken(token, signer, codec.(unmarshal := otherUnmarshal), audience, issuer, subject, now)
  {
  }

  /** A payload that fails to unmarshal ends extraction with the unmarshalling error. */
  lemma UnmarshalFailurePropagates(
    token: string, signer: Signer, codec: Codec,
    audience: string, issuer: string, subject: string, now: int)
    requires codec.parse(token).Success?
    requires signer.verify(codec.parse(token).value.payload, codec.parse(token).value.signature) == Pass
    requires codec.unmarshal(codec.parse(token).value.payload).Failure?
    ensures ExtractToken(token, signer, codec, audience, issuer, subject, now)
         == Failure(codec.unmarshal(codec.parse(token).value.payload).error)
  {
  }

  /** For an authentic token the validators run in the order issued-at, expiration,
      audience, issuer, subject, and the first one that rejects names the error. */
  lemma ValidatorsRunInOrder(
    token: string, c: Claims, signer: Signer, codec: Codec,
    audience: string, issuer: string, subject: string, now: int)
    requires Carries(token, c, signer, codec)
    ensures var r := ExtractToken(token, signer, codec, audience, issuer, subject, now);
      && (c.issuedAt > now ==> r == Failure(ClaimInvalid(IssuedAt)))
      && (c.issuedAt <= now && now >= c.expirationTime ==> r == Failure(ClaimInvalid(Expiration)))
      && ((c.issuedAt <= now && now < c.expirationTime && c.audience != audience)
            ==> r == Failure(ClaimInvalid(Audience)))
      && ((c.issuedAt <= now && now < c.expirationTime && c.audience == audience && c.issuer != issuer)
            ==> r == Failure(ClaimInvalid(Issuer)))
      && ((c.issuedAt <= now && now < c.expirationTime && c.audience == audience && c.issuer == issuer
           && c.subject != subject) ==> r == Failure(ClaimInvalid(Subject)))
      && (ClaimsValid(c, now, audience, issuer, subject) ==> r == Success(c))
  {
    var e := Expected(now, audience, issuer, subject);
    assert ValidationOrder[0] == IssuedAt && ValidationOrder[1] == Expiration && ValidationOrder[2] == Audience
        && ValidationOrder[3] == Issuer && ValidationOrder[4] == Subject;
    var k := FirstRejection(ValidationOrder, c, e);
    if k.Some? {
      assert forall j :: 0 <= j < k.value ==> Accepts(ValidationOrder[j], c, e);
    }
  }

  /** Neither the ID nor the not-before time is validated: two authentic tokens whose
      claims differ only there are accepted or rejected alike, with the same error. */
  lemma IdAndNotBeforeNotValidated(
    token1: string, token2: string, c: Claims, id: string, notBefore: int,
    signer: Signer, codec: Codec, audience: string, issuer: string, subject: string, now: int)
    requires Carries(token1, c, signer, codec)
    requires Carries(token2, c.(id := id, notBefore := notBefore), signer, codec)
    ensures var r1 := ExtractToken(token1, signer, codec, audience, issuer, subject, now);
            var r2 := ExtractToken(token2, signer, codec, audience, issuer, subject, now);
      && (r1.Success? <==> r2.Success?)
      && (r1.Success? ==> r1.value == c && r2.value == c.(id := id, notBefore := notBefore))
      && (r1.Failure? ==> r1.error == r2.error)
  {
    ValidatorsRunInOrder(token1, c, signer, codec, audience, issuer, subject, now);
    ValidatorsRunInOrder(token2, c.(id := id, notBefore := notBefore), signer, codec, audience, issuer, subject, now);
  }

  /** Round trip: a token composed from claims whose audience, issuer and subject are the
      expected ones, extracted inside its validity window, gives back those very claims. */
  lemma ComposeThenExtract(c: Claims, signer: Signer, codec: Codec, now: int)
    requires SignsVerifiably(signer, codec) && RoundTrips(codec)
    requires ComposeToken(c, signer, codec).Success?
    requires c.issuedAt <= now < c.expirationTime
    ensures ExtractToken(ComposeToken(c, signer, codec).value, signer, codec, c.audience, c.issuer, c.subject, now)
            == Success(c)
  {
    assert Carries(ComposeToken(c, signer, codec).value, c, signer, codec);
  }

  /** An authentic token whose expiration time is not after now (for instance one that
      expired two hours ago) is rejected with the expiration error, provided it was not
      issued in the future. */
  lemma ExpiredTokenRejected(c: Claims, signer: Signer, codec: Codec, now: int)
    requires SignsVerifiably(signer, codec) && RoundTrips(codec)
    requires ComposeToken(c, signer, codec).Success?
    requires c.issuedAt <= now && c.expirationTime <= now
    ensures ExtractToken(ComposeToken(c, signer, codec).value, signer, codec, c.audience, c.issuer, c.subject, now)
            == Failure(ClaimInvalid(Expiration))
  {
    ValidatorsRunInOrder(ComposeToken(c, signer, codec).value, c, signer, codec, c.audience, c.issuer, c.subject, now);
  }
}
