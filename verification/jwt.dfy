/** Tokens of shared/util/jwt.go: the claims GenerateToken signs, the
    checks validateClaims makes, and the rejection paths of ParseToken,
    including the registered-claims check the JWT library (golang-jwt v5)
    makes before validateClaims runs. HMAC signing, the token's encoding
    and the signature check are parameters. Times are integers in
    nanoseconds; every time.Now() call is a reading of its own; the
    library stores NumericDates truncated to whole seconds. */
module Jwt {
  import opened Errors

  const Iss: string := "relief-ops"
  const Aud: string := "relief-ops-users"
  const Sub: string := "user-authentication"

  datatype UserDetails = UserDetails(userID: string, email: string, role: string)

  /** The custom claims and the registered claims the code sets or reads.
      A registered date is `None` when the token does not carry it (a nil
      *NumericDate in Go). */
  datatype Claims = Claims(
    userID: string, email: string, role: string,
    issuer: string, audience: seq<string>, subject: string,
    issuedAt: Option<int>, notBefore: Option<int>, expiresAt: Option<int>)

  /** jwt.NewNumericDate: the time truncated to a whole second. */
  function NumericDate(t: int): (r: int)
    ensures r <= t < r + Second
    ensures r % Second == 0
  {
    (t / Second) * Second
  }

  /** The three clock readings GenerateToken takes, in source order: for
      the issued-at, the not-before and the expiry claim. */
  datatype Instants = Instants(issued: int, notBefore: int, expiry: int)

  /** The claims of a token generated with lifetime `expiry` at the given
      clock readings. */
  function NewClaims(user: UserDetails, expiry: int, now: Instants): (c: Claims)
    ensures c.userID == user.userID && c.email == user.email && c.role == user.role
    ensures c.issuer == Iss && c.audience == [Aud] && c.subject == Sub
    ensures c.issuedAt == Some(NumericDate(now.issued))
    ensures c.notBefore == Some(NumericDate(now.notBefore))
    ensures c.expiresAt == Some(NumericDate(now.expiry + expiry))
  {
    Claims(user.userID, user.email, user.role, Iss, ["relief-ops-users"], Sub,
           Some(NumericDate(now.issued)), Some(NumericDate(now.notBefore)),
           Some(NumericDate(now.expiry + expiry)))
  }

  /** GenerateToken: sign the new claims with the secret (HS256). */
  function GenerateToken(user: UserDetails, secret: string, expiry: int, now: Instants,
                         sign: (Claims, string) -> Result<string>): (r: Result<string>)
  {
    sign(NewClaims(user, expiry, now), secret)
  }

  const ErrExpired: Error := Plain("token has expired")
  const ErrIssuer: Error := Plain("invalid token issuer")
  const ErrAudience: Error := Plain("invalid token audience")
  const ErrSubject: Error := Plain("invalid token subject")

  /** validateClaims: expiry, then issuer, then audience, then subject; the
      first failing check decides the error. `None` when the claims carry
      no expiry: reading the time of a nil *NumericDate panics. */
  function ValidateClaims(c: Claims, now: int): (r: Option<Outcome>)
    ensures r.None? <==> c.expiresAt.None?
    ensures r == Some(Pass) <==>
              c.expiresAt.Some? && !(c.expiresAt.value < now) && c.issuer == Iss && Aud in c.audience && c.subject == Sub
    ensures c.expiresAt.Some? && c.expiresAt.value < now ==> r == Some(Fail(ErrExpired))
    ensures c.expiresAt.Some? && !(c.expiresAt.value < now) && c.issuer != Iss ==> r == Some(Fail(ErrIssuer))
    ensures c.expiresAt.Some? && !(c.expiresAt.value < now) && c.issuer == Iss && Aud !in c.audience ==>
              r == Some(Fail(ErrAudience))
    ensures c.expiresAt.Some? && !(c.expiresAt.value < now) && c.issuer == Iss && Aud in c.audience && c.subject != Sub ==>
              r == Some(Fail(ErrSubject))
  {
    if c.expiresAt.None? then None
    else if c.expiresAt.value < now then Some(Fail(ErrExpired))
    else if c.issuer != Iss then Some(Fail(ErrIssuer))
    else if Aud !in c.audience then Some(Fail(ErrAudience))
    else if c.subject != Sub then Some(Fail(ErrSubject))
    else Some(Pass)
  }

  /** Claims generated with lifetime `expiry` pass validateClaims at
      exactly the times up to their expiry, which is the expiry reading
      plus `expiry`, truncated to the second. */
  lemma FreshClaimsValidUntilExpiry(user: UserDetails, expiry: int, now: Instants, t: int)
    ensures ValidateClaims(NewClaims(user, expiry, now), t) == Some(Pass) <==> t <= NumericDate(now.expiry + expiry)
    ensures t <= now.expiry + expiry - Second ==> ValidateClaims(NewClaims(user, expiry, now), t) == Some(Pass)
  {
  }

  // ----- the library's registered-claims check -----

  const ErrTokenExpired: Error := Plain("token is expired")
  const ErrTokenNotValidYet: Error := Plain("token is not valid yet")

  /** The library's error for failed registered claims: each failed check's
      message, joined with ", ", under "token has invalid claims". */
  function ErrInvalidClaims(expired: bool, early: bool): Error
    requires expired || early
  {
    Wrapped("token has invalid claims",
            if expired && early then Plain("token is expired, token is not valid yet")
            else if expired then ErrTokenExpired
            else ErrTokenNotValidYet)
  }

  /** The library's default validation at `now`: an expiry it carries must
      lie strictly after `now` and a not-before it carries must not lie
      after `now`; absent dates and the issued-at claim are not checked. */
  function LibraryValidate(c: Claims, now: int): (r: Outcome)
    ensures r.Pass? <==>
              (c.expiresAt.None? || now < c.expiresAt.value) && (c.notBefore.None? || c.notBefore.value <= now)
    ensures r.Fail? ==> r.error.Wrapped? && r.error.context == "token has invalid claims"
  {
    var expired := c.expiresAt.Some? && !(now < c.expiresAt.value);
    var early := c.notBefore.Some? && now < c.notBefore.value;
    if expired || early then Fail(ErrInvalidClaims(expired, early)) else Pass
  }

  // ----- ParseToken -----

  /** A token as the library sees it: a parse error of its encoding, the
      signing algorithm's name and whether it is an HMAC one, its claims,
      and the outcome of checking its signature against the secret. */
  datatype Token = Token(malformed: Option<Error>, alg: string, hmac: bool, claims: Claims, signature: Outcome)

  /** The two clock readings of one ParseToken: the library's, then
      validateClaims' own. */
  datatype ParseInstants = ParseInstants(library: int, validate: int)

  /** What ParseToken does: return claims or an error, or panic. */
  datatype Parsed = Returned(result: Result<Claims>) | NilExpiryPanic

  /** The keyfunc's refusal of a non-HMAC algorithm, as the library wraps it. */
  function ErrSigningMethod(alg: string): Error {
    Wrapped("token is unverifiable: error while executing keyfunc", Plain("unexpected signing method: " + alg))
  }

  /** ParseToken: parse, refuse non-HMAC algorithms in the keyfunc, check
      the signature, let the library check expiry and not-before, then
      validateClaims; the claims come back only when all pass. */
  function ParseToken(t: Token, now: ParseInstants): (r: Parsed)
    ensures t.malformed.Some? ==> r == Returned(Failure(t.malformed.value))
    ensures t.malformed.None? && !t.hmac ==> r == Returned(Failure(ErrSigningMethod(t.alg)))
    ensures t.malformed.None? && t.hmac && t.signature.Fail? ==> r == Returned(Failure(t.signature.error))
    ensures t.malformed.None? && t.hmac && t.signature.Pass? && LibraryValidate(t.claims, now.library).Fail? ==>
              r == Returned(Failure(LibraryValidate(t.claims, now.library).error))
    ensures r.NilExpiryPanic? <==>
              t.malformed.None? && t.hmac && t.signature.Pass? && LibraryValidate(t.claims, now.library).Pass?
              && t.claims.expiresAt.None?
    ensures t.malformed.None? && t.hmac && t.signature.Pass? && LibraryValidate(t.claims, now.library).Pass?
            && ValidateClaims(t.claims, now.validate).Some? && ValidateClaims(t.claims, now.validate).value.Fail? ==>
              r == Returned(Failure(ValidateClaims(t.claims, now.validate).value.error))
    ensures r == Returned(Success(t.claims)) <==>
              t.malformed.None? && t.hmac && t.signature.Pass? && LibraryValidate(t.claims, now.library).Pass?
              && ValidateClaims(t.claims, now.validate) == Some(Pass)
    ensures r.Returned? && r.result.Success? ==> r.result.value == t.claims
  {
    if t.malformed.Some? then Returned(Failure(t.malformed.value))
    else if !t.hmac then Returned(Failure(ErrSigningMethod(t.alg)))
    else if t.signature.Fail? then Returned(Failure(t.signature.error))
    else match LibraryValidate(t.claims, now.library)
      case Fail(e) => Returned(Failure(e))
      case Pass =>
        match ValidateClaims(t.claims, now.validate)
        case None => NilExpiryPanic
        case Some(Fail(e)) => Returned(Failure(e))
        case Some(Pass) => Returned(Success(t.claims))
  }

  /** A correctly signed HMAC token of freshly generated claims parses back
      to those claims exactly when both of ParseToken's readings lie in
      the token's window: not before its not-before time, the library's
      strictly before its expiry and validateClaims' not after it. */
  lemma GeneratedTokenParses(user: UserDetails, expiry: int, gen: Instants, now: ParseInstants, alg: string)
    ensures var c := NewClaims(user, expiry, gen);
            ParseToken(Token(None, alg, true, c, Pass), now) == Returned(Success(c)) <==>
              && NumericDate(gen.notBefore) <= now.library < NumericDate(gen.expiry + expiry)
              && now.validate <= NumericDate(gen.expiry + expiry)
    ensures var c := NewClaims(user, expiry, gen);
            NumericDate(gen.notBefore) <= now.library <= now.validate < NumericDate(gen.expiry + expiry) ==>
              ParseToken(Token(None, alg, true, c, Pass), now) == Returned(Success(c))
  {
    var c := NewClaims(user, expiry, gen);
    assert LibraryValidate(c, now.library).Pass? <==>
             NumericDate(gen.notBefore) <= now.library < NumericDate(gen.expiry + expiry);
    FreshClaimsValidUntilExpiry(user, expiry, gen, now.validate);
  }

  /** The HMAC algorithm GenerateToken signs with. */
  const Hs256: string := "HS256"

  /** The round trip of GenerateToken and ParseToken. `decode` stands for
      the library's parsing and signature check under the same secret; it
      is assumed to invert `sign` (a string `sign` produced for some claims
      decodes to a well-formed, correctly signed HS256 token of exactly
      those claims). A generated token then parses back to the claims
      GenerateToken put in it (the user's id, email and role, the fixed
      issuer, audience and subject) iff the two readings of ParseToken lie
      in the token's window; it never panics and never fails on its
      issuer, audience, subject, algorithm or signature. */
  lemma GeneratedTokenRoundTrip(user: UserDetails, secret: string, expiry: int, gen: Instants,
                                sign: (Claims, string) -> Result<string>, decode: string -> Token,
                                tok: string, now: ParseInstants)
    requires forall c: Claims, s: string :: sign(c, secret) == Success(s) ==> decode(s) == Token(None, Hs256, true, c, Pass)
    requires GenerateToken(user, secret, expiry, gen, sign) == Success(tok)
    ensures ParseToken(decode(tok), now).Returned?
    ensures ParseToken(decode(tok), now).result.Success? <==>
              && NumericDate(gen.notBefore) <= now.library < NumericDate(gen.expiry + expiry)
              && now.validate <= NumericDate(gen.expiry + expiry)
    ensures ParseToken(decode(tok), now).result.Success? ==>
              var c := ParseToken(decode(tok), now).result.value;
              && c.userID == user.userID && c.email == user.email && c.role == user.role
              && c.issuer == Iss && c.audience == [Aud] && c.subject == Sub
    ensures ParseToken(decode(tok), now).result.Failure? ==>
              || ParseToken(decode(tok), now).result.error == ErrExpired
              || ParseToken(decode(tok), now).result == Failure(LibraryValidate(decode(tok).claims, now.library).error)
  {
    var c := NewClaims(user, expiry, gen);
    assert decode(tok) == Token(None, Hs256, true, c, Pass);
    GeneratedTokenParses(user, expiry, gen, now, Hs256);
  }

  /** validateClaims' own expiry error is reachable only through the gap
      between the two readings: the library saw the token unexpired and
      the clock passed the expiry before validateClaims read it again. With
      one reading for both, it never occurs. */
  lemma ExpiredOnlyAcrossReadings(t: Token, now: ParseInstants)
    requires t.malformed.None? && t.hmac && t.signature.Pass?
    ensures ParseToken(t, now) == Returned(Failure(ErrExpired)) ==>
              t.claims.expiresAt.Some? && now.library < t.claims.expiresAt.value < now.validate
    ensures now.validate <= now.library ==> ParseToken(t, now) != Returned(Failure(ErrExpired))
  {
    if ParseToken(t, now) == Returned(Failure(ErrExpired)) {
      assert LibraryValidate(t.claims, now.library).Pass?;
    }
  }
}
