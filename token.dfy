/**
 * Device tokens (im-server/auth/token.go): JSON Web Tokens (RFC 7519) signed with HMAC
 * (RFC 7518 section 3.2). Encoding, base64 and the HMAC computation are abstract: a token
 * string is seen through what the JWT library decodes from it (`Unverified`), and the
 * library's own checks are kept only in the order in which they reject a token.
 */
module Token {
  import opened Wrappers

  /** A claim value after JSON decoding: a string, a number (a non-negative integer here), or anything else. */
  datatype Claim = StrClaim(s: string) | NumClaim(n: nat) | OtherClaim

  type Claims = map<string, Claim>

  /** Signing methods registered with the JWT library, by their "alg" header value. */
  datatype Method = HS256 | HS384 | HS512 | NonHmac(alg: string)

  function Alg(m: Method): string
  {
    match m
    case HS256 => "HS256"
    case HS384 => "HS384"
    case HS512 => "HS512"
    case NonHmac(a) => a
  }

  predicate IsHmac(m: Method) { !m.NonHmac? }

  /** What the library makes of a token string before verifying anything. */
  datatype Unverified =
      /** not three dot-separated segments: no token object at all */
    | Malformed
      /** a token object exists but the header or the claims segment could not be base64- or
          JSON-decoded; `partial` is None when decoding stopped before the claims (nil claims) */
    | Undecodable(partial: Option<Claims>)
      /** header and claims decoded, but "alg" is missing, not a string, or names no registered method */
    | UnknownAlg(claims: Claims)
      /** fully decoded; the signature is the one `signingKey` produces under `method` */
    | Decoded(alg: Method, claims: Claims, signingKey: string)

  /** Error kinds the library reports. */
  datatype JwtError = TokenMalformed | SignatureInvalid | Unverifiable | InvalidClaims

  datatype JwtToken = JwtToken(claims: Option<Claims>, valid: bool)

  /** The library's (token, err) pair. */
  datatype Parsed = Parsed(token: Option<JwtToken>, err: Option<JwtError>)

  /**
   * The registered time claims: "exp" must lie after now, "nbf" not after now; a non-number is
   * invalid. The library reads a numeric claim equal to 0 as absent, so "exp": 0 never expires
   * (for "nbf" the two readings agree).
   */
  predicate TimeClaimsHold(c: Claims, now: nat)
  {
    && ("exp" in c && c["exp"] != NumClaim(0) ==> c["exp"].NumClaim? && now < c["exp"].n)
    && ("nbf" in c ==> c["nbf"].NumClaim? && c["nbf"].n <= now)
  }

  /**
   * Parser.Parse with token.go's key function: the method allow-list (when one is configured),
   * the key function's refusal of non-HMAC methods, the signature under `secret`, and (when
   * `validateClaims`) the time claims at `now`, in that order.
   */
  function Parse(u: Unverified, validMethods: Option<seq<string>>, validateClaims: bool, secret: string, now: nat): (p: Parsed)
    ensures p.err.None? <==> p.token.Some? && p.token.value.valid
    ensures u.Malformed? <==> p.token.None?
  {
    match u
    case Malformed => Parsed(None, Some(TokenMalformed))
    case Undecodable(c) => Parsed(Some(JwtToken(c, false)), Some(TokenMalformed))
    case UnknownAlg(c) => Parsed(Some(JwtToken(Some(c), false)), Some(Unverifiable))
    case Decoded(m, c, key) =>
      var t := JwtToken(Some(c), false);
      if validMethods.Some? && Alg(m) !in validMethods.value then Parsed(Some(t), Some(SignatureInvalid))
      else if !IsHmac(m) then Parsed(Some(t), Some(Unverifiable))
      else if key != secret then Parsed(Some(t), Some(SignatureInvalid))
      else if validateClaims && !TimeClaimsHold(c, now) then Parsed(Some(t), Some(InvalidClaims))
      else Parsed(Some(JwtToken(Some(c), true)), None)
  }

  /** An AuthToken; `secretKey` is None for a nil key slice (a zero AuthToken). */
  datatype AuthToken = AuthToken(secretKey: Option<string>)

  /**
   * NewAuthToken: never fails and never leaves the key nil (converting "" to a byte slice gives
   * an empty, non-nil slice); an empty secret only makes it print a warning (`warned`).
   */
  function NewAuthToken(secretKey: string): (r: (AuthToken, bool))
    ensures r.0.secretKey == Some(secretKey)
    ensures r.1 <==> secretKey == ""
  {
    (AuthToken(Some(secretKey)), secretKey == "")
  }

  /** Why VerifyToken refused a token. */
  datatype VerifyError =
    | NilReceiver
    | NilSecret
    | ParseFailed(cause: JwtError)
    | NoToken
    | InvalidToken
    | ClaimsNotMap
    | BadDeviceId
    | BadUserId

  /** VerifyToken's four results: (valid, device id, user id, error). */
  datatype Verdict = Verdict(valid: bool, deviceId: string, userId: nat, err: Option<VerifyError>)

  function Reject(e: VerifyError): Verdict
  {
    Verdict(false, "", 0, Some(e))
  }

  /** The claim checks at the end of VerifyToken: a string device_id, a numeric user_id. */
  function ClaimsVerdict(claims: Option<Claims>): (v: Verdict)
    ensures v.valid <==> v.err.None?
    ensures v.valid <==> claims.Some? && "device_id" in claims.value && claims.value["device_id"].StrClaim?
                         && "user_id" in claims.value && claims.value["user_id"].NumClaim?
    ensures v.valid ==> v.deviceId == claims.value["device_id"].s && v.userId == claims.value["user_id"].n
    ensures !v.valid ==> v.deviceId == "" && v.userId == 0
  {
    match claims
    case None => Reject(ClaimsNotMap)
    case Some(c) =>
      if "device_id" !in c || !c["device_id"].StrClaim? then Reject(BadDeviceId)
      else if "user_id" !in c || !c["user_id"].NumClaim? then Reject(BadUserId)
      else Verdict(true, c["device_id"].s, c["user_id"].n, None)
  }

  function SkipExpiry(ignoreExpiry: seq<bool>): bool
  {
    |ignoreExpiry| > 0 && ignoreExpiry[0]
  }

  /**
   * VerifyToken as written. `decode` is what the library decodes from a token string and `now`
   * the clock in Unix seconds. With ignoreExpiry the parser is restricted to HS256, but every
   * parse error is then tolerated as long as a token object exists.
   */
  function VerifyToken(at: Option<AuthToken>, tokenString: string, ignoreExpiry: seq<bool>,
                       decode: string -> Unverified, now: nat): (v: Verdict)
    ensures v.valid <==> v.err.None?
    ensures !v.valid ==> v.deviceId == "" && v.userId == 0
  {
    if at.None? then Reject(NilReceiver)
    else if at.value.secretKey.None? then Reject(NilSecret)
    else
      var skip := SkipExpiry(ignoreExpiry);
      var p := Parse(decode(tokenString), if skip then Some(["HS256"]) else None, true, at.value.secretKey.value, now);
      if p.err.Some? && !skip then Reject(ParseFailed(p.err.value))
      else if skip && p.token.None? then Reject(NoToken)
      else if !skip && !p.token.value.valid then Reject(InvalidToken)
      else ClaimsVerdict(p.token.value.claims)
  }

  /** A nil receiver or a nil key: (false, "", 0, error), whatever the token. */
  lemma VerifyNilRejects(at: Option<AuthToken>, tokenString: string, ignoreExpiry: seq<bool>,
                         decode: string -> Unverified, now: nat)
    requires at.None? || at.value.secretKey.None?
    ensures VerifyToken(at, tokenString, ignoreExpiry, decode, now) == Verdict(false, "", 0, VerifyToken(at, tokenString, ignoreExpiry, decode, now).err)
    ensures VerifyToken(at, tokenString, ignoreExpiry, decode, now).err.Some?
  {
  }

  /**
   * Without ignoreExpiry a token is accepted exactly when it decodes, uses an HMAC method, is
   * signed with the secret, its time claims hold and its claims carry a string device_id and a
   * numeric user_id; any parse error is a rejection.
   */
  lemma StrictVerifyExactly(secret: string, tokenString: string, ignoreExpiry: seq<bool>,
                            decode: string -> Unverified, now: nat)
    requires !SkipExpiry(ignoreExpiry)
    ensures var v := VerifyToken(Some(AuthToken(Some(secret))), tokenString, ignoreExpiry, decode, now);
            var u := decode(tokenString);
            v.valid <==> && u.Decoded? && IsHmac(u.alg) && u.signingKey == secret
                         && TimeClaimsHold(u.claims, now) && ClaimsVerdict(Some(u.claims)).valid
    ensures var v := VerifyToken(Some(AuthToken(Some(secret))), tokenString, ignoreExpiry, decode, now);
            Parse(decode(tokenString), None, true, secret, now).err.Some? ==> !v.valid
  {
  }

  /**
   * With ignoreExpiry, as written: a decoded token passes whatever its method and whoever signed
   * it, provided its claims carry the two identities. The signature is not checked.
   */
  lemma SkipAcceptsUnsignedTokens(secret: string, tokenString: string, decode: string -> Unverified, now: nat)
    requires !decode(tokenString).Malformed?
    ensures var v := VerifyToken(Some(AuthToken(Some(secret))), tokenString, [true], decode, now);
            var u := decode(tokenString);
            v == ClaimsVerdict(if u.Undecodable? then u.partial else Some(u.claims))
  {
  }

  /**
   * Strictly, a token whose "alg" the library cannot resolve is refused as unverifiable, not as
   * malformed, before its method, key or claims are looked at.
   */
  lemma UnknownAlgIsUnverifiable(secret: string, tokenString: string, decode: string -> Unverified, now: nat)
    requires decode(tokenString).UnknownAlg?
    ensures VerifyToken(Some(AuthToken(Some(secret))), tokenString, [], decode, now) == Reject(ParseFailed(Unverifiable))
    ensures forall m :: Parse(decode(tokenString), m, true, secret, now).err == Some(Unverifiable)
  {
  }

  /**
   * VerifyToken as intended: with ignoreExpiry only HS256 tokens signed with the secret pass, and
   * only the time claims are skipped; without it, exactly VerifyToken.
   */
  function VerifyTokenIntended(at: Option<AuthToken>, tokenString: string, ignoreExpiry: seq<bool>,
                               decode: string -> Unverified, now: nat): (v: Verdict)
    ensures v.valid <==> v.err.None?
    ensures !SkipExpiry(ignoreExpiry) ==> v == VerifyToken(at, tokenString, ignoreExpiry, decode, now)
    ensures SkipExpiry(ignoreExpiry) && v.valid ==>
              at.Some? && at.value.secretKey.Some? &&
              decode(tokenString).Decoded? && decode(tokenString).alg == HS256 &&
              decode(tokenString).signingKey == at.value.secretKey.value
  {
    if at.None? then Reject(NilReceiver)
    else if at.value.secretKey.None? then Reject(NilSecret)
    else
      var skip := SkipExpiry(ignoreExpiry);
      var p := Parse(decode(tokenString), if skip then Some(["HS256"]) else None, !skip, at.value.secretKey.value, now);
      if p.err.Some? then Reject(ParseFailed(p.err.value))
      else if !p.token.value.valid then Reject(InvalidToken)
      else ClaimsVerdict(p.token.value.claims)
  }

  /** The claims GenerateTokenWithExpiry signs: user_id, device_id, exp = now + expiry, iat = now. */
  function TokenClaims(userID: nat, deviceID: string, expiry: nat, now: nat): (c: Claims)
    ensures ClaimsVerdict(Some(c)) == Verdict(true, deviceID, userID, None)
    ensures forall t: nat :: TimeClaimsHold(c, t) <==> now + expiry == 0 || t < now + expiry
  {
    map["user_id" := NumClaim(userID), "device_id" := StrClaim(deviceID),
        "exp" := NumClaim(now + expiry), "iat" := NumClaim(now)]
  }

  /**
   * GenerateTokenWithExpiry: an HS256 token over TokenClaims, signed with the key (a nil key signs
   * like an empty one). Signing with a byte-slice key cannot fail, so the error result is never produced.
   * `expiry` and `now` are in seconds.
   */
  function GenerateTokenWithExpiry(at: AuthToken, userID: nat, deviceID: string, expiry: nat, now: nat): (u: Unverified)
    ensures u.Decoded? && u.alg == HS256
    ensures ClaimsVerdict(Some(u.claims)) == Verdict(true, deviceID, userID, None)
    ensures at.secretKey.Some? ==>
      forall t: nat :: Parse(u, None, true, at.secretKey.value, t).err.None? <==> now + expiry == 0 || t < now + expiry
  {
    Decoded(HS256, TokenClaims(userID, deviceID, expiry, now), if at.secretKey.Some? then at.secretKey.value else "")
  }

  /** GenerateToken: user 0, one hour. */
  function GenerateToken(at: AuthToken, deviceID: string, now: nat): (u: Unverified)
    ensures u.Decoded? && u.alg == HS256
    ensures ClaimsVerdict(Some(u.claims)) == Verdict(true, deviceID, 0, None)
    ensures at.secretKey.Some? ==>
      forall t: nat :: Parse(u, None, true, at.secretKey.value, t).err.None? <==> t < now + 3600
  {
    GenerateTokenWithExpiry(at, 0, deviceID, 3600, now)
  }

  /** A token issued with expiry e at time t verifies, strictly, as (true, device, user) until t + e. */
  lemma GenerateThenVerify(secret: string, userID: nat, deviceID: string, expiry: nat, issued: nat,
                           tokenString: string, decode: string -> Unverified, now: nat)
    requires decode(tokenString) == GenerateTokenWithExpiry(AuthToken(Some(secret)), userID, deviceID, expiry, issued)
    requires now < issued + expiry
    ensures VerifyToken(Some(AuthToken(Some(secret))), tokenString, [], decode, now) == Verdict(true, deviceID, userID, None)
  {
    var c := TokenClaims(userID, deviceID, expiry, issued);
    assert "nbf" !in c;
  }

  /**
   * Once expired the same token is rejected strictly, and still accepted when expiry is ignored.
   * Issued at the epoch with no lifetime, its "exp" is 0 and it never expires.
   */
  lemma ExpiredRejectedUnlessIgnored(secret: string, userID: nat, deviceID: string, expiry: nat, issued: nat,
                                     tokenString: string, decode: string -> Unverified, now: nat)
    requires decode(tokenString) == GenerateTokenWithExpiry(AuthToken(Some(secret)), userID, deviceID, expiry, issued)
    requires now >= issued + expiry
    ensures issued + expiry > 0 ==>
              VerifyToken(Some(AuthToken(Some(secret))), tokenString, [], decode, now).err == Some(ParseFailed(InvalidClaims))
    ensures issued + expiry == 0 ==>
              VerifyToken(Some(AuthToken(Some(secret))), tokenString, [], decode, now) == Verdict(true, deviceID, userID, None)
    ensures VerifyToken(Some(AuthToken(Some(secret))), tokenString, [true], decode, now) == Verdict(true, deviceID, userID, None)
    ensures VerifyTokenIntended(Some(AuthToken(Some(secret))), tokenString, [true], decode, now) == Verdict(true, deviceID, userID, None)
  {
    var c := TokenClaims(userID, deviceID, expiry, issued);
    assert "exp" in c && c["exp"] == NumClaim(issued + expiry);
    assert "nbf" !in c;
  }

  /** A signed HS256 token whose "exp" is 0 passes strict verification at every time. */
  lemma ZeroExpiryNeverExpires(secret: string, claims: Claims, tokenString: string,
                               decode: string -> Unverified, now: nat)
    requires decode(tokenString) == Decoded(HS256, claims, secret)
    requires "exp" in claims && claims["exp"] == NumClaim(0) && "nbf" !in claims
    ensures VerifyToken(Some(AuthToken(Some(secret))), tokenString, [], decode, now) == ClaimsVerdict(Some(claims))
  {
  }

  /** GenerateToken yields a token for user 0 on that device that verifies for exactly one hour. */
  lemma GenerateTokenLastsOneHour(secret: string, deviceID: string, issued: nat,
                                  tokenString: string, decode: string -> Unverified, now: nat)
    requires decode(tokenString) == GenerateToken(AuthToken(Some(secret)), deviceID, issued)
    ensures VerifyToken(Some(AuthToken(Some(secret))), tokenString, [], decode, now).valid <==> now < issued + 3600
    ensures now < issued + 3600 ==>
              VerifyToken(Some(AuthToken(Some(secret))), tokenString, [], decode, now) == Verdict(true, deviceID, 0, None)
  {
    if now < issued + 3600 {
      GenerateThenVerify(secret, 0, deviceID, 3600, issued, tokenString, decode, now);
    } else {
      ExpiredRejectedUnlessIgnored(secret, 0, deviceID, 3600, issued, tokenString, decode, now);
    }
  }

  /** A token signed with another key is refused strictly, accepted as written when expiry is ignored,
      and refused by the intended check. */
  lemma ForgedTokenWithIgnoredExpiry(secret: string, forger: string, deviceID: string, userID: nat,
                                     tokenString: string, decode: string -> Unverified, now: nat)
    requires forger != secret
    requires decode(tokenString) == GenerateTokenWithExpiry(AuthToken(Some(forger)), userID, deviceID, 3600, now)
    ensures !VerifyToken(Some(AuthToken(Some(secret))), tokenString, [], decode, now).valid
    ensures VerifyToken(Some(AuthToken(Some(secret))), tokenString, [true], decode, now) == Verdict(true, deviceID, userID, None)
    ensures !VerifyTokenIntended(Some(AuthToken(Some(secret))), tokenString, [true], decode, now).valid
  {
  }
}
