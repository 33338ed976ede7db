/**
 * The authorization pipeline of the Drink API: taking the bearer token out of the
 * `Authorization` header, choosing the signing key from the issuer's key set, turning the
 * JWT library's verdict into an `AuthError`, checking the `permissions` claim, and the
 * guard that runs these steps in front of a route handler.
 *
 * The JWT library (reading a token's header without verifying it, and the RS256
 * verification with its expiry, audience and issuer checks) is an oracle, `Jose`; the key
 * set fetched from the issuer is an input sequence.
 */
module Auth {
  import opened Wrappers

  /** The status codes this module raises an AuthError with. */
  type AuthStatus = s: int | s == 400 || s == 401 || s == 403 witness 401

  /** The `error` payload of an AuthError: a plain message, or a code/description record. */
  datatype ErrorInfo = Message(text: string) | Described(code: string, description: string)

  datatype AuthError = AuthError(error: ErrorInfo, statusCode: AuthStatus)

  /** What the pipeline raises: an AuthError, or an exception of the JWT library that the
      pipeline does not catch (a token whose header cannot be read). */
  datatype Raised = Auth(authError: AuthError) | JoseError

  const NoHeader := AuthError(Message("No Authorization header provided"), 401)
  const MalformedHeader := AuthError(Message("Authorization header malformed"), 400)
  const PermissionsMissing := AuthError(Message("Bad request: Permissions are not included in JWT."), 400)
  const Forbidden := AuthError(Message("Forbidden: you do not have the authorization to access the requested resource."), 403)
  const NoKid := AuthError(Described("Invalid Header", "Authorization malformed."), 401)
  const ExpiredToken := AuthError(Described("Expired token", "Expired token."), 401)
  const InvalidClaims := AuthError(Described("Invalid claims", "Incorrect claims. Please, check the audience and issuer."), 401)
  const Unparsable := AuthError(Described("Invalid header", "Unable to parse authentication token."), 400)
  const Unauthorized := AuthError(Message("Unauthorized"), 401)

  // ----------------------------------------------------------------------------------------
  // Strings

  predicate IsUpper(c: char) { 'A' <= c <= 'Z' }

  function LowerChar(c: char): char { if IsUpper(c) then (c as int + 32) as char else c }

  /** Python's `str.lower()` on ASCII letters. */
  function Lower(s: string): string {
    seq(|s|, i requires 0 <= i < |s| => LowerChar(s[i]))
  }

  /** The pieces glued back together with the separator between them; the inverse of Split. */
  function Join(parts: seq<string>, sep: char): string
    requires |parts| >= 1
    decreases |parts|
  {
    if |parts| == 1 then parts[0] else parts[0] + [sep] + Join(parts[1..], sep)
  }

  /** Python's `s.split(sep=c)` with a one-character separator: every occurrence separates,
      so adjacent separators, or one at either end, give empty pieces. */
  function Split(s: string, sep: char): (parts: seq<string>)
    ensures |parts| >= 1
    ensures forall i :: 0 <= i < |parts| ==> sep !in parts[i]
    ensures Join(parts, sep) == s
    decreases |s|
  {
    if |s| == 0 then [""]
    else
      var rest := Split(s[1..], sep);
      if s[0] == sep then
        assert s == [sep] + s[1..];
        [""] + rest
      else
        var parts := [[s[0]] + rest[0]] + rest[1..];
        assert parts[1..] == rest[1..];
        assert |rest| > 1 ==> Join(rest, sep) == rest[0] + [sep] + Join(rest[1..], sep);
        parts
  }

  lemma {:induction false} SplitWithoutSeparator(s: string, sep: char)
    requires sep !in s
    ensures Split(s, sep) == [s]
    decreases |s|
  {
    if |s| > 0 {
      SplitWithoutSeparator(s[1..], sep);
    }
  }

  lemma {:induction false} SplitAfterPiece(piece: string, rest: string, sep: char)
    requires sep !in piece
    ensures Split(piece + [sep] + rest, sep) == [piece] + Split(rest, sep)
    decreases |piece|
  {
    var s := piece + [sep] + rest;
    if |piece| == 0 {
      assert s[1..] == rest;
    } else {
      assert s[1..] == piece[1..] + [sep] + rest;
      SplitAfterPiece(piece[1..], rest, sep);
      assert [s[0]] + piece[1..] == piece;
    }
  }

  // ----------------------------------------------------------------------------------------
  // Bearer-header extraction

  /** `header` is a scheme that lowercases to "bearer", one space, and then `token`, which
      holds no space. */
  predicate IsBearerHeader(header: string, token: string) {
    && |header| == 7 + |token|
    && Lower(header[..6]) == "bearer"
    && header[6] == ' '
    && header[7..] == token
    && ' ' !in token
  }

  /** The token of an `Authorization: Bearer <token>` header (401 when the header is absent,
      400 when it is not exactly two space-separated pieces with a "bearer" scheme). */
  function GetTokenAuthHeader(authorization: Option<string>): (r: Result<string, AuthError>)
    ensures authorization.None? ==> r == Err(NoHeader)
    ensures authorization.Some? && r.Err? ==> r == Err(MalformedHeader)
    ensures r.Ok? ==> authorization.Some? && IsBearerHeader(authorization.value, r.value)
  {
    match authorization
    case None => Err(NoHeader)
    case Some(header) =>
      var token := Split(header, ' ');
      if |token| != 2 || Lower(token[0]) != "bearer" then Err(MalformedHeader)
      else
        assert Join(token[1..], ' ') == token[1];
        assert header == token[0] + [' '] + token[1];
        assert header[..6] == token[0];
        Ok(token[1])
  }

  /** A scheme spelled "bearer" in any case, one space and a token without spaces gives back
      exactly that token. */
  lemma BearerRoundTrip(scheme: string, token: string)
    requires Lower(scheme) == "bearer"
    requires ' ' !in token
    ensures GetTokenAuthHeader(Some(scheme + " " + token)) == Ok(token)
  {
    forall i | 0 <= i < |scheme|
      ensures scheme[i] != ' '
    {
      assert Lower(scheme)[i] == LowerChar(scheme[i]) == "bearer"[i];
    }
    SplitAfterPiece(scheme, token, ' ');
    SplitWithoutSeparator(token, ' ');
  }

  /** A present header is accepted exactly when it has the bearer shape. */
  lemma HeaderAcceptedIff(header: string)
    ensures GetTokenAuthHeader(Some(header)).Ok? <==>
      |header| >= 7 && Lower(header[..6]) == "bearer" && header[6] == ' ' && ' ' !in header[7..]
  {
    if |header| >= 7 && Lower(header[..6]) == "bearer" && header[6] == ' ' && ' ' !in header[7..] {
      assert header == header[..6] + " " + header[7..];
      BearerRoundTrip(header[..6], header[7..]);
    }
  }

  // ----------------------------------------------------------------------------------------
  // Permission check

  /** The decoded JWT payload: the `permissions` claim, if present, and every other claim. */
  datatype Claims = Claims(permissions: Option<seq<string>>, others: map<string, string>)

  function LowerAll(entries: seq<string>): seq<string> {
    seq(|entries|, i requires 0 <= i < |entries| => Lower(entries[i]))
  }

  /** True when the lowercase of some `permissions` entry equals `permission`; 400 without a
      `permissions` claim, 403 when no entry matches. */
  function CheckPermissions(permission: string, claims: Claims): (r: Result<bool, AuthError>)
    ensures claims.permissions.None? ==> r == Err(PermissionsMissing)
    ensures r.Ok? <==>
      claims.permissions.Some? &&
      exists i :: 0 <= i < |claims.permissions.value| && Lower(claims.permissions.value[i]) == permission
    ensures r.Ok? ==> r.value
    ensures claims.permissions.Some? && r.Err? ==> r == Err(Forbidden)
  {
    match claims.permissions
    case None => Err(PermissionsMissing)
    case Some(entries) =>
      assert forall i :: 0 <= i < |entries| ==> LowerAll(entries)[i] == Lower(entries[i]);
      if permission in LowerAll(entries) then Ok(true) else Err(Forbidden)
  }

  lemma LowerHasNoUpper(s: string)
    ensures forall i :: 0 <= i < |s| ==> !IsUpper(Lower(s)[i])
  {
  }

  /** Claim entries are lowercased but the required permission is not, so a required
      permission with an upper-case letter is never granted. */
  lemma UppercasePermissionNeverGranted(permission: string, claims: Claims, j: nat)
    requires j < |permission| && IsUpper(permission[j])
    ensures CheckPermissions(permission, claims).Err?
  {
    if claims.permissions.Some? {
      var entries := claims.permissions.value;
      forall i | 0 <= i < |entries|
        ensures Lower(entries[i]) != permission
      {
        LowerHasNoUpper(entries[i]);
      }
    }
  }

  // ----------------------------------------------------------------------------------------
  // Key selection and verification

  /** One entry of the issuer's JSON Web Key Set; `others` stands for the members that are
      not copied into the verification key (alg, x5c, x5t, ...). */
  datatype Jwk = Jwk(kty: string, kid: string, use: string, n: string, e: string, others: map<string, string>)

  /** The RSA key handed to the JWT library. */
  datatype RsaKey = RsaKey(kty: string, kid: string, use: string, n: string, e: string)

  function ToRsaKey(k: Jwk): RsaKey { RsaKey(k.kty, k.kid, k.use, k.n, k.e) }

  /** The key the scan over the key set ends with: the LAST entry whose kid matches. */
  function SelectKey(keys: seq<Jwk>, kid: string): (key: Option<RsaKey>)
    ensures key.None? <==> forall i :: 0 <= i < |keys| ==> keys[i].kid != kid
    ensures key.Some? ==>
      exists i :: 0 <= i < |keys| && keys[i].kid == kid && key.value == ToRsaKey(keys[i]) &&
        forall j :: i < j < |keys| ==> keys[j].kid != kid
    decreases |keys|
  {
    if |keys| == 0 then None
    else if keys[|keys| - 1].kid == kid then Some(ToRsaKey(keys[|keys| - 1]))
    else
      var init := keys[..|keys| - 1];
      assert forall i :: 0 <= i < |init| ==> init[i] == keys[i];
      SelectKey(init, kid)
  }

  /** What the JWT library's header reader returns: an unreadable token, or the header with
      its `kid`, if any. */
  datatype JoseHeader = Unreadable | Header(kid: Option<string>)

  /** The verdict of the library's RS256 decode with the configured audience and issuer:
      `ClaimsRejected` is any claims error the library reports (audience, issuer, nbf, iat,
      sub, jti, ...). */
  datatype DecodeOutcome = Decoded(claims: Claims) | ExpiredSignature | ClaimsRejected | DecodeFailed

  /** The JWT library, as an oracle. */
  datatype Jose = Jose(unverifiedHeader: string -> JoseHeader, decode: (string, RsaKey) -> DecodeOutcome)

  /** The token issuer as the pipeline sees it: its published key set and the library. */
  datatype Issuer = Issuer(keys: seq<Jwk>, jose: Jose)

  /** The handlers around the library's decode: the claims on success, 401 for an expired
      token or any rejected claim, 400 for every other failure. */
  function DecodeVerdict(outcome: DecodeOutcome): (r: Result<Option<Claims>, Raised>)
    ensures r.Ok? <==> outcome.Decoded?
    ensures r.Ok? ==> r.value == Some(outcome.claims)
    ensures r.Err? ==> r.error.Auth?
    ensures outcome.ExpiredSignature? ==> r.error.authError == ExpiredToken
    ensures outcome.ClaimsRejected? ==> r.error.authError == InvalidClaims
    ensures r.Err? ==> (r.error.authError.statusCode == 400 <==> outcome.DecodeFailed?)
  {
    match outcome
    case Decoded(c) => Ok(Some(c))
    case ExpiredSignature => Err(Auth(ExpiredToken))
    case ClaimsRejected => Err(Auth(InvalidClaims))
    case DecodeFailed => Err(Auth(Unparsable))
  }

  /** What verifying `token` against `issuer` returns: `Ok(None)` when no key matches. */
  function Verification(token: string, issuer: Issuer): (r: Result<Option<Claims>, Raised>)
    ensures issuer.jose.unverifiedHeader(token).Unreadable? ==> r == Err(JoseError)
    ensures issuer.jose.unverifiedHeader(token) == Header(None) ==> r == Err(Auth(NoKid))
    ensures r.Ok? && r.value.Some? ==>
      && issuer.jose.unverifiedHeader(token).Header?
      && issuer.jose.unverifiedHeader(token).kid.Some?
      && SelectKey(issuer.keys, issuer.jose.unverifiedHeader(token).kid.value).Some?
      && issuer.jose.decode(token, SelectKey(issuer.keys, issuer.jose.unverifiedHeader(token).kid.value).value)
         == Decoded(r.value.value)
  {
    match issuer.jose.unverifiedHeader(token)
    case Unreadable => Err(JoseError)
    case Header(None) => Err(Auth(NoKid))
    case Header(Some(kid)) =>
      match SelectKey(issuer.keys, kid)
      case None => Ok(None)
      case Some(key) => DecodeVerdict(issuer.jose.decode(token, key))
  }

  /** Reads the token's header, scans the whole key set keeping the last key whose kid
      matches, and decodes the token with that key. */
  method VerifyDecodeJwt(token: string, issuer: Issuer) returns (r: Result<Option<Claims>, Raised>)
    ensures r == Verification(token, issuer)
  {
    var header := issuer.jose.unverifiedHeader(token);
    if header.Unreadable? {
      return Err(JoseError);
    }
    var rsaKey: Option<RsaKey> := None;
    if header.kid.None? {
      return Err(Auth(NoKid));
    }
    var kid := header.kid.value;
    var keys := issuer.keys;
    var i := 0;
    while i < |keys|
      invariant 0 <= i <= |keys|
      invariant rsaKey == SelectKey(keys[..i], kid)
    {
      assert keys[..i + 1][..i] == keys[..i];
      if keys[i].kid == kid {
        rsaKey := Some(ToRsaKey(keys[i]));
      }
      i := i + 1;
    }
    assert keys[..i] == keys;
    if rsaKey.Some? {
      r := DecodeVerdict(issuer.jose.decode(token, rsaKey.value));
    } else {
      r := Ok(None);
    }
  }

  /** A header without `kid` is rejected with 401 whatever the key set holds. */
  lemma NoKidRejectedBeforeKeySearch(token: string, keys: seq<Jwk>, otherKeys: seq<Jwk>, jose: Jose)
    requires jose.unverifiedHeader(token) == Header(None)
    ensures Verification(token, Issuer(keys, jose)) == Err(Auth(NoKid))
    ensures Verification(token, Issuer(keys, jose)) == Verification(token, Issuer(otherKeys, jose))
  {
  }

  /** Verification gives no claims and no error exactly when the header names a kid that no
      key in the set carries. */
  lemma NoClaimsIffNoMatchingKey(token: string, issuer: Issuer)
    ensures Verification(token, issuer) == Ok(None) <==>
      exists kid :: issuer.jose.unverifiedHeader(token) == Header(Some(kid)) &&
        forall i :: 0 <= i < |issuer.keys| ==> issuer.keys[i].kid != kid
  {
  }

  /** The key passed to the library is the one built from the last matching entry. */
  lemma DecodedWithLastMatchingKey(token: string, issuer: Issuer, kid: string, i: nat)
    requires issuer.jose.unverifiedHeader(token) == Header(Some(kid))
    requires i < |issuer.keys| && issuer.keys[i].kid == kid
    requires forall j :: i < j < |issuer.keys| ==> issuer.keys[j].kid != kid
    ensures Verification(token, issuer) == DecodeVerdict(issuer.jose.decode(token, ToRsaKey(issuer.keys[i])))
  {
    var key := SelectKey(issuer.keys, kid);
    var k :| 0 <= k < |issuer.keys| && issuer.keys[k].kid == kid && key.value == ToRsaKey(issuer.keys[k]) &&
      forall j :: k < j < |issuer.keys| ==> issuer.keys[j].kid != kid;
    assert k == i;
  }

  // ----------------------------------------------------------------------------------------
  // The guard

  /** The wrapper that `requires_auth(permission)` puts around a handler, up to the call of
      the handler: extract, verify, reject a missing payload, check the permission. The
      handler runs exactly when this passes. */
  function RequiresAuth(permission: string, authorization: Option<string>, issuer: Issuer): (r: Outcome<Raised>)
    ensures r.Pass? <==>
      && GetTokenAuthHeader(authorization).Ok?
      && var v := Verification(GetTokenAuthHeader(authorization).value, issuer);
      && v.Ok? && v.value.Some?
      && CheckPermissions(permission, v.value.value) == Ok(true)
    ensures GetTokenAuthHeader(authorization).Err? ==>
      r == Fail(Auth(GetTokenAuthHeader(authorization).error))
    ensures GetTokenAuthHeader(authorization).Ok? ==>
      var v := Verification(GetTokenAuthHeader(authorization).value, issuer);
      && (v.Err? ==> r == Fail(v.error))
      && (v == Ok(None) ==> r == Fail(Auth(Unauthorized)))
      && (v.Ok? && v.value.Some? && CheckPermissions(permission, v.value.value).Err? ==>
            r == Fail(Auth(CheckPermissions(permission, v.value.value).error)))
  {
    match GetTokenAuthHeader(authorization)
    case Err(e) => Fail(Auth(e))
    case Ok(token) =>
      match Verification(token, issuer)
      case Err(raised) => Fail(raised)
      case Ok(None) => Fail(Auth(Unauthorized))
      case Ok(Some(claims)) =>
        match CheckPermissions(permission, claims)
        case Err(e) => Fail(Auth(e))
        case Ok(_) => Pass
  }

  /** A request without an `Authorization` header is refused with 401. */
  lemma MissingHeaderRefused(permission: string, issuer: Issuer)
    ensures RequiresAuth(permission, None, issuer) == Fail(Auth(NoHeader))
    ensures NoHeader.statusCode == 401
  {
  }

  /** `Authorization: Token abc` is refused with 400 before the token is looked at. */
  lemma WrongSchemeRefused(permission: string, issuer: Issuer)
    ensures RequiresAuth(permission, Some("Token abc"), issuer) == Fail(Auth(MalformedHeader))
  {
    HeaderAcceptedIff("Token abc");
  }

  /** A token whose header names no known key is refused with 401. */
  lemma UnknownKeyRefused(permission: string, authorization: Option<string>, issuer: Issuer, kid: string)
    requires GetTokenAuthHeader(authorization).Ok?
    requires issuer.jose.unverifiedHeader(GetTokenAuthHeader(authorization).value) == Header(Some(kid))
    requires forall i :: 0 <= i < |issuer.keys| ==> issuer.keys[i].kid != kid
    ensures RequiresAuth(permission, authorization, issuer) == Fail(Auth(Unauthorized))
  {
  }

  /** An expired token is refused with 401 whatever permissions it carries. */
  lemma ExpiredTokenRefused(permission: string, authorization: Option<string>, issuer: Issuer, kid: string, key: RsaKey)
    requires GetTokenAuthHeader(authorization).Ok?
    requires issuer.jose.unverifiedHeader(GetTokenAuthHeader(authorization).value) == Header(Some(kid))
    requires SelectKey(issuer.keys, kid) == Some(key)
    requires issuer.jose.decode(GetTokenAuthHeader(authorization).value, key) == ExpiredSignature
    ensures RequiresAuth(permission, authorization, issuer) == Fail(Auth(ExpiredToken))
  {
  }

  /** A 403 is only ever raised for a token that was extracted and verified, whose
      `permissions` claim is present and has no entry lowercasing to the permission. */
  lemma ForbiddenOnlyAfterVerification(permission: string, authorization: Option<string>, issuer: Issuer)
    requires RequiresAuth(permission, authorization, issuer).Fail?
    requires RequiresAuth(permission, authorization, issuer).error.Auth?
    requires RequiresAuth(permission, authorization, issuer).error.authError.statusCode == 403
    ensures GetTokenAuthHeader(authorization).Ok?
    ensures var v := Verification(GetTokenAuthHeader(authorization).value, issuer);
      && v.Ok? && v.value.Some?
      && v.value.value.permissions.Some?
      && forall i :: 0 <= i < |v.value.value.permissions.value| ==>
           Lower(v.value.value.permissions.value[i]) != permission
  {
  }
}
