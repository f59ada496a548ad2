/** Password hashing and token issuing (backend/app/utils/auth.py).

    bcrypt is replaced by a deterministic salted digest whose only
    promised property is that a password verifies against its own hash; the
    salt that `bcrypt.gensalt()` draws is a parameter. A JWT is an abstract
    value: either a well-formed HS256 token carrying claims and signed with
    some key, or a string that does not parse as a token. */
module AuthUtils {
  import opened Common

  const AccessTokenExpireMinutes: int := 30
  const RefreshTokenExpireMinutes: int := 60 * 24 * 7
  const Algorithm: string := "HS256"

  // ---------------------------------------------------------------- passwords

  /** A stored `hashed_password`: the salt it was made with and the digest. */
  datatype PasswordHash = PasswordHash(salt: nat, digest: nat)

  function Digest(password: string, salt: nat): nat
  {
    if password == [] then salt
    else Digest(password[1..], salt * 31 + password[0] as nat)
  }

  function HashPassword(password: string, salt: nat): (h: PasswordHash)
    ensures h.salt == salt
  {
    PasswordHash(salt, Digest(password, salt))
  }

  /** `bcrypt.checkpw`: hashing the password again with the stored salt
      gives exactly the stored hash. */
  function VerifyPassword(password: string, hashed: PasswordHash): (b: bool)
    ensures b <==> HashPassword(password, hashed.salt) == hashed
  {
    Digest(password, hashed.salt) == hashed.digest
  }

  /** `verify_password(p, hash_password(p))` holds for every salt. */
  lemma VerifyHashed(password: string, salt: nat)
    ensures VerifyPassword(password, HashPassword(password, salt))
  {
  }

  // ---------------------------------------------------------------- tokens

  /** The secret a token was signed with: `jwt_secret_key`,
      `jwt_refresh_secret_key`, or anything else. */
  datatype SigningKey = AccessSecret | RefreshSecret | ForeignKey

  /** The claims a decoded token carries (`payload.get(...)` gives None for
      an absent claim). */
  datatype Claims = Claims(userId: Option<string>, email: Option<string>, exp: Option<Time>)

  datatype Jwt = Signed(claims: Claims, key: SigningKey) | Malformed(raw: string)

  /** PyJWT's exceptions: `DecodeError`, `InvalidSignatureError`,
      `ExpiredSignatureError`. */
  datatype DecodeError = DecodeFailure | InvalidSignature | ExpiredSignature

  datatype Decoded = Valid(claims: Claims) | Rejected(reason: DecodeError)

  /** The `{"user_id": ..., "email": ...}` dict handed to the token makers. */
  datatype Payload = Payload(userId: Id, email: string)

  function Encode(claims: Claims, key: SigningKey): Jwt
  {
    Signed(claims, key)
  }

  /** `jwt.decode(token, key, "HS256")` at time `now`: the token must parse,
      then carry the signature of `key`, then (if it has `exp`) not be
      expired — PyJWT rejects once `exp <= now`. */
  function Decode(token: Jwt, key: SigningKey, now: Time): (r: Decoded)
    ensures r.Valid? <==>
              token.Signed? && token.key == key &&
              (token.claims.exp.Some? ==> now < token.claims.exp.value)
    ensures r.Valid? ==> r.claims == token.claims
    ensures token.Signed? && token.key != key ==> r == Rejected(InvalidSignature)
  {
    match token
    case Malformed(_) => Rejected(DecodeFailure)
    case Signed(claims, k) =>
      if k != key then Rejected(InvalidSignature)
      else if claims.exp.Some? && claims.exp.value <= now then Rejected(ExpiredSignature)
      else Valid(claims)
  }

  /** `payload.copy()` plus `exp`: the caller's payload is a value and stays as it was. */
  function WithExp(payload: Payload, exp: Time): Claims
  {
    Claims(Some(payload.userId), Some(payload.email), Some(exp))
  }

  /** `now + expires_delta` when a truthy delta is given (a zero timedelta is
      falsy), else `now + defaultMinutes` minutes. */
  function Expiry(now: Time, expiresDelta: Option<int>, defaultMinutes: int): Time
  {
    if expiresDelta.Some? && expiresDelta.value != 0 then now + expiresDelta.value
    else now + defaultMinutes * 60
  }

  function CreateAccessToken(payload: Payload, expiresDelta: Option<int>, now: Time): (t: Jwt)
    ensures t.Signed? && t.key == AccessSecret
    ensures t.claims.userId == Some(payload.userId) && t.claims.email == Some(payload.email)
    ensures (expiresDelta.None? || expiresDelta.value == 0) ==> t.claims.exp == Some(now + 30 * 60)
    ensures expiresDelta.Some? && expiresDelta.value != 0 ==>
              t.claims.exp == Some(now + expiresDelta.value)
  {
    Encode(WithExp(payload, Expiry(now, expiresDelta, AccessTokenExpireMinutes)), AccessSecret)
  }

  function CreateRefreshAccessToken(payload: Payload, expiresDelta: Option<int>, now: Time): (t: Jwt)
    ensures t.Signed? && t.key == RefreshSecret
    ensures t.claims.userId == Some(payload.userId) && t.claims.email == Some(payload.email)
    ensures (expiresDelta.None? || expiresDelta.value == 0) ==> t.claims.exp == Some(now + 7 * 24 * 60 * 60)
    ensures expiresDelta.Some? && expiresDelta.value != 0 ==>
              t.claims.exp == Some(now + expiresDelta.value)
  {
    Encode(WithExp(payload, Expiry(now, expiresDelta, RefreshTokenExpireMinutes)), RefreshSecret)
  }

  /** An access token decodes with the access secret to exactly the payload
      plus `exp` until `exp`, is expired from then on, and never decodes with
      the refresh secret. */
  lemma AccessTokenLifetime(payload: Payload, expiresDelta: Option<int>, now: Time, at: Time)
    ensures var t := CreateAccessToken(payload, expiresDelta, now);
            var exp := Expiry(now, expiresDelta, AccessTokenExpireMinutes);
            && (at < exp ==> Decode(t, AccessSecret, at) == Valid(WithExp(payload, exp)))
            && (exp <= at ==> Decode(t, AccessSecret, at) == Rejected(ExpiredSignature))
            && Decode(t, RefreshSecret, at) == Rejected(InvalidSignature)
  {
  }

  /** The refresh-token counterpart: the refresh secret only. */
  lemma RefreshTokenLifetime(payload: Payload, expiresDelta: Option<int>, now: Time, at: Time)
    ensures var t := CreateRefreshAccessToken(payload, expiresDelta, now);
            var exp := Expiry(now, expiresDelta, RefreshTokenExpireMinutes);
            && (at < exp ==> Decode(t, RefreshSecret, at) == Valid(WithExp(payload, exp)))
            && (exp <= at ==> Decode(t, RefreshSecret, at) == Rejected(ExpiredSignature))
            && Decode(t, AccessSecret, at) == Rejected(InvalidSignature)
  {
  }
}
