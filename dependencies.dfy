/** `get_current_user` (backend/app/api/dependencies.py): the read-only
    guard in front of every protected route. It resolves a bearer token to
    the id of a stored user, or rejects it. */
module Dependencies {
  import opened Common
  import opened AuthUtils
  import opened TokenModel
  import opened UserModel

  /** `credentials_exception`. */
  const CredentialsError: Error := Unauthorized("Could not validate credentials")

  /** The 404 raised when a well-formed token names nobody in the store. */
  const UserMissing: Error := NotFound("Could not find user")

  /** The user lookup: by id when `user_id` is truthy (`User.get`), else by
      email (`User.find_one`); a failed id lookup does not fall back to the email. */
  function LookupUser(users: map<Id, User>, order: seq<Id>, claims: Claims): (r: Option<Id>)
    requires Truthy(claims.userId) || Truthy(claims.email)
    ensures r.Some? ==> r.value in users
    ensures Truthy(claims.userId) ==>
              r == (if claims.userId.value in users then Some(claims.userId.value) else None)
    ensures !Truthy(claims.userId) ==> r == FindOneByEmail(users, order, claims.email.value)
  {
    if Truthy(claims.userId) then
      if claims.userId.value in users then Some(claims.userId.value) else None
    else FindOneByEmail(users, order, claims.email.value)
  }

  /** `get_current_user(token)` at time `now`, over the users (in scan
      order) and the blacklist. */
  function Guard(users: map<Id, User>, order: seq<Id>, blacklist: seq<BlacklistRecord>,
                 token: Jwt, now: Time): (r: Result<Id>)
    // 1. a blacklisted token is refused before it is even decoded
    ensures IsTokenBlacklisted(blacklist, token) ==> r == Err(CredentialsError)
    // 2. then every decoding failure with the access secret: malformed, forged, expired
    ensures Decode(token, AccessSecret, now).Rejected? ==> r == Err(CredentialsError)
    // 3. then claims that carry neither a user id nor an email
    ensures (Decode(token, AccessSecret, now).Valid? &&
             !Truthy(token.claims.userId) && !Truthy(token.claims.email)) ==> r == Err(CredentialsError)
    // only a token past all three checks reaches the lookup, which gives 404 or the user
    ensures (r.Ok? || r == Err(UserMissing)) <==>
              !IsTokenBlacklisted(blacklist, token) && Decode(token, AccessSecret, now).Valid? &&
              (Truthy(token.claims.userId) || Truthy(token.claims.email))
    ensures r.Err? ==> r.error == CredentialsError || r.error == UserMissing
    // the user found is the one the token names: by id if it has one, else by email
    ensures r.Ok? ==> r.value in users
    ensures r.Ok? && Truthy(token.claims.userId) ==> r.value == token.claims.userId.value
    ensures r.Ok? && !Truthy(token.claims.userId) ==>
              users[r.value].email == token.claims.email.value
    ensures r.Ok? && !Truthy(token.claims.userId) ==>
              Some(r.value) == FindOneByEmail(users, order, token.claims.email.value)
    ensures r == Err(UserMissing) && Truthy(token.claims.userId) ==>
              token.claims.userId.value !in users
    ensures r == Err(UserMissing) && !Truthy(token.claims.userId) ==>
              FindOneByEmail(users, order, token.claims.email.value).None?
  {
    if IsTokenBlacklisted(blacklist, token) then Err(CredentialsError)
    else
      match Decode(token, AccessSecret, now)
      case Rejected(_) => Err(CredentialsError)
      case Valid(claims) =>
        if !Truthy(claims.email) && !Truthy(claims.userId) then Err(CredentialsError)
        else
          var found := LookupUser(users, order, claims);
          if found.None? then Err(UserMissing) else Ok(found.value)
  }

  /** Once a token is on the blacklist it is refused with 401 whatever the
      users and whenever it is presented — a logged-out token stays out. */
  lemma LoggedOutTokenRejected(users: map<Id, User>, order: seq<Id>, blacklist: seq<BlacklistRecord>,
                               token: Jwt, loggedOutAt: Time, at: Time)
    ensures Guard(users, order, blacklist + [NewBlacklistRecord(token, loggedOutAt)], token, at)
            == Err(CredentialsError)
  {
    BlacklistOnlyGrows(blacklist, NewBlacklistRecord(token, loggedOutAt), token);
  }

  /** An access token issued for a stored user resolves to that user until
      it expires, unless it has been blacklisted. */
  lemma IssuedAccessTokenAuthenticates(users: map<Id, User>, order: seq<Id>,
                                       blacklist: seq<BlacklistRecord>, payload: Payload,
                                       expiresDelta: Option<int>, now: Time, at: Time)
    requires payload.userId in users && payload.userId != ""
    requires !IsTokenBlacklisted(blacklist, CreateAccessToken(payload, expiresDelta, now))
    requires at < Expiry(now, expiresDelta, AccessTokenExpireMinutes)
    ensures Guard(users, order, blacklist, CreateAccessToken(payload, expiresDelta, now), at)
            == Ok(payload.userId)
  {
    AccessTokenLifetime(payload, expiresDelta, now, at);
  }

  /** A refresh token is never accepted as a bearer token: it is signed with
      the other secret. */
  lemma RefreshTokenRejected(users: map<Id, User>, order: seq<Id>, blacklist: seq<BlacklistRecord>,
                             payload: Payload, expiresDelta: Option<int>, now: Time, at: Time)
    ensures Guard(users, order, blacklist, CreateRefreshAccessToken(payload, expiresDelta, now), at)
            == Err(CredentialsError)
  {
  }

  /** With a truthy `user_id` the email is never consulted: a token whose id
      names no stored user is refused with 404 even when its email is a stored
      user's. */
  lemma NoEmailFallback(users: map<Id, User>, order: seq<Id>, blacklist: seq<BlacklistRecord>,
                        token: Jwt, now: Time)
    requires !IsTokenBlacklisted(blacklist, token) && Decode(token, AccessSecret, now).Valid?
    requires Truthy(token.claims.userId) && token.claims.userId.value !in users
    ensures Guard(users, order, blacklist, token, now) == Err(UserMissing)
  {
  }

  /** The guard's verdict depends on each user only through its id and its
      email: rewriting a stored user's profile, password, follow lists or
      post list leaves every token's outcome unchanged. */
  lemma GuardIgnoresEdit(users: map<Id, User>, order: seq<Id>, blacklist: seq<BlacklistRecord>,
                         token: Jwt, now: Time, k: Id, u: User)
    requires k in users && u.email == users[k].email
    ensures Guard(users[k := u], order, blacklist, token, now) == Guard(users, order, blacklist, token, now)
  {
    if token.Signed? && token.claims.email.Some? {
      FindOneByEmailIgnoresEdit(users, order, token.claims.email.value, k, u);
    }
  }
}
