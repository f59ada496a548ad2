/** Sign-up, login and logout (backend/app/api/auth/auth.py). */
module AuthRoutes {
  import opened Common
  import opened AuthUtils
  import opened TokenModel
  import opened UserModel
  import opened Dependencies
  import opened StoreState

  /** `OAuth2PasswordRequestForm`: its `username` field carries the email. */
  datatype LoginForm = LoginForm(username: string, password: string)

  const EmailRegistered: Error := BadRequest("Email already registered")
  const UsernameRegistered: Error := BadRequest("username already registered")
  const BadCredentials: Error := Unauthorized("Invalid email or password")

  /** The pair both handlers return: access and refresh tokens over the
      same `{user_id, email}` payload with default lifetimes, and an
      explicit `token_type=None`. */
  function IssueTokens(payload: Payload, now: Time): (t: Token)
    ensures t.accessToken == CreateAccessToken(payload, None, now)
    ensures t.refreshToken == CreateRefreshAccessToken(payload, None, now)
    ensures t.tokenType.None?
  {
    Token(CreateAccessToken(payload, None, now), CreateRefreshAccessToken(payload, None, now), None)
  }

  /** Both tokens of the pair carry the identical payload; only the key and
      the expiry differ, and the pair does not use the declared "Bearer" default. */
  lemma IssuedPairSharesPayload(payload: Payload, now: Time)
    ensures var t := IssueTokens(payload, now);
            t.accessToken.Signed? && t.refreshToken.Signed? &&
            t.accessToken.claims.userId == t.refreshToken.claims.userId == Some(payload.userId) &&
            t.accessToken.claims.email == t.refreshToken.claims.email == Some(payload.email) &&
            t.accessToken.key == AccessSecret && t.refreshToken.key == RefreshSecret &&
            t.tokenType != DefaultTokenType
  {
  }

  /** `sign_up`: 400 if the email is taken, then 400 if the username is
      taken, and otherwise exactly one new user (stored with the hash of
      the password) and a token pair for it. `newId` is the generated
      uuid, `salt` the hash's salt. */
  method Register(s: Store, req: UserCreateRequest, newId: Id, salt: nat, now: Time)
    returns (r: Result<Token>)
    requires s.Unused(newId)
    modifies s`users, s`userOrder
    ensures EmailTaken(old(s.users), req.email) ==> r == Err(EmailRegistered) && unchanged(s)
    ensures !EmailTaken(old(s.users), req.email) && UsernameTaken(old(s.users), req.username) ==>
              r == Err(UsernameRegistered) && unchanged(s)
    ensures !EmailTaken(old(s.users), req.email) && !UsernameTaken(old(s.users), req.username) ==>
              && r == Ok(IssueTokens(Payload(newId, req.email), now))
              && s.users == old(s.users)[newId := NewUser(newId, req, salt, now)]
              && s.userOrder == old(s.userOrder) + [newId]
    ensures old(s.Valid()) ==> s.Valid()
  {
    if EmailTaken(s.users, req.email) {
      return Err(EmailRegistered);
    }
    if UsernameTaken(s.users, req.username) {
      return Err(UsernameRegistered);
    }
    var user := NewUser(newId, req, salt, now);
    if s.Valid() {
      InsertUserKeepsConsistent(s.users, s.userOrder, s.posts, s.comments, s.likes, user);
    }
    s.users := s.users[newId := user];
    s.userOrder := s.userOrder + [newId];
    r := Ok(IssueTokens(Payload(user.id, user.email), now));
  }

  /** `login`: the first user with the form's email, if its stored hash
      accepts the password, gets a token pair; an unknown email and a wrong
      password give the same 401. */
  function Login(users: map<Id, User>, order: seq<Id>, form: LoginForm, now: Time): (r: Result<Token>)
    ensures r.Err? ==> r.error == BadCredentials
    ensures r.Ok? <==>
              var found := FindOneByEmail(users, order, form.username);
              found.Some? && VerifyPassword(form.password, users[found.value].hashedPassword)
    ensures r.Ok? ==>
              var id := FindOneByEmail(users, order, form.username).value;
              r.value == IssueTokens(Payload(id, form.username), now)
  {
    match FindOneByEmail(users, order, form.username)
    case None => Err(BadCredentials)
    case Some(id) =>
      if !VerifyPassword(form.password, users[id].hashedPassword) then Err(BadCredentials)
      else Ok(IssueTokens(Payload(id, users[id].email), now))
  }

  /** A user can log in with the email and password it registered with:
      registration puts an email no one else holds at the end of the scan
      order, so the lookup finds the new user, whose hash accepts the password. */
  lemma LoginAfterRegister(users: map<Id, User>, order: seq<Id>, req: UserCreateRequest,
                           newId: Id, salt: nat, now: Time, at: Time)
    requires !EmailTaken(users, req.email) && newId !in users
    ensures Login(users[newId := NewUser(newId, req, salt, now)], order + [newId],
                  LoginForm(req.email, req.password), at)
            == Ok(IssueTokens(Payload(newId, req.email), at))
  {
    var users' := users[newId := NewUser(newId, req, salt, now)];
    var order' := order + [newId];
    assert order'[|order|] == newId;
    var found := FindOneByEmail(users', order', req.email);
    assert found.Some?;
  }

  /** `logout_user`: the guard must accept the token; then exactly that
      token is appended to the blacklist, after which the guard refuses it
      with 401 at every time. */
  method Logout(s: Store, token: Jwt, now: Time) returns (r: Result<string>)
    modifies s`blacklist
    ensures old(s.Authenticate(token, now)).Err? ==>
              r == Err(old(s.Authenticate(token, now)).error) && unchanged(s)
    ensures old(s.Authenticate(token, now)).Ok? ==>
              && r == Ok("Successfully logged out")
              && s.blacklist == old(s.blacklist) + [NewBlacklistRecord(token, now)]
              && (forall at :: s.Authenticate(token, at) == Err(CredentialsError))
    ensures old(s.Valid()) ==> s.Valid()
  {
    var me := s.Authenticate(token, now);
    if me.Err? {
      return Err(me.error);
    }
    s.blacklist := s.blacklist + [NewBlacklistRecord(token, now)];
    forall at
      ensures s.Authenticate(token, at) == Err(CredentialsError)
    {
      LoggedOutTokenRejected(s.users, s.userOrder, old(s.blacklist), token, now, at);
    }
    r := Ok("Successfully logged out");
  }

  /** Logging out twice with the same token: the second call is refused
      with 401 by the guard and changes nothing. */
  method LogoutTwice(s: Store, token: Jwt, now: Time, later: Time)
    returns (first: Result<string>, second: Result<string>)
    modifies s`blacklist
    ensures first.Ok? ==> second == Err(CredentialsError)
    ensures first.Ok? ==> s.blacklist == old(s.blacklist) + [NewBlacklistRecord(token, now)]
  {
    first := Logout(s, token, now);
    second := Logout(s, token, later);
  }
}
