/** The `User` document and its request/response shapes
    (backend/app/models/user.py). */
module UserModel {
  import opened Common
  import opened AuthUtils

  /** A stored user. `followers`, `following` and `posts` hold the ids of the
      linked documents. There is no plaintext password field. */
  datatype User = User(
    id: Id,
    stamps: Stamps,
    email: string,
    hashedPassword: PasswordHash,
    username: string,
    fullName: Option<string>,
    bio: Option<string>,
    profilePictureUrl: Option<string>,
    followers: seq<Id>,
    following: seq<Id>,
    posts: seq<Id>)

  /** `UserCreateRequest`: carries the plaintext `password`. */
  datatype UserCreateRequest = UserCreateRequest(
    email: string,
    password: string,
    username: string,
    fullName: Option<string>,
    bio: Option<string>,
    profilePictureUrl: Option<string>)

  /** `UpdateUserRequest`: every field optional; None means "not supplied". */
  datatype UpdateUserRequest = UpdateUserRequest(
    email: Option<string>,
    password: Option<string>,
    username: Option<string>,
    fullName: Option<string>,
    bio: Option<string>,
    profilePictureUrl: Option<string>)

  /** `UserResponse`: no hash and no follow lists. */
  datatype UserResponse = UserResponse(
    id: Id,
    email: string,
    username: string,
    fullName: Option<string>,
    createdAt: Time,
    updatedAt: Time,
    bio: Option<string>,
    profilePictureUrl: Option<string>)

  /** `User(**user_data)` in `sign_up`: the password replaced by its hash,
      the profile fields as given (None when not set), empty link lists and
      both timestamps at creation time. */
  function NewUser(id: Id, req: UserCreateRequest, salt: nat, now: Time): (u: User)
    ensures u.id == id && u.email == req.email && u.username == req.username
    ensures u.fullName == req.fullName && u.bio == req.bio
    ensures u.profilePictureUrl == req.profilePictureUrl
    ensures VerifyPassword(req.password, u.hashedPassword)
    ensures u.followers == [] && u.following == [] && u.posts == []
    ensures u.stamps.createdAt == now && u.stamps.updatedAt == now
  {
    User(id, NewStamps(now), req.email, HashPassword(req.password, salt), req.username,
         req.fullName, req.bio, req.profilePictureUrl, [], [], [])
  }

  function Pick<T>(supplied: Option<T>, current: T): T
  {
    if supplied.Some? then supplied.value else current
  }

  function PickOptional<T>(supplied: Option<T>, current: Option<T>): Option<T>
  {
    if supplied.Some? then supplied else current
  }

  /** `update_user`'s `user.update_timestamps(); user.set(user_data)`: the
      supplied fields replace the stored ones, a supplied password is stored
      hashed, `updated_at` becomes now; id, link lists and `created_at`
      never change. */
  function ApplyUserUpdate(u: User, req: UpdateUserRequest, salt: nat, now: Time): (r: User)
    ensures r.id == u.id && r.followers == u.followers && r.following == u.following
    ensures r.posts == u.posts
    ensures r.stamps.createdAt == u.stamps.createdAt && r.stamps.updatedAt == now
    ensures req.email.Some? ==> r.email == req.email.value
    ensures req.email.None? ==> r.email == u.email
    ensures req.username.Some? ==> r.username == req.username.value
    ensures req.username.None? ==> r.username == u.username
    ensures req.password.Some? ==> VerifyPassword(req.password.value, r.hashedPassword)
    ensures req.password.None? ==> r.hashedPassword == u.hashedPassword
    ensures r.fullName == (if req.fullName.Some? then req.fullName else u.fullName)
    ensures r.bio == (if req.bio.Some? then req.bio else u.bio)
    ensures r.profilePictureUrl ==
              (if req.profilePictureUrl.Some? then req.profilePictureUrl else u.profilePictureUrl)
  {
    u.(stamps := Touched(u.stamps, now),
       email := Pick(req.email, u.email),
       hashedPassword := if req.password.Some? then HashPassword(req.password.value, salt)
                         else u.hashedPassword,
       username := Pick(req.username, u.username),
       fullName := PickOptional(req.fullName, u.fullName),
       bio := PickOptional(req.bio, u.bio),
       profilePictureUrl := PickOptional(req.profilePictureUrl, u.profilePictureUrl))
  }

  /** `UserResponse(**user.model_dump())`. */
  function ToUserResponse(u: User): UserResponse
  {
    UserResponse(u.id, u.email, u.username, u.fullName, u.stamps.createdAt,
                 u.stamps.updatedAt, u.bio, u.profilePictureUrl)
  }

  /** A response never depends on the stored hash or on the link lists. */
  lemma ResponseHidesSecrets(u: User, h: PasswordHash, followers: seq<Id>, following: seq<Id>)
    ensures ToUserResponse(u.(hashedPassword := h, followers := followers, following := following))
            == ToUserResponse(u)
  {
  }

  /** `User.find_one(User.email == email)`: the first user, in the
      collection's scan order, whose email is `email`. */
  function FindOneByEmail(users: map<Id, User>, order: seq<Id>, email: string): (r: Option<Id>)
    ensures r.Some? ==> r.value in users && users[r.value].email == email && r.value in order
    ensures r.Some? ==>
              exists i :: 0 <= i < |order| && order[i] == r.value &&
                forall j :: 0 <= j < i && order[j] in users ==> users[order[j]].email != email
    ensures r.None? <==>
              forall i :: 0 <= i < |order| && order[i] in users ==> users[order[i]].email != email
  {
    if order == [] then None
    else if order[0] in users && users[order[0]].email == email then Some(order[0])
    else
      var rest := FindOneByEmail(users, order[1..], email);
      assert forall i :: 1 <= i < |order| ==> order[i] == order[1..][i - 1];
      rest
  }

  /** Some stored user has this email (`find_one(...)` is not None). */
  predicate EmailTaken(users: map<Id, User>, email: string)
  {
    exists id :: id in users && users[id].email == email
  }

  /** Some stored user has this username. */
  predicate UsernameTaken(users: map<Id, User>, username: string)
  {
    exists id :: id in users && users[id].username == username
  }

  /** When the scan order covers every user, the email search finds a user
      exactly when one has that email. */
  lemma FindOneByEmailComplete(users: map<Id, User>, order: seq<Id>, email: string)
    requires forall id :: id in users ==> id in order
    ensures FindOneByEmail(users, order, email).Some? <==> EmailTaken(users, email)
  {
    if EmailTaken(users, email) {
      var id :| id in users && users[id].email == email;
      var i :| 0 <= i < |order| && order[i] == id;
    }
  }

  /** The email search depends only on the ids and emails of the users: a
      stored user may be rewritten in any other field. */
  lemma {:induction false} FindOneByEmailIgnoresEdit(users: map<Id, User>, order: seq<Id>,
                                                     email: string, k: Id, u: User)
    requires k in users && u.email == users[k].email
    ensures FindOneByEmail(users[k := u], order, email) == FindOneByEmail(users, order, email)
  {
    if order != [] {
      FindOneByEmailIgnoresEdit(users, order[1..], email, k, u);
    }
  }
}
