# snapgram backend core in Dafny

This project models the request-handling core of the snapgram social-media backend. That backend is a FastAPI service whose documents live in MongoDB through Beanie. It stores five collections:

- users, each with follower, following and post id lists;
- posts, each with comment and like id lists;
- comments;
- likes;
- a blacklist of logged-out tokens.

Every write route is a method on one `StoreState.Store` object whose fields are those collections. Each method either returns a typed HTTP error and leaves the store untouched, or changes exactly the fields its `modifies` clause names, and its `ensures` gives the complete new state.

Route handlers that need a signed-in caller first run `get_current_user`. In the model that is the pure function `Dependencies.Guard`, a read-only chain of checks:

1. the blacklist;
2. decoding with the access secret, where a malformed, forged or expired token is rejected;
3. the presence of a `user_id` or `email` claim;
4. the user lookup.

The third column of the table states what each member's contract promises. The property running through the model is the store's referential integrity, `StoreState.Consistent`:

- every document is stored under its own id;
- the user scan order is exactly the stored users;
- every post has a stored owner whose list names it;
- every comment and every like belongs to a stored post whose list names it, and the other way round;
- there is at most one like per (user, post);
- every post has a text or a media URL.

Every write method proves `old(s.Valid()) ==> s.Valid()`. One lemma per kind of write in `StoreState` proves that step.

Modules, in dependency order:

- `Common`: ids, time, `Option`/`Result`, the error kinds, timestamps, and list removal.
- `AuthUtils`: the password-hash stand-in and abstract JWTs, with how they are issued and decoded.
- `TokenModel`: the token pair and the blacklist.
- `UserModel`, `PostModel`, `CommentModel`, `LikeModel`: the documents.
- `Dependencies`: the guard.
- `StoreState`: the store and its invariant.
- `AuthRoutes`, `UserRoutes`, `PostRoutes`, `CommentRoutes`, `LikeRoutes`: the route handlers.

Conventions:

- Time is in whole seconds and is passed in as a parameter.
- A generated uuid is a parameter `newId` with the precondition `s.Unused(newId)`.
- A bcrypt salt is a parameter.
- Python truthiness is modelled explicitly: `Common.Truthy` treats an absent string and "" alike, and a zero `expires_delta` counts as absent.
- `User.find_one(User.email == e)` returns the first match in the collection's scan order. The store keeps that order in `userOrder`, with new users added last.

Behaviour the model keeps as the code has it:

- `delete_post_by_id` removes the post id from the caller's post list, not from the owner's. A user's post list may therefore name a deleted post, and the invariant allows that.
- A self-follow saves two stale snapshots of the same user, one after the other. Only the second save, the one that appends to `followers`, survives.
- A self-unfollow does the same: only the second save survives, so `followers` loses the caller's entries while `following` keeps them.
- `backend/app/models/post.py` declares `content`, `media_type` and `media_url` as required strings. The routes and their tests treat them as optional, with the rule that a post needs a text or a media URL (422 otherwise), and the model follows the routes.
- `backend/app/models/user.py` declares no `posts` field, but the routes read and write `user.posts`, so the model's `User` carries one.
- `backend/app/models/post.py` declares no `comments` or `likes` field, but the routes read and write `post.comments` and `post.likes`, so the model's `Post` carries both.

## Model

| member | source | states |
|---|---|---|
| Common.NewStamps | backend/app/models/common.py:25-26 | `created_at` and `updated_at` both default to the creation time |
| Common.Touched | backend/app/models/common.py:43-47 | `update_timestamps` sets `updated_at` to now and keeps `created_at` |
| Common.Without | backend/app/api/routes/users.py:102-104 | the filtered list holds exactly the entries different from the removed id, each as many times as before, and is the list itself when the id is absent |
| Common.WithoutConcat | backend/app/api/routes/users.py:102-104 | filtering distributes over concatenation, so the remaining entries keep their relative order |
| Common.WithoutAppended | backend/app/api/routes/users.py:102-104 | filtering out an id just appended gives the original list filtered |
| AuthUtils.HashPassword | backend/app/utils/auth.py:16-27 | the stored hash records the salt it was made with |
| AuthUtils.VerifyHashed | backend/app/utils/auth.py:30-41 | `verify_password(p, hash_password(p))` holds for every password and salt |
| AuthUtils.VerifyPassword | backend/app/utils/auth.py:30-41 | `checkpw` accepts a password exactly when hashing it again with the stored salt gives the stored hash |
| AuthUtils.Decode | backend/app/api/dependencies.py:43-50 | a token decodes exactly when it is well formed, carries the given key's signature and is not yet expired (`exp <= now` is expired); a wrong key is an invalid signature |
| AuthUtils.Encode | backend/app/utils/auth.py:63-64 | definition: `jwt.encode` yields the claim set signed with the given key |
| AuthUtils.WithExp | backend/app/utils/auth.py:56-62 | definition: `payload.copy()` with `exp` added, so the claims are the payload's `user_id` and `email` plus `exp` |
| AuthUtils.Expiry | backend/app/utils/auth.py:57-60 | definition: now + `expires_delta` when the delta is truthy (nonzero), else now + the default number of minutes |
| AuthUtils.CreateAccessToken | backend/app/utils/auth.py:44-65 | signed with the access secret; the claims are the payload plus `exp`; `exp` is now + 30 minutes without a delta or with a zero (falsy) delta, and now + delta with a nonzero one |
| AuthUtils.CreateRefreshAccessToken | backend/app/utils/auth.py:68-88 | signed with the refresh secret; the claims are the payload plus `exp`; `exp` is now + 7 days without a delta or with a zero (falsy) delta, and now + delta with a nonzero one |
| AuthUtils.AccessTokenLifetime | backend/app/utils/auth.py:56-64 | an access token decodes to payload + `exp` before `exp`, is expired from `exp` on, and never decodes with the refresh secret |
| AuthUtils.RefreshTokenLifetime | backend/app/utils/auth.py:79-87 | the same for a refresh token, which never decodes with the access secret |
| TokenModel.NewBlacklistRecord | backend/app/models/token.py:32-33 | a record holds the token, and `black_listed_on` defaults to its creation time |
| TokenModel.FindBlacklisted | backend/app/models/token.py:50 | `find_one({"token": t})` gives the first record holding exactly `t`, or none exactly when no record holds it |
| TokenModel.IsTokenBlacklisted | backend/app/models/token.py:38-51 | true exactly when some record's token equals the token |
| TokenModel.BlacklistOnlyGrows | backend/app/api/auth/auth.py:90-91 | appending a record never unlists a token, and lists the appended one |
| UserModel.NewUser | backend/app/api/auth/auth.py:35-38 | the new user has the request's fields, a hash that accepts the request's password, empty follower/following/post lists, and both stamps at now |
| UserModel.ApplyUserUpdate | backend/app/api/routes/users.py:44-49 | each supplied field replaces the stored one and each other field is kept; a supplied password is stored as a hash that accepts it; `updated_at` is now; the id, link lists and `created_at` are kept |
| UserModel.ResponseHidesSecrets | backend/app/models/user.py:100-107 | a `UserResponse` does not depend on the stored hash or the follow lists |
| UserModel.FindOneByEmail | backend/app/api/dependencies.py:57 | the result is a stored user with that email, and no user before it in scan order has that email; there is none exactly when no user in scan order has that email |
| UserModel.FindOneByEmailComplete | backend/app/api/auth/auth.py:25-26 | when the scan order covers every user, the email search finds someone exactly when some user has that email |
| UserModel.FindOneByEmailIgnoresEdit | backend/app/api/dependencies.py:57 | rewriting a user without changing its email does not change the email search |
| UserModel.EmailTaken | backend/app/api/auth/auth.py:25-26 | definition: some stored user has this email, the condition for the first 400 of `sign_up` |
| UserModel.UsernameTaken | backend/app/api/auth/auth.py:30-31 | definition: some stored user has this username, the condition for the second 400 of `sign_up` |
| UserModel.ToUserResponse | backend/app/models/user.py:100-107 | definition: the `UserResponse` fields of a user (id, email, username, full name, stamps, bio, picture), without the hash or link lists |
| PostModel.NewPost | backend/app/api/routes/posts.py:32-34 | the new post has the request's owner, text and media, no comments or likes, and both stamps at now |
| PostModel.ApplyPostUpdate | backend/app/api/routes/posts.py:99-101 | supplied fields replace stored ones and the rest are kept; owner, lists and `created_at` are kept; `updated_at` is now; a body in the request gives a body in the result |
| PostModel.HasBody | backend/app/tests/test_endpoints/test_posts.py:202-240 | definition: a create or update request has a body when it supplies `content` or `media_url`; without one the routes give 422 |
| CommentModel.NewComment | backend/app/api/routes/comments.py:31-33 | the new comment has the request's post, author and text, with both stamps at now |
| CommentModel.ApplyCommentUpdate | backend/app/models/comment.py:57 | an update changes only the text (when supplied) and `updated_at`; the post and author never change |
| CommentModel.CreatedCommentEchoesRequest | backend/app/models/comment.py:72-77 | the response to a created comment echoes the request's post, author and text |
| CommentModel.ToCommentResponse | backend/app/models/comment.py:72-77 | definition: the `CommentResponse` fields of a comment (id, post, author, text and stamps) |
| LikeModel.NewLike | backend/app/api/routes/likes.py:39-41 | the new like has the request's user and post, with both stamps at now |
| LikeModel.AlreadyLiked | backend/app/api/routes/likes.py:31-32 | definition: some stored like has this user and this post, the condition for the 400 of `like_post` |
| Dependencies.LookupUser | backend/app/api/dependencies.py:52-57 | with a truthy `user_id` the lookup is by id only (no fallback to email); otherwise it is the first user with the email |
| Dependencies.Guard | backend/app/api/dependencies.py:18-64 | a blacklisted token gets 401; then any decoding failure gets 401; then missing id and email gets 401; only a token past all three reaches the lookup, which gives 404 "Could not find user" or the user the token names: by id when `user_id` is truthy, else the first user in scan order with the email |
| Dependencies.LoggedOutTokenRejected | backend/app/api/dependencies.py:38-41 | once its token is blacklisted, it is refused with 401 at every time, whatever the users |
| Dependencies.IssuedAccessTokenAuthenticates | backend/app/api/dependencies.py:43-64 | an access token issued for a stored user resolves to that user until it expires, unless it is blacklisted |
| Dependencies.RefreshTokenRejected | backend/app/api/dependencies.py:44 | a refresh token is never accepted as a bearer token |
| Dependencies.NoEmailFallback | backend/app/api/dependencies.py:52-57 | a decodable token whose truthy `user_id` names nobody gets 404, whatever its email |
| Dependencies.GuardIgnoresEdit | backend/app/api/dependencies.py:52-64 | the guard's outcome does not change when a stored user is rewritten with the same email |
| StoreState.Store.Authenticate | backend/app/api/dependencies.py:18-64 | definition: `get_current_user` on the store's current users, scan order and blacklist; it reads the store and changes nothing |
| StoreState.WithoutCommentsOf | backend/app/api/routes/posts.py:120 | `Comment.find(post_id in dead).delete()` keeps exactly the comments of other posts, unchanged |
| StoreState.WithoutLikesOf | backend/app/api/routes/posts.py:119 | `Like.find(post_id in dead).delete()` keeps exactly the likes of other posts, unchanged |
| StoreState.InsertUserKeepsConsistent | backend/app/api/auth/auth.py:38-39 | inserting a user with an unused id and no posts keeps the store consistent |
| StoreState.EditUserKeepsConsistent | backend/app/api/routes/users.py:44-49 | rewriting a user without changing its id or post list keeps the store consistent |
| StoreState.DeleteUserKeepsConsistent | backend/app/api/routes/users.py:121-129 | removing a user, the posts its list names, and their comments and likes keeps the store consistent |
| StoreState.InsertPostKeepsConsistent | backend/app/api/routes/posts.py:32-36 | inserting a post that has a body, for a stored owner, and appending its id to the owner's list keeps the store consistent |
| StoreState.EditPostKeepsConsistent | backend/app/api/routes/posts.py:99-101 | rewriting a post with its id, owner and lists kept and a body keeps the store consistent |
| StoreState.DeletePostKeepsConsistent | backend/app/api/routes/posts.py:119-122 | removing a post's likes and comments, the post, and its id from the caller's list keeps the store consistent |
| StoreState.InsertCommentKeepsConsistent | backend/app/api/routes/comments.py:31-35 | inserting a comment on a stored post and appending it to the post's list keeps the store consistent |
| StoreState.EditCommentKeepsConsistent | backend/app/api/routes/comments.py:74-76 | rewriting a comment with its id and post kept keeps the store consistent |
| StoreState.DeleteCommentKeepsConsistent | backend/app/api/routes/comments.py:96-97 | removing a comment and its id from its post's list keeps the store consistent |
| StoreState.InsertLikeKeepsConsistent | backend/app/api/routes/likes.py:31-43 | inserting a like for a pair not yet liked keeps the store consistent, including at most one like per (user, post) |
| StoreState.DeleteLikeKeepsConsistent | backend/app/api/routes/likes.py:66-67 | removing a like and its id from its post's list keeps the store consistent |
| AuthRoutes.IssueTokens | backend/app/api/auth/auth.py:41-48 | the pair is an access and a refresh token over the same payload with default lifetimes, and `token_type` is None |
| AuthRoutes.IssuedPairSharesPayload | backend/app/api/auth/auth.py:64-71 | both tokens carry the identical `user_id` and `email`, are signed with their two different secrets, and do not use the "Bearer" default |
| AuthRoutes.Register | backend/app/api/auth/auth.py:21-48 | a taken email gives 400 "Email already registered" before the username check; then a taken username gives 400 "username already registered"; neither creates a user; otherwise exactly one user is inserted (stored with a hash) and a token pair for its id and email is returned |
| AuthRoutes.Login | backend/app/api/auth/auth.py:51-71 | succeeds exactly when the first user with the email exists and its hash accepts the password; an unknown email and a wrong password give the same 401; the tokens carry that user's id and email |
| AuthRoutes.LoginAfterRegister | backend/app/api/auth/auth.py:59-62 | after registration, logging in with the registered email and password returns the new user's tokens |
| AuthRoutes.Logout | backend/app/api/auth/auth.py:86-92 | a token the guard refuses gets the guard's error and changes nothing; otherwise exactly that token is appended to the blacklist, after which the guard refuses it with 401 at every time |
| AuthRoutes.LogoutTwice | backend/app/api/auth/auth.py:86-92 | after a successful logout, a second logout with the same token gets 401 |
| UserRoutes.Follow | backend/app/api/routes/users.py:63-67 | the caller gains the friend in `following` and the friend gains the caller in `followers`, one entry each; no other user changes; for a self-follow only the `followers` entry survives |
| UserRoutes.Unfollow | backend/app/api/routes/users.py:102-107 | for two distinct users, every entry naming the friend leaves the caller's `following` and every entry naming the caller leaves the friend's `followers`, and nothing changes when there is no edge; for a self-unfollow only `followers` is filtered; no other user changes |
| UserRoutes.FollowThenUnfollow | backend/app/api/routes/users.py:63-107 | follow then unfollow between two users equals unfollow alone, and removes the edge from both halves |
| UserRoutes.UpdateUser | backend/app/api/routes/users.py:37-51 | a guard error is passed on unchanged; a missing id gives 404 "User not found" and changes nothing; otherwise the user becomes `ApplyUserUpdate(...)` and the response is the updated user |
| UserRoutes.FollowUser | backend/app/api/routes/users.py:57-69 | a missing friend gives 404 "Friend not found" and changes nothing; otherwise the users become `Follow(...)` |
| UserRoutes.UnfollowUser | backend/app/api/routes/users.py:97-109 | a missing friend gives 404 "Friend not found" and changes nothing; otherwise the users become `Unfollow(...)` and the call succeeds even without an edge |
| UserRoutes.DeletePostsOf | backend/app/api/routes/users.py:122-127 | after the loop, the listed posts are gone, and so are all their comments and likes; no user other than the one being deleted changes |
| UserRoutes.DeleteUser | backend/app/api/routes/users.py:114-130 | a missing id gives 404 and changes nothing; otherwise the user, the posts its list names, and those posts' comments and likes are removed, and no other user's document (such as its follow lists) changes |
| PostRoutes.CreatePost | backend/app/api/routes/posts.py:19-38 | no text and no media URL gives 422; then a missing `user_id` gives 404 "User not found"; neither inserts anything; otherwise exactly one post is inserted and appended to that user's list |
| PostRoutes.UpdatePost | backend/app/api/routes/posts.py:87-102 | no text and no media URL gives 422; a missing id gives 404 "Post not found"; neither changes anything; otherwise the post becomes `ApplyPostUpdate(...)` |
| PostRoutes.DeletePost | backend/app/api/routes/posts.py:108-124 | a missing id gives 404 "Post not found!" and changes nothing; otherwise its likes, its comments, the post and its id in the caller's list go; afterwards no comment or like points at it |
| PostRoutes.DeletePostTwice | backend/app/api/routes/posts.py:113-118 | deleting the same post a second time gives 404 "Post not found!" |
| CommentRoutes.CreateComment | backend/app/api/routes/comments.py:17-37 | a missing post gives 404 "Post not found" before the user check; then a missing user gives 404 "User not found"; neither inserts anything; otherwise one comment is inserted and appended to the post's list |
| CommentRoutes.GetAllCommentsOfPost | backend/app/api/routes/comments.py:51-61 | 404 exactly for a missing post, else the post's comment list |
| CommentRoutes.CommentsOfPostAreTheirs | backend/app/api/routes/comments.py:59 | in a consistent store the listing is exactly the stored comments of that post |
| CommentRoutes.UpdateComment | backend/app/api/routes/comments.py:67-77 | a missing id gives 404 "Comment not found" and changes nothing; otherwise only the comment's text and `updated_at` change |
| CommentRoutes.DeleteComment | backend/app/api/routes/comments.py:83-98 | a missing comment gives 404; a missing post gives 404 and keeps the comment; otherwise the comment goes and leaves its post's list |
| LikeRoutes.LikePost | backend/app/api/routes/likes.py:17-45 | a missing post, then a missing user, gives 404; an existing (user, post) like gives 400 "User has already liked this post"; none inserts anything; otherwise one like is inserted and appended, after which the pair counts as liked |
| LikeRoutes.UnlikePost | backend/app/api/routes/likes.py:51-69 | a missing like gives 404 "Like not found"; a missing post gives 404 and keeps the like; otherwise the like goes and leaves its post's list |
| LikeRoutes.GetAllLikesOfPost | backend/app/api/routes/likes.py:75-85 | a guard error is passed on; then 404 exactly for a missing post, else the post's like list |
| LikeRoutes.LikesOfPostAreTheirs | backend/app/api/routes/likes.py:83 | in a consistent store an accepted listing is exactly the post's stored likes, no two of them from the same user |

## Left out

- There is no refresh or password-reset route in `backend/app/api/auth/auth.py`, so `create_refresh_access_token` is modelled only as token issuance.
- The read-only routes are not modelled because they change nothing: `/me`, `get_user`, `get_followers`, `get_following`, `get_all_posts_of_user`, `get_post_by_id` and the read-everything lists. The `delete_all_*` test routes are left out too.
- bcrypt is replaced by a deterministic salted digest. The model promises only that a password verifies against its own hash. The digest is not one-way, and distinct passwords may collide.
- JWTs are abstract values: a signed claim set with the key that signed it, or a malformed string. HMAC, the HS256 header and the encoding are not modelled.
- `datetime.now()` is a parameter in whole seconds, one clock for issuing and checking tokens.
- AuthUtils.AccessTokenLifetime: the code builds `exp` from naive local time, which PyJWT turns into a timestamp through `utctimetuple()` and then checks against true UTC. The 30-minute lifetime therefore holds only on a host whose local zone is UTC. On a host 30 minutes or more behind UTC, a freshly issued access token is already expired.
- AuthUtils.RefreshTokenLifetime: the 7-day lifetime depends on the same UTC-host assumption.
- Dependencies.IssuedAccessTokenAuthenticates: "resolves until `exp`" depends on the same UTC-host assumption.
- `created_at` and `updated_at` each call `datetime.now()` separately, so in the code they can differ by microseconds. The model gives both the same value.
- A request without an `Authorization` header is refused by FastAPI before `get_current_user` runs. The model always receives a token.
- The model checks a route's guard before its body rule, so a 401 or 404 from the guard comes before a 422. This is because FastAPI validates the body only after the dependency has run. FastAPI's error body for a 422 is not modelled, and the model carries a fixed detail string instead.
- Beanie `Link` fetching and `nesting_depth` are not modelled; the reference lists hold ids.
- `models/user.py` and `models/post.py` do not define `add_post`, `remove_post`, `add_comment`, `remove_comment`, `add_like` or `remove_like`. The model takes each `add_*` to append the id and each `remove_*` to remove every entry equal to it.
- UserRoutes.DeleteUser: the loop runs over a snapshot of the post list. If `remove_post`, which `models/user.py` does not define, changes the very list being iterated, the code would skip every other post; the model does not capture that.
- UserRoutes.UpdateUser: the model stores and returns `updated_at = now`. The code moves `updated_at` only on the fetched object. Beanie's `set` then sends a `$set` of the supplied fields alone and merges the stored document back into the object. So in the code both the stored and the returned `updated_at` keep their old value.
- PostRoutes.UpdatePost: the same `updated_at` caveat applies.
- UserModel.ApplyUserUpdate: its `updated_at = now` is the in-memory effect of `update_timestamps` only, and the `set` that follows restores the old value.
- PostModel.ApplyPostUpdate: the same `updated_at` caveat applies.
- CommentModel.ApplyCommentUpdate: the same `updated_at` caveat applies.
- CommentRoutes.UpdateComment: the same `updated_at` caveat applies.
- Request fields given an explicit `null` are not modelled. `None` in an update request means "not supplied".
- Pydantic's `EmailStr` validation and the `str_strip_whitespace` setting are not modelled.
- Concurrency is not modelled: each route is one sequential step. This excludes the check-then-act race in `like_post` and interleaved multi-step deletes.
- Dependencies.RefreshTokenRejected: holds only when the configured access and refresh secrets differ. `SigningKey` makes them distinct by construction, but the code reads both from configuration (`backend/app/utils/auth.py:63-64`, `86-87`). If the two are equal, a refresh token passes `jwt.decode` in the guard.
- AuthUtils.AccessTokenLifetime: the clause "never decodes with the refresh secret" assumes the same distinct secrets.
- AuthUtils.RefreshTokenLifetime: the clause "never decodes with the access secret" assumes the same distinct secrets.
- AuthRoutes.IssuedPairSharesPayload: "two different secrets" is that same assumption.
- TokenModel.IsTokenBlacklisted: the blacklist compares raw token strings, while the model compares abstract token values. Two different encodings of the same claims and key are one token in the model and two in the code. The model therefore blacklists every encoding of a logged-out token, where the code blacklists only the string that was sent.
- HTTP status codes appear only as the error kind (400, 401, 404, 422).
- Mail and file upload are I/O and are not modelled.
