/** The user routes that write: update, follow, unfollow and delete
    (backend/app/api/routes/users.py). Every one runs the guard first. */
module UserRoutes {
  import opened Common
  import opened UserModel
  import opened PostModel
  import opened CommentModel
  import opened LikeModel
  import opened AuthUtils
  import opened Dependencies
  import opened StoreState

  const UserNotFound: Error := NotFound("User not found")
  const FriendNotFound: Error := NotFound("Friend not found")

  /** `follow_user`'s two saves: first the caller's snapshot with the friend
      appended to `following`, then the friend's snapshot with the caller
      appended to `followers`. The second save replaces the whole document,
      so a self-follow keeps only the `followers` entry. */
  function Follow(users: map<Id, User>, me: Id, friend: Id): (r: map<Id, User>)
    requires me in users && friend in users
    ensures r.Keys == users.Keys
    ensures forall k :: k in users && k != me && k != friend ==> r[k] == users[k]
    ensures me != friend ==>
              && r[me] == users[me].(following := users[me].following + [friend])
              && r[friend] == users[friend].(followers := users[friend].followers + [me])
    ensures me == friend ==> r[me] == users[me].(followers := users[me].followers + [me])
  {
    var mine := users[me].(following := users[me].following + [friend]);
    var theirs := users[friend].(followers := users[friend].followers + [me]);
    users[me := mine][friend := theirs]
  }

  /** `unfollow_user`'s two saves: every entry naming the friend leaves the
      caller's `following`, then every entry naming the caller leaves the
      friend's `followers`. The second save replaces the whole document, so
      a self-unfollow filters only `followers`. */
  function Unfollow(users: map<Id, User>, me: Id, friend: Id): (r: map<Id, User>)
    requires me in users && friend in users
    ensures r.Keys == users.Keys
    ensures forall k :: k in users && k != me && k != friend ==> r[k] == users[k]
    ensures me != friend ==>
              && r[me] == users[me].(following := Without(users[me].following, friend))
              && r[friend] == users[friend].(followers := Without(users[friend].followers, me))
    ensures me != friend ==> friend !in r[me].following && me !in r[friend].followers
    ensures me != friend && friend !in users[me].following && me !in users[friend].followers ==>
              r == users
    ensures me == friend ==> r[me] == users[me].(followers := Without(users[me].followers, me))
  {
    var mine := users[me].(following := Without(users[me].following, friend));
    var theirs := users[friend].(followers := Without(users[friend].followers, me));
    users[me := mine][friend := theirs]
  }

  /** Following and then unfollowing someone else leaves both users exactly
      as unfollowing alone would: the edge is gone from both halves. */
  lemma FollowThenUnfollow(users: map<Id, User>, a: Id, b: Id)
    requires a in users && b in users && a != b
    ensures Unfollow(Follow(users, a, b), a, b) == Unfollow(users, a, b)
    ensures b !in Unfollow(Follow(users, a, b), a, b)[a].following
    ensures a !in Unfollow(Follow(users, a, b), a, b)[b].followers
  {
    WithoutAppended(users[a].following, b);
    WithoutAppended(users[b].followers, a);
    var lhs, rhs := Unfollow(Follow(users, a, b), a, b), Unfollow(users, a, b);
    assert lhs.Keys == rhs.Keys;
  }

  lemma RemoveStep<T>(m: map<Id, T>, gone: set<Id>, p: Id)
    ensures (m - gone) - {p} == m - (gone + {p})
  {
  }

  lemma ReplaceThenRemove<T>(m: map<Id, T>, k: Id, v: T)
    ensures m[k := v] - {k} == m - {k}
  {
  }

  /** `update_user`: 404 for a missing id; otherwise the supplied fields
      replace the stored ones (a password stored hashed), `updated_at`
      moves to now, and the response is the updated user. */
  method UpdateUser(s: Store, token: Jwt, now: Time, userId: Id, req: UpdateUserRequest, salt: nat)
    returns (r: Result<UserResponse>)
    modifies s`users
    ensures old(s.Authenticate(token, now)).Err? ==>
              r == Err(old(s.Authenticate(token, now)).error) && unchanged(s)
    ensures old(s.Authenticate(token, now)).Ok? && userId !in old(s.users) ==>
              r == Err(UserNotFound) && unchanged(s)
    ensures old(s.Authenticate(token, now)).Ok? && userId in old(s.users) ==>
              && s.users == old(s.users)[userId := ApplyUserUpdate(old(s.users)[userId], req, salt, now)]
              && r == Ok(ToUserResponse(s.users[userId]))
    ensures old(s.Valid()) ==> s.Valid()
  {
    var me := s.Authenticate(token, now);
    if me.Err? {
      return Err(me.error);
    }
    if userId !in s.users {
      return Err(UserNotFound);
    }
    var updated := ApplyUserUpdate(s.users[userId], req, salt, now);
    s.users := s.users[userId := updated];
    if old(s.Valid()) {
      assert s.Valid() by {
        EditUserKeepsConsistent(old(s.users), s.userOrder, s.posts, s.comments, s.likes, userId, updated);
      }
    }
    r := Ok(ToUserResponse(updated));
  }

  /** `follow_user`: 404 "Friend not found" for a missing friend; otherwise
      the two writes of `Follow`. Nothing checks for a duplicate edge or a
      self-follow. */
  method FollowUser(s: Store, token: Jwt, now: Time, friendId: Id) returns (r: Result<string>)
    modifies s`users
    ensures old(s.Authenticate(token, now)).Err? ==>
              r == Err(old(s.Authenticate(token, now)).error) && unchanged(s)
    ensures old(s.Authenticate(token, now)).Ok? && friendId !in old(s.users) ==>
              r == Err(FriendNotFound) && unchanged(s)
    ensures old(s.Authenticate(token, now)).Ok? && friendId in old(s.users) ==>
              && s.users == Follow(old(s.users), old(s.Authenticate(token, now)).value, friendId)
              && r == Ok("follow successfully")
    ensures old(s.Valid()) ==> s.Valid()
  {
    var me := s.Authenticate(token, now);
    if me.Err? {
      return Err(me.error);
    }
    if friendId !in s.users {
      return Err(FriendNotFound);
    }
    var a, b := me.value, friendId;
    var mine := s.users[a].(following := s.users[a].following + [b]);
    var theirs := s.users[b].(followers := s.users[b].followers + [a]);
    s.users := s.users[a := mine];
    s.users := s.users[b := theirs];
    if old(s.Valid()) {
      assert s.Valid() by {
        EditUserKeepsConsistent(old(s.users), s.userOrder, s.posts, s.comments, s.likes, a, mine);
        EditUserKeepsConsistent(old(s.users)[a := mine], s.userOrder, s.posts, s.comments, s.likes, b, theirs);
      }
    }
    r := Ok("follow successfully");
  }

  /** `unfollow_user`: 404 "Friend not found" for a missing friend;
      otherwise the two writes of `Unfollow`, which succeed (and change no
      list) when there was no edge. */
  method UnfollowUser(s: Store, token: Jwt, now: Time, friendId: Id) returns (r: Result<string>)
    modifies s`users
    ensures old(s.Authenticate(token, now)).Err? ==>
              r == Err(old(s.Authenticate(token, now)).error) && unchanged(s)
    ensures old(s.Authenticate(token, now)).Ok? && friendId !in old(s.users) ==>
              r == Err(FriendNotFound) && unchanged(s)
    ensures old(s.Authenticate(token, now)).Ok? && friendId in old(s.users) ==>
              && s.users == Unfollow(old(s.users), old(s.Authenticate(token, now)).value, friendId)
              && r == Ok("Unfollowed successfully")
    ensures old(s.Valid()) ==> s.Valid()
  {
    var me := s.Authenticate(token, now);
    if me.Err? {
      return Err(me.error);
    }
    if friendId !in s.users {
      return Err(FriendNotFound);
    }
    var a, b := me.value, friendId;
    var mine := s.users[a].(following := Without(s.users[a].following, b));
    var theirs := s.users[b].(followers := Without(s.users[b].followers, a));
    s.users := s.users[a := mine];
    s.users := s.users[b := theirs];
    if old(s.Valid()) {
      assert s.Valid() by {
        EditUserKeepsConsistent(old(s.users), s.userOrder, s.posts, s.comments, s.likes, a, mine);
        EditUserKeepsConsistent(old(s.users)[a := mine], s.userOrder, s.posts, s.comments, s.likes, b, theirs);
      }
    }
    r := Ok("Unfollowed successfully");
  }

  /** The loop of `delete_user` over a snapshot `postIds` of the user's
      post list: each post's comments, its likes and the post itself go,
      and its id leaves the user's list. */
  method DeletePostsOf(s: Store, userId: Id, postIds: seq<Id>)
    requires userId in s.users
    modifies s`users, s`posts, s`comments, s`likes
    ensures userId in s.users && s.users - {userId} == old(s.users) - {userId}
    ensures s.posts == old(s.posts) - Elements(postIds)
    ensures s.comments == WithoutCommentsOf(old(s.comments), Elements(postIds))
    ensures s.likes == WithoutLikesOf(old(s.likes), Elements(postIds))
  {
    var i := 0;
    while i < |postIds|
      invariant 0 <= i <= |postIds|
      invariant userId in s.users
      invariant s.users - {userId} == old(s.users) - {userId}
      invariant s.posts == old(s.posts) - Elements(postIds[..i])
      invariant s.comments == WithoutCommentsOf(old(s.comments), Elements(postIds[..i]))
      invariant s.likes == WithoutLikesOf(old(s.likes), Elements(postIds[..i]))
    {
      var pid := postIds[i];
      assert Elements(postIds[..i + 1]) == Elements(postIds[..i]) + {pid} by {
        assert postIds[..i + 1] == postIds[..i] + [pid];
      }
      WithoutCommentsOfStep(old(s.comments), Elements(postIds[..i]), pid);
      WithoutLikesOfStep(old(s.likes), Elements(postIds[..i]), pid);
      RemoveStep(old(s.posts), Elements(postIds[..i]), pid);
      ReplaceThenRemove(s.users, userId, s.users[userId].(posts := Without(s.users[userId].posts, pid)));
      s.comments := WithoutCommentsOf(s.comments, {pid});
      s.likes := WithoutLikesOf(s.likes, {pid});
      s.posts := s.posts - {pid};
      s.users := s.users[userId := s.users[userId].(posts := Without(s.users[userId].posts, pid))];
      i := i + 1;
    }
    assert postIds[..i] == postIds;
  }

  /** `delete_user`: 404 for a missing id; otherwise, for each post id in a
      snapshot of the user's post list, its comments, its likes and the post
      go and the id leaves the user's list; then the user goes. No other
      user's document is written, so their follow lists keep their entries. */
  method DeleteUser(s: Store, token: Jwt, now: Time, userId: Id) returns (r: Result<string>)
    modifies s`users, s`userOrder, s`posts, s`comments, s`likes
    ensures old(s.Authenticate(token, now)).Err? ==>
              r == Err(old(s.Authenticate(token, now)).error) && unchanged(s)
    ensures old(s.Authenticate(token, now)).Ok? && userId !in old(s.users) ==>
              r == Err(UserNotFound) && unchanged(s)
    ensures old(s.Authenticate(token, now)).Ok? && userId in old(s.users) ==>
              var dead := Elements(old(s.users)[userId].posts);
              && r == Ok("user deleted successfully")
              && s.users == old(s.users) - {userId}
              && s.userOrder == Without(old(s.userOrder), userId)
              && s.posts == old(s.posts) - dead
              && s.comments == WithoutCommentsOf(old(s.comments), dead)
              && s.likes == WithoutLikesOf(old(s.likes), dead)
    ensures old(s.Valid()) ==> s.Valid()
  {
    var me := s.Authenticate(token, now);
    if me.Err? {
      return Err(me.error);
    }
    if userId !in s.users {
      return Err(UserNotFound);
    }
    ghost var wasValid := s.Valid();
    if wasValid {
      DeleteUserKeepsConsistent(s.users, s.userOrder, s.posts, s.comments, s.likes, userId);
    }
    DeletePostsOf(s, userId, s.users[userId].posts);
    s.users := s.users - {userId};
    s.userOrder := Without(s.userOrder, userId);
    r := Ok("user deleted successfully");
  }
}
