/** The post routes that write: create, update and delete
    (backend/app/api/routes/posts.py). Every one runs the guard first; the
    request-body rule "a text or a media URL" is checked next (422). */
module PostRoutes {
  import opened Common
  import opened UserModel
  import opened PostModel
  import opened CommentModel
  import opened LikeModel
  import opened AuthUtils
  import opened Dependencies
  import opened StoreState

  const UserNotFound: Error := NotFound("User not found")
  const PostNotFound: Error := NotFound("Post not found")
  /** The 404 of `delete_post_by_id`, with its exclamation mark. */
  const PostNotFoundOnDelete: Error := NotFound("Post not found!")
  const BodyMissing: Error := Unprocessable("content or media_url is required")

  /** `create_post`: 422 without a text or a media URL, 404 when the
      request's `user_id` names nobody; otherwise exactly one new post and its
      id appended to that user's list (the request's user, not the caller). */
  method CreatePost(s: Store, token: Jwt, now: Time, req: PostCreateRequest, newId: Id)
    returns (r: Result<Post>)
    requires s.Unused(newId)
    modifies s`posts, s`users
    ensures old(s.Authenticate(token, now)).Err? ==>
              r == Err(old(s.Authenticate(token, now)).error) && unchanged(s)
    ensures old(s.Authenticate(token, now)).Ok? && !HasBody(req.content, req.mediaUrl) ==>
              r == Err(BodyMissing) && unchanged(s)
    ensures old(s.Authenticate(token, now)).Ok? && HasBody(req.content, req.mediaUrl) &&
            req.userId !in old(s.users) ==>
              r == Err(UserNotFound) && unchanged(s)
    ensures old(s.Authenticate(token, now)).Ok? && HasBody(req.content, req.mediaUrl) &&
            req.userId in old(s.users) ==>
              var owner := old(s.users)[req.userId];
              && r == Ok(NewPost(newId, req, now))
              && s.posts == old(s.posts)[newId := NewPost(newId, req, now)]
              && s.users == old(s.users)[req.userId := owner.(posts := owner.posts + [newId])]
    ensures old(s.Valid()) ==> s.Valid()
  {
    var me := s.Authenticate(token, now);
    if me.Err? {
      return Err(me.error);
    }
    if !HasBody(req.content, req.mediaUrl) {
      return Err(BodyMissing);
    }
    if req.userId !in s.users {
      return Err(UserNotFound);
    }
    var post := NewPost(newId, req, now);
    s.posts := s.posts[newId := post];
    var owner := s.users[req.userId];
    s.users := s.users[req.userId := owner.(posts := owner.posts + [newId])];
    if old(s.Valid()) {
      assert s.Valid() by {
        InsertPostKeepsConsistent(old(s.users), s.userOrder, old(s.posts), s.comments, s.likes, post);
      }
    }
    r := Ok(post);
  }

  /** `update_post`: 422 without a text or a media URL, 404 for a missing
      id; otherwise the supplied fields replace the stored ones and
      `updated_at` moves to now. */
  method UpdatePost(s: Store, token: Jwt, now: Time, postId: Id, req: UpdatePostRequest)
    returns (r: Result<Post>)
    modifies s`posts
    ensures old(s.Authenticate(token, now)).Err? ==>
              r == Err(old(s.Authenticate(token, now)).error) && unchanged(s)
    ensures old(s.Authenticate(token, now)).Ok? && !HasBody(req.content, req.mediaUrl) ==>
              r == Err(BodyMissing) && unchanged(s)
    ensures old(s.Authenticate(token, now)).Ok? && HasBody(req.content, req.mediaUrl) &&
            postId !in old(s.posts) ==>
              r == Err(PostNotFound) && unchanged(s)
    ensures old(s.Authenticate(token, now)).Ok? && HasBody(req.content, req.mediaUrl) &&
            postId in old(s.posts) ==>
              && s.posts == old(s.posts)[postId := ApplyPostUpdate(old(s.posts)[postId], req, now)]
              && r == Ok(s.posts[postId])
    ensures old(s.Valid()) ==> s.Valid()
  {
    var me := s.Authenticate(token, now);
    if me.Err? {
      return Err(me.error);
    }
    if !HasBody(req.content, req.mediaUrl) {
      return Err(BodyMissing);
    }
    if postId !in s.posts {
      return Err(PostNotFound);
    }
    var updated := ApplyPostUpdate(s.posts[postId], req, now);
    s.posts := s.posts[postId := updated];
    if old(s.Valid()) {
      assert s.Valid() by {
        EditPostKeepsConsistent(s.users, s.userOrder, old(s.posts), s.comments, s.likes, postId, updated);
      }
    }
    r := Ok(updated);
  }

  /** `delete_post_by_id`: 404 "Post not found!" for a missing id;
      otherwise every like and every comment of the post, then the post,
      go, and the id leaves the caller's post list. No comment or like is
      left pointing at the post. */
  method DeletePost(s: Store, token: Jwt, now: Time, postId: Id) returns (r: Result<string>)
    modifies s`posts, s`comments, s`likes, s`users
    ensures old(s.Authenticate(token, now)).Err? ==>
              r == Err(old(s.Authenticate(token, now)).error) && unchanged(s)
    ensures old(s.Authenticate(token, now)).Ok? && postId !in old(s.posts) ==>
              r == Err(PostNotFoundOnDelete) && unchanged(s)
    ensures old(s.Authenticate(token, now)).Ok? && postId in old(s.posts) ==>
              var me := old(s.Authenticate(token, now)).value;
              && r == Ok("Post deleted successfully")
              && s.likes == WithoutLikesOf(old(s.likes), {postId})
              && s.comments == WithoutCommentsOf(old(s.comments), {postId})
              && s.posts == old(s.posts) - {postId}
              && s.users == old(s.users)[me := old(s.users)[me].(posts := Without(old(s.users)[me].posts, postId))]
    ensures r.Ok? ==> forall c :: c in s.comments ==> s.comments[c].postId != postId
    ensures r.Ok? ==> forall l :: l in s.likes ==> s.likes[l].postId != postId
    ensures old(s.Valid()) ==> s.Valid()
  {
    var me := s.Authenticate(token, now);
    if me.Err? {
      return Err(me.error);
    }
    if postId !in s.posts {
      return Err(PostNotFoundOnDelete);
    }
    s.likes := WithoutLikesOf(s.likes, {postId});
    s.comments := WithoutCommentsOf(s.comments, {postId});
    s.posts := s.posts - {postId};
    var mine := s.users[me.value];
    s.users := s.users[me.value := mine.(posts := Without(mine.posts, postId))];
    if old(s.Valid()) {
      assert s.Valid() by {
        DeletePostKeepsConsistent(old(s.users), s.userOrder, old(s.posts), old(s.comments),
                                  old(s.likes), me.value, postId);
      }
    }
    r := Ok("Post deleted successfully");
  }

  /** Deleting the same post twice: the second call gives the 404, because the
      first removed the post and did not change the caller's standing with
      the guard. */
  method DeletePostTwice(s: Store, token: Jwt, now: Time, postId: Id)
    returns (first: Result<string>, second: Result<string>)
    modifies s`posts, s`comments, s`likes, s`users
    ensures first.Ok? ==> second == Err(PostNotFoundOnDelete)
  {
    ghost var guardBefore := s.Authenticate(token, now);
    first := DeletePost(s, token, now, postId);
    if first.Ok? {
      var me := guardBefore.value;
      GuardIgnoresEdit(old(s.users), s.userOrder, s.blacklist, token, now, me,
                       old(s.users)[me].(posts := Without(old(s.users)[me].posts, postId)));
    }
    second := DeletePost(s, token, now, postId);
  }
}
