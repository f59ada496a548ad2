/** The like routes (backend/app/api/routes/likes.py). Every one runs the
    guard first. */
module LikeRoutes {
  import opened Common
  import opened AuthUtils
  import opened UserModel
  import opened PostModel
  import opened LikeModel
  import opened StoreState

  const PostNotFound: Error := NotFound("Post not found")
  const UserNotFound: Error := NotFound("User not found")
  const LikeNotFound: Error := NotFound("Like not found")
  const AlreadyLikedError: Error := BadRequest("User has already liked this post")

  /** `like_post`: 404 for a missing post, then 404 for a missing user,
      then 400 when that user already likes that post; otherwise exactly one
      new like, appended to the post's list, after which the pair counts as
      liked. */
  method LikePost(s: Store, token: Jwt, now: Time, req: LikeCreateRequest, newId: Id)
    returns (r: Result<Like>)
    requires s.Unused(newId)
    modifies s`likes, s`posts
    ensures old(s.Authenticate(token, now)).Err? ==>
              r == Err(old(s.Authenticate(token, now)).error) && unchanged(s)
    ensures old(s.Authenticate(token, now)).Ok? && req.postId !in old(s.posts) ==>
              r == Err(PostNotFound) && unchanged(s)
    ensures old(s.Authenticate(token, now)).Ok? && req.postId in old(s.posts) &&
            req.userId !in old(s.users) ==>
              r == Err(UserNotFound) && unchanged(s)
    ensures old(s.Authenticate(token, now)).Ok? && req.postId in old(s.posts) &&
            req.userId in old(s.users) && AlreadyLiked(old(s.likes), req.userId, req.postId) ==>
              r == Err(AlreadyLikedError) && unchanged(s)
    ensures old(s.Authenticate(token, now)).Ok? && req.postId in old(s.posts) &&
            req.userId in old(s.users) && !AlreadyLiked(old(s.likes), req.userId, req.postId) ==>
              var post := old(s.posts)[req.postId];
              && r == Ok(NewLike(newId, req, now))
              && s.likes == old(s.likes)[newId := NewLike(newId, req, now)]
              && s.posts == old(s.posts)[req.postId := post.(likes := post.likes + [newId])]
    ensures r.Ok? ==> AlreadyLiked(s.likes, req.userId, req.postId)
    ensures old(s.Valid()) ==> s.Valid()
  {
    var me := s.Authenticate(token, now);
    if me.Err? {
      return Err(me.error);
    }
    if req.postId !in s.posts {
      return Err(PostNotFound);
    }
    if req.userId !in s.users {
      return Err(UserNotFound);
    }
    if AlreadyLiked(s.likes, req.userId, req.postId) {
      return Err(AlreadyLikedError);
    }
    var like := NewLike(newId, req, now);
    s.likes := s.likes[newId := like];
    var post := s.posts[req.postId];
    s.posts := s.posts[req.postId := post.(likes := post.likes + [newId])];
    assert s.likes[newId] == like;
    if old(s.Valid()) {
      assert s.Valid() by {
        InsertLikeKeepsConsistent(s.users, s.userOrder, old(s.posts), s.comments, old(s.likes), like);
      }
    }
    r := Ok(like);
  }

  /** `unlike_post`: 404 for a missing like, then 404 when its post is
      missing (and the like stays); otherwise the like goes and leaves its
      post's list. */
  method UnlikePost(s: Store, token: Jwt, now: Time, likeId: Id) returns (r: Result<string>)
    modifies s`likes, s`posts
    ensures old(s.Authenticate(token, now)).Err? ==>
              r == Err(old(s.Authenticate(token, now)).error) && unchanged(s)
    ensures old(s.Authenticate(token, now)).Ok? && likeId !in old(s.likes) ==>
              r == Err(LikeNotFound) && unchanged(s)
    ensures old(s.Authenticate(token, now)).Ok? && likeId in old(s.likes) &&
            old(s.likes)[likeId].postId !in old(s.posts) ==>
              r == Err(PostNotFound) && unchanged(s)
    ensures old(s.Authenticate(token, now)).Ok? && likeId in old(s.likes) &&
            old(s.likes)[likeId].postId in old(s.posts) ==>
              var pid := old(s.likes)[likeId].postId;
              var post := old(s.posts)[pid];
              && r == Ok("Like deleted successfully")
              && s.likes == old(s.likes) - {likeId}
              && s.posts == old(s.posts)[pid := post.(likes := Without(post.likes, likeId))]
    ensures old(s.Valid()) ==> s.Valid()
  {
    var me := s.Authenticate(token, now);
    if me.Err? {
      return Err(me.error);
    }
    if likeId !in s.likes {
      return Err(LikeNotFound);
    }
    var pid := s.likes[likeId].postId;
    if pid !in s.posts {
      return Err(PostNotFound);
    }
    s.likes := s.likes - {likeId};
    var post := s.posts[pid];
    s.posts := s.posts[pid := post.(likes := Without(post.likes, likeId))];
    if old(s.Valid()) {
      assert s.Valid() by {
        DeleteLikeKeepsConsistent(s.users, s.userOrder, old(s.posts), s.comments, old(s.likes), likeId);
      }
    }
    r := Ok("Like deleted successfully");
  }

  /** `get_all_likes_of_post`: after the guard, 404 for a missing post, else
      the post's like list in its stored order. */
  function GetAllLikesOfPost(s: Store, token: Jwt, now: Time, postId: Id): (r: Result<seq<Id>>)
    reads s
    ensures s.Authenticate(token, now).Err? ==> r == Err(s.Authenticate(token, now).error)
    ensures s.Authenticate(token, now).Ok? ==> (r.Err? <==> postId !in s.posts)
    ensures s.Authenticate(token, now).Ok? && r.Err? ==> r.error == PostNotFound
    ensures r.Ok? ==> r.value == s.posts[postId].likes
  {
    var me := s.Authenticate(token, now);
    if me.Err? then Err(me.error)
    else if postId !in s.posts then Err(PostNotFound)
    else Ok(s.posts[postId].likes)
  }

  /** In a consistent store an accepted listing is exactly the stored likes
      of the post, and no two of them come from the same user. */
  lemma LikesOfPostAreTheirs(s: Store, token: Jwt, now: Time, postId: Id)
    requires s.Valid()
    ensures var r := GetAllLikesOfPost(s, token, now, postId);
            r.Ok? ==>
              && (forall l :: l in r.value <==> l in s.likes && s.likes[l].postId == postId)
              && (forall a, b :: a in r.value && b in r.value && s.likes[a].userId == s.likes[b].userId ==> a == b)
  {
  }
}
