/** The comment routes (backend/app/api/routes/comments.py). None of them
    runs the guard. */
module CommentRoutes {
  import opened Common
  import opened UserModel
  import opened PostModel
  import opened CommentModel
  import opened StoreState

  const PostNotFound: Error := NotFound("Post not found")
  const UserNotFound: Error := NotFound("User not found")
  const CommentNotFound: Error := NotFound("Comment not found")

  /** `create_comment`: 404 for a missing post, then 404 for a missing
      user; otherwise exactly one new comment, appended to the post's list. */
  method CreateComment(s: Store, req: CommentCreateRequest, newId: Id, now: Time)
    returns (r: Result<CommentResponse>)
    requires s.Unused(newId)
    modifies s`comments, s`posts
    ensures req.postId !in old(s.posts) ==> r == Err(PostNotFound) && unchanged(s)
    ensures req.postId in old(s.posts) && req.userId !in old(s.users) ==>
              r == Err(UserNotFound) && unchanged(s)
    ensures req.postId in old(s.posts) && req.userId in old(s.users) ==>
              var post := old(s.posts)[req.postId];
              && r == Ok(ToCommentResponse(NewComment(newId, req, now)))
              && s.comments == old(s.comments)[newId := NewComment(newId, req, now)]
              && s.posts == old(s.posts)[req.postId := post.(comments := post.comments + [newId])]
    ensures old(s.Valid()) ==> s.Valid()
  {
    if req.postId !in s.posts {
      return Err(PostNotFound);
    }
    if req.userId !in s.users {
      return Err(UserNotFound);
    }
    var comment := NewComment(newId, req, now);
    s.comments := s.comments[newId := comment];
    var post := s.posts[req.postId];
    s.posts := s.posts[req.postId := post.(comments := post.comments + [newId])];
    if old(s.Valid()) {
      assert s.Valid() by {
        InsertCommentKeepsConsistent(s.users, s.userOrder, old(s.posts), old(s.comments), s.likes, comment);
      }
    }
    r := Ok(ToCommentResponse(comment));
  }

  /** `get_all_comments_of_post`: 404 for a missing post, else the post's
      comment list in its stored order. */
  function GetAllCommentsOfPost(posts: map<Id, Post>, postId: Id): (r: Result<seq<Id>>)
    ensures r.Err? <==> postId !in posts
    ensures r.Err? ==> r.error == PostNotFound
    ensures r.Ok? ==> r.value == posts[postId].comments
  {
    if postId !in posts then Err(PostNotFound) else Ok(posts[postId].comments)
  }

  /** In a consistent store the listing is exactly the stored comments that
      belong to the post: each listed id is such a comment, and each such
      comment is listed. */
  lemma CommentsOfPostAreTheirs(s: Store, postId: Id)
    requires s.Valid() && postId in s.posts
    ensures var r := GetAllCommentsOfPost(s.posts, postId);
            r.Ok? &&
            (forall c :: c in r.value <==> c in s.comments && s.comments[c].postId == postId)
  {
  }

  /** `update_comment`: 404 for a missing id; otherwise only the text (and
      `updated_at`) change — never the post or the author. */
  method UpdateComment(s: Store, commentId: Id, req: UpdateCommentRequest, now: Time)
    returns (r: Result<CommentResponse>)
    modifies s`comments
    ensures commentId !in old(s.comments) ==> r == Err(CommentNotFound) && unchanged(s)
    ensures commentId in old(s.comments) ==>
              && s.comments == old(s.comments)[commentId := ApplyCommentUpdate(old(s.comments)[commentId], req, now)]
              && r == Ok(ToCommentResponse(s.comments[commentId]))
    ensures old(s.Valid()) ==> s.Valid()
  {
    if commentId !in s.comments {
      return Err(CommentNotFound);
    }
    var updated := ApplyCommentUpdate(s.comments[commentId], req, now);
    s.comments := s.comments[commentId := updated];
    if old(s.Valid()) {
      assert s.Valid() by {
        EditCommentKeepsConsistent(s.users, s.userOrder, s.posts, old(s.comments), s.likes, commentId, updated);
      }
    }
    r := Ok(ToCommentResponse(updated));
  }

  /** `delete_comment`: 404 for a missing comment, then 404 when its post is
      missing (and the comment stays); otherwise the comment goes and leaves
      its post's list. */
  method DeleteComment(s: Store, commentId: Id) returns (r: Result<string>)
    modifies s`comments, s`posts
    ensures commentId !in old(s.comments) ==> r == Err(CommentNotFound) && unchanged(s)
    ensures commentId in old(s.comments) && old(s.comments)[commentId].postId !in old(s.posts) ==>
              r == Err(PostNotFound) && unchanged(s)
    ensures commentId in old(s.comments) && old(s.comments)[commentId].postId in old(s.posts) ==>
              var pid := old(s.comments)[commentId].postId;
              var post := old(s.posts)[pid];
              && r == Ok("Comment deleted successfully")
              && s.comments == old(s.comments) - {commentId}
              && s.posts == old(s.posts)[pid := post.(comments := Without(post.comments, commentId))]
    ensures old(s.Valid()) ==> s.Valid()
  {
    if commentId !in s.comments {
      return Err(CommentNotFound);
    }
    var pid := s.comments[commentId].postId;
    if pid !in s.posts {
      return Err(PostNotFound);
    }
    s.comments := s.comments - {commentId};
    var post := s.posts[pid];
    s.posts := s.posts[pid := post.(comments := Without(post.comments, commentId))];
    if old(s.Valid()) {
      assert s.Valid() by {
        DeleteCommentKeepsConsistent(s.users, s.userOrder, old(s.posts), old(s.comments), s.likes, commentId);
      }
    }
    r := Ok("Comment deleted successfully");
  }
}
