/** The `Like` document (backend/app/models/like.py). */
module LikeModel {
  import opened Common

  datatype Like = Like(id: Id, stamps: Stamps, userId: Id, postId: Id)

  datatype LikeCreateRequest = LikeCreateRequest(userId: Id, postId: Id)

  /** `Like(**like_data)`. */
  function NewLike(id: Id, req: LikeCreateRequest, now: Time): (l: Like)
    ensures l.id == id && l.userId == req.userId && l.postId == req.postId
    ensures l.stamps.createdAt == now && l.stamps.updatedAt == now
  {
    Like(id, NewStamps(now), req.userId, req.postId)
  }

  /** `Like.find_one({"user_id": ..., "post_id": ...})` is not None. */
  predicate AlreadyLiked(likes: map<Id, Like>, userId: Id, postId: Id)
  {
    exists l :: l in likes && likes[l].userId == userId && likes[l].postId == postId
  }
}
