/** The `Comment` document and its request/response shapes
    (backend/app/models/comment.py). */
module CommentModel {
  import opened Common

  datatype Comment = Comment(id: Id, stamps: Stamps, postId: Id, userId: Id, content: string)

  /** `CommentCreateRequest`: all three fields required. */
  datatype CommentCreateRequest = CommentCreateRequest(postId: Id, userId: Id, content: string)

  /** `UpdateCommentRequest`: only an optional `content`. */
  datatype UpdateCommentRequest = UpdateCommentRequest(content: Option<string>)

  datatype CommentResponse = CommentResponse(
    id: Id, postId: Id, userId: Id, content: string, createdAt: Time, updatedAt: Time)

  /** `Comment(**comment_data)`. */
  function NewComment(id: Id, req: CommentCreateRequest, now: Time): (c: Comment)
    ensures c.id == id && c.postId == req.postId && c.userId == req.userId
    ensures c.content == req.content
    ensures c.stamps.createdAt == now && c.stamps.updatedAt == now
  {
    Comment(id, NewStamps(now), req.postId, req.userId, req.content)
  }

  /** `comment.update_timestamps(); comment.set(comment_data)`: an update
      can change the text and nothing else — never the post or the author. */
  function ApplyCommentUpdate(c: Comment, req: UpdateCommentRequest, now: Time): (r: Comment)
    ensures r.id == c.id && r.postId == c.postId && r.userId == c.userId
    ensures r.stamps.createdAt == c.stamps.createdAt && r.stamps.updatedAt == now
    ensures req.content.Some? ==> r.content == req.content.value
    ensures req.content.None? ==> r.content == c.content
  {
    c.(stamps := Touched(c.stamps, now),
       content := if req.content.Some? then req.content.value else c.content)
  }

  /** `CommentResponse(**comment.model_dump())`. */
  function ToCommentResponse(c: Comment): CommentResponse
  {
    CommentResponse(c.id, c.postId, c.userId, c.content, c.stamps.createdAt, c.stamps.updatedAt)
  }

  /** A created comment's response echoes the request's post, author and text. */
  lemma CreatedCommentEchoesRequest(id: Id, req: CommentCreateRequest, now: Time)
    ensures var resp := ToCommentResponse(NewComment(id, req, now));
            resp.postId == req.postId && resp.userId == req.userId && resp.content == req.content
            && resp.id == id
  {
  }
}
