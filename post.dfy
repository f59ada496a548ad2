/** The `Post` document and its request shapes. `models/post.py` declares
    no request models; their fields are the ones the routes read. */
module PostModel {
  import opened Common

  /** A stored post; `comments` and `likes` hold the ids of linked documents. */
  datatype Post = Post(
    id: Id,
    stamps: Stamps,
    userId: Id,
    content: Option<string>,
    mediaType: Option<string>,
    mediaUrl: Option<string>,
    comments: seq<Id>,
    likes: seq<Id>)

  datatype PostCreateRequest = PostCreateRequest(
    userId: Id,
    content: Option<string>,
    mediaType: Option<string>,
    mediaUrl: Option<string>)

  /** Every field optional; None means "not supplied". */
  datatype UpdatePostRequest = UpdatePostRequest(
    content: Option<string>,
    mediaType: Option<string>,
    mediaUrl: Option<string>)

  /** The request-body rule: a post needs a text or a media URL. */
  predicate HasBody(content: Option<string>, mediaUrl: Option<string>)
  {
    content.Some? || mediaUrl.Some?
  }

  /** `Post(**post_data)`: the request's fields, no comments or likes yet,
      both timestamps at creation time. */
  function NewPost(id: Id, req: PostCreateRequest, now: Time): (p: Post)
    ensures p.id == id && p.userId == req.userId
    ensures p.content == req.content && p.mediaType == req.mediaType && p.mediaUrl == req.mediaUrl
    ensures p.comments == [] && p.likes == []
    ensures p.stamps.createdAt == now && p.stamps.updatedAt == now
  {
    Post(id, NewStamps(now), req.userId, req.content, req.mediaType, req.mediaUrl, [], [])
  }

  /** `post.update_timestamps(); post.set(post_data)`: supplied fields
      replace the stored ones, `updated_at` becomes now, and the owner, the
      link lists and `created_at` stay. */
  function ApplyPostUpdate(p: Post, req: UpdatePostRequest, now: Time): (r: Post)
    ensures r.id == p.id && r.userId == p.userId
    ensures r.comments == p.comments && r.likes == p.likes
    ensures r.stamps.createdAt == p.stamps.createdAt && r.stamps.updatedAt == now
    ensures r.content == (if req.content.Some? then req.content else p.content)
    ensures r.mediaType == (if req.mediaType.Some? then req.mediaType else p.mediaType)
    ensures r.mediaUrl == (if req.mediaUrl.Some? then req.mediaUrl else p.mediaUrl)
    ensures HasBody(req.content, req.mediaUrl) ==> HasBody(r.content, r.mediaUrl)
  {
    p.(stamps := Touched(p.stamps, now),
       content := if req.content.Some? then req.content else p.content,
       mediaType := if req.mediaType.Some? then req.mediaType else p.mediaType,
       mediaUrl := if req.mediaUrl.Some? then req.mediaUrl else p.mediaUrl)
  }
}
