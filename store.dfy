/** The document store the route handlers read and write: one collection
    per document kind, keyed by id, plus the blacklist collection. `Valid`
    is the referential integrity the handlers keep; route handler files
    prove that each handler preserves it. */
module StoreState {
  import opened Common
  import opened AuthUtils
  import opened TokenModel
  import opened UserModel
  import opened PostModel
  import opened CommentModel
  import opened LikeModel
  import opened Dependencies

  class Store {
    var users: map<Id, User>
    /** The ids of the users collection in scan order (new documents last);
        `find_one` returns the first match in this order. */
    var userOrder: seq<Id>
    var posts: map<Id, Post>
    var comments: map<Id, Comment>
    var likes: map<Id, Like>
    var blacklist: seq<BlacklistRecord>

    constructor ()
      ensures users == map[] && userOrder == [] && posts == map[]
      ensures comments == map[] && likes == map[] && blacklist == []
      ensures Valid()
    {
      users, userOrder, posts := map[], [], map[];
      comments, likes, blacklist := map[], map[], [];
    }

    ghost predicate Valid()
      reads this
    {
      Consistent(users, userOrder, posts, comments, likes)
    }

    /** `id` is what `uuid4()` produces: non-empty and used nowhere yet. */
    ghost predicate Unused(id: Id)
      reads this
    {
      IdUnused(users, userOrder, posts, comments, likes, id)
    }

    /** `get_current_user` against the current contents. */
    function Authenticate(token: Jwt, now: Time): Result<Id>
      reads this
    {
      Guard(users, userOrder, blacklist, token, now)
    }
  }

  ghost predicate IdUnused(users: map<Id, User>, order: seq<Id>, posts: map<Id, Post>,
                           comments: map<Id, Comment>, likes: map<Id, Like>, id: Id)
  {
    && id != ""
    && id !in users && id !in order && id !in posts && id !in comments && id !in likes
    && (forall u :: u in users ==> id !in users[u].posts)
  }

  // ---------------------------------------------------------------- integrity

  /** Every document is stored under its own id. */
  ghost predicate KeysMatch(users: map<Id, User>, posts: map<Id, Post>,
                            comments: map<Id, Comment>, likes: map<Id, Like>)
  {
    && (forall k :: k in users ==> users[k].id == k)
    && (forall k :: k in posts ==> posts[k].id == k)
    && (forall k :: k in comments ==> comments[k].id == k)
    && (forall k :: k in likes ==> likes[k].id == k)
  }

  /** The scan order lists exactly the stored users. */
  ghost predicate OrderCovers(users: map<Id, User>, order: seq<Id>)
  {
    forall k :: k in users <==> k in order
  }

  /** Every post has a stored owner whose post list names it, and a user's
      post list names no other user's post (it may name deleted ones). */
  ghost predicate PostsOwned(users: map<Id, User>, posts: map<Id, Post>)
  {
    && (forall p :: p in posts ==> posts[p].userId in users && p in users[posts[p].userId].posts)
    && (forall u, p :: u in users && p in users[u].posts && p in posts ==> posts[p].userId == u)
  }

  /** Every comment belongs to a stored post whose list names it, and a
      post's list names only its own stored comments. */
  ghost predicate CommentsAttached(posts: map<Id, Post>, comments: map<Id, Comment>)
  {
    && (forall c :: c in comments ==>
          comments[c].postId in posts && c in posts[comments[c].postId].comments)
    && (forall p, c :: p in posts && c in posts[p].comments ==>
          c in comments && comments[c].postId == p)
  }

  /** The same for likes. */
  ghost predicate LikesAttached(posts: map<Id, Post>, likes: map<Id, Like>)
  {
    && (forall l :: l in likes ==> likes[l].postId in posts && l in posts[likes[l].postId].likes)
    && (forall p, l :: p in posts && l in posts[p].likes ==> l in likes && likes[l].postId == p)
  }

  /** At most one like per (user, post). */
  ghost predicate LikesUnique(likes: map<Id, Like>)
  {
    forall a, b ::
      (a in likes && b in likes && likes[a].userId == likes[b].userId &&
       likes[a].postId == likes[b].postId) ==> a == b
  }

  /** Every stored post has a text or a media URL. */
  ghost predicate PostsHaveBody(posts: map<Id, Post>)
  {
    forall p :: p in posts ==> HasBody(posts[p].content, posts[p].mediaUrl)
  }

  ghost predicate Consistent(users: map<Id, User>, order: seq<Id>, posts: map<Id, Post>,
                             comments: map<Id, Comment>, likes: map<Id, Like>)
  {
    && KeysMatch(users, posts, comments, likes)
    && OrderCovers(users, order)
    && PostsOwned(users, posts)
    && CommentsAttached(posts, comments)
    && LikesAttached(posts, likes)
    && LikesUnique(likes)
    && PostsHaveBody(posts)
  }

  // ---------------------------------------------------------------- cascades

  /** `Comment.find(Comment.post_id in dead).delete()`. */
  function WithoutCommentsOf(comments: map<Id, Comment>, dead: set<Id>): (r: map<Id, Comment>)
    ensures forall c :: c in r <==> c in comments && comments[c].postId !in dead
    ensures forall c :: c in r ==> r[c] == comments[c]
  {
    map c | c in comments && comments[c].postId !in dead :: comments[c]
  }

  /** `Like.find(Like.post_id in dead).delete()`. */
  function WithoutLikesOf(likes: map<Id, Like>, dead: set<Id>): (r: map<Id, Like>)
    ensures forall l :: l in r <==> l in likes && likes[l].postId !in dead
    ensures forall l :: l in r ==> r[l] == likes[l]
  {
    map l | l in likes && likes[l].postId !in dead :: likes[l]
  }

  /** Deleting the comments of one more post extends the dead set. */
  lemma WithoutCommentsOfStep(comments: map<Id, Comment>, dead: set<Id>, p: Id)
    ensures WithoutCommentsOf(WithoutCommentsOf(comments, dead), {p})
            == WithoutCommentsOf(comments, dead + {p})
  {
    var lhs := WithoutCommentsOf(WithoutCommentsOf(comments, dead), {p});
    var rhs := WithoutCommentsOf(comments, dead + {p});
    assert lhs.Keys == rhs.Keys;
  }

  lemma WithoutLikesOfStep(likes: map<Id, Like>, dead: set<Id>, p: Id)
    ensures WithoutLikesOf(WithoutLikesOf(likes, dead), {p}) == WithoutLikesOf(likes, dead + {p})
  {
    var lhs := WithoutLikesOf(WithoutLikesOf(likes, dead), {p});
    var rhs := WithoutLikesOf(likes, dead + {p});
    assert lhs.Keys == rhs.Keys;
  }

  // ---------------------------------------------------------------- component frames

  /** Removing posts and, with them, their comments keeps the comments attached. */
  lemma CommentsAfterRemovingPosts(posts: map<Id, Post>, comments: map<Id, Comment>, dead: set<Id>)
    requires CommentsAttached(posts, comments)
    ensures CommentsAttached(posts - dead, WithoutCommentsOf(comments, dead))
  {
  }

  lemma LikesAfterRemovingPosts(posts: map<Id, Post>, likes: map<Id, Like>, dead: set<Id>)
    requires LikesAttached(posts, likes)
    ensures LikesAttached(posts - dead, WithoutLikesOf(likes, dead))
  {
  }

  /** Replacing a post by one with the same comment list keeps the comments attached. */
  lemma CommentsAfterPostEdit(posts: map<Id, Post>, comments: map<Id, Comment>, k: Id, p: Post)
    requires CommentsAttached(posts, comments) && k in posts && p.comments == posts[k].comments
    ensures CommentsAttached(posts[k := p], comments)
  {
    var posts' := posts[k := p];
    forall q, c | q in posts' && c in posts'[q].comments
      ensures c in comments && comments[c].postId == q
    {
      assert c in posts[q].comments;
    }
  }

  lemma LikesAfterPostEdit(posts: map<Id, Post>, likes: map<Id, Like>, k: Id, p: Post)
    requires LikesAttached(posts, likes) && k in posts && p.likes == posts[k].likes
    ensures LikesAttached(posts[k := p], likes)
  {
    var posts' := posts[k := p];
    forall q, l | q in posts' && l in posts'[q].likes
      ensures l in likes && likes[l].postId == q
    {
      assert l in posts[q].likes;
    }
  }

  /** Replacing a post by one with the same owner keeps the posts owned. */
  lemma OwnedAfterPostEdit(users: map<Id, User>, posts: map<Id, Post>, k: Id, p: Post)
    requires PostsOwned(users, posts) && k in posts && p.userId == posts[k].userId
    ensures PostsOwned(users, posts[k := p])
  {
  }

  /** Replacing a post keeps ids, bodies and like uniqueness when its id and body are kept. */
  lemma OthersAfterPostEdit(users: map<Id, User>, posts: map<Id, Post>, comments: map<Id, Comment>,
                            likes: map<Id, Like>, k: Id, p: Post)
    requires KeysMatch(users, posts, comments, likes) && PostsHaveBody(posts)
    requires k in posts && p.id == k && HasBody(p.content, p.mediaUrl)
    ensures KeysMatch(users, posts[k := p], comments, likes) && PostsHaveBody(posts[k := p])
  {
  }

  /** Deleting a comment and its id from its post's list keeps the comments attached. */
  lemma CommentsAfterRemovingComment(posts: map<Id, Post>, comments: map<Id, Comment>, cid: Id)
    requires CommentsAttached(posts, comments) && cid in comments
    ensures var pid := comments[cid].postId;
            CommentsAttached(posts[pid := posts[pid].(comments := Without(posts[pid].comments, cid))],
                             comments - {cid})
  {
    var pid := comments[cid].postId;
    var rest := Without(posts[pid].comments, cid);
    CommentsAfterRemovingCommentInto(posts, comments, cid, rest);
  }

  /** The same with the shortened list given by its members. */
  lemma CommentsAfterRemovingCommentInto(posts: map<Id, Post>, comments: map<Id, Comment>, cid: Id, rest: seq<Id>)
    requires CommentsAttached(posts, comments) && cid in comments
    requires forall y :: y in rest <==> y in posts[comments[cid].postId].comments && y != cid
    ensures var pid := comments[cid].postId;
            CommentsAttached(posts[pid := posts[pid].(comments := rest)], comments - {cid})
  {
    var pid := comments[cid].postId;
    var posts' := posts[pid := posts[pid].(comments := rest)];
    var comments' := comments - {cid};
    forall d | d in comments'
      ensures comments'[d].postId in posts' && d in posts'[comments'[d].postId].comments
    {
      var q := comments[d].postId;
      if q == pid {
        assert d in posts[pid].comments && d != cid;
      } else {
        assert posts'[q] == posts[q];
      }
    }
    forall q, d | q in posts' && d in posts'[q].comments
      ensures d in comments' && comments'[d].postId == q
    {
      if q == pid {
        assert d in posts[pid].comments && d != cid;
      } else {
        assert posts'[q] == posts[q];
      }
    }
  }

  /** Deleting a like and its id from its post's list keeps the likes attached. */
  lemma LikesAfterRemovingLike(posts: map<Id, Post>, likes: map<Id, Like>, lid: Id)
    requires LikesAttached(posts, likes) && lid in likes
    ensures var pid := likes[lid].postId;
            LikesAttached(posts[pid := posts[pid].(likes := Without(posts[pid].likes, lid))],
                             likes - {lid})
  {
    var pid := likes[lid].postId;
    var rest := Without(posts[pid].likes, lid);
    LikesAfterRemovingLikeInto(posts, likes, lid, rest);
  }

  /** The same with the shortened list given by its members. */
  lemma LikesAfterRemovingLikeInto(posts: map<Id, Post>, likes: map<Id, Like>, lid: Id, rest: seq<Id>)
    requires LikesAttached(posts, likes) && lid in likes
    requires forall y :: y in rest <==> y in posts[likes[lid].postId].likes && y != lid
    ensures var pid := likes[lid].postId;
            LikesAttached(posts[pid := posts[pid].(likes := rest)], likes - {lid})
  {
    var pid := likes[lid].postId;
    var posts' := posts[pid := posts[pid].(likes := rest)];
    var likes' := likes - {lid};
    forall m | m in likes'
      ensures likes'[m].postId in posts' && m in posts'[likes'[m].postId].likes
    {
      var q := likes[m].postId;
      if q == pid {
        assert m in posts[pid].likes && m != lid;
      } else {
        assert posts'[q] == posts[q];
      }
    }
    forall q, m | q in posts' && m in posts'[q].likes
      ensures m in likes' && likes'[m].postId == q
    {
      if q == pid {
        assert m in posts[pid].likes && m != lid;
      } else {
        assert posts'[q] == posts[q];
      }
    }
  }

  /** Inserting a post for a stored owner, appended to the owner's list, keeps the posts owned. */
  lemma OwnedAfterInsertPost(users: map<Id, User>, posts: map<Id, Post>, p: Post)
    requires PostsOwned(users, posts) && p.userId in users && p.id !in posts
    requires forall u :: u in users ==> p.id !in users[u].posts
    ensures var owner := users[p.userId];
            PostsOwned(users[p.userId := owner.(posts := owner.posts + [p.id])], posts[p.id := p])
  {
    var owner := users[p.userId];
    var users', posts' := users[p.userId := owner.(posts := owner.posts + [p.id])], posts[p.id := p];
    forall q | q in posts'
      ensures posts'[q].userId in users' && q in users'[posts'[q].userId].posts
    {
    }
    forall u, q | u in users' && q in users'[u].posts && q in posts'
      ensures posts'[q].userId == u
    {
      if q == p.id {
        assert u == p.userId;
      } else {
        assert q in users[u].posts;
      }
    }
  }

  /** A new post with no comments and no likes leaves comments and likes attached. */
  lemma AttachedAfterInsertPost(posts: map<Id, Post>, comments: map<Id, Comment>,
                                likes: map<Id, Like>, p: Post)
    requires CommentsAttached(posts, comments) && LikesAttached(posts, likes)
    requires p.id !in posts && p.comments == [] && p.likes == []
    ensures CommentsAttached(posts[p.id := p], comments) && LikesAttached(posts[p.id := p], likes)
  {
  }

  /** Removing a post, and its id from one user's list, keeps the posts owned. */
  lemma OwnedAfterDeletePost(users: map<Id, User>, posts: map<Id, Post>, me: Id, pid: Id)
    requires PostsOwned(users, posts) && me in users
    ensures var mine := users[me];
            PostsOwned(users[me := mine.(posts := Without(mine.posts, pid))], posts - {pid})
  {
    var mine := users[me];
    var users', posts' := users[me := mine.(posts := Without(mine.posts, pid))], posts - {pid};
    forall q | q in posts'
      ensures posts'[q].userId in users' && q in users'[posts'[q].userId].posts
    {
      var u := posts[q].userId;
      if u == me {
        assert q in mine.posts && q != pid;
      } else {
        assert users'[u] == users[u];
      }
    }
    forall u, q | u in users' && q in users'[u].posts && q in posts'
      ensures posts'[q].userId == u
    {
      assert q in users[u].posts;
    }
  }

  /** Rewriting a user without touching its post list keeps the posts owned. */
  lemma OwnedAfterUserEdit(users: map<Id, User>, posts: map<Id, Post>, k: Id, u: User)
    requires PostsOwned(users, posts) && k in users && u.posts == users[k].posts
    ensures PostsOwned(users[k := u], posts)
  {
    var users' := users[k := u];
    forall p | p in posts
      ensures posts[p].userId in users' && p in users'[posts[p].userId].posts
    {
      if posts[p].userId != k {
        assert users'[posts[p].userId] == users[posts[p].userId];
      }
    }
  }

  /** Removing a user together with every post its list names keeps the
      remaining posts owned. */
  lemma OwnedAfterDeleteUser(users: map<Id, User>, posts: map<Id, Post>, uid: Id)
    requires PostsOwned(users, posts) && uid in users
    ensures PostsOwned(users - {uid}, posts - Elements(users[uid].posts))
  {
    var users', posts' := users - {uid}, posts - Elements(users[uid].posts);
    forall p | p in posts'
      ensures posts'[p].userId in users' && p in users'[posts'[p].userId].posts
    {
      assert posts[p].userId != uid;
    }
  }

  /** A new comment on a stored post, appended to its list, keeps the comments attached. */
  lemma CommentsAfterInsertComment(posts: map<Id, Post>, comments: map<Id, Comment>, c: Comment)
    requires CommentsAttached(posts, comments) && c.id !in comments && c.postId in posts
    ensures var post := posts[c.postId];
            CommentsAttached(posts[c.postId := post.(comments := post.comments + [c.id])],
                             comments[c.id := c])
  {
    var post := posts[c.postId];
    var posts', comments' := posts[c.postId := post.(comments := post.comments + [c.id])],
                             comments[c.id := c];
    forall d | d in comments'
      ensures comments'[d].postId in posts' && d in posts'[comments'[d].postId].comments
    {
      if d != c.id && comments[d].postId != c.postId {
        assert posts'[comments[d].postId] == posts[comments[d].postId];
      }
    }
    forall q, d | q in posts' && d in posts'[q].comments
      ensures d in comments' && comments'[d].postId == q
    {
      if d != c.id {
        assert d in posts[q].comments;
      }
    }
  }

  /** A new like on a stored post, appended to its list, keeps the likes attached. */
  lemma LikesAfterInsertLike(posts: map<Id, Post>, likes: map<Id, Like>, l: Like)
    requires LikesAttached(posts, likes) && l.id !in likes && l.postId in posts
    ensures var post := posts[l.postId];
            LikesAttached(posts[l.postId := post.(likes := post.likes + [l.id])], likes[l.id := l])
  {
    var post := posts[l.postId];
    var posts', likes' := posts[l.postId := post.(likes := post.likes + [l.id])], likes[l.id := l];
    forall m | m in likes'
      ensures likes'[m].postId in posts' && m in posts'[likes'[m].postId].likes
    {
      if m != l.id && likes[m].postId != l.postId {
        assert posts'[likes[m].postId] == posts[likes[m].postId];
      }
    }
    forall q, m | q in posts' && m in posts'[q].likes
      ensures m in likes' && likes'[m].postId == q
    {
      if m != l.id {
        assert m in posts[q].likes;
      }
    }
  }

  /** A like for a pair not yet liked keeps at most one like per (user, post). */
  lemma UniqueAfterInsertLike(likes: map<Id, Like>, l: Like)
    requires LikesUnique(likes) && l.id !in likes && !AlreadyLiked(likes, l.userId, l.postId)
    ensures LikesUnique(likes[l.id := l])
  {
  }

  // ---------------------------------------------------------------- preservation

  /** Registering a user with an unused id and no posts keeps the store consistent. */
  lemma InsertUserKeepsConsistent(users: map<Id, User>, order: seq<Id>, posts: map<Id, Post>,
                                  comments: map<Id, Comment>, likes: map<Id, Like>, u: User)
    requires Consistent(users, order, posts, comments, likes)
    requires IdUnused(users, order, posts, comments, likes, u.id) && u.posts == []
    ensures Consistent(users[u.id := u], order + [u.id], posts, comments, likes)
  {
  }

  /** Rewriting a user's profile or follow lists (not its id or post list)
      keeps the store consistent. */
  lemma EditUserKeepsConsistent(users: map<Id, User>, order: seq<Id>, posts: map<Id, Post>,
                                comments: map<Id, Comment>, likes: map<Id, Like>, k: Id, u: User)
    requires Consistent(users, order, posts, comments, likes)
    requires k in users && u.id == users[k].id && u.posts == users[k].posts
    ensures Consistent(users[k := u], order, posts, comments, likes)
  {
    OwnedAfterUserEdit(users, posts, k, u);
  }

  /** `delete_user`'s cascade: the user, every post its list names, and
      every comment and like of those posts go; the rest stays consistent. */
  lemma DeleteUserKeepsConsistent(users: map<Id, User>, order: seq<Id>, posts: map<Id, Post>,
                                  comments: map<Id, Comment>, likes: map<Id, Like>, uid: Id)
    requires Consistent(users, order, posts, comments, likes) && uid in users
    ensures var dead := Elements(users[uid].posts);
            Consistent(users - {uid}, Without(order, uid), posts - dead,
                       WithoutCommentsOf(comments, dead), WithoutLikesOf(likes, dead))
  {
    var dead := Elements(users[uid].posts);
    OwnedAfterDeleteUser(users, posts, uid);
    CommentsAfterRemovingPosts(posts, comments, dead);
    LikesAfterRemovingPosts(posts, likes, dead);
  }

  /** Inserting a post with an unused id for a stored owner, appended to the
      owner's list, keeps the store consistent. */
  lemma InsertPostKeepsConsistent(users: map<Id, User>, order: seq<Id>, posts: map<Id, Post>,
                                  comments: map<Id, Comment>, likes: map<Id, Like>, p: Post)
    requires Consistent(users, order, posts, comments, likes)
    requires IdUnused(users, order, posts, comments, likes, p.id) && p.userId in users
    requires p.comments == [] && p.likes == [] && HasBody(p.content, p.mediaUrl)
    ensures var owner := users[p.userId];
            Consistent(users[p.userId := owner.(posts := owner.posts + [p.id])], order,
                       posts[p.id := p], comments, likes)
  {
    var owner := users[p.userId];
    var users', posts' := users[p.userId := owner.(posts := owner.posts + [p.id])], posts[p.id := p];
    OwnedAfterInsertPost(users, posts, p);
    AttachedAfterInsertPost(posts, comments, likes, p);
    assert KeysMatch(users', posts', comments, likes);
    assert OrderCovers(users', order);
  }

  /** Rewriting a post's text and media (not its id, owner or lists) keeps
      the store consistent as long as it still has a body. */
  lemma EditPostKeepsConsistent(users: map<Id, User>, order: seq<Id>, posts: map<Id, Post>,
                                comments: map<Id, Comment>, likes: map<Id, Like>, k: Id, p: Post)
    requires Consistent(users, order, posts, comments, likes) && k in posts
    requires p.id == posts[k].id && p.userId == posts[k].userId
    requires p.comments == posts[k].comments && p.likes == posts[k].likes
    requires HasBody(p.content, p.mediaUrl)
    ensures Consistent(users, order, posts[k := p], comments, likes)
  {
    OwnedAfterPostEdit(users, posts, k, p);
    CommentsAfterPostEdit(posts, comments, k, p);
    LikesAfterPostEdit(posts, likes, k, p);
    OthersAfterPostEdit(users, posts, comments, likes, k, p);
  }

  /** `delete_post_by_id`'s cascade as run by `me`: the post's likes and
      comments, the post, and its id in `me`'s list go. */
  lemma DeletePostKeepsConsistent(users: map<Id, User>, order: seq<Id>, posts: map<Id, Post>,
                                  comments: map<Id, Comment>, likes: map<Id, Like>,
                                  me: Id, pid: Id)
    requires Consistent(users, order, posts, comments, likes) && me in users && pid in posts
    ensures var mine := users[me];
            Consistent(users[me := mine.(posts := Without(mine.posts, pid))], order,
                       posts - {pid}, WithoutCommentsOf(comments, {pid}), WithoutLikesOf(likes, {pid}))
  {
    OwnedAfterDeletePost(users, posts, me, pid);
    CommentsAfterRemovingPosts(posts, comments, {pid});
    LikesAfterRemovingPosts(posts, likes, {pid});
  }

  /** Inserting a comment with a fresh id on a stored post, appended to the
      post's list, keeps the store consistent. */
  lemma InsertCommentKeepsConsistent(users: map<Id, User>, order: seq<Id>, posts: map<Id, Post>,
                                     comments: map<Id, Comment>, likes: map<Id, Like>, c: Comment)
    requires Consistent(users, order, posts, comments, likes)
    requires c.id !in comments && c.postId in posts
    ensures var post := posts[c.postId];
            Consistent(users, order, posts[c.postId := post.(comments := post.comments + [c.id])],
                       comments[c.id := c], likes)
  {
    var post := posts[c.postId];
    var post' := post.(comments := post.comments + [c.id]);
    OwnedAfterPostEdit(users, posts, c.postId, post');
    LikesAfterPostEdit(posts, likes, c.postId, post');
    OthersAfterPostEdit(users, posts, comments, likes, c.postId, post');
    CommentsAfterInsertComment(posts, comments, c);
  }

  /** Rewriting a comment's text keeps the store consistent. */
  lemma EditCommentKeepsConsistent(users: map<Id, User>, order: seq<Id>, posts: map<Id, Post>,
                                   comments: map<Id, Comment>, likes: map<Id, Like>, k: Id, c: Comment)
    requires Consistent(users, order, posts, comments, likes) && k in comments
    requires c.id == comments[k].id && c.postId == comments[k].postId
    ensures Consistent(users, order, posts, comments[k := c], likes)
  {
  }

  /** Deleting a comment and its id from its post's list keeps the store consistent. */
  lemma DeleteCommentKeepsConsistent(users: map<Id, User>, order: seq<Id>, posts: map<Id, Post>,
                                     comments: map<Id, Comment>, likes: map<Id, Like>, cid: Id)
    requires Consistent(users, order, posts, comments, likes) && cid in comments
    ensures var pid := comments[cid].postId;
            Consistent(users, order, posts[pid := posts[pid].(comments := Without(posts[pid].comments, cid))],
                       comments - {cid}, likes)
  {
    var pid := comments[cid].postId;
    var post' := posts[pid].(comments := Without(posts[pid].comments, cid));
    OwnedAfterPostEdit(users, posts, pid, post');
    LikesAfterPostEdit(posts, likes, pid, post');
    OthersAfterPostEdit(users, posts, comments, likes, pid, post');
    CommentsAfterRemovingComment(posts, comments, cid);
  }

  /** Inserting a like with a fresh id on a stored post, for a pair not yet
      liked, appended to the post's list, keeps the store consistent — in
      particular at most one like per (user, post). */
  lemma InsertLikeKeepsConsistent(users: map<Id, User>, order: seq<Id>, posts: map<Id, Post>,
                                  comments: map<Id, Comment>, likes: map<Id, Like>, l: Like)
    requires Consistent(users, order, posts, comments, likes)
    requires l.id !in likes && l.postId in posts && !AlreadyLiked(likes, l.userId, l.postId)
    ensures var post := posts[l.postId];
            Consistent(users, order, posts[l.postId := post.(likes := post.likes + [l.id])],
                       comments, likes[l.id := l])
  {
    var post := posts[l.postId];
    var post' := post.(likes := post.likes + [l.id]);
    OwnedAfterPostEdit(users, posts, l.postId, post');
    CommentsAfterPostEdit(posts, comments, l.postId, post');
    OthersAfterPostEdit(users, posts, comments, likes, l.postId, post');
    LikesAfterInsertLike(posts, likes, l);
    UniqueAfterInsertLike(likes, l);
  }

  /** Deleting a like and its id from its post's list keeps the store consistent. */
  lemma DeleteLikeKeepsConsistent(users: map<Id, User>, order: seq<Id>, posts: map<Id, Post>,
                                  comments: map<Id, Comment>, likes: map<Id, Like>, lid: Id)
    requires Consistent(users, order, posts, comments, likes) && lid in likes
    ensures var pid := likes[lid].postId;
            Consistent(users, order, posts[pid := posts[pid].(likes := Without(posts[pid].likes, lid))],
                       comments, likes - {lid})
  {
    var pid := likes[lid].postId;
    var post' := posts[pid].(likes := Without(posts[pid].likes, lid));
    OwnedAfterPostEdit(users, posts, pid, post');
    CommentsAfterPostEdit(posts, comments, pid, post');
    OthersAfterPostEdit(users, posts, comments, likes, pid, post');
    LikesAfterRemovingLike(posts, likes, lid);
  }
}
