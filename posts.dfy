/**
 * The posts router (backend/app/routers/posts.py): the feed, a single post,
 * commenting, toggling a reaction and listing a post's comments.
 */
module Posts {
  import opened Wrappers
  import opened Query
  import opened Schema
  import opened Reactions

  /** The `PostResponse` body. */
  datatype PostView = PostView(
    id: int,
    authorId: int,
    authorName: string,
    authorAvatar: Option<string>,
    postType: PostType,
    content: Option<string>,
    mediaUrl: Option<string>,
    createdAt: int,
    commentsCount: nat,
    reactions: seq<EmojiCount>,
    userReaction: Option<string>)

  /** One element of the `get_comments` list. */
  datatype CommentView = CommentView(
    id: int,
    authorName: string,
    authorAvatar: Option<string>,
    content: string,
    createdAt: int)

  const PostNotFound := HttpError(NotFound, "Post not found")

  /** The response for `post` as seen by user `me`. */
  function View(users: seq<User>, comments: seq<Comment>, reactions: seq<Reaction>, post: Post, me: int): PostView
    requires post.authorId in UserIds(users)
  {
    var author := UserById(users, post.authorId);
    var rs := ReactionsOn(reactions, post.id);
    PostView(post.id, post.authorId, author.displayName, author.avatarUrl, post.postType,
             post.content, post.mediaUrl, post.createdAt, |CommentsOn(comments, post.id)|,
             Summary(rs), UserReaction(rs, me))
  }

  /**
   * In a valid database, the `user_reaction` of a post's response is `Some(e)`
   * exactly when the caller's reaction on that post has emoji `e`.
   */
  lemma ViewUserReaction(db: Db, post: Post, me: int, e: string)
    requires db.Valid() && post in db.posts
    ensures View(db.users, db.comments, db.reactions, post, me).userReaction == Some(e) <==>
      exists r :: r in db.reactions && r.postId == post.id && r.userId == me && r.emoji == e
  {
    var rs := ReactionsOn(db.reactions, post.id);
    FilterKeepsOnePerUser(db.reactions, OnPost(post.id));
    UserReactionIsOwnReaction(rs, me, e);
    ReactionOnPost(db.reactions, post.id, me, e);
  }

  /** A row of the post's reactions is a row of the table on that post, and back. */
  lemma ReactionOnPost(reactions: seq<Reaction>, postId: int, me: int, e: string)
    ensures forall i :: 0 <= i < |ReactionsOn(reactions, postId)| ==>
      ReactionsOn(reactions, postId)[i].postId == ReactionsOn(reactions, postId)[0].postId
    ensures (exists i :: 0 <= i < |ReactionsOn(reactions, postId)| &&
               ReactionsOn(reactions, postId)[i].userId == me && ReactionsOn(reactions, postId)[i].emoji == e) <==>
            (exists r :: r in reactions && r.postId == postId && r.userId == me && r.emoji == e)
  {
    var rs := ReactionsOn(reactions, postId);
    if exists r :: r in reactions && r.postId == postId && r.userId == me && r.emoji == e {
      var r :| r in reactions && r.postId == postId && r.userId == me && r.emoji == e;
      var k :| 0 <= k < |reactions| && reactions[k] == r;
      assert OnPost(postId)(reactions[k]);
      var i :| 0 <= i < |rs| && rs[i] == r;
    }
  }

  // ---------------------------------------------------------------------------
  // get_feed

  /** `following_ids`: the authors whose posts `me` sees, itself included. */
  function VisibleAuthors(follows: seq<Edge>, me: int): (ids: set<int>)
    ensures forall a :: a in ids <==> a == me || Edge(me, a) in follows
  {
    (set a | a in Following(follows, me)) + {me}
  }

  function ByAuthorIn(authors: set<int>): Post -> bool
  {
    (p: Post) => p.authorId in authors
  }

  function CreatedAt(): Post -> int
  {
    (p: Post) => p.createdAt
  }

  /** The posts of the feed query: filter by author, newest first, then offset and limit. */
  function FeedPosts(posts: seq<Post>, authors: set<int>, skip: nat, limit: nat): (feed: seq<Post>)
    ensures |feed| <= limit
    ensures forall i :: 0 <= i < |feed| ==> feed[i] in posts && feed[i].authorId in authors
  {
    var selected := Filter(posts, ByAuthorIn(authors));
    SortDescMembers(selected, CreatedAt());
    Window(SortDesc(selected, CreatedAt()), skip, limit)
  }

  /** The feed is ordered newest first. */
  lemma FeedNewestFirst(posts: seq<Post>, authors: set<int>, skip: nat, limit: nat)
    ensures forall i, j :: 0 <= i < j < |FeedPosts(posts, authors, skip, limit)| ==>
      FeedPosts(posts, authors, skip, limit)[i].createdAt >= FeedPosts(posts, authors, skip, limit)[j].createdAt
  {
    var sorted := SortDesc(Filter(posts, ByAuthorIn(authors)), CreatedAt());
    var feed := FeedPosts(posts, authors, skip, limit);
    forall i, j | 0 <= i < j < |feed| ensures feed[i].createdAt >= feed[j].createdAt {
      assert feed[i] == sorted[skip + i] && feed[j] == sorted[skip + j];
    }
  }

  /**
   * The page is what SQL promises for `ORDER BY created_at DESC OFFSET skip
   * LIMIT limit`: the window of some newest-first arrangement of all the
   * visible posts, each as often as in the table.
   */
  lemma FeedIsPage(posts: seq<Post>, authors: set<int>, skip: nat, limit: nat)
    ensures exists s ::
      && SortedDesc(s, CreatedAt())
      && multiset(s) == multiset(Filter(posts, ByAuthorIn(authors)))
      && FeedPosts(posts, authors, skip, limit) == Window(s, skip, limit)
  {
    var s := SortDesc(Filter(posts, ByAuthorIn(authors)), CreatedAt());
    assert FeedPosts(posts, authors, skip, limit) == Window(s, skip, limit);
  }

  /** The first page holds the newest posts: every visible post left out is no newer than the last one shown. */
  lemma FirstPageIsNewest(posts: seq<Post>, authors: set<int>, limit: nat, p: Post)
    requires p in posts && p.authorId in authors
    requires p !in FeedPosts(posts, authors, 0, limit)
    ensures |FeedPosts(posts, authors, 0, limit)| == limit
    ensures limit > 0 ==> p.createdAt <= FeedPosts(posts, authors, 0, limit)[limit - 1].createdAt
  {
    var selected := Filter(posts, ByAuthorIn(authors));
    var sorted := SortDesc(selected, CreatedAt());
    var i :| 0 <= i < |posts| && posts[i] == p;
    assert ByAuthorIn(authors)(posts[i]);
    assert p in multiset(sorted);
    var j :| 0 <= j < |sorted| && sorted[j] == p;
    FirstWindowIsNewest(sorted, CreatedAt(), limit, j);
  }

  /**
   * Without offset and with a limit at least the number of matching posts,
   * the feed holds every post by a visible author, each as often as in the table.
   */
  lemma FeedComplete(posts: seq<Post>, authors: set<int>, limit: nat)
    requires |Filter(posts, ByAuthorIn(authors))| <= limit
    ensures multiset(FeedPosts(posts, authors, 0, limit)) == multiset(Filter(posts, ByAuthorIn(authors)))
    ensures forall p :: p in posts && p.authorId in authors ==> p in FeedPosts(posts, authors, 0, limit)
  {
    var selected := Filter(posts, ByAuthorIn(authors));
    var sorted := SortDesc(selected, CreatedAt());
    SortDescMembers(selected, CreatedAt());
    var feed := FeedPosts(posts, authors, 0, limit);
    assert feed == sorted;
    forall p | p in posts && p.authorId in authors ensures p in feed {
      var i :| 0 <= i < |posts| && posts[i] == p;
      assert ByAuthorIn(authors)(posts[i]);
    }
  }

  /** The responses for `feed`, one per post, in order. */
  function Views(users: seq<User>, comments: seq<Comment>, reactions: seq<Reaction>, feed: seq<Post>, me: int): (r: seq<PostView>)
    requires forall k :: 0 <= k < |feed| ==> feed[k].authorId in UserIds(users)
    ensures |r| == |feed|
    ensures forall k :: 0 <= k < |r| ==> r[k] == View(users, comments, reactions, feed[k], me)
  {
    if feed == [] then []
    else Views(users, comments, reactions, feed[..|feed| - 1], me) + [View(users, comments, reactions, feed[|feed| - 1], me)]
  }

  lemma ViewsStep(users: seq<User>, comments: seq<Comment>, reactions: seq<Reaction>, feed: seq<Post>, i: nat, me: int)
    requires i < |feed|
    requires forall k :: 0 <= k < |feed| ==> feed[k].authorId in UserIds(users)
    ensures Views(users, comments, reactions, feed[..i + 1], me)
         == Views(users, comments, reactions, feed[..i], me) + [View(users, comments, reactions, feed[i], me)]
  {
    assert feed[..i + 1][..i] == feed[..i];
  }

  /** The loop body of `get_feed`: one post's response, its reactions counted by `Summarize`. */
  method BuildView(users: seq<User>, comments: seq<Comment>, reactions: seq<Reaction>, post: Post, me: int) returns (view: PostView)
    requires post.authorId in UserIds(users)
    ensures view == View(users, comments, reactions, post, me)
  {
    var summary, mine := Summarize(ReactionsOn(reactions, post.id), me);
    var author := UserById(users, post.authorId);
    view := PostView(post.id, post.authorId, author.displayName, author.avatarUrl, post.postType,
                     post.content, post.mediaUrl, post.createdAt,
                     |CommentsOn(comments, post.id)|, summary, mine);
  }

  /** The loop of `get_feed` over the selected posts. */
  method FeedViews(users: seq<User>, comments: seq<Comment>, reactions: seq<Reaction>, feed: seq<Post>, me: int) returns (views: seq<PostView>)
    requires forall k :: 0 <= k < |feed| ==> feed[k].authorId in UserIds(users)
    ensures views == Views(users, comments, reactions, feed, me)
  {
    views := [];
    assert feed[..0] == [];
    for i := 0 to |feed|
      invariant views == Views(users, comments, reactions, feed[..i], me)
    {
      var view := BuildView(users, comments, reactions, feed[i], me);
      ViewsStep(users, comments, reactions, feed, i, me);
      views := views + [view];
    }
    assert feed[..|feed|] == feed;
  }

  /**
   * `get_feed`: the visible posts, newest first, after `skip` and at most
   * `limit` of them, each folded into its response by the summary loop.
   */
  method GetFeed(db: Db, me: int, skip: nat, limit: nat) returns (views: seq<PostView>)
    requires db.Valid()
    ensures var feed := FeedPosts(db.posts, VisibleAuthors(db.follows, me), skip, limit);
      && |views| == |feed|
      && forall i :: 0 <= i < |views| ==> views[i] == View(db.users, db.comments, db.reactions, feed[i], me)
  {
    var feed := FeedPosts(db.posts, VisibleAuthors(db.follows, me), skip, limit);
    assert forall k :: 0 <= k < |feed| ==> feed[k].authorId in UserIds(db.users);
    views := FeedViews(db.users, db.comments, db.reactions, feed, me);
  }

  // ---------------------------------------------------------------------------
  // get_post, add_comment, toggle_reaction

  /** `db.query(Post).filter(Post.id == post_id).first()`. */
  method FindPost(db: Db, postId: int) returns (found: Option<Post>)
    requires db.Valid()
    ensures found.None? <==> postId !in PostIds(db.posts)
    ensures found.Some? ==> found.value == PostById(db.posts, postId)
  {
    var k := FindFirst(db.posts, HasPostId(postId));
    if k.None? {
      found := None;
      assert forall p :: p in db.posts ==> p.id != postId by {
        forall p | p in db.posts ensures p.id != postId {
          var j :| 0 <= j < |db.posts| && db.posts[j] == p;
          assert !HasPostId(postId)(db.posts[j]);
        }
      }
    } else {
      found := Some(db.posts[k.value]);
      var q := PostById(db.posts, postId);
      var j :| 0 <= j < |db.posts| && db.posts[j] == q;
      assert j == k.value;
    }
  }

  /** `get_post`: 404 for an unknown id, otherwise the post's response; changes nothing. */
  method GetPost(db: Db, me: int, postId: int) returns (r: Result<PostView>)
    requires db.Valid()
    ensures r.Err? <==> postId !in PostIds(db.posts)
    ensures r.Err? ==> r.error == PostNotFound
    ensures r.Ok? ==> r.value == View(db.users, db.comments, db.reactions, PostById(db.posts, postId), me)
  {
    var found := FindPost(db, postId);
    if found.None? {
      return Err(PostNotFound);
    }
    var view := BuildView(db.users, db.comments, db.reactions, found.value, me);
    r := Ok(view);
  }

  /** `add_comment`: 404 and no change for an unknown post, otherwise one new comment row. */
  method AddComment(db: Db, me: int, postId: int, content: string, id: int, now: int) returns (r: Result<string>)
    requires db.Valid() && me in UserIds(db.users)
    requires forall c :: c in db.comments ==> c.id != id
    modifies db`comments
    ensures db.Valid()
    ensures postId !in PostIds(db.posts) ==> r == Err(PostNotFound) && db.comments == old(db.comments)
    ensures postId in PostIds(db.posts) ==>
      && r == Ok("Comment added successfully")
      && db.comments == old(db.comments) + [Comment(id, postId, me, content, now)]
  {
    var found := FindPost(db, postId);
    if found.None? {
      return Err(PostNotFound);
    }
    ghost var before := db.comments;
    db.comments := db.comments + [Comment(id, postId, me, content, now)];
    assert forall j :: 0 <= j < |before| ==> db.comments[j] == before[j] && before[j] in before;
    r := Ok("Comment added successfully");
  }

  /**
   * `toggle_reaction`: 404 and no change for an unknown post; otherwise the
   * table becomes `Toggled(...)` and the message names the change made.
   */
  method ToggleReaction(db: Db, me: int, postId: int, emoji: string, id: int, now: int) returns (r: Result<string>)
    requires db.Valid() && me in UserIds(db.users)
    requires forall x :: x in db.reactions ==> x.id != id
    modifies db`reactions
    ensures db.Valid()
    ensures postId !in PostIds(db.posts) ==> r == Err(PostNotFound) && db.reactions == old(db.reactions)
    ensures postId in PostIds(db.posts) ==>
      && db.reactions == Toggled(old(db.reactions), postId, me, emoji, id, now)
      && r == Ok(Message(ChangeOf(old(db.reactions), postId, me, emoji)))
  {
    var found := FindPost(db, postId);
    if found.None? {
      return Err(PostNotFound);
    }
    ghost var before := db.reactions;
    ToggleKeepsOneReactionPerUser(before, postId, me, emoji, id, now);
    ToggleKeepsUniqueIds(before, postId, me, emoji, id, now);
    var existing := FindFirst(db.reactions, KeyIs(postId, me));
    var change: Change;
    if existing.Some? {
      var k := existing.value;
      if db.reactions[k].emoji == emoji {
        db.reactions := db.reactions[..k] + db.reactions[k + 1..];
        change := Removed;
      } else {
        db.reactions := db.reactions[k := db.reactions[k].(emoji := emoji)];
        change := Updated;
      }
    } else {
      db.reactions := db.reactions + [Reaction(id, postId, me, emoji, now)];
      change := Added;
    }
    assert db.reactions == Toggled(before, postId, me, emoji, id, now);
    assert forall x :: x in db.reactions ==> x in before || (x.postId == postId && x.userId == me);
    r := Ok(Message(change));
  }

  // ---------------------------------------------------------------------------
  // get_comments

  function CommentCreatedAt(): Comment -> int
  {
    (c: Comment) => c.createdAt
  }

  /** One comment as listed, with its author's name and avatar. */
  function CommentViewOf(users: seq<User>, c: Comment): (v: CommentView)
    requires c.authorId in UserIds(users)
    ensures v.id == c.id && v.content == c.content && v.createdAt == c.createdAt
  {
    var author := UserById(users, c.authorId);
    CommentView(c.id, author.displayName, author.avatarUrl, c.content, c.createdAt)
  }

  function CommentViews(users: seq<User>, cs: seq<Comment>): (r: seq<CommentView>)
    requires forall c :: c in cs ==> c.authorId in UserIds(users)
    ensures |r| == |cs| && forall i :: 0 <= i < |r| ==> r[i] == CommentViewOf(users, cs[i])
  {
    if cs == [] then [] else [CommentViewOf(users, cs[0])] + CommentViews(users, cs[1..])
  }

  /**
   * `filter(Comment.post_id == post_id).order_by(desc(Comment.created_at))`:
   * the comments on the post, each as often as in the table, newest first.
   */
  function SortedComments(comments: seq<Comment>, postId: int): (sorted: seq<Comment>)
    ensures multiset(sorted) == multiset(CommentsOn(comments, postId))
    ensures |sorted| == |CommentsOn(comments, postId)|
    ensures forall c :: c in sorted ==> c in comments && c.postId == postId
    ensures forall c :: c in comments && c.postId == postId ==> c in sorted
    ensures SortedDesc(sorted, CommentCreatedAt())
  {
    var on := CommentsOn(comments, postId);
    var sorted := SortDesc(on, CommentCreatedAt());
    SortDescMembers(on, CommentCreatedAt());
    SortDescElements(on, CommentCreatedAt());
    assert forall c :: c in comments && c.postId == postId ==> c in on by {
      forall c | c in comments && c.postId == postId ensures c in on {
        var i :| 0 <= i < |comments| && comments[i] == c;
        assert CommentOnPost(postId)(comments[i]);
      }
    }
    sorted
  }

  /** Listing comments newest first keeps them newest first. */
  lemma ViewsKeepOrder(users: seq<User>, sorted: seq<Comment>)
    requires forall c :: c in sorted ==> c.authorId in UserIds(users)
    requires SortedDesc(sorted, CommentCreatedAt())
    ensures var r := CommentViews(users, sorted);
      forall i, j :: 0 <= i < j < |r| ==> r[i].createdAt >= r[j].createdAt
  {
    var r := CommentViews(users, sorted);
    forall i, j | 0 <= i < j < |r| ensures r[i].createdAt >= r[j].createdAt {
      assert CommentCreatedAt()(sorted[i]) >= CommentCreatedAt()(sorted[j]);
    }
  }

  /**
   * `get_comments`: the post's comments, newest first. There is no existence
   * check: an unknown post simply has no comments.
   */
  function GetComments(users: seq<User>, comments: seq<Comment>, postId: int): (r: seq<CommentView>)
    requires forall c :: c in comments ==> c.authorId in UserIds(users)
    ensures |r| == |CommentsOn(comments, postId)|
    ensures forall i, j :: 0 <= i < j < |r| ==> r[i].createdAt >= r[j].createdAt
    ensures exists s ::
      && multiset(s) == multiset(CommentsOn(comments, postId))
      && (forall c :: c in s ==> c in comments)
      && SortedDesc(s, CommentCreatedAt())
      && r == CommentViews(users, s)
  {
    var sorted := SortedComments(comments, postId);
    ViewsKeepOrder(users, sorted);
    CommentViews(users, sorted)
  }

  /** Every comment on the post is listed. */
  lemma ListsEveryComment(users: seq<User>, comments: seq<Comment>, postId: int)
    requires forall c :: c in comments ==> c.authorId in UserIds(users)
    ensures forall c :: c in comments && c.postId == postId ==> CommentViewOf(users, c) in GetComments(users, comments, postId)
  {
    var sorted := SortedComments(comments, postId);
    var r := GetComments(users, comments, postId);
    assert r == CommentViews(users, sorted);
    forall c | c in comments && c.postId == postId ensures CommentViewOf(users, c) in r {
      var j :| 0 <= j < |sorted| && sorted[j] == c;
      assert r[j] == CommentViewOf(users, c);
    }
  }

  /** Each listed entry shows a comment on the post. */
  lemma ListsOnlyPostComments(users: seq<User>, comments: seq<Comment>, postId: int)
    requires forall c :: c in comments ==> c.authorId in UserIds(users)
    ensures var r := GetComments(users, comments, postId);
      forall i :: 0 <= i < |r| ==> exists c :: c in comments && c.postId == postId && r[i] == CommentViewOf(users, c)
  {
    var sorted := SortedComments(comments, postId);
    var r := GetComments(users, comments, postId);
    assert r == CommentViews(users, sorted);
    forall i | 0 <= i < |r| ensures exists c :: c in comments && c.postId == postId && r[i] == CommentViewOf(users, c) {
      assert sorted[i] in sorted;
    }
  }

  /** Listing the comments of an unknown post gives an empty list rather than a 404. */
  lemma CommentsOfUnknownPost(db: Db, postId: int)
    requires db.Valid()
    ensures postId !in PostIds(db.posts) ==> GetComments(db.users, db.comments, postId) == []
  {
    var on := CommentsOn(db.comments, postId);
    if on != [] {
      assert on[0] in db.comments;
    }
  }
}
