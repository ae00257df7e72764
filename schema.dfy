/**
 * The database schema of the backend: the rows of the users, followers,
 * posts, comments and reactions tables, the relationships the ORM derives
 * from them, and the constraints the database keeps.
 */
module Schema {
  import opened Wrappers
  import opened Query

  /** An HTTP error raised by a router: status code and detail text. */
  datatype HttpError = HttpError(status: int, detail: string)

  /** What a router returns: a response body, or the HTTP error it raises. */
  datatype Result<T> = Ok(value: T) | Err(error: HttpError)

  const BadRequest := 400
  const NotFound := 404

  datatype PostType = Text | Photo | Drawing

  datatype ThemeType = HelloKitty | Pokemon | Neutral

  /** A row of `users`; `created_at` and `last_login` are not modelled. */
  datatype User = User(
    id: int,
    username: string,
    hashedPassword: string,
    displayName: string,
    theme: ThemeType,
    avatarUrl: Option<string>)

  /** A row of the `followers` association table: `follower` follows `followed`. */
  datatype Edge = Edge(follower: int, followed: int)

  /** A row of `posts`; `updated_at` is not modelled. */
  datatype Post = Post(
    id: int,
    authorId: int,
    postType: PostType,
    content: Option<string>,
    mediaUrl: Option<string>,
    drawingData: Option<string>,
    createdAt: int)

  datatype Comment = Comment(id: int, postId: int, authorId: int, content: string, createdAt: int)

  datatype Reaction = Reaction(id: int, postId: int, userId: int, emoji: string, createdAt: int)

  function UserIds(users: seq<User>): set<int>
  {
    set u | u in users :: u.id
  }

  function PostIds(posts: seq<Post>): set<int>
  {
    set p | p in posts :: p.id
  }

  function HasUserId(id: int): User -> bool
  {
    (u: User) => u.id == id
  }

  function HasPostId(id: int): Post -> bool
  {
    (p: Post) => p.id == id
  }

  /** The user with primary key `id`. */
  function UserById(users: seq<User>, id: int): (u: User)
    requires id in UserIds(users)
    ensures u in users && u.id == id
  {
    var k := FindFirst(users, HasUserId(id));
    assert k.Some? by {
      var w :| w in users && w.id == id;
      var j :| 0 <= j < |users| && users[j] == w;
      assert HasUserId(id)(users[j]);
    }
    users[k.value]
  }

  /** The post with primary key `id`. */
  function PostById(posts: seq<Post>, id: int): (p: Post)
    requires id in PostIds(posts)
    ensures p in posts && p.id == id
  {
    var k := FindFirst(posts, HasPostId(id));
    assert k.Some? by {
      var w :| w in posts && w.id == id;
      var j :| 0 <= j < |posts| && posts[j] == w;
      assert HasPostId(id)(posts[j]);
    }
    posts[k.value]
  }

  /** `User.following`: the ids `u` follows, in association-table order. */
  function Following(follows: seq<Edge>, u: int): (r: seq<int>)
    ensures |r| <= |follows|
    ensures forall x :: x in r <==> Edge(u, x) in follows
  {
    if follows == [] then []
    else (if follows[0].follower == u then [follows[0].followed] else []) + Following(follows[1..], u)
  }

  /** `User.followers`, the backref of `following`: the ids following `u`. */
  function Followers(follows: seq<Edge>, u: int): (r: seq<int>)
    ensures |r| <= |follows|
    ensures forall x :: x in r <==> Edge(x, u) in follows
  {
    if follows == [] then []
    else (if follows[0].followed == u then [follows[0].follower] else []) + Followers(follows[1..], u)
  }

  function OnPost(postId: int): Reaction -> bool
  {
    (r: Reaction) => r.postId == postId
  }

  function CommentOnPost(postId: int): Comment -> bool
  {
    (c: Comment) => c.postId == postId
  }

  /** `Post.reactions`: the reactions on `postId`, in table order. */
  function ReactionsOn(reactions: seq<Reaction>, postId: int): seq<Reaction>
  {
    Filter(reactions, OnPost(postId))
  }

  /** `Post.comments`: the comments on `postId`, in table order. */
  function CommentsOn(comments: seq<Comment>, postId: int): seq<Comment>
  {
    Filter(comments, CommentOnPost(postId))
  }

  predicate UniqueUserIds(users: seq<User>)
  {
    forall i, j :: 0 <= i < j < |users| ==> users[i].id != users[j].id
  }

  predicate UniquePostIds(posts: seq<Post>)
  {
    forall i, j :: 0 <= i < j < |posts| ==> posts[i].id != posts[j].id
  }

  predicate UniqueCommentIds(comments: seq<Comment>)
  {
    forall i, j :: 0 <= i < j < |comments| ==> comments[i].id != comments[j].id
  }

  predicate UniqueReactionIds(reactions: seq<Reaction>)
  {
    forall i, j :: 0 <= i < j < |reactions| ==> reactions[i].id != reactions[j].id
  }

  /** The unique constraint on `users.username`. */
  predicate UniqueUsernames(users: seq<User>)
  {
    forall i, j :: 0 <= i < j < |users| ==> users[i].username != users[j].username
  }

  /** The unique constraint `_post_user_uc`: one reaction per user per post. */
  predicate OneReactionPerUser(reactions: seq<Reaction>)
  {
    forall i, j :: 0 <= i < j < |reactions| ==>
      reactions[i].postId != reactions[j].postId || reactions[i].userId != reactions[j].userId
  }

  /** No user follows itself. */
  predicate NoSelfFollows(follows: seq<Edge>)
  {
    forall e :: e in follows ==> e.follower != e.followed
  }

  /** The database session: one sequence of rows per table. */
  class Db {
    var users: seq<User>
    var follows: seq<Edge>
    var posts: seq<Post>
    var comments: seq<Comment>
    var reactions: seq<Reaction>

    /**
     * The primary keys of users, posts, comments and reactions; the unique
     * usernames; the foreign keys; the reactions unique constraint; and no
     * follow edge twice, which the `followers` table does not enforce but
     * which every handler that writes it keeps.
     */
    ghost predicate Valid()
      reads this
    {
      && UniqueUserIds(users)
      && UniqueUsernames(users)
      && UniquePostIds(posts)
      && UniqueCommentIds(comments)
      && UniqueReactionIds(reactions)
      && (forall e :: e in follows ==> e.follower in UserIds(users) && e.followed in UserIds(users))
      && NoDup(follows)
      && (forall p :: p in posts ==> p.authorId in UserIds(users))
      && (forall c :: c in comments ==> c.postId in PostIds(posts) && c.authorId in UserIds(users))
      && (forall r :: r in reactions ==> r.postId in PostIds(posts) && r.userId in UserIds(users))
      && OneReactionPerUser(reactions)
    }

    /** `Base.metadata.create_all`: every table empty. */
    constructor ()
      ensures Valid()
      ensures users == [] && follows == [] && posts == [] && comments == [] && reactions == []
    {
      users, follows, posts, comments, reactions := [], [], [], [], [];
    }
  }
}
