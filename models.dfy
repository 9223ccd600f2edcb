/**
 * The forum's record types: categories, posts, comments, user profiles and the
 * Like / Favorite relation rows, with the default values a freshly created
 * record receives and each table's default ordering.
 *
 * Users belong to the authentication system and appear only as `UserId`s.
 * Timestamps are abstract naturals (a larger value is a later instant).
 */
module Models {
  import opened Sorting

  type UserId = nat
  type CategoryId = nat
  type PostId = nat
  type CommentId = nat
  type Timestamp = nat

  datatype Option<T> = None | Some(value: T)

  /** The one error the core raises: a referenced row does not exist (HTTP 404). */
  datatype Error = NotFound

  datatype Result<T> = Ok(value: T) | Err(error: Error)

  datatype Category = Category(
    id: CategoryId,
    name: string,
    description: string,
    created_at: Timestamp)

  /**
   * A post. The like and favourite counters are plain integers here: the
   * source decrements them without a floor, so their non-negativity is a
   * property of the store (see Forum.Store.Valid), not of the type.
   */
  datatype Post = Post(
    id: PostId,
    title: string,
    content: string,
    author: UserId,
    category: CategoryId,
    tags: seq<string>,
    created_at: Timestamp,
    view_count: nat,
    like_count: int,
    favorite_count: int,
    is_pinned: bool,
    is_active: bool,
    is_draft: bool)

  /** A comment; `parent` is the comment it replies to, None for a root comment. */
  datatype Comment = Comment(
    id: CommentId,
    post: PostId,
    author: UserId,
    content: string,
    created_at: Timestamp,
    parent: Option<CommentId>,
    like_count: int,
    is_active: bool)

  /** The profile of one user; the avatar is an opaque reference to a stored image. */
  datatype UserProfile = UserProfile(
    user: UserId,
    avatar: Option<string>,
    bio: string,
    location: string,
    join_date: Timestamp,
    post_count: nat,
    comment_count: nat)

  /** What a Like row points at: exactly one of a post or a comment. */
  datatype Target = OnPost(post: PostId) | OnComment(comment: CommentId)

  /**
   * Relation rows. A table of them is a `set`, so at most one row exists per
   * (user, target): the `unique_together` constraints of Like and Favorite.
   */
  type LikeRow = (UserId, Target)
  type FavoriteRow = (UserId, PostId)

  /** A post as `Post.objects.create` stores it: the given fields plus the model defaults. */
  function NewPost(id: PostId, title: string, content: string, author: UserId,
                   category: CategoryId, now: Timestamp): (p: Post)
    ensures p.id == id && p.title == title && p.content == content
    ensures p.author == author && p.category == category && p.created_at == now
    ensures p.view_count == 0 && p.like_count == 0 && p.favorite_count == 0
    ensures p.is_active && !p.is_pinned && !p.is_draft && p.tags == []
  {
    Post(id, title, content, author, category, [], now, 0, 0, 0, false, true, false)
  }

  /** A comment as `Comment.objects.create` stores it: a root comment with the model defaults. */
  function NewComment(id: CommentId, post: PostId, author: UserId, content: string,
                      now: Timestamp): (c: Comment)
    ensures c.id == id && c.post == post && c.author == author && c.content == content
    ensures c.created_at == now && c.parent == None
    ensures c.like_count == 0 && c.is_active
  {
    Comment(id, post, author, content, now, None, 0, true)
  }

  /** The profile `get_or_create` makes for a user who has none: every field at its default. */
  function NewProfile(user: UserId, now: Timestamp): (p: UserProfile)
    ensures p.user == user && p.avatar == None && p.bio == [] && p.location == []
    ensures p.join_date == now && p.post_count == 0 && p.comment_count == 0
  {
    UserProfile(user, None, [], [], now, 0, 0)
  }

  // ---------------------------------------------------------------------------
  // Default orderings (the `ordering` of each model's Meta class)
  // ---------------------------------------------------------------------------

  /** Lexicographic order on strings, character by character. */
  predicate StringLe(a: string, b: string) {
    if a == [] then true
    else if b == [] then false
    else if a[0] != b[0] then a[0] < b[0]
    else StringLe(a[1..], b[1..])
  }

  lemma {:induction false} StringLeTotal(a: string, b: string)
    ensures StringLe(a, b) || StringLe(b, a)
  {
    if a != [] && b != [] && a[0] == b[0] {
      StringLeTotal(a[1..], b[1..]);
    }
  }

  lemma {:induction false} StringLeTransitive(a: string, b: string, c: string)
    requires StringLe(a, b) && StringLe(b, c)
    ensures StringLe(a, c)
  {
    if a != [] && b != [] && c != [] && a[0] == b[0] && b[0] == c[0] {
      StringLeTransitive(a[1..], b[1..], c[1..]);
    }
  }

  lemma {:induction false} StringLeAntisymmetric(a: string, b: string)
    requires StringLe(a, b) && StringLe(b, a)
    ensures a == b
  {
    if a != [] && b != [] {
      StringLeAntisymmetric(a[1..], b[1..]);
      assert a == [a[0]] + a[1..] && b == [b[0]] + b[1..];
    }
  }

  /** Categories: `ordering = ['name']`. */
  predicate ByName(a: Category, b: Category) {
    StringLe(a.name, b.name)
  }

  /** Posts: `ordering = ['-created_at']`. */
  predicate NewestPostFirst(a: Post, b: Post) {
    a.created_at >= b.created_at
  }

  /** Comments: `ordering = ['created_at']`. */
  predicate OldestCommentFirst(a: Comment, b: Comment) {
    a.created_at <= b.created_at
  }

  lemma ByNameIsTotalPreorder()
    ensures TotalPreorder(ByName)
  {
    forall a: Category, b: Category ensures ByName(a, b) || ByName(b, a) {
      StringLeTotal(a.name, b.name);
    }
    forall a: Category, b: Category, c: Category | ByName(a, b) && ByName(b, c)
      ensures ByName(a, c)
    {
      StringLeTransitive(a.name, b.name, c.name);
    }
  }

  lemma NewestPostFirstIsTotalPreorder()
    ensures TotalPreorder(NewestPostFirst)
  {
  }

  lemma OldestCommentFirstIsTotalPreorder()
    ensures TotalPreorder(OldestCommentFirst)
  {
  }
}
