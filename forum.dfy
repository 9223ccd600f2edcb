/**
 * The forum's stored state and the views that change it.
 *
 * `Store` holds the tables: categories, posts and comments as sequences
 * indexed by id (ids are assigned in creation order and the core never
 * removes a row; deletion only clears `is_active`), profiles keyed by user,
 * the authentication system's username table, and the Like and Favorite
 * relation tables. Each view is a method; a request's form fields arrive as
 * parameters (an absent or empty field is the empty string or None), the
 * current time as `now`, and the HTTP verb as `verb`.
 */
module Forum {
  import opened Models
  import opened Engagement
  import Listing

  datatype Verb = GET | POST

  /** The `(liked, like_count)` / `(favorited, favorite_count)` pair a toggle reports. */
  datatype Engaged = Engaged(engaged: bool, count: int)

  datatype PostDetailPage = PostDetailPage(post: Post, comments: seq<Comment>)

  datatype ProfilePage = ProfilePage(user: UserId, profile: UserProfile, posts: seq<Post>, comments: seq<Comment>)

  /** The profile table after `get_or_create` for `user`. */
  function WithProfile(profiles: map<UserId, UserProfile>, user: UserId, now: Timestamp): (m: map<UserId, UserProfile>)
    ensures user in m && m.Keys == profiles.Keys + {user}
    ensures user in profiles ==> m == profiles
    ensures user !in profiles ==> m[user] == NewProfile(user, now)
    ensures forall u :: u in profiles ==> u in m && m[u] == profiles[u]
  {
    if user in profiles then profiles else profiles[user := NewProfile(user, now)]
  }

  /** `get_or_create` on profiles is idempotent: a second call changes nothing. */
  lemma WithProfileIdempotent(profiles: map<UserId, UserProfile>, user: UserId, now: Timestamp, later: Timestamp)
    ensures WithProfile(WithProfile(profiles, user, now), user, later) == WithProfile(profiles, user, now)
  {
  }

  class Store {
    var categories: seq<Category>
    var posts: seq<Post>
    var comments: seq<Comment>
    var profiles: map<UserId, UserProfile>
    var accounts: map<string, UserId>
    var likes: set<LikeRow>
    var favorites: set<FavoriteRow>

    /** Post `id` exists and is active (`get_object_or_404(Post, id=id, is_active=True)`). */
    predicate LivePost(id: PostId)
      reads this
    {
      id < |posts| && posts[id].is_active
    }

    /** Comment `id` exists and is active. */
    predicate LiveComment(id: CommentId)
      reads this
    {
      id < |comments| && comments[id].is_active
    }

    /** Post `id` exists and was written by `user` (`get_object_or_404(Post, id=id, author=user)`). */
    predicate OwnsPost(user: UserId, id: PostId)
      reads this
    {
      id < |posts| && posts[id].author == user
    }

    /** Comment `id` exists and was written by `user`. */
    predicate OwnsComment(user: UserId, id: CommentId)
      reads this
    {
      id < |comments| && comments[id].author == user
    }

    ghost predicate TargetExists(t: Target)
      reads this
    {
      match t
      case OnPost(p) => p < |posts|
      case OnComment(c) => c < |comments|
    }

    /** Post `i`'s id, category and counters agree with the rest of the store. */
    ghost predicate PostConsistent(i: nat)
      reads this`posts, this`categories, this`likes, this`favorites
      requires i < |posts|
    {
      && posts[i].id == i
      && posts[i].category < |categories|
      && posts[i].like_count == |RowsFor(likes, OnPost(i))|
      && posts[i].favorite_count == |RowsFor(favorites, i)|
    }

    /** Comment `i`'s id, post, parent and counter agree with the rest of the store. */
    ghost predicate CommentConsistent(i: nat)
      reads this`comments, this`posts, this`likes
      requires i < |comments|
    {
      && comments[i].id == i
      && comments[i].post < |posts|
      && (comments[i].parent.Some? ==> comments[i].parent.value < |comments|)
      && comments[i].like_count == |RowsFor(likes, OnComment(i))|
    }

    /**
     * The store invariant: ids match positions, references resolve, each
     * profile belongs to its key, and every like / favourite counter equals
     * the number of relation rows pointing at its target.
     */
    ghost predicate Valid()
      reads this
    {
      && (forall i :: 0 <= i < |categories| ==> categories[i].id == i)
      && (forall i :: 0 <= i < |posts| ==> PostConsistent(i))
      && (forall i :: 0 <= i < |comments| ==> CommentConsistent(i))
      && (forall r :: r in likes ==> TargetExists(r.1))
      && (forall r :: r in favorites ==> r.1 < |posts|)
      && (forall u :: u in profiles ==> profiles[u].user == u)
    }

    /** A store with the given categories and user accounts and nothing else. */
    constructor (categories: seq<Category>, accounts: map<string, UserId>)
      requires forall i :: 0 <= i < |categories| ==> categories[i].id == i
      ensures Valid()
      ensures this.categories == categories && this.accounts == accounts
      ensures posts == [] && comments == [] && profiles == map[]
      ensures likes == {} && favorites == {}
    {
      this.categories := categories;
      this.accounts := accounts;
      posts := [];
      comments := [];
      profiles := map[];
      likes := {};
      favorites := {};
    }

    /** No like or favourite counter is ever negative, although the decrements are unclamped. */
    lemma CountersNonNegative()
      requires Valid()
      ensures forall i :: 0 <= i < |posts| ==> posts[i].like_count >= 0 && posts[i].favorite_count >= 0
      ensures forall i :: 0 <= i < |comments| ==> comments[i].like_count >= 0
    {
      forall i | 0 <= i < |posts| ensures posts[i].like_count >= 0 && posts[i].favorite_count >= 0 {
        assert PostConsistent(i);
      }
      forall i | 0 <= i < |comments| ensures comments[i].like_count >= 0 {
        assert CommentConsistent(i);
      }
    }

    // -------------------------------------------------------------------------
    // Saving an existing row
    // -------------------------------------------------------------------------

    /** `post.save()` on an existing row, keeping its id and counters. */
    method SavePost(post: Post)
      requires Valid()
      requires post.id < |posts| && post.category < |categories|
      requires post.like_count == posts[post.id].like_count
      requires post.favorite_count == posts[post.id].favorite_count
      modifies this`posts
      ensures Valid()
      ensures posts == old(posts)[post.id := post]
    {
      posts := posts[post.id := post];
      assert forall i :: 0 <= i < |posts| ==> PostConsistent(i) by {
        forall i | 0 <= i < |posts| ensures PostConsistent(i) {
          assert old(PostConsistent(i));
        }
      }
      assert forall i :: 0 <= i < |comments| ==> CommentConsistent(i) by {
        forall i | 0 <= i < |comments| ensures CommentConsistent(i) {
          assert old(CommentConsistent(i));
        }
      }
    }

    /** `comment.save()` on an existing row, keeping its id, post, parent and counter. */
    method SaveComment(comment: Comment)
      requires Valid()
      requires comment.id < |comments|
      requires comment.post == comments[comment.id].post && comment.parent == comments[comment.id].parent
      requires comment.like_count == comments[comment.id].like_count
      modifies this`comments
      ensures Valid()
      ensures comments == old(comments)[comment.id := comment]
    {
      comments := comments[comment.id := comment];
      assert forall i :: 0 <= i < |comments| ==> CommentConsistent(i) by {
        forall i | 0 <= i < |comments| ensures CommentConsistent(i) {
          assert old(CommentConsistent(i));
        }
      }
    }

    // -------------------------------------------------------------------------
    // Toggles
    // -------------------------------------------------------------------------

    /** `like_post`: toggle `user`'s like of an active post and move its like counter with it. */
    method LikePost(user: UserId, id: PostId) returns (r: Result<Engaged>)
      requires Valid()
      modifies this
      ensures Valid()
      ensures categories == old(categories) && comments == old(comments) && profiles == old(profiles)
      ensures accounts == old(accounts) && favorites == old(favorites)
      ensures !old(LivePost(id)) ==> r == Err(NotFound) && posts == old(posts) && likes == old(likes)
      ensures old(LivePost(id)) ==>
                var t := Toggle(old(likes), user, OnPost(id));
                && likes == t.rows
                && posts == old(posts)[id := old(posts[id]).(like_count := Step(old(posts[id].like_count), t.engaged))]
                && r == Ok(Engaged(t.engaged, posts[id].like_count))
    {
      if !LivePost(id) {
        return Err(NotFound);
      }
      var row := (user, OnPost(id));
      var post := posts[id];
      var created := row !in likes;
      likes := likes + {row};
      var liked;
      if !created {
        likes := likes - {row};
        post := post.(like_count := post.like_count - 1);
        liked := false;
      } else {
        post := post.(like_count := post.like_count + 1);
        liked := true;
      }
      posts := posts[id := post];
      r := Ok(Engaged(liked, post.like_count));

      assert likes == Toggle(old(likes), user, OnPost(id)).rows;
      assert old(PostConsistent(id));
      ToggleKeepsCount(old(likes), old(posts[id].like_count), user, OnPost(id));
      ToggleLeavesOthers(old(likes), user, OnPost(id));
      assert forall i :: 0 <= i < |posts| ==> PostConsistent(i) by {
        forall i | 0 <= i < |posts| ensures PostConsistent(i) {
          assert old(PostConsistent(i));
        }
      }
      assert forall i :: 0 <= i < |comments| ==> CommentConsistent(i) by {
        forall i | 0 <= i < |comments| ensures CommentConsistent(i) {
          assert old(CommentConsistent(i));
        }
      }
    }

    /**
     * `like_comment`: toggle `user`'s like of an active comment. Only the
     * comment's own flag is checked, not whether its post is still active.
     */
    method LikeComment(user: UserId, id: CommentId) returns (r: Result<Engaged>)
      requires Valid()
      modifies this
      ensures Valid()
      ensures categories == old(categories) && posts == old(posts) && profiles == old(profiles)
      ensures accounts == old(accounts) && favorites == old(favorites)
      ensures !old(LiveComment(id)) ==> r == Err(NotFound) && comments == old(comments) && likes == old(likes)
      ensures old(LiveComment(id)) ==>
                var t := Toggle(old(likes), user, OnComment(id));
                && likes == t.rows
                && comments == old(comments)[id := old(comments[id]).(like_count := Step(old(comments[id].like_count), t.engaged))]
                && r == Ok(Engaged(t.engaged, comments[id].like_count))
    {
      if !LiveComment(id) {
        return Err(NotFound);
      }
      var row := (user, OnComment(id));
      var comment := comments[id];
      var created := row !in likes;
      likes := likes + {row};
      var liked;
      if !created {
        likes := likes - {row};
        comment := comment.(like_count := comment.like_count - 1);
        liked := false;
      } else {
        comment := comment.(like_count := comment.like_count + 1);
        liked := true;
      }
      comments := comments[id := comment];
      r := Ok(Engaged(liked, comment.like_count));

      assert likes == Toggle(old(likes), user, OnComment(id)).rows;
      assert old(CommentConsistent(id));
      ToggleKeepsCount(old(likes), old(comments[id].like_count), user, OnComment(id));
      ToggleLeavesOthers(old(likes), user, OnComment(id));
      assert forall i :: 0 <= i < |posts| ==> PostConsistent(i) by {
        forall i | 0 <= i < |posts| ensures PostConsistent(i) {
          assert old(PostConsistent(i));
        }
      }
      assert forall i :: 0 <= i < |comments| ==> CommentConsistent(i) by {
        forall i | 0 <= i < |comments| ensures CommentConsistent(i) {
          assert old(CommentConsistent(i));
        }
      }
    }

    /** `favorite_post`: toggle `user`'s favourite of an active post and move its favourite counter. */
    method FavoritePost(user: UserId, id: PostId) returns (r: Result<Engaged>)
      requires Valid()
      modifies this
      ensures Valid()
      ensures categories == old(categories) && comments == old(comments) && profiles == old(profiles)
      ensures accounts == old(accounts) && likes == old(likes)
      ensures !old(LivePost(id)) ==> r == Err(NotFound) && posts == old(posts) && favorites == old(favorites)
      ensures old(LivePost(id)) ==>
                var t := Toggle(old(favorites), user, id);
                && favorites == t.rows
                && posts == old(posts)[id := old(posts[id]).(favorite_count := Step(old(posts[id].favorite_count), t.engaged))]
                && r == Ok(Engaged(t.engaged, posts[id].favorite_count))
    {
      if !LivePost(id) {
        return Err(NotFound);
      }
      var row := (user, id);
      var post := posts[id];
      var created := row !in favorites;
      favorites := favorites + {row};
      var favorited;
      if !created {
        favorites := favorites - {row};
        post := post.(favorite_count := post.favorite_count - 1);
        favorited := false;
      } else {
        post := post.(favorite_count := post.favorite_count + 1);
        favorited := true;
      }
      posts := posts[id := post];
      r := Ok(Engaged(favorited, post.favorite_count));

      assert favorites == Toggle(old(favorites), user, id).rows;
      assert old(PostConsistent(id));
      ToggleKeepsCount(old(favorites), old(posts[id].favorite_count), user, id);
      ToggleLeavesOthers(old(favorites), user, id);
      assert forall i :: 0 <= i < |posts| ==> PostConsistent(i) by {
        forall i | 0 <= i < |posts| ensures PostConsistent(i) {
          assert old(PostConsistent(i));
        }
      }
      assert forall i :: 0 <= i < |comments| ==> CommentConsistent(i) by {
        forall i | 0 <= i < |comments| ensures CommentConsistent(i) {
          assert old(CommentConsistent(i));
        }
      }
    }

    // -------------------------------------------------------------------------
    // Reading a post
    // -------------------------------------------------------------------------

    /** The view counter step of `post_detail`: an active post is read once more. */
    method CountView(id: PostId) returns (r: Result<Post>)
      requires Valid()
      modifies this`posts
      ensures Valid()
      ensures !old(LivePost(id)) ==> r == Err(NotFound) && posts == old(posts)
      ensures old(LivePost(id)) ==>
                && posts == old(posts)[id := old(posts[id]).(view_count := old(posts[id].view_count) + 1)]
                && r == Ok(posts[id])
    {
      if !LivePost(id) {
        return Err(NotFound);
      }
      var post := posts[id];
      assert PostConsistent(id);
      post := post.(view_count := post.view_count + 1);
      SavePost(post);
      r := Ok(post);
    }

    /**
     * `post_detail`: an active post and its active comments, oldest first.
     * Every call counts one more view; nothing else changes.
     */
    method PostDetail(id: PostId) returns (r: Result<PostDetailPage>)
      requires Valid()
      modifies this`posts
      ensures Valid()
      ensures !old(LivePost(id)) ==> r == Err(NotFound) && posts == old(posts)
      ensures old(LivePost(id)) ==>
                && posts == old(posts)[id := old(posts[id]).(view_count := old(posts[id].view_count) + 1)]
                && r == Ok(PostDetailPage(posts[id], Listing.Thread(comments, id)))
    {
      var post := CountView(id);
      if post.Err? {
        return Err(NotFound);
      }
      r := Ok(PostDetailPage(post.value, Listing.Thread(comments, id)));
    }

    // -------------------------------------------------------------------------
    // Posts
    // -------------------------------------------------------------------------

    /**
     * `create_post`: on a POST with title, content and category all present,
     * store a new post by `user` (404 if the category does not exist);
     * otherwise only the form is shown and nothing is written.
     */
    method CreatePost(user: UserId, verb: Verb, title: string, content: string,
                      category: Option<CategoryId>, now: Timestamp) returns (r: Result<Option<PostId>>)
      requires Valid()
      modifies this
      ensures Valid()
      ensures categories == old(categories) && comments == old(comments) && profiles == old(profiles)
      ensures accounts == old(accounts) && likes == old(likes) && favorites == old(favorites)
      ensures verb == GET || title == [] || content == [] || category.None? ==>
                r == Ok(None) && posts == old(posts)
      ensures verb == POST && title != [] && content != [] && category.Some? ==>
                if category.value < |categories| then
                  && r == Ok(Some(|old(posts)|))
                  && posts == old(posts) + [NewPost(|old(posts)|, title, content, user, category.value, now)]
                else
                  r == Err(NotFound) && posts == old(posts)
    {
      if verb == POST && title != [] && content != [] && category.Some? {
        if category.value >= |categories| {
          return Err(NotFound);
        }
        var id := |posts|;
        assert RowsFor(likes, OnPost(id)) == {} by {
          forall row | row in likes ensures row.1 != OnPost(id) {
            assert TargetExists(row.1);
          }
        }
        assert RowsFor(favorites, id) == {};
        posts := posts + [NewPost(id, title, content, user, category.value, now)];
        assert PostConsistent(id);
        assert forall i :: 0 <= i < |posts| ==> PostConsistent(i) by {
          forall i | 0 <= i < |posts| ensures PostConsistent(i) {
            if i < id { assert old(PostConsistent(i)); }
          }
        }
        assert forall i :: 0 <= i < |comments| ==> CommentConsistent(i) by {
          forall i | 0 <= i < |comments| ensures CommentConsistent(i) {
            assert old(CommentConsistent(i));
          }
        }
        return Ok(Some(id));
      }
      return Ok(None);
    }

    /**
     * `edit_post`: only the author reaches the post (404 for anyone else,
     * active or not); a complete POST overwrites title, content and category
     * and nothing else.
     */
    method EditPost(user: UserId, id: PostId, verb: Verb, title: string, content: string,
                    category: Option<CategoryId>) returns (r: Result<Option<PostId>>)
      requires Valid()
      modifies this
      ensures Valid()
      ensures categories == old(categories) && comments == old(comments) && profiles == old(profiles)
      ensures accounts == old(accounts) && likes == old(likes) && favorites == old(favorites)
      ensures !old(OwnsPost(user, id)) ==> r == Err(NotFound) && posts == old(posts)
      ensures old(OwnsPost(user, id)) && (verb == GET || title == [] || content == [] || category.None?) ==>
                r == Ok(None) && posts == old(posts)
      ensures old(OwnsPost(user, id)) && verb == POST && title != [] && content != [] && category.Some? ==>
                if category.value < |categories| then
                  && r == Ok(Some(id))
                  && posts == old(posts)[id := old(posts[id]).(title := title, content := content, category := category.value)]
                else
                  r == Err(NotFound) && posts == old(posts)
    {
      if !OwnsPost(user, id) {
        return Err(NotFound);
      }
      if verb == POST && title != [] && content != [] && category.Some? {
        if category.value >= |categories| {
          return Err(NotFound);
        }
        var post := posts[id];
        assert PostConsistent(id);
        post := post.(title := title, content := content, category := category.value);
        SavePost(post);
        return Ok(Some(id));
      }
      return Ok(None);
    }

    /**
     * `delete_post`: only the author reaches the post; a POST soft-deletes it
     * (clears `is_active` and nothing else) and reports true, a GET only shows
     * the confirmation page. Deleting a deleted post changes nothing.
     */
    method DeletePost(user: UserId, id: PostId, verb: Verb) returns (r: Result<bool>)
      requires Valid()
      modifies this
      ensures Valid()
      ensures categories == old(categories) && comments == old(comments) && profiles == old(profiles)
      ensures accounts == old(accounts) && likes == old(likes) && favorites == old(favorites)
      ensures !old(OwnsPost(user, id)) ==> r == Err(NotFound) && posts == old(posts)
      ensures old(OwnsPost(user, id)) && verb == GET ==> r == Ok(false) && posts == old(posts)
      ensures old(OwnsPost(user, id)) && verb == POST ==>
                && r == Ok(true)
                && posts == old(posts)[id := old(posts[id]).(is_active := false)]
                && (!old(posts[id].is_active) ==> posts == old(posts))
    {
      if !OwnsPost(user, id) {
        return Err(NotFound);
      }
      if verb == POST {
        var post := posts[id];
        assert PostConsistent(id);
        post := post.(is_active := false);
        SavePost(post);
        return Ok(true);
      }
      return Ok(false);
    }

    // -------------------------------------------------------------------------
    // Comments
    // -------------------------------------------------------------------------

    /**
     * `create_comment` on an active post. With content, the comment is stored
     * first as a root comment; a given `parent` is looked up afterwards among
     * all comments (active or not, of any post, the new one included) and, if
     * it exists, becomes the parent; if it does not, the result is 404 but the
     * new root comment stays stored. Without content nothing is written.
     */
    method CreateComment(user: UserId, postId: PostId, verb: Verb, content: string,
                         parent: Option<CommentId>, now: Timestamp) returns (r: Result<Option<CommentId>>)
      requires Valid()
      modifies this
      ensures Valid()
      ensures categories == old(categories) && posts == old(posts) && profiles == old(profiles)
      ensures accounts == old(accounts) && likes == old(likes) && favorites == old(favorites)
      ensures !old(LivePost(postId)) ==> r == Err(NotFound) && comments == old(comments)
      ensures old(LivePost(postId)) && (verb == GET || content == []) ==> r == Ok(None) && comments == old(comments)
      ensures old(LivePost(postId)) && verb == POST && content != [] ==>
                var id := |old(comments)|;
                var added := NewComment(id, postId, user, content, now);
                if parent.Some? && parent.value <= id then
                  r == Ok(Some(id)) && comments == old(comments) + [added.(parent := parent)]
                else
                  && comments == old(comments) + [added]
                  && r == (if parent.None? then Ok(Some(id)) else Err(NotFound))
    {
      if !LivePost(postId) {
        return Err(NotFound);
      }
      if verb == POST && content != [] {
        var id := |comments|;
        assert RowsFor(likes, OnComment(id)) == {} by {
          forall row | row in likes ensures row.1 != OnComment(id) {
            assert TargetExists(row.1);
          }
        }
        // The row is saved first; the parent is looked up among the rows
        // saved so far, so the new comment may name itself as its parent.
        var comment := NewComment(id, postId, user, content, now);
        var resolved := parent.Some? && parent.value <= id;
        if resolved {
          comment := comment.(parent := parent);
        }
        comments := comments + [comment];
        assert CommentConsistent(id);
        assert forall i :: 0 <= i < |comments| ==> CommentConsistent(i) by {
          forall i | 0 <= i < |comments| ensures CommentConsistent(i) {
            if i < id { assert old(CommentConsistent(i)); }
          }
        }
        if parent.Some? && !resolved {
          return Err(NotFound);
        }
        return Ok(Some(id));
      }
      return Ok(None);
    }

    /**
     * `delete_comment`: only the author reaches the comment (active or not);
     * a POST clears its `is_active`. Either way the result names the post to
     * return to.
     */
    method DeleteComment(user: UserId, id: CommentId, verb: Verb) returns (r: Result<PostId>)
      requires Valid()
      modifies this
      ensures Valid()
      ensures categories == old(categories) && posts == old(posts) && profiles == old(profiles)
      ensures accounts == old(accounts) && likes == old(likes) && favorites == old(favorites)
      ensures !old(OwnsComment(user, id)) ==> r == Err(NotFound) && comments == old(comments)
      ensures old(OwnsComment(user, id)) ==> r == Ok(old(comments[id].post))
      ensures old(OwnsComment(user, id)) && verb == GET ==> comments == old(comments)
      ensures old(OwnsComment(user, id)) && verb == POST ==>
                && comments == old(comments)[id := old(comments[id]).(is_active := false)]
                && (!old(comments[id].is_active) ==> comments == old(comments))
    {
      if !OwnsComment(user, id) {
        return Err(NotFound);
      }
      var postId := comments[id].post;
      if verb == POST {
        var comment := comments[id];
        assert CommentConsistent(id);
        comment := comment.(is_active := false);
        SaveComment(comment);
      }
      return Ok(postId);
    }

    // -------------------------------------------------------------------------
    // Profiles
    // -------------------------------------------------------------------------

    /** `UserProfile.objects.get_or_create(user=user)`: the existing profile, or a new default one. */
    method GetOrCreateProfile(user: UserId, now: Timestamp) returns (profile: UserProfile, created: bool)
      requires Valid()
      modifies this
      ensures Valid()
      ensures categories == old(categories) && posts == old(posts) && comments == old(comments)
      ensures accounts == old(accounts) && likes == old(likes) && favorites == old(favorites)
      ensures created <==> user !in old(profiles)
      ensures profiles == WithProfile(old(profiles), user, now)
      ensures profile == profiles[user] && profile.user == user
    {
      created := user !in profiles;
      if created {
        profiles := profiles[user := NewProfile(user, now)];
      }
      profile := profiles[user];
    }

    /**
     * `user_profile`: 404 for an unknown username; otherwise the user's
     * profile (created on first visit) with their active posts and comments,
     * newest first.
     */
    method UserProfilePage(username: string, now: Timestamp) returns (r: Result<ProfilePage>)
      requires Valid()
      modifies this
      ensures Valid()
      ensures categories == old(categories) && posts == old(posts) && comments == old(comments)
      ensures accounts == old(accounts) && likes == old(likes) && favorites == old(favorites)
      ensures username !in accounts ==> r == Err(NotFound) && profiles == old(profiles)
      ensures username in accounts ==>
                var u := accounts[username];
                && profiles == WithProfile(old(profiles), u, now)
                && r == Ok(ProfilePage(u, profiles[u], Listing.PostsBy(posts, u), Listing.CommentsBy(comments, u)))
    {
      if username !in accounts {
        return Err(NotFound);
      }
      var u := accounts[username];
      var profile, _ := GetOrCreateProfile(u, now);
      r := Ok(ProfilePage(u, profile, Listing.PostsBy(posts, u), Listing.CommentsBy(comments, u)));
    }

    /**
     * `edit_profile`: get or create the caller's profile; a POST then sets
     * bio and location (missing fields become empty) and replaces the avatar
     * only when a new one is uploaded.
     */
    method EditProfile(user: UserId, verb: Verb, bio: string, location: string,
                       avatar: Option<string>, now: Timestamp) returns (profile: UserProfile)
      requires Valid()
      modifies this
      ensures Valid()
      ensures categories == old(categories) && posts == old(posts) && comments == old(comments)
      ensures accounts == old(accounts) && likes == old(likes) && favorites == old(favorites)
      ensures var base := WithProfile(old(profiles), user, now);
              && (verb == GET ==> profiles == base)
              && (verb == POST ==>
                    profiles == base[user := base[user].(bio := bio, location := location,
                                                         avatar := if avatar.Some? then avatar else base[user].avatar)])
      ensures user in profiles && profile == profiles[user]
    {
      var created;
      profile, created := GetOrCreateProfile(user, now);
      if verb == POST {
        profile := profile.(bio := bio, location := location);
        if avatar.Some? {
          profile := profile.(avatar := avatar);
        }
        profiles := profiles[user := profile];
      }
    }
  }

  /**
   * A like toggled twice: user 2 likes user 1's post "Hello" in
   * category "Tech", then likes it again.
   */
  method LikeTwiceExample() {
    var tech := Category(0, "Tech", "", 0);
    var store := new Store([tech], map["a" := 1, "b" := 2]);
    var created := store.CreatePost(1, POST, "Hello", "first post", Some(0), 1);
    assert created == Ok(Some(0));
    var first := store.LikePost(2, 0);
    assert first == Ok(Engaged(true, 1));
    var second := store.LikePost(2, 0);
    assert second == Ok(Engaged(false, 0));
    assert store.likes == {};
  }
}
