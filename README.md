# Tieba forum core in Dafny

A model of the core of a small Django discussion forum ("tieba"): the record
types of `tieba/models.py` and the views of `tieba/views.py` that list,
search, create, edit, soft-delete, like and favourite posts and comments.

- `models.dfy` (module `Models`): the records (Category, Post, Comment,
  UserProfile, the Like and Favorite rows), the defaults a new record
  receives, and each model's default ordering, with proofs that each
  ordering is a total preorder.
- `sorting.dfy` (module `Sorting`): `filter` and `order_by` over a table.
  Filtering keeps exactly the matching rows, with multiplicity. Sorting is
  an insertion sort that returns a permutation sorted by the key.
- `text.dfy` (module `Text`): Python's `str.strip()` and the `icontains`
  substring test used by search.
- `paging.dfy` (module `Paging`): Django's `Paginator` at twelve items per
  page, and the views' recovery from a bad page number.
- `listing.dfy` (module `Listing`): the read-only views. These are the index
  (with its sort orders and category filter), the hot-posts sidebar,
  categories with their active-post counts, the category page, search, a
  post's comment thread, and a user's posts and comments.
- `engagement.dfy` (module `Engagement`): the like/favourite toggle on a
  relation table. It carries the invariant that a counter equals the number
  of rows for its target.
- `forum.dfy` (module `Forum`): the stored state as a class `Store`, and one
  method per view that changes it.

`Store` holds:

- categories, posts and comments as sequences indexed by id;
- profiles keyed by user;
- the authentication system's username table;
- the Like and Favorite tables, as sets of `(user, target)` pairs.

Each table is a set, so `unique_together` holds by construction. The
invariant `Store.Valid` ties each record's id to its position and makes
every reference resolve. It also keeps each like and favourite counter equal
to the number of rows that point at its target. Every state-changing method
preserves it. The source decrements counters without a floor, so the
invariant is what keeps them non-negative (`Store.CountersNonNegative`).

A request is modelled by its parameters:

- the HTTP verb is `Verb`;
- a missing or empty form field is `""` or `None`;
- the `page` parameter after integer parsing is `PageArg`;
- the current time is a `Timestamp` parameter;
- a 404 is `Err(NotFound)`.

Behaviours of the code a reader may not expect:

- A `page` of 0 or below shows the last page, not page 1. Django's
  `validate_number` raises `EmptyPage` for it, and views.py:45-46 shows the
  last page for that exception.
- `create_comment` stores the new comment before it resolves `parent_id`.
  An unknown parent yields 404 and leaves a root comment stored. The lookup
  covers every comment saved so far, including the new one, so a comment can
  name itself as its parent.
- Edit and delete look a row up by author only. A soft-deleted post or
  comment can therefore still be edited or deleted by its author.
  `like_comment` does not check whether the comment's post is active.
- A blank search query lists every active post but reports 0 results.

## Model

| member | source | states |
|---|---|---|
| Models.NewPost | tieba/models.py:21-35 | a created post has the given title, content, author, category and time, zero view/like/favourite counters, no tags, and is active, not pinned and not a draft |
| Models.NewComment | tieba/models.py:46-55 | a created comment belongs to the given post and author, is a root comment (no parent), has zero likes and is active |
| Models.NewProfile | tieba/models.py:66-74 | a created profile belongs to its user, has no avatar, empty bio and location, and zero post and comment counts |
| Models.StringLeTotal | tieba/models.py:15 | any two category names are comparable in name order |
| Models.StringLeTransitive | tieba/models.py:15 | name order is transitive |
| Models.StringLeAntisymmetric | tieba/models.py:15 | two names each ordered before the other are equal |
| Models.ByNameIsTotalPreorder | tieba/models.py:15 | the Category default ordering (by name) is a total preorder |
| Models.NewestPostFirstIsTotalPreorder | tieba/models.py:40 | the Post default ordering (`-created_at`) is a total preorder |
| Models.OldestCommentFirstIsTotalPreorder | tieba/models.py:60 | the Comment default ordering (`created_at`) is a total preorder |
| Text.TrimStart | tieba/views.py:304 | the result is a suffix of the input, everything removed is whitespace, and it does not start with whitespace |
| Text.TrimEnd | tieba/views.py:304 | the result is a prefix of the input, everything removed is whitespace, and it does not end with whitespace |
| Text.Strip | tieba/views.py:304 | the result is a contiguous part of the query with only whitespace removed at either end, neither end is whitespace, and it is empty exactly when the query is all whitespace |
| Text.StripIdempotent | tieba/views.py:304 | stripping an already stripped query changes nothing |
| Text.Contains | tieba/views.py:309 | true exactly when the query occurs at some position of the text |
| Text.ContainsIgnoringCase | tieba/views.py:309 | true exactly when the lower-cased query occurs in the lower-cased text |
| Text.ContainsIgnoringCaseOfLower | tieba/views.py:309 | the case of the query's letters does not affect `icontains` |
| Paging.NumPages | tieba/views.py:38 | at least one page even with no items, enough pages of 12 for every item, and no page beyond the first is empty |
| Paging.Validate | tieba/views.py:41-46 | a non-integer raises `PageNotAnInteger`; a number is accepted exactly when it lies in `1..num_pages`; anything else raises `EmptyPage` |
| Paging.ShownPage | tieba/views.py:41-46 | the page shown is always in `1..num_pages`: the requested page if valid, page 1 for a non-integer, the last page for an out-of-range number (0 and negatives included) |
| Paging.ShownPageIsValid | tieba/views.py:41-46 | the page chosen after recovery always passes validation, so showing it never raises |
| Paging.Slice | tieba/views.py:42 | page k holds the items at positions (k-1)*12 onwards, twelve of them or as many as remain |
| Paging.Paginate | tieba/views.py:38-46 | the page shown is the one the recovery rule picks for the request, it is in range, it records the total and page counts, it holds exactly that page's slice of the listing, and it is non-empty when the listing is |
| Paging.EveryItemOnItsPage | tieba/views.py:38-46 | the item at index i appears on page i/12+1 at slot i mod 12 |
| Listing.Selected | tieba/views.py:22-26 | exactly the active posts, restricted to the requested category when one is given, each kept as often as it occurs |
| Listing.OrderFor | tieba/views.py:28-35 | `hot` and `recommend` select the (views, likes, created) descending key, anything else selects created descending, and both are total preorders |
| Listing.HotFirstIsTotalPreorder | tieba/views.py:29-33 | the hot/recommend key is a total preorder |
| Listing.MostViewedFirstIsTotalPreorder | tieba/views.py:49 | the sidebar key (views descending) is a total preorder |
| Listing.NewestCommentFirstIsTotalPreorder | tieba/views.py:268 | the profile comment order (newest first) is a total preorder |
| Listing.IndexPosts | tieba/views.py:22-35 | the index listing is a permutation of the active posts of the requested category, sorted by the requested key |
| Listing.HotIsRecommend | tieba/views.py:29-33 | `hot` and `recommend` produce the same listing |
| Listing.HotPosts | tieba/views.py:49 | the sidebar holds min(5, number of active posts) active posts, sorted by views, and each of them has at least as many views as every active post left out |
| Listing.CategoriesByName | tieba/views.py:69 | all categories, each once, in name order |
| Listing.CategoriesWithCounts | tieba/views.py:15 | every category exactly once, each annotated with the number of its active posts |
| Listing.Index | tieba/views.py:12-62 | the page shown is the one the recovery rule picks for `page`, and it holds that page's slice of the sorted, filtered listing: at most 12 active posts of the requested category in the requested order; the page count covers exactly the selected posts; the categories carry their active-post counts, the sidebar is the hot list and the total counts all active posts |
| Listing.CategoryPosts | tieba/views.py:65-76 | 404 exactly for an unknown category; otherwise a permutation of the category's active posts, newest first, with every category in name order |
| Listing.Matching | tieba/views.py:306-313 | a blank query keeps every active post; a non-blank one keeps exactly the active posts whose title or content contains it ignoring case |
| Listing.SearchPosts | tieba/views.py:302-313 | the query is the stripped input; the results are a permutation of the active posts it finds, newest first; the reported total is the result count, or 0 for a blank query |
| Listing.Search | tieba/views.py:302-340 | the page shown is the recovery rule's page of the search results for `page`, holding found posts newest first; the reported total is the search listing's total, so a blank query pages all active posts but reports 0 and otherwise the total equals the number of results; the categories carry their counts and the sidebar is the hot list |
| Listing.Thread | tieba/views.py:88 | a post's detail page lists exactly its active comments, oldest first |
| Listing.PostsBy | tieba/views.py:267 | a profile lists exactly the user's active posts, newest first |
| Listing.CommentsBy | tieba/views.py:268 | a profile lists exactly the user's active comments, newest first |
| Listing.InactivePostsNeverListed | tieba/views.py:22 | a soft-deleted post appears in no index page, sidebar, search page, category page or profile listing |
| Engagement.Toggle | tieba/views.py:203-216 | the user ends engaged exactly when no row existed; the row exists afterwards exactly when engaged; every other row is untouched |
| Engagement.ToggleKeepsCount | tieba/views.py:203-218 | a counter that equals its target's row count before a toggle still does after the ±1 step, and so is non-negative |
| Engagement.ToggleLeavesOthers | tieba/views.py:203-218 | a toggle does not change the rows of any other target |
| Engagement.ToggleTwice | tieba/views.py:203-216 | two toggles by the same user restore the table and report opposite states |
| Engagement.RepeatedToggles | tieba/views.py:203-216 | after an even number of toggles the table is as before; after an odd number it is as after one |
| Engagement.RepeatedTogglesCount | tieba/views.py:203-218 | any number of toggles keeps the counter equal to the row count; an even number restores the counter |
| Forum.WithProfile | tieba/views.py:264 | `get_or_create` adds a default profile only for a user without one and leaves every existing profile unchanged |
| Forum.WithProfileIdempotent | tieba/views.py:264 | a second `get_or_create` for the same user changes nothing |
| Forum.Store.CountersNonNegative | tieba/models.py:30-32 | in a valid store every post like/favourite counter and every comment like counter is non-negative |
| Forum.Store.SavePost | tieba/views.py:132-135 | saving an existing post replaces that row only and keeps the store valid |
| Forum.Store.SaveComment | tieba/views.py:191-192 | saving an existing comment replaces that row only and keeps the store valid |
| Forum.Store.LikePost | tieba/views.py:197-226 | 404 with nothing changed for a missing or inactive post; otherwise the Like table is toggled, only that post's like counter moves by ±1, the result is (liked, stored count), and the store stays valid |
| Forum.Store.LikeComment | tieba/views.py:229-258 | the same toggle on an active comment's like counter |
| Forum.Store.FavoritePost | tieba/views.py:343-372 | the same toggle on the Favorite table and the post's favourite counter |
| Forum.Store.CountView | tieba/views.py:81-85 | 404 for a missing or inactive post; otherwise exactly its view counter rises by 1 and nothing else changes |
| Forum.Store.PostDetail | tieba/views.py:79-94 | 404 for a missing or inactive post; otherwise one more view is counted and the page shows the post with its thread |
| Forum.Store.CreatePost | tieba/views.py:97-117 | nothing is written unless a POST carries title, content and category; an unknown category is a 404; otherwise exactly one default post by the user is appended under the next id |
| Forum.Store.EditPost | tieba/views.py:120-140 | only the author reaches the post (404 otherwise); a complete POST with a known category overwrites title, content and category and nothing else |
| Forum.Store.DeletePost | tieba/views.py:143-154 | only the author reaches the post; only a POST deletes; deleting clears `is_active` and nothing else, and repeating it changes nothing |
| Forum.Store.CreateComment | tieba/views.py:157-181 | 404 for an inactive post; nothing written without POST content; otherwise the comment is appended, and a parent that does not resolve yields 404 with the new root comment kept |
| Forum.Store.DeleteComment | tieba/views.py:184-194 | only the author reaches the comment; a POST clears `is_active` only, repeating it changes nothing, and the result is the comment's post |
| Forum.Store.GetOrCreateProfile | tieba/views.py:282 | a profile is created exactly when the user had none, and the returned profile is the stored one |
| Forum.Store.UserProfilePage | tieba/views.py:261-276 | 404 for an unknown username; otherwise the profile is created if missing, and the page shows it with the user's active posts and comments, newest first |
| Forum.Store.EditProfile | tieba/views.py:279-299 | the profile is created if missing; a POST sets bio and location, replaces the avatar only when one is uploaded, and changes no other profile |

## Left out

- Rendering, redirects, the JSON replies and the `x-requested-with` branch are not modelled. Each view returns its data or state change instead.
- `login_required` and authentication are not modelled. The acting user is a parameter.
- `register` (`UserCreationForm`, `login`, creating its profile) is not modelled. It is form and session handling.
- `total_users` on the index page is not modelled. It counts rows of the authentication system's table.
- Avatar file storage is not modelled. An uploaded avatar is an opaque string reference.
- Concurrent requests are not modelled. The race between `get_or_create` and the counter update is out of scope, and each view runs as one sequential step.
- Text.ContainsIgnoringCase: lower-cases ASCII letters only. It does not model Unicode case folding or the database's collation.
- Listing.CategoriesWithCounts: promises no order for the annotated category list. The aggregate query at tieba/views.py:15 and 316 drops the model's default ordering, so the source leaves the order undefined; the model lists the categories in table order.
- Counters are unbounded integers in the model. The 0..2147483647 range of the `PositiveIntegerField` columns (tieba/models.py:30-32, 54, 73-74) and the database error when `view_count += 1` passes it are not modelled.
- Strings in the model have no length limit. The `max_length` bounds of `Category.name` (50), `Post.title` (200) and `UserProfile.location` (100) (tieba/models.py:8, 23, 71) are not modelled. Neither is the database error when a view writes a longer value, so `Store.CreatePost`, `Store.EditPost` and `Store.EditProfile` store strings of any length. The `created_at` of Like and Favorite rows (tieba/models.py:89, 107) is not kept either, because those tables are sets of `(user, target)` pairs.
- Models.StringLeTotal: category names are compared by code point. The database collation is not modelled.
- Parsing of request strings is not modelled: the `page` value arrives already classified as a `PageArg`. A non-numeric category or parent id (a `ValueError` in the source) has no counterpart, because ids are naturals.
- `updated_at` and its automatic refresh on save are not modelled. `created_at` is the `now` parameter.
- `tags`, `is_pinned` and `is_draft` are stored with their defaults. No view reads or changes them.
- The profile `post_count` and `comment_count` fields keep their defaults. No view updates them.
- The `__str__` formatters, `tieba/urls.py`, `tieba/admin.py` and `static/js/main.js` are not part of this model.
- Listings are specified as permutations sorted by the view's key, not as one specific order. Ties beyond the key have no defined order in the database.
