/**
 * The read-only views of the forum: the index listing with its sort orders,
 * the hot-posts sidebar, categories annotated with their post counts, search,
 * the category page, a post's comment thread and a user's posts and comments.
 *
 * Each takes the tables it reads as values (sequences of records, in id
 * order) and returns what the view puts in its template context.
 */
module Listing {
  import opened Sorting
  import opened Models
  import opened Text
  import opened Paging

  /** Size of the hot-posts sidebar on the index and search pages. */
  const HotSidebarSize: nat := 5

  // ---------------------------------------------------------------------------
  // Filters and sort keys
  // ---------------------------------------------------------------------------

  /** An active post, restricted to one category when the request names one. */
  predicate Listed(p: Post, category: Option<CategoryId>) {
    p.is_active && (category.None? || p.category == category.value)
  }

  /** The posts a listing may show: active, and in `category` when one is given. */
  function Selected(posts: seq<Post>, category: Option<CategoryId>): (r: seq<Post>)
    ensures forall p :: multiset(r)[p] == if Listed(p, category) then multiset(posts)[p] else 0
    ensures forall p :: p in r <==> p in posts && Listed(p, category)
  {
    Filter(posts, p => Listed(p, category))
  }

  /** `order_by('-view_count', '-like_count', '-created_at')`. */
  predicate HotFirst(a: Post, b: Post) {
    || a.view_count > b.view_count
    || (a.view_count == b.view_count && a.like_count > b.like_count)
    || (a.view_count == b.view_count && a.like_count == b.like_count && a.created_at >= b.created_at)
  }

  /** `order_by('-view_count')`. */
  predicate MostViewedFirst(a: Post, b: Post) {
    a.view_count >= b.view_count
  }

  /** `order_by('-created_at')` on comments. */
  predicate NewestCommentFirst(a: Comment, b: Comment) {
    a.created_at >= b.created_at
  }

  lemma HotFirstIsTotalPreorder()
    ensures TotalPreorder(HotFirst)
  {
  }

  lemma MostViewedFirstIsTotalPreorder()
    ensures TotalPreorder(MostViewedFirst)
  {
  }

  lemma NewestCommentFirstIsTotalPreorder()
    ensures TotalPreorder(NewestCommentFirst)
  {
  }

  /** The index's `sort` parameter: "hot" and "recommend" rank by popularity, anything else by recency. */
  function OrderFor(sort: string): (le: (Post, Post) -> bool)
    ensures TotalPreorder(le)
    ensures sort == "hot" || sort == "recommend" ==> le == HotFirst
    ensures sort != "hot" && sort != "recommend" ==> le == NewestPostFirst
  {
    HotFirstIsTotalPreorder();
    NewestPostFirstIsTotalPreorder();
    if sort == "hot" || sort == "recommend" then HotFirst else NewestPostFirst
  }

  // ---------------------------------------------------------------------------
  // The index page
  // ---------------------------------------------------------------------------

  /** The index listing before pagination: the selected posts in the requested order. */
  function IndexPosts(posts: seq<Post>, sort: string, category: Option<CategoryId>): (r: seq<Post>)
    ensures forall p :: multiset(r)[p] == if Listed(p, category) then multiset(posts)[p] else 0
    ensures forall p :: p in r <==> p in posts && Listed(p, category)
    ensures |r| == |Selected(posts, category)|
    ensures SortedBy(r, OrderFor(sort))
  {
    var r := SortBy(Selected(posts, category), OrderFor(sort));
    SameElements(r, Selected(posts, category));
    r
  }

  /** "hot" and "recommend" are the same ranking. */
  lemma HotIsRecommend(posts: seq<Post>, category: Option<CategoryId>)
    ensures IndexPosts(posts, "hot", category) == IndexPosts(posts, "recommend", category)
  {
  }

  /** The hot-posts sidebar: the five most viewed active posts, whatever the page's filters. */
  function HotPosts(posts: seq<Post>): (r: seq<Post>)
    ensures |r| == if |Selected(posts, None)| < HotSidebarSize then |Selected(posts, None)| else HotSidebarSize
    ensures forall p :: p in r ==> p in posts && p.is_active
    ensures multiset(r) <= multiset(Selected(posts, None))
    ensures SortedBy(r, MostViewedFirst)
    ensures RanksAbove(r, multiset(Selected(posts, None)) - multiset(r), MostViewedFirst)
  {
    MostViewedFirstIsTotalPreorder();
    var active := Selected(posts, None);
    var ranked := SortBy(active, MostViewedFirst);
    SameElements(ranked, active);
    var m := if |ranked| < HotSidebarSize then |ranked| else HotSidebarSize;
    TopOfRanking(ranked, m, MostViewedFirst);
    var top := ranked[..m];
    assert multiset(ranked) == multiset(active);
    assert forall p :: p in top ==> p in active by {
      forall p | p in top ensures p in active {
        assert p in ranked;
      }
    }
    top
  }

  /** Every element of `top` may be ranked before every element of `rest`. */
  ghost predicate RanksAbove<T>(top: seq<T>, rest: multiset<T>, le: (T, T) -> bool) {
    forall p, q :: p in top && q in rest ==> le(p, q)
  }

  /** The first `m` of a ranking rank at least as high as every element left out. */
  lemma TopOfRanking<T>(ranked: seq<T>, m: nat, le: (T, T) -> bool)
    requires SortedBy(ranked, le) && m <= |ranked|
    ensures SortedBy(ranked[..m], le)
    ensures multiset(ranked[..m]) <= multiset(ranked)
    ensures RanksAbove(ranked[..m], multiset(ranked) - multiset(ranked[..m]), le)
  {
    var r := ranked[..m];
    assert ranked == r + ranked[m..];
    assert multiset(ranked) == multiset(r) + multiset(ranked[m..]);
    forall p, q | p in r && q in multiset(ranked) - multiset(r)
      ensures le(p, q)
    {
      var i :| 0 <= i < m && r[i] == p;
      assert q in multiset(ranked[m..]);
      var j :| 0 <= j < |ranked| - m && ranked[m..][j] == q;
      assert ranked[m + j] == q;
    }
  }

  /** A category with the number of its active posts (`annotate(post_count=...)`). */
  datatype CategoryCount = CategoryCount(category: Category, postCount: nat)

  function CategoriesOf(cs: seq<CategoryCount>): (r: seq<Category>)
    ensures |r| == |cs| && forall i :: 0 <= i < |cs| ==> r[i] == cs[i].category
  {
    if cs == [] then [] else [cs[0].category] + CategoriesOf(cs[1..])
  }

  /** All categories in their default order (by name). */
  function CategoriesByName(categories: seq<Category>): (r: seq<Category>)
    ensures multiset(r) == multiset(categories)
    ensures SortedBy(r, ByName)
  {
    ByNameIsTotalPreorder();
    SortBy(categories, ByName)
  }

  /**
   * Every category, each with the count of active posts filed under it.
   * The aggregate query carries no ORDER BY, so no order is promised; the
   * model lists the categories in table order.
   */
  function CategoriesWithCounts(categories: seq<Category>, posts: seq<Post>): (r: seq<CategoryCount>)
    ensures multiset(CategoriesOf(r)) == multiset(categories)
    ensures forall i :: 0 <= i < |r| ==> r[i].postCount == |Selected(posts, Some(r[i].category.id))|
  {
    var r := seq(|categories|, i requires 0 <= i < |categories| =>
      CategoryCount(categories[i], |Selected(posts, Some(categories[i].id))|));
    assert CategoriesOf(r) == categories;
    r
  }

  /** What the index view puts in its context (the user total is left out). */
  datatype IndexPage = IndexPage(
    categories: seq<CategoryCount>,
    page: Page<Post>,
    hotPosts: seq<Post>,
    totalPosts: nat)

  /** The index view: one page of the filtered, sorted posts plus the sidebars. */
  function Index(categories: seq<Category>, posts: seq<Post>, sort: string,
                 category: Option<CategoryId>, page: PageArg): (v: IndexPage)
    ensures v.page.count == |Selected(posts, category)|
    ensures 1 <= v.page.number <= v.page.numPages == NumPages(v.page.count)
    ensures v.page.number == ShownPage(page, v.page.count)
    ensures v.page.items == Slice(IndexPosts(posts, sort, category), v.page.number)
    ensures v.categories == CategoriesWithCounts(categories, posts)
    ensures forall p :: p in v.page.items ==> p in posts && Listed(p, category)
    ensures SortedBy(v.page.items, OrderFor(sort))
    ensures |v.page.items| <= PageSize
    ensures v.hotPosts == HotPosts(posts)
    ensures v.totalPosts == |Selected(posts, None)|
  {
    var listed := IndexPosts(posts, sort, category);
    var pg := Paginate(listed, page);
    SlicePreservesOrder(listed, pg.number, OrderFor(sort));
    IndexPage(CategoriesWithCounts(categories, posts), pg, HotPosts(posts), |Selected(posts, None)|)
  }

  /** A page cut from a sorted listing is itself sorted. */
  lemma SlicePreservesOrder<T>(items: seq<T>, k: nat, le: (T, T) -> bool)
    requires 1 <= k <= NumPages(|items|)
    requires SortedBy(items, le)
    ensures SortedBy(Slice(items, k), le)
  {
    var r := Slice(items, k);
    var b := (k - 1) * PageSize;
    forall i, j | 0 <= i < j < |r| ensures le(r[i], r[j]) {
      assert r[i] == items[b + i] && r[j] == items[b + j];
    }
  }

  // ---------------------------------------------------------------------------
  // The category page
  // ---------------------------------------------------------------------------

  datatype CategoryPage = CategoryPage(category: Category, posts: seq<Post>, categories: seq<Category>)

  /**
   * The category view: 404 for an unknown id, else that category's active
   * posts, newest first. As in the store, the category with id `i` is
   * `categories[i]`, so an id is unknown exactly when it is past the end.
   */
  function CategoryPosts(categories: seq<Category>, posts: seq<Post>, id: CategoryId): (r: Result<CategoryPage>)
    ensures r.Err? <==> id >= |categories|
    ensures r.Ok? ==> r.value.category == categories[id]
    ensures r.Ok? ==> forall p :: p in r.value.posts <==> p in posts && Listed(p, Some(categories[id].id))
    ensures r.Ok? ==> forall p :: multiset(r.value.posts)[p] == if Listed(p, Some(categories[id].id)) then multiset(posts)[p] else 0
    ensures r.Ok? ==> SortedBy(r.value.posts, NewestPostFirst)
    ensures r.Ok? ==> multiset(r.value.categories) == multiset(categories)
    ensures r.Ok? ==> SortedBy(r.value.categories, ByName)
  {
    NewestPostFirstIsTotalPreorder();
    if id >= |categories| then Err(NotFound)
    else
      var c := categories[id];
      Ok(CategoryPage(c, SortBy(Selected(posts, Some(c.id)), NewestPostFirst), CategoriesByName(categories)))
  }

  // ---------------------------------------------------------------------------
  // Search
  // ---------------------------------------------------------------------------

  /** The search condition: the title or the content contains the query, ignoring case. */
  predicate Matches(p: Post, query: string) {
    ContainsIgnoringCase(p.title, query) || ContainsIgnoringCase(p.content, query)
  }

  /** What the search view keeps: active posts, and only those matching a non-blank query. */
  predicate Found(p: Post, query: string) {
    p.is_active && (query == [] || Matches(p, query))
  }

  datatype SearchResult = SearchResult(query: string, posts: seq<Post>, totalResults: nat)

  /**
   * The search listing before pagination. The query is stripped; a blank
   * query lists every active post but reports zero results.
   */
  function SearchPosts(posts: seq<Post>, q: string): (res: SearchResult)
    ensures res.query == Strip(q)
    ensures forall p :: multiset(res.posts)[p] == if Found(p, res.query) then multiset(posts)[p] else 0
    ensures forall p :: p in res.posts <==> p in posts && Found(p, res.query)
    ensures SortedBy(res.posts, NewestPostFirst)
    ensures res.totalResults == if res.query == [] then 0 else |res.posts|
  {
    NewestPostFirstIsTotalPreorder();
    var query := Strip(q);
    var found := Matching(posts, query);
    var ranked := SortBy(found, NewestPostFirst);
    SameElements(ranked, found);
    SearchResult(query, ranked, if query == [] then 0 else |ranked|)
  }

  /** The search filter: every active post for a blank query, else the active posts that match. */
  function Matching(posts: seq<Post>, query: string): (r: seq<Post>)
    ensures forall p :: multiset(r)[p] == if Found(p, query) then multiset(posts)[p] else 0
    ensures forall p :: p in r <==> p in posts && Found(p, query)
  {
    if query == [] then Selected(posts, None) else Filter(posts, (p: Post) => Found(p, query))
  }

  datatype SearchPage = SearchPage(
    query: string,
    page: Page<Post>,
    categories: seq<CategoryCount>,
    hotPosts: seq<Post>,
    totalResults: nat)

  /** The search view: one page of the results, the sidebars and the reported total. */
  function Search(categories: seq<Category>, posts: seq<Post>, q: string, page: PageArg): (v: SearchPage)
    ensures v.query == Strip(q)
    ensures 1 <= v.page.number <= v.page.numPages == NumPages(v.page.count)
    ensures forall p :: p in v.page.items ==> p in posts && Found(p, v.query)
    ensures SortedBy(v.page.items, NewestPostFirst)
    ensures v.query == [] ==> v.totalResults == 0 && v.page.count == |Selected(posts, None)|
    ensures v.query != [] ==> v.totalResults == v.page.count
    ensures v.hotPosts == HotPosts(posts)
    ensures v.page == Paginate(SearchPosts(posts, q).posts, page)
    ensures v.totalResults == SearchPosts(posts, q).totalResults
    ensures v.categories == CategoriesWithCounts(categories, posts)
  {
    var res := SearchPosts(posts, q);
    var pg := Paginate(res.posts, page);
    SlicePreservesOrder(res.posts, pg.number, NewestPostFirst);
    assert res.query == [] ==> |res.posts| == |Selected(posts, None)| by {
      if res.query == [] {
        assert multiset(res.posts) == multiset(Selected(posts, None));
        assert |res.posts| == |multiset(res.posts)|;
      }
    }
    SearchPage(res.query, pg, CategoriesWithCounts(categories, posts), HotPosts(posts), res.totalResults)
  }

  // ---------------------------------------------------------------------------
  // Comment threads and profile listings
  // ---------------------------------------------------------------------------

  /** The comments a post's detail page shows: its active comments, oldest first. */
  function Thread(comments: seq<Comment>, post: PostId): (r: seq<Comment>)
    ensures forall c :: multiset(r)[c] == if c.post == post && c.is_active then multiset(comments)[c] else 0
    ensures SortedBy(r, OldestCommentFirst)
  {
    OldestCommentFirstIsTotalPreorder();
    SortBy(Filter(comments, (c: Comment) => c.post == post && c.is_active), OldestCommentFirst)
  }

  /** A user's active posts, newest first (profile page). */
  function PostsBy(posts: seq<Post>, user: UserId): (r: seq<Post>)
    ensures forall p :: multiset(r)[p] == if p.author == user && p.is_active then multiset(posts)[p] else 0
    ensures SortedBy(r, NewestPostFirst)
  {
    NewestPostFirstIsTotalPreorder();
    SortBy(Filter(posts, (p: Post) => p.author == user && p.is_active), NewestPostFirst)
  }

  /** A user's active comments, newest first (profile page). */
  function CommentsBy(comments: seq<Comment>, user: UserId): (r: seq<Comment>)
    ensures forall c :: multiset(r)[c] == if c.author == user && c.is_active then multiset(comments)[c] else 0
    ensures SortedBy(r, NewestCommentFirst)
  {
    NewestCommentFirstIsTotalPreorder();
    SortBy(Filter(comments, (c: Comment) => c.author == user && c.is_active), NewestCommentFirst)
  }

  /** Soft-deleted posts appear in no listing, whoever asks. */
  lemma InactivePostsNeverListed(categories: seq<Category>, posts: seq<Post>, p: Post,
                                 sort: string, category: Option<CategoryId>, q: string,
                                 page: PageArg, user: UserId)
    requires !p.is_active
    ensures p !in Index(categories, posts, sort, category, page).page.items
    ensures p !in HotPosts(posts)
    ensures p !in Search(categories, posts, q, page).page.items
    ensures p !in PostsBy(posts, user)
    ensures forall id :: CategoryPosts(categories, posts, id).Ok? ==> p !in CategoryPosts(categories, posts, id).value.posts
  {
    assert multiset(PostsBy(posts, user))[p] == 0;
  }
}
