/**
 * Pagination of a listing, as the views use Django's `Paginator` with
 * twelve items per page (no orphans, empty first page allowed), and the
 * views' own recovery from a bad page number.
 */
module Paging {

  /** Items per page in the index and search listings. */
  const PageSize: nat := 12

  /**
   * The `page` request parameter after Django has tried to read it as an
   * integer. A request without the parameter uses the views' default, 1,
   * i.e. `Number(1)`.
   */
  datatype PageArg = NotAnInteger | Number(n: int)

  /** The outcome of `Paginator.validate_number`. */
  datatype PageCheck = Valid(number: nat) | PageNotAnInteger | EmptyPage

  /** One page of a listing, with the paginator's bookkeeping. */
  datatype Page<T> = Page(items: seq<T>, number: nat, numPages: nat, count: nat)

  /** `Paginator.num_pages`: enough pages for every item, and never fewer than one. */
  function NumPages(count: nat): (pages: nat)
    ensures pages >= 1
    ensures count <= pages * PageSize
    ensures pages == 1 || (pages - 1) * PageSize < count
  {
    if count == 0 then 1 else (count + PageSize - 1) / PageSize
  }

  /** `Paginator.validate_number`: an integer within 1..num_pages, or which exception. */
  function Validate(arg: PageArg, numPages: nat): (c: PageCheck)
    ensures c == PageNotAnInteger <==> arg.NotAnInteger?
    ensures c.Valid? <==> arg.Number? && 1 <= arg.n <= numPages
    ensures c.Valid? ==> c.number == arg.n
  {
    match arg
    case NotAnInteger => PageNotAnInteger
    case Number(n) => if n < 1 || n > numPages then EmptyPage else Valid(n)
  }

  /**
   * The page a listing view shows: the requested page when it is valid,
   * page 1 when the parameter is not an integer (`PageNotAnInteger`), and
   * the last page when the number is out of range (`EmptyPage`), which
   * includes 0 and every negative number.
   */
  function ShownPage(arg: PageArg, count: nat): (k: nat)
    ensures 1 <= k <= NumPages(count)
    ensures Validate(arg, NumPages(count)).Valid? ==> k == arg.n
    ensures arg.NotAnInteger? ==> k == 1
    ensures Validate(arg, NumPages(count)) == EmptyPage ==> k == NumPages(count)
  {
    match Validate(arg, NumPages(count))
    case Valid(k) => k
    case PageNotAnInteger => 1
    case EmptyPage => NumPages(count)
  }

  /** `Paginator.page(k).object_list`: the items at positions (k-1)*12 up to k*12. */
  function Slice<T>(items: seq<T>, k: nat): (r: seq<T>)
    requires 1 <= k <= NumPages(|items|)
    ensures (k - 1) * PageSize <= |items|
    ensures |r| == if |items| - (k - 1) * PageSize < PageSize then |items| - (k - 1) * PageSize else PageSize
    ensures forall i :: 0 <= i < |r| ==> r[i] == items[(k - 1) * PageSize + i]
  {
    var bottom := (k - 1) * PageSize;
    var top := if bottom + PageSize >= |items| then |items| else bottom + PageSize;
    items[bottom..top]
  }

  /** The page a listing view hands to its template. */
  function Paginate<T>(items: seq<T>, arg: PageArg): (pg: Page<T>)
    ensures pg.count == |items| && pg.numPages == NumPages(|items|)
    ensures 1 <= pg.number <= pg.numPages
    ensures pg.number == ShownPage(arg, |items|)
    ensures pg.items == Slice(items, pg.number)
    ensures forall x :: x in pg.items ==> x in items
    ensures |items| > 0 ==> |pg.items| > 0
  {
    var k := ShownPage(arg, |items|);
    Page(Slice(items, k), k, NumPages(|items|), |items|)
  }

  /** The page a view shows always passes `validate_number`: showing it never raises. */
  lemma ShownPageIsValid(arg: PageArg, count: nat)
    ensures Validate(Number(ShownPage(arg, count)), NumPages(count)) == Valid(ShownPage(arg, count))
  {
  }

  /** Every item of a listing is on the page its index implies, at the position it implies. */
  lemma EveryItemOnItsPage<T>(items: seq<T>, i: nat)
    requires i < |items|
    ensures 1 <= i / PageSize + 1 <= NumPages(|items|)
    ensures |Slice(items, i / PageSize + 1)| > i % PageSize
    ensures Slice(items, i / PageSize + 1)[i % PageSize] == items[i]
  {
    var k := i / PageSize + 1;
    assert i == (k - 1) * PageSize + i % PageSize;
  }
}
