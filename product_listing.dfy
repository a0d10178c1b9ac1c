/**
 * The product listing: the query-string bag and the caller's role become
 * match criteria; matching products are counted, sorted by an allow-listed
 * key, cut to one page and annotated with their stock classification.
 */
module ProductListing {
  import opened Wrappers
  import opened Text
  import opened JsNumbers
  import opened Sorting
  import opened Pagination
  import opened Tables
  import opened ProductModel

  /** `category` arrives as one value or, when repeated in the query string, as a list. */
  datatype CategoryParam = One(value: string) | Many(values: seq<string>)

  datatype ListingQuery = ListingQuery(
    priceMin: Option<string>, priceMax: Option<string>,
    stockMin: Option<string>, stockMax: Option<string>,
    category: Option<CategoryParam>,
    lowStock: Option<string>, outOfStock: Option<string>,
    highStock: Option<string>, medStock: Option<string>,
    search: Option<string>,
    sortBy: Option<string>, order: Option<string>,
    page: Option<string>, limit: Option<string>,
    status: Option<string>)

  /** A numeric range as an object of optional `$gte`, `$lte`, `$gt` and `$eq` operators. */
  datatype Bounds = Bounds(gte: Option<Num>, lte: Option<Num>, gt: Option<Num>, eq: Option<Num>)

  const NoBounds := Bounds(None, None, None, None)

  /** The `$match` stage: each absent part is unconstrained. */
  datatype Criteria = Criteria(
    status: Option<string>,
    price: Option<Bounds>,
    stock: Option<Bounds>,
    categories: Option<seq<string>>,
    search: Option<string>)

  // ---------------------------------------------------------------- criteria

  function StatusCriterion(role: Option<string>, status: Option<string>): Option<string> {
    if role == Some("user") then Some("active")
    else if Truthy(status) then status
    else None
  }

  function RangeBounds(min: Option<string>, max: Option<string>): Option<Bounds> {
    if Truthy(min) || Truthy(max) then
      Some(Bounds(if Truthy(min) then Some(JsNumber(min.value)) else None,
                  if Truthy(max) then Some(JsNumber(max.value)) else None,
                  None, None))
    else None
  }

  /** `{ ...b, op: v }` starts from the empty object when `b` is undefined. */
  function Spread(b: Option<Bounds>): Bounds {
    b.GetOr(NoBounds)
  }

  /** Derived stock flags react only to the exact string "true". */
  predicate IsTrue(flag: Option<string>) {
    flag == Some("true")
  }

  /** The explicit stock range, then the low, medium, high and out-of-stock flags in that order. */
  function StockBounds(q: ListingQuery): (r: Option<Bounds>)
    ensures r.None? <==>
      !Truthy(q.stockMin) && !Truthy(q.stockMax) &&
      !IsTrue(q.lowStock) && !IsTrue(q.medStock) && !IsTrue(q.highStock) && !IsTrue(q.outOfStock)
    ensures IsTrue(q.outOfStock) ==> r.Some? && r.value.eq == Some(Finite(0))
    ensures IsTrue(q.highStock) ==> r.Some? && r.value.gt == Some(Finite(20))
    ensures IsTrue(q.medStock) ==>
      r.Some? && r.value.lte == Some(Finite(20)) && r.value.gt == Some(Finite(if IsTrue(q.highStock) then 20 else 10))
    ensures IsTrue(q.lowStock) && !IsTrue(q.medStock) ==> r.Some? && r.value.lte == Some(Finite(10))
    ensures r.Some? && r.value.gte.Some? ==> Truthy(q.stockMin) && r.value.gte == Some(JsNumber(q.stockMin.value))
  {
    var s0 := RangeBounds(q.stockMin, q.stockMax);
    var s1 := if IsTrue(q.lowStock) then Some(Spread(s0).(lte := Some(Finite(10)))) else s0;
    var s2 := if IsTrue(q.medStock) then Some(Spread(s1).(lte := Some(Finite(20)), gt := Some(Finite(10)))) else s1;
    var s3 := if IsTrue(q.highStock) then Some(Spread(s2).(gt := Some(Finite(20)))) else s2;
    if IsTrue(q.outOfStock) then Some(Spread(s3).(eq := Some(Finite(0)))) else s3
  }

  function CategoryCriterion(c: Option<CategoryParam>): Option<seq<string>> {
    match c
    case None => None
    case Some(One(v)) => if v == "" then None else Some([v])
    case Some(Many(vs)) => Some(vs)
  }

  function BuildCriteria(q: ListingQuery, role: Option<string>): Criteria {
    Criteria(
      StatusCriterion(role, q.status),
      RangeBounds(q.priceMin, q.priceMax),
      StockBounds(q),
      CategoryCriterion(q.category),
      if Truthy(q.search) then q.search else None)
  }

  /**
   * The `$match` stage built from the query: role "user" forces active
   * products, a price range only for given bounds, a category list unless
   * the one category is empty, a search only for a truthy text.
   */
  lemma CriteriaFromQuery(q: ListingQuery, role: Option<string>)
    ensures var c := BuildCriteria(q, role);
      && (role == Some("user") ==> c.status == Some("active"))
      && (role != Some("user") ==> c.status == (if Truthy(q.status) then q.status else None))
      && (c.price.Some? <==> Truthy(q.priceMin) || Truthy(q.priceMax))
      && (c.categories.Some? <==> q.category.Some? && q.category != Some(One("")))
      && (c.search.Some? <==> Truthy(q.search))
      && (c.search.Some? ==> c.search == q.search)
  {
  }

  // ---------------------------------------------------------------- matching

  /** A comparison against NaN never holds. */
  predicate Compare(v: int, bound: Option<Num>, op: (int, int) -> bool): (r: bool)
    ensures bound.None? ==> r
    ensures bound == Some(NaN) ==> !r
    ensures bound.Some? && bound.value.Finite? ==> (r <==> op(v, bound.value.value))
  {
    bound.Some? ==> bound.value.Finite? && op(v, bound.value.value)
  }

  predicate MeetsBounds(v: int, b: Bounds) {
    && Compare(v, b.gte, (x, y) => x >= y)
    && Compare(v, b.lte, (x, y) => x <= y)
    && Compare(v, b.gt, (x, y) => x > y)
    && Compare(v, b.eq, (x, y) => x == y)
  }

  predicate Matches(p: Product, c: Criteria) {
    && (c.status.Some? ==> StatusName(p.status) == c.status.value)
    && (c.price.Some? ==> MeetsBounds(p.price, c.price.value))
    && (c.stock.Some? ==> MeetsBounds(p.stock, c.stock.value))
    && (c.categories.Some? ==> p.category in c.categories.value)
    && (c.search.Some? ==> ContainsIgnoringCase(p.name, c.search.value) || ContainsIgnoringCase(p.category, c.search.value))
  }

  // ---------------------------------------------------------------- stock classification

  datatype StockStatus = OutOfStock | Low | Medium | High

  /** The `$switch` that labels each row; its default branch is `High`. */
  function Classify(stock: int): (s: StockStatus)
    ensures s == OutOfStock <==> stock == 0
    ensures s == Low <==> stock != 0 && stock <= 10
    ensures s == Medium <==> 10 < stock <= 20
    ensures s == High <==> 20 < stock
  {
    if stock == 0 then OutOfStock
    else if stock <= 10 then Low
    else if 10 < stock <= 20 then Medium
    else if stock > 20 then High
    else High
  }

  // ---------------------------------------------------------------- sorting and paging

  datatype SortField = ByPrice | ByName | ByCreatedAt

  function FieldName(f: SortField): string {
    match f
    case ByPrice => "price"
    case ByName => "name"
    case ByCreatedAt => "createdAt"
  }

  /** `sortBy` is kept only when it is on the allow-list; it defaults to createdAt. */
  function ChooseSortField(sortBy: Option<string>): SortField {
    if sortBy == Some("price") then ByPrice
    else if sortBy == Some("name") then ByName
    else ByCreatedAt
  }

  function Ascending(order: Option<string>): bool {
    order == Some("asc")
  }

  function ProductKey(f: SortField, p: Product): Key {
    match f
    case ByPrice => Num(p.price)
    case ByName => Text(p.name)
    case ByCreatedAt => Num(p.createdAt)
  }

  function RecordKey(f: SortField): Record<Product> -> Key {
    (e: Record<Product>) => ProductKey(f, e.value)
  }

  function PageNumber(q: ListingQuery): int {
    ParseIntOr(q.page, 1)
  }

  function PageLimit(q: ListingQuery): int {
    ParseIntOr(q.limit, 10)
  }

  /** Positive page and limit; a negative parse is passed through by the code. */
  predicate PositivePaging(q: ListingQuery) {
    PageNumber(q) >= 1 && PageLimit(q) >= 1
  }

  // ---------------------------------------------------------------- result

  datatype Row = Row(id: Id, product: Product, stockStatus: StockStatus, isOutOfStock: bool)

  datatype Listing = Listing(total: nat, totalPages: nat, currentPage: int, products: seq<Row>)

  function Annotate(e: Record<Product>): Row {
    Row(e.id, e.value, Classify(e.value.stock), e.value.stock == 0)
  }

  function MatchesRecord(c: Criteria): Record<Product> -> bool {
    (e: Record<Product>) => Matches(e.value, c)
  }

  /** The matching records, in the order the sort leaves them. */
  function SortedMatches(docs: seq<Record<Product>>, q: ListingQuery, role: Option<string>): (r: seq<Record<Product>>)
    ensures |r| == CountWhere(docs, MatchesRecord(BuildCriteria(q, role)))
  {
    SortByKey(Where(docs, MatchesRecord(BuildCriteria(q, role))), RecordKey(ChooseSortField(q.sortBy)), Ascending(q.order))
  }

  predicate RowsInOrder(rows: seq<Row>, f: SortField, ascending: bool) {
    forall i, j :: 0 <= i < j < |rows| ==>
      if ascending then KeyLe(ProductKey(f, rows[i].product), ProductKey(f, rows[j].product))
      else KeyLe(ProductKey(f, rows[j].product), ProductKey(f, rows[i].product))
  }

  function AnnotateAll(page: seq<Record<Product>>): (rows: seq<Row>)
    ensures |rows| == |page|
    ensures forall i :: 0 <= i < |page| ==> rows[i] == Annotate(page[i])
  {
    seq(|page|, i requires 0 <= i < |page| => Annotate(page[i]))
  }

  lemma AnnotatedOrder(page: seq<Record<Product>>, f: SortField, asc: bool)
    requires Sorted(page, RecordKey(f), asc)
    ensures RowsInOrder(AnnotateAll(page), f, asc)
  {
    var rows := AnnotateAll(page);
    forall i, j | 0 <= i < j < |rows|
      ensures if asc then KeyLe(ProductKey(f, rows[i].product), ProductKey(f, rows[j].product))
              else KeyLe(ProductKey(f, rows[j].product), ProductKey(f, rows[i].product))
    {
      assert InOrder(page[i], page[j], RecordKey(f), asc);
      assert RecordKey(f)(page[i]) == ProductKey(f, rows[i].product);
      assert RecordKey(f)(page[j]) == ProductKey(f, rows[j].product);
    }
  }

  /** How many of `total` matches land on a page that skips `skip` of them and holds at most `limit`. */
  function PageSize(total: nat, skip: nat, limit: nat): nat {
    if skip >= total then 0 else if total - skip < limit then total - skip else limit
  }

  /**
   * The records on the requested page: `$sort`, `$skip` and `$limit` after
   * `$match`, i.e. the sorted matches from position `(page - 1) * limit` on.
   */
  function PageRecords(docs: seq<Record<Product>>, q: ListingQuery, role: Option<string>): (page: seq<Record<Product>>)
    requires PositivePaging(q)
    ensures |page| <= PageLimit(q)
    ensures |page| == PageSize(|SortedMatches(docs, q, role)|, Skip(PageNumber(q), PageLimit(q)), PageLimit(q))
    ensures forall i :: 0 <= i < |page| ==> page[i] == SortedMatches(docs, q, role)[Skip(PageNumber(q), PageLimit(q)) + i]
    ensures forall i :: 0 <= i < |page| ==> page[i] in docs && Matches(page[i].value, BuildCriteria(q, role))
    ensures Sorted(page, RecordKey(ChooseSortField(q.sortBy)), Ascending(q.order))
  {
    var limit := PageLimit(q);
    var skip := Skip(PageNumber(q), limit);
    PageOfSortedMatches(docs, MatchesRecord(BuildCriteria(q, role)), RecordKey(ChooseSortField(q.sortBy)), Ascending(q.order), skip, limit);
    Window(SortedMatches(docs, q, role), skip, limit)
  }

  /** `getProducts` against one snapshot of the collection. */
  function ListProducts(docs: seq<Record<Product>>, q: ListingQuery, role: Option<string>): (r: Listing)
    requires PositivePaging(q)
    ensures r.total == CountWhere(docs, MatchesRecord(BuildCriteria(q, role)))
    ensures r.totalPages == CeilDiv(r.total, PageLimit(q))
    ensures r.currentPage == PageNumber(q)
    ensures |r.products| <= PageLimit(q)
    ensures |r.products| == PageSize(r.total, Skip(PageNumber(q), PageLimit(q)), PageLimit(q))
    ensures forall i :: 0 <= i < |r.products| ==>
      Record(r.products[i].id, r.products[i].product) == SortedMatches(docs, q, role)[Skip(PageNumber(q), PageLimit(q)) + i]
    ensures forall i :: 0 <= i < |r.products| ==>
      Record(r.products[i].id, r.products[i].product) in docs && Matches(r.products[i].product, BuildCriteria(q, role))
    ensures forall i :: 0 <= i < |r.products| ==>
      r.products[i].stockStatus == Classify(r.products[i].product.stock) &&
      r.products[i].isOutOfStock == (r.products[i].product.stock == 0)
    ensures RowsInOrder(r.products, ChooseSortField(q.sortBy), Ascending(q.order))
  {
    var total := CountWhere(docs, MatchesRecord(BuildCriteria(q, role)));
    var page := PageRecords(docs, q, role);
    var rows := AnnotateAll(page);
    AnnotatedRows(page, ChooseSortField(q.sortBy), Ascending(q.order));
    Listing(total, CeilDiv(total, PageLimit(q)), PageNumber(q), rows)
  }

  /** The annotated rows are the page's records, in the same sort order. */
  lemma AnnotatedRows(page: seq<Record<Product>>, f: SortField, asc: bool)
    requires Sorted(page, RecordKey(f), asc)
    ensures var rows := AnnotateAll(page);
      && RowsInOrder(rows, f, asc)
      && forall i :: 0 <= i < |rows| ==> Record(rows[i].id, rows[i].product) == page[i]
  {
    AnnotatedOrder(page, f, asc);
  }

  // ---------------------------------------------------------------- properties

  /** A caller with role "user" is always constrained to active products, whatever status it asked for. */
  lemma UserRoleForcesActive(q: ListingQuery, p: Product)
    ensures BuildCriteria(q, Some("user")).status == Some("active")
    ensures Matches(p, BuildCriteria(q, Some("user"))) ==> p.status == Active
  {
  }

  /** Any other role gets a status constraint exactly when a truthy status was supplied, and then that one. */
  lemma OtherRolesUseRequestedStatus(q: ListingQuery, role: Option<string>)
    requires role != Some("user")
    ensures BuildCriteria(q, role).status.Some? <==> Truthy(q.status)
    ensures Truthy(q.status) ==> BuildCriteria(q, role).status == q.status
  {
  }

  /** Every row listed for a "user" caller is an active product. */
  lemma UserListingIsActiveOnly(docs: seq<Record<Product>>, q: ListingQuery)
    requires PositivePaging(q)
    ensures forall i :: 0 <= i < |ListProducts(docs, q, Some("user")).products| ==>
      ListProducts(docs, q, Some("user")).products[i].product.status == Active
  {
    var r := ListProducts(docs, q, Some("user"));
    forall i | 0 <= i < |r.products| ensures r.products[i].product.status == Active {
      UserRoleForcesActive(q, r.products[i].product);
    }
  }

  /** A price range exists only when a bound was given, and each operator only for its own bound. */
  lemma PriceBoundsOnlyWhenGiven(q: ListingQuery, role: Option<string>)
    ensures BuildCriteria(q, role).price.Some? <==> Truthy(q.priceMin) || Truthy(q.priceMax)
    ensures BuildCriteria(q, role).price.Some? ==>
      var b := BuildCriteria(q, role).price.value;
      && (b.gte.Some? <==> Truthy(q.priceMin)) && (b.lte.Some? <==> Truthy(q.priceMax))
      && b.gt.None? && b.eq.None?
      && (Truthy(q.priceMin) ==> b.gte.value == JsNumber(q.priceMin.value))
      && (Truthy(q.priceMax) ==> b.lte.value == JsNumber(q.priceMax.value))
  {
  }

  /** Without an explicit range or a flag set to "true", stock is unconstrained. */
  lemma StockUnconstrainedWithoutInput(q: ListingQuery)
    requires !Truthy(q.stockMin) && !Truthy(q.stockMax)
    requires !IsTrue(q.lowStock) && !IsTrue(q.medStock) && !IsTrue(q.highStock) && !IsTrue(q.outOfStock)
    ensures StockBounds(q).None?
  {
  }

  /** `stockMax=5` with `lowStock=true`: the flag's `$lte: 10` replaces the explicit 5. */
  lemma LowStockOverwritesMax(q: ListingQuery)
    requires q.stockMin.None? && q.stockMax == Some("5") && IsTrue(q.lowStock)
    requires !IsTrue(q.medStock) && !IsTrue(q.highStock) && !IsTrue(q.outOfStock)
    ensures StockBounds(q) == Some(Bounds(None, Some(Finite(10)), None, None))
    ensures MeetsBounds(8, StockBounds(q).value)
  {
  }

  /** Low followed by medium leaves `{$lte: 20, $gt: 10}`, and an explicit minimum survives. */
  lemma LowThenMediumStock(q: ListingQuery)
    requires !Truthy(q.stockMax) && IsTrue(q.lowStock) && IsTrue(q.medStock)
    requires !IsTrue(q.highStock) && !IsTrue(q.outOfStock)
    ensures StockBounds(q).value.lte == Some(Finite(20)) && StockBounds(q).value.gt == Some(Finite(10))
    ensures StockBounds(q).value.eq.None?
    ensures StockBounds(q).value.gte == if Truthy(q.stockMin) then Some(JsNumber(q.stockMin.value)) else None
  {
  }

  /** Exactly one derived flag and no explicit range. */
  predicate OnlyFlag(q: ListingQuery, low: bool, med: bool, high: bool, out: bool) {
    && !Truthy(q.stockMin) && !Truthy(q.stockMax)
    && IsTrue(q.lowStock) == low && IsTrue(q.medStock) == med
    && IsTrue(q.highStock) == high && IsTrue(q.outOfStock) == out
  }

  /** On its own, each derived flag selects exactly its stock bucket (low also takes out-of-stock and negative stock). */
  lemma FlagsSelectBuckets(q: ListingQuery, stock: int)
    ensures OnlyFlag(q, true, false, false, false) ==>
      (MeetsBounds(stock, StockBounds(q).value) <==> Classify(stock) == Low || Classify(stock) == OutOfStock)
    ensures OnlyFlag(q, false, true, false, false) ==>
      (MeetsBounds(stock, StockBounds(q).value) <==> Classify(stock) == Medium)
    ensures OnlyFlag(q, false, false, true, false) ==>
      (MeetsBounds(stock, StockBounds(q).value) <==> Classify(stock) == High)
    ensures OnlyFlag(q, false, false, false, true) ==>
      (MeetsBounds(stock, StockBounds(q).value) <==> Classify(stock) == OutOfStock)
  {
  }

  /** A single category and a one-element list of it constrain the same way. */
  lemma OneCategoryIsAList(v: string)
    requires v != ""
    ensures CategoryCriterion(Some(One(v))) == CategoryCriterion(Some(Many([v]))) == Some([v])
  {
  }

  /** Search matches name or category, and the case of the search text does not matter. */
  lemma SearchIgnoresCase(q: ListingQuery, role: Option<string>, p: Product)
    requires Truthy(q.search) && Lower(q.search.value) != ""
    ensures Matches(p, BuildCriteria(q, role)) ==
      Matches(p, BuildCriteria(q.(search := Some(Lower(q.search.value))), role))
    ensures Matches(p, BuildCriteria(q, role)) ==>
      ContainsIgnoringCase(p.name, q.search.value) || ContainsIgnoringCase(p.category, q.search.value)
  {
    ContainsIgnoresPatternCase(p.name, q.search.value);
    ContainsIgnoresPatternCase(p.category, q.search.value);
  }

  /** The sort key is always allow-listed; an allow-listed `sortBy` is kept and anything else becomes createdAt. */
  lemma SortFieldAllowList(sortBy: Option<string>)
    ensures FieldName(ChooseSortField(sortBy)) in ["price", "name", "createdAt"]
    ensures sortBy.Some? && sortBy.value in ["price", "name", "createdAt"] ==> FieldName(ChooseSortField(sortBy)) == sortBy.value
    ensures !(sortBy.Some? && sortBy.value in ["price", "name", "createdAt"]) ==> ChooseSortField(sortBy) == ByCreatedAt
  {
  }

  /** Page and limit that are absent, 0 or not numeric become 1 and 10. */
  lemma PagingDefaults(q: ListingQuery)
    ensures (q.page.None? || ParseInt(q.page.value) in {None, Some(0)}) ==> PageNumber(q) == 1
    ensures (q.limit.None? || ParseInt(q.limit.value) in {None, Some(0)}) ==> PageLimit(q) == 10
  {
  }

  /** Two requests that differ only in sorting and paging report the same total. */
  lemma TotalIgnoresPaging(docs: seq<Record<Product>>, q1: ListingQuery, q2: ListingQuery, role: Option<string>)
    requires PositivePaging(q1) && PositivePaging(q2)
    requires q1.(sortBy := None, order := None, page := None, limit := None) ==
             q2.(sortBy := None, order := None, page := None, limit := None)
    ensures ListProducts(docs, q1, role).total == ListProducts(docs, q2, role).total
  {
    assert BuildCriteria(q1, role) == BuildCriteria(q2, role);
  }

  /** A page is empty exactly when its number is past the last page. */
  lemma PagePastLastIsEmpty(docs: seq<Record<Product>>, q: ListingQuery, role: Option<string>)
    requires PositivePaging(q)
    ensures ListProducts(docs, q, role).products == [] <==> PageNumber(q) > ListProducts(docs, q, role).totalPages
  {
    var sorted := SortedMatches(docs, q, role);
    PageNonEmptyIffWithinCount(sorted, PageNumber(q), PageLimit(q));
  }
}
