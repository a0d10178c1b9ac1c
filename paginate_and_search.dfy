/**
 * The generic paginated search used by the user listing: options with
 * defaults, a copy of the caller's filter extended by a case-insensitive OR
 * over the search fields, a one-key sort, skip/limit, the count of all
 * matches, and the page count. A document is seen through `get(doc, field)`.
 */
module PaginateAndSearch {
  import opened Wrappers
  import opened Text
  import opened Sorting
  import opened Pagination
  import opened Tables

  /** `{ [field]: { $regex: pattern, $options: "i" } }`, read as a literal infix test. */
  datatype Clause = Clause(field: string, pattern: string)

  /** Field equalities plus an optional `$or` of search clauses. */
  datatype Query = Query(equal: map<string, Key>, anyOf: Option<seq<Clause>>)

  /** `{ [field]: 1 }` is ascending, `{ [field]: -1 }` descending. */
  datatype SortSpec = SortSpec(field: string, ascending: bool)

  /** The destructured options; an absent one takes its default. */
  datatype Options = Options(
    page: Option<int>,
    limit: Option<int>,
    search: Option<string>,
    searchFields: Option<seq<string>>,
    filter: Option<Query>,
    sort: Option<SortSpec>)

  const EmptyQuery: Query := Query(map[], None)
  const NewestFirst: SortSpec := SortSpec("createdAt", false)

  function PageOf(o: Options): int { o.page.GetOr(1) }
  function LimitOf(o: Options): int { o.limit.GetOr(10) }
  function SearchOf(o: Options): string { o.search.GetOr("") }
  function FieldsOf(o: Options): seq<string> { o.searchFields.GetOr([]) }
  function FilterOf(o: Options): Query { o.filter.GetOr(EmptyQuery) }
  function SortOf(o: Options): SortSpec { o.sort.GetOr(NewestFirst) }

  /** The query sent to the database: the filter, with `$or` replaced when there is something to search. */
  function SearchQuery(filter: Query, search: string, fields: seq<string>): (q: Query)
    ensures q.equal == filter.equal
    ensures search == "" || fields == [] ==> q == filter
    ensures search != "" && fields != [] ==>
      q.anyOf.Some? && |q.anyOf.value| == |fields| &&
      forall i :: 0 <= i < |fields| ==> q.anyOf.value[i] == Clause(fields[i], search)
  {
    if search != "" && |fields| > 0 then
      filter.(anyOf := Some(seq(|fields|, i requires 0 <= i < |fields| => Clause(fields[i], search))))
    else
      filter
  }

  function EffectiveQuery(o: Options): (q: Query)
    ensures q.equal == FilterOf(o).equal
    ensures SearchOf(o) != "" && FieldsOf(o) != [] ==> q.anyOf.Some? && |q.anyOf.value| == |FieldsOf(o)|
  {
    SearchQuery(FilterOf(o), SearchOf(o), FieldsOf(o))
  }

  /** A regex clause matches only a string field containing the pattern, ignoring case. */
  predicate ClauseHolds<T>(doc: T, c: Clause, get: (T, string) -> Key) {
    match get(doc, c.field)
    case Text(s) => ContainsIgnoringCase(s, c.pattern)
    case _ => false
  }

  /** A document satisfies a query when it meets every equality and, given an `$or`, one of its clauses. */
  predicate Satisfies<T>(doc: T, q: Query, get: (T, string) -> Key): (r: bool)
    ensures q.anyOf == Some([]) ==> !r
    ensures q == Query(map[], None) ==> r
  {
    && (forall f :: f in q.equal ==> get(doc, f) == q.equal[f])
    && (q.anyOf.Some? ==> exists i :: 0 <= i < |q.anyOf.value| && ClauseHolds(doc, q.anyOf.value[i], get))
  }

  function Matcher<T>(q: Query, get: (T, string) -> Key): T -> bool {
    (d: T) => Satisfies(d, q, get)
  }

  function SortKey<T>(spec: SortSpec, get: (T, string) -> Key): T -> Key {
    (d: T) => get(d, spec.field)
  }

  datatype Paged<T> = Paged(data: seq<T>, total: nat, page: int, pages: nat)

  /** `paginateAndSearch` over one snapshot of the collection. */
  function Paginate<T(==)>(docs: seq<T>, o: Options, get: (T, string) -> Key): (r: Paged<T>)
    requires PageOf(o) >= 1 && LimitOf(o) >= 1
    ensures r.total == CountWhere(docs, Matcher(EffectiveQuery(o), get))
    ensures r.pages == CeilDiv(r.total, LimitOf(o))
    ensures r.page == PageOf(o)
    ensures |r.data| <= LimitOf(o)
    ensures |r.data| == if Skip(PageOf(o), LimitOf(o)) >= r.total then 0
                        else Min(r.total - Skip(PageOf(o), LimitOf(o)), LimitOf(o))
    ensures forall i :: 0 <= i < |r.data| ==> r.data[i] in docs && Satisfies(r.data[i], EffectiveQuery(o), get)
    ensures Sorted(r.data, SortKey(SortOf(o), get), SortOf(o).ascending)
  {
    var matches := Matcher(EffectiveQuery(o), get);
    var key := SortKey(SortOf(o), get);
    var skip := Skip(PageOf(o), LimitOf(o));
    PageOfSortedMatches(docs, matches, key, SortOf(o).ascending, skip, LimitOf(o));
    var total := CountWhere(docs, matches);
    Paged(Window(SortByKey(Where(docs, matches), key, SortOf(o).ascending), skip, LimitOf(o)),
          total, PageOf(o), CeilDiv(total, LimitOf(o)))
  }

  function Min(a: int, b: int): int { if a < b then a else b }

  // ---------------------------------------------------------------- properties

  /** A filter with one equality and no `$or` holds exactly when that field has that value. */
  lemma SatisfiesOneField<T>(doc: T, field: string, k: Key, get: (T, string) -> Key)
    ensures Satisfies(doc, Query(map[field := k], None), get) <==> get(doc, field) == k
  {
  }

  /** The empty filter holds for every document. */
  lemma SatisfiesNoField<T>(doc: T, get: (T, string) -> Key)
    ensures Satisfies(doc, Query(map[], None), get)
  {
  }

  /** Omitted options: first page of ten, no search, empty filter, newest first. */
  lemma Defaults()
    ensures var o := Options(None, None, None, None, None, None);
      PageOf(o) == 1 && LimitOf(o) == 10 && EffectiveQuery(o) == EmptyQuery &&
      SortOf(o) == SortSpec("createdAt", false)
  {
  }

  /**
   * With a search and at least one field, a document matches iff it meets
   * every filter equality and some field contains the search text; an
   * `$or` the filter had is discarded.
   */
  lemma {:induction false} SearchIsAnyField<T>(doc: T, o: Options, get: (T, string) -> Key)
    requires SearchOf(o) != "" && FieldsOf(o) != []
    ensures Satisfies(doc, EffectiveQuery(o), get) <==>
      (forall f :: f in FilterOf(o).equal ==> get(doc, f) == FilterOf(o).equal[f]) &&
      exists i :: 0 <= i < |FieldsOf(o)| && ClauseHolds(doc, Clause(FieldsOf(o)[i], SearchOf(o)), get)
  {
    var q := EffectiveQuery(o);
    var fields := FieldsOf(o);
    if exists i :: 0 <= i < |fields| && ClauseHolds(doc, Clause(fields[i], SearchOf(o)), get) {
      var i :| 0 <= i < |fields| && ClauseHolds(doc, Clause(fields[i], SearchOf(o)), get);
      assert q.anyOf.value[i] == Clause(fields[i], SearchOf(o));
    }
    if q.anyOf.Some? && exists i :: 0 <= i < |q.anyOf.value| && ClauseHolds(doc, q.anyOf.value[i], get) {
      var i :| 0 <= i < |q.anyOf.value| && ClauseHolds(doc, q.anyOf.value[i], get);
      assert q.anyOf.value[i] == Clause(fields[i], SearchOf(o));
    }
  }

  /** Without a search text or without fields, the query is the caller's filter unchanged. */
  lemma NoSearchKeepsFilter(o: Options)
    requires SearchOf(o) == "" || FieldsOf(o) == []
    ensures EffectiveQuery(o) == FilterOf(o)
  {
  }

  /** The count ignores the page, the page size and the sort. */
  lemma {:induction false} TotalIgnoresPaging<T>(docs: seq<T>, a: Options, b: Options, get: (T, string) -> Key)
    requires PageOf(a) >= 1 && LimitOf(a) >= 1 && PageOf(b) >= 1 && LimitOf(b) >= 1
    requires a.search == b.search && a.searchFields == b.searchFields && a.filter == b.filter
    ensures Paginate(docs, a, get).total == Paginate(docs, b, get).total
  {
    assert EffectiveQuery(a) == EffectiveQuery(b);
  }
}
