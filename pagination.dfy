/**
 * Page arithmetic shared by the product listing and the generic paginated
 * search: `skip = (page - 1) * limit`, a window of at most `limit` items, and
 * `Math.ceil(total / limit)` pages.
 */
module Pagination {
  import opened Tables
  import opened Sorting

  /** `Math.ceil(total / limit)` for a positive limit. */
  function CeilDiv(total: nat, limit: int): (pages: nat)
    requires limit >= 1
    ensures total <= pages * limit
    ensures pages == 0 || (pages - 1) * limit < total
    ensures pages == 0 <==> total == 0
  {
    (total + limit - 1) / limit
  }

  /** `skip = (page - 1) * limit`. */
  function Skip(page: int, limit: int): (skip: nat)
    requires page >= 1 && limit >= 1
    ensures skip == (page - 1) * limit
  {
    MulNonNegative(page - 1, limit);
    (page - 1) * limit
  }

  lemma MulNonNegative(a: int, b: int)
    requires a >= 0 && b >= 0
    ensures a * b >= 0
  {
  }

  lemma MulMonotone(a: int, b: int, c: int)
    requires a <= b && c >= 0
    ensures a * c <= b * c
  {
  }

  /** `.skip(skip).limit(limit)` over an already ordered sequence. */
  function Window<T>(s: seq<T>, skip: nat, limit: nat): (r: seq<T>)
    ensures |r| <= limit
    ensures |r| == if skip >= |s| then 0 else if |s| - skip < limit then |s| - skip else limit
    ensures forall i :: 0 <= i < |r| ==> r[i] == s[skip + i]
  {
    if skip >= |s| then [] else s[skip..if skip + limit <= |s| then skip + limit else |s|]
  }

  lemma WindowElementsFromSource<T>(s: seq<T>, skip: nat, limit: nat)
    ensures multiset(Window(s, skip, limit)) <= multiset(s)
  {
    if skip < |s| {
      var hi := if skip + limit <= |s| then skip + limit else |s|;
      assert s == s[..skip] + s[skip..hi] + s[hi..];
    }
  }

  /** A page is non-empty exactly when its number is at most the page count. */
  lemma {:induction false} PageNonEmptyIffWithinCount<T>(s: seq<T>, page: int, limit: int)
    requires page >= 1 && limit >= 1
    ensures Window(s, Skip(page, limit), limit) != [] <==> page <= CeilDiv(|s|, limit)
  {
    var pages := CeilDiv(|s|, limit);
    if page <= pages {
      MulMonotone(page - 1, pages - 1, limit);
    } else {
      MulMonotone(pages, page - 1, limit);
    }
  }

  /** The last page holds what the earlier full pages leave over. */
  lemma LastPageSize<T>(s: seq<T>, limit: int)
    requires limit >= 1 && |s| > 0
    ensures |Window(s, Skip(CeilDiv(|s|, limit), limit), limit)| == |s| - (CeilDiv(|s|, limit) - 1) * limit
  {
    var pages := CeilDiv(|s|, limit);
    assert pages * limit == (pages - 1) * limit + limit;
  }

  /** 25 items in pages of 10: three pages, the third holding 5. */
  lemma TwentyFiveInPagesOfTen<T>(s: seq<T>)
    requires |s| == 25
    ensures CeilDiv(|s|, 10) == 3
    ensures |Window(s, Skip(3, 10), 10)| == 5
    ensures Window(s, Skip(4, 10), 10) == []
  {
  }

  /** A window of the sorted matches holds only matching documents of the collection, still in order. */
  lemma PageOfSortedMatches<T>(docs: seq<T>, p: T -> bool, key: T -> Key, asc: bool, skip: nat, limit: nat)
    ensures var page := Window(SortByKey(Where(docs, p), key, asc), skip, limit);
      && (forall i :: 0 <= i < |page| ==> page[i] in docs && p(page[i]))
      && Sorted(page, key, asc)
  {
    var matched := Where(docs, p);
    var sorted := SortByKey(matched, key, asc);
    var page := Window(sorted, skip, limit);
    forall i | 0 <= i < |page| ensures page[i] in docs && p(page[i]) {
      assert page[i] == sorted[skip + i];
      assert sorted[skip + i] in multiset(matched);
      var m :| 0 <= m < |matched| && matched[m] == sorted[skip + i];
      assert matched[m] in multiset(docs);
    }
    forall i, j | 0 <= i < j < |page| ensures InOrder(page[i], page[j], key, asc) {
      assert page[i] == sorted[skip + i] && page[j] == sorted[skip + j];
    }
  }
}
