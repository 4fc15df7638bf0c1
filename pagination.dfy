/** The paging arithmetic the list handlers share: `page` and `limit` from the
    query string, `skip = (page - 1) * limit` and `pages = ceil(total / limit)`. */
module Pagination {
  import opened Common

  const DefaultPage: int := 1
  const DefaultLimit: int := 10

  datatype Paging = Paging(page: int, limit: int, skip: int)

  /** `parseInt(x) || d`: an absent or unparsable value (`None`, `NaN`) or a 0
      falls back to the default. */
  function OrDefault(x: Option<int>, d: int): (r: int)
    ensures x.None? ==> r == d
    ensures x.Some? && x.value == 0 ==> r == d
    ensures x.Some? && x.value != 0 ==> r == x.value
  {
    if x.None? || x.value == 0 then d else x.value
  }

  /** The route validators admit `page >= 1` and `1 <= limit <= 100` when present. */
  predicate QueryAdmitted(page: Option<int>, limit: Option<int>)
  {
    (page.Some? ==> page.value >= 1) && (limit.Some? ==> 1 <= limit.value <= 100)
  }

  function ReadPaging(page: Option<int>, limit: Option<int>): (p: Paging)
    requires QueryAdmitted(page, limit)
    ensures p.page >= 1 && 1 <= p.limit <= 100
    ensures page.None? ==> p.page == 1
    ensures limit.None? ==> p.limit == 10
    ensures p.page == OrDefault(page, DefaultPage) && p.limit == OrDefault(limit, DefaultLimit)
    ensures p.skip == (p.page - 1) * p.limit && p.skip >= 0
  {
    var pg := OrDefault(page, DefaultPage);
    var lim := OrDefault(limit, DefaultLimit);
    Paging(pg, lim, (pg - 1) * lim)
  }

  /** `Math.ceil(total / limit)`: the least number of pages that hold `total` items. */
  function PageCount(total: nat, limit: int): (pages: nat)
    requires limit > 0
    ensures pages * limit >= total
    ensures pages > 0 ==> (pages - 1) * limit < total
  {
    (total + limit - 1) / limit
  }

  /** `.skip(skip).limit(limit)` on a result list. */
  function Window<T>(s: seq<T>, skip: nat, limit: nat): (w: seq<T>)
    ensures |w| <= limit
    ensures forall j :: 0 <= j < |w| ==> skip + j < |s| && w[j] == s[skip + j]
  {
    if skip >= |s| then []
    else if skip + limit >= |s| then s[skip..]
    else s[skip..skip + limit]
  }

  /** Page `page` (from 1) holds something exactly when `page <= pages`. */
  lemma PageNonEmptyIff<T>(s: seq<T>, page: int, limit: int)
    requires page >= 1 && limit >= 1
    ensures |Window(s, (page - 1) * limit, limit)| > 0 <==> page <= PageCount(|s|, limit)
  {
    var pages := PageCount(|s|, limit);
    if page <= pages {
      assert (page - 1) * limit <= (pages - 1) * limit by {
        MulMonotone(page - 1, pages - 1, limit);
      }
    } else {
      assert pages * limit <= (page - 1) * limit by {
        MulMonotone(pages, page - 1, limit);
      }
    }
  }

  /** Every item lies on the page `i / limit + 1`, at offset `i % limit`. */
  lemma ItemOnPage<T>(s: seq<T>, limit: int, i: nat)
    requires limit >= 1 && i < |s|
    ensures var page := i / limit + 1;
      && page <= PageCount(|s|, limit)
      && i % limit < |Window(s, (page - 1) * limit, limit)|
      && Window(s, (page - 1) * limit, limit)[i % limit] == s[i]
  {
    var page := i / limit + 1;
    assert (page - 1) * limit + i % limit == i;
    PageNonEmptyIff(s, page, limit);
  }

  lemma MulMonotone(a: int, b: int, c: int)
    requires a <= b && c >= 0
    ensures a * c <= b * c
  {
  }
}
