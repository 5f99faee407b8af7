/** The paging arithmetic shared by the list endpoints: `parseInt(x, 10) || d`,
  * `startIndex = (page - 1) * limit`, MongoDB's `skip`/`limit` window,
  * `Math.ceil(total / limit)` and the `next`/`prev` links. */
module Paging {
  import opened Common
  import Strings

  // ------------------------------------------------------------ parseInt

  function DigitValue(c: char): (d: nat)
    requires '0' <= c <= '9'
    ensures d < 10
  {
    (c - '0') as nat
  }

  /** The value of the longest run of decimal digits at the start of `s`, and its length. */
  function LeadingDigits(s: string): (r: (nat, nat))
    ensures r.1 <= |s|
    ensures forall k :: 0 <= k < r.1 ==> '0' <= s[k] <= '9'
    ensures r.1 < |s| ==> !('0' <= s[r.1] <= '9')
    ensures r.1 == 0 <==> s == [] || !('0' <= s[0] <= '9')
    decreases |s|
  {
    if s == [] || !('0' <= s[0] <= '9') then (0, 0)
    else
      var rest := LeadingDigits(s[1..]);
      (DigitValue(s[0]) * Pow10(rest.1) + rest.0, rest.1 + 1)
  }

  function Pow10(n: nat): (p: nat)
    ensures p >= 1
  {
    if n == 0 then 1 else 10 * Pow10(n - 1)
  }

  /** `parseInt(s, 10)`: leading whitespace skipped, an optional sign, then decimal
    * digits up to the first other character; `None` stands for `NaN` (no digits). */
  function ParseInt(s: string): (r: Option<int>)
    ensures r.None? <==> (var t := Strings.TrimStart(s);
                          var u := if t != [] && (t[0] == '+' || t[0] == '-') then t[1..] else t;
                          u == [] || !('0' <= u[0] <= '9'))
  {
    var t := Strings.TrimStart(s);
    var negative := t != [] && t[0] == '-';
    var u := if t != [] && (t[0] == '+' || t[0] == '-') then t[1..] else t;
    var (value, count) := LeadingDigits(u);
    if count == 0 then None else Some(if negative then -(value as int) else value)
  }

  /** `parseInt(param, 10) || d`: a missing parameter, `NaN` and `0` all give the default. */
  function ParseIntOr(param: Option<string>, d: int): (r: int)
    ensures param.None? ==> r == d
    ensures param.Some? && ParseInt(param.value).Some? && ParseInt(param.value).value != 0 ==>
      r == ParseInt(param.value).value
    ensures r == 0 ==> d == 0
  {
    if param.None? then d
    else
      var n := ParseInt(param.value);
      if n.None? || n.value == 0 then d else n.value
  }

  // -------------------------------------------------------------- window

  function Min(a: int, b: int): int { if a <= b then a else b }
  function Abs(a: int): nat { if a < 0 then -a else a }

  /** `(page - 1) * limit`. */
  function StartIndex(page: int, limit: int): int
  {
    (page - 1) * limit
  }

  /** MongoDB's `.skip(skip).limit(limit)` over an ordered result for a
    * non-negative skip: `limit(0)` means no limit, a negative limit its absolute value. */
  function Window<T>(items: seq<T>, skip: nat, limit: int): (r: seq<T>)
    ensures |r| == WindowSize(|items|, skip, limit)
    ensures forall k :: 0 <= k < |r| ==> skip + k < |items| && r[k] == items[skip + k]
  {
    var rest := if skip <= |items| then items[skip..] else [];
    var n := if limit == 0 then |rest| else Abs(limit);
    if n >= |rest| then rest else rest[..n]
  }

  /** The number of documents the window returns out of `total` matches. */
  function WindowSize(total: nat, skip: nat, limit: int): (n: nat)
    ensures n <= total && (skip <= total ==> skip + n <= total)
    ensures skip >= total ==> n == 0
  {
    var rest := if skip <= total then total - skip else 0;
    if limit == 0 || Abs(limit) >= rest then rest else Abs(limit)
  }

  // --------------------------------------------------------- pagination

  /** `Math.ceil(total / limit)`; `None` for a zero limit, where the quotient
    * is `Infinity` or `NaN`, both of which JSON renders as `null`. */
  function TotalPages(total: nat, limit: int): (r: Option<int>)
    ensures r.None? <==> limit == 0
    ensures limit > 0 ==> r.value >= 0 && r.value * limit >= total && (r.value == 0 || (r.value - 1) * limit < total)
  {
    if limit == 0 then None
    else if limit > 0 then
      var q := (total + limit - 1) / limit;
      CeilBounds(total, limit, q);
      Some(q)
    else Some(-(total / -limit))
  }

  lemma CeilBounds(total: nat, limit: int, q: int)
    requires limit > 0 && q == (total + limit - 1) / limit
    ensures q >= 0 && q * limit >= total && (q == 0 || (q - 1) * limit < total)
  {
    var m := total + limit - 1;
    assert q * limit + m % limit == m;
    assert 0 <= m % limit < limit;
  }

  /** The `next` link is present when `startIndex + count < total`. */
  predicate HasNext(startIndex: int, count: nat, total: nat)
  {
    startIndex + count < total
  }

  /** The `prev` link is present when `startIndex > 0`. */
  predicate HasPrev(startIndex: int)
  {
    startIndex > 0
  }

  /** With a positive limit and a page from 1 on, `next` appears exactly when
    * the page is before the last one and `prev` exactly after the first. */
  lemma LinksMatchPages(page: int, limit: int, total: nat)
    requires limit > 0 && page >= 1
    ensures var start := StartIndex(page, limit);
      start >= 0 &&
      (HasNext(start, WindowSize(total, start, limit), total) <==> page < TotalPages(total, limit).value) &&
      (HasPrev(start) <==> page > 1)
  {
    var start := StartIndex(page, limit);
    var pages := TotalPages(total, limit).value;
    assert start >= 0 by { MulNonNeg(page - 1, limit); }
    if start < total {
      assert start + limit == page * limit;
      if page < pages {
        MulMonotone(page, pages - 1, limit);
      } else {
        MulMonotone(pages, page, limit);
      }
    } else if pages > 0 {
      MulStrictCancel(pages - 1, page - 1, limit);
    }
    if page > 1 { MulPos(page - 1, limit); }
  }

  // ------------------------------------------------------ list endpoints

  /** The `pagination` object of the post and article lists: the `next` and
    * `prev` links carry the neighbouring page numbers. */
  datatype Pagination = Pagination(next: Option<int>, prev: Option<int>, totalPages: Option<int>,
                                   currentPage: int, totalResults: nat)

  /** A list request either fails on a negative skip or answers `count` documents. */
  datatype PageOutcome = SkipRejected | Paged(count: nat, pagination: Pagination)

  /** `getPosts` / `getArticles` once the filter has matched `total` documents:
    * `page` and `limit` are `parseInt(…, 10) || default`. */
  function Paginate(pageParam: Option<string>, limitParam: Option<string>, defaultLimit: int, total: nat): (r: PageOutcome)
    ensures var page := ParseIntOr(pageParam, 1);
      var limit := ParseIntOr(limitParam, defaultLimit);
      var start := StartIndex(page, limit);
      (r.SkipRejected? <==> start < 0) &&
      (r.Paged? ==>
        r.count == WindowSize(total, start, limit) &&
        (r.pagination.next.Some? <==> HasNext(start, r.count, total)) &&
        (r.pagination.prev.Some? <==> HasPrev(start)) &&
        (r.pagination.next.Some? ==> r.pagination.next.value == page + 1) &&
        (r.pagination.prev.Some? ==> r.pagination.prev.value == page - 1) &&
        r.pagination.totalPages == TotalPages(total, limit) &&
        r.pagination.currentPage == page && r.pagination.totalResults == total)
  {
    var page := ParseIntOr(pageParam, 1);
    var limit := ParseIntOr(limitParam, defaultLimit);
    var start := StartIndex(page, limit);
    if start < 0 then SkipRejected
    else
      var count := WindowSize(total, start, limit);
      Paged(count, Pagination(if HasNext(start, count, total) then Some(page + 1) else None,
                              if HasPrev(start) then Some(page - 1) else None,
                              TotalPages(total, limit), page, total))
  }

  /** For a positive page and limit the links agree with the page count: a
    * `next` link exactly before the last page, a `prev` link exactly after the first. */
  lemma PaginateLinks(pageParam: Option<string>, limitParam: Option<string>, defaultLimit: int, total: nat)
    requires ParseIntOr(pageParam, 1) >= 1 && ParseIntOr(limitParam, defaultLimit) > 0
    ensures var r := Paginate(pageParam, limitParam, defaultLimit, total);
      var page := ParseIntOr(pageParam, 1);
      r.Paged? && r.pagination.totalPages.Some? &&
      (r.pagination.next.Some? <==> page < r.pagination.totalPages.value) &&
      (r.pagination.prev.Some? <==> page > 1)
  {
    LinksMatchPages(ParseIntOr(pageParam, 1), ParseIntOr(limitParam, defaultLimit), total);
  }

  /** A request without paging parameters gets the first page: no `prev`, and a
    * `next` link exactly when more than `defaultLimit` documents matched. */
  lemma PaginateDefaults(defaultLimit: int, total: nat)
    requires defaultLimit > 0
    ensures var r := Paginate(None, None, defaultLimit, total);
      r.Paged? && r.pagination.currentPage == 1 && r.pagination.prev.None? &&
      r.count == Min(defaultLimit, total) && (r.pagination.next.Some? <==> total > defaultLimit)
  {
  }

  const DEFAULT_SORT: string := "-createdAt"

  /** `req.query.sort || '-createdAt'`, with `popular` and `comments` rewritten
    * to the virtual counts; any other value is passed to `sort` as given. */
  function SortOption(sort: Option<string>): (r: string)
    ensures !Truthy(sort) ==> r == DEFAULT_SORT
    ensures Truthy(sort) && sort.value == "popular" ==> r == "-likeCount"
    ensures Truthy(sort) && sort.value == "comments" ==> r == "-commentCount"
    ensures Truthy(sort) && sort.value != "popular" && sort.value != "comments" ==> r == sort.value
  {
    var s := if Truthy(sort) then sort.value else DEFAULT_SORT;
    if s == "popular" then "-likeCount"
    else if s == "comments" then "-commentCount"
    else s
  }

  /** Rewriting is idempotent: a rewritten key is passed through unchanged. */
  lemma SortOptionIdempotent(sort: Option<string>)
    ensures SortOption(Some(SortOption(sort))) == SortOption(sort)
  {
    var r := SortOption(sort);
    assert r != "" && r != "popular" && r != "comments" by {
      if !Truthy(sort) { assert r == DEFAULT_SORT; }
      else if sort.value == "popular" { assert r == "-likeCount"; }
      else if sort.value == "comments" { assert r == "-commentCount"; }
    }
  }

  lemma MulStrictCancel(a: int, b: int, c: int)
    requires c > 0 && a * c < b * c
    ensures a < b
  {
    if a >= b { MulMonotone(b, a, c); }
  }

  lemma MulNonNeg(a: int, b: int)
    requires a >= 0 && b >= 0
    ensures a * b >= 0
  {
  }

  lemma MulPos(a: int, b: int)
    requires a > 0 && b > 0
    ensures a * b > 0
  {
  }

  lemma MulMonotone(a: int, b: int, c: int)
    requires a <= b && c >= 0
    ensures a * c <= b * c
  {
  }
}
