/** The listing page's data flow (src/app/homepage/page.tsx): the query
    `fetchStartups` sends for a page and a committed search, a reference
    semantics for that query over an in-memory table, the page count, and
    the page state the search box, the fetch effect and the responses move. */
module Listing {
  import opened Wrappers
  import opened Text
  import Seqs

  const PageSize: nat := 9

  /** One row of `StartupInfo` as the listing selects it. */
  datatype Startup = Startup(id: int, name: string, description: string, hashtags: seq<string>)

  // ----- the query descriptor -----

  /** The inclusive zero-based offsets passed to `.range(from, to)`. */
  datatype Range = Range(from: int, to: int)

  /** The rows of page `page` (1-based): nine offsets, starting at
      `(page - 1) * 9`. */
  function PageRange(page: int): (r: Range)
    ensures r.to - r.from + 1 == PageSize
    ensures r.from % PageSize == 0
    ensures page >= 1 <==> r.from >= 0
  {
    var from := (page - 1) * PageSize;
    Range(from, from + PageSize - 1)
  }

  /** Consecutive pages are adjacent: no offset is skipped between them. */
  lemma ConsecutivePagesAdjacent(page: int)
    ensures PageRange(page).to + 1 == PageRange(page + 1).from
  {
  }

  /** Distinct pages have disjoint ranges, and every offset lies on exactly
      the page `offset / 9 + 1`. */
  lemma PageRangesPartitionOffsets(offset: nat, page: int)
    ensures PageRange(page).from <= offset <= PageRange(page).to <==> page == offset / PageSize + 1
  {
  }

  /** The three search modes of `fetchStartups`. */
  datatype Filter =
    | NoFilter
      /** `.contains("hashtags", [tag])` */
    | TagContains(tag: string)
      /** `.or("name.ilike.<pattern>,description.ilike.<pattern>")` */
    | NameOrDescriptionLike(pattern: string)

  /** `select(..., {count: "exact"}).order("id", {ascending: false}).range(...)`
      plus the optional filter. */
  datatype ListingQuery = ListingQuery(range: Range, filter: Filter)

  /** `t.slice(1).toLowerCase()` for a text starting with `#`. */
  function TagOfHashQuery(t: string): (tag: string)
    requires StartsWith(t, "#")
    ensures "#" + tag == ToLower(t) && !HasUpper(tag) && |tag| == |t| - 1
  {
    var tag := ToLower(t[1..]);
    assert !HasUpper(tag) by { LowerHasNoUpper(t[1..]); }
    assert ToLower(t) == [LowerChar(t[0])] + tag by {
      assert t == [t[0]] + t[1..];
    }
    tag
  }

  /** The search-mode switch on the committed search text. */
  function SearchFilter(q: string): (f: Filter)
    ensures IsBlank(q) ==> f == NoFilter
    ensures f.TagContains? <==> StartsWith(Trim(q), "#") && |Trim(q)| > 1
    ensures f.TagContains? ==> "#" + f.tag == ToLower(Trim(q)) && !HasUpper(f.tag) && f.tag != ""
    ensures f.NameOrDescriptionLike? <==> !IsBlank(q) && !StartsWith(Trim(q), "#")
    ensures f.NameOrDescriptionLike? ==> f.pattern == "%" + Trim(q) + "%"
  {
    var t := Trim(q);
    if t == "" then NoFilter
    else if StartsWith(t, "#") then
      var tag := TagOfHashQuery(t);
      if tag != "" then TagContains(tag) else NoFilter
    else NameOrDescriptionLike("%" + t + "%")
  }

  /** The query `fetchStartups(page, q)` sends: the nine offsets of the
      page, and no filter exactly when the search text is blank or a lone
      `#`. */
  function BuildQuery(page: int, q: string): (query: ListingQuery)
    ensures query.range.from == (page - 1) * PageSize && query.range.to == page * PageSize - 1
    ensures query.filter == SearchFilter(q)
    ensures query.filter.NoFilter? <==> IsBlank(q) || Trim(q) == "#"
  {
    ListingQuery(PageRange(page), SearchFilter(q))
  }

  // ----- a reference semantics for the query -----

  /** `ilike` with a pattern of the shape `%core%`: case-insensitive
      substring search for `core`. */
  predicate IlikeSubstring(text: string, pattern: string) {
    && |pattern| >= 2 && pattern[0] == '%' && pattern[|pattern| - 1] == '%'
    && Contains(ToLower(text), ToLower(pattern[1..|pattern| - 1]))
  }

  predicate Matches(s: Startup, f: Filter) {
    match f
    case NoFilter => true
    case TagContains(tag) => tag in s.hashtags
    case NameOrDescriptionLike(p) => IlikeSubstring(s.name, p) || IlikeSubstring(s.description, p)
  }

  /** A plain-text search matches a row exactly when the trimmed search
      text occurs, ignoring case, in its name or its description. */
  lemma TextSearchIsSubstring(s: Startup, q: string)
    requires !IsBlank(q) && !StartsWith(Trim(q), "#")
    ensures Matches(s, SearchFilter(q)) <==>
      Contains(ToLower(s.name), ToLower(Trim(q))) || Contains(ToLower(s.description), ToLower(Trim(q)))
  {
    var t := Trim(q);
    assert t != "" && t[0] != '#' by {
      assert !StartsWith(t, "#");
    }
    PlainQueryFiltersOnText(q, t);
    IlikeOfWrapped(s.name, t);
    IlikeOfWrapped(s.description, t);
  }

  /** `ilike '%t%'` is a case-insensitive search for `t`. */
  lemma IlikeOfWrapped(text: string, t: string)
    ensures IlikeSubstring(text, "%" + t + "%") <==> Contains(ToLower(text), ToLower(t))
  {
    var p := "%" + t + "%";
    assert p[0] == '%' && p[|p| - 1] == '%';
    assert p[1..|p| - 1] == t;
  }

  /** The table in the order `.order("id", {ascending: false})` reads it:
      ids strictly decreasing, so each id occurs once. */
  predicate NewestFirst(table: seq<Startup>) {
    forall i, j :: 0 <= i < j < |table| ==> table[i].id > table[j].id
  }

  /** The rows satisfying the filter, in table order. */
  function MatchingRows(table: seq<Startup>, f: Filter): (rows: seq<Startup>)
    ensures |rows| <= |table|
    ensures forall k :: 0 <= k < |rows| ==> Matches(rows[k], f) && rows[k] in table
    ensures forall s :: s in table && Matches(s, f) ==> s in rows
    ensures NewestFirst(table) ==> NewestFirst(rows)
  {
    if |table| == 0 then []
    else
      var rest := MatchingRows(table[1..], f);
      if Matches(table[0], f) then
        assert forall k :: 0 <= k < |rest| ==> rest[k] in table[1..];
        [table[0]] + rest
      else rest
  }

  /** The rows at offsets `from..to` of `rows`; offsets past the end hold
      nothing. */
  function Window(rows: seq<Startup>, r: Range): (w: seq<Startup>)
    requires 0 <= r.from <= r.to + 1
    ensures |w| <= r.to - r.from + 1
    ensures |w| == if r.from >= |rows| then 0 else Min(r.to - r.from + 1, |rows| - r.from)
    ensures forall k :: 0 <= k < |w| ==> r.from + k < |rows| && w[k] == rows[r.from + k]
  {
    if r.from >= |rows| then []
    else if r.to + 1 <= |rows| then rows[r.from..r.to + 1]
    else rows[r.from..]
  }

  /** `{data, count}` of a successful query. */
  datatype PageResult = PageResult(rows: seq<Startup>, count: nat)

  /** What the store answers to a query on `table`: at most nine matching
      rows, newest first, and the number of ALL matching rows. */
  function Execute(table: seq<Startup>, query: ListingQuery): (r: PageResult)
    requires query.range.from >= 0 && query.range.to - query.range.from + 1 == PageSize
    ensures |r.rows| <= PageSize
    ensures r.count == |MatchingRows(table, query.filter)|
    ensures forall k :: 0 <= k < |r.rows| ==> Matches(r.rows[k], query.filter)
    ensures r.rows == Window(MatchingRows(table, query.filter), query.range)
  {
    var rows := MatchingRows(table, query.filter);
    PageResult(Window(rows, query.range), |rows|)
  }

  /** Page `n` of a query shows the matching rows from offset `(n - 1) * 9`
      up to offset `n * 9`, cut at the last matching row. */
  lemma PageShowsItsMatches(table: seq<Startup>, f: Filter, n: nat)
    requires n >= 1
    ensures var rows := MatchingRows(table, f);
      && Min((n - 1) * PageSize, |rows|) <= Min(n * PageSize, |rows|)
      && Execute(table, ListingQuery(PageRange(n), f)).rows
         == rows[Min((n - 1) * PageSize, |rows|)..Min(n * PageSize, |rows|)]
  {
    WindowIsSlice(MatchingRows(table, f), n);
  }

  /** Pages 1..n, read one after the other, are exactly the first `9 * n`
      matching rows: no row is skipped and none is read twice. */
  lemma {:induction false} PagesReadInOrder(rows: seq<Startup>, n: nat)
    ensures PagesUpTo(rows, n) == rows[..Min(n * PageSize, |rows|)]
  {
    if n > 0 {
      PagesReadInOrder(rows, n - 1);
      var lo := Min((n - 1) * PageSize, |rows|);
      var hi := Min(n * PageSize, |rows|);
      WindowIsSlice(rows, n);
      Seqs.PrefixThenSlice(rows, lo, hi);
    }
  }

  /** Page `n` is the slice of rows from `(n - 1) * 9` to `n * 9`, cut at
      the end of the rows. */
  lemma WindowIsSlice(rows: seq<Startup>, n: nat)
    requires n >= 1
    ensures Min((n - 1) * PageSize, |rows|) <= Min(n * PageSize, |rows|)
    ensures Window(rows, PageRange(n))
         == rows[Min((n - 1) * PageSize, |rows|)..Min(n * PageSize, |rows|)]
  {
    var from := (n - 1) * PageSize;
    assert n * PageSize == from + PageSize;
    var r := PageRange(n);
    assert r.from == from && r.to == from + PageSize - 1;
  }

  function Min(a: int, b: int): int {
    if a <= b then a else b
  }

  /** The rows of pages 1..n, concatenated. */
  function PagesUpTo(rows: seq<Startup>, n: nat): seq<Startup> {
    if n == 0 then [] else PagesUpTo(rows, n - 1) + Window(rows, PageRange(n))
  }

  /** A later page starts after an earlier page ends. */
  lemma LaterPageStartsAfter(p: int, q: int)
    requires p < q
    ensures PageRange(p).to < PageRange(q).from
  {
    assert (q - 1) * PageSize - (p - 1) * PageSize == (q - p) * PageSize;
  }

  lemma DistinctWindowsShareNoRow(rows: seq<Startup>, p: int, q: int)
    requires NewestFirst(rows) && p >= 1 && q >= 1 && p != q
    ensures var a, b := Window(rows, PageRange(p)), Window(rows, PageRange(q));
      forall i, j :: 0 <= i < |a| && 0 <= j < |b| ==> a[i].id != b[j].id
  {
    var a := Window(rows, PageRange(p));
    var b := Window(rows, PageRange(q));
    if p < q { LaterPageStartsAfter(p, q); } else { LaterPageStartsAfter(q, p); }
    forall i, j | 0 <= i < |a| && 0 <= j < |b| ensures a[i].id != b[j].id {
      var oi, oj := PageRange(p).from + i, PageRange(q).from + j;
      assert a[i] == rows[oi] && b[j] == rows[oj];
      assert oi != oj;
    }
  }

  /** Two different pages of one query never show the same startup. */
  lemma DistinctPagesShareNoRow(table: seq<Startup>, f: Filter, p: int, q: int)
    requires NewestFirst(table) && p >= 1 && q >= 1 && p != q
    ensures var a, b := Execute(table, ListingQuery(PageRange(p), f)).rows,
                        Execute(table, ListingQuery(PageRange(q), f)).rows;
      forall i, j :: 0 <= i < |a| && 0 <= j < |b| ==> a[i].id != b[j].id
  {
    DistinctWindowsShareNoRow(MatchingRows(table, f), p, q);
  }

  // ----- page count -----

  /** `Math.max(1, Math.ceil(totalCount / PAGE_SIZE))`. */
  function TotalPages(count: nat): (n: nat)
    ensures n >= 1
    ensures count == 0 ==> n == 1
    ensures count > 0 ==> (n - 1) * PageSize < count <= n * PageSize
  {
    var pages := (count + PageSize - 1) / PageSize;
    if pages < 1 then 1 else pages
  }

  /** Reading pages 1..TotalPages(count) yields every matching row. */
  lemma AllPagesCoverAllRows(table: seq<Startup>, f: Filter)
    ensures PagesUpTo(MatchingRows(table, f), TotalPages(|MatchingRows(table, f)|))
         == MatchingRows(table, f)
  {
    var rows := MatchingRows(table, f);
    PagesReadInOrder(rows, TotalPages(|rows|));
  }

  /** A `#tag` search filters on the lower-cased tag. */
  lemma HashQueryFiltersOnTag(q: string, tag: string)
    requires Trim(q) == "#" + tag && tag != ""
    ensures SearchFilter(q) == TagContains(ToLower(tag))
  {
    var f := SearchFilter(q);
    assert StartsWith(Trim(q), "#");
    assert ToLower(Trim(q)) == "#" + ToLower(tag) by {
      assert LowerChar('#') == '#';
    }
    assert ("#" + f.tag)[1..] == f.tag;
  }

  /** Any other non-blank search is a pattern search on the trimmed text. */
  lemma PlainQueryFiltersOnText(q: string, text: string)
    requires Trim(q) == text && text != "" && text[0] != '#'
    ensures SearchFilter(q) == NameOrDescriptionLike("%" + text + "%")
  {
    assert !StartsWith(text, "#");
  }

  /** A tag search and a text search for the same word are different
      searches: a row whose description mentions the word but whose tags do
      not is found by the text search only. */
  lemma TagSearchDiffersFromTextSearch(row: Startup, word: string)
    requires word != "" && word[0] != '#' && NoneOf(word, IsSpace) && ToLower(word) == word
    requires word !in row.hashtags && Contains(ToLower(row.description), word)
    ensures !Matches(row, SearchFilter("#" + word)) && Matches(row, SearchFilter(word))
  {
    var q := "#" + word;
    assert NoneOf(q, IsSpace) by {
      forall k | 0 <= k < |q| ensures !IsSpace(q[k]) {
        if k > 0 { assert q[k] == word[k - 1]; }
      }
    }
    TrimOfUnspaced(q);
    TrimOfUnspaced(word);
    HashQueryFiltersOnTag(q, word);
    PlainQueryFiltersOnText(word, word);
    TextSearchIsSubstring(row, word);
  }

  // ----- page state -----

  /** `Status` of the page: "loading" | "error" | "success". */
  datatype Status = Loading | Failed | Loaded

  /** What a fetch resolves to: rows with an optional count, or an error. */
  datatype FetchResponse = FetchOk(data: seq<Startup>, count: Option<nat>) | FetchError

  datatype HomeState = HomeState(
    query: string,
    committedQuery: string,
    startups: seq<Startup>,
    status: Status,
    totalCount: nat,
    currentPage: int)

  const InitialState := HomeState("", "", [], Loading, 0, 1)

  /** `handleSearchSubmit`: commit the typed text and return to page 1. */
  function SubmitSearch(s: HomeState): (r: HomeState)
    ensures r.committedQuery == s.query && r.currentPage == 1
    ensures r.(committedQuery := s.committedQuery, currentPage := s.currentPage) == s
  {
    s.(currentPage := 1, committedQuery := s.query)
  }

  /** The start of `fetchStartups`: only the status changes, to loading,
      so the rows of the last answer stay; the query goes out for the
      current page and the committed text, not the text being typed. */
  function StartFetch(s: HomeState): (r: (HomeState, ListingQuery))
    ensures r.0.status.Loading? && r.0.(status := s.status) == s
    ensures r.1 == BuildQuery(s.currentPage, s.committedQuery)
  {
    (s.(status := Loading), BuildQuery(s.currentPage, s.committedQuery))
  }

  /** The end of `fetchStartups`: an error only flips the status; data
      replaces the rows and the count (`count || 0`). The response is
      applied whatever request it answers. */
  function ApplyResponse(s: HomeState, resp: FetchResponse): (r: HomeState)
    ensures r.(startups := s.startups, totalCount := s.totalCount, status := s.status) == s
    ensures resp.FetchError? ==> r.status.Failed? && r.startups == s.startups && r.totalCount == s.totalCount
    ensures resp.FetchOk? ==> r.status.Loaded? && r.startups == resp.data
    ensures resp.FetchOk? && resp.count.Some? ==> r.totalCount == resp.count.value
    ensures resp.FetchOk? && resp.count.None? ==> r.totalCount == 0
  {
    match resp
    case FetchError => s.(status := Failed)
    case FetchOk(data, count) => s.(startups := data, totalCount := count.GetOr(0), status := Loaded)
  }

  /** There is no guard against stale responses: when the answer to an
      older request arrives after the answer to a newer one, the older rows
      are what the page ends up with. */
  lemma StaleResponseOverwritesNewer(s: HomeState, older: seq<Startup>, newer: seq<Startup>, c1: nat, c2: nat)
    ensures var fetched := StartFetch(SubmitSearch(StartFetch(s).0)).0;
      ApplyResponse(ApplyResponse(fetched, FetchOk(newer, Some(c2))), FetchOk(older, Some(c1))).startups == older
  {
  }

  /** What the main area shows. */
  datatype View = Skeleton | ErrorMessage | NoResults | Grid(cards: seq<Startup>)

  function Render(s: HomeState): (v: View)
    ensures v.ErrorMessage? <==> s.status.Failed?
    ensures v.Skeleton? <==> s.status.Loading? && s.startups == []
    ensures v.Grid? ==> v.cards == s.startups && s.startups != []
    ensures v.NoResults? ==> s.status.Loaded? && s.startups == []
  {
    if s.status.Loading? && s.startups == [] then Skeleton
    else if s.status.Failed? then ErrorMessage
    else if s.startups == [] then NoResults
    else Grid(s.startups)
  }

  /** A successful answer is what the page shows: its rows, or the
      "no results" note when it has none. */
  lemma AnswerIsShown(s: HomeState, data: seq<Startup>, count: Option<nat>)
    ensures Render(ApplyResponse(s, FetchOk(data, count))) == if data == [] then NoResults else Grid(data)
  {
  }

  /** After a failed fetch no rows are shown, although the old rows stay in
      the state; while a fetch is pending the previous rows stay visible. */
  lemma FailedFetchHidesRows(s: HomeState)
    ensures Render(ApplyResponse(s, FetchError)) == ErrorMessage
    ensures s.startups != [] ==> Render(StartFetch(s).0) == Grid(s.startups)
  {
  }
}
