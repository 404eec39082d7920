/** middleware/advancedResults.js: the list query every "get all" route runs. The
    control parameters `select`, `sort`, `page` and `limit` are taken out of the
    query string; the rest, serialised to JSON with the comparison operators given
    their `$` prefix, is the filter. The result is one page of the matching
    documents together with links to the neighbouring pages. */
module AdvancedResults {
  import opened Wrappers
  import opened Strings
  import opened OperatorRewrite
  import opened NumberParsing
  import opened ErrorResponses

  /** A parsed query string: parameter name to its (string) value. */
  type Query = map<string, string>

  const ControlParams: seq<string> := ["select", "sort", "page", "limit"]
  const DefaultSort: string := "-createdAt"
  const DefaultPage: int := 1
  const DefaultLimit: int := 20

  /** The query the store runs, apart from the window: the filter text, the fields to
      return, the sort order and the path to populate. */
  datatype Selection = Selection(
    filter: string,
    projection: Option<string>,
    sort: string,
    populate: Option<string>)

  datatype PageLink = PageLink(page: int, limit: int)

  datatype Pagination = Pagination(next: Option<PageLink>, prev: Option<PageLink>)

  /** The value left in `res.advancedResults`. */
  datatype Envelope<D> = Envelope(success: bool, count: int, pagination: Pagination, data: seq<D>)

  /** The store's refusal of a negative skip. The middleware rejects with it; where it
      goes from there is `Server.ListAsWritten`. */
  const NegativeSkip: ErrorObject :=
    ErrorObject("MongoServerError", "skip value must be non-negative", None, None, [])

  // ---------------------------------------------------------------------------
  // The pieces of the query, as functions of the query string.

  /** A parameter is used when it is present and not the empty string. */
  predicate Truthy(query: Query, key: string) {
    key in query && query[key] != ""
  }

  /** The filter parameters: every parameter that is not a control parameter. */
  function FilterParams(query: Query): Query {
    map k | k in query && k !in ControlParams :: query[k]
  }

  /** `value.split(",").join(" ")`: a comma-separated list becomes a space-separated
      one, character for character. */
  function FieldList(value: string): (r: string)
    ensures r == ReplaceChar(value, ',', ' ')
    ensures |r| == |value|
  {
    JoinSplit(value, ',', ' ');
    Join(Split(value, ','), ' ')
  }

  function Projection(query: Query): (p: Option<string>)
    ensures p.Some? <==> Truthy(query, "select")
    ensures p.Some? ==> p.value == ReplaceChar(query["select"], ',', ' ')
  {
    if Truthy(query, "select") then Some(FieldList(query["select"])) else None
  }

  function SortOrder(query: Query): (s: string)
    ensures Truthy(query, "sort") ==> s == ReplaceChar(query["sort"], ',', ' ')
    ensures !Truthy(query, "sort") ==> s == DefaultSort
  {
    if Truthy(query, "sort") then FieldList(query["sort"]) else DefaultSort
  }

  /** `parseInt(query[key], 10) || default`: `NaN` (also for an absent parameter) and
      0 give the default. */
  function IntParam(query: Query, key: string, default: int): (n: int)
    ensures default != 0 ==> n != 0
    ensures key !in query ==> n == default
    ensures key in query && (ParseInt(query[key]).None? || ParseInt(query[key]).value == 0) ==> n == default
    ensures key in query && ParseInt(query[key]).Some? && ParseInt(query[key]).value != 0
      ==> n == ParseInt(query[key]).value
  {
    var parsed := if key in query then ParseInt(query[key]) else None;
    if parsed.None? || parsed.value == 0 then default else parsed.value
  }

  function PageOf(query: Query): int {
    IntParam(query, "page", DefaultPage)
  }

  function LimitOf(query: Query): int {
    IntParam(query, "limit", DefaultLimit)
  }

  function StartIndex(page: int, limit: int): int {
    (page - 1) * limit
  }

  function EndIndex(page: int, limit: int): int {
    page * limit
  }

  /** The links to the neighbouring pages: the next page while the end of this one is
      short of the number of stored documents, the previous one when this page does
      not start at the first document. */
  function PaginationFor(page: int, limit: int, totalDocs: int): (p: Pagination)
    ensures p.next.Some? <==> EndIndex(page, limit) < totalDocs
    ensures p.prev.Some? <==> StartIndex(page, limit) > 0
    ensures p.next.Some? ==> p.next.value == PageLink(page + 1, limit)
    ensures p.prev.Some? ==> p.prev.value == PageLink(page - 1, limit)
  {
    Pagination(
      if page * limit < totalDocs then Some(PageLink(page + 1, limit)) else None,
      if (page - 1) * limit > 0 then Some(PageLink(page - 1, limit)) else None)
  }

  /** `skip(skip).limit(limit)` on the matching documents in store order. A negative
      limit returns as many documents as its absolute value. */
  function Window<D>(docs: seq<D>, skip: int, limit: int): (r: Option<seq<D>>)
    ensures r.Some? <==> skip >= 0
    ensures r.Some? ==> |r.value| <= (if limit < 0 then -limit else limit)
    ensures r.Some? ==> skip + |r.value| <= |docs| || |r.value| == 0
    ensures r.Some? ==> forall i :: 0 <= i < |r.value| ==> r.value[i] == docs[skip + i]
    ensures r.Some? && skip + (if limit < 0 then -limit else limit) <= |docs|
      ==> |r.value| == (if limit < 0 then -limit else limit)
    ensures r.Some? && skip + (if limit < 0 then -limit else limit) > |docs| && skip <= |docs|
      ==> |r.value| == |docs| - skip
  {
    if skip < 0 then None
    else
      var n := if limit < 0 then -limit else limit;
      var lo := if skip < |docs| then skip else |docs|;
      var hi := if skip + n < |docs| then skip + n else |docs|;
      Some(docs[lo..hi])
  }

  function SelectionOf(query: Query, populate: Option<string>, stringify: Query -> string): Selection {
    Selection(
      RewriteOperators(stringify(FilterParams(query))),
      Projection(query),
      SortOrder(query),
      populate)
  }

  // ---------------------------------------------------------------------------
  // The middleware.

  /** Copy the query and delete the control parameters from the copy. */
  method StripControlParams(query: Query) returns (filter: Query)
    ensures forall k :: k in filter <==> k in query && k !in ControlParams
    ensures forall k :: k in filter ==> filter[k] == query[k]
  {
    filter := query;
    for i := 0 to |ControlParams|
      invariant forall k :: k in filter <==> k in query && k !in ControlParams[..i]
      invariant forall k :: k in filter ==> filter[k] == query[k]
    {
      filter := filter - {ControlParams[i]};
    }
    assert ControlParams[..|ControlParams|] == ControlParams;
  }

  /** The handler. `stringify` is `JSON.stringify`, `find` runs a selection and yields
      the matching documents in order before the window is applied, and `totalDocs` is
      `countDocuments()`, the number of documents in the collection regardless of the
      filter. */
  method AdvancedResults<D>(
      query: Query,
      populate: Option<string>,
      stringify: Query -> string,
      find: Selection -> seq<D>,
      totalDocs: nat)
    returns (r: Result<Envelope<D>, ErrorObject>)
    ensures r.Success? <==> StartIndex(PageOf(query), LimitOf(query)) >= 0
    ensures r.Failure? ==> r.error == NegativeSkip
    ensures r.Success? ==>
      && r.value.success
      && r.value.count == |r.value.data|
      && Window(find(SelectionOf(query, populate, stringify)),
           StartIndex(PageOf(query), LimitOf(query)), LimitOf(query)) == Some(r.value.data)
      && r.value.pagination == PaginationFor(PageOf(query), LimitOf(query), totalDocs)
  {
    var reqQuery := StripControlParams(query);
    assert reqQuery == FilterParams(query);
    var queryStr := stringify(reqQuery);
    queryStr := RewriteOperators(queryStr);
    var selection := Selection(queryStr, None, DefaultSort, None);
    if Truthy(query, "select") {
      selection := selection.(projection := Some(FieldList(query["select"])));
    }
    if Truthy(query, "sort") {
      selection := selection.(sort := FieldList(query["sort"]));
    }
    var page := IntParam(query, "page", DefaultPage);
    var limit := IntParam(query, "limit", DefaultLimit);
    var startIndex := (page - 1) * limit;
    var endIndex := page * limit;
    if populate.Some? {
      selection := selection.(populate := populate);
    }
    assert page == PageOf(query) && limit == LimitOf(query);
    assert startIndex == StartIndex(page, limit) && endIndex == EndIndex(page, limit);
    assert selection == SelectionOf(query, populate, stringify);
    var results := Window(find(selection), startIndex, limit);
    if results.None? {
      return Failure(NegativeSkip);
    }
    var pagination := Pagination(None, None);
    if endIndex < totalDocs {
      pagination := pagination.(next := Some(PageLink(page + 1, limit)));
    }
    if startIndex > 0 {
      pagination := pagination.(prev := Some(PageLink(page - 1, limit)));
    }
    assert pagination == PaginationFor(page, limit, totalDocs);
    r := Success(Envelope(true, |results.value|, pagination, results.value));
  }

  // ---------------------------------------------------------------------------
  // Properties.

  /** Page and limit are never 0, and consecutive indices are one limit apart. */
  lemma {:induction false} PageArithmetic(query: Query)
    ensures PageOf(query) != 0 && LimitOf(query) != 0
    ensures EndIndex(PageOf(query), LimitOf(query)) - StartIndex(PageOf(query), LimitOf(query))
      == LimitOf(query)
    ensures PageOf(query) >= 1 && LimitOf(query) >= 1 ==> StartIndex(PageOf(query), LimitOf(query)) >= 0
  {
    IndexArithmetic(PageOf(query), LimitOf(query));
  }

  lemma {:induction false} IndexArithmetic(page: int, limit: int)
    ensures EndIndex(page, limit) - StartIndex(page, limit) == limit
    ensures page >= 1 && limit >= 1 ==> StartIndex(page, limit) >= 0
  {
    assert (page - 1) * limit == page * limit - limit;
    if page >= 1 && limit >= 1 {
      assert (page - 1) * limit >= 0 * limit;
    }
  }

  /** Without `page` and `limit` the first twenty documents are returned, sorted newest
      first unless `sort` says otherwise. */
  lemma {:induction false} Defaults(query: Query)
    requires "page" !in query && "limit" !in query && "sort" !in query
    ensures PageOf(query) == 1 && LimitOf(query) == 20
    ensures StartIndex(PageOf(query), LimitOf(query)) == 0
    ensures SortOrder(query) == "-createdAt"
  {
  }

  /** `page=3abc` is page 3, `page=-2` passes through, and `limit=0` falls back to
      20. */
  lemma {:induction false} PageLimitExamples(q: Query)
    ensures "page" in q && q["page"] == "3abc" ==> PageOf(q) == 3
    ensures "page" in q && q["page"] == "-2" ==> PageOf(q) == -2
    ensures "limit" in q && q["limit"] == "0" ==> LimitOf(q) == 20
  {
    if "page" in q && q["page"] == "3abc" {
      ParseIntTrailingText();
    }
    if "page" in q && q["page"] == "-2" {
      ParseIntNegative();
    }
    if "limit" in q && q["limit"] == "0" {
      ParseIntZero();
    }
  }

  /** The control parameters never reach the filter, and every other parameter reaches
      it unchanged. */
  lemma {:induction false} FilterParamsExact(query: Query, k: string)
    ensures k in FilterParams(query) <==> k in query && k !in ["select", "sort", "page", "limit"]
    ensures k in FilterParams(query) ==> FilterParams(query)[k] == query[k]
  {
  }

  /** The documents of pages 1 to n, in order. */
  function Pages<D>(docs: seq<D>, limit: int, n: nat): seq<D>
    requires limit > 0
  {
    if n == 0 then [] else Pages(docs, limit, n - 1) + Window(docs, StartIndex(n, limit), limit).value
  }

  /** Walking the pages in order visits the matching documents in store order, each
      once: the first n pages together are the first n * limit documents. */
  lemma {:induction false} PagesTile<D>(docs: seq<D>, limit: int, n: nat)
    requires limit > 0
    ensures Pages(docs, limit, n) == docs[..if n * limit < |docs| then n * limit else |docs|]
  {
    if n > 0 {
      PagesTile(docs, limit, n - 1);
      IndexArithmetic(n, limit);
      PageStep(docs, StartIndex(n, limit), limit);
    }
  }

  /** The documents before a page followed by that page are the documents up to its end. */
  lemma {:induction false} PageStep<D>(docs: seq<D>, lo: int, limit: int)
    requires lo >= 0 && limit > 0
    ensures docs[..if lo < |docs| then lo else |docs|] + Window(docs, lo, limit).value
      == docs[..if lo + limit < |docs| then lo + limit else |docs|]
  {
    if lo < |docs| {
      var end := if lo + limit < |docs| then lo + limit else |docs|;
      assert docs[..lo] + docs[lo..end] == docs[..end];
    }
  }

  /** With 45 documents and 20 per page: page 1 links only forward, page 2 both ways,
      page 3 only back. */
  lemma {:induction false} PaginationExamples()
    ensures PaginationFor(1, 20, 45) == Pagination(Some(PageLink(2, 20)), None)
    ensures PaginationFor(2, 20, 45) == Pagination(Some(PageLink(3, 20)), Some(PageLink(1, 20)))
    ensures PaginationFor(3, 20, 45) == Pagination(None, Some(PageLink(2, 20)))
  {
  }

  /** The links count every stored document, not the matching ones: with nothing
      matching, the first page is empty and still links to a next page. */
  lemma {:induction false} NextIgnoresFilter<D>(docs: seq<D>)
    requires docs == []
    ensures Window(docs, StartIndex(1, 20), 20) == Some([])
    ensures PaginationFor(1, 20, 45).next == Some(PageLink(2, 20))
  {
  }

  /** Page -1 asks the store for a negative skip, which fails. */
  lemma {:induction false} NegativePageFails<D>(docs: seq<D>)
    ensures Window(docs, StartIndex(-1, 20), 20).None?
  {
  }
}
