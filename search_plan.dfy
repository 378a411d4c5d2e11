/** What the search route checks and requests before any page arrives
    (app/api/search/route.ts, the start of GET): defaults for the optional
    parameters, the two input errors, and the fixed five-page plan. */
module SearchPlan {
  import opened Wrappers
  import opened Text
  import opened PageFetch

  const MaxPages: nat := 5
  const PageSize: nat := 30
  /** The offsets the route requests, in the order it reduces them. */
  const Cursors: seq<nat> := [0, 30, 60, 90, 120]

  /** A well-formed search: the raw strings the route forwards upstream. */
  datatype SearchRequest = SearchRequest(query: string, publishTime: string, sortBy: string, apiKey: string)

  datatype HttpError = HttpError(status: int, message: string)

  /** `searchParams.get(name) || fallback`: a missing or empty value takes
      the default. */
  function OrDefault(v: Option<string>, fallback: string): (r: string)
    ensures v.Some? && v.value != "" ==> r == v.value
    ensures v.None? || v.value == "" ==> r == fallback
  {
    match v
    case Some(s) => if s != "" then s else fallback
    case None => fallback
  }

  /** Input handling: a missing or empty `query` is a 400, then a missing or
      empty API key is a 500; otherwise `publish_time` defaults to
      `this-week` and `sort_by` to `most-liked`. */
  function ParseRequest(params: seq<(string, string)>, apiKey: Option<string>): (r: Result<SearchRequest, HttpError>)
    ensures r.Failure? <==> Lookup(params, "query") in {None, Some("")} || apiKey in {None, Some("")}
    ensures r.Failure? && Lookup(params, "query") in {None, Some("")} ==>
      r.error == HttpError(400, "Query parameter is required")
    ensures r.Failure? && Lookup(params, "query") !in {None, Some("")} ==>
      r.error == HttpError(500, "API key not configured")
    ensures r.Success? ==>
      && Some(r.value.query) == Lookup(params, "query")
      && Some(r.value.apiKey) == apiKey
      && r.value.publishTime == OrDefault(Lookup(params, "publish_time"), "this-week")
      && r.value.sortBy == OrDefault(Lookup(params, "sort_by"), "most-liked")
  {
    var query := Lookup(params, "query");
    var publishTime := OrDefault(Lookup(params, "publish_time"), "this-week");
    var sortBy := OrDefault(Lookup(params, "sort_by"), "most-liked");
    if query.None? || query.value == "" then
      Failure(HttpError(400, "Query parameter is required"))
    else if apiKey.None? || apiKey.value == "" then
      Failure(HttpError(500, "API key not configured"))
    else
      Success(SearchRequest(query.value, publishTime, sortBy, apiKey.value))
  }

  /** `cursors.slice(0, MAX_PAGES)` with offset 0 sent as "no cursor":
      page `k` starts `k * PageSize` items in, and only the first page
      omits the parameter. */
  function PlannedCursors(): (plan: seq<Option<nat>>)
    ensures |plan| == MaxPages
    ensures forall k :: 0 <= k < |plan| ==> plan[k] == if k == 0 then None else Some(k * PageSize)
  {
    var cursors := Cursors[..MaxPages];
    seq(|cursors|, k requires 0 <= k < |cursors| => if cursors[k] == 0 then None else Some(cursors[k]))
  }

  /** The five upstream requests of one search, in offset order; all carry
      the same key, query, raw filter and sort key. */
  function PageRequests(req: SearchRequest): (rs: seq<PageRequest>)
    ensures |rs| == MaxPages
    ensures forall k :: 0 <= k < |rs| ==>
      rs[k] == PageRequest(req.apiKey, req.query, req.publishTime, req.sortBy, PlannedCursors()[k])
  {
    var plan := PlannedCursors();
    seq(|plan|, k requires 0 <= k < |plan| =>
      PageRequest(req.apiKey, req.query, req.publishTime, req.sortBy, plan[k]))
  }

  /** Exactly the first request lacks a `cursor` parameter; every other
      one carries its page's offset. */
  lemma CursorParamOnlyAfterFirstPage(req: SearchRequest, k: nat)
    requires k < MaxPages
    ensures Lookup(QueryParams(PageRequests(req)[k]), "cursor").Some? <==> k > 0
    ensures k > 0 ==> Lookup(QueryParams(PageRequests(req)[k]), "cursor") == Some(Decimal(k * PageSize))
  {
    var r := PageRequests(req)[k];
    assert r.cursor == PlannedCursors()[k];
    QueryParamsCarryRequest(r);
  }
}
