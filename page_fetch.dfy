/** One upstream page request and the normalisation of its response
    (app/api/search/route.ts, fetchPage and the `.catch` around each call).
    The HTTP exchange itself is not modelled: the caller supplies the reply. */
module PageFetch {
  import opened Wrappers
  import opened Text
  import opened TikTok

  const Region: string := "US"

  /** Everything one page request carries. `cursor` is `None` for the
      first page, whose request has no `cursor` parameter at all. */
  datatype PageRequest = PageRequest(
    apiKey: string, query: string, publishTime: string, sortBy: string, cursor: Option<nat>)

  /** The four parameters every request sets, in the order it sets them. */
  function FixedParams(req: PageRequest): seq<(string, string)> {
    [("query", req.query), ("publish_time", req.publishTime), ("sort_by", req.sortBy), ("region", Region)]
  }

  /** The query string of the request, in the order the parameters are
      set; the API key travels in the `x-api-key` header, not here. */
  function QueryParams(req: PageRequest): seq<(string, string)> {
    match req.cursor
    case None => FixedParams(req)
    case Some(c) => FixedParams(req) + [("cursor", Decimal(c))]
  }

  lemma FixedParamsCarryRequest(req: PageRequest)
    ensures Lookup(FixedParams(req), "query") == Some(req.query)
    ensures Lookup(FixedParams(req), "publish_time") == Some(req.publishTime)
    ensures Lookup(FixedParams(req), "sort_by") == Some(req.sortBy)
    ensures Lookup(FixedParams(req), "region") == Some(Region)
  {
    var ps := FixedParams(req);
    LookupFirst(ps, "query", 0);
    LookupFirst(ps, "publish_time", 1);
    LookupFirst(ps, "sort_by", 2);
    LookupFirst(ps, "region", 3);
  }

  /** None of the four fixed parameters is `cursor`. */
  lemma NoCursorInFixedParams(req: PageRequest)
    ensures Lookup(FixedParams(req), "cursor") == None
  {
    assert "region"[0] != "cursor"[0];
  }

  /** Each parameter carries its request field, the region is fixed, and
      `cursor` is present exactly when an offset is given. */
  lemma QueryParamsCarryRequest(req: PageRequest)
    ensures Lookup(QueryParams(req), "query") == Some(req.query)
    ensures Lookup(QueryParams(req), "publish_time") == Some(req.publishTime)
    ensures Lookup(QueryParams(req), "sort_by") == Some(req.sortBy)
    ensures Lookup(QueryParams(req), "region") == Some(Region)
    ensures Lookup(QueryParams(req), "cursor").Some? <==> req.cursor.Some?
    ensures req.cursor.Some? ==> Lookup(QueryParams(req), "cursor") == Some(Decimal(req.cursor.value))
  {
    FixedParamsCarryRequest(req);
    NoCursorInFixedParams(req);
    if req.cursor.Some? {
      var fixed, extra := FixedParams(req), [("cursor", Decimal(req.cursor.value))];
      assert QueryParams(req) == fixed + extra;
      LookupAppend(fixed, extra, "query");
      LookupAppend(fixed, extra, "publish_time");
      LookupAppend(fixed, extra, "sort_by");
      LookupAppend(fixed, extra, "region");
      LookupAppend(fixed, extra, "cursor");
      LookupFirst(extra, "cursor", 0);
    }
  }

  /** The `cursor` parameter, read back as a number, is the requested offset. */
  lemma CursorParamRoundTrip(req: PageRequest)
    requires req.cursor.Some?
    ensures Lookup(QueryParams(req), "cursor") == Some(Decimal(req.cursor.value))
    ensures DigitsValue(Decimal(req.cursor.value)) == req.cursor.value
  {
    QueryParamsCarryRequest(req);
    DecimalRoundTrip(req.cursor.value);
  }

  /** The parsed JSON body of a successful upstream reply. */
  datatype Body = Body(
    items: Field<seq<Item>>, cursor: Field<int>, hasMore: Field<bool>, creditsRemaining: Field<int>)

  /** What the upstream call settles to: a network fault, or a reply with a
      status and a body that either parsed as JSON (`Some`) or did not. */
  datatype Reply = NetworkFault | Reply(status: int, body: Option<Body>)

  /** A normalised page, as fetchPage returns it. */
  datatype Page = Page(items: seq<Item>, cursor: Field<int>, hasMore: bool, creditsRemaining: Field<int>)

  /** `response.ok`. */
  predicate IsOk(status: int) {
    200 <= status <= 299
  }

  /** fetchPage followed by `.catch(() => null)`: a page exactly when the
      reply is a 2xx with a parseable body; a missing or null `items`
      becomes the empty list; `has_more` is the upstream value when given
      and otherwise "a cursor property is present"; the cursor and the
      credit counter pass through untouched. */
  function FetchPage(reply: Reply): (r: Option<Page>)
    ensures r.Some? <==> reply.Reply? && IsOk(reply.status) && reply.body.Some?
    ensures r.Some? ==> var b := reply.body.value;
      && (b.items.Value? ==> r.value.items == b.items.value)
      && (!b.items.Value? ==> r.value.items == [])
      && (r.value.hasMore <==> b.hasMore == Value(true) || (!b.hasMore.Value? && !b.cursor.Undefined?))
      && r.value.cursor == b.cursor
      && r.value.creditsRemaining == b.creditsRemaining
  {
    match reply
    case NetworkFault => None
    case Reply(status, body) =>
      if !IsOk(status) then None
      else
        match body
        case None => None
        case Some(b) =>
          var items := match b.items case Value(xs) => xs case _ => [];
          var hasMore := match b.hasMore case Value(h) => h case _ => !b.cursor.Undefined?;
          Some(Page(items, b.cursor, hasMore, b.creditsRemaining))
  }

  /** `data.cursor !== undefined` counts an explicit `null` cursor as
      present, so such a body without `has_more` reports more pages. */
  lemma NullCursorReportsMore(status: int, items: Field<seq<Item>>, credits: Field<int>)
    requires IsOk(status)
    ensures FetchPage(Reply(status, Some(Body(items, Null, Undefined, credits)))).value.hasMore
  {
  }
}
