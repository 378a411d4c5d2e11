/** The search endpoint as a whole (app/api/search/route.ts, GET): check
    the input, request the five planned pages, let each settle to a page or
    a failure, and reduce the settled results in offset order. The network
    is the parameter `upstream`, which gives the reply to each request. */
module SearchRoute {
  import opened Wrappers
  import opened TikTok
  import opened DateRange
  import opened PageFetch
  import opened SearchPlan
  import opened Aggregation

  datatype Response = ErrorResponse(error: HttpError) | Ok(result: SearchResult)

  /** `Promise.all` over the requests, each call's failure turned into a
      missing page: one settled result per request, in request order. */
  function Settle(requests: seq<PageRequest>, upstream: PageRequest -> Reply): (pages: seq<Option<Page>>)
    ensures |pages| == |requests|
    ensures forall k :: 0 <= k < |requests| ==> pages[k] == FetchPage(upstream(requests[k]))
    decreases |requests|
  {
    if requests == [] then []
    else [FetchPage(upstream(requests[0]))] + Settle(requests[1..], upstream)
  }

  /** GET: an input error answers before any page is requested; otherwise
      exactly the five planned pages are requested and the response is the
      reduction of what they settled to. `requested` lists the requests
      sent upstream. */
  method Get(params: seq<(string, string)>, apiKey: Option<string>, clock: Clock, upstream: PageRequest -> Reply)
    returns (requested: seq<PageRequest>, response: Response)
    ensures ParseRequest(params, apiKey).Failure? ==>
      requested == [] && response == ErrorResponse(ParseRequest(params, apiKey).error)
    ensures ParseRequest(params, apiKey).Success? ==>
      var req := ParseRequest(params, apiKey).value;
      && requested == PageRequests(req)
      && response == Ok(Aggregate(Settle(requested, upstream), ParsePublishTime(req.publishTime), clock))
  {
    var parsed := ParseRequest(params, apiKey);
    if parsed.Failure? {
      return [], ErrorResponse(parsed.error);
    }
    var req := parsed.value;
    requested := PageRequests(req);
    var pageResults := Settle(requested, upstream);
    var result := Reduce(pageResults, ParsePublishTime(req.publishTime), clock);
    response := Ok(result);
  }

  /** At most five pages are ever counted as fetched, and the counters of
      every successful response satisfy the counting identity. */
  lemma ResponseBounds(params: seq<(string, string)>, apiKey: Option<string>, clock: Clock, upstream: PageRequest -> Reply)
    requires ParseRequest(params, apiKey).Success?
    ensures var req := ParseRequest(params, apiKey).value;
      var r := Aggregate(Settle(PageRequests(req), upstream), ParsePublishTime(req.publishTime), clock);
      && r.pagesFetched <= MaxPages
      && r.filteredOut + |r.items| == r.totalVideosChecked
  {
    var req := ParseRequest(params, apiKey).value;
    AggregateCounts(Settle(PageRequests(req), upstream), ParsePublishTime(req.publishTime), clock);
  }

  /** When exactly one of the five pages fails, four pages are counted as
      fetched and the others are still reduced. */
  lemma OneFailedPage(pages: seq<Option<Page>>, p: PublishTime, clock: Clock, bad: nat)
    requires |pages| == MaxPages && bad < |pages| && pages[bad].None?
    requires forall k :: 0 <= k < |pages| && k != bad ==> pages[k].Some?
    ensures Aggregate(pages, p, clock).pagesFetched == MaxPages - 1
  {
    AggregateCounts(pages, p, clock);
    SuccessCountCounts(pages);
    assert FailedIndices(pages) == {bad};
  }
}
