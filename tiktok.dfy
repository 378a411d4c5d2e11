/** The shapes of the upstream search API's items (types/tiktok.ts), cut
    down to what the search route and the two UI components read. Every
    optional-chained field (`video?.cover?.url_list`) is an `Option`. */
module TikTok {
  import opened Wrappers

  datatype Cover = Cover(urlList: Option<seq<string>>)

  datatype PlayAddr = PlayAddr(urlList: Option<seq<string>>)

  datatype BitRate = BitRate(playAddr: Option<PlayAddr>)

  datatype Video = Video(
    originCover: Option<Cover>,
    cover: Option<Cover>,
    aiDynamicCover: Option<Cover>,
    animatedCover: Option<Cover>,
    aiDynamicCoverBak: Option<Cover>,
    bitRate: Option<seq<BitRate>>,
    playAddr: Option<PlayAddr>)

  /** A search result item. `createTime` is the instant, in milliseconds
      since the Unix epoch, that `new Date(create_time)` denotes, or `None`
      when that is an invalid date. `id` is the only identity. */
  datatype Item = Item(id: string, createTime: Option<int>, video: Option<Video>)

  /** The publish-time filter. The route casts any query string to it, so a
      value outside the declared union is kept as `Unrecognized`. */
  datatype PublishTime =
    | Yesterday
    | ThisWeek
    | ThisMonth
    | LastThreeMonths
    | LastSixMonths
    | AllTime
    | Unrecognized(raw: string)

  /** The wire name of each declared filter value. */
  function WireName(p: PublishTime): string
    requires !p.Unrecognized?
  {
    match p
    case Yesterday => "yesterday"
    case ThisWeek => "this-week"
    case ThisMonth => "this-month"
    case LastThreeMonths => "last-3-months"
    case LastSixMonths => "last-6-months"
    case AllTime => "all-time"
  }

  const DeclaredNames: set<string> :=
    {"yesterday", "this-week", "this-month", "last-3-months", "last-6-months", "all-time"}

  /** The filter the `switch` in the route selects for a raw string. */
  function ParsePublishTime(raw: string): (p: PublishTime)
    ensures p.Unrecognized? <==> raw !in DeclaredNames
    ensures p.Unrecognized? ==> p.raw == raw
    ensures !p.Unrecognized? ==> WireName(p) == raw
  {
    match raw
    case "yesterday" => Yesterday
    case "this-week" => ThisWeek
    case "this-month" => ThisMonth
    case "last-3-months" => LastThreeMonths
    case "last-6-months" => LastSixMonths
    case "all-time" => AllTime
    case _ => Unrecognized(raw)
  }

  /** Every declared value survives a trip through its wire name. */
  lemma WireNameRoundTrip(p: PublishTime)
    requires !p.Unrecognized?
    ensures ParsePublishTime(WireName(p)) == p
  {
  }
}
