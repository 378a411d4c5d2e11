/** The result card (components/VideoCard.tsx): the ordered list of cover
    image candidates, the relative-date label, and the fallback from one
    cover URL to the next when an image fails to load. */
module VideoCard {
  import opened Wrappers
  import opened Text
  import opened Seqs
  import TikTok
  import DateRange

  const LogoMarker: string := "tplv-tiktokx-dmt-logom"

  function UrlListOf(c: Option<TikTok.Cover>): Option<seq<string>> {
    match c
    case Some(cover) => cover.urlList
    case None => None
  }

  /** `video?.X?.url_list` for the five cover kinds, in preference order:
      original, cover, AI dynamic, animated, AI dynamic backup. */
  function CoverSources(item: TikTok.Item): (sources: seq<Option<seq<string>>>)
    ensures |sources| == 5
  {
    match item.video
    case None => [None, None, None, None, None]
    case Some(v) =>
      [UrlListOf(v.originCover), UrlListOf(v.cover), UrlListOf(v.aiDynamicCover),
       UrlListOf(v.animatedCover), UrlListOf(v.aiDynamicCoverBak)]
  }

  /** A cover URL worth trying: non-empty and not the watermarked variant. */
  predicate UsableCover(url: string) {
    url != "" && !Contains(url, LogoMarker)
  }

  /** getCoverUrls: the usable URLs of all present sources, source after
      source in preference order, each source in its own order. */
  method GetCoverUrls(item: TikTok.Item) returns (urls: seq<string>)
    ensures urls == Filter(UsableCover, ConcatPresent(CoverSources(item)))
  {
    urls := [];
    var sources := CoverSources(item);
    for i := 0 to |sources|
      invariant urls == Filter(UsableCover, ConcatPresent(sources[..i]))
    {
      assert Init(sources[..i + 1]) == sources[..i] && Last(sources[..i + 1]) == sources[i];
      var source := sources[i];
      if source.Some? && |source.value| > 0 {
        assert ConcatPresent(sources[..i + 1]) == ConcatPresent(sources[..i]) + source.value;
        FilterConcat(UsableCover, ConcatPresent(sources[..i]), source.value);
        urls := urls + Filter(UsableCover, source.value);
      } else {
        assert source.Some? ==> source.value == [];
        assert ConcatPresent(sources[..i]) + [] == ConcatPresent(sources[..i]);
        assert ConcatPresent(sources[..i + 1]) == ConcatPresent(sources[..i]);
      }
    }
    assert sources[..|sources|] == sources;
  }

  /** A URL is a cover candidate exactly when some source lists it and it
      is usable. */
  lemma CoverCandidates(item: TikTok.Item, url: string)
    ensures url in Filter(UsableCover, ConcatPresent(CoverSources(item))) <==>
      UsableCover(url) &&
      exists k :: 0 <= k < 5 && CoverSources(item)[k].Some? && url in CoverSources(item)[k].value
  {
    FilterMembers(UsableCover, ConcatPresent(CoverSources(item)), url);
    ConcatPresentMembers(CoverSources(item), url);
  }

  /** The shown formatDate shows for an item's creation time. */
  datatype DateLabel = Today | Yesterday | DaysAgo(days: int) | WeeksAgo(weeks: int) | OnDate(instant: Option<int>)

  /** `Math.floor((now - date) / 86400000)`: whole days elapsed, rounded
      down (so negative for a future date). */
  function DiffDays(now: int, created: int): int {
    (now - created) / DateRange.MsPerDay
  }

  /** formatDate's bucketing of whole elapsed days; an invalid date makes
      every comparison false and falls through to the calendar date. */
  function RelativeDate(now: int, created: Option<int>): (shown: DateLabel)
    ensures created.None? ==> shown == OnDate(None)
    ensures shown == Today <==> created.Some? && 0 <= now - created.value < DateRange.MsPerDay
    ensures shown == Yesterday <==> created.Some? && DateRange.MsPerDay <= now - created.value < 2 * DateRange.MsPerDay
    ensures shown.DaysAgo? ==>
      && created.Some? && shown.days < 7 && shown.days != 0 && shown.days != 1
      && shown.days * DateRange.MsPerDay <= now - created.value < (shown.days + 1) * DateRange.MsPerDay
    ensures shown.WeeksAgo? ==>
      && created.Some? && 1 <= shown.weeks <= 4
      && 7 * DateRange.MsPerDay <= now - created.value < 30 * DateRange.MsPerDay
      && 7 * shown.weeks * DateRange.MsPerDay <= now - created.value < 7 * (shown.weeks + 1) * DateRange.MsPerDay
    ensures shown.OnDate? ==> shown.instant == created && (created.Some? ==> now - created.value >= 30 * DateRange.MsPerDay)
    ensures created.Some? && now < created.value ==> shown.DaysAgo? && shown.days < 0
  {
    match created
    case None => OnDate(None)
    case Some(t) =>
      var diffDays := DiffDays(now, t);
      if diffDays == 0 then Today
      else if diffDays == 1 then Yesterday
      else if diffDays < 7 then DaysAgo(diffDays)
      else if diffDays < 30 then WeeksAgo(diffDays / 7)
      else OnDate(created)
  }

  /** The card's image state: the candidate list, the index of the URL
      being tried, and whether every candidate has failed. */
  class CoverImage {
    const coverUrls: seq<string>
    var currentUrlIndex: nat
    var imageError: bool

    /** The index never leaves the list (it stays 0 when the list is
        empty), and every candidate is usable. */
    ghost predicate Valid()
      reads this
    {
      && (|coverUrls| == 0 ==> currentUrlIndex == 0)
      && (|coverUrls| > 0 ==> currentUrlIndex < |coverUrls|)
      && forall k :: 0 <= k < |coverUrls| ==> UsableCover(coverUrls[k])
    }

    constructor (video: TikTok.Item)
      ensures Valid()
      ensures coverUrls == Filter(UsableCover, ConcatPresent(CoverSources(video)))
      ensures currentUrlIndex == 0 && !imageError
    {
      var urls := GetCoverUrls(video);
      forall k | 0 <= k < |urls|
        ensures UsableCover(urls[k])
      {
        FilterMembers(UsableCover, ConcatPresent(CoverSources(video)), urls[k]);
      }
      coverUrls := urls;
      currentUrlIndex := 0;
      imageError := false;
    }

    /** `coverUrls[currentUrlIndex]`, which is undefined past the end. */
    function CurrentCoverUrl(): Option<string>
      reads this
    {
      if currentUrlIndex < |coverUrls| then Some(coverUrls[currentUrlIndex]) else None
    }

    /** The `<img>` is rendered iff the current URL is truthy and no error
        has been recorded; otherwise the "No preview" placeholder is. */
    predicate ShowsImage()
      reads this
    {
      match CurrentCoverUrl()
      case Some(url) => url != "" && !imageError
      case None => false
    }

    /** How many more load failures the card can absorb before it gives
        up on images. */
    ghost function AttemptsLeft(): int
      reads this
    {
      if imageError then 0 else |coverUrls| - currentUrlIndex
    }

    /** The image shows exactly when there is a candidate and none has
        been given up on; what it shows is a usable candidate. */
    lemma ShowsImageExactly()
      requires Valid()
      ensures ShowsImage() <==> |coverUrls| > 0 && !imageError
      ensures ShowsImage() ==> UsableCover(CurrentCoverUrl().value)
    {
    }

    /** handleImageError: move to the next candidate while there is one;
        on the last (or with none) record the error and keep the index. */
    method HandleImageError()
      requires Valid()
      modifies this
      ensures Valid()
      ensures old(currentUrlIndex) < |coverUrls| - 1 ==>
        currentUrlIndex == old(currentUrlIndex) + 1 && imageError == old(imageError)
      ensures old(currentUrlIndex) >= |coverUrls| - 1 ==>
        currentUrlIndex == old(currentUrlIndex) && imageError
      ensures !old(imageError) && |coverUrls| > 0 ==> AttemptsLeft() == old(AttemptsLeft()) - 1
    {
      if currentUrlIndex < |coverUrls| - 1 {
        currentUrlIndex := currentUrlIndex + 1;
      } else {
        imageError := true;
      }
    }
  }
}
