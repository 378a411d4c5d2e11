/** The playback overlay (components/VideoModal.tsx): the ordered list of
    playable URLs, previous/next navigation and its keyboard shortcuts, and
    the player's fallback state, which resets when another video opens. */
module VideoModal {
  import opened Wrappers
  import opened Text
  import opened Seqs
  import TikTok

  function PlayAddrUrls(a: Option<TikTok.PlayAddr>): Option<seq<string>> {
    match a
    case Some(addr) => addr.urlList
    case None => None
  }

  /** `br.play_addr?.url_list` for each entry of `bit_rate`, in order. */
  function BitRateSources(brs: seq<TikTok.BitRate>): (sources: seq<Option<seq<string>>>)
    ensures |sources| == |brs|
    ensures forall k :: 0 <= k < |brs| ==> sources[k] == PlayAddrUrls(brs[k].playAddr)
    decreases |brs|
  {
    if brs == [] then [] else BitRateSources(Init(brs)) + [PlayAddrUrls(Last(brs).playAddr)]
  }

  /** Where playable URLs come from, in order: every bit-rate variant,
      then the video's own `play_addr`. */
  function PlaySources(item: TikTok.Item): seq<Option<seq<string>>> {
    match item.video
    case None => [None]
    case Some(v) =>
      var rates := match v.bitRate case Some(brs) => BitRateSources(brs) case None => [];
      rates + [PlayAddrUrls(v.playAddr)]
  }

  /** A URL the player tries: non-empty and on the platform's video CDN. */
  predicate Playable(url: string) {
    url != "" && (Contains(url, "tiktokcdn") || Contains(url, "tiktokv"))
  }

  /** getVideoUrls: all collected URLs, in source order with duplicates
      kept, reduced to the playable ones. */
  method GetVideoUrls(item: TikTok.Item) returns (urls: seq<string>)
    ensures urls == Filter(Playable, ConcatPresent(PlaySources(item)))
  {
    var collected: seq<string> := [];
    if item.video.Some? && item.video.value.bitRate.Some? {
      var brs := item.video.value.bitRate.value;
      ghost var sources := BitRateSources(brs);
      for i := 0 to |brs|
        invariant collected == ConcatPresent(sources[..i])
      {
        assert Init(sources[..i + 1]) == sources[..i] && Last(sources[..i + 1]) == sources[i];
        var br := brs[i];
        if br.playAddr.Some? && br.playAddr.value.urlList.Some? {
          collected := collected + br.playAddr.value.urlList.value;
        }
      }
      assert sources[..|brs|] == sources;
    }
    ghost var rates := ConcatPresent(Init(PlaySources(item)));
    assert collected == rates;
    if item.video.Some? && item.video.value.playAddr.Some? && item.video.value.playAddr.value.urlList.Some? {
      collected := collected + item.video.value.playAddr.value.urlList.value;
    }
    urls := Filter(Playable, collected);
  }

  /** A URL is offered to the player exactly when it is playable and some
      source lists it. */
  lemma PlayCandidates(item: TikTok.Item, url: string)
    ensures url in Filter(Playable, ConcatPresent(PlaySources(item))) <==>
      Playable(url) &&
      exists k :: 0 <= k < |PlaySources(item)| && PlaySources(item)[k].Some? && url in PlaySources(item)[k].value
  {
    FilterMembers(Playable, ConcatPresent(PlaySources(item)), url);
    ConcatPresentMembers(PlaySources(item), url);
  }

  /** `hasPrev`: there is a video before the current one. */
  predicate HasPrev(currentIndex: int) {
    currentIndex > 0
  }

  /** `hasNext`: there is a video after the current one. */
  predicate HasNext(currentIndex: int, count: nat) {
    currentIndex < count - 1
  }

  /** goToPrev: the index passed to `onNavigate`, if it is called. */
  function GoToPrev(currentIndex: int): (target: Option<int>)
    ensures target.Some? <==> HasPrev(currentIndex)
    ensures target.Some? ==> target.value == currentIndex - 1
  {
    if HasPrev(currentIndex) then Some(currentIndex - 1) else None
  }

  /** goToNext: the index passed to `onNavigate`, if it is called. */
  function GoToNext(currentIndex: int, count: nat): (target: Option<int>)
    ensures target.Some? <==> HasNext(currentIndex, count)
    ensures target.Some? ==> target.value == currentIndex + 1
  {
    if HasNext(currentIndex, count) then Some(currentIndex + 1) else None
  }

  /** Navigation never leaves the list. `currentIndex` comes from
      `findIndex`, so -1 (video not in the list) is admitted too. */
  lemma NavigationStaysInList(currentIndex: int, count: nat)
    requires -1 <= currentIndex < count
    ensures GoToPrev(currentIndex).Some? ==> 0 <= GoToPrev(currentIndex).value < count
    ensures GoToNext(currentIndex, count).Some? ==> 0 <= GoToNext(currentIndex, count).value < count
  {
  }

  /** A callback the overlay asks its parent to perform. */
  datatype Effect = Close | Navigate(index: int)

  function AsEffects(target: Option<int>): (effects: seq<Effect>)
    ensures Close !in effects
  {
    match target
    case Some(i) => [Navigate(i)]
    case None => []
  }

  /** The keydown handler: three independent tests, in order. */
  function OnKeyDown(key: string, currentIndex: int, count: nat): (effects: seq<Effect>)
    ensures |effects| <= 1
    ensures Close in effects <==> key == "Escape"
    ensures key == "Escape" ==> effects == [Close]
    ensures key == "ArrowLeft" ==> effects == AsEffects(GoToPrev(currentIndex))
    ensures key == "ArrowRight" ==> effects == AsEffects(GoToNext(currentIndex, count))
    ensures key != "Escape" && key != "ArrowLeft" && key != "ArrowRight" ==> effects == []
  {
    (if key == "Escape" then [Close] else [])
    + (if key == "ArrowLeft" then AsEffects(GoToPrev(currentIndex)) else [])
    + (if key == "ArrowRight" then AsEffects(GoToNext(currentIndex, count)) else [])
  }

  /** The overlay's player state for the video it shows. */
  class Player {
    var videoId: string
    var videoUrls: seq<string>
    var currentUrlIndex: nat
    var isLoading: bool
    var hasError: bool

    /** The URL index stays inside the list (0 when it is empty), and
        every URL is playable. */
    ghost predicate Valid()
      reads this
    {
      && (|videoUrls| == 0 ==> currentUrlIndex == 0)
      && (|videoUrls| > 0 ==> currentUrlIndex < |videoUrls|)
      && forall k :: 0 <= k < |videoUrls| ==> Playable(videoUrls[k])
    }

    constructor (video: TikTok.Item)
      ensures Valid()
      ensures videoId == video.id && videoUrls == Filter(Playable, ConcatPresent(PlaySources(video)))
      ensures currentUrlIndex == 0 && isLoading && !hasError
    {
      var urls := GetVideoUrls(video);
      forall k | 0 <= k < |urls|
        ensures Playable(urls[k])
      {
        FilterMembers(Playable, ConcatPresent(PlaySources(video)), urls[k]);
      }
      videoId := video.id;
      videoUrls := urls;
      currentUrlIndex := 0;
      isLoading := true;
      hasError := false;
    }

    /** `videoUrls[currentUrlIndex]`, undefined past the end. */
    function CurrentUrl(): Option<string>
      reads this
    {
      if currentUrlIndex < |videoUrls| then Some(videoUrls[currentUrlIndex]) else None
    }

    /** The `<video>` element is shown iff there is a URL and no error;
        otherwise the "Watch on TikTok" fallback link is. */
    predicate ShowsPlayer()
      reads this
    {
      |videoUrls| > 0 && !hasError
    }

    /** Whenever the player is shown it plays a playable URL. */
    lemma ShownPlayerHasUrl()
      requires Valid()
      ensures ShowsPlayer() ==> CurrentUrl().Some? && Playable(CurrentUrl().value)
    {
    }

    /** The effect on `[video.id]`: opening a different video recomputes
        its URLs and resets to the first URL, loading, with no error; the
        same id leaves the state alone. */
    method ShowVideo(video: TikTok.Item)
      requires Valid()
      modifies this
      ensures Valid()
      ensures video.id != old(videoId) ==>
        && videoId == video.id
        && videoUrls == Filter(Playable, ConcatPresent(PlaySources(video)))
        && currentUrlIndex == 0 && isLoading && !hasError
      ensures video.id == old(videoId) ==>
        && videoId == old(videoId) && videoUrls == old(videoUrls)
        && currentUrlIndex == old(currentUrlIndex) && isLoading == old(isLoading) && hasError == old(hasError)
    {
      if video.id != videoId {
        var urls := GetVideoUrls(video);
        forall k | 0 <= k < |urls|
          ensures Playable(urls[k])
        {
          FilterMembers(Playable, ConcatPresent(PlaySources(video)), urls[k]);
        }
        videoId := video.id;
        videoUrls := urls;
        currentUrlIndex := 0;
        isLoading := true;
        hasError := false;
      }
    }

    /** handleVideoError: try the next URL while there is one; on the last
        (or with none) record the error and keep the index. */
    method HandleVideoError()
      requires Valid()
      modifies this
      ensures Valid()
      ensures videoId == old(videoId) && videoUrls == old(videoUrls) && isLoading == old(isLoading)
      ensures old(currentUrlIndex) < |videoUrls| - 1 ==>
        currentUrlIndex == old(currentUrlIndex) + 1 && hasError == old(hasError)
      ensures old(currentUrlIndex) >= |videoUrls| - 1 ==>
        currentUrlIndex == old(currentUrlIndex) && hasError
    {
      if currentUrlIndex < |videoUrls| - 1 {
        currentUrlIndex := currentUrlIndex + 1;
      } else {
        hasError := true;
      }
    }

    /** handleVideoLoad: the current URL has loaded. */
    method HandleVideoLoad()
      requires Valid()
      modifies this
      ensures Valid()
      ensures !isLoading
      ensures videoId == old(videoId) && videoUrls == old(videoUrls)
      ensures currentUrlIndex == old(currentUrlIndex) && hasError == old(hasError)
    {
      isLoading := false;
    }
  }
}
