/** The reduction pass of the search route (app/api/search/route.ts, the
    loop in GET): settled page results are folded in offset order into one
    deduplicated, time-filtered item list and four counters.

    The specification functions below describe the result; `Reduce` is the
    loop, proved to compute it; the lemmas state what the result promises. */
module Aggregation {
  import opened Wrappers
  import opened Seqs
  import opened TikTok
  import opened DateRange
  import opened PageFetch

  /** The body of a successful search response. */
  datatype SearchResult = SearchResult(
    creditsRemaining: Field<int>,
    items: seq<Item>,
    pagesFetched: nat,
    totalVideosChecked: nat,
    filteredOut: nat)

  /** The ids occurring in `s`. */
  function IdsOf(s: seq<Item>): set<string>
    decreases |s|
  {
    if s == [] then {} else IdsOf(Init(s)) + {Last(s).id}
  }

  /** No id occurs twice. */
  predicate NoDuplicateIds(s: seq<Item>) {
    forall i, j :: 0 <= i < j < |s| ==> s[i].id != s[j].id
  }

  /** The first position of `s` whose item carries `id`, or `|s|` when no
      item does (`FirstIndexIsFirst` shows that no earlier item carries it). */
  function FirstIndexOf(s: seq<Item>, id: string): (k: nat)
    ensures k <= |s|
    ensures k < |s| ==> s[k].id == id
    decreases |s|
  {
    if s == [] then 0
    else if id in IdsOf(Init(s)) then FirstIndexOf(Init(s), id)
    else if Last(s).id == id then |s| - 1
    else |s|
  }

  /** `x` is the first item of `all` carrying its id. */
  predicate IsFirstItem(all: seq<Item>, x: Item) {
    FirstIndexOf(all, x.id) < |all| && all[FirstIndexOf(all, x.id)] == x
  }

  /** The position at which an item's id first appears in `all`. */
  function FirstIndexKey(all: seq<Item>): Item -> int {
    (x: Item) => FirstIndexOf(all, x.id)
  }

  /** Each item of `r` is the first item of `all` carrying its id, and `r`
      lists them in the order of those first positions. */
  predicate InFirstOrder(all: seq<Item>, r: seq<Item>) {
    && (forall x :: x in r ==> IsFirstItem(all, x))
    && IncreasingBy(FirstIndexKey(all), r)
  }

  /** The items of the successful pages, page after page in offset order,
      each page in upstream order; failed pages contribute nothing. */
  function ItemsInOffsetOrder(pages: seq<Option<Page>>): seq<Item>
    decreases |pages|
  {
    if pages == [] then []
    else match Last(pages)
      case None => ItemsInOffsetOrder(Init(pages))
      case Some(page) => ItemsInOffsetOrder(Init(pages)) + page.items
  }

  /** The first item carrying each id, in order of first appearance. */
  function FirstOccurrences(s: seq<Item>): seq<Item>
    decreases |s|
  {
    if s == [] then []
    else if Last(s).id in IdsOf(Init(s)) then FirstOccurrences(Init(s))
    else FirstOccurrences(Init(s)) + [Last(s)]
  }

  /** The items the publish-time window accepts, in order. */
  function Accepted(p: PublishTime, clock: Clock, s: seq<Item>): seq<Item>
    decreases |s|
  {
    if s == [] then []
    else if InRange(p, clock, Last(s).createTime) then Accepted(p, clock, Init(s)) + [Last(s)]
    else Accepted(p, clock, Init(s))
  }

  /** The items the publish-time window rejects, in order. */
  function Rejected(p: PublishTime, clock: Clock, s: seq<Item>): seq<Item>
    decreases |s|
  {
    if s == [] then []
    else if InRange(p, clock, Last(s).createTime) then Rejected(p, clock, Init(s))
    else Rejected(p, clock, Init(s)) + [Last(s)]
  }

  /** How many page results are pages rather than failures. */
  function SuccessCount(pages: seq<Option<Page>>): nat
    decreases |pages|
  {
    if pages == [] then 0
    else SuccessCount(Init(pages)) + (if Last(pages).Some? then 1 else 0)
  }

  /** The credit counter of the last successful page, or 0 when none is. */
  function LastCredits(pages: seq<Option<Page>>): Field<int>
    decreases |pages|
  {
    if pages == [] then Value(0)
    else match Last(pages)
      case Some(page) => page.creditsRemaining
      case None => LastCredits(Init(pages))
  }

  /** The response the reduction pass produces for the settled pages. */
  function Aggregate(pages: seq<Option<Page>>, p: PublishTime, clock: Clock): SearchResult {
    var firsts := FirstOccurrences(ItemsInOffsetOrder(pages));
    SearchResult(
      LastCredits(pages),
      Accepted(p, clock, firsts),
      SuccessCount(pages),
      |firsts|,
      |Rejected(p, clock, firsts)|)
  }

  /** The reduction loop: a seen-id set, three counters, the credit
      counter and the output list, updated page by page; a failed page is
      skipped, a successful one is counted, sets the credit counter and has
      its items folded in by `FoldItems`. */
  method Reduce(pageResults: seq<Option<Page>>, p: PublishTime, clock: Clock) returns (r: SearchResult)
    ensures r == Aggregate(pageResults, p, clock)
  {
    var filteredVideos: seq<Item> := [];
    var seenIds: set<string> := {};
    var totalVideosChecked: nat := 0;
    var filteredOut: nat := 0;
    var creditsRemaining: Field<int> := Value(0);
    var pagesFetched: nat := 0;
    ghost var done: seq<Item> := [];

    for i := 0 to |pageResults|
      invariant done == ItemsInOffsetOrder(pageResults[..i])
      invariant seenIds == IdsOf(done)
      invariant filteredVideos == Accepted(p, clock, FirstOccurrences(done))
      invariant totalVideosChecked == |FirstOccurrences(done)|
      invariant filteredOut == |Rejected(p, clock, FirstOccurrences(done))|
      invariant pagesFetched == SuccessCount(pageResults[..i])
      invariant creditsRemaining == LastCredits(pageResults[..i])
    {
      PageStep(pageResults, i);
      if pageResults[i].None? {
        continue;
      }
      var pageData := pageResults[i].value;
      pagesFetched := pagesFetched + 1;
      creditsRemaining := pageData.creditsRemaining;
      seenIds, filteredVideos, totalVideosChecked, filteredOut :=
        FoldItems(pageData.items, p, clock, done, seenIds, filteredVideos, totalVideosChecked, filteredOut);
      done := done + pageData.items;
    }
    assert pageResults[..|pageResults|] == pageResults;
    r := SearchResult(creditsRemaining, filteredVideos, pagesFetched, totalVideosChecked, filteredOut);
  }

  /** The inner loop over one page's items, continuing from the state the
      earlier items `done` left: an id already seen is skipped untouched;
      a new id is recorded, counted, and sent either to the output or to
      the filtered-out count. */
  method FoldItems(items: seq<Item>, p: PublishTime, clock: Clock, ghost done: seq<Item>,
                   seenIds0: set<string>, filteredVideos0: seq<Item>, checked0: nat, filteredOut0: nat)
    returns (seenIds: set<string>, filteredVideos: seq<Item>, totalVideosChecked: nat, filteredOut: nat)
    requires seenIds0 == IdsOf(done)
    requires filteredVideos0 == Accepted(p, clock, FirstOccurrences(done))
    requires checked0 == |FirstOccurrences(done)|
    requires filteredOut0 == |Rejected(p, clock, FirstOccurrences(done))|
    ensures seenIds == IdsOf(done + items)
    ensures filteredVideos == Accepted(p, clock, FirstOccurrences(done + items))
    ensures totalVideosChecked == |FirstOccurrences(done + items)|
    ensures filteredOut == |Rejected(p, clock, FirstOccurrences(done + items))|
  {
    seenIds, filteredVideos, totalVideosChecked, filteredOut := seenIds0, filteredVideos0, checked0, filteredOut0;
    ghost var stream := done;
    for j := 0 to |items|
      invariant stream == done + items[..j]
      invariant seenIds == IdsOf(stream)
      invariant filteredVideos == Accepted(p, clock, FirstOccurrences(stream))
      invariant totalVideosChecked == |FirstOccurrences(stream)|
      invariant filteredOut == |Rejected(p, clock, FirstOccurrences(stream))|
    {
      var video := items[j];
      PrefixStep(done, items, j);
      if video.id in seenIds {
        RepeatedIdStep(stream, video);
        stream := stream + [video];
        continue;
      }
      NewIdStep(p, clock, stream, video);
      seenIds := seenIds + {video.id};
      stream := stream + [video];
      totalVideosChecked := totalVideosChecked + 1;
      if InRange(p, clock, video.createTime) {
        filteredVideos := filteredVideos + [video];
      } else {
        filteredOut := filteredOut + 1;
      }
    }
    assert items[..|items|] == items;
  }

  // ---------------------------------------------------------------------
  // Properties of the specification functions

  /** One page result folded in: its items join the stream, and a page
      (not a failure) is counted and sets the credit counter. */
  lemma PageStep(pages: seq<Option<Page>>, i: nat)
    requires i < |pages|
    ensures ItemsInOffsetOrder(pages[..i + 1]) ==
      ItemsInOffsetOrder(pages[..i]) + (if pages[i].Some? then pages[i].value.items else [])
    ensures SuccessCount(pages[..i + 1]) == SuccessCount(pages[..i]) + (if pages[i].Some? then 1 else 0)
    ensures LastCredits(pages[..i + 1]) ==
      if pages[i].Some? then pages[i].value.creditsRemaining else LastCredits(pages[..i])
  {
    assert Init(pages[..i + 1]) == pages[..i] && Last(pages[..i + 1]) == pages[i];
  }

  /** An item whose id was already seen changes neither the ids nor the
      first occurrences. */
  lemma RepeatedIdStep(done: seq<Item>, x: Item)
    requires x.id in IdsOf(done)
    ensures IdsOf(done + [x]) == IdsOf(done)
    ensures FirstOccurrences(done + [x]) == FirstOccurrences(done)
  {
    assert Init(done + [x]) == done && Last(done + [x]) == x;
  }

  /** An item with a new id is a new first occurrence, and the window
      sends it either to the accepted or to the rejected items. */
  lemma NewIdStep(p: PublishTime, clock: Clock, done: seq<Item>, x: Item)
    requires x.id !in IdsOf(done)
    ensures IdsOf(done + [x]) == IdsOf(done) + {x.id}
    ensures FirstOccurrences(done + [x]) == FirstOccurrences(done) + [x]
    ensures Accepted(p, clock, FirstOccurrences(done + [x])) ==
      Accepted(p, clock, FirstOccurrences(done)) + (if InRange(p, clock, x.createTime) then [x] else [])
    ensures |Rejected(p, clock, FirstOccurrences(done + [x]))| ==
      |Rejected(p, clock, FirstOccurrences(done))| + (if InRange(p, clock, x.createTime) then 0 else 1)
  {
    assert Init(done + [x]) == done && Last(done + [x]) == x;
    var firsts := FirstOccurrences(done) + [x];
    assert Init(firsts) == FirstOccurrences(done) && Last(firsts) == x;
  }


  lemma {:induction false} IdsOfIndex(s: seq<Item>, i: nat)
    requires i < |s|
    ensures s[i].id in IdsOf(s)
    decreases |s|
  {
    if i < |s| - 1 {
      IdsOfIndex(Init(s), i);
    }
  }

  lemma {:induction false} NotInIds(s: seq<Item>, id: string)
    requires forall i :: 0 <= i < |s| ==> s[i].id != id
    ensures id !in IdsOf(s)
    decreases |s|
  {
    if s != [] {
      NotInIds(Init(s), id);
    }
  }

  /** Appending an item whose id is new keeps the ids distinct. */
  lemma AppendKeepsDistinct(s: seq<Item>, x: Item)
    requires NoDuplicateIds(s) && x.id !in IdsOf(s)
    ensures NoDuplicateIds(s + [x])
  {
    forall i | 0 <= i < |s|
      ensures s[i].id != x.id
    {
      IdsOfIndex(s, i);
    }
  }

  /** Keeping first occurrences loses no id and leaves no id twice. */
  lemma {:induction false} FirstOccurrencesIds(s: seq<Item>)
    ensures IdsOf(FirstOccurrences(s)) == IdsOf(s)
    ensures NoDuplicateIds(FirstOccurrences(s))
    decreases |s|
  {
    if s != [] {
      var prev := FirstOccurrences(Init(s));
      FirstOccurrencesIds(Init(s));
      if Last(s).id !in IdsOf(Init(s)) {
        var r := prev + [Last(s)];
        assert Init(r) == prev && Last(r) == Last(s);
        AppendKeepsDistinct(prev, Last(s));
      }
    }
  }

  /** In a sequence without repeated ids, the last id is new. */
  lemma LastIdIsNew(s: seq<Item>)
    requires |s| > 0 && NoDuplicateIds(s)
    ensures NoDuplicateIds(Init(s)) && Last(s).id !in IdsOf(Init(s))
  {
    NotInIds(Init(s), Last(s).id);
  }

  /** Sequences without repeated ids have as many ids as elements. */
  lemma {:induction false} DistinctIdsCount(s: seq<Item>)
    requires NoDuplicateIds(s)
    ensures |IdsOf(s)| == |s|
    decreases |s|
  {
    if s != [] {
      LastIdIsNew(s);
      DistinctIdsCount(Init(s));
    }
  }

  /** Items with fresh ids are all kept: with no repeats, nothing is dropped. */
  lemma {:induction false} FirstOccurrencesOfDistinct(s: seq<Item>)
    requires NoDuplicateIds(s)
    ensures FirstOccurrences(s) == s
    decreases |s|
  {
    if s != [] {
      LastIdIsNew(s);
      FirstOccurrencesOfDistinct(Init(s));
      assert FirstOccurrences(s) == Init(s) + [Last(s)];
      assert Init(s) + [Last(s)] == s;
    }
  }

  /** A kept item sits at some position of `s` that no earlier position
      shares its id with. */
  lemma {:induction false} FirstOccurrenceSound(s: seq<Item>, x: Item)
    requires x in FirstOccurrences(s)
    ensures exists k :: 0 <= k < |s| && s[k] == x && x.id !in IdsOf(s[..k])
    decreases |s|
  {
    var init, n := Init(s), |s| - 1;
    assert s[..n] == init;
    if x in FirstOccurrences(init) {
      FirstOccurrenceSound(init, x);
      var k :| 0 <= k < |init| && init[k] == x && x.id !in IdsOf(init[..k]);
      assert s[..k] == init[..k] && s[k] == init[k];
    } else {
      assert Last(s).id !in IdsOf(init);
      assert FirstOccurrences(s) == FirstOccurrences(init) + [Last(s)];
      assert s[n] == x;
    }
  }

  /** An item at a position that no earlier position shares its id with
      is kept. */
  lemma {:induction false} FirstOccurrenceComplete(s: seq<Item>, k: nat)
    requires k < |s| && s[k].id !in IdsOf(s[..k])
    ensures s[k] in FirstOccurrences(s)
    decreases |s|
  {
    var init, n := Init(s), |s| - 1;
    assert s[..n] == init;
    if k < n {
      assert init[..k] == s[..k] && init[k] == s[k];
      FirstOccurrenceComplete(init, k);
      assert FirstOccurrences(s) == FirstOccurrences(init) || FirstOccurrences(s) == FirstOccurrences(init) + [Last(s)];
    } else {
      assert FirstOccurrences(s) == FirstOccurrences(init) + [Last(s)];
    }
  }

  /** An item is kept exactly when it sits at some position of `s` and no
      earlier position carries its id. */
  lemma FirstOccurrenceMembers(s: seq<Item>, x: Item)
    ensures x in FirstOccurrences(s) <==>
      exists k :: 0 <= k < |s| && s[k] == x && x.id !in IdsOf(s[..k])
  {
    if x in FirstOccurrences(s) {
      FirstOccurrenceSound(s, x);
    }
    if exists k :: 0 <= k < |s| && s[k] == x && x.id !in IdsOf(s[..k]) {
      var k :| 0 <= k < |s| && s[k] == x && x.id !in IdsOf(s[..k]);
      FirstOccurrenceComplete(s, k);
    }
  }

  lemma {:induction false} FirstOccurrencesIsSubseq(s: seq<Item>)
    ensures SubseqOf(FirstOccurrences(s), s)
    decreases |s|
  {
    if s != [] {
      FirstOccurrencesIsSubseq(Init(s));
      var r := FirstOccurrences(s);
      if Last(s).id in IdsOf(Init(s)) {
        SubseqDropLast(r, s);
      } else {
        assert Init(r) == FirstOccurrences(Init(s)) && Last(r) == Last(s);
      }
    }
  }

  /** No item before `FirstIndexOf(s, id)` carries `id`; in particular the
      result is `|s|` only when no item of `s` carries it. */
  lemma {:induction false} FirstIndexIsFirst(s: seq<Item>, id: string)
    ensures id !in IdsOf(s[..FirstIndexOf(s, id)])
    decreases |s|
  {
    if s != [] {
      var init := Init(s);
      if id in IdsOf(init) {
        var k := FirstIndexOf(init, id);
        FirstIndexIsFirst(init, id);
        assert init[..|init|] == init;
        assert s[..k] == init[..k];
      } else if Last(s).id != id {
        assert s[..|s|] == s;
      }
    }
  }

  /** Deduplication keeps each id's first item and lists them in the order
      in which their ids first appear. */
  lemma {:induction false} FirstOccurrencesInOrder(s: seq<Item>)
    ensures InFirstOrder(s, FirstOccurrences(s))
    decreases |s|
  {
    if s != [] {
      var init, n := Init(s), |s| - 1;
      var r0 := FirstOccurrences(init);
      FirstOccurrencesInOrder(init);
      // Every id kept so far first appears before the last position.
      forall x | x in r0
        ensures FirstIndexOf(s, x.id) == FirstIndexOf(init, x.id) < n
        ensures IsFirstItem(s, x)
      {
        FirstIndexIsFirst(init, x.id);
        IdsOfIndex(init, FirstIndexOf(init, x.id));
      }
      forall i, j | 0 <= i < j < |r0|
        ensures FirstIndexKey(s)(r0[i]) < FirstIndexKey(s)(r0[j])
      {
        assert r0[i] in r0 && r0[j] in r0;
      }
      if Last(s).id !in IdsOf(init) {
        assert FirstOccurrences(s) == r0 + [Last(s)];
        assert FirstIndexOf(s, Last(s).id) == n;
        AppendIncreasing(FirstIndexKey(s), r0, Last(s));
      }
    }
  }

  /** The window splits its input: every item is accepted or rejected. */
  lemma {:induction false} WindowPartition(p: PublishTime, clock: Clock, s: seq<Item>)
    ensures |Accepted(p, clock, s)| + |Rejected(p, clock, s)| == |s|
    decreases |s|
  {
    if s != [] {
      WindowPartition(p, clock, Init(s));
    }
  }

  lemma {:induction false} AcceptedMembers(p: PublishTime, clock: Clock, s: seq<Item>, x: Item)
    ensures x in Accepted(p, clock, s) <==> x in s && InRange(p, clock, x.createTime)
    decreases |s|
  {
    if s != [] {
      AcceptedMembers(p, clock, Init(s), x);
      assert s == Init(s) + [Last(s)];
    }
  }

  lemma {:induction false} AcceptedIsSubseq(p: PublishTime, clock: Clock, s: seq<Item>)
    ensures SubseqOf(Accepted(p, clock, s), s)
    decreases |s|
  {
    if s != [] {
      AcceptedIsSubseq(p, clock, Init(s));
      var r := Accepted(p, clock, s);
      if InRange(p, clock, Last(s).createTime) {
        assert r == Accepted(p, clock, Init(s)) + [Last(s)];
        assert r != [] && Init(r) == Accepted(p, clock, Init(s)) && Last(r) == Last(s);
      } else {
        assert r == Accepted(p, clock, Init(s));
        SubseqDropLast(r, s);
      }
    }
  }

  /** Filtering by the window keeps any strictly increasing order. */
  lemma {:induction false} AcceptedIncreasing(p: PublishTime, clock: Clock, key: Item -> int, s: seq<Item>)
    requires IncreasingBy(key, s)
    ensures IncreasingBy(key, Accepted(p, clock, s))
    decreases |s|
  {
    if s != [] {
      var init, n := Init(s), |s| - 1;
      assert forall i :: 0 <= i < n ==> init[i] == s[i];
      AcceptedIncreasing(p, clock, key, init);
      var a0 := Accepted(p, clock, init);
      if InRange(p, clock, Last(s).createTime) {
        forall y | y in a0
          ensures key(y) < key(Last(s))
        {
          AcceptedMembers(p, clock, init, y);
          var m :| 0 <= m < n && init[m] == y;
          assert s[m] == y && s[n] == Last(s);
        }
        assert Accepted(p, clock, s) == a0 + [Last(s)];
        AppendIncreasing(key, a0, Last(s));
      }
    }
  }

  /** Filtering by the window keeps the first-appearance order. */
  lemma AcceptedInFirstOrder(p: PublishTime, clock: Clock, all: seq<Item>, s: seq<Item>)
    requires InFirstOrder(all, s)
    ensures InFirstOrder(all, Accepted(p, clock, s))
  {
    forall x | x in Accepted(p, clock, s)
      ensures IsFirstItem(all, x)
    {
      AcceptedMembers(p, clock, s, x);
    }
    AcceptedIncreasing(p, clock, FirstIndexKey(all), s);
  }

  /** `all-time` accepts everything, so nothing is filtered out. */
  lemma {:induction false} AllTimeAcceptsAll(clock: Clock, s: seq<Item>)
    ensures Accepted(AllTime, clock, s) == s
    ensures Rejected(AllTime, clock, s) == []
    decreases |s|
  {
    if s != [] {
      AllTimeAcceptsAll(clock, Init(s));
      assert InRange(AllTime, clock, Last(s).createTime);
      assert Init(s) + [Last(s)] == s;
    }
  }

  lemma {:induction false} SubseqIds(a: seq<Item>, b: seq<Item>)
    requires SubseqOf(a, b)
    ensures IdsOf(a) <= IdsOf(b)
    decreases |b|
  {
    if a != [] {
      if Last(a) == Last(b) && SubseqOf(Init(a), Init(b)) {
        SubseqIds(Init(a), Init(b));
      } else {
        SubseqIds(a, Init(b));
      }
    }
  }

  /** Deleting items cannot create a repeated id. */
  lemma {:induction false} SubseqKeepsDistinct(a: seq<Item>, b: seq<Item>)
    requires SubseqOf(a, b) && NoDuplicateIds(b)
    ensures NoDuplicateIds(a)
    decreases |b|
  {
    if a != [] {
      LastIdIsNew(b);
      if Last(a) == Last(b) && SubseqOf(Init(a), Init(b)) {
        SubseqKeepsDistinct(Init(a), Init(b));
        SubseqIds(Init(a), Init(b));
        assert a == Init(a) + [Last(a)];
        AppendKeepsDistinct(Init(a), Last(a));
      } else {
        SubseqKeepsDistinct(a, Init(b));
      }
    }
  }

  function SucceededIndices(pages: seq<Option<Page>>): set<nat> {
    set k: nat | k < |pages| && pages[k].Some?
  }

  function FailedIndices(pages: seq<Option<Page>>): set<nat> {
    set k: nat | k < |pages| && pages[k].None?
  }

  /** `pagesFetched` counts exactly the page results that are pages; the
      failed ones make up the rest. */
  lemma {:induction false} SuccessCountCounts(pages: seq<Option<Page>>)
    ensures SuccessCount(pages) == |SucceededIndices(pages)|
    ensures SuccessCount(pages) + |FailedIndices(pages)| == |pages|
    decreases |pages|
  {
    if pages != [] {
      var init, n := Init(pages), |pages| - 1;
      SuccessCountCounts(init);
      assert forall k :: 0 <= k < n ==> init[k] == pages[k];
      assert n !in SucceededIndices(init) && n !in FailedIndices(init);
      if pages[n].Some? {
        assert SucceededIndices(pages) == SucceededIndices(init) + {n};
        assert FailedIndices(pages) == FailedIndices(init);
      } else {
        assert SucceededIndices(pages) == SucceededIndices(init);
        assert FailedIndices(pages) == FailedIndices(init) + {n};
      }
    } else {
      assert SucceededIndices(pages) == {};
      assert FailedIndices(pages) == {};
    }
  }

  /** With every page failed, the credit counter keeps its initial 0. */
  lemma {:induction false} NoSuccessNoCredits(pages: seq<Option<Page>>)
    requires forall k :: 0 <= k < |pages| ==> pages[k].None?
    ensures LastCredits(pages) == Value(0)
    decreases |pages|
  {
    if pages != [] {
      var init := Init(pages);
      assert forall k :: 0 <= k < |init| ==> init[k] == pages[k];
      NoSuccessNoCredits(init);
    }
  }

  /** Once page `k0` succeeded, the credit counter is that of the last
      successful page, which is `k0` or a later one. */
  lemma {:induction false} LastCreditsIsLastSuccess(pages: seq<Option<Page>>, k0: nat)
    requires k0 < |pages| && pages[k0].Some?
    ensures exists k ::
      && k0 <= k < |pages| && pages[k].Some? && LastCredits(pages) == pages[k].value.creditsRemaining
      && (forall j :: k < j < |pages| ==> pages[j].None?)
    decreases |pages|
  {
    var init, n := Init(pages), |pages| - 1;
    if pages[n].Some? {
      assert k0 <= n && LastCredits(pages) == pages[n].value.creditsRemaining;
    } else {
      assert k0 < n && init[k0] == pages[k0];
      LastCreditsIsLastSuccess(init, k0);
      var k :| k0 <= k < |init| && init[k].Some? && LastCredits(init) == init[k].value.creditsRemaining
        && forall j :: k < j < |init| ==> init[j].None?;
      assert pages[k] == init[k];
      assert forall j :: k < j < n ==> pages[j] == init[j];
      assert LastCredits(pages) == LastCredits(init);
      assert forall j :: k < j < |pages| ==> pages[j].None?;
    }
  }

  // ---------------------------------------------------------------------
  // What the search response promises

  /** Counting: every distinct id across the successful pages is checked
      exactly once, and each checked item is either returned or filtered
      out. */
  lemma AggregateCounts(pages: seq<Option<Page>>, p: PublishTime, clock: Clock)
    ensures var r := Aggregate(pages, p, clock);
      && r.filteredOut + |r.items| == r.totalVideosChecked
      && r.totalVideosChecked == |IdsOf(ItemsInOffsetOrder(pages))|
      && r.pagesFetched == |SucceededIndices(pages)| <= |pages|
  {
    var firsts := FirstOccurrences(ItemsInOffsetOrder(pages));
    WindowPartition(p, clock, firsts);
    FirstOccurrencesIds(ItemsInOffsetOrder(pages));
    DistinctIdsCount(firsts);
    SuccessCountCounts(pages);
  }

  /** Deduplication and order: no id is returned twice, the returned items
      appear in the order they were first met (page order, then upstream
      order), and every one of them is inside the window. */
  lemma AggregateItems(pages: seq<Option<Page>>, p: PublishTime, clock: Clock)
    ensures var r := Aggregate(pages, p, clock);
      && NoDuplicateIds(r.items)
      && SubseqOf(r.items, ItemsInOffsetOrder(pages))
      && InFirstOrder(ItemsInOffsetOrder(pages), r.items)
      && forall x :: x in r.items ==> InRange(p, clock, x.createTime)
  {
    var all := ItemsInOffsetOrder(pages);
    var firsts := FirstOccurrences(all);
    var items := Accepted(p, clock, firsts);
    FirstOccurrencesIds(all);
    FirstOccurrencesIsSubseq(all);
    AcceptedIsSubseq(p, clock, firsts);
    SubseqTransitive(items, firsts, all);
    SubseqKeepsDistinct(items, firsts);
    FirstOccurrencesInOrder(all);
    AcceptedInFirstOrder(p, clock, all, firsts);
    forall x | x in items
      ensures InRange(p, clock, x.createTime)
    {
      AcceptedMembers(p, clock, firsts, x);
    }
  }

  /** An item is returned exactly when it is the first item with its id in
      offset order and the window accepts it; a later repeat of an id is
      never returned, whatever its timestamp. */
  lemma AggregateMembers(pages: seq<Option<Page>>, p: PublishTime, clock: Clock, x: Item)
    ensures var all := ItemsInOffsetOrder(pages);
      x in Aggregate(pages, p, clock).items <==>
        (exists k :: 0 <= k < |all| && all[k] == x && x.id !in IdsOf(all[..k]))
        && InRange(p, clock, x.createTime)
  {
    var all := ItemsInOffsetOrder(pages);
    AcceptedMembers(p, clock, FirstOccurrences(all), x);
    FirstOccurrenceMembers(all, x);
  }

  /** With `all-time` nothing is filtered out; when no id repeats across
      or within the pages, every item of every successful page is returned, in
      offset order. */
  lemma AggregateAllTime(pages: seq<Option<Page>>, clock: Clock)
    ensures var r := Aggregate(pages, AllTime, clock);
      && r.filteredOut == 0
      && r.items == FirstOccurrences(ItemsInOffsetOrder(pages))
      && (NoDuplicateIds(ItemsInOffsetOrder(pages)) ==>
            r.items == ItemsInOffsetOrder(pages) && r.totalVideosChecked == |ItemsInOffsetOrder(pages)|)
  {
    var all := ItemsInOffsetOrder(pages);
    AllTimeAcceptsAll(clock, FirstOccurrences(all));
    if NoDuplicateIds(all) {
      FirstOccurrencesOfDistinct(all);
    }
  }

  /** The credit counter reported is that of the last successful page in
      offset order, or 0 when every page failed. */
  lemma AggregateCredits(pages: seq<Option<Page>>, p: PublishTime, clock: Clock)
    ensures var c := Aggregate(pages, p, clock).creditsRemaining;
      && ((forall k :: 0 <= k < |pages| ==> pages[k].None?) ==> c == Value(0))
      && ((exists k :: 0 <= k < |pages| && pages[k].Some?) ==>
            exists k :: 0 <= k < |pages| && pages[k].Some? && c == pages[k].value.creditsRemaining
              && forall j :: k < j < |pages| ==> pages[j].None?)
  {
    if exists k :: 0 <= k < |pages| && pages[k].Some? {
      var k0 :| 0 <= k0 < |pages| && pages[k0].Some?;
      LastCreditsIsLastSuccess(pages, k0);
    } else {
      NoSuccessNoCredits(pages);
    }
  }
}
