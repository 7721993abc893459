/** movie_long_review.py: the Douban long-review listing turned into one
    record per review, with the review's full text. */
module LongReview {

  import opened Options
  import opened Text
  import opened Records
  import opened Statistic

  // ---------------------------------------------------------------------------
  // Review ids and review text

  /** `item_id.split('_')[-1]`: the review number of an item id such as
      "review_12345". */
  function ReviewId(itemId: string): (r: string)
    ensures '_' !in r
  {
    var pieces := SplitOn(itemId, '_');
    pieces[|pieces| - 1]
  }

  /** The id is the longest suffix of the item id without '_': the whole id
      when it has no '_', and otherwise exactly the text after its last '_'. */
  lemma ReviewIdShape(itemId: string)
    ensures var r := ReviewId(itemId);
            |r| <= |itemId| && itemId[|itemId| - |r|..] == r
            && (|r| < |itemId| ==> itemId[|itemId| - |r| - 1] == '_')
            && ('_' !in itemId ==> r == itemId)
  {
    SplitOnLast(itemId, '_');
    if '_' !in itemId {
      SplitOnAbsent(itemId, '_');
    }
  }

  /** Whatever comes before the last '_' does not matter. */
  lemma ReviewIdAfterLastUnderscore(prefix: string, digits: string)
    requires '_' !in digits
    ensures ReviewId(prefix + "_" + digits) == digits
  {
    var s := prefix + "_" + digits;
    var r := ReviewId(s);
    ReviewIdShape(s);
    assert s[|prefix|] == '_';
    if |r| < |digits| {
      assert false;
    } else if |r| > |digits| {
      assert false;
    }
    assert s[|s| - |digits|..] == digits;
  }

  /** The paragraphs `get_longreview_content` keeps: each stripped, the blank
      ones dropped, in page order. */
  function KeptParagraphs(paragraphs: seq<string>): (r: seq<string>)
    ensures |r| <= |paragraphs|
    ensures forall i | 0 <= i < |r| :: r[i] != []
    decreases |paragraphs|
  {
    if |paragraphs| == 0 then []
    else
      var p := Strip(paragraphs[|paragraphs| - 1]);
      KeptParagraphs(paragraphs[..|paragraphs| - 1]) + (if p != [] then [p] else [])
  }

  /** `"\n".join(p.strip() for p in paragraphs if p.strip())`. */
  function ReviewText(paragraphs: seq<string>): string {
    Join("\n", KeptParagraphs(paragraphs))
  }

  /** Keeping paragraphs commutes with putting pages of paragraphs together:
      nothing is reordered and each paragraph is judged on its own. */
  lemma {:induction false} KeptParagraphsAppend(a: seq<string>, b: seq<string>)
    ensures KeptParagraphs(a + b) == KeptParagraphs(a) + KeptParagraphs(b)
    decreases |b|
  {
    if |b| == 0 {
      assert a + b == a;
    } else {
      var b' := b[..|b| - 1];
      KeptParagraphsAppend(a, b');
      assert (a + b)[..|a + b| - 1] == a + b';
      assert (a + b)[|a + b| - 1] == b[|b| - 1];
    }
  }

  /** Every kept paragraph is stripped already. */
  lemma {:induction false} KeptParagraphsStripped(paragraphs: seq<string>)
    ensures forall i | 0 <= i < |KeptParagraphs(paragraphs)| ::
              Strip(KeptParagraphs(paragraphs)[i]) == KeptParagraphs(paragraphs)[i]
    decreases |paragraphs|
  {
    if |paragraphs| > 0 {
      KeptParagraphsStripped(paragraphs[..|paragraphs| - 1]);
      StripIdempotent(paragraphs[|paragraphs| - 1]);
    }
  }

  /** No paragraph is kept exactly when every paragraph is whitespace. */
  lemma {:induction false} KeptParagraphsEmptyIff(paragraphs: seq<string>)
    ensures KeptParagraphs(paragraphs) == [] <==> forall i | 0 <= i < |paragraphs| :: AllSpace(paragraphs[i])
    decreases |paragraphs|
  {
    if |paragraphs| > 0 {
      var pre := paragraphs[..|paragraphs| - 1];
      KeptParagraphsEmptyIff(pre);
      StripEmptyIff(paragraphs[|paragraphs| - 1]);
      if forall i | 0 <= i < |paragraphs| :: AllSpace(paragraphs[i]) {
        assert forall i | 0 <= i < |pre| :: AllSpace(pre[i]) by {
          forall i | 0 <= i < |pre| ensures AllSpace(pre[i]) {
            assert pre[i] == paragraphs[i];
          }
        }
      }
    }
  }

  /** The review text is empty exactly when the review has no paragraph that is
      not whitespace. */
  lemma ReviewTextEmptyIff(paragraphs: seq<string>)
    ensures ReviewText(paragraphs) == "" <==> forall i | 0 <= i < |paragraphs| :: AllSpace(paragraphs[i])
  {
    KeptParagraphsEmptyIff(paragraphs);
    JoinEmptyIff("\n", KeptParagraphs(paragraphs));
  }

  /** Splitting the review text on line breaks gives the kept paragraphs back,
      when there is one and none of them holds a line break of its own. */
  lemma ReviewTextLines(paragraphs: seq<string>)
    requires KeptParagraphs(paragraphs) != []
    requires forall i | 0 <= i < |KeptParagraphs(paragraphs)| :: '\n' !in KeptParagraphs(paragraphs)[i]
    ensures SplitOn(ReviewText(paragraphs), '\n') == KeptParagraphs(paragraphs)
  {
    SplitOnJoin(KeptParagraphs(paragraphs), '\n');
  }

  // ---------------------------------------------------------------------------
  // The listing

  /** What the XPath queries find in one `div.main.review-item`: the first
      match of each, `None` when there is none. */
  datatype ReviewItem = ReviewItem(
    itemId: Option<string>,  // @id
    title: Option<string>,   // text of h2/a
    link: Option<string>)    // @href of h2/a

  /** The dict appended to `reviews` for one item. */
  datatype ListedReview = ListedReview(id: string, title: string, url: string)

  /** An item without an id, a title or a link raises `IndexError`, which
      nothing catches. */
  predicate ItemCrashes(item: ReviewItem) {
    item.itemId.None? || item.title.None? || item.link.None?
  }

  function Listed(item: ReviewItem): (r: ListedReview)
    requires !ItemCrashes(item)
    ensures '_' !in r.id && r.url == item.link.value
    ensures r.title == Strip(item.title.value)
  {
    ListedReview(ReviewId(item.itemId.value), Strip(item.title.value), item.link.value)
  }

  /** The entries one listing page adds, in page order; `None` once an item
      raises. */
  function PageListing(items: seq<ReviewItem>): Option<seq<ListedReview>>
    decreases |items|
  {
    if |items| == 0 then Some([])
    else
      match PageListing(items[..|items| - 1])
      case None => None
      case Some(pre) =>
        var item := items[|items| - 1];
        if ItemCrashes(item) then None else Some(pre + [Listed(item)])
  }

  /** A page raises exactly when one of its items lacks a field, and otherwise
      yields one entry per item, in order. */
  lemma {:induction false} PageListingIff(items: seq<ReviewItem>)
    ensures PageListing(items).Some? <==> forall i | 0 <= i < |items| :: !ItemCrashes(items[i])
    ensures PageListing(items).Some? ==>
              |PageListing(items).value| == |items|
              && forall i | 0 <= i < |items| :: PageListing(items).value[i] == Listed(items[i])
    decreases |items|
  {
    if |items| > 0 {
      var pre := items[..|items| - 1];
      PageListingIff(pre);
      assert forall i | 0 <= i < |pre| :: pre[i] == items[i];
    }
  }

  /** The inner loop of `get_movie_longreviews` over the items of one page. */
  method ListPage(items: seq<ReviewItem>) returns (listed: Option<seq<ListedReview>>)
    ensures listed == PageListing(items)
  {
    var reviews: seq<ListedReview> := [];
    for j := 0 to |items|
      invariant PageListing(items[..j]) == Some(reviews)
    {
      var it := items[j];
      assert items[..j + 1][..j] == items[..j];
      if ItemCrashes(it) {
        ListingCrashPersists(items, j + 1);
        return None;
      }
      reviews := reviews + [Listed(it)];
    }
    assert items[..|items|] == items;
    listed := Some(reviews);
  }

  lemma {:induction false} ListingCrashPersists(items: seq<ReviewItem>, n: nat)
    requires n <= |items| && PageListing(items[..n]) == None
    ensures PageListing(items) == None
    decreases |items| - n
  {
    if n < |items| {
      assert items[..n + 1][..n] == items[..n];
      ListingCrashPersists(items, n + 1);
    } else {
      assert items[..n] == items;
    }
  }

  /** `max_pages` by default. */
  const MaxPages: nat := 5

  /** Reviews per listing page, and the step of `start`. */
  const PageSize: nat := 20

  /** The listing: `pages[k]` are the review items of the page requested with
      `start = 20 * k`; every page past the end has none. */
  function PageAt(pages: seq<seq<ReviewItem>>, k: nat): seq<ReviewItem> {
    if k < |pages| then pages[k] else []
  }

  /** The entries gathered from page `k` on, for pages below `maxPages`, until
      the first page without items; `None` once an item raises. */
  function ListingFrom(pages: seq<seq<ReviewItem>>, k: nat, maxPages: nat): Option<seq<ListedReview>>
    decreases maxPages - k
  {
    if k >= maxPages || PageAt(pages, k) == [] then Some([])
    else PrependPage(PageListing(PageAt(pages, k)), ListingFrom(pages, k + 1, maxPages))
  }

  /** One page's entries in front of the rest; `None` when either raised. */
  function PrependPage(page: Option<seq<ListedReview>>, rest: Option<seq<ListedReview>>): Option<seq<ListedReview>> {
    if page.None? then None else Prepend(page.value, rest)
  }

  /** How many listing pages are requested from page `k` on. */
  function PagesFetched(pages: seq<seq<ReviewItem>>, k: nat, maxPages: nat): (n: nat)
    ensures k < maxPages ==> 1 <= n <= maxPages - k
    ensures k >= maxPages ==> n == 0
    decreases maxPages - k
  {
    if k >= maxPages then 0
    else if PageAt(pages, k) == [] || PageListing(PageAt(pages, k)).None? then 1
    else 1 + PagesFetched(pages, k + 1, maxPages)
  }

  /** `get_movie_longreviews`: pages 0 to `max_pages - 1` in turn, stopping at
      the first without items. Returns the entries and the `start` of every
      page requested. */
  method GetMovieLongReviews(pages: seq<seq<ReviewItem>>, maxPages: nat)
    returns (reviews: Option<seq<ListedReview>>, starts: seq<nat>)
    ensures reviews == ListingFrom(pages, 0, maxPages)
    ensures |starts| == PagesFetched(pages, 0, maxPages) <= maxPages
    ensures forall i | 0 <= i < |starts| :: starts[i] == PageSize * i
  {
    var listed: seq<ListedReview> := [];
    starts := [];
    assert Prepend(listed, ListingFrom(pages, 0, maxPages)) == ListingFrom(pages, 0, maxPages) by {
      if ListingFrom(pages, 0, maxPages).Some? {
        assert listed + ListingFrom(pages, 0, maxPages).value == ListingFrom(pages, 0, maxPages).value;
      }
    }
    for page := 0 to maxPages
      invariant |starts| == page && forall i | 0 <= i < page :: starts[i] == PageSize * i
      invariant ListingFrom(pages, 0, maxPages) == Prepend(listed, ListingFrom(pages, page, maxPages))
      invariant PagesFetched(pages, 0, maxPages) == page + PagesFetched(pages, page, maxPages)
    {
      var start := page * PageSize;
      starts := starts + [start];
      var items := PageAt(pages, page);
      if items == [] {
        assert listed + [] == listed;
        return Some(listed), starts;
      }
      var onPage := ListPage(items);
      if onPage.None? {
        return None, starts;
      }
      PrependTwice(listed, onPage.value, ListingFrom(pages, page + 1, maxPages));
      listed := listed + onPage.value;
    }
    assert listed + [] == listed;
    reviews := Some(listed);
  }

  /** Pages from the first one without items on are never looked at. */
  lemma {:induction false} ListingStopsAtEmptyPage(pages: seq<seq<ReviewItem>>, j: nat,
                                                  later: seq<seq<ReviewItem>>, k: nat, maxPages: nat)
    requires j < |pages| && pages[j] == [] && k <= j
    ensures ListingFrom(pages[..j + 1] + later, k, maxPages) == ListingFrom(pages, k, maxPages)
    decreases j - k
  {
    var cut := pages[..j + 1] + later;
    assert PageAt(cut, k) == PageAt(pages, k);
    if k < j {
      ListingStopsAtEmptyPage(pages, j, later, k + 1, maxPages);
    }
  }

  /** Pages from `max_pages` on are never looked at either. */
  lemma {:induction false} ListingBounded(pages: seq<seq<ReviewItem>>, later: seq<seq<ReviewItem>>,
                                         k: nat, maxPages: nat)
    requires maxPages <= |pages|
    ensures ListingFrom(pages[..maxPages] + later, k, maxPages) == ListingFrom(pages, k, maxPages)
    decreases maxPages - k
  {
    if k < maxPages {
      var cut := pages[..maxPages] + later;
      assert PageAt(cut, k) == PageAt(pages, k);
      ListingBounded(pages, later, k + 1, maxPages);
    }
  }

  // ---------------------------------------------------------------------------
  // Full reviews

  /** The dict appended to `long_reviews`: title, url and the review text; the
      id is dropped. */
  function LongRecord(entry: ListedReview, paragraphs: seq<string>): (r: Record)
    ensures r.Keys == {"title", "url", "content"}
    ensures r["title"] == Str(entry.title) && r["url"] == Str(entry.url)
    ensures HasTextContent(r) && Content(r) == ReviewText(paragraphs)
  {
    map["title" := Str(entry.title), "url" := Str(entry.url), "content" := Str(ReviewText(paragraphs))]
  }

  /** The full records of a listing; `fetch(url)` are the paragraph texts of the
      review page at `url`. */
  function LongRecords(listing: seq<ListedReview>, fetch: string -> seq<string>): (r: seq<Record>)
    ensures |r| == |listing|
    ensures forall i | 0 <= i < |r| :: r[i] == LongRecord(listing[i], fetch(listing[i].url))
  {
    seq(|listing|, i requires 0 <= i < |listing| => LongRecord(listing[i], fetch(listing[i].url)))
  }

  /** The loop of `get_all_longreviews` over the listing: each listed review's
      text fetched and its record appended, in listing order. */
  method FetchAll(list: seq<ListedReview>, fetch: string -> seq<string>) returns (longReviews: seq<Record>)
    ensures longReviews == LongRecords(list, fetch)
  {
    longReviews := [];
    for j := 0 to |list|
      invariant |longReviews| == j
      invariant forall i | 0 <= i < j :: longReviews[i] == LongRecord(list[i], fetch(list[i].url))
    {
      var r := list[j];
      var content := fetch(r.url);
      longReviews := longReviews + [LongRecord(r, content)];
    }
  }

  /** `get_all_longreviews`: the listing, then each listed review's text, in
      listing order. `pages` is the listing as in `GetMovieLongReviews`. */
  method GetAllLongReviews(pages: seq<seq<ReviewItem>>, fetch: string -> seq<string>)
    returns (longReviews: Option<seq<Record>>)
    ensures ListingFrom(pages, 0, MaxPages).None? ==> longReviews.None?
    ensures ListingFrom(pages, 0, MaxPages).Some? ==>
              longReviews == Some(LongRecords(ListingFrom(pages, 0, MaxPages).value, fetch))
  {
    var reviewList, _ := GetMovieLongReviews(pages, MaxPages);
    if reviewList.None? {
      return None;
    }
    var collected := FetchAll(reviewList.value, fetch);
    longReviews := Some(collected);
  }

  /** Records without a `stars` field are skipped by `stastic_star`: the tally,
      the weighted star sum and the weight sum are those of the other
      comments. */
  lemma {:induction false} UnratedNotTallied(counts: map<int, int>, cs: seq<Record>)
    requires counts.Keys == StarKeys
    requires forall i | 0 <= i < |cs| :: "stars" !in cs[i]
    ensures AllTallySafe(cs)
    ensures Tally(counts, cs) == counts
    ensures StarSum(cs) == 0 && WeightSum(cs) == 0
    ensures forall k :: CountRating(cs, k) == 0
    decreases |cs|
  {
    if |cs| > 0 {
      var pre := cs[..|cs| - 1];
      UnratedNotTallied(counts, pre);
      assert !Counted(cs[|cs| - 1]);
    }
  }

  /** Long reviews carry no stars, so `stastic_star` leaves the tally as it is. */
  lemma LongReviewsNotTallied(counts: map<int, int>, listing: seq<ListedReview>, fetch: string -> seq<string>)
    requires counts.Keys == StarKeys
    ensures AllTallySafe(LongRecords(listing, fetch))
    ensures Tally(counts, LongRecords(listing, fetch)) == counts
    ensures StarSum(LongRecords(listing, fetch)) == 0 && WeightSum(LongRecords(listing, fetch)) == 0
  {
    UnratedNotTallied(counts, LongRecords(listing, fetch));
  }
}
