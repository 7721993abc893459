/** movie_short_review.py: Douban short-review listing pages turned into review
    records, page after page and rating type after rating type. */
module ShortReview {

  import opened Options
  import opened Text
  import opened Records
  import opened Statistic

  /** What the XPath queries find in one `div.comment-item`: the first match of
      each, `None` when there is none. */
  datatype CommentItem = CommentItem(
    name: Option<string>,         // text of span.comment-info/a
    content: Option<string>,      // text of p.comment-content/span
    upvote: Option<string>,       // text of span.votes.vote-count
    time: Option<string>,         // @title of span.comment-time
    location: Option<string>,     // text of span.comment-location, parsed but not stored
    ratingClass: Option<string>)  // @class of the first span whose class contains "rating"

  /** The position of the first decimal digit of `s`, if there is one. */
  function FirstDigitAt(s: string): (r: Option<nat>)
    ensures r.Some? ==> r.value < |s| && IsDigit(s[r.value])
                        && forall j | 0 <= j < r.value :: !IsDigit(s[j])
    ensures r.None? ==> forall j | 0 <= j < |s| :: !IsDigit(s[j])
    decreases |s|
  {
    if |s| == 0 then None
    else if IsDigit(s[0]) then Some(0)
    else
      match FirstDigitAt(s[1..])
      case None => None
      case Some(k) => Some(k + 1)
  }

  /** `stars`: the first character of the first run of digits in the rating
      span's class, kept as a one-character string; the integer 0 when there is
      no rating span or no digit in its class. */
  function StarsOf(ratingClass: Option<string>): Value {
    if ratingClass.None? then Int(0)
    else
      match FirstDigitAt(ratingClass.value)
      case None => Int(0)
      case Some(k) => Str([ratingClass.value[k]])
  }

  /** An item with content but no upvote or no time raises `IndexError`, which
      nothing catches. */
  predicate Crashes(item: CommentItem) {
    item.content.Some? && (item.upvote.None? || item.time.None?)
  }

  /** The fields of a scraped record (`location` is parsed but not stored). */
  const ScrapedFields: set<string> := {"name", "content", "upvote", "time", "stars"}

  /** The dict appended for one comment, from its field values. */
  function ScrapedRecord(name: string, content: string, upvote: string, time: string, stars: Value): (r: Record)
    ensures r.Keys == ScrapedFields
    ensures r["name"] == Str(name) && r["content"] == Str(content)
    ensures r["upvote"] == Str(upvote) && r["time"] == Str(time) && r["stars"] == stars
    ensures HasTextContent(r) && Content(r) == content
  {
    map["name" := Str(name), "content" := Str(content), "upvote" := Str(upvote),
        "time" := Str(time), "stars" := stars]
  }

  /** The record appended for an item that has content, upvote and time: the
      stripped name or "", the stripped content, the stripped upvote text, the
      time as found, and the stars. */
  function ItemRecord(item: CommentItem): (r: Record)
    requires item.content.Some? && item.upvote.Some? && item.time.Some?
    ensures r.Keys == ScrapedFields
    ensures HasTextContent(r) && Content(r) == Strip(item.content.value)
    ensures r["upvote"] == Str(Strip(item.upvote.value)) && r["time"] == Str(item.time.value)
    ensures r["stars"] == StarsOf(item.ratingClass)
  {
    ScrapedRecord(if item.name.Some? then Strip(item.name.value) else "",
                  Strip(item.content.value), Strip(item.upvote.value), item.time.value,
                  StarsOf(item.ratingClass))
  }

  /** The records `get_movie_review_by_url` returns for a page's items: items
      without content skipped, the others in page order; `None` once an item
      raises. */
  function PageRecords(items: seq<CommentItem>): Option<seq<Record>>
    decreases |items|
  {
    if |items| == 0 then Some([])
    else
      match PageRecords(items[..|items| - 1])
      case None => None
      case Some(pre) =>
        var item := items[|items| - 1];
        if item.content.None? then Some(pre)
        else if item.upvote.None? || item.time.None? then None
        else Some(pre + [ItemRecord(item)])
  }

  /** The items of a page that have content, in page order. */
  function KeptItems(items: seq<CommentItem>): (r: seq<CommentItem>)
    ensures forall i | 0 <= i < |r| :: r[i].content.Some? && r[i] in items
    decreases |items|
  {
    if |items| == 0 then []
    else
      var pre := KeptItems(items[..|items| - 1]);
      assert forall x | x in items[..|items| - 1] :: x in items;
      if items[|items| - 1].content.Some? then pre + [items[|items| - 1]] else pre
  }

  lemma PageStep(items: seq<CommentItem>, j: nat)
    requires j < |items|
    ensures items[..j + 1][..j] == items[..j]
    ensures PageRecords(items[..j + 1]) == match PageRecords(items[..j])
              case None => None
              case Some(pre) =>
                if items[j].content.None? then Some(pre)
                else if items[j].upvote.None? || items[j].time.None? then None
                else Some(pre + [ItemRecord(items[j])])
  {
    assert items[..j + 1][..j] == items[..j];
  }

  /** `get_movie_review_by_url` on the items of one page. */
  method ReviewsFromPage(items: seq<CommentItem>) returns (records: Option<seq<Record>>)
    ensures records == PageRecords(items)
  {
    var commentsDict: seq<Record> := [];
    if |items| == 0 {
      return Some(commentsDict);
    }
    var j := 0;
    while j < |items|
      invariant 0 <= j <= |items|
      invariant PageRecords(items[..j]) == Some(commentsDict)
    {
      var commentDiv := items[j];
      PageStep(items, j);
      if commentDiv.content.None? {
        j := j + 1;
        continue;
      }
      if commentDiv.upvote.None? || commentDiv.time.None? {
        assert PageRecords(items[..j + 1]) == None;
        PageCrashPersists(items, j + 1);
        assert items[..j + 1] + items[j + 1..] == items;
        return None;
      }
      commentsDict := commentsDict + [ItemRecord(commentDiv)];
      j := j + 1;
    }
    assert items[..j] == items;
    records := Some(commentsDict);
  }

  /** Once an item has raised, the rest of the page does not matter. */
  lemma {:induction false} PageCrashPersists(items: seq<CommentItem>, n: nat)
    requires n <= |items| && PageRecords(items[..n]) == None
    ensures PageRecords(items) == None
    decreases |items| - n
  {
    if n < |items| {
      PageStep(items, n);
      PageCrashPersists(items, n + 1);
    } else {
      assert items[..n] == items;
    }
  }

  /** A page raises exactly when one of its items has content but lacks the
      upvote or the time. */
  lemma {:induction false} PageCrashIff(items: seq<CommentItem>)
    ensures PageRecords(items).None? <==> exists i | 0 <= i < |items| :: Crashes(items[i])
    decreases |items|
  {
    if |items| > 0 {
      var pre := items[..|items| - 1];
      var last := items[|items| - 1];
      PageCrashIff(pre);
      assert PageRecords(items).None? <==> PageRecords(pre).None? || Crashes(last);
      if exists i | 0 <= i < |pre| :: Crashes(pre[i]) {
        var i :| 0 <= i < |pre| && Crashes(pre[i]);
        assert Crashes(items[i]);
      }
      if exists i | 0 <= i < |items| :: Crashes(items[i]) {
        var i :| 0 <= i < |items| && Crashes(items[i]);
        if i < |pre| {
          assert Crashes(pre[i]);
        }
      }
    }
  }

  /** A page that does not raise yields one record per item with content, in
      page order, each built from that item. */
  lemma {:induction false} PageRecordsKept(items: seq<CommentItem>)
    requires PageRecords(items).Some?
    ensures forall i | 0 <= i < |KeptItems(items)| ::
              KeptItems(items)[i].upvote.Some? && KeptItems(items)[i].time.Some?
    ensures |PageRecords(items).value| == |KeptItems(items)|
    ensures forall i | 0 <= i < |KeptItems(items)| ::
              PageRecords(items).value[i] == ItemRecord(KeptItems(items)[i])
    decreases |items|
  {
    if |items| > 0 {
      var pre := items[..|items| - 1];
      var last := items[|items| - 1];
      assert PageRecords(pre).Some?;
      PageRecordsKept(pre);
      if last.content.Some? {
        assert !Crashes(last);
        assert KeptItems(items) == KeptItems(pre) + [last];
        assert PageRecords(items).value == PageRecords(pre).value + [ItemRecord(last)];
      } else {
        assert KeptItems(items) == KeptItems(pre);
        assert PageRecords(items) == PageRecords(pre);
      }
    }
  }

  /** A class such as "allstar40 rating" gives the one-character string of the
      digit after "allstar". */
  lemma AllstarClass(d: char, rest: string)
    requires IsDigit(d)
    ensures StarsOf(Some("allstar" + [d] + rest)) == Str([d])
  {
    var s := "allstar" + [d] + rest;
    var k := FirstDigitAt(s);
    assert IsDigit(s[7]);
    assert forall j | 0 <= j < 7 :: s[j] == "allstar"[j] && !IsDigit(s[j]);
    assert k.Some? && k.value == 7;
  }

  /** `stars` is 0 exactly when there is no rating span or no digit in its
      class, and otherwise the one-character string of that first digit. */
  lemma StarsShape(ratingClass: Option<string>)
    ensures StarsOf(ratingClass) == Int(0) <==> ratingClass.None? || FirstDigitAt(ratingClass.value).None?
    ensures StarsOf(ratingClass) != Int(0) ==>
              var k := FirstDigitAt(ratingClass.value).value;
              StarsOf(ratingClass) == Str([ratingClass.value[k]]) && IsDigit(ratingClass.value[k])
  {
  }

  /** The rating the tally reads back from a scraped record: the digit's value,
      or 0 (skipped) when there was no digit; never more than 9. */
  lemma ScrapedRating(item: CommentItem)
    requires item.content.Some? && item.upvote.Some? && item.time.Some?
    ensures var r := ItemRecord(item);
            RatingOf(r).Some? && 0 <= RatingOf(r).value <= 9
            && (r["stars"] == Int(0) ==> !Counted(r))
            && (r["stars"] != Int(0) ==>
                  exists k :: FirstDigitAt(item.ratingClass.value) == Some(k)
                              && RatingOf(r) == Some(DigitValue(item.ratingClass.value[k])))
  {
    var r := ItemRecord(item);
    assert "stars" in r;
    StarsShape(item.ratingClass);
    if r["stars"] != Int(0) {
      var k := FirstDigitAt(item.ratingClass.value).value;
      var d := item.ratingClass.value[k];
      ParseDigit(d);
      assert r["stars"] == Str([d]);
      assert RatingOf(r) == ParseInt([d]);
    }
  }

  // ---------------------------------------------------------------------------
  // Paging

  /** `limit`: the page size, and the step of `start`. */
  const Limit: nat := 20

  /** `types`: good, middling and bad ratings, in this order. */
  const PercentTypes: seq<string> := ["h", "m", "l"]

  /** The listing of one rating type: `pages[k]` are the comment items of the
      page requested with `start = 20 * k`; every page past the end has none. */
  function PageAt(pages: seq<seq<CommentItem>>, k: nat): seq<CommentItem> {
    if k < |pages| then pages[k] else []
  }

  /** The records gathered for one rating type from page `k` on: each page's
      records in turn, until the first page that yields none; `None` once a
      page raises. */
  function TypeRecords(pages: seq<seq<CommentItem>>, k: nat): Option<seq<Record>>
    decreases |pages| - k
  {
    if k >= |pages| then Some([])
    else
      match PageRecords(pages[k])
      case None => None
      case Some(rs) => if rs == [] then Some([]) else Prepend(rs, TypeRecords(pages, k + 1))
  }

  /** How many pages are requested for one rating type from page `k` on: up to
      and including the first that yields no record or raises. */
  function PagesRequested(pages: seq<seq<CommentItem>>, k: nat): nat
    decreases |pages| - k
  {
    if k >= |pages| then 1
    else
      match PageRecords(pages[k])
      case None => 1
      case Some(rs) => if rs == [] then 1 else 1 + PagesRequested(pages, k + 1)
  }

  /** The `while True` loop of `get_movie_review` for one rating type: the
      records gathered, and the `start` of every page requested, in order. */
  method CrawlType(pages: seq<seq<CommentItem>>) returns (records: Option<seq<Record>>, starts: seq<nat>)
    ensures records == TypeRecords(pages, 0)
    ensures |starts| == PagesRequested(pages, 0)
    ensures forall i | 0 <= i < |starts| :: starts[i] == Limit * i
  {
    var comments: seq<Record> := [];
    var page: nat := 0;
    var k: nat := 0;
    starts := [];
    assert Prepend(comments, TypeRecords(pages, 0)) == TypeRecords(pages, 0) by {
      if TypeRecords(pages, 0).Some? {
        assert comments + TypeRecords(pages, 0).value == TypeRecords(pages, 0).value;
      }
    }
    while true
      invariant k <= |pages| && page == Limit * k
      invariant |starts| == k && forall i | 0 <= i < k :: starts[i] == Limit * i
      invariant TypeRecords(pages, 0) == Prepend(comments, TypeRecords(pages, k))
      invariant PagesRequested(pages, 0) == k + PagesRequested(pages, k)
      decreases |pages| - k
    {
      starts := starts + [page];
      var tmp := ReviewsFromPage(PageAt(pages, k));
      if tmp.None? {
        return None, starts;
      }
      if tmp.value == [] {
        assert comments + [] == comments;
        break;
      }
      PrependTwice(comments, tmp.value, TypeRecords(pages, k + 1));
      comments := comments + tmp.value;
      page := page + Limit;
      k := k + 1;
    }
    records := Some(comments);
  }

  /** Pages after the first one without records are never looked at. */
  lemma {:induction false} LaterPagesIgnored(pages: seq<seq<CommentItem>>, j: nat,
                                            later: seq<seq<CommentItem>>, k: nat)
    requires j < |pages| && PageRecords(pages[j]) == Some([]) && k <= j
    ensures TypeRecords(pages[..j + 1] + later, k) == TypeRecords(pages, k)
    decreases j - k
  {
    var cut := pages[..j + 1] + later;
    assert k < |cut| && cut[k] == pages[k];
    if k < j {
      LaterPagesIgnored(pages, j, later, k + 1);
    } else {
      assert TypeRecords(cut, k) == Some([]) == TypeRecords(pages, k);
    }
  }

  /** The records of every rating type in `types`, one type after the other;
      `None` once a page raises. */
  function AllRecords(site: string -> seq<seq<CommentItem>>, types: seq<string>): Option<seq<Record>>
    decreases |types|
  {
    if |types| == 0 then Some([])
    else
      match AllRecords(site, types[..|types| - 1])
      case None => None
      case Some(pre) =>
        match TypeRecords(site(types[|types| - 1]), 0)
        case None => None
        case Some(rs) => Some(pre + rs)
  }

  /** `get_movie_review`: the rating types h, m and l in turn, each crawled page
      by page, their records concatenated in that order. `site(t)` is the
      listing of type `t`. */
  method GetMovieReview(site: string -> seq<seq<CommentItem>>) returns (comments: Option<seq<Record>>)
    ensures comments == AllRecords(site, PercentTypes)
  {
    var all: seq<Record> := [];
    var i := 0;
    while i < |PercentTypes|
      invariant 0 <= i <= |PercentTypes|
      invariant AllRecords(site, PercentTypes[..i]) == Some(all)
    {
      var percentType := PercentTypes[i];
      assert PercentTypes[..i + 1][..i] == PercentTypes[..i];
      var tmp, _ := CrawlType(site(percentType));
      if tmp.None? {
        AllRecordsCrashPersists(site, PercentTypes, i + 1);
        return None;
      }
      all := all + tmp.value;
      i := i + 1;
    }
    assert PercentTypes[..i] == PercentTypes;
    comments := Some(all);
  }

  lemma {:induction false} AllRecordsCrashPersists(site: string -> seq<seq<CommentItem>>,
                                                  types: seq<string>, n: nat)
    requires n <= |types| && AllRecords(site, types[..n]) == None
    ensures AllRecords(site, types) == None
    decreases |types| - n
  {
    if n < |types| {
      assert types[..n + 1][..n] == types[..n];
      AllRecordsCrashPersists(site, types, n + 1);
    } else {
      assert types[..n] == types;
    }
  }

  /** A scraped record as stored in `short_reviews.json`: the five fields, a
      string content, and `stars` either 0 or one digit character. */
  predicate WellFormed(r: Record) {
    r.Keys == ScrapedFields
    && HasTextContent(r)
    && (r["stars"] == Int(0) || (r["stars"].Str? && |r["stars"].s| == 1 && IsDigit(r["stars"].s[0])))
  }

  lemma {:induction false} PageRecordsWellFormed(items: seq<CommentItem>)
    requires PageRecords(items).Some?
    ensures forall r | r in PageRecords(items).value :: WellFormed(r)
    decreases |items|
  {
    if |items| > 0 {
      PageRecordsWellFormed(items[..|items| - 1]);
    }
  }

  lemma {:induction false} TypeRecordsWellFormed(pages: seq<seq<CommentItem>>, k: nat)
    requires TypeRecords(pages, k).Some?
    ensures forall r | r in TypeRecords(pages, k).value :: WellFormed(r)
    decreases |pages| - k
  {
    if k < |pages| && PageRecords(pages[k]).Some? && PageRecords(pages[k]).value != [] {
      PageRecordsWellFormed(pages[k]);
      TypeRecordsWellFormed(pages, k + 1);
    }
  }

  /** Every crawled record is well formed, so the star tally reads a rating of
      0 to 9 from each. */
  lemma {:induction false} AllRecordsWellFormed(site: string -> seq<seq<CommentItem>>, types: seq<string>)
    requires AllRecords(site, types).Some?
    ensures forall r | r in AllRecords(site, types).value ::
              WellFormed(r) && RatingOf(r).Some? && 0 <= RatingOf(r).value <= 9
    decreases |types|
  {
    if |types| > 0 {
      AllRecordsWellFormed(site, types[..|types| - 1]);
      TypeRecordsWellFormed(site(types[|types| - 1]), 0);
      forall r: Record | r in AllRecords(site, types).value
        ensures RatingOf(r).Some? && 0 <= RatingOf(r).value <= 9
      {
        if r["stars"] != Int(0) {
          ParseDigit(r["stars"].s[0]);
          assert r["stars"].s == [r["stars"].s[0]];
        }
      }
    }
  }
}
