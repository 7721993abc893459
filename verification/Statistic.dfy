/** statistic.py: the per-star tally with upvote weights (`stastic_star`) and the
    keyword-frequency table of `statistic_comment`, whose arithmetic overall.py
    repeats. */
module Statistic {

  import opened Options
  import opened Text
  import opened Records
  import opened Sorting

  // ---------------------------------------------------------------------------
  // Star tally

  /** The keys `stars_count` starts with. */
  const StarKeys: set<int> := {1, 2, 3, 4, 5}

  /** Python's `int(v)` on a field value; `None` where it raises. */
  function IntOf(v: Value): Option<int>
  {
    match v
    case Int(n) => Some(n)
    case Str(s) => ParseInt(s)
    case Null => None
  }

  /** The rating as `stastic_star` reads it, before its zero check: `None` when the
      comment is skipped because `stars` is missing, `""`, `None` or not an integer. */
  function RatingOf(c: Record): Option<int>
  {
    if "stars" !in c || c["stars"] == Str("") || c["stars"] == Null then None
    else IntOf(c["stars"])
  }

  /** `int(comment.get('upvote', 1))`; `None` where `int()` raises. */
  function UpvoteOf(c: Record): Option<int>
  {
    if "upvote" in c then IntOf(c["upvote"]) else Some(1)
  }

  /** The comment contributes to the tally: a rating that parses and is not 0. */
  predicate Counted(c: Record) {
    RatingOf(c).Some? && RatingOf(c).value != 0
  }

  /** What `stastic_star` needs of a comment so as not to raise: once the rating
      parses, the upvote parses (it is read outside the `try`) and the rating is 0
      or a key of `stars_count` (anything else is a `KeyError`). */
  predicate TallySafe(c: Record) {
    RatingOf(c).Some? ==> UpvoteOf(c).Some? && 0 <= RatingOf(c).value <= 5
  }

  predicate AllTallySafe(cs: seq<Record>) {
    forall i | 0 <= i < |cs| :: TallySafe(cs[i])
  }

  /** `stars_count` after the loop has seen `cs`, starting from `counts`. */
  function Tally(counts: map<int, int>, cs: seq<Record>): (r: map<int, int>)
    requires counts.Keys == StarKeys && AllTallySafe(cs)
    ensures r.Keys == StarKeys
    decreases |cs|
  {
    if |cs| == 0 then counts
    else
      var prev := Tally(counts, cs[..|cs| - 1]);
      var c := cs[|cs| - 1];
      if Counted(c) then prev[RatingOf(c).value := prev[RatingOf(c).value] + 1] else prev
  }

  /** The number of comments in `cs` that count with rating `k`. */
  function CountRating(cs: seq<Record>, k: int): nat
    decreases |cs|
  {
    if |cs| == 0 then 0
    else CountRating(cs[..|cs| - 1], k)
         + (if Counted(cs[|cs| - 1]) && RatingOf(cs[|cs| - 1]).value == k then 1 else 0)
  }

  /** The number of comments in `cs` that count at all. */
  function CountCounted(cs: seq<Record>): nat
    decreases |cs|
  {
    if |cs| == 0 then 0
    else CountCounted(cs[..|cs| - 1]) + (if Counted(cs[|cs| - 1]) then 1 else 0)
  }

  /** `all_star` after the loop: the sum of rating times upvote over counted comments. */
  function StarSum(cs: seq<Record>): int
    requires AllTallySafe(cs)
    decreases |cs|
  {
    if |cs| == 0 then 0
    else
      var c := cs[|cs| - 1];
      StarSum(cs[..|cs| - 1]) + (if Counted(c) then RatingOf(c).value * UpvoteOf(c).value else 0)
  }

  /** The sum of the upvote weights over counted comments (`all_val` is five times it). */
  function WeightSum(cs: seq<Record>): int
    requires AllTallySafe(cs)
    decreases |cs|
  {
    if |cs| == 0 then 0
    else
      var c := cs[|cs| - 1];
      WeightSum(cs[..|cs| - 1]) + (if Counted(c) then UpvoteOf(c).value else 0)
  }

  /** The five counts added up. */
  function TotalStars(m: map<int, int>): int
    requires m.Keys == StarKeys
  {
    m[1] + m[2] + m[3] + m[4] + m[5]
  }

  lemma SafePrefix(cs: seq<Record>, n: nat)
    requires AllTallySafe(cs) && n <= |cs|
    ensures AllTallySafe(cs[..n])
  {
  }

  /** One more comment: what the loop body adds to the counts and the sums. */
  lemma TallyStep(counts: map<int, int>, cs: seq<Record>, i: nat)
    requires counts.Keys == StarKeys && AllTallySafe(cs) && i < |cs|
    ensures AllTallySafe(cs[..i]) && AllTallySafe(cs[..i + 1])
    ensures var c := cs[i];
            var prev := Tally(counts, cs[..i]);
            Tally(counts, cs[..i + 1])
              == (if Counted(c) then prev[RatingOf(c).value := prev[RatingOf(c).value] + 1] else prev)
            && StarSum(cs[..i + 1])
              == StarSum(cs[..i]) + (if Counted(c) then RatingOf(c).value * UpvoteOf(c).value else 0)
            && WeightSum(cs[..i + 1])
              == WeightSum(cs[..i]) + (if Counted(c) then UpvoteOf(c).value else 0)
  {
    assert cs[..i + 1][..i] == cs[..i];
  }

  /** Each star key grows by exactly the number of counted comments with that rating. */
  lemma {:induction false} TallyCounts(counts: map<int, int>, cs: seq<Record>, k: int)
    requires counts.Keys == StarKeys && AllTallySafe(cs) && k in StarKeys
    ensures Tally(counts, cs)[k] == counts[k] + CountRating(cs, k)
    decreases |cs|
  {
    if |cs| > 0 {
      TallyCounts(counts, cs[..|cs| - 1], k);
    }
  }

  /** The counts grow in total by the number of counted comments: every counted
      rating lands on one of the five keys. */
  lemma {:induction false} TallyTotal(counts: map<int, int>, cs: seq<Record>)
    requires counts.Keys == StarKeys && AllTallySafe(cs)
    ensures TotalStars(Tally(counts, cs)) == TotalStars(counts) + CountCounted(cs)
    decreases |cs|
  {
    if |cs| > 0 {
      TallyTotal(counts, cs[..|cs| - 1]);
    }
  }

  /** `stastic_star` never resets `stars_count`: running it a second time over the
      same comments adds every count a second time. */
  lemma TallyTwice(counts: map<int, int>, cs: seq<Record>, k: int)
    requires counts.Keys == StarKeys && AllTallySafe(cs) && k in StarKeys
    ensures Tally(Tally(counts, cs), cs)[k] == counts[k] + 2 * CountRating(cs, k)
  {
    TallyCounts(counts, cs, k);
    TallyCounts(Tally(counts, cs), cs, k);
  }

  /** With non-negative upvotes, the weighted star sum lies between the weight sum
      and five times it (so `all_star <= all_val`, and the commented-out average
      would lie in 1..5). */
  lemma {:induction false} WeightedBounds(cs: seq<Record>)
    requires AllTallySafe(cs)
    requires forall i | 0 <= i < |cs| :: Counted(cs[i]) ==> UpvoteOf(cs[i]).value >= 0
    ensures WeightSum(cs) <= StarSum(cs) <= 5 * WeightSum(cs)
    decreases |cs|
  {
    if |cs| > 0 {
      var c := cs[|cs| - 1];
      WeightedBounds(cs[..|cs| - 1]);
      if Counted(c) {
        var s, w := RatingOf(c).value, UpvoteOf(c).value;
        assert 1 <= s <= 5 && w >= 0;
        assert w <= s * w <= 5 * w;
      }
    }
  }

  lemma ParseTen()
    ensures ParseInt("10") == Some(10)
  {
    assert TrimLeft("10") == "10";
    assert TrimRight("10") == "10";
    assert "10"[..1] == "1";
    assert DigitsValue("10") == 10;
  }

  lemma ParseWord()
    ensures ParseInt("abc") == None
  {
    assert TrimLeft("abc") == "abc";
    assert TrimRight("abc") == "abc";
  }

  /** A rating that is absent, `""` or `None` is skipped before anything is parsed. */
  lemma BlankRatingSkipped(c: Record)
    requires "stars" !in c || c["stars"] == Str("") || c["stars"] == Null
    ensures RatingOf(c) == None && !Counted(c) && TallySafe(c)
  {
  }

  /** A rating of 0 is skipped, but only after the upvote has been parsed: with an
      upvote that is not a number the source raises instead. */
  lemma ZeroRatingSkipped(c: Record)
    requires "stars" in c && c["stars"] == Int(0)
    ensures !Counted(c)
    ensures TallySafe(c) <==> UpvoteOf(c).Some?
  {
  }

  /** A rating that is not a number (here `"abc"`) is skipped without raising. */
  lemma NonNumericRatingSkipped(c: Record)
    requires "stars" in c && c["stars"] == Str("abc")
    ensures !Counted(c) && TallySafe(c)
  {
    ParseWord();
  }

  /** The tally over a single comment. */
  lemma TallySingle(counts: map<int, int>, c: Record)
    requires counts.Keys == StarKeys && TallySafe(c)
    ensures AllTallySafe([c])
    ensures Tally(counts, [c])
            == if Counted(c) then counts[RatingOf(c).value := counts[RatingOf(c).value] + 1] else counts
    ensures StarSum([c]) == if Counted(c) then RatingOf(c).value * UpvoteOf(c).value else 0
    ensures WeightSum([c]) == if Counted(c) then UpvoteOf(c).value else 0
  {
    assert [c][..0] == [];
  }

  lemma ThreeAndTen(c: Record)
    requires "stars" in c && c["stars"] == Str("3")
    requires "upvote" in c && c["upvote"] == Str("10")
    ensures RatingOf(c) == Some(3) && UpvoteOf(c) == Some(10) && TallySafe(c)
  {
    ParseDigit('3');
    ParseTen();
  }

  /** A rating of 3 with 10 upvotes adds one to key 3, 30 to `all_star` and 50 to
      `all_val`. */
  lemma RatingThreeUpvoteTen(counts: map<int, int>, c: Record)
    requires counts.Keys == StarKeys
    requires "stars" in c && c["stars"] == Str("3")
    requires "upvote" in c && c["upvote"] == Str("10")
    ensures AllTallySafe([c])
    ensures Tally(counts, [c]) == counts[3 := counts[3] + 1]
    ensures StarSum([c]) == 30 && 5 * WeightSum([c]) == 50
  {
    ThreeAndTen(c);
    TallySingle(counts, c);
  }

  /** A rating of 6 passes the skip checks and then misses every key of
      `stars_count`: the source raises `KeyError` rather than skipping it. */
  lemma RatingSixRaises()
    ensures !TallySafe(map["stars" := Str("6")])
  {
    ParseDigit('6');
  }

  // ---------------------------------------------------------------------------
  // Keyword-frequency table

  /** One row of the word-frequency table. */
  datatype Row = Row(word: string, count: int, weight: real, proportion: real)

  /** Python's `int(x)` on a float: truncation toward zero. */
  function Trunc(x: real): (n: int)
    ensures 0.0 <= x ==> n == x.Floor
    ensures x < 0.0 ==> n == -((-x).Floor)
  {
    if x >= 0.0 then x.Floor else -((-x).Floor)
  }

  /** The row for one word cloud entry: `count = int(weight * total_words)`,
      `proportion = count / total_words` (0 when there are no words). */
  function EstimateRow(word: string, weight: real, total: nat): Row
  {
    var count := Trunc(weight * total as real);
    Row(word, count, weight, if total == 0 then 0.0 else count as real / total as real)
  }

  /** For a weight in [0, 1] the count is `floor(weight * total)`, lies in
      0..total, and the proportion lies in [0, 1]. */
  lemma EstimateRowBounds(word: string, weight: real, total: nat)
    requires 0.0 <= weight <= 1.0
    ensures var row := EstimateRow(word, weight, total);
            row.count == (weight * total as real).Floor
            && 0 <= row.count <= total
            && 0.0 <= row.proportion <= 1.0
  {
    var x := weight * total as real;
    ScaleInRange(weight, total as real);
    var count := x.Floor;
    assert count as real <= x;
    if total > 0 {
      RatioInUnit(count as real, total as real);
    }
  }

  lemma ScaleInRange(w: real, t: real)
    requires 0.0 <= w <= 1.0 && 0.0 <= t
    ensures 0.0 <= w * t <= t
  {
  }

  lemma RatioInUnit(a: real, b: real)
    requires 0.0 <= a <= b && 0.0 < b
    ensures 0.0 <= a / b <= 1.0
  {
    assert a / b * b == a;
  }

  predicate WeightsInUnit(freqs: seq<(string, real)>) {
    forall i | 0 <= i < |freqs| :: 0.0 <= freqs[i].1 <= 1.0
  }

  /** The rows the loop over `word_frequencies.items()` appends, in that order. */
  ghost function EstimateRows(freqs: seq<(string, real)>, total: nat): seq<Row>
  {
    seq(|freqs|, i requires 0 <= i < |freqs| => EstimateRow(freqs[i].0, freqs[i].1, total))
  }

  predicate RowsBounded(rows: seq<Row>, total: nat) {
    forall i | 0 <= i < |rows| :: 0 <= rows[i].count <= total && 0.0 <= rows[i].proportion <= 1.0
  }

  /** The loop that builds `data`: one row per word, in word-cloud order, and for
      weights in [0, 1] every count and proportion within bounds. */
  method FrequencyRows(freqs: seq<(string, real)>, total: nat) returns (data: seq<Row>)
    ensures data == EstimateRows(freqs, total)
    ensures forall i | 0 <= i < |data| :: data[i].word == freqs[i].0 && data[i].weight == freqs[i].1
    ensures WeightsInUnit(freqs) ==> RowsBounded(data, total)
  {
    data := [];
    var i := 0;
    while i < |freqs|
      invariant 0 <= i <= |freqs|
      invariant data == EstimateRows(freqs[..i], total)
      invariant WeightsInUnit(freqs) ==> RowsBounded(data, total)
    {
      var (word, weight) := freqs[i];
      var row := EstimateRow(word, weight, total);
      if WeightsInUnit(freqs) {
        EstimateRowBounds(word, weight, total);
      }
      data := data + [row];
      i := i + 1;
    }
    assert freqs[..i] == freqs;
  }

  function RowCount(row: Row): int {
    row.count
  }

  /** `pd.DataFrame(data).sort_values("count", ascending=False)`: pandas does not
      fix the order among equal counts; this ordering keeps them in input order. */
  function SortByCount(rows: seq<Row>): (r: seq<Row>)
    ensures SortedDesc(r, RowCount) && multiset(r) == multiset(rows)
  {
    SortDesc(rows, RowCount)
  }

  /** Sorting keeps the bounds of every row. */
  lemma SortKeepsBounds(rows: seq<Row>, total: nat)
    requires RowsBounded(rows, total)
    ensures RowsBounded(SortByCount(rows), total)
  {
    var r := SortByCount(rows);
    forall i | 0 <= i < |r| ensures 0 <= r[i].count <= total && 0.0 <= r[i].proportion <= 1.0 {
      assert r[i] in multiset(rows);
    }
  }

  /** The counts are estimates and need not add up to at most `total_words`: two
      words of weight 1.0 over a one-word corpus get a count of 1 each. */
  lemma CountsMayExceedTotal()
    ensures var rows := EstimateRows([("a", 1.0), ("b", 1.0)], 1);
            rows[0].count + rows[1].count == 2
  {
  }

  /** What the word-frequency step ends with. */
  datatype FrequencyOutcome =
    | NoDataDirectory     // overall.py: there is no `./data`
    | NoComments          // overall.py: nothing was collected
    | CloudFailed         // the word cloud raised ValueError: the corpus had no words
    | NoFrequencyData     // statistic.py: `total_words == 0`
    | Table(rows: seq<Row>)

  /** `' '.join(font for font in processed_strings if font not in stopwords)`:
      whole keyword strings equal to a stop-word are skipped; the rest are joined
      with spaces in order. */
  function Corpus(strings: seq<string>, stopwords: set<string>): string
  {
    Join(" ", DropStopwords(strings, stopwords))
  }

  /** `' '.join(jieba.analyse.extract_tags(text, topK=20))` for each text; the
      keyword extractor is a parameter. */
  function KeywordStrings(texts: seq<string>, extract: string -> seq<string>): (r: seq<string>)
    ensures |r| == |texts|
    ensures forall i | 0 <= i < |texts| :: r[i] == Join(" ", extract(texts[i]))
  {
    seq(|texts|, i requires 0 <= i < |texts| => Join(" ", extract(texts[i])))
  }

  /** `sum(len(t.split()) for t in texts)`. */
  function TokenTotal(texts: seq<string>): nat
    decreases |texts|
  {
    if |texts| == 0 then 0 else |Split(texts[0])| + TokenTotal(texts[1..])
  }

  /** Texts that are not blank have at least one token each. */
  lemma {:induction false} TokenTotalAtLeastCount(texts: seq<string>)
    requires forall i | 0 <= i < |texts| :: Strip(texts[i]) != []
    ensures TokenTotal(texts) >= |texts|
    decreases |texts|
  {
    if |texts| > 0 {
      SplitNonEmptyIff(texts[0]);
      TokenTotalAtLeastCount(texts[1..]);
    }
  }

  /** The contents as `statistic_comment` reads them. */
  function Contents(cs: seq<Record>): (r: seq<string>)
    requires AllHaveTextContent(cs)
    ensures |r| == |cs|
  {
    seq(|cs|, i requires 0 <= i < |cs| => Content(cs[i]))
  }

  /** The part of `statistic_comment` that follows `wc.generate`: no table when the
      comments have no words, otherwise one row per cloud word, sorted by count. */
  ghost function TableOf(freqs: seq<(string, real)>, total: nat): FrequencyOutcome
  {
    if total == 0 then NoFrequencyData else Table(SortByCount(EstimateRows(freqs, total)))
  }

  /** `MovieReviewStatistic`: the comments of one film and the star histogram that
      `stastic_star` updates in place. */
  class MovieReviewStatistic {
    const movieName: string
    const commentsDict: seq<Record>
    const length: nat
    const stopwords: set<string>
    var starsCount: map<int, int>

    ghost predicate Valid()
      reads this
    {
      starsCount.Keys == StarKeys && length == |commentsDict|
    }

    /** `__init__`: every star key starts at zero; the stop-word file's lines are
        passed in. */
    constructor (movieName: string, commentsDict: seq<Record>, stopwords: set<string>)
      ensures Valid()
      ensures this.movieName == movieName && this.commentsDict == commentsDict
      ensures this.stopwords == stopwords
      ensures forall k | k in StarKeys :: starsCount[k] == 0
    {
      this.movieName := movieName;
      this.commentsDict := commentsDict;
      this.length := |commentsDict|;
      this.stopwords := stopwords;
      this.starsCount := map[1 := 0, 2 := 0, 3 := 0, 4 := 0, 5 := 0];
    }

    /** `stastic_star`: adds the counted ratings to `stars_count` and returns the
        two accumulators `all_star` and `all_val`. */
    method StasticStar() returns (allStar: int, allVal: int)
      requires Valid()
      requires AllTallySafe(commentsDict)
      modifies this`starsCount
      ensures Valid()
      ensures starsCount == Tally(old(starsCount), commentsDict)
      ensures allStar == StarSum(commentsDict) && allVal == 5 * WeightSum(commentsDict)
    {
      allStar, allVal := 0, 0;
      var i := 0;
      while i < |commentsDict|
        invariant 0 <= i <= |commentsDict|
        invariant starsCount.Keys == StarKeys
        invariant starsCount == Tally(old(starsCount), commentsDict[..i])
        invariant allStar == StarSum(commentsDict[..i])
        invariant allVal == 5 * WeightSum(commentsDict[..i])
      {
        var comment := commentsDict[i];
        TallyStep(old(starsCount), commentsDict, i);
        if "stars" in comment && comment["stars"] != Str("") && comment["stars"] != Null {
          var parsed := IntOf(comment["stars"]);
          if parsed.Some? {
            var stars := parsed.value;
            assert RatingOf(comment) == parsed && TallySafe(comment);
            var upvote := UpvoteOf(comment).value;
            if stars != 0 {
              starsCount := starsCount[stars := starsCount[stars] + 1];
              allStar := allStar + stars * upvote;
              allVal := allVal + 5 * upvote;
            }
          }
        }
        i := i + 1;
      }
      assert commentsDict[..i] == commentsDict;
    }

    /** The pure part of `statistic_comment`: the corpus handed to the word cloud
        and the frequency table built from the cloud's normalised weights. The
        keyword extractor and the word cloud are parameters; `cloud` answers
        `None` where `WordCloud.generate` raises. */
    method StatisticComment(extract: string -> seq<string>,
                            cloud: string -> Option<seq<(string, real)>>)
      returns (corpus: string, outcome: FrequencyOutcome)
      requires AllHaveTextContent(commentsDict)
      ensures corpus == Corpus(KeywordStrings(Contents(commentsDict), extract), stopwords)
      ensures cloud(corpus).None? ==> outcome == CloudFailed
      ensures cloud(corpus).Some? ==>
                outcome == TableOf(cloud(corpus).value, TokenTotal(Contents(commentsDict)))
      ensures outcome.Table? ==> SortedDesc(outcome.rows, RowCount)
      ensures outcome.Table? && WeightsInUnit(cloud(corpus).value) ==>
                RowsBounded(outcome.rows, TokenTotal(Contents(commentsDict)))
    {
      var processed := KeywordStrings(Contents(commentsDict), extract);
      corpus := Corpus(processed, stopwords);
      var words := cloud(corpus);
      if words.None? {
        return corpus, CloudFailed;
      }
      var totalWords := TokenTotal(Contents(commentsDict));
      if totalWords == 0 {
        return corpus, NoFrequencyData;
      }
      var data := FrequencyRows(words.value, totalWords);
      if WeightsInUnit(words.value) {
        SortKeepsBounds(data, totalWords);
      }
      outcome := Table(SortByCount(data));
    }
  }
}
