/** sentiment_topic_analysis.py, `analyze_comments` and the script's entry
    point: the sentiment tally over the merged comments and the topic-keyword
    table. */
module SentimentAnalysis {

  import opened Options
  import opened Text
  import opened Records
  import opened Sorting
  import opened SentimentMerge

  /** The model sees at most this many characters of a comment. */
  const MaxModelChars: nat := 128

  /** Rows of the topic-keyword table. */
  const TopN: nat := 30

  // ---------------------------------------------------------------------------
  // Sentiment

  /** `"positive" if label.lower() == "positive" else "negative"`. */
  function SentimentOf(modelLabel: string): (s: string)
    ensures s == "positive" || s == "negative"
  {
    if LowerString(modelLabel) == "positive" then "positive" else "negative"
  }

  /** Only a label that lower-cases to "positive" counts as positive; any other
      label, "neutral" included, counts as negative. */
  lemma SentimentLabels()
    ensures SentimentOf("Positive") == "positive" && SentimentOf("POSITIVE") == "positive"
    ensures SentimentOf("Negative") == "negative" && SentimentOf("neutral") == "negative"
  {
    assert LowerString("Negative")[0] == 'n';
    assert LowerString("neutral")[1] == 'e';
  }

  /** One row of `sentiment_list`. */
  datatype Scored = Scored(content: string, sentiment: string, score: real)

  predicate AllContentIsText(cs: seq<Record>) {
    forall i | 0 <= i < |cs| :: ContentIsText(cs[i])
  }

  /** `comment.get("content", "").strip()`. */
  function TextOf(c: Record): string
    requires ContentIsText(c)
  {
    Strip(ContentOrEmpty(c))
  }

  /** The rows one comment adds to `sentiment_list`: none when its text is blank,
      otherwise one, scored on at most the first 128 characters. The classifier
      is a parameter: it maps the text it is shown to a label and a score. */
  function ScoreComment(c: Record, classify: string -> (string, real)): (rows: seq<Scored>)
    requires ContentIsText(c)
    ensures |rows| <= 1
    ensures rows == [] <==> TextOf(c) == []
    ensures forall row | row in rows :: row.content == TextOf(c) && row.sentiment in {"positive", "negative"}
  {
    var text := TextOf(c);
    if text == [] then []
    else
      var result := classify(Take(text, MaxModelChars));
      [Scored(text, SentimentOf(result.0), result.1)]
  }

  /** `sentiment_list` after the loop has seen `cs`. */
  function SentimentList(cs: seq<Record>, classify: string -> (string, real)): seq<Scored>
    requires AllContentIsText(cs)
    decreases |cs|
  {
    if |cs| == 0 then []
    else SentimentList(cs[..|cs| - 1], classify) + ScoreComment(cs[|cs| - 1], classify)
  }

  /** The number of rows labelled `s`. */
  function CountOf(rows: seq<Scored>, s: string): nat
    decreases |rows|
  {
    if |rows| == 0 then 0
    else CountOf(rows[..|rows| - 1], s) + (if rows[|rows| - 1].sentiment == s then 1 else 0)
  }

  lemma {:induction false} CountOfAtMost(rows: seq<Scored>, s: string)
    ensures CountOf(rows, s) <= |rows|
    decreases |rows|
  {
    if |rows| > 0 {
      CountOfAtMost(rows[..|rows| - 1], s);
    }
  }

  lemma CountOfAppend(rows: seq<Scored>, row: Scored, s: string)
    ensures CountOf(rows + [row], s) == CountOf(rows, s) + (if row.sentiment == s then 1 else 0)
  {
    assert (rows + [row])[..|rows|] == rows;
  }

  lemma SentimentStep(cs: seq<Record>, classify: string -> (string, real), i: nat)
    requires AllContentIsText(cs) && i < |cs|
    ensures AllContentIsText(cs[..i]) && AllContentIsText(cs[..i + 1])
    ensures SentimentList(cs[..i + 1], classify)
            == SentimentList(cs[..i], classify) + ScoreComment(cs[i], classify)
  {
    assert cs[..i + 1][..i] == cs[..i];
  }

  /** The `Counter` holds exactly the labels that occur in `rows`, each with its
      number of rows. */
  ghost predicate CounterMatches(counts: map<string, nat>, rows: seq<Scored>) {
    (forall s :: s in counts <==> CountOf(rows, s) > 0)
    && (forall s | s in counts :: counts[s] == CountOf(rows, s))
  }

  /** `counter[key] += 1` on a `Counter`: a missing key counts as 0. */
  function Increment(counts: map<string, nat>, key: string): (r: map<string, nat>)
    ensures r.Keys == counts.Keys + {key}
    ensures r[key] == (if key in counts then counts[key] else 0) + 1
    ensures forall k | k in counts && k != key :: r[k] == counts[k]
  {
    counts[key := (if key in counts then counts[key] else 0) + 1]
  }

  /** The `Counter` after `sentiment_count[r.sentiment] += 1` for each row `r`. */
  function CounterOf(rows: seq<Scored>): map<string, nat>
    decreases |rows|
  {
    if |rows| == 0 then map[] else Increment(CounterOf(rows[..|rows| - 1]), rows[|rows| - 1].sentiment)
  }

  /** The `Counter` holds exactly the labels that occurred, each with its number
      of rows. */
  lemma {:induction false} CounterOfMatches(rows: seq<Scored>)
    ensures CounterMatches(CounterOf(rows), rows)
    decreases |rows|
  {
    if |rows| > 0 {
      var pre := rows[..|rows| - 1];
      CounterOfMatches(pre);
      assert rows == pre + [rows[|rows| - 1]];
      forall s ensures CountOf(rows, s) == CountOf(pre, s) + (if rows[|rows| - 1].sentiment == s then 1 else 0) {
        CountOfAppend(pre, rows[|rows| - 1], s);
      }
    }
  }

  lemma CounterOfAppend(rows: seq<Scored>, row: Scored)
    ensures CounterOf(rows + [row]) == Increment(CounterOf(rows), row.sentiment)
  {
    assert (rows + [row])[..|rows|] == rows;
  }

  /** The sentiment loop: one row per comment with non-blank text, in order, and
      a `Counter` holding exactly the labels that occurred, each with its count. */
  method SentimentTally(comments: seq<Record>, classify: string -> (string, real))
    returns (sentimentList: seq<Scored>, sentimentCount: map<string, nat>)
    requires AllContentIsText(comments)
    ensures sentimentList == SentimentList(comments, classify)
    ensures sentimentCount == CounterOf(sentimentList)
    ensures CounterMatches(sentimentCount, sentimentList)
  {
    sentimentList, sentimentCount := [], map[];
    var i := 0;
    while i < |comments|
      invariant 0 <= i <= |comments|
      invariant sentimentList == SentimentList(comments[..i], classify)
      invariant sentimentCount == CounterOf(sentimentList)
    {
      var comment := comments[i];
      SentimentStep(comments, classify, i);
      var text := TextOf(comment);
      if text != [] {
        var result := classify(Take(text, MaxModelChars));
        var sentiment := SentimentOf(result.0);
        var row := Scored(text, sentiment, result.1);
        CounterOfAppend(sentimentList, row);
        sentimentList := sentimentList + [row];
        sentimentCount := Increment(sentimentCount, sentiment);
      }
      i := i + 1;
    }
    assert comments[..i] == comments;
    CounterOfMatches(sentimentList);
  }

  /** Every row is labelled "positive" or "negative". */
  lemma {:induction false} SentimentListBinary(cs: seq<Record>, classify: string -> (string, real))
    requires AllContentIsText(cs)
    ensures forall i | 0 <= i < |SentimentList(cs, classify)| ::
              SentimentList(cs, classify)[i].sentiment in {"positive", "negative"}
    decreases |cs|
  {
    if |cs| > 0 {
      SentimentListBinary(cs[..|cs| - 1], classify);
    }
  }

  /** With two labels only, the counts add up to the number of rows. */
  lemma {:induction false} CountsAddUp(rows: seq<Scored>)
    requires forall i | 0 <= i < |rows| :: rows[i].sentiment in {"positive", "negative"}
    ensures CountOf(rows, "positive") + CountOf(rows, "negative") == |rows|
    decreases |rows|
  {
    if |rows| > 0 {
      CountsAddUp(rows[..|rows| - 1]);
    }
  }

  /** Positive and negative counts add up to `len(sentiment_list)`. */
  lemma SentimentCountsTotal(cs: seq<Record>, classify: string -> (string, real))
    requires AllContentIsText(cs)
    ensures var rows := SentimentList(cs, classify);
            CountOf(rows, "positive") + CountOf(rows, "negative") == |rows|
  {
    SentimentListBinary(cs, classify);
    CountsAddUp(SentimentList(cs, classify));
  }

  /** `v / total_comments` for each label of the `Counter`: defined because a
      label only enters the `Counter` once it has been counted, so each count is
      positive and at most the total. */
  function Shares(counts: map<string, nat>, total: nat): (shares: map<string, real>)
    requires forall s | s in counts :: 0 < counts[s] <= total
    ensures shares.Keys == counts.Keys
    ensures forall s | s in shares :: shares[s] == counts[s] as real / total as real
    ensures forall s | s in shares :: 0.0 < shares[s] <= 1.0
  {
    SharesInUnit(counts, total);
    map s | s in counts :: counts[s] as real / total as real
  }

  /** A label's share, 0 when it never occurred (and so is not in the map). */
  function ShareOrZero(shares: map<string, real>, key: string): real {
    if key in shares then shares[key] else 0.0
  }

  /** Two counts that make up the whole total have shares adding up to 1. */
  lemma SplitShares(p: nat, n: nat, total: nat)
    requires p + n == total > 0
    ensures p as real / total as real + n as real / total as real == 1.0
  {
    var t := total as real;
    assert p as real + n as real == t;
    assert t / t == 1.0;
    assert p as real / t + n as real / t == (p as real + n as real) / t;
  }

  /** Through a matching `Counter`, a label's share is its number of rows over
      all rows, 0 for a label that never occurred. */
  lemma ShareOfLabel(rows: seq<Scored>, counts: map<string, nat>, key: string)
    requires CounterMatches(counts, rows) && rows != []
    requires forall s | s in counts :: 0 < counts[s] <= |rows|
    ensures ShareOrZero(Shares(counts, |rows|), key) == CountOf(rows, key) as real / |rows| as real
  {
    if key !in counts {
      assert CountOf(rows, key) == 0;
      assert 0 as real / |rows| as real == 0.0;
    }
  }

  /** Once something was scored, the positive and the negative share of
      `sentiment_count` add up to 1 (a missing label counting as 0). */
  lemma SharesSumToOne(cs: seq<Record>, classify: string -> (string, real), counts: map<string, nat>)
    requires AllContentIsText(cs)
    requires CounterMatches(counts, SentimentList(cs, classify))
    requires SentimentList(cs, classify) != []
    requires forall s | s in counts :: 0 < counts[s] <= |SentimentList(cs, classify)|
    ensures var shares := Shares(counts, |SentimentList(cs, classify)|);
            ShareOrZero(shares, "positive") + ShareOrZero(shares, "negative") == 1.0
  {
    var rows := SentimentList(cs, classify);
    SentimentCountsTotal(cs, classify);
    ShareOfLabel(rows, counts, "positive");
    ShareOfLabel(rows, counts, "negative");
    SplitShares(CountOf(rows, "positive"), CountOf(rows, "negative"), |rows|);
  }

  /** A positive count at most the total is a share in (0, 1]. */
  lemma ShareInUnit(count: nat, total: nat)
    requires 0 < count <= total
    ensures 0.0 < count as real / total as real <= 1.0
  {
    var r := count as real / total as real;
    assert r * total as real == count as real;
  }

  lemma SharesInUnit(counts: map<string, nat>, total: nat)
    requires forall s | s in counts :: 0 < counts[s] <= total
    ensures forall s | s in counts :: 0.0 < counts[s] as real / total as real <= 1.0
  {
    forall s | s in counts ensures 0.0 < counts[s] as real / total as real <= 1.0 {
      ShareInUnit(counts[s], total);
    }
  }

  /** The `Counter` the loop returns meets what `Shares` needs, with
      `len(sentiment_list)` as the total; when nothing was scored it is empty and
      no division happens. */
  lemma TallyHasShares(rows: seq<Scored>, counts: map<string, nat>)
    requires CounterMatches(counts, rows)
    ensures forall s | s in counts :: 0 < counts[s] <= |rows|
    ensures |rows| == 0 ==> counts == map[]
  {
    forall s | s in counts ensures counts[s] <= |rows| {
      CountOfAtMost(rows, s);
    }
    if |rows| == 0 {
      assert forall s :: CountOf(rows, s) == 0;
    }
  }

  // ---------------------------------------------------------------------------
  // Topic keywords

  /** The keywords one comment adds: none for blank text, otherwise the
      extractor's keywords (`topK=20`) that are not stop-words. */
  function KeywordsOf(c: Record, extract: string -> seq<string>, stopwords: set<string>): seq<string>
    requires ContentIsText(c)
  {
    if TextOf(c) == [] then [] else DropStopwords(extract(TextOf(c)), stopwords)
  }

  /** `all_keywords` after the loop has seen `cs`. */
  function AllKeywords(cs: seq<Record>, extract: string -> seq<string>, stopwords: set<string>)
    : seq<string>
    requires AllContentIsText(cs)
    decreases |cs|
  {
    if |cs| == 0 then []
    else AllKeywords(cs[..|cs| - 1], extract, stopwords) + KeywordsOf(cs[|cs| - 1], extract, stopwords)
  }

  /** No stop-word survives into `all_keywords`. */
  lemma {:induction false} AllKeywordsNoStopword(cs: seq<Record>, extract: string -> seq<string>,
                                                 stopwords: set<string>)
    requires AllContentIsText(cs)
    ensures forall k | k in AllKeywords(cs, extract, stopwords) :: k !in stopwords
    decreases |cs|
  {
    if |cs| > 0 {
      AllKeywordsNoStopword(cs[..|cs| - 1], extract, stopwords);
      var pre := AllKeywords(cs[..|cs| - 1], extract, stopwords);
      var kws := KeywordsOf(cs[|cs| - 1], extract, stopwords);
      assert forall k | k in kws :: k !in stopwords;
      assert AllKeywords(cs, extract, stopwords) == pre + kws;
      forall k | k in pre + kws ensures k !in stopwords {
        if k !in pre {
          assert k in kws;
        }
      }
    }
  }

  lemma KeywordStep(cs: seq<Record>, extract: string -> seq<string>, stopwords: set<string>, i: nat)
    requires AllContentIsText(cs) && i < |cs|
    ensures AllContentIsText(cs[..i]) && AllContentIsText(cs[..i + 1])
    ensures AllKeywords(cs[..i + 1], extract, stopwords)
            == AllKeywords(cs[..i], extract, stopwords) + KeywordsOf(cs[i], extract, stopwords)
  {
    assert cs[..i + 1][..i] == cs[..i];
  }

  /** The keyword loop. */
  method CollectKeywords(comments: seq<Record>, extract: string -> seq<string>, stopwords: set<string>)
    returns (allKeywords: seq<string>)
    requires AllContentIsText(comments)
    ensures allKeywords == AllKeywords(comments, extract, stopwords)
  {
    allKeywords := [];
    var i := 0;
    while i < |comments|
      invariant 0 <= i <= |comments|
      invariant allKeywords == AllKeywords(comments[..i], extract, stopwords)
    {
      var comment := comments[i];
      KeywordStep(comments, extract, stopwords, i);
      var text := TextOf(comment);
      if text != [] {
        var kws := DropStopwords(extract(text), stopwords);
        allKeywords := allKeywords + kws;
      }
      i := i + 1;
    }
    assert comments[..i] == comments;
  }

  /** The number of occurrences of `w` in `xs`. */
  function Occ(xs: seq<string>, w: string): nat
    decreases |xs|
  {
    if |xs| == 0 then 0 else Occ(xs[..|xs| - 1], w) + (if xs[|xs| - 1] == w then 1 else 0)
  }

  lemma {:induction false} OccPositive(xs: seq<string>, w: string)
    ensures Occ(xs, w) > 0 <==> w in xs
    decreases |xs|
  {
    if |xs| > 0 {
      OccPositive(xs[..|xs| - 1], w);
      assert xs == xs[..|xs| - 1] + [xs[|xs| - 1]];
    }
  }

  /** The distinct words of `xs`, in order of first occurrence. */
  function DistinctWords(xs: seq<string>): (ws: seq<string>)
    ensures Distinct(ws)
    ensures forall w :: w in ws <==> w in xs
    decreases |xs|
  {
    if |xs| == 0 then []
    else
      var pre := DistinctWords(xs[..|xs| - 1]);
      var x := xs[|xs| - 1];
      assert xs == xs[..|xs| - 1] + [x];
      if x in pre then pre else pre + [x]
  }

  /** The occurrences of the words of `ws` in `xs`, added up. */
  function SumOcc(ws: seq<string>, xs: seq<string>): nat
    decreases |ws|
  {
    if |ws| == 0 then 0 else SumOcc(ws[..|ws| - 1], xs) + Occ(xs, ws[|ws| - 1])
  }

  /** One more word in `xs` adds one to the sum over distinct `ws` exactly when
      the word is among them. */
  lemma {:induction false} SumOccStep(ws: seq<string>, xs: seq<string>, x: string)
    requires Distinct(ws)
    ensures SumOcc(ws, xs + [x]) == SumOcc(ws, xs) + (if x in ws then 1 else 0)
    decreases |ws|
  {
    if |ws| > 0 {
      var q := ws[..|ws| - 1];
      var w := ws[|ws| - 1];
      assert (xs + [x])[..|xs|] == xs;
      SumOccStep(q, xs, x);
      assert ws == q + [w];
      assert x in ws <==> x in q || x == w;
      assert w !in q;
    }
  }

  /** The occurrence counts of the distinct words add up to the number of words. */
  lemma {:induction false} SumOccDistinct(xs: seq<string>)
    ensures SumOcc(DistinctWords(xs), xs) == |xs|
    decreases |xs|
  {
    if |xs| > 0 {
      var p := xs[..|xs| - 1];
      var x := xs[|xs| - 1];
      var d := DistinctWords(p);
      SumOccDistinct(p);
      assert xs == p + [x];
      SumOccStep(d, p, x);
      if x !in d {
        OccPositive(p, x);
        assert (d + [x])[..|d|] == d;
        assert Occ(xs, x) == Occ(p, x) + 1;
      }
    }
  }

  function RowCount(row: (string, nat)): int {
    row.1
  }

  /** The rows of `pd.Series(xs).value_counts()` before sorting: each distinct word
      with its number of occurrences. */
  function CountRows(ws: seq<string>, xs: seq<string>): (rows: seq<(string, nat)>)
    ensures |rows| == |ws|
    ensures forall i | 0 <= i < |ws| :: rows[i] == (ws[i], Occ(xs, ws[i]))
  {
    seq(|ws|, i requires 0 <= i < |ws| => (ws[i], Occ(xs, ws[i])))
  }

  lemma {:induction false} CountRowsSum(ws: seq<string>, xs: seq<string>)
    ensures SumKeys(CountRows(ws, xs), RowCount) == SumOcc(ws, xs)
    decreases |ws|
  {
    if |ws| > 0 {
      var q := ws[..|ws| - 1];
      CountRowsSum(q, xs);
      SumKeysSnoc(CountRows(q, xs), (ws[|ws| - 1], Occ(xs, ws[|ws| - 1])), RowCount);
      assert CountRows(ws, xs) == CountRows(q, xs) + [(ws[|ws| - 1], Occ(xs, ws[|ws| - 1]))];
    }
  }

  lemma {:induction false} SumKeysSnoc<T>(xs: seq<T>, x: T, key: T -> int)
    ensures SumKeys(xs + [x], key) == SumKeys(xs, key) + key(x)
    decreases |xs|
  {
    if |xs| > 0 {
      assert (xs + [x])[1..] == xs[1..] + [x];
      SumKeysSnoc(xs[1..], x, key);
    }
  }

  /** `value_counts()`: every distinct word with its count, most frequent first.
      pandas does not fix the order of equal counts; this one keeps them in
      order of first occurrence. */
  function ValueCounts(xs: seq<string>): (rows: seq<(string, nat)>)
    ensures SortedDesc(rows, RowCount)
    ensures |rows| == |DistinctWords(xs)|
    ensures multiset(rows) == multiset(CountRows(DistinctWords(xs), xs))
  {
    SortDesc(CountRows(DistinctWords(xs), xs), RowCount)
  }

  /** Each row's count is the word's number of occurrences, which is positive;
      every keyword has a row; the counts add up to the number of keywords. */
  lemma ValueCountsMeaning(xs: seq<string>)
    ensures forall row | row in ValueCounts(xs) :: row.1 == Occ(xs, row.0) > 0 && row.0 in xs
    ensures forall w | w in xs :: (w, Occ(xs, w)) in ValueCounts(xs)
    ensures SumKeys(ValueCounts(xs), RowCount) == |xs|
  {
    var ws := DistinctWords(xs);
    var rows := CountRows(ws, xs);
    forall row | row in ValueCounts(xs) ensures row.1 == Occ(xs, row.0) > 0 && row.0 in xs {
      assert row in multiset(rows);
      var i :| 0 <= i < |rows| && rows[i] == row;
      OccPositive(xs, ws[i]);
    }
    forall w | w in xs ensures (w, Occ(xs, w)) in ValueCounts(xs) {
      var i :| 0 <= i < |ws| && ws[i] == w;
      assert rows[i] == (w, Occ(xs, w));
      assert rows[i] in multiset(ValueCounts(xs));
    }
    CountRowsSum(ws, xs);
    SumOccDistinct(xs);
  }

  /** `keyword_counts.head(30)`, or `None` when `all_keywords` is empty (no table
      is written then). */
  function TopKeywords(xs: seq<string>): (top: Option<seq<(string, nat)>>)
    ensures top.None? <==> xs == []
    ensures top.Some? ==> |top.value| <= TopN && SortedDesc(top.value, RowCount)
  {
    if xs == [] then None
    else
      var rows := ValueCounts(xs);
      Some(if |rows| <= TopN then rows else rows[..TopN])
  }

  /** The table's counts add up to at most the number of keywords, and to exactly
      that number when there are at most 30 distinct keywords. */
  lemma TopKeywordsSum(xs: seq<string>)
    requires xs != []
    ensures SumKeys(TopKeywords(xs).value, RowCount) <= |xs|
    ensures |DistinctWords(xs)| <= TopN ==> SumKeys(TopKeywords(xs).value, RowCount) == |xs|
  {
    var rows := ValueCounts(xs);
    ValueCountsMeaning(xs);
    if |rows| > TopN {
      forall i | 0 <= i < |rows| ensures RowCount(rows[i]) >= 0 {
      }
      PrefixSumAtMost(rows, TopN, RowCount);
    }
  }

  // ---------------------------------------------------------------------------
  // analyze_comments and the entry point

  /** What `analyze_comments` produces. */
  datatype Analysis = Analysis(
    sentimentList: seq<Scored>,
    sentimentCount: map<string, nat>,
    shares: map<string, real>,
    topKeywords: Option<seq<(string, nat)>>)

  /** `analyze_comments`: nothing when the merged file is missing (`None`);
      otherwise the sentiment rows, the `Counter`, each label's share and the
      keyword table. */
  method AnalyzeComments(comments: Option<seq<Record>>, stopwords: set<string>,
                         classify: string -> (string, real), extract: string -> seq<string>)
    returns (result: Option<Analysis>)
    requires comments.Some? ==> AllContentIsText(comments.value)
    ensures comments.None? <==> result.None?
    ensures result.Some? ==>
              var a := result.value;
              a.sentimentList == SentimentList(comments.value, classify)
              && CounterMatches(a.sentimentCount, a.sentimentList)
              && a.shares.Keys == a.sentimentCount.Keys
              && (forall s | s in a.shares :: a.shares[s] == a.sentimentCount[s] as real / |a.sentimentList| as real)
              && (a.sentimentList != [] ==>
                    ShareOrZero(a.shares, "positive") + ShareOrZero(a.shares, "negative") == 1.0)
              && a.topKeywords == TopKeywords(AllKeywords(comments.value, extract, stopwords))
  {
    if comments.None? {
      return None;
    }
    var sentimentList, sentimentCount := SentimentTally(comments.value, classify);
    TallyHasShares(sentimentList, sentimentCount);
    var shares := Shares(sentimentCount, |sentimentList|);
    if sentimentList != [] {
      SharesSumToOne(comments.value, classify, sentimentCount);
    }
    var allKeywords := CollectKeywords(comments.value, extract, stopwords);
    var top := TopKeywords(allKeywords);
    result := Some(Analysis(sentimentList, sentimentCount, shares, top));
  }

  /** The script's entry point: the film name, the merge, then the analysis of the
      merged comments (which are saved and read back unchanged). */
  method Run(answers: seq<string>, short: JsonFile, long: JsonFile,
             xhsComments: CsvFile, xhsContents: CsvFile, stopwords: set<string>,
             classify: string -> (string, real), extract: string -> seq<string>)
    returns (result: Option<Analysis>)
    requires AllContentIsText(Sources(short, long, xhsComments, xhsContents))
    ensures result.Some? <==>
              !short.JsonMalformed? && !long.JsonMalformed?
              && exists k :: 0 <= k < |answers| && ValidMovieName(Strip(answers[k]))
    ensures result.Some? ==>
              var merged := Dedup(Sources(short, long, xhsComments, xhsContents));
              AllContentIsText(merged)
              && result.value.sentimentList == SentimentList(merged, classify)
              && CounterMatches(result.value.sentimentCount, result.value.sentimentList)
              && (result.value.sentimentList != [] ==>
                    ShareOrZero(result.value.shares, "positive")
                    + ShareOrZero(result.value.shares, "negative") == 1.0)
              && result.value.topKeywords == TopKeywords(AllKeywords(merged, extract, stopwords))
  {
    var name, _ := ReadMovieName(answers);
    if name.None? {
      return None;
    }
    var merged := MergeMovieComments(short, long, xhsComments, xhsContents);
    if merged.None? {
      return None;
    }
    DedupTextContent(Sources(short, long, xhsComments, xhsContents));
    result := AnalyzeComments(merged, stopwords, classify, extract);
  }

  /** Deduplication keeps input records, so it keeps every content a string. */
  lemma DedupTextContent(cs: seq<Record>)
    requires AllContentIsText(cs)
    ensures AllContentIsText(Dedup(cs))
  {
    DedupCoversInput(cs);
    forall i | 0 <= i < |Dedup(cs)| ensures ContentIsText(Dedup(cs)[i]) {
      var r := Dedup(cs)[i];
      assert r in cs;
    }
  }
}
