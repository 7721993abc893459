/** overall.py: every film's saved comments pooled into one keyword corpus and
    one word-frequency table. */
module Overall {

  import opened Options
  import opened Text
  import opened Records
  import opened Statistic

  /** One entry of `./data`: its name, whether it is a directory, and the
      decoded `原始评论数据/all_comments.json` inside it (`None` when that file is
      absent). */
  datatype MovieEntry = MovieEntry(name: string, isDir: bool, comments: Option<seq<Record>>)

  /** Every record's `"content"`, where present, is a string (so that
      `c.get("content", "").strip()` is defined). */
  predicate ContentsAreText(movies: seq<MovieEntry>) {
    forall m, r | m in movies && m.comments.Some? && r in m.comments.value :: ContentIsText(r)
  }

  /** `c.get("content", "").strip()` for the records of one file, keeping the
      non-empty ones, in file order. */
  function StrippedContents(records: seq<Record>): (r: seq<string>)
    requires forall c | c in records :: ContentIsText(c)
    decreases |records|
  {
    if |records| == 0 then []
    else
      var content := Strip(ContentOrEmpty(records[|records| - 1]));
      StrippedContents(records[..|records| - 1]) + (if content != [] then [content] else [])
  }

  /** What one entry of `./data` contributes: nothing unless it is a directory
      holding the JSON file. */
  function EntryContents(m: MovieEntry): seq<string>
    requires m.comments.Some? ==> forall c | c in m.comments.value :: ContentIsText(c)
  {
    if !m.isDir || m.comments.None? then [] else StrippedContents(m.comments.value)
  }

  /** `all_comments` after the loop has seen `movies`. */
  function Collected(movies: seq<MovieEntry>): seq<string>
    requires ContentsAreText(movies)
    decreases |movies|
  {
    if |movies| == 0 then []
    else Collected(movies[..|movies| - 1]) + EntryContents(movies[|movies| - 1])
  }

  /** Every collected text is stripped and non-empty. */
  predicate AllStrippedNonBlank(texts: seq<string>) {
    forall i | 0 <= i < |texts| :: texts[i] != [] && Strip(texts[i]) == texts[i]
  }

  lemma {:induction false} StrippedContentsShape(records: seq<Record>)
    requires forall c | c in records :: ContentIsText(c)
    ensures AllStrippedNonBlank(StrippedContents(records))
    ensures |StrippedContents(records)| <= |records|
    decreases |records|
  {
    if |records| > 0 {
      StrippedContentsShape(records[..|records| - 1]);
      StripIdempotent(ContentOrEmpty(records[|records| - 1]));
    }
  }

  /** Every collected text is stripped and not empty, and there are no more of
      them than records in the directories that have a JSON file. */
  lemma {:induction false} CollectedShape(movies: seq<MovieEntry>)
    requires ContentsAreText(movies)
    ensures AllStrippedNonBlank(Collected(movies))
    decreases |movies|
  {
    if |movies| > 0 {
      var m := movies[|movies| - 1];
      CollectedShape(movies[..|movies| - 1]);
      if m.isDir && m.comments.Some? {
        StrippedContentsShape(m.comments.value);
      }
    }
  }

  /** A record whose content is blank or missing contributes nothing; pooling is
      per record, so a record's text is kept exactly when it is not blank. */
  lemma StrippedContentsAppend(records: seq<Record>, c: Record)
    requires forall x | x in records :: ContentIsText(x)
    requires ContentIsText(c)
    ensures forall x | x in records + [c] :: ContentIsText(x)
    ensures StrippedContents(records + [c]) == StrippedContents(records)
            + (if AllSpace(ContentOrEmpty(c)) then [] else [Strip(ContentOrEmpty(c))])
  {
    assert (records + [c])[..|records|] == records;
    StripEmptyIff(ContentOrEmpty(c));
  }

  lemma StrippedStep(records: seq<Record>, j: nat)
    requires forall c | c in records :: ContentIsText(c)
    requires j < |records|
    ensures forall c | c in records[..j] :: ContentIsText(c)
    ensures forall c | c in records[..j + 1] :: ContentIsText(c)
    ensures var content := Strip(ContentOrEmpty(records[j]));
            content != [] ==> StrippedContents(records[..j + 1]) == StrippedContents(records[..j]) + [content]
    ensures Strip(ContentOrEmpty(records[j])) == [] ==>
              StrippedContents(records[..j + 1]) == StrippedContents(records[..j])
  {
    assert records[..j + 1][..j] == records[..j];
    var prev := StrippedContents(records[..j]);
    assert prev + [] == prev;
  }

  lemma CollectedStep(movies: seq<MovieEntry>, i: nat)
    requires ContentsAreText(movies) && i < |movies|
    ensures ContentsAreText(movies[..i]) && ContentsAreText(movies[..i + 1])
    ensures Collected(movies[..i + 1]) == Collected(movies[..i]) + EntryContents(movies[i])
  {
    assert movies[..i + 1][..i] == movies[..i];
  }

  /** The inner loop of `main`: the stripped, non-blank contents of one file. */
  method CollectFile(comments: seq<Record>) returns (texts: seq<string>)
    requires forall c | c in comments :: ContentIsText(c)
    ensures texts == StrippedContents(comments)
  {
    texts := [];
    var j := 0;
    while j < |comments|
      invariant 0 <= j <= |comments|
      invariant texts == StrippedContents(comments[..j])
    {
      var c := comments[j];
      StrippedStep(comments, j);
      var content := Strip(ContentOrEmpty(c));
      if content != [] {
        texts := texts + [content];
      }
      j := j + 1;
    }
    assert comments[..j] == comments;
  }

  /** The outer loop of `main` that builds `all_comments`, over the entries of
      `./data`. */
  method CollectContents(movies: seq<MovieEntry>) returns (all: seq<string>)
    requires ContentsAreText(movies)
    ensures all == Collected(movies)
  {
    all := [];
    var i := 0;
    while i < |movies|
      invariant 0 <= i <= |movies|
      invariant all == Collected(movies[..i])
    {
      var movie := movies[i];
      CollectedStep(movies, i);
      if movie.isDir && movie.comments.Some? {
        var texts := CollectFile(movie.comments.value);
        all := all + texts;
      }
      i := i + 1;
    }
    assert movies[..i] == movies;
  }

  /** `main`: the word-frequency outcome for all films together, with the corpus
      given to the word cloud (`None` when it never gets that far). `movies` is
      `None` when `./data` does not exist; the stop-words are the lines of
      `stopwords.txt`, or none when that file is missing. */
  method OverallMain(movies: Option<seq<MovieEntry>>, stopwords: set<string>,
                     extract: string -> seq<string>,
                     cloud: string -> Option<seq<(string, real)>>)
    returns (corpus: Option<string>, outcome: FrequencyOutcome)
    requires movies.Some? ==> ContentsAreText(movies.value)
    ensures movies.None? ==> outcome == NoDataDirectory && corpus == None
    ensures movies.Some? ==>
              var all := Collected(movies.value);
              (all == [] ==> outcome == NoComments && corpus == None)
              && (all != [] ==>
                    corpus == Some(Corpus(KeywordStrings(all, extract), stopwords))
                    && (cloud(corpus.value).None? ==> outcome == CloudFailed)
                    && (cloud(corpus.value).Some? ==>
                          outcome == Table(SortByCount(EstimateRows(cloud(corpus.value).value,
                                                                    TokenTotal(all))))))
    ensures outcome != NoFrequencyData
  {
    if movies.None? {
      return None, NoDataDirectory;
    }
    var all := CollectContents(movies.value);
    if |all| == 0 {
      return None, NoComments;
    }
    var processed := KeywordStrings(all, extract);
    var fullText := Corpus(processed, stopwords);
    corpus := Some(fullText);
    var words := cloud(fullText);
    if words.None? {
      return corpus, CloudFailed;
    }
    var totalWords := TokenTotal(all);
    var data := FrequencyRows(words.value, totalWords);
    outcome := Table(SortByCount(data));
  }

  /** Once anything is collected the token total is positive, so the
      `if total_words else 0` branch of the proportion is never taken. */
  lemma CollectedTotalPositive(movies: seq<MovieEntry>)
    requires ContentsAreText(movies)
    ensures Collected(movies) != [] ==> TokenTotal(Collected(movies)) >= |Collected(movies)| > 0
  {
    CollectedShape(movies);
    var all := Collected(movies);
    forall i | 0 <= i < |all| ensures Strip(all[i]) != [] {
    }
    TokenTotalAtLeastCount(all);
  }
}
