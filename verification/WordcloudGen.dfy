/** wordcloud_gen.py: the mother–daughter reviews of one film, drawn from the
    four saved sources, counted and handed to the star tally and the
    word-frequency table. */
module WordcloudGen {

  import opened Options
  import opened Text
  import opened Records
  import opened Filter
  import opened Statistic
  import opened Organize

  /** The text of one CSV cell after `fillna("")` and `str(x)`. */
  function CellText(cell: Option<string>): string {
    if cell.Some? then cell.value else ""
  }

  /** `load_csv(path, column)` on the chosen column: one `{"content": ...}` per
      row, an empty cell giving "" (neither trimmed nor dropped); `[]` when the
      file does not exist (`None`). */
  function LoadCsv(column: Option<seq<Option<string>>>): (r: seq<Record>)
    ensures column.None? ==> r == []
    ensures column.Some? ==> |r| == |column.value|
    ensures AllHaveTextContent(r)
    ensures column.Some? ==> forall i | 0 <= i < |r| ::
              r[i].Keys == {"content"} && Content(r[i]) == CellText(column.value[i])
  {
    match column
    case None => []
    case Some(cells) => seq(|cells|, i requires 0 <= i < |cells| => ContentRecord(CellText(cells[i])))
  }

  /** A row with an empty cell becomes a record, but filtering drops it: an
      empty review never reaches the statistics. */
  lemma BlankRowsNeverCounted(column: Option<seq<Option<string>>>)
    ensures forall r | r in FilterMotherDaughter(LoadCsv(column)) :: Content(r) != ""
    ensures column.Some? ==> forall i | 0 <= i < |column.value| && column.value[i].None? ::
              Content(LoadCsv(column)[i]) == ""
  {
    EmptyContentNeverKept();
  }

  /** The relevant reviews of the four sources, each source filtered on its
      own, concatenated in the order short, long, xhs comments, xhs search:
      the same as filtering the four concatenated, and as long as the four
      per-source counts together. */
  function Combined(short: seq<Record>, long: seq<Record>, xhsComments: seq<Record>,
                    xhsSearch: seq<Record>): (r: seq<Record>)
    requires AllHaveTextContent(short) && AllHaveTextContent(long)
    requires AllHaveTextContent(xhsComments) && AllHaveTextContent(xhsSearch)
    ensures AllHaveTextContent(r)
    ensures AllHaveTextContent(short + long + xhsComments + xhsSearch)
    ensures r == FilterMotherDaughter(short + long + xhsComments + xhsSearch)
    ensures |r| == |FilterMotherDaughter(short)| + |FilterMotherDaughter(long)|
                   + |FilterMotherDaughter(xhsComments)| + |FilterMotherDaughter(xhsSearch)|
  {
    CombinedFiltersAll(short, long, xhsComments, xhsSearch);
    FilterMotherDaughter(short) + FilterMotherDaughter(long)
    + FilterMotherDaughter(xhsComments) + FilterMotherDaughter(xhsSearch)
  }

  /** Filtering each source apart is filtering them all together. */
  lemma CombinedFiltersAll(short: seq<Record>, long: seq<Record>, xhsComments: seq<Record>,
                           xhsSearch: seq<Record>)
    requires AllHaveTextContent(short) && AllHaveTextContent(long)
    requires AllHaveTextContent(xhsComments) && AllHaveTextContent(xhsSearch)
    ensures AllHaveTextContent(short + long + xhsComments + xhsSearch)
    ensures FilterMotherDaughter(short) + FilterMotherDaughter(long)
            + FilterMotherDaughter(xhsComments) + FilterMotherDaughter(xhsSearch)
            == FilterMotherDaughter(short + long + xhsComments + xhsSearch)
    ensures |FilterMotherDaughter(short) + FilterMotherDaughter(long)
             + FilterMotherDaughter(xhsComments) + FilterMotherDaughter(xhsSearch)|
            == |FilterMotherDaughter(short)| + |FilterMotherDaughter(long)|
               + |FilterMotherDaughter(xhsComments)| + |FilterMotherDaughter(xhsSearch)|
  {
    FilterConcat(short, long);
    FilterConcat(short + long, xhsComments);
    FilterConcat(short + long + xhsComments, xhsSearch);
  }

  /** Nothing is deduplicated: a relevant review saved both as a short and as
      a long review is counted twice. */
  lemma DuplicatesCountedTwice(r: Record)
    requires HasTextContent(r) && IsRelevant(Content(r))
    ensures Combined([r], [r], [], []) == [r, r]
  {
    assert r in [r];
  }

  /** The log `main` writes into: `./data/{name}/{name}` followed by the suffix. */
  function LogFileName(movieName: string): string {
    "./data/" + movieName + "/" + movieName + FilmLogSuffix
  }

  const FilmLogSuffix := "_" + FilmLogTail

  const FilmLogTail := "母女关系分析日志.txt"

  /** A character `a` that occurs in `m + suffix` only as the first character
      of `suffix`, where it is not followed by `b`, is never followed by `b`. */
  lemma OnlyPairAtJoin(m: string, suffix: string, a: char, b: char)
    requires |suffix| >= 2 && suffix[1] != b
    requires a !in m && a !in suffix[1..]
    ensures forall i | 0 <= i < |m + suffix| - 1 :: !((m + suffix)[i] == a && (m + suffix)[i + 1] == b)
  {
    var s := m + suffix;
    forall i | 0 <= i < |s| - 1 ensures !(s[i] == a && s[i + 1] == b) {
      if i < |m| {
        assert s[i] == m[i];
      } else if i == |m| {
        assert s[i + 1] == suffix[1];
      } else {
        assert s[i] == suffix[1..][i - |m| - 1];
      }
    }
  }

  /** With no "_" in the film's name, the log name's only "_" is the one
      before "母". */
  lemma FilmLogUnderscore(movieName: string)
    requires '_' !in movieName
    ensures var s := movieName + FilmLogSuffix;
            forall i | 0 <= i < |s| - 1 :: !(s[i] == '_' && s[i + 1] == '日')
  {
    assert FilmLogSuffix[1..] == FilmLogTail;
    assert '_' !in FilmLogTail && FilmLogTail[0] == '母';
    OnlyPairAtJoin(movieName, FilmLogSuffix, '_', '日');
  }

  /** Without "_" directly before "日", the fragment "_日志.txt" cannot occur. */
  lemma NoLogFragment(s: string)
    requires forall i | 0 <= i < |s| - 1 :: !(s[i] == '_' && s[i + 1] == '日')
    ensures !Contains(s, "_日志.txt")
  {
    var p := "_日志.txt";
    assert p[0] == '_' && p[1] == '日';
    NoPairNoContains(s, p);
  }

  /** A pattern that occurs neither in `m` nor in `t` cannot straddle the join
      either when `t`'s second character is not in it and it does not end with
      `t`'s first. */
  lemma NoStraddle(m: string, t: string, p: string)
    requires |t| >= 2 && p != [] && p[|p| - 1] != t[0] && t[1] !in p
    requires !Contains(m, p) && !Contains(t, p)
    ensures !Contains(m + t, p)
  {
    var s := m + t;
    ContainsAt(s, p);
    ContainsAt(m, p);
    ContainsAt(t, p);
    forall i ensures !OccursAt(s, p, i) {
      if i < 0 || i + |p| > |s| {
      } else if i + |p| <= |m| {
        assert s[i..i + |p|] == m[i..i + |p|];
        assert !OccursAt(m, p, i);
      } else if i >= |m| {
        var a, b := s[i..i + |p|], t[i - |m|..i - |m| + |p|];
        forall k | 0 <= k < |p| ensures a[k] == b[k] {
          assert s[i + k] == t[i - |m| + k];
        }
        assert a == b;
        assert !OccursAt(t, p, i - |m|);
      } else if |m| - i + 1 < |p| {
        assert s[i..i + |p|][|m| - i + 1] == t[1];
        assert p[|m| - i + 1] != t[1];
      } else {
        assert s[i..i + |p|][|p| - 1] == t[0];
      }
    }
  }

  /** The suffix on its own holds no category fragment. */
  lemma SuffixHoldsNoFragment()
    ensures forall i, k | 0 <= i < |CategoryMap| && 0 <= k < |CategoryMap[i].1| ::
              !Contains(FilmLogSuffix, CategoryMap[i].1[k])
  {
    FragmentInitials();
    FilmLogUnderscore("");
    assert "" + FilmLogSuffix == FilmLogSuffix;
    NoLogFragment(FilmLogSuffix);
    forall i, k | 0 <= i < |CategoryMap| && 0 <= k < |CategoryMap[i].1|
      ensures !Contains(FilmLogSuffix, CategoryMap[i].1[k])
    {
      var p := CategoryMap[i].1[k];
      if p != "_日志.txt" {
        SuffixLacksInitials(p[0]);
        AbsentChar(FilmLogSuffix, p, p[0]);
      }
    }
  }

  /** The suffix holds none of the fragments' ASCII initials. */
  lemma SuffixLacksInitials(c: char)
    requires c in "alscw"
    ensures c !in FilmLogSuffix
  {
    assert FilmLogSuffix == ['_', '母', '女', '关', '系', '分', '析', '日', '志', '.', 't', 'x', 't'];
  }

  /** No fragment ends with "_" or contains "母", so none can straddle the
      join of a film name and the suffix. */
  lemma FragmentEnds()
    ensures forall i, k | 0 <= i < |CategoryMap| && 0 <= k < |CategoryMap[i].1| ::
              CategoryMap[i].1[k] != [] && CategoryMap[i].1[k][|CategoryMap[i].1[k]| - 1] != '_'
              && '母' !in CategoryMap[i].1[k]
  {
  }

  /** A log name whose film name does not contain "_日志.txt" does not contain
      it either. */
  lemma FilmLogNoLogFragment(movieName: string)
    requires !Contains(movieName, "_日志.txt")
    ensures !Contains(movieName + FilmLogSuffix, "_日志.txt")
  {
    SuffixHoldsNoFragment();
    assert CategoryMap[3].1[1] == "_日志.txt";
    assert FilmLogSuffix[1] == '母' && FilmLogSuffix[0] == '_';
    NoStraddle(movieName, FilmLogSuffix, "_日志.txt");
  }

  /** The name of the per-film log written by wordcloud_gen.py,
      `{movie_name}_母女关系分析日志.txt`, matches no category when no category
      fragment occurs in the film's name: the suffix holds none, and none can
      straddle the join, since the suffix starts with "_母". */
  lemma FilmLogUnmatched(movieName: string)
    requires forall i, k | 0 <= i < |CategoryMap| && 0 <= k < |CategoryMap[i].1| ::
               !Contains(movieName, CategoryMap[i].1[k])
    ensures CategoryOf(movieName + FilmLogSuffix) == None
  {
    SuffixHoldsNoFragment();
    FragmentEnds();
    assert FilmLogSuffix[1] == '母' && FilmLogSuffix[0] == '_';
    forall i, k | 0 <= i < |CategoryMap| && 0 <= k < |CategoryMap[i].1|
      ensures !Contains(movieName + FilmLogSuffix, CategoryMap[i].1[k])
    {
      NoStraddle(movieName, FilmLogSuffix, CategoryMap[i].1[k]);
    }
    NoFragmentNoCategory(movieName + FilmLogSuffix);
  }

  /** Every fragment contains ".", so a film name without "." (such as
      "Lady Bird", or any name without ASCII) leaves the log unmatched. */
  lemma FilmLogUnmatchedWithoutDot(movieName: string)
    requires '.' !in movieName
    ensures CategoryOf(movieName + FilmLogSuffix) == None
  {
    forall i, k | 0 <= i < |CategoryMap| && 0 <= k < |CategoryMap[i].1|
      ensures !Contains(movieName, CategoryMap[i].1[k])
    {
      assert '.' in CategoryMap[i].1[k];
      AbsentChar(movieName, CategoryMap[i].1[k], '.');
    }
    FilmLogUnmatched(movieName);
  }

  /** The two `MovieReviewStatistic` calls at the end of `main` on the combined
      reviews: the star histogram (started at zero) and accumulators, then the
      corpus and the frequency outcome. */
  method RunStatistics(movieName: string, relevant: seq<Record>, stopwords: set<string>,
                       extract: string -> seq<string>, cloud: string -> Option<seq<(string, real)>>)
    returns (starsCount: map<int, int>, allStar: int, allVal: int, corpus: string, outcome: FrequencyOutcome)
    requires AllHaveTextContent(relevant) && AllTallySafe(relevant)
    ensures starsCount.Keys == StarKeys
    ensures forall k | k in StarKeys :: starsCount[k] == CountRating(relevant, k)
    ensures allStar == StarSum(relevant) && allVal == 5 * WeightSum(relevant)
    ensures corpus == Corpus(KeywordStrings(Contents(relevant), extract), stopwords)
    ensures cloud(corpus).None? ==> outcome == CloudFailed
    ensures cloud(corpus).Some? ==> outcome == TableOf(cloud(corpus).value, TokenTotal(Contents(relevant)))
  {
    var stat := new MovieReviewStatistic(movieName, relevant, stopwords);
    var zero := stat.starsCount;
    allStar, allVal := stat.StasticStar();
    starsCount := stat.starsCount;
    forall k | k in StarKeys
      ensures starsCount[k] == CountRating(relevant, k)
    {
      TallyCounts(zero, relevant, k);
    }
    corpus, outcome := stat.StatisticComment(extract, cloud);
  }

  /** The loading, filtering and concatenation steps of `main`. */
  method CombineSources(short: Option<seq<Record>>, long: Option<seq<Record>>,
                        xhsComments: Option<seq<Option<string>>>, xhsSearch: Option<seq<Option<string>>>)
    returns (relevant: seq<Record>)
    requires short.Some? ==> AllHaveTextContent(short.value)
    requires long.Some? ==> AllHaveTextContent(long.value)
    ensures relevant == Combined(LoadJson(short), LoadJson(long), LoadCsv(xhsComments), LoadCsv(xhsSearch))
    ensures AllHaveTextContent(relevant)
  {
    var shortComments := LoadJson(short);
    var longComments := LoadJson(long);
    var xhsCommentRecords := LoadCsv(xhsComments);
    var xhsSearchContents := LoadCsv(xhsSearch);
    var filteredShort := FilterMotherDaughter(shortComments);
    var filteredLong := FilterMotherDaughter(longComments);
    var filteredXhsComments := FilterMotherDaughter(xhsCommentRecords);
    var filteredXhsSearch := FilterMotherDaughter(xhsSearchContents);
    relevant := filteredShort + filteredLong + filteredXhsComments + filteredXhsSearch;
    CombinedFiltersAll(shortComments, longComments, xhsCommentRecords, xhsSearchContents);
  }

  /** `main`: the film's name is the stripped answer to the prompt; the two
      JSON files are `None` when missing, the two CSV columns likewise. Returns
      the log file name, the combined relevant reviews, and what
      `RunStatistics` computes from them. */
  method WordcloudMain(answer: string, short: Option<seq<Record>>, long: Option<seq<Record>>,
                       xhsComments: Option<seq<Option<string>>>, xhsSearch: Option<seq<Option<string>>>,
                       stopwords: set<string>, extract: string -> seq<string>,
                       cloud: string -> Option<seq<(string, real)>>)
    returns (logFile: string, relevant: seq<Record>, starsCount: map<int, int>,
             allStar: int, allVal: int, corpus: string, outcome: FrequencyOutcome)
    requires short.Some? ==> AllHaveTextContent(short.value)
    requires long.Some? ==> AllHaveTextContent(long.value)
    requires AllTallySafe(Combined(LoadJson(short), LoadJson(long), LoadCsv(xhsComments), LoadCsv(xhsSearch)))
    ensures logFile == LogFileName(Strip(answer))
    ensures relevant == Combined(LoadJson(short), LoadJson(long), LoadCsv(xhsComments), LoadCsv(xhsSearch))
    ensures starsCount.Keys == StarKeys
    ensures forall k | k in StarKeys :: starsCount[k] == CountRating(relevant, k)
    ensures allStar == StarSum(relevant) && allVal == 5 * WeightSum(relevant)
    ensures corpus == Corpus(KeywordStrings(Contents(relevant), extract), stopwords)
    ensures cloud(corpus).None? ==> outcome == CloudFailed
    ensures cloud(corpus).Some? ==> outcome == TableOf(cloud(corpus).value, TokenTotal(Contents(relevant)))
  {
    var movieName := Strip(answer);
    logFile := LogFileName(movieName);
    relevant := CombineSources(short, long, xhsComments, xhsSearch);
    starsCount, allStar, allVal, corpus, outcome := RunStatistics(movieName, relevant, stopwords, extract, cloud);
  }
}
