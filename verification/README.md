# Douban film reviews: crawl, filter, tally, analyse, organise

A Dafny model of the Python scripts that:

- crawl a film's Douban short reviews and long reviews;
- keep the reviews about the mother–daughter relationship, using a cascade of four keyword rules;
- tally the star ratings, weighted by upvotes;
- estimate word frequencies from a word cloud's normalised weights;
- merge and deduplicate the reviews of all sources for sentiment and keyword analysis;
- pool the comments of every film;
- sort each film's output files into category folders.

One module per script:

| module | script | form |
|---|---|---|
| `Filter` | `filter.py` | pure functions and lemmas |
| `Statistic` | `statistic.py` | class `MovieReviewStatistic` with the in-place star tally; loop methods |
| `WordcloudGen` | `wordcloud_gen.py` | methods for `main`; functions for loading |
| `Overall` | `overall.py` | loop methods proved against functions |
| `SentimentMerge` | `sentiment_topic_analysis.py` (merge) | the prompt loop and the merge as methods; the dict comprehension as functions |
| `SentimentAnalysis` | `sentiment_topic_analysis.py` (analysis) | loop methods proved against functions |
| `Organize` | `organize.py` | the folder as a value; each loop as a method |
| `ShortReview` | `movie_short_review.py` | loop methods proved against functions |
| `LongReview` | `movie_long_review.py` | loop methods proved against functions |

The shared modules are:

- `Text`: Python's `strip`, `split`, `split(c)`, `join`, `in`, `int()` and `lower()` on strings.
- `Records`: a JSON record as `map<string, Value>`.
- `Options`: `Option`, `Distinct` and `Prepend`.
- `Sorting`: a descending sort by key.

The scripts' external collaborators are function-typed parameters:

- the HTML pages, given as already-parsed items;
- the keyword extractor (`jieba.analyse.extract_tags`);
- the word cloud's `words_`;
- the sentiment classifier.

Files on disk are `Option` values: `None` stands for a missing file.

Behaviour of the code worth stating up front:

- **Deduplication.** `{c['content']: c for c in ...}.values()` keeps the *last* record with a given content, at the position of the *first* one (`DedupLastWins`, `DedupFirstOrder`, `DedupKeepsLastRecord`).
- **Rule 2 of the filter.** Its two checks are independent, so one occurrence can serve both. In "小姑娘", "娘" counts as a mother word inside "姑娘", and the review is kept (`GirlKeptByRuleTwo`).
- **Estimated counts.** Each weight is scaled separately, so the counts can add up to more than the token total (`CountsMayExceedTotal`).
- **An empty corpus.** `WordCloud.generate` raises `ValueError` (`CloudFailed`) rather than giving an empty table. `overall.py` catches this error; `statistic.py` does not.
- **A rating of "6".** It raises `KeyError` in `stastic_star` (`RatingSixRaises`); it is not skipped.

## Model

| member | source | states |
|---|---|---|
| Filter.FirstRule | filter.py:28-51 | the cascade fires some rule iff the OR of the four rules holds; rule 1 fires iff a strong keyword occurs; the rule number is 1..4 |
| Filter.FilterMotherDaughter | filter.py:23-53 | the output is no longer than the input; every kept record is an input record whose content is relevant; every relevant input record is kept |
| Filter.FilterIsSubsequence | filter.py:25-53 | the kept records keep their input order (a subsequence) |
| Filter.FilterMultiplicity | filter.py:25-53 | no record is duplicated: its multiset is contained in the input's |
| Filter.FilterConcat | filter.py:25-53 | filtering a concatenation is concatenating the filtered parts (per-record decision) |
| Filter.FilterIdempotent | filter.py:25-53 | filtering twice equals filtering once |
| Filter.EmptyContentNeverKept | filter.py:3-22 | empty content matches no rule, since every keyword is non-empty |
| Filter.InitialsCover | filter.py:3-22 | every keyword of the three lists is non-empty and starts with one of the listed initial characters |
| Filter.NoWordStartsIn | filter.py:29 | a text with none of a list's initial characters contains none of its words |
| Filter.NoWordFitsIn | filter.py:29 | a text lacking the first or the last character of each word contains none of them |
| Filter.StrongWordsMissGirl | filter.py:3-8 | no strong keyword has both end characters in "小姑娘" |
| Filter.GirlKeptByRuleTwo | filter.py:33-37 | "小姑娘" has no strong keyword but satisfies rule 2 ("娘" inside "姑娘"), so rule 2 is the first to fire |
| Filter.MotherSonKept | filter.py:4 | "母子" (mother and son) is kept by rule 1 although no daughter word occurs |
| Filter.SpecialEffectsNoKeyword | filter.py:29-35 | a review about special effects has no strong keyword and no mother word |
| Filter.SampleWithPronounKept | filter.py:40-42 | "她" with "妈" satisfies rule 3 and is kept |
| Filter.NoRuleFires | filter.py:28-51 | without a strong keyword, a mother word, "她", "母" and "妈", no rule fires |
| Filter.SampleSpecialEffectsDropped | filter.py:28-51 | the special-effects review is dropped |
| Filter.SamplePairKept | filter.py:29-31 | a review naming "母女俩" is kept by rule 1 |
| Statistic.TallyStep | statistic.py:22-40 | one more comment adds 1 to its rating's key and rating×upvote and upvote to the sums when it counts, and nothing otherwise |
| Statistic.Tally | statistic.py:22-40 | the tally keeps exactly the star keys 1..5 |
| Statistic.TallyCounts | statistic.py:38 | each star key grows by exactly the number of counted comments with that rating |
| Statistic.TallyTotal | statistic.py:38 | the five counts grow in total by the number of counted comments |
| Statistic.TallyTwice | statistic.py:18-40 | `stars_count` is never reset: a second run adds the same counts again |
| Statistic.WeightedBounds | statistic.py:39-40 | with non-negative upvotes, the weight sum ≤ the weighted star sum ≤ 5 × the weight sum |
| Statistic.ParseTen | statistic.py:29 | `int("10")` is 10 |
| Statistic.ParseWord | statistic.py:28-31 | `int("abc")` raises |
| Statistic.BlankRatingSkipped | statistic.py:24-25 | a missing, "" or None rating is skipped before any parsing |
| Statistic.ZeroRatingSkipped | statistic.py:33-36 | a rating 0 is skipped, but only after the upvote is parsed, so an unparsable upvote still raises |
| Statistic.NonNumericRatingSkipped | statistic.py:28-31 | a non-numeric rating is skipped without raising |
| Statistic.TallySingle | statistic.py:22-40 | the tally and both sums for a single comment |
| Statistic.ThreeAndTen | statistic.py:29-33 | rating "3" with upvote "10" parses to 3 and 10 |
| Statistic.RatingThreeUpvoteTen | statistic.py:38-40 | such a comment adds 1 to key 3, 30 to `all_star` and 50 to `all_val` |
| Statistic.RatingSixRaises | statistic.py:38 | a rating of "6" passes the skip checks and misses every key (KeyError) |
| Statistic.EstimateRowBounds | statistic.py:104-109 | for a weight in [0,1] the count is the truncated (here exact) product weight×total, in 0..total, and the proportion is in [0,1] |
| Statistic.ScaleInRange | statistic.py:104 | a weight in [0,1] scales a non-negative total into [0,total] |
| Statistic.RatioInUnit | statistic.py:109 | a count at most the total gives a proportion in [0,1] |
| Statistic.FrequencyRows | statistic.py:102-110 | one row per cloud word, in cloud order, with its word and weight; bounded rows when the weights are in [0,1] |
| Statistic.SortByCount | statistic.py:112 | sorted by count, largest first, and a permutation of the rows |
| Statistic.SortKeepsBounds | statistic.py:112 | sorting keeps every row's bounds |
| Statistic.CountsMayExceedTotal | statistic.py:102-110 | two words of weight 1.0 with one token give counts summing to 2 > 1 |
| Statistic.KeywordStrings | statistic.py:57-61 | one space-joined keyword string per comment, in order |
| Statistic.TokenTotalAtLeastCount | statistic.py:97 | non-blank texts contribute at least one token each |
| Statistic.MovieReviewStatistic.constructor | statistic.py:9-16 | every star key 1..5 starts at 0; name, comments and stop-words are stored |
| Statistic.MovieReviewStatistic.StasticStar | statistic.py:18-40 | `stars_count` becomes the tally over the comments; returns the weighted star sum and 5× the weight sum |
| Statistic.MovieReviewStatistic.StatisticComment | statistic.py:52-112 | the corpus is the stop-word-filtered join of keyword strings; no table when the cloud raises or there are no tokens; otherwise the rows sorted by count, bounded when the weights are in [0,1] |
| WordcloudGen.LoadCsv | wordcloud_gen.py:31-36 | no records for a missing file; otherwise one `{"content"}` record per row, an empty cell giving "" |
| WordcloudGen.BlankRowsNeverCounted | wordcloud_gen.py:34-35 | an empty cell becomes a record with content "", which the filter always drops |
| WordcloudGen.Combined | wordcloud_gen.py:67-84 | filtering each source and concatenating equals filtering the concatenation; its length is the sum of the four counts |
| WordcloudGen.CombinedFiltersAll | wordcloud_gen.py:67-84 | per-source filtering agrees with filtering everything together |
| WordcloudGen.DuplicatesCountedTwice | wordcloud_gen.py:79-84 | nothing is deduplicated: a review saved as both short and long is counted twice |
| WordcloudGen.OnlyPairAtJoin | wordcloud_gen.py:44 | a character that occurs only at the start of the suffix is never followed by a given other character |
| WordcloudGen.FilmLogUnderscore | wordcloud_gen.py:44 | the log name's only "_" is the one before "母", never before "日" |
| WordcloudGen.NoLogFragment | organize.py:30 | without "_" right before "日", the fragment "_日志.txt" cannot occur |
| WordcloudGen.NoStraddle | wordcloud_gen.py:44 | a pattern found in neither part of a join, not ending with the second part's first character and lacking its second, is not found in the join |
| WordcloudGen.SuffixHoldsNoFragment | organize.py:12-32 | the log suffix `_母女关系分析日志.txt` on its own contains no category fragment |
| WordcloudGen.FragmentEnds | organize.py:12-32 | no category fragment ends with "_" or contains "母" |
| WordcloudGen.FilmLogNoLogFragment | wordcloud_gen.py:44 | when the film name does not contain "_日志.txt", the per-film log name does not either |
| WordcloudGen.FilmLogUnmatched | wordcloud_gen.py:44 | when no category fragment occurs in the film name, the log that `main` writes matches no category of organize.py, so it is never moved |
| WordcloudGen.FilmLogUnmatchedWithoutDot | wordcloud_gen.py:44 | every fragment contains ".", so for a film name without "." ("Lady Bird", any name without ASCII) the log is never moved |
| WordcloudGen.RunStatistics | wordcloud_gen.py:90-92 | the star counts are exactly the counted ratings per key, with the two sums; the corpus and the frequency outcome follow `statistic_comment` |
| WordcloudGen.CombineSources | wordcloud_gen.py:56-84 | the relevant reviews of the four loaded sources, in order short, long, xhs comments, xhs search |
| WordcloudGen.WordcloudMain | wordcloud_gen.py:40-92 | the log name from the stripped answer, the combined reviews, their star counts, sums and word-frequency outcome |
| Overall.StrippedContentsShape | overall.py:52-55 | every collected text is stripped and non-empty; no more texts than records |
| Overall.CollectedShape | overall.py:38-55 | every text pooled from all films is stripped and non-empty |
| Overall.StrippedContentsAppend | overall.py:52-55 | a record adds its stripped content exactly when that content is not blank |
| Overall.StrippedStep | overall.py:52-55 | the inner loop body appends the stripped content iff it is non-empty |
| Overall.CollectedStep | overall.py:38-55 | the outer loop body appends what one entry of `./data` contributes |
| Overall.CollectFile | overall.py:52-55 | the inner loop returns the stripped, non-blank contents of one file in order |
| Overall.CollectContents | overall.py:35-55 | the outer loop returns the pooled contents of all film folders in order |
| Overall.OverallMain | overall.py:20-112 | no data directory, no comments, cloud failure or the table sorted by count, each in its case; never the "no tokens" outcome |
| Overall.CollectedTotalPositive | overall.py:98-107 | once anything is collected the token total is positive, so the zero branch of the proportion is dead |
| Organize.CategoryNamesAreKeys | organize.py:12-32 | the four folder names are exactly the keys of `CATEGORY_MAP`, without repeats |
| Organize.FirstCategoryIsFirstMatch | organize.py:55-62 | no category iff no fragment occurs; otherwise the category is the first in map order with a matching fragment |
| Organize.MatchCategory | organize.py:55-62 | the nested loops with their breaks return the first matching category |
| Organize.NoFragmentNoCategory | organize.py:55-62 | a name containing no fragment has no category |
| Organize.FragmentInitials | organize.py:12-32 | every fragment but "_日志.txt" starts with one of "alscw" |
| Organize.CategoryOfIsCategory | organize.py:55-62 | a matched category is one of the four folder names |
| Organize.WordcloudCategory | organize.py:21-27 | a name containing "wordcloud.png" (and no ".json"/".csv") goes to the keyword-results folder |
| Organize.OrganizeSingleMovie | organize.py:36-75 | the loop as written: the folder after visiting the listing in order |
| Organize.AsWrittenKeepsOthers | organize.py:45-74 | whatever the listing order, other sub-folders and unmatched files are untouched |
| Organize.MovedFileDeletedLater | organize.py:45-71 | a file moved into a category folder listed after it is deleted with that folder |
| Organize.OrganizeSingleMovieFixed | organize.py:44-52 | the loop with the category folders cleared before any file is moved |
| Organize.AfterListingAppend | organize.py:45 | visiting a + b is visiting a, then b |
| Organize.ClearPhase | organize.py:48-52 | visiting distinct sub-folders deletes exactly the category folders among them |
| Organize.FilePhase | organize.py:55-71 | visiting distinct files after clearing places each matched file, and only those, in its category folder |
| Organize.PlacedStep | organize.py:65-71 | one more file visited keeps the placement invariant |
| Organize.FixedPlacesEveryFile | organize.py:44-71 | directories first: every matched file ends up in its category folder, unmatched files and other sub-folders stay, category folders hold only this run's files of that category |
| Organize.MovieFolders | organize.py:88-92 | exactly the directories of `./data`, no more entries than listed |
| Organize.MovieFoldersConcat | organize.py:88-92 | each entry is judged in place: the directories of a + b are those of a then those of b, so listing order is kept |
| Organize.Selected | organize.py:105-108 | all folders iff the answer strips and lower-cases to "y" (or there is one folder); otherwise only the first |
| Organize.SelectionExamples | organize.py:105-108 | " Y\n" selects all; "yes" and "" select only the first |
| Organize.OrganizeAllEach | organize.py:111-112 | one organised folder per chosen film, in order, each the result of `organize_single_movie` as written over its own listing order |
| Organize.OrganizeEach | organize.py:111-112 | the loop runs `organize_single_movie` as written on each chosen folder, in order |
| Organize.OrganizeMain | organize.py:80-112 | no data root, no film folders, or the chosen folders organised, each in its case |
| SentimentMerge.ReadMovieName | sentiment_topic_analysis.py:23-31 | the first stripped answer that is non-empty and free of invalid characters; all earlier ones invalid; none when the answers run out |
| SentimentMerge.NameExamples | sentiment_topic_analysis.py:24-31 | "Lady Bird" is accepted; "a/b" and a blank line are refused |
| Records.LoadJson | wordcloud_gen.py:24-28 | `[]` for a missing file, otherwise the decoded list unchanged |
| Records.ContentRecord | sentiment_topic_analysis.py:86-90 | the record `{"content": text}` with its content |
| SentimentMerge.CellsToRecordsClean | sentiment_topic_analysis.py:86-90 | every CSV record is `{"content"}` with stripped non-empty text; no more records than cells |
| SentimentMerge.CellsToRecordsOrigin | sentiment_topic_analysis.py:86-90 | every CSV record comes from some cell |
| SentimentMerge.CellsToRecordsCover | sentiment_topic_analysis.py:86-90 | every non-blank cell yields its stripped text |
| SentimentMerge.BlankCellDropped | sentiment_topic_analysis.py:89 | a NaN or whitespace-only cell yields nothing |
| SentimentMerge.Comprehension | sentiment_topic_analysis.py:123-124 | distinct keys, each with an entry whose content is that key; no more keys than records |
| SentimentMerge.Dedup | sentiment_topic_analysis.py:123-124 | one record per key, in key order |
| SentimentMerge.ComprehensionKeys | sentiment_topic_analysis.py:123-124 | a key is present iff some input record has that content |
| SentimentMerge.LastAt | sentiment_topic_analysis.py:123-124 | the last position with a given content, or -1 |
| SentimentMerge.LastAtIsLast | sentiment_topic_analysis.py:123-124 | that position has the content and no later one does |
| SentimentMerge.ComprehensionEntryAt | sentiment_topic_analysis.py:123-124 | the entry stored under a key is the input record at its last position |
| SentimentMerge.ComprehensionLastWins | sentiment_topic_analysis.py:123-124 | the entry is an input record with that content and no later record has it |
| SentimentMerge.FirstAtPrefix | sentiment_topic_analysis.py:123-124 | a content occurring in a prefix first occurs inside that prefix |
| SentimentMerge.ComprehensionFirstOrder | sentiment_topic_analysis.py:123-124 | keys are ordered by first occurrence |
| SentimentMerge.DedupDistinct | sentiment_topic_analysis.py:123-124 | the output contents are pairwise distinct |
| SentimentMerge.DedupCoversInput | sentiment_topic_analysis.py:123-124 | every input content is kept, and only input records are output |
| SentimentMerge.DedupLastWins | sentiment_topic_analysis.py:123-124 | each output record is the last input record with its content |
| SentimentMerge.DedupFirstOrder | sentiment_topic_analysis.py:123-124 | output order is first-occurrence order |
| SentimentMerge.DedupKeepsLastRecord | sentiment_topic_analysis.py:123-124 | for [first, other, second] with first and second sharing content, the output is [second, other] |
| SentimentMerge.DedupDropsContentless | sentiment_topic_analysis.py:124 | a record without "content" is dropped |
| SentimentMerge.MergeMovieComments | sentiment_topic_analysis.py:47-136 | none iff a JSON file is malformed; otherwise the deduplicated records of the four sources in order |
| SentimentAnalysis.SentimentOf | sentiment_topic_analysis.py:194-196 | the label is "positive" or "negative" |
| SentimentAnalysis.SentimentLabels | sentiment_topic_analysis.py:194-196 | "Positive"/"POSITIVE" are positive; "Negative" and "neutral" are negative |
| SentimentAnalysis.ScoreComment | sentiment_topic_analysis.py:189-203 | no row iff the stripped text is blank; otherwise one row with that text and a binary label |
| SentimentAnalysis.CountOfAtMost | sentiment_topic_analysis.py:211-213 | a label's count is at most the number of rows |
| SentimentAnalysis.CountOfAppend | sentiment_topic_analysis.py:203 | a row adds one to its own label's count only |
| SentimentAnalysis.SentimentStep | sentiment_topic_analysis.py:188-203 | the loop body appends the comment's row, if any |
| SentimentAnalysis.Increment | sentiment_topic_analysis.py:203 | `Counter[key] += 1`: a missing key counts as 0, other keys unchanged |
| SentimentAnalysis.CounterOfMatches | sentiment_topic_analysis.py:186-203 | the Counter holds exactly the labels that occurred, each with its row count |
| SentimentAnalysis.CounterOfAppend | sentiment_topic_analysis.py:203 | one more row increments its label |
| SentimentAnalysis.SentimentTally | sentiment_topic_analysis.py:185-203 | the rows of the comments in order and the Counter matching them |
| SentimentAnalysis.SentimentListBinary | sentiment_topic_analysis.py:196 | every row is positive or negative |
| SentimentAnalysis.CountsAddUp | sentiment_topic_analysis.py:211-213 | with two labels the counts add up to the rows |
| SentimentAnalysis.SentimentCountsTotal | sentiment_topic_analysis.py:211-213 | positive and negative counts add up to `len(sentiment_list)` |
| SentimentAnalysis.Shares | sentiment_topic_analysis.py:211-213 | one share per label of the Counter, its count divided by `total_comments`, each in (0,1] |
| SentimentAnalysis.SplitShares | sentiment_topic_analysis.py:211-213 | two counts that make up the total have shares summing to 1 |
| SentimentAnalysis.ShareOfLabel | sentiment_topic_analysis.py:211-213 | through a matching Counter, a label's share is its rows over all rows, 0 for a label that never occurred |
| SentimentAnalysis.SharesSumToOne | sentiment_topic_analysis.py:211-213 | once something was scored, the positive and negative shares sum to 1 |
| SentimentAnalysis.ShareInUnit | sentiment_topic_analysis.py:213 | a positive count at most the total gives a share in (0,1] |
| SentimentAnalysis.SharesInUnit | sentiment_topic_analysis.py:212-213 | every label's share is in (0,1] |
| SentimentAnalysis.TallyHasShares | sentiment_topic_analysis.py:211-213 | every Counter value is positive and at most the rows, so the division is defined; an empty list gives an empty Counter |
| SentimentAnalysis.AllKeywordsNoStopword | sentiment_topic_analysis.py:218-224 | no stop-word survives into `all_keywords` |
| SentimentAnalysis.KeywordStep | sentiment_topic_analysis.py:219-224 | the loop body appends the comment's non-stop-word keywords |
| SentimentAnalysis.CollectKeywords | sentiment_topic_analysis.py:218-224 | the loop returns `all_keywords` |
| SentimentAnalysis.OccPositive | sentiment_topic_analysis.py:227 | a word occurs a positive number of times iff it is in the list |
| SentimentAnalysis.DistinctWords | sentiment_topic_analysis.py:227 | the distinct words, each once, exactly the words of the list |
| SentimentAnalysis.SumOccStep | sentiment_topic_analysis.py:227 | one more word adds one to the sum iff it is among the distinct words |
| SentimentAnalysis.SumOccDistinct | sentiment_topic_analysis.py:227 | the occurrence counts of the distinct words add up to the number of words |
| SentimentAnalysis.CountRows | sentiment_topic_analysis.py:227 | each distinct word with its number of occurrences |
| SentimentAnalysis.CountRowsSum | sentiment_topic_analysis.py:227 | the count column sums to the summed occurrences |
| SentimentAnalysis.SumKeysSnoc | sentiment_topic_analysis.py:227 | appending a row adds its count to the column sum |
| SentimentAnalysis.ValueCounts | sentiment_topic_analysis.py:227 | sorted by count, largest first, and a permutation of the per-word rows |
| SentimentAnalysis.ValueCountsMeaning | sentiment_topic_analysis.py:227 | each row's count is the word's positive occurrence count; every word has a row; the counts sum to the number of keywords |
| SentimentAnalysis.TopKeywords | sentiment_topic_analysis.py:226-229 | no table iff there are no keywords; otherwise at most 30 rows, sorted by count |
| SentimentAnalysis.TopKeywordsSum | sentiment_topic_analysis.py:228-229 | the table's counts sum to at most the number of keywords, exactly that with at most 30 distinct words |
| SentimentAnalysis.AnalyzeComments | sentiment_topic_analysis.py:148-247 | nothing iff the file is missing; otherwise the rows, a matching Counter, each label's share as count over rows (positive and negative summing to 1 once something was scored) and the top keywords |
| SentimentAnalysis.Run | sentiment_topic_analysis.py:252-257 | an analysis iff a valid name is typed and no JSON file is malformed; its rows, matching Counter, shares summing to 1 and top keywords are those of the deduplicated merge |
| SentimentAnalysis.DedupTextContent | sentiment_topic_analysis.py:123-124 | deduplication keeps every content a string |
| ShortReview.FirstDigitAt | movie_short_review.py:58 | the position of the first digit, with no digit before it; none iff no digit |
| ShortReview.ScrapedRecord | movie_short_review.py:62-69 | the five fields with their values; the location is not stored |
| ShortReview.ItemRecord | movie_short_review.py:41-69 | the stripped content, the stripped upvote, the time as found and the stars of one item |
| ShortReview.KeptItems | movie_short_review.py:45-48 | the items with content, taken from the page |
| ShortReview.PageStep | movie_short_review.py:40-69 | the loop body: skip an item without content, raise on a missing upvote or time, otherwise append its record |
| ShortReview.ReviewsFromPage | movie_short_review.py:31-71 | the records of one page, or a raise |
| ShortReview.PageCrashPersists | movie_short_review.py:49-50 | once an item raises, the rest of the page does not matter |
| ShortReview.PageCrashIff | movie_short_review.py:45-50 | a page raises iff one of its items has content but no upvote or no time |
| ShortReview.PageRecordsKept | movie_short_review.py:40-69 | a page that does not raise gives one record per item with content, in order, each built from that item |
| ShortReview.AllstarClass | movie_short_review.py:56-58 | "allstar" + digit + rest gives that digit as a one-character string |
| ShortReview.StarsShape | movie_short_review.py:56-60 | stars are 0 iff there is no rating span or no digit; otherwise the first digit as a one-character string |
| ShortReview.ScrapedRating | movie_short_review.py:56-60 | the tally reads a rating of 0..9 from a scraped record: 0 (skipped) or the first digit's value |
| ShortReview.CrawlType | movie_short_review.py:78-93 | the records of one rating type; requested starts are 0, 20, 40, ... |
| ShortReview.LaterPagesIgnored | movie_short_review.py:87-89 | pages after the first one without records are never looked at |
| ShortReview.GetMovieReview | movie_short_review.py:73-97 | the records of types h, m and l concatenated in that order |
| ShortReview.AllRecordsCrashPersists | movie_short_review.py:87 | a raise in one type ends the whole crawl |
| ShortReview.PageRecordsWellFormed | movie_short_review.py:62-69 | every record of a page has the five fields and stars 0 or one digit |
| ShortReview.TypeRecordsWellFormed | movie_short_review.py:78-93 | every record of a rating type is well formed |
| ShortReview.AllRecordsWellFormed | movie_short_review.py:73-97 | every crawled record is well formed and rated 0..9 for the tally |
| LongReview.ReviewId | movie_long_review.py:52 | the id contains no "_" |
| LongReview.ReviewIdShape | movie_long_review.py:52 | the id is the text after the last "_", or the whole item id when there is none |
| LongReview.ReviewIdAfterLastUnderscore | movie_long_review.py:52 | "review_12345" and anything else ending in "_" + digits give those digits |
| LongReview.KeptParagraphs | movie_long_review.py:73 | no more paragraphs than given, none empty |
| LongReview.KeptParagraphsAppend | movie_long_review.py:73 | each paragraph is judged on its own, in order (a homomorphism over concatenation) |
| LongReview.KeptParagraphsStripped | movie_long_review.py:73 | every kept paragraph is stripped |
| LongReview.KeptParagraphsEmptyIff | movie_long_review.py:73 | nothing is kept iff every paragraph is whitespace |
| LongReview.ReviewTextEmptyIff | movie_long_review.py:72-74 | the text is empty iff every paragraph is whitespace |
| LongReview.ReviewTextLines | movie_long_review.py:73 | splitting the text on line breaks gives the kept paragraphs back |
| LongReview.Listed | movie_long_review.py:52-59 | an entry with an underscore-free id, the stripped title and the link |
| LongReview.PageListingIff | movie_long_review.py:51-59 | a page raises iff an item lacks a field; otherwise one entry per item, in order |
| LongReview.ListPage | movie_long_review.py:51-59 | the inner loop returns the page's entries, or a raise |
| LongReview.ListingCrashPersists | movie_long_review.py:51-54 | once an item raises, the rest of the page does not matter |
| LongReview.PagesFetched | movie_long_review.py:39-49 | between 1 and `max_pages` pages are requested |
| LongReview.GetMovieLongReviews | movie_long_review.py:33-63 | the entries of pages 0 to `max_pages`-1 up to the first empty page; starts 0, 20, ... |
| LongReview.ListingStopsAtEmptyPage | movie_long_review.py:47-49 | pages from the first empty one on are never looked at |
| LongReview.ListingBounded | movie_long_review.py:39 | pages from `max_pages` on are never looked at |
| LongReview.LongRecord | movie_long_review.py:83-87 | title, url and the review text; the id is dropped |
| LongReview.LongRecords | movie_long_review.py:80-87 | one record per listed review, in listing order |
| LongReview.FetchAll | movie_long_review.py:79-88 | the loop returns those records |
| LongReview.GetAllLongReviews | movie_long_review.py:76-91 | a raise iff the listing raises; otherwise one full record per entry |
| LongReview.UnratedNotTallied | statistic.py:24-25 | records without "stars" leave the tally and both sums unchanged |
| LongReview.LongReviewsNotTallied | movie_long_review.py:83-87 | long reviews carry no stars, so the star tally ignores them |
| Text.TrimLeftShape | overall.py:53 | `lstrip` keeps a suffix, cuts only whitespace and leaves none at the start |
| Text.TrimRightShape | overall.py:53 | `rstrip` keeps a prefix, cuts only whitespace and leaves none at the end |
| Text.StripShape | overall.py:53 | `strip` returns a contiguous piece with only whitespace cut, no whitespace at either end |
| Text.StripEmptyIff | overall.py:53-54 | `strip()` is empty iff the text is all whitespace |
| Text.StripIdempotent | overall.py:53 | stripping twice is stripping once |
| Text.StripSurrounded | movie_short_review.py:46 | a word padded with whitespace strips to the word |
| Text.Split | overall.py:98 | the tokens are non-empty and contain no whitespace |
| Text.SplitEmptyIff | overall.py:98 | `split()` is empty iff the text is all whitespace |
| Text.SplitNonEmptyIff | overall.py:98 | there is a token iff `strip()` is non-empty |
| Text.SplitJoinRoundTrip | statistic.py:59 | `' '.join(ws).split() == ws` for words without whitespace |
| Text.JoinEmptyIff | movie_long_review.py:73 | a join of non-empty pieces is empty iff there are no pieces |
| Text.SplitOn | movie_long_review.py:52 | at least one piece, none containing the separator |
| Text.JoinSplitOn | movie_long_review.py:52 | joining the pieces with the separator gives the text back |
| Text.SplitOnJoin | movie_long_review.py:52 | splitting a join of separator-free pieces gives them back |
| Text.SplitOnLast | movie_long_review.py:52 | the last piece is the longest separator-free suffix |
| Text.ContainsAt | filter.py:29 | `p in s` agrees with the positional definition of an occurrence |
| Text.ContainsInConcat | filter.py:29 | an occurrence in a part is an occurrence in the whole |
| Text.NoPairNoContains | organize.py:58 | a text where p's first two characters never stand together does not contain p |
| Text.ParseDigit | statistic.py:29 | `int()` of a single ASCII digit is its value |
| Text.Take | sentiment_topic_analysis.py:193 | `text[:128]` is a prefix of length min(n, len) |
| Text.DropStopwords | statistic.py:64 | every kept word is a non-stop-word of the input, and every non-stop-word is kept |
| Text.DropStopwordsConcat | statistic.py:64 | each word is judged in place: dropping from a + b is dropping from a then from b, so order and repeats are kept |
| Text.LowerString | organize.py:105 | `lower()` character by character on ASCII letters |
| Options.PrependTwice | movie_short_review.py:91 | extending twice is extending by the concatenation |
| Sorting.InsertDesc | statistic.py:112 | inserting into a descending list keeps it descending, adds exactly the element and its key |
| Sorting.SortDesc | statistic.py:112 | descending by key, a permutation, with the same key total |
| Sorting.PrefixSumAtMost | sentiment_topic_analysis.py:229 | `head(n)` of non-negative counts sums to at most the total |
| Sorting.NonNegativeSum | sentiment_topic_analysis.py:229 | non-negative counts have a non-negative sum |

## Left out

- `sentiment_spectrum_optimized_chinese.py` is not part of this model.
- Network access is outside the model:
  - `get_html` and `get_movie_id` in both crawlers;
  - the `t.sleep(random.uniform(1, 2))` pauses;
  - the HTML and XPath parsing. A page is a sequence of already-parsed items whose missing nodes are `None`.
- Both crawlers' `main` functions are left out: the prompt, picking the film id, and `save_movie_review`/`save_long_reviews` writing JSON.
- File I/O, printing, the `Logger` class of `wordcloud_gen.py`, `log_info`, `plt` plots, image files and the `to_csv` writes are left out. Loaded files are parameters: `None` stands for a missing file.
- `jieba.analyse.extract_tags`, `WordCloud.generate`/`words_` and the `transformers` sentiment pipeline are function parameters, as are their `topK` and `max_words` settings.
- The list returned by `os.listdir` is a parameter. Its order is arbitrary and is not constrained beyond distinct names.
- Pages are finite sequences. A page past the end has no items.
- JSON values are strings, integers or null. Floats, booleans and nested values in records are not modelled, and neither is the `json.dump`/`json.load` round trip between the merge and the analysis.
- CSV cells are strings or NaN. pandas's conversion of numeric cells is not modelled.
- `Text.ParseInt` covers ASCII digits with a sign and surrounding whitespace. Python's `int()` also accepts underscores and non-ASCII digits.
- `ShortReview.StarsOf` matches ASCII digits only, where the regex `\d` also matches other Unicode digits.
- `Text.LowerString` lower-cases ASCII letters only.
- `Statistic.SortByCount` and `SentimentAnalysis.ValueCounts` fix one order among equal counts. pandas does not promise one.
- `Statistic.MovieReviewStatistic.StasticStar` requires that no comment raises:
  - a rating outside 1..5 that parses raises `KeyError`;
  - an unparsable upvote raises `ValueError`.
  Such inputs are excluded rather than modelled as failures.
- `Filter.FilterMotherDaughter` requires every record to have a string `"content"`. The source raises `KeyError` otherwise, and that failure is not modelled. The same precondition is on:
  - `Statistic.MovieReviewStatistic.StatisticComment`;
  - `WordcloudGen.CombineSources` and `WordcloudGen.WordcloudMain`.
- `Statistic.MovieReviewStatistic.StatisticComment` returns `CloudFailed` where `wc.generate` raises `ValueError`. `statistic.py` does not catch that error, so the script stops there.
- `Overall.OverallMain` requires every `"content"` to be a string, where the source raises `AttributeError` on `strip()`. The same holds for:
  - `SentimentAnalysis.AnalyzeComments`;
  - `SentimentAnalysis.Run`.
- `Statistic.EstimateRowBounds`: the product `weight * total_words` is exact, not rounded to a double as in Python, so a count can differ from the source's by one (`int(0.29 * 100)` is 28 in Python, the exact floor is 29). The same holds for the table of `Statistic.MovieReviewStatistic.StatisticComment` and of `Overall.OverallMain` (overall.py:102).
- `SentimentMerge.ReadMovieName` returns `None` when the answers run out, where `input()` raises an uncaught `EOFError` and the script stops (sentiment_topic_analysis.py:24); `SentimentAnalysis.Run` then reports no analysis.
- `WordcloudGen.LoadCsv`, `Records.LoadJson` and `Overall.OverallMain` take a file's contents as already read. The failures that stop these scripts are not modelled:
  - `pd.read_csv` raises on an empty or malformed file (wordcloud_gen.py:33);
  - `df[content_col]` raises `KeyError` on a CSV without that column (wordcloud_gen.py:35);
  - `json.load` raises on a malformed file (wordcloud_gen.py:27, overall.py:15).
  `Overall.MovieEntry.comments` and the loaders' inputs cannot express such a file.
- `SentimentMerge.MergeMovieComments` models the failures it catches:
  - a malformed JSON file gives `None`;
  - a missing, unreadable or column-less CSV is skipped.
  Permission errors and the creation of the data directory are left out.
- `Organize.IsListing` rules out a plain file named like a category folder, where `os.makedirs` would raise `FileExistsError`.

## Findings

| source | as written | input that shows it | evidently intended | confidence | as-written member | corrected member |
|---|---|---|---|---|---|---|
| organize.py:45-71 | The loop visits the listing in `os.listdir` order. It moves each matched file into its category folder, and it deletes every category folder it meets with `rmtree`. A file moved into a category folder that the listing names later is therefore deleted together with that folder. | A film folder holding `wordcloud.png` and an existing `主题词与词频分析结果/` (containing an older `wordcloud.png`), listed file first: the file is moved, then the folder is removed, and `wordcloud.png` ends up nowhere. | The comment at line 49 clears old category folders "to avoid duplicate files". They should be cleared before any file is moved, so that every matched file ends up in its category folder. | medium (not executed; the order of `os.listdir` decides) | Organize.MovedFileDeletedLater | Organize.FixedPlacesEveryFile |
