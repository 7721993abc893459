/** organize.py: sorting the files of each film's data folder into category
    sub-folders by filename fragments. */
module Organize {

  import opened Options
  import opened Text

  /** The four category folder names. */
  const RawComments := "原始评论数据"
  const SentimentResults := "情感分析结果"
  const KeywordResults := "主题词与词频分析结果"
  const AnalysisLogs := "分析过程日志"

  /** `CATEGORY_MAP`, in declaration order: each category folder's name and the
      filename fragments that send a file there. */
  const CategoryMap: seq<(string, seq<string>)> := [
    (RawComments, ["all_comments.json", "long_reviews.json", "short_reviews.json"]),
    (SentimentResults, ["comment_sentiment.csv"]),
    (KeywordResults, ["comment_keywords.csv", "comment_keywords.png",
                      "word_frequencies.csv", "word_frequencies.png", "wordcloud.png"]),
    (AnalysisLogs, ["analysis_log.txt", "_日志.txt"])
  ]

  /** `CATEGORY_MAP.keys()`. */
  const CategoryNames: set<string> := {RawComments, SentimentResults, KeywordResults, AnalysisLogs}

  lemma CategoryNamesAreKeys()
    ensures CategoryNames == set entry | entry in CategoryMap :: entry.0
    ensures |CategoryNames| == |CategoryMap|
  {
    var keys := set entry | entry in CategoryMap :: entry.0;
    assert CategoryMap[0] in CategoryMap && CategoryMap[1] in CategoryMap;
    assert CategoryMap[2] in CategoryMap && CategoryMap[3] in CategoryMap;
    assert forall e | e in CategoryMap :: e.0 in CategoryNames;
    assert CategoryNames == keys;
  }

  /** Some fragment of `patterns` occurs in `filename` (`pattern in filename`). */
  predicate MatchesAny(filename: string, patterns: seq<string>) {
    exists k | 0 <= k < |patterns| :: Contains(filename, patterns[k])
  }

  /** The first category of `categories`, in order, with a fragment occurring in
      `filename`. */
  function FirstCategory(filename: string, categories: seq<(string, seq<string>)>): Option<string>
    decreases |categories|
  {
    if |categories| == 0 then None
    else if MatchesAny(filename, categories[0].1) then Some(categories[0].0)
    else FirstCategory(filename, categories[1..])
  }

  /** The category folder a file belongs in, if any. */
  function CategoryOf(filename: string): Option<string> {
    FirstCategory(filename, CategoryMap)
  }

  /** Category `i` is the first one with a fragment occurring in `filename`. */
  predicate IsFirstMatch(filename: string, categories: seq<(string, seq<string>)>, i: int) {
    0 <= i < |categories| && MatchesAny(filename, categories[i].1)
    && forall j | 0 <= j < i :: !MatchesAny(filename, categories[j].1)
  }

  /** `FirstCategory` is the first match in map order, and none when no fragment
      of any category occurs. */
  lemma {:induction false} FirstCategoryIsFirstMatch(filename: string, categories: seq<(string, seq<string>)>)
    ensures FirstCategory(filename, categories).None? <==>
              forall i | 0 <= i < |categories| :: !MatchesAny(filename, categories[i].1)
    ensures forall c :: FirstCategory(filename, categories) == Some(c) <==>
              exists i :: IsFirstMatch(filename, categories, i) && categories[i].0 == c
    decreases |categories|
  {
    if |categories| > 0 {
      var rest := categories[1..];
      FirstCategoryIsFirstMatch(filename, rest);
      if MatchesAny(filename, categories[0].1) {
        assert IsFirstMatch(filename, categories, 0);
        forall c | exists i :: IsFirstMatch(filename, categories, i) && categories[i].0 == c
          ensures FirstCategory(filename, categories) == Some(c)
        {
          var i :| IsFirstMatch(filename, categories, i) && categories[i].0 == c;
          assert i == 0;
        }
      } else {
        forall c
          ensures FirstCategory(filename, categories) == Some(c) <==>
                    exists i :: IsFirstMatch(filename, categories, i) && categories[i].0 == c
        {
          if FirstCategory(filename, categories) == Some(c) {
            var i :| IsFirstMatch(filename, rest, i) && rest[i].0 == c;
            assert IsFirstMatch(filename, categories, i + 1);
          }
          if exists i :: IsFirstMatch(filename, categories, i) && categories[i].0 == c {
            var i :| IsFirstMatch(filename, categories, i) && categories[i].0 == c;
            assert i > 0;
            assert IsFirstMatch(filename, rest, i - 1);
          }
        }
        forall i | 0 <= i < |rest| && !MatchesAny(filename, rest[i].1)
          ensures !MatchesAny(filename, categories[i + 1].1)
        {
        }
      }
    }
  }

  /** The nested `for` loops of `organize_single_movie` that look up the target
      category of one file, leaving both loops at the first fragment found. */
  method MatchCategory(filename: string) returns (target: Option<string>)
    ensures target == CategoryOf(filename)
  {
    target := None;
    var i := 0;
    while i < |CategoryMap|
      invariant 0 <= i <= |CategoryMap|
      invariant target == None
      invariant CategoryOf(filename) == FirstCategory(filename, CategoryMap[i..])
    {
      var (category, patterns) := CategoryMap[i];
      var j := 0;
      while j < |patterns|
        invariant 0 <= j <= |patterns|
        invariant target == None
        invariant forall k | 0 <= k < j :: !Contains(filename, patterns[k])
      {
        if Contains(filename, patterns[j]) {
          target := Some(category);
          break;
        }
        j := j + 1;
      }
      if target.Some? {
        assert CategoryMap[i..][0] == CategoryMap[i];
        break;
      }
      assert CategoryMap[i..][1..] == CategoryMap[i + 1..];
      i := i + 1;
    }
  }

  /** A pattern with a character the text lacks does not occur in it. */
  lemma AbsentChar(s: string, p: string, c: char)
    requires c in p && c !in s
    ensures !Contains(s, p)
  {
    var j :| 0 <= j < |p| && p[j] == c;
    ContainsChar(s, p, j);
  }

  /** A name in which no fragment of any category occurs has no category. */
  lemma NoFragmentNoCategory(s: string)
    requires forall i, k | 0 <= i < |CategoryMap| && 0 <= k < |CategoryMap[i].1| ::
               !Contains(s, CategoryMap[i].1[k])
    ensures CategoryOf(s) == None
  {
    FirstCategoryIsFirstMatch(s, CategoryMap);
  }

  /** Every fragment but "_日志.txt" starts with one of the ASCII letters
      "alscw". */
  lemma FragmentInitials()
    ensures forall i, k | 0 <= i < |CategoryMap| && 0 <= k < |CategoryMap[i].1| ::
              CategoryMap[i].1[k] == "_日志.txt"
              || (CategoryMap[i].1[k] != [] && CategoryMap[i].1[k][0] in "alscw")
  {
  }

  /** A film's data folder: its plain files and, for each sub-folder, the names
      of the files directly inside it. */
  datatype Folder = Folder(files: set<string>, dirs: map<string, set<string>>)

  /** The files inside sub-folder `d`, none if there is no such folder. */
  function DirFiles(f: Folder, d: string): set<string> {
    if d in f.dirs then f.dirs[d] else {}
  }

  /** `listing` is what `os.listdir` returned for `f`: every name once, files and
      sub-folders apart, and no plain file named like a category (where
      `os.makedirs` would fail). */
  ghost predicate IsListing(f: Folder, listing: seq<string>) {
    Distinct(listing)
    && (forall n :: n in listing <==> n in f.files || n in f.dirs)
    && f.files !! f.dirs.Keys
    && f.files !! CategoryNames
  }

  /** One iteration of the loop of `organize_single_movie`: a sub-folder named
      like a category is deleted with its contents, any other sub-folder is left
      alone; a file is moved into its category folder, created if needed and
      replacing a file of the same name there, or stays where it is. */
  function Visit(f: Folder, name: string): Folder {
    if name in f.dirs then
      if name in CategoryNames then f.(dirs := f.dirs - {name}) else f
    else
      match CategoryOf(name)
      case Some(c) => Folder(f.files - {name}, f.dirs[c := DirFiles(f, c) + {name}])
      case None => f
  }

  /** The folder after the loop has visited `names` in order. */
  function AfterListing(f: Folder, names: seq<string>): Folder
    decreases |names|
  {
    if |names| == 0 then f
    else Visit(AfterListing(f, names[..|names| - 1]), names[|names| - 1])
  }

  /** `organize_single_movie` as written: the folder's contents after the loop
      over the listing taken when it starts. */
  method OrganizeSingleMovie(f: Folder, listing: seq<string>) returns (after: Folder)
    ensures after == AfterListing(f, listing)
  {
    after := f;
    var i := 0;
    while i < |listing|
      invariant 0 <= i <= |listing|
      invariant after == AfterListing(f, listing[..i])
    {
      var filename := listing[i];
      assert listing[..i + 1][..i] == listing[..i];
      if filename in after.dirs {
        if filename in CategoryNames {
          after := after.(dirs := after.dirs - {filename});
        }
        i := i + 1;
        continue;
      }
      var target := MatchCategory(filename);
      if target.Some? {
        var category := target.value;
        after := Folder(after.files - {filename},
                        after.dirs[category := DirFiles(after, category) + {filename}]);
      }
      i := i + 1;
    }
    assert listing[..i] == listing;
  }

  /** Whatever the listing order, the loop as written never touches a
      sub-folder not named like a category, nor a file no fragment matches. */
  lemma {:induction false} AsWrittenKeepsOthers(f: Folder, names: seq<string>)
    ensures var h := AfterListing(f, names);
            (forall d | d in f.dirs && d !in CategoryNames :: d in h.dirs && h.dirs[d] == f.dirs[d])
            && (forall n | n in f.files && CategoryOf(n).None? :: n in h.files)
    decreases |names|
  {
    if |names| > 0 {
      var name := names[|names| - 1];
      AsWrittenKeepsOthers(f, names[..|names| - 1]);
      CategoryOfIsCategory(name);
    }
  }

  /** A file moved into an existing category folder that the listing names
      after it is deleted together with that folder: it ends up nowhere. */
  lemma MovedFileDeletedLater()
    ensures var f := Folder({"wordcloud.png"}, map[KeywordResults := {"wordcloud.png"}]);
            var listing := ["wordcloud.png", KeywordResults];
            IsListing(f, listing)
            && CategoryOf("wordcloud.png") == Some(KeywordResults)
            && AfterListing(f, listing) == Folder({}, map[])
  {
    var w := "wordcloud.png";
    var f := Folder({w}, map[KeywordResults := {w}]);
    var listing := [w, KeywordResults];
    assert IsPrefix(w, w);
    WordcloudCategory(w);
    assert w != KeywordResults;
    var f1 := Visit(f, w);
    assert {w} - {w} == {};
    assert DirFiles(f, KeywordResults) + {w} == {w};
    assert f.dirs[KeywordResults := {w}] == f.dirs;
    assert f1 == Folder({}, map[KeywordResults := {w}]);
    assert listing[..1] == [w] && [w][..0] == [];
    assert AfterListing(f, listing[..1]) == f1;
    assert Visit(f1, KeywordResults) == Folder({}, map[]);
  }

  /** A name containing "wordcloud.png" and no "j" or "v" (so no ".json" or
      ".csv" fragment) belongs in the keyword and frequency results folder. */
  lemma WordcloudCategory(s: string)
    requires Contains(s, "wordcloud.png") && 'j' !in s && 'v' !in s
    ensures CategoryOf(s) == Some(KeywordResults)
  {
    forall k | 0 <= k < |CategoryMap[0].1|
      ensures !Contains(s, CategoryMap[0].1[k])
    {
      AbsentChar(s, CategoryMap[0].1[k], 'j');
    }
    AbsentChar(s, CategoryMap[1].1[0], 'v');
    assert !MatchesAny(s, CategoryMap[0].1);
    assert !MatchesAny(s, CategoryMap[1].1);
    assert Contains(s, CategoryMap[2].1[4]);
    assert IsFirstMatch(s, CategoryMap, 2);
    FirstCategoryIsFirstMatch(s, CategoryMap);
  }

  /** A category found for a file is one of the category folder names. */
  lemma CategoryOfIsCategory(s: string)
    ensures CategoryOf(s).Some? ==> CategoryOf(s).value in CategoryNames
  {
    FirstCategoryIsFirstMatch(s, CategoryMap);
    CategoryNamesAreKeys();
    if CategoryOf(s).Some? {
      var i :| IsFirstMatch(s, CategoryMap, i) && CategoryMap[i].0 == CategoryOf(s).value;
      assert CategoryMap[i] in CategoryMap;
    }
  }

  /** The names of `xs` that are in `s`, in order. */
  function Only(xs: seq<string>, s: set<string>): (r: seq<string>)
    ensures forall n :: n in r <==> n in xs && n in s
    ensures Distinct(xs) ==> Distinct(r)
    decreases |xs|
  {
    if |xs| == 0 then []
    else
      var pre := Only(xs[..|xs| - 1], s);
      var last := xs[|xs| - 1];
      assert forall n | n in xs[..|xs| - 1] :: n in xs;
      assert forall n | n in xs :: n in xs[..|xs| - 1] || n == last;
      assert Distinct(xs) ==> last !in xs[..|xs| - 1];
      if last in s then pre + [last] else pre
  }

  /** The listing reordered so that every sub-folder comes before every file. */
  function DirsFirst(f: Folder, listing: seq<string>): seq<string> {
    Only(listing, f.dirs.Keys) + Only(listing, f.files)
  }

  /** `organize_single_movie` with the category folders cleared before any file
      is moved, as its comment intends. */
  method OrganizeSingleMovieFixed(f: Folder, listing: seq<string>) returns (after: Folder)
    ensures after == AfterListing(f, DirsFirst(f, listing))
  {
    after := OrganizeSingleMovie(f, DirsFirst(f, listing));
  }

  lemma {:induction false} AfterListingAppend(f: Folder, a: seq<string>, b: seq<string>)
    ensures AfterListing(f, a + b) == AfterListing(AfterListing(f, a), b)
    decreases |b|
  {
    if |b| == 0 {
      assert a + b == a;
    } else {
      assert (a + b)[..|a + b| - 1] == a + b[..|b| - 1];
      AfterListingAppend(f, a, b[..|b| - 1]);
    }
  }

  /** Visiting distinct sub-folders only deletes the category folders among them. */
  lemma {:induction false} ClearPhase(f: Folder, p: seq<string>)
    requires Distinct(p) && forall n | n in p :: n in f.dirs
    ensures AfterListing(f, p) == f.(dirs := f.dirs - (set n | n in p && n in CategoryNames))
    decreases |p|
  {
    if |p| > 0 {
      var pre := p[..|p| - 1];
      var last := p[|p| - 1];
      assert forall n | n in pre :: n in p;
      assert Distinct(pre);
      ClearPhase(f, pre);
      assert last !in pre;
      assert (set n | n in p && n in CategoryNames)
          == (set n | n in pre && n in CategoryNames) + (if last in CategoryNames then {last} else {});
    }
  }

  /** What the file phase keeps true after visiting the files `q`, starting from
      the folder `g` in which no category folder is left. */
  ghost predicate Placed(f: Folder, q: seq<string>, h: Folder) {
    (forall n | n in f.files && n in q && CategoryOf(n).Some? ::
       n !in h.files && CategoryOf(n).value in h.dirs && n in h.dirs[CategoryOf(n).value])
    && (forall n | n in f.files && (n !in q || CategoryOf(n).None?) :: n in h.files)
    && (forall d | d in f.dirs && d !in CategoryNames :: d in h.dirs && h.dirs[d] == f.dirs[d])
    && (forall c | c in h.dirs && c in CategoryNames ::
          forall n | n in h.dirs[c] :: n in q && n in f.files && CategoryOf(n) == Some(c))
    && (forall d | d in h.dirs :: d in f.dirs || d in CategoryNames)
    && (forall n | n in h.files :: n in f.files)
  }

  /** Visiting distinct files after the category folders are cleared puts each
      matched file, and only those, into its category folder. */
  lemma {:induction false} FilePhase(f: Folder, q: seq<string>)
    requires f.files !! f.dirs.Keys && f.files !! CategoryNames
    requires Distinct(q) && forall n | n in q :: n in f.files
    ensures Placed(f, q, AfterListing(f.(dirs := f.dirs - CategoryNames), q))
    decreases |q|
  {
    var g := f.(dirs := f.dirs - CategoryNames);
    if |q| == 0 {
      assert AfterListing(g, q) == g;
    } else {
      var pre := q[..|q| - 1];
      var n := q[|q| - 1];
      assert forall m | m in pre :: m in q;
      assert forall m | m in q :: m in pre || m == n;
      assert Distinct(pre) && n !in pre;
      FilePhase(f, pre);
      var h := AfterListing(g, pre);
      assert n in f.files && n !in h.dirs;
      assert AfterListing(g, q) == Visit(h, n);
      CategoryOfIsCategory(n);
      PlacedStep(f, pre, n, h);
    }
  }

  /** Visiting one more file keeps `Placed`. */
  lemma PlacedStep(f: Folder, pre: seq<string>, n: string, h: Folder)
    requires f.files !! CategoryNames
    requires Placed(f, pre, h) && n in f.files && n !in pre && n !in h.dirs
    requires CategoryOf(n).Some? ==> CategoryOf(n).value in CategoryNames
    ensures Placed(f, pre + [n], Visit(h, n))
  {
    var q := pre + [n];
    assert forall m | m in q :: m in pre || m == n;
    var h' := Visit(h, n);
    if CategoryOf(n).None? {
      assert h' == h;
    } else {
      var c := CategoryOf(n).value;
      assert h' == Folder(h.files - {n}, h.dirs[c := DirFiles(h, c) + {n}]);
      assert forall d | d in h.dirs && d != c :: d in h'.dirs && h'.dirs[d] == h.dirs[d];
    }
  }

  /** The directories-first loop gives every matched file of the listing a
      place in its category folder, leaves unmatched files and other
      sub-folders alone, and leaves in each category folder only this run's
      files of that category. */
  lemma FixedPlacesEveryFile(f: Folder, listing: seq<string>)
    requires IsListing(f, listing)
    ensures var h := AfterListing(f, DirsFirst(f, listing));
            (forall n | n in f.files && CategoryOf(n).Some? ::
               n !in h.files && CategoryOf(n).value in h.dirs && n in h.dirs[CategoryOf(n).value])
            && (forall n | n in f.files && CategoryOf(n).None? :: n in h.files)
            && (forall d | d in f.dirs && d !in CategoryNames :: d in h.dirs && h.dirs[d] == f.dirs[d])
            && (forall c | c in h.dirs && c in CategoryNames ::
                  forall n | n in h.dirs[c] :: n in f.files && CategoryOf(n) == Some(c))
  {
    var p := Only(listing, f.dirs.Keys);
    var q := Only(listing, f.files);
    AfterListingAppend(f, p, q);
    ClearPhase(f, p);
    assert (set n | n in p && n in CategoryNames) * f.dirs.Keys == CategoryNames * f.dirs.Keys;
    assert f.dirs - (set n | n in p && n in CategoryNames) == f.dirs - CategoryNames;
    FilePhase(f, q);
  }

  /** One entry of `./data`: its name, whether it is a directory, and for a
      directory its contents and the order `os.listdir` gives them in. */
  datatype DataEntry = DataEntry(name: string, isDir: bool, contents: Folder, listing: seq<string>)

  /** What `main` ends with: no `./data`, no film folder in it, or the organised
      folders of the films chosen. */
  datatype OrganizeOutcome = NoDataRoot | NoMovieFolders | Organized(folders: seq<(string, Folder)>)

  /** The directories among the entries of `./data`, in listing order. */
  function MovieFolders(entries: seq<DataEntry>): (r: seq<DataEntry>)
    ensures forall e :: e in r <==> e in entries && e.isDir
    ensures |r| <= |entries|
    decreases |entries|
  {
    if |entries| == 0 then []
    else
      var pre := MovieFolders(entries[..|entries| - 1]);
      assert forall e | e in entries[..|entries| - 1] :: e in entries;
      assert forall e | e in entries :: e in entries[..|entries| - 1] || e == entries[|entries| - 1];
      if entries[|entries| - 1].isDir then pre + [entries[|entries| - 1]] else pre
  }

  /** Each entry is judged on its own, in place: the directories of a + b are
      those of a followed by those of b, so listing order is kept. */
  lemma {:induction false} MovieFoldersConcat(a: seq<DataEntry>, b: seq<DataEntry>)
    ensures MovieFolders(a + b) == MovieFolders(a) + MovieFolders(b)
    decreases |b|
  {
    if |b| == 0 {
      assert a + b == a;
    } else {
      var b' := b[..|b| - 1];
      assert (a + b)[..|a + b| - 1] == a + b';
      assert (a + b)[|a + b| - 1] == b[|b| - 1];
      assert b[..|b| - 1] == b';
      MovieFoldersConcat(a, b');
    }
  }

  /** The folders processed for the answer to the prompt: all of them for "y"
      (after strip and lower-casing), otherwise only the first. */
  function Selected(folders: seq<DataEntry>, answer: string): (r: seq<DataEntry>)
    requires folders != []
    ensures 0 < |r| <= |folders| && r == folders[..|r|]
    ensures |r| == |folders| <==> LowerString(Strip(answer)) == "y" || |folders| == 1
  {
    if LowerString(Strip(answer)) != "y" then folders[..1] else folders
  }

  /** " Y\n" selects every folder; "yes" and an empty answer only the first. */
  lemma SelectionExamples(folders: seq<DataEntry>)
    requires |folders| >= 2
    ensures Selected(folders, " Y\n") == folders
    ensures Selected(folders, "yes") == [folders[0]]
    ensures Selected(folders, "") == [folders[0]]
  {
    StripSurrounded(" ", "Y", "\n");
    assert " " + "Y" + "\n" == " Y\n";
    assert LowerString("Y") == "y";
    StripSurrounded("", "yes", "");
    assert "" + "yes" + "" == "yes";
    assert LowerString("yes") != "y";
  }

  /** The film folders after `organize_single_movie` has run on each, in order,
      paired with their names. */
  function OrganizeAll(chosen: seq<DataEntry>): (r: seq<(string, Folder)>)
    decreases |chosen|
  {
    if |chosen| == 0 then []
    else
      var last := chosen[|chosen| - 1];
      OrganizeAll(chosen[..|chosen| - 1])
        + [(last.name, AfterListing(last.contents, last.listing))]
  }

  /** One organised folder per chosen film, in the order chosen. */
  lemma {:induction false} OrganizeAllEach(chosen: seq<DataEntry>)
    ensures |OrganizeAll(chosen)| == |chosen|
    ensures forall i | 0 <= i < |chosen| ::
              OrganizeAll(chosen)[i] == (chosen[i].name, AfterListing(chosen[i].contents, chosen[i].listing))
    decreases |chosen|
  {
    if |chosen| > 0 {
      OrganizeAllEach(chosen[..|chosen| - 1]);
    }
  }

  /** `main`: organise the chosen film folders of `./data` (`None` when it does
      not exist), each with the loop as written, in its own listing order. */
  method OrganizeMain(data: Option<seq<DataEntry>>, answer: string) returns (outcome: OrganizeOutcome)
    ensures data.None? ==> outcome == NoDataRoot
    ensures data.Some? && MovieFolders(data.value) == [] ==> outcome == NoMovieFolders
    ensures data.Some? && MovieFolders(data.value) != [] ==>
              outcome == Organized(OrganizeAll(Selected(MovieFolders(data.value), answer)))
  {
    if data.None? {
      return NoDataRoot;
    }
    var movieFolders := MovieFolders(data.value);
    if |movieFolders| == 0 {
      return NoMovieFolders;
    }
    var choice := LowerString(Strip(answer));
    if choice != "y" {
      movieFolders := [movieFolders[0]];
    }
    assert movieFolders == Selected(MovieFolders(data.value), answer);
    var done := OrganizeEach(movieFolders);
    outcome := Organized(done);
  }

  /** The loop of `main` over the chosen film folders. */
  method OrganizeEach(movieFolders: seq<DataEntry>) returns (done: seq<(string, Folder)>)
    ensures done == OrganizeAll(movieFolders)
  {
    done := [];
    for i := 0 to |movieFolders|
      invariant done == OrganizeAll(movieFolders[..i])
    {
      var folder := movieFolders[i];
      assert movieFolders[..i + 1][..i] == movieFolders[..i];
      var after := OrganizeSingleMovie(folder.contents, folder.listing);
      done := done + [(folder.name, after)];
    }
    assert movieFolders[..|movieFolders|] == movieFolders;
  }
}
