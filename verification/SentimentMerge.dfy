/** sentiment_topic_analysis.py, `merge_movie_comments`: the film-name prompt,
    the four review sources appended in a fixed order, and the dict
    comprehension that removes duplicate contents. */
module SentimentMerge {

  import opened Options
  import opened Text
  import opened Records

  // ---------------------------------------------------------------------------
  // The film-name prompt

  /** The characters a film name may not contain (they are not allowed in a path). */
  const InvalidChars: string := "\\/:*?\"<>|"

  /** A name is accepted when it is non-empty and has none of `InvalidChars`. */
  predicate ValidMovieName(name: string) {
    name != [] && forall k | 0 <= k < |name| :: name[k] !in InvalidChars
  }

  /** The `while True` prompt loop: each answer is stripped; the first one that is
      valid is the film name. `answers` are the lines typed in; when they run out
      before a valid one (where Python's `input` raises `EOFError`) the result is
      `None`. `used` is the number of answers read. */
  method ReadMovieName(answers: seq<string>) returns (name: Option<string>, used: nat)
    ensures used <= |answers|
    ensures forall k | 0 <= k < used - 1 :: !ValidMovieName(Strip(answers[k]))
    ensures name.Some? ==> 1 <= used && name.value == Strip(answers[used - 1])
                           && ValidMovieName(name.value)
    ensures name.None? ==> used == |answers|
                           && forall k | 0 <= k < |answers| :: !ValidMovieName(Strip(answers[k]))
  {
    used := 0;
    while used < |answers|
      invariant used <= |answers|
      invariant forall k | 0 <= k < used :: !ValidMovieName(Strip(answers[k]))
    {
      var movieName := Strip(answers[used]);
      used := used + 1;
      if movieName == [] {
        // the name may not be empty; ask again
      } else if exists k | 0 <= k < |movieName| :: movieName[k] in InvalidChars {
        // the name has a character a path may not hold; ask again
      } else {
        return Some(movieName), used;
      }
    }
    return None, used;
  }

  /** The answer `"  Lady Bird  "` is accepted as `"Lady Bird"`; `"a/b"` and a blank
      line are refused. */
  lemma NameExamples()
    ensures ValidMovieName("Lady Bird")
    ensures !ValidMovieName("a/b") && !ValidMovieName(Strip("   "))
  {
    assert "a/b"[1] == '/';
    StripEmptyIff("   ");
  }

  // ---------------------------------------------------------------------------
  // Sources

  /** A JSON review file as `json.load` leaves it. */
  datatype JsonFile =
    | JsonMissing                 // the file does not exist: skipped
    | JsonMalformed               // `json.JSONDecodeError`: the whole merge fails
    | JsonList(items: seq<Record>)
    | JsonObject(item: Record)    // a payload that is not a list: appended as one element

  /** The records a JSON file contributes. */
  function JsonRecords(f: JsonFile): seq<Record>
  {
    match f
    case JsonList(items) => items
    case JsonObject(item) => [item]
    case _ => []
  }

  /** A CSV file as `pd.read_csv` leaves it: its columns, each a list of cells,
      `None` for a missing (NaN) cell. */
  datatype CsvFile =
    | CsvMissing                  // the file does not exist: skipped
    | CsvUnreadable               // `read_csv` raised: logged and skipped
    | Csv(columns: map<string, seq<Option<string>>>)

  /** `[{"content": str(x).strip()} for x in column if pd.notna(x) and str(x).strip()]`. */
  function CellsToRecords(cells: seq<Option<string>>): seq<Record>
    decreases |cells|
  {
    if |cells| == 0 then []
    else
      var cell := cells[|cells| - 1];
      CellsToRecords(cells[..|cells| - 1])
      + (if cell.Some? && Strip(cell.value) != [] then [ContentRecord(Strip(cell.value))] else [])
  }

  /** A record as the CSV sources build it: `{"content": text}` with `text`
      stripped and not empty. */
  predicate CleanRecord(r: Record) {
    r.Keys == {"content"} && HasTextContent(r) && Content(r) != [] && Strip(Content(r)) == Content(r)
  }

  /** `r`'s content is the stripped text of some cell of `cells`. */
  predicate FromSomeCell(cells: seq<Option<string>>, r: Record) {
    HasTextContent(r)
    && exists k :: 0 <= k < |cells| && cells[k].Some? && Content(r) == Strip(cells[k].value)
  }

  /** Every record built from a CSV column is clean, and there are no more
      records than cells. */
  lemma {:induction false} CellsToRecordsClean(cells: seq<Option<string>>)
    ensures |CellsToRecords(cells)| <= |cells|
    ensures forall r | r in CellsToRecords(cells) :: CleanRecord(r)
    decreases |cells|
  {
    if |cells| > 0 {
      CellsToRecordsClean(cells[..|cells| - 1]);
      var cell := cells[|cells| - 1];
      if cell.Some? {
        StripIdempotent(cell.value);
      }
    }
  }

  /** Every record built from a CSV column comes from one of its cells. */
  lemma {:induction false} CellsToRecordsOrigin(cells: seq<Option<string>>)
    ensures forall r | r in CellsToRecords(cells) :: FromSomeCell(cells, r)
    decreases |cells|
  {
    if |cells| > 0 {
      var prefix := cells[..|cells| - 1];
      CellsToRecordsOrigin(prefix);
      forall r | r in CellsToRecords(cells) ensures FromSomeCell(cells, r) {
        if r in CellsToRecords(prefix) {
          var k :| 0 <= k < |prefix| && prefix[k].Some? && Content(r) == Strip(prefix[k].value);
          assert cells[k] == prefix[k];
        } else {
          assert Content(r) == Strip(cells[|cells| - 1].value);
        }
      }
    }
  }

  /** Every cell holding text that is not blank yields its stripped text. */
  lemma {:induction false} CellsToRecordsCover(cells: seq<Option<string>>, k: nat)
    requires k < |cells| && cells[k].Some? && Strip(cells[k].value) != []
    ensures ContentRecord(Strip(cells[k].value)) in CellsToRecords(cells)
    decreases |cells|
  {
    if k < |cells| - 1 {
      var prefix := cells[..|cells| - 1];
      assert prefix[k] == cells[k];
      CellsToRecordsCover(prefix, k);
    }
  }

  /** A missing or whitespace-only cell yields nothing. */
  lemma BlankCellDropped(cells: seq<Option<string>>, cell: Option<string>)
    requires cell.None? || AllSpace(cell.value)
    ensures CellsToRecords(cells + [cell]) == CellsToRecords(cells)
  {
    assert (cells + [cell])[..|cells|] == cells;
    if cell.Some? {
      StripEmptyIff(cell.value);
    }
  }

  /** The records of one CSV source: nothing when the file is missing, unreadable
      or lacks the column. */
  function CsvRecords(f: CsvFile, column: string): seq<Record>
  {
    if f.Csv? && column in f.columns then CellsToRecords(f.columns[column]) else []
  }

  // ---------------------------------------------------------------------------
  // Deduplication

  predicate HasContent(c: Record) {
    "content" in c
  }

  /** `c['content']`, the deduplication key. */
  function Key(c: Record): Value
    requires HasContent(c)
  {
    c["content"]
  }

  /** Record `q` of `cs` has content `k`. */
  predicate KeyAt(cs: seq<Record>, q: int, k: Value) {
    0 <= q < |cs| && HasContent(cs[q]) && Key(cs[q]) == k
  }

  /** `q` is the first position of `cs` with content `k`. */
  predicate FirstAt(cs: seq<Record>, k: Value, q: int) {
    KeyAt(cs, q, k) && forall p | 0 <= p < q :: !KeyAt(cs, p, k)
  }

  /** A Python dict: its keys in insertion order and its entries. */
  datatype Dict = Dict(keys: seq<Value>, entries: map<Value, Record>)

  /** The dict `{c['content']: c for c in cs if 'content' in c}`: assigning to a
      key already present replaces its value and keeps its position. */
  function Comprehension(cs: seq<Record>): (d: Dict)
    ensures Distinct(d.keys)
    ensures forall k :: k in d.keys <==> k in d.entries
    ensures forall k | k in d.entries :: HasContent(d.entries[k]) && Key(d.entries[k]) == k
    ensures |d.keys| <= |cs|
    decreases |cs|
  {
    if |cs| == 0 then Dict([], map[])
    else
      var d := Comprehension(cs[..|cs| - 1]);
      var c := cs[|cs| - 1];
      if !HasContent(c) then d
      else if Key(c) in d.entries then Dict(d.keys, d.entries[Key(c) := c])
      else Dict(d.keys + [Key(c)], d.entries[Key(c) := c])
  }

  /** `list(... .values())`: the deduplicated records. */
  function Dedup(cs: seq<Record>): (r: seq<Record>)
    ensures |r| == |Comprehension(cs).keys| <= |cs|
    ensures forall i | 0 <= i < |r| :: HasContent(r[i]) && Key(r[i]) == Comprehension(cs).keys[i]
  {
    var d := Comprehension(cs);
    seq(|d.keys|, i requires 0 <= i < |d.keys| => d.entries[d.keys[i]])
  }

  /** The keys are exactly the contents that occur in the input. */
  lemma {:induction false} ComprehensionKeys(cs: seq<Record>, k: Value)
    ensures k in Comprehension(cs).keys <==> exists q :: KeyAt(cs, q, k)
    decreases |cs|
  {
    if |cs| > 0 {
      var pre := cs[..|cs| - 1];
      var c := cs[|cs| - 1];
      var dp := Comprehension(pre);
      var d := Comprehension(cs);
      ComprehensionKeys(pre, k);
      assert forall x | x in dp.keys :: x in d.keys;
      if exists q :: KeyAt(pre, q, k) {
        var q :| KeyAt(pre, q, k);
        assert KeyAt(cs, q, k);
      }
      if HasContent(c) && Key(c) == k {
        assert KeyAt(cs, |cs| - 1, k);
        assert k in d.keys;
      } else {
        assert d.keys == dp.keys || (HasContent(c) && d.keys == dp.keys + [Key(c)]);
        assert k in d.keys ==> k in dp.keys;
        if exists q :: KeyAt(cs, q, k) {
          var q :| KeyAt(cs, q, k);
          assert q < |pre|;
          assert KeyAt(pre, q, k);
        }
      }
    }
  }

  /** The last position of `cs` with content `k`, or -1 when there is none. */
  function LastAt(cs: seq<Record>, k: Value): (p: int)
    ensures -1 <= p < |cs|
    decreases |cs|
  {
    if |cs| == 0 then -1
    else if KeyAt(cs, |cs| - 1, k) then |cs| - 1
    else LastAt(cs[..|cs| - 1], k)
  }

  lemma {:induction false} LastAtIsLast(cs: seq<Record>, k: Value)
    ensures LastAt(cs, k) >= 0 ==> KeyAt(cs, LastAt(cs, k), k)
    ensures forall q | LastAt(cs, k) < q < |cs| :: !KeyAt(cs, q, k)
    decreases |cs|
  {
    if |cs| > 0 && !KeyAt(cs, |cs| - 1, k) {
      var pre := cs[..|cs| - 1];
      LastAtIsLast(pre, k);
      forall q | LastAt(cs, k) < q < |cs| ensures !KeyAt(cs, q, k) {
        if q < |pre| {
          assert !KeyAt(pre, q, k);
        }
      }
      if LastAt(cs, k) >= 0 {
        assert KeyAt(pre, LastAt(cs, k), k);
      }
    }
  }

  lemma {:induction false} ComprehensionEntryAt(cs: seq<Record>, k: Value)
    requires k in Comprehension(cs).entries
    ensures LastAt(cs, k) >= 0 && cs[LastAt(cs, k)] == Comprehension(cs).entries[k]
    decreases |cs|
  {
    var pre := cs[..|cs| - 1];
    var c := cs[|cs| - 1];
    var d := Comprehension(cs);
    var dp := Comprehension(pre);
    if !KeyAt(cs, |cs| - 1, k) {
      assert d.entries == dp.entries || (HasContent(c) && d.entries == dp.entries[Key(c) := c]);
      assert k in dp.entries && d.entries[k] == dp.entries[k];
      ComprehensionEntryAt(pre, k);
    }
  }

  /** The record stored under each key is an input record with that content, and
      no later input record has that content: the last one wins. */
  lemma ComprehensionLastWins(cs: seq<Record>, k: Value)
    requires k in Comprehension(cs).entries
    ensures exists p :: KeyAt(cs, p, k) && cs[p] == Comprehension(cs).entries[k]
                        && forall q | p < q < |cs| :: !KeyAt(cs, q, k)
  {
    ComprehensionEntryAt(cs, k);
    LastAtIsLast(cs, k);
    var p := LastAt(cs, k);
    assert KeyAt(cs, p, k) && cs[p] == Comprehension(cs).entries[k];
  }

  /** The first position of a content that already occurs in a prefix lies in
      that prefix. */
  lemma FirstAtPrefix(cs: seq<Record>, k: Value, p: int, n: nat)
    requires FirstAt(cs, k, p) && n <= |cs|
    requires exists q :: KeyAt(cs[..n], q, k)
    ensures p < n && FirstAt(cs[..n], k, p)
  {
    var q :| KeyAt(cs[..n], q, k);
    assert KeyAt(cs, q, k);
    assert p <= q;
    assert KeyAt(cs[..n], p, k);
    forall p' | 0 <= p' < p ensures !KeyAt(cs[..n], p', k) {
      assert !KeyAt(cs, p', k);
    }
  }

  /** Keys are in order of first occurrence: a key placed earlier first occurs
      earlier in the input. */
  lemma {:induction false} ComprehensionFirstOrder(cs: seq<Record>, i: nat, j: nat, p: int, q: int)
    requires i < j < |Comprehension(cs).keys|
    requires FirstAt(cs, Comprehension(cs).keys[i], p)
    requires FirstAt(cs, Comprehension(cs).keys[j], q)
    ensures p < q
    decreases |cs|
  {
    var d := Comprehension(cs);
    var pre := cs[..|cs| - 1];
    var dp := Comprehension(pre);
    var ki, kj := d.keys[i], d.keys[j];
    if j < |dp.keys| {
      assert dp.keys[i] == ki && dp.keys[j] == kj;
      ComprehensionKeys(pre, ki);
      ComprehensionKeys(pre, kj);
      FirstAtPrefix(cs, ki, p, |pre|);
      FirstAtPrefix(cs, kj, q, |pre|);
      ComprehensionFirstOrder(pre, i, j, p, q);
    } else {
      assert kj !in dp.keys;
      assert ki == dp.keys[i];
      ComprehensionKeys(pre, ki);
      ComprehensionKeys(pre, kj);
      FirstAtPrefix(cs, ki, p, |pre|);
      forall q' | 0 <= q' < |pre| ensures !KeyAt(cs, q', kj) {
        assert !KeyAt(pre, q', kj);
      }
    }
  }

  /** The deduplicated contents are pairwise distinct. */
  lemma DedupDistinct(cs: seq<Record>)
    ensures forall i, j | 0 <= i < j < |Dedup(cs)| :: Key(Dedup(cs)[i]) != Key(Dedup(cs)[j])
  {
  }

  /** Every content of the input is kept, and only contents of the input. */
  lemma DedupCoversInput(cs: seq<Record>)
    ensures forall q | 0 <= q < |cs| && HasContent(cs[q]) ::
              exists i :: 0 <= i < |Dedup(cs)| && Key(Dedup(cs)[i]) == Key(cs[q])
    ensures forall i | 0 <= i < |Dedup(cs)| :: Dedup(cs)[i] in cs
  {
    var d := Comprehension(cs);
    var r := Dedup(cs);
    forall q | 0 <= q < |cs| && HasContent(cs[q])
      ensures exists i :: 0 <= i < |r| && Key(r[i]) == Key(cs[q])
    {
      assert KeyAt(cs, q, Key(cs[q]));
      ComprehensionKeys(cs, Key(cs[q]));
      var i :| 0 <= i < |d.keys| && d.keys[i] == Key(cs[q]);
      assert Key(r[i]) == Key(cs[q]);
    }
    forall i | 0 <= i < |r| ensures r[i] in cs {
      ComprehensionLastWins(cs, d.keys[i]);
    }
  }

  /** Each kept record is the LAST input record with its content. */
  lemma DedupLastWins(cs: seq<Record>, i: nat)
    requires i < |Dedup(cs)|
    ensures exists p :: KeyAt(cs, p, Key(Dedup(cs)[i])) && cs[p] == Dedup(cs)[i]
                        && forall q | p < q < |cs| :: !KeyAt(cs, q, Key(Dedup(cs)[i]))
  {
    ComprehensionLastWins(cs, Comprehension(cs).keys[i]);
  }

  /** The output is ordered by the FIRST occurrence of each content. */
  lemma DedupFirstOrder(cs: seq<Record>, i: nat, j: nat, p: int, q: int)
    requires i < j < |Dedup(cs)|
    requires FirstAt(cs, Key(Dedup(cs)[i]), p) && FirstAt(cs, Key(Dedup(cs)[j]), q)
    ensures p < q
  {
    ComprehensionFirstOrder(cs, i, j, p, q);
  }

  /** Two records with the same content: one survives, in the first one's place
      and with the second one's fields. */
  lemma DedupKeepsLastRecord(first: Record, second: Record, other: Record)
    requires HasContent(first) && HasContent(second) && HasContent(other)
    requires Key(first) == Key(second) != Key(other)
    ensures Dedup([first, other, second]) == [second, other]
  {
    var cs := [first, other, second];
    assert [first][..0] == [];
    var d1 := Comprehension([first]);
    assert d1.keys == [Key(first)];
    assert [first, other][..1] == [first];
    var d2 := Comprehension([first, other]);
    assert d2.keys == [Key(first), Key(other)];
    assert d2.entries[Key(other)] == other;
    assert cs[..2] == [first, other];
    var d := Comprehension(cs);
    assert d.keys == [Key(first), Key(other)];
    assert d.entries[Key(first)] == second && d.entries[Key(other)] == other;
    var r := Dedup(cs);
    assert r[0] == second && r[1] == other;
  }

  /** Records without `"content"` are dropped. */
  lemma DedupDropsContentless(cs: seq<Record>, c: Record)
    requires !HasContent(c)
    ensures Dedup(cs + [c]) == Dedup(cs)
  {
    assert (cs + [c])[..|cs|] == cs;
  }

  // ---------------------------------------------------------------------------
  // The merge

  /** The records in the order the sources are appended: short reviews, long
      reviews, Xiaohongshu comments (`content` column), Xiaohongshu posts (`desc`
      column). */
  function Sources(short: JsonFile, long: JsonFile, xhsComments: CsvFile, xhsContents: CsvFile)
    : seq<Record>
  {
    JsonRecords(short) + JsonRecords(long)
    + CsvRecords(xhsComments, "content") + CsvRecords(xhsContents, "desc")
  }

  /** `merge_movie_comments` after the prompt: the deduplicated merge, or `None`
      when a JSON file is malformed (the function then returns `None`s). */
  method MergeMovieComments(short: JsonFile, long: JsonFile, xhsComments: CsvFile, xhsContents: CsvFile)
    returns (unique: Option<seq<Record>>)
    ensures unique.None? <==> short.JsonMalformed? || long.JsonMalformed?
    ensures unique.Some? ==> unique.value == Dedup(Sources(short, long, xhsComments, xhsContents))
  {
    var allComments: seq<Record> := [];
    if short.JsonMalformed? {
      return None;
    } else if short.JsonList? {
      allComments := allComments + short.items;
    } else if short.JsonObject? {
      allComments := allComments + [short.item];
    }
    assert allComments == JsonRecords(short);
    if long.JsonMalformed? {
      return None;
    } else if long.JsonList? {
      allComments := allComments + long.items;
    } else if long.JsonObject? {
      allComments := allComments + [long.item];
    }
    assert allComments == JsonRecords(short) + JsonRecords(long);
    if xhsComments.Csv? && "content" in xhsComments.columns {
      allComments := allComments + CellsToRecords(xhsComments.columns["content"]);
    }
    assert allComments == JsonRecords(short) + JsonRecords(long) + CsvRecords(xhsComments, "content");
    if xhsContents.Csv? && "desc" in xhsContents.columns {
      allComments := allComments + CellsToRecords(xhsContents.columns["desc"]);
    }
    assert allComments == Sources(short, long, xhsComments, xhsContents);
    unique := Some(Dedup(allComments));
  }
}
