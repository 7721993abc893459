/** Review records as the scripts pass them around: Python dicts loaded from
    JSON or built from CSV cells. */
module Records {

  import opened Options
  import opened Text

  /** A field value: a JSON string, a JSON integer or `null`. */
  datatype Value = Str(s: string) | Int(n: int) | Null

  /** One review: a dict from field names to values. */
  type Record = map<string, Value>

  /** The record has a `"content"` field holding a string. */
  predicate HasTextContent(r: Record) {
    "content" in r && r["content"].Str?
  }

  /** `r["content"]` where that is a string. */
  function Content(r: Record): string
    requires HasTextContent(r)
  {
    r["content"].s
  }

  predicate AllHaveTextContent(cs: seq<Record>) {
    forall i :: 0 <= i < |cs| ==> HasTextContent(cs[i])
  }

  /** `"content"`, where present, holds a string, so `get("content", "").strip()` is defined. */
  predicate ContentIsText(r: Record) {
    "content" in r ==> r["content"].Str?
  }

  /** `r.get("content", "")`. */
  function ContentOrEmpty(r: Record): string
    requires ContentIsText(r)
  {
    if "content" in r then r["content"].s else ""
  }

  /** The record `{"content": text}`. */
  function ContentRecord(text: string): (r: Record)
    ensures HasTextContent(r) && Content(r) == text && r.Keys == {"content"}
  {
    map["content" := Str(text)]
  }

  /** `load_json(path)`: the decoded list, or `[]` when the file does not exist
      (`None` stands for a missing file). */
  function LoadJson(file: Option<seq<Record>>): (r: seq<Record>)
    ensures file.None? ==> r == []
    ensures file.Some? ==> r == file.value
  {
    match file
    case None => []
    case Some(records) => records
  }
}
