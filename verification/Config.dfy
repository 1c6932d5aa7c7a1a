/** What `define_group`, `define_format`, `define_klass` and `define_view` set up; fixed while the engine runs. */
module Config {
  import opened Lua
  import opened Segmentation

  /** `{ regex:find(raw) }` without the match bounds, and the table built from the captures. */
  datatype Format = Format(find: string -> Option<seq<Value>>, extractor: seq<Value> -> Fields)

  /** A record as the callbacks see it. Formats that match the same record share, and fill, one table. */
  datatype Entry = Entry(raw: string, fields: Fields)

  /** A formatter call: what it returns, and the contexts it leaves behind. */
  datatype Formatted = Formatted(commit: bool, row: Option<Fields>, keepContext: bool, context: Fields,
    klassContext: Fields)

  /** A matcher call. */
  datatype Matched = Matched(accepts: bool, klassContext: Fields)

  datatype View = View(formatter: (string, Fields, Entry, Fields) -> Formatted)

  datatype Klass = Klass(formats: seq<string>, views: map<string, View>, matcher: (string, Entry, Fields) -> Matched)

  datatype Group = Group(signature: Signature, formats: map<string, Format>, klasses: map<string, Klass>)

  type Groups = map<string, Group>

  /** `define_klass` accepts only formats already defined for the group. */
  ghost predicate WellFormed(groups: Groups) {
    forall g, k, f :: g in groups && k in groups[g].klasses && f in groups[g].klasses[k].formats
      ==> f in groups[g].formats
  }
}
