/** What `grind.handle` does with one record: formats, klasses, views, subscriptions, filters. */
module Dispatch {
  import opened Lua
  import opened Segmentation
  import opened Config
  import opened Registry

  /** A table whose keys `pairs` visits in an order of its own. */
  datatype Table = Formats | Klasses | Active(format: string) | Views(klass: string) | Subscriptions

  /** The order in which `pairs` visits the keys of a table; any function that lists each key once. */
  type Order = (Table, set<string>) -> seq<string>

  ghost predicate Enumerates(ord: Order) {
    forall t, keys :: multiset(ord(t, keys)) == multiset(keys)
  }

  datatype ViewId = ViewId(group: string, klass: string, view: string)

  datatype KlassId = KlassId(group: string, klass: string)

  /** The tables handed to formatters and matchers; a missing one is still empty. */
  datatype Contexts = Contexts(views: map<ViewId, Fields>, klasses: map<KlassId, Fields>)

  function ViewContext(cx: Contexts, id: ViewId): Fields {
    if id in cx.views then cx.views[id] else map[]
  }

  function KlassContext(cx: Contexts, id: KlassId): Fields {
    if id in cx.klasses then cx.klasses[id] else map[]
  }

  /** A message sent to a watcher, together with the format the record was read by, which the message does not name. */
  datatype Delivery = Delivery(watcher: string, group: string, format: string, klass: string, view: string, row: Fields)

  datatype Outcome = Outcome(cx: Contexts, sent: seq<Delivery>)

  /** Everything dispatching reads and never writes. */
  datatype Scene = Scene(name: string, group: Group, st: State, ord: Order, regex: (string, string) -> bool)

  predicate HasKeepers(sc: Scene) {
    sc.st.keepers != []
  }

  // ----- filters and subscriptions -----

  /** `formatted_entry[field] or ""`. */
  function FieldText(row: Fields, field: string): string {
    if field in row && row[field].Text? then row[field].s else ""
  }

  predicate PassesOne(sc: Scene, filter: Filter, text: string) {
    var passed := if filter.isRegex then sc.regex(text, filter.pattern) else text == filter.pattern;
    passed != filter.negated
  }

  predicate Passes(sc: Scene, filters: map<string, Filter>, row: Fields) {
    forall field :: field in filters ==> PassesOne(sc, filters[field], FieldText(row, field))
  }

  predicate Selects(sc: Scene, s: Subscription, klass: string, view: string) {
    s.group == "*" || (s.group == sc.name && s.klass == klass && s.view == view)
  }

  /** Watcher `w` is to get this row of this view. */
  predicate Wants(sc: Scene, w: string, klass: string, view: string, row: Fields) {
    w in sc.st.subs && Selects(sc, sc.st.subs[w], klass, view) && Passes(sc, sc.st.subs[w].filters, row)
  }

  function Relays(sc: Scene, format: string, klass: string, view: string, row: Fields, ws: seq<string>): seq<Delivery> {
    if ws == [] then []
    else
      var w := ws[|ws| - 1];
      Relays(sc, format, klass, view, row, ws[..|ws| - 1])
        + if Wants(sc, w, klass, view, row) then [Delivery(w, sc.name, format, klass, view, row)] else []
  }

  // ----- views, klasses, formats -----

  function RunView(sc: Scene, cx: Contexts, format: string, klass: string, view: string, entry: Entry): Outcome
    requires klass in sc.group.klasses && view in sc.group.klasses[klass].views
  {
    var vid := ViewId(sc.name, klass, view);
    var kid := KlassId(sc.name, klass);
    var r := sc.group.klasses[klass].views[view].formatter(format, ViewContext(cx, vid), entry, KlassContext(cx, kid));
    var commits := r.commit && r.row.Some?;
    var context := if commits && !r.keepContext then map[] else r.context;
    Outcome(Contexts(cx.views[vid := context], cx.klasses[kid := r.klassContext]),
            if commits then Relays(sc, format, klass, view, r.row.value, sc.ord(Subscriptions, sc.st.subs.Keys))
            else [])
  }

  function RunViews(sc: Scene, cx: Contexts, format: string, klass: string, views: seq<string>, entry: Entry): Outcome
    requires klass in sc.group.klasses && forall v :: v in views ==> v in sc.group.klasses[klass].views
  {
    if views == [] then Outcome(cx, [])
    else
      var n := |views| - 1;
      var before := RunViews(sc, cx, format, klass, views[..n], entry);
      var out := RunView(sc, before.cx, format, klass, views[n], entry);
      Outcome(out.cx, before.sent + out.sent)
  }

  /** The views to run: all of the klass when a keeper is attached, else the active list. */
  function ViewList(sc: Scene, format: string, klass: string): seq<string>
    requires klass in sc.group.klasses
  {
    if HasKeepers(sc) then sc.ord(Views(klass), sc.group.klasses[klass].views.Keys)
    else
      var id := FormatId(sc.name, format);
      if id in sc.st.index && klass in sc.st.index[id].active then sc.st.index[id].active[klass] else []
  }

  /** The klasses to try: all of the group when a keeper is attached, else those with an active list. */
  function KlassList(sc: Scene, format: string): seq<string> {
    if HasKeepers(sc) then sc.ord(Klasses, sc.group.klasses.Keys)
    else
      var id := FormatId(sc.name, format);
      if id in sc.st.index then sc.ord(Active(format), sc.st.index[id].active.Keys) else []
  }

  /** Every list names klasses of the group and views of the klass. */
  ghost predicate Listed(sc: Scene) {
    && (forall f, k :: k in KlassList(sc, f) ==> k in sc.group.klasses)
    && (forall f, k, v :: k in sc.group.klasses && v in ViewList(sc, f, k) ==> v in sc.group.klasses[k].views)
  }

  function RunKlass(sc: Scene, cx: Contexts, format: string, klass: string, entry: Entry): Outcome
    requires Listed(sc) && klass in sc.group.klasses
  {
    var kid := KlassId(sc.name, klass);
    var m := sc.group.klasses[klass].matcher(format, entry, KlassContext(cx, kid));
    var cx' := cx.(klasses := cx.klasses[kid := m.klassContext]);
    if m.accepts then RunViews(sc, cx', format, klass, ViewList(sc, format, klass), entry) else Outcome(cx', [])
  }

  function RunKlasses(sc: Scene, cx: Contexts, format: string, klasses: seq<string>, entry: Entry): Outcome
    requires Listed(sc) && forall k :: k in klasses ==> k in sc.group.klasses
  {
    if klasses == [] then Outcome(cx, [])
    else
      var n := |klasses| - 1;
      var before := RunKlasses(sc, cx, format, klasses[..n], entry);
      var out := RunKlass(sc, before.cx, format, klasses[n], entry);
      Outcome(out.cx, before.sent + out.sent)
  }

  /** The format matches the record and captures something. */
  predicate Applies(fmt: Format, raw: string) {
    fmt.find(raw).Some? && |fmt.find(raw).value| > 0
  }

  /** The format is looked at: it has an active klass, or a keeper is attached. */
  predicate Considered(sc: Scene, format: string) {
    var id := FormatId(sc.name, format);
    HasKeepers(sc) || (id in sc.st.index && sc.st.index[id].nrActive > 0)
  }

  function Applicable(sc: Scene, formats: seq<string>, raw: string): seq<string>
    requires forall f :: f in formats ==> f in sc.group.formats
  {
    if formats == [] then []
    else
      var f := formats[|formats| - 1];
      Applicable(sc, formats[..|formats| - 1], raw)
        + if Considered(sc, f) && Applies(sc.group.formats[f], raw) then [f] else []
  }

  /** The groups the delimiter captures when matched again against the stretch alone. */
  function SignatureCaptures(sig: Signature, stretch: string): seq<Value> {
    match First(sig, stretch, 0)
    case None => []
    case Some(i) => sig.captures(stretch[i..i + sig.width])
  }

  /** The fields a format reads out of a record. */
  function Schema(group: Group, format: string, rec: Record): Fields
    requires format in group.formats
  {
    var fmt := group.formats[format];
    fmt.extractor((if fmt.find(rec.raw).Some? then fmt.find(rec.raw).value else [])
      + SignatureCaptures(group.signature, rec.stretch))
  }

  /** The shared entry after the listed formats have filled it in turn. */
  function FieldsAfter(group: Group, formats: seq<string>, rec: Record): Fields
    requires forall f :: f in formats ==> f in group.formats
  {
    if formats == [] then map[]
    else FieldsAfter(group, formats[..|formats| - 1], rec) + Schema(group, formats[|formats| - 1], rec)
  }

  function RunFormats(sc: Scene, cx: Contexts, formats: seq<string>, rec: Record): Outcome
    requires Listed(sc) && forall f :: f in formats ==> f in sc.group.formats
  {
    if formats == [] then Outcome(cx, [])
    else
      var n := |formats| - 1;
      var before := RunFormats(sc, cx, formats[..n], rec);
      var out := RunKlasses(sc, before.cx, formats[n], KlassList(sc, formats[n]),
        Entry(rec.raw, FieldsAfter(sc.group, formats, rec)));
      Outcome(out.cx, before.sent + out.sent)
  }

  /** The formats a record is read by, in visiting order. */
  function FormatList(sc: Scene, raw: string): seq<string>
    requires Enumerates(sc.ord)
  {
    FormatsKnown(sc);
    Applicable(sc, sc.ord(Formats, sc.group.formats.Keys), raw)
  }

  lemma FormatsKnown(sc: Scene)
    requires Enumerates(sc.ord)
    ensures forall f :: f in sc.ord(Formats, sc.group.formats.Keys) ==> f in sc.group.formats
  {
    forall f | f in sc.ord(Formats, sc.group.formats.Keys) ensures f in sc.group.formats {
      assert f in multiset(sc.ord(Formats, sc.group.formats.Keys));
    }
  }

  lemma {:induction false} ApplicableKnown(sc: Scene, formats: seq<string>, raw: string, f: string)
    requires forall f :: f in formats ==> f in sc.group.formats
    ensures multiset(Applicable(sc, formats, raw))[f]
         == if f in formats && Considered(sc, f) && Applies(sc.group.formats[f], raw) then multiset(formats)[f] else 0
  {
    if formats != [] {
      var n := |formats| - 1;
      assert formats == formats[..n] + [formats[n]];
      ApplicableKnown(sc, formats[..n], raw, f);
    }
  }

  /** The whole body of the record loop. */
  function DispatchRecord(sc: Scene, cx: Contexts, rec: Record): Outcome
    requires Enumerates(sc.ord) && Listed(sc)
  {
    FormatListKnown(sc, rec.raw);
    RunFormats(sc, cx, FormatList(sc, rec.raw), rec)
  }

  lemma FormatListKnown(sc: Scene, raw: string)
    requires Enumerates(sc.ord)
    ensures forall f :: f in FormatList(sc, raw) ==> f in sc.group.formats
  {
    FormatsKnown(sc);
    forall f | f in FormatList(sc, raw) ensures f in sc.group.formats {
      ApplicableKnown(sc, sc.ord(Formats, sc.group.formats.Keys), raw, f);
      assert f in multiset(FormatList(sc, raw));
    }
  }

  /** All records of one call, in order. */
  function DispatchSpans(sc: Scene, cx: Contexts, text: string, spans: seq<Span>): Outcome
    requires Enumerates(sc.ord) && Listed(sc)
  {
    if spans == [] then Outcome(cx, [])
    else
      var n := |spans| - 1;
      var before := DispatchSpans(sc, cx, text, spans[..n]);
      var out := DispatchRecord(sc, before.cx, RecordOf(sc.group.signature, text, spans[n]));
      Outcome(out.cx, before.sent + out.sent)
  }

  lemma DispatchAppended(sc: Scene, cx: Contexts, text: string, spans: seq<Span>, sp: Span, before: Outcome,
                         out: Outcome)
    requires Enumerates(sc.ord) && Listed(sc)
    requires before == DispatchSpans(sc, cx, text, spans)
    requires out == DispatchRecord(sc, before.cx, RecordOf(sc.group.signature, text, sp))
    ensures Outcome(out.cx, before.sent + out.sent) == DispatchSpans(sc, cx, text, spans + [sp])
  {
    assert (spans + [sp])[..|spans|] == spans;
  }
}
