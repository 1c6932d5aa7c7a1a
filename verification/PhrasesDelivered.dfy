/** The phrases view as one of the views of the engine: its watchers are sent the rows read off the records emitted. */
module PhrasesDelivered {
  import opened Lua
  import opened Segmentation
  import opened Stream
  import opened Config
  import opened Dispatch
  import opened DispatchLaws
  import opened ViewHistory
  import opened EndToEnd
  import P = Phrases
  import R = Replays

  // ----- the formatter as a view -----

  function Get(t: Fields, key: string): Value {
    if key in t then t[key] else False
  }

  function Flag(b: bool): Value {
    if b then Text("true") else False
  }

  function ContextOf(t: Fields): P.Context {
    P.Context(Get(t, "phrase"), Get(t, "uuid"), Get(t, "digest"), Get(t, "trans"), Get(t, "status"), Get(t, "linked"),
              Get(t, "translated").Text?, Get(t, "checked_for_skipping").Text?, Get(t, "done").Text?)
  }

  function FieldsOf(c: P.Context): Fields {
    map["phrase" := c.phrase, "uuid" := c.uuid, "digest" := c.digest, "trans" := c.trans, "status" := c.status,
        "linked" := c.linked, "translated" := Flag(c.translated), "checked_for_skipping" := Flag(c.checkedForSkipping),
        "done" := Flag(c.done)]
  }

  lemma ContextRoundTrip(c: P.Context)
    ensures ContextOf(FieldsOf(c)) == c && ContextOf(map[]) == P.EMPTY
  {}

  /** The table `create_entry` builds. */
  function RowFields(r: P.Row): Fields {
    map["UUID" := r.uuid, "Phrase" := r.phrase, "Digest" := r.digest, "Translation" := r.trans, "Linked" := r.linked,
        "Status" := r.status]
  }

  function LineOf(ours: string -> bool, input: Input): P.Line {
    var t := input.entry.fields;
    P.Line(input.format, FieldText(t, "app"), ours(FieldText(t, "module")), Get(t, "uuid"), FieldText(t, "content"))
  }

  /** `ours` is the test on the entry's module. */
  function PhrasesView(x: P.Extractors, ours: string -> bool): View {
    View((f, c, e, kc) =>
      var (c', row) := P.Format(x, ContextOf(c), LineOf(ours, Input(f, e)));
      Formatted(row.Some?, if row.Some? then Some(RowFields(row.value)) else None, false, FieldsOf(c'), kc))
  }

  function Lines(ours: string -> bool, inputs: seq<Input>): seq<P.Line> {
    seq(|inputs|, i requires 0 <= i < |inputs| => LineOf(ours, inputs[i]))
  }

  function RowsOf(commits: seq<P.Commit>): seq<Fields> {
    seq(|commits|, i requires 0 <= i < |commits| => RowFields(commits[i].row))
  }

  function Content(input: Input): string {
    FieldText(input.entry.fields, "content")
  }

  /** A line of the program, in the format and from a module that the view reads. */
  predicate FromHandler(ours: string -> bool, input: Input) {
    && input.format == "requests" && FieldText(input.entry.fields, "app") == "dakapi"
    && ours(FieldText(input.entry.fields, "module"))
  }

  /** What stands in the columns of a row, read off the entries the view was given. */
  ghost predicate Columns(x: P.Extractors, ours: string -> bool, visits: seq<Input>, s: P.Source, row: Fields) {
    && row.Keys == {"UUID", "Phrase", "Digest", "Translation", "Linked", "Status"}
    && match s
       case SkippedAt(p, n) =>
         && p < n < |visits| && FromHandler(ours, visits[p]) && FromHandler(ours, visits[n])
         && row["UUID"] == Get(visits[p].entry.fields, "uuid")
         && Some(row["Phrase"]) == x.phrase(Content(visits[p]))
         && Some(row["Digest"]) == x.skipped(Content(visits[n]))
         && row["Translation"] == row["Linked"] == False
         && row["Status"] == if row["Digest"].Text? then Text("Skipped") else Text("Filtered")
       case FullAt(p, d, t, r, k) =>
         && p < d < t < r < k < |visits|
         && (forall i :: i in {p, d, t, r, k} ==> FromHandler(ours, visits[i]))
         && row["UUID"] == Get(visits[p].entry.fields, "uuid")
         && Some(row["Phrase"]) == x.phrase(Content(visits[p]))
         && Some(row["Digest"]) == x.digest(Content(visits[d]))
         && Some(row["Translation"]) == x.trans(Content(visits[t]))
         && row["Linked"] in {Text("Yes"), Text("No")} && row["Status"] in {Text("Translated"), Text("Proxied")}
         && (row["Linked"] == Text("Yes") <==> x.linked(Content(visits[k])) == Some(Text("is")))
         && (row["Status"] == Text("Translated") <==> x.translated(Content(visits[r])) == Some(Text("was")))
  }

  lemma LineReads(x: P.Extractors, kind: P.Kind, ours: string -> bool, visits: seq<Input>, i: nat)
    requires i < |visits| && P.Is(x, kind, Lines(ours, visits)[i])
    ensures FromHandler(ours, visits[i])
    ensures var l := Lines(ours, visits)[i];
      l.content == Content(visits[i]) && l.uuid == Get(visits[i].entry.fields, "uuid")
  {}

  lemma FieldsOfRow(r: P.Row)
    ensures RowFields(r).Keys == {"UUID", "Phrase", "Digest", "Translation", "Linked", "Status"}
    ensures RowFields(r)["UUID"] == r.uuid && RowFields(r)["Phrase"] == r.phrase && RowFields(r)["Digest"] == r.digest
    ensures RowFields(r)["Translation"] == r.trans && RowFields(r)["Linked"] == r.linked
    ensures RowFields(r)["Status"] == r.status
  {}

  lemma SourceColumns(x: P.Extractors, ours: string -> bool, visits: seq<Input>, s: P.Source)
    requires P.InRange(Lines(ours, visits), x, s)
    ensures Columns(x, ours, visits, s, RowFields(P.RowOf(x, Lines(ours, visits), s)))
  {
    FieldsOfRow(P.RowOf(x, Lines(ours, visits), s));
    hide RowFields;
    match s
    case SkippedAt(p, n) =>
      LineReads(x, P.Phrase, ours, visits, p);
      LineReads(x, P.Any, ours, visits, n);
      hide Lines, LineOf, Content, FromHandler, Get;
    case FullAt(p, d, t, r, k) =>
      LineReads(x, P.Phrase, ours, visits, p);
      LineReads(x, P.Digest, ours, visits, d);
      LineReads(x, P.Trans, ours, visits, t);
      LineReads(x, P.Status, ours, visits, r);
      LineReads(x, P.Link, ours, visits, k);
      hide Lines, LineOf, Content, FromHandler, Get;
  }

  /** Every row committed over any visits has these columns. */
  lemma RowColumns(x: P.Extractors, ours: string -> bool, visits: seq<Input>, j: nat)
    requires j < |P.Rows(x, P.EMPTY, Lines(ours, visits), 0)|
    ensures j < |P.Parse(x, Lines(ours, visits), 0)|
    ensures Columns(x, ours, visits, P.Parse(x, Lines(ours, visits), 0)[j],
                    RowsOf(P.Rows(x, P.EMPTY, Lines(ours, visits), 0))[j])
  {
    hide P.Rows, P.Parse, Columns, RowFields, Lines, P.RowOf, P.InRange;
    P.RowsAreParsed(x, Lines(ours, visits), 0);
    SourceColumns(x, ours, visits, P.Parse(x, Lines(ours, visits), 0)[j]);
  }

  // ----- one visit to the view, repeated -----

  /** What one run leaves and commits. */
  lemma TurnIs(x: P.Extractors, ours: string -> bool, c: Fields, input: Input)
    ensures var (c', row) := P.Format(x, ContextOf(c), LineOf(ours, input));
      var h := Turn(PhrasesView(x, ours), History(c, []), input);
      && h.rows == (if row.Some? then [RowFields(row.value)] else [])
      && ContextOf(h.context) == P.AfterRun(x, ContextOf(c), LineOf(ours, input))
  {
    hide P.Format, RowFields;
    ContextRoundTrip(P.Format(x, ContextOf(c), LineOf(ours, input)).0);
  }

  lemma RepeatedFirst(input: Input, n: nat)
    requires n > 0
    ensures Repeated(input, n) == [input] + Repeated(input, n - 1)
  {}

  lemma RowsOfConcat(xs: seq<P.Commit>, ys: seq<P.Commit>)
    ensures RowsOf(xs + ys) == RowsOf(xs) + RowsOf(ys)
  {}

  /** The runs left on a line, and then the lines after it. */
  lemma {:induction false} PlayRuns(x: P.Extractors,
                                    ours: string -> bool, c: Fields, input: Input, lines: seq<P.Line>, i: nat,
                                    times: nat, left: nat)
    requires i < |lines| && lines[i] == LineOf(ours, input) && left <= times
    ensures var h := Play(PhrasesView(x, ours), History(c, []), Repeated(input, left));
      RowsOf(P.RowsRepeated(x, ContextOf(c), lines, i, times, left))
        == h.rows + RowsOf(P.RowsRepeated(x, ContextOf(h.context), lines, i + 1, times, times))
    decreases left
  {
    hide P.Format, RowFields, PhrasesView, ContextOf;
    var view := PhrasesView(x, ours);
    if left > 0 {
      var h1 := Turn(view, History(c, []), input);
      TurnIs(x, ours, c, input);
      P.OneRun(x, ContextOf(c), lines, i, times, left);
      hide P.RowsRepeated, RowsOf, Turn, P.AfterRun, LineOf;
      RepeatedFirst(input, left);
      PlayConcat(view, History(c, []), [input], Repeated(input, left - 1));
      OneTurn(view, History(c, []), input);
      PlayRows(view, h1.context, h1.rows, Repeated(input, left - 1));
      PlayRuns(x, ours, h1.context, input, lines, i, times, left - 1);
      var row := P.Format(x, ContextOf(c), lines[i]).1;
      var first := if row.Some? then [P.Commit(i, row.value)] else [];
      CommitRows(first, h1.rows, i, row);
      RowsOfConcat(first, P.RowsRepeated(x, P.AfterRun(x, ContextOf(c), lines[i]), lines, i, times, left - 1));
    }
  }

  lemma CommitRows(first: seq<P.Commit>, rows: seq<Fields>, i: nat, row: Option<P.Row>)
    requires first == (if row.Some? then [P.Commit(i, row.value)] else [])
    requires rows == if row.Some? then [RowFields(row.value)] else []
    ensures RowsOf(first) == rows
  {}

  /** Runs on entries of other formats do nothing. */
  lemma {:induction false} PlayOthers(x: P.Extractors, ours: string -> bool, c: Fields, input: Input, n: nat)
    requires input.format != "requests"
    ensures var h := Play(PhrasesView(x, ours), History(c, []), Repeated(input, n));
      h.rows == [] && ContextOf(h.context) == ContextOf(c)
    decreases n
  {
    if n > 0 {
      var view := PhrasesView(x, ours);
      var h1 := Turn(view, History(c, []), input);
      TurnIs(x, ours, c, input);
      assert P.Format(x, ContextOf(c), LineOf(ours, input)) == (ContextOf(c), None);
      hide PhrasesView, Turn, ContextOf, LineOf;
      RepeatedFirst(input, n);
      PlayConcat(view, History(c, []), [input], Repeated(input, n - 1));
      OneTurn(view, History(c, []), input);
      PlayOthers(x, ours, h1.context, input, n - 1);
    }
  }

  // ----- all visits -----

  /** The formats and entries the view's klass accepts, each once. */
  function Visit(sc: Scene, who: Interest, f: string, entry: Entry): seq<Input>
    requires who.k in sc.group.klasses
  {
    if Tried(sc, f, who.k) && Accepts(sc.group, who.k, f, entry) then [Input(f, entry)] else []
  }

  function RecordVisits(sc: Scene, who: Interest, fs: seq<string>, rec: Record): seq<Input>
    requires who.k in sc.group.klasses && forall f :: f in fs ==> f in sc.group.formats
  {
    if fs == [] then []
    else
      var n := |fs| - 1;
      RecordVisits(sc, who, fs[..n], rec) + Visit(sc, who, fs[n], Entry(rec.raw, FieldsAfter(sc.group, fs, rec)))
  }

  function Visits(sc: Scene, who: Interest, text: string, spans: seq<Span>): seq<Input>
    requires who.k in sc.group.klasses && Enumerates(sc.ord)
  {
    if spans == [] then []
    else
      var n := |spans| - 1;
      var rec := RecordOf(sc.group.signature, text, spans[n]);
      FormatListKnown(sc, rec.raw);
      Visits(sc, who, text, spans[..n]) + RecordVisits(sc, who, FormatList(sc, rec.raw), rec)
  }

  /** Each visit as often as its format lists the view. */
  function Flat(sc: Scene, who: Interest, visits: seq<Input>): seq<Input> {
    if visits == [] then []
    else Repeated(visits[0], Listings(sc, visits[0].format, who.k, who.v)) + Flat(sc, who, visits[1..])
  }

  lemma {:induction false} FlatConcat(sc: Scene, who: Interest, xs: seq<Input>, ys: seq<Input>)
    ensures Flat(sc, who, xs + ys) == Flat(sc, who, xs) + Flat(sc, who, ys)
  {
    if xs == [] {
      assert xs + ys == ys;
    } else {
      assert (xs + ys)[1..] == xs[1..] + ys;
      FlatConcat(sc, who, xs[1..], ys);
    }
  }

  lemma FlatVisit(sc: Scene, who: Interest, f: string, entry: Entry)
    requires who.k in sc.group.klasses
    ensures Flat(sc, who, Visit(sc, who, f, entry)) == Inputs(sc, who, f, entry)
  {
    assert Visit(sc, who, f, entry) != [] ==> Visit(sc, who, f, entry)[1..] == [];
  }

  lemma {:induction false} FlatRecord(sc: Scene, who: Interest, fs: seq<string>, rec: Record)
    requires who.k in sc.group.klasses && forall f :: f in fs ==> f in sc.group.formats
    ensures Flat(sc, who, RecordVisits(sc, who, fs, rec)) == RecordInputs(sc, who, fs, rec)
  {
    hide Flat, Visit, Inputs, FieldsAfter;
    if fs == [] {
      FlatNothing(sc, who);
    } else {
      var n := |fs| - 1;
      var entry := Entry(rec.raw, FieldsAfter(sc.group, fs, rec));
      FlatRecord(sc, who, fs[..n], rec);
      FlatVisit(sc, who, fs[n], entry);
      FlatConcat(sc, who, RecordVisits(sc, who, fs[..n], rec), Visit(sc, who, fs[n], entry));
    }
  }

  lemma FlatNothing(sc: Scene, who: Interest)
    ensures Flat(sc, who, []) == []
  {}

  lemma {:induction false} FlatAll(sc: Scene, who: Interest, text: string, spans: seq<Span>)
    requires who.k in sc.group.klasses && Enumerates(sc.ord)
    ensures Flat(sc, who, Visits(sc, who, text, spans)) == AllInputs(sc, who, text, spans)
  {
    hide Flat, RecordVisits, RecordInputs, FormatList, RecordOf, Enumerates;
    if spans == [] {
      FlatNothing(sc, who);
    } else {
      var n := |spans| - 1;
      var rec := RecordOf(sc.group.signature, text, spans[n]);
      FormatListKnown(sc, rec.raw);
      FlatAll(sc, who, text, spans[..n]);
      FlatRecord(sc, who, FormatList(sc, rec.raw), rec);
      FlatConcat(sc, who, Visits(sc, who, text, spans[..n]), RecordVisits(sc, who, FormatList(sc, rec.raw), rec));
    }
  }

  lemma RestOfLines(ours: string -> bool, visits: seq<Input>, i: nat)
    requires i < |visits|
    ensures visits[i..][1..] == visits[i + 1..] && Lines(ours, visits)[i] == LineOf(ours, visits[i])
  {}

  /** From any visit on, the view commits the rows of the machine run that often on each line. */
  lemma {:induction false} PlayVisits(x: P.Extractors, ours: string -> bool, sc: Scene, who: Interest, c: Fields,
    visits: seq<Input>, i: nat)
    requires i <= |visits|
    ensures var times := Listings(sc, "requests", who.k, who.v);
      Play(PhrasesView(x, ours), History(c, []), Flat(sc, who, visits[i..])).rows
        == RowsOf(P.RowsRepeated(x, ContextOf(c), Lines(ours, visits), i, times, times))
    decreases |visits| - i
  {
    hide PhrasesView, ContextOf, P.RowsRepeated, RowsOf, LineOf, P.Format;
    var view, lines, times := PhrasesView(x, ours), Lines(ours, visits), Listings(sc, "requests", who.k, who.v);
    if i == |visits| {
      NoVisits(x, view, ContextOf(c), c, lines, times);
    } else {
      RestOfLines(ours, visits, i);
      var input := visits[i];
      var n := Listings(sc, input.format, who.k, who.v);
      hide Listings, Lines;
      var h := Play(view, History(c, []), Repeated(input, n));
      var rest := Flat(sc, who, visits[i + 1..]);
      PlayConcat(view, History(c, []), Repeated(input, n), rest);
      PlayRows(view, h.context, h.rows, rest);
      PlayVisits(x, ours, sc, who, h.context, visits, i + 1);
      if input.format == "requests" {
        PlayRuns(x, ours, c, input, lines, i, times, times);
      } else {
        PlayOthers(x, ours, c, input, n);
        NotOurs(x, ours, ContextOf(c), input);
        P.IdleRuns(x, ContextOf(c), lines, i, times, times);
      }
    }
  }

  lemma NotOurs(x: P.Extractors, ours: string -> bool, c: P.Context, input: Input)
    requires input.format != "requests"
    ensures P.Format(x, c, LineOf(ours, input)) == (c, None)
  {}

  lemma NoVisits(x: P.Extractors, view: View, c: P.Context, t: Fields, lines: seq<P.Line>, times: nat)
    ensures Play(view, History(t, []), []).rows == [] == RowsOf(P.RowsRepeated(x, c, lines, |lines|, times, times))
  {}

  // ----- the main results -----

  /** The phrases view is one of the group's, its klass's matcher keeps no history, and the view's context is still
      empty. */
  ghost predicate Installed(sc: Scene, who: Interest, x: P.Extractors, ours: string -> bool, cx: Contexts) {
    && who.k in sc.group.klasses && who.v in sc.group.klasses[who.k].views
    && sc.group.klasses[who.k].views[who.v] == PhrasesView(x, ours)
    && (forall f, e, c :: sc.group.klasses[who.k].matcher(f, e, c).accepts == Accepts(sc.group, who.k, f, e))
    && ViewContext(cx, Vid(sc, who)) == map[]
  }

  lemma InstalledPrivate(sc: Scene, who: Interest, x: P.Extractors, ours: string -> bool, cx: Contexts)
    requires Installed(sc, who, x, ours, cx)
    ensures Private(sc.group, who.k, who.v)
  {
    hide P.Format, ContextOf, LineOf, FieldsOf, RowFields;
  }

  /** What a watcher is sent of the view over any spans: the rows of the machine run, on each accepted entry, once
      per listing, as far as its filters let them through. */
  lemma PhrasesSent(sc: Scene, who: Interest, x: P.Extractors,
                    ours: string -> bool, cx: Contexts, text: string, spans: seq<Span>)
    requires Installed(sc, who, x, ours, cx) && Enumerates(sc.ord) && Listed(sc)
    ensures var lines, times := Lines(ours, Visits(sc, who, text, spans)), Listings(sc, "requests", who.k, who.v);
      RowsFor(DispatchSpans(sc, cx, text, spans).sent, who)
        == Kept(sc, who, RowsOf(P.RowsRepeated(x, P.EMPTY, lines, 0, times, times)))
  {
    InstalledPrivate(sc, who, x, ours, cx);
    hide Enumerates, Listed, P.RowsRepeated, Lines, Listings, Private, DispatchSpans;
    SpansEffect(sc, who, cx, text, spans);
    FlatAll(sc, who, text, spans);
    var visits := Visits(sc, who, text, spans);
    PlayVisits(x, ours, sc, who, map[], visits, 0);
    assert visits[0..] == visits;
    ContextRoundTrip(P.EMPTY);
  }

  /** The lines the view is given of these records: one for each format and entry its klass accepts. */
  ghost function LinesOf(sc: Scene, who: Interest, ours: string -> bool, text: string, spans: seq<Span>): seq<P.Line>
    requires who.k in sc.group.klasses && Enumerates(sc.ord)
  {
    Lines(ours, Visits(sc, who, text, spans))
  }

  /** For every run, with the view listed once: the watcher is sent exactly the rows an independent parse reads off the
      records in the order of emission. */
  lemma PhrasesOfRun(sc: Scene, who: Interest, x: P.Extractors, ours: string -> bool, cx: Contexts, chunks: seq<Chunk>)
    returns (commits: seq<P.Commit>)
    requires sc.group.signature.width >= 2 && SameOrder(sc, chunks)
    requires Installed(sc, who, x, ours, cx) && Listings(sc, "requests", who.k, who.v) == 1
    ensures Ready(sc, chunks)
    ensures var lines := LinesOf(sc, who, ours, Concat(Texts(chunks)),
         Stream.Run(sc.group.signature, Texts(chunks)).emitted);
      && commits == P.Rows(x, P.EMPTY, lines, 0) && P.Matches(x, lines, commits, P.Parse(x, lines, 0))
      && RowsFor(Feed(sc, cx, chunks).sent, who) == Kept(sc, who, RowsOf(commits))
  {
    assert who.k in sc.group.klasses;
    hide Listed, Enumerates, Installed, Visits, Spans, DispatchSpans, Listings, P.Parse, P.Matches, Stream.Run;
    var stream, emitted := Concat(Texts(chunks)), Stream.Run(sc.group.signature, Texts(chunks)).emitted;
    FeedIsDispatch(sc, cx, chunks);
    PhrasesSent(sc, who, x, ours, cx, stream, emitted);
    var lines := LinesOf(sc, who, ours, stream, emitted);
    P.OnceIsRows(x, P.EMPTY, lines, 0, 1);
    P.RowsAreParsed(x, lines, 0);
    commits := P.Rows(x, P.EMPTY, lines, 0);
  }

  // ----- records emitted again -----

  lemma {:induction false} VisitsConcat(sc: Scene, who: Interest, text: string, xs: seq<Span>, ys: seq<Span>)
    requires who.k in sc.group.klasses && Enumerates(sc.ord)
    ensures Visits(sc, who, text, xs + ys) == Visits(sc, who, text, xs) + Visits(sc, who, text, ys)
  {
    hide RecordVisits, FormatList, RecordOf, Enumerates;
    if ys == [] {
      assert xs + ys == xs;
    } else {
      var n := |ys| - 1;
      assert (xs + ys)[..|xs| + n] == xs + ys[..n] && (xs + ys)[|xs| + n] == ys[n];
      FormatListKnown(sc, RecordOf(sc.group.signature, text, ys[n]).raw);
      VisitsConcat(sc, who, text, xs, ys[..n]);
    }
  }

  lemma LinesConcat(sc: Scene, who: Interest, ours: string -> bool, text: string, xs: seq<Span>, ys: seq<Span>)
    requires who.k in sc.group.klasses && Enumerates(sc.ord)
    ensures LinesOf(sc, who, ours, text, xs + ys) == LinesOf(sc, who, ours, text, xs) + LinesOf(sc, who, ours, text, ys)
  {
    hide Visits, LineOf, Enumerates;
    VisitsConcat(sc, who, text, xs, ys);
  }

  lemma {:induction false} VisitsSoFar(sc: Scene, who: Interest, text: string, more: string, spans: seq<Span>)
    requires who.k in sc.group.klasses && Enumerates(sc.ord) && Within(spans, |text|)
    ensures Visits(sc, who, text + more, spans) == Visits(sc, who, text, spans)
  {
    hide RecordVisits, FormatList, RecordOf, Enumerates;
    if spans != [] {
      var n := |spans| - 1;
      assert spans[n] in spans;
      RecordPrefix(sc.group.signature, text, more, spans[n]);
      FormatListKnown(sc, RecordOf(sc.group.signature, text, spans[n]).raw);
      VisitsSoFar(sc, who, text, more, spans[..n]);
    }
  }

  /** The records that the leftovers before a call still hold. The call emits them again. */
  function Replayed(sig: Signature, texts: seq<string>, k: nat): seq<Span>
    requires sig.width >= 2 && k < |texts|
  {
    Shifted(Spans(sig, Stream.Run(sig, texts[..k]).leftovers), Stream.Run(sig, texts[..k]).dropped)
  }

  /** After the stream up to the call, the view waits for none of the lines of the records emitted again. */
  ghost predicate IdleReplay(sc: Scene, who: Interest, x: P.Extractors,
                             ours: string -> bool, texts: seq<string>, k: nat)
    requires who.k in sc.group.klasses && Enumerates(sc.ord) && sc.group.signature.width >= 2 && k < |texts|
  {
    var sig, stream := sc.group.signature, Concat(texts[..k]);
    R.Idle(x, R.Ended(x, P.EMPTY, LinesOf(sc, who, ours, stream, Spans(sig, stream))),
           LinesOf(sc, who, ours, stream, Replayed(sig, texts, k)))
  }

  ghost predicate IdleReplays(sc: Scene, who: Interest, x: P.Extractors, ours: string -> bool, texts: seq<string>)
    requires who.k in sc.group.klasses && Enumerates(sc.ord) && sc.group.signature.width >= 2
  {
    forall k :: 0 <= k < |texts| ==> IdleReplay(sc, who, x, ours, texts, k)
  }

  lemma IdleReplaysFront(sc: Scene, who: Interest, x: P.Extractors, ours: string -> bool, texts: seq<string>)
    requires who.k in sc.group.klasses && Enumerates(sc.ord) && sc.group.signature.width >= 2
    requires texts != [] && IdleReplays(sc, who, x, ours, texts)
    ensures IdleReplays(sc, who, x, ours, texts[..|texts| - 1])
  {
    hide LinesOf, Enumerates, R.Idle, R.Ended, Stream.Run, Spans, Concat, Shifted;
    var front := texts[..|texts| - 1];
    forall k | 0 <= k < |front| ensures IdleReplay(sc, who, x, ours, front, k) {
      assert front[..k] == texts[..k];
      assert IdleReplay(sc, who, x, ours, texts, k);
    }
  }

  /** One call: the records emitted again, and then the new ones. */
  lemma SpansOfCall(sig: Signature, texts: seq<string>) returns (added: seq<Span>)
    requires sig.width >= 2 && texts != [] && Spaced(sig, Concat(texts))
    ensures var n := |texts| - 1;
      var before, p := Concat(texts[..n]), Stream.Run(sig, texts[..n]);
      && Stream.Run(sig, texts).emitted == p.emitted + (Replayed(sig, texts, n) + added)
      && Spans(sig, Concat(texts)) == Spans(sig, before) + added
      && Within(p.emitted, |before|) && Within(Replayed(sig, texts, n), |before|)
        && Within(Spans(sig, before), |before|)
  {
    var n := |texts| - 1;
    var before, p := Concat(texts[..n]), Stream.Run(sig, texts[..n]);
    assert Concat(texts) == before + texts[n];
    assert Stream.Run(sig, texts).emitted == p.emitted + Shifted(Spans(sig, p.leftovers + texts[n]), p.dropped);
    hide Spans, Tracks, Stream.Run, Concat, Shifted;
    SpacedPrefix(sig, before, texts[n]);
    RunTracks(sig, texts[..n]);
    EmittedWithin(sig, texts[..n]);
    SpansWithin(sig, before);
    var m := StepReplays(sig, before, p, texts[n]);
    assert forall sp :: sp in Spans(sig, before)[m..] ==> sp in Spans(sig, before);
    added := Spans(sig, Concat(texts))[|Spans(sig, before)|..];
  }

  lemma LinesOfCall(sc: Scene, who: Interest, ours: string -> bool, texts: seq<string>) returns (more: seq<P.Line>)
    requires who.k in sc.group.klasses && Enumerates(sc.ord) && sc.group.signature.width >= 2 && texts != []
    requires Spaced(sc.group.signature, Concat(texts))
    ensures var n, sig := |texts| - 1, sc.group.signature;
      var before, stream := Concat(texts[..n]), Concat(texts);
      && LinesOf(sc, who, ours, stream, Stream.Run(sig, texts).emitted)
           == LinesOf(sc, who, ours, before, Stream.Run(sig, texts[..n]).emitted)
              + (LinesOf(sc, who, ours, before, Replayed(sig, texts, n)) + more)
      && LinesOf(sc, who, ours, stream, Spans(sig, stream)) == LinesOf(sc, who, ours, before, Spans(sig, before)) + more
  {
    var n, sig := |texts| - 1, sc.group.signature;
    var before, emitted := Concat(texts[..n]), Stream.Run(sig, texts[..n]).emitted;
    assert Concat(texts) == before + texts[n];
    hide Spans, Visits, Enumerates, Stream.Run, Concat, Spaced, Lines, Replayed, Within;
    var added := SpansOfCall(sig, texts);
    var again, known := Replayed(sig, texts, n), Spans(sig, before);
    more := LinesOf(sc, who, ours, Concat(texts), added);
    LinesConcat(sc, who, ours, Concat(texts), emitted, again + added);
    LinesConcat(sc, who, ours, Concat(texts), again, added);
    LinesConcat(sc, who, ours, Concat(texts), known, added);
    VisitsSoFar(sc, who, before, texts[n], emitted);
    VisitsSoFar(sc, who, before, texts[n], again);
    VisitsSoFar(sc, who, before, texts[n], known);
  }

  lemma {:induction false} IdleReplaysAlike(sc: Scene, who: Interest, x: P.Extractors,
                                            ours: string -> bool, texts: seq<string>)
    requires who.k in sc.group.klasses && Enumerates(sc.ord) && sc.group.signature.width >= 2
    requires Spaced(sc.group.signature, Concat(texts)) && IdleReplays(sc, who, x, ours, texts)
    ensures var sig, stream := sc.group.signature, Concat(texts);
      R.Alike(x, LinesOf(sc, who, ours, stream, Stream.Run(sig, texts).emitted),
              LinesOf(sc, who, ours, stream, Spans(sig, stream)))
  {
    hide LinesOf, Enumerates, R.Idle, R.Ended, R.Alike, Spaced, Stream.Run, Spans;
    var sig := sc.group.signature;
    if texts == [] {
      RunNothing(sig, texts);
      NoSpansOfNothing(sig);
      AlikeItself(x, LinesOf(sc, who, ours, "", []));
    } else {
      var n := |texts| - 1;
      IdleReplaysFront(sc, who, x, ours, texts);
      SpacedPrefix(sig, Concat(texts[..n]), texts[n]);
      IdleReplaysAlike(sc, who, x, ours, texts[..n]);
      var more := LinesOfCall(sc, who, ours, texts);
      assert IdleReplay(sc, who, x, ours, texts, n);
      var before := Concat(texts[..n]);
      R.AlikeMore(x, LinesOf(sc, who, ours, before, Stream.Run(sig, texts[..n]).emitted),
                  LinesOf(sc, who, ours, before, Spans(sig, before)),
                  LinesOf(sc, who, ours, before, Replayed(sig, texts, n)), more);
    }
  }

  lemma AlikeItself(x: P.Extractors, lines: seq<P.Line>)
    ensures R.Alike(x, lines, lines)
  {}

  /** Whenever the view waits for nothing that is emitted again: the watcher is sent exactly the rows an independent
      parse reads off the stream's records, each taken once. */
  lemma PhrasesOfStream(sc: Scene, who: Interest, x: P.Extractors,
                        ours: string -> bool, cx: Contexts, chunks: seq<Chunk>)
    returns (commits: seq<P.Commit>)
    requires sc.group.signature.width >= 2 && Spaced(sc.group.signature, Concat(Texts(chunks))) && SameOrder(sc, chunks)
    requires Installed(sc, who, x, ours, cx) && Listings(sc, "requests", who.k, who.v) == 1
    requires IdleReplays(sc, who, x, ours, Texts(chunks))
    ensures Ready(sc, chunks)
    ensures var stream := Concat(Texts(chunks));
      var lines := LinesOf(sc, who, ours, stream, Spans(sc.group.signature, stream));
      && P.Matches(x, lines, commits, P.Parse(x, lines, 0))
      && RowsFor(Feed(sc, cx, chunks).sent, who) == Kept(sc, who, RowsOf(commits))
  {
    hide Spaced, Listed, Enumerates, IdleReplays, LinesOf, Spans, Listings, P.Parse, P.Matches, Stream.Run, R.Ended,
         R.Committed, RowFields, P.Rows;
    var sig, stream := sc.group.signature, Concat(Texts(chunks));
    IdleReplaysAlike(sc, who, x, ours, Texts(chunks));
    var emitted := LinesOf(sc, who, ours, stream, Stream.Run(sig, Texts(chunks)).emitted);
    var lines := LinesOf(sc, who, ours, stream, Spans(sig, stream));
    var sent := PhrasesOfRun(sc, who, x, ours, cx, chunks);
    commits := P.Rows(x, P.EMPTY, lines, 0);
    P.RowsAreParsed(x, lines, 0);
    R.RowsCommitted(x, P.EMPTY, emitted, 0);
    R.RowsCommitted(x, P.EMPTY, lines, 0);
    assert emitted[0..] == emitted && lines[0..] == lines;
    SameRows(sent, commits);
  }

  lemma SameRows(xs: seq<P.Commit>, ys: seq<P.Commit>)
    requires R.RowsOnly(xs) == R.RowsOnly(ys)
    ensures RowsOf(xs) == RowsOf(ys)
  {
    assert |R.RowsOnly(xs)| == |R.RowsOnly(ys)|;
    forall i | 0 <= i < |xs| ensures RowsOf(xs)[i] == RowsOf(ys)[i] {
      assert R.RowsOnly(xs)[i] == R.RowsOnly(ys)[i];
    }
  }

  lemma NothingReplayed(sig: Signature, texts: seq<string>, k: nat)
    requires sig.width >= 2 && Spaced(sig, Concat(texts)) && AllTight(sig, texts) && k < |texts|
    ensures Replayed(sig, texts, k) == []
  {
    hide Spaced, AllTight, Concat, Stream.Run, Spans;
    SpacedChunks(sig, texts, k + 1);
    AllTightPrefix(sig, texts, k + 1);
    TightRunLeavesNoRecord(sig, texts[..k + 1]);
    assert texts[..k + 1][..k] == texts[..k];
  }

  lemma NoLines(sc: Scene, who: Interest, ours: string -> bool, text: string)
    requires who.k in sc.group.klasses && Enumerates(sc.ord)
    ensures LinesOf(sc, who, ours, text, []) == []
  {}

  /** A run of tight calls emits nothing again. */
  lemma TightReplaysNothing(sc: Scene, who: Interest, x: P.Extractors, ours: string -> bool, texts: seq<string>)
    requires who.k in sc.group.klasses && Enumerates(sc.ord) && sc.group.signature.width >= 2
    requires Spaced(sc.group.signature, Concat(texts)) && AllTight(sc.group.signature, texts)
    ensures IdleReplays(sc, who, x, ours, texts)
  {
    hide Spaced, AllTight, Concat, Replayed, LinesOf, Enumerates, R.Ended, Spans;
    forall k | 0 <= k < |texts| ensures IdleReplay(sc, who, x, ours, texts, k) {
      NothingReplayed(sc.group.signature, texts, k);
      NoLines(sc, who, ours, Concat(texts[..k]));
    }
  }
}
