/** A stream, cut in two, over which the phrases view loses the one row it has. */
module PhrasesLost {
  import opened Lua
  import opened Segmentation
  import opened Stream
  import opened Config
  import opened Registry
  import opened Dispatch
  import opened DispatchLaws
  import opened ViewHistory
  import opened EndToEnd
  import opened PhrasesDelivered

  // ----- the stream -----

  const HASHES := Signature(2, w => w == "##", w => [])

  /** The leftovers after the first call still hold its record: its delimiter is at the fifth byte, the record is
      three long. */
  const FIRST := "xxxx##p##"
  const SECOND := "s##"
  const WHOLE := "xxxx##p##s##"

  lemma HashesAt(text: string, m: nat)
    ensures At(HASHES, text, m) <==> m + 2 <= |text| && text[m] == '#' && text[m + 1] == '#'
  {
    if m + 2 <= |text| { assert text[m..m + 2] == [text[m], text[m + 1]]; }
  }

  lemma FirstHashes(text: string, from: nat, i: nat)
    requires from <= i && i + 2 <= |text| && text[i] == '#' && text[i + 1] == '#'
    requires forall m :: from <= m < i ==> text[m] != '#'
    ensures First(HASHES, text, from) == Some(i)
  {
    HashesAt(text, i);
    var r := First(HASHES, text, from).value;
    HashesAt(text, r);
  }

  lemma NoHashes(text: string, from: nat)
    requires forall m :: from <= m < |text| - 1 ==> text[m] != '#' || text[m + 1] != '#'
    ensures First(HASHES, text, from) == None
  {
    var r := First(HASHES, text, from);
    if r.Some? { HashesAt(text, r.value); }
  }

  /** One record, between two delimiters. */
  lemma OneRecord(text: string, i: nat, j: nat)
    requires i + 3 <= j && j + 2 == |text| && text[i] == text[i + 1] == text[j] == text[j + 1] == '#'
    requires forall m :: (0 <= m < i || i + 2 <= m < j) ==> text[m] != '#'
    ensures First(HASHES, text, 0) == Some(i) && Spans(HASHES, text) == [Span(i, j)]
  {
    FirstHashes(text, 0, i);
    NoHashes(text, j + 1);
    SkipsHash(text, i, j);
    assert SpansFrom(HASHES, text, j) == [];
  }

  lemma SkipsHash(text: string, i: nat, j: nat)
    requires i + 3 <= j && j + 2 <= |text| && text[i + 1] == text[j] == text[j + 1] == '#'
    requires forall m :: i + 2 <= m < j ==> text[m] != '#'
    ensures First(HASHES, text, i + 1) == Some(j)
  {
    HashesAt(text, j);
    var r := First(HASHES, text, i + 1).value;
    HashesAt(text, r);
  }

  lemma TwoRecords(text: string, i: nat)
    requires i + 8 == |text|
    requires forall m :: 0 <= m < |text| ==> (text[m] == '#' <==> m in {i, i + 1, i + 3, i + 4, i + 6, i + 7})
    ensures First(HASHES, text, 0) == Some(i) && Spans(HASHES, text) == [Span(i, i + 3), Span(i + 3, i + 6)]
  {
    FirstHashes(text, 0, i);
    SkipsHash(text, i, i + 3);
    SkipsHash(text, i + 3, i + 6);
    NoHashes(text, i + 7);
    assert SpansFrom(HASHES, text, i + 6) == [];
    assert SpansFrom(HASHES, text, i + 3) == [Span(i + 3, i + 6)];
  }

  /** The record is emitted, and stays in the leftovers. */
  lemma FirstCall()
    ensures Spans(HASHES, FIRST) == [Span(4, 7)] && Carry(HASHES, FIRST) == "xx##p##"
  {
    OneRecord(FIRST, 4, 7);
    hide Spans;
    assert [Span(4, 7)][..0] == [];
    assert Consumed([Span(4, 7)]) == 3;
  }

  lemma FirstStep()
    ensures Stream.Run(HASHES, [FIRST]) == Progress("xx##p##", 2, [Span(4, 7)])
  {
    FirstCall();
    hide Spans, Carry;
    assert [FIRST][..0] == [] && START.leftovers + FIRST == FIRST;
    var p := Step(HASHES, START, FIRST);
    assert p.leftovers == "xx##p##" && |FIRST| == 9;
    assert p.dropped == 2;
  }

  lemma SecondStep(p: Progress)
    requires p == Progress("xx##p##", 2, [Span(4, 7)])
    ensures Step(HASHES, p, SECOND).emitted == [Span(4, 7), Span(4, 7), Span(7, 10)]
  {
    var text := "xx##p##s##";
    TwoRecords(text, 2);
    assert p.leftovers + SECOND == text;
    var spans := Spans(HASHES, text);
    assert Step(HASHES, p, SECOND).emitted == p.emitted + Shifted(spans, 2);
  }

  lemma Pieces()
    ensures FIRST + SECOND == WHOLE
  {}

  lemma TwoPieces(s: string, s': string)
    ensures Stream.Run(HASHES, [s, s']) == Step(HASHES, Stream.Run(HASHES, [s]), s')
  {
    hide Step;
    assert [s, s'][..1] == [s];
  }

  lemma WholeSpans()
    ensures Spans(HASHES, WHOLE) == [Span(4, 7), Span(7, 10)]
  {
    TwoRecords(WHOLE, 4);
  }

  /** The first record is emitted by both calls. */
  lemma LooseRun()
    ensures Concat([FIRST, SECOND]) == WHOLE
    ensures Stream.Run(HASHES, [FIRST, SECOND]).emitted == [Span(4, 7), Span(4, 7), Span(7, 10)]
    ensures Spans(HASHES, WHOLE) == [Span(4, 7), Span(7, 10)]
  {
    hide Spans, Step, Stream.Run, Concat;
    WholeSpans();
    FirstStep();
    SecondStep(Stream.Run(HASHES, [FIRST]));
    TwoPieces(FIRST, SECOND);
    ConcatTwo(FIRST, SECOND);
    Pieces();
  }

  // ----- the view -----

  const FINDS := P.Extractors(s => if s == "p" then Some(Text("p")) else None,
                              s => if s == "s" then Some(Text("s")) else None,
                              s => None, s => None, s => None, s => None)

  /** The format reads the whole record as its content. */
  function ContentOf(caps: seq<Value>): Fields {
    map["app" := Text("dakapi"), "content" := if caps == [] then False else caps[0]]
  }

  function Line(content: string): P.Line {
    P.Line("requests", "dakapi", true, False, content)
  }

  function LossScene(ord: Order): Scene {
    Scene("g",
          Group(HASHES, map["requests" := Format(raw => Some([Text(raw)]), ContentOf)],
                map["k" := Klass(["requests"], map["v" := PhrasesView(FINDS, ANY)], (f, e, c) => Matched(true, c))]),
          State(["w"], [], map["w" := Subscription("g", "k", "v", map[])],
                map[FormatId("g", "requests") := FormatState(map["k" := ["v"]], 1)]),
          ord, (s, p) => false)
  }

  const ANY: string -> bool := m => true

  const WATCHER := Interest("w", "k", "v")
  const FRESH := Contexts(map[], map[])

  lemma LossReady(ord: Order)
    requires Enumerates(ord)
    ensures Listed(LossScene(ord)) && Listings(LossScene(ord), "requests", "k", "v") == 1
    ensures Installed(LossScene(ord), WATCHER, FINDS, ANY, FRESH)
  {
    var sc := LossScene(ord);
    hide Enumerates, PhrasesView;
    forall f, k | k in KlassList(sc, f) ensures k in sc.group.klasses {
      if FormatId("g", f) in sc.st.index {
        EnumeratedOnce(ord, Active(f), sc.st.index[FormatId("g", f)].active.Keys, k);
      }
    }
  }

  lemma LossFormats(ord: Order, raw: string)
    requires Enumerates(ord)
    ensures FormatList(LossScene(ord), raw) == ["requests"]
  {
    Single(ord(Formats, {"requests"}), "requests");
    LossApplies(ord, raw);
    hide LossScene, Considered, Applies, Enumerates;
    assert ["requests"][..0] == [];
    assert Applicable(LossScene(ord), [], raw) == [];
  }

  lemma LossApplies(ord: Order, raw: string)
    ensures var sc := LossScene(ord);
      && sc.ord == ord && sc.group.formats.Keys == {"requests"} && sc.group.signature == HASHES
      && Considered(sc, "requests") && Applies(sc.group.formats["requests"], raw)
  {}

  lemma Single(s: seq<string>, x: string)
    requires multiset(s) == multiset({x})
    ensures s == [x]
  {
    assert |multiset(s)| == 1;
    assert s[0] in multiset(s);
  }

  lemma LossEntry(ord: Order, rec: Record, fields: Fields)
    requires fields == ContentOf([Text(rec.raw)] + SignatureCaptures(HASHES, rec.stretch))
    ensures var sc := LossScene(ord);
      FieldsAfter(sc.group, ["requests"], rec) == fields
      && LineOf(ANY, Input("requests", Entry(rec.raw, fields))) == Line(rec.raw)
      && Tried(sc, "requests", "k") && "k" in sc.group.klasses
      && Accepts(sc.group, "k", "requests", Entry(rec.raw, fields))
  {
    hide SignatureCaptures, PhrasesView;
    assert ["requests"][..0] == [];
    assert Schema(LossScene(ord).group, "requests", rec) == fields;
    assert map[] + fields == fields;
  }

  lemma LossVisits(sc: Scene, rec: Record, fields: Fields)
    requires "requests" in sc.group.formats && FieldsAfter(sc.group, ["requests"], rec) == fields
    requires Tried(sc, "requests", "k") && "k" in sc.group.klasses
    requires Accepts(sc.group, "k", "requests", Entry(rec.raw, fields))
    ensures RecordVisits(sc, WATCHER, ["requests"], rec) == [Input("requests", Entry(rec.raw, fields))]
  {
    hide FieldsAfter, Tried, Accepts;
    assert ["requests"][..0] == [];
  }

  lemma LossLine(ord: Order, text: string, sp: Span, content: string)
    requires Enumerates(ord) && RecordOf(HASHES, text, sp).raw == content
    ensures "k" in LossScene(ord).group.klasses
    ensures LinesOf(LossScene(ord), WATCHER, ANY, text, [sp]) == [Line(content)]
  {
    var rec := RecordOf(HASHES, text, sp);
    var fields := ContentOf([Text(rec.raw)] + SignatureCaptures(HASHES, rec.stretch));
    LossFormats(ord, content);
    LossApplies(ord, content);
    LossEntry(ord, rec, fields);
    hide LossScene, FormatList, RecordVisits, Enumerates, FieldsAfter, Tried, Accepts, RecordOf, Applies, Considered,
         LineOf;
    LossVisits(LossScene(ord), rec, fields);
    assert [sp][..0] == [];
    assert Visits(LossScene(ord), WATCHER, text, [sp]) == [Input("requests", Entry(rec.raw, fields))];
  }

  lemma LossRecords()
    ensures RecordOf(HASHES, WHOLE, Span(4, 7)).raw == "p" && RecordOf(HASHES, WHOLE, Span(7, 10)).raw == "s"
  {}

  lemma LossLines(ord: Order)
    requires Enumerates(ord)
    ensures "k" in LossScene(ord).group.klasses
    ensures var sc, p, s := LossScene(ord), Line("p"), Line("s");
      && LinesOf(sc, WATCHER, ANY, WHOLE, [Span(4, 7), Span(4, 7), Span(7, 10)]) == [p, p, s]
      && LinesOf(sc, WATCHER, ANY, WHOLE, [Span(4, 7), Span(7, 10)]) == [p, s]
  {
    LossRecords();
    LossLine(ord, WHOLE, Span(4, 7), "p");
    LossLine(ord, WHOLE, Span(7, 10), "s");
    hide LossScene, LinesOf, Enumerates, RecordOf;
    var sc, a, b := LossScene(ord), Span(4, 7), Span(7, 10);
    LinesConcat(sc, WATCHER, ANY, WHOLE, [a], [b]);
    LinesConcat(sc, WATCHER, ANY, WHOLE, [a], [a, b]);
    assert [a] + [b] == [a, b] && [a] + [a, b] == [a, a, b];
  }

  lemma LossRows()
    ensures R.RowsOnly(P.Rows(FINDS, P.EMPTY, [Line("p"), Line("p"), Line("s")], 0)) == []
    ensures |P.Rows(FINDS, P.EMPTY, [Line("p"), Line("s")], 0)| == 1
  {
    var p, s := Line("p"), Line("s");
    R.RepeatedPhraseLosesSkip(FINDS, p, s);
    hide P.Rows, R.Committed;
    R.RowsCommitted(FINDS, P.EMPTY, [p, p, s], 0);
    R.RowsCommitted(FINDS, P.EMPTY, [p, s], 0);
    assert [p, p, s][0..] == [p, p, s] && [p, s][0..] == [p, s];
  }

  /** A run over whose lines the view commits nothing. */
  lemma NothingSent(sc: Scene, cx: Contexts, chunks: seq<Chunk>, lines: seq<P.Line>)
    requires sc.group.signature.width >= 2 && SameOrder(sc, chunks)
    requires Installed(sc, WATCHER, FINDS, ANY, cx) && Listings(sc, "requests", "k", "v") == 1
    requires lines
         == LinesOf(sc, WATCHER, ANY, Concat(Texts(chunks)), Stream.Run(sc.group.signature, Texts(chunks)).emitted)
    requires R.RowsOnly(P.Rows(FINDS, P.EMPTY, lines, 0)) == []
    ensures Ready(sc, chunks) && RowsFor(Feed(sc, cx, chunks).sent, WATCHER) == []
  {
    hide Installed, Enumerates, Listed, LinesOf, Stream.Run, Feed, P.Rows, P.Matches, P.Parse, Concat, Listings;
    var lost := PhrasesOfRun(sc, WATCHER, FINDS, ANY, cx, chunks);
    NoRows(sc, lost);
  }

  lemma LostChunks(ord: Order)
    requires Enumerates(ord)
    ensures var sc, chunks := LossScene(ord), [Chunk(FIRST, ord), Chunk(SECOND, ord)];
      sc.group.signature == HASHES && SameOrder(sc, chunks) && Texts(chunks) == [FIRST, SECOND]
  {
    LossReady(ord);
    LossApplies(ord, "");
  }

  /** Cut in two, the stream brings its watcher no row. */
  lemma RowLost(ord: Order)
    requires Enumerates(ord)
    ensures var sc, chunks := LossScene(ord), [Chunk(FIRST, ord), Chunk(SECOND, ord)];
      && Ready(sc, chunks) && Concat(Texts(chunks)) == WHOLE
      && RowsFor(Feed(sc, FRESH, chunks).sent, WATCHER) == []
  {
    LossReady(ord);
    LooseRun();
    LossLines(ord);
    LossRows();
    LostChunks(ord);
    hide LossScene, Installed, Enumerates, SameOrder, Listed, LinesOf, Stream.Run, Feed, P.Rows, Spans, Concat,
      Listings, Texts, Line,
         R.RowsOnly, Ready;
    NothingSent(LossScene(ord), FRESH, [Chunk(FIRST, ord), Chunk(SECOND, ord)], [Line("p"), Line("p"), Line("s")]);
  }

  lemma NoRows(sc: Scene, commits: seq<P.Commit>)
    requires R.RowsOnly(commits) == []
    ensures Kept(sc, WATCHER, RowsOf(commits)) == []
  {
    assert |commits| == |R.RowsOnly(commits)|;
  }

  /** In one piece it brings one. */
  lemma RowKept(ord: Order)
    requires Enumerates(ord)
    ensures var sc := LossScene(ord);
      Listed(sc) && |RowsFor(DispatchSpans(sc, FRESH, WHOLE, Spans(HASHES, WHOLE)).sent, WATCHER)| == 1
  {
    var sc, p, s := LossScene(ord), Line("p"), Line("s");
    LossReady(ord);
    LooseRun();
    LossLines(ord);
    LossRows();
    LossWants(ord);
    hide LossScene, Installed, Enumerates, Listed, Visits, Stream.Run, P.Rows, P.RowsRepeated, Spans, Concat, Listings,
         DispatchSpans;
    PhrasesSent(sc, WATCHER, FINDS, ANY, FRESH, WHOLE, [Span(4, 7), Span(7, 10)]);
    P.OnceIsRows(FINDS, P.EMPTY, [p, s], 0, 1);
    var rows := RowsOf(P.Rows(FINDS, P.EMPTY, [p, s], 0));
    assert rows == [rows[0]];
    KeptOne(sc, WATCHER, rows[0]);
  }

  lemma LossWants(ord: Order)
    ensures forall row :: Wants(LossScene(ord), "w", "k", "v", row)
  {}
}
