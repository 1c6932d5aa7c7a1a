/** One view among all that run: its context and its rows depend only on the entries it is given, in order. */
module ViewHistory {
  import opened Lua
  import opened Segmentation
  import opened Config
  import opened Dispatch
  import opened DispatchLaws

  /** One call of a view's formatter: the format and the entry it is given. */
  datatype Input = Input(format: string, entry: Entry)

  /** A view that keeps its history to itself, and a klass whose matcher keeps none. */
  ghost predicate Private(group: Group, k: string, v: string) {
    && k in group.klasses && v in group.klasses[k].views
    && (forall f, e, c :: group.klasses[k].matcher(f, e, c).accepts == Accepts(group, k, f, e))
    && (forall f, c, e, kc ::
          var r, r0 := group.klasses[k].views[v].formatter(f, c, e, kc),
            group.klasses[k].views[v].formatter(f, c, e, map[]);
          r.commit == r0.commit && r.row == r0.row && r.keepContext == r0.keepContext && r.context == r0.context)
  }

  /** The view's context, and the rows it has committed. */
  datatype History = History(context: Fields, rows: seq<Fields>)

  /** One call, the context emptied after a commit unless it is to be kept. */
  function Turn(view: View, h: History, input: Input): History {
    var r := view.formatter(input.format, h.context, input.entry, map[]);
    if r.commit && r.row.Some? then History(if r.keepContext then r.context else map[], h.rows + [r.row.value])
    else History(r.context, h.rows)
  }

  function Play(view: View, h: History, inputs: seq<Input>): History {
    if inputs == [] then h
    else Turn(view, Play(view, h, inputs[..|inputs| - 1]), inputs[|inputs| - 1])
  }

  lemma {:induction false} PlayConcat(view: View, h: History, inputs: seq<Input>, more: seq<Input>)
    ensures Play(view, h, inputs + more) == Play(view, Play(view, h, inputs), more)
  {
    if more == [] {
      assert inputs + more == inputs;
    } else {
      var n := |more| - 1;
      assert (inputs + more)[..|inputs| + n] == inputs + more[..n];
      PlayConcat(view, h, inputs, more[..n]);
    }
  }

  /** Rows committed before do not matter. */
  lemma {:induction false} PlayRows(view: View, context: Fields, rows: seq<Fields>, inputs: seq<Input>)
    ensures var h := Play(view, History(context, []), inputs);
      Play(view, History(context, rows), inputs) == History(h.context, rows + h.rows)
  {
    if inputs != [] { PlayRows(view, context, rows, inputs[..|inputs| - 1]); }
  }

  // ----- what one watcher gets of one view -----

  /** A watcher's interest in a view. */
  datatype Interest = Interest(w: string, k: string, v: string)

  function RowsFor(sent: seq<Delivery>, who: Interest): seq<Fields> {
    if sent == [] then []
    else
      var d := sent[|sent| - 1];
      RowsFor(sent[..|sent| - 1], who)
        + if d.watcher == who.w && d.klass == who.k && d.view == who.v then [d.row] else []
  }

  lemma {:induction false} RowsForConcat(sent: seq<Delivery>, more: seq<Delivery>, who: Interest)
    ensures RowsFor(sent + more, who) == RowsFor(sent, who) + RowsFor(more, who)
  {
    if more == [] {
      assert sent + more == sent;
    } else {
      var n := |more| - 1;
      assert (sent + more)[..|sent| + n] == sent + more[..n];
      RowsForConcat(sent, more[..n], who);
    }
  }

  /** The rows the watcher's subscription lets through. */
  function Kept(sc: Scene, who: Interest, rows: seq<Fields>): seq<Fields> {
    if rows == [] then []
    else
      var row := rows[|rows| - 1];
      Kept(sc, who, rows[..|rows| - 1]) + if Wants(sc, who.w, who.k, who.v, row) then [row] else []
  }

  lemma {:induction false} KeptConcat(sc: Scene, who: Interest, rows: seq<Fields>, more: seq<Fields>)
    ensures Kept(sc, who, rows + more) == Kept(sc, who, rows) + Kept(sc, who, more)
  {
    if more == [] {
      assert rows + more == rows;
    } else {
      var n := |more| - 1;
      assert (rows + more)[..|rows| + n] == rows + more[..n];
      KeptConcat(sc, who, rows, more[..n]);
    }
  }

  lemma {:induction false} RelaysRows(sc: Scene, f: string, k: string, v: string, row: Fields, ws: seq<string>,
                                      who: Interest)
    requires EachOnce(ws)
    ensures RowsFor(Relays(sc, f, k, v, row, ws), who)
         == if k == who.k && v == who.v && who.w in ws && Wants(sc, who.w, k, v, row) then [row] else []
  {
    if ws != [] {
      var n := |ws| - 1;
      EachOnceSplit(ws);
      RelaysRows(sc, f, k, v, row, ws[..n], who);
      var more := if Wants(sc, ws[n], k, v, row) then [Delivery(ws[n], sc.name, f, k, v, row)] else [];
      RowsForConcat(Relays(sc, f, k, v, row, ws[..n]), more, who);
      OneDelivery(Delivery(ws[n], sc.name, f, k, v, row), who);
    }
  }

  lemma OneDelivery(d: Delivery, who: Interest)
    ensures RowsFor([d], who) == if d.watcher == who.w && d.klass == who.k && d.view == who.v then [d.row] else []
  {
    assert [d][..0] == [];
  }

  // ----- the effect of running things on one view -----

  function Vid(sc: Scene, who: Interest): ViewId {
    ViewId(sc.name, who.k, who.v)
  }

  /** Running has the effect on the view of playing these inputs: on its context, and on what the watcher is sent. */
  ghost predicate Effect(sc: Scene, who: Interest, cx: Contexts, out: Outcome, inputs: seq<Input>)
    requires Private(sc.group, who.k, who.v)
  {
    var h := Play(sc.group.klasses[who.k].views[who.v], History(ViewContext(cx, Vid(sc, who)), []), inputs);
    ViewContext(out.cx, Vid(sc, who)) == h.context && RowsFor(out.sent, who) == Kept(sc, who, h.rows)
  }

  lemma NoEffect(sc: Scene, who: Interest, cx: Contexts)
    requires Private(sc.group, who.k, who.v)
    ensures Effect(sc, who, cx, Outcome(cx, []), [])
  {}

  lemma EffectConcat(sc: Scene, who: Interest, cx: Contexts, out: Outcome, out': Outcome, inputs: seq<Input>,
                     inputs': seq<Input>)
    requires Private(sc.group, who.k, who.v)
    requires Effect(sc, who, cx, out, inputs) && Effect(sc, who, out.cx, out', inputs')
    ensures Effect(sc, who, cx, Outcome(out'.cx, out.sent + out'.sent), inputs + inputs')
  {
    var view := sc.group.klasses[who.k].views[who.v];
    var h := Play(view, History(ViewContext(cx, Vid(sc, who)), []), inputs);
    PlayConcat(view, History(ViewContext(cx, Vid(sc, who)), []), inputs, inputs');
    PlayRows(view, h.context, h.rows, inputs');
    var h' := Play(view, History(h.context, []), inputs');
    RowsForConcat(out.sent, out'.sent, who);
    KeptConcat(sc, who, h.rows, h'.rows);
  }

  /** What the watcher is sent when a view commits a row. */
  lemma RelayedRows(sc: Scene, f: string, k: string, v: string, row: Fields, who: Interest)
    requires Enumerates(sc.ord)
    ensures RowsFor(Relays(sc, f, k, v, row, sc.ord(Subscriptions, sc.st.subs.Keys)), who)
         == if k == who.k && v == who.v then Kept(sc, who, [row]) else []
  {
    var ws := sc.ord(Subscriptions, sc.st.subs.Keys);
    forall x ensures multiset(ws)[x] <= 1 { EnumeratedOnce(sc.ord, Subscriptions, sc.st.subs.Keys, x); }
    EnumeratedOnce(sc.ord, Subscriptions, sc.st.subs.Keys, who.w);
    RelaysRows(sc, f, k, v, row, ws, who);
    KeptOne(sc, who, row);
  }

  lemma ViewEffect(sc: Scene, who: Interest, cx: Contexts, f: string, k: string, v: string, entry: Entry)
    requires Private(sc.group, who.k, who.v) && Enumerates(sc.ord)
    requires k in sc.group.klasses && v in sc.group.klasses[k].views
    ensures Effect(sc, who, cx, RunView(sc, cx, f, k, v, entry),
                   if k == who.k && v == who.v then [Input(f, entry)] else [])
  {
    if k == who.k && v == who.v {
      OwnEffect(sc, who, cx, f, entry);
    } else {
      OtherEffect(sc, who, cx, f, k, v, entry);
    }
  }

  lemma OwnEffect(sc: Scene, who: Interest, cx: Contexts, f: string, entry: Entry)
    requires Private(sc.group, who.k, who.v) && Enumerates(sc.ord)
    ensures Effect(sc, who, cx, RunView(sc, cx, f, who.k, who.v, entry), [Input(f, entry)])
  {
    var view := sc.group.klasses[who.k].views[who.v];
    var vid, kid := Vid(sc, who), KlassId(sc.name, who.k);
    var r, r0 := view.formatter(f, ViewContext(cx, vid), entry, KlassContext(cx, kid)),
      view.formatter(f, ViewContext(cx, vid), entry, map[]);
    assert r.commit == r0.commit && r.row == r0.row && r.keepContext == r0.keepContext && r.context == r0.context;
    OneTurn(view, History(ViewContext(cx, vid), []), Input(f, entry));
    if r.commit && r.row.Some? { RelayedRows(sc, f, who.k, who.v, r.row.value, who); }
    hide Private, Enumerates, Play, Kept, RowsFor, Relays;
    KeptNothing(sc, who);
  }

  lemma OtherEffect(sc: Scene, who: Interest, cx: Contexts, f: string, k: string, v: string, entry: Entry)
    requires Private(sc.group, who.k, who.v) && Enumerates(sc.ord)
    requires k in sc.group.klasses && v in sc.group.klasses[k].views && !(k == who.k && v == who.v)
    ensures Effect(sc, who, cx, RunView(sc, cx, f, k, v, entry), [])
  {
    OtherRows(sc, who, cx, f, k, v, entry);
    OtherContext(sc, who, cx, f, k, v, entry);
    hide Private, Enumerates, Kept, RowsFor, Relays, RunView;
    KeptNothing(sc, who);
  }

  lemma OtherRows(sc: Scene, who: Interest, cx: Contexts, f: string, k: string, v: string, entry: Entry)
    requires Enumerates(sc.ord) && k in sc.group.klasses && v in sc.group.klasses[k].views
    requires !(k == who.k && v == who.v)
    ensures RowsFor(RunView(sc, cx, f, k, v, entry).sent, who) == []
  {
    hide Enumerates, Relays;
    var r := sc.group.klasses[k].views[v].formatter(f, ViewContext(cx, ViewId(sc.name, k, v)), entry,
      KlassContext(cx, KlassId(sc.name, k)));
    if r.commit && r.row.Some? { RelayedRows(sc, f, k, v, r.row.value, who); }
  }

  lemma OtherContext(sc: Scene, who: Interest, cx: Contexts, f: string, k: string, v: string, entry: Entry)
    requires k in sc.group.klasses && v in sc.group.klasses[k].views && !(k == who.k && v == who.v)
    ensures ViewContext(RunView(sc, cx, f, k, v, entry).cx, Vid(sc, who)) == ViewContext(cx, Vid(sc, who))
  {
    hide Relays, Enumerates;
  }

  lemma KeptNothing(sc: Scene, who: Interest)
    ensures Kept(sc, who, []) == [] == RowsFor([], who)
  {}

  lemma OneTurn(view: View, h: History, input: Input)
    ensures Play(view, h, [input]) == Turn(view, h, input)
  {
    assert [input][..0] == [];
  }

  lemma KeptOne(sc: Scene, who: Interest, row: Fields)
    ensures Kept(sc, who, [row]) == if Wants(sc, who.w, who.k, who.v, row) then [row] else []
  {
    assert [row][..0] == [];
  }

  function Repeated(input: Input, n: nat): (inputs: seq<Input>)
    ensures |inputs| == n && forall i :: 0 <= i < n ==> inputs[i] == input
  {
    seq(n, _ => input)
  }

  lemma {:induction false} ViewsEffect(sc: Scene, who: Interest, cx: Contexts, f: string, k: string, vs: seq<string>,
                                       entry: Entry)
    requires Private(sc.group, who.k, who.v) && Enumerates(sc.ord)
    requires k in sc.group.klasses && forall v :: v in vs ==> v in sc.group.klasses[k].views
    ensures Effect(sc, who, cx, RunViews(sc, cx, f, k, vs, entry),
                   Repeated(Input(f, entry), if k == who.k then multiset(vs)[who.v] else 0))
  {
    hide Private, Effect, RunView, Enumerates;
    var input := Input(f, entry);
    if vs == [] {
      NoEffect(sc, who, cx);
    } else {
      var n := |vs| - 1;
      assert vs == vs[..n] + [vs[n]];
      ViewsEffect(sc, who, cx, f, k, vs[..n], entry);
      var before := RunViews(sc, cx, f, k, vs[..n], entry);
      ViewEffect(sc, who, before.cx, f, k, vs[n], entry);
      var m := if k == who.k then multiset(vs[..n])[who.v] else 0;
      var more := if k == who.k && vs[n] == who.v then [input] else [];
      EffectConcat(sc, who, cx, before, RunView(sc, before.cx, f, k, vs[n], entry), Repeated(input, m), more);
      assert Repeated(input, m) + more == Repeated(input, m + |more|);
    }
  }

  /** The calls a format makes of the view: if its klass is tried and accepts, one for each listing. */
  function Inputs(sc: Scene, who: Interest, f: string, entry: Entry): seq<Input>
    requires who.k in sc.group.klasses
  {
    Repeated(Input(f, entry),
             if Tried(sc, f, who.k) && Accepts(sc.group, who.k, f, entry) then Listings(sc, f, who.k, who.v) else 0)
  }

  lemma KlassEffect(sc: Scene, who: Interest, cx: Contexts, f: string, k: string, entry: Entry)
    requires Private(sc.group, who.k, who.v) && Enumerates(sc.ord) && Listed(sc) && k in sc.group.klasses
    requires k == who.k ==> Tried(sc, f, k)
    ensures Effect(sc, who, cx, RunKlass(sc, cx, f, k, entry), if k == who.k then Inputs(sc, who, f, entry) else [])
  {
    var m := sc.group.klasses[k].matcher(f, entry, KlassContext(cx, KlassId(sc.name, k)));
    var cx' := cx.(klasses := cx.klasses[KlassId(sc.name, k) := m.klassContext]);
    assert k == who.k ==> m.accepts == Accepts(sc.group, k, f, entry);
    NoEffect(sc, who, cx');
    ViewsEffect(sc, who, cx', f, k, ViewList(sc, f, k), entry);
    TriedIsListed(sc, f, k, who.v);
    hide Private, Enumerates, Listed, Play, RowsFor, Kept;
    assert ViewContext(cx', Vid(sc, who)) == ViewContext(cx, Vid(sc, who));
    assert Repeated(Input(f, entry), 0) == [];
  }

  lemma {:induction false} KlassesEffect(sc: Scene, who: Interest, cx: Contexts, f: string, ks: seq<string>,
                                         entry: Entry)
    requires Private(sc.group, who.k, who.v) && Enumerates(sc.ord) && Listed(sc) && EachOnce(ks)
    requires forall k :: k in ks ==> k in sc.group.klasses && Tried(sc, f, k)
    requires who.k in sc.group.klasses
    ensures Effect(sc, who, cx, RunKlasses(sc, cx, f, ks, entry), if who.k in ks then Inputs(sc, who, f, entry) else [])
  {
    hide Private, Effect, RunKlass, Enumerates, Inputs, Tried, EachOnce, Listed;
    if ks == [] {
      NoEffect(sc, who, cx);
    } else {
      var n := |ks| - 1;
      EachOnceSplit(ks);
      KlassesEffect(sc, who, cx, f, ks[..n], entry);
      var before := RunKlasses(sc, cx, f, ks[..n], entry);
      KlassEffect(sc, who, before.cx, f, ks[n], entry);
      var inputs := if who.k in ks[..n] then Inputs(sc, who, f, entry) else [];
      var more := if ks[n] == who.k then Inputs(sc, who, f, entry) else [];
      EffectConcat(sc, who, cx, before, RunKlass(sc, before.cx, f, ks[n], entry), inputs, more);
      assert inputs + [] == inputs && [] + more == more;
    }
  }

  /** The calls made on one record: by each format that reads it, on the entry as filled so far. */
  function RecordInputs(sc: Scene, who: Interest, fs: seq<string>, rec: Record): seq<Input>
    requires who.k in sc.group.klasses && forall f :: f in fs ==> f in sc.group.formats
  {
    if fs == [] then []
    else
      var n := |fs| - 1;
      RecordInputs(sc, who, fs[..n], rec) + Inputs(sc, who, fs[n], Entry(rec.raw, FieldsAfter(sc.group, fs, rec)))
  }

  lemma FormatEffect(sc: Scene, who: Interest, cx: Contexts, f: string, entry: Entry)
    requires Private(sc.group, who.k, who.v) && Enumerates(sc.ord) && Listed(sc) && who.k in sc.group.klasses
    ensures Effect(sc, who, cx, RunKlasses(sc, cx, f, KlassList(sc, f), entry), Inputs(sc, who, f, entry))
  {
    hide Private, Effect, RunKlasses;
    var ks := KlassList(sc, f);
    KlassListOnce(sc, f);
    forall k | k in ks ensures Tried(sc, f, k) { TriedIsListed(sc, f, k, ""); }
    TriedIsListed(sc, f, who.k, who.v);
    KlassesEffect(sc, who, cx, f, ks, entry);
    assert Repeated(Input(f, entry), 0) == [];
  }

  lemma {:induction false} FormatsEffect(sc: Scene, who: Interest, cx: Contexts, fs: seq<string>, rec: Record)
    requires Private(sc.group, who.k, who.v) && Enumerates(sc.ord) && Listed(sc) && who.k in sc.group.klasses
    requires forall f :: f in fs ==> f in sc.group.formats
    ensures Effect(sc, who, cx, RunFormats(sc, cx, fs, rec), RecordInputs(sc, who, fs, rec))
  {
    hide Private, Effect, RunKlasses, KlassList, Enumerates, Inputs, FieldsAfter;
    if fs == [] {
      NoEffect(sc, who, cx);
    } else {
      var n := |fs| - 1;
      FormatsEffect(sc, who, cx, fs[..n], rec);
      var before := RunFormats(sc, cx, fs[..n], rec);
      var entry := Entry(rec.raw, FieldsAfter(sc.group, fs, rec));
      FormatEffect(sc, who, before.cx, fs[n], entry);
      EffectConcat(sc, who, cx, before, RunKlasses(sc, before.cx, fs[n], KlassList(sc, fs[n]), entry),
                   RecordInputs(sc, who, fs[..n], rec), Inputs(sc, who, fs[n], entry));
    }
  }

  /** The calls made on a list of spans. */
  function AllInputs(sc: Scene, who: Interest, text: string, spans: seq<Span>): seq<Input>
    requires who.k in sc.group.klasses && Enumerates(sc.ord)
  {
    if spans == [] then []
    else
      var n := |spans| - 1;
      var rec := RecordOf(sc.group.signature, text, spans[n]);
      FormatListKnown(sc, rec.raw);
      AllInputs(sc, who, text, spans[..n]) + RecordInputs(sc, who, FormatList(sc, rec.raw), rec)
  }

  /** Whatever else runs between, a view's context and what a watcher is sent of it are those of the view run alone
      on its inputs, in order. */
  lemma {:induction false} SpansEffect(sc: Scene, who: Interest, cx: Contexts, text: string, spans: seq<Span>)
    requires Private(sc.group, who.k, who.v) && Enumerates(sc.ord) && Listed(sc) && who.k in sc.group.klasses
    ensures Effect(sc, who, cx, DispatchSpans(sc, cx, text, spans), AllInputs(sc, who, text, spans))
  {
    hide Private, Effect, RunFormats, Enumerates, RecordInputs, FormatList, Listed, RecordOf;
    if spans == [] {
      NoEffect(sc, who, cx);
    } else {
      var n := |spans| - 1;
      var rec := RecordOf(sc.group.signature, text, spans[n]);
      SpansEffect(sc, who, cx, text, spans[..n]);
      var before := DispatchSpans(sc, cx, text, spans[..n]);
      FormatListKnown(sc, rec.raw);
      FormatsEffect(sc, who, before.cx, FormatList(sc, rec.raw), rec);
      EffectConcat(sc, who, cx, before, DispatchRecord(sc, before.cx, rec), AllInputs(sc, who, text, spans[..n]),
                   RecordInputs(sc, who, FormatList(sc, rec.raw), rec));
    }
  }
}
