/** One klass among all that run: its matcher and the formatters of its views hand one context on from call to call. */
module KlassHistory {
  import opened Lua
  import opened Segmentation
  import opened Config
  import opened Registry
  import opened Dispatch
  import opened DispatchLaws

  // ----- the klass run alone -----

  /** The klass's context and those of its views. */
  datatype Memory = Memory(context: Fields, views: map<string, Fields>)

  /** A row one of its views has committed. */
  datatype Committed = Committed(format: string, view: string, row: Fields)

  datatype Played = Played(memory: Memory, commits: seq<Committed>)

  /** A format gives the klass an entry, with the views to run if its matcher accepts. */
  datatype Call = Call(format: string, entry: Entry, views: seq<string>)

  ghost predicate Fits(klass: Klass, m: Memory, views: seq<string>) {
    m.views.Keys == klass.views.Keys && forall v :: v in views ==> v in klass.views
  }

  /** One view: its formatter is given the view's context and the klass's, and leaves both; the view's is emptied after
      a commit unless it is to be kept. */
  function FormatOne(klass: Klass, m: Memory, format: string, view: string, entry: Entry): Played
    requires Fits(klass, m, [view]) && view in klass.views
  {
    var r := klass.views[view].formatter(format, m.views[view], entry, m.context);
    if r.commit && r.row.Some? then
      Played(Memory(r.klassContext, m.views[view := if r.keepContext then r.context else map[]]),
             [Committed(format, view, r.row.value)])
    else Played(Memory(r.klassContext, m.views[view := r.context]), [])
  }

  function FormatEach(klass: Klass, m: Memory, format: string, views: seq<string>, entry: Entry): (p: Played)
    requires Fits(klass, m, views)
    ensures p.memory.views.Keys == klass.views.Keys
  {
    if views == [] then Played(m, [])
    else
      var n := |views| - 1;
      var before := FormatEach(klass, m, format, views[..n], entry);
      var last := FormatOne(klass, before.memory, format, views[n], entry);
      Played(last.memory, before.commits + last.commits)
  }

  /** The matcher is asked first, with the klass's context. */
  function Ask(klass: Klass, m: Memory, call: Call): (p: Played)
    requires Fits(klass, m, call.views)
    ensures p.memory.views.Keys == klass.views.Keys
  {
    var answer := klass.matcher(call.format, call.entry, m.context);
    var asked := m.(context := answer.klassContext);
    if answer.accepts then FormatEach(klass, asked, call.format, call.views, call.entry) else Played(asked, [])
  }

  ghost predicate AllFit(klass: Klass, calls: seq<Call>) {
    forall i, v :: 0 <= i < |calls| && v in calls[i].views ==> v in klass.views
  }

  function Play(klass: Klass, m: Memory, calls: seq<Call>): (p: Played)
    requires m.views.Keys == klass.views.Keys && AllFit(klass, calls)
    ensures p.memory.views.Keys == klass.views.Keys
  {
    if calls == [] then Played(m, [])
    else
      var n := |calls| - 1;
      var before := Play(klass, m, calls[..n]);
      var last := Ask(klass, before.memory, calls[n]);
      Played(last.memory, before.commits + last.commits)
  }

  lemma {:induction false} PlayConcat(klass: Klass, m: Memory, calls: seq<Call>, more: seq<Call>)
    requires m.views.Keys == klass.views.Keys && AllFit(klass, calls) && AllFit(klass, more)
    ensures AllFit(klass, calls + more)
    ensures var p := Play(klass, m, calls);
      var q := Play(klass, p.memory, more);
      Play(klass, m, calls + more) == Played(q.memory, p.commits + q.commits)
  {
    hide Ask;
    if more == [] {
      assert calls + more == calls;
    } else {
      var n := |more| - 1;
      assert (calls + more)[..|calls| + n] == calls + more[..n] && (calls + more)[|calls| + n] == more[n];
      PlayConcat(klass, m, calls, more[..n]);
    }
  }

  // ----- the klass among the others -----

  /** What the contexts hold for the klass. */
  function Held(sc: Scene, k: string, cx: Contexts): Memory
    requires k in sc.group.klasses
  {
    Memory(KlassContext(cx, KlassId(sc.name, k)),
           map v | v in sc.group.klasses[k].views :: ViewContext(cx, ViewId(sc.name, k, v)))
  }

  function OfKlass(sent: seq<Delivery>, k: string): seq<Delivery> {
    if sent == [] then []
    else
      var d := sent[|sent| - 1];
      OfKlass(sent[..|sent| - 1], k) + if d.klass == k then [d] else []
  }

  lemma {:induction false} OfKlassConcat(sent: seq<Delivery>, more: seq<Delivery>, k: string)
    ensures OfKlass(sent + more, k) == OfKlass(sent, k) + OfKlass(more, k)
  {
    if more == [] {
      assert sent + more == sent;
    } else {
      var n := |more| - 1;
      assert (sent + more)[..|sent| + n] == sent + more[..n];
      OfKlassConcat(sent, more[..n], k);
    }
  }

  /** The messages that committed rows lead to. */
  function Relayed(sc: Scene, k: string, commits: seq<Committed>): seq<Delivery> {
    if commits == [] then []
    else
      var c := commits[|commits| - 1];
      Relayed(sc, k, commits[..|commits| - 1])
        + Relays(sc, c.format, k, c.view, c.row, sc.ord(Subscriptions, sc.st.subs.Keys))
  }

  lemma {:induction false} RelayedConcat(sc: Scene, k: string, commits: seq<Committed>, more: seq<Committed>)
    ensures Relayed(sc, k, commits + more) == Relayed(sc, k, commits) + Relayed(sc, k, more)
  {
    if more == [] {
      assert commits + more == commits;
    } else {
      var n := |more| - 1;
      assert (commits + more)[..|commits| + n] == commits + more[..n];
      RelayedConcat(sc, k, commits, more[..n]);
    }
  }

  lemma {:induction false} RelaysOfKlass(sc: Scene, f: string, k: string, v: string, row: Fields, ws: seq<string>,
                                         k': string)
    ensures OfKlass(Relays(sc, f, k, v, row, ws), k') == if k == k' then Relays(sc, f, k, v, row, ws) else []
  {
    if ws != [] {
      var n := |ws| - 1;
      RelaysOfKlass(sc, f, k, v, row, ws[..n], k');
      var more := if Wants(sc, ws[n], k, v, row) then [Delivery(ws[n], sc.name, f, k, v, row)] else [];
      OfKlassConcat(Relays(sc, f, k, v, row, ws[..n]), more, k');
      assert more != [] ==> more[..0] == [];
    }
  }

  /** Running has this effect on the klass: on what is held for it, and on the messages its views cause. */
  ghost predicate Effect(sc: Scene, k: string, out: Outcome, p: Played)
    requires k in sc.group.klasses
  {
    Held(sc, k, out.cx) == p.memory && OfKlass(out.sent, k) == Relayed(sc, k, p.commits)
  }

  lemma NoEffect(sc: Scene, k: string, cx: Contexts)
    requires k in sc.group.klasses
    ensures Effect(sc, k, Outcome(cx, []), Played(Held(sc, k, cx), []))
  {}

  lemma EffectThen(sc: Scene, k: string, out: Outcome, p: Played, out': Outcome, p': Played)
    requires k in sc.group.klasses && Effect(sc, k, out, p) && Effect(sc, k, out', p')
    ensures Effect(sc, k, Outcome(out'.cx, out.sent + out'.sent), Played(p'.memory, p.commits + p'.commits))
  {
    OfKlassConcat(out.sent, out'.sent, k);
    RelayedConcat(sc, k, p.commits, p'.commits);
  }

  // ----- views -----

  /** What a formatter returns, and what is sent of it. */
  lemma ViewOutcome(sc: Scene, cx: Contexts, f: string, k: string, v: string, entry: Entry)
    requires k in sc.group.klasses && v in sc.group.klasses[k].views
    ensures var vid, kid := ViewId(sc.name, k, v), KlassId(sc.name, k);
      var r := sc.group.klasses[k].views[v].formatter(f, ViewContext(cx, vid), entry, KlassContext(cx, kid));
      var out := RunView(sc, cx, f, k, v, entry);
      && out.cx.klasses == cx.klasses[kid := r.klassContext]
      && out.cx.views == cx.views[vid := if r.commit && r.row.Some? && !r.keepContext then map[] else r.context]
      && out.sent == if r.commit && r.row.Some? then Relayed(sc, k, [Committed(f, v, r.row.value)]) else []
  {
    var r := sc.group.klasses[k].views[v].formatter(f, ViewContext(cx, ViewId(sc.name, k, v)), entry,
                                                    KlassContext(cx, KlassId(sc.name, k)));
    if r.commit && r.row.Some? {
      var c := Committed(f, v, r.row.value);
      hide Relays;
      assert [c][..0] == [];
      assert Relayed(sc, k, [c][..0]) == [];
    }
  }

  lemma HeldChanges(sc: Scene, k: string, cx: Contexts, cx': Contexts, k': string, v: string, context: Fields,
                    klassContext: Fields)
    requires k in sc.group.klasses && k' in sc.group.klasses && v in sc.group.klasses[k'].views
    requires cx' == Contexts(cx.views[ViewId(sc.name, k', v) := context],
                             cx.klasses[KlassId(sc.name, k') := klassContext])
    ensures Held(sc, k, cx') == if k == k' then Memory(klassContext, Held(sc, k, cx).views[v := context])
                                else Held(sc, k, cx)
  {
    if k == k' {
      assert Held(sc, k, cx').views == Held(sc, k, cx).views[v := context];
    } else {
      assert Held(sc, k, cx').views == Held(sc, k, cx).views;
    }
  }

  lemma OneRelayed(sc: Scene, k: string, c: Committed, k': string)
    ensures OfKlass(Relayed(sc, k, [c]), k') == if k == k' then Relayed(sc, k, [c]) else []
  {
    assert [c][..0] == [];
    assert Relayed(sc, k, [c]) == Relays(sc, c.format, k, c.view, c.row, sc.ord(Subscriptions, sc.st.subs.Keys)) by {
      assert Relayed(sc, k, [c][..0]) == [];
    }
    RelaysOfKlass(sc, c.format, k, c.view, c.row, sc.ord(Subscriptions, sc.st.subs.Keys), k');
  }

  lemma NothingRelayed(sc: Scene, k: string)
    ensures OfKlass([], k) == [] == Relayed(sc, k, [])
  {}

  lemma OwnView(sc: Scene, k: string, cx: Contexts, f: string, v: string, entry: Entry)
    requires k in sc.group.klasses && v in sc.group.klasses[k].views
    ensures Effect(sc, k, RunView(sc, cx, f, k, v, entry),
                   FormatOne(sc.group.klasses[k], Held(sc, k, cx), f, v, entry))
  {
    var klass, m, out := sc.group.klasses[k], Held(sc, k, cx), RunView(sc, cx, f, k, v, entry);
    var r := klass.views[v].formatter(f, m.views[v], entry, m.context);
    ViewOutcome(sc, cx, f, k, v, entry);
    hide RunView, Relayed, OfKlass;
    HeldChanges(sc, k, cx, out.cx, k, v,
                if r.commit && r.row.Some? && !r.keepContext then map[] else r.context, r.klassContext);
    NothingRelayed(sc, k);
    if r.commit && r.row.Some? { OneRelayed(sc, k, Committed(f, v, r.row.value), k); }
  }

  lemma OtherView(sc: Scene, k: string, cx: Contexts, f: string, k': string, v: string, entry: Entry)
    requires k in sc.group.klasses && k' in sc.group.klasses && v in sc.group.klasses[k'].views && k' != k
    ensures Effect(sc, k, RunView(sc, cx, f, k', v, entry), Played(Held(sc, k, cx), []))
  {
    var out := RunView(sc, cx, f, k', v, entry);
    var r := sc.group.klasses[k'].views[v].formatter(f, ViewContext(cx, ViewId(sc.name, k', v)), entry,
                                                     KlassContext(cx, KlassId(sc.name, k')));
    ViewOutcome(sc, cx, f, k', v, entry);
    hide RunView, Relayed, OfKlass;
    HeldChanges(sc, k, cx, out.cx, k', v,
                if r.commit && r.row.Some? && !r.keepContext then map[] else r.context, r.klassContext);
    NothingRelayed(sc, k);
    if r.commit && r.row.Some? { OneRelayed(sc, k', Committed(f, v, r.row.value), k); }
  }

  lemma {:induction false} OwnViews(sc: Scene, k: string, cx: Contexts, f: string, vs: seq<string>, entry: Entry)
    requires k in sc.group.klasses && forall v :: v in vs ==> v in sc.group.klasses[k].views
    ensures Effect(sc, k, RunViews(sc, cx, f, k, vs, entry),
                   FormatEach(sc.group.klasses[k], Held(sc, k, cx), f, vs, entry))
  {
    hide RunView, FormatOne, Relays;
    if vs == [] {
      NoEffect(sc, k, cx);
    } else {
      var n, klass := |vs| - 1, sc.group.klasses[k];
      OwnViews(sc, k, cx, f, vs[..n], entry);
      var before := RunViews(sc, cx, f, k, vs[..n], entry);
      var p := FormatEach(klass, Held(sc, k, cx), f, vs[..n], entry);
      OwnView(sc, k, before.cx, f, vs[n], entry);
      hide Held, OfKlass, Relayed;
      EffectThen(sc, k, before, p, RunView(sc, before.cx, f, k, vs[n], entry),
                 FormatOne(klass, p.memory, f, vs[n], entry));
    }
  }

  lemma {:induction false} OtherViews(sc: Scene, k: string, cx: Contexts, f: string, k': string, vs: seq<string>,
                                      entry: Entry)
    requires k in sc.group.klasses && k' in sc.group.klasses && k' != k
    requires forall v :: v in vs ==> v in sc.group.klasses[k'].views
    ensures Effect(sc, k, RunViews(sc, cx, f, k', vs, entry), Played(Held(sc, k, cx), []))
  {
    hide RunView, Held, OfKlass, Relayed;
    if vs == [] {
      NoEffect(sc, k, cx);
    } else {
      var n := |vs| - 1;
      OtherViews(sc, k, cx, f, k', vs[..n], entry);
      var before := RunViews(sc, cx, f, k', vs[..n], entry);
      OtherView(sc, k, before.cx, f, k', vs[n], entry);
      EffectThen(sc, k, before, Played(Held(sc, k, cx), []), RunView(sc, before.cx, f, k', vs[n], entry),
                 Played(Held(sc, k, before.cx), []));
      var none: seq<Committed> := [];
      assert none + none == none;
    }
  }

  // ----- klasses -----

  lemma OwnKlass(sc: Scene, k: string, cx: Contexts, f: string, entry: Entry)
    requires Listed(sc) && k in sc.group.klasses
    ensures Effect(sc, k, RunKlass(sc, cx, f, k, entry),
                   Ask(sc.group.klasses[k], Held(sc, k, cx), Call(f, entry, ViewList(sc, f, k))))
  {
    var klass, kid := sc.group.klasses[k], KlassId(sc.name, k);
    var answer := klass.matcher(f, entry, KlassContext(cx, kid));
    var cx' := cx.(klasses := cx.klasses[kid := answer.klassContext]);
    hide FormatEach, RunViews, ViewList, Relayed, OfKlass;
    assert Held(sc, k, cx') == Held(sc, k, cx).(context := answer.klassContext);
    NoEffect(sc, k, cx');
    OwnViews(sc, k, cx', f, ViewList(sc, f, k), entry);
  }

  lemma OtherKlass(sc: Scene, k: string, cx: Contexts, f: string, k': string, entry: Entry)
    requires Listed(sc) && k in sc.group.klasses && k' in sc.group.klasses && k' != k
    ensures Effect(sc, k, RunKlass(sc, cx, f, k', entry), Played(Held(sc, k, cx), []))
  {
    var kid := KlassId(sc.name, k');
    var answer := sc.group.klasses[k'].matcher(f, entry, KlassContext(cx, kid));
    var cx' := cx.(klasses := cx.klasses[kid := answer.klassContext]);
    hide RunViews, ViewList, Relayed, OfKlass;
    assert Held(sc, k, cx') == Held(sc, k, cx);
    NoEffect(sc, k, cx');
    OtherViews(sc, k, cx', f, k', ViewList(sc, f, k'), entry);
  }

  /** The calls a format makes of the klass: one, if the klass is tried on it. */
  function Calls(sc: Scene, k: string, f: string, ks: seq<string>, entry: Entry): seq<Call>
    requires k in sc.group.klasses
  {
    if k in ks then [Call(f, entry, ViewList(sc, f, k))] else []
  }

  lemma OneCall(klass: Klass, m: Memory, call: Call)
    requires Fits(klass, m, call.views)
    ensures AllFit(klass, [call]) && Play(klass, m, [call]) == Ask(klass, m, call)
  {
    assert [call][..0] == [];
    assert Played(Ask(klass, m, call).memory, [] + Ask(klass, m, call).commits) == Ask(klass, m, call);
  }

  lemma CallsFit(sc: Scene, k: string, f: string, ks: seq<string>, entry: Entry)
    requires Listed(sc) && k in sc.group.klasses
    ensures AllFit(sc.group.klasses[k], Calls(sc, k, f, ks, entry))
  {}

  lemma {:induction false} KlassesEffect(sc: Scene, k: string, cx: Contexts, f: string, ks: seq<string>, entry: Entry)
    requires Listed(sc) && k in sc.group.klasses && EachOnce(ks)
    requires forall k' :: k' in ks ==> k' in sc.group.klasses
    ensures AllFit(sc.group.klasses[k], Calls(sc, k, f, ks, entry))
    ensures Effect(sc, k, RunKlasses(sc, cx, f, ks, entry),
                   Play(sc.group.klasses[k], Held(sc, k, cx), Calls(sc, k, f, ks, entry)))
  {
    var klass := sc.group.klasses[k];
    CallsFit(sc, k, f, ks, entry);
    if ks == [] {
      NoEffect(sc, k, cx);
    } else {
      var n := |ks| - 1;
      EachOnceSplit(ks);
      KlassesEffect(sc, k, cx, f, ks[..n], entry);
      var before := RunKlasses(sc, cx, f, ks[..n], entry);
      var calls := Calls(sc, k, f, ks[..n], entry);
      var p := Play(klass, Held(sc, k, cx), calls);
      var last := RunKlass(sc, before.cx, f, ks[n], entry);
      if ks[n] == k {
        OwnKlass(sc, k, before.cx, f, entry);
        OneCall(klass, p.memory, Call(f, entry, ViewList(sc, f, k)));
        hide RunKlass, Ask, OfKlass, Relayed, Held, Listed, EachOnce, ViewList;
        EffectThen(sc, k, before, p, last, Ask(klass, p.memory, Call(f, entry, ViewList(sc, f, k))));
      } else {
        OtherKlass(sc, k, before.cx, f, ks[n], entry);
        hide RunKlass, Ask, OfKlass, Relayed, Held, Listed, EachOnce, ViewList;
        EffectThen(sc, k, before, p, last, Played(Held(sc, k, before.cx), []));
        assert p.commits + [] == p.commits;
      }
    }
  }

  // ----- records -----

  /** The calls made on one record: by each format that reads it and tries the klass, on the entry as filled so far. */
  function RecordCalls(sc: Scene, k: string, fs: seq<string>, rec: Record): seq<Call>
    requires k in sc.group.klasses && forall f :: f in fs ==> f in sc.group.formats
  {
    if fs == [] then []
    else
      var n := |fs| - 1;
      RecordCalls(sc, k, fs[..n], rec)
        + Calls(sc, k, fs[n], KlassList(sc, fs[n]), Entry(rec.raw, FieldsAfter(sc.group, fs, rec)))
  }

  lemma {:induction false} FormatsEffect(sc: Scene, k: string, cx: Contexts, fs: seq<string>, rec: Record)
    requires Enumerates(sc.ord) && Listed(sc) && k in sc.group.klasses
    requires forall f :: f in fs ==> f in sc.group.formats
    ensures AllFit(sc.group.klasses[k], RecordCalls(sc, k, fs, rec))
    ensures Effect(sc, k, RunFormats(sc, cx, fs, rec),
                   Play(sc.group.klasses[k], Held(sc, k, cx), RecordCalls(sc, k, fs, rec)))
  {
    hide RunKlasses, KlassList, FieldsAfter, Calls, Ask, Enumerates;
    if fs == [] {
      NoEffect(sc, k, cx);
    } else {
      var n, klass := |fs| - 1, sc.group.klasses[k];
      var entry := Entry(rec.raw, FieldsAfter(sc.group, fs, rec));
      FormatsEffect(sc, k, cx, fs[..n], rec);
      KlassListOnce(sc, fs[n]);
      var before := RunFormats(sc, cx, fs[..n], rec);
      var calls, more := RecordCalls(sc, k, fs[..n], rec), Calls(sc, k, fs[n], KlassList(sc, fs[n]), entry);
      KlassesEffect(sc, k, before.cx, fs[n], KlassList(sc, fs[n]), entry);
      var p := Play(klass, Held(sc, k, cx), calls);
      PlayConcat(klass, Held(sc, k, cx), calls, more);
      hide OfKlass, Relayed, Held, Listed, Play;
      EffectThen(sc, k, before, p, RunKlasses(sc, before.cx, fs[n], KlassList(sc, fs[n]), entry),
                 Play(klass, p.memory, more));
    }
  }

  /** The calls made on a list of spans. */
  function AllCalls(sc: Scene, k: string, text: string, spans: seq<Span>): seq<Call>
    requires k in sc.group.klasses && Enumerates(sc.ord)
  {
    if spans == [] then []
    else
      var n := |spans| - 1;
      var rec := RecordOf(sc.group.signature, text, spans[n]);
      FormatListKnown(sc, rec.raw);
      AllCalls(sc, k, text, spans[..n]) + RecordCalls(sc, k, FormatList(sc, rec.raw), rec)
  }

  /** Whatever else runs between: what is held for a klass and its views, and the messages they cause, are those of the
      klass run alone on its calls, each matcher and formatter given the klass context the one before it left. */
  lemma {:induction false} KlassRunsAlone(sc: Scene, k: string, cx: Contexts, text: string, spans: seq<Span>)
    requires Enumerates(sc.ord) && Listed(sc) && k in sc.group.klasses
    ensures AllFit(sc.group.klasses[k], AllCalls(sc, k, text, spans))
    ensures Effect(sc, k, DispatchSpans(sc, cx, text, spans),
                   Play(sc.group.klasses[k], Held(sc, k, cx), AllCalls(sc, k, text, spans)))
  {
    hide RunFormats, Enumerates, RecordCalls, FormatList, RecordOf, Ask, Listed;
    if spans == [] {
      NoEffect(sc, k, cx);
    } else {
      var n, klass := |spans| - 1, sc.group.klasses[k];
      var rec := RecordOf(sc.group.signature, text, spans[n]);
      KlassRunsAlone(sc, k, cx, text, spans[..n]);
      var before := DispatchSpans(sc, cx, text, spans[..n]);
      FormatListKnown(sc, rec.raw);
      var calls, more := AllCalls(sc, k, text, spans[..n]), RecordCalls(sc, k, FormatList(sc, rec.raw), rec);
      FormatsEffect(sc, k, before.cx, FormatList(sc, rec.raw), rec);
      var p := Play(klass, Held(sc, k, cx), calls);
      PlayConcat(klass, Held(sc, k, cx), calls, more);
      hide OfKlass, Relayed, Held, Play;
      EffectThen(sc, k, before, p, DispatchRecord(sc, before.cx, rec), Play(klass, p.memory, more));
    }
  }

  // ----- other groups -----

  /** What is held for other groups is as it was. */
  ghost predicate ElsewhereSame(sc: Scene, cx: Contexts, cx': Contexts) {
    && (forall id: ViewId :: id.group != sc.name ==> ViewContext(cx', id) == ViewContext(cx, id))
    && (forall id: KlassId :: id.group != sc.name ==> KlassContext(cx', id) == KlassContext(cx, id))
  }

  lemma {:induction false} ViewsStay(sc: Scene, cx: Contexts, f: string, k: string, vs: seq<string>, entry: Entry)
    requires k in sc.group.klasses && forall v :: v in vs ==> v in sc.group.klasses[k].views
    ensures ElsewhereSame(sc, cx, RunViews(sc, cx, f, k, vs, entry).cx)
  {
    if vs != [] {
      var n := |vs| - 1;
      ViewsStay(sc, cx, f, k, vs[..n], entry);
      ViewOutcome(sc, RunViews(sc, cx, f, k, vs[..n], entry).cx, f, k, vs[n], entry);
      hide RunView, Relayed;
    }
  }

  lemma {:induction false} KlassesStay(sc: Scene, cx: Contexts, f: string, ks: seq<string>, entry: Entry)
    requires Listed(sc) && forall k :: k in ks ==> k in sc.group.klasses
    ensures ElsewhereSame(sc, cx, RunKlasses(sc, cx, f, ks, entry).cx)
  {
    if ks != [] {
      var n := |ks| - 1;
      KlassesStay(sc, cx, f, ks[..n], entry);
      KlassStays(sc, RunKlasses(sc, cx, f, ks[..n], entry).cx, f, ks[n], entry);
      hide RunKlass, Listed;
    }
  }

  lemma KlassStays(sc: Scene, cx: Contexts, f: string, k: string, entry: Entry)
    requires Listed(sc) && k in sc.group.klasses
    ensures ElsewhereSame(sc, cx, RunKlass(sc, cx, f, k, entry).cx)
  {
    var answer := sc.group.klasses[k].matcher(f, entry, KlassContext(cx, KlassId(sc.name, k)));
    var cx' := cx.(klasses := cx.klasses[KlassId(sc.name, k) := answer.klassContext]);
    hide RunViews, ViewList;
    ViewsStay(sc, cx', f, k, ViewList(sc, f, k), entry);
  }

  lemma {:induction false} FormatsStay(sc: Scene, cx: Contexts, fs: seq<string>, rec: Record)
    requires Listed(sc) && forall f :: f in fs ==> f in sc.group.formats
    ensures ElsewhereSame(sc, cx, RunFormats(sc, cx, fs, rec).cx)
  {
    hide RunKlasses, KlassList, FieldsAfter;
    if fs != [] {
      var n := |fs| - 1;
      FormatsStay(sc, cx, fs[..n], rec);
      KlassesStay(sc, RunFormats(sc, cx, fs[..n], rec).cx, fs[n], KlassList(sc, fs[n]),
                  Entry(rec.raw, FieldsAfter(sc.group, fs, rec)));
    }
  }

  /** Handling one group's records leaves what is held for the others alone. */
  lemma {:induction false} OtherGroupsStay(sc: Scene, cx: Contexts, text: string, spans: seq<Span>)
    requires Enumerates(sc.ord) && Listed(sc)
    ensures ElsewhereSame(sc, cx, DispatchSpans(sc, cx, text, spans).cx)
  {
    hide RunFormats, Enumerates, FormatList, RecordOf, Listed;
    if spans != [] {
      var n := |spans| - 1;
      var rec := RecordOf(sc.group.signature, text, spans[n]);
      OtherGroupsStay(sc, cx, text, spans[..n]);
      FormatListKnown(sc, rec.raw);
      FormatsStay(sc, DispatchSpans(sc, cx, text, spans[..n]).cx, FormatList(sc, rec.raw), rec);
    }
  }
}
