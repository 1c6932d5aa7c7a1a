/** A whole stream through the engine while subscriptions stay put: what the watchers receive does not depend on the
    chunking. */
module EndToEnd {
  import opened Segmentation
  import opened Stream
  import opened Config
  import opened Registry
  import opened RegistryInvariant
  import opened Dispatch
  import opened DispatchLaws
  import opened ScanLaws

  /** A chunk, and the orders in which `pairs` runs while it is handled. */
  datatype Chunk = Chunk(text: string, ord: Order)

  datatype Fed = Fed(leftovers: string, cx: Contexts, sent: seq<Delivery>)

  function Texts(chunks: seq<Chunk>): seq<string> {
    seq(|chunks|, i requires 0 <= i < |chunks| => chunks[i].text)
  }

  ghost predicate Ready(sc: Scene, chunks: seq<Chunk>) {
    sc.group.signature.width >= 2 && forall c :: c in chunks ==> Enumerates(c.ord) && Listed(sc.(ord := c.ord))
  }

  /** The effect of `Engine.Grind.Handle` on one group, chunk after chunk. */
  function Feed(sc: Scene, cx: Contexts, chunks: seq<Chunk>): Fed
    requires Ready(sc, chunks)
  {
    if chunks == [] then Fed("", cx, [])
    else
      var c := chunks[|chunks| - 1];
      var before := Feed(sc, cx, chunks[..|chunks| - 1]);
      var text := before.leftovers + c.text;
      var out := DispatchSpans(sc.(ord := c.ord), before.cx, text, Spans(sc.group.signature, text));
      Fed(Carry(sc.group.signature, text), out.cx, before.sent + out.sent)
  }

  lemma RecordSuffix(sig: Signature, stream: string, d: nat, sp: Span)
    requires d <= |stream| && sp.to + d <= |stream| && sp.from <= sp.to
    ensures RecordOf(sig, stream[d..], sp) == RecordOf(sig, stream, Span(sp.from + d, sp.to + d))
  {
    if sp.from + sig.width <= sp.to {
      assert stream[d..][sp.from + sig.width..sp.to] == stream[sp.from + d + sig.width..sp.to + d];
    }
    assert stream[d..][sp.from..sp.to] == stream[sp.from + d..sp.to + d];
  }

  lemma RecordPrefix(sig: Signature, stream: string, more: string, sp: Span)
    requires sp.from <= sp.to <= |stream|
    ensures RecordOf(sig, stream, sp) == RecordOf(sig, stream + more, sp)
  {
    if sp.from + sig.width <= sp.to {
      assert stream[sp.from + sig.width..sp.to] == (stream + more)[sp.from + sig.width..sp.to];
    }
    assert stream[sp.from..sp.to] == (stream + more)[sp.from..sp.to];
  }

  /** The scan finds this delivery in one of the records: over bound klasses, or over all while a keeper is attached. */
  ghost predicate SelectedIn(sc: Scene, text: string, spans: seq<Span>, d: Delivery) {
    exists sp :: sp in spans && Selected(sc, RecordOf(sc.group.signature, text, sp), d)
  }

  lemma SelectedAnyOrder(sc: Scene, ord: Order, rec: Record, d: Delivery)
    ensures Selected(sc.(ord := ord), rec, d) <==> Selected(sc, rec, d)
  {
    ScanCountAnyOrder(sc, ord, rec, d);
  }

  /** No format disturbs another on any record of the stream. */
  ghost predicate Calm(sc: Scene, stream: string) {
    forall a: nat, b: nat :: Stretch(sc.group.signature, stream, a, b) ==>
      Undisturbed(sc, RecordOf(sc.group.signature, stream, Span(a, b)))
  }

  lemma CalmPrefix(sc: Scene, stream: string, more: string)
    requires Calm(sc, stream + more)
    ensures Calm(sc, stream)
  {
    var sig := sc.group.signature;
    forall a: nat, b: nat | Stretch(sig, stream, a, b) ensures Undisturbed(sc, RecordOf(sig, stream, Span(a, b))) {
      StretchPrefix(sig, stream, more, a, b);
      RecordPrefix(sig, stream, more, Span(a, b));
    }
  }

  ghost predicate CalmSpans(sc: Scene, text: string, spans: seq<Span>) {
    forall sp :: sp in spans ==> Undisturbed(sc, RecordOf(sc.group.signature, text, sp))
  }

  /** The spans cut from what is left of a calm stream, in any order of visiting. */
  lemma CalmRest(sc: Scene, ord: Order, stream: string, n: nat)
    requires sc.group.signature.width >= 2 && Spaced(sc.group.signature, stream) && Calm(sc, stream) && n <= |stream|
    ensures CalmSpans(sc.(ord := ord), stream[n..], Spans(sc.group.signature, stream[n..]))
  {
    hide Undisturbed, RecordOf, Spaced, Spans;
    var sig := sc.group.signature;
    var text := stream[n..];
    SpacedSuffix(sig, stream, n);
    forall sp | sp in Spans(sig, text) ensures Undisturbed(sc.(ord := ord), RecordOf(sig, text, sp)) {
      SpansExact(sig, text, sp.from, sp.to);
      StretchSuffix(sig, stream, n, sp.from + n, sp.to + n);
      RecordSuffix(sig, stream, n, sp);
      UndisturbedAnyOrder(sc, ord, RecordOf(sig, text, sp));
    }
  }

  ghost predicate Quiet(groups: Groups, events: seq<Event>, sc: Scene) {
    && WellFormed(groups) && sc.st == Registry.Run(groups, events)
    && sc.name in groups && groups[sc.name] == sc.group && Stateless(sc.group)
  }

  lemma SelectedInAppended(sc: Scene, text: string, spans: seq<Span>, sp: Span, d: Delivery)
    ensures SelectedIn(sc, text, spans + [sp], d)
       <==> SelectedIn(sc, text, spans, d) || Selected(sc, RecordOf(sc.group.signature, text, sp), d)
  {
    assert sp in spans + [sp];
  }

  lemma {:induction false} SpansSelected(groups: Groups, events: seq<Event>, sc: Scene, cx: Contexts, text: string,
                                         spans: seq<Span>, d: Delivery)
    requires Quiet(groups, events, sc) && Enumerates(sc.ord) && Listed(sc) && CalmSpans(sc, text, spans)
    ensures d in DispatchSpans(sc, cx, text, spans).sent <==> SelectedIn(sc, text, spans, d)
  {
    if spans != [] {
      var n := |spans| - 1;
      SpansSelected(groups, events, sc, cx, text, spans[..n], d);
      var before := DispatchSpans(sc, cx, text, spans[..n]);
      var rec := RecordOf(sc.group.signature, text, spans[n]);
      RecordDelivers(groups, events, sc, before.cx, rec, d);
      DispatchAppended(sc, cx, text, spans[..n], spans[n], before, DispatchRecord(sc, before.cx, rec));
      SelectedInAppended(sc, text, spans[..n], spans[n], d);
      assert spans == spans[..n] + [spans[n]];
    }
  }

  // ----- records keep their content when the text grows or is cut off in front -----

  lemma SelectedInPrefix(sc: Scene, stream: string, more: string, spans: seq<Span>, d: Delivery)
    requires Within(spans, |stream|)
    ensures SelectedIn(sc, stream + more, spans, d) <==> SelectedIn(sc, stream, spans, d)
  {
    forall sp | sp in spans
      ensures RecordOf(sc.group.signature, stream, sp) == RecordOf(sc.group.signature, stream + more, sp)
    {
      RecordPrefix(sc.group.signature, stream, more, sp);
    }
  }

  lemma SelectedInShifted(sc: Scene, stream: string, n: nat, spans: seq<Span>, d: Delivery)
    requires n <= |stream| && Within(spans, |stream| - n)
    ensures SelectedIn(sc, stream, Shifted(spans, n), d) <==> SelectedIn(sc, stream[n..], spans, d)
  {
    hide Selected, RecordOf;
    var sig := sc.group.signature;
    ShiftedRecords(sig, stream, n, spans);
    if SelectedIn(sc, stream, Shifted(spans, n), d) {
      var sp :| sp in Shifted(spans, n) && Selected(sc, RecordOf(sig, stream, sp), d);
      var i :| 0 <= i < |spans| && Shifted(spans, n)[i] == sp;
      assert spans[i] in spans;
    }
    if SelectedIn(sc, stream[n..], spans, d) {
      var sp :| sp in spans && Selected(sc, RecordOf(sig, stream[n..], sp), d);
      var i :| 0 <= i < |spans| && spans[i] == sp;
      assert Shifted(spans, n)[i] in Shifted(spans, n);
    }
  }

  lemma SelectedInConcat(sc: Scene, text: string, xs: seq<Span>, ys: seq<Span>, d: Delivery)
    ensures SelectedIn(sc, text, xs + ys, d) <==> SelectedIn(sc, text, xs, d) || SelectedIn(sc, text, ys, d)
  {}

  lemma TrackedWithin(sig: Signature, stream: string, p: Progress)
    requires Tracks(sig, stream, p)
    ensures Within(p.emitted, |stream|)
  {
    forall sp | sp in p.emitted ensures sp.from <= sp.to <= |stream| {
      assert Span(sp.from, sp.to) in p.emitted;
    }
  }

  // ----- the stream theorem -----

  lemma FeedStep(groups: Groups, events: seq<Event>, sc: Scene, cx: Contexts, stream: string, p: Progress,
                 chunk: Chunk, d: Delivery)
    requires Quiet(groups, events, sc) && Ready(sc, [chunk]) && Spaced(sc.group.signature, stream + chunk.text)
    requires Tracks(sc.group.signature, stream, p) && Calm(sc, stream + chunk.text)
    ensures Enumerates(chunk.ord) && Listed(sc.(ord := chunk.ord))
    ensures var sig := sc.group.signature;
      var text := p.leftovers + chunk.text;
      (d in DispatchSpans(sc.(ord := chunk.ord), cx, text, Spans(sig, text)).sent || SelectedIn(sc, stream, p.emitted,
        d))
      <==> SelectedIn(sc, stream + chunk.text, Step(sig, p, chunk.text).emitted, d)
  {
    var sig := sc.group.signature;
    var text := p.leftovers + chunk.text;
    var all := stream + chunk.text;
    var spans := Spans(sig, text);
    assert chunk in [chunk];
    assert all[p.dropped..] == text;
    CalmRest(sc, chunk.ord, all, p.dropped);
    SpansSelected(groups, events, sc.(ord := chunk.ord), cx, text, spans, d);
    SelectedInAnyOrder(sc, chunk.ord, text, spans, d);
    SpansWithin(sig, text);
    SelectedInShifted(sc, all, p.dropped, spans, d);
    TrackedWithin(sig, stream, p);
    SelectedInPrefix(sc, stream, chunk.text, p.emitted, d);
    SelectedInConcat(sc, all, p.emitted, Shifted(spans, p.dropped), d);
  }

  lemma SelectedInAnyOrder(sc: Scene, ord: Order, text: string, spans: seq<Span>, d: Delivery)
    ensures SelectedIn(sc.(ord := ord), text, spans, d) <==> SelectedIn(sc, text, spans, d)
  {
    forall sp ensures Selected(sc.(ord := ord), RecordOf(sc.group.signature, text, sp), d)
                 <==> Selected(sc, RecordOf(sc.group.signature, text, sp), d) {
      SelectedAnyOrder(sc, ord, RecordOf(sc.group.signature, text, sp), d);
    }
  }

  lemma {:induction false} FeedTracks(groups: Groups, events: seq<Event>, sc: Scene, cx: Contexts, chunks: seq<Chunk>,
                                      d: Delivery)
    requires Quiet(groups, events, sc) && Ready(sc, chunks) && Spaced(sc.group.signature, Concat(Texts(chunks)))
    requires Calm(sc, Concat(Texts(chunks)))
    ensures Feed(sc, cx, chunks).leftovers == Stream.Run(sc.group.signature, Texts(chunks)).leftovers
    ensures d in Feed(sc, cx, chunks).sent
       <==> SelectedIn(sc, Concat(Texts(chunks)), Stream.Run(sc.group.signature, Texts(chunks)).emitted, d)
  {
    if chunks != [] {
      var n := |chunks| - 1;
      var sig := sc.group.signature;
      assert Texts(chunks)[..n] == Texts(chunks[..n]);
      CalmPrefix(sc, Concat(Texts(chunks[..n])), chunks[n].text);
      SpacedPrefix(sig, Concat(Texts(chunks[..n])), chunks[n].text);
      FeedTracks(groups, events, sc, cx, chunks[..n], d);
      RunTracks(sig, Texts(chunks[..n]));
      FeedStep(groups, events, sc, Feed(sc, cx, chunks[..n]).cx, Concat(Texts(chunks[..n])),
        Stream.Run(sig, Texts(chunks[..n])), chunks[n], d);
    }
  }

  lemma QuietReady(groups: Groups, events: seq<Event>, sc: Scene, chunks: seq<Chunk>)
    requires Quiet(groups, events, sc) && sc.group.signature.width >= 2 && forall c :: c in chunks ==> Enumerates(c.ord)
    ensures Ready(sc, chunks)
  {
    ReachableConsistent(groups, events);
    forall c | c in chunks ensures Listed(sc.(ord := c.ord)) {
      SettledListed(groups, sc.(ord := c.ord), Overwritten(groups, events));
    }
  }

  /** A watcher is sent exactly what the scan finds in the stretches of the stream, however it was cut and whatever
      `pairs` did. */
  lemma StreamDelivers(groups: Groups, events: seq<Event>, sc: Scene, cx: Contexts, chunks: seq<Chunk>, d: Delivery)
    requires Quiet(groups, events, sc) && Spaced(sc.group.signature, Concat(Texts(chunks)))
    requires Calm(sc, Concat(Texts(chunks)))
    requires sc.group.signature.width >= 2 && forall c :: c in chunks ==> Enumerates(c.ord)
    ensures Ready(sc, chunks)
    ensures var stream := Concat(Texts(chunks));
      var sig := sc.group.signature;
      (d in Feed(sc, cx, chunks).sent)
      <==> exists a: nat, b: nat :: Stretch(sig, stream, a, b) && Selected(sc, RecordOf(sig, stream, Span(a, b)), d)
  {
    QuietReady(groups, events, sc, chunks);
    var stream := Concat(Texts(chunks));
    var sig := sc.group.signature;
    FeedTracks(groups, events, sc, cx, chunks, d);
    RunTracks(sig, Texts(chunks));
    var emitted := Stream.Run(sig, Texts(chunks)).emitted;
    if SelectedIn(sc, stream, emitted, d) {
      var sp :| sp in emitted && Selected(sc, RecordOf(sig, stream, sp), d);
      assert Span(sp.from, sp.to) in emitted && Stretch(sig, stream, sp.from, sp.to);
    }
    if a: nat, b: nat :| Stretch(sig, stream, a, b) && Selected(sc, RecordOf(sig, stream, Span(a, b)), d) {
      assert Span(a, b) in emitted;
    }
  }

  // ----- callbacks with a history -----

  lemma {:induction false} DispatchConcat(sc: Scene, cx: Contexts, text: string, xs: seq<Span>, ys: seq<Span>)
    requires Enumerates(sc.ord) && Listed(sc)
    ensures var before := DispatchSpans(sc, cx, text, xs);
      var after := DispatchSpans(sc, before.cx, text, ys);
      DispatchSpans(sc, cx, text, xs + ys) == Outcome(after.cx, before.sent + after.sent)
  {
    hide DispatchRecord, RecordOf, Enumerates, Listed;
    if ys == [] {
      assert xs + ys == xs;
    } else {
      var n := |ys| - 1;
      assert (xs + ys)[..|xs| + n] == xs + ys[..n] && (xs + ys)[|xs| + n] == ys[n];
      DispatchConcat(sc, cx, text, xs, ys[..n]);
    }
  }

  /** Dispatching sees nothing of a text but its records. */
  lemma {:induction false} DispatchSameRecords(sc: Scene, cx: Contexts, text: string, xs: seq<Span>, text': string,
                                               ys: seq<Span>)
    requires Enumerates(sc.ord) && Listed(sc) && |xs| == |ys|
    requires forall i ::
      0 <= i < |xs| ==> RecordOf(sc.group.signature, text, xs[i]) == RecordOf(sc.group.signature, text', ys[i])
    ensures DispatchSpans(sc, cx, text, xs) == DispatchSpans(sc, cx, text', ys)
  {
    hide DispatchRecord, RecordOf, Enumerates, Listed;
    if xs != [] {
      var n := |xs| - 1;
      DispatchSameRecords(sc, cx, text, xs[..n], text', ys[..n]);
    }
  }

  ghost predicate SameOrder(sc: Scene, chunks: seq<Chunk>) {
    Enumerates(sc.ord) && Listed(sc) && forall c :: c in chunks ==> c.ord == sc.ord
  }

  lemma SameOrderReady(sc: Scene, chunks: seq<Chunk>)
    requires SameOrder(sc, chunks) && sc.group.signature.width >= 2
    ensures Ready(sc, chunks)
  {
    forall c | c in chunks ensures Listed(sc.(ord := c.ord)) { assert sc.(ord := c.ord) == sc; }
  }

  lemma PrefixRecords(sig: Signature, stream: string, more: string, spans: seq<Span>)
    requires Within(spans, |stream|)
    ensures forall i :: 0 <= i < |spans| ==> RecordOf(sig, stream, spans[i]) == RecordOf(sig, stream + more, spans[i])
  {
    hide RecordOf;
    forall i | 0 <= i < |spans| ensures RecordOf(sig, stream, spans[i]) == RecordOf(sig, stream + more, spans[i]) {
      assert spans[i] in spans;
      RecordPrefix(sig, stream, more, spans[i]);
    }
  }

  lemma ShiftedRecords(sig: Signature, stream: string, n: nat, spans: seq<Span>)
    requires n <= |stream| && Within(spans, |stream| - n)
    ensures |Shifted(spans, n)| == |spans|
    ensures forall i ::
      0 <= i < |spans| ==> RecordOf(sig, stream[n..], spans[i]) == RecordOf(sig, stream, Shifted(spans, n)[i])
  {
    hide RecordOf;
    forall i | 0 <= i < |spans|
      ensures RecordOf(sig, stream[n..], spans[i]) == RecordOf(sig, stream, Shifted(spans, n)[i])
    {
      assert spans[i] in spans;
      RecordSuffix(sig, stream, n, spans[i]);
    }
  }

  /** One chunk more: its spans, and those emitted before, dispatched over the whole stream so far. */
  lemma FeedMore(sc: Scene, cx: Contexts, stream: string, p: Progress, chunk: string, before: Outcome)
    requires sc.group.signature.width >= 2 && Enumerates(sc.ord) && Listed(sc)
    requires Follows(sc.group.signature, stream, p) && Within(p.emitted, |stream|)
    requires before == DispatchSpans(sc, cx, stream, p.emitted)
    ensures var sig := sc.group.signature;
      var text := p.leftovers + chunk;
      var out := DispatchSpans(sc, before.cx, text, Spans(sig, text));
      DispatchSpans(sc, cx, stream + chunk, Step(sig, p, chunk).emitted) == Outcome(out.cx, before.sent + out.sent)
  {
    var sig := sc.group.signature;
    var text := p.leftovers + chunk;
    hide DispatchSpans, Enumerates, Listed, Spans, Follows, Within, Shifted, Carry, Step;
    CallPlaced(sig, stream, p, chunk);
    SpansWithin(sig, text);
    DispatchMore(sc, cx, stream, chunk, p.emitted, p.dropped, Spans(sig, text), before);
  }

  lemma DispatchMore(sc: Scene, cx: Contexts, stream: string, chunk: string, emitted: seq<Span>, n: nat,
                     spans: seq<Span>, before: Outcome)
    requires Enumerates(sc.ord) && Listed(sc) && before == DispatchSpans(sc, cx, stream, emitted)
    requires Within(emitted, |stream|) && n <= |stream + chunk| && Within(spans, |stream + chunk| - n)
    ensures var out := DispatchSpans(sc, before.cx, (stream + chunk)[n..], spans);
      DispatchSpans(sc, cx, stream + chunk, emitted + Shifted(spans, n)) == Outcome(out.cx, before.sent + out.sent)
  {
    hide DispatchSpans, RecordOf, Enumerates, Listed, Within, Shifted;
    var sig, all := sc.group.signature, stream + chunk;
    PrefixRecords(sig, stream, chunk, emitted);
    ShiftedRecords(sig, all, n, spans);
    DispatchSameRecords(sc, cx, stream, emitted, all, emitted);
    DispatchSameRecords(sc, before.cx, all[n..], spans, all, Shifted(spans, n));
    DispatchConcat(sc, cx, all, emitted, Shifted(spans, n));
  }

  /** Whatever history the callbacks keep, feeding chunks is dispatching the emitted records in the order of
      emission. */
  lemma {:induction false} FeedIsDispatch(sc: Scene, cx: Contexts, chunks: seq<Chunk>)
    requires sc.group.signature.width >= 2 && SameOrder(sc, chunks)
    ensures Ready(sc, chunks)
    ensures var fed, p := Feed(sc, cx, chunks), Stream.Run(sc.group.signature, Texts(chunks));
      fed.leftovers == p.leftovers
        && Outcome(fed.cx, fed.sent) == DispatchSpans(sc, cx, Concat(Texts(chunks)), p.emitted)
  {
    SameOrderReady(sc, chunks);
    hide DispatchSpans, Listed, Enumerates, Spans, Carry, Follows, Within;
    if chunks != [] {
      var n := |chunks| - 1;
      var sig := sc.group.signature;
      assert Texts(chunks)[..n] == Texts(chunks[..n]);
      FeedIsDispatch(sc, cx, chunks[..n]);
      RunFollows(sig, Texts(chunks[..n]));
      EmittedWithin(sig, Texts(chunks[..n]));
      assert chunks[n] in chunks && sc.(ord := chunks[n].ord) == sc;
      FeedMore(sc, cx, Concat(Texts(chunks[..n])), Stream.Run(sig, Texts(chunks[..n])), chunks[n].text,
               DispatchSpans(sc, cx, Concat(Texts(chunks[..n])), Stream.Run(sig, Texts(chunks[..n])).emitted));
    } else {
      NothingDispatched(sc, cx);
    }
  }

  lemma NothingDispatched(sc: Scene, cx: Contexts)
    requires Enumerates(sc.ord) && Listed(sc)
    ensures DispatchSpans(sc, cx, "", []) == Outcome(cx, [])
  {}

  /** In a run of tight calls, chunks leave every context and send every message, in order, as the stream in one
      piece would. */
  lemma TightFeedIsWhole(sc: Scene, cx: Contexts, chunks: seq<Chunk>)
    requires sc.group.signature.width >= 2 && Spaced(sc.group.signature, Concat(Texts(chunks))) && SameOrder(sc, chunks)
    requires AllTight(sc.group.signature, Texts(chunks))
    ensures Ready(sc, chunks)
    ensures var fed, stream := Feed(sc, cx, chunks), Concat(Texts(chunks));
      Outcome(fed.cx, fed.sent) == DispatchSpans(sc, cx, stream, Spans(sc.group.signature, stream))
  {
    hide Spaced, DispatchSpans, Listed, Enumerates, Spans, AllTight, Ready;
    FeedIsDispatch(sc, cx, chunks);
    WholeIffTight(sc.group.signature, Texts(chunks));
  }
}
