/** From a feeder's reads to the engine: `relay` hands each read to Lua as a format, and `grind.handle` takes what
    arrives. */
module Relay {
  import opened Lua
  import opened Segmentation
  import opened Stream
  import opened Config
  import opened Registry
  import opened RegistryInvariant
  import opened Dispatch
  import opened ScanLaws
  import opened Engine
  import opened EndToEnd
  import Bridge = ScriptEngine

  /** No read asks for an argument or ends in a percent sign. */
  ghost predicate Relayable(bufs: seq<Chunk>) {
    forall c :: c in bufs ==> Bridge.Formatted(c.text).Some?
  }

  ghost function Arrives(bufs: seq<Chunk>, read: Chunk): Chunk
    requires Relayable(bufs) && read in bufs
  {
    read.(text := Bridge.Formatted(read.text).value)
  }

  /** The reads as they arrive. */
  ghost function Arrived(bufs: seq<Chunk>): seq<Chunk>
    requires Relayable(bufs)
  {
    seq(|bufs|, i requires 0 <= i < |bufs| => Arrives(bufs, bufs[i]))
  }

  // ----- which streams survive every cutting -----

  /** Every read arrives as it was sent. */
  ghost predicate Unchanged(texts: seq<string>) {
    forall t :: t in texts ==> Bridge.Formatted(t) == Some(t)
  }

  ghost predicate Clean(s: string) {
    '\0' !in s && '%' !in s
  }

  lemma {:induction false} PiecesClean(texts: seq<string>)
    requires Clean(Concat(texts))
    ensures forall t :: t in texts ==> Clean(t)
  {
    if texts != [] {
      var n := |texts| - 1;
      assert forall c :: c in Concat(texts[..n]) || c in texts[n] ==> c in Concat(texts);
      PiecesClean(texts[..n]);
    }
  }

  lemma CleanArrives(t: string)
    requires Clean(t)
    ensures Bridge.Formatted(t) == Some(t)
  {
    Bridge.FormattedUnchangedIff(t);
  }

  lemma CutAfter(s: string, i: nat)
    requires i < |s| && (s[i] == '%' || s[i] == '\0')
    ensures Concat([s[..i + 1], s[i + 1..]]) == s && !Unchanged([s[..i + 1], s[i + 1..]])
  {
    var first, rest := s[..i + 1], s[i + 1..];
    ConcatTwo(first, rest);
    assert first[i] in first && [first, rest][0] in [first, rest];
    Bridge.FormattedUnchangedIff(first);
  }

  /** A stream arrives unchanged however it is cut into reads if and only if it has no terminator and no percent
      sign: a read may end right after one. */
  lemma AnyCuttingArrivesIff(s: string)
    ensures (forall texts :: Concat(texts) == s ==> Unchanged(texts)) <==> Clean(s)
  {
    if Clean(s) {
      forall texts | Concat(texts) == s ensures Unchanged(texts) {
        PiecesClean(texts);
        forall t | t in texts ensures Bridge.Formatted(t) == Some(t) { CleanArrives(t); }
      }
    } else {
      var i :| 0 <= i < |s| && (s[i] == '%' || s[i] == '\0');
      CutAfter(s, i);
    }
  }

  /** So for such a stream: what watchers are sent depends neither on the reads nor on the orders of visiting. */
  lemma ReadsDeliver(groups: Groups, events: seq<Event>, sc: Scene, cx: Contexts, bufs: seq<Chunk>, d: Delivery)
    requires Quiet(groups, events, sc) && Spaced(sc.group.signature, Concat(Texts(bufs)))
    requires Calm(sc, Concat(Texts(bufs)))
    requires sc.group.signature.width >= 2 && forall c :: c in bufs ==> Enumerates(c.ord)
    requires Clean(Concat(Texts(bufs)))
    ensures Relayable(bufs) && Arrived(bufs) == bufs && Ready(sc, bufs)
    ensures var stream := Concat(Texts(bufs));
      var sig := sc.group.signature;
      (d in Feed(sc, cx, bufs).sent)
      <==> exists a: nat, b: nat :: Stretch(sig, stream, a, b) && Selected(sc, RecordOf(sig, stream, Span(a, b)), d)
  {
    CleanReads(bufs);
    StreamDelivers(groups, events, sc, cx, bufs, d);
  }

  lemma CleanReads(bufs: seq<Chunk>)
    requires Clean(Concat(Texts(bufs)))
    ensures Relayable(bufs) && Arrived(bufs) == bufs
  {
    PiecesClean(Texts(bufs));
    forall i | 0 <= i < |bufs| ensures Bridge.Formatted(bufs[i].text) == Some(bufs[i].text) {
      assert Texts(bufs)[i] in Texts(bufs);
      CleanArrives(bufs[i].text);
    }
  }

  // ----- the engine does this -----

  lemma FedMore(sc: Scene, cx: Contexts, chunks: seq<Chunk>, n: nat, fed: Fed, leftovers: string, out: Outcome)
    requires n < |chunks| && Ready(sc, chunks[..n]) && fed == Feed(sc, cx, chunks[..n])
    requires Enumerates(chunks[n].ord) && Listed(sc.(ord := chunks[n].ord))
    requires var sig := sc.group.signature;
      var text := fed.leftovers + chunks[n].text;
      && leftovers == Carry(sig, text)
      && out == DispatchSpans(sc.(ord := chunks[n].ord), fed.cx, text, Spans(sig, text))
    ensures Ready(sc, chunks[..n + 1])
    ensures Fed(leftovers, out.cx, fed.sent + out.sent) == Feed(sc, cx, chunks[..n + 1])
  {
    hide Listed, Enumerates, DispatchSpans, Carry;
    assert chunks[..n + 1][..n] == chunks[..n];
  }

  /** What `relay` does with a feeder's bufs: each is formatted, and handled under the feeder's label. */
  method RelayAll(engine: Grind, ghost sc: Scene, bufs: seq<Chunk>, flabel: string, regex: (string, string) -> bool)
    returns (sent: seq<Delivery>)
    requires Relayable(bufs) && Bridge.Formatted(flabel).Some?
    requires var glabel := Bridge.Formatted(flabel).value;
      && engine.Valid() && glabel in engine.groups && engine.leftovers[glabel] == ""
      && engine.groups[glabel].signature.width >= 2
      && sc == Scene(glabel, engine.groups[glabel], engine.Snapshot(), sc.ord, regex)
    requires forall c :: c in bufs ==> Enumerates(c.ord)
    modifies engine`contexts, engine`leftovers
    ensures engine.Valid() && engine.Snapshot() == old(engine.Snapshot())
    ensures Ready(sc, Arrived(bufs))
    ensures Fed(engine.leftovers[sc.name], engine.contexts, sent) == Feed(sc, old(engine.contexts), Arrived(bufs))
  {
    hide Listed, Enumerates, DispatchSpans, Carry, Spans, Consistent, WellFormed, Bridge.Formatted;
    var glabel := Bridge.Formatted(flabel).value;
    ghost var chunks := Arrived(bufs);
    sent := [];
    var n := 0;
    while n < |bufs|
      invariant 0 <= n <= |bufs| && engine.Valid() && engine.Snapshot() == sc.st
      invariant Ready(sc, chunks[..n])
      invariant Fed(engine.leftovers[glabel], engine.contexts, sent) == Feed(sc, old(engine.contexts), chunks[..n])
    {
      assert bufs[n] in bufs;
      ghost var fed := Fed(engine.leftovers[glabel], engine.contexts, sent);
      var text := Bridge.Formatted(bufs[n].text).value;
      var out := engine.Handle(text, glabel, bufs[n].ord, regex);
      FedMore(sc, old(engine.contexts), chunks, n, fed, engine.leftovers[glabel], Outcome(engine.contexts, out.value));
      sent := sent + out.value;
      n := n + 1;
    }
    assert chunks[..n] == chunks;
  }
}
