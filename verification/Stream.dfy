/** Feeding a delimited byte stream to `grind.handle` in arbitrary chunks: what is emitted, how often, and what is
    carried over. */
module Stream {
  import opened Lua
  import opened Segmentation

  /** Two delimiters next to each other in `text`. */
  ghost predicate Stretch(sig: Signature, text: string, a: nat, b: nat) {
    At(sig, text, a) && At(sig, text, b) && a < b && forall m {:trigger At(sig, text, m)} ::
      a < m < b ==> !At(sig, text, m)
  }

  /** Two occurrences of the delimiter in the text share at most one byte. */
  ghost predicate Spaced(sig: Signature, text: string) {
    forall i: nat, j: nat :: At(sig, text, i) && At(sig, text, j) && i < j ==> i + sig.width <= j + 1
  }

  // ----- one call -----

  lemma SpacedApart(sig: Signature, text: string, i: nat, j: nat)
    requires Spaced(sig, text) && At(sig, text, i) && At(sig, text, j) && i < j
    ensures i + sig.width <= j + 1
  {}

  /** The spans from an occurrence are exactly the stretches that start there or later. */
  lemma {:induction false} SpansFromExact(sig: Signature, text: string, i: nat, a: nat, b: nat)
    requires sig.width >= 2 && Spaced(sig, text) && At(sig, text, i)
    ensures Span(a, b) in SpansFrom(sig, text, i) <==> i <= a && Stretch(sig, text, a, b)
    decreases |text| - i
  {
    hide Spaced;
    match First(sig, text, i + sig.width - 1)
    case None =>
      if i <= a && Stretch(sig, text, a, b) {
        SpacedApart(sig, text, i, b);
      }
    case Some(j) =>
      SpansFromExact(sig, text, j, a, b);
      assert SpansFrom(sig, text, i) == [Span(i, j)] + SpansFrom(sig, text, j);
      if a == i && b == j {
        forall m: nat | a < m < b && At(sig, text, m) ensures false {
          SpacedApart(sig, text, i, m);
        }
      } else if i <= a < j && Stretch(sig, text, a, b) {
        if i < a { SpacedApart(sig, text, i, a); }
        if b < j { SpacedApart(sig, text, i, b); }
      }
  }

  lemma {:induction false} ConsumedFront(spans: seq<Span>)
    requires spans != []
    ensures Consumed(spans) == spans[0].to - spans[0].from + Consumed(spans[1..])
    decreases |spans|
  {
    if |spans| > 1 {
      var n := |spans| - 1;
      ConsumedFront(spans[..n]);
      assert spans[..n][1..] == spans[1..][..n - 1];
    }
  }

  /** Where a chain of spans starting at `i` ends. */
  function End(i: nat, spans: seq<Span>): nat {
    if spans == [] then i else spans[|spans| - 1].to
  }

  ghost predicate Ascending(spans: seq<Span>) {
    && (forall k :: 0 <= k < |spans| ==> spans[k].from < spans[k].to)
    && forall k, m :: 0 <= k < m < |spans| ==> spans[k].to <= spans[m].from
  }

  lemma AscendingCons(i: nat, j: nat, rest: seq<Span>)
    requires i < j && Ascending(rest) && (rest != [] ==> rest[0].from == j)
    ensures Ascending([Span(i, j)] + rest)
  {
    var spans := [Span(i, j)] + rest;
    assert forall k :: 1 <= k < |spans| ==> spans[k] == rest[k - 1];
    forall m | 1 <= m < |spans| ensures j <= spans[m].from {
      if m > 1 { assert rest[0].to <= rest[m - 1].from; }
    }
  }

  ghost predicate Ends(sig: Signature, text: string, l: nat) {
    sig.width >= 1 && At(sig, text, l) && First(sig, text, l + sig.width - 1) == None
  }

  /** The spans from an occurrence are in order, and the search stops after the last of them. */
  lemma {:induction false} SpansFromChain(sig: Signature, text: string, i: nat, spans: seq<Span>)
    requires sig.width >= 2 && At(sig, text, i) && spans == SpansFrom(sig, text, i)
    ensures Ascending(spans)
    ensures spans != [] ==> spans[0].from == i
    ensures i <= End(i, spans)
    ensures Ends(sig, text, End(i, spans))
    decreases |text| - i
  {
    match First(sig, text, i + sig.width - 1)
    case None =>
    case Some(j) =>
      var rest := SpansFrom(sig, text, j);
      assert spans == [Span(i, j)] + rest;
      SpansFromChain(sig, text, j, rest);
      AscendingCons(i, j, rest);
  }

  /** The distances `b2 - b` telescope to last minus first delimiter start. */
  lemma {:induction false} Telescopes(sig: Signature, text: string, i: nat, spans: seq<Span>)
    requires sig.width >= 2 && At(sig, text, i) && spans == SpansFrom(sig, text, i)
    ensures Consumed(spans) == End(i, spans) - i
    decreases |text| - i
  {
    match First(sig, text, i + sig.width - 1)
    case None =>
    case Some(j) =>
      var rest := SpansFrom(sig, text, j);
      assert spans == [Span(i, j)] + rest && spans[1..] == rest;
      Telescopes(sig, text, j, rest);
      ConsumedFront(spans);
  }

  // ----- any number of calls -----

  /** The group's state between calls, with every span it ever emitted in absolute stream offsets. */
  datatype Progress = Progress(leftovers: string, dropped: nat, emitted: seq<Span>)

  const START := Progress("", 0, [])

  function Shifted(spans: seq<Span>, d: nat): seq<Span> {
    seq(|spans|, k requires 0 <= k < |spans| => Span(spans[k].from + d, spans[k].to + d))
  }

  /** One call of `handle`: prepend the leftovers, cut, keep `text:sub(consumed)`. */
  function Step(sig: Signature, p: Progress, chunk: string): Progress
    requires sig.width >= 2
  {
    var text := p.leftovers + chunk;
    var rest := Carry(sig, text);
    Progress(rest,
             if |text| >= |rest| then p.dropped + |text| - |rest| else p.dropped,
             p.emitted + Shifted(Spans(sig, text), p.dropped))
  }

  function Run(sig: Signature, chunks: seq<string>): Progress
    requires sig.width >= 2
  {
    if chunks == [] then START
    else Step(sig, Run(sig, chunks[..|chunks| - 1]), chunks[|chunks| - 1])
  }

  function Concat(chunks: seq<string>): string {
    if chunks == [] then "" else Concat(chunks[..|chunks| - 1]) + chunks[|chunks| - 1]
  }

  lemma ConcatTwo(s: string, s': string)
    ensures Concat([s, s']) == s + s'
  {
    assert [s, s'][..1] == [s];
    assert Concat([s]) == s;
  }

  lemma AtSuffix(sig: Signature, stream: string, d: nat, m: nat)
    requires d <= |stream| && d <= m
    ensures At(sig, stream[d..], m - d) <==> At(sig, stream, m)
  {
    if m + sig.width <= |stream| {
      assert stream[d..][m - d..m - d + sig.width] == stream[m..m + sig.width];
    }
  }

  lemma AtPrefix(sig: Signature, stream: string, more: string, m: nat)
    ensures At(sig, stream, m) <==> At(sig, stream + more, m) && m + sig.width <= |stream|
  {
    if m + sig.width <= |stream| {
      assert (stream + more)[m..m + sig.width] == stream[m..m + sig.width];
    }
  }

  lemma StretchSuffix(sig: Signature, stream: string, d: nat, a: nat, b: nat)
    requires d <= |stream| && d <= a && d <= b
    ensures Stretch(sig, stream[d..], a - d, b - d) <==> Stretch(sig, stream, a, b)
  {
    AtSuffix(sig, stream, d, a);
    AtSuffix(sig, stream, d, b);
    forall m: nat | d <= m ensures At(sig, stream[d..], m - d) <==> At(sig, stream, m) { AtSuffix(sig, stream, d, m); }
    if Stretch(sig, stream[d..], a - d, b - d) {
      forall m: nat | a < m < b ensures !At(sig, stream, m) { assert !At(sig, stream[d..], m - d); }
    }
    if Stretch(sig, stream, a, b) {
      forall m: nat | a - d < m < b - d ensures !At(sig, stream[d..], m) { assert !At(sig, stream, m + d); }
    }
  }

  lemma StretchPrefix(sig: Signature, stream: string, more: string, a: nat, b: nat)
    ensures Stretch(sig, stream, a, b) <==> Stretch(sig, stream + more, a, b) && b + sig.width <= |stream|
  {
    forall m: nat ensures At(sig, stream, m) <==> At(sig, stream + more, m) && m + sig.width <= |stream| {
      AtPrefix(sig, stream, more, m);
    }
  }

  lemma SpacedPrefix(sig: Signature, stream: string, more: string)
    requires Spaced(sig, stream + more)
    ensures Spaced(sig, stream)
  {
    forall i: nat, j: nat | At(sig, stream, i) && At(sig, stream, j) && i < j ensures i + sig.width <= j + 1 {
      AtPrefix(sig, stream, more, i);
      AtPrefix(sig, stream, more, j);
    }
  }

  lemma SpacedSuffix(sig: Signature, stream: string, d: nat)
    requires Spaced(sig, stream) && d <= |stream|
    ensures Spaced(sig, stream[d..])
  {
    forall i: nat, j: nat | At(sig, stream[d..], i) && At(sig, stream[d..], j) && i < j ensures i + sig.width <= j + 1 {
      AtSuffix(sig, stream, d, i + d);
      AtSuffix(sig, stream, d, j + d);
    }
  }

  lemma SpacedFront(sig: Signature, stream: string, front: string)
    requires Spaced(sig, stream) && front <= stream
    ensures Spaced(sig, front)
  {
    hide Spaced;
    assert stream == front + stream[|front|..];
    SpacedPrefix(sig, front, stream[|front|..]);
  }

  lemma {:induction false} ConcatPrefix(chunks: seq<string>, k: nat)
    requires k <= |chunks|
    ensures Concat(chunks[..k]) <= Concat(chunks)
    decreases |chunks|
  {
    var n := |chunks| - 1;
    if k <= n {
      ConcatPrefix(chunks[..n], k);
      assert chunks[..n][..k] == chunks[..k];
    } else {
      assert chunks[..k] == chunks;
    }
  }

  /** Any prefix of the chunks. */
  lemma SpacedChunks(sig: Signature, chunks: seq<string>, k: nat)
    requires Spaced(sig, Concat(chunks)) && k <= |chunks|
    ensures Spaced(sig, Concat(chunks[..k]))
  {
    ConcatPrefix(chunks, k);
    hide Concat, Spaced;
    SpacedFront(sig, Concat(chunks), Concat(chunks[..k]));
  }

  /** Nothing before the last delimiter that might still be needed has been dropped. */
  ghost predicate Covered(sig: Signature, stream: string, p: Progress) {
    p.dropped == 0 || exists l: nat :: p.dropped <= l && Ends(sig, stream, l)
  }

  /** The leftovers are what follows the dropped part of the stream. */
  ghost predicate Follows(sig: Signature, stream: string, p: Progress) {
    p.dropped <= |stream| && stream[p.dropped..] == p.leftovers && Covered(sig, stream, p)
  }

  /** And the spans emitted are exactly the stretches of the stream. */
  ghost predicate Tracks(sig: Signature, stream: string, p: Progress) {
    Follows(sig, stream, p) && forall a: nat, b: nat :: Span(a, b) in p.emitted <==> Stretch(sig, stream, a, b)
  }

  /** What a single call does to a text: emitted spans, and how much of the front is dropped. */
  lemma CallEffect(sig: Signature, text: string)
    requires sig.width >= 2
    ensures First(sig, text, 0) == None ==> Spans(sig, text) == [] && Carry(sig, text) == text
    ensures First(sig, text, 0).Some? ==>
              var i := First(sig, text, 0).value;
              var spans := Spans(sig, text);
              var l := End(i, spans);
              && spans == SpansFrom(sig, text, i) && Ascending(spans) && i <= l && Ends(sig, text, l)
              && (if spans == [] then l == i && Carry(sig, text) == text
                  else i < l && spans[0].from == i && Carry(sig, text) == text[l - i - 1..])
  {
    if First(sig, text, 0).Some? {
      var i := First(sig, text, 0).value;
      SpansFromChain(sig, text, i, Spans(sig, text));
      Telescopes(sig, text, i, Spans(sig, text));
      if Spans(sig, text) != [] {
        assert Spans(sig, text)[0].from < Spans(sig, text)[0].to <= End(i, Spans(sig, text));
      }
    }
  }

  lemma ShiftedMember(spans: seq<Span>, d: nat, a: nat, b: nat)
    ensures Span(a, b) in Shifted(spans, d) <==> d <= a && d <= b && Span(a - d, b - d) in spans
  {
    if Span(a, b) in Shifted(spans, d) {
      var k :| 0 <= k < |spans| && Shifted(spans, d)[k] == Span(a, b);
      assert spans[k] == Span(a - d, b - d);
    }
    if d <= a && d <= b && Span(a - d, b - d) in spans {
      var k :| 0 <= k < |spans| && spans[k] == Span(a - d, b - d);
      assert Shifted(spans, d)[k] == Span(a, b);
    }
  }

  /** The spans of a text are exactly its stretches. */
  lemma SpansExact(sig: Signature, text: string, a: nat, b: nat)
    requires sig.width >= 2 && Spaced(sig, text)
    ensures Span(a, b) in Spans(sig, text) <==> Stretch(sig, text, a, b)
  {
    if First(sig, text, 0).Some? {
      SpansFromExact(sig, text, First(sig, text, 0).value, a, b);
    }
  }

  lemma EndsSuffix(sig: Signature, stream: string, d: nat, l: nat)
    requires d <= |stream| && Ends(sig, stream[d..], l)
    ensures Ends(sig, stream, l + d)
  {
    AtSuffix(sig, stream, d, l + d);
    var r := First(sig, stream, l + d + sig.width - 1);
    if r.Some? {
      AtSuffix(sig, stream, d, r.value);
    }
  }

  /** A stretch completed by the new bytes starts in what was kept. */
  lemma NewStretchKept(sig: Signature, stream: string, p: Progress, chunk: string, a: nat, b: nat)
    requires sig.width >= 2 && Tracks(sig, stream, p)
    requires Stretch(sig, stream + chunk, a, b) && !Stretch(sig, stream, a, b)
    ensures p.dropped <= a
  {
    StretchPrefix(sig, stream, chunk, a, b);
    if a < p.dropped {
      var l: nat :| p.dropped <= l && Ends(sig, stream, l);
      AtPrefix(sig, stream, chunk, l);
    }
  }

  lemma StepEmits(sig: Signature, stream: string, p: Progress, chunk: string, a: nat, b: nat)
    requires sig.width >= 2 && Spaced(sig, stream + chunk) && Tracks(sig, stream, p)
    ensures Span(a, b) in Step(sig, p, chunk).emitted <==> Stretch(sig, stream + chunk, a, b)
  {
    var all := stream + chunk;
    var text := p.leftovers + chunk;
    var d := p.dropped;
    assert all[d..] == text;
    ShiftedMember(Spans(sig, text), d, a, b);
    StretchPrefix(sig, stream, chunk, a, b);
    SpacedSuffix(sig, all, d);
    if d <= a && d <= b {
      SpansExact(sig, text, a - d, b - d);
      StretchSuffix(sig, all, d, a, b);
    } else if Stretch(sig, all, a, b) && !Stretch(sig, stream, a, b) {
      NewStretchKept(sig, stream, p, chunk, a, b);
    }
  }

  /** Once something has been dropped, the leftovers hold a delimiter. */
  lemma DroppedLeavesDelimiter(sig: Signature, stream: string, p: Progress, chunk: string)
    requires Follows(sig, stream, p) && p.dropped > 0
    ensures First(sig, p.leftovers + chunk, 0).Some?
  {
    var d := p.dropped;
    var l: nat :| d <= l && Ends(sig, stream, l);
    AtSuffix(sig, stream, d, l);
    AtPrefix(sig, p.leftovers, chunk, l - d);
  }

  lemma StepFollows(sig: Signature, stream: string, p: Progress, chunk: string)
    requires sig.width >= 2 && Follows(sig, stream, p)
    ensures Follows(sig, stream + chunk, Step(sig, p, chunk))
  {
    var all := stream + chunk;
    var text := p.leftovers + chunk;
    var d := p.dropped;
    hide First, Spans, Carry, Ascending;
    assert all[d..] == text;
    if d > 0 { DroppedLeavesDelimiter(sig, stream, p, chunk); }
    CallEffect(sig, text);
    if First(sig, text, 0).Some? {
      var i := First(sig, text, 0).value;
      var l := End(i, Spans(sig, text));
      EndsSuffix(sig, all, d, l);
      if Spans(sig, text) != [] {
        assert all[d..][l - i - 1..] == all[d + l - i - 1..];
      }
    }
  }

  /** Whatever the delimiter, after any chunks the leftovers are the rest of the stream. */
  lemma {:induction false} RunFollows(sig: Signature, chunks: seq<string>)
    requires sig.width >= 2
    ensures Follows(sig, Concat(chunks), Run(sig, chunks))
  {
    hide Follows, Step;
    if chunks != [] {
      var n := |chunks| - 1;
      RunFollows(sig, chunks[..n]);
      StepFollows(sig, Concat(chunks[..n]), Run(sig, chunks[..n]), chunks[n]);
    } else {
      StartFollows(sig);
    }
  }

  /** Where a call's text lies in the stream, and what the call emits. */
  lemma CallPlaced(sig: Signature, stream: string, p: Progress, chunk: string)
    requires sig.width >= 2 && Follows(sig, stream, p)
    ensures p.dropped <= |stream| && (stream + chunk)[p.dropped..] == p.leftovers + chunk
    ensures Step(sig, p, chunk).emitted == p.emitted + Shifted(Spans(sig, p.leftovers + chunk), p.dropped)
  {
    hide Covered, Spans, Carry, Shifted;
  }

  lemma StartFollows(sig: Signature)
    ensures Follows(sig, "", START)
  {}

  /** All spans lie in the first `n` bytes. */
  ghost predicate Within(spans: seq<Span>, n: int) {
    forall sp :: sp in spans ==> sp.from <= sp.to <= n
  }

  lemma SpansWithin(sig: Signature, text: string)
    requires sig.width >= 2
    ensures Within(Spans(sig, text), |text|)
  {
    CallEffect(sig, text);
    var spans := Spans(sig, text);
    hide Spans, SpansFrom, Carry, First;
    forall sp | sp in spans ensures sp.from <= sp.to <= |text| {
      var k :| 0 <= k < |spans| && spans[k] == sp;
      assert k < |spans| - 1 ==> spans[k].to <= spans[|spans| - 1].from;
    }
  }

  lemma {:induction false} EmittedWithin(sig: Signature, chunks: seq<string>)
    requires sig.width >= 2
    ensures Within(Run(sig, chunks).emitted, |Concat(chunks)|)
  {
    if chunks != [] {
      var n := |chunks| - 1;
      var p := Run(sig, chunks[..n]);
      EmittedWithin(sig, chunks[..n]);
      RunFollows(sig, chunks[..n]);
      AddedWithin(sig, Concat(chunks[..n]), p, chunks[n]);
    }
  }

  lemma AddedWithin(sig: Signature, stream: string, p: Progress, chunk: string)
    requires sig.width >= 2 && Follows(sig, stream, p)
    ensures Within(Shifted(Spans(sig, p.leftovers + chunk), p.dropped), |stream + chunk|)
  {
    hide Spans;
    var spans := Spans(sig, p.leftovers + chunk);
    SpansWithin(sig, p.leftovers + chunk);
    forall sp | sp in Shifted(spans, p.dropped) ensures sp.from <= sp.to <= |stream + chunk| {
      ShiftedMember(spans, p.dropped, sp.from, sp.to);
    }
  }

  lemma StepTracks(sig: Signature, stream: string, p: Progress, chunk: string)
    requires sig.width >= 2 && Spaced(sig, stream + chunk) && Tracks(sig, stream, p)
    ensures Tracks(sig, stream + chunk, Step(sig, p, chunk))
  {
    StepFollows(sig, stream, p, chunk);
    hide Follows, Step, Stretch, Spaced;
    forall a: nat, b: nat ensures Span(a, b) in Step(sig, p, chunk).emitted <==> Stretch(sig, stream + chunk, a, b) {
      StepEmits(sig, stream, p, chunk, a, b);
    }
  }

  lemma {:induction false} RunTracks(sig: Signature, chunks: seq<string>)
    requires sig.width >= 2 && Spaced(sig, Concat(chunks))
    ensures Tracks(sig, Concat(chunks), Run(sig, chunks))
  {
    if chunks != [] {
      var n := |chunks| - 1;
      SpacedPrefix(sig, Concat(chunks[..n]), chunks[n]);
      RunTracks(sig, chunks[..n]);
      StepTracks(sig, Concat(chunks[..n]), Run(sig, chunks[..n]), chunks[n]);
    }
  }

  lemma {:induction false} SpansFromApart(sig: Signature, text: string, i: nat, sp: Span)
    requires sig.width >= 2 && sp in SpansFrom(sig, text, i)
    ensures sp.from + sig.width - 1 <= sp.to
    decreases |text| + 1 - i
  {
    var j := First(sig, text, i + sig.width - 1).value;
    if sp != Span(i, j) {
      SpansFromApart(sig, text, j, sp);
    }
  }

  lemma SpansApart(sig: Signature, text: string, sp: Span)
    requires sig.width >= 2 && sp in Spans(sig, text)
    ensures sp.from + sig.width - 1 <= sp.to
  {
    SpansFromApart(sig, text, First(sig, text, 0).value, sp);
  }

  /** Whatever the stream, no emitted record is shorter than that. */
  lemma {:induction false} EmittedApart(sig: Signature, chunks: seq<string>, sp: Span)
    requires sig.width >= 2 && sp in Run(sig, chunks).emitted
    ensures sp.from + sig.width - 1 <= sp.to
  {
    hide Spans, Carry, Shifted;
    var n := |chunks| - 1;
    var p := Run(sig, chunks[..n]);
    var text := p.leftovers + chunks[n];
    if sp in p.emitted {
      EmittedApart(sig, chunks[..n], sp);
    } else {
      ShiftedMember(Spans(sig, text), p.dropped, sp.from, sp.to);
      SpansApart(sig, text, Span(sp.from - p.dropped, sp.to - p.dropped));
    }
  }

  /** Two delimiters of a text that overlap by more than one byte bound a record that is too short to be emitted. */
  lemma OverlapHidesStretch(sig: Signature, text: string, i: nat, j: nat) returns (b: nat)
    requires At(sig, text, i) && At(sig, text, j) && i < j && j + 1 < i + sig.width
    ensures Stretch(sig, text, i, b) && b + 1 < i + sig.width
  {
    b := First(sig, text, i + 1).value;
  }

  /** The spans emitted are exactly the stretches of the stream. */
  ghost predicate Exact(sig: Signature, chunks: seq<string>)
    requires sig.width >= 2
  {
    forall a: nat, b: nat :: Span(a, b) in Run(sig, chunks).emitted <==> Stretch(sig, Concat(chunks), a, b)
  }

  /** For each stream and each way of cutting it: no record is lost or invented exactly when no two delimiters of
      that very stream share more than one byte. */
  lemma ExactIffSpaced(sig: Signature, chunks: seq<string>)
    requires sig.width >= 2
    ensures Exact(sig, chunks) <==> Spaced(sig, Concat(chunks))
  {
    if Spaced(sig, Concat(chunks)) {
      RunTracks(sig, chunks);
    } else {
      var stream := Concat(chunks);
      var i: nat, j: nat :| At(sig, stream, i) && At(sig, stream, j) && i < j && !(i + sig.width <= j + 1);
      var b := OverlapHidesStretch(sig, stream, i, j);
      if Span(i, b) in Run(sig, chunks).emitted {
        EmittedApart(sig, chunks, Span(i, b));
      }
    }
  }

  /** However any stream is cut, the emitted spans are those of the whole stream. */
  ghost predicate Lossless(sig: Signature)
    requires sig.width >= 2
  {
    forall chunks :: Exact(sig, chunks)
  }

  /** Chunking never loses or invents records exactly when delimiters can share at most one byte. */
  lemma LosslessIffSpaced(sig: Signature)
    requires sig.width >= 2
    ensures Lossless(sig) <==> forall text :: Spaced(sig, text)
  {
    if forall text :: Spaced(sig, text) {
      forall chunks ensures Exact(sig, chunks) { ExactIffSpaced(sig, chunks); }
    }
    if Lossless(sig) {
      forall text ensures Spaced(sig, text) {
        ExactIffSpaced(sig, [text]);
        assert Concat([text][..0]) == "" && Concat([text]) == "" + text == text;
      }
    }
  }

  // ----- how often a record is emitted -----

  /** The text the k-th call works on. */
  function CallText(sig: Signature, chunks: seq<string>, k: nat): string
    requires sig.width >= 2 && k < |chunks|
  {
    Run(sig, chunks[..k]).leftovers + chunks[k]
  }

  /** 1-based position of the first delimiter, 0 if there is none. */
  function FirstPosition(sig: Signature, text: string): nat {
    match First(sig, text, 0) case None => 0 case Some(i) => i + 1
  }

  /** The first delimiter comes earlier than the last complete record is long; true of a call that emits nothing. */
  predicate Tight(sig: Signature, text: string)
    requires sig.width >= 2
  {
    var spans := Spans(sig, text);
    spans == [] || FirstPosition(sig, text) < spans[|spans| - 1].to - spans[|spans| - 1].from
  }

  ghost predicate NoDuplicates(spans: seq<Span>) {
    forall i, j :: 0 <= i < j < |spans| ==> spans[i] != spans[j]
  }

  /** An emitting call leaves over exactly `FirstPosition` bytes before the last delimiter, and all that follows. */
  lemma CarryLaw(sig: Signature, text: string)
    requires sig.width >= 2 && Spans(sig, text) != []
    ensures var spans := Spans(sig, text);
      var last := spans[|spans| - 1].to;
      && Ends(sig, text, last) && 0 < FirstPosition(sig, text) <= last
      && Carry(sig, text) == text[last - FirstPosition(sig, text)..]
  {
    hide Spans, SpansFrom, Carry, Ends, Ascending, At;
    CallEffect(sig, text);
  }

  /** No delimiter follows the last one. */
  lemma NoneAfter(sig: Signature, text: string, l: nat, m: nat)
    requires Spaced(sig, text) && Ends(sig, text, l) && l < m
    ensures !At(sig, text, m)
  {
    if At(sig, text, m) { SpacedApart(sig, text, l, m); }
  }

  lemma LastSpanStretch(sig: Signature, text: string, a: nat, b: nat)
    requires sig.width >= 2 && Spaced(sig, text) && Spans(sig, text) != []
    requires Spans(sig, text)[|Spans(sig, text)| - 1] == Span(a, b)
    ensures Stretch(sig, text, a, b) && Ends(sig, text, b)
  {
    hide Spans, SpansFrom, Carry, Ends, Ascending, At, Stretch, Spaced;
    CallEffect(sig, text);
    assert Span(a, b) in Spans(sig, text);
    SpansExact(sig, text, a, b);
  }

  lemma LooseLeavesRecord(sig: Signature, text: string)
    requires sig.width >= 2 && Spaced(sig, text) && !Tight(sig, text)
    ensures Spans(sig, Carry(sig, text)) != []
  {
    hide Spans, Carry, Spaced, FirstPosition, Stretch;
    var Span(a, b) := Spans(sig, text)[|Spans(sig, text)| - 1];
    LastSpanStretch(sig, text, a, b);
    CarryLaw(sig, text);
    var d := b - FirstPosition(sig, text);
    SpacedSuffix(sig, text, d);
    StretchSuffix(sig, text, d, a, b);
    SpansExact(sig, text[d..], a - d, b - d);
  }

  lemma TightLeavesNone(sig: Signature, text: string, sp: Span)
    requires sig.width >= 2 && Spaced(sig, text) && Spans(sig, text) != [] && Tight(sig, text)
    ensures sp !in Spans(sig, Carry(sig, text))
  {
    hide Spaced;
    var Span(a, b) := Spans(sig, text)[|Spans(sig, text)| - 1];
    LastSpanStretch(sig, text, a, b);
    CarryLaw(sig, text);
    var d := b - FirstPosition(sig, text);
    SpacedSuffix(sig, text, d);
    SpansExact(sig, text[d..], sp.from, sp.to);
    StretchSuffix(sig, text, d, sp.from + d, sp.to + d);
    if b < sp.to + d {
      NoneAfter(sig, text, b, sp.to + d);
    }
  }

  /** A call leaves no complete record behind exactly when it is tight. */
  lemma TightLeavesNoRecord(sig: Signature, text: string)
    requires sig.width >= 2 && Spaced(sig, text)
    ensures Tight(sig, text) <==> Spans(sig, Carry(sig, text)) == []
  {
    if !Tight(sig, text) {
      LooseLeavesRecord(sig, text);
    } else if Spans(sig, text) != [] {
      if Spans(sig, Carry(sig, text)) != [] {
        TightLeavesNone(sig, text, Spans(sig, Carry(sig, text))[0]);
      }
    } else {
      CallEffect(sig, text);
    }
  }

  /** After a tight emitting call the first delimiter sits one position further. */
  lemma PositionGrows(sig: Signature, text: string, more: string)
    requires sig.width >= 2 && Spaced(sig, text) && Spans(sig, text) != [] && Tight(sig, text)
    ensures FirstPosition(sig, Carry(sig, text) + more) == FirstPosition(sig, text) + 1
  {
    var spans := Spans(sig, text);
    var Span(a, b) := spans[|spans| - 1];
    LastSpanStretch(sig, text, a, b);
    CarryLaw(sig, text);
    var p := FirstPosition(sig, text);
    var d := b - p;
    var all := text + more;
    assert Carry(sig, text) + more == all[d..];
    AtPrefix(sig, text, more, b);
    AtSuffix(sig, all, d, b);
    forall m: nat | m < p ensures !At(sig, all[d..], m) {
      AtSuffix(sig, all, d, m + d);
      AtPrefix(sig, text, more, m + d);
    }
    assert First(sig, all[d..], 0).Some?;
  }

  lemma {:induction false} RunPrefix(sig: Signature, chunks: seq<string>, k: nat)
    requires sig.width >= 2 && k <= |chunks|
    ensures Run(sig, chunks[..k]).emitted <= Run(sig, chunks).emitted
    decreases |chunks| - k
  {
    if k < |chunks| {
      RunPrefix(sig, chunks, k + 1);
      StepLast(sig, chunks, k);
      hide Run, Spans, Carry, Shifted;
      assert Run(sig, chunks[..k]).emitted <= Run(sig, chunks[..k + 1]).emitted;
    } else {
      assert chunks[..k] == chunks;
    }
  }

  lemma StepLast(sig: Signature, chunks: seq<string>, k: nat)
    requires sig.width >= 2 && k < |chunks|
    ensures Run(sig, chunks[..k + 1]) == Step(sig, Run(sig, chunks[..k]), chunks[k])
    ensures Run(sig, chunks[..k + 1]).leftovers == Carry(sig, CallText(sig, chunks, k))
  {
    assert chunks[..k + 1][..k] == chunks[..k];
  }

  /** The text of a call is part of the stream. */
  lemma SpacedCall(sig: Signature, stream: string, p: Progress, chunk: string)
    requires Spaced(sig, stream + chunk) && Follows(sig, stream, p)
    ensures (stream + chunk)[p.dropped..] == p.leftovers + chunk
    ensures Spaced(sig, p.leftovers + chunk) && Spaced(sig, p.leftovers)
  {
    assert (stream + chunk)[p.dropped..] == p.leftovers + chunk;
    SpacedSuffix(sig, stream + chunk, p.dropped);
    SpacedPrefix(sig, p.leftovers, chunk);
  }

  lemma ConcatNext(chunks: seq<string>, k: nat)
    requires k < |chunks|
    ensures Concat(chunks[..k + 1]) == Concat(chunks[..k]) + chunks[k]
  {
    assert chunks[..k + 1][..k] == chunks[..k];
  }

  lemma SpacedCallText(sig: Signature, chunks: seq<string>, k: nat)
    requires sig.width >= 2 && Spaced(sig, Concat(chunks)) && k < |chunks|
    ensures Spaced(sig, CallText(sig, chunks, k))
  {
    hide Spaced, Concat, Follows, Run, Step;
    SpacedChunks(sig, chunks, k + 1);
    RunFollows(sig, chunks[..k]);
    ConcatNext(chunks, k);
    SpacedCall(sig, Concat(chunks[..k]), Run(sig, chunks[..k]), chunks[k]);
  }

  ghost predicate AllTight(sig: Signature, chunks: seq<string>)
    requires sig.width >= 2
  {
    forall k :: 0 <= k < |chunks| - 1 ==> Tight(sig, CallText(sig, chunks, k))
  }

  lemma AllTightPrefix(sig: Signature, chunks: seq<string>, k: nat)
    requires sig.width >= 2 && k <= |chunks| && AllTight(sig, chunks)
    ensures AllTight(sig, chunks[..k])
  {
    forall m | 0 <= m < k - 1 ensures Tight(sig, CallText(sig, chunks[..k], m)) {
      assert chunks[..k][..m] == chunks[..m];
      assert Tight(sig, CallText(sig, chunks, m));
    }
  }

  lemma RunNothing(sig: Signature, chunks: seq<string>)
    requires sig.width >= 2 && chunks == []
    ensures Run(sig, chunks) == START
  {}

  lemma NoSpansOfNothing(sig: Signature)
    requires sig.width >= 2
    ensures Spans(sig, "") == []
  {}

  lemma TightRunLeavesNoRecord(sig: Signature, chunks: seq<string>)
    requires sig.width >= 2 && Spaced(sig, Concat(chunks)) && chunks != [] && AllTight(sig, chunks)
    ensures Spans(sig, Run(sig, chunks[..|chunks| - 1]).leftovers) == []
  {
    hide Tight, Carry, Run, CallText, Spaced, Spans;
    var n := |chunks| - 1;
    if n > 0 {
      assert Tight(sig, CallText(sig, chunks, n - 1));
      StepLast(sig, chunks, n - 1);
      SpacedCallText(sig, chunks, n - 1);
      TightLeavesNoRecord(sig, CallText(sig, chunks, n - 1));
    } else {
      RunNothing(sig, chunks[..n]);
      NoSpansOfNothing(sig);
    }
  }

  lemma FirstPrefix(sig: Signature, text: string, more: string, from: nat)
    requires First(sig, text, from).Some?
    ensures First(sig, text + more, from) == First(sig, text, from)
  {
    var r, r' := First(sig, text, from).value, First(sig, text + more, from);
    AtPrefix(sig, text, more, r);
    if r'.Some? && r'.value < r { AtPrefix(sig, text, more, r'.value); }
  }

  lemma {:induction false} SpansFromPrefix(sig: Signature, text: string, more: string, i: nat)
    requires sig.width >= 2
    ensures SpansFrom(sig, text, i) <= SpansFrom(sig, text + more, i)
    decreases |text| + 1 - i
  {
    hide At;
    match First(sig, text, i + sig.width - 1)
    case None =>
    case Some(j) =>
      FirstPrefix(sig, text, more, i + sig.width - 1);
      if j <= |text| { SpansFromPrefix(sig, text, more, j); }
  }

  /** More text only adds spans at the end. */
  lemma SpansPrefix(sig: Signature, text: string, more: string)
    requires sig.width >= 2
    ensures Spans(sig, text) <= Spans(sig, text + more)
  {
    hide At;
    match First(sig, text, 0)
    case None =>
    case Some(i) =>
      FirstPrefix(sig, text, more, 0);
      SpansFromPrefix(sig, text, more, i);
  }

  /** The records the leftovers hold are records of the stream. */
  lemma HeldOver(sig: Signature, stream: string, p: Progress, a: nat, b: nat)
    requires sig.width >= 2 && Spaced(sig, stream) && Tracks(sig, stream, p) && Span(a, b) in Spans(sig, p.leftovers)
    ensures Span(a + p.dropped, b + p.dropped) in p.emitted
  {
    hide Spaced, Stretch, Spans, Covered;
    SpacedSuffix(sig, stream, p.dropped);
    SpansExact(sig, p.leftovers, a, b);
    StretchSuffix(sig, stream, p.dropped, a + p.dropped, b + p.dropped);
  }

  /** A record left complete in the leftovers is emitted again by the next call. */
  lemma StepRepeats(sig: Signature, stream: string, p: Progress, chunk: string) returns (sp: Span)
    requires sig.width >= 2 && Spaced(sig, stream) && Tracks(sig, stream, p) && Spans(sig, p.leftovers) != []
    ensures sp in p.emitted && sp in Shifted(Spans(sig, p.leftovers + chunk), p.dropped)
  {
    hide Spaced, Spans, Tracks;
    var held := Spans(sig, p.leftovers);
    var Span(a, b) := held[0];
    sp := Span(a + p.dropped, b + p.dropped);
    HeldOver(sig, stream, p, a, b);
    SpansPrefix(sig, p.leftovers, chunk);
    assert Spans(sig, p.leftovers + chunk)[0] == held[0];
    ShiftedMember(Spans(sig, p.leftovers + chunk), p.dropped, sp.from, sp.to);
  }

  lemma RepeatedMember(xs: seq<Span>, ys: seq<Span>, all: seq<Span>, sp: Span)
    requires sp in xs && sp in ys && xs + ys <= all
    ensures !NoDuplicates(all)
  {
    var i :| 0 <= i < |xs| && xs[i] == sp;
    var j :| 0 <= j < |ys| && ys[j] == sp;
    assert all[i] == (xs + ys)[i] && all[|xs| + j] == (xs + ys)[|xs| + j];
  }

  lemma LooseIsTwice(sig: Signature, chunks: seq<string>, k: nat)
    requires sig.width >= 2 && Spaced(sig, Concat(chunks)) && k + 1 < |chunks| && !Tight(sig, CallText(sig, chunks, k))
    ensures !NoDuplicates(Run(sig, chunks).emitted)
  {
    var p := Run(sig, chunks[..k + 1]);
    StepLast(sig, chunks, k);
    StepLast(sig, chunks, k + 1);
    SpacedCallText(sig, chunks, k);
    SpacedChunks(sig, chunks, k + 1);
    TightLeavesNoRecord(sig, CallText(sig, chunks, k));
    RunTracks(sig, chunks[..k + 1]);
    var sp := StepRepeats(sig, Concat(chunks[..k + 1]), p, chunks[k + 1]);
    RunPrefix(sig, chunks, k + 2);
    RepeatedMember(p.emitted, Shifted(Spans(sig, p.leftovers + chunks[k + 1]), p.dropped), Run(sig, chunks).emitted,
      sp);
  }

  // ----- in which order -----

  /** What a call completes starts no earlier than the last delimiter before it. */
  lemma NewStretchAfter(sig: Signature, stream: string, chunk: string, a: nat, b: nat, a': nat, b': nat)
    requires Stretch(sig, stream, a, b)
    requires Stretch(sig, stream + chunk, a', b') && !Stretch(sig, stream, a', b')
    ensures b <= a'
  {
    AtPrefix(sig, stream, chunk, b);
    StretchPrefix(sig, stream, chunk, a', b');
  }

  lemma AscendingConcat(xs: seq<Span>, ys: seq<Span>)
    requires Ascending(xs) && Ascending(ys)
    requires forall sp, sp' :: sp in xs && sp' in ys ==> sp.to <= sp'.from
    ensures Ascending(xs + ys)
  {
    var all := xs + ys;
    forall k, m | 0 <= k < m < |all| ensures all[k].to <= all[m].from {
      if k < |xs| <= m { assert all[k] in xs && all[m] in ys; }
    }
  }

  lemma ShiftedAscending(spans: seq<Span>, d: nat)
    requires Ascending(spans)
    ensures Ascending(Shifted(spans, d))
  {}

  /** A call on leftovers without a complete record emits in order, and after all that has been emitted. */
  lemma StepAscends(sig: Signature, stream: string, p: Progress, chunk: string)
    requires sig.width >= 2 && Spaced(sig, stream + chunk) && Tracks(sig, stream, p)
    requires Ascending(p.emitted) && Spans(sig, p.leftovers) == []
    ensures Ascending(Step(sig, p, chunk).emitted)
  {
    var text := p.leftovers + chunk;
    CallEffect(sig, text);
    hide Spaced, Stretch, Ascending, Spans, Shifted;
    if Spans(sig, text) != [] { ShiftedAscending(Spans(sig, text), p.dropped); } else { NothingShifted(p.dropped); }
    var added := Shifted(Spans(sig, text), p.dropped);
    forall sp, sp' | sp in p.emitted && sp' in added ensures sp.to <= sp'.from {
      assert Span(sp.from, sp.to) in p.emitted;
      AddedIsNew(sig, stream, p, chunk, sp');
      NewStretchAfter(sig, stream, chunk, sp.from, sp.to, sp'.from, sp'.to);
    }
    AscendingConcat(p.emitted, added);
  }

  lemma NothingShifted(d: nat)
    ensures Ascending(Shifted([], d))
  {}

  lemma AddedIsNew(sig: Signature, stream: string, p: Progress, chunk: string, sp: Span)
    requires sig.width >= 2 && Spaced(sig, stream + chunk) && Tracks(sig, stream, p) && Spans(sig, p.leftovers) == []
    requires sp in Shifted(Spans(sig, p.leftovers + chunk), p.dropped)
    ensures Stretch(sig, stream + chunk, sp.from, sp.to) && !Stretch(sig, stream, sp.from, sp.to)
  {
    hide Spaced, Stretch, Spans, Covered;
    var d, text := p.dropped, p.leftovers + chunk;
    SpacedCall(sig, stream, p, chunk);
    ShiftedMember(Spans(sig, text), d, sp.from, sp.to);
    SpansExact(sig, text, sp.from - d, sp.to - d);
    StretchSuffix(sig, stream + chunk, d, sp.from, sp.to);
    SpansExact(sig, p.leftovers, sp.from - d, sp.to - d);
    StretchSuffix(sig, stream, d, sp.from, sp.to);
  }

  lemma {:induction false} TightAscends(sig: Signature, chunks: seq<string>)
    requires sig.width >= 2 && Spaced(sig, Concat(chunks)) && AllTight(sig, chunks)
    ensures Ascending(Run(sig, chunks).emitted)
  {
    if chunks != [] {
      var n := |chunks| - 1;
      hide Spaced, AllTight, Tracks, Step, Spans, Ascending;
      AllTightPrefix(sig, chunks, n);
      SpacedChunks(sig, chunks, n);
      TightAscends(sig, chunks[..n]);
      RunTracks(sig, chunks[..n]);
      TightRunLeavesNoRecord(sig, chunks);
      StepAscends(sig, Concat(chunks[..n]), Run(sig, chunks[..n]), chunks[n]);
    }
  }

  lemma AscendingHead(xs: seq<Span>, ys: seq<Span>)
    requires Ascending(xs) && Ascending(ys) && xs != [] && ys != [] && forall sp :: sp in xs <==> sp in ys
    ensures xs[0] == ys[0]
  {
    assert xs[0] in ys && ys[0] in xs;
    var i :| 0 <= i < |ys| && ys[i] == xs[0];
    var j :| 0 <= j < |xs| && xs[j] == ys[0];
  }

  lemma AscendingTail(xs: seq<Span>)
    requires Ascending(xs) && xs != []
    ensures Ascending(xs[1..]) && xs[0] !in xs[1..] && forall sp :: sp in xs <==> sp == xs[0] || sp in xs[1..]
  {
    assert xs == [xs[0]] + xs[1..];
    forall i | 0 <= i < |xs[1..]| ensures xs[1..][i] != xs[0] { assert xs[0].to <= xs[i + 1].from; }
  }

  lemma SameTails(xs: seq<Span>, ys: seq<Span>)
    requires Ascending(xs) && Ascending(ys) && xs != [] && ys != [] && forall sp :: sp in xs <==> sp in ys
    ensures xs[0] == ys[0] && Ascending(xs[1..]) && Ascending(ys[1..])
    ensures forall sp :: sp in xs[1..] <==> sp in ys[1..]
  {
    hide Ascending;
    AscendingHead(xs, ys);
    AscendingTail(xs);
    AscendingTail(ys);
    forall sp ensures sp in xs[1..] <==> sp in ys[1..] {
      assert sp in xs <==> sp in ys;
    }
  }

  lemma HasMember(xs: seq<Span>)
    ensures xs != [] ==> exists sp :: sp in xs
  {
    if xs != [] { assert xs[0] in xs; }
  }

  /** Two ordered lists of the same spans are one. */
  lemma {:induction false} AscendingUnique(xs: seq<Span>, ys: seq<Span>)
    requires Ascending(xs) && Ascending(ys) && forall sp :: sp in xs <==> sp in ys
    ensures xs == ys
  {
    hide Ascending;
    HasMember(xs);
    HasMember(ys);
    if xs != [] && ys != [] {
      SameTails(xs, ys);
      AscendingUnique(xs[1..], ys[1..]);
      assert xs == [xs[0]] + xs[1..] && ys == [ys[0]] + ys[1..];
    }
  }

  lemma SpansAscend(sig: Signature, text: string)
    requires sig.width >= 2
    ensures Ascending(Spans(sig, text))
  {
    CallEffect(sig, text);
  }

  lemma AscendingIsOnce(spans: seq<Span>)
    requires Ascending(spans)
    ensures NoDuplicates(spans)
  {
    forall i, j | 0 <= i < j < |spans| ensures spans[i] != spans[j] { assert spans[i].to <= spans[j].from; }
  }

  /** Every record is emitted once exactly when every call but the last is tight. */
  lemma OnceIffTight(sig: Signature, chunks: seq<string>)
    requires sig.width >= 2 && Spaced(sig, Concat(chunks))
    ensures NoDuplicates(Run(sig, chunks).emitted) <==> AllTight(sig, chunks)
  {
    if AllTight(sig, chunks) {
      TightAscends(sig, chunks);
      AscendingIsOnce(Run(sig, chunks).emitted);
    } else {
      var k :| 0 <= k < |chunks| - 1 && !Tight(sig, CallText(sig, chunks, k));
      LooseIsTwice(sig, chunks, k);
    }
  }

  /** Handled in chunks, a stream gives the very list of records it would give in one piece exactly when every call
      but the last is tight. */
  lemma WholeIffTight(sig: Signature, chunks: seq<string>)
    requires sig.width >= 2 && Spaced(sig, Concat(chunks))
    ensures Run(sig, chunks).emitted == Spans(sig, Concat(chunks)) <==> AllTight(sig, chunks)
  {
    hide Run, Spans, AllTight, Spaced, Stretch;
    var stream, emitted := Concat(chunks), Run(sig, chunks).emitted;
    SpansAscend(sig, stream);
    OnceIffTight(sig, chunks);
    AscendingIsOnce(Spans(sig, stream));
    if AllTight(sig, chunks) {
      TightAscends(sig, chunks);
      RunTracks(sig, chunks);
      forall sp ensures sp in emitted <==> sp in Spans(sig, stream) {
        SpansExact(sig, stream, sp.from, sp.to);
        assert Span(sp.from, sp.to) in emitted <==> Stretch(sig, stream, sp.from, sp.to);
      }
      AscendingUnique(emitted, Spans(sig, stream));
    }
  }

  // ----- what a call emits again -----

  /** Where in an ordered list the spans from `d` on begin. */
  lemma {:induction false} AscendingCut(spans: seq<Span>, d: nat) returns (n: nat)
    requires Ascending(spans)
    ensures n <= |spans|
    ensures forall k :: 0 <= k < |spans| ==> (spans[k].from < d <==> k < n)
  {
    n := 0;
    while n < |spans| && spans[n].from < d
      invariant 0 <= n <= |spans| && forall k :: 0 <= k < n ==> spans[k].from < d
    {
      n := n + 1;
    }
    forall k | n <= k < |spans| ensures spans[k].from >= d {
      assert k > n ==> spans[n].to <= spans[k].from;
    }
  }

  lemma AscendingRest(spans: seq<Span>, n: nat)
    requires Ascending(spans) && n <= |spans|
    ensures Ascending(spans[n..])
  {
    assert forall k :: 0 <= k < |spans[n..]| ==> spans[n..][k] == spans[n + k];
  }

  /** The spans of the rest of a text are the last spans of the text. */
  lemma SpansOfRest(sig: Signature, text: string, d: nat) returns (n: nat)
    requires sig.width >= 2 && Spaced(sig, text) && d <= |text|
    ensures n <= |Spans(sig, text)| && Shifted(Spans(sig, text[d..]), d) == Spans(sig, text)[n..]
    ensures forall k :: 0 <= k < |Spans(sig, text)| ==> (Spans(sig, text)[k].from < d <==> k < n)
  {
    hide Spans, Spaced, Stretch, Ascending;
    var spans := Spans(sig, text);
    SpansAscend(sig, text);
    SpansAscend(sig, text[d..]);
    n := AscendingCut(spans, d);
    AscendingRest(spans, n);
    ShiftedAscending(Spans(sig, text[d..]), d);
    forall sp ensures sp in Shifted(Spans(sig, text[d..]), d) <==> sp in spans[n..] {
      ShiftedMember(Spans(sig, text[d..]), d, sp.from, sp.to);
      SpansExact(sig, text, sp.from, sp.to);
      SpacedSuffix(sig, text, d);
      if d <= sp.from && d <= sp.to {
        SpansExact(sig, text[d..], sp.from - d, sp.to - d);
        StretchSuffix(sig, text, d, sp.from, sp.to);
      }
      RestMember(spans, n, d, sp);
      SpansWithin(sig, text);
    }
    AscendingUnique(Shifted(Spans(sig, text[d..]), d), spans[n..]);
  }

  lemma RestMember(spans: seq<Span>, n: nat, d: nat, sp: Span)
    requires n <= |spans| && forall k :: 0 <= k < |spans| ==> (spans[k].from < d <==> k < n)
    ensures sp in spans[n..] <==> sp in spans && d <= sp.from
  {
    if sp in spans && d <= sp.from {
      var k :| 0 <= k < |spans| && spans[k] == sp;
      assert spans[n..][k - n] == sp;
    }
  }

  /** A call emits again the last records of the stream so far, as many as its leftovers hold, and then the records it
      completes. */
  lemma StepReplays(sig: Signature, stream: string, p: Progress, chunk: string) returns (n: nat)
    requires sig.width >= 2 && Spaced(sig, stream + chunk) && Tracks(sig, stream, p)
    ensures var before, after := Spans(sig, stream), Spans(sig, stream + chunk);
      && before <= after && n <= |before|
      && Shifted(Spans(sig, p.leftovers), p.dropped) == before[n..]
      && Shifted(Spans(sig, p.leftovers + chunk), p.dropped) == before[n..] + after[|before|..]
  {
    hide Spans, Spaced, Stretch, Covered, Shifted;
    var d, all := p.dropped, stream + chunk;
    var before, after := Spans(sig, stream), Spans(sig, all);
    SpacedPrefix(sig, stream, chunk);
    SpansPrefix(sig, stream, chunk);
    n := SpansOfRest(sig, stream, d);
    assert all[d..] == p.leftovers + chunk;
    var n' := SpansOfRest(sig, all, d);
    forall k | |before| <= k < |after| ensures d <= after[k].from {
      NewSpanKept(sig, stream, p, chunk, k);
    }
    assert forall k :: 0 <= k < |before| ==> after[k] == before[k];
    SameCut(before, after, d, n, n');
  }

  lemma CutAt(before: seq<Span>, after: seq<Span>, d: nat, n: nat, n': nat, k: nat)
    requires before <= after && n <= |before| && n' <= |after| && k < |after|
    requires forall k :: 0 <= k < |before| ==> (before[k].from < d <==> k < n)
    requires forall k :: 0 <= k < |after| ==> (after[k].from < d <==> k < n')
    requires forall k :: |before| <= k < |after| ==> d <= after[k].from
    ensures k < n <==> k < n'
  {
    assert after[k].from < d <==> k < n';
    if k < |before| { assert after[k] == before[k]; }
  }

  lemma SameCut(before: seq<Span>, after: seq<Span>, d: nat, n: nat, n': nat)
    requires before <= after && n <= |before| && n' <= |after|
    requires forall k :: 0 <= k < |before| ==> (before[k].from < d <==> k < n)
    requires forall k :: 0 <= k < |after| ==> (after[k].from < d <==> k < n')
    requires forall k :: |before| <= k < |after| ==> d <= after[k].from
    ensures n == n' && after[n..] == before[n..] + after[|before|..]
  {
    if n < |after| { CutAt(before, after, d, n, n', n); }
    if n' < |after| { CutAt(before, after, d, n, n', n'); }
  }

  lemma NewSpanKept(sig: Signature, stream: string, p: Progress, chunk: string, k: nat)
    requires sig.width >= 2 && Spaced(sig, stream + chunk) && Tracks(sig, stream, p)
    requires Spans(sig, stream) <= Spans(sig, stream + chunk)
    requires |Spans(sig, stream)| <= k < |Spans(sig, stream + chunk)|
    ensures p.dropped <= Spans(sig, stream + chunk)[k].from
  {
    var before, after := Spans(sig, stream), Spans(sig, stream + chunk);
    SpansAscend(sig, stream + chunk);
    AscendingIsOnce(after);
    forall m | 0 <= m < |before| ensures before[m] != after[k] { assert after[m] == before[m]; }
    hide Spans, Spaced, Stretch, Ascending, NoDuplicates, Tracks;
    var Span(a, b) := after[k];
    SpacedPrefix(sig, stream, chunk);
    SpansExact(sig, stream + chunk, a, b);
    SpansExact(sig, stream, a, b);
    NewStretchKept(sig, stream, p, chunk, a, b);
  }

  /** How many of the first `m` calls emit. */
  function EmittingCalls(sig: Signature, chunks: seq<string>, m: nat): nat
    requires sig.width >= 2 && m <= |chunks|
  {
    if m == 0 then 0
    else EmittingCalls(sig, chunks, m - 1) + if Spans(sig, CallText(sig, chunks, m - 1)) == [] then 0 else 1
  }

  /** Whatever follows these leftovers, the first delimiter is at a position above `c`. */
  ghost predicate Receded(sig: Signature, leftovers: string, c: nat) {
    forall more :: FirstPosition(sig, leftovers + more) == 0 || FirstPosition(sig, leftovers + more) > c
  }

  lemma StepRecedes(sig: Signature, leftovers: string, chunk: string, text: string, c: nat)
    requires sig.width >= 2 && Spaced(sig, text) && text == leftovers + chunk
    requires Receded(sig, leftovers, c) && Tight(sig, text)
    ensures Receded(sig, Carry(sig, text), c + if Spans(sig, text) == [] then 0 else 1)
  {
    if Spans(sig, text) == [] {
      CallEffect(sig, text);
      forall more ensures FirstPosition(sig, text + more) == 0 || FirstPosition(sig, text + more) > c {
        assert leftovers + (chunk + more) == text + more;
      }
    } else {
      CarryLaw(sig, text);
      assert leftovers + chunk == text;
      forall more ensures FirstPosition(sig, Carry(sig, text) + more) > c + 1 {
        PositionGrows(sig, text, more);
      }
    }
  }

  /** In a run of tight calls, each emitting call pushes the first delimiter one position away from the front. */
  lemma {:induction false} DelimiterRecedes(sig: Signature, chunks: seq<string>, m: nat)
    requires sig.width >= 2 && Spaced(sig, Concat(chunks)) && m <= |chunks|
    requires forall k :: 0 <= k < m ==> Tight(sig, CallText(sig, chunks, k))
    ensures Receded(sig, Run(sig, chunks[..m]).leftovers, EmittingCalls(sig, chunks, m))
    decreases m
  {
    hide Receded, Carry, Spans, Tight, Run, Step;
    if m > 0 {
      DelimiterRecedes(sig, chunks, m - 1);
      var text := CallText(sig, chunks, m - 1);
      var leftovers := Run(sig, chunks[..m - 1]).leftovers;
      StepLast(sig, chunks, m - 1);
      SpacedCallText(sig, chunks, m - 1);
      StepRecedes(sig, leftovers, chunks[m - 1], text, EmittingCalls(sig, chunks, m - 1));
    } else {
      NothingReceded(sig);
      RunNothing(sig, chunks[..0]);
    }
  }

  lemma NothingReceded(sig: Signature)
    ensures Receded(sig, "", 0)
  {}

  lemma LastSpanEmitted(sig: Signature, chunks: seq<string>, k: nat) returns (sp: Span)
    requires sig.width >= 2 && k < |chunks| && Spans(sig, CallText(sig, chunks, k)) != []
    ensures sp in Run(sig, chunks).emitted
    ensures var spans := Spans(sig, CallText(sig, chunks, k));
      sp.to - sp.from == spans[|spans| - 1].to - spans[|spans| - 1].from
  {
    StepLast(sig, chunks, k);
    var spans := Spans(sig, CallText(sig, chunks, k));
    var shifted := Shifted(spans, Run(sig, chunks[..k]).dropped);
    sp := shifted[|spans| - 1];
    RunPrefix(sig, chunks, k + 1);
    assert sp in Run(sig, chunks[..k]).emitted + shifted;
  }

  /** Once the first delimiter has receded, only a longer record keeps a call tight. */
  lemma RecededNeedsLength(sig: Signature, leftovers: string, chunk: string, c: nat)
    requires sig.width >= 2 && Receded(sig, leftovers, c) && Tight(sig, leftovers + chunk)
    requires Spans(sig, leftovers + chunk) != []
    ensures var spans := Spans(sig, leftovers + chunk); spans[|spans| - 1].to - spans[|spans| - 1].from > c + 1
  {
    hide Spans, Carry;
    CarryLaw(sig, leftovers + chunk);
  }

  /** In a tight run, a call that emits for the `len`-th time cuts a record longer than `len`. */
  lemma {:induction false} TightNeedsLength(sig: Signature, chunks: seq<string>, m: nat, len: nat) returns (sp: Span)
    requires sig.width >= 2 && Spaced(sig, Concat(chunks)) && m < |chunks| && AllTight(sig, chunks)
    requires EmittingCalls(sig, chunks, m) >= len >= 1
    ensures sp in Run(sig, chunks).emitted && sp.to - sp.from > len
    decreases m
  {
    hide Run, Spans, Tight, Receded, Spaced, Concat;
    if EmittingCalls(sig, chunks, m - 1) >= len {
      sp := TightNeedsLength(sig, chunks, m - 1, len);
    } else {
      DelimiterRecedes(sig, chunks, m - 1);
      assert Tight(sig, CallText(sig, chunks, m - 1));
      RecededNeedsLength(sig, Run(sig, chunks[..m - 1]).leftovers, chunks[m - 1], EmittingCalls(sig, chunks, m - 1));
      sp := LastSpanEmitted(sig, chunks, m - 1);
    }
  }

  /** With records of at most `len` bytes, once `len` calls have emitted, a later call has repeated a record. */
  lemma DuplicatesInevitable(sig: Signature, chunks: seq<string>, len: nat)
    requires sig.width >= 2 && Spaced(sig, Concat(chunks)) && chunks != []
    requires forall sp :: sp in Run(sig, chunks).emitted ==> sp.to - sp.from <= len
    requires EmittingCalls(sig, chunks, |chunks| - 1) >= len >= 1
    ensures !NoDuplicates(Run(sig, chunks).emitted)
  {
    hide Run, AllTight, EmittingCalls, NoDuplicates, Spaced;
    OnceIffTight(sig, chunks);
    if AllTight(sig, chunks) {
      var sp := TightNeedsLength(sig, chunks, |chunks| - 1, len);
    }
  }
}
