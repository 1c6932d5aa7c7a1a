/** The record-cutting loop of `grind.handle`, and the simple scan it has to agree with. */
module Segmentation {
  import opened Lua

  /** A record delimiter: a test on windows of `width` bytes and the groups it captures. */
  datatype Signature = Signature(width: nat, matches: string -> bool, captures: string -> seq<Value>)

  /** The delimiter occurs in `text` at 0-based offset `i`. */
  predicate At(sig: Signature, text: string, i: int) {
    0 <= i && i + sig.width <= |text| && sig.matches(text[i..i + sig.width])
  }

  /** Least occurrence at or after `from`. */
  function First(sig: Signature, text: string, from: nat): (r: Option<nat>)
    ensures r.Some? ==> from <= r.value && At(sig, text, r.value)
    ensures forall m :: from <= m && (r.Some? ==> m < r.value) ==> !At(sig, text, m)
    decreases |text| + 1 - from
  {
    if from > |text| then None
    else if At(sig, text, from) then Some(from)
    else First(sig, text, from + 1)
  }

  datatype Found = NotFound | Found(b: nat, e: nat)

  /** `rex:find(text, init)`: 1-based bounds of the leftmost match starting at `init`; 0 means 1. */
  function Find(sig: Signature, text: string, init: nat): (r: Found)
    ensures r.Found? ==> 1 <= r.b && r.e == r.b - 1 + sig.width && r.e <= |text| && init <= r.b
  {
    match First(sig, text, if init == 0 then 0 else init - 1)
    case None => NotFound
    case Some(i) => Found(i + 1, i + sig.width)
  }

  /** A stretch between two delimiters, by 0-based offsets of their first bytes. */
  datatype Span = Span(from: nat, to: nat)

  /** What `handle` takes out of a stretch: the bytes after the delimiter, and the whole stretch. */
  datatype Record = Record(raw: string, stretch: string)

  /** Stretches cut when the search continues from the occurrence at `i`. */
  function SpansFrom(sig: Signature, text: string, i: nat): seq<Span>
    requires sig.width >= 2
    decreases |text| + 1 - i
  {
    match First(sig, text, i + sig.width - 1)
    case None => []
    case Some(j) => if j <= |text| then [Span(i, j)] + SpansFrom(sig, text, j) else []
  }

  function Spans(sig: Signature, text: string): seq<Span>
    requires sig.width >= 2
  {
    match First(sig, text, 0)
    case None => []
    case Some(i) => SpansFrom(sig, text, i)
  }

  function RecordOf(sig: Signature, text: string, sp: Span): Record {
    Record(Sub(text, sp.from + sig.width + 1, sp.to), Sub(text, sp.from + 1, sp.to))
  }

  /** The record is what follows the delimiter, and the stretch begins with the delimiter itself. */
  lemma RecordIs(sig: Signature, text: string, a: nat, b: nat)
    requires a <= b <= |text|
    ensures var rec := RecordOf(sig, text, Span(a, b));
      rec.stretch == text[a..b] && rec.raw == if a + sig.width <= b then text[a + sig.width..b] else ""
  {}

  /** What one call leaves for the next: `text:sub(consumed)` with the distances `b2 - b` added up. */
  function Consumed(spans: seq<Span>): int {
    if spans == [] then 0 else Consumed(spans[..|spans| - 1]) + spans[|spans| - 1].to - spans[|spans| - 1].from
  }

  function Carry(sig: Signature, text: string): string
    requires sig.width >= 2
  {
    SubFrom(text, Consumed(Spans(sig, text)))
  }

  // ----- the record-cutting loop -----

  /** The spans still to come when the loop's end index is `e`. */
  function SpansFromEnd(sig: Signature, text: string, e: nat): seq<Span>
    requires sig.width >= 2
  {
    match First(sig, text, if e == 0 then 0 else e - 1)
    case None => []
    case Some(i) => SpansFrom(sig, text, i)
  }

  lemma NoNextSpan(sig: Signature, text: string, i: nat)
    requires sig.width >= 2 && First(sig, text, i + sig.width - 1) == None
    ensures SpansFrom(sig, text, i) == []
  {}

  /** A one-byte delimiter is found again where it was: the loop would never end. */
  lemma NarrowDelimiterStalls(sig: Signature, text: string, e: nat)
    requires sig.width == 1 && Find(sig, text, e).Found?
    ensures var f := Find(sig, text, e); Find(sig, text, f.e) == f
  {}

  /** The loop has cut `spans` and added up `consumed`. */
  ghost predicate CutUpTo(sig: Signature, text: string, e: nat, spans: seq<Span>, consumed: int)
    requires sig.width >= 2
  {
    e <= |text| && Spans(sig, text) == spans + SpansFromEnd(sig, text, e) && consumed == Consumed(spans)
  }

  lemma CutStart(sig: Signature, text: string)
    requires sig.width >= 2
    ensures CutUpTo(sig, text, 0, [], 0)
  {
    assert [] + SpansFromEnd(sig, text, 0) == Spans(sig, text);
  }

  lemma FoundNext(sig: Signature, text: string, e: nat, f: Found)
    requires sig.width >= 2 && f == Find(sig, text, e) && f != NotFound
    ensures SpansFromEnd(sig, text, e) == SpansFrom(sig, text, f.b - 1)
  {}

  lemma FoundAfter(sig: Signature, text: string, i: nat, e: nat, f2: Found)
    requires sig.width >= 2 && e == i + sig.width && f2 == Find(sig, text, e) && f2 != NotFound
    ensures SpansFrom(sig, text, i) == [Span(i, f2.b - 1)] + SpansFrom(sig, text, f2.b - 1)
  {
    var from := i + sig.width - 1;
    assert First(sig, text, from) == Some(f2.b - 1);
  }

  lemma Regroup(whole: seq<Span>, spans: seq<Span>, sp: Span, rest: seq<Span>)
    requires whole == spans + ([sp] + rest)
    ensures whole == (spans + [sp]) + rest
  {}

  /** One round: the two searches give the next span, and the end index strictly increases. */
  lemma CutRound(sig: Signature, text: string, e: nat, spans: seq<Span>, consumed: int, f: Found, f2: Found,
                 cut: seq<Span>)
    requires sig.width >= 2 && CutUpTo(sig, text, e, spans, consumed)
    requires f == Find(sig, text, e) && f != NotFound && f2 == Find(sig, text, f.e) && f2 != NotFound
    requires cut == spans + [Span(f.b - 1, f2.b - 1)]
    ensures e < f.e <= |text| && f.b <= f2.b
    ensures CutUpTo(sig, text, f.e, cut, consumed + f2.b - f.b)
  {
    FoundNext(sig, text, e, f);
    FoundAfter(sig, text, f.b - 1, f.e, f2);
    FoundNext(sig, text, f.e, f2);
    Regroup(Spans(sig, text), spans, Span(f.b - 1, f2.b - 1), SpansFrom(sig, text, f2.b - 1));
    ConsumedAppended(spans, Span(f.b - 1, f2.b - 1));
  }

  lemma ConsumedAppended(spans: seq<Span>, sp: Span)
    ensures Consumed(spans + [sp]) == Consumed(spans) + sp.to - sp.from
  {
    assert (spans + [sp])[..|spans|] == spans;
  }

  lemma CutDone(sig: Signature, text: string, e: nat, spans: seq<Span>, consumed: int, f: Found, f2: Found)
    requires sig.width >= 2 && CutUpTo(sig, text, e, spans, consumed)
    requires f == Find(sig, text, e) && f2 == Find(sig, text, if f.Found? then f.e else 1)
    requires f == NotFound || f2 == NotFound
    ensures spans == Spans(sig, text) && consumed == Consumed(spans)
  {
    if f != NotFound {
      NoNextSpan(sig, text, f.b - 1);
    }
    assert spans + [] == spans;
  }
}
