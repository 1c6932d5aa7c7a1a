/** Commands and chunks in any interleaving: every record is dispatched to those subscribed when it is emitted. */
module LiveStream {
  import opened Segmentation
  import opened Stream
  import opened Config
  import opened Registry
  import opened RegistryInvariant
  import opened Dispatch
  import opened DispatchLaws
  import opened ScanLaws
  import opened Engine
  import opened EndToEnd

  datatype Move = Command(e: Event) | Data(chunk: Chunk)

  /** The group whose stream it is, and the regular expressions filters use. */
  datatype Setup = Setup(groups: Groups, name: string, regex: (string, string) -> bool)

  ghost predicate ValidSetup(su: Setup) {
    WellFormed(su.groups) && su.name in su.groups && su.groups[su.name].signature.width >= 2
  }

  /** The commands given so far, the stream and what has become of it, the contexts, and the deliveries. */
  datatype World = World(events: seq<Event>, stream: string, p: Progress, cx: Contexts, sent: seq<Delivery>)

  const BEGINNING := World([], "", START, Contexts(map[], map[]), [])

  function SceneOf(su: Setup, events: seq<Event>, ord: Order): Scene
    requires su.name in su.groups
  {
    Scene(su.name, su.groups[su.name], Registry.Run(su.groups, events), ord, su.regex)
  }

  lemma SceneListed(su: Setup, events: seq<Event>, ord: Order)
    requires ValidSetup(su) && Enumerates(ord)
    ensures Listed(SceneOf(su, events, ord))
  {
    ReachableConsistent(su.groups, events);
    SettledListed(su.groups, SceneOf(su, events, ord), Overwritten(su.groups, events));
  }

  ghost predicate Ordered(moves: seq<Move>) {
    forall m :: m in moves && m.Data? ==> Enumerates(m.chunk.ord)
  }

  function Text(w: World, chunk: Chunk): string {
    w.p.leftovers + chunk.text
  }

  /** One call of `handle`. */
  function Receive(su: Setup, w: World, chunk: Chunk): World
    requires ValidSetup(su) && Enumerates(chunk.ord)
  {
    SceneListed(su, w.events, chunk.ord);
    var sig := su.groups[su.name].signature;
    var out := DispatchSpans(SceneOf(su, w.events, chunk.ord), w.cx, Text(w, chunk), Spans(sig, Text(w, chunk)));
    World(w.events, w.stream + chunk.text, Step(sig, w.p, chunk.text), out.cx, w.sent + out.sent)
  }

  function Next(su: Setup, w: World, move: Move): World
    requires ValidSetup(su) && Ordered([move])
  {
    match move
    case Command(e) => w.(events := w.events + [e])
    case Data(chunk) => assert move in [move]; Receive(su, w, chunk)
  }

  function Go(su: Setup, moves: seq<Move>): World
    requires ValidSetup(su) && Ordered(moves)
  {
    if moves == [] then BEGINNING
    else
      var n := |moves| - 1;
      assert moves[n] in moves;
      Next(su, Go(su, moves[..n]), moves[n])
  }

  /** The records a call emits, by their place in the stream. */
  function Emits(su: Setup, w: World, chunk: Chunk): seq<Span>
    requires ValidSetup(su)
  {
    Shifted(Spans(su.groups[su.name].signature, Text(w, chunk)), w.p.dropped)
  }

  /** A call has to send this: it emits a record in which a scan for the subscriptions of that moment finds it. */
  ghost predicate DueNow(su: Setup, w: World, chunk: Chunk, d: Delivery)
    requires ValidSetup(su)
  {
    SelectedIn(SceneOf(su, w.events, chunk.ord), w.stream + chunk.text, Emits(su, w, chunk), d)
  }

  /** No format disturbs another on the records the call emits. */
  ghost predicate CalmNow(su: Setup, w: World, chunk: Chunk)
    requires ValidSetup(su)
  {
    CalmSpans(SceneOf(su, w.events, chunk.ord), w.stream + chunk.text, Emits(su, w, chunk))
  }

  ghost predicate Placed(su: Setup, w: World)
    requires ValidSetup(su)
  {
    Follows(su.groups[su.name].signature, w.stream, w.p)
  }

  lemma {:induction false} GoPlaced(su: Setup, moves: seq<Move>)
    requires ValidSetup(su) && Ordered(moves)
    ensures Placed(su, Go(su, moves))
  {
    hide Follows, Step, Enumerates, DispatchSpans;
    var sig := su.groups[su.name].signature;
    if moves == [] {
      StartFollows(sig);
    } else {
      var n := |moves| - 1;
      var w := Go(su, moves[..n]);
      GoPlaced(su, moves[..n]);
      if moves[n].Data? {
        WidthOf(su);
        StepFollows(sig, w.stream, w.p, moves[n].chunk.text);
      }
    }
  }

  lemma WidthOf(su: Setup)
    requires ValidSetup(su)
    ensures su.groups[su.name].signature.width >= 2
  {}

  /** A call sends exactly what is due. */
  lemma ReceiveSends(su: Setup, w: World, chunk: Chunk, d: Delivery)
    requires ValidSetup(su) && Stateless(su.groups[su.name]) && Enumerates(chunk.ord) && Placed(su, w)
    requires CalmNow(su, w, chunk)
    ensures d in Receive(su, w, chunk).sent <==> d in w.sent || DueNow(su, w, chunk, d)
  {
    var sig := su.groups[su.name].signature;
    var sc := SceneOf(su, w.events, chunk.ord);
    var all := w.stream + chunk.text;
    SceneListed(su, w.events, chunk.ord);
    assert all[w.p.dropped..] == Text(w, chunk);
    hide Stateless, Enumerates, DispatchSpans, Spans, Listed, RecordOf, SelectedIn, Shifted, Undisturbed;
    SpansWithin(sig, Text(w, chunk));
    ShiftedRecords(sig, all, w.p.dropped, Spans(sig, Text(w, chunk)));
    CalmUnshifted(sc, all, w.p.dropped, Spans(sig, Text(w, chunk)));
    SpansSelected(su.groups, w.events, sc, w.cx, Text(w, chunk), Spans(sig, Text(w, chunk)), d);
    SelectedInShifted(sc, all, w.p.dropped, Spans(sig, Text(w, chunk)), d);
  }

  lemma CalmUnshifted(sc: Scene, stream: string, n: nat, spans: seq<Span>)
    requires n <= |stream| && Within(spans, |stream| - n) && CalmSpans(sc, stream, Shifted(spans, n))
    ensures CalmSpans(sc, stream[n..], spans)
  {
    hide Undisturbed, RecordOf;
    ShiftedRecords(sc.group.signature, stream, n, spans);
    forall sp | sp in spans ensures Undisturbed(sc, RecordOf(sc.group.signature, stream[n..], sp)) {
      var i :| 0 <= i < |spans| && spans[i] == sp;
      assert Shifted(spans, n)[i] in Shifted(spans, n);
    }
  }

  ghost predicate DueAt(su: Setup, moves: seq<Move>, n: nat, d: Delivery)
    requires ValidSetup(su) && Ordered(moves) && n < |moves|
  {
    moves[n].Data? && DueNow(su, Go(su, moves[..n]), moves[n].chunk, d)
  }

  ghost predicate CalmMoves(su: Setup, moves: seq<Move>)
    requires ValidSetup(su) && Ordered(moves)
  {
    forall n :: 0 <= n < |moves| && moves[n].Data? ==> CalmNow(su, Go(su, moves[..n]), moves[n].chunk)
  }

  lemma EarlierMoves(su: Setup, moves: seq<Move>, k: nat, n: nat)
    requires ValidSetup(su) && Ordered(moves) && n < k <= |moves|
    ensures Ordered(moves[..k]) && Go(su, moves[..k][..n]) == Go(su, moves[..n]) && moves[..k][n] == moves[n]
  {
    assert moves[..k][..n] == moves[..n];
  }

  /** For every interleaving of commands and chunks: a delivery is made exactly when some call emits a record in which
      a plain scan, for the subscriptions and filters of that moment, finds it. */
  lemma {:induction false} LiveDelivers(su: Setup, moves: seq<Move>, d: Delivery)
    requires ValidSetup(su) && Ordered(moves) && Stateless(su.groups[su.name]) && CalmMoves(su, moves)
    ensures d in Go(su, moves).sent <==> exists n :: 0 <= n < |moves| && DueAt(su, moves, n, d)
  {
    hide ValidSetup, Stateless, Receive, DueNow, CalmNow, Placed;
    if moves != [] {
      var n := |moves| - 1;
      var front := moves[..n];
      forall k | 0 <= k < n
        ensures DueAt(su, moves, k, d) <==> DueAt(su, front, k, d)
      {
        EarlierMoves(su, moves, n, k);
      }
      forall k | 0 <= k < n && front[k].Data? ensures CalmNow(su, Go(su, front[..k]), front[k].chunk) {
        EarlierMoves(su, moves, n, k);
      }
      LiveDelivers(su, front, d);
      GoPlaced(su, front);
      if moves[n].Data? {
        ReceiveSends(su, Go(su, front), moves[n].chunk, d);
        assert DueAt(su, moves, n, d) <==> DueNow(su, Go(su, front), moves[n].chunk, d);
      }
    }
  }

  ghost predicate EmittedAt(su: Setup, moves: seq<Move>, n: nat, sp: Span)
    requires ValidSetup(su) && Ordered(moves) && n < |moves|
  {
    moves[n].Data? && sp in Emits(su, Go(su, moves[..n]), moves[n].chunk)
  }

  lemma ReceiveEmits(su: Setup, w: World, chunk: Chunk, sp: Span)
    requires ValidSetup(su) && Enumerates(chunk.ord)
    ensures sp in Receive(su, w, chunk).p.emitted <==> sp in w.p.emitted || sp in Emits(su, w, chunk)
  {
    hide DispatchSpans, Spans, Carry, Shifted;
  }

  lemma {:induction false} LiveEmits(su: Setup, moves: seq<Move>, sp: Span)
    requires ValidSetup(su) && Ordered(moves)
    ensures sp in Go(su, moves).p.emitted <==> exists n :: 0 <= n < |moves| && EmittedAt(su, moves, n, sp)
  {
    hide ValidSetup, Receive, Emits, Enumerates;
    if moves != [] {
      var n := |moves| - 1;
      var front := moves[..n];
      forall k | 0 <= k < n
        ensures EmittedAt(su, moves, k, sp) <==> EmittedAt(su, front, k, sp)
      {
        EarlierMoves(su, moves, n, k);
      }
      LiveEmits(su, front, sp);
      if moves[n].Data? {
        ReceiveEmits(su, Go(su, front), moves[n].chunk, sp);
        assert EmittedAt(su, moves, n, sp) <==> sp in Emits(su, Go(su, front), moves[n].chunk);
      }
    }
  }

  lemma {:induction false} GoTracks(su: Setup, moves: seq<Move>)
    requires ValidSetup(su) && Ordered(moves) && Spaced(su.groups[su.name].signature, Go(su, moves).stream)
    ensures Tracks(su.groups[su.name].signature, Go(su, moves).stream, Go(su, moves).p)
  {
    hide DispatchSpans, Step, Spaced, Tracks, Enumerates;
    var sig := su.groups[su.name].signature;
    if moves == [] {
      WidthOf(su);
      RunTracks(sig, []);
    } else {
      var n := |moves| - 1;
      var w := Go(su, moves[..n]);
      if moves[n].Data? {
        WidthOf(su);
        SpacedPrefix(sig, w.stream, moves[n].chunk.text);
        GoTracks(su, moves[..n]);
        StepTracks(sig, w.stream, w.p, moves[n].chunk.text);
      } else {
        GoTracks(su, moves[..n]);
      }
    }
  }

  /** And each stretch of the stream is emitted by some call, nothing else is. */
  lemma LiveExact(su: Setup, moves: seq<Move>, a: nat, b: nat)
    requires ValidSetup(su) && Ordered(moves) && Spaced(su.groups[su.name].signature, Go(su, moves).stream)
    ensures Stretch(su.groups[su.name].signature, Go(su, moves).stream, a, b)
       <==> exists n :: 0 <= n < |moves| && EmittedAt(su, moves, n, Span(a, b))
  {
    hide ValidSetup, Go, Spaced, Stretch, EmittedAt, Follows;
    GoTracks(su, moves);
    LiveEmits(su, moves, Span(a, b));
  }

  // ----- the engine does this -----

  /** The engine is where these moves lead. */
  ghost predicate At(engine: Grind, su: Setup, w: World, sent: seq<Delivery>)
    reads engine
  {
    && engine.Valid() && engine.groups == su.groups && su.name in su.groups
    && engine.Snapshot() == Registry.Run(su.groups, w.events)
    && engine.leftovers[su.name] == w.p.leftovers && engine.contexts == w.cx && sent == w.sent
  }

  method Obey(engine: Grind, e: Event)
    requires engine.Valid()
    modifies engine`watchers, engine`keepers, engine`subscriptions, engine`index, engine`overwritten
    ensures engine.Valid() && engine.Snapshot() == Apply(engine.groups, old(engine.Snapshot()), e)
  {
    hide Consistent, Overwrites, DoSubscribe, DoRemoveWatcher, DoAddFilters, DoClearFilters;
    match e {
      case AddWatcher(w) => engine.AddWatcher(w);
      case Subscribe(w, args) => var reply := engine.Subscribe(w, args);
      case AddFilters(w, filters, compiles) => var reply := engine.AddFilters(w, filters, compiles);
      case ClearFilters(w) => var reply := engine.ClearFilters(w);
      case RemoveWatcher(w) => engine.RemoveWatcher(w);
    }
  }

  method Take(engine: Grind, su: Setup, chunk: Chunk, ghost w: World, sent: seq<Delivery>) returns (more: seq<Delivery>)
    requires ValidSetup(su) && Enumerates(chunk.ord) && At(engine, su, w, sent)
    modifies engine`contexts, engine`leftovers
    ensures At(engine, su, Receive(su, w, chunk), more)
  {
    hide Consistent, Enumerates, DispatchSpans, Listed, Spans, Carry, WellFormed;
    var out := engine.Handle(chunk.text, su.name, chunk.ord, su.regex);
    more := sent + out.value;
  }

  method Perform(engine: Grind, su: Setup, move: Move, ghost w: World, sent: seq<Delivery>)
    returns (more: seq<Delivery>)
    requires ValidSetup(su) && Ordered([move]) && At(engine, su, w, sent)
    modifies engine`watchers, engine`keepers, engine`subscriptions, engine`index, engine`overwritten
    modifies engine`contexts, engine`leftovers
    ensures At(engine, su, Next(su, w, move), more)
  {
    hide Consistent, Enumerates, Receive, WellFormed, Apply;
    match move {
      case Command(e) =>
        Obey(engine, e);
        assert (w.events + [e])[..|w.events|] == w.events;
        more := sent;
      case Data(chunk) =>
        assert move in [move];
        more := Take(engine, su, chunk, w, sent);
    }
  }

  lemma OneMore(su: Setup, moves: seq<Move>, n: nat)
    requires ValidSetup(su) && Ordered(moves) && n < |moves|
    ensures Ordered([moves[n]]) && Go(su, moves[..n + 1]) == Next(su, Go(su, moves[..n]), moves[n])
  {
    hide ValidSetup, Enumerates, Next;
    assert moves[n] in moves && moves[..n + 1][..n] == moves[..n];
  }

  /** A new engine, given commands and chunks in any order, ends up where they lead. */
  method Operate(su: Setup, moves: seq<Move>) returns (engine: Grind, sent: seq<Delivery>)
    requires ValidSetup(su) && Ordered(moves)
    ensures fresh(engine) && At(engine, su, Go(su, moves), sent)
  {
    engine := new Grind(su.groups);
    sent := [];
    hide Enumerates, Next, ValidSetup;
    assert At(engine, su, Go(su, moves[..0]), sent);
    hide At;
    var n := 0;
    while n < |moves|
      invariant 0 <= n <= |moves| && fresh(engine) && At(engine, su, Go(su, moves[..n]), sent)
    {
      OneMore(su, moves, n);
      sent := Perform(engine, su, moves[n], Go(su, moves[..n]), sent);
      n := n + 1;
    }
    assert moves[..n] == moves;
  }
}
