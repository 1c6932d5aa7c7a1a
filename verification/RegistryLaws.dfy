/** Consequences of the accounting invariant: what leaving undoes, what it leaves behind, and who is never starved. */
module RegistryLaws {
  import opened Lua
  import opened Config
  import opened Registry
  import opened RegistryInvariant

  // ----- remove_watcher -----

  /** In every reachable state, each list that `remove_watcher` is about to edit exists, at every round of its loop. */
  lemma NoAbsentList(groups: Groups, events: seq<Event>, w: string, n: nat)
    requires WellFormed(groups)
    requires var st := Run(groups, events); w in st.subs && st.subs[w].group != "*"
    ensures var st := Run(groups, events);
      var s := st.subs[w];
      && s.group in groups && s.klass in groups[s.group].klasses
      && var formats := groups[s.group].klasses[s.klass].formats;
         n < |formats| ==>
           var id := FormatId(s.group, formats[n]);
           var before := ReleaseAll(st.index, s.group, formats[..n], s.klass, s.view);
           id in before && s.klass in before[id].active
  {
    ReachableConsistent(groups, events);
    var st := Run(groups, events);
    ListPresent(groups, st, Overwritten(groups, events), w, n);
  }

  lemma ListPresent(groups: Groups, st: State, over: multiset<Hold>, w: string, n: nat)
    requires WellFormed(groups) && Consistent(groups, st, over) && w in st.subs && st.subs[w].group != "*"
    ensures var s := st.subs[w];
      && s.group in groups && s.klass in groups[s.group].klasses
      && var formats := groups[s.group].klasses[s.klass].formats;
         n < |formats| ==>
           var id := FormatId(s.group, formats[n]);
           var before := ReleaseAll(st.index, s.group, formats[..n], s.klass, s.view);
           id in before && s.klass in before[id].active
  {
    ReleaseIsCovered(groups, st, over, w);
    var s := st.subs[w];
    var formats := groups[s.group].klasses[s.klass].formats;
    if n < |formats| {
      var id := FormatId(s.group, formats[n]);
      assert formats == formats[..n] + formats[n..];
      assert multiset(formats) == multiset(formats[..n]) + multiset(formats[n..]);
      assert formats[n] in formats[n..];
      ReleaseAllEffect(st.index, s.group, formats[..n], s.klass, s.view, id, s.klass, s.view);
    }
  }

  lemma {:induction false} RemoveFirstFixed(s: seq<string>, x: string)
    ensures RemoveFirst(s, x) == s <==> x !in s
  {
    if s != [] { RemoveFirstFixed(s[1..], x); }
  }

  /** Removing a watcher twice is removing it once exactly when it was announced at most once. */
  lemma RemoveTwice(groups: Groups, st: State, w: string)
    ensures var once := DoRemoveWatcher(groups, st, w);
      DoRemoveWatcher(groups, once, w) == once <==> multiset(st.watchers)[w] <= 1
  {
    var once := DoRemoveWatcher(groups, st, w);
    RemoveOnceMore(groups, st, w);
    RemoveFirstCounts(st.watchers, w);
    RemoveFirstFixed(once.watchers, w);
    if once.watchers == RemoveFirst(once.watchers, w) {
      assert once.(watchers := once.watchers) == once;
    }
  }

  lemma RemoveOnceMore(groups: Groups, st: State, w: string)
    ensures var once := DoRemoveWatcher(groups, st, w);
      && once.watchers == RemoveFirst(st.watchers, w)
      && w !in once.subs
      && DoRemoveWatcher(groups, once, w) == once.(watchers := RemoveFirst(once.watchers, w))
  {}

  // ----- the index is determined by the claims -----

  ghost predicate SameLists(a: FormatState, b: FormatState) {
    && a.nrActive == b.nrActive && a.active.Keys == b.active.Keys
    && forall k :: k in a.active ==> multiset(a.active[k]) == multiset(b.active[k])
  }

  /** Equal but for the order within keepers and view lists. */
  ghost predicate SameUpToOrder(a: State, b: State) {
    && multiset(a.keepers) == multiset(b.keepers) && a.index.Keys == b.index.Keys
    && forall id :: id in a.index ==> SameLists(a.index[id], b.index[id])
  }

  lemma ListsDetermined(a: FormatState, b: FormatState)
    requires Sound(a) && Sound(b) && forall k, v :: Occurrences(a, k, v) == Occurrences(b, k, v)
    ensures SameLists(a, b)
  {
    forall k ensures k in a.active <==> k in b.active {
      if k in a.active { assert a.active[k][0] in multiset(a.active[k]); assert Occurrences(b, k, a.active[k][0]) > 0; }
      if k in b.active { assert b.active[k][0] in multiset(b.active[k]); assert Occurrences(a, k, b.active[k][0]) > 0; }
    }
    assert a.active.Keys == b.active.Keys;
    assert |a.active| == |a.active.Keys| && |b.active| == |b.active.Keys|;
    forall k | k in a.active ensures multiset(a.active[k]) == multiset(b.active[k]) {
      forall v
        ensures multiset(a.active[k])[v] == multiset(b.active[k])[v]
      {
        assert Occurrences(a, k, v) == Occurrences(b, k, v);
      }
    }
  }

  /** Two histories with the same live and overwritten claims have built the same index. */
  lemma IndexDetermined(groups: Groups, a: State, b: State, overA: multiset<Hold>, overB: multiset<Hold>)
    requires Consistent(groups, a, overA) && Consistent(groups, b, overB)
    requires forall h :: Held(a, overA, h) == Held(b, overB, h)
    ensures SameUpToOrder(a, b)
  {
    forall w ensures multiset(a.keepers)[w] == multiset(b.keepers)[w] {
      assert Held(a, overA, Star(w)) == Held(b, overB, Star(w));
    }
    forall id | id in a.index ensures SameLists(a.index[id], b.index[id]) {
      forall k, v ensures Occurrences(a.index[id], k, v) == Occurrences(b.index[id], k, v) {
        assert Held(a, overA, On(id.group, k, v)) == Held(b, overB, On(id.group, k, v));
      }
      ListsDetermined(a.index[id], b.index[id]);
    }
  }

  lemma {:induction false} RemoveAppended(s: seq<string>, x: string)
    requires x !in s
    ensures RemoveFirst(s + [x], x) == s
  {
    if s != [] {
      assert (s + [x])[1..] == s[1..] + [x];
      RemoveAppended(s[1..], x);
    }
  }

  /** A watcher connects, subscribes and leaves. */
  function Session(groups: Groups, st: State, w: string, args: Option<Args>): State {
    DoRemoveWatcher(groups, DoSubscribe(groups, DoAddWatcher(st, w), w, args).0, w)
  }

  /** A session restores every list, counter and subscription. */
  lemma SessionRestores(groups: Groups, st: State, over: multiset<Hold>, w: string, args: Option<Args>)
    requires WellFormed(groups) && Consistent(groups, st, over)
    requires w !in st.subs && w !in st.watchers
    ensures var out := Session(groups, st, w, args);
      out.watchers == st.watchers && out.subs == st.subs && SameUpToOrder(st, out)
  {
    hide Consistent, Session;
    SessionKeeps(groups, st, over, w, args);
    SessionUndone(groups, st, w, args);
    IndexDetermined(groups, st, Session(groups, st, w, args), over, over);
  }

  lemma SessionKeeps(groups: Groups, st: State, over: multiset<Hold>, w: string, args: Option<Args>)
    requires WellFormed(groups) && Consistent(groups, st, over) && w !in st.subs
    ensures Consistent(groups, Session(groups, st, w, args), over)
    ensures forall h :: Held(Session(groups, st, w, args), over, h) == Held(st, over, h)
  {
    hide Consistent, DoSubscribe, DoRemoveWatcher, WellFormed;
    var st1 := DoAddWatcher(st, w);
    assert over + multiset{} == over;
    SubsAndIndexDecide(groups, st, st1, over);
    SubscribeKeeps(groups, st1, over, w, args);
    RemoveKeeps(groups, DoSubscribe(groups, st1, w, args).0, over, w);
    SessionSubs(groups, st, w, args);
  }

  lemma SessionSubs(groups: Groups, st: State, w: string, args: Option<Args>)
    requires w !in st.subs
    ensures Session(groups, st, w, args).subs == st.subs
  {
    hide ActivateAll, ReleaseAll;
    var st2 := DoSubscribe(groups, DoAddWatcher(st, w), w, args).0;
    assert st2.subs - {w} == st.subs;
  }

  lemma SessionUndone(groups: Groups, st: State, w: string, args: Option<Args>)
    requires w !in st.subs && w !in st.watchers
    ensures var out := Session(groups, st, w, args);
      out.watchers == st.watchers && out.subs == st.subs
  {
    SessionSubs(groups, st, w, args);
    RemoveAppended(st.watchers, w);
    hide ActivateAll, ReleaseAll;
    assert DoSubscribe(groups, DoAddWatcher(st, w), w, args).0.watchers == st.watchers + [w];
  }

  // ----- keepers -----

  /** Every live `*` subscriber is among the keepers, so an empty keeper list starves nobody. */
  lemma KeepersComplete(groups: Groups, events: seq<Event>, w: string)
    requires WellFormed(groups)
    requires var st := Run(groups, events); w in st.subs && st.subs[w].group == "*"
    ensures w in Run(groups, events).keepers
  {
    ReachableConsistent(groups, events);
    StarIsKeeper(Run(groups, events), Overwritten(groups, events), w);
  }

  lemma LiveStar(subs: map<string, Subscription>, w: string)
    ensures Live(subs, Star(w)) == if w in subs && subs[w].group == "*" then 1 else 0
  {
    assert (set x | x in subs && HoldOf(x, subs[x]) == Star(w))
        == if w in subs && subs[w].group == "*" then {w} else {};
  }

  /** A keeper entry is stale exactly when a `*` subscription of that watcher was overwritten. */
  lemma StaleKeeperIff(groups: Groups, events: seq<Event>, w: string)
    requires WellFormed(groups)
    ensures var st := Run(groups, events);
      (multiset(st.keepers)[w] == if w in st.subs && st.subs[w].group == "*" then 1 else 0)
      <==> Overwritten(groups, events)[Star(w)] == 0
  {
    ReachableConsistent(groups, events);
    var st := Run(groups, events);
    LiveStar(st.subs, w);
    assert multiset(st.keepers)[w] == Held(st, Overwritten(groups, events), Star(w));
  }

  /** Subscribe to everything, re-subscribe to a view, leave: the keeper entry stays, with nobody subscribed. */
  lemma ResubscribingStaysKeeper(groups: Groups, w: string, klass: string, view: string, second: Args)
    requires SubscribeError(groups, Some(second)) == None && second.group.value != "*"
    ensures var star := Args(Some("*"), Some(klass), Some(view));
      var st := Run(groups, [Subscribe(w, Some(star)), Subscribe(w, Some(second)), RemoveWatcher(w)]);
      st.subs == map[] && st.keepers == [w]
  {
    hide ActivateAll, ReleaseAll;
    var star := Args(Some("*"), Some(klass), Some(view));
    var events := [Subscribe(w, Some(star)), Subscribe(w, Some(second)), RemoveWatcher(w)];
    var e1, e2 := events[..1], events[..2];
    assert e2[..1] == e1 && e1[..0] == [] && events[..2] == e2;
    assert Run(groups, e1[..0]) == Initial(groups);
    assert Run(groups, e1).subs == map[w := STAR] && Run(groups, e1).keepers == [w];
    assert Run(groups, e2).keepers == [w] && w in Run(groups, e2).subs && Run(groups, e2).subs[w].group != "*";
  }

  // ----- what a watcher is told -----

  /** Success is reported exactly for a subscription to something new that exists, and for well-formed filters of a
      subscriber. */
  lemma SuccessIff(groups: Groups, st: State, w: string, req: Request)
    ensures DoHandleCmd(groups, st, w, req).1.Success? <==> match req
      case SubscribeRequest(args) =>
        Subscribable(groups, args) &&
        var Args(Some(g), Some(k), Some(v)) := args.value;
          !(g != "*" && w in st.subs && SameTarget(st.subs[w], g, k, v))
      case AddFiltersRequest(filters, _) => w in st.subs && forall f :: f in filters ==> filters[f].FilterArg?
      case _ => false
  {
    hide ActivateAll, Compiled;
  }

  /** A request is reported as failed although it changed something exactly when it cleared a subscriber's filters. */
  lemma FailureChangesIff(groups: Groups, st: State, w: string, req: Request)
    ensures var (out, answer) := DoHandleCmd(groups, st, w, req);
      (answer.Failure? && out != st) <==> (req.ClearFiltersRequest? && w in st.subs && st.subs[w].filters != map[])
  {
    hide ActivateAll, Compiled;
    if w in st.subs {
      var out := DoClearFilters(st, w).0;
      if st.subs[w].filters == map[] {
        assert out.subs == st.subs;
      } else {
        assert out.subs[w].filters != st.subs[w].filters;
      }
    }
  }

  // ----- what overwriting leaves behind -----

  /** With nobody subscribed any more, a view is still listed exactly when a claim on it was overwritten. */
  lemma LeftoverIff(groups: Groups, events: seq<Event>, id: FormatId, k: string, v: string)
    requires WellFormed(groups) && id in FormatIds(groups) && Bound(groups, id, k) > 0
    requires Run(groups, events).subs == map[]
    ensures id in Run(groups, events).index
    ensures Occurrences(Run(groups, events).index[id], k, v) > 0
         <==> Overwritten(groups, events)[On(id.group, k, v)] > 0
  {
    ReachableConsistent(groups, events);
    var st := Run(groups, events);
    var h := On(id.group, k, v);
    NothingHeld(st, h);
    assert Occurrences(st.index[id], k, v) == Bound(groups, id, k) * Held(st, Overwritten(groups, events), h);
    ProductPositive(Bound(groups, id, k), Held(st, Overwritten(groups, events), h));
  }

  /** Subscribe, re-subscribe elsewhere, leave: the first view stays listed in every format of its klass, for good. */
  lemma ResubscribingLeaks(groups: Groups, w: string, first: Args, second: Args, id: FormatId)
    requires WellFormed(groups)
    requires SubscribeError(groups, Some(first)) == None && SubscribeError(groups, Some(second)) == None
    requires first != second && first.group.value != "*"
    requires id in FormatIds(groups) && id.group == first.group.value && Bound(groups, id, first.klass.value) > 0
    ensures var st := Run(groups, [Subscribe(w, Some(first)), Subscribe(w, Some(second)), RemoveWatcher(w)]);
      st.subs == map[] && id in st.index && Occurrences(st.index[id], first.klass.value, first.view.value) > 0
  {
    var events := [Subscribe(w, Some(first)), Subscribe(w, Some(second)), RemoveWatcher(w)];
    var e1, e2 := events[..1], events[..2];
    assert e2[..1] == e1 && e1[..0] == [];
    assert Run(groups, events[..0]) == Initial(groups);
    var st1, st2 := Run(groups, e1), Run(groups, e2);
    assert st1.subs == map[w := Subscription(first.group.value, first.klass.value, first.view.value, map[])];
    assert Run(groups, events).subs == map[];
    var h := On(id.group, first.klass.value, first.view.value);
    assert Overwrites(groups, st1, events[1]) == multiset{h};
    assert Overwritten(groups, e2) == Overwritten(groups, e1) + multiset{h};
    assert Overwritten(groups, events)[h] >= 1;
    LeftoverIff(groups, events, id, first.klass.value, first.view.value);
  }
}
