/** What every reachable subscription state satisfies: the index accounts exactly for live and overwritten
    subscriptions. */
module RegistryInvariant {
  import opened Lua
  import opened Config
  import opened Registry

  /** What a subscription claims: a place among the keepers, or a view. */
  datatype Hold = Star(w: string) | On(group: string, klass: string, view: string)

  function HoldOf(w: string, s: Subscription): Hold {
    if s.group == "*" then Star(w) else On(s.group, s.klass, s.view)
  }

  ghost function Live(subs: map<string, Subscription>, h: Hold): nat {
    |set w | w in subs && HoldOf(w, subs[w]) == h|
  }

  /** The claim an event overwrites without releasing it. */
  function Overwrites(groups: Groups, st: State, e: Event): multiset<Hold> {
    if e.Subscribe? && !DoSubscribe(groups, st, e.w, e.args).1.Failed? && e.w in st.subs
    then multiset{HoldOf(e.w, st.subs[e.w])} else multiset{}
  }

  /** All claims overwritten in a run. */
  function Overwritten(groups: Groups, events: seq<Event>): multiset<Hold> {
    if events == [] then multiset{}
    else
      var n := |events| - 1;
      Overwritten(groups, events[..n]) + Overwrites(groups, Run(groups, events[..n]), events[n])
  }

  ghost function Held(st: State, over: multiset<Hold>, h: Hold): nat {
    Live(st.subs, h) + over[h]
  }

  function Occurrences(fs: FormatState, klass: string, view: string): nat {
    if klass in fs.active then multiset(fs.active[klass])[view] else 0
  }

  /** How often a klass lists a format; 0 when it is not bound to it. */
  function Bound(groups: Groups, id: FormatId, klass: string): nat {
    if id.group in groups && klass in groups[id.group].klasses
    then multiset(groups[id.group].klasses[klass].formats)[id.format] else 0
  }

  ghost predicate ValidTarget(groups: Groups, s: Subscription) {
    s.group == "*" ||
    (s.group in groups && s.klass in groups[s.group].klasses && s.view in groups[s.group].klasses[s.klass].views)
  }

  ghost predicate ValidHold(groups: Groups, h: Hold) {
    h.On? ==>
      h.group in groups && h.klass in groups[h.group].klasses && h.view in groups[h.group].klasses[h.klass].views
  }

  /** The counter is the number of klasses listed, and no listed klass is without a view. */
  ghost predicate Sound(fs: FormatState) {
    fs.nrActive == |fs.active| && forall k :: k in fs.active ==> fs.active[k] != []
  }

  ghost predicate KeepersCounted(st: State, over: multiset<Hold>) {
    forall w :: multiset(st.keepers)[w] == Held(st, over, Star(w))
  }

  ghost predicate ViewsCounted(groups: Groups, st: State, over: multiset<Hold>) {
    forall id, k, v :: id in st.index ==>
      Occurrences(st.index[id], k, v) == Bound(groups, id, k) * Held(st, over, On(id.group, k, v))
  }

  ghost predicate Consistent(groups: Groups, st: State, over: multiset<Hold>) {
    && st.index.Keys == FormatIds(groups)
    && (forall w :: w in st.subs ==> ValidTarget(groups, st.subs[w]))
    && (forall h :: h in over ==> ValidHold(groups, h))
    && (forall id :: id in st.index ==> Sound(st.index[id]))
    && KeepersCounted(st, over)
    && ViewsCounted(groups, st, over)
  }

  // ----- counting claims -----

  lemma LiveRemove(subs: map<string, Subscription>, w: string, h: Hold)
    requires w in subs
    ensures Live(subs - {w}, h) + (if HoldOf(w, subs[w]) == h then 1 else 0) == Live(subs, h)
  {
    hide HoldOf;
    var others := subs - {w};
    var all := set x | x in subs && HoldOf(x, subs[x]) == h;
    var rest := set x | x in others && HoldOf(x, others[x]) == h;
    assert rest == all - {w};
  }

  lemma LivePut(subs: map<string, Subscription>, w: string, s: Subscription, h: Hold)
    ensures Live(subs[w := s], h) + (if w in subs && HoldOf(w, subs[w]) == h then 1 else 0)
         == Live(subs, h) + (if HoldOf(w, s) == h then 1 else 0)
  {
    LiveRemove(subs[w := s], w, h);
    assert subs[w := s] - {w} == subs - {w};
    if w in subs {
      LiveRemove(subs, w, h);
    } else {
      assert subs - {w} == subs;
    }
  }

  lemma StarIsKeeper(st: State, over: multiset<Hold>, w: string)
    requires KeepersCounted(st, over) && w in st.subs && st.subs[w].group == "*"
    ensures w in st.keepers
  {
    LiveRemove(st.subs, w, Star(w));
    assert multiset(st.keepers)[w] == Held(st, over, Star(w));
  }

  lemma ProductPositive(m: nat, n: nat)
    ensures m * n > 0 <==> m > 0 && n > 0
  {}

  // ----- one format -----

  lemma ActivateEffect(fs: FormatState, klass: string, view: string, k: string, v: string)
    requires Sound(fs)
    ensures Sound(Activate(fs, klass, view))
    ensures Occurrences(Activate(fs, klass, view), k, v)
         == Occurrences(fs, k, v) + if k == klass && v == view then 1 else 0
  {
    ActivateSound(fs, klass, view);
    hide Sound;
  }

  lemma ActivateSound(fs: FormatState, klass: string, view: string)
    requires Sound(fs)
    ensures Sound(Activate(fs, klass, view))
  {
    var out := Activate(fs, klass, view);
    assert out.active.Keys == fs.active.Keys + {klass};
    assert |out.active| == |out.active.Keys| && |fs.active| == |fs.active.Keys|;
  }

  lemma ReleaseSound(fs: FormatState, klass: string, view: string)
    requires Sound(fs)
    ensures Sound(Release(fs, klass, view))
  {
    var out := Release(fs, klass, view);
    if klass in fs.active {
      if klass !in out.active {
        assert out.active.Keys == fs.active.Keys - {klass};
      } else {
        assert out.active.Keys == fs.active.Keys;
      }
      assert |out.active| == |out.active.Keys| && |fs.active| == |fs.active.Keys|;
    }
  }

  lemma ReleaseEffect(fs: FormatState, klass: string, view: string, k: string, v: string)
    requires Occurrences(fs, klass, view) > 0
    ensures klass in fs.active
    ensures Occurrences(Release(fs, klass, view), k, v)
         == Occurrences(fs, k, v) - if k == klass && v == view then 1 else 0
  {
    var views := RemoveFirst(fs.active[klass], view);
    RemoveFirstCounts(fs.active[klass], view);
    if k == klass {
      assert Occurrences(Release(fs, klass, view), k, v) == multiset(views)[v];
    }
  }

  // ----- all formats of a klass -----

  ghost predicate AllSound(index: Index) {
    forall id :: id in index ==> Sound(index[id])
  }

  lemma {:induction false} ActivateAllEffect(index: Index, group: string, formats: seq<string>, klass: string,
                                             view: string, id: FormatId, k: string, v: string)
    requires AllSound(index) && id in index
    ensures var out := ActivateAll(index, group, formats, klass, view);
      && out.Keys == index.Keys && AllSound(out)
      && Occurrences(out[id], k, v) == Occurrences(index[id], k, v)
           + if id.group == group && k == klass && v == view then multiset(formats)[id.format] else 0
  {
    hide Activate, Occurrences, Sound;
    if formats != [] {
      var n := |formats| - 1;
      assert formats == formats[..n] + [formats[n]];
      ActivateAllEffect(index, group, formats[..n], klass, view, id, k, v);
      var before := ActivateAll(index, group, formats[..n], klass, view);
      var at := FormatId(group, formats[n]);
      if at in before {
        ActivateEffect(before[at], klass, view, k, v);
      }
    }
  }

  /** Releasing as many entries as are there: no list is ever absent when it is edited. */
  lemma {:induction false} ReleaseAllEffect(index: Index, group: string, formats: seq<string>, klass: string,
                                            view: string, id: FormatId, k: string, v: string)
    requires AllSound(index) && id in index
    requires forall f :: f in formats ==> FormatId(group, f) in index
    requires forall f ::
      FormatId(group, f) in index ==> Occurrences(index[FormatId(group, f)], klass, view) >= multiset(formats)[f]
    ensures var out := ReleaseAll(index, group, formats, klass, view);
      && out.Keys == index.Keys && AllSound(out)
      && Occurrences(out[id], k, v) == Occurrences(index[id], k, v)
           - if id.group == group && k == klass && v == view then multiset(formats)[id.format] else 0
  {
    hide Release, Occurrences, Sound;
    if formats != [] {
      var n := |formats| - 1;
      assert formats == formats[..n] + [formats[n]];
      var at := FormatId(group, formats[n]);
      ReleaseAllEffect(index, group, formats[..n], klass, view, id, k, v);
      ReleaseAllEffect(index, group, formats[..n], klass, view, at, klass, view);
      var before := ReleaseAll(index, group, formats[..n], klass, view);
      assert multiset(formats)[formats[n]] == multiset(formats[..n])[formats[n]] + 1;
      ReleaseEffect(before[at], klass, view, k, v);
      ReleaseSound(before[at], klass, view);
    }
  }

  // ----- every event keeps the state consistent -----

  /** The claim a new subscription of `w` overwrites. */
  function Lost(st: State, w: string): multiset<Hold> {
    if w in st.subs then multiset{HoldOf(w, st.subs[w])} else multiset{}
  }

  lemma HeldPut(st: State, over: multiset<Hold>, w: string, s: Subscription, out: State, h: Hold)
    requires out.subs == st.subs[w := s]
    ensures Held(out, over + Lost(st, w), h) == Held(st, over, h) + if HoldOf(w, s) == h then 1 else 0
  {
    LivePut(st.subs, w, s, h);
  }

  lemma TimesSucc(m: nat, n: nat)
    ensures m * (n + 1) == m * n + m
  {}

  lemma StarCounted(groups: Groups, st: State, over: multiset<Hold>, w: string, out: State)
    requires KeepersCounted(st, over) && ViewsCounted(groups, st, over)
    requires out == st.(subs := st.subs[w := STAR], keepers := st.keepers + [w])
    ensures KeepersCounted(out, over + Lost(st, w)) && ViewsCounted(groups, out, over + Lost(st, w))
  {
    hide Held, Bound, Occurrences;
    forall x ensures multiset(out.keepers)[x] == Held(out, over + Lost(st, w), Star(x)) {
      HeldPut(st, over, w, STAR, out, Star(x));
    }
    forall id, k, v | id in out.index
      ensures Occurrences(out.index[id], k, v)
           == Bound(groups, id, k) * Held(out, over + Lost(st, w), On(id.group, k, v))
    {
      HeldPut(st, over, w, STAR, out, On(id.group, k, v));
    }
  }

  lemma StarSubscribed(groups: Groups, st: State, over: multiset<Hold>, w: string, out: State)
    requires Consistent(groups, st, over)
    requires out == st.(subs := st.subs[w := STAR], keepers := st.keepers + [w])
    ensures Consistent(groups, out, over + Lost(st, w))
  {
    hide Held, Bound, Occurrences, Sound, KeepersCounted, ViewsCounted;
    StarCounted(groups, st, over, w, out);
  }

  lemma ViewSubscribed(groups: Groups, st: State, over: multiset<Hold>, w: string, s: Subscription, out: State)
    requires Consistent(groups, st, over) && s.group != "*" && ValidTarget(groups, s)
    requires out == st.(subs := st.subs[w := s],
                        index := ActivateAll(st.index, s.group, groups[s.group].klasses[s.klass].formats, s.klass,
                          s.view))
    ensures Consistent(groups, out, over + Lost(st, w))
  {
    var over' := over + Lost(st, w);
    var formats := groups[s.group].klasses[s.klass].formats;
    assert KeepersCounted(out, over') by {
      forall x ensures multiset(out.keepers)[x] == Held(out, over', Star(x)) {
        HeldPut(st, over, w, s, out, Star(x));
      }
    }
    ActivateAllKeys(st.index, s.group, formats, s.klass, s.view);
    assert ViewsCounted(groups, out, over') by {
      forall id, k, v | id in out.index
        ensures Occurrences(out.index[id], k, v) == Bound(groups, id, k) * Held(out, over', On(id.group, k, v))
      {
        ViewSubscribedAt(groups, st, over, w, s, out, id, k, v);
      }
    }
  }

  lemma ViewSubscribedAt(groups: Groups, st: State, over: multiset<Hold>, w: string, s: Subscription, out: State,
                         id: FormatId, k: string, v: string)
    requires AllSound(st.index) && ViewsCounted(groups, st, over) && id in st.index && s.group != "*"
    requires ValidTarget(groups, s)
    requires out.subs == st.subs[w := s]
    requires out.index == ActivateAll(st.index, s.group, groups[s.group].klasses[s.klass].formats, s.klass, s.view)
    ensures id in out.index
    ensures Occurrences(out.index[id], k, v) == Bound(groups, id, k) * Held(out, over + Lost(st, w), On(id.group, k, v))
  {
    var formats := groups[s.group].klasses[s.klass].formats;
    ActivateAllEffect(st.index, s.group, formats, s.klass, s.view, id, k, v);
    HeldPut(st, over, w, s, out, On(id.group, k, v));
    TimesSucc(Bound(groups, id, k), Held(st, over, On(id.group, k, v)));
  }

  lemma ActivateAllKeys(index: Index, group: string, formats: seq<string>, klass: string, view: string)
    requires AllSound(index)
    ensures ActivateAll(index, group, formats, klass, view).Keys == index.Keys
    ensures AllSound(ActivateAll(index, group, formats, klass, view))
  {
    if index == map[] {
      ActivateNothing(group, formats, klass, view);
    } else {
      var id :| id in index;
      ActivateAllEffect(index, group, formats, klass, view, id, klass, view);
    }
  }

  lemma {:induction false} ActivateNothing(group: string, formats: seq<string>, klass: string, view: string)
    ensures ActivateAll(map[], group, formats, klass, view) == map[]
  {
    if formats != [] { ActivateNothing(group, formats[..|formats| - 1], klass, view); }
  }

  lemma SubscribeKeeps(groups: Groups, st: State, over: multiset<Hold>, w: string, args: Option<Args>)
    requires Consistent(groups, st, over)
    ensures Consistent(groups, DoSubscribe(groups, st, w, args).0, over + Overwrites(groups, st, Subscribe(w, args)))
  {
    hide Consistent, ActivateAll;
    var (out, reply) := DoSubscribe(groups, st, w, args);
    if reply.Failed? {
      assert over + multiset{} == over;
    } else {
      if out.subs[w].group == "*" {
        StarSubscribed(groups, st, over, w, out);
      } else {
        ViewSubscribed(groups, st, over, w, out.subs[w], out);
      }
    }
  }

  lemma HeldRefiltered(st: State, over: multiset<Hold>, w: string, filters: map<string, Filter>, out: State, h: Hold)
    requires w in st.subs && out.subs == st.subs[w := st.subs[w].(filters := filters)]
    ensures Held(out, over, h) == Held(st, over, h)
  {
    LivePut(st.subs, w, st.subs[w].(filters := filters), h);
  }

  lemma RefilterKeeps(groups: Groups, st: State, over: multiset<Hold>, w: string, filters: map<string, Filter>)
    requires Consistent(groups, st, over) && w in st.subs
    ensures Consistent(groups, st.(subs := st.subs[w := st.subs[w].(filters := filters)]), over)
  {
    hide Held, Bound, Occurrences, Sound;
    var out := st.(subs := st.subs[w := st.subs[w].(filters := filters)]);
    forall h ensures Held(out, over, h) == Held(st, over, h) {
      HeldRefiltered(st, over, w, filters, out, h);
    }
    assert KeepersCounted(out, over);
    assert ViewsCounted(groups, out, over);
  }

  /** The lists `remove_watcher` edits are there and long enough. */
  lemma ReleaseIsCovered(groups: Groups, st: State, over: multiset<Hold>, w: string)
    requires WellFormed(groups) && Consistent(groups, st, over) && w in st.subs && st.subs[w].group != "*"
    ensures var s := st.subs[w];
      && s.group in groups && s.klass in groups[s.group].klasses
      && var formats := groups[s.group].klasses[s.klass].formats;
      && (forall f :: f in formats ==> FormatId(s.group, f) in st.index)
      && (forall f :: FormatId(s.group, f) in st.index ==>
            Occurrences(st.index[FormatId(s.group, f)], s.klass, s.view) >= multiset(formats)[f])
  {
    var s := st.subs[w];
    assert ValidTarget(groups, s);
    var h := On(s.group, s.klass, s.view);
    LiveRemove(st.subs, w, h);
    var formats := groups[s.group].klasses[s.klass].formats;
    forall f | FormatId(s.group, f) in st.index
      ensures Occurrences(st.index[FormatId(s.group, f)], s.klass, s.view) >= multiset(formats)[f]
    {
      var id := FormatId(s.group, f);
      assert Occurrences(st.index[id], s.klass, s.view) == Bound(groups, id, s.klass) * Held(st, over, h);
      AtLeast(Bound(groups, id, s.klass), Held(st, over, h));
    }
  }

  lemma AtLeast(m: nat, n: nat)
    requires n >= 1
    ensures m * n >= m
  {}

  lemma TimesPred(m: nat, n: nat)
    requires n >= 1
    ensures m * (n - 1) == m * n - m
  {}

  lemma HeldRemoved(st: State, over: multiset<Hold>, w: string, out: State, h: Hold)
    requires w in st.subs && out.subs == st.subs - {w}
    ensures Held(out, over, h) == Held(st, over, h) - if HoldOf(w, st.subs[w]) == h then 1 else 0
  {
    LiveRemove(st.subs, w, h);
  }

  lemma StarUncounted(groups: Groups, st: State, over: multiset<Hold>, w: string, out: State)
    requires KeepersCounted(st, over) && ViewsCounted(groups, st, over) && w in st.subs && st.subs[w].group == "*"
    requires out.index == st.index && out.subs == st.subs - {w} && out.keepers == RemoveFirst(st.keepers, w)
    ensures KeepersCounted(out, over) && ViewsCounted(groups, out, over)
  {
    hide Held, Bound, Occurrences;
    RemoveFirstCounts(st.keepers, w);
    forall x ensures multiset(out.keepers)[x] == Held(out, over, Star(x)) {
      HeldRemoved(st, over, w, out, Star(x));
    }
    forall id, k, v | id in out.index
      ensures Occurrences(out.index[id], k, v) == Bound(groups, id, k) * Held(out, over, On(id.group, k, v))
    {
      HeldRemoved(st, over, w, out, On(id.group, k, v));
    }
  }

  lemma StarRemoved(groups: Groups, st: State, over: multiset<Hold>, w: string, out: State)
    requires Consistent(groups, st, over) && w in st.subs && st.subs[w].group == "*"
    requires out.index == st.index && out.subs == st.subs - {w} && out.keepers == RemoveFirst(st.keepers, w)
    ensures Consistent(groups, out, over)
  {
    hide Held, Bound, Occurrences, Sound, KeepersCounted, ViewsCounted;
    StarUncounted(groups, st, over, w, out);
  }

  lemma ViewRemoved(groups: Groups, st: State, over: multiset<Hold>, w: string, out: State)
    requires WellFormed(groups) && Consistent(groups, st, over) && w in st.subs && st.subs[w].group != "*"
    requires ValidTarget(groups, st.subs[w])
    requires var s := st.subs[w];
      out.index == ReleaseAll(st.index, s.group, groups[s.group].klasses[s.klass].formats, s.klass, s.view)
    requires out.keepers == st.keepers && out.subs == st.subs - {w}
    ensures Consistent(groups, out, over)
  {
    var s := st.subs[w];
    var formats := groups[s.group].klasses[s.klass].formats;
    ReleaseIsCovered(groups, st, over, w);
    assert KeepersCounted(out, over) by {
      forall x ensures multiset(out.keepers)[x] == Held(out, over, Star(x)) {
        HeldRemoved(st, over, w, out, Star(x));
      }
    }
    ReleaseAllKeys(st.index, s.group, formats, s.klass, s.view);
    assert ViewsCounted(groups, out, over) by {
      forall id, k, v | id in out.index
        ensures Occurrences(out.index[id], k, v) == Bound(groups, id, k) * Held(out, over, On(id.group, k, v))
      {
        ViewRemovedAt(groups, st, over, w, out, id, k, v);
      }
    }
  }

  lemma ViewRemovedAt(groups: Groups, st: State, over: multiset<Hold>, w: string, out: State, id: FormatId, k: string,
                      v: string)
    requires WellFormed(groups) && Consistent(groups, st, over) && w in st.subs && st.subs[w].group != "*"
    requires ValidTarget(groups, st.subs[w]) && id in st.index
    requires var s := st.subs[w];
      out.index == ReleaseAll(st.index, s.group, groups[s.group].klasses[s.klass].formats, s.klass, s.view)
    requires out.subs == st.subs - {w}
    ensures id in out.index
    ensures Occurrences(out.index[id], k, v) == Bound(groups, id, k) * Held(out, over, On(id.group, k, v))
  {
    assert ViewsCounted(groups, st, over);
    hide Consistent, Occurrences, Bound, Held, ReleaseAll, WellFormed, ValidTarget;
    var s := st.subs[w];
    var h := On(id.group, k, v);
    var c := HoldOf(w, s) == h;
    ReleasedOccurrences(groups, st, over, w, id, k, v);
    HeldRemoved(st, over, w, out, h);
    TimesLess(Bound(groups, id, k), Held(st, over, h), Held(out, over, h), c, Occurrences(st.index[id], k, v),
      Occurrences(out.index[id], k, v));
  }

  lemma TimesLess(bound: nat, held: nat, held': nat, c: bool, listed: nat, listed': nat)
    requires listed == bound * held && held' == held - (if c then 1 else 0)
    requires listed' == listed - if c then bound else 0
    ensures listed' == bound * held'
  {
    if c { TimesPred(bound, held); }
  }

  lemma ReleasedOccurrences(groups: Groups, st: State, over: multiset<Hold>, w: string, id: FormatId, k: string,
                            v: string)
    requires WellFormed(groups) && Consistent(groups, st, over) && w in st.subs && st.subs[w].group != "*"
    requires ValidTarget(groups, st.subs[w]) && id in st.index
    ensures var s := st.subs[w];
      var out := ReleaseAll(st.index, s.group, groups[s.group].klasses[s.klass].formats, s.klass, s.view);
      && id in out
      && Occurrences(out[id], k, v)
           == Occurrences(st.index[id], k, v) - if HoldOf(w, s) == On(id.group, k, v) then Bound(groups, id, k) else 0
  {
    var s := st.subs[w];
    ReleaseIsCovered(groups, st, over, w);
    ReleaseAllEffect(st.index, s.group, groups[s.group].klasses[s.klass].formats, s.klass, s.view, id, k, v);
  }

  lemma ReleaseAllKeys(index: Index, group: string, formats: seq<string>, klass: string, view: string)
    requires AllSound(index)
    requires forall f :: f in formats ==> FormatId(group, f) in index
    requires forall f ::
      FormatId(group, f) in index ==> Occurrences(index[FormatId(group, f)], klass, view) >= multiset(formats)[f]
    ensures ReleaseAll(index, group, formats, klass, view).Keys == index.Keys
    ensures AllSound(ReleaseAll(index, group, formats, klass, view))
  {
    if formats != [] {
      ReleaseAllEffect(index, group, formats, klass, view, FormatId(group, formats[0]), klass, view);
    }
  }

  lemma RemoveKeeps(groups: Groups, st: State, over: multiset<Hold>, w: string)
    requires WellFormed(groups) && Consistent(groups, st, over)
    ensures Consistent(groups, DoRemoveWatcher(groups, st, w), over)
  {
    if w in st.subs {
      assert ValidTarget(groups, st.subs[w]);
      if st.subs[w].group == "*" {
        StarRemoved(groups, st, over, w, DoRemoveWatcher(groups, st, w));
      } else {
        ViewRemoved(groups, st, over, w, DoRemoveWatcher(groups, st, w));
      }
    } else {
      SubsAndIndexDecide(groups, st, DoRemoveWatcher(groups, st, w), over);
    }
  }

  lemma SubsAndIndexDecide(groups: Groups, st: State, out: State, over: multiset<Hold>)
    requires Consistent(groups, st, over)
    requires out.keepers == st.keepers && out.subs == st.subs && out.index == st.index
    ensures Consistent(groups, out, over)
  {
    forall h ensures Held(out, over, h) == Held(st, over, h) {}
    assert KeepersCounted(out, over);
    assert ViewsCounted(groups, out, over);
  }

  lemma ApplyKeeps(groups: Groups, st: State, over: multiset<Hold>, e: Event)
    requires WellFormed(groups) && Consistent(groups, st, over)
    ensures Consistent(groups, Apply(groups, st, e), over + Overwrites(groups, st, e))
  {
    assert over + multiset{} == over;
    match e
    case AddWatcher(w) => SubsAndIndexDecide(groups, st, Apply(groups, st, e), over);
    case Subscribe(w, args) => SubscribeKeeps(groups, st, over, w, args);
    case AddFilters(w, filters, compiles) =>
      if w in st.subs { RefilterKeeps(groups, st, over, w, Compiled(filters, compiles)); }
    case ClearFilters(w) => if w in st.subs { RefilterKeeps(groups, st, over, w, map[]); }
    case RemoveWatcher(w) => RemoveKeeps(groups, st, over, w);
  }

  lemma NothingHeld(st: State, h: Hold)
    requires st.subs == map[]
    ensures Held(st, multiset{}, h) == 0
  {
    assert (set w | w in st.subs && HoldOf(w, st.subs[w]) == h) == {};
  }

  lemma InitialConsistent(groups: Groups)
    ensures Consistent(groups, Initial(groups), multiset{})
  {
    var st := Initial(groups);
    assert KeepersCounted(st, multiset{}) by {
      forall w ensures multiset(st.keepers)[w] == Held(st, multiset{}, Star(w)) { NothingHeld(st, Star(w)); }
    }
    assert ViewsCounted(groups, st, multiset{}) by {
      forall id, k, v | id in st.index
        ensures Occurrences(st.index[id], k, v) == Bound(groups, id, k) * Held(st, multiset{}, On(id.group, k, v))
      {
        NothingHeld(st, On(id.group, k, v));
      }
    }
  }

  /** After any interleaving of commands the index accounts exactly for live and overwritten subscriptions. */
  lemma {:induction false} ReachableConsistent(groups: Groups, events: seq<Event>)
    requires WellFormed(groups)
    ensures Consistent(groups, Run(groups, events), Overwritten(groups, events))
  {
    if events == [] {
      InitialConsistent(groups);
    } else {
      var n := |events| - 1;
      ReachableConsistent(groups, events[..n]);
      ApplyKeeps(groups, Run(groups, events[..n]), Overwritten(groups, events[..n]), events[n]);
    }
  }
}
