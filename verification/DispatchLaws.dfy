/** Who is sent what: the indexed dispatch against a plain scan of every format, klass, view and subscription. */
module DispatchLaws {
  import opened Lua
  import opened Segmentation
  import opened Config
  import opened Registry
  import opened RegistryInvariant
  import opened Dispatch

  // ----- callbacks that keep no history -----

  predicate Accepts(group: Group, klass: string, format: string, entry: Entry)
    requires klass in group.klasses
  {
    group.klasses[klass].matcher(format, entry, map[]).accepts
  }

  /** The row a view commits for an entry, if any. */
  function Row(group: Group, klass: string, view: string, format: string, entry: Entry): Option<Fields>
    requires klass in group.klasses && view in group.klasses[klass].views
  {
    var r := group.klasses[klass].views[view].formatter(format, map[], entry, map[]);
    if r.commit then r.row else None
  }

  /** What matchers and formatters answer does not depend on their contexts. */
  ghost predicate Stateless(group: Group) {
    && (forall k, f, e, c :: k in group.klasses ==>
          group.klasses[k].matcher(f, e, c).accepts == group.klasses[k].matcher(f, e, map[]).accepts)
    && (forall k, v, f, c, e, kc :: k in group.klasses && v in group.klasses[k].views ==>
          var r, r0 := group.klasses[k].views[v].formatter(f, c, e, kc),
            group.klasses[k].views[v].formatter(f, map[], e, map[]);
          r.commit == r0.commit && r.row == r0.row)
  }

  // ----- counting deliveries level by level -----

  lemma {:induction false} RelaysCount(sc: Scene, f: string, k: string, v: string, row: Fields, ws: seq<string>,
                                       d: Delivery)
    ensures multiset(Relays(sc, f, k, v, row, ws))[d]
         == if d == Delivery(d.watcher, sc.name, f, k, v, row) && Wants(sc, d.watcher, k, v, row)
            then multiset(ws)[d.watcher] else 0
  {
    if ws != [] {
      var n := |ws| - 1;
      assert ws == ws[..n] + [ws[n]];
      RelaysCount(sc, f, k, v, row, ws[..n], d);
    }
  }

  lemma EnumeratedOnce(ord: Order, t: Table, keys: set<string>, x: string)
    requires Enumerates(ord)
    ensures multiset(ord(t, keys))[x] == if x in keys then 1 else 0
    ensures x in ord(t, keys) <==> x in keys
  {
    assert x in ord(t, keys) <==> x in multiset(ord(t, keys));
  }

  /** The view commits this row for this entry and the watcher wants it. */
  predicate Due(sc: Scene, entry: Entry, d: Delivery) {
    && d.group == sc.name && d.klass in sc.group.klasses && d.view in sc.group.klasses[d.klass].views
    && Row(sc.group, d.klass, d.view, d.format, entry) == Some(d.row)
    && Wants(sc, d.watcher, d.klass, d.view, d.row)
  }

  lemma RunViewCount(sc: Scene, cx: Contexts, f: string, k: string, v: string, entry: Entry, d: Delivery)
    requires Stateless(sc.group) && Enumerates(sc.ord)
    requires k in sc.group.klasses && v in sc.group.klasses[k].views
    ensures multiset(RunView(sc, cx, f, k, v, entry).sent)[d]
         == if d.format == f && d.klass == k && d.view == v && Due(sc, entry, d) then 1 else 0
  {
    var r := sc.group.klasses[k].views[v].formatter(f, ViewContext(cx, ViewId(sc.name, k, v)), entry,
      KlassContext(cx, KlassId(sc.name, k)));
    var r0 := sc.group.klasses[k].views[v].formatter(f, map[], entry, map[]);
    assert r.commit == r0.commit && r.row == r0.row;
    if r.commit && r.row.Some? {
      RelaysCount(sc, f, k, v, r.row.value, sc.ord(Subscriptions, sc.st.subs.Keys), d);
      EnumeratedOnce(sc.ord, Subscriptions, sc.st.subs.Keys, d.watcher);
    }
  }

  lemma {:induction false} RunViewsCount(sc: Scene, cx: Contexts, f: string, k: string, vs: seq<string>, entry: Entry,
                                         d: Delivery)
    requires Stateless(sc.group) && Enumerates(sc.ord)
    requires k in sc.group.klasses && forall v :: v in vs ==> v in sc.group.klasses[k].views
    ensures multiset(RunViews(sc, cx, f, k, vs, entry).sent)[d]
         == if d.format == f && d.klass == k && Due(sc, entry, d) then multiset(vs)[d.view] else 0
  {
    if vs != [] {
      var n := |vs| - 1;
      assert vs == vs[..n] + [vs[n]];
      RunViewsCount(sc, cx, f, k, vs[..n], entry, d);
      RunViewCount(sc, RunViews(sc, cx, f, k, vs[..n], entry).cx, f, k, vs[n], entry, d);
    }
  }

  /** Deliveries a klass is responsible for: its matcher accepts, and then once per listing of the view. */
  function KlassShare(sc: Scene, entry: Entry, d: Delivery): nat
    requires d.klass in sc.group.klasses
  {
    if Accepts(sc.group, d.klass, d.format, entry) && Due(sc, entry, d)
    then multiset(ViewList(sc, d.format, d.klass))[d.view] else 0
  }

  lemma RunKlassCount(sc: Scene, cx: Contexts, f: string, k: string, entry: Entry, d: Delivery)
    requires Stateless(sc.group) && Enumerates(sc.ord) && Listed(sc) && k in sc.group.klasses
    ensures multiset(RunKlass(sc, cx, f, k, entry).sent)[d]
         == if d.format == f && d.klass == k then KlassShare(sc, entry, d) else 0
  {
    var m := sc.group.klasses[k].matcher(f, entry, KlassContext(cx, KlassId(sc.name, k)));
    assert m.accepts == sc.group.klasses[k].matcher(f, entry, map[]).accepts;
    var cx' := cx.(klasses := cx.klasses[KlassId(sc.name, k) := m.klassContext]);
    RunViewsCount(sc, cx', f, k, ViewList(sc, f, k), entry, d);
  }

  ghost predicate EachOnce(s: seq<string>) {
    forall x :: multiset(s)[x] <= 1
  }

  lemma {:induction false} RunKlassesCount(sc: Scene, cx: Contexts, f: string, ks: seq<string>, entry: Entry,
                                           d: Delivery)
    requires Stateless(sc.group) && Enumerates(sc.ord) && Listed(sc) && EachOnce(ks)
    requires forall k :: k in ks ==> k in sc.group.klasses
    ensures multiset(RunKlasses(sc, cx, f, ks, entry).sent)[d]
         == if d.format == f && d.klass in ks then KlassShare(sc, entry, d) else 0
  {
    if ks != [] {
      var n := |ks| - 1;
      EachOnceSplit(ks);
      RunKlassesCount(sc, cx, f, ks[..n], entry, d);
      RunKlassCount(sc, RunKlasses(sc, cx, f, ks[..n], entry).cx, f, ks[n], entry, d);
    }
  }

  lemma EachOnceSplit(s: seq<string>)
    requires s != [] && EachOnce(s)
    ensures EachOnce(s[..|s| - 1]) && s[|s| - 1] !in s[..|s| - 1]
    ensures forall x :: x in s <==> x in s[..|s| - 1] || x == s[|s| - 1]
  {
    var n := |s| - 1;
    assert s == s[..n] + [s[n]];
    forall x ensures multiset(s[..n])[x] <= 1 { assert multiset(s)[x] <= 1; }
    assert multiset(s)[s[n]] == multiset(s[..n])[s[n]] + 1;
  }

  /** The entry as the `i`-th applicable format's klasses see it. */
  function EntryAt(sc: Scene, formats: seq<string>, i: nat, rec: Record): Entry
    requires i < |formats| && forall f :: f in formats ==> f in sc.group.formats
  {
    Entry(rec.raw, FieldsAfter(sc.group, formats[..i + 1], rec))
  }

  /** Deliveries the `i`-th format is responsible for. */
  function FormatShare(sc: Scene, entry: Entry, d: Delivery): nat
    requires Listed(sc)
  {
    if d.klass in KlassList(sc, d.format) then KlassShare(sc, entry, d) else 0
  }

  lemma KlassListOnce(sc: Scene, f: string)
    requires Enumerates(sc.ord)
    ensures EachOnce(KlassList(sc, f))
  {
    var ks := KlassList(sc, f);
    var id := FormatId(sc.name, f);
    forall x ensures multiset(ks)[x] <= 1 {
      if HasKeepers(sc) {
        EnumeratedOnce(sc.ord, Klasses, sc.group.klasses.Keys, x);
      } else if id in sc.st.index {
        EnumeratedOnce(sc.ord, Active(f), sc.st.index[id].active.Keys, x);
      }
    }
  }

  lemma LastFormatCount(sc: Scene, cx: Contexts, fs: seq<string>, rec: Record, d: Delivery)
    requires Stateless(sc.group) && Enumerates(sc.ord) && Listed(sc) && fs != []
    requires forall f :: f in fs ==> f in sc.group.formats
    ensures var n := |fs| - 1;
      multiset(RunFormats(sc, cx, fs, rec).sent)[d] == multiset(RunFormats(sc, cx, fs[..n], rec).sent)[d]
        + if d.format == fs[n] then FormatShare(sc, EntryAt(sc, fs, n, rec), d) else 0
  {
    var n := |fs| - 1;
    KlassListOnce(sc, fs[n]);
    assert fs[..n + 1] == fs;
    RunKlassesCount(sc, RunFormats(sc, cx, fs[..n], rec).cx, fs[n], KlassList(sc, fs[n]), EntryAt(sc, fs, n, rec), d);
  }

  lemma {:induction false} AbsentFormatCount(sc: Scene, cx: Contexts, fs: seq<string>, rec: Record, d: Delivery)
    requires Stateless(sc.group) && Enumerates(sc.ord) && Listed(sc)
    requires forall f :: f in fs ==> f in sc.group.formats
    requires d.format !in fs
    ensures multiset(RunFormats(sc, cx, fs, rec).sent)[d] == 0
  {
    if fs != [] {
      AbsentFormatCount(sc, cx, fs[..|fs| - 1], rec, d);
      LastFormatCount(sc, cx, fs, rec, d);
    }
  }

  lemma {:induction false} FormatCount(sc: Scene, cx: Contexts, fs: seq<string>, i: nat, rec: Record, d: Delivery)
    requires Stateless(sc.group) && Enumerates(sc.ord) && Listed(sc) && EachOnce(fs)
    requires forall f :: f in fs ==> f in sc.group.formats
    requires i < |fs| && fs[i] == d.format
    ensures multiset(RunFormats(sc, cx, fs, rec).sent)[d] == FormatShare(sc, EntryAt(sc, fs, i, rec), d)
  {
    hide EachOnce, EntryAt, FormatShare, RunFormats, Listed, Enumerates, Stateless;
    var n := |fs| - 1;
    EachOnceSplit(fs);
    LastFormatCount(sc, cx, fs, rec, d);
    if i == n {
      AbsentFormatCount(sc, cx, fs[..n], rec, d);
    } else {
      EntryAtFront(sc, fs, i, rec);
      FormatCount(sc, cx, fs[..n], i, rec, d);
      assert d.format == fs[..n][i] && d.format in fs[..n];
    }
  }

  lemma EntryAtFront(sc: Scene, fs: seq<string>, i: nat, rec: Record)
    requires i + 1 < |fs| && forall f :: f in fs ==> f in sc.group.formats
    ensures EntryAt(sc, fs[..|fs| - 1], i, rec) == EntryAt(sc, fs, i, rec)
  {
    assert fs[..|fs| - 1][..i + 1] == fs[..i + 1];
  }

  lemma FormatListMember(sc: Scene, raw: string, f: string)
    requires Enumerates(sc.ord)
    ensures f in FormatList(sc, raw)
         <==> f in sc.group.formats && Considered(sc, f) && Applies(sc.group.formats[f], raw)
    ensures EachOnce(FormatList(sc, raw))
  {
    FormatsKnown(sc);
    var order := sc.ord(Formats, sc.group.formats.Keys);
    forall x ensures multiset(FormatList(sc, raw))[x] <= 1 {
      ApplicableKnown(sc, order, raw, x);
      EnumeratedOnce(sc.ord, Formats, sc.group.formats.Keys, x);
    }
    ApplicableKnown(sc, order, raw, f);
    EnumeratedOnce(sc.ord, Formats, sc.group.formats.Keys, f);
    assert f in FormatList(sc, raw) <==> f in multiset(FormatList(sc, raw));
  }

  /** In general, a delivery is decided by the entry as the formats visited so far have filled it, its own included. */
  lemma SharedCount(sc: Scene, cx: Contexts, rec: Record, i: nat, d: Delivery)
    requires Stateless(sc.group) && Enumerates(sc.ord) && Listed(sc)
    requires i < |FormatList(sc, rec.raw)| && FormatList(sc, rec.raw)[i] == d.format
    ensures forall f :: f in FormatList(sc, rec.raw) ==> f in sc.group.formats
    ensures multiset(DispatchRecord(sc, cx, rec).sent)[d]
         == FormatShare(sc, EntryAt(sc, FormatList(sc, rec.raw), i, rec), d)
  {
    FormatListKnown(sc, rec.raw);
    FormatListMember(sc, rec.raw, d.format);
    FormatCount(sc, cx, FormatList(sc, rec.raw), i, rec, d);
  }

  // ----- the same, whatever the order -----

  /** The klass is tried on records the format reads. */
  predicate Tried(sc: Scene, format: string, klass: string) {
    if HasKeepers(sc) then klass in sc.group.klasses
    else FormatId(sc.name, format) in sc.st.index && klass in sc.st.index[FormatId(sc.name, format)].active
  }

  /** How often the view is run when its klass accepts. */
  function Listings(sc: Scene, format: string, klass: string, view: string): nat {
    if HasKeepers(sc) then (if klass in sc.group.klasses && view in sc.group.klasses[klass].views then 1 else 0)
    else if FormatId(sc.name, format) in sc.st.index
      then Occurrences(sc.st.index[FormatId(sc.name, format)], klass, view)
    else 0
  }

  /** The klass accepts the entry, its view commits the row, and the watcher wants it. */
  predicate Sends(sc: Scene, entry: Entry, d: Delivery) {
    d.klass in sc.group.klasses && Accepts(sc.group, d.klass, d.format, entry) && Due(sc, entry, d)
  }

  lemma TriedIsListed(sc: Scene, f: string, k: string, v: string)
    requires Enumerates(sc.ord)
    ensures k in KlassList(sc, f) <==> Tried(sc, f, k)
    ensures k in sc.group.klasses ==> multiset(ViewList(sc, f, k))[v] == Listings(sc, f, k, v)
  {
    var id := FormatId(sc.name, f);
    if HasKeepers(sc) {
      EnumeratedOnce(sc.ord, Klasses, sc.group.klasses.Keys, k);
      if k in sc.group.klasses { EnumeratedOnce(sc.ord, Views(k), sc.group.klasses[k].views.Keys, v); }
    } else if id in sc.st.index {
      EnumeratedOnce(sc.ord, Active(f), sc.st.index[id].active.Keys, k);
    }
  }

  lemma ShareIs(sc: Scene, entry: Entry, d: Delivery)
    requires Enumerates(sc.ord) && Listed(sc)
    ensures FormatShare(sc, entry, d)
         == if Tried(sc, d.format, d.klass) && Sends(sc, entry, d) then Listings(sc, d.format, d.klass, d.view) else 0
  {
    TriedIsListed(sc, d.format, d.klass, d.view);
  }
}
