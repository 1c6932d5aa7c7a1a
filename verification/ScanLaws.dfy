/** The indexed dispatch against a plain scan of every format, klass, view and subscription. */
module ScanLaws {
  import opened Lua
  import opened Segmentation
  import opened Config
  import opened Registry
  import opened RegistryInvariant
  import opened Dispatch
  import opened DispatchLaws

  // ----- the plain scan -----

  /** The entry as a format alone would fill it. */
  function Alone(group: Group, format: string, rec: Record): Entry
    requires format in group.formats
  {
    Entry(rec.raw, Schema(group, format, rec))
  }

  /** The stretch alone shows the delimiter it begins with, and nothing if it is shorter than that. */
  lemma CapturesOfStretch(sig: Signature, text: string, a: nat, b: nat)
    requires At(sig, text, a) && a <= b <= |text|
    ensures SignatureCaptures(sig, text[a..b])
         == if a + sig.width <= b then sig.captures(text[a..a + sig.width]) else []
  {
    if a + sig.width <= b {
      assert text[a..b][0..sig.width] == text[a..a + sig.width];
      assert At(sig, text[a..b], 0);
    }
  }

  /** What a format reads of the stretch between two delimiters: its extractor is given what it captures of the bytes
      after the first delimiter, and then what the signature captures of that delimiter. */
  lemma AloneReads(group: Group, format: string, text: string, a: nat, b: nat)
    requires format in group.formats && At(group.signature, text, a) && a + group.signature.width <= b <= |text|
    ensures var w, fmt := group.signature.width, group.formats[format];
      var raw := text[a + w..b];
      fmt.find(raw).Some? ==>
        Alone(group, format, RecordOf(group.signature, text, Span(a, b)))
          == Entry(raw, fmt.extractor(fmt.find(raw).value + group.signature.captures(text[a..a + w])))
  {
    RecordIs(group.signature, text, a, b);
    CapturesOfStretch(group.signature, text, a, b);
    hide RecordOf, SignatureCaptures;
  }

  /** A stretch shorter than its delimiter holds an empty record and shows no captures of the signature. */
  lemma AloneReadsShort(group: Group, format: string, text: string, a: nat, b: nat)
    requires format in group.formats && At(group.signature, text, a)
    requires a <= b < a + group.signature.width && b <= |text|
    ensures var fmt := group.formats[format];
      fmt.find("").Some? ==>
        Alone(group, format, RecordOf(group.signature, text, Span(a, b)))
          == Entry("", fmt.extractor(fmt.find("").value))
  {
    RecordIs(group.signature, text, a, b);
    CapturesOfStretch(group.signature, text, a, b);
    var fmt := group.formats[format];
    if fmt.find("").Some? { assert fmt.find("").value + [] == fmt.find("").value; }
    hide RecordOf, SignatureCaptures;
  }

  /** Due by a scan that tries every format, every klass, every view and every subscription. */
  predicate ScannedAnyKlass(sc: Scene, rec: Record, d: Delivery) {
    && d.format in sc.group.formats && Applies(sc.group.formats[d.format], rec.raw)
    && Sends(sc, Alone(sc.group, d.format, rec), d)
  }

  /** The same, with each klass tried only on the formats it is bound to. */
  predicate Scanned(sc: Scene, rec: Record, d: Delivery) {
    ScannedAnyKlass(sc, rec, d) && d.format in sc.group.klasses[d.klass].formats
  }

  /** Deliveries made if every format filled an entry of its own. */
  function ScanCount(sc: Scene, rec: Record, d: Delivery): nat {
    if ScannedAnyKlass(sc, rec, d) && Considered(sc, d.format) && Tried(sc, d.format, d.klass)
    then Listings(sc, d.format, d.klass, d.view) else 0
  }

  // ----- formats that fill one entry -----

  /** The formats `gs` can all have filled the entry before `f` does. */
  ghost predicate Before(sc: Scene, rec: Record, gs: seq<string>, f: string) {
    && EachOnce(gs) && f !in gs
    && forall g ::
      g in gs || g == f ==> g in sc.group.formats && Considered(sc, g) && Applies(sc.group.formats[g], rec.raw)
  }

  /** The entry as `f` leaves it after `gs`. */
  ghost function Shared(sc: Scene, rec: Record, gs: seq<string>, f: string): Entry
    requires Before(sc, rec, gs, f)
  {
    Entry(rec.raw, FieldsAfter(sc.group, gs, rec) + Schema(sc.group, f, rec))
  }

  /** Whatever other formats have put into the entry before, each listed view sends the same rows to the same
      watchers. */
  ghost predicate Undisturbed(sc: Scene, rec: Record) {
    forall gs, d: Delivery :: Before(sc, rec, gs, d.format) ==> Unmoved(sc, rec, gs, d)
  }

  ghost predicate Unmoved(sc: Scene, rec: Record, gs: seq<string>, d: Delivery)
    requires Before(sc, rec, gs, d.format)
  {
    Tried(sc, d.format, d.klass) && Listings(sc, d.format, d.klass, d.view) > 0 ==>
      (Sends(sc, Shared(sc, rec, gs, d.format), d) <==> Sends(sc, Alone(sc.group, d.format, rec), d))
  }

  /** If at most one format matches, nothing can be disturbed. */
  lemma ExclusiveUndisturbed(sc: Scene, rec: Record)
    requires forall f, f' :: (f in sc.group.formats && f' in sc.group.formats
                              && Applies(sc.group.formats[f], rec.raw) && Applies(sc.group.formats[f'], rec.raw))
                             ==> f == f'
    ensures Undisturbed(sc, rec)
  {
    forall gs, d: Delivery | Before(sc, rec, gs, d.format) ensures Unmoved(sc, rec, gs, d) {
      AllTheSame(gs, d.format);
      assert map[] + Schema(sc.group, d.format, rec) == Schema(sc.group, d.format, rec);
    }
  }

  lemma AllTheSame(gs: seq<string>, f: string)
    requires forall g :: g in gs ==> g == f
    ensures gs != [] ==> f in gs
  {
    if gs != [] { assert gs[0] in gs; }
  }

  lemma {:induction false} EachOnceFront(s: seq<string>, i: nat)
    requires EachOnce(s) && i < |s|
    ensures EachOnce(s[..i]) && s[i] !in s[..i]
    decreases |s|
  {
    EachOnceSplit(s);
    var n := |s| - 1;
    if i < n {
      EachOnceFront(s[..n], i);
      assert s[..n][..i] == s[..i];
    }
  }

  /** The formats visited before the `i`-th. */
  lemma VisitedBefore(sc: Scene, rec: Record, i: nat)
    requires Enumerates(sc.ord) && i < |FormatList(sc, rec.raw)|
    ensures var fs := FormatList(sc, rec.raw);
      && (forall f :: f in fs ==> f in sc.group.formats)
      && Before(sc, rec, fs[..i], fs[i])
      && EntryAt(sc, fs, i, rec) == Shared(sc, rec, fs[..i], fs[i])
  {
    var fs := FormatList(sc, rec.raw);
    FormatListMember(sc, rec.raw, fs[i]);
    EachOnceFront(fs, i);
    forall f | f in fs ensures f in sc.group.formats && Considered(sc, f) && Applies(sc.group.formats[f], rec.raw) {
      FormatListMember(sc, rec.raw, f);
    }
    assert fs[..i + 1][..i] == fs[..i] && forall f :: f in fs[..i] ==> f in fs;
  }

  /** One record's deliveries, counted, when no format disturbs another. */
  lemma DispatchCount(sc: Scene, cx: Contexts, rec: Record, d: Delivery)
    requires Stateless(sc.group) && Enumerates(sc.ord) && Listed(sc) && Undisturbed(sc, rec)
    ensures multiset(DispatchRecord(sc, cx, rec).sent)[d] == ScanCount(sc, rec, d)
  {
    hide Stateless, Listed, Sends, EntryAt, Shared, Before, DispatchRecord, FormatList, FormatShare;
    var fs := FormatList(sc, rec.raw);
    FormatListMember(sc, rec.raw, d.format);
    if d.format in fs {
      var i :| 0 <= i < |fs| && fs[i] == d.format;
      VisitedBefore(sc, rec, i);
      SharedCount(sc, cx, rec, i, d);
      ShareIs(sc, EntryAt(sc, fs, i, rec), d);
      assert Unmoved(sc, rec, fs[..i], d);
    } else {
      UnreadCount(sc, cx, rec, d);
    }
  }

  lemma UnreadCount(sc: Scene, cx: Contexts, rec: Record, d: Delivery)
    requires Stateless(sc.group) && Enumerates(sc.ord) && Listed(sc) && d.format !in FormatList(sc, rec.raw)
    ensures multiset(DispatchRecord(sc, cx, rec).sent)[d] == 0
  {
    FormatListKnown(sc, rec.raw);
    AbsentFormatCount(sc, cx, FormatList(sc, rec.raw), rec, d);
  }

  // ----- and an order in which it shows if one does -----

  /** The keys of `s` that are not in `gs`, in their order. */
  function Without(s: seq<string>, gs: seq<string>): seq<string> {
    if s == [] then [] else (if s[0] in gs then [] else [s[0]]) + Without(s[1..], gs)
  }

  lemma {:induction false} WithoutCounts(s: seq<string>, gs: seq<string>, x: string)
    ensures multiset(Without(s, gs))[x] == if x in gs then 0 else multiset(s)[x]
  {
    if s != [] {
      assert s == [s[0]] + s[1..];
      WithoutCounts(s[1..], gs, x);
    }
  }

  /** The base order, except that the formats come as `fs`. */
  function Visiting(ord: Order, keys: set<string>, fs: seq<string>): Order {
    (t, ks) => if t == Formats && ks == keys then fs else ord(t, ks)
  }

  /** `gs` and `f` first, then the other formats. */
  function FirstThese(ord: Order, keys: set<string>, gs: seq<string>, f: string): seq<string> {
    gs + [f] + Without(ord(Formats, keys), gs + [f])
  }

  lemma FirstTheseEnumerates(sc: Scene, rec: Record, gs: seq<string>, f: string)
    requires Enumerates(sc.ord) && Before(sc, rec, gs, f)
    ensures var keys := sc.group.formats.Keys;
      Enumerates(Visiting(sc.ord, keys, FirstThese(sc.ord, keys, gs, f)))
  {
    var keys := sc.group.formats.Keys;
    var fs := FirstThese(sc.ord, keys, gs, f);
    forall x ensures multiset(fs)[x] == multiset(keys)[x] {
      WithoutCounts(sc.ord(Formats, keys), gs + [f], x);
      EnumeratedOnce(sc.ord, Formats, keys, x);
      assert multiset(gs)[x] <= 1;
    }
    assert multiset(fs) == multiset(keys);
  }

  lemma {:induction false} ApplicableSplit(sc: Scene, fs: seq<string>, fs': seq<string>, raw: string)
    requires forall f :: f in fs || f in fs' ==> f in sc.group.formats
    ensures forall f :: f in fs + fs' ==> f in sc.group.formats
    ensures Applicable(sc, fs + fs', raw) == Applicable(sc, fs, raw) + Applicable(sc, fs', raw)
  {
    if fs' == [] {
      assert fs + fs' == fs;
    } else {
      var n := |fs'| - 1;
      assert (fs + fs')[..|fs| + n] == fs + fs'[..n];
      ApplicableSplit(sc, fs, fs'[..n], raw);
    }
  }

  lemma {:induction false} ApplicableAll(sc: Scene, fs: seq<string>, raw: string)
    requires forall f :: f in fs ==> f in sc.group.formats && Considered(sc, f) && Applies(sc.group.formats[f], raw)
    ensures Applicable(sc, fs, raw) == fs
  {
    if fs != [] {
      var n := |fs| - 1;
      assert fs == fs[..n] + [fs[n]];
      ApplicableAll(sc, fs[..n], raw);
    }
  }

  /** In that order the record is read by `gs` and `f` first. */
  lemma VisitedFirst(sc: Scene, rec: Record, gs: seq<string>, f: string, sc': Scene)
    requires Enumerates(sc.ord) && Before(sc, rec, gs, f)
    requires var keys := sc.group.formats.Keys;
      sc' == sc.(ord := Visiting(sc.ord, keys, FirstThese(sc.ord, keys, gs, f)))
    ensures Enumerates(sc'.ord) && gs + [f] <= FormatList(sc', rec.raw)
  {
    FirstTheseEnumerates(sc, rec, gs, f);
    FormatsKnown(sc');
    var keys := sc.group.formats.Keys;
    var rest := Without(sc.ord(Formats, keys), gs + [f]);
    var all := gs + [f] + rest;
    assert sc'.ord(Formats, keys) == all;
    assert forall g :: g in gs + [f] || g in rest ==> g in all;
    forall g | g in gs + [f] ensures Considered(sc', g) && Applies(sc.group.formats[g], rec.raw) {
      assert Considered(sc, g);
    }
    ApplicableSplit(sc', gs + [f], rest, rec.raw);
    ApplicableAll(sc', gs + [f], rec.raw);
  }

  lemma ListedAnyOrder(sc: Scene, ord: Order)
    requires Enumerates(sc.ord) && Enumerates(ord) && Listed(sc)
    ensures Listed(sc.(ord := ord))
  {
    var sc' := sc.(ord := ord);
    hide Enumerates;
    forall f, k | k in KlassList(sc', f) ensures k in sc.group.klasses {
      TriedIsListed(sc, f, k, "");
      TriedIsListed(sc', f, k, "");
    }
    forall f, k, v | k in sc.group.klasses && v in ViewList(sc', f, k) ensures v in sc.group.klasses[k].views {
      TriedIsListed(sc, f, k, v);
      TriedIsListed(sc', f, k, v);
      assert v in multiset(ViewList(sc, f, k));
    }
  }

  lemma SendsAnyOrder(sc: Scene, ord: Order, entry: Entry, d: Delivery)
    ensures Sends(sc.(ord := ord), entry, d) <==> Sends(sc, entry, d)
  {
    var sc' := sc.(ord := ord);
    if d.watcher in sc.st.subs {
      var filters := sc.st.subs[d.watcher].filters;
      forall f | f in filters
        ensures PassesOne(sc', filters[f], FieldText(d.row, f)) == PassesOne(sc, filters[f], FieldText(d.row, f))
      {}
      assert Passes(sc', filters, d.row) == Passes(sc, filters, d.row);
    }
  }

  lemma UndisturbedAnyOrder(sc: Scene, ord: Order, rec: Record)
    ensures Undisturbed(sc.(ord := ord), rec) <==> Undisturbed(sc, rec)
  {
    var sc' := sc.(ord := ord);
    hide Sends, Applies;
    forall gs, d: Delivery
      ensures Before(sc', rec, gs, d.format) <==> Before(sc, rec, gs, d.format)
      ensures Before(sc, rec, gs, d.format) ==> (Unmoved(sc', rec, gs, d) <==> Unmoved(sc, rec, gs, d))
    {
      assert forall g :: Considered(sc', g) <==> Considered(sc, g);
      if Before(sc, rec, gs, d.format) {
        SendsAnyOrder(sc, ord, Shared(sc, rec, gs, d.format), d);
        SendsAnyOrder(sc, ord, Alone(sc.group, d.format, rec), d);
      }
    }
  }

  /** With `gs` visited first, a listed delivery of `f` is made exactly when the shared entry sends it. */
  lemma SharedShows(sc: Scene, cx: Contexts, rec: Record, gs: seq<string>, d: Delivery) returns (ord: Order)
    requires Stateless(sc.group) && Enumerates(sc.ord) && Listed(sc) && Before(sc, rec, gs, d.format)
    requires Tried(sc, d.format, d.klass)
    ensures Enumerates(ord) && Listed(sc.(ord := ord))
    ensures multiset(DispatchRecord(sc.(ord := ord), cx, rec).sent)[d]
         == if Sends(sc, Shared(sc, rec, gs, d.format), d) then Listings(sc, d.format, d.klass, d.view) else 0
  {
    hide Stateless, Listed, Sends, DispatchRecord, FormatList, FormatShare, EntryAt, Before, Enumerates;
    var keys := sc.group.formats.Keys;
    ord := Visiting(sc.ord, keys, FirstThese(sc.ord, keys, gs, d.format));
    var sc' := sc.(ord := ord);
    VisitedFirst(sc, rec, gs, d.format, sc');
    ListedAnyOrder(sc, ord);
    var fs, i := FormatList(sc', rec.raw), |gs|;
    assert fs[i] == (gs + [d.format])[i] && fs[..i] == (gs + [d.format])[..i] == gs;
    VisitedBefore(sc', rec, i);
    SharedCount(sc', cx, rec, i, d);
    ShareIs(sc', EntryAt(sc', fs, i, rec), d);
    SendsAnyOrder(sc, ord, Shared(sc, rec, gs, d.format), d);
  }

  // ----- the main results -----

  /** The engine sends each delivery as often as the scan says, in whatever order tables are visited. */
  ghost predicate CountsAsScanned(sc: Scene, cx: Contexts, rec: Record) {
    forall ord: Order, d :: Enumerates(ord) && Listed(sc.(ord := ord)) ==>
      multiset(DispatchRecord(sc.(ord := ord), cx, rec).sent)[d] == ScanCount(sc, rec, d)
  }

  lemma ScanCountAnyOrder(sc: Scene, ord: Order, rec: Record, d: Delivery)
    ensures ScanCount(sc.(ord := ord), rec, d) == ScanCount(sc, rec, d)
    ensures Scanned(sc.(ord := ord), rec, d) <==> Scanned(sc, rec, d)
    ensures ScannedAnyKlass(sc.(ord := ord), rec, d) <==> ScannedAnyKlass(sc, rec, d)
  {
    if d.format in sc.group.formats {
      SendsAnyOrder(sc, ord, Alone(sc.group, d.format, rec), d);
    }
  }

  /** The counts, format by format, are those of the scan in every order exactly when the formats do not disturb each
      other. */
  lemma CountsAsScannedIff(sc: Scene, cx: Contexts, rec: Record)
    requires Stateless(sc.group) && Enumerates(sc.ord) && Listed(sc)
    ensures CountsAsScanned(sc, cx, rec) <==> Undisturbed(sc, rec)
  {
    hide Stateless, Listed, Sends, DispatchRecord, Enumerates, Before;
    if Undisturbed(sc, rec) {
      forall ord: Order, d | Enumerates(ord) && Listed(sc.(ord := ord))
        ensures multiset(DispatchRecord(sc.(ord := ord), cx, rec).sent)[d] == ScanCount(sc, rec, d)
      {
        UndisturbedAnyOrder(sc, ord, rec);
        DispatchCount(sc.(ord := ord), cx, rec, d);
        ScanCountAnyOrder(sc, ord, rec, d);
      }
    }
    if CountsAsScanned(sc, cx, rec) {
      forall gs, d: Delivery | Before(sc, rec, gs, d.format) ensures Unmoved(sc, rec, gs, d) {
        if Tried(sc, d.format, d.klass) && Listings(sc, d.format, d.klass, d.view) > 0 {
          var ord := SharedShows(sc, cx, rec, gs, d);
          BeforeReads(sc, rec, gs, d.format);
          assert multiset(DispatchRecord(sc.(ord := ord), cx, rec).sent)[d] == ScanCount(sc, rec, d);
        }
      }
    }
  }

  lemma BeforeReads(sc: Scene, rec: Record, gs: seq<string>, f: string)
    requires Before(sc, rec, gs, f)
    ensures f in sc.group.formats && Considered(sc, f) && Applies(sc.group.formats[f], rec.raw)
  {}

  ghost predicate Settled(groups: Groups, sc: Scene, over: multiset<Hold>) {
    && Consistent(groups, sc.st, over) && WellFormed(groups)
    && sc.name in groups && groups[sc.name] == sc.group && Enumerates(sc.ord)
  }

  lemma ListsAreBound(groups: Groups, sc: Scene, over: multiset<Hold>, f: string, k: string, v: string)
    requires Settled(groups, sc, over) && FormatId(sc.name, f) in sc.st.index
    requires Occurrences(sc.st.index[FormatId(sc.name, f)], k, v) > 0
    ensures k in sc.group.klasses && f in sc.group.klasses[k].formats && v in sc.group.klasses[k].views
  {
    var id := FormatId(sc.name, f);
    var h := On(sc.name, k, v);
    var bound, held := Bound(groups, id, k), Held(sc.st, over, h);
    assert bound * held > 0 by { assert Occurrences(sc.st.index[id], k, v) == bound * held; }
    ProductPositive(bound, held);
    HeldIsValid(groups, sc.st, over, h);
    assert f in multiset(sc.group.klasses[k].formats);
  }

  lemma HeldIsValid(groups: Groups, st: State, over: multiset<Hold>, h: Hold)
    requires Consistent(groups, st, over) && Held(st, over, h) > 0
    ensures ValidHold(groups, h)
  {
    if over[h] == 0 {
      var w := LiveWitness(st.subs, h);
      assert ValidTarget(groups, st.subs[w]);
    } else {
      assert h in over;
    }
  }

  lemma LiveWitness(subs: map<string, Subscription>, h: Hold) returns (w: string)
    requires Live(subs, h) > 0
    ensures w in subs && HoldOf(w, subs[w]) == h
  {
    var holders := set w | w in subs && HoldOf(w, subs[w]) == h;
    assert |holders| > 0;
    w :| w in holders;
  }

  lemma SettledListed(groups: Groups, sc: Scene, over: multiset<Hold>)
    requires Settled(groups, sc, over)
    ensures Listed(sc)
  {
    forall f, k | k in KlassList(sc, f) ensures k in sc.group.klasses {
      var id := FormatId(sc.name, f);
      if HasKeepers(sc) {
        EnumeratedOnce(sc.ord, Klasses, sc.group.klasses.Keys, k);
      } else {
        EnumeratedOnce(sc.ord, Active(f), sc.st.index[id].active.Keys, k);
        assert Sound(sc.st.index[id]);
        ListsAreBound(groups, sc, over, f, k, sc.st.index[id].active[k][0]);
      }
    }
    forall f, k, v | k in sc.group.klasses && v in ViewList(sc, f, k) ensures v in sc.group.klasses[k].views {
      if HasKeepers(sc) {
        EnumeratedOnce(sc.ord, Views(k), sc.group.klasses[k].views.Keys, v);
      } else {
        ListsAreBound(groups, sc, over, f, k, v);
      }
    }
  }

  /** The formats that read a record in a settled state: those that find it and capture something, as long as some view
      of theirs is listed or a keeper is attached. */
  lemma ReadersAre(groups: Groups, sc: Scene, over: multiset<Hold>, raw: string, f: string)
    requires Settled(groups, sc, over)
    ensures f in FormatList(sc, raw) <==>
            && f in sc.group.formats
            && (exists caps :: sc.group.formats[f].find(raw) == Some(caps) && caps != [])
            && (sc.st.keepers != [] || exists k, v :: Occurrences(sc.st.index[FormatId(sc.name, f)], k, v) > 0)
  {
    FormatListMember(sc, raw, f);
    if f in sc.group.formats {
      var fmt, id := sc.group.formats[f], FormatId(sc.name, f);
      assert id in FormatIds(groups);
      assert Applies(fmt, raw) ==> fmt.find(raw) == Some(fmt.find(raw).value);
      SomethingListed(sc.st.index[id]);
    }
  }

  lemma SomethingListed(fs: FormatState)
    requires Sound(fs)
    ensures fs.nrActive > 0 <==> exists k, v :: Occurrences(fs, k, v) > 0
  {
    assert |fs.active| == |fs.active.Keys|;
    if fs.nrActive > 0 {
      var k :| k in fs.active.Keys;
      assert Occurrences(fs, k, fs.active[k][0]) > 0;
    }
  }

  /** A wanted delivery's view is listed under each format its klass is bound to, when no keeper is attached. */
  lemma WantedIsListed(groups: Groups, sc: Scene, over: multiset<Hold>, d: Delivery)
    requires Settled(groups, sc, over) && !HasKeepers(sc) && d.format in sc.group.formats
    requires d.klass in sc.group.klasses && d.format in sc.group.klasses[d.klass].formats
    requires Wants(sc, d.watcher, d.klass, d.view, d.row)
    ensures var id := FormatId(sc.name, d.format);
      id in sc.st.index && Occurrences(sc.st.index[id], d.klass, d.view) > 0
  {
    var id := FormatId(sc.name, d.format);
    assert id in FormatIds(groups);
    var s := sc.st.subs[d.watcher];
    if s.group == "*" {
      StarIsKeeper(sc.st, over, d.watcher);
    } else {
      LiveRemove(sc.st.subs, d.watcher, HoldOf(d.watcher, s));
      assert Occurrences(sc.st.index[id], d.klass, d.view)
        == Bound(groups, id, d.klass) * Held(sc.st, over, On(id.group, d.klass, d.view));
      AtLeast(Bound(groups, id, d.klass), Held(sc.st, over, On(id.group, d.klass, d.view)));
    }
  }

  /** Without keepers, in a settled state, the scan finds exactly what is listed and would be sent from the format
      alone. */
  lemma IndexedScanCount(groups: Groups, sc: Scene, over: multiset<Hold>, rec: Record, d: Delivery)
    requires Settled(groups, sc, over) && !HasKeepers(sc)
    ensures ScanCount(sc, rec, d) == if Scanned(sc, rec, d) then Listings(sc, d.format, d.klass, d.view) else 0
    ensures ScanCount(sc, rec, d) > 0 <==> Scanned(sc, rec, d)
  {
    if ScannedAnyKlass(sc, rec, d) {
      var id := FormatId(sc.name, d.format);
      assert id in FormatIds(groups);
      var fs := sc.st.index[id];
      if Scanned(sc, rec, d) {
        WantedIsListed(groups, sc, over, d);
        assert Sound(fs) && |fs.active| == |fs.active.Keys|;
      } else if Occurrences(fs, d.klass, d.view) > 0 {
        ListsAreBound(groups, sc, over, d.format, d.klass, d.view);
      }
    }
  }

  /** Without keepers: what the scan finds is sent, once per occurrence of the view in the active list; nothing else
      is. */
  lemma IndexedCount(groups: Groups, sc: Scene, over: multiset<Hold>, cx: Contexts, rec: Record, d: Delivery)
    requires Settled(groups, sc, over) && Listed(sc) && !HasKeepers(sc)
    requires Stateless(sc.group) && Undisturbed(sc, rec)
    ensures d.format in sc.group.formats ==> FormatId(sc.name, d.format) in sc.st.index
    ensures multiset(DispatchRecord(sc, cx, rec).sent)[d]
         == if Scanned(sc, rec, d) then Occurrences(sc.st.index[FormatId(sc.name, d.format)], d.klass, d.view) else 0
    ensures Scanned(sc, rec, d) ==> Occurrences(sc.st.index[FormatId(sc.name, d.format)], d.klass, d.view) > 0
  {
    hide Stateless, Listed, Undisturbed, DispatchRecord, Scanned, Consistent;
    DispatchCount(sc, cx, rec, d);
    IndexedScanCount(groups, sc, over, rec, d);
    FormatsIndexed(groups, sc, over, d.format);
  }

  lemma FormatsIndexed(groups: Groups, sc: Scene, over: multiset<Hold>, f: string)
    requires Settled(groups, sc, over)
    ensures f in sc.group.formats ==> FormatId(sc.name, f) in sc.st.index
  {
    if f in sc.group.formats { assert FormatId(sc.name, f) in FormatIds(groups); }
  }

  /** The same deliveries, each with the format it was read by, as by the scan, in whatever order tables are visited. */
  ghost predicate SendsAsScanned(sc: Scene, cx: Contexts, rec: Record) {
    forall ord: Order, d :: Enumerates(ord) && Listed(sc.(ord := ord)) ==>
      (d in DispatchRecord(sc.(ord := ord), cx, rec).sent <==> Scanned(sc, rec, d))
  }

  /** In every reachable state without keepers, the hand-kept index and the plain scan make the same deliveries exactly
      when the formats do not disturb each other. A delivery names the format it was read by; `MessageLaws` has the
      messages, which do not. */
  lemma IndexedIsScanIff(groups: Groups, events: seq<Event>, sc: Scene, cx: Contexts, rec: Record)
    requires WellFormed(groups) && sc.st == Run(groups, events) && !HasKeepers(sc)
    requires sc.name in groups && groups[sc.name] == sc.group && Enumerates(sc.ord) && Stateless(sc.group)
    ensures Listed(sc)
    ensures SendsAsScanned(sc, cx, rec) <==> Undisturbed(sc, rec)
  {
    var over := Overwritten(groups, events);
    ReachableConsistent(groups, events);
    SettledListed(groups, sc, over);
    hide Stateless, Listed, Sends, DispatchRecord, Enumerates, Before, Scanned, Consistent;
    if Undisturbed(sc, rec) {
      CountsAsScannedIff(sc, cx, rec);
      forall ord: Order, d | Enumerates(ord) && Listed(sc.(ord := ord))
        ensures d in DispatchRecord(sc.(ord := ord), cx, rec).sent <==> Scanned(sc, rec, d)
      {
        IndexedScanCount(groups, sc, over, rec, d);
        Counted(DispatchRecord(sc.(ord := ord), cx, rec).sent, d);
      }
    }
    if SendsAsScanned(sc, cx, rec) {
      forall gs, d: Delivery | Before(sc, rec, gs, d.format) ensures Unmoved(sc, rec, gs, d) {
        if Tried(sc, d.format, d.klass) && Listings(sc, d.format, d.klass, d.view) > 0 {
          var ord := SharedShows(sc, cx, rec, gs, d);
          Counted(DispatchRecord(sc.(ord := ord), cx, rec).sent, d);
          BeforeReads(sc, rec, gs, d.format);
          ListedIsScanned(groups, sc, over, rec, d);
        }
      }
    }
  }

  lemma Counted(sent: seq<Delivery>, d: Delivery)
    ensures d in sent <==> multiset(sent)[d] > 0
  {
    assert d in sent <==> d in multiset(sent);
  }

  lemma ListedIsScanned(groups: Groups, sc: Scene, over: multiset<Hold>, rec: Record, d: Delivery)
    requires Settled(groups, sc, over) && !HasKeepers(sc) && Listings(sc, d.format, d.klass, d.view) > 0
    requires d.format in sc.group.formats && Applies(sc.group.formats[d.format], rec.raw)
    ensures Scanned(sc, rec, d) <==> Sends(sc, Alone(sc.group, d.format, rec), d)
  {
    ListsAreBound(groups, sc, over, d.format, d.klass, d.view);
  }

  /** The premise met: one order of visiting. */
  lemma IndexedIsScan(groups: Groups, events: seq<Event>, sc: Scene, cx: Contexts, rec: Record, d: Delivery)
    requires WellFormed(groups) && sc.st == Run(groups, events) && !HasKeepers(sc)
    requires sc.name in groups && groups[sc.name] == sc.group && Enumerates(sc.ord) && Stateless(sc.group)
    requires Undisturbed(sc, rec)
    ensures Listed(sc)
    ensures d in DispatchRecord(sc, cx, rec).sent <==> Scanned(sc, rec, d)
  {
    hide Stateless, Sends, DispatchRecord, Enumerates, Before, Scanned, Undisturbed, Listed;
    IndexedIsScanIff(groups, events, sc, cx, rec);
    assert sc.(ord := sc.ord) == sc;
  }

  // ----- with a keeper attached -----

  /** With a keeper attached: exactly what a scan over all klasses, bound to the format or not, finds, and each once. */
  lemma KeeperCount(sc: Scene, cx: Contexts, rec: Record, d: Delivery)
    requires Enumerates(sc.ord) && Listed(sc) && HasKeepers(sc)
    requires Stateless(sc.group) && Undisturbed(sc, rec)
    ensures multiset(DispatchRecord(sc, cx, rec).sent)[d] == if ScannedAnyKlass(sc, rec, d) then 1 else 0
  {
    hide Stateless, Listed, Undisturbed, DispatchRecord, Enumerates;
    DispatchCount(sc, cx, rec, d);
  }

  /** No klass accepts a record read by a format it is not bound to and then commits a row that somebody wants. */
  ghost predicate NoStrayRow(sc: Scene, rec: Record) {
    forall f, k, v, w, row ::
      (f in sc.group.formats && Applies(sc.group.formats[f], rec.raw) && k in sc.group.klasses
        && f !in sc.group.klasses[k].formats
       && Accepts(sc.group, k, f, Alone(sc.group, f, rec)) && v in sc.group.klasses[k].views
       && Row(sc.group, k, v, f, Alone(sc.group, f, rec)) == Some(row)) ==> !Wants(sc, w, k, v, row)
  }

  /** The keeper branch makes the deliveries that the scan of bound klasses finds exactly when no such row exists. */
  lemma KeeperIsScanIff(sc: Scene, cx: Contexts, rec: Record)
    requires Enumerates(sc.ord) && Listed(sc) && HasKeepers(sc)
    requires Stateless(sc.group) && Undisturbed(sc, rec)
    ensures (forall d :: d in DispatchRecord(sc, cx, rec).sent <==> Scanned(sc, rec, d)) <==> NoStrayRow(sc, rec)
  {
    hide Stateless, Listed, Undisturbed, DispatchRecord, Enumerates, Wants, Applies, Accepts, Row;
    forall d ensures d in DispatchRecord(sc, cx, rec).sent <==> ScannedAnyKlass(sc, rec, d) {
      KeeperCount(sc, cx, rec, d);
      Counted(DispatchRecord(sc, cx, rec).sent, d);
    }
    if forall d :: d in DispatchRecord(sc, cx, rec).sent <==> Scanned(sc, rec, d) {
      forall f, k, v, w, row |
        f in sc.group.formats && Applies(sc.group.formats[f], rec.raw) && k in sc.group.klasses
          && f !in sc.group.klasses[k].formats
        && Accepts(sc.group, k, f, Alone(sc.group, f, rec)) && v in sc.group.klasses[k].views
        && Row(sc.group, k, v, f, Alone(sc.group, f, rec)) == Some(row)
        ensures !Wants(sc, w, k, v, row)
      {
        var d := Delivery(w, sc.name, f, k, v, row);
        assert !Scanned(sc, rec, d);
      }
    }
    if NoStrayRow(sc, rec) {
      forall d ensures d in DispatchRecord(sc, cx, rec).sent <==> Scanned(sc, rec, d) {
        if ScannedAnyKlass(sc, rec, d) {
          assert Wants(sc, d.watcher, d.klass, d.view, d.row);
        }
      }
    }
  }

  /** What goes out for one record, by branch. */
  predicate Selected(sc: Scene, rec: Record, d: Delivery) {
    if HasKeepers(sc) then ScannedAnyKlass(sc, rec, d) else Scanned(sc, rec, d)
  }

  /** Both branches, in every reachable state. */
  lemma RecordDelivers(groups: Groups, events: seq<Event>, sc: Scene, cx: Contexts, rec: Record, d: Delivery)
    requires WellFormed(groups) && sc.st == Run(groups, events)
    requires sc.name in groups && groups[sc.name] == sc.group && Enumerates(sc.ord) && Stateless(sc.group)
    requires Undisturbed(sc, rec)
    ensures Listed(sc)
    ensures d in DispatchRecord(sc, cx, rec).sent <==> Selected(sc, rec, d)
  {
    hide Stateless, DispatchRecord, Scanned, ScannedAnyKlass, Undisturbed, Consistent, Listed;
    if HasKeepers(sc) {
      ReachableConsistent(groups, events);
      SettledListed(groups, sc, Overwritten(groups, events));
      KeeperCount(sc, cx, rec, d);
      Counted(DispatchRecord(sc, cx, rec).sent, d);
    } else {
      IndexedIsScan(groups, events, sc, cx, rec, d);
    }
  }

  // ----- formats that disturb each other -----

  /** A format that matches every record and reads one field out of it. */
  function Reads(field: string): Format {
    Format(_ => Some([Text("1")]), _ => map[field := Text("1")])
  }

  /** Two such formats, and a klass on both whose view commits the entry as it is. */
  function Leaky(sig: Signature): Group {
    Group(sig, map["a" := Reads("a"), "b" := Reads("b")],
          map["k" := Klass(["a", "b"],
            map["v" := View((f, c, e: Entry, kc) => Formatted(true, Some(e.fields), false, map[], kc))],
                           (f, e, c) => Matched(true, c))])
  }

  function LeakyScene(sig: Signature, ord: Order): Scene {
    var fs := FormatState(map["k" := ["v"]], 1);
    Scene("g", Leaky(sig), State([], [], map["w" := Subscription("g", "k", "v", map[])],
                                 map[FormatId("g", "a") := fs, FormatId("g", "b") := fs]), ord, (s, p) => false)
  }

  lemma LeakyListed(sig: Signature, ord: Order)
    requires Enumerates(ord)
    ensures Listed(LeakyScene(sig, ord)) && Stateless(Leaky(sig))
  {
    var sc := LeakyScene(sig, ord);
    forall f, k | k in KlassList(sc, f) ensures k in sc.group.klasses {
      if FormatId("g", f) in sc.st.index {
        EnumeratedOnce(ord, Active(f), sc.st.index[FormatId("g", f)].active.Keys, k);
      }
    }
  }

  lemma LeakyFormats(sig: Signature, ord: Order, raw: string)
    requires Enumerates(ord) && ord(Formats, {"a", "b"}) == ["a", "b"]
    ensures FormatList(LeakyScene(sig, ord), raw) == ["a", "b"]
  {
    var sc := LeakyScene(sig, ord);
    LeakyApplies(sig, ord, raw);
    hide Applies, Considered, LeakyScene, Enumerates;
    var all := ["a", "b"];
    assert all[..1] == ["a"] && all[..1][..0] == [];
    assert Applicable(sc, all[..1], raw) == ["a"];
  }

  lemma LeakyApplies(sig: Signature, ord: Order, raw: string)
    ensures var sc := LeakyScene(sig, ord);
      && sc.ord == ord && sc.group.formats.Keys == {"a", "b"}
      && forall f :: f == "a" || f == "b" ==>
           f in sc.group.formats && Considered(sc, f) && Applies(sc.group.formats[f], raw)
  {}

  const BOTH: Fields := map["a" := Text("1"), "b" := Text("1")]
  const LEAKED := Delivery("w", "g", "b", "k", "v", BOTH)

  lemma LeakyEntry(sig: Signature, ord: Order, rec: Record)
    ensures EntryAt(LeakyScene(sig, ord), ["a", "b"], 1, rec) == Entry(rec.raw, BOTH)
  {
    var group, fs := Leaky(sig), ["a", "b"];
    assert fs[..2] == fs && fs[..1] == ["a"] && fs[..1][..0] == [];
    assert Schema(group, "a", rec) == map["a" := Text("1")];
    assert Schema(group, "b", rec) == map["b" := Text("1")];
    assert FieldsAfter(group, fs[..1], rec) == map["a" := Text("1")];
  }

  lemma LeakyShare(sig: Signature, ord: Order, raw: string)
    requires Enumerates(ord)
    ensures Listed(LeakyScene(sig, ord)) && FormatShare(LeakyScene(sig, ord), Entry(raw, BOTH), LEAKED) == 1
  {
    LeakyListed(sig, ord);
    hide Listed, Enumerates;
    var sc := LeakyScene(sig, ord);
    assert sc.st.index[FormatId("g", "b")].active.Keys == {"k"};
    EnumeratedOnce(ord, Active("b"), {"k"}, "k");
  }

  lemma LeakyUnscanned(sig: Signature, ord: Order, rec: Record)
    ensures !Scanned(LeakyScene(sig, ord), rec, LEAKED)
  {
    var schema := Schema(Leaky(sig), "b", rec);
    assert schema == map["b" := Text("1")] && "a" !in schema && "a" in BOTH;
  }

  /** So a row can carry a field that its own format never read: the index and the scan then disagree. */
  lemma SharedEntryLeaks(sig: Signature, ord: Order, cx: Contexts, rec: Record)
    requires Enumerates(ord) && ord(Formats, {"a", "b"}) == ["a", "b"]
    ensures var sc := LeakyScene(sig, ord);
      Listed(sc) && LEAKED in DispatchRecord(sc, cx, rec).sent && !Scanned(sc, rec, LEAKED)
  {
    LeakyListed(sig, ord);
    LeakyFormats(sig, ord, rec.raw);
    LeakyEntry(sig, ord, rec);
    LeakyShare(sig, ord, rec.raw);
    LeakyUnscanned(sig, ord, rec);
    hide Listed, FormatShare, EntryAt, Scanned, DispatchRecord, FormatList, Enumerates, Stateless;
    SharedCount(LeakyScene(sig, ord), cx, rec, 1, LEAKED);
    assert LEAKED in multiset(DispatchRecord(LeakyScene(sig, ord), cx, rec).sent);
  }

  /** The disturbance, named. */
  lemma LeakyDisturbed(sig: Signature, ord: Order, rec: Record)
    requires Enumerates(ord)
    ensures !Undisturbed(LeakyScene(sig, ord), rec)
  {
    var sc := LeakyScene(sig, ord);
    LeakyApplies(sig, ord, rec.raw);
    LeakyEntry(sig, ord, rec);
    LeakyShare(sig, ord, rec.raw);
    LeakyUnscanned(sig, ord, rec);
    assert Before(sc, rec, ["a"], "b");
    assert ["a", "b"][..2] == ["a", "b"] && ["a", "b"][..1] == ["a"];
    ShareIs(sc, Entry(rec.raw, BOTH), LEAKED);
    assert !Unmoved(sc, rec, ["a"], LEAKED);
  }

  // ----- a klass that takes records of a format it is not bound to -----

  /** "k" is bound to "a", which never matches; it accepts everything, and a keeper is attached. */
  function StrayScene(sig: Signature, ord: Order): Scene {
    var none := FormatState(map[], 0);
    Scene("g", Group(sig, map["a" := Format(_ => None, _ => map[]), "b" := Reads("b")],
                     map["k" := Klass(["a"],
                       map["v" := View((f, c, e: Entry, kc) => Formatted(true, Some(e.fields), false, map[], kc))],
                                      (f, e, c) => Matched(true, c))]),
          State(["w"], ["w"], map["w" := STAR], map[FormatId("g", "a") := none, FormatId("g", "b") := none]), ord,
            (s, p) => false)
  }

  const STRAY := Delivery("w", "g", "b", "k", "v", map["b" := Text("1")])

  /** The keeper is sent a row the scan of bound klasses does not find. */
  lemma KeeperStrays(sig: Signature, ord: Order, cx: Contexts, rec: Record)
    requires Enumerates(ord)
    ensures var sc := StrayScene(sig, ord);
      Listed(sc) && STRAY in DispatchRecord(sc, cx, rec).sent && !Scanned(sc, rec, STRAY)
  {
    var sc := StrayScene(sig, ord);
    StrayListed(sig, ord);
    StrayScanned(sig, ord, rec);
    ExclusiveUndisturbed(sc, rec);
    hide Listed, Enumerates, Stateless, DispatchRecord, Scanned, ScannedAnyKlass, Undisturbed;
    KeeperCount(sc, cx, rec, STRAY);
    Counted(DispatchRecord(sc, cx, rec).sent, STRAY);
  }

  lemma StrayListed(sig: Signature, ord: Order)
    requires Enumerates(ord)
    ensures Listed(StrayScene(sig, ord)) && Stateless(StrayScene(sig, ord).group)
  {
    var sc := StrayScene(sig, ord);
    hide Enumerates;
    forall f, k | k in KlassList(sc, f) ensures k in sc.group.klasses {
      TriedIsListed(sc, f, k, "");
    }
    forall f, k, v | k in sc.group.klasses && v in ViewList(sc, f, k) ensures v in sc.group.klasses[k].views {
      TriedIsListed(sc, f, k, v);
      assert v in multiset(ViewList(sc, f, k));
    }
  }

  lemma StrayScanned(sig: Signature, ord: Order, rec: Record)
    ensures ScannedAnyKlass(StrayScene(sig, ord), rec, STRAY) && !Scanned(StrayScene(sig, ord), rec, STRAY)
  {
    assert Schema(StrayScene(sig, ord).group, "b", rec) == map["b" := Text("1")];
  }
}
