/** The messages watchers are sent, which do not name the format a record was read by, against the plain scan. */
module MessageLaws {
  import opened Lua
  import opened Segmentation
  import opened Config
  import opened Registry
  import opened RegistryInvariant
  import opened Dispatch
  import opened DispatchLaws
  import opened ScanLaws

  /** What goes over the wire: the labels of the view and the row. */
  datatype Message = Message(watcher: string, group: string, klass: string, view: string, row: Fields)

  /** The delivery that carries a message when this format has read the record. */
  function ReadBy(m: Message, format: string): Delivery {
    Delivery(m.watcher, m.group, format, m.klass, m.view, m.row)
  }

  /** The message is among those sent. */
  ghost predicate Carries(sent: seq<Delivery>, m: Message) {
    exists f :: ReadBy(m, f) in sent
  }

  ghost predicate IsFound(sc: Scene, rec: Record, m: Message) {
    exists f :: Scanned(sc, rec, ReadBy(m, f))
  }

  /** What the scan of every format, bound klass, view and subscription finds, each format filling an entry of its
      own. */
  ghost function Found(sc: Scene, rec: Record): iset<Message> {
    iset m | IsFound(sc, rec, m)
  }

  ghost predicate IsFromAlone(sc: Scene, rec: Record, m: Message) {
    exists f :: ScanCount(sc, rec, ReadBy(m, f)) > 0
  }

  /** What the listed views of the considered formats send when each format fills an entry of its own. */
  ghost function FromAlone(sc: Scene, rec: Record): iset<Message> {
    iset m | IsFromAlone(sc, rec, m)
  }

  // ----- formats that read a record, in some order -----

  /** All formats that read the record, each once. */
  ghost predicate Reading(sc: Scene, rec: Record, fs: seq<string>) {
    && EachOnce(fs)
    && forall f :: f in fs <==> f in sc.group.formats && Considered(sc, f) && Applies(sc.group.formats[f], rec.raw)
  }

  lemma ReadingBefore(sc: Scene, rec: Record, fs: seq<string>, i: nat)
    requires Reading(sc, rec, fs) && i < |fs|
    ensures Before(sc, rec, fs[..i], fs[i])
  {
    EachOnceFront(fs, i);
  }

  /** In this order, the `i`-th format's listed views send the message from the entry as shared so far. */
  ghost predicate Gives(sc: Scene, rec: Record, fs: seq<string>, i: nat, m: Message)
    requires Reading(sc, rec, fs) && i < |fs|
  {
    ReadingBefore(sc, rec, fs, i);
    var f := fs[i];
    && Tried(sc, f, m.klass) && Listings(sc, f, m.klass, m.view) > 0
    && Sends(sc, Shared(sc, rec, fs[..i], f), ReadBy(m, f))
  }

  ghost predicate Told(sc: Scene, rec: Record, fs: seq<string>, m: Message)
    requires Reading(sc, rec, fs)
  {
    exists i :: 0 <= i < |fs| && Gives(sc, rec, fs, i, m)
  }

  /** In whatever order the formats fill the shared entry, these are the messages sent from it. */
  ghost predicate TellsExactly(sc: Scene, rec: Record, ms: iset<Message>) {
    forall fs, m :: Reading(sc, rec, fs) ==> (Told(sc, rec, fs, m) <==> m in ms)
  }

  /** In whatever order tables are visited, these are the messages the engine sends. */
  ghost predicate SendsExactly(sc: Scene, cx: Contexts, rec: Record, ms: iset<Message>) {
    forall ord: Order, m :: Enumerates(ord) && Listed(sc.(ord := ord)) ==>
      (Carries(DispatchRecord(sc.(ord := ord), cx, rec).sent, m) <==> m in ms)
  }

  // ----- one order of visiting -----

  lemma ListReads(sc: Scene, rec: Record)
    requires Enumerates(sc.ord)
    ensures Reading(sc, rec, FormatList(sc, rec.raw))
  {
    forall f ensures f in FormatList(sc, rec.raw)
      <==> f in sc.group.formats && Considered(sc, f) && Applies(sc.group.formats[f], rec.raw)
    {
      FormatListMember(sc, rec.raw, f);
    }
    FormatListMember(sc, rec.raw, "");
  }

  lemma GivesIsSent(sc: Scene, cx: Contexts, rec: Record, i: nat, m: Message)
    requires Stateless(sc.group) && Enumerates(sc.ord) && Listed(sc) && i < |FormatList(sc, rec.raw)|
    ensures Reading(sc, rec, FormatList(sc, rec.raw))
    ensures var fs := FormatList(sc, rec.raw);
      Gives(sc, rec, fs, i, m) <==> ReadBy(m, fs[i]) in DispatchRecord(sc, cx, rec).sent
  {
    var fs := FormatList(sc, rec.raw);
    var d := ReadBy(m, fs[i]);
    ListReads(sc, rec);
    ReadingBefore(sc, rec, fs, i);
    VisitedBefore(sc, rec, i);
    hide Stateless, Listed, Sends, EntryAt, Shared, Before, DispatchRecord, FormatList, FormatShare, Enumerates,
         Reading;
    SharedCount(sc, cx, rec, i, d);
    ShareIs(sc, EntryAt(sc, fs, i, rec), d);
    Counted(DispatchRecord(sc, cx, rec).sent, d);
  }

  lemma SentIsRead(sc: Scene, cx: Contexts, rec: Record, d: Delivery)
    requires Stateless(sc.group) && Enumerates(sc.ord) && Listed(sc)
    ensures d in DispatchRecord(sc, cx, rec).sent ==> d.format in FormatList(sc, rec.raw)
  {
    hide Stateless, Listed, DispatchRecord, Enumerates, FormatList;
    Counted(DispatchRecord(sc, cx, rec).sent, d);
    if d.format !in FormatList(sc, rec.raw) {
      UnreadCount(sc, cx, rec, d);
    }
  }

  lemma ToldIsSent(sc: Scene, cx: Contexts, rec: Record, m: Message)
    requires Stateless(sc.group) && Enumerates(sc.ord) && Listed(sc)
    ensures Reading(sc, rec, FormatList(sc, rec.raw))
    ensures Carries(DispatchRecord(sc, cx, rec).sent, m) <==> Told(sc, rec, FormatList(sc, rec.raw), m)
  {
    ListReads(sc, rec);
    hide Stateless, Listed, DispatchRecord, Enumerates, Reading, Gives, FormatList;
    var fs, sent := FormatList(sc, rec.raw), DispatchRecord(sc, cx, rec).sent;
    if Told(sc, rec, fs, m) {
      var i :| 0 <= i < |fs| && Gives(sc, rec, fs, i, m);
      GivesIsSent(sc, cx, rec, i, m);
    }
    if Carries(sent, m) {
      var f :| ReadBy(m, f) in sent;
      SentIsRead(sc, cx, rec, ReadBy(m, f));
      var i :| 0 <= i < |fs| && fs[i] == f;
      GivesIsSent(sc, cx, rec, i, m);
    }
  }

  lemma SubsAnyOrder(sc: Scene, ord: Order, rec: Record, fs: seq<string>, m: Message)
    ensures Reading(sc.(ord := ord), rec, fs) <==> Reading(sc, rec, fs)
    ensures Reading(sc, rec, fs) ==> (Told(sc.(ord := ord), rec, fs, m) <==> Told(sc, rec, fs, m))
  {
    var sc' := sc.(ord := ord);
    assert forall f :: Considered(sc', f) <==> Considered(sc, f);
    if Reading(sc, rec, fs) {
      hide Applies, Considered;
      forall i | 0 <= i < |fs| ensures Gives(sc', rec, fs, i, m) <==> Gives(sc, rec, fs, i, m) {
        GivesAnyOrder(sc, ord, rec, fs, i, m);
      }
    }
  }

  lemma GivesAnyOrder(sc: Scene, ord: Order, rec: Record, fs: seq<string>, i: nat, m: Message)
    requires Reading(sc, rec, fs) && Reading(sc.(ord := ord), rec, fs) && i < |fs|
    ensures Gives(sc.(ord := ord), rec, fs, i, m) <==> Gives(sc, rec, fs, i, m)
  {
    ReadingBefore(sc, rec, fs, i);
    ReadingBefore(sc.(ord := ord), rec, fs, i);
    hide Reading, Before, Sends;
    SendsAnyOrder(sc, ord, Shared(sc, rec, fs[..i], fs[i]), ReadBy(m, fs[i]));
  }

  // ----- every order of the formats is the order of some visit -----

  lemma NextIsNew(xs: seq<string>, ys: seq<string>)
    requires EachOnce(ys) && xs <= ys && |xs| < |ys|
    ensures ys[|xs|] in ys && ys[|xs|] !in xs
  {
    EachOnceFront(ys, |xs|);
    assert ys[..|xs|] == xs;
  }

  lemma SameOnce(xs: seq<string>, ys: seq<string>)
    requires EachOnce(ys) && xs <= ys && forall x :: x in ys ==> x in xs
    ensures xs == ys
  {
    if |xs| < |ys| {
      NextIsNew(xs, ys);
    }
  }

  lemma SomeVisit(sc: Scene, rec: Record, fs: seq<string>) returns (ord: Order)
    requires Enumerates(sc.ord) && Reading(sc, rec, fs)
    ensures Enumerates(ord) && FormatList(sc.(ord := ord), rec.raw) == fs
  {
    if fs == [] {
      ord := sc.ord;
      assert sc.(ord := ord) == sc;
      ListReads(sc, rec);
      NobodyReads(sc, rec, fs, FormatList(sc, rec.raw));
    } else {
      var n, keys := |fs| - 1, sc.group.formats.Keys;
      ord := Visiting(sc.ord, keys, FirstThese(sc.ord, keys, fs[..n], fs[n]));
      var sc' := sc.(ord := ord);
      ReadingBefore(sc, rec, fs, n);
      hide Enumerates, Before;
      VisitedFirst(sc, rec, fs[..n], fs[n], sc');
      assert fs[..n] + [fs[n]] == fs;
      ListReads(sc', rec);
      SubsAnyOrder(sc, ord, rec, FormatList(sc', rec.raw), Message("", "", "", "", map[]));
      SameOnce(fs, FormatList(sc', rec.raw));
    }
  }

  lemma NobodyReads(sc: Scene, rec: Record, fs: seq<string>, fs': seq<string>)
    requires Reading(sc, rec, fs) && Reading(sc, rec, fs') && fs == []
    ensures fs' == []
  {
    NonEmptyHas(fs');
    assert forall f :: f in fs' <==> f in fs;
  }

  lemma NonEmptyHas(fs: seq<string>)
    ensures fs != [] ==> exists f :: f in fs
  {
    if fs != [] { assert fs[0] in fs; }
  }

  // ----- the main results -----

  /** The engine sends these very messages in every order of visiting exactly when the shared entry sends them in
      every order of filling it. */
  lemma SendsIffTells(sc: Scene, cx: Contexts, rec: Record, ms: iset<Message>)
    requires Stateless(sc.group) && Enumerates(sc.ord) && Listed(sc)
    ensures SendsExactly(sc, cx, rec, ms) <==> TellsExactly(sc, rec, ms)
  {
    hide Stateless, Listed, DispatchRecord, Enumerates, Reading, Told, Carries, FormatList;
    if TellsExactly(sc, rec, ms) {
      forall ord: Order, m | Enumerates(ord) && Listed(sc.(ord := ord))
        ensures Carries(DispatchRecord(sc.(ord := ord), cx, rec).sent, m) <==> m in ms
      {
        var sc' := sc.(ord := ord);
        ToldIsSent(sc', cx, rec, m);
        SubsAnyOrder(sc, ord, rec, FormatList(sc', rec.raw), m);
      }
    }
    if SendsExactly(sc, cx, rec, ms) {
      forall fs, m | Reading(sc, rec, fs) ensures Told(sc, rec, fs, m) <==> m in ms {
        var ord := SomeVisit(sc, rec, fs);
        var sc' := sc.(ord := ord);
        ListedAnyOrder(sc, ord);
        ToldIsSent(sc', cx, rec, m);
        SubsAnyOrder(sc, ord, rec, fs, m);
      }
    }
  }

  /** Formats that do not disturb each other send from the shared entry what they send alone. */
  lemma UndisturbedTells(sc: Scene, rec: Record)
    requires Undisturbed(sc, rec)
    ensures TellsExactly(sc, rec, FromAlone(sc, rec))
  {
    hide Sends, Applies;
    forall fs, m | Reading(sc, rec, fs) ensures Told(sc, rec, fs, m) <==> m in FromAlone(sc, rec) {
      forall i | 0 <= i < |fs| ensures Gives(sc, rec, fs, i, m) <==> ScanCount(sc, rec, ReadBy(m, fs[i])) > 0 {
        GivesAlone(sc, rec, fs, i, m);
      }
      if m in FromAlone(sc, rec) {
        var f :| ScanCount(sc, rec, ReadBy(m, f)) > 0;
        var i :| 0 <= i < |fs| && fs[i] == f;
      }
    }
  }

  lemma GivesAlone(sc: Scene, rec: Record, fs: seq<string>, i: nat, m: Message)
    requires Undisturbed(sc, rec) && Reading(sc, rec, fs) && i < |fs|
    ensures Gives(sc, rec, fs, i, m) <==> ScanCount(sc, rec, ReadBy(m, fs[i])) > 0
  {
    ReadingBefore(sc, rec, fs, i);
    var d := ReadBy(m, fs[i]);
    assert fs[i] in fs;
    assert Before(sc, rec, fs[..i], d.format);
    assert Unmoved(sc, rec, fs[..i], d);
    hide Before, Sends, Applies, Undisturbed;
  }

  /** In every reachable state without keepers, the messages sent are those the scan finds, in every order of
      visiting, exactly when the shared entry sends, in every order of filling it, what the entries filled by one
      format each send. */
  lemma IndexedMessagesIff(groups: Groups, events: seq<Event>, sc: Scene, cx: Contexts, rec: Record)
    requires WellFormed(groups) && sc.st == Run(groups, events) && !HasKeepers(sc)
    requires sc.name in groups && groups[sc.name] == sc.group && Enumerates(sc.ord) && Stateless(sc.group)
    ensures Listed(sc) && Found(sc, rec) == FromAlone(sc, rec)
    ensures SendsExactly(sc, cx, rec, Found(sc, rec)) <==> TellsExactly(sc, rec, FromAlone(sc, rec))
  {
    var over := Overwritten(groups, events);
    ReachableConsistent(groups, events);
    SettledListed(groups, sc, over);
    SendsIffTells(sc, cx, rec, Found(sc, rec));
    hide Stateless, Listed, Enumerates, Scanned, Consistent, TellsExactly, SendsExactly, ScanCount;
    forall m, f ensures ScanCount(sc, rec, ReadBy(m, f)) > 0 <==> Scanned(sc, rec, ReadBy(m, f)) {
      IndexedScanCount(groups, sc, over, rec, ReadBy(m, f));
    }
  }

  /** Every message that some klass, bound to the format or not, sends from an entry of its own is also one of a
      bound klass. */
  ghost predicate NoStrayMessage(sc: Scene, rec: Record) {
    forall m, f :: ScannedAnyKlass(sc, rec, ReadBy(m, f)) ==> m in Found(sc, rec)
  }

  /** With a keeper attached, and formats that send from the shared entry what they send alone: the messages are
      those of the scan of bound klasses exactly when there is no stray one. */
  lemma KeeperMessagesIff(sc: Scene, cx: Contexts, rec: Record)
    requires Stateless(sc.group) && Enumerates(sc.ord) && Listed(sc) && HasKeepers(sc)
    requires TellsExactly(sc, rec, FromAlone(sc, rec))
    ensures SendsExactly(sc, cx, rec, Found(sc, rec)) <==> NoStrayMessage(sc, rec)
  {
    SendsIffTells(sc, cx, rec, Found(sc, rec));
    ListReads(sc, rec);
    hide Stateless, Listed, Enumerates, SendsExactly, Reading, Told, FormatList, Applies, Sends;
    forall d ensures ScanCount(sc, rec, d) > 0 <==> ScannedAnyKlass(sc, rec, d) { KeeperScan(sc, rec, d); }
    hide ScanCount, ScannedAnyKlass;
    forall m, f ensures Scanned(sc, rec, ReadBy(m, f)) ==> m in FromAlone(sc, rec) {
      assert Scanned(sc, rec, ReadBy(m, f)) ==> ScannedAnyKlass(sc, rec, ReadBy(m, f));
    }
    if TellsExactly(sc, rec, Found(sc, rec)) {
      forall m ensures m in Found(sc, rec) <==> m in FromAlone(sc, rec) {
        assert Told(sc, rec, FormatList(sc, rec.raw), m) <==> m in Found(sc, rec);
      }
    }
    if NoStrayMessage(sc, rec) {
      assert Found(sc, rec) == FromAlone(sc, rec);
    }
  }

  lemma KeeperScan(sc: Scene, rec: Record, d: Delivery)
    requires HasKeepers(sc)
    ensures ScanCount(sc, rec, d) > 0 <==> ScannedAnyKlass(sc, rec, d)
  {}

  // ----- formats that disturb each other, and no message shows it -----

  const NOTED: Fields := map["seen" := Text("1")]

  /** As the leaky group, but the view commits a constant row, exactly when "a" has been read. */
  function Noting(sig: Signature): Group {
    Leaky(sig).(klasses := map["k" := Klass(["a", "b"],
      map["v" := View((f, c, e: Entry, kc) => Formatted("a" in e.fields, Some(NOTED), false, map[], kc))],
      (f, e, c) => Matched(true, c))])
  }

  function NotingScene(sig: Signature, ord: Order): Scene {
    LeakyScene(sig, ord).(group := Noting(sig))
  }

  const NOTE := Message("w", "g", "k", "v", NOTED)

  lemma NotingIs(sig: Signature, ord: Order, rec: Record)
    ensures var sc := NotingScene(sig, ord);
      && sc.ord == ord && sc.group.formats.Keys == {"a", "b"}
      && forall f :: f == "a" || f == "b" ==>
           Considered(sc, f) && Applies(sc.group.formats[f], rec.raw) && Tried(sc, f, "k")
             && Listings(sc, f, "k", "v") > 0
           && Schema(sc.group, f, rec) == map[f := Text("1")]
  {}

  /** Only the note is ever sent, from an entry that holds "a". */
  lemma NotingSends(sig: Signature, ord: Order, entry: Entry, f: string, m: Message)
    ensures Sends(NotingScene(sig, ord), entry, ReadBy(m, f)) <==> m == NOTE && "a" in entry.fields
  {}

  lemma NotingAlone(sig: Signature, ord: Order, rec: Record, m: Message)
    ensures IsFromAlone(NotingScene(sig, ord), rec, m) <==> m == NOTE
  {
    var sc := NotingScene(sig, ord);
    NotingIs(sig, ord, rec);
    hide NotingScene, Sends, Applies, Considered, Tried, Listings, Schema;
    forall f | f == "a" || f == "b"
      ensures Sends(sc, Alone(sc.group, f, rec), ReadBy(m, f)) <==> m == NOTE && f == "a"
    {
      NotingSends(sig, ord, Alone(sc.group, f, rec), f, m);
    }
    assert m == NOTE ==> ScanCount(sc, rec, ReadBy(m, "a")) > 0;
  }

  lemma NotingGives(sig: Signature, ord: Order, rec: Record, fs: seq<string>, i: nat, m: Message)
    requires Reading(NotingScene(sig, ord), rec, fs) && i < |fs|
    ensures Gives(NotingScene(sig, ord), rec, fs, i, m) ==> m == NOTE
    ensures fs[i] == "a" ==> Gives(NotingScene(sig, ord), rec, fs, i, NOTE)
  {
    var sc := NotingScene(sig, ord);
    NotingIs(sig, ord, rec);
    ReadingBefore(sc, rec, fs, i);
    assert fs[i] in fs;
    hide NotingScene, Sends, Applies, Considered, Tried, Listings, Schema, Reading, Before;
    NotingSends(sig, ord, Shared(sc, rec, fs[..i], fs[i]), fs[i], m);
    NotingSends(sig, ord, Shared(sc, rec, fs[..i], fs[i]), fs[i], NOTE);
  }

  /** Its formats disturb each other, since "b" sends the note only after "a"; yet its messages are those of the
      scan. */
  lemma DisturbedUnnoticed(sig: Signature, ord: Order, cx: Contexts, rec: Record)
    requires Enumerates(ord)
    ensures var sc := NotingScene(sig, ord);
      !Undisturbed(sc, rec) && TellsExactly(sc, rec, FromAlone(sc, rec))
  {
    var sc := NotingScene(sig, ord);
    NotingIs(sig, ord, rec);
    NotingDisturbed(sig, ord, rec);
    forall fs, m | Reading(sc, rec, fs) ensures Told(sc, rec, fs, m) <==> m in FromAlone(sc, rec) {
      assert "a" in fs;
      var j :| 0 <= j < |fs| && fs[j] == "a";
      hide Undisturbed, Gives, IsFromAlone, Reading;
      NotingAlone(sig, ord, rec, m);
      NotingGives(sig, ord, rec, fs, j, m);
      forall i | 0 <= i < |fs| ensures Gives(sc, rec, fs, i, m) ==> m == NOTE { NotingGives(sig, ord, rec, fs, i, m); }
    }
  }

  lemma NotingDisturbed(sig: Signature, ord: Order, rec: Record)
    ensures !Undisturbed(NotingScene(sig, ord), rec)
  {
    var sc, d := NotingScene(sig, ord), ReadBy(NOTE, "b");
    NotingIs(sig, ord, rec);
    assert ["a"][..0] == [] && Before(sc, rec, ["a"], "b");
    hide NotingScene, Sends, Applies, Considered, Tried, Listings, Schema;
    NotingSends(sig, ord, Alone(sc.group, "b", rec), "b", NOTE);
    NotingSends(sig, ord, Shared(sc, rec, ["a"], "b"), "b", NOTE);
    assert !Unmoved(sc, rec, ["a"], d);
  }
}
