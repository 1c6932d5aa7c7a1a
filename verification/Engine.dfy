/** The engine as an object: the tables `grind.handle`, the commands and the watcher hooks update in place. */
module Engine {
  import opened Lua
  import opened Segmentation
  import opened Config
  import opened Registry
  import opened RegistryInvariant
  import opened RegistryLaws
  import opened Dispatch
  import opened DispatchLaws
  import opened ScanLaws

  /** `remove_by_cond` on a list, with the condition "equals `x`". */
  method RemoveByCond(table: seq<string>, x: string) returns (out: seq<string>)
    ensures out == RemoveFirst(table, x)
  {
    var i := 0;
    while i < |table|
      invariant 0 <= i <= |table|
      invariant RemoveFirst(table, x) == table[..i] + RemoveFirst(table[i..], x)
    {
      assert table[i..][1..] == table[i + 1..];
      if table[i] == x {
        return table[..i] + table[i + 1..];
      }
      assert table[..i] + ([table[i]] + RemoveFirst(table[i + 1..], x))
        == table[..i + 1] + RemoveFirst(table[i + 1..], x);
      i := i + 1;
    }
    out := table;
  }

  class Grind {
    const groups: Groups
    var watchers: seq<string>
    var keepers: seq<string>
    var subscriptions: map<string, Subscription>
    var index: Index
    var leftovers: map<string, string>
    var contexts: Contexts
    ghost var overwritten: multiset<Hold>

    function Snapshot(): State
      reads this
    {
      State(watchers, keepers, subscriptions, index)
    }

    ghost predicate Valid()
      reads this
    {
      WellFormed(groups) && Consistent(groups, Snapshot(), overwritten) && leftovers.Keys == groups.Keys
    }

    constructor (groups: Groups)
      requires WellFormed(groups)
      ensures Valid() && this.groups == groups && Snapshot() == Initial(groups) && overwritten == multiset{}
      ensures (forall g :: g in groups ==> leftovers[g] == "") && contexts == Contexts(map[], map[])
    {
      this.groups := groups;
      watchers, keepers, subscriptions := [], [], map[];
      index := map id | id in FormatIds(groups) :: FormatState(map[], 0);
      leftovers := map g | g in groups :: "";
      contexts := Contexts(map[], map[]);
      overwritten := multiset{};
      new;
      InitialConsistent(groups);
    }

    // ----- watchers and commands -----

    method AddWatcher(w: string)
      requires Valid()
      modifies this`watchers
      ensures Valid() && Snapshot() == DoAddWatcher(old(Snapshot()), w) && watchers == old(watchers) + [w]
    {
      SubsAndIndexDecide(groups, Snapshot(), DoAddWatcher(Snapshot(), w), overwritten);
      watchers := watchers + [w];
    }

    /** The argument checks of `subscribe`: they pass exactly when there is something to subscribe to. */
    method CheckTarget(args: Option<Args>) returns (error: Option<string>)
      ensures error.None? <==> Subscribable(groups, args)
      ensures error == SubscribeError(groups, args)
    {
      match args {
        case None => return Some("Missing 2 required arguments, args.group and args.klass");
        case Some(a) =>
          if a.group == None { return Some("Missing argument: args.group"); }
          if a.klass == None { return Some("Missing argument: args.klass"); }
          if a.view == None { return Some("Missing argument: args.view"); }
          var group, klass, view := a.group.value, a.klass.value, a.view.value;
          if group == "*" { return None; }
          if group !in groups { return Some("No such application group '" + group + "'"); }
          if klass !in groups[group].klasses { return Some("No such klass '" + klass + "'"); }
          if view !in groups[group].klasses[klass].views { return Some("No such view '" + view + "'"); }
          return None;
      }
    }

    method Subscribe(w: string, args: Option<Args>) returns (reply: Reply)
      requires Valid()
      modifies this`keepers, this`subscriptions, this`index, this`overwritten
      ensures Valid() && (Snapshot(), reply) == DoSubscribe(groups, old(Snapshot()), w, args)
      ensures overwritten == old(overwritten) + Overwrites(groups, old(Snapshot()), Event.Subscribe(w, args))
    {
      ghost var before := Snapshot();
      SubscribeKeeps(groups, before, overwritten, w, args);
      assert index.Keys == FormatIds(groups);
      hide Consistent, Overwrites, FormatIds, Enter;
      overwritten := overwritten + Overwrites(groups, before, Event.Subscribe(w, args));
      assert Snapshot() == before;
      var error := CheckTarget(args);
      if error.Some? {
        return Failed(error.value);
      }
      reply := EnterSubscription(w, args.value.group.value, args.value.klass.value, args.value.view.value);
    }

    /** `subscribe` once the arguments are accepted. */
    method EnterSubscription(w: string, group: string, klass: string, view: string) returns (reply: Reply)
      requires WellFormed(groups) && index.Keys == FormatIds(groups)
      requires group != "*" ==> group in groups && klass in groups[group].klasses
      modifies this`keepers, this`subscriptions, this`index
      ensures (Snapshot(), reply) == Enter(groups, old(Snapshot()), w, group, klass, view)
    {
      hide FormatIds, ActivateAll;
      if group == "*" {
        subscriptions := subscriptions[w := STAR];
        keepers := keepers + [w];
        reply := Subscribed;
      } else if w in subscriptions && SameTarget(subscriptions[w], group, klass, view) {
        reply := Failed("Already subscribed.");
      } else {
        subscriptions := subscriptions[w := Subscription(group, klass, view, map[])];
        MarkActive(group, klass, view);
        reply := Done;
      }
    }

    /** The loop over the formats of the klass in `subscribe`. */
    method MarkActive(group: string, klass: string, view: string)
      requires WellFormed(groups) && index.Keys == FormatIds(groups)
      requires group in groups && klass in groups[group].klasses
      modifies this`index
      ensures index == ActivateAll(old(index), group, groups[group].klasses[klass].formats, klass, view)
    {
      hide Activate;
      var formats := groups[group].klasses[klass].formats;
      var n := 0;
      while n < |formats|
        invariant 0 <= n <= |formats| && index.Keys == FormatIds(groups)
        invariant index == ActivateAll(old(index), group, formats[..n], klass, view)
      {
        assert formats[n] in formats && formats[..n + 1][..n] == formats[..n];
        MarkActiveIn(FormatId(group, formats[n]), klass, view);
        n := n + 1;
      }
      assert formats[..n] == formats;
    }

    method MarkActiveIn(id: FormatId, klass: string, view: string)
      requires id in index
      modifies this`index
      ensures index == old(index)[id := Activate(old(index)[id], klass, view)]
    {
      ghost var fs := index[id];
      if klass !in index[id].active {
        index := index[id := FormatState(index[id].active[klass := []], index[id].nrActive + 1)];
      }
      index := index[id := index[id].(active := index[id].active[klass := index[id].active[klass] + [view]])];
      assert [] + [view] == [view];
      assert index[id] == Activate(fs, klass, view);
    }

    method AddFilters(w: string, args: map<string, FilterArg>, compiles: string -> bool) returns (reply: Reply)
      requires Valid()
      modifies this`subscriptions
      ensures Valid() && (Snapshot(), reply) == DoAddFilters(old(Snapshot()), w, args, compiles)
    {
      if w !in subscriptions { return NOT_SUBSCRIBED; }
      var filters := CollectFilters(args, compiles);
      if filters == None { return MALFORMED; }
      RefilterKeeps(groups, Snapshot(), overwritten, w, filters.value);
      hide Consistent, Compiled;
      subscriptions := subscriptions[w := subscriptions[w].(filters := filters.value)];
      reply := Done;
    }

    /** The loop over the arguments of `add_filters`; `None` at the first that is not a table. */
    method CollectFilters(args: map<string, FilterArg>, compiles: string -> bool)
      returns (out: Option<map<string, Filter>>)
      ensures out == if exists f :: f in args && args[f].Malformed? then None else Some(Compiled(args, compiles))
    {
      var filters: map<string, Filter> := map[];
      var fields := args.Keys;
      while fields != {}
        invariant fields <= args.Keys
        invariant forall f :: f in args && f !in fields ==> args[f].FilterArg?
        invariant filters == map f | f in args && f !in fields && args[f].FilterArg?
                                 && (args[f].isRegex ==> compiles(args[f].pattern))
                               :: Filter(args[f].isRegex, args[f].pattern, args[f].negated)
      {
        var field :| field in fields;
        match args[field] {
          case Malformed => return None;
          case FilterArg(isRegex, pattern, negated) =>
            if !isRegex || compiles(pattern) {
              filters := filters[field := Filter(isRegex, pattern, negated)];
            }
        }
        fields := fields - {field};
      }
      assert filters == Compiled(args, compiles);
      out := Some(filters);
    }

    method ClearFilters(w: string) returns (reply: Reply)
      requires Valid()
      modifies this`subscriptions
      ensures Valid() && (Snapshot(), reply) == DoClearFilters(old(Snapshot()), w)
    {
      if w !in subscriptions { return NOT_SUBSCRIBED; }
      RefilterKeeps(groups, Snapshot(), overwritten, w, map[]);
      subscriptions := subscriptions[w := subscriptions[w].(filters := map[])];
      reply := NoResult;
    }

    /** `grind.handle_cmd` for the commands modelled: dispatch, and the answer made of what the handler returned. */
    method HandleCmd(w: string, req: Request) returns (answer: Answer)
      requires Valid()
      modifies this`keepers, this`subscriptions, this`index, this`overwritten
      ensures Valid() && (Snapshot(), answer) == DoHandleCmd(groups, old(Snapshot()), w, req)
    {
      hide Consistent, Overwrites;
      var id, reply;
      match req {
        case Undecodable => return Failure("Unable to decode command.");
        case MissingId => return Failure("Invalid command structure; missing 'id' field.");
        case Unsupported(name) => return Failure("Unsupported command " + name + ".");
        case SubscribeRequest(args) =>
          id := "subscribe";
          reply := Subscribe(w, args);
        case AddFiltersRequest(filters, compiles) =>
          id := "add_filters";
          reply := AddFilters(w, filters, compiles);
        case ClearFiltersRequest =>
          id := "clear_filters";
          reply := ClearFilters(w);
      }
      if reply.Failed? { return Failure("Error: " + reply.message); }
      if reply.NoResult? { return Failure("Command " + id + " handling failed."); }
      answer := Success(id, reply);
    }

    method RemoveWatcher(w: string)
      requires Valid()
      modifies this`watchers, this`keepers, this`subscriptions, this`index
      ensures Valid() && Snapshot() == DoRemoveWatcher(groups, old(Snapshot()), w)
    {
      ghost var before := Snapshot();
      RemoveKeeps(groups, before, overwritten, w);
      watchers := RemoveByCond(watchers, w);
      if w in subscriptions {
        var sub := subscriptions[w];
        if sub.group == "*" {
          keepers := RemoveByCond(keepers, w);
        } else {
          ReleaseIsCovered(groups, before, overwritten, w);
          MarkInactive(w, before);
        }
        subscriptions := subscriptions - {w};
      }
      assert Snapshot() == DoRemoveWatcher(groups, before, w);
    }

    /** The loop over the formats of the klass in `remove_watcher`; every list it edits is there. */
    method MarkInactive(w: string, ghost before: State)
      requires WellFormed(groups) && Consistent(groups, before, overwritten) && before.index == index
      requires before.subs == subscriptions
      requires w in subscriptions && subscriptions[w].group != "*"
      requires subscriptions[w].group in groups && subscriptions[w].klass in groups[subscriptions[w].group].klasses
      modifies this`index
      ensures var s := subscriptions[w];
        index == ReleaseAll(old(index), s.group, groups[s.group].klasses[s.klass].formats, s.klass, s.view)
    {
      var sub := subscriptions[w];
      var formats := groups[sub.group].klasses[sub.klass].formats;
      ReleaseNothing(index, sub.group, formats[..0], sub.klass, sub.view);
      hide Consistent, WellFormed, Release, ReleaseAll, RemoveFirst, FormatIds;
      var n := 0;
      while n < |formats|
        invariant 0 <= n <= |formats|
        invariant index == ReleaseAll(old(index), sub.group, formats[..n], sub.klass, sub.view)
      {
        ListPresent(groups, before, overwritten, w, n);
        ReleaseNext(before.index, sub.group, formats, sub.klass, sub.view, n);
        MarkInactiveIn(FormatId(sub.group, formats[n]), sub.klass, sub.view);
        n := n + 1;
      }
      assert formats[..n] == formats;
    }

    static lemma ReleaseNothing(index: Index, group: string, formats: seq<string>, klass: string, view: string)
      requires formats == []
      ensures ReleaseAll(index, group, formats, klass, view) == index
    {}

    static lemma ReleaseNext(index: Index, group: string, formats: seq<string>, klass: string, view: string, n: nat)
      requires n < |formats|
      ensures var id, before := FormatId(group, formats[n]), ReleaseAll(index, group, formats[..n], klass, view);
        id in before ==>
          ReleaseAll(index, group, formats[..n + 1], klass, view) == before[id := Release(before[id], klass, view)]
    {
      assert formats[..n + 1][..n] == formats[..n];
    }

    method MarkInactiveIn(id: FormatId, klass: string, view: string)
      requires id in index && klass in index[id].active
      modifies this`index
      ensures index == old(index)[id := Release(old(index)[id], klass, view)]
    {
      ghost var fs := index[id];
      var views := RemoveByCond(index[id].active[klass], view);
      if views == [] {
        index := index[id := FormatState(index[id].active - {klass}, index[id].nrActive - 1)];
      } else {
        index := index[id := index[id].(active := index[id].active[klass := views])];
      }
      assert index[id] == Release(fs, klass, view);
    }

    // ----- grind.handle -----

    /** The loop over a subscription's filters; it stops at the first that fails. */
    method PassesFilters(sc: Scene, filters: map<string, Filter>, row: Fields) returns (doRelay: bool)
      ensures doRelay == Passes(sc, filters, row)
    {
      doRelay := true;
      var fields := filters.Keys;
      while fields != {}
        invariant fields <= filters.Keys && doRelay
        invariant forall f :: f in filters && f !in fields ==> PassesOne(sc, filters[f], FieldText(row, f))
      {
        var field :| field in fields;
        var filter := filters[field];
        var passed;
        if filter.isRegex {
          passed := sc.regex(FieldText(row, field), filter.pattern);
        } else {
          passed := FieldText(row, field) == filter.pattern;
        }
        if filter.negated { passed := !passed; }
        if !passed {
          return false;
        }
        fields := fields - {field};
      }
    }

    /** The loop over the subscriptions. */
    method RelayRow(sc: Scene, format: string, klass: string, view: string, row: Fields) returns (sent: seq<Delivery>)
      requires Enumerates(sc.ord)
      ensures sent == Relays(sc, format, klass, view, row, sc.ord(Subscriptions, sc.st.subs.Keys))
    {
      var ws := sc.ord(Subscriptions, sc.st.subs.Keys);
      sent := [];
      var n := 0;
      while n < |ws|
        invariant 0 <= n <= |ws| && sent == Relays(sc, format, klass, view, row, ws[..n])
      {
        var w := ws[n];
        EnumeratedOnce(sc.ord, Subscriptions, sc.st.subs.Keys, w);
        assert ws[..n + 1][..n] == ws[..n];
        var sub := sc.st.subs[w];
        if sub.group == "*" || (sub.group == sc.name && sub.klass == klass && sub.view == view) {
          var doRelay := PassesFilters(sc, sub.filters, row);
          if doRelay {
            sent := sent + [Delivery(w, sc.name, format, klass, view, row)];
          }
        }
        n := n + 1;
      }
      assert ws[..n] == ws;
    }

    /** One view: run the formatter, relay what it commits, reset its context unless told to keep it. */
    method FormatView(sc: Scene, format: string, klass: string, viewName: string, entry: Entry)
      returns (sent: seq<Delivery>)
      requires Enumerates(sc.ord) && klass in sc.group.klasses && viewName in sc.group.klasses[klass].views
      modifies this`contexts
      ensures Outcome(contexts, sent) == RunView(sc, old(contexts), format, klass, viewName, entry)
    {
      sent := [];
      var vid, kid := ViewId(sc.name, klass, viewName), KlassId(sc.name, klass);
      var view := sc.group.klasses[klass].views[viewName];
      var r := view.formatter(format, ViewContext(contexts, vid), entry, KlassContext(contexts, kid));
      contexts := Contexts(contexts.views[vid := r.context], contexts.klasses[kid := r.klassContext]);
      if r.commit && r.row.Some? {
        sent := RelayRow(sc, format, klass, viewName, r.row.value);
        if !r.keepContext {
          assert old(contexts).views[vid := r.context][vid := map[]] == old(contexts).views[vid := map[]];
          contexts := contexts.(views := contexts.views[vid := map[]]);
        }
      }
    }

    /** The loop over the views. */
    method FormatViews(sc: Scene, format: string, klass: string, views: seq<string>, entry: Entry)
      returns (sent: seq<Delivery>)
      requires Enumerates(sc.ord) && klass in sc.group.klasses
      requires forall v :: v in views ==> v in sc.group.klasses[klass].views
      modifies this`contexts
      ensures Outcome(contexts, sent) == RunViews(sc, old(contexts), format, klass, views, entry)
    {
      sent := [];
      var n := 0;
      while n < |views|
        invariant 0 <= n <= |views|
        invariant Outcome(contexts, sent) == RunViews(sc, old(contexts), format, klass, views[..n], entry)
      {
        assert views[n] in views && views[..n + 1][..n] == views[..n];
        var out := FormatView(sc, format, klass, views[n], entry);
        sent := sent + out;
        n := n + 1;
      }
      assert views[..n] == views;
    }

    /** One klass: ask its matcher, and run its views if it accepts. */
    method TryKlass(sc: Scene, format: string, klass: string, entry: Entry) returns (sent: seq<Delivery>)
      requires Enumerates(sc.ord) && Listed(sc) && klass in sc.group.klasses
      modifies this`contexts
      ensures Outcome(contexts, sent) == RunKlass(sc, old(contexts), format, klass, entry)
    {
      hide RunViews, ViewList;
      sent := [];
      var kid := KlassId(sc.name, klass);
      var m := sc.group.klasses[klass].matcher(format, entry, KlassContext(contexts, kid));
      contexts := contexts.(klasses := contexts.klasses[kid := m.klassContext]);
      if m.accepts {
        sent := FormatViews(sc, format, klass, ViewList(sc, format, klass), entry);
      }
    }

    /** The loop over the klasses. */
    method TryKlasses(sc: Scene, format: string, klasses: seq<string>, entry: Entry) returns (sent: seq<Delivery>)
      requires Enumerates(sc.ord) && Listed(sc) && forall k :: k in klasses ==> k in sc.group.klasses
      modifies this`contexts
      ensures Outcome(contexts, sent) == RunKlasses(sc, old(contexts), format, klasses, entry)
    {
      hide RunKlass, Listed, Enumerates;
      sent := [];
      var n := 0;
      while n < |klasses|
        invariant 0 <= n <= |klasses|
        invariant Outcome(contexts, sent) == RunKlasses(sc, old(contexts), format, klasses[..n], entry)
      {
        assert klasses[n] in klasses && klasses[..n + 1][..n] == klasses[..n];
        var out := TryKlass(sc, format, klasses[n], entry);
        sent := sent + out;
        n := n + 1;
      }
      assert klasses[..n] == klasses;
    }

    /** The loop that collects the formats matching a record. */
    method CollectFormats(sc: Scene, raw: string) returns (formats: seq<string>)
      requires Enumerates(sc.ord) && sc.st == Snapshot() && index.Keys == FormatIds(groups)
      requires sc.name in groups && groups[sc.name] == sc.group
      ensures formats == FormatList(sc, raw)
    {
      var all := sc.ord(Formats, sc.group.formats.Keys);
      FormatsKnown(sc);
      formats := [];
      var n := 0;
      while n < |all|
        invariant 0 <= n <= |all| && formats == Applicable(sc, all[..n], raw)
      {
        assert all[..n + 1][..n] == all[..n] && all[n] in all;
        if index[FormatId(sc.name, all[n])].nrActive > 0 || |keepers| > 0 {
          var found := sc.group.formats[all[n]].find(raw);
          if found.Some? && |found.value| > 0 {
            formats := formats + [all[n]];
          }
        }
        n := n + 1;
      }
      assert all[..n] == all;
    }

    /** The body of the record loop: the matching formats in turn fill one entry and have the klasses try it. */
    method HandleRecord(sc: Scene, rec: Record) returns (sent: seq<Delivery>)
      requires Enumerates(sc.ord) && Listed(sc) && sc.st == Snapshot() && index.Keys == FormatIds(groups)
      requires sc.name in groups && groups[sc.name] == sc.group
      modifies this`contexts
      ensures Outcome(contexts, sent) == DispatchRecord(sc, old(contexts), rec)
    {
      hide RunKlasses, KlassList, ViewList, FormatList, Schema;
      FormatListKnown(sc, rec.raw);
      var formats := CollectFormats(sc, rec.raw);
      sent := [];
      var fields: Fields := map[];
      var n := 0;
      while n < |formats|
        invariant 0 <= n <= |formats| && fields == FieldsAfter(sc.group, formats[..n], rec)
        invariant Outcome(contexts, sent) == RunFormats(sc, old(contexts), formats[..n], rec)
      {
        assert formats[..n + 1][..n] == formats[..n] && formats[n] in formats;
        fields := fields + Schema(sc.group, formats[n], rec);
        var out := TryKlasses(sc, formats[n], KlassList(sc, formats[n]), Entry(rec.raw, fields));
        sent := sent + out;
        n := n + 1;
      }
      assert formats[..n] == formats;
    }

    /** One stretch: the record is `text:sub(e + 1, b2 - 1)`, read together with the stretch it comes from. */
    method HandleStretch(sc: Scene, text: string, b: nat, e: nat, b2: nat, sent: seq<Delivery>, ghost cx: Contexts,
                         ghost spans: seq<Span>)
      returns (more: seq<Delivery>)
      requires Enumerates(sc.ord) && Listed(sc) && sc.st == Snapshot() && index.Keys == FormatIds(groups)
      requires sc.name in groups && groups[sc.name] == sc.group
      requires 1 <= b <= b2 && e == b - 1 + sc.group.signature.width
      requires Outcome(contexts, sent) == DispatchSpans(sc, cx, text, spans)
      modifies this`contexts
      ensures Outcome(contexts, more) == DispatchSpans(sc, cx, text, spans + [Span(b - 1, b2 - 1)])
    {
      var rec := Record(Sub(text, e + 1, b2 - 1), Sub(text, b, b2 - 1));
      assert rec == RecordOf(sc.group.signature, text, Span(b - 1, b2 - 1));
      var out := HandleRecord(sc, rec);
      DispatchAppended(sc, cx, text, spans, Span(b - 1, b2 - 1), Outcome(old(contexts), sent), Outcome(contexts, out));
      more := sent + out;
    }

    /** The record loop of `handle`. */
    method CutRecords(sc: Scene, text: string) returns (sent: seq<Delivery>, consumed: int)
      requires Enumerates(sc.ord) && Listed(sc) && sc.st == Snapshot() && index.Keys == FormatIds(groups)
      requires sc.name in groups && groups[sc.name] == sc.group && sc.group.signature.width >= 2
      modifies this`contexts
      ensures consumed == Consumed(Spans(sc.group.signature, text))
      ensures Outcome(contexts, sent) == DispatchSpans(sc, old(contexts), text, Spans(sc.group.signature, text))
    {
      var sig := sc.group.signature;
      hide DispatchRecord, CutUpTo, Spans, Find, Consumed;
      sent, consumed := [], 0;
      var e := 0;
      ghost var spans: seq<Span> := [];
      CutStart(sig, text);
      while true
        invariant CutUpTo(sig, text, e, spans, consumed)
        invariant Outcome(contexts, sent) == DispatchSpans(sc, old(contexts), text, spans)
        decreases |text| - e
      {
        var f := Find(sig, text, e);
        var f2 := Find(sig, text, if f.Found? then f.e else 1);
        if f == NotFound || f2 == NotFound {
          CutDone(sig, text, e, spans, consumed, f, f2);
          break;
        }
        var b, b2 := f.b, f2.b;
        ghost var cut := spans + [Span(b - 1, b2 - 1)];
        CutRound(sig, text, e, spans, consumed, f, f2, cut);
        consumed := consumed + b2 - b;
        sent := HandleStretch(sc, text, b, f.e, b2, sent, old(contexts), spans);
        e, spans := f.e, cut;
      }
    }

    /** One chunk of a group's stream; `None` for an unknown group, which the source asserts against. */
    method Handle(chunk: string, glabel: string, ord: Order, regex: (string, string) -> bool)
      returns (sent: Option<seq<Delivery>>)
      requires Valid() && Enumerates(ord) && (glabel in groups ==> groups[glabel].signature.width >= 2)
      modifies this`contexts, this`leftovers
      ensures Valid() && Snapshot() == old(Snapshot())
      ensures sent.Some? <==> glabel in groups
      ensures sent == None ==> contexts == old(contexts) && leftovers == old(leftovers)
      ensures sent.Some? ==>
                var sc := Scene(glabel, groups[glabel], Snapshot(), ord, regex);
                var sig := sc.group.signature;
                var text := old(leftovers)[glabel] + chunk;
                && Listed(sc)
                && leftovers == old(leftovers)[glabel := Carry(sig, text)]
                && Outcome(contexts, sent.value) == DispatchSpans(sc, old(contexts), text, Spans(sig, text))
    {
      if glabel !in groups {
        return None;
      }
      var sc := Scene(glabel, groups[glabel], Snapshot(), ord, regex);
      SettledListed(groups, sc, overwritten);
      var text := leftovers[glabel] + chunk;
      var out, consumed := CutRecords(sc, text);
      leftovers := leftovers[glabel := SubFrom(text, consumed)];
      sent := Some(out);
    }
  }
}
