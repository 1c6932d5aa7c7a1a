/** What the commands mean to a watcher: the rows it is sent after subscribing and after setting or clearing filters. */
module Subscribers {
  import opened Lua
  import opened Config
  import opened Registry
  import opened Dispatch
  import opened DispatchLaws

  // ----- filters -----

  /** The text a filter is held against: a field that is absent, or no text, counts as empty. */
  function Shown(row: Fields, field: string): string {
    if field !in row then "" else match row[field] case Text(s) => s case False => ""
  }

  /** A literal asks for that very text, a regular expression for a match; negated, for the opposite. */
  predicate Admits(regex: (string, string) -> bool, isRegex: bool, pattern: string, negated: bool, text: string) {
    if isRegex then (if negated then !regex(text, pattern) else regex(text, pattern))
    else (if negated then text != pattern else text == pattern)
  }

  /** The subscription is to everything, or to this very view. */
  predicate Targets(s: Subscription, group: string, klass: string, view: string) {
    s.group == "*" || [s.group, s.klass, s.view] == [group, klass, view]
  }

  lemma WantsIs(sc: Scene, w: string, klass: string, view: string, row: Fields)
    ensures Wants(sc, w, klass, view, row) <==>
            && w in sc.st.subs && Targets(sc.st.subs[w], sc.name, klass, view)
            && forall f :: f in sc.st.subs[w].filters ==>
                 var x := sc.st.subs[w].filters[f]; Admits(sc.regex, x.isRegex, x.pattern, x.negated, Shown(row, f))
  {
    if w in sc.st.subs {
      var s := sc.st.subs[w];
      assert Targets(s, sc.name, klass, view) <==> Selects(sc, s, klass, view) by {
        var a, b := [s.group, s.klass, s.view], [sc.name, klass, view];
        assert a == b <==> a[0] == b[0] && a[1] == b[1] && a[2] == b[2];
      }
      forall f | f in s.filters
        ensures PassesOne(sc, s.filters[f], FieldText(row, f))
           <==> Admits(sc.regex, s.filters[f].isRegex, s.filters[f].pattern, s.filters[f].negated, Shown(row, f))
      {}
    }
  }

  /** The watcher is sent this row when the view's formatter is run on the entry. */
  predicate IsSent(sc: Scene, cx: Contexts, format: string, klass: string, view: string, entry: Entry, w: string,
                   row: Fields)
    requires klass in sc.group.klasses && view in sc.group.klasses[klass].views
  {
    Delivery(w, sc.name, format, klass, view, row) in RunView(sc, cx, format, klass, view, entry).sent
  }

  /** The formatter, run on the entry, commits this row. */
  predicate Commits(sc: Scene, cx: Contexts, format: string, klass: string, view: string, entry: Entry, row: Fields)
    requires klass in sc.group.klasses && view in sc.group.klasses[klass].views
  {
    var r := sc.group.klasses[klass].views[view].formatter(format, ViewContext(cx, ViewId(sc.name, klass, view)), entry,
                                                           KlassContext(cx, KlassId(sc.name, klass)));
    r.commit && r.row == Some(row)
  }

  /** A watcher is sent a row exactly when the view commits it, the watcher is subscribed to the view or to everything,
      and each of its filters admits what the row shows in its field. */
  lemma SentIff(sc: Scene, cx: Contexts, format: string, klass: string, view: string, entry: Entry, w: string,
                row: Fields)
    requires Enumerates(sc.ord) && klass in sc.group.klasses && view in sc.group.klasses[klass].views
    ensures IsSent(sc, cx, format, klass, view, entry, w, row) <==>
            && Commits(sc, cx, format, klass, view, entry, row)
            && w in sc.st.subs && Targets(sc.st.subs[w], sc.name, klass, view)
            && forall f :: f in sc.st.subs[w].filters ==>
                 var x := sc.st.subs[w].filters[f]; Admits(sc.regex, x.isRegex, x.pattern, x.negated, Shown(row, f))
  {
    hide Wants, Targets, Admits, Enumerates, Relays;
    WantsIs(sc, w, klass, view, row);
    var out := RunView(sc, cx, format, klass, view, entry).sent;
    var r := sc.group.klasses[klass].views[view].formatter(format, ViewContext(cx, ViewId(sc.name, klass, view)), entry,
                                                           KlassContext(cx, KlassId(sc.name, klass)));
    if r.commit && r.row.Some? {
      SentOnce(sc, format, klass, view, r.row.value, Delivery(w, sc.name, format, klass, view, row));
    }
  }

  lemma SentOnce(sc: Scene, format: string, klass: string, view: string, row: Fields, d: Delivery)
    requires Enumerates(sc.ord)
    ensures d in Relays(sc, format, klass, view, row, sc.ord(Subscriptions, sc.st.subs.Keys)) <==>
            d == Delivery(d.watcher, sc.name, format, klass, view, row) && Wants(sc, d.watcher, klass, view, row)
  {
    var ws := sc.ord(Subscriptions, sc.st.subs.Keys);
    RelaysCount(sc, format, klass, view, row, ws, d);
    EnumeratedOnce(sc.ord, Subscriptions, sc.st.subs.Keys, d.watcher);
    var sent := Relays(sc, format, klass, view, row, ws);
    assert d in sent <==> multiset(sent)[d] > 0 by { assert d in sent <==> d in multiset(sent); }
    assert Wants(sc, d.watcher, klass, view, row) ==> d.watcher in sc.st.subs.Keys;
  }

  /** The state with other filters for one watcher. */
  function Refiltered(sc: Scene, w: string, filters: map<string, Filter>): Scene
    requires w in sc.st.subs
  {
    sc.(st := sc.st.(subs := sc.st.subs[w := sc.st.subs[w].(filters := filters)]))
  }

  /** With one literal filter, a subscriber is sent a committed row exactly when it shows that text in that field;
      negated, exactly when it does not. With a regular expression, the match decides likewise. */
  lemma OneFilterSends(sc: Scene, cx: Contexts, format: string, klass: string, view: string, entry: Entry, w: string,
                       row: Fields, f: string, pattern: string)
    requires Enumerates(sc.ord) && klass in sc.group.klasses && view in sc.group.klasses[klass].views
    requires w in sc.st.subs && Targets(sc.st.subs[w], sc.name, klass, view)
    requires Commits(sc, cx, format, klass, view, entry, row)
    ensures var text := if f in row && row[f].Text? then row[f].s else "";
      && (IsSent(Refiltered(sc, w, map[f := Filter(false, pattern, false)]), cx, format, klass, view, entry, w, row)
          <==> text == pattern)
      && (IsSent(Refiltered(sc, w, map[f := Filter(false, pattern, true)]), cx, format, klass, view, entry, w, row)
          <==> text != pattern)
      && (IsSent(Refiltered(sc, w, map[f := Filter(true, pattern, false)]), cx, format, klass, view, entry, w, row)
          <==> sc.regex(text, pattern))
      && (IsSent(Refiltered(sc, w, map[f := Filter(true, pattern, true)]), cx, format, klass, view, entry, w, row)
          <==> !sc.regex(text, pattern))
  {
    hide IsSent, Commits, Enumerates, Targets;
    OneFilterIs(sc, cx, format, klass, view, entry, w, row, f, Filter(false, pattern, false));
    OneFilterIs(sc, cx, format, klass, view, entry, w, row, f, Filter(false, pattern, true));
    OneFilterIs(sc, cx, format, klass, view, entry, w, row, f, Filter(true, pattern, false));
    OneFilterIs(sc, cx, format, klass, view, entry, w, row, f, Filter(true, pattern, true));
  }

  lemma CommitsAnyState(sc: Scene, sc': Scene, cx: Contexts, format: string, klass: string, view: string, entry: Entry,
                        row: Fields)
    requires sc' == sc.(st := sc'.st) && klass in sc.group.klasses && view in sc.group.klasses[klass].views
    ensures Commits(sc', cx, format, klass, view, entry, row) <==> Commits(sc, cx, format, klass, view, entry, row)
  {}

  lemma OneFilterIs(sc: Scene, cx: Contexts, format: string, klass: string, view: string, entry: Entry, w: string,
                    row: Fields, f: string, x: Filter)
    requires Enumerates(sc.ord) && klass in sc.group.klasses && view in sc.group.klasses[klass].views
    requires w in sc.st.subs && Targets(sc.st.subs[w], sc.name, klass, view)
    requires Commits(sc, cx, format, klass, view, entry, row)
    ensures IsSent(Refiltered(sc, w, map[f := x]), cx, format, klass, view, entry, w, row)
       <==> Admits(sc.regex, x.isRegex, x.pattern, x.negated, Shown(row, f))
  {
    var sc' := Refiltered(sc, w, map[f := x]);
    CommitsAnyState(sc, sc', cx, format, klass, view, entry, row);
    SentIff(sc', cx, format, klass, view, entry, w, row);
    hide IsSent, Commits, Enumerates, Admits, Shown;
    assert forall f' :: f' in sc'.st.subs[w].filters <==> f' == f;
  }

  /** A further filter only narrows what is sent: to what it would let through alone. */
  lemma FurtherFilterNarrows(sc: Scene, cx: Contexts, format: string, klass: string, view: string, entry: Entry,
                             w: string, row: Fields, f: string, x: Filter)
    requires Enumerates(sc.ord) && klass in sc.group.klasses && view in sc.group.klasses[klass].views
    requires w in sc.st.subs && f !in sc.st.subs[w].filters
    ensures IsSent(Refiltered(sc, w, sc.st.subs[w].filters[f := x]), cx, format, klass, view, entry, w, row)
       <==> && IsSent(sc, cx, format, klass, view, entry, w, row)
            && IsSent(Refiltered(sc, w, map[f := x]), cx, format, klass, view, entry, w, row)
  {
    var old_ := sc.st.subs[w].filters;
    var one, both := Refiltered(sc, w, map[f := x]), Refiltered(sc, w, old_[f := x]);
    CommitsAnyState(sc, one, cx, format, klass, view, entry, row);
    CommitsAnyState(sc, both, cx, format, klass, view, entry, row);
    SentIff(sc, cx, format, klass, view, entry, w, row);
    SentIff(one, cx, format, klass, view, entry, w, row);
    SentIff(both, cx, format, klass, view, entry, w, row);
    hide IsSent, Commits, Enumerates, Admits, Shown;
    assert forall f' :: f' in old_[f := x] <==> f' in old_ || f' == f;
  }

  // ----- the commands -----

  /** Nobody but this watcher is affected. */
  ghost predicate OthersSame(st: State, out: State, w: string) {
    && out.watchers == st.watchers
    && forall u :: u != w ==> (u in out.subs <==> u in st.subs) && (u in st.subs ==> out.subs[u] == st.subs[u])
  }

  /** An accepted subscription is to what was asked for, has no filters, and lets every row of it through; whatever the
      watcher was subscribed to before, and however filtered. A refused one changes nothing. */
  lemma SubscribeEffect(groups: Groups, st: State, w: string, args: Option<Args>)
    ensures var (out, reply) := DoSubscribe(groups, st, w, args);
      && OthersSame(st, out, w)
      && (reply.Failed? ==> out == st)
      && (!reply.Failed? ==>
            && args.Some? && args.value.group.Some? && args.value.klass.Some? && args.value.view.Some?
            && w in out.subs && out.subs[w].filters == map[]
            && var Args(Some(g), Some(k), Some(v)) := args.value;
               if g == "*" then reply == Subscribed && out.subs[w] == Subscription("*", "*", "*", map[])
               else reply == Done && out.subs[w] == Subscription(g, k, v, map[]))
  {
    hide ActivateAll;
  }

  lemma NewSubscriberWants(groups: Groups, sc: Scene, w: string, args: Args, klass: string, view: string, row: Fields)
    requires var (out, reply) := DoSubscribe(groups, sc.st, w, Some(args)); !reply.Failed?
    ensures var sc' := sc.(st := DoSubscribe(groups, sc.st, w, Some(args)).0);
      Wants(sc', w, klass, view, row) <==>
        args.group == Some("*")
        || (args.group == Some(sc.name) && args.klass == Some(klass) && args.view == Some(view))
  {
    hide DoSubscribe;
    SubscribeEffect(groups, sc.st, w, Some(args));
    WantsIs(sc.(st := DoSubscribe(groups, sc.st, w, Some(args)).0), w, klass, view, row);
    hide Wants, Admits;
    assert [args.group.value, args.klass.value, args.view.value] == [sc.name, klass, view] <==>
           args.group.value == sc.name && args.klass.value == klass && args.view.value == view by {
      var a, b := [args.group.value, args.klass.value, args.view.value], [sc.name, klass, view];
      assert a == b <==> a[0] == b[0] && a[1] == b[1] && a[2] == b[2];
    }
  }

  /** Accepted filters take the place of all set before: the rows wanted are then those of the subscription that every
      filter given admits, leaving out regular expressions that do not compile. */
  lemma AddFiltersEffect(sc: Scene, w: string, args: map<string, FilterArg>, compiles: string -> bool, klass: string,
                         view: string, row: Fields)
    ensures var (out, reply) := DoAddFilters(sc.st, w, args, compiles);
      && (reply == Done || reply.Failed?) && OthersSame(sc.st, out, w)
      && (reply == Done <==> w in sc.st.subs && forall f :: f in args ==> args[f].FilterArg?)
      && (reply != Done ==>
            && out == sc.st
            && reply == if w !in sc.st.subs then Failed("You must subscribe to a view first!")
                        else Failed("Invalid command structure; field value must be a table: "
                                    + "{ is_regex = bool, value = string }"))
      && (reply == Done ==>
            (Wants(sc.(st := out), w, klass, view, row) <==>
              && Targets(sc.st.subs[w], sc.name, klass, view)
              && forall f :: f in args && (args[f].isRegex ==> compiles(args[f].pattern)) ==>
                   Admits(sc.regex, args[f].isRegex, args[f].pattern, args[f].negated, Shown(row, f))))
  {
    var (out, reply) := DoAddFilters(sc.st, w, args, compiles);
    if reply == Done {
      WantsIs(sc.(st := out), w, klass, view, row);
      hide Wants, Admits, Shown;
      var filters := out.subs[w].filters;
      assert forall f :: f in filters <==> f in args && (args[f].isRegex ==> compiles(args[f].pattern));
      assert forall f :: f in filters ==>
          filters[f].isRegex == args[f].isRegex && filters[f].pattern == args[f].pattern
          && filters[f].negated == args[f].negated;
    }
  }

  /** Clearing them lets every row of the subscription through again. */
  lemma ClearFiltersEffect(sc: Scene, w: string, klass: string, view: string, row: Fields)
    ensures var (out, reply) := DoClearFilters(sc.st, w);
      && OthersSame(sc.st, out, w) && (w !in sc.st.subs ==> out == sc.st && reply.Failed?)
      && (w in sc.st.subs ==>
            && reply == NoResult
            && (Wants(sc.(st := out), w, klass, view, row) <==> Targets(sc.st.subs[w], sc.name, klass, view)))
  {
    var out := DoClearFilters(sc.st, w).0;
    WantsIs(sc.(st := out), w, klass, view, row);
    hide Wants, Admits;
  }

  // ----- coming and going -----

  /** A watcher that connects is listed once more, last, and nothing else changes. */
  lemma ConnectEffect(st: State, w: string)
    ensures var out := DoAddWatcher(st, w);
      && multiset(out.watchers)[w] == multiset(st.watchers)[w] + 1
      && out.watchers[..|st.watchers|] == st.watchers && |out.watchers| == |st.watchers| + 1
      && out.(watchers := st.watchers) == st
  {}

  /** A watcher that leaves is listed once less, if at all, has no subscription any more, and is sent nothing; nobody
      else's subscription changes. */
  lemma LeaveEffect(groups: Groups, sc: Scene, w: string, klass: string, view: string, row: Fields)
    ensures var out := DoRemoveWatcher(groups, sc.st, w);
      && (multiset(out.watchers) == multiset(sc.st.watchers) - multiset{w})
      && w !in out.subs && !Wants(sc.(st := out), w, klass, view, row)
      && forall u :: u != w ==>
           (u in out.subs <==> u in sc.st.subs) && (u in sc.st.subs ==> out.subs[u] == sc.st.subs[u])
  {
    RemoveFirstCounts(sc.st.watchers, w);
    hide ReleaseAll;
  }

  // ----- what a watcher is told -----

  /** The message of a refused subscription names what is missing first: the arguments in order, then the group, the
      klass or the view that is not there; and a repeated one is refused. */
  lemma RefusalSays(groups: Groups, st: State, w: string, args: Option<Args>)
    ensures var reply := DoSubscribe(groups, st, w, args).1;
      match args
      case None => reply == Failed("Missing 2 required arguments, args.group and args.klass")
      case Some(Args(None, _, _)) => reply == Failed("Missing argument: args.group")
      case Some(Args(Some(_), None, _)) => reply == Failed("Missing argument: args.klass")
      case Some(Args(Some(_), Some(_), None)) => reply == Failed("Missing argument: args.view")
      case Some(Args(Some(g), Some(k), Some(v))) =>
        if g == "*" then reply == Subscribed
        else if g !in groups then reply == Failed("No such application group '" + g + "'")
        else if k !in groups[g].klasses then reply == Failed("No such klass '" + k + "'")
        else if v !in groups[g].klasses[k].views then reply == Failed("No such view '" + v + "'")
        else if w in st.subs && Subscription(g, k, v, st.subs[w].filters) == st.subs[w]
        then reply == Failed("Already subscribed.")
        else reply == Done
  {
    hide ActivateAll;
  }

  /** What is sent back: a success names the command and gives its result; a failure gives the handler's message, and
      clearing filters is reported as a failure without one. */
  lemma AnswerSays(groups: Groups, st: State, w: string, req: Request)
    ensures var answer := DoHandleCmd(groups, st, w, req).1;
      match req
      case SubscribeRequest(args) =>
        (match DoSubscribe(groups, st, w, args).1
         case Failed(message) => answer == Failure("Error: " + message)
         case Subscribed => answer == Success("subscribe", Subscribed)
         case _ => answer == Success("subscribe", Done))
      case AddFiltersRequest(filters, compiles) =>
        (match DoAddFilters(st, w, filters, compiles).1
         case Failed(message) => answer == Failure("Error: " + message)
         case _ => answer == Success("add_filters", Done))
      case ClearFiltersRequest =>
        if w in st.subs then answer == Failure("Command " + "clear_filters" + " handling failed.")
        else answer == Failure("Error: " + "You must subscribe to a view first!")
      case Unsupported(id) => answer == Failure("Unsupported command " + id + ".")
      case MissingId => answer == Failure("Invalid command structure; missing 'id' field.")
      case Undecodable => answer == Failure("Unable to decode command.")
  {
    match req {
      case SubscribeRequest(_) =>
        SubscribeReplies(groups, st, w, req);
        hide DoSubscribe;
      case AddFiltersRequest(_, _) =>
        hide Compiled;
      case _ =>
    }
  }

  lemma SubscribeReplies(groups: Groups, st: State, w: string, req: Request)
    ensures req.SubscribeRequest? ==>
      var reply := DoSubscribe(groups, st, w, req.args).1; reply.Failed? || reply == Subscribed || reply == Done
  {
    hide ActivateAll;
  }
}
