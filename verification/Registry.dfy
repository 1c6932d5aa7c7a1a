/** Subscriptions and the hand-kept index of active views: `subscribe`, the filter commands, `add_watcher`,
    `remove_watcher`. */
module Registry {
  import opened Lua
  import opened Config

  /** `{ is_regex, pattern, is_negated }`. */
  datatype Filter = Filter(isRegex: bool, pattern: string, negated: bool)

  /** `{ group, klass, view, watcher, filters }`, keyed by the watcher's `whois`; "*" in all three for a keeper. */
  datatype Subscription = Subscription(group: string, klass: string, view: string, filters: map<string, Filter>)

  /** `format.active_klasses`: per klass label, the active views in insertion order. */
  type ActiveKlasses = map<string, seq<string>>

  /** A format's label within its group. */
  datatype FormatId = FormatId(group: string, format: string)

  datatype FormatState = FormatState(active: ActiveKlasses, nrActive: int)

  type Index = map<FormatId, FormatState>

  datatype State = State(watchers: seq<string>, keepers: seq<string>, subs: map<string, Subscription>, index: Index)

  datatype Args = Args(group: Option<string>, klass: Option<string>, view: Option<string>)

  /** A field of `add_filters`' arguments; a value that is not a table fails the whole command. */
  datatype FilterArg = Malformed | FilterArg(isRegex: bool, pattern: string, negated: bool)

  datatype Reply = Failed(message: string) | Subscribed | Done | NoResult

  // ----- helpers.lua: remove_by_cond -----

  function RemoveFirst(s: seq<string>, x: string): seq<string> {
    if s == [] then []
    else if s[0] == x then s[1..]
    else [s[0]] + RemoveFirst(s[1..], x)
  }

  lemma {:induction false} RemoveFirstCounts(s: seq<string>, x: string)
    ensures multiset(RemoveFirst(s, x)) == multiset(s) - multiset{x}
    ensures |RemoveFirst(s, x)| == if x in s then |s| - 1 else |s|
  {
    if s != [] {
      assert s == [s[0]] + s[1..];
      RemoveFirstCounts(s[1..], x);
    }
  }

  /** It is the first occurrence that goes, and the others keep their order. */
  lemma {:induction false} RemoveFirstIs(s: seq<string>, x: string) returns (i: nat)
    requires x in s
    ensures i < |s| && s[i] == x && x !in s[..i] && RemoveFirst(s, x) == s[..i] + s[i + 1..]
  {
    if s[0] == x {
      i := 0;
    } else {
      i := RemoveFirstIs(s[1..], x);
      assert s[1..][..i] == s[1..i + 1] && s[1..][i + 1..] == s[i + 2..];
      i := i + 1;
    }
  }

  // ----- the index -----

  function Activate(fs: FormatState, klass: string, view: string): FormatState {
    if klass in fs.active then fs.(active := fs.active[klass := fs.active[klass] + [view]])
    else FormatState(fs.active[klass := [view]], fs.nrActive + 1)
  }

  function Release(fs: FormatState, klass: string, view: string): FormatState {
    if klass !in fs.active then fs
    else
      var views := RemoveFirst(fs.active[klass], view);
      if views == [] then FormatState(fs.active - {klass}, fs.nrActive - 1)
      else fs.(active := fs.active[klass := views])
  }

  /** A view that is activated comes last in its klass's list, and a new list raises the counter; one that is released
      leaves the others in their order, and the last one takes the list with it. */
  lemma ActivateRelease(fs: FormatState, klass: string, view: string)
    ensures var now := Activate(fs, klass, view);
      var listed := if klass in fs.active then fs.active[klass] else [];
      && now.active == fs.active[klass := listed + [view]]
      && now.nrActive == fs.nrActive + (if klass in fs.active then 0 else 1)
    ensures klass in fs.active && view in fs.active[klass] ==>
      var now, listed := Release(fs, klass, view), fs.active[klass];
      if listed == [view] then now == FormatState(fs.active - {klass}, fs.nrActive - 1)
      else exists i :: 0 <= i < |listed| && listed[i] == view && view !in listed[..i]
                       && now == FormatState(fs.active[klass := listed[..i] + listed[i + 1..]], fs.nrActive)
  {
    assert [] + [view] == [view];
    if klass in fs.active && view in fs.active[klass] {
      var listed := fs.active[klass];
      var i := RemoveFirstIs(listed, view);
      assert |RemoveFirst(listed, view)| == |listed| - 1;
      assert |listed| == 1 ==> listed == [view];
    }
  }

  /** The loop over `klass.formats` in `subscribe`. */
  function ActivateAll(index: Index, group: string, formats: seq<string>, klass: string, view: string): Index {
    if formats == [] then index
    else
      var n := |formats| - 1;
      var before := ActivateAll(index, group, formats[..n], klass, view);
      var id := FormatId(group, formats[n]);
      if id in before then before[id := Activate(before[id], klass, view)] else before
  }

  /** The loop over `klass.formats` in `remove_watcher`. */
  function ReleaseAll(index: Index, group: string, formats: seq<string>, klass: string, view: string): Index {
    if formats == [] then index
    else
      var n := |formats| - 1;
      var before := ReleaseAll(index, group, formats[..n], klass, view);
      var id := FormatId(group, formats[n]);
      if id in before then before[id := Release(before[id], klass, view)] else before
  }

  // ----- the commands -----

  const STAR := Subscription("*", "*", "*", map[])

  /** The argument checks of `subscribe`, in order. */
  function SubscribeError(groups: Groups, args: Option<Args>): Option<string> {
    match args
    case None => Some("Missing 2 required arguments, args.group and args.klass")
    case Some(a) =>
      if a.group == None then Some("Missing argument: args.group")
      else if a.klass == None then Some("Missing argument: args.klass")
      else if a.view == None then Some("Missing argument: args.view")
      else if a.group.value == "*" then None
      else if a.group.value !in groups then Some("No such application group '" + a.group.value + "'")
      else if a.klass.value !in groups[a.group.value].klasses then Some("No such klass '" + a.klass.value + "'")
      else if a.view.value !in groups[a.group.value].klasses[a.klass.value].views
        then Some("No such view '" + a.view.value + "'")
      else None
  }

  /** Something to subscribe to: all three arguments are there, and they name a view, or everything. */
  ghost predicate Subscribable(groups: Groups, args: Option<Args>) {
    && args.Some? && args.value.group.Some? && args.value.klass.Some? && args.value.view.Some?
    && var Args(Some(g), Some(k), Some(v)) := args.value;
       g == "*" || (g in groups && k in groups[g].klasses && v in groups[g].klasses[k].views)
  }

  function SameTarget(s: Subscription, group: string, klass: string, view: string): bool {
    s.group == group && s.klass == klass && s.view == view
  }

  function DoSubscribe(groups: Groups, st: State, w: string, args: Option<Args>): (State, Reply) {
    var error := SubscribeError(groups, args);
    if error.Some? then (st, Failed(error.value))
    else Enter(groups, st, w, args.value.group.value, args.value.klass.value, args.value.view.value)
  }

  /** `subscribe` once the arguments are accepted. */
  function Enter(groups: Groups, st: State, w: string, group: string, klass: string, view: string): (State, Reply)
    requires group != "*" ==> group in groups && klass in groups[group].klasses
  {
    if group == "*" then
      (st.(subs := st.subs[w := STAR], keepers := st.keepers + [w]), Subscribed)
    else if w in st.subs && SameTarget(st.subs[w], group, klass, view) then
      (st, Failed("Already subscribed."))
    else
      var formats := groups[group].klasses[klass].formats;
      (st.(subs := st.subs[w := Subscription(group, klass, view, map[])],
           index := ActivateAll(st.index, group, formats, klass, view)), Done)
  }

  const NOT_SUBSCRIBED := Failed("You must subscribe to a view first!")
  const MALFORMED := Failed("Invalid command structure; field value must be a table: "
                            + "{ is_regex = bool, value = string }")

  function Compiled(args: map<string, FilterArg>, compiles: string -> bool): map<string, Filter> {
    map f | f in args && args[f].FilterArg? && (args[f].isRegex ==> compiles(args[f].pattern))
      :: Filter(args[f].isRegex, args[f].pattern, args[f].negated)
  }

  function DoAddFilters(st: State, w: string, args: map<string, FilterArg>, compiles: string -> bool): (State, Reply) {
    if w !in st.subs then (st, NOT_SUBSCRIBED)
    else if exists f :: f in args && args[f].Malformed? then (st, MALFORMED)
    else (st.(subs := st.subs[w := st.subs[w].(filters := Compiled(args, compiles))]), Done)
  }

  function DoClearFilters(st: State, w: string): (State, Reply) {
    if w !in st.subs then (st, NOT_SUBSCRIBED)
    else (st.(subs := st.subs[w := st.subs[w].(filters := map[])]), NoResult)
  }

  function DoAddWatcher(st: State, w: string): State {
    st.(watchers := st.watchers + [w])
  }

  function DoRemoveWatcher(groups: Groups, st: State, w: string): State {
    var st1 := st.(watchers := RemoveFirst(st.watchers, w));
    if w !in st.subs then st1
    else
      var sub := st.subs[w];
      var st2 := st1.(subs := st.subs - {w});
      if sub.group == "*" then st2.(keepers := RemoveFirst(st.keepers, w))
      else if sub.group !in groups || sub.klass !in groups[sub.group].klasses then st2
      else st2.(index := ReleaseAll(st.index, sub.group, groups[sub.group].klasses[sub.klass].formats, sub.klass,
        sub.view))
  }

  // ----- handle_cmd -----

  /** A watcher's message: not a table, without an id, for no known command, or one of the commands that change the
      state. */
  datatype Request =
    | Undecodable
    | MissingId
    | Unsupported(id: string)
    | SubscribeRequest(args: Option<Args>)
    | AddFiltersRequest(filters: map<string, FilterArg>, compiles: string -> bool)
    | ClearFiltersRequest

  /** What is sent back. */
  datatype Answer = Failure(message: string) | Success(command: string, result: Reply)

  /** A handler that returned no result has failed, with its message if it gave one. */
  function AnswerTo(id: string, reply: Reply): Answer {
    match reply
    case Failed(message) => Failure("Error: " + message)
    case NoResult => Failure("Command " + id + " handling failed.")
    case _ => Success(id, reply)
  }

  function DoHandleCmd(groups: Groups, st: State, w: string, req: Request): (State, Answer) {
    match req
    case Undecodable => (st, Failure("Unable to decode command."))
    case MissingId => (st, Failure("Invalid command structure; missing 'id' field."))
    case Unsupported(id) => (st, Failure("Unsupported command " + id + "."))
    case SubscribeRequest(args) =>
      var (out, reply) := DoSubscribe(groups, st, w, args);
      (out, AnswerTo("subscribe", reply))
    case AddFiltersRequest(filters, compiles) =>
      var (out, reply) := DoAddFilters(st, w, filters, compiles);
      (out, AnswerTo("add_filters", reply))
    case ClearFiltersRequest =>
      var (out, reply) := DoClearFilters(st, w);
      (out, AnswerTo("clear_filters", reply))
  }

  // ----- runs -----

  datatype Event =
    | AddWatcher(w: string)
    | Subscribe(w: string, args: Option<Args>)
    | AddFilters(w: string, filters: map<string, FilterArg>, compiles: string -> bool)
    | ClearFilters(w: string)
    | RemoveWatcher(w: string)

  function Apply(groups: Groups, st: State, e: Event): State {
    match e
    case AddWatcher(w) => DoAddWatcher(st, w)
    case Subscribe(w, args) => DoSubscribe(groups, st, w, args).0
    case AddFilters(w, filters, compiles) => DoAddFilters(st, w, filters, compiles).0
    case ClearFilters(w) => DoClearFilters(st, w).0
    case RemoveWatcher(w) => DoRemoveWatcher(groups, st, w)
  }

  function FormatIds(groups: Groups): set<FormatId> {
    set g, f | g in groups && f in groups[g].formats :: FormatId(g, f)
  }

  function Initial(groups: Groups): State {
    State([], [], map[], map id | id in FormatIds(groups) :: FormatState(map[], 0))
  }

  function Run(groups: Groups, events: seq<Event>): State {
    if events == [] then Initial(groups)
    else Apply(groups, Run(groups, events[..|events| - 1]), events[|events| - 1])
  }
}
