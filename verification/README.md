# A verified model of grind

grind reads delimited log streams, cuts them into records, matches the records against formats, klasses and views
written in Lua, and sends the rows the views commit to subscribed watchers. This project models its three connected
cores in Dafny and proves what they promise:

* **The log stream engine and its subscription index** (`Segmentation`, `Stream`, `Config`, `Registry`,
  `RegistryInvariant`, `RegistryLaws`, `Dispatch`, `DispatchLaws`, `Subscribers`, `ScanLaws`, `MessageLaws`, `Engine`,
  `EndToEnd`, `LiveStream`, `ViewHistory`, `KlassHistory`, `Phrases`, `Replays`, `PhrasesDelivered`, `PhrasesLost`,
  `Helpers`).
  `Segmentation` and `Stream` treat the delimiter as a test on windows of fixed width. `Registry` gives the commands as
  functions on states, `Dispatch` the handling of a record; the class `Engine.Grind` holds the tables `grind.handle`
  and the commands update in place, and each of its methods is proved against those functions. `Phrases` is one view
  that remembers stages across records.
* **The type runtime in the bindings** (`TypeNames`, `CastList`, `ClientData`, `ModuleRing`, `Loader`, `ModuleInit`,
  `ClassDetails`, `Hex`): heap structures with the pointers of the source, relinked in place.
* **The bridge between the server and Lua** (`LuaStack`, `ScriptEngine`, `Relay`): a stack machine, the binding helpers
  that push through it, and `pass_to_lua` with the start, stop and error paths around it.

Formats, matchers, formatters, regular expressions and called Lua functions are uninterpreted functions or parameters.
The order in which Lua's `pairs` visits a table is a parameter too: any function that lists each key once, a different
one for every chunk.

## What the proofs say about the code

Several promises hold only under a condition; the condition is proved exact wherever it is stated as "if and only if".

* Over a stream, cut in any way, exactly its records are emitted if and only if no two delimiters of that stream share
  more than one byte, because the search restarts on the last byte of the previous match. A delimiter of one byte makes
  the loop run forever.
* `text:sub(consumed)` keeps more than the unterminated tail. The surplus grows by one byte per emitting call, so with
  records of bounded length duplicates are inevitable in any stream that is handled in enough calls.
* Re-subscribing overwrites the old subscription without releasing its index entries. Views stay listed, and keepers
  stay attached, exactly when a claim was overwritten.
* Re-subscribing also drops the watcher's filters, and adding filters replaces all those set before.
* While a keeper is attached, klasses are also tried on formats they are not bound to, and every delivery is made once
  instead of once per listing.
* Formats that match the same record fill one shared entry. Deliveries, each taken together with the format its record
  was read by, are those of the plain scan in every order of visiting if and only if no format disturbs another: whatever
  others filled in before, each listed view sends the same rows to the same watchers. With a keeper attached the same
  holds for the scan over all klasses, and that is the scan of bound klasses if and only if no klass commits a wanted row
  for a format it is not bound to.
* The messages sent do not name the format. They are those of the scan, in every order of visiting, if formats do not
  disturb each other, and exactly if the shared entry, in every order of filling it, sends as a set what the entries
  filled by one format each send. With a keeper attached and that given, they are those of the scan of bound klasses if
  and only if each message of any klass is also one of a bound klass.
* A formatter runs once per listing of its view. Run once, the phrases view sends its watchers exactly the rows parsed
  off the records in the order of emission, in which records are repeated. A repeated block leaves all rows as they are
  if and only if the view waits for none of its lines; if that holds at every call, as it does in a run of tight calls,
  the rows are those of the stream, and if not, a row can be lost.
* Run more often per line, on lines that fill at most one stage each, it commits the same rows if and only if no phrase
  is skipped. It never reports a skipped phrase then, and can mix two phrases into one row.
* A request is reported as failed although it changed something if and only if it cleared a subscriber's filters.
* The comment on `SWIG_TypeEquiv` promises a comparison with every alternative; an empty one at the end is never visited.
* With null client data `SWIG_TypeClientData` ends if and only if no loop of casts over types without data can be reached.
  The generated program never gets there: its one call passes data that is not null.
* When both types of a cast were loaded before, the cast is found by name afterwards, but unless the list already had a
  record of that name, its record points to the newly loaded module's own copy of the type, which stands in no module's
  table. Every other cast leads to the structure that stands for its type.
* An attribute redeclared read-only is still written through a base's setter, an attribute anywhere up the hierarchy
  shadows a method, and in a diamond a later base undoes an earlier base's override.
* `pass_to_lua` pushes strings as formats of Lua 5.1, so text arrives unchanged if and only if it has no terminator
  and no percent sign in it is followed by `s`, `c`, `d`, `f`, `p`, `%` or nothing; a stream does so however it is cut
  into reads if and only if it has no terminator and no percent sign at all. An error inside `grind.stop` leaves the
  engine stopping for good with its state open. A configuration that fails with a message makes `handle_error` pop one
  value too many.

## Model

| member | source | states |
|---|---|---|
| `Segmentation.First` | scripts/grind.lua:113-114 | the leftmost occurrence at or after a position, and none before it: what `find(text, e)` means |
| `Segmentation.Find` | scripts/grind.lua:113-114 | 1-based bounds of the match, inside the text and not before the start index; the index is inclusive, so the last byte of the previous match is searched again |
| `Segmentation.CutRound` | scripts/grind.lua:108-121 | one round of the two-search loop: the end index strictly increases (so the loop ends), and the span it cuts is the next one of the plain scan, with `b2 - b` added up |
| `Segmentation.CutDone` | scripts/grind.lua:116-119 | when a search fails, the spans cut are all the spans of the text |
| `Segmentation.RecordIs` | scripts/grind.lua:121-129 | the stretch handed to the signature begins with the delimiter and ends before the next; the record is what follows the delimiter |
| `Segmentation.NarrowDelimiterStalls` | scripts/grind.lua:108-121 | a one-byte delimiter is found again where it was: why width 2 is needed |
| `Stream.Telescopes` | scripts/grind.lua:121 | the sum of `b2 - b` is the last delimiter's start minus the first's |
| `Stream.SpansExact` | scripts/grind.lua:108-129 | if no two delimiters of the text share more than one byte, one call cuts exactly the stretches between consecutive delimiters |
| `Stream.CarryLaw` | scripts/grind.lua:103-269 | after an emitting call the leftovers begin exactly p bytes before the last delimiter, p the 1-based position of the first; no delimiter follows |
| `Stream.RunTracks` | scripts/grind.lua:103-129 | after any chunks of a stream in which no two delimiters share more than one byte: leftovers are a suffix of the stream, the spans emitted so far are exactly its stretches, and no needed delimiter has been dropped |
| `Stream.ExactIffSpaced` | scripts/grind.lua:103-129 | for each stream and each chunking of it: the spans emitted are exactly the stretches between neighbouring delimiters if and only if no two delimiters of that very stream share more than one byte |
| `Stream.LosslessIffSpaced` | scripts/grind.lua:103-129 | no chunking of any stream loses or invents a record if and only if in no text two delimiters share more than one byte; an overlapping pair yields a stream that loses one |
| `Stream.TightLeavesNoRecord` | scripts/grind.lua:121-129 | a call leaves no complete record in the leftovers if and only if p is smaller than the length of its last record |
| `Stream.PositionGrows` | scripts/grind.lua:269 | after such an emitting call p is larger by exactly one, whatever comes next |
| `Stream.OnceIffTight` | scripts/grind.lua:103-129 | over a whole run every record is emitted once if and only if every call but the last is tight |
| `Stream.WholeIffTight` | scripts/grind.lua:103-129 | handled in chunks, a stream gives the very list of records, in order, that one call on the whole stream gives, if and only if every call but the last is tight |
| `Stream.StepReplays` | scripts/grind.lua:103-269 | a call emits again the last records of the stream so far, exactly those its leftovers still hold, and then the records it completes, in order |
| `Stream.DelimiterRecedes` | scripts/grind.lua:269 | in a tight run each emitting call has pushed the first delimiter one byte away from the front |
| `Stream.DuplicatesInevitable` | scripts/grind.lua:121-129 | records are bounded by `len` bytes and `len` calls have emitted before the last: some record has been emitted twice, for every stream |
| `Registry.RemoveFirstCounts` | scripts/helpers.lua:144-151 | `remove_by_cond` takes out one occurrence and keeps the multiset of the rest |
| `Registry.RemoveFirstIs` | scripts/helpers.lua:144-151 | it is the first occurrence that goes, and the others keep their order |
| `Registry.ActivateRelease` | scripts/api.lua:152-159 | an activated view comes last in its klass's list, a new list raises the counter; releasing the last view takes the list with it |
| `RegistryInvariant.ReachableConsistent` | scripts/api.lua:149-159 | after any interleaving of commands: occurrences of a view in a bound format's active list are (times bound) its live plus its overwritten subscriptions, `nr_active_klasses` is the number of keys, no stored list is empty, and keepers count live plus overwritten `*` subscriptions |
| `RegistryInvariant.SubscribeKeeps` | scripts/api.lua:116-163 | `subscribe`, accepted or refused, keeps that accounting, the claim it overwrites moving to the overwritten ones |
| `RegistryInvariant.RemoveKeeps` | scripts/grind.lua:586-635 | `remove_watcher` keeps that accounting |
| `RegistryInvariant.RefilterKeeps` | scripts/api.lua:165-201 | filter commands keep that accounting |
| `RegistryInvariant.ReleaseAllEffect` | scripts/grind.lua:608-619 | releasing a view from all formats of its klass takes out exactly as many entries as subscribing put in |
| `RegistryLaws.NoAbsentList` | scripts/grind.lua:608-619 | in every reachable state every list `remove_watcher` is about to edit exists, at every round of its loop |
| `RegistryLaws.RemoveTwice` | scripts/grind.lua:586-635 | removing twice is removing once if and only if the watcher was announced at most once |
| `RegistryLaws.IndexDetermined` | scripts/api.lua:149-159 | two histories with the same live and overwritten claims have the same keepers, lists and counters up to order |
| `RegistryLaws.SessionRestores` | scripts/grind.lua:581-635 | a fresh watcher that connects, subscribes and leaves restores every active list as a multiset, every counter, the subscriptions and the watchers |
| `RegistryLaws.KeepersComplete` | scripts/api.lua:128-133 | every live `*` subscriber is in `grind.keepers` in every reachable state |
| `RegistryLaws.StaleKeeperIff` | scripts/api.lua:128-133 | a watcher's keeper entries are exactly its live `*` subscription if and only if none of its `*` subscriptions was overwritten |
| `RegistryLaws.ResubscribingStaysKeeper` | scripts/grind.lua:586-591 | `*`, then a view, then leaving: the keeper entry stays with nobody subscribed |
| `RegistryLaws.LeftoverIff` | scripts/api.lua:144-159 | with nobody subscribed a view is still listed if and only if a claim on it was overwritten |
| `RegistryLaws.ResubscribingLeaks` | scripts/api.lua:144-159 | subscribe, re-subscribe elsewhere, leave: the first view stays listed for good, for every pair of targets |
| `RegistryLaws.SuccessIff` | scripts/grind.lua:536-579 | success is reported exactly for a subscription to something new that exists and for well-formed filters of a subscriber; never for clearing filters |
| `RegistryLaws.FailureChangesIff` | scripts/grind.lua:561-570 | a request is reported as failed although it changed the state if and only if it cleared a subscriber's filters |
| `Subscribers.SentIff` | scripts/grind.lua:191-252 | a watcher is sent a row exactly when the view commits it, the watcher is subscribed to the view or to everything, and each of its filters admits what the row shows in its field |
| `Subscribers.OneFilterSends` | scripts/grind.lua:220-245 | with one literal filter a committed row is sent exactly when its text in that field (empty if absent) equals the pattern, negated exactly when it does not; with a regular expression the match decides likewise |
| `Subscribers.FurtherFilterNarrows` | scripts/grind.lua:220-245 | with a further filter a row is sent exactly when it is sent with the filters before and with the new one alone |
| `Subscribers.SubscribeEffect` | scripts/api.lua:128-163 | an accepted subscription is to what was asked for and has no filters, whatever the watcher had before; a refused one changes nothing; nobody else is affected |
| `Subscribers.NewSubscriberWants` | scripts/api.lua:149 | the new subscriber wants every row of what it asked for and no other |
| `Subscribers.AddFiltersEffect` | scripts/api.lua:165-193 | accepted filters replace all set before: the rows wanted are those of the subscription that every given filter admits, leaving out expressions that do not compile |
| `Subscribers.ClearFiltersEffect` | scripts/api.lua:195-201 | every row of the subscription is wanted again |
| `Subscribers.ConnectEffect` | scripts/grind.lua:581-585 | a watcher that connects is listed once more, last, and nothing else changes |
| `Subscribers.LeaveEffect` | scripts/grind.lua:586-635 | a watcher that leaves is listed once less, has no subscription and is sent nothing; other subscriptions stay |
| `Subscribers.RefusalSays` | scripts/api.lua:116-147 | which message refuses a subscription: the first argument missing, the group, klass or view that is not there, or one already subscribed |
| `Subscribers.AnswerSays` | scripts/grind.lua:536-579 | the answer names the command and its result, or carries the handler's message |
| `DispatchLaws.SharedCount` | scripts/grind.lua:141-161 | a delivery is made once per listing of its view, decided by the entry as the formats visited so far have filled it |
| `ScanLaws.CapturesOfStretch` | scripts/grind.lua:123-127 | matched against the stretch alone, the signature captures what it captures of the delimiter the stretch begins with, and nothing if the stretch is shorter than that |
| `ScanLaws.AloneReads` | scripts/grind.lua:141-161 | what a format reads of the bytes between two delimiters: its extractor is given what the format captures of the bytes after the first, followed by what the signature captures of the first delimiter |
| `ScanLaws.AloneReadsShort` | scripts/grind.lua:121-161 | a stretch shorter than its delimiter holds an empty record and adds no captures of the signature |
| `ScanLaws.ReadersAre` | scripts/grind.lua:131-139 | the formats that read a record are those that match and capture something, as long as one of their views is listed or a keeper is attached |
| `ScanLaws.DispatchCount` | scripts/grind.lua:132-252 | if no format disturbs another on the record, every delivery is made as often as a scan of formats read alone says, in both branches |
| `ScanLaws.SharedShows` | scripts/grind.lua:132-161 | for any formats that may have filled the entry before, there is an order of visiting in which a listed delivery is made exactly when that entry sends it |
| `ScanLaws.CountsAsScannedIff` | scripts/grind.lua:132-252 | counted together with the format it was read by, each delivery is made as often as the scan says, in every order of visiting, if and only if no format disturbs another |
| `ScanLaws.IndexedCount` | scripts/grind.lua:132-252 | without keepers each delivery the scan finds is made once per occurrence of its view in the active list (at least once), and no other |
| `ScanLaws.IndexedIsScanIff` | scripts/grind.lua:170-252 | in every reachable state without keepers: the indexed dispatch and a scan of every format, bound klass, view and subscription make the same deliveries, each named with the format it was read by, in every order of visiting, if and only if no format disturbs another: whatever other formats filled in before, each listed view sends the same rows to the same watchers |
| `ScanLaws.ExclusiveUndisturbed` | scripts/grind.lua:131-161 | if at most one format matches the record, nothing is disturbed |
| `ScanLaws.SharedEntryLeaks` | scripts/grind.lua:141-161 | a concrete group whose two formats match the same record: a row carries a field its own format never read, and the scan does not find it |
| `ScanLaws.LeakyDisturbed` | scripts/grind.lua:141-161 | that group's formats do disturb each other |
| `ScanLaws.KeeperCount` | scripts/grind.lua:170-178 | with a keeper attached: exactly what a scan over all klasses, bound or not, finds, each delivery once |
| `ScanLaws.KeeperIsScanIff` | scripts/grind.lua:170-178 | the keeper branch makes the deliveries, formats included, that the scan of bound klasses finds if and only if no klass accepts a record of a format it is not bound to and then commits a row that somebody wants |
| `ScanLaws.KeeperStrays` | scripts/grind.lua:170-178 | a concrete group and keeper for which it sends more |
| `ScanLaws.RecordDelivers` | scripts/grind.lua:132-252 | both branches in every reachable state |
| `MessageLaws.SendsIffTells` | scripts/grind.lua:129-252 | a set of messages, which name group, klass, view and row but no format, is what the engine sends in every order of visiting if and only if it is what the shared entry sends in every order of filling it |
| `MessageLaws.IndexedMessagesIff` | scripts/grind.lua:129-252 | in every reachable state without keepers: the messages are those the scan finds, in every order of visiting, if and only if in every order of filling the shared entry sends, as a set, what the entries filled by one format each send |
| `MessageLaws.UndisturbedTells` | scripts/grind.lua:141-161 | it does so if no format disturbs another |
| `MessageLaws.DisturbedUnnoticed` | scripts/grind.lua:141-200 | a concrete group whose formats disturb each other although its messages are those of the scan |
| `MessageLaws.KeeperMessagesIff` | scripts/grind.lua:170-200 | with a keeper attached and a shared entry that does so: the messages are those of the scan of bound klasses if and only if each message of any klass is also one of a bound klass |
| `EndToEnd.StreamDelivers` | scripts/grind.lua:98-274 | whole stream, whole dispatch, with or without keepers: while no two delimiters of the stream share more than one byte and no format disturbs another on its records, the deliveries are exactly what the scan finds in the stretches of the stream, however it was cut and in whatever order tables were visited |
| `EndToEnd.FeedTracks` | scripts/grind.lua:98-274 | the same after every prefix of the chunks, with the leftovers |
| `EndToEnd.FeedIsDispatch` | scripts/grind.lua:98-274 | whatever history the callbacks keep: feeding chunks leaves the contexts and sends the messages of dispatching the emitted records over the whole stream, in order of emission |
| `EndToEnd.TightFeedIsWhole` | scripts/grind.lua:98-274 | in a run of tight calls, contexts and messages, in order, are those of the stream handled in one piece |
| `ViewHistory.SpansEffect` | scripts/grind.lua:129-266 | among everything that runs, a view that keeps to its own context ends with the context, and a watcher is sent the rows, of the view run alone on its inputs in order |
| `KlassHistory.KlassRunsAlone` | scripts/grind.lua:184-258 | among everything that runs, a klass with its views ends with the contexts, and causes the messages, of that klass run alone on its calls, each matcher and formatter given the klass context the one before it left |
| `KlassHistory.OtherGroupsStay` | scripts/grind.lua:98-274 | handling one group's records leaves the contexts of every other group as they were |
| `LiveStream.LiveDelivers` | scripts/grind.lua:98-274 | for every interleaving of commands and chunks: a delivery is made exactly when some call emits a record in which the scan finds it under the subscriptions and filters of that moment, in whatever order tables were visited |
| `LiveStream.LiveExact` | scripts/grind.lua:98-129 | over such an interleaving each stretch of the stream is emitted by some call, and nothing else is |
| `LiveStream.Perform` | scripts/grind.lua:98-274 | one command or chunk: the engine object goes from the state of a history to that of the history with it added |
| `LiveStream.Operate` | scripts/grind.lua:98-274 | a new engine object, given commands and chunks in any order, ends in that state and has made those deliveries |
| `Relay.AnyCuttingArrivesIff` | src/script_engine.cpp:287-306 | a stream reaches `grind.handle` unchanged however it is cut into reads if and only if it has no terminator and no percent sign |
| `Relay.ReadsDeliver` | src/script_engine.cpp:287-306 | for such a stream the deliveries are what the scan finds in its stretches, whatever the reads were |
| `Relay.RelayAll` | src/script_engine.cpp:287-306 | each read formatted and handled in turn on the engine object gives the run over the texts that arrive: same leftovers, contexts and deliveries |
| `Engine.RemoveByCond` | scripts/helpers.lua:144-151 | the loop removes the first match and nothing else |
| `Engine.Grind.constructor` | scripts/grind.lua:280-316 | a new engine is in the initial state, with empty leftovers and contexts, and the invariant holds |
| `Engine.Grind.AddWatcher` | scripts/grind.lua:581-585 | appends the watcher; the invariant is kept |
| `Engine.Grind.CheckTarget` | scripts/api.lua:117-142 | the checks pass exactly when all three arguments are there and name everything or an existing view |
| `Engine.Grind.HandleCmd` | scripts/grind.lua:536-579 | dispatch to the handlers and the answer made of what they return; the invariant is kept |
| `Engine.Grind.Subscribe` | scripts/api.lua:116-163 | new state and reply are those of the specification, the invariant is kept, and the overwritten claim is recorded |
| `Engine.Grind.MarkActive` | scripts/api.lua:152-159 | the loop over the klass's formats activates the view in each |
| `Engine.Grind.AddFilters` | scripts/api.lua:165-193 | replaces the filters, or fails and changes nothing when a field is not a table |
| `Engine.Grind.CollectFilters` | scripts/api.lua:173-188 | the loop keeps literal filters and regular expressions that compile, and fails if any field is malformed |
| `Engine.Grind.ClearFilters` | scripts/api.lua:195-201 | empties the filters; replies nothing on success |
| `Engine.Grind.RemoveWatcher` | scripts/grind.lua:586-635 | the new state is that of the specification and the invariant is kept |
| `Engine.Grind.MarkInactive` | scripts/grind.lua:608-619 | the loop releases the view in every format of the klass; each list it edits is there |
| `Engine.Grind.PassesFilters` | scripts/grind.lua:220-245 | true exactly when every filter passes, negations included; stops at the first that fails |
| `Engine.Grind.RelayRow` | scripts/grind.lua:208-252 | one message per subscription that selects the view and whose filters pass |
| `Engine.Grind.FormatView` | scripts/grind.lua:191-258 | runs the formatter, relays what it commits, and empties the view's context unless told to keep it |
| `Engine.Grind.FormatViews` | scripts/grind.lua:188-261 | the views in list order, contexts threaded through |
| `Engine.Grind.TryKlass` | scripts/grind.lua:175-264 | matcher first, views only if it accepts |
| `Engine.Grind.CollectFormats` | scripts/grind.lua:131-139 | the formats that are considered and match, in visiting order |
| `Engine.Grind.HandleRecord` | scripts/grind.lua:129-266 | one record: formats fill one shared entry in turn, klasses try it after each |
| `Engine.Grind.CutRecords` | scripts/grind.lua:108-267 | the record loop: all spans of the text in order, each dispatched, `consumed` their telescoped length |
| `Engine.Grind.Handle` | scripts/grind.lua:98-274 | one call: leftovers become `text:sub(consumed)` of leftovers plus chunk, the deliveries are those of the text's spans, subscriptions are untouched |
| `Phrases.PhrasesView.FormatLine` | share/grind/views/dakwak/requests/phrases.lua:25-89 | context and committed row after one call are those of the transition function |
| `Phrases.PhrasesView.FormatLines` | scripts/grind.lua:188-258 | one call per line with the context emptied after a commit gives the rows of the machine |
| `Phrases.NextIsLeast` | share/grind/views/dakwak/requests/phrases.lua:51-82 | the reference looks for the first line that fills a stage, and no earlier one does |
| `Phrases.RowsAreParsed` | share/grind/views/dakwak/requests/phrases.lua:37-88 | for every sequence of lines the rows committed are those of an independent parse: a phrase line and a skip or filter line right after it, or five lines filling the stages in order; each committed on its last line |
| `Phrases.RowWords` | share/grind/views/dakwak/requests/phrases.lua:40-77 | a completed row reports `Translated` exactly when the status line was captured as `was`, else `Proxied`, and `Yes` exactly when the link line was captured as `is`, else `No`; a skipped one reports `Skipped` or `Filtered` |
| `Phrases.RowsSeparate` | share/grind/views/dakwak/requests/phrases.lua:37-88 | no line feeds two rows: each starts after the previous commit |
| `Phrases.OnceIsRows` | scripts/grind.lua:188-191 | run once per line, the repeated machine is the machine above |
| `Phrases.SkipsLost` | scripts/grind.lua:188-191 | run more than once per line (one run per subscription) no row ever reports a skipped or filtered phrase |
| `Phrases.TwoRows` | share/grind/views/dakwak/requests/phrases.lua:37-88 | a skipped phrase followed by a complete one makes two rows |
| `Phrases.RepeatedRunsMixRows` | scripts/grind.lua:188-191 | with two subscribers the same lines make one row: the skipped phrase with the other's digest |
| `Phrases.RepeatedAgreesIff` | scripts/grind.lua:188-191 | on lines that each fill at most one stage, running the formatter any number of times above one per line commits the same rows as once if and only if no phrase is skipped |
| `PhrasesDelivered.PhrasesSent` | scripts/grind.lua:188-258 | the formatter installed as a view of the engine: whatever else runs, a watcher is sent the rows of the machine run on each accepted entry once per listing, as far as its filters let them through |
| `PhrasesDelivered.RowColumns` | share/grind/views/dakwak/requests/phrases.lua:11-21 | what stands in the columns of a row that is sent, read off the entries the view was given, each of them a line of the program, format and modules that it reads |
| `PhrasesDelivered.PhrasesOfRun` | share/grind/views/dakwak/requests/phrases.lua:23-89 | for every run, with the view listed once: the watcher is sent exactly the rows an independent parse reads off the records in the order in which they were emitted, as far as its filters let them through |
| `Replays.RowsCommitted` | share/grind/views/dakwak/requests/phrases.lua:23-89 | the rows of the machine, without their places, are those of one run after another |
| `Replays.HarmlessIffIdle` | share/grind/views/dakwak/requests/phrases.lua:37-88 | a block of lines that comes in between, such as the last lines once more, leaves the rows as they were whatever follows, if and only if the view waits for none of its lines: for a phrase line when it has none, for any line right after a phrase, else for the line of its next stage |
| `Replays.RepeatedPhraseLosesSkip` | share/grind/views/dakwak/requests/phrases.lua:37-49 | a phrase line that comes twice before the line that reports it skipped: no row; once: one row |
| `PhrasesDelivered.PhrasesOfStream` | share/grind/views/dakwak/requests/phrases.lua:23-89 | if at every call the view waits for no line of the records emitted again, the watcher is sent exactly the rows the parse reads off the stream's records, each taken once |
| `PhrasesDelivered.TightReplaysNothing` | scripts/grind.lua:121-129 | in a run of tight calls that holds, since nothing is emitted again |
| `PhrasesLost.LooseRun` | scripts/grind.lua:121-269 | a concrete stream in two chunks whose first record is emitted by both calls |
| `PhrasesLost.RowLost` | share/grind/views/dakwak/requests/phrases.lua:37-49 | over it the watcher of a phrases view is sent no row |
| `PhrasesLost.RowKept` | share/grind/views/dakwak/requests/phrases.lua:37-49 | over the same stream in one piece it is sent one |
| `TypeNames.CompareZero` | include/swigluaruntime.h:575-576 | `strcmp` is zero exactly on equal names |
| `TypeNames.CompareIs` | include/swigluaruntime.h:575-584 | the first difference decides, and of two names of which one begins the other the shorter comes first |
| `TypeNames.SignedAt` | include/swigluaruntime.h:378 | bytes from 128 on count as negative when readable names are compared |
| `TypeNames.StrippedParts` | include/swigluaruntime.h:376-377 | only the byte 32 is left out, wherever it stands |
| `TypeNames.CompareFlip` | include/swigluaruntime.h:575-584 | it is antisymmetric |
| `TypeNames.CompareTransitive` | include/swigluaruntime.h:575-584 | and transitive, so a sorted table can be bisected |
| `TypeNames.TypeNameComp` | include/swigluaruntime.h:372-381 | the sign of the result is the lexicographic order of the space-stripped names |
| `TypeNames.EqualButForSpaces` | include/swigluaruntime.h:365-381 | that comparison is zero exactly on equality modulo spaces |
| `TypeNames.TypeEquiv` | include/swigluaruntime.h:387-400 | 1 exactly when one of the alternatives the loop visits is equal in that sense |
| `TypeNames.EquivMissesOpenEnd` | include/swigluaruntime.h:392-398 | some `|`-separated part is equal if and only if the loop finds one or the only one is the empty part at the very end |
| `TypeNames.PartsJoin` | include/swigluaruntime.h:392-398 | the parts contain no `|` and give the name when joined with it |
| `CastList.Relink` | include/swigluaruntime.h:433-440 | moves one record to the front and leaves a proper doubly linked list with the others in order |
| `CastList.TypeCheck` | include/swigluaruntime.h:425-447 | returns the first record of a type of that name, exactly when there is one, and leaves it in front |
| `CastList.TypeCheckStruct` | include/swigluaruntime.h:452-474 | the same by identity of the type |
| `CastList.LookUpsAreTransparent` | include/swigluaruntime.h:425-474 | after any sequence of lookups: the same records, those never asked for in their old order, the last one found in front, and every lookup answers as at the start |
| `CastList.CheckNames` | include/swigluaruntime.h:425-447 | any sequence of lookups on a linked list in memory: it stays proper, its records move as that law says, and each answer is the one the list gave at the start |
| `CastList.PushCast` | src/bindings/SWIG/wrappers/lua_grind_wrap.cxx:2701-2705 | a fresh record becomes the head of a proper list |
| `ClientData.GraphIs` | include/swigluaruntime.h:538-543 | data passes from a type to another exactly if the type's list has a record of the other without a converter |
| `ClientData.TypeClientData` | include/swigluaruntime.h:531-546 | with non-null data it ends on every cast graph; every type it newly marks has only converter-free neighbours with data; nobody but the argument has data overwritten; no type outside a closed set around the argument is touched |
| `ClientData.VisitCast` | include/swigluaruntime.h:538-543 | one record: afterwards its type has data if the record has no converter |
| `ClientData.MarkedIsLeast` | include/swigluaruntime.h:531-546 | the types given data are the least set around the argument closed under converter-free casts to types without data |
| `ClientData.NullDataReturnsIff` | include/swigluaruntime.h:531-546 | with null data the recursion ends if and only if no loop of converter-free casts over types without data can be reached, self casts included |
| `ClientData.TypeClientDataNull` | include/swigluaruntime.h:531-546 | the loop with null data, cut off at a given depth: it returns exactly when that recursion does within the depth, and marks nothing |
| `ClientData.PropagateType` | src/bindings/SWIG/wrappers/lua_grind_wrap.cxx:2745-2755 | one type of the module passes its data to every converter-free neighbour |
| `ClientData.PropagateClientData` | src/bindings/SWIG/wrappers/lua_grind_wrap.cxx:2736-2757 | after the first run every type of the module with data has only neighbours with data, and no data is lost or changed; later runs do nothing |
| `ModuleRing.Bisect` | include/swigluaruntime.h:567-591 | agrees with a linear search in a sorted table; indices stay inside the table and unsigned |
| `ModuleRing.NamedOnIs` | include/swigluaruntime.h:561-595 | which entry answers for a name: no entry of an earlier table and no earlier one of its own has it; without an answer nobody has it |
| `ModuleRing.MangledTypeQuery` | include/swigluaruntime.h:561-595 | the entry of the first module, in ring order from `start`, whose table has the name; null if none has |
| `ModuleRing.TypeQuery` | include/swigluaruntime.h:606-630 | mangled names of all modules first, then readable names in the same order |
| `ModuleRing.ScanDescriptions` | include/swigluaruntime.h:621-624 | the first type of a table one of whose readable names is equal but for spaces |
| `Loader.CheckOld` | src/bindings/SWIG/wrappers/lua_grind_wrap.cxx:2688-2694 | the lookup finds a record exactly when the list has one of that name, and keeps all lists |
| `Loader.InsertCast` | src/bindings/SWIG/wrappers/lua_grind_wrap.cxx:2669-2707 | one cast: afterwards it is found by name; the loaded type itself is among the list's targets if and only if the list is this module's own or it was there before; the record is redirected exactly when its row's type is this module's own and its target loaded, and entered unless both were loaded before and the list had one of the name |
| `Loader.InsertRow` | src/bindings/SWIG/wrappers/lua_grind_wrap.cxx:2665-2708 | the loop over a row: every cast of it is found by name, no record is lost, other lists are untouched; where each record of the row casts from and whether it was entered |
| `Loader.Adopt` | src/bindings/SWIG/wrappers/lua_grind_wrap.cxx:2646-2663 | the structure that stands for a type: the loaded one of its name with this module's client data if there is any, else the module's own |
| `Loader.LoadType` | src/bindings/SWIG/wrappers/lua_grind_wrap.cxx:2637-2711 | one type with its row: the records of an own type's row are redirected to the structures that stand for their targets, those of an adopted type's row stay with this module's copies |
| `Loader.FillTypes` | src/bindings/SWIG/wrappers/lua_grind_wrap.cxx:2637-2712 | the whole table: each entry is the structure unified by name, every generated cast is found in its list, and every record of every row has been redirected and entered as for one type |
| `Loader.JoinRing` | src/bindings/SWIG/wrappers/lua_grind_wrap.cxx:2590-2625 | the modules form one cycle, each once, before and after; the newcomer follows the head; a module already there is recognised |
| `Loader.InitializeModule` | src/bindings/SWIG/wrappers/lua_grind_wrap.cxx:2582-2712 | loading keeps the whole runtime invariant (one cycle, proper lists, every generated cast found by name, each record casting from the structure it should, equal names one structure) and no type loses its client data; between two adopted types a record is entered exactly if the list had none of its name; loading again changes nothing |
| `Loader.RingHasWay` | include/swigluaruntime.h:565-593 | from any module of the ring to any other, or once around, there is a way that meets the end: every query ends |
| `Loader.LoadedIsFound` | include/swigluaruntime.h:561-595 | in a loaded runtime, asking once around from any module for the name of a loaded type finds that very type |
| `Loader.CastLeadsTo` | src/bindings/SWIG/wrappers/lua_grind_wrap.cxx:2676-2706 | in a loaded runtime a generated cast leads to the structure that stands for its type unless both its types were adopted; then, and only then, it leads to this module's own copy, which no table has |
| `Loader.FindTarget` | include/swigluaruntime.h:452-474 | asking the list of a module's own type for the structure that stands for the type of one of its casts, by identity, finds a record of it |
| `Loader.LoadAll` | src/bindings/SWIG/wrappers/lua_grind_wrap.cxx:2582-2712 | any sequence of generated modules, repetitions included: all are in the ring, each once, with type identity, every declared cast found by name, and every cast in the row of a module's own type leading to a structure of its table |
| `ModuleInit.RuntimeRepresents` | src/bindings/SWIG/wrappers/lua_grind_wrap.cxx:2736-2757 | whatever has been loaded, every record of a list leads to a type that has a list: a graph client data can be spread over |
| `ModuleInit.Init` | src/bindings/SWIG/wrappers/lua_grind_wrap.cxx:2789-2790 | loading a module and then spreading data: the runtime invariant holds, no type has lost its data, each type of the module that was generated with data has some, and converter-free records of its types with data lead to types with data |
| `ClassDetails.Metatable.AddClassVariables` | include/swigluaruntime.h:1176-1190 | getters always, setters only where declared, the last declaration winning |
| `ClassDetails.Metatable.AddOperators` | include/swigluaruntime.h:1216-1220 | methods whose names start with two underscores go into the metatable, others do not |
| `ClassDetails.Metatable.AddClassDetails` | include/swigluaruntime.h:1193-1221 | on any acyclic hierarchy every name in every table resolves to the class's own definition, else to that of the last listed base (before the first empty slot) that provides it, recursively, over what was there |
| `ClassDetails.Bindings.Register` | include/swigluaruntime.h:1246-1285 | the constructor becomes a function of the class's name; a fresh metatable with the class's name, exactly its names and the preset handlers replaces any registered before; other classes are untouched |
| `ClassDetails.ResolvesAlongLine` | include/swigluaruntime.h:1193-1221 | that recursive rule is the last definition along one linear order of the hierarchy, bases first |
| `ClassDetails.OwnAttributeIs` | include/swigluaruntime.h:1176-1190 | of several attributes of one name the last counts, for the getter and, if it has one, the setter |
| `ClassDetails.OwnMethodIs` | include/swigluaruntime.h:1204-1220 | of several methods of one name the last counts; it is an operator if its name starts with two underscores |
| `ClassDetails.DefinitionSurvivesIff` | include/swigluaruntime.h:1193-1221 | a class's definition survives if and only if no class after it on the line defines the name, or the last one that does gives the same function |
| `ClassDetails.AttributesShadowMethods` | include/swigluaruntime.h:1031-1078 | a method is reached if and only if no class on the line has an attribute of its name |
| `ClassDetails.ReadOnlyIff` | include/swigluaruntime.h:1176-1190 | an attribute redeclared without setter is read-only if and only if no base on the line declares one with a setter |
| `ClassDetails.ReadOnlyOutlived` | include/swigluaruntime.h:1183-1189 | a concrete class whose read-only attribute is still written through its base's setter |
| `ClassDetails.DiamondUndoesOverride` | include/swigluaruntime.h:1196-1200 | a concrete diamond where a later base undoes the override of an earlier one |
| `Hex.PackData` | include/swigluaruntime.h:635-646 | writes two lowercase digits a byte at `c` and nothing else, and returns the end |
| `Hex.PackedAt` | include/swigluaruntime.h:635-646 | each byte is written as its high and then its low half, in lowercase digits |
| `Hex.UnpackData` | include/swigluaruntime.h:651-674 | success, rest of the text, and the destination: the bytes before the first bad pair are overwritten even when it fails |
| `Hex.PackThenUnpack` | include/swigluaruntime.h:635-674 | unpacking packed bytes gives them back, whatever follows |
| `Hex.UnpackThenPack` | include/swigluaruntime.h:635-674 | packing what was read gives back the same digits |
| `Hex.UnpackSucceedsIff` | include/swigluaruntime.h:651-674 | unpacking succeeds exactly on texts that begin with that many lowercase digits |
| `Hex.PackDataName` | include/swigluaruntime.h:703-716 | succeeds exactly when the stated bound fits, writes the text and its terminator and no further, else touches nothing |
| `Hex.PackVoidPtr` | include/swigluaruntime.h:679-688 | the same bound in two checks: a name that does not fit leaves unterminated digits behind |
| `Hex.UnpackDataName` | include/swigluaruntime.h:690-729 | named text, `NULL` and anything else; the pointer form is the instance with the pointer's bytes |
| `Hex.NamedRoundTrip` | include/swigluaruntime.h:703-729 | bytes and name both come back, whatever was in the destination |
| `Hex.NamedTextIs` | include/swigluaruntime.h:690-729 | an underscore, the digits, the name; `NULL` stands for zeros, and any other text gives nothing and leaves the destination alone |
| `Hex.PackAndUnpack` | include/swigluaruntime.h:703-729 | the same through a real buffer |
| `Helpers.FindPlain` | scripts/helpers.lua:80 | the first occurrence at or after a position, or none |
| `Helpers.SplitMcd` | scripts/helpers.lua:71-94 | the parts joined with the delimiter give the input, cut at the leftmost delimiters |
| `Helpers.PartsAreFree` | scripts/helpers.lua:78-91 | no part contains the delimiter |
| `Helpers.SplitUnique` | scripts/helpers.lua:71-94 | no other list of parts has these two properties |
| `LuaStack.LuaState.GetModule` | include/swigluaruntime.h:869-878 | reads the module pointer and leaves the stack as it was |
| `LuaStack.LuaState.GetClassRegistry` | include/swigluaruntime.h:1149-1164 | pushes the class registry, creating an empty one exactly when there is none |
| `LuaStack.LuaState.GetClassMetatable` | include/swigluaruntime.h:1167-1173 | pushes one value, the class's metatable if it is registered |
| `LuaStack.LuaState.AddMetatable` | include/swigluaruntime.h:1292-1306 | height unchanged; the object gets its class's metatable or none |
| `LuaStack.LuaState.NewPointerObj` | include/swigluaruntime.h:1309-1321 | pushes exactly one value on every path |
| `ScriptEngine.FormattedUnchangedIff` | src/script_engine.cpp:242-243 | an argument string arrives in Lua 5.1 unchanged if and only if it has no terminator and every percent sign is followed by a character other than `s c d f p %` |
| `ScriptEngine.ScriptEngine.PushUserdata` | src/script_engine.cpp:203-212 | one value: the pointer wrapped with its type and metatable, or nil |
| `ScriptEngine.ScriptEngine.PushArgs` | src/script_engine.cpp:239-249 | one value per argument, in order |
| `ScriptEngine.ScriptEngine.Extract` | src/script_engine.cpp:264-273 | what each extractor pops; `on_grind_start` sets `running_` to the result's truth |
| `ScriptEngine.ScriptEngine.PassToLua` | src/script_engine.cpp:214-285 | for every argument count, return count and argument kind: the arbitrator is called with name and arguments in order, and on success the stack is as at entry if and only if the extractor pops exactly the results; on failure it throws without underflow and the state is closed unless stopping |
| `ScriptEngine.ScriptEngine.HandleError` | src/script_engine.cpp:170-199 | closes the state unless stopping; pops more than there is if and only if the stack is empty or holds nothing but a text; an error that is no text leaves one slot behind |
| `ScriptEngine.ScriptEngine.Stop` | src/script_engine.cpp:149-168 | calls `grind.stop` and closes the state if and only if that goes through; otherwise the engine stays stopping with the state open, and every later stop and start does nothing |
| `ScriptEngine.ScriptEngine.Start` | src/script_engine.cpp:98-135 | a started engine has its stack as configured, has called `grind.start` with the kernel's pointer, and runs exactly if that returned something that is neither nil nor false; a second start does nothing; a configuration that fails with a text makes the error handler pop more than there is |
| `ScriptEngine.ScriptEngine.Relay` | src/script_engine.cpp:287-306 | one `grind.handle` call with the formatted buffer and the label, stack restored |

## Left out

- Segmentation.Find: delimiters are tests on windows of fixed width; regular expressions whose matches vary in length, or look around, are not modelled.
- MessageLaws.IndexedMessagesIff: messages as a set, not how often each is sent.
- ScanLaws.IndexedIsScanIff: for callbacks whose answers do not depend on their contexts; `Engine.Grind.Handle` says what holds for all, `EndToEnd.FeedIsDispatch` and `ViewHistory.SpansEffect` for callbacks with a history.
- EndToEnd.StreamDelivers: subscriptions stay put while the stream is fed (`LiveStream.LiveDelivers` lets them change between chunks), and no format disturbs another on its records.
- LiveStream.LiveDelivers: no format disturbs another on the records a call emits; commands come between calls of `handle`, as they do in the source.
- EndToEnd.TightFeedIsWhole: tables are visited in the same order in every call.
- PhrasesDelivered.PhrasesOfRun: the same, and the test on an entry's module is a parameter; an absent module or content counts as empty where Lua would raise an error.
- Replays.HarmlessIffIdle: the "only if" half is for extractors that can be told apart, by a line for each that no other matches.
- Phrases.RepeatedAgreesIff: lines that can fill two stages are not covered.
- ClientData.TypeClientDataNull: the recursion is cut off at a depth, since a call that never returns has no final heap.
- Loader.InitializeModule: one interpreter; a module object shared by several is not modelled, nor are null entries inside a type table.
- TypeNames.TypeNameComp: names with trailing spaces are outside its precondition; the difference of lengths is not truncated to `int`.
- ModuleRing.TypeQuery: as for names, no alternative may end in spaces.
- ClassDetails.Bindings.Register: destructors and the lookup that fills base slots from names are not modelled; a cyclic hierarchy has no value here (the source would not end).
- Hex.PackDataName: sizes are unbounded, so the sum in the bound cannot wrap around; masks and shifts on bytes are written as division and remainder.
- ScriptEngine.ScriptEngine.PassToLua: the called Lua code changes nothing the bridge reads, except what it returns; strings that ask for an argument that is not there, or end in a percent sign, are outside its precondition, as is a missing module or type for a pointer argument. Errors that are numbers count as text.
- ScriptEngine.ScriptEngine.Start: whether running the configuration fails is a parameter.
- ScriptEngine.ScriptEngine.HandleError: with the error handling the constructor leaves set, which throws; the other setting stops the kernel instead.
- Sockets, asio strands, threads, mutexes and timers: transport only. Reads are cut at the first zero byte there.
- PCRE, JSON and Lua itself, `entry_t`, logging, configuration search, script loading, `grind.start` and `grind.stop`.
- The query and purge commands, and the decoding of requests: stateless.
- Redefining groups, formats, klasses or views while the engine runs: configuration is fixed.
- Other views, klasses and groups under `share/grind`: stateless record reshaping.
- `_wrap_*` functions, `SWIG_TypeCast`, `SWIG_TypeDynamicCast` and member-pointer packing: argument checking and calls into generated code.
- The arbitrator's walk through Lua's global table after splitting the name.
