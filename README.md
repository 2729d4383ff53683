# Event store projections: polling subscription, MySQL state list, jobs manager

A Dafny model of three parts of the node event store's projection layer, with proofs of what
each part promises.

- **The event polling subscription.** A subscriber registers a token, a start revision and a
  callback. A catch-up task reads windows `[min, min + W]` of the stream from the stream
  buffer, falls back to the event store, offers the store's events to the buffer and hands
  them to that subscriber. It stops at the first window that both sources miss. Meanwhile a
  live loop polls the store for the current window, offers what it finds to the buffer and
  broadcasts it to every subscriber. `unsubscribe`, `deactivate` and `activate` stop and
  restart that loop.
  - The implementation of this component is not part of this model. The model follows what
    `jasmine/eventPollingSubscription.jasmine-spec.js` asserts about it.
  - The store is a gap-free log (`log[i].revision == i`) and the buffer a function from a
    window to the events it holds.
  - Everything the component does to its collaborators is one trace of calls: a read of the
    store's last event, a buffer read, a store read, an offer to the buffer, or an invocation
    of a callback.
  - A callback is one abstract outcome: it acknowledges, fails, never calls back, or is
    undefined.
- **The MySQL state list** (`eventstore-statelist-mysql-store.js`).
  - `init` checks the options and creates a pool.
  - `createList` builds a `CREATE TABLE` statement from the list's fields and secondary keys.
  - `set`, `push` and `delete` append UPDATE, CREATE and DELETE rows.
  - `filter` and `find` build a SELECT of the latest row per index. Its WHERE conditions come
    from filter records, grouped by `group` and then by `groupBooleanOperator`.
  - The class records every statement it sends. The database's answers are parameters.
- **The jobs manager** (`jobs-manager.js`).
  - It checks `queueJob` and `processJobGroup` arguments in the source's order.
  - It keeps a table of one queue per job group, created on first use, and a table of jobs by id.
  - It chooses the options a job is queued with.
  - It flattens a stored job result into a Redis key/value array.
  - It carries the last result of a job into its next run.
  - The queues are a class that records what was added to them and each process registration.

`JSON.stringify` and `JSON.parse` are function parameters. Numbers are the safe integers of
JavaScript. Where a property may be missing, the model uses JavaScript's own values
(`JsUndefined`, `JsNull`, truthiness, `String(v)`, `isNaN`, own-key order).

## Model

| member | source | states |
|---|---|---|
| PollingModel.LastRevision | jasmine/eventPollingSubscription.jasmine-spec.js:65-88 | The store's last event is absent exactly for an empty stream, and otherwise is the last event of the log |
| PollingModel.ReadStoreSound | jasmine/eventPollingSubscription.jasmine-spec.js:303-371 | A store read for a window returns stored events of that window, in ascending revision order |
| PollingModel.ReadStoreComplete | jasmine/eventPollingSubscription.jasmine-spec.js:303-371 | A store read misses no stored event of its window |
| PollingModel.FirstWindow | jasmine/eventPollingSubscription.jasmine-spec.js:89-232 | The first window spans W revisions. It starts at 0 for an empty stream, otherwise at the requested revision clamped to last + 1 |
| PollingModel.FirstWindowWithinLog | jasmine/eventPollingSubscription.jasmine-spec.js:116-145 | Against the store, the first window never starts past the end of the log |
| PollingModel.FirstWindowExamples | jasmine/eventPollingSubscription.jasmine-spec.js:89-232 | The five window cases of the subscribe tests with W = 2 and last revision 5 (or none): [5,7], [6,8], [3,5], [6,8], [0,2] |
| PollingModel.DispatchDelivery | jasmine/eventPollingSubscription.jasmine-spec.js:508-581 | Broadcast: every member with a callback gets every event once, in order, whatever the other callbacks do. A non-member gets nothing |
| PollingModel.DispatchOnlyInvokes | jasmine/eventPollingSubscription.jasmine-spec.js:508-581 | Dispatching reads neither the buffer nor the store; it only invokes callbacks |
| PollingModel.EventRoundDelivery | jasmine/eventPollingSubscription.jasmine-spec.js:689-993 | One event's round reaches each member with a callback exactly once, even when another callback fails, times out or is undefined |
| PollingModel.DispatchToOne | jasmine/eventPollingSubscription.jasmine-spec.js:233-302 | A lone recipient's callback is invoked once per event, in event order; an undefined callback never is |
| PollingModel.RoundOfOne | jasmine/eventPollingSubscription.jasmine-spec.js:897-993 | A round for a single token is its one invocation, or nothing when its callback is undefined |
| CatchUpModel.Fetched | jasmine/eventPollingSubscription.jasmine-spec.js:233-371 | A catch-up step obtains events of its window from the log: the buffer's answer, or the store's on a buffer miss |
| CatchUpModel.CatchUpCalls | jasmine/eventPollingSubscription.jasmine-spec.js:233-400 | A catch-up task's first call is always a buffer read of its first window |
| CatchUpModel.CatchUpReadsStoreOnlyOnBufferMiss | jasmine/eventPollingSubscription.jasmine-spec.js:233-302 | The store is read only for a window the buffer has just missed |
| CatchUpModel.CatchUpOffersEveryStoreHit | jasmine/eventPollingSubscription.jasmine-spec.js:303-371 | Every non-empty store read is offered to the buffer exactly as returned, before delivery. Nothing else is offered |
| CatchUpModel.CatchUpEndsAtFirstDoubleMiss | jasmine/eventPollingSubscription.jasmine-spec.js:372-400 | Catch-up stops at the first window both buffer and store miss, and only there |
| CatchUpModel.CatchUpDeliversAscending | jasmine/eventPollingSubscription.jasmine-spec.js:233-302 | Only the task's own token is served, and only if it has a callback. It gets stored events from the first window on, each at most once, ascending |
| CatchUpModel.CatchUpDeliversHistory | jasmine/eventPollingSubscription.jasmine-spec.js:233-371 | With a buffer that answers runs from a window's start, catch-up delivers the whole log from the first window's start, in order, once |
| LiveLoopModel.TickReadsStoreOnly | jasmine/eventPollingSubscription.jasmine-spec.js:402-438 | A tick never reads the buffer. It reads the store once, for the current window, and offers exactly what it got before delivering it |
| LiveLoopModel.TickMovesWindow | jasmine/eventPollingSubscription.jasmine-spec.js:439-507 | An empty read keeps the window. A read ending at revision r moves it to [r+1, r+1+W] |
| LiveLoopModel.TickDelivers | jasmine/eventPollingSubscription.jasmine-spec.js:439-507 | A tick hands every member with a callback exactly the stored events of the window it read, in order |
| LiveLoopModel.LiveDeliversWithoutGaps | jasmine/eventPollingSubscription.jasmine-spec.js:439-507 | Over any run of ticks against a growing store, a member receives every stored event between the first and final windows, once, in order |
| LiveLoopModel.LiveReachesEndOfLog | jasmine/eventPollingSubscription.jasmine-spec.js:439-507 | Against a store that stops growing, the live window ends up right after the last stored event |
| LiveLoopModel.LiveIdlePolls | jasmine/eventPollingSubscription.jasmine-spec.js:402-438 | While the window is empty, each tick only reads the same window from the store |
| PollingSubscription.Without | jasmine/eventPollingSubscription.jasmine-spec.js:995-1098 | Removing a token keeps exactly the other tokens, in order and distinct |
| PollingSubscription.Subscription.constructor | jasmine/eventPollingSubscription.jasmine-spec.js:15-27 | A new subscription has no members, no callbacks, no calls and no running loop |
| PollingSubscription.Subscription.Subscribe | jasmine/eventPollingSubscription.jasmine-spec.js:41-63 | Returns the token and calls nothing. Registers or re-registers the callback. Remembers the first revision ever requested. Starts a stopped loop at the first window for that revision; a running loop keeps its window |
| PollingSubscription.Subscription.Unsubscribe | jasmine/eventPollingSubscription.jasmine-spec.js:995-1203 | The token leaves the group and its callback is dropped. The loop stops exactly when the group becomes empty |
| PollingSubscription.Subscription.Deactivate | jasmine/eventPollingSubscription.jasmine-spec.js:1205-1308 | The loop stops; the group is kept |
| PollingSubscription.Subscription.Activate | jasmine/eventPollingSubscription.jasmine-spec.js:1310-1542 | The loop runs afterwards exactly when the group has members |
| PollingSubscription.Subscription.Deliver | jasmine/eventPollingSubscription.jasmine-spec.js:689-993 | The nested delivery loop makes exactly the dispatch calls of the events to the recipients |
| PollingSubscription.Subscription.CatchUp | jasmine/eventPollingSubscription.jasmine-spec.js:65-88 | A registered token's task first reads the store's last event, then makes exactly the calls of the catch-up task from the first window. An unregistered token gets no task |
| PollingSubscription.Subscription.CatchUpFrom | jasmine/eventPollingSubscription.jasmine-spec.js:233-400 | The catch-up loop makes exactly the calls of the catch-up task from its window on |
| PollingSubscription.Subscription.Fetch | jasmine/eventPollingSubscription.jasmine-spec.js:233-371 | One window: a buffer read, and on a miss a store read whose events are offered; returns the events the step obtains |
| CatchUpModel.FetchProgress | jasmine/eventPollingSubscription.jasmine-spec.js:439-507 | A step that obtained events moves the next window past them, closer to the end of the log |
| PollingSubscription.Subscription.Tick | jasmine/eventPollingSubscription.jasmine-spec.js:402-507 | A running loop's tick makes the tick's calls and moves the window as a tick does. A stopped loop does nothing |
| PollingScenarios.SubscribeToEmptyStream | jasmine/eventPollingSubscription.jasmine-spec.js:41-63 | Subscribing returns the token, calls nothing and starts the loop at [0,2] |
| PollingScenarios.CatchUpFromBuffer | jasmine/eventPollingSubscription.jasmine-spec.js:233-302 | Six buffered events: buffer reads of [0,2], [3,5], [6,8], both batches delivered in order, the store read only for [6,8] |
| PollingScenarios.CatchUpFromStore | jasmine/eventPollingSubscription.jasmine-spec.js:303-371 | With an empty buffer, each window is read from the store and offered to the buffer before delivery |
| PollingScenarios.CatchUpOnEmptyStream | jasmine/eventPollingSubscription.jasmine-spec.js:372-400 | An empty stream: one buffer read and one store read of [0,2], no invocation |
| PollingScenarios.LivePollsEmptyStream | jasmine/eventPollingSubscription.jasmine-spec.js:402-438 | Five ticks on an empty stream are five store reads of [0,2] and nothing else |
| PollingScenarios.LivePollsGrowingStream | jasmine/eventPollingSubscription.jasmine-spec.js:439-507 | As revisions 0 and 1 arrive, each is read, offered and delivered, and the window moves to [1,3], then [2,4] |
| PollingScenarios.GroupOfTwo | jasmine/eventPollingSubscription.jasmine-spec.js:508-581 | Two tokens subscribed in order form the group of the broadcast tests |
| PollingScenarios.BroadcastDespiteSecondCallback | jasmine/eventPollingSubscription.jasmine-spec.js:689-993 | The first subscriber still gets each event when the second callback fails, never calls back or is undefined |
| PollingScenarios.LateSubscriber | jasmine/eventPollingSubscription.jasmine-spec.js:582-688 | After a tick that found nothing, a second token joins the running loop. The loop keeps its window, and revisions 0 and 1 reach both tokens in order |
| PollingScenarios.RestartFromFirstRequest | jasmine/eventPollingSubscription.jasmine-spec.js:1099-1203 | A loop started again after every subscriber left starts at the first window of the first subscribe's revision, not the new one's |
| PollingScenarios.CatchUpReadsLastEventFirst | jasmine/eventPollingSubscription.jasmine-spec.js:65-88 | A catch-up task reads the store's last event before any window |
| PollingScenarios.UnsubscribeOne | jasmine/eventPollingSubscription.jasmine-spec.js:995-1098 | After one of two subscribers leaves, the next event reaches only the other |
| PollingScenarios.UnsubscribeAll | jasmine/eventPollingSubscription.jasmine-spec.js:1099-1203 | Once the last subscriber leaves, a tick reads nothing and invokes nothing |
| PollingScenarios.DeactivateStops | jasmine/eventPollingSubscription.jasmine-spec.js:1205-1308 | A deactivated subscription keeps its group but makes no more calls |
| PollingScenarios.ActivateResumes | jasmine/eventPollingSubscription.jasmine-spec.js:1310-1414 | Activating again resumes polling and delivery |
| PollingScenarios.ActivateNeverStarted | jasmine/eventPollingSubscription.jasmine-spec.js:1415-1437 | Activating a subscription nobody subscribed to starts nothing |
| PollingScenarios.ActivateWithoutSubscribers | jasmine/eventPollingSubscription.jasmine-spec.js:1438-1542 | Activating after every subscriber left starts nothing |
| JsValues.QuotedTextIsNaN | lib/eventstore-projections/eventstore-statelist-mysql-store.js:485 | Text holding a quote is never a number for `isNaN` |
| JsValues.IntTextIsNumeric | lib/eventstore-projections/eventstore-statelist-mysql-store.js:485 | An integer's numeral converts to a number for `isNaN` |
| JsValues.OwnKeyOrderIsPermutation | lib/eventstore-projections/jobs-manager.js:371-372 | `for…in` visits every own key once: array indices first and ascending, then the other keys in creation order |
| Lodash.GroupByPermutes | lib/eventstore-projections/eventstore-statelist-mysql-store.js:430-432 | `_.groupBy` partitions its input: the groups together are a permutation of it |
| Lodash.GroupByGroups | lib/eventstore-projections/eventstore-statelist-mysql-store.js:430-439 | No key names two groups, no group is empty, and every member of a group has its key |
| Lodash.GroupKeysOccur | lib/eventstore-projections/eventstore-statelist-mysql-store.js:434 | `_.forOwn` over a groupBy enumerates exactly the keys that occur, each once |
| StateListSql.FieldsString | lib/eventstore-projections/eventstore-statelist-mysql-store.js:146-175 | The fields loop builds exactly the comma-led column definitions, separated by ", " |
| StateListSql.FieldsTextShape | lib/eventstore-projections/eventstore-statelist-mysql-store.js:148-149 | The field text is empty exactly when there are no fields, and otherwise starts with a comma |
| StateListSql.SecondaryKeyString | lib/eventstore-projections/eventstore-statelist-mysql-store.js:177-195 | The secondary-key loop builds one ", KEY `name` (…)" element per own key, in own-key order |
| StateListSql.KeyTextCloses | lib/eventstore-projections/eventstore-statelist-mysql-store.js:183-192 | Every key opens its column list and closes it exactly when it has a column |
| StateListSql.IndexUnseparatedWithoutFields | lib/eventstore-projections/eventstore-statelist-mysql-store.js:197-198 | As written, a list without fields has no comma before its INDEX element |
| StateListSql.ElementsSeparated | lib/eventstore-projections/eventstore-statelist-mysql-store.js:197-209 | With the comma always written, every element after `meta_json JSON` is separated. With fields, the two texts agree |
| StateListSql.CreateListQueryFixesOnlyEmptyFields | lib/eventstore-projections/eventstore-statelist-mysql-store.js:197-211 | The corrected CREATE TABLE differs from the written one exactly for lists without fields |
| StateListSql.SqlMax | lib/eventstore-projections/eventstore-statelist-mysql-store.js:324-329 | MAX(row_index) is NULL for an empty table, otherwise an index present and no smaller than any |
| StateListSql.NextRowIndexIsFresh | lib/eventstore-projections/eventstore-statelist-mysql-store.js:332 | A pushed row's index is above every existing index, and 0 for an empty table |
| StateListSql.NextRowIndexAppends | lib/eventstore-projections/eventstore-statelist-mysql-store.js:255-259 | On a list holding indices 0 … n-1, push uses index n |
| StateListSql.LimitIgnoredAsWritten | lib/eventstore-projections/eventstore-statelist-mysql-store.js:368-371 | As written, any limit (10, say) gives the same query as no limit |
| StateListSql.LimitApplied | lib/eventstore-projections/eventstore-statelist-mysql-store.js:368-371 | With the fix, the query changes exactly when the limit is truthy, by "LIMIT n" |
| StateListSql.IdBoundOnlyWhenGiven | lib/eventstore-projections/eventstore-statelist-mysql-store.js:373-376 | The `id <=` bound changes the query exactly when lastId is truthy |
| StateListSql.RowIndexBoundOnlyWhenGiven | lib/eventstore-projections/eventstore-statelist-mysql-store.js:364-367 | The `row_index >=` bound changes the query exactly when startRowIndex is truthy |
| StateListFilters.UndoubleRoundTrip | lib/eventstore-projections/eventstore-statelist-mysql-store.js:461-465 | Doubling quotes loses nothing: reading each pair of quotes back as one quote gives the value |
| StateListFilters.DoubleQuotesCounts | lib/eventstore-projections/eventstore-statelist-mysql-store.js:461-465 | The escaped text has twice the quotes of the value and exactly as many of every other character |
| StateListFilters.DoubleQuotesWithoutBackslash | lib/eventstore-projections/eventstore-statelist-mysql-store.js:461-465 | For a value without a backslash, doubling quotes is the full MySQL escaping |
| StateListFilters.EscapedLiteralRoundTrip | lib/eventstore-projections/eventstore-statelist-mysql-store.js:459-470 | With quotes and backslashes escaped, MySQL reads the quoted value back unchanged and the literal ends at its closing quote |
| StateListFilters.ReadEscapedChar | lib/eventstore-projections/eventstore-statelist-mysql-store.js:461 | MySQL reads one escaped character back as itself and continues after it |
| StateListFilters.BackslashBreaksLiteralAsWritten | lib/eventstore-projections/eventstore-statelist-mysql-store.js:461 | As written, the value `x\` swallows its closing quote and the literal never ends; the fix reads it back |
| StateListFilters.ConnectorsBracketBucket | lib/eventstore-projections/eventstore-statelist-mysql-store.js:472-480 | Only a bucket's first condition opens "(" and only its last closes ")". The others are joined by OR in an 'or' bucket, AND otherwise |
| StateListFilters.UnknownOperatorAddsNothing | lib/eventstore-projections/eventstore-statelist-mysql-store.js:482-595 | A filter whose operator is none of the ten known strings adds nothing |
| StateListFilters.EscapedTruthy | lib/eventstore-projections/eventstore-statelist-mysql-store.js:459-470 | Doubling quotes keeps a value's truthiness, its array kind and its length |
| StateListFilters.EmptyValueAddsNothing | lib/eventstore-projections/eventstore-statelist-mysql-store.js:489-583 | `any`, `contains`, `arrayContains`, `startsWith` and `endsWith` add nothing for a falsy value, nor `any` for an empty array |
| StateListFilters.NullTests | lib/eventstore-projections/eventstore-statelist-mysql-store.js:585-593 | `exists` and `notExists` emit IS NOT NULL and IS NULL between the connectors |
| StateListFilters.IsStringReadsBack | lib/eventstore-projections/eventstore-statelist-mysql-store.js:483-487 | `is` with non-numeric text quotes it with its quotes doubled. For text without a backslash, MySQL reads exactly that text back, followed by the rest of the condition |
| StateListFilters.QuoteForcesQuoting | lib/eventstore-projections/eventstore-statelist-mysql-store.js:485 | A value holding a quote is never taken for a number, so `is` always quotes it |
| StateListFilters.IsNumeralUnquoted | lib/eventstore-projections/eventstore-statelist-mysql-store.js:483-487 | `is` compares an integer's numeral unquoted |
| StateListFilters.InList | lib/eventstore-projections/eventstore-statelist-mysql-store.js:492-500 | The `any` loop builds each value quoted, separated by "," |
| StateListFilters.JsonContainsList | lib/eventstore-projections/eventstore-statelist-mysql-store.js:557-563 | The `arrayContains` loop builds one JSON_CONTAINS test per element, joined by " OR " |
| StateListFilters.Clause | lib/eventstore-projections/eventstore-statelist-mysql-store.js:458-596 | One round of the filter loop emits the condition of that filter with its position's connectors |
| StateListFilters.AppendFilters | lib/eventstore-projections/eventstore-statelist-mysql-store.js:456-599 | Appends the condition of every filter of a bucket, in order, to the text so far |
| StateListFilters.AppendGroup | lib/eventstore-projections/eventstore-statelist-mysql-store.js:435-444 | For each operator bucket of a group, appends " AND " and the bucket's conditions |
| StateListFilters.ListFilters | lib/eventstore-projections/eventstore-statelist-mysql-store.js:427-447 | The nested `forOwn` loops build the text of every bucket of every group, in own-key order |
| StateListFilters.ListFiltersBuckets | lib/eventstore-projections/eventstore-statelist-mysql-store.js:427-447 | The filter text is the buckets' texts in turn. The buckets hold every filter once and each is keyed by its operator. Each adds " AND " and its conditions |
| StateListFilters.BucketsPermute | lib/eventstore-projections/eventstore-statelist-mysql-store.js:430-439 | Splitting groups into operator buckets loses and duplicates no filter |
| StateListFilters.BucketsKeyed | lib/eventstore-projections/eventstore-statelist-mysql-store.js:435-437 | Every bucket is non-empty and holds exactly filters whose `groupBooleanOperator \|\| 'and'` names it |
| StateListFilters.NoFiltersNoText | lib/eventstore-projections/eventstore-statelist-mysql-store.js:427-447 | Without filters the additional filter text is empty |
| StateListStore.WithDefaults | lib/eventstore-projections/eventstore-statelist-mysql-store.js:66-78 | Every option ends up defined, and every option given (even falsy) is kept |
| StateListStore.WithDefaultsIdempotent | lib/eventstore-projections/eventstore-statelist-mysql-store.js:66-78 | Applying the defaults twice changes nothing more |
| StateListStore.InitCheck | lib/eventstore-projections/eventstore-statelist-mysql-store.js:96-141 | Succeeds exactly when the five connection options are truthy, with the pool settings. Otherwise the first falsy option's error, in order |
| StateListStore.DefaultsConnect | lib/eventstore-projections/eventstore-statelist-mysql-store.js:66-135 | Without options, init connects to root@127.0.0.1:3306/eventstore with one connection |
| StateListStore.InitAfterDefaults | lib/eventstore-projections/eventstore-statelist-mysql-store.js:66-123 | After the defaults, init fails exactly when a given option is falsy |
| StateListStore.JsonColumn | lib/eventstore-projections/eventstore-statelist-mysql-store.js:299-300 | A JSON column is NULL exactly for a falsy value, otherwise its JSON text |
| StateListStore.InsertRow | lib/eventstore-projections/eventstore-statelist-mysql-store.js:295-302 | The row keeps type and index, and has state and meta as JSON text or NULL |
| StateListStore.Latest | lib/eventstore-projections/eventstore-statelist-mysql-store.js:386-398 | The GROUP BY / MAX(id) row of an index is a row of that index that the subquery's WHERE keeps, with no later kept row of that index. It is absent exactly when no row of the index is kept |
| StateListStore.Visible | lib/eventstore-projections/eventstore-statelist-mysql-store.js:386-400 | An index shows its latest kept row unless that row is a DELETE, and nothing otherwise |
| StateListStore.SetShows | lib/eventstore-projections/eventstore-statelist-mysql-store.js:241-249 | After `set`, every read whose conditions keep the new row (a read without conditions among them) shows it, whatever it showed before |
| StateListStore.DeleteHides | lib/eventstore-projections/eventstore-statelist-mysql-store.js:226-233 | After `delete`, every read whose conditions keep the deletion (a read without conditions among them) shows nothing for the index |
| StateListStore.RejectedLaterVersionShowsEarlier | lib/eventstore-projections/eventstore-statelist-mysql-store.js:386-398 | The WHERE is applied before MAX(id): a later version the conditions reject leaves an earlier matching version visible, while a read without conditions shows the later one, or nothing for a deletion |
| StateListStore.InsertLeavesOthers | lib/eventstore-projections/eventstore-statelist-mysql-store.js:386-398 | A row inserted for one index leaves every other index as it was, under any conditions |
| StateListStore.SelectedRow | lib/eventstore-projections/eventstore-statelist-mysql-store.js:380-382 | A result row has exactly the selected columns, in order, with the stored values |
| StateListStore.ParsedColumn | lib/eventstore-projections/eventstore-statelist-mysql-store.js:412-413 | A JSON column reads as its parsed text when truthy, otherwise undefined |
| StateListStore.TranslateRows | lib/eventstore-projections/eventstore-statelist-mysql-store.js:409-415 | One row per result row |
| StateListStore.MetaLostAsWritten | lib/eventstore-projections/eventstore-statelist-mysql-store.js:380-413 | As written, every row read back has an undefined meta |
| StateListStore.StoredRowReadsBack | lib/eventstore-projections/eventstore-statelist-mysql-store.js:295-415 | With meta_json selected, a stored row reads back with its index, state and meta, given a JSON round trip |
| StateListStore.StateList.constructor | lib/eventstore-projections/eventstore-statelist-mysql-store.js:66-78 | A new state list holds its options with the defaults, no pool and no statements |
| StateListStore.StateList.Init | lib/eventstore-projections/eventstore-statelist-mysql-store.js:96-141 | Returns the init check. Creates the pool only on success and sends nothing |
| StateListStore.StateList.CreateList | lib/eventstore-projections/eventstore-statelist-mysql-store.js:143-218 | Sends the CREATE TABLE statement as written for the configuration, without a comma before INDEX when there are no fields |
| StateListStore.StateList.Delete | lib/eventstore-projections/eventstore-statelist-mysql-store.js:226-233 | Sends one DELETE row for the index, with no state and no meta |
| StateListStore.StateList.Set | lib/eventstore-projections/eventstore-statelist-mysql-store.js:241-249 | Sends one UPDATE row with the new state and meta |
| StateListStore.StateList.Push | lib/eventstore-projections/eventstore-statelist-mysql-store.js:255-264 | Sends the MAX query, then one CREATE row at the next row index |
| StateListStore.StateList.FilterRows | lib/eventstore-projections/eventstore-statelist-mysql-store.js:361-425 | Sends the SELECT as written: the bounds and filter text, no LIMIT, and only state_json and row_index selected. Returns the result rows translated |
| StateListStore.StateList.Filter | lib/eventstore-projections/eventstore-statelist-mysql-store.js:284-286 | The SELECT without start index and limit, and all its rows |
| StateListStore.StateList.Find | lib/eventstore-projections/eventstore-statelist-mysql-store.js:347-353 | The same SELECT; the first row, or nothing exactly when there are no results |
| Jobs.IsObject | lib/eventstore-projections/jobs-manager.js:388-393 | True exactly for objects and arrays; false for null |
| Jobs.ArrayTestRedundant | lib/eventstore-projections/jobs-manager.js:374 | The `Array.isArray` test beside `_isObject` changes nothing |
| Jobs.Flat | lib/eventstore-projections/jobs-manager.js:374-378 | An object or array value is pushed as its JSON text, anything else as itself |
| Jobs.KeyValuesShape | lib/eventstore-projections/jobs-manager.js:369-382 | Twice as many entries as keys: each key at an even position, its flattened value right after |
| Jobs.KeyValueArrayPairs | lib/eventstore-projections/jobs-manager.js:369-382 | The array lists every own key once (a permutation of the names), each followed by its value |
| Jobs.ObjectToKeyValueArray | lib/eventstore-projections/jobs-manager.js:369-382 | The `for…in` loop builds exactly the key/value array |
| Jobs.SetProp | lib/eventstore-projections/jobs-manager.js:255 | Assigning a property sets it and leaves every other property |
| Jobs.StoredHash | lib/eventstore-projections/jobs-manager.js:271-291 | `hgetall` returns the fields `hmset` stored, in order, each as the text of its flattened value |
| Jobs.StoredLookup | lib/eventstore-projections/jobs-manager.js:271-291 | A field the record has reads back as the text of its flattened value |
| Jobs.LastResult | lib/eventstore-projections/jobs-manager.js:271-280 | The job is handed null when nothing is stored or the stored `lastResult` text is empty; otherwise that text, JSON-parsed |
| Jobs.Recorded | lib/eventstore-projections/jobs-manager.js:252-256 | The stored record (or {}) takes the new `lastResult` and keeps every other field |
| Jobs.NextRunSeesResult | lib/eventstore-projections/jobs-manager.js:247-291 | After the Redis round trip, the next run is handed this run's object or array result, and the record's other fields stay |
| Jobs.PrimitiveResultReparsed | lib/eventstore-projections/jobs-manager.js:247-291 | Any other result is stored as its text and JSON-parsed on the next run: empty text is handed on as null |
| Jobs.AddOptionsFor | lib/eventstore-projections/jobs-manager.js:322-331 | jobId and removeOnComplete are set. delay and timeout come from the options. attempts defaults to 10 and backoff to exponential 2000 |
| Jobs.QueueJobError | lib/eventstore-projections/jobs-manager.js:302-316 | No error exactly when job, id, group and payload are all given; otherwise the first missing one's error |
| Jobs.ProcessJobGroupError | lib/eventstore-projections/jobs-manager.js:147-161 | No error exactly when owner and group are truthy and both callbacks are functions; otherwise the first failing check's error |
| Jobs.EffectiveConcurrency | lib/eventstore-projections/jobs-manager.js:246 | The call's `options.concurrency` when truthy, otherwise the manager's |
| Jobs.ConcurrencyOption | lib/eventstore-projections/jobs-manager.js:107-114 | The manager's concurrency is 20 unless the options give one |
| Jobs.DefaultConcurrency | lib/eventstore-projections/jobs-manager.js:246 | Without options anywhere, a group is processed 20 jobs at a time |
| Jobs.JobsManager.constructor | lib/eventstore-projections/jobs-manager.js:107-118 | A new manager has the defaulted concurrency and no queues and no jobs |
| Jobs.JobsManager.GetJobGroupsQueue | lib/eventstore-projections/jobs-manager.js:399-408 | Returns a group's existing queue and changes nothing. Otherwise creates one fresh queue for it; other groups are untouched |
| Jobs.JobsManager.QueueJob | lib/eventstore-projections/jobs-manager.js:298-337 | Returns the argument error and changes nothing. Otherwise records the job by id and adds its payload with AddOptionsFor to its group's queue only |
| Jobs.JobsManager.ProcessJobGroup | lib/eventstore-projections/jobs-manager.js:143-264 | Returns the argument error and changes nothing. Otherwise registers the group's queue for processing at the effective concurrency |
| JobsScenarios.TwoJobsOneGroup | lib/eventstore-projections/jobs-manager.js:298-331 | Two jobs of one group share one queue and are added in order with the default attempts and backoff |
| JobsScenarios.JobWithoutPayload | lib/eventstore-projections/jobs-manager.js:314-316 | A job without a payload fails with "payload is required" and records nothing |

## Left out

- The subscription's implementation file is not part of this model. The model follows the
  behaviour its tests assert. Where the tests leave something open, the model chooses:
  re-activation resumes from the window the loop stood at, and a loop started again by a
  later subscribe starts from the first revision any subscribe of the object asked for.
- PollingSubscription.Subscription.CatchUp: the store's last event is read once, by the
  catch-up task. The live loop's first window is reconciled against the same last event;
  whether the loop makes a read of its own is not asserted by the tests and not modelled.
- Timing: `pollingTimeout`, `eventCallbackTimeout` and the timers. A callback that never
  calls back is an outcome ("times out") and a wait is one tick.
- The PubSub wake channel: a wake is simply the next tick.
- Concurrency between catch-up tasks and the live loop, including duplicate delivery when a
  task hands over to the loop. Ticks and catch-up tasks are atomic and sequential.
- PollingModel.ReadStoreSound: the store is a gap-free log, so a stream with missing
  revisions is not modelled.
- Subscription error paths that the tests do not pin down (a failing `getLastEvent` or
  `getEventStream`).
- `distributed-signal.js` and the MongoDB storage are not part of this model.
- SQL execution and the shared pool. Statements are recorded as text (or an INSERT's row),
  and query results are parameters. `insertId`, the return value of `set` and `push`, comes
  from the database and is not modelled.
- `JSON.stringify` and `JSON.parse`: they are parameters. StoredRowReadsBack assumes they
  round-trip the values it is given.
- StateListStore.StateList.Init: the `_data = {}` assignment is not modelled; nothing reads it.
- StateListStore.StateList.CreateList: every operation after `init` requires a pool. Called
  before `init`, the source fails on an undefined pool, and that failure is not modelled.
- StateListSql.NextRowIndex: `parseInt` is modelled only for the integer or NULL that
  MAX(row_index) returns.
- StateListFilters.IsStringReadsBack: stated only for values without a backslash. With a
  backslash the written escaping does not read back (the last row of Findings).
- A `secondaryKeys` list that repeats a name: an object cannot, so such a list stands for no
  input of the source. Looking a name up takes its first entry.
- Object-prototype property names (`constructor`, `toString`, …) used as group names, ids or
  secondary keys. Property reads see only own properties.
- A `filters` argument that is not an array, and filter values of other JavaScript types
  (dates, symbols). Values are the JSON-like values of the model.
- The unbalanced parenthesis when a bucket's first or last filter emits nothing (for example
  a `contains` filter with an empty value). The model reproduces the text as written but
  proves nothing about it.
- Numbers are safe integers. Floating-point numbers, NaN, Infinity and exponent notation in
  `String(n)` are not modelled. `isNaN` on text follows the StringNumericLiteral grammar of
  ECMA-262.
- Bull and Redis: the queue event handlers (lines 170-244), the scheduling done by
  `queue.process`, `promoteJob` (lines 344-362), and the Redis `keys`, `hgetall` and `hmset`
  calls. Jobs.Recorded and Jobs.LastResult model the record those calls store and read, on
  values.
- Jobs.StoredHash: the Redis client's conversion of a non-text value to text is a parameter.
- Jobs.LastResult: `JSON.parse` is a parameter. Where it throws (a stored string such as
  `done`, which is not JSON), the model returns no value; the failed job is not modelled.
- Jobs.NextRunSeesResult: stated only for object and array results whose JSON text is not
  empty and parses back to them. A string, number or boolean result does not come back as
  itself: it comes back JSON-parsed from its text, as PrimitiveResultReparsed states.
- Jobs.JobsManager.ProcessJobGroup: the process callback's body is not run by the method. It
  is modelled by LastResult, Recorded and NextRunSeesResult.
- The debug and console logging, and the rethrow of errors. An error is returned as a value
  and the state is left unchanged, as it is when the source throws before changing anything.

## Findings

| source | as written | input that shows it | evidently intended | confidence | as-written member | corrected member |
|---|---|---|---|---|---|---|
| lib/eventstore-projections/eventstore-statelist-mysql-store.js:197-198 | The comma before `INDEX idx_row_index` is written only when there are generated columns, so a list without fields puts INDEX straight after `meta_json JSON` | `createList` with `fields: []` | A comma always separates the INDEX element | not executed | StateListSql.IndexUnseparatedWithoutFields | StateListSql.ElementsSeparated |
| lib/eventstore-projections/eventstore-statelist-mysql-store.js:369-371 | The `LIMIT ${limit}` template is evaluated and discarded, so `limitFilter` stays empty | `_filter` with `limit` 10 | The SELECT ends with `LIMIT 10` | not executed | StateListSql.LimitIgnoredAsWritten | StateListSql.LimitApplied |
| lib/eventstore-projections/eventstore-statelist-mysql-store.js:380-413 | The SELECT lists only `state_json` and `row_index`, but the rows read `meta_json`, so `meta` is always undefined | `push` with meta `{a: 1}`, then `filter` | `meta_json` is selected and the meta reads back | not executed | StateListStore.MetaLostAsWritten | StateListStore.StoredRowReadsBack |
| lib/eventstore-projections/eventstore-statelist-mysql-store.js:459-470 | Only quotes are escaped. A value ending in a backslash escapes the closing quote in MySQL's default mode, and the literal runs on into the SQL after it | `is` filter with value `x\` | Backslashes doubled as well, so the value reads back unchanged | not executed | StateListFilters.BackslashBreaksLiteralAsWritten | StateListFilters.EscapedLiteralRoundTrip |
