# Verified model of the MQ metric collectors

This project models the parts of the MQ metric samples that keep state between steps, and proves what
they keep. It is written in Dafny; `dafny verify dfyconfig.toml` checks all of it. Programs that work by
changing things in place are modelled as classes, methods and loops, each proved against functions on
values; the properties are then lemmas about those functions. A panic, an index out of range or the end
of the process is a result value, so error paths are part of the contracts.

* **Prometheus collector lifecycle** (`CollectorLifecycle`): the reconnect loop, any number of scrapes and the
  web server thread as interleaved steps over one mutex, five flags, a one-shot start channel and the vectors.
  A run is any list of steps, and the properties hold after every run. A connection generation begins each
  time the connected flag is raised. `MetricLabels` and `MetricVectors` add the label sets of every kind of
  vector and every place that adds a sample, and the vectors that are reset, refilled and exported; one lemma
  ties the labels to the runs. `MetricRegistry` is the client library's registry over reconnects.
* **Route tracer** (`TraceModel`, `TraceParser`, `StampMatching`, `TraceStamps`, `TraceReading`,
  `TraceReports`, `TracePut`, `TraceSummary`, `TraceReceiver`, `TraceOutcome`): the recursive parser on shared
  objects refines a left fold over the flat reading of the parameter tree; what an activity and its operations
  end up with is told from the parameters alone, down to the final queue manager that is printed; dates and
  times are matched into stamps exactly as told by the fields; the receive loop takes a complete route whole,
  or as far as the limit of activities allows, in any order of arrival; one round of putting, receiving and
  printing shows the first activity and then every report at its place, the same for every order.
* **JSON collector** (`NameFixup`, `PointTables`, `PointAssembly`, `PointEmission`, `PointCycles`,
  `PointNaming`): the name cache that lives through all cycles, point tables that share metric maps by
  reference, the block repeated inside the channel loop, the list of points kept between polls, and its
  cutting into blocks; whole cycles from the published values to what is written.
* **OpenTelemetry collector** (`OtelMetrics`): stash, replay, clear and evict of gauges, counters carried over
  failed cycles, and the collection loop.
* **Shared pieces**: `StatusPolling` (which steps a poll runs, the error budget, the poll clock),
  `ProcessDeath` (when the OpenTelemetry process ends over failures), `ConfigValues` (values, file entries and
  the shipped defaults), `ConfigParms` (precedence of command line, environment, file and default),
  `ConfigMetadata` (tag lists and filters), `MqiNames` (two conversions of constant names, and option words).
* `Strings`, `Options` and `MetricKeys` hold what several modules use.

What the proofs say about the code that its comments do not:

* The three-way `case` on reason codes in the Prometheus collector is one bitwise OR, so it matches a single
  value; the model has one such reason code, `QuitCode`.
* The route tracer's early exit on a discard never leaves a gap, because as many different positive indices as
  the highest of them are all of 1 to that index. Its other exit, on the limit of activities, leaves one
  exactly if fewer are filed than the highest index (`TraceReports.DiscardExitIsComplete`). A limit of zero,
  which the tracing message turns into 1000, stops the loop after one message
  (`TraceReports.ReadsExactlyTheRoute`).
* A single date in one operation is lent to a later operation that has its time alone or first, if between
  them no operation has a time or both, and likewise for a single time; a single date in between takes the
  place of the pending one. If all texts differ, these are exactly the cases in which a stamp is not its
  operation's own (`TraceStamps.StampsAreOwnIff`).
* The OpenTelemetry process ends on four successive failing polls, or when its main loop sees one more failing
  turn in a row than its limit allows (`ProcessDeath.ProcessDeadIff`). A failing poll is a failing turn too,
  so the budget alone decides exactly if the limit is three or more (`ProcessDeath.BudgetDecidesIff`). A
  configuration file without an entry for the limit makes it zero: the first failing poll ends the process.
* For a given schedule of polls, the JSON and the OpenTelemetry process die on the same outcomes of the polls
  exactly if every four successive polls lie in four adjacent cycles and, for a limit below three, nowhere
  more adjacent cycles poll than the limit (`ProcessDeath.DieTogetherIff`).
* The client library's registry never forgets the labels of a metric name, so a reconnect to a queue manager
  with different hostname support panics (`MetricRegistry.HostChangeIsFatal`); in one process all connections
  have the hostname support of the first (`CollectorLifecycle.OneHostPerProcess`).
* Later traces need the first activity of the first one: without it the program panics
  (`TraceReceiver.Tracer.SendTracer`).
* The name cache is right except for a `queue_` name that was cached unshortened before
  (`NameFixup.CacheAgreement` gives the exact condition).
* Both emitted copies of a JSON point that has published and polled values are the same map. Without any
  channel attribute nothing polled is emitted at all, however much else there is (`PointTables.OnePassIff`). A
  cluster's point has the object type "subscription".
* Two channel instances with slashes in their names may share a point (`PointTables.SameEntryIff` says exactly
  when).
* The wait interval is registered as an integer but read back as a string: with a configuration file, giving
  it on the command line or in the environment panics (`ConfigParms.OnlyWaitIntervalClashes`).
* A configuration file without an entry for the log level, the topics or the subscriptions replaces their
  built-in defaults by nothing, and so for some others, such as the record limit of the JSON collector, the
  error limit of the OpenTelemetry collector, and whether the Prometheus collector keeps running
  (`ConfigValues.DefaultSurvivesIff`).
* The older of the two deprecated status flags shares its key with the newer, so it is never registered
  (`ConfigParms.Registry.AddStatusFlags`).
* The scanner and the splitter for constant names differ exactly on a constant without underscore and on an
  empty second token before a letter (`MqiNames.ScannerMatchesSplitter`).
* Neither poll spacing nor the next poll's time needs the clock to be monotone.

## Model

| member | source | states |
|---|---|---|
| CollectorLifecycle.RunKeepsInv | cmd/mq_prometheus/main.go:94-212 | every run of loop, scrapes and server, however interleaved, keeps the invariants on lock, flags, start channel, vectors and first-collection flag |
| CollectorLifecycle.WhoMovesTheConnectedFlag | cmd/mq_prometheus/exporter.go:476-535 | in every run the connected flag is raised only by the loop and lowered only by a scrape, each while holding the mutex |
| CollectorLifecycle.LiveConnectionKept | cmd/mq_prometheus/main.go:94-135 | from the unlocked test to raising the flag the loop finds it down, so the connection it ends is never live |
| CollectorLifecycle.MutualExclusion | cmd/mq_prometheus/exporter.go:234-250 | at most one thread is inside the mutex |
| CollectorLifecycle.StartTokenOnce | cmd/mq_prometheus/main.go:189-195 | the start token is sent exactly once by the time the server runs and not before |
| CollectorLifecycle.SendNeverBlocks | cmd/mq_prometheus/main.go:189-195 | the send under the mutex always finds the server waiting |
| CollectorLifecycle.NoDeadlock | cmd/mq_prometheus/main.go:94-212 | in every live run whoever holds the mutex, or else the loop, can take a step |
| CollectorLifecycle.CollectOnlyAfterRegister | cmd/mq_prometheus/main.go:269-282 | no collection, not even a waiting one, exists before the first registration |
| CollectorLifecycle.FirstFlagMeaning | cmd/mq_prometheus/exporter.go:529-534 | while connected, the first-collection flag is up exactly when no collection of this connection has completed without error |
| CollectorLifecycle.FirstCompletedSuppresses | cmd/mq_prometheus/exporter.go:258-371 | a completing collection suppresses published metrics iff it is the first to complete in its connection, and then it polled |
| CollectorLifecycle.HostAnswerMatchesVectors | cmd/mq_prometheus/exporter.go:1496-1513 | whenever a scrape adds samples, the remembered hostname answer is the one the current vectors were declared with |
| CollectorLifecycle.OneHostPerProcess | cmd/mq_prometheus/main.go:170-187 | in every run, while connected the vectors have the hostname support of the first ones registered |
| CollectorLifecycle.RegisterPanicsIff | cmd/mq_prometheus/main.go:186-188 | registering panics iff the new vectors' hostname support is not that of the first |
| CollectorLifecycle.FlagsTellTheRun | cmd/mq_prometheus/main.go:94-205 | after every run the end flag is up iff the loop gave up or a scrape met the reason code that quits; likewise the other flags and the server's state are told from what the run holds |
| CollectorLifecycle.WhatTheLoopDecides | cmd/mq_prometheus/main.go:94-205 | in every live run the loop goes on iff nothing asked for the end, goes for the mutex iff there is no connection, and after a failure gives up iff no connection was ever announced or it is not to keep running |
| CollectorLifecycle.NoRoundAfterTheEnd | cmd/mq_prometheus/main.go:94 | once a scrape or the loop has asked for the end, the loop never goes round again |
| CollectorLifecycle.FirstFailureEnds | cmd/mq_prometheus/main.go:196-200 | a first connection that fails always ends the loop, whether it is to keep running or not |
| CollectorLifecycle.EverySectionIs | cmd/mq_prometheus/main.go:101-205 | each time the loop gives back the mutex it has failed in one of two places, with no connection, or gone its whole way in order, with connection, vectors, collector and flags set |
| CollectorLifecycle.AgainMeans | cmd/mq_prometheus/main.go:174-187 | a way through silences and unregisters an old collector if there is one, and else makes the first |
| CollectorLifecycle.OutsideTheMutex | cmd/mq_prometheus/main.go:94-209 | without the mutex the loop tests for the end, then for the connection, then sleeps and starts again or goes for the mutex |
| CollectorLifecycle.EveryCollectIs | cmd/mq_prometheus/exporter.go:234-536 | every collection that gives back the mutex went one of five ways; one that succeeded polled iff a poll was due or it is the first of its connection to complete |
| CollectorLifecycle.WhenServed | cmd/mq_prometheus/main.go:269-282 | a scrape can arrive iff the start token was sent and a collector is registered at the time |
| CollectorLifecycle.WhoCanEnter | cmd/mq_prometheus/exporter.go:239-240 | a waiting scrape, and the loop, can take the mutex iff it is free |
| CollectorLifecycle.StandbyWhileConnecting | cmd/mq_prometheus/main.go:122-126 | a standby queue manager ends the process exactly in place of a connection, right after the old one has been ended |
| MetricRegistry.Registry.Register | vendor/github.com/prometheus/client_golang/prometheus/registry.go:283-372 | registration succeeds iff the value definition accepts the descriptions, and leaves the registry alone otherwise |
| MetricRegistry.Registry.Unregister | vendor/github.com/prometheus/client_golang/prometheus/registry.go:378-411 | a collector is found by the names it describes now and leaves all but the dimensions |
| MetricRegistry.ReconnectsSurviveIff | vendor/github.com/prometheus/client_golang/prometheus/registry.go:283-411 | a series of connections is survived iff no vector repeats a label and every name has the same labels and help text in all of them |
| MetricRegistry.HostChangeIsFatal | cmd/mq_prometheus/exporter.go:1288-1300 | a queue manager metric with a hostname label in one connection and without in another is not survived |
| MetricLabels.SiteMatchesKind | cmd/mq_prometheus/exporter.go:1288-1494 | each of the sixteen places that add a sample writes exactly the built-in labels its vector declares |
| MetricLabels.SampleFitsIff | cmd/mq_prometheus/exporter.go:1519-1525 | a sample with the configured tags fits its vector iff the tags are distinct and none is a built-in label |
| MetricLabels.PublishedFitsIff | cmd/mq_prometheus/exporter.go:541-640 | a published value fits its element's vector iff its key is of the kind that the element's topic announces |
| MetricLabels.TopicKindIff | cmd/mq_prometheus/exporter.go:1300-1320 | which topics announce metrics of the queue manager, of replicas and of queues |
| MetricLabels.KeySiteIff | cmd/mq_prometheus/exporter.go:541-640 | a published value is the queue manager's iff its key is "@self", and a replica's iff it begins with "@NATIVEHA@" |
| MetricLabels.MetaValues | cmd/mq_prometheus/exporter.go:1519-1525 | each configured tag gets its own value, the last one if it is repeated, and all other labels keep theirs |
| MetricLabels.AddMetaLabels | cmd/mq_prometheus/exporter.go:1519-1525 | adds tag by tag; goes out of range iff there are fewer values than tags |
| MetricVectors.MQVec.AddMetric | cmd/mq_prometheus/exporter.go:221-232 | a gauge is set and a counter added to under the sample's labels, nothing else changes |
| MetricVectors.StatusExporter.Collect | cmd/mq_prometheus/exporter.go:337-371 | one scrape resets and refills every vector if it polls, and hands over vectors as the polled flag and the delta mark say; vectors stay separate objects |
| MetricVectors.GaugesShowLatestPoll | cmd/mq_prometheus/exporter.go:690-1057 | a scrape without a poll exports for every non-delta attribute a sample of exactly the label sets with an integer reading in the latest poll, in a gauge the last such reading |
| MetricVectors.DeltasExportedOnce | cmd/mq_prometheus/exporter.go:690-1057 | deltas are exported exactly at the scrape that polled them, each label set read once, in a counter with the sum of its readings, and never again |
| MetricVectors.FilledShows | cmd/mq_prometheus/exporter.go:690-700 | a refilled vector has a sample of a label set iff some integer reading has these labels: the last one in a gauge, the sum of all in a counter; a pseudo attribute has none |
| MetricVectors.PseudoNeverShown | cmd/mq_prometheus/exporter.go:690-700 | a pseudo attribute is never exported and its vector stays empty |
| MetricVectors.NothingBeforeThePoll | cmd/mq_prometheus/exporter.go:337-371 | before the first poll a vector is empty |
| MetricVectors.ReachableSampleFits | cmd/mq_prometheus/exporter.go:270-303 | in every interleaving, connected or not, a sample's labels fit the current vector iff the tags are distinct and apart from the built-in labels |
| TraceParser.Parser.ParseParm | dspmqrtj/tracert.go:447-581 | the recursive parser on shared objects does what a left fold of single steps over the pruned flat reading of the tree does, panics included |
| TraceParser.Parser.IntElement | dspmqrtj/tracert.go:461-503 | an integer parameter changes the current operation, activity or counters as its step says, or panics where nothing is current |
| TraceParser.Parser.StrElement | dspmqrtj/tracert.go:504-566 | a text parameter, date and time included, does what its step says on the objects |
| TraceModel.FoldConcat | dspmqrtj/tracert.go:447-581 | parsing one list after another is parsing them joined |
| TraceReading.FoldReads | dspmqrtj/tracert.go:447-566 | after an activity's parameters, whatever came before, every detail of every operation, its type, and the activity's own entries are those of the last parameter of the right kind in the right part of the list; no other keys are there |
| TraceReading.FoldSeesDiscard | dspmqrtj/tracert.go:485-490 | a discard is noted iff some parameter says operation type 2 |
| TraceReading.PanicsIff | dspmqrtj/tracert.go:447-503 | with proper dates and times, parsing an activity panics iff an integer belonging to an operation comes before the first one |
| TraceReading.StampPanicsIff | dspmqrtj/tracert.go:549-556 | a date or time panics iff an operation is open, the other half is pending and one of the two is too short |
| TraceReading.SkippedGroups | dspmqrtj/tracert.go:567-576 | nothing inside a message, or an embedded or other message descriptor, is looked at |
| TraceReading.OtherGroups | dspmqrtj/tracert.go:567-576 | any other group is read with all its contents, in order |
| TraceStamps.ActivityStamps | dspmqrtj/tracert.go:504-565 | whatever dates and times the operations of an activity hold, in any number and order, each stamp and what is left over are those of matching the fields alone |
| TraceStamps.StampsAreOwnIff | dspmqrtj/tracert.go:504-565 | for at most one date and one time each, all different, every stamp is its operation's own iff no operation with a single field is followed by one that begins with the other kind, with at most single fields of the first kind between |
| TraceStamps.StampsAreOwn | dspmqrtj/tracert.go:504-565 | if every operation has one date and one time, in either order, each timestamp is made of its own fields and nothing is left over |
| StampMatching.AllOwnIff | dspmqrtj/tracert.go:504-565 | the same condition, both ways, on the fields alone |
| TraceStamps.DateMayBeBorrowed | dspmqrtj/tracert.go:504-565 | a concrete proper report whose second operation bears the first one's date |
| TraceReports.ReportEffect | dspmqrtj/tracert.go:363-441 | a proper report files its own activity under its own index, whatever was parsed before |
| TraceReports.AfterReports | dspmqrtj/structures.go:104-112 | after any proper reports the map, highest index and discard flag are what the reports say, each taken alone |
| TraceReports.DiscardExitIsComplete | dspmqrtj/tracert.go:90-107 | for any proper reports, repeats included, as many are filed as the highest index seen iff exactly 1 to the highest are filed |
| TraceReports.OthersAreDropped | dspmqrtj/tracert.go:363-380 | messages of any format but embedded PCF might as well not have come |
| TraceReports.FiledOnce | dspmqrtj/tracert.go:410-425 | an activity told both its counters is filed once; one filed at index 0 is noted and changes neither map nor highest index |
| TraceReports.ReadsExactlyTheRoute | dspmqrtj/tracert.go:90-107 | for reports 1 to n in any order, the only discard in report n, the loop stops after exactly n, or after as many as the limit allows but at least one; all are filed iff the limit did not cut in |
| TraceReports.OrderDoesNotMatter | dspmqrtj/structures.go:104-112 | any permutation of distinct reports leaves the same map, highest index and discard flag |
| TraceReceiver.Tracer.AddActivity | dspmqrtj/structures.go:104-112 | index 0 is kept apart, any other goes into the map, the highest is updated |
| TraceReceiver.Tracer.InitActivity | dspmqrtj/structures.go:76-83 | forgets the map, the highest index, the error and the discard flag, and nothing of the parser besides |
| TraceReceiver.Tracer.ParseTop | dspmqrtj/tracert.go:410-441 | one top-level parameter is parsed with no date or time pending and files the activity if both counters are told; the first activity stays unless filed at index 0 |
| TraceReceiver.Tracer.ParseMsg | dspmqrtj/tracert.go:363-441 | a message's parameters act on the tracer's tables as on values; a message that is not embedded PCF is dropped |
| TraceReceiver.Tracer.PutTest | dspmqrtj/tracert.go:121-164 | the test message's activity, with its one operation and details, becomes the first activity and is not in the map |
| TraceReceiver.Tracer.PutMessage | dspmqrtj/tracert.go:282-315 | the tracing put is noted in the first operation; it counts as sent iff it works and leaves the local queue manager |
| TracePut.TestTold | dspmqrtj/tracert.go:140-160 | the test operation tells its target and where the test message went under the right keys, and nothing else |
| TracePut.PutTold | dspmqrtj/tracert.go:289-312 | the tracing put leaves its stamp if it works; a message that stays is shown as discarded, one that leaves tells where it goes as far as that has a name; nothing else changes |
| TracePut.FirstActivityTold | dspmqrtj/tracert.go:121-164 | the first activity of a first trace is the program's own with this one operation, a put or, for a local target, a discard |
| TracePut.OthersStay | dspmqrtj/tracert.go:289-312 | of an activity with several operations only the first tells of the put |
| TraceReceiver.Tracer.SendTracer | dspmqrtj/tracert.go:80-88 | it panics iff there is no first activity with an operation; the first activity changes only as the put says |
| TraceReceiver.Tracer.StartTrace | dspmqrtj/tracert.go:74-88 | the test message on the first trace only; the receive loop is then reached iff both puts work and the second resolves to another queue manager; with which first activity |
| TraceReceiver.Tracer.DoTrace | dspmqrtj/tracert.go:70-119 | puts, then reads until the exit condition first holds, the tables then being those of the messages read; the first activity stays unless a report is filed at index 0; a complete route is read whole or up to the limit |
| TraceReceiver.Tracer.Rebuild | dspmqrtj/main.go:110-150 | walks the map in index order and updates the information, or panics exactly where an activity is missing or empty |
| TraceReceiver.Tracer.PrintSummary | dspmqrtj/main.go:110-164 | list and information are those of the summary function; an immediate failure changes nothing |
| TraceReceiver.Tracer.TraceOnce | dspmqrtj/main.go:79-87 | one round of tracing and printing on a complete route: the printed list and information are those of the reports taken, the first activity is the test activity; it panics iff some report has no operation |
| TraceReceiver.Tracer.TraceWholeRoute | dspmqrtj/main.go:79-87 | if no limit cuts in, the printed list is the first activity and then report 1 to n, whatever the order of arrival |
| TraceReceiver.RouteIsRebuilt | dspmqrtj/main.go:110-164 | after a complete route in any order, the list has each report's activity at its own index |
| TraceReceiver.SameSummary | dspmqrtj/main.go:110-164 | permuted reports give the same list, channel count and final queue manager, or panic both |
| TraceSummary.VisitTells | dspmqrtj/main.go:121-156 | the channel count grows by the sends, the final queue manager is that of the last discard, the last stamp that of the very last operation; it fails only on a missing or empty activity |
| TraceSummary.CountsAccumulate | dspmqrtj/main.go:110-164 | over several traces the counts add up since nothing is reset; success sticks, and failure is set only before any success |
| TraceSummary.PrintedIff | dspmqrtj/main.go:110-164 | any series of traces is printed without a panic iff none lists an activity that is missing or has no operations |
| TraceSummary.CompleteMapInOrder | dspmqrtj/main.go:121-135 | a map with all of 1 to n is listed completely and in order |
| TraceSummary.ListedInOrder | dspmqrtj/main.go:130-133 | in general the list has the entries of the map, each once, in the order of their index, with nothing for a missing one |
| TraceOutcome.ReportReads | dspmqrtj/tracert.go:410-566 | a proper report's index, discard and activity are what its parameters say |
| TraceOutcome.GroupFiles | dspmqrtj/tracert.go:410-425 | a top-level activity is filed iff both counters are told in it, under the first, at index 0 apart from the map; the counters are then forgotten |
| TraceOutcome.PrintedIff | dspmqrtj/main.go:130-150 | for any distinct reports, printing panics iff some report holds no operation group |
| TraceOutcome.PrintedEnd | dspmqrtj/main.go:121-156 | for any distinct reports, the printed final queue manager is the one named last in the last discard operation of the highest report to name one, and the trace is a success |
| TraceOutcome.PrintedWithoutEnd | dspmqrtj/main.go:121-156 | if no report names an end, only what an earlier trace left is shown, and the trace fails unless there was an error or an earlier success |
| TraceOutcome.PrintedChannels | dspmqrtj/main.go:121-156 | the channel count grows by the operations of type 8 in all reports filed, in whatever order they came |
| TraceOutcome.RouteEndsAt | dspmqrtj/main.go:121-156 | on a complete route in any order, if the last report's last discard names one queue manager, that one is printed as the final one, whatever else the reports name |
| NameFixup.NameCache.Fixup | cmd/mq_json/exporter.go:734-770 | the scanning loop and the cache give the answer and leave the cache that their value definitions say |
| NameFixup.ScanIsWordwise | cmd/mq_json/exporter.go:751-766 | the character scan is camel case taken word by word |
| NameFixup.EntriesAreCamel | cmd/mq_json/exporter.go:734-770 | after any calls every cache entry maps a name to its camel case |
| NameFixup.CachedNames | cmd/mq_json/exporter.go:734-770 | which names are cached, told from the calls alone |
| NameFixup.CacheAgreement | cmd/mq_json/exporter.go:734-770 | the cached answer is the uncached one iff it is not a queue call on a prefixed name that is already cached |
| NameFixup.ClashFreeAnswers | cmd/mq_json/exporter.go:734-770 | for a clash-free set of names the answers never depend on earlier calls |
| PointTables.SameKeyAlike | cmd/mq_json/exporter.go:364-681 | objects with the same status key are looked up and typed alike, so the kinds' keys never collide |
| PointTables.DifferentObjectsDifferentEntries | cmd/mq_json/exporter.go:364-681 | different objects of any kinds have different entries if no part of their names holds a slash |
| PointTables.OnePartIsEnough | cmd/mq_json/exporter.go:364-681 | kinds named by a single part never share an entry, slashes or not |
| PointTables.SameEntryIff | cmd/mq_json/exporter.go:364-681 | in general two objects share an entry iff their names fall into the same pieces between slashes |
| PointTables.SlashesMayMerge | cmd/mq_json/exporter.go:387 | two channel instances with slashes in their names that share an entry |
| PointTables.EntryTellsTheType | cmd/mq_json/exporter.go:364-681 | an entry begins with its object's type, except that a cluster's type is "subscription" |
| PointTables.AfterAll | cmd/mq_json/exporter.go:364-681 | every metric, point and table entry after any series of status values, told from the series |
| PointTables.OrderAndRepetitionDoNotMatter | cmd/mq_json/exporter.go:364-681 | consistent values in any order and repeated any number of times leave the same tables |
| PointTables.NestedBlockIsOnePass | cmd/mq_json/exporter.go:364-681 | with a channel attribute, the block repeated in the channel loop gives the tables of one pass |
| PointTables.OnePassIff | cmd/mq_json/exporter.go:364-681 | from tables without status, the nested loops equal one pass over everything iff there is a channel attribute or nothing else was polled |
| PointTables.PublishedPointIsUnion | cmd/mq_json/exporter.go:400-450 | a published point ends with every metric polled for it and every other one it had before |
| PointAssembly.Assembler.AddPublished | cmd/mq_json/exporter.go:239-285 | a published value goes into its key's point, found or new; different points keep different metric maps |
| PointAssembly.Assembler.AddCount | cmd/mq_json/exporter.go:355-361 | the publication count joins the queue manager's point if there is one |
| PointAssembly.Assembler.FindOrAdd | cmd/mq_json/exporter.go:400-450 | the point for a status value is the published one, else the known one, else a new one with a map of its own |
| PointAssembly.Assembler.AddStatus | cmd/mq_json/exporter.go:364-681 | a value written through the shared map shows in every table that holds the point, and nowhere else |
| PointAssembly.Assembler.AssembleStatus | cmd/mq_json/exporter.go:364-681 | the nested loops on shared maps and cache act as all the values one after another |
| PointAssembly.Assembler.SharedPoint | cmd/mq_json/exporter.go:400-450 | a polled queue published under its name, or queue manager published under "@self", is one point in both tables, with one metric map that no other published point shares |
| PointAssembly.Assembler.SeparatePoint | cmd/mq_json/exporter.go:364-681 | any other polled object has a point whose metric map neither a published point nor another entry shares |
| PointAssembly.WithoutCache | cmd/mq_json/exporter.go:364-681 | over a clash-free set of names the cache has no influence on the tables |
| PointCycles.OpeningForm | cmd/mq_json/exporter.go:239-361 | when the status values come to be added, every published point has the last published value of each name, the queue manager's also the count, whatever the cache |
| PointCycles.CycleTables | cmd/mq_json/exporter.go:239-688 | the tables are well formed and free of any influence of the cache, at that time and at the end of the cycle |
| PointCycles.UnionForm | cmd/mq_json/exporter.go:239-688 | at the end a published point has the last polled value of each name, otherwise the count or the last published one |
| PointCycles.CacheStaysHonest | cmd/mq_json/exporter.go:734-770 | over all cycles from the empty cache, published, statistics, count and status names included, the cache holds only true conversions |
| PointCycles.CycleIsOnePass | cmd/mq_json/exporter.go:364-688 | in every polling cycle after any others, the nested loops equal one pass iff there is a channel attribute or nothing else was polled |
| PointCycles.Collector.CollectNext | cmd/mq_json/exporter.go:225-708 | a cycle's tables, cache and written list are those of its gathered values and the cycles before |
| PointCycles.Collector.Collect | cmd/mq_json/exporter.go:219-224 | the very first cycle writes nothing and leaves cache and list as they are |
| PointCycles.WrittenUnion | cmd/mq_json/exporter.go:685-693 | a queue or queue manager both published and polled is one point, written at least twice, each copy with the last polled value per name, otherwise the count or the last published one |
| PointCycles.WrittenQueue | cmd/mq_json/exporter.go:410-450 | the entry "queue/" + name of a polled queue published under its name is that published point, written at least twice |
| PointCycles.WrittenQMgr | cmd/mq_json/exporter.go:475-510 | the entry "qmgr/" + name of the polled queue manager is the point published under "@self", if there is one |
| PointCycles.WrittenApart | cmd/mq_json/exporter.go:364-681 | any other polled object has a point of its own with the last polled value of each name, of its type, sharing no metric map |
| PointCycles.EntriesArePolled | cmd/mq_json/exporter.go:364-681 | after a polling cycle the status table has exactly the entries of the objects polled |
| PointCycles.PublishedPoint | cmd/mq_json/exporter.go:239-361 | every published key has a point, typed by the key alone; the count shows in the queue manager's under "exporterPublications" unless that was polled |
| PointNaming.CacheIsOfAllCalls | cmd/mq_json/exporter.go:239-770 | over any cycles and any names, the cache is that of all their conversions in order, each for the type of the point its value joins |
| PointNaming.WrongNamesIff | cmd/mq_json/exporter.go:734-770 | a published value's name comes out wrong iff it is a queue's with the prefix and was itself converted before, in any cycle |
| PointAssembly.AssemblyIsOnePass | cmd/mq_json/exporter.go:364-688 | the whole in-place assembly, cache and repetition included, equals one plain pass |
| PointEmission.Chunk | cmd/mq_json/exporter.go:774-788 | the blocks join to the input, all but the last of the requested size, none empty |
| PointEmission.BlocksAreUnique | cmd/mq_json/exporter.go:774-788 | there is only one such cutting |
| PointEmission.NoLimitOneBlock | cmd/mq_json/exporter.go:777-779 | a size of zero or less gives a single block, or none for no points |
| PointEmission.PointsKept | cmd/mq_json/exporter.go:683-697 | after any run the list is the last polling cycle's status points and all published and statistics points since |
| PointEmission.OrderOfReading | cmd/mq_json/exporter.go:683-697 | as a multiset the list does not depend on the order in which maps are read |
| PointEmission.Emitter.Skip | cmd/mq_json/exporter.go:219-224 | the first cycle keeps nothing |
| PointEmission.Emitter.Emit | cmd/mq_json/exporter.go:683-708 | any other writes the whole list, each table entry once, in blocks |
| PointEmission.MergedPointWrittenTwice | cmd/mq_json/exporter.go:685-693 | a point in both tables is written at least twice, each time with its one metric map, and exactly once from each table that holds it under one key |
| OtelMetrics.Reader.AddMetric | cmd/mq_otel/reader.go:87-170 | a gauge value is stashed and a new gauge registered, a counter value goes to the meter; a refused one is lost |
| OtelMetrics.Reader.GetMetrics | cmd/mq_otel/reader.go:186-212 | a pass clears every stash, adds all reports and evicts the gauges with nothing stashed |
| OtelMetrics.InstrumentIff | cmd/mq_otel/reader.go:93-106 | a report falls under an instrument iff it is of its series and metric, for queues with or without a leading "queue_" |
| OtelMetrics.SameInstrumentIff | cmd/mq_otel/reader.go:93-106 | two reports share an instrument iff their series are equal and their names are, but for one leading "queue_" for queues |
| OtelMetrics.GaugesOfThisCycle | cmd/mq_otel/reader.go:843-851 | after a pass the instrument of a series and metric is in the gauge map iff the pass reported it, with exactly the pass's values in order |
| OtelMetrics.DuplicateCallbacksInvisible | cmd/mq_otel/reader.go:172-181 | what is observed is the last value of each tag set, however many callbacks are registered |
| OtelMetrics.OneCallbackPerReturn | cmd/mq_otel/reader.go:122-143 | a pass registers one more callback for a gauge iff the gauge comes into being in it, for the first time or after having been evicted |
| OtelMetrics.Loop.Turn | cmd/mq_otel/main.go:239-282 | one turn gathers, collects and exports as far as nothing fails; fatal iff more than the allowed failures in a row |
| OtelMetrics.CountersConserved | cmd/mq_otel/main.go:239-252 | for each series, metric and tag set, amounts handed over and pending add up to all values ever added, whatever failed; after a turn that collects all are handed over |
| OtelMetrics.FailedTurnLosesGauges | cmd/mq_otel/main.go:239-252 | a turn in which gathering or collecting fails hands over no gauge, and the next one only its own values |
| OtelMetrics.ErrorsInARow | cmd/mq_otel/main.go:239-274 | the error count is the number of turns up to now that failed in a row, in gathering, collecting or exporting |
| StatusPolling.Poll.CollectJson | cmd/mq_json/exporter.go:112-198 | which steps run, and the error passed on is the last failure, non-nil iff some executed step failed |
| StatusPolling.Poll.CollectOtel | cmd/mq_otel/reader.go:237-328 | likewise for the OpenTelemetry collector, which stops earlier |
| StatusPolling.ObjectStepsIff | cmd/mq_json/exporter.go:130-190 | which object types are polled on which platform and with which patterns, each once and in one order |
| StatusPolling.StepsIff | cmd/mq_otel/reader.go:237-328 | when either collector goes on to the object types after queues and queue manager |
| StatusPolling.LastErrorIsLast | cmd/mq_json/exporter.go:112-198 | the error passed on is that of the last step to fail |
| StatusPolling.SamePollsFail | cmd/mq_otel/reader.go:237-328 | the two collectors fail on the same polls although they may run different steps |
| StatusPolling.ErrorBudget.HandleStatus | pkg/errors/errors.go:44-61 | fatal iff the failures in a row, this one included, exceed three |
| StatusPolling.DeadIffFourInARow | pkg/errors/errors.go:34-61 | over a whole run, the budget is exceeded iff four consecutive calls fail somewhere |
| StatusPolling.JsonDeathImpliesOtelDeath | pkg/errors/errors.go:34-61 | on the same schedule and outcomes, when JSON has exceeded its budget OpenTelemetry has exceeded it by then |
| StatusPolling.JsonDeadIff | cmd/mq_json/exporter.go:101-200 | JSON has died iff four adjacent cycles all polled and failed |
| StatusPolling.OtelDeadIff | cmd/mq_otel/reader.go:225-328 | OpenTelemetry has exceeded its budget iff four successive polls failed, whatever lies between |
| StatusPolling.DieTogetherIff | pkg/errors/errors.go:34-61 | for a given schedule the two exceed their budgets on the same outcomes iff every four successive polls lie in four adjacent cycles |
| StatusPolling.OtelMayDieAlone | cmd/mq_json/exporter.go:101-200 | a run in which only OpenTelemetry exceeds its budget |
| ProcessDeath.OtelProcess.OneTurn | cmd/mq_otel/main.go:239-274 | a turn ends the process iff its poll exceeds the budget or the failing turns in a row exceed the main loop's limit |
| ProcessDeath.ProcessDeadIff | cmd/mq_otel/main.go:239-274 | over a whole run the process has ended iff four successive polls failed or one more adjacent turns than the limit failed for whatever reason |
| ProcessDeath.OtelDiesIff | cmd/mq_otel/main.go:239-274 | with nothing but polls failing, it has ended iff four successive polls or one more adjacent cycles than the limit polled and failed |
| ProcessDeath.BudgetDecidesIff | cmd/mq_otel/main.go:271-274 | with nothing but polls failing, the budget alone decides in all runs iff the limit is three or more |
| ProcessDeath.DieTogetherIff | cmd/mq_otel/main.go:271-274 | for a given schedule and limit the JSON and OpenTelemetry processes die on the same outcomes iff every four successive polls are adjacent and a limit below three is nowhere exceeded by adjacent polls |
| ProcessDeath.JsonDeathImpliesProcessDeath | pkg/errors/errors.go:34-61 | whatever the limit, when JSON has died the OpenTelemetry process has died by then |
| StatusPolling.PollClock.Collect | cmd/mq_otel/reader.go:225-235 | which cycles poll, told from the cycles' times |
| StatusPolling.PollSpacing | cmd/mq_otel/reader.go:225-235 | n polls span at least n - 1 intervals |
| StatusPolling.NextPoll | cmd/mq_json/exporter.go:98-108 | the next poll is at the first cycle at or after the previous poll plus the interval, and conversely |
| ConfigParms.Registry.AddParm | pkg/config/config.go:128-145 | a parameter replaces an earlier one with the same key and touches no other |
| ConfigParms.Registry.AddStatusFlags | pkg/config/config.go:240-241 | after the two status flags are added, a command line with the older one is not understood |
| ConfigParms.Registry.RegisterFlags | pkg/config/config.go:290-320 | every flag gets the non-empty environment value or its default; panics iff flag names repeat or kinds do not match |
| ConfigParms.Registry.ParseFlags | pkg/config/config.go:322 | the last of several settings of a flag decides; unknown or ill-typed flags end the program |
| ConfigParms.Registry.ParseParms | pkg/config/config.go:277-353 | each parameter's value is the command line's, else a non-empty environment value, else the default, and it is marked as given iff one of the first two |
| ConfigParms.Registry.CopyFile | pkg/config/configyaml.go:137-192 | a value of the file is taken iff the parameter was not given; panics iff a given one is read as another kind |
| ConfigParms.Registry.Configure | cmd/mq_json/config.go:55-80 | the full order of precedence with the file read iff its parameter is not empty, and exactly when start-up exits, panics or fails |
| ConfigParms.WhatPrevails | pkg/config/config.go:277-353 | the value of a parameter is the last setting of its flag on the command line; without any, a non-empty environment value; without that, the file's entry; and else the default |
| ConfigParms.GivenIff | pkg/config/config.go:295-335 | a parameter counts as given iff some setting of the command line or a non-empty environment value gives it |
| ConfigParms.Registry.ReadsFileIff | cmd/mq_json/config.go:55-80 | the file is read iff what prevails for its own parameter is not the empty text |
| ConfigParms.OnlyWaitIntervalClashes | pkg/config/configyaml.go:137-192 | with parameters registered as shipped, reading a file panics iff it reaches the wait interval and that was given |
| ConfigValues.OnlyWaitMismatch | pkg/config/config.go:211 | of all shipped parameters only the wait interval is read as another kind than registered |
| ConfigValues.DefaultSurvivesIff | pkg/config/config.go:366-600 | exactly which built-in defaults are in force after a file without an entry is read and verified, pattern files and forced monitoring of all queues included |
| ConfigValues.NoErrorsTolerated | cmd/mq_otel/config.go:76 | a file without an entry for the error limit makes it zero |
| ConfigValues.EntryReads | pkg/config/configyaml.go:111-133 | what reaches a parameter's place from each kind of entry of the file |
| ConfigValues.ListReads | pkg/config/configyaml.go:309-325 | a list of the file comes back when split iff it is not empty and free of commas |
| ConfigValues.PatternsReach | pkg/config/config.go:426-480 | a pattern file decides for queues unless there are statistics, for all kinds of channels, topics and subscriptions, and for nothing else |
| ConfigValues.TextDefaultsTellApart | pkg/config/config.go:200-262 | only the reply queue and the statistics queue are by default the queue manager's own |
| ConfigValues.EverythingByDefault | pkg/config/config.go:200-262 | only topics and subscriptions are all monitored by default |
| ConfigValues.ShortTimesTellApart | pkg/config/config.go:200-262 | the polling and the reconnect interval are the only ones with their defaults |
| ConfigValues.HoursTellApart | pkg/config/config.go:200-262 | the rediscovery interval and the time zone offset are the only ones with their defaults |
| ConfigValues.IntervalsTellApart | cmd/mq_json/config.go:57 | only the two collectors' own intervals are ten seconds by default |
| ConfigValues.NamesTellApart | pkg/config/config.go:200-262 | only the log level is "error" and only the port 9157 by default |
| ConfigValues.PromNamesTellApart | cmd/mq_prometheus/config.go:88-97 | only the path and the namespace have their defaults |
| ConfigValues.OtherDefaultsTellApart | pkg/config/config.go:200-262 | only two switches are on, two numbers are a hundred and the wait interval is three by default |
| ConfigValues.DecimalIff | pkg/config/config.go:309 | a number is one or more digits with or without a sign and stands for what its digits do |
| ConfigValues.WrittenReads | pkg/config/config.go:309 | every integer comes back from its decimal writing: as itself if it has 64 bits, else as the nearest limit from the environment and as the default from the file |
| ConfigValues.NoNumberReads | pkg/config/configyaml.go:118-133 | anything else counts as zero from the environment and as the default from the file |
| ConfigValues.BoolIff | pkg/config/config.go:315 | a truth value is a digit, or a word or its first letter in one of three spellings; from the environment anything else counts as false |
| ConfigValues.EnvVarKeyIff | pkg/config/config.go:128-130 | two parameters have the same key iff section and name agree but for upper and lower case |
| ConfigValues.VerifyingChangesLittle | pkg/config/config.go:593-600 | with statistics all queues are monitored whatever is given; apart from that and from what is monitored, verifying changes nothing but empty texts |
| ConfigMetadata.JoinList | pkg/config/configyaml.go:309-325 | the loop joins the list with commas |
| ConfigMetadata.Metadata.CopyFile | pkg/config/configyaml.go:195-208 | a map replaces the strings by arrays of its pairs, else given strings win over the file's lists |
| ConfigMetadata.Metadata.Verify | pkg/config/config.go:551-559 | non-empty tags are split with the values and must be equally many |
| ConfigMetadata.Configure | pkg/config/config.go:551-559 | on every path success means as many values as tags |
| ConfigMetadata.LabelWith | pkg/config/configyaml.go:195-208 | so labelling with a successful configuration never goes out of range |
| ConfigMetadata.ListsSurviveIff | pkg/config/configyaml.go:309-325 | the file's lists come through join and split unchanged iff equally long, free of commas and not one empty tag |
| ConfigMetadata.StringsFailIff | pkg/config/config.go:551-559 | given strings are refused iff there are tags and the numbers of commas differ |
| ConfigMetadata.MissingValues | pkg/config/config.go:551-559 | tags without values: a single tag gets an empty value, more are in error |
| ConfigMetadata.NothingGiven | pkg/config/config.go:551-559 | without tags, values alone are ignored |
| ConfigMetadata.Filters.AddFile | pkg/config/configyaml.go:213-268 | only types without a string take the file's names; exactly which entries crash or are refused |
| ConfigMetadata.Filters.AddText | pkg/config/config.go:561-590 | each type's string, spaces removed, adds its comma-separated names |
| ConfigMetadata.ChooseFilters | pkg/config/config.go:561-590 | an accepted filter has the names of exactly one source |
| ConfigMetadata.TextNamesIff | pkg/config/config.go:561-590 | the names of a string are its parts between commas without their spaces; a string of spaces alone has none |
| ConfigMetadata.CrashesIff | pkg/config/configyaml.go:232-247 | a list for a type without a string crashes iff there is a name and no such type, or an element that is no name |
| ConfigMetadata.RefusesIff | pkg/config/configyaml.go:232-247 | an entry is refused iff it is no list and the type has no string |
| ConfigMetadata.FromFileIff | pkg/config/configyaml.go:232-247 | the file's names for a type are those of its lists, if the type has no string |
| Strings.SplitInvertsJoinIff | pkg/config/config.go:551-559 | joining then splitting is the identity iff the list is not empty and free of the separator |
| Strings.JoinOfSplit | pkg/config/config.go:551-559 | splitting then joining is always the identity |
| Strings.LetterMaps | cmd/mq_json/exporter.go:757-763 | the letters of one case go to those of the other, place by place, and back |
| Strings.OthersStay | cmd/mq_json/exporter.go:757-763 | no other character changes |
| MqiNames.PrettyName | amqsevtg/format.go:194-227 | the one-pass scanner gives the camel case of what follows the first underscore, or nothing without one |
| MqiNames.PrettifyJson | dspmqrtj/format.go:107-127 | the loop over the tokens, with its possible index panic |
| MqiNames.PlainAndJson | dspmqrtj/format.go:104-127 | for any text the second form is the first with a small initial, and panics iff that is empty; without an underscore the text stays or goes to lower case |
| MqiNames.FirstToken | dspmqrtj/format.go:107-127 | what is before the first underscore is dropped and a longer token after it capitalised, one of a single letter left as it is |
| MqiNames.NextToken | dspmqrtj/format.go:107-127 | and so on, token by token |
| MqiNames.ScannerMatchesSplitter | amqsevtg/format.go:194-227 | for upper-case text, exactly when scanner and splitter agree |
| MqiNames.NonEmptySecondToken | dspmqrtj/format.go:107-127 | they agree on every upper-case constant with a non-empty second token |
| MqiNames.OptionBits | amqsevtg/format.go:65-82 | the loop lists the set bits of the 32-bit word, and "None" for zero |
| MqiNames.NoOptionsIff | amqsevtg/format.go:65-82 | "None" is shown exactly for a word without a set bit |
| MqiNames.SetBitsSum | amqsevtg/format.go:65-82 | the listed bits add up to the word |
| MqiNames.OptionBitsDetermineValue | amqsevtg/format.go:65-82 | two 32-bit words have the same listed bits iff they are equal |

## Left out

- The MQ library: connecting, subscribing, decoding and normalising are inputs that may fail; `ibmmq` is not part of this model.
- The Prometheus and OpenTelemetry client libraries: a vector is a map from label set to value, a meter keeps pending amounts and callbacks. Values are integers instead of floating-point numbers.
- CollectorLifecycle.OneHostPerProcess: of all that may change from one connection to the next only the hostname support is modelled, so registering panics for no other reason; unregistering finds the old collector, which holds while it describes the names it was registered with (`MetricRegistry` has the general condition).
- MetricRegistry.ReconnectsSurviveIff: hashes of names, labels and help texts are taken to be different for different ones, and the old collector to describe the names it registered.
- ProcessDeath.DieTogetherIff: about failing polls only; a rediscovery that hides a poll's error from the main loop is not modelled.
- ConfigValues.DefaultSurvivesIff: a pattern file that cannot be read, which ends the program, is not modelled.
- HTTP and TLS serving, passwords, logging, JSON text, YAML decoding, time zones and time formatting.
- MetricVectors.MQVec.AddMetric: does not model the client library's panic on labels that do not fit; when labels fit is the subject of `MetricLabels`.
- OtelMetrics.Loop.Turn: whether GetMetrics fails after having added its values is an input, so rediscovery hiding a poll's error is not modelled.
- CollectorLifecycle.CollectOnlyAfterRegister: a scrape that the registry started with an exporter since replaced is not modelled.
- PointEmission.Emitter.Emit: the statistics points are an input; of building their table only the name conversions are modelled.
- TraceReceiver.Tracer.ParseMsg: takes the parameters of a message as a list of trees; reading them from the buffer, and a mismatch with the header's parameter count, is not modelled.
- TraceStamps.StampsAreOwn: a timestamp is kept as its pair of texts; parsing it into a time is not modelled.
- TraceSummary.VisitTells: elapsed times are not modelled.
- TraceReceiver.Tracer.DoTrace: of an error only that there is one is modelled, not its text.
- TraceReceiver.Tracer.StartTrace: reports filed at index 0 may replace the first activity by the parser's current one; what it then reads is not promised.
- StatusPolling.OtelMayDieAlone: one run; the exact conditions are those of the two lemmas named `DieTogetherIff`.
- StatusPolling.OtelDeadIff: about the budget only; `ProcessDeath.ProcessDeadIff` is about the process.
- StatusPolling.DieTogetherIff: about the budgets only; `ProcessDeath.DieTogetherIff` is about the processes.
- PointTables.SlashesMayMerge: one pair of objects; the exact condition is that of `SameEntryIff`.
- TraceStamps.DateMayBeBorrowed: one report; the exact condition is that of `StampsAreOwnIff`.
- MetricVectors.StatusExporter.Collect: whether a scrape polls is an input, and the readings of a poll that fails are not modelled.
- TraceParser.Parser.IntElement: the names of MQ constants are kept as their table and number, and looked up nowhere.
- MqiNames.PrettyName: upper and lower case are those of ASCII letters.
- ConfigParms.Registry.ParseFlags: settings come with their text already read as a value of some kind.
- ConfigParms.Registry.ParseParms: positional arguments left over, which make the caller stop, are not modelled.
- ConfigParms.Registry.Configure: every value of the file belongs to a registered parameter, as all shipped ones do, and the one that names the file shares its place with no other.
- The special replacements of the event formatter, its callbacks, the debugging output and the tables of constants are not modelled.
