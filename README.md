# LogWatcherSvc core in Dafny

LogWatcherSvc is a Windows service that publishes two kinds of
performance counters:

- **Events per second (EPS) per event-log channel.** At start the service
  reads the `EventChannel` setting, a `;`-separated list. It keeps every
  non-empty, trimmed, readable, not yet listed channel name. It gives each
  kept channel a performance-counter instance name with the characters that
  instance names forbid replaced, a stored record id of 0 and a
  newest-first query. On every timer tick it reads each channel's newest
  event and takes the `EventRecordId` out of the event's bookmark text. It
  publishes the difference to the previous id, scaled to one second. It
  removes the channels whose read failed.
- **Active and total sources per Windows Event Collector subscription.**
  These come from the collector's registry configuration
  (`WecSubscriptionInfo`). A source is active unless it reports a
  `LastError` or its last heartbeat is at least one subscription
  heartbeat interval old. That interval is the subscription's own, or else the
  one of its configuration mode.

The model has these modules:

- `Wrappers`: `Option` and `Result`.
- `Seqs`: counting, filtering, duplicate freedom, and the removal semantics
  of `List<T>.Remove`.
- `Strings`: `Trim`, `Split`, `String.Replace(p, "")`, and `UInt64.TryParse`
  and `UInt64.ToString`.
- `InstanceName`: `scrubInstanceName`.
- `ChannelList`: the channel-list loading loop of `OnStart`, as a fold.
- `Bookmark`: `GetEventBookmarkID`, over the bookmark's text.
- `EpsSampler`: the sampler state as a `class Sampler` with the source's
  separate list fields. Its methods are the loading loop, the interval check
  and `_epsTimer_Elapsed`. Each state-changing method is proved against the
  specification function `AfterTick`, `Extend` or `KeepAll`.
- `Registry`: an immutable registry tree and the typed value readers.
- `WecSubscription`: every member of `WecSubscriptionInfo.cs`, over a
  session value.
- `CollectorMonitor`: the subscription-counter glue. It has the
  registration loop of `OnStart`, `populateEventCollectorValues` and
  `_epsTimer_Elapsed2`, in a `class Monitor`.

The outside world enters as parameters:

- `isChannel` tells whether the start-time reader test of a channel
  succeeds (kept) or throws one of the two exceptions it catches (skipped).
  A test that throws anything else is not modelled.
- `info` is `GetLogInformation` per channel name.
- `read` is the first `ReadEvent` per query.
- `hklm` is the 64-bit local-machine hive.
- `now` is the current time in ticks.

The model keeps these behaviours of the code:

- **The EPS delta is not clamped.** It is computed in unsigned 64-bit
  arithmetic, so an id that went backwards publishes a huge rate
  (`EpsBackward`).
- **Indices drift after a removal.** Only `ChannelNames` shrinks when a
  channel is removed. The parallel lists keep their length, so on the next
  tick the channel that moved down reads through the query of the removed
  one (`IndexDrift`).
- **An aborted tick stops the sampler.** When an iteration throws out of
  the handler (`GetLogInformation` and the reader constructor sit outside
  every `try`, and a missing event fails at its bookmark), the tick is abandoned with
  `EpsCounterRunning` still true, so every later tick does nothing
  (`TickFlags`).
- **The mode-table result is ignored.** The constructor discards the
  result of building the configuration-mode table.
- **A mode subkey that vanishes makes construction fail.** If a mode
  subkey disappears between enumeration and opening, a null key reaches
  the DWORD reader and construction throws (`OpenError.ModeKeyVanished`).
- **The two source-count variants disagree** (`CountVariants`):
  - With an empty source list and a resolvable heartbeat interval, the
    sequential variant succeeds with 0/0 and the parallel one fails.
  - With sources present and an unresolvable heartbeat interval, the
    parallel variant succeeds with 0/0 and the sequential one fails.
  - With an empty source list and no interval, both fail; in every other
    case they agree.
- **An unregistered subscription stops the enumeration.** A subscription
  enabled after start has no counters, so its dictionary lookup throws
  and ends the enumeration. The model runs the subscriptions in order up
  to that lookup (`FirstUnregistered`).
- **Scrubbing is not injective.** Two channels such as `App(1)` and
  `App[1]` share one instance name (`ScrubNotInjective`).

Several specification functions carry no row of their own; the rowed
lemmas pin them down:

- `EpsSampler.Eps`, the rate formula of `LogWatcherSvc.cs:535`, is specified by `EpsForward` and `EpsBackward`.
- `ChannelList.KeepAll`, the loading loop of `LogWatcherSvc.cs:121-191`, is specified by `KeepAllPrefix`, `KeepAllMembers`, `KeepAllNoDuplicates`, `KeepAllAdded`, `KeepAllOrder` and `LoadedChannels`.
- `Bookmark.IsRecordIdToken` and `Bookmark.Residue`, the token test and clean-up of `LogWatcherSvc.cs:674-677`, are specified by `FoundTextLast`, `FoundTextNone`, `LastTokenWins` and the `Example…` lemmas.
- `CollectorMonitor.Published`, the values written at `LogWatcherSvc.cs:576-588`, is specified by `PublishedBounded`.
- `CollectorMonitor.AfterEnumeration`, the enumeration of `LogWatcherSvc.cs:350-378`, is specified by `PopulatedEntries`, `EnumerationKeepsCounters` and `EnumerationWritesAll`.

## Model

| member | source | states |
|---|---|---|
| InstanceName.LegalChar | LogWatcherSvc/LogWatcherSvc/LogWatcherSvc.cs:391-418 | the mapped character is never one of `( ) # \ /`, and a legal character maps to itself |
| InstanceName.ReplaceChar | LogWatcherSvc/LogWatcherSvc/LogWatcherSvc.cs:397-415 | one `String.Replace` of a character keeps the length and replaces exactly the occurrences of `from` |
| InstanceName.Scrub | LogWatcherSvc/LogWatcherSvc/LogWatcherSvc.cs:391-418 | the instance name has the channel name's length, maps each character by the table, and contains no illegal character |
| InstanceName.ScrubClean | LogWatcherSvc/LogWatcherSvc/LogWatcherSvc.cs:157-170 | a channel name without illegal characters is its own instance name, which is the case the source does not log |
| InstanceName.ScrubIdempotent | LogWatcherSvc/LogWatcherSvc/LogWatcherSvc.cs:391-418 | scrubbing an instance name again changes nothing |
| InstanceName.ScrubNotInjective | LogWatcherSvc/LogWatcherSvc/LogWatcherSvc.cs:157-177 | two distinct channel names get the same performance-counter instance |
| Strings.Trim | LogWatcherSvc/LogWatcherSvc/LogWatcherSvc.cs:123 | the trimmed piece is no longer than the piece and neither starts nor ends with white space |
| Strings.TrimStartDrops | LogWatcherSvc/LogWatcherSvc/LogWatcherSvc.cs:123 | everything dropped from the front of the piece is white space |
| Strings.TrimEndDrops | LogWatcherSvc/LogWatcherSvc/LogWatcherSvc.cs:123 | everything dropped from the end of the piece is white space |
| Strings.TrimSlice | LogWatcherSvc/LogWatcherSvc/LogWatcherSvc.cs:123 | the trimmed piece is the slice of the piece between a white-space prefix and a white-space suffix; with `Trim`'s ensures this fixes the result |
| Strings.TrimUnchanged | LogWatcherSvc/LogWatcherSvc/LogWatcherSvc.cs:123 | a string with no white space at either end is unchanged by trimming |
| Strings.TrimIdempotent | LogWatcherSvc/LogWatcherSvc/LogWatcherSvc.cs:123 | trimming twice is trimming once |
| Strings.Split | LogWatcherSvc/LogWatcherSvc/LogWatcherSvc.cs:119 | splitting yields at least one piece and no piece contains the separator |
| Strings.JoinSplit | LogWatcherSvc/LogWatcherSvc/LogWatcherSvc.cs:669 | joining the pieces with the separator restores the string, so the split loses nothing |
| Strings.SplitJoin | LogWatcherSvc/LogWatcherSvc/LogWatcherSvc.cs:669 | splitting a join of separator-free pieces returns exactly those pieces |
| Strings.RemoveAllChar | LogWatcherSvc/LogWatcherSvc/LogWatcherSvc.cs:677 | `Replace("'", "")` keeps exactly the characters other than the quote, in their order and number |
| Strings.RemoveAllAbsent | LogWatcherSvc/LogWatcherSvc/LogWatcherSvc.cs:677 | `Replace(p, "")` leaves a string in which `p` never occurs unchanged |
| Strings.RemoveAllSkip | LogWatcherSvc/LogWatcherSvc/LogWatcherSvc.cs:677 | text that cannot start the pattern passes through `Replace(p, "")` unchanged |
| Strings.ParseULong | LogWatcherSvc/LogWatcherSvc/LogWatcherSvc.cs:682 | `ulong.TryParse` succeeds only with a value below 2^64 |
| Strings.FormatValue | LogWatcherSvc/LogWatcherSvc/LogWatcherSvc.cs:682 | the decimal digits written for `n` denote `n` |
| Strings.ParseFormat | LogWatcherSvc/LogWatcherSvc/LogWatcherSvc.cs:682 | round trip: every unsigned 64-bit value parses back from its decimal form |
| Strings.ParseEmpty | LogWatcherSvc/LogWatcherSvc/LogWatcherSvc.cs:662-695 | the empty string, which is what is left when no token was found, does not parse |
| ChannelList.ConfigCandidatesTrimmed | LogWatcherSvc/LogWatcherSvc/LogWatcherSvc.cs:119-123 | every candidate taken from the setting is already trimmed |
| ChannelList.KeepAllPrefix | LogWatcherSvc/LogWatcherSvc/LogWatcherSvc.cs:144-146 | loading only appends: the channels already listed stay, in place |
| ChannelList.KeepAllMembers | LogWatcherSvc/LogWatcherSvc/LogWatcherSvc.cs:131-146 | a name ends up listed if and only if it was listed before or is an eligible candidate |
| ChannelList.KeepAllNoDuplicates | LogWatcherSvc/LogWatcherSvc/LogWatcherSvc.cs:144 | the list never holds a channel twice |
| ChannelList.KeepAllAdded | LogWatcherSvc/LogWatcherSvc/LogWatcherSvc.cs:131-146 | every appended name is an eligible candidate |
| ChannelList.KeepAllOrder | LogWatcherSvc/LogWatcherSvc/LogWatcherSvc.cs:121-146 | appended channels are in the order of their first occurrence in the setting |
| ChannelList.LoadedChannels | LogWatcherSvc/LogWatcherSvc/LogWatcherSvc.cs:115-226 | a load from an empty list keeps exactly the non-empty readable candidates, trimmed, without duplicates, in first-occurrence order |
| Bookmark.FoundTextLast | LogWatcherSvc/LogWatcherSvc/LogWatcherSvc.cs:672-679 | the text kept is the residue of the last token that starts with `RecordId='` once trimmed; earlier matches are overwritten |
| Bookmark.FoundTextNone | LogWatcherSvc/LogWatcherSvc/LogWatcherSvc.cs:662-679 | without a record-id token the text stays empty |
| Bookmark.LastRecordIdText | LogWatcherSvc/LogWatcherSvc/LogWatcherSvc.cs:672-679 | the loop over the elements computes the residue of the last record-id token |
| Bookmark.RecordIdOf | LogWatcherSvc/LogWatcherSvc/LogWatcherSvc.cs:660-695 | the record id read from a bookmark text is an unsigned 64-bit value |
| Bookmark.BookmarkRecordId | LogWatcherSvc/LogWatcherSvc/LogWatcherSvc.cs:642-645 | a null bookmark yields 0, and every id is below 2^64 |
| Bookmark.GetEventBookmarkId | LogWatcherSvc/LogWatcherSvc/LogWatcherSvc.cs:633-695 | the method returns the record id of the bookmark, or 0 for a null one |
| Bookmark.NoRecordIdToken | LogWatcherSvc/LogWatcherSvc/LogWatcherSvc.cs:662-695 | a bookmark text without a record-id token yields 0 |
| Bookmark.LastTokenWins | LogWatcherSvc/LogWatcherSvc/LogWatcherSvc.cs:669-695 | for a text made of space-free tokens, the id is the parse of the last record-id token's residue |
| Bookmark.ExampleStripPrefix | LogWatcherSvc/LogWatcherSvc/LogWatcherSvc.cs:713-714 | removing `RecordId='` from the example token leaves the digits and the closing quote |
| Bookmark.ExampleStripQuote | LogWatcherSvc/LogWatcherSvc/LogWatcherSvc.cs:715-717 | removing the quote then leaves the digits alone |
| Bookmark.ExampleResidue | LogWatcherSvc/LogWatcherSvc/LogWatcherSvc.cs:709-717 | the residue of the example token is `2895256966` |
| Bookmark.ExampleBookmark | LogWatcherSvc/LogWatcherSvc/LogWatcherSvc.cs:698-717 | the example bookmark list yields record id 2895256966 |
| EpsSampler.Outcome | LogWatcherSvc/LogWatcherSvc/LogWatcherSvc.cs:442-529 | an iteration aborts if and only if `GetLogInformation` throws, or the channel has records and the read yields no event or an uncaught exception; it quarantines if and only if the channel has records and the read throws one of the three caught exceptions; a channel without records samples 0; a read event samples its bookmark's record id, 0 for a null bookmark; every sampled id is below 2^64 |
| EpsSampler.EmptyChannel | LogWatcherSvc/LogWatcherSvc/LogWatcherSvc.cs:457-527 | a channel with no records is sampled as id 0 without reading, whatever the reader would do |
| EpsSampler.ReadChannelOutcome | LogWatcherSvc/LogWatcherSvc/LogWatcherSvc.cs:457-468 | a channel with records and a readable event is sampled as the record id of that event's bookmark |
| EpsSampler.OutcomesAt | LogWatcherSvc/LogWatcherSvc/LogWatcherSvc.cs:440-460 | iteration `i` reads the channel named at `i` through the query stored at `i` |
| EpsSampler.OutcomesBounded | LogWatcherSvc/LogWatcherSvc/LogWatcherSvc.cs:466 | every sampled id of a run is an unsigned 64-bit value |
| EpsSampler.FirstAbort | LogWatcherSvc/LogWatcherSvc/LogWatcherSvc.cs:440-455 | the iterations run up to, and not past, the first that throws out of the handler: `GetLogInformation` throwing, a missing event, or an uncaught reader exception |
| EpsSampler.FirstAbortAt | LogWatcherSvc/LogWatcherSvc/LogWatcherSvc.cs:440-455 | when no iteration before `k` aborts and iteration `k` does (or there is none), the run stops at `k` |
| EpsSampler.AbortsFirst | LogWatcherSvc/LogWatcherSvc/LogWatcherSvc.cs:451-455 | a tick aborts if and only if some iteration throws out of the handler: `GetLogInformation` throwing, a missing event, or an uncaught reader exception |
| EpsSampler.IdsAfterEntries | LogWatcherSvc/LogWatcherSvc/LogWatcherSvc.cs:530 | after `k` iterations each sampled channel before `k` stores its new id, and every other stored id is unchanged |
| EpsSampler.PublishedAfterEntries | LogWatcherSvc/LogWatcherSvc/LogWatcherSvc.cs:530-554 | after `k` iterations each sampled channel before `k` publishes the EPS against its previous id, and no other counter changes |
| EpsSampler.QuarantineMembers | LogWatcherSvc/LogWatcherSvc/LogWatcherSvc.cs:476-515 | the channels collected for removal are exactly the names of the quarantined iterations |
| EpsSampler.QuarantineNone | LogWatcherSvc/LogWatcherSvc/LogWatcherSvc.cs:476-515 | without a quarantined iteration nothing is collected for removal |
| EpsSampler.EpsForward | LogWatcherSvc/LogWatcherSvc/LogWatcherSvc.cs:535 | a growing id publishes the increase per second of the interval |
| EpsSampler.EpsBackward | LogWatcherSvc/LogWatcherSvc/LogWatcherSvc.cs:535 | a shrinking id publishes the 64-bit wrapped difference per second, with no clamp |
| EpsSampler.AfterTick | LogWatcherSvc/LogWatcherSvc/LogWatcherSvc.cs:425-569 | a tick keeps the parallel lists aligned and never changes the counter instances, the queries or the interval |
| EpsSampler.TickValid | LogWatcherSvc/LogWatcherSvc/LogWatcherSvc.cs:425-569 | a tick keeps the channel names distinct and every stored id an unsigned 64-bit value |
| EpsSampler.TickFlags | LogWatcherSvc/LogWatcherSvc/LogWatcherSvc.cs:427-568 | a tick while running changes nothing; otherwise the flag stays raised if and only if the tick aborted; a first run publishes nothing |
| EpsSampler.SampledChannel | LogWatcherSvc/LogWatcherSvc/LogWatcherSvc.cs:530-554 | a sampled channel stores its new id and, after the first run, publishes its EPS against the previous id |
| EpsSampler.QuarantinedChannels | LogWatcherSvc/LogWatcherSvc/LogWatcherSvc.cs:476-565 | after a completed tick a channel stays listed if and only if it was not quarantined; a quarantined channel's stored id and counter are untouched |
| EpsSampler.IndexDrift | LogWatcherSvc/LogWatcherSvc/LogWatcherSvc.cs:440-460 | after the first of two channels is removed, the remaining channel is read through the removed channel's query on the next tick |
| EpsSampler.TwoChannelTick | LogWatcherSvc/LogWatcherSvc/LogWatcherSvc.cs:425-569 | a completed tick over two sampled channels stores both ids and publishes both rates unless it is the first run |
| EpsSampler.FirstTick | LogWatcherSvc/LogWatcherSvc/LogWatcherSvc.cs:545-557 | the first tick stores the ids and publishes nothing |
| EpsSampler.SecondTick | LogWatcherSvc/LogWatcherSvc/LogWatcherSvc.cs:530-554 | the next tick publishes 5 events per second for 5 new records in one second, and 0 for the empty channel |
| EpsSampler.TwoChannelScenario | LogWatcherSvc/LogWatcherSvc/LogWatcherSvc.cs:425-569 | two consecutive ticks: nothing published, then the per-second rates, with the channel list unchanged |
| EpsSampler.ExtendTwice | LogWatcherSvc/LogWatcherSvc/LogWatcherSvc.cs:121-191 | adding channels in two batches is adding them in one |
| EpsSampler.ExtendValid | LogWatcherSvc/LogWatcherSvc/LogWatcherSvc.cs:144-191 | adding new distinct channels, with a zero id and their own query each, keeps the sampler state valid |
| EpsSampler.Sampler.ConsiderChannel | LogWatcherSvc/LogWatcherSvc/LogWatcherSvc.cs:131-191 | one candidate adds a name, a scrubbed instance, a zero id and a query exactly when it is eligible and new |
| EpsSampler.Sampler.ConsiderPieces | LogWatcherSvc/LogWatcherSvc/LogWatcherSvc.cs:121-226 | the loop over the split pieces extends the state by the channels the fold keeps, and keeps it valid |
| EpsSampler.Sampler.LoadChannels | LogWatcherSvc/LogWatcherSvc/LogWatcherSvc.cs:115-237 | a missing setting fails with no change; otherwise the state is extended by exactly the newly kept channels |
| EpsSampler.Sampler.SetInterval | LogWatcherSvc/LogWatcherSvc/LogWatcherSvc.cs:239-278 | the start goes on if and only if the interval parses and is at least 1000 ms; nothing else changes |
| EpsSampler.Sampler.ReadChannel | LogWatcherSvc/LogWatcherSvc/LogWatcherSvc.cs:442-527 | reading one channel yields its outcome: abort, quarantine or a sampled id |
| EpsSampler.Sampler.SampleChannel | LogWatcherSvc/LogWatcherSvc/LogWatcherSvc.cs:440-549 | one iteration writes the stored id and, after the first run, the counter of index `i`, and nothing else |
| EpsSampler.Sampler.SampleNext | LogWatcherSvc/LogWatcherSvc/LogWatcherSvc.cs:440-555 | one iteration either aborts with no change or advances the state and the removal list by one channel |
| EpsSampler.Sampler.SampleAll | LogWatcherSvc/LogWatcherSvc/LogWatcherSvc.cs:440-555 | the loop stops at the first abort, and its state and removal list are those of the iterations before it |
| EpsSampler.Sampler.RemoveChannels | LogWatcherSvc/LogWatcherSvc/LogWatcherSvc.cs:559-565 | only the channel names lose the removed entries, each by first occurrence; the parallel lists keep their length |
| EpsSampler.Sampler.Tick | LogWatcherSvc/LogWatcherSvc/LogWatcherSvc.cs:425-569 | `_epsTimer_Elapsed` takes the sampler to exactly `AfterTick` of the previous state |
| Registry.OpenPathAppend | LogWatcherSvc/WecSubscriptionInfo/WecSubscriptionInfo.cs:539 | opening `a\b` is opening `a` and then `b` below it |
| Registry.OpenPathTwo | LogWatcherSvc/WecSubscriptionInfo/WecSubscriptionInfo.cs:88 | a two-component path opens if and only if both keys exist, and it gives the inner one |
| Registry.ReadDWord | LogWatcherSvc/WecSubscriptionInfo/WecSubscriptionInfo.cs:323-344 | the read succeeds if and only if the value exists as a DWORD, and then gives its data; otherwise it gives 0 |
| Registry.ReadQWord | LogWatcherSvc/WecSubscriptionInfo/WecSubscriptionInfo.cs:353-375 | the read succeeds if and only if the value exists as a QWORD, and then gives its data; otherwise it gives 0 |
| Registry.ReadString | LogWatcherSvc/WecSubscriptionInfo/WecSubscriptionInfo.cs:384-405 | the read succeeds if and only if the value exists as a string, and then gives its data; otherwise it gives the empty string |
| Registry.ReadsExclusive | LogWatcherSvc/WecSubscriptionInfo/WecSubscriptionInfo.cs:323-405 | at most one typed read of a name succeeds; within the three modelled kinds (DWORD, QWORD, string), one does whenever the value is present |
| WecSubscription.Connect | LogWatcherSvc/WecSubscriptionInfo/WecSubscriptionInfo.cs:57-77 | the connection succeeds if and only if the hive opens and the `EventCollector` key exists with at least one subkey |
| WecSubscription.ModeTableFromFails | LogWatcherSvc/WecSubscriptionInfo/WecSubscriptionInfo.cs:428-445 | building the table throws if and only if some listed mode subkey cannot be opened |
| WecSubscription.ModeTableFromEntries | LogWatcherSvc/WecSubscriptionInfo/WecSubscriptionInfo.cs:428-445 | a completed build holds the earlier entries and every listed mode with a DWORD heartbeat, with that mode's value |
| WecSubscription.GlobalModes | LogWatcherSvc/WecSubscriptionInfo/WecSubscriptionInfo.cs:411-448 | the build reports success if and only if `ConfigurationModes` exists with subkeys; a failed build leaves the table empty |
| WecSubscription.GlobalModeTable | LogWatcherSvc/WecSubscriptionInfo/WecSubscriptionInfo.cs:411-448 | the table maps exactly the modes with a heartbeat to their values, and the build throws exactly when a listed mode vanished |
| WecSubscription.LoadGlobalModes | LogWatcherSvc/WecSubscriptionInfo/WecSubscriptionInfo.cs:411-448 | the loop builds exactly the table `GlobalModes` describes |
| WecSubscription.Open | LogWatcherSvc/WecSubscriptionInfo/WecSubscriptionInfo.cs:41-50 | construction succeeds if and only if the connection succeeds and no mode subkey vanishes; the session holds the collector key and its mode table, whatever the build reported |
| WecSubscription.OpenWithoutModes | LogWatcherSvc/WecSubscriptionInfo/WecSubscriptionInfo.cs:41-50 | without `ConfigurationModes` the session still opens, with an empty table |
| WecSubscription.OpenSession | LogWatcherSvc/WecSubscriptionInfo/WecSubscriptionInfo.cs:41-77 | the constructor, as a method, yields exactly `Open` |
| WecSubscription.IsEnabled | LogWatcherSvc/WecSubscriptionInfo/WecSubscriptionInfo.cs:298-314 | a subscription is enabled if and only if its `Enabled` value is the DWORD 1, and the test succeeds exactly then |
| WecSubscription.EnabledSubscriptions | LogWatcherSvc/WecSubscriptionInfo/WecSubscriptionInfo.cs:241-290 | fails if and only if there is no `Subscriptions` key; otherwise the listed names are exactly the openable, enabled subscriptions |
| WecSubscription.TryGetEnabledSubscriptions | LogWatcherSvc/WecSubscriptionInfo/WecSubscriptionInfo.cs:241-290 | the loop returns exactly `EnabledSubscriptions`, and an empty list on failure |
| WecSubscription.SubscriptionSources | LogWatcherSvc/WecSubscriptionInfo/WecSubscriptionInfo.cs:507-523 | the sources are found if and only if `EventSources` exists, and they are its subkey names |
| WecSubscription.HeartbeatInterval | LogWatcherSvc/WecSubscriptionInfo/WecSubscriptionInfo.cs:456-498 | a DWORD `HeartbeatInterval` of the subscription wins; otherwise the interval is that of the string `ConfigurationMode` in the mode table, and it fails when there is none |
| WecSubscription.CustomIntervalWins | LogWatcherSvc/WecSubscriptionInfo/WecSubscriptionInfo.cs:462-468 | with its own interval, a subscription's interval does not depend on the mode table |
| WecSubscription.SourceActive | LogWatcherSvc/WecSubscriptionInfo/WecSubscriptionInfo.cs:533-588 | fails if and only if the source key is missing; a reported error means inactive, no heartbeat means active, and otherwise the heartbeat must be strictly later than now minus the interval |
| WecSubscription.HeartbeatBoundary | LogWatcherSvc/WecSubscriptionInfo/WecSubscriptionInfo.cs:568-576 | a heartbeat exactly one interval old is inactive |
| WecSubscription.SourceKeyAt | LogWatcherSvc/WecSubscriptionInfo/WecSubscriptionInfo.cs:539 | a source listed under `EventSources` opens as its own subkey |
| WecSubscription.ExampleLiveness | LogWatcherSvc/WecSubscriptionInfo/WecSubscriptionInfo.cs:533-588 | with a 60 s interval, a 30 s old heartbeat is active, a 90 s old one is not, and an error is not |
| WecSubscription.SourceCount | LogWatcherSvc/WecSubscriptionInfo/WecSubscriptionInfo.cs:86-142 | fails if and only if the subscription, its sources or its interval is missing; otherwise the total is the number of sources and is at least the active count |
| WecSubscription.ActiveCountOrder | LogWatcherSvc/WecSubscriptionInfo/WecSubscriptionInfo.cs:110-125 | the active count does not depend on the order of the sources |
| WecSubscription.MissingSourcesInactive | LogWatcherSvc/WecSubscriptionInfo/WecSubscriptionInfo.cs:114-124 | a source whose key is missing is counted in the total and never as active |
| WecSubscription.ThreeSourceExample | LogWatcherSvc/WecSubscriptionInfo/WecSubscriptionInfo.cs:86-142 | three sources, one live, one stale and one in error, count as 3 total and 1 active |
| WecSubscription.CountSources | LogWatcherSvc/WecSubscriptionInfo/WecSubscriptionInfo.cs:110-125 | the loop counts every source in the total and exactly the active ones in the active count |
| WecSubscription.TryGetSubscriptionSourceCount | LogWatcherSvc/WecSubscriptionInfo/WecSubscriptionInfo.cs:86-142 | the method succeeds exactly when `SourceCount` does, with its counts, and gives 0/0 otherwise |
| WecSubscription.SourceCount2 | LogWatcherSvc/WecSubscriptionInfo/WecSubscriptionInfo.cs:151-232 | the parallel variant gives 0/0 whenever it fails, and never more active than total |
| WecSubscription.CountVariants | LogWatcherSvc/WecSubscriptionInfo/WecSubscriptionInfo.cs:86-232 | with an empty source list the parallel variant fails and the sequential one succeeds with 0/0 exactly when the interval resolves; with sources and no interval only the parallel one succeeds, with 0/0; otherwise both give the same counts |
| WecSubscription.TryGetSubscriptionSourceCount2 | LogWatcherSvc/WecSubscriptionInfo/WecSubscriptionInfo.cs:151-232 | the method yields exactly `SourceCount2` |
| CollectorMonitor.PublishedBounded | LogWatcherSvc/LogWatcherSvc/LogWatcherSvc.cs:571-589 | published counters never show more active than total sources, and show 0/0 when the count fails |
| CollectorMonitor.FirstUnregistered | LogWatcherSvc/LogWatcherSvc/LogWatcherSvc.cs:359-362 | the enumeration writes the subscriptions before the first one without counters, and that one has none |
| CollectorMonitor.PopulatedEntries | LogWatcherSvc/LogWatcherSvc/LogWatcherSvc.cs:359-362 | after writing the first `k` subscriptions, exactly those gain or replace an entry, each with its own counts |
| CollectorMonitor.EnumerationKeepsCounters | LogWatcherSvc/LogWatcherSvc/LogWatcherSvc.cs:346-384 | an enumeration writes only registered subscriptions and keeps every value's active count at most its total |
| CollectorMonitor.EnumerationWritesAll | LogWatcherSvc/LogWatcherSvc/LogWatcherSvc.cs:346-384 | when every enabled subscription was registered at start, each of them holds its current counts afterwards |
| CollectorMonitor.Monitor.RegisterSubscriptions | LogWatcherSvc/LogWatcherSvc/LogWatcherSvc.cs:281-323 | start goes on exactly when a session opens; then every enabled subscription gets counters, replacing existing ones, and nothing else changes |
| CollectorMonitor.Monitor.Populate | LogWatcherSvc/LogWatcherSvc/LogWatcherSvc.cs:571-589 | a registered subscription's counters get its counts, or 0/0 when they cannot be determined |
| CollectorMonitor.Monitor.Tick | LogWatcherSvc/LogWatcherSvc/LogWatcherSvc.cs:346-384 | a tick during an enumeration changes nothing; otherwise the counters are those `AfterEnumeration` describes and the flag is lowered again; counters stay registered and bounded |
| CollectorMonitor.Monitor.Enumerate | LogWatcherSvc/LogWatcherSvc/LogWatcherSvc.cs:350-378 | an unusable session or subscription list changes nothing; otherwise the enabled subscriptions are written up to the first unregistered one; counters stay registered and bounded |
| CollectorMonitor.Monitor.PopulateEach | LogWatcherSvc/LogWatcherSvc/LogWatcherSvc.cs:359-367 | the loop writes the subscriptions in order and stops at the first one without counters; counters stay registered and bounded |

## Left out

- EpsSampler.Sampler.LoadChannels: the channel test is two-valued, kept or skipped. In the source the reader test catches only `EventLogNotFoundException` and `EventLogReadingException`, and the enclosing `try` only `ConfigurationErrorsException`. Any other exception, such as a plain `EventLogException`, `EventLogProviderDisabledException` or an access-denied failure, escapes `OnStart`, so the service fails to start. The model has no such outcome.

- The event-log API (`EventLogSession`, `GetLogInformation`, `EventLogReader`, `ReadEvent`) is a set of parameters. They are the channel test `isChannel`, the log information `info` and the first read `read`. A reader whose constructor throws is one kind of `ReaderThrows`.
- Bookmarks are modelled by their text. The `BinaryFormatter` serialisation and the ASCII decoding that produce it are not modelled.
- Bookmark.ExampleBookmark: its tokens are the four bookmark-list elements of the example. The binary header elements and the line breaks inside the last element are left out; none of them starts with `RecordId='`.
- EpsSampler.Eps: exact integer arithmetic, `(current - previous) mod 2^64 * 1000 / interval`. The source divides by the `double` interval first, then applies `Math.Floor` and a cast to `long`. So floating-point rounding, and the unspecified cast of rates at or above 2^63, are not modelled.
- EpsSampler.Sampler.SetInterval: takes the `EpsTimerInterval` setting already parsed, as an integer number of milliseconds. `double.TryParse` and fractional intervals are not modelled.
- EpsSampler.Sampler.Tick: channels whose names scrub to the same instance name (such as `App(1)` and `App[1]`) share one performance counter in the source, because the duplicate guard compares raw names. The model keeps one `published` entry per list slot. It does not model the later write of a tick overwriting the earlier one on the shared counter. When only one of the two is sampled, the model does not say which value the counter shows.
- Performance counters are not objects here. A channel's counter is its `published` entry, up to the sharing above, and the instances are the scrubbed names. The counter category and its creation are left out.
- Logging (`EventLog.WriteEntry`, the `TEDLOG` blocks) and `Environment.Exit` are left out. A start step that exits returns `false`.
- A missing `EventChannel` or `EpsTimerInterval` setting makes `ToString` throw `NullReferenceException`, and that exception is not caught: only `ConfigurationErrorsException` is. The model treats it as a failed start (`false`): `Sampler.LoadChannels(None, …)` and `Sampler.SetInterval(None)` both return `false`.
- Timers, `OnStop`, the installer and `LogWatcher.cs` are not part of this model; ticks are method calls. Two overlapping ticks of one timer are modelled only through the running flags.
- The `Parallel.ForEach` of the enumeration and of `TryGetSubscriptionSourceCount2` runs sequentially here, in enumeration order. Interleavings and the point at which a throwing lookup stops the other workers are not modelled.
- CollectorMonitor.Monitor.RegisterSubscriptions: the `WecSubscriptionInfo` constructor's exception is uncaught in `OnStart`. Here it is a failed start (`false`).
- Times: `now` is one number of ticks. The difference between `DateTime.Now` (local time) and `FromFileTimeUtc` (UTC) is not modelled. `FromFileTimeUtc` throwing on a negative or out-of-range file time is not modelled either.
- Registry values of kinds other than DWORD, QWORD and string (`REG_BINARY`, `REG_MULTI_SZ`, `REG_EXPAND_SZ` and the rest) are not modelled. In the source, all three readers fail on such a value.
- Bookmark.IsRecordIdToken: uses an ordinal prefix test. The source calls `String.StartsWith(string)` with no `StringComparison`, which compares by culture: ignorable code points at the start of a token, such as U+0000 or U+00AD, are skipped. The ASCII-decoded serialisation contains NUL characters, so a token such as NUL followed by `RecordId='…` matches in the source but not in the model.
- Registry key and value names compare case-sensitively here, whereas the registry itself ignores case.
- A subscription name containing a backslash is not split into path components.
- `GetSubKeyNames` never returns null in the model, so the null checks on its result have no modelled branch.
- An exception that leaves a timer handler (the lookup of an unregistered subscription, a vanished mode subkey) ends that tick. The timer swallows it, so the model treats it as the end of the tick; for `_epsTimer_Elapsed2` the `finally` has already lowered the flag.
- `Dispose` and the `using` blocks release handles only, so they are left out.
