# Verified model of the gateway's stateful core

Cyrene Gateway routes chat requests to many upstream accounts, keeps its own usage books, caches
responses, limits request rates and translates response streams. This project models the parts of it
that carry state from one call to the next, and proves what those parts promise over whole runs:

- **Usage ledger** (`UsageModel`, `UsageImport`, `UsageLedger`, `UsageSums`, `UsageImported`, `UsageLifetime`, `UsageMerge`,
  `UsageCoverage`, `UsageRollup`, `UsageOwnBackup`; sums over maps in `MapSums`). Event history, daily aggregates and a
  lifetime counter are three views of the same events. Saves, prunes, resets and imports are steps of one state machine.
- **Backup** (`RestoreTables`, `BackupModel`, `Backup`, `BackupRestored`, `BackupRoundTrip`, `BackupCredentials`; text
  search in `TextSearch`). A redacting export and a restoring import over six tables and the settings row.
- **Response cache** (`CacheModel`, `ResponseCache`, `CacheTraces`, `CacheServing`). A map and a recency list refine one
  sequence of entries, most recently used first.
- **Loop guard** (`LoopGuard`). A count over slices of one joined string refines "a block of calls repeats".
- **Accounts** (`StableOrder`, `Credentials`, `SessionAffinity`, `Rotation`, `Failover`, `AccountRules`). Pools, session
  affinity, round-robin, backoff and the walk over accounts.
- **Rate limiter** (`RateLimit`), **stamp allocator** (`StampAllocator`), **turn normaliser** (`TurnNormalizer`)
  and **stream adapters** (`SseLines`, `MessagesAdapter`, `ResponsesAdapter`, `StreamOutput`).

Code that works by updating state is a class or a method with loops, proved equal to a function of the
old state; the lemmas then say what that function promises. `UsageSums`, `UsageImported`, `BackupRestored`,
`CacheServing`, `AccountRules` and `StreamOutput` say it in the columns, clock readings and texts themselves.
Clocks, database row order, map iteration order, upstream replies, the translators, URL parsing and quota
readings are parameters or arbitrary choices, so the statements hold for all of them.

Where code and expectation differ, the code is kept and the exact difference is proved:

- Merging a *sanitised* backup into the database it came from adds every event that carried an API key
  or a meta text a second time. A save always stores a meta text, so after any saves such a merge is
  accepted and doubles the history (`UsageOwnBackup.SanitisedBackupDoublesSaves`).
- A database's own backup is accepted exactly when every daily row is trusted and counts no more than the
  retained events; pruning can break that (`UsageOwnBackup.OwnBackupAcceptedIff`,
  `UsageOwnBackup.PrunedLedgerIsNotAccountable`).
- The daily rollup and the history scan agree exactly when no retained event of the current day lies in
  the future (`UsageRollup.RollupRefinesScan`, with a failing event in `UsageRollup.FutureEventShows`). The
  gateway stamps its own saves with the clock, so for them they always agree
  (`UsageRollup.GatewaySavesRollUpExactly`).
- A key-value entry can be restored with another entry's value when a NUL in a scope makes the two share
  the text scope + NUL + key (`BackupRoundTrip.KVRoundTripIff`, with two such entries in
  `BackupRoundTrip.SharedTextMisleads`).
- A `|` in a tool call's name or arguments can make two different blocks look alike: detection is exact
  on the histories over a set of characters if and only if the bar is not among them
  (`LoopGuard.BarsDecideExactness`, with four real calls in `LoopGuard.BarsCanMislead`). A hash tells calls apart
  unless names and arguments may both hold a colon (`LoopGuard.ColonsDecideHashes`).
- Outside 2xx the Anthropic adapter wraps every piece of an error body on its own
  (`MessagesAdapter.ErrorPiecesAreEnveloped`).

The Responses adapter returns early when its translator reports an error. The gateway's translator has no
path that does (internal/translator/responses.go:852-1203), so for it chunking never shows
(`ResponsesAdapter.ChunkingNeverShows`). Over translators in general it stays invisible exactly when at most
one complete line is rejected (`ResponsesAdapter.ChunkingIsInvisibleIff`).

## Model

| member | source | states |
|---|---|---|
| UsageModel.DayOfAt | internal/db/usage.go:144-179 | folding events into a day row counts, in its total and under each provider and model key, exactly what a scan of that date counts |
| UsageModel.DayOfKeys | internal/db/usage.go:156-166 | a breakdown has a key exactly when some event of the date counted for it |
| UsageModel.TallyIgnoresOrder | internal/db/usage.go:144-179 | the counts of a date depend on the multiset of events alone |
| UsageSums.RowsAreSums | internal/db/usage.go:144-179 | the fold of a date's events holds, in its total and under exactly the provider and model keys these events have, their number, the sums of their prompt tokens, completion tokens, costs and cached tokens, and the number whose status is neither empty nor ok |
| UsageSums.AddAllGains | internal/db/usage.go:144-179 | adding any events to any row raises every counter by exactly those sums and lists exactly the keys of the row and of the events |
| UsageSums.SavedRowsAreSums | internal/db/usage.go:88-142 | after any saves with readable times there is a row for exactly the dates with events, and it holds the sums over the events of its 86400 seconds |
| UsageLedger.UsageStore.SaveUsageEntry | internal/db/usage.go:68-142 | one save appends the defaulted event under a new id, adds it to the row of its date (today if the timestamp cannot be read) and increments the lifetime |
| UsageSums.SaveRecords | internal/db/usage.go:68-142 | one save stores the event with its blanks filled in under the next id, raises the lifetime by one and exactly the counters of its own date, provider and model, each by the event's own amounts; a missing or unreadable row counts from zero and no other row changes |
| UsageSums.PruneKeeps | internal/db/maintenance.go:106-126 | a prune keeps, in order, exactly the events whose timestamp text does not precede the cutoff character by character |
| UsageSums.PruneKeepsDetails | internal/db/maintenance.go:119-124 | and exactly the request details of which the same holds |
| UsageLedger.UsageStore.PruneLogs | internal/db/maintenance.go:106-126 | a prune keeps exactly the events and request details whose timestamp text is not before the cutoff, leaves rows and lifetime alone and reports how many of each went |
| UsageLedger.UsageStore.ResetUsage | internal/db/maintenance.go:68-103 | a reset empties history, rows and request details, zeroes the lifetime and reports how many events and details went |
| UsageLedger.UsageStore.ImportData | internal/db/backup.go:248-274 | an import commits the whole plan or, when version, payload or merge checks refuse it, leaves the ledger as it was |
| UsageImported.ReplaceAcceptedIff | internal/db/backup.go:252-254 | a replacing import is accepted if and only if the version is 1 and every event time and every row can be read; without usage data it changes nothing |
| UsageImported.ReplaceRestores | internal/db/backup.go:629-660 | after a replace the history is the payload's events, in order under consecutive new ids, and the rows are those of the dates the payload names, each the last one given |
| UsageImported.ReplacedLifetime | internal/db/backup.go:717-729 | and the lifetime is the sum, over the dates the payload names, of the most requests it shows for each: its events counted or one of its rows |
| UsageImported.MergedEvents | internal/db/backup.go:770-797 | after a merge every event, ids aside, is there as often as on the side that had it more often, and the stored events keep their places and ids |
| UsageImported.MergedRow | internal/db/backup.go:799-823 | after a merge a date the payload does not name keeps its row; a named one takes the incoming row if no requests were known of it, and otherwise keeps its own plus the sums of the new events, provided events account for the rows compared |
| UsageImported.MergedLifetime | internal/db/backup.go:799-823 | a merge raises the lifetime to what was known before, if that is more, and then by what the rows of the payload's dates grew |
| UsageImported.MergeAcceptedIff | internal/db/backup.go:731-823 | a merge is accepted if and only if every event time on both sides can be read, the payload's rows have distinct dates, every row on both sides has a real date, is consistent and covers its events, and on each date the payload names of which requests were known before incoming events cover the incoming row and, unless no event of it is new, stored events the stored row |
| UsageImport.PrepareUsageImport | internal/db/backup.go:708-823 | the planning loops compute the replace or merge plan, and fail exactly when it does not exist |
| UsageImport.PlanReplace | internal/db/backup.go:713-730 | the replace plan keeps the rows verbatim and counts known requests for the lifetime |
| UsageImport.UsageDaysFromHistory | internal/db/backup.go:825-837 | the events grouped by date and folded; an error exactly when some timestamp cannot be read |
| UsageImport.UsageDaysForImport | internal/db/backup.go:841-860 | the stored rows laid over the history's aggregates; an error exactly when a date repeats or a row is malformed, invalid or does not cover the history of its date |
| UsageImport.ValidUsageDay | internal/db/backup.go:887-908 | a day is valid exactly when its requests, tokens and costs are non-negative and neither breakdown sums to more than the total |
| UsageImported.ValidMeansFits | internal/db/backup.go:887-908 | validity in terms of sums over the map entries of each breakdown, field by field |
| UsageImported.DayCoversMeansAtLeast | internal/db/backup.go:862-885 | one row covers another if and only if each of its counters reaches the other's, a missing one counting as zero and costs within 1e-12 of the largest of 1 and the two amounts |
| UsageImport.CollectAdditions | internal/db/backup.go:770-797 | the loop that uses up local counts yields the incoming events beyond the local ones, grouped by date |
| UsageImport.AdditionsAreTheDifference | internal/db/backup.go:770-797 | those additions are the multiset difference of incoming and local events, ids erased |
| UsageImport.SplitIncoming | internal/db/backup.go:770-797 | per date and counter, incoming is the sum of what is added and what is absorbed |
| UsageImport.MergeDays | internal/db/backup.go:799-823 | the loop over incoming dates accepts exactly when every date can be merged, and then yields every merged row and the grown lifetime |
| UsageImport.MergeOneDay | internal/db/backup.go:799-823 | a date is refused exactly when its aggregates cannot be told apart, and otherwise gets the merged row |
| UsageLifetime.LifetimeAlwaysCovers | internal/db/backup.go:705-823 | after any run of saves, prunes, resets and imports from an empty ledger, lifetime >= sum over days of max(row requests, retained events) |
| UsageLifetime.LifetimeNeverDecreases | internal/db/backup.go:799-823 | only a reset or a replacing import can lower the lifetime |
| UsageLifetime.MergeKnown | internal/db/backup.go:770-823 | an accepted merge keeps the lifetime bound, whatever the ledger was before |
| UsageLifetime.ReplaceKnown | internal/db/backup.go:713-730 | an accepted replace establishes the lifetime bound |
| UsageMerge.MergeIsMaxUnion | internal/db/backup.go:770-797 | after a merge the multiplicity of every event is the larger of its local and incoming ones |
| UsageMerge.MergeOrderDoesNotMatter | internal/db/backup.go:770-797 | two accepted merges in either order give the same events |
| UsageMerge.MergeIsIdempotent | internal/db/backup.go:266-274 | merging the same backup again changes nothing at all, accepted or refused |
| UsageMerge.OwnBackupAddsNothing | internal/db/backup.go:186-215 | once accepted, the merge of an unsanitised own backup keeps history, lifetime and every row |
| UsageMerge.SanitisedBackupDuplicates | internal/db/backup.go:187-197 | once accepted, the merge of a sanitised own backup re-adds exactly the events that carried a key or a meta text; harmless if and only if there are none |
| UsageOwnBackup.OwnBackupAcceptedIff | internal/db/backup.go:731-823 | a merge of the same rows and of events the checks cannot tell apart is accepted if and only if every event time can be read, every row is trusted, and every row that counts requests is covered by the retained events |
| UsageOwnBackup.OwnBackupIsHarmless | internal/db/backup.go:770-823 | the unsanitised own backup is accepted exactly then, and changes nothing that was there |
| UsageOwnBackup.SanitisedBackupIsAcceptedIff | internal/db/backup.go:187-197 | the sanitised own backup is accepted under the same condition, and then re-adds each event that carried a key or a meta text |
| UsageOwnBackup.SavesAreAccountable | internal/db/usage.go:68-142 | after any saves with readable times and non-negative amounts the own backup is accepted |
| UsageOwnBackup.SanitisedBackupDoublesSaves | internal/db/usage.go:68-86 | after any such saves merging the sanitised own backup is accepted and doubles the history |
| UsageOwnBackup.PrunedLedgerIsNotAccountable | internal/db/maintenance.go:106-126 | one save followed by a prune of its event leaves a ledger whose own backup is refused |
| UsageCoverage.RowsAlwaysCover | internal/db/backup.go:799-823 | in runs without replacing imports and with non-negative amounts, every retained date has a valid row that covers its events in total, by provider and by model |
| UsageCoverage.CoversMeansDayCovers | internal/db/backup.go:862-885 | the comparison of two days that the merge performs is the pointwise covering of every counter, tolerance included |
| UsageCoverage.SaveKeepsRows | internal/db/usage.go:88-142 | a save keeps that coverage |
| UsageCoverage.PruneKeepsRows | internal/db/maintenance.go:106-126 | a prune keeps that coverage |
| UsageCoverage.MergeKeepsRows | internal/db/backup.go:799-823 | an accepted merge keeps that coverage |
| UsageRollup.GetUsageSummary | internal/db/usage.go:497-569 | the scan folds exactly the rows of the window into totals and into groups by key, endpoint and client, counts requests by date, and fails exactly on an unreadable timestamp |
| UsageSums.SummaryIsSums | internal/db/usage.go:497-569 | the scan holds the sums over the events from the start of the period to the request, in total, by provider and model, and under their recorded key or API key or default, their endpoint or other, and their client |
| UsageSums.ObservedIsCount | internal/db/usage.go:523-539 | its count of a date is the number of that date's events up to the request, the first day of the period in full |
| UsageRollup.GroupsAddUp | internal/db/usage.go:541-559 | each of the three groupings adds up to the total, counter by counter |
| UsageRollup.SumDailyRows | internal/handler/usage.go:110-154 | the summing loop adds up the window's rows in every counter, lists exactly the keys they list, and reports the dates whose row counts more than the scan saw |
| UsageRollup.MissingMeansPruned | internal/handler/usage.go:121-128 | with no event in the future, a date of the window is reported if and only if its row counted more requests than events of it are retained |
| UsageRollup.AddBreakdown | internal/handler/usage.go:125-151 | adding a breakdown is pointwise addition on the union of keys |
| UsageRollup.SavesStayExact | internal/db/usage.go:88-142 | after saves alone every row is exactly the fold of its date's events |
| UsageRollup.RollupSplits | internal/handler/usage.go:110-154 | summed rows equal the scanned events plus the events of the window's dates that the scan leaves out, counter by counter |
| UsageRollup.RollupRefinesScan | internal/handler/usage.go:80-154 | after saves alone, on a window that starts on a day boundary, rollup and scan agree if and only if no event of the current day is in the future; row order is irrelevant |
| UsageRollup.FutureEventShows | internal/handler/usage.go:121-154 | one saved event of later today makes rollup and scan differ |
| UsageRollup.GatewaySavesRollUpExactly | internal/handler/chat_usage.go:65-74 | saves that leave the timestamp to the clock, made no later than the request, make rollup and scan agree |
| Backup.BackupStore.ExportData | internal/db/backup.go:85-184 | an export lists every row of every table once, redacted unless secrets are asked for, and the settings or their defaults |
| BackupRestored.ExportShows | internal/db/backup.go:57-184 | without secrets an export blanks exactly the password hash, the three connection credentials and provider-specific data, node keys, API key texts and values under secret-looking names, and strips proxy URLs; every other column is as stored |
| BackupRestored.SecretMeansLooksSecret | internal/db/backup.go:72-82 | a name looks secret if and only if scope, colon and key together contain one of seven markers in any case |
| BackupRestored.RedactionIsUnique | internal/db/backup.go:57-70 | a URL is shown stripped of its user info if it parses, as it is if it does not and holds no at sign, and else blank |
| Backup.ExportConnections | internal/db/backup.go:102-116 | every connection once; without secrets all three credentials and the provider-specific data are blank |
| Backup.ExportPools | internal/db/backup.go:133-144 | every pool once; without secrets its URL is redacted |
| Backup.ExportKeys | internal/db/backup.go:147-158 | every API key once; without secrets its text is blank |
| Backup.ExportKV | internal/db/backup.go:167-184 | every entry once; without secrets the value under a secret-looking name is blank |
| Backup.BackupStore.ImportData | internal/db/backup.go:248-625 | an import replaces the tables by the restored ones, or, on a missing payload, a bad version or a UNIQUE conflict, leaves all of them alone |
| BackupRestored.ConnectionRestored | internal/db/backup.go:402-437 | a connection the payload names ends with the last such row's columns; each of the three credentials given as a non-empty text wins and an empty one gives way to the stored one; provider-specific data likewise, an empty map counting as given; updatedAt is now, and createdAt stays in a merge or is that of the first row, now if zero |
| BackupRestored.NodeRestored | internal/db/backup.go:454-475 | the same for nodes and their key |
| BackupRestored.PoolRestored | internal/db/backup.go:492-517 | the same for pools: a URL that is neither empty nor the redaction of the stored one wins, any other gives way to it |
| BackupRestored.KeyRestored | internal/db/backup.go:538-567 | the same for API keys: a given text wins, an empty one keeps the stored text, and a row without either is passed over |
| BackupRestored.ComboRestored | internal/db/backup.go:584-600 | the same for combos, rows without id or name being passed over |
| BackupRestored.KVRestored | internal/db/backup.go:613-625 | an entry ends with the last given value, where a blank one under a secret-looking name takes what the snapshot holds for scope, NUL and key |
| BackupRestored.SettingsRestoredFrom | internal/db/backup.go:363-381 | settings come from the payload if it has any, a non-empty password hash winning and an empty one keeping the stored hash |
| BackupRestored.ImportRefusedIff | internal/db/backup.go:521-600 | an import is refused if and only if some row wants a key text or combo name that another id holds when its turn comes |
| Backup.RestoreConnections | internal/db/backup.go:402-437 | the loop of upserts computes the restored connection table, credentials kept field by field |
| Backup.RestoreNodes | internal/db/backup.go:454-475 | the loop computes the restored nodes, a missing key giving way to the stored one |
| Backup.RestorePools | internal/db/backup.go:492-517 | the loop computes the restored pools, a missing or merely redacted URL giving way to the stored one |
| Backup.RestoreKeys | internal/db/backup.go:538-567 | the loop computes the restored API keys, skipping rows without any key text, and stops at a UNIQUE conflict |
| Backup.RestoreCombos | internal/db/backup.go:584-600 | the loop computes the restored combos and stops at a UNIQUE conflict |
| Backup.RestoreKV | internal/db/backup.go:613-625 | the loop computes the restored entries, blank secrets filled in from the snapshot |
| Backup.Snapshot | internal/db/backup.go:333-343 | whatever order the rows come in, the snapshot holds every joined text with the value of some entry that has it |
| RestoreTables.LastWrite | internal/db/backup.go:384-437 | for any payload a row under an id is the last payload row with that id, inserted or updated; ids the payload does not name are untouched |
| RestoreTables.RoundTrip | internal/db/backup.go:383-625 | any table listed through a view and restored over itself or over nothing comes back row by row, with no UNIQUE conflict; skipped rows survive a merge and are lost by a replace |
| BackupRoundTrip.ExportThenImport | internal/db/backup.go:85-184 | a backup of a store, sanitised or not, is accepted back in either mode and restores all six tables and the password hash, up to updatedAt and zero creation times |
| BackupRoundTrip.ConnectionsRoundTrip | internal/db/backup.go:406-420 | connections come back with all three credentials and their provider-specific data |
| BackupRoundTrip.NodesRoundTrip | internal/db/backup.go:454-475 | nodes come back with their key |
| BackupRoundTrip.PoolsRoundTrip | internal/db/backup.go:492-517 | pools come back with their full URL, whether or not it can be parsed |
| BackupRoundTrip.KeysRoundTrip | internal/db/backup.go:538-567 | API keys come back with their text; no UNIQUE conflict can arise |
| BackupRoundTrip.CombosRoundTrip | internal/db/backup.go:584-600 | combos come back; no UNIQUE conflict can arise |
| BackupRoundTrip.SettingsRoundTrip | internal/db/backup.go:363-371 | a settings row comes back with its password hash, and where there was none the exported defaults become the row |
| BackupRoundTrip.KVComesBack | internal/db/backup.go:613-625 | whatever the snapshot, each entry comes back with its own value or, if blanked, the one the snapshot holds for it |
| BackupRoundTrip.KVRoundTripIff | internal/db/backup.go:333-343 | key-value entries survive every round trip if and only if no blanked entry shares its joined text with an entry of another value |
| BackupRoundTrip.SharedTextMisleads | internal/db/backup.go:333-343 | two concrete entries that share their joined text: for any listing some snapshot restores the wrong value |
| BackupRoundTrip.PlainScopesAreRecoverable | internal/db/backup.go:339-339 | scopes without NUL meet that condition |
| BackupCredentials.NoCredentialIsWiped | internal/db/backup.go:402-567 | for any payload and mode, no stored non-empty connection, node, pool or API key credential becomes empty for an id the payload names |
| BackupCredentials.WhenSpecificDataIsWiped | internal/db/backup.go:417-419 | stored provider-specific data is dropped exactly when the deciding payload row carries an empty map |
| BackupCredentials.ConnectionAfter | internal/db/backup.go:402-437 | a named connection ends with the last row's credentials where those are not empty and the stored ones elsewhere |
| BackupCredentials.ImportKeepsValid | internal/db/backup.go:276-625 | every accepted import leaves rows under their ids and both UNIQUE columns distinct |
| CacheModel.BodyBytesBound | internal/cache/cache.go:108-116 | the bytes of a cache are at most its capacity times 2 MiB |
| ResponseCache.Cache.Get | internal/cache/cache.go:72-106 | map and list do what Get does to the sequence: hits move to the front, expired entries go, and exactly one of the two counters grows by one |
| CacheServing.LookupServes | internal/cache/cache.go:72-106 | up to its expiry, inclusive, an entry held is returned with one more hit and moved to the front; later it is dropped |
| CacheServing.LookupMisses | internal/cache/cache.go:75-80 | a key that is not held misses and changes nothing |
| ResponseCache.Cache.Set | internal/cache/cache.go:113-157 | Set replaces in place keeping creation time and hit count, or inserts at the front after evicting the last; oversized bodies are refused |
| CacheServing.StoreHolds | internal/cache/cache.go:113-157 | a body of at most 2 MiB is held in front with the given content until now plus its lifetime; a known key keeps creation time and hit count, a new one drops at most the last entry |
| ResponseCache.Cache.Delete | internal/cache/cache.go:160-169 | Delete removes that key alone and says whether it was there |
| CacheServing.DeleteDrops | internal/cache/cache.go:160-169 | exactly the entry of the key goes, the others keep their order |
| ResponseCache.Cache.Clear | internal/cache/cache.go:172-179 | Clear empties map, list and bytes and keeps the counters |
| ResponseCache.Cache.Stats | internal/cache/cache.go:182-206 | the counters as they stand, the hit rate as their quotient, the map as long as the list and within capacity, and the bytes within capacity times 2 MiB |
| ResponseCache.Cache.RemoveElement | internal/cache/cache.go:208-213 | removing an element takes exactly its entry out of map, list and byte count |
| ResponseCache.Cache.RemoveOldest | internal/cache/cache.go:215-220 | removing the oldest drops exactly the last entry |
| ResponseCache.Cache.MoveToFront | internal/cache/cache.go:137-147 | the element moves to the front with its new value, the others keep their order, and the bytes follow |
| ResponseCache.Cache.PushFront | internal/cache/cache.go:154-156 | a new entry comes first in map, list and byte count |
| CacheTraces.SmallerIsIncluded | internal/cache/cache.go:72-220 | on every trace the entries of a smaller cache are, in order, a subsequence of those of a larger one |
| CacheTraces.HitsAreMonotone | internal/cache/cache.go:72-106 | every hit of the smaller cache is a hit of the larger one with the same response |
| CacheTraces.EntriesOrderedByUse | internal/cache/cache.go:94-106 | the list is ordered by last use |
| CacheTraces.EvictsLeastRecentlyUsed | internal/cache/cache.go:148-157 | a Set of a new key in a full cache evicts the least recently used key and no other |
| CacheTraces.UseComesFirst | internal/cache/cache.go:91-157 | a key just stored or hit comes first |
| CacheTraces.RecentKeyIsRetained | internal/cache/cache.go:72-157 | after a use a key stays cached while nothing deletes, looks up or clears it and fewer other keys than the capacity are looked up or stored |
| CacheTraces.EntriesAreLastSets | internal/cache/cache.go:113-157 | every entry held is what the last accepted Set of its key stored, with no Delete or Clear since |
| CacheTraces.HitIsLastUnexpiredSet | internal/cache/cache.go:72-106 | a hit returns that content and never after its expiry |
| CacheServing.StoredIsServed | internal/cache/cache.go:72-157 | on every trace a stored response is served, with its content, exactly until its time plus its lifetime, the default one if none is asked for, while fewer other keys than the capacity are looked up or stored since |
| CacheServing.HitRenewsPlaceOnly | internal/cache/cache.go:91-97 | a hit starts that stretch anew but does not prolong the lifetime |
| CacheTraces.CountersAddUp | internal/cache/cache.go:72-106 | over every trace hits and misses add up to the lookups, and a larger cache never hits less often |
| LoopGuard.DetectSequenceRepeat | internal/loopguard/loopguard.go:149-185 | the nested scan answers true if and only if some window of at least two calls has two disjoint occurrences |
| LoopGuard.ScanLength | internal/loopguard/loopguard.go:168-183 | one pass over the starts finds exactly whether a window of that length repeats often enough |
| LoopGuard.FillOffsets | internal/loopguard/loopguard.go:159-162 | the offsets are the lengths of the joined prefixes |
| LoopGuard.DetectSingleRepeat | internal/loopguard/loopguard.go:137-146 | a reported call occurs at least the threshold number of times, and one is reported whenever such a call exists |
| LoopGuard.DetectToolLoop | internal/loopguard/loopguard.go:46-66 | on any tool calls, the length guard in front of the two checks hides no loop |
| LoopGuard.GreedyIsDisjoint | internal/loopguard/loopguard.go:170-181 | the counted occurrences are pairwise disjoint occurrences of the window |
| LoopGuard.GreedyStaysAhead | internal/loopguard/loopguard.go:170-181 | any choice of disjoint occurrences is matched, one by one, by earlier greedy ones |
| LoopGuard.GreedyIsMaximal | internal/loopguard/loopguard.go:170-181 | the greedy count is the largest number of disjoint occurrences |
| LoopGuard.WindowIsJoin | internal/loopguard/loopguard.go:158-171 | a slice of the joined string between two offsets is the join of the calls between them |
| LoopGuard.JoinIsInjective | internal/loopguard/loopguard.go:155-158 | without bars equal joins of equally many calls are equal calls |
| LoopGuard.BlockIsWindow | internal/loopguard/loopguard.go:168-183 | a repeated block is always detected, bars or not |
| LoopGuard.DetectionIsExact | internal/loopguard/loopguard.go:149-185 | without bars detection means a repeated block, and checking the minimum length decides it |
| LoopGuard.DetectsRepeatedPairs | internal/loopguard/loopguard.go:149-185 | with the real constants: some pair of consecutive calls comes back later without overlap |
| LoopGuard.BarsDecideExactness | internal/loopguard/loopguard.go:96-100 | detection means a repeated block on every history of tool calls over a set of characters if and only if the bar is not among them |
| LoopGuard.BarsCanMislead | internal/loopguard/loopguard.go:155-158 | four real tool calls with bars in their arguments that are detected although no block repeats |
| LoopGuard.ColonsDecideHashes | internal/loopguard/loopguard.go:96-100 | hashes tell calls apart if and only if not both names and arguments may hold a colon |
| LoopGuard.DetectsRepeatedCalls | internal/loopguard/loopguard.go:149-185 | with no colon in names and no bar anywhere, detection means that two consecutive calls come back, name and arguments |
| StableOrder.SortIsStable | internal/provider/fallback.go:230-237 | the sort is ordered, a permutation, and keeps the order of ties |
| Credentials.EligiblePool | internal/provider/fallback.go:216-258 | the pool is, in caller order, the unbeaten eligible accounts |
| Credentials.PoolMembers | internal/provider/fallback.go:216-258 | an account is in the pool if and only if it is eligible, OAuth exactly when some eligible account is, and of minimum priority among those |
| AccountRules.BarredIff | internal/provider/fallback.go:320-355 | an account is barred if and only if it is left out, inactive, cooling, locked for the model or for all models, or at its quota, daily unless another period is set |
| AccountRules.PoolIsLeaders | internal/provider/fallback.go:216-258 | the pool is, in the caller's order, the accounts that may serve and that none that may serve beats: OAuth or access tokens first, then the lower priority number |
| Credentials.LeadingTier | internal/provider/fallback.go:230-257 | sorting and cutting off the leading tier and its OAuth prefix yields exactly the unbeaten accounts, in order |
| Credentials.OrderIsSorted | internal/provider/quota_deadline.go:152-187 | ordering by quota deadline permutes the pool and puts nothing in front of a sooner deadline |
| Credentials.UrgentGroup | internal/provider/fallback.go:290-314 | the cut-off run is the whole group within the slack of an urgent lead, or everyone when nothing is urgent |
| AccountRules.GroupMeans | internal/provider/fallback.go:290-314 | within 48 hours of the soonest deadline exactly the accounts whose deadline is within 24 hours of it rotate, otherwise all |
| Credentials.PickFromPool | internal/provider/fallback.go:269-281 | a lone account is taken without a turn; otherwise the urgent group's next slot under the provider and priority key, and the rotation advances |
| AccountRules.PickTakesTurn | internal/provider/fallback.go:269-281 | one of several accounts is the next in turn of its group under the provider and priority of the first, and only that turn moves |
| AccountRules.PickIsUrgent | internal/provider/fallback.go:260-314 | if an account of the pool has a deadline within 48 hours, the one picked has a deadline at most 24 hours after it |
| AccountRules.KeysTellPriorities | internal/provider/fallback.go:279-280 | rotation keys of one provider are equal only for equal priorities |
| Credentials.SelectCredentialWithQuota | internal/provider/fallback.go:209-212 | the choice is a pool member picked in rotation, none exactly when the pool is empty |
| Credentials.SelectCredentialSticky | internal/provider/fallback.go:368-391 | a live binding to a pool member is followed without a turn; otherwise the rotation picks and the session is bound |
| SessionAffinity.Affinity.Get | internal/provider/affinity.go:35-49 | an unexpired binding is returned and refreshed, an expired one removed |
| SessionAffinity.Affinity.Bind | internal/provider/affinity.go:51-59 | a bind stores the account now, evicts only when a new key finds the table full and then no more than fairly, and changes no other binding it keeps |
| SessionAffinity.Affinity.Evict | internal/provider/affinity.go:63-79 | eviction drops every expired binding, and unexpired ones only down to one below the bound and longest unseen first |
| SessionAffinity.FindOldest | internal/provider/affinity.go:69-77 | the scan finds a binding seen no later than any other, in any iteration order, if no key is empty |
| SessionAffinity.TableStaysBounded | internal/provider/affinity.go:51-79 | over every run the table holds at most 8192 bindings |
| SessionAffinity.NoEmptyKey | internal/provider/fallback.go:378-389 | turns with non-empty keys never put an empty key in the table |
| SessionAffinity.EvictionsAreFair | internal/provider/affinity.go:51-79 | over every run a binding vanishes only from a full table; then no expired one stays, and an unexpired one goes only if all 8192 places are taken by bindings seen no earlier |
| SessionAffinity.BindingIsKept | internal/provider/affinity.go:35-79 | an unexpired binding stays while fewer than 8192 other sessions have been active since its turn |
| SessionAffinity.OthersKeepBinding | internal/provider/affinity.go:35-79 | turns of other sessions can evict a binding but never change it |
| SessionAffinity.SessionKeepsAccount | internal/provider/fallback.go:368-391 | a session back within 30 minutes keeps its account while that is in the pool and the binding was not evicted |
| SessionAffinity.ActiveSessionKeepsAccount | internal/provider/fallback.go:368-391 | hence, with a monotone clock, such a session keeps its account while that is in the pool |
| SessionAffinity.StaleBindingIsForgotten | internal/provider/affinity.go:35-49 | a session back after more than 30 minutes finds no binding |
| Rotation.CredentialRotator.Next | internal/provider/rotation.go:16-25 | the slot is the key's position modulo n and the position grows by one; n <= 1 takes no turn |
| Rotation.SlotsAreCyclic | internal/provider/rotation.go:16-25 | over any run the slots of one key go round, whatever other keys do |
| Rotation.RotationIsFair | internal/provider/rotation.go:16-25 | any n consecutive turns of a key give each slot exactly once |
| Rotation.RotateFromIndex | internal/provider/combo.go:174-182 | copying the two halves gives the rotation, or the list itself for an index out of range |
| Rotation.ComboManager.GetRoundRobinModels | internal/provider/combo.go:107-130 | a call returns the list rotated to the current model and advances only that combo's state |
| Rotation.TurnsFollowDivision | internal/provider/combo.go:107-130 | after k calls from a fresh start index and use count are quotient and remainder of k by the sticky limit |
| Rotation.FirstModelOfCall | internal/provider/combo.go:107-130 | call k puts the model (k / limit) mod n first |
| Rotation.EachModelLeadsEquallyOften | internal/provider/combo.go:107-130 | over n times limit calls each of n distinct models leads in exactly one block of limit consecutive calls |
| Rotation.RotationKeepsModels | internal/provider/combo.go:174-182 | a rotated list holds the same models in cyclic order |
| Failover.GetQuotaCooldown | internal/provider/fallback.go:101-111 | the doubling loop computes min(2s * 2^max(level - 1, 0), 5min) |
| Failover.CooldownBounds | internal/provider/fallback.go:101-111 | cooldowns lie between the base and the cap, never shrink with the level and reach the cap at level 9 |
| Failover.FallbackMeansCooldown | internal/provider/fallback.go:114-162 | falling back always cools for at least two seconds, not falling back never does, levels stay within 15, and the decision does not depend on the level |
| Failover.StatusRules | internal/provider/fallback.go:21-98 | what the status part of the rule table says for every status |
| Failover.StatusDecides | internal/provider/fallback.go:114-162 | when no text rule matches, exactly the client errors other than 401, 402, 403 and 429 do not fail over |
| AccountRules.ErrorDecision | internal/provider/fallback.go:21-162 | the whole decision for every status, text and level: texts first, in any case and whatever the status, with their cooldowns of 120, 5 and 900 seconds or backoff, then the status, and 30 seconds for the rest |
| AccountRules.BackoffDoubles | internal/provider/fallback.go:101-111 | the wait is two seconds up to level one and doubles with each level up to five minutes |
| AccountRules.ReplyDecides | internal/handler/chat.go:438-639 | which replies send the walk on to another account and what is reported of them |
| Failover.ApplyErrorState | internal/provider/fallback.go:398-409 | an error cools the account exactly when it falls back, records level and text and touches nothing else |
| Failover.ResetAccountState | internal/provider/fallback.go:412-417 | a success clears cooldown, level and error and touches nothing else |
| Failover.CooledAccountIsIneligible | internal/provider/fallback.go:319-355 | a cooled account is ineligible until at most one second before its cooldown ends, and free from its end on |
| Failover.AttemptSingleModelChat | internal/handler/chat.go:438-639 | an attempt is retryable exactly as its reply is; a retryable upstream error cools the account, a served reply clears it, and no other outcome touches its cooldown |
| Failover.FindPinned | internal/handler/chat.go:354-363 | the pin is an active account with the requested id, found whenever there is one |
| Failover.HandleSingleModelChat | internal/handler/chat.go:365-430 | the walk tries distinct accounts, each from the pool that leaves out those before it; it stops at the first final outcome, never leaves a pinned account, otherwise ends only when that pool is empty, and reports the last status, or none when the last attempt had none |
| Failover.AttemptsAreEligible | internal/handler/chat.go:365-430 | every attempt goes to an account that was active, uncooled, unlocked and under quota, and not tried before |
| RateLimit.RateLimiter.AllowWithLimit | internal/middleware/ratelimit.go:40-67 | a call is one step of the traces below: it decides by its key's window alone, a non-positive limit allows without a trace, and cleanup drops only windows that are over |
| RateLimit.CleanupIsUnobservable | internal/middleware/ratelimit.go:46-55 | with a monotone clock a limiter that cleans up answers every call like one that never does |
| RateLimit.KeysAreIndependent | internal/middleware/ratelimit.go:57-67 | a key's window depends on that key's calls alone |
| RateLimit.WindowCounts | internal/middleware/ratelimit.go:57-67 | while a window lasts its count is the number of calls seen, up to the limit |
| RateLimit.WindowAdmitsFirstCalls | internal/middleware/ratelimit.go:57-67 | each window admits exactly its first limit calls |
| RateLimit.WindowReopens | internal/middleware/ratelimit.go:57-61 | sixty seconds after it was opened a window is over, and the next call is admitted and opens a new one |
| RateLimit.AnyMinuteIsBounded | internal/middleware/ratelimit.go:40-67 | any half-open minute admits at most 2 * limit - 1 requests of a key |
| RateLimit.LimiterBound | internal/middleware/ratelimit.go:40-67 | the same over whole runs with other keys and the cleanup in between |
| RateLimit.BoundIsTight | internal/middleware/ratelimit.go:40-67 | that bound is attained for every limit |
| StampAllocator.RunsKeepInv | internal/handler/request_detail_id.go:16-28 | every interleaving of any number of threads keeps the invariant: stamps strictly increase and the last one is the shared value |
| StampAllocator.StampsAreUniqueAndIncreasing | internal/handler/request_detail_id.go:16-28 | stamps are distinct and grow in swap order, even with clocks that run backwards |
| StampAllocator.StampsSinceLoadAreForeign | internal/handler/request_detail_id.go:16-28 | between a thread's load and its swap every new stamp is another thread's, whatever it does meanwhile |
| StampAllocator.SwapFailsOnlyByInterference | internal/handler/request_detail_id.go:16-28 | a swap fails if and only if another thread's swap succeeded since the load |
| StampAllocator.InterferenceIsForeign | internal/handler/request_detail_id.go:16-28 | while a thread waits, the stamps added are other threads' |
| StampAllocator.UndisturbedThreadReturns | internal/handler/request_detail_id.go:16-28 | a thread left alone for its three steps returns a new largest stamp |
| StampAllocator.StampIsReadingOrNext | internal/handler/request_detail_id.go:16-28 | a stamp is the clock reading it was made from or, if that does not exceed the value loaded, the next number after it, and so never earlier than the reading |
| TurnNormalizer.MoveFunctionResponsesLast | internal/handler/chat_antigravity.go:713-727 | the two slices give the stable partition with function responses last |
| TurnNormalizer.NormalizeAntigravityContents | internal/handler/chat_antigravity.go:682-711 | the incremental loop computes the maximal runs of what was spoken, user runs partitioned once for Gemini 4 |
| TurnNormalizer.PartitionIncrementally | internal/handler/chat_antigravity.go:693-699 | partitioning, appending and partitioning again equals partitioning the whole |
| TurnNormalizer.NormalFormIsWellFormed | internal/handler/chat_antigravity.go:682-711 | no empty turn and no two adjacent turns of one role |
| TurnNormalizer.NormalFormSpeaksTheSame | internal/handler/chat_antigravity.go:682-711 | flattening gives the same role-tagged parts in the same order |
| TurnNormalizer.UserTurnsArePartitionedRuns | internal/handler/chat_antigravity.go:696-704 | for Gemini 4 each turn is its run, user runs with the plain parts first and the function responses after them, nothing lost |
| TurnNormalizer.NormalFormIsIdempotent | internal/handler/chat_antigravity.go:682-711 | normalising twice is normalising once |
| TurnNormalizer.OnlyWhatIsSpokenMatters | internal/handler/chat_antigravity.go:682-711 | how parts were split into turns does not matter, and outside Gemini 4 nothing else is forgotten |
| SseLines.DataLineRoundTrip | internal/translator/translator.go:162-175 | a data line with any white space around it, CR included, is read back as its payload or as done |
| SseLines.OnlyDataLines | internal/translator/translator.go:162-175 | every line read as data has that shape |
| StreamOutput.CommentStartsWithColon | internal/handler/helpers.go:80-86 | a comment is a line whose first character that is no white space is a colon |
| StreamOutput.ChunkIsPayload | internal/handler/chat_messages_adapter.go:86-92 | the chunk of a data line is what follows data: without the white space around it, [DONE] included |
| SseLines.LinesAreExact | internal/handler/chat_messages_adapter.go:79-85 | the lines and the rest of a stream put together again are the stream, and none holds a newline |
| SseLines.LinesConcat | internal/handler/chat_messages_adapter.go:79-85 | keeping the rest of one piece and reading on with the next gives the lines of the whole |
| MessagesAdapter.AnthropicResponseAdapter.WriteHeader | internal/handler/chat_messages_adapter.go:47-68 | an error status or an event stream sends the header at once; only a successful stream turns stream handling on |
| MessagesAdapter.AnthropicResponseAdapter.Write | internal/handler/chat_messages_adapter.go:70-118 | a write handles exactly the lines it completes and keeps the rest; error bodies go out in an envelope, plain bodies are collected |
| MessagesAdapter.AnthropicResponseAdapter.Finish | internal/handler/chat_messages_adapter.go:126-173 | the rest is handled as a line unless it is a comment, then one closing step; plain bodies are converted or passed on |
| MessagesAdapter.ChunkingIsInvisible | internal/handler/chat_messages_adapter.go:70-154 | any two splittings of the same bytes into writes leave the same translator and the same downstream writes, before and after Finish, for every translator |
| MessagesAdapter.NoWriteIsNoStream | internal/handler/chat_messages_adapter.go:126-173 | with no write at all the translator is never stepped, whereas one empty write closes the stream |
| MessagesAdapter.ErrorPiecesAreEnveloped | internal/handler/chat_messages_adapter.go:74-76 | outside 2xx every written piece becomes an envelope of its own |
| MessagesAdapter.LastNewlineIsOptional | internal/handler/chat_messages_adapter.go:126-154 | a stream ends alike with and without its last newline if and only if the last line is no comment |
| StreamOutput.MessagesWritten | internal/handler/chat_messages_adapter.go:70-118 | over any writes a successful stream sends, in order and nothing else, the non-empty events of each data line whose step did not fail and each comment, trimmed, with a blank line |
| StreamOutput.MessagesFinished | internal/handler/chat_messages_adapter.go:126-154 | Finish adds the last line unless it is a comment, and then the events of one closing step |
| StreamOutput.MessagesPlain | internal/handler/chat_messages_adapter.go:156-173 | a body that is no stream is collected whole and sent once, converted if it can be |
| ResponsesAdapter.ResponsesResponseAdapter.Write | internal/handler/chat_responses_adapter.go:66-127 | a write feeds lines until one fails or finishes, keeps the rest, and reports the failure |
| ResponsesAdapter.ResponsesResponseAdapter.Finish | internal/handler/chat_responses_adapter.go:135-177 | the rest is completed by a newline, then one closing write unless finished or failed; plain bodies are converted or passed on |
| ResponsesAdapter.NothingAfterFinish | internal/handler/chat_responses_adapter.go:66-72 | once the translator has finished, no write and no Finish steps it or emits anything |
| ResponsesAdapter.ChunkingIsInvisible | internal/handler/chat_responses_adapter.go:66-150 | with at most one rejected line every splitting, the empty one included, has the outcome of the whole stream |
| ResponsesAdapter.ChunkingNeverShows | internal/translator/responses.go:852-1203 | over a translator that reports no error, as the gateway's own, any two splittings of the same bytes have the same outcome |
| ResponsesAdapter.ChunkingIsInvisibleIff | internal/handler/chat_responses_adapter.go:66-150 | over an arbitrary translator all splittings of a stream agree if and only if it rejects at most one of the complete lines |
| ResponsesAdapter.PlainBodies | internal/handler/chat_responses_adapter.go:66-127 | outside 2xx pieces go down as they come, and a body that is no stream is collected whole |
| StreamOutput.ResponsesWritten | internal/handler/chat_responses_adapter.go:66-150 | a stream with at most one rejected line has, once finished, sent exactly what its lines call for up to the one that finishes it, then the events of one closing step unless it was finished or its last line rejected |
| StreamOutput.ResponsesKeepUp | internal/handler/chat_responses_adapter.go:66-127 | over a translator that reports no error this holds after every write, for the complete lines so far |
| StreamOutput.ResponsesPlain | internal/handler/chat_responses_adapter.go:152-177 | a body that is no stream is sent once, converted if it can be, unless it is empty |
| StreamOutput.ErrorBodies | internal/handler/chat_responses_adapter.go:66-69 | outside 2xx the Anthropic adapter sends each piece in an envelope and the Responses adapter sends it as it is |

## Left out

- Backup.BackupStore.ImportData: the usage part of the same transaction is `UsageLedger.UsageStore.ImportData`; that an error in either part also rolls back the other is not modelled.
- SQL, JSON and transactions: tables are maps and sequences, and a committed transaction is one step.
- Timestamps and meta texts carry the result of parsing them, so parsing itself is not modelled.
- Costs are exact reals; the tolerance of 1e-12 in the merge checks is kept, floating-point rounding is not.
- int64 and uint64 overflow, and the rotation counter's wrap-around: integers are unbounded.
- UsageLedger.UsageStore.ImportData: the restore and trimming of request details and the configuration tables of the same transaction are not modelled; a plan and its commit are one step.
- UsageRollup.GetUsageSummary: the counts of client versions and the recorded key names are left out, as is the julianday prefilter of the query; the meta text is read by given functions.
- UsageRollup.SumDailyRows: the dates with missing history are a set here, sorted only for display.
- Backup.BackupStore.ExportData: the optional usage, daily rows and request details of the payload are not modelled.
- The cut-off of a usage export at 100000 events: a backup is taken to hold them all.
- The default token text of a saved event, which no counter reads.
- Backup: the usage tables are restored in `UsageLedger`, not in `Backup`; columns that are only carried through are one text; overlaying stored settings on defaults.
- Backup: listing order (priority, creation time) is left to the database; marshalling cannot fail.
- Lower-casing and white space cover ASCII only, not Unicode.
- The cache list is a sequence of element objects, not a doubly linked list; the hit rate is an exact quotient.
- ComputeKey, IsEligible and ShouldBypass of the cache.
- Text-loop detection, argument normalisation and the extraction of calls from messages.
- One clock reading serves a selection where the source reads the clock again for locks and deadlines.
- Cost-first and latency-first combos, HandleComboFallback and the derivation of session keys.
- Failover.HandleSingleModelChat: micro-retries, token refresh, health records and the wording of error bodies are not modelled; replies are an oracle.
- Failover.AttemptSingleModelChat: executors that report only a flag change no account here, although some lock models or cool accounts themselves.
- Adapters: HTTP headers and flushes are not modelled, and every downstream write succeeds; the translators, body conversion and error envelope are arbitrary functions.
- Aliasing of slices in the turn normaliser's append.
- Concurrent calls under the mutexes of cache, limiter, rotator and affinity table are single steps.
