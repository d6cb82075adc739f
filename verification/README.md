# Verified model of the relay backend

A Dafny model of the parts of the Go backend whose behaviour is spread over many calls,
goroutines or restarts, with proofs of what those parts keep. `dafny verify dfyconfig.toml`
checks everything.

The system polls RSS sources, relays each new torrent to a set of target sites, retries what
failed, and notifies its operator. The modules follow that:

- **Torrent files.** `Options` (a value that may be missing), `Selections` (which elements of a list are kept), `Octets` (byte strings, their order, sorted key lists), `Decimal`
  (`strconv` on base-10 integers), `Bencode` (what the recursive descent computes and the printer
  writes), `RoundTrip` and `Canonical` (decoding what was encoded and the reverse), `Grammar`
  (what the decoder accepts, said without it), `Torrents`
  (summary, cleaning, re-announcing, info hash), `TorrentFields` (what those fields are, said about the dict alone), `GoValues` and `TorrentObjects` (the program's
  own methods over mutable maps and slices on the heap, proved against the former).
- **Notifications.** `Breaker` (circuit breaker under overlapping calls), `Router` and
  `RouterRuns` (aggregation, and conservation over whole runs).
- **Relay protocol.** `Records` (the relay_records table), `Relay` (one goroutine per target,
  any interleaving, any number of attempts), `RetryQueue`, `Seeds` (the seeds table),
  `RetryChain` (attempts, retries, kills and restarts), `RelayChain` (everything that relays one
  seed: worker, retry loop, resends and aborts at any time, stops, kills, failing writes), `RelayRuns`
  and `RelayAgain` (how often that publishes a target, and when it can again),
  `Lifecycle` (Start and two-phase Stop).
- **Discovery.** `Poller` (tombstones and the seeds table), `Sources` (failure window of a source).
- **Schema.** `SqlSplit` (the statement splitter), `SqlTokens` (where it cuts, said without it), `Migrations` (versioned startups), `MigrationNames`
  (versions in file names).
- **Time windows.** `SlowTracker` (slow since), `RateLimit` (login limiter).

Methods change state step by step as the program does and are proved against functions on
values; the theorems about whole runs are lemmas about those functions. Where several
goroutines share state the model is a state machine whose steps are the program's atomic
sections (one hold of a lock, one repository call, one channel operation), and a run is any
sequence of steps. Clocks, random numbers, answers of sites and of qBittorrent, SHA-1 and
`fmt` are parameters or choices of a step.

## What the code does differently from what it says

The model follows the code. These are proved, with the exact condition where there is one:

- The decoder accepts numbers with a plus sign, leading zeros or a negative zero, and dicts with
  unsorted or repeated keys (the last one wins), which BEP 3, section "bencoding", does not.
  `Grammar.DecodeIff` says exactly what it accepts, `Canonical.ReEncode` what that means for re-encoding.
- Cleaning makes a new swarm except for a torrent that was already private and carried the same
  source (`Torrents.CleanKeepsInfoIff`).
- Notifications are grouped by a key joined with `|`. They are conserved per instance, tier and
  event exactly when no two topics that can come up share a key (`RouterRuns.ConservedIff`), as
  name `a` with event `info|x` and name `a|warning` with event `x` do. Events without `|`, the only
  ones the engine and the pipeline use, never do, whatever the names (`RouterRuns.BarFreeEventsApart`); for all
  events it takes names none of which reads like the beginning of another's key
  (`RouterRuns.AnyEventApartIff`), such as names without `|` (`Router.BarFreeSeparable`).
- A tombstone is said to outlive a stale backup restore (backend/internal/store/seen.go:10-14). A
  restore replaces the whole database file (backend/internal/backup/backup.go:211-215), tombstones
  included. A key is created and handed over at most once, and once more for each restore that takes
  its tombstone away (`Poller.OncePerLoss`, `Poller.OnceMorePerLoss`); after a restore it can be again
  exactly when the snapshot lacks its tombstone (`Poller.AgainIff`).
- A seed dropped at hand-over is said to be discovered again later
  (backend/internal/engine/engine.go:324-327). Its tombstone is written by then, so as long as no
  restore takes that away it is not (`Poller.NotAgainWhileKept`).
- Startup is said to reclaim the seeds left in mid-flight (backend/internal/engine/engine.go:229-234). A seed whose process
  was killed while it was publishing has status `downloaded` and is not reclaimed
  (`RetryChain.LostIff`).
- Startup queues every seed due for a retry. A retry queue that outlives a Stop of the same
  process still holds them, so they are queued twice (`RetryChain.RecoveryQueuesOnceIff`); the number of
  attempts all entries of a seed lead to is bounded by `RelayRuns.AttemptsBounded`.
- The targets an attempt reports as failed are said to be those not done. That holds on every run of
  the attempt exactly when it could read the records at its start or no target was done before
  (`Relay.FailedExactIff`); otherwise there is a run that reports all of them
  (`Relay.UnlistedMiscount`).
- Stop is said not to cancel a Relay in flight before its timer fires
  (backend/internal/engine/engine.go:288-291). It does cancel the retry loop's: exactly that kind, once the
  workers have drained (`Lifecycle.OnlyRetryExposed`, `Lifecycle.RetryExposed`).
- The claim of its record and the filter for done ones are there to have a target published once
  (backend/internal/pipeline/target.go:102-128). Left to itself a chain keeps to that, wherever it is
  killed (`RelayRuns.PublishedOnce`). Otherwise there is at most one publish more for each mark that is lost,
  for each deletion of the records, and for each abort that marks failed what was done meanwhile; and one
  more, however many they are, if resends or aborts queue the seed before the worker is through with
  it (`RelayRuns.OncePerCost`): neither the resend nor the abort asks whether it is
  (backend/internal/api/ops_seeds.go:316-349, backend/internal/engine/monitor.go:180-217).
  `RelayAgain.BusyResendPublishesTwice` is such a resend, with nothing failing. A mark is lost by a kill (`RelayAgain.KilledMark`)
  and by an orderly Stop (`RelayAgain.StoppedMark`). Once nothing of a seed is under way, a target can be
  published again exactly when its record does not say it is done (`RelayAgain.AgainIff`).
- The login limiter counts in fixed windows. In an interval of that length up to twice the limit
  less one are allowed (`RateLimit.UnderTwiceTheLimit`, `RateLimit.BoundReached`).
- Migrations are said to be sorted by file name (backend/internal/store/migrate.go:78). They are sorted by
  version: `10_a.sql` comes before `2_b.sql` by name and after it by version
  (`MigrationNames.TenBeforeTwo`). The two orders agree for all names with m and with n digits exactly
  when m is n (`MigrationNames.OrdersAgreeIff`).
- Of two files of one version only one is ever applied (`Migrations.AllFilesIff`,
  `Migrations.SharedVersion`).
- `IsSlow` is said to prune on every call (backend/internal/qb/client.go:236). A call leaves no timer idle
  beyond ten minutes exactly when it takes a slow sample, or none but the torrent's own was idle before
  (`SlowTracker.PrunesIff`, `SlowTracker.SlowTimers.IsSlow`); `SlowTracker.IdleTimerStays` has an input.

## Model

| member | source | states |
|---|---|---|
| Octets.SortedUnique | backend/internal/bencode/bencode.go:195-199 | two ascending listings of the same keys are equal, so the order a map is walked in cannot show after sorting |
| Octets.SortedInsert | backend/internal/bencode/bencode.go:195-199 | a new key splits the sorted listing of the old ones where it belongs, at the end if it is greater than all |
| Octets.LessTotal | backend/internal/bencode/bencode.go:199 | Go's byte-wise string order is total |
| Octets.LessTransitive | backend/internal/bencode/bencode.go:199 | and transitive |
| Octets.LessIff | backend/internal/bencode/bencode.go:199 | at the first difference the lesser byte decides, and a proper prefix comes first |
| Decimal.ParseOfFormat | backend/internal/bencode/bencode.go:173-182 | every int64 is read back from its decimal text, which is in shortest form |
| Decimal.FormatOfParse | backend/internal/bencode/bencode.go:76-80 | for every accepted number text, writing its value is never longer and gives the text itself exactly when it was shortest |
| Decimal.DigitsOfMagnitude | backend/internal/bencode/bencode.go:127-138 | of all digit strings of one magnitude the shortest one is unique and is the one written |
| Decimal.ParseIntIff | backend/internal/bencode/bencode.go:76-80 | accepted are exactly the numerals of int64 numbers: digits, any number of leading zeros, with a plus, a minus or no sign |
| GoValues.Parse | backend/internal/bencode/bencode.go:60-149 | the program's descent over fresh maps and slices returns the value, end position or error the grammar function says, and changes no older object |
| GoValues.ParseSlice | backend/internal/bencode/bencode.go:82-96 | the list loop collects exactly the items of the rest of the list |
| GoValues.ParseMap | backend/internal/bencode/bencode.go:98-120 | the dict loop leaves in one fresh map the entries of the rest of the dict, the last value of a repeated key |
| GoValues.Decode | backend/internal/bencode/bencode.go:154-163 | the whole input is one value, or the error says why not |
| GoValues.SortStrings | backend/internal/bencode/bencode.go:195-199 | distinct keys in any order come out as the one ascending listing |
| GoValues.ListKeys | backend/internal/bencode/bencode.go:195-198 | every key once, in no particular order |
| GoValues.Encode | backend/internal/bencode/bencode.go:171-214 | the bytes depend only on the value the objects stand for, not on map order or sharing; an unsupported type anywhere is an error |
| GoValues.EncodeSlice | backend/internal/bencode/bencode.go:183-193 | the list branch of the above |
| GoValues.EncodeMap | backend/internal/bencode/bencode.go:194-210 | the dict branch of the above |
| GoValues.DeepCopy | backend/internal/parser/parser.go:313-330 | the copy stands for the same value and consists of new objects only |
| GoValues.DeepCopyMap | backend/internal/parser/parser.go:315-320 | the copy of a map has, key by key, new objects of its own |
| RoundTrip.DecodeOfEncode | backend/internal/bencode/bencode.go:60-214 | for every encodable value, decoding its encoding gives it back exactly when it nests at most 256 deep, and the nesting error otherwise |
| RoundTrip.SelfDelimiting | backend/internal/bencode/bencode.go:60-149 | an encoding inside any longer text is parsed exactly to its end |
| RoundTrip.ParseEnc | backend/internal/bencode/bencode.go:60-214 | the two above in one, at any position and depth |
| RoundTrip.EncInjective | backend/internal/bencode/bencode.go:171-214 | only values that decode alike have the same bytes, so equal info bytes mean equal info dicts |
| Canonical.ReEncode | backend/internal/bencode/bencode.go:69-214 | every accepted text re-encodes to a canonical text that decodes to the same value, is never longer, and is the text itself exactly when that was canonical |
| Canonical.EncIsCanonical | backend/internal/bencode/bencode.go:171-214 | every encoding has strictly increasing keys and shortest numbers |
| Canonical.CanonicalUnique | backend/internal/bencode/bencode.go:154-214 | a value has one canonical text |
| Canonical.ReEncodeAt | backend/internal/bencode/bencode.go:60-149 | what is parsed at any place is a decoder-made value within the depth left, with an encoding no longer than the text read |
| Canonical.EncMapReplace | backend/internal/bencode/bencode.go:110-115 | a repeated key replaces: the encoding changes by the sizes of the two values only |
| Grammar.DecodeIff | backend/internal/bencode/bencode.go:60-163 | the decoder accepts exactly the texts of a grammar, at most 256 deep, and gives for each the value it means: for a repeated key the last value |
| Grammar.MeansIff | backend/internal/bencode/bencode.go:98-120 | a text of the grammar means one value |
| Grammar.LastValueStays | backend/internal/bencode/bencode.go:98-120 | encoded entries with any keys in any order decode to the dict of those keys, each with the value of its last entry |
| Torrents.ParsedIsConsistent | backend/internal/parser/parser.go:45-131 | a parsed torrent's fields are those of its dict, which came from the decoder |
| Torrents.CleanChanges | backend/internal/parser/parser.go:152-182 | cleaning changes the info dict in `private` and `source` only, and the top level only in announce, date, info and the five dropped keys |
| Torrents.CleanReparses | backend/internal/parser/parser.go:139-204 | cleaning a parsed torrent succeeds, and parsing the encoding of the result gives back every field it returned |
| Torrents.CleanHash | backend/internal/parser/parser.go:160-187 | the new hash depends on the rest of the info dict and the source only: not on announce, clock, jitter or an earlier cleaning |
| Torrents.CleanAgain | backend/internal/parser/parser.go:139-204 | cleaning again with the same source keeps the hash |
| Torrents.CleanKeepsInfoIff | backend/internal/parser/parser.go:160-161 | the hashed bytes stay as they were exactly when the torrent was already private with the integer 1 and carried this source |
| Torrents.ReannounceKeeps | backend/internal/parser/parser.go:213-253 | re-announcing keeps the info dict and every other field; the result parses back from its encoding |
| Torrents.CrossSeedGuard | backend/internal/pipeline/target.go:194-200 | the hash guard before a cross-seed never fails for a torrent that passed the check at download |
| Torrents.HashOfSlice | backend/internal/bencode/bencode.go:220-235 | for a canonical file the info hash is the hash of the very bytes of the value at the top-level key `info`, which stands between the entries of the lesser and of the greater keys |
| Torrents.EncOfNormal | backend/internal/bencode/bencode.go:172-182 | the integer and string type a caller used does not show in the encoding |
| TorrentFields.ParseIff | backend/internal/parser/parser.go:45-131 | bytes are a torrent exactly if they decode to a dict with an info dict and are not of version 2; then every field is what the dict says: texts, private, files, total, date, hash |
| TorrentFields.SummaryIff | backend/internal/parser/parser.go:57-131 | the same for a dict |
| TorrentFields.FilesMean | backend/internal/parser/parser.go:86-113 | the files are the dict entries of info.files in order, or the one file of a torrent without them, with their paths and lengths |
| TorrentFields.JoinLays | backend/internal/parser/parser.go:95-103 | a path is its parts one after the other with a slash between each and the next |
| TorrentFields.TotalMeans | backend/internal/parser/parser.go:104-112 | the total is the sum of the sizes, modulo 2^64 |
| TorrentFields.CleanDate | backend/internal/parser/parser.go:163-182 | the cleaned date is the old one, if there is a number or a numeral, otherwise the present, moved on by the jitter of 600 to 1200 s |
| TorrentObjects.ParseTorrent | backend/internal/parser/parser.go:45-131 | the method on objects returns the summary, or the error, of the bytes |
| TorrentObjects.SummarizeObject | backend/internal/parser/parser.go:53-131 | checks in the program's order, and the fields of the dict |
| TorrentObjects.ReadFiles | backend/internal/parser/parser.go:90-108 | the file loop lists the dict entries in order, with their joined paths, and sums the sizes in int64 arithmetic |
| TorrentObjects.HashInfo | backend/internal/bencode/bencode.go:220-235 | the hash of the info dict's encoding, or the error |
| TorrentObjects.Repoint | backend/internal/parser/parser.go:152-157 | the new announce and the five deletions, on the copy |
| TorrentObjects.RewriteCopy | backend/internal/parser/parser.go:152-182 | the assignments of the cleaning turn a copy of the dict into the cleaned dict, changing no object but the copy's top and info maps |
| TorrentObjects.CleanTorrentForTarget | backend/internal/parser/parser.go:139-204 | the cleaned torrent or the error, made of new objects, with the torrent given left as it was |
| TorrentObjects.ReannounceTorrent | backend/internal/parser/parser.go:213-253 | the same for re-announcing |
| Breaker.Breaker.constructor | backend/internal/notifier/breaker.go:64-75 | closed, nothing counted |
| Breaker.Breaker.BeginDo | backend/internal/notifier/breaker.go:86-114 | the first locked section, as the step of the state machine |
| Breaker.Breaker.EndDo | backend/internal/notifier/breaker.go:119-153 | the second locked section, as the step of the state machine |
| Breaker.AlwaysInv | backend/internal/notifier/breaker.go:86-153 | under every interleaving: half-open, probing and exactly one half-open call in flight coincide; not closed means the count stands at the threshold; calls made = skipped + finished + in flight |
| Breaker.OpensIff | backend/internal/notifier/breaker.go:129-136 | a closed breaker opens exactly at a failure that makes the last maxFailures results that counted (one, if configured below one) all failures |
| Breaker.TrailingMeans | backend/internal/notifier/breaker.go:131-150 | the count of trailing failures reaches n exactly when the last n results are failures |
| Breaker.StaleIgnored | backend/internal/notifier/breaker.go:137-151 | a result of a call begun while closed moves nothing once the breaker is open or half-open |
| Breaker.OpenBlocks | backend/internal/notifier/breaker.go:93-101 | no call starts before openedAt + openDuration, whatever results arrive meanwhile |
| Breaker.FailedProbeBlocks | backend/internal/notifier/breaker.go:124-128 | after a failed probe begun at t no call starts before t + openDuration |
| Breaker.StartsIff | backend/internal/notifier/breaker.go:86-114 | after any interleaving a call is let through exactly if the breaker is closed, or is open and its time is up, then as the probe; otherwise it is skipped and counted |
| Breaker.ProbeDecides | backend/internal/notifier/breaker.go:124-148 | the end of the probe closes the breaker with a clean slate, or opens it as of the start of the probe |
| Breaker.Recovers | backend/internal/notifier/breaker.go:93-148 | from an open breaker whose time is up one call that succeeds closes it |
| Breaker.OpenedAtIs | backend/internal/notifier/breaker.go:124-136 | an open breaker has been open since the failure of a call, and openedAt is when that call started |
| Breaker.StartIs | backend/internal/notifier/breaker.go:90 | the start of a call in flight is the time of its Begin |
| Router.Router.constructor | backend/internal/notifier/router.go:76-87 | nothing registered, nothing pending |
| Router.Router.Add | backend/internal/notifier/router.go:91-104 | registers or replaces one instance |
| Router.Router.Buffer | backend/internal/notifier/router.go:215-236 | in whatever order the instances are walked, each subscriber's aggregate gets the line once; a new one gets the deadline |
| Router.Router.TakeExpired | backend/internal/notifier/router.go:242-252 | removes and returns exactly the aggregates at or past their deadline, each once |
| Router.Router.TakeAll | backend/internal/notifier/router.go:120-127 | removes and returns every aggregate, each once |
| Router.LineIs | backend/internal/notifier/provider.go:46-56 | a line is the title, then the body, with a colon and a space between them exactly if there are both |
| Router.KeyInjective | backend/internal/notifier/router.go:222 | among names that cannot be confused the joined key tells instance, tier and event apart |
| Router.BarFreeSeparable | backend/internal/notifier/router.go:222 | names without a bar cannot be confused |
| RouterRuns.AlwaysConserved | backend/internal/notifier/router.go:110-259 | over any run whose topics share no key, per instance, tier and event: lines of the batches removed, then the pending lines, are the notified lines in order; every count is a number of lines |
| RouterRuns.ExpiryBoundsAge | backend/internal/notifier/router.go:242-252 | right after an expiry pass no line has been pending for the window or longer |
| RouterRuns.ExpiryNotEarly | backend/internal/notifier/router.go:242-252 | no batch leaves with an expiry pass before its first line is a window old |
| RouterRuns.EndToEnd | backend/internal/notifier/router.go:91-259 | over any run, per topic and in order, the lines removed and pending are those notified at its tier and event while its instance, as last added, had the tier |
| Router.BarFreeKeys | backend/internal/notifier/router.go:222 | whatever the names, keys made of events without a bar tell instance, tier and event apart |
| RouterRuns.Misfiled | backend/internal/notifier/router.go:215-236 | for any two topics with one key there is a run after which a line lies in the other topic's batch |
| RouterRuns.ConservedIff | backend/internal/notifier/router.go:215-259 | for any names and events, conservation holds on every run exactly if no two of their topics share a key |
| RouterRuns.BarFreeEventsApart | backend/internal/notifier/router.go:222 | topics share no key if no event has a bar |
| RouterRuns.AnyEventApartIff | backend/internal/notifier/router.go:222 | with all events allowed, topics share no key exactly if no name reads like the beginning of another's key |
| RouterRuns.ConservedOverNames | backend/internal/notifier/router.go:215-259 | conservation on every run: over events without a bar for all names, over all events exactly for names that cannot be confused |
| Records.RecordTable.constructor | backend/internal/store/migrations/00001_init.sql:74-90 | an empty table |
| Records.RecordTable.GetRecord | backend/internal/store/relay.go:28-31 | the row, or none |
| Records.RecordTable.UpsertRecord | backend/internal/store/relay.go:42-74 | inserts only a missing row, reports whether it did, and refuses an unknown status |
| Records.RecordTable.SetRecordRole | backend/internal/store/relay.go:79-87 | changes the role alone |
| Records.RecordTable.MarkPublishedAt | backend/internal/store/relay.go:94-106 | published, with the first publish time kept |
| Records.RecordTable.UpdateRecordStatus | backend/internal/store/relay.go:111-122 | status and error of one row, or a refusal |
| Records.RecordTable.UpdateRecordAttempt | backend/internal/store/relay.go:127-145 | one more attempt, status and error of one row, or a refusal |
| Records.RecordTable.MarkRetiredAt | backend/internal/store/relay.go:147-156 | the retirement columns of one row |
| Records.CallsKeep | backend/internal/store/relay.go:33-156 | however callers interleave: exactly one claim wins on a missing row and none on an existing one, rows never vanish, the first publish time stays, and only MarkRetired writes the retirement columns |
| Records.StatusIs | backend/internal/store/relay.go:94-145 | over any calls status and error are those of the last call that sets them |
| Records.RoleIs | backend/internal/store/relay.go:79-87 | the role is that of the last call that sets it |
| Records.RetirementIs | backend/internal/store/relay.go:147-156 | the retirement is that of the last call that sets it |
| Records.AttemptsAre | backend/internal/store/relay.go:94-145 | every attempt is counted, and the publish time is that of the first publish with one |
| Relay.PublishToOneTarget | backend/internal/pipeline/target.go:88-165 | without interleaving, the row and result the steps of a goroutine lead to, and no other row touched |
| Relay.Publish | backend/internal/pipeline/target.go:130-165 | the same from the call of Publish on |
| Relay.FinishCrossSeed | backend/internal/pipeline/target.go:170-181 | the same for the end of the cross-seed path |
| Relay.PendingTargets | backend/internal/pipeline/pipeline.go:336-356 | the targets without a done record, in order; all of them when the records cannot be read |
| Relay.UndoneMeans | backend/internal/pipeline/pipeline.go:343-355 | of the targets, in order, those without a record or with one that says none of published, cross-seeding, seeding and retired |
| Relay.PendingStarted | backend/internal/pipeline/pipeline.go:304-312 | an attempt starts a goroutine for exactly those |
| Relay.AloneMeans | backend/internal/pipeline/target.go:88-181 | a goroutine leaves a done record alone, and an undone one becomes done exactly by a publish, or by joining the swarm after a duplicate or a lost claim |
| Relay.AloneRow | backend/internal/pipeline/target.go:88-181 | every column of the record an undone target is left with, for any answers |
| Relay.MoveKeepsInv | backend/internal/pipeline/target.go:88-181 | every step of any goroutine or attempt keeps the link between program counters, records and successful publishes |
| Relay.ChainSafe | backend/internal/pipeline/pipeline.go:304-356 | over all attempts and interleavings, done targets stay done and each target has at most one successful publish |
| Relay.PublishOnlyUndone | backend/internal/pipeline/target.go:105-130 | Publish is never called for a target that is done or was published before |
| Relay.AttemptResult | backend/internal/pipeline/pipeline.go:314-331 | nil means every enabled target is done; a partial failure names exactly the attempted targets still not done, some but not all; a total failure all of them |
| Relay.UnlistedMiscount | backend/internal/pipeline/pipeline.go:337-342 | for any targets and records: with the records unread and a target done there is a run of the attempt that reports failure for all, that target included |
| Relay.FailedExactIff | backend/internal/pipeline/pipeline.go:306-331 | on every run of an attempt the targets counted as failed are those attempted and not done, exactly when the records were read or no target was done before |
| Relay.FailedExact | backend/internal/pipeline/pipeline.go:314-326 | under that condition, on each run |
| Seeds.SeedTable.constructor | backend/internal/store/migrations/00001_init.sql:57-72 | an empty table |
| Seeds.SeedTable.FindByHash | backend/internal/store/seeds.go:75-77 | the row of a site and hash, or none |
| Seeds.SeedTable.CreateSeed | backend/internal/store/seeds.go:44-82 | the id of the one row of the key; an existing row is left as it is, ids are not given out twice |
| Seeds.SeedTable.UpdateSeedStatus | backend/internal/store/seeds.go:85-95 | status and error of one row, or a refusal |
| Seeds.SeedTable.BumpRetry | backend/internal/store/seeds.go:110-117 | one more retry on one row |
| Seeds.SeedTable.Reclaim | backend/internal/engine/engine.go:229-238 | seeds that were downloading or processing become due for a retry, all others stay |
| Seeds.SeedTable.ListSeedsByStatus | backend/internal/store/seeds.go:120-139 | exactly the rows of the status, by ascending id |
| RetryQueue.BackoffFor | backend/internal/engine/retry.go:67-76 | 60 s up to retry 1, 300 s at 2, 900 s from 3 on |
| RetryQueue.RetryQueue.constructor | backend/internal/engine/retry.go:45-54 | empty |
| RetryQueue.RetryQueue.Enqueue | backend/internal/engine/retry.go:79-88 | one item at the end, due after its back-off |
| RetryQueue.RetryQueue.Due | backend/internal/engine/retry.go:99-113 | returns the due items and keeps the others, both in order |
| RetryQueue.RetryQueue.NextWait | backend/internal/engine/retry.go:117-134 | zero exactly for an empty queue or a due item; otherwise Due is empty at every time before now + wait and not empty then |
| RetryQueue.QueueHolds | backend/internal/engine/retry.go:79-113 | over any run the queue is exactly what was enqueued and not yet released by a Due at or after its time, in order |
| RetryQueue.DueReturns | backend/internal/engine/retry.go:99-113 | a Due returns exactly the items it is the first to release: each once, never early, in insertion order |
| RetryQueue.Conserved | backend/internal/engine/retry.go:79-113 | what was returned and what is queued make up what was enqueued |
| RetryChain.ChainBounded | backend/internal/engine/retry.go:200-255 | a chain makes at most RetryMax + 1 Relay calls, and one more for each kill of the process; no critical notification unless it gives up, then exactly one, with the seed failed, or seeding after a partial last attempt |
| RetryChain.GivesUpAfterAll | backend/internal/engine/retry.go:206-255 | a chain that is not killed gives up after RetryMax + 1 Relay calls, not fewer |
| RetryChain.ChainEnds | backend/internal/engine/retry.go:206-255 | without kills every chain ends, after at most 10 * RetryMax + 9 steps |
| RetryChain.LostIff | backend/internal/engine/engine.go:229-240 | after a kill the next start resumes the chain exactly for a seed due for a retry, processing or downloading; it then waits at the same retry number if it was waiting |
| RetryChain.StepKeepsInv | backend/internal/engine/retry.go:200-255 | every repository call, kill and start keeps the bound and the tie between stored status and place in the chain |
| RetryChain.Engine.SubmitJob | backend/internal/engine/retry.go:200-255 | the whole routing of one outcome on tables and queue: the writes of the chain at once, on this seed alone |
| RetryChain.FailureStored | backend/internal/engine/retry.go:214-255 | after a failure the seed has one more retry, the error, and the status retry, failed or seeding; every other row is as before |
| RetryChain.Engine.Recover | backend/internal/engine/engine.go:229-240 | reclaims, then queues each seed due for a retry once, by id, at its stored retry number, on top of what is queued |
| RetryChain.RequeuedIs | backend/internal/engine/retry.go:170-184 | each seed is queued with its stored retry number, or 1, due after 60, 300 or 900 s |
| RetryChain.RecoveryQueuesOnceIff | backend/internal/engine/retry.go:170-184 | a seed due for a retry is queued once after a start exactly when the queue held nothing for it |
| RelayChain.OwnCredit | backend/internal/pipeline/target.go:105-165 | each call of a goroutine, its write failing or not, uses up what the record still allows its own and later attempts, unless it loses a mark |
| RelayChain.OtherCredit | backend/internal/pipeline/target.go:105-165 | what a record allows another attempt grows only if the call undoes what was done |
| RelayChain.LiveOnce | backend/internal/pipeline/target.go:105-165 | a goroutine publishes, or undoes a done record, once at most |
| RelayChain.StepTotal | backend/internal/pipeline/pipeline.go:249-332 | every step of worker, retry loop, operator, monitor or process keeps publishes made plus publishes possible from growing, but for one where a mark is lost, the records are deleted, or an abort overtakes a publish |
| RelayRuns.OncePerCost | backend/internal/pipeline/target.go:105-141 | over any run a target is published successfully at most once, once more for each of those, and once more if the seed was ever queued from outside before the worker was through with it |
| RelayRuns.OncePerCostAndResend | backend/internal/engine/engine.go:409-443 | so at most once, and once more for each of those and each such resend or abort |
| RelayRuns.PublishedOnce | backend/internal/engine/retry.go:200-255 | left to itself, a chain with its retries publishes a target successfully at most once, wherever and however often the process is killed, stopped and started |
| RelayRuns.SameRouting | backend/internal/engine/retry.go:200-255 | with writes succeeding, an attempt in the model of all that relays a seed moves status, count, place and queue as one in the model of a single chain |
| RelayRuns.AttemptsBounded | backend/internal/engine/retry.go:200-255 | with any number of queue entries of one seed, from resends, aborts and starts: at most RetryMax + 1 Relay calls, and what the retry number of each entry from outside leaves, RetryMax at most |
| RelayAgain.BusyResendPublishesTwice | backend/internal/api/ops_seeds.go:316-349 | for any targets and target: a run with one resend, made during the first attempt, and nothing failing or killed, that publishes the target twice |
| RelayAgain.AgainIff | backend/internal/engine/engine.go:409-443 | for any state in which nothing of the seed is under way, a target can be published again, with no record deleted or aborted, exactly if it is a target and its record is not done |
| RelayAgain.KilledMark | backend/internal/pipeline/target.go:130-141 | for any targets: a kill between Publish and MarkPublished leaves a target published, undone, and the seed downloaded with nothing to resume it |
| RelayAgain.StoppedMark | backend/internal/engine/engine.go:308-312 | for any targets and any state at rest: without a kill, a Stop that ends the retry loop's context between Publish and MarkPublished leaves the target published and undone |
| Lifecycle.AlwaysInv | backend/internal/engine/engine.go:208-360 | in every state: which goroutines exist, what the drain flag, channel and context are in each phase, and who has exited |
| Lifecycle.CancelledOnlyIf | backend/internal/engine/engine.go:286-307 | a worker's Relay runs under a cancelled context only if the shutdown timer fired or the parent context ended |
| Lifecycle.AtMostWorkersPlusOne | backend/internal/engine/engine.go:242-252 | never more than Workers + 1 Relays at once, over all runs of the engine |
| Lifecycle.StoppedMeansGone | backend/internal/engine/engine.go:308-320 | when Stop returns no goroutine of any run is left |
| Lifecycle.NoNewWork | backend/internal/engine/engine.go:280-285 | after the drain flag is set no worker gets past it: one that is still to begin a Relay had looked at the flag before |
| Lifecycle.LateRelay | backend/internal/engine/engine.go:352-357 | a worker that looked just before begins its Relay after the flag is set |
| Lifecycle.OnlyRetryExposed | backend/internal/engine/engine.go:308-312 | a Relay runs under a cancelled context, while neither the timer fired nor the parent ended, exactly if it is the retry loop's and Stop has cancelled after the workers drained |
| Lifecycle.RetryExposed | backend/internal/engine/retry.go:137-142 | with any number of workers an orderly Stop can reach that state |
| Lifecycle.DrainShrinks | backend/internal/engine/engine.go:340-360 | during Stop each move of a worker brings the pool nearer to its end, and nothing sets it back |
| Lifecycle.DrainMoves | backend/internal/engine/engine.go:286-307 | and until the workers are gone one of them can move |
| Poller.OncePerLoss | backend/internal/engine/poller.go:104-163 | over any polls, deletions, restores, failures and restarts a (source, hash) is created and handed over at most once, and once more for each restore that takes its tombstone away |
| Poller.OnceMorePerLoss | backend/internal/backup/backup.go:211-215 | that bound is reached for any number of such restores |
| Poller.AtMostOnce | backend/internal/engine/poller.go:104-163 | if every restore keeps the tombstones written so far, each (source, hash) is created at most once and handed over at most once, and only with its tombstone written |
| Poller.AgainIff | backend/internal/backup/backup.go:211-215 | after a restore a key can be created, or handed over, again exactly when the snapshot lacks its tombstone |
| Poller.NotAgainWhileKept | backend/internal/engine/poller.go:107-122 | while no restore takes its tombstone away, a key that has one and is not being worked on is not created or handed over again |
| Poller.WellDriven | backend/internal/engine/poller.go:107-163 | with every call succeeding an item is tombstoned, and created and handed over exactly when it had neither tombstone nor seed |
| Poller.DrivenIff | backend/internal/engine/poller.go:107-163 | for any answers of the calls: when an item is tombstoned, created and handed over |
| Poller.StepBounded | backend/internal/store/seen.go:15-39 | a creation and a hand-over each use up the one chance a missing tombstone gives, and only a restore gives another; no other step removes a tombstone |
| Poller.Ingester.IngestItem | backend/internal/engine/poller.go:107-163 | the method, with any call failing, does what its calls do in turn; the job handed over is the id of the row of this key |
| Sources.SourcePoller.PollSource | backend/internal/engine/poller.go:65-84 | fetches exactly when not backing off, and pauses the source at its third failure |
| Sources.PausesAtThird | backend/internal/engine/poller.go:169-192 | a failed fetch pauses the source exactly when it completes a third, sixth, ... failure without a success between |
| Sources.FetchesSpaced | backend/internal/engine/poller.go:194-197 | after a first failure the next fetch waits 60 s at least, after a second 120 s; a pause clears the slate |
| Sources.MayFetchIff | backend/internal/engine/poller.go:71-73 | a source may be fetched from 60 s after a first failure in a row on, 120 s after a second, and otherwise at once |
| SqlSplit.SplitStatements | backend/internal/store/migrate.go:140-191 | the index-driven loop returns what a three-state automaton (normal, line comment, quoted) cuts out |
| SqlSplit.CopyLiteral | backend/internal/store/migrate.go:157-174 | the loop over a quoted literal ends where the automaton leaves the quoted state |
| SqlSplit.NothingLost | backend/internal/store/migrate.go:140-191 | the pieces joined by semicolons are the script; the statements are the pieces trimmed, empty ones left out |
| SqlSplit.StatementsAre | backend/internal/store/migrate.go:176-190 | the statements are, in order, the pieces that are not all white space, cut at both ends just so far as there is white space; no other character is lost |
| SqlSplit.TrimCuts | backend/internal/store/migrate.go:176-190 | trimming takes the white space at both ends, all of it, and nothing else |
| SqlTokens.PiecesOfTokens | backend/internal/store/migrate.go:140-191 | a text of comments, literals, other characters and semicolons is cut at those semicolons |
| SqlTokens.PiecesAre | backend/internal/store/migrate.go:140-191 | every script is such a text, so it is cut exactly at the semicolons that are neither in a comment nor in a literal |
| SqlSplit.Resplit | backend/internal/store/migrate.go:140-191 | splitting an emitted statement gives just itself |
| SqlSplit.SplitOfJoin | backend/internal/store/migrate.go:140-191 | a join of statements is split into them again exactly when all but the last end in the normal state |
| Migrations.Database.constructor | backend/internal/store/migrate.go:103-106 | version 0, nothing executed |
| Migrations.Database.ApplyMigration | backend/internal/store/migrate.go:121-136 | all statements of the file in order and its version are committed, or nothing is, wherever it fails |
| Migrations.SortByVersion | backend/internal/store/migrate.go:101 | the same files in ascending order of version |
| Migrations.MigrateFS | backend/internal/store/migrate.go:101-117 | a startup commits a first part of what there is to do, and all of it exactly when it succeeds |
| Migrations.InOrderOnce | backend/internal/store/migrate.go:103-116 | over any startups, each with its own files and breaking off anywhere, versions are applied in strictly increasing order, so at most once, and user_version is that of the last |
| Migrations.Resumes | backend/internal/store/migrate.go:107-115 | what is left after the first n is what the next startup does |
| Migrations.SameAsUninterrupted | backend/internal/store/migrate.go:80-136 | once a startup completes, the database is what one uninterrupted startup makes of it |
| Migrations.Executed | backend/internal/store/migrate.go:121-136 | after any startups the statements executed are those before, then those of the applied files in order |
| Migrations.AllFilesIff | backend/internal/store/migrate.go:107-115 | of files above the database's version all are applied exactly when no two share a version |
| Migrations.VersionIn | backend/internal/store/migrate.go:107-115 | every version above the database's is applied by one of its files |
| Migrations.OneOrder | backend/internal/store/migrate.go:101 | without shared versions every sort gives the same order |
| Migrations.SharedVersion | backend/internal/store/migrate.go:101-115 | with a shared version the order decides which file is applied |
| MigrationNames.LoadMigrations | backend/internal/store/migrate.go:81-100 | the scripts of the directory in its order, with the versions of their names, or an error |
| MigrationNames.LoadedNamed | backend/internal/store/migrate.go:86-100 | loading fails exactly for a script whose name has no version or that cannot be read; otherwise every migration has the version of its name |
| MigrationNames.LoadedAll | backend/internal/store/migrate.go:86-100 | loaded is every script of the directory in its order, with its name and text |
| MigrationNames.VersionIff | backend/internal/store/migrate.go:194-207 | the version is the positive int64 numeral in front of the first underscore |
| MigrationNames.Migrate | backend/internal/store/migrate.go:80-117 | nothing is applied if loading fails; otherwise a first part of what there is to do, and all of it exactly on success |
| MigrationNames.SameWidth | backend/internal/store/migrate.go:78-101 | names with equally many digits are in the order of their versions |
| MigrationNames.NameOrderIsVersionOrder | backend/internal/store/migrate.go:78-101 | files whose names all have equally many digits are sorted by version as they are listed |
| MigrationNames.OrdersAgreeIff | backend/internal/store/migrate.go:78-101 | name order and version order agree for all names with m and with n digits exactly when m is n |
| MigrationNames.TenBeforeTwo | backend/internal/store/migrate.go:194-207 | version 10 is listed before version 2 without padding |
| SlowTracker.SlowTimers.IsSlow | backend/internal/qb/client.go:240-272 | true only after a stretch of recorded samples of this torrent, up to this one, all downloading below their thresholds, spanning the duration, none more than ten minutes after the one before; and, with a monotone clock, always then. A failed lookup changes nothing. No timer is left idle beyond ten minutes exactly after a slow sample, or when none but the torrent's own was idle before |
| SlowTracker.SlowTimers.ResetSlowTimer | backend/internal/qb/client.go:274-281 | records a sample that is not slow; no other timer is touched |
| SlowTracker.SlowTimers.Prune | backend/internal/qb/client.go:285-291 | drops exactly the timers idle beyond ten minutes |
| SlowTracker.PrunesIff | backend/internal/qb/client.go:240-281 | a sample leaves no idle timer exactly when it is slow, or no other torrent's timer was idle |
| SlowTracker.IdleTimerStays | backend/internal/qb/client.go:245-253 | a timer stays through a later sample that is not slow, for any time beyond ten minutes, and goes with a slow one |
| SlowTracker.TimersSound | backend/internal/qb/client.go:250-272 | for any history a running timer started with the first sample of a stretch |
| SlowTracker.TimersComplete | backend/internal/qb/client.go:250-291 | for any monotone history a stretch not yet cut off has a timer running since its start |
| SlowTracker.Verdict | backend/internal/qb/client.go:250-272 | the comparison made equals the statement about the history |
| SlowTracker.BelowIff | backend/internal/qb/client.go:245-253 | slow is to download at less than 1024 bytes per second for each KB/s of the threshold |
| RateLimit.RateLimiter.constructor | backend/internal/auth/ratelimit.go:28-35 | no windows |
| RateLimit.RateLimiter.Allow | backend/internal/auth/ratelimit.go:40-55 | the verdict the history of the key gives, the wait of a denied caller in (0, window], and the bound below kept at every moment |
| RateLimit.UnderTwiceTheLimit | backend/internal/auth/ratelimit.go:40-55 | no half-open interval as long as the window has twice the limit of allowed attempts |
| RateLimit.BoundReached | backend/internal/auth/ratelimit.go:40-55 | twice the limit less one is reached, for every limit |
| RateLimit.RetryAfterSuffices | backend/internal/auth/ratelimit.go:50-52 | after exactly the wait it was told, a denied caller is allowed if and only if fewer than `limit` others were allowed in the meantime |

## Left out

- HTTP, qBittorrent, site adapters, RSS and detail pages, the web API, credentials, the making and checking of backup archives, and the user interface: I/O over libraries; where a modelled part calls them their answers are arbitrary.
- SHA-1 and the default rendering of `fmt` are functions given from outside; nothing is assumed of them.
- Titles, descriptions and promotions: their logic is in regular expressions.
- GoValues.DeepCopy: a `[]byte` in a dict would be shared with the copy; the model has byte slices as values that do not change. The decoder makes none.
- Error and log texts, and the titles of notifications.
- A `float64` in a torrent dict: the decoder makes none, and no caller puts one in.
- LoadTorrent and WriteTorrent: their size limit and file access.
- Structures on the heap that reach themselves: the decoder makes none, and the program would not return from one. The same object may be reached twice.
- Router: what happens to a batch after it was removed (sorting by instance, sending, and dropping it when its instance is gone), and the rendering of a batch.
- Router aggregates are values in the pending map, changed by replacing the entry; no other reference to them exists while they are pending.
- Timers of `SlowTracker` and windows of `RateLimit` are values in their maps for the same reason.
- Relay: the limit on concurrent targets, which only removes interleavings; the write of the seed's status, which is in RetryChain; the order of the goroutines' log lines.
- Relay: a repository write that fails, and a second attempt at the same time; both are in RelayChain.
- Relay, RelayChain: writers of the records in another process, except in Relay for the row that appears between looking and claiming when a goroutine runs alone; and the retirement of seeds long done, which leaves records done.
- Relay: a seed with no enabled target, which is an error before any target is touched.
- RetryChain: entries queued by a resend, an abort or a second start, which are in RelayChain. The strategy's RetryMax does not change during a chain.
- RetryQueue: the loop that waits for NextWait. It takes zero for an empty queue, also when an item is due, so it may sleep on one until it is woken.
- Lifecycle: the state machine is not split into methods, since Start, Stop and the loops run at the same time; what the loops do besides Relay and enqueue.
- Poller: the strategy filter, which comes before everything modelled, and the making of the hash from GUID, link and title.
- RateLimit, SlowTracker: the clock is read before the lock is taken, so overlapping callers may enter in another order than they read it. What is proved for a monotone history is for calls that do not overtake each other in this way.
- RelayChain: the backoff of a queue entry, which may be due at any time; a resend's writes are one step, and succeed; an abort may come at any time and mark any of the records it found not done; the deletion of a seed itself; and a seed is handed to a worker once (when it can be again is in Poller).
- Poller: a restore takes any sets of tombstones and seeds, not only those of an earlier export of this database.
- Sources: who resumes a paused source. The clock is not before Go's zero time.
- Migrations: versions beyond 32 bits, which user_version cannot hold.
- SqlSplit: scripts that are not UTF-8, where trimming looks at characters.
- SlowTracker: case folding of the state's name, and time spans beyond 292 years, where Go's subtraction saturates.
- `created_at`, `updated_at` and the other columns no modelled call reads.
