# Verification of the router's stateful cores

A Dafny model of the parts of this repository that keep state across requests, workers, processes and
crashes, with proofs of what they promise over whole runs. `dafny verify dfyconfig.toml` checks all of it.

| file | what it models |
|---|---|
| `counters.dfy`, `linkedbuckets.dfy`, `aggregator.dfy` | the per-minute aggregator over its append-only metrics log |
| `summary.dfy` | per-peer totals and the merge of the stream split |
| `adaptivecc.dfy`, `capacity.dfy` | the AIMD concurrency controller, its stored limit, and the limit admission enforces |
| `admission.dfy` | the in-flight counters across workers: gate, increment, retry, release |
| `archive.dfy`, `retention.dfy` | archiving of past days under crashes; what retention deletes |
| `linestream.dfy`, `tailer.dfy`, `tailworld.dfy` | the exporter's tail: reading complete lines, checkpoints, crashes, day rolls |
| `pagination.dfy` | keyset pages of `/metrics` and the recovery client that walks them |
| `windows.dfy` | lazy folding of windows into a moving average by many workers; the quantile of a histogram |
| `lease.dfy` | the timer lease |
| `postprocess.dfy`, `vllmjson.dfy` | chunked response rewriting and the field rules of `vllm_format` |
| `frame.dfy`, `bodyring.dfy` | the body-log frame and the head-and-ring recorder behind it |
| `wrappers.dfy` | what they share |

Objects whose methods update them are classes here too: the aggregator, the pool's stored limit, the
pruner, the tailer, the buffered filter and `vllm_format`, the recorder. Protocols between workers or
processes (admission, archiving, tail, folding, lease) are state machines whose steps are the atomic
operations of the code, and their theorems quantify over every run. Lua numbers are real numbers.

## What the proofs turned up

Each of these is a theorem about the code as it stands, not a change to it.

- A delta line has no first-chunk counters, so of those the log is complete exactly when the late entries of
  the key add nothing to them (`LinkedBuckets.FirstChunksAreComplete`), and its first-chunk peak exactly when no
  late entry is above the others (`LinkedBuckets.FirstChunkPeakIsComplete`). The comment at
  `bodylog-listener-go/main.go:1449-1451` promises the full sum.
- `reload` leaves `archiveLastWritten` empty. The first delta of a reloaded bucket is then taken against
  zero and puts everything it held into the log a second time (`LinkedBuckets.ReloadCountsAgain`). Over any
  run after a restart a key is too high by what today's file held of it, once, if and only if it gets another
  entry before its minute is dropped (`Aggregation.RunAfterReload`).
- Serialising `housekeep` is necessary: unique temporary names and the archive check together still lose a
  day (`Archive.OverlappingPassesLoseData`). A pass alone can come to lose data if and only if its listing
  shows a directory of today, as after a midnight between reading the clock and listing
  (`Archive.BeginLosesExactly`).
- The gate reads the per-peer counters one after the other, so a retry can move a request past the reader.
  The overshoot bound is exceeded at most by the requests that slipped past, so it holds in full while no retry
  overlaps a gate's reads (`Admission.OvershootBound`, `Admission.UndisturbedBound`). A run with such a retry
  exceeds it (`Admission.RetryEscapesBound`), and with enough peers by any number, though no request comes back to
  a peer it has been on (`Admission.RetriesEscapeAnyBound`). For the same reason the window of the bound starts at
  the gate's first read.
- The tail rolls from the file it was on straight to today's, and the back-fill over HTTP runs only when the file
  of the checkpoint is gone, from the day before the checkpoint's on. Without a back-fill an unhandled line of a
  past day can still be handled if and only if the process or the checkpoint is on that day
  (`TailWorld.HandledLaterExactly`), so a day in between is lost (`TailWorld.DayBetweenIsLost`). With one, if and
  only if the day is yesterday or the process or the checkpoint is at most one day past it
  (`TailWorld.BackfilledLaterExactly`): a gap of three days loses its first day once the checkpoint has been saved
  after the roll (`TailWorld.BackfillTooLate`).
- Pages are exact for every limit precisely when the (end time, request id) keys in range are distinct; of two
  rows with one key the second is lost at some limit (`Pagination.ExactForEveryLimit`). The hint in the response
  promises exactness without that condition.
- At most one fold a window holds whatever the ratio of window and lifetime, because one record call uses
  one cached time for all its dictionary operations (`Windows.FoldedAtMostOnce`).
- A negative per-peer maximum can let a ban raise the pool's capacity above the static maximum. No ban does if
  and only if the positive maxima of every tier add up to at most that (`Capacity.NoBanRaisesExactly`).
- The gate compares with the limit times `rt_limit_factor` and a session share. Whatever the pool, it stays within
  it if and only if factor and share together are at most 1; any positive factor is accepted, and a factor of 2
  admits twice what the peers take (`Capacity.ScaledFitsExactly`, `Capacity.EnforcedLimit`).
- A chunk small enough can enter the head of the body log after a larger one went to the ring, and then head and
  ring are no prefix and suffix of the response however it goes on (`BodyRing.OvertakingBreaksOrder`);
  `BodyRing.InOrderExactly` says for which chunks they are.

## Model

| member | source | states |
|---|---|---|
| `Aggregation.Run` | bodylog-listener-go/main.go:1325-1540 | any entries and flushes from an empty log, with any writes failing: for every (minute, peer, stream) and each of the 13 counters, lines written, lines whose write failed, what is still on buckets and the first-chunk counters of late entries are together the sum of that very field over the entries that ended in that minute; the peaks of both times likewise; no line takes requests away |
| `Aggregation.RunAfterReload` | bodylog-listener-go/main.go:1325-1587 | the same after a restart, with what the log held before: per key and carried counter it is too high by what the reloaded file held of the key, once, if some entry of the key arrived before any flush dropped its minute; with nothing dirty and all lines written, exact if and only if that amount is zero; the log it leaves is again one to restart on |
| `Aggregation.Aggregator.constructor` | bodylog-listener-go/main.go:1082-1091 | a process on an existing log starts consistent with it |
| `Aggregation.Aggregator.Ingest` | bodylog-listener-go/main.go:1325-1414 | an entry's increments reach exactly one bucket, late ones an archived bucket, which alone becomes dirty; the archived index keeps its buckets; structure and books stay valid |
| `Aggregation.Aggregator.ChargeOpen` | bodylog-listener-go/main.go:1360-1387 | an entry of an unarchived minute goes to that key's open bucket or a new one |
| `Aggregation.Aggregator.ChargeLate` | bodylog-listener-go/main.go:1366-1380 | a late entry goes to that key's archived bucket or a new one inserted in minute order, and marks it dirty |
| `Aggregation.Aggregator.Bump` | bodylog-listener-go/main.go:1388-1413 | exactly the entry's contribution is added to the bucket shared by all structures, and to no other |
| `Aggregation.Contribution` | bodylog-listener-go/main.go:1336-1413 | each counter is the entry's own: one request, at most one status class, which is that of the status, tokens, bytes, response time, first-chunk time and whether there is one; both times as peaks |
| `Aggregation.AlignMinute` | bodylog-listener-go/main.go:1118-1126 | the one whole minute that contains the time |
| `Aggregation.KeyOf` | bodylog-listener-go/main.go:1117-1126 | the only key whose minute contains the end of the request, or the arrival without one, with its peer and stream |
| `Aggregation.IngestedIsArrived` | bodylog-listener-go/main.go:1325-1413 | what a run is given, as lines, has for every key and counter the sum of that field over the entries that concern the key, and as peaks their largest times |
| `Aggregation.TouchedExactly` | bodylog-listener-go/main.go:1366-1380 | the keys that a restart counts again are those with an entry before any flush dropped their minute |
| `Aggregation.Aggregator.SnapshotMinute` | bodylog-listener-go/main.go:1435-1440 | one full line, one pointer and one last-written copy for each bucket of a closing minute |
| `Aggregation.Aggregator.MoveMinute` | bodylog-listener-go/main.go:1430-1443 | a closing minute leaves the open index and enters the archived one with the same buckets |
| `Aggregation.Aggregator.CloseMinutes` | bodylog-listener-go/main.go:1424-1448 | exactly the minutes before the cutoff close; with their lines the log stays consistent and the archive sorted |
| `Aggregation.Aggregator.WriteDelta` | bodylog-listener-go/main.go:1454-1482 | one delta: the exact new state and line, the books kept; what the log now holds twice is what a reloaded bucket held, and nothing of any other |
| `Aggregation.Aggregator.WriteDeltas` | bodylog-listener-go/main.go:1453-1483 | after all deltas nothing is dirty and the log has caught up; for every key and counter exactly what its dirty reloaded bucket held was counted again |
| `Aggregation.Aggregator.CountOlder` | bodylog-listener-go/main.go:1486-1490 | the counted prefix is exactly the buckets older than the cut, so minutes go whole |
| `Aggregation.Aggregator.Evict` | bodylog-listener-go/main.go:1484-1498 | exactly the buckets within the retention stay, of the reloaded ones too, and books and structure stay valid |
| `Aggregation.Aggregator.CollectLines` | bodylog-listener-go/main.go:1423-1483 | the lines of a flush keep everything ingested accounted for; no archived bucket is dropped, and exactly what was pending of reloaded buckets is counted again |
| `Aggregation.Aggregator.AppendToFile` | bodylog-listener-go/main.go:1510-1538 | every line is in the file or, where its write failed, lost; all are in the file, in order, when none fails |
| `Aggregation.Aggregator.FlushClosedMinutes` | bodylog-listener-go/main.go:1423-1508 | a flush with its two clock readings and any failing writes keeps validity, changes no bucket, empties the dirty set, leaves open exactly the minutes younger than the flush age and archived exactly those within the retention, and counts again exactly what was pending of reloaded buckets |
| `Aggregation.Aggregator.MergeFile` | bodylog-listener-go/main.go:1556-1574 | for every key of a file one fresh bucket with the sums and the peak of its lines |
| `Aggregation.Aggregator.ListByMinute` | bodylog-listener-go/main.go:1575-1581 | the rebuilt buckets once each, ascending by minute |
| `Aggregation.Aggregator.Reload` | bodylog-listener-go/main.go:1541-1587 | the archive becomes the sums of today's lines, and the state is consistent with the log |
| `LinkedBuckets.SearchMinute` | bodylog-listener-go/main.go:1373 | the binary search finds the boundary between earlier minutes and the rest |
| `LinkedBuckets.InsertByMinute` | bodylog-listener-go/main.go:1372-1376 | insertion keeps the archive sorted and adds exactly the new bucket |
| `LinkedBuckets.PlacedOpenConsistent` | bodylog-listener-go/main.go:1360-1413 | an entry in an open minute keeps index agreement, settledness, balance and replayability |
| `LinkedBuckets.PlacedLateConsistent` | bodylog-listener-go/main.go:1366-1413 | so does a late one, its line due only for the counters a delta carries |
| `LinkedBuckets.MinuteClosedConsistent` | bodylog-listener-go/main.go:1430-1444 | closing a minute keeps all of it: no minute is both open and archived, one live bucket a key |
| `LinkedBuckets.DeltaWrittenConsistent` | bodylog-listener-go/main.go:1454-1482 | writing a delta keeps all of it, counting a reloaded bucket once more |
| `LinkedBuckets.EvictedConsistent` | bodylog-listener-go/main.go:1484-1498 | evicting a prefix of whole minutes keeps all of it, because nothing is dirty |
| `LinkedBuckets.LogIsComplete` | bodylog-listener-go/main.go:1423-1508 | after a flush the log alone holds everything due of every key that is not open, evicted ones included |
| `LinkedBuckets.FirstChunksAreComplete` | bodylog-listener-go/main.go:1460-1476 | of the first-chunk counters it does exactly when the late entries of the key add nothing to them |
| `LinkedBuckets.FirstChunkPeakIsComplete` | bodylog-listener-go/main.go:1460-1476 | the log has the true first-chunk peak exactly when no late entry of the key is above the others |
| `LinkedBuckets.ReloadCountsAgain` | bodylog-listener-go/main.go:1458-1480 | the log after the first delta of a reloaded bucket is too high by what it held at the reload, on top of what was counted again before |
| `LinkedBuckets.ReplayRebuilds` | bodylog-listener-go/main.go:1541-1587 | summing the log gives back the archived bucket of any minute never evicted, on the carried counters, and what was counted again |
| `LinkedBuckets.FileCoversDay` | bodylog-listener-go/main.go:1516-1522 | a day's file holds all of that day's keys with the sums and peaks of the whole log |
| `LinkedBuckets.ReloadedConsistent` | bodylog-listener-go/main.go:1541-1587 | a reloaded archive and the log it read are in balance |
| `MinuteCounters.SumOfPermuted` | bodylog-listener-go/main.go:1557-1574 | replay does not depend on the order of the lines |
| `MinuteCounters.Add` | bodylog-listener-go/main.go:1048-1068 | every summed counter adds, both peaks are the larger one |
| `MinuteCounters.Delta` | bodylog-listener-go/main.go:1460-1476 | carried counters are differences, the first-chunk ones absent, the peak current |
| `Summary.PerPeer` | bodylog-listener-go/httpapi.go:137-147 | one entry for each peer with its totals over all rows |
| `Summary.MergeBucketsByPeer` | bodylog-listener-go/httpapi.go:198-219 | one row a minute and peer in order of first appearance, stream cleared, each with the totals and the largest peaks of the rows of its minute and peer; every peer's totals and peaks as before |
| `Summary.TotalsPermuted` | bodylog-listener-go/httpapi.go:104-117 | per-peer totals do not depend on the order in which rows come |
| `AdaptiveCc.Register` | lua/route.lua:395-449 | whatever the route says, the controller runs with legal bands, slack < mid < pressure, keeps legal values and replaces each illegal one by its stated default |
| `AdaptiveCc.DeriveMin` | lua/route.lua:715-719 | a configured floor as far as it fits, else the whole part of the fraction of the maximum, at least 1; positive and at most the maximum |
| `AdaptiveCc.DeriveInit` | lua/route.lua:728-736 | a configured start point as far as it fits between floor and maximum, else the whole part of a configured fraction, else the floor |
| `AdaptiveCc.DesiredIsLeast` | lua/timers.lua:213-216 | the goal is the least limit whose use is at most midway between the two bands and that leaves the absolute headroom |
| `AdaptiveCc.BandsApart` | lua/timers.lua:213-238 | pressure means below the goal, slack above it, never both |
| `AdaptiveCc.MovesTowardsLevel` | lua/timers.lua:229-255 | a healthy step moves towards the level max(goal, start) and never past it, whatever the gains |
| `AdaptiveCc.NoOscillation` | lua/timers.lua:237-245 | a pressure step never lowers, a slack step never raises, neither enables the other |
| `AdaptiveCc.OneDirection` | lua/timers.lua:211-255 | with constant concurrency the limit moves one way over any number of ticks |
| `AdaptiveCc.FullStepsSoFar` | lua/timers.lua:241-251 | until it rests the limit is the start times a power of the gain |
| `AdaptiveCc.Converges` | lua/timers.lua:211-255 | it reaches a value after finitely many ticks and stays there |
| `AdaptiveCc.RestsExactlyWhen` | lua/timers.lua:237-255 | a healthy tick leaves the limit as it is if and only if it is at or above the start point, is pressed only at the maximum, and slack only at the start point or on hold |
| `AdaptiveCc.Pool.Age` | lua/timers.lua:187-194 | without a signal only the lifetime of a live value changes |
| `AdaptiveCc.Pool.StepOne` | lua/timers.lua:163-261 | one tick of the controller on the stored limit and the rejection counter |
| `AdaptiveCc.StaysInBand` | lua/timers.lua:255 | over every run with a fixed static maximum the stored limit stays between floor and maximum |
| `AdaptiveCc.InBandOfLastWriter` | lua/timers.lua:163-261 | however the static maximum moves, the stored limit lies in the band of the last tick that wrote it, and is the first value while none has |
| `AdaptiveCc.BranchDirections` | lua/timers.lua:211-255 | overload strictly shrinks down to the floor, rejections strictly grow up to the top, no threshold changes nothing |
| `AdaptiveCc.RejectedStep` | lua/timers.lua:224-228 | a tick with rejections gives exactly min(max, c * inc) |
| `AdaptiveCc.OverloadStep` | lua/timers.lua:217-223 | a tick with overload gives exactly max(min, c * dec), rejections or not |
| `AdaptiveCc.BoundedGrowth` | lua/timers.lua:211-261 | whatever n ticks see, the limit they leave is in the band, at most inc^n times the larger and at least dec^n times the smaller of the limit before them and the start point |
| `AdaptiveCc.RejectionsClimb` | lua/timers.lua:224-228 | n ticks with rejections in a row leave exactly min(max, c * inc^n) |
| `AdaptiveCc.OverloadsShrink` | lua/timers.lua:217-223 | n ticks with overload in a row leave exactly max(min, c * dec^n) |
| `AdaptiveCc.OnlyOverloadGoesUnderInit` | lua/timers.lua:216-255 | only an overload step takes the limit from the start point or above to below it, and exactly when its shrink does |
| `AdaptiveCc.Recovers` | lua/timers.lua:246-252 | n ticks with a signal and no overload bring c to the start point once c times inc^n reaches it, whatever the traffic |
| `AdaptiveCc.SteadyRunIterates` | lua/timers.lua:207-261 | the stored limit of a steady pool is the iterated step, so the convergence theorem is about it |
| `AdaptiveCc.HeldForever` | lua/timers.lua:188-190 | with hold on a written limit never disappears, and without a signal never changes |
| `AdaptiveCc.HoldTakesEffect` | lua/timers.lua:188-190 | the first held tick that writes or still reads the limit makes it permanent |
| `AdaptiveCc.GoneAfterIntervalAndTtl` | lua/timers.lua:191-193 | hold off and no signal: gone within one interval plus the lifetime, also when it was held before |
| `AdaptiveCc.NeverRevived` | lua/timers.lua:181-195 | no run of ticks without a write revives an expired value |
| `Capacity.LargestTier` | lua/route.lua:625-629 | the limit is the largest total of a priority tier |
| `Capacity.StaticMax` | lua/route.lua:689-706 | the same over all peers, the default for none |
| `Capacity.TierCapSnoc` | lua/route.lua:611-624 | a peer adds its own maximum, or the default without one, to its own tier, or to tier 0 when it names none, and to no other |
| `Capacity.AssessPool` | lua/route.lua:603-629 | healthy peers in order, those of the highest tier among them, and the healthy capacity |
| `Capacity.HealthyBelowStatic` | lua/route.lua:625-706 | banning peers never raises the capacity above the static maximum if every tier's positive maxima add up to at most that |
| `Capacity.NoBanRaisesExactly` | lua/route.lua:611-629 | and only if: otherwise some set of bans raises it |
| `Capacity.NonNegativesFit` | lua/route.lua:611-629 | they do when no maximum is negative |
| `Capacity.EnforcedLimit` | lua/access.lua:170-196 | the unscaled limit is at most the healthy capacity, which under that condition is at most the static maximum, and which value it is; the gate's is that times factor and share, within the capacity if these are together at most 1, and for a full limit only then |
| `Capacity.ScaledFitsExactly` | lua/access.lua:206-211 | the scaled limit is within every pool if and only if factor and share are together at most 1 |
| `Admission.ConservedStep` | lua/access.lua:466-468 | every step keeps each counter equal to the number of requests charged to its peer |
| `Admission.ClampNeverFires` | lua/access.lua:582-583 | a decrement never reads back a negative value |
| `Admission.TotalIsCharged` | lua/route.lua:584-590 | the sum of the counters is the number of charged requests |
| `Admission.RetryPreservesTotal` | lua/access.lua:673-688 | a retry takes one off and puts one on |
| `Admission.IdleMeansZero` | lua/access.lua:580-584 | when all requests have finished every counter is zero |
| `Admission.Drains` | lua/access.lua:580-584 | from every reachable state all requests, wherever they are, can finish, and then every counter is zero |
| `Admission.RejectedIsGone` | lua/access.lua:206-211 | a gate that turns a request away is done with it and has charged nothing |
| `Admission.RunInvariant` | lua/access.lua:206-211 | both invariants hold in every state of every run |
| `Admission.QuietGateIsExact` | lua/route.lua:584-590 | undisturbed, the gate's reads lead to a decision that lets a request pass if and only if it is a probe or fewer than the limit are in flight |
| `Admission.OvershootBound` | lua/access.lua:206-211 | in every run the requests in flight that are no probe, retried ones included, number at most ceil(L) - 1 + P and the requests that a retry moved past the last gate |
| `Admission.UndisturbedBound` | lua/access.lua:206-211 | at most ceil(L) - 1 + P when no retry overlaps a gate's reads |
| `Admission.CountersBounded` | lua/route.lua:584-590 | without probes the counters themselves then obey the bound |
| `Admission.RetryEscapesBound` | lua/access.lua:650-695 | a run with a retry during a gate's reads in which they do not, by exactly the request that slipped past |
| `Admission.RetriesEscapeAnyBound` | lua/access.lua:650-695 | for every m a run with limit 1 and one request in its window at a time has m requests in flight, each retried only onto peers it has not been on |
| `Archive.SafeStep` | bodylog-listener-go/main.go:710-776 | every file operation, crash, prune and write keeps each past day whole somewhere |
| `Archive.ArchivingIsSafe` | bodylog-listener-go/main.go:854-983 | in every state of every run with one pass at a time and no listing that shows today, each past day that was not pruned has its full directory or a complete archive |
| `Archive.ArchivesAreFinal` | bodylog-listener-go/main.go:726-741 | no step of an orderly run changes an archive, and only retention deletes one |
| `Archive.NextPassMayBegin` | bodylog-listener-go/main.go:712-716 | a pass that ends, or a crash, leaves the way free for the next |
| `Archive.PassArchivesDay` | bodylog-listener-go/main.go:720-741 | left alone, a pass turns the directory it chose into an archive of exactly its files and removes it |
| `Archive.NoTempIsLeft` | bodylog-listener-go/main.go:859-868 | in every run without a crash each temporary file is one that some pass is packing or about to rename |
| `Archive.NextPassCleansUp` | bodylog-listener-go/main.go:743-750 | what a crash leaves the next pass lists and removes, touching nothing else |
| `Archive.OverlappingPassesLoseData` | bodylog-listener-go/main.go:704-713 | two passes at once lose a day in spite of unique names and the check |
| `Archive.ListingTodayLosesData` | bodylog-listener-go/main.go:714-719 | a pass whose listing shows a directory of today can, by steps that are all orderly, come to lose what is written meanwhile |
| `Archive.BeginLosesExactly` | bodylog-listener-go/main.go:714-741 | a pass that begins alone can come to lose data, whatever happens beside it, if and only if its listing shows a directory of today |
| `Retention.PruneCandidates` | bodylog-listener-go/retention.go:91-168 | exactly the deletable files, archives before details, oldest first |
| `Retention.SparesHousekeeping` | bodylog-listener-go/retention.go:87-156 | nothing of today, nothing a rotation reads or may have half written, and nothing being compressed may be deleted; everything else may |
| `Retention.OrderIsByAge` | bodylog-listener-go/retention.go:157-168 | in that order all archives come before the details, in each the older dates first |
| `Retention.Pruner.RemoveOld` | bodylog-listener-go/retention.go:206-218 | the age step removes what is too old and keeps the order of the rest |
| `Retention.Pruner.RemoveBatch` | bodylog-listener-go/retention.go:257-267 | removals stop at the first point where enough is freed |
| `Retention.Pruner.RelieveDisk` | bodylog-listener-go/retention.go:219-272 | the disk step acts only at or over the threshold, out of cooldown and if it can suffice, and takes the shortest sufficient prefix; if it cannot it warns, at most once an hour |
| `Retention.Pruner.Prune` | bodylog-listener-go/retention.go:187-272 | which files a pass deletes, archives and details each by their own cutoff; that it acts on disk usage exactly at or over the threshold, out of cooldown and if it can suffice; when batches and warnings happen |
| `Retention.ShortestSufficientPrefix` | bodylog-listener-go/retention.go:243-267 | a batch is the shortest prefix that brings usage strictly below the limit, and precedes all that is left |
| `Retention.NothingWouldDo` | bodylog-listener-go/retention.go:244-256 | it deletes nothing exactly when all candidates together would not suffice |
| `Retention.BatchesApart` | bodylog-listener-go/retention.go:239-241 | any two batches of a pruner are at least the cooldown apart |
| `LineStream.LinesSplit` | bodylog-exporter-go/tail.go:173-195 | reading on from a line end gives the lines of the whole |
| `LineStream.LinesStay` | bodylog-exporter-go/tail.go:189-192 | an append changes no complete line |
| `LineStream.LinesCover` | bodylog-exporter-go/tail.go:179-187 | up to a line end the bytes are exactly the lines |
| `Tailer.Tailer.constructor` | bodylog-exporter-go/tail.go:63-95 | where a process starts, what it has observed by then, and that recovered ids are remembered exactly after an HTTP recovery |
| `Tailer.Tailer.HandleLine` | bodylog-exporter-go/tail.go:202-218 | bad lines and recovered ids are skipped, all else observed |
| `Tailer.Tailer.ReadLines` | bodylog-exporter-go/tail.go:176-197 | every complete line from the offset on is handled, in order; offset, last time and checkpoint are exactly those after them and after the last save that was due and succeeded |
| `Tailer.Tailer.ReadFrom` | bodylog-exporter-go/tail.go:161-200 | the same for whole reads with their errors; an error is never an end of file; the checkpoint moves only to a line end that was read past |
| `Tailer.Tailer.Turn` | bodylog-exporter-go/tail.go:110-156 | where a round leaves the tailer, what it observes, its last time and what it stores: after a roll whose save succeeds the start of today's file, else what the read leaves, at a line end read past; a file that is there is left exactly when it was read to its clean end and is not today's; duplicates are remembered until the live end |
| `Tailer.LeftExactly` | bodylog-exporter-go/tail.go:180-197 | the checkpoint a read leaves is that of the last save that was due and succeeded, one every 2000 lines and one at the end |
| `Tailer.NeverTwice` | bodylog-exporter-go/tail.go:209-213 | no recovered id is observed again, and nothing else is dropped |
| `Tailer.Follow` | bodylog-exporter-go/tail.go:63-231 | a process however it starts, over any number of rounds: up to the live end no recovered id is observed again and nothing else is dropped, after it every line counts; the last time is that of all it observed; if files only grow, every line before what it has stored, or would store now, was handled in one of the rounds or lies before where it started |
| `Tailer.RestartableStep` | bodylog-exporter-go/tail.go:124-145 | each round keeps it so: no restart on the stored checkpoint skips a line that was not handled |
| `Tailer.TakenIsHandled` | bodylog-exporter-go/tail.go:176-182 | a line counted as handled there is among those the round handles |
| `Tailer.ClosesAtLiveEnd` | bodylog-exporter-go/tail.go:126-147 | that window ends only in a round that finds the file gone, or at its clean end without a complete line left |
| `TailWorld.SafeStep` | bodylog-exporter-go/tail.go:161-231 | appends, lines, saves and their failures, rolls, rotations, crashes, restarts and back-fills keep process and checkpoint on line ends with nothing skipped before |
| `TailWorld.AlwaysSafe` | bodylog-exporter-go/checkpoint.go:10-45 | so in every state of every run |
| `TailWorld.ResumeSkipsNothing` | bodylog-exporter-go/tail.go:69-72 | a restart on the checkpoint has every earlier line handled and reads all the others |
| `TailWorld.HandledLaterExactly` | bodylog-exporter-go/tail.go:124-145 | without a back-fill an unhandled complete line of a past day is handled in some continuation if and only if its day is the process's or the checkpoint's |
| `TailWorld.BackfilledLaterExactly` | bodylog-exporter-go/tail.go:69-101 | with a back-fill an unhandled served line of a past day is handled in some continuation if and only if its day is yesterday, or the process or the checkpoint is at most one day past it |
| `TailWorld.RollLosesExactly` | bodylog-exporter-go/tail.go:124-145 | a roll leaves no complete line in the file it leaves; which lines of past days can then still be handled, with and without a back-fill |
| `TailWorld.NeverReadAgain` | bodylog-exporter-go/tail.go:69-145 | a past day that neither process nor checkpoint is on, nor a back-fill can reach, is never read in any continuation |
| `TailWorld.DeletedIsLost` | bodylog-exporter-go/tail.go:126-135 | what retention deletes before it was handled is lost in every continuation, with or without a back-fill |
| `TailWorld.DayBetweenIsLost` | bodylog-exporter-go/tail.go:136-143 | a run without a back-fill from an empty world after which a day's line can never be handled |
| `TailWorld.BackfillTooLate` | bodylog-exporter-go/tail.go:69-145 | a run with a back-fill and a gap of three days after which a day's line can never be handled |
| `Pagination.MetricsPage` | bodylog-listener-go/httpapi.go:420-463 | a page is the first rows past the bound, with a cursor exactly when there are more |
| `Pagination.SelectPast` | bodylog-listener-go/httpapi.go:365-377 | the next page's query finds exactly the rows in range past the cursor |
| `Pagination.WalkSeesAll` | bodylog-listener-go/httpapi.go:418-463 | with distinct keys the walk sees every row once, in order, for any limit |
| `Pagination.ExactForEveryLimit` | bodylog-listener-go/httpapi.go:418-463 | it does so for every limit if and only if the keys in range are distinct |
| `Pagination.Recover` | bodylog-exporter-go/recovery.go:24-87 | the client ends, observes the walk, a prefix of it when a request fails, and remembers exactly the ids it saw; nothing outside start and end is observed, and with distinct keys and no failure everything inside is |
| `Pagination.CursorRoundTrip` | bodylog-listener-go/httpapi.go:521-538 | a cursor parses back exactly when the time has no separator |
| `Pagination.CursorInjective` | bodylog-listener-go/httpapi.go:521-523 | different positions have different cursors |
| `Windows.TimedStep` | lua/ttft.lua:141-182 | every step keeps claims alive for as long as anyone may fold their window |
| `Windows.FoldedAtMostOnce` | lua/tps.lua:145-179 | no window is claimed for folding twice in any interleaving, whatever the ratio of window and lifetime |
| `Windows.SampleUsedOnce` | lua/ttft.lua:141-182 | no sample enters two statistics, and each enters only that of its own window |
| `Windows.NoWindowPassedOver` | lua/ttft.lua:152-176 | when a call moves the last window on, every window from the one it read up to its own has been claimed, and has its statistic computed or about to be |
| `Windows.FirstIsRecent` | lua/ttft.lua:150-152 | a call starts at the window it read, or at the horizon, which covers the lifetime |
| `Windows.FoldsExactlyWhen` | lua/ttft.lua:141-147 | a call folds exactly when the last window it reads has not expired and is before its own; without one it only sets it, else it only counts its sample |
| `Windows.BlendedGrounded` | lua/ttft.lua:164-166 | blending stays between the statistics it is made of, each folded in while the one before had not expired |
| `Windows.AverageAmongStatistics` | lua/ttft.lua:156-168 | every average lies between the least and greatest statistic folded since it last expired, lost updates included |
| `Windows.AverageIsWeightedSum` | lua/ttft.lua:156-168 | in every state of every run, lost updates included, the average of statistics x0..xn is (1-a)^n x0 plus the sum of a(1-a)^(n-i) xi |
| `Windows.WeightsAddUp` | lua/tps.lua:160-168 | those weights add up to one |
| `Windows.DistanceShrinks` | lua/ttft.lua:164-166 | k further statistics equal to x leave (1-a)^k times the distance to x |
| `Windows.StatisticsUsedOnce` | lua/ttft.lua:155-168 | the statistics in an average came out of windows that are all different |
| `Windows.UndisturbedFold` | lua/ttft.lua:160-167 | a fold that no other comes between adds exactly its own statistic to the average it read, or starts afresh when that had expired |
| `Histogram.BucketIndex` | lua/ttft.lua:129-133 | the first bucket whose bound the sample does not exceed |
| `Histogram.WindowQuantile` | lua/util.lua:47-63 | nothing for an empty window, else the first bucket that reaches the target |
| `Histogram.QuantileOfSamples` | lua/util.lua:47-63 | that is the least bound at least q of the samples do not exceed |
| `Lease.AtMostOneHolder` | lua/route.lua:495-512 | if every live holder renews within the lifetime, no two hold the lease |
| `Lease.LeaseChangesExactly` | lua/route.lua:505-529 | the lease is taken only when free or over and renewed only by its holder, not even its holder's death frees it; when a waiting worker tries again |
| `Lease.TimersFireExactly` | lua/route.lua:509-533 | when each timer may fire |
| `Lease.TakeoverInTime` | lua/route.lua:519-533 | with timers on time no two share the lease, and a waiting worker has taken over within 90 seconds of the last renewal |
| `Lease.LateHolderShares` | lua/route.lua:505-512 | a holder that sleeps through its lease shares it |
| `PostProcess.BufferedFilter.Body` | lua/postprocess.lua:128-170 | what is sent is nothing until the end, or all bytes as they came once over the cap |
| `PostProcess.RunBuffered` | lua/postprocess.lua:128-170 | any chunking: the handler applied to the whole, the original on a failure, identical bytes over the cap |
| `PostProcess.VllmFormat.BodyJson` | lua/postprocess.lua:305-326 | the same for a JSON body |
| `PostProcess.VllmFormat.BodySse` | lua/postprocess.lua:328-347 | complete lines have gone out rewritten, a half line is held back and goes out at the end |
| `PostProcess.RunSse` | lua/postprocess.lua:328-347 | any chunking of an event stream gives the line-by-line rewrite of the whole |
| `PostProcess.RunJson` | lua/postprocess.lua:305-326 | any chunking of a JSON body gives the rewrite of the whole or identical bytes |
| `PostProcess.UnchangedIsIdentical` | lua/postprocess.lua:284-293 | a stream none of whose own frames needs a change comes out byte for byte |
| `PostProcess.IdenticalExactlyUntouched` | lua/postprocess.lua:284-293 | and only such a stream does, when a frame is rewritten to one line |
| `PostProcess.StreamRewrittenOnce` | lua/postprocess.lua:284-347 | rewriting a rewritten stream changes nothing |
| `PostProcess.RewrittenLine` | lua/postprocess.lua:284-293 | a rewritten line is a data line with the rewritten payload and its old line ending, and rewriting it again changes nothing |
| `PostProcess.LineChangesExactly` | lua/postprocess.lua:284-293 | a line is changed exactly when it is a data line, not the last one, whose payload the rewrite changes |
| `PostProcess.PayloadBetweenBlanks` | lua/postprocess.lua:285 | the payload is what lies between the white space after `data:` and that at the end of the line |
| `VllmJson.Normalize` | lua/postprocess.lua:232-275 | the edits reach the normal form, report a change exactly when there was one, and keep field by field what the rules do not name: reasoning text under its new name in choice, delta and message, the cache count, all other fields, number and order of choices |
| `VllmJson.NormalizedKeeps` | lua/postprocess.lua:210-275 | nothing but what the rules name is lost, and what they rename is there under its new name |
| `VllmJson.KeptExactly` | lua/postprocess.lua:210-275 | only one result keeps exactly that, the one the rules make |
| `VllmJson.ChangesExactlyUnclean` | lua/postprocess.lua:232-275 | a response is changed exactly when it is not in the normal form, and is in it afterwards |
| `VllmJson.NormalizedOnce` | lua/postprocess.lua:232-275 | normalising twice is normalising once |
| `VllmJson.RewrittenOnce` | lua/postprocess.lua:277-282 | rewriting rewritten text leaves it as it is |
| `VllmJson.StreamNormalizedOnce` | lua/postprocess.lua:277-347 | so a stream that went through `vllm_format` goes through it again unchanged |
| `Frame.ReadFrame` | bodylog-listener-go/main.go:513-555 | no slice is ever out of range; the result and every error case |
| `Frame.ReadsBack` | lua/bodylog.lua:355-362 | a packed entry reads back as itself exactly when its meta fits 16 bits and its payload the reader's limit |
| `Frame.OnlyPackedIsRead` | bodylog-listener-go/main.go:513-555 | the reader accepts nothing the writer could not have packed |
| `Frame.RejectedExactly` | bodylog-listener-go/main.go:513-530 | which error a frame gives, by its length and by how much of it there is |
| `Frame.CutShortExactly` | bodylog-listener-go/main.go:530-555 | and which by the section of its payload that is cut short |
| `Frame.ReadAll` | bodylog-listener-go/main.go:513-555 | any sequence of frames reads back as the same list of entries |
| `Frame.PackIsShiftAndMask` | lua/bodylog.lua:245-255 | the packed bytes are those of the shifts and masks |
| `Frame.UnpackPack` | lua/bodylog.lua:245-255 | a length comes back exactly if it fits the width |
| `BodyRing.NoByteLost` | lua/bodylog.lua:187-193 | every byte goes to head or ring, and the head stays within its limit |
| `BodyRing.Recorder.FilterChunk` | lua/bodylog.lua:170-212 | a chunk keeps the recorder valid: head, ring indices, byte counts, evictions |
| `BodyRing.Recorder.BytesAddUp` | lua/bodylog.lua:187-211 | total = head + tail + evicted, each region within its limit |
| `BodyRing.Recorder.LongestSuffix` | lua/bodylog.lua:203-211 | the ring is the longest run of last overflow chunks that fits |
| `BodyRing.Recorder.Assemble` | lua/bodylog.lua:292-312 | the logged body, with exactly the evicted bytes reported missing |
| `BodyRing.InOrderExactly` | lua/bodylog.lua:187-196 | head and overflow are the first k chunks and the others if and only if the first k fit and each later one is longer than the room they leave |
| `BodyRing.OvertakingBreaksOrder` | lua/bodylog.lua:187-196 | a chunk that enters the head after another was turned away ends that order for good, for every k and continuation |
| `BodyRing.RecordedFrameIsReadable` | lua/bodylog.lua:359-365 | whatever was recorded gives a frame the reader accepts and reads back |

## Left out

- Sockets, HTTP clients and servers, Kubernetes calls, Prometheus registration and logging: no state of their own to reason about.
- JSON, gzip/tar, base64url and SQL are functions with stated properties; a tar member is a name with its content.
- Machine integers: Go's 64-bit counters and byte counts do not wrap here, and floating-point rounding is not modelled.
- Shared-dictionary eviction under memory pressure, killed workers, the `@return_501` release path and `/_active_conns_set`.
- Different workers' cached clocks in the lease and the stored limit: one clock there. In `Windows` each call has its own time.
- The rejection counter's own lifetime: a tick of `AdaptiveCc` finds it positive or not.
- Aggregation.Aggregator.AppendToFile: a line is written or not; a torn line, and a flush that overlaps the appends of another, are not modelled.
- Aggregation.Aggregator.Reload: does not state that a restarted process stays exact, because it does not; `RunAfterReload` says when and by how much it is off.
- Aggregation.RunAfterReload: requires that no line of the log it finds takes requests away; `Run` and `RunAfterReload` guarantee it of the log they leave.
- LinkedBuckets.ReplayRebuilds: speaks of sums only; a logged peak of a delta is the current one, which `LogIsComplete` covers.
- The two-level maps of the aggregator are a set of minutes and a flat map over keys; the set of buckets closed in the same flush is not kept, since a closed bucket is never dirty.
- Maps are iterated in some order; the archive's `sort.Slice` is insertion into a sorted list.
- AdaptiveCc.Converges: requires inc > 1 and 0 < dec < 1, which registration does not check.
- AdaptiveCc.Register: a value that is not a number counts as absent.
- Capacity.AssessPool: priorities are whole numbers; the speed and first-token signals it also reads are inputs elsewhere.
- Archive.ArchivingIsSafe: durability is that of the file operations in order; unsynced writes lost by a power failure, the legacy single-file days and `rotateDetails`, which write their final path in place, are not covered. The writer writes only to today's directory.
- Tailer.Follow: takes it that the bytes a round reads of a file are the beginning of what the file holds in the end; which files are deleted or rolled past is in `TailWorld`.
- Retention.Pruner.Prune: sizes and usage are exact numbers, and `total * pct` does not overflow.
- TailWorld.AlwaysSafe: a rotated or deleted day's file is not created again.
- TailWorld.BackfilledLaterExactly: a back-fill is asked for by day, and a row belongs to the day of its file; the rows of the last seconds, which it leaves out, are open like those after a failed page. How pages and duplicates work is in `Pagination` and `Tailer`.
- Admission.RetriesEscapeAnyBound: `max_more_tries`, any positive number, is not a guard of the retry step; the run retries a request up to m - 1 times.
- Pagination.Recover: end times are exact numbers; their text at microsecond precision and the choice of files by day are not modelled.
- Windows.AverageAmongStatistics: one metric a histogram; the code folds each declared metric from the same counts under its own key.
- Windows.FoldedAtMostOnce: `folds` are the claims, taken before the statistic is computed; that a claimed window is computed by its call once it goes on is in `NoWindowPassedOver`, and a worker that dies in between folds it no more.
- Windows.AverageIsWeightedSum: a concurrent fold can drop another's statistic from the average, as in the code; which ones are left is its `chain`.
- Windows.SampleUsedOnce: a sample that is counted into a window after its statistic was computed is lost, as in the code; which of the samples counted meanwhile the reads see is left open.
- Threshold lookups, half-open probes, session priorities, reject rules, request transforms, API keys and the debug endpoints: lookups and single-branch checks.
- Session-affinity hashing and the random tie-break of `pick_from`.
