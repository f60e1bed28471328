# Bulk mailer dispatch and template core, modelled in Dafny

The mailer sends one prepared email job per recipient row. Jobs go out through
Google Apps Script accounts or through SMTP servers, and the main window runs
them as a *campaign*:

- a queue of prepared jobs is cut into contiguous batches;
- each batch goes to a batch worker;
- the worker pushes its jobs through a bounded pool of concurrent send tasks;
- SMTP sends pass a per-server token-bucket limiter first;
- a periodic automated test email goes out after every N primary successes.

Before a job is queued, its subject, bodies and headers are resolved in three
passes:

- data placeholders `{{ column }}`;
- context placeholders;
- dynamic tags `{{[...]}}`, which include random strings and per-job boundary
  values.

Spintax `{a|b}` runs after that. The recipient list and the sender address come
from small parsers.

This project models that core as Dafny modules, one per part of the program:

| module | part of the program |
|---|---|
| `RateLimiter` | `AdvancedRateLimiter`: the bucket as a value and as the `TokenBucket` class |
| `JobQueue` | `HighPerformanceJobQueue` as the generic class `JobQueueManager` |
| `Jobs` | the prepared job record the engine reads |
| `BatchWorker` | `OptimizedEmailSenderThread.run`/`stop` as the `Worker` class, plus the per-triple booking |
| `Campaign` | the `MailerApp` campaign state machine as the `Orchestrator` class; the limiter pool as `LimiterPool`; the test-send counter |
| `Placeholders` | the first two passes of `_resolve_all_placeholders_and_tags` |
| `DynamicTags` | the third pass: `CHAR_SETS`, `generate_random_string`, the tag replacer and the `BoundaryCache` class |
| `Spintax` | `process_spintax_in_text` |
| `Recipients` | `_parse_recipients` |
| `JobAssembly` | header-key cleaning, custom headers, `build_smtp_from_address`, the test payload |
| `Common` | the parts of Python's `str` and `dict` the code relies on |

The model turns the program's outside world into inputs:

- **Clock.** Every clock reading is a `real` parameter. `acquire`'s retry loop
  takes two readings per turn, a `Turn(check, now)`: `check` for the loop test
  against the deadline, `now` for the locked attempt.
- **Randomness.** `random.choice` is a stream `pick: nat -> nat`. The k-th draw
  over n options takes `pick(k) % n`. Every consumer returns how many draws it
  used.
- **Futures.** A submitted job becomes a task with a fresh identity. Each drain
  is told which tasks have finished and with what outcome.
- **Qt timers and signals.** The deferred dispatch (`QTimer.singleShot`) is a
  returned `DispatchScheduled` value, and worker stop requests become the list
  of worker identities that are signalled.
- **Address check.** The email-address regular expression is a predicate
  parameter `valid`.

Five behaviours of the code a reader might not expect, which the model keeps:

- Stopping and clearing the campaign leaves the pause flag set, and does not call
  the finalizer.
- Restarting a queue that was sent to the end keeps the old totals. The reset
  depends on the cursor being 0, and it is tested before the cursor is rewound.
- A resume while batches are still running schedules one more dispatch next to
  them.
- The limiter pool can lower a limiter's burst without capping its tokens. Only
  the next refill restores the cap, so "tokens ≤ burst" is stated after every
  attempt rather than always.
- A spintax group without `|` is written back in place of itself. The comment
  at Apps_script.py:2941-2946 expects the search to move on to later groups,
  but the next pass finds the same group again, so any spintax after it is
  left as it is (`Spintax.GroupWithoutPipeIsStuck`).

## Model

| member | source | states |
|---|---|---|
| RateLimiter.TokenBucket.constructor | Apps_script.py:174-178 | the rate is max(argument, 0.1), the burst max(argument, 1); tokens start at the unclamped burst argument, never above the clamped burst; the last refill time is the creation time |
| RateLimiter.Refill | Apps_script.py:189-190 | the refilled count is at most the burst, at most the old count plus elapsed time times the rate, and equal to one of the two |
| RateLimiter.AttemptSpec | Apps_script.py:186-195 | one locked attempt grants exactly when the refilled count is at least 1; a grant leaves the refilled count minus exactly 1, a refusal leaves the refilled count; afterwards tokens ≤ burst; rate and burst kept, last update is the reading |
| RateLimiter.TokenBucket.TryAcquire | Apps_script.py:186-195 | the object's new state and the answer are those of one attempt at the reading; granted iff the refill reached 1; tokens ≤ burst afterwards |
| RateLimiter.TokenBucket.Acquire | Apps_script.py:181-202 | answer and final state are those of the retry loop: while a turn's loop-test reading is before start + timeout, one attempt at that turn's attempt reading, until one grants; a timeout when a test fails or the turns run out |
| RateLimiter.RetryIsAttempts | Apps_script.py:181-202 | an `acquire` call is a prefix of single attempts, at the turns' attempt readings, granting one token when it answers true and none otherwise |
| RateLimiter.RetryGrantsBeforeDeadline | Apps_script.py:185-195 | a call that answers true took its token in a turn whose loop test, and every earlier turn's, read before the deadline |
| RateLimiter.LateGrant | Apps_script.py:185-187 | the attempt reading of a granting turn may lie past the deadline: a test at 14 s of 15 s and an attempt at 20 s still take a token |
| RateLimiter.AttemptsFrame | Apps_script.py:186-195 | a run of attempts keeps the rate and the burst and ends with the last reading as the refill time |
| RateLimiter.AddedTelescopes | Apps_script.py:189 | the refills of a run of attempts add up to the rate times the whole elapsed time |
| RateLimiter.SpentPlusLeft | Apps_script.py:187-195 | tokens granted plus tokens left never exceed the starting count plus rate times elapsed time, whatever the clock does |
| RateLimiter.TokensFloor | Apps_script.py:189-195 | with a clock that never runs backwards and a non-negative rate and burst, the count never drops below min(start, 0) |
| RateLimiter.Conservation | Apps_script.py:181-202 | attempts spanning T seconds on a bucket that starts at most full grant at most burst + rate × T tokens |
| RateLimiter.TokenBucket.Reconfigure | Apps_script.py:2614-2616 | rate and burst are replaced without clamping; tokens and refill time are kept, so tokens may exceed a lowered burst until the next refill |
| JobQueue.JobQueueManager.constructor | Apps_script.py:206-214 | empty FIFO and pool, both counters 0, not running |
| JobQueue.JobQueueManager.AddJob | Apps_script.py:216-220 | the job joins the FIFO's end and the submitted count rises by exactly 1; nothing else changes; completed + in flight + queued = submitted is kept |
| JobQueue.JobQueueManager.InitialAdmissions | Apps_script.py:227 | at most the queue size, at most the concurrency limit, none for a limit ≤ 0, otherwise the smaller of the two |
| JobQueue.JobQueueManager.StartProcessing | Apps_script.py:222-239 | running is set; that many jobs leave the FIFO's head in order and become in-flight tasks with fresh consecutive identities; counters unchanged |
| JobQueue.JobQueueManager.AdmitLoop | Apps_script.py:227-232 | the loop submits exactly the first n queued jobs, in order |
| JobQueue.Admit | Apps_script.py:230-232 | submitted tasks carry the jobs in order with consecutive identities |
| JobQueue.Done | Apps_script.py:245-249 | the finished futures, in order, never more than are in flight |
| JobQueue.DoneCovers | Apps_script.py:247-249 | every finished in-flight future is collected |
| JobQueue.DoneWithoutSplit | Apps_script.py:247-252 | the finished and the remaining futures together are as many as were in flight |
| JobQueue.DoneWithoutPartition | Apps_script.py:247-252 | the finished and the remaining futures together are, as a multiset, exactly the in-flight ones |
| JobQueue.DoneSingle | Apps_script.py:247-249 | one future is collected exactly when it has finished |
| JobQueue.DoneAppend | Apps_script.py:247-249 | collecting keeps pool order: the finished futures of a concatenation are those of each part in turn |
| JobQueue.JobQueueManager.Replacements | Apps_script.py:264-269 | replacements are at most the finished count and the queued count; none when not running; otherwise the smaller |
| JobQueue.JobQueueManager.ReplacementsStep | Apps_script.py:265-269 | each completion admits at most one replacement, and exactly one while running with jobs waiting |
| JobQueue.JobQueueManager.Outcomes | Apps_script.py:255-259 | a finished future yields its value or raises; a cancelled future raises with an empty message |
| JobQueue.JobQueueManager.DrainOne | Apps_script.py:251-269 | one turn pops one finished future, records its triple and submits at most one replacement, keeping the loop's invariant |
| JobQueue.JobQueueManager.DrainLoop | Apps_script.py:251-276 | the triples are those of the finished futures in order; the pool is the unfinished tasks plus the replacements; the FIFO loses exactly the replaced jobs |
| JobQueue.JobQueueManager.GetCompletedJobs | Apps_script.py:241-277 | each finished future leaves the pool and is counted once (completed rises by their number, one triple each); FIFO and pool change by the replacements alone; the pool never grows; submitted and running kept; completed ≤ submitted preserved |
| JobQueue.JobQueueManager.Progress | Apps_script.py:279-284 | all zero before any submission, else (completed, in flight, submitted), the first two never above the third |
| JobQueue.JobQueueManager.IsFinished | Apps_script.py:304-311 | holds iff the FIFO and the pool are empty, and then completed = submitted |
| JobQueue.JobQueueManager.Stop | Apps_script.py:286-298 | admissions stop; every in-flight future that has not started is cancelled; pool, FIFO and counters unchanged |
| JobQueue.StopThenDrain | Apps_script.py:289-294 | after a stop, the next drain leaves in the pool only futures that had started |
| BatchWorker.ClassifySent | Apps_script.py:626-640 | a triple books as sent exactly when it has no non-empty task error and a successful result |
| BatchWorker.Tally | Apps_script.py:616-640 | every drained triple is completed once, and completed = successful + failed |
| BatchWorker.PrimaryEvents | Apps_script.py:629-635 | there are never more primary-success signals than successes |
| BatchWorker.PrimaryEventsNotTests | Apps_script.py:624-635 | no signal is for a job whose id starts with `TEST_` |
| BatchWorker.PrimaryEventsSent | Apps_script.py:626-635 | every signal is for a drained triple that was sent |
| BatchWorker.PrimaryEventsNoneForTests | Apps_script.py:624-635 | a drain of test jobs only raises no signal |
| BatchWorker.PrimaryEventsAllPrimary | Apps_script.py:629-635 | a drain without test jobs raises one signal per success |
| BatchWorker.PrimaryEventsExact | Apps_script.py:624-635 | each signal is for a sent job whose id lacks `TEST_`; a drain of test jobs raises none; a drain of non-test jobs raises one per success |
| BatchWorker.Worker.BookAll | Apps_script.py:616-640 | the loop adds the drain's tally to the counters and appends its signals |
| BatchWorker.Worker.Book | Apps_script.py:616-640 | counters rise by the drain's tally; signals are appended; completed = successful + failed and the no-test-signal invariant kept |
| BatchWorker.AttachLimiter | Apps_script.py:584-589 | only the limiter field changes; it is set only for a `genericsmtp` job whose non-empty nickname is pooled; a warning is raised iff a `genericsmtp` job has no such nickname |
| BatchWorker.TransportFor | Apps_script.py:599 | Apps Script exactly when the first job is `appsscript`, SMTP otherwise |
| BatchWorker.SmtpRateGate | Apps_script.py:373-375 | with a limiter, `acquire(15)` runs and a timeout fails the send with "SMTP Rate Limit Timeout"; without one, the delivery's result stands |
| BatchWorker.Worker.constructor | Apps_script.py:545-560 | a fresh private queue, running, all counters 0 |
| BatchWorker.Worker.Stop | Apps_script.py:685-704 | the run flag and the queue's admissions are cleared and unstarted futures cancelled; counters and signals unchanged |
| BatchWorker.Loaded | Apps_script.py:584-591 | the queued jobs are the batch's jobs in order, each with its limiter attached |
| BatchWorker.WarnedAreSmtp | Apps_script.py:584-589 | only `genericsmtp` jobs are warned about |
| BatchWorker.LoadStep | Apps_script.py:577-591 | one more loading step extends the queued list by that job with its limiter and the warned list by that job exactly when it is warned about |
| BatchWorker.Worker.LoadOne | Apps_script.py:584-591 | the job joins the queue's end with its limiter; it joins the warned list iff it lacks a pooled limiter; submitted rises by 1; nothing else changes |
| BatchWorker.Worker.LoadJobs | Apps_script.py:577-595 | the queue holds exactly the jobs loaded, in order, with their limiters, and the warned list grows by exactly the warned ones among them; a stop before step k (k = batch size: after the last job) leaves k jobs loaded and the run flag down; without a stop every job is loaded and the flag stays up; nothing is drained or booked |
| BatchWorker.Worker.PollLoop | Apps_script.py:610-653 | while running, the booked count equals the queue's completed count; the queue and counter invariants are kept |
| BatchWorker.Worker.Run | Apps_script.py:564-683 | an empty batch ends at once as a success; a stop before or after any loading step ends as stopped during setup, with the loaded jobs queued and nothing booked; without one the run goes past setup and its warned list is exactly the warned jobs of the batch; a completed batch has counted every job and emptied its queue; the transport follows the first job; only `genericsmtp` jobs are warned about; the queue is stopped on every exit |
| Campaign.BatchEnd | Apps_script.py:2233-2234 | a batch ends at most one batch size past the cursor and within the queue, and is a full batch unless it reaches the end |
| Campaign.BatchedSnoc | Apps_script.py:2233-2268 | handing out the next slice keeps the handed-out batches contiguous, non-empty, each at most the batch size in force at its dispatch, and equal to the queue up to the new cursor |
| Campaign.BatchedGrow | Apps_script.py:3199 | a job joining the queue leaves the batches handed out as they were |
| Campaign.Orchestrator.constructor | Apps_script.py:1500-1516 | empty queue and worker lists, cursor 0, flags down, totals and test counter 0 |
| Campaign.Orchestrator.Enqueue | Apps_script.py:3199 | the job joins the queue's end; the batch invariant is kept |
| Campaign.Orchestrator.Dispatch | Apps_script.py:2217-2269 | no-op iff paused or inactive; otherwise the batch is queue[cursor..min(cursor + size, length)], goes to a new worker, and the cursor moves to its end; with nothing left and no worker running, the campaign finalizes; the handed-out batches stay disjoint, contiguous and a cover of the queue up to the cursor |
| Campaign.Orchestrator.Start | Apps_script.py:2176-2215 | refused, with no change, for an empty queue, a running campaign or no senders selected; otherwise the counter resets, the totals reset only when the cursor was 0, a queue sent to the end restarts at 0, and the first batch goes out |
| Campaign.Orchestrator.Launch | Apps_script.py:2196-2215 | past the checks: flags set, totals reset only from cursor 0, the first batch is the slice from the (rewound) cursor |
| Campaign.Orchestrator.Prepare | Apps_script.py:2196-2211 | processing without pause, test counter 0, totals reset only from cursor 0, cursor rewound only when it was at the end |
| Campaign.Orchestrator.OnBatchFinished | Apps_script.py:2288-2329 | the worker's first entry leaves the list; its counters join the totals; a dispatch is scheduled iff running and not paused; otherwise it finalizes iff no worker is left and the queue is done or processing inactive |
| Campaign.RemoveFirstAbsent | Apps_script.py:2298-2299 | a worker not in the list leaves it unchanged |
| Campaign.RemoveFirstAt | Apps_script.py:2298-2299 | the first entry of the worker goes and the rest keep their order |
| Campaign.RemoveFirstRemovesOne | Apps_script.py:2298-2299 | exactly one occurrence goes and nothing else |
| Campaign.Orchestrator.Finalize | Apps_script.py:2368-2372 | both campaign flags are cleared |
| Campaign.Orchestrator.SetBatchSize | Apps_script.py:2135-2137 | the batch size changes at any time, also mid-campaign; the next dispatch cuts batches of the new size, and the batches already handed out keep the invariant under the size they were cut with |
| Campaign.Orchestrator.TogglePause | Apps_script.py:2427-2459 | nothing to toggle without a queue or a running campaign; a finished campaign is reported unchanged; otherwise pause flips; a resume sets processing and schedules a dispatch while work is left, else finalizes |
| Campaign.Orchestrator.StopAndClear | Apps_script.py:2462-2546 | nothing happens when there is nothing to stop or the stop is not confirmed; otherwise every worker is signalled, the queue and both worker lists are emptied, the cursor is 0, processing stops with the pause flag left set, and the totals are kept |
| Campaign.OneTestPerThreshold | Apps_script.py:2274-2285 | with a usable address and a positive threshold t, from a counter below t, k successes send ⌊(count + k) / t⌋ tests and leave the remainder as the counter |
| Campaign.CounterRunFront | Apps_script.py:2274-2285 | k successes are the first success's counter step followed by the other k - 1 |
| Campaign.OverThresholdResetsFirst | Apps_script.py:2274-2285 | from a counter that already reached a positive threshold t (it grows while the address is unusable, and t is read on every success), the first of k ≥ 1 successes sends a test and resets the counter; then k - 1 successes send ⌊(k - 1) / t⌋ more and leave (k - 1) mod t |
| Campaign.NoTestWhenDisabled | Apps_script.py:2274-2285 | with no usable address or threshold 0, no test is sent and the counter just counts |
| Campaign.Orchestrator.OnPrimarySuccess | Apps_script.py:2272-2285 | the counter and the decision follow one counter step; a test is the test payload of the job for the stripped address, run by a new test worker |
| Campaign.Orchestrator.DispatchTest | Apps_script.py:3230-3344 | the test copy is the test payload and goes to a new test worker |
| Campaign.Orchestrator.OnTestFinished | Apps_script.py:2357-2358 | the test worker's first entry leaves its list |
| Campaign.EffectiveRate | Apps_script.py:2602-2608 | the rate is positive; count over period when both are positive, 1000 per second otherwise |
| Campaign.PoolFoldKeys | Apps_script.py:2594-2617 | the create/update loop adds exactly the named entries' nicknames to the pool |
| Campaign.ReconciledKeys | Apps_script.py:2591-2622 | after reconciling, the pool holds exactly one limiter per configured nickname |
| Campaign.PoolFoldKeepsTokens | Apps_script.py:2613-2616 | a pooled limiter keeps its tokens and refill time through the updates |
| Campaign.PoolFoldStampsNew | Apps_script.py:2610-2611 | a created limiter has the reconcile time as its refill time |
| Campaign.ReconciledTokens | Apps_script.py:2594-2622 | a surviving limiter keeps its tokens and refill time; a new one starts at the reconcile time |
| Campaign.PoolFoldOthers | Apps_script.py:2594-2617 | entries for other nicknames leave a limiter as it is |
| Campaign.PoolFoldAppend | Apps_script.py:2594-2617 | the loop over two lists of entries is the loop over the first, then the second |
| Campaign.LastEntryDecides | Apps_script.py:2594-2617 | the last entry naming a server decides its rate and burst: unclamped when it updates, clamped when it creates |
| Campaign.BucketsWithout | Apps_script.py:2619-2622 | deleting nicknames from the pool deletes the same limiters and keeps them distinct |
| Campaign.Upsert | Apps_script.py:2595-2616 | one named entry creates a limiter or reconfigures the pooled one in place; no object is shared by two nicknames |
| Campaign.UpsertAll | Apps_script.py:2594-2617 | the loop applies every entry in order and collects the configured nicknames |
| Campaign.DropStale | Apps_script.py:2619-2622 | the second loop deletes exactly the stale nicknames |
| Campaign.ReconcileLimiters | Apps_script.py:2590-2622 | the pool's limiters become the reconciled pool of their old states, each object old or new and none shared |
| Campaign.LimiterPool.constructor | Apps_script.py:1500-1516 | the pool starts empty |
| Campaign.LimiterPool.Reconcile | Apps_script.py:2590-2622 | the pool becomes the reconciled pool, keyed by exactly the configured nicknames |
| Placeholders.SpaceRun | Apps_script.py:2835 | the greedy `\s*` run: whitespace up to a non-space character or the end |
| Placeholders.MatchAt | Apps_script.py:2835 | a match of `{{\s*key\s*}}` starts with `{` and spans at least the key and four braces |
| Placeholders.NoBraceUnchanged | Apps_script.py:2835-2837 | a text without `{` is left as it is by one substitution |
| Placeholders.PlaceholderResolves | Apps_script.py:2835-2837 | a placeholder `{{`, whitespace, the key in any letter case, whitespace, `}}` becomes the value |
| Placeholders.NoBraceUnchangedAll | Apps_script.py:2831-2849 | a text without `{` goes through a whole placeholder pass unchanged |
| Placeholders.FirstEntryResolves | Apps_script.py:2831-2839 | a template that is one placeholder of the first entry resolves to that entry's value |
| Placeholders.ResolvePlaceholders | Apps_script.py:2831-2849 | the loop substitutes every entry of the dictionary in its order |
| DynamicTags.CharSet | Apps_script.py:447-460 | never empty; unknown keys give letters and digits |
| DynamicTags.RandomString | Apps_script.py:458-461 | exactly n characters, each from the named set |
| DynamicTags.TagAt | Apps_script.py:2907 | a tag match at a position ends after it and within the text |
| DynamicTags.TagAtText | Apps_script.py:2907 | the matched text is the tag's text |
| DynamicTags.ParseSized | Apps_script.py:2889 | a sized tag starts with `rnd` or `bnd` |
| DynamicTags.ParseSizedRoundTrip | Apps_script.py:2889-2892 | `rnd` or `bnd`, one or two letters of `nalus`, `_` and digits parse to that prefix's kind, those letters and the digits' value |
| DynamicTags.ParseSizedShape | Apps_script.py:2889-2892 | conversely, a key that parses is prefix, set letters, `_` and digits, and the tag holds exactly those parts |
| DynamicTags.UnrecognisedKept | Apps_script.py:2863-2903 | an unrecognised key, or a sized tag with a length outside 1..1024, keeps the tag text |
| DynamicTags.FixedNotCached | Apps_script.py:2869-2885 | no fixed word uses the boundary cache |
| DynamicTags.SizedActionCached | Apps_script.py:2889-2901 | a sized tag uses the cache iff it is a valid `bnd` tag |
| DynamicTags.ClassifyCached | Apps_script.py:2856-2901 | a tag uses the cache iff it is `#{{[token]}}` or a valid `bnd` tag, with that length and set |
| DynamicTags.ApplyFits | Apps_script.py:2856-2901 | a cached or fresh value has the tag's length and characters from its set |
| DynamicTags.ApplyCache | Apps_script.py:2856-2899 | existing cache entries are never changed |
| DynamicTags.ScanKeeps | Apps_script.py:2908 | a whole scan keeps every cache entry and its well-formedness |
| DynamicTags.ScanConsistent | Apps_script.py:2856-2908 | every replaced boundary tag of a scan has its cache entry's value |
| DynamicTags.SameBoundaryTagSameValue | Apps_script.py:2856-2899 | in one resolution, every occurrence of the same `bnd…_N` or `#{{[token]}}` text yields the same value |
| DynamicTags.ClassifySized | Apps_script.py:2856-2901 | a tag draws random text iff its text names a length and a set |
| DynamicTags.ScanFits | Apps_script.py:2856-2908 | every random value of a scan has exactly N characters from its set |
| DynamicTags.NoTagUnchanged | Apps_script.py:2907-2908 | a text without `{{[` is copied and uses neither the cache nor randomness |
| DynamicTags.BoundaryCache.constructor | Apps_script.py:2856-2859 | the cache starts empty |
| DynamicTags.BoundaryCache.ApplyAction | Apps_script.py:2856-2901 | the replacer's value, the cache after it and the draws used |
| DynamicTags.BoundaryCache.Step | Apps_script.py:2907-2908 | one position of the substitution, consistent with the whole scan |
| DynamicTags.BoundaryCache.ResolveTags | Apps_script.py:2905-2908 | the substitution's text, cache and draws are those of the scan |
| DynamicTags.BoundaryCache.ResolveAll | Apps_script.py:2822-2910 | no template gives the empty text; otherwise data placeholders, context placeholders, then tags, sharing the job's cache |
| Spintax.NextBrace | Apps_script.py:2920 | the first brace at or after a position |
| Spintax.FirstGroup | Apps_script.py:2920-2927 | a found group is `{`, no braces, `}` |
| Spintax.FirstGroupLeftmost | Apps_script.py:2927 | the search finds the leftmost group, and one whenever there is one |
| Spintax.OptionStripped | Apps_script.py:2934 | every option is free of `|` and of whitespace at both ends |
| Spintax.ReplaceFirstHitsGroup | Apps_script.py:2937 | replacing the first occurrence of the group's text replaces the group found |
| Spintax.NoBraceNoChange | Apps_script.py:2915-2916 | a text without `{` is unchanged by the loop, so the quick return is a shortcut |
| Spintax.GroupWithoutPipeIsStuck | Apps_script.py:2938-2946 | a first group without `|` is replaced by itself; the text comes back unchanged and later spintax is never reached |
| Spintax.ChoiceReplacesGroup | Apps_script.py:2933-2937 | a first group with `|` is replaced in place by the stripped option the draw picks |
| Spintax.AtMostOneDrawPerPass | Apps_script.py:2926-2937 | at most one draw per pass: at most ten rewrites |
| Spintax.ProcessSpintax | Apps_script.py:2913-2950 | the loop computes the ten-pass function; text without `{` is returned unchanged with no draw; at most ten draws |
| Recipients.Word | Apps_script.py:2807 | the longest delimiter-free prefix |
| Recipients.SplitOnRuns | Apps_script.py:2807 | the pieces between delimiter runs hold no delimiter |
| Recipients.PieceFound | Apps_script.py:2807 | a non-empty delimiter-free run with a delimiter or the text's end on each side is one of the pieces |
| Recipients.FirstSeenSound | Apps_script.py:2811-2819 | every entry is a valid candidate; no two are equal ignoring case; the order is the candidates' order |
| Recipients.FirstSeenCovers | Apps_script.py:2811-2819 | every valid candidate is represented, ignoring case |
| Recipients.FirstSeenKeepsFirstSpelling | Apps_script.py:2811-2819 | the first spelling of each address is the one kept |
| Recipients.KeepFirstSeen | Apps_script.py:2811-2819 | the loop with its seen-set builds the first-seen list |
| Recipients.ParsedSound | Apps_script.py:2790-2819 | the result holds only valid addresses, none twice ignoring case |
| Recipients.ParseRecipients | Apps_script.py:2790-2819 | empty or blank input gives no recipients; otherwise the first-seen valid candidates, none twice ignoring case |
| JobAssembly.NormalizeHeaderKey | Apps_script.py:3092 | each character of the stripped header, lower-cased, with a space turned into `_`; so no space, no upper-case letter and no edge whitespace |
| JobAssembly.NormalizeIdempotent | Apps_script.py:3092 | cleaning a cleaned key changes nothing |
| JobAssembly.NormalizedEmptyIffBlank | Apps_script.py:3092 | a header cleans to the empty key exactly when it is blank |
| JobAssembly.ColumnPlaceholderResolves | Apps_script.py:3092 | a cleaned column written as a placeholder in any letter case resolves to its value |
| JobAssembly.HeaderLineSkips | Apps_script.py:3593-3594 | exactly the lines without `:` are skipped |
| JobAssembly.HeaderLineStripped | Apps_script.py:3595-3597 | the name holds no `:`; name and value are stripped |
| JobAssembly.HeaderLineRoundTrip | Apps_script.py:3595-3597 | a line written `name:value` gives back its name and value |
| JobAssembly.ParsedLines | Apps_script.py:3592-3597 | never more header lines than text lines |
| JobAssembly.ResolvedHeadersKeys | Apps_script.py:3592-3601 | the dictionary has one key per distinct header name and no other |
| JobAssembly.EitherCase | Apps_script.py:3605 | `d.get(Name, d.get(name))`: absent iff both are absent, the capitalised one first |
| JobAssembly.OverrideSubject | Apps_script.py:3605-3607 | the subject is the `Subject`/`subject` header when there is one, else unchanged |
| JobAssembly.OverrideRecipients | Apps_script.py:3609-3613 | a `To` header naming a valid address sets the recipients to its parsed list, valid and case-distinct; without a `To` header they are unchanged |
| JobAssembly.EmptyToKeepsRecipients | Apps_script.py:3612-3616 | a `To` header with no valid address leaves the recipients |
| JobAssembly.ResolveHeaderLines | Apps_script.py:3592-3601 | each header value is resolved, then spun, and stored under its name in order |
| JobAssembly.ApplyCustomHeaders | Apps_script.py:3587-3616 | disabled or blank headers change nothing; otherwise headers stored and the overrides applied |
| JobAssembly.FindAngle | Apps_script.py:3623 | the lazy `^(.*?)<([^<>]+)>$` split point |
| JobAssembly.AngleUnique | Apps_script.py:3623 | at most one split point works |
| JobAssembly.DisplayOfNameAddress | Apps_script.py:3623-3625 | a `From` written `name <address>` gives the name |
| JobAssembly.ScriptDisplayName | Apps_script.py:3619-3631 | the non-empty `From` header's name first, then a non-empty resolved from-name, then a non-empty configured name, else the value kept |
| JobAssembly.ScriptHeaders | Apps_script.py:3633-3636 | exactly the headers whose lower-case name is not to/subject/from/cc/bcc, with their values |
| JobAssembly.FindBracketed | Apps_script.py:3676 | a `<...>` without inner angle brackets, none of which starts further left, and one whenever there is one |
| JobAssembly.SmtpEmail | Apps_script.py:3670-3687 | the configured address when it holds `@`, else `sender@mailer.app`; always holds `@` |
| JobAssembly.PlainDefaultFromUsed | Apps_script.py:3679-3680 | a plain default From with `@` is used |
| JobAssembly.BracketedDefaultFromUsed | Apps_script.py:3676-3678 | a default From `name<address>` yields the address |
| JobAssembly.UsernameUsed | Apps_script.py:3670-3673 | without a default From, a username with `@` is used |
| JobAssembly.FallbackUsed | Apps_script.py:3684-3687 | with `@` in neither field, the fallback is used |
| JobAssembly.BuildSmtpFromAddress | Apps_script.py:3659-3702 | the address part is the SMTP email; a display name formats it; else a non-empty name part of the default From formats it; the bare address exactly when neither exists |
| JobAssembly.FinalizeSender | Apps_script.py:3618-3643 | only the sender fields change: Apps Script jobs get the `ScriptDisplayName` of the `From` header and the filtered headers; SMTP jobs the non-empty `From` header bare, else the built address; other jobs nothing |
| JobAssembly.TestHeaders | Apps_script.py:3286-3291 | `To` forced to the target; no `Cc`/`cc`/`Bcc`/`bcc`; every other header kept |
| JobAssembly.TestBodies | Apps_script.py:3308-3315 | each body follows its banner |
| JobAssembly.BannersAloneGetDefault | Apps_script.py:3311-3315 | bodies that are their banners alone get the default message |
| JobAssembly.TestPayload | Apps_script.py:3282-3315 | a `TEST_` id, the target as sole recipient, `To` forced, Cc/Bcc removed, reserved names out of the Apps Script headers, the prefixed subject, both bodies after their banners |
| JobAssembly.BlankBodiesGetDefault | Apps_script.py:3311-3315 | empty bodies get the default test message after the banners |
| JobAssembly.TestSendsNotPrimary | Apps_script.py:624-635 | test sends never raise the primary-success signal |

## Left out

- Clocks, sleeps and timeouts are parameters: a clock reading is a `real`, and `acquire`'s loop is given its readings. The limiter's lock and real concurrency are out, and every operation is sequential.
- RateLimiter: the bucket arithmetic (tokens, rate, the refill `elapsed × rate` and its sum) is exact `real` arithmetic, whereas the program uses binary floating point. Rounding at the `tokens >= 1` test is not captured: with the rate at its floor 0.1, ten refills of 0.1 reach exactly 1 in the model and grant, while the program's sum is just below 1 and refuses. `Conservation` and `SpentPlusLeft` are the exact-arithmetic form of the bound.
- `ThreadPoolExecutor`, `future.cancel` and `executor.shutdown(wait=True)` are abstracted: a caller says which futures are done and which had started. The `RuntimeError` paths of a shutting-down executor are not modelled.
- Qt signals, timers, dialogs, labels, progress bars and log output are out. `QTimer.singleShot` dispatches are the returned `DispatchScheduled` and `ResumedDispatchScheduled` values. A worker's stop request is the worker identity returned by `StopAndClear`.
- Campaign.Orchestrator.OnBatchFinished: the `sender()` check and the worker's thread cleanup are not modelled; the caller names the finished worker.
- Campaign.Orchestrator.Start: the checks of which accounts or servers are selected are one boolean `sendersSelected`.
- Campaign.Orchestrator.DispatchTest: the check at 3235 that a base job exists is left to the caller, which passes the job.
- Campaign.EffectiveRate: `int()`/`float()` conversion errors on saved settings are not modelled: fields are `Option` values with the defaults.
- The batch size is a `nat`, so a negative setting is not modelled.
- JobAssembly.OverrideRecipients: the update of the job context's recipient (3614) is not modelled, because the context is not read after it in this model.
- The transport bodies (`send_email_via_apps_script`, `send_email_via_smtp`) are network I/O: only their `{success, message, elapsed}` result and the limiter check are modelled.
- `uuid`, `datetime.now` and `random` are parameters: one `uuid` text and one `now` text per resolution, and the `pick` stream of draws.
- `formataddr` is the `Address` datatype holding name and email.
- The email regex is the `valid` predicate parameter.
- Case folding is on ASCII letters only, whereas Python's `lower()` covers all of Unicode.
- DynamicTags.ParseSized: `\d` and `int()` are ASCII digits only, whereas Python's `\d` on a `str` and `int()` accept every Unicode decimal digit, so a tag such as `rndn_` followed by an Arabic-Indic digit is kept as text in the model but draws characters in the program.
- BatchWorker.AttachLimiter: the program writes the limiter into the job dictionary in place, and the batch shares those dictionaries with the campaign's queue, so the queued entries gain the limiter too; the model returns an updated copy and the campaign's queue keeps the job without it.
- `re.sub` replacement strings are used literally: backslash escapes in data values are not interpreted.
- JobAssembly.TestPayload: the subject is always present in the model's job record, so the default "Test Notification from Mailer" is never used.
- The job's `status` and `log_identifier_details` fields are not modelled; they only feed the log.
- The float rate and throughput statistics for display (661-669, 2140-2173, 2375-2384) are out.
- The bound "in flight ≤ `max_concurrent_tasks`" is not a class invariant, because the limit is an argument of `start_processing` and not a field. It follows from `StartProcessing` on an empty pool together with `GetCompletedJobs` never growing the pool.
- Persistence, the CSV/Excel/Sheet loaders, Gemini, the web engine and proxy code are outside the engine and are not modelled.
