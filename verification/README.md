# Models of the seeder, the local evaluator and the query service

This project models four parts of the repository and states, for all inputs or all runs, what
they are relied upon to do. Each Dafny module corresponds to a source file or component.

- **Seeding** (`cmd/ch-seed-long`). `SeedGenerator` is the stateful sample generator and its
  batching; `SeedPipeline` is `runStream` as a transition system in which every atomic load or
  store, channel operation and POST outcome is one step; `Regulator` holds the decisions of the
  AIMD regulator and the health probe together with the code that applies them, and
  `ConcurrencyControl` the steps in which the two threads interleave; `CasRegisters` is the pair of
  compare-and-swap loops; `RttRing` is the ring of recent outcomes.
- **Range evaluation** (`internal/promshim/local`). `RangeChunks` and `ChunkMerge` are chunked
  execution, `Subquery` is local subquery evaluation, `MemoPlan` and `MemoStorage` are the memo of
  repeated expressions as values and as storage, `DelegatedRewrite` is the rewrite of delegated
  expressions, in place on a mutable syntax tree.
- **Shared state of the service** (`internal/promshim`). `SelectorCache` is the statistics cache,
  `RuleReload` the double-checked reload of recording rules.
- **Planning and routing**. `NativePlanning` builds execution plans, `PlanShape` relates a plan to its tree, `CostRouting` is the cost
  policy, `ErrorAlgebra` the error classes and `ExecutionFallback` the one-shot local retry.

`GoBasics` (optional values, truncating division, int32 conversion), `Division`, `WeightedSums`, `Sorting` and
`KeyEncoding` are shared vocabulary.

Code that the source writes as loops or field updates is written here as methods and classes whose
contracts tie them to functions; the laws are lemmas about those functions.

## Where the code falls short of its promise

- `MaxConcurrency` is converted to int32. The start target is in range exactly under the condition
  of `SeedPipeline.InitialTargetInRange`; the runs are studied for worker counts an int32 holds.
- The regulator's documentation (`cmd/ch-seed-long/regulator.go:70-91`) describes the reaction to a
  stall as a decrease by one; the code halves the target (`cmd/ch-seed-long/regulator.go:168-207`).
  The model follows the code; `Regulator.StallIsAdditiveExactly` says when the two agree.
- The regulator can overwrite a kill-switch cut it raced with. `ConcurrencyControl.NextStoreAfterCut`
  says when its next store does, and `ConcurrencyControl.CutHoldsExactly` when a cut holds for as long
  as ramp-up is frozen; `SeedPipeline.KillSwitchCanBeOverwritten` shows that the exception is reachable.
- A step below a millisecond can give two samples of a series one timestamp; exactly the steps of at
  least a millisecond never do (`SeedGenerator.TimestampsIncreaseExactly`).
- The memo key takes the zero time for the epoch. Memoisation is faithful exactly on parameters
  that this does not confuse (`MemoPlan.FaithfulExactlyWhenSeparated`), and so for every request that
  does not reach back to the year 1 (`MemoPlan.MemoIsInvisibleAfterZeroTime`).
- A selector signature without matchers and one with a single empty matcher share a key
  (`SelectorCache.KeysCollideExactly`).
- Capacity eviction compares the entries that were there before; the newcomer itself may be older
  than what it displaces, exactly when the cache is full of entries newer than it
  (`SelectorCache.NewcomerIsNewestExactly`, with an instance in `SelectorCache.NewcomerMayBeOlder`).
- A delegated subquery is padded to include the point at the start of its window, which the local path
  excludes; the two differ exactly when that point is a multiple of the step
  (`DelegatedRewrite.SubqueryPathsAgreeExactly`).
- The `end + step` grid overshoots by one point on an unaligned end (`RangeChunks.GridsCompared`);
  on chunks it never does.

## Assumptions

- Atomics are sequentially consistent, and mutexes and channels behave as Go specifies them.
- Integers are unbounded except where int32 conversion is modelled: nanosecond and millisecond
  sums, sample counts and counters are assumed not to overflow an int64.
- The seeder's times are nanoseconds; the evaluator's times, ranges, offsets and steps are whole
  milliseconds.
- Sample values, waveforms and registries are opaque. Percentages, ratios and routing costs are
  reals instead of 64-bit floating point.
- A POST, a query to ClickHouse, a file load, a clock reading, a probe reading and the order of map
  iteration may come out in any way.
- `SeedPipeline` counts a failed POST as not acknowledged: a batch that the server stored although
  the client saw an error ends the run with an error, about which nothing is promised.
- `ChunkMerge.ChunkingIsInvisible` needs a child that is pointwise in time; `Subquery` needs a child
  that stamps its samples with the evaluation time and does not repeat a labelset.
- In `MemoStorage` an inner plan returns storage that the memo does not own, as it does because hits
  hand out clones.
- In `DelegatedRewrite` a function of a range sees the samples in its window, not the nominal length
  of the range; `NativePlanning` takes the answers of the native lowering and of the delegation
  check as arbitrary.

## Model

| member | source | states |
|---|---|---|
| `SeedPipeline.SuccessMeansDelivered` | cmd/ch-seed-long/seed.go:151-343 | If `runStream` returns success then, in every interleaving, each sample of each series in [Start, End) was acknowledged exactly as often as one walk over the window produces it and nothing else was; all workers are done, the channel is empty, no POST failed, and the emitted, acknowledged and batch counters agree with the facts. |
| `SeedPipeline.SuccessMeansOncePerTimestamp` | cmd/ch-seed-long/seed.go:151-343 | With a step of at least a millisecond, a successful run acknowledged at most one sample per series and timestamp, and that one exactly once. |
| `SeedPipeline.EveryRunKeepsTheInvariant` | cmd/ch-seed-long/seed.go:122-248 | Every state of every run, whatever the interleaving, throttling, POST outcomes and cancellations: samples are conserved (generator's side plus pool's side is the whole window), the counters lag the facts by exactly what sits between a POST and its counting, the target and every loaded copy of it lie in [1, MaxConcurrency], worker 0 never parks, and success implies an exhausted, failure-free pipeline. |
| `ConcurrencyControl.TargetSafeKept` | cmd/ch-seed-long/regulator.go:168-211 | Regulator and probe load, compute and store the target, and load and swap the freeze, without synchronisation; no step of either takes the target, or a value one of them holds, out of [1, MaxConcurrency]. |
| `ConcurrencyControl.FreezeNeverFalls` | cmd/ch-seed-long/seed.go:350-364 | No step of either thread lowers the freeze. |
| `ConcurrencyControl.FrozenNeverRamps` | cmd/ch-seed-long/regulator.go:201-203 | A tick that finds the freeze not yet passed never decides on more than the target it loaded. |
| `ConcurrencyControl.NextStoreAfterCut` | cmd/ch-seed-long/probe.go:76-84 | For every safe state in which the kill-switch cuts the target to c, and whatever the next tick sees: the regulator's next store leaves the target above c if and only if its pending value exceeds c, or its decision on a value loaded before the cut changes that to more than c (from a value of at most c, only by ramping up c itself), or it loads the cut target and ramps up; before the freeze has passed neither ramp-up happens. |
| `ConcurrencyControl.CutLeavesAFreeze` | cmd/ch-seed-long/probe.go:82-84 | From a cut on, `fire` returns only once ramp-up is frozen until its deadline at least, whatever the regulator does in between. |
| `ConcurrencyControl.CutHoldsExactly` | cmd/ch-seed-long/probe.go:76-92 | With ramp-up frozen until a deadline, some interleaving of both threads whose decisions fall before it takes the target above c if and only if the target already is, a pending store exceeds c, the regulator holds a loaded value of more than c + 1, or the probe is about to store more than c. |
| `SeedPipeline.CutHoldsWhileFrozen` | cmd/ch-seed-long/probe.go:76-92 | In every run of the whole pipeline: from any moment at which the freeze reaches the deadline and nothing under way exceeds c, no continuation whose decisions fall before the deadline takes the target above c. |
| `SeedPipeline.InitialTargetInRange` | cmd/ch-seed-long/seed.go:85-122 | For any worker count of at least 1, the first stored target is in [1, MaxConcurrency] if and only if the low 32 bits of the requested start, itself within 1 and the worker count, are a positive int32, and it is then that start; every count up to the int32 maximum is fine. |
| `SeedPipeline.HugeWorkerCountParksEveryone` | cmd/ch-seed-long/seed.go:117-122 | From one worker more than an int32 holds up to 2^32, the stored target is below 1, and in every state with that target each worker that reaches its gate, on either path, parks. |
| `SeedPipeline.GateOpensExactly` | cmd/ch-seed-long/token_bucket.go:41-61 | A worker at its gate goes on to the channel if and only if the target is above its id, and parks otherwise. |
| `SeedPipeline.NeverStuck` | cmd/ch-seed-long/seed.go:151-240 | No deadlock: in every unfinished state that satisfies the invariant some enabled step lowers the work measure, and until the channel is closed that step belongs to the generator or to worker 0, however low the target is. |
| `SeedPipeline.RankNeverRises` | cmd/ch-seed-long/seed.go:151-240 | No event of any thread, in particular no change of the target, ever adds work. |
| `SeedPipeline.WorkIsBounded` | cmd/ch-seed-long/seed.go:151-240 | No run contains more work-lowering events than the measure of its initial state. |
| `SeedPipeline.CleanRunsSucceed` | cmd/ch-seed-long/seed.go:326-343 | A run in which nobody cancels and no POST fails can finish only with success. |
| `SeedPipeline.WorkerStepDescends` | cmd/ch-seed-long/token_bucket.go:41-61 | A worker's step never adds work, and lowers it unless the worker is parked while the generator is still active; once draining is set even polling brings a parked worker closer to its exit. |
| `SeedPipeline.PoolSideKept` | cmd/ch-seed-long/seed.go:194-241 | No worker step loses or doubles a sample: queue, in-flight, acknowledged and failed batches keep their sum, for the number of samples and for each single sample. |
| `SeedPipeline.ConservedByGenerator` | cmd/ch-seed-long/seed.go:151-191 | No generator step loses or doubles a sample: what leaves the window is in the generator's hand, in the channel, or recorded as given up. |
| `SeedPipeline.PointsPerBatchExactly` | cmd/ch-seed-long/seed.go:96-99 | A batch holds the most points per series for which all series together stay within the configured number of samples, and at least one. |
| `SeedPipeline.KillSwitchCanBeOverwritten` | cmd/ch-seed-long/probe.go:76-92 | The exception is reachable: both threads load 8, the probe cuts to 2 and freezes ramp-up, and the regulator's pending store then puts 9 in its place. |
| `CasRegisters.FreezeIsAMaxRegister` | cmd/ch-seed-long/seed.go:350-364 | Under concurrent compare-and-swap loops the ramp-up freeze never decreases, is at least every completed call's deadline, is always the initial value or a requested deadline, and with no call pending is the maximum of them all. |
| `CasRegisters.BaselineIsAMinRegister` | cmd/ch-seed-long/regulator.go:52-64 | Under concurrent `observe` calls the baseline, once set, only decreases and stays positive, is at most every completed positive observation, and is always one of the observations. |
| `CasRegisters.EveryRunKeepsTheInvariant` | cmd/ch-seed-long/seed.go:350-364 | Along every interleaving of the two compare-and-swap loops every requested value is completed or still pending, no completed one beats the stored value, and a held loaded value is the stored one or worse. |
| `Regulator.DecideIsBounded` | cmd/ch-seed-long/regulator.go:168-207 | A tick keeps the target within its bounds, raises it by at most one, and raises it if and only if there is no error, no active stall above the minimum, no heavy tail, latency is near its floor, there is room, and no freeze holds. |
| `Regulator.DecideExactly` | cmd/ch-seed-long/regulator.go:168-207 | The whole table of a tick in numbers: an error or a stall halves the target, a heavy tail lowers it by one, latency near its floor with room and no freeze raises it by one, and everything else leaves it, each with its reason. |
| `Regulator.DefaultTuning` | cmd/ch-seed-long/regulator.go:30-42 | The table in the numbers of the built-in tuning: tails beyond 3 times the median, ramp-up within 1.2 times and elevated beyond 1.5 times the best median, ticks of two seconds, a stall after three. |
| `Regulator.ProbeTargetExactly` | cmd/ch-seed-long/probe.go:75-80 | The kill-switch aims at the largest whole number within a quarter of the target, or at one. |
| `Regulator.StallIsAdditiveExactly` | cmd/ch-seed-long/regulator.go:74-187 | Without errors an active stall above the minimum halves the target, down to the minimum; that is the documented decrease by one if and only if the target is one above the minimum. |
| `Regulator.StallHalvesSixteen` | cmd/ch-seed-long/regulator.go:74-187 | For instance a stall takes 16 to 8 and not to the documented 15. |
| `Regulator.RegulatorLoop.Tick` | cmd/ch-seed-long/regulator.go:139-229 | One tick without interference, over the old fields: the baseline falls to a smaller positive error-free p50, the streak counts ticks without completion and is reset by a stall, only a stall extends the freeze, by five ticks, the target and reason are those of the table, and the hold streak counts ticks that left the target. |
| `Regulator.RegulatorLoop.ObserveBaseline` | cmd/ch-seed-long/regulator.go:52-64 | Only a positive p50 that is smaller, or the first, replaces the baseline. |
| `Regulator.SuppressRampUntil` | cmd/ch-seed-long/seed.go:350-364 | Without interference the freeze becomes the later of itself and the deadline. |
| `Regulator.ProbeFire` | cmd/ch-seed-long/probe.go:76-92 | Without interference the target becomes the smaller of itself and a quarter of itself (at least 1), and ramp-up is frozen if and only if the target went down. |
| `SeedGenerator.AdvanceSeries` | cmd/ch-seed-long/main.go:343-430 | From the fields of the description alone: one call emits, in order, one sample at exactly those grid times in [start, end) that lie in [activeStart, activeEnd) and on the scrape cadence, stamped in whole milliseconds, each value the second component of the series' wave at the carried counter state; that state is stored back, and no other series' state changes. These are also the samples and the state of the walk the further laws speak of. |
| `SeedGenerator.WalkEmits` | cmd/ch-seed-long/main.go:343-430 | The walk of a description, of which the laws below speak, emits over every window exactly what its fields prescribe. |
| `SeedGenerator.WalkSplit` | cmd/ch-seed-long/main.go:343-430 | Cutting a walk at any grid time and carrying the state over gives the same samples and the same final state. |
| `SeedGenerator.TimestampsIncrease` | cmd/ch-seed-long/main.go:343-430 | With a step of at least a millisecond the timestamps of one series strictly increase. |
| `SeedGenerator.TimestampsIncreaseExactly` | cmd/ch-seed-long/main.go:343-430 | Timestamps strictly increase in every walk over every window if and only if the step is at least a millisecond. |
| `SeedGenerator.SubMillisecondStepsCollide` | cmd/ch-seed-long/main.go:424-427 | With a smaller step, a window that starts on a whole millisecond with two samples in a row gives both the same timestamp. |
| `SeedGenerator.BuildBatch` | cmd/ch-seed-long/seed.go:163-182 | One generator round: the request holds every series with a sample in the batch window, in series order, all states are advanced in place, and the sample count is the request's. |
| `SeedGenerator.GenerateWindow` | cmd/ch-seed-long/seed.go:156-191 | All rounds: the requests in sending order, and for each series, whatever the batch size, the points sent and the final state are those its description prescribes over the whole window, which are those of one walk. |
| `SeedGenerator.BatchingIsInvisible` | cmd/ch-seed-long/seed.go:156-191 | For every batch size the points sent for a series are, in order, those of one call over the whole window. |
| `SeedGenerator.RequestCarriesTheBag` | cmd/ch-seed-long/seed.go:163-180 | A request carries exactly the samples of its batch window, and is skipped if and only if there is none. |
| `SeedGenerator.BagSplit` | cmd/ch-seed-long/seed.go:156-191 | The samples of a window are those of its first part and, from the carried states, those of the rest, as multisets. |
| `SeedGenerator.RequestShape` | cmd/ch-seed-long/seed.go:163-180 | A request has one entry per series with a sample in the batch window, in series order, each with just its points. |
| `SeedGenerator.BatchesAreSmall` | cmd/ch-seed-long/seed.go:156-163 | No request carries more samples than the points per batch times the number of series. |
| `RttRing.Ring.constructor` | cmd/ch-seed-long/rtt_ring.go:21-30 | A new ring has room for at least one outcome and an empty history. |
| `RttRing.Ring.Observe` | cmd/ch-seed-long/rtt_ring.go:34-45 | Observing appends the outcome to the history; the ring still holds exactly the last min(n, capacity) outcomes, the oldest in the slot written next. |
| `RttRing.Ring.Summarize` | cmd/ch-seed-long/rtt_ring.go:48-75 | The summary is p50, p99 and error share of the last min(n, capacity) observations, whatever the storage order, and all zero without any. |
| `RttRing.RotationKeepsSummary` | cmd/ch-seed-long/rtt_ring.go:48-75 | Reading the ring in storage order instead of observation order does not change the summary. |
| `RttRing.PercentilesAreOrdered` | cmd/ch-seed-long/rtt_ring.go:66-74 | For every window p50 is at most p99 and the error share lies between 0 and 100. |
| `RttRing.PercentilesHaveRank` | cmd/ch-seed-long/rtt_ring.go:66-69 | Of n > 0 outcomes p50 is the latency with n/2, and p99 the one with 99n/100, of them before it in order, stated by counting smaller and no larger latencies. |
| `RttRing.ErrorShareIsExact` | cmd/ch-seed-long/rtt_ring.go:70-74 | The error share is a hundred times the number of failed outcomes over the number of outcomes. |
| `Sorting.SortIsCanonical` | cmd/ch-seed-long/rtt_ring.go:66-66 | For a total order, two sequences sort to the same one if and only if they hold the same elements equally often. |
| `Sorting.StringLeIsLexicographic` | internal/promshim/local/chunking.go:116-120 | Labelset keys are ordered by their first differing character, a prefix before what it is a prefix of. |
| `RangeChunks.SplitRangeIntoChunks` | internal/promshim/local/chunking.go:62-94 | The loop terminates with the chunks of `Split`; outside range mode the parameters are the one chunk; a non-positive step, then a non-positive chunk size, are bad-data errors. |
| `RangeChunks.SplitCoversTheGrid` | internal/promshim/local/chunking.go:75-94 | The chunk grids concatenate to the grid of the range, there are ceil(N/chunkPoints) of them, each is non-empty, has at most chunkPoints points, and all but the last exactly that many, lies in the range, and ends on its own grid. |
| `RangeChunks.GridIsArithmetic` | internal/promshim/local/chunking.go:77-82 | The grid start, start+step, ... has (end-start)/step + 1 points, the i-th of which is start + i*step. |
| `RangeChunks.GridsCompared` | internal/promshim/emit/emit.go:80-104 | The `end + 1` grid is the evaluation grid for every range; the `end + step` grid is too, unless the end is off the grid (and less than a whole step before the start), when it has exactly one further point. |
| `RangeChunks.ChunkGridsAgree` | internal/promshim/emit/emit.go:80-104 | On every chunk of every split the two ClickHouse grids and the evaluation grid are the same. |
| `ChunkMerge.MergeMatrixValues` | internal/promshim/local/chunking.go:96-127 | The merge loop: a copy of the right matrix when the left is empty, an error when a labelset's points do not increase, else all labelsets with their points appended, by key. |
| `ChunkMerge.ExecuteChunked` | internal/promshim/local/chunking.go:19-43 | Stated over the child and the chunks: outside range mode the child's answer; the two split errors; and in range mode a run in which each chunk so far answered a matrix and each merge was the exact one, up to the first chunk that fails, answers no matrix or cannot be merged, whose error under its context is the result, or through all chunks, when the result is what the merges left. |
| `ChunkMerge.RunChunks` | internal/promshim/local/chunking.go:24-42 | The loop over the chunks leaves the run that explains its result. |
| `ChunkMerge.ChunkFailuresSurface` | internal/promshim/local/chunking.go:28-40 | A success has seen a matrix for every chunk; the chunk at which the run stops decides the error, and no later one does. |
| `ChunkMerge.MergedExactly` | internal/promshim/local/chunking.go:96-127 | For matrices without repeated labelsets: the right one when the left is empty; an error if and only if under some shared labelset the new points do not start after the old ones; else the labelsets of both, each once, old points before new ones. |
| `ChunkMerge.ChunkingIsInvisible` | internal/promshim/local/chunking.go:19-43 | For every child that is pointwise in time with unique labelsets, every range and every chunk size: chunked execution never fails and has, under each labelset, the very points of unchunked execution. |
| `ChunkMerge.MergeRepresents` | internal/promshim/local/chunking.go:96-127 | Merging matrices that hold a denotation on two consecutive stretches of a grid never fails and holds it on both. |
| `ChunkMerge.LaterSamplesAppend` | internal/promshim/model/timealign.go:34-48 | Points of a later stretch of an increasing grid can always be appended, and the result is the points of both. |
| `ChunkMerge.MergeSortsByKey` | internal/promshim/local/chunking.go:116-126 | A merge into a non-empty matrix lists the labelsets in strictly increasing key order, so the child's order is not kept. |
| `ChunkMerge.MatrixOfTable` | internal/promshim/local/chunking.go:116-126 | Listing the merged map by sorted key loses nothing and repeats nothing. |
| `Subquery.AlignIsFirstMultiple` | internal/promshim/local/planner_labels.go:271-280 | On both sides of the epoch, truncating division and the one-step correction give the first multiple of the step strictly after the window start. |
| `Subquery.GridIsTheMultiples` | internal/promshim/local/planner_labels.go:226-287 | From the fields of the plan and the parameters, in every mode: a time is evaluated if and only if it is a multiple of the step, written, configured or one minute, in the left-open window, and the count checked against the limit is the number of evaluations. |
| `Subquery.WindowFromFields` | internal/promshim/local/planner_labels.go:226-287 | The window from the fields: the step written down, else the configured interval, else a minute; the end at the literal `@` time, else the bound its token names, else the mode's own end, less the offset; the open start one range earlier, in range mode without `@` before the first outer time. |
| `Subquery.OutcomeOf` | internal/promshim/local/planner_labels.go:182-223 | From range, limit and child: a range of zero or less and too many points are the two errors; otherwise it succeeds if and only if every time of the grid answers a vector, and the first that does not decides the error. |
| `Subquery.Execute` | internal/promshim/local/planner_labels.go:182-223 | The local path: window errors, the point limit, child errors and non-vector children in that order; otherwise all samples by labelset, listed by sorted key, each in time order. |
| `Subquery.ListingIsOrdered` | internal/promshim/local/planner_labels.go:204-222 | In a result the labelsets stand in order, each once, with exactly the points collected for it, in time order. |
| `Subquery.OnceServesEveryOuterTime` | internal/promshim/local/planner_labels.go:226-262 | Without `@`, for every outer t in [Start, End]: if the range-mode evaluation succeeds then so does the instant evaluation at t, and under each labelset it is the range-mode result cut to (t-offset-range, t-offset]. |
| `Subquery.InstantGridIsCut` | internal/promshim/local/planner_labels.go:247-262 | The instant grid at t is the range-mode grid cut to the window of t. |
| `Subquery.LiteralTimeIsFixed` | internal/promshim/local/planner_labels.go:251-254 | With a literal `@` time the result does not depend on the outer times. |
| `Subquery.TokenMeansABound` | internal/promshim/local/planner_labels.go:254-262 | `@ start()` and `@ end()` in range mode mean the instant subquery at that bound of the range. |
| `MemoPlan.KeysCollideExactly` | internal/promshim/local/planner_memo.go:80-89 | Whatever characters the expressions contain, two memo keys are equal if and only if expression, mode, step and all times are equal, the zero time counting as the epoch. |
| `MemoPlan.FaithfulExactlyWhenSeparated` | internal/promshim/local/planner_memo.go:58-72 | For any set of evaluation parameters: memoised evaluation equals plain evaluation for every plan tree whose equal texts have equal denotations and whose execution stays in the set, if and only if no two parameters of the set share a key. |
| `MemoPlan.RunIsPlain` | internal/promshim/local/planner_memo.go:58-72 | From any sound memo, a memoised execution gives the plain outcome, values and errors alike, and leaves a sound memo. |
| `MemoPlan.MemoIsInvisible` | internal/promshim/local/planner.go:136-144 | One request answers as if nothing were memoised, errors under the evaluator's context, for every plan of leaves, memo nodes, binary nodes, chunks, range steps and subqueries, provided no parameter the execution reaches uses the zero time. |
| `MemoPlan.LateRequestsAvoidZeroTime` | internal/promshim/local/planner_labels.go:182-202 | If the plan, started at its earliest time, reaches back through its nested subqueries to no time at or before the zero time, then no parameter that the execution reaches, at any depth of chunks, range steps and subqueries, uses the zero time. |
| `MemoPlan.MemoIsInvisibleAfterZeroTime` | internal/promshim/local/planner.go:136-144 | Hence the memo is invisible to every such request: a condition on the plan and the start of the request alone. |
| `MemoPlan.SweepsOverAMemo` | internal/promshim/local/planner_rangefunc.go:295-308 | For a memoised leaf below a range query the condition says that the query starts after the zero time; below a subquery without `@`, stepped over a range or not, that the first window does not start before it. |
| `MemoPlan.RangeSweeps` | internal/promshim/local/planner_rangefunc.go:295-308 | The parameters at which chunks and range steps take their child: the grid of the range once, in chunks, and the instants start, start + step, ... up to the end. |
| `MemoPlan.SubquerySweeps` | internal/promshim/local/planner_labels.go:182-202 | A subquery takes its child to the instants of its grid in order, and nowhere if there are too many. |
| `MemoPlan.ReachedAreShaped` | internal/promshim/local/planner_labels.go:182-202 | Every parameter that an execution reaches leaves at the zero time what its mode does not use, as the request does. |
| `MemoPlan.ProperParamsAreSeparated` | internal/promshim/local/planner_memo.go:80-89 | Parameters whose unused times are the zero time and whose used times are not never share a key. |
| `MemoPlan.ZeroTimeCollidesWithEpoch` | internal/promshim/local/planner_memo.go:84-89 | The collision exists: a zero evaluation time and the epoch share every key. |
| `MemoStorage.RequestMemo.ExecuteMemoized` | internal/promshim/local/planner_memo.go:58-72 | A hit returns the stored value in storage of its own, a miss returns the inner result and stores a copy, an error stores nothing; the result never shares storage with the memo, and the memo only ever gains new storage. |
| `MemoStorage.CloneRuntimeValue` | internal/promshim/local/planner_memo.go:109-120 | A clone means the same and all its storage is new. |
| `MemoStorage.HitAfterOverwrite` | internal/promshim/local/planner_memo.go:58-120 | However a caller rewrites its result in place, the next execution under the same key still means the first answer, and every older entry is untouched. |
| `DelegatedRewrite.RewriteKeepsMeaning` | internal/promshim/local/planner_modifiers.go:18-29 | For every expression, semantics and time: the rewritten tree under left-open windows, and under any bounds and any default interval of the remote evaluator, means what the original means under closed windows with this request's bounds and default interval. |
| `DelegatedRewrite.RewriteShape` | internal/promshim/local/planner_modifiers.go:18-187 | Node by node: every start/end token became that bound's literal time, every missing step the default, every range is exactly one millisecond longer, and nothing else changed; no token and no missing step is left. |
| `DelegatedRewrite.ResolveIsComplete` | internal/promshim/local/planner_modifiers.go:96-187 | After the resolve pass no token is left, and on a tree without tokens the pass changes nothing, so guarding it is harmless. |
| `DelegatedRewrite.FillIsComplete` | internal/promshim/local/planner_modifiers.go:37-66 | After the fill pass no subquery lacks a step, and no token came or went. |
| `DelegatedRewrite.PadTouchesRangesOnly` | internal/promshim/local/planner_modifiers.go:68-94 | Padding touches ranges only: padding back restores the tree. |
| `DelegatedRewrite.PadClosesWindows` | internal/promshim/local/planner_modifiers.go:13-16 | One more millisecond on every left-open window is the closed window. |
| `DelegatedRewrite.SubqueryPathsAgreeExactly` | internal/promshim/local/planner_modifiers.go:13-16 | For a subquery without `@`, the padded delegated path and the local path evaluate the child at the same times if and only if the window start is no multiple of the step; otherwise the delegated path adds that one time. |
| `DelegatedRewrite.ResolveKeepsMeaning` | internal/promshim/local/planner_modifiers.go:132-209 | Resolving the tokens to the request's bounds keeps the meaning under those bounds. |
| `DelegatedRewrite.FillKeepsMeaning` | internal/promshim/local/planner_modifiers.go:31-66 | Filling the steps keeps the meaning under the default interval filled in. |
| `DelegatedRewrite.ContainsStartEndAtModifier` | internal/promshim/local/planner_modifiers.go:96-130 | True if and only if some selector or subquery of the tree carries a token. |
| `DelegatedRewrite.ResolveStartEndAtModifierRecursive` | internal/promshim/local/planner_modifiers.go:132-187 | The in-place pass leaves the tree `Resolve` describes. |
| `DelegatedRewrite.FillNoStepSubqueryIntervals` | internal/promshim/local/planner_modifiers.go:37-66 | In place, node by node: every subquery without a positive step gets the configured interval if that is positive and one minute otherwise, and nothing else changes; this is the tree `Fill` describes. |
| `DelegatedRewrite.FillIsExact` | internal/promshim/local/planner_modifiers.go:37-66 | The filled tree differs from the given one in the missing steps only, which become the configured interval or one minute. |
| `DelegatedRewrite.PadDelegatedRanges` | internal/promshim/local/planner_modifiers.go:68-94 | The in-place pass leaves the tree `Pad` describes. |
| `DelegatedRewrite.ResolveDelegatedPromQL` | internal/promshim/local/planner_modifiers.go:18-29 | The three passes in order, in place: every token is the literal bound of the request, every missing step the configured interval or one minute, every range one millisecond longer, everything else as before, node by node. |
| `SelectorCache.KeysCollideExactly` | internal/promshim/selector_estimates.go:132-138 | For matchers without byte 0xff, two signatures share a key if and only if their numbers agree and their matchers agree up to order, or one has no matcher and the other a single empty one. |
| `SelectorCache.SelectorStatsCache.constructor` | internal/promshim/selector_estimates.go:44-52 | Non-positive arguments become five minutes and 4096 entries; the cache is empty. |
| `SelectorCache.SelectorStatsCache.GetWithState` | internal/promshim/selector_estimates.go:59-75 | A hit if and only if the key is there and no older than the time to live, and then it is the last put of that key; an expired entry is reported as stale once and dropped; nothing else changes. |
| `SelectorCache.SelectorStatsCache.Put` | internal/promshim/selector_estimates.go:77-93 | The key holds the new statistics (stamped with the clock if unstamped); every other entry kept is unchanged, stamped and within its time to live at that moment; an entry is gone only because it was unstamped or expired, or because the cache is full and everything kept is no older; none evicted is newer than the new one if and only if there was room or an entry no newer than it; and the size stays within its bound. |
| `SelectorCache.SelectorStatsCache.StoreWithRoom` | internal/promshim/selector_estimates.go:88-92 | The part of a put after pruning, with the same eviction condition. |
| `SelectorCache.NewcomerIsNewestExactly` | internal/promshim/selector_estimates.go:77-130 | For any contents up to the capacity: everything evicted for a newcomer is no newer than it if and only if there was room or some entry is no newer than it. |
| `SelectorCache.SurvivorsOfPut` | internal/promshim/selector_estimates.go:77-130 | Which entries survive a put, from their times of observation and the time to live. |
| `SelectorCache.SelectorStatsCache.Prune` | internal/promshim/selector_estimates.go:104-113 | In any iteration order exactly the unstamped entries and those older than the time to live are removed. |
| `SelectorCache.SelectorStatsCache.EvictToCapacity` | internal/promshim/selector_estimates.go:115-130 | Eviction terminates, removes no more than needed, and nothing it removes is newer than anything it keeps. |
| `SelectorCache.SelectorStatsCache.OldestKey` | internal/promshim/selector_estimates.go:117-124 | The scan finds an oldest entry whatever the iteration order. |
| `SelectorCache.NewcomerMayBeOlder` | internal/promshim/selector_estimates.go:77-93 | A concrete case in which the newcomer is older than the entry it displaces. |
| `RuleReload.ReloadsAreSpacedAndSafe` | internal/promshim/service.go:892-929 | For any number of callers and every interleaving: successive loads are at least an interval of caller time apart, counted from start-up; the visible registry is the initial one or one that loaded, and with nobody inside the lock the last one that loaded; the counters count; without a schedule nothing is loaded; at most one caller is inside the lock. |
| `RuleReload.DueCallsAreServed` | internal/promshim/service.go:910-929 | For any number of callers and every interleaving: once a call that found the deadline passed has returned, some load with a caller time at or after that deadline has happened. |
| `RuleReload.ScheduledExactly` | internal/promshim/service.go:892-897 | In every reachable state with nobody inside the lock a reload is scheduled if and only if the service is in virtual mode, has rule files and a positive interval, and then one interval after the last load. |
| `RuleReload.LoadsExactly` | internal/promshim/service.go:910-929 | In every reachable state a call that has the lock loads if and only if reloading is configured and an interval has passed since the last load. |
| `RuleReload.LoadRunsThrough` | internal/promshim/service.go:899-929 | A failed load keeps the registry and counts as an error, a good one replaces it and counts as a success, and either schedules the next one interval after its caller's time. |
| `RuleReload.StepKeepsInvariant` | internal/promshim/service.go:910-929 | Every step of every caller keeps lock ownership, the deadline one interval after the last load, and the registry and counters in step with the load outcomes. |
| `RuleReload.StepKeepsDeadline` | internal/promshim/service.go:892-897 | The deadline is one interval after the last load except while the lock holder has loaded and not yet scheduled, and a holder about to load has seen it pass. |
| `RuleReload.StepKeepsVisible` | internal/promshim/service.go:899-908 | The visible registry is that of the last successful load except for the holder's pending store; a failed load leaves it alone. |
| `NativePlanning.PlansAreWellPlaced` | internal/promshim/local/planner.go:310-730 | For every logical tree, oracle and mode string: nothing is native with mode off; a leaf is native only in force_supported; the tag hint sits exactly on native aggregations by explicit labels that are immediate children of a local histogram node in local_pushdown, with just those labels; a memo node's text is its own plan's text. |
| `PlanShape.PlansMirrorTheirTrees` | internal/promshim/local/planner.go:310-730 | For every logical tree, oracle, mode string and range strategy: a native plan holds its own node, a delegated one its text, and a local one the kind and text of its node with every operand and parameter planned in its place, below a memo wrapper exactly where one belongs; a chunk wrapper stands at the root if and only if the strategy asked for it. |
| `PlanShape.ModesByName` | internal/promshim/local/native_lowering_mode.go:19-53 | The mode of every string, by its name; any other string is the default. |
| `PlanShape.PlansExactly` | internal/promshim/local/planner.go:310-730 | A tree has a plan if and only if every node down to the first native or delegated one is lowered, or delegable as a leaf, or has a local form with all children and parameters planned, no lowering attempted on the way fails, and the range strategy does not refuse the result. |
| `PlanShape.FirstChildDecides` | internal/promshim/local/planner.go:310-730 | The first child that cannot be planned decides the error of a local node, under its context. |
| `PlanShape.RootFailures` | internal/promshim/local/planner.go:261-730 | Unsupported roots, failing lowerings, leaves that cannot be delegated and refusals of the range strategy each give their error under its context. |
| `NativePlanning.OffMeansNoNativeAnywhere` | internal/promshim/local/plan_context.go:49-55 | With mode off no plan has a native subtree anywhere, chunked or not. |
| `NativePlanning.RootIsNativeExactly` | internal/promshim/local/planner.go:261-301 | The root, under a possible chunk wrapper, is native if and only if it can be lowered and the mode is neither off nor local_pushdown, and for a leaf is force_supported. |
| `NativePlanning.ChildFits` | internal/promshim/local/planner.go:42-70 | The context a child is planned in carries the hint if and only if the child may have it. |
| `NativePlanning.BuildIsPlaced` | internal/promshim/local/planner.go:310-730 | The placement rules hold of every subtree built in a context that fits it. |
| `CostRouting.RoutingLeavesStrictExactly` | internal/promshim/routing_policy.go:62-205 | Routing serves something else than the strict strategy if and only if the mode is prefer or explain, the policy is cost_prefer, estimates are present, no cap is exceeded, the family is a candidate, enabled and servable, strict is neither local nor delegated, and both win margins are met; a subquery is never overridden. |
| `CostRouting.LeavesStrictByFamily` | internal/promshim/routing_policy.go:207-466 | In the numbers of the built-in cost model: routing serves local if and only if mode, policy and strict strategy allow it, estimates are present, there is no subquery or vector join, and the query is a rate or increase, a binary operation on a repeated range function, a histogram quantile, an instant aggregation or a plain range aggregation, with its gate enabled, within the limits of its kind and with both margins won. |
| `CostRouting.ShadowReportsByFamily` | internal/promshim/routing_policy.go:307-466 | Likewise for what cost_shadow reports, which also admits instant selectors, short range selectors and a light subquery with fresh estimates. |
| `CostRouting.CapsHitByName` | internal/promshim/routing_policy.go:264-305 | The caps that are hit, by name and in order, in the numbers of the built-in cost model. |
| `CostRouting.UnroutedReasons` | internal/promshim/routing_policy.go:62-85 | In a mode with execution semantics of its own, or under the strict policy, nothing is routed and the record says which of the two it was. |
| `CostRouting.OverridesExactly` | internal/promshim/routing_policy.go:87-205 | For any cost model: the decision is an override if and only if all gates, caps and margins hold at once; the selected strategy is then local, and otherwise strict. |
| `CostRouting.OverrideIsUpwardClosedToTheCap` | internal/promshim/routing_policy.go:264-334 | With the rest fixed, an override at some number of input samples is one at every larger number up to the cap and at none above. |
| `CostRouting.ShadowOnlyReports` | internal/promshim/routing_policy.go:87-158 | Under cost_shadow strict is always served, and local is reported as the one to select if and only if estimates are present, the family is a candidate, the costs win, and no cap is exceeded or only the subquery cap with leave to pass it. |
| `CostRouting.StrictReasonsExactly` | internal/promshim/routing_policy.go:87-141 | A query stays strict for a missing estimate if and only if one is missing and it is not delegated; it stays strict for a cap if and only if, with estimates, some cap is exceeded and may not be passed, and then the hits are reported. |
| `CostRouting.Decide` | internal/promshim/routing_policy.go:87-205 | The record filled gate by gate, with decision, reason, cap hits and would-select, is the one `Decision` gives. |
| `CostRouting.CapHits` | internal/promshim/routing_policy.go:115-121 | The cap hits are the names of the exceeded caps in order. |
| `CostRouting.NoCapExceeded` | internal/promshim/routing_policy.go:264-305 | There is no cap hit if and only if every estimate is within its limit, the query is no subquery, a vector join has at most 1000 series, and at most 240 range points apply. |
| `ErrorAlgebra.ContextsKeepTheClass` | internal/promshim/local/errors.go:87-134 | At any depth of context wrapping an error keeps its kind, HTTP status, error type, cancellation identity and eligibility, its first build failure and its root; its text gains exactly the contexts. |
| `ErrorAlgebra.ContextsKeepTheMessage` | internal/promshim/local/errors.go:236-254 | A client error keeps its user-facing message at any depth; an execution error's message gains the contexts, outermost first. |
| `ErrorAlgebra.NormalizeLaws` | internal/promshim/local/errors.go:108-147 | Normalising always yields a classified error, is idempotent, keeps cancellation identity, and says bad data or unsupported exactly when the chain or ClickHouse says so. |
| `ErrorAlgebra.EligibleAnswers502` | internal/promshim/local/errors.go:188-234 | An eligible error answers 502, and a 502 that is no cancellation is eligible. |
| `ErrorAlgebra.StatusTable` | internal/promshim/local/errors.go:188-234 | At any depth of contexts: 400 bad_data if and only if the chain or ClickHouse says bad data, 422 unsupported if and only if it says unsupported, 502 execution otherwise; eligible exactly for the last unless cancelled. |
| `ErrorAlgebra.ClientMessages` | internal/promshim/local/errors.go:236-254 | At any depth of contexts a client reads the message of a bad-data or unsupported error, the user message of a build failure, and an execution error behind its contexts. |
| `ErrorAlgebra.ForeignMessages` | internal/promshim/local/errors.go:108-147 | Errors that are not the service's own are read in their own words behind the contexts; a duplicate series is reported as a many-to-one match. |
| `ErrorAlgebra.ContainsExactly` | internal/promshim/local/errors.go:140-143 | A part is found in a message if and only if it stands somewhere in it. |
| `ErrorAlgebra.CancellationsAreNeverRetried` | internal/promshim/local/errors.go:188-196 | A cancellation or an expired deadline, however wrapped, is never eligible for a retry. |
| `ErrorAlgebra.FindRoot` | internal/promshim/local/errors.go:245-252 | The unwrapping loop ends at the innermost error. |
| `ExecutionFallback.Query` | internal/promshim/service.go:221-233 | At most one retry; one if and only if the failure is eligible, the tree has a ClickHouse-side node, the mode is adaptive, the request is alive and the local plan builds; its value is served if it has one; where a retry applies every failure answers 502, otherwise the first failure answers by its own class. |
| `ExecutionFallback.ExecutionFallback` | internal/promshim/service_native_fallback.go:183-210 | Nothing applies and nothing is evaluated unless the four conditions hold and the local plan builds; otherwise one evaluation, whose value or error is passed on. |
| `ExecutionFallback.ExplainHasClickHouseSideNode` | internal/promshim/service_native_fallback.go:81-106 | True if and only if some node of the tree has a ClickHouse-side strategy. |
| `ExecutionFallback.StrategiesAndModesByName` | internal/promshim/service_native_fallback.go:51-91 | The strategies on the ClickHouse side and the adaptive modes, by name. |
| `ExecutionFallback.ClickHouseSideByName` | internal/promshim/service_native_fallback.go:81-106 | A tree has a ClickHouse-side node if and only if its root has one of those four strategies or one of its subtrees does. |
| `ExecutionFallback.MarkRoutingServedLocal` | internal/promshim/service_native_fallback.go:123-137 | Exactly the full-local candidates are marked served and the decision names it as served; everything decided before is unchanged, and without a decision nothing changes. |

## Left out

- `rate`, `increase` and `delta` extrapolate with the nominal range, which the delegated rewrite makes one millisecond longer; that effect on values is outside `DelegatedRewrite`.
- NaN filtering, label functions, aggregation and every other per-sample computation: values are opaque here.
- The parsing and printing around the delegated rewrite is taken as the identity on the modelled syntax; names, functions and operators are numbers, and a matrix selector carries its vector selector's `@` and offset itself.
- The delegated path of a subquery and the cancellation check inside its loop: the former hands the expression to ClickHouse, the latter only ends a request early.
- Series are identified by the key of their labelset; building that key from the labels is not part of this model.
- Which chunk size, or none, the range strategy picks: `NativePlanning` lets it choose anything.
- The logical optimizer, native lowering, SQL text, ClickHouse and Prometheus clients, remote-write encoding and HTTP handlers.
- Attaching the logical root to a native root plan, which only adds data for rendering.
- Progress logging, the minimum and maximum target statistics, expected-sample estimates, and the parsing of probe readings.
- That at most `target` workers POST at once: the target can drop after a worker has passed its gate, so only the value at the gate's load is known.
- Fairness of the Go scheduler: `NeverStuck` and `WorkIsBounded` say that a useful step is always available and that there are finitely many, not that a scheduler takes it.
- Trimming and case folding of mode, policy and family strings: the model starts from trimmed, lower-case text.
- Advisory strings, usage ratios and metrics of cost routing, and the candidate table built from its decision.
- Response limits and the shadow modes, which come after or instead of the evaluation modelled in `ExecutionFallback`; its log lines and metrics.
- The statistics probes that fill the selector cache, and estimating samples from cached statistics.
- Stability of sorting: Go's sort may reorder points with equal timestamps where the model's does not; under one sample per evaluation time there are none.
