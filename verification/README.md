# Verified model of the K-ARC benchmark code

K-ARC manages which documents an assistant keeps in its context. This project models the parts of its benchmark code on
which the published numbers rest, and proves what each of them is for.

- **Ghost-hit replay** (`Arc`, `ArcRecency`, `ArcReplay`, `ArcBreakdown`). The unit-size ARC cache: four ordered lists, an
  adaptive target, five branches. No `popitem` ever meets an empty dictionary, the lists stay in recency order, and
  whatever a plain LRU of the same capacity would hit is a hit or a ghost hit here, so the replay never under-reports
  reuse. Which page a reference evicts is stated through the lists and the adapted target. `PlainARC` is the object with
  its fields; the functions of `Arc` specify it.
- **Clairvoyant cache and reuse schedule** (`Belady`, `BeladyRules`, `BeladyLimits`, `ReuseSchedule`, `ReuseLaws`,
  `ReuseScheduleBuild`). Eviction by farthest next use is optimal among all demand policies (with bypass) when sizes are
  equal and nothing required is invalidated and required again. Equal sizes are also necessary, and for task lists with
  returning versions the exact condition is that no two versions compete for room. The schedule builder meets the
  requested reuse factor exactly, supersedes one anchor in every session that reuses anything and no other, raises an
  `AssertionError` only for sessions without tasks, and never lets an invalidated version return.
- **Resumable run loop** (`RunLoop`, `RunLoopExecutor`, `Checkpoint`, `CrashResume`, `LoggedRun`). The rules of the loop
  are a state machine over submissions, outcomes and window transitions; `Executor` is the loop itself, with outcomes,
  completion order, caller decisions and probe results left arbitrary; every run of it is a run of the state machine, and
  another window opens exactly if one of three probes sees the limit lifted. A second state machine adds crashes that cut
  the log anywhere; every run of the loop on a log is one of its runs, and neither executes what the log shows complete,
  exactly for the units that the schedule lists once.
- **Attempt budgets** (`AttemptLedger`, `AttemptBudget`, `SpendBudget`). Reserve and settle under any interleaving, with
  the condition-variable wait of the second budget modelled step by step, and the exact condition under which a blocked
  thread can still be woken. `HardAttemptBudget` takes the three caps as parameters, so it also stands for the class of
  the same name in `src/karc/bench/e11_baseline3_execution.py:34-93`.
- **Least squares** (`LeastSquares`, `GaussJordan`, `PolynomialFit`). The closed form of a line and the in-place
  elimination for a parabola return the unique polynomial of least squared residual, and fail exactly on degenerate data.
- **Chunking** (`Text`, `Fences`, `Packing`, `Sections`, `HeadingCuts`, `Splitter`, `Allocation`). The splitter loses no
  token and cuts no fenced block, starts a unit at every heading of a Markdown text, and exceeds its soft maximum only for
  a single heading, paragraph or block; the apportionment of a document's tokens to its chunks follows the largest
  remainders.
- **Retrieval plans** (`Retrieval`, `BudgetSelection`). The version filter and the greedy selection within a budget.
- **Accounting** (`DocumentAccounting`, `AccountingRules`, `TokenComponents`, `PairedBootstrap`, `SessionAttempts`). Tokens
  charged once per document and session, the exact condition for the gold-only figure to be a bracket, components of a
  turn from cumulative counters, the write-price threshold, bootstrap bounds, and the latest complete attempt of a
  session.
- **Identifiers** (`Ulid`). The encoding round trip and the sort order that the ULID specification requires.

`Collections`, `StringOrder` and `Sorting` hold what several modules share. `dafny verify dfyconfig.toml` checks everything.

## Reading the model

- Python floats are `real`, so equations that hold up to rounding in the original hold exactly here. Token counts and
  sizes are `nat`; other integers are unbounded, as in Python.
- Random draws, shuffles, provider outcomes, completion order, clocks and probes are arbitrary choices or parameters, so
  every theorem holds for all of them. Rankings and resample indices are arbitrary inputs.
- Exceptions are values: `None` or a named constructor stands for the `KeyError`, `ValueError`, `ZeroDivisionError` or
  `AssertionError` of the original, and the contracts say exactly when each occurs.
- Strings are sequences of Unicode code points; whitespace, line breaks and UTF-8 length follow Python's rules.

Where the code and its comments disagree the model follows the code:

- `load_rows` explains its `except` branch by a torn tail line (`src/karc/bench/checkpoint.py:58`); the code skips an
  unreadable line anywhere in the file, and so does `Checkpoint.Rows`.
- `belady_containment` calls its algorithm size-aware (`src/karc/bench/e5_killgate.py:605`); on task lists without
  returning versions it is always optimal exactly when all sizes are equal (`BeladyLimits.OptimalIffEven`).
- `build_reuse_schedule` accepts any session length under its allow flag (`src/karc/bench/e5_killgate.py:165`); below one
  it raises an `AssertionError` or divides by zero (`ReuseScheduleBuild.Build`).
- `reserve_when_available` promises to wait for a slot to settle (`src/karc/bench/e5_runtime_accounting.py:123`); a thread
  that waits without a timeout for a slot that only it holds waits for ever (`SpendBudget.WaitingOnOneself`).
- The report calls the gold-only figures idealized brackets (`src/karc/bench/e5_killgate.py:1014`,
  `src/karc/bench/e5_killgate.py:1077`); they stay within the primary total on every account exactly when no plan charges
  less than the gold of its task (`DocumentAccounting.BracketedIffCharged`).
- `pending_units` filters the schedule entry by entry (`src/karc/bench/checkpoint.py:85-86`); a unit that it lists twice is
  executed twice (`LoggedRun.InVainIffRepeated`).
- `_allocate_tokens` guards against allocation drift; the guard fires for documents whose chunks are all empty and that
  have more than two tokens per chunk (`Allocation.AllocateTokens`).
- `semantic_split` reports lost content for a text without any visible character (`Splitter.SemanticSplit`).

## Model

| member | source | states |
|---|---|---|
| Arc.ReplaceMoves | src/karc/analysis/locality.py:76-82 | the victim exists whenever a page is resident (and T1 meets the size rule if T2 is empty); it moves to the MRU end of the ghost list of its own side, and the directory keeps its keys; which page it is, is stated by Arc.VictimByTarget |
| Arc.TouchKeepsInv | src/karc/analysis/locality.py:88-93 | a hit keeps the four lists disjoint and within their size bounds, and moves the key to the MRU end of T2 |
| Arc.GhostB1KeepsInv | src/karc/analysis/locality.py:94-100 | a B1 ghost hit finds a victim, keeps the joint invariant of the four lists and the target bounds, and promotes the key |
| Arc.GhostB2KeepsInv | src/karc/analysis/locality.py:101-107 | the same for a B2 ghost hit, where a T1 exactly as large as the target also gives the victim |
| Arc.MakeRoomDrops | src/karc/analysis/locality.py:110-122 | a miss evicts without ever meeting an empty list; the key it forgets is the oldest one of its side, and only when that side (or the whole directory) is full |
| Arc.MissKeepsInv | src/karc/analysis/locality.py:108-124 | a miss keeps the joint invariant and enters the key at the MRU end of T1 |
| Arc.TargetBounds | src/karc/analysis/locality.py:95-102 | the adapted target stays between 0 and the capacity |
| Arc.GhostHitsAdapt | src/karc/analysis/locality.py:84-124 | a ghost hit moves the target by at least one unit towards its side unless it meets the bound; other outcomes leave it alone |
| Arc.HitMoves | src/karc/analysis/locality.py:88-93 | a hit moves the key to the MRU end of T2 and changes nothing else |
| Arc.GhostB1Moves | src/karc/analysis/locality.py:94-100 | a B1 ghost hit raises the target by the ratio of the ghost lists, at least by 1 and at most to the capacity; the victim is the front of T1 if T1 exceeds the new target and the front of T2 otherwise; all four lists afterwards |
| Arc.GhostB2Moves | src/karc/analysis/locality.py:101-107 | a B2 ghost hit lowers the target by the inverse ratio, at least by 1 and at most to 0; the victim is the front of T1 if T1 exceeds or meets the new target and the front of T2 otherwise; all four lists afterwards |
| Arc.MissWithoutVictim | src/karc/analysis/locality.py:108-124 | a miss evicts nothing while there is room, and a T1 that fills the cache drops its own front without a ghost |
| Arc.MissMoves | src/karc/analysis/locality.py:108-124 | any other miss forgets the front of a full ghost side, and its victim is the front of T1 if T1 exceeds the target and the front of T2 otherwise; all four lists afterwards |
| Arc.VictimByTarget | src/karc/analysis/locality.py:76-124 | a page leaves the cache exactly if the cache is full, the reference is no hit, and it is the front of T1 (where T1 exceeds the adapted target, or meets it on a B2 ghost hit, or fills the cache on a miss) or else the front of T2 |
| ArcRecency.PromotionTracks | src/karc/analysis/locality.py:84-107 | promotion keeps both sides in recency order and keeps at least capacity distinct keys more recent than any forgotten key |
| ArcRecency.MissTracks | src/karc/analysis/locality.py:108-124 | so does a miss, whatever it evicts |
| ArcRecency.AccessTracks | src/karc/analysis/locality.py:84-124 | one reference never fails, keeps both invariants, and returns miss exactly for a key outside the directory |
| ArcReplay.RunSucceeds | src/karc/analysis/locality.py:76-124 | on every stream and every capacity of at least 1 no popitem meets an empty dictionary, and the joint invariant holds at the end |
| ArcReplay.ListsInRecencyOrder | src/karc/analysis/locality.py:76-124 | in every reachable state each list is in recency order, T1 was used after B1 and T2 after B2 |
| ArcReplay.TargetUntilGhost | src/karc/analysis/locality.py:65-107 | over any stream the target stays 0 until the first ghost hit |
| ArcReplay.FrequentStays | src/karc/analysis/locality.py:76-124 | until the first ghost hit no page of T2 is evicted while T1 holds a page |
| ArcReplay.MissMeansForgotten | src/karc/analysis/locality.py:84-124 | a first reference misses; a later one misses only if at least capacity distinct other keys were referenced since its last use |
| ArcReplay.LruHitIsNoMiss | src/karc/analysis/locality.py:84-124 | every reference that a plain LRU of the same capacity hits is a hit or a ghost hit here |
| ArcReplay.AtLeastLru | src/karc/analysis/locality.py:57-124 | over any stream hits plus ghost hits are at least the LRU hits |
| ArcReplay.CountsPartition | src/karc/analysis/locality.py:48-59 | hits, misses and the two kinds of ghost hits partition the references |
| ArcReplay.TallyCounts | src/karc/analysis/locality.py:40-59 | every counter is the number of references with its own outcome, and ghost hits are the sum of the two kinds |
| ArcReplay.MissesCoverKeys | src/karc/analysis/locality.py:84-124 | every distinct key misses at least once, so hits and ghost hits never exceed the number of re-references |
| ArcReplay.PlainARC.constructor | src/karc/analysis/locality.py:65-74 | an empty cache with zero counters satisfies the invariant |
| ArcReplay.PlainARC.ReplaceVictim | src/karc/analysis/locality.py:76-82 | the in-place _replace computes the state whose victim Arc.VictimByTarget fixes |
| ArcReplay.PlainARC.EvictForMiss | src/karc/analysis/locality.py:110-122 | the in-place evictions of the miss branch compute the specified state |
| ArcReplay.PlainARC.Dispatch | src/karc/analysis/locality.py:84-124 | the five branches on the fields compute the specified state, outcome and counters |
| ArcReplay.PlainARC.Reference | src/karc/analysis/locality.py:84-124 | access on any valid object keeps it valid and performs exactly one specified reference |
| ArcBreakdown.CoalesceExact | src/karc/analysis/locality.py:190-205 | the coalesced stream holds each (task, artifact) pair of a ranked task exactly once |
| ArcBreakdown.CoalesceInOrder | src/karc/analysis/locality.py:190-205 | the pairs stand in the order of their first events |
| ArcBreakdown.TwoRanks | src/karc/analysis/locality.py:214-217 | two distinct recorded ranks mean exactly that two tasks of different rank referenced the artifact |
| ArcBreakdown.RereferencedIsRepeated | src/karc/analysis/locality.py:190-217 | with distinct ranks, an artifact is re-referenced exactly if it occurs twice in the stream |
| ArcBreakdown.NoReuseNoGhosts | src/karc/analysis/locality.py:190-253 | without a re-referenced artifact a replay has no hits and no ghost hits; in general they are bounded by the repeated references |
| ArcBreakdown.CapacityIsNearest | src/karc/analysis/locality.py:234-235 | the capacity lies within half a page of the fraction, an exact half goes to the even side, and 0 becomes 1 |
| ArcBreakdown.ReplayAt | src/karc/analysis/locality.py:234-239 | one replay: capacity at least 1, and the counters of the whole stream |
| ArcBreakdown.CoalesceEvents | src/karc/analysis/locality.py:188-205 | the event loop builds the coalesced stream, its pairs and the ranks per artifact, and counts the events that name a ranked task |
| ArcBreakdown.ComputeBreakdown | src/karc/analysis/locality.py:181-253 | the counts, the re-reference rate and both replays; without artifacts neither rate nor replay |
| Belady.VictimExists | src/karc/bench/e5_killgate.py:592-598 | the maximum over (next use, version) exists on a nonempty cache |
| Belady.VictimUnique | src/karc/bench/e5_killgate.py:592-598 | and it is unique, so the eviction loop is deterministic |
| Belady.BeladyIsDemandPolicy | src/karc/bench/e5_killgate.py:576-608 | the cache itself is a demand policy: within budget, and only ever storing the version just requested |
| Belady.EvictKeepsAhead | src/karc/bench/e5_killgate.py:590-599 | evicting the farthest next use keeps the lead over every other cache at every horizon |
| Belady.ServeKeepsAhead | src/karc/bench/e5_killgate.py:582-590 | invalidation, lookup and storing keep the lead at every horizon |
| Belady.BeladyIsOptimal | src/karc/bench/e5_killgate.py:576-608 | when the required versions have one size and none is invalidated and then required again, no demand policy within the budget (bypass allowed) contains more tasks, whatever else the manifest lists |
| Belady.EvictToBudget | src/karc/bench/e5_killgate.py:590-599 | for any positive or zero sizes the eviction loop ends within a budget that is not negative, and fails exactly on a negative one |
| Belady.ServeTask | src/karc/bench/e5_killgate.py:582-605 | one pass of the task loop: what is found, stored and kept; a version missing from the manifest raises KeyError before a negative budget can empty the cache |
| Belady.BeladyContainment | src/karc/bench/e5_killgate.py:576-608 | the loop counts exactly the hits of the specified cache and records every step; it raises exactly for no tasks, a negative budget or a required version missing from the manifest, and which error comes first |
| BeladyRules.EvictIsLatest | src/karc/bench/e5_killgate.py:590-599 | whatever the eviction loop takes is required later than whatever it leaves, the larger id first among versions never required again, and it stops as soon as the budget holds |
| BeladyRules.RowsFollowRules | src/karc/bench/e5_killgate.py:580-605 | every row of a completed run, from the row before and the task list: what it finds is what was left without what its events invalidate, and what is left obeys the eviction rule counted from the next task on |
| BeladyRules.HitsAreContained | src/karc/bench/e5_killgate.py:586-608 | the contained tasks are as many as the rows that say so |
| BeladyLimits.UnevenCanLose | src/karc/bench/e5_killgate.py:590-599 | any two different sizes in a manifest give a run in which another policy contains more tasks |
| BeladyLimits.OptimalIffEven | src/karc/bench/e5_killgate.py:576-608 | on all task lists without returning versions and all budgets the cache is optimal if and only if all versions of the manifest have the same size |
| BeladyLimits.ReturnCanLose | src/karc/bench/e5_killgate.py:582-599 | any two versions of one positive size give a run in which an invalidated version returns and another policy contains more tasks |
| BeladyLimits.OptimalIffUncontended | src/karc/bench/e5_killgate.py:576-608 | on all task lists and budgets, returning versions included, the cache is optimal if and only if the manifest has no two versions of which one takes room |
| ReuseSchedule.AllocationExact | src/karc/bench/e5_killgate.py:139-147 | for a factor in quarters and a session count that is a multiple of four the allocation exists, sums to exactly that factor, and fits every session |
| ReuseSchedule.LiveIsActive | src/karc/bench/e5_killgate.py:56-63 | a version that a session may use as gold is active in the final manifest at its task |
| ReuseSchedule.NextStableIsNew | src/karc/bench/e5_killgate.py:243-245 | the next stable version belongs to an artifact that the session has not used |
| ReuseSchedule.ChooseGold | src/karc/bench/e5_killgate.py:209-245 | the branch on position and reuse flag: the anchor opens the session, the first reuse task supersedes it, later ones take a current version, new tasks take the next stable version; the gold is live and new to the session exactly if the task is not a reuse task; it fails exactly when the stable pool is empty |
| ReuseSchedule.BuildTask | src/karc/bench/e5_killgate.py:205-279 | one pass of the task loop keeps the builder invariant and appends the row of its branch; neither AssertionError is raised |
| ReuseLaws.GoldIsLawful | src/karc/bench/e5_killgate.py:209-245 | the first row of a session requires its anchor; the first reuse row requires the superseding version and forbids the anchor, and no other row forbids anything; rows for new documents take the stable versions one after the other |
| ReuseLaws.EventsAreLawful | src/karc/bench/e5_killgate.py:218-262 | the first reuse row of a session announces that the anchor is invalid and no other row does; the fourth row of a session corrects exactly what its second row required; the second row is the validated one |
| ReuseLaws.StepKeepsLaw | src/karc/bench/e5_killgate.py:205-279 | one pass of the task loop keeps these laws on all rows |
| ReuseLaws.OneSupersessionEach | src/karc/bench/e5_killgate.py:213-237 | as many rows forbid a version as there are sessions with a reuse row |
| ReuseScheduleBuild.BuildSession | src/karc/bench/e5_killgate.py:191-279 | one session with any arrangement of its flags: exact reuse count, exact use of the stable pool |
| ReuseScheduleBuild.BuiltGoldActive | src/karc/bench/e5_killgate.py:205-279 | required and corrected versions are active at their task in the final manifest, forbidden ones are not |
| ReuseScheduleBuild.BuiltSupersedesOnce | src/karc/bench/e5_killgate.py:214-237 | no version is invalidated by two tasks, and a task forbids exactly what it invalidates |
| ReuseScheduleBuild.BuiltNoReturn | src/karc/bench/e5_killgate.py:205-279 | no version is required by or after a task that invalidates it, so the hypothesis of Belady.BeladyIsOptimal about returning versions holds for every built schedule |
| ReuseScheduleBuild.BuildSessions | src/karc/bench/e5_killgate.py:191-279 | all sessions: it fails exactly when the new tasks outnumber the stable pool |
| ReuseScheduleBuild.SessionsThatReuse | src/karc/bench/e5_killgate.py:139-147 | the repeats are spread evenly with the remainder on the first sessions, so as many sessions reuse anything as there are repeats, or all of them |
| ReuseScheduleBuild.Build | src/karc/bench/e5_killgate.py:150-285 | the exact condition of every error: an AssertionError exactly for sessions of length below one with a positive factor; otherwise the measured factor equals the requested one, flags are exact, gold is active, repeats are spread evenly, every row obeys the laws of ReuseLaws, and exactly one row supersedes in every session that reuses |
| LeastSquares.ResidualExpands | src/karc/bench/e10_horizon_execution.py:177-182 | the residual of any polynomial splits into that of another plus a cross term and a squared distance |
| LeastSquares.SolutionGap | src/karc/bench/e10_horizon_execution.py:158-182 | a solution of the normal equations beats every parabola by the squared distance between them on the data |
| LeastSquares.NullIsVanishing | src/karc/bench/e10_horizon_execution.py:158 | a null vector of the matrix of moments is exactly a polynomial that vanishes on the data |
| LeastSquares.ThreeRoots | src/karc/bench/e10_horizon_execution.py:158 | a quadratic with three distinct roots is zero |
| LeastSquares.GramSingular | src/karc/bench/e10_horizon_execution.py:158 | the matrix of moments is singular exactly when there are fewer than three distinct abscissae |
| GaussJordan.PivotRow | src/karc/bench/e10_horizon_execution.py:161 | the first row with the largest entry of its column |
| GaussJordan.NoPivotIsNull | src/karc/bench/e10_horizon_execution.py:161-165 | a column without a pivot gives a null vector |
| GaussJordan.SwapEquivalent | src/karc/bench/e10_horizon_execution.py:162-163 | exchanging two rows keeps the solutions, also of the homogeneous system |
| GaussJordan.ScaleEquivalent | src/karc/bench/e10_horizon_execution.py:164-166 | so does dividing a row by its pivot |
| GaussJordan.ReduceEquivalent | src/karc/bench/e10_horizon_execution.py:167-175 | so does subtracting a multiple of another row |
| GaussJordan.ClearColumn | src/karc/bench/e10_horizon_execution.py:167-175 | clearing a column in place |
| GaussJordan.Eliminate | src/karc/bench/e10_horizon_execution.py:160-175 | the in-place elimination ends with the unique solution, or divides by zero exactly when the system is singular |
| PolynomialFit.DenominatorZero | src/karc/bench/e10_horizon_execution.py:151-155 | the closed form of a line divides by zero exactly with fewer than two distinct abscissae |
| PolynomialFit.ClosedForm | src/karc/bench/e10_horizon_execution.py:152-156 | slope and intercept satisfy both normal equations |
| PolynomialFit.DeterminationBounds | src/karc/bench/e10_horizon_execution.py:177-187 | the residual of a best fit lies between 0 and the spread about the mean, so the coefficient of determination lies between 0 and 1 |
| PolynomialFit.FitLine | src/karc/bench/e10_horizon_execution.py:151-156 | no line has a residual as small as the returned one |
| PolynomialFit.FitParabola | src/karc/bench/e10_horizon_execution.py:158-176 | no other parabola has a residual as small as the returned one |
| PolynomialFit.FitPolynomial | src/karc/bench/e10_horizon_execution.py:150-187 | the fit fails exactly on degenerate data; otherwise it is the unique minimiser and 0 <= r2 <= 1 |
| PolynomialFit.ParabolaExplainsMore | src/karc/bench/e10_horizon_execution.py:150-187 | on the same data a parabola never leaves more residual than a line |
| RunLoop.StepConserves | src/karc/bench/checkpoint.py:185-263 | every step keeps queue, in flight, limit-hit and settled units a partition of the schedule |
| RunLoop.RunSafe | src/karc/bench/checkpoint.py:174-263 | in every reachable state: conservation, at most concurrency units in flight, submission stopped after a limit hit, the window bound, and a queue that is requeued units followed by an untouched rest of the schedule |
| RunLoop.FirstRunsInScheduleOrder | src/karc/bench/checkpoint.py:188-217 | a unit submitted for the first time is the earliest one never submitted |
| RunLoop.DoneStays | src/karc/bench/checkpoint.py:199-217 | a settled unit stays settled |
| RunLoop.SettledIsFinal | src/karc/bench/checkpoint.py:199-217 | a unit whose outcome was no usage limit is never executed again in the run |
| RunLoop.SubmitsStop | src/karc/bench/checkpoint.py:188-217 | nothing is submitted between a limit hit (or a caller stop) and the next window |
| RunLoop.CallerStopIsFinal | src/karc/bench/checkpoint.py:209-221 | after a caller stop only the units in flight still report |
| RunLoop.UnabortedSettlesAll | src/karc/bench/checkpoint.py:174-270 | a run that ends unaborted has settled every unit: its last outcome is no usage limit |
| RunLoop.WindowRunsHitsFirst | src/karc/bench/checkpoint.py:188-217 | the first window submits the schedule in order, and each later one the units that met the limit, in the order of their outcomes, before the units left over |
| RunLoopExecutor.Executor.Fill | src/karc/bench/checkpoint.py:195-196 | rolling submission up to the limit, in queue order |
| RunLoopExecutor.Executor.ReportOne | src/karc/bench/checkpoint.py:201-213 | one outcome: a usage limit is remembered for requeueing, and it or the caller stops submission |
| RunLoopExecutor.Executor.Report | src/karc/bench/checkpoint.py:198-217 | the completed futures of one wait, in any order |
| RunLoopExecutor.Executor.ExecuteWindow | src/karc/bench/checkpoint.py:185-217 | a window ends with nothing in flight, every unit queued, limit-hit or settled; whenever it waits, the pool is full or nothing may or can be submitted |
| RunLoopExecutor.Executor.Probe | src/karc/bench/checkpoint.py:243-254 | probing stops at the first success and after at most three probes; it recovers exactly if one of the three would succeed |
| RunLoopExecutor.Executor.Transition | src/karc/bench/checkpoint.py:221-263 | below the window bound it reopens with the hit units in front exactly if one of three probes sees the limit lifted and otherwise aborts as never recovered; at the bound it aborts as max_windows without a probe |
| RunLoopExecutor.Executor.Turn | src/karc/bench/checkpoint.py:184-263 | one pass of the loop: it goes on exactly with a reopened window and a queue, and else every window is closed |
| RunLoopExecutor.Executor.Run | src/karc/bench/checkpoint.py:174-270 | for any outcomes, completion order, caller decisions and probe results the loop ends, follows the rules, waits only on a saturated pool, closes every window and leaves nothing behind unless aborted; every reopened window follows a successful probe, whose number is recorded, and a run that never recovered ends with three probes in vain |
| Checkpoint.RowsInOrder | src/karc/bench/checkpoint.py:46-59 | the rows are those of exactly the readable lines, at increasing line positions: none lost, repeated or moved |
| Checkpoint.LoadRows | src/karc/bench/checkpoint.py:46-59 | the loop returns these rows together with the line positions they come from |
| Checkpoint.LatestByRunId | src/karc/bench/checkpoint.py:62-70 | the map from run id to its last row |
| Checkpoint.LatestIsLast | src/karc/bench/checkpoint.py:62-75 | later row wins: an id is complete exactly when the last row that carries it is |
| Checkpoint.EmptyIdIsIgnored | src/karc/bench/checkpoint.py:62-70 | a row with an empty run id counts for nothing |
| Checkpoint.PendingInOrder | src/karc/bench/checkpoint.py:78-86 | pending units are a subsequence of the schedule that takes exactly the positions not done |
| Checkpoint.PendingPartitions | src/karc/bench/checkpoint.py:73-86 | pending and completed units partition the schedule, repetitions included |
| Checkpoint.ResumeExecutes | src/karc/bench/checkpoint.py:46-86 | a resume executes a unit of the schedule unless the last readable line that carries its id says ok or task |
| CrashResume.NeverExecutesComplete | src/karc/bench/checkpoint.py:46-86 | across any crashes and resumes, a unit that the schedule lists once is executed only while its latest surviving row is not complete |
| CrashResume.WastedIffRepeated | src/karc/bench/checkpoint.py:73-86 | no sequence of runs, crashes and resumes executes a unit that the log shows complete if and only if the schedule lists it once |
| CrashResume.SurvivorBlocks | src/karc/bench/checkpoint.py:46-86 | as long as no crash cuts the log below it, a complete row keeps a unit that is listed once from being executed again |
| CrashResume.NothingPending | src/karc/bench/checkpoint.py:73-86 | once every unit has a surviving complete row a resume finds nothing to do |
| CrashResume.LostRowsRunAgain | src/karc/bench/checkpoint.py:46-86 | when a crash cuts off every row of a unit, the next resume has it to execute again, with all its repetitions |
| LoggedRun.RunIsResumed | src/karc/bench/checkpoint.py:78-217 | after any history of runs and crashes, every run of the loop over the pending units is a run of the crash-and-resume machine, one execution per outcome |
| LoggedRun.LoopExecutesIncomplete | src/karc/bench/checkpoint.py:78-217 | so whenever the loop reports a unit that the schedule lists once, the log so far holds no complete latest row of it |
| LoggedRun.InVainIffRepeated | src/karc/bench/checkpoint.py:78-217 | the loop never reports a unit that the log already shows complete if and only if the schedule lists it once |
| AttemptLedger.LedgerFromRows | src/karc/bench/e5_runtime_accounting.py:78-89 | the loop computes the ledger and fails exactly for a row that reports more attempts than calls; calls, spend and infrastructure failures in terms of the rows |
| AttemptLedger.LedgerBalance | src/karc/bench/e5_runtime_accounting.py:60-89 | the spend is what the rows report, and one for every row without attempt fields that is complete or shows positive usage; calls default to one per row; spend and infrastructure failures make up the calls, and one more for every such row that records no call |
| AttemptLedger.RejectedIffOverdrawn | src/karc/bench/e5_runtime_accounting.py:63-68 | a log is rejected exactly if some row reports more attempts than calls |
| AttemptLedger.FreeCall | src/karc/bench/e5_runtime_accounting.py:43-50 | a call debits nothing exactly if it failed and none of its four token counts is positive |
| AttemptBudget.HardAttemptBudget.constructor | src/karc/bench/e10_horizon_execution.py:36-44 | the caps cover the historical attempts |
| AttemptBudget.HardAttemptBudget.Reserve | src/karc/bench/e10_horizon_execution.py:53-65 | granted exactly while in-flight is below what each of the three caps leaves; the caps stay covered |
| AttemptBudget.HardAttemptBudget.Settle | src/karc/bench/e10_horizon_execution.py:67-79 | the exact new counters and charge from the token counts of the result, also where the second error is raised; no error when a reservation is outstanding and the caps are covered |
| AttemptBudget.Open | src/karc/bench/e10_horizon_execution.py:36-51 | construction from a run log fails exactly for an inconsistent ledger or exceeded caps |
| AttemptBudget.StepSound | src/karc/bench/e10_horizon_execution.py:53-79 | a call by a thread that settles only what it reserved never raises and keeps every cap covered |
| AttemptBudget.AnyInterleaving | src/karc/bench/e10_horizon_execution.py:36-79 | for any number of threads and any interleaving: spend, infra and total each plus in-flight stay within their caps, in-flight equals the outstanding reservations, spend and infra are the historical ones plus the settles of their kind, neither RuntimeError is reachable |
| AttemptBudget.SettleNeedsReservation | src/karc/bench/e10_horizon_execution.py:70-71 | a settle fails under covered caps exactly without an outstanding reservation, and then changes nothing |
| SpendBudget.ModelSpendBudget.constructor | src/karc/bench/e5_runtime_accounting.py:95-107 | a fresh budget with the historical counters |
| SpendBudget.ModelSpendBudget.Reserve | src/karc/bench/e5_runtime_accounting.py:114-120 | granted exactly while spend plus in-flight is below the cap |
| SpendBudget.ModelSpendBudget.TryReserve | src/karc/bench/e5_runtime_accounting.py:122-136 | one look under the lock: wait, refuse at the true cap, or grant |
| SpendBudget.ModelSpendBudget.Settle | src/karc/bench/e5_runtime_accounting.py:138-154 | the charge moves from in-flight to infrastructure failures exactly for a failed call without positive token counts, and else to spend |
| SpendBudget.Open | src/karc/bench/e5_runtime_accounting.py:109-112 | construction from rows fails exactly for a bad cap, bad rows or too much spend; the counters in terms of the rows |
| SpendBudget.StepSound | src/karc/bench/e5_runtime_accounting.py:114-154 | every atomic step keeps spend plus in-flight within the cap, the balance of calls, and leaves no sleeper whose predicate holds |
| SpendBudget.StepExact | src/karc/bench/e5_runtime_accounting.py:114-154 | for every step of every thread: a free slot is granted, the true cap refused, and between the two a thread sleeps unless its timeout is over; the exact counters |
| SpendBudget.AnyInterleaving | src/karc/bench/e5_runtime_accounting.py:95-154 | the same for every interleaving of any number of threads, with the balance of calls carried from the ledger, and spend and infra the historical ones plus the settles of their kind |
| SpendBudget.HolderCanSettle | src/karc/bench/e5_runtime_accounting.py:138-147 | a running holder of a reservation can always settle it |
| SpendBudget.SettleRemains | src/karc/bench/e5_runtime_accounting.py:122-154 | while a waiter is blocked, some continuation settles an attempt if and only if a reservation is held by a thread that runs or whose wait has a timeout |
| SpendBudget.SleeperIsWoken | src/karc/bench/e5_runtime_accounting.py:122-154 | a waiter without a timeout is woken in some continuation if and only if the same condition holds |
| SpendBudget.FreeHandedWaiters | src/karc/bench/e5_runtime_accounting.py:122-154 | if waiting threads hold no reservation the condition always holds |
| SpendBudget.QuietMeansAwake | src/karc/bench/e5_runtime_accounting.py:122-132 | with nothing in flight nobody sleeps |
| SpendBudget.RefusedAtTrueCap | src/karc/bench/e5_runtime_accounting.py:122-136 | without a timeout the waiter is refused only at the true cap, with nothing in flight |
| SpendBudget.WaitingOnOneself | src/karc/bench/e5_runtime_accounting.py:122-147 | the condition fails for a thread that waits for its own reservation: no continuation settles or wakes it |
| Text.TokensConcat | src/karc/bench/e5_chunk_canary.py:234-236 | tokens of a concatenation, unless a word spans the seam |
| Text.SplitLinesJoin | src/karc/bench/e5_chunk_canary.py:81-123 | splitlines(keepends=True) loses nothing and yields whole lines |
| Text.SplitLinesWhole | src/karc/bench/e5_chunk_canary.py:81-123 | no line is empty or holds a line break before its end, and every line but the last ends in one; a carriage return is not parted from its newline |
| Text.StripNewlinesIs | src/karc/bench/e5_chunk_canary.py:80-110 | stripping takes newlines and nothing else, and leaves none at either end |
| Fences.OpenRestarts | src/karc/bench/e5_chunk_canary.py:80-101 | the fence state restarted at a line where no fence is open agrees with the running one |
| HeadingCuts.FencePattern | src/karc/bench/e5_chunk_canary.py:85 | a fence is a line whose first visible characters are three backticks |
| Fences.AtomsExact | src/karc/bench/e5_chunk_canary.py:80-103 | the atoms are exactly the fenced blocks and the paragraphs: longest runs outside fences up to the next blank line, fence or end |
| Fences.AtomsTokens | src/karc/bench/e5_chunk_canary.py:80-103 | the atoms hold the tokens of the lines in order |
| Fences.ParagraphAtoms | src/karc/bench/e5_chunk_canary.py:80-103 | the single loop with its fence flag returns exactly these atoms, in order |
| Packing.PackedTokens | src/karc/bench/e5_chunk_canary.py:106-119 | chunks keep every token of their parts, in order |
| Packing.PackedHasPart | src/karc/bench/e5_chunk_canary.py:106-119 | every part that is not blank sits in one chunk |
| Packing.GreedyUnique | src/karc/bench/e5_chunk_canary.py:106-119 | the greedy grouping is unique, so stating it fixes the chunks completely |
| Packing.ChunkText | src/karc/bench/e5_chunk_canary.py:111-119 | a chunk is its parts set apart by one empty line, up to the last visible character, and one newline |
| Packing.Utf8Bytes | src/karc/bench/e5_chunk_canary.py:68-69 | the estimate counts one byte per character and one more for each of the limits 0x80, 0x800 and 0x10000 that it reaches |
| Packing.OversizeIsOnePart | src/karc/bench/e5_chunk_canary.py:106-119 | a chunk that exceeds the soft maximum even without its final newline is a single part |
| Packing.PackOne | src/karc/bench/e5_chunk_canary.py:110-116 | one pass of the loop: join unless the candidate exceeds the soft maximum |
| Packing.PackAtoms | src/karc/bench/e5_chunk_canary.py:106-119 | the chunks are a greedy grouping: consecutive parts, each group as long as its estimate allows |
| Sections.BlockInBody | src/karc/bench/e5_chunk_canary.py:139-149 | a fenced block between two lines where no fence is open is a block of the section there |
| Sections.MarkdownSections | src/karc/bench/e5_chunk_canary.py:122-152 | the sections are cut exactly at the headings outside fences, keep all tokens in order, and cut no fenced block |
| HeadingCuts.HeadingPattern | src/karc/bench/e5_chunk_canary.py:140 | the heading pattern: one to six hashes, at least one space, and at least one more character |
| HeadingCuts.SectionStarts | src/karc/bench/e5_chunk_canary.py:139-149 | every heading outside fences starts a section, and the sections before it hold exactly the tokens of the lines before it |
| Splitter.SectionUnits | src/karc/bench/e5_chunk_canary.py:153-157 | the units of one section are the unique greedy packing of its heading, paragraphs and fenced blocks |
| Splitter.UnitsUnique | src/karc/bench/e5_chunk_canary.py:152-162 | the sections determine the units |
| Splitter.UnitsOversize | src/karc/bench/e5_chunk_canary.py:207-211 | a unit above the soft maximum is one heading, one paragraph or one fenced block of a section |
| Splitter.MarkdownUnits | src/karc/bench/e5_chunk_canary.py:122-162 | the units of a Markdown text: each of its sections packed on its own, all tokens in order, no fenced block cut, nothing oversize but indivisible pieces |
| Splitter.MarkdownCuts | src/karc/bench/e5_chunk_canary.py:122-162 | every heading outside fences is the start of a unit that follows exactly the tokens of the lines before it; the units up to the next heading are the greedy packing of the heading and the paragraphs and blocks in between, and those before the first heading of the lines there |
| Splitter.SemanticSplit | src/karc/bench/e5_chunk_canary.py:204-237 | the loss check fails exactly for a blank text; otherwise Markdown is cut at every heading outside fences and packed greedily between two of them, and prose is the greedy packing of the paragraphs and blocks of all lines, headings or not; the units hold the tokens in order, keep every fenced block in one unit, and exceed the soft maximum only as a single heading, paragraph or block |
| Allocation.SortIndices | src/karc/bench/e5_chunk_canary.py:248 | sorted by larger fraction, then smaller index, over all chunks |
| Allocation.IncrementsAreFractional | src/karc/bench/e5_chunk_canary.py:247-250 | with a positive total size every increment goes to a chunk whose quota is not whole |
| Allocation.LeftBelowCount | src/karc/bench/e5_chunk_canary.py:247-250 | the increments never outnumber the chunks |
| Allocation.Monotone | src/karc/bench/e5_chunk_canary.py:240-254 | a strictly larger chunk never gets fewer tokens |
| Allocation.SharesApportioned | src/karc/bench/e5_chunk_canary.py:240-254 | in terms of the sizes alone: every share is 1 plus its quota up to less than one token; a chunk rounded up has a larger remainder than one that is not, or the same and comes earlier; of two equal chunks the earlier never gets fewer |
| Allocation.AllocateTokens | src/karc/bench/e5_chunk_canary.py:240-254 | positive shares that sum to the total and follow the largest remainders, each a floor or ceiling of its quota with ties to the earlier chunk; all-empty chunks get their tokens in order; the exact condition of both errors |
| Retrieval.GreatestStart | src/karc/bench/e4_retrieval.py:68-70 | the maximum over the starts of a conflict, which is never empty |
| Retrieval.ResolveGroup | src/karc/bench/e4_retrieval.py:63-75 | a document keeps its only version, else the unique latest one, else none |
| Retrieval.ResolveAll | src/karc/bench/e4_retrieval.py:59-75 | the loop over the documents: allowed versions, conflicts and unresolved documents |
| Retrieval.VersionAwareRanked | src/karc/bench/e4_retrieval.py:50-84 | exactly the items of active versions that started strictly later than every other active version of their document, in rank order, with the audit counts and the unresolved documents in sorted order; fails exactly for an unlisted version |
| Retrieval.LatestIsInForce | src/karc/bench/e4_retrieval.py:50-84 | a version passes exactly if it has started and is not superseded, and every other such version of its document in the ranking started strictly earlier |
| Retrieval.ConflictsAreContested | src/karc/bench/e4_retrieval.py:63-65 | conflicts are the documents with two versions that have started and are not superseded |
| Retrieval.TiedAreUnresolved | src/karc/bench/e4_retrieval.py:66-75 | unresolved are the documents of which such a version exists and none passes |
| Retrieval.OneVersionPerDocument | src/karc/bench/e4_retrieval.py:56-77 | no two versions of one document pass the filter |
| BudgetSelection.SelectUsed | src/karc/bench/e3_retrieval.py:163-174 | the tokens used are those of the distinct selected versions and stay within a budget that is not negative |
| BudgetSelection.SelectMaximal | src/karc/bench/e3_retrieval.py:163-174 | whatever has a positive score and was not selected does not fit at the end either |
| BudgetSelection.PickedIffFits | src/karc/bench/e3_retrieval.py:163-174 | a candidate is selected exactly if it fits beside the better-ranked selections |
| BudgetSelection.SelectBudget | src/karc/bench/e3_retrieval.py:154-182 | the loop computes this selection with its chunks, tokens and utilisation; fails exactly for an unlisted scored version |
| BudgetSelection.PlanTask | src/karc/bench/e4_retrieval.py:86-97 | a version-aware plan keeps rank order and the budget, holds only versions that have started and are not superseded and one per document, leaves out no such latest version with a positive score that still fits, and never takes a maximum of nothing |
| DocumentAccounting.SizeUnion | src/karc/bench/e5_killgate.py:393-394 | tokens of a union: the first set, and what the second adds |
| DocumentAccounting.SessionsPartition | src/karc/bench/e5_killgate.py:405-411 | every task is charged in exactly one session |
| AccountingRules.MissesAreInsufficient | src/karc/bench/e5_killgate.py:435-439 | misses are the tasks whose context lacks a required version, contained tasks all others |
| AccountingRules.StaleAreExposed | src/karc/bench/e5_killgate.py:397-402 | stale exposures are the tasks whose context holds a version that is superseded by then |
| DocumentAccounting.UnionWithinSum | src/karc/bench/e5_killgate.py:512-573 | the union of a session's contexts never weighs more than their sum |
| DocumentAccounting.PlanWithGoldCovers | src/karc/bench/e5_killgate.py:446-460 | a plan that contains the gold and charges what it weighs covers the missing gold |
| DocumentAccounting.GoldWithinPrimary | src/karc/bench/e5_killgate.py:434-461 | with covered misses the gold-only bracket never exceeds the primary total |
| DocumentAccounting.UncoveredGoldExceeds | src/karc/bench/e5_killgate.py:434-461 | any plan that charges less than the gold it stands for gives an account in which the gold-only total exceeds the primary one |
| DocumentAccounting.BracketedIffCharged | src/karc/bench/e5_killgate.py:434-461 | for given sizes, plans and gold the gold-only total stays within the primary one on every account if and only if no plan charges less than the listed gold of its task |
| DocumentAccounting.CacheTask | src/karc/bench/e5_killgate.py:433-464 | what one task adds to every running total |
| DocumentAccounting.CacheSession | src/karc/bench/e5_killgate.py:424-464 | resident fresh tokens of a session are the size of the union of its resident sets, including the initial one |
| DocumentAccounting.CacheAccount | src/karc/bench/e5_killgate.py:414-509 | the totals over the batch, the amortised costs in order of the cache weight, and the exact condition of both errors |
| DocumentAccounting.RetrievalSessions | src/karc/bench/e5_killgate.py:521-534 | symmetric fresh tokens of a session are the size of the union of its contexts |
| DocumentAccounting.RetrievalAccount | src/karc/bench/e5_killgate.py:512-573 | the totals over the batch, the amortised costs in order, and the exact condition of both errors |
| TokenComponents.CodexComponents | scripts/verify.py:118-143 | the difference of two cumulative counters passes exactly when every check holds, and then splits gross into uncached, written and read tokens |
| TokenComponents.CodexSession | scripts/verify.py:179-195 | a session fails exactly at a row that a check rejects; otherwise its summed differences telescope to the final cumulative counters, component by component |
| TokenComponents.TranscriptAgrees | scripts/verify.py:130-143 | the transcript calls of an accepted session add up to the same counters |
| TokenComponents.PiComponents | scripts/verify.py:95-115 | the call records are accepted exactly when they add up to the turn's own ledger, with creation split into the two lifetimes |
| TokenComponents.ClaudeComponents | scripts/verify.py:146-155 | a row is accepted exactly when its components are consistent and not negative |
| TokenComponents.SumBalanced | scripts/verify.py:178-207 | totals keep both identities |
| TokenComponents.WrittenTokensCost | scripts/verify.py:83-87 | written tokens cost what their lifetime costs; a lifetime without a price is charged the flat write price, and nothing without one |
| TokenComponents.CostAgainstThreshold | scripts/verify.py:206-213 | in units of the input price the cost difference is the average write price less the threshold, times the extra written tokens |
| TokenComponents.SignOfSavings | scripts/verify.py:206-213 | with one write price the managed arm is cheaper exactly when (mu_w - mu_w*) times the extra written tokens is negative |
| TokenComponents.ProfileSign | scripts/verify.py:158-213 | over any accepted turns of the two arms the threshold, where it is defined, tells the sign of the savings |
| PairedBootstrap.MediantSums | scripts/verify.py:71-72 | a resampled ratio is a mediant of per-session ratios |
| PairedBootstrap.Sorted | scripts/verify.py:63 | an ordered permutation |
| PairedBootstrap.Interval | scripts/verify.py:61-65 | the interval ends are two ordered draws, the order statistics 250 and 9749 |
| PairedBootstrap.PairedRatio | scripts/verify.py:68-74 | point and interval lie within the bounds of the per-session ratios for any resample indices; fails exactly for unpaired, empty or nonpositive samples |
| SessionAttempts.LatestAttempts | src/karc/bench/e10_horizon_execution.py:95-111 | the dictionary of the loop: exactly the sessions with a complete attempt, each with the graded rows of its latest complete one |
| SessionAttempts.CompleteIs | src/karc/bench/e10_horizon_execution.py:103-108 | an attempt is complete exactly if its ok and task rows are as many as the session is long and stand at the positions from 1 to that length |
| SessionAttempts.LatestRows | src/karc/bench/e10_horizon_execution.py:95-115 | the result: exactly the graded rows of the latest complete attempt of every session, in strict order of session, arm and position |
| SessionAttempts.OncePerPosition | src/karc/bench/e10_horizon_execution.py:105-108 | those rows cover every position exactly once |
| SessionAttempts.NextAttempt | src/karc/bench/e10_horizon_execution.py:122-127 | one more than the greatest attempt in the log, or zero |
| SessionAttempts.RetryWins | src/karc/bench/e10_horizon_execution.py:95-127 | a retry under the next attempt number becomes the latest complete attempt as soon as it is complete |
| Ulid.NewUlid | src/karc/util.py:14-27 | the loop emits the 26 base-32 digits of the time and the random bits |
| Ulid.RoundTrip | src/karc/util.py:14-27 | decoding returns the time and the random bits exactly when the time fits 50 bits; 48 bits always do |
| Ulid.SortsByTimeThenRandom | src/karc/util.py:14-27 | ASCII order of two identifiers is the order of their (time, random bits) pairs |

## Left out

- The K-ARC policy itself, its baselines, replay and live drivers: only stubs of those packages are present, so their
  rules cannot be cited.
- The Python branch of `semantic_split`: it depends on `ast`, which is not part of this model.
- Heading paths, slugs, boundary keys, SHA-256 digests and the provenance seed of chunk records: derived fields.
- `chunk_fixture` and `_split_paragraph` of `src/karc/bench/e3_retrieval.py`: the same packing scheme as `_pack_atoms`.
- BM25 and dense scores: logarithms and vectors; rankings are arbitrary inputs.
- The Mersenne Twister: shuffles and resamples are arbitrary, so reproducibility of a seed is not stated.
- ArcBreakdown.ComputeBreakdown: omits percentiles, Zipf slope, reuse-distance gaps, the top-decile share and the verdict,
  because they are statistics over floating-point logarithms and quantiles that no decision of the replay uses.
- Prompts, regular expressions, stale values and the sigma measures of the schedule: labels without control flow.
- The registered seeds and session lengths of `build_reuse_schedule`: membership checks in constant tuples, which its
  allow flags switch off.
- Reset-time parsing, sleeps, timestamps and the wait fields of windows: a wait is a no-op and the probe is arbitrary.
- Side effects of the outcome callback: it is an arbitrary decision to continue or to stop.
- The JSON grammar itself: whether a line parses is an input. A line that is valid JSON but no object raises later.
- The ledgers that the two accounts return row by row, and the index size of the retrieval report.
- Session grouping, grades and call counts of `component_profile`; `paired_mean`, `price_without_reasoning` and the
  expression evaluator of `scripts/verify.py`.
- Negative historical counters of `ModelSpendBudget`: the ledger never produces them.
- Linearizability of the locks themselves: a call under the lock is one atomic step.
- ReuseSchedule.ChooseGold: draws from the current versions without sorting them first, because the draw is arbitrary.
- CrashResume.SurvivorBlocks: is stated for complete rows above every later cut, because a cut below a row removes it,
  and for units listed once, because repeated ones are executed again (CrashResume.WastedIffRepeated).
