# Repository tooling: logs, changelogs and resumable parsers

A Dafny model of the parts of the repository's tooling that keep state across steps, and proofs of
what those parts promise. `dafny verify dfyconfig.toml` checks the whole project.

**An incremental index of a growing log** (`sync.py`). A sync decides from stored state whether to
skip a file, to read on from a byte offset or to start over, and writes batches of rows into keyed
tables; other processes append whole lines at any moment. `SessionSync` is a state machine over
these steps. Whatever the schedule, the tables equal one from-scratch ingest of the lines up to the
stored offset, because the upserts of call stubs and results commute; rows of an older parser are
rebuilt. `SessionRows` reads the rows of an ingest off the log lines themselves. `LongestRepeat` is the quadratic search in the same file. Its docstring promises an answer
for every repeat that is at least half meaningful; the code looks at whole runs only, so the promise
is kept of all blocks only where no two lines differ in being meaningful.

**Coverage of lines** (`optimize_read_config.py`, `read_optimizer.py`, `analyze_selector_reads.py`).
One notion, a list of line ranges, is maintained by batch merge, by insertion and by subtraction.
`Spans` shows that canonical lists are unique, so all ways agree, and that both single-range tests
are exact on them. `ReplayPair`, `ReadOptimizer` and `SelectorReads` build on it: the two-phase
replay loses no needed line and pays the shortfall exactly once, and several regions need a hop over
a gap or a range with its ends swapped. `ReplayCost` and `ReadTally` say which calls the two replays pay
for, at which price, and what every counter counts, by the lines delivered. Whether a larger cap can cost calls is settled in `CapLaw`: without context lines never, with
context lines, as in the settings 500/3000/3/3 of the code, always for some group, except where a cap
of one is raised far enough.

**The changelog fixer** (`fix-changelogs.ts`). Lines are classified as release heading, subsection
heading, bullet, blank or plain text. `ChangelogText`, `ChangelogLists`, `ChangelogItems` and
`ChangelogRemoval` treat a body of lines, `ChangelogDocument` reading and writing,
`ChangelogNormal` and `ChangelogOrder` the normal form, `ChangelogPromotion` and `ChangelogFixer`
the passes over the document, which is an object whose section list each pass replaces. On top of
that: `ChangelogMoves` says which bullets are dropped, which are promoted and what becomes of each
heading, `ChangelogOutput` in which order the output has its parts and `ChangelogLayout` where its
blank lines are; text is conserved (`ChangelogConservation`, `ChangelogLaws`), promoted bullets arrive
(`ChangelogArrival`), and a second pass changes nothing exactly under a stated condition
(`ChangelogIdempotence`, `ChangelogPasses`, `ChangelogGrowth`, `ChangelogAgain`), with an input for
each of its causes (`ChangelogLate`). `DiffPairing`, `DiffCounts` and `DiffNumbers` are the diff
reader that finds newly added bullets.

**Resumable state machines.** `GetOpts` keeps its place in shell variables between calls
(`getopts.rs`; the `getopts` utility of POSIX.1-2017, XCU, over section 12.2 of XBD); a whole run of
calls equals a one-shot parse. `EditBoundary` finds the longest prefix of an edit script that parses
(`harmony_backtest.py`); `EditScript` gives the grammar of exactly the texts it accepts.

**Sampling, buffers and a worker pool.** `Reservoir` counts draw vectors (`tool_io.py`), and
`SessionAudit` has the pruned buffer and the residency sums (`audit.ts`); `SessionBooking` says on
which tool and request each result is booked. `WorkerPool` is the pool as a state machine, and
`PromptText`, `PromptRewrite` and `PromptFile` are the rewrite it feeds (`rewrite-system-prompt.ts`):
`PromptLines` says which lines are sent and which part of them, `PromptAnswers` that each first good
answer reaches its line. The checks on an answer do not look for line breaks, so an answer may
split its line; `PromptFile` says exactly when the file keeps its lines. `StableSort` stands for the stable sort of the JavaScript engine.

Each operation has two descriptions: functions that follow the code, and a statement of what they
mean that does without them, by positions, fields and counts. Code that works step by step is modelled by methods with loops, and by classes where an object keeps
state. Each method is proved against a function of its inputs, and the lemmas say what that function
means. Every lemma switches automatic induction off, so each proof is the one that is written down.

Where the code and its documentation differ, the model follows the code. The comment at the start of
`dropUnreleasedDuplicatesOfReleased` says it only mutates the unreleased section; the code does so
for the first unreleased section only, and so does the model.

## Model

| member | source | states |
|---|---|---|
| `SessionSync.IndexIsAlwaysOneIngest` | scripts/session-stats/sync.py:648-732 | Over every schedule of whole-line appends, touches, failures, syncs, program upgrades and reads (with appends between the stat and the read), the tables and the stored header columns equal one from-scratch ingest of the first `lineCount` lines, whose bytes add up to the stored offset; only rows still marked with an older parser version may differ. `SessionRows.IndexHoldsTheRows` says what these rows are. |
| `SessionSync.StaleRowsAreRebuilt` | scripts/session-stats/sync.py:1048-1073 | Whatever rows an older parser version left behind, the next sync decides to rebuild, and ends with an ingest of the whole file marked as current. |
| `SessionSync.RunKeepsCurrent` | scripts/session-stats/sync.py:1001-1033 | Between upgrades no schedule makes a current row stale. |
| `SessionSync.SkippedSyncIsCurrent` | scripts/session-stats/sync.py:1048-1073 | Whenever the decision is to skip the file, every line now in the file is already in the tables. |
| `SessionSync.QuietSyncCatchesUp` | scripts/session-stats/sync.py:1048-1073 | A sync nobody disturbs ends with the tables equal to an ingest of the whole file, whether it skips, reads on or rebuilds. |
| `SessionSync.QuietSyncIsRemembered` | scripts/session-stats/sync.py:1048-1073 | After a sync nobody disturbed, the next one skips a file to which nothing happened, and starts reading exactly behind the lines it holds when the file has grown. |
| `SessionSync.QuietSyncDecides` | scripts/session-stats/sync.py:1048-1073 | Whatever size and time the file has next, after an undisturbed sync it is skipped if and only if it has the length held and is not newer, read on behind the lines held if and only if it is longer, and read from its start in all other cases. |
| `SessionSync.DecidesExactly` | scripts/session-stats/sync.py:1048-1073 | For a stored row of any parser, and a file that may have grown while it was read: the file is skipped if it is as it was found, read on if there is more behind the offset, and read from its start otherwise or with a parser older than 6. |
| `SessionSync.GrowingFileIsNeverShort` | scripts/session-stats/sync.py:1069-1070 | On a file that only grows the stored offset never exceeds its size, so the branch for a shrunken file is not taken. |
| `SessionSync.StepKeepsSound` | scripts/session-stats/sync.py:648-732 | Each step of the protocol keeps the invariant that the index is one ingest of a prefix that ends on a line boundary, and that a read in progress starts over or at that boundary. |
| `SessionSync.RunKeepsSound` | scripts/session-stats/sync.py:648-732 | The invariant holds after every run of steps. |
| `SessionSync.StubAndOutcomeCommute` | scripts/session-stats/sync.py:960-983 | The upsert of a call stub and that of a result commute on every table, whichever row exists before. |
| `SessionSync.WriteTwice` | scripts/session-stats/sync.py:916-1000 | Writing two batches of records in turn is writing them as one batch, although each write puts all stubs before all results. |
| `SessionSync.ParseInTwo` | scripts/session-stats/sync.py:648-720 | Reading on behind the lines of a prefix adds exactly the records a single read would have added behind those of the prefix. |
| `SessionSync.ResumeIsRebuild` | scripts/session-stats/sync.py:916-1033 | The rows of a prefix with the rows of the rest written on top are the rows of the whole, and the coalesced header columns are those of the whole. |
| `SessionSync.SeekFindsLine` | scripts/session-stats/sync.py:683-685 | Seeking to the byte length of the first n lines finds line n. |
| `SessionSync.RebuildKeepsMeta` | scripts/session-stats/sync.py:1001-1021 | A rebuild that coalesces with columns stored from a shorter prefix stores those of the longer one. |
| `SessionSync.ReadFile` | scripts/session-stats/sync.py:648-732 | The read loop over mutable `seq` and `offset` returns the records, end offset and line count of the functional parse from the seek position. |
| `SessionSync.Collector.IngestLine` | scripts/session-stats/sync.py:686-717 | One decoded line changes the record lists as the functional step does, for every kind of event. |
| `SessionSync.Collector.IngestAssistant` | scripts/session-stats/sync.py:740-795 | An assistant line appends its calls in block order and then its message row. |
| `SessionSync.Collector.IngestEditCall` | scripts/session-stats/sync.py:797-860 | An edit call appends one stub and one row per section of its input. |
| `SessionSync.Database.WriteRecords` | scripts/session-stats/sync.py:916-1033 | The row-by-row writes leave exactly the contents of the functional write, after emptying the tables on a rebuild; `SessionRows.IngestHoldsRows` says what these are. |
| `SessionSync.Database.UpsertEdits` | scripts/session-stats/sync.py:960-983 | All stubs are put before all results, each touching only its own columns of an existing row: the result sets success and warnings, the stub number, time and input length. |
| `SessionSync.Upsert` | scripts/session-stats/sync.py:929-959 | Row by row, a later row with the same key replaces an earlier one. |
| `SessionRows.IndexHoldsTheRows` | scripts/session-stats/sync.py:648-1033 | Over every schedule the tables of a current row hold exactly the rows that the log lines up to its offset ask for, and the header columns are those of a header on the first line. |
| `SessionRows.IngestHoldsRows` | scripts/session-stats/sync.py:686-1000 | Read off the lines alone: an edit row has success and warnings of the last edit result with its id and number, time and length of the last edit call with it; a user row stands under a number exactly if that line is a user message with text; and so on for assistants, calls, results and sections. |
| `SessionRows.HeaderIsParsed` | scripts/session-stats/sync.py:686-692 | The header columns are those of the first line, if it is a header, and else unset. |
| `LongestRepeat.SearchIsExact` | scripts/session-stats/sync.py:502-521 | For every block, min_len and test of lines: the answer is None exactly when no repeat of at least min_len lines, at least half of them (and two) meaningful, is the whole of a run; otherwise it is the greatest length of such a whole run and the first place where one of this length starts. |
| `LongestRepeat.MeatyExactly` | scripts/session-stats/sync.py:514-517 | A run qualifies if and only if at least two of its lines are meaningful, and no fewer than are not. |
| `LongestRepeat.PromiseIsKeptExactly` | scripts/session-stats/sync.py:502-504 | The docstring promises an answer whenever a repeat of at least min_len lines with at least half meaningful ones exists; for every min_len this holds of all blocks if and only if either every line is meaningful or none is. |
| `LongestRepeat.DilutedRepeatIsLost` | scripts/session-stats/sync.py:514-518 | The failing input: n meaningful lines and n + 1 others, twice. The first n lines are such a repeat, but the run they belong to is turned down as a whole and the answer is None. |
| `LongestRepeat.MeaningfulBlockIsAnswered` | scripts/session-stats/sync.py:514-521 | In a block of meaningful lines every such repeat gets an answer that is at least as long. |
| `LongestRepeat.FindLongestRepeat` | scripts/session-stats/sync.py:502-521 | For any block and min_len the loops end with the earliest start of the highest-scoring pair among all pairs of starts, or nothing when no pair qualifies. |
| `LongestRepeat.ScanFrom` | scripts/session-stats/sync.py:509-520 | The inner loop keeps the best pair for all pairs up to the end of one row. |
| `LongestRepeat.ConsiderPair` | scripts/session-stats/sync.py:510-520 | One more pair is considered without losing the best so far. |
| `LongestRepeat.MeasureRun` | scripts/session-stats/sync.py:511-513 | The common run is measured to its first difference, the second start or the end of the block. |
| `LongestRepeat.RunIsLongest` | scripts/session-stats/sync.py:511-513 | No two equal non-overlapping blocks from the same two starts are longer than the measured run. |
| `Spans.CanonicalUnique` | scripts/session-stats/optimize_read_config.py:146-157 | Two canonical lists (ordered, with an uncovered line between neighbours) that cover the same lines are the same list. |
| `Spans.MergeMeaning` | scripts/session-stats/optimize_read_config.py:146-157 | The batch merge is canonical and covers exactly the lines it was given. |
| `Spans.MergeSpans` | scripts/session-stats/optimize_read_config.py:146-157 | The sort-and-fold loop computes that merge. |
| `Spans.SortSpans` | scripts/session-stats/optimize_read_config.py:149 | Sorting permutes the ranges into the order of pairs. |
| `Spans.AddIntervalMeaning` | scripts/session-stats/read_optimizer.py:261-278 | Inserting keeps a canonical list canonical and adds exactly the lines of the item. |
| `Spans.AddIntervalTo` | scripts/session-stats/read_optimizer.py:261-278 | The insertion loop with its `s`, `e` and `placed` computes that list. |
| `Spans.AddingInAnyOrderIsMerging` | scripts/session-stats/read_optimizer.py:261-278 | Inserting well-formed ranges one at a time, in any order, builds exactly the list the batch merge builds. |
| `Spans.CoverageTestsAreExact` | scripts/session-stats/read_optimizer.py:251-258 | On a canonical list both the single-range test and the early-exiting test hold exactly when every line of the target is covered. |
| `Spans.ContainedIn` | scripts/session-stats/optimize_read_config.py:160-164 | The loop answers the single-range test; on canonical lists that is coverage of every line. |
| `Spans.IsCoveredBy` | scripts/session-stats/read_optimizer.py:251-258 | The loop that gives up early answers the same question on canonical lists. |
| `Spans.ContainedNeedsCanonicalForm` | scripts/session-stats/optimize_read_config.py:160-164 | Off the canonical form the single-range test is not coverage: a concrete list covers [2,3] in two pieces and the test denies it. |
| `Spans.SubtractMeaning` | scripts/session-stats/optimize_read_config.py:167-183 | What is left of the target is exactly its uncovered lines, as disjoint ranges in order inside it. |
| `Spans.SubtractSpans` | scripts/session-stats/optimize_read_config.py:167-183 | The nested cutting loops with their early stop compute that remainder. |
| `Spans.CutSpans` | scripts/session-stats/optimize_read_config.py:171-180 | The inner loop cuts every remaining piece by one covered range. |
| `Spans.ChunksMeaning` | scripts/session-stats/optimize_read_config.py:357-368 | Chunks pay every line of the range and no other, each within the cap. |
| `Spans.ChunksRise` | scripts/session-stats/optimize_read_config.py:357-368 | Chunks are non-empty, disjoint and in order. |
| `Spans.ChunkCount` | scripts/session-stats/optimize_read_config.py:357-368 | There are no more chunks than the cap forces. |
| `Spans.ChunkRange` | scripts/session-stats/optimize_read_config.py:357-368 | The loop produces those chunks. |
| `Spans.SizeCountsLines` | scripts/session-stats/analyze_selector_reads.py:207 | Adding up the lengths of disjoint ranges counts the covered lines. |
| `ReplayPair.ReplayPair` | scripts/session-stats/optimize_read_config.py:371-415 | The two-phase replay ends with every line any observed call returned covered; its total, call count and coverage are those of phase 1 plus one payment per shortfall chunk. |
| `ReplayPair.ShortfallIsExact` | scripts/session-stats/optimize_read_config.py:404-414 | The phase-2 chunks cover exactly the needed lines phase 1 did not deliver, pairwise disjoint, within the per-call cap, and their lengths add up to the number of missing lines. |
| `ReplayPair.NothingNeededIsLost` | scripts/session-stats/optimize_read_config.py:371-415 | Phase-1 coverage and the shortfall together contain every observed line. |
| `ReplayPair.Phase1Delivers` | scripts/session-stats/optimize_read_config.py:389-402 | Skipping covered calls loses nothing: coverage is that of all simulated results together, and each paid call brought at least one new line. |
| `ReplayPair.ReplayStepDelivers` | scripts/session-stats/optimize_read_config.py:389-402 | After one call its simulated range is covered, and coverage stays canonical. |
| `ReplayPair.EffectiveReturnedBounds` | scripts/session-stats/optimize_read_config.py:315-343 | A simulated result exists exactly for intents with line bounds, is never empty and never above the per-call cap. |
| `ReplayPair.EffectiveReturnedIsMaximal` | scripts/session-stats/optimize_read_config.py:315-343 | A simulated result starts at the first line asked for and ends at the greatest line that was asked for, is in the file and keeps the result within the cap. |
| `ReplayPair.CostIsPerLine` | scripts/session-stats/optimize_read_config.py:346-354 | The cost of the shortfall is its number of lines at the verbatim rate plus one roundtrip per chunk. |
| `ReplayPair.ReplayObserved` | scripts/session-stats/optimize_read_config.py:385-402 | The loop of phase 1 computes the folded replay and the observed ranges. |
| `ReplayPair.FillShortfall` | scripts/session-stats/optimize_read_config.py:408-414 | Paying gap by gap and merging after each gap is paying the concatenated chunks. |
| `ReplayPair.PayGap` | scripts/session-stats/optimize_read_config.py:409-414 | One gap is paid in its chunks, each added to coverage, calls and total. |
| `ReplayPair.FindGaps` | scripts/session-stats/optimize_read_config.py:405-407 | The gaps of all needed ranges are collected in order. |
| `ReplayPair.GapsMeaning` | scripts/session-stats/optimize_read_config.py:405-407 | The gaps cover the needed lines that are not covered, and no others. |
| `ReplayCost.Phase1PaysExactly` | scripts/session-stats/optimize_read_config.py:389-402 | Phase 1 pays exactly for the calls that return a line no call before them returned, and its total is the sum of their prices: 200 tokens and the lines at the rate of the file, at 0.35 of it for a bare read of a file that is summarised. |
| `ReplayCost.CallCapExactly` | scripts/session-stats/optimize_read_config.py:357-362 | The cap of a call is the greatest number of lines within the line cap whose bytes are within the byte cap, or one line. |
| `ReplayCost.BytesAllowExactly` | scripts/session-stats/optimize_read_config.py:341 | The byte cap lets through the greatest number of lines whose bytes fit, but at least one. |
| `CapLaw.CapLawHoldsExactly` | scripts/session-stats/read_optimizer.py:430-442 | For settings with 1 <= page <= cap, as the candidate grid builds them, raising `max_lines` costs no group a further call if and only if there are no context lines, or the smaller cap is one and the larger at least twice the leading context. |
| `CapLaw.RaisingKeepsTheLaw` | scripts/session-stats/read_optimizer.py:346-394 | Where that condition holds, every group pays for no more calls under the larger cap. |
| `CapLaw.RaisingBreaksTheLaw` | scripts/session-stats/read_optimizer.py:231-278 | Where it fails, for any two caps, a group is constructed that pays for more calls under the larger cap. |
| `CapLaw.TrailingContextDefeats` | scripts/session-stats/read_optimizer.py:240-248 | Trailing context alone defeats a larger cap: the smaller one gets a line behind a request that the larger one skips, and so has answered a request that the larger one pays for again and again. |
| `CapLaw.LongContextDefeats` | scripts/session-stats/read_optimizer.py:231-248 | So does leading context that uses up the larger cap, which then never delivers what is asked for. |
| `CapLaw.ShortContextDefeats` | scripts/session-stats/read_optimizer.py:231-248 | And shorter leading context, by way of requests that sweep over the lines in between. |
| `CapLaw.DefeatCosts` | scripts/session-stats/read_optimizer.py:346-394 | A request that the smaller cap has answered and the larger cap never will, repeated often enough, makes the larger cap pay for more calls. |
| `CapLaw.CapOfOneStaysBehind` | scripts/session-stats/read_optimizer.py:346-394 | Against a cap of one, each call the larger cap has paid in excess is matched by a line only the smaller cap has fetched. |
| `CapLaw.PlaySees` | scripts/session-stats/read_optimizer.py:346-394 | A replay is decided by the set of lines delivered so far: coverage is that set, and a bounded call is paid exactly when its request is not in it. |
| `ReadOptimizer.RaisingTheCapNeverCostsCalls` | scripts/session-stats/read_optimizer.py:221-278 | Without context lines, raising `max_lines` never makes a group pay for more calls, whatever the page. |
| `ReadOptimizer.LargerCapSimulates` | scripts/session-stats/read_optimizer.py:346-394 | After every prefix of a group the coverage under the larger cap contains that under the smaller cap, and it has paid for no more calls. |
| `ReadOptimizer.LargerCapStaysAhead` | scripts/session-stats/read_optimizer.py:346-394 | One more call keeps the larger cap ahead, and what it pays for the smaller cap pays for too. |
| `ReadOptimizer.LargerCapPaysForASubset` | scripts/session-stats/read_optimizer.py:346-394 | Call by call, what the larger cap pays for the smaller cap pays for as well. |
| `ReadOptimizer.LargerCapDeliversMore` | scripts/session-stats/read_optimizer.py:231-248 | Without context lines the larger cap delivers a superset that starts at the same line and stays within the request. |
| `ReadOptimizer.DeliveredHoldsTheRequest` | scripts/session-stats/read_optimizer.py:231-248 | A result starts at most `leading` lines before the request, ends at most `trailing` lines behind it, stays within the cap, and holds the whole request unless the cap is used up. |
| `ReadOptimizer.SkippedIffAlreadyDelivered` | scripts/session-stats/read_optimizer.py:364-370 | A later bounded call is skipped if and only if every line it asks for was delivered by calls paid for earlier in its group. |
| `ReadOptimizer.CoverageIsWhatWasPaidFor` | scripts/session-stats/read_optimizer.py:346-394 | The coverage list is canonical and covers exactly what the paid bounded calls delivered. |
| `ReadOptimizer.EveryCallIsCounted` | scripts/session-stats/read_optimizer.py:346-394 | Within a group every call is paid bounded, paid unbounded or skipped, and the bounded ones are the paid ranges. |
| `ReadOptimizer.CoveredGroupPaysOnce` | scripts/session-stats/read_optimizer.py:395-407 | A group counted as covered by its first call pays exactly one bounded call, whose result is all its coverage. |
| `ReadOptimizer.TallyAccountsForEveryCall` | scripts/session-stats/read_optimizer.py:316-407 | Over all groups calls plus skipped is the number of calls, and each partial counter stays within its total. |
| `ReadOptimizer.ReplayGroup` | scripts/session-stats/read_optimizer.py:338-404 | The loop over one group computes its replay and whether the first call covers all later requests. |
| `ReadOptimizer.CheckFirst` | scripts/session-stats/read_optimizer.py:395-404 | The early-exit loop answers whether one delivered range holds every later bounded request. |
| `ReadOptimizer.ReplayGroups` | scripts/session-stats/read_optimizer.py:316-428 | The loop over groups adds up the counters of all group replays. |
| `ReadTally.TallyCountsExactly` | scripts/session-stats/read_optimizer.py:316-428 | Over all groups each of the seven counters of calls is the number of the calls it is about: paid is the first call of a group, a call without a range, and each call that asks for a line no paid call before it has brought. |
| `ReadTally.TallyCountsGroupsExactly` | scripts/session-stats/read_optimizer.py:395-407 | The two counters of groups are the number of groups that begin with a range or a start, and of those whose first call brings every line asked for later. |
| `ReadTally.CoveredExactly` | scripts/session-stats/read_optimizer.py:395-404 | A group counts as covered by its first call if and only if that names a range or a start and brings every line that a later call asks for. |
| `ReadTally.GroupPaysExactly` | scripts/session-stats/read_optimizer.py:346-394 | A replayed group pays for the calls that must be fetched and skips the others. |
| `ReadTally.DeliveredExactly` | scripts/session-stats/read_optimizer.py:221-248 | Which lines a call asks for and brings, line by line: leading context before line 2 and later, trailing context only behind an explicit range, cut off at the cap. |
| `SelectorReads.RegionsAreBoundedByGaps` | scripts/session-stats/analyze_selector_reads.py:189-209 | For any ranges, inverted ones too: the merged coverage has at least one region and at most one more than there are follow-ups classified as gaps or hidden, that is counted as inside although they begin a region of their own. |
| `SelectorReads.SeveralRegionsImplyAHop` | scripts/session-stats/analyze_selector_reads.py:126-141 | For any ranges, several regions imply a bounded follow-up that is classified gap-above or gap-below, or is hidden. |
| `SelectorReads.ClassifyMeaning` | scripts/session-stats/analyze_selector_reads.py:126-141 | A position is a gap exactly when the follow-up neither overlaps nor touches the first read, and inside exactly when it adds no line. |
| `SelectorReads.ClassifyExactly` | scripts/session-stats/analyze_selector_reads.py:126-141 | A follow-up that neither overlaps nor touches is a gap on the side of its lines; any other is forward, backward, both or inside by whether it has lines above and below the first read. |
| `SelectorReads.TouchingAddsNoRegion` | scripts/session-stats/analyze_selector_reads.py:111-123 | Adding a range that touches one already there never increases the number of regions. |
| `SelectorReads.CountsAreFaithful` | scripts/session-stats/analyze_selector_reads.py:207-214 | `covered` is the number of lines read, at least the size of the first read, and `extra_lines` the lines beyond it. |
| `SelectorReads.GapsAreFaithful` | scripts/session-stats/analyze_selector_reads.py:210-213 | `gap_lines` counts the lines of the bounding box nobody read, and covered plus gaps is the span. |
| `SelectorReads.OneRegionHasNoGap` | scripts/session-stats/analyze_selector_reads.py:210-213 | There are no unread lines in the bounding box exactly when one region is left. |
| `SelectorReads.Analyze` | scripts/session-stats/analyze_selector_reads.py:189-214 | For any ranges the per-group loop and arithmetic compute the figures of the merged coverage, with regions bounded by gaps and hidden follow-ups, and the position of the first follow-up with lines; unless a range is inverted these figures count lines read, lines beyond the first read and unread lines between. |
| `SelectorReads.GapsBoundRegionsExactly` | scripts/session-stats/analyze_selector_reads.py:126-209 | For every first read and every set of ranges: gaps alone bound the regions of all lists of follow-ups drawn from the set if and only if no range in it is hidden, that is inside although it starts beyond the first read, or at its start and ends before it. |
| `SelectorReads.HiddenBreaksTheBound` | scripts/session-stats/analyze_selector_reads.py:126-141 | A single hidden follow-up gives a second region without a gap. |
| `SelectorReads.InvertedRangeHidesARegion` | scripts/session-stats/analyze_selector_reads.py:126-141 | The input `100-5` after `10-20` is one: inside, and a second region. |
| `SelectorReads.SumSizes` | scripts/session-stats/analyze_selector_reads.py:207 | The sum of region lengths. |
| `Reservoir.EveryPositionIsEquallyLikely` | scripts/tool_io.py:118-134 | After n = size + extra items each position is in the sample in exactly size out of n of all possible draw vectors. |
| `Reservoir.EverySampleIsEquallyLikely` | scripts/tool_io.py:118-134 | Every set of `size` positions is the final sample in the same number of draw vectors, extra factorial. |
| `Reservoir.VectorCount` | scripts/tool_io.py:131 | There are (size+1)...(size+extra) draw vectors. |
| `Reservoir.SampleShape` | scripts/tool_io.py:125-134 | The sample always holds `size` different positions, all already seen. |
| `Reservoir.OneMoreDraw` | scripts/tool_io.py:131-134 | One more draw changes nothing or swaps one held position for the newest one. |
| `Reservoir.ReservoirSample.Add` | scripts/tool_io.py:125-134 | In-place `add` keeps the slots equal to the stream items at the sampled positions, and asks for a draw exactly when the reservoir is full. |
| `Reservoir.SampleReservoir` | scripts/tool_io.py:282-286 | The result is empty for size <= 0, the whole stream when it fits, and otherwise the items at the positions sampled by a valid draw vector. |
| `SessionAudit.PrunedBufferIsExact` | scripts/session-stats/audit.ts:495-501 | At any moment sorting and cutting the pruned buffer gives what sorting all results over the threshold and taking twelve gives, ties included, and the buffer never exceeds 24. |
| `SessionAudit.PushKeepsTop` | scripts/session-stats/audit.ts:495-501 | Pushing one result, with or without a prune, keeps the top of everything pushed. |
| `SessionAudit.InsertIntoTop` | scripts/session-stats/audit.ts:497-500 | Only the first k of a sorted list decide the first k after one more insertion. |
| `SessionAudit.ResidencyIsAccrual` | scripts/session-stats/audit.ts:506-511 | For every tool, tokens times later requests, summed after the scan, is the step-by-step accrual in which each request pays the results called before it; no logged result lacks an aggregate. |
| `SessionAudit.ResidencyIsOnlinePlusLateness` | scripts/session-stats/audit.ts:469-511 | The reported residency exceeds a pay-as-you-go accrual by exactly the lateness of results that arrive after further requests. |
| `SessionAudit.ScanIsConsistent` | scripts/session-stats/audit.ts:469-482 | No result is dated to a future request and every logged tool has an aggregate. |
| `SessionAudit.ScanFile` | scripts/session-stats/audit.ts:397-518 | The scan returns the twelve largest results as a stable sort would; a tool is listed exactly when it is called or a result is booked on it, with the number of its calls, the tokens booked on it, and its residency as accrual plus lateness. |
| `SessionAudit.ToolsAreCounted` | scripts/session-stats/audit.ts:419-482 | The aggregate of a tool counts its calls and adds up the tokens booked on it, for every prefix of the log. |
| `SessionAudit.FileScanner.OnAssistant` | scripts/session-stats/audit.ts:397-437 | An assistant line counts one request and registers its calls under that request. |
| `SessionAudit.FileScanner.OnToolResult` | scripts/session-stats/audit.ts:469-503 | A result is booked on the tool and request of its call, or of its own name and the current request, logged, and pushed if it is large. |
| `SessionAudit.FileScanner.Finish` | scripts/session-stats/audit.ts:506-518 | The two passes after the loop add the residencies and cut the buffer to its top. |
| `SessionBooking.LogIsExact` | scripts/session-stats/audit.ts:397-503 | Each result is logged, in order, on the tool and request of the last call with its id that no result has answered since, or on its own name and the number of assistant lines so far, with its tokens. |
| `SessionBooking.PendingIsOpen` | scripts/session-stats/audit.ts:436-502 | A call is pending exactly as long as no result with its id has come after it. |
| `SessionBooking.TwelveLargest` | scripts/session-stats/audit.ts:495-518 | What is reported are the first twelve of all results over 2000 tokens, the largest first and equal ones in the order of the file, and the buffer never holds more than 24. |
| `StableSort.SortMeaning` | scripts/session-stats/audit.ts:498 | Sorting with a weak order is a permutation into order that keeps ties in their original order. |
| `StableSort.StableSortIsUnique` | scripts/session-stats/audit.ts:498 | There is only one such result, so the model sort is what the engine returns. |
| `StableSort.SortOfOrdered` | scripts/fix-changelogs.ts:451-457 | What is already in order is left alone. |
| `GetOpts.RunIsOneShotParse` | crates/brush-builtins-vendored/src/getopts.rs:102-155 | From a fresh state, calling until failure reports exactly the option and OPTARG sequence of the one-shot parse, and leaves OPTIND just behind the arguments that parse takes up. Which arguments both turn away is said by `CallSucceedsExactly` and the two lemmas after it. |
| `GetOpts.CallSucceedsExactly` | crates/brush-builtins-vendored/src/getopts.rs:163-183 | A call succeeds if and only if the argument at OPTIND exists, begins with a minus sign, has at least two characters and is not the end marker of two minus signs. |
| `GetOpts.OperandStopsTheScan` | crates/brush-builtins-vendored/src/getopts.rs:175-195 | An argument that is empty, a single minus sign or begins otherwise makes the call fail with `?` and no OPTARG, OPTIND staying there; a parse that begins with it reads nothing. |
| `GetOpts.EndMarkerStopsTheScan` | crates/brush-builtins-vendored/src/getopts.rs:175-195 | The end marker makes the call fail with OPTIND behind it, and a parse takes it up and reads nothing. |
| `GetOpts.NothingLeftToScan` | crates/brush-builtins-vendored/src/getopts.rs:163-172 | Beyond the arguments the call fails with OPTIND just behind the last. |
| `GetOpts.OptindDefaultsToOne` | crates/brush-builtins-vendored/src/getopts.rs:119-138 | An unset OPTIND, and any number below one, works as one does. |
| `GetOpts.RunFromIsRemaining` | crates/brush-builtins-vendored/src/getopts.rs:102-155 | From any position, mid-cluster too, the remaining calls report exactly what remains of the parse. |
| `GetOpts.SuccessfulCall` | crates/brush-builtins-vendored/src/getopts.rs:163-270 | A successful call reports the first remaining item, strictly increases (OPTIND, char index) lexicographically and leaves the rest for later calls. |
| `GetOpts.FinalCall` | crates/brush-builtins-vendored/src/getopts.rs:169-195 | At the end, at an operand or at `--` the call fails with `?`, unsets OPTARG and sets OPTIND to the first operand. |
| `GetOpts.ResettingOptindRestartsExactly` | crates/brush-builtins-vendored/src/getopts.rs:119-135 | After OPTIND is set to the number of an option argument, the next call does what a first call there does, if and only if the stored OPTIND is another number, or the stored char index is unset, one or behind the argument, or the letter read and what follows it happen to look the same. |
| `GetOpts.NoticedResetRestarts` | crates/brush-builtins-vendored/src/getopts.rs:119-135 | A write that changes the stored number restarts the scan there, whatever stands there. |
| `GetOpts.LettersTellApart` | crates/brush-builtins-vendored/src/getopts.rs:163-270 | When two positions inside one argument give the same call. |
| `GetOpts.ResetInsideTheFirstClusterIsLost` | crates/brush-builtins-vendored/src/getopts.rs:119-121 | The failing input: with `ab` and `-ab`, OPTIND=1 after the first call is lost and the next call reports `b`. |
| `GetOpts.SuccessesAreBounded` | crates/brush-builtins-vendored/src/getopts.rs:163-270 | There are at most as many successes as letters in option-like arguments, and never more arguments are taken than exist. |
| `GetOpts.SpelledListParses` | crates/brush-builtins-vendored/src/getopts.rs:163-307 | Options written out one per argument, then `--`, parse back to the same items and stop exactly before the operands. |
| `GetOpts.SpellingOutKeepsTheMeaning` | crates/brush-builtins-vendored/src/getopts.rs:163-307 | Grouping letters, attaching an argument and leaving out `--` are only spelling: a parse without missing arguments and without `-` as a letter reads the same options and operands when spelled out. |
| `GetOpts.DashLetterCannotBeSpelledOut` | crates/brush-builtins-vendored/src/getopts.rs:182-195 | The exception is real: with `-` as an option letter `-a-` holds two options, but spelled out the second is the end marker. |
| `GetOpts.ParseOptionSpec` | crates/brush-builtins-vendored/src/getopts.rs:55-82 | The loop yields, for every letter, whether a colon directly follows its first occurrence, and silent mode exactly for a leading colon. |
| `GetOpts.Shell.Execute` | crates/brush-builtins-vendored/src/getopts.rs:102-155 | With a valid name the shell variables become those of one functional call on the given or positional arguments, whose success and failure the lemmas above decide from the argument at OPTIND; with an invalid name nothing changes. |
| `GetOpts.Shell.NextOption` | crates/brush-builtins-vendored/src/getopts.rs:163-270 | The step that keeps the char index in a shell variable agrees with the functional step on report, index, stored char index and status. |
| `GetOpts.Shell.ResolveArgument` | crates/brush-builtins-vendored/src/getopts.rs:275-307 | An argument is the rest of the word, else the next word, else a missing-argument report; the index moves on only in the second case. |
| `EditBoundary.BoundaryIsTheLongestCut` | scripts/session-stats/harmony_backtest.py:447-613 | No cut at a line boundary longer than `parsed_end` is accepted whole. |
| `EditBoundary.BoundaryIsACut` | scripts/session-stats/harmony_backtest.py:447-613 | `parsed_end` is the end of a line and the text up to it is accepted whole. |
| `EditBoundary.AnyLaterCutFindsTheSame` | scripts/session-stats/harmony_backtest.py:447-613 | Cutting the text at any line boundary from `parsed_end` on gives the same `parsed_end`. |
| `EditBoundary.CutTextParsesTheSame` | scripts/session-stats/harmony_backtest.py:447-613 | Parsed again, the kept prefix is consumed whole with the same targets, payload and deleted counts; only a dangling legacy insert is no longer counted as an op. |
| `EditBoundary.TailIsOneDanglingInsert` | scripts/session-stats/harmony_backtest.py:473-600 | Behind the boundary at most one insert without payload has been counted. |
| `EditBoundary.CuttingTwiceIsCuttingOnce` | scripts/session-stats/harmony_backtest.py:447-613 | Cutting at the boundary is idempotent. |
| `EditBoundary.StepKinds` | scripts/session-stats/harmony_backtest.py:473-600 | A line moves the boundary behind itself and owes nothing, opens one insert that owes its payload, or stops the parse. |
| `EditBoundary.ParseEditBoundary` | scripts/session-stats/harmony_backtest.py:447-613 | The loop with its breaks returns the boundary, reason, sections and line number of the whole run. |
| `EditBoundary.DeletedExactly` | scripts/session-stats/harmony_backtest.py:429-443 | A range a-b deletes b - a + 1 lines, but at least one, and a single line number deletes one. |
| `EditScript.AcceptedExactlyScripts` | scripts/session-stats/harmony_backtest.py:447-613 | For every text of genuine lines: each of its lines is accepted if and only if the text is a script, a row of blank lines, patch markers, headers and ops with their payload in the places the grammar allows. |
| `EditScript.BoundaryIsTheLongestScript` | scripts/session-stats/harmony_backtest.py:447-613 | `parsed_end` is the end of the longest prefix of lines that is a script. |
| `EditScript.VerdictIsExact` | scripts/session-stats/harmony_backtest.py:596-612 | For any text: the result is fine if and only if a header is among the lines kept, and a missing payload is reported if and only if the line right behind them is a legacy insert in a legacy section. |
| `EditScript.ScriptsParse` | scripts/session-stats/harmony_backtest.py:447-613 | A script with a header, in any mix of the three formats, is accepted to its last line, with one section per header that counts its ops, its payload lines (inline ones too) and the lines its ranges delete. |
| `EditScript.ReadOp` | scripts/session-stats/harmony_backtest.py:520-598 | One op with its payload adds one op, its payload and its deleted lines to the current section, leaves nothing owed, and takes in further lines unless it deletes. |
| `EditScript.ReadPayload` | scripts/session-stats/harmony_backtest.py:520-567 | Payload lines are counted one by one until the next op or header. |
| `WorkerPool.PoolIsSequentialMap` | scripts/rewrite-system-prompt.ts:235-252 | For every interleaving that ends, the results are the sequential map and each index was started. |
| `WorkerPool.EachIndexIsCalledOnce` | scripts/rewrite-system-prompt.ts:235-252 | At every moment of every interleaving the started indices are 0, 1, 2, ... without repetition, and no more than the limit are in flight. |
| `WorkerPool.StepKeepsSound` | scripts/rewrite-system-prompt.ts:240-249 | Each atomic step keeps: handed-out indices are in flight or have their own result, and no two workers hold the same index. |
| `WorkerPool.RunKeepsSound` | scripts/rewrite-system-prompt.ts:240-249 | So does every run of steps. |
| `WorkerPool.SchedulesAreBounded` | scripts/rewrite-system-prompt.ts:240-249 | No schedule of effective steps is longer than two per item and two per worker. |
| `WorkerPool.AuditPoolIsSequentialMapExactly` | scripts/session-stats/audit.ts:619-630 | The variant without a lower bound on its width, whose counter stops at the number of items: every interleaving that ends holds the sequential map if and only if the limit is at least one or there are no items. Both callers pass a limit of at least one. |
| `WorkerPool.AuditRunIsCapped` | scripts/session-stats/audit.ts:619-630 | Step by step its runs are those of the other pool with the counter cut off. |
| `PromptText.Peel` | scripts/rewrite-system-prompt.ts:102-124 | Prefix, core and suffix always make up the line again, cut where the leading and trailing block tokens and one list marker end. |
| `PromptText.CoreIsPeeled` | scripts/rewrite-system-prompt.ts:102-124 | The core ends in no block token, and before its list marker it starts with none. |
| `PromptText.PreservesTokens` | scripts/rewrite-system-prompt.ts:158-165 | The check holds exactly when every token occurs at least as often in the text as it is listed. |
| `PromptText.CountingFromLeftIsMaximal` | scripts/rewrite-system-prompt.ts:162 | Counting by splitting finds at least as many occurrences as any disjoint choice of them. |
| `PromptText.CountIsReached` | scripts/rewrite-system-prompt.ts:162 | And that many do stand in the text side by side. |
| `PromptText.UnchangedTextIsAccepted` | scripts/rewrite-system-prompt.ts:158-165 | A text is never rejected against the tokens matched in itself. |
| `PromptRewrite.BlockSkipMask` | scripts/rewrite-system-prompt.ts:175-207 | The in-place mask marks exactly closed frontmatter at the top, fences and the lines inside them. |
| `PromptRewrite.PlanRewrite` | scripts/rewrite-system-prompt.ts:210-224 | The loop plans the prose lines. |
| `PromptRewrite.PlanMeaning` | scripts/rewrite-system-prompt.ts:210-224 | Planned entries are in line order and each is a prose line split into its parts. |
| `PromptRewrite.ProseIsPlanned` | scripts/rewrite-system-prompt.ts:210-224 | No prose line is left out of the plan. |
| `PromptRewrite.EntryMakesUpLine` | scripts/rewrite-system-prompt.ts:210-224 | The parts of an entry make up its line. |
| `PromptRewrite.Chunk` | scripts/rewrite-system-prompt.ts:227-232 | The groups concatenate to the list; all but the last have the given size, none is empty. |
| `PromptRewrite.Rewrite` | scripts/rewrite-system-prompt.ts:394-453 | The retry loop ends with, for every item, its first answer over all attempts that keeps its tokens, and pending exactly those without one. |
| `PromptRewrite.AcceptReplies` | scripts/rewrite-system-prompt.ts:431-440 | One attempt accepts exactly the good answers of pending items and keeps the others pending in order. |
| `PromptRewrite.AcceptedTextKeepsTokens` | scripts/rewrite-system-prompt.ts:431-440 | Every text in the result belongs to an item that was asked for and keeps all its fragile tokens. |
| `PromptRewrite.ApplyMeaning` | scripts/rewrite-system-prompt.ts:308-317 | In the list of lines, places without an entry stay as they are; an entry's place holds its prefix, its answered or original core, and its suffix. |
| `PromptRewrite.ChangedCountsDifferences` | scripts/rewrite-system-prompt.ts:308-317 | `changed` is the number of places of the list that differ, and changed plus fallback is at most the number of entries. |
| `PromptRewrite.Reassemble` | scripts/rewrite-system-prompt.ts:308-317 | The nested loops that overwrite `lines` compute that list and its counters. |
| `PromptRewrite.ApplyGroup` | scripts/rewrite-system-prompt.ts:311-316 | One group overwrites the places of its own entries only. |
| `PromptRewrite.OutputIsSafe` | scripts/rewrite-system-prompt.ts:276-329 | Whatever the model answers, every place of the list of lines is untouched, or is a prose line between its own prefix and suffix with a text that keeps every fragile token. |
| `PromptLines.ProseExactly` | scripts/rewrite-system-prompt.ts:210-224 | A line is sent if and only if it is not protected, not verbatim and has a character other than white space left when peeled; its entry has its number, its parts and the tokens of its core. |
| `PromptLines.PeelsExactly` | scripts/rewrite-system-prompt.ts:102-124 | The suffix is the longest block token at the end of the line, taken off again and again until there is none; the prefix the same from the start, and then the longest list marker. A token is two opening braces, text without a closing one and two closing braces, with white space around. |
| `PromptLines.SkippedExactly` | scripts/rewrite-system-prompt.ts:175-207 | Protected are the lines of a closed frontmatter, each line that opens a fenced block, and the lines behind it up to and with the next one that begins with the same fence, or to the end; a line inside a block opens none. |
| `PromptLines.OpenFenceExactly` | scripts/rewrite-system-prompt.ts:192-205 | Which fence is open before a line: that of a line before it that opened a block, with no line of the same fence between. |
| `PromptLines.BodyStartExactly` | scripts/rewrite-system-prompt.ts:175-191 | The frontmatter ends with the first rule of three minus signs behind one on the first line, and without a second one there is none. |
| `PromptLines.TrimCuts` | scripts/rewrite-system-prompt.ts:175-207 | Trimming takes off the white space at both ends and nothing else. |
| `PromptRewrite.EveryScheduleGivesTheSameReplies` | scripts/rewrite-system-prompt.ts:276-306 | Every interleaving of the pool leaves the same replies. |
| `PromptRewrite.EveryScheduleGivesSafeLines` | scripts/rewrite-system-prompt.ts:276-329 | For every interleaving of the pool that ends, the list put together from its results has only safe places. |
| `PromptRewrite.CallModel` | scripts/rewrite-system-prompt.ts:286-306 | The calls in item order give those replies; a call that throws gives none. |
| `PromptAnswers.RewriteAll` | scripts/rewrite-system-prompt.ts:276-329 | Each of the first `limit` prose lines, or all of them without a limit, becomes its first good answer between its own ends, or stays if it gets none; every other line stays; `changed` counts the places that differ and `fallback` the attempted lines without an answer. |
| `PromptAnswers.AnswersReachTheList` | scripts/rewrite-system-prompt.ts:307-318 | However the groups are sent, the list put together has at each line its answer or what was there, and falls back for exactly the attempted lines without an answer. |
| `PromptAnswers.FirstGoodExactly` | scripts/rewrite-system-prompt.ts:394-453 | The answer taken for an item is that of the first attempt that answers its number with a text that keeps its tokens, and there is none exactly if no attempt does. |
| `PromptAnswers.PlannedAt` | scripts/rewrite-system-prompt.ts:210-234 | A prose line is planned under its number among the prose lines, which decides its group. |
| `PromptAnswers.TextOfEntry` | scripts/rewrite-system-prompt.ts:285-303 | The reply of its group holds for an entry exactly the first good answer to it, or nothing if the call fails. |
| `PromptFile.FileKeepsItsLinesExactly` | scripts/rewrite-system-prompt.ts:210-320 | Split again, the file written has as many lines as the file read, each safe at its own place, if and only if no accepted text holds a line break. |
| `PromptFile.EveryScheduleKeepsLinesExactly` | scripts/rewrite-system-prompt.ts:276-320 | The same for every interleaving of the pool that ends. |
| `PromptFile.RewriteFile` | scripts/rewrite-system-prompt.ts:276-329 | From content to content: the output lines are those of the rewrite, each attempted prose line with its answer; without a line break in them the file keeps its lines and `changed` counts those that differ, with one it has more lines than before. |
| `PromptFile.AcceptedBreakSplitsTheLine` | scripts/rewrite-system-prompt.ts:308-320 | The failing answer: for any prose line without fragile tokens an answer with two line breaks around `---` is accepted, and the one line becomes three with a rule in the middle. |
| `PromptFile.SplitInvertsJoinExactly` | scripts/rewrite-system-prompt.ts:211-320 | Joined lines split back into themselves exactly when none holds a line break; otherwise there are more. |
| `PromptFile.JoinInvertsSplit` | scripts/rewrite-system-prompt.ts:211-320 | A file whose lines are left alone is written back as it was. |
| `ChangelogText.TrimUnique` | scripts/fix-changelogs.ts:203-209 | Trimming is the only way to drop blank lines at both ends and be left with none there. |
| `ChangelogText.TrimBlankLines` | scripts/fix-changelogs.ts:203-209 | The two loops trim both ends. |
| `ChangelogText.SplitCuts` | scripts/fix-changelogs.ts:235-265 | Splitting a body into bullets loses no line and cuts exactly before each bullet. |
| `ChangelogText.ParseItems` | scripts/fix-changelogs.ts:235-265 | The nested loops return, for every bullet, its first and last line number and its text without blank ends. |
| `ChangelogLists.SplitUnique` | scripts/fix-changelogs.ts:235-265 | There is only one way to cut lines before their bullets. |
| `ChangelogLists.CompareTellsLists` | scripts/fix-changelogs.ts:364-377 | The comparison of non-blank lines succeeds exactly when the body starts with a bullet, and then the flattened bullets are the body without blank lines before bullets. |
| `ChangelogLists.CompactAdjacentListSpacing` | scripts/fix-changelogs.ts:360-378 | A list loses the blank lines between its bullets; any other text only those around it. |
| `ChangelogLists.CompactSettles` | scripts/fix-changelogs.ts:360-378 | Tightening gives a body with nothing left to tighten, or nothing when there is no text. |
| `ChangelogLists.CompactKeepsExactlySettled` | scripts/fix-changelogs.ts:360-378 | A trimmed body is left alone exactly when it has no blank line before a bullet or is not a list. |
| `ChangelogItems.KeysOfCompact` | scripts/fix-changelogs.ts:360-378 | Tightening changes no bullet. |
| `ChangelogItems.AppendSubsectionLines` | scripts/fix-changelogs.ts:219-233 | Joins two bodies, with a blank line between unless bullet meets bullet. |
| `ChangelogItems.AppendSettles` | scripts/fix-changelogs.ts:219-233 | Joining two settled bodies leaves a settled one exactly when the first is no list, or bullet meets bullet, or the second starts with text that has no gap. |
| `ChangelogItems.AppendKeepsGap` | scripts/fix-changelogs.ts:219-233 | A gap once made stays through later joins. |
| `ChangelogItems.AppendItem` | scripts/fix-changelogs.ts:219-233 | Joining a single bullet adds it as the last and changes no other. |
| `ChangelogRemoval.RemovalIsExact` | scripts/fix-changelogs.ts:267-275 | Where line numbers rise, filtering by the number ranges of picked bullets removes those bullets whole and nothing else. |
| `ChangelogRemoval.LineRangeSet` | scripts/fix-changelogs.ts:267-275 | The set holds exactly the numbers within the ranges. |
| `ChangelogRemoval.TakeItems` | scripts/fix-changelogs.ts:550-554 | Parsing, filtering and removing returns the picked bullets and the body without them. |
| `ChangelogRemoval.RestSplits` | scripts/fix-changelogs.ts:552-554 | The bullets that remain are those not picked, unchanged. |
| `ChangelogRemoval.RemovingTwiceIsRemovingOnce` | scripts/fix-changelogs.ts:550-554 | A second removal with the same choice finds nothing. |
| `ChangelogDocument.ParseChangelog` | scripts/fix-changelogs.ts:138-167 | The nested loops give each line to the last container opened before it. |
| `ChangelogDocument.ParseReleaseSection` | scripts/fix-changelogs.ts:169-201 | The same within one release section. |
| `ChangelogDocument.RenderChangelog` | scripts/fix-changelogs.ts:506-533 | The rendering loops write the functional rendering, whose layout `ChangelogLayout.RenderIsSpaced` states. |
| `ChangelogDocument.CutIsOneLine` | scripts/fix-changelogs.ts:529-531 | The loop that pops blank lines pops exactly one. |
| `ChangelogDocument.ParseInvertsRender` | scripts/fix-changelogs.ts:138-201 | Reading what was written from a normal document gives it back, up to line numbers and blank ends. |
| `ChangelogDocument.RenderIsInjective` | scripts/fix-changelogs.ts:506-533 | Different normal documents are written differently. |
| `ChangelogNormal.NormalizeSection` | scripts/fix-changelogs.ts:381-421 | The section is put into normal form; removed headings are those without text, and merged plus removed headings account for every heading that is gone. |
| `ChangelogNormal.MergeIsDistinct` | scripts/fix-changelogs.ts:391-412 | Whatever the input, no two subsections of the result share a title. |
| `ChangelogNormal.MergeSettles` | scripts/fix-changelogs.ts:391-412 | The merged section has nothing left to tighten exactly when every merge of a duplicate heading was clean. |
| `ChangelogNormal.NormalizeForms` | scripts/fix-changelogs.ts:381-421 | One normalisation gives distinct, non-empty, trimmed subsections, sorted in the unreleased section, and nothing left to tighten exactly when the merges were clean. |
| `ChangelogNormal.NormalizeKeepsExactlySettled` | scripts/fix-changelogs.ts:381-421 | A section in that form is left alone exactly when nothing is left to tighten. |
| `ChangelogNormal.NormalizeKeepsText` | scripts/fix-changelogs.ts:381-421 | Normalising keeps the number of occurrences of every non-blank line. |
| `ChangelogOrder.CompareVersionTitlesDesc` | scripts/fix-changelogs.ts:440-449 | The first difference of the version parts decides, a missing part counting as zero; `GreaterComesFirst` says in which direction. |
| `ChangelogOrder.GreaterComesFirst` | scripts/fix-changelogs.ts:440-449 | A title comes before another if and only if it is greater at some part and equal at all parts before, a missing part being zero. |
| `ChangelogOrder.NewerIsWeakOrder` | scripts/fix-changelogs.ts:440-449 | On numeric titles the comparator is a weak order. |
| `ChangelogOrder.SortReleaseSections` | scripts/fix-changelogs.ts:451-457 | Unreleased sections first, then the others by the stable sort. |
| `ChangelogOrder.SortSectionsOrders` | scripts/fix-changelogs.ts:451-457 | Sorting permutes the sections into release order. |
| `ChangelogOrder.SortKeepsTies` | scripts/fix-changelogs.ts:451-457 | Unreleased sections stay in the order they had, and so do releases of equal version. |
| `ChangelogOrder.SortKeepsOrder` | scripts/fix-changelogs.ts:451-457 | Sections in release order are left alone. |
| `ChangelogOrder.SortingFindsUnreleased` | scripts/fix-changelogs.ts:451-457 | The first unreleased section is moved to the top. |
| `ChangelogPromotion.CollectReleasedItemKeys` | scripts/fix-changelogs.ts:290-302 | The keys of all bullets of released sections, and only those. |
| `ChangelogPromotion.DropFrom` | scripts/fix-changelogs.ts:321-329 | Exactly the bullets with a released key leave the section, and they are counted. |
| `ChangelogPromotion.SubsectionHasItem` | scripts/fix-changelogs.ts:281-288 | Whether some bullet of the body has this text. |
| `ChangelogPromotion.PromoteItems` | scripts/fix-changelogs.ts:556-563 | The bullets not yet there are appended to the last subsection of that title, which is created if missing. |
| `ChangelogPromotion.PromoteFrom` | scripts/fix-changelogs.ts:549-564 | Promotable bullets leave each subsection of a released section and arrive in the target, in order, and are counted. |
| `ChangelogFixer.Changelog.DropUnreleasedDuplicatesOfReleased` | scripts/fix-changelogs.ts:311-330 | Only the first unreleased section changes: it loses exactly its bullets with a released or historical key. |
| `ChangelogFixer.Changelog.PromoteAddedItems` | scripts/fix-changelogs.ts:546-565 | The loop over a list that it may itself extend at the front ends with the sections of the one-pass promotion, and counts each promoted bullet once. |
| `ChangelogFixer.Changelog.Visit` | scripts/fix-changelogs.ts:549-564 | One visit of a section moves its promotable bullets and creates the unreleased section on top if needed. |
| `ChangelogFixer.RevisitStep` | scripts/fix-changelogs.ts:332-344 | After the unreleased section has been put in front, the iteration returns to the section it was at, and that second visit changes nothing. |
| `ChangelogFixer.VisitStep` | scripts/fix-changelogs.ts:546-565 | Visiting the next section, wherever it has been pushed to, moves the one-pass promotion on by one section. |
| `ChangelogFixer.SkipStep` | scripts/fix-changelogs.ts:547 | Passing over an unreleased section changes nothing. |
| `ChangelogFixer.Changelog.NormalizeSections` | scripts/fix-changelogs.ts:567-573 | All sections are normalised in place; the removed headings are exactly those without text, and the merged ones all others that are gone. |
| `ChangelogFixer.Changelog.SortReleases` | scripts/fix-changelogs.ts:575 | The sections are replaced by their stable sort. |
| `ChangelogConservation.RestKeepsText` | scripts/fix-changelogs.ts:325-326 | Removed bullets and what is left make up the body, line for line. |
| `ChangelogConservation.DropKeepsText` | scripts/fix-changelogs.ts:311-330 | Every line is still there or was in a dropped bullet. |
| `ChangelogConservation.PromoteKeepsText` | scripts/fix-changelogs.ts:546-565 | Every line is still there or was in a promoted bullet that the target already had. |
| `ChangelogConservation.PromoteSectionsKeepText` | scripts/fix-changelogs.ts:546-565 | What the released sections lose the unreleased one gains, but for repetitions. |
| `ChangelogLaws.FixChangelogContent` | scripts/fix-changelogs.ts:535-584 | The passes over the document object write the rendering of the fixed document and report how many items were dropped and promoted, how many headings without text were removed and how many others were merged away; `ChangelogOutput` says in which order things stand there. |
| `ChangelogLaws.FixedIsNormal` | scripts/fix-changelogs.ts:535-584 | Every output is a normal document: trimmed parts, no empty subsection, no stray heading. |
| `ChangelogLaws.TextIsConserved` | scripts/fix-changelogs.ts:535-584 | For every line of text: its occurrences in the output, in dropped bullets and in promoted bullets already present add up to its occurrences in the input. |
| `ChangelogLaws.RenderKeepsText` | scripts/fix-changelogs.ts:506-533 | Writing a normal document writes each line of text as often as the document has it. |
| `ChangelogLaws.ParseRises` | scripts/fix-changelogs.ts:138-201 | After parsing, line numbers rise within every subsection, which is what removal by number needs. |
| `ChangelogLayout.RenderIsSpaced` | scripts/fix-changelogs.ts:506-533 | Every document is written as a row of blocks, that is the text on top, release headings, their texts, headings with text and that text, with exactly one blank line between any two of them and none at the ends. |
| `ChangelogMoves.DropsExactly` | scripts/fix-changelogs.ts:311-330 | The first unreleased section loses exactly its bullets that a release or the history has, keeping the others in order and the text before them, and no other section changes. |
| `ChangelogMoves.ReleasedExactly` | scripts/fix-changelogs.ts:290-302 | The collected keys are those of the bullets that some release has under some heading. |
| `ChangelogMoves.KeepsExactly` | scripts/fix-changelogs.ts:546-554 | A release keeps exactly the bullets that do not start on a promotable line, in order, with the text before them; unreleased sections lose none. |
| `ChangelogMoves.PromotesIntoFirst` | scripts/fix-changelogs.ts:546-565 | With an unreleased section the first one takes in what arrives: the last heading of each title gets the promotable bullets that releases have under that title, in the order of the file and each only if it is not there yet; a heading is made for titles without one, and other headings stay. |
| `ChangelogMoves.PromotesOnTop` | scripts/fix-changelogs.ts:332-344 | Without an unreleased section one is made on top, with its standard heading and what arrives, if anything does. |
| `ChangelogMoves.ArrivalsAreCounted` | scripts/fix-changelogs.ts:556-563 | The number of promoted bullets reported is the number of bullets that arrive, whether they were there or not. |
| `ChangelogMoves.DropsAreCounted` | scripts/fix-changelogs.ts:321-330 | The number of dropped bullets reported is the number by which the first unreleased section has fewer. |
| `ChangelogMoves.LinesKeepTheirNumber` | scripts/fix-changelogs.ts:138-201 | Every line of the document read carries its number in the file, counted from one. |
| `ChangelogOutput.ReleasesRunFromNewToOld` | scripts/fix-changelogs.ts:451-457 | In every output unreleased sections come first, and no release stands before one that is greater at the first part where they differ. |
| `ChangelogOutput.EqualVersionsKeepTheirOrder` | scripts/fix-changelogs.ts:451-457 | In every output unreleased sections stand in the order of the file, and so do releases of equal version. |
| `ChangelogOutput.OutputIsLaidOut` | scripts/fix-changelogs.ts:381-421 | Every section of the output keeps its heading line; its subsections are those with text, in an unreleased section by the rank of their titles and otherwise in the order of their first text. |
| `ChangelogOutput.NoSectionIsLost` | scripts/fix-changelogs.ts:535-584 | The output has as many sections as the prepared document, and each of them is there. |
| `ChangelogOutput.NormalizedLayout` | scripts/fix-changelogs.ts:381-421 | The same for one section: heading and title stay, the text before the first heading is trimmed, and headings with text are in that order. |
| `ChangelogOutput.MergeKeepsFirstOrder` | scripts/fix-changelogs.ts:391-412 | Merging leaves each title with text once, where its first text was. |
| `ChangelogOutput.BlankHeadingsExactly` | scripts/fix-changelogs.ts:391-412 | The removed headings reported are exactly those without any line of text below them. |
| `ChangelogAgain.FixingTwiceIsFixingOnceExactly` | scripts/fix-changelogs.ts:535-584 | Fixing the output once more changes nothing if and only if, in the document before normalising, every duplicate heading joins without a gap, no promoted bullet still stands in a release or in the history, and no bullet becomes equal to one there by taking in the text of a later duplicate heading. |
| `ChangelogAgain.CollisionsHaveACause` | scripts/fix-changelogs.ts:311-421 | Every bullet that merging leaves both in the unreleased section and in a release or the history was promoted, or has grown on one side. |
| `ChangelogAgain.GapsAndEarlyPromotionsNeedAnotherPass` | scripts/fix-changelogs.ts:535-584 | For a file without text behind a duplicate heading, one pass is final if and only if every duplicate heading joins without a gap and no bullet that starts on a promotable line of a release also starts on another line of a release, or is in the history. |
| `ChangelogAgain.StaysReleasedExactly` | scripts/fix-changelogs.ts:546-565 | After promotion the releases have exactly the bullets that some release of the file has on a line that is not promotable. |
| `ChangelogAgain.OnlyGapsNeedAnotherPass` | scripts/fix-changelogs.ts:535-584 | Without promotable lines and without text behind a duplicate heading, one pass is final if and only if every duplicate heading joins without a gap. |
| `ChangelogGrowth.MergedKeys` | scripts/fix-changelogs.ts:391-412 | The bullets under a merged heading are those of its bodies in order, where a body that starts with text makes the last bullet before it grow. |
| `ChangelogGrowth.EachBulletStands` | scripts/fix-changelogs.ts:391-412 | Every bullet of every body is among the bullets under its title, and takes in exactly the text that later bodies of that title have before the next bullet; only the last bullet of a body takes in anything. |
| `ChangelogGrowth.KeysOfAppend` | scripts/fix-changelogs.ts:219-233 | Joining two bodies keeps their bullets in order, except that text at the start of the second becomes part of the last bullet of the first. |
| `ChangelogLate.PromotedBulletIsDroppedAgain` | scripts/fix-changelogs.ts:311-330 | A failing input: with the same bullet in two releases, promoted out of the newer one, the second pass drops it again. |
| `ChangelogLate.GrownBulletIsDroppedLate` | scripts/fix-changelogs.ts:391-412 | A failing input: an unreleased bullet takes in the text behind the same heading, is then the released bullet, and is dropped by the second pass. |
| `ChangelogIdempotence.AgainChangesNothingExactly` | scripts/fix-changelogs.ts:535-584 | Once more changes nothing exactly when all merges were clean and the next pass finds nothing to drop. |
| `ChangelogIdempotence.FixedIsSettled` | scripts/fix-changelogs.ts:381-421 | The fixed document has nothing left to tighten exactly when all merges of the prepared document were clean. |
| `ChangelogIdempotence.SecondPass` | scripts/fix-changelogs.ts:535-584 | When nothing is left to drop, the second pass amounts to normalising and sorting once more. |
| `ChangelogIdempotence.DroppingChangesTheFile` | scripts/fix-changelogs.ts:311-330 | A pass that drops a bullet changes the file. |
| `ChangelogIdempotence.PromoteNothing` | scripts/fix-changelogs.ts:546-565 | Without promotable lines the promotion changes nothing. |
| `ChangelogPasses.DistinctHeadingsNeedOnePass` | scripts/fix-changelogs.ts:535-584 | On a document whose sections have distinct `###` titles, the fixer without promotable lines is idempotent, whatever the historical keys. |
| `ChangelogPasses.OutputIsDistinct` | scripts/fix-changelogs.ts:391-412 | Every output has distinct `###` titles within each section. |
| `ChangelogPasses.ThreePassesAreTwo` | scripts/fix-changelogs.ts:535-584 | For every input, promotable lines and historical keys, a third pass equals the second. |
| `ChangelogPasses.OnePassMayNotBeEnough` | scripts/fix-changelogs.ts:391-412 | On a bullet that runs on, followed by the same heading again, the second pass does change the file. |
| `ChangelogPasses.LeftAfterDropping` | scripts/fix-changelogs.ts:311-330 | A bullet that dropping leaves in the first unreleased section is in no released section and not historical. |
| `ChangelogPasses.NormalizeKeys` | scripts/fix-changelogs.ts:381-421 | With distinct headings normalising makes no new bullets. |
| `ChangelogArrival.PromotedBulletsArrive` | scripts/fix-changelogs.ts:546-573 | Every promotable bullet of a released section is, in the output, a bullet under the same title of the unreleased section, which comes first: its own lines, followed by exactly the text it takes in from later bodies of that title. |
| `ChangelogArrival.EveryBulletEndsUp` | scripts/fix-changelogs.ts:381-421 | Normalising keeps every bullet of a section under its title, with exactly the text it takes in. |
| `ChangelogArrival.PromotedBulletsLeave` | scripts/fix-changelogs.ts:546-565 | Before normalising, no release of the document has a promotable bullet any more. |
| `ChangelogArrival.PromoteSectionsHas` | scripts/fix-changelogs.ts:546-565 | The target of the promotion has every promoted bullet as a bullet of its own under its title. |
| `DiffPairing.ReadDiff` | scripts/fix-changelogs.ts:598-666 | The line loop collects the additions with their new-file numbers, the removals and the hunks that add a release heading. |
| `DiffPairing.PairUp` | scripts/fix-changelogs.ts:668-686 | Each addition in turn takes the first free removal of its path and text: exactly the first min(additions, removals) of both sides end up paired. |
| `DiffPairing.PairOne` | scripts/fix-changelogs.ts:679-685 | One addition finds a removal exactly when fewer earlier additions than removals have its text. |
| `DiffPairing.GroupRemovals` | scripts/fix-changelogs.ts:668-677 | The map lists the removals of every path and text in order. |
| `DiffPairing.PairingIsExact` | scripts/fix-changelogs.ts:668-686 | Per path and trimmed text, min(additions, removals) of both sides are paired; `DiffCounts` says so with the fields of the records. |
| `DiffCounts.AsManyAsTheRarerSide` | scripts/fix-changelogs.ts:668-686 | For every path and every text, as many additions and as many removals with them are paired as there are of the rarer side. |
| `DiffCounts.PairedExactly` | scripts/fix-changelogs.ts:679-685 | An addition is paired if and only if fewer earlier additions than removals have its path and text. |
| `DiffCounts.RemovalPairedExactly` | scripts/fix-changelogs.ts:679-685 | A removal is paired if and only if fewer earlier removals than additions have its path and text. |
| `DiffCounts.NoPartnerNoPair` | scripts/fix-changelogs.ts:679-685 | Whatever is paired has a removal of the same path and the same text, so nothing is paired across files. |
| `DiffCounts.NewExactly` | scripts/fix-changelogs.ts:695-714 | An addition is new if and only if it has no partner, its hunk adds no release heading, and at least as many earlier additions of the hunk lack a partner as removals of the hunk do. |
| `DiffPairing.CountUnpairedRemovals` | scripts/fix-changelogs.ts:688-693 | The budget of every hunk is its number of unpaired removals. |
| `DiffPairing.SelectNew` | scripts/fix-changelogs.ts:695-714 | The numbers collected per path are those of unpaired additions outside heading hunks, once the budget of their hunk is used up. |
| `DiffPairing.NewLinesMeaning` | scripts/fix-changelogs.ts:695-714 | The collected numbers are exactly the lines of the new additions of the file. |
| `DiffPairing.CollectPromotableAddedItemLines` | scripts/fix-changelogs.ts:598-714 | Reading, pairing and selecting together return, for the file, exactly the line numbers of its new additions, which `DiffCounts.NewExactly` decides by path, text and hunk. |
| `DiffPairing.HunkYieldsItsSurplus` | scripts/fix-changelogs.ts:695-714 | A hunk yields max(0, unpaired additions - unpaired removals) lines, and none if it adds a release heading. |
| `DiffNumbers.DiffReadsBack` | scripts/fix-changelogs.ts:598-666 | Reading the text of a structured diff finds its additions, removals and release headings, each under its own file and hunk. |
| `DiffNumbers.AdditionsIndexTheNewFile` | scripts/fix-changelogs.ts:606-666 | On a well-formed diff every addition carries the line number at which the new file has that bullet, and numbers of one file are distinct. |
| `DiffNumbers.CollectedNumbersAreExact` | scripts/fix-changelogs.ts:598-714 | On a well-formed diff every collected number is the line of a bullet in the new file, and the set has as many numbers as there are new bullets. |

## Left out

- File system, SQLite, git, JSON decoding, tokenizers, HTTP and process spawning: their results are inputs, abstract maps or sequences.
- Regular expressions and Unicode: lines come classified, except in `getopts` and in the peeling of prompt lines, which work on characters. `isVerbatimLine` and the fragile-token pattern are parameters of the plan.
- `sync.py`: one session file's rows; row ids, token counts and the multi-process driver are not modelled. Appends are whole lines; a file that is rewritten or loses lines is not covered, since header columns survive through COALESCE. One sync at a time: two processes that sync the same file at once are not modelled. An upgrade changes rows, not the parsing of the header line.
- `sync.py`: the parsing of edit inputs into sections (`parse_hashline_input`) and the duplicate-anchor report are inputs to the index.
- `optimize_read_config.py`: costs are real numbers and the byte cap acts as a number of lines per call; the sweep over configurations and its plots are left out.
- `read_optimizer.py`: token costs and the truncation and byte-limit counters are left out; explicit calls carry both bounds and open calls a start, as the selector parser produces them.
- CapLaw.CapLawHoldsExactly: is about the number of calls of one group; token costs under different caps are not compared.
- `fix-changelogs.ts`: sections and subsections are values, so sharing between objects is not captured: the loop that creates the unreleased section while it walks the list keeps places instead of references. The git side (baselines, recovery from history, `rebuildReleasedSectionsFromHistory`) is left out; historical keys are an input.
- `fix-changelogs.ts`: release titles are `Unreleased` or lists of numbers; on other titles the comparator returns NaN and the order is up to the engine.
- ChangelogPasses.DistinctHeadingsNeedOnePass: is stated without promotable lines, because a promoted bullet may still stand in another release and is then dropped by the next pass; `FixingTwiceIsFixingOnceExactly` covers the general case.
- ChangelogAgain.GapsAndEarlyPromotionsNeedAnotherPass: speaks of the file as read, but for the gaps, whose condition is on the document before normalising; with text behind a duplicate heading only `FixingTwiceIsFixingOnceExactly` applies.
- DiffNumbers.CollectedNumbersAreExact: takes a well-formed diff, in which every file appears once and no added line reads like a `+++ b/` header.
- `getopts.rs`: messages on standard error and OPTERR are left out; argument lists stay below 2^31 - 2 entries, as OPTIND is read back as a 32-bit number.
- GetOpts.ResettingOptindRestartsExactly: is about an OPTIND that names an option argument; elsewhere `NoticedResetRestarts` covers a write that changes the stored number.
- `harmony_backtest.py`: the fallback for texts that start with `---` and the classification of edit results and signals are left out.
- EditScript.AcceptedExactlyScripts: a line is what the regular expressions say of it; `Genuine` lists the facts about them that are used.
- `tool_io.py`: the random generator; its draws are inputs, and fairness is a count over all of them.
- `audit.ts`: usage, cost, spawn and per-path read counters, and the report, are left out.
- `rewrite-system-prompt.ts`: the decoding of answers, the pauses between attempts and the progress callback are left out.
- Plots, tables, reports, command-line parsing, release scripts and the other shell builtins.
