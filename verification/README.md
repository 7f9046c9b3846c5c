# Verified model of thestill's protocols, dynamic programs and parsers

A Dafny model of the parts of thestill whose behaviour is hard to settle by example: the protocols
that must survive restarts and interleavings, the dynamic programs, the partitioning loops, and the
facts files that are printed and read back. `dafny verify dfyconfig.toml` checks everything.

Each module follows one component.

- `EditDistance`: the one-row word error rate; least edit scripts and the metric laws.
- `TimestampAlignment`: matching word occurrences of two transcripts and summarising the gaps.
- `CircuitBreaker`: the per-stage breaker as a class, and what runs of its operations guarantee.
- `BriefingClaims`: many scheduler instances claiming slots of one table, with restarts and edits.
- `BriefingScheduler`: one scheduler process; the fate of every claimed slot and every owed email.
- `EntityCorrection`: corrections racing with resolve passes and with coreference.
- `StuckMentions`: no re-opened mention is left without a task, and exactly when one is.
- `CorrectionReach`: which mentions a correction reaches, and exactly when it may miss one.
- `DroppedMentions`: a dropped mention stays dropped, and exactly when it may not.
- `DalstonJobs`: submit, save, poll, remove, with a death possible between any two steps.
- `Chunking`: greedy chunks under a token budget.
- `WordBuckets`: assigning timed words to segment windows.
- `SpeakerSegments`: the two passes over a diarized transcript, and speaker runs.
- `SpanPicker`: longest common substring in two rows, and the span chosen with it.
- `ChartMerge`: the round robin over category charts.
- `FactsMarkdown`: the facts grammar, printed and parsed.
- `Common` and `Text`: options, and `strip`, `lower`, `split`, `join`.

Protocols with several actors are state machines whose steps interleave in every way; objects that
change their fields are classes; loops over local tables are methods proved against a
specification. Services the code calls but does not control (generation, the schedule table, the
delivery service, the transcription server) answer nondeterministically, and may fail at any call;
ghost logs record every call and its answer, and the contracts speak of those logs.

Some properties one would expect do not hold of the code as written. For these there is an exact
condition, proved in both directions.

- The breaker reads its clock before it takes the lock. Out of lock order it counts right at every
  failure if and only if no two failures since the last clear mislead a later one: the deque keeps a
  stale entry behind a recent one, or has already popped an entry that is recent again
  (`CircuitBreaker.RunCountsRightIff`). So it can trip early
  (`CircuitBreaker.OutOfOrderReadingsTripEarly`) or late
  (`CircuitBreaker.OutOfOrderReadingsTripLate`).
- An edit of a schedule that puts the row back to a slot already claimed, or before it, lets a slot be
  claimed again, and only such an edit does (`BriefingClaims.EditIsSafeIff`). An edit stamped before a
  claimed slot can be one (`BriefingClaims.EarlierEditReclaims`).
- A zero-length last window at the end of the one before it breaks the order of word buckets
  (`WordBuckets.BucketsKeepOrderIff`).
- A raw segment with neither words nor text takes a word of a later segment
  (`SpeakerSegments.AlignedIffSilenceLast`).
- A resolve pass reads at most 1000 pending mentions. A correction leaves a mention with nothing
  queued or owed for it, in some continuation, if and only if the tasks queued and owed for the
  episode, its own included, have no room at 1000 each for the pending mentions that no running pass
  holds (`StuckMentions.CorrectionNeverStrandsIff`). In a quiet episode that is when it re-opens more
  than 1000 (`StuckMentions.OneTaskSufficesIff`). The comment in `thestill/core/entity_review.py`
  that one fresh task suffices overlooks this.
- A correction misses a mention that an earlier pass still has to write, from its snapshot or
  through coreference (`CorrectionReach.CorrectionReachesAllIff`).
- A dropped mention, which corrections are meant never to undo, is re-opened if and only if a
  correction that found it before it was dropped is still to reset it
  (`DroppedMentions.StaysDroppedIff`).
- Facts with an empty title, or a heading of blanks alone, do not survive the trip: the title
  pattern lets white space cross lines (`FactsMarkdown.PodcastRoundTripIff`,
  `FactsMarkdown.BlankPodcastTitle`).

## Model

| member | source | states |
|---|---|---|
| EditDistance.NoScriptIsCheaper | evaluation/metrics.py:46-55 | no script of inserts, deletes and substitutions turning the reference into the hypothesis costs less than the computed distance |
| EditDistance.SomeScriptAttains | evaluation/metrics.py:46-55 | some script attains the distance |
| EditDistance.FillRow | evaluation/metrics.py:50-54 | the inner loop overwrites a row with the row that follows it |
| EditDistance.EditDistanceInPlace | evaluation/metrics.py:48-55 | the single overwritten row ends with the distance of the whole lists |
| EditDistance.DistanceBounds | evaluation/metrics.py:46-55 | the distance is between the length gap and the longer length |
| EditDistance.DistanceSymmetric | evaluation/metrics.py:46-55 | swapping reference and hypothesis changes nothing |
| EditDistance.DistanceZeroIff | evaluation/metrics.py:46-55 | zero exactly for equal lists |
| EditDistance.TriangleInequality | evaluation/metrics.py:46-55 | going through a third list is never shorter |
| EditDistance.WordErrorRate | evaluation/metrics.py:46-55 | the rate makes the distance over the length of the reference, and is 0 for an empty one |
| EditDistance.RateMeaning | evaluation/metrics.py:55 | the rate is 0 exactly for equal lists or an empty reference, and at most the longer length over the reference length |
| TimestampAlignment.BuildLookup | evaluation/metrics.py:143-149 | the lookup holds exactly the start times of every word, in order |
| TimestampAlignment.CollectDeltas | evaluation/metrics.py:151-168 | the loop with its consumed counts yields the differences of the k-th to k-th pairs |
| TimestampAlignment.PairsAreKthToKth | evaluation/metrics.py:151-168 | two positions are paired exactly when they are the k-th occurrences of one word |
| TimestampAlignment.NoOccurrenceIsReused | evaluation/metrics.py:162-168 | no occurrence of the second transcript is matched twice |
| TimestampAlignment.MatchesAreCommonWords | evaluation/metrics.py:151-168 | the number of matches is the sum over words of the smaller count |
| TimestampAlignment.KeysAre | evaluation/metrics.py:144-148 | the words that count are exactly those with a text and a start |
| TimestampAlignment.InOrderPairingIsClosest | evaluation/metrics.py:162-168 | of two sorted lists of equal length, pairing in order has the least total difference of all pairings |
| TimestampAlignment.WordPairingIsClosest | evaluation/metrics.py:162-168 | so the pairs made for a word that occurs equally often in two time-ordered transcripts are the closest |
| TimestampAlignment.DeltasArePairs | evaluation/metrics.py:168 | each reported difference is that of its own pair |
| TimestampAlignment.ComputeTimestampAlignment | evaluation/metrics.py:134-180 | nothing is reported exactly when no word is common; otherwise the count and the summary of the sorted differences |
| TimestampAlignment.SummaryIsOrdered | evaluation/metrics.py:173-180 | median <= p90 <= max, p90 and max are differences, and none is greater than max |
| TimestampAlignment.MeanOfDeltas | evaluation/metrics.py:175 | the mean is the sum of the differences over their number and lies within every bound on them |
| TimestampAlignment.SummaryRanks | evaluation/metrics.py:173-177 | among the differences as they came, the median lies in the middle of two that halve the list, one and the same when their number is odd, and p90 has at most 90% below it and the others at most above it |
| CircuitBreaker.StageCircuitBreaker.constructor | thestill/core/circuit_breaker.py:74-96 | thresholds are clamped and no stage is known |
| CircuitBreaker.StageCircuitBreaker.AllowDispatch | thestill/core/circuit_breaker.py:105-131 | granted exactly when the stage is closed, or open with its cooldown over; a grant while open leaves it half open with the probe reserved, anything else changes nothing, and no other stage changes |
| CircuitBreaker.StageCircuitBreaker.CancelDispatch | thestill/core/circuit_breaker.py:133-145 | a half-open stage is open again from now on, any other stays as it was, and no other stage changes |
| CircuitBreaker.StageCircuitBreaker.RecordFailure | thestill/core/circuit_breaker.py:147-182 | a half-open stage reopens now with an empty window; otherwise the failure enters the window, a closed stage opens when the window is full, and an open one stays open since the same moment |
| CircuitBreaker.StageCircuitBreaker.RecordSuccess | thestill/core/circuit_breaker.py:184-194 | the stage is closed with an empty window and no other stage changes |
| CircuitBreaker.StageCircuitBreaker.IsTripped | thestill/core/circuit_breaker.py:196-203 | true exactly when the stage is not closed |
| CircuitBreaker.ReachableStates | thestill/core/circuit_breaker.py:116-131 | in every reachable state the probe is reserved exactly while half open, a half-open breaker never grants, and a closed one holds fewer failures than the threshold |
| CircuitBreaker.GrantedIff | thestill/core/circuit_breaker.py:116-131 | in every reachable state a dispatch is granted exactly when closed, or open with the cooldown over, and only a grant while open changes the state |
| CircuitBreaker.UntrippedGrantsAll | thestill/core/circuit_breaker.py:105-117 | a run that never trips grants every dispatch |
| CircuitBreaker.CooldownIsNotExtended | thestill/core/circuit_breaker.py:118-127 | late failures and refused dispatches neither end nor extend an open period: the next dispatch is granted exactly when the cooldown since the opening is over |
| CircuitBreaker.DequeRefinesHistory | thestill/core/circuit_breaker.py:167-171 | with readings in lock order the deque is sorted and slides to exactly the failures since the last clear that lie in the window |
| CircuitBreaker.TripsExactlyWhenWindowFills | thestill/core/circuit_breaker.py:167-175 | a closed breaker opens exactly on the failure that fills the window |
| CircuitBreaker.PopStaleExactIff | thestill/core/circuit_breaker.py:168-170 | for one run of the pop loop on a given deque: it leaves exactly the recent entries if and only if no stale entry stands behind a recent one |
| CircuitBreaker.DequeIsExactIff | thestill/core/circuit_breaker.py:167-171 | for readings in any order, the deque, and the count it gives, are right at every failure if and only if no two failures mislead a later one |
| CircuitBreaker.RunCountsRightIff | thestill/core/circuit_breaker.py:147-194 | the same for whole runs of dispatches, cancels, failures and successes, history by history since the last clear |
| CircuitBreaker.TripsExactlyWhenSafe | thestill/core/circuit_breaker.py:167-175 | then a closed breaker opens exactly on the failure that fills the window, whatever the order of the readings |
| CircuitBreaker.OutOfOrderReadingsTripEarly | thestill/core/circuit_breaker.py:154-155 | a run with readings out of lock order that trips with too few recent failures |
| CircuitBreaker.OutOfOrderReadingsTripLate | thestill/core/circuit_breaker.py:154-155 | a run with readings out of lock order that stays closed although the window is full |
| CircuitBreaker.DispatchRateIsBounded | thestill/core/circuit_breaker.py:105-194 | from leaving closed to the next success, k grants take at least k gaps, a gap being the cooldown less the skew or nothing, over every mix of operations |
| Common.MultipleIsProduct | thestill/core/circuit_breaker.py:105-194 | the bound, k gaps added up, is k times the gap |
| CircuitBreaker.DispatchRateIsTight | thestill/core/circuit_breaker.py:118-145 | for every skew and every k some outage grants k probes in exactly k gaps |
| BriefingClaims.EverySlotClaimedAtMostOnce | thestill/core/briefing_scheduler.py:145-171 | in every interleaving of instances, restarts and edits that put no row back to a claimed slot, each slot of a user is claimed at most once |
| BriefingClaims.EditIsSafeIff | thestill/web/routes/api_briefings.py:275-276 | after an edit, no continuation of instances and safe edits claims a slot twice if and only if the edit leaves the row disabled or past every slot already claimed |
| BriefingClaims.LateEditStaysAhead | thestill/web/routes/api_briefings.py:275 | an edit stamped no earlier than the claimed slots is safe |
| BriefingClaims.EarlierEditReclaims | thestill/web/routes/api_briefings.py:275-276 | for every claimed slot and every earlier clock, some edit stamped then leads to a second claim of that slot without further edits |
| BriefingClaims.ClaimWinsIff | thestill/core/briefing_scheduler.py:163-171 | a claim is won exactly when the row is enabled and still shows the scanned slot; it then moves that row to the next time, and otherwise no row changes |
| BriefingClaims.NothingIsClaimedWhileOff | thestill/core/briefing_scheduler.py:163-171 | while a schedule is off no slot of its user is claimed, not even one scanned before |
| BriefingClaims.MissedSlotsAreNeverClaimed | thestill/core/briefing_scheduler.py:158-168 | no other claim of a user falls between a claimed slot and the instant it was claimed at |
| BriefingClaims.TriedSlotIsClaimedExactlyOnce | thestill/core/briefing_scheduler.py:145-171 | a scanned slot that some instance tried to claim has exactly one claim from then on |
| BriefingScheduler.Scheduler.Tick | thestill/core/briefing_scheduler.py:145-223 | one scan; every parked slot is retried once and every row of the scan has its turn, passed over exactly when its user is still parked; the claims tried, generation calls made and slots recorded are those and no others; expired slots are decided, every id waiting for a delivery row is requested again, the result counts the briefings made |
| BriefingScheduler.Scheduler.ProcessDue | thestill/core/briefing_scheduler.py:150-211 | unless the user is parked the claim is tried once; a lost claim makes no call and records no slot; a won one makes one call, with the latest nominal run as cutoff, and records the slot with the fate of that call; an email is owed exactly when it should be |
| BriefingScheduler.Scheduler.RetryPending | thestill/core/briefing_scheduler.py:229-282 | one call with the cutoff and the deadline of the entry; the slot takes the fate of its outcome, stays parked exactly before the deadline without a result, and its entry goes when it is settled; the email follows the switch as read then |
| BriefingScheduler.Scheduler.RetryPendingBriefings | thestill/core/briefing_scheduler.py:225-283 | every parked slot has exactly one retry call and takes the fate of its outcome, none whose deadline has come stays, and the entries left are those of the slots still parked |
| BriefingScheduler.SlotsAreConserved | thestill/core/briefing_scheduler.py:149-211 | claims = generated + empty + failed + abandoned + currently parked |
| BriefingScheduler.Scheduler.QueueDelivery | thestill/core/briefing_scheduler.py:311-330 | one request; the id is buffered exactly when it failed, and leaves the buffer only once its row exists |
| BriefingScheduler.Scheduler.RetryUnqueuedDeliveries | thestill/core/briefing_scheduler.py:332-340 | every waiting id is requested exactly once and leaves the set exactly when its request succeeds |
| BriefingScheduler.RunTicks | thestill/core/briefing_scheduler.py:145-340 | over any ticks of one process the slots balance and are exactly the claims won, in order, every owed briefing has a row or is buffered, and no briefing has two rows |
| StuckMentions.NoMentionIsStuck | thestill/core/entity_review.py:430-462 | in every interleaving in which each reset fits the tasks queued and owed, a pending mention is in the running pass's snapshot, or a task is queued or still owed for its episode |
| StuckMentions.SmallResetFits | thestill/repositories/sqlite_entity_repository.py:309-331 | in a covered episode a reset of at most 1000 mentions always fits |
| StuckMentions.ReachableStates | thestill/core/entity_review.py:430-462 | the same for every state reached from a fresh start, all episodes |
| StuckMentions.NeverStuckIff | thestill/core/entity_review.py:446-455 | at any moment, with a pass running or not: no continuation leaves a mention stuck if and only if the tasks queued and owed have room for the pending mentions no snapshot holds |
| StuckMentions.CorrectionNeverStrandsIff | thestill/core/entity_review.py:443-455 | for a correction at any moment: exactly when its reset fits, by a count that can be taken before the reset |
| StuckMentions.OneTaskSufficesIff | thestill/repositories/sqlite_entity_repository.py:309-331 | in a quiet episode that is when it re-opens at most 1000 mentions |
| StuckMentions.UncoveredStrandsSome | thestill/repositories/sqlite_entity_repository.py:309-331 | from any state without that room, the passes run to their end leave a pending mention with no snapshot, no task queued and none owed |
| CorrectionReach.FoundMentionsAreReread | thestill/core/entity_review.py:441-455 | in any run, a pass that writes from its snapshot a mention some correction found began after that correction was stored |
| CorrectionReach.CorrectionReachesAllIff | thestill/core/task_handlers.py:1173-1236 | whatever happens after its search, a correction reaches every mention it concerns if and only if no pass begun before it was stored is still to write one |
| EntityCorrection.EntityReview.ApplyCorrection | thestill/core/entity_review.py:280-330 | undisturbed, a settled mention becomes pending exactly if it has the surface, lies in the scope and was not dropped, nothing else changes, and exactly the episodes of such mentions get one task; an empty surface is refused |
| EntityCorrection.EntityReview.ReresolveSurface | thestill/core/entity_review.py:430-462 | the same for a stored correction, with the counts returned |
| EntityCorrection.EntityReview.EnqueueAll | thestill/core/entity_review.py:454-455 | one task for each episode owed and for no other |
| EntityCorrection.InvRun | thestill/core/task_handlers.py:1155-1238 | what every step of corrections, passes and coreference keeps |
| EntityCorrection.ScopedRunsStayInScope | thestill/core/entity_review.py:441-455 | however corrections scoped to one episode and passes of it interleave, no mention and no task of another episode changes |
| DroppedMentions.StaysDroppedIff | thestill/repositories/sqlite_entity_repository.py:371-387 | a dropped mention stays dropped in every continuation if and only if no correction that found it earlier is about to reset it |
| DroppedMentions.CorefReadLists | thestill/repositories/sqlite_entity_repository.py:1364-1378 | coreference lists exactly the unresolvable people of the episode |
| DroppedMentions.CorefSettlesPeople | thestill/core/entity_coref.py:56-86 | in any run coreference settles only people, none of them dropped, as resolved or ambiguous |
| DroppedMentions.SnapshotIsUnique | thestill/repositories/sqlite_entity_repository.py:323-331 | the snapshot of a pass is determined: older pending mentions first, up to the limit |
| DalstonJobs.Dispatcher.FindResumableJobId | thestill/core/dalston_transcriber.py:296-330 | rows go exactly for the jobs the server calls failed, cancelled or unknown; a job is found exactly when one asked about is waiting, running or completed; a call without an answer ends the search; otherwise no row is left |
| DalstonJobs.Dispatcher.SubmitAndSave | thestill/core/dalston_transcriber.py:213-225 | one submission; the job is recorded exactly when it landed and the attempt lived on, and otherwise a job that landed is one more unrecorded death |
| DalstonJobs.Dispatcher.PollAndRemove | thestill/core/dalston_transcriber.py:253-264 | the job is polled once, and its row goes exactly when the poll has ended and the attempt lived on |
| DalstonJobs.Dispatcher.Transcribe | thestill/core/dalston_transcriber.py:212-267 | one submission when the server calls every recorded job failed, cancelled or unknown, and none otherwise, so none while a recorded job is waiting, running or completed; the job found or submitted is polled; at most one row, and unnamed live jobs no more than unrecorded deaths |
| DalstonJobs.Dispatcher.TranscribeUntracked | thestill/core/dalston_transcriber.py:213-225 | without a repository or an episode id no row changes and each attempt adds at most one unnamed live job of its own episode |
| DalstonJobs.UntrackedJobsPileUp | thestill/core/dalston_transcriber.py:306-307 | without records no bound holds: for every k some k attempts leave k more live jobs that no row names |
| DalstonJobs.LiveJobsAreBounded | thestill/core/dalston_transcriber.py:209-211 | an episode has at most one live job more than attempts that died unrecorded |
| DalstonJobs.RunAttempts | thestill/core/dalston_transcriber.py:212-267 | the same after any number of attempts, each dying wherever it likes |
| Chunking.DefaultMaxTokens | thestill/core/post_processor.py:198-204 | the greatest budget within 70% of the rate limit and the context window less 20000 |
| Chunking.ChunkTranscript | thestill/core/post_processor.py:215-239 | a text that fits is one chunk; otherwise the stripped greedy groups of its sentences |
| Text.SplitIff | thestill/core/post_processor.py:226 | splitting is the one way to write a text as parts joined by the separator that cuts at every leftmost occurrence |
| Chunking.ChunksLoseNothing | thestill/core/post_processor.py:226-239 | before stripping the chunks concatenate to the text and a final ". " |
| Chunking.AdmissibleIff | thestill/core/post_processor.py:229-235 | a group obeys the admission rule exactly when it is one sentence or fits without its last ". " |
| Chunking.ChunksWithinBudget | thestill/core/post_processor.py:215-239 | prompt and chunk stay within the budget; only a single sentence can exceed it, and exactly when it is too long, stated for the piece and for the stripped chunk |
| Chunking.GreedyIsOptimal | thestill/core/post_processor.py:226-239 | no cut into consecutive groups under the same rule uses fewer chunks |
| WordBuckets.SegmentIndexFor | thestill/core/parakeet_transcriber.py:324-343 | the first window that holds the start, the last one with its end included |
| WordBuckets.OwnershipIsMonotoneIff | thestill/core/parakeet_transcriber.py:309-343 | over ordered windows, later starts get later or equal windows, nearest windows and ties included, if and only if the last window is not a point at the end of the one before |
| WordBuckets.OwnerIsUnique | thestill/core/parakeet_transcriber.py:309-343 | the window a start belongs to, first holder or else first nearest, is determined |
| WordBuckets.BucketWordsIntoSegments | thestill/core/parakeet_transcriber.py:285-321 | each bucket is the timed words its window owns, in order, and a window runs from the start to the end of its segment, with the fallbacks for missing times |
| WordBuckets.EveryTimedWordLandsOnce | thestill/core/parakeet_transcriber.py:302-321 | whatever the order, each word with text and start lands in exactly one bucket |
| WordBuckets.BucketsKeepOrder | thestill/core/parakeet_transcriber.py:285-321 | words in time order come back in order when the buckets are concatenated |
| WordBuckets.BucketsKeepOrderIff | thestill/core/parakeet_transcriber.py:285-321 | over ordered windows every list of words in time order comes back in order if and only if the last window is not a point at the end of the one before |
| SpeakerSegments.LabelTextInjective | thestill/core/dalston_transcriber.py:454-457 | two speaker numbers never print as the same label |
| SpeakerSegments.SameLabelIffSameSpeaker | thestill/core/dalston_transcriber.py:443-457 | two segments have the same label exactly when they name the same speaker, by the speaker or else the speaker id |
| SpeakerSegments.ParseWords | thestill/core/dalston_transcriber.py:431-485 | every raw word is in its place with its own text and times, the fallback fields used where the first are missing, empty or 0, and the label of its segment; a text without words is one word |
| SpeakerSegments.BuildSegments | thestill/core/dalston_transcriber.py:487-599 | raw segments decide when there are any, each with its own times, text and label; otherwise the words are grouped by speaker |
| SpeakerSegments.AlignedIffSilenceLast | thestill/core/dalston_transcriber.py:504-546 | every segment gets back exactly its own words if and only if segments with neither words nor text come last |
| SpeakerSegments.AlignedWordsCarryLabel | thestill/core/dalston_transcriber.py:510-535 | then the words of a segment carry the segment's own label, though the passes number speakers separately |
| SpeakerSegments.GroupBySpeaker | thestill/core/elevenlabs_transcriber.py:839-900 | the segments are a cut into maximal one-speaker runs, each described by its own words, with its times from its first and last word and their fallbacks |
| SpeakerSegments.RunCutIsUnique | thestill/core/elevenlabs_transcriber.py:839-900 | there is only one such cut |
| SpeakerSegments.SpokenTextGrows | thestill/core/elevenlabs_transcriber.py:861-869 | the text of a run, word by word: an empty word adds nothing, any other follows after one space, and the whole is stripped |
| SpanPicker.LongestCommonSubstring | thestill/core/entity_resolver.py:472-482 | the two rows yield the length of the longest common contiguous substring, attained and maximal |
| SpanPicker.CharOverlap | thestill/core/entity_resolver.py:460-482 | the same on lower-cased strings, shortcuts included |
| SpanPicker.LongestCommonIsUnique | thestill/core/entity_resolver.py:460-464 | that length is determined by the strings |
| SpanPicker.PickBestSpan | thestill/core/entity_resolver.py:404-431 | the first exact match, else the first span of greatest overlap covering half the target, none exactly when no span qualifies |
| SpanPicker.ExactHasGreatestOverlap | thestill/core/entity_resolver.py:417-419 | preferring an exact match never gives up overlap |
| ChartMerge.CollectChartEntries | scripts/build_top_podcasts.py:217-288 | unique ids, the deduplicated overall chart first, each further row from its chart at its rank; with distinct names the charts take turns in order, each taking its first entry not collected before, until the limit or everything is collected, and shares are fair |
| ChartMerge.RunPass | scripts/build_top_podcasts.py:263-286 | one pass gives each chart one turn, and no progress means that every chart is used up |
| ChartMerge.OverallIsDeduplicated | scripts/build_top_podcasts.py:236-252 | the overall part has unique ids in rank order and misses no parseable entry |
| ChartMerge.OverallKeepsFirst | scripts/build_top_podcasts.py:236-252 | each podcast of the overall part has the rank of its first place |
| FactsMarkdown.ParseMarkdownSections | thestill/core/facts_manager.py:288-319 | the loop yields the sections of the line scan |
| FactsMarkdown.SectionIs | thestill/core/facts_manager.py:288-319 | in any text, a section is the items between the last heading of its name and the next heading |
| FactsMarkdown.NoSectionWithoutHeading | thestill/core/facts_manager.py:288-319 | a name without a heading has no section |
| FactsMarkdown.ParsedItemsArePlain | thestill/core/facts_manager.py:312-314 | every item read from any text is not empty, trimmed and on one line |
| FactsMarkdown.SectionsAreRead | thestill/core/facts_manager.py:288-319 | every section of a printed file is read back, and no others |
| FactsMarkdown.TitleIsReadIff | thestill/core/facts_manager.py:251-252 | exactly when a tidy title is read back, white space crossing lines included |
| FactsMarkdown.PodcastTitleIs | thestill/core/facts_manager.py:251-252 | in any text, the title is what the first title line says, unless it is blank |
| FactsMarkdown.EpisodeTitleIs | thestill/core/facts_manager.py:269-271 | the same for an episode, after `Episode:` |
| FactsMarkdown.NoTitle | thestill/core/facts_manager.py:251-271 | a text without a title line gets the stand-in title |
| FactsMarkdown.PrintedFile | thestill/core/facts_manager.py:168-244 | a file begins with its title line and a blank line, and its sections follow |
| FactsMarkdown.PrintedSection | thestill/core/facts_manager.py:172-176 | a section is its heading, a line for each item and a blank line, and nothing when it is empty |
| FactsMarkdown.RenderPodcastFacts | thestill/core/facts_manager.py:168-214 | the printed text of podcast facts |
| FactsMarkdown.ParsePodcastFacts | thestill/core/facts_manager.py:246-263 | the facts read from a text |
| FactsMarkdown.PodcastRoundTripIff | thestill/core/facts_manager.py:168-263 | reading undoes printing exactly for plain titles and items |
| FactsMarkdown.PodcastReadIsStableIff | thestill/core/facts_manager.py:168-263 | read, print and read gives the first reading exactly when its title is not empty |
| FactsMarkdown.BlankPodcastTitle | thestill/core/facts_manager.py:251-252 | a heading of blanks alone is not stable |
| FactsMarkdown.SortedSpeakers | thestill/core/facts_manager.py:222 | the mapping is listed completely in the order of its ids |
| FactsMarkdown.MappingIsRead | thestill/core/facts_manager.py:220-224 | a mapping printed line by line is read back as the same mapping |
| FactsMarkdown.ParseSpeakerMapping | thestill/core/facts_manager.py:273-278 | later lines of the speaker section win |
| FactsMarkdown.ParseSpeakerIff | thestill/core/facts_manager.py:275-278 | an item names a speaker exactly when it is an id of SPEAKER_ and digits, a colon and a name |
| FactsMarkdown.RenderEpisodeFacts | thestill/core/facts_manager.py:216-244 | the printed text of episode facts, speakers sorted by id |
| FactsMarkdown.ParseEpisodeFacts | thestill/core/facts_manager.py:265-286 | the facts read from a text |
| FactsMarkdown.EpisodeRoundTripIff | thestill/core/facts_manager.py:216-286 | reading undoes printing exactly for normal facts |
| FactsMarkdown.EpisodeReadIsStableIff | thestill/core/facts_manager.py:216-286 | read, print and read gives the first reading exactly when its title is not empty or nothing else was read |

## Left out

- Floating point: times and ratios are reals; `int(n * 0.9)` and `int(tpm * 0.7)` are their exact integer values.
- Unicode: `strip`, `lower` and the patterns' white space and digits are the ASCII ones.
- Threads, the tick thread's wait, logging, HTTP, SDK, model and SQL calls; repositories are maps and a claim is one atomic update.
- BriefingClaims.EverySlotClaimedAtMostOnce: edits are assumed to put a row past the slots already claimed, the exact condition of EditIsSafeIff; cadence arithmetic, time zones and daylight saving are only "the next occurrence lies strictly after".
- BriefingScheduler.Scheduler.Tick: the delivery pass that sends queued emails and the narration chain are not modelled, and repository calls are assumed not to raise within a tick.
- StuckMentions.NoMentionIsStuck: a task that exhausts its retries, a pass on a host without the resolver, and mentions newly extracted are not steps; a failed pass always returns to the queue.
- CorrectionReach.CorrectionReachesAllIff: a pass is taken to read overrides and blacklist at its start; overrides looked up later in the same pass can only reach more.
- EntityCorrection.EntityReview.ApplyCorrection: the choice among blacklist, forced entity, drop and unresolvable, with its argument errors, is one stored correction.
- DalstonJobs.Dispatcher.Transcribe: needs a repository and an episode id, since without them no bound holds (UntrackedJobsPileUp); where an attempt dies is an input, a file that cannot be opened is a submission that does not land, and progress reports and the transcript returned are not modelled.
- DalstonJobs.Dispatcher.FindResumableJobId: the episode's rows are scanned in any order, oldest first being one of them.
- WordBuckets.BucketWordsIntoSegments: the field lookups that read a start or an end from an entry.
- TimestampAlignment.ComputeTimestampAlignment: words arrive with text stripped and lower-cased and a missing start already 0.
- SpeakerSegments.ParseWords: confidence values; a segment without words has the empty list.
- ChartMerge.CollectChartEntries: two categories of one name share a cursor, so completeness, fairness and the order of turns are stated for distinct names; fetching and parsing entries are inputs.
- FactsMarkdown.RenderPodcastFacts: the seven sections written one by one are a loop over the same list of headings and fields.
- Fuzzy alias merging, fuzzy correction of recurring errors, entity type tables, the other evaluation metrics and everything behind the web server.
