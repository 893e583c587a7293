# Verified model of the crawl platform

A Dafny model of the parts of the crawl platform whose correctness depends on several
processes, or on arithmetic and text rules that are easy to get subtly wrong:

* the task-slot protocol by which a crawl job finds out that it is finished, with every
  producer of messages (API, discovery, recursive crawling, audio hand-off) and every
  consumer group that receives them;
* the durable LLM analysis queue with claims, leases, retries, reclaims and batch hand-over;
* SimHash fingerprints and the Hamming distance on them;
* URL canonicalisation and crawl scoping of `LinkExtractionService`;
* the merge loops of topic discovery and the crawler-trap heuristics.

Run `dafny verify dfyconfig.toml` in this directory to check everything.

## How the model is laid out

| file | content |
|---|---|
| `Common.dfy`, `TextOps.dfy`, `Bits.dfy` | options, byte strings, searching and splitting, bit operations on integers |
| `JobRow.dfy` | the `jobs` row, the SQL statements that change it, class `JobTable` |
| `Messages.dfy` | messages, ownership, settlement, the per-message wrapper, class `Topic` |
| `CrawlProtocol.dfy` | one job as a state machine: 21 kinds of atomic step, interleaved freely |
| `SlotConservation.dfy`, `JobOutcome.dfy`, `JobLiveness.dfy` | the invariant of the protocol; what the counter and the final status mean; which jobs can still complete |
| `CrawlTermination.dfy`, `CrawlBound.dfy`, `CrawlEnds.dfy` | a bound on the messages of a job, and that it is attained; every run comes to rest |
| `CrawlScopeRuns.dfy`, `CrawlDedup.dfy`, `CrawlResources.dfy` | where every page comes from; when links repeat; that no resource is crawled twice |
| `RecursiveCrawl.dfy`, `JobSubmission.dfy` | the imperative procedures, and that each of them is a run of the state machine |
| `LlmQueue.dfy`, `LlmQueueRuns.dfy`, `LlmQueueFencing.dfy`, `LlmQueueProgress.dfy` | the queue class; many workers on one queue with two-phase claims and explicit time; what its unfenced statements can do; what can be claimed again |
| `Hamming.dfy`, `SimHash.dfy` | distance and fingerprint |
| `PercentCodec.dfy`, `QueryCodec.dfy`, `UrlNormalization.dfy`, `UrlIdempotence.dfy`, `UrlEquality.dfy`, `UrlQuery.dfy` | section 2.1 of RFC 3986, the query step, `normalize_url`, when it is idempotent, when two URLs get one key, and what one more parameter does to it |
| `CrawlScope.dfy`, `DotSegments.dfy`, `CrawlerTrap.dfy`, `DiscoveryMerge.dfy` | the scope filter, what ".." does to it, trap detection, merging |

The imperative procedures are classes and methods over the state they change; each is tied to
a function of the old state, and theorems about whole runs are about those functions. A
procedure that interleaves with others at every `await` (`ExtractAndQueueChildren`,
`FanOutSeeds`, `HandOffAudio`, `RegisterAndPublish`, `ProcessMessageSafely`) is shown to be one particular run of the
state machine, whose invariants hold for all interleavings of its steps.

## Assumptions

* Each consumer group delivers a message once. A send that raises has stored nothing.
* Database statements are atomic and do not raise; Redis commands do not raise.
* The dedup store is the plain Redis SET and its key does not expire during the crawl.
* URLs and page text are UTF-8 byte strings that decode validly; case folding is ASCII, and so
  are the blanks that `strip` removes.
* The shingle hash, the worker assignment rules, the kind of content a URL is classified as
  and the link checks that are not about scope are arbitrary functions; the theorems hold for
  all of them.

## Where the code differs from what it says

* Pausing does not only delay a job. A settlement that empties the counter while the job is
  paused leaves the status alone, and nothing looks at the counter again: after `resume_job`
  the job is `running` with counter 0 and never completes (`JobOutcome.PausedDrainIsStuck`);
  only the watchdog ends it, as failed.
* `update_job_status` says that a finished job is not resurrected, but its `needs_review` and
  `completed` writes do overwrite `failed` (`JobRow.TerminalKeptExactly`). No caller makes
  either write, so no step of the state machine does.
* The discovery worker's replay guard lets only `pending` and `running` jobs pass, so a search
  message delivered in any other status, paused included, is skipped without settling its
  slot (workers/discovery-worker/main.py:91-97). That slot, one whose owner crashed, those a
  cancelled or raising handler had reserved, an escalation whose publish raised and the root
  slot of a submission the broker refused are never given back, and one of them keeps the job
  from ever completing (`JobOutcome.LeaksExactly`, `JobOutcome.LeakBlocksCompletion`).
* `complete_job_task(failed=True)` does nothing on a paused row, which would lose a slot; the
  wrapper calls `fail_job` first, so it does not happen (`Messages.WrapperSettlesOnce`).
* `is_visited` and `mark_visited` are two Redis calls. Two pages of one job that both ask
  before either marks publish the link twice (`CrawlDedup.LinkCrawledTwice`); without such an
  overlap no link is published twice (`CrawlDedup.NoLinkTwice`, `CrawlDedup.SerialExactly`).
  A link whose send failed stays marked and is not tried again.
* Two versions of the deep worker's wrapper disagree on a page that exceeds its budget:
  tmpout/orig_deep.py:2994-3012 fails the job, workers/deep-worker/main.py:3516-3554 does not.
  Both are modelled.
* `settle_success` and `fail` of the LLM queue do not check who holds the claim, `mark_batched`
  compares worker ids, and only that of its first entry, and batch results are settled
  without looking at the row again. A step ends a live worker's sole possession of its item
  exactly when it touches that item's row in one of these ways
  (`LlmQueueRuns.ExclusiveStepExactly`), and two live workers can then come to hold the item
  exactly when the row was removed or handed to a batch, or was given a retry delay that ends
  within the live worker's lease (`LlmQueueFencing.HeldTwiceExactly`).
* The status `done` is never written.
* `normalize_url` is not idempotent when the decoded path, trailing slashes aside, keeps a `;`
  in its last segment: `urlparse` then cuts the parameters off on the second pass
  (`UrlIdempotence.IdempotentExactly` gives the exact condition).
* A search over "all" networks caps each network at `n // 3 + 1` seeds, so it can return fewer
  than `n` although enough were found. It returns `n` exactly when the capped networks have `n`
  distinct keys between them (`DiscoveryMerge.AllSearchCount`); for networks that found
  different things, when the sum of what each found, up to its quota, reaches `n`
  (`DiscoveryMerge.DisjointSearchCount`). A limit below 1 still returns one seed when the
  first group has any.
* Depth and links per page alone do not bound the messages of a crawl: a page can be escalated
  once, to the deep worker, which never escalates further (so the retry budget of 3 is never
  used up, `CrawlScopeRuns.BudgetIsNeverUsedUp`), or can hand off audio, but not both, because a URL that is audio to the deep worker
  is audio to the others before they escalate (`CrawlBound.TreeIsExceeded` says when the tree
  is exceeded). With that counted the bound is exact (`CrawlTermination.CrawlIsBounded`,
  `CrawlBound.BoundIsAttained`).
* A page that crashes is meant to fail its job (workers/common.py:106-112), but the surface
  worker's `process_request` logs the `PageProcessingError` its inner procedure raises
  (workers/surface-worker/main.py:234-235), and the page settles as if it had been handled.
  `JobOutcome.CrashedJobStaysFailed` is about the deep, dark and discovery workers.
* `normalize_url` drops the `;` parameters of the last path segment, so pages that differ only
  there are crawled as one (`UrlEquality.ParametersDoNotCount`).
* The path prefix of the scope filter is compared before "." and ".." are resolved, and neither
  `urljoin` on an absolute link nor `normalize_url` resolves them: `/amharic/../sport` is under
  `/amharic` to the filter
  (`DotSegments.ParentPassesTheTest`, `DotSegments.ParentIsPublished`). `DotSegments.CrawlStaysUnderSeedExactly` says which pages
  really lie under the seed.

## Model

| member | source | states |
|---|---|---|
| JobRow.JobTable.RegisterJobTasks | app/storage/postgres/client.py:825-836 | adds exactly the given number of slots, nothing for a count below 1 |
| JobRow.JobTable.CompleteJobTask | app/storage/postgres/client.py:838-929 | status, counter and reported status after either UPDATE: a failed settlement skips completed and paused rows, the last successful one of an active job decides it by whether a page is stored |
| JobRow.JobTable.FailJob | app/storage/postgres/client.py:996-1028 | marks the job failed unless it is completed |
| JobRow.JobTable.MarkRunning | app/storage/postgres/client.py:721-754 | running is written over pending, running and needs_review only |
| JobRow.PauseThenResume | app/storage/postgres/client.py:756-809 | pausing and resuming gives an active row back without its resume_status, leaves a finished row alone, and resumes a paused one |
| JobRow.TerminalKeptExactly | app/storage/postgres/client.py:721-754 | which status writes leave a finished job as it was: all but completed and needs_review over failed |
| Messages.OnlyTheOwnerSettles | workers/common.py:75-187 | of the deliveries of a page to the three groups exactly the assigned owner's settles or fails the job |
| Messages.FailJobFromMessage | workers/common.py:115-156 | the job becomes failed, unless completed, exactly when the message names a job and no other worker |
| Messages.CompleteJobTaskFromMessage | workers/common.py:159-187 | gives a slot back exactly when the message names a job and no other worker |
| Messages.ProcessMessageSafely | tmpout/orig_deep.py:2964-3031 | the row after each way the handler can end, and that only cancellation is raised again |
| Messages.WrapperSettlesOnce | workers/deep-worker/main.py:3478-3574 | the row after every ending of a handler, field by field: the owner gives back one slot, a crash fails the job unless it is completed, even when paused, the last task out decides it, other workers change nothing |
| SlotConservation.FreshInv | app/storage/postgres/client.py:621-655 | a job row as created satisfies the invariant of the protocol |
| SlotConservation.StepInv | app/services/recursive_crawl_service.py:107-151 | every atomic step of every participant keeps the invariant: conservation, one root slot, failures recorded before settlement, status tied to the last settlement |
| SlotConservation.RunInv | app/services/recursive_crawl_service.py:107-151 | the invariant holds after every interleaving |
| SlotConservation.ReachedInv | app/services/recursive_crawl_service.py:107-151 | every state a new job can reach satisfies it |
| JobOutcome.SlotsAreConserved | app/services/recursive_crawl_service.py:107-151 | in every reachable state the counter equals messages in flight plus being processed plus reserved unpublished plus leaked slots |
| JobOutcome.LeaksExactly | workers/deep-worker/main.py:3509-3574 | exactly which steps lose a slot for good |
| JobOutcome.LeakedGrows | workers/deep-worker/main.py:3509-3574 | the leaked count never drops, and stays the same iff no step of the run leaks |
| JobOutcome.NoEarlyCompletion | app/storage/postgres/client.py:838-929 | a completed job has every message settled by its owner, no slot reserved or lost, and a stored page |
| JobOutcome.QuiescentCounter | workers/common.py:159-187 | when nothing is left to do the counter is the number of leaked slots, 0 iff no step leaked |
| JobOutcome.OutcomeIsFinal | app/storage/postgres/client.py:721-754 | no run of the steps the code takes leaves completed or failed again (needs_review, which no caller writes, is not one) |
| JobOutcome.CrashedJobStaysFailed | workers/common.py:106-156 | after one exception that escapes a deep, dark or discovery handler the job is failed in every later state |
| JobOutcome.LeakBlocksCompletion | app/pipeline/main.py:264-293 | a job with a leaked slot never completes |
| JobOutcome.CompletedExactly | app/storage/postgres/client.py:880-905 | a job is completed iff some settlement took the counter from 1 to 0 while it was active and a page was stored |
| JobOutcome.QuiescentOutcome | app/storage/postgres/client.py:847-855 | a finished leak-free job has a final status unless its last settlement came while it was paused, and then never completes |
| JobOutcome.NeverCompletes | app/storage/postgres/client.py:782-809 | no continuation completes a job drained while paused |
| JobOutcome.PausedDrainIsStuck | app/storage/postgres/client.py:756-809 | such a job is reachable: running, counter 0, page stored, nothing left to do |
| JobLiveness.OnTrackCompletes | app/storage/postgres/client.py:854-905 | from every state of an active leak-free job with a stored page some run completes the job, so no task can be stuck |
| JobLiveness.DriveToStore | workers/deep-worker/main.py:3441-3468 | any unfinished task that is not failing or merely waiting to settle can bring about a stored page |
| JobLiveness.RunBarren | app/storage/postgres/client.py:883-889 | once nothing is stored and no such task is left, nothing is ever stored |
| JobLiveness.CompletableExactly | app/storage/postgres/client.py:838-905 | of every reachable state of a submitted job: some continuation completes it iff it is complete, or has not failed, lost no slot, was not drained, and has a page stored or a task that can still store one |
| CrawlTermination.StepPotential | app/services/recursive_crawl_service.py:67-70 | no step raises the weight of the outstanding work and each message started on lowers it |
| CrawlTermination.RunPotential | app/services/recursive_crawl_service.py:126-141 | over a run the messages started on plus the weight left never exceed the weight at its start |
| CrawlTermination.CrawlIsBounded | workers/surface-worker/main.py:154-187 | a new job starts on at most as many messages as its root weighs: depth, links per page, one escalation per page or an audio hand-off, by the kind of URL and the worker |
| CrawlBound.BoundIsAttained | workers/surface-worker/main.py:264-361 | for every root and every number of links per page, where there are links enough, some run starts on exactly that many messages |
| CrawlBound.BoundIsAttainedSomewhere | workers/surface-worker/main.py:264-361 | in particular for every root and every kind of URL it can be |
| CrawlBound.TreeIsExceeded | app/services/recursive_crawl_service.py:67-141 | the most messages of a page exceed the pages of its tree iff it is not the deep worker's or has something below it; with nothing below they are 2, or 1 for the deep worker |
| CrawlEnds.StepEffort | app/services/recursive_crawl_service.py:114-151 | every delivery and every step of a handler lowers the effort left, no other step raises it |
| CrawlEnds.CrawlEnds | app/services/recursive_crawl_service.py:67-141 | all deliveries and handler steps of a new job together are at most nine for each message its root can cause |
| CrawlEnds.RestIsQuiescent | workers/common.py:159-187 | in every reachable state of a submitted job everything is finished or some delivery or settlement is possible |
| CrawlScopeRuns.StepScope | app/services/recursive_crawl_service.py:126-141 | every step keeps: a page carries the config and depth limit of its seed, lies within the limit and was accepted by the filter |
| CrawlScopeRuns.RunScope | app/services/recursive_crawl_service.py:84-105 | the same after every interleaving |
| CrawlScopeRuns.BudgetIsNeverUsedUp | workers/surface-worker/main.py:154-187 | in every run only the deep worker's copy of a page has been retried, once, so the budget of 3 never stops an escalation |
| CrawlScope.SubdomainsShareTheDomain | app/services/link_extraction_service.py:733-743 | a subdomain counts as the same domain iff the host itself has at least two labels |
| CrawlScope.SameDomainExactly | app/services/link_extraction_service.py:733-757 | two URLs are on one domain iff both have a host and the dot-separated labels of the hosts are the same, or two at least on either side with the last two equal |
| CrawlScope.PrefixIsSegmentPrefix | app/services/link_extraction_service.py:860-871 | the string test with the slash boundary is list prefix on path segments |
| CrawlScope.StrippedPathOf | app/services/recursive_crawl_service.py:84-97 | the path compared is the parsed path without its trailing slashes |
| CrawlScope.AcceptsExactly | app/services/recursive_crawl_service.py:79-105 | a page accepts a link iff it parses, is http or https, is no trap, passes the other checks and is in scope, by host labels and path segments, of the configured seed, or of the page itself when none is configured |
| CrawlScope.PageAcceptsItself | app/services/link_extraction_service.py:854-871 | a page without a configured seed accepts a link to itself |
| CrawlScope.FilteredExactly | app/services/link_extraction_service.py:808-883 | what filter_links returns to a page: exactly the given links that meet those conditions |
| CrawlScope.CrawlStaysInScope | app/services/link_extraction_service.py:854-871 | over whole runs every page below depth 0 has the same host labels as its seed, or agrees with it in the last two (unless switched off), and its raw path segments extend the seed's |
| CrawlScope.CrawlStaysUnderItsRoot | app/pipeline/main.py:246-250 | when no submission names a seed, that seed is the URL of the depth-0 page the page descends from |
| CrawlScopeRuns.RunOwnSeeds | app/services/discovery_service.py:464-485 | the invariant behind it: the filled-in seed_url is inherited unchanged |
| DotSegments.StaysUnderExactly | app/services/recursive_crawl_service.py:84-97 | going on from a directory ends under it iff every level climbed out of is entered again |
| DotSegments.UnderSeedExactly | app/services/link_extraction_service.py:863-871 | when a URL that passes the prefix test lies under the seed after dot segments are resolved |
| DotSegments.ParentPassesTheTest | app/services/link_extraction_service.py:863-871 | below any seed but the root, ".." passes the prefix test and leaves the seed's directory |
| DotSegments.ParentIsPublished | app/services/recursive_crawl_service.py:84-141 | a new job whose page links there publishes a page outside the submitted page's tree |
| DotSegments.CrawlStaysUnderSeedExactly | app/services/link_extraction_service.py:854-871 | over whole runs, which pages lie under their seed after dot segments are resolved; all without ".." beyond the seed's path |
| CrawlDedup.NoLinkTwice | app/services/recursive_crawl_service.py:116-121 | in every run of a new job whose checks do not overlap another fan-out's check and mark of the same key, no two children share a key and every child's key is marked |
| CrawlDedup.SerialExactly | app/services/dedup_service.py:34-68 | a step meets that condition iff no continuation that keeps it crawls any link twice |
| CrawlDedup.OverlapPublishesTwice | app/services/recursive_crawl_service.py:116-141 | from every state with such an overlap four steps give the job two children with the key of that link |
| CrawlDedup.LinkCrawledTwice | app/services/discovery_service.py:429-461 | a new job can crawl any in-scope link twice: two seeds whose pages share it |
| CrawlResources.NoResourceTwice | app/services/recursive_crawl_service.py:116-121 | with normalize_url as the key and no overlap, no two children of a job name the same resource |
| RecursiveCrawl.DedupService.IsVisited | app/services/dedup_service.py:34-51 | says whether the key is in the set; the probe changes only the mode |
| RecursiveCrawl.DedupService.MarkVisited | app/services/dedup_service.py:53-68 | adds the key and says whether it was new |
| RecursiveCrawl.ExtractAndQueueChildren | app/services/recursive_crawl_service.py:45-156 | row, visited set, topic and the three results against the link-by-link specification, with the guards that queue nothing; queued counts the new links the broker takes, skipped those whose key was seen before |
| RecursiveCrawl.QueueLinks | app/services/recursive_crawl_service.py:114-151 | the loop over the filtered links, with what its two counters count |
| RecursiveCrawl.FilterLinks | app/services/link_extraction_service.py:808-883 | exactly the accepted links, in order |
| RecursiveCrawl.LinksBalance | app/services/recursive_crawl_service.py:107-151 | queued plus skipped plus failed is the number of links, and each reserved slot is carried by a message or given back |
| RecursiveCrawl.LinksCounted | app/services/recursive_crawl_service.py:114-151 | skipped is the number of links whose key was marked or occurred before, queued that of the other links whose send is accepted, failed that of those whose send is refused |
| RecursiveCrawl.FanOutAddsQueued | app/services/recursive_crawl_service.py:110-112 | an uninterrupted fan-out raises the counter by the number queued and cannot change the status |
| RecursiveCrawl.FanOutPublishesExactly | app/services/recursive_crawl_service.py:114-151 | exactly the links with a new key and an accepted send become children, no two with one key, and all keys end up marked |
| RecursiveCrawl.FanOutIsRun | app/services/recursive_crawl_service.py:45-156 | the procedure's effect is a run of the protocol that ends with no slot left over |
| RecursiveCrawl.WrapperIsRun | workers/deep-worker/main.py:3509-3574 | however a page's handler ends, what the wrapper does to the row is a run of the protocol that leaks exactly the slots still reserved |
| JobSubmission.SubmitCrawlJob | app/pipeline/main.py:159-313 | not ready, duplicate, refused and queued submissions: the row, the one message with its defaults, or nothing published |
| JobSubmission.SubmitDiscoveryJob | app/pipeline/main.py:57-156 | rejected exactly for an unknown network or a blank query, turned away without a row when the producer is not ready; otherwise the row and the one search message, whose query is the given one without the blanks at either end |
| JobSubmission.StripTrims | app/pipeline/main.py:86-88 | what strip returns is the part between the outer blanks |
| JobSubmission.RegisterAndPublish | app/pipeline/main.py:264-295 | root slot, then publish, then running, or failed when the broker refuses |
| JobSubmission.SubmissionIsRun | app/pipeline/main.py:264-295 | a submission is a run of the protocol, ending with one published root or with one lost slot |
| JobSubmission.HandOffAudio | app/services/content_ingestion_service.py:339-382 | one more slot and one message, or row and topic as before when the send fails |
| JobSubmission.HandOffIsRun | app/services/content_ingestion_service.py:339-382 | the hand-off is a run of the protocol that keeps no slot back |
| JobSubmission.FanOutSeeds | app/services/discovery_service.py:429-461 | row, topic and count against the seed-by-seed specification |
| JobSubmission.SeedsPublishExactly | app/services/discovery_service.py:464-485 | exactly the seeds whose send is accepted become depth-0 pages, in order, and the counter grows by their number |
| JobSubmission.SeedFanOutIsRun | app/services/discovery_service.py:429-461 | the discovery fan-out is a run of the protocol that ends with no slot left over |
| LlmQueue.SelectDue | app/services/llm_analysis_queue.py:178-186 | taking the earliest due row again and again gives a correct priority take |
| LlmQueue.LLMAnalysisQueue.Enqueue | app/services/llm_analysis_queue.py:132-159 | adds a pending, due row without attempts iff there is none |
| LlmQueue.LLMAnalysisQueue.Claim | app/services/llm_analysis_queue.py:164-215 | at most limit distinct due unlocked rows, none later than one left behind; each picked row afterwards field by field, failed when its payload is corrupt; returned is one item for each picked row that parses, in order, with the id, job, payload and raised attempts of that row |
| LlmQueue.LLMAnalysisQueue.ReturnClaimed | app/services/llm_analysis_queue.py:197-215 | the loop over the returned rows: one item for each that parses, with its own content, the others failed |
| LlmQueue.ParsedItemsExactly | app/services/llm_analysis_queue.py:197-215 | the items are those of the parsing rows, in order, each with the content of its own row |
| LlmQueue.LLMAnalysisQueue.SettleSuccess | app/services/llm_analysis_queue.py:217-230 | removes exactly the listed rows, whoever holds them |
| LlmQueue.LLMAnalysisQueue.Fail | app/services/llm_analysis_queue.py:232-272 | the row afterwards field by field: parked, or pending and due after the delay, whoever holds it, with the first 1000 characters of the error; no other row changes |
| LlmQueue.LLMAnalysisQueue.MarkBatched | app/services/llm_analysis_queue.py:274-310 | moves exactly the listed rows processing under the first entry's worker, field by field, and counts them |
| LlmQueue.LLMAnalysisQueue.RowsForBatch | app/services/llm_analysis_queue.py:312-345 | the batched rows among the ids in the order of the ids, each with its own job and payload; nothing iff the payload of one does not parse |
| LlmQueue.LLMAnalysisQueue.ReclaimStalled | app/services/llm_analysis_queue.py:347-379 | makes exactly the expired processing rows pending, field by field, and counts them |
| LlmQueueRuns.StepRows | app/services/llm_analysis_queue.py:164-379 | every step of any worker keeps the row invariant: never done, and a processing row has next_attempt_at <= claimed_at <= now; rows locked by one open claim are due and locked by no other |
| LlmQueueRuns.RunRows | app/services/llm_analysis_queue.py:164-379 | the same after every interleaving |
| LlmQueueRuns.NoItemIsLost | app/services/llm_analysis_queue.py:132-379 | an unsettled item stays in the table with its job and payload, in one of four statuses, and its attempts are the claims committed on it |
| LlmQueueRuns.EnqueueCounts | app/services/llm_analysis_queue.py:132-159 | after enqueueing a new item its attempts are the claims since |
| LlmQueueRuns.ReclaimedIsClaimable | app/services/llm_analysis_queue.py:347-379 | an expired row is due and unlocked right after the reclaim, and no other row changes |
| LlmQueueRuns.BackoffIsRespected | app/services/llm_analysis_queue.py:178-186 | until the clock reaches next_attempt_at no claim takes a pending item, in any run that does not settle or fail it |
| LlmQueueRuns.ParkedIsFenced | app/services/llm_analysis_queue.py:232-310 | a batched or failed row is neither changed nor claimed until its item is settled or failed |
| LlmQueueRuns.BatchedIsFenced | app/services/llm_analysis_queue.py:347-355 | in a new queue a batched row and its batch id never change and no claim takes it until it is settled or failed |
| LlmQueueProgress.ClaimableExactly | app/services/llm_analysis_queue.py:164-215 | of every reachable state: an item can come to be claimed without being settled or failed iff it is pending or processing |
| LlmQueueRuns.OnlyTheClaimantBatches | app/services/llm_analysis_queue.py:274-296 | a row becomes batched only while processing under the worker that hands it over |
| LlmQueueRuns.ExclusiveStepExactly | app/services/llm_analysis_queue.py:217-310 | a step keeps every live worker in sole possession of its item iff it does not touch the row of another live worker's item |
| LlmQueueRuns.LeasesAreExclusive | app/services/llm_analysis_queue.py:164-215 | in every run of a new queue in which workers act only within their lease no item is held by two live workers |
| LlmQueueFencing.HeldTwiceExactly | app/services/llm_analysis_queue.py:217-310 | after a step that touches a live worker's row, a disciplined continuation lets two live workers hold the item iff the row was removed, batched, or delayed to a time within the lease |
| LlmQueueFencing.StaleFailureBreaksExclusivity | app/services/llm_analysis_queue.py:232-272 | after a late failure report of an earlier claim a third claim makes two live workers hold the item |
| LlmQueueFencing.StaleHolderReached | app/services/llm_analysis_queue.py:347-379 | a new queue reaches the situation of the previous row |
| LlmQueueFencing.HandOverFence | app/services/llm_analysis_queue.py:274-310 | a stale hand-over moves the live holder's row iff both are the same worker |
| Hamming.HammingDistance | app/services/content_fingerprint_service.py:246-264 | the clear-lowest-bit loop ends and returns how many of the 64 positions differ |
| Hamming.IsNearDuplicate | app/services/content_fingerprint_service.py:267-278 | the distance is at most the threshold |
| Hamming.DistanceIsMetric | app/services/content_fingerprint_service.py:246-264 | symmetric, at most 64, zero iff congruent modulo 2^64, triangle inequality |
| Hamming.NearDuplicatesChain | app/services/content_fingerprint_service.py:267-278 | near-duplicate thresholds add |
| SimHash.CountVotes | app/services/content_fingerprint_service.py:222-231 | each entry is ones minus zeros of that bit over all shingles |
| SimHash.ShingleText | app/services/content_fingerprint_service.py:181-190 | the k-th shingle is the k-th three words with blanks between, and a shorter text is its own shingle |
| SimHash.Simhash | app/services/content_fingerprint_service.py:199-243 | a signed 64-bit value whose bit i is set iff more than half of the shingle hashes have it |
| SimHash.FingerprintUnique | app/services/content_fingerprint_service.py:233-243 | the majorities determine the stored value |
| SimHash.FingerprintIgnoresOrder | app/services/content_fingerprint_service.py:218-231 | the fingerprint depends only on the multiset of shingles |
| SimHash.ShinglesChangedTotal | app/services/content_fingerprint_service.py:181-190 | replacing m words changes at most 3m shingles |
| SimHash.VotesMove | app/services/content_fingerprint_service.py:222-231 | replacing m words moves each vote by at most 6m |
| SimHash.SimhashIsLocal | app/services/content_fingerprint_service.py:199-264 | when m words are replaced the distance is at most the number of bits with vote in (-6m, 6m] |
| PercentCodec.UnquoteQuote | app/services/link_extraction_service.py:607-617 | percent-decoding undoes percent-encoding for every byte string |
| PercentCodec.QuoteExactly | app/services/link_extraction_service.py:607-617 | at every position an unreserved or safe byte stays and any other becomes "%" and its two upper-case hex digits |
| PercentCodec.UnquoteEscape | app/services/link_extraction_service.py:607-617 | an escape with hex digits of either case is decoded |
| PercentCodec.UnquoteStray | app/services/link_extraction_service.py:607-617 | a "%" that two hex digits do not follow is left alone |
| PercentCodec.QuoteInjective | app/services/link_extraction_service.py:607-617 | two byte strings with the same encoding are equal |
| QueryCodec.ParamsRoundTrip | app/services/link_extraction_service.py:642-646 | parsing a printed parameter dictionary gives the dictionary back |
| QueryCodec.QuotePlusExactly | app/services/link_extraction_service.py:646 | at every position of a key or value a blank becomes a plus sign, an unreserved byte stays and any other becomes "%" and its two upper-case hex digits |
| QueryCodec.QueryStepParses | app/services/link_extraction_service.py:642-646 | parsing the canonical query gives exactly the parameters whose lower-cased name is not junk, with all their values in order |
| QueryCodec.QueryStepIdempotent | app/services/link_extraction_service.py:642-646 | the query step is idempotent |
| QueryCodec.QueryStepEqual | app/services/link_extraction_service.py:642-646 | two queries get one canonical form iff every parameter that is not junk has the same values in both |
| QueryCodec.FieldExactly | app/services/link_extraction_service.py:642 | a field is cut at its first "=" and dropped without one or with nothing behind it |
| QueryCodec.PlusIsBlank | app/services/link_extraction_service.py:642 | a plus sign in a query is read as a blank |
| QueryCodec.ParseOneMore | app/services/link_extraction_service.py:642 | one more field adds its value to those of its key, unless it is blank |
| QueryCodec.JunkMakesNoDifference | app/services/link_extraction_service.py:643-646 | a junk or blank parameter at the end leaves the canonical query as it is |
| QueryCodec.OthersAreKept | app/services/link_extraction_service.py:643-646 | any other parameter becomes the last value of its key, all other keys stay, and the canonical query changes |
| QueryCodec.QueryStepSorted | app/services/link_extraction_service.py:646 | the canonical query lists its parameters by name in byte order |
| QueryCodec.QueryStepAlphabet | app/services/link_extraction_service.py:668-669 | the canonical query is printable and opens no fragment |
| UrlNormalization.NormalizePathIdempotent | app/services/link_extraction_service.py:607-617 | the percent-encoding step is idempotent on every path |
| UrlNormalization.CleanExactly | app/services/link_extraction_service.py:640 | urlparse drops the blanks and control bytes in front and every tab and line break, nothing else |
| UrlNormalization.SplitSchemeExactly | app/services/link_extraction_service.py:640 | the text before the first colon is cut off and lower-cased iff it is a scheme |
| UrlNormalization.SchemeExactly | app/services/link_extraction_service.py:640 | a scheme is a letter followed by letters, digits, "+", "-" and "." |
| UrlNormalization.PathStepMeans | app/services/link_extraction_service.py:648-652 | the path step is the re-encoded decoded path without its trailing slashes, or the root |
| UrlNormalization.PathStepIdempotent | app/services/link_extraction_service.py:648-652 | the path step is idempotent on every path |
| UrlNormalization.DecimalRoundTrip | app/services/link_extraction_service.py:663-665 | a printed port reads back as itself |
| UrlIdempotence.AuthorityFixed | app/services/link_extraction_service.py:654-665 | a canonical host part is its own canonical form |
| UrlIdempotence.CanonicalSplit | app/services/link_extraction_service.py:667-671 | splitting a canonical URL gives back the four components it was printed from |
| UrlIdempotence.NormalizeTwice | app/services/link_extraction_service.py:620-675 | normalizing twice changes only the path, by what the second urlparse cuts off |
| UrlIdempotence.IdempotentExactly | app/services/link_extraction_service.py:620-675 | normalize_url is idempotent on a URL iff it cannot be normalized or keeps no semicolon in the last segment of its decoded path |
| UrlIdempotence.SemicolonIsLost | app/services/link_extraction_service.py:620-675 | a concrete URL on which normalizing twice differs |
| UrlEquality.AuthorityEqual | app/services/link_extraction_service.py:654-665 | two canonical host parts are equal iff hosts and effective ports are, a default port being the same as none |
| UrlEquality.PathEqual | app/services/link_extraction_service.py:648-652 | two canonical paths are equal iff the decoded paths without trailing slashes are |
| UrlEquality.CanonicalParts | app/services/link_extraction_service.py:620-675 | urlsplit of a canonical URL gives its scheme, host part, path and query |
| UrlEquality.SameKeyExactly | app/services/link_extraction_service.py:620-675 | any two URLs get one dedup key iff what urlparse makes of them agrees in scheme, host, effective port, decoded path without ";" parameters and the values of every parameter that is not junk, or, when one cannot be normalized, iff they are the same text |
| UrlEquality.ParametersDoNotCount | app/services/link_extraction_service.py:648-652 | URLs that differ only in the ";" parameters of the last segment get one key |
| UrlQuery.SplitWithQuery | app/services/link_extraction_service.py:640 | a query behind a URL changes its query component only |
| UrlQuery.JunkLeavesTheKey | app/services/link_extraction_service.py:620-675 | a junk or blank parameter at the end of a URL leaves its dedup key as it is |
| UrlQuery.ParameterIsKept | app/services/link_extraction_service.py:620-675 | any other parameter gives another key, in which it is the last value of its name and all others are as before |
| CrawlerTrap.HasTriple | app/services/link_extraction_service.py:310-317 | true iff some segment occurs three times in a row |
| CrawlerTrap.HasFrequent | app/services/link_extraction_service.py:319-324 | true iff some segment occurs at least four times |
| CrawlerTrap.TripleExactly | app/services/link_extraction_service.py:310-317 | the first test is that three segments in a row are equal |
| CrawlerTrap.FrequentExactly | app/services/link_extraction_service.py:319-324 | the second is that one segment stands at four places at least |
| CrawlerTrap.TrapExactly | app/services/link_extraction_service.py:298-331 | the whole test with its limits: 2000 characters, 12 non-empty segments, 12 parameters, six segments for the second test |
| CrawlerTrap.IsCrawlerTrap | app/services/link_extraction_service.py:298-331 | true of a URL iff it is too long, or parses and is too deep, has too many parameters, a triple, or six or more segments with one four times |
| DiscoveryMerge.MergeSeeds | app/services/discovery_service.py:289-307 | the nested loops return the first n elements of the first-per-key filter of all groups |
| DiscoveryMerge.FirstsExact | app/services/discovery_service.py:240-252 | the filter keeps every key and one URL for each |
| DiscoveryMerge.MergeCount | app/services/discovery_service.py:240-252 | as many seeds as there are distinct keys, up to the limit |
| DiscoveryMerge.DiscoverAllNetworks | app/services/discovery_service.py:211-258 | the search over all networks is the merge of the networks' capped merges |
| DiscoveryMerge.CappedKeyCount | app/services/discovery_service.py:260-307 | a network returns as many distinct keys of its own as it found, up to its quota |
| DiscoveryMerge.AllSearchCount | app/services/discovery_service.py:211-252 | how many seeds come back for any limit: the distinct keys of the three capped networks, up to n; one at most below 1 |
| DiscoveryMerge.DisjointSearchCount | app/services/discovery_service.py:220-252 | for networks that found different things n seeds come back iff their finds, each up to its quota, add up to n |
| DiscoveryMerge.AllNetworksFill | app/services/discovery_service.py:211-252 | networks that each find their quota of different seeds together give everything asked for |
| DiscoveryMerge.OneNetworkIsCapped | app/services/discovery_service.py:220-252 | when one network alone finds enough, the search returns only its quota, fewer than asked for from n = 2 on |

## Left out

- Messages.ProcessMessageSafely: the semaphore, the job-log tag and the `crawl_log` rows it writes for the UI.
- JobRow.JobTable.CompleteJobTask: `completed_at`, the explanatory `crawl_log` rows and the published events.
- JobRow statuses `skipped` and `queued`: no statement of the modelled code writes them.
- CrawlTermination.CrawlIsBounded: takes the links per page as bounded by a given number, which the code does not enforce.
- CrawlBound.BoundIsAttained: the site must have links enough; the 2000-character limit on URLs makes their number finite.
- CrawlEnds.CrawlEnds: writing a crawl_log row more than once is not counted as a step.
- JobSubmission.SubmitDiscoveryJob: blanks outside ASCII, which the source strips too.
- DotSegments.CrawlStaysUnderSeedExactly: percent-encoded dots that an HTTP client might decode; links are taken as published.
- JobOutcome.OutcomeIsFinal: the unused needs_review and completed writes of update_job_status are not steps.
- CrawlScope.CrawlStaysInScope: the registrable domain is the last two labels; public-suffix data (tldextract) is an outside table.
- RecursiveCrawl.DedupService.IsVisited: the RedisBloom path, errors that make it fail open, and the 24-hour expiry set at the last level.
- JobSubmission.SubmitCrawlJob: user lookup, forced routing of jobs with credentials, and how the duplicate guard finds the active job.
- JobSubmission.HandOffAudio: the item id, language and size fields of the request.
- LlmQueue.LLMAnalysisQueue.Claim: PostgreSQL promises no order for the returned rows; the model returns them in the order they were picked.
- LlmQueue.LLMAnalysisQueue.Enqueue: exceptions of the database, which the code logs and reports as not queued.
- SimHash.Simhash: text normalisation and MD5; the model starts from the word list and an arbitrary 64-bit hash.
- UrlIdempotence.IdempotentExactly: hosts in brackets (IPv6) count as unparsable, and host names are taken as ASCII (no IDNA, no NFKC check).
- UrlNormalization.NormalizePathIdempotent: replacement of byte sequences that are not valid UTF-8.
- DiscoveryMerge.MergeSeeds: querying the engines and reading their result pages.
- Kafka redelivery, database exceptions inside a settlement, and sends that raise after being stored.
- HTML parsing, the pattern lists of filter_links (assets, junk and short-link domains, video, redirect and non-content pages, skip_domains, allowed patterns): one arbitrary predicate.
- The URL normaliser of content_fingerprint_service, content hashing and the near-duplicate store.
- Introspection (`depth`, `oldest_pending_age_seconds`), pause polling, health and metrics endpoints.
- Browser automation, authentication, alerts, object storage, the report builder and the user interface.
