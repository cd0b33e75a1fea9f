# icicle build queue, dashboard and GitHub webhook — a Dafny model

icicle is a small Nix CI server. GitHub sends it webhooks. It evaluates the
derivations a workflow needs and keeps them in an in-memory build queue: a
dependency DAG whose nodes are build jobs. The queue hands ready jobs to
executors, propagates each finished build's outcome through the DAG, and tells
the caller which workflows have just completed. A dashboard renders the queue.

This project models three parts of icicle in Dafny.

**The build queue** (`src/build/mod.rs`), in the modules `BuildTypes`,
`JobGraph`, `PendingCounters`, `QueueIntake`, `BuildQueue` and `QueueFacts`.
- `BuildQueueState` is a class whose fields the methods update in place:
  - `jobs` is the node weights of the DAG, keyed by node index;
  - `edges` is the DAG's edges;
  - `drvToNode` maps each derivation path to its node;
  - `ready` is the list of nodes waiting to be handed out;
  - `pendingWorkflows` holds each workflow's count of unfinished jobs.
- Each method is proved against a step relation between value snapshots of
  the queue: `AddJobsStep`, `ErrorStep`, `SuccessStep`, `UpdateStep` and
  `Cleared`.
- Each method also keeps the queue invariant `Consistent`.
- The lemmas in `QueueFacts` spell out what those steps mean in the queue's
  own terms:
  - an error cancels exactly the failed job's descendants;
  - a success releases exactly the children it was the last parent of;
  - a workflow is reported complete exactly once, when its counter runs out;
  - `add_jobs` counts one unit of work per new job and one per unfinished
    duplicate;
  - `clear_workflow` removes exactly the jobs nobody else requested.

**The dashboard** (`src/dashboard/mod.rs`), in the module `Dashboard`.
- The job-queue section counts jobs per status and sorts the rows stably by
  build priority.
- The workflow section groups jobs by workflow and summarises each
  workflow's progress. It sorts the workflows by descending id.
  `BuildWorkflowSection` models it as written, reading each job's
  `derivation.status`. `BuildWorkflowSectionCorrected` reads the queue's
  status instead (see "## Findings").

**The webhook** (`src/webhook/mod.rs`), in the module `Webhook`.
- It checks the `sha256=` signature against a keyed MAC of the body.
- It dispatches push and pull-request events and ignores every other event.
- It extracts the commit and branch of a push.
- It filters pull requests by action.

The two sorts that `sort_by` performs in the dashboard are modelled by their
results:
- The priority sort is a concatenation of buckets, which makes it stable by
  construction.
- The id sort is an insertion sort.

Iteration over a `HashSet` or `HashMap` is modelled by picking any element
(`BuildQueue.PickOne`, or `:|`). Every contract therefore holds for every
iteration order.

## Model

| member | source | states |
|---|---|---|
| BuildTypes.ErrorIsDone | src/build/mod.rs:46-59 | every error status (Failed, Timedout, Canceled) is also a done status |
| JobGraph.Children | src/build/mod.rs:198-203 | a node's children are exactly the targets of its outgoing edges |
| JobGraph.Parents | src/build/mod.rs:225-234 | a node's parents are exactly the sources of its incoming edges |
| JobGraph.ReachBounds | src/build/mod.rs:176-206 | the nodes reachable from the seeds include the seeds, and every other reachable node is the target of some edge |
| JobGraph.ReachClosed | src/build/mod.rs:198-203 | every child of a reachable node is reachable |
| JobGraph.ReachLeast | src/build/mod.rs:198-203 | reachability is the least set that contains the seeds and is closed under children |
| PendingCounters.Requesting | src/build/mod.rs:182-192 | the jobs in a set that a workflow requested are exactly those listing it in `requested_by` |
| PendingCounters.SettlePartition | src/build/mod.rs:182-192 | finishing jobs creates no counter; each workflow either keeps its counter or is reported complete, never both; remaining counters stay positive and never rise; a workflow that requested none of the finished jobs keeps its counter |
| PendingCounters.DemandUnion | src/build/mod.rs:182-192 | the number of finished jobs a workflow requested adds up over disjoint sets |
| PendingCounters.SettleCompose | src/build/mod.rs:176-206 | settling counters for one set of jobs and then for a disjoint set equals settling them for the union |
| PendingCounters.FinishedCompose | src/build/mod.rs:176-206 | the workflows reported for two disjoint sets of jobs, settled one after the other, are disjoint and together are those reported for the union |
| PendingCounters.SettleSingle | src/build/mod.rs:182-192 | one pass of the saturating-decrement loop over a job's requesters equals settling the counters for that job, and it reports exactly the workflows whose counters ran out |
| PendingCounters.DecrementStep | src/build/mod.rs:183-192 | one more turn of the decrement loop extends the once-decremented counters by that workflow, and the reported workflows by it exactly when its counter ran out |
| PendingCounters.SettleFrame | src/build/mod.rs:182-192 | the settled counters depend only on who requested the finished jobs, not on their statuses |
| QueueIntake.Paths | src/build/mod.rs:105-137 | the set of derivation paths of a batch contains the path of each of its elements |
| QueueIntake.IntakeOne | src/build/mod.rs:105-137 | one turn of the node pass keeps every path pointing at a node holding that path |
| QueueIntake.IntakeAll | src/build/mod.rs:105-137 | after the node pass, every path of the batch has a node, and paths already present keep their node |
| QueueIntake.IntakeBound | src/build/mod.rs:105-137 | the node pass keeps every old node and allocates exactly one new index per new job, contiguously from the old bound |
| QueueIntake.IntakeWellIndexed | src/build/mod.rs:105-137 | the node pass keeps `drv_to_node` and the nodes in one-to-one correspondence |
| QueueIntake.IntakeOneKeeps | src/build/mod.rs:106-115 | one turn of the node pass adds the workflow to the requesters of the node holding the derivation's path, and leaves every other existing node as it was |
| QueueIntake.IntakeKeeps | src/build/mod.rs:106-115 | a job already in the queue keeps its derivation and status, and gains the workflow as a requester exactly when its path is in the batch |
| QueueIntake.IntakeFresh | src/build/mod.rs:118-136 | with distinct paths, each new path gets a fresh node holding its derivation, requested by the workflow alone, Ready iff it has no inputs and Queued otherwise |
| QueueIntake.IntakeRoots | src/build/mod.rs:118-136 | the roots collected are exactly the new Ready nodes, each once, in creation order |
| QueueIntake.IntakeCounts | src/build/mod.rs:105-143 | with distinct paths, the new-job count is the number of batch paths new to the queue, and the duplicate count is the number of batch paths already queued whose job is not done |
| QueueIntake.DepEdges | src/build/mod.rs:147-153 | the edges made for one derivation include an edge from each of its inputs' nodes to its own node |
| QueueIntake.DepEdgesWitness | src/build/mod.rs:147-153 | every edge made for one derivation comes from one of its inputs |
| QueueIntake.BatchEdges | src/build/mod.rs:145-154 | the edge pass adds an edge from each input of each derivation of the batch to that derivation's node |
| QueueIntake.BatchEdgesWitness | src/build/mod.rs:145-154 | the edge pass adds no other edge |
| BuildQueue.EdgesOutside | src/build/mod.rs:194-203 | the edges left after an error are exactly the old edges not pointing into the canceled set |
| BuildQueue.Unblocked | src/build/mod.rs:225-234 | the children released by a success are exactly those whose every parent is the finished node |
| BuildQueue.EdgesNotFrom | src/build/mod.rs:225-234 | the edges left after a success are exactly the old edges not leaving the finished node |
| BuildQueue.ConsistentRelabel | src/build/mod.rs:176-237 | changing statuses, dropping edges and settling counters keep the queue invariant |
| BuildQueue.ErrorLoopDone | src/build/mod.rs:198-205 | when the recursive cancel walk ends, it has visited exactly the nodes reachable from the failed node, and it has made an `ErrorStep` |
| BuildQueue.SuccessLoopDone | src/build/mod.rs:225-236 | when the walk over the children ends, it has made the job, edge and ready-list parts of a `SuccessStep` |
| BuildQueue.AddJobsConsistent | src/build/mod.rs:99-160 | `add_jobs` keeps the queue invariant |
| BuildQueue.AddPendingPositive | src/build/mod.rs:139-143 | adding work to a workflow's counter keeps every counter positive |
| BuildQueue.ErrorConsistent | src/build/mod.rs:176-206 | an `ErrorStep` from a consistent queue keeps the queue invariant and the set of jobs |
| BuildQueue.SuccessConsistent | src/build/mod.rs:207-237 | a `SuccessStep` from a consistent queue keeps the queue invariant and the set of jobs |
| BuildQueue.ClearStep | src/build/mod.rs:239-249 | one entry of `clear_workflow`'s loop extends the cleared state by that node, whatever the iteration order |
| BuildQueue.ClearConsistent | src/build/mod.rs:238-250 | `clear_workflow` keeps the queue invariant |
| BuildQueue.JobsAt | src/build/mod.rs:272-280 | the drained jobs are the jobs at the ready indices, in order |
| BuildQueue.NodeWeights | src/build/mod.rs:311-314 | `get_jobs` lists one job per live node, every live node's job, and nothing else |
| BuildQueue.RequestedBy | src/build/mod.rs:300-309 | `get_workflow_jobs` holds exactly the listed jobs whose `requested_by` contains the workflow, and nothing from an empty list |
| BuildQueue.RequestedByAppend | src/build/mod.rs:300-309 | listing one more job appends it exactly when the workflow requested it, so the result keeps the order and multiplicity of the listed jobs |
| BuildQueue.PickOne | src/build/mod.rs:182-203 | the next item of a hash-set iteration is some element of the set |
| BuildQueue.BuildQueueState.constructor | src/build/mod.rs:253-255 | a new queue is empty and satisfies the queue invariant |
| BuildQueue.BuildQueueState.DecrementCounters | src/build/mod.rs:182-192 | the saturating-decrement loop settles the counters for the job, and reports each workflow whose counter ran out exactly once |
| BuildQueue.BuildQueueState.DecrementWorkflow | src/build/mod.rs:185-191 | a workflow's counter, if it has one, drops by one (saturating) and is removed at zero; the result says whether it was removed |
| BuildQueue.BuildQueueState.MarkFinished | src/build/mod.rs:179-192 | the job takes its new status and the counters of its requesters are settled for it, reporting exactly the workflows whose counters ran out; counters stay positive |
| BuildQueue.BuildQueueState.RemoveParentEdges | src/build/mod.rs:194-197 | every edge into the failed node is removed, and no other edge |
| BuildQueue.BuildQueueState.PropagateError | src/build/mod.rs:176-206 | `propagate_error` makes an `ErrorStep` and keeps the queue invariant |
| BuildQueue.BuildQueueState.CancelChild | src/build/mod.rs:198-203 | one turn of the walk pushes the child, removes its edge, and cancels it recursively (an `ErrorStep` from that child with status Canceled) |
| BuildQueue.BuildQueueState.CancelNextChild | src/build/mod.rs:199-202 | one turn of the children walk removes at least one edge and extends the walk's invariant by everything reachable from the child |
| BuildQueue.BuildQueueState.PropagateSuccess | src/build/mod.rs:207-237 | `propagate_success` makes a `SuccessStep` and keeps the queue invariant |
| BuildQueue.BuildQueueState.UnblockChildren | src/build/mod.rs:225-234 | the walk removes the finished node's outgoing edges, and marks Ready and pushes, once each, exactly the children it was the last parent of |
| BuildQueue.BuildQueueState.VisitChild | src/build/mod.rs:226-233 | removing one edge makes the child Ready and pushes it iff it has no parent left; otherwise nothing else changes |
| BuildQueue.BuildQueueState.UpdateStatus | src/build/mod.rs:161-175 | `update_status` makes an `UpdateStep` (an unknown path changes nothing; an error status propagates the error; another done status propagates success; any other status only sets the job's status) and keeps the invariant |
| BuildQueue.BuildQueueState.AddNode | src/build/mod.rs:106-136 | one turn of the node loop leaves the queue and the accumulators equal to one step `IntakeOne` of the node pass |
| BuildQueue.BuildQueueState.AddNodes | src/build/mod.rs:105-137 | the node loop leaves the queue and its three accumulators equal to the node pass `IntakeAll` |
| BuildQueue.BuildQueueState.AddEdges | src/build/mod.rs:145-154 | the edge loop adds exactly `BatchEdges`, an existing edge being added once |
| BuildQueue.BuildQueueState.AddBatch | src/build/mod.rs:99-160 | the three passes of `add_jobs` together make an `AddJobsStep` |
| BuildQueue.BuildQueueState.AddWork | src/build/mod.rs:139-159 | after the node pass: the counter gains the work counted, the edge pass adds exactly `BatchEdges`, the roots are appended to `ready`, and the result is true iff no work was counted |
| BuildQueue.BuildQueueState.AddJobs | src/build/mod.rs:99-160 | `add_jobs` makes an `AddJobsStep` (node pass, counter, edge pass, roots appended to `ready`, result true iff no work was counted) and keeps the invariant |
| BuildQueue.BuildQueueState.AddPendingWork | src/build/mod.rs:139-143 | the counter gains the total when it is positive and is untouched when it is zero |
| BuildQueue.BuildQueueState.ClearWorkflow | src/build/mod.rs:238-250 | `clear_workflow` leaves the queue as `Cleared` over every node, and keeps the invariant |
| BuildQueue.BuildQueueState.ClearNode | src/build/mod.rs:239-249 | the workflow leaves the job; a job nobody requests any more is removed with its path and its edges |
| BuildQueue.BuildQueueState.DrainReadyJobs | src/build/mod.rs:272-280 | `ready` is emptied, and the result is the jobs at the old ready indices, in order |
| QueueFacts.ReachInJobs | src/build/mod.rs:176-206 | in a consistent queue, the failed node and everything reachable from it are jobs of the queue |
| QueueFacts.ErrorCancelsDescendants | src/build/mod.rs:176-206 | after an error: the failed job takes the error status; each of its descendants is Canceled and pushed to `ready` exactly once; every other job is unchanged and not pushed; exactly the edges into the failed job and its descendants are gone |
| QueueFacts.SuccessUnblocks | src/build/mod.rs:207-237 | after a success: exactly the finished node's outgoing edges are gone; a child is pushed (once) iff it has no parent left, and is then Ready; every other job is unchanged and not pushed |
| QueueFacts.SuccessCounters | src/build/mod.rs:213-222 | after a success, no counter appears; a requesting workflow's counter drops by one, or is removed when it was one; other counters are unchanged |
| QueueFacts.ErrorCounters | src/build/mod.rs:182-192 | after an error, no counter rises, and a workflow that requested none of the canceled jobs keeps its counter |
| QueueFacts.ReportsOnce | src/build/mod.rs:161-175 | `update_status` reports each workflow at most once, exactly when its counter is removed; every remaining counter is positive and no higher than before |
| QueueFacts.UpdateKeepsConsistent | src/build/mod.rs:161-175 | every `UpdateStep` from a consistent queue leads to a consistent queue |
| QueueFacts.UpdateKeepsDerivations | src/build/mod.rs:161-237 | no status update changes the set of jobs, nor any job's derivation or requesters |
| QueueFacts.NothingPending | src/build/mod.rs:139-159 | with distinct paths, `add_jobs` counts no work iff every derivation of the batch was already queued and done |
| QueueFacts.AddJobsCounts | src/build/mod.rs:99-160 | `add_jobs` with distinct paths: the bound grows by the number of new paths; new nodes lie between the old and new bound; the work counted for the workflow (`AddedWork`, what `AddJobsStep` adds to its counter) is one per new path plus one per unfinished duplicate; the result is true iff every path was already queued and done |
| QueueFacts.ClearEffect | src/build/mod.rs:238-250 | after `clear_workflow`: the workflow is in no `requested_by` and no job is left unrequested; other workflows' jobs survive with derivation and status; jobs only it requested are gone with their path and edges; `ready` and counters are untouched; the queue stays consistent |
| QueueFacts.ClearIdempotent | src/build/mod.rs:238-250 | clearing the same workflow twice is the same as clearing it once |
| QueueFacts.GetJobsComplete | src/build/mod.rs:311-314 | in a consistent queue, `get_jobs` holds one entry per job and every job appears |
| Dashboard.Info | src/dashboard/mod.rs:126-133 | a row shows the job's path, its queue status and its number of requesters |
| Dashboard.Infos | src/dashboard/mod.rs:112-134 | one row per job, in order |
| Dashboard.StatsTotal | src/dashboard/mod.rs:112-124 | the eight per-status counters add up to the total, which is the number of jobs |
| Dashboard.Priority | src/dashboard/mod.rs:138-147 | priorities lie in 0..7 |
| Dashboard.PriorityInjective | src/dashboard/mod.rs:138-147 | no two statuses share a priority |
| Dashboard.Keep | src/dashboard/mod.rs:137-149 | the rows of one priority, all of that priority |
| Dashboard.KeepAppend | src/dashboard/mod.rs:137-149 | selecting one priority distributes over concatenation |
| Dashboard.BucketAppend | src/dashboard/mod.rs:137-149 | a bucket of one priority followed by sorted rows of higher priorities is sorted |
| Dashboard.BucketsCorrect | src/dashboard/mod.rs:137-149 | the buckets from priority p onward are sorted, hold exactly the rows of priority p or more, and keep each priority's rows in their original order |
| Dashboard.SortByPriorityCorrect | src/dashboard/mod.rs:137-149 | the sorted rows are ordered by priority, are a permutation of the input, and keep each priority's rows in their original order (a stable sort) |
| Dashboard.StatsStep | src/dashboard/mod.rs:113-124 | counting one more job increments the total and exactly that job's status counter |
| Dashboard.CollectJobs | src/dashboard/mod.rs:112-134 | the loop's counters are the per-status counts of the jobs, and its rows are one per job, in order |
| Dashboard.BuildJobQueueSection | src/dashboard/mod.rs:98-152 | the stats count the queue's jobs per status and add up to the total; the rows are the queue's jobs sorted stably by priority |
| Dashboard.AsU8 | src/dashboard/mod.rs:195 | the `u8` cast yields a value below 256 and keeps any value below 256 |
| Dashboard.FinishedCounts | src/dashboard/mod.rs:179-193 | successful, failed and cached jobs add up to at most the total, and to exactly the total iff every job is one of those |
| Dashboard.PercentBound | src/dashboard/mod.rs:194-195 | the percentage of finished jobs is at most 100, and is exactly 100 iff all are finished |
| Dashboard.SummaryProgress | src/dashboard/mod.rs:179-198 | counts are bounded by the total; progress is the floor of finished·100/total, never truncated by the cast, 0 for no jobs, and 100 iff there are jobs and all are finished |
| Dashboard.Details | src/dashboard/mod.rs:170-176 | one detail per job, in order, with its name and the status given |
| Dashboard.WorkflowEntryAsWritten | src/dashboard/mod.rs:168-210 | as written: the entry's summary and details read each job's `derivation.status` |
| Dashboard.WorkflowEntry | src/dashboard/mod.rs:168-210 | corrected: the entry's summary and details read each job's queue status |
| Dashboard.WorkflowEntryTracksQueue | src/dashboard/mod.rs:168-210 | the corrected entry reaches 100% iff the workflow has jobs and the queue has finished all of them, and each detail shows the job's queue status |
| Dashboard.StaleProgress | src/dashboard/mod.rs:171-198 | a successfully built job whose derivation still says Queued shows 0 completed and 0% as written; the corrected entry shows 1 completed and 100% |
| Dashboard.RequestersCorrect | src/dashboard/mod.rs:155-165 | a workflow requests some listed job iff its list of requested jobs is non-empty |
| Dashboard.AppendToGroups | src/dashboard/mod.rs:159-164 | the job is appended to the list of each workflow that requested it, and the other lists are unchanged |
| Dashboard.GroupByWorkflow | src/dashboard/mod.rs:155-165 | there is one list per workflow requesting some job, holding exactly that workflow's jobs in `get_jobs` order |
| Dashboard.SortByIdDesc | src/dashboard/mod.rs:213-214 | the entries come out ordered by descending id and are a permutation of the input |
| Dashboard.EntriesOf | src/dashboard/mod.rs:167-211 | one entry per group, in any map order, each built from its group reading the chosen status, with distinct ids |
| Dashboard.WorkflowSection | src/dashboard/mod.rs:154-217 | for either status reading: one entry per workflow requesting some job, with strictly descending ids, each built from exactly that workflow's jobs in index order |
| Dashboard.BuildWorkflowSection | src/dashboard/mod.rs:154-217 | as written: one entry per workflow requesting some job, with strictly descending ids, each the as-written entry (reading `derivation.status`) of exactly that workflow's jobs in index order |
| Dashboard.BuildWorkflowSectionCorrected | src/dashboard/mod.rs:154-217 | corrected: the same section with each entry reading the queue status, so each entry tracks the queue |
| Webhook.Code | src/webhook/mod.rs:69-220 | bad requests answer 400, unauthorized requests 401 and internal errors 500, each a 4xx or 5xx status |
| Webhook.HeaderText | src/webhook/mod.rs:120-126 | a header reads as text iff it is present and its value is valid visible ASCII |
| Webhook.StripPrefix | src/webhook/mod.rs:128-133 | stripping succeeds iff the prefix is a prefix, and then prefix + rest is the input |
| Webhook.StripPrefixAppend | src/webhook/mod.rs:128-133 | stripping a prefix from prefix + rest gives back rest |
| Webhook.VerifySignature | src/webhook/mod.rs:119-150 | the check passes iff the header is present, the MAC can be keyed, and the header is `sha256=` followed by the digest; otherwise 401, or 500 only when the key is refused |
| Webhook.MalformedSignatureRefused | src/webhook/mod.rs:120-131 | a missing, non-text or unprefixed signature header is refused with 401 |
| Webhook.SignatureMatches | src/webhook/mod.rs:133-147 | with a well-formed header, the check passes iff the hex part equals the digest of the body, and is otherwise 401 |
| Webhook.CommitSha | src/webhook/mod.rs:153-160 | a commit is found iff the payload has `after` or a head commit |
| Webhook.HandlePush | src/webhook/mod.rs:152-183 | a processed push reports the repository's full name |
| Webhook.PushCommit | src/webhook/mod.rs:153-160 | the commit is `after` when present, else the head commit's id, else the push is refused with 400 |
| Webhook.PushBranch | src/webhook/mod.rs:162-166 | the branch is `ref` without `refs/heads/`, or "unknown" when there is no such ref |
| Webhook.HandlePullRequest | src/webhook/mod.rs:185-220 | a handled pull request is either processed or ignored |
| Webhook.PullRequestFilter | src/webhook/mod.rs:185-220 | a missing pull request is refused with 400; otherwise it is processed iff its action is opened, synchronize or reopened, and a processed one reports its number and head sha |
| Webhook.Dispatch | src/webhook/mod.rs:106-116 | only a push event is processed as a push, and only a pull_request event as a pull request |
| Webhook.HandleGitHubWebhook | src/webhook/mod.rs:69-117 | an unreadable body is refused with 400 |
| Webhook.NoSecretSkipsVerification | src/webhook/mod.rs:82-89 | without a secret, the answer depends neither on the signature header nor on the MAC |
| Webhook.SignedOnly | src/webhook/mod.rs:82-89 | with a secret, an accepted request carried `sha256=` followed by the body's digest |
| Webhook.OtherEventsIgnored | src/webhook/mod.rs:92-116 | an unparseable payload is refused with 400; any event other than push and pull_request, including a missing event header, is acknowledged as ignored |
| Webhook.OnlyPushAndPullRequest | src/webhook/mod.rs:69-117 | a processed push came with event type push, and a processed pull request with pull_request |

## Left out

- Concurrency: the `Mutex` around the queue state and the `Notify` wake-up are not modelled. This covers `add_workflow`'s and `update_status`'s `notify_one` (src/build/mod.rs:259-265, 284-292) and `wait_for_ready_jobs`. Each method of `BuildQueueState` is one critical section.
- Node indices: a new node takes the index `nodeBound`, one past every index ever used. `StableGraph`'s reuse of freed slots is not modelled. Only the fact that fresh indices are unused matters to the properties.
- The children walk: the `daggy` walkers over parents and children are modelled as iteration over the live edge set. Every iteration order is allowed.
- Cycles: the `unwrap` on `add_edge` would panic on a cycle. The model accepts any edge set, and reachability is proved for arbitrary graphs.
- BuildQueue.BuildQueueState.AddJobs: requires every input of the batch to be queued already or in the batch. The source `unwrap`s that lookup and would panic otherwise.
- BuildQueue.BuildQueueState.DrainReadyJobs: requires every index in `ready` to be a live node. The source `unwrap`s the lookup, and an index can go stale after `clear_workflow`. The stale case is not modelled.
- QueueIntake.IntakeFresh, QueueIntake.IntakeCounts, QueueFacts.AddJobsCounts and QueueFacts.NothingPending assume the batch's paths are distinct. With a repeated path, the source counts the repeat as a pending duplicate. The general step `AddJobsStep` has no such requirement.
- Dashboard.AsU8: the `as u8` cast is modelled as `% 256`. `SummaryProgress` proves it never truncates.
- The library `sort_by` calls are modelled by their results: a stable priority sort and a descending-id sort.
- HMAC-SHA256 and hex encoding are a function parameter `mac`. It yields `None` when the key is refused, and a lower-case hex digest otherwise.
- JSON parsing of the payload is a function parameter `parse`. A missing field is `None`.
- Reading the body is an `Option`: `None` stands for a failed read.
- Header names are case-insensitive in the source. The model keys headers by their lower-case names. A header value that is not visible ASCII is `Opaque`, the case where `to_str` fails.
- Logging, HTML rendering, the HTTP routes, the executor, Nix evaluation, the cache, configuration, the database and `main` (src/executor, src/nix, src/cache, src/config.rs, src/db, src/main.rs) are not part of this model.
- Derivations are built in src/nix/mod.rs:174-180. That code is not part of this model. The model's `Derivation` carries the `status` field that the dashboard reads.

## Findings

| source | as written | input that shows it | evidently intended | confidence | as-written member | corrected member |
|---|---|---|---|---|---|---|
| src/dashboard/mod.rs:171-198 | the workflow summary and job details read `job.derivation.status`, which no operation of the build queue ever writes (`QueueFacts.UpdateKeepsDerivations`) | a workflow with one job whose derivation was submitted as Queued and which the queue later marked Success: it shows 0 completed jobs, progress 0% and status Queued | read the queue's own `job.status`, so the workflow shows 1 completed job and 100% | not executed | Dashboard.WorkflowEntryAsWritten, Dashboard.BuildWorkflowSection, Dashboard.StaleProgress | Dashboard.WorkflowEntry, Dashboard.BuildWorkflowSectionCorrected, Dashboard.WorkflowEntryTracksQueue |
