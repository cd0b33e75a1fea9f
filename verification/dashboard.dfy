/**
 * The two sections of the dashboard page (src/dashboard/mod.rs), computed
 * from the list `get_jobs` returns: the job queue section (a counter per
 * status and the jobs sorted by priority) and the workflow section (the jobs
 * grouped by the workflows that requested them, a progress summary per
 * workflow, newest workflow first). Rendering and routing are left out.
 */
module Dashboard {
  import opened BuildTypes
  import opened BuildQueue

  // ---------------------------------------------------------------------
  // The job queue section
  // ---------------------------------------------------------------------

  datatype JobInfo = JobInfo(
    name: string,
    drvPath: string,
    system: string,
    status: BuildStatus,
    requestedByCount: nat,
    outputs: seq<string>)

  datatype QueueStats = QueueStats(
    total: nat,
    queued: nat,
    ready: nat,
    running: nat,
    success: nat,
    failed: nat,
    cached: nat,
    timedout: nat,
    canceled: nat)

  datatype JobQueueSection = JobQueueSection(jobs: seq<JobInfo>, stats: QueueStats)

  /** The row shown for one job. */
  function Info(job: BuildJob): (r: JobInfo)
    ensures r.drvPath == job.derivation.drvPath && r.status == job.status
    ensures r.requestedByCount == |job.requestedBy|
  {
    JobInfo(job.derivation.name, job.derivation.drvPath, job.derivation.system,
            job.status, |job.requestedBy|, job.derivation.outputs)
  }

  /** The rows of a job list, in the same order. */
  function Infos(js: seq<BuildJob>): (r: seq<JobInfo>)
    ensures |r| == |js| && forall k :: 0 <= k < |js| ==> r[k] == Info(js[k])
  {
    seq(|js|, k requires 0 <= k < |js| => Info(js[k]))
  }

  /** How many jobs of `js` have the status `s`. */
  function CountStatus(js: seq<BuildJob>, s: BuildStatus): (r: nat)
    ensures r <= |js|
    decreases |js|
  {
    if js == [] then 0
    else CountStatus(js[..|js| - 1], s) + (if js[|js| - 1].status == s then 1 else 0)
  }

  /** The statistics of a job list: its length and a count per status. */
  function Stats(js: seq<BuildJob>): QueueStats
  {
    QueueStats(|js|,
      CountStatus(js, Queued), CountStatus(js, Ready), CountStatus(js, Running),
      CountStatus(js, Success), CountStatus(js, Failed), CountStatus(js, Cached),
      CountStatus(js, Timedout), CountStatus(js, Canceled))
  }

  /** The sum of the eight per-status counters. */
  function CounterSum(st: QueueStats): nat
  {
    st.queued + st.ready + st.running + st.success + st.failed + st.cached + st.timedout + st.canceled
  }

  /** Every job has exactly one status, so the eight counters add up to the
      total. */
  lemma {:induction false} StatsTotal(js: seq<BuildJob>)
    ensures CounterSum(Stats(js)) == Stats(js).total == |js|
    decreases |js|
  {
    if js != [] {
      StatsTotal(js[..|js| - 1]);
    }
  }

  /** Counting one more job. */
  lemma CountStatusStep(js: seq<BuildJob>, i: nat, s: BuildStatus)
    requires i < |js|
    ensures CountStatus(js[..i + 1], s) == CountStatus(js[..i], s) + (if js[i].status == s then 1 else 0)
  {
    assert js[..i + 1][..i] == js[..i];
  }

  /** The sort key of the queue section: running jobs first, then ready,
      queued, failed, timed out, canceled, succeeded, cached. */
  function Priority(s: BuildStatus): (r: nat)
    ensures r < 8
  {
    match s
    case Running => 0
    case Ready => 1
    case Queued => 2
    case Failed => 3
    case Timedout => 4
    case Canceled => 5
    case Success => 6
    case Cached => 7
  }

  /** Each priority belongs to one status: the order is total. */
  lemma PriorityInjective(a: BuildStatus, b: BuildStatus)
    ensures Priority(a) == Priority(b) ==> a == b
  {
  }

  /** The rows of priority `p`, in their order in `xs`. */
  function Keep(xs: seq<JobInfo>, p: nat): (r: seq<JobInfo>)
    ensures |r| <= |xs|
    ensures forall k :: 0 <= k < |r| ==> Priority(r[k].status) == p
    decreases |xs|
  {
    if xs == [] then []
    else (if Priority(xs[0].status) == p then [xs[0]] else []) + Keep(xs[1..], p)
  }

  /** The rows of priority `p` or more, in their order in `xs`. */
  function Above(xs: seq<JobInfo>, p: nat): seq<JobInfo>
    decreases |xs|
  {
    if xs == [] then []
    else (if Priority(xs[0].status) >= p then [xs[0]] else []) + Above(xs[1..], p)
  }

  /** The rows bucket by bucket, from priority `p` up. */
  function Buckets(xs: seq<JobInfo>, p: nat): seq<JobInfo>
    decreases 8 - p
  {
    if p >= 8 then [] else Keep(xs, p) + Buckets(xs, p + 1)
  }

  /** `jobs.sort_by(priority)`: the library's stable sort, given by its
      result, the rows grouped by priority in increasing order, each group
      in its original order. */
  function SortByPriority(xs: seq<JobInfo>): seq<JobInfo>
  {
    Buckets(xs, 0)
  }

  /** The rows are sorted by non-decreasing priority. */
  ghost predicate SortedByPriority(xs: seq<JobInfo>)
  {
    forall i, j :: 0 <= i < j < |xs| ==> Priority(xs[i].status) <= Priority(xs[j].status)
  }

  lemma {:induction false} KeepAppend(a: seq<JobInfo>, b: seq<JobInfo>, p: nat)
    ensures Keep(a + b, p) == Keep(a, p) + Keep(b, p)
    decreases |a|
  {
    if a != [] {
      var head := if Priority(a[0].status) == p then [a[0]] else [];
      assert (a + b)[0] == a[0];
      assert (a + b)[1..] == a[1..] + b;
      KeepAppend(a[1..], b, p);
      assert Keep(a + b, p) == head + (Keep(a[1..], p) + Keep(b, p));
      assert Keep(a, p) == head + Keep(a[1..], p);
    } else {
      assert a + b == b;
    }
  }

  lemma {:induction false} KeepKeep(xs: seq<JobInfo>, p: nat, q: nat)
    ensures Keep(Keep(xs, p), q) == if p == q then Keep(xs, p) else []
    decreases |xs|
  {
    if xs != [] {
      KeepKeep(xs[1..], p, q);
      var head := if Priority(xs[0].status) == p then [xs[0]] else [];
      KeepAppend(head, Keep(xs[1..], p), q);
    }
  }

  /** The rows of priority `p` or more are those of priority `p` and those
      of priority `p + 1` or more. */
  lemma {:induction false} AboveSplit(xs: seq<JobInfo>, p: nat)
    ensures multiset(Above(xs, p)) == multiset(Keep(xs, p)) + multiset(Above(xs, p + 1))
    decreases |xs|
  {
    if xs != [] {
      AboveSplit(xs[1..], p);
    }
  }

  lemma {:induction false} AboveAll(xs: seq<JobInfo>)
    ensures Above(xs, 0) == xs
    decreases |xs|
  {
    if xs != [] {
      AboveAll(xs[1..]);
    }
  }

  lemma {:induction false} AboveNone(xs: seq<JobInfo>, p: nat)
    requires p >= 8
    ensures Above(xs, p) == []
    decreases |xs|
  {
    if xs != [] {
      AboveNone(xs[1..], p);
    }
  }

  /** A bucket of priority `p` followed by sorted rows of higher priority
      is sorted, with every priority at least `p`. */
  lemma BucketAppend(a: seq<JobInfo>, b: seq<JobInfo>, p: nat)
    requires forall k :: 0 <= k < |a| ==> Priority(a[k].status) == p
    requires SortedByPriority(b)
    requires forall k :: 0 <= k < |b| ==> Priority(b[k].status) >= p + 1
    ensures SortedByPriority(a + b)
    ensures forall k :: 0 <= k < |a + b| ==> Priority((a + b)[k].status) >= p
  {
    var c := a + b;
    forall i, j | 0 <= i < j < |c|
      ensures Priority(c[i].status) <= Priority(c[j].status)
    {
      if j < |a| {
        assert c[i] == a[i] && c[j] == a[j];
      } else if i < |a| {
        assert c[i] == a[i] && c[j] == b[j - |a|];
      } else {
        assert c[i] == b[i - |a|] && c[j] == b[j - |a|];
      }
    }
    forall k | 0 <= k < |c|
      ensures Priority(c[k].status) >= p
    {
      if k < |a| {
        assert c[k] == a[k];
      } else {
        assert c[k] == b[k - |a|];
      }
    }
  }

  /** The buckets from `p` up hold exactly the rows of priority `p` or more,
      sorted by priority, each bucket in its original order. */
  lemma {:induction false} BucketsCorrect(xs: seq<JobInfo>, p: nat)
    ensures multiset(Buckets(xs, p)) == multiset(Above(xs, p))
    ensures SortedByPriority(Buckets(xs, p))
    ensures forall k :: 0 <= k < |Buckets(xs, p)| ==> Priority(Buckets(xs, p)[k].status) >= p
    ensures forall q :: q < 8 ==> Keep(Buckets(xs, p), q) == if p <= q then Keep(xs, q) else []
    decreases 8 - p
  {
    if p >= 8 {
      AboveNone(xs, p);
    } else {
      var rest := Buckets(xs, p + 1);
      BucketsCorrect(xs, p + 1);
      AboveSplit(xs, p);
      var b := Keep(xs, p) + rest;
      assert Buckets(xs, p) == b;
      BucketAppend(Keep(xs, p), rest, p);
      forall q | q < 8
        ensures Keep(b, q) == if p <= q then Keep(xs, q) else []
      {
        KeepAppend(Keep(xs, p), rest, q);
        KeepKeep(xs, p, q);
      }
    }
  }

  /** The priority sort is a stable sort: the result is sorted by priority,
      a permutation of its input, and the rows of each priority keep their
      relative order. */
  lemma SortByPriorityCorrect(xs: seq<JobInfo>)
    ensures SortedByPriority(SortByPriority(xs))
    ensures multiset(SortByPriority(xs)) == multiset(xs)
    ensures forall q :: q < 8 ==> Keep(SortByPriority(xs), q) == Keep(xs, q)
  {
    BucketsCorrect(xs, 0);
    AboveAll(xs);
  }

  /** Counting one more job: the total and the job's own status go up by one. */
  function Tally(st: QueueStats, s: BuildStatus): QueueStats
  {
    var st := st.(total := st.total + 1);
    match s
    case Queued => st.(queued := st.queued + 1)
    case Ready => st.(ready := st.ready + 1)
    case Running => st.(running := st.running + 1)
    case Success => st.(success := st.success + 1)
    case Failed => st.(failed := st.failed + 1)
    case Cached => st.(cached := st.cached + 1)
    case Timedout => st.(timedout := st.timedout + 1)
    case Canceled => st.(canceled := st.canceled + 1)
  }

  /** The statistics of one more job are those of the others, tallied. */
  lemma StatsStep(js: seq<BuildJob>, i: nat)
    requires i < |js|
    ensures Stats(js[..i + 1]) == Tally(Stats(js[..i]), js[i].status)
  {
    forall s: BuildStatus {
      CountStatusStep(js, i, s);
    }
  }

  /** The loop of `build_job_queue_section`: one pass over the jobs counting
      each status and collecting one row per job. */
  method CollectJobs(js: seq<BuildJob>) returns (jobs: seq<JobInfo>, stats: QueueStats)
    ensures stats == Stats(js) && jobs == Infos(js)
  {
    jobs := [];
    stats := QueueStats(0, 0, 0, 0, 0, 0, 0, 0, 0);
    for i := 0 to |js|
      invariant stats == Stats(js[..i])
      invariant |jobs| == i && forall k :: 0 <= k < i ==> jobs[k] == Info(js[k])
    {
      var job := js[i];
      StatsStep(js, i);
      stats := stats.(total := stats.total + 1);
      match job.status {
        case Queued => stats := stats.(queued := stats.queued + 1);
        case Ready => stats := stats.(ready := stats.ready + 1);
        case Running => stats := stats.(running := stats.running + 1);
        case Success => stats := stats.(success := stats.success + 1);
        case Failed => stats := stats.(failed := stats.failed + 1);
        case Cached => stats := stats.(cached := stats.cached + 1);
        case Timedout => stats := stats.(timedout := stats.timedout + 1);
        case Canceled => stats := stats.(canceled := stats.canceled + 1);
      }
      jobs := jobs + [Info(job)];
    }
    assert js[..|js|] == js;
  }

  /** `build_job_queue_section`: the statistics of `get_jobs` (a counter per
      status, adding up to the number of jobs) and one row per job, sorted
      by priority, stably. */
  method BuildJobQueueSection(queue: BuildQueueState) returns (section: JobQueueSection)
    ensures var js := queue.GetJobs();
      && section.stats == Stats(js)
      && section.stats.total == |js| == CounterSum(section.stats)
      && SortedByPriority(section.jobs)
      && multiset(section.jobs) == multiset(Infos(js))
      && forall q :: q < 8 ==> Keep(section.jobs, q) == Keep(Infos(js), q)
  {
    var js := queue.GetJobs();
    var jobs, stats := CollectJobs(js);
    StatsTotal(js);
    SortByPriorityCorrect(jobs);
    section := JobQueueSection(SortByPriority(jobs), stats);
  }

  // ---------------------------------------------------------------------
  // The workflow section
  // ---------------------------------------------------------------------

  datatype WorkflowJobDetail = WorkflowJobDetail(name: string, status: BuildStatus)

  datatype WorkflowSummary = WorkflowSummary(
    totalJobs: nat,
    completedJobs: nat,
    failedJobs: nat,
    cachedJobs: nat,
    progressPercent: nat)  // a `u8`

  datatype WorkflowInfo = WorkflowInfo(id: WorkflowId, jobDetails: seq<WorkflowJobDetail>, summary: WorkflowSummary)

  /** `.filter(|s| matches!(s, status)).count()`. */
  function CountOf(statuses: seq<BuildStatus>, s: BuildStatus): (r: nat)
    ensures r <= |statuses|
    decreases |statuses|
  {
    if statuses == [] then 0
    else (if statuses[0] == s then 1 else 0) + CountOf(statuses[1..], s)
  }

  /** A workflow counts a job as finished when it succeeded, failed or was
      taken from the cache. */
  predicate Finishes(s: BuildStatus)
  {
    s == Success || s == Failed || s == Cached
  }

  /** `x as u8`: the low eight bits. */
  function AsU8(x: nat): (r: nat)
    ensures r < 256
    ensures x < 256 ==> r == x
  {
    x % 256
  }

  /** The summary of a workflow whose jobs have the statuses `statuses`:
      the number of jobs, of successful, failed and cached ones, and the
      percentage of finished jobs, rounded down, 0 for no jobs. */
  function Summary(statuses: seq<BuildStatus>): WorkflowSummary
  {
    var total := |statuses|;
    var completed := CountOf(statuses, Success);
    var failed := CountOf(statuses, Failed);
    var cached := CountOf(statuses, Cached);
    var finished := completed + failed + cached;
    var progress := if total > 0 then AsU8((finished * 100) / total) else 0;
    WorkflowSummary(total, completed, failed, cached, progress)
  }

  /** The three counts never exceed the number of jobs, and they reach it
      exactly when every job is finished. */
  lemma {:induction false} FinishedCounts(statuses: seq<BuildStatus>)
    ensures CountOf(statuses, Success) + CountOf(statuses, Failed) + CountOf(statuses, Cached) <= |statuses|
    ensures CountOf(statuses, Success) + CountOf(statuses, Failed) + CountOf(statuses, Cached) == |statuses|
            <==> forall k :: 0 <= k < |statuses| ==> Finishes(statuses[k])
    decreases |statuses|
  {
    if statuses != [] {
      FinishedCounts(statuses[1..]);
      if forall k :: 0 <= k < |statuses| ==> Finishes(statuses[k]) {
        forall k | 0 <= k < |statuses[1..]|
          ensures Finishes(statuses[1..][k])
        {
          assert statuses[1..][k] == statuses[k + 1];
        }
      }
      if forall k :: 0 <= k < |statuses[1..]| ==> Finishes(statuses[1..][k]) {
        if Finishes(statuses[0]) {
          forall k | 0 <= k < |statuses|
            ensures Finishes(statuses[k])
          {
            if k > 0 {
              assert statuses[k] == statuses[1..][k - 1];
            }
          }
        }
      }
    }
  }

  /** `finished * 100 / total` is at most 100 when `finished <= total`, and
      exactly 100 when they are equal. */
  lemma PercentBound(finished: nat, total: nat)
    requires 0 < total && finished <= total
    ensures (finished * 100) / total <= 100
    ensures (finished * 100) / total == 100 <==> finished == total
  {
    var q := (finished * 100) / total;
    assert q * total <= finished * 100;
  }

  /** The percentage is the finished share rounded down, never above 100 (so
      the `u8` cast never truncates), 0 for no jobs, and 100 exactly when
      there are jobs and all of them are finished. */
  lemma SummaryProgress(statuses: seq<BuildStatus>)
    ensures var r := Summary(statuses);
      && r.completedJobs + r.failedJobs + r.cachedJobs <= r.totalJobs == |statuses|
      && r.progressPercent <= 100
      && (r.totalJobs == 0 ==> r.progressPercent == 0)
      && (r.totalJobs > 0 ==> r.progressPercent == ((r.completedJobs + r.failedJobs + r.cachedJobs) * 100) / r.totalJobs)
      && (r.progressPercent == 100 <==> |statuses| > 0 && forall k :: 0 <= k < |statuses| ==> Finishes(statuses[k]))
  {
    FinishedCounts(statuses);
    var r := Summary(statuses);
    if |statuses| > 0 {
      PercentBound(r.completedJobs + r.failedJobs + r.cachedJobs, |statuses|);
    }
  }

  /** The queue status of each job. */
  function JobStatuses(jobs: seq<BuildJob>): (r: seq<BuildStatus>)
    ensures |r| == |jobs| && forall k :: 0 <= k < |jobs| ==> r[k] == jobs[k].status
  {
    seq(|jobs|, k requires 0 <= k < |jobs| => jobs[k].status)
  }

  /** The status recorded in each job's derivation. */
  function DerivationStatuses(jobs: seq<BuildJob>): (r: seq<BuildStatus>)
    ensures |r| == |jobs| && forall k :: 0 <= k < |jobs| ==> r[k] == jobs[k].derivation.status
  {
    seq(|jobs|, k requires 0 <= k < |jobs| => jobs[k].derivation.status)
  }

  /** The details list: each job's name next to a status. */
  function Details(jobs: seq<BuildJob>, statuses: seq<BuildStatus>): (r: seq<WorkflowJobDetail>)
    requires |statuses| == |jobs|
    ensures |r| == |jobs|
    ensures forall k :: 0 <= k < |jobs| ==> r[k] == WorkflowJobDetail(jobs[k].derivation.name, statuses[k])
  {
    seq(|jobs|, k requires 0 <= k < |jobs| => WorkflowJobDetail(jobs[k].derivation.name, statuses[k]))
  }

  /** The entry of one workflow as written: details and summary read the
      status stored in each job's derivation. */
  function WorkflowEntryAsWritten(id: WorkflowId, jobs: seq<BuildJob>): (r: WorkflowInfo)
    ensures r.id == id && r.summary.totalJobs == |jobs|
  {
    var statuses := DerivationStatuses(jobs);
    WorkflowInfo(id, Details(jobs, statuses), Summary(statuses))
  }

  /** The entry of one workflow, reading each job's queue status. */
  function WorkflowEntry(id: WorkflowId, jobs: seq<BuildJob>): (r: WorkflowInfo)
    ensures r.id == id && r.summary.totalJobs == |jobs|
  {
    var statuses := JobStatuses(jobs);
    WorkflowInfo(id, Details(jobs, statuses), Summary(statuses))
  }

  /** Which status a workflow entry reads for each job: the one stored in
      its derivation, as `build_workflow_section` is written, or the queue's
      own status, as the job-queue section does. */
  datatype StatusSource = DerivationStatus | QueueStatus

  /** The entry of one workflow, reading the status `source` names. */
  function EntryReading(source: StatusSource, id: WorkflowId, jobs: seq<BuildJob>): (r: WorkflowInfo)
    ensures source == DerivationStatus ==> r == WorkflowEntryAsWritten(id, jobs)
    ensures source == QueueStatus ==> r == WorkflowEntry(id, jobs)
  {
    match source
    case DerivationStatus => WorkflowEntryAsWritten(id, jobs)
    case QueueStatus => WorkflowEntry(id, jobs)
  }

  /** The corrected entry tracks the queue: its progress reaches 100 exactly
      when the workflow has jobs and the queue has finished all of them, and
      each detail shows the job's queue status. */
  lemma WorkflowEntryTracksQueue(id: WorkflowId, jobs: seq<BuildJob>)
    ensures var r := WorkflowEntry(id, jobs);
      && r.summary.progressPercent <= 100
      && (r.summary.progressPercent == 100 <==> |jobs| > 0 && forall k :: 0 <= k < |jobs| ==> Finishes(jobs[k].status))
      && forall k :: 0 <= k < |jobs| ==> r.jobDetails[k].status == jobs[k].status
  {
    SummaryProgress(JobStatuses(jobs));
  }

  /** The entry as written ignores the queue: a job the queue has built
      successfully, whose derivation still records the status it was
      submitted with, shows as not started and its workflow at 0%; the
      corrected entry shows it finished, at 100%. */
  lemma StaleProgress()
    ensures var d := Derivation("hello", "/nix/store/h-hello.drv", ["/nix/store/o-hello"], "x86_64-linux", [], Queued);
      var job := BuildJob(d, Success, {1});
      && WorkflowEntryAsWritten(1, [job]).summary.completedJobs == 0
      && WorkflowEntryAsWritten(1, [job]).summary.progressPercent == 0
      && WorkflowEntryAsWritten(1, [job]).jobDetails[0].status == Queued
      && WorkflowEntry(1, [job]).summary.completedJobs == 1
      && WorkflowEntry(1, [job]).summary.progressPercent == 100
  {
    var d := Derivation("hello", "/nix/store/h-hello.drv", ["/nix/store/o-hello"], "x86_64-linux", [], Queued);
    var job := BuildJob(d, Success, {1});
    assert DerivationStatuses([job]) == [Queued];
    assert JobStatuses([job]) == [Success];
    assert CountOf([Queued], Success) == 0;
    assert CountOf([Success], Success) == 1;
  }

  /** The workflows requesting at least one job of `js`. */
  function Requesters(js: seq<BuildJob>): (r: set<WorkflowId>)
    decreases |js|
  {
    if js == [] then {} else Requesters(js[..|js| - 1]) + js[|js| - 1].requestedBy
  }

  /** A workflow requests some job exactly when its job list is not empty. */
  lemma {:induction false} RequestersCorrect(js: seq<BuildJob>, w: WorkflowId)
    ensures w in Requesters(js) <==> RequestedBy(js, w) != []
    decreases |js|
  {
    if js != [] {
      RequestersCorrect(js[..|js| - 1], w);
      var rest := RequestedBy(js[..|js| - 1], w);
      if w in js[|js| - 1].requestedBy {
        assert js[|js| - 1] in RequestedBy(js, w);
      } else if rest != [] {
        assert rest[0] in RequestedBy(js, w);
      }
    }
  }

  /** Grouping one more job. */
  lemma RequestedByStep(js: seq<BuildJob>, i: nat, w: WorkflowId)
    requires i < |js|
    ensures RequestedBy(js[..i + 1], w) == RequestedBy(js[..i], w) + (if w in js[i].requestedBy then [js[i]] else [])
  {
    assert js[..i + 1] == js[..i] + [js[i]];
    RequestedByAppend(js[..i], js[i], w);
  }

  /** The list of `w` in a grouping, empty when it has none. */
  function Group(groups: map<WorkflowId, seq<BuildJob>>, w: WorkflowId): seq<BuildJob>
  {
    if w in groups then groups[w] else []
  }

  /** The inner loop of the grouping: `job` is appended to the list of each
      workflow that requested it (`entry(w).or_default().push(job)`). */
  method AppendToGroups(groups0: map<WorkflowId, seq<BuildJob>>, job: BuildJob) returns (groups: map<WorkflowId, seq<BuildJob>>)
    ensures forall w :: w in groups <==> w in groups0 || w in job.requestedBy
    ensures forall w :: Group(groups, w) == Group(groups0, w) + if w in job.requestedBy then [job] else []
  {
    groups := groups0;
    var todo := job.requestedBy;
    while todo != {}
      invariant todo <= job.requestedBy
      invariant forall w :: w in groups <==> w in groups0 || w in job.requestedBy - todo
      invariant forall w :: Group(groups, w) == Group(groups0, w) + if w in job.requestedBy - todo then [job] else []
      decreases todo
    {
      var w := PickOne(todo);
      var list := if w in groups then groups[w] else [];
      groups := groups[w := list + [job]];
      todo := todo - {w};
    }
  }

  /** The grouping loop of `build_workflow_section`: every job is appended
      to the list of each workflow that requested it. The result has one
      list per workflow requesting some job, and that list is the
      workflow's jobs in the order of `js`. */
  method GroupByWorkflow(js: seq<BuildJob>) returns (groups: map<WorkflowId, seq<BuildJob>>)
    ensures forall w :: w in groups <==> RequestedBy(js, w) != []
    ensures forall w :: w in groups ==> groups[w] == RequestedBy(js, w)
  {
    groups := map[];
    for i := 0 to |js|
      invariant forall w :: w in groups ==> groups[w] != []
      invariant forall w :: Group(groups, w) == RequestedBy(js[..i], w)
    {
      forall w {
        RequestedByStep(js, i, w);
      }
      ghost var before := groups;
      groups := AppendToGroups(groups, js[i]);
      forall w | w in groups
        ensures groups[w] != []
      {
        assert Group(groups, w) == Group(before, w) + if w in js[i].requestedBy then [js[i]] else [];
      }
    }
    assert js[..|js|] == js;
    forall w
      ensures w in groups <==> RequestedBy(js, w) != []
    {
      assert Group(groups, w) == RequestedBy(js, w);
    }
  }

  /** The entries are sorted by descending workflow id. */
  ghost predicate DescendingIds(ws: seq<WorkflowInfo>)
  {
    forall i, j :: 0 <= i < j < |ws| ==> ws[i].id >= ws[j].id
  }

  /** Insert an entry into a list sorted by descending id. */
  function InsertDesc(x: WorkflowInfo, ys: seq<WorkflowInfo>): (r: seq<WorkflowInfo>)
    requires DescendingIds(ys)
    ensures DescendingIds(r)
    ensures multiset(r) == multiset(ys) + multiset{x}
    ensures |r| > 0 && (r[0] == x || (ys != [] && r[0] == ys[0]))
    decreases |ys|
  {
    if ys == [] || x.id >= ys[0].id then [x] + ys
    else
      var rest := InsertDesc(x, ys[1..]);
      assert ys == [ys[0]] + ys[1..];
      [ys[0]] + rest
  }

  /** `workflows.sort_by(|a, b| b.id.cmp(&a.id))`: the library's sort, given
      by its result. */
  function SortByIdDesc(xs: seq<WorkflowInfo>): (r: seq<WorkflowInfo>)
    ensures DescendingIds(r) && multiset(r) == multiset(xs)
    decreases |xs|
  {
    if xs == [] then []
    else
      assert xs == [xs[0]] + xs[1..];
      InsertDesc(xs[0], SortByIdDesc(xs[1..]))
  }

  /** The ids of a list of entries, in order. */
  function Ids(ws: seq<WorkflowInfo>): (r: seq<WorkflowId>)
    ensures |r| == |ws| && forall k :: 0 <= k < |ws| ==> r[k] == ws[k].id
  {
    seq(|ws|, k requires 0 <= k < |ws| => ws[k].id)
  }

  /** The entry loop of `build_workflow_section`: one entry per group, in
      the map's iteration order, each reading the status `source` names. */
  method EntriesOf(groups: map<WorkflowId, seq<BuildJob>>, source: StatusSource) returns (entries: seq<WorkflowInfo>)
    ensures forall k :: 0 <= k < |entries| ==> entries[k].id in groups && entries[k] == EntryReading(source, entries[k].id, groups[entries[k].id])
    ensures forall w :: w in groups ==> w in Ids(entries)
    ensures forall i, j :: 0 <= i < j < |entries| ==> entries[i].id != entries[j].id
  {
    entries := [];
    var todo := groups.Keys;
    while todo != {}
      invariant todo <= groups.Keys
      invariant forall k :: 0 <= k < |entries| ==> entries[k].id in groups && entries[k].id !in todo
      invariant forall k :: 0 <= k < |entries| ==> entries[k] == EntryReading(source, entries[k].id, groups[entries[k].id])
      invariant forall w :: w in groups && w !in todo ==> w in Ids(entries)
      invariant forall i, j :: 0 <= i < j < |entries| ==> entries[i].id != entries[j].id
      decreases todo
    {
      var w := PickOne(todo);
      ghost var before := entries;
      entries := entries + [EntryReading(source, w, groups[w])];
      assert Ids(entries) == Ids(before) + [w];
      todo := todo - {w};
    }
  }

  /** The steps of `build_workflow_section`: group the jobs of `get_jobs`
      by workflow, build each workflow's entry from its jobs in index order,
      reading the status `source` names, and sort the entries by descending
      id. There is one entry per workflow requesting some job, ids strictly
      descending, each entry built from the jobs that workflow requested. */
  method WorkflowSection(queue: BuildQueueState, source: StatusSource) returns (workflows: seq<WorkflowInfo>)
    ensures var js := queue.GetJobs();
      && DescendingIds(workflows)
      && (forall i, j :: 0 <= i < j < |workflows| ==> workflows[i].id != workflows[j].id)
      && (forall w :: w in Ids(workflows) <==> RequestedBy(js, w) != [])
      && (forall k :: 0 <= k < |workflows| ==> workflows[k] == EntryReading(source, workflows[k].id, RequestedBy(js, workflows[k].id)))
  {
    var js := queue.GetJobs();
    var groups := GroupByWorkflow(js);
    var entries := EntriesOf(groups, source);
    workflows := SortByIdDesc(entries);
    SortedEntries(entries, workflows);
    forall w | RequestedBy(js, w) != []
      ensures w in Ids(workflows)
    {
      var a :| 0 <= a < |entries| && Ids(entries)[a] == w;
      assert entries[a] in workflows;
      var k :| 0 <= k < |workflows| && workflows[k] == entries[a];
      assert Ids(workflows)[k] == w;
    }
  }

  /** `build_workflow_section` as written: the section above with every
      entry reading the status stored in the job's derivation. */
  method BuildWorkflowSection(queue: BuildQueueState) returns (workflows: seq<WorkflowInfo>)
    ensures var js := queue.GetJobs();
      && DescendingIds(workflows)
      && (forall i, j :: 0 <= i < j < |workflows| ==> workflows[i].id != workflows[j].id)
      && (forall w :: w in Ids(workflows) <==> RequestedBy(js, w) != [])
      && (forall k :: 0 <= k < |workflows| ==> workflows[k] == WorkflowEntryAsWritten(workflows[k].id, RequestedBy(js, workflows[k].id)))
  {
    workflows := WorkflowSection(queue, DerivationStatus);
  }

  /** The corrected section: every entry reads the queue's status, so each
      entry tracks the queue (`WorkflowEntryTracksQueue`). */
  method BuildWorkflowSectionCorrected(queue: BuildQueueState) returns (workflows: seq<WorkflowInfo>)
    ensures var js := queue.GetJobs();
      && DescendingIds(workflows)
      && (forall i, j :: 0 <= i < j < |workflows| ==> workflows[i].id != workflows[j].id)
      && (forall w :: w in Ids(workflows) <==> RequestedBy(js, w) != [])
      && (forall k :: 0 <= k < |workflows| ==> workflows[k] == WorkflowEntry(workflows[k].id, RequestedBy(js, workflows[k].id)))
  {
    workflows := WorkflowSection(queue, QueueStatus);
  }

  /** What a permutation of the unsorted entries keeps: each entry, and
      distinct ids. */
  lemma SortedEntries(entries: seq<WorkflowInfo>, sorted: seq<WorkflowInfo>)
    requires multiset(sorted) == multiset(entries)
    requires forall i, j :: 0 <= i < j < |entries| ==> entries[i].id != entries[j].id
    ensures forall k :: 0 <= k < |sorted| ==> sorted[k] in entries
    ensures forall k :: 0 <= k < |entries| ==> entries[k] in sorted
    ensures forall i, j :: 0 <= i < j < |sorted| ==> sorted[i].id != sorted[j].id
  {
    forall k | 0 <= k < |sorted|
      ensures sorted[k] in entries
    {
      assert sorted[k] in multiset(sorted);
    }
    forall k | 0 <= k < |entries|
      ensures entries[k] in sorted
    {
      assert entries[k] in multiset(entries);
    }
    forall i, j | 0 <= i < j < |sorted|
      ensures sorted[i].id != sorted[j].id
    {
      if sorted[i].id == sorted[j].id {
        var a :| 0 <= a < |entries| && entries[a] == sorted[i];
        var b :| 0 <= b < |entries| && entries[b] == sorted[j];
        if a == b {
          TwiceIn(sorted, i, j);
          assert multiset(entries)[entries[a]] >= 2;
          OnceIn(entries, a);
          assert false;
        }
      }
    }
  }

  /** In a list with distinct ids every entry occurs once. */
  lemma {:induction false} OnceIn(xs: seq<WorkflowInfo>, a: nat)
    requires a < |xs| && forall i, j :: 0 <= i < j < |xs| ==> xs[i].id != xs[j].id
    ensures multiset(xs)[xs[a]] == 1
    decreases |xs|
  {
    var last := |xs| - 1;
    var init := xs[..last];
    assert xs == init + [xs[last]];
    if a == last {
      assert xs[a] !in init;
      assert multiset(init)[xs[a]] == 0;
    } else {
      OnceIn(init, a);
      assert xs[last] != xs[a];
    }
  }
}
