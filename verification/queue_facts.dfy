/**
 * What the steps of the build queue guarantee, stated on the snapshots
 * before and after a step: error propagation cancels exactly the
 * descendants, success unblocks exactly the children left without a parent,
 * the counters are settled and every finished workflow is reported once,
 * `add_jobs` counts the right amount of work, and `clear_workflow` drops
 * exactly the jobs nobody else wants.
 */
module QueueFacts {
  import opened BuildTypes
  import opened JobGraph
  import opened PendingCounters
  import opened QueueIntake
  import opened BuildQueue

  /** How often each node was appended to `ready` by a step. */
  function Pushed(s: Snapshot, t: Snapshot): multiset<NodeIndex>
    requires |s.ready| <= |t.ready|
  {
    multiset(t.ready[|s.ready|..])
  }

  /** Reachability stays inside the nodes of a consistent queue. */
  lemma ReachInJobs(s: Snapshot, id: NodeIndex)
    requires Consistent(s) && id in s.jobs
    ensures id in Reach(s.edges, {id}) && Reach(s.edges, {id}) <= s.jobs.Keys
  {
    ReachBounds(s.edges, {id});
    assert Targets(s.edges) <= s.jobs.Keys;
  }

  /** An error cancels `id`'s descendants and nothing else: `id` takes the
      new status; every child of `id` or of a canceled node is canceled;
      every node reachable from `id` is canceled and pushed to `ready`
      exactly once; every other node is untouched and not pushed; the
      edges into the canceled nodes are gone and the others stay. */
  lemma ErrorCancelsDescendants(s: Snapshot, t: Snapshot, id: NodeIndex, status: BuildStatus, completed: seq<WorkflowId>)
    requires Consistent(s) && id in s.jobs
    requires ErrorStep(s, t, id, status, completed)
    ensures t.jobs.Keys == s.jobs.Keys && t.jobs[id] == s.jobs[id].(status := status)
    ensures forall e :: e in s.edges && e.from in Reach(s.edges, {id}) && e.to != id ==> t.jobs[e.to] == s.jobs[e.to].(status := Canceled)
    ensures forall n :: n in s.jobs && n in Reach(s.edges, {id}) && n != id ==> t.jobs[n] == s.jobs[n].(status := Canceled) && Pushed(s, t)[n] == 1
    ensures forall n :: n in s.jobs && n !in Reach(s.edges, {id}) ==> t.jobs[n] == s.jobs[n]
    ensures forall n :: n !in Reach(s.edges, {id}) || n == id ==> Pushed(s, t)[n] == 0
    ensures forall e :: e in t.edges <==> e in s.edges && e.to !in Reach(s.edges, {id})
  {
    ReachInJobs(s, id);
    ReachClosed(s.edges, {id});
  }

  /** A success removes every edge out of `id`; a child of `id` becomes
      Ready and is pushed to `ready` (once) exactly when it has no parent
      left; no other node is pushed or changed, and `id` takes the new
      status unless it is its own child. */
  lemma SuccessUnblocks(s: Snapshot, t: Snapshot, id: NodeIndex, status: BuildStatus, completed: seq<WorkflowId>)
    requires Consistent(s) && id in s.jobs
    requires SuccessStep(s, t, id, status, completed)
    ensures t.jobs.Keys == s.jobs.Keys
    ensures forall e :: e in t.edges <==> e in s.edges && e.from != id
    ensures forall n :: n in Children(s.edges, id) ==> (Parents(t.edges, n) == {} <==> Pushed(s, t)[n] == 1)
    ensures forall n :: n in Children(s.edges, id) && Parents(t.edges, n) == {} ==> t.jobs[n] == s.jobs[n].(status := Ready)
    ensures forall n :: n in Children(s.edges, id) && Parents(t.edges, n) != {} && n != id ==> t.jobs[n] == s.jobs[n]
    ensures forall n :: n !in Children(s.edges, id) ==> Pushed(s, t)[n] == 0
    ensures forall n :: n in s.jobs && n !in Children(s.edges, id) && n != id ==> t.jobs[n] == s.jobs[n]
    ensures id !in Children(s.edges, id) ==> t.jobs[id] == s.jobs[id].(status := status)
  {
    var u := Unblocked(s.edges, id);
    forall n | n in Children(s.edges, id)
      ensures Parents(t.edges, n) == {} <==> n in u
    {
      assert forall p :: p in Parents(t.edges, n) <==> p != id && Edge(p, n) in s.edges;
    }
  }

  /** A success settles the counters of the workflows that requested `id`:
      each loses one unit and is removed when it had only one left; the
      other counters are untouched. */
  lemma SuccessCounters(s: Snapshot, t: Snapshot, id: NodeIndex, status: BuildStatus, completed: seq<WorkflowId>)
    requires Consistent(s) && id in s.jobs
    requires SuccessStep(s, t, id, status, completed)
    ensures forall w :: w in t.pending ==> w in s.pending
    ensures forall w :: w in s.pending && w !in s.jobs[id].requestedBy ==> w in t.pending && t.pending[w] == s.pending[w]
    ensures forall w :: w in s.pending && w in s.jobs[id].requestedBy ==>
              (w in t.pending <==> s.pending[w] > 1) && (w in t.pending ==> t.pending[w] == s.pending[w] - 1)
  {
    forall w | w in s.pending
      ensures Demand(s.jobs, {id}, w) == if w in s.jobs[id].requestedBy then 1 else 0
    {
      DemandSingle(s.jobs, id, w);
    }
  }

  /** An error never raises a counter, and a workflow that requested none
      of the canceled jobs keeps its counter. */
  lemma ErrorCounters(s: Snapshot, t: Snapshot, id: NodeIndex, status: BuildStatus, completed: seq<WorkflowId>)
    requires Consistent(s) && id in s.jobs
    requires ErrorStep(s, t, id, status, completed)
    ensures forall w :: w in t.pending ==> w in s.pending && t.pending[w] <= s.pending[w]
    ensures forall w :: w in s.pending && (forall n :: n in Reach(s.edges, {id}) && n in s.jobs ==> w !in s.jobs[n].requestedBy)
              ==> w in t.pending && t.pending[w] == s.pending[w]
  {
    var r := Reach(s.edges, {id});
    ReachInJobs(s, id);
    SettlePartition(s.pending, s.jobs, r);
    forall w | w in s.pending && (forall n :: n in r && n in s.jobs ==> w !in s.jobs[n].requestedBy)
      ensures Demand(s.jobs, r, w) == 0
    {
      assert Requesting(s.jobs, r, w) == {};
    }
  }

  /** Reporting the workflows of a finished job set: each at most once,
      exactly those whose counter ran out, the counters left positive and
      none grown. */
  lemma ReportedOnce(p: map<WorkflowId, nat>, jobs: map<NodeIndex, BuildJob>, v: set<NodeIndex>, completed: seq<WorkflowId>)
    requires forall w :: w in p ==> p[w] > 0
    requires multiset(completed) == multiset(Finished(p, jobs, v))
    ensures forall i, j :: 0 <= i < j < |completed| ==> completed[i] != completed[j]
    ensures forall w :: w in completed <==> w in p && w !in Settle(p, jobs, v)
    ensures forall w :: w in Settle(p, jobs, v) ==> w in p && 0 < Settle(p, jobs, v)[w] <= p[w]
  {
    SettlePartition(p, jobs, v);
    var f := Finished(p, jobs, v);
    forall i, j | 0 <= i < j < |completed|
      ensures completed[i] != completed[j]
    {
      if completed[i] == completed[j] {
        TwiceIn(completed, i, j);
        assert false;
      }
    }
    forall w
      ensures w in completed <==> w in f
    {
      assert w in completed <==> w in multiset(completed);
    }
  }

  /** The workflows one step of `update_status` reports: each at most once,
      and exactly those whose counter the step removed; the counters left
      stay positive and none grows. */
  lemma ReportsOnce(s: Snapshot, t: Snapshot, drvPath: string, status: BuildStatus, completed: seq<WorkflowId>)
    requires Consistent(s)
    requires UpdateStep(s, t, drvPath, status, completed)
    ensures forall i, j :: 0 <= i < j < |completed| ==> completed[i] != completed[j]
    ensures forall w :: w in completed <==> w in s.pending && w !in t.pending
    ensures forall w :: w in t.pending ==> w in s.pending && 0 < t.pending[w] <= s.pending[w]
  {
    if drvPath in s.drvToNode && Done(status) {
      var id := s.drvToNode[drvPath];
      if IsError(status) {
        ReportedOnce(s.pending, s.jobs, Reach(s.edges, {id}), completed);
      } else {
        ReportedOnce(s.pending, s.jobs, {id}, completed);
      }
    }
  }

  /** Every step of `update_status` keeps the queue consistent. */
  lemma UpdateKeepsConsistent(s: Snapshot, t: Snapshot, drvPath: string, status: BuildStatus, completed: seq<WorkflowId>)
    requires Consistent(s)
    requires UpdateStep(s, t, drvPath, status, completed)
    ensures Consistent(t)
  {
    if drvPath in s.drvToNode {
      var id := s.drvToNode[drvPath];
      if IsError(status) {
        ErrorConsistent(s, t, id, status, completed);
      } else if Done(status) {
        SuccessConsistent(s, t, id, status, completed);
      } else {
        ConsistentRelabel(s, t);
      }
    }
  }

  /** No work is counted for a batch exactly when every path of it is
      already queued and done. */
  lemma NothingPending(jobs: map<NodeIndex, BuildJob>, drvToNode: map<string, NodeIndex>, bound: nat, batch: seq<Derivation>)
    requires Indexed(Start(jobs, drvToNode, bound))
    ensures var st0 := Start(jobs, drvToNode, bound);
      (NewPaths(drvToNode, batch) == {} && PendingDuplicates(st0, batch) == {})
      <==> forall p :: p in Paths(batch) ==> p in drvToNode && Done(jobs[drvToNode[p]].status)
  {
    var st0 := Start(jobs, drvToNode, bound);
    if NewPaths(drvToNode, batch) == {} && PendingDuplicates(st0, batch) == {} {
      forall p | p in Paths(batch)
        ensures p in drvToNode && Done(jobs[drvToNode[p]].status)
      {
        assert p !in NewPaths(drvToNode, batch);
        assert p !in PendingDuplicates(st0, batch);
      }
    }
  }

  /** `update_status` only ever writes job statuses: the nodes, each job's
      derivation (including the status recorded in it) and each job's
      requesting workflows stay as they were. */
  lemma UpdateKeepsDerivations(s: Snapshot, t: Snapshot, drvPath: string, status: BuildStatus, completed: seq<WorkflowId>)
    requires Consistent(s)
    requires UpdateStep(s, t, drvPath, status, completed)
    ensures t.jobs.Keys == s.jobs.Keys
    ensures forall n :: n in t.jobs ==> t.jobs[n].derivation == s.jobs[n].derivation && t.jobs[n].requestedBy == s.jobs[n].requestedBy
  {
    if drvPath in s.drvToNode {
      var id := s.drvToNode[drvPath];
      if IsError(status) {
        assert ErrorStep(s, t, id, status, completed);
        StatusesOnly(s.jobs, t.jobs, Reach(s.edges, {id}), id, status, true);
      } else if Done(status) {
        assert SuccessStep(s, t, id, status, completed);
        StatusesOnly(s.jobs, t.jobs, Unblocked(s.edges, id), id, status, false);
      }
    }
  }

  /** `Cancel` and `Unblock` rewrite statuses only. */
  lemma StatusesOnly(jobs: map<NodeIndex, BuildJob>, jobs': map<NodeIndex, BuildJob>, v: set<NodeIndex>, id: NodeIndex, status: BuildStatus, error: bool)
    requires jobs' == if error then Cancel(jobs, v, id, status) else Unblock(jobs, v, id, status)
    ensures jobs'.Keys == jobs.Keys
    ensures forall n :: n in jobs' ==> jobs'[n].derivation == jobs[n].derivation && jobs'[n].requestedBy == jobs[n].requestedBy
  {
  }

  /** With distinct paths, `add_jobs` creates one node per path new to the
      queue and none for the others, raises the workflow's counter by the
      number of its paths that are new or not done (the amount
      `AddJobsStep` hands to `AddPending`), and reports the workflow complete
      exactly when every path of the batch was already queued and done. */
  lemma AddJobsCounts(s: Snapshot, bound: nat, t: Snapshot, bound': nat, batch: seq<Derivation>, w: WorkflowId, complete: bool)
    requires Consistent(s) && (forall n :: n in s.jobs ==> n < bound) && DistinctPaths(batch)
    requires AddJobsStep(s, bound, t, bound', batch, w, complete)
    ensures bound' == bound + |NewPaths(s.drvToNode, batch)|
    ensures
      (forall n :: n in t.jobs <==> n in s.jobs || bound <= n < bound')
      && (complete <==> forall p :: p in Paths(batch) ==> p in s.drvToNode && Done(s.jobs[s.drvToNode[p]].status))
      && AddedWork(s, bound, batch, w) == |NewPaths(s.drvToNode, batch)| + |PendingDuplicates(Start(s.jobs, s.drvToNode, bound), batch)|
  {
    assert WellIndexed(Start(s.jobs, s.drvToNode, bound));
    AddJobsNodesOf(s, bound, t.jobs, bound', batch, w);
    IntakeTotals(s, bound, batch, w);
    NothingPending(s.jobs, s.drvToNode, bound, batch);
  }

  /** The nodes of `AddJobsCounts`. */
  lemma AddJobsNodesOf(s: Snapshot, bound: nat, jobs: map<NodeIndex, BuildJob>, bound': nat, batch: seq<Derivation>, w: WorkflowId)
    requires WellIndexed(Start(s.jobs, s.drvToNode, bound)) && DistinctPaths(batch)
    requires jobs == NodePass(s, bound, batch, w).jobs && bound' == NodePass(s, bound, batch, w).nodeBound
    ensures bound' == bound + |NewPaths(s.drvToNode, batch)|
    ensures forall n :: n in jobs <==> n in s.jobs || bound <= n < bound'
  {
    IntakeTotals(s, bound, batch, w);
  }

  /** The node pass of a distinct batch on a consistent queue, counted. */
  lemma IntakeTotals(s: Snapshot, bound: nat, batch: seq<Derivation>, w: WorkflowId)
    requires WellIndexed(Start(s.jobs, s.drvToNode, bound)) && DistinctPaths(batch)
    ensures var st := NodePass(s, bound, batch, w);
      && st.newJobs == |NewPaths(s.drvToNode, batch)|
      && st.duplicatePending == |PendingDuplicates(Start(s.jobs, s.drvToNode, bound), batch)|
      && st.nodeBound == bound + st.newJobs
      && (forall n :: n in st.jobs <==> n in s.jobs || bound <= n < st.nodeBound)
  {
    var st0 := Start(s.jobs, s.drvToNode, bound);
    IntakeCounts(st0, batch, w);
    IntakeBound(st0, batch, w);
  }

  /** After `clear_workflow(w)`: `w` requests no job; no job is left that
      nobody requests; a job another workflow requests survives with its
      derivation and status; a job only `w` requested is gone with its
      path; the edges left are the old edges between surviving nodes;
      `ready` and the counters are unchanged; and the queue is
      consistent. */
  lemma ClearEffect(s: Snapshot, w: WorkflowId)
    requires Consistent(s)
    ensures var t := Cleared(s, s.jobs.Keys, w);
      && (forall n :: n in t.jobs ==> n in s.jobs && w !in t.jobs[n].requestedBy && t.jobs[n].requestedBy != {})
      && (forall n, v :: n in s.jobs && v in s.jobs[n].requestedBy && v != w ==>
            n in t.jobs && v in t.jobs[n].requestedBy
            && t.jobs[n].derivation == s.jobs[n].derivation && t.jobs[n].status == s.jobs[n].status)
      && (forall n :: n in s.jobs && s.jobs[n].requestedBy <= {w} ==> n !in t.jobs && s.jobs[n].derivation.drvPath !in t.drvToNode)
      && (forall e :: e in t.edges <==> e in s.edges && e.from in t.jobs && e.to in t.jobs)
      && t.ready == s.ready && t.pending == s.pending
      && Consistent(t)
  {
    var t := Cleared(s, s.jobs.Keys, w);
    forall n | n in s.jobs && s.jobs[n].requestedBy <= {w}
      ensures n !in t.jobs
    {
      assert s.jobs[n].requestedBy - {w} == {};
    }
    forall n, v | n in s.jobs && v in s.jobs[n].requestedBy && v != w
      ensures n in t.jobs
    {
      assert v in s.jobs[n].requestedBy - {w};
    }
    ClearConsistent(s, w);
  }

  /** Clearing a workflow twice is clearing it once. */
  lemma ClearIdempotent(s: Snapshot, w: WorkflowId)
    requires Consistent(s)
    ensures var t := Cleared(s, s.jobs.Keys, w);
      Cleared(t, t.jobs.Keys, w) == t
  {
    var t := Cleared(s, s.jobs.Keys, w);
    var t2 := Cleared(t, t.jobs.Keys, w);
    forall n | n in t.jobs
      ensures n in t2.jobs && t2.jobs[n] == t.jobs[n]
    {
      assert t.jobs[n].requestedBy - {w} == t.jobs[n].requestedBy;
    }
    assert t2.jobs == t.jobs;
    assert t2.drvToNode == t.drvToNode;
    assert t2.edges == t.edges;
  }

  /** When every node index is below the bound, `get_jobs` lists every job
      exactly once: as many entries as nodes, and each node's job among
      them. */
  lemma GetJobsComplete(jobs: map<NodeIndex, BuildJob>, bound: nat)
    requires forall n :: n in jobs ==> n < bound
    ensures |NodeWeights(jobs, bound)| == |jobs|
    ensures forall n :: n in jobs ==> jobs[n] in NodeWeights(jobs, bound)
  {
    assert (set n | n in jobs && n < bound) == jobs.Keys;
  }
}
