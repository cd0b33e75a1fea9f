/**
 * The in-memory build queue (`BuildQueueState` in src/build/mod.rs): a
 * dependency graph of build jobs, one node per derivation path, the list of
 * nodes the executor should pick up next and a counter of unfinished jobs per
 * workflow. The mutex around it and the wake-up signal are left out: each
 * method below is one critical section.
 */
module BuildQueue {
  import opened BuildTypes
  import opened JobGraph
  import opened PendingCounters
  import opened QueueIntake

  /** The state of the queue as a value, for stating what a step does. */
  datatype Snapshot = Snapshot(
    jobs: map<NodeIndex, BuildJob>,
    edges: set<Edge>,
    drvToNode: map<string, NodeIndex>,
    ready: seq<NodeIndex>,
    pending: map<WorkflowId, nat>)

  /** The invariant of the queue: edges join existing nodes, `drvToNode` and
      the nodes are in one-to-one correspondence through each job's
      derivation path (so a path has exactly one node), and every workflow
      counter that is present is positive. */
  ghost predicate Consistent(s: Snapshot)
  {
    && (forall e :: e in s.edges ==> e.from in s.jobs && e.to in s.jobs)
    && (forall p :: p in s.drvToNode ==> s.drvToNode[p] in s.jobs && s.jobs[s.drvToNode[p]].derivation.drvPath == p)
    && (forall n :: n in s.jobs ==> s.jobs[n].derivation.drvPath in s.drvToNode && s.drvToNode[s.jobs[n].derivation.drvPath] == n)
    && (forall w :: w in s.pending ==> s.pending[w] > 0)
  }

  /** `s.ready` followed by some ordering of the set `added`, each once. */
  ghost predicate Extends(ready: seq<NodeIndex>, ready': seq<NodeIndex>, added: set<NodeIndex>)
  {
    |ready'| >= |ready| && ready'[..|ready|] == ready && multiset(ready'[|ready|..]) == multiset(added)
  }

  /** The jobs after an error: `id` gets `status`, the rest of `v` is canceled. */
  function Cancel(jobs: map<NodeIndex, BuildJob>, v: set<NodeIndex>, id: NodeIndex, status: BuildStatus): map<NodeIndex, BuildJob>
  {
    map n | n in jobs :: if n == id then jobs[n].(status := status) else if n in v then jobs[n].(status := Canceled) else jobs[n]
  }

  /** The edges left once every edge into `v` is gone. */
  function EdgesOutside(edges: set<Edge>, v: set<NodeIndex>): (r: set<Edge>)
    ensures r <= edges
    ensures forall e :: e in r <==> e in edges && e.to !in v
  {
    set e | e in edges && e.to !in v
  }

  /** `propagate_error(id, status)`: `id` takes `status`, every node reachable
      from it is canceled and appended to `ready` once, every edge into those
      nodes is removed, and the counters of the workflows that requested any
      of them are settled, the workflows whose counters ran out being
      reported exactly once. */
  ghost predicate ErrorStep(s: Snapshot, t: Snapshot, id: NodeIndex, status: BuildStatus, completed: seq<WorkflowId>)
  {
    var v := Reach(s.edges, {id});
    && t.jobs == Cancel(s.jobs, v, id, status)
    && t.edges == EdgesOutside(s.edges, v)
    && t.drvToNode == s.drvToNode
    && Extends(s.ready, t.ready, v - {id})
    && t.pending == Settle(s.pending, s.jobs, v)
    && multiset(completed) == multiset(Finished(s.pending, s.jobs, v))
  }

  /** The children of `id` whose only parent is `id`. */
  function Unblocked(edges: set<Edge>, id: NodeIndex): (r: set<NodeIndex>)
    ensures forall c :: c in r <==> Edge(id, c) in edges && forall e :: e in edges && e.to == c ==> e.from == id
  {
    set c | c in Children(edges, id) && Parents(edges, c) == {id}
  }

  /** `propagate_success(id, status)`: `id` takes `status`, its outgoing
      edges are removed, the children left without parents become Ready and
      are appended to `ready` once each, and the counters of the workflows
      that requested `id` are settled. */
  ghost predicate SuccessStep(s: Snapshot, t: Snapshot, id: NodeIndex, status: BuildStatus, completed: seq<WorkflowId>)
  {
    var u := Unblocked(s.edges, id);
    && t.jobs == Unblock(s.jobs, u, id, status)
    && t.edges == EdgesNotFrom(s.edges, id, Children(s.edges, id))
    && t.drvToNode == s.drvToNode
    && Extends(s.ready, t.ready, u)
    && t.pending == Settle(s.pending, s.jobs, {id})
    && multiset(completed) == multiset(Finished(s.pending, s.jobs, {id}))
  }

  /** A non-terminal status update: only the job's status changes. */
  ghost predicate StatusOnlyStep(s: Snapshot, t: Snapshot, id: NodeIndex, status: BuildStatus, completed: seq<WorkflowId>)
    requires id in s.jobs
  {
    t == s.(jobs := s.jobs[id := s.jobs[id].(status := status)]) && completed == []
  }

  /** What the loop of `propagate_error` has established after visiting `v`. */
  ghost predicate ErrorLoop(s: Snapshot, t: Snapshot, id: NodeIndex, status: BuildStatus, v: set<NodeIndex>, completed: seq<WorkflowId>)
  {
    && id in v && v <= Reach(s.edges, {id})
    && t.jobs == Cancel(s.jobs, v, id, status)
    && t.edges == EdgesOutside(s.edges, v)
    && t.drvToNode == s.drvToNode
    && Extends(s.ready, t.ready, v - {id})
    && t.pending == Settle(s.pending, s.jobs, v)
    && multiset(completed) == multiset(Finished(s.pending, s.jobs, v))
    && (forall e :: e in s.edges && e.from in v && e.from != id ==> e.to in v)
  }

  /** Removing edges and appending to `ready` keep the queue consistent. */
  lemma ConsistentFewerEdges(s: Snapshot, t: Snapshot)
    requires Consistent(s)
    requires t.jobs == s.jobs && t.drvToNode == s.drvToNode && t.pending == s.pending && t.edges <= s.edges
    ensures Consistent(t)
  {
  }

  /** Changing statuses, dropping edges and settling counters keep the
      queue consistent. */
  lemma ConsistentRelabel(s: Snapshot, t: Snapshot)
    requires Consistent(s)
    requires t.drvToNode == s.drvToNode && t.jobs.Keys == s.jobs.Keys && t.edges <= s.edges
    requires forall n :: n in s.jobs ==> t.jobs[n].derivation == s.jobs[n].derivation
    requires forall w :: w in t.pending ==> t.pending[w] > 0
    ensures Consistent(t)
  {
  }

  /** The jobs after a success: the nodes in `r` become Ready, `id` (if not
      in `r`) takes `status`. */
  function Unblock(jobs: map<NodeIndex, BuildJob>, r: set<NodeIndex>, id: NodeIndex, status: BuildStatus): map<NodeIndex, BuildJob>
  {
    map n | n in jobs :: if n in r then jobs[n].(status := Ready) else if n == id then jobs[n].(status := status) else jobs[n]
  }

  /** `propagate_success` keeps the queue consistent. */
  lemma SuccessConsistent(s: Snapshot, t: Snapshot, id: NodeIndex, status: BuildStatus, completed: seq<WorkflowId>)
    requires Consistent(s) && SuccessStep(s, t, id, status, completed)
    ensures Consistent(t) && t.jobs.Keys == s.jobs.Keys
  {
    SettlePartition(s.pending, s.jobs, {id});
    ConsistentRelabel(s, t);
  }

  /** `propagate_error` keeps the queue consistent. */
  lemma ErrorConsistent(s: Snapshot, t: Snapshot, id: NodeIndex, status: BuildStatus, completed: seq<WorkflowId>)
    requires Consistent(s) && ErrorStep(s, t, id, status, completed)
    ensures Consistent(t) && t.jobs.Keys == s.jobs.Keys
  {
    SettlePartition(s.pending, s.jobs, Reach(s.edges, {id}));
    ConsistentRelabel(s, t);
  }

  /** `Unblock` overwrites the status of `id`, so it does not matter
      whether `id` already had it. */
  lemma UnblockRelabeled(jobs: map<NodeIndex, BuildJob>, r: set<NodeIndex>, id: NodeIndex, status: BuildStatus)
    requires id in jobs
    ensures Unblock(jobs[id := jobs[id].(status := status)], r, id, status) == Unblock(jobs, r, id, status)
  {
  }

  /** The edges left once the edges from `id` to `done` are gone. */
  function EdgesNotFrom(edges: set<Edge>, id: NodeIndex, done: set<NodeIndex>): (r: set<Edge>)
    ensures forall e :: e in r <==> e in edges && !(e.from == id && e.to in done)
  {
    set e | e in edges && !(e.from == id && e.to in done)
  }

  /** What the loop of `propagate_success` has established once the
      children of `id` outside `todo` have been handled. */
  ghost predicate SuccessLoop(s: Snapshot, t: Snapshot, id: NodeIndex, status: BuildStatus, todo: set<NodeIndex>)
  {
    var done := Children(s.edges, id) - todo;
    var u := Unblocked(s.edges, id);
    && todo <= Children(s.edges, id)
    && t.jobs == Unblock(s.jobs, u * done, id, status)
    && t.edges == EdgesNotFrom(s.edges, id, done)
    && t.drvToNode == s.drvToNode
    && Extends(s.ready, t.ready, u * done)
  }

  lemma UnblockOneMore(jobs: map<NodeIndex, BuildJob>, r: set<NodeIndex>, id: NodeIndex, status: BuildStatus, n: NodeIndex)
    requires n in jobs
    ensures var j := Unblock(jobs, r, id, status); j[n := j[n].(status := Ready)] == Unblock(jobs, r + {n}, id, status)
  {
  }

  lemma ExtendsOneMore(r0: seq<NodeIndex>, r: seq<NodeIndex>, a: set<NodeIndex>, n: NodeIndex)
    requires Extends(r0, r, a) && n !in a
    ensures Extends(r0, r + [n], a + {n})
  {
    var k := |r0|;
    assert (r + [n])[k..] == r[k..] + [n];
    assert (r + [n])[..k] == r0;
    MultisetOfUnion(a, {n});
  }

  /** One turn of the loop of `propagate_success`: the edge to the child
      `n` is removed and `n` is made Ready exactly when no other parent
      remains. */
  lemma SuccessLoopStep(s: Snapshot, t: Snapshot, id: NodeIndex, status: BuildStatus, todo: set<NodeIndex>, n: NodeIndex, t': Snapshot)
    requires n in s.jobs
    requires SuccessLoop(s, t, id, status, todo) && n in todo
    requires var e' := t.edges - {Edge(id, n)};
      t' == if Parents(e', n) == {} then t.(edges := e', jobs := t.jobs[n := t.jobs[n].(status := Ready)], ready := t.ready + [n])
            else t.(edges := e')
    ensures SuccessLoop(s, t', id, status, todo - {n})
  {
    var done := Children(s.edges, id) - todo;
    var u := Unblocked(s.edges, id);
    var e' := t.edges - {Edge(id, n)};
    assert Children(s.edges, id) - (todo - {n}) == done + {n};
    assert e' == EdgesNotFrom(s.edges, id, done + {n});
    assert Parents(e', n) == {} <==> n in u by {
      assert forall p :: p in Parents(e', n) <==> p != id && Edge(p, n) in s.edges;
    }
    if n in u {
      assert u * (done + {n}) == (u * done) + {n};
      UnblockOneMore(s.jobs, u * done, id, status, n);
      ExtendsOneMore(s.ready, t.ready, u * done, n);
    } else {
      assert u * (done + {n}) == u * done;
    }
  }

  /** Before the loop of `propagate_success` nothing has been visited. */
  lemma SuccessLoopInit(s: Snapshot, id: NodeIndex)
    requires id in s.jobs
    ensures SuccessLoop(s, s, id, s.jobs[id].status, Children(s.edges, id))
  {
    var u := Unblocked(s.edges, id);
    assert u * {} == {};
    assert s.ready[|s.ready|..] == [];
    assert s.jobs == Unblock(s.jobs, {}, id, s.jobs[id].status);
    assert s.edges == EdgesNotFrom(s.edges, id, {});
  }

  /** Once every child has been visited the loop has done a `SuccessStep`'s
      work on the graph and on `ready`. */
  lemma SuccessLoopDone(s: Snapshot, t: Snapshot, id: NodeIndex, status: BuildStatus)
    requires SuccessLoop(s, t, id, status, {})
    ensures t.jobs == Unblock(s.jobs, Unblocked(s.edges, id), id, status)
    ensures t.edges == EdgesNotFrom(s.edges, id, Children(s.edges, id))
    ensures Extends(s.ready, t.ready, Unblocked(s.edges, id))
  {
    assert Children(s.edges, id) - {} == Children(s.edges, id);
    assert Unblocked(s.edges, id) * Children(s.edges, id) == Unblocked(s.edges, id);
  }

  /** A set seen as a multiset: disjoint unions add up. */
  lemma MultisetOfUnion<T>(a: set<T>, b: set<T>)
    requires a !! b
    ensures multiset(a + b) == multiset(a) + multiset(b)
  {
    forall x ensures multiset(a + b)[x] == (multiset(a) + multiset(b))[x] {
    }
  }

  /** Before the loop of `propagate_error`: `id` has its new status, its
      counters are settled and its incoming edges are gone. */
  lemma ErrorLoopInit(s: Snapshot, t: Snapshot, id: NodeIndex, status: BuildStatus, completed: seq<WorkflowId>)
    requires id in s.jobs
    requires t.jobs == s.jobs[id := s.jobs[id].(status := status)]
    requires t.edges == EdgesOutside(s.edges, {id})
    requires t.drvToNode == s.drvToNode && t.ready == s.ready
    requires t.pending == Settle(s.pending, s.jobs, {id})
    requires multiset(completed) == multiset(Finished(s.pending, s.jobs, {id}))
    ensures ErrorLoop(s, t, id, status, {id}, completed)
  {
    ReachBounds(s.edges, {id});
    assert t.jobs == Cancel(s.jobs, {id}, id, status);
    assert t.ready[|s.ready|..] == [];
    assert {id} - {id} == {};
  }

  /** What the recursive call on the child `n` visits is new and reachable
      from `id`. */
  lemma ChildReachFresh(e0: set<Edge>, id: NodeIndex, v: set<NodeIndex>, n: NodeIndex, ec: set<Edge>)
    requires Edge(id, n) in e0 && id in v && n !in v
    requires forall e :: e in ec ==> e in e0 && e.to !in v
    ensures Reach(ec, {n}) !! v
    ensures n in Reach(ec, {n}) && Reach(ec, {n}) <= Reach(e0, {id})
  {
    ReachBounds(ec, {n});
    assert forall x :: x in Targets(ec) ==> x !in v;
    var r0 := Reach(e0, {id});
    ReachBounds(e0, {id});
    ReachClosed(e0, {id});
    ReachLeast(ec, {n}, r0);
  }

  lemma CancelCompose(jobs: map<NodeIndex, BuildJob>, v: set<NodeIndex>, v': set<NodeIndex>, id: NodeIndex, n: NodeIndex, status: BuildStatus)
    requires id in v && n in v' && v !! v'
    ensures Cancel(Cancel(jobs, v, id, status), v', n, Canceled) == Cancel(jobs, v + v', id, status)
  {
  }

  lemma ReadyCompose(r0: seq<NodeIndex>, r: seq<NodeIndex>, r': seq<NodeIndex>, id: NodeIndex, v: set<NodeIndex>, n: NodeIndex, v': set<NodeIndex>)
    requires Extends(r0, r, v - {id})
    requires Extends(r + [n], r', v' - {n})
    requires id in v && n in v' && v !! v'
    ensures Extends(r0, r', (v + v') - {id})
  {
    var k := |r0|;
    assert r'[..|r + [n]|] == r + [n];
    assert r'[..k] == r0;
    assert r'[k..] == r[k..] + [n] + r'[|r + [n]|..];
    assert (v - {id}) + {n} + (v' - {n}) == (v + v') - {id};
    MultisetOfUnion(v - {id}, {n});
    MultisetOfUnion((v - {id}) + {n}, v' - {n});
  }

  lemma CountersCompose(p: map<WorkflowId, nat>, jobs: map<NodeIndex, BuildJob>, jobs': map<NodeIndex, BuildJob>,
                        v: set<NodeIndex>, v': set<NodeIndex>, completed: seq<WorkflowId>, c: seq<WorkflowId>)
    requires v !! v'
    requires jobs'.Keys == jobs.Keys && forall n :: n in jobs ==> jobs'[n].requestedBy == jobs[n].requestedBy
    requires multiset(completed) == multiset(Finished(p, jobs, v))
    requires multiset(c) == multiset(Finished(Settle(p, jobs, v), jobs', v'))
    ensures Settle(Settle(p, jobs, v), jobs', v') == Settle(p, jobs, v + v')
    ensures multiset(completed + c) == multiset(Finished(p, jobs, v + v'))
  {
    SettleFrame(Settle(p, jobs, v), jobs', jobs, v');
    SettleCompose(p, jobs, v, v');
    FinishedCompose(p, jobs, v, v');
    MultisetOfUnion(Finished(p, jobs, v), Finished(Settle(p, jobs, v), jobs, v'));
  }

  /** One turn of the loop of `propagate_error`: the child `n` is pushed,
      its edge from `id` removed, and the recursive call cancels everything
      reachable from it. */
  lemma ErrorLoopStep(s: Snapshot, t: Snapshot, id: NodeIndex, status: BuildStatus, v: set<NodeIndex>,
                      completed: seq<WorkflowId>, n: NodeIndex, sc: Snapshot, t': Snapshot, c: seq<WorkflowId>)
    requires ErrorLoop(s, t, id, status, v, completed)
    requires Edge(id, n) in t.edges
    requires sc == t.(ready := t.ready + [n], edges := t.edges - {Edge(id, n)})
    requires ErrorStep(sc, t', n, Canceled, c)
    ensures Reach(sc.edges, {n}) !! v
    ensures ErrorLoop(s, t', id, status, v + Reach(sc.edges, {n}), completed + c)
  {
    var e0, ec := s.edges, sc.edges;
    var v' := Reach(ec, {n});
    ChildReachFresh(e0, id, v, n, ec);
    var w := v + v';
    CancelCompose(s.jobs, v, v', id, n, status);
    assert t'.edges == EdgesOutside(e0, w);
    ReadyCompose(s.ready, t.ready, t'.ready, id, v, n, v');
    CountersCompose(s.pending, s.jobs, sc.jobs, v, v', completed, c);
    ReachClosed(ec, {n});
    forall e | e in e0 && e.from in w && e.from != id
      ensures e.to in w
    {
      if e.from in v' && e.to !in v {
        assert e in ec;
      }
    }
  }

  /** When `id` has no child left the loop has visited exactly the nodes
      reachable from `id`. */
  lemma ErrorLoopDone(s: Snapshot, t: Snapshot, id: NodeIndex, status: BuildStatus, v: set<NodeIndex>, completed: seq<WorkflowId>)
    requires ErrorLoop(s, t, id, status, v, completed)
    requires Children(t.edges, id) == {}
    ensures v == Reach(s.edges, {id})
    ensures ErrorStep(s, t, id, status, completed)
  {
    forall e | e in s.edges && e.from in v
      ensures e.to in v
    {
    }
    ReachLeast(s.edges, {id}, v);
  }

  /** `update_status(drv_path, status)`: an unknown path changes nothing
      and reports nothing; an error status runs `ErrorStep` on the path's
      node, any other terminal status `SuccessStep`, and a non-terminal one
      only overwrites that job's status. */
  ghost predicate UpdateStep(s: Snapshot, t: Snapshot, drvPath: string, status: BuildStatus, completed: seq<WorkflowId>)
  {
    if drvPath !in s.drvToNode then t == s && completed == []
    else
      var id := s.drvToNode[drvPath];
      if IsError(status) then ErrorStep(s, t, id, status, completed)
      else if Done(status) then SuccessStep(s, t, id, status, completed)
      else id in s.jobs && StatusOnlyStep(s, t, id, status, completed)
  }

  /** The pending counters after `add_jobs` counted `total` pieces of
      unfinished work for the workflow `w`. */
  function AddPending(p: map<WorkflowId, nat>, w: WorkflowId, total: nat): map<WorkflowId, nat>
  {
    if total == 0 then p else p[w := (if w in p then p[w] else 0) + total]
  }

  /** The node pass of `add_jobs(batch, w)` on the queue `s`, new nodes
      numbered from `bound`. */
  function NodePass(s: Snapshot, bound: nat, batch: seq<Derivation>, w: WorkflowId): Intake
    requires Indexed(Start(s.jobs, s.drvToNode, bound))
  {
    IntakeAll(Start(s.jobs, s.drvToNode, bound), batch, w)
  }

  /** The pieces of unfinished work `add_jobs(batch, w)` counts for `w`:
      one per new job and one per duplicate that is not done. */
  function AddedWork(s: Snapshot, bound: nat, batch: seq<Derivation>, w: WorkflowId): nat
    requires Indexed(Start(s.jobs, s.drvToNode, bound))
  {
    NodePass(s, bound, batch, w).newJobs + NodePass(s, bound, batch, w).duplicatePending
  }

  /** `add_jobs(derivations, w)`: the node pass, then the pending counter,
      then the edge pass, then the new roots are appended to `ready`; the
      result says whether no work was counted. */
  ghost predicate AddJobsStep(s: Snapshot, bound: nat, t: Snapshot, bound': nat, batch: seq<Derivation>, w: WorkflowId, complete: bool)
  {
    && Indexed(Start(s.jobs, s.drvToNode, bound))
    && var st := NodePass(s, bound, batch, w);
       var total := AddedWork(s, bound, batch, w);
       && t.jobs == st.jobs && t.drvToNode == st.drvToNode && bound' == st.nodeBound
       && Resolved(st.drvToNode, batch)
       && t.edges == s.edges + BatchEdges(st.drvToNode, batch)
       && t.ready == s.ready + st.roots
       && t.pending == AddPending(s.pending, w, total)
       && complete == (total == 0)
  }

  /** `add_jobs` keeps the queue consistent: the new nodes get paths of
      their own, the new edges join nodes, and the counter it touches is
      positive. */
  lemma AddJobsConsistent(s: Snapshot, bound: nat, t: Snapshot, bound': nat, batch: seq<Derivation>, w: WorkflowId, complete: bool)
    requires Consistent(s) && (forall n :: n in s.jobs ==> n < bound)
    requires AddJobsStep(s, bound, t, bound', batch, w, complete)
    ensures Consistent(t) && forall n :: n in t.jobs ==> n < bound'
  {
    var st := NodePass(s, bound, batch, w);
    IntakeWellIndexed(Start(s.jobs, s.drvToNode, bound), batch, w);
    AddJobsEdges(s, bound, batch, w);
    AddPendingPositive(s.pending, w, AddedWork(s, bound, batch, w));
  }

  /** The edges after `add_jobs` join nodes. */
  lemma AddJobsEdges(s: Snapshot, bound: nat, batch: seq<Derivation>, w: WorkflowId)
    requires Consistent(s) && (forall n :: n in s.jobs ==> n < bound)
    requires Resolved(NodePass(s, bound, batch, w).drvToNode, batch)
    ensures forall e :: e in s.edges + BatchEdges(NodePass(s, bound, batch, w).drvToNode, batch) ==>
      e.from in NodePass(s, bound, batch, w).jobs && e.to in NodePass(s, bound, batch, w).jobs
  {
    var st := NodePass(s, bound, batch, w);
    IntakeBound(Start(s.jobs, s.drvToNode, bound), batch, w);
    assert forall n :: n in s.jobs ==> n in st.jobs;
    forall e | e in BatchEdges(st.drvToNode, batch)
      ensures e.from in st.jobs && e.to in st.jobs
    {
      var i, j := BatchEdgesWitness(st.drvToNode, batch, e);
    }
  }

  /** Adding work to a counter keeps every counter positive. */
  lemma AddPendingPositive(p: map<WorkflowId, nat>, w: WorkflowId, total: nat)
    requires forall v :: v in p ==> p[v] > 0
    ensures forall v :: v in AddPending(p, w, total) ==> AddPending(p, w, total)[v] > 0
  {
  }

  /** The jobs once the workflow `w` has withdrawn from the nodes in
      `visited`: it leaves their `requestedBy`, and those nobody requests
      any more are gone. */
  function ClearJobs(jobs: map<NodeIndex, BuildJob>, visited: set<NodeIndex>, w: WorkflowId): map<NodeIndex, BuildJob>
  {
    map n | n in jobs && (n in visited ==> jobs[n].requestedBy - {w} != {})
      :: if n in visited then jobs[n].(requestedBy := jobs[n].requestedBy - {w}) else jobs[n]
  }

  /** `clear_workflow(w)` after it has dealt with the nodes in `visited`:
      the removed nodes lose their paths and every edge touching them;
      `ready` and the counters are left as they were. */
  ghost function Cleared(s: Snapshot, visited: set<NodeIndex>, w: WorkflowId): Snapshot
  {
    var j := ClearJobs(s.jobs, visited, w);
    s.(jobs := j,
       drvToNode := map p | p in s.drvToNode && s.drvToNode[p] in j :: s.drvToNode[p],
       edges := set e | e in s.edges && e.from in j && e.to in j)
  }

  /** One entry of `clear_workflow`'s loop: `w` leaves the job at `i` (the
      node of the path `d`); if nobody else requests it, the node, its
      incident edges and the path's entry are removed. */
  ghost function ClearOne(t: Snapshot, d: string, i: NodeIndex, w: WorkflowId): Snapshot
    requires i in t.jobs
  {
    var rb := t.jobs[i].requestedBy - {w};
    if rb == {} then
      t.(jobs := t.jobs - {i}, drvToNode := t.drvToNode - {d}, edges := set e | e in t.edges && e.from != i && e.to != i)
    else
      t.(jobs := t.jobs[i := t.jobs[i].(requestedBy := rb)])
  }

  /** Dealing with one more node extends `Cleared` by that node. */
  lemma ClearStep(s: Snapshot, visited: set<NodeIndex>, w: WorkflowId, d: string)
    requires Consistent(s) && d in s.drvToNode && s.drvToNode[d] !in visited
    ensures s.drvToNode[d] in Cleared(s, visited, w).jobs
    ensures ClearOne(Cleared(s, visited, w), d, s.drvToNode[d], w) == Cleared(s, visited + {s.drvToNode[d]}, w)
  {
    if s.jobs[s.drvToNode[d]].requestedBy - {w} == {} {
      ClearStepRemoves(s, visited, w, d);
    } else {
      ClearStepKeeps(s, visited, w, d);
    }
  }

  /** `ClearStep` when `w` was the last requester of the node. */
  lemma ClearStepRemoves(s: Snapshot, visited: set<NodeIndex>, w: WorkflowId, d: string)
    requires Consistent(s) && d in s.drvToNode && s.drvToNode[d] !in visited
    requires s.jobs[s.drvToNode[d]].requestedBy - {w} == {}
    ensures s.drvToNode[d] in Cleared(s, visited, w).jobs
    ensures ClearOne(Cleared(s, visited, w), d, s.drvToNode[d], w) == Cleared(s, visited + {s.drvToNode[d]}, w)
  {
    var i := s.drvToNode[d];
    var t := Cleared(s, visited, w);
    var t' := Cleared(s, visited + {i}, w);
    var c := ClearOne(t, d, i, w);
    assert c.jobs == t'.jobs;
    forall p | p in s.drvToNode
      ensures p in c.drvToNode <==> p in t'.drvToNode
    {
      if s.drvToNode[p] == i {
        assert p == d;
      }
    }
    assert c.drvToNode == t'.drvToNode;
    assert c.edges == t'.edges;
  }

  /** `ClearStep` when another workflow still requests the node. */
  lemma ClearStepKeeps(s: Snapshot, visited: set<NodeIndex>, w: WorkflowId, d: string)
    requires Consistent(s) && d in s.drvToNode && s.drvToNode[d] !in visited
    requires s.jobs[s.drvToNode[d]].requestedBy - {w} != {}
    ensures s.drvToNode[d] in Cleared(s, visited, w).jobs
    ensures ClearOne(Cleared(s, visited, w), d, s.drvToNode[d], w) == Cleared(s, visited + {s.drvToNode[d]}, w)
  {
    var i := s.drvToNode[d];
    var t := Cleared(s, visited, w);
    var t' := Cleared(s, visited + {i}, w);
    var c := ClearOne(t, d, i, w);
    assert c.jobs == t'.jobs;
    assert c.drvToNode == t'.drvToNode;
    assert c.edges == t'.edges;
  }

  /** `clear_workflow` keeps the queue consistent. */
  lemma ClearConsistent(s: Snapshot, w: WorkflowId)
    requires Consistent(s)
    ensures Consistent(Cleared(s, s.jobs.Keys, w))
  {
  }

  /** The jobs of `drain_ready_jobs`: the job at each index of `ready`, in
      order. */
  function JobsAt(jobs: map<NodeIndex, BuildJob>, indices: seq<NodeIndex>): (r: seq<BuildJob>)
    requires forall k :: 0 <= k < |indices| ==> indices[k] in jobs
    ensures |r| == |indices| && forall k :: 0 <= k < |indices| ==> r[k] == jobs[indices[k]]
  {
    seq(|indices|, k requires 0 <= k < |indices| => jobs[indices[k]])
  }

  /** The node weights of the graph in index order (`get_jobs`): the jobs of
      the nodes below `bound`, each once. */
  function NodeWeights(jobs: map<NodeIndex, BuildJob>, bound: nat): (r: seq<BuildJob>)
    ensures |r| == |set n | n in jobs && n < bound|
    ensures forall n :: n in jobs && n < bound ==> jobs[n] in r
    ensures forall k :: 0 <= k < |r| ==> exists n :: n in jobs && n < bound && r[k] == jobs[n]
    decreases bound
  {
    if bound == 0 then
      assert (set n | n in jobs && n < bound) == {};
      []
    else
      var below := set n | n in jobs && n < bound - 1;
      if bound - 1 in jobs then
        assert (set n | n in jobs && n < bound) == below + {bound - 1};
        NodeWeights(jobs, bound - 1) + [jobs[bound - 1]]
      else
        assert (set n | n in jobs && n < bound) == below;
        NodeWeights(jobs, bound - 1)
  }

  /** The jobs a workflow requested, in the order given (`get_workflow_jobs`).
      With `RequestedByAppend` this pins the result down as the
      order-preserving selection from `js`. */
  function RequestedBy(js: seq<BuildJob>, w: WorkflowId): (r: seq<BuildJob>)
    ensures |r| <= |js|
    ensures js == [] ==> r == []
    ensures forall x :: x in r <==> x in js && w in x.requestedBy
    decreases |js|
  {
    if js == [] then []
    else
      var rest := RequestedBy(js[..|js| - 1], w);
      var last := js[|js| - 1];
      assert forall x :: x in js <==> x in js[..|js| - 1] || x == last;
      if w in last.requestedBy then rest + [last] else rest
  }

  /** Listing one more job appends it exactly when the workflow requested
      it: the selection keeps the order and the multiplicity of `js`. */
  lemma RequestedByAppend(js: seq<BuildJob>, j: BuildJob, w: WorkflowId)
    ensures RequestedBy(js + [j], w) == RequestedBy(js, w) + (if w in j.requestedBy then [j] else [])
  {
    assert (js + [j])[..|js|] == js;
  }

  /** An element of a non-empty set: the next item a `HashSet` or `HashMap`
      iterator yields, in an order the model leaves open. */
  method PickOne<T>(s: set<T>) returns (x: T)
    requires s != {}
    ensures x in s
  {
    x :| x in s;
  }

  class BuildQueueState {
    var jobs: map<NodeIndex, BuildJob>         // the nodes of the dependency graph
    var edges: set<Edge>                        // dependency -> dependent
    var drvToNode: map<string, NodeIndex>
    var ready: seq<NodeIndex>
    var pendingWorkflows: map<WorkflowId, nat>  // workflow id -> count of unfinished jobs
    var nodeBound: nat                          // every node index in use is below it

    ghost function Snap(): Snapshot
      reads this
    {
      Snapshot(jobs, edges, drvToNode, ready, pendingWorkflows)
    }

    ghost predicate Valid()
      reads this
    {
      Consistent(Snap()) && forall n :: n in jobs ==> n < nodeBound
    }

    /** `BuildQueueState::default()`: an empty queue. */
    constructor ()
      ensures Valid()
      ensures Snap() == Snapshot(map[], {}, map[], [], map[])
    {
      jobs, edges, drvToNode, ready, pendingWorkflows, nodeBound := map[], {}, map[], [], map[], 0;
    }

    /** The counter loop shared by both propagations: decrement (saturating)
        the counter of every workflow that requested `id`, removing and
        reporting the counters that reach zero. */
    method DecrementCounters(id: NodeIndex) returns (done: seq<WorkflowId>)
      requires id in jobs
      modifies this`pendingWorkflows
      ensures pendingWorkflows == Settle(old(pendingWorkflows), jobs, {id})
      ensures multiset(done) == multiset(Finished(old(pendingWorkflows), jobs, {id}))
    {
      var requestedBy := jobs[id].requestedBy;
      var todo := requestedBy;
      ghost var p0 := pendingWorkflows;
      done := [];
      while todo != {}
        invariant todo <= requestedBy
        invariant DecrementedOnce(p0, pendingWorkflows, requestedBy - todo)
        invariant multiset(done) == multiset(RunOut(p0, requestedBy - todo))
        decreases todo
      {
        var w := PickOne(todo);
        DecrementStep(p0, pendingWorkflows, requestedBy - todo, w, done, w in pendingWorkflows && SaturatingDec(pendingWorkflows[w]) == 0);
        var finished := DecrementWorkflow(w);
        if finished {
          done := done + [w];
        }
        assert requestedBy - (todo - {w}) == (requestedBy - todo) + {w};
        todo := todo - {w};
      }
      SettleSingle(p0, pendingWorkflows, jobs, id);
    }

    /** One step of the loop over `requestedBy`: the counter of `w`, if any,
        goes down by one and is dropped once it reaches zero; the result says
        whether it was dropped. */
    method DecrementWorkflow(w: WorkflowId) returns (finished: bool)
      modifies this`pendingWorkflows
      ensures pendingWorkflows == DecrementOne(old(pendingWorkflows), w)
      ensures finished <==> w in old(pendingWorkflows) && SaturatingDec(old(pendingWorkflows)[w]) == 0
    {
      finished := false;
      if w in pendingWorkflows {
        var count := SaturatingDec(pendingWorkflows[w]);
        pendingWorkflows := pendingWorkflows[w := count];
        if count == 0 {
          finished := true;
          pendingWorkflows := pendingWorkflows - {w};
        }
      }
    }

    /** The walker over the parents of `id` in `propagate_error`: remove
        every edge into `id`. */
    method RemoveParentEdges(id: NodeIndex)
      modifies this`edges
      ensures edges == EdgesOutside(old(edges), {id})
    {
      var parents := Parents(edges, id);
      while parents != {}
        invariant parents <= Parents(old(edges), id)
        invariant edges == old(edges) - (set p | p in Parents(old(edges), id) - parents :: Edge(p, id))
        decreases parents
      {
        var p := PickOne(parents);
        edges := edges - {Edge(p, id)};
        parents := parents - {p};
      }
    }

    /** `propagate_error`: see `ErrorStep`. The walker over the children is
        modelled on the live edge set: the loop continues while `id` still
        has a child. */
    method PropagateError(id: NodeIndex, status: BuildStatus) returns (completed: seq<WorkflowId>)
      requires Valid() && id in jobs
      modifies this`jobs, this`edges, this`ready, this`pendingWorkflows
      ensures Valid()
      ensures ErrorStep(old(Snap()), Snap(), id, status, completed)
      decreases edges, 2
    {
      ghost var s := Snap();
      completed := MarkFinished(id, status);
      RemoveParentEdges(id);
      ErrorLoopInit(s, Snap(), id, status, completed);
      ConsistentRelabel(s, Snap());

      ghost var v: set<NodeIndex> := {id};
      while Children(edges, id) != {}
        invariant Valid()
        invariant ErrorLoop(s, Snap(), id, status, v, completed)
        invariant edges <= old(edges)
        decreases edges
      {
        var childCompleted;
        childCompleted, v := CancelNextChild(id, s, status, v, completed);
        completed := completed + childCompleted;
      }
      ErrorLoopDone(s, Snap(), id, status, v, completed);
    }

    /** One turn of the walker over the children in `propagate_error`: some
        child `n` of `id` is cancelled, and what it reaches joins the visited
        set `v`. */
    method CancelNextChild(id: NodeIndex, ghost s: Snapshot, ghost status: BuildStatus, ghost v: set<NodeIndex>, ghost completed: seq<WorkflowId>)
      returns (childCompleted: seq<WorkflowId>, ghost v': set<NodeIndex>)
      requires Valid() && ErrorLoop(s, Snap(), id, status, v, completed) && Children(edges, id) != {}
      modifies this`jobs, this`edges, this`ready, this`pendingWorkflows
      ensures Valid() && ErrorLoop(s, Snap(), id, status, v', completed + childCompleted)
      ensures edges < old(edges)
      decreases edges, 1
    {
      var n := PickOne(Children(edges, id));
      ghost var t := Snap();
      childCompleted := CancelChild(id, n);
      ErrorLoopStep(s, t, id, status, v, completed, n, t.(ready := t.ready + [n], edges := t.edges - {Edge(id, n)}), Snap(), childCompleted);
      v' := v + Reach(t.edges - {Edge(id, n)}, {n});
    }

    /** One turn of the walker over the children in `propagate_error`: push
        the child `n` to `ready` and cancel it recursively. The edge from
        `id` to `n` is removed here, just before the recursive call, rather
        than as the callee's first edge removal; the result is the same. */
    method CancelChild(id: NodeIndex, n: NodeIndex) returns (completed: seq<WorkflowId>)
      requires Valid() && Edge(id, n) in edges
      modifies this`jobs, this`edges, this`ready, this`pendingWorkflows
      ensures Valid()
      ensures ErrorStep(old(Snap()).(ready := old(ready) + [n], edges := old(edges) - {Edge(id, n)}), Snap(), n, Canceled, completed)
      decreases edges, 0
    {
      ghost var t := Snap();
      ready := ready + [n];
      edges := edges - {Edge(id, n)};
      ConsistentFewerEdges(t, Snap());
      completed := PropagateError(n, Canceled);
    }

    /** `propagate_success`: see `SuccessStep`. */
    method PropagateSuccess(id: NodeIndex, status: BuildStatus) returns (completed: seq<WorkflowId>)
      requires Valid() && id in jobs
      modifies this`jobs, this`edges, this`ready, this`pendingWorkflows
      ensures Valid()
      ensures SuccessStep(old(Snap()), Snap(), id, status, completed)
    {
      ghost var s := Snap();
      completed := MarkFinished(id, status);
      ghost var j1 := jobs;
      UnblockChildren(id);
      UnblockRelabeled(s.jobs, Unblocked(s.edges, id), id, status);
      assert SuccessStep(s, Snap(), id, status, completed);
      SuccessConsistent(s, Snap(), id, status, completed);
    }

    /** The first half of `propagate_success`: `id` takes `status` and the
        counters of the workflows that requested it are settled. */
    method MarkFinished(id: NodeIndex, status: BuildStatus) returns (completed: seq<WorkflowId>)
      requires id in jobs && forall w :: w in pendingWorkflows ==> pendingWorkflows[w] > 0
      modifies this`jobs, this`pendingWorkflows
      ensures jobs == old(jobs)[id := old(jobs)[id].(status := status)]
      ensures pendingWorkflows == Settle(old(pendingWorkflows), old(jobs), {id})
      ensures forall w :: w in pendingWorkflows ==> pendingWorkflows[w] > 0
      ensures multiset(completed) == multiset(Finished(old(pendingWorkflows), old(jobs), {id}))
    {
      ghost var j0, p0 := jobs, pendingWorkflows;
      jobs := jobs[id := jobs[id].(status := status)];
      completed := DecrementCounters(id);
      SettlePartition(p0, jobs, {id});
      SettleFrame(p0, j0, jobs, {id});
    }

    /** The walker over the children in `propagate_success`: each child of
        `id` is visited once, in an order the model leaves open; its edge
        from `id` is removed, and it becomes Ready and is pushed to `ready`
        when no parent is left. */
    method UnblockChildren(id: NodeIndex)
      requires id in jobs && forall e :: e in edges ==> e.to in jobs
      modifies this`jobs, this`edges, this`ready
      ensures jobs == Unblock(old(jobs), Unblocked(old(edges), id), id, old(jobs)[id].status)
      ensures edges == EdgesNotFrom(old(edges), id, Children(old(edges), id))
      ensures Extends(old(ready), ready, Unblocked(old(edges), id))
    {
      ghost var s := Snap();
      ghost var status := jobs[id].status;
      var children := Children(edges, id);
      SuccessLoopInit(s, id);
      while children != {}
        modifies this`jobs, this`edges, this`ready
        invariant SuccessLoop(s, Snap(), id, status, children)
        decreases children
      {
        var n := PickOne(children);
        ghost var t := Snap();
        assert n in s.jobs && n in jobs;
        VisitChild(id, n);
        SuccessLoopStep(s, t, id, status, children, n, Snap());
        children := children - {n};
      }
      SuccessLoopDone(s, Snap(), id, status);
    }

    /** One turn of the walker in `propagate_success`: remove the edge from
        `id` to `n`; if `n` has no parent left it becomes Ready and is pushed
        to `ready`. */
    method VisitChild(id: NodeIndex, n: NodeIndex)
      requires n in jobs
      modifies this`jobs, this`edges, this`ready
      ensures edges == old(edges) - {Edge(id, n)}
      ensures Parents(edges, n) == {} ==> jobs == old(jobs)[n := old(jobs)[n].(status := Ready)] && ready == old(ready) + [n]
      ensures Parents(edges, n) != {} ==> jobs == old(jobs) && ready == old(ready)
    {
      edges := edges - {Edge(id, n)};
      if Parents(edges, n) == {} {
        jobs := jobs[n := jobs[n].(status := Ready)];
        ready := ready + [n];
      }
    }

    /** `update_status`: see `UpdateStep`. */
    method UpdateStatus(drvPath: string, status: BuildStatus) returns (completed: seq<WorkflowId>)
      requires Valid()
      modifies this`jobs, this`edges, this`ready, this`pendingWorkflows
      ensures Valid()
      ensures UpdateStep(old(Snap()), Snap(), drvPath, status, completed)
    {
      if drvPath !in drvToNode {
        return [];
      }
      var id := drvToNode[drvPath];
      if IsError(status) {
        completed := PropagateError(id, status);
      } else if Done(status) {
        completed := PropagateSuccess(id, status);
      } else {
        jobs := jobs[id := jobs[id].(status := status)];
        completed := [];
      }
    }

    /** The node pass of `add_jobs`. */
    method AddNodes(batch: seq<Derivation>, w: WorkflowId) returns (roots: seq<NodeIndex>, newJobs: nat, duplicatePending: nat)
      requires Indexed(Start(jobs, drvToNode, nodeBound))
      modifies this`jobs, this`drvToNode, this`nodeBound
      ensures var st := NodePass(old(Snap()), old(nodeBound), batch, w);
              && jobs == st.jobs && drvToNode == st.drvToNode && nodeBound == st.nodeBound
              && roots == st.roots && newJobs == st.newJobs && duplicatePending == st.duplicatePending
    {
      ghost var st0 := Start(jobs, drvToNode, nodeBound);
      roots, newJobs, duplicatePending := [], 0, 0;
      for i := 0 to |batch|
        invariant Intake(jobs, drvToNode, nodeBound, roots, newJobs, duplicatePending) == IntakeAll(st0, batch[..i], w)
      {
        assert batch[..i + 1][..i] == batch[..i];
        roots, newJobs, duplicatePending := AddNode(batch[i], w, roots, newJobs, duplicatePending);
      }
      assert batch[..|batch|] == batch;
    }

    /** One turn of the node pass, on the derivation `d`. */
    method AddNode(d: Derivation, w: WorkflowId, roots: seq<NodeIndex>, newJobs: nat, duplicatePending: nat)
      returns (roots': seq<NodeIndex>, newJobs': nat, duplicatePending': nat)
      requires Indexed(Intake(jobs, drvToNode, nodeBound, roots, newJobs, duplicatePending))
      modifies this`jobs, this`drvToNode, this`nodeBound
      ensures Intake(jobs, drvToNode, nodeBound, roots', newJobs', duplicatePending')
              == IntakeOne(Intake(old(jobs), old(drvToNode), old(nodeBound), roots, newJobs, duplicatePending), d, w)
    {
      roots', newJobs', duplicatePending' := roots, newJobs, duplicatePending;
      if d.drvPath in drvToNode {
        // a duplicate: only record the workflow as a requester
        var idx := drvToNode[d.drvPath];
        var job := jobs[idx];
        jobs := jobs[idx := job.(requestedBy := job.requestedBy + {w})];
        if !Done(job.status) {
          duplicatePending' := duplicatePending + 1;
        }
      } else {
        newJobs' := newJobs + 1;
        var isRoot := |d.inputDrvs| == 0;
        var idx := nodeBound;
        nodeBound := nodeBound + 1;
        jobs := jobs[idx := BuildJob(d, if isRoot then Ready else Queued, {w})];
        if isRoot {
          roots' := roots + [idx];
        }
        drvToNode := drvToNode[d.drvPath := idx];
      }
    }

    /** The edge pass of `add_jobs`: an edge from every input to the job
        that needs it, unless that edge is already there. */
    method AddEdges(batch: seq<Derivation>)
      requires Resolved(drvToNode, batch) && Paths(batch) <= drvToNode.Keys
      modifies this`edges
      ensures edges == old(edges) + BatchEdges(drvToNode, batch)
    {
      for i := 0 to |batch|
        invariant Paths(batch[..i]) <= drvToNode.Keys
        invariant edges == old(edges) + BatchEdges(drvToNode, batch[..i])
      {
        var d := batch[i];
        var to := drvToNode[d.drvPath];
        assert batch[..i + 1][..i] == batch[..i];
        PathsPrefix(batch, i + 1);
        for k := 0 to |d.inputDrvs|
          invariant edges == old(edges) + BatchEdges(drvToNode, batch[..i]) + DepEdges(drvToNode, d.inputDrvs[..k], to)
        {
          assert d.inputDrvs[..k + 1][..k] == d.inputDrvs[..k];
          var from := drvToNode[d.inputDrvs[k]];
          if Edge(from, to) !in edges {
            edges := edges + {Edge(from, to)};
          }
        }
        assert d.inputDrvs[..|d.inputDrvs|] == d.inputDrvs;
      }
      assert batch[..|batch|] == batch;
    }

    /** `add_jobs`: see `AddJobsStep`. Every input of the batch must be a
        path of the batch or already in the queue. */
    method AddJobs(batch: seq<Derivation>, w: WorkflowId) returns (complete: bool)
      requires Valid()
      requires forall i, p :: 0 <= i < |batch| && p in batch[i].inputDrvs ==> p in drvToNode || p in Paths(batch)
      modifies this`jobs, this`drvToNode, this`nodeBound, this`edges, this`ready, this`pendingWorkflows
      ensures Valid()
      ensures AddJobsStep(old(Snap()), old(nodeBound), Snap(), nodeBound, batch, w, complete)
    {
      ghost var s, bound := Snap(), nodeBound;
      assert WellIndexed(Start(jobs, drvToNode, nodeBound));
      complete := AddBatch(batch, w);
      AddJobsConsistent(s, bound, Snap(), nodeBound, batch, w, complete);
    }

    /** The three passes of `add_jobs`, on a queue whose index is sound. */
    method AddBatch(batch: seq<Derivation>, w: WorkflowId) returns (complete: bool)
      requires Indexed(Start(jobs, drvToNode, nodeBound))
      requires forall i, p :: 0 <= i < |batch| && p in batch[i].inputDrvs ==> p in drvToNode || p in Paths(batch)
      modifies this`jobs, this`drvToNode, this`nodeBound, this`edges, this`ready, this`pendingWorkflows
      ensures AddJobsStep(old(Snap()), old(nodeBound), Snap(), nodeBound, batch, w, complete)
    {
      ghost var s, bound := Snap(), nodeBound;
      assert Indexed(Start(s.jobs, s.drvToNode, bound));
      var roots, newJobs, duplicatePending := AddNodes(batch, w);
      assert Resolved(drvToNode, batch);
      assert AddedWork(s, bound, batch, w) == newJobs + duplicatePending;
      complete := AddWork(batch, w, roots, newJobs + duplicatePending);
    }

    /** The passes of `add_jobs` after the node pass: the pending counter,
        the edges, the new roots. */
    method AddWork(batch: seq<Derivation>, w: WorkflowId, roots: seq<NodeIndex>, total: nat) returns (complete: bool)
      requires Resolved(drvToNode, batch) && Paths(batch) <= drvToNode.Keys
      modifies this`edges, this`ready, this`pendingWorkflows
      ensures edges == old(edges) + BatchEdges(drvToNode, batch)
      ensures ready == old(ready) + roots
      ensures pendingWorkflows == AddPending(old(pendingWorkflows), w, total)
      ensures complete == (total == 0)
    {
      AddPendingWork(w, total);
      AddEdges(batch);
      ready := ready + roots;
      complete := total == 0;
    }

    /** Record `total` pieces of unfinished work for the workflow `w`,
        touching the counters only when there is some. */
    method AddPendingWork(w: WorkflowId, total: nat)
      modifies this`pendingWorkflows
      ensures pendingWorkflows == AddPending(old(pendingWorkflows), w, total)
    {
      if total > 0 {
        pendingWorkflows := pendingWorkflows[w := (if w in pendingWorkflows then pendingWorkflows[w] else 0) + total];
      }
    }

    /** `clear_workflow`: see `Cleared`. The loop runs over a copy of
        `drvToNode`, in an order the model leaves open. */
    method ClearWorkflow(w: WorkflowId)
      requires Valid()
      modifies this`jobs, this`drvToNode, this`edges
      ensures Valid()
      ensures Snap() == Cleared(old(Snap()), old(jobs).Keys, w)
    {
      ghost var s := Snap();
      var entries := drvToNode;
      var todo := entries.Keys;
      ghost var visited: set<NodeIndex> := {};
      assert Cleared(s, {}, w) == s;
      while todo != {}
        modifies this`jobs, this`drvToNode, this`edges
        invariant todo <= entries.Keys && entries == s.drvToNode
        invariant forall p :: p in entries ==> (p in todo <==> entries[p] !in visited)
        invariant Snap() == Cleared(s, visited, w)
        decreases todo
      {
        var d := PickOne(todo);
        var i := entries[d];
        ClearStep(s, visited, w, d);
        ClearNode(d, i, w);
        visited := visited + {i};
        todo := todo - {d};
      }
      assert visited * s.jobs.Keys == s.jobs.Keys;
      assert ClearJobs(s.jobs, visited, w) == ClearJobs(s.jobs, s.jobs.Keys, w);
      ClearConsistent(s, w);
    }

    /** One entry of `clear_workflow`: see `ClearOne`. */
    method ClearNode(d: string, i: NodeIndex, w: WorkflowId)
      requires i in jobs
      modifies this`jobs, this`drvToNode, this`edges
      ensures Snap() == ClearOne(old(Snap()), d, i, w)
    {
      var job := jobs[i];
      var requestedBy := job.requestedBy - {w};
      jobs := jobs[i := job.(requestedBy := requestedBy)];
      if requestedBy == {} {
        jobs := jobs - {i};
        edges := set e | e in edges && e.from != i && e.to != i;
        drvToNode := drvToNode - {d};
      }
    }

    /** `drain_ready_jobs`: hand out the jobs at the indices in `ready`, in
        order, and empty `ready`. Every index must still have a node. */
    method DrainReadyJobs() returns (drained: seq<BuildJob>)
      requires forall k :: 0 <= k < |ready| ==> ready[k] in jobs
      modifies this`ready
      ensures ready == []
      ensures drained == JobsAt(jobs, old(ready))
    {
      var taken := ready;
      ready := [];
      drained := JobsAt(jobs, taken);
    }

    /** `get_jobs`: every job once, in node-index order. */
    function GetJobs(): seq<BuildJob>
      reads this
    {
      NodeWeights(jobs, nodeBound)
    }

    /** `get_workflow_jobs`: the jobs the workflow requested, in node-index
        order. */
    function GetWorkflowJobs(w: WorkflowId): seq<BuildJob>
      reads this
    {
      RequestedBy(NodeWeights(jobs, nodeBound), w)
    }
  }
}
