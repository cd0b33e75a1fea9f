/**
 * The two passes of `add_jobs` (src/build/mod.rs) over a batch of
 * derivations, as functions on values: the node pass, which deduplicates by
 * derivation path and creates a node for every path not yet in the queue,
 * and the edge pass, which adds an edge from each input derivation to the
 * job that needs it.
 */
module QueueIntake {
  import opened BuildTypes
  import opened JobGraph

  /** The state the node pass of `add_jobs` works on, with its three
      accumulators: the new Ready nodes (`roots`), the number of new jobs
      and the number of already-queued jobs of the batch that are not done. */
  datatype Intake = Intake(
    jobs: map<NodeIndex, BuildJob>,
    drvToNode: map<string, NodeIndex>,
    nodeBound: nat,
    roots: seq<NodeIndex>,
    newJobs: nat,
    duplicatePending: nat)

  /** Every path in `drvToNode` has a node, and every node index is below
      `nodeBound`. */
  ghost predicate Indexed(st: Intake)
  {
    && (forall p :: p in st.drvToNode ==> st.drvToNode[p] in st.jobs)
    && (forall n :: n in st.jobs ==> n < st.nodeBound)
  }

  /** Moreover `drvToNode` and the nodes correspond one to one through the
      derivation paths. */
  ghost predicate WellIndexed(st: Intake)
  {
    && Indexed(st)
    && (forall p :: p in st.drvToNode ==> st.jobs[st.drvToNode[p]].derivation.drvPath == p)
    && (forall n :: n in st.jobs ==> (st.jobs[n].derivation.drvPath in st.drvToNode
                                   && st.drvToNode[st.jobs[n].derivation.drvPath] == n))
  }

  /** The derivation paths of a batch. */
  function Paths(batch: seq<Derivation>): (r: set<string>)
    ensures forall i :: 0 <= i < |batch| ==> batch[i].drvPath in r
    decreases |batch|
  {
    if batch == [] then {}
    else
      var prefix := batch[..|batch| - 1];
      assert forall i :: 0 <= i < |prefix| ==> prefix[i] == batch[i];
      Paths(prefix) + {batch[|batch| - 1].drvPath}
  }

  /** Every path of the batch is the path of one of its derivations. */
  lemma {:induction false} PathsWitness(batch: seq<Derivation>, p: string) returns (i: nat)
    requires p in Paths(batch)
    ensures i < |batch| && batch[i].drvPath == p
    decreases |batch|
  {
    var prefix := batch[..|batch| - 1];
    if p == batch[|batch| - 1].drvPath {
      i := |batch| - 1;
    } else {
      i := PathsWitness(prefix, p);
      assert prefix[i] == batch[i];
    }
  }

  /** The paths of a prefix of the batch are paths of the batch. */
  lemma PathsPrefix(batch: seq<Derivation>, i: nat)
    requires i <= |batch|
    ensures Paths(batch[..i]) <= Paths(batch)
  {
    forall p | p in Paths(batch[..i])
      ensures p in Paths(batch)
    {
      var k := PathsWitness(batch[..i], p);
      assert batch[..i][k] == batch[k];
    }
  }

  /** No derivation path occurs twice in the batch. */
  predicate DistinctPaths(batch: seq<Derivation>)
  {
    forall i, j :: 0 <= i < j < |batch| ==> batch[i].drvPath != batch[j].drvPath
  }

  /** One turn of the node pass: a path already in the queue only gains the
      workflow as a requester (and is counted when not done); a new path
      gets a fresh node, Ready when it has no inputs and Queued otherwise,
      requested by the workflow alone. */
  function IntakeOne(st: Intake, d: Derivation, w: WorkflowId): (r: Intake)
    requires Indexed(st)
    ensures Indexed(r)
  {
    if d.drvPath in st.drvToNode then
      var idx := st.drvToNode[d.drvPath];
      var job := st.jobs[idx];
      st.(jobs := st.jobs[idx := job.(requestedBy := job.requestedBy + {w})],
          duplicatePending := st.duplicatePending + if Done(job.status) then 0 else 1)
    else
      var idx := st.nodeBound;
      var isRoot := |d.inputDrvs| == 0;
      st.(jobs := st.jobs[idx := BuildJob(d, if isRoot then Ready else Queued, {w})],
          drvToNode := st.drvToNode[d.drvPath := idx],
          nodeBound := idx + 1,
          roots := if isRoot then st.roots + [idx] else st.roots,
          newJobs := st.newJobs + 1)
  }

  /** The node pass over a whole batch, in order. Every path of the batch
      ends up with a node and the paths already present keep theirs. */
  function IntakeAll(st: Intake, batch: seq<Derivation>, w: WorkflowId): (r: Intake)
    requires Indexed(st)
    ensures Indexed(r)
    ensures r.drvToNode.Keys == st.drvToNode.Keys + Paths(batch)
    ensures forall p :: p in st.drvToNode ==> r.drvToNode[p] == st.drvToNode[p]
    decreases |batch|
  {
    if batch == [] then st
    else
      var prefix := batch[..|batch| - 1];
      IntakeOne(IntakeAll(st, prefix, w), batch[|batch| - 1], w)
  }

  /** The state the node pass starts from. */
  function Start(jobs: map<NodeIndex, BuildJob>, drvToNode: map<string, NodeIndex>, nodeBound: nat): Intake
  {
    Intake(jobs, drvToNode, nodeBound, [], 0, 0)
  }

  /** The node pass creates no node for a path already in the queue and one
      node for every new job: the new nodes are exactly the indices from the
      old bound up to the new one, and the bound grows by the number of new
      jobs. */
  lemma {:induction false} IntakeBound(st: Intake, batch: seq<Derivation>, w: WorkflowId)
    requires Indexed(st)
    ensures var r := IntakeAll(st, batch, w);
      && r.nodeBound == st.nodeBound + (r.newJobs - st.newJobs)
      && r.newJobs >= st.newJobs && r.duplicatePending >= st.duplicatePending
      && (forall n :: n in r.jobs <==> n in st.jobs || st.nodeBound <= n < r.nodeBound)
    decreases |batch|
  {
    if batch != [] {
      var prefix := batch[..|batch| - 1];
      IntakeBound(st, prefix, w);
      var m := IntakeAll(st, prefix, w);
      var r := IntakeOne(m, batch[|batch| - 1], w);
      IntakeOneBound(m, batch[|batch| - 1], w);
      forall n
        ensures n in r.jobs <==> n in st.jobs || st.nodeBound <= n < r.nodeBound
      {
        assert n in r.jobs <==> n in m.jobs || (r.nodeBound != m.nodeBound && n == m.nodeBound);
      }
    }
  }

  lemma IntakeOneBound(st: Intake, d: Derivation, w: WorkflowId)
    requires Indexed(st)
    ensures var r := IntakeOne(st, d, w);
      && r.nodeBound == st.nodeBound + (r.newJobs - st.newJobs)
      && r.newJobs >= st.newJobs && r.duplicatePending >= st.duplicatePending
      && r.jobs.Keys == st.jobs.Keys + if r.nodeBound == st.nodeBound then {} else {st.nodeBound}
  {
  }

  /** A step of the node pass keeps the one-to-one correspondence between
      paths and nodes. */
  lemma IntakeOneWellIndexed(st: Intake, d: Derivation, w: WorkflowId)
    requires WellIndexed(st)
    ensures WellIndexed(IntakeOne(st, d, w))
  {
    if d.drvPath !in st.drvToNode {
      var r := IntakeOne(st, d, w);
      forall n | n in r.jobs
        ensures r.jobs[n].derivation.drvPath in r.drvToNode && r.drvToNode[r.jobs[n].derivation.drvPath] == n
      {
        if n != st.nodeBound {
          assert r.jobs[n] == st.jobs[n];
        }
      }
    }
  }

  /** The node pass keeps every path on exactly one node. */
  lemma {:induction false} IntakeWellIndexed(st: Intake, batch: seq<Derivation>, w: WorkflowId)
    requires WellIndexed(st)
    ensures WellIndexed(IntakeAll(st, batch, w))
    decreases |batch|
  {
    if batch != [] {
      var prefix := batch[..|batch| - 1];
      IntakeWellIndexed(st, prefix, w);
      IntakeOneWellIndexed(IntakeAll(st, prefix, w), batch[|batch| - 1], w);
    }
  }

  /** One step of the node pass adds the workflow to the requesters of the
      node of the derivation's path, if it has one, and leaves every other
      node as it was. */
  lemma IntakeOneKeeps(m: Intake, d: Derivation, w: WorkflowId)
    requires WellIndexed(m)
    ensures forall n :: n in m.jobs ==>
      IntakeOne(m, d, w).jobs[n] == m.jobs[n].(requestedBy := m.jobs[n].requestedBy
                                     + if m.jobs[n].derivation.drvPath == d.drvPath then {w} else {})
  {
    forall n | n in m.jobs
      ensures IntakeOne(m, d, w).jobs[n] == m.jobs[n].(requestedBy := m.jobs[n].requestedBy
                                     + if m.jobs[n].derivation.drvPath == d.drvPath then {w} else {})
    {
      var p := m.jobs[n].derivation.drvPath;
      assert p in m.drvToNode && m.drvToNode[p] == n;
      if d.drvPath in m.drvToNode {
        assert (m.drvToNode[d.drvPath] == n) == (d.drvPath == p);
      } else {
        assert n != m.nodeBound;
      }
    }
  }

  /** Adding a requester under two conditions adds it under either. */
  lemma RequestTwice(requestedBy: set<WorkflowId>, w: WorkflowId, first: bool, second: bool)
    ensures requestedBy + (if first then {w} else {}) + (if second then {w} else {})
         == requestedBy + if first || second then {w} else {}
  {
  }

  /** The nodes already in the queue keep their derivation and status and
      gain the workflow as a requester exactly when their path is in the
      batch. */
  lemma {:induction false} IntakeKeeps(st: Intake, batch: seq<Derivation>, w: WorkflowId)
    requires WellIndexed(st)
    ensures var r := IntakeAll(st, batch, w);
      forall n :: n in st.jobs ==>
        r.jobs[n] == st.jobs[n].(requestedBy := st.jobs[n].requestedBy
                                   + if st.jobs[n].derivation.drvPath in Paths(batch) then {w} else {})
    decreases |batch|
  {
    if batch != [] {
      var prefix, d := batch[..|batch| - 1], batch[|batch| - 1];
      IntakeKeeps(st, prefix, w);
      IntakeBound(st, prefix, w);
      IntakeWellIndexed(st, prefix, w);
      var m := IntakeAll(st, prefix, w);
      IntakeOneKeeps(m, d, w);
      assert Paths(batch) == Paths(prefix) + {d.drvPath};
      forall n | n in st.jobs
        ensures IntakeOne(m, d, w).jobs[n] == st.jobs[n].(requestedBy := st.jobs[n].requestedBy
                                   + if st.jobs[n].derivation.drvPath in Paths(batch) then {w} else {})
      {
        var job, p := st.jobs[n], st.jobs[n].derivation.drvPath;
        assert m.jobs[n] == job.(requestedBy := job.requestedBy + if p in Paths(prefix) then {w} else {});
        RequestTwice(job.requestedBy, w, p in Paths(prefix), p == d.drvPath);
      }
    }
  }

  /** With distinct paths, the last path of the batch is not among the
      others. */
  lemma DistinctLast(batch: seq<Derivation>)
    requires batch != [] && DistinctPaths(batch)
    ensures DistinctPaths(batch[..|batch| - 1])
    ensures batch[|batch| - 1].drvPath !in Paths(batch[..|batch| - 1])
  {
    var prefix := batch[..|batch| - 1];
    if batch[|batch| - 1].drvPath in Paths(prefix) {
      var k := PathsWitness(prefix, batch[|batch| - 1].drvPath);
      assert false;
    }
  }

  /** One step of the node pass on a path `d` that is new to the queue, or
      that was there before the batch: the nodes created earlier in the batch
      are left alone, and a new `d` gets the next index. */
  lemma FreshStep(st: Intake, m: Intake, d: Derivation, w: WorkflowId)
    requires Indexed(st) && Indexed(m) && m.nodeBound >= st.nodeBound
    requires forall p :: p in st.drvToNode ==> p in m.drvToNode && m.drvToNode[p] == st.drvToNode[p]
    requires d.drvPath in m.drvToNode ==> d.drvPath in st.drvToNode
    ensures var r := IntakeOne(m, d, w);
      && (forall p :: p != d.drvPath && p in m.drvToNode && m.drvToNode[p] >= st.nodeBound ==>
            r.drvToNode[p] == m.drvToNode[p] && r.jobs[m.drvToNode[p]] == m.jobs[m.drvToNode[p]])
      && (d.drvPath !in st.drvToNode ==>
            r.drvToNode[d.drvPath] == m.nodeBound
            && r.jobs[m.nodeBound] == BuildJob(d, if |d.inputDrvs| == 0 then Ready else Queued, {w}))
  {
  }

  /** With distinct paths, each new path of the batch gets a node of its
      own holding its derivation, requested by the workflow alone, Ready
      exactly when it has no inputs and Queued otherwise. */
  lemma {:induction false} IntakeFresh(st: Intake, batch: seq<Derivation>, w: WorkflowId)
    requires Indexed(st) && DistinctPaths(batch)
    ensures var r := IntakeAll(st, batch, w);
      forall i :: 0 <= i < |batch| && batch[i].drvPath !in st.drvToNode ==>
        var n := r.drvToNode[batch[i].drvPath];
        && st.nodeBound <= n
        && r.jobs[n] == BuildJob(batch[i], if |batch[i].inputDrvs| == 0 then Ready else Queued, {w})
    decreases |batch|
  {
    if batch != [] {
      var prefix, d := batch[..|batch| - 1], batch[|batch| - 1];
      DistinctLast(batch);
      IntakeFresh(st, prefix, w);
      IntakeBound(st, prefix, w);
      var m := IntakeAll(st, prefix, w);
      FreshStep(st, m, d, w);
      forall i | 0 <= i < |batch| - 1 && batch[i].drvPath !in st.drvToNode
        ensures batch[i].drvPath != d.drvPath && prefix[i] == batch[i]
      {
      }
    }
  }

  /** `r.roots` extends `st.roots` with the nodes created since `st` that
      are Ready, each once, in creation order. */
  ghost predicate RootsExtended(st: Intake, r: Intake)
  {
    && |r.roots| >= |st.roots| && r.roots[..|st.roots|] == st.roots
    && (forall k :: |st.roots| <= k < |r.roots| ==>
          st.nodeBound <= r.roots[k] < r.nodeBound && r.roots[k] in r.jobs && r.jobs[r.roots[k]].status == Ready)
    && (forall n :: st.nodeBound <= n < r.nodeBound && n in r.jobs && r.jobs[n].status == Ready ==> n in r.roots[|st.roots|..])
    && (forall k, k' :: |st.roots| <= k < k' < |r.roots| ==> r.roots[k] < r.roots[k'])
  }

  /** One step of the node pass keeps `RootsExtended`. */
  lemma RootsStep(st: Intake, m: Intake, d: Derivation, w: WorkflowId)
    requires Indexed(m) && st.nodeBound <= m.nodeBound && RootsExtended(st, m)
    ensures RootsExtended(st, IntakeOne(m, d, w))
  {
    var r := IntakeOne(m, d, w);
    if d.drvPath in m.drvToNode {
      RootsUnchanged(st, m, r);
    } else if |d.inputDrvs| == 0 {
      RootsPushed(st, m, r);
    } else {
      RootsUnchanged(st, m, r);
    }
  }

  lemma RootsUnchanged(st: Intake, m: Intake, r: Intake)
    requires RootsExtended(st, m) && r.roots == m.roots && m.nodeBound <= r.nodeBound
    requires forall n :: st.nodeBound <= n < r.nodeBound && n in r.jobs && r.jobs[n].status == Ready ==> n < m.nodeBound && n in m.jobs && m.jobs[n].status == Ready
    requires forall n :: n in m.jobs ==> n in r.jobs && r.jobs[n].status == m.jobs[n].status
    ensures RootsExtended(st, r)
  {
  }

  lemma RootsPushed(st: Intake, m: Intake, r: Intake)
    requires RootsExtended(st, m) && st.nodeBound <= m.nodeBound
    requires r.roots == m.roots + [m.nodeBound] && r.nodeBound == m.nodeBound + 1
    requires r.jobs.Keys == m.jobs.Keys + {m.nodeBound} && r.jobs[m.nodeBound].status == Ready
    requires forall n :: n in m.jobs ==> r.jobs[n] == m.jobs[n]
    ensures RootsExtended(st, r)
  {
    assert r.roots[|st.roots|..] == m.roots[|st.roots|..] + [m.nodeBound];
  }

  /** The nodes the node pass appends to `roots` are the new Ready nodes,
      each once, in creation order. */
  lemma {:induction false} IntakeRoots(st: Intake, batch: seq<Derivation>, w: WorkflowId)
    requires Indexed(st)
    ensures RootsExtended(st, IntakeAll(st, batch, w))
    decreases |batch|
  {
    if batch == [] {
      assert st.roots[|st.roots|..] == [];
    } else {
      var prefix := batch[..|batch| - 1];
      IntakeRoots(st, prefix, w);
      IntakeBound(st, prefix, w);
      RootsStep(st, IntakeAll(st, prefix, w), batch[|batch| - 1], w);
    }
  }

  /** The jobs of the batch whose path is new to the queue. */
  function NewPaths(drvToNode: map<string, NodeIndex>, batch: seq<Derivation>): set<string>
  {
    set p | p in Paths(batch) && p !in drvToNode
  }

  /** The jobs of the batch already in the queue and not yet done. */
  function PendingDuplicates(st: Intake, batch: seq<Derivation>): set<string>
    requires Indexed(st)
  {
    set p | p in Paths(batch) && p in st.drvToNode && !Done(st.jobs[st.drvToNode[p]].status)
  }

  /** With distinct paths, the node pass counts every new path once and
      every already-queued path that is not done once: the pending work it
      adds to the workflow is the number of distinct paths of the batch
      that are new or not done. */
  lemma {:induction false} IntakeCounts(st: Intake, batch: seq<Derivation>, w: WorkflowId)
    requires WellIndexed(st) && DistinctPaths(batch)
    ensures var r := IntakeAll(st, batch, w);
      && r.newJobs == st.newJobs + |NewPaths(st.drvToNode, batch)|
      && r.duplicatePending == st.duplicatePending + |PendingDuplicates(st, batch)|
    decreases |batch|
  {
    if batch == [] {
      assert NewPaths(st.drvToNode, batch) == {};
      assert PendingDuplicates(st, batch) == {};
    } else {
      var prefix, d := batch[..|batch| - 1], batch[|batch| - 1];
      DistinctLast(batch);
      IntakeCounts(st, prefix, w);
      IntakeKeeps(st, prefix, w);
      CountSetsStep(st, batch);
      var m := IntakeAll(st, prefix, w);
      CountStep(m, d, w);
      if d.drvPath in st.drvToNode {
        var n := st.drvToNode[d.drvPath];
        assert m.drvToNode[d.drvPath] == n && m.jobs[n].status == st.jobs[n].status;
      }
    }
  }

  /** What one step of the node pass adds to the two counters. */
  lemma CountStep(m: Intake, d: Derivation, w: WorkflowId)
    requires Indexed(m)
    ensures var r := IntakeOne(m, d, w);
      && r.newJobs == m.newJobs + (if d.drvPath in m.drvToNode then 0 else 1)
      && r.duplicatePending == m.duplicatePending
           + (if d.drvPath in m.drvToNode && !Done(m.jobs[m.drvToNode[d.drvPath]].status) then 1 else 0)
  {
  }

  /** How the two counted sets grow with one more derivation whose path is
      not yet in the batch. */
  lemma CountSetsStep(st: Intake, batch: seq<Derivation>)
    requires Indexed(st) && batch != []
    requires batch[|batch| - 1].drvPath !in Paths(batch[..|batch| - 1])
    ensures var prefix, p := batch[..|batch| - 1], batch[|batch| - 1].drvPath;
      && |NewPaths(st.drvToNode, batch)| == |NewPaths(st.drvToNode, prefix)| + (if p in st.drvToNode then 0 else 1)
      && |PendingDuplicates(st, batch)| == |PendingDuplicates(st, prefix)|
           + (if p in st.drvToNode && !Done(st.jobs[st.drvToNode[p]].status) then 1 else 0)
  {
    var prefix, p := batch[..|batch| - 1], batch[|batch| - 1].drvPath;
    assert Paths(batch) == Paths(prefix) + {p};
    if p in st.drvToNode {
      assert NewPaths(st.drvToNode, batch) == NewPaths(st.drvToNode, prefix);
      if Done(st.jobs[st.drvToNode[p]].status) {
        assert PendingDuplicates(st, batch) == PendingDuplicates(st, prefix);
      } else {
        assert PendingDuplicates(st, batch) == PendingDuplicates(st, prefix) + {p};
      }
    } else {
      assert NewPaths(st.drvToNode, batch) == NewPaths(st.drvToNode, prefix) + {p};
      assert PendingDuplicates(st, batch) == PendingDuplicates(st, prefix);
    }
  }

  /** Every input of every derivation of the batch has a node. */
  predicate Resolved(drvToNode: map<string, NodeIndex>, batch: seq<Derivation>)
  {
    forall i, p :: 0 <= i < |batch| && p in batch[i].inputDrvs ==> p in drvToNode
  }

  /** The edges from the inputs `deps` to the node `to`. */
  function DepEdges(drvToNode: map<string, NodeIndex>, deps: seq<string>, to: NodeIndex): (r: set<Edge>)
    requires forall p :: p in deps ==> p in drvToNode
    ensures forall p :: p in deps ==> Edge(drvToNode[p], to) in r
    decreases |deps|
  {
    if deps == [] then {}
    else
      var prefix := deps[..|deps| - 1];
      assert forall p :: p in deps ==> p in prefix || p == deps[|deps| - 1];
      DepEdges(drvToNode, prefix, to) + {Edge(drvToNode[deps[|deps| - 1]], to)}
  }

  /** Every edge `DepEdges` makes comes from one of the inputs. */
  lemma {:induction false} DepEdgesWitness(drvToNode: map<string, NodeIndex>, deps: seq<string>, to: NodeIndex, e: Edge) returns (j: nat)
    requires forall p :: p in deps ==> p in drvToNode
    requires e in DepEdges(drvToNode, deps, to)
    ensures j < |deps| && e == Edge(drvToNode[deps[j]], to)
    decreases |deps|
  {
    var prefix := deps[..|deps| - 1];
    assert forall p :: p in prefix ==> p in deps;
    if e == Edge(drvToNode[deps[|deps| - 1]], to) {
      j := |deps| - 1;
    } else {
      j := DepEdgesWitness(drvToNode, prefix, to, e);
      assert prefix[j] == deps[j];
    }
  }

  /** The edge pass of `add_jobs`: an edge from each input of each
      derivation of the batch to that derivation's node. */
  function BatchEdges(drvToNode: map<string, NodeIndex>, batch: seq<Derivation>): (r: set<Edge>)
    requires Resolved(drvToNode, batch) && Paths(batch) <= drvToNode.Keys
    ensures forall i, p :: 0 <= i < |batch| && p in batch[i].inputDrvs ==> Edge(drvToNode[p], drvToNode[batch[i].drvPath]) in r
    decreases |batch|
  {
    if batch == [] then {}
    else
      var prefix, d := batch[..|batch| - 1], batch[|batch| - 1];
      assert forall i :: 0 <= i < |prefix| ==> prefix[i] == batch[i];
      assert forall p :: p in d.inputDrvs ==> p in drvToNode;
      BatchEdges(drvToNode, prefix) + DepEdges(drvToNode, d.inputDrvs, drvToNode[d.drvPath])
  }

  /** ... and no other edge: each one joins an input of a derivation of the
      batch to that derivation. */
  lemma {:induction false} BatchEdgesWitness(drvToNode: map<string, NodeIndex>, batch: seq<Derivation>, e: Edge) returns (i: nat, j: nat)
    requires Resolved(drvToNode, batch) && Paths(batch) <= drvToNode.Keys
    requires e in BatchEdges(drvToNode, batch)
    ensures i < |batch| && j < |batch[i].inputDrvs|
    ensures e == Edge(drvToNode[batch[i].inputDrvs[j]], drvToNode[batch[i].drvPath])
    decreases |batch|
  {
    var prefix, d := batch[..|batch| - 1], batch[|batch| - 1];
    assert forall k :: 0 <= k < |prefix| ==> prefix[k] == batch[k];
    assert forall p :: p in d.inputDrvs ==> p in drvToNode;
    if e in DepEdges(drvToNode, d.inputDrvs, drvToNode[d.drvPath]) {
      i := |batch| - 1;
      j := DepEdgesWitness(drvToNode, d.inputDrvs, drvToNode[d.drvPath], e);
    } else {
      i, j := BatchEdgesWitness(drvToNode, prefix, e);
    }
  }
}
