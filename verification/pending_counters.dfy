/**
 * The per-workflow counters of unfinished jobs (`pending_workflows` in
 * src/build/mod.rs) and what a batch of finished jobs does to them.
 *
 * When a job finishes, the counter of every workflow that requested it and
 * still has a counter is decremented (saturating at zero); a counter that
 * reaches zero is removed and its workflow reported as complete. `Settle`
 * and `Finished` give the result of finishing a whole set of jobs at once,
 * in closed form: the order in which the jobs finish does not matter.
 */
module PendingCounters {
  import opened BuildTypes

  /** The jobs in `v` that the workflow `w` requested. */
  function Requesting(jobs: map<NodeIndex, BuildJob>, v: set<NodeIndex>, w: WorkflowId): (r: set<NodeIndex>)
    ensures forall n :: n in r <==> n in v && n in jobs && w in jobs[n].requestedBy
  {
    set n | n in v && n in jobs && w in jobs[n].requestedBy
  }

  /** How many of the jobs in `v` the workflow `w` requested. */
  function Demand(jobs: map<NodeIndex, BuildJob>, v: set<NodeIndex>, w: WorkflowId): nat
  {
    |Requesting(jobs, v, w)|
  }

  /** `usize::saturating_sub(1)`. */
  function SaturatingDec(c: nat): nat
  {
    if c == 0 then 0 else c - 1
  }

  /** Whether the counter of `w` survives finishing the jobs `v`. */
  predicate Survives(p: map<WorkflowId, nat>, jobs: map<NodeIndex, BuildJob>, v: set<NodeIndex>, w: WorkflowId)
    requires w in p
  {
    Demand(jobs, v, w) == 0 || p[w] > Demand(jobs, v, w)
  }

  /** The counters after the jobs `v` have finished. */
  function Settle(p: map<WorkflowId, nat>, jobs: map<NodeIndex, BuildJob>, v: set<NodeIndex>): map<WorkflowId, nat>
  {
    map w | w in p && Survives(p, jobs, v, w) :: p[w] - Demand(jobs, v, w)
  }

  /** The workflows reported complete when the jobs `v` finish. */
  function Finished(p: map<WorkflowId, nat>, jobs: map<NodeIndex, BuildJob>, v: set<NodeIndex>): set<WorkflowId>
  {
    set w | w in p && !Survives(p, jobs, v, w)
  }

  /** Finishing jobs never creates a counter and never raises one; every
      workflow either keeps its counter or is reported, not both; and the
      counters that remain stay positive. */
  lemma SettlePartition(p: map<WorkflowId, nat>, jobs: map<NodeIndex, BuildJob>, v: set<NodeIndex>)
    requires forall w :: w in p ==> p[w] > 0
    ensures Settle(p, jobs, v).Keys + Finished(p, jobs, v) == p.Keys
    ensures Settle(p, jobs, v).Keys !! Finished(p, jobs, v)
    ensures forall w :: w in Settle(p, jobs, v) ==> 0 < Settle(p, jobs, v)[w] <= p[w]
    ensures forall w :: w in p && Demand(jobs, v, w) == 0 ==> w in Settle(p, jobs, v) && Settle(p, jobs, v)[w] == p[w]
  {
  }

  /** The demand of a job set only depends on which workflows requested
      each job, not on the rest of the job record. */
  lemma DemandFrame(jobs: map<NodeIndex, BuildJob>, jobs': map<NodeIndex, BuildJob>, v: set<NodeIndex>, w: WorkflowId)
    requires forall n :: n in v ==> (n in jobs <==> n in jobs')
    requires forall n :: n in v && n in jobs ==> jobs[n].requestedBy == jobs'[n].requestedBy
    ensures Demand(jobs, v, w) == Demand(jobs', v, w)
  {
    assert Requesting(jobs, v, w) == Requesting(jobs', v, w);
  }

  /** The demand of two disjoint job sets adds up. */
  lemma DemandUnion(jobs: map<NodeIndex, BuildJob>, v: set<NodeIndex>, v': set<NodeIndex>, w: WorkflowId)
    requires v !! v'
    ensures Demand(jobs, v + v', w) == Demand(jobs, v, w) + Demand(jobs, v', w)
  {
    var a, b := Requesting(jobs, v, w), Requesting(jobs, v', w);
    assert Requesting(jobs, v + v', w) == a + b;
    assert a !! b;
  }

  /** A single job counts once for each workflow that requested it. */
  lemma DemandSingle(jobs: map<NodeIndex, BuildJob>, n: NodeIndex, w: WorkflowId)
    requires n in jobs
    ensures Demand(jobs, {n}, w) == if w in jobs[n].requestedBy then 1 else 0
  {
    if w in jobs[n].requestedBy {
      assert Requesting(jobs, {n}, w) == {n};
    } else {
      assert Requesting(jobs, {n}, w) == {};
    }
  }

  /** One workflow's share of `SettleCompose`. */
  lemma SettleComposeAt(p: map<WorkflowId, nat>, jobs: map<NodeIndex, BuildJob>, v: set<NodeIndex>, v': set<NodeIndex>, w: WorkflowId)
    requires v !! v' && w in p
    ensures var q := Settle(p, jobs, v);
      && (w in Settle(q, jobs, v') <==> w in Settle(p, jobs, v + v'))
      && (w in Settle(q, jobs, v') ==> Settle(q, jobs, v')[w] == Settle(p, jobs, v + v')[w])
      && (w in Finished(p, jobs, v + v') <==> w in Finished(p, jobs, v) || w in Finished(q, jobs, v'))
      && !(w in Finished(p, jobs, v) && w in Finished(q, jobs, v'))
  {
    DemandUnion(jobs, v, v', w);
  }

  /** Finishing two disjoint job sets one after the other leaves the same
      counters as finishing their union. */
  lemma SettleCompose(p: map<WorkflowId, nat>, jobs: map<NodeIndex, BuildJob>, v: set<NodeIndex>, v': set<NodeIndex>)
    requires v !! v'
    ensures Settle(Settle(p, jobs, v), jobs, v') == Settle(p, jobs, v + v')
  {
    var a := Settle(Settle(p, jobs, v), jobs, v');
    var b := Settle(p, jobs, v + v');
    forall w | w in p
      ensures (w in a <==> w in b) && (w in a ==> a[w] == b[w])
    {
      SettleComposeAt(p, jobs, v, v', w);
    }
    assert a.Keys == b.Keys;
  }

  /** The workflows reported by finishing two disjoint job sets one after
      the other are disjoint, and together they are those reported for the
      union. */
  lemma FinishedCompose(p: map<WorkflowId, nat>, jobs: map<NodeIndex, BuildJob>, v: set<NodeIndex>, v': set<NodeIndex>)
    requires v !! v'
    ensures Finished(p, jobs, v) !! Finished(Settle(p, jobs, v), jobs, v')
    ensures Finished(p, jobs, v) + Finished(Settle(p, jobs, v), jobs, v') == Finished(p, jobs, v + v')
  {
    var f1, f2 := Finished(p, jobs, v), Finished(Settle(p, jobs, v), jobs, v');
    var f := Finished(p, jobs, v + v');
    forall w | w in p
      ensures (w in f <==> w in f1 || w in f2) && !(w in f1 && w in f2)
    {
      SettleComposeAt(p, jobs, v, v', w);
    }
  }

  /** `p` is `p0` with the counter of each workflow in `r` decremented once,
      saturating, and removed when it reaches zero. */
  ghost predicate DecrementedOnce(p0: map<WorkflowId, nat>, p: map<WorkflowId, nat>, r: set<WorkflowId>)
  {
    && (forall w :: w in p ==> w in p0)
    && (forall w :: w in p0 && w !in r ==> w in p && p[w] == p0[w])
    && (forall w :: w in p0 && w in r ==> (w in p <==> SaturatingDec(p0[w]) > 0) && (w in p ==> p[w] == SaturatingDec(p0[w])))
  }

  /** The workflows in `r` whose counter a single decrement removes. */
  function RunOut(p0: map<WorkflowId, nat>, r: set<WorkflowId>): set<WorkflowId>
  {
    set w | w in r && w in p0 && SaturatingDec(p0[w]) == 0
  }

  /** The counters after one decrement of the counter of `w`, which is
      removed when it reaches zero; a workflow without a counter is left
      alone. */
  function DecrementOne(p: map<WorkflowId, nat>, w: WorkflowId): map<WorkflowId, nat>
  {
    if w !in p then p
    else if SaturatingDec(p[w]) == 0 then p - {w}
    else p[w := SaturatingDec(p[w])]
  }

  /** Decrementing one more workflow of `r` extends `DecrementedOnce` by
      that workflow, and the workflows reported as finished by the ones
      whose counter ran out. */
  lemma DecrementStep(p0: map<WorkflowId, nat>, p: map<WorkflowId, nat>, r: set<WorkflowId>, w: WorkflowId, done: seq<WorkflowId>, finished: bool)
    requires DecrementedOnce(p0, p, r) && w !in r
    requires multiset(done) == multiset(RunOut(p0, r))
    requires finished <==> w in p && SaturatingDec(p[w]) == 0
    ensures DecrementedOnce(p0, DecrementOne(p, w), r + {w})
    ensures multiset(if finished then done + [w] else done) == multiset(RunOut(p0, r + {w}))
  {
    if finished {
      assert RunOut(p0, r + {w}) == RunOut(p0, r) + {w};
      assert w !in RunOut(p0, r);
      assert multiset(done + [w]) == multiset(done) + multiset{w};
    } else {
      assert RunOut(p0, r + {w}) == RunOut(p0, r);
    }
  }

  /** Finishing one job is decrementing once the counters of the workflows
      that requested it: `Settle` and `Finished` agree with the source's
      loop for a single job. */
  lemma SettleSingle(p0: map<WorkflowId, nat>, p: map<WorkflowId, nat>, jobs: map<NodeIndex, BuildJob>, n: NodeIndex)
    requires n in jobs && DecrementedOnce(p0, p, jobs[n].requestedBy)
    ensures p == Settle(p0, jobs, {n})
    ensures RunOut(p0, jobs[n].requestedBy) == Finished(p0, jobs, {n})
  {
    var settled := Settle(p0, jobs, {n});
    forall w | w in p0
      ensures (w in p <==> w in settled) && (w in settled ==> p[w] == settled[w])
    {
      DemandSingle(jobs, n, w);
    }
    assert forall w :: w in settled ==> w in p0;
    assert forall w :: w in p <==> w in settled;
    assert p.Keys == settled.Keys;
    forall w | w in p0
      ensures w in RunOut(p0, jobs[n].requestedBy) <==> w in Finished(p0, jobs, {n})
    {
      DemandSingle(jobs, n, w);
    }
  }

  /** `Settle` and `Finished` only look at who requested the finished jobs. */
  lemma SettleFrame(p: map<WorkflowId, nat>, jobs: map<NodeIndex, BuildJob>, jobs': map<NodeIndex, BuildJob>, v: set<NodeIndex>)
    requires forall n :: n in v ==> (n in jobs <==> n in jobs')
    requires forall n :: n in v && n in jobs ==> jobs[n].requestedBy == jobs'[n].requestedBy
    ensures Settle(p, jobs, v) == Settle(p, jobs', v)
    ensures Finished(p, jobs, v) == Finished(p, jobs', v)
  {
    forall w {
      DemandFrame(jobs, jobs', v, w);
    }
    assert Settle(p, jobs, v).Keys == Settle(p, jobs', v).Keys;
  }
}
