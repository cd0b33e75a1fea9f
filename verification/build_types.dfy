/**
 * The values the build queue is made of: the status of a build job, the
 * derivation it builds and the job record held in each node of the queue's
 * dependency graph (src/build/mod.rs).
 */
module BuildTypes {

  /** Workflow ids are the database's 64-bit row ids; only equality and order matter here. */
  type WorkflowId = int

  /** The index of a node of the dependency graph. */
  type NodeIndex = nat

  datatype BuildStatus =
    | Queued    // waiting for dependencies to complete
    | Ready     // dependencies satisfied, waiting for a worker slot
    | Running
    | Success
    | Cached    // already in the binary cache, no build needed
    | Failed
    | Timedout
    | Canceled

  /** `BuildStatus::done`: the job will not change again by itself. */
  predicate Done(s: BuildStatus)
  {
    s == Success || s == Cached || s == Failed || s == Timedout || s == Canceled
  }

  /** `BuildStatus::error`: the job finished without producing its outputs. */
  predicate IsError(s: BuildStatus)
  {
    s == Failed || s == Timedout || s == Canceled
  }

  /** Every error status is terminal, and the terminal statuses that are not
      errors are exactly the two successful ones. */
  lemma ErrorIsDone(s: BuildStatus)
    ensures IsError(s) ==> Done(s)
    ensures Done(s) && !IsError(s) <==> s == Success || s == Cached
    ensures !Done(s) <==> s == Queued || s == Ready || s == Running
  {
  }

  datatype Derivation = Derivation(
    name: string,
    drvPath: string,
    outputs: seq<string>,
    system: string,
    inputDrvs: seq<string>,
    status: BuildStatus)

  datatype BuildJob = BuildJob(
    derivation: Derivation,
    status: BuildStatus,
    requestedBy: set<WorkflowId>)  // the workflows that need this derivation

  /** A value at two positions of a list occurs in it at least twice. */
  lemma TwiceIn<T>(xs: seq<T>, i: nat, j: nat)
    requires i < j < |xs| && xs[i] == xs[j]
    ensures multiset(xs)[xs[i]] >= 2
  {
    assert xs == xs[..i] + [xs[i]] + xs[i + 1..j] + [xs[j]] + xs[j + 1..];
  }
}
