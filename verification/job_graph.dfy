/**
 * The dependency graph of the build queue, abstracted as a set of directed
 * edges between node indices (an edge runs from a dependency to the job that
 * needs it), and reachability in it: the nodes an error cancels.
 */
module JobGraph {
  import opened BuildTypes

  datatype Edge = Edge(from: NodeIndex, to: NodeIndex)

  function Children(edges: set<Edge>, n: NodeIndex): (r: set<NodeIndex>)
    ensures forall c :: c in r <==> Edge(n, c) in edges
  {
    set e | e in edges && e.from == n :: e.to
  }

  function Parents(edges: set<Edge>, n: NodeIndex): (r: set<NodeIndex>)
    ensures forall p :: p in r <==> Edge(p, n) in edges
  {
    set e | e in edges && e.to == n :: e.from
  }

  /** The nodes some edge points to. */
  function Targets(edges: set<Edge>): set<NodeIndex>
  {
    set e | e in edges :: e.to
  }

  /** The nodes one edge away from `s`. */
  function Successors(edges: set<Edge>, s: set<NodeIndex>): (r: set<NodeIndex>)
    ensures r <= Targets(edges)
    ensures forall e :: e in edges && e.from in s ==> e.to in r
  {
    set e | e in edges && e.from in s :: e.to
  }

  /** `s` has no edge leaving it. */
  ghost predicate Closed(edges: set<Edge>, s: set<NodeIndex>)
  {
    forall e :: e in edges && e.from in s ==> e.to in s
  }

  /** The nodes reachable from `seeds` (the seeds included). */
  ghost function Reach(edges: set<Edge>, seeds: set<NodeIndex>): set<NodeIndex>
    decreases Targets(edges) - seeds
  {
    var next := seeds + Successors(edges, seeds);
    if next == seeds then seeds
    else
      assert Targets(edges) - next < Targets(edges) - seeds;
      Reach(edges, next)
  }

  /** The seeds are reachable, and nothing outside the seeds is reachable
      except through an edge. */
  lemma {:induction false} ReachBounds(edges: set<Edge>, seeds: set<NodeIndex>)
    ensures seeds <= Reach(edges, seeds) <= seeds + Targets(edges)
    decreases Targets(edges) - seeds
  {
    var next := seeds + Successors(edges, seeds);
    if next != seeds {
      assert Targets(edges) - next < Targets(edges) - seeds;
      ReachBounds(edges, next);
    }
  }

  /** Every child of a reachable node is reachable. */
  lemma {:induction false} ReachClosed(edges: set<Edge>, seeds: set<NodeIndex>)
    ensures Closed(edges, Reach(edges, seeds))
    decreases Targets(edges) - seeds
  {
    var next := seeds + Successors(edges, seeds);
    if next != seeds {
      assert Targets(edges) - next < Targets(edges) - seeds;
      ReachClosed(edges, next);
    }
  }

  /** Reachability is the least closed set containing the seeds. */
  lemma {:induction false} ReachLeast(edges: set<Edge>, seeds: set<NodeIndex>, s: set<NodeIndex>)
    requires seeds <= s && Closed(edges, s)
    ensures Reach(edges, seeds) <= s
    decreases Targets(edges) - seeds
  {
    var next := seeds + Successors(edges, seeds);
    if next != seeds {
      assert Targets(edges) - next < Targets(edges) - seeds;
      ReachLeast(edges, next, s);
    }
  }
}
