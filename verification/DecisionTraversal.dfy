/** The worklist that separates affected decision assets from preserved ones, on any graph. */
module DecisionTraversal {
  import opened Common

  type Node = string

  type Lineage = map<Node, seq<Node>>

  function NextOf(g: Lineage, n: Node): seq<Node> {
    if n in g then g[n] else []
  }

  /** A node without an entry feeds none. */
  predicate Feeds(g: Lineage, upstream: Node, downstream: Node) {
    upstream in g && downstream in g[upstream]
  }

  /** A path from a seed that never enters the root, nor an unnamed node. */
  predicate Path(g: Lineage, root: Node, seeds: seq<Node>, path: seq<Node>) {
    && path != [] && path[0] in seeds
    && (forall i :: 0 <= i < |path| ==> path[i] != "" && path[i] != root)
    && (forall i :: 0 < i < |path| ==> Feeds(g, path[i - 1], path[i]))
  }

  ghost predicate Reached(g: Lineage, root: Node, seeds: seq<Node>, n: Node) {
    exists path :: Path(g, root, seeds, path) && path[|path| - 1] == n
  }

  lemma {:induction false} SeedIsReached(g: Lineage, root: Node, seeds: seq<Node>, n: Node)
    requires n in seeds && n != "" && n != root
    ensures Reached(g, root, seeds, n)
  {
    assert Path(g, root, seeds, [n]);
  }

  lemma {:induction false} NextIsReached(g: Lineage, root: Node, seeds: seq<Node>, n: Node, next: Node)
    requires Reached(g, root, seeds, n) && next in NextOf(g, n) && next != "" && next != root
    ensures Reached(g, root, seeds, next)
  {
    var path :| Path(g, root, seeds, path) && path[|path| - 1] == n;
    assert Path(g, root, seeds, path + [next]);
  }

  /** Handled: visited already, still queued, or unnamed. */
  predicate Handled(affected: seq<Node>, queue: seq<Node>, n: Node) {
    n == "" || n in affected || n in queue
  }

  predicate Closed(g: Lineage, root: Node, seeds: seq<Node>, affected: seq<Node>, queue: seq<Node>) {
    && (forall n :: n in seeds ==> Handled(affected, queue, n))
    && (forall n, m :: n in affected && n != root && m in NextOf(g, n) ==> Handled(affected, queue, m))
  }

  lemma {:induction false} ClosedHoldsPath(g: Lineage, root: Node, seeds: seq<Node>, affected: seq<Node>, path: seq<Node>)
    requires Closed(g, root, seeds, affected, []) && Path(g, root, seeds, path)
    ensures path[|path| - 1] in affected
  {
    if |path| > 1 {
      ClosedHoldsPath(g, root, seeds, affected, path[..|path| - 1]);
      assert path[|path| - 1] in NextOf(g, path[|path| - 2]);
      assert Handled(affected, [], path[|path| - 1]);
    } else {
      assert Handled(affected, [], path[0]);
    }
  }

  /** All nodes a traversal can meet. */
  function Universe(g: Lineage, seeds: seq<Node>): set<Node> {
    (set n | n in seeds) + (set n, m | n in g && m in g[n] :: m)
  }

  function Members(ns: seq<Node>): set<Node> {
    set n | n in ns
  }

  /** Worth queueing: known, and unnamed, the root, or reached. */
  ghost predicate Queued(g: Lineage, root: Node, seeds: seq<Node>, q: Node) {
    q in Universe(g, seeds) && (q == "" || q == root || Reached(g, root, seeds, q))
  }

  ghost predicate Between(g: Lineage, root: Node, seeds: seq<Node>, affected: seq<Node>, queue: seq<Node>) {
    && root in affected && Distinct(affected)
    && Closed(g, root, seeds, affected, queue)
    && (forall n :: n in affected ==> n == root || Reached(g, root, seeds, n))
    && (forall q :: q in queue ==> Queued(g, root, seeds, q))
  }

  lemma {:induction false} Starts(g: Lineage, root: Node, seeds: seq<Node>)
    ensures Between(g, root, seeds, [root], seeds)
  {
    forall q | q in seeds ensures Queued(g, root, seeds, q) {
      if q != "" && q != root { SeedIsReached(g, root, seeds, q); }
    }
  }

  lemma {:induction false} Skips(g: Lineage, root: Node, seeds: seq<Node>, affected: seq<Node>, queue: seq<Node>)
    requires Between(g, root, seeds, affected, queue) && queue != []
    requires queue[0] == "" || queue[0] in affected
    ensures Between(g, root, seeds, affected, queue[1..])
  {
    assert forall x :: x in queue ==> x == queue[0] || x in queue[1..];
    forall n | Handled(affected, queue, n) ensures Handled(affected, queue[1..], n) {
    }
  }

  lemma {:induction false} VisitCloses(g: Lineage, root: Node, seeds: seq<Node>, affected: seq<Node>, queue: seq<Node>)
    requires Closed(g, root, seeds, affected, queue) && queue != []
    ensures Closed(g, root, seeds, affected + [queue[0]], queue[1..] + NextOf(g, queue[0]))
  {
    var more, rest := affected + [queue[0]], queue[1..] + NextOf(g, queue[0]);
    assert forall x :: x in queue ==> x == queue[0] || x in queue[1..];
    forall n | Handled(affected, queue, n) ensures Handled(more, rest, n) {
    }
    forall n, m | n in more && n != root && m in NextOf(g, n) ensures Handled(more, rest, m) {
      if n != queue[0] { assert Handled(affected, queue, m); }
    }
  }

  lemma {:induction false} VisitQueues(g: Lineage, root: Node, seeds: seq<Node>, queue: seq<Node>)
    requires queue != [] && forall q :: q in queue ==> Queued(g, root, seeds, q)
    requires queue[0] != "" && queue[0] != root
    ensures forall q :: q in queue[1..] + NextOf(g, queue[0]) ==> Queued(g, root, seeds, q)
  {
    assert Queued(g, root, seeds, queue[0]);
    forall q | q in NextOf(g, queue[0]) ensures Queued(g, root, seeds, q) {
      if q != "" && q != root { NextIsReached(g, root, seeds, queue[0], q); }
    }
  }

  lemma {:induction false} Visits(g: Lineage, root: Node, seeds: seq<Node>, affected: seq<Node>, queue: seq<Node>)
    requires Between(g, root, seeds, affected, queue) && queue != []
    requires queue[0] != "" && queue[0] !in affected
    ensures Between(g, root, seeds, affected + [queue[0]], queue[1..] + NextOf(g, queue[0]))
  {
    assert Queued(g, root, seeds, queue[0]);
    DistinctSnoc(affected, queue[0]);
    VisitCloses(g, root, seeds, affected, queue);
    VisitQueues(g, root, seeds, queue);
  }

  lemma {:induction false} VisitShrinks(universe: set<Node>, affected: seq<Node>, n: Node)
    requires n in universe && n !in affected
    ensures |universe - Members(affected + [n])| < |universe - Members(affected)|
  {
    var before, after := universe - Members(affected), universe - Members(affected + [n]);
    assert before == after + {n};
  }

  /** Everything affected: the root, which is marked but not followed, and exactly the named nodes
      that a path from a seed reaches without passing through it; each once. */
  method Traverse(g: Lineage, root: Node, seeds: seq<Node>) returns (affected: seq<Node>)
    ensures Distinct(affected)
    ensures forall n :: n in affected <==> n == root || Reached(g, root, seeds, n)
  {
    affected := [root];
    var queue := seeds;
    Starts(g, root, seeds);
    while queue != []
      invariant Between(g, root, seeds, affected, queue)
      decreases |Universe(g, seeds) - Members(affected)|, |queue|
    {
      var current := queue[0];
      if current == "" || current in affected {
        Skips(g, root, seeds, affected, queue);
        queue := queue[1..];
        continue;
      }
      assert Queued(g, root, seeds, current);
      Visits(g, root, seeds, affected, queue);
      VisitShrinks(Universe(g, seeds), affected, current);
      affected := affected + [current];
      queue := queue[1..] + NextOf(g, current);
    }
    forall n | Reached(g, root, seeds, n) ensures n in affected {
      var path :| Path(g, root, seeds, path) && path[|path| - 1] == n;
      ClosedHoldsPath(g, root, seeds, affected, path);
    }
  }
}
