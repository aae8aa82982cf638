/**
 * Graph questions the executor asks of a run: which nodes are ready, which can
 * never run, and which depend on a given node.
 */
module Graph {
  import opened RunState

  // ---------------------------------------------------------------- reachability

  /** A chain of nodes in which each one is a direct dependency of the next. */
  ghost predicate Chain(g: GraphDef, p: seq<nat>) {
    && |p| >= 2
    && (forall k | 0 <= k < |p| :: p[k] < |g.nodes|)
    && (forall k | 0 < k < |p| :: p[k - 1] in g.nodes[p[k]].dependsOn)
  }

  /** `to` depends on `from`, directly or through other nodes. */
  ghost predicate Descends(g: GraphDef, from: nat, to: nat) {
    exists p :: Chain(g, p) && p[0] == from && p[|p| - 1] == to
  }

  lemma DescendsByEdge(g: GraphDef, from: nat, to: nat)
    requires from < |g.nodes| && to < |g.nodes| && from in g.nodes[to].dependsOn
    ensures Descends(g, from, to)
  {
    assert Chain(g, [from, to]);
  }

  lemma DescendsFurther(g: GraphDef, from: nat, mid: nat, to: nat)
    requires Descends(g, from, mid) && to < |g.nodes| && mid in g.nodes[to].dependsOn
    ensures Descends(g, from, to)
  {
    var p :| Chain(g, p) && p[0] == from && p[|p| - 1] == mid;
    var q := p + [to];
    assert Chain(g, q) && q[0] == from && q[|q| - 1] == to;
  }

  lemma LastStep(g: GraphDef, from: nat, to: nat) returns (mid: nat)
    requires Descends(g, from, to)
    ensures to < |g.nodes| && mid in g.nodes[to].dependsOn && (mid == from || Descends(g, from, mid))
  {
    var p :| Chain(g, p) && p[0] == from && p[|p| - 1] == to;
    mid := p[|p| - 2];
    if |p| > 2 {
      assert Chain(g, p[..|p| - 1]);
    }
  }

  /** One topological pass collects exactly the nodes reachable from `target`. */
  method DescendantsOf(g: GraphDef, target: nat) returns (descendants: set<nat>)
    requires WellFormed(g) && target < |g.nodes|
    ensures forall i: nat :: i in descendants <==> Descends(g, target, i)
  {
    descendants := {};
    for n := 0 to |g.nodes|
      invariant forall i: nat :: i in descendants <==> i < n && Descends(g, target, i)
    {
      if exists d :: d in g.nodes[n].dependsOn && (d == target || d in descendants) {
        var d :| d in g.nodes[n].dependsOn && (d == target || d in descendants);
        if d == target {
          DescendsByEdge(g, target, n);
        } else {
          DescendsFurther(g, target, d, n);
        }
        descendants := descendants + {n};
      } else if Descends(g, target, n) {
        var mid := LastStep(g, target, n);
      }
    }
    forall i: nat | Descends(g, target, i) ensures i < |g.nodes| {
      var mid := LastStep(g, target, i);
    }
  }

  // ---------------------------------------------------------------- readiness and skipping

  predicate IsReady(g: GraphDef, nodes: seq<NodeState>, i: nat)
    requires |nodes| == |g.nodes| && i < |nodes|
  {
    Open(nodes[i]) && DependenciesDone(g, nodes, i)
  }

  /** The ready nodes of a prefix of the graph, in graph order. */
  function ReadyBelow(g: GraphDef, nodes: seq<NodeState>, n: nat): (ready: seq<nat>)
    requires |nodes| == |g.nodes| && n <= |nodes|
    ensures forall i: nat :: i in ready <==> i < n && IsReady(g, nodes, i)
    ensures forall a, b | 0 <= a < b < |ready| :: ready[a] < ready[b]
  {
    if n == 0 then []
    else
      var earlier := ReadyBelow(g, nodes, n - 1);
      assert forall a | 0 <= a < |earlier| :: earlier[a] in earlier;
      earlier + if IsReady(g, nodes, n - 1) then [n - 1] else []
  }

  function ReadyNodes(g: GraphDef, nodes: seq<NodeState>): (ready: seq<nat>)
    requires |nodes| == |g.nodes|
    ensures forall i: nat :: i in ready <==> i < |nodes| && IsReady(g, nodes, i)
    ensures forall p | 0 <= p < |ready| :: ready[p] < |nodes| && IsReady(g, nodes, ready[p])
    ensures forall a, b | 0 <= a < b < |ready| :: ready[a] < ready[b]
  {
    var ready := ReadyBelow(g, nodes, |nodes|);
    assert forall p | 0 <= p < |ready| :: ready[p] in ready;
    ready
  }

  predicate AllTerminal(nodes: seq<NodeState>) {
    forall i | 0 <= i < |nodes| :: Terminal(nodes[i])
  }

  predicate AnyFailed(nodes: seq<NodeState>) {
    exists i | 0 <= i < |nodes| :: nodes[i].status.Failed?
  }

  /**
   * `after` is `before` with exactly those open nodes skipped that have a failed
   * or skipped dependency in `after` itself.
   */
  ghost predicate SkipPass(g: GraphDef, before: seq<NodeState>, after: seq<NodeState>)
    requires |before| == |g.nodes|
  {
    && |after| == |before|
    && forall i | 0 <= i < |before| ::
         after[i] == if Open(before[i]) && HasBlockingDependency(g, after, i)
                     then before[i].(status := Skipped) else before[i]
  }

  /** A second pass finds nothing to skip. */
  lemma {:induction false} SecondPassChangesNothing(g: GraphDef, a: seq<NodeState>, b: seq<NodeState>, c: seq<NodeState>)
    requires WellFormed(g) && |a| == |g.nodes| && SkipPass(g, a, b) && SkipPass(g, b, c)
    ensures c == b
  {
    for n := 0 to |a|
      invariant forall i | 0 <= i < n :: c[i] == b[i]
    {
      assert c[n] == b[n] by {
        assert HasBlockingDependency(g, c, n) <==> HasBlockingDependency(g, b, n);
      }
    }
  }

  /**
   * Progress: once nothing more can be skipped and nothing runs, some node is
   * ready or every node is terminal.
   */
  lemma {:induction false} ReadyOrTerminal(g: GraphDef, before: seq<NodeState>, nodes: seq<NodeState>)
    requires WellFormed(g) && |before| == |g.nodes| && SkipPass(g, before, nodes)
    requires forall i | 0 <= i < |nodes| :: !nodes[i].status.Running?
    ensures ReadyNodes(g, nodes) != [] || AllTerminal(nodes)
  {
    if !AllTerminal(nodes) {
      FirstOpenIsReady(g, before, nodes, 0);
    }
  }

  lemma FirstOpenIsReady(g: GraphDef, before: seq<NodeState>, nodes: seq<NodeState>, n: nat)
    requires WellFormed(g) && |before| == |g.nodes| && SkipPass(g, before, nodes)
    requires forall i | 0 <= i < |nodes| :: !nodes[i].status.Running?
    requires n <= |nodes| && forall i | 0 <= i < n :: Terminal(nodes[i])
    requires !AllTerminal(nodes)
    ensures exists i | 0 <= i < |nodes| :: IsReady(g, nodes, i)
    ensures ReadyNodes(g, nodes) != []
    decreases |nodes| - n
  {
    if n < |nodes| && Open(nodes[n]) {
      assert IsReady(g, nodes, n);
      assert n in ReadyNodes(g, nodes);
    } else {
      assert n < |nodes|;
      FirstOpenIsReady(g, before, nodes, n + 1);
    }
  }

  /** Behind every skipped node there is a failed one. */
  lemma {:induction false} SkippedBehindFailure(g: GraphDef, nodes: seq<NodeState>, i: nat)
    requires WellFormed(g) && |nodes| == |g.nodes| && SkipsJustified(g, nodes)
    requires i < |nodes| && nodes[i].status.Skipped?
    ensures AnyFailed(nodes)
    decreases i
  {
    var d :| d in g.nodes[i].dependsOn && d < |nodes| && Blocking(nodes[d]);
    if nodes[d].status.Skipped? {
      SkippedBehindFailure(g, nodes, d);
    }
  }

  /** A run whose nodes all ended has failed exactly when not every node is done. */
  lemma TerminalWithoutFailureIsDone(g: GraphDef, nodes: seq<NodeState>)
    requires WellFormed(g) && |nodes| == |g.nodes| && SkipsJustified(g, nodes) && AllTerminal(nodes)
    ensures AnyFailed(nodes) <==> exists i | 0 <= i < |nodes| :: !nodes[i].status.Done?
  {
    if i :| 0 <= i < |nodes| && nodes[i].status.Skipped? {
      SkippedBehindFailure(g, nodes, i);
    }
  }

  /** A node that is not running may take any other status its last attempt allows. */
  lemma StatusChangeAccepted(def: NodeDef, dry: bool, s: NodeState, status: NodeStatus)
    requires NodeAccepted(def, dry, s) && !s.status.Running? && !status.Running?
    requires status.Done? ==> LastIs(s, AttemptDone)
    requires status.Failed? ==> s.attempts == [] || LastIs(s, AttemptFailed)
    ensures NodeAccepted(def, dry, s.(status := status))
  {
  }

  lemma SkipPassKeepsRecords(g: GraphDef, a: seq<NodeState>, b: seq<NodeState>, dry: bool)
    requires |a| == |g.nodes| && SkipPass(g, a, b)
    requires forall i | 0 <= i < |a| :: NodeAccepted(g.nodes[i], dry, a[i])
    ensures forall i | 0 <= i < |b| :: NodeAccepted(g.nodes[i], dry, b[i])
    ensures TotalAttempts(b) == TotalAttempts(a)
  {
    TotalDependsOnCountersOnly(a, b);
    forall i | 0 <= i < |b| ensures NodeAccepted(g.nodes[i], dry, b[i]) {
      if b[i] != a[i] {
        StatusChangeAccepted(g.nodes[i], dry, a[i], Skipped);
      }
    }
  }

  lemma SkipPassKeepsConsistency(g: GraphDef, a: seq<NodeState>, b: seq<NodeState>, globalAttempts: nat, dry: bool)
    requires WellFormed(g) && Consistent(g, a, globalAttempts, dry) && SkipPass(g, a, b)
    ensures Consistent(g, b, globalAttempts, dry)
  {
    SkipPassKeepsRecords(g, a, b, dry);
    SkipPassKeepsOrder(g, a, b);
  }

  lemma SkipPassKeepsOrder(g: GraphDef, a: seq<NodeState>, b: seq<NodeState>)
    requires |a| == |g.nodes| && SkipPass(g, a, b)
    requires DoneClosed(g, a) && SkipsJustified(g, a)
    ensures DoneClosed(g, b) && SkipsJustified(g, b)
  {
  }
}
