/**
 * The values a run is made of: the graph a parser accepted, one state per node
 * and the attempt history of each node. A node is identified by its position in
 * the graph, which is also its topological position.
 */
module RunState {
  import opened Wrappers

  datatype Agent = Explorer | Researcher | Implementer | Checker | Shell

  datatype NodeDef = NodeDef(
    agent: Agent,
    dependsOn: seq<nat>,
    maxAttempts: nat,
    gated: bool,               // loop.gate is "shell" or "all"
    feedbackTo: Option<nat>)

  datatype GraphDef = GraphDef(nodes: seq<NodeDef>, maxGlobalAttempts: nat, maxConcurrency: nat)

  datatype NodeStatus = Pending | Ready | Running | Done | Failed | Skipped

  datatype AttemptStatus = AttemptRunning | AttemptDone | AttemptFailed

  datatype Outcome = Passed | SchemaInvalid | SdkError | SubstantiveRejection | Incomplete | GateFailure

  datatype Attempt = Attempt(
    number: nat,
    status: AttemptStatus,
    schemaOk: bool,
    shellOk: Option<bool>,
    error: bool,
    rejected: bool,            // validated checker output with passed=false
    incomplete: bool,          // validated implementer output with done=false
    outcome: Option<Outcome>,
    feedbackApplied: bool)

  datatype NodeState = NodeState(status: NodeStatus, attempts: seq<Attempt>, currentAttempt: nat)

  datatype RunStatus = Planning | Executing | Completed | Unsuccessful | Blocked

  /** Everything the store writes for one run. */
  datatype Snapshot = Snapshot(nodes: seq<NodeState>, globalAttempts: nat, status: RunStatus, dry: bool)

  /** What the graph parser guarantees about every graph it returns. */
  predicate WellFormed(g: GraphDef) {
    && g.maxGlobalAttempts >= 1
    && 1 <= g.maxConcurrency <= 8
    && forall i | 0 <= i < |g.nodes| ::
         && g.nodes[i].maxAttempts >= 1
         && (forall d | d in g.nodes[i].dependsOn :: d < i)
         && (g.nodes[i].feedbackTo.Some? ==> g.nodes[i].agent.Checker? && g.nodes[i].feedbackTo.value in g.nodes[i].dependsOn)
  }

  predicate Open(s: NodeState) { s.status.Pending? || s.status.Ready? }

  predicate Terminal(s: NodeState) { s.status.Done? || s.status.Failed? || s.status.Skipped? }

  predicate Blocking(s: NodeState) { s.status.Failed? || s.status.Skipped? }

  predicate HasCapacity(def: NodeDef, s: NodeState) { s.currentAttempt < def.maxAttempts }

  predicate LastIs(s: NodeState, status: AttemptStatus) {
    s.attempts != [] && s.attempts[|s.attempts| - 1].status == status
  }

  predicate ShellRequired(def: NodeDef) { def.agent.Shell? || def.gated }

  predicate DependenciesDone(g: GraphDef, nodes: seq<NodeState>, i: nat)
    requires i < |g.nodes|
  {
    forall d | d in g.nodes[i].dependsOn :: d < |nodes| && nodes[d].status.Done?
  }

  function TotalAttempts(nodes: seq<NodeState>): nat {
    if nodes == [] then 0 else nodes[0].currentAttempt + TotalAttempts(nodes[1..])
  }

  lemma {:induction false} TotalAfterUpdate(nodes: seq<NodeState>, i: nat, s: NodeState)
    requires i < |nodes|
    ensures TotalAttempts(nodes[i := s]) == TotalAttempts(nodes) - nodes[i].currentAttempt + s.currentAttempt
  {
    if i > 0 {
      assert nodes[i := s][1..] == nodes[1..][i - 1 := s];
      TotalAfterUpdate(nodes[1..], i - 1, s);
    }
  }

  lemma {:induction false} TotalDependsOnCountersOnly(a: seq<NodeState>, b: seq<NodeState>)
    requires |a| == |b|
    requires forall i | 0 <= i < |a| :: a[i].currentAttempt == b[i].currentAttempt
    ensures TotalAttempts(a) == TotalAttempts(b)
  {
    if a != [] {
      TotalDependsOnCountersOnly(a[1..], b[1..]);
    }
  }

  // ---------------------------------------------------------------- persisted-state rules

  /** The rules the store applies to one attempt record before it accepts a save. */
  predicate AttemptAccepted(def: NodeDef, dry: bool, a: Attempt) {
    var liveGate := ShellRequired(def) && !dry;
    && (a.status.AttemptRunning? ==> !a.schemaOk && a.outcome.None?)
    && (a.rejected ==> def.agent.Checker? && a.schemaOk)
    && (a.incomplete ==> def.agent.Implementer? && a.schemaOk)
    && (a.status.AttemptDone? ==> a.schemaOk && !a.error && !a.rejected && !a.incomplete && (liveGate ==> a.shellOk == Some(true)))
    && (a.outcome.Some? ==> (a.outcome.value.Passed? <==> a.status.AttemptDone?))
    && (a.outcome == Some(SchemaInvalid) ==> !a.schemaOk)
    && (a.outcome.Some? ==> (a.outcome.value.SdkError? <==> a.error))
    && (a.outcome in {Some(SubstantiveRejection), Some(Incomplete), Some(GateFailure)} ==> a.schemaOk)
    && (a.outcome == Some(GateFailure) ==> liveGate && a.shellOk == Some(false))
    && (a.outcome == Some(SubstantiveRejection) ==> a.rejected)
    && (a.outcome == Some(Incomplete) ==> a.incomplete)
    && (a.rejected && !(liveGate && a.shellOk == Some(false)) && !a.error && a.status.AttemptFailed? && a.outcome.Some?
        ==> a.outcome.value.SubstantiveRejection?)
    && (a.incomplete && !(liveGate && a.shellOk != Some(true)) && !a.error && a.status.AttemptFailed? && a.outcome.Some?
        ==> a.outcome.value.Incomplete?)
  }

  /** The rules the store applies to one node, its attempt history included. */
  predicate NodeAccepted(def: NodeDef, dry: bool, s: NodeState) {
    && s.currentAttempt == |s.attempts| <= def.maxAttempts
    && (forall k | 0 <= k < |s.attempts| ::
          && s.attempts[k].number == k + 1
          && AttemptAccepted(def, dry, s.attempts[k])
          && (s.attempts[k].status.AttemptRunning? ==> k == |s.attempts| - 1))
    && (s.status.Running? <==> LastIs(s, AttemptRunning))
    && (s.status.Done? ==> LastIs(s, AttemptDone))
    && (s.status.Failed? ==> s.attempts == [] || LastIs(s, AttemptFailed))
  }

  /** A done node has only done dependencies. */
  predicate DoneClosed(g: GraphDef, nodes: seq<NodeState>)
    requires |nodes| == |g.nodes|
  {
    forall i | 0 <= i < |nodes| && nodes[i].status.Done? :: DependenciesDone(g, nodes, i)
  }

  predicate HasBlockingDependency(g: GraphDef, nodes: seq<NodeState>, i: nat)
    requires i < |g.nodes|
  {
    exists d | d in g.nodes[i].dependsOn :: d < |nodes| && Blocking(nodes[d])
  }

  /** A skipped node has a failed or skipped dependency. */
  predicate SkipsJustified(g: GraphDef, nodes: seq<NodeState>)
    requires |nodes| == |g.nodes|
  {
    forall i | 0 <= i < |nodes| && nodes[i].status.Skipped? :: HasBlockingDependency(g, nodes, i)
  }

  /** The rules that tie the status of the whole run to its nodes. */
  predicate StatusAccepted(s: Snapshot) {
    && (s.status.Completed? ==> forall i | 0 <= i < |s.nodes| :: s.nodes[i].status.Done?)
    && (s.status.Unsuccessful? ==>
          && (exists i | 0 <= i < |s.nodes| :: s.nodes[i].status.Failed?)
          && (forall i | 0 <= i < |s.nodes| :: Terminal(s.nodes[i])))
    && (s.status.Planning? ==> s.globalAttempts == 0 && forall i | 0 <= i < |s.nodes| :: s.nodes[i].status.Pending?)
  }

  /** Exactly the snapshots the store accepts; any other save is refused. */
  predicate Persistable(g: GraphDef, s: Snapshot) {
    && |s.nodes| == |g.nodes|
    && (forall i | 0 <= i < |s.nodes| :: NodeAccepted(g.nodes[i], s.dry, s.nodes[i]))
    && DoneClosed(g, s.nodes)
    && SkipsJustified(g, s.nodes)
    && s.globalAttempts == TotalAttempts(s.nodes) <= g.maxGlobalAttempts
    && StatusAccepted(s)
  }

  /**
   * What the executor keeps beyond the store's rules: a node that may still be
   * scheduled has local capacity left.
   */
  predicate Schedulable(g: GraphDef, nodes: seq<NodeState>)
    requires |nodes| == |g.nodes|
  {
    forall i | 0 <= i < |nodes| && (Open(nodes[i]) || nodes[i].status.Skipped?) :: HasCapacity(g.nodes[i], nodes[i])
  }

  /** The invariant of a run between any two steps, whatever its run-level status. */
  predicate Consistent(g: GraphDef, nodes: seq<NodeState>, globalAttempts: nat, dry: bool) {
    && |nodes| == |g.nodes|
    && (forall i | 0 <= i < |nodes| :: NodeAccepted(g.nodes[i], dry, nodes[i]))
    && DoneClosed(g, nodes)
    && SkipsJustified(g, nodes)
    && Schedulable(g, nodes)
    && globalAttempts == TotalAttempts(nodes) <= g.maxGlobalAttempts
  }
}
