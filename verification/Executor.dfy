/**
 * A run under execution: its node table, its counters and the last state the
 * store accepted. Each method is one operation of the executor; worker outcomes,
 * completion order, preflight results and cancellation are inputs or free choices.
 */
module Executor {
  import opened Wrappers
  import opened RunState
  import opened Graph
  import opened Attempts
  import opened ExecutorSteps

  datatype Options = Options(dry: bool, maxWaves: Option<int>, maxConcurrency: Option<int>)

  /**
   * What happens around an invocation: whether the user has stopped it when a wave begins, or when
   * the batch of a wave that begins at some offset does, and whether the gates of that batch pass.
   */
  datatype Surroundings = Surroundings(stopped: nat -> bool, cancelled: (nat, nat) -> bool, gatesPass: (nat, nat) -> bool)

  /** The user stops the invocation in one of its first waves. */
  ghost predicate StoppedBy(around: Surroundings, waves: nat) {
    exists w: nat :: w <= waves && (around.stopped(w) || StoppedIn(around, w))
  }

  ghost predicate StoppedIn(around: Surroundings, wave: nat) {
    exists offset: nat :: around.cancelled(wave, offset)
  }

  ghost predicate GateFails(around: Surroundings, wave: nat) {
    exists offset: nat :: !around.gatesPass(wave, offset)
  }

  ghost predicate SomeGateFails(around: Surroundings, waves: nat) {
    exists w: nat :: w < waves && GateFails(around, w)
  }

  datatype WaveEnd = Ended | PreflightFailed | SaveLost

  datatype RunEnd = Finished | Refused | FeedbackRefused | Interrupted

  datatype Operation = Execute(options: Options, workers: Workers, around: Surroundings) | Resume(options: Options, workers: Workers, around: Surroundings) | Close

  function Clamp(value: int, low: int, high: int): int {
    if value < low then low else if value > high then high else value
  }

  function Min(a: int, b: int): int { if a < b then a else b }

  class Run {
    const graph: GraphDef
    var nodes: seq<NodeState>
    var globalAttempts: nat
    var status: RunStatus
    var dry: bool
    var criteria: seq<string>
    var durable: Snapshot
    /** Every granted attempt and every routing so far, in order. */
    ghost var history: seq<Event>

    function Current(): Snapshot
      reads this`nodes, this`globalAttempts, this`status, this`dry
    {
      Snapshot(nodes, globalAttempts, status, dry)
    }

    ghost predicate InMemory()
      reads this`nodes, this`globalAttempts, this`dry
    {
      WellFormed(graph) && Consistent(graph, nodes, globalAttempts, dry)
    }

    lemma MemoryMeaning()
      requires InMemory()
      ensures WellFormed(graph) && |nodes| == |graph.nodes| && Consistent(graph, nodes, globalAttempts, dry)
      ensures Schedulable(graph, nodes) && globalAttempts == TotalAttempts(nodes) <= graph.maxGlobalAttempts
    {
    }

    /** What the store holds can always be loaded and executed again. */
    ghost predicate OnDisk()
      reads this`durable
    {
      && WellFormed(graph)
      && Persistable(graph, durable)
      && Schedulable(graph, durable.nodes)
    }

    /** A planned run: every node pending, nothing attempted. */
    constructor (graph: GraphDef, dry: bool, criteria: seq<string>)
      requires WellFormed(graph)
      ensures this.graph == graph && InMemory() && OnDisk() && durable == Current()
      ensures status.Planning? && globalAttempts == 0 && history == [] && this.dry == dry && this.criteria == criteria
      ensures forall i | 0 <= i < |nodes| :: nodes[i] == NodeState(Pending, [], 0)
    {
      var untouched := seq(|graph.nodes|, (_: nat) => NodeState(Pending, [], 0));
      this.graph := graph;
      this.nodes := untouched;
      this.globalAttempts := 0;
      this.status := Planning;
      this.dry := dry;
      this.criteria := criteria;
      this.durable := Snapshot(untouched, 0, Planning, dry);
      this.history := [];
      NothingAttempted(untouched);
    }

    static lemma {:induction false} NothingAttempted(nodes: seq<NodeState>)
      requires forall i | 0 <= i < |nodes| :: nodes[i].currentAttempt == 0
      ensures TotalAttempts(nodes) == 0
    {
      if nodes != [] {
        NothingAttempted(nodes[1..]);
      }
    }

    /** A save the store accepts; the precondition is the store's validation. */
    method Save()
      requires Persistable(graph, Current()) && WellFormed(graph) && Schedulable(graph, nodes)
      modifies this`durable
      ensures durable == Current() && OnDisk()
    {
      durable := Current();
    }

    /** A later process loads what the last accepted save wrote. */
    method Reload()
      requires OnDisk()
      modifies this`nodes, this`globalAttempts, this`status, this`dry
      ensures Current() == durable && InMemory() && OnDisk()
    {
      nodes, globalAttempts, status, dry := durable.nodes, durable.globalAttempts, durable.status, durable.dry;
    }

    // -------------------------------------------------------------- graph passes

    method SkipFailedDescendants() returns (changed: bool)
      requires WellFormed(graph) && |nodes| == |graph.nodes|
      modifies this`nodes
      ensures SkipPass(graph, old(nodes), nodes)
      ensures changed <==> nodes != old(nodes)
    {
      changed := false;
      var n := 0;
      while n < |graph.nodes|
        invariant 0 <= n <= |graph.nodes| && |nodes| == |graph.nodes|
        invariant forall i | n <= i < |nodes| :: nodes[i] == old(nodes)[i]
        invariant forall i | 0 <= i < n ::
                    nodes[i] == if Open(old(nodes)[i]) && HasBlockingDependency(graph, nodes, i)
                                then old(nodes)[i].(status := Skipped) else old(nodes)[i]
        invariant changed <==> nodes != old(nodes)
      {
        if Open(nodes[n]) && HasBlockingDependency(graph, nodes, n) {
          ghost var before := nodes;
          nodes := nodes[n := nodes[n].(status := Skipped)];
          changed := true;
          forall i | 0 <= i <= n ensures HasBlockingDependency(graph, nodes, i) <==> HasBlockingDependency(graph, before, i) {
            DependenciesAreEarlier(graph, before, nodes, i, n);
          }
          assert nodes[n] != old(nodes)[n];
        }
        n := n + 1;
      }
    }

    static lemma DependenciesAreEarlier(g: GraphDef, a: seq<NodeState>, b: seq<NodeState>, i: nat, n: nat)
      requires WellFormed(g) && |a| == |b| == |g.nodes| && i <= n < |a|
      requires forall k | 0 <= k < n :: a[k] == b[k]
      ensures HasBlockingDependency(g, a, i) <==> HasBlockingDependency(g, b, i)
    {
    }

    /** The propagation loop: it stops after at most two passes and keeps the first one's result. */
    method SkipToFixpoint()
      requires WellFormed(graph) && |nodes| == |graph.nodes|
      modifies this`nodes
      ensures SkipPass(graph, old(nodes), nodes) && SameCounters(old(nodes), nodes)
      ensures old(InMemory()) ==> InMemory()
    {
      ghost var start := nodes;
      var changed := SkipFailedDescendants();
      ghost var first := nodes;
      while changed
        invariant nodes == first
        decreases changed
      {
        ghost var previous := nodes;
        changed := SkipFailedDescendants();
        SecondPassChangesNothing(graph, start, previous, nodes);
      }
      if old(InMemory()) {
        SkipPassKeepsConsistency(graph, start, nodes, globalAttempts, dry);
      }
    }

    // -------------------------------------------------------------- batches

    /** The next attempt of one node, if local and global budgets allow it. */
    method ReserveAttempt(i: nat) returns (granted: bool)
      requires |nodes| == |graph.nodes| && i < |nodes|
      modifies this`nodes, this`globalAttempts, this`history
      ensures granted <==> HasCapacity(graph.nodes[i], old(nodes)[i]) && old(globalAttempts) < graph.maxGlobalAttempts
      ensures nodes == old(nodes)[i := Reserved(graph.nodes[i], old(nodes)[i], old(globalAttempts) < graph.maxGlobalAttempts)]
      ensures globalAttempts == if granted then old(globalAttempts) + 1 else old(globalAttempts)
      ensures history == if granted then old(history) + [Reservation(i)] else old(history)
    {
      var s := nodes[i];
      if s.currentAttempt >= graph.nodes[i].maxAttempts {
        nodes := nodes[i := s.(status := Failed)];
        return false;
      }
      if globalAttempts >= graph.maxGlobalAttempts {
        nodes := nodes[i := s.(status := if LastIs(s, AttemptDone) then Pending else Failed)];
        return false;
      }
      s := s.(attempts := s.attempts + [FreshAttempt(s.currentAttempt + 1)]);
      s := s.(currentAttempt := s.currentAttempt + 1);
      s := s.(status := RunState.Running);
      nodes := nodes[i := s];
      globalAttempts := globalAttempts + 1;
      history := history + [Reservation(i)];
      return true;
    }

    /** Reservations go in graph order: the first ones get what is left of the global budget. */
    method ReserveBatch(batch: seq<nat>) returns (granted: nat)
      requires InMemory() && Batch(graph, nodes, batch)
      modifies this`nodes, this`globalAttempts, this`history
      ensures granted == Min(|batch|, graph.maxGlobalAttempts - old(globalAttempts)) <= |batch|
      ensures globalAttempts == old(globalAttempts) + granted == TotalAttempts(nodes) <= graph.maxGlobalAttempts
      ensures Reservations(graph, old(nodes), nodes, batch, |batch|, granted)
      ensures history == old(history) + ReservationsOf(batch[..granted])
    {
      hide Run.InMemory, RunState.TotalAttempts, RunState.NodeAccepted, ExecutorSteps.Reservations, Attempts.Reserved,
        ExecutorSteps.ReservationsOf, ExecutorSteps.Batch;
      MemoryMeaning();
      ReservationsBegin(graph, nodes, batch);
      granted := 0;
      for p := 0 to |batch|
        invariant granted == Min(p, graph.maxGlobalAttempts - old(globalAttempts))
        invariant globalAttempts == old(globalAttempts) + granted == TotalAttempts(nodes)
        invariant Reservations(graph, old(nodes), nodes, batch, p, granted)
        invariant history == old(history) + ReservationsOf(batch[..granted])
      {
        ReservationsStep(graph, old(nodes), nodes, batch, p, granted, globalAttempts < graph.maxGlobalAttempts);
        var got := ReserveAttempt(batch[p]);
        if got {
          ReservationsGrow(batch, p);
          granted := granted + 1;
        }
      }
    }

    /** While a batch runs: where it started, what was reserved and which outcomes are recorded. */
    ghost predicate InBatch(start: seq<NodeState>, reserved: seq<NodeState>, batch: seq<nat>, granted: nat,
                            workers: Workers, settled: set<nat>)
      reads this`nodes, this`globalAttempts, this`status, this`dry
    {
      && WellFormed(graph) && status.Executing? && |start| == |graph.nodes|
      && granted <= globalAttempts == TotalAttempts(reserved) <= graph.maxGlobalAttempts
      && Consistent(graph, start, globalAttempts - granted, dry)
      && Batch(graph, start, batch)
      && Midway(graph, dry, start, reserved, batch, granted, workers, {})
      && Midway(graph, dry, start, nodes, batch, granted, workers, settled)
    }

    /** Every state a running batch saves is one the store accepts. */
    method SaveInBatch(ghost start: seq<NodeState>, ghost reserved: seq<NodeState>, ghost batch: seq<nat>, ghost granted: nat,
                       ghost workers: Workers, ghost settled: set<nat>)
      requires InBatch(start, reserved, batch, granted, workers, settled)
      modifies this`durable
      ensures durable == Current() && OnDisk() && InMemory()
    {
      MidwayConsistent(graph, dry, start, nodes, batch, granted, workers, settled, reserved, globalAttempts - granted);
      Save();
    }

    method RecordOutcome(i: nat, outcome: Settlement, ghost start: seq<NodeState>, ghost reserved: seq<NodeState>, ghost batch: seq<nat>,
                         ghost granted: nat, ghost workers: Workers, ghost settled: set<nat>)
      requires InBatch(start, reserved, batch, granted, workers, settled)
      requires i in batch[..granted] && i !in settled && outcome == workers(i, start[i].currentAttempt + 1)
      modifies this`nodes, this`criteria
      ensures InBatch(start, reserved, batch, granted, workers, settled + {i})
      ensures criteria == if old(criteria) == [] && SuppliesCriteria(graph.nodes[i], dry, outcome) then outcome.report.criteria
                          else old(criteria)
      ensures !outcome.Delivered() ==> criteria == old(criteria)
    {
      hide RunState.Consistent, ExecutorSteps.Midway;
      MidwayStep(graph, dry, start, nodes, batch, granted, workers, settled, i);
      MidwayAttempt(graph, dry, start, nodes, batch, granted, workers, settled, i);
      nodes := nodes[i := Settled(graph.nodes[i], dry, nodes[i], outcome)];
      if SuppliesCriteria(graph.nodes[i], dry, outcome) && |criteria| == 0 {
        criteria := outcome.report.criteria;
      }
    }

    /** The workers of a batch report in any order; each report is saved at once, unless its save is refused. */
    method CollectReports(taken: seq<nat>, workers: Workers, ghost start: seq<NodeState>, ghost reserved: seq<NodeState>, ghost batch: seq<nat>)
      requires |taken| <= |batch| && taken == batch[..|taken|] && InBatch(start, reserved, batch, |taken|, workers, {})
      requires OnDisk()
      modifies this`nodes, this`criteria, this`durable
      ensures InBatch(start, reserved, batch, |taken|, workers, ReportedNodes(start, taken, workers)) && OnDisk()
      ensures CriteriaFrom(graph, dry, old(criteria), criteria, start, workers, Members(taken))
    {
      hide *;
      CriteriaBegin(graph, dry, criteria, start, workers);
      ghost var seen: set<nat> := {};
      var waiting := Members(taken);
      ghost var settled: set<nat> := {};
      ReportedNodesTaken(start, taken, workers);
      while waiting != {}
        invariant waiting <= Members(taken)
        invariant settled == ReportedNodes(start, taken, workers) - waiting
        invariant InBatch(start, reserved, batch, |taken|, workers, settled) && OnDisk()
        invariant seen == Members(taken) - waiting && CriteriaFrom(graph, dry, old(criteria), criteria, start, workers, seen)
      {
        var i :| i in waiting;
        ghost var before := criteria;
        var outcome := OutcomeOf(i, workers, start, reserved, batch, |taken|, settled);
        waiting := waiting - {i};
        ReportedNodesHas(start, taken, workers, i);
        if outcome.Reported? || outcome.Unsaved? {
          DeliveredIs(outcome);
          RecordOutcome(i, outcome, start, reserved, batch, |taken|, workers, settled);
          settled := settled + {i};
          if outcome.Reported? {
            SaveInBatch(start, reserved, batch, |taken|, workers, settled);
          }
        } else {
          DeliveredIs(outcome);
          OnlyDeliveredSupply(graph.nodes[i], dry, outcome);
        }
        CriteriaStep(graph, dry, old(criteria), before, criteria, start, workers, seen, i);
        seen := seen + {i};
      }
      assert settled == ReportedNodes(start, taken, workers);
      assert seen == Members(taken);
    }

    /**
     * Executor errors are recorded in graph order once every worker has settled;
     * a worker whose own save failed ends the invocation instead.
     */
    method CollectErrors(taken: seq<nat>, workers: Workers, ghost start: seq<NodeState>, ghost reserved: seq<NodeState>, ghost batch: seq<nat>)
      returns (lost: bool, ghost settled: set<nat>)
      requires |start| == |graph.nodes| && Batch(graph, start, batch) && |taken| <= |batch| && taken == batch[..|taken|]
      requires InBatch(start, reserved, batch, |taken|, workers, ReportedNodes(start, taken, workers))
      modifies this`nodes, this`criteria
      ensures InBatch(start, reserved, batch, |taken|, workers, settled) && criteria == old(criteria)
      ensures lost <==> exists p | 0 <= p < |taken| && taken[p] < |start| :: workers(taken[p], start[taken[p]].currentAttempt + 1).Loses()
      ensures !lost ==> ErrorsSeen(start, taken, workers, |taken|, settled)
    {
      hide *;
      ErrorsSeenBegins(graph, start, batch, taken, workers);
      settled := ReportedNodes(start, taken, workers);
      for p := 0 to |taken|
        invariant InBatch(start, reserved, batch, |taken|, workers, settled) && criteria == old(criteria)
        invariant ErrorsSeen(start, taken, workers, p, settled)
      {
        var outcome := OutcomeOf(taken[p], workers, start, reserved, batch, |taken|, settled);
        ErrorsSeenStep(graph, start, batch, taken, workers, p, settled);
        DeliveredIs(outcome);
        if outcome.PersistenceLost? || outcome.Unsaved? {
          return true, settled;
        }
        if outcome.Threw? {
          RecordOutcome(taken[p], outcome, start, reserved, batch, |taken|, workers, settled);
          settled := settled + {taken[p]};
        }
      }
      ErrorsSeenMeaning(start, taken, workers, settled);
      lost := false;
    }

    /** How the running attempt of a batch member settles. */
    method OutcomeOf(i: nat, workers: Workers, ghost start: seq<NodeState>, ghost reserved: seq<NodeState>, ghost batch: seq<nat>,
                     ghost granted: nat, ghost settled: set<nat>) returns (outcome: Settlement)
      requires granted <= |batch| && i in batch[..granted] && InBatch(start, reserved, batch, granted, workers, settled)
      ensures i < |start| == |graph.nodes| && outcome == workers(i, start[i].currentAttempt + 1)
    {
      MidwayAttempt(graph, dry, start, nodes, batch, granted, workers, settled, i);
      outcome := workers(i, nodes[i].currentAttempt);
    }

    /**
     * Runs one batch. Whatever the completion order, the table afterwards is a
     * closed form of each node's own outcome, and the first nodes in graph order
     * are the ones that got an attempt.
     */
    method ExecuteBatch(batch: seq<nat>, workers: Workers) returns (lost: bool, granted: nat)
      requires InMemory() && OnDisk() && status.Executing? && Batch(graph, nodes, batch)
      modifies this`nodes, this`globalAttempts, this`criteria, this`durable, this`history
      ensures InMemory() && OnDisk()
      ensures granted <= |batch| && granted == Min(|batch|, graph.maxGlobalAttempts - old(globalAttempts))
      ensures history == old(history) + ReservationsOf(batch[..granted])
      ensures CriteriaFrom(graph, dry, old(criteria), criteria, old(nodes), workers, Members(batch[..granted]))
      ensures globalAttempts == old(globalAttempts) + granted
      ensures BatchMoved(old(nodes), nodes, batch, granted, lost)
      ensures lost <==> exists p | 0 <= p < granted :: workers(batch[p], old(nodes)[batch[p]].currentAttempt + 1).Loses()
      ensures !lost ==> forall p | 0 <= p < |batch| ::
                          nodes[batch[p]] == BatchMember(graph.nodes[batch[p]], dry, old(nodes)[batch[p]], batch[p], p < granted, workers)
      ensures !lost ==> |nodes| == |graph.nodes| && BatchEnds(graph, dry, old(nodes), nodes, batch, granted, workers)
      ensures !lost ==> durable == Current()
    {
      hide *;
      MemoryMeaning();
      ghost var start := nodes;
      granted := ReserveBatch(batch);
      ghost var reserved := nodes;
      BeginBatch(start, batch, granted, workers);
      SaveInBatch(start, reserved, batch, granted, workers, {});
      CollectReports(batch[..granted], workers, start, reserved, batch);
      ghost var settled;
      lost, settled := CollectErrors(batch[..granted], workers, start, reserved, batch);
      BatchFacts(start, reserved, batch, granted, workers, settled);
      if !lost {
        ErrorsSeenMeaning(start, batch[..granted], workers, settled);
        BatchClosed(start, reserved, batch, granted, workers, settled);
        MemoryMeaning();
        BatchEndsRightly(graph, dry, start, nodes, batch, granted, workers);
        SaveInBatch(start, reserved, batch, granted, workers, settled);
      }
      BatchMovedFacts(graph, start, nodes, batch, granted, lost);
    }

    lemma BeginBatch(start: seq<NodeState>, batch: seq<nat>, granted: nat, workers: Workers)
      requires WellFormed(graph) && status.Executing? && granted <= globalAttempts == TotalAttempts(nodes) <= graph.maxGlobalAttempts
      requires Consistent(graph, start, globalAttempts - granted, dry) && Batch(graph, start, batch)
      requires Reservations(graph, start, nodes, batch, |batch|, granted)
      ensures InBatch(start, nodes, batch, granted, workers, {})
    {
    }

    lemma BatchFacts(start: seq<NodeState>, reserved: seq<NodeState>, batch: seq<nat>, granted: nat, workers: Workers, settled: set<nat>)
      requires InBatch(start, reserved, batch, granted, workers, settled)
      ensures InMemory() && Untouched(start, nodes, batch)
      ensures forall p | 0 <= p < |batch| ::
                && batch[p] < |nodes|
                && !nodes[batch[p]].status.Skipped?
                && nodes[batch[p]].currentAttempt == start[batch[p]].currentAttempt + (if p < granted then 1 else 0)
    {
      hide RunState.NodeAccepted, RunState.DoneClosed, RunState.SkipsJustified, RunState.Schedulable, RunState.TotalAttempts;
      MidwayFacts(graph, dry, start, nodes, batch, granted, workers, settled, globalAttempts - granted);
      MidwayConsistent(graph, dry, start, nodes, batch, granted, workers, settled, reserved, globalAttempts - granted);
    }

    lemma BatchClosed(start: seq<NodeState>, reserved: seq<NodeState>, batch: seq<nat>, granted: nat, workers: Workers, settled: set<nat>)
      requires InBatch(start, reserved, batch, granted, workers, settled) && granted <= |batch|
      requires forall p | 0 <= p < granted :: batch[..granted][p] in settled
      requires forall p | 0 <= p < granted && batch[p] < |start| :: !workers(batch[p], start[batch[p]].currentAttempt + 1).Loses()
      ensures forall p | 0 <= p < |batch| ::
                && batch[p] < |nodes|
                && HasCapacity(graph.nodes[batch[p]], start[batch[p]])
                && nodes[batch[p]] == BatchMember(graph.nodes[batch[p]], dry, start[batch[p]], batch[p], p < granted, workers)
                && !nodes[batch[p]].status.Running?
    {
      hide RunState.NodeAccepted, RunState.DoneClosed, RunState.SkipsJustified, RunState.Schedulable, RunState.TotalAttempts;
      forall p | 0 <= p < granted ensures batch[p] in settled {
        assert batch[..granted][p] == batch[p];
      }
      MidwayFacts(graph, dry, start, nodes, batch, granted, workers, settled, globalAttempts - granted);
      BatchClosedForm(graph, dry, start, nodes, batch, granted, workers, settled);
    }

    // -------------------------------------------------------------- feedback and limits

    /** Whether the rejection of checker `c` may reopen its target, and what would reopen with it. */
    method RoutingBudget(c: nat) returns (affordable: bool, invalidated: set<nat>)
      requires WellFormed(graph) && |nodes| == |graph.nodes| && c < |nodes| && graph.nodes[c].feedbackTo.Some?
      ensures affordable <==> Affordable(graph, nodes, globalAttempts, c)
      ensures invalidated == Descendants(graph, graph.nodes[c].feedbackTo.value)
    {
      var target := graph.nodes[c].feedbackTo.value;
      invalidated := DescendantsOf(graph, target);
      assert invalidated == Descendants(graph, target);
      var exhaustedDescendant := exists i | 0 <= i < |nodes| ::
        i in invalidated && nodes[i].currentAttempt >= graph.nodes[i].maxAttempts;
      affordable := !(
        || exhaustedDescendant
        || nodes[c].currentAttempt >= graph.nodes[c].maxAttempts
        || nodes[target].currentAttempt >= graph.nodes[target].maxAttempts
        || graph.maxGlobalAttempts - globalAttempts < 1 + |invalidated|);
    }

    /** Opens the target of a rejection and every node that depends on it. */
    method Reopen(target: nat, invalidated: set<nat>)
      requires InMemory() && status.Executing? && target < |nodes| && invalidated == Descendants(graph, target)
      requires HasCapacity(graph.nodes[target], nodes[target])
      requires forall i | i in invalidated :: HasCapacity(graph.nodes[i], nodes[i])
      modifies this`nodes
      ensures Persistable(graph, Current()) <==> !RunningBelow(graph, old(nodes), target)
      ensures !RunningBelow(graph, old(nodes), target) ==> InMemory()
      ensures Reopening(graph, old(nodes), nodes, target)
    {
      hide RunState.NodeAccepted, RunState.DoneClosed, RunState.SkipsJustified, RunState.Schedulable, RunState.TotalAttempts, RunState.StatusAccepted;
      ghost var start := nodes;
      nodes := nodes[target := nodes[target].(status := Pending)];
      var rest := invalidated;
      while rest != {}
        invariant rest <= invalidated && |nodes| == |start|
        invariant forall i: nat | i < |nodes| ::
                    nodes[i] == if i == target || (i in invalidated && i !in rest) then start[i].(status := Pending) else start[i]
      {
        var i :| i in rest;
        if nodes[i].currentAttempt < graph.nodes[i].maxAttempts {
          nodes := nodes[i := nodes[i].(status := Pending)];
        }
        rest := rest - {i};
      }
      ReopeningAcceptedIff(graph, start, nodes, globalAttempts, dry, target);
    }

    method MarkExamined(c: nat)
      requires InMemory() && c < |nodes| && nodes[c].attempts != []
      modifies this`nodes
      ensures InMemory() && nodes == old(nodes)[c := Marked(old(nodes)[c])]
    {
      ghost var before := nodes;
      nodes := nodes[c := Marked(nodes[c])];
      ExaminationKeepsConsistency(graph, before, nodes, globalAttempts, dry);
    }

    /** Looks at one waiting rejection: it is routed if affordable and marked either way. */
    method ExamineChecker(c: nat) returns (affordable: bool, refused: bool)
      requires InMemory() && OnDisk() && status.Executing? && c < |nodes| && AwaitsRouting(graph.nodes[c], nodes[c])
      modifies this`nodes, this`durable, this`history
      ensures OnDisk() && SameCounters(old(nodes), nodes)
      ensures history == if affordable then old(history) + [Rerouting(c)] else old(history)
      ensures affordable <==> Affordable(graph, old(nodes), globalAttempts, c)
      ensures !affordable ==> !refused && nodes == old(nodes)[c := Marked(old(nodes)[c])]
      ensures affordable ==> Reopening(graph, old(nodes)[c := Marked(old(nodes)[c])], nodes, graph.nodes[c].feedbackTo.value)
      ensures refused <==> affordable && RunningBelow(graph, old(nodes), graph.nodes[c].feedbackTo.value)
      ensures !refused ==> InMemory() && durable == Current()
      ensures refused ==> !Persistable(graph, Current())
    {
      hide *;
      MemoryMeaning();
      RoutingFacts(graph, nodes, c);
      ghost var start := nodes;
      var target := graph.nodes[c].feedbackTo.value;
      var invalidated;
      affordable, invalidated := RoutingBudget(c);
      RunningBelowIs(graph, nodes, target, invalidated);
      refused := affordable && exists i | 0 <= i < |nodes| :: (i == target || i in invalidated) && nodes[i].status.Running?;
      MarkExamined(c);
      ghost var marked := nodes;
      MarkKeepsBudget(graph, start, marked, globalAttempts, c);
      if affordable {
        history := history + [Rerouting(c)];
        Reopen(target, invalidated);
      }
      ExaminationKeepsCounters(graph, start, marked, nodes, c, target);
      if !refused {
        SaveExecuting();
      }
    }

    /**
     * Routes the first checker rejection that still fits every budget. Rejections
     * found unaffordable before it are marked as looked at and never routed again.
     * The save after routing is refused exactly when a running node was reopened.
     */
    method ApplyCheckerFeedback() returns (routed: Option<nat>, refused: bool)
      requires InMemory() && OnDisk() && status.Executing?
      modifies this`nodes, this`durable, this`history
      ensures OnDisk() && |nodes| == |old(nodes)| && SameCounters(old(nodes), nodes)
      ensures history == old(history) + if routed.Some? then [Rerouting(routed.value)] else []
      ensures if refused then !Persistable(graph, Current()) else InMemory()
      ensures routed.None? ==> !refused && NoneRoutable(graph, old(nodes), nodes, globalAttempts, |nodes|)
      ensures routed.Some? ==>
                var c := routed.value;
                && c < |nodes| && AwaitsRouting(graph.nodes[c], old(nodes)[c]) && Affordable(graph, old(nodes), globalAttempts, c)
                && Routed(graph, old(nodes), nodes, c)
                && (exists examined :: NoneRoutable(graph, old(nodes), examined, globalAttempts, c))
                && (refused <==> RunningBelow(graph, old(nodes), graph.nodes[c].feedbackTo.value))
                && (!refused ==> durable == Current())
    {
      hide Run.InMemory, Run.OnDisk, Run.Current, RunState.LastIs, RunState.Persistable, ExecutorSteps.RunningBelow, ExecutorSteps.Affordable,
        ExecutorSteps.Routed, ExecutorSteps.Reopening, ExecutorSteps.Examined, ExecutorSteps.Substantive, ExecutorSteps.NoneRoutable;
      MemoryMeaning();
      NoneRoutableBegins(graph, nodes, globalAttempts);
      ghost var start := nodes;
      for c := 0 to |graph.nodes|
        invariant InMemory() && OnDisk() && SameCounters(start, nodes) && history == old(history)
        invariant NoneRoutable(graph, start, nodes, globalAttempts, c)
      {
        ghost var before := nodes;
        if AwaitsRouting(graph.nodes[c], nodes[c]) {
          var affordable, cannotSave := ExamineChecker(c);
          if affordable {
            ExaminedThenRouted(graph, start, before, nodes, globalAttempts, c);
            return Some(c), cannotSave;
          }
        }
        NoneRoutableStep(graph, start, before, nodes, globalAttempts, c);
      }
      routed, refused := None, false;
    }

    method SaveExecuting()
      requires InMemory() && (status.Executing? || status.Blocked?)
      modifies this`durable
      ensures durable == Current() && OnDisk()
    {
      Save();
    }

    /** Once the global cap is reached, nodes that could still have started end or stay reopened. */
    method FinishGlobalLimit()
      requires InMemory()
      modifies this`nodes
      ensures InMemory() && SameCounters(old(nodes), nodes)
      ensures globalAttempts < graph.maxGlobalAttempts ==> nodes == old(nodes)
      ensures globalAttempts >= graph.maxGlobalAttempts ==>
                exists limited: seq<NodeState> ::
                  && |limited| == |old(nodes)|
                  && (forall i | 0 <= i < |limited| :: limited[i] == Exhausted(graph, old(nodes), i))
                  && SkipPass(graph, limited, nodes)
      // what was ready ends, unless it had passed before; everything else is at most skipped
      ensures globalAttempts >= graph.maxGlobalAttempts ==>
                forall i | 0 <= i < |nodes| ::
                  nodes[i] == old(nodes)[i].(status :=
                    if Open(old(nodes)[i]) && DependenciesDone(graph, old(nodes), i) then
                      (if LastIs(old(nodes)[i], AttemptDone) then Pending else Failed)
                    else if Open(old(nodes)[i]) && HasBlockingDependency(graph, nodes, i) then Skipped
                    else old(nodes)[i].status)
    {
      if globalAttempts < graph.maxGlobalAttempts {
        return;
      }
      ghost var start := nodes;
      for n := 0 to |graph.nodes|
        invariant |nodes| == |start|
        invariant forall i | 0 <= i < |nodes| :: nodes[i] == if i < n then Exhausted(graph, start, i) else start[i]
      {
        assert IsReady(graph, nodes, n) <==> IsReady(graph, start, n);
        if IsReady(graph, nodes, n) {
          nodes := nodes[n := nodes[n].(status := if LastIs(nodes[n], AttemptDone) then Pending else Failed)];
        }
      }
      ghost var limited := nodes;
      ExhaustionKeepsConsistency(graph, start, nodes, globalAttempts, dry);
      SkipToFixpoint();
      forall i | 0 <= i < |nodes| {
        LimitEndsReadyNodes(graph, start, limited, nodes, i);
      }
    }

    // -------------------------------------------------------------- waves

    /**
     * The gates checked before any model work: nodes that can still become ready
     * in this invocation. Failed or exhausted branches cannot veto the others.
     */
    method PreflightExecutableNodes() returns (candidates: set<nat>, ghost admitted: set<nat>)
      requires WellFormed(graph) && |nodes| == |graph.nodes|
      ensures Admits(graph, nodes, admitted)
      ensures globalAttempts >= graph.maxGlobalAttempts ==> candidates == {}
      ensures globalAttempts < graph.maxGlobalAttempts ==> candidates == set i | i in admitted && Open(nodes[i])
    {
      var reachable: set<nat> := {};
      candidates := {};
      for n := 0 to |graph.nodes|
        invariant forall i :: i in reachable <==>
                    0 <= i < n && (nodes[i].status.Done? || (Open(nodes[i]) && HasCapacity(graph.nodes[i], nodes[i])
                                                        && forall d | d in graph.nodes[i].dependsOn :: d in reachable))
        invariant candidates == set i | i in reachable && Open(nodes[i])
      {
        if nodes[n].status.Done? {
          reachable := reachable + {n};
        } else if Open(nodes[n]) && nodes[n].currentAttempt < graph.nodes[n].maxAttempts
          && (forall d | d in graph.nodes[n].dependsOn :: d in reachable)
        {
          reachable := reachable + {n};
          candidates := candidates + {n};
        }
      }
      admitted := reachable;
      if globalAttempts >= graph.maxGlobalAttempts {
        candidates := {};
      }
    }

    /** One batch of a wave. */
    method ExecuteSlice(ready: seq<nat>, offset: nat, to: nat, workers: Workers,
                        ghost start: seq<NodeState>, ghost launched: set<nat>, ghost events: seq<Event>)
      returns (lost: bool, granted: nat)
      requires InMemory() && OnDisk() && status.Executing? && offset < to <= |ready|
      requires |start| == |graph.nodes| && ready == ReadyNodes(graph, start)
      requires WaveSoFar(start, nodes, ready, offset, launched, false)
      requires OnlyReservations(events, launched) && Tallied(start, nodes, events)
      requires |nodes| == |graph.nodes| && WaveEnds(graph, dry, start, nodes, ready, offset, workers)
      modifies this`nodes, this`globalAttempts, this`criteria, this`durable, this`history
      ensures InMemory() && OnDisk()
      ensures old(criteria) != [] ==> criteria == old(criteria)
      ensures lost ==> SomeLost(start, nodes, workers)
      ensures |nodes| == |graph.nodes| && (!lost ==> WaveEnds(graph, dry, start, nodes, ready, to, workers))
      ensures granted == Min(to - offset, graph.maxGlobalAttempts - old(globalAttempts)) <= to - offset
      ensures globalAttempts == old(globalAttempts) + granted
      ensures WaveSoFar(start, nodes, ready, to, launched + Members(ready[offset..to][..granted]), lost)
      ensures history == old(history) + ReservationsOf(ready[offset..to][..granted])
      ensures OnlyReservations(events + ReservationsOf(ready[offset..to][..granted]), launched + Members(ready[offset..to][..granted]))
      ensures Tallied(start, nodes, events + ReservationsOf(ready[offset..to][..granted]))
    {
      hide *;
      var batch := ready[offset..to];
      MemoryMeaning();
      LaterBatchIsReady(graph, start, nodes, ready, offset, to, launched);
      ghost var before := nodes;
      lost, granted := ExecuteTallied(batch, workers, start, launched, events);
      TalliedGrows(start, before, events);
      LostLater(start, before, nodes, workers);
      if !lost {
        ReadyAscends(graph, start);
        WaveEndsStep(graph, dry, start, before, nodes, ready, offset, to, granted, launched, workers);
      }
      MemoryMeaning();
      WaveAdvances(start, before, nodes, ready, offset, to, granted, launched, lost);
    }

    /** A batch with its entries in the account of the invocation. */
    method ExecuteTallied(batch: seq<nat>, workers: Workers, ghost start: seq<NodeState>, ghost launched: set<nat>, ghost events: seq<Event>)
      returns (lost: bool, granted: nat)
      requires InMemory() && OnDisk() && status.Executing? && |nodes| == |graph.nodes| && Batch(graph, nodes, batch)
      requires OnlyReservations(events, launched) && Tallied(start, nodes, events)
      modifies this`nodes, this`globalAttempts, this`criteria, this`durable, this`history
      ensures InMemory() && OnDisk()
      ensures old(criteria) != [] ==> criteria == old(criteria)
      ensures granted == Min(|batch|, graph.maxGlobalAttempts - old(globalAttempts)) <= |batch|
      ensures globalAttempts == old(globalAttempts) + granted
      ensures BatchMoved(old(nodes), nodes, batch, granted, lost)
      ensures history == old(history) + ReservationsOf(batch[..granted])
      ensures OnlyReservations(events + ReservationsOf(batch[..granted]), launched + Members(batch[..granted]))
      ensures Tallied(start, nodes, events + ReservationsOf(batch[..granted]))
      ensures lost ==> SomeLost(old(nodes), nodes, workers)
      ensures !lost ==> |nodes| == |graph.nodes| && BatchEnds(graph, dry, old(nodes), nodes, batch, granted, workers)
    {
      hide *;
      ghost var before, criteriaBefore := nodes, criteria;
      lost, granted := ExecuteBatch(batch, workers);
      CriteriaKept(graph, dry, criteriaBefore, criteria, before, workers, Members(batch[..granted]));
      LostInBatch(before, nodes, batch, granted, lost, workers);
      TallyBatch(graph, start, before, nodes, events, batch, granted, lost);
      ReservedWithin(events, batch[..granted], launched);
    }

    /**
     * One wave: the nodes that were ready at its start, in batches. Unless it is
     * cancelled, a wave below the global cap takes at least one attempt.
     */
    method ExecuteWave(ready: seq<nat>, concurrency: nat, workers: Workers, wave: nat, around: Surroundings)
      returns (end: WaveEnd, aborted: bool, launched: set<nat>, ghost reached: nat, ghost events: seq<Event>)
      requires InMemory() && OnDisk() && status.Executing? && concurrency >= 1
      requires ready == ReadyNodes(graph, nodes) && ready != []
      modifies this`nodes, this`globalAttempts, this`criteria, this`status, this`durable, this`history
      ensures InMemory() && OnDisk()
      ensures history == old(history) + events && OnlyReservations(events, launched) && Tallied(old(nodes), nodes, events)
      ensures end.Ended? ==> status.Executing?
      ensures end.PreflightFailed? ==> status.Blocked? && durable == Current()
      ensures aborted ==> StoppedIn(around, wave)
      ensures end.PreflightFailed? ==> GateFails(around, wave)
      ensures end.SaveLost? ==> SomeLost(old(nodes), nodes, workers)
      ensures end.Ended? ==> |nodes| == |graph.nodes| && WaveEnds(graph, dry, old(nodes), nodes, ready, reached, workers)
      ensures end.Ended? && !aborted ==> reached == |ready|
      ensures WaveSoFar(old(nodes), nodes, ready, reached, launched, end.SaveLost?)
      ensures old(criteria) != [] ==> criteria == old(criteria)
      ensures globalAttempts >= old(globalAttempts)
      ensures launched != {} ==> globalAttempts > old(globalAttempts)
      ensures end.Ended? && !aborted && old(globalAttempts) < graph.maxGlobalAttempts ==> globalAttempts > old(globalAttempts)
    {
      hide RunState.NodeAccepted, RunState.DoneClosed, RunState.SkipsJustified, RunState.Schedulable, RunState.TotalAttempts,
        RunState.StatusAccepted, RunState.Persistable, ExecutorSteps.WaveSoFar, ExecutorSteps.Tallied, ExecutorSteps.OnlyReservations,
        ExecutorSteps.ReservationsOf, ExecutorSteps.CriteriaFrom, ExecutorSteps.WaveEnds, ExecutorSteps.SomeLost;
      ghost var start := nodes;
      end, aborted, launched, reached, events := Ended, false, {}, 0, [];
      NothingHappened(nodes);
      var offset := 0;
      WaveBegins(graph, nodes, ready);
      WaveEndsBegins(graph, dry, nodes, ready, workers);
      while offset < |ready|
        invariant 0 <= offset
        invariant InMemory() && OnDisk() && status.Executing?
        invariant old(criteria) != [] ==> criteria == old(criteria)
        invariant reached == Min(offset, |ready|) && WaveSoFar(start, nodes, ready, reached, launched, false)
        invariant history == old(history) + events && OnlyReservations(events, launched) && Tallied(start, nodes, events)
        invariant globalAttempts >= old(globalAttempts)
        invariant launched != {} ==> globalAttempts > old(globalAttempts)
        invariant !aborted
        invariant offset > 0 && old(globalAttempts) < graph.maxGlobalAttempts ==> globalAttempts > old(globalAttempts)
        invariant |nodes| == |graph.nodes| && WaveEnds(graph, dry, start, nodes, ready, reached, workers)
      {
        if around.cancelled(wave, offset) {
          aborted := true;
          return;
        }
        var to := Min(offset + concurrency, |ready|);
        var batch := ready[offset..to];
        if !around.gatesPass(wave, offset) {
          status := Blocked;
          SaveExecuting();
          end := PreflightFailed;
          return;
        }
        var lost, granted := ExecuteSlice(ready, offset, to, workers, start, launched, events);
        launched, reached := launched + Members(batch[..granted]), to;
        events := events + ReservationsOf(batch[..granted]);
        if lost {
          end := SaveLost;
          return;
        }
        offset := offset + concurrency;
      }
    }

    // -------------------------------------------------------------- whole invocations

    /** Preflight, the switch to dry mode and the first save of an invocation. */
    method BeginRun(options: Options) returns (accepted: bool, candidates: set<nat>, ghost admitted: set<nat>)
      requires InMemory() && OnDisk()
      modifies this`status, this`dry, this`durable
      ensures OnDisk() && dry == (old(dry) || options.dry)
      ensures accepted <==> !dry || NoGateFailure(nodes)
      ensures accepted ==> InMemory() && status.Executing? && durable == Current()
      ensures accepted ==> Tracked(nodes, nodes, admitted, false)
      ensures !accepted ==> durable == old(durable)
      ensures globalAttempts <= graph.maxGlobalAttempts
      ensures Admits(graph, nodes, admitted)
      ensures candidates == if globalAttempts >= graph.maxGlobalAttempts then {} else set i | i in admitted && Open(nodes[i])
    {
      hide RunState.NodeAccepted, RunState.TotalAttempts, ExecutorSteps.NoGateFailure, ExecutorSteps.Tracked;
      candidates, admitted := PreflightExecutableNodes();
      DrySwitchAccepted(graph, nodes, globalAttempts, dry);
      TrackedBegins(graph, nodes, admitted);
      status := Executing;
      dry := dry || options.dry;
      accepted := !dry || NoGateFailure(nodes);
      if accepted {
        Save();
      }
    }

    /** Applies the global limit, saves, and keeps track of what the invocation did. */
    method EndWave(ghost start: seq<NodeState>, ghost admitted: set<nat>, ghost routed: bool)
      requires InMemory() && status.Executing? && Tracked(start, nodes, admitted, routed)
      modifies this`nodes, this`durable
      ensures InMemory() && OnDisk() && durable == Current() && Tracked(start, nodes, admitted, routed)
      ensures AllTerminal(old(nodes)) ==> AllTerminal(nodes)
      ensures globalAttempts < graph.maxGlobalAttempts ==> nodes == old(nodes)
      ensures |nodes| == |graph.nodes| && (globalAttempts >= graph.maxGlobalAttempts ==> LimitApplied(graph, nodes))
      ensures SameCounters(old(nodes), nodes)
    {
      hide RunState.NodeAccepted, RunState.DoneClosed, RunState.SkipsJustified, RunState.TotalAttempts, ExecutorSteps.Tracked, ExecutorSteps.LimitApplied;
      ghost var before := nodes;
      FinishGlobalLimit();
      if globalAttempts >= graph.maxGlobalAttempts {
        ghost var limited :| |limited| == |before| && (forall i | 0 <= i < |limited| :: limited[i] == Exhausted(graph, before, i))
          && SkipPass(graph, limited, nodes);
        ExhaustedIsLimited(graph, before, limited, nodes);
        TrackedByLimit(graph, start, before, limited, nodes, admitted, routed);
      }
      SaveExecuting();
    }

    /** One iteration of the wave loop, from a table with nothing left to skip. */
    method StepWave(concurrency: nat, workers: Workers, wave: nat, around: Surroundings, routedBefore: bool,
                    ghost start: seq<NodeState>, ghost admitted: set<nat>)
      returns (end: RunEnd, aborted: bool, inWave: set<nat>, routed: bool, ghost events: seq<Event>, ghost route: Option<nat>,
               ghost midway: seq<NodeState>)
      requires InMemory() && OnDisk() && status.Executing? && concurrency >= 1
      requires |start| == |graph.nodes| && Admits(graph, start, admitted) && Tracked(start, nodes, admitted, routedBefore)
      requires ReadyNodes(graph, nodes) != []
      modifies this
      ensures OnDisk()
      ensures end.Finished? || end.FeedbackRefused? || end.Interrupted?
      ensures end.Finished? ==> InMemory() && status.Executing? && durable == Current()
      ensures end.Finished? ==> Tracked(start, nodes, admitted, routed)
      ensures end.FeedbackRefused? ==> SomeRunning(start)
      ensures OnlyReservations(events, inWave)
      ensures history == old(history) + (events + if route.Some? then [Rerouting(route.value)] else [])
      ensures Tallied(old(nodes), nodes, events + if route.Some? then [Rerouting(route.value)] else [])
      ensures routed <==> routedBefore || route.Some?
      ensures globalAttempts >= old(globalAttempts)
      ensures old(criteria) != [] ==> criteria == old(criteria)
      ensures routedBefore ==> routed
      ensures !routedBefore ==> forall i | i in inWave :: i in admitted && i < |start| && Open(start[i])
      ensures inWave != {} ==> old(globalAttempts) < graph.maxGlobalAttempts
      ensures aborted ==> StoppedIn(around, wave)
      ensures end.Interrupted? ==> SomeLost(old(nodes), nodes, workers) || GateFails(around, wave)
      // the wave leads to `midway`, and the feedback is applied to that
      ensures |midway| == |graph.nodes|
      ensures !end.Interrupted? && !aborted ==> WaveEnds(graph, dry, old(nodes), midway, ReadyNodes(graph, old(nodes)), |ReadyNodes(graph, old(nodes))|, workers)
      ensures !end.Interrupted? && route.Some? ==>
                && route.value < |midway| && AwaitsRouting(graph.nodes[route.value], midway[route.value])
                && Affordable(graph, midway, globalAttempts, route.value) && Routed(graph, midway, nodes, route.value)
                && (end.FeedbackRefused? <==> RunningBelow(graph, midway, graph.nodes[route.value].feedbackTo.value))
      ensures end.Finished? && route.None? && globalAttempts < graph.maxGlobalAttempts ==>
                NoneRoutable(graph, midway, nodes, globalAttempts, |nodes|) && FeedbackDone(graph, nodes)
      ensures end.Finished? && globalAttempts >= graph.maxGlobalAttempts ==> |nodes| == |graph.nodes| && LimitApplied(graph, nodes)
      ensures end.Finished? && !aborted && old(globalAttempts) < graph.maxGlobalAttempts ==> globalAttempts > old(globalAttempts)
    {
      hide RunState.NodeAccepted, RunState.DoneClosed, RunState.SkipsJustified, RunState.TotalAttempts,
        RunState.Persistable, ExecutorSteps.WaveSoFar, ExecutorSteps.Admits, ExecutorSteps.Tallied, ExecutorSteps.OnlyReservations,
        ExecutorSteps.SameCounters, ExecutorSteps.Tracked, ExecutorSteps.NoneRoutable, RunState.StatusAccepted, Graph.IsReady, Graph.ReadyNodes,
        ExecutorSteps.WaveEnds, ExecutorSteps.SomeLost, ExecutorSteps.FeedbackDone, ExecutorSteps.LimitApplied, ExecutorSteps.Routed,
        ExecutorSteps.Affordable, ExecutorSteps.RunningBelow;
      ghost var before := nodes;
      var ready := ReadyNodes(graph, nodes);
      var waveEnd, waveAborted, launched, reached, waveEvents := ExecuteWave(ready, concurrency, workers, wave, around);
      midway := nodes;
      aborted, inWave, routed := waveAborted, launched, routedBefore;
      events, route := waveEvents, None;
      assert events + [] == events;
      InWaveIsAdmitted(graph, start, before, nodes, ready, reached, admitted, inWave, routedBefore, waveEnd.SaveLost?);
      if !waveEnd.Ended? {
        end := Interrupted;
        return;
      }
      TrackedByWave(graph, start, before, nodes, ready, reached, admitted, inWave, routedBefore);
      ghost var beforeRouting := nodes;
      var checker, refused := ApplyCheckerFeedback();
      TallyCounters(before, beforeRouting, nodes, events);
      if checker.Some? {
        TallyRouting(before, nodes, events, checker.value);
      }
      route := checker;
      if refused {
        RefusedMeansStale(graph, start, beforeRouting, admitted, routed, graph.nodes[checker.value].feedbackTo.value);
        end, routed := FeedbackRefused, true;
        return;
      }
      ghost var afterRouting := nodes;
      if checker.Some? {
        AffordableBelowCap(graph, beforeRouting, globalAttempts, checker.value);
        TrackedByRouting(graph, start, beforeRouting, nodes, admitted, routed, checker.value);
        routed := true;
      } else {
        AllExamined(graph, beforeRouting, nodes, globalAttempts);
        TrackedByExamination(graph, start, beforeRouting, nodes, globalAttempts, admitted, routed);
      }
      EndWave(start, admitted, routed);
      TallyCounters(before, afterRouting, nodes, events + if route.Some? then [Rerouting(route.value)] else []);
      end := Finished;
    }

    static lemma StopsLater(around: Surroundings, wave: nat)
      ensures StoppedBy(around, wave) ==> StoppedBy(around, wave + 1)
      ensures StoppedIn(around, wave) ==> StoppedBy(around, wave + 1)
      ensures around.stopped(wave) ==> StoppedBy(around, wave)
      ensures GateFails(around, wave) ==> SomeGateFails(around, wave + 1)
    {
    }

    /** The status that the nodes call for. */
    method SaveVerdict()
      requires InMemory() && status.Executing?
      modifies this`status, this`durable
      ensures InMemory() && OnDisk() && durable == Current()
      ensures status.Completed? <==> forall i | 0 <= i < |nodes| :: nodes[i].status.Done?
      ensures status.Unsuccessful? <==> AllTerminal(nodes) && AnyFailed(nodes)
      ensures status.Completed? || status.Unsuccessful? || status.Blocked?
      ensures AllTerminal(nodes) ==> !status.Blocked?
    {
      hide RunState.NodeAccepted, RunState.DoneClosed, RunState.TotalAttempts, RunState.SkipsJustified, RunState.Schedulable;
      if AllTerminal(nodes) {
        TerminalWithoutFailureIsDone(graph, nodes);
        status := if AnyFailed(nodes) then Unsuccessful else Completed;
      } else {
        status := Blocked;
      }
      Save();
    }

    /** The final status of an invocation whose waves are over. */
    method ConcludeRun(ghost start: seq<NodeState>, ghost admitted: set<nat>, ghost routed: bool)
      requires InMemory() && status.Executing? && Tracked(start, nodes, admitted, routed)
      modifies this`nodes, this`status, this`durable
      ensures InMemory() && OnDisk() && durable == Current() && Tracked(start, nodes, admitted, routed)
      ensures status.Completed? <==> forall i | 0 <= i < |nodes| :: nodes[i].status.Done?
      ensures status.Unsuccessful? <==> AllTerminal(nodes) && AnyFailed(nodes)
      ensures status.Completed? || status.Unsuccessful? || status.Blocked?
      ensures old(AllTerminal(nodes)) ==> !status.Blocked?
      ensures FeedbackDone(graph, old(nodes)) && globalAttempts < graph.maxGlobalAttempts ==> FeedbackDone(graph, nodes)
      ensures |nodes| == |graph.nodes| && (globalAttempts >= graph.maxGlobalAttempts ==> LimitApplied(graph, nodes))
      ensures SameCounters(old(nodes), nodes)
    {
      hide RunState.NodeAccepted, RunState.DoneClosed, RunState.TotalAttempts, ExecutorSteps.Tracked, ExecutorSteps.FeedbackDone, ExecutorSteps.LimitApplied,
        RunState.SkipsJustified, RunState.Schedulable;
      ghost var last := nodes;
      SkipToFixpoint();
      if FeedbackDone(graph, last) {
        SkippingKeepsFeedback(graph, last, nodes);
      }
      TrackedByStatuses(start, last, nodes, admitted, routed);
      EndWave(start, admitted, routed);
      SaveVerdict();
    }

    /** The wave loop, from the table an invocation starts with. */
    method ExecuteWaves(maxWaves: nat, concurrency: nat, workers: Workers, around: Surroundings, ghost candidates: set<nat>, ghost admitted: set<nat>)
      returns (end: RunEnd, waves: nat, aborted: bool, routed: bool, ghost events: seq<Event>)
      requires InMemory() && OnDisk() && status.Executing? && concurrency >= 1
      requires |nodes| == |graph.nodes| && Admits(graph, nodes, admitted) && Tracked(nodes, nodes, admitted, false)
      requires candidates == if globalAttempts >= graph.maxGlobalAttempts then {} else set i | i in admitted && Open(nodes[i])
      modifies this
      ensures OnDisk()
      ensures old(criteria) != [] ==> criteria == old(criteria)
      ensures end.Finished? || end.FeedbackRefused? || end.Interrupted?
      ensures end.Finished? ==> InMemory() && status.Executing? && Tracked(old(nodes), nodes, admitted, routed)
      ensures end.Finished? ==>
                || AllTerminal(nodes) || aborted || waves == maxWaves || globalAttempts >= graph.maxGlobalAttempts
                || SomeRunning(old(nodes))
      ensures end.FeedbackRefused? ==> SomeRunning(old(nodes))
      ensures aborted ==> StoppedBy(around, waves)
      ensures end.Interrupted? ==> SomeLost(old(nodes), nodes, workers) || SomeGateFails(around, waves)
      ensures end.Finished? && waves > 0 && !routed && globalAttempts < graph.maxGlobalAttempts ==> FeedbackDone(graph, nodes)
      ensures waves <= maxWaves && waves <= graph.maxGlobalAttempts - old(globalAttempts) + 1
      ensures history == old(history) + events && Account(old(nodes), nodes, events, candidates, routed)
    {
      hide RunState.NodeAccepted, RunState.DoneClosed, RunState.SkipsJustified, RunState.TotalAttempts, RunState.Schedulable,
        RunState.Persistable, ExecutorSteps.Admits, Graph.AllTerminal, ExecutorSteps.Tracked, ExecutorSteps.Account,
        ExecutorSteps.Tallied, ExecutorSteps.OnlyReservations, ExecutorSteps.SameCounters, RunState.StatusAccepted, ExecutorSteps.FeedbackDone,
        ExecutorSteps.CountersGrow, ExecutorSteps.SomeLost, ExecutorSteps.LimitApplied, StoppedBy, SomeGateFails, ExecutorSteps.Routed,
        ExecutorSteps.Affordable, ExecutorSteps.NoneRoutable, ExecutorSteps.WaveEnds, ExecutorSteps.RunningBelow, ExecutorSteps.AwaitsRouting,
        Graph.SkipPass, Graph.IsReady, ExecutorSteps.SomeRunning;
      ghost var start := nodes;
      end, waves, aborted, routed, events := Finished, 0, false, false, [];
      AccountBegins(nodes, candidates);
      GrowthJoins(start, start, start);
      while waves < maxWaves && !AllTerminal(nodes)
        invariant InMemory() && OnDisk() && status.Executing? && end.Finished?
        invariant old(criteria) != [] ==> criteria == old(criteria)
        invariant waves <= maxWaves
        invariant aborted ==> StoppedBy(around, waves)
        invariant CountersGrow(start, nodes)
        invariant waves > 0 && !routed && globalAttempts < graph.maxGlobalAttempts ==> FeedbackDone(graph, nodes)
        invariant waves <= globalAttempts - old(globalAttempts) + (if aborted then 1 else 0)
        invariant Tracked(start, nodes, admitted, routed)
        invariant history == old(history) + events && Account(start, nodes, events, candidates, routed)
        decreases maxWaves - waves
      {
        StopsLater(around, waves);
        if aborted || around.stopped(waves) {
          aborted := true;
          break;
        }
        ghost var before := nodes;
        SkipToFixpoint();
        SkippingIsTracked(graph, start, before, nodes, admitted, routed);
        AccountKept(start, before, nodes, events, candidates, routed);
        if FeedbackDone(graph, before) {
          SkippingKeepsFeedback(graph, before, nodes);
        }
        SkippingKeepsCounters(graph, before, nodes);
        GrowthJoins(start, before, nodes);
        if AllTerminal(nodes) {
          break;
        }
        if ReadyNodes(graph, nodes) == [] {
          NothingReady(graph, before, nodes, start, admitted, routed);
          break;
        }
        assert globalAttempts <= graph.maxGlobalAttempts;
        waves := waves + 1;
        ghost var beforeStep := nodes;
        var stepAborted, inWave, routedNow;
        ghost var waveEvents, route, midway;
        end, stepAborted, inWave, routedNow, waveEvents, route, midway := StepWave(concurrency, workers, waves - 1, around, routed, start, admitted);
        LostLater(start, beforeStep, nodes, workers);
        StopsLater(around, waves - 1);
        TalliedGrows(beforeStep, nodes, waveEvents + if route.Some? then [Rerouting(route.value)] else []);
        GrowthJoins(start, beforeStep, nodes);
        aborted := stepAborted;
        AccountStep(start, beforeStep, nodes, events, waveEvents, route, inWave, candidates, routed);
        events := events + (waveEvents + if route.Some? then [Rerouting(route.value)] else []);
        routed := routedNow;
        if !end.Finished? {
          return;
        }
        if globalAttempts >= graph.maxGlobalAttempts {
          break;
        }
      }
    }

    /**
     * Topological waves until the run ends, is cancelled, hits the global cap or
     * uses up its waves.
     */
    method ExecuteRun(options: Options, workers: Workers, around: Surroundings)
      returns (end: RunEnd, waves: nat, aborted: bool, candidates: set<nat>, routed: bool, ghost admitted: set<nat>,
               ghost events: seq<Event>)
      requires InMemory() && OnDisk()
      modifies this
      ensures OnDisk()
      ensures old(criteria) != [] ==> criteria == old(criteria)
      // the first save is refused exactly when a dry invocation meets a recorded live gate failure
      ensures end.Refused? <==> (old(dry) || options.dry) && !NoGateFailure(old(nodes))
      ensures end.Refused? ==> durable == old(durable)
      // reopening under a stale running node is the only other refused save
      ensures end.FeedbackRefused? ==> exists i | 0 <= i < |old(nodes)| :: old(nodes)[i].status.Running?
      // a finished invocation reports the truth about its nodes
      ensures end.Finished? ==> InMemory() && durable == Current()
      ensures end.Finished? ==> (status.Completed? <==> forall i | 0 <= i < |nodes| :: nodes[i].status.Done?)
      ensures end.Finished? ==> (status.Unsuccessful? <==> AllTerminal(nodes) && AnyFailed(nodes))
      ensures end.Finished? ==> status.Completed? || status.Unsuccessful? || status.Blocked?
      // it ends early only when an attempt it granted lost its save, or the gates of a batch failed
      ensures aborted ==> StoppedBy(around, waves)
      ensures end.Interrupted? ==> SomeLost(old(nodes), nodes, workers) || SomeGateFails(around, waves)
      // left alone, and with waves and attempts to spare, it runs to the end
      ensures && !end.Refused? && !SomeLost(old(nodes), nodes, workers) && !SomeGateFails(around, waves) && !StoppedBy(around, waves)
              && (forall i | 0 <= i < |old(nodes)| :: !old(nodes)[i].status.Running?)
              && waves < Clamp(options.maxWaves.UnwrapOr(128), 1, 1000) && globalAttempts < graph.maxGlobalAttempts ==>
                end.Finished? && (status.Completed? || status.Unsuccessful?)
      // feedback and the global limit are not skipped
      ensures end.Finished? && waves > 0 && !routed && globalAttempts < graph.maxGlobalAttempts ==> FeedbackDone(graph, nodes)
      ensures end.Finished? && globalAttempts >= graph.maxGlobalAttempts ==> |nodes| == |graph.nodes| && LimitApplied(graph, nodes)
      ensures end.Finished? && status.Blocked? ==>
                || aborted
                || waves == Clamp(options.maxWaves.UnwrapOr(128), 1, 1000)
                || globalAttempts >= graph.maxGlobalAttempts
                || exists i | 0 <= i < |old(nodes)| :: old(nodes)[i].status.Running?
      // waves are bounded by the remaining budget, with or without a wave limit
      ensures waves <= graph.maxGlobalAttempts - old(globalAttempts) + 1
      ensures waves <= Clamp(options.maxWaves.UnwrapOr(128), 1, 1000)
      // preflight covers every node that gets an attempt before the first routing
      ensures Admits(graph, old(nodes), admitted)
      ensures candidates == if old(globalAttempts) >= graph.maxGlobalAttempts then {} else set i | i in admitted && Open(old(nodes)[i])
      // however the invocation ends: its events account for every attempt of every node,
      // and each node reserved before the first routing was a candidate
      ensures history == old(history) + events && Tallied(old(nodes), nodes, events)
      ensures routed <==> HasRouting(events)
      ensures CoveredByPreflight(events, candidates)
    {
      hide RunState.NodeAccepted, RunState.DoneClosed, RunState.SkipsJustified, RunState.TotalAttempts, RunState.Schedulable,
        RunState.Persistable, ExecutorSteps.Admits, ExecutorSteps.NoGateFailure, Graph.AllTerminal, ExecutorSteps.Tracked, ExecutorSteps.Account,
        ExecutorSteps.Tallied, ExecutorSteps.CoveredByPreflight, ExecutorSteps.HasRouting, ExecutorSteps.OnlyReservations,
        ExecutorSteps.SameCounters, RunState.StatusAccepted, ExecutorSteps.FeedbackDone, ExecutorSteps.SomeLost, ExecutorSteps.LimitApplied,
        StoppedBy, SomeGateFails;
      ghost var start := nodes;
      end, waves, aborted, routed, events := Finished, 0, false, false, [];
      var accepted;
      accepted, candidates, admitted := BeginRun(options);
      AccountBegins(nodes, candidates);
      if !accepted {
        end := Refused;
        AccountMeaning(start, nodes, events, candidates, routed);
        return;
      }
      var maxWaves := Clamp(options.maxWaves.UnwrapOr(128), 1, 1000);
      var concurrency := Clamp(Min(options.maxConcurrency.UnwrapOr(graph.maxConcurrency), graph.maxConcurrency), 1, 8);
      end, waves, aborted, routed, events := ExecuteWaves(maxWaves, concurrency, workers, around, candidates, admitted);
      if end.Finished? {
        ghost var last := nodes;
        ConcludeRun(start, admitted, routed);
        AccountKept(start, last, nodes, events, candidates, routed);
      }
      AccountMeaning(start, nodes, events, candidates, routed);
    }

    // -------------------------------------------------------------- resume and close

    /** Turns interrupted attempts into failures and reopens what still has capacity. */
    method PrepareForResume() returns (reopened: bool)
      requires InMemory() && StatusAccepted(Current())
      modifies this`nodes, this`status
      ensures InMemory() && StatusAccepted(Current())
      ensures ResumedAll(graph, old(nodes), nodes)
      ensures reopened <==> exists i | 0 <= i < |old(nodes)| :: Reopens(graph.nodes[i], old(nodes)[i])
      ensures status == if reopened then Blocked else old(status)
    {
      hide RunState.NodeAccepted, RunState.DoneClosed, RunState.SkipsJustified, RunState.Schedulable, RunState.TotalAttempts;
      ghost var start, before := nodes, Current();
      reopened := false;
      for n := 0 to |graph.nodes|
        invariant |nodes| == |start|
        invariant forall i | 0 <= i < |nodes| :: nodes[i] == if i < n then Resumed(graph.nodes[i], start[i]) else start[i]
        invariant reopened <==> exists i | 0 <= i < n :: Reopens(graph.nodes[i], start[i])
        invariant status == old(status)
      {
        var def, s := graph.nodes[n], nodes[n];
        if s.status.Running? {
          if LastIs(s, AttemptRunning) {
            s := WithLast(s, Last(s).(status := AttemptFailed, schemaOk := false));
          }
          s := s.(status := if s.currentAttempt < def.maxAttempts then Pending else Failed);
          reopened := reopened || s.status.Pending?;
        } else if (s.status.Failed? && s.currentAttempt < def.maxAttempts) || s.status.Skipped? {
          s := s.(status := Pending);
          reopened := true;
        }
        nodes := nodes[n := s];
      }
      ResumeKeepsConsistency(graph, start, nodes, globalAttempts, dry);
      if reopened {
        status := Blocked;
      } else {
        assert Current().(nodes := start) == before;
        UnreopenedStatus(graph, start, nodes, Current());
      }
    }

    /**
     * Ends a run. When it succeeds every node is terminal, at least one failed,
     * and nothing that had finished changed; whether the store then accepts the
     * result depends on stranded nodes alone.
     */
    method CloseRun() returns (ok: bool, ghost resumed: seq<NodeState>)
      requires InMemory() && StatusAccepted(Current())
      modifies this`nodes, this`status
      ensures old(status).Completed? || old(status).Unsuccessful? ==> !ok && nodes == old(nodes) && status == old(status)
      ensures !(old(status).Completed? || old(status).Unsuccessful?) ==>
                && ResumedAll(graph, old(nodes), resumed)
                && ClosedAll(resumed, nodes)
                && (ok <==> AnyFailed(nodes))
      ensures ok ==>
                && status.Unsuccessful? && AllTerminal(nodes) && Schedulable(graph, nodes)
                && (forall i | 0 <= i < |nodes| :: nodes[i].currentAttempt == old(nodes)[i].currentAttempt)
                && (forall i | 0 <= i < |nodes| :: old(nodes)[i].status.Done? ==> nodes[i] == old(nodes)[i])
                && (Persistable(graph, Current()) <==> forall i | 0 <= i < |nodes| :: !Stranded(graph, resumed, i))
    {
      hide RunState.NodeAccepted, RunState.DoneClosed, RunState.SkipsJustified, RunState.Schedulable, RunState.TotalAttempts, ExecutorSteps.Stranded;
      resumed := nodes;
      if status.Completed? || status.Unsuccessful? {
        return false, resumed;
      }
      var reopened := PrepareForResume();
      ghost var start := old(nodes);
      resumed := nodes;
      ResumeKeepsConsistency(graph, start, resumed, globalAttempts, dry);
      var failed := AnyFailed(nodes);
      for n := 0 to |graph.nodes|
        invariant |nodes| == |resumed|
        invariant forall i | 0 <= i < |nodes| :: nodes[i] == if i < n then Closed(resumed[i]) else resumed[i]
        invariant failed <==> AnyFailed(nodes)
      {
        var s := nodes[n];
        if !(s.status.Done? || s.status.Failed? || s.status.Skipped?) {
          var passedBefore := LastIs(s, AttemptDone);
          ghost var before := nodes;
          nodes := nodes[n := s.(status := if passedBefore then Skipped else Failed)];
          OneNodeClosed(before, nodes, n);
          failed := failed || !passedBefore;
        }
      }
      if !failed {
        return false, resumed;
      }
      ClosePersistable(graph, resumed, nodes, globalAttempts, dry);
      ClosedSchedulable(graph, resumed, nodes);
      status := Unsuccessful;
      ok := true;
    }

    static lemma OneNodeClosed(a: seq<NodeState>, b: seq<NodeState>, n: nat)
      requires n < |a| && !a[n].status.Failed? && |b| == |a| && b == a[n := b[n]]
      ensures AnyFailed(b) <==> AnyFailed(a) || b[n].status.Failed?
    {
      if i :| 0 <= i < |a| && a[i].status.Failed? {
        assert b[i].status.Failed?;
      }
    }

    /**
     * Any sequence of invocations, each in a process of its own that starts from
     * what the store holds. The store never holds anything it would refuse to load.
     */
    method Lifecycle(operations: seq<Operation>)
      requires OnDisk()
      modifies this
      ensures OnDisk()
    {
      for k := 0 to |operations|
        invariant OnDisk()
      {
        Reload();
        match operations[k] {
          case Execute(options, workers, around) =>
            var end, waves, aborted, candidates, routed, admitted, events := ExecuteRun(options, workers, around);
          case Resume(options, workers, around) =>
            var reopened := PrepareForResume();
            var end, waves, aborted, candidates, routed, admitted, events := ExecuteRun(options, workers, around);
          case Close =>
            var ok, resumed := CloseRun();
            if ok && Persistable(graph, Current()) {
              Save();
            }
        }
      }
    }
  }

  /** A run as a dead process left it in the store. */
  method InterruptedRun() returns (run: Run)
    ensures fresh(run) && run.graph == SharedTarget() && run.nodes == InterruptedNodes() && run.globalAttempts == 3
    ensures run.InMemory() && run.OnDisk() && run.durable == run.Current() && run.status.Executing? && !run.dry && run.history == []
  {
    hide RunState.Persistable, RunState.Consistent, RunState.Schedulable, SharedTarget, InterruptedNodes, NoGateFailure;
    InterruptedIsConsistent();
    run := new Run(SharedTarget(), false, []);
    run.nodes, run.globalAttempts, run.status := InterruptedNodes(), 3, Executing;
    run.durable := run.Current();
  }

  /**
   * An invocation on what a dead process left: the one ready node is executed, however
   * its worker fares, the waiting rejection is routed over the node that was left
   * running, and the store refuses the save.
   */
  method StaleRunningNodeBlocksRouting(workers: Workers) returns (run: Run, ready: seq<nat>, routed: Option<nat>, refused: bool)
    requires !workers(3, 1).Loses()
    ensures fresh(run) && run.graph == SharedTarget() && ready == ReadyNodes(SharedTarget(), InterruptedNodes()) == [3]
    ensures routed == Some(1) && refused && run.history == [Reservation(3), Rerouting(1)]
    ensures run.OnDisk() && !Persistable(run.graph, run.Current())
  {
    hide Run.InMemory, Run.OnDisk, Run.Current, SharedTarget, InterruptedNodes, ReadyNodes, ExecutorSteps.Batch, ExecutorSteps.BatchMoved,
      ExecutorSteps.Affordable, ExecutorSteps.AwaitsRouting, ExecutorSteps.RunningBelow, ExecutorSteps.Admits, ExecutorSteps.Tracked,
      ExecutorSteps.NoGateFailure, ExecutorSteps.CriteriaFrom, ExecutorSteps.BatchMember, ExecutorSteps.Routed;
    run := InterruptedRun();
    InterruptedIsReady();
    var accepted, candidates;
    ghost var admitted;
    accepted, candidates, admitted := run.BeginRun(Options(false, None, None));
    ready := ReadyNodes(run.graph, run.nodes);
    ghost var start := run.nodes;
    var lost, granted := run.ExecuteBatch(ready, workers);
    InterruptedWouldRoute(run.nodes, granted, lost);
    routed, refused := run.ApplyCheckerFeedback();
  }
}
