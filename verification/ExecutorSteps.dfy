/**
 * What each step of the executor does to a whole run, as relations between node
 * tables, and why every step keeps the run consistent.
 */
module ExecutorSteps {
  import opened Wrappers
  import opened RunState
  import opened Graph
  import opened Attempts

  /**
   * The order rules survive every change that leaves each ended node and its
   * dependencies as they were, or ends a dependency without success.
   */
  lemma OrderKept(g: GraphDef, a: seq<NodeState>, b: seq<NodeState>)
    requires |a| == |g.nodes| && |b| == |a| && DoneClosed(g, a) && SkipsJustified(g, a)
    requires forall i: nat, d | i < |b| && d in g.nodes[i].dependsOn && d < |b| ::
               && (b[i].status.Done? ==> a[i].status.Done? && (a[d].status.Done? ==> b[d].status.Done?))
               && (b[i].status.Skipped? ==> a[i].status.Skipped? && (Blocking(a[d]) ==> Blocking(b[d])))
    requires forall i | 0 <= i < |b| :: b[i].status.Skipped? ==> a[i].status.Skipped?
    requires forall i | 0 <= i < |b| :: b[i].status.Done? ==> a[i].status.Done?
    ensures DoneClosed(g, b) && SkipsJustified(g, b)
  {
  }

  /** The records and counters of a run in which only statuses changed. */
  lemma StatusesChanged(g: GraphDef, a: seq<NodeState>, b: seq<NodeState>, dry: bool)
    requires |a| == |g.nodes| && |b| == |a|
    requires forall i | 0 <= i < |a| :: NodeAccepted(g.nodes[i], dry, a[i])
    requires forall i | 0 <= i < |a| :: b[i] == a[i].(status := b[i].status)
    requires forall i | 0 <= i < |a| && b[i] != a[i] ::
               && !a[i].status.Running? && !b[i].status.Running? && !b[i].status.Done?
               && (b[i].status.Failed? ==> !LastIs(a[i], AttemptDone))
    ensures forall i | 0 <= i < |b| :: NodeAccepted(g.nodes[i], dry, b[i])
    ensures TotalAttempts(b) == TotalAttempts(a)
  {
    TotalDependsOnCountersOnly(a, b);
    forall i | 0 <= i < |b| ensures NodeAccepted(g.nodes[i], dry, b[i]) {
      if b[i] != a[i] {
        OpenNodeEndedAttempts(g.nodes[i], dry, a[i]);
        StatusChangeAccepted(g.nodes[i], dry, a[i], b[i].status);
      }
    }
  }

  lemma OpenNodeEndedAttempts(def: NodeDef, dry: bool, s: NodeState)
    requires NodeAccepted(def, dry, s) && !s.status.Running?
    ensures s.attempts == [] || LastIs(s, AttemptDone) || LastIs(s, AttemptFailed)
  {
  }

  // ---------------------------------------------------------------- batches

  /** How each attempt of each node settles. */
  type Workers = (nat, nat) -> Settlement

  function Members(batch: seq<nat>): (members: set<nat>)
    ensures forall i :: i in members <==> i in batch
  {
    set i | i in batch
  }

  /** Distinct ready nodes with capacity, in graph order. */
  ghost predicate Batch(g: GraphDef, nodes: seq<NodeState>, batch: seq<nat>)
    requires |nodes| == |g.nodes|
  {
    && (forall p | 0 <= p < |batch| :: batch[p] < |nodes| && IsReady(g, nodes, batch[p]) && HasCapacity(g.nodes[batch[p]], nodes[batch[p]]))
    && (forall p, q | 0 <= p < q < |batch| :: batch[p] < batch[q])
  }

  /** Nodes outside the batch are as before. */
  ghost predicate Untouched(before: seq<NodeState>, after: seq<NodeState>, batch: seq<nat>) {
    |after| == |before| && forall i: nat | i < |before| && i !in batch :: after[i] == before[i]
  }

  /** What a batch does to the table, whatever its outcomes: the first `granted` members got one attempt each. */
  ghost predicate BatchMoved(before: seq<NodeState>, after: seq<NodeState>, batch: seq<nat>, granted: nat, lost: bool) {
    && granted <= |batch| && Untouched(before, after, batch)
    && forall p | 0 <= p < |batch| ::
         && batch[p] < |before|
         && !after[batch[p]].status.Skipped?
         && (after[batch[p]].status.Running? ==> lost)
         && after[batch[p]].currentAttempt == before[batch[p]].currentAttempt + (if p < granted then 1 else 0)
  }

  lemma BatchMovedFacts(g: GraphDef, before: seq<NodeState>, after: seq<NodeState>, batch: seq<nat>, granted: nat, lost: bool)
    requires |before| == |g.nodes| && Batch(g, before, batch) && granted <= |batch| && Untouched(before, after, batch)
    requires forall p | 0 <= p < |batch| ::
               && batch[p] < |after| && !after[batch[p]].status.Skipped?
               && after[batch[p]].currentAttempt == before[batch[p]].currentAttempt + (if p < granted then 1 else 0)
    requires !lost ==> forall p | 0 <= p < |batch| :: batch[p] < |after| && !after[batch[p]].status.Running?
    ensures BatchMoved(before, after, batch, granted, lost)
  {
  }

  /** A record a ready node may take while its batch runs. */
  predicate BatchRecord(def: NodeDef, dry: bool, s: NodeState) {
    NodeAccepted(def, dry, s) && !s.status.Skipped? && (Open(s) ==> HasCapacity(def, s))
  }

  /** A batch member after its worker settled the way `workers` says. */
  function BatchMember(def: NodeDef, dry: bool, s: NodeState, i: nat, granted: bool, workers: Workers): NodeState
    requires HasCapacity(def, s)
  {
    var r := Reserved(def, s, granted);
    if granted then Settled(def, dry, r, workers(i, r.currentAttempt)) else r
  }

  /**
   * What a batch comes to, node by node: a granted one ends as its worker's settlement and its
   * counter say, with the report on record; one the global budget did not reach ends as failed,
   * or stays open when an earlier attempt of it had passed.
   */
  ghost predicate BatchEnds(g: GraphDef, dry: bool, before: seq<NodeState>, after: seq<NodeState>, batch: seq<nat>, granted: nat, workers: Workers)
    requires |before| == |after| == |g.nodes|
  {
    forall p | 0 <= p < |batch| && batch[p] < |before| ::
      var def, s, t := g.nodes[batch[p]], before[batch[p]], after[batch[p]];
      var settlement := workers(batch[p], s.currentAttempt + 1);
      if p < granted then
        && EndsAs(def, dry, s.currentAttempt + 1, settlement, t.status)
        && |t.attempts| == |s.attempts| + 1 && t.attempts[..|s.attempts|] == s.attempts
        && (settlement.Delivered() ==> Records(def, dry, settlement.report, Last(t)))
      else
        t.attempts == s.attempts && t.status == if LastIs(s, AttemptDone) then Pending else Failed
  }

  lemma MemberEnds(def: NodeDef, dry: bool, s: NodeState, i: nat, granted: bool, workers: Workers)
    requires HasCapacity(def, s)
    ensures var settlement, t := workers(i, s.currentAttempt + 1), BatchMember(def, dry, s, i, granted, workers);
            if granted then
              && EndsAs(def, dry, s.currentAttempt + 1, settlement, t.status)
              && |t.attempts| == |s.attempts| + 1 && t.attempts[..|s.attempts|] == s.attempts
              && (settlement.Delivered() ==> Records(def, dry, settlement.report, Last(t)))
            else
              t.attempts == s.attempts && t.status == if LastIs(s, AttemptDone) then Pending else Failed
  {
    hide Settled, EndsAs, Records;
    if granted {
      var r := Reserved(def, s, true);
      SettlementMeaning(def, dry, r, workers(i, r.currentAttempt));
      assert r.attempts[..|s.attempts|] == s.attempts;
    }
  }

  lemma BatchEndsRightly(g: GraphDef, dry: bool, before: seq<NodeState>, after: seq<NodeState>, batch: seq<nat>, granted: nat, workers: Workers)
    requires |before| == |after| == |g.nodes| && granted <= |batch|
    requires forall p | 0 <= p < |batch| ::
               && batch[p] < |after| && HasCapacity(g.nodes[batch[p]], before[batch[p]])
               && after[batch[p]] == BatchMember(g.nodes[batch[p]], dry, before[batch[p]], batch[p], p < granted, workers)
    ensures BatchEnds(g, dry, before, after, batch, granted, workers)
  {
    hide EndsAs, Records, BatchMember, HasCapacity, LastIs;
    forall p | 0 <= p < |batch| && batch[p] < |before|
      ensures var def, s, t := g.nodes[batch[p]], before[batch[p]], after[batch[p]];
              var settlement := workers(batch[p], s.currentAttempt + 1);
              if p < granted then
                && EndsAs(def, dry, s.currentAttempt + 1, settlement, t.status)
                && |t.attempts| == |s.attempts| + 1 && t.attempts[..|s.attempts|] == s.attempts
                && (settlement.Delivered() ==> Records(def, dry, settlement.report, Last(t)))
              else
                t.attempts == s.attempts && t.status == if LastIs(s, AttemptDone) then Pending else Failed
    {
      MemberEnds(g.nodes[batch[p]], dry, before[batch[p]], batch[p], p < granted, workers);
    }
  }

  lemma BatchRecords(def: NodeDef, dry: bool, s: NodeState, granted: bool, settlement: Settlement)
    requires NodeAccepted(def, dry, s) && Open(s) && HasCapacity(def, s)
    ensures BatchRecord(def, dry, Reserved(def, s, granted))
    ensures granted ==> Reserved(def, s, granted).attempts != []
    ensures granted ==> BatchRecord(def, dry, Settled(def, dry, Reserved(def, s, granted), settlement))
    ensures granted ==> Settled(def, dry, Reserved(def, s, granted), settlement).currentAttempt == Reserved(def, s, granted).currentAttempt
  {
    ReservationAccepted(def, dry, s, granted);
    if granted {
      SettlementAccepted(def, dry, Reserved(def, s, granted), settlement);
    }
  }

  /** At every moment while a batch runs, the run is consistent. */
  lemma BatchKeepsConsistency(g: GraphDef, a: seq<NodeState>, b: seq<NodeState>, batch: seq<nat>, before: nat, total: nat, dry: bool)
    requires WellFormed(g) && Consistent(g, a, before, dry) && Batch(g, a, batch) && Untouched(a, b, batch)
    requires forall i | i in batch :: BatchRecord(g.nodes[i], dry, b[i])
    requires total == TotalAttempts(b) <= g.maxGlobalAttempts
    ensures Consistent(g, b, total, dry)
  {
    hide RunState.NodeAccepted, RunState.TotalAttempts;
    forall i: nat | i < |b|
      ensures NodeAccepted(g.nodes[i], dry, b[i])
      ensures Open(b[i]) || b[i].status.Skipped? ==> HasCapacity(g.nodes[i], b[i])
      ensures b[i].status.Skipped? ==> a[i].status.Skipped?
      ensures a[i].status.Done? ==> b[i].status.Done?
      ensures Blocking(a[i]) ==> Blocking(b[i])
    {
      if i in batch {
        assert BatchRecord(g.nodes[i], dry, b[i]);
      }
    }
    forall i: nat | i < |b| && b[i].status.Done? ensures DependenciesDone(g, b, i) {
      if i !in batch {
        assert DependenciesDone(g, a, i);
      }
    }
    forall i: nat | i < |b| && b[i].status.Skipped? ensures HasBlockingDependency(g, b, i) {
      assert HasBlockingDependency(g, a, i);
      var d :| d in g.nodes[i].dependsOn && d < |a| && Blocking(a[d]);
      assert Blocking(b[d]);
    }
  }

  /** A batch in progress: the nodes in `settled` have their outcome, the others only their reservation. */
  ghost predicate Midway(g: GraphDef, dry: bool, a: seq<NodeState>, b: seq<NodeState>, batch: seq<nat>, granted: nat,
                         workers: Workers, settled: set<nat>)
    requires |a| == |g.nodes| && Batch(g, a, batch)
  {
    && granted <= |batch|
    && Untouched(a, b, batch)
    && forall p | 0 <= p < |batch| ::
         b[batch[p]] == if p < granted && batch[p] in settled
                        then BatchMember(g.nodes[batch[p]], dry, a[batch[p]], batch[p], true, workers)
                        else Reserved(g.nodes[batch[p]], a[batch[p]], p < granted)
  }

  /** The first `n` members of a batch have asked for their attempt and the first `granted` of them got one. */
  ghost predicate Reservations(g: GraphDef, a: seq<NodeState>, b: seq<NodeState>, batch: seq<nat>, n: nat, granted: nat)
    requires |a| == |g.nodes| && Batch(g, a, batch)
  {
    && granted <= n <= |batch| && |b| == |a|
    && (forall i: nat | i < |a| && i !in batch[..n] :: b[i] == a[i])
    && (forall p | 0 <= p < n :: b[batch[p]] == Reserved(g.nodes[batch[p]], a[batch[p]], p < granted))
  }

  lemma ReservationsBegin(g: GraphDef, nodes: seq<NodeState>, batch: seq<nat>)
    requires |nodes| == |g.nodes| && Batch(g, nodes, batch)
    ensures Reservations(g, nodes, nodes, batch, 0, 0) && ReservationsOf(batch[..0]) == []
  {
  }

  lemma ReservationsStep(g: GraphDef, a: seq<NodeState>, b: seq<NodeState>, batch: seq<nat>, n: nat, granted: nat, budget: bool)
    requires |a| == |g.nodes| && Batch(g, a, batch) && Reservations(g, a, b, batch, n, granted) && n < |batch|
    requires budget ==> granted == n
    ensures |b| == |a| && batch[n] < |b| && b[batch[n]] == a[batch[n]] && HasCapacity(g.nodes[batch[n]], b[batch[n]])
    ensures Reservations(g, a, b[batch[n] := Reserved(g.nodes[batch[n]], b[batch[n]], budget)], batch, n + 1, if budget then n + 1 else granted)
    ensures TotalAttempts(b[batch[n] := Reserved(g.nodes[batch[n]], b[batch[n]], budget)]) == TotalAttempts(b) + (if budget then 1 else 0)
  {
    assert batch[n] !in batch[..n];
    assert batch[..n + 1] == batch[..n] + [batch[n]];
    TotalAfterUpdate(b, batch[n], Reserved(g.nodes[batch[n]], b[batch[n]], budget));
  }

  /** The workers of the first `n` granted members have been looked at after the reports were in. */
  ghost predicate ErrorsSeen(start: seq<NodeState>, taken: seq<nat>, workers: Workers, n: nat, settled: set<nat>) {
    && n <= |taken|
    && (forall p | 0 <= p < |taken| :: taken[p] < |start|)
    && (forall p | 0 <= p < n :: taken[p] in settled && !workers(taken[p], start[taken[p]].currentAttempt + 1).Loses())
    && (forall p | n <= p < |taken| :: taken[p] in settled <==> workers(taken[p], start[taken[p]].currentAttempt + 1).Delivered())
  }

  lemma ErrorsSeenStep(g: GraphDef, start: seq<NodeState>, batch: seq<nat>, taken: seq<nat>, workers: Workers, n: nat, settled: set<nat>)
    requires |start| == |g.nodes| && Batch(g, start, batch) && |taken| <= |batch| && taken == batch[..|taken|]
    requires ErrorsSeen(start, taken, workers, n, settled) && n < |taken|
    ensures var outcome := workers(taken[n], start[taken[n]].currentAttempt + 1);
            && (taken[n] in settled <==> outcome.Delivered())
            && (!outcome.Loses() ==> ErrorsSeen(start, taken, workers, n + 1, settled + {taken[n]}))
            && (outcome.Delivered() ==> settled + {taken[n]} == settled)
  {
  }

  lemma ReportedNodesHas(start: seq<NodeState>, taken: seq<nat>, workers: Workers, i: nat)
    ensures i in ReportedNodes(start, taken, workers) <==> i in taken && i < |start| && workers(i, start[i].currentAttempt + 1).Delivered()
  {
  }

  lemma ReportedNodesTaken(start: seq<NodeState>, taken: seq<nat>, workers: Workers)
    ensures ReportedNodes(start, taken, workers) - Members(taken) == {}
  {
  }

  lemma ErrorsSeenBegins(g: GraphDef, start: seq<NodeState>, batch: seq<nat>, taken: seq<nat>, workers: Workers)
    requires |start| == |g.nodes| && Batch(g, start, batch) && |taken| <= |batch| && taken == batch[..|taken|]
    ensures ErrorsSeen(start, taken, workers, 0, ReportedNodes(start, taken, workers))
  {
  }

  lemma ErrorsSeenMeaning(start: seq<NodeState>, taken: seq<nat>, workers: Workers, settled: set<nat>)
    requires ErrorsSeen(start, taken, workers, |taken|, settled)
    ensures forall p | 0 <= p < |taken| ::
              taken[p] in settled && taken[p] < |start| && !workers(taken[p], start[taken[p]].currentAttempt + 1).Loses()
  {
  }

  /** The nodes whose worker delivered a report, saved or not. */
  ghost function ReportedNodes(start: seq<NodeState>, taken: seq<nat>, workers: Workers): set<nat> {
    set i | i in taken && i < |start| && workers(i, start[i].currentAttempt + 1).Delivered()
  }

  lemma MidwayStep(g: GraphDef, dry: bool, a: seq<NodeState>, b: seq<NodeState>, batch: seq<nat>, granted: nat,
                   workers: Workers, settled: set<nat>, i: nat)
    requires |a| == |g.nodes| && Batch(g, a, batch) && Midway(g, dry, a, b, batch, granted, workers, settled)
    requires i in batch[..granted] && i !in settled
    ensures i < |b| && b[i].status.Running? && b[i].attempts != []
    ensures Midway(g, dry, a, b[i := Settled(g.nodes[i], dry, b[i], workers(i, b[i].currentAttempt))], batch, granted, workers, settled + {i})
  {
  }

  lemma MidwayAttempt(g: GraphDef, dry: bool, a: seq<NodeState>, b: seq<NodeState>, batch: seq<nat>, granted: nat,
                      workers: Workers, settled: set<nat>, i: nat)
    requires |a| == |g.nodes| && Batch(g, a, batch) && Midway(g, dry, a, b, batch, granted, workers, settled)
    requires i in batch[..granted]
    ensures i < |b| && b[i].currentAttempt == a[i].currentAttempt + 1
  {
  }

  /** At every moment while a batch runs, the run is consistent. */
  lemma MidwayConsistent(g: GraphDef, dry: bool, a: seq<NodeState>, b: seq<NodeState>, batch: seq<nat>, granted: nat,
                         workers: Workers, settled: set<nat>, reserved: seq<NodeState>, before: nat)
    requires WellFormed(g) && Consistent(g, a, before, dry) && Batch(g, a, batch)
    requires Midway(g, dry, a, b, batch, granted, workers, settled)
    requires Midway(g, dry, a, reserved, batch, granted, workers, {})
    requires TotalAttempts(reserved) == before + granted <= g.maxGlobalAttempts
    ensures Consistent(g, b, before + granted, dry)
  {
    hide RunState.NodeAccepted, RunState.TotalAttempts;
    forall p | 0 <= p < |batch| ensures BatchRecord(g.nodes[batch[p]], dry, b[batch[p]]) {
      BatchRecords(g.nodes[batch[p]], dry, a[batch[p]], p < granted, workers(batch[p], a[batch[p]].currentAttempt + 1));
    }
    MidwayCounters(g, dry, a, b, batch, granted, workers, settled, reserved);
    hide Midway, BatchRecord;
    BatchKeepsConsistency(g, a, b, batch, before, before + granted, dry);
  }

  /** Settling changes no counter. */
  lemma MidwayCounters(g: GraphDef, dry: bool, a: seq<NodeState>, b: seq<NodeState>, batch: seq<nat>, granted: nat,
                       workers: Workers, settled: set<nat>, reserved: seq<NodeState>)
    requires |a| == |g.nodes| && Batch(g, a, batch)
    requires Midway(g, dry, a, b, batch, granted, workers, settled) && Midway(g, dry, a, reserved, batch, granted, workers, {})
    ensures TotalAttempts(b) == TotalAttempts(reserved)
  {
    forall i: nat | i < |b| ensures b[i].currentAttempt == reserved[i].currentAttempt {
      if i in batch {
        var p :| 0 <= p < |batch| && batch[p] == i;
      }
    }
    TotalDependsOnCountersOnly(b, reserved);
  }

  /** What holds of every batch member whether or not its worker settled. */
  lemma MidwayFacts(g: GraphDef, dry: bool, a: seq<NodeState>, b: seq<NodeState>, batch: seq<nat>, granted: nat,
                    workers: Workers, settled: set<nat>, total: nat)
    requires Consistent(g, a, total, dry) && Batch(g, a, batch) && Midway(g, dry, a, b, batch, granted, workers, settled)
    ensures Untouched(a, b, batch)
    ensures forall p | 0 <= p < |batch| ::
              && !b[batch[p]].status.Skipped?
              && b[batch[p]].currentAttempt == a[batch[p]].currentAttempt + (if p < granted then 1 else 0)
              && (b[batch[p]].status.Running? ==> p < granted && (batch[p] !in settled || workers(batch[p], b[batch[p]].currentAttempt).PersistenceLost?))
  {
    forall p | 0 <= p < |batch|
      ensures !b[batch[p]].status.Skipped?
      ensures b[batch[p]].currentAttempt == a[batch[p]].currentAttempt + (if p < granted then 1 else 0)
      ensures b[batch[p]].status.Running? ==> p < granted && (batch[p] !in settled || workers(batch[p], b[batch[p]].currentAttempt).PersistenceLost?)
    {
      BatchRecords(g.nodes[batch[p]], dry, a[batch[p]], p < granted, workers(batch[p], a[batch[p]].currentAttempt + 1));
    }
  }

  /** A wave whose first `next` nodes have had their turn. */
  ghost predicate WaveSoFar(start: seq<NodeState>, now: seq<NodeState>, ready: seq<nat>, next: nat, launched: set<nat>, lost: bool) {
    && next <= |ready| && |now| == |start|
    && (forall p | 0 <= p < |ready| :: ready[p] < |start|)
    && Untouched(start, now, ready)
    && (forall p | next <= p < |ready| :: now[ready[p]] == start[ready[p]])
    && (forall p | 0 <= p < next ::
          && !now[ready[p]].status.Skipped?
          && (now[ready[p]].status.Running? ==> lost)
          && now[ready[p]].currentAttempt >= start[ready[p]].currentAttempt
          && (now[ready[p]].currentAttempt > start[ready[p]].currentAttempt ==> ready[p] in launched))
    && (forall i | i in launched :: i in ready)
  }

  /** Once every granted member has settled, the batch is a closed form of the outcomes. */
  lemma BatchClosedForm(g: GraphDef, dry: bool, a: seq<NodeState>, b: seq<NodeState>, batch: seq<nat>, granted: nat,
                        workers: Workers, settled: set<nat>)
    requires |a| == |g.nodes| && Batch(g, a, batch) && Midway(g, dry, a, b, batch, granted, workers, settled)
    requires forall p | 0 <= p < granted :: batch[p] in settled
    ensures forall p | 0 <= p < |batch| ::
              b[batch[p]] == BatchMember(g.nodes[batch[p]], dry, a[batch[p]], batch[p], p < granted, workers)
  {
  }

  lemma WaveBegins(g: GraphDef, start: seq<NodeState>, ready: seq<nat>)
    requires |start| == |g.nodes| && ready == ReadyNodes(g, start)
    ensures WaveSoFar(start, start, ready, 0, {}, false)
  {
  }

  /** A node that is ready stays ready while only nodes that were ready too are touched. */
  lemma StaysReady(g: GraphDef, start: seq<NodeState>, now: seq<NodeState>, ready: seq<nat>, i: nat)
    requires |start| == |g.nodes| && ready == ReadyNodes(g, start) && Untouched(start, now, ready)
    requires i < |start| && IsReady(g, start, i) && now[i] == start[i]
    ensures IsReady(g, now, i)
  {
    forall d | d in g.nodes[i].dependsOn ensures d < |now| && now[d].status.Done? {
      assert !IsReady(g, start, d);
    }
  }

  /** The part of a wave still to come is ready as it was when the wave began. */
  lemma LaterBatchIsReady(g: GraphDef, start: seq<NodeState>, now: seq<NodeState>, ready: seq<nat>, from: nat, to: nat, launched: set<nat>)
    requires |start| == |g.nodes| && ready == ReadyNodes(g, start) && from <= to <= |ready|
    requires WaveSoFar(start, now, ready, from, launched, false) && Schedulable(g, now)
    ensures Batch(g, now, ready[from..to])
  {
    hide Graph.IsReady, Untouched;
    var batch := ready[from..to];
    forall k | 0 <= k < |batch|
      ensures batch[k] < |now| && IsReady(g, now, batch[k]) && HasCapacity(g.nodes[batch[k]], now[batch[k]])
    {
      assert batch[k] == ready[from + k];
      StaysReady(g, start, now, ready, batch[k]);
      ReadyIsOpen(g, now, batch[k]);
    }
    forall p, q | 0 <= p < q < |batch| ensures batch[p] < batch[q] {
      assert batch[p] == ready[from + p] && batch[q] == ready[from + q];
    }
  }

  lemma ReadyIsOpen(g: GraphDef, nodes: seq<NodeState>, i: nat)
    requires |nodes| == |g.nodes| && i < |nodes| && IsReady(g, nodes, i)
    ensures Open(nodes[i])
  {
  }

  /** What becomes of one node of a wave: one attempt that ends as settlement and counter say, or none. */
  ghost predicate NodeEnds(def: NodeDef, dry: bool, s: NodeState, t: NodeState, i: nat, workers: Workers) {
    if t.currentAttempt > s.currentAttempt then
      t.currentAttempt == s.currentAttempt + 1 && EndsAs(def, dry, s.currentAttempt + 1, workers(i, s.currentAttempt + 1), t.status)
    else
      t.attempts == s.attempts && t.status == if LastIs(s, AttemptDone) then Pending else Failed
  }

  ghost predicate WaveEnds(g: GraphDef, dry: bool, start: seq<NodeState>, now: seq<NodeState>, ready: seq<nat>, next: nat, workers: Workers)
    requires |start| == |now| == |g.nodes|
  {
    forall p | 0 <= p < next && p < |ready| && ready[p] < |start| ::
      NodeEnds(g.nodes[ready[p]], dry, start[ready[p]], now[ready[p]], ready[p], workers)
  }

  lemma WaveEndsBegins(g: GraphDef, dry: bool, nodes: seq<NodeState>, ready: seq<nat>, workers: Workers)
    requires |nodes| == |g.nodes|
    ensures WaveEnds(g, dry, nodes, nodes, ready, 0, workers)
  {
  }

  lemma WaveEndsStep(g: GraphDef, dry: bool, start: seq<NodeState>, before: seq<NodeState>, now: seq<NodeState>, ready: seq<nat>,
                     from: nat, to: nat, granted: nat, launched: set<nat>, workers: Workers)
    requires |start| == |before| == |now| == |g.nodes| && from <= to <= |ready|
    requires WaveSoFar(start, before, ready, from, launched, false) && WaveEnds(g, dry, start, before, ready, from, workers)
    requires forall p, q | 0 <= p < q < |ready| :: ready[p] < ready[q]
    requires BatchMoved(before, now, ready[from..to], granted, false)
    requires BatchEnds(g, dry, before, now, ready[from..to], granted, workers)
    ensures WaveEnds(g, dry, start, now, ready, to, workers)
  {
    hide EndsAs, Records, LastIs;
    var batch := ready[from..to];
    forall p | 0 <= p < to && p < |ready| && ready[p] < |start|
      ensures NodeEnds(g.nodes[ready[p]], dry, start[ready[p]], now[ready[p]], ready[p], workers)
    {
      if p < from {
        assert ready[p] !in batch;
        assert now[ready[p]] == before[ready[p]];
      } else {
        assert batch[p - from] == ready[p] && before[ready[p]] == start[ready[p]];
      }
    }
  }

  /** Some attempt granted in between lost its save. */
  ghost predicate SomeLost(before: seq<NodeState>, after: seq<NodeState>, workers: Workers) {
    exists i: nat, n: nat ::
      i < |before| && i < |after| && before[i].currentAttempt < n <= after[i].currentAttempt && workers(i, n).Loses()
  }

  ghost predicate CountersGrow(before: seq<NodeState>, after: seq<NodeState>) {
    |after| == |before| && forall i | 0 <= i < |before| :: after[i].currentAttempt >= before[i].currentAttempt
  }

  lemma LostInBatch(before: seq<NodeState>, after: seq<NodeState>, batch: seq<nat>, granted: nat, lost: bool, workers: Workers)
    requires BatchMoved(before, after, batch, granted, lost)
    ensures forall p | 0 <= p < |batch| :: batch[p] < |before|
    ensures (exists p | 0 <= p < granted :: workers(batch[p], before[batch[p]].currentAttempt + 1).Loses()) ==> SomeLost(before, after, workers)
  {
    if p: nat :| p < granted && workers(batch[p], before[batch[p]].currentAttempt + 1).Loses() {
      assert after[batch[p]].currentAttempt == before[batch[p]].currentAttempt + 1;
    }
  }

  lemma LostLater(start: seq<NodeState>, before: seq<NodeState>, after: seq<NodeState>, workers: Workers)
    requires CountersGrow(start, before)
    ensures SomeLost(before, after, workers) ==> SomeLost(start, after, workers)
  {
    if SomeLost(before, after, workers) {
      var i: nat, n: nat :| i < |before| && i < |after| && before[i].currentAttempt < n <= after[i].currentAttempt && workers(i, n).Loses();
      assert start[i].currentAttempt < n;
    }
  }

  lemma TalliedGrows(before: seq<NodeState>, after: seq<NodeState>, events: seq<Event>)
    requires Tallied(before, after, events)
    ensures CountersGrow(before, after)
  {
  }

  lemma GrowthJoins(a: seq<NodeState>, b: seq<NodeState>, c: seq<NodeState>)
    requires (a == b || CountersGrow(a, b)) && (b == c || CountersGrow(b, c))
    ensures CountersGrow(a, c)
  {
  }

  lemma SkippingKeepsCounters(g: GraphDef, a: seq<NodeState>, b: seq<NodeState>)
    requires |a| == |g.nodes| && SkipPass(g, a, b)
    ensures CountersGrow(a, b)
  {
  }

  lemma AffordableBelowCap(g: GraphDef, nodes: seq<NodeState>, total: nat, c: nat)
    requires WellFormed(g) && |nodes| == |g.nodes| && c < |nodes| && g.nodes[c].feedbackTo.Some? && Affordable(g, nodes, total, c)
    ensures total < g.maxGlobalAttempts
  {
  }

  lemma ReadyAscends(g: GraphDef, nodes: seq<NodeState>)
    requires |nodes| == |g.nodes|
    ensures forall p, q | 0 <= p < q < |ReadyNodes(g, nodes)| :: ReadyNodes(g, nodes)[p] < ReadyNodes(g, nodes)[q]
  {
  }

  /** No rejection waits to be looked at. */
  ghost predicate FeedbackDone(g: GraphDef, nodes: seq<NodeState>) {
    forall c | 0 <= c < |nodes| && c < |g.nodes| :: !AwaitsRouting(g.nodes[c], nodes[c])
  }

  lemma AllExamined(g: GraphDef, start: seq<NodeState>, now: seq<NodeState>, total: nat)
    requires WellFormed(g) && NoneRoutable(g, start, now, total, |now|)
    ensures FeedbackDone(g, now)
  {
  }

  lemma SkippingKeepsFeedback(g: GraphDef, a: seq<NodeState>, b: seq<NodeState>)
    requires |a| == |g.nodes| && SkipPass(g, a, b) && FeedbackDone(g, a)
    ensures FeedbackDone(g, b)
  {
  }

  /** At the global cap no node is left to start, except one that had passed before and was reopened. */
  ghost predicate LimitApplied(g: GraphDef, nodes: seq<NodeState>)
    requires |nodes| == |g.nodes|
  {
    forall i | 0 <= i < |nodes| && IsReady(g, nodes, i) :: LastIs(nodes[i], AttemptDone)
  }

  lemma ExhaustedIsLimited(g: GraphDef, before: seq<NodeState>, limited: seq<NodeState>, after: seq<NodeState>)
    requires |before| == |limited| == |g.nodes| && (forall i | 0 <= i < |limited| :: limited[i] == Exhausted(g, before, i))
    requires SkipPass(g, limited, after)
    ensures LimitApplied(g, after)
  {
    hide LastIs;
    forall i | 0 <= i < |after| && IsReady(g, after, i) ensures LastIs(after[i], AttemptDone) {
      assert DependenciesDone(g, before, i) by {
        forall d | d in g.nodes[i].dependsOn ensures d < |before| && before[d].status.Done? {
          assert after[d].status.Done? && limited[d].status.Done?;
        }
      }
      assert after[i] == limited[i] && Open(before[i]);
      assert IsReady(g, before, i);
      OnlyStatus(before[i], limited[i]);
    }
  }

  /** At the limit a ready node ends, unless it had passed before; the others change only by being skipped. */
  lemma LimitEndsReadyNodes(g: GraphDef, before: seq<NodeState>, limited: seq<NodeState>, after: seq<NodeState>, i: nat)
    requires WellFormed(g) && |before| == |limited| == |g.nodes| && (forall k | 0 <= k < |limited| :: limited[k] == Exhausted(g, before, k))
    requires SkipPass(g, limited, after) && i < |before|
    ensures Open(before[i]) && DependenciesDone(g, before, i) ==>
              after[i] == before[i].(status := if before[i].attempts != [] && Last(before[i]).status.AttemptDone? then Pending else Failed)
    ensures !(Open(before[i]) && DependenciesDone(g, before, i)) ==>
              after[i] == if Open(before[i]) && HasBlockingDependency(g, after, i) then before[i].(status := Skipped) else before[i]
  {
    if Open(before[i]) && DependenciesDone(g, before, i) {
      forall d | d in g.nodes[i].dependsOn ensures d < |after| && after[d].status.Done? {
        assert before[d].status.Done? && limited[d] == before[d];
      }
      assert !HasBlockingDependency(g, after, i);
    }
  }

  lemma OnlyStatus(s: NodeState, t: NodeState)
    requires t == s.(status := t.status)
    ensures LastIs(s, AttemptDone) <==> LastIs(t, AttemptDone)
  {
  }

  lemma WaveAdvances(start: seq<NodeState>, before: seq<NodeState>, now: seq<NodeState>, ready: seq<nat>, from: nat, to: nat,
                     granted: nat, launched: set<nat>, lost: bool)
    requires WaveSoFar(start, before, ready, from, launched, false) && from <= to <= |ready|
    requires forall p, q | 0 <= p < q < |ready| :: ready[p] < ready[q]
    requires BatchMoved(before, now, ready[from..to], granted, lost)
    ensures WaveSoFar(start, now, ready, to, launched + Members(ready[from..to][..granted]), lost)
  {
    var batch := ready[from..to];
    forall p | 0 <= p < |ready| && !(from <= p < to) ensures ready[p] !in batch {
    }
    forall p | from <= p < to
      ensures now[ready[p]].currentAttempt == before[ready[p]].currentAttempt + (if p - from < granted then 1 else 0)
      ensures !now[ready[p]].status.Skipped? && (now[ready[p]].status.Running? ==> lost)
      ensures p - from < granted ==> ready[p] in batch[..granted]
    {
      assert batch[p - from] == ready[p];
      if p - from < granted {
        assert batch[..granted][p - from] == ready[p];
      }
    }
    forall i: nat | i < |start| && i !in ready ensures now[i] == start[i] {
    }
    forall i | i in batch[..granted] ensures i in ready {
    }
  }

  /** The report of a researcher that passes and so may supply the run's criteria. */
  predicate SuppliesCriteria(def: NodeDef, dry: bool, settlement: Settlement) {
    def.agent.Researcher? && settlement.Delivered() && Passes(def, dry, settlement.report)
  }

  ghost predicate Supplier(g: GraphDef, dry: bool, start: seq<NodeState>, workers: Workers, i: nat) {
    i < |start| && i < |g.nodes| && SuppliesCriteria(g.nodes[i], dry, workers(i, start[i].currentAttempt + 1))
  }

  /**
   * Criteria that were there stay. Empty ones become those of a passing
   * researcher among `seen`, and stay empty only when there is none.
   */
  ghost predicate CriteriaFrom(g: GraphDef, dry: bool, before: seq<string>, after: seq<string>,
                               start: seq<NodeState>, workers: Workers, seen: set<nat>)
  {
    if before == [] && exists i | i in seen :: Supplier(g, dry, start, workers, i) then
      exists i | i in seen ::
        Supplier(g, dry, start, workers, i) && after == workers(i, start[i].currentAttempt + 1).report.criteria
    else after == before
  }

  lemma CriteriaStep(g: GraphDef, dry: bool, before: seq<string>, mid: seq<string>, after: seq<string>,
                     start: seq<NodeState>, workers: Workers, seen: set<nat>, i: nat)
    requires CriteriaFrom(g, dry, before, mid, start, workers, seen)
    requires i < |start| && i < |g.nodes|
    requires var outcome := workers(i, start[i].currentAttempt + 1);
             after == if mid == [] && SuppliesCriteria(g.nodes[i], dry, outcome) then outcome.report.criteria else mid
    ensures CriteriaFrom(g, dry, before, after, start, workers, seen + {i})
  {
    if Supplier(g, dry, start, workers, i) {
      assert i in seen + {i};
    }
    if before == [] {
      if j :| j in seen && Supplier(g, dry, start, workers, j) && mid == workers(j, start[j].currentAttempt + 1).report.criteria {
        assert j in seen + {i};
      }
    }
  }

  lemma CriteriaKept(g: GraphDef, dry: bool, before: seq<string>, after: seq<string>, start: seq<NodeState>, workers: Workers, seen: set<nat>)
    requires CriteriaFrom(g, dry, before, after, start, workers, seen)
    ensures before != [] ==> after == before
  {
  }

  lemma DeliveredIs(settlement: Settlement)
    ensures settlement.Delivered() <==> settlement.Reported? || settlement.Unsaved?
    ensures settlement.Loses() <==> settlement.PersistenceLost? || settlement.Unsaved?
  {
  }

  lemma OnlyDeliveredSupply(def: NodeDef, dry: bool, settlement: Settlement)
    ensures SuppliesCriteria(def, dry, settlement) ==> settlement.Delivered()
  {
  }

  lemma CriteriaBegin(g: GraphDef, dry: bool, criteria: seq<string>, start: seq<NodeState>, workers: Workers)
    ensures CriteriaFrom(g, dry, criteria, criteria, start, workers, {})
  {
  }

  // ---------------------------------------------------------------- what happened in an invocation

  /** A granted attempt, or the routing of a checker's rejection. */
  datatype Event = Reservation(node: nat) | Rerouting(checker: nat)

  function ReservationsOf(batch: seq<nat>): seq<Event> {
    seq(|batch|, k requires 0 <= k < |batch| => Reservation(batch[k]))
  }

  lemma ReservationsGrow(batch: seq<nat>, p: nat)
    requires p < |batch|
    ensures ReservationsOf(batch[..p + 1]) == ReservationsOf(batch[..p]) + [Reservation(batch[p])]
  {
  }

  function CountIn(events: seq<Event>, i: nat): nat {
    if events == [] then 0
    else CountIn(events[..|events| - 1], i) + if events[|events| - 1] == Reservation(i) then 1 else 0
  }

  predicate HasRouting(events: seq<Event>) {
    exists k | 0 <= k < |events| :: events[k].Rerouting?
  }

  predicate OnlyReservations(events: seq<Event>, nodes: set<nat>) {
    forall k | 0 <= k < |events| :: events[k].Reservation? && events[k].node in nodes
  }

  /** Each node gained exactly the attempts that were reserved for it. */
  ghost predicate Tallied(before: seq<NodeState>, after: seq<NodeState>, events: seq<Event>) {
    && |after| == |before|
    && forall i: nat | i < |before| :: after[i].currentAttempt == before[i].currentAttempt + CountIn(events, i)
  }

  ghost predicate SameCounters(before: seq<NodeState>, after: seq<NodeState>) {
    |after| == |before| && forall i | 0 <= i < |before| :: after[i].currentAttempt == before[i].currentAttempt
  }

  /** Every node reserved before the first routing is one of the candidates. */
  ghost predicate CoveredByPreflight(events: seq<Event>, candidates: set<nat>) {
    forall k | 0 <= k < |events| && events[k].Reservation? && !HasRouting(events[..k]) :: events[k].node in candidates
  }

  lemma {:induction false} CountConcat(a: seq<Event>, b: seq<Event>, i: nat)
    ensures CountIn(a + b, i) == CountIn(a, i) + CountIn(b, i)
    decreases |b|
  {
    if b == [] {
      assert a + b == a;
    } else {
      CountConcat(a, b[..|b| - 1], i);
      assert (a + b)[..|a + b| - 1] == a + b[..|b| - 1];
    }
  }

  lemma {:induction false} CountReservations(batch: seq<nat>, i: nat)
    requires forall p, q | 0 <= p < q < |batch| :: batch[p] != batch[q]
    ensures CountIn(ReservationsOf(batch), i) == if i in batch then 1 else 0
    decreases |batch|
  {
    if batch != [] {
      var front := batch[..|batch| - 1];
      CountReservations(front, i);
      assert ReservationsOf(batch)[..|batch| - 1] == ReservationsOf(front);
      assert batch == front + [batch[|batch| - 1]];
    }
  }

  lemma TallyBatch(g: GraphDef, start: seq<NodeState>, before: seq<NodeState>, now: seq<NodeState>, events: seq<Event>, batch: seq<nat>,
                   granted: nat, lost: bool)
    requires Tallied(start, before, events) && |before| == |g.nodes| && Batch(g, before, batch) && BatchMoved(before, now, batch, granted, lost)
    ensures Tallied(start, now, events + ReservationsOf(batch[..granted]))
  {
    forall i: nat | i < |start|
      ensures now[i].currentAttempt == start[i].currentAttempt + CountIn(events + ReservationsOf(batch[..granted]), i)
    {
      CountConcat(events, ReservationsOf(batch[..granted]), i);
      CountReservations(batch[..granted], i);
      if i in batch {
        var p :| 0 <= p < |batch| && batch[p] == i;
        assert p < granted ==> batch[..granted][p] == i;
      }
    }
  }

  lemma NothingHappened(nodes: seq<NodeState>)
    ensures Tallied(nodes, nodes, []) && OnlyReservations([], {}) && !HasRouting([])
  {
  }

  lemma ReservedWithin(events: seq<Event>, batch: seq<nat>, launched: set<nat>)
    requires OnlyReservations(events, launched)
    ensures OnlyReservations(events + ReservationsOf(batch), launched + Members(batch))
  {
  }

  lemma TallyCounters(start: seq<NodeState>, before: seq<NodeState>, now: seq<NodeState>, events: seq<Event>)
    requires Tallied(start, before, events) && SameCounters(before, now)
    ensures Tallied(start, now, events)
  {
  }

  lemma TallyRouting(start: seq<NodeState>, now: seq<NodeState>, events: seq<Event>, c: nat)
    requires Tallied(start, now, events)
    ensures Tallied(start, now, events + [Rerouting(c)])
  {
    assert (events + [Rerouting(c)])[..|events|] == events;
  }

  lemma TallyJoin(a: seq<NodeState>, b: seq<NodeState>, c: seq<NodeState>, first: seq<Event>, second: seq<Event>)
    requires Tallied(a, b, first) && Tallied(b, c, second)
    ensures Tallied(a, c, first + second)
  {
    forall i: nat | i < |a| ensures c[i].currentAttempt == a[i].currentAttempt + CountIn(first + second, i) {
      CountConcat(first, second, i);
    }
  }

  /** Events of one more wave: reservations of admitted nodes, or anything once a routing has happened. */
  lemma CoverJoin(first: seq<Event>, second: seq<Event>, candidates: set<nat>)
    requires CoveredByPreflight(first, candidates) && (HasRouting(first) || CoveredByPreflight(second, candidates))
    ensures CoveredByPreflight(first + second, candidates)
    ensures HasRouting(first + second) <==> HasRouting(first) || HasRouting(second)
  {
    var all := first + second;
    forall k | 0 <= k < |all| && all[k].Reservation? && !HasRouting(all[..k]) ensures all[k].node in candidates {
      if k < |first| {
        assert all[..k] == first[..k];
      } else {
        assert all[..k] == first + second[..k - |first|];
        assert !HasRouting(first) && !HasRouting(second[..k - |first|]) by {
          assert forall m | 0 <= m < |first| :: all[..k][m] == first[m];
          assert forall m | 0 <= m < k - |first| :: all[..k][|first| + m] == second[m];
        }
      }
    }
    if m :| 0 <= m < |first| && first[m].Rerouting? {
      assert all[m].Rerouting?;
    }
    if m :| 0 <= m < |second| && second[m].Rerouting? {
      assert all[|first| + m].Rerouting?;
    }
  }

  lemma WaveIsCovered(events: seq<Event>, c: Option<nat>, inWave: set<nat>, candidates: set<nat>)
    requires OnlyReservations(events, inWave) && inWave <= candidates
    ensures CoveredByPreflight(events + (if c.Some? then [Rerouting(c.value)] else []), candidates)
  {
  }

  lemma RoutingSeen(events: seq<Event>, c: Option<nat>, inWave: set<nat>)
    requires OnlyReservations(events, inWave)
    ensures HasRouting(events + (if c.Some? then [Rerouting(c.value)] else [])) <==> c.Some?
  {
    if c.Some? {
      assert (events + [Rerouting(c.value)])[|events|].Rerouting?;
    }
  }

  /** The account of an invocation so far. */
  ghost predicate Account(start: seq<NodeState>, now: seq<NodeState>, events: seq<Event>, candidates: set<nat>, routed: bool) {
    Tallied(start, now, events) && CoveredByPreflight(events, candidates) && (routed <==> HasRouting(events))
  }

  lemma AccountBegins(nodes: seq<NodeState>, candidates: set<nat>)
    ensures Account(nodes, nodes, [], candidates, false)
  {
  }

  lemma AccountKept(start: seq<NodeState>, before: seq<NodeState>, now: seq<NodeState>, events: seq<Event>, candidates: set<nat>, routed: bool)
    requires Account(start, before, events, candidates, routed) && SameCounters(before, now)
    ensures Account(start, now, events, candidates, routed)
  {
  }

  lemma AccountStep(start: seq<NodeState>, before: seq<NodeState>, now: seq<NodeState>, events: seq<Event>, wave: seq<Event>, route: Option<nat>,
                    inWave: set<nat>, candidates: set<nat>, routed: bool)
    requires Account(start, before, events, candidates, routed)
    requires OnlyReservations(wave, inWave) && (!routed ==> inWave <= candidates)
    requires Tallied(before, now, wave + if route.Some? then [Rerouting(route.value)] else [])
    ensures Account(start, now, events + (wave + if route.Some? then [Rerouting(route.value)] else []), candidates, routed || route.Some?)
  {
    var step := wave + if route.Some? then [Rerouting(route.value)] else [];
    TallyJoin(start, before, now, events, step);
    RoutingSeen(wave, route, inWave);
    hide HasRouting, CoveredByPreflight, Tallied;
    if !routed {
      WaveIsCovered(wave, route, inWave, candidates);
    }
    CoverJoin(events, step, candidates);
  }

  lemma AccountMeaning(start: seq<NodeState>, now: seq<NodeState>, events: seq<Event>, candidates: set<nat>, routed: bool)
    requires Account(start, now, events, candidates, routed)
    ensures Tallied(start, now, events) && CoveredByPreflight(events, candidates) && (routed <==> HasRouting(events))
  {
  }

  // ---------------------------------------------------------------- checker feedback

  ghost function Descendants(g: GraphDef, target: nat): set<nat> {
    set i: nat | i < |g.nodes| && Descends(g, target, i)
  }

  predicate Substantive(a: Attempt) {
    a.outcome == Some(SubstantiveRejection) || (a.outcome.None? && a.schemaOk && a.rejected)
  }

  /** A checker whose rejection has not been routed yet. */
  predicate AwaitsRouting(def: NodeDef, s: NodeState) {
    && def.agent.Checker? && def.feedbackTo.Some?
    && s.status.Failed? && s.attempts != []
    && !Last(s).feedbackApplied && Substantive(Last(s))
  }

  /** The rejection of a fresh attempt is routed when it is the one thing that went wrong, and at most once. */
  lemma FreshRejectionAwaits(def: NodeDef, dry: bool, s: NodeState, r: Report)
    requires s.attempts != [] && s.status.Running? && !Last(s).feedbackApplied
    ensures AwaitsRouting(def, Settled(def, dry, s, Reported(r))) <==> SendsBack(def, dry, r)
    ensures !AwaitsRouting(def, Settled(def, dry, s, Threw))
    ensures !AwaitsRouting(def, Marked(Settled(def, dry, s, Reported(r))))
  {
  }

  /** Whether reopening the target of checker `c` fits every remaining local and global budget. */
  ghost predicate Affordable(g: GraphDef, nodes: seq<NodeState>, total: nat, c: nat)
    requires WellFormed(g) && |nodes| == |g.nodes| && c < |nodes| && g.nodes[c].feedbackTo.Some?
  {
    var target := g.nodes[c].feedbackTo.value;
    && (forall i | i in Descendants(g, target) :: HasCapacity(g.nodes[i], nodes[i]))
    && HasCapacity(g.nodes[c], nodes[c])
    && HasCapacity(g.nodes[target], nodes[target])
    && g.maxGlobalAttempts - total >= 1 + |Descendants(g, target)|
  }

  /**
   * A rejection is routed only if the checker, its target and every node behind
   * the target have an attempt of their own left, and the run has one for each
   * node that reopens.
   */
  lemma AffordableMeans(g: GraphDef, nodes: seq<NodeState>, total: nat, c: nat)
    requires WellFormed(g) && |nodes| == |g.nodes| && c < |nodes| && g.nodes[c].feedbackTo.Some?
    ensures var target := g.nodes[c].feedbackTo.value;
            var reopens := set i: nat | i < |nodes| && (i == target || Descends(g, target, i));
            && c in reopens
            && (Affordable(g, nodes, total, c) <==>
                  && (forall i | i in reopens :: nodes[i].currentAttempt < g.nodes[i].maxAttempts)
                  && total + |reopens| <= g.maxGlobalAttempts)
  {
    var target := g.nodes[c].feedbackTo.value;
    var reopens := set i: nat | i < |nodes| && (i == target || Descends(g, target, i));
    DescendsByEdge(g, target, c);
    assert target !in Descendants(g, target) by {
      if Descends(g, target, target) {
        DescendsLater(g, target, target);
      }
    }
    assert reopens == {target} + Descendants(g, target);
  }

  lemma DescendsLater(g: GraphDef, first: nat, last: nat)
    requires WellFormed(g) && Descends(g, first, last)
    ensures first < last
    decreases last
  {
    var mid := LastStep(g, first, last);
    if mid != first {
      DescendsLater(g, first, mid);
    }
  }

  function Marked(s: NodeState): NodeState
    requires s.attempts != []
  {
    WithLast(s, Last(s).(feedbackApplied := true))
  }

  /** Node `i` once the checkers below `n` have been looked at and none was routed. */
  function Examined(def: NodeDef, s: NodeState, seen: bool): NodeState {
    if seen && AwaitsRouting(def, s) then Marked(s) else s
  }

  /** The table after routing checker `c`: its target and all descendants of the target are pending. */
  ghost predicate Routed(g: GraphDef, before: seq<NodeState>, after: seq<NodeState>, c: nat)
    requires WellFormed(g) && |before| == |g.nodes| && c < |before| && g.nodes[c].feedbackTo.Some?
  {
    var target := g.nodes[c].feedbackTo.value;
    && |after| == |before|
    && forall i: nat | i < |before| ::
         after[i] == (var s := Examined(g.nodes[i], before[i], i <= c);
                      if i == target || i in Descendants(g, target) then s.(status := Pending) else s)
  }

  /** The checkers below `n` have been looked at and none of their rejections could be routed. */
  ghost predicate NoneRoutable(g: GraphDef, start: seq<NodeState>, now: seq<NodeState>, total: nat, n: nat)
    requires WellFormed(g)
  {
    && |start| == |now| == |g.nodes|
    && (forall b: nat | b < |now| :: now[b] == Examined(g.nodes[b], start[b], b < n))
    && (forall b: nat | b < n && b < |now| && AwaitsRouting(g.nodes[b], start[b]) :: !Affordable(g, start, total, b))
  }

  lemma NoneRoutableBegins(g: GraphDef, nodes: seq<NodeState>, total: nat)
    requires WellFormed(g) && |nodes| == |g.nodes|
    ensures NoneRoutable(g, nodes, nodes, total, 0)
  {
  }

  lemma NoneRoutableStep(g: GraphDef, start: seq<NodeState>, now: seq<NodeState>, after: seq<NodeState>, total: nat, n: nat)
    requires WellFormed(g) && NoneRoutable(g, start, now, total, n) && n < |now|
    requires AwaitsRouting(g.nodes[n], now[n]) ==> !Affordable(g, now, total, n) && after == now[n := Marked(now[n])]
    requires !AwaitsRouting(g.nodes[n], now[n]) ==> after == now
    ensures NoneRoutable(g, start, after, total, n + 1)
  {
  }

  /** Checkers below `c` examined, then `c` marked and its target reopened: the table of a routing. */
  lemma ExaminedThenRouted(g: GraphDef, start: seq<NodeState>, now: seq<NodeState>, after: seq<NodeState>, total: nat, c: nat)
    requires WellFormed(g) && NoneRoutable(g, start, now, total, c) && c < |start| && AwaitsRouting(g.nodes[c], now[c])
    requires Affordable(g, now, total, c)
    requires Reopening(g, now[c := Marked(now[c])], after, g.nodes[c].feedbackTo.value)
    ensures AwaitsRouting(g.nodes[c], start[c]) && Routed(g, start, after, c) && Affordable(g, start, total, c)
    ensures RunningBelow(g, now, g.nodes[c].feedbackTo.value) <==> RunningBelow(g, start, g.nodes[c].feedbackTo.value)
  {
  }

  /** `after` is `before` with `target` and everything that depends on it pending. */
  ghost predicate Reopening(g: GraphDef, before: seq<NodeState>, after: seq<NodeState>, target: nat) {
    && |after| == |before|
    && forall i: nat | i < |before| ::
         after[i] == if i == target || i in Descendants(g, target) then before[i].(status := Pending) else before[i]
  }

  lemma RoutingFacts(g: GraphDef, nodes: seq<NodeState>, c: nat)
    requires WellFormed(g) && |nodes| == |g.nodes| && c < |nodes| && AwaitsRouting(g.nodes[c], nodes[c])
    ensures nodes[c].attempts != [] && g.nodes[c].feedbackTo.Some? && g.nodes[c].feedbackTo.value < |nodes|
  {
  }

  lemma RunningBelowIs(g: GraphDef, nodes: seq<NodeState>, target: nat, invalidated: set<nat>)
    requires invalidated == Descendants(g, target)
    ensures RunningBelow(g, nodes, target)
            <==> exists i | 0 <= i < |nodes| :: (i == target || i in invalidated) && nodes[i].status.Running?
  {
  }

  /** Marking a checker changes neither what its rejection may cost nor what runs. */
  lemma MarkKeepsBudget(g: GraphDef, a: seq<NodeState>, marked: seq<NodeState>, total: nat, c: nat)
    requires WellFormed(g) && |a| == |g.nodes| && c < |a| && g.nodes[c].feedbackTo.Some?
    requires a[c].attempts != [] && marked == a[c := Marked(a[c])]
    ensures var target := g.nodes[c].feedbackTo.value;
            && target < |a| && (RunningBelow(g, marked, target) <==> RunningBelow(g, a, target))
            && (Affordable(g, a, total, c) ==>
                  && HasCapacity(g.nodes[target], marked[target])
                  && forall i | i in Descendants(g, target) :: i < |a| && HasCapacity(g.nodes[i], marked[i]))
  {
    var target := g.nodes[c].feedbackTo.value;
    assert forall i | 0 <= i < |a| :: marked[i].status == a[i].status && marked[i].currentAttempt == a[i].currentAttempt;
  }

  lemma ExaminationKeepsCounters(g: GraphDef, a: seq<NodeState>, marked: seq<NodeState>, b: seq<NodeState>, c: nat, target: nat)
    requires c < |a| && a[c].attempts != [] && marked == a[c := Marked(a[c])]
    requires b == marked || Reopening(g, marked, b, target)
    ensures SameCounters(a, b)
  {
  }

  lemma MarkAccepted(def: NodeDef, dry: bool, s: NodeState)
    requires NodeAccepted(def, dry, s) && s.attempts != []
    ensures NodeAccepted(def, dry, Marked(s))
  {
  }

  /** Marking checkers as looked at changes nothing the invariant depends on. */
  lemma ExaminationKeepsConsistency(g: GraphDef, a: seq<NodeState>, b: seq<NodeState>, total: nat, dry: bool)
    requires WellFormed(g) && Consistent(g, a, total, dry) && |b| == |a|
    requires forall i | 0 <= i < |a| :: b[i] == a[i] || (a[i].attempts != [] && b[i] == Marked(a[i]))
    ensures Consistent(g, b, total, dry)
  {
    TotalDependsOnCountersOnly(a, b);
    forall i | 0 <= i < |b| ensures NodeAccepted(g.nodes[i], dry, b[i]) {
      if b[i] != a[i] {
        MarkAccepted(g.nodes[i], dry, a[i]);
      }
    }
    OrderKept(g, a, b);
  }

  /**
   * Routing keeps the run consistent: because a target and everything reachable
   * from it reopen together, no done node is left above an open one and no
   * skipped node is left without its reason.
   */
  lemma ReopeningKeepsConsistency(g: GraphDef, a: seq<NodeState>, b: seq<NodeState>, total: nat, dry: bool, target: nat)
    requires WellFormed(g) && Consistent(g, a, total, dry) && target < |a|
    requires !RunningBelow(g, a, target)
    requires HasCapacity(g.nodes[target], a[target])
    requires forall i | i in Descendants(g, target) :: HasCapacity(g.nodes[i], a[i])
    requires Reopening(g, a, b, target)
    ensures Consistent(g, b, total, dry)
  {
    hide RunState.NodeAccepted, RunState.TotalAttempts;
    StatusesChanged(g, a, b, dry);
    forall i: nat, d | i < |b| && !Open(b[i]) && d in g.nodes[i].dependsOn ensures b[d] == a[d] && b[i] == a[i] {
      if d == target {
        DescendsByEdge(g, target, i);
      } else if d in Descendants(g, target) {
        DescendsFurther(g, target, d, i);
      }
    }
    OrderKept(g, a, b);
  }

  /**
   * Were a running node reopened, the store would refuse the save: routing is
   * accepted exactly when neither the target nor a descendant of it is running.
   */
  lemma ReopeningAcceptedIff(g: GraphDef, a: seq<NodeState>, b: seq<NodeState>, total: nat, dry: bool, target: nat)
    requires WellFormed(g) && Consistent(g, a, total, dry) && target < |a|
    requires HasCapacity(g.nodes[target], a[target])
    requires forall i | i in Descendants(g, target) :: HasCapacity(g.nodes[i], a[i])
    requires Reopening(g, a, b, target)
    ensures Persistable(g, Snapshot(b, total, Executing, dry)) <==> !RunningBelow(g, a, target)
    ensures !RunningBelow(g, a, target) ==> Consistent(g, b, total, dry)
  {
    hide RunState.NodeAccepted, RunState.TotalAttempts, RunState.DoneClosed, RunState.SkipsJustified;
    if RunningBelow(g, a, target) {
      var i: nat :| i < |a| && (i == target || i in Descendants(g, target)) && a[i].status.Running?;
      RunningCannotReopen(g.nodes[i], dry, a[i]);
    } else {
      ReopeningKeepsConsistency(g, a, b, total, dry, target);
    }
  }

  lemma RunningCannotReopen(def: NodeDef, dry: bool, s: NodeState)
    requires NodeAccepted(def, dry, s) && s.status.Running?
    ensures !NodeAccepted(def, dry, s.(status := Pending))
  {
  }

  ghost predicate RunningBelow(g: GraphDef, nodes: seq<NodeState>, target: nat) {
    exists i: nat | i < |nodes| :: (i == target || i in Descendants(g, target)) && nodes[i].status.Running?
  }

  // ---------------------------------------------------------------- preflight

  /** The nodes that can still become ready in this invocation, done ones included. */
  ghost predicate Admits(g: GraphDef, nodes: seq<NodeState>, admitted: set<nat>)
    requires |nodes| == |g.nodes|
  {
    forall i: nat :: i in admitted <==>
      i < |nodes| && (nodes[i].status.Done? || (Open(nodes[i]) && HasCapacity(g.nodes[i], nodes[i])
                                                && forall d | d in g.nodes[i].dependsOn :: d in admitted))
  }

  /** No failed or exhausted unfinished node stands before an admitted one. */
  lemma AdmittedAncestors(g: GraphDef, nodes: seq<NodeState>, admitted: set<nat>, ancestor: nat, i: nat)
    requires WellFormed(g) && |nodes| == |g.nodes| && DoneClosed(g, nodes) && Admits(g, nodes, admitted)
    requires i in admitted && Descends(g, ancestor, i)
    ensures ancestor in admitted && ancestor < |nodes|
    ensures nodes[ancestor].status.Done? || (Open(nodes[ancestor]) && HasCapacity(g.nodes[ancestor], nodes[ancestor]))
    decreases i
  {
    var mid := LastStep(g, ancestor, i);
    assert mid in admitted by {
      assert nodes[i].status.Done? ==> DependenciesDone(g, nodes, i);
    }
    if mid != ancestor {
      AdmittedAncestors(g, nodes, admitted, ancestor, mid);
    }
  }

  /** Until a rejection is routed, only admitted nodes finish or get attempts. */
  ghost predicate Within(start: seq<NodeState>, now: seq<NodeState>, admitted: set<nat>) {
    && |now| == |start|
    && forall i: nat | i < |now| ::
         && (now[i].status.Done? ==> i in admitted)
         && now[i].currentAttempt >= start[i].currentAttempt
         && (Open(now[i]) ==> Open(start[i]))
  }

  lemma ReadyIsAdmitted(g: GraphDef, start: seq<NodeState>, now: seq<NodeState>, admitted: set<nat>, i: nat)
    requires WellFormed(g) && |start| == |g.nodes| && Admits(g, start, admitted) && Within(start, now, admitted)
    requires i < |now| && IsReady(g, now, i) && HasCapacity(g.nodes[i], now[i])
    ensures i in admitted && Open(start[i])
  {
  }

  /** What an invocation has done so far: nothing new runs, and until a routing only admitted nodes moved. */
  ghost predicate Tracked(start: seq<NodeState>, now: seq<NodeState>, admitted: set<nat>, routed: bool) {
    && |now| == |start|
    && (forall i: nat | i < |now| && now[i].status.Running? :: start[i].status.Running?)
    && (!routed ==> Within(start, now, admitted))
  }

  lemma TrackedBegins(g: GraphDef, start: seq<NodeState>, admitted: set<nat>)
    requires WellFormed(g) && |start| == |g.nodes| && DoneClosed(g, start) && Admits(g, start, admitted)
    ensures Tracked(start, start, admitted, false)
  {
  }

  lemma TrackedByStatuses(start: seq<NodeState>, a: seq<NodeState>, b: seq<NodeState>, admitted: set<nat>, routed: bool)
    requires Tracked(start, a, admitted, routed) && |b| == |a|
    requires forall i | 0 <= i < |a| ::
               && b[i].currentAttempt == a[i].currentAttempt
               && (b[i].status.Running? ==> a[i].status.Running?)
               && (b[i].status.Done? ==> a[i].status.Done?)
               && (Open(b[i]) ==> Open(a[i]))
    ensures Tracked(start, b, admitted, routed)
  {
  }

  /** A running node in the way of a routing was running when the invocation began. */
  ghost predicate SomeRunning(nodes: seq<NodeState>) {
    exists i | 0 <= i < |nodes| :: nodes[i].status.Running?
  }

  lemma RefusedMeansStale(g: GraphDef, start: seq<NodeState>, now: seq<NodeState>, admitted: set<nat>, routed: bool, target: nat)
    requires Tracked(start, now, admitted, routed) && RunningBelow(g, now, target)
    ensures SomeRunning(start)
  {
  }

  lemma SkippingIsTracked(g: GraphDef, start: seq<NodeState>, a: seq<NodeState>, b: seq<NodeState>, admitted: set<nat>, routed: bool)
    requires Tracked(start, a, admitted, routed) && |a| == |g.nodes| && SkipPass(g, a, b)
    ensures Tracked(start, b, admitted, routed)
  {
  }

  lemma TrackedByExamination(g: GraphDef, start: seq<NodeState>, a: seq<NodeState>, b: seq<NodeState>, total: nat, admitted: set<nat>, routed: bool)
    requires Tracked(start, a, admitted, routed)
    requires WellFormed(g) && NoneRoutable(g, a, b, total, |a|)
    ensures Tracked(start, b, admitted, routed)
  {
  }

  lemma TrackedByLimit(g: GraphDef, start: seq<NodeState>, a: seq<NodeState>, mid: seq<NodeState>, b: seq<NodeState>, admitted: set<nat>, routed: bool)
    requires Tracked(start, a, admitted, routed) && |a| == |mid| == |g.nodes|
    requires forall i | 0 <= i < |mid| :: mid[i] == Exhausted(g, a, i)
    requires SkipPass(g, mid, b)
    ensures Tracked(start, b, admitted, routed)
  {
  }

  /** If nothing is ready although something is unfinished, a node was left running by an earlier process. */
  lemma NothingReady(g: GraphDef, before: seq<NodeState>, now: seq<NodeState>, start: seq<NodeState>, admitted: set<nat>, routed: bool)
    requires WellFormed(g) && |before| == |g.nodes| && SkipPass(g, before, now)
    requires Tracked(start, now, admitted, routed)
    requires ReadyNodes(g, now) == [] && !AllTerminal(now)
    ensures SomeRunning(start)
  {
    if forall i | 0 <= i < |now| :: !now[i].status.Running? {
      ReadyOrTerminal(g, before, now);
      assert false;
    }
  }

  lemma TrackedByRouting(g: GraphDef, start: seq<NodeState>, a: seq<NodeState>, b: seq<NodeState>, admitted: set<nat>, routed: bool, c: nat)
    requires WellFormed(g) && |a| == |g.nodes| && c < |a| && g.nodes[c].feedbackTo.Some?
    requires Tracked(start, a, admitted, routed) && Routed(g, a, b, c)
    ensures Tracked(start, b, admitted, true)
  {
  }

  lemma TrackedByWave(g: GraphDef, start: seq<NodeState>, a: seq<NodeState>, b: seq<NodeState>, ready: seq<nat>, reached: nat,
                      admitted: set<nat>, inWave: set<nat>, routed: bool)
    requires WellFormed(g) && |start| == |g.nodes| && |a| == |g.nodes| && Schedulable(g, a) && Admits(g, start, admitted)
    requires Tracked(start, a, admitted, routed)
    requires ready == ReadyNodes(g, a) && WaveSoFar(a, b, ready, reached, inWave, false)
    ensures Tracked(start, b, admitted, routed)
    ensures !routed ==> forall i | i in inWave :: i in admitted && i < |start| && Open(start[i])
  {
    forall i: nat | i < |b| && i in ready
      ensures IsReady(g, a, i) && HasCapacity(g.nodes[i], a[i])
      ensures b[i].status.Running? ==> start[i].status.Running?
      ensures b[i].currentAttempt >= a[i].currentAttempt
      ensures !routed ==> i in admitted && Open(start[i])
    {
      var p :| 0 <= p < |ready| && ready[p] == i;
      assert IsReady(g, a, i);
      if p >= reached {
        assert b[i] == a[i];
      }
      if !routed {
        ReadyIsAdmitted(g, start, a, admitted, i);
      }
    }
  }

  lemma InWaveIsAdmitted(g: GraphDef, start: seq<NodeState>, a: seq<NodeState>, b: seq<NodeState>, ready: seq<nat>, reached: nat,
                         admitted: set<nat>, inWave: set<nat>, routed: bool, lost: bool)
    requires WellFormed(g) && |start| == |g.nodes| && |a| == |g.nodes| && Schedulable(g, a) && Admits(g, start, admitted)
    requires Tracked(start, a, admitted, routed)
    requires ready == ReadyNodes(g, a) && WaveSoFar(a, b, ready, reached, inWave, lost)
    ensures !routed ==> forall i | i in inWave :: i in admitted && i < |start| && Open(start[i])
  {
  }

  // ---------------------------------------------------------------- global limit

  /** An open node whose dependencies are done, once the global limit is reached. */
  function Exhausted(g: GraphDef, nodes: seq<NodeState>, i: nat): NodeState
    requires |nodes| == |g.nodes| && i < |nodes|
  {
    if IsReady(g, nodes, i)
    then nodes[i].(status := if LastIs(nodes[i], AttemptDone) then Pending else Failed)
    else nodes[i]
  }

  lemma ExhaustionKeepsConsistency(g: GraphDef, a: seq<NodeState>, b: seq<NodeState>, total: nat, dry: bool)
    requires WellFormed(g) && Consistent(g, a, total, dry) && |b| == |a|
    requires forall i | 0 <= i < |a| :: b[i] == Exhausted(g, a, i)
    ensures Consistent(g, b, total, dry)
  {
    hide RunState.NodeAccepted, RunState.TotalAttempts;
    StatusesChanged(g, a, b, dry);
    OrderKept(g, a, b);
  }

  // ---------------------------------------------------------------- resume and close

  ghost predicate ResumedAll(g: GraphDef, before: seq<NodeState>, after: seq<NodeState>)
    requires |before| == |g.nodes|
  {
    |after| == |before| && forall i | 0 <= i < |before| :: after[i] == Resumed(g.nodes[i], before[i])
  }

  lemma ResumeKeepsConsistency(g: GraphDef, a: seq<NodeState>, b: seq<NodeState>, total: nat, dry: bool)
    requires WellFormed(g) && Consistent(g, a, total, dry) && ResumedAll(g, a, b)
    ensures Consistent(g, b, total, dry)
    ensures forall i | 0 <= i < |b| :: !b[i].status.Running? && !b[i].status.Skipped?
    ensures forall i | 0 <= i < |b| :: b[i].status.Failed? ==> !HasCapacity(g.nodes[i], b[i])
    ensures forall i | 0 <= i < |b| :: a[i].status.Done? ==> b[i] == a[i]
    ensures forall i | 0 <= i < |b| :: b[i].status.Done? ==> a[i].status.Done?
    ensures forall i | 0 <= i < |b| :: b[i].currentAttempt == a[i].currentAttempt
  {
    forall i | 0 <= i < |b|
      ensures NodeAccepted(g.nodes[i], dry, b[i]) && (Open(b[i]) ==> HasCapacity(g.nodes[i], b[i]))
      ensures !b[i].status.Running? && !b[i].status.Skipped?
      ensures b[i].status.Failed? ==> !HasCapacity(g.nodes[i], b[i])
      ensures a[i].status.Done? ==> b[i] == a[i]
      ensures b[i].status.Done? ==> a[i].status.Done?
      ensures b[i].currentAttempt == a[i].currentAttempt
    {
      ResumptionAccepted(g.nodes[i], dry, a[i]);
    }
    TotalDependsOnCountersOnly(a, b);
    forall i | 0 <= i < |b| && b[i].status.Done? ensures DependenciesDone(g, b, i) {
      assert DependenciesDone(g, a, i);
    }
  }

  /** Resuming twice is resuming once, and the second time reopens nothing. */
  lemma ResumeAllIdempotent(g: GraphDef, a: seq<NodeState>, b: seq<NodeState>, c: seq<NodeState>)
    requires |a| == |g.nodes| && ResumedAll(g, a, b) && ResumedAll(g, b, c)
    ensures c == b
    ensures forall i | 0 <= i < |b| :: !Reopens(g.nodes[i], b[i])
  {
  }

  /** A run in which nothing reopened keeps a status the store accepts. */
  lemma UnreopenedStatus(g: GraphDef, a: seq<NodeState>, b: seq<NodeState>, after: Snapshot)
    requires |a| == |g.nodes| && ResumedAll(g, a, b) && after.nodes == b
    requires forall i | 0 <= i < |a| :: !Reopens(g.nodes[i], a[i])
    requires StatusAccepted(after.(nodes := a))
    ensures StatusAccepted(after)
  {
  }

  ghost predicate ClosedAll(before: seq<NodeState>, after: seq<NodeState>) {
    |after| == |before| && forall i | 0 <= i < |before| :: after[i] == Closed(before[i])
  }

  /**
   * A reopened node that already passed once and waits for nothing: closing the
   * run would have to skip it without a failed or skipped dependency.
   */
  predicate Stranded(g: GraphDef, nodes: seq<NodeState>, i: nat)
    requires |nodes| == |g.nodes| && i < |nodes|
  {
    IsReady(g, nodes, i) && LastIs(nodes[i], AttemptDone)
  }

  lemma SkippedByClose(g: GraphDef, resumed: seq<NodeState>, closed: seq<NodeState>, i: nat)
    requires WellFormed(g) && |resumed| == |g.nodes| && i < |closed| && ClosedAll(resumed, closed)
    requires forall i | 0 <= i < |resumed| :: !resumed[i].status.Running? && !resumed[i].status.Skipped?
    requires closed[i].status.Skipped?
    ensures HasBlockingDependency(g, closed, i) <==> !Stranded(g, resumed, i)
  {
  }

  lemma ClosedSchedulable(g: GraphDef, resumed: seq<NodeState>, closed: seq<NodeState>)
    requires |resumed| == |g.nodes| && Schedulable(g, resumed) && ClosedAll(resumed, closed)
    requires forall i | 0 <= i < |resumed| :: !resumed[i].status.Running?
    ensures Schedulable(g, closed)
  {
  }

  /**
   * A resumed run that is then closed is accepted by the store exactly when no
   * node is stranded and some node ends up failed.
   */
  lemma ClosePersistable(g: GraphDef, resumed: seq<NodeState>, closed: seq<NodeState>, total: nat, dry: bool)
    requires WellFormed(g) && Consistent(g, resumed, total, dry)
    requires forall i | 0 <= i < |resumed| :: !resumed[i].status.Running? && !resumed[i].status.Skipped?
    requires ClosedAll(resumed, closed)
    requires exists i | 0 <= i < |closed| :: closed[i].status.Failed?
    ensures Persistable(g, Snapshot(closed, total, Unsuccessful, dry))
            <==> forall i | 0 <= i < |resumed| :: !Stranded(g, resumed, i)
    ensures forall i | 0 <= i < |closed| :: Terminal(closed[i])
    ensures forall i | 0 <= i < |closed| :: resumed[i].status.Done? ==> closed[i] == resumed[i]
  {
    hide RunState.NodeAccepted, RunState.TotalAttempts;
    StatusesChanged(g, resumed, closed, dry);
    forall i | 0 <= i < |closed| && closed[i].status.Done? ensures DependenciesDone(g, closed, i) {
      assert DependenciesDone(g, resumed, i);
    }
    forall i | 0 <= i < |closed| && closed[i].status.Skipped?
      ensures HasBlockingDependency(g, closed, i) <==> !Stranded(g, resumed, i)
    {
      SkippedByClose(g, resumed, closed, i);
    }
  }

  // ---------------------------------------------------------------- dry runs

  predicate NoGateFailure(nodes: seq<NodeState>) {
    forall i | 0 <= i < |nodes| :: forall k | 0 <= k < |nodes[i].attempts| :: nodes[i].attempts[k].outcome != Some(GateFailure)
  }

  /**
   * Switching a run to dry mode is accepted exactly when no live attempt in its
   * history failed at a shell gate.
   */
  lemma DrySwitchAccepted(g: GraphDef, nodes: seq<NodeState>, total: nat, dry: bool)
    requires Consistent(g, nodes, total, dry)
    ensures Consistent(g, nodes, total, true) <==> NoGateFailure(nodes)
  {
  }

  // ---------------------------------------------------------------- the refused saves, on concrete runs

  function PassedAttempt(): Attempt { Attempt(1, AttemptDone, true, None, false, false, false, Some(Passed), false) }

  function RoutedRejection(): Attempt { Attempt(1, AttemptFailed, true, None, false, true, false, Some(SubstantiveRejection), true) }

  /** An explorer and a checker that sends its rejections back to it. */
  function CheckedPair(): GraphDef {
    GraphDef([NodeDef(Explorer, [], 2, false, None), NodeDef(Checker, [0], 2, false, Some(0))], 9, 2)
  }

  /** Right after a rejection was routed, closing the run yields a state the store refuses: the reopened node is skipped for no reason. */
  lemma RoutedRunCannotBeClosed() returns (resumed: seq<NodeState>, closed: seq<NodeState>)
    ensures |resumed| == 2 && Consistent(CheckedPair(), resumed, 2, false) && ResumedAll(CheckedPair(), resumed, resumed)
    ensures ClosedAll(resumed, closed) && AnyFailed(closed) && !Persistable(CheckedPair(), Snapshot(closed, 2, Unsuccessful, false))
  {
    SampleNodesAccepted();
    hide RunState.NodeAccepted;
    resumed := [NodeState(Pending, [PassedAttempt()], 1), NodeState(Pending, [RoutedRejection()], 1)];
    closed := [NodeState(Skipped, [PassedAttempt()], 1), NodeState(Failed, [RoutedRejection()], 1)];
    var rest := [resumed[1]];
    assert rest[1..] == [] && resumed[1..] == rest && TotalAttempts(rest) == 1 && TotalAttempts(resumed) == 2;
    assert IsReady(CheckedPair(), resumed, 0);
    assert closed[1].status.Failed?;
    assert !HasBlockingDependency(CheckedPair(), closed, 0);
  }

  /** A live run with a recorded gate failure cannot be continued dry. */
  lemma DrySwitchCanBeRefused() returns (g: GraphDef, nodes: seq<NodeState>)
    ensures WellFormed(g) && |nodes| == |g.nodes| && Consistent(g, nodes, 1, false) && !Persistable(g, Snapshot(nodes, 1, Executing, true))
  {
    g := GraphDef([NodeDef(RunState.Shell, [], 2, false, None)], 9, 1);
    nodes := [NodeState(Pending, [Attempt(1, AttemptFailed, true, Some(false), false, false, false, Some(GateFailure), false)], 1)];
    assert nodes[1..] == [];
    assert !NodeAccepted(g.nodes[0], true, nodes[0]) by {
      assert !AttemptAccepted(g.nodes[0], true, nodes[0].attempts[0]);
    }
  }

  lemma SampleNodesAccepted()
    ensures NodeAccepted(NodeDef(Explorer, [], 2, false, None), false, NodeState(Done, [PassedAttempt()], 1))
    ensures NodeAccepted(NodeDef(Checker, [0], 2, false, Some(0)), false, NodeState(Failed, [RoutedRejection().(feedbackApplied := false)], 1))
    ensures NodeAccepted(NodeDef(Implementer, [0], 2, false, None), false, NodeState(RunState.Running, [FreshAttempt(1)], 1))
    ensures NodeAccepted(NodeDef(Implementer, [0], 2, false, None), false, NodeState(Pending, [], 0))
    ensures NodeAccepted(NodeDef(Explorer, [], 2, false, None), false, NodeState(Pending, [PassedAttempt()], 1))
    ensures NodeAccepted(NodeDef(Checker, [0], 2, false, Some(0)), false, NodeState(Pending, [RoutedRejection()], 1))
  {
  }

  /** The pair, and two implementers behind the explorer. */
  function SharedTarget(): GraphDef {
    GraphDef(CheckedPair().nodes + [NodeDef(Implementer, [0], 2, false, None), NodeDef(Implementer, [0], 2, false, None)], 9, 2)
  }

  /**
   * What a process leaves that dies in its second wave, in batches of two: the checker
   * has rejected, the first implementer was running and the second one had not started.
   */
  function InterruptedNodes(): seq<NodeState> {
    [NodeState(Done, [PassedAttempt()], 1), NodeState(Failed, [RoutedRejection().(feedbackApplied := false)], 1),
     NodeState(RunState.Running, [FreshAttempt(1)], 1), NodeState(Pending, [], 0)]
  }

  lemma InterruptedIsConsistent()
    ensures WellFormed(SharedTarget()) && |InterruptedNodes()| == |SharedTarget().nodes| == 4
    ensures Consistent(SharedTarget(), InterruptedNodes(), 3, false)
    ensures Persistable(SharedTarget(), Snapshot(InterruptedNodes(), 3, Executing, false)) && Schedulable(SharedTarget(), InterruptedNodes())
  {
    SampleNodesAccepted();
    hide RunState.NodeAccepted;
    var before := InterruptedNodes();
    var last, tail, rest := [before[3]], [before[2], before[3]], [before[1], before[2], before[3]];
    assert last[1..] == [] && tail[1..] == last && rest[1..] == tail && before[1..] == rest;
    assert TotalAttempts(last) == 0 && TotalAttempts(tail) == 1 && TotalAttempts(rest) == 2 && TotalAttempts(before) == 3;
  }

  lemma {:induction false} NoneReady(g: GraphDef, nodes: seq<NodeState>, n: nat)
    requires |nodes| == |g.nodes| && n <= |nodes| && forall k | 0 <= k < n :: !IsReady(g, nodes, k)
    ensures ReadyBelow(g, nodes, n) == []
  {
    if n > 0 {
      NoneReady(g, nodes, n - 1);
    }
  }

  lemma OnlyLastReady(g: GraphDef, nodes: seq<NodeState>, n: nat)
    requires |nodes| == |g.nodes| == n + 1 && (forall k | 0 <= k < n :: !IsReady(g, nodes, k))
    requires IsReady(g, nodes, n) && HasCapacity(g.nodes[n], nodes[n])
    ensures ReadyNodes(g, nodes) == [n] && Batch(g, nodes, [n])
  {
    hide IsReady;
    NoneReady(g, nodes, n);
  }

  /** The second implementer is ready, and only it. */
  lemma InterruptedIsReady()
    ensures WellFormed(SharedTarget()) && |InterruptedNodes()| == |SharedTarget().nodes|
    ensures SharedTarget().maxGlobalAttempts == 9
    ensures ReadyNodes(SharedTarget(), InterruptedNodes()) == [3] && Batch(SharedTarget(), InterruptedNodes(), [3])
  {
    hide RunState.NodeAccepted, RunState.Consistent, RunState.Persistable, ReadyBelow, ReadyNodes, Batch;
    var g, nodes := SharedTarget(), InterruptedNodes();
    assert !Open(nodes[0]) && !Open(nodes[1]) && !Open(nodes[2]) && DependenciesDone(g, nodes, 3);
    OnlyLastReady(g, nodes, 3);
  }

  /** Whatever becomes of it, the rejection fits every budget afterwards and would reopen the stale node. */
  lemma InterruptedWouldRoute(nodes: seq<NodeState>, granted: nat, lost: bool)
    requires BatchMoved(InterruptedNodes(), nodes, [3], granted, lost) && granted == 1
    ensures WellFormed(SharedTarget()) && |SharedTarget().nodes| == |nodes| == 4 && SharedTarget().nodes[1].feedbackTo == Some(0)
    ensures AwaitsRouting(SharedTarget().nodes[1], nodes[1]) && Affordable(SharedTarget(), nodes, 4, 1)
    ensures forall c | 0 <= c < 4 && AwaitsRouting(SharedTarget().nodes[c], nodes[c]) :: c == 1
    ensures RunningBelow(SharedTarget(), nodes, 0)
  {
    var g := SharedTarget();
    assert 0 !in [3] && 1 !in [3] && 2 !in [3];
    assert [3][0] == 3 && nodes[3].currentAttempt == 1;
    DescendsByEdge(g, 0, 2);
    forall i: nat | i in Descendants(g, 0) ensures i in {1, 2, 3} {
      var mid := LastStep(g, 0, i);
    }
    FewDescendants(Descendants(g, 0), {1, 2, 3});
  }

  lemma FewDescendants(a: set<nat>, b: set<nat>)
    requires a <= b
    ensures |a| <= |b|
  {
    assert b == a + (b - a);
  }
}
