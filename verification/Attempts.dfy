/**
 * One attempt of one node: what a worker reports, how the report is classified
 * and what it does to the node. Nothing here looks at any other node.
 */
module Attempts {
  import opened Wrappers
  import opened RunState

  /** The typed output of a worker after schema and path validation. */
  datatype Output = Absent | Malformed | Accepted(passed: bool, complete: bool)

  /** What one session produced. `gatePassed` is read only when a shell gate runs. */
  datatype Report = Report(output: Output, error: bool, gatePassed: bool, criteria: seq<string>)

  /**
   * How the promise of one node settled: with a saved outcome, with an outcome
   * whose save was refused, with an executor error, or with a save refused before
   * there was an outcome.
   */
  datatype Settlement = Reported(report: Report) | Unsaved(report: Report) | Threw | PersistenceLost {
    predicate Delivered() { Reported? || Unsaved? }

    predicate Loses() { Unsaved? || PersistenceLost? }
  }

  function ShellVerdict(def: NodeDef, dry: bool, r: Report): Option<bool> {
    if dry then None
    else if def.agent.Shell? || (def.gated && r.output.Accepted?) then Some(r.gatePassed)
    else None
  }

  predicate Rejects(def: NodeDef, r: Report) { def.agent.Checker? && r.output.Accepted? && !r.output.passed }

  predicate Unfinished(def: NodeDef, r: Report) { def.agent.Implementer? && r.output.Accepted? && !r.output.complete }

  /** Whether any failure text was collected: every cause below pushes at least one. */
  predicate HasFailures(def: NodeDef, dry: bool, r: Report) {
    || r.error
    || !r.output.Accepted?
    || ShellVerdict(def, dry, r) == Some(false)
    || Rejects(def, r)
    || Unfinished(def, r)
  }

  predicate Passes(def: NodeDef, dry: bool, r: Report) {
    && !HasFailures(def, dry, r)
    && r.output.Accepted?
    && (!ShellRequired(def) || dry || ShellVerdict(def, dry, r) == Some(true))
  }

  function Classify(def: NodeDef, dry: bool, r: Report): Outcome {
    if Passes(def, dry, r) then Passed
    else if r.error then SdkError
    else if !r.output.Accepted? then SchemaInvalid
    else if ShellRequired(def) && !dry && ShellVerdict(def, dry, r) != Some(true) then GateFailure
    else if Rejects(def, r) then SubstantiveRejection
    else if Unfinished(def, r) then Incomplete
    else GateFailure
  }

  function Concluded(def: NodeDef, dry: bool, a: Attempt, r: Report): Attempt {
    a.(status := if Passes(def, dry, r) then AttemptDone else AttemptFailed,
       schemaOk := r.output.Accepted?,
       shellOk := ShellVerdict(def, dry, r),
       error := r.error,
       rejected := Rejects(def, r),
       incomplete := Unfinished(def, r),
       outcome := Some(Classify(def, dry, r)))
  }

  function WithLast(s: NodeState, a: Attempt): NodeState
    requires s.attempts != []
  {
    s.(attempts := s.attempts[|s.attempts| - 1 := a])
  }

  function Last(s: NodeState): Attempt
    requires s.attempts != []
  {
    s.attempts[|s.attempts| - 1]
  }

  /** A node whose worker reported. */
  function AfterReport(def: NodeDef, dry: bool, s: NodeState, r: Report): NodeState
    requires s.attempts != []
  {
    var record := Concluded(def, dry, Last(s), r);
    var awaitsRouting := def.agent.Checker? && def.feedbackTo.Some? && record.outcome == Some(SubstantiveRejection);
    WithLast(s, record).(status :=
      if Passes(def, dry, r) then Done
      else if !awaitsRouting && HasCapacity(def, s) then Pending
      else Failed)
  }

  /** A node whose worker failed with an executor error. */
  function AfterThrow(def: NodeDef, s: NodeState): NodeState
    requires s.attempts != []
  {
    WithLast(s, Last(s).(status := AttemptFailed, schemaOk := false, error := true, outcome := Some(SdkError)))
      .(status := if HasCapacity(def, s) then Pending else Failed)
  }

  function Settled(def: NodeDef, dry: bool, s: NodeState, settlement: Settlement): NodeState
    requires s.attempts != []
  {
    match settlement
    case Reported(r) => AfterReport(def, dry, s, r)
    case Unsaved(r) => AfterReport(def, dry, s, r)
    case Threw => AfterThrow(def, s)
    case PersistenceLost => s
  }

  function FreshAttempt(number: nat): Attempt {
    Attempt(number, AttemptRunning, false, None, false, false, false, None, false)
  }

  /** The node after one reservation request; `budget` says whether a global attempt is left. */
  function Reserved(def: NodeDef, s: NodeState, budget: bool): NodeState {
    if !HasCapacity(def, s) then s.(status := Failed)
    else if !budget then s.(status := if LastIs(s, AttemptDone) then Pending else Failed)
    else s.(status := RunState.Running, attempts := s.attempts + [FreshAttempt(s.currentAttempt + 1)], currentAttempt := s.currentAttempt + 1)
  }

  /** An interrupted or failed node as `alg_resume` prepares it. */
  function Resumed(def: NodeDef, s: NodeState): NodeState {
    if s.status.Running? then
      (if LastIs(s, AttemptRunning)
       then WithLast(s, Last(s).(status := AttemptFailed, schemaOk := false))
       else s).(status := if HasCapacity(def, s) then Pending else Failed)
    else if s.status.Failed? && HasCapacity(def, s) then s.(status := Pending)
    else if s.status.Skipped? then s.(status := Pending)
    else s
  }

  predicate Reopens(def: NodeDef, s: NodeState) {
    (s.status.Running? && HasCapacity(def, s)) || (s.status.Failed? && HasCapacity(def, s)) || s.status.Skipped?
  }

  /** An unfinished node as closing the run leaves it. */
  function Closed(s: NodeState): NodeState {
    if Terminal(s) then s
    else s.(status := if LastIs(s, AttemptDone) then Skipped else Failed)
  }

  // ---------------------------------------------------------------- what one step keeps

  /**
   * A node passes exactly when its output was accepted with a positive verdict,
   * nothing went wrong around it and a required live gate succeeded; a checker's
   * verdict is routed only when it is the one thing that failed.
   */
  lemma ClassificationMeaning(def: NodeDef, dry: bool, r: Report)
    ensures Classify(def, dry, r).Passed? <==>
            && !r.error
            && r.output.Accepted?
            && (def.agent.Checker? ==> r.output.passed)
            && (def.agent.Implementer? ==> r.output.complete)
            && (ShellRequired(def) && !dry ==> r.gatePassed)
    ensures Classify(def, dry, r).SubstantiveRejection? <==>
            && def.agent.Checker?
            && !r.error
            && r.output.Accepted? && !r.output.passed
            && (def.gated && !dry ==> r.gatePassed)
    ensures Classify(def, dry, r).GateFailure? <==>
            && !r.error
            && r.output.Accepted?
            && ShellRequired(def) && !dry && !r.gatePassed
  {
  }

  /** Every classified attempt satisfies the rules of the persisted attempt parser. */
  lemma ConclusionAccepted(def: NodeDef, dry: bool, a: Attempt, r: Report)
    ensures AttemptAccepted(def, dry, Concluded(def, dry, a, r))
  {
  }

  lemma HistoryUpdateAccepted(def: NodeDef, dry: bool, s: NodeState, a: Attempt, status: NodeStatus)
    requires NodeAccepted(def, dry, s) && s.attempts != []
    requires a.number == Last(s).number && AttemptAccepted(def, dry, a) && !a.status.AttemptRunning?
    requires status.Done? ==> a.status.AttemptDone?
    requires status.Failed? ==> a.status.AttemptFailed?
    requires !status.Running?
    ensures NodeAccepted(def, dry, WithLast(s, a).(status := status))
    ensures LastIs(WithLast(s, a), a.status)
  {
  }

  lemma SettlementAccepted(def: NodeDef, dry: bool, s: NodeState, settlement: Settlement)
    requires NodeAccepted(def, dry, s) && s.status.Running?
    ensures s.attempts != []
    ensures NodeAccepted(def, dry, Settled(def, dry, s, settlement))
    ensures Open(Settled(def, dry, s, settlement)) ==> HasCapacity(def, s)
    ensures !Settled(def, dry, s, settlement).status.Skipped?
    ensures Settled(def, dry, s, settlement).currentAttempt == s.currentAttempt
    ensures Settled(def, dry, s, settlement).status.Running? <==> settlement.PersistenceLost?
  {
    match settlement
    case Reported(r) =>
      ConclusionAccepted(def, dry, Last(s), r);
      HistoryUpdateAccepted(def, dry, s, Concluded(def, dry, Last(s), r), AfterReport(def, dry, s, r).status);
    case Unsaved(r) =>
      ConclusionAccepted(def, dry, Last(s), r);
      HistoryUpdateAccepted(def, dry, s, Concluded(def, dry, Last(s), r), AfterReport(def, dry, s, r).status);
    case Threw =>
      HistoryUpdateAccepted(def, dry, s, Last(AfterThrow(def, s)), AfterThrow(def, s).status);
    case PersistenceLost =>
  }

  lemma ReservationAccepted(def: NodeDef, dry: bool, s: NodeState, budget: bool)
    requires NodeAccepted(def, dry, s) && Open(s) && HasCapacity(def, s)
    ensures NodeAccepted(def, dry, Reserved(def, s, budget))
  {
  }

  lemma ResumptionAccepted(def: NodeDef, dry: bool, s: NodeState)
    requires NodeAccepted(def, dry, s) && (Open(s) || s.status.Skipped? ==> HasCapacity(def, s))
    ensures NodeAccepted(def, dry, Resumed(def, s))
    ensures Open(Resumed(def, s)) ==> HasCapacity(def, s)
    ensures !Resumed(def, s).status.Running? && !Resumed(def, s).status.Skipped?
    ensures Resumed(def, s).status.Failed? ==> !HasCapacity(def, s)
    ensures s.status.Done? ==> Resumed(def, s) == s
    ensures Resumed(def, s).status.Done? ==> s.status.Done?
    ensures Resumed(def, s).currentAttempt == s.currentAttempt
  {
  }

  /** Preparing a node for resumption twice is preparing it once. */
  lemma ResumeIdempotent(def: NodeDef, s: NodeState)
    ensures Resumed(def, Resumed(def, s)) == Resumed(def, s)
    ensures !Reopens(def, Resumed(def, s))
  {
  }

  // ---------------------------------------------------------------- what becomes of a node

  /** The worker delivered what its agent was to deliver, and a required live gate succeeded. */
  predicate Succeeds(def: NodeDef, dry: bool, r: Report) {
    && !r.error && r.output.Accepted?
    && (def.agent.Checker? ==> r.output.passed)
    && (def.agent.Implementer? ==> r.output.complete)
    && ((def.agent.Shell? || def.gated) && !dry ==> r.gatePassed)
  }

  /** A checker with somebody to send its rejection to has rejected, and nothing else went wrong. */
  predicate SendsBack(def: NodeDef, dry: bool, r: Report) {
    && def.agent.Checker? && def.feedbackTo.Some?
    && !r.error && r.output.Accepted? && !r.output.passed
    && (def.gated && !dry ==> r.gatePassed)
  }

  /**
   * A node after its attempt number `used`: done when the worker succeeded; otherwise it is
   * tried again while attempts are left, except that a rejection waits for its routing.
   */
  predicate EndsAs(def: NodeDef, dry: bool, used: nat, settlement: Settlement, status: NodeStatus) {
    match settlement
    case Reported(r) => EndsAfterReport(def, dry, used, r, status)
    case Unsaved(r) => EndsAfterReport(def, dry, used, r, status)
    case Threw => status == if used < def.maxAttempts then Pending else Failed
    case PersistenceLost => status.Running?
  }

  predicate EndsAfterReport(def: NodeDef, dry: bool, used: nat, r: Report, status: NodeStatus) {
    && (status.Done? <==> Succeeds(def, dry, r))
    && (status.Failed? <==> !Succeeds(def, dry, r) && (used >= def.maxAttempts || SendsBack(def, dry, r)))
    && (status.Pending? <==> !Succeeds(def, dry, r) && used < def.maxAttempts && !SendsBack(def, dry, r))
  }

  /** What the record of the attempt says about a report. */
  predicate Records(def: NodeDef, dry: bool, r: Report, a: Attempt) {
    && (a.status == if Succeeds(def, dry, r) then AttemptDone else AttemptFailed)
    && (a.schemaOk <==> r.output.Accepted?) && (a.error <==> r.error)
    && (a.rejected <==> def.agent.Checker? && r.output.Accepted? && !r.output.passed)
    && (a.incomplete <==> def.agent.Implementer? && r.output.Accepted? && !r.output.complete)
    && (a.shellOk == if !dry && (def.agent.Shell? || (def.gated && r.output.Accepted?)) then Some(r.gatePassed) else None)
    && (def.agent.Checker? && def.feedbackTo.Some? ==> (a.outcome == Some(SubstantiveRejection) <==> SendsBack(def, dry, r)))
  }

  /** Only the last attempt is rewritten, it keeps its number, and a lost save rewrites nothing. */
  lemma SettlementMeaning(def: NodeDef, dry: bool, s: NodeState, settlement: Settlement)
    requires s.attempts != [] && s.status.Running?
    ensures var after := Settled(def, dry, s, settlement);
            && EndsAs(def, dry, s.currentAttempt, settlement, after.status)
            && after.currentAttempt == s.currentAttempt && |after.attempts| == |s.attempts|
            && after.attempts[..|s.attempts| - 1] == s.attempts[..|s.attempts| - 1]
            && Last(after).number == Last(s).number
            && (settlement.Delivered() ==> Records(def, dry, settlement.report, Last(after)) && Last(after).feedbackApplied == Last(s).feedbackApplied)
            && (settlement.Threw? ==> Last(after).error && Last(after).status.AttemptFailed?)
            && (settlement.PersistenceLost? ==> after == s)
  {
  }
}
