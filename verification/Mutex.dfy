/**
 * The lease mutex as a state machine: one lock file, one mutation claim file,
 * any number of handles in any number of processes, each file operation one
 * step, any process dying at any step.
 */
module Mutex {
  import opened Wrappers

  type Token = nat

  datatype Process = Process(host: string, pid: nat)

  datatype FileRecord = FileRecord(token: Token, process: Process, expires: nat)

  datatype Op = Acquire | Renew | Release

  datatype Phase =
    | Idle
    | Contending(op: Op)                  // wants the claim
    | Doomed(op: Op, seen: Token)         // has confirmed a stale claim and is about to rename it away
    | Claimed(op: Op)                     // created the claim
    | Retiring(seen: Token)               // has confirmed a stale lock and is about to rename it away
    | Vacated                             // found or made the lock path free
    | Checked(op: Op)                     // has found its own token in the lock
    | Dropping                            // about to look at the claim once more
    | Removing                            // has found its own claim and is about to remove it

  /** A handle: `acquired` from the creation of its lock file to its removal. */
  datatype Handle = Handle(process: Process, phase: Phase, acquired: bool, released: bool, lost: bool)

  datatype State = State(lock: Option<FileRecord>, claim: Option<FileRecord>, handles: map<Token, Handle>, dead: set<Process>, now: nat)

  datatype Step =
    | Tick(elapsed: nat) | Die(process: Process)
    | Start(t: Token, op: Op) | GiveUp(t: Token) | LoseHeart(t: Token)
    | CreateClaim(t: Token) | ConfirmStaleClaim(t: Token) | RenameClaim(t: Token)
    | ReadLock(t: Token) | RenameLock(t: Token) | CreateLock(t: Token, lease: nat)
    | ReadOwnLock(t: Token) | ReplaceLock(t: Token, lease: nat) | RemoveLock(t: Token)
    | ReadOwnClaim(t: Token) | RemoveClaim(t: Token)

  const CLAIM_LEASE := 5000

  predicate Live(s: State, t: Token) {
    t in s.handles && s.handles[t].process !in s.dead
  }

  datatype Disposition = Held | Takeover | Unverifiable

  /** How a handle on `host` may treat a record; the liveness oracle never calls a running process dead. */
  function DispositionOf(s: State, r: FileRecord, host: string): Disposition {
    if r.expires > s.now then Held
    else if r.process.host != host then Unverifiable
    else if r.process in s.dead then Takeover
    else Held
  }

  predicate CanTakeOver(s: State, r: Option<FileRecord>, t: Token)
    requires t in s.handles
  {
    r.Some? && DispositionOf(s, r.value, s.handles[t].process.host) == Takeover
  }

  predicate Own(r: Option<FileRecord>, t: Token) {
    r.Some? && r.value.token == t
  }

  predicate InClaim(p: Phase) {
    p.Claimed? || p.Retiring? || p.Vacated? || p.Checked? || p.Dropping? || p.Removing?
  }

  // ---------------------------------------------------------------- steps

  predicate Enabled(s: State, e: Step) {
    match e
    case Tick(_) => true
    case Die(_) => true
    case Start(t, op) =>
      Live(s, t) && s.handles[t].phase.Idle? &&
      (if op.Acquire? then !s.handles[t].acquired && !s.handles[t].released
       else if op.Renew? then s.handles[t].acquired && !s.handles[t].released && !s.handles[t].lost
       else s.handles[t].acquired)
    case GiveUp(t) =>
      Live(s, t) && (s.handles[t].phase.Contending? || s.handles[t].phase.Doomed? || s.handles[t].phase.Claimed?
                     || s.handles[t].phase.Retiring? || s.handles[t].phase.Vacated? || s.handles[t].phase.Checked?)
    case LoseHeart(t) => Live(s, t) && s.handles[t].acquired
    case CreateClaim(t) => Live(s, t) && s.handles[t].phase.Contending? && s.claim.None?
    case ConfirmStaleClaim(t) => Live(s, t) && s.handles[t].phase.Contending? && CanTakeOver(s, s.claim, t)
    case RenameClaim(t) => Live(s, t) && s.handles[t].phase.Doomed?
    case ReadLock(t) => Live(s, t) && s.handles[t].phase == Claimed(Acquire)
    case RenameLock(t) => Live(s, t) && s.handles[t].phase.Retiring?
    case CreateLock(t, lease) => Live(s, t) && s.handles[t].phase.Vacated?
    case ReadOwnLock(t) => Live(s, t) && s.handles[t].phase.Claimed? && !s.handles[t].phase.op.Acquire?
    case ReplaceLock(t, lease) => Live(s, t) && s.handles[t].phase == Checked(Renew)
    case RemoveLock(t) => Live(s, t) && s.handles[t].phase == Checked(Release)
    case ReadOwnClaim(t) => Live(s, t) && s.handles[t].phase.Dropping?
    case RemoveClaim(t) => Live(s, t) && s.handles[t].phase.Removing?
  }

  function At(s: State, t: Token, p: Phase): State
    requires t in s.handles
  {
    s.(handles := s.handles[t := s.handles[t].(phase := p)])
  }

  function Mine(s: State, t: Token, lease: nat): FileRecord
    requires t in s.handles
  {
    FileRecord(t, s.handles[t].process, s.now + lease)
  }

  function Apply(s: State, e: Step): State
    requires Enabled(s, e)
  {
    match e
    case Tick(elapsed) => s.(now := s.now + elapsed)
    case Die(p) => s.(dead := s.dead + {p})
    case Start(t, op) =>
      At(if op.Release? then s.(handles := s.handles[t := s.handles[t].(released := true)]) else s, t, Contending(op))
    case GiveUp(t) => At(s, t, if InClaim(s.handles[t].phase) then Dropping else Idle)
    case LoseHeart(t) => s.(handles := s.handles[t := s.handles[t].(lost := true)])
    case CreateClaim(t) => At(s, t, Claimed(s.handles[t].phase.op)).(claim := Some(Mine(s, t, CLAIM_LEASE)))
    case ConfirmStaleClaim(t) => At(s, t, Doomed(s.handles[t].phase.op, s.claim.value.token))
    case RenameClaim(t) =>
      // Renames whatever is at the claim path now; without a file there the attempt fails.
      if s.claim.None? then At(s, t, Idle) else At(s, t, Contending(s.handles[t].phase.op)).(claim := None)
    case ReadLock(t) =>
      if s.lock.None? then At(s, t, Vacated)
      else if CanTakeOver(s, s.lock, t) then At(s, t, Retiring(s.lock.value.token))
      else At(s, t, Dropping)
    case RenameLock(t) =>
      // Renames whatever is at the lock path now.
      if s.lock.None? then At(s, t, Dropping) else At(s, t, Vacated).(lock := None)
    case CreateLock(t, lease) =>
      if s.lock.Some? then At(s, t, Dropping)
      else At(s.(handles := s.handles[t := s.handles[t].(acquired := true)]), t, Dropping).(lock := Some(Mine(s, t, lease)))
    case ReadOwnLock(t) =>
      if Own(s.lock, t) then At(s, t, Checked(s.handles[t].phase.op))
      else if s.handles[t].phase.op.Renew? then At(s.(handles := s.handles[t := s.handles[t].(lost := true)]), t, Dropping)
      else At(s, t, Dropping)
    case ReplaceLock(t, lease) => At(s, t, Dropping).(lock := Some(Mine(s, t, lease)))
    case RemoveLock(t) => At(s.(handles := s.handles[t := s.handles[t].(acquired := false)]), t, Dropping).(lock := None)
    case ReadOwnClaim(t) => At(s, t, if Own(s.claim, t) then Removing else Idle)
    case RemoveClaim(t) => At(s, t, Idle).(claim := None)
  }

  /** `assertHeld` succeeds. */
  predicate AssertHeld(s: State, t: Token) {
    && Live(s, t) && s.handles[t].acquired && !s.handles[t].released && !s.handles[t].lost
    && Own(s.lock, t) && s.lock.value.expires > s.now
  }

  // ---------------------------------------------------------------- invariant

  predicate HandleInv(s: State, t: Token)
    requires t in s.handles
  {
    var h := s.handles[t];
    && (InClaim(h.phase) ==> Own(s.claim, t))
    && (h.acquired ==> Own(s.lock, t))
    && match h.phase
       case Contending(op) => op.Acquire? <==> !h.acquired
       case Doomed(op, seen) => (op.Acquire? <==> !h.acquired) && seen in s.handles && s.handles[seen].process in s.dead
       case Claimed(op) => op.Acquire? <==> !h.acquired
       case Retiring(seen) =>
         && !h.acquired && Own(s.lock, seen) && s.lock.value.process in s.dead
         && s.lock.value.expires <= s.now && s.lock.value.process.host == h.process.host
       case Vacated => !h.acquired && s.lock.None?
       case Checked(op) => !op.Acquire? && h.acquired
       case _ => true
  }

  predicate RecordTrue(s: State, r: Option<FileRecord>) {
    r.Some? ==> r.value.token in s.handles && s.handles[r.value.token].process == r.value.process
  }

  predicate Inv(s: State) {
    && RecordTrue(s, s.lock) && RecordTrue(s, s.claim)
    && (forall t | t in s.handles && Live(s, t) :: HandleInv(s, t))
    && (s.claim.Some? && Live(s, s.claim.value.token) ==> InClaim(s.handles[s.claim.value.token].phase))
  }

  predicate Initial(s: State) {
    && s.lock.None? && s.claim.None?
    && forall t | t in s.handles :: s.handles[t].phase.Idle? && !s.handles[t].acquired
  }

  /** The claim a rename is about to remove is not that of a running process. */
  predicate RenameHarmless(s: State) {
    s.claim.Some? ==> !Live(s, s.claim.value.token)
  }

  lemma InitialInv(s: State)
    requires Initial(s)
    ensures Inv(s)
  {
  }

  predicate ActsOnLock(e: Step) {
    e.RenameLock? || e.CreateLock? || e.ReplaceLock? || e.RemoveLock?
  }

  predicate ActsOnClaim(e: Step) {
    e.CreateClaim? || e.RemoveClaim? || e.RenameClaim?
  }

  lemma LockStepKeepsInv(s: State, e: Step)
    requires Inv(s) && Enabled(s, e) && ActsOnLock(e)
    ensures Inv(Apply(s, e))
  {
    var s' := Apply(s, e);
    assert HandleInv(s, e.t);
    forall t | t in s'.handles && Live(s', t) ensures HandleInv(s', t) {
      assert t in s.handles && Live(s, t) && HandleInv(s, t);
    }
  }

  lemma ClaimStepKeepsInv(s: State, e: Step)
    requires Inv(s) && Enabled(s, e) && (e.CreateClaim? || e.RemoveClaim?)
    ensures Inv(Apply(s, e))
  {
  }

  lemma ReadingKeepsInv(s: State, e: Step)
    requires Inv(s) && Enabled(s, e) && !ActsOnLock(e) && !ActsOnClaim(e)
    ensures Inv(Apply(s, e))
  {
    var s' := Apply(s, e);
    forall t | t in s'.handles && Live(s', t) ensures HandleInv(s', t) {
      ReadingKeepsHandle(s, e, t);
    }
    hide HandleInv;
    if s'.claim.Some? && Live(s', s'.claim.value.token) {
      assert Live(s, s.claim.value.token);
    }
  }

  lemma ReadingKeepsHandle(s: State, e: Step, t: Token)
    requires Inv(s) && Enabled(s, e) && !ActsOnLock(e) && !ActsOnClaim(e)
    requires t in s.handles && Live(Apply(s, e), t)
    ensures t in Apply(s, e).handles && HandleInv(Apply(s, e), t)
  {
    assert Live(s, t) && HandleInv(s, t) && RecordTrue(s, s.lock) && RecordTrue(s, s.claim);
    var s' := Apply(s, e);
    hide Inv, HandleInv, RecordTrue;
    if e.Tick? || e.Die? || e.t != t {
      BystanderKept(s, s', t);
    } else {
      ReaderKept(s, e);
    }
  }

  lemma BystanderKept(s: State, s': State, t: Token)
    requires t in s.handles && HandleInv(s, t)
    requires s'.lock == s.lock && s'.claim == s.claim && s.dead <= s'.dead && s.now <= s'.now && s'.handles.Keys == s.handles.Keys
    requires s'.handles[t] == s.handles[t] && forall u | u in s.handles :: s'.handles[u].process == s.handles[u].process
    ensures HandleInv(s', t)
  {
  }

  lemma ReaderKept(s: State, e: Step)
    requires Enabled(s, e) && !ActsOnLock(e) && !ActsOnClaim(e) && !e.Tick? && !e.Die?
    requires HandleInv(s, e.t) && RecordTrue(s, s.lock) && RecordTrue(s, s.claim)
    ensures HandleInv(Apply(s, e), e.t)
  {
  }

  /** Every step but the claim rename keeps the invariant. */
  lemma StepKeepsInv(s: State, e: Step)
    requires Inv(s) && Enabled(s, e) && !e.RenameClaim?
    ensures Inv(Apply(s, e))
  {
    hide Inv, Apply, Enabled;
    if ActsOnLock(e) {
      LockStepKeepsInv(s, e);
    } else if ActsOnClaim(e) {
      ClaimStepKeepsInv(s, e);
    } else {
      ReadingKeepsInv(s, e);
    }
  }

  /** The claim rename keeps the invariant exactly when the claim at the path is not held by a running process. */
  lemma RenameKeepsInvIff(s: State, t: Token)
    requires Inv(s) && Enabled(s, RenameClaim(t))
    ensures Inv(Apply(s, RenameClaim(t))) <==> RenameHarmless(s)
  {
    var s' := Apply(s, RenameClaim(t));
    if RenameHarmless(s) {
      forall u | u in s'.handles && Live(s', u) ensures HandleInv(s', u) {
        assert u in s.handles && Live(s, u) && HandleInv(s, u);
      }
    } else {
      var c := s.claim.value.token;
      assert HandleInv(s, c);
      assert c in s'.handles && Live(s', c) && !HandleInv(s', c);
    }
  }

  // ---------------------------------------------------------------- runs

  datatype Run = Run(states: seq<State>, steps: seq<Step>)

  predicate ValidRun(r: Run) {
    && |r.states| == |r.steps| + 1
    && Initial(r.states[0])
    && forall i | 0 <= i < |r.steps| :: Enabled(r.states[i], r.steps[i]) && r.states[i + 1] == Apply(r.states[i], r.steps[i])
  }

  function Last(r: Run): State
    requires ValidRun(r)
  {
    r.states[|r.steps|]
  }

  /** A claim is renamed away only while it is the one that was confirmed: confirming and renaming are one step. */
  predicate AtomicTakeover(r: Run)
    requires ValidRun(r)
  {
    forall i | 0 <= i < |r.steps| && r.steps[i].RenameClaim? ::
      var s, t := r.states[i], r.steps[i].t;
      s.claim.Some? ==> s.claim.value.token == s.handles[t].phase.seen
  }

  predicate HoldsClaim(s: State, p: Process) {
    exists t | t in s.handles :: s.handles[t].process == p && InClaim(s.handles[t].phase)
  }

  /** No process dies while one of its handles holds the claim. */
  predicate NoDeathInClaim(r: Run)
    requires ValidRun(r)
  {
    forall i | 0 <= i < |r.steps| && r.steps[i].Die? :: !HoldsClaim(r.states[i], r.steps[i].process)
  }

  /** Whatever is renamed away as a stale claim, it is never the claim of a running process. */
  predicate RenamesHarmless(r: Run)
    requires ValidRun(r)
  {
    forall i | 0 <= i < |r.steps| && r.steps[i].RenameClaim? :: RenameHarmless(r.states[i])
  }

  /** Every state of a run satisfies the invariant exactly when every claim rename in it is harmless. */
  lemma RunKeepsInvIff(r: Run)
    requires ValidRun(r)
    ensures (forall k | 0 <= k <= |r.steps| :: Inv(r.states[k])) <==> RenamesHarmless(r)
  {
    if RenamesHarmless(r) {
      forall k | 0 <= k <= |r.steps| ensures Inv(r.states[k]) {
        HarmlessRunsKeepInv(r, k);
      }
    } else {
      var i :| 0 <= i < |r.steps| && r.steps[i].RenameClaim? && !RenameHarmless(r.states[i]);
      assert Enabled(r.states[i], r.steps[i]) && r.states[i + 1] == Apply(r.states[i], r.steps[i]);
      if Inv(r.states[i]) {
        RenameKeepsInvIff(r.states[i], r.steps[i].t);
        assert !Inv(r.states[i + 1]);
      }
    }
  }

  lemma {:induction false} HarmlessRunsKeepInv(r: Run, k: nat)
    requires ValidRun(r) && k <= |r.steps|
    requires forall i | 0 <= i < k && r.steps[i].RenameClaim? :: RenameHarmless(r.states[i])
    ensures Inv(r.states[k])
  {
    if k == 0 {
      InitialInv(r.states[0]);
    } else {
      HarmlessRunsKeepInv(r, k - 1);
      var s, e := r.states[k - 1], r.steps[k - 1];
      assert Enabled(s, e) && r.states[k] == Apply(s, e);
      if e.RenameClaim? {
        RenameKeepsInvIff(s, e.t);
      } else {
        StepKeepsInv(s, e);
      }
    }
  }

  /** In a run with one-step takeovers every claim rename is harmless. */
  lemma {:induction false} AtomicRunsAreHarmless(r: Run, k: nat)
    requires ValidRun(r) && AtomicTakeover(r) && k <= |r.steps|
    ensures forall i | 0 <= i < k && r.steps[i].RenameClaim? :: RenameHarmless(r.states[i])
  {
    if k > 0 {
      AtomicRunsAreHarmless(r, k - 1);
      if r.steps[k - 1].RenameClaim? {
        HarmlessRunsKeepInv(r, k - 1);
        assert Enabled(r.states[k - 1], r.steps[k - 1]);
        ConfirmedRenameIsHarmless(r.states[k - 1], r.steps[k - 1].t);
      }
    }
  }

  lemma ConfirmedRenameIsHarmless(s: State, t: Token)
    requires Inv(s) && Enabled(s, RenameClaim(t))
    requires s.claim.Some? ==> s.claim.value.token == s.handles[t].phase.seen
    ensures RenameHarmless(s)
  {
  }

  /** While no process dies inside the claim, there is no stale claim at all. */
  predicate NoStaleClaim(s: State) {
    && Inv(s)
    && (s.claim.Some? ==> Live(s, s.claim.value.token))
    && forall t | t in s.handles && Live(s, t) :: !s.handles[t].phase.Doomed?
  }

  /** The same without atomic takeovers, when no process dies while it holds the claim. */
  lemma {:induction false} QuietDeathsKeepInv(r: Run, k: nat)
    requires ValidRun(r) && NoDeathInClaim(r) && k <= |r.steps|
    ensures NoStaleClaim(r.states[k])
  {
    if k == 0 {
      InitialInv(r.states[0]);
    } else {
      QuietDeathsKeepInv(r, k - 1);
      var s, e := r.states[k - 1], r.steps[k - 1];
      assert Enabled(s, e) && r.states[k] == Apply(s, e);
      QuietStep(s, e);
    }
  }

  lemma QuietStep(s: State, e: Step)
    requires NoStaleClaim(s) && Enabled(s, e)
    requires e.Die? ==> !HoldsClaim(s, e.process)
    ensures NoStaleClaim(Apply(s, e))
  {
    StepKeepsInv(s, e);
    hide HandleInv;
  }

  // ---------------------------------------------------------------- what every run guarantees

  /** Renames are harmless when takeovers are atomic, and also when no process dies inside the claim. */
  lemma CarefulRunsAreHarmless(r: Run)
    requires ValidRun(r) && (AtomicTakeover(r) || NoDeathInClaim(r))
    ensures RenamesHarmless(r)
  {
    if AtomicTakeover(r) {
      AtomicRunsAreHarmless(r, |r.steps|);
    } else {
      forall i | 0 <= i < |r.steps| ensures !r.steps[i].RenameClaim? {
        QuietDeathsKeepInv(r, i);
        assert Enabled(r.states[i], r.steps[i]);
      }
    }
  }

  /**
   * In every state of every run with harmless renames at most one running
   * process holds the mutex, its lease expired or not; the lock file carries its
   * token; and nobody else passes `assertHeld`.
   */
  lemma MutualExclusion(r: Run, k: nat, a: Token, b: Token)
    requires ValidRun(r) && RenamesHarmless(r) && k <= |r.steps|
    requires Live(r.states[k], a) && r.states[k].handles[a].acquired
    ensures Own(r.states[k].lock, a) && r.states[k].lock.value.process == r.states[k].handles[a].process
    ensures Live(r.states[k], b) && r.states[k].handles[b].acquired ==> b == a
    ensures AssertHeld(r.states[k], b) ==> b == a
  {
    RunKeepsInvIff(r);
    assert Inv(r.states[k]);
  }

  predicate ActedBy(e: Step, t: Token) {
    match e
    case Tick(_) => false
    case Die(_) => false
    case _ => e.t == t
  }

  /** No step of anybody else, no passing of time and no death touches the lock file of a running holder. */
  lemma HolderIsNotDisplaced(r: Run, k: nat, t: Token)
    requires ValidRun(r) && RenamesHarmless(r) && k < |r.steps|
    requires Live(r.states[k], t) && r.states[k].handles[t].acquired && !ActedBy(r.steps[k], t)
    ensures r.states[k + 1].lock == r.states[k].lock
  {
    RunKeepsInvIff(r);
    assert Inv(r.states[k]);
    assert Enabled(r.states[k], r.steps[k]) && r.states[k + 1] == Apply(r.states[k], r.steps[k]);
    OthersKeepLock(r.states[k], r.steps[k], t);
  }

  lemma OthersKeepLock(s: State, e: Step, t: Token)
    requires Inv(s) && Enabled(s, e) && Live(s, t) && s.handles[t].acquired && !ActedBy(e, t)
    ensures Apply(s, e).lock == s.lock
  {
  }

  /** The holder's own renewal and release find the lock file theirs. */
  lemma HolderCanRenewAndRelease(s: State, t: Token)
    requires Inv(s) && Enabled(s, ReadOwnLock(t))
    ensures Apply(s, ReadOwnLock(t)).handles[t].phase.Checked?
  {
  }

  /** The state after the given steps, each of which has to be enabled in turn. */
  function After(s: State, steps: seq<Step>): Option<State> {
    if steps == [] then Some(s)
    else
      var before, e := After(s, steps[..|steps| - 1]), steps[|steps| - 1];
      if before.Some? && Enabled(before.value, e) then Some(Apply(before.value, e)) else None
  }

  /** The handle `t` alone can go from `s` to `s'` by these steps. */
  predicate Alone(s: State, steps: seq<Step>, t: Token, s': State) {
    After(s, steps) == Some(s') && forall k | 0 <= k < |steps| :: ActedBy(steps[k], t)
  }

  /** One more step of the same handle. */
  lemma Taken(from: State, steps: seq<Step>, s: State, e: Step, t: Token) returns (more: seq<Step>, s': State)
    requires Alone(from, steps, t, s) && Inv(s) && Enabled(s, e) && ActedBy(e, t) && (e.RenameClaim? ==> RenameHarmless(s))
    ensures more == steps + [e] && s' == Apply(s, e)
    ensures Alone(from, more, t, s') && Inv(s')
  {
    if e.RenameClaim? {
      RenameKeepsInvIff(s, t);
    } else {
      StepKeepsInv(s, e);
    }
    more, s' := steps + [e], Apply(s, e);
    assert more[..|more| - 1] == steps;
  }

  /** Confirms an abandoned claim and renames it away. */
  lemma StaleClaimRenamed(from: State, steps0: seq<Step>, s: State, t: Token) returns (steps: seq<Step>, s': State)
    requires Alone(from, steps0, t, s) && Inv(s) && Live(s, t) && s.handles[t].phase.Contending?
    requires CanTakeOver(s, s.claim, t) && steps0 != []
    ensures Alone(from, steps, t, s') && Inv(s') && steps != [] && steps[0] == steps0[0] && s' == s.(claim := None)
  {
    assert RenameHarmless(s);
    hide Inv, Alone;
    steps, s' := Taken(from, steps0, s, ConfirmStaleClaim(t), t);
    steps, s' := Taken(from, steps, s', RenameClaim(t), t);
    assert s'.handles == s.handles;
  }

  /** Starts an operation and clears an abandoned claim out of the way. */
  lemma ClaimCleared(s: State, t: Token, op: Op) returns (steps: seq<Step>, s': State)
    requires Inv(s) && Enabled(s, Start(t, op)) && (s.claim.None? || CanTakeOver(s, s.claim, t))
    ensures Alone(s, steps, t, s') && Inv(s') && steps != [] && steps[0] == Start(t, op)
    ensures s' == s.(claim := None,
                     handles := s.handles[t := s.handles[t].(phase := Contending(op), released := s.handles[t].released || op.Release?)])
  {
    hide Inv, Alone;
    NoSteps(s, t);
    steps, s' := Taken(s, [], s, Start(t, op), t);
    if s'.claim.Some? {
      steps, s' := StaleClaimRenamed(s, steps, s', t);
    }
  }

  lemma NoSteps(s: State, t: Token)
    ensures Alone(s, [], t, s)
  {
  }

  /** Takes the claim and finds or makes the lock path free. */
  lemma LockCleared(from: State, steps0: seq<Step>, s: State, t: Token) returns (steps: seq<Step>, s': State)
    requires Alone(from, steps0, t, s) && Inv(s) && Live(s, t) && s.handles[t].phase == Contending(Acquire)
    requires s.claim.None? && (s.lock.None? || CanTakeOver(s, s.lock, t))
    ensures Alone(from, steps, t, s') && Inv(s') && steps0 <= steps
    ensures s' == s.(lock := None, claim := Some(Mine(s, t, CLAIM_LEASE)), handles := s.handles[t := s.handles[t].(phase := Vacated)])
  {
    hide Inv, Alone;
    steps, s' := Taken(from, steps0, s, CreateClaim(t), t);
    steps, s' := Taken(from, steps, s', ReadLock(t), t);
    if s'.lock.Some? {
      steps, s' := Taken(from, steps, s', RenameLock(t), t);
    }
  }

  /**
   * A dead owner never blocks: where lock and claim are free or abandoned on this
   * host, there are steps of the handle alone, beginning with the start of an
   * acquisition, that end with the mutex held and the claim released.
   */
  lemma AbandonedMutexCanBeTaken(s: State, t: Token, lease: nat) returns (steps: seq<Step>, s': State)
    requires Inv(s) && Enabled(s, Start(t, Acquire))
    requires s.lock.None? || CanTakeOver(s, s.lock, t)
    requires s.claim.None? || CanTakeOver(s, s.claim, t)
    ensures steps != [] && steps[0] == Start(t, Acquire)
    ensures After(s, steps) == Some(s') && forall k | 0 <= k < |steps| :: ActedBy(steps[k], t)
    ensures Inv(s') && s' == s.(lock := Some(Mine(s, t, lease)), claim := None, handles := s.handles[t := s.handles[t].(acquired := true)])
    ensures lease > 0 && !s.handles[t].lost ==> AssertHeld(s', t)
  {
    hide Inv, After;
    steps, s' := ClaimCleared(s, t, Acquire);
    steps, s' := LockCleared(s, steps, s', t);
    steps, s' := Taken(s, steps, s', CreateLock(t, lease), t);
    steps, s' := ClaimDropped(s, steps, s', t);
  }

  /** What gets a mutation claim out of the way: none there, or one of a dead process of the same host that has expired. */
  predicate ClaimFree(s: State, t: Token)
    requires t in s.handles
  {
    match s.claim
    case None => true
    case Some(c) => c.expires <= s.now && c.process.host == s.handles[t].process.host && c.process in s.dead
  }

  /** Starts a renewal or a release, takes the claim and finds the lock its own. */
  lemma OwnLockChecked(s: State, t: Token, op: Op) returns (steps: seq<Step>, s': State)
    requires Inv(s) && Enabled(s, Start(t, op)) && !op.Acquire? && ClaimFree(s, t)
    ensures Alone(s, steps, t, s') && Inv(s') && steps != [] && steps[0] == Start(t, op)
    ensures s' == s.(claim := Some(Mine(s, t, CLAIM_LEASE)),
                     handles := s.handles[t := s.handles[t].(phase := Checked(op), released := s.handles[t].released || op.Release?)])
  {
    assert Own(s.lock, t);
    hide Inv, Alone;
    steps, s' := ClaimCleared(s, t, op);
    steps, s' := Taken(s, steps, s', CreateClaim(t), t);
    steps, s' := Taken(s, steps, s', ReadOwnLock(t), t);
  }

  /** Looks at its claim once more and removes it. */
  lemma ClaimDropped(from: State, steps0: seq<Step>, s: State, t: Token) returns (steps: seq<Step>, s': State)
    requires Alone(from, steps0, t, s) && Inv(s) && Live(s, t) && s.handles[t].phase.Dropping? && steps0 != []
    ensures Alone(from, steps, t, s') && Inv(s') && steps != [] && steps[0] == steps0[0]
    ensures s' == s.(claim := None, handles := s.handles[t := s.handles[t].(phase := Idle)])
  {
    assert Own(s.claim, t);
    hide Inv, Alone;
    steps, s' := Taken(from, steps0, s, ReadOwnClaim(t), t);
    steps, s' := Taken(from, steps, s', RemoveClaim(t), t);
  }

  /**
   * A holder, its lease expired or not, can renew by itself: steps of its own that begin with the
   * renewal end with its token in the lock, the lease counted from now, and its claim gone.
   */
  lemma HolderCanRenew(s: State, t: Token, lease: nat) returns (steps: seq<Step>, s': State)
    requires Inv(s) && Enabled(s, Start(t, Renew)) && ClaimFree(s, t)
    ensures steps != [] && steps[0] == Start(t, Renew)
    ensures After(s, steps) == Some(s') && forall k | 0 <= k < |steps| :: ActedBy(steps[k], t)
    ensures s'.lock.Some? && s'.lock.value.token == t && s'.lock.value.process == s.handles[t].process && s'.lock.value.expires == s.now + lease
    ensures Inv(s') && s'.claim.None? && s'.handles == s.handles && s'.now == s.now && s'.dead == s.dead
    ensures lease > 0 ==> AssertHeld(s', t)
  {
    hide Inv, After;
    steps, s' := OwnLockChecked(s, t, Renew);
    steps, s' := Taken(s, steps, s', ReplaceLock(t, lease), t);
    steps, s' := ClaimDropped(s, steps, s', t);
    assert s'.handles == s.handles;
  }

  /** A holder can release by itself: afterwards lock and claim are gone and it holds nothing. */
  lemma HolderCanRelease(s: State, t: Token) returns (steps: seq<Step>, s': State)
    requires Inv(s) && Enabled(s, Start(t, Release)) && ClaimFree(s, t)
    ensures steps != [] && steps[0] == Start(t, Release)
    ensures Alone(s, steps, t, s') && Inv(s')
    ensures s' == s.(lock := None, claim := None, handles := s.handles[t := s.handles[t].(released := true, acquired := false)])
  {
    hide Inv, After;
    steps, s' := OwnLockChecked(s, t, Release);
    steps, s' := Taken(s, steps, s', RemoveLock(t), t);
    steps, s' := ClaimDropped(s, steps, s', t);
  }

  /** A released mutex is free: the holder's own steps, then those of any handle that wants it, end with the latter holding it. */
  lemma ReleasedMutexCanBeTaken(s: State, t: Token, u: Token, lease: nat) returns (release: seq<Step>, acquire: seq<Step>, s': State)
    requires Inv(s) && Enabled(s, Start(t, Release)) && ClaimFree(s, t)
    requires u != t && Enabled(s, Start(u, Acquire)) && lease > 0 && !s.handles[u].lost
    ensures release != [] && release[0] == Start(t, Release) && acquire != [] && acquire[0] == Start(u, Acquire)
    ensures forall k | 0 <= k < |release| :: ActedBy(release[k], t)
    ensures forall k | 0 <= k < |acquire| :: ActedBy(acquire[k], u)
    ensures After(s, release + acquire) == Some(s') && AssertHeld(s', u) && t in s'.handles && !s'.handles[t].acquired
  {
    hide Inv, After, AssertHeld;
    var between;
    release, between := HolderCanRelease(s, t);
    acquire, s' := AbandonedMutexCanBeTaken(between, u, lease);
    AfterBoth(s, release, acquire);
  }

  lemma {:induction false} AfterBoth(s: State, a: seq<Step>, b: seq<Step>)
    requires After(s, a).Some?
    ensures After(s, a + b) == After(After(s, a).value, b)
  {
    if b == [] {
      assert a + b == a;
    } else {
      var front := b[..|b| - 1];
      AfterBoth(s, a, front);
      assert (a + b)[..|a + b| - 1] == a + front && (a + b)[|a + b| - 1] == b[|b| - 1];
    }
  }

  /** Only a lock that has expired, of a dead process of the same host, is ever renamed away. */
  lemma OnlyAbandonedLocksGo(s: State, t: Token)
    requires Inv(s) && Enabled(s, RenameLock(t)) && s.lock.Some?
    ensures s.lock.value.expires <= s.now && s.lock.value.process in s.dead && s.lock.value.process.host == s.handles[t].process.host
    ensures Apply(s, RenameLock(t)).lock.None?
  {
  }

  /** A live lock cannot be taken: whoever reads it goes away empty-handed. */
  lemma LiveLockIsLeft(s: State, t: Token)
    requires Enabled(s, ReadLock(t)) && s.lock.Some?
    requires s.lock.value.expires > s.now || s.lock.value.process !in s.dead || s.lock.value.process.host != s.handles[t].process.host
    ensures Apply(s, ReadLock(t)) == s.(handles := s.handles[t := s.handles[t].(phase := Dropping)])
  {
  }

  /** In any state at all, a claim or lock is removed or rewritten only by a handle that has just found its own token there, and created only where none is. */
  lemma OnlyOwnFilesAreTouched(s: State, e: Step, t: Token)
    requires Enabled(s, e) && (e == ReadOwnClaim(t) || e == ReadOwnLock(t) || e.CreateLock? || e.CreateClaim?)
    ensures e.ReadOwnClaim? ==> (Apply(s, e).handles[t].phase.Removing? <==> s.claim.Some? && s.claim.value.token == t)
    ensures e.ReadOwnLock? ==> (Apply(s, e).handles[t].phase.Checked? <==> s.lock.Some? && s.lock.value.token == t)
    ensures s.claim.Some? ==> Apply(s, e).claim == s.claim
    ensures s.lock.Some? ==> Apply(s, e).lock == s.lock
    ensures e.CreateLock? && s.lock.Some? ==> Apply(s, e).handles[e.t].acquired == s.handles[e.t].acquired
  {
  }

  /**
   * A handle stops passing `assertHeld` and cannot start a renewal any more as soon as it starts its
   * release, loses heart, or finds in a renewal that the lock is not its own.
   */
  lemma NoLongerHeld(s: State, e: Step, t: Token)
    requires Enabled(s, e)
    requires || e == Start(t, Release) || e == LoseHeart(t)
             || (e == ReadOwnLock(t) && s.handles[t].phase == Claimed(Renew) && !Own(s.lock, t))
    ensures !AssertHeld(Apply(s, e), t) && forall later: State ::
              later.handles == Apply(s, e).handles[t := Apply(s, e).handles[t].(phase := Idle)] ==> !Enabled(later, Start(t, Renew))
  {
  }

  // ---------------------------------------------------------------- a takeover in two steps

  lemma Extended(r: Run, e: Step) returns (r': Run)
    requires ValidRun(r) && Enabled(Last(r), e)
    ensures ValidRun(r') && Last(r') == Apply(Last(r), e)
    ensures RenamesHarmless(r') <==> RenamesHarmless(r) && (e.RenameClaim? ==> RenameHarmless(Last(r)))
    ensures r'.states == r.states + [Last(r')]
  {
    r' := Run(r.states + [Apply(Last(r), e)], r.steps + [e]);
    assert forall i | 0 <= i < |r.steps| :: r'.steps[i] == r.steps[i] && r'.states[i] == r.states[i];
    assert r'.steps[|r.steps|] == e && r'.states[|r.steps|] == Last(r);
  }

  lemma Begun(s: State) returns (r: Run)
    requires Initial(s)
    ensures ValidRun(r) && Last(r) == s && RenamesHarmless(r)
  {
    r := Run([s], []);
  }

  function Fresh(pid: nat): Handle { Handle(Process("host", pid), Idle, false, false, false) }

  /** Three fresh handles of three processes on a free mutex. */
  lemma FreshRun() returns (r: Run)
    ensures ValidRun(r) && RenamesHarmless(r)
    ensures Last(r) == State(None, None, map[0 := Fresh(0), 1 := Fresh(1), 2 := Fresh(2)], {}, 0)
  {
    r := Begun(State(None, None, map[0 := Fresh(0), 1 := Fresh(1), 2 := Fresh(2)], {}, 0));
  }

  lemma VacatedRun() returns (r: Run)
    ensures ValidRun(r) && RenamesHarmless(r)
    ensures Last(r) == State(None, Some(FileRecord(0, Process("host", 0), CLAIM_LEASE)),
                             map[0 := Fresh(0).(phase := Vacated), 1 := Fresh(1), 2 := Fresh(2)], {}, 0)
  {
    hide ValidRun, Last, RenamesHarmless, RenameHarmless;
    r := FreshRun();
    r := Extended(r, Start(0, Acquire));
    r := Extended(r, CreateClaim(0));
    r := Extended(r, ReadLock(0));
  }

  /** Handle 0 acquires. */
  lemma HeldRun() returns (r: Run)
    ensures ValidRun(r) && RenamesHarmless(r)
    ensures Last(r) == State(Some(FileRecord(0, Process("host", 0), 100)), None,
                             map[0 := Fresh(0).(acquired := true), 1 := Fresh(1), 2 := Fresh(2)], {}, 0)
  {
    hide ValidRun, Last, RenamesHarmless, RenameHarmless;
    r := VacatedRun();
    r := Extended(r, CreateLock(0, 100));
    r := Extended(r, ReadOwnClaim(0));
    r := Extended(r, RemoveClaim(0));
  }

  /** It starts a renewal and its process dies with lock and claim in place; both leases run out. */
  lemma AbandonedRun() returns (r: Run)
    ensures ValidRun(r) && RenamesHarmless(r)
    ensures Last(r) == State(Some(FileRecord(0, Process("host", 0), 100)), Some(FileRecord(0, Process("host", 0), CLAIM_LEASE)),
                             map[0 := Fresh(0).(acquired := true, phase := Claimed(Renew)), 1 := Fresh(1), 2 := Fresh(2)],
                             {Process("host", 0)}, 10000)
  {
    hide ValidRun, Last, RenamesHarmless, RenameHarmless;
    r := HeldRun();
    r := Extended(r, Start(0, Renew));
    r := Extended(r, CreateClaim(0));
    r := Extended(r, Die(Process("host", 0)));
    r := Extended(r, Tick(10000));
  }

  /** Two others confirm the stale claim. */
  lemma ConfirmedRun() returns (r: Run)
    ensures ValidRun(r) && RenamesHarmless(r)
    ensures Last(r) == State(Some(FileRecord(0, Process("host", 0), 100)), Some(FileRecord(0, Process("host", 0), CLAIM_LEASE)),
                             map[0 := Fresh(0).(acquired := true, phase := Claimed(Renew)),
                                 1 := Fresh(1).(phase := Doomed(Acquire, 0)), 2 := Fresh(2).(phase := Doomed(Acquire, 0))],
                             {Process("host", 0)}, 10000)
  {
    hide ValidRun, Last, RenamesHarmless, RenameHarmless;
    r := AbandonedRun();
    r := Extended(r, Start(1, Acquire));
    r := Extended(r, Start(2, Acquire));
    r := Extended(r, ConfirmStaleClaim(1));
    r := Extended(r, ConfirmStaleClaim(2));
  }

  /** The first replaces it and finds the stale lock. */
  lemma ContestedRun() returns (r: Run)
    ensures ValidRun(r) && RenamesHarmless(r)
    ensures Last(r) == State(Some(FileRecord(0, Process("host", 0), 100)), Some(FileRecord(1, Process("host", 1), 15000)),
                             map[0 := Fresh(0).(acquired := true, phase := Claimed(Renew)),
                                 1 := Fresh(1).(phase := Retiring(0)), 2 := Fresh(2).(phase := Doomed(Acquire, 0))],
                             {Process("host", 0)}, 10000)
  {
    hide ValidRun, Last, RenamesHarmless;
    r := ConfirmedRun();
    r := Extended(r, RenameClaim(1));
    r := Extended(r, CreateClaim(1));
    r := Extended(r, ReadLock(1));
  }

  /**
   * When another handle acts between confirming a stale claim and renaming it,
   * two running processes can hold the mutex at once: the second rename removes
   * the claim the first one has created meanwhile.
   */
  lemma SplitTakeoverBreaksExclusion() returns (r: Run)
    ensures ValidRun(r)
    ensures Live(Last(r), 1) && Live(Last(r), 2) && Last(r).handles[1].acquired && Last(r).handles[2].acquired
    ensures !Own(Last(r).lock, 1)
  {
    hide ValidRun, Last, RenamesHarmless, RenameHarmless;
    r := ContestedRun();
    r := Extended(r, RenameClaim(2));
    r := Extended(r, CreateClaim(2));
    r := Extended(r, ReadLock(2));
    r := Extended(r, RenameLock(1));
    r := Extended(r, CreateLock(1, 100));
    r := Extended(r, RenameLock(2));
    r := Extended(r, CreateLock(2, 100));
  }

  /** At most one running process holds the mutex. */
  ghost predicate Exclusive(s: State) {
    forall a, b | Live(s, a) && s.handles[a].acquired && Live(s, b) && s.handles[b].acquired :: a == b
  }

  /**
   * Harmless renames are not needed for every single run: right after the rename that
   * removes a running process's claim, exclusion still holds in every state so far.
   */
  lemma HarmfulRenameAlone() returns (r: Run)
    ensures ValidRun(r) && !RenamesHarmless(r)
    ensures forall s | s in r.states :: Exclusive(s)
  {
    var before := ContestedRun();
    AllExclusive(before);
    hide ValidRun, Last, RenamesHarmless;
    r := Extended(before, RenameClaim(2));
  }

  lemma AllExclusive(r: Run)
    requires ValidRun(r) && RenamesHarmless(r)
    ensures forall s | s in r.states :: Exclusive(s)
  {
    forall k, a, b | 0 <= k < |r.states| && Live(r.states[k], a) && r.states[k].handles[a].acquired && Live(r.states[k], b) && r.states[k].handles[b].acquired
      ensures a == b
    {
      MutualExclusion(r, k, a, b);
    }
  }
}
