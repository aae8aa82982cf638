/**
 * The in-process compare-and-swap over several files: claim every original by a
 * hard link, replace the public files one by one, verify, and roll back on any
 * failure. Every hook may throw, and may leave the disk in any state at all.
 */
module FileCas {
  import opened Wrappers

  type Ino = nat
  type Bytes = string

  /** Claims and prepared files carry the index of their record in a transaction-exact name. */
  datatype Name = Public(path: string) | Claim(index: nat) | Prepared(index: nat)

  type Names = map<Name, Ino>
  type Contents = map<Ino, Bytes>

  datatype Plan = Plan(path: string, before: Option<Bytes>, expectedIdentity: Option<Ino>, after: Option<Bytes>)

  datatype CasRecord = CasRecord(
    path: string,
    before: Option<Bytes>,
    beforeIdentity: Option<Ino>,
    after: Option<Bytes>,
    preparedIdentity: Option<Ino>,
    claimIdentity: Option<Ino>,
    mutated: bool)
  {
    predicate Mutates() { before != after }
  }

  /** What a hook does: it may rewrite the disk, and it may throw. */
  datatype Hook = Hook(disk: Option<(Names, Contents)>, throws: bool)

  datatype Cause = HookThrew | PreflightFailed | CleanupFailed

  datatype Outcome = Committed | Failed | Incomplete(cause: Cause)

  // ---------------------------------------------------------------- checks

  predicate Owned(names: Names, bytes: Contents, n: Name, identity: Option<Ino>, content: Option<Bytes>) {
    n in names && identity == Some(names[n]) && names[n] in bytes && content == Some(bytes[names[n]])
  }

  predicate PublicBefore(names: Names, bytes: Contents, r: CasRecord) {
    if r.before.None? then Public(r.path) !in names else Owned(names, bytes, Public(r.path), r.beforeIdentity, r.before)
  }

  predicate PublicAfter(names: Names, bytes: Contents, r: CasRecord) {
    if r.after.None? then Public(r.path) !in names else Owned(names, bytes, Public(r.path), r.preparedIdentity, r.after)
  }

  predicate AllBefore(names: Names, bytes: Contents, records: seq<CasRecord>) {
    forall i | 0 <= i < |records| :: PublicBefore(names, bytes, records[i])
  }

  /** Every public path holds what the transaction has got to, except that the transient one is free. */
  predicate ReadSetHolds(names: Names, bytes: Contents, records: seq<CasRecord>, transient: Option<nat>) {
    forall i | 0 <= i < |records| ::
      if transient == Some(i) then Public(records[i].path) !in names
      else if records[i].mutated then PublicAfter(names, bytes, records[i])
      else PublicBefore(names, bytes, records[i])
  }

  predicate PreparedAndClaim(names: Names, bytes: Contents, r: CasRecord, i: nat) {
    r.Mutates() ==>
      && (r.after.Some? ==> Owned(names, bytes, Prepared(i), r.preparedIdentity, r.after))
      && (r.before.Some? ==> Owned(names, bytes, Claim(i), r.claimIdentity, r.before) && r.claimIdentity == r.beforeIdentity)
  }

  predicate AllPreparedAndClaimed(names: Names, bytes: Contents, records: seq<CasRecord>) {
    forall i | 0 <= i < |records| :: PreparedAndClaim(names, bytes, records[i], i)
  }

  predicate RollbackAllowed(names: Names, bytes: Contents, records: seq<CasRecord>) {
    && AllPreparedAndClaimed(names, bytes, records)
    && forall i | 0 <= i < |records| ::
         if !records[i].mutated then PublicBefore(names, bytes, records[i])
         else Public(records[i].path) in names ==> records[i].after.Some? && PublicAfter(names, bytes, records[i])
  }

  predicate PlanCurrent(names: Names, bytes: Contents, p: Plan) {
    (p.before.Some? <==> p.expectedIdentity.Some?)
    && if p.before.None? then Public(p.path) !in names else Owned(names, bytes, Public(p.path), p.expectedIdentity, p.before)
  }

  predicate Accepted(names: Names, bytes: Contents, plans: seq<Plan>) {
    && (forall a, b | 0 <= a < b < |plans| :: plans[a].path != plans[b].path)
    && forall i | 0 <= i < |plans| :: PlanCurrent(names, bytes, plans[i])
  }

  predicate SomeMutated(records: seq<CasRecord>) {
    exists i | 0 <= i < |records| :: records[i].mutated
  }

  predicate AllMutated(records: seq<CasRecord>) {
    forall i | 0 <= i < |records| :: records[i].mutated <==> records[i].Mutates()
  }

  /** No name the transaction made is left. */
  predicate Cleared(names: Names, records: seq<CasRecord>) {
    forall i | 0 <= i < |records| ::
      (records[i].claimIdentity.Some? ==> Claim(i) !in names) && (records[i].preparedIdentity.Some? ==> Prepared(i) !in names)
  }

  // ---------------------------------------------------------------- records

  predicate FromPlan(r: CasRecord, p: Plan) {
    r.path == p.path && r.before == p.before && r.beforeIdentity == p.expectedIdentity && r.after == p.after
  }

  /** The records are those of the plans, whatever has been filled in since. */
  predicate FromPlans(records: seq<CasRecord>, plans: seq<Plan>) {
    && |records| == |plans|
    && (forall a, b | 0 <= a < b < |records| :: records[a].path != records[b].path)
    && forall i | 0 <= i < |records| ::
         && FromPlan(records[i], plans[i])
         && (records[i].before.Some? <==> records[i].beforeIdentity.Some?)
         && (records[i].mutated ==> records[i].Mutates())
         && (records[i].claimIdentity.Some? ==> records[i].before.Some? && records[i].Mutates())
         && (records[i].preparedIdentity.Some? ==> records[i].after.Some? && records[i].Mutates())
  }

  // ---------------------------------------------------------------- removals

  /** One unlink: the name, and what the disk and the records were just before. */
  datatype Removal = Removal(name: Name, names: Names, bytes: Contents, records: seq<CasRecord>)

  /** A published or original file is taken from its public path only while its inode stays reachable. */
  predicate PublicRemovable(e: Removal, i: nat)
    requires i < |e.records|
  {
    var r := e.records[i];
    || (&& r.before.Some?
        && Owned(e.names, e.bytes, e.name, r.beforeIdentity, r.before)
        && Owned(e.names, e.bytes, Claim(i), r.beforeIdentity, r.before))
    || (&& r.after.Some?
        && Owned(e.names, e.bytes, e.name, r.preparedIdentity, r.after)
        && Owned(e.names, e.bytes, Prepared(i), r.preparedIdentity, r.after))
  }

  predicate Justified(e: Removal) {
    match e.name
    case Public(p) =>
      exists i | 0 <= i < |e.records| :: e.records[i].path == p && PublicRemovable(e, i)
    case Claim(i) =>
      && i < |e.records| && Owned(e.names, e.bytes, e.name, e.records[i].claimIdentity, e.records[i].before)
      && CleanupAllowed(e.names, e.bytes, e.records)
    case Prepared(i) =>
      && i < |e.records| && Owned(e.names, e.bytes, e.name, e.records[i].preparedIdentity, e.records[i].after)
  }

  lemma OriginalNamed(names: Names, bytes: Contents, records: seq<CasRecord>, i: nat)
    requires i < |records| && records[i].before.Some?
    ensures AllBefore(names, bytes, records) ==>
              Public(records[i].path) in names && records[i].beforeIdentity == Some(names[Public(records[i].path)])
  {
    if AllBefore(names, bytes, records) {
      assert PublicBefore(names, bytes, records[i]);
    }
  }

  /**
   * No unlink of the transaction takes the last name of an original, prepared files being
   * inodes of their own, except that of a claim, and that only before anything was replaced
   * or when every publication is verified in place.
   */
  lemma LastNameGoesVerified(e: Removal, i: nat)
    requires Justified(e) && i < |e.records| && e.records[i].before.Some?
    requires e.name in e.names && e.records[i].beforeIdentity == Some(e.names[e.name])
    requires forall n | n in e.names && n != e.name :: e.names[n] != e.names[e.name]
    requires forall j | 0 <= j < |e.records| :: e.records[j].preparedIdentity != e.records[i].beforeIdentity
    ensures e.name.Claim?
    ensures SomeMutated(e.records) ==> AllMutated(e.records) && ReadSetHolds(e.names - {e.name}, e.bytes, e.records, None)
  {
    hide AllBefore;
    OriginalNamed(e.names, e.bytes, e.records, i);
  }

  // ---------------------------------------------------------------- runs without interference

  predicate Bound(names: Names, n: Name, o: Option<Ino>) {
    if o.Some? then n in names && names[n] == o.value else n !in names
  }

  predicate Holds(bytes: Contents, o: Option<Ino>, content: Option<Bytes>) {
    && (o.Some? <==> content.Some?)
    && (o.Some? ==> o.value in bytes && bytes[o.value] == content.value)
  }

  /** Where the public path of a record points: to nothing, to the new file or to the original. */
  predicate PublicAt(names: Names, r: CasRecord, gone: bool) {
    Bound(names, Public(r.path), if gone then None else if r.mutated then r.preparedIdentity else r.beforeIdentity)
  }

  predicate RecordAt(names: Names, bytes: Contents, r: CasRecord, i: nat, gone: bool) {
    && PublicAt(names, r, gone)
    && Bound(names, Prepared(i), r.preparedIdentity) && Bound(names, Claim(i), r.claimIdentity)
    && Holds(bytes, r.beforeIdentity, r.before)
    && Holds(bytes, r.preparedIdentity, if r.Mutates() then r.after else None)
    && (r.claimIdentity.Some? ==> r.Mutates() && r.claimIdentity == r.beforeIdentity)
    && (r.mutated ==> r.claimIdentity == r.beforeIdentity)
    && (gone ==> r.mutated)
  }

  function IdentityAt(names: Names, n: Name): Option<Ino> {
    if n in names then Some(names[n]) else None
  }

  predicate Planned(plans: seq<Plan>, p: string) {
    exists i | 0 <= i < |plans| :: plans[i].path == p
  }

  /** The disk is the one the transaction started on, plus exactly what the records say. */
  ghost predicate Undisturbed(names0: Names, plans: seq<Plan>, names: Names, bytes: Contents, records: seq<CasRecord>, gone: Option<nat>) {
    && FromPlans(records, plans)
    && (gone.Some? ==> gone.value < |records|)
    && (forall i | 0 <= i < |records| :: RecordAt(names, bytes, records[i], i, gone == Some(i)))
    && (forall i | 0 <= i < |records| :: Bound(names0, Public(records[i].path), records[i].beforeIdentity))
    && (forall n | n in names && !n.Public? :: n.index < |records|)
    && (forall n | n in names0 :: n.Public?)
    && (forall p | !Planned(plans, p) :: IdentityAt(names, Public(p)) == IdentityAt(names0, Public(p)))
  }

  /** No hook touches the disk. */
  predicate Quiet(hooks: seq<Hook>) {
    forall i | 0 <= i < |hooks| :: hooks[i].disk.None?
  }

  /** No hook throws either. */
  predicate Calm(hooks: seq<Hook>) {
    Quiet(hooks) && forall i | 0 <= i < |hooks| :: !hooks[i].throws
  }

  /** The originals of the first `k` changing files are claimed. */
  predicate ClaimedUpTo(records: seq<CasRecord>, k: nat) {
    forall i | 0 <= i < |records| && i < k && records[i].Mutates() && records[i].before.Some? ::
      records[i].claimIdentity == records[i].beforeIdentity
  }

  /** What cleanup relies on: claims are dropped only after everything was verified, one way or the other. */
  predicate CleanupAllowed(names: Names, bytes: Contents, records: seq<CasRecord>) {
    || !SomeMutated(records)
    || AllBefore(names, bytes, records)
    || (AllMutated(records) && ReadSetHolds(names, bytes, records, None))
  }

  /** The auxiliaries of a record that are present are the transaction's own. */
  predicate Tidy(names: Names, bytes: Contents, r: CasRecord, i: nat) {
    && (r.claimIdentity.Some? && Claim(i) in names ==> Owned(names, bytes, Claim(i), r.claimIdentity, r.before))
    && (r.preparedIdentity.Some? && Prepared(i) in names ==> Owned(names, bytes, Prepared(i), r.preparedIdentity, r.after))
  }

  predicate AllTidy(names: Names, bytes: Contents, records: seq<CasRecord>) {
    forall i | 0 <= i < |records| :: Tidy(names, bytes, records[i], i)
  }

  ghost predicate OnlyAuxiliariesRemoved(a: Names, b: Names) {
    && (forall n | n in b :: n in a && b[n] == a[n])
    && (forall n: Name | n in a && n.Public? :: n in b)
  }

  /** An auxiliary name the transaction made. */
  predicate Recorded(records: seq<CasRecord>, n: Name)
    ensures Recorded(records, n) ==> !n.Public?
  {
    match n
    case Public(_) => false
    case Claim(i) => i < |records| && records[i].claimIdentity.Some?
    case Prepared(i) => i < |records| && records[i].preparedIdentity.Some?
  }

  /** Since the last hook nothing happened but the making of recorded auxiliaries. */
  ghost predicate SinceHook(last: Names, names: Names, records: seq<CasRecord>) {
    && (forall n | n in last :: n in names && names[n] == last[n])
    && (forall n | n in names && n !in last :: Recorded(records, n))
  }

  /** `b` is `a` without the auxiliaries the transaction made. */
  ghost predicate Stripped(a: Names, b: Names, records: seq<CasRecord>) {
    forall n :: IdentityAt(b, n) == if Recorded(records, n) then None else IdentityAt(a, n)
  }

  ghost predicate Named(names: Names, ino: Ino) {
    exists n | n in names :: names[n] == ino
  }

  /** The inode has a name that is not one of the transaction's own. */
  ghost predicate NamedBeside(names: Names, records: seq<CasRecord>, ino: Ino) {
    exists n | n in names && !Recorded(records, n) :: names[n] == ino
  }

  predicate Changes(plans: seq<Plan>) {
    exists i | 0 <= i < |plans| :: plans[i].before != plans[i].after
  }

  /** Exactly the first changing record is claimed. */
  predicate FirstClaimed(records: seq<CasRecord>) {
    forall i | 0 <= i < |records| ::
      records[i].claimIdentity ==
      if records[i].Mutates() && forall k | 0 <= k < i :: !records[k].Mutates() then records[i].beforeIdentity else None
  }

  // ---------------------------------------------------------------- which hooks run

  /** The next `n` hooks: whether none of them throws, and the hooks after the last one that ran. */
  function Ran(hooks: seq<Hook>, n: nat): (bool, seq<Hook>) {
    if n == 0 || hooks == [] then (true, hooks)
    else if hooks[0].throws then (false, hooks[1..])
    else Ran(hooks[1..], n - 1)
  }

  lemma {:induction false} RanMore(hooks: seq<Hook>, a: nat, b: nat)
    ensures Ran(hooks, a + b) == if Ran(hooks, a).0 then Ran(Ran(hooks, a).1, b) else Ran(hooks, a)
  {
    if a > 0 && hooks != [] && !hooks[0].throws {
      RanMore(hooks[1..], a - 1, b);
    }
  }

  /** One more hook after `n`; when it throws, no longer stretch goes further. */
  lemma RanStep(first: seq<Hook>, n: nat, hooks: seq<Hook>, total: nat)
    requires Ran(first, n) == (true, hooks) && n < total
    ensures Ran(first, n + 1) == Ran(hooks, 1)
    ensures !Ran(hooks, 1).0 ==> Ran(first, total) == Ran(hooks, 1)
  {
    RanMore(first, n, 1);
    RanMore(first, n + 1, total - n - 1);
  }

  lemma RanNone(hooks: seq<Hook>)
    ensures Ran(hooks, 0) == (true, hooks)
  {
  }

  lemma {:induction false} CalmRuns(hooks: seq<Hook>, n: nat)
    requires Calm(hooks)
    ensures Ran(hooks, n).0 && Calm(Ran(hooks, n).1)
  {
    if n > 0 && hooks != [] {
      CalmRuns(hooks[1..], n - 1);
    }
  }

  /** How many of the first `k` plans change their file: each of them has one hook after its claim. */
  function ClaimHooks(plans: seq<Plan>, k: nat): nat
    requires k <= |plans|
  {
    if k == 0 then 0 else ClaimHooks(plans, k - 1) + if plans[k - 1].before != plans[k - 1].after then 1 else 0
  }

  /** One hook before the mutation, one after an unlink, and one on each side of a publication. */
  function HooksOf(p: Plan): nat {
    if p.before == p.after then 0 else 1 + (if p.before.Some? then 1 else 0) + if p.after.Some? then 2 else 0
  }

  function MutationHooks(plans: seq<Plan>, k: nat): nat
    requires k <= |plans|
  {
    if k == 0 then 0 else MutationHooks(plans, k - 1) + HooksOf(plans[k - 1])
  }

  lemma {:induction false} HooksGrow(plans: seq<Plan>, a: nat, b: nat)
    requires a <= b <= |plans|
    ensures ClaimHooks(plans, a) <= ClaimHooks(plans, b) && MutationHooks(plans, a) <= MutationHooks(plans, b)
  {
    if a < b {
      HooksGrow(plans, a, b - 1);
    }
  }

  lemma ClaimHooksStep(first: seq<Hook>, plans: seq<Plan>, i: nat, hooks: seq<Hook>)
    requires i < |plans| && Ran(first, ClaimHooks(plans, i)) == (true, hooks)
    ensures var next := Ran(hooks, if plans[i].before != plans[i].after then 1 else 0);
            Ran(first, ClaimHooks(plans, i + 1)) == next && (!next.0 ==> Ran(first, ClaimHooks(plans, |plans|)) == next)
    ensures ClaimHooks(plans, 0) == 0
  {
    HooksGrow(plans, i + 1, |plans|);
    RanMore(first, ClaimHooks(plans, i), if plans[i].before != plans[i].after then 1 else 0);
    RanMore(first, ClaimHooks(plans, i + 1), ClaimHooks(plans, |plans|) - ClaimHooks(plans, i + 1));
  }

  lemma MutationHooksStep(first: seq<Hook>, plans: seq<Plan>, i: nat, hooks: seq<Hook>)
    requires i < |plans| && Ran(first, MutationHooks(plans, i)) == (true, hooks)
    ensures var next := Ran(hooks, HooksOf(plans[i]));
            Ran(first, MutationHooks(plans, i + 1)) == next && (!next.0 ==> Ran(first, MutationHooks(plans, |plans|)) == next)
  {
    HooksGrow(plans, i + 1, |plans|);
    RanMore(first, MutationHooks(plans, i), HooksOf(plans[i]));
    RanMore(first, MutationHooks(plans, i + 1), MutationHooks(plans, |plans|) - MutationHooks(plans, i + 1));
  }

  lemma NoHooks(hooks: seq<Hook>, plans: seq<Plan>)
    ensures Ran(hooks, ClaimHooks(plans, 0)) == (true, hooks) && Ran(hooks, MutationHooks(plans, 0)) == (true, hooks)
  {
  }

  /** Nothing replaced so far, or the first hook ran. */
  predicate FirstHookRan(records: seq<CasRecord>, first: seq<Hook>, hooks: seq<Hook>) {
    if SomeMutated(records) then Ran(first, 1).0 else hooks == first
  }

  lemma OneRecordPerPlan(records: seq<CasRecord>, plans: seq<Plan>)
    requires FromPlans(records, plans)
    ensures |records| == |plans|
  {
  }

  lemma NothingMutated(records: seq<CasRecord>, hooks: seq<Hook>)
    requires !SomeMutated(records)
    ensures FirstHookRan(records, hooks, hooks)
    ensures forall i | 0 <= i < |records| :: !records[i].mutated
  {
  }

  lemma FirstHookStep(before: seq<CasRecord>, after: seq<CasRecord>, first: seq<Hook>, between: seq<Hook>, hooks: seq<Hook>)
    requires FirstHookRan(before, first, between) && (SomeMutated(after) <==> SomeMutated(before) || Ran(between, 1).0)
    ensures SomeMutated(after) <==> Ran(first, 1).0
    ensures SomeMutated(after) ==> FirstHookRan(after, first, hooks)
  {
  }

  lemma OneMoreMutated(before: seq<CasRecord>, after: seq<CasRecord>, i: nat)
    requires i < |before| && after == before[i := before[i].(mutated := true)]
    ensures SomeMutated(after)
  {
    assert after[i].mutated;
  }

  lemma UnchangedHasNoHooks(records: seq<CasRecord>, plans: seq<Plan>, i: nat)
    requires FromPlans(records, plans) && i < |records|
    ensures |records| == |plans|
    ensures records[i].Mutates() <==> plans[i].before != plans[i].after
    ensures !records[i].Mutates() ==> HooksOf(plans[i]) == 0
    ensures forall hooks :: Ran(hooks, 0) == (true, hooks)
  {
    assert FromPlan(records[i], plans[i]);
  }

  /**
   * What a transaction comes to when its hooks only throw. Nothing can go wrong but a hook; one
   * that throws after the first replacement is undone, unless the hook of the rollback throws too.
   */
  function OutcomeAt(plans: seq<Plan>, hooks: seq<Hook>): Outcome {
    var claimed := Ran(hooks, ClaimHooks(plans, |plans|));
    var mutated := Ran(claimed.1, MutationHooks(plans, |plans|));
    if !claimed.0 then Failed
    else if mutated.0 then Committed
    else if !Ran(claimed.1, 1).0 then Failed
    else if Ran(mutated.1, 1).0 then Failed
    else Incomplete(HookThrew)
  }

  function Throws(hooks: seq<Hook>): nat {
    if hooks == [] then 0 else Throws(hooks[1..]) + if hooks[0].throws then 1 else 0
  }

  lemma CalmCommits(plans: seq<Plan>, hooks: seq<Hook>)
    ensures Calm(hooks) ==> OutcomeAt(plans, hooks).Committed?
  {
    if Calm(hooks) {
      CalmRuns(hooks, ClaimHooks(plans, |plans|));
      CalmRuns(Ran(hooks, ClaimHooks(plans, |plans|)).1, MutationHooks(plans, |plans|));
    }
  }

  lemma {:induction false} RanThrows(hooks: seq<Hook>, n: nat)
    ensures Throws(hooks) == Throws(Ran(hooks, n).1) + if Ran(hooks, n).0 then 0 else 1
  {
    if n > 0 && hooks != [] && !hooks[0].throws {
      RanThrows(hooks[1..], n - 1);
    }
  }

  /** It takes two throwing hooks to leave a transaction incomplete, and one that throws to keep it from committing. */
  lemma OneThrowIsUndone(plans: seq<Plan>, hooks: seq<Hook>)
    ensures OutcomeAt(plans, hooks).Incomplete? ==> Throws(hooks) >= 2
    ensures Throws(hooks) == 0 ==> OutcomeAt(plans, hooks).Committed?
  {
    var claimed := Ran(hooks, ClaimHooks(plans, |plans|));
    var mutated := Ran(claimed.1, MutationHooks(plans, |plans|));
    RanThrows(hooks, ClaimHooks(plans, |plans|));
    RanThrows(claimed.1, MutationHooks(plans, |plans|));
    RanThrows(mutated.1, 1);
  }

  /** The disk after the next hook. */
  function HookDisk(hooks: seq<Hook>, names: Names, bytes: Contents): (Names, Contents) {
    if hooks != [] && hooks[0].disk.Some? then hooks[0].disk.value else (names, bytes)
  }

  // ---------------------------------------------------------------- the checks, written out

  /** `n` names the file of that identity, and its content is as expected. */
  predicate NamesFile(names: Names, bytes: Contents, n: Name, identity: Option<Ino>, content: Bytes) {
    n in names && identity == Some(names[n]) && names[n] in bytes && bytes[names[n]] == content
  }

  /** The path carries the file of that identity and content, or is free when nothing is expected. */
  predicate FileAt(names: Names, bytes: Contents, p: string, identity: Option<Ino>, content: Option<Bytes>) {
    match content
    case None => Public(p) !in names
    case Some(c) => NamesFile(names, bytes, Public(p), identity, c)
  }

  /** The transaction starts exactly when no path is planned twice and every path is what its plan expects. */
  lemma AcceptedIff(names: Names, bytes: Contents, plans: seq<Plan>)
    ensures Accepted(names, bytes, plans) <==>
            && (forall a, b | 0 <= a < b < |plans| :: plans[a].path != plans[b].path)
            && forall i | 0 <= i < |plans| ::
                 && (plans[i].before.Some? <==> plans[i].expectedIdentity.Some?)
                 && FileAt(names, bytes, plans[i].path, plans[i].expectedIdentity, plans[i].before)
  {
  }

  lemma BeforeIff(names: Names, bytes: Contents, records: seq<CasRecord>)
    ensures AllBefore(names, bytes, records) <==>
            forall i | 0 <= i < |records| :: FileAt(names, bytes, records[i].path, records[i].beforeIdentity, records[i].before)
  {
  }

  lemma ReadSetIff(names: Names, bytes: Contents, records: seq<CasRecord>)
    ensures ReadSetHolds(names, bytes, records, None) <==>
            forall i | 0 <= i < |records| ::
              var r := records[i];
              if r.mutated then FileAt(names, bytes, r.path, r.preparedIdentity, r.after)
              else FileAt(names, bytes, r.path, r.beforeIdentity, r.before)
  {
  }

  /**
   * The rollback's preflight refuses exactly when a prepared file or a claim of a changing record is not
   * what was recorded, or the path of an untouched record is not what it was, or that of a replaced one
   * carries anything but the published file.
   */
  lemma RollbackRefusedIff(names: Names, bytes: Contents, records: seq<CasRecord>)
    ensures !RollbackAllowed(names, bytes, records) <==>
            exists i | 0 <= i < |records| ::
              var r := records[i];
              || (r.before != r.after && r.after.Some? && !NamesFile(names, bytes, Prepared(i), r.preparedIdentity, r.after.value))
              || (r.before != r.after && r.before.Some?
                  && (r.claimIdentity != r.beforeIdentity || !NamesFile(names, bytes, Claim(i), r.beforeIdentity, r.before.value)))
              || (!r.mutated && !FileAt(names, bytes, r.path, r.beforeIdentity, r.before))
              || (r.mutated && Public(r.path) in names && !(r.after.Some? && FileAt(names, bytes, r.path, r.preparedIdentity, r.after)))
  {
  }

  /** Every path carries what its plan intends, and an unchanged one the very file it had. */
  predicate PlansPublished(names: Names, bytes: Contents, plans: seq<Plan>, records: seq<CasRecord>) {
    && |records| == |plans|
    && forall i | 0 <= i < |plans| ::
         if plans[i].before == plans[i].after then FileAt(names, bytes, plans[i].path, plans[i].expectedIdentity, plans[i].before)
         else FileAt(names, bytes, plans[i].path, records[i].preparedIdentity, plans[i].after)
  }

  /** Every path carries the very file its plan expected. */
  predicate PlansKept(names: Names, bytes: Contents, plans: seq<Plan>) {
    forall i | 0 <= i < |plans| :: FileAt(names, bytes, plans[i].path, plans[i].expectedIdentity, plans[i].before)
  }

  lemma VerifiedPlans(names: Names, bytes: Contents, plans: seq<Plan>, records: seq<CasRecord>)
    requires FromPlans(records, plans)
    ensures AllMutated(records) && ReadSetHolds(names, bytes, records, None) ==> PlansPublished(names, bytes, plans, records)
    ensures AllBefore(names, bytes, records) ==> PlansKept(names, bytes, plans)
  {
    ReadSetIff(names, bytes, records);
    BeforeIff(names, bytes, records);
    assert forall i | 0 <= i < |records| :: FromPlan(records[i], plans[i]);
    hide ReadSetHolds, AllBefore, FileAt;
  }

  class Disk {
    var names: Names
    var bytes: Contents
    var nextIno: Ino
    /** The hooks still to be run, in order; when they run out, a hook does nothing. */
    var hooks: seq<Hook>
    /** Every unlink so far. */
    ghost var removals: seq<Removal>
    /** The names the last hook left, or those the transaction started with. */
    ghost var lastNames: Names

    constructor (names: Names, bytes: Contents, nextIno: Ino, hooks: seq<Hook>)
      ensures this.names == names && this.bytes == bytes && this.nextIno == nextIno && this.hooks == hooks && removals == [] && lastNames == names
    {
      this.names, this.bytes, this.nextIno, this.hooks, removals, lastNames := names, bytes, nextIno, hooks, [], names;
    }

    ghost predicate AllJustified()
      reads this`removals
    {
      forall i | 0 <= i < |removals| :: Justified(removals[i])
    }

    method RunHook() returns (ok: bool)
      modifies this`names, this`bytes, this`hooks, this`lastNames
      ensures lastNames == names
      ensures ok <==> old(hooks) == [] || !old(hooks)[0].throws
      ensures if old(hooks) != [] && old(hooks)[0].disk.Some? then (names, bytes) == old(hooks)[0].disk.value
              else names == old(names) && bytes == old(bytes)
      ensures (ok, hooks) == Ran(old(hooks), 1) && (names, bytes) == HookDisk(old(hooks), old(names), old(bytes))
      ensures Quiet(old(hooks)) ==> names == old(names) && bytes == old(bytes) && Quiet(hooks)
      ensures Calm(old(hooks)) ==> ok && Calm(hooks)
    {
      ok := true;
      if hooks != [] {
        var h := hooks[0];
        hooks := hooks[1..];
        if h.disk.Some? {
          names, bytes := h.disk.value.0, h.disk.value.1;
        }
        ok := !h.throws;
      }
      lastNames := names;
    }

    method Link(source: Name, target: Name) returns (ok: bool)
      modifies this`names
      ensures ok <==> source in old(names) && target !in old(names)
      ensures names == if ok then old(names)[target := old(names)[source]] else old(names)
    {
      ok := source in names && target !in names;
      if ok {
        names := names[target := names[source]];
      }
    }

    method Unlink(target: Name, ghost records: seq<CasRecord>)
      requires AllJustified() && Justified(Removal(target, names, bytes, records))
      modifies this`names, this`removals
      ensures AllJustified() && names == old(names) - {target}
    {
      removals := removals + [Removal(target, names, bytes, records)];
      names := names - {target};
    }

    /** Writes the new content of every changing file under its prepared name. */
    method CreatePrepared(plans: seq<Plan>) returns (records: seq<CasRecord>)
      requires Accepted(names, bytes, plans)
      requires (forall i | i in bytes :: i < nextIno) && (forall n | n in names :: n.Public?)
      modifies this`names, this`bytes, this`nextIno
      ensures Undisturbed(old(names), plans, names, bytes, records, None) && !SomeMutated(records)
      ensures forall i | 0 <= i < |records| :: records[i].claimIdentity.None?
      ensures forall i | i in old(bytes) :: i in bytes && bytes[i] == old(bytes)[i]
    {
      hide Undisturbed;
      records := seq(|plans|, i requires 0 <= i < |plans| =>
        CasRecord(plans[i].path, plans[i].before, plans[i].expectedIdentity, plans[i].after, None, None, false));
      ghost var names0 := names;
      PreparingBegins(names, bytes, plans, records);
      for i := 0 to |plans|
        invariant |records| == |plans| && (forall n | n in bytes :: n < nextIno)
        invariant Preparing(names0, plans, names, bytes, records, i)
        invariant forall k | k in old(bytes) :: k in bytes && bytes[k] == old(bytes)[k]
      {
        hide Preparing;
        PrepareStep(names0, plans, names, bytes, records, i, nextIno);
        if records[i].Mutates() && records[i].after.Some? {
          names, bytes := names[Prepared(i) := nextIno], bytes[nextIno := records[i].after.value];
          records := records[i := records[i].(preparedIdentity := Some(nextIno))];
          nextIno := nextIno + 1;
        }
      }
      PreparingEnds(names0, plans, names, bytes, records);
    }

    /** One file: link its claim, check it, and run the hook. */
    method ClaimFile(ghost names0: Names, plans: seq<Plan>, records0: seq<CasRecord>, i: nat, ghost quiet: bool) returns (ok: bool, records: seq<CasRecord>)
      requires FromPlans(records0, plans) && !SomeMutated(records0) && i < |records0|
      requires records0[i].Mutates() && records0[i].claimIdentity.None? && SinceHook(lastNames, names, records0)
      requires quiet ==> Quiet(hooks) && Undisturbed(names0, plans, names, bytes, records0, None)
      modifies this`names, this`bytes, this`hooks, this`lastNames
      ensures FromPlans(records, plans) && !SomeMutated(records) && SinceHook(lastNames, names, records)
      ensures |records| == |records0| && records == records0[i := records0[i].(claimIdentity := records[i].claimIdentity)]
      ensures Undisturbed(names0, plans, old(names), old(bytes), records0, None) ==>
                && (ok <==> old(hooks) == [] || !old(hooks)[0].throws)
                && records[i].claimIdentity == records[i].beforeIdentity
                && (old(hooks) != [] && old(hooks)[0].disk.Some? ==> (names, bytes) == old(hooks)[0].disk.value && lastNames == names)
      ensures quiet ==> Quiet(hooks) && Undisturbed(names0, plans, names, bytes, records, None) && bytes == old(bytes)
      ensures quiet ==> (ok, hooks) == Ran(old(hooks), 1) && records[i].claimIdentity == records[i].beforeIdentity
    {
      hide Undisturbed, PreparedAndClaim, Quiet, SinceHook, Ran;
      records := records0;
      var r := records[i];
      if Undisturbed(names0, plans, names, bytes, records, None) {
        ClaimStep(names0, plans, names, bytes, records, i);
      }
      if r.before.None? {
        if Public(r.path) in names {
          return false, records;
        }
      } else {
        ghost var unclaimed := names;
        ok := Link(Public(r.path), Claim(i));
        if !ok {
          return;
        }
        ClaimRecorded(lastNames, unclaimed, records, i, names[Claim(i)]);
        records := records[i := r.(claimIdentity := Some(names[Claim(i)]))];
        if !PreparedAndClaim(names, bytes, records[i], i) {
          return false, records;
        }
      }
      ok := RunHook();
      NothingSince(names, records);
    }

    /** Links a claim to every original that is going to change, and checks it. */
    method ClaimFiles(ghost names0: Names, plans: seq<Plan>, records0: seq<CasRecord>, ghost quiet: bool) returns (ok: bool, records: seq<CasRecord>)
      requires FromPlans(records0, plans) && !SomeMutated(records0) && (forall i | 0 <= i < |records0| :: records0[i].claimIdentity.None?)
      requires Undisturbed(names0, plans, names, bytes, records0, None) && SinceHook(lastNames, names, records0)
      requires quiet ==> Quiet(hooks)
      modifies this`names, this`bytes, this`hooks, this`lastNames
      ensures FromPlans(records, plans) && !SomeMutated(records) && SinceHook(lastNames, names, records)
      ensures quiet ==> Quiet(hooks) && Undisturbed(names0, plans, names, bytes, records, None) && bytes == old(bytes)
      ensures old(hooks) != [] && old(hooks)[0].throws && Changes(plans) ==>
                && !ok && FirstClaimed(records)
                && (old(hooks)[0].disk.Some? ==> (names, bytes) == old(hooks)[0].disk.value && lastNames == names)
      ensures quiet ==> (ok, hooks) == Ran(old(hooks), ClaimHooks(plans, |plans|))
      ensures quiet && ok ==> ClaimedUpTo(records, |records|)
    {
      hide Undisturbed, PreparedAndClaim, Quiet, SinceHook, Changes, ClaimedUpTo, FirstClaimed, Ran, ClaimHooks;
      records := records0;
      NoHooks(hooks, plans);
      ghost var first := true;
      assert ClaimedUpTo(records, 0) by {
        ClaimedMore(records, 0);
      }
      for i := 0 to |records|
        invariant FromPlans(records, plans) && !SomeMutated(records) && |records| == |records0|
        invariant SinceHook(lastNames, names, records)
        invariant forall k | i <= k < |records| :: records[k].claimIdentity.None?
        invariant first <==> forall k | 0 <= k < i :: !records0[k].Mutates()
        invariant first ==> records == records0 && hooks == old(hooks) && Undisturbed(names0, plans, names, bytes, records, None)
        invariant !first ==> old(hooks) == [] || !old(hooks)[0].throws
        invariant quiet ==> Quiet(hooks) && Undisturbed(names0, plans, names, bytes, records, None) && bytes == old(bytes)
        invariant quiet ==> (true, hooks) == Ran(old(hooks), ClaimHooks(plans, i)) && ClaimedUpTo(records, i)
      {
        UnchangedHasNoHooks(records, plans, i);
        UnchangedHasNoHooks(records0, plans, i);
        if quiet {
          ClaimHooksStep(old(hooks), plans, i, hooks);
        }
        ClaimedMore(records, i);
        if records[i].Mutates() {
          ghost var before := records;
          ok, records := ClaimFile(names0, plans, records, i, quiet);
          ClaimedFrame(before, i, records[i]);
          ClaimedMore(records, i);
          if first {
            FirstIsClaimed(records0, records, i);
          }
          if !ok {
            return;
          }
          first := false;
        }
      }
      if first {
        NothingChanges(plans, records0);
      }
      ok := true;
    }

    /**
     * Replaces the changing files one by one; every public path is checked
     * before each unlink and each link, and once more at the end.
     */
    method MutateFiles(ghost names0: Names, plans: seq<Plan>, records0: seq<CasRecord>, ghost quiet: bool)
      returns (ok: bool, records: seq<CasRecord>, ghost gone: Option<nat>)
      requires FromPlans(records0, plans) && !SomeMutated(records0) && AllJustified() && SinceHook(lastNames, names, records0)
      requires quiet ==> Quiet(hooks) && Undisturbed(names0, plans, names, bytes, records0, None)
      modifies this`names, this`bytes, this`hooks, this`removals, this`lastNames
      ensures FromPlans(records, plans) && AllJustified()
      ensures !SomeMutated(records) ==> SinceHook(lastNames, names, records)
      ensures SomeMutated(records) ==> ClaimedUpTo(records, |records|)
      ensures ok ==> AllMutated(records) && ReadSetHolds(names, bytes, records, None) && gone.None?
      ensures quiet ==> Quiet(hooks) && Undisturbed(names0, plans, names, bytes, records, gone) && bytes == old(bytes)
      ensures quiet && ClaimedUpTo(records0, |records0|) ==> (ok, hooks) == Ran(old(hooks), MutationHooks(plans, |plans|))
      ensures quiet && ClaimedUpTo(records0, |records0|) && !ok ==> (SomeMutated(records) <==> Ran(old(hooks), 1).0)
    {
      hide Undisturbed, PreparedAndClaim, Quiet, ReadSetHolds, Justified, SinceHook, Ran, MutationHooks, HooksOf, SomeMutated, FirstHookRan, FromPlans, ClaimedUpTo;
      records, gone := records0, None;
      ghost var sure := quiet && ClaimedUpTo(records0, |records0|);
      NoHooks(hooks, plans);
      NothingMutated(records, hooks);
      OneRecordPerPlan(records, plans);
      if quiet {
        ChecksPass(names0, plans, names, bytes, records, None);
      }
      if !ReadSetHolds(names, bytes, records, None) || !AllPreparedAndClaimed(names, bytes, records) {
        return false, records, None;
      }
      CheckedAreClaimed(names, bytes, records);
      for i := 0 to |records|
        invariant |records| == |records0| && FromPlans(records, plans) && AllJustified() && gone.None?
        invariant !SomeMutated(records) ==> SinceHook(lastNames, names, records)
        invariant forall k | 0 <= k < i :: records[k].mutated <==> records[k].Mutates()
        invariant forall k | i <= k < |records| :: !records[k].mutated
        invariant ClaimedUpTo(records, |records|)
        invariant quiet ==> Quiet(hooks) && Undisturbed(names0, plans, names, bytes, records, None) && bytes == old(bytes)
        invariant sure ==> (true, hooks) == Ran(old(hooks), MutationHooks(plans, i))
        invariant sure ==> FirstHookRan(records, old(hooks), hooks)
      {
        UnchangedHasNoHooks(records, plans, i);
        if sure {
          MutationHooksStep(old(hooks), plans, i, hooks);
        }
        if records[i].Mutates() {
          ghost var before, hooksBefore := records, hooks;
          ok, records, gone := MutateFile(names0, plans, records, i, quiet);
          if sure {
            FirstHookStep(before, records, old(hooks), hooksBefore, hooks);
          }
          if !ok {
            return;
          }
          OneMoreMutated(before, records, i);
        }
      }
      if quiet {
        ChecksPass(names0, plans, names, bytes, records, None);
      }
      ok := ReadSetHolds(names, bytes, records, None);
    }

    /** One file: unlink the original, then link the prepared file where nothing is. */
    method MutateFile(ghost names0: Names, plans: seq<Plan>, records0: seq<CasRecord>, i: nat, ghost quiet: bool)
      returns (ok: bool, records: seq<CasRecord>, ghost gone: Option<nat>)
      requires FromPlans(records0, plans) && AllJustified()
      requires i < |records0| && records0[i].Mutates() && !records0[i].mutated
      requires !SomeMutated(records0) ==> SinceHook(lastNames, names, records0)
      requires quiet ==> Quiet(hooks) && Undisturbed(names0, plans, names, bytes, records0, None)
      modifies this`names, this`bytes, this`hooks, this`removals, this`lastNames
      ensures FromPlans(records, plans) && AllJustified() && |records| == |records0|
      ensures !SomeMutated(records) ==> SinceHook(lastNames, names, records)
      ensures ClaimedUpTo(records0, |records0|) ==> ClaimedUpTo(records, |records|)
      ensures ok ==> records == records0[i := records0[i].(mutated := true)] && gone.None?
      ensures quiet ==> Quiet(hooks) && Undisturbed(names0, plans, names, bytes, records, gone) && bytes == old(bytes)
      ensures quiet && ClaimedUpTo(records0, |records0|) ==>
                && (ok, hooks) == Ran(old(hooks), HooksOf(plans[i]))
                && (SomeMutated(records) <==> SomeMutated(records0) || Ran(old(hooks), 1).0)
    {
      hide Undisturbed, PreparedAndClaim, Quiet, ReadSetHolds, Justified, SinceHook, Ran;
      records, gone := records0, None;
      ghost var start, count := hooks, HooksOf(plans[i]);
      assert FromPlan(records[i], plans[i]);
      RanNone(hooks);
      RanStep(start, 0, hooks, count);
      if quiet {
        ChecksPass(names0, plans, names, bytes, records, None);
      }
      if !ReadSetHolds(names, bytes, records, None) {
        return false, records, None;
      }
      var ran := RunHook();
      NothingSince(names, records);
      if !ran || !ReadSetHolds(names, bytes, records, None) || !PreparedAndClaim(names, bytes, records[i], i) {
        return false, records, None;
      }
      var r := records[i];
      if quiet {
        UnlinkStep(names0, plans, names, bytes, records, i);
      }
      OriginalRemovable(names, bytes, records, i);
      records := records[i := r.(mutated := true)];
      assert records[i].mutated;
      gone := Some(i);
      if r.before.Some? {
        Unlink(Public(r.path), records);
        RanStep(start, 1, hooks, count);
        ran := RunHook();
        if !ran {
          return false, records, gone;
        }
      } else {
        VacantPath(names, bytes, records0, i);
      }
      if r.after.Some? {
        if quiet {
          ChecksPass(names0, plans, names, bytes, records, gone);
          PublishStep(names0, plans, names, bytes, records, i);
        }
        if !ReadSetHolds(names, bytes, records, Some(i)) {
          return false, records, gone;
        }
        RanStep(start, count - 2, hooks, count);
        ran := RunHook();
        if !ran || !ReadSetHolds(names, bytes, records, Some(i)) {
          return false, records, gone;
        }
        ok := Link(Prepared(i), Public(r.path));
        if !ok {
          return false, records, gone;
        }
        gone := None;
        RanStep(start, count - 1, hooks, count);
        ran := RunHook();
        if quiet {
          ChecksPass(names0, plans, names, bytes, records, None);
        }
        ok := ran && Owned(names, bytes, Public(r.path), r.preparedIdentity, r.after);
      } else {
        if quiet {
          PublishStep(names0, plans, names, bytes, records, i);
        }
        gone := None;
        ok := Public(r.path) !in names;
      }
    }

    // -------------------------------------------------------------- rollback

    /** Once its preflight has passed, the rollback cannot fail: it puts every original back, last file first. */
    method RestoreOriginals(plans: seq<Plan>, records: seq<CasRecord>)
      requires FromPlans(records, plans) && RollbackAllowed(names, bytes, records) && AllJustified()
      modifies this`names, this`removals
      ensures AllJustified() && AllBefore(names, bytes, records)
      ensures RestoredFrom(old(names), plans, names)
    {
      hide Justified, RollbackAllowed;
      ghost var names1 := names;
      RestoringBegins(plans, names, bytes, records);
      for i := |records| downto 0
        invariant AllJustified() && Restoring(names1, plans, names, bytes, records, i)
      {
        hide Restoring;
        var r := records[i];
        RestoreStep(names1, plans, names, bytes, records, i + 1);
        if r.mutated {
          ghost var restored := RestoredNames(names, r);
          if r.after.Some? && Public(r.path) in names {
            Unlink(Public(r.path), records);
          }
          if r.before.Some? {
            var linked := Link(Claim(i), Public(r.path));
          }
          assert names == restored;
        }
      }
    }

    /** Runs the hook, then the complete preflight, and only then touches anything. */
    method Rollback(ghost names0: Names, plans: seq<Plan>, records: seq<CasRecord>, ghost gone: Option<nat>, ghost quiet: bool)
      returns (ok: bool, cause: Cause)
      requires FromPlans(records, plans) && AllJustified() && ClaimedUpTo(records, |records|)
      requires quiet ==> Quiet(hooks) && Undisturbed(names0, plans, names, bytes, records, gone)
      modifies this`names, this`bytes, this`hooks, this`removals, this`lastNames
      ensures AllJustified()
      ensures ok ==> AllBefore(names, bytes, records)
      ensures hooks == Ran(old(hooks), 1).1
      ensures var found := HookDisk(old(hooks), old(names), old(bytes));
              && (ok <==> Ran(old(hooks), 1).0 && RollbackAllowed(found.0, found.1, records))
              && (!ok ==> (names, bytes) == found && cause == if Ran(old(hooks), 1).0 then PreflightFailed else HookThrew)
              && (ok ==> RestoredFrom(found.0, plans, names) && bytes == found.1)
      ensures quiet ==> (ok <==> old(hooks) == [] || !old(hooks)[0].throws)
      ensures quiet ==> RestoredFrom(old(names), plans, names) && bytes == old(bytes)
    {
      hide Undisturbed, RollbackAllowed, Justified, AllBefore;
      if quiet {
        RollbackPasses(names0, plans, names, bytes, records, gone);
      }
      var ran := RunHook();
      if !ran {
        return false, HookThrew;
      }
      if !RollbackAllowed(names, bytes, records) {
        return false, PreflightFailed;
      }
      RestoreOriginals(plans, records);
      return true, HookThrew;
    }

    // -------------------------------------------------------------- cleanup

    method UnlinkOwned(target: Name, identity: Option<Ino>, content: Option<Bytes>, ghost records: seq<CasRecord>) returns (ok: bool)
      requires AllJustified()
      requires Owned(names, bytes, target, identity, content) ==> Justified(Removal(target, names, bytes, records))
      modifies this`names, this`removals
      ensures AllJustified()
      ensures ok <==> target in old(names) ==> Owned(old(names), bytes, target, identity, content)
      ensures names == if ok then old(names) - {target} else old(names)
    {
      if target !in names {
        assert names == names - {target};
        return true;
      }
      ok := Owned(names, bytes, target, identity, content);
      if ok {
        Unlink(target, records);
      }
    }

    /** Removes the claim and then the prepared file of one record; the second is kept when the first is not its own. */
    method CleanRecord(records: seq<CasRecord>, i: nat) returns (ok: bool)
      requires i < |records| && AllJustified() && CleanupAllowed(names, bytes, records)
      modifies this`names, this`removals
      ensures AllJustified() && CleanupAllowed(names, bytes, records)
      ensures OnlyAuxiliariesRemoved(old(names), names)
      ensures ok ==> (records[i].claimIdentity.Some? ==> Claim(i) !in names) && (records[i].preparedIdentity.Some? ==> Prepared(i) !in names)
      ensures ok <==> Tidy(old(names), bytes, records[i], i)
      ensures forall n: Name | !Recorded(records, n) || n.index != i :: IdentityAt(names, n) == IdentityAt(old(names), n)
    {
      hide CleanupAllowed;
      var r := records[i];
      ok := true;
      ghost var names0 := names;
      if r.claimIdentity.Some? {
        ok := UnlinkOwned(Claim(i), r.claimIdentity, r.before, records);
        RemovalKeepsVerification(names0, names, bytes, records);
      }
      if ok && r.preparedIdentity.Some? {
        ok := UnlinkOwned(Prepared(i), r.preparedIdentity, r.after, records);
        RemovalKeepsVerification(names0, names, bytes, records);
      }
    }

    /** Cleans record after record; on the failure path it goes on past a record it cannot clean. */
    method CleanUp(records: seq<CasRecord>, stopAtFirst: bool) returns (ok: bool)
      requires AllJustified() && CleanupAllowed(names, bytes, records)
      modifies this`names, this`removals
      ensures AllJustified() && CleanupAllowed(names, bytes, records)
      ensures OnlyAuxiliariesRemoved(old(names), names)
      ensures ok ==> Cleared(names, records)
      ensures ok <==> AllTidy(old(names), bytes, records)
      ensures forall n: Name | !Recorded(records, n) :: IdentityAt(names, n) == IdentityAt(old(names), n)
    {
      hide CleanupAllowed, Owned, Justified, Tidy, Recorded;
      ok := true;
      for i := 0 to |records|
        invariant AllJustified() && CleanupAllowed(names, bytes, records)
        invariant OnlyAuxiliariesRemoved(old(names), names)
        invariant ok ==> forall k | 0 <= k < i ::
                    (records[k].claimIdentity.Some? ==> Claim(k) !in names) && (records[k].preparedIdentity.Some? ==> Prepared(k) !in names)
        invariant ok <==> forall k | 0 <= k < i :: Tidy(old(names), bytes, records[k], k)
        invariant forall n: Name | !Recorded(records, n) || n.index >= i :: IdentityAt(names, n) == IdentityAt(old(names), n)
      {
        TidyFrame(old(names), names, bytes, records[i], i);
        var cleaned := CleanRecord(records, i);
        ok := ok && cleaned;
        if !ok && stopAtFirst {
          return;
        }
      }
    }

    // -------------------------------------------------------------- the transaction

    /**
     * All or nothing. Whatever the hooks do, every unlink is justified, success
     * means that every public path was verified with nothing of the
     * transaction left, and a plain failure after a replacement means that every
     * original was verified in place. When the hooks leave the disk alone, a plain failure
     * restores it exactly, and nothing but the rollback hook can make it worse.
     * When nothing was replaced, `failure` is the disk the handler found: what the last
     * hook left and auxiliaries. The handler takes exactly the transaction's own names
     * from it, so an inode survives exactly when the hooks left it another name.
     */
    method Commit(plans: seq<Plan>) returns (outcome: Outcome, records: seq<CasRecord>, ghost failure: Names)
      requires (forall i | i in bytes :: i < nextIno) && (forall n | n in names :: n.Public?) && AllJustified()
      modifies this
      ensures AllJustified()
      ensures !Accepted(old(names), old(bytes), plans) ==> outcome.Failed? && names == old(names) && records == []
      ensures Accepted(old(names), old(bytes), plans) ==> FromPlans(records, plans)
      ensures outcome.Committed? ==> PlansPublished(names, bytes, plans, records) && AllMutated(records) && Cleared(names, records)
      ensures outcome.Failed? ==> Cleared(names, records) && (SomeMutated(records) ==> PlansKept(names, bytes, plans))
      ensures Quiet(old(hooks)) && Throws(old(hooks)) <= 1 ==> !outcome.Incomplete?
      ensures Quiet(old(hooks)) && outcome.Failed? ==> names == old(names)
      ensures Quiet(old(hooks)) ==> forall i | i in old(bytes) :: i in bytes && bytes[i] == old(bytes)[i]
      ensures Quiet(old(hooks)) && Accepted(old(names), old(bytes), plans) ==> outcome == OutcomeAt(plans, old(hooks))
      ensures Quiet(old(hooks)) && outcome.Committed? ==> forall n | n in names :: n.Public?
      ensures Quiet(old(hooks)) ==> forall p | !Planned(plans, p) :: IdentityAt(names, Public(p)) == IdentityAt(old(names), Public(p))
      ensures Calm(old(hooks)) && Accepted(old(names), old(bytes), plans) ==> outcome.Committed?
      ensures Accepted(old(names), old(bytes), plans) && !outcome.Committed? && !SomeMutated(records) ==>
                && SinceHook(lastNames, failure, records)
                && (outcome.Failed? <==> AllTidy(failure, bytes, records))
                && (outcome.Failed? ==> Stripped(failure, names, records))
                && (outcome.Failed? ==> forall ino :: Named(names, ino) <==> NamedBeside(lastNames, records, ino))
      ensures Accepted(old(names), old(bytes), plans) && Changes(plans) && old(hooks) != [] && old(hooks)[0].throws ==>
                && !outcome.Committed? && !SomeMutated(records) && FirstClaimed(records)
                && (old(hooks)[0].disk.Some? ==> (failure, bytes) == old(hooks)[0].disk.value && lastNames == failure)
    {
      hide Undisturbed, Quiet, Calm, Ran, ReadSetHolds, AllBefore, Accepted, CleanupAllowed, Justified, SinceHook, Stripped, NamedBeside, Named,
           AllTidy, Changes, FirstClaimed, PlansPublished, PlansKept, Throws;
      lastNames := names;
      failure := names;
      if !Accepted(names, bytes, plans) {
        return Failed, [], failure;
      }
      ghost var names0, quiet, gone := names, Quiet(hooks), None;
      CalmIsQuiet(hooks);
      CalmCommits(plans, hooks);
      OneThrowIsUndone(plans, hooks);
      records := CreatePrepared(plans);
      UndisturbedFacts(names0, plans, names, bytes, records, None);
      PreparedSince(names0, plans, names, bytes, records);
      var ok;
      ok, records := ClaimFiles(names0, plans, records, quiet);
      if ok {
        ok, records, gone := MutateFiles(names0, plans, records, quiet);
      }
      ghost var names1 := names;
      if quiet {
        UndisturbedFacts(names0, plans, names, bytes, records, gone);
      }
      if ok {
        CleanupJustified(names, bytes, records);
        ok := CleanUp(records, true);
        if ok {
          CleanedKeepsReadSet(names1, names, bytes, records);
          if quiet {
            NothingLeft(names1, names, bytes, records);
          }
          VerifiedPlans(names, bytes, plans, records);
          return Committed, records, names;
        }
        NothingToClean(names1, plans, bytes, records);
      }
      failure := names;
      outcome := UndoAndCleanUp(names0, plans, records, gone, quiet && Undisturbed(names0, plans, names, bytes, records, gone));
      VerifiedPlans(names, bytes, plans, records);
      if outcome.Failed? && !SomeMutated(records) {
        forall ino ensures Named(names, ino) <==> NamedBeside(lastNames, records, ino) {
          SurvivesIff(lastNames, failure, names, records, ino);
        }
      }
    }

    /** What the failure handler does: roll back if anything was replaced, and clean up unless that failed. */
    method UndoAndCleanUp(ghost names0: Names, plans: seq<Plan>, records: seq<CasRecord>, ghost gone: Option<nat>, ghost quiet: bool)
      returns (outcome: Outcome)
      requires FromPlans(records, plans) && AllJustified()
      requires SomeMutated(records) ==> ClaimedUpTo(records, |records|)
      requires quiet ==> Quiet(hooks) && Undisturbed(names0, plans, names, bytes, records, gone)
      modifies this`names, this`bytes, this`hooks, this`removals, this`lastNames
      ensures AllJustified() && !outcome.Committed?
      ensures outcome.Failed? ==> Cleared(names, records) && (SomeMutated(records) ==> AllBefore(names, bytes, records))
      ensures quiet && outcome.Failed? ==> names == names0
      ensures quiet ==> outcome == if SomeMutated(records) && !Ran(old(hooks), 1).0 then Incomplete(HookThrew) else Failed
      ensures quiet ==> bytes == old(bytes) && forall p | !Planned(plans, p) :: IdentityAt(names, Public(p)) == IdentityAt(names0, Public(p))
      ensures !SomeMutated(records) ==>
                && bytes == old(bytes) && lastNames == old(lastNames)
                && (outcome.Failed? <==> AllTidy(old(names), bytes, records))
                && (outcome.Failed? ==> Stripped(old(names), names, records))
    {
      hide Undisturbed, Quiet, RollbackAllowed, HookDisk, ReadSetHolds, AllBefore, CleanupAllowed, Justified, Accounted, AllTidy, Stripped;
      if quiet {
        UndisturbedFacts(names0, plans, names, bytes, records, gone);
      }
      ghost var names1 := names;
      if SomeMutated(records) {
        var ok, cause := Rollback(names0, plans, records, gone, quiet);
        if quiet {
          AccountedStable(names1, names, plans, bytes, records);
        }
        if !ok {
          return Incomplete(cause);
        }
      } else if quiet {
        UntouchedIsBefore(names0, plans, names, bytes, records, gone);
      }
      CleanupJustified(names, bytes, records);
      ghost var names2 := names;
      var cleaned := CleanUp(records, false);
      CleanedKeepsReadSet(names2, names, bytes, records);
      if cleaned {
        CleanedIsStripped(names2, names, records);
      }
      if quiet {
        if cleaned {
          NothingLeft(names2, names, bytes, records);
          PublicBack(names0, plans, names2, names, bytes, records);
        }
      }
      outcome := if cleaned then Failed else Incomplete(CleanupFailed);
    }
  }

  /**
   * A run that loses an original nobody replaced: while the transaction is about to delete
   * the file at `p`, another program renames the file at `q` over it, and the hook throws.
   * The original had its claim for a last name, and the cleanup drops it.
   */
  method UnusedClaimMayBeLast(p: string, q: string, original: Bytes, other: Bytes) returns (before: Names, outcome: Outcome, names: Names)
    requires p != q
    ensures before == map[Public(p) := 1, Public(q) := 2]
    ensures outcome.Failed? && names == map[Public(p) := 2]
  {
    before := map[Public(p) := 1, Public(q) := 2];
    var bytes := map[1 := original, 2 := other];
    var plans := [Plan(p, Some(original), Some(1), None)];
    var renamed := map[Public(p) := 2, Claim(0) := 1];
    var disk := new Disk(before, bytes, 3, [Hook(Some((renamed, bytes)), true)]);
    assert Accepted(before, bytes, plans) && plans[0].before != plans[0].after;
    var records;
    ghost var failure;
    outcome, records, failure := disk.Commit(plans);
    assert FromPlan(records[0], plans[0]) && records[0].claimIdentity == Some(1) && records[0].preparedIdentity.None?;
    assert AllTidy(failure, disk.bytes, records);
    names := disk.names;
    forall n: Name ensures IdentityAt(names, n) == if n == Public(p) then Some(2) else None {
      assert IdentityAt(names, n) == if Recorded(records, n) then None else IdentityAt(failure, n);
    }
    assert IdentityAt(names, Public(p)) == Some(2);
    assert names.Keys == {Public(p)} by {
      assert forall n: Name :: n in names <==> IdentityAt(names, n).Some?;
    }
  }

  /** A record whose original is in place, with its prepared file written or still to be written. */
  predicate FreshRecord(names: Names, bytes: Contents, r: CasRecord, i: nat, written: bool) {
    && PublicAt(names, r, false) && Bound(names, Prepared(i), r.preparedIdentity) && Claim(i) !in names
    && r.claimIdentity.None? && !r.mutated
    && Holds(bytes, r.beforeIdentity, r.before)
    && (if written then Holds(bytes, r.preparedIdentity, if r.Mutates() then r.after else None) else r.preparedIdentity.None?)
  }

  /** The first `k` records have their prepared file; nothing else happened. */
  ghost predicate Preparing(names0: Names, plans: seq<Plan>, names: Names, bytes: Contents, records: seq<CasRecord>, k: nat) {
    && FromPlans(records, plans) && k <= |records|
    && (forall i | 0 <= i < |records| :: FreshRecord(names, bytes, records[i], i, i < k))
    && (forall n | n in names && !n.Public? :: n.index < |records|)
    && (forall n | n in names0 :: n.Public?)
    && (forall p :: IdentityAt(names, Public(p)) == IdentityAt(names0, Public(p)))
  }

  lemma PreparingBegins(names: Names, bytes: Contents, plans: seq<Plan>, records: seq<CasRecord>)
    requires Accepted(names, bytes, plans) && (forall n | n in names :: n.Public?)
    requires |records| == |plans|
    requires forall i | 0 <= i < |plans| ::
               records[i] == CasRecord(plans[i].path, plans[i].before, plans[i].expectedIdentity, plans[i].after, None, None, false)
    ensures Preparing(names, plans, names, bytes, records, 0)
  {
  }

  lemma PrepareStep(names0: Names, plans: seq<Plan>, names: Names, bytes: Contents, records: seq<CasRecord>, k: nat, ino: Ino)
    requires Preparing(names0, plans, names, bytes, records, k) && k < |records| == |plans| && ino !in bytes
    ensures var r := records[k];
            if r.Mutates() && r.after.Some? then
              Preparing(names0, plans, names[Prepared(k) := ino], bytes[ino := r.after.value], records[k := r.(preparedIdentity := Some(ino))], k + 1)
            else Preparing(names0, plans, names, bytes, records, k + 1)
  {
    hide FreshRecord;
    var r := records[k];
    if r.Mutates() && r.after.Some? {
      var names1, bytes1, records1 := names[Prepared(k) := ino], bytes[ino := r.after.value], records[k := r.(preparedIdentity := Some(ino))];
      forall i | 0 <= i < |records| ensures FreshRecord(names1, bytes1, records1[i], i, i < k + 1) {
        FreshStep(names, bytes, records[i], i, k, ino, r.after.value);
      }
      assert forall p :: IdentityAt(names1, Public(p)) == IdentityAt(names, Public(p));
    } else {
      forall i | 0 <= i < |records| ensures FreshRecord(names, bytes, records[i], i, i < k + 1) {
        FreshSkip(names, bytes, r, k);
      }
    }
  }

  lemma FreshStep(names: Names, bytes: Contents, r: CasRecord, i: nat, k: nat, ino: Ino, content: Bytes)
    requires FreshRecord(names, bytes, r, i, i < k) && ino !in bytes
    requires i == k ==> r.Mutates() && r.after == Some(content)
    ensures FreshRecord(names[Prepared(k) := ino], bytes[ino := content], if i == k then r.(preparedIdentity := Some(ino)) else r, i, i < k + 1)
  {
  }

  lemma FreshSkip(names: Names, bytes: Contents, r: CasRecord, k: nat)
    requires FreshRecord(names, bytes, r, k, false) && !(r.Mutates() && r.after.Some?)
    ensures FreshRecord(names, bytes, r, k, true)
  {
  }

  lemma PreparingEnds(names0: Names, plans: seq<Plan>, names: Names, bytes: Contents, records: seq<CasRecord>)
    requires Preparing(names0, plans, names, bytes, records, |records|)
    ensures Undisturbed(names0, plans, names, bytes, records, None) && !SomeMutated(records)
    ensures forall i | 0 <= i < |records| :: records[i].claimIdentity.None?
  {
  }

  // ---------------------------------------------------------------- the steps of an undisturbed run

  /** A step that touches one record and its own names keeps the rest of the disk undisturbed. */
  lemma UpdateOne(names0: Names, plans: seq<Plan>, names: Names, bytes: Contents, records: seq<CasRecord>, gone: Option<nat>,
                  names1: Names, i: nat, r: CasRecord, gone1: Option<nat>)
    requires Undisturbed(names0, plans, names, bytes, records, gone) && i < |records|
    requires (gone.None? || gone == Some(i)) && (gone1.None? || gone1 == Some(i))
    requires r.(claimIdentity := None, mutated := false) == records[i].(claimIdentity := None, mutated := false)
    requires (r.mutated ==> r.Mutates()) && (r.claimIdentity.Some? ==> r.before.Some? && r.Mutates())
    requires RecordAt(names1, bytes, r, i, gone1 == Some(i))
    requires forall n: Name | n != Public(r.path) && n != Claim(i) && n != Prepared(i) :: IdentityAt(names1, n) == IdentityAt(names, n)
    ensures Undisturbed(names0, plans, names1, bytes, records[i := r], gone1)
  {
    hide RecordAt, Planned;
    var records1 := records[i := r];
    forall k | 0 <= k < |records| ensures RecordAt(names1, bytes, records1[k], k, gone1 == Some(k)) {
      if k != i {
        RecordFrame(names, names1, bytes, records[k], k);
      }
    }
    forall n | n in names1 && !n.Public? ensures n.index < |records| {
      assert n.index != i ==> IdentityAt(names1, n) == IdentityAt(names, n);
    }
    forall p | !Planned(plans, p) ensures IdentityAt(names1, Public(p)) == IdentityAt(names0, Public(p)) {
      PlannedAt(plans, i);
      assert IdentityAt(names1, Public(p)) == IdentityAt(names, Public(p));
    }
  }

  lemma PlannedAt(plans: seq<Plan>, i: nat)
    requires i < |plans|
    ensures Planned(plans, plans[i].path)
  {
  }

  lemma RecordFrame(a: Names, b: Names, bytes: Contents, r: CasRecord, k: nat)
    requires RecordAt(a, bytes, r, k, false)
    requires IdentityAt(b, Public(r.path)) == IdentityAt(a, Public(r.path))
    requires IdentityAt(b, Claim(k)) == IdentityAt(a, Claim(k)) && IdentityAt(b, Prepared(k)) == IdentityAt(a, Prepared(k))
    ensures RecordAt(b, bytes, r, k, false)
  {
  }

  lemma RecordOf(names0: Names, plans: seq<Plan>, names: Names, bytes: Contents, records: seq<CasRecord>, gone: Option<nat>, i: nat)
    requires Undisturbed(names0, plans, names, bytes, records, gone) && i < |records|
    ensures RecordAt(names, bytes, records[i], i, gone == Some(i))
    ensures records[i].before.Some? <==> records[i].beforeIdentity.Some?
    ensures records[i].claimIdentity.Some? ==> records[i].before.Some?
    ensures records[i].mutated ==> records[i].Mutates()
  {
  }

  lemma ClaimStep(names0: Names, plans: seq<Plan>, names: Names, bytes: Contents, records: seq<CasRecord>, i: nat)
    requires Undisturbed(names0, plans, names, bytes, records, None)
    requires i < |records| && !records[i].mutated && records[i].claimIdentity.None?
    ensures records[i].before.None? ==> Public(records[i].path) !in names && records[i].beforeIdentity.None?
    ensures records[i].Mutates() && records[i].before.Some? ==>
              var r := records[i];
              var claimed := records[i := r.(claimIdentity := r.beforeIdentity)];
              && r.beforeIdentity.Some? && Bound(names, Public(r.path), r.beforeIdentity) && Claim(i) !in names
              && Undisturbed(names0, plans, names[Claim(i) := r.beforeIdentity.value], bytes, claimed, None)
              && PreparedAndClaim(names[Claim(i) := r.beforeIdentity.value], bytes, claimed[i], i)
  {
    hide Undisturbed;
    var r := records[i];
    RecordOf(names0, plans, names, bytes, records, None, i);
    if r.Mutates() && r.before.Some? {
      UpdateOne(names0, plans, names, bytes, records, None, names[Claim(i) := r.beforeIdentity.value], i, r.(claimIdentity := r.beforeIdentity), None);
    }
  }

  /** On an undisturbed disk every check passes, given that the claims are there. */
  lemma ChecksPass(names0: Names, plans: seq<Plan>, names: Names, bytes: Contents, records: seq<CasRecord>, gone: Option<nat>)
    requires Undisturbed(names0, plans, names, bytes, records, gone)
    ensures ReadSetHolds(names, bytes, records, gone)
    ensures ClaimedUpTo(records, |records|) ==> AllPreparedAndClaimed(names, bytes, records)
    ensures gone.None? ==> forall i | 0 <= i < |records| && records[i].mutated && records[i].after.Some? ::
              Owned(names, bytes, Public(records[i].path), records[i].preparedIdentity, records[i].after)
  {
  }

  lemma CheckedAreClaimed(names: Names, bytes: Contents, records: seq<CasRecord>)
    requires AllPreparedAndClaimed(names, bytes, records)
    ensures ClaimedUpTo(records, |records|)
  {
  }

  lemma OriginalRemovable(names: Names, bytes: Contents, records: seq<CasRecord>, i: nat)
    requires i < |records| && records[i].Mutates() && !records[i].mutated
    requires ReadSetHolds(names, bytes, records, None) && PreparedAndClaim(names, bytes, records[i], i)
    ensures records[i].before.Some? ==>
              Justified(Removal(Public(records[i].path), names, bytes, records[i := records[i].(mutated := true)]))
  {
    if records[i].before.Some? {
      assert PublicBefore(names, bytes, records[i]);
      var e := Removal(Public(records[i].path), names, bytes, records[i := records[i].(mutated := true)]);
      assert PublicRemovable(e, i);
    }
  }

  lemma VacantPath(names: Names, bytes: Contents, records: seq<CasRecord>, i: nat)
    requires i < |records| && !records[i].mutated && records[i].before.None? && ReadSetHolds(names, bytes, records, None)
    ensures names - {Public(records[i].path)} == names
  {
  }

  lemma UnlinkStep(names0: Names, plans: seq<Plan>, names: Names, bytes: Contents, records: seq<CasRecord>, i: nat)
    requires Undisturbed(names0, plans, names, bytes, records, None)
    requires i < |records| && records[i].Mutates() && !records[i].mutated && PreparedAndClaim(names, bytes, records[i], i)
    ensures Undisturbed(names0, plans, names - {Public(records[i].path)}, bytes, records[i := records[i].(mutated := true)], Some(i))
  {
    hide Undisturbed;
    var r := records[i];
    RecordOf(names0, plans, names, bytes, records, None, i);
    UpdateOne(names0, plans, names, bytes, records, None, names - {Public(r.path)}, i, r.(mutated := true), Some(i));
  }

  lemma PublishStep(names0: Names, plans: seq<Plan>, names: Names, bytes: Contents, records: seq<CasRecord>, i: nat)
    requires i < |records| && Undisturbed(names0, plans, names, bytes, records, Some(i))
    ensures Public(records[i].path) !in names
    ensures records[i].after.Some? ==>
              && Prepared(i) in names
              && Undisturbed(names0, plans, names[Public(records[i].path) := names[Prepared(i)]], bytes, records, None)
    ensures records[i].after.None? ==> Undisturbed(names0, plans, names, bytes, records, None)
  {
    hide Undisturbed;
    var r := records[i];
    RecordOf(names0, plans, names, bytes, records, Some(i), i);
    UpdateOne(names0, plans, names, bytes, records, Some(i),
              if r.after.Some? then names[Public(r.path) := names[Prepared(i)]] else names, i, r, None);
    assert records[i := r] == records;
  }

  // ---------------------------------------------------------------- rollback

  /** Only planned public paths differ. */
  ghost predicate RestoredFrom(names1: Names, plans: seq<Plan>, names: Names) {
    && (forall n: Name | !n.Public? :: IdentityAt(names, n) == IdentityAt(names1, n))
    && (forall p | !Planned(plans, p) :: IdentityAt(names, Public(p)) == IdentityAt(names1, Public(p)))
  }

  ghost predicate Restoring(names1: Names, plans: seq<Plan>, names: Names, bytes: Contents, records: seq<CasRecord>, i: nat) {
    && i <= |records| && FromPlans(records, plans) && RollbackAllowed(names1, bytes, records)
    && RestoredFrom(names1, plans, names)
    && (forall k | 0 <= k < i :: IdentityAt(names, Public(records[k].path)) == IdentityAt(names1, Public(records[k].path)))
    && (forall k | i <= k < |records| :: PublicBefore(names, bytes, records[k]))
  }

  lemma RestoringBegins(plans: seq<Plan>, names: Names, bytes: Contents, records: seq<CasRecord>)
    requires FromPlans(records, plans) && RollbackAllowed(names, bytes, records)
    ensures Restoring(names, plans, names, bytes, records, |records|)
  {
  }

  function RestoredNames(names: Names, r: CasRecord): Names {
    var rest := names - {Public(r.path)};
    if r.beforeIdentity.Some? then rest[Public(r.path) := r.beforeIdentity.value] else rest
  }

  lemma RestoreStep(names1: Names, plans: seq<Plan>, names: Names, bytes: Contents, records: seq<CasRecord>, i: nat)
    requires Restoring(names1, plans, names, bytes, records, i) && i > 0
    ensures var r := records[i - 1];
            && (!r.mutated ==> Restoring(names1, plans, names, bytes, records, i - 1))
            && (r.mutated ==>
                  && Restoring(names1, plans, RestoredNames(names, r), bytes, records, i - 1)
                  && (r.before.Some? ==> Claim(i - 1) in names && r.beforeIdentity == Some(names[Claim(i - 1)]))
                  && (Public(r.path) in names ==> r.after.Some? && Justified(Removal(Public(r.path), names, bytes, records)))
                  && (r.before.None? && Public(r.path) !in names ==> RestoredNames(names, r) == names))
  {
    hide Planned;
    var r := records[i - 1];
    assert PreparedAndClaim(names1, bytes, r, i - 1);
    assert IdentityAt(names, Public(r.path)) == IdentityAt(names1, Public(r.path));
    assert IdentityAt(names, Claim(i - 1)) == IdentityAt(names1, Claim(i - 1));
    assert IdentityAt(names, Prepared(i - 1)) == IdentityAt(names1, Prepared(i - 1));
    assert FromPlan(r, plans[i - 1]);
    PlannedAt(plans, i - 1);
    if r.mutated {
      if Public(r.path) in names {
        assert PublicRemovable(Removal(Public(r.path), names, bytes, records), i - 1);
      }
      var next := RestoredNames(names, r);
      assert forall n: Name | n != Public(r.path) :: IdentityAt(next, n) == IdentityAt(names, n);
      assert PublicBefore(next, bytes, r);
      assert Restoring(names1, plans, next, bytes, records, i - 1);
    }
  }

  /** On an undisturbed disk the rollback's preflight passes. */
  lemma RollbackPasses(names0: Names, plans: seq<Plan>, names: Names, bytes: Contents, records: seq<CasRecord>, gone: Option<nat>)
    requires Undisturbed(names0, plans, names, bytes, records, gone) && ClaimedUpTo(records, |records|)
    ensures RollbackAllowed(names, bytes, records)
  {
  }

  // ---------------------------------------------------------------- cleanup

  lemma RemovalKeepsVerification(a: Names, b: Names, bytes: Contents, records: seq<CasRecord>)
    requires OnlyAuxiliariesRemoved(a, b) && CleanupAllowed(a, bytes, records)
    ensures CleanupAllowed(b, bytes, records)
  {
  }

  lemma TidyFrame(a: Names, b: Names, bytes: Contents, r: CasRecord, i: nat)
    requires IdentityAt(a, Claim(i)) == IdentityAt(b, Claim(i)) && IdentityAt(a, Prepared(i)) == IdentityAt(b, Prepared(i))
    ensures Tidy(a, bytes, r, i) <==> Tidy(b, bytes, r, i)
  {
  }

  lemma CleanedKeepsReadSet(a: Names, b: Names, bytes: Contents, records: seq<CasRecord>)
    requires OnlyAuxiliariesRemoved(a, b)
    ensures ReadSetHolds(a, bytes, records, None) ==> ReadSetHolds(b, bytes, records, None)
    ensures AllBefore(a, bytes, records) ==> AllBefore(b, bytes, records)
  {
  }

  lemma CleanupJustified(names: Names, bytes: Contents, records: seq<CasRecord>)
    requires !SomeMutated(records) || AllBefore(names, bytes, records) || (AllMutated(records) && ReadSetHolds(names, bytes, records, None))
    ensures CleanupAllowed(names, bytes, records)
  {
  }

  // ---------------------------------------------------------------- since the last hook

  lemma NothingSince(names: Names, records: seq<CasRecord>)
    ensures SinceHook(names, names, records)
  {
  }

  lemma PreparedSince(names0: Names, plans: seq<Plan>, names: Names, bytes: Contents, records: seq<CasRecord>)
    requires Undisturbed(names0, plans, names, bytes, records, None) && !SomeMutated(records)
    ensures SinceHook(names0, names, records)
  {
    forall n | n in names0 ensures n in names && names[n] == names0[n] {
      if !Planned(plans, n.path) {
        assert IdentityAt(names, Public(n.path)) == IdentityAt(names0, Public(n.path));
      }
    }
  }

  lemma ClaimRecorded(last: Names, names: Names, records: seq<CasRecord>, i: nat, ino: Ino)
    requires i < |records| && SinceHook(last, names, records) && Claim(i) !in names
    ensures SinceHook(last, names[Claim(i) := ino], records[i := records[i].(claimIdentity := Some(ino))])
  {
    var records1 := records[i := records[i].(claimIdentity := Some(ino))];
    assert forall n | Recorded(records, n) :: Recorded(records1, n);
  }

  lemma ClaimedMore(records: seq<CasRecord>, i: nat)
    ensures ClaimedUpTo(records, 0)
    ensures i < |records| ==> (ClaimedUpTo(records, i + 1) <==>
              ClaimedUpTo(records, i) && (records[i].Mutates() && records[i].before.Some? ==> records[i].claimIdentity == records[i].beforeIdentity))
  {
  }

  lemma ClaimedFrame(records: seq<CasRecord>, i: nat, r: CasRecord)
    requires i < |records|
    ensures ClaimedUpTo(records[i := r], i) <==> ClaimedUpTo(records, i)
  {
    assert forall k | 0 <= k < i :: records[i := r][k] == records[k];
  }

  lemma FirstIsClaimed(records0: seq<CasRecord>, records: seq<CasRecord>, i: nat)
    requires i < |records0| == |records| && records0[i].Mutates() && (forall k | 0 <= k < i :: !records0[k].Mutates())
    requires forall k | 0 <= k < |records0| :: records0[k].claimIdentity.None?
    requires records == records0[i := records0[i].(claimIdentity := records[i].claimIdentity)] && records[i].claimIdentity == records[i].beforeIdentity
    ensures FirstClaimed(records)
  {
    forall j | 0 <= j < |records|
      ensures records[j].claimIdentity ==
              if records[j].Mutates() && forall k | 0 <= k < j :: !records[k].Mutates() then records[j].beforeIdentity else None
    {
      if j > i {
        assert records[i].Mutates();
      }
    }
  }

  lemma NothingChanges(plans: seq<Plan>, records: seq<CasRecord>)
    requires FromPlans(records, plans) && forall k | 0 <= k < |records| :: !records[k].Mutates()
    ensures !Changes(plans)
  {
    forall i | 0 <= i < |plans| ensures plans[i].before == plans[i].after {
      assert FromPlan(records[i], plans[i]) && !records[i].Mutates();
    }
  }

  /** A transaction that changes nothing has made nothing, so its cleanup cannot fail. */
  lemma NothingToClean(names: Names, plans: seq<Plan>, bytes: Contents, records: seq<CasRecord>)
    requires FromPlans(records, plans) && AllMutated(records) && !AllTidy(names, bytes, records)
    ensures SomeMutated(records)
  {
    var i :| 0 <= i < |records| && !Tidy(names, bytes, records[i], i);
    assert records[i].mutated;
  }

  lemma CleanedIsStripped(a: Names, b: Names, records: seq<CasRecord>)
    requires Cleared(b, records) && forall n: Name | !Recorded(records, n) :: IdentityAt(b, n) == IdentityAt(a, n)
    ensures Stripped(a, b, records)
  {
    forall n ensures IdentityAt(b, n) == if Recorded(records, n) then None else IdentityAt(a, n) {
      if Recorded(records, n) {
        assert n !in b;
      }
    }
  }

  /** An inode survives the cleanup exactly when it had a name beside the transaction's own. */
  lemma SurvivesIff(last: Names, a: Names, b: Names, records: seq<CasRecord>, ino: Ino)
    requires SinceHook(last, a, records) && Stripped(a, b, records)
    ensures Named(b, ino) <==> NamedBeside(last, records, ino)
  {
    if Named(b, ino) {
      var n :| n in b && b[n] == ino;
      assert IdentityAt(b, n) == if Recorded(records, n) then None else IdentityAt(a, n);
      assert n in last && last[n] == ino;
    }
    if NamedBeside(last, records, ino) {
      var n :| n in last && !Recorded(records, n) && last[n] == ino;
      assert IdentityAt(b, n) == IdentityAt(a, n);
      assert n in b && b[n] == ino;
    }
  }

  lemma CalmIsQuiet(hooks: seq<Hook>)
    ensures Calm(hooks) ==> Quiet(hooks)
  {
  }

  /** Every auxiliary on the disk is one that a record knows. */
  predicate Accounted(names: Names, bytes: Contents, records: seq<CasRecord>) {
    && (forall i | 0 <= i < |records| ::
          && Bound(names, Prepared(i), records[i].preparedIdentity) && Bound(names, Claim(i), records[i].claimIdentity)
          && Tidy(names, bytes, records[i], i))
    && (forall n | n in names && !n.Public? :: n.index < |records|)
  }

  lemma UndisturbedFacts(names0: Names, plans: seq<Plan>, names: Names, bytes: Contents, records: seq<CasRecord>, gone: Option<nat>)
    requires Undisturbed(names0, plans, names, bytes, records, gone)
    ensures FromPlans(records, plans) && Accounted(names, bytes, records)
    ensures AllTidy(names, bytes, records)
    ensures forall i | 0 <= i < |records| :: Bound(names0, Public(records[i].path), records[i].beforeIdentity)
    ensures forall n | n in names0 :: n.Public?
    ensures forall p | !Planned(plans, p) :: IdentityAt(names, Public(p)) == IdentityAt(names0, Public(p))
  {
  }

  lemma UntouchedIsBefore(names0: Names, plans: seq<Plan>, names: Names, bytes: Contents, records: seq<CasRecord>, gone: Option<nat>)
    requires Undisturbed(names0, plans, names, bytes, records, gone) && !SomeMutated(records)
    ensures AllBefore(names, bytes, records)
  {
  }

  lemma AccountedStable(a: Names, b: Names, plans: seq<Plan>, bytes: Contents, records: seq<CasRecord>)
    requires RestoredFrom(a, plans, b) && Accounted(a, bytes, records)
    ensures Accounted(b, bytes, records)
    ensures AllTidy(b, bytes, records)
  {
    forall i | 0 <= i < |records|
      ensures Bound(b, Prepared(i), records[i].preparedIdentity) && Bound(b, Claim(i), records[i].claimIdentity)
      ensures Tidy(b, bytes, records[i], i)
    {
      assert IdentityAt(b, Prepared(i)) == IdentityAt(a, Prepared(i)) && IdentityAt(b, Claim(i)) == IdentityAt(a, Claim(i));
    }
    forall n | n in b && !n.Public? ensures n.index < |records| {
      assert IdentityAt(b, n) == IdentityAt(a, n);
    }
  }

  lemma NothingLeft(a: Names, b: Names, bytes: Contents, records: seq<CasRecord>)
    requires Accounted(a, bytes, records) && OnlyAuxiliariesRemoved(a, b) && Cleared(b, records)
    ensures forall n | n in b :: n.Public?
  {
  }

  /** Originals in place, other paths untouched and no auxiliary left: the disk is as it was. */
  lemma PublicBack(names0: Names, plans: seq<Plan>, a: Names, b: Names, bytes: Contents, records: seq<CasRecord>)
    requires FromPlans(records, plans) && AllBefore(b, bytes, records) && OnlyAuxiliariesRemoved(a, b)
    requires forall i | 0 <= i < |records| :: Bound(names0, Public(records[i].path), records[i].beforeIdentity)
    requires forall p | !Planned(plans, p) :: IdentityAt(a, Public(p)) == IdentityAt(names0, Public(p))
    requires (forall n | n in names0 :: n.Public?) && (forall n | n in b :: n.Public?)
    ensures b == names0
  {
  }
}
