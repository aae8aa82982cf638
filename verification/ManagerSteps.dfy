/**
 * The stages of one manager transaction, as predicates on the volume, and the
 * single link or unlink that leads from each stage to the next. Every stage is
 * `Safe`: a crash in it can be recovered.
 */
module ManagerSteps {
  import opened Wrappers
  import opened Journal

  // ---------------------------------------------------------------- plans

  datatype Plan = Plan(path: string, before: Option<Bytes>, beforeIdentity: Option<Ino>, after: Option<Bytes>)

  predicate PlanCurrent(names: Names, bytes: Contents, p: Plan) {
    Bound(names, Live(p.path), p.beforeIdentity) && Holds(bytes, p.beforeIdentity, p.before)
  }

  predicate DistinctPaths(plans: seq<Plan>) {
    forall a, b | 0 <= a < b < |plans| :: plans[a].path != plans[b].path
  }

  predicate ReadSetCurrent(names: Names, bytes: Contents, plans: seq<Plan>, receiptBefore: Option<Bytes>, receiptIdentity: Option<Ino>) {
    && DistinctPaths(plans)
    && Bound(names, Receipt, receiptIdentity) && Holds(bytes, receiptIdentity, receiptBefore)
    && forall i | 0 <= i < |plans| :: PlanCurrent(names, bytes, plans[i])
  }

  /**
   * `n` is not what a plan was derived from: something where nothing was expected, or
   * not the expected file with the expected content.
   */
  predicate Deviates(names: Names, bytes: Contents, n: Name, identity: Option<Ino>, content: Option<Bytes>) {
    match (identity, content)
    case (None, None) => n in names
    case (Some(ino), Some(c)) => n !in names || names[n] != ino || ino !in bytes || bytes[ino] != c
    case _ => true
  }

  /** A reason to refuse a transaction: a path planned twice, or a planned file or the receipt that deviates. */
  predicate Objectionable(names: Names, bytes: Contents, plans: seq<Plan>, receiptBefore: Option<Bytes>, receiptIdentity: Option<Ino>) {
    || (exists a, b | 0 <= a < b < |plans| :: plans[a].path == plans[b].path)
    || Deviates(names, bytes, Receipt, receiptIdentity, receiptBefore)
    || exists i | 0 <= i < |plans| :: Deviates(names, bytes, Live(plans[i].path), plans[i].beforeIdentity, plans[i].before)
  }

  lemma CurrentIff(names: Names, bytes: Contents, plans: seq<Plan>, receiptBefore: Option<Bytes>, receiptIdentity: Option<Ino>)
    ensures ReadSetCurrent(names, bytes, plans, receiptBefore, receiptIdentity) <==> !Objectionable(names, bytes, plans, receiptBefore, receiptIdentity)
  {
  }

  /** The plans that really change their file, in order. */
  function Changed(plans: seq<Plan>): (r: seq<Plan>)
    ensures forall p :: p in r <==> p in plans && p.before != p.after
    ensures DistinctPaths(plans) ==> DistinctPaths(r)
  {
    if plans == [] then []
    else
      var rest := Changed(plans[1..]);
      assert plans == [plans[0]] + plans[1..];
      assert DistinctPaths(plans) ==> DistinctPaths(plans[1..]);
      if plans[0].before == plans[0].after then rest else [plans[0]] + rest
  }

  /** Some file is written, created or replaced. */
  predicate Leaves(plans: seq<Plan>) {
    exists p | p in plans :: p.before != p.after && p.after.Some?
  }

  /** The record the transaction starts from: what the plans say, plus the prepared identities. */
  predicate FileDescribes(f: JournalFile, p: Plan) {
    f.path == p.path && f.before == p.before && f.beforeIdentity == p.beforeIdentity && f.after == p.after
  }

  predicate Describes(r: Record, plans: seq<Plan>, receiptBefore: Option<Bytes>, receiptIdentity: Option<Ino>, receiptAfter: Bytes) {
    && r.receiptBefore == receiptBefore && r.receiptBeforeIdentity == receiptIdentity && r.receiptAfter == receiptAfter
    && |r.files| == |Changed(plans)|
    && forall i | 0 <= i < |r.files| :: FileDescribes(r.files[i], Changed(plans)[i])
  }

  predicate PlansBefore(names: Names, plans: seq<Plan>, receiptIdentity: Option<Ino>) {
    && Bound(names, Receipt, receiptIdentity)
    && forall i | 0 <= i < |plans| :: Bound(names, Live(plans[i].path), plans[i].beforeIdentity)
  }

  predicate PlansAfter(names: Names, bytes: Contents, plans: seq<Plan>, receiptAfter: Bytes) {
    && ContentAt(names, bytes, Receipt) == Some(receiptAfter)
    && forall i | 0 <= i < |plans| :: ContentAt(names, bytes, Live(plans[i].path)) == plans[i].after
  }

  // ---------------------------------------------------------------- counting steps

  function PlansOf(r: Record): (plans: seq<Plan>)
    ensures |plans| == |r.files| && forall i | 0 <= i < |plans| :: FileDescribes(r.files[i], plans[i])
  {
    seq(|r.files|, i requires 0 <= i < |r.files| =>
      Plan(r.files[i].path, r.files[i].before, r.files[i].beforeIdentity, r.files[i].after))
  }

  /** How many of the first `k` plans find a file. */
  function OriginalsTo(plans: seq<Plan>, k: nat): nat
    requires k <= |plans|
  {
    if k == 0 then 0 else OriginalsTo(plans, k - 1) + if plans[k - 1].before.Some? then 1 else 0
  }

  /** How many of the first `k` plans leave a file. */
  function NewsTo(plans: seq<Plan>, k: nat): nat
    requires k <= |plans|
  {
    if k == 0 then 0 else NewsTo(plans, k - 1) + if plans[k - 1].after.Some? then 1 else 0
  }

  function Originals(plans: seq<Plan>): nat { OriginalsTo(plans, |plans|) }

  function News(plans: seq<Plan>): nat { NewsTo(plans, |plans|) }

  lemma CountStart(plans: seq<Plan>)
    ensures OriginalsTo(plans, 0) == 0 && NewsTo(plans, 0) == 0
  {
  }

  lemma {:induction false} CountStep(plans: seq<Plan>, i: nat)
    requires i < |plans|
    ensures OriginalsTo(plans, i + 1) == OriginalsTo(plans, i) + if plans[i].before.Some? then 1 else 0
    ensures NewsTo(plans, i + 1) == NewsTo(plans, i) + if plans[i].after.Some? then 1 else 0
    ensures OriginalsTo(plans, i + 1) <= Originals(plans) && NewsTo(plans, i + 1) <= News(plans)
    decreases |plans| - i
  {
    if i + 1 < |plans| {
      CountStep(plans, i + 1);
    }
  }

  /** The steps before the first revision is published. */
  function PrepareSteps(changed: seq<Plan>, receiptBefore: Option<Bytes>): nat {
    News(changed) + 1 + if receiptBefore.Some? then 1 else 0
  }

  /** What a step is: a move on the volume, or the first or the second name of a journal revision. */
  datatype Kind = Move | FirstName | SecondName

  /** The steps of the receipt exchange, in order. */
  function SwapKinds(receiptBefore: Option<Bytes>): seq<Kind> {
    (if receiptBefore.Some? then [Move, FirstName, SecondName, Move] else [])
    + [FirstName, SecondName, Move, FirstName, SecondName, FirstName, SecondName]
  }

  /** The steps after the first revision up to the last one. */
  function ExchangeSteps(changed: seq<Plan>, receiptBefore: Option<Bytes>): nat {
    6 + 4 * Originals(changed) + News(changed) + |SwapKinds(receiptBefore)|
  }

  function KindInPair(e: int): Kind { if e == 0 then FirstName else SecondName }

  /** Every claim is a link and a revision. */
  function KindInClaims(e: nat): Kind { if e % 3 == 0 then Move else if e % 3 == 1 then FirstName else SecondName }

  /** The claims with the revisions around them. */
  function KindInClaiming(changed: seq<Plan>, e: nat): Kind {
    var claimed := 2 + 3 * Originals(changed);
    if e < 2 then KindInPair(e) else if e < claimed then KindInClaims(e - 2) else KindInPair(e - claimed)
  }

  /** Step `e` after the first revision: the claims, the files, a revision, the receipt. */
  function KindInExchange(changed: seq<Plan>, receiptBefore: Option<Bytes>, e: nat): Kind
    requires e < ExchangeSteps(changed, receiptBefore)
  {
    var claimed := 4 + 3 * Originals(changed);
    var replaced := claimed + Originals(changed) + News(changed);
    if e < claimed then KindInClaiming(changed, e)
    else if e < replaced then Move
    else if e < replaced + 2 then KindInPair(e - replaced)
    else SwapKinds(receiptBefore)[e - replaced - 2]
  }

  /** How many revisions a complete transaction publishes. */
  function Revisions(changed: seq<Plan>, receiptBefore: Option<Bytes>): nat {
    7 + Originals(changed) + if receiptBefore.Some? then 1 else 0
  }

  /** How many auxiliaries it leaves to be removed. */
  function Auxiliaries(changed: seq<Plan>, receiptBefore: Option<Bytes>): nat {
    Originals(changed) + News(changed) + 1 + if receiptBefore.Some? then 2 else 0
  }

  /** After `c` steps of the cleanup: each prepared link is still there, its file's claim being removed just before it. */
  ghost predicate LinksKept(changed: seq<Plan>, c: int) {
    forall i | 0 <= i < |changed| && changed[i].after.Some? :: c <= OriginalsTo(changed, i + 1) + NewsTo(changed, i)
  }

  // ---------------------------------------------------------------- where a death leads

  datatype Ending = Rejected | Applied | Undone | Stuck

  /** The step with which the cleanup begins. */
  function CleanUpStep(changed: seq<Plan>, receiptBefore: Option<Bytes>): nat {
    PrepareSteps(changed, receiptBefore) + 2 + ExchangeSteps(changed, receiptBefore)
  }

  function TotalSteps(changed: seq<Plan>, receiptBefore: Option<Bytes>): nat {
    CleanUpStep(changed, receiptBefore) + Auxiliaries(changed, receiptBefore) + 2 * Revisions(changed, receiptBefore)
  }

  /** A death after `d` steps finds a revision with one of its two names. */
  predicate DiesTorn(changed: seq<Plan>, receiptBefore: Option<Bytes>, d: nat) {
    var first, cleanUp := PrepareSteps(changed, receiptBefore), CleanUpStep(changed, receiptBefore);
    if d < first + 2 then d == first + 1
    else if d < cleanUp then KindInExchange(changed, receiptBefore, d - first - 2).SecondName?
    else
      var dropped := d - cleanUp - Auxiliaries(changed, receiptBefore);
      0 <= dropped < 2 * Revisions(changed, receiptBefore) && dropped % 2 == 1
  }

  /** The new receipt is linked four steps before the cleanup begins. */
  predicate ReceiptLinkedAt(changed: seq<Plan>, receiptBefore: Option<Bytes>, d: nat) {
    d + 4 >= CleanUpStep(changed, receiptBefore)
  }

  /** What a commit that dies after `d` steps comes to, when its recovery is left alone. */
  ghost function EndingAt(changed: seq<Plan>, receiptBefore: Option<Bytes>, death: Option<nat>): Ending {
    if death.None? || death.value >= TotalSteps(changed, receiptBefore) then Applied
    else if DiesTorn(changed, receiptBefore, death.value) || !LinksKept(changed, death.value - CleanUpStep(changed, receiptBefore)) then Stuck
    else if ReceiptLinkedAt(changed, receiptBefore, death.value) then Applied
    else Undone
  }

  lemma {:induction false} CountsGrow(plans: seq<Plan>, a: nat, b: nat)
    requires a <= b <= |plans|
    ensures OriginalsTo(plans, a) <= OriginalsTo(plans, b) && NewsTo(plans, a) <= NewsTo(plans, b)
  {
    if a < b {
      CountsGrow(plans, a, b - 1);
    }
  }

  /** While file `i` is cleared, exactly the links from it on are left. */
  lemma LinksLeft(plans: seq<Plan>, i: nat, c: nat)
    requires i < |plans| && OriginalsTo(plans, i) + NewsTo(plans, i) <= c < OriginalsTo(plans, i + 1) + NewsTo(plans, i + 1)
    ensures LinksKept(plans, c) <==> forall j | 0 <= j < i :: plans[j].after.None?
  {
    forall j | 0 <= j < |plans| && plans[j].after.Some?
      ensures c <= OriginalsTo(plans, j + 1) + NewsTo(plans, j) <==> i <= j
    {
      if j < i {
        CountsGrow(plans, j + 1, i);
      } else {
        CountsGrow(plans, i, j);
        CountsGrow(plans, i + 1, j + 1);
        if i < j {
          CountsGrow(plans, i + 1, j);
        }
      }
    }
  }

  /** Before the cleanup all links are there, and after that of the files none is. */
  lemma LinksAtEnds(plans: seq<Plan>, c: int)
    ensures c <= 0 ==> LinksKept(plans, c)
    ensures c >= Originals(plans) + News(plans) ==> (LinksKept(plans, c) <==> forall j | 0 <= j < |plans| :: plans[j].after.None?)
  {
    forall j | 0 <= j < |plans| && plans[j].after.Some?
      ensures OriginalsTo(plans, j + 1) + NewsTo(plans, j) < Originals(plans) + News(plans)
    {
      CountsGrow(plans, j + 1, |plans|);
    }
  }

  lemma DescribedPlans(r: Record, plans: seq<Plan>, receiptBefore: Option<Bytes>, receiptIdentity: Option<Ino>, receiptAfter: Bytes)
    requires Describes(r, plans, receiptBefore, receiptIdentity, receiptAfter)
    ensures PlansOf(r) == Changed(plans)
  {
    forall i | 0 <= i < |r.files| ensures PlansOf(r)[i] == Changed(plans)[i] {
      assert FileDescribes(r.files[i], Changed(plans)[i]);
    }
  }

  lemma SamePlans(a: Record, b: Record)
    requires SameTransaction(a, b)
    ensures PlansOf(a) == PlansOf(b)
  {
    assert forall i | 0 <= i < |a.files| :: SameFile(a.files[i], b.files[i]) && PlansOf(a)[i] == PlansOf(b)[i];
  }

  /** From file `k` on, every auxiliary is there. */
  predicate AllAuxiliaries(names: Names, r: Record, k: nat) {
    forall i | k <= i < |r.files| ::
      && (Claim(r.files[i].path) in names <==> r.files[i].before.Some?)
      && (Prepared(r.files[i].path) in names <==> r.files[i].after.Some?)
  }

  function Without(names: Names, f: JournalFile): Names { names - {Claim(f.path), Prepared(f.path)} }

  lemma AuxiliariesOf(names: Names, bytes: Contents, r: Record, k: nat)
    requires Settled(names, bytes, r) && k < |r.files| && AllAuxiliaries(names, r, k)
    ensures Claim(r.files[k].path) in names <==> r.files[k].before.Some?
    ensures Prepared(r.files[k].path) in names <==> r.files[k].after.Some?
    ensures AllAuxiliaries(Without(names, r.files[k]), r, k + 1)
  {
  }

  /** Nothing has been cleaned up yet. */
  predicate AllPresent(names: Names, r: Record) {
    && AllAuxiliaries(names, r, 0)
    && ReceiptPrepared in names && (ReceiptClaim in names <==> r.receiptBefore.Some?) && (ReceiptBackup in names <==> r.receiptBefore.Some?)
  }

  lemma SwappedAuxiliaries(names: Names, bytes: Contents, r: Record)
    requires Swapping(names, bytes, r, NewReceipt)
    ensures AllPresent(names, r)
  {
    forall i | 0 <= i < |r.files|
      ensures Claim(r.files[i].path) in names <==> r.files[i].before.Some?
      ensures Prepared(r.files[i].path) in names <==> r.files[i].after.Some?
    {
      assert ClaimedAt(names, r.files[i]) && Holds(bytes, r.files[i].beforeIdentity, r.files[i].before);
      assert Holds(bytes, r.files[i].preparedIdentity, r.files[i].after);
    }
  }

  /** The original is in place, or its claim keeps it and the path is free or carries the intended content. */
  predicate Reachable(names: Names, bytes: Contents, n: Name, claim: Name, identity: Option<Ino>, after: Option<Bytes>) {
    || Bound(names, n, identity)
    || ((n in names ==> ContentAt(names, bytes, n) == after) && (identity.Some? ==> Bound(names, claim, identity)))
  }

  /** No original is lost, neither of a planned file nor of the receipt. */
  predicate NothingLost(names: Names, bytes: Contents, plans: seq<Plan>, receiptIdentity: Option<Ino>) {
    && Reachable(names, bytes, Receipt, ReceiptClaim, receiptIdentity, None)
    && forall i | 0 <= i < |plans| ::
         Reachable(names, bytes, Live(plans[i].path), Claim(plans[i].path), plans[i].beforeIdentity, plans[i].after)
  }

  // ---------------------------------------------------------------- frames

  predicate Mine(paths: set<string>, n: Name) {
    match n
    case Live(p) => p in paths
    case Claim(p) => p in paths
    case Prepared(p) => p in paths
    case _ => true
  }

  /** No name outside the transaction changed. */
  ghost predicate Outside(paths: set<string>, a: Names, b: Names) {
    forall n | !Mine(paths, n) :: IdentityAt(b, n) == IdentityAt(a, n)
  }

  predicate Within(r: Record, paths: set<string>) {
    forall i | 0 <= i < |r.files| :: r.files[i].path in paths
  }

  predicate IsAuxiliary(n: Name) { !n.Live? && !n.Receipt? }

  /** Only auxiliary names were removed. */
  ghost predicate OnlyAuxiliariesRemoved(a: Names, b: Names) {
    && (forall n | n in b :: n in a && b[n] == a[n])
    && (forall n | n in a && !IsAuxiliary(n) :: n in b)
  }

  ghost predicate Grows(a: Contents, b: Contents) {
    forall i | i in a :: i in b && b[i] == a[i]
  }

  // ---------------------------------------------------------------- stages of the commit

  predicate Published(names: Names, r: Record) { Bound(names, Receipt, Some(r.receiptPreparedIdentity)) }

  predicate PreparedInPlace(names: Names, r: Record) {
    && Bound(names, ReceiptPrepared, Some(r.receiptPreparedIdentity)) && Bound(names, ReceiptBackup, r.receiptBackupIdentity)
    && forall i | 0 <= i < |r.files| :: Bound(names, Prepared(r.files[i].path), r.files[i].preparedIdentity)
  }

  predicate ClaimedAt(names: Names, f: JournalFile) {
    f.claimIdentity == f.beforeIdentity && Bound(names, Claim(f.path), f.beforeIdentity)
  }

  predicate UnclaimedAt(names: Names, f: JournalFile) { f.claimIdentity.None? && Claim(f.path) !in names }

  predicate ReceiptUnclaimed(names: Names, r: Record) { r.receiptClaimIdentity.None? && ReceiptClaim !in names }

  predicate Ready(names: Names, bytes: Contents, r: Record) {
    Faithful(r, bytes) && AuxiliariesOwned(names, r) && PreparedInPlace(names, r)
  }

  /** The first `k` files are claimed and their claims recorded. */
  predicate Claiming(names: Names, bytes: Contents, r: Record, k: nat) {
    && Ready(names, bytes, r) && k <= |r.files|
    && AllBefore(names, r) && ReceiptUnclaimed(names, r)
    && (forall i | 0 <= i < k :: ClaimedAt(names, r.files[i]))
    && (forall i | k <= i < |r.files| :: UnclaimedAt(names, r.files[i]))
  }

  /** All files are claimed, the first `k` carry their new content, and the next one may be gone. */
  predicate Replacing(names: Names, bytes: Contents, r: Record, k: nat, gone: bool) {
    && Ready(names, bytes, r) && k <= |r.files| && (gone ==> k < |r.files|)
    && Bound(names, Receipt, r.receiptBeforeIdentity) && ReceiptUnclaimed(names, r)
    && (forall i | 0 <= i < |r.files| :: ClaimedAt(names, r.files[i]))
    && (forall i | 0 <= i < k :: LiveAfter(names, r.files[i]))
    && (forall i | k <= i < |r.files| :: if gone && i == k then Live(r.files[i].path) !in names else LiveBefore(names, r.files[i]))
  }

  datatype Swap = ClaimLinked | ClaimRecorded | ReceiptGone | NewReceipt

  /** All files carry their new content, and the receipt is being exchanged. */
  predicate Swapping(names: Names, bytes: Contents, r: Record, s: Swap) {
    && Ready(names, bytes, r)
    && (forall i | 0 <= i < |r.files| :: ClaimedAt(names, r.files[i]) && LiveAfter(names, r.files[i]))
    && Bound(names, ReceiptClaim, r.receiptBeforeIdentity)
    && (if s.ClaimLinked? then r.receiptClaimIdentity.None? else r.receiptClaimIdentity == r.receiptBeforeIdentity)
    && match s
       case ClaimLinked | ClaimRecorded => Bound(names, Receipt, r.receiptBeforeIdentity)
       case ReceiptGone => Receipt !in names
       case NewReceipt => Published(names, r)
  }

  function WithClaim(r: Record, k: nat): Record
    requires k < |r.files|
  {
    r.(files := r.files[k := r.files[k].(claimIdentity := r.files[k].beforeIdentity)])
  }

  function WithReceiptClaim(r: Record): Record { r.(receiptClaimIdentity := r.receiptBeforeIdentity) }

  /** While the prepared links are in place, a published transaction is recognized; with the old receipt it is not published. */
  lemma ReadyMeans(names: Names, bytes: Contents, base: Record, r: Record)
    requires Ready(names, bytes, r) && SameTransaction(base, r)
    ensures Recognizable(names, base)
    ensures Bound(names, Receipt, r.receiptBeforeIdentity) || Receipt !in names ==> !Published(names, base)
    ensures Published(names, r) <==> Published(names, base)
  {
    forall i | 0 <= i < |base.files| && base.files[i].after.Some? ensures Prepared(base.files[i].path) in names {
      assert SameFile(base.files[i], r.files[i]);
      assert Holds(bytes, r.files[i].preparedIdentity, r.files[i].after);
      assert Bound(names, Prepared(r.files[i].path), r.files[i].preparedIdentity);
    }
  }

  lemma ClaimingIsSafe(names: Names, bytes: Contents, r: Record, k: nat)
    requires Claiming(names, bytes, r, k)
    ensures Safe(names, bytes, r)
  {
  }

  /** The claim link exists but is not recorded yet: the original is still in place. */
  lemma UnrecordedClaimIsSafe(names: Names, bytes: Contents, r: Record, k: nat)
    requires Claiming(names, bytes, r, k) && k < |r.files| && r.files[k].before.Some?
    ensures Safe(names[Claim(r.files[k].path) := r.files[k].beforeIdentity.value], bytes, r)
  {
  }

  lemma ClaimStep(names: Names, bytes: Contents, r: Record, k: nat)
    requires Claiming(names, bytes, r, k) && k < |r.files| && r.files[k].before.Some?
    ensures RecordExtends(r, WithClaim(r, k))
    ensures Claiming(names[Claim(r.files[k].path) := r.files[k].beforeIdentity.value], bytes, WithClaim(r, k), k + 1)
  {
  }

  lemma AbsentNeedsNoClaim(names: Names, bytes: Contents, r: Record, k: nat)
    requires Claiming(names, bytes, r, k) && k < |r.files| && r.files[k].before.None?
    ensures Claiming(names, bytes, r, k + 1)
  {
  }

  lemma ClaimedBeginsReplacing(names: Names, bytes: Contents, r: Record)
    requires Claiming(names, bytes, r, |r.files|)
    ensures Replacing(names, bytes, r, 0, false)
  {
  }

  lemma ReplacingIsSafe(names: Names, bytes: Contents, r: Record, k: nat, gone: bool)
    requires Replacing(names, bytes, r, k, gone)
    ensures Safe(names, bytes, r) && !Published(names, r)
  {
  }

  lemma LiveUnlinked(names: Names, bytes: Contents, r: Record, k: nat)
    requires Replacing(names, bytes, r, k, false) && k < |r.files|
    ensures Replacing(names - {Live(r.files[k].path)}, bytes, r, k, true)
  {
  }

  lemma LivePublished(names: Names, bytes: Contents, r: Record, k: nat)
    requires Replacing(names, bytes, r, k, true)
    ensures r.files[k].preparedIdentity.Some? ==>
              Replacing(names[Live(r.files[k].path) := r.files[k].preparedIdentity.value], bytes, r, k + 1, false)
    ensures r.files[k].preparedIdentity.None? ==> Replacing(names, bytes, r, k + 1, false)
  {
  }

  lemma SwappingIsSafe(names: Names, bytes: Contents, r: Record, s: Swap)
    requires Swapping(names, bytes, r, s)
    ensures Safe(names, bytes, r)
    ensures Published(names, r) <==> s.NewReceipt?
  {
  }

  lemma SwapBegins(names: Names, bytes: Contents, r: Record)
    requires Replacing(names, bytes, r, |r.files|, false)
    ensures r.receiptBefore.Some? ==> Swapping(names[ReceiptClaim := r.receiptBeforeIdentity.value], bytes, r, ClaimLinked)
    ensures r.receiptBefore.None? ==> Swapping(names, bytes, r, ReceiptGone)
  {
  }

  lemma SwapRecorded(names: Names, bytes: Contents, r: Record)
    requires Swapping(names, bytes, r, ClaimLinked)
    ensures RecordExtends(r, WithReceiptClaim(r))
    ensures Swapping(names, bytes, WithReceiptClaim(r), ClaimRecorded)
  {
  }

  lemma SwapStep(names: Names, bytes: Contents, r: Record)
    ensures Swapping(names, bytes, r, ClaimRecorded) ==> Swapping(names - {Receipt}, bytes, r, ReceiptGone)
    ensures Swapping(names, bytes, r, ReceiptGone) ==> Swapping(names[Receipt := r.receiptPreparedIdentity], bytes, r, NewReceipt)
  {
  }

  // ---------------------------------------------------------------- before the journal exists

  /** The names this transaction picked for its auxiliaries are free. */
  ghost predicate Vacant(names: Names) {
    forall n | n in names :: !IsAuxiliary(n)
  }

  ghost function PathsOf(plans: seq<Plan>): set<string> {
    set p | p in plans :: p.path
  }

  /** Prepared links for the first files exist, and nothing public changed. */
  ghost predicate Preparing(names0: Names, names: Names, bytes0: Contents, bytes: Contents, files: seq<JournalFile>, changed: seq<Plan>) {
    && |files| <= |changed| && Grows(bytes0, bytes)
    && (forall i | 0 <= i < |files| ::
          && FileDescribes(files[i], changed[i]) && files[i].claimIdentity.None?
          && Bound(names, Prepared(files[i].path), files[i].preparedIdentity)
          && Holds(bytes, files[i].preparedIdentity, files[i].after))
    && (forall i | |files| <= i < |changed| :: Prepared(changed[i].path) !in names)
    && (forall n | !IsAuxiliary(n) :: IdentityAt(names, n) == IdentityAt(names0, n))
    && (forall n | n in names && IsAuxiliary(n) :: n.Prepared? && n.path in PathsOf(changed))
  }

  lemma PreparingBegins(names: Names, bytes: Contents, changed: seq<Plan>)
    requires Vacant(names)
    ensures Preparing(names, names, bytes, bytes, [], changed)
  {
  }

  lemma PrepareStep(names0: Names, names: Names, bytes0: Contents, bytes: Contents, files: seq<JournalFile>, changed: seq<Plan>, ino: Ino)
    requires Preparing(names0, names, bytes0, bytes, files, changed) && |files| < |changed| && DistinctPaths(changed)
    requires ino !in bytes
    ensures var c := changed[|files|];
            && Prepared(c.path) !in names
            && (c.after.Some? ==>
                  Preparing(names0, names[Prepared(c.path) := ino], bytes0, bytes[ino := c.after.value],
                            files + [JournalFile(c.path, c.before, c.beforeIdentity, c.after, Some(ino), None)], changed))
            && (c.after.None? ==>
                  Preparing(names0, names, bytes0, bytes, files + [JournalFile(c.path, c.before, c.beforeIdentity, c.after, None, None)], changed))
  {
  }

  lemma PreparingKeepsOutside(names0: Names, names: Names, bytes0: Contents, bytes: Contents, files: seq<JournalFile>, changed: seq<Plan>)
    requires Preparing(names0, names, bytes0, bytes, files, changed) && Vacant(names0)
    ensures Outside(PathsOf(changed), names0, names)
  {
  }

  /** A file as the first revision finds it. */
  predicate FreshFile(names: Names, bytes: Contents, f: JournalFile) {
    && Holds(bytes, f.beforeIdentity, f.before) && Holds(bytes, f.preparedIdentity, f.after) && f.before != f.after
    && LiveBefore(names, f) && UnclaimedAt(names, f) && Bound(names, Prepared(f.path), f.preparedIdentity)
  }

  lemma BaseFile(names0: Names, prepared: Names, bytes0: Contents, preparedBytes: Contents, names: Names, bytes: Contents,
                 plans: seq<Plan>, r: Record, i: nat)
    requires ReadSetCurrent(names0, bytes0, plans, r.receiptBefore, r.receiptBeforeIdentity)
    requires Preparing(names0, prepared, bytes0, preparedBytes, r.files, Changed(plans)) && i < |r.files| == |Changed(plans)|
    requires Grows(preparedBytes, bytes)
    requires forall n: Name | !n.ReceiptPrepared? && !n.ReceiptBackup? :: IdentityAt(names, n) == IdentityAt(prepared, n)
    ensures FreshFile(names, bytes, r.files[i])
  {
    var f, c := r.files[i], Changed(plans)[i];
    assert FileDescribes(f, c) && c in Changed(plans);
    assert PlanCurrent(names0, bytes0, c);
    assert IdentityAt(names, Live(f.path)) == IdentityAt(prepared, Live(f.path)) == IdentityAt(names0, Live(f.path));
    assert IdentityAt(names, Claim(f.path)) == IdentityAt(prepared, Claim(f.path));
    assert IdentityAt(names, Prepared(f.path)) == IdentityAt(prepared, Prepared(f.path));
  }

  lemma BaseReceipt(names0: Names, prepared: Names, bytes0: Contents, preparedBytes: Contents, names: Names, bytes: Contents,
                    plans: seq<Plan>, r: Record)
    requires ReadSetCurrent(names0, bytes0, plans, r.receiptBefore, r.receiptBeforeIdentity)
    requires Preparing(names0, prepared, bytes0, preparedBytes, r.files, Changed(plans)) && |r.files| == |Changed(plans)|
    requires Grows(preparedBytes, bytes)
    requires forall n: Name | !n.ReceiptPrepared? && !n.ReceiptBackup? :: IdentityAt(names, n) == IdentityAt(prepared, n)
    ensures Bound(names, Receipt, r.receiptBeforeIdentity) && Holds(bytes, r.receiptBeforeIdentity, r.receiptBefore) && ReceiptClaim !in names
    ensures forall a, b | 0 <= a < b < |r.files| :: r.files[a].path != r.files[b].path
  {
    assert IdentityAt(names, Receipt) == IdentityAt(prepared, Receipt) == IdentityAt(names0, Receipt);
    assert IdentityAt(names, ReceiptClaim) == IdentityAt(prepared, ReceiptClaim);
    forall a, b | 0 <= a < b < |r.files| ensures r.files[a].path != r.files[b].path {
      assert FileDescribes(r.files[a], Changed(plans)[a]) && FileDescribes(r.files[b], Changed(plans)[b]);
    }
  }

  /** The state in which the first revision is published. */
  lemma BaseIsClaiming(names0: Names, prepared: Names, bytes0: Contents, preparedBytes: Contents, names: Names, bytes: Contents,
                       plans: seq<Plan>, r: Record)
    requires ReadSetCurrent(names0, bytes0, plans, r.receiptBefore, r.receiptBeforeIdentity)
    requires Preparing(names0, prepared, bytes0, preparedBytes, r.files, Changed(plans)) && |r.files| == |Changed(plans)|
    requires Grows(preparedBytes, bytes) && r.receiptClaimIdentity.None? && r.receiptBefore != Some(r.receiptAfter)
    requires forall n: Name | !n.ReceiptPrepared? && !n.ReceiptBackup? :: IdentityAt(names, n) == IdentityAt(prepared, n)
    requires Bound(names, ReceiptPrepared, Some(r.receiptPreparedIdentity)) && Holds(bytes, Some(r.receiptPreparedIdentity), Some(r.receiptAfter))
    requires Bound(names, ReceiptBackup, r.receiptBackupIdentity) && Holds(bytes, r.receiptBackupIdentity, r.receiptBefore)
    ensures Claiming(names, bytes, r, 0)
  {
    hide Preparing, ReadSetCurrent;
    forall i | 0 <= i < |r.files| ensures FreshFile(names, bytes, r.files[i]) {
      BaseFile(names0, prepared, bytes0, preparedBytes, names, bytes, plans, r, i);
    }
    BaseReceipt(names0, prepared, bytes0, preparedBytes, names, bytes, plans, r);
  }

  /** What all-before and all-after mean for every plan, changed or not. */
  lemma OutcomeOfPlans(names0: Names, names: Names, bytes0: Contents, bytes: Contents, plans: seq<Plan>, r: Record)
    requires ReadSetCurrent(names0, bytes0, plans, r.receiptBefore, r.receiptBeforeIdentity)
    requires Describes(r, plans, r.receiptBefore, r.receiptBeforeIdentity, r.receiptAfter)
    requires Outside(PathsOf(Changed(plans)), names0, names) && Grows(bytes0, bytes) && Faithful(r, bytes)
    ensures AllBefore(names, r) ==> PlansBefore(names, plans, r.receiptBeforeIdentity)
    ensures AllAfter(names, r) ==> PlansAfter(names, bytes, plans, r.receiptAfter)
  {
    forall i | 0 <= i < |plans|
      ensures AllBefore(names, r) ==> Bound(names, Live(plans[i].path), plans[i].beforeIdentity)
      ensures AllAfter(names, r) ==> ContentAt(names, bytes, Live(plans[i].path)) == plans[i].after
    {
      var p := plans[i];
      assert PlanCurrent(names0, bytes0, p);
      if p in Changed(plans) {
        var k :| 0 <= k < |Changed(plans)| && Changed(plans)[k] == p;
        assert FileDescribes(r.files[k], p);
        assert Holds(bytes, r.files[k].preparedIdentity, r.files[k].after);
        assert AllBefore(names, r) ==> LiveBefore(names, r.files[k]);
        assert AllAfter(names, r) ==> LiveAfter(names, r.files[k]);
      } else {
        assert p.path !in PathsOf(Changed(plans));
        assert !Mine(PathsOf(Changed(plans)), Live(p.path));
        assert IdentityAt(names, Live(p.path)) == IdentityAt(names0, Live(p.path));
      }
    }
  }

  /** A restorable volume has lost nothing. */
  lemma RestorableLosesNothing(names0: Names, names: Names, bytes0: Contents, bytes: Contents, plans: seq<Plan>, r: Record)
    requires ReadSetCurrent(names0, bytes0, plans, r.receiptBefore, r.receiptBeforeIdentity)
    requires Describes(r, plans, r.receiptBefore, r.receiptBeforeIdentity, r.receiptAfter)
    requires Outside(PathsOf(Changed(plans)), names0, names) && Faithful(r, bytes) && Restorable(names, r)
    ensures NothingLost(names, bytes, plans, r.receiptBeforeIdentity)
  {
    forall i | 0 <= i < |plans|
      ensures Reachable(names, bytes, Live(plans[i].path), Claim(plans[i].path), plans[i].beforeIdentity, plans[i].after)
    {
      var p := plans[i];
      assert PlanCurrent(names0, bytes0, p);
      if p in Changed(plans) {
        var k :| 0 <= k < |Changed(plans)| && Changed(plans)[k] == p;
        assert FileDescribes(r.files[k], p) && FileRestorable(names, r.files[k]);
        assert Holds(bytes, r.files[k].preparedIdentity, r.files[k].after) && Holds(bytes, r.files[k].beforeIdentity, r.files[k].before);
      } else {
        assert !Mine(PathsOf(Changed(plans)), Live(p.path));
        assert IdentityAt(names, Live(p.path)) == IdentityAt(names0, Live(p.path));
      }
    }
  }

  // ---------------------------------------------------------------- cleanup

  /** Removing auxiliary names changes neither verdict. */
  lemma RemovalKeepsOutcome(a: Names, b: Names, bytes: Contents, r: Record)
    requires OnlyAuxiliariesRemoved(a, b) && Settled(a, bytes, r)
    ensures Settled(b, bytes, r)
    ensures Published(a, r) <==> Published(b, r)
  {
  }

  /** Only cleanup is left: nothing public changes any more. */
  predicate Settled(names: Names, bytes: Contents, r: Record) {
    Faithful(r, bytes) && AuxiliariesOwned(names, r) && (AllBefore(names, r) || Committed(names, r))
  }

  lemma SettledFacts(names: Names, bytes: Contents, r: Record)
    requires Settled(names, bytes, r)
    ensures Safe(names, bytes, r) && Faithful(r, bytes)
    ensures if Published(names, r) then AllAfter(names, r) else AllBefore(names, r)
  {
  }

  lemma RemovalsAreSafe(names: Names, bytes: Contents, r: Record)
    requires Settled(names, bytes, r)
    ensures forall b | OnlyAuxiliariesRemoved(names, b) :: Settled(b, bytes, r) && Safe(b, bytes, r)
  {
  }

  /** While only cleanup is left, no auxiliary is ambiguous and every one present is seen. */
  lemma SettledObservations(names: Names, bytes: Contents, r: Record, i: nat)
    requires Settled(names, bytes, r) && i < |r.files|
    ensures var f := r.files[i];
            && !ObserveClaim(names, bytes, f).Ambiguous? && !ObservePrepared(names, bytes, f).Ambiguous?
            && (ObserveClaim(names, bytes, f).Observed? <==> Claim(f.path) in names)
            && (ObservePrepared(names, bytes, f).Observed? <==> Prepared(f.path) in names)
  {
  }

  /** Once no auxiliary is left, every older revision of the same transaction describes the outcome as well. */
  lemma OlderHeadIsSafe(names: Names, bytes: Contents, older: Record, r: Record)
    requires Faithful(r, bytes) && NoAuxiliaries(names, r) && RecordExtends(older, r)
    requires AllBefore(names, r) || AllAfter(names, r)
    ensures Faithful(older, bytes) && NoAuxiliaries(names, older)
    ensures AllBefore(names, r) <==> AllBefore(names, older)
    ensures AllAfter(names, r) <==> AllAfter(names, older)
    ensures Published(names, r) <==> Published(names, older)
    ensures Safe(names, bytes, older)
  {
  }

  // ---------------------------------------------------------------- reading the receipt

  datatype Verdict = Unclear | InPlace(claim: Observation) | Claimed(ino: Ino) | After(claim: Observation)

  function ObserveReceiptClaim(names: Names, bytes: Contents, r: Record): Observation {
    if r.receiptBefore.None? then Nothing
    else ObserveAuxiliary(names, bytes, ReceiptClaim, r.receiptBefore, r.receiptClaimIdentity)
  }

  function ObserveReceiptBackup(names: Names, bytes: Contents, r: Record): Observation {
    if r.receiptBefore.None? then Nothing
    else ObserveAuxiliary(names, bytes, ReceiptBackup, r.receiptBefore, r.receiptBackupIdentity)
  }

  function ObserveReceiptPrepared(names: Names, bytes: Contents, r: Record): Observation {
    ObserveAuxiliary(names, bytes, ReceiptPrepared, Some(r.receiptAfter), Some(r.receiptPreparedIdentity))
  }

  /** What recovery concludes from the receipt and its auxiliaries. */
  function Judge(names: Names, bytes: Contents, r: Record): Verdict {
    var content := ContentAt(names, bytes, Receipt);
    var identity := IdentityAt(names, Receipt);
    var matchesBefore := content == r.receiptBefore && identity == r.receiptBeforeIdentity;
    var matchesAfter := content == Some(r.receiptAfter) && identity == Some(r.receiptPreparedIdentity);
    var claim := ObserveReceiptClaim(names, bytes, r);
    if content == r.receiptBefore && !matchesBefore then Unclear
    else if ObserveReceiptPrepared(names, bytes, r).Ambiguous? || ObserveReceiptBackup(names, bytes, r).Ambiguous? || claim.Ambiguous? then Unclear
    else if claim.Observed? && r.receiptClaimIdentity.None? && !(matchesBefore && identity == Some(claim.ino)) then Unclear
    else if content == Some(r.receiptAfter) && !matchesAfter then Unclear
    else if matchesAfter then After(claim)
    else if matchesBefore then InPlace(claim)
    else if content.None? && r.receiptBefore.Some? && claim.Observed? then Claimed(claim.ino)
    else Unclear
  }

  /** In every safe state the receipt is clear, and it is `After` exactly when the prepared receipt was linked into place. */
  lemma JudgeSafe(names: Names, bytes: Contents, r: Record)
    requires Safe(names, bytes, r)
    ensures Published(names, r) <==> Committed(names, r)
    ensures var v := Judge(names, bytes, r);
            && !v.Unclear?
            && (v.After? <==> Published(names, r))
            && (v.InPlace? <==> Bound(names, Receipt, r.receiptBeforeIdentity))
            && (v.Claimed? ==> r.receiptBeforeIdentity == Some(v.ino) && Receipt !in names && Bound(names, ReceiptClaim, r.receiptBeforeIdentity))
            && (!v.After? ==> Restorable(names, r))
  {
  }

  /** A new receipt with the old receipt's bytes could never be recognized as published. */
  lemma EqualReceiptsAreUnclear(names: Names, bytes: Contents, r: Record)
    requires r.receiptBefore == Some(r.receiptAfter) && r.receiptBeforeIdentity != Some(r.receiptPreparedIdentity)
    requires Published(names, r) && Holds(bytes, Some(r.receiptPreparedIdentity), Some(r.receiptAfter))
    ensures Judge(names, bytes, r).Unclear?
  {
  }

  // ---------------------------------------------------------------- restoring a file

  predicate RestoreAllowed(f: JournalFile, claim: Observation, prepared: Observation, state: LiveState) {
    && !claim.Ambiguous? && !prepared.Ambiguous?
    && if f.before.None? then claim.Nothing? && f.claimIdentity.None? && (state.IsAbsent? || state.IsAfter?)
       else (state.IsBefore? || claim.Observed?) && !state.IsThird?
  }

  /** Every recorded file can be restored, and so can the receipt. */
  predicate FilesRestorable(names: Names, r: Record) {
    forall i | 0 <= i < |r.files| :: FileRestorable(names, r.files[i])
  }

  predicate FilesAfterSeen(names: Names, bytes: Contents, r: Record) {
    forall i | 0 <= i < |r.files| ::
      var f := r.files[i];
      var claim, prepared := ObserveClaim(names, bytes, f), ObservePrepared(names, bytes, f);
      var state := Classify(names, bytes, f, claim, prepared);
      !claim.Ambiguous? && !prepared.Ambiguous? && (if f.after.None? then state.IsAbsent? else state.IsAfter?)
  }

  /** The check on the published files passes exactly while all their prepared links exist. */
  lemma CommittedSeen(names: Names, bytes: Contents, r: Record)
    requires Faithful(r, bytes) && AuxiliariesOwned(names, r) && Committed(names, r)
    ensures FilesAfterSeen(names, bytes, r) <==> Recognizable(names, r)
  {
  }

  function PublicState(names: Names, bytes: Contents, f: JournalFile): LiveState {
    Classify(names, bytes, f, ObserveClaim(names, bytes, f), ObservePrepared(names, bytes, f))
  }

  /** The name is there, but not with the recorded content or under the recorded identity. */
  predicate Foreign(names: Names, bytes: Contents, n: Name, content: Bytes, identity: Option<Ino>) {
    n in names && (names[n] !in bytes || bytes[names[n]] != content || (identity.Some? && identity.value != names[n]))
  }

  /** On any volume at all, a foreign file at a planned path or at the name of an auxiliary stops both directions of recovery. */
  lemma ForeignFileStopsRecovery(names: Names, bytes: Contents, r: Record, i: nat)
    requires i < |r.files|
    requires var f := r.files[i];
             || (f.before.Some? && Foreign(names, bytes, Claim(f.path), f.before.value, f.claimIdentity))
             || (f.after.Some? && Foreign(names, bytes, Prepared(f.path), f.after.value, f.preparedIdentity))
             || (Live(f.path) in names
                 && (f.before.Some? ==> Foreign(names, bytes, Live(f.path), f.before.value, None))
                 && (f.after.Some? ==> Foreign(names, bytes, Live(f.path), f.after.value, None)))
    ensures var f := r.files[i];
            !RestoreAllowed(f, ObserveClaim(names, bytes, f), ObservePrepared(names, bytes, f), PublicState(names, bytes, f))
    ensures !FilesAfterSeen(names, bytes, r)
  {
    var f := r.files[i];
    assert PublicState(names, bytes, f) == Classify(names, bytes, f, ObserveClaim(names, bytes, f), ObservePrepared(names, bytes, f));
  }

  /** The same for the receipt: recovery draws no conclusion from a volume with a foreign receipt or receipt auxiliary. */
  lemma ForeignReceiptIsUnclear(names: Names, bytes: Contents, r: Record)
    requires (forall n | n in names :: names[n] in bytes)
    requires || (Receipt in names && Foreign(names, bytes, Receipt, r.receiptAfter, Some(r.receiptPreparedIdentity))
                 && (r.receiptBefore.Some? ==> Foreign(names, bytes, Receipt, r.receiptBefore.value, r.receiptBeforeIdentity)))
             || Foreign(names, bytes, ReceiptPrepared, r.receiptAfter, Some(r.receiptPreparedIdentity))
             || (r.receiptBefore.Some? && Foreign(names, bytes, ReceiptClaim, r.receiptBefore.value, r.receiptClaimIdentity))
             || (r.receiptBefore.Some? && Foreign(names, bytes, ReceiptBackup, r.receiptBefore.value, r.receiptBackupIdentity))
    ensures Judge(names, bytes, r).Unclear?
  {
  }

  /** The preflight of the restore accepts a file exactly when it can be put back. */
  lemma RestoreAllowedIff(names: Names, bytes: Contents, r: Record, i: nat)
    requires Faithful(r, bytes) && AuxiliariesOwned(names, r) && i < |r.files|
    ensures RestoreAllowed(r.files[i], ObserveClaim(names, bytes, r.files[i]), ObservePrepared(names, bytes, r.files[i]), PublicState(names, bytes, r.files[i]))
            <==> FileRestorable(names, r.files[i])
  {
  }

  lemma ObservationsStable(a: Names, b: Names, bytes: Contents, f: JournalFile)
    requires IdentityAt(a, Live(f.path)) == IdentityAt(b, Live(f.path))
    requires IdentityAt(a, Claim(f.path)) == IdentityAt(b, Claim(f.path))
    requires IdentityAt(a, Prepared(f.path)) == IdentityAt(b, Prepared(f.path))
    ensures ObserveClaim(a, bytes, f) == ObserveClaim(b, bytes, f)
    ensures ObservePrepared(a, bytes, f) == ObservePrepared(b, bytes, f)
  {
  }

  /** The restore is under way: files from `i` on are back, the ones before are as they were. */
  ghost predicate Restoring(names0: Names, names: Names, bytes: Contents, r: Record, i: nat) {
    && i <= |r.files|
    && Faithful(r, bytes) && AuxiliariesOwned(names, r) && ReceiptRestorable(names, r) && FilesRestorable(names, r)
    && (forall n: Name | !n.Live? :: IdentityAt(names, n) == IdentityAt(names0, n))
    && (forall k | 0 <= k < i :: IdentityAt(names, Live(r.files[k].path)) == IdentityAt(names0, Live(r.files[k].path)))
    && (forall k | i <= k < |r.files| :: LiveBefore(names, r.files[k]))
  }

  lemma RestoringBegins(names: Names, bytes: Contents, r: Record)
    requires Faithful(r, bytes) && AuxiliariesOwned(names, r) && ReceiptRestorable(names, r) && FilesRestorable(names, r)
    ensures Restoring(names, names, bytes, r, |r.files|)
  {
  }

  lemma RestoringFacts(names0: Names, names: Names, bytes: Contents, r: Record, i: nat)
    requires Restoring(names0, names, bytes, r, i)
    ensures Safe(names, bytes, r)
    ensures IdentityAt(names, ReceiptClaim) == IdentityAt(names0, ReceiptClaim) && IdentityAt(names, Receipt) == IdentityAt(names0, Receipt)
    ensures i > 0 ==>
              var f := r.files[i - 1];
              var state := Classify(names, bytes, f, ObserveClaim(names0, bytes, f), ObservePrepared(names0, bytes, f));
              && (f.before.Some? <==> f.beforeIdentity.Some?)
              && (state.IsBefore? <==> f.before.Some? && LiveBefore(names, f))
              && (state.IsAbsent? <==> Live(f.path) !in names)
              && (state.IsAfter? <==> f.after.Some? && LiveAfter(names, f))
              && !state.IsThird?
              && (!state.IsBefore? && f.before.Some? ==> Bound(names, Claim(f.path), f.beforeIdentity))
  {
    if i > 0 {
      assert FileRestorable(names, r.files[i - 1]);
      ObservationsStable(names0, names, bytes, r.files[i - 1]);
      ClassifyRestorable(names, bytes, r, i - 1);
      assert Holds(bytes, r.files[i - 1].beforeIdentity, r.files[i - 1].before);
      assert Holds(bytes, r.files[i - 1].preparedIdentity, r.files[i - 1].after);
    }
  }

  lemma RestoreSkipped(names0: Names, names: Names, bytes: Contents, r: Record, i: nat)
    requires Restoring(names0, names, bytes, r, i) && i > 0 && LiveBefore(names, r.files[i - 1])
    ensures Restoring(names0, names, bytes, r, i - 1)
  {
  }

  /** Taking the published file away keeps everything restorable. */
  lemma RetractStep(names0: Names, names: Names, bytes: Contents, r: Record, i: nat)
    requires Restoring(names0, names, bytes, r, i) && i > 0
    requires var f := r.files[i - 1]; f.after.Some? && LiveAfter(names, f)
    ensures var f := r.files[i - 1];
            var next := names - {Live(f.path)};
            && Safe(next, bytes, r)
            && (f.before.None? ==> Restoring(names0, next, bytes, r, i - 1))
  {
    var next := names - {Live(r.files[i - 1].path)};
    assert Holds(bytes, r.files[i - 1].beforeIdentity, r.files[i - 1].before);
    assert Holds(bytes, r.files[i - 1].preparedIdentity, r.files[i - 1].after);
    forall k | 0 <= k < |r.files| ensures FileRestorable(next, r.files[k]) {
      assert FileRestorable(names, r.files[k]);
      assert k != i - 1 ==> r.files[k].path != r.files[i - 1].path;
    }
  }

  /** Linking the claim back puts the original in place, whether or not a published file was taken away first. */
  lemma RestoreStep(names0: Names, names: Names, bytes: Contents, r: Record, i: nat)
    requires Restoring(names0, names, bytes, r, i) && i > 0 && r.files[i - 1].beforeIdentity.Some?
    ensures Restoring(names0, names[Live(r.files[i - 1].path) := r.files[i - 1].beforeIdentity.value], bytes, r, i - 1)
  {
  }
}
