/**
 * The journal of one manager transaction: what a revision records, when the
 * reader accepts a chain of revisions, and which volume states a journal can
 * still bring to all-before or all-after.
 *
 * A file identity is an inode number; hashing is injective, so a hash is the
 * content itself and the hash of a revision is that revision.
 */
module Journal {
  import opened Wrappers

  type Ino = nat
  type Bytes = string

  datatype Name =
    | Live(path: string) | Claim(path: string) | Prepared(path: string)
    | Receipt | ReceiptClaim | ReceiptPrepared | ReceiptBackup

  type Names = map<Name, Ino>
  type Contents = map<Ino, Bytes>

  datatype Phase = AllPrepared | Writing | FilesClaimed | LiveWritten | ReceiptLinked | ReceiptClaimed | ReceiptPublished | ReceiptCommitted

  datatype JournalFile = JournalFile(
    path: string,
    before: Option<Bytes>,
    beforeIdentity: Option<Ino>,
    after: Option<Bytes>,
    preparedIdentity: Option<Ino>,
    claimIdentity: Option<Ino>)

  /** What a revision says about the receipt and the files; the claim identities are filled in as claims are verified. */
  datatype Record = Record(
    receiptBefore: Option<Bytes>,
    receiptBeforeIdentity: Option<Ino>,
    receiptAfter: Bytes,
    receiptPreparedIdentity: Ino,
    receiptBackupIdentity: Option<Ino>,
    receiptClaimIdentity: Option<Ino>,
    files: seq<JournalFile>)

  datatype Revision = Revision(
    transaction: nat,
    revision: nat,
    previous: Option<Revision>,
    phase: Phase,
    record: Record)

  // ---------------------------------------------------------------- chains

  predicate KeepsClaim(a: Option<Ino>, b: Option<Ino>) { a.Some? ==> b == a }

  predicate SameFile(a: JournalFile, b: JournalFile) {
    a.(claimIdentity := None) == b.(claimIdentity := None)
  }

  /** Everything the transaction decided at the start is the same. */
  predicate SameTransaction(a: Record, b: Record) {
    && a.(files := [], receiptClaimIdentity := None) == b.(files := [], receiptClaimIdentity := None)
    && |a.files| == |b.files|
    && forall i | 0 <= i < |a.files| :: SameFile(a.files[i], b.files[i])
  }

  /** What the reader demands of a record given the one before it. */
  predicate RecordExtends(a: Record, b: Record) {
    && SameTransaction(a, b)
    && KeepsClaim(a.receiptClaimIdentity, b.receiptClaimIdentity)
    && forall i | 0 <= i < |a.files| :: KeepsClaim(a.files[i].claimIdentity, b.files[i].claimIdentity)
  }

  predicate Extends(a: Revision, b: Revision) {
    && b.transaction == a.transaction
    && b.revision == a.revision + 1
    && b.previous == Some(a)
    && RecordExtends(a.record, b.record)
  }

  predicate ValidChain(chain: seq<Revision>) {
    && chain != []
    && chain[0].revision == 0 && chain[0].previous.None?
    && forall k | 0 < k < |chain| :: Extends(chain[k - 1], chain[k])
  }

  function Head(chain: seq<Revision>): Revision
    requires chain != []
  {
    chain[|chain| - 1]
  }

  /** Reads the revisions in order and stops at the first one that does not extend its predecessor. */
  method ReadChain(chain: seq<Revision>) returns (journal: Option<Revision>)
    ensures journal.Some? <==> ValidChain(chain)
    ensures journal.Some? ==> journal.value == Head(chain)
  {
    if chain == [] || chain[0].revision != 0 || chain[0].previous.Some? {
      return None;
    }
    var current := chain[0];
    for k := 1 to |chain|
      invariant current == chain[k - 1]
      invariant forall i | 0 < i < k :: Extends(chain[i - 1], chain[i])
    {
      if !Extends(current, chain[k]) {
        return None;
      }
      current := chain[k];
    }
    journal := Some(current);
  }

  /**
   * Along an accepted chain everything a transaction decided at the start is
   * fixed, and an identity that was recorded once is never changed or dropped.
   */
  lemma {:induction false} ChainKeepsRecords(chain: seq<Revision>, a: nat, b: nat)
    requires ValidChain(chain) && a <= b < |chain|
    ensures chain[b].revision == b && chain[b].transaction == chain[a].transaction
    ensures RecordExtends(chain[a].record, chain[b].record)
    decreases b
  {
    if b > 0 {
      assert Extends(chain[b - 1], chain[b]);
      ChainKeepsRecords(chain, if a < b then a else a - 1, b - 1);
    }
  }

  /** The same, written out: the receipt and every file keep what was decided, and an identity once recorded stays. */
  lemma ChainKeepsDecisions(chain: seq<Revision>, a: nat, b: nat)
    requires ValidChain(chain) && a <= b < |chain|
    ensures var r, s := chain[a].record, chain[b].record;
            && s.receiptBefore == r.receiptBefore && s.receiptAfter == r.receiptAfter
            && s.receiptBeforeIdentity == r.receiptBeforeIdentity && s.receiptPreparedIdentity == r.receiptPreparedIdentity
            && s.receiptBackupIdentity == r.receiptBackupIdentity
            && (r.receiptClaimIdentity.Some? ==> s.receiptClaimIdentity == r.receiptClaimIdentity)
            && |s.files| == |r.files|
            && forall i | 0 <= i < |r.files| ::
                 && s.files[i].path == r.files[i].path && s.files[i].before == r.files[i].before && s.files[i].after == r.files[i].after
                 && s.files[i].beforeIdentity == r.files[i].beforeIdentity && s.files[i].preparedIdentity == r.files[i].preparedIdentity
                 && (r.files[i].claimIdentity.Some? ==> s.files[i].claimIdentity == r.files[i].claimIdentity)
  {
    ChainKeepsRecords(chain, a, b);
    var r, s := chain[a].record, chain[b].record;
    assert r.(files := [], receiptClaimIdentity := None) == s.(files := [], receiptClaimIdentity := None);
    forall i | 0 <= i < |r.files| ensures r.files[i].(claimIdentity := None) == s.files[i].(claimIdentity := None) {
      assert SameFile(r.files[i], s.files[i]);
    }
  }

  /** Two accepted chains that end in the same revision are the same chain. */
  lemma {:induction false} ChainDeterminedByHead(a: seq<Revision>, b: seq<Revision>)
    requires ValidChain(a) && ValidChain(b) && Head(a) == Head(b)
    ensures a == b
    decreases |a|
  {
    ChainKeepsRecords(a, 0, |a| - 1);
    ChainKeepsRecords(b, 0, |b| - 1);
    if |a| > 1 {
      assert Extends(a[|a| - 2], a[|a| - 1]) && Extends(b[|b| - 2], b[|b| - 1]);
      ChainDeterminedByHead(a[..|a| - 1], b[..|b| - 1]);
      assert a == a[..|a| - 1] + [Head(a)] && b == b[..|b| - 1] + [Head(b)];
    }
  }

  // ---------------------------------------------------------------- states of the volume

  /** `n` names exactly `o`, or nothing when `o` is absent. */
  predicate Bound(names: Names, n: Name, o: Option<Ino>) {
    if o.Some? then n in names && names[n] == o.value else n !in names
  }

  predicate FreeOr(names: Names, n: Name, o: Option<Ino>) {
    n in names ==> o == Some(names[n])
  }

  predicate Holds(bytes: Contents, o: Option<Ino>, content: Option<Bytes>) {
    && (o.Some? <==> content.Some?)
    && (o.Some? ==> o.value in bytes && bytes[o.value] == content.value)
  }

  /** The recorded identities carry the recorded contents, and every file really changes. */
  predicate Faithful(r: Record, bytes: Contents) {
    && (forall i | 0 <= i < |r.files| ::
          && Holds(bytes, r.files[i].beforeIdentity, r.files[i].before)
          && Holds(bytes, r.files[i].preparedIdentity, r.files[i].after)
          && r.files[i].before != r.files[i].after
          && (r.files[i].claimIdentity.Some? ==> r.files[i].claimIdentity == r.files[i].beforeIdentity))
    && (forall a, b | 0 <= a < b < |r.files| :: r.files[a].path != r.files[b].path)
    && Holds(bytes, r.receiptBeforeIdentity, r.receiptBefore)
    && Holds(bytes, r.receiptBackupIdentity, r.receiptBefore)
    && Holds(bytes, Some(r.receiptPreparedIdentity), Some(r.receiptAfter))
    && r.receiptBefore != Some(r.receiptAfter)
    && (r.receiptClaimIdentity.Some? ==> r.receiptClaimIdentity == r.receiptBeforeIdentity)
  }

  /** Every auxiliary name still present names the transaction's own inode. */
  predicate AuxiliariesOwned(names: Names, r: Record) {
    && (forall i | 0 <= i < |r.files| ::
          && FreeOr(names, Claim(r.files[i].path), r.files[i].beforeIdentity)
          && FreeOr(names, Prepared(r.files[i].path), r.files[i].preparedIdentity))
    && FreeOr(names, ReceiptClaim, r.receiptBeforeIdentity)
    && FreeOr(names, ReceiptPrepared, Some(r.receiptPreparedIdentity))
    && FreeOr(names, ReceiptBackup, r.receiptBackupIdentity)
  }

  predicate LiveBefore(names: Names, f: JournalFile) { Bound(names, Live(f.path), f.beforeIdentity) }

  predicate LiveAfter(names: Names, f: JournalFile) { Bound(names, Live(f.path), f.preparedIdentity) }

  /** Either the original is in place, or it can be put back from what is there. */
  predicate FileRestorable(names: Names, f: JournalFile) {
    || LiveBefore(names, f)
    || (&& (f.before.Some? ==> f.claimIdentity.Some? && Bound(names, Claim(f.path), f.beforeIdentity))
        && (Live(f.path) in names ==> LiveAfter(names, f) && Bound(names, Prepared(f.path), f.preparedIdentity)))
  }

  predicate ReceiptRestorable(names: Names, r: Record) {
    || Bound(names, Receipt, r.receiptBeforeIdentity)
    || (r.receiptBefore.Some? && r.receiptClaimIdentity.Some? && Bound(names, ReceiptClaim, r.receiptBeforeIdentity) && Receipt !in names)
  }

  predicate AllBefore(names: Names, r: Record) {
    && Bound(names, Receipt, r.receiptBeforeIdentity)
    && forall i | 0 <= i < |r.files| :: LiveBefore(names, r.files[i])
  }

  predicate AllAfter(names: Names, r: Record) {
    && Bound(names, Receipt, Some(r.receiptPreparedIdentity))
    && forall i | 0 <= i < |r.files| :: LiveAfter(names, r.files[i])
  }

  predicate Restorable(names: Names, r: Record) {
    && ReceiptRestorable(names, r)
    && forall i | 0 <= i < |r.files| :: FileRestorable(names, r.files[i])
  }

  /** The receipt is published: every file is too, and claims that remain are recorded ones. */
  predicate Committed(names: Names, r: Record) {
    && AllAfter(names, r)
    && (forall i | 0 <= i < |r.files| :: Claim(r.files[i].path) in names ==> r.files[i].claimIdentity.Some?)
    && (ReceiptClaim in names ==> r.receiptClaimIdentity.Some?)
  }

  /** Every state a transaction or its recovery can leave behind when it stops at a step boundary. */
  predicate Safe(names: Names, bytes: Contents, r: Record) {
    Faithful(r, bytes) && AuxiliariesOwned(names, r) && (Restorable(names, r) || Committed(names, r))
  }

  /** Recovery can still tell the published files from foreign ones. */
  predicate Recognizable(names: Names, r: Record) {
    forall i | 0 <= i < |r.files| && r.files[i].after.Some? :: Prepared(r.files[i].path) in names
  }

  predicate NoAuxiliaries(names: Names, r: Record) {
    && (forall i | 0 <= i < |r.files| :: Claim(r.files[i].path) !in names && Prepared(r.files[i].path) !in names)
    && ReceiptClaim !in names && ReceiptPrepared !in names && ReceiptBackup !in names
  }

  /** The two verdicts exclude each other. */
  lemma VerdictIsUnique(names: Names, bytes: Contents, r: Record)
    requires Faithful(r, bytes)
    ensures !(ReceiptRestorable(names, r) && Bound(names, Receipt, Some(r.receiptPreparedIdentity)))
  {
  }

  // ---------------------------------------------------------------- classification

  datatype LiveState = IsBefore | IsAfter | IsAbsent | IsThird

  function ContentAt(names: Names, bytes: Contents, n: Name): Option<Bytes> {
    if n in names && names[n] in bytes then Some(bytes[names[n]]) else None
  }

  function IdentityAt(names: Names, n: Name): Option<Ino> {
    if n in names then Some(names[n]) else None
  }

  /** The inode an auxiliary names, or that it is not the transaction's own. */
  datatype Observation = Nothing | Observed(ino: Ino) | Ambiguous

  function ObserveAuxiliary(names: Names, bytes: Contents, n: Name, content: Option<Bytes>, identity: Option<Ino>): Observation {
    if n !in names then Nothing
    else if content.None? || ContentAt(names, bytes, n) != content then Ambiguous
    else if identity.Some? && identity.value != names[n] then Ambiguous
    else Observed(names[n])
  }

  function ObserveClaim(names: Names, bytes: Contents, f: JournalFile): Observation {
    if f.before.None? then Nothing
    else
      var seen := ObserveAuxiliary(names, bytes, Claim(f.path), f.before, f.claimIdentity);
      if !seen.Observed? || f.claimIdentity.Some? then seen
      else if ContentAt(names, bytes, Live(f.path)) == f.before && IdentityAt(names, Live(f.path)) == Some(seen.ino) then seen
      else Ambiguous
  }

  function ObservePrepared(names: Names, bytes: Contents, f: JournalFile): Observation {
    if f.after.None? then Nothing
    else ObserveAuxiliary(names, bytes, Prepared(f.path), f.after, f.preparedIdentity)
  }

  function Classify(names: Names, bytes: Contents, f: JournalFile, claim: Observation, prepared: Observation): LiveState {
    if Live(f.path) !in names then IsAbsent
    else
      var content := ContentAt(names, bytes, Live(f.path));
      var identity := names[Live(f.path)];
      var beforeIdentity := if claim.Observed? then Some(claim.ino) else f.beforeIdentity;
      if f.before.Some? && content == f.before && beforeIdentity == Some(identity) then IsBefore
      else if f.after.Some? && content == f.after && prepared == Observed(identity) then IsAfter
      else IsThird
  }

  /** In a restorable state the classification names the true state, and nothing is ambiguous. */
  lemma ClassifyRestorable(names: Names, bytes: Contents, r: Record, i: nat)
    requires Faithful(r, bytes) && AuxiliariesOwned(names, r) && i < |r.files| && FileRestorable(names, r.files[i])
    ensures !ObserveClaim(names, bytes, r.files[i]).Ambiguous? && !ObservePrepared(names, bytes, r.files[i]).Ambiguous?
    ensures var f := r.files[i];
            var state := Classify(names, bytes, f, ObserveClaim(names, bytes, f), ObservePrepared(names, bytes, f));
            && (state.IsBefore? <==> f.before.Some? && LiveBefore(names, f))
            && (state.IsAbsent? <==> Live(f.path) !in names)
            && (state.IsAfter? <==> f.after.Some? && LiveAfter(names, f))
            && (!state.IsBefore? && f.before.Some? ==> ObserveClaim(names, bytes, f) == Observed(f.beforeIdentity.value))
            && (state.IsAfter? ==> ObservePrepared(names, bytes, f) == Observed(f.preparedIdentity.value))
  {
  }

}
