/**
 * The manager's transaction over a volume: commit, crash at any link, unlink,
 * file creation or journal publication, and recovery, any number of times.
 */
module Manager {
  import opened Wrappers
  import opened Journal
  import opened ManagerSteps

  datatype Progress = Done | Crashed | Refused {
    predicate IsFailure() { !Done? }

    function PropagateFailure(): Progress
      requires IsFailure()
    {
      this
    }
  }

  /** What is left of a commit one of whose steps threw: nothing was begun, all is back, the journal was kept, or the exchange was over. */
  datatype Aftermath = NotBegun | RolledBack | Kept | Exchanged

  /** What a stretch of `cost` steps does to the number of steps the process has left. */
  predicate Spent(before: Option<nat>, after: Option<nat>, p: Progress, cost: nat) {
    match before
    case None => after.None? && !p.Crashed?
    case Some(steps) => (p.Done? ==> cost <= steps && after == Some(steps - cost)) && (p.Crashed? ==> steps < cost)
  }

  /** Two stretches after each other; a death in the second is a death in the whole. */
  lemma SpentMore(before: Option<nat>, between: Option<nat>, after: Option<nat>, p: Progress, first: nat, second: nat, total: nat)
    requires Spent(before, between, Done, first) && Spent(between, after, p, second) && first + second <= total
    ensures Spent(before, after, p, first + second)
    ensures p.Crashed? ==> Spent(before, after, p, total)
    ensures before.None? ==> after.None? && !p.Crashed?
  {
  }

  lemma SpentNothing(steps: Option<nat>)
    ensures Spent(steps, steps, Done, 0)
  {
  }

  lemma KeepsOutside(paths: set<string>, a: Names, b: Names, c: Names)
    requires a == b || Outside(paths, a, b)
    requires b == c || Outside(paths, b, c)
    ensures Outside(paths, a, c)
  {
  }

  lemma PathWithin(r: Record, paths: set<string>, i: nat)
    requires Within(r, paths) && i < |r.files|
    ensures r.files[i].path in paths
  {
  }

  class Volume {
    var names: Names
    var bytes: Contents
    var nextIno: Ino
    /** The published journal revisions; `torn` while the newest has only one of its two names. */
    var chain: seq<Revision>
    var torn: bool
    /** How many steps are left before the process dies, or nothing when it does not. */
    var stepsLeft: Option<nat>

    predicate Numbered()
      reads this`bytes, this`nextIno
    {
      forall i | i in bytes :: i < nextIno
    }

    constructor (names: Names, bytes: Contents, nextIno: Ino)
      requires forall i | i in bytes :: i < nextIno
      ensures this.names == names && this.bytes == bytes && chain == [] && !torn && stepsLeft.None? && Numbered()
    {
      this.names, this.bytes, this.nextIno := names, bytes, nextIno;
      chain, torn, stepsLeft := [], false, None;
    }

    // -------------------------------------------------------------- steps

    method Step() returns (p: Progress)
      modifies this`stepsLeft
      ensures !p.Refused? && Spent(old(stepsLeft), stepsLeft, p, 1)
    {
      if stepsLeft.Some? {
        if stepsLeft.value == 0 {
          return Crashed;
        }
        stepsLeft := Some(stepsLeft.value - 1);
      }
      return Done;
    }

    method Link(source: Name, target: Name) returns (p: Progress)
      modifies this`names, this`stepsLeft
      ensures p.Refused? ==> source !in names || target in names
      ensures p.Done? ==> source in old(names) && target !in old(names) && names == old(names)[target := old(names)[source]]
      ensures !p.Done? ==> names == old(names)
      ensures Spent(old(stepsLeft), stepsLeft, p, 1)
    {
      p := Step();
      if p.IsFailure() {
        return;
      }
      if source !in names || target in names {
        return Refused;
      }
      names := names[target := names[source]];
      return Done;
    }

    method Unlink(target: Name) returns (p: Progress)
      modifies this`names, this`stepsLeft
      ensures p.Refused? ==> target !in names
      ensures p.Done? ==> target in old(names) && names == old(names) - {target}
      ensures !p.Done? ==> names == old(names)
      ensures Spent(old(stepsLeft), stepsLeft, p, 1)
    {
      p := Step();
      if p.IsFailure() {
        return;
      }
      if target !in names {
        return Refused;
      }
      names := names - {target};
      return Done;
    }

    method Create(target: Name, content: Bytes) returns (p: Progress, ino: Ino)
      requires Numbered()
      modifies this`names, this`bytes, this`nextIno, this`stepsLeft
      ensures Numbered()
      ensures p.Refused? ==> target in names
      ensures ino == old(nextIno)
      ensures p.Done? ==> target !in old(names) && ino !in old(bytes)
      ensures p.Done? ==> names == old(names)[target := ino] && bytes == old(bytes)[ino := content]
      ensures !p.Done? ==> names == old(names) && bytes == old(bytes)
      ensures Spent(old(stepsLeft), stepsLeft, p, 1)
    {
      ino := nextIno;
      :- Step();
      if target in names {
        return Refused, ino;
      }
      names, bytes, nextIno := names[target := ino], bytes[ino := content], nextIno + 1;
      return Done, ino;
    }

    predicate Appended(a: seq<Revision>, b: seq<Revision>, transaction: nat, record: Record) {
      ValidChain(b) && b[..|b| - 1] == a && Head(b).record == record && Head(b).transaction == transaction
    }

    lemma OneMore(revisions: seq<Revision>, transaction: nat, phase: Phase, record: Record)
      requires revisions != [] ==>
                 ValidChain(revisions) && Head(revisions).transaction == transaction && RecordExtends(Head(revisions).record, record)
      ensures var next := Revision(transaction, |revisions|, if revisions == [] then None else Some(Head(revisions)), phase, record);
              Appended(revisions, revisions + [next], transaction, record)
    {
      if revisions != [] {
        ChainKeepsRecords(revisions, 0, |revisions| - 1);
      }
      var next := Revision(transaction, |revisions|, if revisions == [] then None else Some(Head(revisions)), phase, record);
      assert (revisions + [next])[..|revisions|] == revisions;
    }

    /** Appends a revision; a crash between its two names leaves the chain torn. */
    method Publish(transaction: nat, phase: Phase, record: Record) returns (p: Progress)
      requires !torn
      requires chain != [] ==> ValidChain(chain) && Head(chain).transaction == transaction && RecordExtends(Head(chain).record, record)
      modifies this`chain, this`torn, this`stepsLeft
      ensures !p.Refused?
      ensures p.Done? ==> !torn
      ensures p.Done? ==> chain != old(chain)
      ensures chain != old(chain) ==> Appended(old(chain), chain, transaction, record)
      ensures p.Crashed? ==> (torn <==> chain != old(chain))
      ensures Spent(old(stepsLeft), stepsLeft, p, 2)
      ensures p.Crashed? ==> (torn <==> old(stepsLeft) == Some(1))
      ensures p.Done? ==> |chain| == |old(chain)| + 1
    {
      hide Appended, ValidChain, RecordExtends;
      var next := Revision(transaction, |chain|, if chain == [] then None else Some(Head(chain)), phase, record);
      OneMore(chain, transaction, phase, record);
      p := Step();
      if p.IsFailure() {
        return;
      }
      chain, torn := chain + [next], true;
      :- Step();
      torn := false;
      return Done;
    }

    /** Removes the newest revision, one name after the other. */
    method DropRevision() returns (p: Progress)
      requires chain != [] && !torn
      modifies this`chain, this`torn, this`stepsLeft
      ensures !p.Refused?
      ensures p.Done? ==> !torn && chain == old(chain)[..|old(chain)| - 1]
      ensures p.Crashed? ==> chain == old(chain)
      ensures p.Crashed? ==> (torn <==> old(stepsLeft) == Some(1))
      ensures Spent(old(stepsLeft), stepsLeft, p, 2)
    {
      p := Step();
      if p.IsFailure() {
        return;
      }
      torn := true;
      :- Step();
      chain, torn := chain[..|chain| - 1], false;
      return Done;
    }

    // -------------------------------------------------------------- what a crash leaves behind

    /** The journal starts with `base`, and its newest revision describes a safe volume. */
    predicate Recoverable(base: Record)
      reads this`names, this`bytes, this`chain
    {
      && ValidChain(chain) && chain[0].record == base
      && Safe(names, bytes, Head(chain).record)
    }

    /** The journal is complete and its newest revision carries `r`. */
    predicate At(base: Record, r: Record)
      reads this`chain, this`torn
    {
      !torn && ValidChain(chain) && chain[0].record == base && Head(chain).record == r && RecordExtends(base, r)
    }

    /** The journal is complete, and the volume is one its rollback can start from: the receipt has not been touched. */
    predicate Holding(base: Record, r: Record)
      reads this`names, this`bytes, this`chain, this`torn
    {
      At(base, r) && Safe(names, bytes, r) && Bound(names, Receipt, r.receiptBeforeIdentity)
    }

    /** Nothing is published, and if it were it would be recognized. */
    predicate Intact(base: Record)
      reads this`names
    {
      Recognizable(names, base) && !Published(names, base)
    }

    lemma AtFiles(base: Record, r: Record)
      requires At(base, r)
      ensures |base.files| == |r.files|
    {
    }

    /** Publishing a record that describes the volume as well as the current one does. */
    method Advance(phase: Phase, ghost base: Record, r: Record, next: Record) returns (p: Progress)
      requires At(base, r) && RecordExtends(r, next)
      requires Safe(names, bytes, r) && Safe(names, bytes, next)
      modifies this`chain, this`torn, this`stepsLeft
      ensures !p.Refused?
      ensures p.Done? ==> At(base, next)
      ensures p.Crashed? ==> Recoverable(base)
      ensures p.Crashed? ==> (torn <==> old(stepsLeft) == Some(1))
      ensures p.Done? ==> |chain| == |old(chain)| + 1
      ensures Spent(old(stepsLeft), stepsLeft, p, 2)
    {
      hide Safe;
      p := Publish(Head(chain).transaction, phase, next);
      assert RecordExtends(base, next);
    }

    // -------------------------------------------------------------- commit

    /** Links the claim of one file, if it existed, and records it. */
    method ClaimFile(ghost base: Record, r0: Record, i: nat, ghost paths: set<string>) returns (p: Progress, r: Record, publishing: bool)
      requires At(base, r0) && Claiming(names, bytes, r0, i) && Within(base, paths) && i < |r0.files|
      modifies this`names, this`chain, this`torn, this`stepsLeft
      ensures !p.Refused? && |r.files| == |r0.files|
      ensures p.Done? ==> At(base, r) && Claiming(names, bytes, r, i + 1)
      ensures p.Done? ==> |chain| == |old(chain)| + if base.files[i].before.Some? then 1 else 0
      ensures p.Crashed? ==> Recoverable(base) && Intact(base) && old(stepsLeft).Some?
      ensures p.Crashed? ==> (torn <==> KindInClaims(old(stepsLeft).value).SecondName?) && (publishing <==> !KindInClaims(old(stepsLeft).value).Move?)
      ensures p.Crashed? && !publishing ==> Holding(base, r)
      ensures Outside(paths, old(names), names)
      ensures Spent(old(stepsLeft), stepsLeft, p, if base.files[i].before.Some? then 3 else 0)
    {
      hide Claiming, Safe, Ready, Recognizable, Published, AllBefore;
      r, publishing := r0, false;
      var f := r.files[i];
      assert f.path in paths && f.before == base.files[i].before by {
        assert SameFile(base.files[i], r.files[i]);
      }
      ClaimingIsSafe(names, bytes, r, i);
      ClaimFacts(names, bytes, r, i);
      ClaimingMeans(names, bytes, base, r, i);
      if f.before.Some? {
        UnrecordedClaimIsSafe(names, bytes, r, i);
        ClaimStep(names, bytes, r, i);
        p := Link(Live(f.path), Claim(f.path));
        if p.IsFailure() {
          return;
        }
        ClaimingIsSafe(names, bytes, WithClaim(r, i), i + 1);
        ClaimingMeans(names, bytes, base, WithClaim(r, i), i + 1);
        publishing := true;
        p := Advance(Writing, base, r, WithClaim(r, i));
        if p.IsFailure() {
          return;
        }
        r, publishing := WithClaim(r, i), false;
      } else {
        AbsentNeedsNoClaim(names, bytes, r, i);
      }
      p := Done;
    }

    /** Links and records a claim for every file that existed. */
    method ClaimFiles(ghost base: Record, r0: Record, ghost paths: set<string>) returns (p: Progress, r: Record, publishing: bool)
      requires At(base, r0) && Claiming(names, bytes, r0, 0) && Within(base, paths)
      modifies this`names, this`chain, this`torn, this`stepsLeft
      ensures !p.Refused?
      ensures p.Done? ==> At(base, r) && Claiming(names, bytes, r, |r.files|)
      ensures p.Done? ==> |chain| == |old(chain)| + Originals(PlansOf(base))
      ensures p.Crashed? ==> Recoverable(base) && Intact(base) && old(stepsLeft).Some?
      ensures p.Crashed? ==> (torn <==> KindInClaims(old(stepsLeft).value).SecondName?) && (publishing <==> !KindInClaims(old(stepsLeft).value).Move?)
      ensures p.Crashed? && !publishing ==> Holding(base, r)
      ensures Outside(paths, old(names), names)
      ensures Spent(old(stepsLeft), stepsLeft, p, 3 * Originals(PlansOf(base)))
    {
      hide At, Claiming, Safe, Recoverable, Intact, Holding, KindInClaims, Within, Outside, Spent, OriginalsTo, NewsTo, PlansOf;
      AtFiles(base, r0);
      r, publishing := r0, false;
      SpentNothing(stepsLeft);
      CountStart(PlansOf(base));
      KeepsOutside(paths, names, names, names);
      for i := 0 to |r.files|
        invariant |chain| == |old(chain)| + OriginalsTo(PlansOf(base), i)
        invariant At(base, r) && |r.files| == |r0.files| && Claiming(names, bytes, r, i)
        invariant Outside(paths, old(names), names)
        invariant Spent(old(stepsLeft), stepsLeft, Done, 3 * OriginalsTo(PlansOf(base), i))
      {
        CountStep(PlansOf(base), i);
        ghost var before, between := names, stepsLeft;
        p, r, publishing := ClaimFile(base, r, i, paths);
        KeepsOutside(paths, old(names), before, names);
        SpentMore(old(stepsLeft), between, stepsLeft, p, 3 * OriginalsTo(PlansOf(base), i), if base.files[i].before.Some? then 3 else 0,
                  3 * Originals(PlansOf(base)));
        if p.IsFailure() {
          KindLater(old(stepsLeft), between, OriginalsTo(PlansOf(base), i));
          return;
        }
      }
      p := Done;
    }

    lemma ClaimingMeans(names: Names, bytes: Contents, base: Record, r: Record, k: nat)
      requires Claiming(names, bytes, r, k) && SameTransaction(base, r)
      ensures Safe(names, bytes, r) && Bound(names, Receipt, r.receiptBeforeIdentity)
      ensures Recognizable(names, base) && !Published(names, base)
    {
      ReadyMeans(names, bytes, base, r);
    }

    /** Claims take three steps each, so a later one has its steps at the same places. */
    lemma KindLater(before: Option<nat>, between: Option<nat>, files: nat)
      requires Spent(before, between, Done, 3 * files) && between.Some?
      ensures before.Some? && KindInClaims(before.value) == KindInClaims(between.value)
    {
      assert (between.value + 3 * files) % 3 == between.value % 3;
    }

    /** What the claim loop needs to know about its next file. */
    lemma ClaimFacts(names: Names, bytes: Contents, r: Record, i: nat)
      requires Claiming(names, bytes, r, i) && i < |r.files|
      ensures var f := r.files[i];
              && (f.before.Some? <==> f.beforeIdentity.Some?)
              && Claim(f.path) !in names
              && (f.before.Some? ==> Live(f.path) in names && names[Live(f.path)] == f.beforeIdentity.value)
    {
    }

    lemma ReplaceFacts(names: Names, bytes: Contents, r: Record, i: nat, gone: bool)
      requires Replacing(names, bytes, r, i, gone) && i < |r.files|
      ensures var f := r.files[i];
              && (f.before.Some? <==> f.beforeIdentity.Some?) && (f.after.Some? <==> f.preparedIdentity.Some?)
              && (if gone then Live(f.path) !in names else Bound(names, Live(f.path), f.beforeIdentity))
              && Bound(names, Prepared(f.path), f.preparedIdentity)
              && Bound(names, Claim(f.path), f.beforeIdentity)
    {
    }

    lemma ReplacingMeans(names: Names, bytes: Contents, base: Record, r: Record, k: nat, gone: bool)
      requires Replacing(names, bytes, r, k, gone) && SameTransaction(base, r)
      ensures Safe(names, bytes, r) && Bound(names, Receipt, r.receiptBeforeIdentity)
      ensures Recognizable(names, base) && !Published(names, base)
    {
      ReplacingIsSafe(names, bytes, r, k, gone);
      ReadyMeans(names, bytes, base, r);
    }

    lemma SwappingMeans(names: Names, bytes: Contents, base: Record, r: Record, s: Swap)
      requires Swapping(names, bytes, r, s) && SameTransaction(base, r)
      ensures Safe(names, bytes, r) && Recognizable(names, base)
      ensures (Published(names, base) <==> s.NewReceipt?) && (Published(names, r) <==> s.NewReceipt?)
    {
      SwappingIsSafe(names, bytes, r, s);
      ReadyMeans(names, bytes, base, r);
    }

    /** Exchanges one claimed file for its prepared content. */
    method ReplaceFile(ghost base: Record, r: Record, i: nat, ghost paths: set<string>) returns (p: Progress)
      requires At(base, r) && Replacing(names, bytes, r, i, false) && Within(base, paths) && i < |base.files|
      modifies this`names, this`stepsLeft
      ensures !p.Refused?
      ensures p.Done? ==> Replacing(names, bytes, r, i + 1, false)
      ensures p.Crashed? ==> Recoverable(base) && Intact(base) && Holding(base, r)
      ensures Outside(paths, old(names), names)
      ensures Spent(old(stepsLeft), stepsLeft, p, (if base.files[i].before.Some? then 1 else 0) + if base.files[i].after.Some? then 1 else 0)
    {
      hide Replacing, Safe, Recognizable, Published;
      var f := r.files[i];
      assert f.path in paths && f.before == base.files[i].before && f.after == base.files[i].after by {
        assert SameFile(base.files[i], r.files[i]);
      }
      ReplacingMeans(names, bytes, base, r, i, false);
      ReplaceFacts(names, bytes, r, i, false);
      LiveUnlinked(names, bytes, r, i);
      if f.before.Some? {
        :- Unlink(Live(f.path));
      } else {
        assert names - {Live(f.path)} == names;
      }
      ReplacingMeans(names, bytes, base, r, i, true);
      ReplaceFacts(names, bytes, r, i, true);
      LivePublished(names, bytes, r, i);
      if f.after.Some? {
        :- Link(Prepared(f.path), Live(f.path));
      }
      p := Done;
    }

    /** Exchanges every claimed file for its prepared content. */
    method ReplaceFiles(ghost base: Record, r: Record, ghost paths: set<string>) returns (p: Progress)
      requires At(base, r) && Replacing(names, bytes, r, 0, false) && Within(base, paths)
      modifies this`names, this`stepsLeft
      ensures !p.Refused?
      ensures p.Done? ==> Replacing(names, bytes, r, |r.files|, false)
      ensures p.Crashed? ==> Recoverable(base) && Intact(base) && Holding(base, r)
      ensures Outside(paths, old(names), names)
      ensures Spent(old(stepsLeft), stepsLeft, p, Originals(PlansOf(base)) + News(PlansOf(base)))
    {
      hide At, Replacing, Safe, Recoverable, Intact, Holding, Within, Outside, Spent, OriginalsTo, NewsTo, PlansOf;
      AtFiles(base, r);
      SpentNothing(stepsLeft);
      CountStart(PlansOf(base));
      KeepsOutside(paths, names, names, names);
      for i := 0 to |r.files|
        invariant Replacing(names, bytes, r, i, false)
        invariant Outside(paths, old(names), names)
        invariant Spent(old(stepsLeft), stepsLeft, Done, OriginalsTo(PlansOf(base), i) + NewsTo(PlansOf(base), i))
      {
        CountStep(PlansOf(base), i);
        ghost var before, between := names, stepsLeft;
        p := ReplaceFile(base, r, i, paths);
        KeepsOutside(paths, old(names), before, names);
        SpentMore(old(stepsLeft), between, stepsLeft, p, OriginalsTo(PlansOf(base), i) + NewsTo(PlansOf(base), i),
                  (if base.files[i].before.Some? then 1 else 0) + if base.files[i].after.Some? then 1 else 0,
                  Originals(PlansOf(base)) + News(PlansOf(base)));
        if p.IsFailure() {
          return;
        }
      }
      p := Done;
    }

    lemma SwapFacts(names: Names, bytes: Contents, r: Record, s: Swap)
      requires Swapping(names, bytes, r, s)
      ensures r.receiptBefore.Some? <==> r.receiptBeforeIdentity.Some?
      ensures Bound(names, ReceiptPrepared, Some(r.receiptPreparedIdentity)) && Bound(names, ReceiptClaim, r.receiptBeforeIdentity)
      ensures s.ClaimLinked? || s.ClaimRecorded? ==> Bound(names, Receipt, r.receiptBeforeIdentity)
    {
    }

    lemma SwapVacant(names: Names, bytes: Contents, r: Record)
      requires Swapping(names, bytes, r, ReceiptGone)
      ensures Receipt !in names
    {
    }

    lemma SwapEntry(names: Names, bytes: Contents, r: Record)
      requires Replacing(names, bytes, r, |r.files|, false)
      ensures r.receiptBefore.Some? <==> r.receiptBeforeIdentity.Some?
      ensures ReceiptClaim !in names && Bound(names, Receipt, r.receiptBeforeIdentity)
    {
    }

    /** Claims the old receipt, records the claim and takes the receipt from its path. */
    method ClaimReceipt(ghost base: Record, r0: Record, ghost paths: set<string>) returns (p: Progress, r: Record, taken: bool, publishing: bool)
      requires At(base, r0) && Replacing(names, bytes, r0, |r0.files|, false) && r0.receiptBefore.Some?
      modifies this`names, this`chain, this`torn, this`stepsLeft
      ensures !p.Refused?
      ensures p.Done? ==> At(base, r) && Swapping(names, bytes, r, ReceiptGone) && taken && |chain| == |old(chain)| + 1
      ensures p.Crashed? ==> Recoverable(base) && Intact(base) && old(stepsLeft).Some?
      ensures p.Crashed? ==> (torn <==> old(stepsLeft) == Some(2)) && (publishing <==> 0 < old(stepsLeft).value < 3)
      ensures p.Crashed? ==> (taken <==> old(stepsLeft).value > 0)
      ensures p.Crashed? && !publishing ==> Holding(base, r)
      ensures Outside(paths, old(names), names)
      ensures Spent(old(stepsLeft), stepsLeft, p, 4)
    {
      hide Replacing, Swapping, Safe, Recognizable, Published, ValidChain;
      r, taken, publishing := r0, false, false;
      ReplacingMeans(names, bytes, base, r, |r.files|, false);
      SwapEntry(names, bytes, r);
      SwapBegins(names, bytes, r);
      p := Link(Receipt, ReceiptClaim);
      if p.IsFailure() {
        return;
      }
      taken, publishing := true, true;
      SwappingMeans(names, bytes, base, r, ClaimLinked);
      SwapRecorded(names, bytes, r);
      r := WithReceiptClaim(r);
      SwappingMeans(names, bytes, base, r, ClaimRecorded);
      p := Advance(ReceiptLinked, base, r0, r);
      if p.IsFailure() {
        return;
      }
      publishing := false;
      SwapFacts(names, bytes, r, ClaimRecorded);
      SwapStep(names, bytes, r);
      p := Unlink(Receipt);
    }

    /** With the old receipt gone: record, link the new one, record twice. */
    method PublishReceipt(ghost base: Record, r: Record, ghost paths: set<string>) returns (p: Progress, publishing: bool)
      requires At(base, r) && Swapping(names, bytes, r, ReceiptGone)
      modifies this`names, this`chain, this`torn, this`stepsLeft
      ensures !p.Refused?
      ensures p.Done? ==> At(base, r) && Swapping(names, bytes, r, NewReceipt) && |chain| == |old(chain)| + 3
      ensures p.Crashed? ==> Recoverable(base) && Recognizable(names, base) && old(stepsLeft).Some?
      ensures p.Crashed? ==> (torn <==> old(stepsLeft).value in {1, 4, 6}) && (publishing <==> old(stepsLeft).value != 2)
      ensures p.Crashed? ==> (Published(names, base) <==> old(stepsLeft).value >= 3)
      ensures p.Crashed? && !publishing ==> At(base, r) && Safe(names, bytes, r) && !Published(names, r) && Receipt !in names
      ensures Outside(paths, old(names), names)
      ensures Spent(old(stepsLeft), stepsLeft, p, 7)
    {
      hide Swapping, Safe, Recognizable, Published, ValidChain;
      publishing := true;
      SelfExtends(r);
      SwappingMeans(names, bytes, base, r, ReceiptGone);
      SwapFacts(names, bytes, r, ReceiptGone);
      p := Advance(ReceiptClaimed, base, r, r);
      if p.IsFailure() {
        return;
      }
      publishing := false;
      SwapStep(names, bytes, r);
      SwapVacant(names, bytes, r);
      p := Link(ReceiptPrepared, Receipt);
      if p.IsFailure() {
        return;
      }
      publishing := true;
      SwappingMeans(names, bytes, base, r, NewReceipt);
      p := Advance(ReceiptPublished, base, r, r);
      if p.IsFailure() {
        return;
      }
      p := Advance(ReceiptCommitted, base, r, r);
    }

    /** Exchanges the receipt. `taken` and `verified` are what the commit remembers about the claim of the old one. */
    method SwapReceipt(ghost base: Record, r0: Record, ghost paths: set<string>)
      returns (p: Progress, r: Record, taken: bool, verified: bool, publishing: bool)
      requires At(base, r0) && Replacing(names, bytes, r0, |r0.files|, false)
      modifies this`names, this`chain, this`torn, this`stepsLeft
      ensures !p.Refused?
      ensures p.Done? ==> At(base, r) && Swapping(names, bytes, r, NewReceipt)
      ensures p.Done? ==> |chain| == |old(chain)| + 3 + if base.receiptBefore.Some? then 1 else 0
      ensures p.Crashed? ==> Recoverable(base) && Recognizable(names, base) && old(stepsLeft).Some?
      ensures p.Crashed? ==> StoppedInSwap(base, old(stepsLeft).value, taken, verified, publishing)
      ensures p.Crashed? && !publishing ==> At(base, r) && Safe(names, bytes, r) && !Published(names, r)
      ensures p.Crashed? && !publishing ==> Bound(names, Receipt, r.receiptBeforeIdentity) || (taken && verified)
      ensures Outside(paths, old(names), names)
      ensures Spent(old(stepsLeft), stepsLeft, p, |SwapKinds(base.receiptBefore)|)
    {
      hide At, Replacing, Swapping, Safe, Recognizable, Published, Recoverable, Holding, Outside;
      r, taken, verified, publishing := r0, false, false, false;
      AtExtends(base, r);
      ghost var names0 := names;
      if r.receiptBefore.Some? {
        p, r, taken, publishing := ClaimReceipt(base, r, paths);
        if p.IsFailure() {
          if !publishing {
            HoldingIsUnpublished(base, r);
          }
          return;
        }
        verified := true;
      } else {
        SwapBegins(names, bytes, r);
      }
      ghost var gone := names;
      p, publishing := PublishReceipt(base, r, paths);
      KeepsOutside(paths, names0, gone, names);
      if p.Crashed? && !publishing {
        if r.receiptBefore.None? {
          VacantIsBefore(names, bytes, r);
        }
      }
    }

    lemma VacantIsBefore(names: Names, bytes: Contents, r: Record)
      requires Safe(names, bytes, r) && Receipt !in names && r.receiptBefore.None?
      ensures Bound(names, Receipt, r.receiptBeforeIdentity)
    {
    }

    /** How the receipt exchange looks when its step `e` fails. */
    predicate StoppedInSwap(base: Record, e: nat, taken: bool, verified: bool, publishing: bool)
      reads this`names, this`torn
    {
      var kinds := SwapKinds(base.receiptBefore);
      && e < |kinds|
      && (torn <==> kinds[e].SecondName?) && (publishing <==> !kinds[e].Move?)
      && (Published(names, base) <==> e + 4 >= |kinds|)
      && (taken <==> base.receiptBefore.Some? && e > 0) && (verified <==> base.receiptBefore.Some? && e > 3)
    }

    // -------------------------------------------------------------- cleanup

    /** Removes the claim and the prepared link of one file. */
    method ClearFile(r: Record, i: nat) returns (p: Progress)
      requires Settled(names, bytes, r) && i < |r.files|
      modifies this`names, this`stepsLeft
      ensures !p.Refused?
      ensures PartlyWithout(old(names), names, r.files[i])
      ensures p.Crashed? ==> (Prepared(r.files[i].path) in names <==> Prepared(r.files[i].path) in old(names))
      ensures p.Done? ==> names == Without(old(names), r.files[i])
      ensures Spent(old(stepsLeft), stepsLeft, p,
                    (if Claim(r.files[i].path) in old(names) then 1 else 0) + if Prepared(r.files[i].path) in old(names) then 1 else 0)
    {
      hide Settled, ObserveClaim, ObservePrepared;
      var f := r.files[i];
      SettledObservations(names, bytes, r, i);
      var claim, prepared := ObserveClaim(names, bytes, f), ObservePrepared(names, bytes, f);
      if claim.Observed? {
        :- Unlink(Claim(f.path));
      }
      if prepared.Observed? {
        :- Unlink(Prepared(f.path));
      }
      p := Done;
    }

    /** Removes the claim and the prepared link of every file. */
    method ClearFileAuxiliaries(r: Record, ghost paths: set<string>) returns (p: Progress)
      requires Settled(names, bytes, r) && Within(r, paths)
      modifies this`names, this`stepsLeft
      ensures !p.Refused?
      ensures OnlyAuxiliariesRemoved(old(names), names) && Outside(paths, old(names), names)
      ensures SameReceipts(old(names), names)
      ensures p.Done? ==> Cleared(names, r, |r.files|)
      ensures old(stepsLeft).None? ==> !p.Crashed? && stepsLeft.None?
      ensures AllAuxiliaries(old(names), r, 0) ==> Spent(old(stepsLeft), stepsLeft, p, Originals(PlansOf(r)) + News(PlansOf(r)))
      ensures AllAuxiliaries(old(names), r, 0) && p.Crashed? ==>
                old(stepsLeft).Some? && (Recognizable(names, r) <==> LinksKept(PlansOf(r), old(stepsLeft).value))
    {
      hide Settled, AllAuxiliaries, Spent, Within, OnlyAuxiliariesRemoved, Outside, Cleared, Without, PartlyWithout, OriginalsTo, NewsTo, PlansOf,
           Recognizable, LinksKept, SameReceipts;
      ghost var names0, all := names, AllAuxiliaries(names, r, 0);
      SpentNothing(stepsLeft);
      CountStart(PlansOf(r));
      NothingCleared(names, r, paths);
      for i := 0 to |r.files|
        invariant OnlyAuxiliariesRemoved(names0, names) && Outside(paths, names0, names) && Cleared(names, r, i)
        invariant SameReceipts(names0, names)
        invariant old(stepsLeft).None? ==> stepsLeft.None?
        invariant all ==>
                    && AllAuxiliaries(names, r, i)
                    && Spent(old(stepsLeft), stepsLeft, Done, OriginalsTo(PlansOf(r), i) + NewsTo(PlansOf(r), i))
      {
        RemovalKeepsOutcome(names0, names, bytes, r);
        CountStep(PlansOf(r), i);
        PathWithin(r, paths, i);
        DistinctFiles(names, bytes, r, i);
        if all {
          AuxiliariesOf(names, bytes, r, i);
        }
        ghost var before, between := names, stepsLeft;
        p := ClearFile(r, i);
        ClearedMore(names0, before, names, r, i, paths);
        SpentMore(between, between, stepsLeft, p, 0,
                  (if Claim(r.files[i].path) in before then 1 else 0) + if Prepared(r.files[i].path) in before then 1 else 0, 2) by {
          SpentNothing(between);
        }
        if all {
          SpentMore(old(stepsLeft), between, stepsLeft, p, OriginalsTo(PlansOf(r), i) + NewsTo(PlansOf(r), i),
                    (if r.files[i].before.Some? then 1 else 0) + if r.files[i].after.Some? then 1 else 0,
                    Originals(PlansOf(r)) + News(PlansOf(r)));
        }
        if p.IsFailure() {
          if all {
            StoppedClearing(before, names, r, i, old(stepsLeft), between, stepsLeft);
          }
          return;
        }
      }
      p := Done;
    }

    predicate PartlyWithout(a: Names, b: Names, f: JournalFile) {
      b == a || b == a - {Claim(f.path)} || b == Without(a, f)
    }

    /** No claim and no prepared link of the first `k` files is left. */
    predicate Cleared(names: Names, r: Record, k: nat) {
      forall i | 0 <= i < |r.files| && i < k :: Claim(r.files[i].path) !in names && Prepared(r.files[i].path) !in names
    }

    lemma NothingCleared(names: Names, r: Record, paths: set<string>)
      ensures OnlyAuxiliariesRemoved(names, names) && Outside(paths, names, names) && Cleared(names, r, 0) && SameReceipts(names, names)
    {
    }

    lemma ClearedMore(names0: Names, a: Names, b: Names, r: Record, i: nat, paths: set<string>)
      requires OnlyAuxiliariesRemoved(names0, a) && Outside(paths, names0, a) && Cleared(a, r, i)
      requires i < |r.files| && r.files[i].path in paths
      requires PartlyWithout(a, b, r.files[i])
      ensures OnlyAuxiliariesRemoved(names0, b) && Outside(paths, names0, b)
      ensures b == Without(a, r.files[i]) ==> Cleared(b, r, i + 1)
      ensures SameReceipts(names0, a) ==> SameReceipts(names0, b)
    {
    }

    predicate SameReceipts(a: Names, b: Names) {
      && (ReceiptClaim in a <==> ReceiptClaim in b) && (ReceiptPrepared in a <==> ReceiptPrepared in b)
      && (ReceiptBackup in a <==> ReceiptBackup in b)
    }

    /** A death while file `i` is cleared leaves exactly the prepared links from it on. */
    lemma StoppedClearing(a: Names, b: Names, r: Record, i: nat, before: Option<nat>, between: Option<nat>, after: Option<nat>)
      requires Cleared(a, r, i) && AllAuxiliaries(a, r, i) && i < |r.files| && PartlyWithout(a, b, r.files[i])
      requires Prepared(r.files[i].path) in b <==> Prepared(r.files[i].path) in a
      requires forall k | 0 <= k < |r.files| && k != i :: r.files[k].path != r.files[i].path
      requires Spent(before, between, Done, OriginalsTo(PlansOf(r), i) + NewsTo(PlansOf(r), i))
      requires Spent(between, after, Crashed, (if r.files[i].before.Some? then 1 else 0) + if r.files[i].after.Some? then 1 else 0)
      ensures before.Some? && (Recognizable(b, r) <==> LinksKept(PlansOf(r), before.value))
    {
      CountStep(PlansOf(r), i);
      LinksLeft(PlansOf(r), i, before.value);
      forall k | 0 <= k < |r.files| && r.files[k].after.Some? ensures Prepared(r.files[k].path) in b <==> i <= k {
      }
      assert forall k | 0 <= k < |r.files| :: PlansOf(r)[k].after == r.files[k].after;
    }

    lemma DistinctFiles(names: Names, bytes: Contents, r: Record, i: nat)
      requires Settled(names, bytes, r) && i < |r.files|
      ensures forall k | 0 <= k < |r.files| && k != i :: r.files[k].path != r.files[i].path
    {
    }

    /** With no auxiliary of a file left, only a transaction that writes nothing is recognized. */
    lemma ClearedLinks(names: Names, r: Record, c: nat)
      requires Cleared(names, r, |r.files|) && c >= Originals(PlansOf(r)) + News(PlansOf(r))
      ensures Recognizable(names, r) <==> LinksKept(PlansOf(r), c)
    {
      LinksAtEnds(PlansOf(r), c);
      assert forall k | 0 <= k < |r.files| :: PlansOf(r)[k].after == r.files[k].after;
    }

    method UnlinkIfPresent(target: Name) returns (p: Progress)
      modifies this`names, this`stepsLeft
      ensures !p.Refused?
      ensures p.Done? ==> names == old(names) - {target}
      ensures p.Crashed? ==> names == old(names)
      ensures Spent(old(stepsLeft), stepsLeft, p, if target in old(names) then 1 else 0)
    {
      if target !in names {
        assert names == names - {target};
        return Done;
      }
      p := Unlink(target);
    }

    /** Removes the revisions, newest first, so that what is left is always an accepted chain of the same transaction. */
    method DropJournal(ghost base: Record, ghost r: Record) returns (p: Progress)
      requires At(base, r) && Settled(names, bytes, r) && NoAuxiliaries(names, r)
      modifies this`chain, this`torn, this`stepsLeft
      ensures !p.Refused?
      ensures p.Done? ==> chain == [] && !torn
      ensures p.Crashed? ==> Recoverable(base)
      ensures Spent(old(stepsLeft), stepsLeft, p, 2 * |old(chain)|)
      ensures p.Crashed? ==> (torn <==> old(stepsLeft).value % 2 == 1)
    {
      hide Settled, Safe, NoAuxiliaries;
      ghost var full := chain;
      while chain != []
        invariant !torn && chain <= full
        invariant Spent(old(stepsLeft), stepsLeft, Done, 2 * (|full| - |chain|))
        decreases |chain|
      {
        assert Recoverable(base) by {
          assert forall k | 0 <= k < |chain| :: chain[k] == full[k];
          ChainKeepsRecords(full, |chain| - 1, |full| - 1);
          assert Safe(names, bytes, Head(chain).record) by {
            SettledFacts(names, bytes, r);
            OlderHeadIsSafe(names, bytes, Head(chain).record, r);
          }
        }
        :- DropRevision();
      }
      p := Done;
    }

    /** Removes every auxiliary, the receipt's last. */
    method ClearAuxiliaries(r: Record, ghost paths: set<string>) returns (p: Progress)
      requires Settled(names, bytes, r) && Within(r, paths)
      modifies this`names, this`stepsLeft
      ensures !p.Refused?
      ensures OnlyAuxiliariesRemoved(old(names), names) && Outside(paths, old(names), names)
      ensures p.Done? ==> NoAuxiliaries(names, r)
      ensures old(stepsLeft).None? ==> !p.Crashed? && stepsLeft.None?
      ensures AllPresent(old(names), r) ==> Spent(old(stepsLeft), stepsLeft, p, Auxiliaries(PlansOf(r), r.receiptBefore))
      ensures AllPresent(old(names), r) && p.Crashed? ==>
                old(stepsLeft).Some? && (Recognizable(names, r) <==> LinksKept(PlansOf(r), old(stepsLeft).value))
    {
      hide Settled, AllAuxiliaries, Recognizable, LinksKept, Cleared, PlansOf, Originals, News;
      p := ClearFileAuxiliaries(r, paths);
      if p.IsFailure() {
        return;
      }
      ghost var cleared := names;
      p := UnlinkIfPresent(ReceiptClaim);
      ClearedStays(cleared, names, r, old(stepsLeft));
      if p.IsFailure() {
        return;
      }
      p := UnlinkIfPresent(ReceiptPrepared);
      ClearedStays(cleared, names, r, old(stepsLeft));
      if p.IsFailure() {
        return;
      }
      p := UnlinkIfPresent(ReceiptBackup);
      ClearedStays(cleared, names, r, old(stepsLeft));
    }

    lemma ClearedStays(a: Names, b: Names, r: Record, before: Option<nat>)
      requires Cleared(a, r, |r.files|) && forall n | n in b :: n in a
      ensures Cleared(b, r, |r.files|)
      ensures ReceiptClaim !in b && ReceiptPrepared !in b && ReceiptBackup !in b ==> NoAuxiliaries(b, r)
      ensures before.Some? && before.value >= Originals(PlansOf(r)) + News(PlansOf(r)) ==>
                (Recognizable(b, r) <==> LinksKept(PlansOf(r), before.value))
    {
      if before.Some? && before.value >= Originals(PlansOf(r)) + News(PlansOf(r)) {
        ClearedLinks(b, r, before.value);
      }
    }

    lemma NothingLinked(names: Names, r: Record)
      requires NoAuxiliaries(names, r)
      ensures Cleared(names, r, |r.files|)
    {
    }

    /** Where a cleanup that begins with everything present stops after `c` steps. */
    ghost predicate StoppedInCleanUp(r: Record, c: nat)
      reads this`names, this`torn
    {
      var present := Auxiliaries(PlansOf(r), r.receiptBefore);
      && (torn <==> c >= present && (c - present) % 2 == 1)
      && (Recognizable(names, r) <==> LinksKept(PlansOf(r), c))
    }

    /** Removes every auxiliary and then the journal. */
    method CleanUp(ghost base: Record, r: Record, ghost paths: set<string>) returns (p: Progress)
      requires At(base, r) && Settled(names, bytes, r) && Within(r, paths)
      modifies this`names, this`chain, this`torn, this`stepsLeft
      ensures !p.Refused?
      ensures OnlyAuxiliariesRemoved(old(names), names) && Outside(paths, old(names), names)
      ensures p.Done? ==> chain == [] && !torn && NoAuxiliaries(names, r)
      ensures p.Crashed? ==> Recoverable(base)
      ensures old(stepsLeft).None? ==> !p.Crashed? && stepsLeft.None?
      ensures AllPresent(old(names), r) ==>
                Spent(old(stepsLeft), stepsLeft, p, Auxiliaries(PlansOf(r), r.receiptBefore) + 2 * |old(chain)|)
      ensures AllPresent(old(names), r) && p.Crashed? ==> old(stepsLeft).Some? && StoppedInCleanUp(r, old(stepsLeft).value)
    {
      hide Settled, Safe, AllPresent, Outside, NoAuxiliaries, Cleared, OnlyAuxiliariesRemoved, Recognizable, LinksKept, PlansOf, Originals, News;
      RemovalsAreSafe(names, bytes, r);
      p := ClearAuxiliaries(r, paths);
      if p.IsFailure() {
        return;
      }
      NothingLinked(names, r);
      ClearedStays(names, names, r, old(stepsLeft));
      p := DropJournal(base, r);
    }

    // -------------------------------------------------------------- recovery

    /** Decides for every file whether it can be put back, before anything is touched. */
    method PreflightRestore(r: Record) returns (ok: bool, claims: seq<Observation>, prepareds: seq<Observation>)
      requires Faithful(r, bytes) && AuxiliariesOwned(names, r)
      ensures ok <==> FilesRestorable(names, r)
      ensures ok ==> |claims| == |r.files| && |prepareds| == |r.files|
      ensures ok ==> forall i | 0 <= i < |r.files| ::
                       claims[i] == ObserveClaim(names, bytes, r.files[i]) && prepareds[i] == ObservePrepared(names, bytes, r.files[i])
    {
      hide Faithful, AuxiliariesOwned, FileRestorable, ObserveClaim, ObservePrepared, Classify, RestoreAllowed;
      claims, prepareds := [], [];
      for i := 0 to |r.files|
        invariant |claims| == i && |prepareds| == i
        invariant forall k | 0 <= k < i :: FileRestorable(names, r.files[k])
        invariant forall k | 0 <= k < i ::
                    claims[k] == ObserveClaim(names, bytes, r.files[k]) && prepareds[k] == ObservePrepared(names, bytes, r.files[k])
      {
        var f := r.files[i];
        var claim, prepared := ObserveClaim(names, bytes, f), ObservePrepared(names, bytes, f);
        RestoreAllowedIff(names, bytes, r, i);
        if !RestoreAllowed(f, claim, prepared, Classify(names, bytes, f, claim, prepared)) {
          return false, [], [];
        }
        claims, prepareds := claims + [claim], prepareds + [prepared];
      }
      ok := true;
    }

    /**
     * Puts the originals back, last file first. It is refused, with nothing
     * touched, exactly when some file cannot be put back; stopped at any step
     * it leaves a volume on which it can be run again.
     */
    method RestoreFiles(r: Record, ghost paths: set<string>) returns (p: Progress)
      requires Faithful(r, bytes) && AuxiliariesOwned(names, r) && ReceiptRestorable(names, r) && Within(r, paths)
      modifies this`names, this`stepsLeft
      ensures p.Refused? <==> !FilesRestorable(old(names), r)
      ensures p.Refused? ==> names == old(names)
      ensures p.Crashed? ==> Safe(names, bytes, r)
      ensures p.Done? ==> Restoring(old(names), names, bytes, r, 0)
      ensures Published(names, r) <==> Published(old(names), r)
      ensures Outside(paths, old(names), names)
      ensures old(stepsLeft).None? ==> !p.Crashed? && stepsLeft.None?
    {
      hide Faithful, AuxiliariesOwned, FilesRestorable, ReceiptRestorable, ObserveClaim, ObservePrepared, Classify, Safe, Restoring;
      var ok, claims, prepareds := PreflightRestore(r);
      if !ok {
        return Refused;
      }
      ghost var names0 := names;
      RestoringBegins(names, bytes, r);
      for i := |r.files| downto 0
        invariant Restoring(names0, names, bytes, r, i)
        invariant Published(names, r) <==> Published(names0, r)
        invariant Outside(paths, names0, names)
        invariant old(stepsLeft).None? ==> stepsLeft.None?
      {
        var f := r.files[i];
        RestoringFacts(names0, names, bytes, r, i + 1);
        var state := Classify(names, bytes, f, claims[i], prepareds[i]);
        if f.before.None? {
          if state.IsAfter? {
            RetractStep(names0, names, bytes, r, i + 1);
            :- Unlink(Live(f.path));
          } else {
            RestoreSkipped(names0, names, bytes, r, i + 1);
          }
        } else if state.IsBefore? {
          RestoreSkipped(names0, names, bytes, r, i + 1);
        } else {
          RestoreStep(names0, names, bytes, r, i + 1);
          ghost var restored := names[Live(f.path) := f.beforeIdentity.value];
          if state.IsAfter? {
            RetractStep(names0, names, bytes, r, i + 1);
            :- Unlink(Live(f.path));
          }
          :- Link(Claim(f.path), Live(f.path));
          assert names == restored;
        }
      }
      p := Done;
    }

    /** Whether every file is recognized as carrying its published content. */
    method CheckFilesAfter(r: Record) returns (ok: bool)
      ensures ok <==> FilesAfterSeen(names, bytes, r)
    {
      hide ObserveClaim, ObservePrepared, Classify;
      for i := 0 to |r.files|
        invariant FilesAfterSeen(names, bytes, r.(files := r.files[..i]))
      {
        var f := r.files[i];
        var claim, prepared := ObserveClaim(names, bytes, f), ObservePrepared(names, bytes, f);
        var state := Classify(names, bytes, f, claim, prepared);
        if claim.Ambiguous? || prepared.Ambiguous? || !(if f.after.None? then state.IsAbsent? else state.IsAfter?) {
          return false;
        }
      }
      assert r.files[..|r.files|] == r.files;
      ok := true;
    }

    /** Brings the receipt and every file back to what they were before the transaction. */
    method RollBack(ghost base: Record, r: Record, verdict: Verdict, ghost paths: set<string>) returns (p: Progress)
      requires At(base, r) && Safe(names, bytes, r) && !Published(names, r) && Within(r, paths)
      requires verdict == Judge(names, bytes, r)
      modifies this`names, this`chain, this`torn, this`stepsLeft
      ensures !p.Refused?
      ensures p.Done? ==> chain == [] && !torn && NoAuxiliaries(names, r) && AllBefore(names, r)
      ensures p.Crashed? ==> Recoverable(base) && !Published(names, r)
      ensures Outside(paths, old(names), names)
      ensures old(stepsLeft).None? ==> !p.Crashed? && stepsLeft.None?
    {
      hide Safe, Judge, NoAuxiliaries, AllBefore, Settled, Restoring;
      JudgeSafe(names, bytes, r);
      SafeFacts(names, bytes, r);
      ghost var names0 := names;
      :- RestoreFiles(r, paths);
      ghost var restored := names;
      RestoringFacts(names0, names, bytes, r, 0);
      assert IdentityAt(names, Receipt) == IdentityAt(names0, Receipt) && IdentityAt(names, ReceiptClaim) == IdentityAt(names0, ReceiptClaim);
      if verdict.Claimed? {
        :- Link(ReceiptClaim, Receipt);
      }
      RestoredIsSettled(names0, restored, names, bytes, r);
      SettledFacts(names, bytes, r);
      ghost var settled := names;
      p := CleanUp(base, r, paths);
      RemovalKeepsOutcome(settled, names, bytes, r);
      SettledFacts(names, bytes, r);
    }

    lemma SafeFacts(names: Names, bytes: Contents, r: Record)
      requires Safe(names, bytes, r)
      ensures Faithful(r, bytes) && AuxiliariesOwned(names, r)
      ensures Restorable(names, r) ==> ReceiptRestorable(names, r) && FilesRestorable(names, r)
    {
    }

    /** After the restore only the receipt may still have to be linked back. */
    lemma RestoredIsSettled(names0: Names, restored: Names, names: Names, bytes: Contents, r: Record)
      requires Restoring(names0, restored, bytes, r, 0)
      requires forall n: Name | !n.Receipt? :: IdentityAt(names, n) == IdentityAt(restored, n)
      requires Bound(names, Receipt, r.receiptBeforeIdentity)
      ensures Settled(names, bytes, r)
    {
      forall i | 0 <= i < |r.files| ensures LiveBefore(names, r.files[i]) {
        assert LiveBefore(restored, r.files[i]);
        assert IdentityAt(names, Live(r.files[i].path)) == IdentityAt(restored, Live(r.files[i].path));
      }
      assert forall i | 0 <= i < |r.files| ::
          && IdentityAt(names, Claim(r.files[i].path)) == IdentityAt(restored, Claim(r.files[i].path))
          && IdentityAt(names, Prepared(r.files[i].path)) == IdentityAt(restored, Prepared(r.files[i].path));
      assert IdentityAt(names, ReceiptClaim) == IdentityAt(restored, ReceiptClaim);
      assert IdentityAt(names, ReceiptPrepared) == IdentityAt(restored, ReceiptPrepared);
      assert IdentityAt(names, ReceiptBackup) == IdentityAt(restored, ReceiptBackup);
    }

    /** Linking the claimed receipt back leaves nothing but files to restore. */
    lemma ReceiptLinkedBack(names: Names, bytes: Contents, r: Record)
      requires Faithful(r, bytes) && AuxiliariesOwned(names, r) && FilesRestorable(names, r)
      requires Receipt !in names && (r.receiptBefore.Some? ==> Bound(names, ReceiptClaim, r.receiptBeforeIdentity))
      ensures var next := if r.receiptBefore.Some? then names[Receipt := r.receiptBeforeIdentity.value] else names;
              && Safe(next, bytes, r) && AuxiliariesOwned(next, r) && FilesRestorable(next, r)
              && Bound(next, Receipt, r.receiptBeforeIdentity)
    {
    }

    lemma SwappedFacts(names: Names, bytes: Contents, r: Record, s: Swap)
      requires Swapping(names, bytes, r, s)
      ensures Faithful(r, bytes) && AuxiliariesOwned(names, r) && FilesRestorable(names, r)
    {
    }

    /**
     * The rollback a failing commit runs itself: unlike recovery it takes a
     * published receipt back too. It refuses, with nothing touched, exactly when
     * the receipt is linked to its claim but not yet unlinked.
     */
    method Abort(ghost base: Record, r: Record, receiptCommitted: bool, claimTaken: bool, claimVerified: bool, ghost paths: set<string>)
      returns (p: Progress)
      requires At(base, r) && Within(r, paths)
      requires if receiptCommitted then Swapping(names, bytes, r, NewReceipt) else Safe(names, bytes, r) && !Published(names, r)
      requires claimTaken ==> r.receiptBefore.Some?
      requires !receiptCommitted && !Bound(names, Receipt, r.receiptBeforeIdentity) ==> claimTaken && claimVerified
      modifies this`names, this`chain, this`torn, this`stepsLeft
      ensures p.Refused? <==> !receiptCommitted && claimTaken && !claimVerified
      ensures p.Refused? ==> names == old(names) && chain == old(chain) && torn == old(torn)
      ensures p.Done? ==> chain == [] && !torn && NoAuxiliaries(names, r) && AllBefore(names, r)
      ensures p.Crashed? ==> Recoverable(base)
      ensures Outside(paths, old(names), names)
      ensures old(stepsLeft).None? ==> !p.Crashed? && stepsLeft.None?
    {
      hide Safe, Swapping, NoAuxiliaries, AllBefore, Settled, Restoring, Faithful, AuxiliariesOwned, FilesRestorable;
      if receiptCommitted {
        SwappingIsSafe(names, bytes, r, NewReceipt);
        SwapTakenBack(names, bytes, r);
        SwappingIsSafe(names - {Receipt}, bytes, r, ReceiptGone);
        :- Unlink(Receipt);
        SwapFacts(names, bytes, r, ReceiptGone);
        SwappedFacts(names, bytes, r, ReceiptGone);
        ReceiptLinkedBack(names, bytes, r);
        if r.receiptBefore.Some? {
          :- Link(ReceiptClaim, Receipt);
        }
      } else {
        if claimTaken && !claimVerified {
          return Refused;
        }
        JudgeSafe(names, bytes, r);
        SafeFacts(names, bytes, r);
        if claimTaken && Receipt !in names {
          ReceiptLinkedBack(names, bytes, r);
          :- Link(ReceiptClaim, Receipt);
        }
      }
      ghost var names0 := names;
      :- RestoreFiles(r, paths);
      RestoringFacts(names0, names, bytes, r, 0);
      RestoredIsSettled(names0, names, names, bytes, r);
      SettledFacts(names, bytes, r);
      ghost var settled := names;
      p := CleanUp(base, r, paths);
      RemovalKeepsOutcome(settled, names, bytes, r);
      SettledFacts(names, bytes, r);
      VerdictIsUnique(names, bytes, r);
    }

    lemma SwapTakenBack(names: Names, bytes: Contents, r: Record)
      requires Swapping(names, bytes, r, NewReceipt)
      ensures Receipt in names && Swapping(names - {Receipt}, bytes, r, ReceiptGone)
    {
    }

    /** Finishes a transaction whose receipt is published. */
    method RollForward(ghost base: Record, r: Record, ghost paths: set<string>) returns (p: Progress)
      requires At(base, r) && Safe(names, bytes, r) && Published(names, r) && Within(r, paths)
      modifies this`names, this`chain, this`torn, this`stepsLeft
      ensures p.Refused? <==> !Recognizable(old(names), r)
      ensures p.Refused? ==> names == old(names) && chain == old(chain) && torn == old(torn)
      ensures p.Done? ==> chain == [] && !torn && NoAuxiliaries(names, r) && AllAfter(names, r)
      ensures p.Crashed? ==> Recoverable(base) && Published(names, r)
      ensures Outside(paths, old(names), names)
      ensures old(stepsLeft).None? ==> !p.Crashed? && stepsLeft.None?
    {
      hide Safe, NoAuxiliaries, AllAfter, AllBefore, Settled, FilesAfterSeen, Recognizable;
      JudgeSafe(names, bytes, r);
      SafeFacts(names, bytes, r);
      CommittedSeen(names, bytes, r);
      var ok := CheckFilesAfter(r);
      if !ok {
        return Refused;
      }
      CommittedIsSettled(names, bytes, r);
      ghost var settled := names;
      p := CleanUp(base, r, paths);
      RemovalKeepsOutcome(settled, names, bytes, r);
      SettledFacts(names, bytes, r);
    }

    lemma CommittedIsSettled(names: Names, bytes: Contents, r: Record)
      requires Faithful(r, bytes) && AuxiliariesOwned(names, r) && Committed(names, r)
      ensures Settled(names, bytes, r)
    {
    }

    /** Two records of one transaction agree on every outcome. */
    lemma SameOutcome(names: Names, a: Record, b: Record)
      requires SameTransaction(a, b)
      ensures AllBefore(names, a) <==> AllBefore(names, b)
      ensures AllAfter(names, a) <==> AllAfter(names, b)
      ensures Published(names, a) <==> Published(names, b)
      ensures Recognizable(names, a) <==> Recognizable(names, b)
      ensures NoAuxiliaries(names, a) <==> NoAuxiliaries(names, b)
      ensures forall paths :: Within(a, paths) <==> Within(b, paths)
    {
    }

    /**
     * Recovery of a pending transaction. It refuses exactly when a journal pair
     * is incomplete, or the receipt is published and a prepared link is already
     * gone; then nothing at all changes. Otherwise it ends with everything as
     * published exactly when the prepared receipt had been linked into place,
     * and with every original inode back otherwise. When it dies on the way, it
     * can be run again, and the verdict is the same.
     */
    method Recover(ghost base: Record, ghost paths: set<string>) returns (p: Progress)
      requires Recoverable(base) && Within(base, paths)
      modifies this`names, this`chain, this`torn, this`stepsLeft
      ensures p.Refused? <==> old(torn) || (Published(old(names), base) && !Recognizable(old(names), base))
      ensures p.Refused? ==> names == old(names) && chain == old(chain) && torn == old(torn)
      ensures p.Done? ==> chain == [] && !torn && NoAuxiliaries(names, base)
      ensures p.Done? ==> if Published(old(names), base) then AllAfter(names, base) else AllBefore(names, base)
      ensures p.Crashed? ==> Recoverable(base) && (Published(names, base) <==> Published(old(names), base))
      ensures Outside(paths, old(names), names)
      ensures old(stepsLeft).None? ==> !p.Crashed? && stepsLeft.None?
    {
      hide Safe, Judge, AllBefore, AllAfter, NoAuxiliaries, Published, Recognizable, Within, SameTransaction;
      var journal := ReadChain(chain);
      if torn || journal.None? {
        return Refused;
      }
      var r := journal.value.record;
      ChainKeepsRecords(chain, 0, |chain| - 1);
      JudgeSafe(names, bytes, r);
      SameOutcome(names, base, r);
      var verdict := Judge(names, bytes, r);
      if verdict.After? {
        p := RollForward(base, r, paths);
      } else {
        p := RollBack(base, r, verdict, paths);
      }
      SameOutcome(names, base, r);
    }

    /** Recovery run again and again, dying after each of the given numbers of steps, and then left alone. */
    method RecoverRepeatedly(ghost base: Record, deaths: seq<nat>, ghost paths: set<string>) returns (p: Progress)
      requires Recoverable(base) && Within(base, paths)
      modifies this`names, this`chain, this`torn, this`stepsLeft
      ensures !p.Crashed?
      ensures p.Done? ==> chain == [] && !torn && NoAuxiliaries(names, base)
      ensures p.Done? ==> if Published(old(names), base) then AllAfter(names, base) else AllBefore(names, base)
      ensures p.Refused? ==> Recoverable(base) && (Published(names, base) <==> Published(old(names), base))
      ensures p.Refused? ==> torn || (Published(names, base) && !Recognizable(names, base))
      ensures old(torn) || (Published(old(names), base) && !Recognizable(old(names), base)) ==>
                p.Refused? && names == old(names) && torn == old(torn)
      ensures deaths == [] ==> (p.Refused? <==> old(torn) || (Published(old(names), base) && !Recognizable(old(names), base)))
      ensures Outside(paths, old(names), names)
    {
      hide Safe, AllBefore, AllAfter, NoAuxiliaries, Published, Recognizable, Within;
      ghost var stuck := torn || (Published(names, base) && !Recognizable(names, base));
      for i := 0 to |deaths|
        invariant Recoverable(base) && (Published(names, base) <==> Published(old(names), base))
        invariant Outside(paths, old(names), names)
        invariant stuck || deaths == [] ==> names == old(names) && torn == old(torn)
      {
        stepsLeft := Some(deaths[i]);
        p := Recover(base, paths);
        if !p.Crashed? {
          return;
        }
      }
      stepsLeft := None;
      p := Recover(base, paths);
    }

    // -------------------------------------------------------------- the whole transaction

    /** Writes the prepared content of every file that gets one. */
    method PrepareFiles(changed: seq<Plan>) returns (p: Progress, files: seq<JournalFile>)
      requires Numbered() && Vacant(names) && DistinctPaths(changed)
      modifies this`names, this`bytes, this`nextIno, this`stepsLeft
      ensures Numbered() && !p.Refused?
      ensures Preparing(old(names), names, old(bytes), bytes, files, changed)
      ensures p.Done? ==> |files| == |changed|
      ensures Spent(old(stepsLeft), stepsLeft, p, News(changed))
    {
      hide Preparing;
      files := [];
      PreparingBegins(names, bytes, changed);
      PreparingBound(old(names), names, old(bytes), bytes, files, changed);
      while |files| < |changed|
        invariant Numbered() && |files| <= |changed|
        invariant Preparing(old(names), names, old(bytes), bytes, files, changed)
        invariant Spent(old(stepsLeft), stepsLeft, Done, NewsTo(changed, |files|))
      {
        var c := changed[|files|];
        CountStep(changed, |files|);
        PrepareStep(old(names), names, old(bytes), bytes, files, changed, nextIno);
        var identity: Option<Ino> := None;
        if c.after.Some? {
          var ino;
          p, ino := Create(Prepared(c.path), c.after.value);
          if p.IsFailure() {
            return;
          }
          identity := Some(ino);
        }
        files := files + [JournalFile(c.path, c.before, c.beforeIdentity, c.after, identity, None)];
      }
      p := Done;
    }

    lemma PreparingBound(names0: Names, names: Names, bytes0: Contents, bytes: Contents, files: seq<JournalFile>, changed: seq<Plan>)
      requires Preparing(names0, names, bytes0, bytes, files, changed)
      ensures |files| <= |changed|
    {
    }

    /** Prepares the files and the receipt and publishes the first revision. */
    method Begin(transaction: nat, ghost plans: seq<Plan>, changed: seq<Plan>, receiptBefore: Option<Bytes>, receiptIdentity: Option<Ino>, receiptAfter: Bytes)
      returns (p: Progress, base: Record)
      requires Numbered() && Vacant(names) && chain == [] && !torn && changed == Changed(plans)
      requires ReadSetCurrent(names, bytes, plans, receiptBefore, receiptIdentity)
      requires receiptBefore != Some(receiptAfter) && DistinctPaths(changed)
      modifies this
      ensures Numbered() && !p.Refused? && Grows(old(bytes), bytes)
      ensures Outside(PathsOf(Changed(plans)), old(names), names)
      ensures p.Done? ==> At(base, base) && Claiming(names, bytes, base, 0)
      ensures p.Crashed? && chain == [] ==> !torn
      ensures forall n | !IsAuxiliary(n) :: IdentityAt(names, n) == IdentityAt(old(names), n)
      ensures p.Crashed? && chain != [] ==> Recoverable(base)
      ensures chain != [] ==> Describes(base, plans, receiptBefore, receiptIdentity, receiptAfter) && Faithful(base, bytes)
      ensures Spent(old(stepsLeft), stepsLeft, p, PrepareSteps(changed, receiptBefore) + 2)
      ensures p.Crashed? ==> old(stepsLeft).Some? && (chain == [] <==> old(stepsLeft).value <= PrepareSteps(changed, receiptBefore))
      ensures p.Crashed? ==> (torn <==> chain != [])
      ensures p.Crashed? && chain != [] ==> Intact(base)
      ensures p.Done? ==> |chain| == 1
    {
      hide Preparing, ReadSetCurrent, Claiming, Safe, Faithful, ValidChain, RecordExtends, Recognizable, Published;
      base := Record(receiptBefore, receiptIdentity, receiptAfter, 0, None, None, []);
      var files, backup, prepared;
      p, files := PrepareFiles(changed);
      ghost var names1, bytes1 := names, bytes;
      PreparingKeepsOutside(old(names), names, old(bytes), bytes, files, changed);
      PreparingFacts(old(names), names, old(bytes), bytes, files, changed);
      if p.IsFailure() {
        return;
      }
      p, backup, prepared := PrepareReceipt(receiptBefore, receiptAfter);
      if p.IsFailure() {
        return;
      }
      base := base.(receiptPreparedIdentity := prepared, receiptBackupIdentity := backup, files := files);
      assert Claiming(names, bytes, base, 0) && Safe(names, bytes, base) && Faithful(base, bytes) by {
        BaseIsClaiming(old(names), names1, old(bytes), bytes1, names, bytes, plans, base);
        ClaimingIsSafe(names, bytes, base, 0);
        SafeFacts(names, bytes, base);
      }
      SelfExtends(base);
      ClaimingMeans(names, bytes, base, base, 0);
      p := Publish(transaction, AllPrepared, base);
    }

    lemma CurrentIsDistinct(names: Names, bytes: Contents, plans: seq<Plan>, receiptBefore: Option<Bytes>, receiptIdentity: Option<Ino>)
      requires ReadSetCurrent(names, bytes, plans, receiptBefore, receiptIdentity)
      ensures DistinctPaths(Changed(plans))
    {
    }

    lemma SelfExtends(r: Record)
      ensures RecordExtends(r, r) && SameTransaction(r, r)
    {
    }

    /** Backs the receipt up and writes the prepared one. */
    method PrepareReceipt(receiptBefore: Option<Bytes>, receiptAfter: Bytes) returns (p: Progress, backup: Option<Ino>, prepared: Ino)
      requires Numbered() && ReceiptBackup !in names && ReceiptPrepared !in names
      modifies this`names, this`bytes, this`nextIno, this`stepsLeft
      ensures Numbered() && !p.Refused? && Grows(old(bytes), bytes)
      ensures forall n: Name | !n.ReceiptPrepared? && !n.ReceiptBackup? :: IdentityAt(names, n) == IdentityAt(old(names), n)
      ensures p.Done? ==> Bound(names, ReceiptPrepared, Some(prepared)) && Holds(bytes, Some(prepared), Some(receiptAfter))
      ensures p.Done? ==> Bound(names, ReceiptBackup, backup) && Holds(bytes, backup, receiptBefore)
      ensures Spent(old(stepsLeft), stepsLeft, p, 1 + if receiptBefore.Some? then 1 else 0)
    {
      backup, prepared := None, 0;
      if receiptBefore.Some? {
        var ino;
        p, ino := Create(ReceiptBackup, receiptBefore.value);
        if p.IsFailure() {
          return;
        }
        backup := Some(ino);
      }
      p, prepared := Create(ReceiptPrepared, receiptAfter);
    }

    lemma PreparingFacts(names0: Names, names: Names, bytes0: Contents, bytes: Contents, files: seq<JournalFile>, changed: seq<Plan>)
      requires Preparing(names0, names, bytes0, bytes, files, changed)
      ensures Grows(bytes0, bytes)
      ensures forall i | 0 <= i < |files| && i < |changed| :: FileDescribes(files[i], changed[i])
      ensures forall n | !IsAuxiliary(n) :: IdentityAt(names, n) == IdentityAt(names0, n)
      ensures ReceiptPrepared !in names && ReceiptBackup !in names
    {
    }

    /** How the exchange looks when its step `e` fails, to somebody who only sees the volume. */
    predicate StoppedInExchange(base: Record, e: nat)
      reads this`names, this`torn
    {
      var total := ExchangeSteps(PlansOf(base), base.receiptBefore);
      && e < total
      && (torn <==> KindInExchange(PlansOf(base), base.receiptBefore, e).SecondName?)
      && (Published(names, base) <==> e + 4 >= total)
      && Recognizable(names, base)
    }

    /** What the commit itself knows then: its record, and whether it can say where the receipt is. */
    predicate HandlerCanStart(base: Record, r: Record, e: nat, taken: bool, verified: bool)
      reads this`names, this`bytes, this`chain, this`torn
    {
      && At(base, r) && Safe(names, bytes, r) && !Published(names, r)
      && (taken ==> r.receiptBefore.Some?)
      && (Bound(names, Receipt, r.receiptBeforeIdentity) || (taken && verified))
      && (taken && !verified <==> base.receiptBefore.Some? && e + 8 == ExchangeSteps(PlansOf(base), base.receiptBefore))
    }

    /** Claims the originals, between two revisions. */
    method ClaimAll(base: Record, ghost paths: set<string>) returns (p: Progress, r: Record, publishing: bool)
      requires At(base, base) && Claiming(names, bytes, base, 0) && Within(base, paths)
      modifies this`names, this`chain, this`torn, this`stepsLeft
      ensures !p.Refused?
      ensures p.Done? ==> At(base, r) && Replacing(names, bytes, r, 0, false)
      ensures p.Done? ==> |chain| == |old(chain)| + 2 + Originals(PlansOf(base))
      ensures p.Crashed? ==> Recoverable(base) && Intact(base) && old(stepsLeft).Some?
      ensures p.Crashed? ==> (torn <==> KindInClaiming(PlansOf(base), old(stepsLeft).value).SecondName?)
      ensures p.Crashed? ==> (publishing <==> !KindInClaiming(PlansOf(base), old(stepsLeft).value).Move?)
      ensures p.Crashed? && !publishing ==> Holding(base, r)
      ensures Outside(paths, old(names), names)
      ensures Spent(old(stepsLeft), stepsLeft, p, 4 + 3 * Originals(PlansOf(base)))
    {
      hide At, Claiming, Replacing, Safe, Within, Recoverable, Originals, News, PlansOf, Recognizable, Published, Holding, SwapKinds, KindInClaims;
      r, publishing := base, true;
      SelfExtends(base);
      ClaimingMeans(names, bytes, base, base, 0);
      p := Advance(Writing, base, base, base);
      if p.IsFailure() {
        return;
      }
      p, r, publishing := ClaimFiles(base, base, paths);
      if p.IsFailure() {
        return;
      }
      AtExtends(base, r);
      ClaimingMeans(names, bytes, base, r, |r.files|);
      SelfExtends(r);
      publishing := true;
      p := Advance(FilesClaimed, base, r, r);
      if p.IsFailure() {
        return;
      }
      ClaimedBeginsReplacing(names, bytes, r);
    }

    /** Claims the originals, exchanges the files and then the receipt. */
    method Exchange(base: Record, ghost paths: set<string>)
      returns (p: Progress, r: Record, taken: bool, verified: bool, publishing: bool)
      requires At(base, base) && Claiming(names, bytes, base, 0) && Within(base, paths)
      modifies this`names, this`chain, this`torn, this`stepsLeft
      ensures !p.Refused?
      ensures p.Done? ==> At(base, r) && Swapping(names, bytes, r, NewReceipt)
      ensures p.Done? ==> |chain| == |old(chain)| + Revisions(PlansOf(base), base.receiptBefore) - 1
      ensures p.Crashed? ==> Recoverable(base) && old(stepsLeft).Some? && StoppedInExchange(base, old(stepsLeft).value)
      ensures p.Crashed? ==> (publishing <==> !KindInExchange(PlansOf(base), base.receiptBefore, old(stepsLeft).value).Move?)
      ensures p.Crashed? && !publishing ==> HandlerCanStart(base, r, old(stepsLeft).value, taken, verified)
      ensures Outside(paths, old(names), names)
      ensures Spent(old(stepsLeft), stepsLeft, p, ExchangeSteps(PlansOf(base), base.receiptBefore))
    {
      hide At, Claiming, Replacing, Swapping, Safe, Within, Recoverable, Originals, News, PlansOf, Recognizable, Published, Holding, SwapKinds,
           KindInClaims;
      taken, verified := false, false;
      SwapKindsLength(base.receiptBefore);
      p, r, publishing := ClaimAll(base, paths);
      if p.IsFailure() {
        if !publishing {
          HoldingIsUnpublished(base, r);
        }
        return;
      }
      AtExtends(base, r);
      SelfExtends(r);
      publishing := false;
      p := ReplaceFiles(base, r, paths);
      if p.IsFailure() {
        HoldingIsUnpublished(base, r);
        return;
      }
      ReplacingMeans(names, bytes, base, r, |r.files|, false);
      publishing := true;
      p := Advance(LiveWritten, base, r, r);
      if p.IsFailure() {
        return;
      }
      p, r, taken, verified, publishing := SwapReceipt(base, r, paths);
      if p.Crashed? && !publishing {
        AtExtends(base, r);
      }
    }

    lemma SwapKindsLength(receiptBefore: Option<Bytes>)
      ensures |SwapKinds(receiptBefore)| == 7 + if receiptBefore.Some? then 4 else 0
      ensures receiptBefore.Some? ==> SwapKinds(receiptBefore)[3].Move?
      ensures receiptBefore.Some? ==> forall e | 0 < e < 3 :: !SwapKinds(receiptBefore)[e].Move?
    {
    }

    lemma AtExtends(base: Record, r: Record)
      requires At(base, r)
      ensures SameTransaction(base, r) && PlansOf(base) == PlansOf(r) && base.receiptBefore == r.receiptBefore
    {
      SamePlans(base, r);
    }

    lemma HoldingIsUnpublished(base: Record, r: Record)
      requires Holding(base, r)
      ensures At(base, r) && !torn && Safe(names, bytes, r) && Bound(names, Receipt, r.receiptBeforeIdentity) && !Published(names, r)
    {
    }

    /** Where a commit that dies after `d` steps leaves its journal. */
    ghost predicate StoppedAt(base: Record, d: nat)
      reads this`names, this`torn
    {
      var changed := PlansOf(base);
      && (torn <==> DiesTorn(changed, base.receiptBefore, d))
      && (Published(names, base) <==> ReceiptLinkedAt(changed, base.receiptBefore, d))
      && (Recognizable(names, base) <==> LinksKept(changed, d - CleanUpStep(changed, base.receiptBefore)))
    }

    /** Everything after the first revision. */
    method Execute(base: Record, ghost paths: set<string>) returns (p: Progress)
      requires At(base, base) && Claiming(names, bytes, base, 0) && Within(base, paths) && |chain| == 1
      modifies this`names, this`chain, this`torn, this`stepsLeft
      ensures !p.Refused?
      ensures p.Done? ==> chain == [] && !torn && AllAfter(names, base) && NoAuxiliaries(names, base)
      ensures p.Crashed? ==> Recoverable(base)
      ensures Outside(paths, old(names), names)
      ensures Spent(old(stepsLeft), stepsLeft, p, TotalSteps(PlansOf(base), base.receiptBefore) - PrepareSteps(PlansOf(base), base.receiptBefore) - 2)
      ensures p.Crashed? ==> old(stepsLeft).Some? && StoppedAt(base, PrepareSteps(PlansOf(base), base.receiptBefore) + 2 + old(stepsLeft).value)
    {
      hide At, Claiming, Replacing, Swapping, Safe, Settled, AllAfter, AllBefore, NoAuxiliaries, Published, SameTransaction, Within, Recognizable,
           AllPresent, ExchangeSteps, Originals, News, Recoverable, OnlyAuxiliariesRemoved, LinksKept, PlansOf, PrepareSteps, Auxiliaries,
           KindInExchange;
      var r, taken, verified, publishing;
      p, r, taken, verified, publishing := Exchange(base, paths);
      if p.IsFailure() {
        LinksAtEnds(PlansOf(base), old(stepsLeft).value - ExchangeSteps(PlansOf(base), base.receiptBefore));
        return;
      }
      AtExtends(base, r);
      SameOutcome(names, base, r);
      SwapIsSettled(names, bytes, r);
      SwappedAuxiliaries(names, bytes, r);
      ghost var settled := names;
      p := CleanUp(base, r, paths);
      RemovalKeepsOutcome(settled, names, bytes, r);
      SettledFacts(names, bytes, r);
      SameOutcome(names, base, r);
    }

    lemma SwapIsSettled(names: Names, bytes: Contents, r: Record)
      requires Swapping(names, bytes, r, NewReceipt)
      ensures Settled(names, bytes, r) && Published(names, r)
    {
    }

    /**
     * One transaction. It is refused exactly when the read set is not what the
     * plans were derived from. Otherwise it completes, or it dies having changed
     * nothing public, or it dies leaving a journal from which it is recoverable.
     */
    method Commit(transaction: nat, plans: seq<Plan>, receiptBefore: Option<Bytes>, receiptIdentity: Option<Ino>, receiptAfter: Bytes)
      returns (p: Progress, base: Record)
      requires Numbered() && Vacant(names) && chain == [] && !torn
      requires receiptBefore != Some(receiptAfter)
      modifies this
      ensures Grows(old(bytes), bytes) && Outside(PathsOf(Changed(plans)), old(names), names)
      ensures p.Refused? <==> Objectionable(old(names), old(bytes), plans, receiptBefore, receiptIdentity)
      ensures p.Refused? ==> names == old(names) && bytes == old(bytes) && chain == [] && !torn
      ensures p.Done? ==> chain == [] && !torn && PlansAfter(names, bytes, plans, receiptAfter) && NoAuxiliaries(names, base)
      ensures p.Crashed? && chain == [] ==> !torn && PlansBefore(names, plans, receiptIdentity)
      ensures p.Crashed? && chain != [] ==> Recoverable(base) && Faithful(base, bytes)
                                            && Describes(base, plans, receiptBefore, receiptIdentity, receiptAfter)
      ensures old(stepsLeft).None? ==> !p.Crashed? && stepsLeft.None?
      ensures !p.Refused? ==> Spent(old(stepsLeft), stepsLeft, p, TotalSteps(Changed(plans), receiptBefore))
      ensures p.Crashed? ==> old(stepsLeft).Some? && (chain == [] <==> old(stepsLeft).value <= PrepareSteps(Changed(plans), receiptBefore))
      ensures p.Crashed? && chain != [] ==> StoppedAt(base, old(stepsLeft).value)
      ensures p.Crashed? && old(stepsLeft).value <= PrepareSteps(Changed(plans), receiptBefore) + 1 ==> PlansBefore(names, plans, receiptIdentity)
    {
      hide Claiming, Safe, AllAfter, AllBefore, NoAuxiliaries, ReadSetCurrent, Objectionable, Faithful, PlansAfter, PlansBefore, Published, Describes,
           PrepareSteps, Originals, News, PathsOf, PlansOf, Vacant, Within, Recognizable, LinksKept,
           DiesTorn, ReceiptLinkedAt, CleanUpStep, TotalSteps;
      base := Record(receiptBefore, receiptIdentity, receiptAfter, 0, None, None, []);
      CurrentIff(names, bytes, plans, receiptBefore, receiptIdentity);
      if !ReadSetCurrent(names, bytes, plans, receiptBefore, receiptIdentity) {
        p := Refused;
        return;
      }
      CurrentIsDistinct(names, bytes, plans, receiptBefore, receiptIdentity);
      p, base := Begin(transaction, plans, Changed(plans), receiptBefore, receiptIdentity, receiptAfter);
      if p.IsFailure() {
        PublicUntouched(old(names), names, old(bytes), plans, receiptBefore, receiptIdentity);
        DeathFacts(Changed(plans), receiptBefore, old(stepsLeft).value);
        if chain != [] {
          DescribedWithin(base, plans, receiptBefore, receiptIdentity, receiptAfter);
          DescribedPlans(base, plans, receiptBefore, receiptIdentity, receiptAfter);
        }
        return;
      }
      DescribedWithin(base, plans, receiptBefore, receiptIdentity, receiptAfter);
      DescribedPlans(base, plans, receiptBefore, receiptIdentity, receiptAfter);
      p := Execute(base, PathsOf(Changed(plans)));
      OutcomeOfPlans(old(names), names, old(bytes), bytes, plans, base);
    }

    /**
     * A commit whose step `fault` after the first revision throws instead of dying, with the
     * handler that runs then. Everything is put back, unless the step was part of a revision,
     * or took the old receipt from its path: then the journal is kept for recovery.
     * Once the exchange is over nothing is undone any more.
     */
    method CommitOrAbort(transaction: nat, plans: seq<Plan>, receiptBefore: Option<Bytes>, receiptIdentity: Option<Ino>, receiptAfter: Bytes, fault: nat)
      returns (aftermath: Aftermath, ghost base: Record)
      requires Numbered() && Vacant(names) && chain == [] && !torn
      requires receiptBefore != Some(receiptAfter)
      modifies this
      ensures Outside(PathsOf(Changed(plans)), old(names), names)
      ensures aftermath.NotBegun? <==> Objectionable(old(names), old(bytes), plans, receiptBefore, receiptIdentity)
      ensures aftermath.NotBegun? ==> names == old(names) && bytes == old(bytes) && chain == [] && !torn
      ensures !aftermath.NotBegun? ==> (aftermath.Exchanged? <==> fault >= ExchangeSteps(Changed(plans), receiptBefore))
      ensures aftermath.Exchanged? ==> PlansAfter(names, bytes, plans, receiptAfter)
      ensures aftermath.RolledBack? ==> PlansBefore(names, plans, receiptIdentity) && chain == [] && !torn && NoAuxiliaries(names, base)
      ensures aftermath.RolledBack? || aftermath.Kept? ==> fault < ExchangeSteps(Changed(plans), receiptBefore)
      ensures aftermath.RolledBack? || aftermath.Kept? ==>
                (aftermath.RolledBack? <==>
                  && KindInExchange(Changed(plans), receiptBefore, fault).Move?
                  && !(receiptBefore.Some? && fault + 8 == ExchangeSteps(Changed(plans), receiptBefore)))
      ensures aftermath.Kept? ==> Recoverable(base) && Describes(base, plans, receiptBefore, receiptIdentity, receiptAfter)
      ensures aftermath.Kept? ==> (torn <==> KindInExchange(Changed(plans), receiptBefore, fault).SecondName?) && Recognizable(names, base)
    {
      hide Claiming, Swapping, Safe, AllAfter, AllBefore, NoAuxiliaries, ReadSetCurrent, Objectionable, Faithful, PlansAfter, PlansBefore, Published, Describes,
           PathsOf, PlansOf, Vacant, Within, Recognizable, ExchangeSteps, KindInExchange, At, Bound, PrepareSteps, Revisions, Settled, ValidChain;
      base := Record(receiptBefore, receiptIdentity, receiptAfter, 0, None, None, []);
      CurrentIff(names, bytes, plans, receiptBefore, receiptIdentity);
      if !ReadSetCurrent(names, bytes, plans, receiptBefore, receiptIdentity) {
        return NotBegun, base;
      }
      CurrentIsDistinct(names, bytes, plans, receiptBefore, receiptIdentity);
      stepsLeft := None;
      var p, first := Begin(transaction, plans, Changed(plans), receiptBefore, receiptIdentity, receiptAfter);
      base := first;
      ghost var begun := names;
      FirstInPlace(first);
      DescribedWithin(first, plans, receiptBefore, receiptIdentity, receiptAfter);
      DescribedPlans(first, plans, receiptBefore, receiptIdentity, receiptAfter);
      stepsLeft := Some(fault);
      var r, taken, verified, publishing;
      p, r, taken, verified, publishing := Exchange(first, PathsOf(Changed(plans)));
      KeepsOutside(PathsOf(Changed(plans)), old(names), begun, names);
      ghost var failed := names;
      stepsLeft := None;
      if p.Done? {
        SwapIsSettled(names, bytes, r);
        SettledFacts(names, bytes, r);
        AtExtends(first, r);
        SameOutcome(names, first, r);
        OutcomeOfPlans(old(names), names, old(bytes), bytes, plans, first);
        return Exchanged, base;
      }
      if publishing {
        return Kept, base;
      }
      AtExtends(first, r);
      SameOutcome(names, first, r);
      p := Abort(first, r, false, taken, verified, PathsOf(Changed(plans)));
      KeepsOutside(PathsOf(Changed(plans)), old(names), failed, names);
      SameOutcome(names, first, r);
      OutcomeOfPlans(old(names), names, old(bytes), bytes, plans, first);
      aftermath := if p.Done? then RolledBack else Kept;
    }

    lemma FirstInPlace(base: Record)
      requires At(base, base)
      ensures chain != []
    {
    }

    lemma PublicUntouched(names0: Names, names: Names, bytes0: Contents, plans: seq<Plan>, receiptBefore: Option<Bytes>, receiptIdentity: Option<Ino>)
      requires ReadSetCurrent(names0, bytes0, plans, receiptBefore, receiptIdentity)
      requires forall n | !IsAuxiliary(n) :: IdentityAt(names, n) == IdentityAt(names0, n)
      ensures PlansBefore(names, plans, receiptIdentity)
    {
      assert IdentityAt(names, Receipt) == IdentityAt(names0, Receipt);
      forall i | 0 <= i < |plans| ensures Bound(names, Live(plans[i].path), plans[i].beforeIdentity) {
        assert PlanCurrent(names0, bytes0, plans[i]);
        assert IdentityAt(names, Live(plans[i].path)) == IdentityAt(names0, Live(plans[i].path));
      }
    }

    lemma DescribedByHead(base: Record, head: Record, plans: seq<Plan>)
      requires Describes(base, plans, base.receiptBefore, base.receiptBeforeIdentity, base.receiptAfter) && SameTransaction(base, head)
      ensures Describes(head, plans, head.receiptBefore, head.receiptBeforeIdentity, head.receiptAfter)
      ensures head.receiptBefore == base.receiptBefore && head.receiptBeforeIdentity == base.receiptBeforeIdentity
    {
      forall i | 0 <= i < |base.files| ensures FileDescribes(head.files[i], Changed(plans)[i]) {
        assert SameFile(base.files[i], head.files[i]) && FileDescribes(base.files[i], Changed(plans)[i]);
      }
    }

    lemma CommittedIsAfter(names: Names, r: Record)
      requires Committed(names, r)
      ensures AllAfter(names, r)
    {
    }

    /** What a journal that recovery refuses still says about every plan. */
    lemma StuckMeans(names0: Names, names: Names, bytes0: Contents, bytes: Contents, plans: seq<Plan>, base: Record, revisions: seq<Revision>)
      requires ReadSetCurrent(names0, bytes0, plans, base.receiptBefore, base.receiptBeforeIdentity)
      requires Describes(base, plans, base.receiptBefore, base.receiptBeforeIdentity, base.receiptAfter)
      requires Outside(PathsOf(Changed(plans)), names0, names)
      requires ValidChain(revisions) && revisions[0].record == base && Safe(names, bytes, Head(revisions).record)
      ensures if Published(names, base) then AllAfter(names, base) else NothingLost(names, bytes, plans, base.receiptBeforeIdentity)
    {
      hide Outside, ReadSetCurrent, Restorable, NothingLost, Faithful, Describes, Judge, Safe, AllAfter, AllBefore, Committed, Published,
           SameTransaction, Recognizable, NoAuxiliaries, Within;
      var head := Head(revisions).record;
      ChainKeepsRecords(revisions, 0, |revisions| - 1);
      SameOutcome(names, base, head);
      JudgeSafe(names, bytes, head);
      SafeFacts(names, bytes, head);
      if Published(names, base) {
        CommittedIsAfter(names, head);
      } else {
        DescribedByHead(base, head, plans);
        RestorableLosesNothing(names0, names, bytes0, bytes, plans, head);
      }
    }

    /** A transaction that writes no file is always recognized. */
    lemma RecognizedWithout(base: Record, plans: seq<Plan>)
      requires Describes(base, plans, base.receiptBefore, base.receiptBeforeIdentity, base.receiptAfter)
      ensures !Leaves(plans) ==> forall names: Names :: Recognizable(names, base)
    {
      if !Leaves(plans) {
        forall i | 0 <= i < |base.files| ensures base.files[i].after.None? {
          assert FileDescribes(base.files[i], Changed(plans)[i]) && Changed(plans)[i] in Changed(plans);
        }
      }
    }

    /** A death before the journal exists is neither torn nor late, one between the first two names is torn, and links go only after the receipt. */
    lemma DeathFacts(changed: seq<Plan>, receiptBefore: Option<Bytes>, d: nat)
      ensures d <= PrepareSteps(changed, receiptBefore) ==> EndingAt(changed, receiptBefore, Some(d)).Undone?
      ensures !LinksKept(changed, d - CleanUpStep(changed, receiptBefore)) ==> ReceiptLinkedAt(changed, receiptBefore, d)
      ensures PrepareSteps(changed, receiptBefore) + 2 < TotalSteps(changed, receiptBefore)
      ensures d == PrepareSteps(changed, receiptBefore) + 1 ==>
                && DiesTorn(changed, receiptBefore, d)
                && !ReceiptLinkedAt(changed, receiptBefore, d) && LinksKept(changed, d - CleanUpStep(changed, receiptBefore))
    {
      LinksAtEnds(changed, d - CleanUpStep(changed, receiptBefore));
    }

    lemma OutcomeSeen(names: Names, bytes: Contents, base: Record)
      requires Faithful(base, bytes)
      ensures AllAfter(names, base) ==> ContentAt(names, bytes, Receipt) == Some(base.receiptAfter)
      ensures AllBefore(names, base) ==> ContentAt(names, bytes, Receipt) != Some(base.receiptAfter)
    {
    }

    lemma DescribedWithin(r: Record, plans: seq<Plan>, receiptBefore: Option<Bytes>, receiptIdentity: Option<Ino>, receiptAfter: Bytes)
      requires Describes(r, plans, receiptBefore, receiptIdentity, receiptAfter)
      ensures Within(r, PathsOf(Changed(plans)))
      ensures r.receiptBefore == receiptBefore && r.receiptBeforeIdentity == receiptIdentity && r.receiptAfter == receiptAfter
    {
    }

    /**
     * All or nothing. Whatever the step at which the commit dies, and however
     * often recovery dies after it, what is left is every plan and the receipt
     * as before, or every plan and the receipt as intended; a run that never
     * dies applies them. The exceptions are a death between the two names of a
     * journal revision, after which no original is lost, and one in the cleanup
     * of a published transaction once a prepared link is gone; recovery then
     * refuses and changes nothing. `EndingAt` says which step leads where.
     */
    method Transact(transaction: nat, plans: seq<Plan>, receiptBefore: Option<Bytes>, receiptIdentity: Option<Ino>, receiptAfter: Bytes,
                    death: Option<nat>, deaths: seq<nat>)
      returns (ending: Ending)
      requires Numbered() && Vacant(names) && chain == [] && !torn
      requires receiptBefore != Some(receiptAfter)
      modifies this
      ensures Outside(PathsOf(Changed(plans)), old(names), names)
      ensures ending.Rejected? <==> Objectionable(old(names), old(bytes), plans, receiptBefore, receiptIdentity)
      ensures ending.Rejected? ==> names == old(names) && bytes == old(bytes)
      ensures ending.Applied? ==> PlansAfter(names, bytes, plans, receiptAfter)
      ensures ending.Undone? ==> PlansBefore(names, plans, receiptIdentity)
      ensures ending.Stuck? ==> PlansAfter(names, bytes, plans, receiptAfter) || (torn && NothingLost(names, bytes, plans, receiptIdentity))
      ensures ending.Stuck? && !torn ==> Leaves(plans)
      // the ending is decided by the step at which the commit dies, unless a recovery dies as well and leaves the volume stuck
      ensures !ending.Rejected? ==> ending == EndingAt(Changed(plans), receiptBefore, death) || (ending.Stuck? && deaths != [])
      ensures !ending.Rejected? && EndingAt(Changed(plans), receiptBefore, death).Stuck? ==>
                ending.Stuck? && (torn <==> DiesTorn(Changed(plans), receiptBefore, death.value))
      ensures !ending.Rejected? && death == Some(PrepareSteps(Changed(plans), receiptBefore) + 1) ==> PlansBefore(names, plans, receiptIdentity)
      ensures !ending.Stuck? ==> chain == [] && !torn
      ensures death.None? ==> ending.Rejected? || ending.Applied?
    {
      hide Safe, AllAfter, AllBefore, NoAuxiliaries, ReadSetCurrent, Objectionable, Faithful, PlansAfter, PlansBefore, Describes, Published, Recognizable, Within,
           NothingLost, Leaves, PrepareSteps, CleanUpStep, TotalSteps, DiesTorn, LinksKept, ReceiptLinkedAt, PathsOf, PlansOf;
      CurrentIff(names, bytes, plans, receiptBefore, receiptIdentity);
      stepsLeft := death;
      if death.Some? {
        DeathFacts(Changed(plans), receiptBefore, death.value);
      }
      var p, base := Commit(transaction, plans, receiptBefore, receiptIdentity, receiptAfter);
      match p {
        case Refused => ending := Rejected;
        case Done => ending := Applied;
        case Crashed =>
          if chain == [] {
            ending := Undone;
          } else {
            DescribedWithin(base, plans, receiptBefore, receiptIdentity, receiptAfter);
            DescribedPlans(base, plans, receiptBefore, receiptIdentity, receiptAfter);
            RecognizedWithout(base, plans);
            assert torn <==> DiesTorn(Changed(plans), receiptBefore, death.value);
            assert Recognizable(names, base) <==> LinksKept(Changed(plans), death.value - CleanUpStep(Changed(plans), receiptBefore));
            p := RecoverRepeatedly(base, deaths, PathsOf(Changed(plans)));
            OutcomeOfPlans(old(names), names, old(bytes), bytes, plans, base);
            if p.Refused? {
              StuckMeans(old(names), names, old(bytes), bytes, plans, base, chain);
              ending := Stuck;
            } else {
              ending := if ContentAt(names, bytes, Receipt) == Some(receiptAfter) then Applied else Undone;
              OutcomeSeen(names, bytes, base);
            }
          }
      }
    }
  }

  /** A first installation: no receipt yet, and nothing at any planned path. */
  method FirstInstall(names: Names, bytes: Contents, nextIno: Ino, plans: seq<Plan>, receiptAfter: Bytes) returns (volume: Volume, ending: Ending)
    requires (forall i | i in bytes :: i < nextIno) && Vacant(names) && Receipt !in names
    requires forall a, b | 0 <= a < b < |plans| :: plans[a].path != plans[b].path
    requires forall p | p in plans :: p.before.None? && p.beforeIdentity.None? && Live(p.path) !in names
    ensures fresh(volume) && ending.Applied? && PlansAfter(volume.names, volume.bytes, plans, receiptAfter)
  {
    volume := new Volume(names, bytes, nextIno);
    ending := volume.Transact(0, plans, None, None, receiptAfter, None, []);
  }

  /** An update: the receipt is there and is going to change, and every planned file is there as the plan says. */
  method Update(names: Names, bytes: Contents, nextIno: Ino, plans: seq<Plan>, receiptAfter: Bytes) returns (volume: Volume, ending: Ending)
    requires (forall i | i in bytes :: i < nextIno) && Vacant(names)
    requires Receipt in names && names[Receipt] in bytes && bytes[names[Receipt]] != receiptAfter
    requires forall a, b | 0 <= a < b < |plans| :: plans[a].path != plans[b].path
    requires forall p | p in plans :: Live(p.path) in names && p.beforeIdentity == Some(names[Live(p.path)])
    requires forall p | p in plans :: names[Live(p.path)] in bytes && p.before == Some(bytes[names[Live(p.path)]])
    ensures fresh(volume) && ending.Applied? && PlansAfter(volume.names, volume.bytes, plans, receiptAfter)
  {
    volume := new Volume(names, bytes, nextIno);
    ending := volume.Transact(0, plans, Some(bytes[names[Receipt]]), Some(names[Receipt]), receiptAfter, None, []);
  }
}
