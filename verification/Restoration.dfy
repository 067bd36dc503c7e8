/**
 * From a restore onward: suspended inputs stay covered until their draft is observed or
 * resumed, resumption swaps the cover in one commit, and nothing moves before a sync.
 */
module Restoration {
  import opened Wrappers
  import opened Psbts
  import opened Tables
  import opened Operations
  import opened Chainsync
  import opened Recovery
  import opened Commits
  import opened Ownership
  import opened Holds
  import opened Rows
  import opened Submissions
  import opened StoreInvariant
  import opened Protocol

  // ---- Covered until released ----

  /** Seen on chain, or re-approved by the user with its inputs reserved again. */
  ghost predicate Released(before: Db, after: Db, op: Op, id: DraftId) {
    && id in after.drafts && id in before.drafts
    && match op
       case Sync(_, _) => after.drafts[id].review.state == Observed
       case Reapprove(resumed, _, _, _) =>
         && resumed == id && after.drafts[id] == WithState(before.drafts[id], Finalized)
         && OwnsInputs(after.reservations, after.drafts[id].review, id)
       case _ => false
  }

  lemma {:induction false} OtherTurnsKeep(env: Env, db: Db, chain: Chain, order: seq<DraftId>, id: DraftId)
    requires forall i :: 0 <= i < |order| ==> order[i] in db.drafts
    requires id in db.drafts && id !in order && SyncDrafts(env, db, chain, order).Ok?
    ensures var after := SyncDrafts(env, db, chain, order).value;
      after.drafts[id] == db.drafts[id] && (id in after.recovered <==> id in db.recovered)
    decreases |order|
  {
    hide SyncDraft;
    if order != [] {
      SyncDraftShape(env, db, chain, order[0]);
      SyncDraftOutcome(env, db, chain, order[0]);
      OtherTurnsKeep(env, SyncDraft(env, db, chain, order[0]).value, chain, order[1..], id);
    }
  }

  lemma {:induction false} SyncHoldsOrObserves(env: Env, db: Db, chain: Chain, order: seq<DraftId>, id: DraftId)
    requires forall i :: 0 <= i < |order| ==> order[i] in db.drafts
    requires forall i, j :: 0 <= i < j < |order| ==> order[i] != order[j]
    requires id in db.drafts && id in db.recovered && SyncDrafts(env, db, chain, order).Ok?
    ensures var after := SyncDrafts(env, db, chain, order).value;
      id in after.recovered || after.drafts[id].review.state == Observed
    decreases |order|
  {
    hide SyncDraft;
    if order != [] {
      var next := SyncDraft(env, db, chain, order[0]).value;
      SyncDraftOutcome(env, db, chain, order[0]);
      if order[0] == id && id !in next.recovered {
        OtherTurnsKeep(env, next, chain, order[1..], id);
      } else {
        SyncHoldsOrObserves(env, next, chain, order[1..], id);
      }
    }
  }

  lemma SyncCommitHolds(env: Env, db: Db, chain: Chain, order: seq<DraftId>, id: DraftId)
    requires Enumerates(order, db.drafts) && ApplySync(env, db, chain, order).Ok?
    requires id in db.drafts && id in db.recovered
    ensures var after := ApplySync(env, db, chain, order).value;
      && id in after.drafts && (id in after.recovered || after.drafts[id].review.state == Observed)
  {
    hide SyncDrafts;
    SyncHoldsOrObserves(env, db, chain, order, id);
  }

  lemma RecoveredIsSubmitted(db: Db, id: DraftId)
    requires HoldsCover(db) && id in db.recovered
    ensures id in db.drafts && Submitted(db.attempts, id)
  {
    assert IsSuspended(db, id);
  }

  lemma ResumeOwns(env: Env, db: Db, id: DraftId, txid: Txid, attempt: nat, acknowledged: bool)
    requires Resume(env, db, id, txid, attempt, acknowledged).Ok?
    ensures var after := Resume(env, db, id, txid, attempt, acknowledged).value.0;
      && id in db.drafts && id in after.drafts && after.drafts[id] == WithState(db.drafts[id], Finalized)
      && OwnsInputs(after.reservations, after.drafts[id].review, id)
  {
    ResumeShape(env, db, id, txid, attempt, acknowledged);
    hide Resume, HoldsWithout;
    assert LoadDraft(env, Rewritten(db, id), id).Ok? by {
      hide LoadDraft;
    }
    hide LoadDraft;
    LoadedInputs(env, Rewritten(db, id), id);
  }

  /** One commit either keeps a suspended submission suspended or releases it. */
  lemma CommitHoldsOrReleases(env: Env, db: Db, op: Op, id: DraftId)
    requires HoldsCover(db) && id in db.recovered
    ensures id in Apply(env, db, op).recovered || Released(db, Apply(env, db, op), op, id)
  {
    RecoveredIsSubmitted(db, id);
    if Commit(env, db, op).Ok? {
      match op
      case Create(request, target, proposal) =>
        CreateShape(env, db, request, target, proposal);
        hide CreateDraft, Submitted, HoldsCover;
      case Discard(other) => hide Submitted, ReleaseOf, HoldsWithout, HoldsCover;
      case Freeze(_, _) =>
      case Tag(_, _, _) => hide ValidLabel;
      case Accept(other, response) =>
        AcceptShape(env, db, other, response);
        hide AcceptSigned, Submitted;
      case Finalise(other) =>
        FinaliseShape(env, db, other);
        hide FinalizeDraft, Submitted;
      case Insert(submission, approved) =>
        InsertShape(env, db, submission, approved);
        hide InsertAttempt;
      case Reply(attempt, draft) =>
      case Sync(chain, order) =>
        assert Enumerates(order, db.drafts);
        SyncCommitHolds(env, db, chain, order, id);
        hide ApplySync, Enumerates;
      case Reapprove(other, txid, attempt, acknowledged) =>
        ResumeShape(env, db, other, txid, attempt, acknowledged);
        ResumeOwns(env, db, other, txid, attempt, acknowledged);
        hide Resume, Submitted, OwnsInputs, Rewritten;
    }
  }

  /** The first commit of a run that releases the draft, if any does. */
  ghost predicate ReleasedWithin(env: Env, db: Db, ops: seq<Op>, id: DraftId)
    decreases |ops|
  {
    ops != [] &&
    (Released(db, Apply(env, db, ops[0]), ops[0], id) || ReleasedWithin(env, Apply(env, db, ops[0]), ops[1..], id))
  }

  /** Until a commit observes or resumes it, no input of a suspended submission is ever offered for spending. */
  lemma {:induction false} HeldUntilReleased(env: Env, db: Db, ops: seq<Op>, id: DraftId)
    requires HoldsCover(db) && id in db.recovered && !ReleasedWithin(env, db, ops, id)
    ensures var after := Run(env, db, ops);
      && id in after.recovered && id in after.drafts
      && forall op :: op in OutPoints(after.drafts[id].review) ==> !IsAvailable(env, after, op)
    decreases |ops|
  {
    hide HoldsCover, Apply, Released, Status;
    if ops == [] {
      RecoveredIsSubmitted(db, id);
      forall op | op in OutPoints(db.drafts[id].review) ensures !IsAvailable(env, db, op) {
        HeldIsNotAvailable(env, db, id, op);
      }
    } else {
      CommitHoldsOrReleases(env, db, ops[0], id);
      CommitKeepsHolds(env, db, ops[0]);
      HeldUntilReleased(env, Apply(env, db, ops[0]), ops[1..], id);
    }
  }

  /** Restoring any backup puts every submitted draft under that protection. */
  lemma RestoredIsHeld(env: Env, backup: Db, order: seq<DraftId>, ops: seq<Op>, id: DraftId)
    requires Enumerates(order, backup.drafts) && Suspend(env, backup, order).Ok?
    requires id in backup.drafts && Submitted(backup.attempts, id)
    requires !ReleasedWithin(env, Suspend(env, backup, order).value, ops, id)
    ensures var after := Run(env, Suspend(env, backup, order).value, ops);
      && id in after.drafts
      && forall op :: op in OutPoints(after.drafts[id].review) ==> !IsAvailable(env, after, op)
  {
    hide Suspend, HoldsCover, Owned, Apply, ReleasedWithin, Status, Run, Submitted;
    RestoreSuspends(env, backup, order);
    HeldUntilReleased(env, Suspend(env, backup, order).value, ops, id);
  }

  // ---- Resumption ----

  /** The draft's holds become its reservations; no other draft's row changes. */
  ghost predicate CoverSwapped(before: Db, after: Db, id: DraftId)
    requires id in before.drafts
  {
    && (forall outpoint :: outpoint in after.reservations <==>
          outpoint in before.reservations || outpoint in OutPoints(before.drafts[id].review))
    && (forall outpoint :: outpoint in after.reservations ==>
          after.reservations[outpoint] ==
            if outpoint in OutPoints(before.drafts[id].review) then id else before.reservations[outpoint])
    && after.holds == HoldsWithout(before.holds, id)
    && after == before.(drafts := before.drafts[id := WithState(before.drafts[id], Finalized)],
                        reservations := after.reservations, holds := after.holds, recovered := before.recovered - {id})
  }

  /**
   * A resumption swaps the draft's holds for its reservations in one commit; a refused one,
   * although it had already written, changes nothing.
   */
  lemma ResumeSwapsCover(env: Env, db: Db, id: DraftId, txid: Txid, attempt: nat, acknowledged: bool)
    ensures var after := Apply(env, db, Op.Reapprove(id, txid, attempt, acknowledged));
      if Resume(env, db, id, txid, attempt, acknowledged).Ok? then
        && id in db.drafts && id in db.finalized && CoverSwapped(db, after, id)
        && acknowledged && LatestId(db.attempts, id) == Some(attempt)
        && txid == ComputeTxid(env.crypto, db.finalized[id])
      else after == db
  {
    hide ComputeTxid, LatestId, CoverSwapped, Resume;
    if Resume(env, db, id, txid, attempt, acknowledged).Ok? {
      ResumeNamesLatest(env, db, id, txid, attempt, acknowledged);
      ResumeCover(env, db, id, txid, attempt, acknowledged);
    }
  }

  lemma ResumeCover(env: Env, db: Db, id: DraftId, txid: Txid, attempt: nat, acknowledged: bool)
    requires Resume(env, db, id, txid, attempt, acknowledged).Ok?
    ensures id in db.drafts && CoverSwapped(db, Resume(env, db, id, txid, attempt, acknowledged).value.0, id)
  {
    ResumeShape(env, db, id, txid, attempt, acknowledged);
    ResumeOwns(env, db, id, txid, attempt, acknowledged);
    hide Resume, HoldsWithout, ValidatedFinalized, Rewritten, OwnsInputs, CoverSwapped;
    RewrittenCover(db, Resume(env, db, id, txid, attempt, acknowledged).value.0, id);
  }

  lemma RewrittenCover(db: Db, after: Db, id: DraftId)
    requires id in db.drafts
    requires after == Rewritten(db, id).(recovered := db.recovered - {id}, holds := HoldsWithout(db.holds, id))
    requires OwnsInputs(after.reservations, db.drafts[id].review, id) || OwnsInputs(after.reservations, after.drafts[id].review, id)
    ensures CoverSwapped(db, after, id)
  {
    hide HoldsWithout;
    assert OutPoints(after.drafts[id].review) == OutPoints(db.drafts[id].review);
  }

  lemma ResumeNamesLatest(env: Env, db: Db, id: DraftId, txid: Txid, attempt: nat, acknowledged: bool)
    requires Resume(env, db, id, txid, attempt, acknowledged).Ok?
    ensures acknowledged && LatestId(db.attempts, id) == Some(attempt)
    ensures id in db.finalized && txid == ComputeTxid(env.crypto, db.finalized[id])
  {
    ResumeShape(env, db, id, txid, attempt, acknowledged);
    ValidatedForInsert(env, Rewritten(db, id), id);
    hide ValidatedFinalized, Rewritten, HoldsWithout, ComputeTxid, Balanced;
  }

  /**
   * Writing the resumed rows keeps ownership exactly when no other draft already holds one
   * of the inputs. The rows are kept by `INSERT OR IGNORE`, so this is not checked there.
   */
  lemma RewriteIsSafeExactly(db: Db, id: DraftId)
    requires Owned(db.drafts, db.reservations) && id in db.drafts
    ensures Owned(Rewritten(db, id).drafts, Rewritten(db, id).reservations) <==>
      forall op :: op in OutPoints(db.drafts[id].review) && op in db.reservations ==> db.reservations[op] == id
  {
    var written := Rewritten(db, id);
    assert OutPoints(written.drafts[id].review) == OutPoints(db.drafts[id].review);
    assert Owned(written.drafts, written.reservations) ==> OwnsInputs(written.reservations, written.drafts[id].review, id);
    if forall op :: op in OutPoints(db.drafts[id].review) && op in db.reservations ==> db.reservations[op] == id {
      RewrittenKeeps(db, id);
    }
  }

  /** The unsafe cases are refused by the validation that follows the writes. */
  lemma ForeignOwnerIsRefused(env: Env, db: Db, id: DraftId, op: OutPoint)
    requires id in db.drafts && op in OutPoints(db.drafts[id].review)
    requires op in db.reservations && db.reservations[op] != id
    ensures forall txid, attempt, acknowledged :: Resume(env, db, id, txid, attempt, acknowledged).Err?
  {
    forall txid, attempt, acknowledged ensures Resume(env, db, id, txid, attempt, acknowledged).Err? {
      if Resume(env, db, id, txid, attempt, acknowledged).Ok? {
        ResumeShape(env, db, id, txid, attempt, acknowledged);
        ResumeOwns(env, db, id, txid, attempt, acknowledged);
        hide Resume, HoldsWithout;
        assert false;
      }
    }
  }

  lemma SharedInputOwned(env: Env, db: Db, a: DraftId, b: DraftId, op: OutPoint, txid: Txid, attempt: nat)
    requires StoreOk(env, db) && a != b && a in db.recovered && b in db.recovered
    requires op in OutPoints(db.drafts[a].review) && op in OutPoints(db.drafts[b].review)
    requires Resume(env, db, a, txid, attempt, true).Ok?
    ensures var after := Apply(env, db, Op.Reapprove(a, txid, attempt, true));
      && StoreOk(env, after) && Owned(after.drafts, after.reservations) && b in after.recovered && b in after.drafts
      && op in OutPoints(after.drafts[b].review) && op in after.reservations && after.reservations[op] == a
  {
    RecoveredIsSubmitted(db, a);
    RecoveredIsSubmitted(db, b);
    hide *;
    var step := Op.Reapprove(a, txid, attempt, true);
    var after := Apply(env, db, step);
    CommitKeepsStore(env, db, step);
    ResumeSwapsCover(env, db, a, txid, attempt, true);
    SwappedOwner(db, after, a, b, op);
    StoreOwns(env, after);
  }

  /**
   * The unsafe case is real: when two suspended submissions share an input and one is
   * resumed, the store stays sound, the other's rows would break ownership, and every
   * attempt to resume it is refused.
   */
  lemma SharedInputBlocks(env: Env, db: Db, a: DraftId, b: DraftId, op: OutPoint, txid: Txid, attempt: nat)
    requires StoreOk(env, db) && a != b && a in db.recovered && b in db.recovered
    requires op in OutPoints(db.drafts[a].review) && op in OutPoints(db.drafts[b].review)
    requires Resume(env, db, a, txid, attempt, true).Ok?
    ensures var after := Apply(env, db, Op.Reapprove(a, txid, attempt, true));
      && StoreOk(env, after) && b in after.recovered && b in after.drafts
      && op in OutPoints(after.drafts[b].review) && op in after.reservations && after.reservations[op] == a
      && !Owned(Rewritten(after, b).drafts, Rewritten(after, b).reservations)
      && forall t, n, acknowledged :: Resume(env, after, b, t, n, acknowledged).Err?
  {
    RecoveredIsSubmitted(db, a);
    RecoveredIsSubmitted(db, b);
    hide *;
    var after := Apply(env, db, Op.Reapprove(a, txid, attempt, true));
    SharedInputOwned(env, db, a, b, op, txid, attempt);
    ForeignOwnerIsRefused(env, after, b, op);
    RewriteIsSafeExactly(after, b);
  }

  lemma StoreOwns(env: Env, db: Db)
    requires StoreOk(env, db)
    ensures Owned(db.drafts, db.reservations)
  {
  }

  lemma SwappedOwner(before: Db, after: Db, a: DraftId, b: DraftId, op: OutPoint)
    requires a in before.drafts && b in before.drafts && a != b && CoverSwapped(before, after, a)
    requires op in OutPoints(before.drafts[a].review)
    ensures b in after.drafts && after.drafts[b] == before.drafts[b] && after.recovered == before.recovered - {a}
    ensures op in after.reservations && after.reservations[op] == a
  {
    hide OutPoints, HoldsWithout;
  }

  /** Two drafts list one coin; the unsigned one reserves it, the other is invalidated. */
  function SharedCoin(a: DraftId, b: DraftId, op: OutPoint, psbt: Psbt): Db {
    var review := Review(a, [ReviewedInput(op, 1000, "")], [], 1000, "", false, Unsigned);
    EMPTY.(
      drafts := map[a := Draft(psbt, review), b := Draft(psbt, review.(id := b, state := Invalidated))],
      reservations := map[op := a])
  }

  lemma SharedCoinIsOwned(a: DraftId, b: DraftId, op: OutPoint, psbt: Psbt)
    requires a != b
    ensures var db := SharedCoin(a, b, op, psbt);
      OutPoints(db.drafts[a].review) == {op} == OutPoints(db.drafts[b].review) && Owned(db.drafts, db.reservations)
  {
    var db := SharedCoin(a, b, op, psbt);
    assert db.drafts[a].review.inputs[0].outpoint == op && db.drafts[b].review.inputs[0].outpoint == op;
    assert OutPoints(db.drafts[a].review) == {op} && OutPoints(db.drafts[b].review) == {op};
  }

  lemma SharedCoinIsSound(env: Env, a: DraftId, b: DraftId, op: OutPoint, psbt: Psbt)
    requires a != b
    ensures StoreOk(env, SharedCoin(a, b, op, psbt))
  {
    SharedCoinIsOwned(a, b, op, psbt);
    hide Owned, OutPoints, Balanced, FinalFor, ComputeTxid;
  }

  /** A sound store with a foreign owner exists for every wallet, and there the rewritten rows break ownership. */
  lemma ForeignOwnerExists(env: Env, a: DraftId, b: DraftId, op: OutPoint, psbt: Psbt)
    requires a != b
    ensures var db := SharedCoin(a, b, op, psbt);
      && StoreOk(env, db) && op in OutPoints(db.drafts[b].review) && db.reservations[op] == a
      && !Owned(Rewritten(db, b).drafts, Rewritten(db, b).reservations)
  {
    SharedCoinIsSound(env, a, b, op, psbt);
    SharedCoinIsOwned(a, b, op, psbt);
    hide StoreOk, Owned, OutPoints, Rewritten;
    RewriteIsSafeExactly(SharedCoin(a, b, op, psbt), b);
  }

  // ---- Before the first sync ----

  /** No reservation, final transaction or attempt that was not there before; only acknowledgements may arrive. */
  ghost predicate NothingNew(before: Db, after: Db) {
    && !after.synced
    && after.reservations.Keys <= before.reservations.Keys
    && after.finalized.Keys <= before.finalized.Keys
    && |after.attempts| == |before.attempts| && Grown(before.attempts, after.attempts)
    && (forall id :: id in after.drafts ==> id in before.drafts && after.drafts[id] == before.drafts[id])
  }

  lemma LoadNeedsSync(env: Env, db: Db, id: DraftId)
    requires !db.synced
    ensures LoadDraft(env, db, id) == Err(Unavailable)
  {
  }

  lemma UnsyncedIsRefused(env: Env, db: Db)
    requires !db.synced
    ensures forall request, target, proposal :: CreateDraft(env, db, request, target, proposal).Err?
    ensures forall id, response :: AcceptSigned(env, db, id, response).Err?
    ensures forall id :: FinalizeDraft(env, db, id).Err?
    ensures forall request, approved :: InsertAttempt(env, db, request, approved).Err?
    ensures forall request :: BeginBroadcast(env, db, request).Err?
    ensures forall id, txid, attempt, acknowledged :: Resume(env, db, id, txid, attempt, acknowledged).Err?
  {
    forall id ensures LoadDraft(env, db, id) == Err(Unavailable) {
      LoadNeedsSync(env, db, id);
    }
    forall id, txid, attempt, acknowledged ensures Resume(env, db, id, txid, attempt, acknowledged).Err? {
      if Resume(env, db, id, txid, attempt, acknowledged).Ok? {
        ResumeShape(env, db, id, txid, attempt, acknowledged);
        LoadNeedsSync(env, Rewritten(db, id), id);
        hide Resume, LoadDraft, HoldsWithout;
        assert false;
      }
    }
    hide LoadDraft, Resume, CheckSelection, CheckPayment, ReviewProposal, Reserve, CheckPrevious;
  }

  lemma UnsyncedCommit(env: Env, db: Db, op: Op)
    requires !db.synced && !op.Sync?
    ensures NothingNew(db, Apply(env, db, op))
  {
    hide CreateDraft, AcceptSigned, FinalizeDraft, InsertAttempt, BeginBroadcast, Resume, Submitted, HoldsWithout, ValidLabel;
    UnsyncedIsRefused(env, db);
  }

  lemma NothingNewIsTransitive(a: Db, b: Db, c: Db)
    requires NothingNew(a, b) && NothingNew(b, c)
    ensures NothingNew(a, c)
  {
  }

  predicate Quiet(step: Step) {
    !step.Restore? && !(step.Change? && step.op.Sync?)
  }

  lemma QuietStep(env: Env, s: System, step: Step)
    requires !s.db.synced && s.callers == map[] && Quiet(step)
    ensures var after := Next(env, s, step);
      && NothingNew(s.db, after.db)
      && after.callers == map[] && after.posts == s.posts && after.log == s.log
  {
    hide Apply, BeginBroadcast, InsertAttempt;
    match step
    case Begin(caller, request) => UnsyncedIsRefused(env, s.db);
    case Change(op) => UnsyncedCommit(env, s.db, op);
    case _ =>
  }

  /** However callers interleave after a restore, nothing is reserved, finalized, recorded or sent before a sync. */
  lemma {:induction false} QuietBeforeSync(env: Env, s: System, steps: seq<Step>)
    requires !s.db.synced && s.callers == map[] && forall i :: 0 <= i < |steps| ==> Quiet(steps[i])
    ensures var after := RunSteps(env, s, steps);
      && NothingNew(s.db, after.db)
      && after.callers == map[] && after.posts == s.posts && after.log == s.log
    decreases |steps|
  {
    hide Next, Quiet, NothingNew;
    if steps == [] {
      assert NothingNew(s.db, s.db) by { ReflexivelyNothing(s.db); }
    } else {
      var next := Next(env, s, steps[0]);
      QuietStep(env, s, steps[0]);
      assert !next.db.synced by { NothingMeansUnsynced(s.db, next.db); }
      QuietBeforeSync(env, next, steps[1..]);
      NothingNewIsTransitive(s.db, next.db, RunSteps(env, next, steps[1..]).db);
    }
  }

  lemma ReflexivelyNothing(db: Db)
    requires !db.synced
    ensures NothingNew(db, db)
  {
  }

  lemma NothingMeansUnsynced(before: Db, after: Db)
    requires NothingNew(before, after)
    ensures !after.synced
  {
  }

  lemma RestoredIsQuiet(env: Env, s: System, n: nat, order: seq<DraftId>, steps: seq<Step>)
    requires n < |s.backups| && Enumerates(order, s.backups[n].drafts) && Suspend(env, s.backups[n], order).Ok?
    requires forall i :: 0 <= i < |steps| ==> Quiet(steps[i])
    ensures var after := RunSteps(env, RestoreFrom(env, s, n, order), steps);
      && after.posts == [] && after.log == [] && after.callers == map[]
      && after.db.reservations == map[] && after.db.finalized.Keys <= s.backups[n].finalized.Keys
      && |after.db.attempts| == |s.backups[n].attempts|
      && (forall id :: id in after.db.drafts ==> after.db.drafts[id].review.state == Invalidated)
  {
    hide Suspend, Enumerates, Owned, HoldsCover, Submitted, Quiet, RunSteps;
    RestoreSuspends(env, s.backups[n], order);
    QuietBeforeSync(env, RestoreFrom(env, s, n, order), steps);
  }
}
