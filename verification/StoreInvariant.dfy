/** Everything that holds of one store after any run of committed operations. */
module StoreInvariant {
  import opened Wrappers
  import opened Psbts
  import opened Tables
  import opened Operations
  import opened Chainsync
  import opened Recovery
  import opened Commits
  import opened Ownership
  import opened Holds
  import opened Rows
  import opened Submissions
  import Finalizer

  ghost predicate ObservedAreRetired(db: Db) {
    forall id :: id in db.drafts && db.drafts[id].review.state == Observed ==> Retired(db, id)
  }

  ghost predicate StoreOk(env: Env, db: Db) {
    && Owned(db.drafts, db.reservations)
    && HoldsCover(db)
    && DraftRowsOk(env, db)
    && AttemptsOk(env, db)
    && ObservedAreRetired(db)
  }

  lemma EmptyIsOk(env: Env)
    ensures StoreOk(env, EMPTY)
  {
  }

  lemma {:induction false} SyncKeepsObserved(env: Env, db: Db, chain: Chain, order: seq<DraftId>)
    requires forall i :: 0 <= i < |order| ==> order[i] in db.drafts
    requires ObservedAreRetired(db) && SyncDrafts(env, db, chain, order).Ok?
    ensures ObservedAreRetired(SyncDrafts(env, db, chain, order).value)
    decreases |order|
  {
    hide Retired, SyncDraft;
    if order != [] {
      var turn := order[0];
      var next := SyncDraft(env, db, chain, turn).value;
      SyncDraftShape(env, db, chain, turn);
      forall id | id in next.drafts && next.drafts[id].review.state == Observed ensures Retired(next, id) {
        SyncDraftRetires(env, db, chain, turn, id);
        assert id != turn ==> next.drafts[id] == db.drafts[id];
      }
      SyncKeepsObserved(env, next, chain, order[1..]);
    }
  }

  lemma OnlySyncObserves(env: Env, db: Db, op: Op, id: DraftId)
    requires !op.Sync? && id in Apply(env, db, op).drafts && Apply(env, db, op).drafts[id].review.state == Observed
    ensures id in db.drafts && db.drafts[id].review.state == Observed
  {
    if Commit(env, db, op).Ok? {
      match op
      case Create(request, target, proposal) =>
        CreateShape(env, db, request, target, proposal);
        hide CreateDraft;
      case Discard(other) =>
        DiscardShape(db, other);
        hide DiscardDraft;
      case Freeze(_, _) =>
      case Tag(_, _, _) => hide ValidLabel;
      case Accept(other, response) =>
        AcceptShape(env, db, other, response);
        hide AcceptSigned;
      case Finalise(other) =>
        FinaliseShape(env, db, other);
        hide FinalizeDraft;
      case Insert(_, _) => hide ValidatedFinalized, CheckPrevious;
      case Reply(_, _) =>
      case Reapprove(other, txid, attempt, acknowledged) =>
        ResumeShape(env, db, other, txid, attempt, acknowledged);
        hide Resume;
    }
  }

  lemma CommitKeepsObserved(env: Env, db: Db, op: Op)
    requires ObservedAreRetired(db)
    ensures ObservedAreRetired(Apply(env, db, op))
  {
    hide Retired;
    if op.Sync? {
      if Commit(env, db, op).Ok? {
        SyncAppliedObserved(env, db, op.chain, op.order);
      }
    } else {
      hide Commit, Apply;
      var after := Apply(env, db, op);
      forall id | id in after.drafts && after.drafts[id].review.state == Observed ensures Retired(after, id) {
        OnlySyncObserves(env, db, op, id);
        CommitKeepsRetired(env, db, op, id);
      }
    }
  }

  lemma SyncAppliedObserved(env: Env, db: Db, chain: Chain, order: seq<DraftId>)
    requires Enumerates(order, db.drafts)
    requires ObservedAreRetired(db) && ApplySync(env, db, chain, order).Ok?
    ensures ObservedAreRetired(ApplySync(env, db, chain, order).value)
  {
    hide SyncDrafts;
    SyncKeepsObserved(env, db, chain, order);
  }

  /** One commit, successful or refused, keeps the whole invariant. */
  lemma CommitKeepsStore(env: Env, db: Db, op: Op)
    requires StoreOk(env, db)
    ensures StoreOk(env, Apply(env, db, op))
  {
    hide Apply, Owned, HoldsCover, DraftRowsOk, AttemptsOk, ObservedAreRetired;
    CommitKeepsOwnership(env, db, op);
    CommitKeepsHolds(env, db, op);
    CommitKeepsRows(env, db, op);
    CommitKeepsAttempts(env, db, op);
    CommitKeepsObserved(env, db, op);
  }

  // ---- Restoring a backup of a sound store ----

  lemma SuspendedRowsOk(env: Env, backup: Db, after: Db)
    requires DraftRowsOk(env, backup) && SameHistory(after, backup)
    requires after.drafts.Keys == backup.drafts.Keys
    requires forall id :: id in after.drafts ==> after.drafts[id] == WithState(backup.drafts[id], Invalidated)
    ensures DraftRowsOk(env, after)
  {
    hide RowOk;
    forall id | id in after.drafts
      ensures RowOk(env, after.drafts[id], StoredSignatures(after, id), FinalRow(after, id))
    {
      RowOf(env, backup, id);
      RetiredRowOk(env, backup.drafts[id], StoredSignatures(backup, id), FinalRow(backup, id), Invalidated);
    }
  }

  lemma RestoreKeepsStore(env: Env, backup: Db, order: seq<DraftId>)
    requires StoreOk(env, backup) && Enumerates(order, backup.drafts) && Suspend(env, backup, order).Ok?
    ensures StoreOk(env, Suspend(env, backup, order).value)
  {
    hide Suspend, Owned, HoldsCover, DraftRowsOk, AttemptsOk, Retired, Enumerates, Submitted;
    RestoreSuspends(env, backup, order);
    var after := Suspend(env, backup, order).value;
    SuspendedRowsOk(env, backup, after);
    forall id | Submitted(backup.attempts, id) ensures Stable(backup, after, id) {
    }
    SameAttemptsKeep(env, backup, after);
  }

  /**
   * The archive checks of a restore never refuse the final bytes of a sound store, whose
   * approved transactions carry no witness, and refuse its signatures only when the stored
   * aggregate has outgrown the bounded parser.
   */
  lemma SoundArchivesPass(env: Env, backup: Db, id: DraftId)
    requires StoreOk(env, backup) && id in backup.drafts && Strip(backup.drafts[id].psbt.tx) == backup.drafts[id].psbt.tx
    ensures ArchivedFinalOk(env, backup, id, backup.drafts[id])
    ensures ArchivedSignaturesOk(env, backup, id, backup.drafts[id]) <==> StoredParses(env, StoredSignatures(backup, id))
  {
    hide Owned, HoldsCover, ObservedAreRetired, AttemptCount, Strip, ComputeTxid, Balanced, Parses;
    var draft := backup.drafts[id];
    RowOf(env, backup, id);
    ArchivedRowPasses(env, draft, StoredSignatures(backup, id), FinalRow(backup, id));
    forall i | 0 <= i < |backup.attempts| && backup.attempts[i].draft == id
      ensures id in backup.finalized && backup.attempts[i].txid == ComputeTxid(env.crypto, backup.finalized[id])
        && backup.attempts[i].wtxid == env.wtxid(backup.finalized[id])
    {
      assert AttemptRowOk(env, backup, backup.attempts[i]);
    }
  }

  lemma ArchivedRowPasses(env: Env, draft: Draft, stored: Option<Psbt>, final: Option<Transaction>)
    requires RowOk(env, draft, stored, final)
    ensures stored.Some? ==> stored.value.tx == draft.psbt.tx
    ensures final.Some? ==> Strip(final.value) == Strip(draft.psbt.tx)
  {
    hide Strip, TrustAll, Finalizer.Finalize;
    if stored.Some? {
      var sigs :| IsAggregate(env, draft.psbt, TrustAll(env, draft.psbt.tx).value, stored.value, sigs);
    }
    if final.Some? {
      Finalizer.FinalStripsToApproved(env.crypto, draft.psbt, stored, TrustAll(env, draft.psbt.tx).value);
    }
  }

  // ---- Runs of one store ----

  function Run(env: Env, db: Db, ops: seq<Op>): Db
    decreases |ops|
  {
    if ops == [] then db else Run(env, Apply(env, db, ops[0]), ops[1..])
  }

  lemma {:induction false} RunKeepsStore(env: Env, db: Db, ops: seq<Op>)
    requires StoreOk(env, db)
    ensures StoreOk(env, Run(env, db, ops))
    decreases |ops|
  {
    hide StoreOk, Apply;
    if ops != [] {
      CommitKeepsStore(env, db, ops[0]);
      RunKeepsStore(env, Apply(env, db, ops[0]), ops[1..]);
    }
  }

  /** An observed draft stays out of signing, finalization, submission, resumption and deletion for good. */
  lemma {:induction false} ObservedStaysRetired(env: Env, db: Db, ops: seq<Op>, id: DraftId)
    requires Retired(db, id)
    ensures Retired(Run(env, db, ops), id)
    decreases |ops|
  {
    hide Retired, Apply;
    if ops != [] {
      CommitKeepsRetired(env, db, ops[0], id);
      ObservedStaysRetired(env, Apply(env, db, ops[0]), ops[1..], id);
    }
  }

  /** The final bytes of a submitted draft are the same in every later state. */
  lemma {:induction false} SubmittedBytesAreForever(env: Env, db: Db, ops: seq<Op>, id: DraftId)
    requires AttemptsOk(env, db) && id in db.drafts && Submitted(db.attempts, id)
    ensures Stable(db, Run(env, db, ops), id)
    ensures Submitted(Run(env, db, ops).attempts, id)
    decreases |ops|
  {
    hide AttemptsOk, Apply, Submitted, Stable;
    if ops == [] {
      StableIsReflexive(db, id);
    } else {
      CommitIsStable(env, db, ops[0], id);
      CommitKeepsSubmitted(env, db, ops[0], id);
      CommitKeepsAttempts(env, db, ops[0]);
      var next := Apply(env, db, ops[0]);
      assert id in next.drafts by { StableMeansPresent(db, next, id); }
      SubmittedBytesAreForever(env, next, ops[1..], id);
      StableIsTransitive(db, next, Run(env, next, ops[1..]), id);
    }
  }

  lemma StableIsReflexive(db: Db, id: DraftId)
    ensures Stable(db, db, id)
  {
  }

  lemma StableMeansPresent(before: Db, after: Db, id: DraftId)
    requires Stable(before, after, id) && id in before.drafts
    ensures id in after.drafts
  {
  }

  lemma CommitKeepsSubmitted(env: Env, db: Db, op: Op, id: DraftId)
    requires Submitted(db.attempts, id)
    ensures Submitted(Apply(env, db, op).attempts, id)
  {
    hide Submitted, Commit, InsertAttempt, Acknowledge, Apply;
    if op.Insert? {
      InsertApplies(env, db, op);
      if InsertAttempt(env, db, op.submission, op.approved).Ok? {
        InsertShape(env, db, op.submission, op.approved);
        var (after, attempt) := InsertAttempt(env, db, op.submission, op.approved).value;
        AppendKeepsSubmitted(db.attempts, after.attempts[|db.attempts|], id);
      }
    } else if op.Reply? {
      ReplyApplies(env, db, op);
      ReplyKeepsSubmitted(db, op.attempt, op.id, id);
    } else {
      OtherCommitsKeepAttempts(env, db, op);
    }
  }
}
