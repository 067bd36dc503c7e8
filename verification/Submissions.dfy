/**
 * Submission records: final bytes that never change, attempts that are only appended or
 * acknowledged, and the retirement of observed and recovered drafts.
 */
module Submissions {
  import opened Wrappers
  import opened ByteStrings
  import opened Psbts
  import opened Tables
  import opened Operations
  import opened Chainsync
  import opened Recovery
  import opened Commits
  import opened Rows
  import opened Holds
  import Signing
  import Finalizer

  /** An existing draft keeps its approval, its review apart from the state, and its final bytes. */
  ghost predicate Stable(before: Db, after: Db, id: DraftId) {
    id in before.drafts ==>
      && id in after.drafts
      && after.drafts[id] == WithState(before.drafts[id], after.drafts[id].review.state)
      && (id in before.finalized ==> id in after.finalized && after.finalized[id] == before.finalized[id])
  }

  lemma StableIsTransitive(a: Db, b: Db, c: Db, id: DraftId)
    requires Stable(a, b, id) && Stable(b, c, id)
    ensures Stable(a, c, id)
  {
  }

  lemma {:induction false} SyncIsStable(env: Env, db: Db, chain: Chain, order: seq<DraftId>, id: DraftId)
    requires forall i :: 0 <= i < |order| ==> order[i] in db.drafts
    requires SyncDrafts(env, db, chain, order).Ok?
    ensures Stable(db, SyncDrafts(env, db, chain, order).value, id)
    ensures SyncDrafts(env, db, chain, order).value.attempts == db.attempts
    ensures SyncDrafts(env, db, chain, order).value.nextAttempt == db.nextAttempt
    ensures SyncDrafts(env, db, chain, order).value.finalized == db.finalized
    decreases |order|
  {
    hide SyncDraft;
    if order != [] {
      SyncDraftShape(env, db, chain, order[0]);
      SyncIsStable(env, SyncDraft(env, db, chain, order[0]).value, chain, order[1..], id);
    }
  }

  lemma ResumeShape(env: Env, db: Db, id: DraftId, txid: Txid, attempt: nat, acknowledged: bool)
    requires Resume(env, db, id, txid, attempt, acknowledged).Ok?
    ensures var (after, found) := Resume(env, db, id, txid, attempt, acknowledged).value;
      && id in db.drafts && id in db.recovered && id in db.finalized && db.drafts[id].review.state == Invalidated
      && ValidatedFinalized(env, Rewritten(db, id), id) == Ok(Some(found))
      && after == Rewritten(db, id).(recovered := db.recovered - {id}, holds := HoldsWithout(db.holds, id))
  {
    hide LoadDraft, Finalizer.Finalize, HoldsWithout, ReserveIgnoring;
  }

  lemma DiscardShape(db: Db, id: DraftId)
    requires DiscardDraft(db, id).Ok?
    ensures var after := DiscardDraft(db, id).value;
      && !Submitted(db.attempts, id)
      && after.drafts == db.drafts - {id} && after.finalized == db.finalized - {id}
      && after.attempts == db.attempts && after.nextAttempt == db.nextAttempt
      && after.recovered == db.recovered - {id}
  {
    hide Submitted, ReleaseOf, HoldsWithout;
  }

  lemma CreateShape(env: Env, db: Db, request: Request, target: Bytes, proposal: Option<Psbt>)
    requires CreateDraft(env, db, request, target, proposal).Ok?
    ensures var after := CreateDraft(env, db, request, target, proposal).value;
      && proposal.Some?
      && ReviewProposal(env, db, request, target, proposal.value).Ok?
      && var review := ReviewProposal(env, db, request, target, proposal.value).value;
      && review.id !in db.drafts && review.state == Unsigned
      && Reserve(db.reservations, Prevouts(proposal.value.tx), review.id).Ok?
      && after == db.(drafts := db.drafts[review.id := Draft(proposal.value, review)],
                      reservations := Reserve(db.reservations, Prevouts(proposal.value.tx), review.id).value)
  {
    hide ReviewProposal, Reserve, CheckSelection, CheckPayment, ValidLabel, Parses;
    ProposalIsUnsigned(env, db, request, target, proposal.value);
  }

  /** A draft once submitted is never deleted, re-approved or re-finalized by any commit. */
  lemma CommitIsStable(env: Env, db: Db, op: Op, id: DraftId)
    requires op == Discard(id) ==> Submitted(db.attempts, id)
    ensures Stable(db, Apply(env, db, op), id)
  {
    hide CreateDraft, DiscardDraft, AcceptSigned, FinalizeDraft, InsertAttempt, ApplySync, Resume, Submitted, ValidLabel,
      Enumerates, Rewritten;
    if Commit(env, db, op).Ok? {
      match op
      case Create(request, target, proposal) => CreateShape(env, db, request, target, proposal);
      case Discard(other) => DiscardShape(db, other);
      case Freeze(_, _) =>
      case Tag(_, _, _) =>
      case Accept(other, response) => AcceptShape(env, db, other, response);
      case Finalise(other) => FinaliseShape(env, db, other);
      case Insert(submission, approved) => InsertShape(env, db, submission, approved);
      case Reply(_, _) =>
      case Sync(chain, order) => SyncAppliedStable(env, db, chain, order, id);
      case Reapprove(other, txid, attempt, acknowledged) =>
        ResumeShape(env, db, other, txid, attempt, acknowledged);
        RewrittenShape(db, other);
    }
  }

  lemma RewrittenShape(db: Db, id: DraftId)
    requires id in db.drafts
    ensures Rewritten(db, id) == db.(drafts := db.drafts[id := WithState(db.drafts[id], Finalized)],
                                     reservations := Rewritten(db, id).reservations)
  {
  }

  lemma SyncAppliedStable(env: Env, db: Db, chain: Chain, order: seq<DraftId>, id: DraftId)
    requires Enumerates(order, db.drafts) && ApplySync(env, db, chain, order).Ok?
    ensures Stable(db, ApplySync(env, db, chain, order).value, id)
    ensures ApplySync(env, db, chain, order).value.attempts == db.attempts
    ensures ApplySync(env, db, chain, order).value.nextAttempt == db.nextAttempt
  {
    hide SyncDrafts;
    SyncIsStable(env, db, chain, order, id);
  }

  // ---- Attempt rows ----

  ghost predicate AttemptRowOk(env: Env, db: Db, a: Attempt) {
    && a.id < db.nextAttempt
    && a.draft in db.drafts && a.draft in db.finalized
    && a.txid == ComputeTxid(env.crypto, db.finalized[a.draft]) && a.wtxid == env.wtxid(db.finalized[a.draft])
    && Balanced(db.drafts[a.draft].review) && db.drafts[a.draft].review.fee <= MAX_FEE
  }

  /** Ids grow, every row names its draft's final transaction, and each submission pays what was reviewed. */
  ghost predicate AttemptsOk(env: Env, db: Db) {
    && (forall i, j :: 0 <= i < j < |db.attempts| ==> db.attempts[i].id < db.attempts[j].id)
    && (forall i :: 0 <= i < |db.attempts| ==> AttemptRowOk(env, db, db.attempts[i]))
    && (forall id :: AttemptCount(db.attempts, id) <= MAX_ATTEMPTS)
  }

  lemma SubmittedRow(attempts: seq<Attempt>, i: nat)
    requires i < |attempts|
    ensures Submitted(attempts, attempts[i].draft)
  {
  }

  lemma StableRowKeeps(env: Env, before: Db, after: Db, a: Attempt)
    requires AttemptRowOk(env, before, a) && Stable(before, after, a.draft) && before.nextAttempt <= after.nextAttempt
    ensures AttemptRowOk(env, after, a)
  {
    hide ComputeTxid, SumInputs, SumOutputs;
  }

  lemma SameAttemptsKeep(env: Env, before: Db, after: Db)
    requires AttemptsOk(env, before)
    requires after.attempts == before.attempts && before.nextAttempt <= after.nextAttempt
    requires forall id :: Submitted(before.attempts, id) ==> Stable(before, after, id)
    ensures AttemptsOk(env, after)
  {
    hide AttemptRowOk, Stable, AttemptCount, Submitted;
    forall i | 0 <= i < |after.attempts| ensures AttemptRowOk(env, after, after.attempts[i]) {
      SubmittedRow(before.attempts, i);
      StableRowKeeps(env, before, after, after.attempts[i]);
    }
  }

  /** What a successful insert has just validated. */
  lemma ValidatedForInsert(env: Env, db: Db, id: DraftId)
    requires ValidatedFinalized(env, db, id).Ok? && ValidatedFinalized(env, db, id).value.Some?
    ensures var found := ValidatedFinalized(env, db, id).value.value;
      && id in db.drafts && id in db.finalized && db.drafts[id].review.state == Finalized
      && found == ReviewFinal(env, id, db.drafts[id].review, db.finalized[id])
      && Balanced(db.drafts[id].review) && db.drafts[id].review.fee <= MAX_FEE
      && FinalFor(env, db.drafts[id].psbt, StoredSignatures(db, id)) == Ok(db.finalized[id])
      && db.synced
  {
    LoadedTrust(env, db, id);
    LoadedIsWellFormed(env, db, id);
    assert db.synced by { hide LoadInputs, OutputsMatch, Balanced, Identified, Parses; }
    hide LoadDraft, Finalizer.Finalize, TrustAll, Balanced;
  }

  lemma InsertShape(env: Env, db: Db, submission: BroadcastRequest, approved: FinalReview)
    requires InsertAttempt(env, db, submission, approved).Ok?
    ensures var (after, attempt) := InsertAttempt(env, db, submission, approved).value;
      && ValidatedFinalized(env, db, submission.draft) == Ok(Some(approved))
      && LatestId(db.attempts, submission.draft) == submission.previous
      && AttemptCount(db.attempts, submission.draft) < MAX_ATTEMPTS
      && attempt == db.nextAttempt
      && after == db.(
           attempts := db.attempts + [Attempt(attempt, submission.draft, approved.txid, approved.wtxid, false)],
           nextAttempt := attempt + 1)
  {
    hide ValidatedFinalized, AttemptCount, LatestId, Submitted;
  }

  /** An attempt is recorded exactly for a re-validated, unchanged review that names the newest attempt, with consent and room. */
  lemma InsertIsExact(env: Env, db: Db, submission: BroadcastRequest, approved: FinalReview)
    ensures InsertAttempt(env, db, submission, approved).Ok? <==>
      && ValidatedFinalized(env, db, submission.draft) == Ok(Some(approved))
      && LatestId(db.attempts, submission.draft) == submission.previous
      && (submission.previous.Some? ==> submission.retryAcknowledged)
      && AttemptCount(db.attempts, submission.draft) < MAX_ATTEMPTS
  {
    hide ValidatedFinalized, AttemptCount;
  }

  lemma CountAppended(attempts: seq<Attempt>, row: Attempt, id: DraftId)
    ensures AttemptCount(attempts + [row], id) == AttemptCount(attempts, id) + if row.draft == id then 1 else 0
  {
    assert (attempts + [row])[..|attempts|] == attempts;
  }

  lemma InsertKeepsAttempts(env: Env, db: Db, submission: BroadcastRequest, approved: FinalReview)
    requires AttemptsOk(env, db) && InsertAttempt(env, db, submission, approved).Ok?
    ensures AttemptsOk(env, InsertAttempt(env, db, submission, approved).value.0)
  {
    InsertShape(env, db, submission, approved);
    ValidatedForInsert(env, db, submission.draft);
    hide InsertAttempt, ValidatedFinalized, AttemptCount, LatestId, Balanced, FinalFor, ComputeTxid, AttemptRowOk, AttemptsOk;
    var (after, attempt) := InsertAttempt(env, db, submission, approved).value;
    var row := after.attempts[|db.attempts|];
    NewRowOk(env, db, after, row, approved);
    RowAppended(env, db, after, row);
  }

  lemma RowAppended(env: Env, db: Db, after: Db, row: Attempt)
    requires AttemptsOk(env, db) && AttemptRowOk(env, after, row) && row.id == db.nextAttempt
    requires after == db.(attempts := db.attempts + [row], nextAttempt := row.id + 1)
    requires AttemptCount(db.attempts, row.draft) < MAX_ATTEMPTS
    ensures AttemptsOk(env, after)
  {
    hide AttemptCount, AttemptRowOk;
    forall i | 0 <= i < |after.attempts| ensures AttemptRowOk(env, after, after.attempts[i]) {
      if i < |db.attempts| {
        assert AttemptRowOk(env, db, db.attempts[i]);
        StableRowKeeps(env, db, after, db.attempts[i]);
      }
    }
    forall i, j | 0 <= i < j < |after.attempts| ensures after.attempts[i].id < after.attempts[j].id {
      if j == |db.attempts| {
        RowIdIsOld(env, db, i);
      }
    }
    forall id ensures AttemptCount(after.attempts, id) <= MAX_ATTEMPTS {
      CountAppended(db.attempts, row, id);
    }
  }

  lemma RowIdIsOld(env: Env, db: Db, i: nat)
    requires AttemptsOk(env, db) && i < |db.attempts|
    ensures db.attempts[i].id < db.nextAttempt
  {
    hide AttemptCount;
    assert AttemptRowOk(env, db, db.attempts[i]);
  }

  lemma NewRowOk(env: Env, before: Db, after: Db, row: Attempt, approved: FinalReview)
    requires row.draft in before.drafts && row.draft in before.finalized
    requires approved == ReviewFinal(env, row.draft, before.drafts[row.draft].review, before.finalized[row.draft])
    requires Balanced(before.drafts[row.draft].review) && before.drafts[row.draft].review.fee <= MAX_FEE
    requires row.txid == approved.txid && row.wtxid == approved.wtxid && row.id < after.nextAttempt
    requires after.drafts == before.drafts && after.finalized == before.finalized
    ensures AttemptRowOk(env, after, row)
  {
    hide Balanced, ComputeTxid;
  }

  lemma {:induction false} ReplyKeepsCount(a: seq<Attempt>, b: seq<Attempt>, id: DraftId)
    requires |a| == |b| && forall i :: 0 <= i < |a| ==> b[i].draft == a[i].draft
    ensures AttemptCount(a, id) == AttemptCount(b, id)
  {
    if a != [] {
      ReplyKeepsCount(a[..|a| - 1], b[..|a| - 1], id);
    }
  }

  lemma ReplyKeepsAttempts(env: Env, db: Db, attempt: nat, draft: DraftId)
    requires AttemptsOk(env, db)
    ensures AttemptsOk(env, Acknowledge(db, attempt, draft))
  {
    hide AttemptCount;
    var after := Acknowledge(db, attempt, draft);
    forall i | 0 <= i < |after.attempts| ensures AttemptRowOk(env, after, after.attempts[i]) {
      assert AttemptRowOk(env, db, db.attempts[i]);
    }
    forall id ensures AttemptCount(after.attempts, id) <= MAX_ATTEMPTS {
      ReplyKeepsCount(db.attempts, after.attempts, id);
    }
  }

  /** Only an insert or a reply touches attempt rows. */
  lemma OtherCommitsKeepAttempts(env: Env, db: Db, op: Op)
    requires !op.Insert? && !op.Reply?
    ensures Apply(env, db, op).attempts == db.attempts && Apply(env, db, op).nextAttempt == db.nextAttempt
  {
    if Commit(env, db, op).Ok? {
      match op
      case Create(request, target, proposal) =>
        CreateShape(env, db, request, target, proposal);
        hide CreateDraft;
      case Discard(other) =>
        DiscardShape(db, other);
        hide DiscardDraft, Submitted;
      case Freeze(_, _) =>
      case Tag(_, _, _) => hide ValidLabel;
      case Accept(other, response) =>
        AcceptShape(env, db, other, response);
        hide AcceptSigned;
      case Finalise(other) =>
        FinaliseShape(env, db, other);
        hide FinalizeDraft;
      case Sync(chain, order) =>
        assert Enumerates(order, db.drafts);
        SyncAppliedStable(env, db, chain, order, []);
      case Reapprove(other, txid, attempt, acknowledged) =>
        ResumeShape(env, db, other, txid, attempt, acknowledged);
        hide Resume;
    }
  }

  lemma CommitKeepsAttempts(env: Env, db: Db, op: Op)
    requires AttemptsOk(env, db)
    ensures AttemptsOk(env, Apply(env, db, op))
  {
    hide AttemptsOk, InsertAttempt, Commit, Acknowledge;
    if op.Insert? {
      if InsertAttempt(env, db, op.submission, op.approved).Ok? {
        InsertKeepsAttempts(env, db, op.submission, op.approved);
      }
      InsertApplies(env, db, op);
    } else if op.Reply? {
      ReplyKeepsAttempts(env, db, op.attempt, op.id);
      ReplyApplies(env, db, op);
    } else {
      OtherCommitsKeepAttempts(env, db, op);
      forall id | Submitted(db.attempts, id) ensures Stable(db, Apply(env, db, op), id) {
        CommitIsStable(env, db, op, id);
      }
      SameAttemptsKeep(env, db, Apply(env, db, op));
    }
  }

  lemma InsertApplies(env: Env, db: Db, op: Op)
    requires op.Insert?
    ensures Apply(env, db, op) ==
      match InsertAttempt(env, db, op.submission, op.approved) case Ok((after, _)) => after case Err(_) => db
  {
    hide InsertAttempt;
  }

  lemma ReplyApplies(env: Env, db: Db, op: Op)
    requires op.Reply?
    ensures Apply(env, db, op) == Acknowledge(db, op.attempt, op.id)
  {
  }

  // ---- Retirement ----

  /** A submitted draft that is neither active nor waiting for recovery. */
  ghost predicate Retired(db: Db, id: DraftId) {
    && id in db.drafts && !Active(db.drafts[id].review.state)
    && Submitted(db.attempts, id) && id !in db.recovered
  }

  /** A turn that ends in `Observed` saw the draft's own submission and ended its suspension. */
  lemma SyncDraftOutcome(env: Env, db: Db, chain: Chain, id: DraftId)
    requires id in db.drafts && SyncDraft(env, db, chain, id).Ok?
    ensures var after := SyncDraft(env, db, chain, id).value;
      && after.recovered <= db.recovered
      && (after.drafts[id].review.state == Observed ==> Submitted(db.attempts, id) && id !in after.recovered)
      && (db.recovered - {id} <= after.recovered)
      && (id in db.recovered && id !in after.recovered ==> after.drafts[id].review.state == Observed)
  {
    hide Observe, StillEligible, ReleaseOf, HoldsWithout, ApplyObservedLabels;
    if Seen(env, db, chain, id).value {
      LabelShape(env, db, db.drafts[id].review, chain, Latest(db.attempts, id).value.txid);
    }
  }

  lemma SyncDraftRetires(env: Env, db: Db, chain: Chain, turn: DraftId, id: DraftId)
    requires turn in db.drafts && SyncDraft(env, db, chain, turn).Ok?
    ensures Retired(db, id) ==> Retired(SyncDraft(env, db, chain, turn).value, id)
    ensures SyncDraft(env, db, chain, turn).value.drafts[turn].review.state == Observed ==>
      Retired(SyncDraft(env, db, chain, turn).value, turn)
  {
    SyncDraftShape(env, db, chain, turn);
    SyncDraftOutcome(env, db, chain, turn);
    hide SyncDraft, Submitted;
  }

  lemma {:induction false} SyncRetires(env: Env, db: Db, chain: Chain, order: seq<DraftId>, id: DraftId)
    requires forall i :: 0 <= i < |order| ==> order[i] in db.drafts
    requires Retired(db, id) && SyncDrafts(env, db, chain, order).Ok?
    ensures Retired(SyncDrafts(env, db, chain, order).value, id)
    decreases |order|
  {
    hide Retired, SyncDraft;
    if order != [] {
      SyncDraftRetires(env, db, chain, order[0], id);
      SyncRetires(env, SyncDraft(env, db, chain, order[0]).value, chain, order[1..], id);
    }
  }

  lemma RetiredIsRefused(env: Env, db: Db, id: DraftId)
    requires Retired(db, id)
    ensures LoadDraft(env, db, id).Err? && ValidatedFinalized(env, db, id).Err?
    ensures forall response :: AcceptSigned(env, db, id, response).Err?
    ensures FinalizeDraft(env, db, id).Err?
    ensures forall request: BroadcastRequest :: request.draft == id ==> BeginBroadcast(env, db, request).Err?
    ensures forall request: BroadcastRequest, approved :: request.draft == id ==> InsertAttempt(env, db, request, approved).Err?
    ensures forall txid, attempt, acknowledged :: Resume(env, db, id, txid, attempt, acknowledged).Err?
    ensures DiscardDraft(db, id).Err?
  {
    hide Submitted, Finalizer.Finalize, Signing.Merge, CheckPrevious;
    LoadNeedsActive(env, db, id);
    hide LoadDraft;
  }

  lemma LoadNeedsActive(env: Env, db: Db, id: DraftId)
    requires id in db.drafts && !Active(db.drafts[id].review.state)
    ensures LoadDraft(env, db, id).Err?
  {
    hide Parses;
  }

  /** Within one store a retired draft never becomes signable, finalizable or submittable again. */
  lemma CommitKeepsRetired(env: Env, db: Db, op: Op, id: DraftId)
    requires Retired(db, id)
    ensures Retired(Apply(env, db, op), id)
  {
    RetiredIsRefused(env, db, id);
    hide CreateDraft, DiscardDraft, AcceptSigned, FinalizeDraft, InsertAttempt, ApplySync, Resume, Submitted, ValidLabel,
      Enumerates, Rewritten, Acknowledge, LoadDraft, ValidatedFinalized, BeginBroadcast;
    if Commit(env, db, op).Ok? {
      match op
      case Create(request, target, proposal) => CreateShape(env, db, request, target, proposal);
      case Discard(other) => DiscardShape(db, other);
      case Freeze(_, _) =>
      case Tag(_, _, _) =>
      case Accept(other, response) => AcceptShape(env, db, other, response);
      case Finalise(other) => FinaliseShape(env, db, other);
      case Insert(submission, approved) =>
        InsertShape(env, db, submission, approved);
        AppendKeepsSubmitted(db.attempts, Apply(env, db, op).attempts[|db.attempts|], id);
      case Reply(attempt, draft) =>
        ReplyKeepsSubmitted(db, attempt, draft, id);
        ReplyShape(db, attempt, draft);
      case Sync(chain, order) => SyncAppliedRetires(env, db, chain, order, id);
      case Reapprove(other, txid, attempt, acknowledged) =>
        ResumeShape(env, db, other, txid, attempt, acknowledged);
        RewrittenShape(db, other);
    }
  }

  lemma ReplyShape(db: Db, attempt: nat, draft: DraftId)
    ensures Acknowledge(db, attempt, draft) == db.(attempts := Acknowledge(db, attempt, draft).attempts)
  {
  }

  lemma SyncAppliedRetires(env: Env, db: Db, chain: Chain, order: seq<DraftId>, id: DraftId)
    requires Enumerates(order, db.drafts) && ApplySync(env, db, chain, order).Ok? && Retired(db, id)
    ensures Retired(ApplySync(env, db, chain, order).value, id)
  {
    hide SyncDrafts, Submitted;
    SyncRetires(env, db, chain, order, id);
  }
}
