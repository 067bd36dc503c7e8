/**
 * Recovery holds: from a restore onward every input of a suspended submission is held,
 * until that draft is observed on chain or explicitly resumed.
 */
module Holds {
  import opened Wrappers
  import opened Psbts
  import opened Tables
  import opened Operations
  import opened Chainsync
  import opened Recovery
  import opened Commits
  import opened Ownership

  ghost predicate IsSuspended(db: Db, id: DraftId) {
    && id in db.drafts
    && db.drafts[id].review.state == Invalidated
    && Submitted(db.attempts, id)
    && HoldsOf(db.drafts[id].review, id) <= db.holds
  }

  ghost predicate HoldIsNeeded(db: Db, h: Hold) {
    h.draft in db.recovered && h.draft in db.drafts && h.outpoint in OutPoints(db.drafts[h.draft].review)
  }

  ghost predicate HoldsCover(db: Db) {
    && (forall id :: id in db.recovered ==> IsSuspended(db, id))
    && (forall h :: h in db.holds ==> HoldIsNeeded(db, h))
  }

  /** Replacing one draft's review state, keeping every row that recovery reads. */
  lemma StateChangeKeeps(before: Db, after: Db, id: DraftId, state: DraftState)
    requires HoldsCover(before) && id in before.drafts
    requires after.drafts == before.drafts[id := WithState(before.drafts[id], state)]
    requires after.recovered == before.recovered && after.holds == before.holds
    requires forall other :: other in before.recovered && Submitted(before.attempts, other) ==> Submitted(after.attempts, other)
    requires id in before.recovered ==> state == Invalidated
    ensures HoldsCover(after)
  {
    forall other | other in after.recovered ensures IsSuspended(after, other) {
      assert IsSuspended(before, other);
      assert OutPoints(after.drafts[other].review) == OutPoints(before.drafts[other].review);
    }
    forall h | h in after.holds ensures HoldIsNeeded(after, h) {
      assert HoldIsNeeded(before, h);
      assert OutPoints(after.drafts[h.draft].review) == OutPoints(before.drafts[h.draft].review);
    }
  }

  /** Ending a suspension drops the draft's own holds and no others. */
  lemma ReleaseKeeps(before: Db, after: Db, id: DraftId, state: DraftState)
    requires HoldsCover(before) && id in before.drafts
    requires after.drafts == before.drafts[id := WithState(before.drafts[id], state)]
    requires after.recovered == before.recovered - {id} && after.holds == HoldsWithout(before.holds, id)
    requires after.attempts == before.attempts
    ensures HoldsCover(after)
  {
    forall other | other in after.recovered ensures IsSuspended(after, other) {
      assert IsSuspended(before, other);
      forall h | h in HoldsOf(after.drafts[other].review, other) ensures h in after.holds {
        assert h in HoldsOf(before.drafts[other].review, other);
      }
    }
    forall h | h in after.holds ensures HoldIsNeeded(after, h) {
      assert HoldIsNeeded(before, h);
    }
  }

  lemma DiscardKeepsHolds(db: Db, id: DraftId)
    requires HoldsCover(db) && DiscardDraft(db, id).Ok?
    ensures HoldsCover(DiscardDraft(db, id).value)
  {
    var after := DiscardDraft(db, id).value;
    forall other | other in after.recovered ensures IsSuspended(after, other) {
      assert IsSuspended(db, other);
      forall h | h in HoldsOf(db.drafts[other].review, other) ensures h in after.holds {
      }
    }
    forall h | h in after.holds ensures HoldIsNeeded(after, h) {
      assert HoldIsNeeded(db, h);
    }
  }

  lemma CreateKeepsHolds(before: Db, after: Db, id: DraftId, draft: Draft)
    requires HoldsCover(before) && id !in before.drafts
    requires after.drafts == before.drafts[id := draft]
    requires after.recovered == before.recovered && after.holds == before.holds && after.attempts == before.attempts
    ensures HoldsCover(after)
  {
    forall other | other in after.recovered ensures IsSuspended(after, other) {
      assert IsSuspended(before, other);
    }
    forall h | h in after.holds ensures HoldIsNeeded(after, h) {
      assert HoldIsNeeded(before, h);
    }
  }

  lemma SameRowsKeep(before: Db, after: Db)
    requires HoldsCover(before)
    requires after.drafts == before.drafts && after.recovered == before.recovered && after.holds == before.holds
    requires forall id :: id in before.recovered && Submitted(before.attempts, id) ==> Submitted(after.attempts, id)
    ensures HoldsCover(after)
  {
    forall id | id in after.recovered ensures IsSuspended(after, id) {
      assert IsSuspended(before, id);
    }
    forall h | h in after.holds ensures HoldIsNeeded(after, h) {
      assert HoldIsNeeded(before, h);
    }
  }

  lemma AppendKeepsSubmitted(attempts: seq<Attempt>, row: Attempt, id: DraftId)
    requires Submitted(attempts, id)
    ensures Submitted(attempts + [row], id)
  {
    var i :| 0 <= i < |attempts| && attempts[i].draft == id;
    assert (attempts + [row])[i].draft == id;
  }

  lemma ReplyKeepsSubmitted(db: Db, attempt: nat, draft: DraftId, id: DraftId)
    ensures Submitted(Acknowledge(db, attempt, draft).attempts, id) <==> Submitted(db.attempts, id)
  {
    var after := Acknowledge(db, attempt, draft).attempts;
    assert forall i :: 0 <= i < |after| ==> after[i].draft == db.attempts[i].draft;
    if Submitted(db.attempts, id) {
      var i :| 0 <= i < |db.attempts| && db.attempts[i].draft == id;
      assert after[i].draft == id;
    }
    if Submitted(after, id) {
      var i :| 0 <= i < |after| && after[i].draft == id;
      assert db.attempts[i].draft == id;
    }
  }

  lemma SyncDraftKeepsHolds(env: Env, db: Db, chain: Chain, id: DraftId)
    requires HoldsCover(db) && id in db.drafts && SyncDraft(env, db, chain, id).Ok?
    ensures HoldsCover(SyncDraft(env, db, chain, id).value)
  {
    hide HoldsCover, Seen, StillEligible, OwnOutputs, PaymentLabels, ValidLabel, ReleaseOf, HoldsWithout;
    var after := SyncDraft(env, db, chain, id).value;
    if Seen(env, db, chain, id).value {
      ReleaseKeeps(db, after, id, Observed);
    } else if after != db {
      StateChangeKeeps(db, after, id, Invalidated);
    }
  }

  lemma {:induction false} SyncKeepsHolds(env: Env, db: Db, chain: Chain, order: seq<DraftId>)
    requires forall i :: 0 <= i < |order| ==> order[i] in db.drafts
    requires HoldsCover(db) && SyncDrafts(env, db, chain, order).Ok?
    ensures HoldsCover(SyncDrafts(env, db, chain, order).value)
    decreases |order|
  {
    hide HoldsCover, SyncDraft;
    if order != [] {
      SyncDraftKeepsHolds(env, db, chain, order[0]);
      SyncKeepsHolds(env, SyncDraft(env, db, chain, order[0]).value, chain, order[1..]);
    }
  }

  lemma LoadedIsNotSuspended(env: Env, db: Db, id: DraftId)
    requires HoldsCover(db) && LoadDraft(env, db, id).Ok?
    ensures id in db.drafts && id !in db.recovered
  {
    hide LoadInputs, OutputsMatch, Balanced, Identified, Parses;
    assert id in db.recovered ==> IsSuspended(db, id);
  }

  /** Every commit keeps the hold of every suspended input. */
  lemma CommitKeepsHolds(env: Env, db: Db, op: Op)
    requires HoldsCover(db)
    ensures HoldsCover(Apply(env, db, op))
  {
    hide HoldsCover, LoadDraft, ReviewProposal, Reserve, SyncDrafts, Enumerates, ReleaseOf, CheckSelection, CheckPayment,
      ValidLabel, HoldsWithout;
    if Commit(env, db, op).Ok? {
      var after := Apply(env, db, op);
      match op
      case Create(request, target, proposal) =>
        var review := ReviewProposal(env, db, request, target, proposal.value).value;
        CreateKeepsHolds(db, after, review.id, Draft(proposal.value, review));
      case Discard(id) => DiscardKeepsHolds(db, id);
      case Freeze(_, _) => SameRowsKeep(db, after);
      case Tag(_, _, _) => SameRowsKeep(db, after);
      case Accept(id, response) =>
        LoadedIsNotSuspended(env, db, id);
        StateChangeKeeps(db, after, id, after.drafts[id].review.state);
      case Finalise(id) =>
        LoadedIsNotSuspended(env, db, id);
        if after != db {
          StateChangeKeeps(db, after, id, Finalized);
        }
      case Insert(submission, approved) => InsertKeepsHolds(env, db, submission, approved);
      case Reply(attempt, id) => ReplyKeepsHolds(db, attempt, id);
      case Sync(chain, order) =>
        assert Enumerates(order, db.drafts);
        SyncAppliedHolds(env, db, chain, order);
      case Reapprove(id, _, _, _) => ReleaseKeeps(db, after, id, Finalized);
    }
  }

  lemma InsertKeepsHolds(env: Env, db: Db, submission: BroadcastRequest, approved: FinalReview)
    requires HoldsCover(db) && InsertAttempt(env, db, submission, approved).Ok?
    ensures HoldsCover(InsertAttempt(env, db, submission, approved).value.0)
  {
    hide HoldsCover, ValidatedFinalized, CheckPrevious;
    var after := InsertAttempt(env, db, submission, approved).value.0;
    forall id | Submitted(db.attempts, id) ensures Submitted(after.attempts, id) {
      AppendKeepsSubmitted(db.attempts, after.attempts[|db.attempts|], id);
    }
    SameRowsKeep(db, after);
  }

  lemma ReplyKeepsHolds(db: Db, attempt: nat, id: DraftId)
    requires HoldsCover(db)
    ensures HoldsCover(Acknowledge(db, attempt, id))
  {
    hide HoldsCover;
    var after := Acknowledge(db, attempt, id);
    forall other | Submitted(db.attempts, other) ensures Submitted(after.attempts, other) {
      ReplyKeepsSubmitted(db, attempt, id, other);
    }
    SameRowsKeep(db, after);
  }

  lemma SyncAppliedHolds(env: Env, db: Db, chain: Chain, order: seq<DraftId>)
    requires Enumerates(order, db.drafts)
    requires HoldsCover(db) && ApplySync(env, db, chain, order).Ok?
    ensures HoldsCover(ApplySync(env, db, chain, order).value)
  {
    hide HoldsCover, SyncDrafts;
    SyncKeepsHolds(env, db, chain, order);
    SameRowsKeep(SyncDrafts(env, db, chain, order).value, ApplySync(env, db, chain, order).value);
  }

  /** A held input is never offered for spending, whatever the chain says. */
  lemma HeldIsNotAvailable(env: Env, db: Db, id: DraftId, outpoint: OutPoint)
    requires HoldsCover(db) && id in db.recovered && outpoint in OutPoints(db.drafts[id].review)
    ensures Status(env, db, outpoint) != Available
  {
    assert IsSuspended(db, id);
    assert Hold(outpoint, id) in db.holds;
  }

  // ---- A restored store ----

  ghost predicate SameHistory(a: Db, b: Db) {
    && a.attempts == b.attempts && a.nextAttempt == b.nextAttempt
    && a.finalized == b.finalized && a.signatures == b.signatures
    && a.labels == b.labels && a.applied == b.applied && a.provenance == b.provenance
    && a.freezes == b.freezes && a.chain == b.chain
  }

  /** Beginning a suspension adds the draft's own holds. */
  lemma SuspensionKeeps(before: Db, after: Db, id: DraftId)
    requires HoldsCover(before) && id in before.drafts && Submitted(before.attempts, id)
    requires after.drafts == before.drafts[id := WithState(before.drafts[id], Invalidated)]
    requires after.recovered == before.recovered + {id}
    requires after.holds == before.holds + HoldsOf(before.drafts[id].review, id)
    requires after.attempts == before.attempts
    ensures HoldsCover(after)
  {
    hide Submitted;
    assert OutPoints(after.drafts[id].review) == OutPoints(before.drafts[id].review);
    forall other | other in after.recovered ensures IsSuspended(after, other) {
      assert other != id ==> IsSuspended(before, other);
    }
    forall h | h in after.holds ensures HoldIsNeeded(after, h) {
      assert h in before.holds ==> HoldIsNeeded(before, h);
    }
  }

  lemma SuspendDraftEffect(env: Env, db: Db, id: DraftId)
    requires HoldsCover(db) && id in db.drafts && SuspendDraft(env, db, id).Ok?
    ensures var after := SuspendDraft(env, db, id).value;
      && HoldsCover(after) && SameHistory(after, db) && after.reservations == db.reservations
      && after.drafts == db.drafts[id := WithState(db.drafts[id], Invalidated)]
      && after.recovered == db.recovered + if Submitted(db.attempts, id) then {id} else {}
  {
    hide HoldsCover, ArchivedApprovalOk, ArchivedFinalOk, ArchivedSignaturesOk, DistinctOutPoints, HoldsOf;
    var after := SuspendDraft(env, db, id).value;
    if Submitted(db.attempts, id) {
      SuspensionKeeps(db, after, id);
    } else {
      StateChangeKeeps(db, after, id, Invalidated);
    }
  }

  lemma {:induction false} SuspendDraftsEffect(env: Env, db: Db, order: seq<DraftId>)
    requires forall i :: 0 <= i < |order| ==> order[i] in db.drafts
    requires HoldsCover(db) && SuspendDrafts(env, db, order).Ok?
    ensures var after := SuspendDrafts(env, db, order).value;
      && HoldsCover(after) && SameHistory(after, db) && after.reservations == db.reservations
      && (forall id :: id in db.drafts ==>
            after.drafts[id] == if id in order then WithState(db.drafts[id], Invalidated) else db.drafts[id])
      && after.recovered == db.recovered + set id | id in order && Submitted(db.attempts, id)
    decreases |order|
  {
    hide HoldsCover, SuspendDraft;
    if order != [] {
      hide Submitted, WithState;
      SuspendDraftEffect(env, db, order[0]);
      var next := SuspendDraft(env, db, order[0]).value;
      SuspendDraftsEffect(env, next, order[1..]);
      assert forall id :: id in order <==> id == order[0] || id in order[1..];
      SuspendedTwice(db.drafts[order[0]]);
    }
  }

  lemma SuspendedTwice(draft: Draft)
    ensures WithState(WithState(draft, Invalidated), Invalidated) == WithState(draft, Invalidated)
  {
  }

  /**
   * Whatever a backup held, its restored store has no reservation, no fresh chain view
   * and no active draft, and holds every input of every submitted draft.
   */
  lemma RestoreSuspends(env: Env, backup: Db, order: seq<DraftId>)
    requires Enumerates(order, backup.drafts) && Suspend(env, backup, order).Ok?
    ensures var after := Suspend(env, backup, order).value;
      && Owned(after.drafts, after.reservations) && HoldsCover(after) && SameHistory(after, backup)
      && !after.synced && after.reservations == map[]
      && after.drafts.Keys == backup.drafts.Keys
      && (forall id :: id in after.drafts ==> after.drafts[id] == WithState(backup.drafts[id], Invalidated))
      && (forall id :: id in after.recovered <==> id in after.drafts && Submitted(backup.attempts, id))
      && (forall id :: id in after.recovered ==> HoldsOf(after.drafts[id].review, id) <= after.holds)
  {
    hide LabelsOk;
    var start := Cleared(backup);
    SuspendDraftsEffect(env, start, order);
    var middle := SuspendDrafts(env, start, order).value;
    var after := Suspend(env, backup, order).value;
    SameRowsKeep(middle, after);
    forall id | id in after.recovered ensures HoldsOf(after.drafts[id].review, id) <= after.holds {
      assert IsSuspended(after, id);
    }
  }
}
