/**
 * Reservation ownership: a draft that can still be signed or submitted owns the
 * reservation of each of its inputs, and no reservation exists without such a draft.
 */
module Ownership {
  import opened Wrappers
  import opened ByteStrings
  import opened Psbts
  import opened Tables
  import opened Operations
  import opened Chainsync
  import opened Recovery
  import opened Commits

  ghost predicate OwnsInputs(reservations: map<OutPoint, DraftId>, review: Review, id: DraftId) {
    forall op :: op in OutPoints(review) ==> op in reservations && reservations[op] == id
  }

  ghost predicate OwnerIsActive(drafts: map<DraftId, Draft>, op: OutPoint, owner: DraftId) {
    owner in drafts && Active(drafts[owner].review.state) && op in OutPoints(drafts[owner].review)
  }

  ghost predicate Owned(drafts: map<DraftId, Draft>, reservations: map<OutPoint, DraftId>) {
    && (forall id :: id in drafts && Active(drafts[id].review.state) ==> OwnsInputs(reservations, drafts[id].review, id))
    && (forall op :: op in reservations ==> OwnerIsActive(drafts, op, reservations[op]))
  }

  // ---- Steps ----

  /** Leaving the active states and releasing the draft's own rows. */
  lemma RetireKeeps(drafts: map<DraftId, Draft>, reservations: map<OutPoint, DraftId>, id: DraftId, state: DraftState)
    requires Owned(drafts, reservations) && id in drafts && !Active(state)
    ensures Owned(drafts[id := WithState(drafts[id], state)], ReleaseOf(reservations, id))
  {
    var after, left := drafts[id := WithState(drafts[id], state)], ReleaseOf(reservations, id);
    forall other | other in after && Active(after[other].review.state)
      ensures OwnsInputs(left, after[other].review, other)
    {
      assert OwnsInputs(reservations, drafts[other].review, other);
    }
    forall op | op in left ensures OwnerIsActive(after, op, left[op]) {
      assert OwnerIsActive(drafts, op, reservations[op]);
    }
  }

  /** Moving between active states. */
  lemma AdvanceKeeps(drafts: map<DraftId, Draft>, reservations: map<OutPoint, DraftId>, id: DraftId, state: DraftState)
    requires Owned(drafts, reservations) && id in drafts && Active(drafts[id].review.state) && Active(state)
    ensures Owned(drafts[id := WithState(drafts[id], state)], reservations)
  {
    var after := drafts[id := WithState(drafts[id], state)];
    forall other | other in after && Active(after[other].review.state)
      ensures OwnsInputs(reservations, after[other].review, other)
    {
      assert OwnsInputs(reservations, drafts[other].review, other);
      assert OutPoints(after[other].review) == OutPoints(drafts[other].review);
    }
    forall op | op in reservations ensures OwnerIsActive(after, op, reservations[op]) {
      assert OwnerIsActive(drafts, op, reservations[op]);
      assert OutPoints(after[reservations[op]].review) == OutPoints(drafts[reservations[op]].review);
    }
  }

  lemma DiscardKeeps(drafts: map<DraftId, Draft>, reservations: map<OutPoint, DraftId>, id: DraftId)
    requires Owned(drafts, reservations)
    ensures Owned(drafts - {id}, ReleaseOf(reservations, id))
  {
    var left := ReleaseOf(reservations, id);
    forall other | other in drafts - {id} && Active((drafts - {id})[other].review.state)
      ensures OwnsInputs(left, (drafts - {id})[other].review, other)
    {
      assert OwnsInputs(reservations, drafts[other].review, other);
    }
    forall op | op in left ensures OwnerIsActive(drafts - {id}, op, left[op]) {
      assert OwnerIsActive(drafts, op, reservations[op]);
    }
  }

  lemma CreateKeeps(drafts: map<DraftId, Draft>, reservations: map<OutPoint, DraftId>, draft: Draft, id: DraftId,
                    outpoints: seq<OutPoint>)
    requires Owned(drafts, reservations) && id !in drafts && Active(draft.review.state)
    requires Reserve(reservations, outpoints, id).Ok?
    requires OutPoints(draft.review) == set op | op in outpoints
    ensures Owned(drafts[id := draft], Reserve(reservations, outpoints, id).value)
  {
    var after, rows := drafts[id := draft], Reserve(reservations, outpoints, id).value;
    forall other | other in after && Active(after[other].review.state)
      ensures OwnsInputs(rows, after[other].review, other)
    {
      if other != id {
        assert OwnsInputs(reservations, drafts[other].review, other);
      }
    }
    forall op | op in rows ensures OwnerIsActive(after, op, rows[op]) {
      if op in reservations {
        assert OwnerIsActive(drafts, op, reservations[op]);
      }
    }
  }

  lemma ReviewNamesPrevouts(env: Env, db: Db, request: Request, target: Bytes, psbt: Psbt)
    requires ReviewProposal(env, db, request, target, psbt).Ok?
    ensures var review := ReviewProposal(env, db, request, target, psbt).value;
      && OutPoints(review) == (set op | op in Prevouts(psbt.tx))
      && review.state == Unsigned
      && forall op :: op in OutPoints(review) ==> IsAvailable(env, db, op)
  {
    hide IsAvailable, ReviewOutput, SumInputs, SumOutputs, ComputeTxid, IsMine;
    var review := ReviewProposal(env, db, request, target, psbt).value;
    var prevouts := Prevouts(psbt.tx);
    assert |review.inputs| == |prevouts| && forall i :: 0 <= i < |prevouts| ==> review.inputs[i].outpoint == prevouts[i];
  }

  /** A loaded draft's approved inputs are reserved by it, eligible, unfrozen and distinct. */
  lemma LoadedInputs(env: Env, db: Db, id: DraftId)
    requires LoadDraft(env, db, id).Ok?
    ensures id in db.drafts && Active(db.drafts[id].review.state)
    ensures OwnsInputs(db.reservations, db.drafts[id].review, id)
    ensures forall op :: op in OutPoints(db.drafts[id].review) ==> Eligible(env, db.chain, op) && op !in db.freezes
  {
    hide OutputsMatch, Balanced, Identified, Parses, Trust, Eligible;
    var draft := db.drafts[id];
    assert Parses(env, draft.psbt) && Identified(env, id, draft);
    LoadedLengths(env, id, draft);
    var each := seq(|draft.psbt.tx.inputs|, i requires 0 <= i < |draft.psbt.tx.inputs| => LoadInput(env, db, id, draft, i));
    forall op | op in OutPoints(draft.review)
      ensures op in db.reservations && db.reservations[op] == id && Eligible(env, db.chain, op) && op !in db.freezes
    {
      var i :| 0 <= i < |draft.review.inputs| && draft.review.inputs[i].outpoint == op;
      assert each[i].Ok?;
    }
  }

  lemma LoadedLengths(env: Env, id: DraftId, draft: Draft)
    requires Parses(env, draft.psbt) && Identified(env, id, draft)
    ensures |draft.review.inputs| == |draft.psbt.tx.inputs|
  {
  }

  /**
   * `INSERT OR IGNORE` keeps a foreign owner in place, so writing alone can break
   * ownership; the validation that follows refuses exactly those cases.
   */
  lemma ResumeKeeps(env: Env, db: Db, id: DraftId)
    requires Owned(db.drafts, db.reservations) && id in db.drafts
    requires LoadDraft(env, Rewritten(db, id), id).Ok?
    ensures Owned(Rewritten(db, id).drafts, Rewritten(db, id).reservations)
  {
    LoadedInputs(env, Rewritten(db, id), id);
    RewrittenKeeps(db, id);
  }

  lemma RewrittenKeeps(db: Db, id: DraftId)
    requires Owned(db.drafts, db.reservations) && id in db.drafts
    requires OwnsInputs(Rewritten(db, id).reservations, db.drafts[id].review, id)
    ensures Owned(Rewritten(db, id).drafts, Rewritten(db, id).reservations)
  {
    var written := Rewritten(db, id);
    assert OutPoints(written.drafts[id].review) == OutPoints(db.drafts[id].review);
    forall other | other in written.drafts && Active(written.drafts[other].review.state)
      ensures OwnsInputs(written.reservations, written.drafts[other].review, other)
    {
      if other != id {
        assert OwnsInputs(db.reservations, db.drafts[other].review, other);
      }
    }
    forall op | op in written.reservations ensures OwnerIsActive(written.drafts, op, written.reservations[op]) {
      if op in db.reservations {
        assert OwnerIsActive(db.drafts, op, db.reservations[op]);
        if db.reservations[op] == id {
          assert op in OutPoints(db.drafts[id].review);
        }
      }
    }
  }

  lemma SyncDraftKeeps(env: Env, db: Db, chain: Chain, id: DraftId)
    requires Owned(db.drafts, db.reservations) && id in db.drafts && SyncDraft(env, db, chain, id).Ok?
    ensures Owned(SyncDraft(env, db, chain, id).value.drafts, SyncDraft(env, db, chain, id).value.reservations)
  {
    hide Owned, ReleaseOf, Seen, StillEligible, OwnOutputs, PaymentLabels, ValidLabel;
    RetireKeeps(db.drafts, db.reservations, id, Observed);
    RetireKeeps(db.drafts, db.reservations, id, Invalidated);
  }

  lemma {:induction false} SyncKeeps(env: Env, db: Db, chain: Chain, order: seq<DraftId>)
    requires forall i :: 0 <= i < |order| ==> order[i] in db.drafts
    requires Owned(db.drafts, db.reservations) && SyncDrafts(env, db, chain, order).Ok?
    ensures Owned(SyncDrafts(env, db, chain, order).value.drafts, SyncDrafts(env, db, chain, order).value.reservations)
    decreases |order|
  {
    hide Owned, SyncDraft;
    if order != [] {
      SyncDraftKeeps(env, db, chain, order[0]);
      SyncKeeps(env, SyncDraft(env, db, chain, order[0]).value, chain, order[1..]);
    }
  }

  /** Every commit keeps ownership. */
  lemma CommitKeepsOwnership(env: Env, db: Db, op: Op)
    requires Owned(db.drafts, db.reservations)
    ensures Owned(Apply(env, db, op).drafts, Apply(env, db, op).reservations)
  {
    hide Owned, LoadDraft, ReviewProposal, Reserve, SyncDrafts, Enumerates, ReleaseOf, CheckSelection, CheckPayment, ValidLabel;
    if Commit(env, db, op).Ok? {
      match op
      case Create(request, target, proposal) =>
        ReviewNamesPrevouts(env, db, request, target, proposal.value);
        var review := ReviewProposal(env, db, request, target, proposal.value).value;
        CreateKeeps(db.drafts, db.reservations, Draft(proposal.value, review), review.id, Prevouts(proposal.value.tx));
      case Discard(id) => DiscardKeeps(db.drafts, db.reservations, id);
      case Freeze(_, _) =>
      case Tag(_, _, _) =>
      case Accept(id, response) => AcceptKeeps(env, db, id, response);
      case Finalise(id) => FinaliseKeeps(env, db, id);
      case Insert(_, _) =>
      case Reply(_, _) =>
      case Sync(chain, order) => SyncApplied(env, db, chain, order);
      case Reapprove(id, _, _, _) => ResumeKeeps(env, db, id);
    }
  }

  lemma SyncApplied(env: Env, db: Db, chain: Chain, order: seq<DraftId>)
    requires Enumerates(order, db.drafts)
    requires Owned(db.drafts, db.reservations) && ApplySync(env, db, chain, order).Ok?
    ensures Owned(ApplySync(env, db, chain, order).value.drafts, ApplySync(env, db, chain, order).value.reservations)
  {
    hide Owned, SyncDrafts;
    SyncKeeps(env, db, chain, order);
  }

  lemma AcceptKeeps(env: Env, db: Db, id: DraftId, response: Psbt)
    requires Owned(db.drafts, db.reservations) && AcceptSigned(env, db, id, response).Ok?
    ensures var after := AcceptSigned(env, db, id, response).value; Owned(after.drafts, after.reservations)
  {
    hide Owned, LoadDraft;
    LoadedInputs(env, db, id);
    AdvanceKeeps(db.drafts, db.reservations, id, Signed);
    AdvanceKeeps(db.drafts, db.reservations, id, PartiallySigned);
  }

  lemma FinaliseKeeps(env: Env, db: Db, id: DraftId)
    requires Owned(db.drafts, db.reservations) && FinalizeDraft(env, db, id).Ok?
    ensures var after := FinalizeDraft(env, db, id).value.0; Owned(after.drafts, after.reservations)
  {
    hide Owned, LoadDraft;
    LoadedInputs(env, db, id);
    AdvanceKeeps(db.drafts, db.reservations, id, Finalized);
  }
}
