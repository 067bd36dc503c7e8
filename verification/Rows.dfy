/**
 * What every draft's rows say about each other: stored aggregates verify, final rows are
 * exactly what finalization computes, and submissions pay exactly what was reviewed.
 */
module Rows {
  import opened Wrappers
  import opened ByteStrings
  import opened Psbts
  import opened Tables
  import opened Operations
  import opened Chainsync
  import opened Recovery
  import opened Commits
  import Signing
  import SigningLaws
  import Finalizer

  function TrustAt(env: Env, outpoint: OutPoint): Result<TrustedInput, Error> {
    match Trust(env, outpoint) case None => Err(CorruptState) case Some(t) => Ok(t)
  }

  /** The wallet's policies for a transaction's inputs: fixed by its outpoints, not by the store. */
  function TrustAll(env: Env, tx: Transaction): Result<seq<TrustedInput>, Error> {
    Collect(seq(|tx.inputs|, i requires 0 <= i < |tx.inputs| => TrustAt(env, tx.inputs[i].prev)))
  }

  /** The final transaction of an approval and its aggregate, as a function of nothing else. */
  function FinalFor(env: Env, psbt: Psbt, stored: Option<Psbt>): Result<Transaction, Error> {
    var trusted :- TrustAll(env, psbt.tx);
    Finalizer.Finalize(env.crypto, psbt, stored, trusted)
  }

  ghost predicate IsAggregate(env: Env, psbt: Psbt, trusted: seq<TrustedInput>, stored: Psbt, sigs: seq<Signing.Signatures>) {
    && Signing.ApprovedOk(env.crypto, psbt, trusted) && SigningLaws.WellFormed(psbt, trusted)
    && SigningLaws.Owned(env.crypto, psbt, trusted, sigs)
    && stored == Signing.WithSignatures(psbt, sigs)
  }

  ghost predicate StoredRowOk(env: Env, draft: Draft, stored: Psbt) {
    && TrustAll(env, draft.psbt.tx).Ok?
    && var trusted := TrustAll(env, draft.psbt.tx).value;
    && (exists sigs :: IsAggregate(env, draft.psbt, trusted, stored, sigs))
    && (draft.review.state == Signed ==> SigningLaws.Complete(env.crypto, stored, trusted))
  }

  /** One draft's review state, aggregate and final row agree. */
  ghost predicate RowOk(env: Env, draft: Draft, stored: Option<Psbt>, final: Option<Transaction>) {
    && (draft.review.state in {Unsigned, PartiallySigned, Signed} ==> final.None?)
    && (draft.review.state == Finalized ==> final.Some?)
    && (draft.review.state == Signed ==> stored.Some?)
    && (stored.Some? ==> StoredRowOk(env, draft, stored.value))
    && (final.Some? ==> FinalFor(env, draft.psbt, stored) == Ok(final.value))
  }

  function FinalRow(db: Db, id: DraftId): Option<Transaction> {
    if id in db.finalized then Some(db.finalized[id]) else None
  }

  ghost predicate DraftRowsOk(env: Env, db: Db) {
    && db.signatures.Keys <= db.drafts.Keys && db.finalized.Keys <= db.drafts.Keys
    && forall id :: id in db.drafts ==> RowOk(env, db.drafts[id], StoredSignatures(db, id), FinalRow(db, id))
  }

  lemma LoadedTrust(env: Env, db: Db, id: DraftId)
    requires LoadDraft(env, db, id).Ok?
    ensures var draft := LoadDraft(env, db, id).value;
      && id in db.drafts && draft.approved == db.drafts[id].psbt && draft.review == db.drafts[id].review
      && draft.stored == StoredSignatures(db, id)
      && Active(draft.review.state)
      && TrustAll(env, draft.approved.tx) == Ok(draft.trusted)
      && |draft.trusted| == |draft.approved.tx.inputs| == |draft.approved.inputs|
  {
    hide OutputsMatch, Balanced, Identified, Trust, Eligible;
    var draft := db.drafts[id];
    assert Identified(env, id, draft);
    LoadedCounts(env, id, draft);
    var each := seq(|draft.psbt.tx.inputs|, i requires 0 <= i < |draft.psbt.tx.inputs| => LoadInput(env, db, id, draft, i));
    var known := seq(|draft.psbt.tx.inputs|, i requires 0 <= i < |draft.psbt.tx.inputs| =>
      TrustAt(env, draft.psbt.tx.inputs[i].prev));
    forall i | 0 <= i < |each| ensures known[i] == each[i] {
      assert each[i].Ok?;
    }
    assert each == known;
  }

  lemma LoadedCounts(env: Env, id: DraftId, draft: Draft)
    requires Identified(env, id, draft) && Parses(env, draft.psbt)
    ensures |draft.review.inputs| == |draft.psbt.tx.inputs| == |draft.psbt.inputs|
    ensures |draft.review.outputs| == |draft.psbt.outputs| == |draft.psbt.tx.outputs|
  {
  }

  lemma LoadedIsWellFormed(env: Env, db: Db, id: DraftId)
    requires LoadDraft(env, db, id).Ok?
    ensures var draft := LoadDraft(env, db, id).value; SigningLaws.WellFormed(draft.approved, draft.trusted)
    ensures Balanced(db.drafts[id].review) && db.drafts[id].review.fee <= MAX_FEE
  {
    LoadedTrust(env, db, id);
    hide LoadInputs, Identified, Trust, IsMine, Balanced;
    var draft := LoadDraft(env, db, id).value;
    var outputs := draft.approved.outputs;
    assert OutputsMatch(env, db.drafts[id]);
    forall i | 0 <= i < |outputs| ensures Signing.OutputAllowed(outputs[i], outputs[i]) {
      assert OutputMatches(env, db.drafts[id].psbt.tx.outputs[i], db.drafts[id].review.outputs[i], outputs[i]);
    }
  }

  // ---- Preservation, one draft at a time ----

  ghost predicate OnlyEntryOf<V>(before: map<DraftId, V>, after: map<DraftId, V>, id: DraftId) {
    after == if id in after then before[id := after[id]] else before
  }

  /** Only one draft's rows change, and they agree afterwards. */
  lemma OneRowKeeps(env: Env, before: Db, after: Db, id: DraftId)
    requires DraftRowsOk(env, before) && id in after.drafts
    requires OnlyEntryOf(before.drafts, after.drafts, id)
    requires OnlyEntryOf(before.signatures, after.signatures, id)
    requires OnlyEntryOf(before.finalized, after.finalized, id)
    requires RowOk(env, after.drafts[id], StoredSignatures(after, id), FinalRow(after, id))
    ensures DraftRowsOk(env, after)
  {
    hide RowOk;
    forall other | other in after.drafts
      ensures RowOk(env, after.drafts[other], StoredSignatures(after, other), FinalRow(after, other))
    {
      assert other != id ==> RowOk(env, before.drafts[other], StoredSignatures(before, other), FinalRow(before, other));
    }
  }

  lemma SameRowsKeepRows(env: Env, before: Db, after: Db)
    requires DraftRowsOk(env, before)
    requires after.drafts == before.drafts && after.signatures == before.signatures && after.finalized == before.finalized
    ensures DraftRowsOk(env, after)
  {
    hide RowOk;
    forall id | id in after.drafts
      ensures RowOk(env, after.drafts[id], StoredSignatures(after, id), FinalRow(after, id))
    {
      assert RowOk(env, before.drafts[id], StoredSignatures(before, id), FinalRow(before, id));
    }
  }

  /** Leaving the active states cannot falsify a row. */
  lemma RetiredRowOk(env: Env, draft: Draft, stored: Option<Psbt>, final: Option<Transaction>, state: DraftState)
    requires RowOk(env, draft, stored, final) && state in {Observed, Invalidated}
    ensures RowOk(env, WithState(draft, state), stored, final)
  {
    hide TrustAll, SigningLaws.Complete, FinalFor, IsAggregate;
    if stored.Some? {
      var trusted := TrustAll(env, draft.psbt.tx).value;
      var sigs :| IsAggregate(env, draft.psbt, trusted, stored.value, sigs);
    }
  }

  /** A draft's turn in a sync changes no signature, no final row and no attempt. */
  lemma SyncDraftShape(env: Env, db: Db, chain: Chain, id: DraftId)
    requires id in db.drafts && SyncDraft(env, db, chain, id).Ok?
    ensures var after := SyncDraft(env, db, chain, id).value;
      && after.signatures == db.signatures && after.finalized == db.finalized
      && after.attempts == db.attempts && after.nextAttempt == db.nextAttempt
      && (|| after.drafts == db.drafts
          || after.drafts == db.drafts[id := WithState(db.drafts[id], Observed)]
          || after.drafts == db.drafts[id := WithState(db.drafts[id], Invalidated)])
  {
    hide Observe, StillEligible, ReleaseOf, HoldsWithout, ApplyObservedLabels, WithState;
    if Seen(env, db, chain, id).value {
      LabelShape(env, db, db.drafts[id].review, chain, Latest(db.attempts, id).value.txid);
    }
  }

  lemma LabelShape(env: Env, db: Db, review: Review, chain: Chain, txid: Txid)
    requires ApplyObservedLabels(env, db, review, chain, txid).Ok?
    ensures var after := ApplyObservedLabels(env, db, review, chain, txid).value;
      after == db.(applied := after.applied, labels := after.labels, provenance := after.provenance)
  {
    hide OwnOutputs, PaymentLabels, ValidLabel;
  }

  lemma SyncDraftKeepsRows(env: Env, db: Db, chain: Chain, id: DraftId)
    requires DraftRowsOk(env, db) && id in db.drafts && SyncDraft(env, db, chain, id).Ok?
    ensures DraftRowsOk(env, SyncDraft(env, db, chain, id).value)
  {
    SyncDraftShape(env, db, chain, id);
    RowOf(env, db, id);
    hide DraftRowsOk, RowOk, SyncDraft;
    var after := SyncDraft(env, db, chain, id).value;
    if after.drafts == db.drafts {
      SameRowsKeepRows(env, db, after);
    } else {
      RetiredRowOk(env, db.drafts[id], StoredSignatures(db, id), FinalRow(db, id), Observed);
      RetiredRowOk(env, db.drafts[id], StoredSignatures(db, id), FinalRow(db, id), Invalidated);
      RowsAreSubsets(env, db);
      OneRowKeeps(env, db, after, id);
    }
  }

  lemma RowOf(env: Env, db: Db, id: DraftId)
    requires DraftRowsOk(env, db) && id in db.drafts
    ensures RowOk(env, db.drafts[id], StoredSignatures(db, id), FinalRow(db, id))
  {
    hide RowOk;
  }

  lemma RowsAreSubsets(env: Env, db: Db)
    requires DraftRowsOk(env, db)
    ensures db.signatures.Keys <= db.drafts.Keys && db.finalized.Keys <= db.drafts.Keys
    ensures forall id :: OnlyEntryOf(db.signatures, db.signatures, id) && OnlyEntryOf(db.finalized, db.finalized, id)
  {
    hide RowOk;
  }

  lemma {:induction false} SyncKeepsRows(env: Env, db: Db, chain: Chain, order: seq<DraftId>)
    requires forall i :: 0 <= i < |order| ==> order[i] in db.drafts
    requires DraftRowsOk(env, db) && SyncDrafts(env, db, chain, order).Ok?
    ensures DraftRowsOk(env, SyncDrafts(env, db, chain, order).value)
    decreases |order|
  {
    hide DraftRowsOk, SyncDraft;
    if order != [] {
      SyncDraftKeepsRows(env, db, chain, order[0]);
      SyncKeepsRows(env, SyncDraft(env, db, chain, order[0]).value, chain, order[1..]);
    }
  }

  /** What an accepted response writes. */
  lemma AcceptedMerge(env: Env, db: Db, id: DraftId, response: Psbt)
    requires AcceptSigned(env, db, id, response).Ok?
    ensures LoadDraft(env, db, id).Ok? && id in db.drafts && db.drafts[id].review.state != Finalized
    ensures var draft := LoadDraft(env, db, id).value;
      var merge := Signing.Merge(env.crypto, draft.approved, draft.stored, response, draft.trusted);
      var after := AcceptSigned(env, db, id, response).value;
      && merge.Ok? && id in after.signatures && after.signatures[id] == merge.value
      && after.finalized == db.finalized && id in after.drafts
      && after.drafts[id] == WithState(db.drafts[id],
           if SigningLaws.Complete(env.crypto, merge.value, draft.trusted) then Signed else PartiallySigned)
  {
    LoadedTrust(env, db, id);
    hide LoadDraft, TrustAll, Signing.Merge, SigningLaws.Complete;
  }

  lemma UnfinishedRow(env: Env, draft: Draft, stored: Option<Psbt>, final: Option<Transaction>)
    requires RowOk(env, draft, stored, final) && Active(draft.review.state) && draft.review.state != Finalized
    ensures final.None? && (draft.review.state == Signed ==> stored.Some? && StoredRowOk(env, draft, stored.value))
  {
    hide StoredRowOk, FinalFor;
  }

  lemma AggregateRow(env: Env, draft: Draft, stored: Psbt, state: DraftState)
    requires StoredRowOk(env, WithState(draft, state), stored) && state in {PartiallySigned, Signed}
    ensures RowOk(env, WithState(draft, state), Some(stored), None)
  {
    hide StoredRowOk, FinalFor;
  }

  /** A merge into a sound row is a sound aggregate, and a signed draft stays signed. */
  lemma AcceptedRow(env: Env, db: Db, id: DraftId, response: Psbt)
    requires DraftRowsOk(env, db) && AcceptSigned(env, db, id, response).Ok?
    ensures id in db.drafts && id in AcceptSigned(env, db, id, response).value.drafts
    ensures var after := AcceptSigned(env, db, id, response).value;
      && RowOk(env, after.drafts[id], StoredSignatures(after, id), FinalRow(after, id))
      && (db.drafts[id].review.state == Signed ==> after.drafts[id].review.state == Signed)
  {
    AcceptedMerge(env, db, id, response);
    LoadedTrust(env, db, id);
    LoadedIsWellFormed(env, db, id);
    RowOf(env, db, id);
    hide DraftRowsOk, LoadDraft, AcceptSigned, Signing.Merge, SigningLaws.Complete, TrustAll, FinalFor, SigningLaws.WellFormed,
      StoredRowOk, RowOk;
    var draft := LoadDraft(env, db, id).value;
    var after := AcceptSigned(env, db, id, response).value;
    UnfinishedRow(env, db.drafts[id], StoredSignatures(db, id), FinalRow(db, id));
    MergedRow(env, db.drafts[id], draft.stored, response, after.drafts[id].review.state);
    AggregateRow(env, db.drafts[id], after.signatures[id], after.drafts[id].review.state);
    if draft.review.state == Signed {
      StaysComplete(env, db.drafts[id], draft.stored.value, response);
    }
  }

  lemma MergedRow(env: Env, draft: Draft, stored: Option<Psbt>, response: Psbt, state: DraftState)
    requires TrustAll(env, draft.psbt.tx).Ok?
    requires var trusted := TrustAll(env, draft.psbt.tx).value;
      && SigningLaws.WellFormed(draft.psbt, trusted)
      && Signing.Merge(env.crypto, draft.psbt, stored, response, trusted).Ok?
      && (state == Signed ==>
            SigningLaws.Complete(env.crypto, Signing.Merge(env.crypto, draft.psbt, stored, response, trusted).value, trusted))
    ensures var trusted := TrustAll(env, draft.psbt.tx).value;
      StoredRowOk(env, WithState(draft, state), Signing.Merge(env.crypto, draft.psbt, stored, response, trusted).value)
  {
    hide TrustAll, Signing.Merge, SigningLaws.Complete, SigningLaws.WellFormed, SigningLaws.Owned, Signing.ApprovedOk;
    var trusted := TrustAll(env, draft.psbt.tx).value;
    var merged := Signing.Merge(env.crypto, draft.psbt, stored, response, trusted).value;
    SigningLaws.MergedAreOwned(env.crypto, draft.psbt, stored, response, trusted);
    var sigs := SigningLaws.MergedSignatures(env.crypto, draft.psbt, stored, response, trusted);
    assert IsAggregate(env, draft.psbt, trusted, merged, sigs);
  }

  lemma StaysComplete(env: Env, draft: Draft, stored: Psbt, response: Psbt)
    requires StoredRowOk(env, draft, stored) && draft.review.state == Signed
    requires var trusted := TrustAll(env, draft.psbt.tx).value;
      Signing.Merge(env.crypto, draft.psbt, Some(stored), response, trusted).Ok?
    ensures var trusted := TrustAll(env, draft.psbt.tx).value;
      SigningLaws.Complete(env.crypto, Signing.Merge(env.crypto, draft.psbt, Some(stored), response, trusted).value, trusted)
  {
    hide TrustAll, SigningLaws.Complete, Signing.Merge, SigningLaws.Owned, Signing.ApprovedOk, SigningLaws.WellFormed;
    var trusted := TrustAll(env, draft.psbt.tx).value;
    var sigs :| IsAggregate(env, draft.psbt, trusted, stored, sigs);
    SigningLaws.SignedNeverReverts(env.crypto, draft.psbt, trusted, sigs, response);
  }

  lemma AcceptShape(env: Env, db: Db, id: DraftId, response: Psbt)
    requires AcceptSigned(env, db, id, response).Ok?
    ensures var after := AcceptSigned(env, db, id, response).value;
      && id in db.drafts && id in after.signatures
      && after == db.(drafts := db.drafts[id := after.drafts[id]], signatures := db.signatures[id := after.signatures[id]])
      && after.drafts[id] == WithState(db.drafts[id], after.drafts[id].review.state)
      && after.drafts[id].review.state in {PartiallySigned, Signed}
  {
    LoadedTrust(env, db, id);
    hide LoadDraft, TrustAll, Signing.Merge, SigningLaws.Complete;
  }

  lemma AcceptKeepsRows(env: Env, db: Db, id: DraftId, response: Psbt)
    requires DraftRowsOk(env, db) && AcceptSigned(env, db, id, response).Ok?
    ensures DraftRowsOk(env, AcceptSigned(env, db, id, response).value)
  {
    AcceptedRow(env, db, id, response);
    LoadedTrust(env, db, id);
    AcceptShape(env, db, id, response);
    RowsAreSubsets(env, db);
    hide RowOk, DraftRowsOk, AcceptSigned, LoadDraft, TrustAll;
    OneRowKeeps(env, db, AcceptSigned(env, db, id, response).value, id);
  }

  lemma FinalisedRow(env: Env, draft: Draft, stored: Option<Psbt>, tx: Transaction)
    requires RowOk(env, draft, stored, None) && FinalFor(env, draft.psbt, stored) == Ok(tx)
    ensures RowOk(env, WithState(draft, Finalized), stored, Some(tx))
  {
    hide TrustAll, FinalFor, IsAggregate, SigningLaws.Complete;
    if stored.Some? {
      var sigs :| IsAggregate(env, draft.psbt, TrustAll(env, draft.psbt.tx).value, stored.value, sigs);
    }
  }

  lemma FinaliseShape(env: Env, db: Db, id: DraftId)
    requires FinalizeDraft(env, db, id).Ok?
    ensures var after := FinalizeDraft(env, db, id).value.0;
      && id in db.drafts
      && (after == db
          || (id !in db.finalized && id in after.finalized
              && after == db.(finalized := db.finalized[id := after.finalized[id]],
                              drafts := db.drafts[id := WithState(db.drafts[id], Finalized)])))
  {
    LoadedTrust(env, db, id);
    hide LoadDraft, Finalizer.Finalize, TrustAll;
  }

  lemma FinalisedBytes(env: Env, db: Db, id: DraftId)
    requires FinalizeDraft(env, db, id).Ok? && id !in db.finalized
    ensures var after := FinalizeDraft(env, db, id).value.0;
      && id in db.drafts && id in after.finalized
      && FinalFor(env, db.drafts[id].psbt, StoredSignatures(db, id)) == Ok(after.finalized[id])
  {
    LoadedTrust(env, db, id);
    hide LoadDraft, Finalizer.Finalize, TrustAll;
  }

  lemma FinaliseKeepsRows(env: Env, db: Db, id: DraftId)
    requires DraftRowsOk(env, db) && FinalizeDraft(env, db, id).Ok?
    ensures DraftRowsOk(env, FinalizeDraft(env, db, id).value.0)
  {
    FinaliseShape(env, db, id);
    var after := FinalizeDraft(env, db, id).value.0;
    if after != db {
      FinalisedBytes(env, db, id);
      RowOf(env, db, id);
      RowsAreSubsets(env, db);
      hide RowOk, DraftRowsOk, FinalizeDraft, FinalFor;
      FinalisedRow(env, db.drafts[id], StoredSignatures(db, id), after.finalized[id]);
      OneRowKeeps(env, db, after, id);
    }
  }

  lemma RewrittenRow(env: Env, db: Db, id: DraftId)
    requires DraftRowsOk(env, db) && id in db.drafts && id in db.finalized && db.drafts[id].review.state == Invalidated
    ensures RowOk(env, WithState(db.drafts[id], Finalized), StoredSignatures(db, id), FinalRow(db, id))
  {
    hide TrustAll, FinalFor, IsAggregate, SigningLaws.Complete;
    var draft := db.drafts[id];
    assert RowOk(env, draft, StoredSignatures(db, id), FinalRow(db, id));
    if StoredSignatures(db, id).Some? {
      var stored := StoredSignatures(db, id).value;
      var sigs :| IsAggregate(env, draft.psbt, TrustAll(env, draft.psbt.tx).value, stored, sigs);
    }
  }

  lemma ResumeKeepsRows(env: Env, db: Db, id: DraftId, txid: Txid, attempt: nat, acknowledged: bool)
    requires DraftRowsOk(env, db) && Resume(env, db, id, txid, attempt, acknowledged).Ok?
    ensures DraftRowsOk(env, Resume(env, db, id, txid, attempt, acknowledged).value.0)
  {
    hide RowOk, LoadDraft, Finalizer.Finalize, ReserveIgnoring, HoldsWithout;
    RewrittenRow(env, db, id);
    OneRowKeeps(env, db, Resume(env, db, id, txid, attempt, acknowledged).value.0, id);
  }

  lemma CreateKeepsRows(env: Env, before: Db, after: Db, id: DraftId, draft: Draft)
    requires DraftRowsOk(env, before) && id !in before.drafts && draft.review.state == Unsigned
    requires after.drafts == before.drafts[id := draft]
    requires after.signatures == before.signatures && after.finalized == before.finalized
    ensures DraftRowsOk(env, after)
  {
    hide FinalFor, StoredRowOk;
    assert id !in before.signatures && id !in before.finalized;
    OneRowKeeps(env, before, after, id);
  }

  lemma DiscardKeepsRows(env: Env, db: Db, id: DraftId)
    requires DraftRowsOk(env, db) && DiscardDraft(db, id).Ok?
    ensures DraftRowsOk(env, DiscardDraft(db, id).value)
  {
    hide RowOk, Submitted, ReleaseOf, HoldsWithout;
    var after := DiscardDraft(db, id).value;
    forall other | other in after.drafts
      ensures RowOk(env, after.drafts[other], StoredSignatures(after, other), FinalRow(after, other))
    {
      assert RowOk(env, db.drafts[other], StoredSignatures(db, other), FinalRow(db, other));
    }
  }

  /** In every committed state a final row equals finalization of its approval and aggregate. */
  lemma CommitKeepsRows(env: Env, db: Db, op: Op)
    requires DraftRowsOk(env, db)
    ensures DraftRowsOk(env, Apply(env, db, op))
  {
    hide DraftRowsOk, LoadDraft, ReviewProposal, Reserve, SyncDrafts, Enumerates, ReleaseOf, CheckSelection, CheckPayment,
      ValidLabel, HoldsWithout, Signing.Merge, Finalizer.Finalize, CheckPrevious, Submitted, SigningLaws.Complete;
    if Commit(env, db, op).Ok? {
      var after := Apply(env, db, op);
      match op
      case Create(request, target, proposal) =>
        var review := ReviewProposal(env, db, request, target, proposal.value).value;
        ProposalIsUnsigned(env, db, request, target, proposal.value);
        CreateKeepsRows(env, db, after, review.id, Draft(proposal.value, review));
      case Discard(id) => DiscardKeepsRows(env, db, id);
      case Freeze(_, _) => SameRowsKeepRows(env, db, after);
      case Tag(_, _, _) => SameRowsKeepRows(env, db, after);
      case Accept(id, response) => AcceptKeepsRows(env, db, id, response);
      case Finalise(id) => FinaliseKeepsRows(env, db, id);
      case Insert(_, _) => SameRowsKeepRows(env, db, after);
      case Reply(_, _) => SameRowsKeepRows(env, db, after);
      case Sync(chain, order) =>
        assert Enumerates(order, db.drafts);
        SyncAppliedRows(env, db, chain, order);
      case Reapprove(id, txid, attempt, acknowledged) => ResumeKeepsRows(env, db, id, txid, attempt, acknowledged);
    }
  }

  lemma ProposalIsUnsigned(env: Env, db: Db, request: Request, target: Bytes, psbt: Psbt)
    requires ReviewProposal(env, db, request, target, psbt).Ok?
    ensures ReviewProposal(env, db, request, target, psbt).value.state == Unsigned
  {
    hide IsAvailable, ReviewOutput, SumInputs, SumOutputs, ComputeTxid, IsMine;
  }

  lemma SyncAppliedRows(env: Env, db: Db, chain: Chain, order: seq<DraftId>)
    requires Enumerates(order, db.drafts)
    requires DraftRowsOk(env, db) && ApplySync(env, db, chain, order).Ok?
    ensures DraftRowsOk(env, ApplySync(env, db, chain, order).value)
  {
    hide DraftRowsOk, SyncDrafts;
    SyncKeepsRows(env, db, chain, order);
    SameRowsKeepRows(env, SyncDrafts(env, db, chain, order).value, ApplySync(env, db, chain, order).value);
  }
}
