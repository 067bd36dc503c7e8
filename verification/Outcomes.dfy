/** When each later operation on a draft succeeds, and what it writes, said on the rows before the call. */
module Outcomes {
  import opened Wrappers
  import opened ByteStrings
  import opened Psbts
  import opened Tables
  import opened Operations
  import opened Recovery
  import opened Submissions
  import opened Loading
  import Signing
  import SigningLaws
  import Finalizer
  import FinalBytes
  import Responses
  import Creation
  import Rows

  // ---- Signing and finalizing ----

  ghost predicate CarriesSignature(psbt: Psbt) {
    exists i :: 0 <= i < |psbt.inputs| && psbt.inputs[i].partialSigs != map[]
  }

  ghost predicate IsSigned(env: Env, loaded: SigningDraft, merged: Psbt) {
    && |merged.inputs| == |loaded.trusted| > 0
    && forall i :: 0 <= i < |loaded.trusted| ==> FinalBytes.HasEnough(env.crypto, loaded.trusted[i], merged.inputs[i].partialSigs)
  }

  lemma AcceptForm(env: Env, db: Db, id: DraftId, response: Psbt, loaded: SigningDraft)
    requires LoadDraft(env, db, id) == Ok(loaded)
    ensures var merged := Signing.Merge(env.crypto, loaded.approved, loaded.stored, response, loaded.trusted);
      && id in db.drafts
      && (AcceptSigned(env, db, id, response).Ok? <==> loaded.review.state != Finalized && merged.Ok? && CarriesSignature(merged.value))
      && (AcceptSigned(env, db, id, response).Ok? ==>
            AcceptSigned(env, db, id, response).value == db.(
              signatures := db.signatures[id := merged.value],
              drafts := db.drafts[id := WithState(db.drafts[id],
                if SigningLaws.Complete(env.crypto, merged.value, loaded.trusted) then DraftState.Signed else PartiallySigned)]))
  {
    LoadedIsExact(env, db, id);
    hide LoadDraft, Signing.Merge, SigningLaws.Complete;
  }

  /** A response is accepted for a loadable draft that is not final, when it merges and leaves a signature. */
  lemma AcceptsExactly(env: Env, db: Db, id: DraftId, response: Psbt)
    ensures AcceptSigned(env, db, id, response).Ok? <==>
      && LoadDraft(env, db, id).Ok?
      && var loaded := LoadDraft(env, db, id).value;
      var merged := Signing.Merge(env.crypto, loaded.approved, loaded.stored, response, loaded.trusted);
      loaded.review.state != Finalized && merged.Ok? && CarriesSignature(merged.value)
    ensures AcceptSigned(env, db, id, response).Ok? ==>
      var loaded, after := LoadDraft(env, db, id).value, AcceptSigned(env, db, id, response).value;
      && id in db.drafts && id in after.drafts && id in after.signatures
      && Signing.Merge(env.crypto, loaded.approved, loaded.stored, response, loaded.trusted) == Ok(after.signatures[id])
      && after == db.(drafts := db.drafts[id := after.drafts[id]], signatures := db.signatures[id := after.signatures[id]])
      && after.drafts[id] == db.drafts[id].(review := db.drafts[id].review.(state := after.drafts[id].review.state))
      && after.drafts[id].review.state == (if IsSigned(env, loaded, after.signatures[id]) then DraftState.Signed else PartiallySigned)
  {
    if LoadDraft(env, db, id).Ok? {
      var loaded := LoadDraft(env, db, id).value;
      AcceptForm(env, db, id, response, loaded);
      var merged := Signing.Merge(env.crypto, loaded.approved, loaded.stored, response, loaded.trusted);
      if merged.Ok? {
        FinalBytes.CompleteIsExact(env.crypto, merged.value, loaded.trusted);
      }
      hide LoadDraft, Signing.Merge, SigningLaws.Complete, FinalBytes.HasEnough, AcceptSigned, CarriesSignature;
    } else {
      assert AcceptSigned(env, db, id, response).Err?;
      hide AcceptSigned, LoadDraft;
    }
  }

  /** What was approved and signed assembles to these bytes. */
  ghost predicate Assembles(env: Env, loaded: SigningDraft, tx: Transaction) {
    Finalizer.Finalize(env.crypto, loaded.approved, loaded.stored, loaded.trusted) == Ok(tx)
  }

  ghost predicate Reports(env: Env, id: DraftId, review: Review, tx: Transaction, found: FinalReview) {
    && found.draft == id && found.tx == tx && found.fee == review.fee
    && found.txid == env.crypto.hash(Responses.WithoutWitnesses(tx)) && found.wtxid == env.wtxid(tx)
  }

  lemma ReportIsExact(env: Env, id: DraftId, review: Review, tx: Transaction, found: FinalReview)
    ensures found == ReviewFinal(env, id, review, tx) <==> Reports(env, id, review, tx, found)
  {
    Responses.TxidIsExact(env.crypto, tx);
    hide ComputeTxid;
  }

  lemma FinalizeForm(env: Env, db: Db, id: DraftId, loaded: SigningDraft)
    requires LoadDraft(env, db, id) == Ok(loaded)
    ensures FinalizeDraft(env, db, id).Ok? <==>
      && Finalizer.Finalize(env.crypto, loaded.approved, loaded.stored, loaded.trusted).Ok?
      && var tx := Finalizer.Finalize(env.crypto, loaded.approved, loaded.stored, loaded.trusted).value;
      if id in db.finalized then db.finalized[id] == tx && loaded.review.state == Finalized else loaded.review.state != Finalized
    ensures FinalizeDraft(env, db, id).Ok? ==>
      var tx := Finalizer.Finalize(env.crypto, loaded.approved, loaded.stored, loaded.trusted).value;
      && id in db.drafts
      && FinalizeDraft(env, db, id).value.1 == ReviewFinal(env, id, loaded.review, tx)
      && FinalizeDraft(env, db, id).value.0 ==
           if id in db.finalized then db
           else db.(finalized := db.finalized[id := tx], drafts := db.drafts[id := WithState(db.drafts[id], Finalized)])
  {
    LoadedIsExact(env, db, id);
    hide LoadDraft, Finalizer.Finalize, ReviewFinal;
  }

  /** Finalizing freezes the assembled bytes once; on a finalized draft it reports the same bytes and writes nothing. */
  lemma FinalizesDraftExactly(env: Env, db: Db, id: DraftId)
    ensures FinalizeDraft(env, db, id).Ok? <==>
      && LoadDraft(env, db, id).Ok?
      && var loaded := LoadDraft(env, db, id).value;
      && (loaded.review.state == Finalized <==> id in db.finalized)
      && exists tx :: Assembles(env, loaded, tx) && (id in db.finalized ==> db.finalized[id] == tx)
    ensures FinalizeDraft(env, db, id).Ok? ==>
      var loaded, (after, found) := LoadDraft(env, db, id).value, FinalizeDraft(env, db, id).value;
      && id in db.drafts && id in after.finalized && Assembles(env, loaded, after.finalized[id])
      && Reports(env, id, loaded.review, after.finalized[id], found)
      && after == db.(
           drafts := db.drafts[id := db.drafts[id].(review := db.drafts[id].review.(state := Finalized))],
           finalized := db.finalized[id := after.finalized[id]])
  {
    if LoadDraft(env, db, id).Ok? {
      var loaded := LoadDraft(env, db, id).value;
      LoadedIsExact(env, db, id);
      FinalizeForm(env, db, id, loaded);
      var tx := Finalizer.Finalize(env.crypto, loaded.approved, loaded.stored, loaded.trusted);
      hide LoadDraft, Finalizer.Finalize, ReviewFinal, Reports, FinalizeDraft;
      if tx.Ok? {
        ReportIsExact(env, id, loaded.review, tx.value, ReviewFinal(env, id, loaded.review, tx.value));
        assert Assembles(env, loaded, tx.value);
      }
      assert id in db.finalized ==> db.finalized[id := db.finalized[id]] == db.finalized;
      assert loaded.review.state == Finalized ==>
          db.drafts[id := db.drafts[id].(review := db.drafts[id].review.(state := Finalized))] == db.drafts;
    } else {
      assert FinalizeDraft(env, db, id).Err?;
      hide LoadDraft, FinalizeDraft;
    }
  }

  /** The stored bytes re-validate exactly when a finalized, loadable draft still assembles to them. */
  lemma ValidatesExactly(env: Env, db: Db, id: DraftId, found: FinalReview)
    ensures ValidatedFinalized(env, db, id) == Ok(Some(found)) <==>
      && LoadDraft(env, db, id).Ok? && id in db.finalized
      && var loaded := LoadDraft(env, db, id).value;
      && loaded.review.state == Finalized && Assembles(env, loaded, db.finalized[id])
      && Reports(env, id, loaded.review, db.finalized[id], found)
  {
    if LoadDraft(env, db, id).Ok? && id in db.finalized {
      ReportIsExact(env, id, LoadDraft(env, db, id).value.review, db.finalized[id], found);
    }
    hide LoadDraft, Finalizer.Finalize, ReviewFinal, Reports;
  }

  // ---- Submitting ----

  ghost predicate MayAttempt(db: Db, request: BroadcastRequest) {
    && LatestId(db.attempts, request.draft) == request.previous
    && (request.previous.Some? ==> request.retryAcknowledged)
    && AttemptCount(db.attempts, request.draft) < 64
  }

  lemma PreviousIsExact(db: Db, request: BroadcastRequest)
    ensures CheckPrevious(db, request.draft, request.previous, request.retryAcknowledged).Pass? <==> MayAttempt(db, request)
  {
    hide AttemptCount, Latest;
  }

  /**
   * A caller may go on exactly with the bytes that re-validate, whose transaction id is the
   * one it named, after the newest attempt it named, with consent to repeat and with room.
   */
  lemma BeginsExactly(env: Env, db: Db, request: BroadcastRequest, approved: FinalReview)
    ensures BeginBroadcast(env, db, request) == Ok(approved) <==>
      && !env.mainnet && request.endpointOk
      && ValidatedFinalized(env, db, request.draft) == Ok(Some(approved))
      && request.draft in db.finalized
      && env.crypto.hash(Responses.WithoutWitnesses(db.finalized[request.draft])) == request.expectedTxid
      && MayAttempt(db, request)
  {
    PreviousIsExact(db, request);
    ValidatesExactly(env, db, request.draft, approved);
    hide ValidatedFinalized, CheckPrevious, MayAttempt, LoadDraft, Assembles;
  }

  /** The insert repeats every check and appends one unacknowledged row with a new id. */
  lemma InsertsExactly(env: Env, db: Db, request: BroadcastRequest, approved: FinalReview)
    ensures InsertAttempt(env, db, request, approved).Ok? <==>
      ValidatedFinalized(env, db, request.draft) == Ok(Some(approved)) && MayAttempt(db, request)
    ensures InsertAttempt(env, db, request, approved).Ok? ==>
      var (after, attempt) := InsertAttempt(env, db, request, approved).value;
      && attempt == db.nextAttempt && request.draft in db.finalized
      && after == db.(
           nextAttempt := db.nextAttempt + 1,
           attempts := db.attempts + [Attempt(
             attempt, request.draft, env.crypto.hash(Responses.WithoutWitnesses(db.finalized[request.draft])),
             env.wtxid(db.finalized[request.draft]), false)])
  {
    PreviousIsExact(db, request);
    ValidatesExactly(env, db, request.draft, approved);
    hide ValidatedFinalized, CheckPrevious, MayAttempt, LoadDraft, Assembles;
  }

  /** A reply marks exactly the rows of its own attempt and draft. */
  lemma AcknowledgesExactly(db: Db, attempt: nat, id: DraftId)
    ensures var after := Acknowledge(db, attempt, id);
      && after == db.(attempts := after.attempts) && |after.attempts| == |db.attempts|
      && forall k :: 0 <= k < |db.attempts| ==>
           && after.attempts[k] == db.attempts[k].(acknowledged := after.attempts[k].acknowledged)
           && (after.attempts[k].acknowledged <==>
                 db.attempts[k].acknowledged || (db.attempts[k].id == attempt && db.attempts[k].draft == id))
  {
  }

  // ---- Discarding, freezing, labelling ----

  /** Only a draft that was never submitted can be discarded; its coins are free again and its rows are gone. */
  lemma DiscardsExactly(db: Db, id: DraftId)
    ensures DiscardDraft(db, id).Ok? <==> id in db.drafts && forall k :: 0 <= k < |db.attempts| ==> db.attempts[k].draft != id
    ensures DiscardDraft(db, id).Ok? ==>
      var after := DiscardDraft(db, id).value;
      && after.drafts.Keys == db.drafts.Keys - {id} && (forall other :: other in after.drafts ==> after.drafts[other] == db.drafts[other])
      && (forall op :: op in after.reservations <==> op in db.reservations && db.reservations[op] != id)
      && (forall op :: op in after.reservations ==> after.reservations[op] == db.reservations[op])
      && (forall h :: h in after.holds <==> h in db.holds && h.draft != id)
      && after == db.(
           drafts := after.drafts, reservations := after.reservations, holds := after.holds, signatures := db.signatures - {id},
           finalized := db.finalized - {id}, recovered := db.recovered - {id}, applied := db.applied - {id},
           provenance := after.provenance)
      && (forall op :: op in after.provenance <==> op in db.provenance && db.provenance[op] != id)
      && (forall op :: op in after.provenance ==> after.provenance[op] == db.provenance[op])
  {
  }

  /** A frozen coin is shown frozen and offered to nobody, and no draft that spends it loads. */
  lemma FreezeBlocks(env: Env, db: Db, op: OutPoint, frozen: bool)
    ensures SetFrozen(db, op, frozen).Ok? <==> op in db.chain.unspent
    ensures op in db.chain.unspent ==>
      var after := SetFrozen(db, op, frozen).value;
      && after == db.(freezes := after.freezes)
      && (forall other :: other != op ==> (other in after.freezes <==> other in db.freezes))
      && (Status(env, after, op) == Frozen <==> frozen) && (frozen ==> !IsAvailable(env, after, op))
      && (forall id, i :: frozen && id in db.drafts && 0 <= i < |db.drafts[id].psbt.tx.inputs| && db.drafts[id].psbt.tx.inputs[i].prev == op
            ==> LoadDraft(env, after, id).Err?)
  {
    if op in db.chain.unspent {
      var after := SetFrozen(db, op, frozen).value;
      StatusIsExact(env, after, op);
      AvailableIsExact(env, after, op);
      forall id, i | frozen && id in db.drafts && 0 <= i < |db.drafts[id].psbt.tx.inputs| && db.drafts[id].psbt.tx.inputs[i].prev == op
        ensures LoadDraft(env, after, id).Err?
      {
        LoadsExactly(env, after, id);
        FrozenFalls(env, after, id, i);
      }
      hide LoadDraft, Stands, IsAvailable, Status, IsMature;
    }
  }

  lemma FrozenFalls(env: Env, db: Db, id: DraftId, i: nat)
    requires id in db.drafts && i < |db.drafts[id].psbt.tx.inputs| && db.drafts[id].psbt.tx.inputs[i].prev in db.freezes
    ensures !Stands(env, db, id)
  {
    if Stands(env, db, id) {
      var draft := db.drafts[id];
      assert |draft.psbt.tx.inputs| == |draft.review.inputs| && InputStands(env, db, id, draft, i) by {
        hide OutputStands, SumInputs, SumOutputs, IsMature, Parses;
      }
    }
  }

  /** A known reference takes any proper label, the empty one included, and no other row changes. */
  lemma LabelsExactly(db: Db, reference: Reference, known: bool, tag: string)
    ensures SetLabel(db, reference, known, tag).Ok? <==> known && Creation.IsPlainText(tag)
    ensures SetLabel(db, reference, known, tag).Ok? ==> SetLabel(db, reference, known, tag).value == db.(labels := db.labels[reference := tag])
  {
    Creation.LabelIsExact(tag);
    hide ValidLabel, Creation.IsPlainText;
  }
}
