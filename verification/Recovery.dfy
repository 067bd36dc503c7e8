/** Suspension of a restored store and the explicit resumption of one submitted draft. */
module Recovery {
  import opened Wrappers
  import opened Psbts
  import opened Tables
  import opened Operations
  import opened Chainsync

  predicate ArchivedInputsOk(draft: Draft)
    requires |draft.review.inputs| == |draft.psbt.tx.inputs|
  {
    forall i | 0 <= i < |draft.review.inputs| ::
      && draft.review.inputs[i].outpoint == draft.psbt.tx.inputs[i].prev
      && ValidLabel(draft.review.inputs[i].tag)
  }

  predicate ArchivedOutputsOk(env: Env, draft: Draft)
    requires |draft.review.outputs| == |draft.psbt.tx.outputs|
  {
    forall i | 0 <= i < |draft.review.outputs| ::
      var output, reviewed := draft.psbt.tx.outputs[i], draft.review.outputs[i];
      && reviewed.sats == output.value
      && env.address(output.script) == Some(reviewed.address)
      && reviewed.isMine == IsMine(env, output.script)
      && (reviewed.isChange ==> reviewed.isMine)
  }

  /** The archived approval agrees with itself; eligibility and signatures are checked again only on resumption. */
  predicate ArchivedApprovalOk(env: Env, id: DraftId, draft: Draft) {
    && Parses(env, draft.psbt)
    && Identified(env, id, draft)
    && 1 <= |draft.review.inputs| <= 200 && |draft.review.outputs| <= 400
    && ValidLabel(draft.review.tag)
    && ArchivedInputsOk(draft)
    && ArchivedOutputsOk(env, draft)
    && SumInputs(draft.review.inputs) == SumOutputs(draft.review.outputs) + draft.review.fee
  }

  predicate ArchivedFinalOk(env: Env, db: Db, id: DraftId, draft: Draft) {
    id in db.finalized ==>
      && Strip(db.finalized[id]) == draft.psbt.tx
      && forall i | 0 <= i < |db.attempts| && db.attempts[i].draft == id ::
           db.attempts[i].txid == ComputeTxid(env.crypto, db.finalized[id]) && db.attempts[i].wtxid == env.wtxid(db.finalized[id])
  }

  predicate ArchivedSignaturesOk(env: Env, db: Db, id: DraftId, draft: Draft) {
    id in db.signatures ==> Parses(env, db.signatures[id]) && db.signatures[id].tx == draft.psbt.tx
  }

  function HoldsOf(review: Review, id: DraftId): set<Hold> {
    set op | op in OutPoints(review) :: Hold(op, id)
  }

  /** Suspend one archived draft; a submitted one keeps its inputs held. */
  function SuspendDraft(env: Env, db: Db, id: DraftId): (r: Result<Db, Error>)
    requires id in db.drafts
    ensures r.Ok? ==> r.value.drafts.Keys == db.drafts.Keys
  {
    var draft := db.drafts[id];
    if || !ArchivedApprovalOk(env, id, draft)
       || !ArchivedFinalOk(env, db, id, draft)
       || !ArchivedSignaturesOk(env, db, id, draft) then Err(CorruptState)
    else
      var suspended := db.drafts[id := WithState(draft, Invalidated)];
      assert suspended.Keys == db.drafts.Keys;
      if !Submitted(db.attempts, id) then Ok(db.(drafts := suspended))
      else if !DistinctOutPoints(Prevouts(draft.psbt.tx)) then Err(Storage)
      else Ok(db.(drafts := suspended, recovered := db.recovered + {id}, holds := db.holds + HoldsOf(draft.review, id)))
  }

  function SuspendDrafts(env: Env, db: Db, order: seq<DraftId>): (r: Result<Db, Error>)
    requires forall i :: 0 <= i < |order| ==> order[i] in db.drafts
    ensures r.Ok? ==> r.value.drafts.Keys == db.drafts.Keys
    decreases |order|
  {
    if order == [] then Ok(db)
    else
      var next :- SuspendDraft(env, db, order[0]);
      SuspendDrafts(env, next, order[1..])
  }

  predicate LabelsOk(db: Db) {
    forall reference | reference in db.labels :: ValidLabel(db.labels[reference])
  }

  function Cleared(db: Db): Db {
    db.(recovered := {}, holds := {}, reservations := map[])
  }

  /** Inside the restore transaction: every approval is suspended and nothing counts as synced. */
  function Suspend(env: Env, db: Db, order: seq<DraftId>): Result<Db, Error>
    requires Enumerates(order, db.drafts)
  {
    if !LabelsOk(db) then Err(InvalidInput)
    else
      var after :- SuspendDrafts(env, Cleared(db), order);
      Ok(after.(synced := false))
  }

  /** `INSERT OR IGNORE`: a row that exists keeps its owner. */
  function ReserveIgnoring(reservations: map<OutPoint, DraftId>, review: Review, id: DraftId): map<OutPoint, DraftId> {
    (map op | op in OutPoints(review) :: id) + reservations
  }

  /** Rows are written first and validated after; only the commit makes them real. */
  function Rewritten(db: Db, id: DraftId): Db
    requires id in db.drafts
  {
    db.(drafts := db.drafts[id := WithState(db.drafts[id], Finalized)],
        reservations := ReserveIgnoring(db.reservations, db.drafts[id].review, id))
  }

  function Resume(env: Env, db: Db, id: DraftId, expectedTxid: Txid, expectedAttempt: nat, acknowledged: bool)
    : Result<(Db, FinalReview), Error>
  {
    if !acknowledged then Err(InvalidInput)
    else if id !in db.recovered then Err(NotFound)
    else if !Submitted(db.attempts, id) then Err(Storage)
    else
      var info := Latest(db.attempts, id).value;
      if info.id != expectedAttempt || info.txid != expectedTxid then Err(InvalidInput)
      else if id !in db.drafts then Err(Storage)
      else if db.drafts[id].review.state != Invalidated then Err(CorruptState)
      else
        var written := Rewritten(db, id);
        var found :- ValidatedFinalized(env, written, id);
        if found.None? || found.value.txid != expectedTxid then Err(CorruptState)
        else
          Ok((written.(recovered := db.recovered - {id}, holds := HoldsWithout(db.holds, id)), found.value))
  }
}
