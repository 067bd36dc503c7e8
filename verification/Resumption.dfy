/**
 * Which stores can be restored and which suspended submissions can be resumed, said on
 * their rows; and that restoring, syncing and resuming lead back to the same submission.
 */
module Resumption {
  import opened Wrappers
  import opened Psbts
  import opened Tables
  import opened Operations
  import opened Chainsync
  import opened Recovery
  import opened Holds
  import opened Submissions
  import opened StoreInvariant
  import opened Loading
  import opened Syncing
  import opened Outcomes
  import Creation
  import Responses

  // ---- Restoring ----

  /** The archived approval still says of itself what its review says, and its later rows belong to it. */
  ghost predicate ArchiveStands(env: Env, db: Db, id: DraftId)
    requires id in db.drafts
  {
    var psbt, review := db.drafts[id].psbt, db.drafts[id].review;
    && Parses(env, psbt) && review.id == id && env.identity(env.crypto.hash(Responses.WithoutWitnesses(psbt.tx))) == id
    && 1 <= |review.inputs| <= 200 && |review.outputs| <= 400 && Creation.IsPlainText(review.tag)
    && |review.inputs| == |psbt.tx.inputs| && |review.outputs| == |psbt.tx.outputs|
    && (forall i :: 0 <= i < |review.inputs| ==>
          review.inputs[i].outpoint == psbt.tx.inputs[i].prev && Creation.IsPlainText(review.inputs[i].tag))
    && (forall i :: 0 <= i < |review.outputs| ==> ArchivedOutput(env, psbt.tx.outputs[i], review.outputs[i]))
    && SumInputs(review.inputs) == SumOutputs(review.outputs) + review.fee
    && (id in db.finalized ==> Responses.WithoutWitnesses(db.finalized[id]) == psbt.tx)
    && (id in db.finalized ==> forall k :: 0 <= k < |db.attempts| && db.attempts[k].draft == id ==>
          && db.attempts[k].txid == env.crypto.hash(psbt.tx) && db.attempts[k].wtxid == env.wtxid(db.finalized[id]))
    && (id in db.signatures ==> Parses(env, db.signatures[id]) && db.signatures[id].tx == psbt.tx)
    && ((exists k :: 0 <= k < |db.attempts| && db.attempts[k].draft == id) ==>
          forall i, j :: 0 <= i < j < |psbt.tx.inputs| ==> psbt.tx.inputs[i].prev != psbt.tx.inputs[j].prev)
  }

  ghost predicate ArchivedOutput(env: Env, output: TxOut, reviewed: ReviewedOutput) {
    && reviewed.sats == output.value && env.address(output.script) == Some(reviewed.address)
    && (reviewed.isMine <==> env.derive(output.script).Some?) && (reviewed.isChange ==> reviewed.isMine)
  }

  lemma StripIsExact(tx: Transaction)
    ensures Strip(tx) == Responses.WithoutWitnesses(tx)
  {
    assert Strip(tx).inputs == Responses.WithoutWitnesses(tx).inputs;
  }

  lemma ApprovalRowIsExact(env: Env, id: DraftId, draft: Draft)
    ensures var psbt, review := draft.psbt, draft.review;
      ArchivedApprovalOk(env, id, draft) <==>
        && Parses(env, psbt) && review.id == id && env.identity(env.crypto.hash(Responses.WithoutWitnesses(psbt.tx))) == id
        && 1 <= |review.inputs| <= 200 && |review.outputs| <= 400 && Creation.IsPlainText(review.tag)
        && |review.inputs| == |psbt.tx.inputs| && |review.outputs| == |psbt.tx.outputs|
        && (forall i :: 0 <= i < |review.inputs| ==>
              review.inputs[i].outpoint == psbt.tx.inputs[i].prev && Creation.IsPlainText(review.inputs[i].tag))
        && (forall i :: 0 <= i < |review.outputs| ==> ArchivedOutput(env, psbt.tx.outputs[i], review.outputs[i]))
        && SumInputs(review.inputs) == SumOutputs(review.outputs) + review.fee
  {
    Responses.TxidIsExact(env.crypto, draft.psbt.tx);
    forall tag ensures ValidLabel(tag) == Creation.IsPlainText(tag) {
      Creation.LabelIsExact(tag);
    }
    hide ValidLabel, Creation.IsPlainText, SumInputs, SumOutputs, ComputeTxid;
    if Parses(env, draft.psbt) && Identified(env, id, draft) {
      assert |draft.review.inputs| == |draft.psbt.tx.inputs| && |draft.review.outputs| == |draft.psbt.tx.outputs|;
    }
  }

  lemma ArchiveIsExact(env: Env, db: Db, id: DraftId)
    requires id in db.drafts
    ensures SuspendDraft(env, db, id).Ok? <==> ArchiveStands(env, db, id)
  {
    var draft := db.drafts[id];
    ApprovalRowIsExact(env, id, draft);
    if id in db.finalized {
      StripIsExact(db.finalized[id]);
    }
    Creation.PrevoutsOf(draft.psbt.tx);
    hide ArchivedApprovalOk, Parses, Creation.IsPlainText, SumInputs, SumOutputs, ArchivedOutput, Prevouts, Latest, Strip;
  }

  lemma ArchiveIsStable(env: Env, before: Db, after: Db, id: DraftId)
    requires id in before.drafts && id in after.drafts
    requires after.drafts[id] == WithState(before.drafts[id], after.drafts[id].review.state)
    requires after.attempts == before.attempts && after.finalized == before.finalized && after.signatures == before.signatures
    ensures ArchiveStands(env, after, id) == ArchiveStands(env, before, id)
  {
    hide Parses, Creation.IsPlainText, SumInputs, SumOutputs, ArchivedOutput;
  }

  lemma TurnShape(env: Env, db: Db, id: DraftId)
    requires id in db.drafts && SuspendDraft(env, db, id).Ok?
    ensures var after := SuspendDraft(env, db, id).value;
      && after.drafts == db.drafts[id := WithState(db.drafts[id], Invalidated)]
      && after.attempts == db.attempts && after.finalized == db.finalized && after.signatures == db.signatures
  {
    hide ArchivedApprovalOk, ArchivedFinalOk, ArchivedSignaturesOk, DistinctOutPoints, HoldsOf, Submitted, WithState;
    var after := SuspendDraft(env, db, id).value;
    if Submitted(db.attempts, id) {
      assert after == db.(drafts := after.drafts, recovered := after.recovered, holds := after.holds);
    } else {
      assert after == db.(drafts := after.drafts);
    }
  }

  lemma {:induction false} SuspensionsAreExact(env: Env, db: Db, order: seq<DraftId>)
    requires forall i :: 0 <= i < |order| ==> order[i] in db.drafts
    ensures SuspendDrafts(env, db, order).Ok? <==> forall i :: 0 <= i < |order| ==> ArchiveStands(env, db, order[i])
    decreases |order|
  {
    hide SuspendDraft, ArchiveStands;
    if order != [] {
      ArchiveIsExact(env, db, order[0]);
      if SuspendDraft(env, db, order[0]).Ok? {
        var next, rest := SuspendDraft(env, db, order[0]).value, order[1..];
        TurnShape(env, db, order[0]);
        SuspensionsAreExact(env, next, rest);
        forall i | 0 <= i < |rest| ensures ArchiveStands(env, next, rest[i]) == ArchiveStands(env, db, order[i + 1]) {
          ArchiveIsStable(env, db, next, rest[i]);
        }
      }
    }
  }

  lemma LabelsAreExact(db: Db)
    ensures LabelsOk(db) <==> forall reference :: reference in db.labels ==> Creation.IsPlainText(db.labels[reference])
  {
    forall reference | reference in db.labels ensures ValidLabel(db.labels[reference]) == Creation.IsPlainText(db.labels[reference]) {
      Creation.LabelIsExact(db.labels[reference]);
    }
    hide ValidLabel, Creation.IsPlainText;
  }

  /** A store can be restored exactly when every label is proper and every draft's archive stands. */
  lemma RestoresExactly(env: Env, backup: Db, order: seq<DraftId>)
    requires Enumerates(order, backup.drafts)
    ensures Suspend(env, backup, order).Ok? <==>
      && (forall reference :: reference in backup.labels ==> Creation.IsPlainText(backup.labels[reference]))
      && (forall id :: id in backup.drafts ==> ArchiveStands(env, backup, id))
  {
    LabelsAreExact(backup);
    var start := Cleared(backup);
    SuspensionsAreExact(env, start, order);
    forall id | id in backup.drafts ensures ArchiveStands(env, start, id) == ArchiveStands(env, backup, id) {
      ArchiveIsStable(env, backup, start, id);
    }
    hide SuspendDrafts, ArchiveStands, LabelsOk, Creation.IsPlainText, Cleared;
    assert (forall i :: 0 <= i < |order| ==> ArchiveStands(env, start, order[i]))
        <==> forall id :: id in backup.drafts ==> ArchiveStands(env, backup, id);
  }

  // ---- Resuming ----

  /** The rows that a resumption writes: the draft is final again and owns what nobody owns yet of its inputs. */
  ghost predicate IsWritten(db: Db, id: DraftId, written: Db)
    requires id in db.drafts
  {
    var review := db.drafts[id].review;
    && written == db.(drafts := db.drafts[id := db.drafts[id].(review := review.(state := Finalized))], reservations := written.reservations)
    && (forall op :: op in written.reservations <==>
          op in db.reservations || exists i :: 0 <= i < |review.inputs| && review.inputs[i].outpoint == op)
    && (forall op :: op in written.reservations ==> written.reservations[op] == if op in db.reservations then db.reservations[op] else id)
  }

  lemma WrittenIsExact(db: Db, id: DraftId, written: Db)
    requires id in db.drafts
    ensures IsWritten(db, id, written) <==> written == Rewritten(db, id)
  {
    var rows := Rewritten(db, id).reservations;
    assert forall op :: op in rows <==> op in db.reservations || op in OutPoints(db.drafts[id].review);
    if IsWritten(db, id, written) {
      assert written.reservations == rows;
    }
  }

  lemma ResumeForm(env: Env, db: Db, id: DraftId, txid: Txid, attempt: nat, acknowledged: bool)
    requires id in db.drafts
    ensures var found := ValidatedFinalized(env, Rewritten(db, id), id);
      && (Resume(env, db, id, txid, attempt, acknowledged).Ok? <==>
            && acknowledged && id in db.recovered && db.drafts[id].review.state == Invalidated
            && Latest(db.attempts, id).Some? && Latest(db.attempts, id).value.id == attempt && Latest(db.attempts, id).value.txid == txid
            && found.Ok? && found.value.Some? && found.value.value.txid == txid)
      && (Resume(env, db, id, txid, attempt, acknowledged).Ok? ==>
            Resume(env, db, id, txid, attempt, acknowledged).value ==
              (Rewritten(db, id).(recovered := db.recovered - {id}, holds := HoldsWithout(db.holds, id)), found.value.value))
  {
    hide Rewritten, ValidatedFinalized, Latest, HoldsWithout;
  }

  /**
   * A suspended submission is resumed exactly with consent, for its newest attempt and that
   * attempt's transaction, when the rows so written validate. Its suspension then ends.
   */
  lemma ResumesExactly(env: Env, db: Db, id: DraftId, txid: Txid, attempt: nat, acknowledged: bool, written: Db)
    requires id in db.drafts ==> IsWritten(db, id, written)
    ensures Resume(env, db, id, txid, attempt, acknowledged).Ok? <==>
      && acknowledged && id in db.recovered && id in db.drafts && db.drafts[id].review.state == Invalidated
      && Latest(db.attempts, id).Some? && Latest(db.attempts, id).value.id == attempt && Latest(db.attempts, id).value.txid == txid
      && (exists found :: ValidatedFinalized(env, written, id) == Ok(Some(found)))
      && id in db.finalized && env.crypto.hash(Responses.WithoutWitnesses(db.finalized[id])) == txid
    ensures Resume(env, db, id, txid, attempt, acknowledged).Ok? ==>
      var (after, found) := Resume(env, db, id, txid, attempt, acknowledged).value;
      && ValidatedFinalized(env, written, id) == Ok(Some(found))
      && after == written.(recovered := db.recovered - {id}, holds := after.holds)
      && forall h :: h in after.holds <==> h in db.holds && h.draft != id
  {
    if id in db.drafts {
      ResumeForm(env, db, id, txid, attempt, acknowledged);
      WrittenIsExact(db, id, written);
      assert written.finalized == db.finalized;
      var found := ValidatedFinalized(env, written, id);
      if found.Ok? && found.value.Some? {
        ValidatesExactly(env, written, id, found.value.value);
      }
      hide IsWritten, Rewritten, ValidatedFinalized, Latest, LoadDraft, Assembles, Resume;
    } else {
      assert Resume(env, db, id, txid, attempt, acknowledged).Err?;
      hide Resume;
    }
  }

  /** A draft that loaded before a sync and can still be signed loads after it. */
  lemma SurvivorLoads(env: Env, db: Db, chain: Chain, order: seq<DraftId>, id: DraftId)
    requires Enumerates(order, db.drafts) && ApplySync(env, db, chain, order).Ok?
    requires forall other :: other in db.drafts ==> db.drafts[other].review.id == other
    requires LoadDraft(env, db, id).Ok?
    ensures var after := ApplySync(env, db, chain, order).value;
      && id in after.drafts
      && (LoadDraft(env, after, id).Ok? <==> !IsSeen(env, db, chain, id) && !IsLost(env, db, chain, id))
  {
    SyncsExactly(env, db, chain, order);
    var after := ApplySync(env, db, chain, order).value;
    LoadsExactly(env, db, id);
    LoadsExactly(env, after, id);
    hide ApplySync, LoadDraft, IsSeen;
    StandsAfter(env, db, after, chain, id);
  }

  lemma SurvivorRow(env: Env, db: Db, after: Db, chain: Chain, id: DraftId)
    requires id in db.drafts && Effect(env, db, chain, db.drafts.Keys, after.(synced := db.synced, chain := db.chain))
    ensures id in after.drafts && after.signatures == db.signatures && after.freezes == db.freezes
    ensures after.drafts[id] == WithState(db.drafts[id], if IsSeen(env, db, chain, id) then Observed
                                                         else if IsLost(env, db, chain, id) then Invalidated else db.drafts[id].review.state)
    ensures !IsSeen(env, db, chain, id) && !IsLost(env, db, chain, id) ==>
      forall op :: op in db.reservations && db.reservations[op] == id ==> op in after.reservations && after.reservations[op] == id
  {
    hide IsSeen, IsLost, LabelEffect;
  }

  lemma SurvivorInput(env: Env, db: Db, after: Db, chain: Chain, id: DraftId, i: nat)
    requires Stands(env, db, id) && after.chain == chain && after.freezes == db.freezes
    requires !IsSeen(env, db, chain, id) && !IsLost(env, db, chain, id)
    requires forall op :: op in db.reservations && db.reservations[op] == id ==> op in after.reservations && after.reservations[op] == id
    requires i < |db.drafts[id].psbt.tx.inputs| == |db.drafts[id].review.inputs|
    ensures InputStands(env, after, id, db.drafts[id], i)
  {
    var draft := db.drafts[id];
    assert InputStands(env, db, id, draft, i) by { hide OutputStands, IsMature, Parses, SumInputs, SumOutputs; }
    assert IsMature(env, chain, draft.review.inputs[i].outpoint) by { hide IsSeen, IsMature; }
    hide IsMature, Stands, IsSeen, IsLost;
  }

  lemma StandsAfter(env: Env, db: Db, after: Db, chain: Chain, id: DraftId)
    requires Stands(env, db, id) && after.synced && after.chain == chain
    requires Effect(env, db, chain, db.drafts.Keys, after.(synced := db.synced, chain := db.chain))
    ensures id in after.drafts && (Stands(env, after, id) <==> !IsSeen(env, db, chain, id) && !IsLost(env, db, chain, id))
  {
    var draft := db.drafts[id];
    SurvivorRow(env, db, after, chain, id);
    if !IsSeen(env, db, chain, id) && !IsLost(env, db, chain, id) {
      forall i | 0 <= i < |draft.psbt.tx.inputs| && |draft.psbt.tx.inputs| == |draft.review.inputs|
        ensures InputStands(env, after, id, draft, i)
      {
        SurvivorInput(env, db, after, chain, id, i);
      }
      hide Effect, InputStands, OutputStands, Parses, SumInputs, SumOutputs, IsSeen, IsLost;
    } else {
      hide Effect, InputStands, OutputStands, Parses, SumInputs, SumOutputs, IsSeen, IsLost;
    }
  }

  // ---- Restore, sync, resume ----

  /** Same approval, aggregate, final bytes and freezes; the final state, its own reservations and a view with mature coins. */
  lemma RewrittenStands(env: Env, before: Db, written: Db, id: DraftId)
    requires Stands(env, before, id) && id in written.drafts && written.synced
    requires written.drafts[id] == WithState(before.drafts[id], Finalized)
    requires written.signatures == before.signatures && written.freezes == before.freezes
    requires forall i :: 0 <= i < |before.drafts[id].review.inputs| ==>
      var op := before.drafts[id].review.inputs[i].outpoint;
      IsMature(env, written.chain, op) && op in written.reservations && written.reservations[op] == id
    ensures Stands(env, written, id)
  {
    var draft := before.drafts[id];
    assert |draft.psbt.tx.inputs| == |draft.review.inputs| by { hide OutputStands, InputStands, Parses, SumInputs, SumOutputs; }
    forall i | 0 <= i < |draft.psbt.tx.inputs| ensures InputStands(env, written, id, written.drafts[id], i) {
      assert InputStands(env, before, id, draft, i) by { hide OutputStands, IsMature, Parses, SumInputs, SumOutputs; }
      hide IsMature, Stands;
    }
    hide InputStands, OutputStands, Parses, SumInputs, SumOutputs;
  }

  lemma SameReport(env: Env, before: Db, written: Db, id: DraftId, found: FinalReview)
    requires ValidatedFinalized(env, before, id) == Ok(Some(found)) && Stands(env, written, id)
    requires id in before.drafts && id in written.drafts && written.drafts[id] == WithState(before.drafts[id], Finalized)
    requires written.signatures == before.signatures && written.finalized == before.finalized
    ensures ValidatedFinalized(env, written, id) == Ok(Some(found))
  {
    ValidatesExactly(env, before, id, found);
    ValidatesExactly(env, written, id, found);
    LoadsExactly(env, written, id);
    LoadedIsExact(env, before, id);
    LoadedIsExact(env, written, id);
    hide LoadDraft, Stands, ValidatedFinalized;
    var first, again := LoadDraft(env, before, id).value, LoadDraft(env, written, id).value;
    assert first.trusted == again.trusted;
    assert first.stored == again.stored;
  }

  lemma StillSuspended(env: Env, backup: Db, restored: Db, after: Db, chain: Chain, id: DraftId)
    requires id in backup.drafts && id in restored.drafts && restored.drafts[id] == WithState(backup.drafts[id], Invalidated)
    requires SameHistory(restored, backup) && restored.reservations == map[] && id in restored.recovered
    requires !IsSeen(env, backup, chain, id)
    requires forall i :: 0 <= i < |backup.drafts[id].review.inputs| ==> IsMature(env, chain, backup.drafts[id].review.inputs[i].outpoint)
    requires Effect(env, restored, chain, restored.drafts.Keys, after.(synced := restored.synced, chain := restored.chain))
    ensures id in after.drafts && after.drafts[id] == WithState(backup.drafts[id], Invalidated)
    ensures after.reservations == map[] && id in after.recovered && after.attempts == backup.attempts
    ensures after.signatures == backup.signatures && after.finalized == backup.finalized && after.freezes == backup.freezes
  {
    assert !IsSeen(env, restored, chain, id) by { hide IsMature, Effect; }
    assert !IsLost(env, restored, chain, id) by { hide IsMature, IsSeen, Effect; }
    hide IsSeen, IsLost, IsMature, LabelEffect;
  }

  /**
   * A submission that stood before the backup stands again: restored, synced with a view in
   * which its coins are mature and it is not seen, and resumed by consent, it owns its coins
   * again and reports the same bytes.
   */
  lemma RestoredResumes(env: Env, backup: Db, order: seq<DraftId>, chain: Chain, again: seq<DraftId>, id: DraftId, found: FinalReview)
    requires AttemptsOk(env, backup) && Submitted(backup.attempts, id) && ValidatedFinalized(env, backup, id) == Ok(Some(found))
    requires forall other :: other in backup.drafts ==> backup.drafts[other].review.id == other
    requires Enumerates(order, backup.drafts) && Suspend(env, backup, order).Ok?
    requires var restored := Suspend(env, backup, order).value;
      Enumerates(again, restored.drafts) && ApplySync(env, restored, chain, again).Ok?
    requires id in backup.drafts && !IsSeen(env, backup, chain, id)
    requires forall i :: 0 <= i < |backup.drafts[id].review.inputs| ==> IsMature(env, chain, backup.drafts[id].review.inputs[i].outpoint)
    ensures var after := ApplySync(env, Suspend(env, backup, order).value, chain, again).value;
      var resumed := Resume(env, after, id, found.txid, Latest(backup.attempts, id).value.id, true);
      && resumed.Ok? && resumed.value.1 == found
      && ValidatedFinalized(env, resumed.value.0, id) == Ok(Some(found))
  {
    var restored := Suspend(env, backup, order).value;
    var after := ApplySync(env, restored, chain, again).value;
    RestoreSuspends(env, backup, order);
    SyncsExactly(env, restored, chain, again);
    StillSuspended(env, backup, restored, after, chain, id);
    assert after.synced && after.chain == chain;
    SubmittedNames(env, backup, id, found);
    hide Suspend, ApplySync, IsSeen, IsMature, ValidatedFinalized, AttemptsOk, Submitted, Effect, HoldsCover;
    SuspendedResumes(env, backup, after, id, found);
  }

  lemma SubmittedNames(env: Env, db: Db, id: DraftId, found: FinalReview)
    requires AttemptsOk(env, db) && Submitted(db.attempts, id) && ValidatedFinalized(env, db, id) == Ok(Some(found))
    ensures id in db.finalized && found.txid == env.crypto.hash(Responses.WithoutWitnesses(db.finalized[id]))
    ensures Latest(db.attempts, id).value.txid == found.txid
  {
    ValidatesExactly(env, db, id, found);
    Responses.TxidIsExact(env.crypto, db.finalized[id]);
    hide ValidatedFinalized, LoadDraft, ComputeTxid, AttemptCount, Assembles;
    var info := Latest(db.attempts, id).value;
    var k :| 0 <= k < |db.attempts| && db.attempts[k] == info;
    assert AttemptRowOk(env, db, db.attempts[k]);
  }

  lemma SuspendedResumes(env: Env, backup: Db, after: Db, id: DraftId, found: FinalReview)
    requires ValidatedFinalized(env, backup, id) == Ok(Some(found))
    requires id in backup.drafts && id in after.drafts && after.drafts[id] == WithState(backup.drafts[id], Invalidated)
    requires after.synced && after.reservations == map[] && id in after.recovered && after.attempts == backup.attempts
    requires after.signatures == backup.signatures && after.finalized == backup.finalized && after.freezes == backup.freezes
    requires forall i :: 0 <= i < |backup.drafts[id].review.inputs| ==> IsMature(env, after.chain, backup.drafts[id].review.inputs[i].outpoint)
    requires Submitted(after.attempts, id) && Latest(after.attempts, id).value.txid == found.txid
    requires id in after.finalized && found.txid == env.crypto.hash(Responses.WithoutWitnesses(after.finalized[id]))
    ensures var resumed := Resume(env, after, id, found.txid, Latest(after.attempts, id).value.id, true);
      && resumed.Ok? && resumed.value.1 == found
      && ValidatedFinalized(env, resumed.value.0, id) == Ok(Some(found))
  {
    var written := Rewritten(after, id);
    WrittenIsExact(after, id, written);
    LoadsExactly(env, backup, id);
    ValidatesExactly(env, backup, id, found);
    assert Stands(env, backup, id);
    WrittenOwns(after, id, written);
    RewrittenStands(env, backup, written, id);
    SameReport(env, backup, written, id, found);
    var attempt := Latest(after.attempts, id).value.id;
    ResumesExactly(env, after, id, found.txid, attempt, true, written);
    hide Resume, ValidatedFinalized, Rewritten, IsMature, Stands, LoadDraft, Assembles, Latest;
    var resumed := Resume(env, after, id, found.txid, attempt, true).value.0;
    EndedStands(env, written, resumed, id);
    SameReport(env, backup, resumed, id, found);
  }

  lemma WrittenOwns(db: Db, id: DraftId, written: Db)
    requires id in db.drafts && IsWritten(db, id, written) && db.reservations == map[]
    ensures forall i :: 0 <= i < |db.drafts[id].review.inputs| ==>
      db.drafts[id].review.inputs[i].outpoint in written.reservations && written.reservations[db.drafts[id].review.inputs[i].outpoint] == id
    ensures id in written.drafts && written.drafts[id] == WithState(db.drafts[id], Finalized)
    ensures written == db.(drafts := written.drafts, reservations := written.reservations)
  {
  }

  lemma EndedStands(env: Env, written: Db, resumed: Db, id: DraftId)
    requires Stands(env, written, id) && resumed == written.(recovered := resumed.recovered, holds := resumed.holds)
    ensures Stands(env, resumed, id)
  {
    hide OutputStands, IsMature, Parses, SumInputs, SumOutputs;
    var draft := written.drafts[id];
    forall i | 0 <= i < |draft.psbt.tx.inputs| && |draft.psbt.tx.inputs| == |draft.review.inputs|
      ensures InputStands(env, resumed, id, draft, i) == InputStands(env, written, id, draft, i)
    {
    }
    hide InputStands;
  }
}
