/** When a completed chain scan can be applied and every row that it changes, whatever the order of its turns. */
module Syncing {
  import opened Wrappers
  import opened Psbts
  import opened Tables
  import opened Operations
  import opened Chainsync
  import opened Loading
  import Creation
  import Responses

  /** The newest submission names the stored final bytes. */
  ghost predicate NamesFinal(env: Env, db: Db, id: DraftId) {
    Latest(db.attempts, id).Some? ==>
      && id in db.finalized
      && Latest(db.attempts, id).value.txid == env.crypto.hash(Responses.WithoutWitnesses(db.finalized[id]))
      && Latest(db.attempts, id).value.wtxid == env.wtxid(db.finalized[id])
  }

  /** The new view shows exactly the submitted bytes, in the mempool or in a block. */
  ghost predicate IsSeen(env: Env, db: Db, chain: Chain, id: DraftId) {
    && Latest(db.attempts, id).Some? && id in db.finalized
    && var txid := env.crypto.hash(Responses.WithoutWitnesses(db.finalized[id]));
    txid in chain.txs && chain.txs[txid].tx == db.finalized[id] && !chain.txs[txid].position.Unseen?
  }

  /** Neither seen nor still spending mature coins only; one observed before is not kept either. */
  ghost predicate IsLost(env: Env, db: Db, chain: Chain, id: DraftId)
    requires id in db.drafts
  {
    && !IsSeen(env, db, chain, id)
    && (|| db.drafts[id].review.state == Observed
        || exists i :: 0 <= i < |db.drafts[id].review.inputs| && !IsMature(env, chain, db.drafts[id].review.inputs[i].outpoint))
  }

  function FinalTxid(env: Env, db: Db, id: DraftId): Txid
    requires id in db.finalized
  {
    env.crypto.hash(Responses.WithoutWitnesses(db.finalized[id]))
  }

  /** A payment's label goes to its transaction and to each of the wallet's own outputs. */
  ghost predicate IsOwnOutput(env: Env, db: Db, id: DraftId, op: OutPoint) {
    && id in db.finalized && op.txid == FinalTxid(env, db, id) && op.vout < |db.finalized[id].outputs|
    && env.derive(db.finalized[id].outputs[op.vout].script).Some?
  }

  ghost predicate Names(env: Env, db: Db, id: DraftId, reference: Reference) {
    && id in db.drafts && id in db.finalized && db.drafts[id].review.tag != ""
    && match reference
       case TxRef(txid) => txid == FinalTxid(env, db, id)
       case OutputRef(op) => IsOwnOutput(env, db, id, op)
       case AddressRef(_) => false
  }

  ghost predicate TurnMayPass(env: Env, db: Db, chain: Chain, id: DraftId)
    requires id in db.drafts
  {
    && NamesFinal(env, db, id)
    && (IsSeen(env, db, chain, id) ==> id in db.applied || Creation.IsPlainText(db.drafts[id].review.tag))
  }

  ghost predicate FirstSeen(env: Env, db: Db, chain: Chain, id: DraftId) {
    IsSeen(env, db, chain, id) && id !in db.applied
  }

  // ---- One turn ----

  lemma SeenIsExact(env: Env, db: Db, chain: Chain, id: DraftId)
    ensures Seen(env, db, chain, id).Ok? <==> NamesFinal(env, db, id)
    ensures NamesFinal(env, db, id) ==> (Seen(env, db, chain, id).value <==> IsSeen(env, db, chain, id))
  {
    if id in db.finalized {
      Responses.TxidIsExact(env.crypto, db.finalized[id]);
    }
    if Latest(db.attempts, id).Some? {
      assert Latest(db.attempts, id).value.draft == id;
    }
    hide ComputeTxid, Latest;
  }

  lemma LostIsExact(env: Env, chain: Chain, review: Review)
    ensures StillEligible(env, chain, review) <==>
      forall i :: 0 <= i < |review.inputs| ==> IsMature(env, chain, review.inputs[i].outpoint)
  {
    forall i | 0 <= i < |review.inputs|
      ensures Eligible(env, chain, review.inputs[i].outpoint) <==> IsMature(env, chain, review.inputs[i].outpoint)
    {
      EligibleIsExact(env, chain, review.inputs[i].outpoint);
    }
    hide Eligible, IsMature;
  }

  /** Tables that no turn touches. */
  ghost predicate SameElsewhere(a: Db, b: Db) {
    && a.synced == b.synced && a.chain == b.chain && a.freezes == b.freezes && a.signatures == b.signatures
    && a.finalized == b.finalized && a.attempts == b.attempts && a.nextAttempt == b.nextAttempt
    && a.drafts.Keys == b.drafts.Keys
  }


  /** A seen draft is observed, a lost one invalidated, any other left as it is. */
  ghost predicate DraftEffect(env: Env, db: Db, chain: Chain, turns: set<DraftId>, after: Db)
    requires turns <= db.drafts.Keys == after.drafts.Keys
  {
    forall id :: id in db.drafts ==>
      after.drafts[id] == db.drafts[id].(review := db.drafts[id].review.(state :=
        if id !in turns then db.drafts[id].review.state
        else if IsSeen(env, db, chain, id) then Observed
        else if IsLost(env, db, chain, id) then Invalidated
        else db.drafts[id].review.state))
  }

  /** A draft that is seen or lost gives up its reservations; one that is seen also ends its suspension. */
  ghost predicate CoverEffect(env: Env, db: Db, chain: Chain, turns: set<DraftId>, after: Db) {
    && (forall op :: op in after.reservations <==>
          op in db.reservations && !(db.reservations[op] in turns && IsReleased(env, db, chain, db.reservations[op])))
    && (forall op :: op in after.reservations ==> after.reservations[op] == db.reservations[op])
    && (forall id :: id in after.recovered <==> id in db.recovered && !(id in turns && IsSeen(env, db, chain, id)))
    && (forall h :: h in after.holds <==> h in db.holds && !(h.draft in turns && IsSeen(env, db, chain, h.draft)))
    && (forall id :: id in after.applied <==> id in db.applied || (id in turns && IsSeen(env, db, chain, id)))
  }

  /** What the turns of these drafts do to every table. */
  ghost predicate Effect(env: Env, db: Db, chain: Chain, turns: set<DraftId>, after: Db)
    requires turns <= db.drafts.Keys
  {
    && SameElsewhere(db, after) && DraftEffect(env, db, chain, turns, after)
    && CoverEffect(env, db, chain, turns, after) && LabelEffect(env, db, chain, turns, after)
  }

  ghost predicate IsReleased(env: Env, db: Db, chain: Chain, id: DraftId) {
    id in db.drafts && (IsSeen(env, db, chain, id) || IsLost(env, db, chain, id))
  }

  ghost predicate Labels(env: Env, db: Db, chain: Chain, turns: set<DraftId>, reference: Reference, id: DraftId) {
    id in turns && FirstSeen(env, db, chain, id) && Names(env, db, id, reference)
  }

  ghost predicate Marks(env: Env, db: Db, chain: Chain, turns: set<DraftId>, op: OutPoint, id: DraftId) {
    id in turns && FirstSeen(env, db, chain, id) && IsOwnOutput(env, db, id, op)
  }

  /** A first observation labels what has no label yet and marks what has no mark yet; nothing else changes. */
  ghost predicate LabelEffect(env: Env, db: Db, chain: Chain, turns: set<DraftId>, after: Db)
    requires turns <= db.drafts.Keys
  {
    && (forall reference :: reference in db.labels ==> reference in after.labels && after.labels[reference] == db.labels[reference])
    && (forall reference, id :: Labels(env, db, chain, turns, reference, id) ==> reference in after.labels)
    && (forall reference :: reference in after.labels && reference !in db.labels ==>
          exists id :: Labels(env, db, chain, turns, reference, id) && after.labels[reference] == db.drafts[id].review.tag)
    && (forall op :: op in db.provenance ==> op in after.provenance && after.provenance[op] == db.provenance[op])
    && (forall op, id :: Marks(env, db, chain, turns, op, id) ==> op in after.provenance)
    && (forall op :: op in after.provenance && op !in db.provenance ==> Marks(env, db, chain, turns, op, after.provenance[op]))
  }

  lemma OwnOutputsAre(env: Env, db: Db, chain: Chain, id: DraftId)
    requires IsSeen(env, db, chain, id)
    ensures forall op :: op in OwnOutputs(env, FinalTxid(env, db, id), chain.txs[FinalTxid(env, db, id)].tx) <==> IsOwnOutput(env, db, id, op)
  {
    var txid, tx := FinalTxid(env, db, id), db.finalized[id];
    var own := OwnOutputs(env, txid, tx);
    forall op ensures op in own <==> IsOwnOutput(env, db, id, op) {
      if IsOwnOutput(env, db, id, op) {
        assert op == OutPoint(txid, op.vout);
      }
    }
  }

  lemma LabelsAreNamed(env: Env, db: Db, chain: Chain, id: DraftId)
    requires id in db.drafts && IsSeen(env, db, chain, id)
    ensures var txid, tag := FinalTxid(env, db, id), db.drafts[id].review.tag;
      var rows := PaymentLabels(txid, OwnOutputs(env, txid, chain.txs[txid].tx), tag);
      forall reference :: (reference in rows <==> Names(env, db, id, reference)) && (reference in rows ==> rows[reference] == tag)
  {
    OwnOutputsAre(env, db, chain, id);
    hide OwnOutputs, IsOwnOutput;
  }

  /** The labels of one seen draft. */
  lemma LabellingIsExact(env: Env, db: Db, chain: Chain, id: DraftId)
    requires id in db.drafts && db.drafts[id].review.id == id && IsSeen(env, db, chain, id)
    ensures var applied := ApplyObservedLabels(env, db, db.drafts[id].review, chain, FinalTxid(env, db, id));
      && (applied.Ok? <==> id in db.applied || Creation.IsPlainText(db.drafts[id].review.tag))
      && (applied.Ok? ==>
            && applied.value == db.(applied := applied.value.applied, labels := applied.value.labels, provenance := applied.value.provenance)
            && applied.value.applied == db.applied + {id} && LabelEffect(env, db, chain, {id}, applied.value))
  {
    Creation.LabelIsExact(db.drafts[id].review.tag);
    var applied := ApplyObservedLabels(env, db, db.drafts[id].review, chain, FinalTxid(env, db, id));
    var txid := FinalTxid(env, db, id);
    var own := OwnOutputs(env, txid, chain.txs[txid].tx);
    if id in db.applied {
      assert db.applied + {id} == db.applied;
      AppliedBefore(env, db, chain, id);
    } else if applied.Ok? {
      FirstLabels(env, db, chain, id, applied.value);
    }
    hide ValidLabel, Creation.IsPlainText, PaymentLabels, OwnOutputs, IsSeen, LabelEffect, FinalTxid;
  }

  lemma AppliedBefore(env: Env, db: Db, chain: Chain, id: DraftId)
    requires id in db.drafts && id in db.applied
    ensures LabelEffect(env, db, chain, {id}, db)
  {
    hide IsSeen, Names, IsOwnOutput;
  }

  lemma FirstLabels(env: Env, db: Db, chain: Chain, id: DraftId, after: Db)
    requires id in db.drafts && id !in db.applied && IsSeen(env, db, chain, id)
    requires var txid := FinalTxid(env, db, id);
      var own := OwnOutputs(env, txid, chain.txs[txid].tx);
      && after.labels == PaymentLabels(txid, own, db.drafts[id].review.tag) + db.labels
      && after.provenance == PaymentProvenance(own, id) + db.provenance
    ensures LabelEffect(env, db, chain, {id}, after)
  {
    OwnOutputsAre(env, db, chain, id);
    LabelsAreNamed(env, db, chain, id);
    var txid := FinalTxid(env, db, id);
    var own := OwnOutputs(env, txid, chain.txs[txid].tx);
    RowsWin(env, db, chain, id, PaymentLabels(txid, own, db.drafts[id].review.tag), PaymentProvenance(own, id), after);
  }

  lemma OnlyItsRows(env: Env, db: Db, chain: Chain, id: DraftId)
    requires FirstSeen(env, db, chain, id)
    ensures forall reference, other :: Labels(env, db, chain, {id}, reference, other) <==> other == id && Names(env, db, id, reference)
    ensures forall op, other :: Marks(env, db, chain, {id}, op, other) <==> other == id && IsOwnOutput(env, db, id, op)
  {
    hide FirstSeen, Names, IsOwnOutput;
  }

  /** Rows that exist win over the rows that a first observation brings. */
  lemma RowsWin(env: Env, db: Db, chain: Chain, id: DraftId, rows: map<Reference, string>, marks: map<OutPoint, DraftId>, after: Db)
    requires id in db.drafts && id !in db.applied && IsSeen(env, db, chain, id)
    requires after.labels == rows + db.labels && after.provenance == marks + db.provenance
    requires forall reference :: reference in rows <==> Names(env, db, id, reference)
    requires forall reference :: reference in rows ==> rows[reference] == db.drafts[id].review.tag
    requires forall op :: op in marks <==> IsOwnOutput(env, db, id, op)
    requires forall op :: op in marks ==> marks[op] == id
    ensures LabelEffect(env, db, chain, {id}, after)
  {
    OnlyItsRows(env, db, chain, id);
    hide Names, IsOwnOutput, IsSeen, FirstSeen, Labels, Marks;
    forall reference | reference in after.labels && reference !in db.labels
      ensures Labels(env, db, chain, {id}, reference, id) && after.labels[reference] == db.drafts[id].review.tag
    {
    }
  }

  lemma NothingIsLabelled(env: Env, db: Db, chain: Chain, id: DraftId, after: Db)
    requires id in db.drafts && !IsSeen(env, db, chain, id)
    requires after.labels == db.labels && after.provenance == db.provenance
    ensures LabelEffect(env, db, chain, {id}, after)
  {
    hide IsSeen;
  }

  /** One draft's turn. */
  lemma TurnIsExact(env: Env, db: Db, chain: Chain, id: DraftId)
    requires id in db.drafts && db.drafts[id].review.id == id
    ensures SyncDraft(env, db, chain, id).Ok? <==> TurnMayPass(env, db, chain, id)
    ensures SyncDraft(env, db, chain, id).Ok? ==> Effect(env, db, chain, {id}, SyncDraft(env, db, chain, id).value)
  {
    SeenIsExact(env, db, chain, id);
    LostIsExact(env, chain, db.drafts[id].review);
    if NamesFinal(env, db, id) {
      if IsSeen(env, db, chain, id) {
        LabellingIsExact(env, db, chain, id);
        SeenTurn(env, db, chain, id);
      } else {
        UnseenTurn(env, db, chain, id);
      }
    }
    hide Seen, StillEligible, ApplyObservedLabels, IsSeen, IsLost, NamesFinal, Effect;
  }

  lemma SeenTurn(env: Env, db: Db, chain: Chain, id: DraftId)
    requires id in db.drafts && db.drafts[id].review.id == id && NamesFinal(env, db, id) && IsSeen(env, db, chain, id)
    requires Seen(env, db, chain, id) == Ok(true)
    ensures SyncDraft(env, db, chain, id).Ok? <==>
      ApplyObservedLabels(env, db, db.drafts[id].review, chain, FinalTxid(env, db, id)).Ok?
    ensures SyncDraft(env, db, chain, id).Ok? ==> Effect(env, db, chain, {id}, SyncDraft(env, db, chain, id).value)
  {
    LabellingIsExact(env, db, chain, id);
    var review := db.drafts[id].review;
    assert Latest(db.attempts, id).value.txid == FinalTxid(env, db, id);
    var applied := ApplyObservedLabels(env, db, review, chain, FinalTxid(env, db, id));
    hide Seen, StillEligible, ApplyObservedLabels, IsSeen, IsLost, NamesFinal, Latest, FinalTxid, LabelEffect, ReleaseOf, HoldsWithout;
    if applied.Ok? {
      var after := SyncDraft(env, db, chain, id).value;
      assert after == applied.value.(
          recovered := db.recovered - {id}, holds := HoldsWithout(db.holds, id),
          drafts := db.drafts[id := WithState(db.drafts[id], Observed)], reservations := ReleaseOf(db.reservations, id));
      SeenRows(env, db, chain, id, after);
      LabelsOnly(env, db, chain, id, applied.value, after);
    }
  }

  lemma LabelsOnly(env: Env, db: Db, chain: Chain, id: DraftId, labelled: Db, after: Db)
    requires id in db.drafts && LabelEffect(env, db, chain, {id}, labelled)
    requires after.labels == labelled.labels && after.provenance == labelled.provenance
    ensures LabelEffect(env, db, chain, {id}, after)
  {
    hide Labels, Marks;
  }

  lemma SeenRows(env: Env, db: Db, chain: Chain, id: DraftId, after: Db)
    requires id in db.drafts && IsSeen(env, db, chain, id) && after.applied == db.applied + {id}
    requires after.drafts == db.drafts[id := WithState(db.drafts[id], Observed)]
    requires after.recovered == db.recovered - {id} && after.holds == HoldsWithout(db.holds, id)
    requires after.reservations == ReleaseOf(db.reservations, id)
    ensures DraftEffect(env, db, chain, {id}, after) && CoverEffect(env, db, chain, {id}, after)
  {
    hide IsSeen, IsLost;
  }

  lemma LostRows(env: Env, db: Db, chain: Chain, id: DraftId, after: Db)
    requires id in db.drafts && IsLost(env, db, chain, id)
    requires after.drafts == db.drafts[id := WithState(db.drafts[id], Invalidated)]
    requires after.reservations == ReleaseOf(db.reservations, id)
    requires after.recovered == db.recovered && after.holds == db.holds && after.applied == db.applied
    ensures DraftEffect(env, db, chain, {id}, after) && CoverEffect(env, db, chain, {id}, after)
  {
    assert !IsSeen(env, db, chain, id);
    hide IsSeen, IsLost;
  }

  lemma KeptRows(env: Env, db: Db, chain: Chain, id: DraftId)
    requires id in db.drafts && !IsLost(env, db, chain, id) && !IsSeen(env, db, chain, id)
    ensures DraftEffect(env, db, chain, {id}, db) && CoverEffect(env, db, chain, {id}, db)
  {
    hide IsSeen, IsLost;
  }

  lemma UnseenShape(env: Env, db: Db, chain: Chain, id: DraftId)
    requires id in db.drafts && Seen(env, db, chain, id) == Ok(false)
    ensures SyncDraft(env, db, chain, id) == Ok(
      if db.drafts[id].review.state == Observed || !StillEligible(env, chain, db.drafts[id].review) then Invalidate(db, id) else db)
  {
    hide Seen, StillEligible, ApplyObservedLabels, Invalidate;
  }

  lemma LostIsJudged(env: Env, db: Db, chain: Chain, id: DraftId)
    requires id in db.drafts && !IsSeen(env, db, chain, id)
    ensures IsLost(env, db, chain, id) <==> db.drafts[id].review.state == Observed || !StillEligible(env, chain, db.drafts[id].review)
  {
    LostIsExact(env, chain, db.drafts[id].review);
    hide StillEligible, IsSeen, IsMature;
  }

  lemma UnseenTurn(env: Env, db: Db, chain: Chain, id: DraftId)
    requires id in db.drafts && NamesFinal(env, db, id) && !IsSeen(env, db, chain, id)
    requires Seen(env, db, chain, id) == Ok(false)
    ensures SyncDraft(env, db, chain, id).Ok? && Effect(env, db, chain, {id}, SyncDraft(env, db, chain, id).value)
  {
    UnseenShape(env, db, chain, id);
    LostIsJudged(env, db, chain, id);
    hide SyncDraft, Seen, StillEligible, IsSeen, NamesFinal, IsLost, ReleaseOf, DraftEffect, CoverEffect, LabelEffect;
    var after := SyncDraft(env, db, chain, id).value;
    if IsLost(env, db, chain, id) {
      LostRows(env, db, chain, id, after);
    } else {
      KeptRows(env, db, chain, id);
    }
    NothingIsLabelled(env, db, chain, id, after);
  }

  // ---- All turns ----

  lemma PredicatesAreStable(env: Env, before: Db, after: Db, chain: Chain, id: DraftId)
    requires SameElsewhere(before, after)
    ensures IsSeen(env, after, chain, id) == IsSeen(env, before, chain, id)
    ensures NamesFinal(env, after, id) == NamesFinal(env, before, id)
    ensures forall op :: IsOwnOutput(env, after, id, op) == IsOwnOutput(env, before, id, op)
    ensures id in before.drafts && id in after.drafts && after.drafts[id] == before.drafts[id] ==>
      && IsLost(env, after, chain, id) == IsLost(env, before, chain, id)
      && forall reference :: Names(env, after, id, reference) == Names(env, before, id, reference)
  {
    hide Latest, IsMature;
  }

  lemma JoinFacts(env: Env, db: Db, middle: Db, chain: Chain, turn: DraftId)
    requires turn in db.drafts && Effect(env, db, chain, {turn}, middle)
    ensures forall id ::
      && IsSeen(env, middle, chain, id) == IsSeen(env, db, chain, id)
      && (id in db.drafts && id != turn ==> middle.drafts[id] == db.drafts[id] && IsLost(env, middle, chain, id) == IsLost(env, db, chain, id))
  {
    hide IsSeen, IsLost, LabelEffect, CoverEffect, DraftEffect;
    forall id ensures
      && IsSeen(env, middle, chain, id) == IsSeen(env, db, chain, id)
      && (id in db.drafts && id != turn ==> middle.drafts[id] == db.drafts[id] && IsLost(env, middle, chain, id) == IsLost(env, db, chain, id))
    {
      OthersAreKept(env, db, middle, chain, turn, id);
      PredicatesAreStable(env, db, middle, chain, id);
    }
  }

  lemma DraftsJoin(env: Env, db: Db, middle: Db, after: Db, chain: Chain, turn: DraftId, turns: set<DraftId>)
    requires turn in db.drafts && turn !in turns && turns <= db.drafts.Keys == middle.drafts.Keys == after.drafts.Keys
    requires DraftEffect(env, db, chain, {turn}, middle) && DraftEffect(env, middle, chain, turns, after)
    requires forall id ::
      && IsSeen(env, middle, chain, id) == IsSeen(env, db, chain, id)
      && (id in db.drafts && id != turn ==> middle.drafts[id] == db.drafts[id] && IsLost(env, middle, chain, id) == IsLost(env, db, chain, id))
    ensures DraftEffect(env, db, chain, {turn} + turns, after)
  {
    hide IsSeen, IsLost;
  }

  /** One more turn, of a draft whose turn has not been yet. */
  lemma EffectsJoin(env: Env, db: Db, middle: Db, after: Db, chain: Chain, turn: DraftId, turns: set<DraftId>)
    requires turn in db.drafts && turn !in turns && turns <= db.drafts.Keys
    requires Effect(env, db, chain, {turn}, middle) && Effect(env, middle, chain, turns, after)
    ensures Effect(env, db, chain, {turn} + turns, after)
  {
    JoinFacts(env, db, middle, chain, turn);
    hide IsSeen, IsLost, LabelEffect, CoverEffect, DraftEffect;
    DraftsJoin(env, db, middle, after, chain, turn, turns);
    LabelsJoin(env, db, middle, after, chain, turn, turns);
    CoversJoin(env, db, middle, after, chain, turn, turns);
  }

  lemma OthersAreKept(env: Env, db: Db, middle: Db, chain: Chain, turn: DraftId, id: DraftId)
    requires turn in db.drafts && Effect(env, db, chain, {turn}, middle)
    ensures id in db.drafts && id != turn ==> middle.drafts[id] == db.drafts[id]
  {
    hide IsSeen, IsLost, LabelEffect, CoverEffect;
  }

  lemma CoversJoin(env: Env, db: Db, middle: Db, after: Db, chain: Chain, turn: DraftId, turns: set<DraftId>)
    requires turn in db.drafts && turn !in turns && turns <= db.drafts.Keys == middle.drafts.Keys
    requires CoverEffect(env, db, chain, {turn}, middle) && CoverEffect(env, middle, chain, turns, after)
    requires forall id ::
      && IsSeen(env, middle, chain, id) == IsSeen(env, db, chain, id)
      && (id in db.drafts && id != turn ==> IsLost(env, middle, chain, id) == IsLost(env, db, chain, id))
    ensures CoverEffect(env, db, chain, {turn} + turns, after)
  {
    hide IsSeen, IsLost;
  }

  lemma LabelsJoin(env: Env, db: Db, middle: Db, after: Db, chain: Chain, turn: DraftId, turns: set<DraftId>)
    requires turn in db.drafts && turn !in turns && turns <= db.drafts.Keys
    requires Effect(env, db, chain, {turn}, middle) && Effect(env, middle, chain, turns, after)
    ensures LabelEffect(env, db, chain, {turn} + turns, after)
  {
    var all := {turn} + turns;
    forall reference, id ensures
      Labels(env, db, chain, all, reference, id) <==>
        Labels(env, db, chain, {turn}, reference, id) || Labels(env, middle, chain, turns, reference, id)
    {
      LabelsSplit(env, db, middle, chain, turn, turns, id);
    }
    forall op, id ensures
      Marks(env, db, chain, all, op, id) <==> Marks(env, db, chain, {turn}, op, id) || Marks(env, middle, chain, turns, op, id)
    {
      LabelsSplit(env, db, middle, chain, turn, turns, id);
    }
    assert middle.drafts.Keys == db.drafts.Keys && forall id :: id in db.drafts ==> middle.drafts[id].review.tag == db.drafts[id].review.tag by {
      hide IsSeen, IsLost, LabelEffect, CoverEffect;
    }
    hide Labels, Marks, DraftEffect, CoverEffect;
    LabelRowsJoin(env, db, middle, after, chain, turn, turns);
  }

  lemma LabelRowsJoin(env: Env, db: Db, middle: Db, after: Db, chain: Chain, turn: DraftId, turns: set<DraftId>)
    requires turn in db.drafts && turns <= db.drafts.Keys == middle.drafts.Keys
    requires LabelEffect(env, db, chain, {turn}, middle) && LabelEffect(env, middle, chain, turns, after)
    requires forall id :: id in db.drafts ==> middle.drafts[id].review.tag == db.drafts[id].review.tag
    requires forall reference, id :: Labels(env, db, chain, {turn} + turns, reference, id) <==>
      Labels(env, db, chain, {turn}, reference, id) || Labels(env, middle, chain, turns, reference, id)
    requires forall op, id :: Marks(env, db, chain, {turn} + turns, op, id) <==>
      Marks(env, db, chain, {turn}, op, id) || Marks(env, middle, chain, turns, op, id)
    requires forall reference, id :: Labels(env, db, chain, {turn} + turns, reference, id) ==> id in db.drafts
    ensures LabelEffect(env, db, chain, {turn} + turns, after)
  {
    hide Labels, Marks;
  }

  lemma LabelsSplit(env: Env, db: Db, middle: Db, chain: Chain, turn: DraftId, turns: set<DraftId>, id: DraftId)
    requires turn in db.drafts && turn !in turns && turns <= db.drafts.Keys
    requires Effect(env, db, chain, {turn}, middle)
    ensures forall reference :: Labels(env, db, chain, {turn} + turns, reference, id) <==>
      Labels(env, db, chain, {turn}, reference, id) || Labels(env, middle, chain, turns, reference, id)
    ensures forall op :: Marks(env, db, chain, {turn} + turns, op, id) <==>
      Marks(env, db, chain, {turn}, op, id) || Marks(env, middle, chain, turns, op, id)
  {
    OthersAreKept(env, db, middle, chain, turn, id);
    PredicatesAreStable(env, db, middle, chain, id);
    assert id in turns ==> (id in middle.applied <==> id in db.applied) by { hide IsSeen, IsReleased, LabelEffect, DraftEffect; }
    hide IsSeen, Names, IsOwnOutput, DraftEffect, LabelEffect, CoverEffect;
  }

  lemma NoTurns(env: Env, db: Db, chain: Chain)
    ensures Effect(env, db, chain, {}, db)
  {
    hide IsSeen, IsLost, Names, IsOwnOutput;
  }

  lemma {:induction false} TurnsAreExact(env: Env, db: Db, chain: Chain, order: seq<DraftId>)
    requires forall i :: 0 <= i < |order| ==> order[i] in db.drafts
    requires forall i, j :: 0 <= i < j < |order| ==> order[i] != order[j]
    requires forall id :: id in db.drafts ==> db.drafts[id].review.id == id
    ensures SyncDrafts(env, db, chain, order).Ok? <==> forall i :: 0 <= i < |order| ==> TurnMayPass(env, db, chain, order[i])
    ensures SyncDrafts(env, db, chain, order).Ok? ==>
      Effect(env, db, chain, (set id | id in order), SyncDrafts(env, db, chain, order).value)
    decreases |order|
  {
    hide SyncDraft, TurnMayPass, Effect;
    if order == [] {
      NoTurns(env, db, chain);
      assert (set id | id in order) == {};
    } else {
      TurnIsExact(env, db, chain, order[0]);
      if SyncDraft(env, db, chain, order[0]).Ok? {
        var next, rest := SyncDraft(env, db, chain, order[0]).value, order[1..];
        OtherTurnsMayPass(env, db, next, chain, order[0]);
        TurnsAreExact(env, next, chain, rest);
        assert (set id | id in order) == {order[0]} + (set id | id in rest);
        if SyncDrafts(env, next, chain, rest).Ok? {
          EffectsJoin(env, db, next, SyncDrafts(env, next, chain, rest).value, chain, order[0], (set id | id in rest));
        }
        forall i | 0 <= i < |rest| ensures TurnMayPass(env, next, chain, rest[i]) == TurnMayPass(env, db, chain, order[i + 1]) {
        }
      }
    }
  }

  lemma OtherTurnsMayPass(env: Env, db: Db, next: Db, chain: Chain, turn: DraftId)
    requires turn in db.drafts && Effect(env, db, chain, {turn}, next)
    ensures next.drafts.Keys == db.drafts.Keys && forall id :: id in next.drafts ==> next.drafts[id].review.id == db.drafts[id].review.id
    ensures forall id :: id in db.drafts && id != turn ==> TurnMayPass(env, next, chain, id) == TurnMayPass(env, db, chain, id)
  {
    forall id | id in db.drafts && id != turn ensures TurnMayPass(env, next, chain, id) == TurnMayPass(env, db, chain, id) {
      PredicatesAreStable(env, db, next, chain, id);
      OthersAreKept(env, db, next, chain, turn, id);
      hide IsSeen, NamesFinal, LabelEffect, IsLost, DraftEffect, Creation.IsPlainText;
    }
    hide IsSeen, NamesFinal, LabelEffect, IsLost, CoverEffect, TurnMayPass;
  }

  /**
   * A completed scan is applied exactly when every submission's record names its final bytes
   * and every payment seen for the first time has a proper label. Then the store is synced,
   * holds the new view, and every draft has had its turn, in whatever order the rows came.
   */
  lemma SyncsExactly(env: Env, db: Db, chain: Chain, order: seq<DraftId>)
    requires Enumerates(order, db.drafts) && forall id :: id in db.drafts ==> db.drafts[id].review.id == id
    ensures ApplySync(env, db, chain, order).Ok? <==> forall id :: id in db.drafts ==> TurnMayPass(env, db, chain, id)
    ensures ApplySync(env, db, chain, order).Ok? ==>
      var after := ApplySync(env, db, chain, order).value;
      && after.synced && after.chain == chain
      && Effect(env, db, chain, db.drafts.Keys, after.(synced := db.synced, chain := db.chain))
  {
    TurnsAreExact(env, db, chain, order);
    assert (set id | id in order) == db.drafts.Keys;
    hide SyncDrafts, TurnMayPass;
    assert (forall i :: 0 <= i < |order| ==> TurnMayPass(env, db, chain, order[i]))
        <==> forall id :: id in db.drafts ==> TurnMayPass(env, db, chain, id);
    if ApplySync(env, db, chain, order).Ok? {
      var middle, after := SyncDrafts(env, db, chain, order).value, ApplySync(env, db, chain, order).value;
      assert SameElsewhere(db, middle) by { hide DraftEffect, CoverEffect, LabelEffect; }
      assert after.(synced := db.synced, chain := db.chain) == middle;
    }
    hide Effect;
  }
}
