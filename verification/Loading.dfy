/** Exactly when a draft loads for signing, finalization or submission, and what is loaded, said on the rows. */
module Loading {
  import opened Wrappers
  import opened ByteStrings
  import opened Psbts
  import opened Tables
  import opened Operations
  import opened Rows
  import Approvals
  import Signing
  import Sizes
  import Responses

  // ---- Coins ----

  /** Unspent, in a known confirmed transaction, and a hundred blocks deep if newly minted. */
  ghost predicate IsMature(env: Env, chain: Chain, op: OutPoint) {
    && op in chain.unspent && op.txid in chain.txs && chain.txs[op.txid].position.Confirmed?
    && (env.isCoinbase(chain.txs[op.txid].tx) ==> chain.txs[op.txid].position.depth >= 100)
  }

  lemma EligibleIsExact(env: Env, chain: Chain, op: OutPoint)
    ensures Eligible(env, chain, op) <==> IsMature(env, chain, op)
  {
  }

  ghost predicate IsHeld(db: Db, op: OutPoint) {
    exists h :: h in db.holds && h.outpoint == op
  }

  /** The five statuses of a coin: a freeze hides a reservation or a hold, those hide the chain. */
  lemma StatusIsExact(env: Env, db: Db, op: OutPoint)
    requires op in db.chain.unspent
    ensures var status, taken := Status(env, db, op), op in db.reservations || IsHeld(db, op);
      var confirmed := op.txid in db.chain.txs && db.chain.txs[op.txid].position.Confirmed?;
      && (status == Frozen <==> op in db.freezes)
      && (status == Reserved <==> op !in db.freezes && taken)
      && (status == Pending <==> op !in db.freezes && !taken && !confirmed)
      && (status == Immature <==> op !in db.freezes && !taken && confirmed && !IsMature(env, db.chain, op))
      && (status == Available <==> op !in db.freezes && !taken && IsMature(env, db.chain, op))
  {
    EligibleIsExact(env, db.chain, op);
  }

  /** A coin is offered exactly when it is mature and neither frozen, reserved nor held. */
  lemma AvailableIsExact(env: Env, db: Db, op: OutPoint)
    ensures IsAvailable(env, db, op) <==>
      IsMature(env, db.chain, op) && op !in db.freezes && op !in db.reservations && !IsHeld(db, op)
  {
    if op in db.chain.unspent {
      StatusIsExact(env, db, op);
      hide Status, IsMature;
    }
  }

  // ---- Drafts ----

  /** A PSBT text is read when it is version 0, has a map for each input and output, and keeps the parser's bounds. */
  lemma ParsesExactly(env: Env, psbt: Psbt)
    ensures Parses(env, psbt) <==>
      && psbt.version == 0 && |psbt.inputs| == |psbt.tx.inputs| && |psbt.outputs| == |psbt.tx.outputs|
      && env.readable(Sizes.Bare(psbt))
      && env.bytes(Sizes.Bare(psbt)) + Sizes.AllSignatureBytes(env.crypto, Sizes.SignaturesOf(psbt)) <= 1_048_576
      && forall i :: 0 <= i < |psbt.inputs| ==> env.fields(Sizes.Bare(psbt).inputs[i]) + |psbt.inputs[i].partialSigs| <= 64
  {
  }

  ghost predicate InputStands(env: Env, db: Db, id: DraftId, draft: Draft, i: nat)
    requires i < |draft.psbt.tx.inputs| == |draft.review.inputs|
  {
    var op := draft.psbt.tx.inputs[i].prev;
    && IsMature(env, db.chain, op) && op !in db.freezes && op in db.reservations && db.reservations[op] == id
    && draft.review.inputs[i].outpoint == op && draft.review.inputs[i].sats == env.prevout(op).value
    && env.derive(env.prevout(op).script).Some?
  }

  ghost predicate OutputStands(env: Env, output: TxOut, reviewed: ReviewedOutput, metadata: Output) {
    && env.address(output.script) == Some(reviewed.address) && reviewed.sats == output.value
    && (reviewed.isMine <==> env.derive(output.script).Some?) && (reviewed.isChange ==> reviewed.isMine)
    && match env.derive(output.script)
       case None =>
         metadata.extras == map[] && metadata.redeemScript.None? && metadata.witnessScript.None? && metadata.derivations == map[]
       case Some(derived) =>
         env.crypto.scriptPubkey(derived.descriptor) == output.script && Responses.IsOwnOutput(metadata, derived.output)
  }

  /** The approval is the reviewed one, balances within the caps, and spends only coins that this draft still owns. */
  ghost predicate DraftStands(env: Env, db: Db, id: DraftId, draft: Draft) {
    var psbt, review := draft.psbt, draft.review;
    && Parses(env, psbt) && psbt.unknown == map[] && psbt.proprietary == map[]
    && (forall key :: key in psbt.xpubs ==> key in env.xpubs && psbt.xpubs[key] == env.xpubs[key])
    && review.state in {Unsigned, PartiallySigned, DraftState.Signed, Finalized}
    && review.id == id && env.identity(env.crypto.hash(Responses.WithoutWitnesses(psbt.tx))) == id
    && |review.inputs| == |psbt.tx.inputs| && |review.outputs| == |psbt.tx.outputs|
    && (forall i, j :: 0 <= i < j < |psbt.tx.inputs| ==> psbt.tx.inputs[i].prev != psbt.tx.inputs[j].prev)
    && (forall i :: 0 <= i < |psbt.tx.inputs| ==> InputStands(env, db, id, draft, i))
    && (forall i :: 0 <= i < |psbt.tx.outputs| ==> OutputStands(env, psbt.tx.outputs[i], review.outputs[i], psbt.outputs[i]))
    && SumInputs(review.inputs) == SumOutputs(review.outputs) + review.fee
    && SumInputs(review.inputs) <= 2_100_000_000_000_000 && review.fee <= 1_000_000
  }

  ghost predicate Stands(env: Env, db: Db, id: DraftId) {
    && !env.mainnet && db.synced && id in db.drafts && DraftStands(env, db, id, db.drafts[id])
    && (id in db.signatures ==> Parses(env, db.signatures[id]))
  }

  lemma InputIsExact(env: Env, db: Db, id: DraftId, draft: Draft, i: nat)
    requires i < |draft.psbt.tx.inputs| == |draft.review.inputs|
    ensures Approvals.InputLoads(env, db, id, draft, i) <==> InputStands(env, db, id, draft, i)
  {
    EligibleIsExact(env, db.chain, draft.psbt.tx.inputs[i].prev);
    hide Eligible, IsMature;
  }

  lemma OutputIsExact(env: Env, output: TxOut, reviewed: ReviewedOutput, metadata: Output)
    ensures OutputMatches(env, output, reviewed, metadata) <==> OutputStands(env, output, reviewed, metadata)
  {
  }

  lemma LoadableIsExact(env: Env, db: Db, id: DraftId, draft: Draft)
    requires id in db.drafts && db.drafts[id] == draft && Parses(env, draft.psbt)
    requires |draft.review.inputs| == |draft.psbt.tx.inputs| && |draft.review.outputs| == |draft.psbt.tx.outputs|
    ensures DistinctOutPoints(Prevouts(draft.psbt.tx)) <==>
      forall i, j :: 0 <= i < j < |draft.psbt.tx.inputs| ==> draft.psbt.tx.inputs[i].prev != draft.psbt.tx.inputs[j].prev
    ensures OutputsMatch(env, draft) <==> forall i :: 0 <= i < |draft.psbt.tx.outputs| ==>
      OutputStands(env, draft.psbt.tx.outputs[i], draft.review.outputs[i], draft.psbt.outputs[i])
    ensures forall i :: 0 <= i < |draft.psbt.tx.inputs| ==>
      (Approvals.InputLoads(env, db, id, draft, i) <==> InputStands(env, db, id, draft, i))
  {
    var outpoints := Prevouts(draft.psbt.tx);
    assert forall i :: 0 <= i < |outpoints| ==> outpoints[i] == draft.psbt.tx.inputs[i].prev;
    forall i | 0 <= i < |draft.psbt.tx.inputs|
      ensures Approvals.InputLoads(env, db, id, draft, i) <==> InputStands(env, db, id, draft, i)
    {
      InputIsExact(env, db, id, draft, i);
    }
    forall i | 0 <= i < |draft.psbt.tx.outputs|
      ensures OutputMatches(env, draft.psbt.tx.outputs[i], draft.review.outputs[i], draft.psbt.outputs[i])
        <==> OutputStands(env, draft.psbt.tx.outputs[i], draft.review.outputs[i], draft.psbt.outputs[i])
    {
      OutputIsExact(env, draft.psbt.tx.outputs[i], draft.review.outputs[i], draft.psbt.outputs[i]);
    }
    hide OutputMatches, OutputStands, Approvals.InputLoads, InputStands;
  }

  /** A draft loads exactly when it stands. */
  lemma LoadsExactly(env: Env, db: Db, id: DraftId)
    ensures LoadDraft(env, db, id).Ok? <==> Stands(env, db, id)
  {
    Approvals.LoadIsExact(env, db, id);
    if id in db.drafts {
      var draft := db.drafts[id];
      Responses.TxidIsExact(env.crypto, draft.psbt.tx);
      if Parses(env, draft.psbt) && |draft.review.inputs| == |draft.psbt.tx.inputs| && |draft.review.outputs| == |draft.psbt.tx.outputs| {
        LoadableIsExact(env, db, id, draft);
      }
      hide LoadDraft, OutputsMatch, OutputStands, InputStands, Approvals.InputLoads, DistinctOutPoints, SumInputs, SumOutputs,
        ComputeTxid, Sizes.Fits;
    }
  }

  /** What is loaded are the rows, and for each input what the wallet itself derives for the coin it spends. */
  lemma LoadedIsExact(env: Env, db: Db, id: DraftId)
    requires LoadDraft(env, db, id).Ok?
    ensures var loaded := LoadDraft(env, db, id).value;
      && id in db.drafts && loaded.approved == db.drafts[id].psbt && loaded.review == db.drafts[id].review
      && loaded.stored == (if id in db.signatures then Some(db.signatures[id]) else None)
      && |loaded.trusted| == |loaded.approved.tx.inputs|
      && forall i :: 0 <= i < |loaded.trusted| ==>
           var prevout := env.prevout(loaded.approved.tx.inputs[i].prev);
           && env.derive(prevout.script).Some?
           && var derived := env.derive(prevout.script).value;
           loaded.trusted[i] == TrustedInput(prevout, derived.witnessScript, derived.derivations, derived.descriptor)
  {
    LoadedTrust(env, db, id);
    hide LoadDraft;
    var loaded := LoadDraft(env, db, id).value;
    var tx := loaded.approved.tx;
    var known := seq(|tx.inputs|, i requires 0 <= i < |tx.inputs| => TrustAt(env, tx.inputs[i].prev));
    assert TrustAll(env, tx) == Collect(known);
    forall i | 0 <= i < |loaded.trusted| ensures TrustAt(env, tx.inputs[i].prev) == Ok(loaded.trusted[i]) {
      assert known[i] == Ok(loaded.trusted[i]);
    }
  }
}
