/** What a new draft's review promises, and that signing accepts at once what creation approved. */
module Approvals {
  import opened Wrappers
  import opened ByteStrings
  import opened Psbts
  import opened Tables
  import opened Operations
  import opened Rows
  import opened Submissions
  import Signing
  import SigningLaws
  import Sizes

  /** The review says of the transaction exactly what it does. */
  ghost predicate Describes(env: Env, review: Review, request: Request, target: Bytes, psbt: Psbt) {
    && review.id == env.identity(ComputeTxid(env.crypto, psbt.tx)) && review.state == Unsigned && review.tag == request.tag
    && |review.inputs| == |psbt.tx.inputs| && |review.outputs| == |psbt.tx.outputs|
    && (forall i :: 0 <= i < |review.inputs| ==>
          && review.inputs[i].outpoint == psbt.tx.inputs[i].prev
          && review.inputs[i].sats == env.prevout(psbt.tx.inputs[i].prev).value)
    && (forall i :: 0 <= i < |review.outputs| ==> DescribesOutput(env, review.outputs[i], request, target, psbt.tx.outputs[i]))
    && SumInputs(review.inputs) == SumOutputs(review.outputs) + review.fee && review.fee <= MAX_FEE
    && (review.isConsolidation <==> request.payment.Consolidate?)
    && (review.isConsolidation ==> |review.outputs| == 1 && review.outputs[0].isMine && !review.outputs[0].isChange)
  }

  predicate DescribesOutput(env: Env, reviewed: ReviewedOutput, request: Request, target: Bytes, output: TxOut) {
    && env.address(output.script) == Some(reviewed.address) && reviewed.sats == output.value
    && reviewed.isMine == IsMine(env, output.script)
    && (reviewed.isChange <==> !request.payment.Consolidate? && output.script != target && reviewed.isMine)
  }

  lemma ProposalIsDescribed(env: Env, db: Db, request: Request, target: Bytes, psbt: Psbt)
    requires ReviewProposal(env, db, request, target, psbt).Ok?
    ensures Describes(env, ReviewProposal(env, db, request, target, psbt).value, request, target, psbt)
    ensures forall i :: 0 <= i < |psbt.tx.inputs| ==> IsAvailable(env, db, psbt.tx.inputs[i].prev)
  {
    hide IsAvailable, ComputeTxid, IsMine, SumInputs, SumOutputs, LabelOf;
    var review := ReviewProposal(env, db, request, target, psbt).value;
    var consolidate := request.payment.Consolidate?;
    var each := seq(|psbt.tx.outputs|, i requires 0 <= i < |psbt.tx.outputs| =>
      ReviewOutput(env, psbt.tx.outputs[i], target, consolidate));
    forall i | 0 <= i < |review.outputs| ensures DescribesOutput(env, review.outputs[i], request, target, psbt.tx.outputs[i]) {
      assert each[i] == Ok(review.outputs[i]);
    }
    forall i | 0 <= i < |psbt.tx.inputs| ensures IsAvailable(env, db, psbt.tx.inputs[i].prev) {
      assert Prevouts(psbt.tx)[i] == psbt.tx.inputs[i].prev;
    }
  }

  /** A created draft spends only available coins, the selected ones when there is a selection, and accounts for every satoshi. */
  lemma CreatedIsDescribed(env: Env, db: Db, request: Request, target: Bytes, psbt: Psbt)
    requires CreateDraft(env, db, request, target, Some(psbt)).Ok?
    ensures var after := CreateDraft(env, db, request, target, Some(psbt)).value;
      var id := env.identity(ComputeTxid(env.crypto, psbt.tx));
      && id !in db.drafts && id in after.drafts && after.drafts[id].psbt == psbt
      && Describes(env, after.drafts[id].review, request, target, psbt)
      && (forall op :: op in Prevouts(psbt.tx) ==> IsAvailable(env, db, op) && op in after.reservations && after.reservations[op] == id)
      && (request.selected.Some? ==> (set op | op in Prevouts(psbt.tx)) == set op | op in request.selected.value)
  {
    CreateShape(env, db, request, target, Some(psbt));
    ProposalIsDescribed(env, db, request, target, psbt);
    SelectedIsSpent(env, db, request, target, psbt);
    hide CreateDraft, ReviewProposal, Describes, IsAvailable;
    forall op | op in Prevouts(psbt.tx) ensures IsAvailable(env, db, op) {
      var i :| 0 <= i < |Prevouts(psbt.tx)| && Prevouts(psbt.tx)[i] == op;
      assert psbt.tx.inputs[i].prev == op;
    }
    assert env.identity(ComputeTxid(env.crypto, psbt.tx)) == ReviewProposal(env, db, request, target, psbt).value.id by {
      DescribedId(env, ReviewProposal(env, db, request, target, psbt).value, request, target, psbt);
    }
  }

  lemma DescribedId(env: Env, review: Review, request: Request, target: Bytes, psbt: Psbt)
    requires Describes(env, review, request, target, psbt)
    ensures review.id == env.identity(ComputeTxid(env.crypto, psbt.tx))
  {
  }

  lemma SelectedIsSpent(env: Env, db: Db, request: Request, target: Bytes, psbt: Psbt)
    requires ReviewProposal(env, db, request, target, psbt).Ok?
    ensures request.selected.Some? ==> (set op | op in Prevouts(psbt.tx)) == set op | op in request.selected.value
  {
    hide IsAvailable, ReviewOutput, SumInputs, SumOutputs;
  }

  /** What the outside builder supplies in its metadata is what the wallet's own descriptors derive. */
  ghost predicate OwnMetadata(env: Env, psbt: Psbt) {
    && Subset(psbt.xpubs, env.xpubs) && psbt.unknown == map[] && psbt.proprietary == map[]
    && (forall i :: 0 <= i < |psbt.tx.inputs| ==> Trust(env, psbt.tx.inputs[i].prev).Some?)
    && |psbt.outputs| == |psbt.tx.outputs|
    && (forall i :: 0 <= i < |psbt.tx.outputs| ==> OwnOutput(env, psbt.tx.outputs[i], psbt.outputs[i]))
  }

  predicate OwnOutput(env: Env, output: TxOut, metadata: Output) {
    && Signing.OutputAllowed(metadata,
         if IsMine(env, output.script) then env.derive(output.script).value.output else Output(None, None, map[], map[]))
    && (IsMine(env, output.script) ==> env.crypto.scriptPubkey(env.derive(output.script).value.descriptor) == output.script)
  }

  // ---- Loading, exactly ----

  ghost predicate InputLoads(env: Env, db: Db, id: DraftId, draft: Draft, i: nat)
    requires i < |draft.psbt.tx.inputs| == |draft.review.inputs|
  {
    var op := draft.psbt.tx.inputs[i].prev;
    && Eligible(env, db.chain, op) && op !in db.freezes
    && op in db.reservations && db.reservations[op] == id
    && draft.review.inputs[i].outpoint == op && draft.review.inputs[i].sats == env.prevout(op).value
    && Trust(env, op).Some?
  }

  /** Everything a draft must satisfy to be signed, finalized or submitted, in no particular order. */
  ghost predicate Loadable(env: Env, db: Db, id: DraftId) {
    && !env.mainnet && db.synced && id in db.drafts
    && var draft := db.drafts[id];
    && Parses(env, draft.psbt) && Active(draft.review.state) && Identified(env, id, draft)
    && Subset(draft.psbt.xpubs, env.xpubs) && draft.psbt.unknown == map[] && draft.psbt.proprietary == map[]
    && DistinctOutPoints(Prevouts(draft.psbt.tx))
    && (forall i :: 0 <= i < |draft.psbt.tx.inputs| ==> InputLoads(env, db, id, draft, i))
    && OutputsMatch(env, draft)
    && SumInputs(draft.review.inputs) == SumOutputs(draft.review.outputs) + draft.review.fee
    && SumInputs(draft.review.inputs) <= MAX_SATS && draft.review.fee <= MAX_FEE
    && StoredParses(env, StoredSignatures(db, id))
  }

  lemma InputsLoadExactly(env: Env, db: Db, id: DraftId, draft: Draft)
    requires |draft.psbt.tx.inputs| == |draft.review.inputs|
    ensures LoadInputs(env, db, id, draft).Ok? <==>
      DistinctOutPoints(Prevouts(draft.psbt.tx)) && forall i :: 0 <= i < |draft.psbt.tx.inputs| ==> InputLoads(env, db, id, draft, i)
  {
    var n := |draft.psbt.tx.inputs|;
    EveryInputLoads(env, db, id, draft);
    forall i | 0 <= i < n
      ensures LoadInput(env, db, id, draft, i).Ok? <==> InputLoads(env, db, id, draft, i) && FirstUse(draft, i)
    {
      OneInputLoads(env, db, id, draft, i);
    }
    hide LoadInput, InputLoads, LoadInputs;
    forall i, j | 0 <= i < j < n && FirstUse(draft, j) ensures Prevouts(draft.psbt.tx)[i] != Prevouts(draft.psbt.tx)[j] {
    }
    if DistinctOutPoints(Prevouts(draft.psbt.tx)) {
      forall i | 0 <= i < n ensures FirstUse(draft, i) {
        forall j | 0 <= j < i ensures draft.psbt.tx.inputs[j].prev != draft.psbt.tx.inputs[i].prev {
          assert Prevouts(draft.psbt.tx)[j] != Prevouts(draft.psbt.tx)[i];
        }
      }
    }
  }

  predicate FirstUse(draft: Draft, i: nat)
    requires i < |draft.psbt.tx.inputs|
  {
    forall j | 0 <= j < i :: draft.psbt.tx.inputs[j].prev != draft.psbt.tx.inputs[i].prev
  }

  lemma EveryInputLoads(env: Env, db: Db, id: DraftId, draft: Draft)
    requires |draft.psbt.tx.inputs| == |draft.review.inputs|
    ensures LoadInputs(env, db, id, draft).Ok? <==>
      forall i :: 0 <= i < |draft.psbt.tx.inputs| ==> LoadInput(env, db, id, draft, i).Ok?
  {
    hide Trust, Eligible;
    var each := seq(|draft.psbt.tx.inputs|, i requires 0 <= i < |draft.psbt.tx.inputs| => LoadInput(env, db, id, draft, i));
    assert LoadInputs(env, db, id, draft) == Collect(each);
    assert forall i :: 0 <= i < |each| ==> each[i] == LoadInput(env, db, id, draft, i);
  }

  lemma OneInputLoads(env: Env, db: Db, id: DraftId, draft: Draft, i: nat)
    requires i < |draft.psbt.tx.inputs| == |draft.review.inputs|
    ensures LoadInput(env, db, id, draft, i).Ok? <==> InputLoads(env, db, id, draft, i) && FirstUse(draft, i)
  {
    hide Trust;
  }

  /** A draft loads exactly when it meets every one of those conditions. */
  lemma LoadIsExact(env: Env, db: Db, id: DraftId)
    ensures LoadDraft(env, db, id).Ok? <==> Loadable(env, db, id)
  {
    if id in db.drafts {
      var draft := db.drafts[id];
      if Parses(env, draft.psbt) && Identified(env, id, draft) {
        InputsLoadExactly(env, db, id, draft);
      }
      hide LoadInputs, OutputsMatch, SumInputs, SumOutputs, Subset, InputLoads, DistinctOutPoints;
    }
  }

  // ---- What creation approved, signing loads ----

  /** Signing loads what creation stored, in the same state, exactly when the inputs total at most the supply. */
  lemma CreatedIsLoadable(env: Env, db: Db, request: Request, target: Bytes, psbt: Psbt)
    requires CreateDraft(env, db, request, target, Some(psbt)).Ok? && OwnMetadata(env, psbt)
    requires db.signatures.Keys <= db.drafts.Keys
    ensures var after := CreateDraft(env, db, request, target, Some(psbt)).value;
      var id := env.identity(ComputeTxid(env.crypto, psbt.tx));
      id in after.drafts && (LoadDraft(env, after, id).Ok? <==> SumInputs(after.drafts[id].review.inputs) <= MAX_SATS)
  {
    CreatedIsDescribed(env, db, request, target, psbt);
    CreateGates(env, db, request, target, psbt);
    CreateShape(env, db, request, target, Some(psbt));
    var after := CreateDraft(env, db, request, target, Some(psbt)).value;
    var id := env.identity(ComputeTxid(env.crypto, psbt.tx));
    var draft := after.drafts[id];
    LoadIsExact(env, after, id);
    hide CreateDraft, LoadDraft, ReviewProposal, IsAvailable, ComputeTxid, IsMine, SumInputs, SumOutputs, Signing.OutputAllowed, Trust,
      InputLoads;
    forall i | 0 <= i < |psbt.tx.inputs| ensures InputLoads(env, after, id, draft, i) {
      assert Prevouts(psbt.tx)[i] in Prevouts(psbt.tx);
      CreatedInputLoads(env, db, after, id, draft, i);
    }
    assert OutputsMatch(env, draft);
  }

  lemma CreatedInputLoads(env: Env, before: Db, after: Db, id: DraftId, draft: Draft, i: nat)
    requires i < |draft.psbt.tx.inputs| == |draft.review.inputs| && Trust(env, draft.psbt.tx.inputs[i].prev).Some?
    requires var op := draft.psbt.tx.inputs[i].prev;
      && IsAvailable(env, before, op) && op in after.reservations && after.reservations[op] == id
      && draft.review.inputs[i].outpoint == op && draft.review.inputs[i].sats == env.prevout(op).value
    requires after.chain == before.chain && after.freezes == before.freezes
    ensures InputLoads(env, after, id, draft, i)
  {
    hide Trust;
  }

  lemma CreateGates(env: Env, db: Db, request: Request, target: Bytes, psbt: Psbt)
    requires CreateDraft(env, db, request, target, Some(psbt)).Ok?
    ensures !env.mainnet && db.synced && Parses(env, psbt) && DistinctOutPoints(Prevouts(psbt.tx))
  {
    hide ReviewProposal, CheckSelection, CheckPayment, ValidLabel;
  }

  // ---- What signing stored, later signing loads ----

  /**
   * The response is bounded and the merge result is not: after an accepted response the
   * draft loads again if and only if the approval has room for the union of the signatures,
   * a condition on what is stored and received before the call.
   */
  lemma AcceptedLoadsExactly(env: Env, db: Db, id: DraftId, response: Psbt)
    requires AcceptSigned(env, db, id, response).Ok?
    ensures LoadDraft(env, db, id).Ok?
    ensures var draft := LoadDraft(env, db, id).value;
      && Signing.MergeCondition(env.crypto, draft.approved, draft.stored, response, draft.trusted)
      && var union := Signing.Union(env.crypto, draft.approved, draft.stored, response, draft.trusted);
      && |union| == |draft.approved.inputs|
      && (LoadDraft(env, AcceptSigned(env, db, id, response).value, id).Ok? <==> Sizes.Room(env, draft.approved, union))
  {
    AcceptShape(env, db, id, response);
    AcceptedMerge(env, db, id, response);
    AggregateHasRoom(env, db, id, response);
    LoadIsExact(env, db, id);
    var after := AcceptSigned(env, db, id, response).value;
    LoadIsExact(env, after, id);
    hide AcceptSigned, LoadDraft, Loadable, Parses, Signing.Merge, Signing.MergeCondition, Signing.Union, SigningLaws.Complete,
      Sizes.Room;
    LoadableAgain(env, db, after, id);
  }

  lemma LoadableAgain(env: Env, before: Db, after: Db, id: DraftId)
    requires Loadable(env, before, id) && id in after.drafts && Active(after.drafts[id].review.state)
    requires after == before.(drafts := after.drafts, signatures := after.signatures)
    requires after.drafts[id] == WithState(before.drafts[id], after.drafts[id].review.state)
    ensures Loadable(env, after, id) <==> StoredParses(env, StoredSignatures(after, id))
  {
    hide OutputsMatch, SumInputs, SumOutputs, Identified, Subset, InputLoads, Parses, ComputeTxid;
    var draft, state := before.drafts[id], after.drafts[id].review.state;
    assert |draft.psbt.outputs| == |draft.psbt.tx.outputs| == |draft.review.outputs|
      && |draft.psbt.tx.inputs| == |draft.review.inputs| by { LoadableLengths(env, before, id); }
    SameInputsLoad(env, before, after, id);
    StateIsNoOutput(env, draft, state);
    StateIsNoIdentity(env, id, draft, state);
  }

  lemma LoadableLengths(env: Env, db: Db, id: DraftId)
    requires Loadable(env, db, id)
    ensures var draft := db.drafts[id];
      && |draft.psbt.outputs| == |draft.psbt.tx.outputs| == |draft.review.outputs|
      && |draft.psbt.tx.inputs| == |draft.review.inputs|
  {
    hide OutputsMatch, SumInputs, SumOutputs, Subset, InputLoads, ComputeTxid;
  }

  lemma AggregateHasRoom(env: Env, db: Db, id: DraftId, response: Psbt)
    requires AcceptSigned(env, db, id, response).Ok?
    ensures LoadDraft(env, db, id).Ok? && id in db.drafts
    ensures var draft := LoadDraft(env, db, id).value;
      && Signing.MergeCondition(env.crypto, draft.approved, draft.stored, response, draft.trusted)
      && var union := Signing.Union(env.crypto, draft.approved, draft.stored, response, draft.trusted);
      var after := AcceptSigned(env, db, id, response).value;
      && id in after.signatures && |union| == |draft.approved.inputs|
      && (Parses(env, after.signatures[id]) <==> Sizes.Room(env, draft.approved, union))
  {
    AcceptedMerge(env, db, id, response);
    LoadedTrust(env, db, id);
    LoadedParses(env, db, id);
    hide AcceptSigned, LoadDraft;
    var draft := LoadDraft(env, db, id).value;
    Signing.MergeIsUnion(env.crypto, draft.approved, draft.stored, response, draft.trusted);
    UnsignedApproval(env.crypto, draft.approved, draft.stored, response, draft.trusted);
    hide Signing.Merge, Signing.MergeCondition, Signing.Union, SigningLaws.Complete, Sizes.Fits, Sizes.Room;
    Sizes.AggregateFits(env, draft.approved,
                        Signing.Union(env.crypto, draft.approved, draft.stored, response, draft.trusted));
  }

  lemma UnsignedApproval(c: Crypto, approved: Psbt, previous: Option<Psbt>, response: Psbt, trusted: seq<TrustedInput>)
    requires Signing.MergeCondition(c, approved, previous, response, trusted)
    ensures |Signing.Union(c, approved, previous, response, trusted)| == |approved.inputs|
    ensures forall i :: 0 <= i < |approved.inputs| ==> approved.inputs[i].partialSigs == map[]
  {
  }

  lemma LoadedParses(env: Env, db: Db, id: DraftId)
    requires LoadDraft(env, db, id).Ok?
    ensures id in db.drafts && Parses(env, db.drafts[id].psbt)
  {
    hide Parses;
  }

  lemma SameInputsLoad(env: Env, before: Db, after: Db, id: DraftId)
    requires id in before.drafts && id in after.drafts
    requires after.drafts[id] == WithState(before.drafts[id], after.drafts[id].review.state)
    requires after.chain == before.chain && after.freezes == before.freezes && after.reservations == before.reservations
    requires |before.drafts[id].psbt.tx.inputs| == |before.drafts[id].review.inputs|
    ensures forall i :: 0 <= i < |before.drafts[id].psbt.tx.inputs| ==>
      (InputLoads(env, before, id, before.drafts[id], i) <==> InputLoads(env, after, id, after.drafts[id], i))
  {
    hide Trust, Eligible;
  }

  lemma StateIsNoOutput(env: Env, draft: Draft, state: DraftState)
    requires |draft.psbt.outputs| == |draft.psbt.tx.outputs| == |draft.review.outputs|
    ensures OutputsMatch(env, WithState(draft, state)) <==> OutputsMatch(env, draft)
  {
    hide OutputMatches;
  }

  lemma StateIsNoIdentity(env: Env, id: DraftId, draft: Draft, state: DraftState)
    ensures Identified(env, id, WithState(draft, state)) <==> Identified(env, id, draft)
  {
    hide ComputeTxid;
  }
}
