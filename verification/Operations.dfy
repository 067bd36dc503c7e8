/**
 * The store's operations as functions from one committed state to the next. An error
 * is a rolled-back transaction: it carries no new state at all.
 */
module Operations {
  import opened Wrappers
  import opened ByteStrings
  import opened Psbts
  import opened Tables
  import Signing
  import SigningLaws
  import Finalizer
  import Sizes

  // ---- Loading a draft for signing, finalization or submission ----

  datatype SigningDraft = SigningDraft(approved: Psbt, stored: Option<Psbt>, trusted: seq<TrustedInput>, review: Review)

  /** What the wallet itself knows about an outpoint it could spend. */
  function Trust(env: Env, outpoint: OutPoint): Option<TrustedInput> {
    var prevout := env.prevout(outpoint);
    match env.derive(prevout.script)
    case None => None
    case Some(d) => Some(TrustedInput(prevout, d.witnessScript, d.derivations, d.descriptor))
  }

  /** A stored PSBT text is readable: version 0, one map per input and output, within bounds. */
  predicate Parses(env: Env, psbt: Psbt) {
    && psbt.version == 0
    && |psbt.inputs| == |psbt.tx.inputs|
    && |psbt.outputs| == |psbt.tx.outputs|
    && Sizes.Fits(env, psbt)
  }

  predicate Identified(env: Env, id: DraftId, draft: Draft) {
    && env.identity(ComputeTxid(env.crypto, draft.psbt.tx)) == id
    && draft.review.id == id
    && |draft.review.inputs| == |draft.psbt.inputs|
    && |draft.review.outputs| == |draft.psbt.outputs|
  }

  function LoadInput(env: Env, db: Db, id: DraftId, draft: Draft, i: nat): Result<TrustedInput, Error>
    requires i < |draft.psbt.tx.inputs| && i < |draft.review.inputs|
  {
    var outpoint := draft.psbt.tx.inputs[i].prev;
    if outpoint !in db.chain.unspent then Err(UnavailableCoin)
    else if outpoint.txid !in db.chain.txs then Err(CorruptState)
    else if || outpoint !in db.reservations || db.reservations[outpoint] != id
            || outpoint in db.freezes
            || (exists j | 0 <= j < i :: draft.psbt.tx.inputs[j].prev == outpoint)
            || !Eligible(env, db.chain, outpoint) then Err(UnavailableCoin)
    else
      var reviewed := draft.review.inputs[i];
      if reviewed.outpoint != outpoint || reviewed.sats != env.prevout(outpoint).value then Err(CorruptState)
      else
        match Trust(env, outpoint)
        case None => Err(CorruptState)
        case Some(t) => Ok(t)
  }

  predicate OutputMatches(env: Env, output: TxOut, reviewed: ReviewedOutput, metadata: Output) {
    var mine := IsMine(env, output.script);
    var expected := if mine then env.derive(output.script).value.output else Output(None, None, map[], map[]);
    && env.address(output.script) == Some(reviewed.address)
    && output.value == reviewed.sats
    && mine == reviewed.isMine
    && (reviewed.isChange ==> mine)
    && (mine ==> env.crypto.scriptPubkey(env.derive(output.script).value.descriptor) == output.script)
    && Signing.OutputAllowed(metadata, expected)
  }

  predicate OutputsMatch(env: Env, draft: Draft)
    requires |draft.psbt.outputs| == |draft.psbt.tx.outputs| == |draft.review.outputs|
  {
    forall i | 0 <= i < |draft.psbt.tx.outputs| ::
      OutputMatches(env, draft.psbt.tx.outputs[i], draft.review.outputs[i], draft.psbt.outputs[i])
  }

  /** Inputs pay exactly the outputs and the reviewed fee, within supply. */
  predicate Balanced(review: Review) {
    && SumInputs(review.inputs) <= MAX_SATS
    && SumInputs(review.inputs) == SumOutputs(review.outputs) + review.fee
  }

  function StoredSignatures(db: Db, id: DraftId): Option<Psbt> {
    if id in db.signatures then Some(db.signatures[id]) else None
  }

  /** The stored aggregate is read back through the same bounded parser as any response. */
  predicate StoredParses(env: Env, stored: Option<Psbt>) {
    stored.Some? ==> Parses(env, stored.value)
  }

  function LoadInputs(env: Env, db: Db, id: DraftId, draft: Draft): (r: Result<seq<TrustedInput>, Error>)
    requires |draft.psbt.tx.inputs| == |draft.review.inputs|
  {
    Collect(seq(|draft.psbt.tx.inputs|, i requires 0 <= i < |draft.psbt.tx.inputs| => LoadInput(env, db, id, draft, i)))
  }

  function LoadDraft(env: Env, db: Db, id: DraftId): Result<SigningDraft, Error> {
    if env.mainnet || !db.synced then Err(Unavailable)
    else if id !in db.drafts then Err(NotFound)
    else
      var draft := db.drafts[id];
      if !Parses(env, draft.psbt) then Err(CorruptState)
      else if !Active(draft.review.state) then Err(UnavailableCoin)
      else if || !Identified(env, id, draft)
              || !Subset(draft.psbt.xpubs, env.xpubs)
              || draft.psbt.unknown != map[] || draft.psbt.proprietary != map[] then Err(CorruptState)
      else
        match LoadInputs(env, db, id, draft)
        case Err(e) => Err(e)
        case Ok(trusted) =>
          if !OutputsMatch(env, draft) || !Balanced(draft.review) || draft.review.fee > MAX_FEE then Err(CorruptState)
          else if !StoredParses(env, StoredSignatures(db, id)) then Err(CorruptState)
          else Ok(SigningDraft(draft.psbt, StoredSignatures(db, id), trusted, draft.review))
  }

  // ---- Creating and discarding ----

  datatype Payment = Send(script: Bytes, sats: nat) | SendMax(script: Bytes) | Consolidate(acknowledged: bool)
  datatype Request = Request(payment: Payment, selected: Option<seq<OutPoint>>, satPerKwu: nat, tag: string)

  datatype CoinStatus = Frozen | Reserved | Pending | Immature | Available

  /** The status shown for one unspent coin; a freeze wins over a reservation or a hold. */
  function Status(env: Env, db: Db, outpoint: OutPoint): CoinStatus {
    if outpoint in db.freezes then Frozen
    else if outpoint in db.reservations || (exists h | h in db.holds :: h.outpoint == outpoint) then Reserved
    else if outpoint.txid !in db.chain.txs || !db.chain.txs[outpoint.txid].position.Confirmed? then Pending
    else if !Eligible(env, db.chain, outpoint) then Immature
    else Available
  }

  datatype Coin = Coin(outpoint: OutPoint, sats: nat, tag: string, address: string, status: CoinStatus)

  /** One row of the coin list. */
  predicate Shows(env: Env, db: Db, outpoint: OutPoint, coin: Coin) {
    && coin.outpoint == outpoint && coin.sats == env.prevout(outpoint).value
    && coin.tag == LabelOf(db, OutputRef(outpoint)) && env.address(env.prevout(outpoint).script) == Some(coin.address)
    && coin.status == Status(env, db, outpoint)
  }

  /** A listing without repetition has as many rows as there are coins. */
  lemma {:induction false} DistinctCover(order: seq<OutPoint>, unspent: set<OutPoint>)
    requires DistinctOutPoints(order) && forall op :: op in order <==> op in unspent
    ensures |order| == |unspent|
  {
    if order == [] {
      assert unspent == {};
    } else {
      var n := |order| - 1;
      assert order == order[..n] + [order[n]];
      DistinctCover(order[..n], unspent - {order[n]});
    }
  }

  predicate IsAvailable(env: Env, db: Db, outpoint: OutPoint) {
    outpoint in db.chain.unspent && Status(env, db, outpoint) == Available
  }

  predicate DistinctOutPoints(outpoints: seq<OutPoint>) {
    forall i, j | 0 <= i < j < |outpoints| :: outpoints[i] != outpoints[j]
  }

  function CheckSelection(env: Env, db: Db, selected: Option<seq<OutPoint>>): Outcome<Error> {
    match selected
    case None => Pass
    case Some(ids) =>
      if ids == [] || |ids| > 200 || !DistinctOutPoints(ids) then Fail(InvalidInput)
      else if exists i | 0 <= i < |ids| :: !IsAvailable(env, db, ids[i]) then Fail(UnavailableCoin)
      else Pass
  }

  function CheckPayment(request: Request): Outcome<Error> {
    match request.payment
    case Consolidate(acknowledged) =>
      if !acknowledged || request.selected.None? || |request.selected.value| < 2 then Fail(InvalidInput) else Pass
    case Send(_, sats) => if sats == 0 || sats > MAX_SATS then Fail(InvalidInput) else Pass
    case SendMax(_) => if request.selected.None? then Fail(InvalidInput) else Pass
  }

  function Prevouts(tx: Transaction): seq<OutPoint> {
    seq(|tx.inputs|, i requires 0 <= i < |tx.inputs| => tx.inputs[i].prev)
  }

  function LabelOf(db: Db, reference: Reference): string {
    if reference in db.labels then db.labels[reference] else ""
  }

  function ReviewOutput(env: Env, output: TxOut, target: Bytes, consolidate: bool): Result<ReviewedOutput, Error> {
    match env.address(output.script)
    case None => Err(CorruptState)
    case Some(address) =>
      var mine := IsMine(env, output.script);
      Ok(ReviewedOutput(address, output.value, mine, !consolidate && output.script != target && mine))
  }

  /** The reviewed form of a transaction that an outside builder proposed. */
  function ReviewProposal(env: Env, db: Db, request: Request, target: Bytes, psbt: Psbt): Result<Review, Error> {
    var prevouts := Prevouts(psbt.tx);
    var consolidate := request.payment.Consolidate?;
    if request.selected.Some? && (set op | op in prevouts) != (set op | op in request.selected.value) then Err(CorruptState)
    else if exists i | 0 <= i < |prevouts| :: !IsAvailable(env, db, prevouts[i]) then Err(UnavailableCoin)
    else
      var inputs := seq(|prevouts|, i requires 0 <= i < |prevouts| =>
        ReviewedInput(prevouts[i], env.prevout(prevouts[i]).value, LabelOf(db, OutputRef(prevouts[i]))));
      var outputs :- Collect(seq(|psbt.tx.outputs|, i requires 0 <= i < |psbt.tx.outputs| =>
        ReviewOutput(env, psbt.tx.outputs[i], target, consolidate)));
      if consolidate && (|outputs| != 1 || !outputs[0].isMine) then Err(CorruptState)
      else if SumInputs(inputs) < SumOutputs(outputs) then Err(CorruptState)
      else
        var fee: nat := SumInputs(inputs) - SumOutputs(outputs);
        if fee > MAX_FEE then Err(InvalidInput)
        else
          Ok(Review(env.identity(ComputeTxid(env.crypto, psbt.tx)), inputs, outputs, fee, request.tag, consolidate, Unsigned))
  }

  /** Every reservation row is inserted, or a primary-key conflict refuses the whole draft. */
  function Reserve(reservations: map<OutPoint, DraftId>, outpoints: seq<OutPoint>, id: DraftId)
    : Result<map<OutPoint, DraftId>, Error>
  {
    if !DistinctOutPoints(outpoints) || (exists i | 0 <= i < |outpoints| :: outpoints[i] in reservations) then Err(Storage)
    else Ok(reservations + map op | op in outpoints :: id)
  }

  /** `proposal` is whatever the transaction builder returned; every claim it makes is re-checked. */
  function CreateDraft(env: Env, db: Db, request: Request, target: Bytes, proposal: Option<Psbt>): Result<Db, Error> {
    if !ValidLabel(request.tag) || !(1 <= request.satPerKwu <= 250_000) then Err(InvalidInput)
    else if env.mainnet || !db.synced then Err(Unavailable)
    else
      match CheckSelection(env, db, request.selected)
      case Fail(e) => Err(e)
      case Pass =>
        match CheckPayment(request)
        case Fail(e) => Err(e)
        case Pass =>
          if proposal.None? then Err(CannotBuild)
          else if !Parses(env, proposal.value) then Err(InvalidInput)
          else
            var review :- ReviewProposal(env, db, request, target, proposal.value);
            if review.id in db.drafts then Err(Storage)
            else
              var reservations :- Reserve(db.reservations, Prevouts(proposal.value.tx), review.id);
              Ok(db.(drafts := db.drafts[review.id := Draft(proposal.value, review)], reservations := reservations))
  }

  /** Deleting a draft cascades to its own rows and to nothing else. */
  function DiscardDraft(db: Db, id: DraftId): Result<Db, Error> {
    if Submitted(db.attempts, id) then Err(InvalidInput)
    else if id !in db.drafts then Err(NotFound)
    else
      Ok(db.(
        drafts := db.drafts - {id},
        reservations := ReleaseOf(db.reservations, id),
        signatures := db.signatures - {id},
        finalized := db.finalized - {id},
        recovered := db.recovered - {id},
        holds := HoldsWithout(db.holds, id),
        applied := db.applied - {id},
        provenance := map op | op in db.provenance && db.provenance[op] != id :: db.provenance[op]))
  }

  function ReleaseOf(reservations: map<OutPoint, DraftId>, id: DraftId): map<OutPoint, DraftId> {
    map op | op in reservations && reservations[op] != id :: reservations[op]
  }

  function HoldsWithout(holds: set<Hold>, id: DraftId): set<Hold> {
    set h | h in holds && h.draft != id
  }

  // ---- Metadata ----

  function SetFrozen(db: Db, outpoint: OutPoint, frozen: bool): Result<Db, Error> {
    if outpoint !in db.chain.unspent then Err(NotFound)
    else Ok(db.(freezes := if frozen then db.freezes + {outpoint} else db.freezes - {outpoint}))
  }

  /** `known` is the wallet's own test of the reference. */
  function SetLabel(db: Db, reference: Reference, known: bool, tag: string): Result<Db, Error> {
    if !ValidLabel(tag) then Err(InvalidInput)
    else if !known then Err(NotFound)
    else Ok(db.(labels := db.labels[reference := tag]))
  }

  // ---- Signing ----

  /** Import a verified response; the aggregate and the review state change together. */
  function AcceptSigned(env: Env, db: Db, id: DraftId, response: Psbt): Result<Db, Error> {
    var draft :- LoadDraft(env, db, id);
    if draft.review.state == Finalized then Err(Unavailable)
    else
      var merged :- Signing.Merge(env.crypto, draft.approved, draft.stored, response, draft.trusted);
      if forall i | 0 <= i < |merged.inputs| :: merged.inputs[i].partialSigs == map[] then Err(InvalidInput)
      else
        var state := if SigningLaws.Complete(env.crypto, merged, draft.trusted) then Signed else PartiallySigned;
        Ok(db.(
          signatures := db.signatures[id := merged],
          drafts := db.drafts[id := WithState(db.drafts[id], state)]))
  }

  datatype FinalReview = FinalReview(draft: DraftId, txid: Txid, wtxid: Txid, fee: nat, tx: Transaction)

  function ReviewFinal(env: Env, id: DraftId, review: Review, tx: Transaction): FinalReview {
    FinalReview(id, ComputeTxid(env.crypto, tx), env.wtxid(tx), review.fee, tx)
  }

  /** Freeze the exact final transaction and the review state in one commit. */
  function FinalizeDraft(env: Env, db: Db, id: DraftId): Result<(Db, FinalReview), Error> {
    var draft :- LoadDraft(env, db, id);
    var tx :- Finalizer.Finalize(env.crypto, draft.approved, draft.stored, draft.trusted);
    var result := ReviewFinal(env, id, draft.review, tx);
    if id in db.finalized then
      if db.finalized[id] == tx && draft.review.state == Finalized then Ok((db, result)) else Err(CorruptState)
    else if draft.review.state == Finalized then Err(CorruptState)
    else
      Ok((db.(
        finalized := db.finalized[id := tx],
        drafts := db.drafts[id := WithState(db.drafts[id], Finalized)]), result))
  }

  /** Reassemble the final transaction from the approval and compare it with the stored one. */
  function ValidatedFinalized(env: Env, db: Db, id: DraftId): Result<Option<FinalReview>, Error> {
    var draft :- LoadDraft(env, db, id);
    if id !in db.finalized then
      if draft.review.state == Finalized then Err(CorruptState) else Ok(None)
    else if draft.review.state != Finalized then Err(CorruptState)
    else
      var tx :- Finalizer.Finalize(env.crypto, draft.approved, draft.stored, draft.trusted);
      if db.finalized[id] != tx then Err(CorruptState) else Ok(Some(ReviewFinal(env, id, draft.review, tx)))
  }

  // ---- Submission ----

  function CheckPrevious(db: Db, id: DraftId, expected: Option<nat>, retryAcknowledged: bool): Outcome<Error> {
    if LatestId(db.attempts, id) != expected then Fail(InvalidInput)
    else if Submitted(db.attempts, id) && !retryAcknowledged then Fail(InvalidInput)
    else if AttemptCount(db.attempts, id) >= MAX_ATTEMPTS then Fail(InvalidInput)
    else Pass
  }

  datatype BroadcastRequest = BroadcastRequest(
    draft: DraftId, endpointOk: bool, expectedTxid: Txid, previous: Option<nat>, retryAcknowledged: bool)

  /** The first locked section: everything is checked and nothing is written. */
  function BeginBroadcast(env: Env, db: Db, request: BroadcastRequest): Result<FinalReview, Error> {
    if env.mainnet then Err(Unavailable)
    else if !request.endpointOk then Err(InvalidInput)
    else
      var found :- ValidatedFinalized(env, db, request.draft);
      if found.None? || found.value.txid != request.expectedTxid then Err(InvalidInput)
      else
        match CheckPrevious(db, request.draft, request.previous, request.retryAcknowledged)
        case Fail(e) => Err(e)
        case Pass => Ok(found.value)
  }

  /** The second locked section: re-check, compare with the first review and insert the attempt durably. */
  function InsertAttempt(env: Env, db: Db, request: BroadcastRequest, approved: FinalReview): Result<(Db, nat), Error> {
    var found :- ValidatedFinalized(env, db, request.draft);
    if found != Some(approved) then Err(CorruptState)
    else
      match CheckPrevious(db, request.draft, request.previous, request.retryAcknowledged)
      case Fail(e) => Err(e)
      case Pass =>
        var row := Attempt(db.nextAttempt, request.draft, approved.txid, approved.wtxid, false);
        Ok((db.(attempts := db.attempts + [row], nextAttempt := db.nextAttempt + 1), row.id))
  }

  /** A late reply updates only its own row. */
  function Acknowledge(db: Db, attempt: nat, id: DraftId): Db {
    db.(attempts := seq(|db.attempts|, i requires 0 <= i < |db.attempts| =>
      if db.attempts[i].id == attempt && db.attempts[i].draft == id then db.attempts[i].(acknowledged := true)
      else db.attempts[i]))
  }
}
