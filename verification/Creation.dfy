/** Exactly when a draft is created and which rows that writes, said on the request and the rows. */
module Creation {
  import opened Wrappers
  import opened ByteStrings
  import opened Psbts
  import opened Tables
  import opened Operations
  import opened Submissions
  import opened Loading
  import Responses

  function Spent(env: Env, inputs: seq<TxIn>): nat {
    if inputs == [] then 0 else env.prevout(inputs[0].prev).value + Spent(env, inputs[1..])
  }

  function Paid(outputs: seq<TxOut>): nat {
    if outputs == [] then 0 else outputs[0].value + Paid(outputs[1..])
  }

  /** At most 255 characters and no control character. */
  ghost predicate IsPlainText(tag: string) {
    |tag| <= 255 && forall i :: 0 <= i < |tag| ==> !('\0' <= tag[i] < ' ') && !('\U{7f}' <= tag[i] <= '\U{9f}')
  }

  ghost predicate MaySelect(env: Env, db: Db, ids: seq<OutPoint>) {
    && 1 <= |ids| <= 200
    && (forall i, j :: 0 <= i < j < |ids| ==> ids[i] != ids[j])
    && forall i :: 0 <= i < |ids| ==> IsAvailable(env, db, ids[i])
  }

  /** A merge of coins needs consent and two of them; a send needs an amount; everything needs its coins. */
  ghost predicate MayPay(request: Request) {
    match request.payment
    case Consolidate(acknowledged) => acknowledged && request.selected.Some? && |request.selected.value| >= 2
    case Send(_, sats) => 1 <= sats <= 2_100_000_000_000_000
    case SendMax(_) => request.selected.Some?
  }

  /** The builder spent the selected coins and no other, each available, to readable outputs, within the fee cap. */
  ghost predicate MayAccept(env: Env, db: Db, request: Request, psbt: Psbt) {
    var tx := psbt.tx;
    && (request.selected.Some? ==> forall op :: op in request.selected.value <==> exists i :: 0 <= i < |tx.inputs| && tx.inputs[i].prev == op)
    && (forall i :: 0 <= i < |tx.inputs| ==> IsAvailable(env, db, tx.inputs[i].prev))
    && (forall i :: 0 <= i < |tx.outputs| ==> env.address(tx.outputs[i].script).Some?)
    && (request.payment.Consolidate? ==> |tx.outputs| == 1 && env.derive(tx.outputs[0].script).Some?)
    && Paid(tx.outputs) <= Spent(env, tx.inputs) <= Paid(tx.outputs) + 1_000_000
  }

  ghost predicate MayCreate(env: Env, db: Db, request: Request, psbt: Psbt) {
    && IsPlainText(request.tag) && 1 <= request.satPerKwu <= 250_000 && !env.mainnet && db.synced
    && (request.selected.Some? ==> MaySelect(env, db, request.selected.value)) && MayPay(request)
    && Parses(env, psbt) && MayAccept(env, db, request, psbt)
    && env.identity(env.crypto.hash(Responses.WithoutWitnesses(psbt.tx))) !in db.drafts
    && forall i, j :: 0 <= i < j < |psbt.tx.inputs| ==> psbt.tx.inputs[i].prev != psbt.tx.inputs[j].prev
  }

  lemma {:induction false} SpentIsSummed(env: Env, inputs: seq<TxIn>, reviewed: seq<ReviewedInput>)
    requires |inputs| == |reviewed| && forall i :: 0 <= i < |inputs| ==> reviewed[i].sats == env.prevout(inputs[i].prev).value
    ensures SumInputs(reviewed) == Spent(env, inputs)
  {
    if inputs != [] {
      SpentIsSummed(env, inputs[1..], reviewed[1..]);
    }
  }

  lemma {:induction false} PaidIsSummed(outputs: seq<TxOut>, reviewed: seq<ReviewedOutput>)
    requires |outputs| == |reviewed| && forall i :: 0 <= i < |outputs| ==> reviewed[i].sats == outputs[i].value
    ensures SumOutputs(reviewed) == Paid(outputs)
  {
    if outputs != [] {
      PaidIsSummed(outputs[1..], reviewed[1..]);
    }
  }

  lemma LabelIsExact(tag: string)
    ensures ValidLabel(tag) <==> IsPlainText(tag)
  {
    assert forall i :: 0 <= i < |tag| ==> (IsControl(tag[i]) <==> '\0' <= tag[i] < ' ' || '\U{7f}' <= tag[i] <= '\U{9f}');
  }

  lemma SelectionIsExact(env: Env, db: Db, selected: Option<seq<OutPoint>>)
    ensures CheckSelection(env, db, selected).Pass? <==> (selected.Some? ==> MaySelect(env, db, selected.value))
  {
    hide IsAvailable;
  }

  lemma PaymentIsExact(request: Request)
    ensures CheckPayment(request).Pass? <==> MayPay(request)
  {
  }

  // ---- The review ----

  ghost predicate IsReviewedInput(env: Env, db: Db, input: TxIn, reviewed: ReviewedInput) {
    && reviewed.outpoint == input.prev && reviewed.sats == env.prevout(input.prev).value
    && reviewed.tag == if OutputRef(input.prev) in db.labels then db.labels[OutputRef(input.prev)] else ""
  }

  /** An output is change when it is the wallet's own, not the target of the payment, and nothing is merged. */
  ghost predicate IsReviewedOutput(env: Env, request: Request, target: Bytes, output: TxOut, reviewed: ReviewedOutput) {
    && env.address(output.script) == Some(reviewed.address) && reviewed.sats == output.value
    && (reviewed.isMine <==> env.derive(output.script).Some?)
    && (reviewed.isChange <==> env.derive(output.script).Some? && output.script != target && !request.payment.Consolidate?)
  }

  ghost predicate IsReview(env: Env, db: Db, request: Request, target: Bytes, tx: Transaction, review: Review) {
    && review.id == env.identity(env.crypto.hash(Responses.WithoutWitnesses(tx)))
    && |review.inputs| == |tx.inputs| && |review.outputs| == |tx.outputs|
    && (forall i :: 0 <= i < |tx.inputs| ==> IsReviewedInput(env, db, tx.inputs[i], review.inputs[i]))
    && (forall i :: 0 <= i < |tx.outputs| ==> IsReviewedOutput(env, request, target, tx.outputs[i], review.outputs[i]))
    && review.fee + Paid(tx.outputs) == Spent(env, tx.inputs)
    && review.tag == request.tag && review.isConsolidation == request.payment.Consolidate? && review.state == Unsigned
  }

  lemma OutputsAreReviewed(env: Env, request: Request, target: Bytes, tx: Transaction)
    ensures var consolidate := request.payment.Consolidate?;
      var each := Collect(seq(|tx.outputs|, i requires 0 <= i < |tx.outputs| => ReviewOutput(env, tx.outputs[i], target, consolidate)));
      && (each.Ok? <==> forall i :: 0 <= i < |tx.outputs| ==> env.address(tx.outputs[i].script).Some?)
      && (each.Ok? ==>
            && |each.value| == |tx.outputs| && SumOutputs(each.value) == Paid(tx.outputs)
            && forall i :: 0 <= i < |tx.outputs| ==> IsReviewedOutput(env, request, target, tx.outputs[i], each.value[i]))
  {
    var consolidate := request.payment.Consolidate?;
    var each := seq(|tx.outputs|, i requires 0 <= i < |tx.outputs| => ReviewOutput(env, tx.outputs[i], target, consolidate));
    assert forall i :: 0 <= i < |each| ==> (each[i].Ok? <==> env.address(tx.outputs[i].script).Some?);
    if Collect(each).Ok? {
      var outputs := Collect(each).value;
      forall i | 0 <= i < |outputs| ensures IsReviewedOutput(env, request, target, tx.outputs[i], outputs[i]) {
        assert each[i] == Ok(outputs[i]);
      }
      PaidIsSummed(tx.outputs, outputs);
    }
  }

  function InputsOf(env: Env, db: Db, tx: Transaction): seq<ReviewedInput> {
    seq(|tx.inputs|, i requires 0 <= i < |tx.inputs| =>
      ReviewedInput(tx.inputs[i].prev, env.prevout(tx.inputs[i].prev).value, LabelOf(db, OutputRef(tx.inputs[i].prev))))
  }

  lemma PrevoutsOf(tx: Transaction)
    ensures |Prevouts(tx)| == |tx.inputs| && forall i :: 0 <= i < |tx.inputs| ==> Prevouts(tx)[i] == tx.inputs[i].prev
    ensures forall op :: op in Prevouts(tx) <==> exists i :: 0 <= i < |tx.inputs| && tx.inputs[i].prev == op
  {
  }

  function OutputsOf(env: Env, request: Request, target: Bytes, tx: Transaction): Result<seq<ReviewedOutput>, Error> {
    Collect(seq(|tx.outputs|, i requires 0 <= i < |tx.outputs| =>
      ReviewOutput(env, tx.outputs[i], target, request.payment.Consolidate?)))
  }

  lemma ProposalForm(env: Env, db: Db, request: Request, target: Bytes, psbt: Psbt)
    ensures var prevouts, inputs, outputs := Prevouts(psbt.tx), InputsOf(env, db, psbt.tx), OutputsOf(env, request, target, psbt.tx);
      var reviewed := ReviewProposal(env, db, request, target, psbt);
      && (reviewed.Ok? <==>
            && (request.selected.Some? ==> (set op | op in prevouts) == (set op | op in request.selected.value))
            && (forall i :: 0 <= i < |prevouts| ==> IsAvailable(env, db, prevouts[i])) && outputs.Ok?
            && (request.payment.Consolidate? ==> |outputs.value| == 1 && outputs.value[0].isMine)
            && SumOutputs(outputs.value) <= SumInputs(inputs) <= SumOutputs(outputs.value) + MAX_FEE)
      && (reviewed.Ok? ==> reviewed.value == Review(
            env.identity(ComputeTxid(env.crypto, psbt.tx)), inputs, outputs.value, SumInputs(inputs) - SumOutputs(outputs.value),
            request.tag, request.payment.Consolidate?, Unsigned))
  {
    hide IsAvailable, ComputeTxid, SumInputs, SumOutputs, ReviewOutput, LabelOf;
    var prevouts := Prevouts(psbt.tx);
    var inputs := seq(|prevouts|, i requires 0 <= i < |prevouts| =>
      ReviewedInput(prevouts[i], env.prevout(prevouts[i]).value, LabelOf(db, OutputRef(prevouts[i]))));
    assert inputs == InputsOf(env, db, psbt.tx);
  }

  lemma SameMembers(a: seq<OutPoint>, b: seq<OutPoint>)
    ensures (set op | op in a) == (set op | op in b) <==> forall op :: op in b <==> op in a
  {
    var s, t := set op | op in a, set op | op in b;
    if s == t {
      forall op ensures op in b <==> op in a {
        assert op in s <==> op in t;
      }
    }
  }

  /** The review is made exactly for a builder's proposal that may be accepted, and says of it what it does. */
  lemma ProposalIsExact(env: Env, db: Db, request: Request, target: Bytes, psbt: Psbt)
    ensures var reviewed := ReviewProposal(env, db, request, target, psbt);
      && (reviewed.Ok? <==> MayAccept(env, db, request, psbt))
      && (reviewed.Ok? ==> IsReview(env, db, request, target, psbt.tx, reviewed.value))
  {
    var tx := psbt.tx;
    OutputsAreReviewed(env, request, target, tx);
    PrevoutsOf(tx);
    Responses.TxidIsExact(env.crypto, tx);
    SpentIsSummed(env, tx.inputs, InputsOf(env, db, tx));
    ProposalForm(env, db, request, target, psbt);
    if request.selected.Some? {
      SameMembers(Prevouts(tx), request.selected.value);
    }
    hide ReviewProposal, IsAvailable, ComputeTxid, SumInputs, SumOutputs, ReviewOutput, Spent, Paid, Prevouts;
  }

  lemma CreateForm(env: Env, db: Db, request: Request, target: Bytes, psbt: Psbt)
    ensures var reviewed := ReviewProposal(env, db, request, target, psbt);
      CreateDraft(env, db, request, target, Some(psbt)).Ok? <==>
        && ValidLabel(request.tag) && 1 <= request.satPerKwu <= 250_000 && !env.mainnet && db.synced
        && CheckSelection(env, db, request.selected).Pass? && CheckPayment(request).Pass? && Parses(env, psbt)
        && reviewed.Ok? && reviewed.value.id !in db.drafts && Reserve(db.reservations, Prevouts(psbt.tx), reviewed.value.id).Ok?
  {
    hide ValidLabel, CheckSelection, CheckPayment, Parses, ReviewProposal, Reserve, Prevouts;
  }

  lemma ReservesExactly(env: Env, db: Db, request: Request, psbt: Psbt, id: DraftId)
    requires MayAccept(env, db, request, psbt)
    ensures Reserve(db.reservations, Prevouts(psbt.tx), id).Ok? <==>
      forall i, j :: 0 <= i < j < |psbt.tx.inputs| ==> psbt.tx.inputs[i].prev != psbt.tx.inputs[j].prev
  {
    PrevoutsOf(psbt.tx);
    AllFree(env, db, request, psbt);
    hide MayAccept, Prevouts;
  }

  /** A draft is created exactly on these conditions. */
  lemma CreatesExactly(env: Env, db: Db, request: Request, target: Bytes, proposal: Option<Psbt>)
    ensures CreateDraft(env, db, request, target, proposal).Ok? <==> proposal.Some? && MayCreate(env, db, request, proposal.value)
  {
    if proposal.Some? {
      var psbt := proposal.value;
      LabelIsExact(request.tag);
      SelectionIsExact(env, db, request.selected);
      PaymentIsExact(request);
      ProposalIsExact(env, db, request, target, psbt);
      CreateForm(env, db, request, target, psbt);
      if ReviewProposal(env, db, request, target, psbt).Ok? {
        ReservesExactly(env, db, request, psbt, ReviewProposal(env, db, request, target, psbt).value.id);
      }
      hide CreateDraft, ValidLabel, IsPlainText, CheckSelection, MaySelect, CheckPayment, MayPay, Parses, ReviewProposal, MayAccept,
        IsReviewedInput, IsReviewedOutput, Prevouts, Spent, Paid, Reserve;
    } else {
      assert CreateDraft(env, db, request, target, proposal).Err?;
    }
  }

  /** Available coins are reserved by nobody. */
  lemma AllFree(env: Env, db: Db, request: Request, psbt: Psbt)
    ensures MayAccept(env, db, request, psbt) ==> forall op :: op in Prevouts(psbt.tx) ==> op !in db.reservations
  {
    if MayAccept(env, db, request, psbt) {
      forall op | op in Prevouts(psbt.tx) ensures op !in db.reservations {
        AvailableIsExact(env, db, op);
      }
    }
  }

  /** It writes the approval with its review, and a reservation of each input; every other row is as it was. */
  lemma CreatedRows(env: Env, db: Db, request: Request, target: Bytes, psbt: Psbt)
    requires CreateDraft(env, db, request, target, Some(psbt)).Ok?
    ensures var after, id := CreateDraft(env, db, request, target, Some(psbt)).value,
                             env.identity(env.crypto.hash(Responses.WithoutWitnesses(psbt.tx)));
      && id in after.drafts && after.drafts[id].psbt == psbt && IsReview(env, db, request, target, psbt.tx, after.drafts[id].review)
      && after == db.(drafts := db.drafts[id := after.drafts[id]], reservations := after.reservations)
      && (forall op :: op in after.reservations <==> op in db.reservations || exists i :: 0 <= i < |psbt.tx.inputs| && psbt.tx.inputs[i].prev == op)
      && (forall op :: op in db.reservations ==> after.reservations[op] == db.reservations[op])
      && (forall op :: op in after.reservations && op !in db.reservations ==> after.reservations[op] == id)
  {
    CreateShape(env, db, request, target, Some(psbt));
    ProposalIsExact(env, db, request, target, psbt);
    PrevoutsOf(psbt.tx);
    hide CreateDraft, ReviewProposal, MayAccept, IsReviewedInput, IsReviewedOutput, Prevouts, Spent, Paid;
  }
}
