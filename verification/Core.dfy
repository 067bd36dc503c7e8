/**
 * The store as an object whose methods write row by row inside a transaction. Each method
 * ends in exactly the state its operation specifies: the committed one, or the old one.
 */
module Store {
  import opened Wrappers
  import opened ByteStrings
  import opened Psbts
  import opened Tables
  import Operations
  import Chainsync
  import Recovery
  import Signing
  import SigningLaws
  import Finalizer

  // ---- Loops over rows, as functions ----

  lemma ReserveConflict(before: map<OutPoint, DraftId>, outpoints: seq<OutPoint>, id: DraftId, k: nat,
                        rows: map<OutPoint, DraftId>)
    requires k < |outpoints| && outpoints[k] in rows
    requires Operations.Reserve(before, outpoints[..k], id) == Ok(rows)
    ensures Operations.Reserve(before, outpoints, id) == Err(Storage)
  {
    if outpoints[k] !in before {
      var j :| 0 <= j < k && outpoints[..k][j] == outpoints[k];
      assert outpoints[j] == outpoints[k];
    }
  }

  lemma ReserveExtends(before: map<OutPoint, DraftId>, done: seq<OutPoint>, op: OutPoint, id: DraftId,
                       rows: map<OutPoint, DraftId>)
    requires op !in rows && Operations.Reserve(before, done, id) == Ok(rows)
    ensures Operations.Reserve(before, done + [op], id) == Ok(rows[op := id])
  {
    assert forall i :: 0 <= i < |done| ==> done[i] in rows;
    assert before + (map o | o in done + [op] :: id) == rows[op := id];
  }

  /** The wallet's own outputs among the first `k`. */
  function OwnPrefix(env: Env, txid: Txid, outputs: seq<TxOut>, k: nat): set<OutPoint>
    requires k <= |outputs|
  {
    set v: nat | v < k && IsMine(env, outputs[v].script) :: OutPoint(txid, v)
  }

  lemma OwnPrefixGrows(env: Env, txid: Txid, outputs: seq<TxOut>, k: nat)
    requires k < |outputs|
    ensures OwnPrefix(env, txid, outputs, k + 1)
      == OwnPrefix(env, txid, outputs, k) + if IsMine(env, outputs[k].script) then {OutPoint(txid, k)} else {}
    ensures OutPoint(txid, k) !in OwnPrefix(env, txid, outputs, k)
  {
    hide IsMine;
  }

  /** Inserting one row unless the key exists. */
  lemma InsertedLabels(own: set<OutPoint>, op: OutPoint, txid: Txid, tag: string, labels: map<Reference, string>)
    requires op !in own && tag != ""
    ensures var rows := Chainsync.PaymentLabels(txid, own, tag) + labels;
      Chainsync.PaymentLabels(txid, own + {op}, tag) + labels
        == if OutputRef(op) in rows then rows else rows[OutputRef(op) := tag]
  {
  }

  lemma InsertedProvenance(own: set<OutPoint>, op: OutPoint, id: DraftId, provenance: map<OutPoint, DraftId>)
    requires op !in own
    ensures var rows := Chainsync.PaymentProvenance(own, id) + provenance;
      Chainsync.PaymentProvenance(own + {op}, id) + provenance == if op in rows then rows else rows[op := id]
  {
  }

  class Core {
    const env: Env
    var synced: bool
    var chain: Chain
    var drafts: map<DraftId, Draft>
    var reservations: map<OutPoint, DraftId>
    var freezes: set<OutPoint>
    var signatures: map<DraftId, Psbt>
    var finalized: map<DraftId, Transaction>
    var attempts: seq<Attempt>
    var nextAttempt: nat
    var recovered: set<DraftId>
    var holds: set<Hold>
    var labels: map<Reference, string>
    var applied: set<DraftId>
    var provenance: map<OutPoint, DraftId>

    function View(): Db
      reads this
    {
      Db(synced, chain, drafts, reservations, freezes, signatures, finalized, attempts, nextAttempt,
         recovered, holds, labels, applied, provenance)
    }

    constructor (env: Env)
      ensures this.env == env && View() == EMPTY
    {
      this.env := env;
      synced, chain := false, Chain(map[], {});
      drafts, reservations, freezes := map[], map[], {};
      signatures, finalized := map[], map[];
      attempts, nextAttempt := [], 1;
      recovered, holds := {}, {};
      labels, applied, provenance := map[], {}, map[];
    }

    /** Dropping a transaction without committing it. */
    method Rollback(saved: Db)
      modifies this
      ensures View() == saved
    {
      RollbackDrafts(saved);
      RollbackHistory(saved);
    }

    method RollbackDrafts(saved: Db)
      modifies this`synced, this`chain, this`drafts, this`reservations, this`freezes, this`signatures, this`finalized
      ensures synced == saved.synced && chain == saved.chain && drafts == saved.drafts && reservations == saved.reservations
      ensures freezes == saved.freezes && signatures == saved.signatures && finalized == saved.finalized
    {
      synced, chain, drafts, reservations := saved.synced, saved.chain, saved.drafts, saved.reservations;
      freezes, signatures, finalized := saved.freezes, saved.signatures, saved.finalized;
    }

    method RollbackHistory(saved: Db)
      modifies this`attempts, this`nextAttempt, this`recovered, this`holds, this`labels, this`applied, this`provenance
      ensures attempts == saved.attempts && nextAttempt == saved.nextAttempt && recovered == saved.recovered
      ensures holds == saved.holds && labels == saved.labels && applied == saved.applied && provenance == saved.provenance
    {
      attempts, nextAttempt, recovered, holds := saved.attempts, saved.nextAttempt, saved.recovered, saved.holds;
      labels, applied, provenance := saved.labels, saved.applied, saved.provenance;
    }

    // ---- Loading ----

    method LoadInputs(id: DraftId, draft: Draft) returns (r: Result<seq<TrustedInput>, Error>)
      requires |draft.psbt.tx.inputs| == |draft.review.inputs|
      ensures r == Operations.LoadInputs(env, View(), id, draft)
    {
      hide Operations.LoadInput;
      ghost var view := View();
      ghost var read := seq(|draft.psbt.tx.inputs|, i requires 0 <= i < |draft.psbt.tx.inputs| =>
        Operations.LoadInput(env, view, id, draft, i));
      var trusted: seq<TrustedInput> := [];
      for index := 0 to |draft.psbt.tx.inputs|
        invariant |trusted| == index
        invariant forall i :: 0 <= i < index ==> read[i] == Ok(trusted[i])
      {
        var next := Operations.LoadInput(env, View(), id, draft, index);
        if next.Err? {
          CollectStopsAt(read, index);
          return Err(next.error);
        }
        trusted := trusted + [next.value];
      }
      assert Collect(read).value == trusted;
      r := Ok(trusted);
    }

    method LoadDraft(id: DraftId) returns (r: Result<Operations.SigningDraft, Error>)
      ensures r == Operations.LoadDraft(env, View(), id)
    {
      hide Operations.Parses, Operations.OutputsMatch, Operations.Balanced, Operations.LoadInputs;
      if env.mainnet || !synced {
        return Err(Unavailable);
      }
      if id !in drafts {
        return Err(NotFound);
      }
      var draft := drafts[id];
      if !Operations.Parses(env, draft.psbt) {
        return Err(CorruptState);
      }
      if !Active(draft.review.state) {
        return Err(UnavailableCoin);
      }
      if !Operations.Identified(env, id, draft) || !Subset(draft.psbt.xpubs, env.xpubs)
         || draft.psbt.unknown != map[] || draft.psbt.proprietary != map[] {
        return Err(CorruptState);
      }
      assert |draft.psbt.inputs| == |draft.psbt.tx.inputs| && |draft.psbt.outputs| == |draft.psbt.tx.outputs| by {
        LengthsAgree(draft.psbt);
      }
      var trusted := LoadInputs(id, draft);
      if trusted.Err? {
        return Err(trusted.error);
      }
      if !Operations.OutputsMatch(env, draft) || !Operations.Balanced(draft.review) || draft.review.fee > MAX_FEE {
        return Err(CorruptState);
      }
      if !Operations.StoredParses(env, Operations.StoredSignatures(View(), id)) {
        return Err(CorruptState);
      }
      r := Ok(Operations.SigningDraft(draft.psbt, Operations.StoredSignatures(View(), id), trusted.value, draft.review));
    }

    lemma LengthsAgree(psbt: Psbt)
      requires Operations.Parses(env, psbt)
      ensures |psbt.inputs| == |psbt.tx.inputs| && |psbt.outputs| == |psbt.tx.outputs|
    {
    }

    /**
     * Every unspent coin once, with its value, label, address and status; a script without
     * an address refuses the whole listing. `order` is the outpoints in the order of their text.
     */
    method Coins(order: seq<OutPoint>) returns (r: Result<seq<Operations.Coin>, Error>)
      requires (forall op :: op in order <==> op in chain.unspent) && Operations.DistinctOutPoints(order)
      ensures r.Ok? <==> forall op :: op in chain.unspent ==> env.address(env.prevout(op).script).Some?
      ensures r.Err? ==> r.error == CorruptState
      ensures r.Ok? ==> |r.value| == |order| == |chain.unspent|
      ensures r.Ok? ==> forall i :: 0 <= i < |order| ==> Operations.Shows(env, View(), order[i], r.value[i])
      ensures r.Ok? ==> forall op :: Operations.IsAvailable(env, View(), op) <==>
        exists i :: 0 <= i < |r.value| && r.value[i].outpoint == op && r.value[i].status == Operations.Available
    {
      var coins: seq<Operations.Coin> := [];
      for k := 0 to |order|
        invariant |coins| == k
        invariant forall i :: 0 <= i < k ==> Operations.Shows(env, View(), order[i], coins[i])
      {
        var op := order[k];
        var status;
        if op in freezes {
          status := Operations.Frozen;
        } else if op in reservations || exists h | h in holds :: h.outpoint == op {
          status := Operations.Reserved;
        } else if op.txid !in chain.txs || !chain.txs[op.txid].position.Confirmed? {
          status := Operations.Pending;
        } else if env.isCoinbase(chain.txs[op.txid].tx) && chain.txs[op.txid].position.depth < 100 {
          status := Operations.Immature;
        } else {
          status := Operations.Available;
        }
        assert op in order;
        var address := env.address(env.prevout(op).script);
        if address.None? {
          return Err(CorruptState);
        }
        coins := coins + [Operations.Coin(op, env.prevout(op).value, Operations.LabelOf(View(), OutputRef(op)), address.value, status)];
      }
      Operations.DistinctCover(order, chain.unspent);
      forall op ensures Operations.IsAvailable(env, View(), op) <==>
        exists i :: 0 <= i < |coins| && coins[i].outpoint == op && coins[i].status == Operations.Available
      {
        if Operations.IsAvailable(env, View(), op) {
          var i :| 0 <= i < |order| && order[i] == op;
          assert coins[i].outpoint == op;
        }
      }
      forall op | op in chain.unspent ensures env.address(env.prevout(op).script).Some? {
        var i :| 0 <= i < |order| && order[i] == op;
        assert Operations.Shows(env, View(), order[i], coins[i]);
      }
      r := Ok(coins);
    }

    // ---- Drafts ----

    /** Rows are inserted one by one; a primary-key conflict stops half way. */
    method InsertReservations(outpoints: seq<OutPoint>, id: DraftId) returns (r: Outcome<Error>)
      modifies this`reservations
      ensures match Operations.Reserve(old(reservations), outpoints, id)
        case Ok(rows) => r == Pass && reservations == rows
        case Err(e) => r == Fail(e)
    {
      hide Operations.Reserve;
      assert Operations.Reserve(reservations, outpoints[..0], id) == Ok(reservations) by { NothingReserved(reservations, id); }
      for k := 0 to |outpoints|
        invariant Operations.Reserve(old(reservations), outpoints[..k], id) == Ok(reservations)
      {
        if outpoints[k] in reservations {
          ReserveConflict(old(reservations), outpoints, id, k, reservations);
          return Fail(Storage);
        }
        ReserveExtends(old(reservations), outpoints[..k], outpoints[k], id, reservations);
        assert outpoints[..k + 1] == outpoints[..k] + [outpoints[k]];
        reservations := reservations[outpoints[k] := id];
      }
      assert outpoints[..|outpoints|] == outpoints;
      r := Pass;
    }

    lemma NothingReserved(rows: map<OutPoint, DraftId>, id: DraftId)
      ensures Operations.Reserve(rows, [], id) == Ok(rows)
    {
      assert rows + (map op | op in [] :: id) == rows;
    }

    method CreateDraft(request: Operations.Request, target: Bytes, proposal: Option<Psbt>) returns (r: Result<Review, Error>)
      modifies this
      ensures match Operations.CreateDraft(env, old(View()), request, target, proposal)
        case Err(e) => r == Err(e) && View() == old(View())
        case Ok(after) =>
          r.Ok? && View() == after && proposal.Some? && r.value.id in drafts && drafts[r.value.id] == Draft(proposal.value, r.value)
    {
      hide Operations.ReviewProposal, Operations.CheckSelection, Operations.CheckPayment, Operations.Reserve, Operations.Parses,
        ValidLabel;
      var saved := View();
      if !ValidLabel(request.tag) || !(1 <= request.satPerKwu <= 250_000) {
        return Err(InvalidInput);
      }
      if env.mainnet || !synced {
        return Err(Unavailable);
      }
      var selection := Operations.CheckSelection(env, View(), request.selected);
      if selection.Fail? {
        return Err(selection.error);
      }
      var payment := Operations.CheckPayment(request);
      if payment.Fail? {
        return Err(payment.error);
      }
      if proposal.None? {
        return Err(CannotBuild);
      }
      if !Operations.Parses(env, proposal.value) {
        return Err(InvalidInput);
      }
      var review := Operations.ReviewProposal(env, View(), request, target, proposal.value);
      if review.Err? {
        return Err(review.error);
      }
      var id := review.value.id;
      if id in drafts {
        return Err(Storage);
      }
      drafts := drafts[id := Draft(proposal.value, review.value)];
      var reserved := InsertReservations(Operations.Prevouts(proposal.value.tx), id);
      if reserved.Fail? {
        Rollback(saved);
        return Err(reserved.error);
      }
      r := Ok(review.value);
    }

    method DiscardDraft(id: DraftId) returns (r: Outcome<Error>)
      modifies this
      ensures match Operations.DiscardDraft(old(View()), id)
        case Err(e) => r == Fail(e) && View() == old(View())
        case Ok(after) => r == Pass && View() == after
    {
      hide Submitted, Operations.ReleaseOf, Operations.HoldsWithout;
      if Submitted(attempts, id) {
        return Fail(InvalidInput);
      }
      if id !in drafts {
        return Fail(NotFound);
      }
      drafts := drafts - {id};
      Cascade(id);
      r := Pass;
    }

    /** The foreign keys' cascades: every other table's rows of one draft. */
    method Cascade(id: DraftId)
      modifies this`reservations, this`signatures, this`finalized, this`recovered, this`holds, this`applied, this`provenance
      ensures reservations == Operations.ReleaseOf(old(reservations), id)
      ensures signatures == old(signatures) - {id} && finalized == old(finalized) - {id}
      ensures recovered == old(recovered) - {id} && holds == Operations.HoldsWithout(old(holds), id)
      ensures applied == old(applied) - {id}
      ensures provenance == map op | op in old(provenance) && old(provenance)[op] != id :: old(provenance)[op]
    {
      reservations := Operations.ReleaseOf(reservations, id);
      signatures, finalized := signatures - {id}, finalized - {id};
      recovered, holds := recovered - {id}, Operations.HoldsWithout(holds, id);
      applied := applied - {id};
      provenance := map op | op in provenance && provenance[op] != id :: provenance[op];
    }

    method SetState(id: DraftId, state: DraftState)
      requires id in drafts
      modifies this`drafts
      ensures drafts == old(drafts)[id := WithState(old(drafts)[id], state)]
    {
      drafts := drafts[id := WithState(drafts[id], state)];
    }

    // ---- Signing ----

    method AcceptSignedPsbt(id: DraftId, response: Psbt) returns (r: Outcome<Error>)
      modifies this
      ensures match Operations.AcceptSigned(env, old(View()), id, response)
        case Err(e) => r == Fail(e) && View() == old(View())
        case Ok(after) => r == Pass && View() == after
    {
      hide Operations.LoadDraft, Signing.Merge, SigningLaws.Complete;
      var loaded := LoadDraft(id);
      if loaded.Err? {
        return Fail(loaded.error);
      }
      var draft := loaded.value;
      if draft.review.state == Finalized {
        return Fail(Unavailable);
      }
      var merged := Signing.MergeResponse(env.crypto, draft.approved, draft.stored, response, draft.trusted);
      if merged.Err? {
        return Fail(merged.error);
      }
      if forall i | 0 <= i < |merged.value.inputs| :: merged.value.inputs[i].partialSigs == map[] {
        return Fail(InvalidInput);
      }
      signatures := signatures[id := merged.value];
      LoadedIsADraft(id);
      SetState(id, if SigningLaws.Complete(env.crypto, merged.value, draft.trusted) then Signed else PartiallySigned);
      r := Pass;
    }

    twostate lemma LoadedIsADraft(id: DraftId)
      requires Operations.LoadDraft(env, old(View()), id).Ok?
      ensures id in old(drafts)
    {
      hide Operations.Parses, Operations.OutputsMatch, Operations.LoadInputs;
    }

    method FinalizeDraft(id: DraftId) returns (r: Result<Operations.FinalReview, Error>)
      modifies this
      ensures match Operations.FinalizeDraft(env, old(View()), id)
        case Err(e) => r == Err(e) && View() == old(View())
        case Ok((after, review)) => r == Ok(review) && View() == after
    {
      hide Operations.LoadDraft, Finalizer.Finalize;
      var loaded := LoadDraft(id);
      if loaded.Err? {
        return Err(loaded.error);
      }
      var draft := loaded.value;
      var tx := Finalizer.FinalizeTransaction(env.crypto, draft.approved, draft.stored, draft.trusted);
      if tx.Err? {
        return Err(tx.error);
      }
      LoadedIsADraft(id);
      if id in finalized {
        if finalized[id] != tx.value || draft.review.state != Finalized {
          return Err(CorruptState);
        }
      } else if draft.review.state == Finalized {
        return Err(CorruptState);
      } else {
        finalized := finalized[id := tx.value];
        SetState(id, Finalized);
      }
      r := Ok(Operations.ReviewFinal(env, id, draft.review, tx.value));
    }

    method ValidatedFinalized(id: DraftId) returns (r: Result<Option<Operations.FinalReview>, Error>)
      ensures r == Operations.ValidatedFinalized(env, View(), id)
    {
      hide Operations.LoadDraft, Finalizer.Finalize;
      var loaded := LoadDraft(id);
      if loaded.Err? {
        return Err(loaded.error);
      }
      var draft := loaded.value;
      if id !in finalized {
        return if draft.review.state == Finalized then Err(CorruptState) else Ok(None);
      }
      if draft.review.state != Finalized {
        return Err(CorruptState);
      }
      var tx := Finalizer.FinalizeTransaction(env.crypto, draft.approved, draft.stored, draft.trusted);
      if tx.Err? {
        return Err(tx.error);
      }
      if finalized[id] != tx.value {
        return Err(CorruptState);
      }
      r := Ok(Some(Operations.ReviewFinal(env, id, draft.review, tx.value)));
    }

    // ---- Submission ----

    /** The first locked section of a submission. */
    method BeginBroadcast(request: Operations.BroadcastRequest) returns (r: Result<Operations.FinalReview, Error>)
      ensures r == Operations.BeginBroadcast(env, View(), request)
    {
      hide Operations.ValidatedFinalized, Operations.CheckPrevious;
      if env.mainnet {
        return Err(Unavailable);
      }
      if !request.endpointOk {
        return Err(InvalidInput);
      }
      var found := ValidatedFinalized(request.draft);
      if found.Err? {
        return Err(found.error);
      }
      if found.value.None? || found.value.value.txid != request.expectedTxid {
        return Err(InvalidInput);
      }
      var previous := Operations.CheckPrevious(View(), request.draft, request.previous, request.retryAcknowledged);
      if previous.Fail? {
        return Err(previous.error);
      }
      r := Ok(found.value.value);
    }

    /** The second locked section: the compare-and-insert. */
    method RecordAttempt(request: Operations.BroadcastRequest, approved: Operations.FinalReview) returns (r: Result<nat, Error>)
      modifies this
      ensures match Operations.InsertAttempt(env, old(View()), request, approved)
        case Err(e) => r == Err(e) && View() == old(View())
        case Ok((after, id)) => r == Ok(id) && View() == after
    {
      hide Operations.ValidatedFinalized, Operations.CheckPrevious;
      var found := ValidatedFinalized(request.draft);
      if found.Err? {
        return Err(found.error);
      }
      if found.value != Some(approved) {
        return Err(CorruptState);
      }
      var previous := Operations.CheckPrevious(View(), request.draft, request.previous, request.retryAcknowledged);
      if previous.Fail? {
        return Err(previous.error);
      }
      var id := nextAttempt;
      attempts := attempts + [Attempt(id, request.draft, approved.txid, approved.wtxid, false)];
      nextAttempt := id + 1;
      r := Ok(id);
    }

    /** Update the rows that name this attempt, wherever they now stand. */
    method AcknowledgeAttempt(attempt: nat, id: DraftId)
      modifies this
      ensures View() == Operations.Acknowledge(old(View()), attempt, id)
    {
      ghost var target := Operations.Acknowledge(View(), attempt, id).attempts;
      for k := 0 to |attempts|
        invariant View() == old(View()).(attempts := attempts)
        invariant |attempts| == |old(attempts)|
        invariant forall i :: 0 <= i < |attempts| ==> attempts[i] == if i < k then target[i] else old(attempts)[i]
      {
        if attempts[k].id == attempt && attempts[k].draft == id {
          attempts := attempts[k := attempts[k].(acknowledged := true)];
        }
      }
      assert attempts == target;
    }

    // ---- Metadata ----

    method SetFrozen(outpoint: OutPoint, frozen: bool) returns (r: Outcome<Error>)
      modifies this
      ensures match Operations.SetFrozen(old(View()), outpoint, frozen)
        case Err(e) => r == Fail(e) && View() == old(View())
        case Ok(after) => r == Pass && View() == after
    {
      if outpoint !in chain.unspent {
        return Fail(NotFound);
      }
      if frozen {
        freezes := freezes + {outpoint};
      } else {
        freezes := freezes - {outpoint};
      }
      r := Pass;
    }

    method SetLabel(reference: Reference, known: bool, tag: string) returns (r: Outcome<Error>)
      modifies this
      ensures match Operations.SetLabel(old(View()), reference, known, tag)
        case Err(e) => r == Fail(e) && View() == old(View())
        case Ok(after) => r == Pass && View() == after
    {
      hide ValidLabel;
      if !ValidLabel(tag) {
        return Fail(InvalidInput);
      }
      if !known {
        return Fail(NotFound);
      }
      labels := labels[reference := tag];
      r := Pass;
    }

    // ---- Synchronization ----

    /** The marker is written before anything is checked; the caller's transaction decides what survives. */
    method ApplyObservedLabels(review: Review, view: Chain, txid: Txid) returns (r: Outcome<Error>)
      modifies this`applied, this`labels, this`provenance
      ensures match Chainsync.ApplyObservedLabels(env, old(View()), review, view, txid)
        case Err(e) => r == Fail(e)
        case Ok(after) => r == Pass && View() == after
    {
      hide ValidLabel, Chainsync.PaymentLabels, Chainsync.PaymentProvenance, Chainsync.OwnOutputs, OwnPrefix, IsMine;
      if review.id in applied {
        return Pass;
      }
      applied := applied + {review.id};
      if !ValidLabel(review.tag) {
        return Fail(InvalidInput);
      }
      if txid !in view.txs {
        return Fail(CorruptState);
      }
      var outputs := view.txs[txid].tx.outputs;
      if review.tag != "" && TxRef(txid) !in labels {
        labels := labels[TxRef(txid) := review.tag];
      }
      NoOwnOutputs(txid, outputs, review, old(labels), old(provenance));
      for v := 0 to |outputs|
        invariant applied == old(applied) + {review.id}
        invariant labels == Chainsync.PaymentLabels(txid, OwnPrefix(env, txid, outputs, v), review.tag) + old(labels)
        invariant provenance == Chainsync.PaymentProvenance(OwnPrefix(env, txid, outputs, v), review.id) + old(provenance)
      {
        OwnPrefixGrows(env, txid, outputs, v);
        ghost var own := OwnPrefix(env, txid, outputs, v);
        if IsMine(env, outputs[v].script) {
          var op := OutPoint(txid, v);
          InsertedProvenance(own, op, review.id, old(provenance));
          if op !in provenance {
            provenance := provenance[op := review.id];
          }
          if review.tag != "" {
            InsertedLabels(own, op, txid, review.tag, old(labels));
            if OutputRef(op) !in labels {
              labels := labels[OutputRef(op) := review.tag];
            }
          } else {
            UnlabelledPayment(txid, own, own + {op});
          }
        } else {
          assert own + {} == own;
        }
      }
      AllOwnOutputs(txid, view.txs[txid].tx);
      ghost var own := Chainsync.OwnOutputs(env, txid, view.txs[txid].tx);
      assert labels == Chainsync.PaymentLabels(txid, own, review.tag) + old(labels);
      assert provenance == Chainsync.PaymentProvenance(own, review.id) + old(provenance);
      r := Pass;
    }

    lemma NoOwnOutputs(txid: Txid, outputs: seq<TxOut>, review: Review, labels: map<Reference, string>, rows: map<OutPoint, DraftId>)
      ensures (if review.tag != "" && TxRef(txid) !in labels then labels[TxRef(txid) := review.tag] else labels)
        == Chainsync.PaymentLabels(txid, OwnPrefix(env, txid, outputs, 0), review.tag) + labels
      ensures rows == Chainsync.PaymentProvenance(OwnPrefix(env, txid, outputs, 0), review.id) + rows
    {
    }

    lemma UnlabelledPayment(txid: Txid, a: set<OutPoint>, b: set<OutPoint>)
      ensures Chainsync.PaymentLabels(txid, a, "") == Chainsync.PaymentLabels(txid, b, "")
    {
    }

    lemma AllOwnOutputs(txid: Txid, tx: Transaction)
      ensures OwnPrefix(env, txid, tx.outputs, |tx.outputs|) == Chainsync.OwnOutputs(env, txid, tx)
    {
    }

    method ObserveDraft(id: DraftId, view: Chain) returns (r: Result<bool, Error>)
      requires id in drafts
      modifies this
      ensures match Chainsync.ObserveDraft(env, old(View()), view, id)
        case Err(e) => r == Err(e)
        case Ok((seen, after)) => r == Ok(seen) && View() == after
    {
      hide Chainsync.Observe, Chainsync.ApplyObservedLabels, Operations.ReleaseOf, Operations.HoldsWithout;
      var info := Latest(attempts, id);
      if info.None? {
        return Ok(false);
      }
      var observation := Chainsync.Observe(env, finalized, info.value, view);
      if observation.Err? {
        return Err(observation.error);
      }
      if observation.value == Chainsync.NotSeen {
        return Ok(false);
      }
      ghost var before := View();
      var labelled := ApplyObservedLabels(drafts[id].review, view, info.value.txid);
      if labelled.Fail? {
        return Err(labelled.error);
      }
      LabelsOnly(env, before, before.drafts[id].review, view, info.value.txid);
      SettleDraft(id);
      r := Ok(true);
    }

    /** An observed draft gives up its suspension and its reservations. */
    method SettleDraft(id: DraftId)
      requires id in drafts
      modifies this`recovered, this`holds, this`drafts, this`reservations
      ensures recovered == old(recovered) - {id} && holds == Operations.HoldsWithout(old(holds), id)
      ensures drafts == old(drafts)[id := WithState(old(drafts)[id], Observed)]
      ensures reservations == Operations.ReleaseOf(old(reservations), id)
    {
      recovered, holds := recovered - {id}, Operations.HoldsWithout(holds, id);
      SetState(id, Observed);
      reservations := Operations.ReleaseOf(reservations, id);
    }

    /** One row's turn in the sync loop. */
    method InvalidateDraft(id: DraftId, view: Chain) returns (r: Outcome<Error>)
      requires id in drafts
      modifies this
      ensures match Chainsync.SyncDraft(env, old(View()), view, id)
        case Err(e) => r == Fail(e)
        case Ok(after) => r == Pass && View() == after
    {
      hide Chainsync.ObserveDraft, Operations.ReleaseOf, Chainsync.StillEligible;
      UnseenKeeps(env, View(), view, id);
      var seen := ObserveDraft(id, view);
      if seen.Err? {
        return Fail(seen.error);
      }
      if seen.value {
        return Pass;
      }
      if drafts[id].review.state == Observed || !Chainsync.StillEligible(env, view, drafts[id].review) {
        SetState(id, Invalidated);
        reservations := Operations.ReleaseOf(reservations, id);
      }
      r := Pass;
    }

    method InvalidateDrafts(view: Chain, order: seq<DraftId>) returns (r: Outcome<Error>)
      requires forall i :: 0 <= i < |order| ==> order[i] in drafts
      modifies this
      ensures match Chainsync.SyncDrafts(env, old(View()), view, order)
        case Err(e) => r == Fail(e)
        case Ok(after) => r == Pass && View() == after
    {
      hide Chainsync.SyncDraft;
      for k := 0 to |order|
        invariant drafts.Keys == old(drafts).Keys
        invariant Chainsync.SyncDrafts(env, old(View()), view, order) == Chainsync.SyncDrafts(env, View(), view, order[k..])
      {
        ghost var rest := order[k..];
        assert rest[0] == order[k] && rest[1..] == order[k + 1..];
        var turn := InvalidateDraft(order[k], view);
        if turn.Fail? {
          return Fail(turn.error);
        }
      }
      assert order[|order|..] == [];
      r := Pass;
    }

    /** Drafts, labels, chain view and freshness in one transaction. */
    method ApplySync(view: Chain, order: seq<DraftId>) returns (r: Outcome<Error>)
      requires Chainsync.Enumerates(order, drafts)
      modifies this
      ensures match Chainsync.ApplySync(env, old(View()), view, order)
        case Err(e) => r == Fail(e) && View() == old(View())
        case Ok(after) => r == Pass && View() == after
    {
      hide Chainsync.SyncDrafts;
      var saved := View();
      r := InvalidateDrafts(view, order);
      if r.Fail? {
        Rollback(saved);
        return;
      }
      chain, synced := view, true;
    }

    // ---- Recovery ----

    method SuspendDraft(id: DraftId) returns (r: Outcome<Error>)
      requires id in drafts
      modifies this
      ensures match Recovery.SuspendDraft(env, old(View()), id)
        case Err(e) => r == Fail(e)
        case Ok(after) => r == Pass && View() == after
    {
      hide Recovery.ArchivedApprovalOk, Recovery.ArchivedFinalOk, Recovery.ArchivedSignaturesOk, Submitted, Recovery.HoldsOf,
        Operations.DistinctOutPoints;
      var draft := drafts[id];
      if !Recovery.ArchivedApprovalOk(env, id, draft) || !Recovery.ArchivedFinalOk(env, View(), id, draft)
         || !Recovery.ArchivedSignaturesOk(env, View(), id, draft) {
        return Fail(CorruptState);
      }
      if Submitted(attempts, id) {
        recovered := recovered + {id};
        if !Operations.DistinctOutPoints(Operations.Prevouts(draft.psbt.tx)) {
          return Fail(Storage);
        }
        holds := holds + Recovery.HoldsOf(draft.review, id);
      }
      SetState(id, Invalidated);
      r := Pass;
    }

    method SuspendDrafts(order: seq<DraftId>) returns (r: Outcome<Error>)
      requires forall i :: 0 <= i < |order| ==> order[i] in drafts
      modifies this
      ensures match Recovery.SuspendDrafts(env, old(View()), order)
        case Err(e) => r == Fail(e)
        case Ok(after) => r == Pass && View() == after
    {
      hide Recovery.SuspendDraft;
      for k := 0 to |order|
        invariant drafts.Keys == old(drafts).Keys
        invariant Recovery.SuspendDrafts(env, old(View()), order) == Recovery.SuspendDrafts(env, View(), order[k..])
      {
        ghost var rest := order[k..];
        assert rest[0] == order[k] && rest[1..] == order[k + 1..];
        var turn := SuspendDraft(order[k]);
        if turn.Fail? {
          return turn;
        }
      }
      assert order[|order|..] == [];
      r := Pass;
    }

    /** Every archived approval is suspended before the restored store opens. */
    method Suspend(order: seq<DraftId>) returns (r: Outcome<Error>)
      requires Chainsync.Enumerates(order, drafts)
      modifies this
      ensures match Recovery.Suspend(env, old(View()), order)
        case Err(e) => r == Fail(e) && View() == old(View())
        case Ok(after) => r == Pass && View() == after
    {
      hide Recovery.SuspendDrafts, Recovery.LabelsOk;
      var saved := View();
      if !Recovery.LabelsOk(View()) {
        return Fail(InvalidInput);
      }
      recovered, holds, reservations := {}, {}, map[];
      r := SuspendDrafts(order);
      if r.Fail? {
        Rollback(saved);
        return;
      }
      synced := false;
    }

    /** Rows first, validation after: a failed validation undoes the rows. */
    method ResumeRecoveredSubmission(id: DraftId, expectedTxid: Txid, expectedAttempt: nat, acknowledged: bool)
      returns (r: Result<Operations.FinalReview, Error>)
      modifies this
      ensures match Recovery.Resume(env, old(View()), id, expectedTxid, expectedAttempt, acknowledged)
        case Err(e) => r == Err(e) && View() == old(View())
        case Ok((after, review)) => r == Ok(review) && View() == after
    {
      hide Operations.ValidatedFinalized, Operations.HoldsWithout;
      if !acknowledged {
        return Err(InvalidInput);
      }
      if id !in recovered {
        return Err(NotFound);
      }
      var info := Latest(attempts, id);
      if info.None? {
        return Err(Storage);
      }
      if info.value.id != expectedAttempt || info.value.txid != expectedTxid {
        return Err(InvalidInput);
      }
      if id !in drafts {
        return Err(Storage);
      }
      if drafts[id].review.state != Invalidated {
        return Err(CorruptState);
      }
      var saved := View();
      ReserveInputs(id);
      SetState(id, Finalized);
      assert View() == Recovery.Rewritten(saved, id);
      var found := ValidatedFinalized(id);
      if found.Err? {
        Rollback(saved);
        return Err(found.error);
      }
      if found.value.None? || found.value.value.txid != expectedTxid {
        Rollback(saved);
        return Err(CorruptState);
      }
      recovered, holds := recovered - {id}, Operations.HoldsWithout(holds, id);
      r := Ok(found.value.value);
    }

    /** A row that exists is left to its owner, whoever that is. */
    method ReserveInputs(id: DraftId)
      requires id in drafts
      modifies this`reservations
      ensures reservations == Recovery.ReserveIgnoring(old(reservations), drafts[id].review, id)
    {
      var inputs := drafts[id].review.inputs;
      for k := 0 to |inputs|
        invariant forall op :: op in reservations <==> op in old(reservations) || exists j :: 0 <= j < k && inputs[j].outpoint == op
        invariant forall op :: op in reservations ==> reservations[op] == if op in old(reservations) then old(reservations)[op] else id
      {
        if inputs[k].outpoint !in reservations {
          reservations := reservations[inputs[k].outpoint := id];
        }
      }
    }
  }

  lemma LabelsOnly(env: Env, db: Db, review: Review, chain: Chain, txid: Txid)
    requires Chainsync.ApplyObservedLabels(env, db, review, chain, txid).Ok?
    ensures var after := Chainsync.ApplyObservedLabels(env, db, review, chain, txid).value;
      after == db.(applied := after.applied, labels := after.labels, provenance := after.provenance)
  {
    hide Chainsync.OwnOutputs, Chainsync.PaymentLabels, Chainsync.PaymentProvenance, ValidLabel;
  }

  lemma UnseenKeeps(env: Env, db: Db, chain: Chain, id: DraftId)
    requires id in db.drafts
    ensures var r := Chainsync.ObserveDraft(env, db, chain, id); r.Ok? ==> id in r.value.1.drafts && (!r.value.0 ==> r.value.1 == db)
  {
    hide Chainsync.Seen, Chainsync.ApplyObservedLabels, Operations.ReleaseOf, Operations.HoldsWithout;
  }
}
