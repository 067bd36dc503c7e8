/** Applying a completed chain scan: own observed spends, invalidation, and payment labels. */
module Chainsync {
  import opened Wrappers
  import opened Psbts
  import opened Tables
  import opened Operations

  datatype Observation = NotSeen | InMempool | InBlock

  /** Only the exact final transaction counts as an observation of it. */
  function Observe(env: Env, finalized: map<DraftId, Transaction>, info: Attempt, chain: Chain): Result<Observation, Error> {
    if info.draft !in finalized then Err(Storage)
    else
      var tx := finalized[info.draft];
      var txid := ComputeTxid(env.crypto, tx);
      if txid != info.txid || env.wtxid(tx) != info.wtxid then Err(CorruptState)
      else if txid in chain.txs && chain.txs[txid].tx == tx then
        match chain.txs[txid].position
        case Confirmed(_) => Ok(InBlock)
        case Mempool => Ok(InMempool)
        case Unseen => Ok(NotSeen)
      else Ok(NotSeen)
  }

  /** The wallet's own outputs of a transaction. */
  function OwnOutputs(env: Env, txid: Txid, tx: Transaction): set<OutPoint> {
    set v: nat | v < |tx.outputs| && IsMine(env, tx.outputs[v].script) :: OutPoint(txid, v)
  }

  /** The rows that a first observation would like to insert; an empty label inserts none. */
  function PaymentLabels(txid: Txid, own: set<OutPoint>, tag: string): map<Reference, string> {
    if tag == "" then map[]
    else map[TxRef(txid) := tag] + map op | op in own :: OutputRef(op) := tag
  }

  function PaymentProvenance(own: set<OutPoint>, id: DraftId): map<OutPoint, DraftId> {
    map op | op in own :: id
  }

  /** Apply a payment's label once. Existing rows, explicitly empty labels included, win. */
  function ApplyObservedLabels(env: Env, db: Db, review: Review, chain: Chain, txid: Txid): Result<Db, Error> {
    if review.id in db.applied then Ok(db)
    else if !ValidLabel(review.tag) then Err(InvalidInput)
    else if txid !in chain.txs then Err(CorruptState)
    else
      var own := OwnOutputs(env, txid, chain.txs[txid].tx);
      Ok(db.(
        applied := db.applied + {review.id},
        labels := PaymentLabels(txid, own, review.tag) + db.labels,
        provenance := PaymentProvenance(own, review.id) + db.provenance))
  }

  /** The draft's latest submission as the new chain view shows it. */
  function Seen(env: Env, db: Db, chain: Chain, id: DraftId): Result<bool, Error> {
    match Latest(db.attempts, id)
    case None => Ok(false)
    case Some(info) =>
      var observation :- Observe(env, db.finalized, info, chain);
      Ok(observation != NotSeen)
  }

  function ObserveDraft(env: Env, db: Db, chain: Chain, id: DraftId): Result<(bool, Db), Error>
    requires id in db.drafts
  {
    var seen :- Seen(env, db, chain, id);
    if !seen then Ok((false, db))
    else
      var labelled :- ApplyObservedLabels(env, db, db.drafts[id].review, chain, Latest(db.attempts, id).value.txid);
      Ok((true, labelled.(
        recovered := labelled.recovered - {id},
        holds := HoldsWithout(labelled.holds, id),
        drafts := db.drafts[id := WithState(db.drafts[id], Observed)],
        reservations := ReleaseOf(labelled.reservations, id))))
  }

  predicate StillEligible(env: Env, chain: Chain, review: Review) {
    forall i | 0 <= i < |review.inputs| :: Eligible(env, chain, review.inputs[i].outpoint)
  }

  function Invalidate(db: Db, id: DraftId): Db
    requires id in db.drafts
  {
    db.(drafts := db.drafts[id := WithState(db.drafts[id], Invalidated)], reservations := ReleaseOf(db.reservations, id))
  }

  /** One draft's turn: own spend first, then invalidation. An observed draft is never kept otherwise. */
  function SyncDraft(env: Env, db: Db, chain: Chain, id: DraftId): (r: Result<Db, Error>)
    requires id in db.drafts
    ensures r.Ok? ==> r.value.drafts.Keys == db.drafts.Keys
  {
    var (seen, after) :- ObserveDraft(env, db, chain, id);
    if seen then Ok(after)
    else if db.drafts[id].review.state == Observed || !StillEligible(env, chain, db.drafts[id].review) then
      Ok(Invalidate(db, id))
    else Ok(db)
  }

  function SyncDrafts(env: Env, db: Db, chain: Chain, order: seq<DraftId>): (r: Result<Db, Error>)
    requires forall i :: 0 <= i < |order| ==> order[i] in db.drafts
    ensures r.Ok? ==> r.value.drafts.Keys == db.drafts.Keys
    decreases |order|
  {
    if order == [] then Ok(db)
    else
      var next :- SyncDraft(env, db, chain, order[0]);
      SyncDrafts(env, next, chain, order[1..])
  }

  /** `order` lists every draft once, in whatever order the rows come back. */
  predicate Enumerates(order: seq<DraftId>, drafts: map<DraftId, Draft>) {
    && (forall i, j | 0 <= i < j < |order| :: order[i] != order[j])
    && (forall i | 0 <= i < |order| :: order[i] in drafts)
    && (forall id | id in drafts :: id in order)
  }

  /** Drafts, labels, chain view and freshness commit together or not at all. */
  function ApplySync(env: Env, db: Db, chain: Chain, order: seq<DraftId>): Result<Db, Error>
    requires Enumerates(order, db.drafts)
  {
    var after :- SyncDrafts(env, db, chain, order);
    Ok(after.(chain := chain, synced := true))
  }
}
