/**
 * The tables of one wallet's store and the outside world they are checked against.
 * Keys are the primary keys of schema.sql: an outpoint has at most one reservation.
 */
module Tables {
  import opened Wrappers
  import opened ByteStrings
  import opened Psbts

  const MAX_SATS: nat := 2_100_000_000_000_000
  const MAX_FEE: nat := 1_000_000
  const MAX_ATTEMPTS: nat := 64
  const MAX_LABEL: nat := 255

  type DraftId = Bytes

  datatype DraftState = Unsigned | PartiallySigned | Signed | Finalized | Observed | Invalidated

  datatype ReviewedInput = ReviewedInput(outpoint: OutPoint, sats: nat, tag: string)
  datatype ReviewedOutput = ReviewedOutput(address: string, sats: nat, isMine: bool, isChange: bool)

  datatype Review = Review(
    id: DraftId,
    inputs: seq<ReviewedInput>,
    outputs: seq<ReviewedOutput>,
    fee: nat,
    tag: string,
    isConsolidation: bool,
    state: DraftState)

  /** The approved PSBT never changes; only the review's state does. */
  datatype Draft = Draft(psbt: Psbt, review: Review)

  datatype Attempt = Attempt(id: nat, draft: DraftId, txid: Txid, wtxid: Txid, acknowledged: bool)

  datatype Reference = TxRef(txid: Txid) | OutputRef(outpoint: OutPoint) | AddressRef(address: string)

  datatype Hold = Hold(outpoint: OutPoint, draft: DraftId)

  // ---- The wallet's cached view of the chain ----

  datatype Position = Confirmed(depth: nat) | Mempool | Unseen
  datatype ChainTx = ChainTx(tx: Transaction, position: Position)
  datatype Chain = Chain(txs: map<Txid, ChainTx>, unspent: set<OutPoint>)

  /** What the wallet's descriptors derive for one of its own scripts. */
  datatype Derived = Derived(
    descriptor: Descriptor,
    witnessScript: Option<Bytes>,
    derivations: map<PublicKey, Origin>,
    output: Output)

  /**
   * Everything outside the store. An outpoint fixes the output it names, because a
   * transaction id commits to outputs; a script fixes its derivation. `bytes` and `fields`
   * measure a PSBT and an input map that carry no partial signature; `readable` is the typed
   * parser's verdict on such a PSBT.
   */
  datatype Env = Env(
    crypto: Crypto,
    mainnet: bool,
    xpubs: map<Bytes, Origin>,
    prevout: OutPoint -> TxOut,
    derive: Bytes -> Option<Derived>,
    address: Bytes -> Option<string>,
    isCoinbase: Transaction -> bool,
    identity: Txid -> DraftId,
    wtxid: Transaction -> Txid,
    bytes: Psbt -> nat,
    fields: Input -> nat,
    readable: Psbt -> bool)

  predicate IsMine(env: Env, script: Bytes) {
    env.derive(script).Some?
  }

  predicate Spendable(position: Position, coinbase: bool) {
    position.Confirmed? && (!coinbase || position.depth >= 100)
  }

  /** An unspent output whose funding transaction is confirmed and mature. */
  predicate Eligible(env: Env, chain: Chain, outpoint: OutPoint) {
    && outpoint in chain.unspent
    && outpoint.txid in chain.txs
    && Spendable(chain.txs[outpoint.txid].position, env.isCoinbase(chain.txs[outpoint.txid].tx))
  }

  // ---- The store ----

  datatype Db = Db(
    synced: bool,
    chain: Chain,
    drafts: map<DraftId, Draft>,
    reservations: map<OutPoint, DraftId>,
    freezes: set<OutPoint>,
    signatures: map<DraftId, Psbt>,
    finalized: map<DraftId, Transaction>,
    attempts: seq<Attempt>,
    nextAttempt: nat,
    recovered: set<DraftId>,
    holds: set<Hold>,
    labels: map<Reference, string>,
    applied: set<DraftId>,
    provenance: map<OutPoint, DraftId>)

  const EMPTY: Db := Db(false, Chain(map[], {}), map[], map[], {}, map[], map[], [], 1, {}, {}, map[], {}, map[])

  predicate IsControl(c: char) {
    c < ' ' || '\U{7f}' <= c <= '\U{9f}'
  }

  predicate ValidLabel(tag: string) {
    |tag| <= MAX_LABEL && forall i | 0 <= i < |tag| :: !IsControl(tag[i])
  }

  /** The newest attempt row of a draft; ids grow with insertion. */
  function Latest(attempts: seq<Attempt>, id: DraftId): (r: Option<Attempt>)
    ensures r.Some? <==> exists i :: 0 <= i < |attempts| && attempts[i].draft == id
    ensures r.Some? ==> r.value in attempts && r.value.draft == id
  {
    if attempts == [] then None
    else if attempts[|attempts| - 1].draft == id then Some(attempts[|attempts| - 1])
    else Latest(attempts[..|attempts| - 1], id)
  }

  function LatestId(attempts: seq<Attempt>, id: DraftId): Option<nat> {
    match Latest(attempts, id) case None => None case Some(a) => Some(a.id)
  }

  predicate Submitted(attempts: seq<Attempt>, id: DraftId) {
    Latest(attempts, id).Some?
  }

  function AttemptCount(attempts: seq<Attempt>, id: DraftId): nat {
    if attempts == [] then 0
    else AttemptCount(attempts[..|attempts| - 1], id) + if attempts[|attempts| - 1].draft == id then 1 else 0
  }

  function OutPoints(review: Review): set<OutPoint> {
    set i | 0 <= i < |review.inputs| :: review.inputs[i].outpoint
  }

  function SumInputs(inputs: seq<ReviewedInput>): nat {
    if inputs == [] then 0 else inputs[0].sats + SumInputs(inputs[1..])
  }

  function SumOutputs(outputs: seq<ReviewedOutput>): nat {
    if outputs == [] then 0 else outputs[0].sats + SumOutputs(outputs[1..])
  }

  predicate Active(state: DraftState) {
    state in {Unsigned, PartiallySigned, Signed, Finalized}
  }

  function WithState(draft: Draft, state: DraftState): Draft {
    draft.(review := draft.review.(state := state))
  }
}
