/** Every single-transaction operation of the store, as one step on the committed tables. */
module Commits {
  import opened Wrappers
  import opened ByteStrings
  import opened Psbts
  import opened Tables
  import opened Operations
  import opened Chainsync
  import opened Recovery

  datatype Op =
    | Create(request: Request, target: Bytes, proposal: Option<Psbt>)
    | Discard(id: DraftId)
    | Freeze(outpoint: OutPoint, frozen: bool)
    | Tag(reference: Reference, known: bool, tag: string)
    | Accept(id: DraftId, response: Psbt)
    | Finalise(id: DraftId)
    | Insert(submission: BroadcastRequest, approved: FinalReview)
    | Reply(attempt: nat, id: DraftId)
    | Sync(chain: Chain, order: seq<DraftId>)
    | Reapprove(id: DraftId, expectedTxid: Txid, expectedAttempt: nat, acknowledged: bool)

  /** The committed result, or the refusal of the transaction. */
  function Commit(env: Env, db: Db, op: Op): Result<Db, Error> {
    match op
    case Create(request, target, proposal) => CreateDraft(env, db, request, target, proposal)
    case Discard(id) => DiscardDraft(db, id)
    case Freeze(outpoint, frozen) => SetFrozen(db, outpoint, frozen)
    case Tag(reference, known, tag) => SetLabel(db, reference, known, tag)
    case Accept(id, response) => AcceptSigned(env, db, id, response)
    case Finalise(id) =>
      (match FinalizeDraft(env, db, id)
       case Ok((after, _)) => Ok(after)
       case Err(e) => Err(e))
    case Insert(submission, approved) =>
      (match InsertAttempt(env, db, submission, approved)
       case Ok((after, _)) => Ok(after)
       case Err(e) => Err(e))
    case Reply(attempt, id) => Ok(Acknowledge(db, attempt, id))
    case Sync(chain, order) => if Enumerates(order, db.drafts) then ApplySync(env, db, chain, order) else Err(Storage)
    case Reapprove(id, expectedTxid, expectedAttempt, acknowledged) =>
      (match Resume(env, db, id, expectedTxid, expectedAttempt, acknowledged)
       case Ok((after, _)) => Ok(after)
       case Err(e) => Err(e))
  }

  /** A failed transaction leaves every table as it was. */
  function Apply(env: Env, db: Db, op: Op): Db {
    match Commit(env, db, op) case Ok(after) => after case Err(_) => db
  }
}
