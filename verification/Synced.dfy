/** What one completed sync does to every draft, said without the order of its turns. */
module Synced {
  import opened Wrappers
  import opened Psbts
  import opened Tables
  import opened Operations
  import opened Chainsync
  import opened Commits
  import opened Rows
  import opened Restoration

  /** The state a draft must have after a sync against this chain view. */
  function StateAfter(seen: bool, before: DraftState, eligible: bool): DraftState {
    if seen then Observed else if before == Observed || !eligible then Invalidated else before
  }

  /** An observation is of the exact final bytes of the newest submission, confirmed or in the mempool. */
  lemma SeenIsExact(env: Env, db: Db, chain: Chain, id: DraftId)
    requires Seen(env, db, chain, id).Ok?
    ensures Seen(env, db, chain, id).value <==>
      && Latest(db.attempts, id).Some? && id in db.finalized
      && var txid := ComputeTxid(env.crypto, db.finalized[id]);
      && txid == Latest(db.attempts, id).value.txid && env.wtxid(db.finalized[id]) == Latest(db.attempts, id).value.wtxid
      && txid in chain.txs && chain.txs[txid].tx == db.finalized[id] && chain.txs[txid].position != Unseen
  {
    hide ComputeTxid;
  }

  lemma TurnDecides(env: Env, db: Db, chain: Chain, id: DraftId)
    requires id in db.drafts && SyncDraft(env, db, chain, id).Ok?
    ensures Seen(env, db, chain, id).Ok?
    ensures SyncDraft(env, db, chain, id).value.drafts[id].review.state ==
      StateAfter(Seen(env, db, chain, id).value, db.drafts[id].review.state, StillEligible(env, chain, db.drafts[id].review))
  {
    hide Seen, StillEligible, ReleaseOf, HoldsWithout, ApplyObservedLabels;
  }

  lemma SeenIsStable(env: Env, before: Db, after: Db, chain: Chain, id: DraftId)
    requires after.attempts == before.attempts && after.finalized == before.finalized
    ensures Seen(env, before, chain, id) == Seen(env, after, chain, id)
  {
    hide Observe;
  }

  lemma {:induction false} EveryDraftIsDecided(env: Env, db: Db, chain: Chain, order: seq<DraftId>, id: DraftId)
    requires forall i :: 0 <= i < |order| ==> order[i] in db.drafts
    requires forall i, j :: 0 <= i < j < |order| ==> order[i] != order[j]
    requires id in order && SyncDrafts(env, db, chain, order).Ok?
    ensures Seen(env, db, chain, id).Ok?
    ensures SyncDrafts(env, db, chain, order).value.drafts[id].review.state ==
      StateAfter(Seen(env, db, chain, id).value, db.drafts[id].review.state, StillEligible(env, chain, db.drafts[id].review))
    decreases |order|
  {
    hide SyncDraft, Seen, StillEligible;
    var turn := order[0];
    var next := SyncDraft(env, db, chain, turn).value;
    SyncDraftShape(env, db, chain, turn);
    if turn == id {
      TurnDecides(env, db, chain, id);
      OtherTurnsKeep(env, next, chain, order[1..], id);
    } else {
      EveryDraftIsDecided(env, next, chain, order[1..], id);
      SeenIsStable(env, db, next, chain, id);
    }
  }

  /** After a sync, a draft is observed, invalidated or kept exactly as the new chain view decides. */
  lemma SyncDecides(env: Env, db: Db, chain: Chain, order: seq<DraftId>, id: DraftId)
    requires Enumerates(order, db.drafts) && ApplySync(env, db, chain, order).Ok? && id in db.drafts
    ensures Seen(env, db, chain, id).Ok? && id in ApplySync(env, db, chain, order).value.drafts
    ensures ApplySync(env, db, chain, order).value.drafts[id].review.state ==
      StateAfter(Seen(env, db, chain, id).value, db.drafts[id].review.state, StillEligible(env, chain, db.drafts[id].review))
  {
    hide SyncDrafts, Seen, StillEligible;
    EveryDraftIsDecided(env, db, chain, order, id);
  }

  /** So every draft that can still be signed or submitted spends only confirmed, mature, unspent coins. */
  lemma SurvivorsAreEligible(env: Env, db: Db, chain: Chain, order: seq<DraftId>, id: DraftId)
    requires Enumerates(order, db.drafts) && ApplySync(env, db, chain, order).Ok?
    requires var after := ApplySync(env, db, chain, order).value; id in after.drafts && Active(after.drafts[id].review.state)
    requires id in db.drafts
    ensures forall op :: op in OutPoints(db.drafts[id].review) ==> Eligible(env, chain, op)
  {
    SyncDecides(env, db, chain, order, id);
    hide ApplySync, Seen, Eligible;
    assert StillEligible(env, chain, db.drafts[id].review);
  }
}
