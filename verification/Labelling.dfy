/**
 * Payment labels: applied when a submission is first observed, once per draft, never over
 * an existing row, and never again after the user has edited what they wrote.
 */
module Labelling {
  import opened Wrappers
  import opened Psbts
  import opened Tables
  import opened Operations
  import opened Chainsync
  import opened Recovery
  import opened Commits
  import opened Holds
  import opened Rows
  import opened Submissions
  import opened StoreInvariant

  /** The label rows that the first observation of a draft's newest submission offers. */
  function Offered(env: Env, db: Db, chain: Chain, id: DraftId): map<Reference, string> {
    match Latest(db.attempts, id)
    case Some(info) =>
      if id in db.drafts && info.txid in chain.txs
        then PaymentLabels(info.txid, OwnOutputs(env, info.txid, chain.txs[info.txid].tx), db.drafts[id].review.tag)
      else map[]
    case None => map[]
  }

  ghost predicate NewlyApplied(before: Db, after: Db, id: DraftId) {
    id in after.applied && id !in before.applied
  }

  /** Row `reference` is new and came from exactly one draft's first observation. */
  ghost predicate Explained(env: Env, before: Db, after: Db, chain: Chain, reference: Reference)
    requires reference in after.labels
  {
    exists id :: NewlyApplied(before, after, id) && reference in Offered(env, before, chain, id)
      && after.labels[reference] == Offered(env, before, chain, id)[reference]
  }

  ghost predicate OnlyAdds(env: Env, before: Db, after: Db, chain: Chain) {
    && (forall reference :: reference in before.labels ==>
          reference in after.labels && after.labels[reference] == before.labels[reference])
    && (forall op :: op in before.provenance ==> op in after.provenance && after.provenance[op] == before.provenance[op])
    && before.applied <= after.applied
    && (forall reference :: reference in after.labels && reference !in before.labels ==>
          Explained(env, before, after, chain, reference))
    && (forall op :: op in after.provenance && op !in before.provenance ==> NewlyApplied(before, after, after.provenance[op]))
    && (forall id :: NewlyApplied(before, after, id) ==> id in after.drafts && Submitted(after.attempts, id))
  }

  lemma ApplicationShape(env: Env, db: Db, chain: Chain, id: DraftId)
    requires id in db.drafts && db.drafts[id].review.id == id && Latest(db.attempts, id).Some?
    requires ApplyObservedLabels(env, db, db.drafts[id].review, chain, Latest(db.attempts, id).value.txid).Ok?
    ensures var after := ApplyObservedLabels(env, db, db.drafts[id].review, chain, Latest(db.attempts, id).value.txid).value;
      && (id in db.applied ==> after == db)
      && (id !in db.applied ==>
            && after.applied == db.applied + {id}
            && after.labels == Offered(env, db, chain, id) + db.labels
            && exists added: map<OutPoint, DraftId> :: after.provenance == added + db.provenance && added.Values <= {id})
  {
    hide PaymentLabels, OwnOutputs, ValidLabel, Latest;
    if id !in db.applied {
      var txid := Latest(db.attempts, id).value.txid;
      var added := PaymentProvenance(OwnOutputs(env, txid, chain.txs[txid].tx), id);
      var after := ApplyObservedLabels(env, db, db.drafts[id].review, chain, txid).value;
      assert after.provenance == added + db.provenance && added.Values <= {id};
    }
  }

  lemma SeenIsSubmitted(env: Env, db: Db, chain: Chain, id: DraftId)
    requires Seen(env, db, chain, id) == Ok(true)
    ensures Latest(db.attempts, id).Some? && Submitted(db.attempts, id)
  {
    hide Observe;
  }

  /** One application adds only what it offers. */
  lemma ApplicationAdds(env: Env, before: Db, after: Db, chain: Chain, id: DraftId, added: map<OutPoint, DraftId>)
    requires id !in before.applied && after.applied == before.applied + {id}
    requires after.labels == Offered(env, before, chain, id) + before.labels
    requires after.provenance == added + before.provenance && added.Values <= {id}
    requires id in after.drafts && Submitted(after.attempts, id)
    ensures OnlyAdds(env, before, after, chain)
  {
    hide Offered, Submitted;
    forall reference | reference in after.labels && reference !in before.labels
      ensures Explained(env, before, after, chain, reference)
    {
      assert NewlyApplied(before, after, id);
    }
    forall op | op in after.provenance && op !in before.provenance
      ensures NewlyApplied(before, after, after.provenance[op])
    {
      assert added[op] in added.Values;
    }
  }

  lemma UnseenDraftAfter(env: Env, db: Db, chain: Chain, id: DraftId)
    requires id in db.drafts && SyncDraft(env, db, chain, id).Ok? && Seen(env, db, chain, id) != Ok(true)
    ensures var after := SyncDraft(env, db, chain, id).value;
      after.labels == db.labels && after.applied == db.applied && after.provenance == db.provenance
  {
    hide Seen, StillEligible, ReleaseOf, ApplyObservedLabels;
  }

  lemma SeenDraftAfter(env: Env, db: Db, chain: Chain, id: DraftId)
    requires id in db.drafts && SyncDraft(env, db, chain, id).Ok? && Seen(env, db, chain, id) == Ok(true)
    ensures Latest(db.attempts, id).Some?
    ensures var after := SyncDraft(env, db, chain, id).value;
      var applied := ApplyObservedLabels(env, db, db.drafts[id].review, chain, Latest(db.attempts, id).value.txid);
      && applied.Ok? && after.labels == applied.value.labels && after.applied == applied.value.applied
      && after.provenance == applied.value.provenance && id in after.drafts && after.attempts == applied.value.attempts
  {
    SeenIsSubmitted(env, db, chain, id);
    hide Seen, StillEligible, ReleaseOf, HoldsWithout, ApplyObservedLabels, Latest, Submitted;
  }

  lemma SyncDraftAdds(env: Env, db: Db, chain: Chain, id: DraftId)
    requires id in db.drafts && db.drafts[id].review.id == id && SyncDraft(env, db, chain, id).Ok?
    ensures OnlyAdds(env, db, SyncDraft(env, db, chain, id).value, chain)
  {
    hide SyncDraft, Seen, ApplyObservedLabels, Latest, Submitted, Offered;
    var after := SyncDraft(env, db, chain, id).value;
    if Seen(env, db, chain, id) != Ok(true) {
      UnseenDraftAfter(env, db, chain, id);
    } else {
      SeenDraftAfter(env, db, chain, id);
      SeenIsSubmitted(env, db, chain, id);
      LabelShape(env, db, db.drafts[id].review, chain, Latest(db.attempts, id).value.txid);
      ApplicationShape(env, db, chain, id);
      if id !in db.applied {
        var added: map<OutPoint, DraftId> :| after.provenance == added + db.provenance && added.Values <= {id};
        hide OnlyAdds;
        ApplicationAdds(env, db, after, chain, id, added);
      }
    }
  }

  lemma OffersAreStable(env: Env, before: Db, after: Db, chain: Chain, id: DraftId)
    requires after.attempts == before.attempts && (id in before.drafts <==> id in after.drafts)
    requires id in before.drafts ==> after.drafts[id] == WithState(before.drafts[id], after.drafts[id].review.state)
    ensures Offered(env, before, chain, id) == Offered(env, after, chain, id)
  {
    hide PaymentLabels, OwnOutputs, Latest;
  }

  lemma AddsIsTransitive(env: Env, a: Db, b: Db, c: Db, chain: Chain)
    requires OnlyAdds(env, a, b, chain) && OnlyAdds(env, b, c, chain)
    requires b.attempts == a.attempts && c.attempts == a.attempts
    requires b.drafts.Keys == a.drafts.Keys && c.drafts.Keys == a.drafts.Keys
    requires forall id :: Offered(env, a, chain, id) == Offered(env, b, chain, id)
    ensures OnlyAdds(env, a, c, chain)
  {
    hide Offered, Submitted;
    forall reference | reference in c.labels && reference !in a.labels
      ensures Explained(env, a, c, chain, reference)
    {
      if reference in b.labels {
        assert Explained(env, a, b, chain, reference);
        var id :| NewlyApplied(a, b, id) && reference in Offered(env, a, chain, id)
          && b.labels[reference] == Offered(env, a, chain, id)[reference];
        assert NewlyApplied(a, c, id);
      } else {
        assert Explained(env, b, c, chain, reference);
        var id :| NewlyApplied(b, c, id) && reference in Offered(env, b, chain, id)
          && c.labels[reference] == Offered(env, b, chain, id)[reference];
        assert NewlyApplied(a, c, id);
      }
    }
  }

  lemma {:induction false} SyncAdds(env: Env, db: Db, chain: Chain, order: seq<DraftId>)
    requires forall i :: 0 <= i < |order| ==> order[i] in db.drafts
    requires forall id :: id in db.drafts ==> db.drafts[id].review.id == id
    requires SyncDrafts(env, db, chain, order).Ok?
    ensures OnlyAdds(env, db, SyncDrafts(env, db, chain, order).value, chain)
    ensures SyncDrafts(env, db, chain, order).value.attempts == db.attempts
    decreases |order|
  {
    hide SyncDraft, OnlyAdds, Offered;
    if order == [] {
      assert OnlyAdds(env, db, db, chain) by { AddsNothing(env, db, chain); }
    } else {
      var next := SyncDraft(env, db, chain, order[0]).value;
      SyncDraftAdds(env, db, chain, order[0]);
      SyncDraftShape(env, db, chain, order[0]);
      SyncAdds(env, next, chain, order[1..]);
      forall id ensures Offered(env, db, chain, id) == Offered(env, next, chain, id) {
        OffersAreStable(env, db, next, chain, id);
      }
      AddsIsTransitive(env, db, next, SyncDrafts(env, next, chain, order[1..]).value, chain);
    }
  }

  lemma AddsNothing(env: Env, db: Db, chain: Chain)
    ensures OnlyAdds(env, db, db, chain)
  {
  }

  // ---- Over runs ----

  /** An applied draft was submitted, so it can no longer be discarded together with its marker. */
  ghost predicate MarkersOk(db: Db) {
    && (forall id :: id in db.drafts ==> db.drafts[id].review.id == id)
    && (forall id :: id in db.applied ==> id in db.drafts && Submitted(db.attempts, id))
    && (forall op :: op in db.provenance ==> db.provenance[op] in db.applied)
  }

  /** What one commit may do to labels, provenance and markers. */
  ghost predicate LabelsKept(env: Env, before: Db, after: Db, op: Op) {
    if op.Sync? && Commit(env, before, op).Ok? then OnlyAdds(env, before, after, op.chain)
    else
      && after.labels == (if op.Tag? && Commit(env, before, op).Ok? then before.labels[op.reference := op.tag] else before.labels)
      && after.applied == before.applied && after.provenance == before.provenance
  }

  lemma OtherCommitsKeepLabels(env: Env, db: Db, op: Op)
    requires MarkersOk(db)
    ensures LabelsKept(env, db, Apply(env, db, op), op)
  {
    if Commit(env, db, op).Ok? {
      if op.Sync? {
        assert Enumerates(op.order, db.drafts);
        SyncedLabels(env, db, op.chain, op.order);
        hide OnlyAdds, ApplySync, Enumerates;
      } else if op.Create? || op.Discard? || op.Freeze? || op.Tag? || op.Reply? {
        EditingCommits(env, db, op);
        hide Commit, Apply;
      } else {
        SigningCommits(env, db, op);
        hide Commit, Apply;
      }
    } else {
      hide Commit;
    }
  }

  ghost predicate RowsKept(before: Db, after: Db, op: Op) {
    && after.labels == (if op.Tag? then before.labels[op.reference := op.tag] else before.labels)
    && after.applied == before.applied && after.provenance == before.provenance
  }

  lemma EditingCommits(env: Env, db: Db, op: Op)
    requires MarkersOk(db) && Commit(env, db, op).Ok?
    requires op.Create? || op.Discard? || op.Freeze? || op.Tag? || op.Reply?
    ensures RowsKept(db, Apply(env, db, op), op)
  {
    match op
    case Create(request, target, proposal) =>
      CreateShape(env, db, request, target, proposal);
      hide CreateDraft, MarkersOk;
    case Discard(id) =>
      DiscardKeepsMarkers(db, id);
      hide Submitted, ReleaseOf, HoldsWithout, MarkersOk;
    case Freeze(_, _) => hide MarkersOk;
    case Tag(_, _, _) => hide ValidLabel, MarkersOk;
    case Reply(_, _) => hide MarkersOk;
    case _ =>
  }

  lemma SigningCommits(env: Env, db: Db, op: Op)
    requires Commit(env, db, op).Ok?
    requires op.Accept? || op.Finalise? || op.Insert? || op.Reapprove?
    ensures RowsKept(db, Apply(env, db, op), op)
  {
    match op
    case Accept(other, response) =>
      AcceptShape(env, db, other, response);
      hide AcceptSigned;
    case Finalise(other) =>
      FinaliseShape(env, db, other);
      hide FinalizeDraft;
    case Insert(submission, approved) =>
      InsertShape(env, db, submission, approved);
      hide InsertAttempt;
    case Reapprove(other, txid, attempt, acknowledged) =>
      ResumeShape(env, db, other, txid, attempt, acknowledged);
      hide Resume, HoldsWithout;
    case _ =>
  }

  lemma SyncedLabels(env: Env, db: Db, chain: Chain, order: seq<DraftId>)
    requires MarkersOk(db) && Enumerates(order, db.drafts) && ApplySync(env, db, chain, order).Ok?
    ensures OnlyAdds(env, db, ApplySync(env, db, chain, order).value, chain)
  {
    hide OnlyAdds, SyncDrafts;
    SyncAdds(env, db, chain, order);
    ChainIsNoLabel(env, db, chain, order);
  }

  lemma DiscardKeepsMarkers(db: Db, id: DraftId)
    requires MarkersOk(db) && DiscardDraft(db, id).Ok?
    ensures DiscardDraft(db, id).value.applied == db.applied && DiscardDraft(db, id).value.provenance == db.provenance
  {
    hide Submitted, ReleaseOf, HoldsWithout;
    assert id !in db.applied;
  }

  lemma ChainIsNoLabel(env: Env, db: Db, chain: Chain, order: seq<DraftId>)
    requires Enumerates(order, db.drafts) && ApplySync(env, db, chain, order).Ok?
    requires OnlyAdds(env, db, SyncDrafts(env, db, chain, order).value, chain)
    ensures OnlyAdds(env, db, ApplySync(env, db, chain, order).value, chain)
  {
    hide SyncDrafts, Offered, Submitted;
    var middle, after := SyncDrafts(env, db, chain, order).value, ApplySync(env, db, chain, order).value;
    forall reference | reference in after.labels && reference !in db.labels
      ensures Explained(env, db, after, chain, reference)
    {
      assert Explained(env, db, middle, chain, reference);
      var id :| NewlyApplied(db, middle, id) && reference in Offered(env, db, chain, id)
        && middle.labels[reference] == Offered(env, db, chain, id)[reference];
      assert NewlyApplied(db, after, id);
    }
    forall op | op in after.provenance && op !in db.provenance ensures NewlyApplied(db, after, after.provenance[op]) {
      assert NewlyApplied(db, middle, middle.provenance[op]);
    }
    forall id | NewlyApplied(db, after, id) ensures id in after.drafts && Submitted(after.attempts, id) {
      assert NewlyApplied(db, middle, id);
    }
  }

  lemma NewDraftsAreNamed(env: Env, db: Db, op: Op)
    requires MarkersOk(db)
    ensures var after := Apply(env, db, op); forall id :: id in after.drafts ==> after.drafts[id].review.id == id
  {
    var after := Apply(env, db, op);
    forall id | id in after.drafts ensures after.drafts[id].review.id == id {
      if id in db.drafts {
        if op == Discard(id) && !Submitted(db.attempts, id) {
          hide Submitted, ReleaseOf, HoldsWithout, MarkersOk;
          assert false;
        } else {
          CommitIsStable(env, db, op, id);
          hide Apply;
        }
      } else {
        NewDraftIsCreated(env, db, op, id);
        hide Apply;
      }
    }
  }

  lemma NewDraftIsCreated(env: Env, db: Db, op: Op, id: DraftId)
    requires id in Apply(env, db, op).drafts && id !in db.drafts
    ensures Apply(env, db, op).drafts[id].review.id == id
  {
    match op
    case Create(request, target, proposal) =>
      CreateShape(env, db, request, target, proposal);
      hide CreateDraft;
    case Discard(_) => hide Submitted, ReleaseOf, HoldsWithout;
    case Freeze(_, _) =>
    case Tag(_, _, _) => hide ValidLabel;
    case Accept(other, response) =>
      if Commit(env, db, op).Ok? { AcceptShape(env, db, other, response); }
      hide AcceptSigned;
    case Finalise(other) =>
      if Commit(env, db, op).Ok? { FinaliseShape(env, db, other); }
      hide FinalizeDraft;
    case Insert(submission, approved) =>
      if Commit(env, db, op).Ok? { InsertShape(env, db, submission, approved); }
      hide InsertAttempt;
    case Reply(_, _) =>
    case Sync(_, _) => hide SyncDrafts, Enumerates;
    case Reapprove(other, txid, attempt, acknowledged) =>
      if Commit(env, db, op).Ok? { ResumeShape(env, db, other, txid, attempt, acknowledged); }
      hide Resume, HoldsWithout;
  }

  lemma CommitKeepsMarkers(env: Env, db: Db, op: Op)
    requires MarkersOk(db)
    ensures MarkersOk(Apply(env, db, op))
  {
    OtherCommitsKeepLabels(env, db, op);
    NewDraftsAreNamed(env, db, op);
    hide Apply, Submitted, Commit, Explained;
    var after := Apply(env, db, op);
    forall id | id in after.applied ensures id in after.drafts && Submitted(after.attempts, id) {
      if id in db.applied {
        CommitIsStable(env, db, op, id);
        CommitKeepsSubmitted(env, db, op, id);
      } else {
        assert NewlyApplied(db, after, id);
      }
    }
    forall outpoint | outpoint in after.provenance ensures after.provenance[outpoint] in after.applied {
      assert outpoint !in db.provenance ==> NewlyApplied(db, after, after.provenance[outpoint]);
    }
  }

  /** Only the user's own edits change an existing label, an explicitly empty one included. */
  lemma {:induction false} OnlyEditsChangeLabels(env: Env, db: Db, ops: seq<Op>, reference: Reference)
    requires MarkersOk(db) && reference in db.labels
    requires forall i :: 0 <= i < |ops| && ops[i].Tag? ==> ops[i].reference != reference
    ensures reference in Run(env, db, ops).labels && Run(env, db, ops).labels[reference] == db.labels[reference]
    decreases |ops|
  {
    hide MarkersOk, Apply, Commit;
    if ops != [] {
      OtherCommitsKeepLabels(env, db, ops[0]);
      CommitKeepsMarkers(env, db, ops[0]);
      OnlyEditsChangeLabels(env, Apply(env, db, ops[0]), ops[1..], reference);
    }
  }

  /** Provenance once recorded is never changed or lost. */
  lemma {:induction false} ProvenanceIsForever(env: Env, db: Db, ops: seq<Op>, outpoint: OutPoint)
    requires MarkersOk(db) && outpoint in db.provenance
    ensures outpoint in Run(env, db, ops).provenance && Run(env, db, ops).provenance[outpoint] == db.provenance[outpoint]
    decreases |ops|
  {
    hide MarkersOk, Apply, Commit, Explained, NewlyApplied;
    if ops != [] {
      OtherCommitsKeepLabels(env, db, ops[0]);
      CommitKeepsMarkers(env, db, ops[0]);
      ProvenanceIsForever(env, Apply(env, db, ops[0]), ops[1..], outpoint);
    }
  }

  /** How many commits of a run apply the draft's label. */
  ghost function Applications(env: Env, db: Db, ops: seq<Op>, id: DraftId): nat
    decreases |ops|
  {
    if ops == [] then 0
    else
      (if NewlyApplied(db, Apply(env, db, ops[0]), id) then 1 else 0) + Applications(env, Apply(env, db, ops[0]), ops[1..], id)
  }

  lemma {:induction false} AppliedAtMostOnce(env: Env, db: Db, ops: seq<Op>, id: DraftId)
    requires MarkersOk(db)
    ensures Applications(env, db, ops, id) <= if id in db.applied then 0 else 1
    decreases |ops|
  {
    hide MarkersOk, Apply, Commit, Explained;
    if ops != [] {
      OtherCommitsKeepLabels(env, db, ops[0]);
      CommitKeepsMarkers(env, db, ops[0]);
      AppliedAtMostOnce(env, Apply(env, db, ops[0]), ops[1..], id);
    }
  }

  /** Every label the user did not write was offered by a draft at its first and only application. */
  lemma NewLabelsAreExplained(env: Env, db: Db, op: Op, reference: Reference)
    requires MarkersOk(db) && reference in Apply(env, db, op).labels && !op.Tag?
    requires reference in db.labels ==> db.labels[reference] != Apply(env, db, op).labels[reference]
    ensures op.Sync? && reference !in db.labels && Explained(env, db, Apply(env, db, op), op.chain, reference)
  {
    hide MarkersOk, Apply, Commit, Explained, NewlyApplied;
    OtherCommitsKeepLabels(env, db, op);
  }

  /** A restore carries labels, markers and provenance over unchanged. */
  lemma RestoreKeepsMarkers(env: Env, backup: Db, order: seq<DraftId>)
    requires MarkersOk(backup) && Enumerates(order, backup.drafts) && Suspend(env, backup, order).Ok?
    ensures var after := Suspend(env, backup, order).value;
      MarkersOk(after) && after.labels == backup.labels && after.provenance == backup.provenance
  {
    hide Suspend, Enumerates, HoldsCover, Submitted, HoldsOf;
    RestoreSuspends(env, backup, order);
  }
}
