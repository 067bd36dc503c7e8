/**
 * Submission as concurrent callers really run it: the lock is dropped between the first
 * check, the durable insert, the POST and the acknowledgement, a caller can die after any
 * of them, and other operations commit in between.
 */
module Protocol {
  import opened Wrappers
  import opened Psbts
  import opened Tables
  import opened Operations
  import opened Chainsync
  import opened Recovery
  import opened Commits
  import opened Submissions
  import opened StoreInvariant
  import Holds
  import Ownership
  import Rows

  /** How far one caller has come; each constructor is a point at which no lock is held. */
  datatype Phase =
    | Checked(request: BroadcastRequest, approved: FinalReview)
    | Inserted(request: BroadcastRequest, approved: FinalReview, attempt: nat)
    | Posted(request: BroadcastRequest, approved: FinalReview, attempt: nat)

  /** One request that left the device. */
  datatype Post = Post(attempt: nat, draft: DraftId, tx: Transaction)

  /** One committed insert and the previous attempt that its caller had named. */
  datatype Insertion = Insertion(draft: DraftId, expected: Option<nat>, attempt: nat)

  datatype System = System(db: Db, callers: map<nat, Phase>, posts: seq<Post>, log: seq<Insertion>, backups: seq<Db>)

  datatype Step =
    | Begin(caller: nat, request: BroadcastRequest)
    | Record(caller: nat)
    | Transmit(caller: nat)
    | Receive(caller: nat, exact: bool)
    | Die(caller: nat)
    | Change(op: Op)
    | Backup
    | Restore(n: nat, order: seq<DraftId>)

  const FRESH := System(EMPTY, map[], [], [], [])

  /** A caller whose check fails has written nothing and leaves. */
  function BeginCaller(env: Env, s: System, caller: nat, request: BroadcastRequest): System {
    if caller in s.callers then s
    else
      match BeginBroadcast(env, s.db, request)
      case Ok(approved) => s.(callers := s.callers[caller := Checked(request, approved)])
      case Err(_) => s
  }

  function RecordAttempt(env: Env, s: System, caller: nat): System {
    if caller !in s.callers || !s.callers[caller].Checked? then s
    else
      var Checked(request, approved) := s.callers[caller];
      match InsertAttempt(env, s.db, request, approved)
      case Err(_) => s.(callers := s.callers - {caller})
      case Ok((after, attempt)) =>
        s.(db := after,
           callers := s.callers[caller := Inserted(request, approved, attempt)],
           log := s.log + [Insertion(request.draft, request.previous, attempt)])
  }

  /** The POST carries the bytes approved in the first section. */
  function TransmitBytes(s: System, caller: nat): System {
    if caller !in s.callers || !s.callers[caller].Inserted? then s
    else
      var Inserted(request, approved, attempt) := s.callers[caller];
      s.(callers := s.callers[caller := Posted(request, approved, attempt)],
         posts := s.posts + [Post(attempt, request.draft, approved.tx)])
  }

  /** Only an exact transaction id in the reply acknowledges anything. */
  function ReceiveReply(s: System, caller: nat, exact: bool): System {
    if caller !in s.callers || !s.callers[caller].Posted? then s
    else
      var Posted(request, _, attempt) := s.callers[caller];
      s.(callers := s.callers - {caller}, db := if exact then Acknowledge(s.db, attempt, request.draft) else s.db)
  }

  /** Restoring starts another store from a backup; its own history of submissions starts empty. */
  function RestoreFrom(env: Env, s: System, n: nat, order: seq<DraftId>): System {
    if n >= |s.backups| || !Enumerates(order, s.backups[n].drafts) then s
    else
      match Suspend(env, s.backups[n], order)
      case Err(_) => s
      case Ok(after) => System(after, map[], [], [], s.backups)
  }

  function Next(env: Env, s: System, step: Step): System {
    match step
    case Begin(caller, request) => BeginCaller(env, s, caller, request)
    case Record(caller) => RecordAttempt(env, s, caller)
    case Transmit(caller) => TransmitBytes(s, caller)
    case Receive(caller, exact) => ReceiveReply(s, caller, exact)
    case Die(caller) => s.(callers := s.callers - {caller})
    case Change(op) => if op.Insert? || op.Reply? then s else s.(db := Apply(env, s.db, op))
    case Backup => s.(backups := s.backups + [s.db])
    case Restore(n, order) => RestoreFrom(env, s, n, order)
  }

  function RunSteps(env: Env, s: System, steps: seq<Step>): System
    decreases |steps|
  {
    if steps == [] then s else RunSteps(env, Next(env, s, steps[0]), steps[1..])
  }

  // ---- The invariant ----

  ghost predicate HasRow(attempts: seq<Attempt>, attempt: nat, draft: DraftId) {
    exists k :: 0 <= k < |attempts| && attempts[k].id == attempt && attempts[k].draft == draft
  }

  /** A committed row exists for the attempt, and these are the draft's one final transaction. */
  ghost predicate Backed(db: Db, attempt: nat, draft: DraftId, tx: Transaction) {
    HasRow(db.attempts, attempt, draft) && draft in db.finalized && db.finalized[draft] == tx
  }

  ghost predicate PostsOk(db: Db, posts: seq<Post>) {
    && (forall i :: 0 <= i < |posts| ==> Backed(db, posts[i].attempt, posts[i].draft, posts[i].tx))
    && (forall i, j :: 0 <= i < j < |posts| ==> posts[i].attempt != posts[j].attempt)
  }

  ghost predicate CallerOk(db: Db, posts: seq<Post>, phase: Phase) {
    match phase
    case Checked(_, _) => true
    case Inserted(request, approved, attempt) =>
      Backed(db, attempt, request.draft, approved.tx) && forall i :: 0 <= i < |posts| ==> posts[i].attempt != attempt
    case Posted(request, approved, attempt) => Backed(db, attempt, request.draft, approved.tx)
  }

  ghost predicate CallersOk(db: Db, posts: seq<Post>, callers: map<nat, Phase>) {
    && (forall c :: c in callers ==> CallerOk(db, posts, callers[c]))
    && (forall c, d :: c in callers && d in callers && c != d && !callers[c].Checked? && !callers[d].Checked? ==>
          callers[c].attempt != callers[d].attempt)
  }

  /** Row `k` was inserted by a caller that named the newest attempt of its draft at that moment. */
  ghost predicate NamedLatest(attempts: seq<Attempt>, k: int, inserted: Insertion) {
    && 0 <= k < |attempts|
    && attempts[k].id == inserted.attempt && attempts[k].draft == inserted.draft
    && LatestId(attempts[..k], inserted.draft) == inserted.expected
  }

  ghost predicate LogOk(attempts: seq<Attempt>, log: seq<Insertion>) {
    && |log| <= |attempts|
    && forall i :: 0 <= i < |log| ==> NamedLatest(attempts, |attempts| - |log| + i, log[i])
  }

  ghost predicate Sound(env: Env, s: System) {
    && StoreOk(env, s.db)
    && (forall i :: 0 <= i < |s.backups| ==> StoreOk(env, s.backups[i]))
    && PostsOk(s.db, s.posts)
    && CallersOk(s.db, s.posts, s.callers)
    && LogOk(s.db.attempts, s.log)
  }

  // ---- What every commit keeps of the history ----

  /** Rows are only appended; an existing row keeps its identity. */
  ghost predicate Grown(before: seq<Attempt>, after: seq<Attempt>) {
    && |before| <= |after|
    && forall k :: 0 <= k < |before| ==> after[k] == before[k].(acknowledged := after[k].acknowledged)
  }

  lemma CommitGrows(env: Env, db: Db, op: Op)
    ensures Grown(db.attempts, Apply(env, db, op).attempts)
    ensures !op.Insert? ==> |Apply(env, db, op).attempts| == |db.attempts|
  {
    hide Commit, Apply, InsertAttempt;
    if op.Insert? {
      InsertApplies(env, db, op);
      if InsertAttempt(env, db, op.submission, op.approved).Ok? {
        InsertShape(env, db, op.submission, op.approved);
      }
    } else if op.Reply? {
      ReplyApplies(env, db, op);
    } else {
      OtherCommitsKeepAttempts(env, db, op);
    }
  }

  lemma HasRowIsSubmitted(attempts: seq<Attempt>, attempt: nat, draft: DraftId)
    requires HasRow(attempts, attempt, draft)
    ensures Submitted(attempts, draft)
  {
  }

  lemma BackedIsADraft(env: Env, db: Db, attempt: nat, draft: DraftId, tx: Transaction)
    requires StoreOk(env, db) && Backed(db, attempt, draft, tx)
    ensures draft in db.drafts && Submitted(db.attempts, draft)
  {
    hide Holds.HoldsCover, ObservedAreRetired, AttemptCount, Latest, Balanced, ComputeTxid;
    var k :| 0 <= k < |db.attempts| && db.attempts[k].id == attempt && db.attempts[k].draft == draft;
    assert AttemptRowOk(env, db, db.attempts[k]);
    HasRowIsSubmitted(db.attempts, attempt, draft);
  }

  lemma CommitKeepsBacked(env: Env, db: Db, op: Op, attempt: nat, draft: DraftId, tx: Transaction)
    requires StoreOk(env, db) && Backed(db, attempt, draft, tx)
    ensures Backed(Apply(env, db, op), attempt, draft, tx)
  {
    hide StoreOk, Apply;
    BackedIsADraft(env, db, attempt, draft, tx);
    CommitIsStable(env, db, op, draft);
    CommitGrows(env, db, op);
    RowSurvives(db.attempts, Apply(env, db, op).attempts, attempt, draft);
  }

  lemma RowSurvives(before: seq<Attempt>, after: seq<Attempt>, attempt: nat, draft: DraftId)
    requires Grown(before, after) && HasRow(before, attempt, draft)
    ensures HasRow(after, attempt, draft)
  {
    var k :| 0 <= k < |before| && before[k].id == attempt && before[k].draft == draft;
    assert after[k].id == attempt && after[k].draft == draft;
  }

  lemma CommitKeepsPosts(env: Env, db: Db, op: Op, posts: seq<Post>)
    requires StoreOk(env, db) && PostsOk(db, posts)
    ensures PostsOk(Apply(env, db, op), posts)
  {
    hide StoreOk, Apply, Backed;
    forall i | 0 <= i < |posts| ensures Backed(Apply(env, db, op), posts[i].attempt, posts[i].draft, posts[i].tx) {
      CommitKeepsBacked(env, db, op, posts[i].attempt, posts[i].draft, posts[i].tx);
    }
  }

  lemma CommitKeepsCallers(env: Env, db: Db, op: Op, posts: seq<Post>, callers: map<nat, Phase>)
    requires StoreOk(env, db) && CallersOk(db, posts, callers)
    ensures CallersOk(Apply(env, db, op), posts, callers)
  {
    hide StoreOk, Apply, Backed;
    forall c | c in callers ensures CallerOk(Apply(env, db, op), posts, callers[c]) {
      assert CallerOk(db, posts, callers[c]);
      match callers[c]
      case Checked(_, _) =>
      case Inserted(request, approved, attempt) => CommitKeepsBacked(env, db, op, attempt, request.draft, approved.tx);
      case Posted(request, approved, attempt) => CommitKeepsBacked(env, db, op, attempt, request.draft, approved.tx);
    }
  }

  lemma {:induction false} LatestOfGrown(before: seq<Attempt>, after: seq<Attempt>, id: DraftId)
    requires Grown(before, after) && |before| == |after|
    ensures LatestId(before, id) == LatestId(after, id)
  {
    if before != [] {
      LatestOfGrown(before[..|before| - 1], after[..|after| - 1], id);
    }
  }

  lemma SameRowsKeepLog(before: seq<Attempt>, after: seq<Attempt>, log: seq<Insertion>)
    requires LogOk(before, log) && Grown(before, after) && |before| == |after|
    ensures LogOk(after, log)
  {
    hide LatestId;
    forall i | 0 <= i < |log| ensures NamedLatest(after, |after| - |log| + i, log[i]) {
      var k := |before| - |log| + i;
      assert NamedLatest(before, k, log[i]);
      LatestOfGrown(before[..k], after[..k], log[i].draft);
    }
  }

  lemma InsertKeepsLog(attempts: seq<Attempt>, log: seq<Insertion>, row: Attempt, inserted: Insertion)
    requires LogOk(attempts, log)
    requires row.id == inserted.attempt && row.draft == inserted.draft
    requires LatestId(attempts, inserted.draft) == inserted.expected
    ensures LogOk(attempts + [row], log + [inserted])
  {
    hide LatestId;
    var after, longer := attempts + [row], log + [inserted];
    forall i | 0 <= i < |longer| ensures NamedLatest(after, |after| - |longer| + i, longer[i]) {
      var k := |after| - |longer| + i;
      if i < |log| {
        assert NamedLatest(attempts, k, log[i]);
        assert after[..k] == attempts[..k];
      } else {
        assert after[..k] == attempts;
      }
    }
  }

  // ---- Steps keep the invariant ----

  lemma RecordAsCommit(env: Env, db: Db, request: BroadcastRequest, approved: FinalReview)
    requires InsertAttempt(env, db, request, approved).Ok?
    ensures InsertAttempt(env, db, request, approved).value.0 == Apply(env, db, Op.Insert(request, approved))
  {
    hide InsertAttempt;
  }

  /** The new attempt's id is in no row, so neither in a post nor with another caller. */
  lemma NewIdIsUnused(env: Env, db: Db, attempt: nat, draft: DraftId)
    requires StoreOk(env, db) && HasRow(db.attempts, attempt, draft)
    ensures attempt < db.nextAttempt
  {
    hide Holds.HoldsCover, ObservedAreRetired, AttemptCount, Latest, Balanced, ComputeTxid;
    var k :| 0 <= k < |db.attempts| && db.attempts[k].id == attempt && db.attempts[k].draft == draft;
    assert AttemptRowOk(env, db, db.attempts[k]);
  }

  lemma InsertIsBacked(env: Env, db: Db, request: BroadcastRequest, approved: FinalReview)
    requires InsertAttempt(env, db, request, approved).Ok?
    ensures var (after, attempt) := InsertAttempt(env, db, request, approved).value;
      && Backed(after, attempt, request.draft, approved.tx) && attempt == db.nextAttempt
      && LatestId(db.attempts, request.draft) == request.previous
      && exists row :: after.attempts == db.attempts + [row] && row.id == attempt && row.draft == request.draft
  {
    InsertShape(env, db, request, approved);
    ValidatedForInsert(env, db, request.draft);
    hide InsertAttempt, ValidatedFinalized, LatestId, AttemptCount, Balanced, ComputeTxid;
    var (after, attempt) := InsertAttempt(env, db, request, approved).value;
    assert after.attempts[|db.attempts|].id == attempt && after.attempts[|db.attempts|].draft == request.draft;
  }

  lemma RecordKeepsCallers(env: Env, s: System, caller: nat)
    requires Sound(env, s) && caller in s.callers && s.callers[caller].Checked?
    requires InsertAttempt(env, s.db, s.callers[caller].request, s.callers[caller].approved).Ok?
    ensures var after := RecordAttempt(env, s, caller); CallersOk(after.db, after.posts, after.callers)
  {
    hide StoreOk, InsertAttempt, LogOk, Backed, Apply;
    var Checked(request, approved) := s.callers[caller];
    var after := RecordAttempt(env, s, caller);
    RecordAsCommit(env, s.db, request, approved);
    InsertIsBacked(env, s.db, request, approved);
    CommitKeepsCallers(env, s.db, Op.Insert(request, approved), s.posts, s.callers);
    forall i | 0 <= i < |s.posts| ensures s.posts[i].attempt < s.db.nextAttempt {
      UsedId(env, s.db, s.posts[i].attempt, s.posts[i].draft, s.posts[i].tx);
    }
    forall c | c in s.callers && !s.callers[c].Checked? ensures s.callers[c].attempt < s.db.nextAttempt {
      assert CallerOk(s.db, s.posts, s.callers[c]);
      UsedId(env, s.db, s.callers[c].attempt, s.callers[c].request.draft, s.callers[c].approved.tx);
    }
    forall c | c in after.callers ensures CallerOk(after.db, after.posts, after.callers[c]) {
      assert c != caller ==> CallerOk(after.db, s.posts, s.callers[c]);
    }
  }

  lemma UsedId(env: Env, db: Db, attempt: nat, draft: DraftId, tx: Transaction)
    requires StoreOk(env, db) && Backed(db, attempt, draft, tx)
    ensures attempt < db.nextAttempt
  {
    hide StoreOk;
    NewIdIsUnused(env, db, attempt, draft);
  }

  lemma RecordKeepsSound(env: Env, s: System, caller: nat)
    requires Sound(env, s)
    ensures Sound(env, RecordAttempt(env, s, caller))
  {
    hide StoreOk, InsertAttempt, LogOk, CallerOk, PostsOk, Apply, Backed;
    if caller in s.callers && s.callers[caller].Checked? {
      var Checked(request, approved) := s.callers[caller];
      if InsertAttempt(env, s.db, request, approved).Ok? {
        var after := RecordAttempt(env, s, caller);
        RecordAsCommit(env, s.db, request, approved);
        var op := Op.Insert(request, approved);
        CommitKeepsStore(env, s.db, op);
        CommitKeepsPosts(env, s.db, op, s.posts);
        RecordKeepsCallers(env, s, caller);
        InsertIsBacked(env, s.db, request, approved);
        var row :| after.db.attempts == s.db.attempts + [row] && row.id == s.db.nextAttempt && row.draft == request.draft;
        InsertKeepsLog(s.db.attempts, s.log, row, after.log[|s.log|]);
      }
    }
  }

  lemma TransmitKeepsSound(env: Env, s: System, caller: nat)
    requires Sound(env, s)
    ensures Sound(env, TransmitBytes(s, caller))
  {
    hide StoreOk, LogOk, Backed;
    if caller in s.callers && s.callers[caller].Inserted? {
      var after := TransmitBytes(s, caller);
      assert CallerOk(s.db, s.posts, s.callers[caller]);
      forall c | c in after.callers ensures CallerOk(after.db, after.posts, after.callers[c]) {
        assert CallerOk(s.db, s.posts, s.callers[c]);
      }
    }
  }

  lemma ReceiveKeepsSound(env: Env, s: System, caller: nat, exact: bool)
    requires Sound(env, s)
    ensures Sound(env, ReceiveReply(s, caller, exact))
  {
    hide StoreOk, LogOk, CallerOk, PostsOk, Apply, Acknowledge;
    if caller in s.callers && s.callers[caller].Posted? {
      var op := Op.Reply(s.callers[caller].attempt, s.callers[caller].request.draft);
      ReplyApplies(env, s.db, op);
      CommitKeeps(env, s, op);
    }
  }

  /** Any commit but an insert, seen by everyone else. */
  lemma CommitKeeps(env: Env, s: System, op: Op)
    requires Sound(env, s) && !op.Insert?
    ensures Sound(env, s.(db := Apply(env, s.db, op)))
  {
    hide StoreOk, LogOk, CallersOk, PostsOk, Apply;
    CommitKeepsStore(env, s.db, op);
    CommitKeepsPosts(env, s.db, op, s.posts);
    CommitKeepsCallers(env, s.db, op, s.posts, s.callers);
    CommitGrows(env, s.db, op);
    SameRowsKeepLog(s.db.attempts, Apply(env, s.db, op).attempts, s.log);
  }

  lemma RestoreKeepsSound(env: Env, s: System, n: nat, order: seq<DraftId>)
    requires Sound(env, s)
    ensures Sound(env, RestoreFrom(env, s, n, order))
  {
    hide StoreOk, Suspend, Enumerates;
    if n < |s.backups| && Enumerates(order, s.backups[n].drafts) && Suspend(env, s.backups[n], order).Ok? {
      RestoreKeepsStore(env, s.backups[n], order);
    }
  }

  /** Every step, from any caller and in any interleaving, keeps the invariant. */
  lemma NextKeepsSound(env: Env, s: System, step: Step)
    requires Sound(env, s)
    ensures Sound(env, Next(env, s, step))
  {
    hide StoreOk, LogOk, CallerOk, PostsOk, Apply, BeginBroadcast, RecordAttempt, TransmitBytes, ReceiveReply, RestoreFrom;
    match step
    case Begin(caller, request) => BeginKeepsSound(env, s, caller, request);
    case Record(caller) => RecordKeepsSound(env, s, caller);
    case Transmit(caller) => TransmitKeepsSound(env, s, caller);
    case Receive(caller, exact) => ReceiveKeepsSound(env, s, caller, exact);
    case Die(_) =>
    case Change(op) => if !op.Insert? && !op.Reply? { CommitKeeps(env, s, op); }
    case Backup =>
    case Restore(n, order) => RestoreKeepsSound(env, s, n, order);
  }

  lemma BeginKeepsSound(env: Env, s: System, caller: nat, request: BroadcastRequest)
    requires Sound(env, s)
    ensures Sound(env, BeginCaller(env, s, caller, request))
  {
    hide StoreOk, LogOk, PostsOk, BeginBroadcast, Backed;
  }

  lemma {:induction false} RunIsSound(env: Env, s: System, steps: seq<Step>)
    requires Sound(env, s)
    ensures Sound(env, RunSteps(env, s, steps))
    decreases |steps|
  {
    hide Sound, Next;
    if steps != [] {
      NextKeepsSound(env, s, steps[0]);
      RunIsSound(env, Next(env, s, steps[0]), steps[1..]);
    }
  }

  // ---- What holds in every reachable state ----

  /** Every POST has its own attempt row, and carries exactly its draft's one final transaction. */
  lemma EveryPostIsRecorded(env: Env, steps: seq<Step>)
    ensures var s := RunSteps(env, FRESH, steps);
      && (forall i :: 0 <= i < |s.posts| ==>
            && HasRow(s.db.attempts, s.posts[i].attempt, s.posts[i].draft)
            && s.posts[i].draft in s.db.drafts && s.posts[i].draft in s.db.finalized
            && s.posts[i].tx == s.db.finalized[s.posts[i].draft])
      && (forall i, j :: 0 <= i < j < |s.posts| ==> s.posts[i].attempt != s.posts[j].attempt)
      && (forall i, j :: 0 <= i < j < |s.posts| && s.posts[i].draft == s.posts[j].draft ==> s.posts[i].tx == s.posts[j].tx)
  {
    hide StoreOk, RunSteps, HasRow, Sound;
    var s := RunSteps(env, FRESH, steps);
    ReachableIsSound(env, steps);
    SoundParts(env, s);
    forall i | 0 <= i < |s.posts| ensures s.posts[i].draft in s.db.drafts {
      BackedIsADraft(env, s.db, s.posts[i].attempt, s.posts[i].draft, s.posts[i].tx);
    }
  }

  /** Nothing that was ever sent can be discarded, and each submission pays what was reviewed. */
  lemma PostedIsKept(env: Env, steps: seq<Step>, i: nat)
    requires i < |RunSteps(env, FRESH, steps).posts|
    ensures var s := RunSteps(env, FRESH, steps);
      && s.posts[i].draft in s.db.drafts
      && DiscardDraft(s.db, s.posts[i].draft).Err?
      && Balanced(s.db.drafts[s.posts[i].draft].review)
      && s.db.drafts[s.posts[i].draft].review.fee <= MAX_FEE
  {
    hide RunSteps, StoreOk, Balanced, DiscardDraft, Backed, Sound;
    var s := RunSteps(env, FRESH, steps);
    ReachableIsSound(env, steps);
    SoundParts(env, s);
    assert Backed(s.db, s.posts[i].attempt, s.posts[i].draft, s.posts[i].tx);
    BackedIsKept(env, s.db, s.posts[i].attempt, s.posts[i].draft, s.posts[i].tx);
  }

  lemma BackedIsKept(env: Env, db: Db, attempt: nat, draft: DraftId, tx: Transaction)
    requires StoreOk(env, db) && Backed(db, attempt, draft, tx)
    ensures draft in db.drafts && DiscardDraft(db, draft).Err?
    ensures Balanced(db.drafts[draft].review) && db.drafts[draft].review.fee <= MAX_FEE
  {
    BackedIsADraft(env, db, attempt, draft, tx);
    hide Submitted, Balanced, ObservedAreRetired, Holds.HoldsCover, AttemptCount, ComputeTxid;
    var k :| 0 <= k < |db.attempts| && db.attempts[k].id == attempt && db.attempts[k].draft == draft;
    assert AttemptRowOk(env, db, db.attempts[k]);
  }

  lemma LatestIsNewest(attempts: seq<Attempt>, id: DraftId, k: nat)
    requires k < |attempts| && attempts[k].draft == id
    requires forall i, j :: 0 <= i < j < |attempts| ==> attempts[i].id < attempts[j].id
    ensures LatestId(attempts, id).Some? && attempts[k].id <= LatestId(attempts, id).value
  {
    var found := Latest(attempts, id).value;
    if attempts[|attempts| - 1].draft != id {
      LatestIsNewest(attempts[..|attempts| - 1], id, k);
    }
  }

  /**
   * The attempts of a draft form a chain: each later insert named an attempt at least as
   * new as every earlier one. So callers that named the same previous attempt, or none,
   * insert at most once between them.
   */
  lemma RacersInsertOnce(env: Env, steps: seq<Step>, i: int, j: int)
    requires 0 <= i < j < |RunSteps(env, FRESH, steps).log|
    ensures var s := RunSteps(env, FRESH, steps);
      && AttemptCount(s.db.attempts, s.log[i].draft) <= MAX_ATTEMPTS
      && (s.log[i].draft == s.log[j].draft ==>
            && s.log[j].expected.Some? && s.log[i].attempt <= s.log[j].expected.value < s.log[j].attempt
            && s.log[i].expected != s.log[j].expected)
  {
    hide RunSteps, StoreOk, LogOk, LatestId, AttemptCount, Sound;
    var s := RunSteps(env, FRESH, steps);
    ReachableIsSound(env, steps);
    SoundParts(env, s);
    IdsGrow(env, s.db);
    if s.log[i].draft == s.log[j].draft {
      InsertionsChain(s.db.attempts, s.log, i, j);
    }
  }

  lemma ReachableIsSound(env: Env, steps: seq<Step>)
    ensures Sound(env, RunSteps(env, FRESH, steps))
  {
    hide StoreOk, RunSteps;
    EmptyIsOk(env);
    RunIsSound(env, FRESH, steps);
  }

  lemma SoundParts(env: Env, s: System)
    requires Sound(env, s)
    ensures StoreOk(env, s.db) && PostsOk(s.db, s.posts) && LogOk(s.db.attempts, s.log)
  {
    hide StoreOk, PostsOk, LogOk, CallersOk;
  }

  lemma RowsReassemble(env: Env, db: Db, id: DraftId)
    requires Rows.DraftRowsOk(env, db) && id in db.finalized
    ensures id in db.drafts && Rows.FinalFor(env, db.drafts[id].psbt, StoredSignatures(db, id)) == Ok(db.finalized[id])
  {
    hide Rows.FinalFor, Rows.StoredRowOk;
    assert Rows.RowOk(env, db.drafts[id], StoredSignatures(db, id), Rows.FinalRow(db, id));
  }

  /**
   * Over every interleaving, crash and restore: signable drafts own exactly the reservations,
   * suspended inputs are held, and stored final bytes are what the approval and signatures assemble to.
   */
  lemma EveryReachableStore(env: Env, steps: seq<Step>)
    ensures var db := RunSteps(env, FRESH, steps).db;
      && Ownership.Owned(db.drafts, db.reservations) && Holds.HoldsCover(db)
      && forall id :: id in db.finalized ==>
           id in db.drafts && Rows.FinalFor(env, db.drafts[id].psbt, StoredSignatures(db, id)) == Ok(db.finalized[id])
  {
    hide RunSteps, Sound, Ownership.Owned, Holds.HoldsCover, Rows.DraftRowsOk, Rows.FinalFor, AttemptsOk, ObservedAreRetired;
    ReachableIsSound(env, steps);
    var s := RunSteps(env, FRESH, steps);
    SoundParts(env, s);
    forall id | id in s.db.finalized
      ensures id in s.db.drafts && Rows.FinalFor(env, s.db.drafts[id].psbt, StoredSignatures(s.db, id)) == Ok(s.db.finalized[id])
    {
      RowsReassemble(env, s.db, id);
    }
  }

  lemma InsertionsChain(attempts: seq<Attempt>, log: seq<Insertion>, i: int, j: int)
    requires forall a, b :: 0 <= a < b < |attempts| ==> attempts[a].id < attempts[b].id
    requires LogOk(attempts, log) && 0 <= i < j < |log| && log[i].draft == log[j].draft
    ensures log[j].expected.Some? && log[i].attempt <= log[j].expected.value < log[j].attempt
    ensures log[i].expected != log[j].expected
  {
    hide LatestId;
    var offset := |attempts| - |log|;
    assert NamedLatest(attempts, offset + i, log[i]) && NamedLatest(attempts, offset + j, log[j]);
    LatestIsNewest(attempts[..offset + j], log[j].draft, offset + i);
    LatestIsOlder(attempts, offset + i, log[i].draft);
    LatestIsOlder(attempts, offset + j, log[j].draft);
  }

  lemma IdsGrow(env: Env, db: Db)
    requires StoreOk(env, db)
    ensures forall i, j :: 0 <= i < j < |db.attempts| ==> db.attempts[i].id < db.attempts[j].id
    ensures forall id :: AttemptCount(db.attempts, id) <= MAX_ATTEMPTS
  {
    hide AttemptCount, ObservedAreRetired, AttemptRowOk, Holds.HoldsCover;
  }

  lemma LatestIsOlder(attempts: seq<Attempt>, k: nat, id: DraftId)
    requires k < |attempts| && forall i, j :: 0 <= i < j < |attempts| ==> attempts[i].id < attempts[j].id
    ensures LatestId(attempts[..k], id).Some? ==> LatestId(attempts[..k], id).value < attempts[k].id
  {
    if Latest(attempts[..k], id).Some? {
      var found := Latest(attempts[..k], id).value;
      var n :| 0 <= n < k && attempts[..k][n] == found;
    }
  }

  ghost predicate Acknowledged(attempts: seq<Attempt>, attempt: nat, draft: DraftId) {
    exists k :: 0 <= k < |attempts| && attempts[k].id == attempt && attempts[k].draft == draft && attempts[k].acknowledged
  }

  /** A reply, however late, changes the acknowledgement of its own attempt and nothing else. */
  lemma LateReplyTouchesOneRow(env: Env, s: System, caller: nat, exact: bool)
    requires Sound(env, s) && caller in s.callers && s.callers[caller].Posted?
    ensures var after := ReceiveReply(s, caller, exact);
      && after.db == s.db.(attempts := after.db.attempts) && |after.db.attempts| == |s.db.attempts|
      && (forall k :: 0 <= k < |s.db.attempts| && s.db.attempts[k].id != s.callers[caller].attempt ==>
            after.db.attempts[k] == s.db.attempts[k])
      && (exact ==> Acknowledged(after.db.attempts, s.callers[caller].attempt, s.callers[caller].request.draft))
      && (!exact ==> after.db == s.db) && after.posts == s.posts && after.callers == s.callers - {caller}
      && (forall id :: LatestId(after.db.attempts, id) == LatestId(s.db.attempts, id))
      && (LatestId(s.db.attempts, s.callers[caller].request.draft) != Some(s.callers[caller].attempt) ==>
            Latest(after.db.attempts, s.callers[caller].request.draft) == Latest(s.db.attempts, s.callers[caller].request.draft))
  {
    hide StoreOk, LogOk, PostsOk;
    var after := ReceiveReply(s, caller, exact);
    var Posted(request, approved, attempt) := s.callers[caller];
    assert CallerOk(s.db, s.posts, s.callers[caller]);
    forall id ensures LatestId(after.db.attempts, id) == LatestId(s.db.attempts, id) {
      LatestOfGrown(s.db.attempts, after.db.attempts, id);
    }
    if LatestId(s.db.attempts, request.draft) != Some(attempt) {
      LatestUntouched(s.db.attempts, after.db.attempts, request.draft, attempt);
    }
  }

  lemma {:induction false} LatestUntouched(before: seq<Attempt>, after: seq<Attempt>, id: DraftId, attempt: nat)
    requires |before| == |after| && Grown(before, after)
    requires forall k :: 0 <= k < |before| && before[k].id != attempt ==> after[k] == before[k]
    requires LatestId(before, id) != Some(attempt)
    ensures Latest(after, id) == Latest(before, id)
  {
    if before != [] && before[|before| - 1].draft != id {
      LatestUntouched(before[..|before| - 1], after[..|after| - 1], id, attempt);
    }
  }

  /** Within one store no step ever loses a row or changes anything in it but its acknowledgement. */
  lemma RowsAreNeverLost(env: Env, s: System, step: Step)
    requires !step.Restore?
    ensures Grown(s.db.attempts, Next(env, s, step).db.attempts)
  {
    hide Apply, BeginBroadcast, InsertAttempt;
    match step
    case Record(caller) =>
      if caller in s.callers && s.callers[caller].Checked?
         && InsertAttempt(env, s.db, s.callers[caller].request, s.callers[caller].approved).Ok? {
        InsertIsBacked(env, s.db, s.callers[caller].request, s.callers[caller].approved);
      }
    case Change(op) => CommitGrows(env, s.db, op);
    case _ =>
  }
}
