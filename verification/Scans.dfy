/**
 * Chain scans as operations: prepared, run and cancelled by callers while no database lock
 * is held, and committed only over the wallet that they were prepared from.
 */
module Scans {
  import opened Wrappers

  type WalletId = nat

  datatype Phase = Prepared | Scanning | Applying | Complete | Cancelled | Failed

  /** What a scan was prepared from: the wallet's sync revision and its serialized state. */
  datatype Snapshot = Snapshot(wallet: WalletId, revision: nat, state: nat)

  /** `pending` waits for the run; `taken` is with the scanning thread. */
  datatype Operation = Operation(wallet: WalletId, phase: Phase, pending: Option<Snapshot>, taken: Option<Snapshot>)

  datatype Stored = Stored(revision: nat, state: nat)

  /** One committed scan: whose it was, and what it replaced. */
  datatype Commit = Commit(operation: nat, before: Snapshot)

  datatype System = System(entries: map<nat, Operation>, last: nat, wallets: map<WalletId, Stored>, log: seq<Commit>)

  datatype Step =
    | Prepare(wallet: WalletId)
    | Run(id: nat)
    | Cancel(id: nat)
    | Apply(id: nat, result: Option<nat>)
    | Fail(id: nat)
    | Change(wallet: WalletId, state: nat)
    | Overtake(wallet: WalletId, state: nat)

  const LIMIT: nat := 32

  predicate Terminal(phase: Phase) {
    phase == Complete || phase == Cancelled || phase == Failed
  }

  predicate Busy(entries: map<nat, Operation>, wallet: WalletId) {
    exists id | id in entries :: entries[id].wallet == wallet && !Terminal(entries[id].phase)
  }

  /** Finished entries give up their place only when there is none left. */
  function Retained(entries: map<nat, Operation>): map<nat, Operation> {
    if |entries| >= LIMIT then map id | id in entries && !Terminal(entries[id].phase) :: entries[id] else entries
  }

  function PrepareScan(s: System, wallet: WalletId): System {
    if wallet !in s.wallets || Busy(s.entries, wallet) then s
    else
      var kept := Retained(s.entries);
      if |kept| >= LIMIT then s.(entries := kept)
      else
        var stored := s.wallets[wallet];
        var operation := Operation(wallet, Prepared, Some(Snapshot(wallet, stored.revision, stored.state)), None);
        s.(entries := kept[s.last + 1 := operation], last := s.last + 1)
  }

  /** The snapshot is taken once; a second run finds none. */
  function RunScan(s: System, id: nat): System {
    if id !in s.entries || s.entries[id].phase == Cancelled || s.entries[id].pending.None? then s
    else
      var operation := s.entries[id];
      s.(entries := s.entries[id := operation.(phase := Scanning, pending := None, taken := operation.pending)])
  }

  function CancelScan(s: System, id: nat): System {
    if id !in s.entries || Terminal(s.entries[id].phase) then s
    else s.(entries := s.entries[id := s.entries[id].(phase := Cancelled, pending := None)])
  }

  predicate IsCurrent(s: System, snapshot: Snapshot) {
    snapshot.wallet in s.wallets && s.wallets[snapshot.wallet] == Stored(snapshot.revision, snapshot.state)
  }

  /**
   * The end of a scan, under the operation lock and one transaction: a cancelled one stops,
   * a wallet that moved on is left alone, a refused update rolls back.
   */
  function ApplyScan(s: System, id: nat, result: Option<nat>): System {
    if id !in s.entries || s.entries[id].taken.None? || s.entries[id].phase == Cancelled then s
    else
      var operation, snapshot := s.entries[id], s.entries[id].taken.value;
      if result.None? || !IsCurrent(s, snapshot) then
        s.(entries := s.entries[id := operation.(phase := Applying, taken := None)])
      else
        s.(entries := s.entries[id := operation.(phase := Complete, taken := None)],
           wallets := s.wallets[snapshot.wallet := Stored(snapshot.revision + 1, result.value)],
           log := s.log + [Commit(id, snapshot)])
  }

  /** The thread reports its error, unless the operation has ended otherwise. */
  function FailScan(s: System, id: nat): System {
    if id !in s.entries || Terminal(s.entries[id].phase) || s.entries[id].phase == Prepared then s
    else s.(entries := s.entries[id := s.entries[id].(phase := Failed, taken := None)])
  }

  function Next(s: System, step: Step): System {
    match step
    case Prepare(wallet) => PrepareScan(s, wallet)
    case Run(id) => RunScan(s, id)
    case Cancel(id) => CancelScan(s, id)
    case Apply(id, result) => ApplyScan(s, id, result)
    case Fail(id) => FailScan(s, id)
    case Change(wallet, state) =>
      if wallet in s.wallets then s.(wallets := s.wallets[wallet := s.wallets[wallet].(state := state)]) else s
    case Overtake(wallet, state) =>
      if wallet in s.wallets then s.(wallets := s.wallets[wallet := Stored(s.wallets[wallet].revision + 1, state)]) else s
  }

  function RunSteps(s: System, steps: seq<Step>): System
    decreases |steps|
  {
    if steps == [] then s else RunSteps(Next(s, steps[0]), steps[1..])
  }

  // ---- The invariant ----

  ghost predicate IsCommitted(log: seq<Commit>, id: nat) {
    exists i :: 0 <= i < |log| && log[i].operation == id
  }

  /** Who holds the snapshot, and that only a committed operation is complete. */
  ghost predicate OperationOk(s: System, id: nat, o: Operation) {
    && id <= s.last
    && (o.pending.Some? <==> o.phase == Prepared) && (o.pending.Some? ==> o.taken.None? && o.pending.value.wallet == o.wallet)
    && (o.taken.Some? ==> (o.phase == Scanning || o.phase == Cancelled) && o.taken.value.wallet == o.wallet)
    && (o.phase == Scanning ==> o.taken.Some?)
    && (IsCommitted(s.log, id) <==> o.phase == Complete)
  }

  /** A wallet's commits replace ever newer revisions, each older than the one stored now. */
  ghost predicate LogOk(s: System) {
    && (forall i :: 0 <= i < |s.log| ==>
          && s.log[i].operation <= s.last && s.log[i].before.wallet in s.wallets
          && s.log[i].before.revision < s.wallets[s.log[i].before.wallet].revision)
    && (forall i, j :: 0 <= i < j < |s.log| ==>
          && s.log[i].operation != s.log[j].operation
          && (s.log[i].before.wallet == s.log[j].before.wallet ==> s.log[i].before.revision < s.log[j].before.revision))
  }

  ghost predicate Sound(s: System) {
    && (forall id :: id in s.entries ==> OperationOk(s, id, s.entries[id]))
    && |s.entries| <= LIMIT
    && (forall a, b :: a in s.entries && b in s.entries && a != b && s.entries[a].wallet == s.entries[b].wallet ==>
          Terminal(s.entries[a].phase) || Terminal(s.entries[b].phase))
    && LogOk(s)
  }

  lemma {:induction false} FewerKeys(a: set<nat>, b: set<nat>)
    requires a <= b
    ensures |a| <= |b|
  {
    if a != {} {
      var x :| x in a;
      FewerKeys(a - {x}, b - {x});
    }
  }

  lemma RetainedIsSmaller(entries: map<nat, Operation>)
    ensures |Retained(entries)| <= |entries|
  {
    FewerKeys(Retained(entries).Keys, entries.Keys);
    assert |Retained(entries).Keys| == |Retained(entries)| && |entries.Keys| == |entries|;
  }

  /** Some finished operations are forgotten. */
  lemma ForgettingIsSound(s: System)
    requires Sound(s)
    ensures Sound(s.(entries := Retained(s.entries)))
  {
    RetainedIsSmaller(s.entries);
    var after := s.(entries := Retained(s.entries));
    LogIsKept(s, after);
    hide LogOk, IsCommitted;
    forall id | id in after.entries ensures OperationOk(after, id, after.entries[id]) {
      assert OperationOk(s, id, s.entries[id]);
    }
  }

  lemma NumbersAreUsed(s: System)
    requires Sound(s)
    ensures forall id :: id in s.entries ==> id <= s.last
  {
    hide IsCommitted, LogOk;
    forall id | id in s.entries ensures id <= s.last {
      assert OperationOk(s, id, s.entries[id]);
    }
  }

  lemma AddedIsOk(s: System, wallet: WalletId, operation: Operation)
    requires Sound(s) && operation.wallet == wallet
    requires operation.phase == Prepared && operation.pending.Some? && operation.pending.value.wallet == wallet && operation.taken.None?
    ensures var after := s.(entries := s.entries[s.last + 1 := operation], last := s.last + 1);
      forall id :: id in after.entries ==> OperationOk(after, id, after.entries[id])
  {
    NewIsUncommitted(s);
    hide LogOk, IsCommitted;
    var after := s.(entries := s.entries[s.last + 1 := operation], last := s.last + 1);
    forall other | other in after.entries ensures OperationOk(after, other, after.entries[other]) {
      assert other != s.last + 1 ==> OperationOk(s, other, s.entries[other]);
    }
  }

  lemma AddedIsOne(entries: map<nat, Operation>, id: nat, operation: Operation)
    requires id !in entries
    ensures |entries[id := operation]| == |entries| + 1
  {
    var after := entries[id := operation];
    assert after.Keys == entries.Keys + {id};
    assert |after| == |after.Keys| && |entries| == |entries.Keys|;
  }

  /** A new operation for a wallet that has none under way. */
  lemma AddingIsSound(s: System, wallet: WalletId, operation: Operation)
    requires Sound(s) && !Busy(s.entries, wallet) && |s.entries| < LIMIT && operation.wallet == wallet
    requires operation.phase == Prepared && operation.pending.Some? && operation.pending.value.wallet == wallet && operation.taken.None?
    ensures Sound(s.(entries := s.entries[s.last + 1 := operation], last := s.last + 1))
  {
    AddedIsOk(s, wallet, operation);
    NumbersAreUsed(s);
    AddedIsOne(s.entries, s.last + 1, operation);
    LogIsKept(s, s.(entries := s.entries[s.last + 1 := operation], last := s.last + 1));
    hide LogOk, OperationOk, IsCommitted;
  }

  lemma ForgettingIsIdle(s: System, wallet: WalletId)
    requires !Busy(s.entries, wallet)
    ensures !Busy(Retained(s.entries), wallet)
  {
  }

  lemma PrepareForm(s: System, wallet: WalletId)
    requires wallet in s.wallets && !Busy(s.entries, wallet)
    ensures var kept, stored := s.(entries := Retained(s.entries)), s.wallets[wallet];
      PrepareScan(s, wallet) ==
        if |kept.entries| >= LIMIT then kept
        else kept.(
          entries := kept.entries[s.last + 1 := Operation(wallet, Prepared, Some(Snapshot(wallet, stored.revision, stored.state)), None)],
          last := s.last + 1)
  {
    hide Retained, Busy;
  }

  lemma BusyIsKept(s: System, wallet: WalletId)
    requires wallet !in s.wallets || Busy(s.entries, wallet)
    ensures PrepareScan(s, wallet) == s
  {
  }

  lemma PrepareIsSound(s: System, wallet: WalletId)
    requires Sound(s)
    ensures Sound(PrepareScan(s, wallet))
  {
    hide *;
    if wallet in s.wallets && !Busy(s.entries, wallet) {
      ForgettingIsSound(s);
      ForgettingIsIdle(s, wallet);
      PrepareForm(s, wallet);
      var kept, stored := s.(entries := Retained(s.entries)), s.wallets[wallet];
      if |kept.entries| < LIMIT {
        AddingIsSound(kept, wallet, Operation(wallet, Prepared, Some(Snapshot(wallet, stored.revision, stored.state)), None));
      }
    } else {
      BusyIsKept(s, wallet);
    }
  }

  lemma LogIsKept(s: System, after: System)
    requires LogOk(s) && after.log == s.log && after.wallets == s.wallets && s.last <= after.last
    ensures LogOk(after)
  {
  }

  lemma NewIsUncommitted(s: System)
    requires LogOk(s)
    ensures !IsCommitted(s.log, s.last + 1)
  {
  }

  /** One operation moves on without a commit. */
  lemma MoveIsSound(s: System, id: nat, next: Operation)
    requires Sound(s) && id in s.entries && next.wallet == s.entries[id].wallet
    requires OperationOk(s, id, next) && (Terminal(s.entries[id].phase) ==> Terminal(next.phase))
    ensures Sound(s.(entries := s.entries[id := next]))
  {
    var after := s.(entries := s.entries[id := next]);
    assert after.entries.Keys == s.entries.Keys;
    assert |after.entries| == |after.entries.Keys| && |s.entries| == |s.entries.Keys|;
    hide IsCommitted, LogOk;
    LogStays(s, after);
    forall other | other in after.entries ensures OperationOk(after, other, after.entries[other]) {
      assert OperationOk(s, other, s.entries[other]);
    }
  }

  lemma LogStays(s: System, after: System)
    requires LogOk(s) && after.log == s.log && after.wallets == s.wallets && after.last == s.last
    ensures LogOk(after)
  {
  }

  lemma CommitIsSound(s: System, id: nat, state: nat)
    requires Sound(s) && id in s.entries && s.entries[id].taken.Some? && s.entries[id].phase != Cancelled
    requires IsCurrent(s, s.entries[id].taken.value)
    ensures Sound(ApplyScan(s, id, Some(state)))
  {
    var after := ApplyScan(s, id, Some(state));
    var snapshot := s.entries[id].taken.value;
    assert after.entries.Keys == s.entries.Keys;
    assert |after.entries| == |after.entries.Keys| && |s.entries| == |s.entries.Keys|;
    assert OperationOk(s, id, s.entries[id]) && !IsCommitted(s.log, id);
    LogGrows(s, after, id, snapshot);
    hide LogOk;
    forall other | other in after.entries ensures OperationOk(after, other, after.entries[other]) {
      assert OperationOk(s, other, s.entries[other]);
      CommittedGrows(s.log, Commit(id, snapshot), other);
      hide IsCommitted;
    }
  }

  lemma CommittedGrows(log: seq<Commit>, entry: Commit, id: nat)
    ensures IsCommitted(log + [entry], id) <==> IsCommitted(log, id) || entry.operation == id
  {
    if i :| 0 <= i < |log| && log[i].operation == id {
      assert (log + [entry])[i].operation == id;
    }
    assert (log + [entry])[|log|] == entry;
  }

  lemma LogGrows(s: System, after: System, id: nat, snapshot: Snapshot)
    requires LogOk(s) && !IsCommitted(s.log, id) && id <= s.last && IsCurrent(s, snapshot)
    requires after.log == s.log + [Commit(id, snapshot)] && after.last == s.last
    requires after.wallets.Keys == s.wallets.Keys && after.wallets[snapshot.wallet].revision == snapshot.revision + 1
    requires forall w :: w in s.wallets && w != snapshot.wallet ==> after.wallets[w] == s.wallets[w]
    ensures LogOk(after)
  {
    assert forall i :: 0 <= i < |s.log| ==> s.log[i].operation != id;
  }

  lemma NextIsSound(s: System, step: Step)
    requires Sound(s)
    ensures Sound(Next(s, step))
  {
    match step
    case Prepare(wallet) => PrepareIsSound(s, wallet);
    case Run(id) => MovesAreSound(s, step, id);
    case Cancel(id) => MovesAreSound(s, step, id);
    case Apply(id, result) =>
      if id in s.entries && s.entries[id].taken.Some? && s.entries[id].phase != Cancelled
         && result.Some? && IsCurrent(s, s.entries[id].taken.value) {
        CommitIsSound(s, id, result.value);
      } else {
        MovesAreSound(s, step, id);
      }
    case Fail(id) => MovesAreSound(s, step, id);
    case Change(wallet, state) => hide IsCommitted;
    case Overtake(wallet, state) => hide IsCommitted;
  }

  lemma MovesAreSound(s: System, step: Step, id: nat)
    requires Sound(s) && Next(s, step).log == s.log
    requires step == Run(id) || step == Cancel(id) || step == Step.Fail(id) || (step.Apply? && step.id == id)
    ensures Sound(Next(s, step))
  {
    var after := Next(s, step);
    if after != s {
      assert OperationOk(s, id, s.entries[id]);
      hide IsCommitted, LogOk;
      assert after == s.(entries := s.entries[id := after.entries[id]]);
      assert OperationOk(s, id, after.entries[id]);
      hide Sound;
      MoveIsSound(s, id, after.entries[id]);
    }
  }

  lemma {:induction false} RunIsSound(s: System, steps: seq<Step>)
    requires Sound(s)
    ensures Sound(RunSteps(s, steps))
    decreases |steps|
  {
    hide Sound, Next;
    if steps != [] {
      NextIsSound(s, steps[0]);
      RunIsSound(Next(s, steps[0]), steps[1..]);
    }
  }

  // ---- What every run keeps ----

  function Fresh(wallets: map<WalletId, Stored>): System {
    System(map[], 0, wallets, [])
  }

  /** At most one scan of a wallet is under way, and at most 32 operations are remembered. */
  lemma OneScanPerWallet(wallets: map<WalletId, Stored>, steps: seq<Step>, a: nat, b: nat)
    requires var s := RunSteps(Fresh(wallets), steps);
      && a in s.entries && b in s.entries && s.entries[a].wallet == s.entries[b].wallet
      && !Terminal(s.entries[a].phase) && !Terminal(s.entries[b].phase)
    ensures a == b && |RunSteps(Fresh(wallets), steps).entries| <= 32
  {
    RunIsSound(Fresh(wallets), steps);
  }

  /** A step that commits replaces exactly the revision and state that the scan was prepared from. */
  lemma CommitsOverItsSnapshot(s: System, step: Step)
    requires Sound(s) && Next(s, step).log != s.log
    ensures step.Apply? && step.id in s.entries && s.entries[step.id].taken.Some? && !Terminal(s.entries[step.id].phase)
    ensures var snapshot, after := s.entries[step.id].taken.value, Next(s, step);
      && after.log == s.log + [Commit(step.id, snapshot)] && after.entries[step.id].phase == Complete
      && snapshot.wallet in s.wallets && s.wallets[snapshot.wallet] == Stored(snapshot.revision, snapshot.state)
      && after.wallets == s.wallets[snapshot.wallet := Stored(snapshot.revision + 1, step.result.value)]
  {
    hide LogOk, IsCommitted;
    if step.Apply? && step.id in s.entries {
      assert OperationOk(s, step.id, s.entries[step.id]);
    }
  }

  /** Of scans prepared from one revision of a wallet at most one is ever committed, and none twice. */
  lemma RevisionsCommitOnce(wallets: map<WalletId, Stored>, steps: seq<Step>, i: int, j: int)
    requires 0 <= i < j < |RunSteps(Fresh(wallets), steps).log|
    ensures var log := RunSteps(Fresh(wallets), steps).log;
      && log[i].operation != log[j].operation
      && (log[i].before.wallet == log[j].before.wallet ==> log[i].before.revision < log[j].before.revision)
  {
    RunIsSound(Fresh(wallets), steps);
  }

  /** An ended operation stays as it ended while it is remembered, and a forgotten number is not given out again. */
  lemma EndedStays(s: System, step: Step, id: nat)
    requires Sound(s) && id in s.entries && Terminal(s.entries[id].phase)
    ensures id in Next(s, step).entries ==> Next(s, step).entries[id].phase == s.entries[id].phase
    ensures IsCommitted(Next(s, step).log, id) <==> IsCommitted(s.log, id)
    ensures id <= Next(s, step).last
  {
    assert OperationOk(s, id, s.entries[id]);
    hide LogOk;
    if step.Apply? && Next(s, step).log != s.log {
      CommittedGrows(s.log, Next(s, step).log[|s.log|], id);
    }
  }

  ghost predicate Uncommitted(s: System, id: nat) {
    id <= s.last && !IsCommitted(s.log, id) && (id in s.entries ==> s.entries[id].phase == Cancelled)
  }

  lemma UncommittedStays(s: System, step: Step, id: nat)
    requires Sound(s) && Uncommitted(s, id)
    ensures Uncommitted(Next(s, step), id)
  {
    hide LogOk;
    if id in s.entries {
      EndedStays(s, step, id);
    }
    if Next(s, step).log != s.log {
      CommitsOverItsSnapshot(s, step);
      CommittedGrows(s.log, Next(s, step).log[|s.log|], id);
    }
    hide IsCommitted;
  }

  /** Once a caller has been told that a scan is cancelled, no later step commits it. */
  lemma {:induction false} CancelledNeverCommits(s: System, id: nat, steps: seq<Step>)
    requires Sound(s) && id in s.entries && CancelScan(s, id).entries[id].phase == Cancelled
    ensures !IsCommitted(RunSteps(CancelScan(s, id), steps).log, id)
  {
    var told := CancelScan(s, id);
    assert told == Next(s, Cancel(id));
    NextIsSound(s, Cancel(id));
    assert OperationOk(told, id, told.entries[id]);
    StaysUncommitted(told, id, steps);
  }

  lemma {:induction false} StaysUncommitted(s: System, id: nat, steps: seq<Step>)
    requires Sound(s) && Uncommitted(s, id)
    ensures Uncommitted(RunSteps(s, steps), id)
    decreases |steps|
  {
    hide Sound, Next, Uncommitted;
    if steps != [] {
      NextIsSound(s, steps[0]);
      UncommittedStays(s, steps[0], id);
      StaysUncommitted(Next(s, steps[0]), id, steps[1..]);
    }
  }

  /** When cancelling reports completion instead, the commit has already won. */
  lemma CompleteHasCommitted(s: System, id: nat)
    requires Sound(s) && id in s.entries && CancelScan(s, id).entries[id].phase == Complete
    ensures IsCommitted(s.log, id) && CancelScan(s, id) == s
  {
    assert OperationOk(s, id, s.entries[id]);
  }

  /** Left alone, a prepared scan is run, applied and complete, and the wallet moves to the next revision. */
  lemma ScanCompletes(s: System, wallet: WalletId, state: nat)
    requires Sound(s) && wallet in s.wallets && !Busy(s.entries, wallet) && |Retained(s.entries)| < LIMIT
    ensures var id := s.last + 1;
      var after := RunSteps(s, [Prepare(wallet), Run(id), Apply(id, Some(state))]);
      && id in after.entries && after.entries[id].phase == Complete
      && after.wallets == s.wallets[wallet := Stored(s.wallets[wallet].revision + 1, state)]
  {
    var id := s.last + 1;
    var steps := [Prepare(wallet), Run(id), Apply(id, Some(state))];
    var prepared := Next(s, steps[0]);
    var running := Next(prepared, steps[1]);
    var done := Next(running, steps[2]);
    assert prepared.entries[id].phase == Prepared && running.entries[id].phase == Scanning && done.entries[id].phase == Complete;
    assert done.wallets == s.wallets[wallet := Stored(s.wallets[wallet].revision + 1, state)];
    hide Next, Sound;
    StepFirst(s, steps);
    StepFirst(prepared, steps[1..]);
    StepFirst(running, steps[1..][1..]);
    assert RunSteps(done, []) == done;
    assert steps[1..][1..][1..] == [];
  }

  lemma StepFirst(s: System, steps: seq<Step>)
    requires steps != []
    ensures RunSteps(s, steps) == RunSteps(Next(s, steps[0]), steps[1..])
  {
  }
}
