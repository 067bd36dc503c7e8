/**
 * Crash-safe storage: a key record, a database file and a selector, three durable stores
 * without a common transaction, opened, upgraded and restored by several processes that
 * can stop after any step.
 */
module Vault {
  import opened Wrappers

  type Key = nat

  datatype Generation = Default | Restored(n: nat)

  /** `Foreign` is an existing file that is neither a plain database nor one of ours. */
  datatype File = Plain(content: nat) | Protected(key: Key, content: nat) | Foreign

  datatype Record = Record(key: Key, initialized: bool)

  datatype Selector = Unselected | Selected(generation: Generation) | Corrupt

  datatype Format = Missing | LegacyPlaintext | ProtectedOrUnknown

  /** What a finished open is for: just a handle, or the end of a restore with this key. */
  datatype Goal = Handle | Activation(key: Key)

  /** Where one process stands; each constructor is a point at which it can stop for good. */
  datatype Process =
    | Inspecting(g: Generation, existing: bool, goal: Goal)
    | Reading(g: Generation, existing: bool, format: Format, goal: Goal)
    | Inserting(g: Generation, existing: bool, format: Format, key: Key, goal: Goal)
    | Rereading(g: Generation, existing: bool, format: Format, key: Key, added: bool, goal: Goal)
    | Checking(g: Generation, existing: bool, format: Format, record: Record, goal: Goal)
    | Upgrading(g: Generation, record: Record, goal: Goal)
    | Replacing(g: Generation, record: Record, content: nat, goal: Goal)
    | Connecting(g: Generation, record: Record, goal: Goal)
    | Marking(g: Generation, record: Record, goal: Goal)
    | Open(g: Generation)
    | Anchoring
    | MakingStores
    | Allocating
    | Candidate(n: nat)
    | Retaining(n: nat, key: Key)
    | Confirming(n: nat, key: Key)
    | Installing(n: nat, key: Key)
    | Verifying(n: nat, key: Key)
    | Selecting(n: nat, key: Key)

  /** Everything durable, who holds which lock, and the running processes. */
  datatype World = World(
    records: map<Generation, Record>,
    files: map<Generation, File>,
    selector: Selector,
    stores: bool,
    candidates: set<nat>,
    selection: Option<nat>,
    migrating: map<Generation, nat>,
    processes: map<nat, Process>)

  // ---- The parts of a step ----

  function FormatOf(w: World, g: Generation): Format {
    if g !in w.files then Missing
    else match w.files[g] case Plain(_) => LegacyPlaintext case _ => ProtectedOrUnknown
  }

  /** The location an active open would use, and whether it must already exist. */
  function ReadSelection(w: World): Option<(Generation, bool)> {
    match w.selector
    case Unselected => if w.stores then None else Some((Default, false))
    case Corrupt => None
    case Selected(Default) => Some((Default, true))
    case Selected(Restored(n)) => if w.stores && n in w.candidates then Some((Restored(n), true)) else None
  }

  /** A process that fails or dies keeps nothing but what is already durable. */
  function Stop(w: World, pid: nat): World {
    w.(processes := w.processes - {pid},
       selection := if w.selection == Some(pid) then None else w.selection,
       migrating := map g | g in w.migrating && w.migrating[g] != pid :: w.migrating[g])
  }

  function Go(w: World, pid: nat, next: Process): World {
    w.(processes := w.processes[pid := next])
  }

  function Unlock(w: World, g: Generation): World {
    w.(migrating := w.migrating - {g})
  }

  /** `choice` supplies what a step cannot know: a random key, a directory name, a backup's content. */
  function Advance(w: World, pid: nat, p: Process, choice: nat): World {
    match p
    case Inspecting(g, existing, goal) =>
      if existing && FormatOf(w, g) != ProtectedOrUnknown then Stop(w, pid)
      else Go(w, pid, Reading(g, existing, FormatOf(w, g), goal))
    case Reading(g, existing, format, goal) =>
      if g in w.records then Go(w, pid, Checking(g, existing, format, w.records[g], goal))
      else if existing || format == ProtectedOrUnknown then Stop(w, pid)
      else Go(w, pid, Inserting(g, existing, format, choice, goal))
    case Inserting(g, existing, format, key, goal) =>
      var added := g !in w.records;
      var after := if added then w.(records := w.records[g := Record(key, false)]) else w;
      Go(after, pid, Rereading(g, existing, format, key, added, goal))
    case Rereading(g, existing, format, key, added, goal) =>
      if g !in w.records || (added && w.records[g].key != key) then Stop(w, pid)
      else Go(w, pid, Checking(g, existing, format, w.records[g], goal))
    case Checking(g, existing, format, record, goal) =>
      if (existing && !record.initialized) || (record.initialized && format != ProtectedOrUnknown) then Stop(w, pid)
      else if format == LegacyPlaintext then Go(w, pid, Upgrading(g, record, goal))
      else Go(w, pid, Connecting(g, record, goal))
    case Upgrading(g, record, goal) =>
      if g in w.migrating || g !in w.files then Stop(w, pid)
      else (match w.files[g]
        case Plain(content) =>
          Go(w.(migrating := w.migrating[g := pid]), pid, Replacing(g, record, content, goal))
        case Protected(key, _) => if key == record.key then Go(w, pid, Connecting(g, record, goal)) else Stop(w, pid)
        case Foreign => Stop(w, pid))
    case Replacing(g, record, content, goal) =>
      Go(Unlock(w.(files := w.files[g := Protected(record.key, content)]), g), pid, Connecting(g, record, goal))
    case Connecting(g, record, goal) =>
      if g in w.migrating then Stop(w, pid)
      else if g !in w.files then Go(w.(files := w.files[g := Protected(record.key, choice)]), pid, Marking(g, record, goal))
      else (match w.files[g]
        case Protected(key, _) => if key == record.key then Go(w, pid, Marking(g, record, goal)) else Stop(w, pid)
        case _ => Stop(w, pid))
    case Marking(g, record, goal) =>
      var after := if record.initialized || g !in w.records then w else w.(records := w.records[g := Record(record.key, true)]);
      if g !in w.records then Stop(w, pid)
      else (match goal
        case Handle => Go(after, pid, Open(g))
        case Activation(key) => if g.Restored? then Go(after, pid, Verifying(g.n, key)) else Stop(w, pid))
    case Open(g) => w
    case Anchoring =>
      Go(if w.selector == Unselected && !w.stores then w.(selector := Selected(Default)) else w, pid, MakingStores)
    case MakingStores => Go(w.(stores := true), pid, Allocating)
    case Allocating =>
      if choice in w.candidates then Stop(w, pid)
      else Go(w.(candidates := w.candidates + {choice}), pid, Candidate(choice))
    case Candidate(n) =>
      if Restored(n) in w.records || Restored(n) in w.files then Stop(w, pid) else Go(w, pid, Retaining(n, choice))
    case Retaining(n, key) =>
      if Restored(n) in w.records then Stop(w, pid)
      else Go(w.(records := w.records[Restored(n) := Record(key, false)]), pid, Confirming(n, key))
    case Confirming(n, key) =>
      if Restored(n) !in w.records || w.records[Restored(n)].key != key then Stop(w, pid) else Go(w, pid, Installing(n, key))
    case Installing(n, key) =>
      if Restored(n) in w.files then Stop(w, pid)
      else Go(w.(files := w.files[Restored(n) := Protected(key, choice)]), pid, Inspecting(Restored(n), false, Activation(key)))
    case Verifying(n, key) =>
      if Restored(n) !in w.files then Stop(w, pid)
      else (match w.files[Restored(n)]
        case Protected(held, _) => if held == key then Go(w, pid, Selecting(n, key)) else Stop(w, pid)
        case _ => Stop(w, pid))
    case Selecting(n, key) =>
      var chosen := w.(selector := Selected(Restored(n)), selection := if w.selection == Some(pid) then None else w.selection);
      Go(chosen, pid, Open(Restored(n)))
  }

  datatype Step =
    | OpenActive(pid: nat)
    | OpenDirectory(pid: nat)
    | RestoreActive(pid: nat)
    | Continue(pid: nat, choice: nat)
    | Crash(pid: nat)

  /** Selection is read under a shared lock, so not while a restore holds it exclusively. */
  function Next(w: World, step: Step): World {
    match step
    case OpenActive(pid) =>
      if pid in w.processes || w.selection.Some? then w
      else (match ReadSelection(w)
        case None => w
        case Some((g, existing)) => Go(w, pid, Inspecting(g, existing, Handle)))
    case OpenDirectory(pid) => if pid in w.processes then w else Go(w, pid, Inspecting(Default, false, Handle))
    case RestoreActive(pid) =>
      if pid in w.processes || w.selection.Some? then w else Go(w.(selection := Some(pid)), pid, Anchoring)
    case Continue(pid, choice) => if pid in w.processes then Advance(w, pid, w.processes[pid], choice) else w
    case Crash(pid) => Stop(w, pid)
  }

  function Run(w: World, steps: seq<Step>): World
    decreases |steps|
  {
    if steps == [] then w else Run(Next(w, steps[0]), steps[1..])
  }

  /** A first start: possibly a legacy plain file or a foreign one, nothing of ours yet. */
  function Begin(legacy: Option<File>): World {
    World(map[], if legacy.Some? then map[Default := legacy.value] else map[], Unselected, false, {}, None, map[], map[])
  }

  // ---- The invariant ----

  /** The process's record is the retained one, perhaps not yet marked. */
  predicate Retains(w: World, g: Generation, record: Record) {
    && g in w.records && w.records[g].key == record.key
    && (record.initialized ==> w.records[g].initialized)
  }

  predicate Holds(w: World, g: Generation, key: Key) {
    g in w.files && w.files[g].Protected? && w.files[g].key == key
  }

  /** An initialised record has its database, encrypted under exactly that key. */
  predicate Secure(w: World, g: Generation) {
    g in w.records && w.records[g].initialized && Holds(w, g, w.records[g].key)
  }

  /** A finished restore is still under the key it retained. */
  predicate GoalOk(w: World, g: Generation, goal: Goal) {
    goal.Activation? ==> g.Restored? && g.n in w.candidates && g in w.records && w.records[g].key == goal.key
  }

  predicate ProcessOk(w: World, pid: nat, p: Process) {
    match p
    case Inspecting(g, _, goal) => GoalOk(w, g, goal)
    case Reading(g, _, _, goal) => GoalOk(w, g, goal)
    case Inserting(g, _, _, _, goal) => GoalOk(w, g, goal)
    case Rereading(g, _, _, _, _, goal) => GoalOk(w, g, goal)
    case Checking(g, _, _, record, goal) => GoalOk(w, g, goal) && Retains(w, g, record)
    case Upgrading(g, record, goal) => GoalOk(w, g, goal) && Retains(w, g, record)
    case Replacing(g, record, content, goal) =>
      && GoalOk(w, g, goal) && Retains(w, g, record)
      && g in w.migrating && w.migrating[g] == pid && g in w.files && w.files[g] == Plain(content)
    case Connecting(g, record, goal) => GoalOk(w, g, goal) && Retains(w, g, record)
    case Marking(g, record, goal) => GoalOk(w, g, goal) && Retains(w, g, record) && Holds(w, g, record.key)
    case Open(g) => Secure(w, g)
    case MakingStores => w.selector.Selected?
    case Allocating => w.stores
    case Candidate(n) => n in w.candidates
    case Retaining(n, key) => n in w.candidates
    case Confirming(n, key) => n in w.candidates && Restored(n) in w.records
    case Installing(n, key) => n in w.candidates && Restored(n) in w.records && w.records[Restored(n)].key == key
    case Verifying(n, key) => n in w.candidates && Secure(w, Restored(n)) && w.records[Restored(n)].key == key
    case Selecting(n, key) => n in w.candidates && Secure(w, Restored(n)) && w.records[Restored(n)].key == key
    case _ => true
  }

  ghost predicate Safe(w: World) {
    && (forall g :: g in w.records && w.records[g].initialized ==> Secure(w, g))
    && (forall g :: g in w.files && w.files[g].Protected? ==> g in w.records && Holds(w, g, w.records[g].key))
    && !w.selector.Corrupt? && (w.candidates != {} ==> w.stores)
    && (w.selector.Selected? && w.selector.generation.Restored? ==>
          w.selector.generation.n in w.candidates && Secure(w, w.selector.generation))
    && (w.stores ==> w.selector.Selected?)
    && (forall pid :: pid in w.processes ==> ProcessOk(w, pid, w.processes[pid]))
    && LocksHeld(w)
  }

  /** A lock belongs to a running process; the system drops a dead one's. */
  predicate LocksHeld(w: World) {
    && (forall g | g in w.migrating :: w.migrating[g] in w.processes)
    && (w.selection.Some? ==> w.selection.value in w.processes)
  }

  /**
   * What no step undoes: a retained key, its mark, a database's content, a protected file,
   * the evidence of earlier restores. A plain file may become the same content under the retained key.
   */
  ghost predicate Extends(before: World, after: World, pid: nat) {
    && (forall g :: g in before.records ==> Retains(after, g, before.records[g]))
    && (forall g :: g in before.files ==> g in after.files && FileKept(before, after, g, pid))
    && before.candidates <= after.candidates && (before.stores ==> after.stores)
    && (before.selector.Selected? ==> after.selector.Selected?)
    && (forall g :: g in before.migrating && before.migrating[g] != pid ==>
          g in after.migrating && after.migrating[g] == before.migrating[g])
  }

  predicate FileKept(before: World, after: World, g: Generation, pid: nat)
    requires g in before.files && g in after.files
  {
    || after.files[g] == before.files[g]
    || (before.files[g].Plain? && g in before.migrating && before.migrating[g] == pid
        && g in after.records && after.files[g] == Protected(after.records[g].key, before.files[g].content))
  }

  lemma OthersUndisturbed(before: World, after: World, pid: nat, other: nat, p: Process)
    requires Safe(before) && Extends(before, after, pid) && other != pid && ProcessOk(before, other, p)
    requires forall g :: g in after.records && after.records[g].initialized ==> Secure(after, g)
    ensures ProcessOk(after, other, p)
  {
  }

  lemma StopIsSafe(w: World, pid: nat)
    requires Safe(w)
    ensures Safe(Stop(w, pid)) && Extends(w, Stop(w, pid), pid)
  {
    var after := Stop(w, pid);
    assert Extends(w, after, pid);
    forall other | other in after.processes ensures ProcessOk(after, other, after.processes[other]) {
      OthersUndisturbed(w, after, pid, other, w.processes[other]);
    }
  }

  /** Moving one process on, with everyone else undisturbed. */
  lemma GoIsSafe(before: World, after: World, pid: nat, next: Process)
    requires Safe(before) && Extends(before, after, pid)
    requires after.processes == before.processes[pid := next] && ProcessOk(after, pid, next) && LocksHeld(after)
    requires forall g :: g in after.records && after.records[g].initialized ==> Secure(after, g)
    requires forall g :: g in after.files && after.files[g].Protected? ==> g in after.records && Holds(after, g, after.records[g].key)
    requires !after.selector.Corrupt? && (after.candidates != {} ==> after.stores) && (after.stores ==> after.selector.Selected?)
    requires after.selector.Selected? && after.selector.generation.Restored? ==>
      after.selector.generation.n in after.candidates && Secure(after, after.selector.generation)
    ensures Safe(after)
  {
    hide ProcessOk, Extends;
    forall other | other in after.processes ensures ProcessOk(after, other, after.processes[other]) {
      if other != pid {
        OthersUndisturbed(before, after, pid, other, before.processes[other]);
      }
    }
  }

  // ---- Every step ----

  lemma MoveIsSafe(w: World, pid: nat, next: Process)
    requires Safe(w) && ProcessOk(w, pid, next)
    ensures Safe(Go(w, pid, next)) && Extends(w, Go(w, pid, next), pid)
  {
    var after := Go(w, pid, next);
    assert Extends(w, after, pid);
    assert ProcessOk(after, pid, next);
    GoIsSafe(w, after, pid, next);
  }

  /** Steps that only look: the process stops, or moves on to a point it may stand at. */
  lemma LookingMoves(w: World, pid: nat, p: Process, choice: nat)
    requires ProcessOk(w, pid, p)
    requires p.Inspecting? || p.Reading? || p.Rereading? || p.Checking? || p.Candidate? || p.Confirming? || p.Verifying?
    ensures var after := Advance(w, pid, p, choice);
      || after == Stop(w, pid)
      || (pid in after.processes && after == Go(w, pid, after.processes[pid]) && ProcessOk(w, pid, after.processes[pid]))
  {
    hide Stop;
    match p
    case Inspecting(_, _, _) =>
    case Reading(g, _, _, _) => assert g in w.records ==> Retains(w, g, w.records[g]);
    case Rereading(g, _, _, _, _, _) => assert g in w.records ==> Retains(w, g, w.records[g]);
    case Checking(_, _, _, _, _) =>
    case Candidate(_) =>
    case Confirming(_, _) =>
    case Verifying(_, _) =>
  }

  lemma LookingIsSafe(w: World, pid: nat, p: Process, choice: nat)
    requires Safe(w) && pid in w.processes && w.processes[pid] == p
    requires p.Inspecting? || p.Reading? || p.Rereading? || p.Checking? || p.Candidate? || p.Confirming? || p.Verifying? || p.Open?
    ensures Safe(Advance(w, pid, p, choice)) && Extends(w, Advance(w, pid, p, choice), pid)
  {
    if p.Open? {
      NothingIsSafe(w, pid);
    } else {
      assert ProcessOk(w, pid, p);
      LookingMoves(w, pid, p, choice);
      hide Safe, Extends, Advance, Stop, Go;
      var after := Advance(w, pid, p, choice);
      if after == Stop(w, pid) {
        StopIsSafe(w, pid);
      } else {
        MoveIsSafe(w, pid, after.processes[pid]);
      }
    }
  }

  /** A record is added only where there is none. */
  lemma AddingIsSafe(w: World, pid: nat, g: Generation, key: Key, next: Process)
    requires Safe(w) && g !in w.records
    requires ProcessOk(w.(records := w.records[g := Record(key, false)]), pid, next)
    ensures var after := Go(w.(records := w.records[g := Record(key, false)]), pid, next);
      Safe(after) && Extends(w, after, pid)
  {
    var after := Go(w.(records := w.records[g := Record(key, false)]), pid, next);
    assert Extends(w, after, pid);
    assert ProcessOk(after, pid, next);
    GoIsSafe(w, after, pid, next);
  }

  lemma RetainingIsSafe(w: World, pid: nat, p: Process, choice: nat)
    requires Safe(w) && pid in w.processes && w.processes[pid] == p && (p.Inserting? || p.Retaining?)
    ensures Safe(Advance(w, pid, p, choice)) && Extends(w, Advance(w, pid, p, choice), pid)
  {
    assert ProcessOk(w, pid, p);
    hide Safe, Extends, Stop;
    match p
    case Inserting(g, existing, format, key, goal) =>
      var next := Rereading(g, existing, format, key, g !in w.records, goal);
      if g in w.records {
        MoveIsSafe(w, pid, next);
      } else {
        AddingIsSafe(w, pid, g, key, next);
      }
    case Retaining(n, key) =>
      if Restored(n) in w.records {
        StopIsSafe(w, pid);
      } else {
        AddingIsSafe(w, pid, Restored(n), key, Confirming(n, key));
      }
  }

  /** Migration takes the lock over a plain file. */
  lemma LockingIsSafe(w: World, pid: nat, g: Generation, next: Process)
    requires Safe(w) && g !in w.migrating && pid in w.processes
    requires ProcessOk(w.(migrating := w.migrating[g := pid]), pid, next)
    ensures var after := Go(w.(migrating := w.migrating[g := pid]), pid, next); Safe(after) && Extends(w, after, pid)
  {
    var after := Go(w.(migrating := w.migrating[g := pid]), pid, next);
    assert Extends(w, after, pid);
    assert ProcessOk(after, pid, next);
    GoIsSafe(w, after, pid, next);
  }

  /** And replaces it by its own content under the retained key. */
  lemma ReplacingIsSafe(w: World, pid: nat, p: Process)
    requires Safe(w) && pid in w.processes && w.processes[pid] == p && p.Replacing?
    ensures Safe(Advance(w, pid, p, 0)) && Extends(w, Advance(w, pid, p, 0), pid)
  {
    var after := Advance(w, pid, p, 0);
    assert ProcessOk(w, pid, p);
    assert w.files[p.g] == Plain(p.content) && w.migrating[p.g] == pid;
    assert Extends(w, after, pid);
    GoIsSafe(w, after, pid, after.processes[pid]);
  }

  lemma MigratingIsSafe(w: World, pid: nat, p: Process, choice: nat)
    requires Safe(w) && pid in w.processes && w.processes[pid] == p && (p.Upgrading? || p.Replacing?)
    ensures Safe(Advance(w, pid, p, choice)) && Extends(w, Advance(w, pid, p, choice), pid)
  {
    assert ProcessOk(w, pid, p);
    hide Safe, Extends, Stop;
    match p
    case Upgrading(g, record, goal) =>
      if g in w.migrating || g !in w.files || w.files[g].Foreign? {
        StopIsSafe(w, pid);
      } else if w.files[g].Plain? {
        LockingIsSafe(w, pid, g, Replacing(g, record, w.files[g].content, goal));
      } else if w.files[g].key == record.key {
        MoveIsSafe(w, pid, Connecting(g, record, goal));
      } else {
        StopIsSafe(w, pid);
      }
    case Replacing(_, _, _, _) => ReplacingIsSafe(w, pid, p);
  }

  /** A missing database is created under the retained key. */
  lemma CreatingIsSafe(w: World, pid: nat, g: Generation, key: Key, content: nat, next: Process)
    requires Safe(w) && g !in w.files && g in w.records && w.records[g].key == key
    requires ProcessOk(w.(files := w.files[g := Protected(key, content)]), pid, next)
    ensures var after := Go(w.(files := w.files[g := Protected(key, content)]), pid, next);
      Safe(after) && Extends(w, after, pid)
  {
    var after := Go(w.(files := w.files[g := Protected(key, content)]), pid, next);
    assert Extends(w, after, pid);
    assert ProcessOk(after, pid, next);
    GoIsSafe(w, after, pid, next);
  }

  lemma ConnectingIsSafe(w: World, pid: nat, p: Process, choice: nat)
    requires Safe(w) && pid in w.processes && w.processes[pid] == p && p.Connecting?
    ensures Safe(Advance(w, pid, p, choice)) && Extends(w, Advance(w, pid, p, choice), pid)
  {
    assert ProcessOk(w, pid, p);
    hide Safe, Extends, Stop;
    var next := Marking(p.g, p.record, p.goal);
    if p.g in w.migrating {
      StopIsSafe(w, pid);
    } else if p.g !in w.files {
      CreatingIsSafe(w, pid, p.g, p.record.key, choice, next);
    } else if Holds(w, p.g, p.record.key) {
      MoveIsSafe(w, pid, next);
    } else {
      StopIsSafe(w, pid);
    }
  }

  /** The retained key is marked once its database is there. */
  lemma MarkIsSafe(w: World, pid: nat, g: Generation, key: Key, next: Process)
    requires Safe(w) && g in w.records && w.records[g].key == key && Holds(w, g, key)
    requires ProcessOk(w.(records := w.records[g := Record(key, true)]), pid, next)
    ensures var after := Go(w.(records := w.records[g := Record(key, true)]), pid, next);
      Safe(after) && Extends(w, after, pid)
  {
    var after := Go(w.(records := w.records[g := Record(key, true)]), pid, next);
    assert Extends(w, after, pid);
    assert ProcessOk(after, pid, next);
    GoIsSafe(w, after, pid, next);
  }

  lemma MarkingIsSafe(w: World, pid: nat, p: Process, choice: nat)
    requires Safe(w) && pid in w.processes && w.processes[pid] == p && p.Marking?
    ensures Safe(Advance(w, pid, p, choice)) && Extends(w, Advance(w, pid, p, choice), pid)
  {
    assert ProcessOk(w, pid, p);
    assert p.record.initialized ==> Secure(w, p.g);
    var next := match p.goal case Handle => Open(p.g) case Activation(key) => Verifying(p.g.n, key);
    var marked := w.(records := w.records[p.g := Record(p.record.key, true)]);
    assert Secure(marked, p.g);
    hide Safe, Extends, Stop;
    if p.record.initialized {
      MoveIsSafe(w, pid, next);
    } else {
      MarkIsSafe(w, pid, p.g, p.record.key, next);
    }
  }

  /** The anchor is written only before any restore; afterwards a selector is always there. */
  lemma AnchoringIsSafe(w: World, pid: nat, choice: nat)
    requires Safe(w) && pid in w.processes && w.processes[pid] == Anchoring
    ensures Safe(Advance(w, pid, Anchoring, choice)) && Extends(w, Advance(w, pid, Anchoring, choice), pid)
  {
    var after := Advance(w, pid, Anchoring, choice);
    assert Extends(w, after, pid);
    GoIsSafe(w, after, pid, MakingStores);
  }

  lemma MakingIsSafe(w: World, pid: nat, choice: nat)
    requires Safe(w) && pid in w.processes && w.processes[pid] == MakingStores
    ensures Safe(Advance(w, pid, MakingStores, choice)) && Extends(w, Advance(w, pid, MakingStores, choice), pid)
  {
    var after := Advance(w, pid, MakingStores, choice);
    assert ProcessOk(w, pid, MakingStores);
    assert Extends(w, after, pid);
    GoIsSafe(w, after, pid, Allocating);
  }

  lemma AllocatingIsSafe(w: World, pid: nat, n: nat)
    requires Safe(w) && pid in w.processes && w.processes[pid] == Allocating
    ensures Safe(Advance(w, pid, Allocating, n)) && Extends(w, Advance(w, pid, Allocating, n), pid)
  {
    var after := Advance(w, pid, Allocating, n);
    if n in w.candidates {
      StopIsSafe(w, pid);
    } else {
      assert ProcessOk(w, pid, Allocating);
      assert Extends(w, after, pid);
      GoIsSafe(w, after, pid, Candidate(n));
    }
  }

  lemma FinishingIsSafe(w: World, pid: nat, p: Process, choice: nat)
    requires Safe(w) && pid in w.processes && w.processes[pid] == p && (p.Installing? || p.Selecting?)
    ensures Safe(Advance(w, pid, p, choice)) && Extends(w, Advance(w, pid, p, choice), pid)
  {
    var after := Advance(w, pid, p, choice);
    assert ProcessOk(w, pid, p);
    if pid !in after.processes {
      StopIsSafe(w, pid);
    } else {
      GoIsSafe(w, after, pid, after.processes[pid]);
    }
  }

  /** One step of any process, or its death, keeps everything safe and undoes nothing. */
  lemma NextIsSafe(w: World, step: Step)
    requires Safe(w)
    ensures Safe(Next(w, step)) && Extends(w, Next(w, step), step.pid)
  {
    hide Safe, Extends, Advance, Stop;
    match step
    case OpenActive(pid) =>
      assert Safe(Next(w, step)) && Extends(w, Next(w, step), pid) by { StartIsSafe(w, step); }
    case OpenDirectory(pid) =>
      assert Safe(Next(w, step)) && Extends(w, Next(w, step), pid) by { StartIsSafe(w, step); }
    case RestoreActive(pid) =>
      assert Safe(Next(w, step)) && Extends(w, Next(w, step), pid) by { StartIsSafe(w, step); }
    case Continue(pid, choice) =>
      if pid in w.processes {
        var p := w.processes[pid];
        match p
        case Inserting(_, _, _, _, _) => RetainingIsSafe(w, pid, p, choice);
        case Retaining(_, _) => RetainingIsSafe(w, pid, p, choice);
        case Upgrading(_, _, _) => MigratingIsSafe(w, pid, p, choice);
        case Replacing(_, _, _, _) => MigratingIsSafe(w, pid, p, choice);
        case Connecting(_, _, _) => ConnectingIsSafe(w, pid, p, choice);
        case Marking(_, _, _) => MarkingIsSafe(w, pid, p, choice);
        case Anchoring => AnchoringIsSafe(w, pid, choice);
        case MakingStores => MakingIsSafe(w, pid, choice);
        case Allocating => AllocatingIsSafe(w, pid, choice);
        case Installing(_, _) => FinishingIsSafe(w, pid, p, choice);
        case Selecting(_, _) => FinishingIsSafe(w, pid, p, choice);
        case _ => LookingIsSafe(w, pid, p, choice);
      } else {
        NothingIsSafe(w, pid);
      }
    case Crash(pid) => StopIsSafe(w, pid);
  }

  lemma NothingIsSafe(w: World, pid: nat)
    ensures Extends(w, w, pid)
  {
  }

  lemma StartIsSafe(w: World, step: Step)
    requires Safe(w) && (step.OpenActive? || step.OpenDirectory? || step.RestoreActive?)
    ensures Safe(Next(w, step)) && Extends(w, Next(w, step), step.pid)
  {
    var after := Next(w, step);
    if after != w {
      GoIsSafe(w, after, step.pid, after.processes[step.pid]);
    }
  }

  lemma BeginIsSafe(legacy: Option<File>)
    requires legacy.Some? ==> !legacy.value.Protected?
    ensures Safe(Begin(legacy))
  {
  }

  lemma {:induction false} RunIsSafe(w: World, steps: seq<Step>)
    requires Safe(w)
    ensures Safe(Run(w, steps))
    decreases |steps|
  {
    hide Safe, Next;
    if steps != [] {
      NextIsSafe(w, steps[0]);
      RunIsSafe(Next(w, steps[0]), steps[1..]);
    }
  }

  // ---- What holds over whole runs ----

  /** No run replaces a retained key or unmarks it. */
  lemma {:induction false} KeysAreForever(w: World, steps: seq<Step>, g: Generation)
    requires Safe(w) && g in w.records
    ensures Retains(Run(w, steps), g, w.records[g])
    decreases |steps|
  {
    hide Safe, Next;
    if steps != [] {
      NextIsSafe(w, steps[0]);
      KeysAreForever(Next(w, steps[0]), steps[1..], g);
    }
  }

  function ContentOf(f: File): Option<nat> {
    match f case Plain(c) => Some(c) case Protected(_, c) => Some(c) case Foreign => None
  }

  /** No run loses a database: it keeps its whole content, plain or under its generation's retained key. */
  lemma {:induction false} ContentIsForever(w: World, steps: seq<Step>, g: Generation)
    requires Safe(w) && g in w.files
    ensures var after := Run(w, steps);
      && g in after.files && ContentOf(after.files[g]) == ContentOf(w.files[g])
      && (w.files[g].Protected? ==> after.files[g] == w.files[g])
      && (after.files[g].Protected? ==> g in after.records && after.files[g].key == after.records[g].key)
    decreases |steps|
  {
    if steps == [] {
    } else {
      hide Safe, Next;
      NextIsSafe(w, steps[0]);
      ContentIsForever(Next(w, steps[0]), steps[1..], g);
    }
  }

  /** Once a restore has begun, no selection ever again permits a fresh initialisation. */
  lemma {:induction false} SelectionStaysAnchored(w: World, steps: seq<Step>)
    requires Safe(w) && w.stores
    ensures var after := Run(w, steps);
      && after.stores && after.selector.Selected?
      && (ReadSelection(after).Some? ==> ReadSelection(after).value.1)
    decreases |steps|
  {
    if steps == [] {
    } else {
      hide Safe, Next;
      NextIsSafe(w, steps[0]);
      SelectionStaysAnchored(Next(w, steps[0]), steps[1..]);
    }
  }

  /** The selector names the default store or a verified restored one, readable with an initialised record. */
  lemma SelectedIsVerified(legacy: Option<File>, steps: seq<Step>, n: nat)
    requires legacy.Some? ==> !legacy.value.Protected?
    requires Run(Begin(legacy), steps).selector == Selected(Restored(n))
    ensures var after := Run(Begin(legacy), steps);
      Secure(after, Restored(n)) && ReadSelection(after) == Some((Restored(n), true))
  {
    BeginIsSafe(legacy);
    RunIsSafe(Begin(legacy), steps);
  }

  // ---- Opening again after any crash ----

  /** Left alone for `k` steps, the process holds an open database. */
  predicate Reaches(w: World, pid: nat, k: nat)
    decreases k
  {
    if k == 0 then pid in w.processes && w.processes[pid].Open?
    else Reaches(Next(w, Continue(pid, 0)), pid, k - 1)
  }

  lemma {:induction false} OpenStaysOpen(w: World, pid: nat, g: Generation, k: nat)
    requires pid in w.processes && w.processes[pid] == Open(g)
    ensures Reaches(w, pid, k)
  {
    if k > 0 {
      OpenStaysOpen(w, pid, g, k - 1);
    }
  }

  lemma {:induction false} StoppedStaysStopped(w: World, pid: nat, k: nat)
    requires pid !in w.processes
    ensures !Reaches(w, pid, k)
  {
    if k > 0 {
      StoppedStaysStopped(w, pid, k - 1);
    }
  }

  predicate Readable(w: World, g: Generation, key: Key) {
    g !in w.files || (w.files[g].Protected? && w.files[g].key == key)
  }

  lemma ConnectingOpens(w: World, pid: nat, g: Generation, record: Record, k: nat)
    requires k >= 2 && pid in w.processes && w.processes[pid] == Connecting(g, record, Handle)
    requires g !in w.migrating && g in w.records
    ensures Reaches(w, pid, k) <==> Readable(w, g, record.key)
  {
    var next := Next(w, Continue(pid, 0));
    if Readable(w, g, record.key) {
      assert next.processes[pid] == Marking(g, record, Handle);
      OpenStaysOpen(Next(next, Continue(pid, 0)), pid, g, k - 2);
    } else {
      StoppedStaysStopped(next, pid, k - 1);
    }
  }

  lemma UpgradingOpens(w: World, pid: nat, g: Generation, record: Record, k: nat)
    requires k >= 4 && pid in w.processes && w.processes[pid] == Upgrading(g, record, Handle)
    requires g !in w.migrating && g in w.records && g in w.files && w.files[g].Plain?
    ensures Reaches(w, pid, k)
  {
    hide Reaches;
    var locked := Next(w, Continue(pid, 0));
    var replaced := Next(locked, Continue(pid, 0));
    assert locked.processes[pid] == Replacing(g, record, w.files[g].content, Handle);
    assert replaced.processes[pid] == Connecting(g, record, Handle) && replaced.files[g] == Protected(record.key, w.files[g].content);
    assert g !in replaced.migrating && g in replaced.records;
    ConnectingOpens(replaced, pid, g, record, k - 2);
    ReachesBack(locked, pid, k - 1);
    ReachesBack(w, pid, k);
  }

  lemma ReachesBack(w: World, pid: nat, k: nat)
    requires k > 0
    ensures Reaches(w, pid, k) <==> Reaches(Next(w, Continue(pid, 0)), pid, k - 1)
  {
  }

  /** From the check of the record on: everything but a foreign file opens. */
  lemma CheckingOpens(w: World, pid: nat, g: Generation, k: nat)
    requires k >= 5 && Safe(w) && pid in w.processes && g in w.records && g !in w.migrating
    requires w.processes[pid] == Checking(g, false, FormatOf(w, g), w.records[g], Handle)
    ensures Reaches(w, pid, k) <==> !(g in w.files && w.files[g].Foreign?)
  {
    hide Reaches;
    var record := w.records[g];
    var next := Next(w, Continue(pid, 0));
    ReachesBack(w, pid, k);
    assert record.initialized ==> Secure(w, g);
    if g in w.files && w.files[g].Plain? {
      assert next.processes[pid] == Upgrading(g, record, Handle);
      UpgradingOpens(next, pid, g, record, k - 1);
    } else {
      assert next.processes[pid] == Connecting(g, record, Handle);
      ConnectingOpens(next, pid, g, record, k - 1);
    }
  }

  /**
   * Whatever processes crashed wherever, a process that then opens the default directory
   * alone succeeds, exactly unless a foreign file is in the way.
   */
  lemma RetryOpens(w: World, pid: nat)
    requires Safe(w) && w.processes == map[]
    ensures Reaches(Next(w, OpenDirectory(pid)), pid, 9) <==> !(Default in w.files && w.files[Default].Foreign?)
  {
    hide Reaches;
    var format := FormatOf(w, Default);
    var started := Next(w, OpenDirectory(pid));
    NextIsSafe(w, OpenDirectory(pid));
    var inspected := Next(started, Continue(pid, 0));
    NextIsSafe(started, Continue(pid, 0));
    assert inspected == w.(processes := inspected.processes) && inspected.processes[pid] == Reading(Default, false, format, Handle);
    var read := Next(inspected, Continue(pid, 0));
    NextIsSafe(inspected, Continue(pid, 0));
    ReachesBack(started, pid, 9);
    ReachesBack(inspected, pid, 8);
    if Default in w.records {
      CheckingOpens(read, pid, Default, 7);
    } else if format == ProtectedOrUnknown {
      StoppedStaysStopped(read, pid, 7);
    } else {
      InsertingOpens(read, pid, format);
    }
  }

  lemma InsertingOpens(w: World, pid: nat, format: Format)
    requires Safe(w) && pid in w.processes && w.processes[pid] == Inserting(Default, false, format, 0, Handle)
    requires Default !in w.records && w.migrating == map[] && format == FormatOf(w, Default) && format != ProtectedOrUnknown
    ensures Reaches(w, pid, 7)
  {
    hide Reaches;
    var inserted := Next(w, Continue(pid, 0));
    NextIsSafe(w, Continue(pid, 0));
    var reread := Next(inserted, Continue(pid, 0));
    NextIsSafe(inserted, Continue(pid, 0));
    ReachesBack(w, pid, 7);
    ReachesBack(inserted, pid, 6);
    assert reread.processes[pid] == Checking(Default, false, FormatOf(reread, Default), reread.records[Default], Handle);
    CheckingOpens(reread, pid, Default, 5);
  }

  /** The selected restored store always opens, and with the key that was retained for it. */
  lemma SelectedOpens(w: World, pid: nat, n: nat)
    requires Safe(w) && w.processes == map[]
    requires w.selector == Selected(Restored(n))
    ensures Reaches(Next(w, OpenActive(pid)), pid, 5)
  {
    hide Reaches;
    var g := Restored(n);
    var started := Next(w, OpenActive(pid));
    assert started.processes[pid] == Inspecting(g, true, Handle);
    var inspected := Next(started, Continue(pid, 0));
    var read := Next(inspected, Continue(pid, 0));
    assert read.processes[pid] == Checking(g, true, ProtectedOrUnknown, w.records[g], Handle);
    var checked := Next(read, Continue(pid, 0));
    assert checked.processes[pid] == Connecting(g, w.records[g], Handle);
    ReachesBack(started, pid, 5);
    ReachesBack(inspected, pid, 4);
    ReachesBack(read, pid, 3);
    ConnectingOpens(checked, pid, g, w.records[g], 2);
  }
}
