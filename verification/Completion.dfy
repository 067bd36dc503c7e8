/**
 * Where an undisturbed process ends: what an open leaves behind, when it refuses, and that
 * a restore does end with its store selected, verified and open.
 */
module Completion {
  import opened Wrappers
  import opened Vault

  /** One process left alone, with what each of its steps draws from outside. */
  function Alone(w: World, pid: nat, choices: seq<nat>): World
    decreases |choices|
  {
    if choices == [] then w else Alone(Next(w, Continue(pid, choices[0])), pid, choices[1..])
  }

  lemma AloneStep(w: World, pid: nat, choices: seq<nat>)
    requires choices != []
    ensures Alone(w, pid, choices) == Alone(Next(w, Continue(pid, choices[0])), pid, choices[1..])
  {
  }

  lemma {:induction false} OpenRests(w: World, pid: nat, g: Generation, choices: seq<nat>)
    requires pid in w.processes && w.processes[pid] == Open(g)
    ensures Alone(w, pid, choices) == w
    decreases |choices|
  {
    if choices != [] {
      OpenRests(w, pid, g, choices[1..]);
    }
  }

  lemma {:induction false} StoppedRests(w: World, pid: nat, choices: seq<nat>)
    requires pid !in w.processes
    ensures Alone(w, pid, choices) == w
    decreases |choices|
  {
    if choices != [] {
      StoppedRests(w, pid, choices[1..]);
    }
  }

  /** The durable stores apart from one generation, and the locks. */
  predicate SameBeside(a: World, b: World, g: Generation) {
    && (forall other | other in a.records.Keys + b.records.Keys && other != g ::
          other in a.records && other in b.records && a.records[other] == b.records[other])
    && (forall other | other in a.files.Keys + b.files.Keys && other != g ::
          other in a.files && other in b.files && a.files[other] == b.files[other])
    && a.selector == b.selector && a.stores == b.stores && a.candidates == b.candidates
    && a.selection == b.selection && a.migrating == b.migrating
  }

  /**
   * The process holds an open database under an initialised record. A record that existed
   * keeps its key and a file its whole content; only what was missing was drawn from outside.
   */
  predicate OpenedAs(before: World, after: World, pid: nat, g: Generation, choices: seq<nat>) {
    && SameBeside(before, after, g)
    && pid in after.processes && after.processes[pid] == Open(g)
    && g in after.records && after.records[g].initialized
    && (if g in before.records then after.records[g].key == before.records[g].key else after.records[g].key in choices)
    && g in after.files && after.files[g].Protected? && after.files[g].key == after.records[g].key
    && (if g in before.files then ContentOf(after.files[g]) == ContentOf(before.files[g]) else after.files[g].content in choices)
  }

  predicate SameStores(a: World, b: World) {
    && a.records == b.records && a.files == b.files && a.selector == b.selector && a.stores == b.stores
    && a.candidates == b.candidates && a.selection == b.selection && a.migrating == b.migrating
  }

  lemma ConnectedOpens(w: World, pid: nat, g: Generation, record: Record, a: nat, b: nat)
    requires pid in w.processes && w.processes[pid] == Connecting(g, record, Handle) && Readable(w, g, record.key)
    requires w.migrating == map[] && g in w.records && w.records[g] == record
    ensures var content := if g in w.files then w.files[g].content else a;
      Next(Next(w, Continue(pid, a)), Continue(pid, b)) == w.(
        files := w.files[g := Protected(record.key, content)], records := w.records[g := Record(record.key, true)],
        processes := w.processes[pid := Open(g)])
  {
    var next := Next(w, Continue(pid, a));
    assert g in w.files ==> w.files[g := w.files[g]] == w.files;
    assert next == w.(files := next.files, processes := w.processes[pid := Marking(g, record, Handle)]);
    assert record.initialized ==> w.records[g := Record(record.key, true)] == w.records;
  }

  lemma ConnectedIsOpened(w: World, after: World, pid: nat, g: Generation, record: Record, content: nat, choices: seq<nat>)
    requires g in w.records && w.records[g] == record
    requires if g in w.files then w.files[g].Protected? && w.files[g].content == content else content in choices
    requires after == w.(
      files := w.files[g := Protected(record.key, content)], records := w.records[g := Record(record.key, true)],
      processes := w.processes[pid := Open(g)])
    ensures OpenedAs(w, after, pid, g, choices)
  {
  }

  lemma ConnectingEnds(w: World, pid: nat, g: Generation, record: Record, choices: seq<nat>)
    requires |choices| >= 2 && pid in w.processes && w.processes[pid] == Connecting(g, record, Handle)
    requires w.migrating == map[] && w.selection.None? && g in w.records && w.records[g] == record
    ensures var after := Alone(w, pid, choices);
      if Readable(w, g, record.key) then OpenedAs(w, after, pid, g, choices)
      else SameStores(w, after) && after.processes == w.processes - {pid}
  {
    var next := Next(w, Continue(pid, choices[0]));
    AloneStep(w, pid, choices);
    if Readable(w, g, record.key) {
      AloneStep(next, pid, choices[1..]);
      ConnectedOpens(w, pid, g, record, choices[0], choices[1]);
      hide Next, Alone, OpenedAs;
      var after := Next(next, Continue(pid, choices[1]));
      OpenRests(after, pid, g, choices[1..][1..]);
      ConnectedIsOpened(w, after, pid, g, record, if g in w.files then w.files[g].content else choices[0], choices);
    } else {
      StoppedRests(next, pid, choices[1..]);
      hide Alone, OpenedAs;
    }
  }

  lemma UpgradingReplaces(w: World, pid: nat, g: Generation, record: Record, a: nat, b: nat)
    requires pid in w.processes && w.processes[pid] == Upgrading(g, record, Handle)
    requires w.migrating == map[] && g in w.files && w.files[g].Plain?
    ensures Next(Next(w, Continue(pid, a)), Continue(pid, b)) == w.(
      files := w.files[g := Protected(record.key, w.files[g].content)], processes := w.processes[pid := Connecting(g, record, Handle)])
  {
    var locked := Next(w, Continue(pid, a));
    assert locked == w.(migrating := map[g := pid], processes := w.processes[pid := Replacing(g, record, w.files[g].content, Handle)]);
    assert map[g := pid] - {g} == map[];
  }

  lemma UpgradingEnds(w: World, pid: nat, g: Generation, record: Record, choices: seq<nat>)
    requires |choices| >= 4 && pid in w.processes && w.processes[pid] == Upgrading(g, record, Handle)
    requires w.migrating == map[] && w.selection.None? && g in w.records && w.records[g] == record
    requires g in w.files && w.files[g].Plain?
    ensures OpenedAs(w, Alone(w, pid, choices), pid, g, choices)
  {
    var locked := Next(w, Continue(pid, choices[0]));
    var replaced := Next(locked, Continue(pid, choices[1]));
    UpgradingReplaces(w, pid, g, record, choices[0], choices[1]);
    AloneStep(w, pid, choices);
    AloneStep(locked, pid, choices[1..]);
    hide Alone, Next;
    ConnectingEnds(replaced, pid, g, record, choices[1..][1..]);
    UpgradedEarlier(w, replaced, Alone(w, pid, choices), pid, g, record, choices);
  }

  lemma UpgradedEarlier(before: World, replaced: World, after: World, pid: nat, g: Generation, record: Record, choices: seq<nat>)
    requires |choices| >= 2 && g in before.files && before.files[g].Plain? && g in before.records
    requires SameStores(before, replaced.(files := before.files))
    requires replaced.files == before.files[g := Protected(record.key, before.files[g].content)]
    requires OpenedAs(replaced, after, pid, g, choices[1..][1..])
    ensures OpenedAs(before, after, pid, g, choices)
  {
  }

  lemma CheckingEnds(w: World, pid: nat, g: Generation, choices: seq<nat>)
    requires |choices| >= 5 && Safe(w) && pid in w.processes && g in w.records && w.migrating == map[] && w.selection.None?
    requires w.processes[pid] == Checking(g, false, FormatOf(w, g), w.records[g], Handle)
    ensures var after := Alone(w, pid, choices);
      if g in w.files && w.files[g].Foreign? then SameStores(w, after) && after.processes == w.processes - {pid}
      else OpenedAs(w, after, pid, g, choices)
  {
    var record := w.records[g];
    var next := Next(w, Continue(pid, choices[0]));
    AloneStep(w, pid, choices);
    assert record.initialized ==> Secure(w, g);
    var foreign := g in w.files && w.files[g].Foreign?;
    assert g !in w.files || foreign || w.files[g].Plain? || Holds(w, g, record.key);
    hide Alone, Safe, OpenedAs;
    if g in w.files && w.files[g].Plain? {
      assert next == Go(w, pid, Upgrading(g, record, Handle));
      hide Next;
      UpgradingEnds(next, pid, g, record, choices[1..]);
      OpenedEarlier(w, next, Alone(w, pid, choices), pid, g, choices);
    } else {
      assert next == Go(w, pid, Connecting(g, record, Handle));
      hide Next;
      ConnectingEnds(next, pid, g, record, choices[1..]);
      if !foreign {
        OpenedEarlier(w, next, Alone(w, pid, choices), pid, g, choices);
      }
    }
  }

  lemma OpenedEarlier(before: World, next: World, after: World, pid: nat, g: Generation, choices: seq<nat>)
    requires choices != [] && SameStores(before, next) && OpenedAs(next, after, pid, g, choices[1..])
    ensures OpenedAs(before, after, pid, g, choices)
  {
  }

  lemma InsertedEarlier(before: World, next: World, after: World, pid: nat, key: Key, choices: seq<nat>, rest: seq<nat>)
    requires Default !in before.records && next.records == before.records[Default := Record(key, false)]
    requires SameStores(before, next.(records := before.records)) && OpenedAs(next, after, pid, Default, rest)
    requires forall c :: c in rest ==> c in choices
    ensures OpenedAs(before, after, pid, Default, [key] + choices)
  {
  }

  lemma InsertingSteps(w: World, pid: nat, format: Format, key: Key, a: nat, b: nat)
    requires Safe(w) && pid in w.processes && w.processes[pid] == Inserting(Default, false, format, key, Handle)
    requires Default !in w.records
    ensures var reread := Next(Next(w, Continue(pid, a)), Continue(pid, b));
      && Safe(reread)
      && reread == Go(w.(records := w.records[Default := Record(key, false)]), pid,
                      Checking(Default, false, format, Record(key, false), Handle))
  {
    var inserted := Next(w, Continue(pid, a));
    assert inserted == Go(w.(records := w.records[Default := Record(key, false)]), pid, Rereading(Default, false, format, key, true, Handle));
    var reread := Next(inserted, Continue(pid, b));
    assert reread == Go(inserted, pid, Checking(Default, false, format, Record(key, false), Handle));
    assert inserted.processes[pid := reread.processes[pid]] == w.processes[pid := reread.processes[pid]];
    hide Safe, Extends, Next;
    NextIsSafe(w, Continue(pid, a));
    NextIsSafe(inserted, Continue(pid, b));
  }

  /** A missing record is added, found again, and then used like any other. */
  lemma InsertingEnds(w: World, pid: nat, format: Format, key: Key, choices: seq<nat>)
    requires Safe(w) && |choices| >= 7 && pid in w.processes && w.processes[pid] == Inserting(Default, false, format, key, Handle)
    requires Default !in w.records && w.migrating == map[] && w.selection.None?
    requires format == FormatOf(w, Default) && format != ProtectedOrUnknown
    ensures OpenedAs(w, Alone(w, pid, choices), pid, Default, [key] + choices)
  {
    var inserted := Next(w, Continue(pid, choices[0]));
    var reread := Next(inserted, Continue(pid, choices[1]));
    InsertingSteps(w, pid, format, key, choices[0], choices[1]);
    AloneStep(w, pid, choices);
    AloneStep(inserted, pid, choices[1..]);
    var rest := choices[1..][1..];
    assert FormatOf(reread, Default) == format && !(Default in w.files && w.files[Default].Foreign?);
    hide Safe, Alone, Next, OpenedAs;
    CheckingEnds(reread, pid, Default, rest);
    var after := Alone(reread, pid, rest);
    assert forall c :: c in rest ==> c in choices;
    InsertedEarlier(w, reread, after, pid, key, choices, rest);
  }

  /**
   * Opening a directory alone ends with its database open, created or upgraded under the
   * retained key as needed; with a foreign file in the way it ends having changed nothing.
   */
  lemma DirectoryOpens(w: World, pid: nat, choices: seq<nat>)
    requires Safe(w) && w.processes == map[] && |choices| >= 9
    ensures var after := Alone(Next(w, OpenDirectory(pid)), pid, choices);
      if Default in w.files && w.files[Default].Foreign? then SameStores(w, after) && after.processes == map[]
      else OpenedAs(w, after, pid, Default, choices)
  {
    FreshlyOpens(w, Next(w, OpenDirectory(pid)), pid, choices);
    assert w.migrating == map[] && w.selection.None?;
  }

  lemma ReadingEnds(w: World, read: World, pid: nat, key: nat, choices: seq<nat>)
    requires Safe(w) && w.migrating == map[] && w.selection.None? && |choices| >= 7
    requires pid in w.processes && w.processes[pid] == Reading(Default, false, FormatOf(w, Default), Handle)
    requires read == Next(w, Continue(pid, key)) && Safe(read)
    ensures var after := Alone(read, pid, choices);
      if Default in w.files && w.files[Default].Foreign? then SameStores(w, after) && after.processes == w.processes - {pid}
      else OpenedAs(w, after, pid, Default, [key] + choices)
  {
    var format := FormatOf(w, Default);
    var foreign := Default in w.files && w.files[Default].Foreign?;
    var after := Alone(read, pid, choices);
    if Default in w.records {
      assert read == Go(w, pid, Checking(Default, false, format, w.records[Default], Handle));
      hide Safe, OpenedAs, Alone;
      CheckingEnds(read, pid, Default, choices);
      if !foreign {
        assert ([key] + choices)[1..] == choices;
        OpenedEarlier(w, read, after, pid, Default, [key] + choices);
      }
    } else if format == ProtectedOrUnknown {
      assert !(Default in w.files && w.files[Default].Protected?);
      assert read == Stop(w, pid);
      StoppedRests(read, pid, choices);
      assert SameStores(w, read);
    } else {
      assert read == Go(w, pid, Inserting(Default, false, format, key, Handle));
      hide Safe, OpenedAs, Alone, Next;
      InsertingEnds(read, pid, format, key, choices);
      SameStart(w, read, after, pid, [key] + choices);
    }
  }

  lemma SameStart(before: World, next: World, after: World, pid: nat, choices: seq<nat>)
    requires SameStores(before, next) && OpenedAs(next, after, pid, Default, choices)
    ensures OpenedAs(before, after, pid, Default, choices)
  {
  }

  lemma Inspects(w: World, pid: nat, a: nat, b: nat)
    requires Safe(w) && w.processes == map[]
    ensures var started := Go(w, pid, Inspecting(Default, false, Handle));
      var inspected := Next(started, Continue(pid, a));
      && inspected == Go(w, pid, Reading(Default, false, FormatOf(w, Default), Handle))
      && Safe(inspected) && Safe(Next(inspected, Continue(pid, b)))
  {
    var started := Go(w, pid, Inspecting(Default, false, Handle));
    MoveIsSafe(w, pid, Inspecting(Default, false, Handle));
    var inspected := Next(started, Continue(pid, a));
    assert inspected == Go(w, pid, Reading(Default, false, FormatOf(w, Default), Handle));
    hide Safe, Extends, Next;
    NextIsSafe(started, Continue(pid, a));
    NextIsSafe(inspected, Continue(pid, b));
  }

  /** An inspection that may create what is missing. */
  lemma FreshlyOpens(w: World, started: World, pid: nat, choices: seq<nat>)
    requires Safe(w) && w.processes == map[] && |choices| >= 9
    requires started == Go(w, pid, Inspecting(Default, false, Handle))
    ensures var after := Alone(started, pid, choices);
      if Default in w.files && w.files[Default].Foreign? then SameStores(w, after) && after.processes == map[]
      else OpenedAs(w, after, pid, Default, choices)
  {
    assert w.migrating == map[] && w.selection.None?;
    Inspects(w, pid, choices[0], choices[1]);
    var inspected := Next(started, Continue(pid, choices[0]));
    var read := Next(inspected, Continue(pid, choices[1]));
    var rest := choices[1..][1..];
    hide Alone, Safe, OpenedAs, Next;
    AloneStep(started, pid, choices);
    AloneStep(inspected, pid, choices[1..]);
    ReadingEnds(inspected, read, pid, choices[1], rest);
    if !(Default in w.files && w.files[Default].Foreign?) {
      assert [choices[1]] + rest == choices[1..];
      OpenedEarlier(w, inspected, Alone(read, pid, rest), pid, Default, choices);
    }
  }

  lemma {:induction false} AloneJoins(w: World, pid: nat, a: seq<nat>, b: seq<nat>)
    ensures Alone(w, pid, a + b) == Alone(Alone(w, pid, a), pid, b)
    decreases |a|
  {
    if a == [] {
      assert a + b == b;
    } else {
      assert (a + b)[1..] == a[1..] + b;
      AloneJoins(Next(w, Continue(pid, a[0])), pid, a[1..], b);
    }
  }

  lemma Pair(w: World, pid: nat, a: nat, b: nat)
    ensures Alone(w, pid, [a, b]) == Next(Next(w, Continue(pid, a)), Continue(pid, b))
  {
    hide Next;
    var one := Next(w, Continue(pid, a));
    AloneStep(w, pid, [a, b]);
    assert [a, b][1..] == [b];
    AloneStep(one, pid, [b]);
  }

  lemma LooksUp(w: World, pid: nat, g: Generation, a: nat, b: nat)
    requires Secure(w, g) && w.processes == map[pid := Inspecting(g, true, Handle)]
    ensures Alone(w, pid, [a, b]) == w.(processes := map[pid := Checking(g, true, ProtectedOrUnknown, w.records[g], Handle)])
  {
    Pair(w, pid, a, b);
    hide Alone;
  }

  lemma Connects(w: World, pid: nat, g: Generation, a: nat, b: nat)
    requires Secure(w, g) && w.migrating == map[]
    requires w.processes == map[pid := Checking(g, true, ProtectedOrUnknown, w.records[g], Handle)]
    ensures Alone(w, pid, [a, b]) == w.(processes := map[pid := Marking(g, w.records[g], Handle)])
  {
    Pair(w, pid, a, b);
    hide Alone;
  }

  lemma MarkedOpens(w: World, pid: nat, g: Generation, choices: seq<nat>)
    requires Secure(w, g) && choices != [] && w.processes == map[pid := Marking(g, w.records[g], Handle)]
    ensures Alone(w, pid, choices) == w.(processes := map[pid := Open(g)])
  {
    var marked := Next(w, Continue(pid, choices[0]));
    assert marked == w.(processes := map[pid := Open(g)]);
    AloneStep(w, pid, choices);
    OpenRests(marked, pid, g, choices[1..]);
  }

  /** A generation that must exist opens with its initialised record and changes nothing, or is refused. */
  lemma ExistingOpens(w: World, started: World, pid: nat, g: Generation, choices: seq<nat>)
    requires Safe(w) && w.processes == map[] && |choices| >= 9 && started == Go(w, pid, Inspecting(g, true, Handle))
    ensures var after := Alone(started, pid, choices);
      && SameStores(w, after)
      && after.processes == if g in w.records && w.records[g].initialized then map[pid := Open(g)] else map[]
  {
    assert w.migrating == map[];
    if g in w.records && w.records[g].initialized {
      assert Secure(w, g);
      hide Safe, Alone, Next;
      var first, second, rest := choices[..2], choices[2..4], choices[4..];
      assert first == [choices[0], choices[1]] && second == [choices[2], choices[3]];
      assert choices == first + (second + rest);
      AloneJoins(started, pid, first, second + rest);
      LooksUp(started, pid, g, choices[0], choices[1]);
      var checked := Alone(started, pid, first);
      AloneJoins(checked, pid, second, rest);
      Connects(checked, pid, g, choices[2], choices[3]);
      MarkedOpens(Alone(checked, pid, second), pid, g, rest);
    } else {
      ExistingStops(w, started, pid, g, choices);
    }
  }

  lemma ExistingStops(w: World, started: World, pid: nat, g: Generation, choices: seq<nat>)
    requires Safe(w) && w.processes == map[] && |choices| >= 9 && started == Go(w, pid, Inspecting(g, true, Handle))
    requires g in w.records ==> !w.records[g].initialized
    ensures SameStores(w, Alone(started, pid, choices)) && Alone(started, pid, choices).processes == map[]
  {
    assert w.migrating == map[] && w.selection.None?;
    var inspected := Next(started, Continue(pid, choices[0]));
    var read := Next(inspected, Continue(pid, choices[1]));
    var checked := Next(read, Continue(pid, choices[2]));
    AloneStep(started, pid, choices);
    AloneStep(inspected, pid, choices[1..]);
    AloneStep(read, pid, choices[1..][1..]);
    if FormatOf(w, g) != ProtectedOrUnknown {
      StoppedRests(inspected, pid, choices[1..]);
    } else if g !in w.records {
      StoppedRests(read, pid, choices[1..][1..]);
    } else {
      assert read == Go(w, pid, Checking(g, true, ProtectedOrUnknown, w.records[g], Handle));
      StoppedRests(checked, pid, choices[1..][1..][1..]);
    }
  }

  /**
   * The active store: before any restore, the default directory as on a first start; once
   * selected, an existing store opens with its initialised record and nothing is created.
   */
  lemma ActiveOpens(w: World, pid: nat, choices: seq<nat>)
    requires Safe(w) && w.processes == map[] && |choices| >= 9
    ensures var after := Alone(Next(w, OpenActive(pid)), pid, choices);
      match w.selector
      case Unselected =>
        if Default in w.files && w.files[Default].Foreign? then SameStores(w, after) && after.processes == map[]
        else OpenedAs(w, after, pid, Default, choices)
      case Selected(g) =>
        && SameStores(w, after)
        && after.processes == if g in w.records && w.records[g].initialized then map[pid := Open(g)] else map[]
      case Corrupt => false
    ensures w.selector.Selected? && w.selector.generation.Restored? ==>
      w.selector.generation in w.records && w.records[w.selector.generation].initialized
  {
    var started := Next(w, OpenActive(pid));
    assert w.migrating == map[] && w.selection.None?;
    match w.selector
    case Unselected =>
      assert started == Go(w, pid, Inspecting(Default, false, Handle));
      FreshlyOpens(w, started, pid, choices);
    case Selected(g) =>
      assert started == Go(w, pid, Inspecting(g, true, Handle));
      ExistingOpens(w, started, pid, g, choices);
    case Corrupt =>
  }

  /**
   * Selection, exactly: the default may be created only where there is neither a selector
   * nor evidence of a restore; a named store must exist, a restored one in its directory.
   */
  lemma SelectionIsExact(w: World, g: Generation, existing: bool)
    ensures ReadSelection(w) == Some((g, existing)) <==>
      || (w.selector == Unselected && !w.stores && g == Default && !existing)
      || (w.selector == Selected(g) && existing && (g.Restored? ==> w.stores && g.n in w.candidates))
  {
  }

  /** No process that must open an existing store stands at inserting a record. */
  ghost predicate OnlyNewInsert(w: World) {
    forall pid :: pid in w.processes && w.processes[pid].Inserting? ==> !w.processes[pid].existing
  }

  /** Over every run a missing record is added only by an open that may create, never by one that must find a store. */
  lemma {:induction false} ExistingNeverInserts(w: World, steps: seq<Step>)
    requires OnlyNewInsert(w)
    ensures OnlyNewInsert(Run(w, steps))
    decreases |steps|
  {
    if steps != [] {
      NextOnlyNewInsert(w, steps[0]);
      hide Next, OnlyNewInsert;
      ExistingNeverInserts(Next(w, steps[0]), steps[1..]);
    }
  }

  lemma NextOnlyNewInsert(w: World, step: Step)
    requires OnlyNewInsert(w)
    ensures OnlyNewInsert(Next(w, step))
  {
    hide FormatOf, ReadSelection;
    if step.Continue? && step.pid in w.processes {
      var p := w.processes[step.pid];
      if OpensStep(p) {
        OpeningInserts(w, step.pid, p, step.choice);
      } else {
        RestoringInserts(w, step.pid, p, step.choice);
      }
      hide Advance;
    }
  }

  /** The points of an open, as against those of a restore. */
  predicate OpensStep(p: Process) {
    p.Inspecting? || p.Reading? || p.Inserting? || p.Rereading? || p.Checking? || p.Upgrading? || p.Replacing? || p.Connecting?
  }

  /** The process stops or moves on alone, and not to an insertion that it may not make. */
  ghost predicate MovesAlone(w: World, after: World, pid: nat) {
    && (forall other :: other in after.processes && other != pid ==> other in w.processes && after.processes[other] == w.processes[other])
    && (pid in after.processes && after.processes[pid].Inserting? ==> !after.processes[pid].existing)
  }

  lemma OpeningInserts(w: World, pid: nat, p: Process, choice: nat)
    requires pid in w.processes && w.processes[pid] == p && OpensStep(p) && (p.Inserting? ==> !p.existing)
    ensures MovesAlone(w, Advance(w, pid, p, choice), pid)
  {
    hide FormatOf;
  }

  lemma RestoringInserts(w: World, pid: nat, p: Process, choice: nat)
    requires pid in w.processes && w.processes[pid] == p && !OpensStep(p)
    ensures MovesAlone(w, Advance(w, pid, p, choice), pid)
  {
    hide FormatOf;
  }

  // ---- A restore ----

  /** The draws of one restore: directory number, key, then the backup's content; the other steps draw nothing. */
  function Draws(n: nat, key: Key, content: nat): seq<nat> {
    [0, 0, n, key, 0, 0, content, 0, 0, 0, 0, 0, 0, 0]
  }

  /** What a restore leaves behind: one more generation, verified under its own initialised record, and selected. */
  predicate RestoredAs(before: World, after: World, pid: nat, n: nat, key: Key, content: nat) {
    var g := Restored(n);
    && after.records == before.records[g := Record(key, true)]
    && after.files == before.files[g := Protected(key, content)]
    && after.selector == Selected(g) && after.stores && after.candidates == before.candidates + {n}
    && after.selection.None? && after.migrating == before.migrating && after.processes == before.processes[pid := Open(g)]
  }

  /** The selector is anchored and the directory of restored stores made. */
  lemma Anchors(w: World, pid: nat)
    requires Safe(w) && w.processes == map[pid := Anchoring]
    ensures var after := Alone(w, pid, [0, 0]);
      && after.selector.Selected?
      && after == w.(selector := after.selector, stores := true, processes := map[pid := Allocating])
  {
    Pair(w, pid, 0, 0);
    hide Alone;
  }

  lemma Allocates(w: World, pid: nat, n: nat, key: Key)
    requires w.processes == map[pid := Allocating]
    requires n !in w.candidates && Restored(n) !in w.records && Restored(n) !in w.files
    ensures Alone(w, pid, [n, key]) == w.(candidates := w.candidates + {n}, processes := map[pid := Retaining(n, key)])
  {
    Pair(w, pid, n, key);
    hide Alone;
  }

  lemma RetainsKey(w: World, pid: nat, n: nat, key: Key)
    requires w.processes == map[pid := Retaining(n, key)] && Restored(n) !in w.records
    ensures Alone(w, pid, [0, 0])
      == w.(records := w.records[Restored(n) := Record(key, false)], processes := map[pid := Installing(n, key)])
  {
    Pair(w, pid, 0, 0);
    hide Alone;
  }

  /** The backup's content is installed under the retained key, and then opened like any other file. */
  lemma Installs(w: World, pid: nat, n: nat, key: Key, content: nat)
    requires w.processes == map[pid := Installing(n, key)] && Restored(n) !in w.files
    ensures Alone(w, pid, [content, 0])
      == w.(files := w.files[Restored(n) := Protected(key, content)],
            processes := map[pid := Reading(Restored(n), false, ProtectedOrUnknown, Activation(key))])
  {
    Pair(w, pid, content, 0);
    hide Alone;
  }

  lemma Rechecks(w: World, pid: nat, n: nat, key: Key)
    requires Restored(n) in w.records && w.records[Restored(n)] == Record(key, false)
    requires w.processes == map[pid := Reading(Restored(n), false, ProtectedOrUnknown, Activation(key))]
    ensures Alone(w, pid, [0, 0]) == w.(processes := map[pid := Connecting(Restored(n), Record(key, false), Activation(key))])
  {
    Pair(w, pid, 0, 0);
    hide Alone;
  }

  lemma Marks(w: World, pid: nat, n: nat, key: Key, content: nat)
    requires w.migrating == map[] && Restored(n) in w.records && w.records[Restored(n)] == Record(key, false)
    requires Restored(n) in w.files && w.files[Restored(n)] == Protected(key, content)
    requires w.processes == map[pid := Connecting(Restored(n), Record(key, false), Activation(key))]
    ensures Alone(w, pid, [0, 0])
      == w.(records := w.records[Restored(n) := Record(key, true)], processes := map[pid := Verifying(n, key)])
  {
    Pair(w, pid, 0, 0);
    hide Alone;
  }

  lemma Selects(w: World, pid: nat, n: nat, key: Key, content: nat)
    requires w.selection == Some(pid) && Restored(n) in w.files && w.files[Restored(n)] == Protected(key, content)
    requires w.processes == map[pid := Verifying(n, key)]
    ensures Alone(w, pid, [0, 0])
      == w.(selector := Selected(Restored(n)), selection := None, processes := map[pid := Open(Restored(n))])
  {
    Pair(w, pid, 0, 0);
    hide Alone;
  }

  lemma RetainsAndInstalls(w: World, pid: nat, n: nat, key: Key, content: nat)
    requires Safe(w) && w.processes == map[pid := Anchoring]
    requires n !in w.candidates && Restored(n) !in w.records && Restored(n) !in w.files
    ensures var after := Alone(Alone(Alone(Alone(w, pid, [0, 0]), pid, [n, key]), pid, [0, 0]), pid, [content, 0]);
      && after.selector.Selected?
      && after == w.(
           selector := after.selector, stores := true, candidates := w.candidates + {n},
           records := w.records[Restored(n) := Record(key, false)], files := w.files[Restored(n) := Protected(key, content)],
           processes := map[pid := Reading(Restored(n), false, ProtectedOrUnknown, Activation(key))])
  {
    hide Safe, Next, Alone;
    Anchors(w, pid);
    var w1 := Alone(w, pid, [0, 0]);
    Allocates(w1, pid, n, key);
    var w2 := Alone(w1, pid, [n, key]);
    RetainsKey(w2, pid, n, key);
    Installs(Alone(w2, pid, [0, 0]), pid, n, key, content);
  }

  lemma VerifiesAndSelects(w: World, pid: nat, n: nat, key: Key, content: nat)
    requires w.migrating == map[] && w.selection == Some(pid)
    requires Restored(n) in w.records && w.records[Restored(n)] == Record(key, false)
    requires Restored(n) in w.files && w.files[Restored(n)] == Protected(key, content)
    requires w.processes == map[pid := Reading(Restored(n), false, ProtectedOrUnknown, Activation(key))]
    ensures Alone(Alone(Alone(w, pid, [0, 0]), pid, [0, 0]), pid, [0, 0]) == w.(
      records := w.records[Restored(n) := Record(key, true)], selector := Selected(Restored(n)), selection := None,
      processes := map[pid := Open(Restored(n))])
  {
    hide Next, Alone;
    Rechecks(w, pid, n, key);
    var w5 := Alone(w, pid, [0, 0]);
    Marks(w5, pid, n, key, content);
    Selects(Alone(w5, pid, [0, 0]), pid, n, key, content);
  }

  /** A restore into a fresh directory, left alone, ends with the restored store verified, selected and open. */
  lemma RestoreCompletes(w: World, pid: nat, n: nat, key: Key, content: nat)
    requires Safe(w) && w.processes == map[]
    requires n !in w.candidates && Restored(n) !in w.records && Restored(n) !in w.files
    ensures RestoredAs(w, Alone(Next(w, RestoreActive(pid)), pid, Draws(n, key, content)), pid, n, key, content)
  {
    var w0 := Next(w, RestoreActive(pid));
    assert w.migrating == map[] && w.selection.None?;
    assert w0 == w.(selection := Some(pid), processes := map[pid := Anchoring]);
    assert Safe(w0) by {
      hide Safe, Extends, Next;
      NextIsSafe(w, RestoreActive(pid));
    }
    hide Safe, Next, Alone;
    RetainsAndInstalls(w0, pid, n, key, content);
    var w4 := Alone(Alone(Alone(Alone(w0, pid, [0, 0]), pid, [n, key]), pid, [0, 0]), pid, [content, 0]);
    VerifiesAndSelects(w4, pid, n, key, content);
    DrawsJoin(w0, pid, n, key, content);
    hide RestoredAs;
    Concludes(w, w4, Alone(w0, pid, Draws(n, key, content)), pid, n, key, content);
  }

  lemma Concludes(w: World, installed: World, after: World, pid: nat, n: nat, key: Key, content: nat)
    requires w.selection.None? && w.processes == map[]
    requires installed.records == w.records[Restored(n) := Record(key, false)]
    requires installed.files == w.files[Restored(n) := Protected(key, content)]
    requires installed.stores && installed.candidates == w.candidates + {n} && installed.migrating == w.migrating
    requires after == installed.(
      records := installed.records[Restored(n) := Record(key, true)], selector := Selected(Restored(n)), selection := None,
      processes := map[pid := Open(Restored(n))])
    ensures RestoredAs(w, after, pid, n, key, content)
  {
  }

  lemma DrawsJoin(w: World, pid: nat, n: nat, key: Key, content: nat)
    ensures Alone(w, pid, Draws(n, key, content)) ==
      var w3 := Alone(Alone(Alone(w, pid, [0, 0]), pid, [n, key]), pid, [0, 0]);
      Alone(Alone(Alone(Alone(w3, pid, [content, 0]), pid, [0, 0]), pid, [0, 0]), pid, [0, 0])
  {
    hide Next, Alone;
    var none := [0, 0];
    var w1 := Alone(w, pid, none);
    var w2 := Alone(w1, pid, [n, key]);
    var w3 := Alone(w2, pid, none);
    var w4 := Alone(w3, pid, [content, 0]);
    AloneJoins(Alone(w4, pid, none), pid, none, none);
    AloneJoins(w4, pid, none, none + none);
    AloneJoins(w3, pid, [content, 0], none + (none + none));
    AloneJoins(w2, pid, none, [content, 0] + (none + (none + none)));
    AloneJoins(w1, pid, [n, key], none + ([content, 0] + (none + (none + none))));
    AloneJoins(w, pid, none, [n, key] + (none + ([content, 0] + (none + (none + none)))));
    assert Draws(n, key, content) == none + ([n, key] + (none + ([content, 0] + (none + (none + none)))));
  }

  /** A candidate directory that already has a record or a file is given up, and nothing is written for it. */
  lemma UsedCandidateIsGivenUp(w: World, pid: nat, n: nat, choices: seq<nat>)
    requires pid in w.processes && w.processes[pid] == Candidate(n) && choices != []
    requires Restored(n) in w.records || Restored(n) in w.files
    ensures Alone(w, pid, choices) == Stop(w, pid)
  {
    AloneStep(w, pid, choices);
    StoppedRests(Stop(w, pid), pid, choices[1..]);
    hide Alone;
  }

  /** Every later open of the active store reaches what was restored, however many processes have died. */
  lemma RestoredOpens(w: World, pid: nat, n: nat, key: Key, content: nat, again: nat, choices: seq<nat>)
    requires Safe(w) && w.processes == map[] && |choices| >= 9
    requires n !in w.candidates && Restored(n) !in w.records && Restored(n) !in w.files
    ensures var done := Alone(Next(w, RestoreActive(pid)), pid, Draws(n, key, content));
      var after := Alone(Next(Next(done, Crash(pid)), OpenActive(again)), again, choices);
      && after.processes == map[again := Open(Restored(n))] && Restored(n) in after.files
      && after.files[Restored(n)] == Protected(key, content)
  {
    RestoreCompletes(w, pid, n, key, content);
    AloneIsSafe(w, pid, n, key, content);
    var done := Alone(Next(w, RestoreActive(pid)), pid, Draws(n, key, content));
    var rested := Next(done, Crash(pid));
    hide Alone, Safe, Extends, Secure;
    RestedIsSelected(w, done, pid, n, key, content);
    hide Next;
    ActiveOpens(rested, again, choices);
  }

  lemma RestedIsSelected(w: World, done: World, pid: nat, n: nat, key: Key, content: nat)
    requires w.processes == map[] && Safe(done) && RestoredAs(w, done, pid, n, key, content)
    ensures var rested := Next(done, Crash(pid));
      && Safe(rested) && rested.processes == map[] && rested.selector == Selected(Restored(n))
      && Restored(n) in rested.files && rested.files[Restored(n)] == Protected(key, content)
      && Restored(n) in rested.records && rested.records[Restored(n)].initialized
  {
    hide Safe, Extends;
    NextIsSafe(done, Crash(pid));
  }

  lemma {:induction false} AloneKeepsSafe(w: World, pid: nat, choices: seq<nat>)
    requires Safe(w)
    ensures Safe(Alone(w, pid, choices))
    decreases |choices|
  {
    hide Safe, Extends, Next;
    if choices != [] {
      NextIsSafe(w, Continue(pid, choices[0]));
      AloneKeepsSafe(Next(w, Continue(pid, choices[0])), pid, choices[1..]);
    }
  }

  lemma AloneIsSafe(w: World, pid: nat, n: nat, key: Key, content: nat)
    requires Safe(w)
    ensures Safe(Alone(Next(w, RestoreActive(pid)), pid, Draws(n, key, content)))
  {
    hide Safe, Extends, Next, Alone;
    NextIsSafe(w, RestoreActive(pid));
    AloneKeepsSafe(Next(w, RestoreActive(pid)), pid, Draws(n, key, content));
  }
}
