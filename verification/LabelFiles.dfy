/**
 * BIP 329 label files: parsing, matching against a wallet, preview and application,
 * export, and the bulk edit of coins. Rows keep the reference text as it was supplied.
 */
module LabelFiles {
  import opened Wrappers
  import opened Tables
  import opened Psbts

  const MAX_FILE: nat := 2 * 1024 * 1024
  const MAX_RECORDS: nat := 5000
  const MAX_REFERENCE: nat := 200
  const MAX_ORIGIN: nat := 1024

  datatype Kind = Tx | Addr | Out
  datatype Key = Key(kind: Kind, reference: string)

  /** One record of the file; an omitted field says nothing about the row. */
  datatype Record = Record(key: Key, tag: Option<string>, spendable: Option<bool>, origin: Option<string>)

  datatype Meta = Meta(labels: map<Key, string>, freezes: set<string>)
  datatype Preview = Preview(matched: nat, skipped: nat, changed: nat)

  /** What matching needs to know of a wallet. Text lengths are in bytes of UTF-8. */
  datatype Wallet = Wallet(origin: string, normalize: string -> Option<string>, known: Key -> bool, size: string -> nat)

  // ---- Parsing ----

  datatype Value = Str(text: string) | Bool(value: bool) | Other
  type Fields = map<string, Value>

  function KindName(kind: Kind): string {
    match kind case Tx => "tx" case Addr => "addr" case Out => "output"
  }

  function ParseTag(fields: Fields): Result<Option<string>, Error> {
    if "label" !in fields then Ok(None)
    else
      match fields["label"]
      case Str(text) => if ValidLabel(text) then Ok(Some(text)) else Err(InvalidInput)
      case _ => Err(InvalidInput)
  }

  function ParseSpendable(fields: Fields, kind: Kind): Result<Option<bool>, Error> {
    if "spendable" !in fields then Ok(None)
    else
      match fields["spendable"]
      case Bool(value) => if kind == Out then Ok(Some(value)) else Err(InvalidInput)
      case _ => Err(InvalidInput)
  }

  function ParseOrigin(w: Wallet, fields: Fields): Result<Option<string>, Error> {
    if "origin" !in fields then Ok(None)
    else
      match fields["origin"]
      case Str(text) => if w.size(text) <= MAX_ORIGIN then Ok(Some(text)) else Err(InvalidInput)
      case _ => Err(InvalidInput)
  }

  function ParseKnown(w: Wallet, fields: Fields, kind: Kind): Result<Record, Error> {
    if "ref" !in fields || !fields["ref"].Str? then Err(InvalidInput)
    else
      var reference := fields["ref"].text;
      if reference == "" || w.size(reference) > MAX_REFERENCE then Err(InvalidInput)
      else
        var tag :- ParseTag(fields);
        var spendable :- ParseSpendable(fields, kind);
        var origin :- ParseOrigin(w, fields);
        Ok(Record(Key(kind, reference), tag, spendable, origin))
  }

  /** `None` is a type this program does not handle. */
  function ParseLine(w: Wallet, line: Option<Fields>): Result<Option<Record>, Error> {
    if line.None? || "type" !in line.value || !line.value["type"].Str? then Err(InvalidInput)
    else
      var name := line.value["type"].text;
      if name == "tx" then Kept(ParseKnown(w, line.value, Tx))
      else if name == "addr" then Kept(ParseKnown(w, line.value, Addr))
      else if name == "output" then Kept(ParseKnown(w, line.value, Out))
      else Ok(None)
  }

  function Kept(r: Result<Record, Error>): Result<Option<Record>, Error> {
    match r case Ok(record) => Ok(Some(record)) case Err(e) => Err(e)
  }

  function Records(read: seq<Option<Record>>): (r: seq<Record>)
    ensures |r| <= |read|
  {
    if read == [] then []
    else Records(read[..|read| - 1]) + if read[|read| - 1].Some? then [read[|read| - 1].value] else []
  }

  /** Same reference and same origin spelling. */
  predicate SameSubject(a: Record, b: Record) {
    a.key == b.key && a.origin == b.origin
  }

  ghost predicate DistinctSubjects(records: seq<Record>) {
    forall i, j :: 0 <= i < j < |records| ==> !SameSubject(records[i], records[j])
  }

  /** A file is readable exactly when every line is, within the limits and without duplicates. */
  ghost predicate Readable(w: Wallet, size: nat, lines: seq<Option<Fields>>, read: seq<Option<Record>>) {
    && size <= MAX_FILE && |lines| <= MAX_RECORDS && |read| == |lines|
    && (forall i :: 0 <= i < |lines| ==> ParseLine(w, lines[i]) == Ok(read[i]))
    && DistinctSubjects(Records(read))
  }

  lemma LineIsWellFormed(w: Wallet, line: Option<Fields>)
    ensures var r := ParseLine(w, line); r.Ok? && r.value.Some? ==>
      (r.value.value.spendable.Some? ==> r.value.value.key.kind == Out)
  {
    hide ValidLabel;
  }

  /** Only outputs carry a freeze in a readable file, as importing expects. */
  lemma {:induction false} ReadIsWellFormed(w: Wallet, lines: seq<Option<Fields>>, read: seq<Option<Record>>)
    requires |read| == |lines| && forall i :: 0 <= i < |lines| ==> ParseLine(w, lines[i]) == Ok(read[i])
    ensures WellFormed(Records(read))
  {
    hide ParseLine;
    if read != [] {
      var n := |read| - 1;
      ReadIsWellFormed(w, lines[..n], read[..n]);
      LineIsWellFormed(w, lines[n]);
    }
  }

  lemma RecordsGrow(read: seq<Option<Record>>, k: nat)
    requires k < |read|
    ensures Records(read[..k + 1]) == Records(read[..k]) + if read[k].Some? then [read[k].value] else []
  {
    assert read[..k + 1][..k] == read[..k];
  }

  lemma {:induction false} RecordsPrefix(read: seq<Option<Record>>, k: nat)
    requires k <= |read|
    ensures Records(read[..k]) <= Records(read)
    decreases |read| - k
  {
    if k == |read| {
      assert read[..k] == read;
    } else {
      RecordsGrow(read, k);
      RecordsPrefix(read, k + 1);
    }
  }

  /** The file parser accepts exactly the readable files, and returns their records in order. */
  method ParseLabels(w: Wallet, size: nat, lines: seq<Option<Fields>>) returns (r: Result<(seq<Record>, nat), Error>)
    ensures r.Ok? <==> exists read :: Readable(w, size, lines, read)
    ensures r.Ok? ==> exists read :: Readable(w, size, lines, read) && r.value.0 == Records(read)
    ensures r.Ok? ==> r.value.1 == |lines| - |r.value.0| && WellFormed(r.value.0)
    ensures r.Err? ==> r.error == InvalidInput
  {
    hide ParseLine;
    if size > MAX_FILE {
      return Err(InvalidInput);
    }
    var records: seq<Record>, skipped := [], 0;
    ghost var read: seq<Option<Record>> := [];
    for index := 0 to |lines|
      invariant index <= MAX_RECORDS && |read| == index
      invariant forall i :: 0 <= i < index ==> ParseLine(w, lines[i]) == Ok(read[i])
      invariant records == Records(read) && DistinctSubjects(records) && skipped == index - |records|
    {
      var next := ParseLine(w, lines[index]);
      if index >= MAX_RECORDS || next.Err? {
        return Err(InvalidInput);
      }
      ghost var longer := read + [next.value];
      RecordsGrow(longer, index);
      assert longer[..index] == read && longer[..index + 1] == longer;
      if next.value.None? {
        skipped := skipped + 1;
      } else {
        if exists i | 0 <= i < |records| :: SameSubject(records[i], next.value.value) {
          var i :| 0 <= i < |records| && SameSubject(records[i], next.value.value);
          assert SameSubject(Records(longer)[i], Records(longer)[|records|]);
          forall other ensures !Readable(w, size, lines, other) {
            DuplicateIsUnreadable(w, size, lines, longer, other);
          }
          return Err(InvalidInput);
        }
        records := records + [next.value.value];
      }
      read := longer;
    }
    assert Readable(w, size, lines, read);
    ReadIsWellFormed(w, lines, read);
    r := Ok((records, skipped));
  }

  lemma DuplicateIsUnreadable(w: Wallet, size: nat, lines: seq<Option<Fields>>, read: seq<Option<Record>>,
                              other: seq<Option<Record>>)
    requires |read| <= |lines| && forall i :: 0 <= i < |read| ==> ParseLine(w, lines[i]) == Ok(read[i])
    requires !DistinctSubjects(Records(read))
    ensures !Readable(w, size, lines, other)
  {
    hide ParseLine;
    if |other| == |lines| && forall i :: 0 <= i < |lines| ==> ParseLine(w, lines[i]) == Ok(other[i]) {
      assert other[..|read|] == read;
      RecordsPrefix(other, |read|);
    }
  }

  // ---- Matching and applying ----

  predicate Matches(w: Wallet, r: Record) {
    (r.origin.Some? ==> w.normalize(r.origin.value) == Some(w.origin)) && w.known(r.key)
  }

  function Matching(w: Wallet, records: seq<Record>): (m: seq<Record>)
    ensures |m| <= |records|
    ensures forall i :: 0 <= i < |m| ==> m[i] in records && Matches(w, m[i])
  {
    if records == [] then []
    else
      var last := records[|records| - 1];
      Matching(w, records[..|records| - 1]) + if Matches(w, last) then [last] else []
  }

  ghost predicate DistinctKeys(records: seq<Record>) {
    forall i, j :: 0 <= i < j < |records| ==> records[i].key != records[j].key
  }

  function TagOf(m: Meta, key: Key): string {
    if key in m.labels then m.labels[key] else ""
  }

  predicate Differs(m: Meta, r: Record) {
    || (r.tag.Some? && TagOf(m, r.key) != r.tag.value)
    || (r.spendable.Some? && (r.key.reference in m.freezes) == r.spendable.value)
  }

  function ApplyRecord(m: Meta, r: Record): Meta {
    var labels := if r.tag.Some? then m.labels[r.key := r.tag.value] else m.labels;
    var freezes :=
      if r.spendable.None? then m.freezes
      else if r.spendable.value then m.freezes - {r.key.reference}
      else m.freezes + {r.key.reference};
    Meta(labels, freezes)
  }

  function Patched(m: Meta, records: seq<Record>): Meta {
    if records == [] then m else ApplyRecord(Patched(m, records[..|records| - 1]), records[|records| - 1])
  }

  /** How many records change something, all judged against the same rows. */
  function Changes(m: Meta, records: seq<Record>): nat {
    if records == [] then 0
    else Changes(m, records[..|records| - 1]) + if Differs(m, records[|records| - 1]) then 1 else 0
  }

  /** Only outputs carry a freeze, as the parser guarantees. */
  ghost predicate WellFormed(records: seq<Record>) {
    forall i :: 0 <= i < |records| ==> (records[i].spendable.Some? ==> records[i].key.kind == Out)
  }

  lemma {:induction false} OtherRowsKept(m: Meta, records: seq<Record>, r: Record)
    requires forall i :: 0 <= i < |records| ==> records[i].key != r.key
    requires WellFormed(records) && (r.spendable.Some? ==> r.key.kind == Out)
    ensures Differs(Patched(m, records), r) == Differs(m, r)
    ensures TagOf(Patched(m, records), r.key) == TagOf(m, r.key)
  {
    if records != [] {
      OtherRowsKept(m, records[..|records| - 1], r);
    }
  }

  // ---- The tables ----

  class LabelTables {
    var labels: map<Key, string>
    var freezes: set<string>

    function View(): Meta
      reads this
    {
      Meta(labels, freezes)
    }

    constructor ()
      ensures View() == Meta(map[], {})
    {
      labels, freezes := map[], {};
    }

    /**
     * Preview and application share one loop. Application reads rows that it may already
     * have changed; because a repeated key is refused, it still counts what a preview counts.
     */
    method ImportLabels(w: Wallet, records: seq<Record>, ignored: nat, apply: bool) returns (r: Result<Preview, Error>)
      requires WellFormed(records)
      modifies this
      ensures var matching := Matching(w, records);
        if DistinctKeys(matching) then
          && r == Ok(Preview(|matching|, ignored + |records| - |matching|, Changes(old(View()), matching)))
          && View() == (if apply then Patched(old(View()), matching) else old(View()))
        else r == Err(InvalidInput) && View() == old(View())
    {
      hide ApplyRecord, Differs, Matches, Matching, Patched, Changes;
      var saved := View();
      var matched, skipped, changed := 0, ignored, 0;
      var seen: set<Key> := {};
      ghost var matching: seq<Record> := [];
      NothingYet(w, saved);
      for k := 0 to |records|
        invariant matching == Matching(w, records[..k]) && matched == |matching| && skipped == ignored + k - matched
        invariant DistinctKeys(matching) && WellFormed(matching)
        invariant forall key :: key in seen <==> Keyed(matching, key)
        invariant View() == (if apply then Patched(saved, matching) else saved)
        invariant changed == Changes(saved, matching)
      {
        var next := records[k];
        MatchingStep(w, records, k);
        if !Matches(w, next) {
          skipped := skipped + 1;
          continue;
        }
        if next.key in seen {
          RepeatedKey(w, records, k);
          labels, freezes := saved.labels, saved.freezes;
          return Err(InvalidInput);
        }
        matched := matched + 1;
        seen := seen + {next.key};
        OtherRowsKept(saved, matching, next);
        OneMore(saved, matching, next);
        if Differs(View(), next) {
          changed := changed + 1;
        }
        if apply {
          PutRecord(next);
        }
        forall key ensures Keyed(matching + [next], key) <==> Keyed(matching, key) || key == next.key {
          KeyedGrows(matching, next, key);
        }
        matching := matching + [next];
      }
      assert records[..|records|] == records;
      r := Ok(Preview(matched, skipped, changed));
    }

    method PutRecord(r: Record)
      modifies this
      ensures View() == ApplyRecord(old(View()), r)
    {
      if r.tag.Some? {
        labels := labels[r.key := r.tag.value];
      }
      if r.spendable.Some? {
        if r.spendable.value {
          freezes := freezes - {r.key.reference};
        } else {
          freezes := freezes + {r.key.reference};
        }
      }
    }

    method LabelRecords(w: Wallet, rows: seq<Key>) returns (records: map<Key, Record>)
      ensures forall key :: key in records <==> key in rows && key in labels
      ensures forall key :: key in records ==> records[key] == Record(key, Some(labels[key]), None, Some(w.origin))
    {
      records := map[];
      for i := 0 to |rows|
        invariant forall key :: key in records <==> key in rows[..i] && key in labels
        invariant forall key :: key in records ==> records[key] == Record(key, Some(labels[key]), None, Some(w.origin))
      {
        assert rows[..i + 1] == rows[..i] + [rows[i]];
        if rows[i] in labels {
          records := records[rows[i] := Record(rows[i], Some(labels[rows[i]]), None, Some(w.origin))];
        }
      }
      assert rows[..|rows|] == rows;
    }

    /** Labels first, then freezes merged into the same records. `rows` lists both tables' keys once. */
    method ExportLabels(w: Wallet, rows: seq<Key>) returns (r: seq<Record>)
      requires Lists(rows, View())
      ensures r == Exported(w, View(), rows)
    {
      var labelled := LabelRecords(w, rows);
      var records := labelled;
      for i := 0 to |rows|
        invariant forall j :: 0 <= j < i ==> rows[j] in records && records[rows[j]] == ExportedRow(w, View(), rows[j])
        invariant forall j :: i <= j < |rows| ==> (rows[j] in records <==> rows[j] in labelled)
        invariant forall j :: i <= j < |rows| && rows[j] in records ==> records[rows[j]] == labelled[rows[j]]
      {
        var key := rows[i];
        assert key in rows;
        if IsFrozen(View(), key) {
          var have := if key in records then records[key] else Record(key, None, None, Some(w.origin));
          records := records[key := have.(spendable := Some(false))];
        }
      }
      r := seq(|rows|, i requires 0 <= i < |rows| && rows[i] in records => records[rows[i]]);
    }

    /** Bulk metadata changes of unspent coins: all of them or none. */
    method EditCoins(unspent: set<string>, references: seq<string>, tag: Option<string>, frozen: Option<bool>)
      returns (r: Outcome<Error>)
      modifies this
      ensures if EditRefused(unspent, references, tag, frozen) then r.Fail? && View() == old(View())
        else r == Pass && View() == Patched(old(View()), Edits(references, tag, frozen))
    {
      hide ApplyRecord, ValidLabel;
      if references == [] || |references| > 200 || (tag.None? && frozen.None?) {
        return Fail(InvalidInput);
      }
      if tag.Some? && !ValidLabel(tag.value) {
        return Fail(InvalidInput);
      }
      if exists i, j | 0 <= i < j < |references| :: references[i] == references[j] {
        return Fail(InvalidInput);
      }
      var saved := View();
      ghost var edits := Edits(references, tag, frozen);
      for k := 0 to |references|
        invariant forall i :: 0 <= i < k ==> references[i] in unspent
        invariant View() == Patched(saved, edits[..k])
      {
        if references[k] !in unspent {
          labels, freezes := saved.labels, saved.freezes;
          return Fail(UnavailableCoin);
        }
        assert edits[..k + 1][..k] == edits[..k];
        PutRecord(Edit(references[k], tag, frozen));
      }
      assert edits[..|references|] == edits;
      r := Pass;
    }
  }

  predicate EditRefused(unspent: set<string>, references: seq<string>, tag: Option<string>, frozen: Option<bool>) {
    || references == [] || |references| > 200 || (tag.None? && frozen.None?)
    || (tag.Some? && !ValidLabel(tag.value))
    || (exists i, j | 0 <= i < j < |references| :: references[i] == references[j])
    || (exists i | 0 <= i < |references| :: references[i] !in unspent)
  }

  function Edit(reference: string, tag: Option<string>, frozen: Option<bool>): Record {
    Record(Key(Out, reference), tag, if frozen.Some? then Some(!frozen.value) else None, None)
  }

  function Edits(references: seq<string>, tag: Option<string>, frozen: Option<bool>): seq<Record> {
    seq(|references|, i requires 0 <= i < |references| => Edit(references[i], tag, frozen))
  }

  lemma {:induction false} MatchingPrefix(w: Wallet, records: seq<Record>, k: nat)
    requires k <= |records|
    ensures Matching(w, records[..k]) <= Matching(w, records)
    decreases |records| - k
  {
    if k == |records| {
      assert records[..k] == records;
    } else {
      assert records[..k + 1][..k] == records[..k];
      MatchingPrefix(w, records, k + 1);
    }
  }

  lemma MatchingStep(w: Wallet, records: seq<Record>, k: nat)
    requires k < |records|
    ensures Matching(w, records[..k + 1])
      == Matching(w, records[..k]) + if Matches(w, records[k]) then [records[k]] else []
  {
    assert records[..k + 1][..k] == records[..k];
  }

  lemma OneMore(m: Meta, records: seq<Record>, r: Record)
    ensures Patched(m, records + [r]) == ApplyRecord(Patched(m, records), r)
    ensures Changes(m, records + [r]) == Changes(m, records) + if Differs(m, r) then 1 else 0
  {
    hide ApplyRecord, Differs;
    assert (records + [r])[..|records|] == records;
  }

  ghost predicate Keyed(records: seq<Record>, key: Key) {
    exists i :: 0 <= i < |records| && records[i].key == key
  }

  lemma KeyedGrows(records: seq<Record>, r: Record, key: Key)
    ensures Keyed(records + [r], key) <==> Keyed(records, key) || key == r.key
  {
    var longer := records + [r];
    if Keyed(records, key) {
      var i :| 0 <= i < |records| && records[i].key == key;
      assert longer[i].key == key;
    }
    assert longer[|records|] == r;
  }

  lemma NothingYet(w: Wallet, m: Meta)
    ensures Matching(w, []) == [] && Patched(m, []) == m && Changes(m, []) == 0
  {
  }

  lemma RepeatedKey(w: Wallet, records: seq<Record>, k: nat)
    requires k < |records| && Matches(w, records[k])
    requires Keyed(Matching(w, records[..k]), records[k].key)
    ensures !DistinctKeys(Matching(w, records))
  {
    assert records[..k + 1][..k] == records[..k];
    var before := Matching(w, records[..k]);
    assert Matching(w, records[..k + 1]) == before + [records[k]];
    MatchingPrefix(w, records, k + 1);
    var i :| 0 <= i < |before| && before[i].key == records[k].key;
    var all := Matching(w, records);
    assert all[i].key == all[|before|].key;
  }

  // ---- Applying twice ----

  /** The rows already say what the record says. */
  predicate Settled(m: Meta, r: Record) {
    && (r.tag.Some? ==> r.key in m.labels && m.labels[r.key] == r.tag.value)
    && (r.spendable.Some? ==> (r.key.reference in m.freezes) == !r.spendable.value)
  }

  lemma {:induction false} PatchSettles(m: Meta, records: seq<Record>, i: nat)
    requires DistinctKeys(records) && WellFormed(records) && i < |records|
    ensures Settled(Patched(m, records), records[i])
  {
    var shorter := records[..|records| - 1];
    if i < |shorter| {
      PatchSettles(m, shorter, i);
      assert shorter[i].key != records[|records| - 1].key;
    }
  }

  lemma {:induction false} SettledIsStable(m: Meta, records: seq<Record>)
    requires forall i :: 0 <= i < |records| ==> Settled(m, records[i])
    ensures Patched(m, records) == m && Changes(m, records) == 0
  {
    if records != [] {
      SettledIsStable(m, records[..|records| - 1]);
    }
  }

  /** Applying the same payload again changes nothing and says so. */
  lemma ImportIsIdempotent(m: Meta, records: seq<Record>)
    requires DistinctKeys(records) && WellFormed(records)
    ensures var once := Patched(m, records); Patched(once, records) == once && Changes(once, records) == 0
  {
    hide Settled, Patched, Changes;
    forall i | 0 <= i < |records| ensures Settled(Patched(m, records), records[i]) {
      PatchSettles(m, records, i);
    }
    SettledIsStable(Patched(m, records), records);
  }

  /**
   * A preview of no changes means that every label shown and every freeze stays the same.
   * Rows can still appear: an explicit empty label is a new row that shows as before.
   */
  lemma {:induction false} NoChangesKeepAppearance(m: Meta, records: seq<Record>, key: Key)
    requires DistinctKeys(records) && WellFormed(records) && Changes(m, records) == 0
    ensures TagOf(Patched(m, records), key) == TagOf(m, key) && Patched(m, records).freezes == m.freezes
  {
    if records != [] {
      var shorter, last := records[..|records| - 1], records[|records| - 1];
      NoChangesKeepAppearance(m, shorter, key);
      OtherRowsKept(m, shorter, last);
    }
  }

  lemma {:induction false} UncountedDoNotDiffer(m: Meta, records: seq<Record>, i: nat)
    requires Changes(m, records) == 0 && i < |records|
    ensures !Differs(m, records[i])
  {
    hide Differs;
    if i < |records| - 1 {
      UncountedDoNotDiffer(m, records[..|records| - 1], i);
    }
  }

  /**
   * A preview of no changes leaves the tables exactly as they are if and only if every
   * explicit empty label of the file meets a row that is already there.
   */
  lemma NoChangesKeepRowsExactly(m: Meta, records: seq<Record>)
    requires DistinctKeys(records) && WellFormed(records) && Changes(m, records) == 0
    ensures Patched(m, records) == m <==>
      forall i :: 0 <= i < |records| && records[i].tag == Some("") ==> records[i].key in m.labels
  {
    forall i | 0 <= i < |records|
      ensures !Differs(m, records[i]) && Settled(Patched(m, records), records[i])
    {
      UncountedDoNotDiffer(m, records, i);
      PatchSettles(m, records, i);
    }
    hide Patched, Changes;
    if forall i :: 0 <= i < |records| && records[i].tag == Some("") ==> records[i].key in m.labels {
      forall i | 0 <= i < |records| ensures Settled(m, records[i]) {
      }
      SettledIsStable(m, records);
    }
  }

  lemma EmptyLabelIsARow(key: Key)
    ensures var m, r := Meta(map[], {}), Record(key, Some(""), None, None);
      Changes(m, [r]) == 0 && Patched(m, [r]) != m && key in Patched(m, [r]).labels
  {
    var m, r := Meta(map[], {}), Record(key, Some(""), None, None);
    assert [r][..0] == [];
    assert Patched(m, []) == m && Changes(m, []) == 0;
  }

  // ---- Export and import ----

  predicate IsFrozen(m: Meta, key: Key) {
    key.kind == Out && key.reference in m.freezes
  }

  /** `rows` lists the key of every label and of every freeze once. */
  ghost predicate Lists(rows: seq<Key>, m: Meta) {
    && (forall i, j :: 0 <= i < j < |rows| ==> rows[i] != rows[j])
    && (forall key :: key in rows <==> key in m.labels || IsFrozen(m, key))
  }

  function ExportedRow(w: Wallet, m: Meta, key: Key): Record {
    Record(key, if key in m.labels then Some(m.labels[key]) else None, if IsFrozen(m, key) then Some(false) else None,
           Some(w.origin))
  }

  function Exported(w: Wallet, m: Meta, rows: seq<Key>): seq<Record> {
    seq(|rows|, i requires 0 <= i < |rows| => ExportedRow(w, m, rows[i]))
  }

  /** The same wallet policy reads its own origin back. */
  ghost predicate SamePolicy(a: Wallet, b: Wallet) {
    a.origin == b.origin && b.normalize(b.origin) == Some(b.origin)
  }

  lemma {:induction false} MatchingExport(from: Wallet, w: Wallet, m: Meta, rows: seq<Key>)
    requires SamePolicy(from, w)
    ensures Matching(w, Exported(from, m, rows)) == Exported(from, m, KnownRows(w, rows))
  {
    if rows != [] {
      var shorter := rows[..|rows| - 1];
      MatchingExport(from, w, m, shorter);
      assert Exported(from, m, rows)[..|rows| - 1] == Exported(from, m, shorter);
    } else {
      assert Exported(from, m, rows) == [];
    }
  }

  function KnownRows(w: Wallet, rows: seq<Key>): (r: seq<Key>)
    ensures forall key :: key in r <==> key in rows && w.known(key)
  {
    if rows == [] then []
    else
      var last := rows[|rows| - 1];
      assert rows == rows[..|rows| - 1] + [last];
      KnownRows(w, rows[..|rows| - 1]) + if w.known(last) then [last] else []
  }

  lemma {:induction false} KnownRowsDistinct(w: Wallet, rows: seq<Key>)
    requires forall i, j :: 0 <= i < j < |rows| ==> rows[i] != rows[j]
    ensures var r := KnownRows(w, rows); forall i, j :: 0 <= i < j < |r| ==> r[i] != r[j]
  {
    if rows != [] {
      var shorter := rows[..|rows| - 1];
      KnownRowsDistinct(w, shorter);
      var last := rows[|rows| - 1];
      assert last !in shorter;
      assert forall i :: 0 <= i < |KnownRows(w, shorter)| ==> KnownRows(w, shorter)[i] in shorter;
    }
  }

  lemma ExportIsWellFormed(from: Wallet, w: Wallet, m: Meta, rows: seq<Key>)
    requires SamePolicy(from, w) && Lists(rows, m)
    ensures var matching := Matching(w, Exported(from, m, rows));
      DistinctKeys(matching) && WellFormed(matching) && matching == Exported(from, m, KnownRows(w, rows))
  {
    MatchingExport(from, w, m, rows);
    KnownRowsDistinct(w, rows);
  }

  /** Importing a wallet's own export changes nothing. */
  lemma ReimportChangesNothing(w: Wallet, m: Meta, rows: seq<Key>)
    requires SamePolicy(w, w) && Lists(rows, m)
    ensures var matching := Matching(w, Exported(w, m, rows));
      DistinctKeys(matching) && Patched(m, matching) == m && Changes(m, matching) == 0
  {
    ExportIsWellFormed(w, w, m, rows);
    SettledIsStable(m, Exported(w, m, KnownRows(w, rows)));
  }

  /** Into an empty wallet of the same policy, an export reproduces every row the wallet knows, and no other. */
  lemma ExportReproduces(from: Wallet, w: Wallet, m: Meta, rows: seq<Key>)
    requires SamePolicy(from, w) && Lists(rows, m)
    ensures var matching := Matching(w, Exported(from, m, rows));
      && DistinctKeys(matching)
      && Patched(Meta(map[], {}), matching) == Meta(
           map key | key in m.labels && w.known(key) :: m.labels[key],
           set f | f in m.freezes && w.known(Key(Out, f)))
  {
    ExportIsWellFormed(from, w, m, rows);
    var known := KnownRows(w, rows);
    PatchedExport(from, m, known);
    var after := Patched(Meta(map[], {}), Exported(from, m, known));
    forall f ensures f in after.freezes <==> f in m.freezes && w.known(Key(Out, f)) {
      assert IsFrozen(m, Key(Out, f)) <==> f in m.freezes;
    }
  }

  lemma {:induction false} PatchedExport(from: Wallet, m: Meta, rows: seq<Key>)
    ensures var after := Patched(Meta(map[], {}), Exported(from, m, rows));
      && after.labels == (map key | key in rows && key in m.labels :: m.labels[key])
      && (forall f :: f in after.freezes <==> f in m.freezes && Key(Out, f) in rows)
  {
    if rows != [] {
      var shorter, last := rows[..|rows| - 1], rows[|rows| - 1];
      PatchedExport(from, m, shorter);
      assert rows == shorter + [last];
      assert Exported(from, m, rows)[..|rows| - 1] == Exported(from, m, shorter);
    } else {
      assert Exported(from, m, rows) == [];
    }
  }

  // ---- The exported text ----

  /** The fields written for a record; an omitted field is left out altogether. */
  function FieldsOf(r: Record): Fields {
    var base: Fields := map["type" := Str(KindName(r.key.kind)), "ref" := Str(r.key.reference)];
    var tagged := if r.tag.Some? then base["label" := Str(r.tag.value)] else base;
    var marked := if r.spendable.Some? then tagged["spendable" := Bool(r.spendable.value)] else tagged;
    if r.origin.Some? then marked["origin" := Str(r.origin.value)] else marked
  }

  ghost predicate Writable(w: Wallet, r: Record) {
    && r.key.reference != "" && w.size(r.key.reference) <= MAX_REFERENCE
    && (r.tag.Some? ==> ValidLabel(r.tag.value))
    && (r.spendable.Some? ==> r.key.kind == Out)
    && (r.origin.Some? ==> w.size(r.origin.value) <= MAX_ORIGIN)
  }

  lemma FieldsReadBack(w: Wallet, r: Record)
    requires Writable(w, r)
    ensures ParseLine(w, Some(FieldsOf(r))) == Ok(Some(r))
  {
    hide ValidLabel;
    var fields := FieldsOf(r);
    FieldsContain(r);
    assert ParseTag(fields) == Ok(r.tag);
    assert ParseSpendable(fields, r.key.kind) == Ok(r.spendable);
    assert ParseOrigin(w, fields) == Ok(r.origin);
    assert ParseKnown(w, fields, r.key.kind) == Ok(r);
  }

  lemma FieldsContain(r: Record)
    ensures var fields := FieldsOf(r);
      && "type" in fields && fields["type"] == Str(KindName(r.key.kind))
      && "ref" in fields && fields["ref"] == Str(r.key.reference)
      && ("label" in fields <==> r.tag.Some?) && (r.tag.Some? ==> fields["label"] == Str(r.tag.value))
      && ("spendable" in fields <==> r.spendable.Some?) && (r.spendable.Some? ==> fields["spendable"] == Bool(r.spendable.value))
      && ("origin" in fields <==> r.origin.Some?) && (r.origin.Some? ==> fields["origin"] == Str(r.origin.value))
  {
    assert "type"[0] != "ref"[0] && "type"[0] != "label"[0] && "type"[0] != "spendable"[0] && "type"[0] != "origin"[0];
    assert "ref"[0] != "label"[0] && "ref"[0] != "spendable"[0] && "ref"[0] != "origin"[0];
    assert "label"[0] != "spendable"[0] && "label"[0] != "origin"[0] && "spendable"[0] != "origin"[0];
  }

  lemma {:induction false} AllRecordsKept(read: seq<Option<Record>>, records: seq<Record>)
    requires |read| == |records| && forall i :: 0 <= i < |read| ==> read[i] == Some(records[i])
    ensures Records(read) == records
  {
    if read != [] {
      AllRecordsKept(read[..|read| - 1], records[..|records| - 1]);
    }
  }

  /** Within the size limits the parser reads an exported file back record by record. */
  lemma ExportReadsBack(w: Wallet, m: Meta, rows: seq<Key>, size: nat)
    requires Lists(rows, m) && size <= MAX_FILE && |rows| <= MAX_RECORDS
    requires forall i :: 0 <= i < |rows| ==> Writable(w, ExportedRow(w, m, rows[i]))
    ensures var records := Exported(w, m, rows);
      exists read :: Readable(w, size, seq(|rows|, i requires 0 <= i < |rows| => Some(FieldsOf(records[i]))), read)
        && Records(read) == records
  {
    hide Writable, FieldsOf, ParseLine;
    var records := Exported(w, m, rows);
    var lines := seq(|rows|, i requires 0 <= i < |rows| => Some(FieldsOf(records[i])));
    var read := seq(|rows|, i requires 0 <= i < |rows| => Some(records[i]));
    forall i | 0 <= i < |rows| ensures ParseLine(w, lines[i]) == Ok(read[i]) {
      FieldsReadBack(w, records[i]);
    }
    AllRecordsKept(read, records);
    assert Readable(w, size, lines, read);
  }
}
