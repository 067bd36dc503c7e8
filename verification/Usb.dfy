/** Ledger HID framing: 64-byte reports that carry a length-prefixed payload in sequence. */
module Usb {
  import opened Wrappers
  import opened ByteStrings
  import Psbts

  const REPORT: nat := 64
  const HEADER: nat := 5
  const ROOM: nat := REPORT - HEADER
  const MAX_RESPONSE: nat := 4096
  const MAX_U16: nat := 0xffff

  function BigEndian16(n: nat): Bytes
    requires n <= MAX_U16
  {
    [(n / 256) as byte, (n % 256) as byte]
  }

  function FromBigEndian16(high: byte, low: byte): nat {
    high as nat * 256 + low as nat
  }

  lemma BigEndianReads(n: nat)
    requires n <= MAX_U16
    ensures FromBigEndian16(BigEndian16(n)[0], BigEndian16(n)[1]) == n
  {
  }

  function Min(a: nat, b: nat): nat {
    if a < b then a else b
  }

  // ---- Sending ----

  function Framed(payload: Bytes): Bytes
    requires |payload| <= MAX_U16
  {
    BigEndian16(|payload|) + payload
  }

  function ReportCount(length: nat): nat {
    (length + ROOM - 1) / ROOM
  }

  /** The `k`-th piece of at most 59 bytes. */
  function Chunk(data: Bytes, k: nat): Bytes
    requires ROOM * k <= |data|
  {
    data[ROOM * k..Min(ROOM * k + ROOM, |data|)]
  }

  function Header(k: nat): Bytes
    requires k <= MAX_U16
  {
    [1, 1, 5] + BigEndian16(k)
  }

  function Report(data: Bytes, k: nat): Bytes
    requires ROOM * k <= |data| && k <= MAX_U16
  {
    var chunk := Chunk(data, k);
    Header(k) + chunk + seq(ROOM - |chunk|, _ => 0)
  }

  function CommandReports(apdu: Bytes): Result<seq<Bytes>, Psbts.Error> {
    if !(5 <= |apdu| <= 260) || apdu[4] as nat != |apdu| - 5 then Err(Psbts.InvalidInput)
    else
      var data := Framed(apdu);
      Ok(seq(ReportCount(|data|), k requires 0 <= k < ReportCount(|data|) => Report(data, k)))
  }

  // ---- Receiving ----

  datatype Reader = Reader(next: nat, expected: Option<nat>, data: Bytes, closed: bool)

  const START := Reader(0, None, [], false)

  predicate Addressed(r: Reader, report: Bytes) {
    && !r.closed && |report| == REPORT
    && report[..3] == [1, 1, 5] && FromBigEndian16(report[3], report[4]) == r.next
  }

  /** A report that is accepted moves the reader on; nothing is returned until the length is complete. */
  function Accept(r: Reader, report: Bytes): Result<(Reader, Option<Bytes>), Psbts.Error> {
    if !Addressed(r, report) then Err(Psbts.InvalidInput)
    else
      var size := FromBigEndian16(report[5], report[6]);
      if r.next == 0 && !(2 <= size <= MAX_RESPONSE) then Err(Psbts.InvalidInput)
      else
        var expected := if r.next == 0 then Some(size) else r.expected;
        var offset := if r.next == 0 then 7 else 5;
        if expected.None? || expected.value < |r.data| || r.next >= MAX_U16 then Err(Psbts.InvalidInput)
        else
          var data := r.data + report[offset..offset + Min(expected.value - |r.data|, REPORT - offset)];
          if |data| == expected.value then Ok((Reader(r.next + 1, expected, [], true), Some(data)))
          else Ok((Reader(r.next + 1, expected, data, false), None))
  }

  /** Any refusal closes the exchange and drops what was collected. */
  function Answer(r: Reader, report: Bytes): (Reader, Result<Option<Bytes>, Psbts.Error>) {
    match Accept(r, report)
    case Err(e) => (r.(data := [], closed := true), Err(e))
    case Ok((after, out)) => (after, Ok(out))
  }

  class ResponseReader {
    var next: nat
    var expected: Option<nat>
    var data: Bytes
    var closed: bool

    function View(): Reader
      reads this
    {
      Reader(next, expected, data, closed)
    }

    constructor ()
      ensures View() == START && Reachable(View())
    {
      next, expected, data, closed := 0, None, [], false;
    }

    method Receive(report: Bytes) returns (out: Result<Option<Bytes>, Psbts.Error>)
      requires Reachable(View())
      modifies this
      ensures (View(), out) == Answer(old(View()), report) && Reachable(View())
    {
      ReachableStep(View(), report);
      out := ReceiveInner(report);
      if out.Err? {
        closed, data := true, [];
      }
    }

    /** No field has moved when a reachable check fails. */
    method ReceiveInner(report: Bytes) returns (out: Result<Option<Bytes>, Psbts.Error>)
      requires Reachable(View())
      modifies this
      ensures match Accept(old(View()), report)
        case Err(e) => out == Err(e) && View() == old(View())
        case Ok((after, payload)) => out == Ok(payload) && View() == after
    {
      if closed || |report| != REPORT || report[..3] != [1, 1, 5] || FromBigEndian16(report[3], report[4]) != next {
        return Err(Psbts.InvalidInput);
      }
      var offset := 5;
      if next == 0 {
        var size := FromBigEndian16(report[5], report[6]);
        if !(2 <= size <= MAX_RESPONSE) {
          return Err(Psbts.InvalidInput);
        }
        expected := Some(size);
        offset := 7;
      }
      if expected.None? || expected.value < |data| {
        return Err(Psbts.InvalidInput);
      }
      var remaining := expected.value - |data|;
      data := data + report[offset..offset + Min(remaining, REPORT - offset)];
      if next >= MAX_U16 {
        return Err(Psbts.InvalidInput);
      }
      next := next + 1;
      if |data| == expected.value {
        var payload := data;
        data, closed := [], true;
        return Ok(Some(payload));
      }
      out := Ok(None);
    }
  }

  // ---- Runs ----

  /** The reader after a series of reports, and every answer it gave. */
  function Run(r: Reader, reports: seq<Bytes>): (Reader, seq<Result<Option<Bytes>, Psbts.Error>>)
  {
    if reports == [] then (r, [])
    else
      var (before, answers) := Run(r, reports[..|reports| - 1]);
      var (after, answer) := Answer(before, reports[|reports| - 1]);
      (after, answers + [answer])
  }

  lemma RunLast(r: Reader, reports: seq<Bytes>)
    requires reports != []
    ensures var before := Run(r, reports[..|reports| - 1]);
      var step := Answer(before.0, reports[|reports| - 1]);
      Run(r, reports) == (step.0, before.1 + [step.1])
  {
    hide Answer;
  }

  lemma {:induction false} RunLength(r: Reader, reports: seq<Bytes>)
    ensures |Run(r, reports).1| == |reports|
  {
    hide Answer;
    if reports != [] {
      RunLength(r, reports[..|reports| - 1]);
    }
  }

  /** Report `k` of the framed payload, whatever stands in its padding. */
  ghost predicate Carries(report: Bytes, payload: Bytes, k: nat)
    requires |payload| <= MAX_RESPONSE && ROOM * k <= |Framed(payload)| && k <= MAX_U16
  {
    var chunk := Chunk(Framed(payload), k);
    && |report| == REPORT && report[..HEADER] == Header(k) && report[HEADER..HEADER + |chunk|] == chunk
  }

  /** A full series of reports for a payload. */
  ghost predicate Series(reports: seq<Bytes>, payload: Bytes) {
    && 2 <= |payload| <= 4096 && |reports| == ReportCount(|payload| + 2)
    && forall k :: 0 <= k < |reports| ==> ROOM * k <= |payload| + 2 && k <= MAX_U16 && Carries(reports[k], payload, k)
  }

  /** The state after `k` reports of a series that is not complete. */
  function Partial(payload: Bytes, k: nat): Reader
    requires ROOM * k <= |payload| + 2
  {
    if k == 0 then START else Reader(k, Some(|payload|), payload[..ROOM * k - 2], false)
  }

  lemma CarriedIsAddressed(report: Bytes, payload: Bytes, k: nat)
    requires |payload| <= MAX_RESPONSE && ROOM * k <= |payload| + 2 && k <= MAX_U16 && Carries(report, payload, k)
    ensures Addressed(Partial(payload, k), report)
  {
    BigEndianReads(k);
    assert report[..HEADER][..3] == report[..3];
    assert report[3] == report[..HEADER][3] && report[4] == report[..HEADER][4];
  }

  lemma FirstReport(report: Bytes, payload: Bytes)
    requires 2 <= |payload| <= MAX_RESPONSE && Carries(report, payload, 0)
    ensures FromBigEndian16(report[5], report[6]) == |payload|
    ensures report[7..7 + Min(|payload|, REPORT - 7)] == payload[..Min(|payload|, REPORT - 7)]
  {
    BigEndianReads(|payload|);
    var framed := Framed(payload);
    var chunk := Chunk(framed, 0);
    assert report[HEADER..HEADER + |chunk|] == framed[..|chunk|];
    assert report[5] == chunk[0] && report[6] == chunk[1];
    assert chunk[2..] == payload[..|chunk| - 2];
    assert report[7..HEADER + |chunk|] == chunk[2..];
  }

  lemma LaterReport(report: Bytes, payload: Bytes, k: nat)
    requires 2 <= |payload| <= MAX_RESPONSE && 0 < k <= MAX_U16 && ROOM * k < |payload| + 2 && Carries(report, payload, k)
    ensures var at := ROOM * k - 2; var more := Min(|payload| - at, ROOM);
      report[5..5 + more] == payload[at..at + more]
  {
    var framed := Framed(payload);
    assert framed[ROOM * k..Min(ROOM * k + ROOM, |framed|)] == payload[ROOM * k - 2..Min(ROOM * k + ROOM, |framed|) - 2];
  }

  lemma PartialStep(report: Bytes, payload: Bytes, k: nat)
    requires 2 <= |payload| <= MAX_RESPONSE && ROOM * k < |payload| + 2 && k < MAX_U16 && Carries(report, payload, k)
    ensures var (after, answer) := Answer(Partial(payload, k), report);
      if ROOM * (k + 1) < |payload| + 2 then after == Partial(payload, k + 1) && answer == Ok(None)
      else after.closed && answer == Ok(Some(payload))
  {
    CarriedIsAddressed(report, payload, k);
    hide Carries, Addressed, FromBigEndian16, Header;
    assert payload[..|payload|] == payload;
    if k == 0 {
      FirstReport(report, payload);
      assert [] + payload[..Min(|payload|, REPORT - 7)] == payload[..Min(|payload|, REPORT - 7)];
    } else {
      LaterReport(report, payload, k);
      var at := ROOM * k - 2;
      var more := Min(|payload| - at, ROOM);
      assert payload[..at] + payload[at..at + more] == payload[..at + more];
    }
  }

  lemma {:induction false} SeriesPrefix(reports: seq<Bytes>, payload: Bytes, k: nat)
    requires Series(reports, payload) && k < |reports|
    ensures var (r, answers) := Run(START, reports[..k]);
      r == Partial(payload, k) && |answers| == k && forall i :: 0 <= i < k ==> answers[i] == Ok(None)
  {
    hide Carries, Answer;
    if k > 0 {
      SeriesPrefix(reports, payload, k - 1);
      assert reports[..k][..k - 1] == reports[..k - 1];
      PartialStep(reports[k - 1], payload, k - 1);
    }
  }

  lemma SeriesLast(reports: seq<Bytes>, payload: Bytes)
    requires Series(reports, payload)
    ensures var n := |reports| - 1;
      && 0 <= n < MAX_U16 && 2 <= |payload| <= MAX_RESPONSE
      && ROOM * n < |payload| + 2 <= ROOM * (n + 1) && Carries(reports[n], payload, n)
  {
    hide Carries;
  }

  /** Any payload of 2 to 4096 bytes comes back whole, on report ceil((n + 2) / 59) and nothing earlier. */
  lemma SeriesIsRead(reports: seq<Bytes>, payload: Bytes)
    requires Series(reports, payload)
    ensures Run(START, reports).0.closed && |Run(START, reports).1| == |reports|
    ensures reports != [] && Run(START, reports).1[|reports| - 1] == Ok(Some(payload))
    ensures forall i :: 0 <= i < |reports| - 1 ==> Run(START, reports).1[i] == Ok(None)
  {
    SeriesLast(reports, payload);
    var n := |reports| - 1;
    RunLast(START, reports);
    SeriesPrefix(reports, payload, n);
    LastStep(reports[n], payload, n);
    hide *;
    LastAnswers(Run(START, reports[..n]).1, Answer(Partial(payload, n), reports[n]).1, n, payload);
  }

  lemma LastStep(report: Bytes, payload: Bytes, n: nat)
    requires 2 <= |payload| <= MAX_RESPONSE && n < MAX_U16 && ROOM * n < |payload| + 2 <= ROOM * (n + 1)
    requires Carries(report, payload, n)
    ensures Answer(Partial(payload, n), report).0.closed
    ensures Answer(Partial(payload, n), report).1 == Ok(Some(payload))
  {
    hide Carries, Answer, Partial;
    PartialStep(report, payload, n);
  }

  lemma LastAnswers(answers: seq<Result<Option<Bytes>, Psbts.Error>>, last: Result<Option<Bytes>, Psbts.Error>, n: nat, payload: Bytes)
    requires |answers| == n && last == Ok(Some(payload)) && forall i :: 0 <= i < n ==> answers[i] == Ok(None)
    ensures var all := answers + [last];
      |all| == n + 1 && all[n] == Ok(Some(payload)) && forall i :: 0 <= i < n ==> all[i] == Ok(None)
  {
  }

  /** Commands are framed so that the response reader inverts the framing. */
  lemma CommandRoundTrip(apdu: Bytes)
    requires CommandReports(apdu).Ok?
    ensures Series(CommandReports(apdu).value, apdu)
  {
    var reports := CommandReports(apdu).value;
    var data := Framed(apdu);
    forall k | 0 <= k < |reports|
      ensures ROOM * k <= |apdu| + 2 && k <= MAX_U16 && Carries(reports[k], apdu, k)
    {
      var chunk := Chunk(data, k);
      assert reports[k] == Header(k) + chunk + seq(ROOM - |chunk|, _ => 0);
      assert |Header(k)| == HEADER;
    }
  }

  lemma CommandsAreRead(apdu: Bytes)
    requires 5 <= |apdu| <= 260 && apdu[4] as nat == |apdu| - 5
    ensures CommandReports(apdu).Ok?
    ensures var (r, answers) := Run(START, CommandReports(apdu).value);
      |answers| > 0 && answers[|answers| - 1] == Ok(Some(apdu)) && r.closed
  {
    CommandRoundTrip(apdu);
    SeriesIsRead(CommandReports(apdu).value, apdu);
  }

  // ---- Refusals ----

  /** What every reader reached from the start satisfies: the length is known once a report was accepted. */
  ghost predicate Reachable(r: Reader) {
    r.closed ||
    (if r.next == 0 then r.expected.None? && r.data == []
     else r.expected.Some? && 2 <= r.expected.value <= MAX_RESPONSE && |r.data| == ROOM * r.next - 2 < r.expected.value)
  }

  lemma ReachableStep(r: Reader, report: Bytes)
    requires Reachable(r)
    ensures Reachable(Answer(r, report).0)
  {
    if Accept(r, report).Ok? {
      var size := FromBigEndian16(report[5], report[6]);
      hide FromBigEndian16;
      assert r.next != 0 ==> |r.data| == ROOM * r.next - 2;
      assert r.next == 0 ==> 2 <= size <= MAX_RESPONSE;
    }
  }

  lemma {:induction false} RunsAreReachable(reports: seq<Bytes>)
    ensures Reachable(Run(START, reports).0)
  {
    if reports != [] {
      RunsAreReachable(reports[..|reports| - 1]);
      ReachableStep(Run(START, reports[..|reports| - 1]).0, reports[|reports| - 1]);
    }
  }

  /** The checks for a missing length, an overlong payload and a sequence overflow never fire. */
  lemma InnerChecksAreUnreachable(r: Reader, report: Bytes)
    requires Reachable(r) && Addressed(r, report)
    ensures r.next != 0 ==> r.expected.Some? && |r.data| <= r.expected.value
    ensures r.next < MAX_U16
    ensures Accept(r, report).Err? <==> r.next == 0 && !(2 <= FromBigEndian16(report[5], report[6]) <= 4096)
  {
  }

  /** A closed exchange stays closed: no report is ever answered with a payload again. */
  lemma {:induction false} ClosedForGood(r: Reader, reports: seq<Bytes>)
    requires r.closed
    ensures Run(r, reports).0.closed && |Run(r, reports).1| == |reports|
    ensures forall i :: 0 <= i < |reports| ==> Run(r, reports).1[i].Err?
  {
    if reports != [] {
      ClosedForGood(r, reports[..|reports| - 1]);
    }
  }

  /** An unexpected channel, tag, length or sequence number, or a bad size, closes the exchange. */
  lemma DeviationCloses(r: Reader, report: Bytes)
    requires !Addressed(r, report) || (r.next == 0 && !(2 <= FromBigEndian16(report[5], report[6]) <= 4096))
    ensures Answer(r, report).1.Err? && Answer(r, report).0.closed && Answer(r, report).0.data == []
  {
  }

  lemma {:induction false} RunSplits(r: Reader, a: seq<Bytes>, b: seq<Bytes>)
    ensures Run(r, a + b).0 == Run(Run(r, a).0, b).0
    ensures Run(r, a + b).1 == Run(r, a).1 + Run(Run(r, a).0, b).1
  {
    hide Answer;
    if b == [] {
      assert a + b == a;
    } else {
      RunSplits(r, a, b[..|b| - 1]);
      assert (a + b)[..|a + b| - 1] == a + b[..|b| - 1];
      RunLast(r, a + b);
      RunLast(Run(r, a).0, b);
      hide Run;
    }
  }

  /** After a payload or a refusal every later answer is a refusal; so a run yields at most one payload. */
  lemma AtMostOnePayload(reports: seq<Bytes>, i: nat, j: nat)
    requires i < j < |reports| && i < |Run(START, reports).1|
    requires Run(START, reports).1[i] != Ok(None)
    ensures |Run(START, reports).1| == |reports| && Run(START, reports).1[j].Err?
  {
    hide Run;
    RunLength(START, reports);
    var head, tail := reports[..i + 1], reports[i + 1..];
    assert reports == head + tail;
    RunSplits(START, head, tail);
    RunLength(START, head);
    RunLength(START, head[..i]);
    RunLength(Run(START, head).0, tail);
    RunLast(START, head);
    var (before, _) := Run(START, head[..i]);
    assert Run(START, reports).1[i] == Run(START, head).1[i];
    assert Run(START, head).0 == Answer(before, reports[i]).0;
    ClosedForGood(Run(START, head).0, tail);
    assert Run(START, reports).1[j] == Run(Run(START, head).0, tail).1[j - i - 1];
  }
}
