/** One QR scanning session: bounded frames in any order become one payload, or the session ends without one. */
module Qr {
  import opened Wrappers
  import opened ByteStrings

  const MAX_PAYLOAD: nat := 131_072
  const MAX_FRAME: nat := 4_296
  const MAX_FRAGMENTS: nat := 512
  const MAX_FRAMES: nat := 4_096
  const MAX_SCANNED: nat := 8 * 1_048_576

  datatype Encoding = Hex | Base32 | Zlib

  datatype FileType = PsbtFile | TransactionFile | Json | Cbor | UnicodeText | Binary | Executable

  /** A BBQr header; two frames belong together only if all of it agrees. */
  datatype Header = Header(encoding: Encoding, fileType: FileType, numParts: nat)

  datatype Purpose = SignedPsbt | Descriptor

  predicate AllowedType(purpose: Purpose, fileType: FileType) {
    match purpose
    case SignedPsbt => fileType == PsbtFile
    case Descriptor => fileType in {UnicodeText, Json}
  }

  predicate AllowedKind(purpose: Purpose, kind: string) {
    match purpose
    case SignedPsbt => kind in {"crypto-psbt", "psbt", "bytes"}
    case Descriptor => kind == "bytes"
  }

  /** What a UR part says of the whole message. */
  datatype UrIdentity = UrIdentity(kind: string, fragments: nat, length: nat, checksum: nat, fragmentBytes: nat)
  datatype UrPart = UrPart(identity: UrIdentity, sequence: nat, hash: Bytes)

  /** A scanned frame as its text libraries read it; `None` is a reading that failed. */
  datatype Frame =
    | Plain(bytes: Bytes, size: nat)
    | Bbqr(header: Option<Header>, index: Option<nat>, decoded: Option<Bytes>, size: nat)
    | UrSingle(kind: string, message: Option<Bytes>, size: nat)
    | UrMulti(kind: string, part: Option<UrPart>, size: nat)

  datatype Phase = Scanning | Complete | Cancelled | Failed

  datatype Stream =
    | Empty
    | UrStream(identity: UrIdentity, received: seq<UrPart>, seen: map<nat, Bytes>)
    | BbqrStream(header: Header, parts: map<nat, Bytes>, held: nat)
    | Payload(content: Bytes)

  datatype Fountain = Broken | Resolved(count: nat, total: nat) | Message(bytes: Option<Bytes>, total: nat)

  /** The visible code's libraries: what a payload must be, DEFLATE, and the fountain decoder. */
  datatype Library = Library(
    accept: (Bytes, bool) -> Option<Bytes>,
    inflate: Bytes -> Option<Bytes>,
    fountain: seq<UrPart> -> Fountain,
    purpose: Purpose)

  datatype Session = Session(frames: nat, bytes: nat, phase: Phase, resolved: nat, total: Option<nat>, stream: Stream)

  const START := Session(0, 0, Scanning, 0, None, Empty)

  // ---- One frame ----

  function FinishWith(lib: Library, s: Session, bytes: Bytes, binary: bool): (Session, bool) {
    if |bytes| > MAX_PAYLOAD then (s, false)
    else
      match lib.accept(bytes, binary)
      case None => (s, false)
      case Some(payload) =>
        var total := if s.total.None? then 1 else s.total.value;
        (s.(stream := Payload(payload), phase := Complete, total := Some(total), resolved := total), true)
  }

  /** The parts in index order. */
  function Joined(parts: map<nat, Bytes>, n: nat): Bytes {
    if n == 0 then [] else Joined(parts, n - 1) + if n - 1 in parts then parts[n - 1] else []
  }

  function Assemble(lib: Library, s: Session, header: Header, parts: map<nat, Bytes>): (Session, bool) {
    var data := Joined(parts, header.numParts);
    if header.encoding.Zlib? then
      match lib.inflate(data)
      case None => (s, false)
      case Some(inflated) => FinishWith(lib, s, inflated, lib.purpose.SignedPsbt?)
    else FinishWith(lib, s, data, lib.purpose.SignedPsbt?)
  }

  function TakePart(lib: Library, s: Session, header: Header, index: nat, decoded: Bytes): (Session, bool) {
    var stream := if s.stream.Empty? then BbqrStream(header, map[], 0) else s.stream;
    if !stream.BbqrStream? || stream.header != header then (s.(stream := stream), false)
    else if index in stream.parts then (s.(stream := stream), stream.parts[index] == decoded)
    else if stream.held + |decoded| > MAX_PAYLOAD then (s.(stream := stream), false)
    else
      var parts := stream.parts[index := decoded];
      var next := s.(
        stream := BbqrStream(header, parts, stream.held + |decoded|), resolved := |parts|, total := Some(header.numParts));
      if |parts| == header.numParts then Assemble(lib, next, header, parts) else (next, true)
  }

  function TakeBbqr(lib: Library, s: Session, frame: Frame): (Session, bool)
    requires frame.Bbqr?
  {
    if frame.header.None? || !(1 <= frame.header.value.numParts <= MAX_FRAGMENTS) then (s, false)
    else if !AllowedType(lib.purpose, frame.header.value.fileType) then (s, false)
    else if frame.index.None? || frame.index.value >= frame.header.value.numParts || frame.decoded.None? then (s, false)
    else TakePart(lib, s, frame.header.value, frame.index.value, frame.decoded.value)
  }

  function TakeUr(lib: Library, s: Session, part: UrPart): (Session, bool) {
    var stream := if s.stream.Empty? then UrStream(part.identity, [], map[]) else s.stream;
    if !stream.UrStream? || stream.identity != part.identity then (s.(stream := stream), false)
    else if part.sequence in stream.seen && stream.seen[part.sequence] != part.hash then (s.(stream := stream), false)
    else
      var received := stream.received + [part];
      var next := s.(stream := UrStream(part.identity, received, stream.seen[part.sequence := part.hash]));
      match lib.fountain(received)
      case Broken => (s.(stream := stream), false)
      case Resolved(count, total) => (next.(resolved := count, total := Some(total)), true)
      case Message(bytes, total) =>
        var done := next.(resolved := total, total := Some(total));
        if bytes.None? then (done, false) else FinishWith(lib, done, bytes.value, lib.purpose.SignedPsbt?)
  }

  /** The kind is read off the frame itself. */
  function OfKind(part: UrPart, kind: string): UrPart {
    part.(identity := part.identity.(kind := kind))
  }

  function Take(lib: Library, s: Session, frame: Frame): (Session, bool) {
    match frame
    case Plain(bytes, _) => if s.stream.Empty? && bytes != [] then FinishWith(lib, s, bytes, false) else (s, false)
    case Bbqr(_, _, _, _) => TakeBbqr(lib, s, frame)
    case UrSingle(kind, message, _) =>
      if !AllowedKind(lib.purpose, kind) || message.None? || !s.stream.Empty? then (s, false)
      else FinishWith(lib, s, message.value, lib.purpose.SignedPsbt?)
    case UrMulti(kind, part, _) =>
      if !AllowedKind(lib.purpose, kind) || part.None? then (s, false) else TakeUr(lib, s, OfKind(part.value, kind))
  }

  function ReceiveInner(lib: Library, s: Session, frame: Frame, expired: bool): (Session, bool) {
    if expired || s.frames >= MAX_FRAMES || frame.size > MAX_FRAME then (s, false)
    else
      var counted := s.(frames := s.frames + 1, bytes := s.bytes + frame.size);
      if counted.bytes > MAX_SCANNED then (counted, false) else Take(lib, counted, frame)
  }

  function Abandon(s: Session): Session {
    s.(stream := Empty, phase := Failed)
  }

  /**
   * A closed session refuses every frame; a failing frame closes it and drops what was
   * collected. `expired` is the clock before the frame and `late` the clock after it: the
   * progress that an accepted frame reports may already find the session expired.
   */
  function Receive(lib: Library, s: Session, frame: Frame, expired: bool, late: bool): (Session, bool) {
    if s.phase != Scanning then (s, false)
    else
      var (after, ok) := ReceiveInner(lib, s, frame, expired);
      if !ok then (Abandon(after), false)
      else if late && after.phase == Scanning then (Abandon(after), true)
      else (after, true)
  }

  function PayloadOf(s: Session): Option<Bytes> {
    if s.phase == Complete && s.stream.Payload? then Some(s.stream.content) else None
  }

  // ---- The object ----

  class QrDecoder {
    const lib: Library
    var frames: nat
    var bytes: nat
    var phase: Phase
    var resolved: nat
    var total: Option<nat>
    var stream: Stream

    function View(): Session
      reads this
    {
      Session(frames, bytes, phase, resolved, total, stream)
    }

    constructor (lib: Library)
      ensures this.lib == lib && View() == START
    {
      this.lib := lib;
      frames, bytes, phase, resolved, total, stream := 0, 0, Scanning, 0, None, Empty;
    }

    method Cancel()
      modifies this
      ensures View() == old(View()).(stream := Empty, phase := Cancelled)
    {
      stream, phase := Empty, Cancelled;
    }

    /** Reading progress may notice that the session has expired. */
    method Progress(expired: bool) returns (p: (Phase, nat, Option<nat>))
      modifies this
      ensures View() == if old(phase) == Scanning && expired then Abandon(old(View())) else old(View())
      ensures p == (phase, resolved, total)
    {
      if phase == Scanning && expired {
        stream, phase := Empty, Failed;
      }
      p := (phase, resolved, total);
    }

    method ReceiveFrame(frame: Frame, expired: bool, late: bool) returns (ok: bool)
      modifies this
      ensures (View(), ok) == Receive(lib, old(View()), frame, expired, late)
    {
      if phase != Scanning {
        return false;
      }
      ok := ReceiveOpen(frame, expired);
      if !ok {
        stream, phase := Empty, Failed;
        return;
      }
      var _ := Progress(late);
    }

    method ReceiveOpen(frame: Frame, expired: bool) returns (ok: bool)
      modifies this
      ensures (View(), ok) == ReceiveInner(lib, old(View()), frame, expired)
    {
      if expired || frames >= MAX_FRAMES || frame.size > MAX_FRAME {
        return false;
      }
      frames := frames + 1;
      bytes := bytes + frame.size;
      if bytes > MAX_SCANNED {
        return false;
      }
      match frame
      case Plain(content, _) =>
        if !stream.Empty? || content == [] {
          return false;
        }
        ok := Finish(content, false);
      case Bbqr(_, _, _, _) => ok := ReceiveBbqr(frame);
      case UrSingle(kind, message, _) =>
        if !AllowedKind(lib.purpose, kind) || message.None? || !stream.Empty? {
          return false;
        }
        ok := Finish(message.value, lib.purpose.SignedPsbt?);
      case UrMulti(kind, part, _) =>
        if !AllowedKind(lib.purpose, kind) || part.None? {
          return false;
        }
        ok := ReceiveUr(OfKind(part.value, kind));
    }

    method Finish(content: Bytes, binary: bool) returns (ok: bool)
      modifies this
      ensures (View(), ok) == FinishWith(lib, old(View()), content, binary)
    {
      if |content| > MAX_PAYLOAD {
        return false;
      }
      var accepted := lib.accept(content, binary);
      if accepted.None? {
        return false;
      }
      stream, phase := Payload(accepted.value), Complete;
      if total.None? {
        total := Some(1);
      }
      resolved := total.value;
      ok := true;
    }

    method ReceiveBbqr(frame: Frame) returns (ok: bool)
      requires frame.Bbqr?
      modifies this
      ensures (View(), ok) == TakeBbqr(lib, old(View()), frame)
    {
      hide FinishWith;
      if frame.header.None? || !(1 <= frame.header.value.numParts <= MAX_FRAGMENTS) {
        return false;
      }
      if !AllowedType(lib.purpose, frame.header.value.fileType) {
        return false;
      }
      var header := frame.header.value;
      if frame.index.None? || frame.index.value >= header.numParts || frame.decoded.None? {
        return false;
      }
      var index, decoded := frame.index.value, frame.decoded.value;
      if stream.Empty? {
        stream := BbqrStream(header, map[], 0);
      }
      if !stream.BbqrStream? || stream.header != header {
        return false;
      }
      if index in stream.parts {
        return stream.parts[index] == decoded;
      }
      if stream.held + |decoded| > MAX_PAYLOAD {
        return false;
      }
      var parts := stream.parts[index := decoded];
      stream := BbqrStream(header, parts, stream.held + |decoded|);
      resolved, total := |parts|, Some(header.numParts);
      if |parts| != header.numParts {
        return true;
      }
      var data: Bytes := [];
      for i := 0 to header.numParts
        invariant data == Joined(parts, i)
      {
        if i in parts {
          data := data + parts[i];
        }
      }
      if header.encoding.Zlib? {
        var inflated := lib.inflate(data);
        if inflated.None? {
          return false;
        }
        data := inflated.value;
      }
      ok := Finish(data, lib.purpose.SignedPsbt?);
    }

    method ReceiveUr(part: UrPart) returns (ok: bool)
      modifies this
      ensures (View(), ok) == TakeUr(lib, old(View()), part)
    {
      hide FinishWith;
      if stream.Empty? {
        stream := UrStream(part.identity, [], map[]);
      }
      if !stream.UrStream? || stream.identity != part.identity {
        return false;
      }
      if part.sequence in stream.seen && stream.seen[part.sequence] != part.hash {
        return false;
      }
      var received := stream.received + [part];
      var fountain := lib.fountain(received);
      if fountain.Broken? {
        return false;
      }
      stream := UrStream(part.identity, received, stream.seen[part.sequence := part.hash]);
      total := Some(fountain.total);
      resolved := if fountain.Message? then fountain.total else fountain.count;
      if fountain.Resolved? {
        return true;
      }
      if fountain.bytes.None? {
        return false;
      }
      ok := Finish(fountain.bytes.value, lib.purpose.SignedPsbt?);
    }
  }

  // ---- Sessions ----

  /** A run of frames, none of them late. */
  function Run(lib: Library, s: Session, frames: seq<Frame>): Session {
    if frames == [] then s else Receive(lib, Run(lib, s, frames[..|frames| - 1]), frames[|frames| - 1], false, false).0
  }

  /** Every frame belongs to one message: the same header, and for each index the same part. */
  ghost predicate Consistent(lib: Library, frames: seq<Frame>, header: Header, parts: seq<Bytes>) {
    && 1 <= header.numParts <= MAX_FRAGMENTS && AllowedType(lib.purpose, header.fileType) && |parts| == header.numParts
    && Size(parts) <= MAX_PAYLOAD
    && forall k :: 0 <= k < |frames| ==>
         && frames[k].Bbqr? && frames[k].header == Some(header) && frames[k].size <= MAX_FRAME
         && frames[k].index.Some? && frames[k].index.value < |parts|
         && frames[k].decoded == Some(parts[frames[k].index.value])
  }

  function Size(parts: seq<Bytes>): nat {
    if parts == [] then 0 else Size(parts[..|parts| - 1]) + |parts[|parts| - 1]|
  }

  function Scanned(frames: seq<Frame>): nat {
    if frames == [] then 0 else Scanned(frames[..|frames| - 1]) + frames[|frames| - 1].size
  }

  /** The indices seen so far. */
  function Seen(frames: seq<Frame>): set<nat> {
    set k | 0 <= k < |frames| && frames[k].Bbqr? && frames[k].index.Some? :: frames[k].index.value
  }

  function Concat(parts: seq<Bytes>): Bytes {
    if parts == [] then [] else Concat(parts[..|parts| - 1]) + parts[|parts| - 1]
  }

  function Below(n: nat): set<nat> {
    if n == 0 then {} else Below(n - 1) + {n - 1}
  }

  lemma {:induction false} BelowAll(n: nat)
    ensures |Below(n)| == n && forall i: nat :: i in Below(n) <==> i < n
  {
    if n > 0 {
      BelowAll(n - 1);
    }
  }

  /** Counting parts is enough: as many parts as indices means every index is present. */
  lemma FullMeansAll(keys: set<nat>, n: nat)
    requires forall i :: i in keys ==> i < n
    ensures |keys| == n <==> keys == Below(n)
    ensures |keys| <= n
  {
    BelowAll(n);
    assert keys <= Below(n);
    Subset(keys, Below(n));
  }

  lemma Subset(a: set<nat>, b: set<nat>)
    requires a <= b
    ensures |a| <= |b| && (|a| == |b| ==> a == b)
  {
    assert b == a + (b - a);
    assert |b| == |a| + |b - a|;
  }

  /** The byte count kept in the stream is the size of the distinct parts, so it stays within the whole. */
  function SizeOf(parts: seq<Bytes>, keys: set<nat>): nat {
    if parts == [] then 0
    else SizeOf(parts[..|parts| - 1], keys) + if |parts| - 1 in keys then |parts[|parts| - 1]| else 0
  }

  lemma {:induction false} SizeOfAdds(parts: seq<Bytes>, keys: set<nat>, i: nat)
    requires i !in keys
    ensures SizeOf(parts, keys + {i}) == SizeOf(parts, keys) + if i < |parts| then |parts[i]| else 0
    ensures SizeOf(parts, keys) <= Size(parts)
  {
    if parts != [] {
      SizeOfAdds(parts[..|parts| - 1], keys, i);
    }
  }

  lemma {:induction false} SizeOfBound(parts: seq<Bytes>, keys: set<nat>)
    ensures SizeOf(parts, keys) <= Size(parts)
  {
    if parts != [] {
      SizeOfBound(parts[..|parts| - 1], keys);
    }
  }

  lemma {:induction false} NothingKept(parts: seq<Bytes>)
    ensures SizeOf(parts, {}) == 0
  {
    if parts != [] {
      NothingKept(parts[..|parts| - 1]);
    }
  }

  lemma {:induction false} JoinedIsConcat(kept: map<nat, Bytes>, parts: seq<Bytes>, n: nat)
    requires n <= |parts| && forall i :: 0 <= i < n ==> i in kept && kept[i] == parts[i]
    ensures Joined(kept, n) == Concat(parts[..n])
  {
    if n > 0 {
      JoinedIsConcat(kept, parts, n - 1);
      assert parts[..n][..n - 1] == parts[..n - 1];
    }
  }

  /** The open session that has seen these frames. */
  ghost predicate Collected(s: Session, frames: seq<Frame>, header: Header, parts: seq<Bytes>) {
    && s.phase == Scanning && s.frames == |frames| && s.bytes == Scanned(frames)
    && (frames == [] ==> s.stream == Empty)
    && (frames != [] ==>
          && s.stream.BbqrStream? && s.stream.header == header && s.stream.parts.Keys == Seen(frames)
          && (forall i :: i in s.stream.parts ==> i < |parts| && s.stream.parts[i] == parts[i])
          && s.stream.held == SizeOf(parts, Seen(frames))
          && s.resolved == |Seen(frames)| && s.total == Some(header.numParts))
  }

  /** The whole message as the purpose accepts it. */
  function Assembled(lib: Library, header: Header, parts: seq<Bytes>): Option<Bytes> {
    var data := Concat(parts);
    if header.encoding.Zlib? then
      match lib.inflate(data)
      case None => None
      case Some(inflated) => if |inflated| > MAX_PAYLOAD then None else lib.accept(inflated, lib.purpose.SignedPsbt?)
    else if |data| > MAX_PAYLOAD then None
    else lib.accept(data, lib.purpose.SignedPsbt?)
  }

  lemma SeenGrows(frames: seq<Frame>, frame: Frame)
    requires frame.Bbqr? && frame.index.Some?
    ensures Seen(frames + [frame]) == Seen(frames) + {frame.index.value}
  {
    var longer := frames + [frame];
    assert longer[|frames|] == frame;
    forall i | i in Seen(frames) ensures i in Seen(longer) {
      var k :| 0 <= k < |frames| && frames[k].Bbqr? && frames[k].index.Some? && frames[k].index.value == i;
      assert longer[k] == frames[k];
    }
  }

  lemma SeenIsBounded(lib: Library, frames: seq<Frame>, header: Header, parts: seq<Bytes>)
    requires Consistent(lib, frames, header, parts)
    ensures forall i :: i in Seen(frames) ==> i < |parts|
  {
  }

  /** What the stream holds once it is open. */
  ghost predicate Holds(stream: Stream, seen: set<nat>, header: Header, parts: seq<Bytes>) {
    && stream.BbqrStream? && stream.header == header && stream.parts.Keys == seen
    && (forall i :: i in seen ==> i < |parts| && stream.parts[i] == parts[i])
    && stream.held == SizeOf(parts, seen)
  }

  function Opened(s: Session, header: Header): Stream {
    if s.stream.Empty? then BbqrStream(header, map[], 0) else s.stream
  }

  ghost predicate Expects(s: Session, seen: set<nat>, header: Header, parts: seq<Bytes>) {
    && s.phase == Scanning && Holds(Opened(s, header), seen, header, parts)
    && |parts| == header.numParts && Size(parts) <= MAX_PAYLOAD && seen != Below(|parts|)
    && (s.stream.BbqrStream? ==> s.resolved == |seen| && s.total == Some(header.numParts))
    && (s.stream.Empty? ==> seen == {})
  }

  /** Only the stream and the progress have moved, to what is now seen. */
  ghost predicate Kept(s: Session, after: Session, now: set<nat>, header: Header, parts: seq<Bytes>) {
    && Holds(after.stream, now, header, parts)
    && after == s.(stream := after.stream, resolved := |now|, total := Some(header.numParts))
  }

  lemma PartRepeated(lib: Library, s: Session, seen: set<nat>, header: Header, parts: seq<Bytes>, index: nat)
    requires Expects(s, seen, header, parts) && index < |parts| && index in seen
    ensures var (after, ok) := TakePart(lib, s, header, index, parts[index]); ok && Kept(s, after, seen, header, parts)
  {
    hide Size, SizeOf, Joined, Below, Assemble;
  }

  lemma PartAdded(lib: Library, s: Session, seen: set<nat>, header: Header, parts: seq<Bytes>, index: nat)
    requires Expects(s, seen, header, parts) && index < |parts| && index !in seen
    ensures var kept := Opened(s, header).parts[index := parts[index]];
      var next := s.(stream := BbqrStream(header, kept, SizeOf(parts, seen + {index})), resolved := |seen + {index}|,
                     total := Some(header.numParts));
      && Kept(s, next, seen + {index}, header, parts)
      && TakePart(lib, s, header, index, parts[index]) ==
           if seen + {index} == Below(|parts|) then Assemble(lib, next, header, kept) else (next, true)
  {
    hide Size, SizeOf, Joined, Below, Assemble, Assembled, Concat;
    var now := seen + {index};
    var stream := Opened(s, header);
    var kept := stream.parts[index := parts[index]];
    assert index !in stream.parts && stream.held == SizeOf(parts, seen);
    SizeOfAdds(parts, seen, index);
    SizeOfBound(parts, now);
    FullMeansAll(now, |parts|);
    assert kept.Keys == now && |kept| == |kept.Keys|;
  }

  lemma AssembledWhole(lib: Library, s: Session, header: Header, kept: map<nat, Bytes>, parts: seq<Bytes>)
    requires |parts| == header.numParts && kept.Keys == Below(|parts|) && forall i :: i in kept ==> i < |parts| && kept[i] == parts[i]
    ensures var (after, ok) := Assemble(lib, s, header, kept);
      && ok == Assembled(lib, header, parts).Some?
      && (ok ==> after.phase == Complete && PayloadOf(after) == Assembled(lib, header, parts))
  {
    hide Joined, Concat, Below;
    BelowAll(|parts|);
    JoinedIsConcat(kept, parts, |parts|);
    assert parts[..|parts|] == parts;
  }

  /** The last missing part completes or fails the session; any other part is kept. */
  lemma PartTaken(lib: Library, s: Session, seen: set<nat>, header: Header, parts: seq<Bytes>, index: nat)
    requires Expects(s, seen, header, parts) && index < |parts|
    ensures var (after, ok) := TakePart(lib, s, header, index, parts[index]);
      var now := seen + {index};
      && (now != Below(|parts|) ==> ok && Kept(s, after, now, header, parts))
      && (now == Below(|parts|) ==>
            ok == Assembled(lib, header, parts).Some?
            && (ok ==> after.phase == Complete && PayloadOf(after) == Assembled(lib, header, parts)))
  {
    hide TakePart, Below, Assembled, Assemble, SizeOf, Size;
    var now := seen + {index};
    if index in seen {
      assert now == seen;
      PartRepeated(lib, s, seen, header, parts, index);
    } else {
      PartAdded(lib, s, seen, header, parts, index);
      if now == Below(|parts|) {
        var kept := Opened(s, header).parts[index := parts[index]];
        var next := s.(stream := BbqrStream(header, kept, SizeOf(parts, now)), resolved := |now|, total := Some(header.numParts));
        AssembledWhole(lib, next, header, kept, parts);
      }
    }
  }

  /** One more consistent frame: the session collects it, or it was the last missing one. */
  lemma NextFrame(lib: Library, s: Session, frames: seq<Frame>, frame: Frame, header: Header, parts: seq<Bytes>)
    requires Consistent(lib, frames + [frame], header, parts) && Collected(s, frames, header, parts)
    requires |frames| < MAX_FRAMES && Scanned(frames + [frame]) <= MAX_SCANNED && Seen(frames) != Below(|parts|)
    ensures var (after, ok) := Receive(lib, s, frame, false, false);
      var all := Seen(frames + [frame]) == Below(|parts|);
      && (!all ==> ok && Collected(after, frames + [frame], header, parts))
      && (all ==> PayloadOf(after) == Assembled(lib, header, parts) && ok == Assembled(lib, header, parts).Some?)
      && (all ==> after.phase == (if ok then Complete else Failed))
  {
    var longer := frames + [frame];
    assert longer[|frames|] == frame && longer[..|frames|] == frames;
    SeenGrows(frames, frame);
    var counted := s.(frames := s.frames + 1, bytes := s.bytes + frame.size);
    CollectedExpects(s, counted, frames, header, parts);
    assert s.phase == Scanning && s.frames == |frames| && s.bytes + frame.size == Scanned(longer) by {
      ScannedGrows(frames, frame);
    }
    var (after, ok) := TakePart(lib, counted, header, frame.index.value, frame.decoded.value);
    hide Seen, Expects, Below, TakePart, Assembled, Scanned, Size, SizeOf, Collected, Kept;
    PartTaken(lib, counted, Seen(frames), header, parts, frame.index.value);
    FrameIsTaken(lib, s, frame, header);
    hide Receive;
    if Seen(longer) != Below(|parts|) {
      KeptIsCollected(counted, after, longer, header, parts);
    }
  }

  lemma KeptIsCollected(s: Session, after: Session, frames: seq<Frame>, header: Header, parts: seq<Bytes>)
    requires frames != [] && s.phase == Scanning && s.frames == |frames| && s.bytes == Scanned(frames)
    requires Kept(s, after, Seen(frames), header, parts)
    ensures Collected(after, frames, header, parts)
  {
    hide Seen, SizeOf, Scanned;
  }

  lemma ScannedGrows(frames: seq<Frame>, frame: Frame)
    ensures Scanned(frames + [frame]) == Scanned(frames) + frame.size
  {
    assert (frames + [frame])[..|frames|] == frames;
  }

  lemma CollectedExpects(s: Session, counted: Session, frames: seq<Frame>, header: Header, parts: seq<Bytes>)
    requires Collected(s, frames, header, parts) && counted == s.(frames := counted.frames, bytes := counted.bytes)
    requires |parts| == header.numParts && Size(parts) <= MAX_PAYLOAD && Seen(frames) != Below(|parts|)
    ensures Expects(counted, Seen(frames), header, parts)
  {
    hide Size, SizeOf, Below, Scanned;
    NothingKept(parts);
    assert frames == [] ==> Seen(frames) == {};
  }

  lemma FrameIsTaken(lib: Library, s: Session, frame: Frame, header: Header)
    requires s.phase == Scanning && s.frames < MAX_FRAMES && s.bytes + frame.size <= MAX_SCANNED && frame.size <= MAX_FRAME
    requires frame.Bbqr? && frame.header == Some(header) && 1 <= header.numParts <= MAX_FRAGMENTS
    requires AllowedType(lib.purpose, header.fileType)
    requires frame.index.Some? && frame.index.value < header.numParts && frame.decoded.Some?
    ensures var counted := s.(frames := s.frames + 1, bytes := s.bytes + frame.size);
      var (after, ok) := TakePart(lib, counted, header, frame.index.value, frame.decoded.value);
      Receive(lib, s, frame, false, false) == if ok then (after, true) else (Abandon(after), false)
  {
    hide TakePart;
  }

  ghost predicate InTime(frames: seq<Frame>) {
    |frames| <= MAX_FRAMES && Scanned(frames) <= MAX_SCANNED
  }

  lemma {:induction false} PrefixInTime(frames: seq<Frame>, k: nat)
    requires InTime(frames) && k <= |frames|
    ensures InTime(frames[..k])
    decreases |frames|
  {
    if k < |frames| {
      PrefixInTime(frames[..|frames| - 1], k);
      assert frames[..|frames| - 1][..k] == frames[..k];
    } else {
      assert frames[..k] == frames;
    }
  }

  lemma PrefixSeen(frames: seq<Frame>, k: nat)
    requires k <= |frames|
    ensures Seen(frames[..k]) <= Seen(frames)
  {
  }

  /** While an index is missing the session stays open and has kept exactly what it saw. */
  lemma {:induction false} OpenUntilComplete(lib: Library, frames: seq<Frame>, header: Header, parts: seq<Bytes>)
    requires Consistent(lib, frames, header, parts) && InTime(frames) && Seen(frames) != Below(|parts|)
    ensures Collected(Run(lib, START, frames), frames, header, parts)
  {
    hide Collected, Receive, Seen, Below, Scanned;
    if frames == [] {
      assert Collected(START, [], header, parts) by { StartIsCollected(header, parts); }
    } else {
      var n := |frames| - 1;
      PrefixInTime(frames, n);
      PrefixSeen(frames, n);
      SeenIsBounded(lib, frames, header, parts);
      BelowBounds(Seen(frames), |parts|);
      OpenUntilComplete(lib, frames[..n], header, parts);
      assert frames[..n] + [frames[n]] == frames;
      NextFrame(lib, Run(lib, START, frames[..n]), frames[..n], frames[n], header, parts);
    }
  }

  lemma BelowBounds(seen: set<nat>, n: nat)
    requires forall i :: i in seen ==> i < n
    ensures seen <= Below(n)
  {
    BelowAll(n);
  }

  lemma StartIsCollected(header: Header, parts: seq<Bytes>)
    ensures Collected(START, [], header, parts)
  {
  }

  /** A closed session is never changed by a frame, so nothing reopens it. */
  lemma {:induction false} ClosedIgnoresFrames(lib: Library, s: Session, frames: seq<Frame>)
    requires s.phase != Scanning
    ensures Run(lib, s, frames) == s
  {
    if frames != [] {
      ClosedIgnoresFrames(lib, s, frames[..|frames| - 1]);
    }
  }

  lemma {:induction false} RunSplits(lib: Library, s: Session, a: seq<Frame>, b: seq<Frame>)
    ensures Run(lib, s, a + b) == Run(lib, Run(lib, s, a), b)
  {
    hide Receive;
    if b == [] {
      assert a + b == a;
    } else {
      RunSplits(lib, s, a, b[..|b| - 1]);
      assert (a + b)[..|a + b| - 1] == a + b[..|b| - 1];
    }
  }

  /**
   * For any order and repetition of one message's frames, the session ends exactly when the
   * last missing index arrives, with the parts joined by index as the purpose accepts them,
   * and no later frame changes that.
   */
  lemma MessageIsAssembled(lib: Library, frames: seq<Frame>, k: nat, header: Header, parts: seq<Bytes>)
    requires k < |frames| && Consistent(lib, frames[..k + 1], header, parts) && InTime(frames[..k + 1])
    requires Seen(frames[..k]) != Below(|parts|) && Seen(frames[..k + 1]) == Below(|parts|)
    ensures Collected(Run(lib, START, frames[..k]), frames[..k], header, parts)
    ensures Run(lib, START, frames).phase == (if Assembled(lib, header, parts).Some? then Complete else Failed)
    ensures PayloadOf(Run(lib, START, frames)) == Assembled(lib, header, parts)
  {
    hide Receive, Seen, Below, Scanned, Assembled, Collected, Size, Run;
    var head := frames[..k + 1];
    assert head[..k] == frames[..k] && head == frames[..k] + [frames[k]];
    PrefixInTime(head, k);
    OpenUntilComplete(lib, frames[..k], header, parts);
    assert |frames[..k]| < MAX_FRAMES && Scanned(head) <= MAX_SCANNED;
    var before := Run(lib, START, frames[..k]);
    NextFrame(lib, before, frames[..k], frames[k], header, parts);
    var ended := Receive(lib, before, frames[k], false, false).0;
    RunLast(lib, START, head);
    hide Consistent, InTime, PayloadOf;
    ClosedIgnoresFrames(lib, ended, frames[k + 1..]);
    RunSplits(lib, START, head, frames[k + 1..]);
    assert frames == head + frames[k + 1..];
  }

  lemma RunLast(lib: Library, s: Session, frames: seq<Frame>)
    requires frames != []
    ensures Run(lib, s, frames) == Receive(lib, Run(lib, s, frames[..|frames| - 1]), frames[|frames| - 1], false, false).0
  {
    hide Receive;
  }

  /** Only a complete session has a payload, and a complete one always has. */
  ghost predicate Sane(s: Session) {
    (s.phase == Complete <==> s.stream.Payload?) && (s.phase in {Cancelled, Failed} ==> s.stream == Empty)
  }

  lemma FrameKeepsSane(lib: Library, s: Session, frame: Frame, expired: bool, late: bool)
    requires Sane(s)
    ensures var (after, ok) := Receive(lib, s, frame, expired, late);
      && Sane(after) && (!late ==> (ok <==> s.phase == Scanning && after.phase != Failed))
      && (s.phase == Scanning && (!ok || (late && after.phase != Complete)) ==> after.phase == Failed && PayloadOf(after) == None)
  {
    hide Joined;
  }

  /** A frame that belongs to another message, or contradicts a part, ends the session without a payload. */
  lemma ConflictFails(lib: Library, s: Session, frames: seq<Frame>, frame: Frame, later: seq<Frame>, header: Header,
                      parts: seq<Bytes>)
    requires Collected(s, frames, header, parts) && frames != []
    requires || !frame.Bbqr? || frame.header != Some(header) || frame.index.None? || frame.decoded.None?
             || (frame.index.value in Seen(frames) && frame.decoded.value != parts[frame.index.value])
    ensures var after := Run(lib, Receive(lib, s, frame, false, false).0, later);
      after.phase == Failed && PayloadOf(after) == None
  {
    var (after, ok) := Receive(lib, s, frame, false, false);
    assert after.phase == Failed by { hide Seen, SizeOf, FinishWith, Assemble, Scanned; }
    ClosedIgnoresFrames(lib, after, later);
  }

  /** Both file types of a descriptor are allowed, but never in one session. */
  lemma MixedFileTypesFail(lib: Library, encoding: Encoding, parts: seq<Bytes>, size: nat)
    requires lib.purpose.Descriptor? && |parts| == 2 && Size(parts) <= MAX_PAYLOAD && size <= MAX_FRAME
    ensures var text := Bbqr(Some(Header(encoding, UnicodeText, 2)), Some(0), Some(parts[0]), size);
      var json := Bbqr(Some(Header(encoding, Json, 2)), Some(1), Some(parts[1]), size);
      var after := Run(lib, START, [text, json]);
      after.phase == Failed && PayloadOf(after) == None
  {
    var header := Header(encoding, UnicodeText, 2);
    var text := Bbqr(Some(header), Some(0), Some(parts[0]), size);
    var json := Bbqr(Some(Header(encoding, Json, 2)), Some(1), Some(parts[1]), size);
    assert Consistent(lib, [text], header, parts);
    assert [text][..0] == [] && Scanned([text]) == size;
    assert Seen([text]) != Below(2) by {
      BelowAll(2);
      assert 1 in Below(2) && 1 !in Seen([text]);
    }
    hide Receive, Seen, Below, Collected, Consistent, Size;
    OpenUntilComplete(lib, [text], header, parts);
    assert [text, json][..1] == [text] && [text, json] == [text] + [json];
    RunLast(lib, START, [text, json]);
    var s := Run(lib, START, [text]);
    ConflictFails(lib, s, [text], json, [], header, parts);
  }
}
