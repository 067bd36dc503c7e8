/**
 * The bounded pre-scan of a binary PSBT, as a cursor over bytes. Its grammar is the
 * container of BIP 174, section "Specification": magic, then maps of key-value fields,
 * each map closed by a zero byte, one global map and one map per input and output.
 */
module Container {
  import opened Wrappers
  import opened ByteStrings

  const MAX_PSBT_BYTES: nat := 1_048_576
  const MAX_INPUTS: nat := 200
  const MAX_OUTPUTS: nat := 400
  const MAX_SCRIPT: nat := 10_000
  const MAX_FIELDS: nat := 64
  const MAX_KEY: nat := 256
  const MAGIC: Bytes := [0x70, 0x73, 0x62, 0x74, 0xff]
  const TWO_64: nat := 0x1_0000_0000_0000_0000

  // ---- Cursor primitives ----

  function Take(s: Bytes, n: nat): Option<(Bytes, Bytes)> {
    if n <= |s| then Some((s[..n], s[n..])) else None
  }

  /** The number of bytes that follow the first byte of a compact size. */
  function SizeWidth(first: byte): nat {
    if first < 0xFD then 0 else if first == 0xFD then 2 else if first == 0xFE then 4 else 8
  }

  /** The least number that needs this width; anything smaller is not minimal. */
  function SizeFloor(width: nat): nat {
    if width == 2 then 0xFD else if width == 4 then 0x1_0000 else 0x1_0000_0000
  }

  /** Decode a minimal compact size and advance. */
  function ReadSize(s: Bytes): (r: Option<(nat, Bytes)>)
    ensures r.Some? ==> |r.value.1| < |s|
  {
    if s == [] then None
    else
      var width := SizeWidth(s[0]);
      if width == 0 then Some((s[0], s[1..]))
      else if |s| < 1 + width then None
      else
        var n := FromLittleEndian(s[1..1 + width]);
        if n < SizeFloor(width) then None else Some((n, s[1 + width..]))
  }

  function EncodeSize(n: nat): (r: Bytes)
    requires n < TWO_64
    ensures r != []
  {
    if n < 0xFD then [n]
    else if n < 0x1_0000 then [0xFD] + ToLittleEndian(n, 2)
    else if n < 0x1_0000_0000 then [0xFE] + ToLittleEndian(n, 4)
    else [0xFF] + ToLittleEndian(n, 8)
  }

  lemma Powers()
    ensures Pow256(2) == 0x1_0000 && Pow256(4) == 0x1_0000_0000 && Pow256(8) == TWO_64
  {
    assert Pow256(1) == 256 && Pow256(3) == 0x100_0000 && Pow256(5) == 0x100_0000_0000;
    assert Pow256(6) == 0x1_0000_0000_0000 && Pow256(7) == 0x100_0000_0000_0000;
  }

  lemma ReadSizeComplete(n: nat, rest: Bytes)
    requires n < TWO_64
    ensures ReadSize(EncodeSize(n) + rest) == Some((n, rest))
  {
    Powers();
    var s := EncodeSize(n) + rest;
    var width := SizeWidth(s[0]);
    if width != 0 {
      LittleEndianReads(n, width);
      assert s[1..1 + width] == ToLittleEndian(n, width);
    }
    assert s[1 + width..] == rest;
  }

  lemma ReadSizeSound(s: Bytes)
    requires ReadSize(s).Some?
    ensures var (n, rest) := ReadSize(s).value;
      n < TWO_64 && s == EncodeSize(n) + rest
  {
    Powers();
    var width := SizeWidth(s[0]);
    if width != 0 {
      LittleEndianWrites(s[1..1 + width]);
      assert s == [s[0]] + s[1..1 + width] + s[1 + width..];
    } else {
      assert s == [s[0]] + s[1..];
    }
  }

  // ---- The unsigned transaction ----

  datatype RawInput = RawInput(outpoint: Bytes, sequence: Bytes)
  datatype RawOutput = RawOutput(value: Bytes, script: Bytes)
  datatype RawTx = RawTx(version: Bytes, inputs: seq<RawInput>, outputs: seq<RawOutput>, lockTime: Bytes)

  ghost predicate ValidInput(input: RawInput) {
    |input.outpoint| == 36 && |input.sequence| == 4
  }

  ghost predicate ValidOutput(output: RawOutput) {
    |output.value| == 8 && |output.script| <= MAX_SCRIPT
  }

  ghost predicate ValidTx(tx: RawTx) {
    && |tx.version| == 4 && |tx.lockTime| == 4
    && 1 <= |tx.inputs| <= MAX_INPUTS && 1 <= |tx.outputs| <= MAX_OUTPUTS
    && (forall i :: 0 <= i < |tx.inputs| ==> ValidInput(tx.inputs[i]))
    && (forall i :: 0 <= i < |tx.outputs| ==> ValidOutput(tx.outputs[i]))
  }

  /** Legacy serialization with an empty scriptSig. */
  ghost function EncodeInput(input: RawInput): Bytes {
    input.outpoint + [0] + input.sequence
  }

  ghost function EncodeOutput(output: RawOutput): Bytes
    requires ValidOutput(output)
  {
    output.value + EncodeSize(|output.script|) + output.script
  }

  ghost function EncodeInputs(inputs: seq<RawInput>): Bytes {
    if inputs == [] then [] else EncodeInput(inputs[0]) + EncodeInputs(inputs[1..])
  }

  ghost function EncodeOutputs(outputs: seq<RawOutput>): Bytes
    requires forall i :: 0 <= i < |outputs| ==> ValidOutput(outputs[i])
  {
    if outputs == [] then [] else EncodeOutput(outputs[0]) + EncodeOutputs(outputs[1..])
  }

  ghost function EncodeTx(tx: RawTx): Bytes
    requires ValidTx(tx)
  {
    tx.version + (EncodeSize(|tx.inputs|) + (EncodeInputs(tx.inputs) +
      (EncodeSize(|tx.outputs|) + (EncodeOutputs(tx.outputs) + tx.lockTime))))
  }

  function ReadInput(s: Bytes): Option<(RawInput, Bytes)> {
    match Take(s, 36)
    case None => None
    case Some((outpoint, afterOutpoint)) =>
      match ReadSize(afterOutpoint)
      case None => None
      case Some((scriptSig, afterSize)) =>
        if scriptSig != 0 then None
        else
          match Take(afterSize, 4)
          case None => None
          case Some((sequence, rest)) => Some((RawInput(outpoint, sequence), rest))
  }

  function ReadOutput(s: Bytes): Option<(RawOutput, Bytes)> {
    match Take(s, 8)
    case None => None
    case Some((value, afterValue)) =>
      match ReadSize(afterValue)
      case None => None
      case Some((size, afterSize)) =>
        if size > MAX_SCRIPT then None
        else
          match Take(afterSize, size)
          case None => None
          case Some((script, rest)) => Some((RawOutput(value, script), rest))
  }

  lemma ReadInputComplete(input: RawInput, rest: Bytes)
    requires ValidInput(input)
    ensures ReadInput(EncodeInput(input) + rest) == Some((input, rest))
  {
    var s := EncodeInput(input) + rest;
    assert s[..36] == input.outpoint;
    assert s[36..] == EncodeSize(0) + (input.sequence + rest);
    ReadSizeComplete(0, input.sequence + rest);
    assert (input.sequence + rest)[..4] == input.sequence && (input.sequence + rest)[4..] == rest;
  }

  lemma ReadInputSound(s: Bytes)
    requires ReadInput(s).Some?
    ensures var (input, rest) := ReadInput(s).value;
      ValidInput(input) && s == EncodeInput(input) + rest
  {
    ReadSizeSound(s[36..]);
    var rest := s[37..];
    assert s == s[..36] + s[36..];
    assert s[36..] == [0] + rest;
    assert rest == rest[..4] + rest[4..];
  }

  lemma ReadOutputComplete(output: RawOutput, rest: Bytes)
    requires ValidOutput(output)
    ensures ReadOutput(EncodeOutput(output) + rest) == Some((output, rest))
  {
    var s := EncodeOutput(output) + rest;
    assert s[..8] == output.value;
    assert s[8..] == EncodeSize(|output.script|) + (output.script + rest);
    ReadSizeComplete(|output.script|, output.script + rest);
    var tail := output.script + rest;
    assert tail[..|output.script|] == output.script && tail[|output.script|..] == rest;
  }

  lemma Regroup(value: Bytes, size: Bytes, script: Bytes, rest: Bytes)
    ensures value + (size + (script + rest)) == (value + size + script) + rest
  {
  }

  lemma ReadOutputSound(s: Bytes)
    requires ReadOutput(s).Some?
    ensures var (output, rest) := ReadOutput(s).value;
      ValidOutput(output) && s == EncodeOutput(output) + rest
  {
    ReadSizeSound(s[8..]);
    var (size, tail) := ReadSize(s[8..]).value;
    var script, rest := tail[..size], tail[size..];
    assert ReadOutput(s).value == (RawOutput(s[..8], script), rest);
    hide ReadSize, EncodeSize, ReadOutput;
    assert s == s[..8] + s[8..];
    assert tail == script + rest && |script| == size;
    Regroup(s[..8], EncodeSize(size), script, rest);
  }

  function ReadInputs(s: Bytes, n: nat): (r: Option<(seq<RawInput>, Bytes)>)
    ensures r.Some? ==> |r.value.0| == n
  {
    if n == 0 then Some(([], s))
    else
      match ReadInput(s)
      case None => None
      case Some((first, afterFirst)) =>
        match ReadInputs(afterFirst, n - 1)
        case None => None
        case Some((others, rest)) => Some(([first] + others, rest))
  }

  function ReadOutputs(s: Bytes, n: nat): (r: Option<(seq<RawOutput>, Bytes)>)
    ensures r.Some? ==> |r.value.0| == n
  {
    if n == 0 then Some(([], s))
    else
      match ReadOutput(s)
      case None => None
      case Some((first, afterFirst)) =>
        match ReadOutputs(afterFirst, n - 1)
        case None => None
        case Some((others, rest)) => Some(([first] + others, rest))
  }

  lemma {:induction false} ReadInputsComplete(inputs: seq<RawInput>, rest: Bytes)
    requires forall i :: 0 <= i < |inputs| ==> ValidInput(inputs[i])
    ensures ReadInputs(EncodeInputs(inputs) + rest, |inputs|) == Some((inputs, rest))
  {
    if inputs == [] {
      assert EncodeInputs(inputs) + rest == rest;
    } else {
      var tail := EncodeInputs(inputs[1..]) + rest;
      assert EncodeInputs(inputs) + rest == EncodeInput(inputs[0]) + tail;
      ReadInputComplete(inputs[0], tail);
      assert inputs == [inputs[0]] + inputs[1..];
      ReadInputsComplete(inputs[1..], rest);
    }
  }

  lemma {:induction false} ReadInputsSound(s: Bytes, n: nat)
    requires ReadInputs(s, n).Some?
    ensures var (inputs, rest) := ReadInputs(s, n).value;
      && (forall i :: 0 <= i < |inputs| ==> ValidInput(inputs[i]))
      && s == EncodeInputs(inputs) + rest
    decreases n
  {
    hide ReadInput, EncodeInput, ValidInput;
    if n != 0 {
      ReadInputSound(s);
      var (first, afterFirst) := ReadInput(s).value;
      ReadInputsSound(afterFirst, n - 1);
      var (others, rest) := ReadInputs(afterFirst, n - 1).value;
      PrependInput(s, first, afterFirst, others, rest);
    } else {
      assert s == [] + s;
    }
  }

  lemma PrependInput(s: Bytes, first: RawInput, afterFirst: Bytes, others: seq<RawInput>, rest: Bytes)
    requires ValidInput(first) && forall i :: 0 <= i < |others| ==> ValidInput(others[i])
    requires s == EncodeInput(first) + afterFirst && afterFirst == EncodeInputs(others) + rest
    ensures s == EncodeInputs([first] + others) + rest
    ensures forall i :: 0 <= i < |others| + 1 ==> ValidInput(([first] + others)[i])
  {
    hide EncodeInput, ValidInput;
    assert ([first] + others)[1..] == others;
    assert s == EncodeInput(first) + (EncodeInputs(others) + rest);
  }

  lemma {:induction false} ReadOutputsComplete(outputs: seq<RawOutput>, rest: Bytes)
    requires forall i :: 0 <= i < |outputs| ==> ValidOutput(outputs[i])
    ensures ReadOutputs(EncodeOutputs(outputs) + rest, |outputs|) == Some((outputs, rest))
  {
    if outputs == [] {
      assert EncodeOutputs(outputs) + rest == rest;
    } else {
      var tail := EncodeOutputs(outputs[1..]) + rest;
      assert EncodeOutputs(outputs) + rest == EncodeOutput(outputs[0]) + tail;
      ReadOutputComplete(outputs[0], tail);
      assert outputs == [outputs[0]] + outputs[1..];
      ReadOutputsComplete(outputs[1..], rest);
    }
  }

  lemma PrependOutput(s: Bytes, first: RawOutput, afterFirst: Bytes, others: seq<RawOutput>, rest: Bytes)
    requires ValidOutput(first) && forall i :: 0 <= i < |others| ==> ValidOutput(others[i])
    requires s == EncodeOutput(first) + afterFirst && afterFirst == EncodeOutputs(others) + rest
    ensures forall i :: 0 <= i <= |others| ==> ValidOutput(([first] + others)[i])
    ensures s == EncodeOutputs([first] + others) + rest
  {
    hide EncodeOutput, ValidOutput;
    var all := [first] + others;
    forall i | 0 <= i < |all| ensures ValidOutput(all[i]) {
      assert i > 0 ==> all[i] == others[i - 1];
    }
    assert all[0] == first && all[1..] == others;
    assert EncodeOutputs(all) == EncodeOutput(first) + EncodeOutputs(others);
    hide EncodeOutputs;
    Associate(EncodeOutput(first), EncodeOutputs(others), rest);
  }

  lemma Associate(a: Bytes, b: Bytes, c: Bytes)
    ensures a + (b + c) == (a + b) + c
  {
  }

  lemma {:induction false} ReadOutputsSound(s: Bytes, n: nat)
    requires ReadOutputs(s, n).Some?
    ensures forall i :: 0 <= i < n ==> ValidOutput(ReadOutputs(s, n).value.0[i])
    ensures s == EncodeOutputs(ReadOutputs(s, n).value.0) + ReadOutputs(s, n).value.1
  {
    if n == 0 {
      assert s == [] + s;
    } else {
      ReadOutputSound(s);
      var (first, afterFirst) := ReadOutput(s).value;
      ReadOutputsSound(afterFirst, n - 1);
      var (others, rest) := ReadOutputs(afterFirst, n - 1).value;
      PrependOutput(s, first, afterFirst, others, rest);
    }
  }

  function ReadTx(s: Bytes): Option<RawTx> {
    match Take(s, 4)
    case None => None
    case Some((version, afterVersion)) =>
      match ReadSize(afterVersion)
      case None => None
      case Some((inputCount, afterInputCount)) =>
        if !(1 <= inputCount <= MAX_INPUTS) then None
        else
          match ReadInputs(afterInputCount, inputCount)
          case None => None
          case Some((inputs, afterInputs)) =>
            match ReadTxOutputs(afterInputs)
            case None => None
            case Some((outputs, lockTime)) => Some(RawTx(version, inputs, outputs, lockTime))
  }

  function ReadTxOutputs(s: Bytes): Option<(seq<RawOutput>, Bytes)> {
    match ReadSize(s)
    case None => None
    case Some((outputCount, afterCount)) =>
      if !(1 <= outputCount <= MAX_OUTPUTS) then None
      else
        match ReadOutputs(afterCount, outputCount)
        case None => None
        case Some((outputs, lockTime)) => if |lockTime| == 4 then Some((outputs, lockTime)) else None
  }

  lemma ReadTxComplete(tx: RawTx)
    requires ValidTx(tx)
    ensures ReadTx(EncodeTx(tx)) == Some(tx)
  {
    var locked := EncodeOutputs(tx.outputs) + tx.lockTime;
    var outputs := EncodeSize(|tx.outputs|) + locked;
    var inputs := EncodeInputs(tx.inputs) + outputs;
    var counted := EncodeSize(|tx.inputs|) + inputs;
    var s := tx.version + counted;
    assert s[..4] == tx.version && s[4..] == counted;
    ReadSizeComplete(|tx.inputs|, inputs);
    ReadInputsComplete(tx.inputs, outputs);
    ReadSizeComplete(|tx.outputs|, locked);
    ReadOutputsComplete(tx.outputs, tx.lockTime);
  }

  lemma ReadTxSound(s: Bytes)
    requires ReadTx(s).Some?
    ensures ValidTx(ReadTx(s).value) && s == EncodeTx(ReadTx(s).value)
  {
    var tx := ReadTx(s).value;
    var counted := s[4..];
    assert s == s[..4] + counted;
    ReadSizeSound(counted);
    var inputs := ReadSize(counted).value.1;
    ReadInputsSound(inputs, |tx.inputs|);
    var outputs := ReadInputs(inputs, |tx.inputs|).value.1;
    ReadSizeSound(outputs);
    ReadOutputsSound(ReadSize(outputs).value.1, |tx.outputs|);
  }

  /** Counts of a transaction, or the refusal of anything but one exact transaction. */
  function Shape(s: Bytes): Option<(nat, nat)> {
    match ReadTx(s)
    case None => None
    case Some(tx) => Some((|tx.inputs|, |tx.outputs|))
  }

  /** The two counted loops of the pre-scan; it allocates nothing and keeps only the counts. */
  method TransactionShape(payload: Bytes) returns (r: Option<(nat, nat)>)
    ensures r == Shape(payload)
    ensures r.Some? <==> exists tx :: ValidTx(tx) && payload == EncodeTx(tx)
  {
    ShapeExact(payload);
    var version := Take(payload, 4);
    if version.None? { return None; }
    var counted := ReadSize(version.value.1);
    if counted.None? { return None; }
    var inputs, bytes := counted.value.0, counted.value.1;
    if !(1 <= inputs <= MAX_INPUTS) { return None; }
    ghost var start := bytes;
    for i := 0 to inputs
      invariant ReadInputs(start, inputs).Some? <==> ReadInputs(bytes, inputs - i).Some?
      invariant ReadInputs(start, inputs).Some? ==>
        ReadInputs(start, inputs).value.1 == ReadInputs(bytes, inputs - i).value.1
    {
      var one := ReadInput(bytes);
      if one.None? { return None; }
      bytes := one.value.1;
    }
    assert ReadInputs(start, inputs).value.1 == bytes;
    counted := ReadSize(bytes);
    if counted.None? { return None; }
    var outputs := counted.value.0;
    bytes := counted.value.1;
    if !(1 <= outputs <= MAX_OUTPUTS) { return None; }
    start := bytes;
    for i := 0 to outputs
      invariant ReadOutputs(start, outputs).Some? <==> ReadOutputs(bytes, outputs - i).Some?
      invariant ReadOutputs(start, outputs).Some? ==>
        ReadOutputs(start, outputs).value.1 == ReadOutputs(bytes, outputs - i).value.1
    {
      var one := ReadOutput(bytes);
      if one.None? { return None; }
      bytes := one.value.1;
    }
    if |bytes| != 4 { return None; }
    r := Some((inputs, outputs));
  }

  lemma ShapeExact(s: Bytes)
    ensures Shape(s).Some? <==> exists tx :: ValidTx(tx) && s == EncodeTx(tx)
  {
    if Shape(s).Some? {
      ReadTxSound(s);
    }
    forall tx | ValidTx(tx) && s == EncodeTx(tx) ensures Shape(s) == Some((|tx.inputs|, |tx.outputs|)) {
      ReadTxComplete(tx);
    }
  }

  // ---- Maps of fields ----

  datatype Field = Field(key: Bytes, value: Bytes)

  ghost predicate ValidField(field: Field) {
    1 <= |field.key| <= MAX_KEY && |field.value| < TWO_64
  }

  ghost predicate ValidFields(fields: seq<Field>) {
    forall i :: 0 <= i < |fields| ==> ValidField(fields[i])
  }

  ghost function EncodeField(field: Field): Bytes
    requires ValidField(field)
  {
    EncodeSize(|field.key|) + (field.key + (EncodeSize(|field.value|) + field.value))
  }

  /** The fields of one map and its closing zero. */
  ghost function EncodeMap(fields: seq<Field>): Bytes
    requires ValidFields(fields)
  {
    if fields == [] then [0] else EncodeField(fields[0]) + EncodeMap(fields[1..])
  }

  /** One field, or the closing zero as `None` inside. */
  function ReadField(s: Bytes): (r: Option<(Option<Field>, Bytes)>)
    ensures r.Some? ==> |r.value.1| < |s|
  {
    match ReadSize(s)
    case None => None
    case Some((keyLen, afterKeyLen)) =>
      if keyLen == 0 then Some((None, afterKeyLen))
      else if keyLen > MAX_KEY then None
      else
        match Take(afterKeyLen, keyLen)
        case None => None
        case Some((key, afterKey)) =>
          match ReadSize(afterKey)
          case None => None
          case Some((valueLen, afterValueLen)) =>
            match Take(afterValueLen, valueLen)
            case None => None
            case Some((value, rest)) => Some((Some(Field(key, value)), rest))
  }

  lemma ReadFieldComplete(field: Field, rest: Bytes)
    requires ValidField(field)
    ensures ReadField(EncodeField(field) + rest) == Some((Some(field), rest))
  {
    var valued := field.value + rest;
    var sized := EncodeSize(|field.value|) + valued;
    var keyed := field.key + sized;
    assert EncodeField(field) + rest == EncodeSize(|field.key|) + keyed;
    ReadSizeComplete(|field.key|, keyed);
    assert keyed[..|field.key|] == field.key && keyed[|field.key|..] == sized;
    ReadSizeComplete(|field.value|, valued);
    assert valued[..|field.value|] == field.value && valued[|field.value|..] == rest;
  }

  lemma ZeroSize()
    ensures EncodeSize(0) == [0]
  {
  }

  lemma ReadFieldSound(s: Bytes)
    requires ReadField(s).Some?
    ensures var (field, rest) := ReadField(s).value;
      match field
      case None => s == [0] + rest
      case Some(f) => ValidField(f) && s == EncodeField(f) + rest
  {
    hide ReadSize, EncodeSize;
    ZeroSize();
    ReadSizeSound(s);
    var (keyLen, keyed) := ReadSize(s).value;
    if keyLen != 0 {
      assert keyed == keyed[..keyLen] + keyed[keyLen..];
      ReadSizeSound(keyed[keyLen..]);
      var (valueLen, valued) := ReadSize(keyed[keyLen..]).value;
      assert valued == valued[..valueLen] + valued[valueLen..];
    }
  }

  /** The fields up to the closing zero; `seen` fields of this map were already read. */
  function ReadMap(s: Bytes, seen: nat): (r: Option<(seq<Field>, Bytes)>)
    ensures r.Some? ==> |r.value.1| < |s|
    decreases |s|
  {
    match ReadField(s)
    case None => None
    case Some((field, rest)) =>
      if field.None? then Some(([], rest))
      else if seen + 1 > MAX_FIELDS then None
      else
        match ReadMap(rest, seen + 1)
        case None => None
        case Some((others, end)) => Some(([field.value] + others, end))
  }

  lemma ReadMapStep(s: Bytes, seen: nat, first: Field, tail: Bytes, others: seq<Field>, rest: Bytes)
    requires ReadField(s) == Some((Some(first), tail)) && seen + 1 <= MAX_FIELDS
    requires ReadMap(tail, seen + 1) == Some((others, rest))
    ensures ReadMap(s, seen) == Some(([first] + others, rest))
  {
    hide ReadField;
  }

  lemma ReadMapEnd(rest: Bytes, seen: nat)
    ensures ReadMap([0] + rest, seen) == Some(([], rest))
  {
    ReadSizeComplete(0, rest);
  }

  lemma EncodeMapFirst(fields: seq<Field>, rest: Bytes)
    requires ValidFields(fields) && fields != []
    ensures ValidField(fields[0]) && ValidFields(fields[1..])
    ensures EncodeMap(fields) + rest == EncodeField(fields[0]) + (EncodeMap(fields[1..]) + rest)
  {
    hide EncodeField, ValidField;
  }

  lemma {:induction false} ReadMapComplete(fields: seq<Field>, seen: nat, rest: Bytes)
    requires ValidFields(fields) && |fields| + seen <= MAX_FIELDS
    ensures ReadMap(EncodeMap(fields) + rest, seen) == Some((fields, rest))
    decreases |fields|
  {
    if fields == [] {
      ReadMapEnd(rest, seen);
    } else {
      EncodeMapFirst(fields, rest);
      hide ReadMap, ReadField, EncodeField, EncodeMap, ValidField, ValidFields;
      var tail := EncodeMap(fields[1..]) + rest;
      ReadFieldComplete(fields[0], tail);
      ReadMapComplete(fields[1..], seen + 1, rest);
      ReadMapStep(EncodeMap(fields) + rest, seen, fields[0], tail, fields[1..], rest);
      assert fields == [fields[0]] + fields[1..];
    }
  }

  lemma PrependField(s: Bytes, first: Field, afterFirst: Bytes, others: seq<Field>, rest: Bytes)
    requires ValidField(first) && ValidFields(others)
    requires s == EncodeField(first) + afterFirst && afterFirst == EncodeMap(others) + rest
    ensures ValidFields([first] + others) && s == EncodeMap([first] + others) + rest
  {
    var all := [first] + others;
    forall i | 0 <= i < |all| ensures ValidField(all[i]) {
      if i > 0 {
        assert all[i] == others[i - 1];
      }
    }
    assert all[0] == first && all[1..] == others;
  }

  lemma {:induction false} ReadMapSound(s: Bytes, seen: nat)
    requires ReadMap(s, seen).Some? && seen <= MAX_FIELDS
    ensures ValidFields(ReadMap(s, seen).value.0) && |ReadMap(s, seen).value.0| + seen <= MAX_FIELDS
    ensures s == EncodeMap(ReadMap(s, seen).value.0) + ReadMap(s, seen).value.1
    decreases |s|
  {
    hide ReadField, EncodeField, EncodeSize;
    ReadFieldSound(s);
    var (field, afterFirst) := ReadField(s).value;
    if field.Some? {
      ReadMapSound(afterFirst, seen + 1);
      var (others, rest) := ReadMap(afterFirst, seen + 1).value;
      PrependField(s, field.value, afterFirst, others, rest);
    }
  }

  // ---- The global map's unsigned transaction ----

  predicate IsUnsignedTx(field: Field) {
    field.key == [0]
  }

  /** Fold the global map: a second transaction field, or one of the wrong shape, is refused. */
  function GlobalShape(fields: seq<Field>, found: Option<(nat, nat)>): Option<Option<(nat, nat)>> {
    if fields == [] then Some(found)
    else if !IsUnsignedTx(fields[0]) then GlobalShape(fields[1..], found)
    else if found.Some? || Shape(fields[0].value).None? then None
    else GlobalShape(fields[1..], Shape(fields[0].value))
  }

  ghost predicate HasShapeAt(fields: seq<Field>, at: int, shape: (nat, nat)) {
    && 0 <= at < |fields|
    && Shape(fields[at].value) == Some(shape)
    && forall i :: 0 <= i < |fields| ==> (IsUnsignedTx(fields[i]) <==> i == at)
  }

  lemma {:induction false} AlreadyFound(fields: seq<Field>, found: (nat, nat))
    ensures GlobalShape(fields, Some(found)) ==
      if exists i :: 0 <= i < |fields| && IsUnsignedTx(fields[i]) then None else Some(Some(found))
  {
    if fields != [] {
      AlreadyFound(fields[1..], found);
      if i :| 0 <= i < |fields| && IsUnsignedTx(fields[i]) {
        assert i == 0 || IsUnsignedTx(fields[1..][i - 1]);
      }
    }
  }

  /** The fold finds a shape exactly when one field, and only one, holds the transaction. */
  lemma {:induction false} GlobalShapeExact(fields: seq<Field>, shape: (nat, nat))
    ensures GlobalShape(fields, None) == Some(Some(shape)) <==> exists at :: HasShapeAt(fields, at, shape)
  {
    if fields != [] {
      var rest := fields[1..];
      GlobalShapeExact(rest, shape);
      if IsUnsignedTx(fields[0]) {
        if Shape(fields[0].value).Some? {
          AlreadyFound(rest, Shape(fields[0].value).value);
        }
        forall at | HasShapeAt(fields, at, shape) ensures at == 0 {
          assert IsUnsignedTx(fields[0]) <==> 0 == at;
        }
        if GlobalShape(fields, None) == Some(Some(shape)) {
          assert forall i :: 0 < i < |fields| ==> fields[i] == rest[i - 1];
          assert HasShapeAt(fields, 0, shape);
        }
        if HasShapeAt(fields, 0, shape) {
          assert forall i :: 0 <= i < |rest| ==> rest[i] == fields[i + 1];
        }
      } else {
        forall at | HasShapeAt(fields, at, shape) ensures HasShapeAt(rest, at - 1, shape) {
          assert forall i :: 0 <= i < |rest| ==> rest[i] == fields[i + 1];
        }
        forall at | HasShapeAt(rest, at, shape) ensures HasShapeAt(fields, at + 1, shape) {
          assert forall i :: 0 < i < |fields| ==> fields[i] == rest[i - 1];
        }
      }
    }
  }

  // ---- The whole container ----

  /** Exactly `n` maps and then the end of the bytes. */
  function ReadMaps(s: Bytes, n: nat): Option<seq<seq<Field>>>
    decreases n
  {
    if n == 0 then if s == [] then Some([]) else None
    else
      match ReadMap(s, 0)
      case None => None
      case Some((fields, rest)) =>
        match ReadMaps(rest, n - 1)
        case None => None
        case Some(others) => Some([fields] + others)
  }

  datatype Document = Document(maps: seq<seq<Field>>, inputs: nat, outputs: nat)

  ghost predicate ValidMap(fields: seq<Field>) {
    ValidFields(fields) && |fields| <= MAX_FIELDS
  }

  /** The global map holds one unsigned transaction whose counts fix the number of maps. */
  ghost predicate WellFormed(doc: Document) {
    && |doc.maps| == 1 + doc.inputs + doc.outputs
    && (forall i :: 0 <= i < |doc.maps| ==> ValidMap(doc.maps[i]))
    && exists at :: HasShapeAt(doc.maps[0], at, (doc.inputs, doc.outputs))
  }

  ghost function EncodeMaps(maps: seq<seq<Field>>): Bytes
    requires forall i :: 0 <= i < |maps| ==> ValidMap(maps[i])
  {
    if maps == [] then []
    else
      assert ValidMap(maps[0]);
      EncodeMap(maps[0]) + EncodeMaps(maps[1..])
  }

  ghost function Encode(doc: Document): Bytes
    requires WellFormed(doc)
  {
    MAGIC + EncodeMaps(doc.maps)
  }

  lemma {:induction false} ReadMapsComplete(maps: seq<seq<Field>>)
    requires forall i :: 0 <= i < |maps| ==> ValidMap(maps[i])
    ensures ReadMaps(EncodeMaps(maps), |maps|) == Some(maps)
  {
    hide ReadMap, EncodeMap;
    if maps != [] {
      ReadMapComplete(maps[0], 0, EncodeMaps(maps[1..]));
      ReadMapsComplete(maps[1..]);
      assert maps == [maps[0]] + maps[1..];
    }
  }

  lemma {:induction false} ReadMapsSound(s: Bytes, n: nat)
    requires ReadMaps(s, n).Some?
    ensures |ReadMaps(s, n).value| == n
    ensures forall i :: 0 <= i < n ==> ValidMap(ReadMaps(s, n).value[i])
    ensures s == EncodeMaps(ReadMaps(s, n).value)
    decreases n
  {
    hide ReadMap, EncodeMap, ValidFields;
    if n != 0 {
      ReadMapSound(s, 0);
      var (fields, rest) := ReadMap(s, 0).value;
      ReadMapsSound(rest, n - 1);
      var others := ReadMaps(rest, n - 1).value;
      var all := [fields] + others;
      forall i | 0 <= i < |all| ensures ValidMap(all[i]) {
        if i > 0 {
          assert all[i] == others[i - 1];
        }
      }
      assert all[1..] == others;
    }
  }

  /** The accepted decomposition of a whole payload. */
  function Parse(payload: Bytes): Option<Document> {
    if |payload| > MAX_PSBT_BYTES || |payload| < 5 || payload[..5] != MAGIC then None
    else
      match ReadMap(payload[5..], 0)
      case None => None
      case Some((global, rest)) =>
        match GlobalShape(global, None)
        case Some(Some((inputs, outputs))) =>
          (match ReadMaps(rest, inputs + outputs)
           case None => None
           case Some(others) => Some(Document([global] + others, inputs, outputs)))
        case _ => None
  }

  lemma ParseComplete(doc: Document)
    requires WellFormed(doc) && |Encode(doc)| <= MAX_PSBT_BYTES
    ensures Parse(Encode(doc)) == Some(doc)
  {
    hide ReadMap, EncodeMap, GlobalShape, ValidFields;
    var global, rest := doc.maps[0], EncodeMaps(doc.maps[1..]);
    var payload := Encode(doc);
    assert payload[..5] == MAGIC && payload[5..] == EncodeMap(global) + rest;
    assert ValidMap(global);
    ReadMapComplete(global, 0, rest);
    GlobalShapeExact(global, (doc.inputs, doc.outputs));
    assert forall i :: 0 <= i < |doc.maps[1..]| ==> doc.maps[1..][i] == doc.maps[i + 1];
    ReadMapsComplete(doc.maps[1..]);
    assert doc.maps == [global] + doc.maps[1..];
  }

  lemma ParseSound(payload: Bytes)
    requires Parse(payload).Some?
    ensures WellFormed(Parse(payload).value) && payload == Encode(Parse(payload).value)
  {
    hide ReadMap, EncodeMap, GlobalShape, ValidFields, HasShapeAt;
    ReadMapSound(payload[5..], 0);
    var (global, rest) := ReadMap(payload[5..], 0).value;
    var doc := Parse(payload).value;
    GlobalShapeExact(global, (doc.inputs, doc.outputs));
    ReadMapsSound(rest, doc.inputs + doc.outputs);
    var others := ReadMaps(rest, doc.inputs + doc.outputs).value;
    assert doc.maps == [global] + others && doc.maps[1..] == others;
    forall i | 0 <= i < |doc.maps| ensures ValidMap(doc.maps[i]) {
      if i > 0 {
        assert doc.maps[i] == others[i - 1];
      }
    }
    assert payload == payload[..5] + payload[5..];
    assert exists at :: HasShapeAt(doc.maps[0], at, (doc.inputs, doc.outputs));
  }

  /** Accepted bytes are exactly the encodings of well-formed documents within the size bound. */
  lemma ParseIsExact(payload: Bytes)
    ensures Parse(payload).Some? <==>
      exists doc :: WellFormed(doc) && payload == Encode(doc) && |payload| <= MAX_PSBT_BYTES
  {
    if Parse(payload).Some? {
      ParseSound(payload);
    }
    forall doc | WellFormed(doc) && payload == Encode(doc) && |payload| <= MAX_PSBT_BYTES
      ensures Parse(payload).Some?
    {
      ParseComplete(doc);
    }
  }

  /** Two decompositions of one accepted payload are the same decomposition. */
  lemma DecompositionIsUnique(a: Document, b: Document)
    requires WellFormed(a) && WellFormed(b) && Encode(a) == Encode(b) && |Encode(a)| <= MAX_PSBT_BYTES
    ensures a == b
  {
    ParseComplete(a);
    ParseComplete(b);
  }

  lemma {:induction false} MapsArePrefixFree(maps: seq<seq<Field>>, others: seq<seq<Field>>, tail: Bytes)
    requires |maps| == |others|
    requires forall i :: 0 <= i < |maps| ==> ValidMap(maps[i])
    requires forall i :: 0 <= i < |others| ==> ValidMap(others[i])
    requires EncodeMaps(others) == EncodeMaps(maps) + tail
    ensures tail == []
  {
    hide ReadMap, EncodeMap;
    if maps != [] {
      var rest := EncodeMaps(maps[1..]) + tail;
      assert EncodeMaps(maps) + tail == EncodeMap(maps[0]) + rest;
      ReadMapComplete(maps[0], 0, rest);
      ReadMapComplete(others[0], 0, EncodeMaps(others[1..]));
      MapsArePrefixFree(maps[1..], others[1..], tail);
    }
  }

  /**
   * No accepted container is a proper prefix of another: appending anything to an
   * accepted payload, a second container included, is refused, and so is truncation.
   */
  lemma AcceptedIsPrefixFree(payload: Bytes, tail: Bytes)
    requires Parse(payload).Some? && Parse(payload + tail).Some?
    ensures tail == []
  {
    hide ReadMap, EncodeMap, GlobalShape, ValidFields, Shape;
    ParseSound(payload);
    ParseSound(payload + tail);
    var a, b := Parse(payload).value, Parse(payload + tail).value;
    assert (payload + tail)[5..] == payload[5..] + tail;
    var (global, rest) := ReadMap(payload[5..], 0).value;
    ReadMapSound(payload[5..], 0);
    assert EncodeMap(global) + rest + tail == EncodeMap(global) + (rest + tail);
    ReadMapComplete(global, 0, rest + tail);
    ReadMapsSound(rest, a.inputs + a.outputs);
    ReadMapsSound(rest + tail, a.inputs + a.outputs);
    MapsArePrefixFree(ReadMaps(rest, a.inputs + a.outputs).value, ReadMaps(rest + tail, a.inputs + a.outputs).value, tail);
  }

  /** Exactly one global field holds the transaction, under the one-byte key zero. */
  ghost predicate IsTheTransaction(global: seq<Field>, at: int, tx: RawTx) {
    && 0 <= at < |global| && global[at].key == [0] && ValidTx(tx) && global[at].value == EncodeTx(tx)
    && forall i :: 0 <= i < |global| && i != at ==> global[i].key != [0]
  }

  ghost predicate IsScript(script: Bytes) {
    |script| <= 10_000
  }

  /** Well-formed in plain numbers: fields, keys, one transaction with its counts, and as many maps. */
  ghost predicate IsContainer(doc: Document) {
    && (forall i :: 0 <= i < |doc.maps| ==> |doc.maps[i]| <= 64)
    && (forall i, j :: 0 <= i < |doc.maps| && 0 <= j < |doc.maps[i]| ==>
          1 <= |doc.maps[i][j].key| <= 256 && |doc.maps[i][j].value| < 0x1_0000_0000_0000_0000)
    && |doc.maps| == 1 + doc.inputs + doc.outputs
    && exists at, tx ::
         && IsTheTransaction(doc.maps[0], at, tx) && |tx.inputs| == doc.inputs && |tx.outputs| == doc.outputs
  }

  /** A transaction in plain numbers. */
  ghost predicate IsTransaction(tx: RawTx) {
    && |tx.version| == 4 && |tx.lockTime| == 4 && 1 <= |tx.inputs| <= 200 && 1 <= |tx.outputs| <= 400
    && (forall i :: 0 <= i < |tx.inputs| ==> |tx.inputs[i].outpoint| == 36 && |tx.inputs[i].sequence| == 4)
    && (forall i :: 0 <= i < |tx.outputs| ==> |tx.outputs[i].value| == 8 && IsScript(tx.outputs[i].script))
  }

  lemma TransactionIsExact(tx: RawTx)
    ensures ValidTx(tx) <==> IsTransaction(tx)
  {
    if ValidTx(tx) {
      forall i | 0 <= i < |tx.inputs| ensures |tx.inputs[i].outpoint| == 36 && |tx.inputs[i].sequence| == 4 {
        assert ValidInput(tx.inputs[i]);
      }
      forall i | 0 <= i < |tx.outputs| ensures |tx.outputs[i].value| == 8 && IsScript(tx.outputs[i].script) {
        assert ValidOutput(tx.outputs[i]);
      }
    }
  }

  lemma ShapeIsTheTransaction(global: seq<Field>, at: int, shape: (nat, nat))
    ensures HasShapeAt(global, at, shape) <==>
      exists tx :: IsTheTransaction(global, at, tx) && (|tx.inputs|, |tx.outputs|) == shape
  {
    if HasShapeAt(global, at, shape) {
      ReadTxSound(global[at].value);
      assert IsUnsignedTx(global[at]);
      assert forall i :: 0 <= i < |global| && i != at ==> !IsUnsignedTx(global[i]);
      assert IsTheTransaction(global, at, ReadTx(global[at].value).value) by { hide EncodeTx, ReadTx, ValidTx; }
    }
    forall tx | IsTheTransaction(global, at, tx) && (|tx.inputs|, |tx.outputs|) == shape ensures HasShapeAt(global, at, shape) {
      ReadTxComplete(tx);
      hide ValidTx, EncodeTx, ReadTx;
    }
  }

  lemma ShapesAgree(doc: Document)
    requires |doc.maps| > 0
    ensures (exists at :: HasShapeAt(doc.maps[0], at, (doc.inputs, doc.outputs))) <==>
      exists at, tx :: IsTheTransaction(doc.maps[0], at, tx) && |tx.inputs| == doc.inputs && |tx.outputs| == doc.outputs
  {
    hide HasShapeAt, IsTheTransaction;
    if at :| HasShapeAt(doc.maps[0], at, (doc.inputs, doc.outputs)) {
      ShapeIsTheTransaction(doc.maps[0], at, (doc.inputs, doc.outputs));
    }
    if at, tx :| IsTheTransaction(doc.maps[0], at, tx) && |tx.inputs| == doc.inputs && |tx.outputs| == doc.outputs {
      ShapeIsTheTransaction(doc.maps[0], at, (doc.inputs, doc.outputs));
    }
  }

  lemma MapIsExact(fields: seq<Field>)
    ensures ValidMap(fields) <==>
      && |fields| <= 64
      && forall j :: 0 <= j < |fields| ==> 1 <= |fields[j].key| <= 256 && |fields[j].value| < 0x1_0000_0000_0000_0000
  {
    if ValidMap(fields) {
      forall j | 0 <= j < |fields| ensures 1 <= |fields[j].key| <= 256 && |fields[j].value| < 0x1_0000_0000_0000_0000 {
        assert ValidField(fields[j]);
      }
    }
  }

  lemma WellFormedIsExact(doc: Document)
    ensures WellFormed(doc) <==> IsContainer(doc)
  {
    if |doc.maps| > 0 {
      ShapesAgree(doc);
    }
    forall i | 0 <= i < |doc.maps|
      ensures ValidMap(doc.maps[i]) <==>
        && |doc.maps[i]| <= 64
        && forall j :: 0 <= j < |doc.maps[i]| ==>
             1 <= |doc.maps[i][j].key| <= 256 && |doc.maps[i][j].value| < 0x1_0000_0000_0000_0000
    {
      MapIsExact(doc.maps[i]);
    }
    hide HasShapeAt, IsTheTransaction, ValidMap;
  }

  /** Accepted are exactly the encodings of containers, in plain numbers. */
  lemma AcceptedIsExact(payload: Bytes)
    ensures Parse(payload).Some? <==>
      |payload| <= 1_048_576 && exists doc :: IsContainer(doc) && WellFormed(doc) && payload == Encode(doc)
    ensures Parse(payload).Some? ==> payload[..5] == [0x70, 0x73, 0x62, 0x74, 0xff]
  {
    ParseIsExact(payload);
    forall doc ensures WellFormed(doc) <==> IsContainer(doc) {
      WellFormedIsExact(doc);
    }
    hide WellFormed, IsContainer, Encode;
  }

  // ---- The nested loops ----

  lemma {:induction false} GlobalShapeSplits(done: seq<Field>, tail: seq<Field>, found: Option<(nat, nat)>)
    ensures GlobalShape(done + tail, found) ==
      match GlobalShape(done, found) case None => None case Some(so) => GlobalShape(tail, so)
  {
    if done == [] {
      assert done + tail == tail;
    } else {
      assert (done + tail)[1..] == done[1..] + tail;
      if !IsUnsignedTx(done[0]) {
        GlobalShapeSplits(done[1..], tail, found);
      } else {
        GlobalShapeSplits(done[1..], tail, Shape(done[0].value));
      }
    }
  }

  /** What a cursor in the middle of a map still owes to the map that began at `start`. */
  ghost predicate Continues(start: Bytes, done: seq<Field>, rest: Bytes) {
    && (ReadMap(start, 0).Some? <==> ReadMap(rest, |done|).Some?)
    && (ReadMap(start, 0).Some? ==>
          && ReadMap(start, 0).value.0 == done + ReadMap(rest, |done|).value.0
          && ReadMap(start, 0).value.1 == ReadMap(rest, |done|).value.1)
  }

  lemma ContinuesNext(start: Bytes, done: seq<Field>, rest: Bytes)
    requires Continues(start, done, rest)
    requires ReadField(rest).Some? && ReadField(rest).value.0.Some? && |done| + 1 <= MAX_FIELDS
    ensures Continues(start, done + [ReadField(rest).value.0.value], ReadField(rest).value.1)
  {
    hide ReadField;
    var (field, next) := ReadField(rest).value;
    if ReadMap(rest, |done|).Some? {
      var others := ReadMap(next, |done| + 1).value.0;
      assert done + ([field.value] + others) == done + [field.value] + others;
    }
  }

  /** Advance over one field of the current map. */
  method ScanField(s: Bytes) returns (r: Option<(Option<Field>, Bytes)>)
    ensures r == ReadField(s)
  {
    var keyLen := ReadSize(s);
    if keyLen.None? { return None; }
    if keyLen.value.0 == 0 { return Some((None, keyLen.value.1)); }
    if keyLen.value.0 > MAX_KEY { return None; }
    var key := Take(keyLen.value.1, keyLen.value.0);
    if key.None? { return None; }
    var valueLen := ReadSize(key.value.1);
    if valueLen.None? { return None; }
    var value := Take(valueLen.value.1, valueLen.value.0);
    if value.None? { return None; }
    r := Some((Some(Field(key.value.0, value.value.0)), value.value.1));
  }

  /** One map. Only the global map may set `shape`, and only once. */
  method ScanMap(start: Bytes, global: bool, before: Option<(nat, nat)>)
    returns (r: Option<(Option<(nat, nat)>, Bytes)>)
    ensures r.Some? ==> ReadMap(start, 0).Some? && r.value.1 == ReadMap(start, 0).value.1
    ensures r.Some? && !global ==> r.value.0 == before
    ensures r.Some? && global ==> GlobalShape(ReadMap(start, 0).value.0, before) == Some(r.value.0)
    ensures r.None? && ReadMap(start, 0).Some? ==> global && GlobalShape(ReadMap(start, 0).value.0, before).None?
  {
    hide ReadField, Shape;
    var rest, fields, shape := start, 0, before;
    ghost var done: seq<Field> := [];
    while true
      invariant |done| == fields <= MAX_FIELDS
      invariant Continues(start, done, rest)
      invariant if global then GlobalShape(done, before) == Some(shape) else shape == before
      decreases |rest|
    {
      var read := ScanField(rest);
      if read.None? { return None; }
      var (field, next) := read.value;
      if field.None? {
        assert ReadMap(rest, fields) == Some(([], next));
        assert done + [] == done;
        return Some((shape, next));
      }
      if fields + 1 > MAX_FIELDS { return None; }
      ContinuesNext(start, done, rest);
      GlobalShapeSplits(done, [field.value], before);
      if global && IsUnsignedTx(field.value) {
        var counts := TransactionShape(field.value.value);
        if shape.Some? || counts.None? {
          if ReadMap(start, 0).Some? {
            GlobalShapeSplits(done + [field.value], ReadMap(next, fields + 1).value.0, before);
          }
          return None;
        }
        shape := counts;
      }
      fields, done, rest := fields + 1, done + [field.value], next;
    }
  }

  /** The pre-scan of a binary payload: maps until the bytes end, with the expected number of them. */
  method ScanContainer(payload: Bytes) returns (r: Option<(nat, nat)>)
    ensures r == match Parse(payload) case None => None case Some(doc) => Some((doc.inputs, doc.outputs))
    ensures r.Some? <==> exists doc :: WellFormed(doc) && payload == Encode(doc) && |payload| <= MAX_PSBT_BYTES
  {
    hide ReadMap, GlobalShape, WellFormed, Encode;
    ParseIsExact(payload);
    if |payload| > MAX_PSBT_BYTES || |payload| < 5 || payload[..5] != MAGIC {
      return None;
    }
    var rest, maps := payload[5..], 0;
    var shape: Option<(nat, nat)> := None;
    EmptyIsNoMap();
    while rest != []
      invariant maps == 0 ==> rest == payload[5..] && shape.None?
      invariant maps > 0 ==> shape.Some? && maps <= 1 + shape.value.0 + shape.value.1
      invariant maps > 0 ==>
        (Parse(payload).Some? <==> ReadMaps(rest, 1 + shape.value.0 + shape.value.1 - maps).Some?)
      invariant maps > 0 && Parse(payload).Some? ==>
        shape.value == (Parse(payload).value.inputs, Parse(payload).value.outputs)
      decreases |rest|
    {
      var scanned := ScanMap(rest, maps == 0, shape);
      if scanned.None? { return None; }
      shape, rest := scanned.value.0, scanned.value.1;
      maps := maps + 1;
      if shape.None? || maps > 1 + shape.value.0 + shape.value.1 { return None; }
    }
    if shape.None? || maps != 1 + shape.value.0 + shape.value.1 { return None; }
    r := shape;
  }

  lemma EmptyIsNoMap()
    ensures ReadMap([], 0).None?
  {
  }
}
