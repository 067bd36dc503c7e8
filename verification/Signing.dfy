/**
 * Validation and merging of external signatures. Transaction and metadata bytes of a
 * merge come only from the approved PSBT; responses contribute verified signatures.
 */
module Signing {
  import opened Wrappers
  import opened ByteStrings
  import opened Psbts
  import Multisig

  predicate AllCompressed(keys: seq<PublicKey>) {
    forall i | 0 <= i < |keys| :: |keys[i]| == 33
  }

  predicate DistinctKeys(keys: seq<PublicKey>) {
    forall i, j | 0 <= i < j < |keys| :: keys[i] != keys[j]
  }

  /** The policy's keys in script order and how many of them must sign. */
  function TrustedKeys(c: Crypto, t: TrustedInput): (r: Result<(seq<PublicKey>, nat), Error>)
    ensures r.Ok? && t.descriptor.Wpkh? ==> |r.value.0| == 1 && r.value.1 == 1
    ensures r.Ok? && t.descriptor.SortedMulti? ==> |r.value.0| == 3 && r.value.1 == 2
    ensures t.descriptor.OtherDescriptor? ==> r.Err?
    ensures r.Ok? ==> DistinctKeys(r.value.0)
  {
    var (keys, required) :-
      match t.descriptor
      case Wpkh(key) => Ok(([key], 1))
      case SortedMulti(k, keys) => if k == 2 && |keys| == 3 then Ok((keys, 2)) else Err(UnsupportedPolicy)
      case OtherDescriptor => Err(UnsupportedPolicy);
    var sorted := SortKeys(keys);
    :- Need(
      && AllCompressed(sorted) && DistinctKeys(sorted)
      && c.scriptPubkey(t.descriptor) == t.prevout.script, CorruptState);
    Ok((sorted, required))
  }

  function CheckMetadata(c: Crypto, input: Input, t: TrustedInput, tx: Transaction, index: nat): Outcome<Error>
    requires index < |tx.inputs|
  {
    if !(&& Optional(input.witnessUtxo, Some(t.prevout))
         && Optional(input.witnessScript, t.witnessScript)
         && Subset(input.derivations, t.derivations)
         && (input.sighash.None? || input.sighash.value == SIGHASH_ALL)) then Fail(Mismatch)
    else if input.nonWitnessUtxo.Some? && !FundsOutPoint(c, input.nonWitnessUtxo.value, tx.inputs[index].prev, t.prevout) then
      Fail(Mismatch)
    else if input.extras != map[] || (input.finalScriptSig.Some? && input.finalScriptSig.value != []) then Fail(Invalid)
    else Pass
  }

  predicate FundsOutPoint(c: Crypto, previous: Transaction, outpoint: OutPoint, prevout: TxOut) {
    && ComputeTxid(c, previous) == outpoint.txid
    && outpoint.vout < |previous.outputs|
    && previous.outputs[outpoint.vout] == prevout
  }

  /** Only SIGHASH_ALL can authorize this draft. */
  predicate Valid(c: Crypto, tx: Transaction, index: nat, t: TrustedInput, key: PublicKey, sig: Signature) {
    sig.sighash == SIGHASH_ALL && c.verify(tx, index, t.prevout, t.descriptor, key, sig)
  }

  /** Validity of key and signature pairs for one input. */
  function Checker(c: Crypto, tx: Transaction, index: nat, t: TrustedInput): (PublicKey, Signature) -> bool {
    (key, sig) => Valid(c, tx, index, t, key, sig)
  }

  function DecodeAll(c: Crypto, items: seq<Bytes>): (r: Option<seq<Signature>>)
    ensures r.Some? ==> |r.value| == |items|
  {
    if items == [] then Some([])
    else
      match (c.decode(items[0]), DecodeAll(c, items[1..]))
      case (Some(sig), Some(rest)) => Some([sig] + rest)
      case (_, _) => None
  }

  /** Normalize one final witness to partial signatures, or refuse it. */
  function WitnessSignatures(c: Crypto, tx: Transaction, index: nat, stack: seq<Bytes>, t: TrustedInput,
                             keys: seq<PublicKey>, required: nat): Result<map<PublicKey, Signature>, Error>
    requires required == 1 ==> |keys| == 1
  {
    if required == 1 then
      if |stack| != 2 || stack[1] != keys[0] then Err(Invalid)
      else
        match c.decode(stack[0])
        case None => Err(Invalid)
        case Some(sig) => if Valid(c, tx, index, t, keys[0], sig) then Ok(map[keys[0] := sig]) else Err(Invalid)
    else if |stack| != required + 2 || stack[0] != [] || stack[required + 1] != c.explicitScript(t.descriptor) then
      Err(Invalid)
    else
      match DecodeAll(c, stack[1..required + 1])
      case None => Err(Invalid)
      case Some(sigs) =>
        match Multisig.Greedy(keys, 0, sigs, Checker(c, tx, index, t))
        case None => Err(Invalid)
        case Some(chosen) => Ok(Multisig.Recorded(keys, sigs, chosen, |sigs|))
  }

  /** Every signature one input supplies, each verified under a key of the policy. */
  function InputSignatures(c: Crypto, tx: Transaction, index: nat, input: Input, t: TrustedInput)
    : Result<map<PublicKey, Signature>, Error>
  {
    var (keys, required) :- TrustedKeys(c, t);
    :- Need(forall key | key in input.partialSigs :: key in keys && Valid(c, tx, index, t, key, input.partialSigs[key]), Invalid);
    if input.finalWitness.None? then Ok(input.partialSigs)
    else if input.partialSigs != map[] then Err(Invalid)
    else WitnessSignatures(c, tx, index, input.finalWitness.value, t, keys, required)
  }

  // ---- Merging ----

  type Signatures = map<PublicKey, Signature>

  predicate Agree(a: Signatures, b: Signatures) {
    forall key | key in a && key in b :: a[key] == b[key]
  }

  function AddSignatures(have: Signatures, sigs: Signatures): Result<Signatures, Error> {
    if Agree(have, sigs) then Ok(have + sigs) else Err(Mismatch)
  }

  predicate ShapeOk(approved: Psbt, trusted: seq<TrustedInput>) {
    && |approved.inputs| == |trusted|
    && |approved.inputs| == |approved.tx.inputs|
    && |approved.outputs| == |approved.tx.outputs|
    && approved.version == 0
  }

  function CheckApproved(c: Crypto, approved: Psbt, trusted: seq<TrustedInput>, i: nat): Outcome<Error>
    requires ShapeOk(approved, trusted) && i <= |trusted|
    decreases |trusted| - i
  {
    if i == |trusted| then Pass
    else
      match CheckMetadata(c, approved.inputs[i], trusted[i], approved.tx, i)
      case Fail(e) => Fail(e)
      case Pass =>
        if !Unsigned(approved.inputs[i]) then Fail(CorruptState) else CheckApproved(c, approved, trusted, i + 1)
  }

  predicate Unsigned(input: Input) {
    input.partialSigs == map[] && input.finalWitness.None? && input.finalScriptSig.None?
  }

  predicate OutputAllowed(output: Output, expected: Output) {
    && output.extras == map[]
    && Optional(output.redeemScript, expected.redeemScript)
    && Optional(output.witnessScript, expected.witnessScript)
    && Subset(output.derivations, expected.derivations)
  }

  /** The response describes the approved transaction and adds no metadata to it. */
  predicate SameApproval(approved: Psbt, trusted: seq<TrustedInput>, candidate: Psbt) {
    && candidate.version == 0
    && candidate.tx == approved.tx
    && |candidate.inputs| == |trusted|
    && |candidate.outputs| == |approved.outputs|
    && Subset(candidate.xpubs, approved.xpubs)
    && candidate.unknown == map[]
    && candidate.proprietary == map[]
    && forall i | 0 <= i < |candidate.outputs| :: OutputAllowed(candidate.outputs[i], approved.outputs[i])
  }

  /** One input of a candidate, checked and read. */
  function ReadInput(c: Crypto, approved: Psbt, trusted: seq<TrustedInput>, candidate: Psbt, i: nat): Result<Signatures, Error>
    requires ShapeOk(approved, trusted) && |candidate.inputs| == |trusted| && i < |trusted|
  {
    match CheckMetadata(c, candidate.inputs[i], trusted[i], approved.tx, i)
    case Fail(e) => Err(e)
    case Pass => InputSignatures(c, approved.tx, i, candidate.inputs[i], trusted[i])
  }

  function Reads(c: Crypto, approved: Psbt, trusted: seq<TrustedInput>, candidate: Psbt)
    : seq<Result<Signatures, Error>>
    requires ShapeOk(approved, trusted) && |candidate.inputs| == |trusted|
  {
    seq(|trusted|, i requires 0 <= i < |trusted| => ReadInput(c, approved, trusted, candidate, i))
  }

  /** Insert what each input supplied, in input order; the first refusal or conflict ends the merge. */
  function MergeReads(read: seq<Result<Signatures, Error>>, merged: seq<Signatures>, i: nat)
    : (r: Result<seq<Signatures>, Error>)
    requires i <= |read| == |merged|
    ensures r.Ok? ==> |r.value| == |read|
    decreases |read| - i
  {
    if i == |read| then Ok(merged)
    else
      var sigs :- read[i];
      var together :- AddSignatures(merged[i], sigs);
      MergeReads(read, merged[i := together], i + 1)
  }

  function MergeCandidate(c: Crypto, approved: Psbt, trusted: seq<TrustedInput>, candidate: Psbt, merged: seq<Signatures>)
    : (r: Result<seq<Signatures>, Error>)
    requires ShapeOk(approved, trusted) && |merged| == |trusted|
    ensures r.Ok? ==> |r.value| == |trusted|
  {
    if !SameApproval(approved, trusted, candidate) then Err(Mismatch)
    else MergeReads(Reads(c, approved, trusted, candidate), merged, 0)
  }

  function NoSignatures(n: nat): seq<Signatures> {
    seq(n, i => map[])
  }

  /** The approved PSBT carrying these partial signatures and nothing else new. */
  function WithSignatures(approved: Psbt, sigs: seq<Signatures>): Psbt
    requires |sigs| == |approved.inputs|
  {
    approved.(inputs := seq(|sigs|, i requires 0 <= i < |sigs| => approved.inputs[i].(partialSigs := sigs[i])))
  }

  function Merge(c: Crypto, approved: Psbt, previous: Option<Psbt>, response: Psbt, trusted: seq<TrustedInput>)
    : (r: Result<Psbt, Error>)
    ensures r.Ok? ==> ShapeOk(approved, trusted) && |r.value.inputs| == |trusted|
  {
    if !ShapeOk(approved, trusted) then Err(CorruptState)
    else
      match CheckApproved(c, approved, trusted, 0)
      case Fail(e) => Err(e)
      case Pass =>
        var none := NoSignatures(|trusted|);
        var first :- if previous.None? then Ok(none) else MergeCandidate(c, approved, trusted, previous.value, none);
        var both :- MergeCandidate(c, approved, trusted, response, first);
        Ok(WithSignatures(approved, both))
  }

  // ---- What a merge means ----

  /** The approval itself is unsigned and agrees with the wallet. */
  ghost predicate ApprovedOk(c: Crypto, approved: Psbt, trusted: seq<TrustedInput>) {
    && ShapeOk(approved, trusted)
    && forall i :: 0 <= i < |trusted| ==>
      CheckMetadata(c, approved.inputs[i], trusted[i], approved.tx, i).Pass? && Unsigned(approved.inputs[i])
  }

  predicate AllOk(read: seq<Result<Signatures, Error>>) {
    forall i | 0 <= i < |read| :: read[i].Ok?
  }

  function Values(read: seq<Result<Signatures, Error>>): (r: seq<Signatures>)
    requires AllOk(read)
  {
    seq(|read|, i requires 0 <= i < |read| => read[i].value)
  }

  predicate AgreeAll(a: seq<Signatures>, b: seq<Signatures>)
    requires |a| == |b|
  {
    forall i | 0 <= i < |a| :: Agree(a[i], b[i])
  }

  function Join(a: seq<Signatures>, b: seq<Signatures>): seq<Signatures>
    requires |a| == |b|
  {
    seq(|a|, i requires 0 <= i < |a| => a[i] + b[i])
  }

  predicate Acceptable(c: Crypto, approved: Psbt, trusted: seq<TrustedInput>, candidate: Psbt)
    requires ShapeOk(approved, trusted)
  {
    SameApproval(approved, trusted, candidate) && AllOk(Reads(c, approved, trusted, candidate))
  }

  /** The verified signatures of an acceptable candidate, input by input. */
  function Supplied(c: Crypto, approved: Psbt, trusted: seq<TrustedInput>, candidate: Psbt): (r: seq<Signatures>)
    requires ShapeOk(approved, trusted) && Acceptable(c, approved, trusted, candidate)
  {
    Values(Reads(c, approved, trusted, candidate))
  }

  lemma {:induction false} CheckApprovedExact(c: Crypto, approved: Psbt, trusted: seq<TrustedInput>, i: nat)
    requires ShapeOk(approved, trusted) && i <= |trusted|
    ensures CheckApproved(c, approved, trusted, i).Pass? <==>
      forall j :: i <= j < |trusted| ==>
        CheckMetadata(c, approved.inputs[j], trusted[j], approved.tx, j).Pass? && Unsigned(approved.inputs[j])
    decreases |trusted| - i
  {
    if i < |trusted| {
      CheckApprovedExact(c, approved, trusted, i + 1);
    }
  }

  lemma {:induction false} MergeReadsFrom(read: seq<Result<Signatures, Error>>, merged: seq<Signatures>, i: nat)
    requires i <= |read| == |merged|
    ensures MergeReads(read, merged, i).Ok? <==>
      forall j :: i <= j < |read| ==> read[j].Ok? && Agree(merged[j], read[j].value)
    ensures MergeReads(read, merged, i).Ok? ==>
      forall j :: 0 <= j < |read| ==>
        MergeReads(read, merged, i).value[j] == if j < i then merged[j] else merged[j] + read[j].value
    decreases |read| - i
  {
    if i < |read| && read[i].Ok? && Agree(merged[i], read[i].value) {
      MergeReadsFrom(read, merged[i := merged[i] + read[i].value], i + 1);
    }
  }

  lemma MergeReadsExact(read: seq<Result<Signatures, Error>>, merged: seq<Signatures>)
    requires |read| == |merged|
    ensures MergeReads(read, merged, 0).Ok? <==> AllOk(read) && AgreeAll(merged, Values(read))
    ensures MergeReads(read, merged, 0).Ok? ==> MergeReads(read, merged, 0).value == Join(merged, Values(read))
  {
    MergeReadsFrom(read, merged, 0);
    if AllOk(read) && AgreeAll(merged, Values(read)) {
      forall j | 0 <= j < |read| ensures Agree(merged[j], read[j].value) {
        assert Agree(merged[j], Values(read)[j]);
      }
    }
  }

  lemma JoinNothing(sigs: seq<Signatures>)
    ensures AgreeAll(NoSignatures(|sigs|), sigs) && Join(NoSignatures(|sigs|), sigs) == sigs
    ensures AgreeAll(sigs, NoSignatures(|sigs|)) && Join(sigs, NoSignatures(|sigs|)) == sigs
  {
    forall i | 0 <= i < |sigs|
      ensures Join(NoSignatures(|sigs|), sigs)[i] == sigs[i] == Join(sigs, NoSignatures(|sigs|))[i]
    {
      assert map[] + sigs[i] == sigs[i] == sigs[i] + map[];
    }
  }

  /** What the earlier candidate contributed; nothing when there is none. */
  function Before(c: Crypto, approved: Psbt, previous: Option<Psbt>, trusted: seq<TrustedInput>): (r: seq<Signatures>)
    requires ShapeOk(approved, trusted)
    requires previous.Some? ==> Acceptable(c, approved, trusted, previous.value)
  {
    if previous.None? then NoSignatures(|trusted|) else Supplied(c, approved, trusted, previous.value)
  }

  ghost predicate MergeCondition(
      c: Crypto, approved: Psbt, previous: Option<Psbt>, response: Psbt, trusted: seq<TrustedInput>)
  {
    && ApprovedOk(c, approved, trusted)
    && (previous.Some? ==> Acceptable(c, approved, trusted, previous.value))
    && Acceptable(c, approved, trusted, response)
    && AgreeAll(Before(c, approved, previous, trusted), Supplied(c, approved, trusted, response))
  }

  ghost function Union(c: Crypto, approved: Psbt, previous: Option<Psbt>, response: Psbt, trusted: seq<TrustedInput>)
    : (r: seq<Signatures>)
    requires MergeCondition(c, approved, previous, response, trusted)
  {
    Join(Before(c, approved, previous, trusted), Supplied(c, approved, trusted, response))
  }

  lemma MergeFirst(c: Crypto, approved: Psbt, trusted: seq<TrustedInput>, candidate: Psbt)
    requires ShapeOk(approved, trusted)
    ensures MergeCandidate(c, approved, trusted, candidate, NoSignatures(|trusted|)) ==
      if !SameApproval(approved, trusted, candidate) then Err(Mismatch)
      else MergeReads(Reads(c, approved, trusted, candidate), NoSignatures(|trusted|), 0)
    ensures MergeCandidate(c, approved, trusted, candidate, NoSignatures(|trusted|)).Ok? <==>
      Acceptable(c, approved, trusted, candidate)
    ensures Acceptable(c, approved, trusted, candidate) ==>
      MergeCandidate(c, approved, trusted, candidate, NoSignatures(|trusted|)).value ==
        Supplied(c, approved, trusted, candidate)
  {
    if SameApproval(approved, trusted, candidate) {
      var read := Reads(c, approved, trusted, candidate);
      MergeReadsExact(read, NoSignatures(|trusted|));
      if AllOk(read) {
        JoinNothing(Values(read));
      }
    }
  }

  lemma MergeSecond(c: Crypto, approved: Psbt, trusted: seq<TrustedInput>, candidate: Psbt, first: seq<Signatures>)
    requires ShapeOk(approved, trusted) && |first| == |trusted|
    ensures MergeCandidate(c, approved, trusted, candidate, first).Ok? <==>
      && Acceptable(c, approved, trusted, candidate)
      && AgreeAll(first, Supplied(c, approved, trusted, candidate))
    ensures MergeCandidate(c, approved, trusted, candidate, first).Ok? ==>
      MergeCandidate(c, approved, trusted, candidate, first).value ==
        Join(first, Supplied(c, approved, trusted, candidate))
  {
    if SameApproval(approved, trusted, candidate) {
      MergeReadsExact(Reads(c, approved, trusted, candidate), first);
    }
  }

  /**
   * A merge succeeds exactly when the approval is sound, every candidate is acceptable
   * and no two of their signatures conflict; its value is the approved PSBT plus exactly
   * the union of the supplied signatures.
   */
  lemma MergeIsUnion(c: Crypto, approved: Psbt, previous: Option<Psbt>, response: Psbt, trusted: seq<TrustedInput>)
    ensures Merge(c, approved, previous, response, trusted).Ok? <==>
      MergeCondition(c, approved, previous, response, trusted)
    ensures MergeCondition(c, approved, previous, response, trusted) ==>
      Merge(c, approved, previous, response, trusted) ==
        Ok(WithSignatures(approved, Union(c, approved, previous, response, trusted)))
  {
    if ShapeOk(approved, trusted) {
      CheckApprovedExact(c, approved, trusted, 0);
      if previous.Some? {
        MergeFirst(c, approved, trusted, previous.value);
      }
      if previous.Some? ==> Acceptable(c, approved, trusted, previous.value) {
        MergeSecond(c, approved, trusted, response, Before(c, approved, previous, trusted));
      }
    }
  }

  // ---- The loops of merge_response ----

  /** Insert verified signatures one at a time, in any order; a different signature under one key is refused. */
  method InsertAll(have: Signatures, sigs: Signatures) returns (r: Result<Signatures, Error>)
    ensures r == AddSignatures(have, sigs)
  {
    var merged, todo := have, sigs.Keys;
    while todo != {}
      invariant todo <= sigs.Keys
      invariant forall key :: key in sigs && key !in todo && key in have ==> have[key] == sigs[key]
      invariant merged == have + (sigs - todo)
      decreases todo
    {
      var key :| key in todo;
      if key in merged && merged[key] != sigs[key] {
        assert key in have;
        return Err(Mismatch);
      }
      merged := merged[key := sigs[key]];
      todo := todo - {key};
    }
    assert sigs - {} == sigs;
    r := Ok(merged);
  }

  /** One candidate, checked and folded into the aggregate input by input. */
  method MergeInto(c: Crypto, approved: Psbt, trusted: seq<TrustedInput>, candidate: Psbt, start: seq<Signatures>)
    returns (r: Result<seq<Signatures>, Error>)
    requires ShapeOk(approved, trusted) && |start| == |trusted|
    ensures r == MergeCandidate(c, approved, trusted, candidate, start)
  {
    if !SameApproval(approved, trusted, candidate) {
      return Err(Mismatch);
    }
    ghost var read := Reads(c, approved, trusted, candidate);
    var merged := start;
    for index := 0 to |candidate.inputs|
      invariant |merged| == |trusted|
      invariant MergeReads(read, start, 0) == MergeReads(read, merged, index)
    {
      assert read[index] == ReadInput(c, approved, trusted, candidate, index);
      var metadata := CheckMetadata(c, candidate.inputs[index], trusted[index], approved.tx, index);
      if metadata.Fail? {
        return Err(metadata.error);
      }
      var sigs := InputSignatures(c, approved.tx, index, candidate.inputs[index], trusted[index]);
      if sigs.Err? {
        return Err(sigs.error);
      }
      var inserted := InsertAll(merged[index], sigs.value);
      if inserted.Err? {
        return Err(inserted.error);
      }
      merged := merged[index := inserted.value];
    }
    r := Ok(merged);
  }

  method MergeResponse(c: Crypto, approved: Psbt, previous: Option<Psbt>, response: Psbt, trusted: seq<TrustedInput>)
    returns (r: Result<Psbt, Error>)
    ensures r == Merge(c, approved, previous, response, trusted)
  {
    if !ShapeOk(approved, trusted) {
      return Err(CorruptState);
    }
    for index := 0 to |approved.inputs|
      invariant CheckApproved(c, approved, trusted, 0) == CheckApproved(c, approved, trusted, index)
    {
      var metadata := CheckMetadata(c, approved.inputs[index], trusted[index], approved.tx, index);
      if metadata.Fail? {
        return Err(metadata.error);
      }
      if !Unsigned(approved.inputs[index]) {
        return Err(CorruptState);
      }
    }
    var merged := NoSignatures(|trusted|);
    if previous.Some? {
      var first := MergeInto(c, approved, trusted, previous.value, merged);
      if first.Err? {
        return Err(first.error);
      }
      merged := first.value;
    }
    var second := MergeInto(c, approved, trusted, response, merged);
    if second.Err? {
      return Err(second.error);
    }
    r := Ok(WithSignatures(approved, second.value));
  }
}
