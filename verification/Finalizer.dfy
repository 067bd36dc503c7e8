/**
 * Assembly of final witnesses from a verified aggregate, and the proof that the
 * assembler's own re-validation can never refuse what it assembled.
 */
module Finalizer {
  import opened Wrappers
  import opened ByteStrings
  import opened Psbts
  import opened Signing
  import opened SigningLaws
  import Multisig

  /** The first `n` keys from position `from` that have a signature, with their signatures. */
  function FirstSigned(keys: seq<PublicKey>, sigs: Signatures, from: nat, n: nat): seq<(PublicKey, Signature)>
    decreases |keys| - from
  {
    if n == 0 || from >= |keys| then []
    else if keys[from] in sigs then [(keys[from], sigs[keys[from]])] + FirstSigned(keys, sigs, from + 1, n - 1)
    else FirstSigned(keys, sigs, from + 1, n)
  }

  function EncodeAll(c: Crypto, signed: seq<(PublicKey, Signature)>): seq<Bytes> {
    seq(|signed|, i requires 0 <= i < |signed| => c.encode(signed[i].1))
  }

  function FinalStack(c: Crypto, t: TrustedInput, sigs: Signatures): Result<seq<Bytes>, Error> {
    var (keys, required) :- TrustedKeys(c, t);
    var signed := FirstSigned(keys, sigs, 0, required);
    :- Need(|signed| == required, CorruptState);
    match t.descriptor
    case Wpkh(_) => Ok([c.encode(signed[0].1), signed[0].0])
    case SortedMulti(_, _) => Ok([[]] + EncodeAll(c, signed) + [c.explicitScript(t.descriptor)])
    case OtherDescriptor => Err(UnsupportedPolicy)
  }

  function FinalStacks(c: Crypto, trusted: seq<TrustedInput>, merged: Psbt): (r: Result<seq<seq<Bytes>>, Error>)
    requires |merged.inputs| == |trusted|
    ensures r.Ok? ==> |r.value| == |trusted|
  {
    Collect(seq(|trusted|, i requires 0 <= i < |trusted| => FinalStack(c, trusted[i], merged.inputs[i].partialSigs)))
  }

  /** The approved PSBT carrying final witnesses in place of partial signatures. */
  function WithWitnesses(approved: Psbt, stacks: seq<seq<Bytes>>): Psbt
    requires |stacks| == |approved.inputs|
  {
    approved.(inputs := seq(|stacks|, i requires 0 <= i < |stacks| => approved.inputs[i].(finalWitness := Some(stacks[i]))))
  }

  function Finalize(c: Crypto, approved: Psbt, stored: Option<Psbt>, trusted: seq<TrustedInput>): Result<Transaction, Error> {
    var merged :- Merge(c, approved, stored, approved, trusted);
    :- Need(Complete(c, merged, trusted), Unavailable);
    var stacks :- FinalStacks(c, trusted, merged);
    var transaction := Attach(approved.tx, stacks);
    var checked :- Merge(c, approved, None, WithWitnesses(approved, stacks), trusted);
    :- Need(ComputeTxid(c, transaction) == ComputeTxid(c, approved.tx), CorruptState);
    Ok(transaction)
  }

  /** Final bytes differ from the approved transaction only in their witnesses. */
  lemma FinalStripsToApproved(c: Crypto, approved: Psbt, stored: Option<Psbt>, trusted: seq<TrustedInput>)
    requires Finalize(c, approved, stored, trusted).Ok?
    ensures Strip(Finalize(c, approved, stored, trusted).value) == Strip(approved.tx)
  {
    hide Merge, Complete, ComputeTxid;
    var merged := Merge(c, approved, stored, approved, trusted).value;
    var stacks := FinalStacks(c, trusted, merged).value;
    assert Strip(Attach(approved.tx, stacks)).inputs == Strip(approved.tx).inputs;
  }

  // ---- The chosen keys form an increasing assignment ----

  ghost function Positions(keys: seq<PublicKey>, sigs: Signatures, from: nat, n: nat): seq<nat>
    decreases |keys| - from
  {
    if n == 0 || from >= |keys| then []
    else if keys[from] in sigs then [from] + Positions(keys, sigs, from + 1, n - 1)
    else Positions(keys, sigs, from + 1, n)
  }

  lemma {:induction false} PositionsMatch(keys: seq<PublicKey>, sigs: Signatures, from: nat, n: nat)
    ensures var signed, at := FirstSigned(keys, sigs, from, n), Positions(keys, sigs, from, n);
      && |at| == |signed| <= n
      && Multisig.Increasing(at)
      && forall i :: 0 <= i < |at| ==>
        && from <= at[i] < |keys| && keys[at[i]] in sigs
        && signed[i] == (keys[at[i]], sigs[keys[at[i]]])
    decreases |keys| - from
  {
    if n != 0 && from < |keys| {
      if keys[from] in sigs {
        PositionsMatch(keys, sigs, from + 1, n - 1);
      } else {
        PositionsMatch(keys, sigs, from + 1, n);
      }
    }
  }

  ghost function SignedKeys(keys: seq<PublicKey>, sigs: Signatures, from: nat): set<PublicKey>
  {
    set i | from <= i < |keys| && keys[i] in sigs :: keys[i]
  }

  lemma {:induction false} EnoughSigned(keys: seq<PublicKey>, sigs: Signatures, from: nat, n: nat)
    requires n <= |SignedKeys(keys, sigs, from)|
    ensures |FirstSigned(keys, sigs, from, n)| == n
    decreases |keys| - from
  {
    var here, rest := SignedKeys(keys, sigs, from), SignedKeys(keys, sigs, from + 1);
    if from >= |keys| {
      assert here == {};
    } else if n != 0 {
      if keys[from] in sigs {
        assert here == rest + {keys[from]};
        EnoughSigned(keys, sigs, from + 1, n - 1);
      } else {
        assert here == rest;
        EnoughSigned(keys, sigs, from + 1, n);
      }
    }
  }

  lemma OwnedAreFound(keys: seq<PublicKey>, sigs: Signatures, required: nat)
    requires forall key :: key in sigs ==> key in keys
    requires required <= |sigs|
    ensures |FirstSigned(keys, sigs, 0, required)| == required
  {
    assert SignedKeys(keys, sigs, 0) == sigs.Keys;
    assert |sigs.Keys| == |sigs|;
    EnoughSigned(keys, sigs, 0, required);
  }

  lemma {:induction false} EncodedDecode(c: Crypto, items: seq<Bytes>, sigs: seq<Signature>)
    requires SignaturesRoundTrip(c) && |items| == |sigs|
    requires forall i :: 0 <= i < |sigs| ==> items[i] == c.encode(sigs[i])
    ensures DecodeAll(c, items) == Some(sigs)
  {
    if items != [] {
      EncodedDecode(c, items[1..], sigs[1..]);
      assert c.decode(c.encode(sigs[0])) == Some(sigs[0]);
      assert sigs == [sigs[0]] + sigs[1..];
    }
  }

  /** A stack built from validly assigned signatures is read back with as many entries. */
  lemma AssignedStackReads(c: Crypto, tx: Transaction, i: nat, t: TrustedInput, keys: seq<PublicKey>,
                           stack: seq<Bytes>, sigs: seq<Signature>, at: seq<nat>)
    requires SignaturesRoundTrip(c) && |sigs| != 1 && Multisig.Distinct(keys)
    requires |stack| == |sigs| + 2 && stack[0] == [] && stack[|sigs| + 1] == c.explicitScript(t.descriptor)
    requires forall j :: 0 <= j < |sigs| ==> stack[1..|sigs| + 1][j] == c.encode(sigs[j])
    requires Multisig.IsAssignment(keys, 0, sigs, Checker(c, tx, i, t), at)
    ensures var read := WitnessSignatures(c, tx, i, stack, t, keys, |sigs|);
      read.Ok? && |read.value| == |sigs|
  {
    EncodedDecode(c, stack[1..|sigs| + 1], sigs);
    AssignedAreRecorded(keys, sigs, Checker(c, tx, i, t), at);
    hide Multisig.IsAssignment, Multisig.Greedy, Multisig.Recorded, Multisig.Distinct, Checker, SignaturesRoundTrip, DecodeAll;
    ScanReads(c, tx, i, t, keys, stack, sigs);
  }

  lemma AssignedAreRecorded(keys: seq<PublicKey>, sigs: seq<Signature>, valid: (PublicKey, Signature) -> bool, at: seq<nat>)
    requires Multisig.Distinct(keys) && Multisig.IsAssignment(keys, 0, sigs, valid, at)
    ensures Multisig.Greedy(keys, 0, sigs, valid).Some?
    ensures |Multisig.Recorded(keys, sigs, Multisig.Greedy(keys, 0, sigs, valid).value, |sigs|)| == |sigs|
  {
    Multisig.GreedyComplete(keys, 0, sigs, valid, at);
    var chosen := Multisig.Greedy(keys, 0, sigs, valid).value;
    hide Multisig.Greedy, Multisig.Recorded, Multisig.Distinct;
    Multisig.RecordedExact(keys, sigs, valid, chosen, |sigs|);
  }

  lemma ScanReads(c: Crypto, tx: Transaction, i: nat, t: TrustedInput, keys: seq<PublicKey>, stack: seq<Bytes>,
                  sigs: seq<Signature>)
    requires |sigs| != 1
    requires |stack| == |sigs| + 2 && stack[0] == [] && stack[|sigs| + 1] == c.explicitScript(t.descriptor)
    requires DecodeAll(c, stack[1..|sigs| + 1]) == Some(sigs)
    requires Multisig.Greedy(keys, 0, sigs, Checker(c, tx, i, t)).Some?
    ensures WitnessSignatures(c, tx, i, stack, t, keys, |sigs|)
      == Ok(Multisig.Recorded(keys, sigs, Multisig.Greedy(keys, 0, sigs, Checker(c, tx, i, t)).value, |sigs|))
  {
    hide DecodeAll, Checker, Multisig.Recorded;
  }

  lemma SignedAreAssigned(c: Crypto, tx: Transaction, i: nat, t: TrustedInput, keys: seq<PublicKey>, sigs: Signatures,
                          required: nat, chosen: seq<Signature>, valid: (PublicKey, Signature) -> bool)
    requires forall key :: key in sigs ==> key in keys && valid(key, sigs[key])
    requires required <= |sigs|
    requires |FirstSigned(keys, sigs, 0, required)| == |chosen|
    requires forall j :: 0 <= j < |chosen| ==> chosen[j] == FirstSigned(keys, sigs, 0, required)[j].1
    ensures Multisig.IsAssignment(keys, 0, chosen, valid, Positions(keys, sigs, 0, required))
  {
    PositionsMatch(keys, sigs, 0, required);
  }

  /** The multisig witness of a verified aggregate passes the greedy scan with as many signatures. */
  lemma MultisigStackIsAccepted(c: Crypto, tx: Transaction, i: nat, t: TrustedInput, sigs: Signatures)
    requires SignaturesRoundTrip(c)
    requires OwnedInput(c, tx, i, t, sigs) && t.descriptor.SortedMulti?
    requires |sigs| >= TrustedKeys(c, t).value.1
    ensures FinalStack(c, t, sigs).Ok?
    ensures var (keys, required) := TrustedKeys(c, t).value;
      var read := WitnessSignatures(c, tx, i, FinalStack(c, t, sigs).value, t, keys, required);
      read.Ok? && |read.value| == required
  {
    var (keys, required) := TrustedKeys(c, t).value;
    OwnedAreFound(keys, sigs, required);
    var signed := FirstSigned(keys, sigs, 0, required);
    var chosen := seq(|signed|, j requires 0 <= j < |signed| => signed[j].1);
    var valid := Checker(c, tx, i, t);
    SignedAreAssigned(c, tx, i, t, keys, sigs, required, chosen, valid);
    var stack := [[]] + EncodeAll(c, signed) + [c.explicitScript(t.descriptor)];
    assert stack[1..required + 1] == EncodeAll(c, signed);
    AssignedStackReads(c, tx, i, t, keys, stack, chosen, Positions(keys, sigs, 0, required));
  }

  lemma SingleStackIsAccepted(c: Crypto, tx: Transaction, i: nat, t: TrustedInput, sigs: Signatures)
    requires SignaturesRoundTrip(c)
    requires OwnedInput(c, tx, i, t, sigs) && t.descriptor.Wpkh?
    requires |sigs| >= TrustedKeys(c, t).value.1
    ensures FinalStack(c, t, sigs).Ok?
    ensures var (keys, required) := TrustedKeys(c, t).value;
      var read := WitnessSignatures(c, tx, i, FinalStack(c, t, sigs).value, t, keys, required);
      read.Ok? && |read.value| == required
  {
    var (keys, required) := TrustedKeys(c, t).value;
    OwnedAreFound(keys, sigs, required);
    PositionsMatch(keys, sigs, 0, required);
    var at := Positions(keys, sigs, 0, required);
    assert at[0] == 0;
    assert c.decode(c.encode(sigs[keys[0]])) == Some(sigs[keys[0]]);
  }

  lemma StackIsAccepted(c: Crypto, tx: Transaction, i: nat, t: TrustedInput, sigs: Signatures)
    requires SignaturesRoundTrip(c)
    requires OwnedInput(c, tx, i, t, sigs)
    requires |sigs| >= TrustedKeys(c, t).value.1
    ensures FinalStack(c, t, sigs).Ok?
    ensures var (keys, required) := TrustedKeys(c, t).value;
      var read := WitnessSignatures(c, tx, i, FinalStack(c, t, sigs).value, t, keys, required);
      read.Ok? && |read.value| == required
  {
    match t.descriptor
    case Wpkh(_) => SingleStackIsAccepted(c, tx, i, t, sigs);
    case SortedMulti(_, _) => MultisigStackIsAccepted(c, tx, i, t, sigs);
  }

  /** What the re-validation reads from one final witness. */
  ghost function WitnessRead(c: Crypto, approved: Psbt, trusted: seq<TrustedInput>, stacks: seq<seq<Bytes>>, i: nat)
    : Result<Signatures, Error>
    requires |stacks| == |trusted| && i < |trusted|
  {
    var (keys, required) :- TrustedKeys(c, trusted[i]);
    WitnessSignatures(c, approved.tx, i, stacks[i], trusted[i], keys, required)
  }

  ghost predicate WitnessSuffices(c: Crypto, approved: Psbt, trusted: seq<TrustedInput>, stacks: seq<seq<Bytes>>, i: nat)
    requires |stacks| == |trusted| && i < |trusted|
  {
    && TrustedKeys(c, trusted[i]).Ok?
    && WitnessRead(c, approved, trusted, stacks, i).Ok?
    && |WitnessRead(c, approved, trusted, stacks, i).value| == TrustedKeys(c, trusted[i]).value.1
  }

  lemma WitnessedInputReads(c: Crypto, approved: Psbt, trusted: seq<TrustedInput>, stacks: seq<seq<Bytes>>, i: nat)
    requires ApprovedOk(c, approved, trusted) && |stacks| == |trusted| && i < |trusted|
    ensures ReadInput(c, approved, trusted, WithWitnesses(approved, stacks), i) ==
      WitnessRead(c, approved, trusted, stacks, i)
  {
    assert CheckMetadata(c, approved.inputs[i], trusted[i], approved.tx, i).Pass? && Unsigned(approved.inputs[i]);
    var input := WithWitnesses(approved, stacks).inputs[i];
    assert CheckMetadata(c, input, trusted[i], approved.tx, i).Pass?;
    assert input.partialSigs == map[] && input.finalWitness == Some(stacks[i]);
  }

  lemma WitnessedIsMerged(c: Crypto, approved: Psbt, trusted: seq<TrustedInput>, stacks: seq<seq<Bytes>>)
    requires ApprovedOk(c, approved, trusted) && WellFormed(approved, trusted) && |stacks| == |trusted|
    requires forall i :: 0 <= i < |trusted| ==> WitnessSuffices(c, approved, trusted, stacks, i)
    ensures Merge(c, approved, None, WithWitnesses(approved, stacks), trusted).Ok?
    ensures var again := Merge(c, approved, None, WithWitnesses(approved, stacks), trusted).value;
      && |again.inputs| == |trusted|
      && forall i :: 0 <= i < |trusted| ==>
        Ok(again.inputs[i].partialSigs) == WitnessRead(c, approved, trusted, stacks, i)
  {
    var candidate := WithWitnesses(approved, stacks);
    var read := Reads(c, approved, trusted, candidate);
    forall i | 0 <= i < |trusted|
      ensures read[i] == WitnessRead(c, approved, trusted, stacks, i) && read[i].Ok?
    {
      WitnessedInputReads(c, approved, trusted, stacks, i);
      assert WitnessSuffices(c, approved, trusted, stacks, i);
    }
    assert SameApproval(approved, trusted, candidate);
    JoinNothing(Values(read));
    MergeIsUnion(c, approved, None, candidate, trusted);
  }

  /**
   * Finalization succeeds exactly when the stored aggregate verifies and is complete.
   * Its own re-validation and transaction-id check never fire, the transaction differs
   * from the approval only in witnesses, and those witnesses, merged from scratch, are
   * a complete aggregate again with exactly the required signatures per input.
   */
  lemma FinalizeIsTotalOnComplete(c: Crypto, approved: Psbt, stored: Option<Psbt>, trusted: seq<TrustedInput>)
    requires SignaturesRoundTrip(c)
    ensures Finalize(c, approved, stored, trusted).Ok? <==>
      && Merge(c, approved, stored, approved, trusted).Ok?
      && Complete(c, Merge(c, approved, stored, approved, trusted).value, trusted)
    ensures Finalize(c, approved, stored, trusted).Ok? ==>
      var merged := Merge(c, approved, stored, approved, trusted).value;
      && FinalStacks(c, trusted, merged).Ok?
      && var stacks := FinalStacks(c, trusted, merged).value;
      && |stacks| == |approved.inputs| == |approved.tx.inputs|
      && Finalize(c, approved, stored, trusted) == Ok(Attach(approved.tx, stacks))
      && Merge(c, approved, None, WithWitnesses(approved, stacks), trusted).Ok?
      && var again := Merge(c, approved, None, WithWitnesses(approved, stacks), trusted).value;
      && Complete(c, again, trusted)
      && forall i :: 0 <= i < |trusted| ==> |again.inputs[i].partialSigs| == TrustedKeys(c, trusted[i]).value.1
  {
    if Merge(c, approved, stored, approved, trusted).Ok? {
      var merged := Merge(c, approved, stored, approved, trusted).value;
      if Complete(c, merged, trusted) {
        CompleteStacks(c, approved, stored, trusted);
        var stacks := FinalStacks(c, trusted, merged).value;
        AttachKeepsTxid(c, approved.tx, stacks);
      }
    }
  }

  lemma CompleteStacks(c: Crypto, approved: Psbt, stored: Option<Psbt>, trusted: seq<TrustedInput>)
    requires SignaturesRoundTrip(c)
    requires Merge(c, approved, stored, approved, trusted).Ok?
    requires Complete(c, Merge(c, approved, stored, approved, trusted).value, trusted)
    ensures var merged := Merge(c, approved, stored, approved, trusted).value;
      && FinalStacks(c, trusted, merged).Ok?
      && var stacks := FinalStacks(c, trusted, merged).value;
      && |stacks| == |approved.inputs| == |approved.tx.inputs|
      && Merge(c, approved, None, WithWitnesses(approved, stacks), trusted).Ok?
      && var again := Merge(c, approved, None, WithWitnesses(approved, stacks), trusted).value;
      && Complete(c, again, trusted)
      && forall i :: 0 <= i < |trusted| ==> |again.inputs[i].partialSigs| == TrustedKeys(c, trusted[i]).value.1
  {
    var merged := Merge(c, approved, stored, approved, trusted).value;
    MergedAreOwned(c, approved, stored, approved, trusted);
    MergeIsUnion(c, approved, stored, approved, trusted);
    AllReadBack(c, approved, stored, trusted);
    StacksRead(c, approved, trusted, merged);
    var stacks := FinalStacks(c, trusted, merged).value;
    WitnessedIsMerged(c, approved, trusted, stacks);
    var again := Merge(c, approved, None, WithWitnesses(approved, stacks), trusted).value;
    forall i | 0 <= i < |trusted|
      ensures TrustedKeys(c, trusted[i]).Ok? && |again.inputs[i].partialSigs| == TrustedKeys(c, trusted[i]).value.1
    {
      assert WitnessSuffices(c, approved, trusted, stacks, i);
    }
  }

  lemma StacksRead(c: Crypto, approved: Psbt, trusted: seq<TrustedInput>, merged: Psbt)
    requires |merged.inputs| == |trusted|
    requires forall i :: 0 <= i < |trusted| ==> StackReadsBack(c, approved, trusted, merged, i)
    ensures FinalStacks(c, trusted, merged).Ok?
    ensures var stacks := FinalStacks(c, trusted, merged).value;
      forall i :: 0 <= i < |trusted| ==> WitnessSuffices(c, approved, trusted, stacks, i)
  {
    var each := seq(|trusted|, i requires 0 <= i < |trusted| => FinalStack(c, trusted[i], merged.inputs[i].partialSigs));
    forall i | 0 <= i < |each| ensures each[i].Ok? {
      assert StackReadsBack(c, approved, trusted, merged, i);
    }
    assert Collect(each).Ok?;
    var stacks := FinalStacks(c, trusted, merged).value;
    forall i | 0 <= i < |trusted| ensures WitnessSuffices(c, approved, trusted, stacks, i) {
      assert StackReadsBack(c, approved, trusted, merged, i);
      assert each[i] == Ok(stacks[i]);
    }
  }

  lemma AllReadBack(c: Crypto, approved: Psbt, stored: Option<Psbt>, trusted: seq<TrustedInput>)
    requires SignaturesRoundTrip(c)
    requires Merge(c, approved, stored, approved, trusted).Ok?
    requires Complete(c, Merge(c, approved, stored, approved, trusted).value, trusted)
    ensures var merged := Merge(c, approved, stored, approved, trusted).value;
      forall i :: 0 <= i < |trusted| ==> StackReadsBack(c, approved, trusted, merged, i)
  {
    var sigs := MergedSignatures(c, approved, stored, approved, trusted);
    var merged := WithSignatures(approved, sigs);
    MergedAreOwned(c, approved, stored, approved, trusted);
    forall i | 0 <= i < |trusted|
      ensures StackReadsBack(c, approved, trusted, merged, i)
    {
      assert OwnedInput(c, approved.tx, i, trusted[i], sigs[i]);
      assert merged.inputs[i].partialSigs == sigs[i];
      StackIsAccepted(c, approved.tx, i, trusted[i], sigs[i]);
    }
  }

  ghost predicate StackReadsBack(c: Crypto, approved: Psbt, trusted: seq<TrustedInput>, merged: Psbt, i: nat)
    requires |merged.inputs| == |trusted| && i < |trusted|
  {
    && TrustedKeys(c, trusted[i]).Ok?
    && FinalStack(c, trusted[i], merged.inputs[i].partialSigs).Ok?
    && var (keys, required) := TrustedKeys(c, trusted[i]).value;
    && var stack := FinalStack(c, trusted[i], merged.inputs[i].partialSigs).value;
    && WitnessSignatures(c, approved.tx, i, stack, trusted[i], keys, required).Ok?
    && |WitnessSignatures(c, approved.tx, i, stack, trusted[i], keys, required).value| == required
  }

  /** The assembling loop: one witness per policy, then the merge of the result from scratch. */
  method FinalizeTransaction(c: Crypto, approved: Psbt, stored: Option<Psbt>, trusted: seq<TrustedInput>)
    returns (r: Result<Transaction, Error>)
    ensures r == Finalize(c, approved, stored, trusted)
  {
    hide Merge, FinalStack, Complete, ComputeTxid, CheckApproved;
    var merge := MergeResponse(c, approved, stored, approved, trusted);
    if merge.Err? {
      return Err(merge.error);
    }
    var merged := merge.value;
    if !Complete(c, merged, trusted) {
      return Err(Unavailable);
    }
    ghost var each := seq(|trusted|, i requires 0 <= i < |trusted| => FinalStack(c, trusted[i], merged.inputs[i].partialSigs));
    var stacks: seq<seq<Bytes>> := [];
    for index := 0 to |trusted|
      invariant |stacks| == index
      invariant forall i :: 0 <= i < index ==> each[i] == Ok(stacks[i])
    {
      var stack := FinalStack(c, trusted[index], merged.inputs[index].partialSigs);
      if stack.Err? {
        CollectStopsAt(each, index);
        return Err(stack.error);
      }
      stacks := stacks + [stack.value];
    }
    assert Collect(each).value == stacks;
    var transaction := Attach(approved.tx, stacks);
    var checked := MergeResponse(c, approved, None, WithWitnesses(approved, stacks), trusted);
    if checked.Err? {
      return Err(checked.error);
    }
    if ComputeTxid(c, transaction) != ComputeTxid(c, approved.tx) {
      return Err(CorruptState);
    }
    r := Ok(transaction);
  }
}
