/**
 * What an approval, a response and a policy must say, field by field, for a merge to
 * accept them. Nothing here is defined by the functions that decide it.
 */
module Responses {
  import opened Wrappers
  import opened ByteStrings
  import opened Psbts
  import opened Signing
  import Multisig

  // ---- The policy ----

  /** One compressed key, or two of three in strictly increasing byte order, that derive the wallet's own script. */
  ghost predicate IsPolicy(c: Crypto, t: TrustedInput, keys: seq<PublicKey>, required: nat) {
    && c.scriptPubkey(t.descriptor) == t.prevout.script
    && (forall i :: 0 <= i < |keys| ==> |keys[i]| == 33)
    && (forall i, j :: 0 <= i < j < |keys| ==> keys[i] != keys[j] && LexLeq(keys[i], keys[j]))
    && match t.descriptor
       case Wpkh(key) => keys == [key] && required == 1
       case SortedMulti(k, given) => k == 2 && |given| == 3 && required == 2 && multiset(keys) == multiset(given)
       case OtherDescriptor => false
  }

  lemma SortOfOne(key: PublicKey)
    ensures SortKeys([key]) == [key]
  {
    assert [key][1..] == [];
  }

  lemma SortOfThree(given: seq<PublicKey>, keys: seq<PublicKey>)
    requires |given| == 3
    ensures DistinctKeys(keys) && keys == SortKeys(given) <==>
      multiset(keys) == multiset(given) && forall i, j :: 0 <= i < j < |keys| ==> keys[i] != keys[j] && LexLeq(keys[i], keys[j])
  {
    SortKeysOrders(given);
    var sorted := SortKeys(given);
    forall i, j | 0 <= i < j < |sorted| ensures LexLeq(sorted[i], sorted[j]) {
      OrderedPair(sorted, i, j);
    }
    hide SortKeys, LexLeq;
    if multiset(keys) == multiset(given) && InLexOrder(keys) {
      OrderIsUnique(keys, sorted);
    }
  }

  /** Whatever order the descriptor lists its keys in, the policy's keys are in byte order. */
  lemma PolicyIsExact(c: Crypto, t: TrustedInput, keys: seq<PublicKey>, required: nat)
    ensures TrustedKeys(c, t) == Ok((keys, required)) <==> IsPolicy(c, t, keys, required)
  {
    if t.descriptor.Wpkh? {
      SortOfOne(t.descriptor.key);
      assert DistinctKeys([t.descriptor.key]);
      hide SortKeys, LexLeq;
    } else if t.descriptor.SortedMulti? {
      MultisigPolicy(c, t, keys, required);
    }
  }

  lemma MultisigPolicy(c: Crypto, t: TrustedInput, keys: seq<PublicKey>, required: nat)
    requires t.descriptor.SortedMulti?
    ensures TrustedKeys(c, t) == Ok((keys, required)) <==> IsPolicy(c, t, keys, required)
  {
    MultisigKeys(c, t);
    if |t.descriptor.keys| == 3 {
      SortOfThree(t.descriptor.keys, keys);
      assert multiset(keys) == multiset(t.descriptor.keys) ==> |multiset(keys)| == |keys| == 3;
    }
    hide TrustedKeys, SortKeys, LexLeq;
  }

  lemma MultisigKeys(c: Crypto, t: TrustedInput)
    requires t.descriptor.SortedMulti?
    ensures var sorted := SortKeys(t.descriptor.keys);
      && (TrustedKeys(c, t).Ok? <==>
            && t.descriptor.threshold == 2 && |t.descriptor.keys| == 3 && (forall i :: 0 <= i < |sorted| ==> |sorted[i]| == 33)
            && DistinctKeys(sorted) && c.scriptPubkey(t.descriptor) == t.prevout.script)
      && (TrustedKeys(c, t).Ok? ==> TrustedKeys(c, t).value == (sorted, 2))
  {
    hide SortKeys, DistinctKeys;
  }

  // ---- Metadata ----

  /** The transaction with every witness emptied and nothing else changed. */
  function WithoutWitnesses(tx: Transaction): Transaction {
    Transaction(
      tx.version, tx.lockTime,
      seq(|tx.inputs|, i requires 0 <= i < |tx.inputs| => TxIn(tx.inputs[i].prev, tx.inputs[i].scriptSig, tx.inputs[i].sequence, [])),
      tx.outputs)
  }

  lemma TxidIsExact(c: Crypto, tx: Transaction)
    ensures ComputeTxid(c, tx) == c.hash(WithoutWitnesses(tx))
  {
    assert Strip(tx).inputs == WithoutWitnesses(tx).inputs;
    assert Strip(tx) == WithoutWitnesses(tx);
  }

  /** Everything an input says beside its signatures is left out or is what the wallet itself derived. */
  ghost predicate IsOwnInput(c: Crypto, input: Input, t: TrustedInput, tx: Transaction, i: nat)
    requires i < |tx.inputs|
  {
    && input.extras == map[]
    && (input.witnessUtxo.Some? ==> input.witnessUtxo.value == t.prevout)
    && (input.witnessScript.Some? ==> t.witnessScript == Some(input.witnessScript.value))
    && (forall key :: key in input.derivations ==> key in t.derivations && input.derivations[key] == t.derivations[key])
    && (input.sighash.Some? ==> input.sighash.value == 1)
    && (input.finalScriptSig.Some? ==> input.finalScriptSig.value == [])
    && (input.nonWitnessUtxo.Some? ==>
          var funding, prev := input.nonWitnessUtxo.value, tx.inputs[i].prev;
          c.hash(WithoutWitnesses(funding)) == prev.txid && prev.vout < |funding.outputs| && funding.outputs[prev.vout] == t.prevout)
  }

  lemma OwnInputIsExact(c: Crypto, input: Input, t: TrustedInput, tx: Transaction, i: nat)
    requires i < |tx.inputs|
    ensures CheckMetadata(c, input, t, tx, i).Pass? <==> IsOwnInput(c, input, t, tx, i)
  {
    if input.nonWitnessUtxo.Some? {
      TxidIsExact(c, input.nonWitnessUtxo.value);
    }
  }

  ghost predicate IsOwnOutput(output: Output, approved: Output) {
    && output.extras == map[]
    && (output.redeemScript.Some? ==> approved.redeemScript == Some(output.redeemScript.value))
    && (output.witnessScript.Some? ==> approved.witnessScript == Some(output.witnessScript.value))
    && (forall key :: key in output.derivations ==> key in approved.derivations && output.derivations[key] == approved.derivations[key])
  }

  /** The same transaction and as many maps; nothing global or on an output that the approval does not say. */
  ghost predicate Describes(approved: Psbt, n: nat, candidate: Psbt) {
    && candidate.version == 0 && candidate.tx == approved.tx
    && |candidate.inputs| == n && |candidate.outputs| == |approved.outputs|
    && candidate.unknown == map[] && candidate.proprietary == map[]
    && (forall key :: key in candidate.xpubs ==> key in approved.xpubs && candidate.xpubs[key] == approved.xpubs[key])
    && (forall i :: 0 <= i < |candidate.outputs| ==> IsOwnOutput(candidate.outputs[i], approved.outputs[i]))
  }

  lemma DescribesIsExact(approved: Psbt, trusted: seq<TrustedInput>, candidate: Psbt)
    ensures SameApproval(approved, trusted, candidate) <==> Describes(approved, |trusted|, candidate)
  {
    if |candidate.outputs| == |approved.outputs| {
      forall i | 0 <= i < |candidate.outputs|
        ensures OutputAllowed(candidate.outputs[i], approved.outputs[i]) <==> IsOwnOutput(candidate.outputs[i], approved.outputs[i])
      {
      }
    }
    hide OutputAllowed, IsOwnOutput;
  }

  /** The approval has a policy and a map for each of its inputs and carries no signature. */
  ghost predicate IsApproval(c: Crypto, approved: Psbt, trusted: seq<TrustedInput>) {
    && approved.version == 0
    && |approved.inputs| == |approved.tx.inputs| == |trusted| && |approved.outputs| == |approved.tx.outputs|
    && forall i :: 0 <= i < |trusted| ==>
         && IsOwnInput(c, approved.inputs[i], trusted[i], approved.tx, i)
         && approved.inputs[i].partialSigs == map[]
         && approved.inputs[i].finalWitness.None? && approved.inputs[i].finalScriptSig.None?
  }

  lemma ApprovalIsExact(c: Crypto, approved: Psbt, trusted: seq<TrustedInput>)
    ensures ApprovedOk(c, approved, trusted) <==> IsApproval(c, approved, trusted)
  {
    if ShapeOk(approved, trusted) {
      forall i | 0 <= i < |trusted|
        ensures CheckMetadata(c, approved.inputs[i], trusted[i], approved.tx, i).Pass?
          <==> IsOwnInput(c, approved.inputs[i], trusted[i], approved.tx, i)
      {
        OwnInputIsExact(c, approved.inputs[i], trusted[i], approved.tx, i);
      }
    }
    hide CheckMetadata, IsOwnInput;
  }

  // ---- Signatures ----

  ghost predicate Verifies(c: Crypto, tx: Transaction, i: nat, t: TrustedInput, key: PublicKey, sig: Signature) {
    sig.sighash == 1 && c.verify(tx, i, t.prevout, t.descriptor, key, sig)
  }

  ghost predicate AllVerify(c: Crypto, tx: Transaction, i: nat, t: TrustedInput, keys: seq<PublicKey>, sigs: Signatures) {
    forall key :: key in sigs ==> key in keys && Verifies(c, tx, i, t, key, sigs[key])
  }

  /** Two signatures under two of the keys, in script order. */
  ghost predicate InScriptOrder(c: Crypto, stack: seq<Bytes>, keys: seq<PublicKey>, sigs: Signatures, a: nat, b: nat)
    requires |stack| == 4
  {
    && a < b < |keys| && keys[a] in sigs && keys[b] in sigs
    && c.decode(stack[1]) == Some(sigs[keys[a]]) && c.decode(stack[2]) == Some(sigs[keys[b]])
  }

  ghost predicate InWitness(c: Crypto, t: TrustedInput, stack: seq<Bytes>, keys: seq<PublicKey>, required: nat, sigs: Signatures) {
    && |sigs| == required
    && if required == 1 then
         |stack| == 2 && |keys| == 1 && stack[1] == keys[0] && keys[0] in sigs && c.decode(stack[0]) == Some(sigs[keys[0]])
       else
         && |stack| == 4 && stack[0] == [] && stack[3] == c.explicitScript(t.descriptor)
         && exists a: nat, b: nat :: InScriptOrder(c, stack, keys, sigs, a, b)
  }

  /** An input supplies these signatures: its partial ones, or in their place those of a final witness. */
  ghost predicate Signs(c: Crypto, tx: Transaction, i: nat, input: Input, t: TrustedInput, keys: seq<PublicKey>, required: nat,
                        sigs: Signatures) {
    && AllVerify(c, tx, i, t, keys, sigs)
    && match input.finalWitness
       case None => sigs == input.partialSigs
       case Some(stack) => input.partialSigs == map[] && InWitness(c, t, stack, keys, required, sigs)
  }

  ghost predicate Supplies(c: Crypto, tx: Transaction, i: nat, input: Input, t: TrustedInput, sigs: Signatures) {
    exists keys, required: nat :: IsPolicy(c, t, keys, required) && Signs(c, tx, i, input, t, keys, required, sigs)
  }

  lemma PairDecodes(c: Crypto, items: seq<Bytes>)
    requires |items| == 2
    ensures DecodeAll(c, items) ==
      match (c.decode(items[0]), c.decode(items[1]))
      case (Some(a), Some(b)) => Some([a, b])
      case (_, _) => None
  {
    var rest := items[1..];
    assert rest[1..] == [];
    assert DecodeAll(c, rest[1..]) == Some([]);
    if c.decode(items[1]).Some? {
      assert [c.decode(items[1]).value] + [] == [c.decode(items[1]).value];
      if c.decode(items[0]).Some? {
        var a, b := c.decode(items[0]).value, c.decode(items[1]).value;
        assert [a] + [b] == [a, b];
      }
    }
  }

  lemma PairIsRecorded(keys: seq<PublicKey>, sigs: seq<Signature>, valid: (PublicKey, Signature) -> bool, at: seq<nat>)
    requires |sigs| == 2 && DistinctKeys(keys) && Multisig.IsAssignment(keys, 0, sigs, valid, at)
    ensures Multisig.Recorded(keys, sigs, at, 2) == map[keys[at[0]] := sigs[0], keys[at[1]] := sigs[1]]
    ensures at[0] < at[1] < |keys| && keys[at[0]] != keys[at[1]]
  {
    assert Multisig.Recorded(keys, sigs, at, 0) == map[];
    assert Multisig.Recorded(keys, sigs, at, 1) == map[keys[at[0]] := sigs[0]];
  }

  /** A final multisig witness is read when two signatures verify under two of the keys in script order. */
  lemma PairIsExact(c: Crypto, tx: Transaction, i: nat, stack: seq<Bytes>, t: TrustedInput, keys: seq<PublicKey>)
    requires DistinctKeys(keys)
    ensures var read := WitnessSignatures(c, tx, i, stack, t, keys, 2);
      && (read.Ok? <==> exists sigs ::
            InWitness(c, t, stack, keys, 2, sigs) && AllVerify(c, tx, i, t, keys, sigs))
      && (read.Ok? ==> InWitness(c, t, stack, keys, 2, read.value)
                       && AllVerify(c, tx, i, t, keys, read.value))
  {
    if |stack| == 4 && stack[0] == [] && stack[3] == c.explicitScript(t.descriptor) {
      var items := stack[1..3];
      PairDecodes(c, items);
      var decoded := DecodeAll(c, items);
      var read := WitnessSignatures(c, tx, i, stack, t, keys, 2);
      if decoded.Some? {
        ReadPair(c, tx, i, stack, t, keys, decoded.value);
      }
      forall sigs | InWitness(c, t, stack, keys, 2, sigs) && AllVerify(c, tx, i, t, keys, sigs) ensures read.Ok? {
        PairReads(c, tx, i, stack, t, keys, sigs);
      }
      hide InWitness, AllVerify, WitnessSignatures, DecodeAll;
    } else {
      assert forall sigs :: !InWitness(c, t, stack, keys, 2, sigs);
    }
  }

  lemma PairReads(c: Crypto, tx: Transaction, i: nat, stack: seq<Bytes>, t: TrustedInput, keys: seq<PublicKey>, sigs: Signatures)
    requires DistinctKeys(keys) && InWitness(c, t, stack, keys, 2, sigs) && AllVerify(c, tx, i, t, keys, sigs)
    ensures WitnessSignatures(c, tx, i, stack, t, keys, 2).Ok?
  {
    var a: nat, b: nat :| InScriptOrder(c, stack, keys, sigs, a, b);
    var pair := [sigs[keys[a]], sigs[keys[b]]];
    PairDecodes(c, stack[1..3]);
    assert DecodeAll(c, stack[1..3]) == Some(pair);
    assert Multisig.IsAssignment(keys, 0, pair, Checker(c, tx, i, t), [a, b]);
    Multisig.GreedyComplete(keys, 0, pair, Checker(c, tx, i, t), [a, b]);
    hide DecodeAll, Multisig.Greedy, Multisig.Recorded, InScriptOrder;
  }

  lemma ReadPair(c: Crypto, tx: Transaction, i: nat, stack: seq<Bytes>, t: TrustedInput, keys: seq<PublicKey>, sigs: seq<Signature>)
    requires DistinctKeys(keys) && |stack| == 4 && stack[0] == [] && stack[3] == c.explicitScript(t.descriptor)
    requires DecodeAll(c, stack[1..3]) == Some(sigs) && |sigs| == 2
    requires c.decode(stack[1]) == Some(sigs[0]) && c.decode(stack[2]) == Some(sigs[1])
    ensures var read := WitnessSignatures(c, tx, i, stack, t, keys, 2);
      && (read.Ok? <==> Multisig.Greedy(keys, 0, sigs, Checker(c, tx, i, t)).Some?)
      && (read.Ok? ==> InWitness(c, t, stack, keys, 2, read.value)
                       && AllVerify(c, tx, i, t, keys, read.value))
  {
    var chosen := Multisig.Greedy(keys, 0, sigs, Checker(c, tx, i, t));
    hide Multisig.Greedy, DecodeAll;
    if chosen.Some? {
      PairIsRecorded(keys, sigs, Checker(c, tx, i, t), chosen.value);
      var read := WitnessSignatures(c, tx, i, stack, t, keys, 2).value;
      assert read == map[keys[chosen.value[0]] := sigs[0], keys[chosen.value[1]] := sigs[1]];
      assert InScriptOrder(c, stack, keys, read, chosen.value[0], chosen.value[1]);
      assert |read| == 2 by {
        Multisig.RecordedExact(keys, sigs, Checker(c, tx, i, t), chosen.value, 2);
      }
    }
  }

  lemma SingleIsExact(c: Crypto, tx: Transaction, i: nat, stack: seq<Bytes>, t: TrustedInput, keys: seq<PublicKey>)
    requires |keys| == 1
    ensures var read := WitnessSignatures(c, tx, i, stack, t, keys, 1);
      && (read.Ok? <==> exists sigs ::
            InWitness(c, t, stack, keys, 1, sigs) && AllVerify(c, tx, i, t, keys, sigs))
      && (read.Ok? ==> InWitness(c, t, stack, keys, 1, read.value)
                       && AllVerify(c, tx, i, t, keys, read.value))
  {
    var read := WitnessSignatures(c, tx, i, stack, t, keys, 1);
    assert read.Ok? ==> InWitness(c, t, stack, keys, 1, read.value);
  }

  lemma SignsExactly(c: Crypto, tx: Transaction, i: nat, input: Input, t: TrustedInput, keys: seq<PublicKey>, required: nat)
    requires TrustedKeys(c, t) == Ok((keys, required))
    ensures InputSignatures(c, tx, i, input, t).Ok? <==> exists sigs :: Signs(c, tx, i, input, t, keys, required, sigs)
    ensures InputSignatures(c, tx, i, input, t).Ok? ==>
      Signs(c, tx, i, input, t, keys, required, InputSignatures(c, tx, i, input, t).value)
  {
    assert (required == 1 && |keys| == 1) || (required == 2 && DistinctKeys(keys));
    hide TrustedKeys;
    if input.finalWitness.None? {
      hide WitnessSignatures, InWitness;
      assert InputSignatures(c, tx, i, input, t).Ok? ==> Signs(c, tx, i, input, t, keys, required, input.partialSigs);
    } else {
      WitnessSignsExactly(c, tx, i, input, t, keys, required);
    }
  }

  lemma WitnessSignsExactly(c: Crypto, tx: Transaction, i: nat, input: Input, t: TrustedInput, keys: seq<PublicKey>, required: nat)
    requires TrustedKeys(c, t) == Ok((keys, required)) && input.finalWitness.Some?
    requires (required == 1 && |keys| == 1) || (required == 2 && DistinctKeys(keys))
    ensures InputSignatures(c, tx, i, input, t).Ok? <==> exists sigs :: Signs(c, tx, i, input, t, keys, required, sigs)
    ensures InputSignatures(c, tx, i, input, t).Ok? ==>
      Signs(c, tx, i, input, t, keys, required, InputSignatures(c, tx, i, input, t).value)
  {
    var stack := input.finalWitness.value;
    if required == 1 {
      SingleIsExact(c, tx, i, stack, t, keys);
    } else {
      PairIsExact(c, tx, i, stack, t, keys);
    }
    hide TrustedKeys, WitnessSignatures, InWitness, AllVerify;
    if input.partialSigs == map[] {
      assert InputSignatures(c, tx, i, input, t) == WitnessSignatures(c, tx, i, stack, t, keys, required);
      assert forall sigs :: Signs(c, tx, i, input, t, keys, required, sigs) <==>
          InWitness(c, t, stack, keys, required, sigs) && AllVerify(c, tx, i, t, keys, sigs);
      hide Signs, InputSignatures;
    }
  }

  /** Reading an input succeeds exactly when it supplies signatures, and then yields such. */
  lemma ReadingIsExact(c: Crypto, tx: Transaction, i: nat, input: Input, t: TrustedInput)
    ensures InputSignatures(c, tx, i, input, t).Ok? <==> exists sigs :: Supplies(c, tx, i, input, t, sigs)
    ensures InputSignatures(c, tx, i, input, t).Ok? ==> Supplies(c, tx, i, input, t, InputSignatures(c, tx, i, input, t).value)
  {
    var policy := TrustedKeys(c, t);
    forall keys, required: nat ensures IsPolicy(c, t, keys, required) <==> policy == Ok((keys, required)) {
      PolicyIsExact(c, t, keys, required);
    }
    hide TrustedKeys, IsPolicy;
    var read := InputSignatures(c, tx, i, input, t);
    if policy.Ok? {
      var (keys, required) := policy.value;
      assert IsPolicy(c, t, keys, required);
      SignsExactly(c, tx, i, input, t, keys, required);
      hide InputSignatures, Signs;
      forall sigs | Signs(c, tx, i, input, t, keys, required, sigs) ensures Supplies(c, tx, i, input, t, sigs) {
      }
      forall sigs | Supplies(c, tx, i, input, t, sigs) ensures Signs(c, tx, i, input, t, keys, required, sigs) {
      }
    } else {
      assert read.Err?;
      hide InputSignatures, Signs;
    }
  }

  // ---- The merge ----

  ghost predicate AnswersInput(c: Crypto, approved: Psbt, trusted: seq<TrustedInput>, candidate: Psbt, i: nat)
    requires i < |trusted| == |approved.tx.inputs| == |candidate.inputs|
  {
    && IsOwnInput(c, candidate.inputs[i], trusted[i], approved.tx, i)
    && exists sigs :: Supplies(c, approved.tx, i, candidate.inputs[i], trusted[i], sigs)
  }

  /** A response, or the aggregate before it: the approved transaction, own metadata, and verified signatures on every input. */
  ghost predicate Answers(c: Crypto, approved: Psbt, trusted: seq<TrustedInput>, candidate: Psbt)
    requires |trusted| == |approved.tx.inputs|
  {
    && Describes(approved, |trusted|, candidate)
    && forall i :: 0 <= i < |trusted| ==> AnswersInput(c, approved, trusted, candidate, i)
  }

  lemma ReadInputIsExact(c: Crypto, approved: Psbt, trusted: seq<TrustedInput>, candidate: Psbt, i: nat)
    requires ShapeOk(approved, trusted) && |candidate.inputs| == |trusted| && i < |trusted|
    ensures ReadInput(c, approved, trusted, candidate, i).Ok? <==> AnswersInput(c, approved, trusted, candidate, i)
    ensures ReadInput(c, approved, trusted, candidate, i).Ok? ==>
      Supplies(c, approved.tx, i, candidate.inputs[i], trusted[i], ReadInput(c, approved, trusted, candidate, i).value)
  {
    OwnInputIsExact(c, candidate.inputs[i], trusted[i], approved.tx, i);
    ReadingIsExact(c, approved.tx, i, candidate.inputs[i], trusted[i]);
    hide CheckMetadata, IsOwnInput, InputSignatures, Supplies;
  }

  lemma AnswerIsExact(c: Crypto, approved: Psbt, trusted: seq<TrustedInput>, candidate: Psbt)
    requires ShapeOk(approved, trusted)
    ensures Acceptable(c, approved, trusted, candidate) <==> Answers(c, approved, trusted, candidate)
    ensures Acceptable(c, approved, trusted, candidate) ==>
      forall i :: 0 <= i < |trusted| ==>
        Supplies(c, approved.tx, i, candidate.inputs[i], trusted[i], Supplied(c, approved, trusted, candidate)[i])
  {
    DescribesIsExact(approved, trusted, candidate);
    hide SameApproval, Describes, ReadInput, AnswersInput, Supplies;
    if SameApproval(approved, trusted, candidate) {
      assert |candidate.inputs| == |trusted| by { DescribedCounts(approved, |trusted|, candidate); }
      var read := Reads(c, approved, trusted, candidate);
      forall i | 0 <= i < |trusted|
        ensures read[i].Ok? <==> AnswersInput(c, approved, trusted, candidate, i)
        ensures read[i].Ok? ==> Supplies(c, approved.tx, i, candidate.inputs[i], trusted[i], read[i].value)
      {
        ReadInputIsExact(c, approved, trusted, candidate, i);
      }
    }
  }

  lemma DescribedCounts(approved: Psbt, n: nat, candidate: Psbt)
    requires Describes(approved, n, candidate)
    ensures |candidate.inputs| == n && candidate.tx == approved.tx
  {
  }

  /** No key has two different signatures. */
  ghost predicate NoConflict(a: seq<Signatures>, b: seq<Signatures>)
    requires |a| == |b|
  {
    forall i, key :: 0 <= i < |a| && key in a[i] && key in b[i] ==> a[i][key] == b[i][key]
  }

  lemma ConflictIsExact(a: seq<Signatures>, b: seq<Signatures>)
    requires |a| == |b|
    ensures AgreeAll(a, b) <==> NoConflict(a, b)
  {
    if AgreeAll(a, b) {
      forall i, key | 0 <= i < |a| && key in a[i] && key in b[i] ensures a[i][key] == b[i][key] {
        assert Agree(a[i], b[i]);
      }
    }
  }

  lemma ConditionIsExact(c: Crypto, approved: Psbt, previous: Option<Psbt>, response: Psbt, trusted: seq<TrustedInput>)
    ensures MergeCondition(c, approved, previous, response, trusted) <==>
      && IsApproval(c, approved, trusted)
      && (previous.Some? ==> Answers(c, approved, trusted, previous.value)) && Answers(c, approved, trusted, response)
      && (previous.Some? ==>
            && Acceptable(c, approved, trusted, previous.value) && Acceptable(c, approved, trusted, response)
            && NoConflict(Supplied(c, approved, trusted, previous.value), Supplied(c, approved, trusted, response)))
  {
    ApprovalIsExact(c, approved, trusted);
    if ApprovedOk(c, approved, trusted) {
      AnswerIsExact(c, approved, trusted, response);
      if Acceptable(c, approved, trusted, response) {
        var second := Supplied(c, approved, trusted, response);
        JoinNothing(second);
        if previous.Some? && Acceptable(c, approved, trusted, previous.value) {
          ConflictIsExact(Supplied(c, approved, trusted, previous.value), second);
        }
      }
      if previous.Some? {
        AnswerIsExact(c, approved, trusted, previous.value);
      }
      hide CheckMetadata, Unsigned, IsApproval, Acceptable, Answers, Supplied, NoConflict, AgreeAll;
    }
  }

  lemma JoinIsUnion(a: seq<Signatures>, b: seq<Signatures>)
    requires |a| == |b| && AgreeAll(a, b)
    ensures |Join(a, b)| == |a| && forall i :: 0 <= i < |a| ==> IsUnion(Join(a, b)[i], a[i], b[i])
  {
    forall i | 0 <= i < |a| ensures IsUnion(Join(a, b)[i], a[i], b[i]) {
      assert Agree(a[i], b[i]);
    }
  }

  lemma ResultIsExact(c: Crypto, approved: Psbt, previous: Option<Psbt>, response: Psbt, trusted: seq<TrustedInput>)
    requires MergeCondition(c, approved, previous, response, trusted)
    ensures var merged := WithSignatures(approved, Union(c, approved, previous, response, trusted));
      && |merged.inputs| == |approved.inputs| == |trusted| && merged == approved.(inputs := merged.inputs)
      && forall i :: 0 <= i < |trusted| ==>
           && merged.inputs[i] == approved.inputs[i].(partialSigs := merged.inputs[i].partialSigs)
           && IsUnion(merged.inputs[i].partialSigs, Before(c, approved, previous, trusted)[i], Supplied(c, approved, trusted, response)[i])
  {
    var first, second := Before(c, approved, previous, trusted), Supplied(c, approved, trusted, response);
    hide Acceptable, Supplied, Before, CheckMetadata;
    JoinIsUnion(first, second);
    hide IsUnion, AgreeAll, Join;
  }

  /**
   * A merge succeeds exactly for a sound approval, an earlier aggregate and a response that
   * both answer it, and no conflicting signatures.
   */
  lemma MergeIsExact(c: Crypto, approved: Psbt, previous: Option<Psbt>, response: Psbt, trusted: seq<TrustedInput>)
    ensures Merge(c, approved, previous, response, trusted).Ok? <==>
      && IsApproval(c, approved, trusted)
      && (previous.Some? ==> Answers(c, approved, trusted, previous.value)) && Answers(c, approved, trusted, response)
      && (previous.Some? ==>
            && Acceptable(c, approved, trusted, previous.value) && Acceptable(c, approved, trusted, response)
            && NoConflict(Supplied(c, approved, trusted, previous.value), Supplied(c, approved, trusted, response)))
  {
    ConditionIsExact(c, approved, previous, response, trusted);
    MergeIsUnion(c, approved, previous, response, trusted);
    hide *;
  }

  lemma BeforeIsExact(c: Crypto, approved: Psbt, previous: Option<Psbt>, trusted: seq<TrustedInput>)
    requires ShapeOk(approved, trusted) && (previous.Some? ==> Acceptable(c, approved, trusted, previous.value))
    ensures |Before(c, approved, previous, trusted)| == |trusted|
    ensures previous.None? ==> forall i :: 0 <= i < |trusted| ==> Before(c, approved, previous, trusted)[i] == map[]
    ensures previous.Some? ==> Before(c, approved, previous, trusted) == Supplied(c, approved, trusted, previous.value)
  {
    hide Acceptable;
  }

  /**
   * Its result is the approval and nothing else but signatures: on each input every key that
   * the earlier aggregate or the response supplied a signature for, with that signature.
   */
  lemma MergedIsExact(c: Crypto, approved: Psbt, previous: Option<Psbt>, response: Psbt, trusted: seq<TrustedInput>)
    requires Merge(c, approved, previous, response, trusted).Ok?
    ensures ShapeOk(approved, trusted) && Acceptable(c, approved, trusted, response)
    ensures previous.Some? ==> Acceptable(c, approved, trusted, previous.value)
    ensures var merged := Merge(c, approved, previous, response, trusted).value;
      && |merged.inputs| == |approved.inputs| == |trusted| && merged == approved.(inputs := merged.inputs)
      && forall i :: 0 <= i < |trusted| ==>
           && merged.inputs[i] == approved.inputs[i].(partialSigs := merged.inputs[i].partialSigs)
           && IsUnion(merged.inputs[i].partialSigs,
                      if previous.Some? then Supplied(c, approved, trusted, previous.value)[i] else map[],
                      Supplied(c, approved, trusted, response)[i])
  {
    MergeIsUnion(c, approved, previous, response, trusted);
    assert MergeCondition(c, approved, previous, response, trusted);
    ResultIsExact(c, approved, previous, response, trusted);
    BeforeIsExact(c, approved, previous, trusted);
    hide Merge, WithSignatures, Union, Before, Acceptable, Supplied, IsUnion, CheckMetadata, AgreeAll;
  }

  ghost predicate IsUnion(all: Signatures, a: Signatures, b: Signatures) {
    && (forall key :: key in all <==> key in a || key in b)
    && (forall key :: key in a ==> all[key] == a[key])
    && (forall key :: key in b ==> all[key] == b[key])
  }

  /** Another transaction's PSBT is refused, as a response and as an aggregate. */
  lemma ForeignIsRefused(c: Crypto, approved: Psbt, previous: Option<Psbt>, response: Psbt, trusted: seq<TrustedInput>)
    requires response.tx != approved.tx || (previous.Some? && previous.value.tx != approved.tx)
    ensures Merge(c, approved, previous, response, trusted).Err?
  {
    MergeIsExact(c, approved, previous, response, trusted);
    hide Merge, IsApproval, Acceptable, Supplied;
    hide AnswersInput;
  }
}
