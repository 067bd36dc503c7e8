/** Which bytes finalization assembles, and exactly when, said without its own helpers. */
module FinalBytes {
  import opened Wrappers
  import opened ByteStrings
  import opened Psbts
  import opened Signing
  import opened SigningLaws
  import opened Finalizer
  import opened Responses

  /** The first key in script order that signed, or the first two of them. */
  ghost predicate FirstIn(keys: seq<PublicKey>, sigs: Signatures, a: nat) {
    a < |keys| && keys[a] in sigs && forall k :: 0 <= k < a ==> keys[k] !in sigs
  }

  ghost predicate FirstTwoIn(keys: seq<PublicKey>, sigs: Signatures, a: nat, b: nat) {
    && FirstIn(keys, sigs, a) && a < b < |keys| && keys[b] in sigs
    && forall k :: a < k < b ==> keys[k] !in sigs
  }

  ghost predicate IsStack(c: Crypto, t: TrustedInput, keys: seq<PublicKey>, required: nat, sigs: Signatures, stack: seq<Bytes>) {
    if required == 1 then |keys| == 1 && keys[0] in sigs && stack == [c.encode(sigs[keys[0]]), keys[0]]
    else exists a: nat, b: nat ::
      && FirstTwoIn(keys, sigs, a, b)
      && stack == [[], c.encode(sigs[keys[a]]), c.encode(sigs[keys[b]]), c.explicitScript(t.descriptor)]
  }

  /** Verified signatures of policy keys, those of a multisig in strictly increasing key order. */
  ghost predicate IsFinalWitness(c: Crypto, tx: Transaction, i: nat, t: TrustedInput, sigs: Signatures, stack: seq<Bytes>) {
    exists keys, required: nat ::
      IsPolicy(c, t, keys, required) && AllVerify(c, tx, i, t, keys, sigs) && IsStack(c, t, keys, required, sigs, stack)
  }

  lemma OneIsFirst(keys: seq<PublicKey>, sigs: Signatures)
    requires |keys| == 1 && |FirstSigned(keys, sigs, 0, 1)| == 1
    ensures keys[0] in sigs && FirstSigned(keys, sigs, 0, 1) == [(keys[0], sigs[keys[0]])]
  {
    PositionsMatch(keys, sigs, 0, 1);
  }

  lemma {:induction false} FirstSignedFrom(keys: seq<PublicKey>, sigs: Signatures, from: nat)
    requires |FirstSigned(keys, sigs, from, 1)| == 1
    ensures exists a: nat ::
      && from <= a < |keys| && keys[a] in sigs && (forall k :: from <= k < a ==> keys[k] !in sigs)
      && FirstSigned(keys, sigs, from, 1) == [(keys[a], sigs[keys[a]])]
    decreases |keys| - from
  {
    if keys[from] in sigs {
      assert FirstSigned(keys, sigs, from + 1, 0) == [];
      assert FirstSigned(keys, sigs, from, 1) == [(keys[from], sigs[keys[from]])];
    } else {
      FirstSignedFrom(keys, sigs, from + 1);
    }
  }

  lemma {:induction false} TwoSignedFrom(keys: seq<PublicKey>, sigs: Signatures, from: nat)
    requires |FirstSigned(keys, sigs, from, 2)| == 2
    ensures exists a: nat, b: nat ::
      && from <= a < b < |keys| && keys[a] in sigs && keys[b] in sigs
      && (forall k :: from <= k < a ==> keys[k] !in sigs) && (forall k :: a < k < b ==> keys[k] !in sigs)
      && FirstSigned(keys, sigs, from, 2) == [(keys[a], sigs[keys[a]]), (keys[b], sigs[keys[b]])]
    decreases |keys| - from
  {
    if keys[from] in sigs {
      FirstSignedFrom(keys, sigs, from + 1);
      var b: nat :| from + 1 <= b < |keys| && keys[b] in sigs && (forall k :: from + 1 <= k < b ==> keys[k] !in sigs)
        && FirstSigned(keys, sigs, from + 1, 1) == [(keys[b], sigs[keys[b]])];
      assert FirstSigned(keys, sigs, from, 2) == [(keys[from], sigs[keys[from]]), (keys[b], sigs[keys[b]])];
    } else {
      TwoSignedFrom(keys, sigs, from + 1);
    }
  }

  lemma SingleStack(c: Crypto, t: TrustedInput, sigs: Signatures, keys: seq<PublicKey>)
    requires FinalStack(c, t, sigs).Ok? && TrustedKeys(c, t) == Ok((keys, 1)) && t.descriptor.Wpkh?
    ensures IsStack(c, t, keys, 1, sigs, FinalStack(c, t, sigs).value)
  {
    assert |FirstSigned(keys, sigs, 0, 1)| == 1;
    OneIsFirst(keys, sigs);
  }

  lemma MultisigStack(c: Crypto, t: TrustedInput, sigs: Signatures, keys: seq<PublicKey>)
    requires FinalStack(c, t, sigs).Ok? && TrustedKeys(c, t) == Ok((keys, 2)) && t.descriptor.SortedMulti?
    ensures IsStack(c, t, keys, 2, sigs, FinalStack(c, t, sigs).value)
  {
    var signed := FirstSigned(keys, sigs, 0, 2);
    var stack := FinalStack(c, t, sigs).value;
    assert |signed| == 2 && stack == [[]] + EncodeAll(c, signed) + [c.explicitScript(t.descriptor)];
    hide FinalStack, TrustedKeys;
    TwoSignedFrom(keys, sigs, 0);
    var a: nat, b: nat :|
      && 0 <= a < b < |keys| && keys[a] in sigs && keys[b] in sigs
      && (forall k :: 0 <= k < a ==> keys[k] !in sigs) && (forall k :: a < k < b ==> keys[k] !in sigs)
      && signed == [(keys[a], sigs[keys[a]]), (keys[b], sigs[keys[b]])];
    assert FirstTwoIn(keys, sigs, a, b);
    assert EncodeAll(c, signed) == [c.encode(sigs[keys[a]]), c.encode(sigs[keys[b]])];
    assert stack == [[], c.encode(sigs[keys[a]]), c.encode(sigs[keys[b]]), c.explicitScript(t.descriptor)];
  }

  /** One assembled stack is the one that the policy asks for. */
  lemma StackIsExact(c: Crypto, t: TrustedInput, sigs: Signatures)
    requires FinalStack(c, t, sigs).Ok?
    ensures TrustedKeys(c, t).Ok?
    ensures var (keys, required) := TrustedKeys(c, t).value;
      IsPolicy(c, t, keys, required) && IsStack(c, t, keys, required, sigs, FinalStack(c, t, sigs).value)
  {
    var (keys, required) := TrustedKeys(c, t).value;
    PolicyIsExact(c, t, keys, required);
    hide TrustedKeys, FinalStack, IsStack;
    if t.descriptor.Wpkh? {
      SingleStack(c, t, sigs, keys);
    } else {
      MultisigStack(c, t, sigs, keys);
    }
  }

  /** An aggregate's input holds only verified signatures of policy keys. */
  lemma OwnedVerify(c: Crypto, tx: Transaction, i: nat, t: TrustedInput, sigs: Signatures)
    requires OwnedInput(c, tx, i, t, sigs)
    ensures TrustedKeys(c, t).Ok? && AllVerify(c, tx, i, t, TrustedKeys(c, t).value.0, sigs)
  {
    hide TrustedKeys;
  }

  lemma InputIsExact(c: Crypto, tx: Transaction, i: nat, t: TrustedInput, sigs: Signatures)
    requires OwnedInput(c, tx, i, t, sigs) && FinalStack(c, t, sigs).Ok?
    ensures IsFinalWitness(c, tx, i, t, sigs, FinalStack(c, t, sigs).value)
  {
    StackIsExact(c, t, sigs);
    OwnedVerify(c, tx, i, t, sigs);
    hide TrustedKeys, IsPolicy, AllVerify, IsStack, FinalStack, OwnedInput;
  }

  lemma FinalizeShape(c: Crypto, approved: Psbt, stored: Option<Psbt>, trusted: seq<TrustedInput>)
    requires Finalize(c, approved, stored, trusted).Ok?
    ensures Merge(c, approved, stored, approved, trusted).Ok?
    ensures var merged := Merge(c, approved, stored, approved, trusted).value;
      && |merged.inputs| == |trusted| == |approved.tx.inputs| && FinalStacks(c, trusted, merged).Ok?
      && Finalize(c, approved, stored, trusted).value == Attach(approved.tx, FinalStacks(c, trusted, merged).value)
  {
    hide Merge, Complete, ComputeTxid, FinalStacks;
  }

  lemma StacksAreEach(c: Crypto, trusted: seq<TrustedInput>, merged: Psbt)
    requires |merged.inputs| == |trusted| && FinalStacks(c, trusted, merged).Ok?
    ensures forall i :: 0 <= i < |trusted| ==>
      FinalStack(c, trusted[i], merged.inputs[i].partialSigs) == Ok(FinalStacks(c, trusted, merged).value[i])
  {
    hide FinalStack;
    var each := seq(|trusted|, i requires 0 <= i < |trusted| => FinalStack(c, trusted[i], merged.inputs[i].partialSigs));
    assert FinalStacks(c, trusted, merged) == Collect(each);
    forall i | 0 <= i < |trusted| ensures each[i] == Ok(FinalStacks(c, trusted, merged).value[i]) {
    }
  }

  lemma OnlyWitnesses(tx: Transaction, stacks: seq<seq<Bytes>>)
    requires |stacks| == |tx.inputs|
    ensures WithoutWitnesses(Attach(tx, stacks)) == WithoutWitnesses(tx)
    ensures |Attach(tx, stacks).inputs| == |tx.inputs| && forall i :: 0 <= i < |tx.inputs| ==> Attach(tx, stacks).inputs[i].stack == stacks[i]
  {
    assert WithoutWitnesses(Attach(tx, stacks)).inputs == WithoutWitnesses(tx).inputs;
  }

  /** Nothing but witnesses is new, and those are the policies' witnesses of the merged signatures. */
  lemma FinalBytesAreExact(c: Crypto, approved: Psbt, stored: Option<Psbt>, trusted: seq<TrustedInput>)
    requires Finalize(c, approved, stored, trusted).Ok?
    ensures Merge(c, approved, stored, approved, trusted).Ok?
    ensures var tx, merged := Finalize(c, approved, stored, trusted).value, Merge(c, approved, stored, approved, trusted).value;
      && WithoutWitnesses(tx) == WithoutWitnesses(approved.tx)
      && |tx.inputs| == |trusted| == |merged.inputs|
      && forall i :: 0 <= i < |trusted| ==>
           IsFinalWitness(c, approved.tx, i, trusted[i], merged.inputs[i].partialSigs, tx.inputs[i].stack)
  {
    FinalizeShape(c, approved, stored, trusted);
    var tx, merged := Finalize(c, approved, stored, trusted).value, Merge(c, approved, stored, approved, trusted).value;
    StacksAreEach(c, trusted, merged);
    OnlyWitnesses(approved.tx, FinalStacks(c, trusted, merged).value);
    MergedAreOwned(c, approved, stored, approved, trusted);
    var sigs := MergedSignatures(c, approved, stored, approved, trusted);
    hide Finalize, Merge, MergedSignatures, FinalStack, FinalStacks, OwnedInput, IsFinalWitness, WithoutWitnesses, Attach;
    forall i | 0 <= i < |trusted|
      ensures IsFinalWitness(c, approved.tx, i, trusted[i], merged.inputs[i].partialSigs, tx.inputs[i].stack)
    {
      assert merged.inputs[i].partialSigs == sigs[i];
      InputIsExact(c, approved.tx, i, trusted[i], sigs[i]);
    }
  }

  ghost predicate HasEnough(c: Crypto, t: TrustedInput, sigs: Signatures) {
    exists keys, required: nat :: IsPolicy(c, t, keys, required) && |sigs| >= required
  }

  lemma EnoughIsExact(c: Crypto, t: TrustedInput, sigs: Signatures)
    ensures HasEnough(c, t, sigs) <==> TrustedKeys(c, t).Ok? && |sigs| >= TrustedKeys(c, t).value.1
  {
    forall keys, required: nat ensures IsPolicy(c, t, keys, required) <==> TrustedKeys(c, t) == Ok((keys, required)) {
      PolicyIsExact(c, t, keys, required);
    }
    hide IsPolicy, TrustedKeys;
    if TrustedKeys(c, t).Ok? {
      assert IsPolicy(c, t, TrustedKeys(c, t).value.0, TrustedKeys(c, t).value.1);
    }
  }

  lemma CompleteIsExact(c: Crypto, psbt: Psbt, trusted: seq<TrustedInput>)
    ensures Complete(c, psbt, trusted) <==>
      |psbt.inputs| == |trusted| > 0 && forall i :: 0 <= i < |trusted| ==> HasEnough(c, trusted[i], psbt.inputs[i].partialSigs)
  {
    if |psbt.inputs| == |trusted| {
      forall i | 0 <= i < |trusted|
        ensures HasEnough(c, trusted[i], psbt.inputs[i].partialSigs)
          <==> TrustedKeys(c, trusted[i]).Ok? && |psbt.inputs[i].partialSigs| >= TrustedKeys(c, trusted[i]).value.1
      {
        EnoughIsExact(c, trusted[i], psbt.inputs[i].partialSigs);
      }
      hide HasEnough, TrustedKeys;
    }
  }

  lemma ApprovalSupplies(c: Crypto, approved: Psbt, trusted: seq<TrustedInput>)
    requires IsApproval(c, approved, trusted) && Acceptable(c, approved, trusted, approved)
    ensures forall i :: 0 <= i < |trusted| ==> Supplied(c, approved, trusted, approved)[i] == map[]
  {
    AnswerIsExact(c, approved, trusted, approved);
    hide Acceptable, Supplied, IsPolicy, AllVerify, InWitness, IsOwnInput;
  }

  /** The approval adds nothing to what is stored. */
  lemma MergedIsStored(c: Crypto, approved: Psbt, stored: Option<Psbt>, trusted: seq<TrustedInput>)
    requires Merge(c, approved, stored, approved, trusted).Ok?
    ensures ShapeOk(approved, trusted) && (stored.Some? ==> Acceptable(c, approved, trusted, stored.value))
    ensures var merged := Merge(c, approved, stored, approved, trusted).value;
      && |merged.inputs| == |trusted|
      && forall i :: 0 <= i < |trusted| ==>
           merged.inputs[i].partialSigs == if stored.Some? then Supplied(c, approved, trusted, stored.value)[i] else map[]
  {
    MergeIsExact(c, approved, stored, approved, trusted);
    MergedIsExact(c, approved, stored, approved, trusted);
    ApprovalSupplies(c, approved, trusted);
    hide Merge, Acceptable, Supplied, IsApproval, Answers;
  }

  lemma NothingHasEnough(c: Crypto, t: TrustedInput)
    ensures !HasEnough(c, t, map[])
  {
  }

  /**
   * Finalization succeeds exactly for a sound approval that could itself be exchanged and a
   * stored aggregate that answers it with enough signatures for every input's policy.
   */
  lemma FinalizesExactly(c: Crypto, approved: Psbt, stored: Option<Psbt>, trusted: seq<TrustedInput>)
    requires SignaturesRoundTrip(c)
    ensures Finalize(c, approved, stored, trusted).Ok? <==>
      && |trusted| > 0 && stored.Some? && IsApproval(c, approved, trusted)
      && Answers(c, approved, trusted, approved) && Answers(c, approved, trusted, stored.value)
      && Acceptable(c, approved, trusted, stored.value)
      && forall i :: 0 <= i < |trusted| ==> HasEnough(c, trusted[i], Supplied(c, approved, trusted, stored.value)[i])
  {
    FinalizeIsTotalOnComplete(c, approved, stored, trusted);
    var merge := Merge(c, approved, stored, approved, trusted);
    var answered := && stored.Some? && IsApproval(c, approved, trusted)
                    && Answers(c, approved, trusted, approved) && Answers(c, approved, trusted, stored.value)
                    && Acceptable(c, approved, trusted, stored.value);
    if merge.Ok? {
      MergedIsStored(c, approved, stored, trusted);
      CompleteIsExact(c, merge.value, trusted);
      MergeIsExact(c, approved, stored, approved, trusted);
      if stored.None? && |trusted| > 0 {
        NothingHasEnough(c, trusted[0]);
      }
    } else if answered {
      StoredMerges(c, approved, stored.value, trusted);
    }
    hide *;
  }

  lemma StoredMerges(c: Crypto, approved: Psbt, stored: Psbt, trusted: seq<TrustedInput>)
    requires IsApproval(c, approved, trusted) && Answers(c, approved, trusted, approved) && Answers(c, approved, trusted, stored)
    ensures Merge(c, approved, Some(stored), approved, trusted).Ok?
  {
    AnswerIsExact(c, approved, trusted, approved);
    AnswerIsExact(c, approved, trusted, stored);
    ApprovalSupplies(c, approved, trusted);
    MergeIsExact(c, approved, Some(stored), approved, trusted);
    hide Merge, Acceptable, Supplied, IsApproval, Answers;
  }
}
