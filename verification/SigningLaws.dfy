/** Laws of merging over any approved PSBT: ownership, idempotence, order and progress. */
module SigningLaws {
  import opened Wrappers
  import opened ByteStrings
  import opened Psbts
  import opened Signing
  import Multisig

  /** Every signature belongs to a key of its input's policy and verifies under it. */
  ghost predicate OwnedInput(c: Crypto, tx: Transaction, i: nat, t: TrustedInput, sigs: Signatures) {
    && TrustedKeys(c, t).Ok?
    && forall key :: key in sigs ==> key in TrustedKeys(c, t).value.0 && Valid(c, tx, i, t, key, sigs[key])
  }

  ghost predicate Owned(c: Crypto, approved: Psbt, trusted: seq<TrustedInput>, sigs: seq<Signatures>) {
    && |sigs| == |trusted|
    && forall i :: 0 <= i < |trusted| ==> OwnedInput(c, approved.tx, i, trusted[i], sigs[i])
  }

  lemma WitnessIsOwned(c: Crypto, tx: Transaction, i: nat, stack: seq<Bytes>, t: TrustedInput)
    requires TrustedKeys(c, t).Ok?
    requires WitnessSignatures(c, tx, i, stack, t, TrustedKeys(c, t).value.0, TrustedKeys(c, t).value.1).Ok?
    ensures OwnedInput(c, tx, i, t,
              WitnessSignatures(c, tx, i, stack, t, TrustedKeys(c, t).value.0, TrustedKeys(c, t).value.1).value)
  {
    var (keys, required) := TrustedKeys(c, t).value;
    if required != 1 {
      var sigs := DecodeAll(c, stack[1..required + 1]).value;
      var valid := Checker(c, tx, i, t);
      var chosen := Multisig.Greedy(keys, 0, sigs, valid).value;
      Multisig.RecordedExact(keys, sigs, valid, chosen, |sigs|);
    }
  }

  lemma ReadIsOwned(c: Crypto, tx: Transaction, i: nat, input: Input, t: TrustedInput)
    requires InputSignatures(c, tx, i, input, t).Ok?
    ensures OwnedInput(c, tx, i, t, InputSignatures(c, tx, i, input, t).value)
  {
    if input.finalWitness.Some? {
      WitnessIsOwned(c, tx, i, input.finalWitness.value, t);
    }
  }

  lemma SuppliedAreOwned(c: Crypto, approved: Psbt, trusted: seq<TrustedInput>, candidate: Psbt)
    requires ShapeOk(approved, trusted) && Acceptable(c, approved, trusted, candidate)
    ensures Owned(c, approved, trusted, Supplied(c, approved, trusted, candidate))
  {
    var supplied := Supplied(c, approved, trusted, candidate);
    forall i | 0 <= i < |trusted| ensures OwnedInput(c, approved.tx, i, trusted[i], supplied[i]) {
      assert Reads(c, approved, trusted, candidate)[i].Ok?;
      ReadIsOwned(c, approved.tx, i, candidate.inputs[i], trusted[i]);
    }
  }

  /** The approval could itself be exchanged: no unknown, proprietary or foreign output fields. */
  predicate WellFormed(approved: Psbt, trusted: seq<TrustedInput>) {
    SameApproval(approved, trusted, approved)
  }

  lemma OwnedReadBack(c: Crypto, approved: Psbt, trusted: seq<TrustedInput>, sigs: seq<Signatures>, i: nat)
    requires ApprovedOk(c, approved, trusted) && Owned(c, approved, trusted, sigs) && i < |trusted|
    ensures ReadInput(c, approved, trusted, WithSignatures(approved, sigs), i) == Ok(sigs[i])
  {
    var input := WithSignatures(approved, sigs).inputs[i];
    assert CheckMetadata(c, approved.inputs[i], trusted[i], approved.tx, i).Pass? && Unsigned(approved.inputs[i]);
    assert CheckMetadata(c, input, trusted[i], approved.tx, i).Pass?;
    assert OwnedInput(c, approved.tx, i, trusted[i], sigs[i]);
    assert input.partialSigs == sigs[i] && input.finalWitness.None?;
  }

  /** A stored aggregate is acceptable again and supplies exactly what it stores. */
  lemma StoredIsAcceptable(c: Crypto, approved: Psbt, trusted: seq<TrustedInput>, sigs: seq<Signatures>)
    requires ApprovedOk(c, approved, trusted) && WellFormed(approved, trusted) && Owned(c, approved, trusted, sigs)
    ensures Acceptable(c, approved, trusted, WithSignatures(approved, sigs))
    ensures Supplied(c, approved, trusted, WithSignatures(approved, sigs)) == sigs
  {
    var stored := WithSignatures(approved, sigs);
    var read := Reads(c, approved, trusted, stored);
    forall i | 0 <= i < |trusted| ensures read[i] == Ok(sigs[i]) {
      OwnedReadBack(c, approved, trusted, sigs, i);
    }
    assert SameApproval(approved, trusted, stored);
    assert Values(read) == sigs;
  }

  /** The aggregate of a successful merge, input by input. */
  ghost function MergedSignatures(
      c: Crypto, approved: Psbt, previous: Option<Psbt>, response: Psbt, trusted: seq<TrustedInput>): (r: seq<Signatures>)
    requires Merge(c, approved, previous, response, trusted).Ok?
    ensures |r| == |approved.inputs| == |trusted|
    ensures Merge(c, approved, previous, response, trusted) == Ok(WithSignatures(approved, r))
  {
    MergeIsUnion(c, approved, previous, response, trusted);
    Union(c, approved, previous, response, trusted)
  }

  /** Nothing foreign enters an aggregate, and nothing in it fails to verify. */
  lemma MergedAreOwned(c: Crypto, approved: Psbt, previous: Option<Psbt>, response: Psbt, trusted: seq<TrustedInput>)
    requires Merge(c, approved, previous, response, trusted).Ok?
    ensures ApprovedOk(c, approved, trusted)
    ensures Owned(c, approved, trusted, MergedSignatures(c, approved, previous, response, trusted))
  {
    MergeIsUnion(c, approved, previous, response, trusted);
    SuppliedAreOwned(c, approved, trusted, response);
    var second := Supplied(c, approved, trusted, response);
    if previous.Some? {
      SuppliedAreOwned(c, approved, trusted, previous.value);
    }
    var first := Before(c, approved, previous, trusted);
    var all := Join(first, second);
    forall i | 0 <= i < |trusted| ensures OwnedInput(c, approved.tx, i, trusted[i], all[i]) {
      assert OwnedInput(c, approved.tx, i, trusted[i], second[i]);
      if previous.Some? {
        assert OwnedInput(c, approved.tx, i, trusted[i], first[i]);
      }
    }
  }

  /** Merging into a stored aggregate depends only on the signatures it carries. */
  lemma MergeIntoStored(c: Crypto, approved: Psbt, trusted: seq<TrustedInput>, sigs: seq<Signatures>, response: Psbt)
    requires ApprovedOk(c, approved, trusted) && WellFormed(approved, trusted) && Owned(c, approved, trusted, sigs)
    ensures Merge(c, approved, Some(WithSignatures(approved, sigs)), response, trusted).Ok? <==>
      && Acceptable(c, approved, trusted, response)
      && AgreeAll(sigs, Supplied(c, approved, trusted, response))
    ensures Merge(c, approved, Some(WithSignatures(approved, sigs)), response, trusted).Ok? ==>
      Merge(c, approved, Some(WithSignatures(approved, sigs)), response, trusted) ==
        Ok(WithSignatures(approved, Join(sigs, Supplied(c, approved, trusted, response))))
  {
    StoredIsAcceptable(c, approved, trusted, sigs);
    MergeIsUnion(c, approved, Some(WithSignatures(approved, sigs)), response, trusted);
  }

  lemma JoinAbsorbs(a: seq<Signatures>, b: seq<Signatures>)
    requires |a| == |b| && AgreeAll(a, b)
    ensures AgreeAll(Join(a, b), b) && Join(Join(a, b), b) == Join(a, b)
  {
    forall i | 0 <= i < |a|
      ensures Agree(Join(a, b)[i], b[i])
      ensures Join(Join(a, b), b)[i] == Join(a, b)[i]
    {
      assert Agree(a[i], b[i]);
      assert (a[i] + b[i]) + b[i] == a[i] + b[i];
    }
  }

  /** Importing the same response again, or re-exporting the aggregate, changes nothing. */
  lemma MergeIsIdempotent(c: Crypto, approved: Psbt, previous: Option<Psbt>, response: Psbt, trusted: seq<TrustedInput>)
    requires WellFormed(approved, trusted)
    requires Merge(c, approved, previous, response, trusted).Ok?
    ensures var merged := Merge(c, approved, previous, response, trusted);
      && Merge(c, approved, Some(merged.value), response, trusted) == merged
      && Merge(c, approved, Some(merged.value), approved, trusted) == merged
      && Merge(c, approved, None, merged.value, trusted) == merged
  {
    var sigs := MergedSignatures(c, approved, previous, response, trusted);
    var merged := WithSignatures(approved, sigs);
    MergedAreOwned(c, approved, previous, response, trusted);
    MergeIsUnion(c, approved, previous, response, trusted);
    JoinAbsorbs(Before(c, approved, previous, trusted), Supplied(c, approved, trusted, response));
    MergeIntoStored(c, approved, trusted, sigs, response);
    StoredIsAcceptable(c, approved, trusted, sigs);
    MergeIsUnion(c, approved, None, merged, trusted);
    JoinNothing(sigs);
    ApprovedSuppliesNothing(c, approved, trusted, sigs);
    MergeIntoStored(c, approved, trusted, sigs, approved);
  }

  lemma ApprovedSuppliesNothing(c: Crypto, approved: Psbt, trusted: seq<TrustedInput>, owned: seq<Signatures>)
    requires ApprovedOk(c, approved, trusted) && WellFormed(approved, trusted) && Owned(c, approved, trusted, owned)
    ensures Acceptable(c, approved, trusted, approved)
    ensures Supplied(c, approved, trusted, approved) == NoSignatures(|trusted|)
  {
    var none := NoSignatures(|trusted|);
    forall i | 0 <= i < |trusted|
      ensures OwnedInput(c, approved.tx, i, trusted[i], none[i])
      ensures approved.inputs[i].(partialSigs := none[i]) == approved.inputs[i]
    {
      assert OwnedInput(c, approved.tx, i, trusted[i], owned[i]);
      assert Unsigned(approved.inputs[i]);
    }
    StoredIsAcceptable(c, approved, trusted, none);
    assert WithSignatures(approved, none).inputs == approved.inputs;
    assert WithSignatures(approved, none) == approved;
  }

  ghost predicate BothOrders(s: seq<Signatures>, a: seq<Signatures>, b: seq<Signatures>)
    requires |s| == |a| == |b|
  {
    AgreeAll(s, a) && AgreeAll(s, b) && AgreeAll(a, b)
  }

  lemma AgreeWithJoin(s: Signatures, a: Signatures, b: Signatures)
    requires Agree(s, a)
    ensures Agree(s + a, b) <==> Agree(s, b) && Agree(a, b)
  {
    if Agree(s + a, b) {
      forall key | key in s && key in b ensures s[key] == b[key] {
        assert key in s + a;
      }
      forall key | key in a && key in b ensures a[key] == b[key] {
        assert key in s + a;
      }
    }
  }

  lemma AgreeAllWithJoin(s: seq<Signatures>, a: seq<Signatures>, b: seq<Signatures>)
    requires |s| == |a| == |b| && AgreeAll(s, a)
    ensures AgreeAll(Join(s, a), b) <==> AgreeAll(s, b) && AgreeAll(a, b)
  {
    forall i | 0 <= i < |s| ensures Agree(Join(s, a)[i], b[i]) <==> Agree(s[i], b[i]) && Agree(a[i], b[i]) {
      AgreeWithJoin(s[i], a[i], b[i]);
    }
  }

  lemma JoinSwaps(s: seq<Signatures>, a: seq<Signatures>, b: seq<Signatures>)
    requires |s| == |a| == |b| && BothOrders(s, a, b)
    ensures Join(Join(s, a), b) == Join(Join(s, b), a)
  {
    forall i | 0 <= i < |s| ensures Join(Join(s, a), b)[i] == Join(Join(s, b), a)[i] {
      assert Agree(a[i], b[i]);
      assert (s[i] + a[i]) + b[i] == (s[i] + b[i]) + a[i];
    }
  }

  /** Import `first`, then `second` into what that stored. */
  function MergeTwice(c: Crypto, approved: Psbt, previous: Option<Psbt>, first: Psbt, second: Psbt, trusted: seq<TrustedInput>)
    : Result<Psbt, Error>
  {
    var stored :- Merge(c, approved, previous, first, trusted);
    Merge(c, approved, Some(stored), second, trusted)
  }

  lemma MergeTwiceExact(c: Crypto, approved: Psbt, previous: Option<Psbt>, first: Psbt, second: Psbt, trusted: seq<TrustedInput>)
    requires WellFormed(approved, trusted)
    ensures MergeTwice(c, approved, previous, first, second, trusted).Ok? <==>
      && ApprovedOk(c, approved, trusted)
      && (previous.Some? ==> Acceptable(c, approved, trusted, previous.value))
      && Acceptable(c, approved, trusted, first) && Acceptable(c, approved, trusted, second)
      && BothOrders(Before(c, approved, previous, trusted),
                    Supplied(c, approved, trusted, first), Supplied(c, approved, trusted, second))
    ensures MergeTwice(c, approved, previous, first, second, trusted).Ok? ==>
      MergeTwice(c, approved, previous, first, second, trusted).value ==
        WithSignatures(approved, Join(Join(Before(c, approved, previous, trusted),
                                           Supplied(c, approved, trusted, first)),
                                      Supplied(c, approved, trusted, second)))
  {
    MergeIsUnion(c, approved, previous, first, trusted);
    if Merge(c, approved, previous, first, trusted).Ok? {
      var sigs := MergedSignatures(c, approved, previous, first, trusted);
      MergedAreOwned(c, approved, previous, first, trusted);
      MergeIntoStored(c, approved, trusted, sigs, second);
      if Acceptable(c, approved, trusted, second) {
        AgreeAllWithJoin(Before(c, approved, previous, trusted), Supplied(c, approved, trusted, first),
                         Supplied(c, approved, trusted, second));
      }
    }
  }

  lemma AgreeAllSymmetric(a: seq<Signatures>, b: seq<Signatures>)
    requires |a| == |b|
    ensures AgreeAll(a, b) <==> AgreeAll(b, a)
  {
    if AgreeAll(a, b) {
      forall i | 0 <= i < |a| ensures Agree(b[i], a[i]) {
        assert Agree(a[i], b[i]);
      }
    }
    if AgreeAll(b, a) {
      forall i | 0 <= i < |a| ensures Agree(a[i], b[i]) {
        assert Agree(b[i], a[i]);
      }
    }
  }

  /** Two responses arrive in either order: both runs succeed with one result, or both are refused. */
  lemma MergeOrderIsIrrelevant(
      c: Crypto, approved: Psbt, previous: Option<Psbt>, first: Psbt, second: Psbt, trusted: seq<TrustedInput>)
    requires WellFormed(approved, trusted)
    ensures MergeTwice(c, approved, previous, first, second, trusted).Ok? <==>
      MergeTwice(c, approved, previous, second, first, trusted).Ok?
    ensures MergeTwice(c, approved, previous, first, second, trusted).Ok? ==>
      MergeTwice(c, approved, previous, first, second, trusted) ==
        MergeTwice(c, approved, previous, second, first, trusted)
  {
    MergeTwiceExact(c, approved, previous, first, second, trusted);
    MergeTwiceExact(c, approved, previous, second, first, trusted);
    if ShapeOk(approved, trusted) && Acceptable(c, approved, trusted, first) && Acceptable(c, approved, trusted, second) {
      AgreeAllSymmetric(Supplied(c, approved, trusted, first), Supplied(c, approved, trusted, second));
      if (previous.Some? ==> Acceptable(c, approved, trusted, previous.value)) {
        var before := Before(c, approved, previous, trusted);
        if BothOrders(before, Supplied(c, approved, trusted, first), Supplied(c, approved, trusted, second)) {
          JoinSwaps(before, Supplied(c, approved, trusted, first), Supplied(c, approved, trusted, second));
        }
      }
    }
  }

  // ---- Progress ----

  /** Every input holds at least the signatures its policy demands, and there is an input. */
  predicate Complete(c: Crypto, psbt: Psbt, trusted: seq<TrustedInput>) {
    && |psbt.inputs| == |trusted| > 0
    && forall i | 0 <= i < |trusted| ::
      TrustedKeys(c, trusted[i]).Ok? && |psbt.inputs[i].partialSigs| >= TrustedKeys(c, trusted[i]).value.1
  }

  lemma KeysBoundSignatures(keys: seq<PublicKey>, sigs: Signatures)
    requires forall key :: key in sigs ==> key in keys
    ensures |sigs| <= |keys|
  {
    assert sigs.Keys <= set key | key in keys;
    SetOfSeqIsSmall(keys);
    SubsetIsSmaller(sigs.Keys, set key | key in keys);
    assert |sigs.Keys| == |sigs|;
  }

  lemma {:induction false} SubsetIsSmaller<T>(a: set<T>, b: set<T>)
    requires a <= b
    ensures |a| <= |b|
  {
    assert b == a + (b - a);
    assert |b| == |a| + |b - a|;
  }

  lemma {:induction false} SetOfSeqIsSmall(keys: seq<PublicKey>)
    ensures |set key | key in keys| <= |keys|
  {
    if keys != [] {
      var rest := keys[1..];
      SetOfSeqIsSmall(rest);
      assert (set key | key in keys) == (set key | key in rest) + {keys[0]};
    }
  }

  /** Per-input counts never fall and never exceed the policy's keys. */
  lemma CountsOnlyGrow(c: Crypto, approved: Psbt, trusted: seq<TrustedInput>, sigs: seq<Signatures>, response: Psbt)
    requires ApprovedOk(c, approved, trusted) && WellFormed(approved, trusted) && Owned(c, approved, trusted, sigs)
    requires Merge(c, approved, Some(WithSignatures(approved, sigs)), response, trusted).Ok?
    ensures var merged := Merge(c, approved, Some(WithSignatures(approved, sigs)), response, trusted).value;
      forall i :: 0 <= i < |trusted| ==>
        && sigs[i].Items <= merged.inputs[i].partialSigs.Items
        && |sigs[i]| <= |merged.inputs[i].partialSigs| <= |TrustedKeys(c, trusted[i]).value.0|
  {
    var stored := WithSignatures(approved, sigs);
    MergeIntoStored(c, approved, trusted, sigs, response);
    MergedAreOwned(c, approved, Some(stored), response, trusted);
    StoredIsAcceptable(c, approved, trusted, sigs);
    MergeIsUnion(c, approved, Some(stored), response, trusted);
    var supplied := Supplied(c, approved, trusted, response);
    var all := Join(sigs, supplied);
    forall i | 0 <= i < |trusted|
      ensures sigs[i].Items <= all[i].Items && |sigs[i]| <= |all[i]| <= |TrustedKeys(c, trusted[i]).value.0|
    {
      assert Agree(sigs[i], supplied[i]);
      assert OwnedInput(c, approved.tx, i, trusted[i], all[i]);
      KeysBoundSignatures(TrustedKeys(c, trusted[i]).value.0, all[i]);
      SubsetIsSmaller(sigs[i].Keys, all[i].Keys);
    }
  }

  /** A signed draft can accept more responses but never becomes partially signed again. */
  lemma SignedNeverReverts(c: Crypto, approved: Psbt, trusted: seq<TrustedInput>, sigs: seq<Signatures>, response: Psbt)
    requires ApprovedOk(c, approved, trusted) && WellFormed(approved, trusted) && Owned(c, approved, trusted, sigs)
    requires Complete(c, WithSignatures(approved, sigs), trusted)
    requires Merge(c, approved, Some(WithSignatures(approved, sigs)), response, trusted).Ok?
    ensures Complete(c, Merge(c, approved, Some(WithSignatures(approved, sigs)), response, trusted).value, trusted)
  {
    CountsOnlyGrow(c, approved, trusted, sigs, response);
    MergeIntoStored(c, approved, trusted, sigs, response);
    forall i | 0 <= i < |trusted|
      ensures |sigs[i]| >= TrustedKeys(c, trusted[i]).value.1
    {
      assert WithSignatures(approved, sigs).inputs[i].partialSigs == sigs[i];
    }
  }
}
