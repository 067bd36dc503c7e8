/** How large a PSBT is on the wire, and what the bounded parser admits of it. */
module Sizes {
  import opened Wrappers
  import opened ByteStrings
  import opened Psbts
  import opened Tables
  import Signing
  import Container

  /** The width of a compact size. */
  function SizeWidth(n: nat): nat {
    if n < 0xFD then 1 else if n < 0x1_0000 then 3 else if n < 0x1_0000_0000 then 5 else 9
  }

  lemma WidthIsEncoded(n: nat)
    requires n < Container.TWO_64
    ensures |Container.EncodeSize(n)| == SizeWidth(n)
  {
  }

  /** One partial signature field: a type byte and the key, then the signature, each after its length. */
  function FieldBytes(c: Crypto, key: PublicKey, sig: Signature): nat {
    SizeWidth(|key| + 1) + |key| + 1 + SizeWidth(|c.encode(sig)|) + |c.encode(sig)|
  }

  /** That is the width of the field as a map holds it: type 2 before the key, under which the signature is the value. */
  lemma FieldIsEncoded(c: Crypto, key: PublicKey, sig: Signature)
    requires |key| < Container.MAX_KEY && |c.encode(sig)| < Container.TWO_64
    ensures |Container.EncodeField(Container.Field([2] + key, c.encode(sig)))| == FieldBytes(c, key, sig)
  {
    WidthIsEncoded(|key| + 1);
    WidthIsEncoded(|c.encode(sig)|);
    hide Container.EncodeSize;
  }

  predicate IsLeast(keys: set<PublicKey>, key: PublicKey) {
    key in keys && forall other | other in keys :: LexLeq(key, other)
  }

  lemma {:induction false} LeastExists(keys: set<PublicKey>)
    requires keys != {}
    ensures exists key :: IsLeast(keys, key)
    decreases keys
  {
    var any :| any in keys;
    LexTotal(any, any);
    if keys == {any} {
      assert IsLeast(keys, any);
    } else {
      var rest := keys - {any};
      assert rest != {};
      LeastExists(rest);
      var least :| IsLeast(rest, least);
      LexTotal(any, least);
      if LexLeq(least, any) {
        assert IsLeast(keys, least);
      } else {
        forall other | other in keys ensures LexLeq(any, other) {
          if other != any {
            LexTransitive(any, least, other);
          }
        }
        assert IsLeast(keys, any);
      }
    }
  }

  lemma LeastIsUnique(keys: set<PublicKey>)
    ensures forall a, b :: IsLeast(keys, a) && IsLeast(keys, b) ==> a == b
  {
    forall a, b | IsLeast(keys, a) && IsLeast(keys, b) ensures a == b {
      LexAntisymmetric(a, b);
    }
  }

  /** The bytes of one input's partial signatures, in key order. */
  function SignatureBytes(c: Crypto, sigs: Signing.Signatures): nat
    decreases sigs.Keys
  {
    if sigs == map[] then 0
    else
      assert sigs.Keys != {};
      LeastExists(sigs.Keys);
      LeastIsUnique(sigs.Keys);
      var key :| IsLeast(sigs.Keys, key);
      FieldBytes(c, key, sigs[key]) + SignatureBytes(c, sigs - {key})
  }

  function AllSignatureBytes(c: Crypto, sigs: seq<Signing.Signatures>): nat {
    if sigs == [] then 0 else AllSignatureBytes(c, sigs[..|sigs| - 1]) + SignatureBytes(c, sigs[|sigs| - 1])
  }

  function SignaturesOf(psbt: Psbt): seq<Signing.Signatures> {
    seq(|psbt.inputs|, i requires 0 <= i < |psbt.inputs| => psbt.inputs[i].partialSigs)
  }

  /** The PSBT without partial signatures. */
  function Bare(psbt: Psbt): Psbt {
    psbt.(inputs := seq(|psbt.inputs|, i requires 0 <= i < |psbt.inputs| => psbt.inputs[i].(partialSigs := map[])))
  }

  /** At most 1,048,576 bytes and at most 64 fields in each input's map, signatures on top of everything else. */
  predicate Room(env: Env, bare: Psbt, sigs: seq<Signing.Signatures>)
    requires |sigs| == |bare.inputs|
  {
    && env.bytes(bare) + AllSignatureBytes(env.crypto, sigs) <= Container.MAX_PSBT_BYTES
    && forall i | 0 <= i < |sigs| :: env.fields(bare.inputs[i]) + |sigs[i]| <= Container.MAX_FIELDS
  }

  predicate Fits(env: Env, psbt: Psbt) {
    env.readable(Bare(psbt)) && Room(env, Bare(psbt), SignaturesOf(psbt))
  }

  lemma BareKeepsUnsigned(psbt: Psbt)
    requires forall i :: 0 <= i < |psbt.inputs| ==> psbt.inputs[i].partialSigs == map[]
    ensures Bare(psbt) == psbt
  {
    forall i | 0 <= i < |psbt.inputs| ensures Bare(psbt).inputs[i] == psbt.inputs[i] {
    }
    assert Bare(psbt).inputs == psbt.inputs;
  }

  /** An aggregate is its approval with signatures on top, so it fits exactly when they find room. */
  lemma AggregateFits(env: Env, approved: Psbt, sigs: seq<Signing.Signatures>)
    requires |sigs| == |approved.inputs| && Fits(env, approved)
    requires forall i :: 0 <= i < |approved.inputs| ==> approved.inputs[i].partialSigs == map[]
    ensures Fits(env, Signing.WithSignatures(approved, sigs)) <==> Room(env, approved, sigs)
  {
    hide Room;
    var merged := Signing.WithSignatures(approved, sigs);
    BareKeepsUnsigned(approved);
    assert Bare(merged).inputs == Bare(approved).inputs;
    assert SignaturesOf(merged) == sigs;
  }
}
