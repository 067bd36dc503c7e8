/** Transactions, PSBTs and the wallet-derived policies that judge them. */
module Psbts {
  import opened Wrappers
  import opened ByteStrings

  type Txid = Bytes

  /** Compressed SEC serialization; keys compare by these bytes (BIP 67). */
  type PublicKey = Bytes

  datatype OutPoint = OutPoint(txid: Txid, vout: nat)
  datatype TxOut = TxOut(value: nat, script: Bytes)
  datatype TxIn = TxIn(prev: OutPoint, scriptSig: Bytes, sequence: nat, stack: seq<Bytes>)
  datatype Transaction = Transaction(version: int, lockTime: nat, inputs: seq<TxIn>, outputs: seq<TxOut>)

  const SIGHASH_ALL: nat := 1

  datatype Signature = Signature(der: Bytes, sighash: nat)
  datatype Origin = Origin(fingerprint: Bytes, path: seq<nat>)

  /** `extras` holds every field outside the allowlist: taproot, preimages, unknown, proprietary. */
  datatype Input = Input(
    nonWitnessUtxo: Option<Transaction>,
    witnessUtxo: Option<TxOut>,
    witnessScript: Option<Bytes>,
    derivations: map<PublicKey, Origin>,
    sighash: Option<nat>,
    partialSigs: map<PublicKey, Signature>,
    finalScriptSig: Option<Bytes>,
    finalWitness: Option<seq<Bytes>>,
    extras: map<Bytes, Bytes>)

  datatype Output = Output(
    redeemScript: Option<Bytes>,
    witnessScript: Option<Bytes>,
    derivations: map<PublicKey, Origin>,
    extras: map<Bytes, Bytes>)

  datatype Psbt = Psbt(
    version: nat,
    tx: Transaction,
    xpubs: map<Bytes, Origin>,
    unknown: map<Bytes, Bytes>,
    proprietary: map<Bytes, Bytes>,
    inputs: seq<Input>,
    outputs: seq<Output>)

  datatype Descriptor =
    | Wpkh(key: PublicKey)
    | SortedMulti(threshold: nat, keys: seq<PublicKey>)
    | OtherDescriptor

  /** The wallet's own prevout, expected metadata and derived policy for one input. */
  datatype TrustedInput = TrustedInput(
    prevout: TxOut,
    witnessScript: Option<Bytes>,
    derivations: map<PublicKey, Origin>,
    descriptor: Descriptor)

  datatype Error =
    | Invalid
    | Mismatch
    | CorruptState
    | UnsupportedPolicy
    | Unavailable
    | UnavailableCoin
    | NotFound
    | InvalidInput
    | CannotBuild
    | Storage

  /**
   * Uninterpreted cryptography. A signature may be valid for several keys, and a key
   * may have several valid signatures. `hash` is applied to witness-stripped bytes.
   */
  datatype Crypto = Crypto(
    verify: (Transaction, nat, TxOut, Descriptor, PublicKey, Signature) -> bool,
    encode: Signature -> Bytes,
    decode: Bytes -> Option<Signature>,
    hash: Transaction -> Txid,
    scriptPubkey: Descriptor -> Bytes,
    explicitScript: Descriptor -> Bytes)

  /** Signature bytes survive a write and a strict read. */
  ghost predicate SignaturesRoundTrip(c: Crypto) {
    forall sig :: c.decode(c.encode(sig)) == Some(sig)
  }

  function Strip(tx: Transaction): Transaction {
    tx.(inputs := seq(|tx.inputs|, i requires 0 <= i < |tx.inputs| => tx.inputs[i].(stack := [])))
  }

  /** The transaction id does not cover witnesses. */
  function ComputeTxid(c: Crypto, tx: Transaction): Txid {
    c.hash(Strip(tx))
  }

  function Attach(tx: Transaction, witnesses: seq<seq<Bytes>>): Transaction
    requires |witnesses| == |tx.inputs|
  {
    tx.(inputs := seq(|tx.inputs|, i requires 0 <= i < |tx.inputs| => tx.inputs[i].(stack := witnesses[i])))
  }

  lemma AttachKeepsTxid(c: Crypto, tx: Transaction, witnesses: seq<seq<Bytes>>)
    requires |witnesses| == |tx.inputs|
    ensures ComputeTxid(c, Attach(tx, witnesses)) == ComputeTxid(c, tx)
  {
    assert Strip(Attach(tx, witnesses)).inputs == Strip(tx).inputs;
  }

  predicate Subset<K, V(==)>(candidate: map<K, V>, expected: map<K, V>) {
    forall k | k in candidate :: k in expected && expected[k] == candidate[k]
  }

  predicate Optional<T(==)>(candidate: Option<T>, expected: Option<T>) {
    candidate.None? || candidate == expected
  }

  // ---- BIP 67 key order ----

  /** Lexicographic order on byte strings; a proper prefix comes first. */
  predicate LexLeq(a: Bytes, b: Bytes) {
    if a == [] then true
    else if b == [] then false
    else if a[0] != b[0] then a[0] < b[0]
    else LexLeq(a[1..], b[1..])
  }

  lemma {:induction false} LexTotal(a: Bytes, b: Bytes)
    ensures LexLeq(a, b) || LexLeq(b, a)
  {
    if a != [] && b != [] && a[0] == b[0] {
      LexTotal(a[1..], b[1..]);
    }
  }

  lemma {:induction false} LexAntisymmetric(a: Bytes, b: Bytes)
    requires LexLeq(a, b) && LexLeq(b, a)
    ensures a == b
  {
    if a != [] && b != [] {
      LexAntisymmetric(a[1..], b[1..]);
      assert a == [a[0]] + a[1..] && b == [b[0]] + b[1..];
    }
  }

  lemma {:induction false} LexTransitive(a: Bytes, b: Bytes, c: Bytes)
    requires LexLeq(a, b) && LexLeq(b, c)
    ensures LexLeq(a, c)
  {
    if a != [] && b != [] && c != [] && a[0] == b[0] && b[0] == c[0] {
      LexTransitive(a[1..], b[1..], c[1..]);
    }
  }

  /** The first byte in which two strings differ decides; a proper prefix comes first. */
  lemma {:induction false} LexIsByteOrder(a: Bytes, b: Bytes)
    ensures LexLeq(a, b) <==>
      || (|a| <= |b| && b[..|a|] == a)
      || exists i :: 0 <= i < |a| && i < |b| && a[..i] == b[..i] && a[i] < b[i]
  {
    if a != [] && b != [] {
      if a[0] == b[0] {
        LexIsByteOrder(a[1..], b[1..]);
        assert a == [a[0]] + a[1..] && b == [b[0]] + b[1..];
        if i :| 0 <= i < |a[1..]| && i < |b[1..]| && a[1..][..i] == b[1..][..i] && a[1..][i] < b[1..][i] {
          assert a[..i + 1] == [a[0]] + a[1..][..i] && b[..i + 1] == [b[0]] + b[1..][..i];
          assert a[i + 1] < b[i + 1];
        }
        if i :| 0 <= i < |a| && i < |b| && a[..i] == b[..i] && a[i] < b[i] {
          assert i > 0;
          assert a[1..][..i - 1] == a[..i][1..] && b[1..][..i - 1] == b[..i][1..];
          assert a[1..][i - 1] < b[1..][i - 1];
        }
        if |a| <= |b| && b[..|a|] == a {
          assert b[1..][..|a| - 1] == b[..|a|][1..];
        }
        if |a| <= |b| && b[1..][..|a| - 1] == a[1..] {
          assert b[..|a|] == [b[0]] + b[1..][..|a| - 1];
        }
      } else {
        assert a[..0] == b[..0];
        assert forall i :: 0 < i <= |a| && i <= |b| ==> a[..i][0] != b[..i][0];
      }
    }
  }

  function InsertKey(key: PublicKey, sorted: seq<PublicKey>): (r: seq<PublicKey>)
    ensures multiset(r) == multiset(sorted) + multiset{key}
  {
    if sorted == [] then [key]
    else if LexLeq(key, sorted[0]) then [key] + sorted
    else
      assert sorted == [sorted[0]] + sorted[1..];
      [sorted[0]] + InsertKey(key, sorted[1..])
  }

  function SortKeys(keys: seq<PublicKey>): (r: seq<PublicKey>)
    ensures multiset(r) == multiset(keys)
    ensures |r| == |keys|
  {
    if keys == [] then [] else
      assert keys == [keys[0]] + keys[1..];
      var r := InsertKey(keys[0], SortKeys(keys[1..]));
      assert |multiset(r)| == |r| && |multiset(keys)| == |keys|;
      r
  }

  ghost predicate InLexOrder(keys: seq<PublicKey>) {
    forall i :: 0 < i < |keys| ==> LexLeq(keys[i - 1], keys[i])
  }

  lemma {:induction false} InsertKeepsOrder(key: PublicKey, sorted: seq<PublicKey>)
    requires InLexOrder(sorted)
    ensures InLexOrder(InsertKey(key, sorted))
  {
    if sorted != [] && !LexLeq(key, sorted[0]) {
      LexTotal(key, sorted[0]);
      var rest := sorted[1..];
      forall i | 0 < i < |rest| ensures LexLeq(rest[i - 1], rest[i]) {
        assert LexLeq(sorted[i], sorted[i + 1]);
      }
      InsertKeepsOrder(key, rest);
      var inserted := InsertKey(key, rest);
      assert inserted[0] == key || (|sorted| > 1 && inserted[0] == sorted[1]);
    }
  }

  /** Script order is the byte order of the serialized keys, whatever order they were given in. */
  lemma {:induction false} SortKeysOrders(keys: seq<PublicKey>)
    ensures InLexOrder(SortKeys(keys))
    ensures multiset(SortKeys(keys)) == multiset(keys)
  {
    if keys != [] {
      SortKeysOrders(keys[1..]);
      InsertKeepsOrder(keys[0], SortKeys(keys[1..]));
    }
  }

  lemma {:induction false} FirstIsLeast(keys: seq<PublicKey>, i: nat)
    requires InLexOrder(keys) && i < |keys|
    ensures LexLeq(keys[0], keys[i])
  {
    LexTotal(keys[0], keys[0]);
    if i > 0 {
      FirstIsLeast(keys, i - 1);
      LexTransitive(keys[0], keys[i - 1], keys[i]);
    }
  }

  lemma TailInOrder(keys: seq<PublicKey>)
    requires InLexOrder(keys) && keys != []
    ensures InLexOrder(keys[1..]) && multiset(keys[1..]) == multiset(keys) - multiset{keys[0]}
  {
    assert keys == [keys[0]] + keys[1..];
    forall i | 0 < i < |keys| - 1 ensures LexLeq(keys[1..][i - 1], keys[1..][i]) {
      assert LexLeq(keys[i], keys[i + 1]);
    }
  }

  /** Keys have one order. */
  lemma {:induction false} OrderIsUnique(a: seq<PublicKey>, b: seq<PublicKey>)
    requires InLexOrder(a) && InLexOrder(b) && multiset(a) == multiset(b)
    ensures a == b
  {
    assert |multiset(a)| == |a| && |multiset(b)| == |b|;
    if a != [] {
      assert a[0] in multiset(b) && b[0] in multiset(a);
      var i :| 0 <= i < |b| && b[i] == a[0];
      var j :| 0 <= j < |a| && a[j] == b[0];
      FirstIsLeast(b, i);
      FirstIsLeast(a, j);
      LexAntisymmetric(a[0], b[0]);
      TailInOrder(a);
      TailInOrder(b);
      OrderIsUnique(a[1..], b[1..]);
    }
  }

  lemma {:induction false} OrderedPair(keys: seq<PublicKey>, i: nat, j: nat)
    requires InLexOrder(keys) && i < j < |keys|
    ensures LexLeq(keys[i], keys[j])
    decreases j
  {
    if j > i + 1 {
      OrderedPair(keys, i, j - 1);
      LexTransitive(keys[i], keys[j - 1], keys[j]);
    }
  }
}
