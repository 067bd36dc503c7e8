/**
 * Concrete stores. One single-key wallet with one coin shows that the cases which the
 * exact conditions single out are real: an aggregate that outgrows the parser, and two
 * suspended submissions of the same coin.
 */
module Scenarios {
  import opened Wrappers
  import opened ByteStrings
  import opened Psbts
  import opened Tables
  import opened Operations
  import opened Recovery
  import opened Commits
  import opened Ownership
  import opened Holds
  import opened Rows
  import opened Submissions
  import opened StoreInvariant
  import opened Restoration
  import Approvals
  import Outcomes
  import Container
  import Finalizer
  import Signing
  import SigningLaws
  import Sizes

  // ---- The wallet ----

  function Repeat(b: byte, n: nat): (r: Bytes)
    ensures |r| == n
  {
    seq(n, _ => b)
  }

  const KEY: PublicKey := Repeat(2, 33)
  const SIG := Signature(Repeat(0, 70), SIGHASH_ALL)
  const OWN_SCRIPT: Bytes := [1]
  const COIN := OutPoint([9], 0)
  const PREVOUT := TxOut(2000, OWN_SCRIPT)
  const POLICY := TrustedInput(PREVOUT, None, map[], Wpkh(KEY))
  const NO_METADATA := Output(None, None, map[], map[])

  /** The sighash flag in unary, then the signature. */
  function EncodeSignature(sig: Signature): Bytes {
    Repeat(1, sig.sighash) + [0] + sig.der
  }

  function DecodeSignature(bytes: Bytes): Option<Signature> {
    if bytes == [] then None
    else if bytes[0] == 0 then Some(Signature(bytes[1..], 0))
    else if bytes[0] != 1 then None
    else
      match DecodeSignature(bytes[1..])
      case None => None
      case Some(sig) => Some(Signature(sig.der, sig.sighash + 1))
  }

  function OutputBytes(outputs: seq<TxOut>): nat {
    if outputs == [] then 0 else OutputBytes(outputs[..|outputs| - 1]) + 9 + |outputs[|outputs| - 1].script|
  }

  /** A frame of 200 bytes and the outputs of the first input's funding transaction. */
  function Measure(psbt: Psbt): nat {
    200 + if psbt.inputs != [] && psbt.inputs[0].nonWitnessUtxo.Some?
      then OutputBytes(psbt.inputs[0].nonWitnessUtxo.value.outputs) else 0
  }

  function LockByte(tx: Transaction): Bytes {
    [tx.lockTime % 256]
  }

  function DeriveOwn(script: Bytes): Option<Derived> {
    if script == OWN_SCRIPT then Some(Derived(Wpkh(KEY), None, map[], NO_METADATA)) else None
  }

  function Primitives(): Crypto {
    Crypto((tx, i, prevout, descriptor, key, sig) => true, EncodeSignature, DecodeSignature, LockByte, descriptor => OWN_SCRIPT,
           descriptor => [])
  }

  function Wallet(): Env {
    Env(Primitives(), false, map[], outpoint => PREVOUT, DeriveOwn, script => Some("x"), tx => false, txid => txid, LockByte, Measure,
        input => 2, psbt => true)
  }

  /** A payment of the coin, one for each lock time. */
  function Payment(lock: nat): Transaction {
    Transaction(2, lock, [TxIn(COIN, [], 0, [])], [TxOut(1000, [])])
  }

  function Approved(lock: nat, funding: Option<Transaction>): Psbt {
    Psbt(0, Payment(lock), map[], map[], map[], [Input(funding, None, None, map[], None, map[], None, None, map[])], [NO_METADATA])
  }

  /** The transaction that funds the coin, with a second output of `n` script bytes. */
  function Funding(n: nat): Transaction {
    Transaction(2, 9, [], [PREVOUT, TxOut(0, Repeat(0, n))])
  }

  function Reviewed(lock: nat, state: DraftState): Review {
    Review(LockByte(Payment(lock)), [ReviewedInput(COIN, 2000, "")], [ReviewedOutput("x", 1000, false, false)], 1000, "", false, state)
  }

  function Signed(lock: nat): Psbt {
    Signing.WithSignatures(Approved(lock, None), [map[KEY := SIG]])
  }

  function View(): Chain {
    Chain(map[COIN.txid := ChainTx(Funding(0), Confirmed(6))], {COIN})
  }

  // ---- What the policy makes of it ----

  lemma {:induction false} UnaryReads(n: nat, der: Bytes)
    ensures DecodeSignature(Repeat(1, n) + [0] + der) == Some(Signature(der, n))
  {
    var bytes := Repeat(1, n) + [0] + der;
    if n == 0 {
      assert bytes == [0] + der;
    } else {
      assert bytes[1..] == Repeat(1, n - 1) + [0] + der;
      UnaryReads(n - 1, der);
    }
  }

  lemma RoundTrips()
    ensures SignaturesRoundTrip(Primitives())
  {
    forall sig ensures Primitives().decode(Primitives().encode(sig)) == Some(sig) {
      UnaryReads(sig.sighash, sig.der);
    }
  }

  lemma PolicyKeys()
    ensures Signing.TrustedKeys(Primitives(), POLICY) == Ok(([KEY], 1))
  {
    var keys := [KEY];
    assert keys[1..] == [];
    assert SortKeys(keys) == [KEY];
    assert Signing.AllCompressed(keys) && Signing.DistinctKeys(keys);
    assert Primitives().scriptPubkey(POLICY.descriptor) == POLICY.prevout.script;
  }

  /** The approval is sound under the policy, whatever funding transaction it carries. */
  lemma ApprovalIsSound(lock: nat, funding: Option<Transaction>)
    requires funding.Some? ==> exists n :: funding.value == Funding(n)
    ensures var approved := Approved(lock, funding);
      && Signing.ApprovedOk(Primitives(), approved, [POLICY]) && SigningLaws.WellFormed(approved, [POLICY])
      && SigningLaws.Owned(Primitives(), approved, [POLICY], [map[KEY := SIG]])
  {
    PolicyKeys();
    var approved := Approved(lock, funding);
    if funding.Some? {
      var n :| funding.value == Funding(n);
      assert LockByte(Strip(Funding(n))) == [9];
    }
  }

  /** The signed response answers either approval: acceptance looks at the transaction, not at the funding. */
  lemma ResponseIsAcceptable(lock: nat, funding: Option<Transaction>)
    requires funding.Some? ==> exists n :: funding.value == Funding(n)
    ensures Signing.Acceptable(Primitives(), Approved(lock, funding), [POLICY], Signed(lock))
    ensures Signing.Supplied(Primitives(), Approved(lock, funding), [POLICY], Signed(lock)) == [map[KEY := SIG]]
  {
    ApprovalIsSound(lock, None);
    ApprovalIsSound(lock, funding);
    SigningLaws.StoredIsAcceptable(Primitives(), Approved(lock, None), [POLICY], [map[KEY := SIG]]);
    hide SigningLaws.Owned, Signing.ReadInput;
    var read := Signing.Reads(Primitives(), Approved(lock, None), [POLICY], Signed(lock));
    var again := Signing.Reads(Primitives(), Approved(lock, funding), [POLICY], Signed(lock));
    forall i | 0 <= i < 1 ensures read[i] == again[i] {
      SameRead(lock, funding);
    }
    assert read == again;
  }

  lemma SameRead(lock: nat, funding: Option<Transaction>)
    ensures Signing.ReadInput(Primitives(), Approved(lock, None), [POLICY], Signed(lock), 0)
      == Signing.ReadInput(Primitives(), Approved(lock, funding), [POLICY], Signed(lock), 0)
  {
    hide Signing.CheckMetadata, Signing.InputSignatures;
  }

  // ---- An aggregate that outgrows the parser ----

  const LARGE: nat := 1_048_300

  /** One unsigned draft whose approval carries a large funding transaction. */
  function LargeStore(): Db {
    EMPTY.(
      synced := true, chain := View(),
      drafts := map[[0] := Draft(Approved(0, Some(Funding(LARGE))), Reviewed(0, Unsigned))],
      reservations := map[COIN := [0]])
  }

  lemma LargeFits()
    ensures Parses(Wallet(), Approved(0, Some(Funding(LARGE)))) && Parses(Wallet(), Signed(0))
    ensures !Sizes.Room(Wallet(), Approved(0, Some(Funding(LARGE))), [map[KEY := SIG]])
  {
    var outputs := Funding(LARGE).outputs;
    assert outputs[..1] == [PREVOUT] && [PREVOUT][..0] == [];
    assert OutputBytes([PREVOUT]) == 10;
    assert OutputBytes(outputs) == LARGE + 19;
    OneSignatureBytes();
    var large := Approved(0, Some(Funding(LARGE)));
    Sizes.BareKeepsUnsigned(large);
    assert Sizes.SignaturesOf(large) == [map[]] && Sizes.SignaturesOf(Signed(0)) == [map[KEY := SIG]];
    var none: seq<Signing.Signatures> := [map[]];
    assert Sizes.AllSignatureBytes(Primitives(), none) == 0 by {
      assert none[..0] == [];
    }
    assert Sizes.Bare(Signed(0)).inputs[0].nonWitnessUtxo.None?;
  }

  lemma SmallFits()
    ensures forall lock :: Parses(Wallet(), Approved(lock, None)) && Parses(Wallet(), Signed(lock))
  {
    OneSignatureBytes();
    var none: seq<Signing.Signatures> := [map[]];
    assert none[..0] == [];
    forall lock ensures Parses(Wallet(), Approved(lock, None)) && Parses(Wallet(), Signed(lock)) {
      assert Sizes.SignaturesOf(Approved(lock, None)) == none;
      assert Sizes.SignaturesOf(Signed(lock)) == [map[KEY := SIG]];
    }
  }

  lemma OneSignatureBytes()
    ensures Sizes.AllSignatureBytes(Primitives(), [map[KEY := SIG]]) == 108
  {
    var sigs := map[KEY := SIG];
    LexTotal(KEY, KEY);
    assert sigs.Keys == {KEY} && sigs - {KEY} == map[];
    assert Sizes.FieldBytes(Primitives(), KEY, SIG) == 108;
    assert Sizes.SignatureBytes(Primitives(), sigs) == 108;
    assert [sigs][..0] == [];
  }

  // ---- Loading ----

  lemma ListsTheCoin(lock: nat, state: DraftState)
    ensures OutPoints(Reviewed(lock, state)) == {COIN}
  {
    var review := Reviewed(lock, state);
    assert review.inputs[0].outpoint == COIN;
  }

  lemma ReviewBalances(lock: nat, state: DraftState)
    ensures SumInputs(Reviewed(lock, state).inputs) == 2000 && SumOutputs(Reviewed(lock, state).outputs) == 1000
  {
    var review := Reviewed(lock, state);
    assert review.inputs[1..] == [] && review.outputs[1..] == [];
  }

  lemma TxidIsLockTime(lock: nat)
    ensures ComputeTxid(Primitives(), Payment(lock)) == LockByte(Payment(lock)) && Strip(Payment(lock)) == Payment(lock)
  {
    assert Strip(Payment(lock)).inputs == Payment(lock).inputs;
  }

  lemma OnePolicy(lock: nat)
    ensures TrustAll(Wallet(), Payment(lock)) == Ok([POLICY])
  {
    var tx := Payment(lock);
    var each := seq(|tx.inputs|, i requires 0 <= i < |tx.inputs| => TrustAt(Wallet(), tx.inputs[i].prev));
    assert each == [Ok(POLICY)];
    assert Collect(each).Ok? && Collect(each).value == [POLICY];
    assert TrustAll(Wallet(), tx) == Collect(each);
  }

  /** The draft holds the coin's reservation, and everything that is stored is readable. */
  ghost predicate Ready(db: Db, lock: nat, funding: Option<Transaction>, state: DraftState) {
    var id := LockByte(Payment(lock));
    && db.synced && db.chain == View() && COIN !in db.freezes && COIN in db.reservations && db.reservations[COIN] == id
    && id in db.drafts && db.drafts[id] == Draft(Approved(lock, funding), Reviewed(lock, state)) && Active(state)
    && Parses(Wallet(), Approved(lock, funding)) && StoredParses(Wallet(), StoredSignatures(db, id))
  }

  lemma ReadyLoads(db: Db, lock: nat, funding: Option<Transaction>, state: DraftState)
    requires Ready(db, lock, funding, state)
    ensures var id := LockByte(Payment(lock));
      LoadDraft(Wallet(), db, id)
        == Ok(SigningDraft(Approved(lock, funding), StoredSignatures(db, id), [POLICY], Reviewed(lock, state)))
  {
    var id := LockByte(Payment(lock));
    var draft := db.drafts[id];
    ReviewBalances(lock, state);
    TxidIsLockTime(lock);
    OnePolicy(lock);
    assert Approvals.InputLoads(Wallet(), db, id, draft, 0);
    assert OutputMatches(Wallet(), draft.psbt.tx.outputs[0], draft.review.outputs[0], draft.psbt.outputs[0]);
    Approvals.LoadIsExact(Wallet(), db, id);
    hide LoadDraft, Approvals.InputLoads, OutputMatches, Parses, SumInputs, SumOutputs, ComputeTxid, Strip, TrustAll;
    assert Approvals.Loadable(Wallet(), db, id);
    LoadedTrust(Wallet(), db, id);
  }

  lemma LargeIsSound()
    ensures StoreOk(Wallet(), LargeStore())
  {
    ListsTheCoin(0, Unsigned);
    var db := LargeStore();
    hide OutPoints, Reviewed, Approved, FinalFor, StoredRowOk, View, ComputeTxid, Balanced, Wallet;
    assert Owned(db.drafts, db.reservations) by {
      assert OwnsInputs(db.reservations, db.drafts[[0]].review, [0]);
      assert OwnerIsActive(db.drafts, COIN, [0]);
    }
  }

  lemma LargeIsReady()
    ensures Ready(LargeStore(), 0, Some(Funding(LARGE)), Unsigned)
  {
    LargeFits();
    hide Parses;
  }

  /**
   * The store is sound and the response is small, well formed and accepted; the approval
   * and the response both fit the parser, and the stored aggregate does not.
   */
  lemma AggregateOutgrows()
    ensures var db := LargeStore();
      && StoreOk(Wallet(), db) && LoadDraft(Wallet(), db, [0]).Ok? && Parses(Wallet(), Signed(0))
      && AcceptSigned(Wallet(), db, [0], Signed(0)).Ok?
      && LoadDraft(Wallet(), AcceptSigned(Wallet(), db, [0], Signed(0)).value, [0]).Err?
  {
    LargeIsSound();
    LargeFits();
    LargeAccepts();
    hide LoadDraft, StoreOk, Parses, Signing.MergeCondition, Signing.Union, AcceptSigned, Sizes.Room, Signed, Approved, Funding;
    ResponseIsMerged(Some(Funding(LARGE)));
    Approvals.AcceptedLoadsExactly(Wallet(), LargeStore(), [0], Signed(0));
  }

  lemma LargeAccepts()
    ensures LoadDraft(Wallet(), LargeStore(), [0])
      == Ok(SigningDraft(Approved(0, Some(Funding(LARGE))), None, [POLICY], Reviewed(0, Unsigned)))
    ensures AcceptSigned(Wallet(), LargeStore(), [0], Signed(0)).Ok?
  {
    LargeIsReady();
    ReadyLoads(LargeStore(), 0, Some(Funding(LARGE)), Unsigned);
    ResponseIsMerged(Some(Funding(LARGE)));
    var loaded := SigningDraft(Approved(0, Some(Funding(LARGE))), None, [POLICY], Reviewed(0, Unsigned));
    assert LockByte(Payment(0)) == [0] && StoredSignatures(LargeStore(), [0]) == None;
    assert loaded.review.state == Unsigned && Wallet().crypto == Primitives();
    hide LoadDraft, Signing.MergeCondition, Signing.Union, Signing.Merge, AcceptSigned, Signed, Approved, Funding, Reviewed,
      LargeStore, Primitives, Wallet;
    Outcomes.AcceptForm(Wallet(), LargeStore(), [0], Signed(0), loaded);
  }

  lemma ResponseIsMerged(funding: Option<Transaction>)
    requires funding.Some? ==> exists n :: funding.value == Funding(n)
    ensures var approved := Approved(0, funding);
      && Signing.Merge(Primitives(), approved, None, Signed(0), [POLICY]).Ok?
      && Signing.Merge(Primitives(), approved, None, Signed(0), [POLICY]).value.inputs[0].partialSigs != map[]
      && Signing.MergeCondition(Primitives(), approved, None, Signed(0), [POLICY])
      && Signing.Union(Primitives(), approved, None, Signed(0), [POLICY]) == [map[KEY := SIG]]
  {
    var approved := Approved(0, funding);
    ApprovalIsSound(0, funding);
    ResponseIsAcceptable(0, funding);
    var one: seq<Signing.Signatures> := [map[KEY := SIG]];
    Signing.JoinNothing(one);
    Signing.MergeIsUnion(Primitives(), approved, None, Signed(0), [POLICY]);
    hide Signing.ApprovedOk, Signing.Acceptable, Signing.Supplied, SigningLaws.Owned, SigningLaws.WellFormed, Signing.Merge;
    assert Signing.Union(Primitives(), approved, None, Signed(0), [POLICY]) == one;
    assert Signing.WithSignatures(approved, one).inputs[0].partialSigs == one[0];
    assert KEY in one[0];
  }

  // ---- Two suspended submissions of one coin ----

  function Final(lock: nat): Transaction {
    match FinalFor(Wallet(), Approved(lock, None), Some(Signed(lock)))
    case Ok(tx) => tx
    case Err(_) => Payment(lock)
  }

  function Submission(id: nat, lock: nat): Attempt {
    Attempt(id, LockByte(Payment(lock)), LockByte(Payment(lock)), LockByte(Payment(lock)), false)
  }

  /** Two payments of the coin were signed, finalized and submitted; both came back from a backup, and a sync saw neither. */
  function TwinStore(): Db {
    EMPTY.(
      synced := true, chain := View(),
      drafts := map[[0] := Draft(Approved(0, None), Reviewed(0, Invalidated)), [1] := Draft(Approved(1, None), Reviewed(1, Invalidated))],
      signatures := map[[0] := Signed(0), [1] := Signed(1)],
      finalized := map[[0] := Final(0), [1] := Final(1)],
      attempts := [Submission(1, 0), Submission(2, 1)], nextAttempt := 3,
      recovered := {[0], [1]}, holds := {Hold(COIN, [0]), Hold(COIN, [1])})
  }

  lemma SignedMerges(lock: nat)
    ensures Signing.Merge(Primitives(), Approved(lock, None), Some(Signed(lock)), Approved(lock, None), [POLICY]) == Ok(Signed(lock))
    ensures SigningLaws.Complete(Primitives(), Signed(lock), [POLICY])
  {
    var approved := Approved(lock, None);
    var one: seq<Signing.Signatures> := [map[KEY := SIG]];
    ApprovalIsSound(lock, None);
    PolicyKeys();
    SigningLaws.ApprovedSuppliesNothing(Primitives(), approved, [POLICY], one);
    SigningLaws.MergeIntoStored(Primitives(), approved, [POLICY], one, approved);
    Signing.JoinNothing(one);
    assert |one[0]| == 1;
    assert Signed(lock).inputs[0].partialSigs == one[0];
  }

  lemma FinalExists(lock: nat)
    ensures FinalFor(Wallet(), Approved(lock, None), Some(Signed(lock))) == Ok(Final(lock))
    ensures Finalizer.Finalize(Primitives(), Approved(lock, None), Some(Signed(lock)), [POLICY]) == Ok(Final(lock))
    ensures ComputeTxid(Primitives(), Final(lock)) == LockByte(Payment(lock)) == LockByte(Final(lock))
  {
    var approved := Approved(lock, None);
    SignedMerges(lock);
    RoundTrips();
    OnePolicy(lock);
    TxidIsLockTime(lock);
    Finalizer.FinalizeIsTotalOnComplete(Primitives(), approved, Some(Signed(lock)), [POLICY]);
    Finalizer.FinalStripsToApproved(Primitives(), approved, Some(Signed(lock)), [POLICY]);
    hide Finalizer.Finalize, Signing.Merge, SigningLaws.Complete, Signed, TrustAll;
    assert Final(lock).lockTime == Strip(Final(lock)).lockTime;
  }

  lemma TwinRow(lock: nat)
    ensures RowOk(Wallet(), Draft(Approved(lock, None), Reviewed(lock, Invalidated)), Some(Signed(lock)), Some(Final(lock)))
  {
    ApprovalIsSound(lock, None);
    OnePolicy(lock);
    FinalExists(lock);
    hide TrustAll, FinalFor, Signing.ApprovedOk, SigningLaws.Owned, SigningLaws.WellFormed;
    assert IsAggregate(Wallet(), Approved(lock, None), [POLICY], Signed(lock), [map[KEY := SIG]]);
  }

  lemma LatestOfTwo(first: Attempt, second: Attempt)
    requires first.draft != second.draft
    ensures Latest([first, second], first.draft) == Some(first) && Latest([first, second], second.draft) == Some(second)
  {
    var attempts := [first, second];
    assert attempts[..1] == [first];
    assert [first][..0] == [];
  }

  lemma {:induction false} CountIsAtMost(attempts: seq<Attempt>, id: DraftId)
    ensures AttemptCount(attempts, id) <= |attempts|
  {
    if attempts != [] {
      CountIsAtMost(attempts[..|attempts| - 1], id);
    }
  }

  lemma TwinAttempts()
    ensures var attempts := TwinStore().attempts;
      && attempts == [Submission(1, 0), Submission(2, 1)]
      && Latest(attempts, [0]) == Some(Submission(1, 0)) && Latest(attempts, [1]) == Some(Submission(2, 1))
      && forall id :: AttemptCount(attempts, id) <= 2
  {
    hide Final, Approved, Signed, View, Latest, AttemptCount;
    LatestOfTwo(Submission(1, 0), Submission(2, 1));
    forall id ensures AttemptCount(TwinStore().attempts, id) <= 2 {
      CountIsAtMost(TwinStore().attempts, id);
    }
  }

  lemma WalletHashes(tx: Transaction)
    ensures Wallet().crypto == Primitives() && Wallet().wtxid(tx) == LockByte(tx)
  {
  }

  lemma TwinHas(lock: nat)
    requires lock < 2
    ensures var db := TwinStore();
      && LockByte(Payment(lock)) == [lock] && [lock] in db.recovered && [lock] in db.drafts && [lock] in db.finalized
      && db.drafts[[lock]] == Draft(Approved(lock, None), Reviewed(lock, Invalidated)) && db.finalized[[lock]] == Final(lock)
      && db.nextAttempt == 3 && db.synced && db.chain == View()
  {
    hide Final, Approved, Signed, View, Reviewed;
  }

  lemma TwinAttemptRow(lock: nat)
    requires lock < 2
    ensures AttemptRowOk(Wallet(), TwinStore(), Submission(lock + 1, lock))
  {
    TwinHas(lock);
    FinalExists(lock);
    ReviewBalances(lock, Invalidated);
    WalletHashes(Final(lock));
    hide Final, Approved, Signed, View, ComputeTxid, SumInputs, SumOutputs, Wallet, Primitives, TwinStore, Payment;
  }

  lemma TwinAttemptsOk()
    ensures AttemptsOk(Wallet(), TwinStore())
  {
    TwinAttempts();
    TwinAttemptRow(0);
    TwinAttemptRow(1);
    hide AttemptRowOk, AttemptCount, Final, Approved, Signed, View, Submission, Wallet;
    assert TwinStore().attempts[0].id == 1 && TwinStore().attempts[1].id == 2 by {
      SubmissionId(1, 0);
      SubmissionId(2, 1);
    }
  }

  lemma SubmissionId(id: nat, lock: nat)
    ensures Submission(id, lock).id == id
  {
  }

  lemma TwinHolds()
    ensures HoldsCover(TwinStore())
  {
    TwinAttempts();
    ListsTheCoin(0, Invalidated);
    ListsTheCoin(1, Invalidated);
    var db := TwinStore();
    hide Final, Latest, OutPoints, Approved, Signed, View;
    assert IsSuspended(db, [0]);
    assert IsSuspended(db, [1]);
  }

  lemma TwinRows()
    ensures DraftRowsOk(Wallet(), TwinStore())
  {
    TwinRow(0);
    TwinRow(1);
    hide RowOk, Final, Approved, Signed, View, Wallet, Reviewed;
  }

  lemma TwinIsSound()
    ensures StoreOk(Wallet(), TwinStore())
  {
    TwinRows();
    TwinHolds();
    TwinAttemptsOk();
    hide DraftRowsOk, HoldsCover, AttemptsOk, Final, Approved, Signed, View, OutPoints, Wallet;
  }

  lemma TwinIsWritten()
    ensures var db, written := TwinStore(), Rewritten(TwinStore(), [0]);
      && written.drafts[[0]] == Draft(Approved(0, None), Reviewed(0, Finalized))
      && written.reservations == map[COIN := [0]] && StoredSignatures(written, [0]) == Some(Signed(0))
      && written == db.(drafts := written.drafts, reservations := written.reservations) && db.freezes == {}
  {
    ListsTheCoin(0, Invalidated);
    hide Final, Approved, Signed, View, OutPoints;
  }

  lemma TwinIsReady()
    ensures Ready(Rewritten(TwinStore(), [0]), 0, None, Finalized)
  {
    TwinIsWritten();
    TwinHas(0);
    SmallFits();
    hide Final, Approved, Signed, View, Parses, Wallet, Rewritten, TwinStore, Reviewed;
  }

  lemma TwinValidates()
    ensures var written := Rewritten(TwinStore(), [0]);
      ValidatedFinalized(Wallet(), written, [0]) == Ok(Some(ReviewFinal(Wallet(), [0], Reviewed(0, Finalized), Final(0))))
  {
    TwinIsReady();
    ReadyLoads(Rewritten(TwinStore(), [0]), 0, None, Finalized);
    FinalExists(0);
    hide Ready, LoadDraft, Final, Finalizer.Finalize, Approved, Signed, View, ReserveIgnoring, ReviewFinal;
  }

  lemma TwinResumes()
    ensures Resume(Wallet(), TwinStore(), [0], [0], 1, true).Ok?
  {
    TwinAttempts();
    TwinValidates();
    FinalExists(0);
    WalletHashes(Final(0));
    TwinHas(0);
    assert Submission(1, 0).id == 1 && Submission(1, 0).txid == [0] && Reviewed(0, Invalidated).state == Invalidated;
    hide ValidatedFinalized, Rewritten, ComputeTxid, Final, Latest, Approved, Signed, View, HoldsWithout, Wallet, Primitives,
      TwinStore, Submission, Reviewed;
  }

  /**
   * Resuming one of the two makes it the coin's owner. The rows that a resumption of the
   * other writes before validation then break ownership, and every such resumption is refused.
   */
  lemma TwinIsBlocked()
    ensures var db := TwinStore();
      && StoreOk(Wallet(), db) && Resume(Wallet(), db, [0], [0], 1, true).Ok?
      && var after := Apply(Wallet(), db, Op.Reapprove([0], [0], 1, true));
      && StoreOk(Wallet(), after) && [1] in after.recovered && [1] in after.drafts
      && !Owned(Rewritten(after, [1]).drafts, Rewritten(after, [1]).reservations)
      && forall txid, attempt, acknowledged :: Resume(Wallet(), after, [1], txid, attempt, acknowledged).Err?
  {
    TwinIsSound();
    TwinResumes();
    ListsTheCoin(0, Invalidated);
    ListsTheCoin(1, Invalidated);
    hide StoreOk, Resume, Apply, Owned, Rewritten, Final, Approved, Signed, View, OutPoints;
    SharedInputBlocks(Wallet(), TwinStore(), [0], [1], COIN, [0], 1);
  }
}
