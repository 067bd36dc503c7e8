# Tundra: a verified model of the wallet core

Tundra keeps watch-only Bitcoin wallets, prepares payments, merges signatures that come
back from hardware, submits final transactions and survives crashes and restores. This
project models the decisions in that core and proves what they keep. To verify it:
`dafny verify dfyconfig.toml`.

How the pieces fit:

- **Signatures.** `Multisig` is the key-consuming scan of a CHECKMULTISIG witness,
  `Signing` the merge of a response into an approved PSBT, `SigningLaws` its algebra,
  `Finalizer` the assembly that re-validates itself. Validity of a signature for a key is
  an arbitrary relation throughout. `Responses` says field by field which approvals,
  responses and policies a merge accepts, and `FinalBytes` which bytes finalization assembles
  and when, both without the functions that decide it.
- **Container.** The byte-level pre-scan of a binary PSBT (BIP 174, section
  "Specification") against an independent encoder.
- **Store.** `Tables` holds the tables of one wallet's database and the outside world they
  are checked against; `Operations`, `Chainsync` and `Recovery` are the transactions as
  functions from one committed state to the next; `Commits` collects them. `Core.dfy`
  (module `Store`) is the same store as an object whose methods write row by row, loop,
  and roll back; each is proved equal to its transaction. `Ownership`, `Holds`, `Rows`,
  `Submissions`, `Approvals`, `Synced`, `Labelling` and `StoreInvariant` prove what commits keep.
  `Loading`, `Creation`, `Outcomes`, `Syncing` and `Resumption` say for each operation, on
  the rows before the call, exactly when it succeeds and which rows it writes.
  `Sizes` counts what a PSBT takes on the wire; `Scenarios` holds the concrete stores below.
- **Protocol.** `Protocol` lets any number of submitting callers interleave with every
  other operation, lose their process after any step, and restore backups; `Restoration`
  follows a restored store until it is synced, observed or resumed, and `Confirmation`
  traces every POST back to a caller that named its transaction. `Scans` is the operation
  around a sync: prepared, run and cancelled without a lock, committed over what it was
  prepared from.
- **Storage.** `Vault` is the three-store protocol of key record, database file and
  selector under concurrent processes and crashes; `Completion` says where an undisturbed
  open or restore ends; `StoreSelection` is the selector file.
- **Planner and payments.** `Planner` estimates fees in whole satoshis and quarter vbytes
  and orders coins; `Selector` chooses them, as a function that its loops compute;
  `Payments` is the prototype's wallet with its one draft; `PaymentLaws` states its sizes,
  label mixtures, bindings and edits in their own terms.
- **Codecs.** `Checksum` (BIP 380, section "Checksum") with the first published vector in
  `Published`, `Usb`, `Qr`, `Amount`, `LabelFiles`,
  and `Origins`, the abbreviated descriptor by which label files name a wallet.

Five properties hold only in part, each with an input that shows it and the exact condition:

- Writing a resumed draft's rows keeps ownership if and only if no other draft holds one of
  its inputs (`Restoration.RewriteIsSafeExactly`). Two suspended submissions that share an
  input break it once one of them is resumed (`Restoration.SharedInputBlocks`), as they do
  in the sound store of `Scenarios.TwinIsBlocked`; the validation that follows refuses them.
- Automatic selection can mix labels although an unmixed selection could pay
  (`Selector.CollisionMixes`). It mixes if and only if no single coin pays and, in every
  group that can pay, the shortest paying largest-first prefix holds an unlabelled coin
  (`Selector.MixedExactly`). A wallet in which no two labels spell the same unlabelled
  coin's placeholder is safe for every request (`Selector.ChoiceIsBest`).
- A label preview of zero changes keeps everything that is shown, but an explicit empty
  label can still add a row (`LabelFiles.EmptyLabelIsARow`). The tables stay as they are if
  and only if every explicit empty label meets an existing row
  (`LabelFiles.NoChangesKeepRowsExactly`).
- A response is bounded but the aggregate it is merged into is not, so an accepted response
  can leave a draft that no longer loads (`Scenarios.AggregateOutgrows`: a large approval, a
  small response with one signature). It loads again if and only if the approval's bytes and
  those of the union of signatures come to at most 1,048,576, with at most 64 fields in each
  input's map, which is decided by what is stored and received
  (`Approvals.AcceptedLoadsExactly`).
- A wallet reads its own label export back if and only if its abbreviated descriptor spells
  in at most 1,024 bytes (`Origins.OwnExportIsRead`). Three accounts 255 levels below their
  master keys are a wallet beyond that (`Origins.DeepAccounts`).

## Model

| member | source | states |
|---|---|---|
| Multisig.GreedyComplete | crates/tundra-core/src/signing.rs:285-292 | whenever some strictly increasing assignment of signatures to keys is valid, the greedy scan succeeds and is never behind it, position by position |
| Multisig.GreedyIsExact | crates/tundra-core/src/signing.rs:285-292 | for any validity relation the scan accepts exactly the witnesses that some increasing assignment explains |
| Multisig.RecordedExact | crates/tundra-core/src/signing.rs:286-292 | with distinct keys each signature is recorded under a key of its own and under no other |
| Multisig.MatchWitness | crates/tundra-core/src/signing.rs:285-292 | the loop over remaining keys decides matchability and returns the recorded signatures |
| Psbts.SortKeysOrders | crates/tundra-core/src/signing.rs:140-160 | the policy's keys are the descriptor's keys in BIP 67 order |
| Psbts.LexIsByteOrder | crates/tundra-core/src/signing.rs:150-150 | key order is decided by the first differing byte, a proper prefix coming first |
| Responses.PolicyIsExact | crates/tundra-core/src/signing.rs:141-158 | an input has these policy keys exactly when they are its one key, or its three keys in strictly increasing byte order, all compressed and distinct, and the descriptor derives the prevout's script |
| Responses.OwnInputIsExact | crates/tundra-core/src/signing.rs:161-213 | an input's metadata passes exactly when each field is absent or is what the wallet derived, the funding transaction has the right id and output, and no other field is set |
| Responses.ReadingIsExact | crates/tundra-core/src/signing.rs:215-296 | an input is read exactly when it supplies verified SIGHASH_ALL signatures of policy keys, partial or in a well-formed final witness in script order |
| Responses.AnswerIsExact | crates/tundra-core/src/signing.rs:318-345 | a candidate is acceptable exactly when it is version 0, has the approved transaction, as many maps, only approved global and output fields, and own, verified inputs |
| Responses.MergeIsExact | crates/tundra-core/src/signing.rs:299-365 | a merge succeeds exactly for a sound unsigned approval, an earlier aggregate and a response that both answer it, and no key with two signatures; said field by field |
| Responses.MergedIsExact | crates/tundra-core/src/signing.rs:346-365 | the result is the approval and nothing else but, per input, every key and signature that either supplied |
| Responses.ForeignIsRefused | crates/tundra-core/src/signing.rs:318-332 | another transaction's PSBT is refused, as a response and as a stored aggregate |
| Signing.CheckApprovedExact | crates/tundra-core/src/signing.rs:305-325 | the approval loop passes exactly when every input carries only derived metadata and no signature |
| Signing.MergeReadsExact | crates/tundra-core/src/signing.rs:326-356 | folding candidates' signatures succeeds exactly when they agree, and yields the key-wise union |
| Signing.MergeIsUnion | crates/tundra-core/src/signing.rs:299-365 | a merge succeeds exactly under an explicit condition, and is then the approved PSBT plus the union of previous and response signatures |
| Signing.InsertAll | crates/tundra-core/src/signing.rs:345-356 | the insertion loop refuses a second, different signature for a key |
| Signing.MergeInto | crates/tundra-core/src/signing.rs:326-356 | one candidate's loop equals its fold |
| Signing.MergeResponse | crates/tundra-core/src/signing.rs:299-365 | the whole imperative merge equals its specification, every error included |
| SigningLaws.SuppliedAreOwned | crates/tundra-core/src/signing.rs:215-298 | every signature read from a response belongs to a policy key and is valid for it |
| SigningLaws.StoredIsAcceptable | crates/tundra-core/src/signing.rs:299-365 | a verified aggregate is accepted again and supplies exactly its signatures |
| SigningLaws.MergedAreOwned | crates/tundra-core/src/signing.rs:299-365 | all signatures of a merge result are policy-owned and valid, normalised to partial signatures |
| SigningLaws.MergeIsIdempotent | crates/tundra-core/src/signing.rs:299-365 | merging the same response again gives the same aggregate |
| SigningLaws.MergeOrderIsIrrelevant | crates/tundra-core/src/signing.rs:299-365 | two responses in either order both fail or both give the same aggregate |
| SigningLaws.CountsOnlyGrow | crates/tundra-core/src/signing.rs:367-391 | per input the signature count never falls and never exceeds the number of policy keys |
| SigningLaws.SignedNeverReverts | crates/tundra-core/src/signing.rs:771-809 | a complete aggregate stays complete under any accepted response |
| Finalizer.MultisigStackIsAccepted | crates/tundra-core/src/signing.rs:634-668 | the witness assembled for a sorted multisig input passes the greedy scan with exactly the required signatures |
| Finalizer.SingleStackIsAccepted | crates/tundra-core/src/signing.rs:634-668 | the witness assembled for a single-key input reads back as its signature |
| Finalizer.FinalizeIsTotalOnComplete | crates/tundra-core/src/signing.rs:619-673 | finalization succeeds exactly on complete aggregates: its own re-validation never fires |
| Finalizer.AllReadBack | crates/tundra-core/src/signing.rs:668-673 | merging the assembled witnesses from scratch is complete again |
| Finalizer.FinalStripsToApproved | crates/tundra-core/src/signing.rs:628-673 | final bytes differ from the approved transaction only in their witnesses |
| Finalizer.FinalizeTransaction | crates/tundra-core/src/signing.rs:621-673 | the imperative assembly equals its specification |
| FinalBytes.FinalizesExactly | crates/tundra-core/src/signing.rs:619-673 | finalization succeeds exactly for a sound approval and a stored aggregate that answers it with enough signatures for every input's policy |
| FinalBytes.FinalBytesAreExact | crates/tundra-core/src/signing.rs:628-668 | the final transaction is the approved one with, per input, the policy's witness: key and signature, or the first two signatures in strictly increasing key order between the empty element and the script |
| Container.ReadSizeComplete | crates/tundra-core/src/signing.rs:35-41 | every canonical compact size is read back with the rest untouched |
| Container.ReadSizeSound | crates/tundra-core/src/signing.rs:35-41 | only canonical compact sizes are read |
| Container.ShapeExact | crates/tundra-core/src/signing.rs:42-75 | a transaction has a shape exactly when it is the encoding of an unsigned transaction with those counts, within bounds |
| Container.TransactionShape | crates/tundra-core/src/signing.rs:42-75 | the cursor loop computes that shape and terminates |
| Container.GlobalShapeExact | crates/tundra-core/src/signing.rs:94-117 | the global map fixes the counts exactly when it has one unsigned-transaction field |
| Container.ScanField | crates/tundra-core/src/signing.rs:97-108 | one key and value are scanned as the parser reads them |
| Container.ScanMap | crates/tundra-core/src/signing.rs:94-117 | one map's loop agrees with the map parser and the global-field rule |
| Container.ScanContainer | crates/tundra-core/src/signing.rs:76-124 | the nested loops accept exactly the parser's documents and terminate on remaining length |
| Container.ParseIsExact | crates/tundra-core/src/signing.rs:76-124 | accepted bytes are exactly the encodings of well-formed documents: magic, then 1 + inputs + outputs maps within bounds |
| Container.DecompositionIsUnique | crates/tundra-core/src/signing.rs:76-124 | two well-formed documents with the same bytes are equal |
| Container.AcceptedIsPrefixFree | crates/tundra-core/src/signing.rs:118-124 | no accepted container is a proper prefix of another: truncation and concatenation are refused |
| Container.AcceptedIsExact | crates/tundra-core/src/signing.rs:10-124 | accepted are exactly the encodings, of at most 1,048,576 bytes after the magic, of containers with at most 64 fields a map, keys of 1 to 256 bytes, one transaction under key zero with 1 to 200 inputs, 1 to 400 outputs and scripts up to 10,000 bytes, and as many maps |
| Approvals.CreatedIsDescribed | crates/tundra-core/src/engine.rs:421-601 | a created draft spends only available coins, exactly the selected ones if any, reserves each of them, and its review accounts for every satoshi with a fee within the cap |
| Approvals.CreatedIsLoadable | crates/tundra-core/src/signing.rs:392-600 | what creation approved, with metadata that the wallet's descriptors derive, signing loads at once if and only if the inputs total at most the supply bound, which creation itself does not check |
| Approvals.AcceptedLoadsExactly | crates/tundra-core/src/signing.rs:585-593 | after an accepted response the draft loads again if and only if the approval has room for the union of the stored and the received signatures: bytes within 1,048,576 and at most 64 fields in each input's map, all known before the call |
| Sizes.AggregateFits | crates/tundra-core/src/signing.rs:76-124 | an aggregate fits the bounded parser exactly when its approval's bytes and fields leave room for its signatures |
| Sizes.WidthIsEncoded | crates/tundra-core/src/signing.rs:35-41 | the counted width of a length is that of its compact-size encoding |
| Sizes.FieldIsEncoded | crates/tundra-core/src/signing.rs:97-108 | the counted bytes of a signature are those of its field as a map holds it |
| Scenarios.AggregateOutgrows | crates/tundra-core/src/signing.rs:585-593 | a sound store and a small, valid, accepted response after which the draft no longer loads |
| Scenarios.TwinIsBlocked | crates/tundra-core/src/recovery.rs:175-237 | a sound store with two suspended submissions of one coin: one resumes, and the rows that a resumption of the other writes would break ownership, so each is refused |
| Approvals.LoadIsExact | crates/tundra-core/src/signing.rs:392-600 | a draft loads if and only if every condition holds: synced test network, identity, own metadata, each input eligible, unfrozen, reserved by it and used once, amounts and outputs as reviewed, balance and fee cap, and a stored aggregate within the parser's bounds |
| Loading.StatusIsExact | crates/tundra-core/src/engine.rs:744-770 | a coin is frozen, reserved, pending, immature or available exactly by freeze, then reservation or hold, then confirmation, then the hundred-block rule for minted coins |
| Loading.AvailableIsExact | crates/tundra-core/src/engine.rs:744-770 | a coin is offered exactly when it is mature and neither frozen, reserved nor held |
| Loading.LoadsExactly | crates/tundra-core/src/signing.rs:392-600 | a draft loads exactly when every row it depends on stands, each condition said on the row's own fields and in plain numbers |
| Loading.LoadedIsExact | crates/tundra-core/src/signing.rs:392-600 | what is loaded are the rows, and for each input what the wallet derives for the coin it spends |
| Creation.CreatesExactly | crates/tundra-core/src/engine.rs:421-601 | a draft is created exactly when label, fee rate, selection, consent and payment pass and the proposal spends exactly selected, available, distinct coins to readable outputs within the fee cap, under a new identity |
| Creation.CreatedRows | crates/tundra-core/src/engine.rs:560-601 | creation writes the approval with its review, and one reservation per input; every other row stays |
| Outcomes.AcceptsExactly | crates/tundra-core/src/signing.rs:771-809 | a response is accepted exactly for a loadable draft that is not final, when it merges and leaves a signature; aggregate and state change together, to signed exactly when every input has enough |
| Outcomes.FinalizesDraftExactly | crates/tundra-core/src/signing.rs:729-757 | finalizing succeeds exactly when state and final row agree and the rows assemble, to the stored bytes if there are any; it writes bytes and state once |
| Outcomes.ValidatesExactly | crates/tundra-core/src/signing.rs:702-725 | the stored bytes re-validate exactly when a finalized, loadable draft still assembles to them, with txid, wtxid and fee as reported |
| Outcomes.BeginsExactly | crates/tundra-core/src/broadcast.rs:213-249 | a submission may begin exactly off mainnet, over a permitted endpoint, with bytes that re-validate and whose txid is the one the caller named, after the newest attempt it named, with consent and with room |
| Outcomes.InsertsExactly | crates/tundra-core/src/broadcast.rs:261-271 | the insert repeats every check and appends one unacknowledged row with a new id and the final bytes' ids |
| Outcomes.AcknowledgesExactly | crates/tundra-core/src/broadcast.rs:278-284 | a reply marks exactly the rows of its own attempt and draft |
| Outcomes.DiscardsExactly | crates/tundra-core/src/engine.rs:628-650 | a draft is discarded exactly when it exists and was never submitted; its own rows go and its coins are free, every other row stays |
| Outcomes.FreezeBlocks | crates/tundra-core/src/engine.rs:231-252 | exactly an unspent coin can be frozen; then it shows as frozen, is offered to nobody, and no draft that spends it loads; unfreezing undoes that, and no other coin changes |
| Outcomes.LabelsExactly | crates/tundra-core/src/engine.rs:219-230 | exactly a known reference takes exactly a proper label, the empty one included |
| Ownership.LoadedInputs | crates/tundra-core/src/signing.rs:467-496 | a loaded draft owns the reservation of each input, and each is eligible and unfrozen |
| Ownership.ResumeKeeps | crates/tundra-core/src/recovery.rs:214-233 | after a validated resumption the rewritten rows satisfy ownership |
| Ownership.SyncKeeps | crates/tundra-core/src/sync.rs:313-361 | the whole invalidation loop keeps ownership |
| Ownership.CommitKeepsOwnership | crates/tundra-core/src/engine.rs:421-650 | every commit keeps: a signable draft owns each input's reservation, every reservation belongs to such a draft listing it, no outpoint has two owners |
| Holds.HeldIsNotAvailable | crates/tundra-core/src/engine.rs:744-757 | an input of a suspended submission is never offered for spending |
| Holds.CommitKeepsHolds | crates/tundra-core/src/recovery.rs:136-150 | every commit keeps each suspended submission's inputs held and no hold without its submission |
| Holds.RestoreSuspends | crates/tundra-core/src/recovery.rs:14-161 | a restored store has no reservation and no fresh sync, all drafts are invalidated, exactly the submitted ones are suspended with every input held |
| Rows.LoadedIsWellFormed | crates/tundra-core/src/signing.rs:392-600 | a loaded draft satisfies the hypotheses of the signature laws |
| Rows.AcceptedRow | crates/tundra-core/src/signing.rs:771-809 | an accepted response leaves a verified aggregate of the approval, and a signed draft signed |
| Rows.CommitKeepsRows | crates/tundra-core/src/signing.rs:702-757 | every commit keeps: state, aggregate and final row of each draft agree, and final bytes are what approval and signatures assemble to |
| Submissions.CommitIsStable | crates/tundra-core/src/signing.rs:744-755 | no commit but a permitted discard changes a draft's approval or review facts, or its final bytes once they exist |
| Submissions.ValidatedForInsert | crates/tundra-core/src/broadcast.rs:261-265 | what an insert has validated: finalized state, bytes reassembled from approval and signatures, balance within the fee cap, a completed sync |
| Submissions.InsertIsExact | crates/tundra-core/src/broadcast.rs:261-271 | an attempt is recorded if and only if the unchanged review re-validates, it names the newest attempt, a resubmission was consented to, and fewer than 64 exist |
| Submissions.InsertKeepsAttempts | crates/tundra-core/src/broadcast.rs:261-271 | an insert keeps ids increasing, at most 64 rows per draft, and each row naming its draft's final transaction |
| Submissions.CommitKeepsAttempts | crates/tundra-core/src/broadcast.rs:58-85 | every commit keeps the submission rows sound: inputs = outputs + fee with fee at most 1,000,000 for each submitted draft |
| Submissions.RetiredIsRefused | crates/tundra-core/src/broadcast.rs:118-149 | an observed draft is refused by signing, finalization, submission, resumption and discard |
| Submissions.CommitKeepsRetired | crates/tundra-core/src/broadcast.rs:118-149 | no commit makes an observed draft signable or submittable again |
| StoreInvariant.CommitKeepsStore | crates/tundra-core/src/engine.rs:421-650 | one commit, successful or refused, keeps ownership, holds, rows, submissions and retirement together |
| StoreInvariant.RestoreKeepsStore | crates/tundra-core/src/backup.rs:290-312 | restoring a backup of a sound store gives a sound store |
| StoreInvariant.SoundArchivesPass | crates/tundra-core/src/recovery.rs:99-135 | the archive checks of a restore never refuse a sound store's final bytes, and its signatures exactly when the aggregate has outgrown the parser |
| Synced.SeenIsExact | crates/tundra-core/src/broadcast.rs:87-116 | an observation is of the exact final bytes of the newest submission, confirmed or in the mempool |
| Synced.SyncDecides | crates/tundra-core/src/sync.rs:313-361 | after a whole sync each draft is observed, invalidated or kept exactly as the new chain view decides, in whatever order the rows came |
| Synced.SurvivorsAreEligible | crates/tundra-core/src/sync.rs:313-361 | a draft that can still be signed after a sync spends only unspent, confirmed, mature coins |
| Syncing.SyncsExactly | crates/tundra-core/src/sync.rs:280-298 | a completed scan is applied exactly when every submission names its final bytes and every payment first seen has a proper label; then the store is synced with the new view, and drafts, reservations, holds, markers, labels and provenance are exactly what the view decides, in any row order |
| Scans.OneScanPerWallet | crates/tundra-core/src/sync.rs:114-166 | over every interleaving at most one scan of a wallet is under way and at most 32 operations are remembered |
| Scans.CommitsOverItsSnapshot | crates/tundra-core/src/sync.rs:260-298 | a scan commits only over exactly the revision and state it was prepared from, and moves the wallet to the next revision |
| Scans.RevisionsCommitOnce | crates/tundra-core/src/sync.rs:267-272 | of scans prepared from one revision at most one is ever committed, and no operation twice |
| Scans.CancelledNeverCommits | crates/tundra-core/src/sync.rs:189-200 | once a caller is told that its scan is cancelled, no later step commits it |
| Scans.CompleteHasCommitted | crates/tundra-core/src/sync.rs:189-200 | when cancelling reports completion instead, the commit has already won |
| Scans.ScanCompletes | crates/tundra-core/src/sync.rs:201-300 | a scan left alone completes and commits |
| StoreInvariant.RunKeepsStore | crates/tundra-core/src/engine.rs:421-650 | every run of operations keeps the whole invariant |
| StoreInvariant.ObservedStaysRetired | crates/tundra-core/src/broadcast.rs:118-149 | over any run of one store an observed draft stays retired |
| StoreInvariant.SubmittedBytesAreForever | crates/tundra-core/src/signing.rs:744-755 | a submitted draft's final bytes and approval are the same in every later state |
| Protocol.NextKeepsSound | crates/tundra-core/src/broadcast.rs:213-288 | every step of any caller, any other commit, death, backup or restore keeps the protocol invariant |
| Protocol.RunIsSound | crates/tundra-core/src/broadcast.rs:213-288 | the protocol invariant holds over every interleaving |
| Protocol.EveryReachableStore | crates/tundra-core/src/broadcast.rs:213-288 | over every interleaving, crash and restore the tables keep ownership and holds, and stored final bytes equal what approval and signatures assemble to |
| Protocol.EveryPostIsRecorded | crates/tundra-core/src/broadcast.rs:259-274 | each POST has its own committed row, and all bytes ever posted for a draft equal its one finalized row |
| Protocol.PostedIsKept | crates/tundra-core/src/engine.rs:628-650 | a posted draft can never be discarded and pays exactly what was reviewed |
| Protocol.RacersInsertOnce | crates/tundra-core/src/broadcast.rs:58-85 | the attempts of a draft form a chain of at most 64 in which each insert named the then-latest id, so callers naming the same id insert at most once |
| Protocol.LateReplyTouchesOneRow | crates/tundra-core/src/broadcast.rs:279-285 | a late acknowledgement changes only its own row and never the newer latest one |
| Protocol.RowsAreNeverLost | crates/tundra-core/src/broadcast.rs:266-271 | within one store no step loses a row or changes anything in it but its acknowledgement |
| Confirmation.EveryPostWasNamed | crates/tundra-core/src/broadcast.rs:213-288 | over every interleaving each POST carries a transaction whose id some caller named for that draft, and each recorded attempt followed the one its caller named, with consent to repeat |
| Restoration.CommitHoldsOrReleases | crates/tundra-core/src/recovery.rs:175-237 | one commit keeps a suspended submission suspended, or it was observed or resumed |
| Restoration.HeldUntilReleased | crates/tundra-core/src/recovery.rs:136-150 | until a commit observes or resumes it, no input of a suspended submission is ever available |
| Restoration.RestoredIsHeld | crates/tundra-core/src/recovery.rs:14-161 | restoring any backup puts every submitted draft under that protection |
| Restoration.ResumeSwapsCover | crates/tundra-core/src/recovery.rs:175-237 | a resumption swaps exactly this draft's holds for its reservations in one commit, names the latest attempt and final txid, or changes nothing |
| Restoration.RewriteIsSafeExactly | crates/tundra-core/src/recovery.rs:214-225 | the rows written before validation keep ownership if and only if no other draft holds one of the inputs |
| Restoration.SharedInputBlocks | crates/tundra-core/src/recovery.rs:175-237 | when two suspended submissions share an input and one is resumed, the store stays sound, the other's rows would break ownership, and its every resumption is refused |
| Restoration.ForeignOwnerExists | crates/tundra-core/src/recovery.rs:214-225 | a sound store with a foreign owner exists for every wallet, and there the rewritten rows break ownership |
| Restoration.ForeignOwnerIsRefused | crates/tundra-core/src/recovery.rs:226-233 | the unsafe cases are refused by the validation that follows |
| Restoration.UnsyncedIsRefused | crates/tundra-core/src/signing.rs:392-412 | without a completed sync, creation, signing, finalization, submission and resumption are all refused |
| Restoration.QuietBeforeSync | crates/tundra-core/src/recovery.rs:159-160 | however callers interleave, nothing is reserved, finalized, recorded or sent before a sync |
| Restoration.RestoredIsQuiet | crates/tundra-core/src/recovery.rs:14-161 | after a restore and until a sync there is no reservation, no new final row, attempt or POST, and every draft stays invalidated |
| Resumption.RestoresExactly | crates/tundra-core/src/recovery.rs:14-161 | a store can be restored exactly when every label is proper and every draft's archived approval, final bytes, attempts and signatures still agree |
| Resumption.ResumesExactly | crates/tundra-core/src/recovery.rs:175-237 | a suspended submission is resumed exactly with consent, for its newest attempt and its txid, when the rows so written validate; only its own suspension ends |
| Resumption.SurvivorLoads | crates/tundra-core/src/sync.rs:313-361 | a draft that loaded before a sync loads after it exactly when it is neither seen nor lost |
| Resumption.RestoredResumes | crates/tundra-core/src/recovery.rs:175-237 | a submission that stood before the backup is restored, synced while unseen and its coins mature, and resumed: it owns its coins again and reports the same bytes |
| Labelling.SyncAdds | crates/tundra-core/src/broadcast.rs:151-190 | a whole sync only adds label and provenance rows, each explained by one draft's first observation |
| Labelling.OnlyEditsChangeLabels | crates/tundra-core/src/broadcast.rs:168-188 | over any run an existing label, an explicit empty one included, changes only by the user's own edit of it |
| Labelling.AppliedAtMostOnce | crates/tundra-core/src/broadcast.rs:158-164 | over any run of observe, evict and re-observe a draft's payment label is applied at most once |
| Labelling.ProvenanceIsForever | crates/tundra-core/src/broadcast.rs:178-182 | output provenance once recorded is never changed or lost |
| Labelling.NewLabelsAreExplained | crates/tundra-core/src/broadcast.rs:165-190 | a label the user did not write is new and comes from a draft's first application |
| Labelling.RestoreKeepsMarkers | crates/tundra-core/src/recovery.rs:14-161 | a restore carries labels, markers and provenance over unchanged |
| Store.Core.LoadDraft | crates/tundra-core/src/signing.rs:392-600 | the loading loop equals its specification, in the source's order of refusals |
| Store.Core.Coins | crates/tundra-core/src/engine.rs:735-778 | every unspent coin exactly once with its value, label, address and status, freeze before reservation or hold before maturity; refused exactly when a script has no address; the available ones are exactly those listed so |
| Store.Core.InsertReservations | crates/tundra-core/src/engine.rs:590-596 | rows are inserted one by one and a key conflict refuses the whole draft |
| Store.Core.CreateDraft | crates/tundra-core/src/engine.rs:421-601 | commits exactly the specified draft and reservations, or rolls back to the old state |
| Store.Core.DiscardDraft | crates/tundra-core/src/engine.rs:628-650 | deletes the draft and cascades to its own rows only, or changes nothing |
| Store.Core.AcceptSignedPsbt | crates/tundra-core/src/signing.rs:771-809 | stores the merged aggregate and the new state together, or changes nothing |
| Store.Core.FinalizeDraft | crates/tundra-core/src/signing.rs:729-757 | freezes final bytes and state together, is idempotent on a finalized draft, or changes nothing |
| Store.Core.ValidatedFinalized | crates/tundra-core/src/signing.rs:702-724 | re-assembles and compares the stored bytes as specified |
| Store.Core.BeginBroadcast | crates/tundra-core/src/broadcast.rs:221-247 | the first locked section as specified, without writing |
| Store.Core.RecordAttempt | crates/tundra-core/src/broadcast.rs:261-271 | the compare-and-insert commits one new row, or changes nothing |
| Store.Core.AcknowledgeAttempt | crates/tundra-core/src/broadcast.rs:279-285 | the update loop reaches exactly the rows of this attempt |
| Store.Core.SetFrozen | crates/tundra-core/src/engine.rs:231-252 | freezes or unfreezes an unspent coin as specified |
| Store.Core.ApplyObservedLabels | crates/tundra-core/src/broadcast.rs:151-190 | the insert-or-ignore loop over outputs equals the union in which existing rows win |
| Store.Core.ObserveDraft | crates/tundra-core/src/broadcast.rs:120-149 | an observed draft is labelled, released from suspension and reservation as specified |
| Store.Core.InvalidateDrafts | crates/tundra-core/src/sync.rs:313-361 | the row loop equals the fold of its turns |
| Store.Core.ApplySync | crates/tundra-core/src/sync.rs:237-301 | drafts, labels, chain view and freshness commit together, or everything rolls back |
| Store.Core.Suspend | crates/tundra-core/src/recovery.rs:14-161 | the suspension loop equals its fold, or everything rolls back |
| Store.Core.ReserveInputs | crates/tundra-core/src/recovery.rs:220-225 | the insert-or-ignore loop leaves existing owners in place |
| Store.Core.ResumeRecoveredSubmission | crates/tundra-core/src/recovery.rs:175-237 | writes first, validates after, and on any refusal restores every row |
| Vault.NextIsSafe | apps/ios/Tundra/StorageVault.swift:74-111 | every step of any process, or its death, keeps the storage invariant and undoes no key, mark, content or evidence of a restore |
| Vault.RunIsSafe | apps/ios/Tundra/StorageVault.swift:28-111 | the storage invariant holds over every run of open, migrate, restore and activate by several processes |
| Vault.KeysAreForever | apps/ios/Tundra/StorageVault.swift:136-153 | no run replaces a retained key or takes back its mark |
| Vault.ContentIsForever | crates/tundra-core/src/storage.rs:218-309 | no run loses a database: its whole content stays, plain or encrypted under its own generation's retained key |
| Vault.SelectionStaysAnchored | crates/tundra-core/src/store_selection.rs:51-60 | once the restored-stores directory exists, selection never again permits a fresh initialisation |
| Vault.SelectedIsVerified | crates/tundra-core/src/store_selection.rs:226-252 | a selected restored store has its verified database under an initialised record's key |
| Vault.RetryOpens | apps/ios/Tundra/StorageVault.swift:74-111 | whatever processes crashed wherever, a later open of the default directory succeeds exactly unless a foreign file is in the way |
| Vault.SelectedOpens | apps/ios/Tundra/StorageVault.swift:15-24 | the selected restored store always opens after any crashes |
| Completion.DirectoryOpens | crates/tundra-core/src/storage.rs:62-90 | an undisturbed open of the default directory ends open under the retained key with the whole content kept, or, with a foreign file in the way, having changed nothing |
| Completion.ActiveOpens | crates/tundra-core/src/store_selection.rs:52-100 | an undisturbed active open creates only before any selection; a selected store opens exactly with an initialised record, changing nothing |
| Completion.SelectionIsExact | crates/tundra-core/src/store_selection.rs:52-93 | the default may be created exactly where there is neither a selector nor evidence of a restore; a selected store must exist, a restored one in its directory |
| Completion.ExistingNeverInserts | crates/tundra-core/src/storage.rs:62-90 | over every run a missing key record is added only by an open that may create |
| Completion.RestoreCompletes | crates/tundra-core/src/store_selection.rs:142-262 | an undisturbed restore into a fresh directory ends with its content under its own initialised record, selected and open, and nothing else changed |
| Completion.RestoredOpens | crates/tundra-core/src/store_selection.rs:95-100 | after that, and after the process dies, an active open reaches the restored content |
| StoreSelection.SelectorIsExact | crates/tundra-core/src/store_selection.rs:45-92 | a selector is read exactly as it was written, and nothing else is read as one |
| Planner.FilterCounts | design/web-source/coins.js:15-19 | filtering keeps exactly the coins that pass, with their multiplicity |
| Planner.Estimate | design/web-source/coins.js:28-54 | succeeds exactly when count and total cover amount and least fee; inputs = amount + fee + change, change is absent or at least 1000 sats, a remainder goes to the fee |
| Planner.PrefixDominates | design/web-source/coins.js:72-76 | a largest-first prefix outweighs every selection of the same size |
| Planner.TotalOfSubset | design/web-source/coins.js:16-16 | a selection never totals more than what it is drawn from |
| Planner.SortFilters | design/web-source/coins.js:70-74 | a group in its own order is the whole order restricted to the group, ties by the locale's order of ids |
| Selector.FirstPrefix | design/web-source/coins.js:74-76 | the loop finds the first sufficient largest-first prefix, if any |
| Selector.GroupCoins | design/web-source/coins.js:70-71 | the loop files each coin under its key, keys in order of first appearance |
| Selector.SingleCoin | design/web-source/coins.js:69-69 | the loop finds the first single coin that suffices, if any |
| Selector.SmallestSingle | design/web-source/coins.js:66-69 | when one coin suffices, the choice is the smallest that does |
| Selector.ChoiceIsComplete | design/web-source/coins.js:64-79 | automatic selection succeeds exactly when some selection can pay, total available within supply |
| Selector.ChoiceIsBest | design/web-source/coins.js:64-79 | where no two labels spell one placeholder, the choice mixes labels only if every paying selection does, and uses no more inputs than any as good |
| Selector.MixedExactly | design/web-source/coins.js:69-78 | the choice is mixed if and only if no single coin pays and every group that can pay has an unlabelled coin in its shortest paying prefix |
| Selector.CollisionMixes | design/web-source/coins.js:70-78 | a wallet on which the choice is mixed although two coins of one label can pay, in any locale |
| Selector.Automatic | design/web-source/coins.js:64-79 | the loops compute exactly the choice, and refuse exactly when there is none |
| Selector.Manual | design/web-source/coins.js:58-63 | a user's selection is used as it is or refused |
| Selector.Plan | design/web-source/coins.js:55-79 | succeeds exactly when there is a plan, with its exact quote; an automatic one is complete and as good as any paying selection |
| Payments.RecheckAgrees | design/web-source/coins.js:118-119 | a send-max quote re-checked as an ordinary send of its amount gives the same fee and no change |
| Payments.DemoWallet.ValidateForm | design/web-source/coin-ui.js:139-150 | the form passes exactly when it can be started; without consent nothing is merged, mixed or given extra to the fee |
| PaymentLaws.SizeIsEstimate | design/web-source/coins.js:29-32 | the size is the estimate of 10.5 bytes, 68.25 or 105 an input, and the outputs, rounded up |
| PaymentLaws.CoversInNumbers | design/web-source/coins.js:34-52 | an estimate succeeds exactly for a rate of 1 to 1000, 1 to 100 inputs (2 to merge) and a total within supply that covers at least 1000 sats and the least fee |
| PaymentLaws.QuoteIsFair | design/web-source/coins.js:34-54 | a quote's fee is its rate times its size, and only what is no change is added to it |
| PaymentLaws.AvailableIsExact | design/web-source/coins.js:16-19 | available are exactly the confirmed, unspent, unfrozen coins that no draft reserves |
| PaymentLaws.MixedIsExact | design/web-source/coins.js:20-21 | coins are mixed exactly when they are several and do not all carry one label |
| PaymentLaws.ChoiceIsLeast | design/web-source/coins.js:77-78 | where no single coin pays, the choice is unmixed if any candidate is, then of fewest inputs, then of least total |
| PaymentLaws.RecipientIsExact | design/web-source/coins.js:120-120 | a recipient is the prefix, a letter or digit, and 2 to 96 characters of a fixed alphabet |
| PaymentLaws.BindingBinds | design/web-source/coins.js:108-110 | drafts with one binding spend the same coins to the same places for the same amounts |
| PaymentLaws.FreezingIsExact | design/web-source/coin-ui.js:273-273 | every selected coin that no draft reserves is frozen and nothing is unfrozen |
| PaymentLaws.ImportIsExact | design/web-source/coin-ui.js:236-247 | the last change that names a coin decides its label and freeze |
| Payments.EditKeepsDraft | design/web-source/coins.js:111-125 | label edits, and confirmations or freezes of other coins, leave a valid draft valid |
| Payments.DemoWallet.ValidateDraft | design/web-source/coins.js:111-125 | decides validity exactly |
| Payments.DemoWallet.StartSigning | design/web-source/coin-ui.js:133-162 | creates a draft exactly when none is open, the form passes its checks, a plan exists and what needs consent has it; the draft is that plan, passes validation and accounts for every satoshi |
| Payments.DemoWallet.SetCoinLabel | design/web-source/coin-ui.js:223-227 | relabels the named coins and keeps the draft valid |
| Payments.DemoWallet.ToggleFreeze | design/web-source/coin-ui.js:272-272 | toggles any coin but a reserved one and keeps the draft valid |
| Payments.DemoWallet.FreezeSelected | design/web-source/coin-ui.js:273-273 | freezes the selected coins except reserved ones and keeps the draft valid |
| Payments.DemoWallet.ConfirmPending | design/web-source/coin-ui.js:290-290 | confirms unspent coins and keeps the draft valid |
| Payments.DemoWallet.ApplyLabelImport | design/web-source/coin-ui.js:236-247 | applies a staged import only when every change is still current, whole or not at all, and keeps the draft valid |
| Payments.DemoWallet.Broadcast | design/web-source/coin-ui.js:169-181 | balance = sum of unspent coins, lowered by exactly amount + fee for a send or fee for a consolidation; exactly the inputs are spent and only change or the consolidated coin is added |
| Checksum.StepIsLinear | scripts/check_offline.py:27-33 | one step is linear over GF(2) in state and symbol |
| Checksum.StepIsInjective | scripts/check_offline.py:27-33 | for a fixed symbol the step never confuses two 40-bit states |
| Checksum.Streaming | scripts/check_offline.py:24-48 | the streaming form computes the checksum |
| Checksum.Grouped | design/web-source/descriptor.js:14-21 | the grouped form computes the same string |
| Checksum.Listed | design/web-source/make_examples.py:9-22 | the list-building form computes the same string |
| Checksum.ClosingDiffers | scripts/check_offline.py:35-44 | a difference confined to at most four symbols cannot cancel |
| Checksum.OneChangeIsDetected | scripts/check_offline.py:24-48 | changing any one character of a body of any length always changes the checksum |
| Checksum.ChecksumCompletes | scripts/check_offline.py:45-48 | body symbols followed by the eight checksum symbols always reduce to 1 |
| Checksum.LimbsByShift | scripts/check_offline.py:48-48 | the eight output symbols are the word's five-bit groups, highest first |
| Published.PublishedChecksum | scripts/check_offline.py:19-48 | the first published test vector has its published checksum |
| Usb.SeriesIsRead | crates/tundra-core/src/usb/framing.rs:40-83 | reports of any 2..4096-byte payload, with any padding, return exactly it on report ceil((n+2)/59) and nothing earlier |
| Usb.CommandsAreRead | crates/tundra-core/src/usb/framing.rs:13-31 | the reader inverts command framing on every valid APDU |
| Usb.ResponseReader.Receive | crates/tundra-core/src/usb/framing.rs:41-48 | the object steps exactly as specified and stays in reachable states |
| Usb.InnerChecksAreUnreachable | crates/tundra-core/src/usb/framing.rs:68-76 | the missing-length, overlong and sequence-overflow branches never fire |
| Usb.ClosedForGood | crates/tundra-core/src/usb/framing.rs:41-57 | a closed exchange refuses every later report |
| Usb.DeviationCloses | crates/tundra-core/src/usb/framing.rs:49-63 | any wrong channel, tag, length, sequence or size closes the exchange and drops its data |
| Usb.AtMostOnePayload | crates/tundra-core/src/usb/framing.rs:77-82 | after a payload or a refusal every later answer is a refusal |
| Qr.QrDecoder.ReceiveFrame | crates/tundra-core/src/qr.rs:152-162 | the object steps exactly as specified, a session that expires right after an accepted frame included |
| Qr.QrDecoder.ReceiveBbqr | crates/tundra-core/src/qr.rs:274-342 | part collection and joining equal the specification, every refusal included |
| Qr.FullMeansAll | crates/tundra-core/src/qr.rs:331-331 | as many distinct parts as num_parts means every index is present |
| Qr.OpenUntilComplete | crates/tundra-core/src/qr.rs:312-330 | while an index is missing the session stays open with exactly the parts seen |
| Qr.MessageIsAssembled | crates/tundra-core/src/qr.rs:274-342 | for any order and repetition of consistent frames the session ends exactly when the last missing index arrives, with the parts joined by index, and no later frame changes that |
| Qr.ConflictFails | crates/tundra-core/src/qr.rs:152-162 | a conflicting, mixed or unreadable frame fails the session without payload, for good; a header conflicts in its encoding, file type or count |
| Qr.MixedFileTypesFail | crates/tundra-core/src/qr.rs:282-316 | two frames of different file types, each allowed by itself, end a session failed |
| Qr.FrameKeepsSane | crates/tundra-core/src/qr.rs:143-162 | only a complete session has a payload, and a complete one always has |
| Amount.ParseIsExact | crates/tundra-core/src/amount.rs:5-41 | parsing accepts exactly the texts that denote an amount within supply; a checked 64-bit step fails only for amounts beyond it |
| Amount.UncheckedProductFits | crates/tundra-core/src/amount.rs:27-34 | the one unchecked product, fraction times its power of ten, stays below one coin |
| Amount.ParseInvertsFormat | crates/tundra-core/src/amount.rs:43-52 | every amount up to MAX_SATS survives formatting and parsing |
| Amount.FormatIsCanonical | crates/tundra-core/src/amount.rs:43-52 | formatting what was parsed is one canonical text per amount |
| Amount.FeeRateNeverRoundsDown | crates/tundra-core/src/amount.rs:55-63 | the least rate not below the input, within 1..250000 |
| Amount.FeeRateIsExact | crates/tundra-core/src/amount.rs:55-63 | a rate is accepted exactly from a readable amount above zero and up to 1000 sat/vB, and is that amount in steps of 400,000 rounded up |
| Amount.FeeRateRoundTrips | crates/tundra-core/src/amount.rs:64-66 | every rate in range survives formatting and parsing |
| Amount.FeeRateDisplayIsStable | crates/tundra-core/src/amount.rs:55-66 | the displayed form of an accepted rate parses to the rate in use |
| LabelFiles.ParseLabels | crates/tundra-core/src/labels.rs:37-103 | a file is accepted exactly when each line is readable, within limits and without duplicates; records come in order, the rest is counted as skipped, and only outputs carry a freeze |
| LabelFiles.LabelTables.ImportLabels | crates/tundra-core/src/engine.rs:309-370 | preview and application report the same counts against the original rows; a repeated key writes nothing |
| LabelFiles.LabelTables.ExportLabels | crates/tundra-core/src/engine.rs:371-420 | one record per labelled or frozen reference with both facts merged |
| LabelFiles.LabelTables.EditCoins | crates/tundra-core/src/engine.rs:254-307 | all listed coins are edited, or none |
| LabelFiles.ImportIsIdempotent | crates/tundra-core/src/engine.rs:309-370 | applying the same payload again changes nothing and reports no change |
| LabelFiles.NoChangesKeepAppearance | crates/tundra-core/src/engine.rs:330-360 | a preview of no changes means every shown label and freeze stays |
| LabelFiles.NoChangesKeepRowsExactly | crates/tundra-core/src/engine.rs:330-360 | a preview of no changes leaves the tables as they are if and only if every explicit empty label meets an existing row |
| LabelFiles.EmptyLabelIsARow | crates/tundra-core/src/engine.rs:330-336 | an explicit empty label reports no change and still adds a row |
| LabelFiles.ReimportChangesNothing | crates/tundra-core/src/engine.rs:371-420 | importing a wallet's own export changes nothing |
| LabelFiles.ExportReproduces | crates/tundra-core/src/engine.rs:371-420 | into an empty wallet of the same policy an export reproduces every known label and freeze and no other |
| Origins.NormalizeLabelOrigin | crates/tundra-core/src/descriptor.rs:244-282 | the loop over a text's keys equals its specification |
| Origins.NormalizeIsExact | crates/tundra-core/src/descriptor.rs:225-282 | a text stands for a wallet's origin exactly when it is within limits, has the policy's shape and names the wallet's keys, in any order and any spelling |
| Origins.RepeatedIsRefused | crates/tundra-core/src/descriptor.rs:272-275 | a text that names one key twice is refused, whatever else it names |
| Origins.OwnOriginIsRead | crates/tundra-core/src/descriptor.rs:225-282 | a wallet reads its own origin back exactly when it spells within 1,024 bytes |
| Origins.OwnExportIsRead | crates/tundra-core/src/engine.rs:315-320 | exports match their own wallet exactly under that bound; beyond it every exported line is refused |
| Origins.DeepAccounts | crates/tundra-core/src/descriptor.rs:84-90 | distinct, non-empty origins 255 levels deep are beyond the bound |
| LabelFiles.ExportReadsBack | crates/tundra-core/src/labels.rs:37-103 | within the size limits an exported file parses back record by record |

## Left out

- One wallet per store: the original scopes every table by wallet id, and a restore walks all wallets.
- Elliptic curves, sighash computation and its error branches, hashing, SQLCipher and key derivation are uninterpreted functions; only that a signature's encoding decodes to itself is assumed.
- Base64, serde and the PSBT library's typed parsing after the byte-level pre-scan: a stored or received PSBT is a value. The bytes and field counts of a PSBT without partial signatures are oracles; those of the signatures on top are counted.
- BDK's coin selection, descriptor derivation and chain graph: the builder's proposal and the chain view are arbitrary inputs, and the code's re-checks of them are modelled; an outpoint fixes the output it names and a script fixes its derivation.
- HTTP, TLS, endpoint parsing, clocks and timeouts: a submission may stop after any step, and a reply is either exact or not. Endpoint, weight, vsize and timestamps of a submission row are not part of the model.
- The scan of a server itself (gap limits, inclusion proofs, size and time limits): `Scans` takes any resulting state or a failure and treats a wallet's stored state as one value; what the commit does to the tables is `Syncing`.
- Final transaction bytes are modelled as the transaction they encode.
- 64-bit overflow of input and output sums in load_draft is folded into the MAX_SATS bound that follows it.
- Protocol.EveryPostIsRecorded: speaks of one store; a restored store starts its own history of submissions, since a backup cannot know what was sent after it.
- Vault.RunIsSafe: database creation and the final rename of a migration or restore are atomic steps, temporary files and the shared lock of an open database are not modelled, and nobody deletes files from outside; the Android vault is not part of this model. The steps of several processes interleave, so this part is a state machine rather than methods.
- Selector.MixedExactly: the locale's order of ids is any total order; which one it is does not matter.
- Store.Core.Coins: the rows come in a given order of outpoints; that it is the order of their text is not modelled.
- Payments.DemoWallet.ApplyLabelImport: transaction labels and the history list are not modelled, and neither is the prototype's own label file parser.
- Qr.MessageIsAssembled: the fountain decoder, DEFLATE, base32 and hex decoding and the final acceptance of a payload are oracles; frames arrive within the session's lifetime.
- LabelFiles.LabelTables.ExportLabels: the order of the exported records is a parameter rather than the sorted order of keys.
- LabelFiles.LabelTables.ImportLabels: known references are matched by the wallet but stored as they were spelled, as in the original; canonical spelling is the caller's matter.
- Reading a master fingerprint or a derivation path from text is the library's: only that it reads back what it writes is assumed. Descriptors themselves are modelled by their key origins.
- JSON text itself: a label line is modelled as its decoded fields.
- Receiving addresses, wallet import, descriptor policy checks, backup encryption, the FFI layer and all views: they would add only easy members or library calls.
