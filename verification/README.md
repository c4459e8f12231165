# Verified model of the ika SDK and its governance examples

This project models, in Dafny, the parts of the ika repository whose
correctness spans many calls, and proves what they promise.

- **Requests that run at most once.** `RequestRecords` says what a session of
  each kind of request can leave on the chain and how it is looked up;
  `SessionNetwork` is the network as a state machine of sends, deliveries,
  settlements and epoch moves in any order; `CallHistory` says what a
  connection may make of the replies and lookups it got; `Engine` is the
  client: its loops, its recursion and its lookups, with the network free to
  move between any two of its statements. Every answer of a validator and
  every deadline is a free choice, and every reply is kept in a history that
  the results are proved against.
- **The governance programs.** `MultisigMachine` and `VotingMachine` are the
  two programs over decoded accounts, each instruction atomic. The proofs and
  theorems modules hold the invariants and what follows from them over all
  runs; the origins modules trace every account of a run back to a signed
  instruction; the liveness modules say what the members can always bring
  about; the voters modules say whose votes are counted. The layout,
  instructions and ledger modules are the native programs on account bytes:
  instruction data read, buffers filled and written in place, proved to do
  exactly the machine's step or to change nothing, with every byte at its
  offset. `GovernanceSeeds` keeps the addresses apart. `MultisigAnchor` and
  `VotingAnchor` are the same machines over typed accounts, as the Anchor
  framework checks them.
- **Codecs and addresses.** `VariableLength` (ULEB128, section 7.6 of DWARF
  Version 5), `Attestations` (the BCS grammar and exact decoding),
  `AttestationAccounts` and `AttestationReader` (the stored layout and its
  reader), `AttestationLayouts` (both, field by named field), `Seeds` (the
  table of address seeds), `DerivedAddresses` (the client's derivations),
  `Messages` (what is signed and hashed) and `MessageLayouts` (each of these
  read back at its offsets).
- **Checks and helpers.** `ShareChecks` (what acceptance by the dWallet and
  share checks means), `WorkerCalls` (the worker's pending calls) and
  `ParametersCache` (the bounded derivation cache).

Results worth knowing:

- The native programs create a record, transaction or proposal account at the
  derived address or at any empty address that signs the transaction itself:
  they do not compare the two. Counts, decisions and vouchers hold without a
  condition. That the voters are distinct is false in general: a member who has
  voted is counted again at an empty address that signs, up to the voucher.
  `MultisigVoters` and `VotingVoters` show this, and say exactly when voters
  are distinct: a vote keeps them so if and only if no record of the
  transaction or proposal names its member; and after a vote at the derived
  address, an otherwise valid second one succeeds if and only if its record
  account is empty and signs. One proposal for an identifier
  fails and holds in the same way. Whether a record stays at its derived
  address is another matter: each vote keeps that if and only if its own record
  account is the derived one.
- The Anchor programs check these addresses, so their voters are distinct in
  every reachable state. For the voting program this takes one assumption: no
  two identifiers derive one proposal address.
- `record_vote` and `cast_vote` do not check the owner of the account they
  vote on. The runtime's rule that a program changes only its own accounts
  makes such a vote fail as a whole, and the ledgers prove it changes nothing.
- The dWallet attestation reader parses the laid-out bytes and serializes the
  result, without comparing the two as the exact decoding does. With a stored
  curve or holder scheme of 128 or more it can accept a region and rebuild
  other bytes; below 128 it is exact, and the other readers are exact always.
- `shareIsOnChain` does not look at a waiting share's stored acceptance digest,
  because the check compares the digest after the mark; the comment beside it
  says every other field is compared before.
- Two comments disagree on when the chain shows a new epoch
  (sdk/core/src/common/engine.ts:521-524, a little before the validators enter
  it; sdk/core/src/common/ika-client-base.ts:254-258, after the old epoch's
  sessions are settled). The model follows the second, which the lookup needs,
  and lets validators answer anything.
- A worker call whose message cannot be copied is rejected at once and stays
  among the pending ones, so the port stays held until the worker fails. The
  port is held exactly while a call is unsettled in just those states where not
  only such calls are pending.
- A derivation that fails after its entry was evicted and made again drops the
  newer entry; the next call derives once more.

How the parts are modelled:

- Hashes in the request protocol are free constructors. Elsewhere a hash is an
  arbitrary function, and a theorem that needs it names the two values that
  must not collide. Addresses of the programs need no such assumption, since an
  address that is taken cannot be created again; only the Anchor voting program
  takes proposals of two identifiers to have two addresses.
- Signature verification is an arbitrary predicate; where the network's keys
  matter, it verifies only messages the network signed.
- The BCS library's parse is taken to accept what the comments on the exact
  decoding say it accepts: lengths and variants written with padding, and bytes
  left over (sdk/core/src/grpc/attestation-record.ts:248-253, 268-272).

## Model

| member | source | states |
|---|---|---|
| `RequestRecords.SettlingLeavesATrace` | sdk/core/src/common/request-records.ts:7-15 | whatever a session of any kind ends with only adds to the chain, and leaves a trace the kind's lookup can look for |
| `RequestRecords.TracesStay` | sdk/core/src/common/request-records.ts:7-15 | a trace is never lost while records are only added |
| `RequestRecords.NotRunMeansNoTrace` | sdk/core/src/common/request-records.ts:212-314 | the lookup says "not run" exactly when the kind can tell and the chain holds no trace |
| `RequestRecords.FoundChargeIsOwn` | sdk/core/src/common/request-records.ts:42-64 | a charge that is found was made for this very session |
| `RequestRecords.FoundStaysFound` | sdk/core/src/common/request-records.ts:201-211 | "ran" and "signature" stay one of the two as the chain grows |
| `RequestRecords.FoundExactly` | sdk/core/src/common/request-records.ts:250-314 | the lookup answer by answer, on any records: a delivery is always found, and before a charge; a charge is found if and only if the deposit holds one of the request's own; every answer names what the chain holds |
| `SessionNetwork.RunKeepsInv` | sdk/core/src/common/ika-client-base.ts:254-258 | in every interleaving a session runs only in its own epoch, at most once, and is settled before the chain shows its settled epoch |
| `SessionNetwork.NotRunIsDead` | sdk/core/src/common/request-records.ts:201-211 | "not run" at the settled epoch means the session never ran and never will, in any later run of the network |
| `SessionNetwork.ChargedMeansRan` | sdk/core/src/common/request-records.ts:219-234 | a charge found means this session was sequenced |
| `SessionNetwork.LookupExactness` | sdk/core/src/common/request-records.ts:189-199 | for every kind, once the chain shows the settled epoch: not run if and only if the kind can tell, nothing was delivered and the session never ran; a delivery, a signature and a charge of a source each if and only if the chain holds it; never later contradicted |
| `SessionNetwork.ChargeFoundExactly` | sdk/core/src/common/request-records.ts:219-239 | the answer names a charge of a source if and only if the session has one of that source and nothing was delivered; no session is charged twice |
| `SessionNetwork.EarlierIsTooSoon` | sdk/core/src/common/request-records.ts:189-199 | the settled epoch is the earliest: for every session and kind whose records can tell, a run shows the epoch before it while the sequenced session is looked up as not run |
| `SessionNetwork.UnsequencedHasNoCharge` | sdk/core/src/common/request-records.ts:219-234 | a session that was not sequenced has no charge of its own on the chain |
| `Engine.Connection.ReadChainEpoch` | sdk/core/src/common/engine.ts:908-912 | the epoch held only rises, to what the chain answered, and never past what it shows |
| `Engine.Connection.SendUntilAnswered` | sdk/core/src/common/engine.ts:890-902 | all that happens is that copies of the one signed request are sent; all but the last were answered "try again", and the last reply is the result |
| `Engine.Connection.ResendWhileDepositUnread` | sdk/core/src/common/engine.ts:861-884 | copies are sent again only behind replies that the deposit is unread, and the last reply is the result; any other answer is returned with no copy sent |
| `Engine.Connection.SignAndSend` | sdk/core/src/common/engine.ts:730-754 | exactly one new session is signed and only its copies are sent, or none and the call throws; "closed" if and only if the last reply says that the epoch is closing or names a later one, and an answer is the last reply, never a refusal that names a later epoch |
| `Engine.Connection.LookUp` | sdk/core/src/common/request-records.ts:212-314 | the outcome is what the chain showed between the call and its return, though its reads are answered at different moments; "not run" only of a session that can never run |
| `Engine.Connection.OutcomeAfterEpochClose` | sdk/core/src/common/engine.ts:796-818 | the lookup's outcome, kept in the history; unknown without the reads, before the settled epoch, or where the read failed, and otherwise what the chain showed |
| `Engine.Connection.SubmitOnce` | sdk/core/src/common/engine.ts:657-679 | an attempt is repeatable if and only if a validator said that the epoch closed and the chain that the session never ran; otherwise it ends as its last reply, or the lookup, says |
| `Engine.Connection.Submit` | sdk/core/src/common/engine.ts:657-679 | every session but the last was closed and never ran, is dead, and names an earlier epoch; at most one for a DKG or import; the result is the last one's: its last reply, or what the chain showed for it |
| `CallHistory.AtMostOneEverRuns` | sdk/core/src/common/engine.ts:642-656 | so in every later run of the network at most one of them is ever sequenced |
| `Engine.Connection.SubmitRequest` | sdk/core/src/common/engine.ts:657-662 | the same for at most three sessions |
| `Engine.Connection.SubmitWithPresign` | sdk/core/src/common/engine.ts:689-719 | at most one session, for the presign's epoch, and none when the chain is past it; the presign is called expired only there, or where that session is dead; otherwise the result is the last reply or what the chain showed |
| `Engine.Connection.TakeAndStep` | sdk/core/src/common/ika-client-base.ts:771-784 | a step names the epoch of a presign request of the same call whose answer came before its epoch closed |
| `Engine.Connection.WithPresign` | sdk/core/src/common/ika-client-base.ts:759-784 | over all its attempts a sign with its own presigns leaves at most one session that may run; it ends with an expired presign only after three, and the caller's own presign is never replaced |
| `Engine.Connection.ResolveSession` | sdk/core/src/common/ika-client-base.ts:870-893 | a kept request "may be sent again" only when it never ran and never can; each answer is if and only if the chain showed that outcome |
| `ProgramAddresses.FindProgramAddress` | sdk/solana/src/addresses.ts:60-88 | the first bump from 255 downward that gives an address |
| `ProgramAddresses.CanonicalIsHighest` | examples/multisig/native/src/lib.rs:182-201 | a canonical bump gives its address, and no higher one gives any |
| `Accounts.HasDuplicate` | examples/multisig/native/src/lib.rs:363-374 | whether one member is listed twice |
| `Accounts.IsListed` | examples/multisig/native/src/lib.rs:174-180 | whether a member is among the first entries of the member area |
| `Accounts.DWalletOwnerExactly` | examples/multisig/native/src/lib.rs:205-224 | an owner is read exactly from a dWallet program's account that starts with 97, a version and that owner |
| `Governance.RequireCanonicalBump` | examples/multisig/native/src/lib.rs:191-201 | only the canonical bump of the seeds passes |
| `GovernanceSeeds.SeedsAsWritten` | examples/multisig/native/src/lib.rs:509-521 | every seed list of the two programs, byte by byte |
| `GovernanceSeeds.MultisigKeysDiffer` | examples/multisig/native/src/lib.rs:182-190 | no two accounts of the multisig program, of whatever kind, are derived from the same bytes |
| `GovernanceSeeds.VotingKeysDiffer` | examples/voting/native/src/lib.rs:170-178 | nor two of the voting program |
| `MultisigProofs.StepKeepsInv` | examples/multisig/native/src/lib.rs:270-286 | every instruction keeps the invariant: addresses, terms, indices, counts, decisions and vouchers |
| `MultisigProofs.RunKeepsInv` | examples/multisig/native/src/lib.rs:270-286 | so does every run of instructions, refused ones among them |
| `MultisigProofs.VoteKeepsAddressed` | examples/multisig/native/src/lib.rs:611-631 | a vote keeps every record at its derived address if and only if its own record account is the derived one |
| `MultisigProofs.UnsignedRecordIsDerived` | examples/multisig/native/src/lib.rs:245-268 | a new record account that did not sign is the derived one |
| `MultisigTheorems.VoteAccounting` | examples/multisig/native/src/lib.rs:568-642 | the two counts are the numbers of approving and rejecting records, each of a member of the transaction's own multisig |
| `MultisigTheorems.DistinctVoters` | examples/multisig/native/src/lib.rs:182-190 | in runs where no record account signs, every record is by another member and the counts together never exceed the member count; the exact condition is `MultisigVoters.DistinctExactly` |
| `MultisigTheorems.SigningRecordCountsAgain` | examples/multisig/native/src/lib.rs:245-268 | a member who rejected is counted again at a signing record address |
| `MultisigTheorems.Decision` | examples/multisig/native/src/lib.rs:733-826 | active, approved and rejected, each if and only if the counts say so; a rejected transaction can no longer reach the threshold |
| `MultisigTheorems.DecidedIsFinal` | examples/multisig/native/src/lib.rs:597-606 | a decided transaction never changes again in any run |
| `MultisigTheorems.EveryVoteDecides` | examples/multisig/native/src/lib.rs:888-897 | once all members have voted, the transaction is decided |
| `MultisigTheorems.VoucherSoundness` | examples/multisig/native/src/lib.rs:733-826 | every voucher comes from exactly one transaction, of its dWallet's own multisig, with its digest, scheme and key, zero metadata and exactly the threshold of approvals by members; it is a future signature voucher, the proposer's, if and only if the transaction asks for one |
| `MultisigTheorems.OneVoucherEach` | examples/multisig/native/src/lib.rs:820-826 | a transaction is approved if and only if it has a voucher, and then exactly one |
| `MultisigTheorems.VoucherApprovers` | examples/multisig/native/src/lib.rs:733-826 | in runs where no record account signs, the approvers are exactly the threshold of distinct members; the exact condition is `MultisigVoters.ApproversCountExactly` |
| `MultisigTheorems.TransactionIndices` | examples/multisig/native/src/lib.rs:553-559 | the transactions of a multisig occupy exactly the indices below its counter, one each |
| `MultisigOrigins.MultisigOrigin` | examples/multisig/native/src/lib.rs:306-405 | every multisig of every run goes back to a creation its dWallet's owner signed, with those terms |
| `MultisigOrigins.TransactionOrigin` | examples/multisig/native/src/lib.rs:422-562 | every transaction to a proposal a member signed, with that proposal's fields, at the index counted then |
| `MultisigOrigins.RecordOrigin` | examples/multisig/native/src/lib.rs:568-642 | every record to a vote of that kind its member signed, while the transaction was active |
| `MultisigOrigins.VoucherOrigin` | examples/multisig/native/src/lib.rs:733-826 | every voucher to the approval that reached the threshold |
| `MultisigOrigins.VoucherStory` | examples/multisig/native/src/lib.rs:733-826 | all of it at once: a voucher authorises what a member proposed, approved by exactly the threshold of signed approvals of members, under terms the owner signed |
| `MultisigLiveness.TheThresholdIsEnough` | examples/multisig/native/src/lib.rs:644-669 | as many members as the threshold still needs can always issue the voucher, in any order, at their own record addresses |
| `MultisigLiveness.HonestRunIssues` | examples/multisig/native/src/lib.rs:306-830 | from an empty chain: the owner's terms, a member's proposal and the threshold of approvals issue the voucher that was proposed |
| `MultisigVoters.VoteKeepsVotersDistinct` | examples/multisig/native/src/lib.rs:611-640 | a vote keeps its transaction's voters distinct if and only if no record of the transaction names its member |
| `MultisigVoters.DistinctExactly` | examples/multisig/native/src/lib.rs:182-190 | over any run, all voters are distinct if and only if no successful vote was by a member who had a record of that transaction |
| `MultisigVoters.VotersCountExactly` | examples/multisig/native/src/lib.rs:568-642 | the counts are those of distinct members if and only if the voters are distinct; the members are never more than the multisig's |
| `MultisigVoters.ApproversCountExactly` | examples/multisig/native/src/lib.rs:733-826 | a voucher's approvers are exactly the threshold of members if and only if each approval is by another |
| `MultisigVoters.SecondApprovalExactly` | examples/multisig/native/src/lib.rs:245-268 | for a member who voted at the derived address, an otherwise valid approval succeeds if and only if its record account is empty and signs |
| `MultisigVoters.SecondRejectionExactly` | examples/multisig/native/src/lib.rs:245-268 | the same for a rejection |
| `MultisigVoters.SecondApprovalCounts` | examples/multisig/native/src/lib.rs:701-732 | a member who approved is counted again at a signing record address: two more approvals, two records of one member |
| `MultisigVoters.OneMemberIsEnough` | examples/multisig/native/src/lib.rs:733-826 | one member's approvals at signing addresses reach the threshold and issue the voucher, every approval behind it naming that member |
| `MultisigLayout.TransactionFieldsBeside` | examples/multisig/native/src/lib.rs:91-106 | a write among the counts and the status changes no other field |
| `MultisigLayout.ApprovalsWritten` | examples/multisig/native/src/lib.rs:707-722 | the approval count written in place decodes as the transaction with that count |
| `MultisigLayout.RejectionsWritten` | examples/multisig/native/src/lib.rs:880-886 | the same for the rejection count |
| `MultisigLayout.StatusWritten` | examples/multisig/native/src/lib.rs:823-825 | the same for the status |
| `MultisigLayout.TxIndexWritten` | examples/multisig/native/src/lib.rs:553-559 | the index written in place leaves the rest of the multisig, its members too |
| `MultisigLayout.TransactionBytes` | examples/multisig/native/src/lib.rs:91-106 | every byte of a transaction account is one of its fields: decoding is injective |
| `MultisigLayout.FillMultisig` | examples/multisig/native/src/lib.rs:391-402 | the filled buffer decodes as the new multisig |
| `MultisigLayout.FillTransaction` | examples/multisig/native/src/lib.rs:530-552 | the filled buffer decodes as the new transaction |
| `MultisigLayout.FillRecord` | examples/multisig/native/src/lib.rs:633-639 | the filled buffer decodes as the new record |
| `MultisigInstructions.TermsRead` | examples/multisig/native/src/lib.rs:335-361 | terms written one after the other are read back |
| `MultisigInstructions.ProposalReads` | examples/multisig/native/src/lib.rs:460-508 | hash, key, scheme, bumps, kind and message written one after the other are read back as such |
| `MultisigInstructions.VoteReads` | examples/multisig/native/src/lib.rs:678-679 | the record's bump is read behind the four bytes of an index |
| `MultisigInstructions.TermsAreWritten` | examples/multisig/native/src/lib.rs:392-402 | the instruction's own bytes are the account's, offset by offset |
| `MultisigInstructions.ProposalIsWritten` | examples/multisig/native/src/lib.rs:530-552 | the same for a transaction: its hash, key, scheme and message are the instruction's slices |
| `MultisigInstructions.RecordIsWritten` | examples/multisig/native/src/lib.rs:633-639 | the same for a record |
| `MultisigInstructions.VoteIsCounted` | examples/multisig/native/src/lib.rs:706-722 | a vote raises its own count by one, may set the status, and changes no other byte |
| `MultisigLedger.VerifyMember` | examples/multisig/native/src/lib.rs:226-243 | passes exactly the members of a multisig at its own address |
| `MultisigLedger.RecordVote` | examples/multisig/native/src/lib.rs:568-642 | on the accounts' bytes, does what the machine's step does; an account of another program with fitting bytes passes here |
| `MultisigLedger.ForeignVote` | examples/multisig/native/src/lib.rs:595-609 | a vote on an account of another program is no step of the machine, though the checks here let its bytes pass |
| `MultisigLedger.ApproveOn` | examples/multisig/native/src/lib.rs:674-830 | on bytes, succeeds if and only if the machine's approval does, and decodes to its state |
| `MultisigLedger.RejectOn` | examples/multisig/native/src/lib.rs:849-900 | the same for a rejection |
| `MultisigLedger.CreateTransactionOn` | examples/multisig/native/src/lib.rs:422-562 | the same for a proposal, its message parsed from the instruction |
| `MultisigLedger.CreateMultisigOn` | examples/multisig/native/src/lib.rs:306-405 | the same for a new multisig |
| `MultisigLedger.Ledger.CreateMultisig` | examples/multisig/native/src/lib.rs:306-405 | the chain's accounts after it decode to the machine's state, the new one holding the instruction's own bytes and no other changed; refused, nothing changed |
| `MultisigLedger.Ledger.CreateTransaction` | examples/multisig/native/src/lib.rs:422-562 | the same; of the multisig only the index changes |
| `MultisigLedger.Ledger.Approve` | examples/multisig/native/src/lib.rs:674-830 | the same, the record's bump taken from the instruction's fifth byte; of the transaction only the approvals and the status change |
| `MultisigLedger.Ledger.Reject` | examples/multisig/native/src/lib.rs:849-900 | the same, for the rejections |
| `MultisigAnchor.SoundIsVerified` | examples/multisig/anchor/src/lib.rs:357-360 | the framework's owner and type check of a multisig is as good as the address check |
| `MultisigAnchor.AnchorProgram.CreateMultisig` | examples/multisig/anchor/src/lib.rs:53-97 | succeeds if and only if the machine's step with an address that does not sign does, and assigns its state |
| `MultisigAnchor.AnchorProgram.CreateTransaction` | examples/multisig/anchor/src/lib.rs:100-162 | the same for a proposal |
| `MultisigAnchor.AnchorProgram.Approve` | examples/multisig/anchor/src/lib.rs:169-252 | the same for an approval, whose voucher accounts are checked below the threshold too |
| `MultisigAnchor.AnchorProgram.Reject` | examples/multisig/anchor/src/lib.rs:255-294 | the same for a rejection |
| `MultisigAnchor.AnchorVotersDiffer` | examples/multisig/anchor/src/lib.rs:367-374 | distinct voters, with no condition |
| `VotingProofs.StepKeepsInv` | examples/voting/native/src/lib.rs:275-290 | every instruction keeps councils, copied quorums, tallies and vouchers sound |
| `VotingProofs.RunKeepsInv` | examples/voting/native/src/lib.rs:275-290 | so does every run |
| `VotingTheorems.VoucherSoundness` | examples/voting/native/src/lib.rs:645-727 | every voucher comes from exactly one proposal, with its dWallet, digest, scheme and key, zero metadata and no owner, and exactly the quorum of yes votes by members of that dWallet's council |
| `VotingTheorems.OneVoucherEach` | examples/voting/native/src/lib.rs:645-727 | a proposal is approved if and only if it has a voucher, and then exactly one |
| `VotingTheorems.OneApprovalPerIdentifier` | examples/voting/native/src/lib.rs:663-681 | two proposal accounts of one identifier are never both approved |
| `VotingTheorems.Decision` | examples/voting/native/src/lib.rs:633-662 | open if and only if fewer yes votes than the quorum, approved if and only if as many; the counts are those of the records |
| `VotingTheorems.OnlyAYesIssues` | examples/voting/native/src/lib.rs:633-662 | in no reachable state does a vote other than yes approve a proposal or issue a voucher |
| `VotingTheorems.ApprovedIsFinal` | examples/voting/native/src/lib.rs:579-598 | an approved proposal never changes again in any run |
| `VotingTheorems.VoteKeepsAddressed` | examples/voting/native/src/lib.rs:601-620 | a vote keeps every record at its derived address if and only if its own is the derived one |
| `VotingTheorems.DistinctVoters` | examples/voting/native/src/lib.rs:170-178 | in runs where no record account signs, the votes are by distinct members of the proposal's council; the exact condition is `VotingVoters.DistinctExactly` |
| `VotingTheorems.VoucherApprovers` | examples/voting/native/src/lib.rs:645-727 | and the approvers behind a voucher are exactly the quorum of distinct members; the exact condition is `VotingVoters.ApproversCountExactly` |
| `VotingTheorems.RecordsOfTheIdentifier` | examples/voting/native/src/lib.rs:466-480 | in runs where no proposal account signs, an identifier has one proposal and its counts are those of all records naming it; the exact conditions are `VotingVoters.OneProposalExactly` and `VotingVoters.CountsOfTheIdentifierExactly` |
| `VotingOrigins.CouncilOrigin` | examples/voting/native/src/lib.rs:310-398 | every council of every run goes back to a creation its dWallet's owner signed, with those terms |
| `VotingOrigins.ProposalOrigin` | examples/voting/native/src/lib.rs:418-510 | every proposal to one a member of its dWallet's council signed, with its fields and the council's quorum |
| `VotingOrigins.RecordOrigin` | examples/voting/native/src/lib.rs:540-632 | every record to a vote its voter signed, while the proposal it was counted on was open |
| `VotingOrigins.VoucherOrigin` | examples/voting/native/src/lib.rs:655-727 | every voucher to the yes that reached the quorum |
| `VotingOrigins.VoucherStory` | examples/voting/native/src/lib.rs:655-727 | all of it at once: a voucher authorises what a member proposed, with exactly the quorum of signed yes votes of members, under terms the owner signed |
| `VotingLiveness.TheQuorumIsEnough` | examples/voting/native/src/lib.rs:512-539 | as many members as the quorum still needs can always issue the voucher, in any order, at their own record addresses |
| `VotingLiveness.HonestRunIssues` | examples/voting/native/src/lib.rs:310-730 | from an empty chain: the owner's terms, a member's proposal and the quorum of yes votes issue the voucher that was proposed |
| `VotingVoters.VoteKeepsVotersDistinct` | examples/voting/native/src/lib.rs:601-632 | a vote keeps its proposal's voters distinct if and only if no record counted there names its voter |
| `VotingVoters.DistinctExactly` | examples/voting/native/src/lib.rs:170-178 | over any run, all voters are distinct if and only if no successful vote was by a voter who had a record of that proposal |
| `VotingVoters.NoRepeatsExactly` | examples/voting/native/src/lib.rs:633-645 | the counts are the distinct voters and the repeats; there are none of these if and only if the voters are distinct |
| `VotingVoters.ApproversCountExactly` | examples/voting/native/src/lib.rs:655-727 | a voucher's approvers are exactly the quorum of members if and only if each yes is by another |
| `VotingVoters.VotesBeyondMembersAreRepeats` | examples/voting/native/src/lib.rs:633-662 | the counts exceed the member count by no more than the repeats, and so does the no of an approved proposal exceed what its quorum spares |
| `VotingVoters.TooManyNoIsFinal` | examples/voting/native/src/lib.rs:633-662 | once more members voted no than the quorum can spare, the proposal stays open in every later run, unless a voter's vote was counted twice |
| `VotingVoters.SecondVoteExactly` | examples/voting/native/src/lib.rs:250-273 | for a voter whose derived record address is taken, an otherwise valid vote succeeds if and only if its record account is empty and signs |
| `VotingVoters.SecondVoteCounts` | examples/voting/native/src/lib.rs:633-645 | a voter is counted again at a signing record address: two more votes, two records of one voter |
| `VotingVoters.OneVoterIsEnough` | examples/voting/native/src/lib.rs:655-727 | one voter's yes at signing addresses reaches the quorum and issues the voucher, however many voted no |
| `VotingVoters.CreationKeepsOne` | examples/voting/native/src/lib.rs:474-487 | a creation keeps one proposal for an identifier if and only if its own had none |
| `VotingVoters.OneProposalExactly` | examples/voting/native/src/lib.rs:474-487 | over any run, each identifier has one proposal if and only if none was created for one that had one |
| `VotingVoters.SecondProposalSucceeds` | examples/voting/native/src/lib.rs:250-273 | a creation can be repeated with its identifier at an empty address that signs |
| `VotingVoters.CountsOfTheIdentifierExactly` | examples/voting/native/src/lib.rs:633-645 | a proposal's counts are those of all records of its identifier if and only if no other proposal of the identifier has a vote |
| `VotingLayout.ProposalFieldsBeside` | examples/voting/native/src/lib.rs:91-102 | a write to a count or the status changes no other field |
| `VotingLayout.YesWritten` | examples/voting/native/src/lib.rs:633-645 | the yes count written in place decodes as the proposal with that count |
| `VotingLayout.NoWritten` | examples/voting/native/src/lib.rs:633-645 | the same for the no count |
| `VotingLayout.FillProposal` | examples/voting/native/src/lib.rs:489-507 | the filled buffer decodes as the new proposal |
| `VotingLayout.FillCouncil` | examples/voting/native/src/lib.rs:387-395 | the filled buffer decodes as the new council |
| `VotingInstructions.TermsRead` | examples/voting/native/src/lib.rs:450-472 | identifier, digest, key, scheme and bumps written one after the other are read back as such |
| `VotingInstructions.CouncilTermsRead` | examples/voting/native/src/lib.rs:333-352 | terms written one after the other are read back |
| `VotingInstructions.BallotReads` | examples/voting/native/src/lib.rs:549-554 | identifier, vote and bump are read back |
| `VotingInstructions.ProposalIsWritten` | examples/voting/native/src/lib.rs:489-507 | what the proposal asks to be signed is the instruction's own slices, its quorum the council's own bytes |
| `VotingInstructions.CouncilIsWritten` | examples/voting/native/src/lib.rs:387-395 | the same for a council |
| `VotingInstructions.RecordIsWritten` | examples/voting/native/src/lib.rs:622-631 | the same for a record |
| `VotingInstructions.CountsWritten` | examples/voting/native/src/lib.rs:633-645 | a vote raises its own count by one and changes no other byte |
| `VotingLedger.VerifyCouncilMember` | examples/voting/native/src/lib.rs:216-248 | passes exactly the members of the dWallet's own council, and gives its quorum |
| `VotingLedger.CastVoteOn` | examples/voting/native/src/lib.rs:540-730 | on bytes, succeeds if and only if the machine's vote does, and decodes to its state |
| `VotingLedger.CreateProposalOn` | examples/voting/native/src/lib.rs:418-510 | the same for a proposal |
| `VotingLedger.CreateCouncilOn` | examples/voting/native/src/lib.rs:310-398 | the same for a council |
| `VotingLedger.Ledger.CastVote` | examples/voting/native/src/lib.rs:540-730 | the chain's accounts after it decode to the machine's state; of the proposal only its count and status change, and no other account; refused, nothing changed |
| `VotingLedger.Ledger.CreateProposal` | examples/voting/native/src/lib.rs:418-510 | the same; the new account holds the instruction's own bytes and the council's quorum |
| `VotingLedger.Ledger.CreateCouncil` | examples/voting/native/src/lib.rs:310-398 | the same; the new account holds the instruction's own bytes |
| `VotingAnchor.SoundIsVerified` | examples/voting/anchor/src/lib.rs:261-265 | the framework's checks of a council are the native program's |
| `VotingAnchor.AnchorProgram.CreateCouncil` | examples/voting/anchor/src/lib.rs:62-104 | succeeds if and only if the machine's step with an address that does not sign does, and assigns its state |
| `VotingAnchor.AnchorProgram.CreateProposal` | examples/voting/anchor/src/lib.rs:106-139 | the same for a proposal |
| `VotingAnchor.AnchorProgram.CastVote` | examples/voting/anchor/src/lib.rs:144-214 | the same for a vote, whose voucher accounts are checked below the quorum too |
| `VotingAnchor.AnchorVotersDiffer` | examples/voting/anchor/src/lib.rs:281-304 | in every reachable state, given that no two identifiers derive one proposal address: one proposal an identifier, counted by the records that name it, by distinct members of its council |
| `VariableLength.UlebReads` | sdk/solana/src/instructions.ts:684-693 | an encoded number is read back, whatever follows it |
| `VariableLength.UlebShape` | sdk/solana/src/instructions.ts:684-693 | seven bits a byte, the lowest first, the high bit set on all but the last |
| `VariableLength.SelfDelimiting` | sdk/solana/src/instructions.ts:684-693 | two different numbers never start the same bytes |
| `VariableLength.Minimal` | sdk/solana/src/instructions.ts:684-693 | every reading of a number takes at least the bytes it is written in |
| `VariableLength.WriteUleb` | sdk/solana/src/instructions.ts:684-693 | the division loop writes the encoding of every number |
| `VariableLength.WriteLength` | sdk/solana/src/accounts.ts:793-802 | the shift loop writes the encoding if and only if the length is below 2^31 |
| `Attestations.DecodesExactly` | sdk/core/src/grpc/attestation-record.ts:248-282 | bytes decode exactly as some fields if and only if they are what BCS writes for them |
| `Attestations.AttestationsDiffer` | sdk/core/src/grpc/attestation-record.ts:248-282 | no attestation's bytes are another's of its kind, nor the start of another's |
| `Attestations.ParsedAttestation` | sdk/core/src/grpc/attestation-record.ts:248-253 | a lenient parse gives fields BCS writes in no more bytes |
| `AttestationAccounts.FieldsTaken` | sdk/solana/src/accounts.ts:810-876 | a region is read if and only if it is the stored layout of storable values: no byte missing or left over |
| `AttestationAccounts.StoredReadsAsItself` | sdk/solana/src/accounts.ts:905-940 | writing any attestation in the stored layout and reading it back gives exactly its BCS bytes |
| `AttestationAccounts.PlainRegionsAreExact` | sdk/solana/src/accounts.ts:905-940 | where every stored variant is below 128, a region is accepted if and only if it is exactly an attestation's layout |
| `AttestationAccounts.RebuiltUnchanged` | sdk/solana/src/accounts.ts:905-940 | an accepted region is rebuilt into its own layout if and only if every stored variant is below 128 |
| `AttestationTheorems.ReadersAreExact` | sdk/solana/src/accounts.ts:995-1035 | the encrypted-share, public-share and partial-signature readers are exact on every region |
| `AttestationTheorems.ReadersAreInjective` | sdk/solana/src/accounts.ts:948-1035 | two accepted regions never give the same bytes, for those kinds, or where variants are below 128 |
| `AttestationTheorems.PaddedCurveReadsAsAnother` | sdk/solana/src/accounts.ts:948-986 | for a dWallet the condition is needed: a padded curve is accepted and rebuilt into another region's bytes |
| `AttestationTheorems.ShareOverlap` | sdk/core/src/grpc/attestation-record.ts:217-222 | without the length check, exactly the encrypted shares whose hash starts with 0x60 also decode as a public share |
| `AttestationTheorems.SharesAreApart` | sdk/core/src/grpc/attestation-record.ts:224-241 | with it, no bytes are both |
| `AttestationTheorems.PublicShareLengths` | sdk/core/src/grpc/attestation-record.ts:202-215 | the four lengths are those of one scalar in its encoding on each curve |
| `AttestationTheorems.PublicShareDecodesExactly` | sdk/core/src/grpc/attestation-record.ts:224-241 | a public share passes if and only if its bytes are an attestation's and the share has the curve's length |
| `AttestationReader.RecordReader.TakeVector` | sdk/solana/src/accounts.ts:833-845 | one field read: the value's BCS, and the rest of the data |
| `AttestationReader.RecordReader.TakeField` | sdk/solana/src/accounts.ts:818-854 | the same for every type of field |
| `AttestationReader.LayOut` | sdk/solana/src/accounts.ts:905-924 | the fields read one by one are the layout of the values the region stores |
| `AttestationReader.ReadAttestationAccount` | sdk/solana/src/accounts.ts:905-940 | the reader gives what the declarative reading of the account gives, each refusal apart |
| `AttestationReader.AccountReadsExactly` | sdk/solana/src/accounts.ts:905-940 | an account is read if and only if it is 104, a version, its bump, a proof of version 1 and a region that reads, and as those |
| `AttestationReader.StoredAccountReads` | sdk/solana/src/accounts.ts:905-940 | a stored account reads as its attestation, its proof and its bump |
| `AttestationLayouts.DWalletBytes` | sdk/core/src/grpc/bcs.ts:316-337 | a dWallet attestation byte by byte, field by named field |
| `AttestationLayouts.StoredDWalletBytes` | sdk/solana/src/accounts.ts:948-977 | and as an account stores it |
| `AttestationLayouts.DWalletCanBe` | sdk/core/src/grpc/bcs.ts:70-104 | which dWallet attestations BCS can write |
| `AttestationLayouts.PresignBytes` | sdk/core/src/grpc/bcs.ts:381-394 | the same for a presign |
| `AttestationLayouts.PartialUserSignatureBytes` | sdk/core/src/grpc/bcs.ts:404-424 | the same for a partial user signature |
| `AttestationLayouts.StoredPartialUserSignatureBytes` | sdk/solana/src/accounts.ts:1049-1075 | and as a voucher stores it |
| `AttestationLayouts.EncryptedShareBytes` | sdk/core/src/grpc/bcs.ts:346-362 | the same for an encrypted share |
| `AttestationLayouts.StoredEncryptedShareBytes` | sdk/solana/src/accounts.ts:991-1010 | and as an account stores it |
| `AttestationLayouts.PublicShareBytes` | sdk/core/src/grpc/bcs.ts:368-379 | the same for a public share |
| `AttestationLayouts.StoredPublicShareBytes` | sdk/solana/src/accounts.ts:1021-1035 | and as an account stores it |
| `Seeds.DeriveSeeds` | sdk/solana/src/addresses.ts:146-213 | the loop over the table succeeds if and only if every component of the account is given a value that fits, and gives the seeds of the schema |
| `Seeds.ListExactly` | sdk/solana/src/addresses.ts:146-213 | otherwise the first value that does not fit is reported, as missing, of a wrong length, negative, too large or not a number's |
| `DerivedAddresses.DWalletAddresses` | sdk/solana/src/addresses.ts:248-278 | a dWallet's record, attestation and public share are derived if and only if the curve fits two bytes, the key has 32 to 65 and an imported one's session 32; what is hashed, byte by byte |
| `DerivedAddresses.HolderAddresses` | sdk/solana/src/addresses.ts:287-329 | the same for a holder's share and its attestation, which end in the holder's key |
| `DerivedAddresses.KeyAddresses` | sdk/solana/src/addresses.ts:359-369 | the same for the accounts of one 32-byte key |
| `DerivedAddresses.NumberedAddresses` | sdk/solana/src/addresses.ts:378-411 | the same for a registry entry, with its curve, and a reshare, with its epoch |
| `DerivedAddresses.CoordinatorAddress` | sdk/solana/src/addresses.ts:354-356 | the one coordinator |
| `Seeds.WriteLittleEndian` | sdk/solana/src/addresses.ts:93-110 | a number is written little-endian, and refused when negative or too wide |
| `Seeds.ChunksKeepBytes` | sdk/solana/src/addresses.ts:206-209 | chunking loses no byte, and no chunk is empty or too long |
| `Seeds.SeedsFit` | sdk/solana/src/wire-tables-data.ts:99-417 | every seed is at most 32 bytes, and no account has more than seven |
| `Seeds.SeedsAreInjective` | sdk/solana/src/wire-tables-data.ts:99-417 | different accounts or values never give the same undelimited seeds |
| `Seeds.PreimageReads` | sdk/solana/src/addresses.ts:60-86 | what an address hashes, at its offsets: the seeds, the bump, the program, the marker |
| `Seeds.PreimagesAreInjective` | sdk/solana/src/addresses.ts:55-88 | an address hashes different bytes for different accounts, values, bumps or programs |
| `Seeds.RootIsInjective` | sdk/solana/src/addresses.ts:231-236 | the curve and the key are read back from the root |
| `Messages.MessagesDiffer` | sdk/solana/src/instructions.ts:109-128 | no two messages, of one family or of two, have the same bytes |
| `Messages.SessionPreimagesDiffer` | sdk/core/src/grpc/session-identifier.ts:34-53 | epoch, scheme, key and preimage are read back from a session identifier's preimage |
| `Messages.AttestationMessagesDiffer` | sdk/core/src/grpc/attestation-record.ts:130-148 | kind and bytes are read back from an attestation's message |
| `Messages.ChargePreimagesDiffer` | sdk/core/src/common/request-records.ts:42-49 | source and item are read back from a charge identifier's preimage |
| `Messages.SignatureCommitsDiffer` | sdk/core/src/common/request-records.ts:57-64 | the session is read back from a signature commit's preimage |
| `Messages.RegistrationMessage` | sdk/solana/src/instructions.ts:723-742 | the built message is the family's bytes; wide numbers are cut |
| `Messages.DepositProofMessage` | sdk/solana/src/instructions.ts:109-128 | the filled buffer is the family's bytes |
| `Messages.GasReleaseMessage` | sdk/solana/src/instructions.ts:314-336 | the same, 139 of them; numbers of 2^64 and more are cut to eight bytes |
| `MessageLayouts.RegistrationReads` | sdk/solana/src/instructions.ts:723-742 | a registration read back at its offsets: version, domain, chain, network, curve and key |
| `MessageLayouts.DepositProofReads` | sdk/solana/src/instructions.ts:109-128 | the same for a proof of possession |
| `MessageLayouts.GasReleaseReads` | sdk/solana/src/instructions.ts:314-336 | the same for a release: who, and how much of each |
| `MessageLayouts.AttestationReads` | sdk/core/src/grpc/attestation-record.ts:115-148 | the same for an attestation, each kind under its own tag |
| `MessageLayouts.SessionReads` | sdk/core/src/grpc/session-identifier.ts:34-53 | the same for a session identifier, the epoch with its highest byte first |
| `MessageLayouts.ChargeReads` | sdk/core/src/common/request-records.ts:42-49 | the same for a charge, each source by its own name |
| `MessageLayouts.CommitReads` | sdk/core/src/common/request-records.ts:57-64 | the same for a signature commit |
| `ShareChecks.PassedIsSigned` | sdk/core/src/grpc/attestation-record.ts:310-357 | a record that passes holds bytes the network signed as that very kind |
| `ShareChecks.VerifiedIsItsBytes` | sdk/core/src/grpc/attestation-record.ts:668-694 | a verified dWallet is what its bytes say, for the curve, key and session asked for |
| `ShareChecks.DWalletPassesExactly` | sdk/core/src/grpc/attestation-record.ts:668-694 | the dWallet check is sound and complete: it passes exactly the signed attestations of what was asked for |
| `ShareChecks.DWalletFieldsAreNamed` | sdk/core/src/grpc/bcs.ts:316-337 | the fields it compares are the attestation's fields of those names |
| `ShareChecks.ShareFieldsAreNamed` | sdk/core/src/grpc/bcs.ts:346-362 | the same for a share |
| `ShareChecks.OneDWalletPerRecord` | sdk/core/src/grpc/attestation-record.ts:800-863 | one encrypted-share record passes for at most one dWallet and one holder |
| `ShareChecks.OneDigestPerRecord` | sdk/core/src/grpc/attestation-record.ts:800-863 | a share that passes names the dWallet's digest, sender and key, and the holder asked for |
| `ShareChecks.PassesExactly` | sdk/solana/src/record-checks.ts:147-218 | the Solana check passes exactly the shares that are committed and accepted: sound and complete |
| `ShareChecks.HonestSharesPass` | sdk/solana/src/record-checks.ts:147-218 | every honestly committed and accepted share passes, first or re-encrypted |
| `ShareChecks.OnChainExactly` | sdk/core/src/common/ika-client-base.ts:987-1004 | a share is "on the chain" if and only if it is committed and, when marked accepted, its stored digest is right |
| `ShareChecks.OnChainOrThrown` | sdk/core/src/common/ika-client-base.ts:987-1004 | no account is no share yet; what is thrown is the check's own refusal, if and only if it is not one of the acceptance |
| `ShareChecks.WaitingDigestIsUnchecked` | sdk/core/src/common/ika-client-base.ts:950-955 | on a waiting share the digest is not looked at: accepted later, it is refused exactly when the digest is wrong |
| `WorkerCalls.Calls.Send` | sdk/core/src/client/wasm-loader.ts:106-113 | a call gets an identifier never used before |
| `WorkerCalls.Calls.Answer` | sdk/core/src/client/wasm-loader.ts:115-125 | an answer settles its own waiting call and no other; an unknown, repeated or late one settles none |
| `WorkerCalls.Calls.Fail` | sdk/core/src/client/wasm-loader.ts:128-136 | a failure settles every waiting call |
| `WorkerCalls.WaitingIsUnsettled` | sdk/core/src/client/wasm-loader.ts:106-136 | a call that no longer waits is settled; one that waits is not, unless its message was never sent |
| `WorkerCalls.SettledOnce` | sdk/core/src/client/wasm-loader.ts:84-142 | over any order of events a call is settled at most once |
| `WorkerCalls.OnlyItsOwnAnswer` | sdk/core/src/client/wasm-loader.ts:115-125 | and by an answer only if it is the first with its own identifier after the call |
| `WorkerCalls.IdentifiersDiffer` | sdk/core/src/client/wasm-loader.ts:106-107 | no two calls get one identifier |
| `WorkerCalls.HeldWhileUnsettled` | sdk/core/src/client/wasm-loader.ts:106-136 | while the port takes every message, it is held alive exactly while a call is unsettled; the exact condition is `WorkerCalls.HeldExactly` |
| `WorkerCalls.HeldExactly` | sdk/core/src/client/wasm-loader.ts:106-136 | in every state, the port is held exactly while a call is unsettled if and only if some waiting call is unsettled whenever one waits |
| `WorkerCalls.SettledStillWaiting` | sdk/core/src/client/wasm-loader.ts:106-125 | a settled call that waits is one whose message was never sent, and such a call stops waiting only by an answer or a failure |
| `WorkerCalls.HeldByAnUnsentCall` | sdk/core/src/client/wasm-loader.ts:108-112 | a message the port cannot take breaks that: the call is settled and the port stays held |
| `ParametersCache.Cache.Get` | sdk/core/src/common/engine.ts:1961-2001 | a hit gives the kept derivation of those digests; the entry just used is last and never evicted; the one used longest ago is |
| `ParametersCache.Cache.Fails` | sdk/core/src/common/engine.ts:1991-1994 | a failed derivation is not kept, whenever it fails; an entry its key holds by then is dropped with it |
| `ParametersCache.SameKeySameOutputs` | sdk/core/src/common/engine.ts:1966-1976 | two connections share an entry if and only if they are of one mode, curve, network output and reconfiguration, none and an empty one being the same |
| `ParametersCache.SameKeySameMode` | sdk/core/src/common/engine.ts:1966-1976 | mode and curve are told apart whatever the digest does |

## Left out

- The Pinocchio programs: they write the same fields in the same order on another runtime.
- Rent, lamports, the payer's and writable flags, error codes and the parsing of account lists.
- The executable flag of the dWallet program, and the epoch and authority accounts of the voucher call.
- The dWallet program itself: it either creates the voucher at the empty address it is given, or fails the instruction.
- Account closing by the runtime at zero lamports: an account of a governance program never gives up its lamports here.
- Requests of the presign pool, retries of a whole connection, and the checks on an answer's content.
- gRPC, RPC reads and wall-clock deadlines: they are free choices; a read returns some state of the chain.
- The cross-check of reads over several endpoints.
- Cryptography: keccak, SHA-256, Ed25519, class groups and the WASM functions.
- The internals of the BCS library beyond the grammar of the five attestation types; its 32-bit arithmetic on lengths of 2^31 and more.
- The public-share and partial-signature record checks: their dWallet digest is compared as an encrypted share's is.
- A seed component that is left out when zero: no account in the table has one.
- The Sui reader and its share check, whose order of comparisons is another.
- The checks a sign makes before it takes a presign: the step that consumes it is one request here.
- The React page, the demos, the test harness and logging.
