/**
 * The data of the multisig program's instructions
 * (examples/multisig/native/src/lib.rs): how it is read, and where its bytes
 * are in the accounts the instructions write.
 */
module MultisigInstructions {
  import opened Common
  import opened Bytes
  import opened Accounts
  import opened ProgramAddresses
  import opened Layout
  import opened Governance
  import opened MultisigMachine
  import opened MultisigLayout

  // ── Reading ──────────────────────────────────────────────────────────────

  /** The terms of a creation instruction, when its bytes hold as many members as they state. */
  function TermsOf(accounts: AccountMap, ika: Key, data: seq<u8>, account: NewAccount, dwallet: Key, owner: Key, ownerSigns: bool)
    : Option<MultisigTerms>
  {
    if |data| < 4 || |data| < 4 + 32 * NumberAt(data, 2, 2) then None
    else Some(MultisigTerms(account, dwallet, DWalletOwner(accounts, dwallet, ika), owner, ownerSigns,
                            NumberAt(data, 0, 2), MemberList(data, 4, NumberAt(data, 2, 2))))
  }

  /** The message of a creation instruction: its length is stated at 69. */
  function ProposalOf(data: seq<u8>, multisig: Key, account: NewAccount, proposer: Key, proposerSigns: bool): Option<Proposal> {
    if |data| < 71 || |data| < 71 + NumberAt(data, 69, 2) || NumberAt(data, 69, 2) > 256 then None
    else Some(Proposal(multisig, account, proposer, proposerSigns, KeyAt(data, 0), KeyAt(data, 32),
                       NumberAt(data, 64, 2), data[66], data[67], data[68], data[71..71 + NumberAt(data, 69, 2)]))
  }

  /** A vote's instruction: the bump of the record is the fifth byte; the index before it is not read. */
  function VoteOf(data: seq<u8>, multisig: Key, transaction: Key, record: NewAccount, member: Key, memberSigns: bool,
                  call: Option<VoucherCall>): Vote
    requires |data| >= 5
  {
    Vote(multisig, transaction, record, member, memberSigns, data[4], call)
  }

  /** Terms written out one after the other are read back, whatever follows them. */
  lemma TermsRead(accounts: AccountMap, ika: Key, account: NewAccount, dwallet: Key, owner: Key, ownerSigns: bool,
                  threshold: nat, members: seq<Key>, rest: seq<u8>)
    requires threshold < 0x1_0000 && |members| < 0x1_0000
    ensures TermsOf(accounts, ika, LittleEndian(threshold, 2) + LittleEndian(|members|, 2) + Flatten(members) + rest,
                    account, dwallet, owner, ownerSigns)
              == Some(MultisigTerms(account, dwallet, DWalletOwner(accounts, dwallet, ika), owner, ownerSigns,
                                    threshold, members))
  {
    Widths();
    LittleEndianRoundTrip(threshold, 2);
    LittleEndianRoundTrip(|members|, 2);
    var data := LittleEndian(threshold, 2) + LittleEndian(|members|, 2) + Flatten(members) + rest;
    assert data[0..2] == LittleEndian(threshold, 2);
    assert data[2..4] == LittleEndian(|members|, 2);
    assert data[4..4 + 32 * |members|] == Flatten(members);
    MembersRead(data, 4, members);
  }

  lemma ProposalReads(multisig: Key, account: NewAccount, proposer: Key, proposerSigns: bool,
                      messageHash: Key, userPubkey: Key, scheme: nat, voucherBump: u8, futureSign: u8, txBump: u8,
                      message: seq<u8>, rest: seq<u8>)
    requires scheme < 0x1_0000 && |message| <= 256
    ensures ProposalOf(
              messageHash.bytes + userPubkey.bytes + LittleEndian(scheme, 2) + [voucherBump, futureSign, txBump]
                + LittleEndian(|message|, 2) + message + rest,
              multisig, account, proposer, proposerSigns)
              == Some(Proposal(multisig, account, proposer, proposerSigns, messageHash, userPubkey,
                               scheme, voucherBump, futureSign, txBump, message))
  {
    Widths();
    LittleEndianRoundTrip(scheme, 2);
    LittleEndianRoundTrip(|message|, 2);
    var data := messageHash.bytes + userPubkey.bytes + LittleEndian(scheme, 2) + [voucherBump, futureSign, txBump]
      + LittleEndian(|message|, 2) + message + rest;
    assert data[0..32] == messageHash.bytes;
    assert data[32..64] == userPubkey.bytes;
    assert data[64..66] == LittleEndian(scheme, 2);
    assert data[66] == voucherBump && data[67] == futureSign && data[68] == txBump;
    assert data[69..71] == LittleEndian(|message|, 2);
    assert data[71..71 + |message|] == message;
  }

  lemma VoteReads(index: nat, recordBump: u8, rest: seq<u8>, multisig: Key, transaction: Key, record: NewAccount,
                  member: Key, memberSigns: bool, call: Option<VoucherCall>)
    ensures VoteOf(LittleEndian(index, 4) + [recordBump] + rest, multisig, transaction, record, member, memberSigns, call)
              == Vote(multisig, transaction, record, member, memberSigns, recordBump, call)
  {
  }

  // ── Where the bytes go ───────────────────────────────────────────────────

  /** A new multisig account: the terms are the instruction's own bytes. */
  ghost predicate MultisigWritten(stored: seq<u8>, data: seq<u8>, dwallet: Key, bump: u8) {
    && |stored| == 363 && |data| >= 4
    && stored[0..2] == [1, 1]
    && stored[2..34] == dwallet.bytes
    && stored[34..38] == data[0..4]            // threshold, member count
    && stored[38..42] == [0, 0, 0, 0] && stored[42] == bump
    && var length := 32 * (data[2] as int + 0x100 * data[3] as int);
    && length <= 320 && |data| >= 4 + length && stored[43..43 + length] == data[4..4 + length]
  }

  /** A new transaction account: what it asks to be signed is the instruction's own bytes. */
  ghost predicate TransactionWritten(stored: seq<u8>, data: seq<u8>, multisig: Key, index: seq<u8>, proposer: Key) {
    && |stored| == 402 && |data| >= 71
    && stored[0..2] == [2, 1]
    && stored[2..34] == multisig.bytes
    && stored[34..38] == index
    && stored[38..70] == proposer.bytes
    && stored[70..136] == data[0..66]          // message hash, user key, scheme
    && stored[136..141] == [0, 0, 0, 0, 0]     // no votes, active
    && stored[141..144] == data[66..69]        // voucher bump, future sign, bump
    && stored[144..146] == data[69..71]        // message length
    && var length := data[69] as int + 0x100 * data[70] as int;
    && length <= 256 && |data| >= 71 + length
    && stored[146..146 + length] == data[71..71 + length]
    && forall i | 146 + length <= i < 402 :: stored[i] == 0
  }

  /** A new vote record. */
  ghost predicate RecordWritten(stored: seq<u8>, data: seq<u8>, member: Key, transaction: Key, approved: u8) {
    && |stored| == 68 && |data| >= 5
    && stored[0..2] == [3, 1]
    && stored[2..34] == member.bytes
    && stored[34..66] == transaction.bytes
    && stored[66..68] == [approved, data[4]]
  }

  /** A vote changes nothing of a transaction account but the two counts and the status. */
  ghost predicate OnlyCountsChange(before: seq<u8>, after: seq<u8>) {
    && |before| == |after| == 402
    && before[..136] == after[..136] && before[141..] == after[141..]
  }

  /** One more approval, and the status approved or as it was: nothing else. */
  ghost predicate ApprovalCounted(before: seq<u8>, after: seq<u8>) {
    && OnlyCountsChange(before, after)
    && FromLittleEndian(after[136..138]) == FromLittleEndian(before[136..138]) + 1
    && after[138..140] == before[138..140]
    && (after[140] == before[140] || after[140] == 1)
  }

  /** One more rejection, and the status rejected or as it was: nothing else. */
  ghost predicate RejectionCounted(before: seq<u8>, after: seq<u8>) {
    && OnlyCountsChange(before, after)
    && after[136..138] == before[136..138]
    && FromLittleEndian(after[138..140]) == FromLittleEndian(before[138..140]) + 1
    && (after[140] == before[140] || after[140] == 2)
  }

  ghost predicate Counted(before: seq<u8>, after: seq<u8>, approved: u8) {
    if approved == 1 then ApprovalCounted(before, after) else RejectionCounted(before, after)
  }

  /** The transaction with one more vote. */
  ghost predicate CountedAs(was: Transaction, now: Transaction, approved: u8) {
    if approved == 1 then
      && now == was.(approvals := was.approvals + 1, status := now.status)
      && (now.status == was.status || now.status == STATUS_APPROVED)
    else
      && now == was.(rejections := was.rejections + 1, status := now.status)
      && (now.status == was.status || now.status == STATUS_REJECTED)
  }

  lemma VoteIsCounted(before: seq<u8>, after: seq<u8>, approved: u8)
    requires |before| == |after| == TRANSACTION_LEN && before[0] == after[0]
    requires CountedAs(DecodeTransaction(before), DecodeTransaction(after), approved)
    ensures Counted(before, after, approved)
  {
    OnlyCountsWritten(before, after);
    if approved == 1 {
      SameNumber(before, after, TX_REJECTION_COUNT, 2);
    } else {
      SameNumber(before, after, TX_APPROVAL_COUNT, 2);
    }
  }

  lemma TermsAreWritten(stored: seq<u8>, accounts: AccountMap, ika: Key, data: seq<u8>, t: MultisigTerms, bump: u8)
    requires |stored| == MULTISIG_LEN && stored[0] == MULTISIG_DISCRIMINATOR
    requires NumberAt(stored, MS_MEMBER_COUNT, 2) == |t.members| <= MAX_MEMBERS
    requires DecodeMultisig(stored) == Multisig(1, t.dwallet, t.threshold, t.members, 0, bump)
    requires TermsOf(accounts, ika, data, t.account, t.dwallet, t.owner, t.ownerSigns) == Some(t)
    ensures MultisigWritten(stored, data, t.dwallet, bump)
  {
    SameNumberAt(stored, MS_THRESHOLD, data, 0, 2);
    SameNumberAt(stored, MS_MEMBER_COUNT, data, 2, 2);
    TwoBytes(data, 2);
    assert stored[34..38] == stored[34..36] + stored[36..38];
    assert data[0..4] == data[0..2] + data[2..4];
    ZeroNumber(stored, MS_TX_INDEX, 4);
    assert Zeros(4) == [0, 0, 0, 0];
    SameMembers(stored, MS_MEMBERS, data, 4, t.members);
  }

  lemma ProposalIsWritten(stored: seq<u8>, data: seq<u8>, q: Proposal, index: nat)
    requires |stored| == TRANSACTION_LEN && stored[0] == TRANSACTION_DISCRIMINATOR && index < 0x1_0000_0000
    requires ProposalOf(data, q.multisig, q.account, q.proposer, q.proposerSigns) == Some(q)
    requires DecodeTransaction(stored) == NewTransaction(q, index)
    ensures TransactionWritten(stored, data, q.multisig, LittleEndian(index, 4), q.proposer)
  {
    Widths();
    FromLittleEndianRoundTrip(stored[34..38]);
    SameNumberAt(stored, TX_SIGNATURE_SCHEME, data, 64, 2);
    SameNumberAt(stored, TX_MESSAGE_DATA_LEN, data, 69, 2);
    TwoBytes(data, 69);
    assert stored[70..136] == stored[70..102] + stored[102..134] + stored[134..136];
    assert data[0..66] == data[0..32] + data[32..64] + data[64..66];
    ZeroNumber(stored, TX_APPROVAL_COUNT, 2);
    ZeroNumber(stored, TX_REJECTION_COUNT, 2);
    assert stored[136..141] == stored[136..138] + stored[138..140] + [stored[140]];
    var area, length := stored[146..402], |q.message|;
    assert area == q.message + Zeros(256 - length);
    assert stored[146..146 + length] == area[..length];
    forall i | 146 + length <= i < 402 ensures stored[i] == 0 {
      assert stored[i] == area[i - 146];
    }
  }

  lemma RecordIsWritten(stored: seq<u8>, data: seq<u8>, member: Key, transaction: Key, approved: u8)
    requires |stored| == APPROVAL_RECORD_LEN && stored[0] == APPROVAL_RECORD_DISCRIMINATOR && |data| >= 5
    requires DecodeRecord(stored) == ApprovalRecord(1, member, transaction, approved, data[4])
    ensures RecordWritten(stored, data, member, transaction, approved)
  {
  }

  lemma OnlyCountsWritten(before: seq<u8>, after: seq<u8>)
    requires |before| == |after| == TRANSACTION_LEN && before[0] == after[0]
    requires
      var was, now := DecodeTransaction(before), DecodeTransaction(after);
      now == was.(approvals := now.approvals, rejections := now.rejections, status := now.status)
    ensures OnlyCountsChange(before, after)
  {
    var counts := after[136..141];
    var restored := Overwrite(before, TX_APPROVAL_COUNT, counts);
    TransactionFieldsBeside(before, TX_APPROVAL_COUNT, counts);
    OverwriteReads(before, TX_APPROVAL_COUNT, counts, 0, 0);
    assert restored[136..138] == restored[136..141][..2] == after[136..138];
    assert restored[138..140] == restored[136..141][2..4] == after[138..140];
    assert restored[140] == restored[136..141][4] == after[140];
    TransactionBytes(restored, after);
    assert restored[..136] == before[..136] && restored[141..] == before[141..];
  }
}
