/**
 * The byte layout of the multisig program's accounts, how its buffers are
 * filled when they are created, and what a write in place changes
 * (examples/multisig/native/src/lib.rs).
 */
module MultisigLayout {
  import opened Common
  import opened Bytes
  import opened Layout
  import opened Governance
  import opened MultisigMachine

  const MULTISIG_DISCRIMINATOR: u8 := 1
  const TRANSACTION_DISCRIMINATOR: u8 := 2
  const APPROVAL_RECORD_DISCRIMINATOR: u8 := 3

  const MULTISIG_LEN: nat := 363
  const TRANSACTION_LEN: nat := 402
  const APPROVAL_RECORD_LEN: nat := 68

  const MS_DWALLET: nat := 2
  const MS_THRESHOLD: nat := 34
  const MS_MEMBER_COUNT: nat := 36
  const MS_TX_INDEX: nat := 38
  const MS_BUMP: nat := 42
  const MS_MEMBERS: nat := 43

  const TX_MULTISIG: nat := 2
  const TX_INDEX: nat := 34
  const TX_PROPOSER: nat := 38
  const TX_MESSAGE_HASH: nat := 70
  const TX_USER_PUBKEY: nat := 102
  const TX_SIGNATURE_SCHEME: nat := 134
  const TX_APPROVAL_COUNT: nat := 136
  const TX_REJECTION_COUNT: nat := 138
  const TX_STATUS: nat := 140
  const TX_SIGNATURE_VOUCHER_BUMP: nat := 141
  const TX_FUTURE_SIGN: nat := 142
  const TX_BUMP: nat := 143
  const TX_MESSAGE_DATA_LEN: nat := 144
  const TX_MESSAGE_DATA: nat := 146

  const AR_MEMBER: nat := 2
  const AR_TRANSACTION: nat := 34
  const AR_APPROVED: nat := 66
  const AR_BUMP: nat := 67

  // ── Reading ──────────────────────────────────────────────────────────────

  function DecodeMultisig(data: seq<u8>): Multisig
    requires |data| == MULTISIG_LEN
  {
    Multisig(data[1], KeyAt(data, MS_DWALLET), NumberAt(data, MS_THRESHOLD, 2),
             MembersAt(data, MS_MEMBERS, NumberAt(data, MS_MEMBER_COUNT, 2)), NumberAt(data, MS_TX_INDEX, 4),
             data[MS_BUMP])
  }

  function DecodeTransaction(data: seq<u8>): Transaction
    requires |data| == TRANSACTION_LEN
  {
    Transaction(
      data[1], KeyAt(data, TX_MULTISIG), NumberAt(data, TX_INDEX, 4), KeyAt(data, TX_PROPOSER),
      KeyAt(data, TX_MESSAGE_HASH), KeyAt(data, TX_USER_PUBKEY), NumberAt(data, TX_SIGNATURE_SCHEME, 2),
      NumberAt(data, TX_APPROVAL_COUNT, 2), NumberAt(data, TX_REJECTION_COUNT, 2), data[TX_STATUS],
      data[TX_SIGNATURE_VOUCHER_BUMP], data[TX_FUTURE_SIGN], data[TX_BUMP],
      NumberAt(data, TX_MESSAGE_DATA_LEN, 2), data[TX_MESSAGE_DATA..TX_MESSAGE_DATA + 256])
  }

  function DecodeRecord(data: seq<u8>): ApprovalRecord
    requires |data| == APPROVAL_RECORD_LEN
  {
    ApprovalRecord(data[1], KeyAt(data, AR_MEMBER), KeyAt(data, AR_TRANSACTION), data[AR_APPROVED], data[AR_BUMP])
  }

  // ── Writes in place ──────────────────────────────────────────────────────

  /** The fields of a transaction below `at`, and above `at + n`, survive a write there. */
  lemma TransactionFieldsBeside(data: seq<u8>, at: nat, bytes: seq<u8>)
    requires |data| == TRANSACTION_LEN
    requires TX_APPROVAL_COUNT <= at && at + |bytes| <= TX_STATUS + 1
    ensures
      var before, after := DecodeTransaction(data), DecodeTransaction(Overwrite(data, at, bytes));
      after == before.(approvals := after.approvals, rejections := after.rejections, status := after.status)
    ensures Overwrite(data, at, bytes)[0] == data[0]
  {
    FieldBeside(data, at, bytes, TX_MULTISIG, 32);
    FieldBeside(data, at, bytes, TX_INDEX, 4);
    FieldBeside(data, at, bytes, TX_PROPOSER, 32);
    FieldBeside(data, at, bytes, TX_MESSAGE_HASH, 32);
    FieldBeside(data, at, bytes, TX_USER_PUBKEY, 32);
    FieldBeside(data, at, bytes, TX_SIGNATURE_SCHEME, 2);
    FieldBeside(data, at, bytes, TX_MESSAGE_DATA_LEN, 2);
    FieldBeside(data, at, bytes, TX_MESSAGE_DATA, 256);
  }

  lemma ApprovalsWritten(data: seq<u8>, count: nat)
    requires |data| == TRANSACTION_LEN && count < 0x1_0000
    ensures DecodeTransaction(Overwrite(data, TX_APPROVAL_COUNT, LittleEndian(count, 2)))
              == DecodeTransaction(data).(approvals := count)
  {
    Widths();
    var bytes := LittleEndian(count, 2);
    TransactionFieldsBeside(data, TX_APPROVAL_COUNT, bytes);
    NumberWritten(data, TX_APPROVAL_COUNT, count, 2);
    FieldBeside(data, TX_APPROVAL_COUNT, bytes, TX_REJECTION_COUNT, 2);
  }

  lemma RejectionsWritten(data: seq<u8>, count: nat)
    requires |data| == TRANSACTION_LEN && count < 0x1_0000
    ensures DecodeTransaction(Overwrite(data, TX_REJECTION_COUNT, LittleEndian(count, 2)))
              == DecodeTransaction(data).(rejections := count)
  {
    Widths();
    var bytes := LittleEndian(count, 2);
    TransactionFieldsBeside(data, TX_REJECTION_COUNT, bytes);
    NumberWritten(data, TX_REJECTION_COUNT, count, 2);
    FieldBeside(data, TX_REJECTION_COUNT, bytes, TX_APPROVAL_COUNT, 2);
  }

  lemma StatusWritten(data: seq<u8>, status: u8)
    requires |data| == TRANSACTION_LEN
    ensures DecodeTransaction(Overwrite(data, TX_STATUS, [status])) == DecodeTransaction(data).(status := status)
  {
    TransactionFieldsBeside(data, TX_STATUS, [status]);
    FieldBeside(data, TX_STATUS, [status], TX_APPROVAL_COUNT, 2);
    FieldBeside(data, TX_STATUS, [status], TX_REJECTION_COUNT, 2);
  }

  lemma TxIndexWritten(data: seq<u8>, index: nat)
    requires |data| == MULTISIG_LEN && index < 0x1_0000_0000
    ensures
      var after := Overwrite(data, MS_TX_INDEX, LittleEndian(index, 4));
      DecodeMultisig(after) == DecodeMultisig(data).(txIndex := index) && after[0] == data[0]
  {
    Widths();
    var bytes := LittleEndian(index, 4);
    var after := Overwrite(data, MS_TX_INDEX, bytes);
    NumberWritten(data, MS_TX_INDEX, index, 4);
    FieldBeside(data, MS_TX_INDEX, bytes, MS_DWALLET, 32);
    FieldBeside(data, MS_TX_INDEX, bytes, MS_THRESHOLD, 2);
    FieldBeside(data, MS_TX_INDEX, bytes, MS_MEMBER_COUNT, 2);
    forall i | 0 <= i < MAX_MEMBERS ensures KeyAt(after, MS_MEMBERS + 32 * i) == KeyAt(data, MS_MEMBERS + 32 * i) {
      FieldBeside(data, MS_TX_INDEX, bytes, MS_MEMBERS + 32 * i, 32);
    }
    var count := NumberAt(data, MS_MEMBER_COUNT, 2);
    assert MembersAt(after, MS_MEMBERS, count) == MembersAt(data, MS_MEMBERS, count);
  }

  // ── Filling a new account ────────────────────────────────────────────────

  /** Every byte of a transaction account is one of its fields. */
  lemma TransactionBytes(a: seq<u8>, b: seq<u8>)
    requires |a| == |b| == TRANSACTION_LEN && a[0] == b[0]
    requires DecodeTransaction(a) == DecodeTransaction(b)
    ensures a == b
  {
    SameNumber(a, b, TX_INDEX, 4);
    SameNumber(a, b, TX_SIGNATURE_SCHEME, 2);
    SameNumber(a, b, TX_APPROVAL_COUNT, 2);
    SameNumber(a, b, TX_REJECTION_COUNT, 2);
    SameNumber(a, b, TX_MESSAGE_DATA_LEN, 2);
    forall i | 0 <= i < TRANSACTION_LEN ensures a[i] == b[i] {
      if 2 <= i < 34 { assert a[i] == a[2..34][i - 2] == b[2..34][i - 2]; }
      if 34 <= i < 38 { assert a[i] == a[34..38][i - 34] == b[34..38][i - 34]; }
      if 38 <= i < 70 { assert a[i] == a[38..70][i - 38] == b[38..70][i - 38]; }
      if 70 <= i < 102 { assert a[i] == a[70..102][i - 70] == b[70..102][i - 70]; }
      if 102 <= i < 134 { assert a[i] == a[102..134][i - 102] == b[102..134][i - 102]; }
      if 134 <= i < 136 { assert a[i] == a[134..136][i - 134] == b[134..136][i - 134]; }
      if 136 <= i < 138 { assert a[i] == a[136..138][i - 136] == b[136..138][i - 136]; }
      if 138 <= i < 140 { assert a[i] == a[138..140][i - 138] == b[138..140][i - 138]; }
      if 144 <= i < 146 { assert a[i] == a[144..146][i - 144] == b[144..146][i - 144]; }
      if 146 <= i { assert a[i] == a[146..402][i - 146] == b[146..402][i - 146]; }
    }
  }

  method FillRecord(member: Key, transaction: Key, approved: u8, bump: u8) returns (data: seq<u8>)
    ensures |data| == APPROVAL_RECORD_LEN && data[0] == APPROVAL_RECORD_DISCRIMINATOR
    ensures DecodeRecord(data) == ApprovalRecord(1, member, transaction, approved, bump)
  {
    var buffer := Load(Zeros(APPROVAL_RECORD_LEN));
    buffer[0] := APPROVAL_RECORD_DISCRIMINATOR;
    buffer[1] := 1;
    Write(buffer, AR_MEMBER, member.bytes);
    Write(buffer, AR_TRANSACTION, transaction.bytes);
    buffer[AR_APPROVED] := approved;
    buffer[AR_BUMP] := bump;
    data := buffer[..];
    assert data[AR_MEMBER..AR_MEMBER + 32] == member.bytes;
    assert data[AR_TRANSACTION..AR_TRANSACTION + 32] == transaction.bytes;
  }

  /** The first fields of a new transaction account, up to the message hash. */
  method FillIdentity(buffer: array<u8>, q: Proposal, index: nat)
    requires buffer.Length == TRANSACTION_LEN && index < 0x1_0000_0000
    modifies buffer
    ensures buffer[..2] == [TRANSACTION_DISCRIMINATOR, 1]
    ensures buffer[TX_MULTISIG..TX_INDEX] == q.multisig.bytes
    ensures buffer[TX_INDEX..TX_PROPOSER] == LittleEndian(index, 4)
    ensures buffer[TX_PROPOSER..TX_MESSAGE_HASH] == q.proposer.bytes
    ensures buffer[TX_MESSAGE_HASH..] == old(buffer[TX_MESSAGE_HASH..])
  {
    buffer[0] := TRANSACTION_DISCRIMINATOR;
    buffer[1] := 1;
    Write(buffer, TX_MULTISIG, q.multisig.bytes);
    Write(buffer, TX_INDEX, LittleEndian(index, 4));
    Write(buffer, TX_PROPOSER, q.proposer.bytes);
  }

  /** Then the message hash, the user's key and the scheme. */
  method FillTerms(buffer: array<u8>, q: Proposal)
    requires buffer.Length == TRANSACTION_LEN && q.scheme < 0x1_0000
    modifies buffer
    ensures buffer[..TX_MESSAGE_HASH] == old(buffer[..TX_MESSAGE_HASH])
    ensures buffer[TX_MESSAGE_HASH..TX_USER_PUBKEY] == q.messageHash.bytes
    ensures buffer[TX_USER_PUBKEY..TX_SIGNATURE_SCHEME] == q.userPubkey.bytes
    ensures buffer[TX_SIGNATURE_SCHEME..TX_APPROVAL_COUNT] == LittleEndian(q.scheme, 2)
    ensures buffer[TX_APPROVAL_COUNT..] == old(buffer[TX_APPROVAL_COUNT..])
  {
    Write(buffer, TX_MESSAGE_HASH, q.messageHash.bytes);
    Write(buffer, TX_USER_PUBKEY, q.userPubkey.bytes);
    Write(buffer, TX_SIGNATURE_SCHEME, LittleEndian(q.scheme, 2));
  }

  /** Then the counts, the one-byte fields and the message. */
  method FillCounts(buffer: array<u8>, q: Proposal)
    requires buffer.Length == TRANSACTION_LEN && |q.message| <= 256
    requires buffer[TX_MESSAGE_DATA..] == Zeros(256)
    modifies buffer
    ensures buffer[..TX_APPROVAL_COUNT] == old(buffer[..TX_APPROVAL_COUNT])
    ensures buffer[TX_APPROVAL_COUNT..TX_REJECTION_COUNT] == LittleEndian(0, 2)
    ensures buffer[TX_REJECTION_COUNT..TX_STATUS] == LittleEndian(0, 2)
    ensures buffer[TX_STATUS..TX_MESSAGE_DATA_LEN] == [STATUS_ACTIVE, q.voucherBump, q.futureSign, q.txBump]
    ensures buffer[TX_MESSAGE_DATA_LEN..TX_MESSAGE_DATA] == LittleEndian(|q.message|, 2)
    ensures buffer[TX_MESSAGE_DATA..] == q.message + Zeros(256 - |q.message|)
  {
    ghost var before := buffer[..TX_APPROVAL_COUNT];
    FillVotes(buffer);
    ghost var counts, rest := buffer[..TX_STATUS], buffer[TX_MESSAGE_DATA_LEN..];
    assert counts[..TX_APPROVAL_COUNT] == before && rest[2..] == Zeros(256);
    FillFlags(buffer, q);
    ghost var fixed := buffer[..TX_MESSAGE_DATA_LEN];
    assert buffer[TX_MESSAGE_DATA..] == rest[2..] && fixed[..TX_STATUS] == counts;
    FillMessage(buffer, q);
    assert buffer[TX_STATUS..TX_MESSAGE_DATA_LEN] == fixed[TX_STATUS..];
    assert buffer[..TX_STATUS] == buffer[..TX_MESSAGE_DATA_LEN][..TX_STATUS] == counts;
    assert buffer[..TX_APPROVAL_COUNT] == counts[..TX_APPROVAL_COUNT];
    assert buffer[TX_APPROVAL_COUNT..TX_REJECTION_COUNT] == counts[TX_APPROVAL_COUNT..TX_REJECTION_COUNT];
    assert buffer[TX_REJECTION_COUNT..TX_STATUS] == counts[TX_REJECTION_COUNT..];
  }

  method FillVotes(buffer: array<u8>)
    requires buffer.Length == TRANSACTION_LEN
    modifies buffer
    ensures buffer[..TX_APPROVAL_COUNT] == old(buffer[..TX_APPROVAL_COUNT])
    ensures buffer[TX_APPROVAL_COUNT..TX_REJECTION_COUNT] == LittleEndian(0, 2)
    ensures buffer[TX_REJECTION_COUNT..TX_STATUS] == LittleEndian(0, 2)
    ensures buffer[TX_STATUS..] == old(buffer[TX_STATUS..])
  {
    Write(buffer, TX_APPROVAL_COUNT, LittleEndian(0, 2));
    Write(buffer, TX_REJECTION_COUNT, LittleEndian(0, 2));
  }

  method FillMessage(buffer: array<u8>, q: Proposal)
    requires buffer.Length == TRANSACTION_LEN && |q.message| <= 256
    requires buffer[TX_MESSAGE_DATA..] == Zeros(256)
    modifies buffer
    ensures buffer[..TX_MESSAGE_DATA_LEN] == old(buffer[..TX_MESSAGE_DATA_LEN])
    ensures buffer[TX_MESSAGE_DATA_LEN..TX_MESSAGE_DATA] == LittleEndian(|q.message|, 2)
    ensures buffer[TX_MESSAGE_DATA..] == q.message + Zeros(256 - |q.message|)
  {
    Write(buffer, TX_MESSAGE_DATA_LEN, LittleEndian(|q.message|, 2));
    assert buffer[TX_MESSAGE_DATA..] == Zeros(256);
    Write(buffer, TX_MESSAGE_DATA, q.message);
  }

  method FillFlags(buffer: array<u8>, q: Proposal)
    requires buffer.Length == TRANSACTION_LEN
    modifies buffer
    ensures buffer[..TX_STATUS] == old(buffer[..TX_STATUS])
    ensures buffer[TX_STATUS..TX_MESSAGE_DATA_LEN] == [STATUS_ACTIVE, q.voucherBump, q.futureSign, q.txBump]
    ensures buffer[TX_MESSAGE_DATA_LEN..] == old(buffer[TX_MESSAGE_DATA_LEN..])
  {
    buffer[TX_STATUS] := STATUS_ACTIVE;
    buffer[TX_SIGNATURE_VOUCHER_BUMP] := q.voucherBump;
    buffer[TX_FUTURE_SIGN] := q.futureSign;
    buffer[TX_BUMP] := q.txBump;
  }

  method FillTransaction(q: Proposal, index: nat) returns (data: seq<u8>)
    requires |q.message| <= 256 && index < 0x1_0000_0000 && q.scheme < 0x1_0000
    ensures |data| == TRANSACTION_LEN && data[0] == TRANSACTION_DISCRIMINATOR
    ensures DecodeTransaction(data) == NewTransaction(q, index)
  {
    var buffer := Load(Zeros(TRANSACTION_LEN));
    FillIdentity(buffer, q, index);
    ghost var identity, empty := buffer[..TX_MESSAGE_HASH], buffer[TX_MESSAGE_HASH..];
    assert empty == Zeros(332);
    FillTerms(buffer, q);
    assert buffer[TX_MESSAGE_DATA..] == empty[76..] == Zeros(256);
    ghost var terms := buffer[..TX_APPROVAL_COUNT];
    FillCounts(buffer, q);
    data := buffer[..];
    assert terms[..TX_MESSAGE_HASH] == identity;
    assert terms[..2] == identity[..2] && terms[TX_MULTISIG..TX_INDEX] == identity[TX_MULTISIG..TX_INDEX];
    assert terms[TX_INDEX..TX_PROPOSER] == identity[TX_INDEX..TX_PROPOSER];
    assert terms[TX_PROPOSER..TX_MESSAGE_HASH] == identity[TX_PROPOSER..];
    FilledTransaction(data, q, index, terms);
  }

  lemma FilledTransaction(data: seq<u8>, q: Proposal, index: nat, terms: seq<u8>)
    requires |data| == TRANSACTION_LEN && |terms| == TX_APPROVAL_COUNT && data[..TX_APPROVAL_COUNT] == terms
    requires |q.message| <= 256 && index < 0x1_0000_0000 && q.scheme < 0x1_0000
    requires terms[..2] == [TRANSACTION_DISCRIMINATOR, 1]
    requires terms[TX_MULTISIG..TX_INDEX] == q.multisig.bytes
    requires terms[TX_INDEX..TX_PROPOSER] == LittleEndian(index, 4)
    requires terms[TX_PROPOSER..TX_MESSAGE_HASH] == q.proposer.bytes
    requires terms[TX_MESSAGE_HASH..TX_USER_PUBKEY] == q.messageHash.bytes
    requires terms[TX_USER_PUBKEY..TX_SIGNATURE_SCHEME] == q.userPubkey.bytes
    requires terms[TX_SIGNATURE_SCHEME..TX_APPROVAL_COUNT] == LittleEndian(q.scheme, 2)
    requires data[TX_APPROVAL_COUNT..TX_REJECTION_COUNT] == LittleEndian(0, 2)
    requires data[TX_REJECTION_COUNT..TX_STATUS] == LittleEndian(0, 2)
    requires data[TX_STATUS..TX_MESSAGE_DATA_LEN] == [STATUS_ACTIVE, q.voucherBump, q.futureSign, q.txBump]
    requires data[TX_MESSAGE_DATA_LEN..TX_MESSAGE_DATA] == LittleEndian(|q.message|, 2)
    requires data[TX_MESSAGE_DATA..TX_MESSAGE_DATA + 256] == q.message + Zeros(256 - |q.message|)
    ensures data[0] == TRANSACTION_DISCRIMINATOR && DecodeTransaction(data) == NewTransaction(q, index)
  {
    Widths();
    LittleEndianRoundTrip(index, 4);
    LittleEndianRoundTrip(q.scheme, 2);
    LittleEndianRoundTrip(0, 2);
    LittleEndianRoundTrip(|q.message|, 2);
    assert forall i | 0 <= i < TX_APPROVAL_COUNT :: data[i] == terms[i];
    assert data[TX_MULTISIG..TX_INDEX] == q.multisig.bytes;
    assert data[TX_INDEX..TX_PROPOSER] == LittleEndian(index, 4);
    assert data[TX_PROPOSER..TX_MESSAGE_HASH] == q.proposer.bytes;
    assert data[TX_MESSAGE_HASH..TX_USER_PUBKEY] == q.messageHash.bytes;
    assert data[TX_USER_PUBKEY..TX_SIGNATURE_SCHEME] == q.userPubkey.bytes;
    assert data[TX_SIGNATURE_SCHEME..TX_APPROVAL_COUNT] == LittleEndian(q.scheme, 2);
    var fixed := data[TX_STATUS..TX_MESSAGE_DATA_LEN];
    assert data[TX_STATUS] == fixed[0] && data[TX_SIGNATURE_VOUCHER_BUMP] == fixed[1];
    assert data[TX_FUTURE_SIGN] == fixed[2] && data[TX_BUMP] == fixed[3];
    assert data[0] == terms[..2][0] && data[1] == terms[..2][1];
  }

  method FillMultisig(dwallet: Key, threshold: nat, members: seq<Key>, bump: u8) returns (data: seq<u8>)
    requires |members| <= MAX_MEMBERS && threshold <= |members|
    ensures |data| == MULTISIG_LEN && data[0] == MULTISIG_DISCRIMINATOR
    ensures DecodeMultisig(data) == Multisig(1, dwallet, threshold, members, 0, bump)
    ensures NumberAt(data, MS_MEMBER_COUNT, 2) == |members|
  {
    var buffer := Load(Zeros(MULTISIG_LEN));
    var at := Append(buffer, 0, [MULTISIG_DISCRIMINATOR, 1]);
    at := Append(buffer, MS_DWALLET, dwallet.bytes);
    at := Append(buffer, MS_THRESHOLD, LittleEndian(threshold, 2));
    at := Append(buffer, MS_MEMBER_COUNT, LittleEndian(|members|, 2));
    at := Append(buffer, MS_TX_INDEX, LittleEndian(0, 4));
    at := Append(buffer, MS_BUMP, [bump]);
    at := Append(buffer, MS_MEMBERS, Flatten(members));
    data := buffer[..];
    MultisigParts(data, dwallet, LittleEndian(threshold, 2), LittleEndian(|members|, 2), LittleEndian(0, 4), bump,
      Flatten(members), at);
    FilledMultisig(data, dwallet, threshold, members, bump);
  }

  lemma MultisigParts(data: seq<u8>, dwallet: Key, threshold: seq<u8>, count: seq<u8>, index: seq<u8>, bump: u8,
                      members: seq<u8>, at: nat)
    requires |threshold| == |count| == 2 && |index| == 4 && at == MS_MEMBERS + |members| <= |data|
    requires data[..at] == [] + [MULTISIG_DISCRIMINATOR, 1] + dwallet.bytes + threshold + count + index + [bump] + members
    ensures data[0] == MULTISIG_DISCRIMINATOR && data[1] == 1 && data[MS_BUMP] == bump
    ensures data[MS_DWALLET..MS_THRESHOLD] == dwallet.bytes
    ensures data[MS_THRESHOLD..MS_MEMBER_COUNT] == threshold
    ensures data[MS_MEMBER_COUNT..MS_TX_INDEX] == count
    ensures data[MS_TX_INDEX..MS_BUMP] == index
    ensures data[MS_MEMBERS..at] == members
  {
    var filled := data[..at];
    assert forall i | 0 <= i < at :: data[i] == filled[i];
  }

  lemma FilledMultisig(data: seq<u8>, dwallet: Key, threshold: nat, members: seq<Key>, bump: u8)
    requires |data| == MULTISIG_LEN && |members| <= MAX_MEMBERS && threshold <= |members|
    requires data[0] == MULTISIG_DISCRIMINATOR && data[1] == 1 && data[MS_BUMP] == bump
    requires data[MS_DWALLET..MS_THRESHOLD] == dwallet.bytes
    requires data[MS_THRESHOLD..MS_MEMBER_COUNT] == LittleEndian(threshold, 2)
    requires data[MS_MEMBER_COUNT..MS_TX_INDEX] == LittleEndian(|members|, 2)
    requires data[MS_TX_INDEX..MS_BUMP] == LittleEndian(0, 4)
    requires data[MS_MEMBERS..MS_MEMBERS + 32 * |members|] == Flatten(members)
    ensures DecodeMultisig(data) == Multisig(1, dwallet, threshold, members, 0, bump)
    ensures NumberAt(data, MS_MEMBER_COUNT, 2) == |members|
  {
    Widths();
    LittleEndianRoundTrip(threshold, 2);
    LittleEndianRoundTrip(|members|, 2);
    LittleEndianRoundTrip(0, 4);
    MembersWritten(data, MS_MEMBERS, members);
  }
}
