/**
 * The byte layout of the voting program's accounts, how its buffers are
 * filled when they are created, and what a write in place changes
 * (examples/voting/native/src/lib.rs).
 */
module VotingLayout {
  import opened Common
  import opened Bytes
  import opened Layout
  import opened Governance
  import opened VotingMachine

  const PROPOSAL_DISCRIMINATOR: u8 := 1
  const VOTE_RECORD_DISCRIMINATOR: u8 := 2
  const COUNCIL_DISCRIMINATOR: u8 := 3

  const COUNCIL_LEN: nat := 361
  const PROPOSAL_LEN: nat := 196
  const VOTE_RECORD_LEN: nat := 69

  const CN_DWALLET: nat := 2
  const CN_QUORUM: nat := 34
  const CN_MEMBER_COUNT: nat := 38
  const CN_BUMP: nat := 40
  const CN_MEMBERS: nat := 41

  const PROP_PROPOSAL_ID: nat := 2
  const PROP_DWALLET: nat := 34
  const PROP_MESSAGE_DIGEST: nat := 66
  const PROP_USER_PUBKEY: nat := 98
  const PROP_SIGNATURE_SCHEME: nat := 130
  const PROP_CREATOR: nat := 132
  const PROP_YES_VOTES: nat := 164
  const PROP_NO_VOTES: nat := 168
  const PROP_QUORUM: nat := 172
  const PROP_STATUS: nat := 176
  const PROP_SIGNATURE_VOUCHER_BUMP: nat := 177
  const PROP_BUMP: nat := 178

  const VR_VOTER: nat := 2
  const VR_PROPOSAL_ID: nat := 34
  const VR_VOTE: nat := 66
  const VR_BUMP: nat := 67

  function DecodeCouncil(data: seq<u8>): Council
    requires |data| == COUNCIL_LEN
  {
    Council(data[1], KeyAt(data, CN_DWALLET), NumberAt(data, CN_QUORUM, 4),
            MembersAt(data, CN_MEMBERS, NumberAt(data, CN_MEMBER_COUNT, 2)), data[CN_BUMP])
  }

  function DecodeProposal(data: seq<u8>): Proposal
    requires |data| == PROPOSAL_LEN
  {
    Proposal(
      data[1], KeyAt(data, PROP_PROPOSAL_ID), KeyAt(data, PROP_DWALLET), KeyAt(data, PROP_MESSAGE_DIGEST),
      KeyAt(data, PROP_USER_PUBKEY), NumberAt(data, PROP_SIGNATURE_SCHEME, 2), KeyAt(data, PROP_CREATOR),
      NumberAt(data, PROP_YES_VOTES, 4), NumberAt(data, PROP_NO_VOTES, 4), NumberAt(data, PROP_QUORUM, 4),
      data[PROP_STATUS], data[PROP_SIGNATURE_VOUCHER_BUMP], data[PROP_BUMP])
  }

  function DecodeRecord(data: seq<u8>): VoteRecord
    requires |data| == VOTE_RECORD_LEN
  {
    VoteRecord(data[1], KeyAt(data, VR_VOTER), KeyAt(data, VR_PROPOSAL_ID), data[VR_VOTE], data[VR_BUMP])
  }

  // ── Writes in place ──────────────────────────────────────────────────────

  /** A write among the counts and the status leaves every other field. */
  lemma ProposalFieldsBeside(data: seq<u8>, at: nat, bytes: seq<u8>)
    requires |data| == PROPOSAL_LEN
    requires PROP_YES_VOTES <= at && at + |bytes| <= PROP_STATUS + 1
    requires at + |bytes| <= PROP_QUORUM || PROP_STATUS <= at
    ensures
      var before, after := DecodeProposal(data), DecodeProposal(Overwrite(data, at, bytes));
      after == before.(yes := after.yes, no := after.no, status := after.status)
    ensures Overwrite(data, at, bytes)[0] == data[0]
  {
    FieldBeside(data, at, bytes, PROP_PROPOSAL_ID, 32);
    FieldBeside(data, at, bytes, PROP_DWALLET, 32);
    FieldBeside(data, at, bytes, PROP_MESSAGE_DIGEST, 32);
    FieldBeside(data, at, bytes, PROP_USER_PUBKEY, 32);
    FieldBeside(data, at, bytes, PROP_SIGNATURE_SCHEME, 2);
    FieldBeside(data, at, bytes, PROP_CREATOR, 32);
    FieldBeside(data, at, bytes, PROP_QUORUM, 4);
  }

  lemma YesWritten(data: seq<u8>, count: nat)
    requires |data| == PROPOSAL_LEN && count < 0x1_0000_0000
    ensures DecodeProposal(Overwrite(data, PROP_YES_VOTES, LittleEndian(count, 4))) == DecodeProposal(data).(yes := count)
  {
    Widths();
    ProposalFieldsBeside(data, PROP_YES_VOTES, LittleEndian(count, 4));
    NumberWritten(data, PROP_YES_VOTES, count, 4);
    FieldBeside(data, PROP_YES_VOTES, LittleEndian(count, 4), PROP_NO_VOTES, 4);
  }

  lemma NoWritten(data: seq<u8>, count: nat)
    requires |data| == PROPOSAL_LEN && count < 0x1_0000_0000
    ensures DecodeProposal(Overwrite(data, PROP_NO_VOTES, LittleEndian(count, 4))) == DecodeProposal(data).(no := count)
  {
    Widths();
    ProposalFieldsBeside(data, PROP_NO_VOTES, LittleEndian(count, 4));
    NumberWritten(data, PROP_NO_VOTES, count, 4);
    FieldBeside(data, PROP_NO_VOTES, LittleEndian(count, 4), PROP_YES_VOTES, 4);
  }

  lemma StatusWritten(data: seq<u8>, status: u8)
    requires |data| == PROPOSAL_LEN
    ensures DecodeProposal(Overwrite(data, PROP_STATUS, [status])) == DecodeProposal(data).(status := status)
  {
    ProposalFieldsBeside(data, PROP_STATUS, [status]);
    FieldBeside(data, PROP_STATUS, [status], PROP_YES_VOTES, 4);
    FieldBeside(data, PROP_STATUS, [status], PROP_NO_VOTES, 4);
  }

  // ── Filling a new account ────────────────────────────────────────────────

  method FillRecord(voter: Key, id: Key, vote: u8, bump: u8) returns (data: seq<u8>)
    ensures |data| == VOTE_RECORD_LEN && data[0] == VOTE_RECORD_DISCRIMINATOR
    ensures DecodeRecord(data) == VoteRecord(1, voter, id, vote, bump)
  {
    var buffer := Load(Zeros(VOTE_RECORD_LEN));
    buffer[0] := VOTE_RECORD_DISCRIMINATOR;
    buffer[1] := 1;
    Write(buffer, VR_VOTER, voter.bytes);
    Write(buffer, VR_PROPOSAL_ID, id.bytes);
    buffer[VR_VOTE] := vote;
    buffer[VR_BUMP] := bump;
    data := buffer[..];
    assert data[VR_VOTER..VR_VOTER + 32] == voter.bytes;
    assert data[VR_PROPOSAL_ID..VR_PROPOSAL_ID + 32] == id.bytes;
  }

  method FillCouncil(dwallet: Key, quorum: nat, members: seq<Key>, bump: u8) returns (data: seq<u8>)
    requires |members| <= MAX_MEMBERS && quorum <= |members|
    ensures |data| == COUNCIL_LEN && data[0] == COUNCIL_DISCRIMINATOR
    ensures DecodeCouncil(data) == Council(1, dwallet, quorum, members, bump)
    ensures NumberAt(data, CN_MEMBER_COUNT, 2) == |members|
  {
    var buffer := Load(Zeros(COUNCIL_LEN));
    var at := Append(buffer, 0, [COUNCIL_DISCRIMINATOR, 1]);
    at := Append(buffer, CN_DWALLET, dwallet.bytes);
    at := Append(buffer, CN_QUORUM, LittleEndian(quorum, 4));
    at := Append(buffer, CN_MEMBER_COUNT, LittleEndian(|members|, 2));
    at := Append(buffer, CN_BUMP, [bump]);
    at := Append(buffer, CN_MEMBERS, Flatten(members));
    data := buffer[..];
    CouncilParts(data, dwallet, LittleEndian(quorum, 4), LittleEndian(|members|, 2), bump, Flatten(members), at);
    FilledCouncil(data, dwallet, quorum, members, bump);
  }

  lemma CouncilParts(data: seq<u8>, dwallet: Key, quorum: seq<u8>, count: seq<u8>, bump: u8, members: seq<u8>, at: nat)
    requires |quorum| == 4 && |count| == 2 && at == CN_MEMBERS + |members| <= |data|
    requires data[..at] == [] + [COUNCIL_DISCRIMINATOR, 1] + dwallet.bytes + quorum + count + [bump] + members
    ensures data[0] == COUNCIL_DISCRIMINATOR && data[1] == 1 && data[CN_BUMP] == bump
    ensures data[CN_DWALLET..CN_QUORUM] == dwallet.bytes
    ensures data[CN_QUORUM..CN_MEMBER_COUNT] == quorum
    ensures data[CN_MEMBER_COUNT..CN_BUMP] == count
    ensures data[CN_MEMBERS..at] == members
  {
    var filled := data[..at];
    assert forall i | 0 <= i < at :: data[i] == filled[i];
  }

  lemma FilledCouncil(data: seq<u8>, dwallet: Key, quorum: nat, members: seq<Key>, bump: u8)
    requires |data| == COUNCIL_LEN && |members| <= MAX_MEMBERS && quorum <= |members|
    requires data[0] == COUNCIL_DISCRIMINATOR && data[1] == 1 && data[CN_BUMP] == bump
    requires data[CN_DWALLET..CN_QUORUM] == dwallet.bytes
    requires data[CN_QUORUM..CN_MEMBER_COUNT] == LittleEndian(quorum, 4)
    requires data[CN_MEMBER_COUNT..CN_BUMP] == LittleEndian(|members|, 2)
    requires data[CN_MEMBERS..CN_MEMBERS + 32 * |members|] == Flatten(members)
    ensures DecodeCouncil(data) == Council(1, dwallet, quorum, members, bump)
    ensures NumberAt(data, CN_MEMBER_COUNT, 2) == |members|
  {
    Widths();
    LittleEndianRoundTrip(quorum, 4);
    LittleEndianRoundTrip(|members|, 2);
    MembersWritten(data, CN_MEMBERS, members);
  }

  /** The keys of a new proposal account. */
  method FillIdentity(buffer: array<u8>, t: Terms)
    requires buffer.Length == PROPOSAL_LEN
    modifies buffer
    ensures buffer[..2] == [PROPOSAL_DISCRIMINATOR, 1]
    ensures buffer[PROP_PROPOSAL_ID..PROP_DWALLET] == t.id.bytes
    ensures buffer[PROP_DWALLET..PROP_MESSAGE_DIGEST] == t.dwallet.bytes
    ensures buffer[PROP_MESSAGE_DIGEST..PROP_USER_PUBKEY] == t.messageDigest.bytes
  {
    buffer[0] := PROPOSAL_DISCRIMINATOR;
    buffer[1] := 1;
    Write(buffer, PROP_PROPOSAL_ID, t.id.bytes);
    Write(buffer, PROP_DWALLET, t.dwallet.bytes);
    Write(buffer, PROP_MESSAGE_DIGEST, t.messageDigest.bytes);
  }

  method FillSigning(buffer: array<u8>, t: Terms)
    requires buffer.Length == PROPOSAL_LEN
    modifies buffer
    ensures buffer[..PROP_USER_PUBKEY] == old(buffer[..PROP_USER_PUBKEY])
    ensures buffer[PROP_USER_PUBKEY..PROP_SIGNATURE_SCHEME] == t.userPubkey.bytes
    ensures buffer[PROP_SIGNATURE_SCHEME..PROP_CREATOR] == LittleEndian(t.scheme, 2)
    ensures buffer[PROP_CREATOR..PROP_YES_VOTES] == t.creator.bytes
  {
    Write(buffer, PROP_USER_PUBKEY, t.userPubkey.bytes);
    Write(buffer, PROP_SIGNATURE_SCHEME, LittleEndian(t.scheme, 2));
    Write(buffer, PROP_CREATOR, t.creator.bytes);
  }

  method FillVotes(buffer: array<u8>, t: Terms, quorum: nat)
    requires buffer.Length == PROPOSAL_LEN
    modifies buffer
    ensures buffer[..PROP_YES_VOTES] == old(buffer[..PROP_YES_VOTES])
    ensures buffer[PROP_YES_VOTES..PROP_NO_VOTES] == LittleEndian(0, 4)
    ensures buffer[PROP_NO_VOTES..PROP_QUORUM] == LittleEndian(0, 4)
    ensures buffer[PROP_QUORUM..PROP_STATUS] == LittleEndian(quorum, 4)
    ensures buffer[PROP_STATUS..PROP_BUMP + 1] == [STATUS_OPEN, t.voucherBump, t.bump]
  {
    Write(buffer, PROP_YES_VOTES, LittleEndian(0, 4));
    Write(buffer, PROP_NO_VOTES, LittleEndian(0, 4));
    Write(buffer, PROP_QUORUM, LittleEndian(quorum, 4));
    buffer[PROP_STATUS] := STATUS_OPEN;
    buffer[PROP_SIGNATURE_VOUCHER_BUMP] := t.voucherBump;
    buffer[PROP_BUMP] := t.bump;
  }

  method FillProposal(t: Terms, quorum: nat) returns (data: seq<u8>)
    requires quorum < 0x1_0000_0000 && t.scheme < 0x1_0000
    ensures |data| == PROPOSAL_LEN && data[0] == PROPOSAL_DISCRIMINATOR
    ensures DecodeProposal(data) == NewProposal(t, quorum)
  {
    var buffer := Load(Zeros(PROPOSAL_LEN));
    FillIdentity(buffer, t);
    ghost var identity := buffer[..PROP_USER_PUBKEY];
    FillSigning(buffer, t);
    ghost var terms := buffer[..PROP_YES_VOTES];
    FillVotes(buffer, t, quorum);
    data := buffer[..];
    assert terms[..PROP_USER_PUBKEY] == identity;
    assert terms[..2] == identity[..2];
    assert terms[PROP_PROPOSAL_ID..PROP_DWALLET] == identity[PROP_PROPOSAL_ID..PROP_DWALLET];
    assert terms[PROP_DWALLET..PROP_MESSAGE_DIGEST] == identity[PROP_DWALLET..PROP_MESSAGE_DIGEST];
    assert terms[PROP_MESSAGE_DIGEST..PROP_USER_PUBKEY] == identity[PROP_MESSAGE_DIGEST..];
    FilledProposal(data, t, quorum, terms);
  }

  lemma FilledProposal(data: seq<u8>, t: Terms, quorum: nat, terms: seq<u8>)
    requires |data| == PROPOSAL_LEN && |terms| == PROP_YES_VOTES && data[..PROP_YES_VOTES] == terms
    requires quorum < 0x1_0000_0000 && t.scheme < 0x1_0000
    requires terms[..2] == [PROPOSAL_DISCRIMINATOR, 1]
    requires terms[PROP_PROPOSAL_ID..PROP_DWALLET] == t.id.bytes
    requires terms[PROP_DWALLET..PROP_MESSAGE_DIGEST] == t.dwallet.bytes
    requires terms[PROP_MESSAGE_DIGEST..PROP_USER_PUBKEY] == t.messageDigest.bytes
    requires terms[PROP_USER_PUBKEY..PROP_SIGNATURE_SCHEME] == t.userPubkey.bytes
    requires terms[PROP_SIGNATURE_SCHEME..PROP_CREATOR] == LittleEndian(t.scheme, 2)
    requires terms[PROP_CREATOR..PROP_YES_VOTES] == t.creator.bytes
    requires data[PROP_YES_VOTES..PROP_NO_VOTES] == LittleEndian(0, 4)
    requires data[PROP_NO_VOTES..PROP_QUORUM] == LittleEndian(0, 4)
    requires data[PROP_QUORUM..PROP_STATUS] == LittleEndian(quorum, 4)
    requires data[PROP_STATUS..PROP_BUMP + 1] == [STATUS_OPEN, t.voucherBump, t.bump]
    ensures data[0] == PROPOSAL_DISCRIMINATOR && DecodeProposal(data) == NewProposal(t, quorum)
  {
    Widths();
    LittleEndianRoundTrip(t.scheme, 2);
    LittleEndianRoundTrip(0, 4);
    LittleEndianRoundTrip(quorum, 4);
    assert forall i | 0 <= i < PROP_YES_VOTES :: data[i] == terms[i];
    assert data[PROP_PROPOSAL_ID..PROP_DWALLET] == t.id.bytes;
    assert data[PROP_DWALLET..PROP_MESSAGE_DIGEST] == t.dwallet.bytes;
    assert data[PROP_MESSAGE_DIGEST..PROP_USER_PUBKEY] == t.messageDigest.bytes;
    assert data[PROP_USER_PUBKEY..PROP_SIGNATURE_SCHEME] == t.userPubkey.bytes;
    assert data[PROP_SIGNATURE_SCHEME..PROP_CREATOR] == LittleEndian(t.scheme, 2);
    assert data[PROP_CREATOR..PROP_YES_VOTES] == t.creator.bytes;
    var last := data[PROP_STATUS..PROP_BUMP + 1];
    assert data[PROP_STATUS] == last[0] && data[PROP_SIGNATURE_VOUCHER_BUMP] == last[1] && data[PROP_BUMP] == last[2];
    assert data[0] == terms[..2][0] && data[1] == terms[..2][1];
  }
}
