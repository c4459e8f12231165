/**
 * The data of the voting program's instructions
 * (examples/voting/native/src/lib.rs): how it is read, and where its bytes
 * are in the accounts the instructions write.
 */
module VotingInstructions {
  import opened Common
  import opened Bytes
  import opened Accounts
  import opened ProgramAddresses
  import opened Layout
  import opened Governance
  import opened VotingMachine
  import opened VotingLayout

  // ── Reading ──────────────────────────────────────────────────────────────

  /** The terms a proposal's 100 bytes hold. */
  function TermsOf(data: seq<u8>, account: NewAccount, council: Key, dwallet: Key, creator: Key, creatorSigns: bool): Option<Terms> {
    if |data| < 100 then None
    else Some(Terms(account, council, dwallet, creator, creatorSigns, KeyAt(data, 0), KeyAt(data, 32), KeyAt(data, 64),
                    NumberAt(data, 96, 2), data[98], data[99]))
  }

  /** The terms of a council, when the bytes hold as many members as they state. */
  function CouncilTermsOf(accounts: AccountMap, ika: Key, data: seq<u8>, account: NewAccount, dwallet: Key,
                          owner: Key, ownerSigns: bool)
    : Option<CouncilTerms>
  {
    if |data| < 6 || |data| < 6 + 32 * NumberAt(data, 4, 2) then None
    else Some(CouncilTerms(account, dwallet, DWalletOwner(accounts, dwallet, ika), owner, ownerSigns,
                           NumberAt(data, 0, 4), MemberList(data, 6, NumberAt(data, 4, 2))))
  }

  /** A vote's 35 bytes: the identifier, the vote, the record's bump, and one for the call. */
  function BallotOf(data: seq<u8>, proposal: Key, record: NewAccount, council: Key, voter: Key, voterSigns: bool,
                    call: Option<VoucherCall>): Ballot
    requires |data| >= 35
  {
    Ballot(proposal, record, council, voter, voterSigns, KeyAt(data, 0), data[32], data[33], call)
  }

  /** Terms written out one after the other are read back, whatever follows them. */
  lemma TermsRead(account: NewAccount, council: Key, dwallet: Key, creator: Key, creatorSigns: bool,
                  id: Key, messageDigest: Key, userPubkey: Key, scheme: nat, voucherBump: u8, bump: u8, rest: seq<u8>)
    requires scheme < 0x1_0000
    ensures TermsOf(id.bytes + messageDigest.bytes + userPubkey.bytes + LittleEndian(scheme, 2) + [voucherBump, bump] + rest,
                    account, council, dwallet, creator, creatorSigns)
              == Some(Terms(account, council, dwallet, creator, creatorSigns, id, messageDigest, userPubkey,
                            scheme, voucherBump, bump))
  {
    Widths();
    LittleEndianRoundTrip(scheme, 2);
    var data := id.bytes + messageDigest.bytes + userPubkey.bytes + LittleEndian(scheme, 2) + [voucherBump, bump] + rest;
    assert data[0..32] == id.bytes;
    assert data[32..64] == messageDigest.bytes;
    assert data[64..96] == userPubkey.bytes;
    assert data[96..98] == LittleEndian(scheme, 2);
    assert data[98] == voucherBump && data[99] == bump;
  }

  lemma CouncilTermsRead(accounts: AccountMap, ika: Key, account: NewAccount, dwallet: Key, owner: Key, ownerSigns: bool,
                         quorum: nat, members: seq<Key>, rest: seq<u8>)
    requires quorum < 0x1_0000_0000 && |members| < 0x1_0000
    ensures CouncilTermsOf(accounts, ika, LittleEndian(quorum, 4) + LittleEndian(|members|, 2) + Flatten(members) + rest,
                           account, dwallet, owner, ownerSigns)
              == Some(CouncilTerms(account, dwallet, DWalletOwner(accounts, dwallet, ika), owner, ownerSigns,
                                   quorum, members))
  {
    Widths();
    LittleEndianRoundTrip(quorum, 4);
    LittleEndianRoundTrip(|members|, 2);
    var data := LittleEndian(quorum, 4) + LittleEndian(|members|, 2) + Flatten(members) + rest;
    assert data[0..4] == LittleEndian(quorum, 4);
    assert data[4..6] == LittleEndian(|members|, 2);
    assert data[6..6 + 32 * |members|] == Flatten(members);
    MembersRead(data, 6, members);
  }

  lemma BallotReads(id: Key, vote: u8, recordBump: u8, authorityBump: u8, rest: seq<u8>, proposal: Key, record: NewAccount,
                    council: Key, voter: Key, voterSigns: bool, call: Option<VoucherCall>)
    ensures BallotOf(id.bytes + [vote, recordBump, authorityBump] + rest, proposal, record, council, voter, voterSigns, call)
              == Ballot(proposal, record, council, voter, voterSigns, id, vote, recordBump, call)
  {
    var data := id.bytes + [vote, recordBump, authorityBump] + rest;
    assert data[0..32] == id.bytes;
  }

  // ── Where the bytes go ───────────────────────────────────────────────────

  /** A new council account: the terms are the instruction's own bytes. */
  ghost predicate CouncilWritten(stored: seq<u8>, data: seq<u8>, dwallet: Key, bump: u8) {
    && |stored| == 361 && |data| >= 6
    && stored[0..2] == [3, 1]
    && stored[2..34] == dwallet.bytes
    && stored[34..40] == data[0..6]            // quorum, member count
    && stored[40] == bump
    && var length := 32 * (data[4] as int + 0x100 * data[5] as int);
    && length <= 320 && |data| >= 6 + length && stored[41..41 + length] == data[6..6 + length]
  }

  /** A new proposal account: what it asks to be signed is the instruction's own bytes. */
  ghost predicate ProposalWritten(stored: seq<u8>, data: seq<u8>, dwallet: Key, creator: Key, quorum: seq<u8>) {
    && |stored| == 196 && |data| >= 100
    && stored[0..2] == [1, 1]
    && stored[2..34] == data[0..32]            // identifier
    && stored[34..66] == dwallet.bytes
    && stored[66..132] == data[32..98]         // message digest, user key, scheme
    && stored[132..164] == creator.bytes
    && stored[164..172] == [0, 0, 0, 0, 0, 0, 0, 0]
    && stored[172..176] == quorum
    && stored[176..179] == [0, data[98], data[99]]
  }

  /** A new vote record. */
  ghost predicate RecordWritten(stored: seq<u8>, data: seq<u8>, voter: Key) {
    && |stored| == 69 && |data| >= 35
    && stored[0..2] == [2, 1]
    && stored[2..34] == voter.bytes
    && stored[34..66] == data[0..32]
    && stored[66..68] == data[32..34]          // vote, bump
  }

  /** A vote changes nothing of a proposal account but the two counts and the status. */
  ghost predicate OnlyCountsChange(before: seq<u8>, after: seq<u8>) {
    && |before| == |after| >= 196
    && before[..164] == after[..164] && before[172..176] == after[172..176] && before[177..] == after[177..]
  }

  lemma CouncilIsWritten(stored: seq<u8>, accounts: AccountMap, ika: Key, data: seq<u8>, t: CouncilTerms, bump: u8)
    requires |stored| == COUNCIL_LEN && stored[0] == COUNCIL_DISCRIMINATOR
    requires NumberAt(stored, CN_MEMBER_COUNT, 2) == |t.members| <= MAX_MEMBERS
    requires DecodeCouncil(stored) == Council(1, t.dwallet, t.quorum, t.members, bump)
    requires CouncilTermsOf(accounts, ika, data, t.account, t.dwallet, t.owner, t.ownerSigns) == Some(t)
    ensures CouncilWritten(stored, data, t.dwallet, bump)
  {
    SameNumberAt(stored, CN_QUORUM, data, 0, 4);
    SameNumberAt(stored, CN_MEMBER_COUNT, data, 4, 2);
    TwoBytes(data, 4);
    assert stored[34..40] == stored[34..38] + stored[38..40];
    assert data[0..6] == data[0..4] + data[4..6];
    SameMembers(stored, CN_MEMBERS, data, 6, t.members);
  }

  lemma ProposalIsWritten(stored: seq<u8>, data: seq<u8>, t: Terms, quorum: seq<u8>)
    requires |stored| == PROPOSAL_LEN && stored[0] == PROPOSAL_DISCRIMINATOR && |quorum| == 4
    requires TermsOf(data, t.account, t.council, t.dwallet, t.creator, t.creatorSigns) == Some(t)
    requires DecodeProposal(stored) == NewProposal(t, FromLittleEndian(quorum))
    ensures ProposalWritten(stored, data, t.dwallet, t.creator, quorum)
  {
    SameNumberAt(stored, PROP_SIGNATURE_SCHEME, data, 96, 2);
    assert quorum[0..4] == quorum;
    SameNumberAt(stored, PROP_QUORUM, quorum, 0, 4);
    assert stored[66..132] == stored[66..98] + stored[98..130] + stored[130..132];
    assert data[32..98] == data[32..64] + data[64..96] + data[96..98];
    ZeroNumber(stored, PROP_YES_VOTES, 4);
    ZeroNumber(stored, PROP_NO_VOTES, 4);
    assert stored[164..172] == stored[164..168] + stored[168..172];
  }

  lemma RecordIsWritten(stored: seq<u8>, data: seq<u8>, voter: Key)
    requires |stored| == VOTE_RECORD_LEN && stored[0] == VOTE_RECORD_DISCRIMINATOR && |data| >= 35
    requires DecodeRecord(stored) == VoteRecord(1, voter, KeyAt(data, 0), data[32], data[33])
    ensures RecordWritten(stored, data, voter)
  {
  }

  /** One more yes, or one more no for any other byte, and the status approved or as it was: nothing else. */
  ghost predicate VoteCounted(before: seq<u8>, after: seq<u8>, vote: u8) {
    && OnlyCountsChange(before, after)
    && (if vote == 1 then
          && FromLittleEndian(after[164..168]) == FromLittleEndian(before[164..168]) + 1
          && after[168..172] == before[168..172]
        else
          && after[164..168] == before[164..168]
          && FromLittleEndian(after[168..172]) == FromLittleEndian(before[168..172]) + 1)
    && (after[176] == before[176] || after[176] == 1)
  }

  lemma CountsWritten(before: seq<u8>, at: nat, count: nat, vote: u8)
    requires |before| >= 196 && at == (if vote == 1 then 164 else 168)
    requires count == FromLittleEndian(before[at..at + 4]) + 1 < 0x1_0000_0000
    ensures VoteCounted(before, Overwrite(before, at, LittleEndian(count, 4)), vote)
  {
    Widths();
    var bytes := LittleEndian(count, 4);
    LittleEndianRoundTrip(count, 4);
    OverwriteReads(before, at, bytes, 0, 164);
    OverwriteReads(before, at, bytes, 164, 168);
    OverwriteReads(before, at, bytes, 168, 172);
    OverwriteReads(before, at, bytes, 172, 176);
    OverwriteReads(before, at, bytes, 177, |before|);
  }

  lemma StatusIsWritten(before: seq<u8>, after: seq<u8>, vote: u8)
    requires VoteCounted(before, after, vote)
    ensures VoteCounted(before, Overwrite(after, 176, [1]), vote)
  {
    OverwriteReads(after, 176, [1], 0, 164);
    OverwriteReads(after, 176, [1], 164, 168);
    OverwriteReads(after, 176, [1], 168, 172);
    OverwriteReads(after, 176, [1], 172, 176);
    OverwriteReads(after, 176, [1], 177, |after|);
  }
}
