/**
 * The seeds of the governance programs' accounts
 * (examples/multisig/native/src/lib.rs, examples/voting/native/src/lib.rs): a
 * record exists once per key only because no two keys share an address
 * preimage.
 */
module GovernanceSeeds {
  import opened Bytes
  import opened Governance
  import opened Seeds
  import Multi = MultisigMachine
  import Vote = VotingMachine

  /** The literals, byte by byte, and what follows them. */
  lemma SeedsAsWritten(a: Key, b: Key, index: nat)
    ensures Multi.MultisigSeeds(a) == Ascii("multisig") + a.bytes
    ensures Multi.TransactionSeeds(a, index) == Ascii("transaction") + a.bytes + LittleEndian(index, 4)
    ensures Multi.ApprovalSeeds(a, b) == Ascii("approval") + a.bytes + b.bytes
    ensures VoucherSeeds(a) == Ascii("signature_voucher") + a.bytes
    ensures Vote.CouncilSeeds(a) == Ascii("council") + a.bytes
    ensures Vote.ProposalSeeds(a) == Ascii("proposal") + a.bytes
    ensures Vote.VoteSeeds(a, b) == Ascii("vote") + a.bytes + b.bytes
  {
    assert Ascii("multisig") == Multi.MULTISIG_SEED;
    assert Ascii("transaction") == Multi.TRANSACTION_SEED;
    assert Ascii("approval") == Multi.APPROVAL_SEED;
    assert Ascii("signature_voucher") == VOUCHER_SEED;
    assert Ascii("council") == Vote.COUNCIL_SEED;
    assert Ascii("proposal") == Vote.PROPOSAL_SEED;
    assert Ascii("vote") == Vote.VOTE_SEED;
  }

  datatype MultisigKey =
    | OfMultisig(dwallet: Key)
    | OfTransaction(multisig: Key, index: nat)
    | OfApproval(transaction: Key, member: Key)
    | OfVoucher(of: Key)

  /** The seeds the multisig program derives an account's address from. */
  function MultisigKeySeeds(key: MultisigKey): seq<u8> {
    match key
    case OfMultisig(dwallet) => Multi.MultisigSeeds(dwallet)
    case OfTransaction(multisig, index) => Multi.TransactionSeeds(multisig, index)
    case OfApproval(transaction, member) => Multi.ApprovalSeeds(transaction, member)
    case OfVoucher(of) => VoucherSeeds(of)
  }

  datatype VotingKey = OfCouncil(dwallet: Key) | OfProposal(id: Key) | OfVote(id: Key, voter: Key) | OfIdVoucher(id: Key)

  function VotingKeySeeds(key: VotingKey): seq<u8> {
    match key
    case OfCouncil(dwallet) => Vote.CouncilSeeds(dwallet)
    case OfProposal(id) => Vote.ProposalSeeds(id)
    case OfVote(id, voter) => Vote.VoteSeeds(id, voter)
    case OfIdVoucher(id) => VoucherSeeds(id)
  }

  /** No two accounts of the multisig program, of whatever kind, are derived from the same bytes. */
  lemma MultisigKeysDiffer(a: MultisigKey, b: MultisigKey, bump1: u8, bump2: u8)
    requires a.OfTransaction? ==> a.index < 0x1_0000_0000
    requires b.OfTransaction? ==> b.index < 0x1_0000_0000
    requires MultisigKeySeeds(a) + [bump1] == MultisigKeySeeds(b) + [bump2]
    ensures a == b && bump1 == bump2
  {
    var first, second := MultisigKeySeeds(a) + [bump1], MultisigKeySeeds(b) + [bump2];
    assert first[|first| - 1] == bump1 && second[|second| - 1] == bump2;
    match a {
      case OfMultisig(dwallet) => SameKeyAt(first, second, 8, dwallet, b.dwallet);
      case OfTransaction(multisig, index) =>
        SameKeyAt(first, second, 11, multisig, b.multisig);
        assert first[43..47] == LittleEndian(index, 4) && second[43..47] == LittleEndian(b.index, 4);
        Widths();
        LittleEndianRoundTrip(index, 4);
        LittleEndianRoundTrip(b.index, 4);
      case OfApproval(transaction, member) =>
        TwoKeys(Multi.APPROVAL_SEED, transaction, member, b.transaction, b.member, bump1, bump2);
      case OfVoucher(of) => SameKeyAt(first, second, 17, of, b.of);
    }
  }

  /** Nor are two of the voting program. */
  lemma VotingKeysDiffer(a: VotingKey, b: VotingKey, bump1: u8, bump2: u8)
    requires VotingKeySeeds(a) + [bump1] == VotingKeySeeds(b) + [bump2]
    ensures a == b && bump1 == bump2
  {
    var first, second := VotingKeySeeds(a) + [bump1], VotingKeySeeds(b) + [bump2];
    assert first[|first| - 1] == bump1 && second[|second| - 1] == bump2;
    match a {
      case OfCouncil(dwallet) => SameKeyAt(first, second, 7, dwallet, b.dwallet);
      case OfProposal(id) => SameKeyAt(first, second, 8, id, b.id);
      case OfVote(id, voter) => TwoKeys(Vote.VOTE_SEED, id, voter, b.id, b.voter, bump1, bump2);
      case OfIdVoucher(id) => SameKeyAt(first, second, 17, id, b.id);
    }
  }

  lemma TwoKeys(seed: seq<u8>, a1: Key, a2: Key, b1: Key, b2: Key, bump1: u8, bump2: u8)
    requires seed + a1.bytes + a2.bytes + [bump1] == seed + b1.bytes + b2.bytes + [bump2]
    ensures a1 == b1 && a2 == b2
  {
    var first, second := seed + a1.bytes + a2.bytes + [bump1], seed + b1.bytes + b2.bytes + [bump2];
    var n := |seed|;
    assert first[n..n + 32] == a1.bytes && second[n..n + 32] == b1.bytes;
    assert first[n + 32..n + 64] == a2.bytes && second[n + 32..n + 64] == b2.bytes;
  }

  lemma SameKeyAt(a: seq<u8>, b: seq<u8>, at: nat, first: Key, second: Key)
    requires a == b && at + 32 <= |a|
    requires a[at..at + 32] == first.bytes && b[at..at + 32] == second.bytes
    ensures first == second
  {
  }
}
