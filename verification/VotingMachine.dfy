/**
 * The council voting program as a state machine over its decoded accounts
 * (examples/voting/native/src/lib.rs; the Pinocchio program writes the same
 * fields in the same order). Every instruction is atomic: a refusal is
 * `None`, and the state stays.
 */
module VotingMachine {
  import opened Common
  import opened Bytes
  import opened ProgramAddresses
  import opened Governance

  const STATUS_OPEN: u8 := 0
  const STATUS_APPROVED: u8 := 1

  datatype Council = Council(version: u8, dwallet: Key, quorum: nat, members: seq<Key>, bump: u8)

  datatype Proposal = Proposal(
    version: u8, id: Key, dwallet: Key, messageDigest: Key, userPubkey: Key, scheme: nat, creator: Key,
    yes: nat, no: nat, quorum: nat, status: u8, voucherBump: u8, bump: u8)

  datatype VoteRecord = VoteRecord(version: u8, voter: Key, id: Key, vote: u8, bump: u8)

  /**
   * `cast` is bookkeeping, not an account: the proposal account each record
   * was counted on. A record itself holds only the proposal's identifier.
   */
  datatype State = State(
    councils: map<Key, Council>,
    proposals: map<Key, Proposal>,
    records: map<Key, VoteRecord>,
    cast: map<Key, Key>,
    vouchers: map<Key, Voucher>,
    taken: set<Key>)

  const EMPTY: State := State(map[], map[], map[], map[], map[], {})

  // The ASCII bytes of "council", "proposal", "vote".
  const COUNCIL_SEED: seq<u8> := [99, 111, 117, 110, 99, 105, 108]
  const PROPOSAL_SEED: seq<u8> := [112, 114, 111, 112, 111, 115, 97, 108]
  const VOTE_SEED: seq<u8> := [118, 111, 116, 101]

  function CouncilSeeds(dwallet: Key): seq<u8> { COUNCIL_SEED + dwallet.bytes }
  function ProposalSeeds(id: Key): seq<u8> { PROPOSAL_SEED + id.bytes }
  function VoteSeeds(id: Key, voter: Key): seq<u8> { VOTE_SEED + id.bytes + voter.bytes }

  // ── Instructions ─────────────────────────────────────────────────────────

  /** `dwalletOwner` is the owner a real dWallet account of the dWallet program states. */
  datatype CouncilTerms = CouncilTerms(
    account: NewAccount, dwallet: Key, dwalletOwner: Option<Key>, owner: Key, ownerSigns: bool,
    quorum: nat, members: seq<Key>)

  datatype Terms = Terms(
    account: NewAccount, council: Key, dwallet: Key, creator: Key, creatorSigns: bool,
    id: Key, messageDigest: Key, userPubkey: Key, scheme: nat, voucherBump: u8, bump: u8)

  datatype Ballot = Ballot(
    proposal: Key, record: NewAccount, council: Key, voter: Key, voterSigns: bool,
    id: Key, vote: u8, recordBump: u8, call: Option<VoucherCall>)

  datatype Step =
    | CreateCouncil(council: CouncilTerms)
    | CreateProposal(terms: Terms)
    | CastVote(ballot: Ballot)
    | Elsewhere(taken: set<Key>)   // accounts of other programs come and go

  function DoCreateCouncil(p: Program, s: State, t: CouncilTerms): Option<State> {
    var found := p.find(CouncilSeeds(t.dwallet));
    if || !t.ownerSigns
       || |t.members| == 0 || |t.members| > MAX_MEMBERS
       || t.quorum == 0 || t.quorum > |t.members|
       || !Distinct(t.members)
       || t.dwalletOwner != Some(t.owner)
       || found.None? || found.value.0 != t.account.key
       || !MayCreate(p.derive, s.taken, t.account, CouncilSeeds(t.dwallet), found.value.1)
    then None
    else Some(s.(
      councils := s.councils[t.account.key := Council(1, t.dwallet, t.quorum, t.members, found.value.1)],
      taken := s.taken + {t.account.key}))
  }

  /** `verify_council_member`: the council account is the dWallet's, and lists `member`. */
  predicate VerifiedMember(p: Program, s: State, council: Key, dwallet: Key, member: Key) {
    && council in s.councils
    && s.councils[council].dwallet == dwallet
    && p.derive(CouncilSeeds(dwallet) + [s.councils[council].bump]) == Some(council)
    && member in s.councils[council].members
  }

  function NewProposal(t: Terms, quorum: nat): Proposal {
    Proposal(1, t.id, t.dwallet, t.messageDigest, t.userPubkey, t.scheme, t.creator, 0, 0, quorum,
             STATUS_OPEN, t.voucherBump, t.bump)
  }

  function DoCreateProposal(p: Program, s: State, t: Terms): Option<State> {
    if || !t.creatorSigns
       || !VerifiedMember(p, s, t.council, t.dwallet, t.creator)
       || !IsCanonicalBump(p, VoucherSeeds(t.id), t.voucherBump)
       || !IsCanonicalBump(p, ProposalSeeds(t.id), t.bump)
       || !MayCreate(p.derive, s.taken, t.account, ProposalSeeds(t.id), t.bump)
    then None
    else Some(s.(
      proposals := s.proposals[t.account.key := NewProposal(t, s.councils[t.council].quorum)],
      taken := s.taken + {t.account.key}))
  }

  /** What the program asks the dWallet program to issue for a proposal. */
  function VoucherOf(proposal: Proposal): Voucher {
    Voucher(proposal.dwallet, proposal.messageDigest, Key(Zeros(32)), proposal.scheme,
            None, Some(proposal.userPubkey), false)
  }

  /** The proposal with one more vote: 1 is yes, any other byte is no. */
  function Counted(proposal: Proposal, vote: u8): Proposal {
    if vote == 1 then proposal.(yes := proposal.yes + 1) else proposal.(no := proposal.no + 1)
  }

  predicate MayVote(p: Program, s: State, b: Ballot) {
    && b.voterSigns
    && b.proposal in s.proposals
    && s.proposals[b.proposal].status == STATUS_OPEN
    && s.proposals[b.proposal].id == b.id
    && VerifiedMember(p, s, b.council, s.proposals[b.proposal].dwallet, b.voter)
    && IsCanonicalBump(p, VoteSeeds(b.id, b.voter), b.recordBump)
    && MayCreate(p.derive, s.taken, b.record, VoteSeeds(b.id, b.voter), b.recordBump)
  }

  predicate CallFits(p: Program, proposal: Proposal, b: Ballot, taken: set<Key>) {
    && b.call.Some?
    && b.call.value.dwallet == proposal.dwallet
    && p.derive(VoucherSeeds(b.id) + [proposal.voucherBump]) == Some(b.call.value.voucher)
    && b.call.value.accepted
    && b.call.value.voucher !in taken
  }

  /** The quorum is tested after every vote, a no as well as a yes. */
  function DoCastVote(p: Program, s: State, b: Ballot): Option<State> {
    if !MayVote(p, s, b) then None
    else
      var recorded := s.(
        records := s.records[b.record.key := VoteRecord(1, b.voter, b.id, b.vote, b.recordBump)],
        cast := s.cast[b.record.key := b.proposal],
        taken := s.taken + {b.record.key});
      var proposal := s.proposals[b.proposal];
      var counted := Counted(proposal, b.vote);
      if counted.yes >= 0x1_0000_0000 || counted.no >= 0x1_0000_0000 then None
      else if counted.yes < counted.quorum then
        Some(recorded.(proposals := s.proposals[b.proposal := counted]))
      else if !CallFits(p, proposal, b, recorded.taken) then None
      else Some(recorded.(
        proposals := s.proposals[b.proposal := counted.(status := STATUS_APPROVED)],
        vouchers := s.vouchers[b.call.value.voucher := VoucherOf(proposal)],
        taken := recorded.taken + {b.call.value.voucher}))
  }

  /** Other programs create and close accounts of their own, never this program's or a voucher. */
  function DoElsewhere(s: State, taken: set<Key>): Option<State> {
    if s.councils.Keys + s.proposals.Keys + s.records.Keys + s.vouchers.Keys <= taken
    then Some(s.(taken := taken))
    else None
  }

  function Do(p: Program, s: State, step: Step): Option<State> {
    match step
    case CreateCouncil(terms) => DoCreateCouncil(p, s, terms)
    case CreateProposal(terms) => DoCreateProposal(p, s, terms)
    case CastVote(ballot) => DoCastVote(p, s, ballot)
    case Elsewhere(taken) => DoElsewhere(s, taken)
  }

  function After(p: Program, s: State, step: Step): State {
    match Do(p, s, step) case Some(next) => next case None => s
  }

  /** The state after every step of a run, each one atomic. */
  function Run(p: Program, s: State, steps: seq<Step>): State
    decreases |steps|
  {
    if steps == [] then s
    else After(p, Run(p, s, steps[..|steps| - 1]), steps[|steps| - 1])
  }
}
