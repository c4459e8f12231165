/**
 * The voting program over typed accounts
 * (examples/voting/anchor/src/lib.rs). The framework checks every account an
 * instruction is given, the addresses of the proposal and of a new record
 * included, before the handler assigns the accounts' fields. Its runs are
 * runs of the machine in which no new account signs, so distinct voters and
 * one proposal per identifier need no condition here.
 */
module VotingAnchor {
  import opened Common
  import opened Bytes
  import opened Accounts
  import opened ProgramAddresses
  import opened Governance
  import opened VotingMachine
  import opened VotingProofs
  import opened VotingTheorems
  import Steps = VotingLedger

  /** No two identifiers have one proposal address. */
  ghost predicate ProposalsApart(p: Program) {
    forall a, b | ProposalAddress(p, a).Some? && ProposalAddress(p, a) == ProposalAddress(p, b) :: a == b
  }

  /** A sound council is at its own canonical address. */
  lemma SoundIsVerified(derive: Derive, s: State, council: Key, dwallet: Key, member: Key)
    requires Governed(ProgramOf(derive), s) && council in s.councils
    ensures VerifiedMember(ProgramOf(derive), s, council, dwallet, member) <==>
              s.councils[council].dwallet == dwallet && member in s.councils[council].members
  {
    assert Sound(ProgramOf(derive), council, s.councils[council]);
    ProgramOfIsCoherent(derive);
  }

  predicate NoAccountSigns(steps: seq<Step>) {
    forall step <- steps ::
      match step
      case CreateCouncil(t) => !t.account.signs
      case CreateProposal(t) => !t.account.signs
      case CastVote(b) => !b.record.signs
      case Elsewhere(_) => true
  }

  class AnchorProgram {
    const derive: Derive
    var councils: map<Key, Council>
    var proposals: map<Key, Proposal>
    var records: map<Key, VoteRecord>
    var vouchers: map<Key, Voucher>
    var taken: set<Key>
    ghost var cast: map<Key, Key>
    ghost var history: seq<Step>

    ghost function Accounts(): State
      reads this
    {
      State(councils, proposals, records, cast, vouchers, taken)
    }

    ghost predicate Valid() reads this {
      && ProposalsApart(ProgramOf(derive))
      && Accounts() == Run(ProgramOf(derive), EMPTY, history) && NoAccountSigns(history)
    }

    constructor (derive: Derive)
      requires ProposalsApart(ProgramOf(derive))
      ensures Valid() && history == [] && Accounts() == EMPTY
    {
      this.derive := derive;
      councils, proposals, records, vouchers, taken, cast, history := map[], map[], map[], map[], {}, map[], [];
    }

    /** The invariant, and every proposal at the address of its identifier. */
    lemma IsSound()
      requires Valid()
      ensures Inv(ProgramOf(derive), Accounts()) && ProposalsAddressed(ProgramOf(derive), Accounts())
    {
      ProgramOfIsCoherent(derive);
      ReachedIsSound(ProgramOf(derive), history);
      assert NoProposalSigns(history);
      RunHasAddressedProposals(ProgramOf(derive), history);
    }

    /** The handler returned: every field it assigned is kept. */
    method Exit(ghost step: Step, ghost next: State, councils: map<Key, Council>, proposals: map<Key, Proposal>,
                records: map<Key, VoteRecord>, vouchers: map<Key, Voucher>, taken: set<Key>)
      requires Valid() && Do(ProgramOf(derive), Accounts(), step) == Some(next) && NoAccountSigns([step])
      requires next == State(councils, proposals, records, next.cast, vouchers, taken)
      modifies this
      ensures Valid() && Accounts() == next && history == old(history) + [step]
    {
      Steps.RunOneMore(ProgramOf(derive), history, step, Accounts(), next);
      assert step in [step];
      this.councils, this.proposals, this.records, this.vouchers := councils, proposals, records, vouchers;
      this.taken, cast, history := taken, next.cast, history + [step];
    }

    method CreateCouncil(council: Key, dwallet: Key, dwalletOwner: Option<Key>, owner: Key, ownerSigns: bool,
                         quorum: nat, members: seq<Key>)
      returns (outcome: Outcome)
      requires Valid()
      modifies this
      ensures Valid()
      ensures
        var t := CouncilTerms(NewAccount(council, false), dwallet, dwalletOwner, owner, ownerSigns, quorum, members);
        var next := DoCreateCouncil(ProgramOf(derive), old(Accounts()), t);
        && (outcome.Done? <==> next.Some?)
        && (outcome.Done? ==> Accounts() == next.value && history == old(history) + [VotingMachine.CreateCouncil(t)])
      ensures outcome.Refused? ==> Accounts() == old(Accounts()) && history == old(history)
    {
      ghost var t := CouncilTerms(NewAccount(council, false), dwallet, dwalletOwner, owner, ownerSigns, quorum, members);
      Steps.CreateCouncilIs(ProgramOf(derive), Accounts(), t);
      if !ownerSigns {
        return Refused(MissingRequiredSignature);
      }
      var bump := InitAddress(derive, taken, council, CouncilSeeds(dwallet));
      if bump.None? {
        InitRefused(derive, taken, council, dwallet);
        return Refused(AccountNotCreated);
      }
      if members == [] || |members| > MAX_MEMBERS || quorum == 0 || quorum > |members| {
        return Refused(InvalidTerms);
      }
      var duplicate := HasDuplicate(members);
      if duplicate {
        return Refused(DuplicateMember);
      }
      if dwalletOwner != Some(owner) {
        return Refused(NotDWalletOwner);
      }
      ghost var next := DoCreateCouncil(ProgramOf(derive), Accounts(), t).value;
      Exit(VotingMachine.CreateCouncil(t), next,
           councils[council := Council(1, dwallet, quorum, members, bump.value)], proposals, records, vouchers, taken + {council});
      return Done;
    }

    method CreateProposal(proposal: Key, council: Key, dwallet: Key, creator: Key, creatorSigns: bool,
                          id: Key, messageDigest: Key, userPubkey: Key, scheme: nat, voucherBump: u8)
      returns (outcome: Outcome)
      requires Valid()
      modifies this
      ensures Valid()
      ensures
        var t := Terms(NewAccount(proposal, false), council, dwallet, creator, creatorSigns, id, messageDigest, userPubkey,
                       scheme, voucherBump, BumpOf(ProgramOf(derive), ProposalSeeds(id)));
        var next := DoCreateProposal(ProgramOf(derive), old(Accounts()), t);
        && (outcome.Done? <==> next.Some?)
        && (outcome.Done? ==> Accounts() == next.value && history == old(history) + [VotingMachine.CreateProposal(t)])
      ensures outcome.Refused? ==> Accounts() == old(Accounts()) && history == old(history)
    {
      ghost var t := Terms(NewAccount(proposal, false), council, dwallet, creator, creatorSigns, id, messageDigest, userPubkey,
                           scheme, voucherBump, BumpOf(ProgramOf(derive), ProposalSeeds(id)));
      Steps.CreateProposalIs(ProgramOf(derive), Accounts(), t);
      if !creatorSigns {
        return Refused(MissingRequiredSignature);
      }
      var bump := InitAddress(derive, taken, proposal, ProposalSeeds(id));
      if bump.None? {
        return Refused(AccountNotCreated);
      }
      if council !in councils {
        return Refused(InvalidParent);
      }
      IsSound();
      SoundIsVerified(derive, Accounts(), council, dwallet, creator);
      if councils[council].dwallet != dwallet || creator !in councils[council].members {
        return Refused(NotAMember);
      }
      var canonical := RequireCanonicalBump(derive, VoucherSeeds(id), voucherBump);
      if !canonical {
        return Refused(InvalidVoucherBump);
      }
      var made := Proposal(1, id, dwallet, messageDigest, userPubkey, scheme, creator, 0, 0, councils[council].quorum,
                           STATUS_OPEN, voucherBump, bump.value);
      ghost var next := DoCreateProposal(ProgramOf(derive), Accounts(), t).value;
      Exit(VotingMachine.CreateProposal(t), next, councils, proposals[proposal := made], records, vouchers, taken + {proposal});
      return Done;
    }

    /** The constraints on a vote's accounts: each at its address, the voter a member of the proposal's council. */
    method CheckAccounts(proposal: Key, record: Key, council: Key, voter: Key, voterSigns: bool, id: Key)
      returns (outcome: Outcome, bump: u8)
      requires Valid()
      ensures
        var p, s := ProgramOf(derive), Accounts();
        outcome.Done? <==>
          && voterSigns && proposal in proposals && proposals[proposal].id == id
          && VerifiedMember(p, s, council, proposals[proposal].dwallet, voter)
          && IsCanonicalBump(p, VoteSeeds(id, voter), BumpOf(p, VoteSeeds(id, voter)))
          && MayCreate(derive, taken, NewAccount(record, false), VoteSeeds(id, voter), BumpOf(p, VoteSeeds(id, voter)))
      ensures outcome.Done? ==> bump == BumpOf(ProgramOf(derive), VoteSeeds(id, voter))
    {
      IsSound();
      if !voterSigns {
        return Refused(MissingRequiredSignature), 0;
      }
      if proposal !in proposals {
        return Refused(InvalidAccountData), 0;
      }
      var found := FindProgramAddress(derive, ProposalSeeds(id));
      if found.None? || found.value.0 != proposal {
        return Refused(WrongParent), 0;
      }
      assert ProposalAddress(ProgramOf(derive), id) == ProposalAddress(ProgramOf(derive), proposals[proposal].id);
      var created := InitAddress(derive, taken, record, VoteSeeds(id, voter));
      if created.None? {
        return Refused(AccountNotCreated), 0;
      }
      if council !in councils {
        return Refused(InvalidParent), 0;
      }
      SoundIsVerified(derive, Accounts(), council, proposals[proposal].dwallet, voter);
      if councils[council].dwallet != proposals[proposal].dwallet || voter !in councils[council].members {
        return Refused(NotAMember), 0;
      }
      return Done, created.value;
    }

    /** Every vote is given the voucher's accounts, and their addresses are checked below the quorum too. */
    method CastVote(proposal: Key, record: Key, council: Key, voter: Key, voterSigns: bool, id: Key, vote: bool, call: VoucherCall)
      returns (outcome: Outcome)
      requires Valid()
      modifies this
      ensures Valid()
      ensures
        var b := BallotOf(ProgramOf(derive), proposal, record, council, voter, voterSigns, id, vote, call);
        var next := DoCastVote(ProgramOf(derive), old(Accounts()), b);
        && (outcome.Done? <==> next.Some? && CallAddressed(ProgramOf(derive), old(Accounts()), b))
        && (outcome.Done? ==> Accounts() == next.value && history == old(history) + [VotingMachine.CastVote(b)])
      ensures outcome.Refused? ==> Accounts() == old(Accounts()) && history == old(history)
    {
      ghost var b := BallotOf(ProgramOf(derive), proposal, record, council, voter, voterSigns, id, vote, call);
      Steps.CastVoteIs(ProgramOf(derive), Accounts(), b);
      var bump;
      outcome, bump := CheckAccounts(proposal, record, council, voter, voterSigns, id);
      if outcome.Refused? {
        return;
      }
      var before := proposals[proposal];
      if derive(VoucherSeeds(id) + [before.voucherBump]) != Some(call.voucher) {
        return Refused(VoucherMismatch);
      }
      if call.dwallet != before.dwallet {
        return Refused(DWalletMismatch);
      }
      if before.status != STATUS_OPEN {
        return Refused(NotActive);
      }
      var counted := if vote then before.(yes := before.yes + 1) else before.(no := before.no + 1);
      if counted.yes >= 0x1_0000_0000 || counted.no >= 0x1_0000_0000 {
        return Refused(ArithmeticOverflow);
      }
      var issued, spent := vouchers, taken + {record};
      if counted.yes >= counted.quorum {
        if !call.accepted || call.voucher in spent {
          return Refused(CallFailed);
        }
        issued, spent := issued[call.voucher := VoucherOf(before)], spent + {call.voucher};
        counted := counted.(status := STATUS_APPROVED);
      }
      ghost var next := DoCastVote(ProgramOf(derive), Accounts(), b).value;
      Exit(VotingMachine.CastVote(b), next, councils, proposals[proposal := counted],
           records[record := VoteRecord(1, voter, id, if vote then 1 else 0, bump)], issued, spent);
    }
  }

  function BallotOf(p: Program, proposal: Key, record: Key, council: Key, voter: Key, voterSigns: bool, id: Key, vote: bool,
                    call: VoucherCall): Ballot
  {
    Ballot(proposal, NewAccount(record, false), council, voter, voterSigns, id, if vote then 1 else 0,
           BumpOf(p, VoteSeeds(id, voter)), Some(call))
  }

  /** The voucher and the dWallet of a vote are the proposal's own. */
  ghost predicate CallAddressed(p: Program, s: State, b: Ballot) {
    && b.call.Some? && b.proposal in s.proposals
    && p.derive(VoucherSeeds(b.id) + [s.proposals[b.proposal].voucherBump]) == Some(b.call.value.voucher)
    && b.call.value.dwallet == s.proposals[b.proposal].dwallet
  }

  lemma InitRefused(derive: Derive, taken: set<Key>, key: Key, dwallet: Key)
    requires
      var p, seeds := ProgramOf(derive), CouncilSeeds(dwallet);
      !(IsCanonicalBump(p, seeds, BumpOf(p, seeds)) && MayCreate(derive, taken, NewAccount(key, false), seeds, BumpOf(p, seeds)))
    ensures
      var found := ProgramOf(derive).find(CouncilSeeds(dwallet));
      found.None? || found.value.0 != key || !MayCreate(derive, taken, NewAccount(key, false), CouncilSeeds(dwallet), found.value.1)
  {
  }

  /**
   * In the Anchor program, without any condition: an identifier has one
   * proposal, its counts are those of all the records that name it, and they
   * are by distinct members of its dWallet's council.
   */
  lemma AnchorVotersDiffer(program: AnchorProgram, k: Key)
    requires program.Valid() && k in program.proposals
    ensures
      var s := program.Accounts();
      var id := s.proposals[k].id;
      && ByDistinctVoters(s, k) && OfItsCouncil(ProgramOf(program.derive), s, k)
      && (forall other <- s.proposals | s.proposals[other].id == id :: other == k)
      && s.proposals[k].yes == |set r | r in s.records && s.records[r].id == id && s.records[r].vote == 1|
      && s.proposals[k].no == |set r | r in s.records && s.records[r].id == id && s.records[r].vote != 1|
  {
    ProgramOfIsCoherent(program.derive);
    assert NoRecordSigns(program.history) && NoProposalSigns(program.history);
    DistinctVoters(ProgramOf(program.derive), program.history, k);
    RecordsOfTheIdentifier(ProgramOf(program.derive), program.history, k);
  }
}
