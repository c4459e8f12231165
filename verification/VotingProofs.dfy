/** What every run of the voting program keeps. */
module VotingProofs {
  import opened Common
  import opened Bytes
  import opened ProgramAddresses
  import opened Governance
  import opened VotingMachine

  /** The records counted on one proposal account as yes, or as no. */
  function Votes(s: State, proposal: Key, yes: bool): set<Key> {
    VotesIn(s.records, s.cast, proposal, yes)
  }

  function VotesIn(records: map<Key, VoteRecord>, cast: map<Key, Key>, proposal: Key, yes: bool): set<Key> {
    set r | r in records && r in cast && cast[r] == proposal && (records[r].vote == 1) == yes
  }

  // ── The invariant ────────────────────────────────────────────────────────

  ghost predicate Housed(s: State) {
    && s.councils.Keys + s.proposals.Keys + s.records.Keys + s.vouchers.Keys <= s.taken
    && s.cast.Keys == s.records.Keys
  }

  /** One council per dWallet, at its canonical address, with sound terms. */
  ghost predicate Governed(p: Program, s: State) {
    forall k <- s.councils :: Sound(p, k, s.councils[k])
  }

  ghost predicate Sound(p: Program, k: Key, c: Council) {
    && 1 <= c.quorum <= |c.members| <= MAX_MEMBERS && Distinct(c.members)
    && p.find(CouncilSeeds(c.dwallet)) == Some((k, c.bump))
  }

  /** The address of the one council a dWallet can have. */
  function CouncilOf(p: Program, dwallet: Key): Option<Key> {
    match p.find(CouncilSeeds(dwallet))
    case Some((key, _)) => Some(key)
    case None => None
  }

  /** A proposal belongs to its dWallet's own council and copies its quorum; open, it has fewer yes votes. */
  ghost predicate ProposalAt(p: Program, s: State, proposal: Proposal) {
    && CouncilOf(p, proposal.dwallet).Some?
    && var k := CouncilOf(p, proposal.dwallet).value;
    && k in s.councils && s.councils[k].dwallet == proposal.dwallet
    && proposal.quorum == s.councils[k].quorum
    && IsCanonicalBump(p, VoucherSeeds(proposal.id), proposal.voucherBump)
    && (if proposal.status == STATUS_OPEN then proposal.yes < proposal.quorum
        else proposal.status == STATUS_APPROVED && proposal.yes == proposal.quorum)
  }

  ghost predicate Proposed(p: Program, s: State) {
    forall k <- s.proposals :: ProposalAt(p, s, s.proposals[k])
  }

  /** A record is of the identifier of the proposal it was counted on, by a member of that dWallet's council. */
  ghost predicate RecordedAt(p: Program, s: State, r: Key)
    requires r in s.records
  {
    && r in s.cast && s.cast[r] in s.proposals
    && var proposal := s.proposals[s.cast[r]];
    && s.records[r].id == proposal.id
    && CouncilOf(p, proposal.dwallet).Some?
    && CouncilOf(p, proposal.dwallet).value in s.councils
    && s.records[r].voter in s.councils[CouncilOf(p, proposal.dwallet).value].members
  }

  ghost predicate Recorded(p: Program, s: State) {
    forall r <- s.records :: RecordedAt(p, s, r)
  }

  ghost predicate Tallied(s: State) {
    forall k <- s.proposals :: TalliedAt(s, k)
  }

  ghost predicate TalliedAt(s: State, k: Key)
    requires k in s.proposals
  {
    s.proposals[k].yes == |Votes(s, k, true)| && s.proposals[k].no == |Votes(s, k, false)|
  }

  /** `v` is the address of the voucher of the approved proposal `k`, and holds its terms. */
  ghost predicate IssuedFor(p: Program, s: State, v: Key, k: Key) {
    && k in s.proposals && s.proposals[k].status == STATUS_APPROVED
    && p.derive(VoucherSeeds(s.proposals[k].id) + [s.proposals[k].voucherBump]) == Some(v)
    && v in s.vouchers && s.vouchers[v] == VoucherOf(s.proposals[k])
  }

  ghost predicate Vouched(p: Program, s: State) {
    && (forall v <- s.vouchers :: exists k :: IssuedFor(p, s, v, k))
    && (forall k <- s.proposals | s.proposals[k].status == STATUS_APPROVED :: exists v :: IssuedFor(p, s, v, k))
    && (forall v, k1, k2 | IssuedFor(p, s, v, k1) && IssuedFor(p, s, v, k2) :: k1 == k2)
  }

  ghost predicate Inv(p: Program, s: State) {
    && Housed(s) && Governed(p, s) && Proposed(p, s) && Recorded(p, s) && Tallied(s) && Vouched(p, s)
  }

  // ── Councils and proposals ───────────────────────────────────────────────

  /** `next` differs from `s` by one new council, one new open proposal, or neither. */
  ghost predicate Adds(p: Program, s: State, next: State) {
    && Housed(next) && Governed(p, next)
    && (forall k <- s.councils :: k in next.councils && next.councils[k] == s.councils[k])
    && (forall k <- s.proposals :: k in next.proposals && next.proposals[k] == s.proposals[k])
    && (forall k <- next.proposals | k !in s.proposals :: NewlyOpen(p, next, next.proposals[k]))
    && next.records == s.records && next.cast == s.cast && next.vouchers == s.vouchers
  }

  ghost predicate NewlyOpen(p: Program, s: State, proposal: Proposal) {
    ProposalAt(p, s, proposal) && proposal.status == STATUS_OPEN && proposal.yes == 0 && proposal.no == 0
  }

  lemma AddingKeepsProposals(p: Program, s: State, next: State)
    requires Inv(p, s) && Adds(p, s, next)
    ensures Proposed(p, next) && Recorded(p, next)
  {
    forall k <- next.proposals ensures ProposalAt(p, next, next.proposals[k]) {
      if k in s.proposals {
        assert ProposalAt(p, s, s.proposals[k]);
      }
    }
    forall r <- next.records ensures RecordedAt(p, next, r) {
      assert RecordedAt(p, s, r);
    }
  }

  lemma AddingKeepsTallies(p: Program, s: State, next: State)
    requires Recorded(p, s) && Tallied(s) && Adds(p, s, next)
    ensures Tallied(next)
  {
    forall k <- next.proposals ensures TalliedAt(next, k) {
      if k in s.proposals {
        assert TalliedAt(s, k);
      } else {
        forall r <- s.records ensures s.cast[r] != k {
          assert RecordedAt(p, s, r);
        }
        assert Votes(next, k, true) == {} && Votes(next, k, false) == {};
      }
    }
  }

  lemma AddingKeepsVouchers(p: Program, s: State, next: State)
    requires Vouched(p, s) && Adds(p, s, next)
    ensures Vouched(p, next)
  {
    forall v, k ensures IssuedFor(p, next, v, k) <==> IssuedFor(p, s, v, k) {}
  }

  lemma AddingKeepsInv(p: Program, s: State, next: State)
    requires Inv(p, s) && Adds(p, s, next)
    ensures Inv(p, next)
  {
    AddingKeepsProposals(p, s, next);
    AddingKeepsTallies(p, s, next);
    AddingKeepsVouchers(p, s, next);
  }

  lemma CreateCouncilAdds(p: Program, s: State, t: CouncilTerms)
    requires Housed(s) && Governed(p, s) && DoCreateCouncil(p, s, t).Some?
    ensures Adds(p, s, DoCreateCouncil(p, s, t).value)
  {
  }

  /** The council a member is verified in is the one at its dWallet's canonical address. */
  lemma VerifiedCouncil(p: Program, s: State, council: Key, dwallet: Key, member: Key)
    requires Governed(p, s) && VerifiedMember(p, s, council, dwallet, member)
    ensures CouncilOf(p, dwallet) == Some(council)
  {
    assert Sound(p, council, s.councils[council]);
  }

  lemma CreateProposalAdds(p: Program, s: State, t: Terms)
    requires Housed(s) && Governed(p, s) && DoCreateProposal(p, s, t).Some?
    ensures Adds(p, s, DoCreateProposal(p, s, t).value)
  {
    VerifiedCouncil(p, s, t.council, t.dwallet, t.creator);
    assert Sound(p, t.council, s.councils[t.council]);
    var next := DoCreateProposal(p, s, t).value;
    assert NewlyOpen(p, next, next.proposals[t.account.key]);
  }

  // ── Votes ────────────────────────────────────────────────────────────────

  /** What a successful vote did, apart from the voucher. */
  ghost predicate Voted(p: Program, s: State, next: State, b: Ballot) {
    && MayVote(p, s, b) && b.record.key !in s.records && Housed(next)
    && next.councils == s.councils
    && next.records == s.records[b.record.key := VoteRecord(1, b.voter, b.id, b.vote, b.recordBump)]
    && next.cast == s.cast[b.record.key := b.proposal]
    && b.proposal in next.proposals
    && var after := next.proposals[b.proposal];
    && next.proposals == s.proposals[b.proposal := after]
    && after == Counted(s.proposals[b.proposal], b.vote).(status := after.status)
    && (after.status == STATUS_OPEN <==> after.yes < after.quorum)
    && (after.status == STATUS_OPEN || after.status == STATUS_APPROVED)
  }

  lemma CastVoteVotes(p: Program, s: State, b: Ballot)
    requires Housed(s) && DoCastVote(p, s, b).Some?
    ensures Voted(p, s, DoCastVote(p, s, b).value, b)
  {
  }

  lemma VoteKeepsProposals(p: Program, s: State, next: State, b: Ballot)
    requires Proposed(p, s) && Voted(p, s, next, b)
    ensures Proposed(p, next)
  {
    forall k <- next.proposals ensures ProposalAt(p, next, next.proposals[k]) {
      assert ProposalAt(p, s, s.proposals[k]);
    }
  }

  lemma VoteKeepsRecords(p: Program, s: State, next: State, b: Ballot)
    requires Governed(p, s) && Recorded(p, s) && Voted(p, s, next, b)
    ensures Recorded(p, next)
  {
    VerifiedCouncil(p, s, b.council, s.proposals[b.proposal].dwallet, b.voter);
    forall r <- next.records ensures RecordedAt(p, next, r) {
      if r != b.record.key {
        assert RecordedAt(p, s, r);
      }
    }
  }

  lemma OneMoreVoteAt(records: map<Key, VoteRecord>, cast: map<Key, Key>, r: Key, record: VoteRecord,
                      k: Key, proposal: Key, yes: bool)
    requires r !in records
    ensures |VotesIn(records[r := record], cast[r := proposal], k, yes)| ==
              |VotesIn(records, cast, k, yes)| + if k == proposal && yes == (record.vote == 1) then 1 else 0
  {
    NewVoteIn(records, cast, r, record, k, proposal, yes);
  }

  lemma NewVoteIn(records: map<Key, VoteRecord>, cast: map<Key, Key>, r: Key, record: VoteRecord,
                  k: Key, proposal: Key, yes: bool)
    requires r !in records
    ensures VotesIn(records[r := record], cast[r := proposal], k, yes) ==
              VotesIn(records, cast, k, yes) + if k == proposal && yes == (record.vote == 1) then {r} else {}
    ensures r !in VotesIn(records, cast, k, yes)
  {
  }

  lemma VoteKeepsTallies(p: Program, s: State, next: State, b: Ballot)
    requires Tallied(s) && Voted(p, s, next, b)
    ensures Tallied(next)
  {
    forall k <- next.proposals ensures TalliedAt(next, k) {
      assert TalliedAt(s, k);
      var r := b.record.key;
      OneMoreVoteAt(s.records, s.cast, r, next.records[r], k, b.proposal, true);
      OneMoreVoteAt(s.records, s.cast, r, next.records[r], k, b.proposal, false);
    }
  }

  /** A vote leaves the proposal open and the vouchers alone, or issues the proposal's voucher at an empty address. */
  ghost predicate VoteOutcome(p: Program, s: State, next: State, b: Ballot) {
    && b.proposal in s.proposals && s.proposals[b.proposal].status == STATUS_OPEN
    && b.proposal in next.proposals
    && next.proposals == s.proposals[b.proposal := next.proposals[b.proposal]]
    && if next.proposals[b.proposal].status == STATUS_OPEN then next.vouchers == s.vouchers
       else exists v :: NewlyIssued(p, s, next, v, b.proposal)
  }

  ghost predicate NewlyIssued(p: Program, s: State, next: State, v: Key, k: Key) {
    && v !in s.vouchers && v in next.vouchers && next.vouchers == s.vouchers[v := next.vouchers[v]]
    && IssuedFor(p, next, v, k)
  }

  lemma CastVoteOutcome(p: Program, s: State, b: Ballot)
    requires Housed(s) && DoCastVote(p, s, b).Some?
    ensures VoteOutcome(p, s, DoCastVote(p, s, b).value, b)
  {
    var next := DoCastVote(p, s, b).value;
    if next.proposals[b.proposal].status != STATUS_OPEN {
      assert NewlyIssued(p, s, next, b.call.value.voucher, b.proposal);
    }
  }

  /** An approved proposal's voucher is at its own address already, so that address was not empty. */
  lemma OtherVouchersStay(p: Program, s: State, next: State, b: Ballot, v: Key, x: Key, k: Key)
    requires Vouched(p, s) && VoteOutcome(p, s, next, b) && NewlyIssued(p, s, next, v, b.proposal) && k != b.proposal
    ensures IssuedFor(p, next, x, k) <==> IssuedFor(p, s, x, k)
    ensures IssuedFor(p, next, x, k) ==> x != v
  {
    if k in s.proposals && s.proposals[k].status == STATUS_APPROVED {
      var other :| IssuedFor(p, s, other, k);
      assert other != v;
    }
  }

  lemma VoteKeepsVouchers(p: Program, s: State, next: State, b: Ballot)
    requires Vouched(p, s) && VoteOutcome(p, s, next, b)
    ensures Vouched(p, next)
  {
    if next.proposals[b.proposal].status == STATUS_OPEN {
      forall v, k ensures IssuedFor(p, next, v, k) <==> IssuedFor(p, s, v, k) {}
    } else {
      var v :| NewlyIssued(p, s, next, v, b.proposal);
      NewVoucher(p, s, next, b, v);
    }
  }

  lemma NewVoucher(p: Program, s: State, next: State, b: Ballot, v: Key)
    requires Vouched(p, s) && VoteOutcome(p, s, next, b) && NewlyIssued(p, s, next, v, b.proposal)
    ensures Vouched(p, next)
  {
    forall x, k | k != b.proposal
      ensures (IssuedFor(p, next, x, k) <==> IssuedFor(p, s, x, k)) && (IssuedFor(p, next, x, k) ==> x != v)
    {
      OtherVouchersStay(p, s, next, b, v, x, k);
    }
    OneProposalEach(p, s, next, b.proposal, v);
    EveryVoucher(p, s, next, b.proposal, v);
    EveryApproved(p, s, next, b.proposal, v);
  }

  /** Apart from `k` and its new voucher `v`, the same vouchers belong to the same proposals. */
  ghost predicate SameElsewhere(p: Program, s: State, next: State, k: Key, v: Key) {
    forall x, y | y != k :: (IssuedFor(p, next, x, y) <==> IssuedFor(p, s, x, y)) && (IssuedFor(p, next, x, y) ==> x != v)
  }

  lemma OneProposalEach(p: Program, s: State, next: State, k: Key, v: Key)
    requires Vouched(p, s) && NewlyIssued(p, s, next, v, k) && SameElsewhere(p, s, next, k, v)
    ensures forall x, y1, y2 | IssuedFor(p, next, x, y1) && IssuedFor(p, next, x, y2) :: y1 == y2
  {
    forall x, y1, y2 | IssuedFor(p, next, x, y1) && IssuedFor(p, next, x, y2) ensures y1 == y2 {
      if y1 != k && y2 != k {
        assert IssuedFor(p, s, x, y1) && IssuedFor(p, s, x, y2);
      }
    }
  }

  lemma EveryVoucher(p: Program, s: State, next: State, k: Key, v: Key)
    requires Vouched(p, s) && NewlyIssued(p, s, next, v, k) && SameElsewhere(p, s, next, k, v)
    requires k in s.proposals && s.proposals[k].status == STATUS_OPEN
    ensures forall x <- next.vouchers :: exists y :: IssuedFor(p, next, x, y)
  {
    forall x <- next.vouchers ensures exists y :: IssuedFor(p, next, x, y) {
      if x != v {
        var y :| IssuedFor(p, s, x, y);
        assert IssuedFor(p, next, x, y);
      }
    }
  }

  lemma EveryApproved(p: Program, s: State, next: State, k: Key, v: Key)
    requires Vouched(p, s) && NewlyIssued(p, s, next, v, k) && SameElsewhere(p, s, next, k, v)
    requires next.proposals.Keys == s.proposals.Keys && forall y <- s.proposals | y != k :: next.proposals[y] == s.proposals[y]
    ensures forall y <- next.proposals | next.proposals[y].status == STATUS_APPROVED :: exists x :: IssuedFor(p, next, x, y)
  {
    forall y <- next.proposals | next.proposals[y].status == STATUS_APPROVED ensures exists x :: IssuedFor(p, next, x, y) {
      if y != k {
        var x :| IssuedFor(p, s, x, y);
        assert IssuedFor(p, next, x, y);
      }
    }
  }

  lemma VoteKeepsInv(p: Program, s: State, b: Ballot)
    requires Inv(p, s) && DoCastVote(p, s, b).Some?
    ensures Inv(p, DoCastVote(p, s, b).value)
  {
    var next := DoCastVote(p, s, b).value;
    CastVoteVotes(p, s, b);
    CastVoteOutcome(p, s, b);
    VoteKeepsAll(p, s, next, b);
  }

  lemma VoteKeepsAll(p: Program, s: State, next: State, b: Ballot)
    requires Inv(p, s) && Voted(p, s, next, b) && VoteOutcome(p, s, next, b)
    ensures Inv(p, next)
  {
    VoteKeepsProposals(p, s, next, b);
    VoteKeepsRecords(p, s, next, b);
    VoteKeepsTallies(p, s, next, b);
    VoteKeepsVouchers(p, s, next, b);
  }

  lemma StepKeepsInv(p: Program, s: State, step: Step)
    requires Inv(p, s)
    ensures Inv(p, After(p, s, step))
  {
    if Do(p, s, step).Some? {
      match step
      case CreateCouncil(t) =>
        CreateCouncilAdds(p, s, t);
        AddingKeepsInv(p, s, After(p, s, step));
      case CreateProposal(t) =>
        CreateProposalAdds(p, s, t);
        AddingKeepsInv(p, s, After(p, s, step));
      case CastVote(b) => VoteKeepsInv(p, s, b);
      case Elsewhere(_) => AddingKeepsInv(p, s, After(p, s, step));
    }
  }

  lemma {:induction false} RunKeepsInv(p: Program, s: State, steps: seq<Step>)
    requires Inv(p, s)
    ensures Inv(p, Run(p, s, steps))
    decreases |steps|
  {
    if steps != [] {
      RunKeepsInv(p, s, steps[..|steps| - 1]);
      StepKeepsInv(p, Run(p, s, steps[..|steps| - 1]), steps[|steps| - 1]);
    }
  }

  lemma EmptyIsSound(p: Program)
    ensures Inv(p, EMPTY)
  {
  }
}
