/** What the council voting program promises, over every run from an empty chain. */
module VotingTheorems {
  import opened Common
  import opened Bytes
  import opened ProgramAddresses
  import opened Governance
  import opened VotingMachine
  import opened VotingProofs

  function Reached(p: Program, steps: seq<Step>): State {
    Run(p, EMPTY, steps)
  }

  lemma ReachedIsSound(p: Program, steps: seq<Step>)
    ensures Inv(p, Reached(p, steps))
  {
    EmptyIsSound(p);
    RunKeepsInv(p, EMPTY, steps);
  }

  // ── Vouchers ─────────────────────────────────────────────────────────────

  /**
   * The voucher at `v` is the proposal account `k`'s: it carries its dWallet,
   * digest, scheme and key, and exactly the quorum of yes records, of members
   * of that dWallet's own council, were counted on it.
   */
  ghost predicate VoucherComesFrom(p: Program, s: State, v: Key, k: Key) {
    && IssuedFor(p, s, v, k)
    && var proposal, voucher := s.proposals[k], s.vouchers[v];
    && CouncilOf(p, voucher.dwallet).Some? && CouncilOf(p, voucher.dwallet).value in s.councils
    && var council := s.councils[CouncilOf(p, voucher.dwallet).value];
    && council.dwallet == voucher.dwallet == proposal.dwallet
    && voucher.messageDigest == proposal.messageDigest && voucher.scheme == proposal.scheme
    && voucher.signingKey == Some(proposal.userPubkey) && voucher.owner.None? && !voucher.future
    && voucher.metadataDigest == Key(Zeros(32))
    && |Votes(s, k, true)| == council.quorum
    && forall r <- Votes(s, k, true) ::
         s.records[r].vote == 1 && s.records[r].id == proposal.id && s.records[r].voter in council.members
  }

  lemma VoucherSoundness(p: Program, steps: seq<Step>, v: Key)
    requires v in Reached(p, steps).vouchers
    ensures exists k :: VoucherComesFrom(p, Reached(p, steps), v, k)
    ensures forall k1, k2 | VoucherComesFrom(p, Reached(p, steps), v, k1)
                         && VoucherComesFrom(p, Reached(p, steps), v, k2) :: k1 == k2
  {
    var s := Reached(p, steps);
    ReachedIsSound(p, steps);
    var k :| IssuedFor(p, s, v, k);
    IssuedComesFrom(p, s, v, k);
  }

  lemma IssuedComesFrom(p: Program, s: State, v: Key, k: Key)
    requires Proposed(p, s) && Recorded(p, s) && Tallied(s) && IssuedFor(p, s, v, k)
    ensures VoucherComesFrom(p, s, v, k)
  {
    assert ProposalAt(p, s, s.proposals[k]) && TalliedAt(s, k);
    forall r <- Votes(s, k, true) ensures RecordedAt(p, s, r) {}
  }

  /** A proposal is approved exactly when it has a voucher, and then exactly one. */
  lemma OneVoucherEach(p: Program, steps: seq<Step>, k: Key)
    requires k in Reached(p, steps).proposals
    ensures
      var s := Reached(p, steps);
      && (s.proposals[k].status == STATUS_APPROVED <==> exists v :: IssuedFor(p, s, v, k))
      && forall v1, v2 | IssuedFor(p, s, v1, k) && IssuedFor(p, s, v2, k) :: v1 == v2
  {
    ReachedIsSound(p, steps);
  }

  /** Two proposal accounts of one identifier are never both approved: they share the voucher's address. */
  lemma OneApprovalPerIdentifier(p: Program, steps: seq<Step>, k1: Key, k2: Key)
    requires k1 in Reached(p, steps).proposals && k2 in Reached(p, steps).proposals
    requires
      var s := Reached(p, steps);
      && s.proposals[k1].status == s.proposals[k2].status == STATUS_APPROVED
      && s.proposals[k1].id == s.proposals[k2].id
    ensures k1 == k2
  {
    ReachedIsSound(p, steps);
    var s := Reached(p, steps);
    var v1 :| IssuedFor(p, s, v1, k1);
    var v2 :| IssuedFor(p, s, v2, k2);
    assert ProposalAt(p, s, s.proposals[k1]) && ProposalAt(p, s, s.proposals[k2]);
  }

  // ── The decision ─────────────────────────────────────────────────────────

  /** The counts are those of the records; open means fewer yes votes than the quorum, approved exactly as many. */
  lemma Decision(p: Program, steps: seq<Step>, k: Key)
    requires k in Reached(p, steps).proposals
    ensures
      var s := Reached(p, steps);
      var proposal := s.proposals[k];
      && proposal.yes == |Votes(s, k, true)| && proposal.no == |Votes(s, k, false)|
      && 1 <= proposal.quorum <= MAX_MEMBERS
      && (proposal.status == STATUS_OPEN <==> proposal.yes < proposal.quorum)
      && (proposal.status == STATUS_APPROVED <==> proposal.yes == proposal.quorum)
  {
    ReachedIsSound(p, steps);
    var s := Reached(p, steps);
    assert ProposalAt(p, s, s.proposals[k]) && TalliedAt(s, k);
    assert Sound(p, CouncilOf(p, s.proposals[k].dwallet).value, s.councils[CouncilOf(p, s.proposals[k].dwallet).value]);
  }

  /**
   * The quorum is tested after every vote, yet in no reachable state does a
   * vote other than yes approve the proposal or issue a voucher.
   */
  lemma OnlyAYesIssues(p: Program, steps: seq<Step>, b: Ballot)
    requires DoCastVote(p, Reached(p, steps), b).Some? && b.vote != 1
    ensures
      var s, next := Reached(p, steps), DoCastVote(p, Reached(p, steps), b).value;
      && next.vouchers == s.vouchers
      && next.proposals[b.proposal] == s.proposals[b.proposal].(no := s.proposals[b.proposal].no + 1)
      && next.proposals[b.proposal].status == STATUS_OPEN
  {
    ReachedIsSound(p, steps);
    ANoIssuesNothing(p, Reached(p, steps), b);
  }

  lemma ANoIssuesNothing(p: Program, s: State, b: Ballot)
    requires Proposed(p, s) && DoCastVote(p, s, b).Some? && b.vote != 1
    ensures
      var next := DoCastVote(p, s, b).value;
      && next.vouchers == s.vouchers
      && next.proposals[b.proposal] == s.proposals[b.proposal].(no := s.proposals[b.proposal].no + 1)
      && next.proposals[b.proposal].status == STATUS_OPEN
  {
    assert ProposalAt(p, s, s.proposals[b.proposal]);
  }

  /** An approved proposal never changes again. */
  lemma {:induction false} ApprovedIsFinal(p: Program, s: State, steps: seq<Step>, k: Key)
    requires Inv(p, s) && k in s.proposals && s.proposals[k].status == STATUS_APPROVED
    ensures k in Run(p, s, steps).proposals && Run(p, s, steps).proposals[k] == s.proposals[k]
    decreases |steps|
  {
    if steps != [] {
      var earlier := steps[..|steps| - 1];
      ApprovedIsFinal(p, s, earlier, k);
      RunKeepsInv(p, s, earlier);
      StepKeepsProposal(p, Run(p, s, earlier), steps[|steps| - 1], k);
    }
  }

  /** The proposal at `k` is as it was, but for more votes; councils are as they were. */
  ghost predicate Continues(s: State, next: State, k: Key)
    requires k in s.proposals
  {
    && k in next.proposals
    && (s.proposals[k].status != STATUS_OPEN ==> next.proposals[k] == s.proposals[k])
    && next.proposals[k].no >= s.proposals[k].no
    && next.proposals[k].dwallet == s.proposals[k].dwallet && next.proposals[k].quorum == s.proposals[k].quorum
    && KeepsCouncils(s.councils, next.councils)
  }

  ghost predicate KeepsCouncils(before: map<Key, Council>, after: map<Key, Council>) {
    forall c <- before :: c in after && after[c] == before[c]
  }

  /** A step only adds to a proposal's counts, and to none that is not open. */
  lemma StepKeepsProposal(p: Program, s: State, step: Step, k: Key)
    requires Housed(s) && k in s.proposals
    ensures Continues(s, After(p, s, step), k)
  {
  }

  // ── Records at their derived addresses ───────────────────────────────────

  ghost predicate Addressed(p: Program, s: State) {
    forall r <- s.records :: RecordAddress(p, s.records[r].id, s.records[r].voter) == Some(r)
  }

  function RecordAddress(p: Program, id: Key, voter: Key): Option<Key> {
    match p.find(VoteSeeds(id, voter))
    case Some((key, _)) => Some(key)
    case None => None
  }

  function ProposalAddress(p: Program, id: Key): Option<Key> {
    match p.find(ProposalSeeds(id))
    case Some((key, _)) => Some(key)
    case None => None
  }

  /** A vote keeps every record at its derived address exactly when its own record account is the derived one. */
  lemma VoteKeepsAddressed(p: Program, s: State, b: Ballot)
    requires Housed(s) && Addressed(p, s) && DoCastVote(p, s, b).Some?
    ensures Addressed(p, DoCastVote(p, s, b).value) <==> RecordAddress(p, b.id, b.voter) == Some(b.record.key)
  {
    CastVoteVotes(p, s, b);
    OneMoreAddressed(p, s, DoCastVote(p, s, b).value, b);
  }

  lemma OneMoreAddressed(p: Program, s: State, next: State, b: Ballot)
    requires Addressed(p, s) && Voted(p, s, next, b)
    ensures Addressed(p, next) <==> RecordAddress(p, b.id, b.voter) == Some(b.record.key)
  {
    assert b.record.key in next.records;
  }

  predicate NoRecordSigns(steps: seq<Step>) {
    forall step <- steps | step.CastVote? :: !step.ballot.record.signs
  }

  predicate NoProposalSigns(steps: seq<Step>) {
    forall step <- steps | step.CreateProposal? :: !step.terms.account.signs
  }

  lemma {:induction false} RunIsAddressed(p: Program, steps: seq<Step>)
    requires Coherent(p) && NoRecordSigns(steps)
    ensures Addressed(p, Reached(p, steps))
    decreases |steps|
  {
    if steps != [] {
      var earlier := steps[..|steps| - 1];
      RunIsAddressed(p, earlier);
      ReachedIsSound(p, earlier);
      StepKeepsAddressed(p, Reached(p, earlier), steps[|steps| - 1]);
    }
  }

  lemma StepKeepsAddressed(p: Program, s: State, step: Step)
    requires Coherent(p) && Housed(s) && Addressed(p, s) && (step.CastVote? ==> !step.ballot.record.signs)
    ensures Addressed(p, After(p, s, step))
  {
    if step.CastVote? && Do(p, s, step).Some? {
      assert p.find(VoteSeeds(step.ballot.id, step.ballot.voter)).Some?;
      VoteKeepsAddressed(p, s, step.ballot);
    }
  }

  /** The voters a set of records names. */
  function VotersOf(s: State, records: set<Key>): set<Key>
    requires records <= s.records.Keys
  {
    set r | r in records :: s.records[r].voter
  }

  ghost predicate OneRecordEach(s: State, records: set<Key>)
    requires records <= s.records.Keys
  {
    forall r1, r2 | r1 in records && r2 in records :: s.records[r1].voter == s.records[r2].voter ==> r1 == r2
  }

  /** There are no more voters than records, and as many exactly when each record is by another. */
  lemma {:induction false} VotersCountExactly(s: State, records: set<Key>)
    requires records <= s.records.Keys
    ensures |VotersOf(s, records)| <= |records|
    ensures |VotersOf(s, records)| == |records| <==> OneRecordEach(s, records)
  {
    if records != {} {
      var r :| r in records;
      var rest, voter := records - {r}, s.records[r].voter;
      VotersCountExactly(s, rest);
      assert VotersOf(s, records) == VotersOf(s, rest) + {voter};
      if voter in VotersOf(s, rest) {
        var other :| other in rest && s.records[other].voter == voter;
        assert !OneRecordEach(s, records);
      }
    }
  }

  /** All the records counted on one proposal account. */
  function Ballots(s: State, k: Key): set<Key> { Votes(s, k, true) + Votes(s, k, false) }

  /** The votes counted on `k` are by distinct voters. */
  ghost predicate ByDistinctVoters(s: State, k: Key)
    requires k in s.proposals
  {
    && OneRecordEach(s, Ballots(s, k))
    && s.proposals[k].yes == |VotersOf(s, Votes(s, k, true))|
    && s.proposals[k].yes + s.proposals[k].no == |VotersOf(s, Ballots(s, k))|
  }

  /** They are members of its dWallet's council, whose quorum it has. */
  ghost predicate OfItsCouncil(p: Program, s: State, k: Key)
    requires k in s.proposals
  {
    var proposal := s.proposals[k];
    && CouncilOf(p, proposal.dwallet).Some? && CouncilOf(p, proposal.dwallet).value in s.councils
    && var council := s.councils[CouncilOf(p, proposal.dwallet).value];
    && proposal.quorum == council.quorum
    && VotersOf(s, Ballots(s, k)) <= (set m | m in council.members)
    && |VotersOf(s, Ballots(s, k))| <= |council.members|
  }

  /**
   * When no record account of the run signed its transaction, the votes
   * counted on a proposal are by distinct members of its dWallet's council,
   * so the two counts never add up to more than its member count.
   */
  lemma DistinctVoters(p: Program, steps: seq<Step>, k: Key)
    requires Coherent(p) && NoRecordSigns(steps) && k in Reached(p, steps).proposals
    ensures ByDistinctVoters(Reached(p, steps), k) && OfItsCouncil(p, Reached(p, steps), k)
  {
    var s := Reached(p, steps);
    ReachedIsSound(p, steps);
    RunIsAddressed(p, steps);
    VotersAreOfItsCouncil(p, s, k);
    OneVoterPerBallot(s, k);
  }

  lemma BallotsOfMembers(p: Program, s: State, k: Key, c: Key)
    requires Recorded(p, s) && Addressed(p, s) && k in s.proposals
    requires CouncilOf(p, s.proposals[k].dwallet) == Some(c) && c in s.councils
    ensures OneRecordEach(s, Ballots(s, k))
    ensures VotersOf(s, Ballots(s, k)) <= set m | m in s.councils[c].members
  {
    forall r <- Ballots(s, k) ensures s.records[r].id == s.proposals[k].id && s.records[r].voter in s.councils[c].members {
      assert RecordedAt(p, s, r);
    }
  }

  lemma OneVoterPerBallot(s: State, k: Key)
    requires k in s.proposals && TalliedAt(s, k) && OneRecordEach(s, Ballots(s, k))
    ensures ByDistinctVoters(s, k)
  {
    VotersCountExactly(s, Ballots(s, k));
    VotersCountExactly(s, Votes(s, k, true));
    assert Votes(s, k, true) !! Votes(s, k, false);
  }

  lemma NoMoreThanMembers(members: seq<Key>, voters: set<Key>)
    requires Distinct(members) && voters <= set m | m in members
    ensures |voters| <= |members|
  {
    DistinctMembersCount(members);
    SubsetIsNoLarger(voters, set m | m in members);
  }

  lemma VotersAreOfItsCouncil(p: Program, s: State, k: Key)
    requires Governed(p, s) && Proposed(p, s) && Recorded(p, s) && Tallied(s) && Addressed(p, s) && k in s.proposals
    ensures TalliedAt(s, k) && OneRecordEach(s, Ballots(s, k)) && OfItsCouncil(p, s, k)
  {
    assert ProposalAt(p, s, s.proposals[k]) && TalliedAt(s, k);
    var c := CouncilOf(p, s.proposals[k].dwallet).value;
    BallotsOfMembers(p, s, k, c);
    assert Distinct(s.councils[c].members) by { assert Sound(p, c, s.councils[c]); }
    NoMoreThanMembers(s.councils[c].members, VotersOf(s, Ballots(s, k)));
  }

  /** At derived record addresses, the approvers behind a voucher are exactly the quorum of distinct members. */
  lemma VoucherApprovers(p: Program, steps: seq<Step>, v: Key, k: Key)
    requires Coherent(p) && NoRecordSigns(steps) && VoucherComesFrom(p, Reached(p, steps), v, k)
    ensures
      var s := Reached(p, steps);
      |VotersOf(s, Votes(s, k, true))| == s.councils[CouncilOf(p, s.vouchers[v].dwallet).value].quorum
  {
    DistinctVoters(p, steps, k);
    Decision(p, steps, k);
  }

  lemma {:induction false} LaterProposal(p: Program, s: State, later: seq<Step>, k: Key)
    requires Inv(p, s) && k in s.proposals
    ensures Continues(s, Run(p, s, later), k)
    decreases |later|
  {
    if later != [] {
      var earlier := later[..|later| - 1];
      LaterProposal(p, s, earlier, k);
      RunKeepsInv(p, s, earlier);
      StepKeepsProposal(p, Run(p, s, earlier), later[|later| - 1], k);
      ContinuesOn(s, Run(p, s, earlier), Run(p, s, later), k);
    }
  }

  lemma {:induction false} RunOn(p: Program, s: State, steps: seq<Step>, later: seq<Step>)
    ensures Run(p, s, steps + later) == Run(p, Run(p, s, steps), later)
    decreases |later|
  {
    if later == [] {
      assert steps + later == steps;
    } else {
      RunOn(p, s, steps, later[..|later| - 1]);
      assert (steps + later)[..|steps + later| - 1] == steps + later[..|later| - 1];
    }
  }

  lemma ContinuesOn(a: State, b: State, c: State, k: Key)
    requires k in a.proposals && Continues(a, b, k) && Continues(b, c, k)
    ensures Continues(a, c, k)
  {
  }

  // ── Proposals at their derived addresses ─────────────────────────────────

  ghost predicate ProposalsAddressed(p: Program, s: State) {
    forall k <- s.proposals :: ProposalAddress(p, s.proposals[k].id) == Some(k)
  }

  lemma NewProposalAddressed(p: Program, s: State, t: Terms)
    requires Coherent(p) && ProposalsAddressed(p, s) && DoCreateProposal(p, s, t).Some? && !t.account.signs
    ensures ProposalsAddressed(p, DoCreateProposal(p, s, t).value)
  {
    assert p.find(ProposalSeeds(t.id)).Some?;
  }

  lemma VotedProposalsAddressed(p: Program, s: State, next: State, b: Ballot)
    requires ProposalsAddressed(p, s) && Voted(p, s, next, b)
    ensures ProposalsAddressed(p, next)
  {
  }

  lemma StepKeepsProposalsAddressed(p: Program, s: State, step: Step)
    requires Coherent(p) && Housed(s) && ProposalsAddressed(p, s)
    requires step.CreateProposal? ==> !step.terms.account.signs
    ensures ProposalsAddressed(p, After(p, s, step))
  {
    if step.CreateProposal? && Do(p, s, step).Some? {
      NewProposalAddressed(p, s, step.terms);
    } else if step.CastVote? && Do(p, s, step).Some? {
      CastVoteVotes(p, s, step.ballot);
      VotedProposalsAddressed(p, s, After(p, s, step), step.ballot);
    }
  }

  lemma {:induction false} RunHasAddressedProposals(p: Program, steps: seq<Step>)
    requires Coherent(p) && NoProposalSigns(steps)
    ensures ProposalsAddressed(p, Reached(p, steps))
    decreases |steps|
  {
    if steps != [] {
      var earlier := steps[..|steps| - 1];
      RunHasAddressedProposals(p, earlier);
      ReachedIsSound(p, earlier);
      StepKeepsProposalsAddressed(p, Reached(p, earlier), steps[|steps| - 1]);
    }
  }

  /**
   * When no proposal account of the run signed its transaction, there is one
   * proposal per identifier, and its counts are those of all the records
   * that name the identifier: what the chain shows is what was counted.
   */
  lemma RecordsOfTheIdentifier(p: Program, steps: seq<Step>, k: Key)
    requires Coherent(p) && NoProposalSigns(steps) && k in Reached(p, steps).proposals
    ensures
      var s := Reached(p, steps);
      var id := s.proposals[k].id;
      && (forall other <- s.proposals | s.proposals[other].id == id :: other == k)
      && s.proposals[k].yes == |set r | r in s.records && s.records[r].id == id && s.records[r].vote == 1|
      && s.proposals[k].no == |set r | r in s.records && s.records[r].id == id && s.records[r].vote != 1|
  {
    RunHasAddressedProposals(p, steps);
    ReachedIsSound(p, steps);
    IdentifierVotes(p, Reached(p, steps), k);
  }

  lemma IdentifierVotes(p: Program, s: State, k: Key)
    requires Recorded(p, s) && Tallied(s) && ProposalsAddressed(p, s) && k in s.proposals
    ensures forall other <- s.proposals | s.proposals[other].id == s.proposals[k].id :: other == k
    ensures s.proposals[k].yes == |set r | r in s.records && s.records[r].id == s.proposals[k].id && s.records[r].vote == 1|
    ensures s.proposals[k].no == |set r | r in s.records && s.records[r].id == s.proposals[k].id && s.records[r].vote != 1|
  {
    assert TalliedAt(s, k);
    forall r <- s.records ensures r in s.cast && (s.records[r].id == s.proposals[k].id <==> s.cast[r] == k) {
      assert RecordedAt(p, s, r);
    }
    CountedOnIt(s, k, s.proposals[k].id);
  }

  lemma CountedOnIt(s: State, k: Key, id: Key)
    requires forall r <- s.records :: r in s.cast && (s.records[r].id == id <==> s.cast[r] == k)
    ensures Votes(s, k, true) == set r | r in s.records && s.records[r].id == id && s.records[r].vote == 1
    ensures Votes(s, k, false) == set r | r in s.records && s.records[r].id == id && s.records[r].vote != 1
  {
  }
}
