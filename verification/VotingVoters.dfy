/**
 * Whose votes the voting program counts: when a proposal's votes are by
 * distinct members and an identifier has one proposal, exactly, and what a
 * member who has voted can still do (examples/voting/native/src/lib.rs).
 */
module VotingVoters {
  import opened Common
  import opened Bytes
  import opened ProgramAddresses
  import opened Governance
  import opened VotingMachine
  import opened VotingProofs
  import opened VotingTheorems

  /** A record counted on the proposal names the voter. */
  predicate HasVoted(s: State, k: Key, voter: Key) {
    exists r <- Ballots(s, k) :: s.records[r].voter == voter
  }

  // ── Distinct voters, exactly ─────────────────────────────────────────────

  /** A vote keeps the voters of its proposal distinct exactly when its voter had no record there. */
  lemma VoteKeepsVotersDistinct(p: Program, s: State, next: State, b: Ballot)
    requires Voted(p, s, next, b) && OneRecordEach(s, Ballots(s, b.proposal))
    ensures OneRecordEach(next, Ballots(next, b.proposal)) <==> !HasVoted(s, b.proposal, b.voter)
  {
    var k, key := b.proposal, b.record.key;
    assert key in Ballots(next, k);
    if HasVoted(s, k, b.voter) {
      var r :| r in Ballots(s, k) && s.records[r].voter == b.voter;
      assert r in Ballots(next, k) && r != key && next.records[r].voter == next.records[key].voter;
    } else {
      forall r <- Ballots(next, k) | r != key ensures r in Ballots(s, k) && next.records[r].voter != b.voter {}
    }
  }

  ghost predicate AllDistinct(s: State) {
    forall k <- s.proposals :: OneRecordEach(s, Ballots(s, k))
  }

  lemma RepeatsIn(s: State, records: set<Key>, next: State, more: set<Key>)
    requires records <= s.records.Keys && more <= next.records.Keys && records <= more
    requires forall r <- records :: next.records[r] == s.records[r]
    ensures OneRecordEach(next, more) ==> OneRecordEach(s, records)
  {
  }

  lemma OtherBallotsStay(p: Program, s: State, next: State, b: Ballot, k: Key)
    requires Voted(p, s, next, b) && Housed(s) && k != b.proposal
    ensures Ballots(next, k) == Ballots(s, k)
    ensures OneRecordEach(next, Ballots(next, k)) <==> OneRecordEach(s, Ballots(s, k))
  {
    forall r ensures r in Ballots(next, k) <==> r in Ballots(s, k) {}
    RepeatsIn(s, Ballots(s, k), next, Ballots(next, k));
    RepeatsIn(next, Ballots(next, k), s, Ballots(s, k));
  }

  /** The new record joins its proposal's ballots, and the others are as they were. */
  lemma BallotsGrow(p: Program, s: State, next: State, b: Ballot)
    requires Voted(p, s, next, b) && Housed(s)
    ensures Ballots(next, b.proposal) == Ballots(s, b.proposal) + {b.record.key}
    ensures forall r <- Ballots(s, b.proposal) :: next.records[r] == s.records[r]
  {
    forall r ensures r in Ballots(next, b.proposal) <==> r in Ballots(s, b.proposal) || r == b.record.key {}
  }

  lemma RepeatsStay(p: Program, s: State, next: State, b: Ballot)
    requires Voted(p, s, next, b) && Housed(s)
    ensures OneRecordEach(next, Ballots(next, b.proposal)) ==> OneRecordEach(s, Ballots(s, b.proposal))
  {
    BallotsGrow(p, s, next, b);
    RepeatsIn(s, Ballots(s, b.proposal), next, Ballots(next, b.proposal));
  }

  lemma VotedIsDistinct(p: Program, s: State, next: State, b: Ballot)
    requires Voted(p, s, next, b) && Housed(s)
    ensures AllDistinct(next) <==> AllDistinct(s) && !HasVoted(s, b.proposal, b.voter)
  {
    forall k <- s.proposals | k != b.proposal
      ensures OneRecordEach(next, Ballots(next, k)) <==> OneRecordEach(s, Ballots(s, k))
    {
      OtherBallotsStay(p, s, next, b, k);
    }
    assert next.proposals.Keys == s.proposals.Keys;
    RepeatsStay(p, s, next, b);
    if OneRecordEach(s, Ballots(s, b.proposal)) {
      VoteKeepsVotersDistinct(p, s, next, b);
    }
  }

  /** The vote's voter had no record of its proposal. */
  ghost predicate FirstVote(p: Program, s: State, step: Step) {
    step.CastVote? && Do(p, s, step).Some? ==> !HasVoted(s, step.ballot.proposal, step.ballot.voter)
  }

  /** Where no record changes, the voters of every proposal stay as they are. */
  lemma SameRecordsSameVoters(p: Program, s: State, next: State)
    requires Recorded(p, s) && next.records == s.records && next.cast == s.cast
    requires s.proposals.Keys <= next.proposals.Keys
    ensures AllDistinct(next) <==> AllDistinct(s)
  {
    forall k ensures Ballots(next, k) == Ballots(s, k) {}
    forall k <- next.proposals | k !in s.proposals ensures Ballots(s, k) == {} {
      forall r <- s.records ensures s.cast[r] != k { assert RecordedAt(p, s, r); }
    }
    assert AllDistinct(s) ==> forall k <- next.proposals :: OneRecordEach(next, Ballots(next, k));
    assert AllDistinct(next) ==> forall k <- s.proposals :: OneRecordEach(s, Ballots(s, k));
  }

  lemma NoVoteAdds(p: Program, s: State, step: Step)
    requires Inv(p, s) && !(step.CastVote? && Do(p, s, step).Some?)
    ensures Adds(p, s, After(p, s, step))
  {
    if Do(p, s, step).Some? {
      match step
      case CreateCouncil(t) => CreateCouncilAdds(p, s, t);
      case CreateProposal(t) => CreateProposalAdds(p, s, t);
      case _ =>
    }
  }

  lemma StepIsDistinct(p: Program, s: State, step: Step)
    requires Inv(p, s)
    ensures AllDistinct(After(p, s, step)) <==> AllDistinct(s) && FirstVote(p, s, step)
  {
    if step.CastVote? && Do(p, s, step).Some? {
      CastVoteVotes(p, s, step.ballot);
      VotedIsDistinct(p, s, After(p, s, step), step.ballot);
    } else {
      NoVoteAdds(p, s, step);
      SameRecordsSameVoters(p, s, After(p, s, step));
    }
  }

  /** Every successful vote of the run was by a voter who had no record of that proposal when it was cast. */
  ghost predicate FirstVotes(p: Program, steps: seq<Step>) {
    forall i | 0 <= i < |steps| :: FirstVote(p, Reached(p, steps[..i]), steps[i])
  }

  /** Some property of every step of a run where it is taken: one more step, one more instance. */
  lemma EachOneMore(p: Program, at: (State, Step) -> bool, steps: seq<Step>, step: Step)
    ensures (forall i | 0 <= i < |steps + [step]| :: at(Reached(p, (steps + [step])[..i]), (steps + [step])[i])) <==>
            (forall i | 0 <= i < |steps| :: at(Reached(p, steps[..i]), steps[i])) && at(Reached(p, steps), step)
  {
    var all := steps + [step];
    forall i | 0 <= i < |steps| ensures all[..i] == steps[..i] && all[i] == steps[i] {}
    assert all[..|steps|] == steps && all[|steps|] == step;
    if forall i | 0 <= i < |all| :: at(Reached(p, all[..i]), all[i]) {
      assert at(Reached(p, all[..|steps|]), all[|steps|]);
      forall i | 0 <= i < |steps| ensures at(Reached(p, steps[..i]), steps[i]) {
        assert at(Reached(p, all[..i]), all[i]);
      }
    }
    if (forall i | 0 <= i < |steps| :: at(Reached(p, steps[..i]), steps[i])) && at(Reached(p, steps), step) {
      forall i | 0 <= i < |all| ensures at(Reached(p, all[..i]), all[i]) {
        if i < |steps| { assert at(Reached(p, steps[..i]), steps[i]); }
      }
    }
  }

  /**
   * Over any run from an empty chain, the voters of every proposal are
   * distinct if and only if no successful vote was by a voter who had a
   * record of that proposal when it was cast.
   */
  lemma {:induction false} DistinctExactly(p: Program, steps: seq<Step>)
    ensures AllDistinct(Reached(p, steps)) <==> FirstVotes(p, steps)
    decreases |steps|
  {
    if steps != [] {
      var earlier, last := steps[..|steps| - 1], steps[|steps| - 1];
      assert steps == earlier + [last];
      DistinctExactly(p, earlier);
      ReachedIsSound(p, earlier);
      StepIsDistinct(p, Reached(p, earlier), last);
      EachOneMore(p, (s, step) => FirstVote(p, s, step), earlier, last);
      RunOneMore(p, EMPTY, earlier, last);
    }
  }

  lemma RunOneMore(p: Program, s: State, steps: seq<Step>, step: Step)
    ensures Run(p, s, steps + [step]) == After(p, Run(p, s, steps), step)
  {
    assert (steps + [step])[..|steps|] == steps;
  }

  // ── Repeats ──────────────────────────────────────────────────────────────

  /** How many of a proposal's votes are by a voter counted already. */
  function Repeats(s: State, k: Key): nat {
    VotersCountExactly(s, Ballots(s, k));
    |Ballots(s, k)| - |VotersOf(s, Ballots(s, k))|
  }

  /** There are none exactly when the voters are distinct, and so the two counts are of distinct voters. */
  lemma NoRepeatsExactly(p: Program, steps: seq<Step>, k: Key)
    requires k in Reached(p, steps).proposals
    ensures
      var s := Reached(p, steps);
      && s.proposals[k].yes + s.proposals[k].no == |VotersOf(s, Ballots(s, k))| + Repeats(s, k)
      && (Repeats(s, k) == 0 <==> OneRecordEach(s, Ballots(s, k)))
  {
    ReachedIsSound(p, steps);
    RepeatsAddUp(Reached(p, steps), k);
  }

  lemma RepeatsAddUp(s: State, k: Key)
    requires Tallied(s) && k in s.proposals
    ensures s.proposals[k].yes + s.proposals[k].no == |VotersOf(s, Ballots(s, k))| + Repeats(s, k)
    ensures Repeats(s, k) == 0 <==> OneRecordEach(s, Ballots(s, k))
  {
    assert TalliedAt(s, k);
    assert Votes(s, k, true) !! Votes(s, k, false);
    VotersCountExactly(s, Ballots(s, k));
  }

  /** A voucher's approvers are exactly the quorum of members if and only if each yes is by another. */
  lemma ApproversCountExactly(p: Program, steps: seq<Step>, v: Key, k: Key)
    requires VoucherComesFrom(p, Reached(p, steps), v, k)
    ensures
      var s := Reached(p, steps);
      |VotersOf(s, Votes(s, k, true))| == s.councils[CouncilOf(p, s.vouchers[v].dwallet).value].quorum <==>
        OneRecordEach(s, Votes(s, k, true))
  {
    VotersCountExactly(Reached(p, steps), Votes(Reached(p, steps), k, true));
  }

  /** The council of a proposal of a reachable state. */
  lemma CouncilOfProposal(p: Program, steps: seq<Step>, k: Key)
    requires k in Reached(p, steps).proposals
    ensures
      var s := Reached(p, steps);
      var dwallet := s.proposals[k].dwallet;
      && CouncilOf(p, dwallet).Some? && CouncilOf(p, dwallet).value in s.councils
      && s.proposals[k].quorum == s.councils[CouncilOf(p, dwallet).value].quorum
  {
    ReachedIsSound(p, steps);
    assert ProposalAt(p, Reached(p, steps), Reached(p, steps).proposals[k]);
  }

  /**
   * The two counts exceed the council's members by no more than the repeats:
   * so an approved proposal with more no votes than the quorum can spare has
   * at least that many repeats.
   */
  lemma VotesBeyondMembersAreRepeats(p: Program, steps: seq<Step>, k: Key)
    requires k in Reached(p, steps).proposals
    ensures
      var s := Reached(p, steps);
      var proposal := s.proposals[k];
      && CouncilOf(p, proposal.dwallet).Some? && CouncilOf(p, proposal.dwallet).value in s.councils
      && var n := |s.councils[CouncilOf(p, proposal.dwallet).value].members|;
      && proposal.yes + proposal.no <= n + Repeats(s, k)
      && (proposal.status == STATUS_APPROVED ==> proposal.no - (n - proposal.quorum) <= Repeats(s, k))
  {
    var s := Reached(p, steps);
    ReachedIsSound(p, steps);
    CouncilOfProposal(p, steps, k);
    Decision(p, steps, k);
    NoRepeatsExactly(p, steps, k);
    VotersAreMembers(p, s, k, CouncilOf(p, s.proposals[k].dwallet).value);
  }

  lemma VotersAreMembers(p: Program, s: State, k: Key, c: Key)
    requires Governed(p, s) && Recorded(p, s) && k in s.proposals
    requires CouncilOf(p, s.proposals[k].dwallet) == Some(c) && c in s.councils
    ensures |VotersOf(s, Ballots(s, k))| <= |s.councils[c].members|
  {
    forall r <- Ballots(s, k) ensures s.records[r].voter in s.councils[c].members { assert RecordedAt(p, s, r); }
    assert Sound(p, c, s.councils[c]);
    NoMoreThanMembers(s.councils[c].members, VotersOf(s, Ballots(s, k)));
  }

  /**
   * Once more members voted no than the quorum can spare, the proposal stays
   * open in every later run, unless a voter's vote was counted twice.
   */
  lemma TooManyNoIsFinal(p: Program, steps: seq<Step>, later: seq<Step>, k: Key)
    requires k in Reached(p, steps).proposals
    requires
      var s := Reached(p, steps);
      && CouncilOf(p, s.proposals[k].dwallet).Some? && CouncilOf(p, s.proposals[k].dwallet).value in s.councils
      && s.proposals[k].no > |s.councils[CouncilOf(p, s.proposals[k].dwallet).value].members| - s.proposals[k].quorum
    ensures
      var end := Reached(p, steps + later);
      k in end.proposals && (end.proposals[k].status == STATUS_OPEN || !OneRecordEach(end, Ballots(end, k)))
  {
    ReachedIsSound(p, steps);
    LaterProposal(p, Reached(p, steps), later, k);
    RunOn(p, EMPTY, steps, later);
    Decision(p, steps + later, k);
    NoRepeatsExactly(p, steps + later, k);
    VotesBeyondMembersAreRepeats(p, steps + later, k);
  }

  /** In particular in every run where no record account signs. */
  lemma TooManyNoUnsigned(p: Program, steps: seq<Step>, later: seq<Step>, k: Key)
    requires Coherent(p) && NoRecordSigns(steps + later) && k in Reached(p, steps).proposals
    requires
      var s := Reached(p, steps);
      && CouncilOf(p, s.proposals[k].dwallet).Some? && CouncilOf(p, s.proposals[k].dwallet).value in s.councils
      && s.proposals[k].no > |s.councils[CouncilOf(p, s.proposals[k].dwallet).value].members| - s.proposals[k].quorum
    ensures k in Reached(p, steps + later).proposals && Reached(p, steps + later).proposals[k].status == STATUS_OPEN
  {
    TooManyNoIsFinal(p, steps, later, k);
    DistinctVoters(p, steps + later, k);
  }

  // ── A second vote ────────────────────────────────────────────────────────

  /** Everything a vote needs but its record account. */
  predicate VoteFits(p: Program, s: State, b: Ballot) {
    && b.voterSigns && b.proposal in s.proposals
    && s.proposals[b.proposal].status == STATUS_OPEN && s.proposals[b.proposal].id == b.id
    && VerifiedMember(p, s, b.council, s.proposals[b.proposal].dwallet, b.voter)
    && IsCanonicalBump(p, VoteSeeds(b.id, b.voter), b.recordBump)
  }

  /** The count has room, and the vote stays below the quorum or is given the accounts of its voucher. */
  predicate CountFits(p: Program, s: State, b: Ballot)
    requires b.proposal in s.proposals
  {
    var counted := Counted(s.proposals[b.proposal], b.vote);
    && counted.yes < 0x1_0000_0000 && counted.no < 0x1_0000_0000
    && (counted.yes < counted.quorum || CallFits(p, s.proposals[b.proposal], b, s.taken + {b.record.key}))
  }

  /** A fitting vote succeeds exactly when its record can be created. */
  lemma FittingVote(p: Program, s: State, b: Ballot)
    requires VoteFits(p, s, b) && CountFits(p, s, b)
    ensures DoCastVote(p, s, b).Some? <==> MayCreate(p.derive, s.taken, b.record, VoteSeeds(b.id, b.voter), b.recordBump)
  {
  }

  /** For a voter whose derived record address is taken: exactly at an empty address that signs. */
  lemma SecondVoteExactly(p: Program, s: State, b: Ballot, r: Key)
    requires Coherent(p) && VoteFits(p, s, b) && CountFits(p, s, b)
    requires RecordAddress(p, b.id, b.voter) == Some(r) && r in s.taken
    ensures DoCastVote(p, s, b).Some? <==> b.record.key !in s.taken && b.record.signs
  {
    FittingVote(p, s, b);
    assert p.find(VoteSeeds(b.id, b.voter)) == Some((r, b.recordBump));
    assert p.derive(VoteSeeds(b.id, b.voter) + [b.recordBump]) == Some(r);
  }

  /**
   * After a vote that left the proposal open, the same voter's vote is
   * counted once more at any empty address that signs.
   */
  lemma SecondVoteCounts(p: Program, s: State, b: Ballot, next: State, other: Key)
    requires Housed(s) && DoCastVote(p, s, b) == Some(next)
    requires other !in next.taken && b.proposal in next.proposals && next.proposals[b.proposal].status == STATUS_OPEN
    requires CountFits(p, next, b.(record := NewAccount(other, true)))
    ensures
      var again := DoCastVote(p, next, b.(record := NewAccount(other, true)));
      && again.Some? && b.proposal in s.proposals && b.proposal in again.value.proposals
      && (b.vote == 1 ==> again.value.proposals[b.proposal].yes == s.proposals[b.proposal].yes + 2)
      && (b.vote != 1 ==> again.value.proposals[b.proposal].no == s.proposals[b.proposal].no + 2)
      && !OneRecordEach(again.value, Ballots(again.value, b.proposal))
  {
    var second := b.(record := NewAccount(other, true));
    CastVoteVotes(p, s, b);
    FitsAgain(p, s, next, b, other);
    FittingVote(p, next, second);
    CastVoteVotes(p, next, second);
    VotedTwice(p, s, b, next, second, DoCastVote(p, next, second).value);
  }

  /** The same voter's vote fits once more while the proposal is open. */
  lemma FitsAgain(p: Program, s: State, next: State, b: Ballot, other: Key)
    requires Voted(p, s, next, b) && next.proposals[b.proposal].status == STATUS_OPEN
    ensures VoteFits(p, next, b.(record := NewAccount(other, true)))
  {
    assert VerifiedMember(p, next, b.council, next.proposals[b.proposal].dwallet, b.voter);
  }

  lemma VotedTwice(p: Program, s: State, b: Ballot, next: State, second: Ballot, again: State)
    requires Voted(p, s, next, b) && Voted(p, next, again, second) && second == b.(record := second.record)
    ensures b.vote == 1 ==> again.proposals[b.proposal].yes == s.proposals[b.proposal].yes + 2
    ensures b.vote != 1 ==> again.proposals[b.proposal].no == s.proposals[b.proposal].no + 2
    ensures !OneRecordEach(again, Ballots(again, b.proposal))
  {
    assert b.record.key in Ballots(again, b.proposal) && second.record.key in Ballots(again, b.proposal);
  }

  // ── One voter up to the voucher ──────────────────────────────────────────

  /** The same voter's ballot at each of `keys`, every one signing. */
  function BallotsAt(b: Ballot, keys: seq<Key>): seq<Step> {
    seq(|keys|, i requires 0 <= i < |keys| => CastVote(b.(record := NewAccount(keys[i], true))))
  }

  ghost predicate Fresh(s: State, keys: seq<Key>) {
    Distinct(keys) && forall k <- keys :: k !in s.taken
  }

  /** `next` is `s` with one more yes of the ballot's voter at each of `keys`. */
  ghost predicate Repeated(s: State, next: State, b: Ballot, keys: seq<Key>)
    requires b.proposal in s.proposals
  {
    && next.councils == s.councils && next.vouchers == s.vouchers
    && next.taken == s.taken + (set k | k in keys)
    && next.proposals == s.proposals[b.proposal := s.proposals[b.proposal].(yes := s.proposals[b.proposal].yes + |keys|)]
    && RecordsAt(s, next, b, keys)
  }

  /** The record of the voter's yes. */
  function Yes(b: Ballot): VoteRecord { VoteRecord(1, b.voter, b.id, 1, b.recordBump) }

  ghost predicate RecordsAt(s: State, next: State, b: Ballot, keys: seq<Key>) {
    Extended(s.records, next.records, keys, Yes(b)) && Extended(s.cast, next.cast, keys, b.proposal)
  }

  /** A yes below the quorum: its record, its count, and nothing else. */
  lemma YesBelowQuorum(p: Program, s: State, b: Ballot)
    requires VoteFits(p, s, b) && b.vote == 1 && b.record.key !in s.taken && b.record.signs
    requires s.proposals[b.proposal].no < 0x1_0000_0000
    requires s.proposals[b.proposal].yes + 1 < s.proposals[b.proposal].quorum <= MAX_MEMBERS
    ensures DoCastVote(p, s, b) == Some(s.(
              records := s.records[b.record.key := Yes(b)],
              cast := s.cast[b.record.key := b.proposal],
              proposals := s.proposals[b.proposal := s.proposals[b.proposal].(yes := s.proposals[b.proposal].yes + 1)],
              taken := s.taken + {b.record.key}))
  {
  }

  lemma StillFits(p: Program, s: State, mid: State, b: Ballot, keys: seq<Key>, k: Key)
    requires VoteFits(p, s, b) && Repeated(s, mid, b, keys)
    ensures VoteFits(p, mid, b.(record := NewAccount(k, true)))
  {
    assert VerifiedMember(p, mid, b.council, mid.proposals[b.proposal].dwallet, b.voter);
  }

  lemma OneMoreRepeat(p: Program, s: State, mid: State, b: Ballot, keys: seq<Key>, k: Key)
    requires VoteFits(p, s, b) && b.vote == 1 && Repeated(s, mid, b, keys) && k !in mid.taken
    requires s.proposals[b.proposal].no < 0x1_0000_0000
    requires s.proposals[b.proposal].yes + |keys| + 1 < s.proposals[b.proposal].quorum <= MAX_MEMBERS
    ensures DoCastVote(p, mid, b.(record := NewAccount(k, true))).Some?
    ensures Repeated(s, DoCastVote(p, mid, b.(record := NewAccount(k, true))).value, b, keys + [k])
  {
    StillFits(p, s, mid, b, keys, k);
    YesBelowQuorum(p, mid, b.(record := NewAccount(k, true)));
    RepeatedOneMore(s, mid, b, keys, k, DoCastVote(p, mid, b.(record := NewAccount(k, true))).value);
  }

  lemma RepeatedOneMore(s: State, mid: State, b: Ballot, keys: seq<Key>, k: Key, next: State)
    requires b.proposal in s.proposals && b.vote == 1 && Repeated(s, mid, b, keys)
    requires next == mid.(
               records := mid.records[k := Yes(b)],
               cast := mid.cast[k := b.proposal],
               proposals := mid.proposals[b.proposal := mid.proposals[b.proposal].(yes := mid.proposals[b.proposal].yes + 1)],
               taken := mid.taken + {k})
    ensures Repeated(s, next, b, keys + [k])
  {
    assert (set x | x in keys + [k]) == (set x | x in keys) + {k};
    ExtendedOneMore(s.records, mid.records, keys, k, Yes(b));
    ExtendedOneMore(s.cast, mid.cast, keys, k, b.proposal);
  }

  lemma BallotsOneMore(b: Ballot, keys: seq<Key>, k: Key)
    ensures BallotsAt(b, keys + [k]) == BallotsAt(b, keys) + [CastVote(b.(record := NewAccount(k, true)))]
  {
  }

  lemma {:induction false} RepeatsBelowQuorum(p: Program, s: State, b: Ballot, keys: seq<Key>)
    requires VoteFits(p, s, b) && b.vote == 1 && Fresh(s, keys) && s.proposals[b.proposal].no < 0x1_0000_0000
    requires s.proposals[b.proposal].yes + |keys| < s.proposals[b.proposal].quorum <= MAX_MEMBERS
    ensures Repeated(s, Run(p, s, BallotsAt(b, keys)), b, keys)
    decreases |keys|
  {
    if keys == [] {
      assert BallotsAt(b, keys) == [];
    } else {
      var n := |keys| - 1;
      var earlier, k := keys[..n], keys[n];
      assert keys == earlier + [k];
      RepeatsBelowQuorum(p, s, b, earlier);
      var mid := Run(p, s, BallotsAt(b, earlier));
      assert k !in mid.taken by { assert k !in earlier; }
      OneMoreRepeat(p, s, mid, b, earlier, k);
      BallotsOneMore(b, earlier, k);
      RunOneMore(p, s, BallotsAt(b, earlier), CastVote(b.(record := NewAccount(k, true))));
    }
  }

  /** The yes that reaches the quorum, after the repeated ones. */
  lemma LastRepeat(p: Program, s: State, mid: State, b: Ballot, keys: seq<Key>, k: Key)
    requires VoteFits(p, s, b) && b.vote == 1 && Repeated(s, mid, b, keys) && k !in mid.taken
    requires s.proposals[b.proposal].no < 0x1_0000_0000
    requires s.proposals[b.proposal].yes + |keys| + 1 == s.proposals[b.proposal].quorum <= MAX_MEMBERS
    requires CallFits(p, s.proposals[b.proposal], b, s.taken + (set x | x in keys) + {k})
    ensures DoCastVote(p, mid, b.(record := NewAccount(k, true))).Some?
    ensures
      var end := DoCastVote(p, mid, b.(record := NewAccount(k, true))).value;
      && b.proposal in end.proposals && end.proposals[b.proposal].status == STATUS_APPROVED
      && end.proposals[b.proposal].no == s.proposals[b.proposal].no
      && IssuedFor(p, end, b.call.value.voucher, b.proposal)
      && end.records == mid.records[k := Yes(b)]
      && end.cast == mid.cast[k := b.proposal]
  {
    StillFits(p, s, mid, b, keys, k);
    FittingVote(p, mid, b.(record := NewAccount(k, true)));
  }

  lemma LastStep(p: Program, s: State, b: Ballot, keys: seq<Key>, k: Key, end: State)
    requires DoCastVote(p, Run(p, s, BallotsAt(b, keys)), b.(record := NewAccount(k, true))) == Some(end)
    ensures Run(p, s, BallotsAt(b, keys + [k])) == end
  {
    BallotsOneMore(b, keys, k);
    RunOneMore(p, s, BallotsAt(b, keys), CastVote(b.(record := NewAccount(k, true))));
  }

  /**
   * One voter alone can bring an open proposal to its voucher, however many
   * voted no: its yes at as many empty signing addresses as the quorum still
   * needs all succeed, and the last one issues the voucher. If nobody else
   * voted yes, every yes behind the voucher names that one voter.
   */
  lemma OneVoterIsEnough(p: Program, s: State, b: Ballot, keys: seq<Key>)
    requires Inv(p, s) && VoteFits(p, s, b) && b.vote == 1 && Fresh(s, keys)
    requires s.proposals[b.proposal].no < 0x1_0000_0000
    requires s.proposals[b.proposal].yes + |keys| == s.proposals[b.proposal].quorum
    requires CallFits(p, s.proposals[b.proposal], b, s.taken + (set x | x in keys))
    ensures
      var end := Run(p, s, BallotsAt(b, keys));
      && b.proposal in end.proposals && end.proposals[b.proposal].status == STATUS_APPROVED
      && end.proposals[b.proposal].no == s.proposals[b.proposal].no
      && IssuedFor(p, end, b.call.value.voucher, b.proposal)
      && (Votes(s, b.proposal, true) == {} ==> VotersOf(end, Votes(end, b.proposal, true)) == {b.voter})
  {
    SmallQuorum(p, s, b.proposal);
    var n := |keys| - 1;
    assert keys == keys[..n] + [keys[n]];
    RepeatsThenLast(p, s, b, keys[..n], keys[n]);
  }

  lemma FreshButLast(s: State, keys: seq<Key>, k: Key)
    requires Fresh(s, keys + [k])
    ensures Fresh(s, keys) && k !in s.taken && k !in keys
    ensures s.taken + (set x | x in keys + [k]) == s.taken + (set x | x in keys) + {k}
  {
    var all := keys + [k];
    assert all[|keys|] == k && forall i | 0 <= i < |keys| :: all[i] == keys[i];
    forall x <- keys ensures x in all && x != k {}
    assert k in all;
  }

  lemma RepeatsThenLast(p: Program, s: State, b: Ballot, keys: seq<Key>, k: Key)
    requires VoteFits(p, s, b) && b.vote == 1 && Fresh(s, keys + [k]) && s.proposals[b.proposal].no < 0x1_0000_0000
    requires s.proposals[b.proposal].yes + |keys| + 1 == s.proposals[b.proposal].quorum <= MAX_MEMBERS
    requires CallFits(p, s.proposals[b.proposal], b, s.taken + (set x | x in keys + [k]))
    ensures
      var end := Run(p, s, BallotsAt(b, keys + [k]));
      && b.proposal in end.proposals && end.proposals[b.proposal].status == STATUS_APPROVED
      && end.proposals[b.proposal].no == s.proposals[b.proposal].no
      && IssuedFor(p, end, b.call.value.voucher, b.proposal)
      && (Votes(s, b.proposal, true) == {} ==> VotersOf(end, Votes(end, b.proposal, true)) == {b.voter})
  {
    FreshButLast(s, keys, k);
    RepeatsBelowQuorum(p, s, b, keys);
    var mid := Run(p, s, BallotsAt(b, keys));
    LastRepeat(p, s, mid, b, keys, k);
    var end := DoCastVote(p, mid, b.(record := NewAccount(k, true))).value;
    LastStep(p, s, b, keys, k, end);
    OnlyThatVoter(s, mid, b, keys, end, k);
  }

  lemma SmallQuorum(p: Program, s: State, k: Key)
    requires Governed(p, s) && Proposed(p, s) && k in s.proposals && s.proposals[k].status == STATUS_OPEN
    ensures s.proposals[k].yes < s.proposals[k].quorum <= MAX_MEMBERS
  {
    assert ProposalAt(p, s, s.proposals[k]);
    var c := CouncilOf(p, s.proposals[k].dwallet).value;
    assert Sound(p, c, s.councils[c]);
  }

  lemma OnlyThatVoter(s: State, mid: State, b: Ballot, keys: seq<Key>, end: State, k: Key)
    requires b.proposal in s.proposals && b.vote == 1 && RecordsAt(s, mid, b, keys)
    requires end.records == mid.records[k := Yes(b)]
    requires end.cast == mid.cast[k := b.proposal]
    ensures Votes(s, b.proposal, true) == {} ==> VotersOf(end, Votes(end, b.proposal, true)) == {b.voter}
  {
    var t := b.proposal;
    forall r ensures r in Votes(end, t, true) <==> r in Votes(s, t, true) || r in keys || r == k {
      assert Entry(mid.records, r) == if r in keys then Some(Yes(b)) else Entry(s.records, r);
      assert Entry(mid.cast, r) == if r in keys then Some(t) else Entry(s.cast, r);
    }
    forall r | r in keys ensures end.records[r].voter == b.voter {
      assert Entry(mid.records, r) == Some(Yes(b));
    }
    assert k in Votes(end, t, true);
  }

  // ── One proposal for an identifier, exactly ──────────────────────────────

  ghost predicate OnePerIdentifier(s: State) {
    forall a, b | a in s.proposals && b in s.proposals :: s.proposals[a].id == s.proposals[b].id ==> a == b
  }

  predicate HasProposal(s: State, id: Key) {
    exists k <- s.proposals :: s.proposals[k].id == id
  }

  /** A creation keeps one proposal for an identifier exactly when its own had none. */
  lemma CreationKeepsOne(p: Program, s: State, t: Terms)
    requires Housed(s) && OnePerIdentifier(s) && DoCreateProposal(p, s, t).Some?
    ensures OnePerIdentifier(DoCreateProposal(p, s, t).value) <==> !HasProposal(s, t.id)
  {
    var next := DoCreateProposal(p, s, t).value;
    assert next.proposals == s.proposals[t.account.key := next.proposals[t.account.key]];
    if HasProposal(s, t.id) {
      var k :| k in s.proposals && s.proposals[k].id == t.id;
      assert k != t.account.key && next.proposals[k].id == next.proposals[t.account.key].id;
    }
  }

  /** The condition is needed: a creation can be repeated with its identifier at any empty address that signs. */
  lemma SecondProposalSucceeds(p: Program, s: State, t: Terms, other: Key)
    requires Housed(s) && DoCreateProposal(p, s, t).Some? && other !in DoCreateProposal(p, s, t).value.taken
    ensures
      var next := DoCreateProposal(p, s, t).value;
      var again := DoCreateProposal(p, next, t.(account := NewAccount(other, true)));
      && again.Some? && other != t.account.key
      && {t.account.key, other} <= again.value.proposals.Keys
      && again.value.proposals[t.account.key].id == again.value.proposals[other].id == t.id
      && !OnePerIdentifier(again.value)
  {
    var next := DoCreateProposal(p, s, t).value;
    assert VerifiedMember(p, next, t.council, t.dwallet, t.creator);
  }

  /** The step's identifier had no proposal. */
  ghost predicate FirstProposal(p: Program, s: State, step: Step) {
    step.CreateProposal? && Do(p, s, step).Some? ==> !HasProposal(s, step.terms.id)
  }

  /** Proposals that are only voted on keep their identifiers. */
  ghost predicate SameIdentifiers(s: State, next: State) {
    next.proposals.Keys == s.proposals.Keys && forall k <- s.proposals :: next.proposals[k].id == s.proposals[k].id
  }

  lemma NoCreationKeepsIdentifiers(p: Program, s: State, step: Step)
    requires Housed(s) && !(step.CreateProposal? && Do(p, s, step).Some?)
    ensures SameIdentifiers(s, After(p, s, step))
  {
    if step.CastVote? && Do(p, s, step).Some? {
      CastVoteVotes(p, s, step.ballot);
    }
  }

  lemma SharedIdentifiersStay(p: Program, s: State, t: Terms)
    requires Housed(s) && !OnePerIdentifier(s) && DoCreateProposal(p, s, t).Some?
    ensures !OnePerIdentifier(DoCreateProposal(p, s, t).value)
  {
    var a, b :| a in s.proposals && b in s.proposals && s.proposals[a].id == s.proposals[b].id && a != b;
    var next := DoCreateProposal(p, s, t).value;
    assert next.proposals[a].id == next.proposals[b].id;
  }

  lemma StepKeepsOne(p: Program, s: State, step: Step)
    requires Housed(s)
    ensures OnePerIdentifier(After(p, s, step)) <==> OnePerIdentifier(s) && FirstProposal(p, s, step)
  {
    if step.CreateProposal? && Do(p, s, step).Some? {
      if OnePerIdentifier(s) {
        CreationKeepsOne(p, s, step.terms);
      } else {
        SharedIdentifiersStay(p, s, step.terms);
      }
    } else {
      NoCreationKeepsIdentifiers(p, s, step);
    }
  }

  /** Every successful creation of the run was of an identifier that had no proposal. */
  ghost predicate FirstProposals(p: Program, steps: seq<Step>) {
    forall i | 0 <= i < |steps| :: FirstProposal(p, Reached(p, steps[..i]), steps[i])
  }

  /** Over any run, every identifier has one proposal if and only if none was created for one that had one. */
  lemma {:induction false} OneProposalExactly(p: Program, steps: seq<Step>)
    ensures OnePerIdentifier(Reached(p, steps)) <==> FirstProposals(p, steps)
    decreases |steps|
  {
    if steps != [] {
      var earlier, last := steps[..|steps| - 1], steps[|steps| - 1];
      assert steps == earlier + [last];
      OneProposalExactly(p, earlier);
      ReachedIsSound(p, earlier);
      StepKeepsOne(p, Reached(p, earlier), last);
      EachOneMore(p, (s, step) => FirstProposal(p, s, step), earlier, last);
      RunOneMore(p, EMPTY, earlier, last);
    }
  }

  /** The records that name an identifier, yes or not. */
  function RecordsOf(s: State, id: Key, yes: bool): set<Key> {
    set r | r in s.records && s.records[r].id == id && (s.records[r].vote == 1) == yes
  }

  /**
   * A proposal's counts are those of all the records that name its identifier
   * if and only if no other proposal of the identifier has a vote: both are on
   * the chain for anyone to see.
   */
  lemma CountsOfTheIdentifierExactly(p: Program, steps: seq<Step>, k: Key)
    requires k in Reached(p, steps).proposals
    ensures
      var s := Reached(p, steps);
      var proposal := s.proposals[k];
      (proposal.yes == |RecordsOf(s, proposal.id, true)| && proposal.no == |RecordsOf(s, proposal.id, false)|) <==>
        forall other <- s.proposals | other != k && s.proposals[other].id == proposal.id ::
          s.proposals[other].yes == 0 && s.proposals[other].no == 0
  {
    var s := Reached(p, steps);
    ReachedIsSound(p, steps);
    AllCountedExactly(p, s, k, true);
    AllCountedExactly(p, s, k, false);
    assert TalliedAt(s, k);
  }

  predicate VotesOf(proposal: Proposal, yes: bool, count: nat) {
    if yes then proposal.yes == count else proposal.no == count
  }

  lemma AllCountedExactly(p: Program, s: State, k: Key, yes: bool)
    requires Housed(s) && Recorded(p, s) && Tallied(s) && k in s.proposals
    ensures |Votes(s, k, yes)| == |RecordsOf(s, s.proposals[k].id, yes)| <==>
            forall other <- s.proposals | other != k && s.proposals[other].id == s.proposals[k].id ::
              VotesOf(s.proposals[other], yes, 0)
  {
    var id := s.proposals[k].id;
    var mine, all := Votes(s, k, yes), RecordsOf(s, id, yes);
    VotesAreRecords(p, s, k, yes);
    SubsetIsNoLarger(mine, all);
    if mine == all {
      forall other <- s.proposals | other != k && s.proposals[other].id == id ensures VotesOf(s.proposals[other], yes, 0) {
        VotesAreRecords(p, s, other, yes);
        assert Votes(s, other, yes) == {};
        assert TalliedAt(s, other);
      }
    } else {
      var r :| r in all && r !in mine;
      var other := s.cast[r];
      assert RecordedAt(p, s, r);
      assert r in Votes(s, other, yes) && TalliedAt(s, other);
      assert !VotesOf(s.proposals[other], yes, 0);
    }
  }

  lemma VotesAreRecords(p: Program, s: State, k: Key, yes: bool)
    requires Recorded(p, s) && k in s.proposals
    ensures Votes(s, k, yes) <= RecordsOf(s, s.proposals[k].id, yes)
  {
    forall r <- Votes(s, k, yes) ensures r in RecordsOf(s, s.proposals[k].id, yes) { assert RecordedAt(p, s, r); }
  }
}
