/**
 * What the members of a council can bring about: its creation, a proposal,
 * and, with as many of them as the quorum, the voucher
 * (examples/voting/native/src/lib.rs). No account but the creators' signs.
 */
module VotingLiveness {
  import opened Common
  import opened Bytes
  import opened ProgramAddresses
  import opened Governance
  import opened VotingMachine
  import opened VotingProofs
  import opened VotingTheorems

  /** A member, and the derived address and bump of its record. */
  datatype Voter = Voter(member: Key, record: Key, bump: u8)

  function YesBy(b: Ballot, voter: Voter): Ballot {
    b.(voter := voter.member, record := NewAccount(voter.record, false), recordBump := voter.bump, vote := 1)
  }

  function YesVotes(b: Ballot, voters: seq<Voter>): seq<Step> {
    seq(|voters|, i requires 0 <= i < |voters| => CastVote(YesBy(b, voters[i])))
  }

  function RecordsOf(voters: seq<Voter>): set<Key> { set x | x in voters :: x.record }

  /** The voters are members whose derived record addresses are empty, and no two are the same. */
  ghost predicate CanVote(p: Program, s: State, b: Ballot, voters: seq<Voter>) {
    && b.council in s.councils
    && (forall i, j | 0 <= i < j < |voters| :: voters[i].record != voters[j].record)
    && (forall x <- voters ::
          && x.member in s.councils[b.council].members && x.record !in s.taken
          && p.find(VoteSeeds(b.id, x.member)) == Some((x.record, x.bump)))
  }

  /** The proposal is open, of the council's dWallet, and the ballot's voter signs. */
  ghost predicate Open(s: State, b: Ballot) {
    && b.voterSigns && b.proposal in s.proposals && b.council in s.councils
    && s.proposals[b.proposal].status == STATUS_OPEN && s.proposals[b.proposal].id == b.id
    && s.councils[b.council].dwallet == s.proposals[b.proposal].dwallet
  }

  /** The accounts of the voucher call are the proposal's. */
  ghost predicate CallReady(p: Program, s: State, b: Ballot, voters: seq<Voter>) {
    && b.proposal in s.proposals
    && b.call.Some? && b.call.value.accepted
    && b.call.value.dwallet == s.proposals[b.proposal].dwallet
    && p.derive(VoucherSeeds(b.id) + [s.proposals[b.proposal].voucherBump]) == Some(b.call.value.voucher)
    && b.call.value.voucher !in s.taken + RecordsOf(voters)
  }

  /** `next` is `s` after the yes votes of `voters`. */
  ghost predicate VotedSoFar(s: State, next: State, b: Ballot, voters: seq<Voter>)
    requires b.proposal in s.proposals
  {
    var proposal := s.proposals[b.proposal];
    && next.councils == s.councils && next.vouchers == s.vouchers
    && next.taken == s.taken + RecordsOf(voters)
    && next.proposals == s.proposals[b.proposal := proposal.(yes := proposal.yes + |voters|)]
    && (forall x <- voters ::
          && x.record in next.records && x.record in next.cast && next.cast[x.record] == b.proposal
          && next.records[x.record] == VoteRecord(1, x.member, b.id, 1, x.bump))
  }

  lemma NoRecordTwice(p: Program, s: State, b: Ballot, voters: seq<Voter>, next: Voter)
    requires CanVote(p, s, b, voters + [next])
    ensures forall x <- voters :: x.record != next.record
  {
    assert (voters + [next])[|voters|] == next;
    forall x <- voters ensures x.record != next.record {
      var i :| 0 <= i < |voters| && voters[i] == x;
      assert (voters + [next])[i] == x;
    }
  }

  /** The next vote may be cast, at its derived address. */
  lemma NextMayVote(p: Program, s: State, mid: State, b: Ballot, voters: seq<Voter>, next: Voter)
    requires Coherent(p) && Governed(p, s) && Open(s, b) && CanVote(p, s, b, voters + [next])
    requires VotedSoFar(s, mid, b, voters)
    ensures MayVote(p, mid, YesBy(b, next)) && next.record !in mid.taken
  {
    assert Sound(p, b.council, s.councils[b.council]);
    assert (voters + [next])[|voters|] == next;
    assert next in voters + [next];
    NoRecordTwice(p, s, b, voters, next);
  }

  /** An open proposal still needs a yes, and its quorum is small. */
  lemma StillNeedsOne(p: Program, s: State, k: Key)
    requires Governed(p, s) && Proposed(p, s) && k in s.proposals && s.proposals[k].status == STATUS_OPEN
    ensures s.proposals[k].yes < s.proposals[k].quorum <= 10
  {
    assert ProposalAt(p, s, s.proposals[k]);
    var c := CouncilOf(p, s.proposals[k].dwallet).value;
    assert Sound(p, c, s.councils[c]);
  }

  lemma RecordsOneMore(voters: seq<Voter>, next: Voter)
    ensures RecordsOf(voters + [next]) == RecordsOf(voters) + {next.record}
  {
    assert forall x :: x in voters + [next] <==> x in voters || x == next;
  }

  /** `mid` with the next yes recorded and counted. */
  function WithYes(mid: State, b: Ballot, next: Voter): State
    requires b.proposal in mid.proposals
  {
    var proposal := mid.proposals[b.proposal];
    mid.(proposals := mid.proposals[b.proposal := proposal.(yes := proposal.yes + 1)],
         records := mid.records[next.record := VoteRecord(1, next.member, b.id, 1, next.bump)],
         cast := mid.cast[next.record := b.proposal],
         taken := mid.taken + {next.record})
  }

  lemma OneMoreYes(s: State, mid: State, b: Ballot, voters: seq<Voter>, next: Voter)
    requires b.proposal in s.proposals && VotedSoFar(s, mid, b, voters)
    requires forall x <- voters :: x.record != next.record
    ensures VotedSoFar(s, WithYes(mid, b, next), b, voters + [next])
  {
    RecordsOneMore(voters, next);
  }

  lemma YesIsCounted(p: Program, mid: State, b: Ballot, next: Voter)
    requires b.proposal in mid.proposals && MayVote(p, mid, YesBy(b, next))
    requires mid.proposals[b.proposal].yes + 1 < mid.proposals[b.proposal].quorum <= 10
    requires mid.proposals[b.proposal].no < 0x1_0000_0000
    ensures DoCastVote(p, mid, YesBy(b, next)) == Some(WithYes(mid, b, next))
  {
  }

  /** Below the quorum the yes is counted. */
  lemma NextIsCounted(p: Program, s: State, mid: State, b: Ballot, voters: seq<Voter>, next: Voter)
    requires Coherent(p) && Governed(p, s) && Open(s, b) && CanVote(p, s, b, voters + [next])
    requires VotedSoFar(s, mid, b, voters)
    requires s.proposals[b.proposal].yes + |voters| + 1 < s.proposals[b.proposal].quorum <= 10
    requires s.proposals[b.proposal].no < 0x1_0000_0000
    ensures DoCastVote(p, mid, YesBy(b, next)) == Some(WithYes(mid, b, next))
    ensures VotedSoFar(s, WithYes(mid, b, next), b, voters + [next])
  {
    NextMayVote(p, s, mid, b, voters, next);
    YesIsCounted(p, mid, b, next);
    NoRecordTwice(p, s, b, voters, next);
    OneMoreYes(s, mid, b, voters, next);
  }

  lemma StepsOneMore(p: Program, s: State, b: Ballot, voters: seq<Voter>, next: Voter)
    ensures Run(p, s, YesVotes(b, voters + [next]))
              == After(p, Run(p, s, YesVotes(b, voters)), CastVote(YesBy(b, next)))
  {
    var steps := YesVotes(b, voters + [next]);
    assert steps[..|voters|] == YesVotes(b, voters);
  }

  lemma CanVoteEarlier(p: Program, s: State, b: Ballot, voters: seq<Voter>, last: Voter)
    requires CanVote(p, s, b, voters + [last])
    ensures CanVote(p, s, b, voters)
  {
    var all := voters + [last];
    assert forall i | 0 <= i < |voters| :: voters[i] == all[i];
    assert forall x <- voters :: x in all;
  }

  lemma {:induction false} BelowTheQuorum(p: Program, s: State, b: Ballot, voters: seq<Voter>)
    requires Coherent(p) && Governed(p, s) && Open(s, b) && CanVote(p, s, b, voters)
    requires s.proposals[b.proposal].yes + |voters| < s.proposals[b.proposal].quorum <= 10
    requires s.proposals[b.proposal].no < 0x1_0000_0000
    ensures VotedSoFar(s, Run(p, s, YesVotes(b, voters)), b, voters)
    decreases |voters|
  {
    if voters == [] {
      assert YesVotes(b, voters) == [];
    } else {
      var n := |voters| - 1;
      var earlier, last := voters[..n], voters[n];
      assert voters == earlier + [last];
      CanVoteEarlier(p, s, b, earlier, last);
      BelowTheQuorum(p, s, b, earlier);
      NextIsCounted(p, s, Run(p, s, YesVotes(b, earlier)), b, earlier, last);
      StepsOneMore(p, s, b, earlier, last);
    }
  }

  /** At the quorum the yes issues the voucher. */
  lemma LastIssues(p: Program, s: State, mid: State, b: Ballot, voters: seq<Voter>, last: Voter)
    requires Coherent(p) && Governed(p, s) && Open(s, b) && CanVote(p, s, b, voters + [last])
    requires VotedSoFar(s, mid, b, voters) && CallReady(p, s, b, voters + [last])
    requires s.proposals[b.proposal].yes + |voters| + 1 == s.proposals[b.proposal].quorum <= 10
    requires s.proposals[b.proposal].no < 0x1_0000_0000
    ensures DoCastVote(p, mid, YesBy(b, last)).Some?
    ensures IssuedFor(p, DoCastVote(p, mid, YesBy(b, last)).value, b.call.value.voucher, b.proposal)
  {
    NextMayVote(p, s, mid, b, voters, last);
    RecordsOneMore(voters, last);
  }

  /**
   * As many council members as the quorum still needs can always issue the
   * voucher: their yes votes at their own record addresses all succeed, in
   * any order, and the last one issues it, though no record account signs.
   * The no votes so far must fit their 32-bit count, as every stored count does.
   */
  lemma TheQuorumIsEnough(p: Program, s: State, b: Ballot, voters: seq<Voter>)
    requires Coherent(p) && Governed(p, s) && Proposed(p, s)
    requires Open(s, b) && CanVote(p, s, b, voters) && CallReady(p, s, b, voters)
    requires s.proposals[b.proposal].yes + |voters| == s.proposals[b.proposal].quorum
    requires s.proposals[b.proposal].no < 0x1_0000_0000
    ensures IssuedFor(p, Run(p, s, YesVotes(b, voters)), b.call.value.voucher, b.proposal)
  {
    StillNeedsOne(p, s, b.proposal);
    var earlier, last := SplitLast(voters);
    ThenTheLast(p, s, b, earlier, last);
  }

  lemma SplitLast(voters: seq<Voter>) returns (earlier: seq<Voter>, last: Voter)
    requires voters != []
    ensures voters == earlier + [last]
  {
    earlier, last := voters[..|voters| - 1], voters[|voters| - 1];
  }

  lemma ThenTheLast(p: Program, s: State, b: Ballot, voters: seq<Voter>, last: Voter)
    requires Coherent(p) && Governed(p, s) && Open(s, b)
    requires CanVote(p, s, b, voters + [last]) && CallReady(p, s, b, voters + [last])
    requires s.proposals[b.proposal].yes + |voters| + 1 == s.proposals[b.proposal].quorum <= 10
    requires s.proposals[b.proposal].no < 0x1_0000_0000
    ensures IssuedFor(p, Run(p, s, YesVotes(b, voters + [last])), b.call.value.voucher, b.proposal)
  {
    CanVoteEarlier(p, s, b, voters, last);
    BelowTheQuorum(p, s, b, voters);
    LastIssues(p, s, Run(p, s, YesVotes(b, voters)), b, voters, last);
    StepsOneMore(p, s, b, voters, last);
  }

  // ── From an empty chain ──────────────────────────────────────────────────

  /** Terms the dWallet's owner may fix. */
  ghost predicate GoodCouncil(p: Program, t: CouncilTerms) {
    && t.ownerSigns && t.dwalletOwner == Some(t.owner)
    && 1 <= t.quorum <= |t.members| <= 10 && Distinct(t.members)
    && exists bump :: p.find(CouncilSeeds(t.dwallet)) == Some((t.account.key, bump))
  }

  /** A proposal a member may make as the first. */
  ghost predicate GoodTerms(p: Program, c: CouncilTerms, t: Terms) {
    && t.council == c.account.key && t.dwallet == c.dwallet && t.creator in c.members && t.creatorSigns
    && t.account.key != c.account.key
    && p.find(ProposalSeeds(t.id)) == Some((t.account.key, t.bump))
    && exists voucher :: p.find(VoucherSeeds(t.id)) == Some((voucher, t.voucherBump))
  }

  lemma FirstTwoSteps(p: Program, c: CouncilTerms, t: Terms)
    requires Coherent(p) && GoodCouncil(p, c) && GoodTerms(p, c, t)
    ensures
      var s := Reached(p, [CreateCouncil(c), CreateProposal(t)]);
      && c.account.key in s.councils && s.councils[c.account.key].dwallet == c.dwallet
      && s.councils[c.account.key].quorum == c.quorum && s.councils[c.account.key].members == c.members
      && s.proposals == map[t.account.key := NewProposal(t, c.quorum)]
      && s.taken == {c.account.key, t.account.key}
  {
    var created := DoCreateCouncil(p, EMPTY, c);
    assert created.Some?;
    assert DoCreateProposal(p, created.value, t).Some?;
    var steps := [CreateCouncil(c), CreateProposal(t)];
    assert steps[..1] == [CreateCouncil(c)] && steps[..1][..0] == [];
    assert Run(p, EMPTY, steps[..1]) == created.value;
  }

  lemma {:induction false} RunAppends(p: Program, s: State, first: seq<Step>, second: seq<Step>)
    ensures Run(p, s, first + second) == Run(p, Run(p, s, first), second)
    decreases |second|
  {
    if second == [] {
      assert first + second == first;
    } else {
      var n := |second| - 1;
      assert (first + second)[..|first + second| - 1] == first + second[..n];
      RunAppends(p, s, first, second[..n]);
    }
  }

  /**
   * The whole run, from an empty chain: the owner fixes the terms, a member
   * proposes, and the quorum of members votes yes. It issues the voucher, for
   * the dWallet, the digest, the scheme and the key proposed.
   */
  lemma HonestRunIssues(p: Program, c: CouncilTerms, t: Terms, b: Ballot, voters: seq<Voter>)
    requires Coherent(p) && GoodCouncil(p, c) && GoodTerms(p, c, t)
    requires b.council == c.account.key && b.proposal == t.account.key && b.id == t.id && b.voterSigns
    requires
      var s := Reached(p, [CreateCouncil(c), CreateProposal(t)]);
      CanVote(p, s, b, voters) && CallReady(p, s, b, voters)
    requires |voters| == c.quorum
    ensures
      var end := Reached(p, [CreateCouncil(c), CreateProposal(t)] + YesVotes(b, voters));
      var voucher := b.call.value.voucher;
      && voucher in end.vouchers
      && end.vouchers[voucher] ==
           Voucher(t.dwallet, t.messageDigest, Key(Zeros(32)), t.scheme, None, Some(t.userPubkey), false)
  {
    var first := [CreateCouncil(c), CreateProposal(t)];
    var s := Reached(p, first);
    FirstTwoSteps(p, c, t);
    ReachedIsSound(p, first);
    TheQuorumIsEnough(p, s, b, voters);
    RunAppends(p, EMPTY, first, YesVotes(b, voters));
    KeepsTerms(p, s, YesVotes(b, voters), b.proposal);
  }

  /** No run changes what a proposal was made with. */
  lemma {:induction false} KeepsTerms(p: Program, s: State, steps: seq<Step>, k: Key)
    requires Inv(p, s) && k in s.proposals
    ensures
      var end := Run(p, s, steps);
      && k in end.proposals
      && end.proposals[k] == s.proposals[k].(
           yes := end.proposals[k].yes, no := end.proposals[k].no, status := end.proposals[k].status)
    decreases |steps|
  {
    if steps != [] {
      var earlier, last := steps[..|steps| - 1], steps[|steps| - 1];
      KeepsTerms(p, s, earlier, k);
      RunKeepsInv(p, s, earlier);
      StepKeepsTerms(p, Run(p, s, earlier), last, k);
    }
  }

  lemma StepKeepsTerms(p: Program, s: State, step: Step, k: Key)
    requires Housed(s) && k in s.proposals
    ensures
      var end := After(p, s, step);
      && k in end.proposals
      && end.proposals[k] == s.proposals[k].(
           yes := end.proposals[k].yes, no := end.proposals[k].no, status := end.proposals[k].status)
  {
  }
}
