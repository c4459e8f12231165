/**
 * Where the council's accounts come from: over every run from an empty
 * chain, each council, proposal, record and voucher goes back to one signed
 * instruction of the run, with that instruction's own terms
 * (examples/voting/native/src/lib.rs).
 */
module VotingOrigins {
  import opened Common
  import opened Bytes
  import opened ProgramAddresses
  import opened Governance
  import opened VotingMachine
  import opened VotingProofs
  import opened VotingTheorems

  /** The dWallet's owner signed the step that fixed the council's terms. */
  ghost predicate FixedBy(step: Step, k: Key, c: Council) {
    && step.CreateCouncil?
    && var t := step.council;
    && t.account.key == k && t.ownerSigns && t.dwalletOwner == Some(t.owner)
    && c.dwallet == t.dwallet && c.quorum == t.quorum && c.members == t.members
  }

  /** A member of the dWallet's council signed the step that proposed it, and it took the council's quorum. */
  ghost predicate ProposedBy(p: Program, before: State, step: Step, k: Key, proposal: Proposal) {
    && step.CreateProposal?
    && var t := step.terms;
    && t.account.key == k && k !in before.taken && t.creatorSigns
    && t.council in before.councils && before.councils[t.council].dwallet == t.dwallet
    && t.creator in before.councils[t.council].members
    && proposal.quorum == before.councils[t.council].quorum
    && proposal.id == t.id && proposal.dwallet == t.dwallet && proposal.creator == t.creator
    && proposal.messageDigest == t.messageDigest && proposal.userPubkey == t.userPubkey
    && proposal.scheme == t.scheme
    && (exists voucher :: p.find(VoucherSeeds(t.id)) == Some((voucher, proposal.voucherBump)))
    && (exists address :: p.find(ProposalSeeds(t.id)) == Some((address, proposal.bump)))
  }

  /** A council member signed the step that wrote the record, while the proposal it was counted on was open. */
  ghost predicate VotedBy(before: State, step: Step, r: Key, record: VoteRecord, k: Key) {
    && step.CastVote?
    && var b := step.ballot;
    && b.record.key == r && r !in before.taken && b.voterSigns && b.proposal == k
    && k in before.proposals && before.proposals[k].status == STATUS_OPEN && before.proposals[k].id == record.id
    && b.council in before.councils && before.councils[b.council].dwallet == before.proposals[k].dwallet
    && b.voter in before.councils[b.council].members
    && record.voter == b.voter && record.id == b.id && record.vote == b.vote
  }

  /** The step was the yes that reached the quorum, and the dWallet program accepted its call. */
  ghost predicate IssuedBy(before: State, step: Step, v: Key, k: Key, voucher: Voucher) {
    && step.CastVote?
    && var b := step.ballot;
    && b.proposal == k && b.vote == 1 && b.call.Some? && b.call.value.voucher == v && v !in before.taken
    && b.call.value.accepted && b.call.value.dwallet == voucher.dwallet
    && k in before.proposals && before.proposals[k].yes + 1 == before.proposals[k].quorum
  }

  // ── One step ─────────────────────────────────────────────────────────────

  /** What a proposal was made with. */
  ghost predicate SameTerms(before: Proposal, after: Proposal) {
    after == before.(yes := after.yes, no := after.no, status := after.status)
  }

  lemma StepFixes(p: Program, s: State, step: Step, k: Key)
    requires k in After(p, s, step).councils
    ensures
      var c := After(p, s, step).councils[k];
      (k in s.councils && c == s.councils[k]) || FixedBy(step, k, c)
  {
  }

  lemma StepProposes(p: Program, s: State, step: Step, k: Key)
    requires k in After(p, s, step).proposals
    ensures
      var proposal := After(p, s, step).proposals[k];
      (k in s.proposals && SameTerms(s.proposals[k], proposal)) || ProposedBy(p, s, step, k, proposal)
  {
    if step.CreateProposal? && Do(p, s, step).Some? && step.terms.account.key == k {
      var t := step.terms;
      assert p.find(VoucherSeeds(t.id)) == Some((p.find(VoucherSeeds(t.id)).value.0, t.voucherBump));
      assert p.find(ProposalSeeds(t.id)) == Some((p.find(ProposalSeeds(t.id)).value.0, t.bump));
    }
  }

  lemma StepRecords(p: Program, s: State, step: Step, r: Key)
    requires Housed(s) && Housed(After(p, s, step)) && r in After(p, s, step).records
    ensures
      var next := After(p, s, step);
      || (r in s.records && next.records[r] == s.records[r] && next.cast[r] == s.cast[r])
      || VotedBy(s, step, r, next.records[r], next.cast[r])
  {
  }

  /** A proposal approved by this step was approved by a yes of its own, at the quorum. */
  lemma StepApproves(p: Program, s: State, step: Step, k: Key)
    requires Housed(s) && Proposed(p, s) && k in After(p, s, step).proposals
    requires After(p, s, step).proposals[k].status == STATUS_APPROVED
    requires k in s.proposals ==> s.proposals[k].status != STATUS_APPROVED
    ensures
      && step.CastVote? && step.ballot.proposal == k && step.ballot.vote == 1 && step.ballot.call.Some?
      && k in s.proposals
      && var call := step.ballot.call.value;
      && call.voucher !in s.taken && call.accepted && call.dwallet == s.proposals[k].dwallet
      && p.derive(VoucherSeeds(s.proposals[k].id) + [s.proposals[k].voucherBump]) == Some(call.voucher)
      && s.proposals[k].yes + 1 == s.proposals[k].quorum
      && SameTerms(s.proposals[k], After(p, s, step).proposals[k])
  {
    if step.CastVote? && Do(p, s, step).Some? {
      assert ProposalAt(p, s, s.proposals[step.ballot.proposal]);
    }
  }

  lemma StepKeepsVouchers(p: Program, s: State, step: Step, v: Key)
    requires Housed(s) && v in s.vouchers
    ensures v in After(p, s, step).vouchers && After(p, s, step).vouchers[v] == s.vouchers[v]
  {
  }

  /** The voucher of an approved proposal is at the address its bump derives. */
  lemma ApprovedHasIts(p: Program, s: State, k: Key, v: Key)
    requires Vouched(p, s) && k in s.proposals && s.proposals[k].status == STATUS_APPROVED
    requires p.derive(VoucherSeeds(s.proposals[k].id) + [s.proposals[k].voucherBump]) == Some(v)
    ensures IssuedFor(p, s, v, k)
  {
  }

  lemma StepIssues(p: Program, s: State, step: Step, v: Key, k: Key)
    requires Inv(p, s) && IssuedFor(p, After(p, s, step), v, k)
    ensures
      var voucher := After(p, s, step).vouchers[v];
      || (IssuedFor(p, s, v, k) && voucher == s.vouchers[v])
      || IssuedBy(s, step, v, k, voucher)
  {
    if k in s.proposals && s.proposals[k].status == STATUS_APPROVED {
      StepKeepsProposal(p, s, step, k);
      ApprovedHasIts(p, s, k, v);
      StepKeepsVouchers(p, s, step, v);
    } else {
      StepApproves(p, s, step, k);
    }
  }

  // ── Whole runs ───────────────────────────────────────────────────────────

  lemma {:induction false} CouncilOrigin(p: Program, steps: seq<Step>, k: Key)
    requires k in Reached(p, steps).councils
    ensures exists i | 0 <= i < |steps| :: FixedBy(steps[i], k, Reached(p, steps).councils[k])
    decreases |steps|
  {
    var earlier, last := steps[..|steps| - 1], steps[|steps| - 1];
    StepFixes(p, Reached(p, earlier), last, k);
    var c := Reached(p, steps).councils[k];
    if FixedBy(last, k, c) {
      assert FixedBy(steps[|steps| - 1], k, c);
    } else {
      CouncilOrigin(p, earlier, k);
      var i :| 0 <= i < |earlier| && FixedBy(earlier[i], k, c);
      assert FixedBy(steps[i], k, c);
    }
  }

  lemma {:induction false} ProposalOrigin(p: Program, steps: seq<Step>, k: Key)
    requires k in Reached(p, steps).proposals
    ensures exists i | 0 <= i < |steps| ::
              ProposedBy(p, Reached(p, steps[..i]), steps[i], k, Reached(p, steps).proposals[k])
    decreases |steps|
  {
    var earlier, last := steps[..|steps| - 1], steps[|steps| - 1];
    StepProposes(p, Reached(p, earlier), last, k);
    var proposal := Reached(p, steps).proposals[k];
    if ProposedBy(p, Reached(p, earlier), last, k, proposal) {
      assert ProposedBy(p, Reached(p, steps[..|steps| - 1]), steps[|steps| - 1], k, proposal);
    } else {
      ProposalOrigin(p, earlier, k);
      var i :| 0 <= i < |earlier| &&
        ProposedBy(p, Reached(p, earlier[..i]), earlier[i], k, Reached(p, earlier).proposals[k]);
      assert earlier[..i] == steps[..i];
      assert ProposedBy(p, Reached(p, steps[..i]), steps[i], k, proposal);
    }
  }

  lemma {:induction false} RecordOrigin(p: Program, steps: seq<Step>, r: Key)
    requires r in Reached(p, steps).records
    ensures r in Reached(p, steps).cast
    ensures exists i | 0 <= i < |steps| ::
              VotedBy(Reached(p, steps[..i]), steps[i], r, Reached(p, steps).records[r], Reached(p, steps).cast[r])
    decreases |steps|
  {
    var earlier := steps[..|steps| - 1];
    LastRecords(p, steps, r);
    var record, k := Reached(p, steps).records[r], Reached(p, steps).cast[r];
    if !VotedBy(Reached(p, earlier), steps[|steps| - 1], r, record, k) {
      RecordOrigin(p, earlier, r);
      VotedEarlier(p, steps, r, record, k);
    }
  }

  lemma VotedEarlier(p: Program, steps: seq<Step>, r: Key, record: VoteRecord, k: Key)
    requires steps != []
    requires
      var earlier := steps[..|steps| - 1];
      exists i | 0 <= i < |earlier| :: VotedBy(Reached(p, earlier[..i]), earlier[i], r, record, k)
    ensures exists i | 0 <= i < |steps| :: VotedBy(Reached(p, steps[..i]), steps[i], r, record, k)
  {
    var earlier := steps[..|steps| - 1];
    var i :| 0 <= i < |earlier| && VotedBy(Reached(p, earlier[..i]), earlier[i], r, record, k);
    assert earlier[..i] == steps[..i];
    assert VotedBy(Reached(p, steps[..i]), steps[i], r, record, k);
  }

  /** The last step wrote the record, or it was there before. */
  lemma LastRecords(p: Program, steps: seq<Step>, r: Key)
    requires steps != [] && r in Reached(p, steps).records
    ensures
      var s, next := Reached(p, steps[..|steps| - 1]), Reached(p, steps);
      && r in next.cast
      && ((r in s.records && r in s.cast && next.records[r] == s.records[r] && next.cast[r] == s.cast[r])
          || VotedBy(s, steps[|steps| - 1], r, next.records[r], next.cast[r]))
  {
    ReachedIsSound(p, steps[..|steps| - 1]);
    ReachedIsSound(p, steps);
    StepRecords(p, Reached(p, steps[..|steps| - 1]), steps[|steps| - 1], r);
  }

  lemma {:induction false} VoucherOrigin(p: Program, steps: seq<Step>, v: Key, k: Key)
    requires IssuedFor(p, Reached(p, steps), v, k)
    ensures exists i | 0 <= i < |steps| ::
              IssuedBy(Reached(p, steps[..i]), steps[i], v, k, Reached(p, steps).vouchers[v])
    decreases |steps|
  {
    if steps != [] {
      var earlier, last := steps[..|steps| - 1], steps[|steps| - 1];
      ReachedIsSound(p, earlier);
      StepIssues(p, Reached(p, earlier), last, v, k);
      var voucher := Reached(p, steps).vouchers[v];
      if IssuedBy(Reached(p, earlier), last, v, k, voucher) {
        assert IssuedBy(Reached(p, steps[..|steps| - 1]), steps[|steps| - 1], v, k, voucher);
      } else {
        VoucherOrigin(p, earlier, v, k);
        IssuedEarlier(p, steps, v, k, voucher);
      }
    }
  }

  lemma IssuedEarlier(p: Program, steps: seq<Step>, v: Key, k: Key, voucher: Voucher)
    requires steps != []
    requires
      var earlier := steps[..|steps| - 1];
      exists i | 0 <= i < |earlier| :: IssuedBy(Reached(p, earlier[..i]), earlier[i], v, k, voucher)
    ensures exists i | 0 <= i < |steps| :: IssuedBy(Reached(p, steps[..i]), steps[i], v, k, voucher)
  {
    var earlier := steps[..|steps| - 1];
    var i :| 0 <= i < |earlier| && IssuedBy(Reached(p, earlier[..i]), earlier[i], v, k, voucher);
    assert earlier[..i] == steps[..i];
    assert IssuedBy(Reached(p, steps[..i]), steps[i], v, k, voucher);
  }

  // ── The whole story of a voucher ─────────────────────────────────────────

  /** What a member proposed at `step` is what the voucher authorises. */
  ghost predicate Authorises(voucher: Voucher, step: Step) {
    && step.CreateProposal?
    && var t := step.terms;
    && voucher.dwallet == t.dwallet && voucher.messageDigest == t.messageDigest && voucher.scheme == t.scheme
    && voucher.signingKey == Some(t.userPubkey) && voucher.owner.None? && !voucher.future
  }

  /** The yes at `r`, counted on `k`, is a signed vote of the run. */
  ghost predicate VotedYesInRun(p: Program, steps: seq<Step>, k: Key, r: Key) {
    exists i | 0 <= i < |steps| ::
      && steps[i].CastVote? && steps[i].ballot.record.key == r && steps[i].ballot.proposal == k
      && steps[i].ballot.vote == 1 && steps[i].ballot.voterSigns
      && r in Reached(p, steps).records && steps[i].ballot.voter == Reached(p, steps).records[r].voter
  }

  /**
   * Every voucher of a reachable state goes back to the run: the dWallet's
   * owner signed the terms of its council, a member signed the proposal it
   * authorises, and exactly the quorum of yes votes, each a signed
   * instruction of a member, were counted for it, the last of which issued it.
   */
  lemma VoucherStory(p: Program, steps: seq<Step>, v: Key, k: Key)
    requires VoucherComesFrom(p, Reached(p, steps), v, k)
    ensures
      var s := Reached(p, steps);
      var proposal, voucher := s.proposals[k], s.vouchers[v];
      var c := CouncilOf(p, voucher.dwallet).value;
      && (exists i | 0 <= i < |steps| :: FixedBy(steps[i], c, s.councils[c]) && s.councils[c].dwallet == voucher.dwallet)
      && (exists i | 0 <= i < |steps| ::
            ProposedBy(p, Reached(p, steps[..i]), steps[i], k, proposal) && Authorises(voucher, steps[i]))
      && |Votes(s, k, true)| == s.councils[c].quorum
      && (forall r <- Votes(s, k, true) :: VotedYesInRun(p, steps, k, r))
      && (exists i | 0 <= i < |steps| :: IssuedBy(Reached(p, steps[..i]), steps[i], v, k, voucher))
  {
    var s := Reached(p, steps);
    var proposal, voucher := s.proposals[k], s.vouchers[v];
    CouncilOrigin(p, steps, CouncilOf(p, voucher.dwallet).value);
    ProposalOrigin(p, steps, k);
    var i :| 0 <= i < |steps| && ProposedBy(p, Reached(p, steps[..i]), steps[i], k, proposal);
    assert Authorises(voucher, steps[i]);
    VoucherOrigin(p, steps, v, k);
    forall r <- Votes(s, k, true) ensures VotedYesInRun(p, steps, k, r) {
      RecordOrigin(p, steps, r);
      var j :| 0 <= j < |steps| && VotedBy(Reached(p, steps[..j]), steps[j], r, s.records[r], s.cast[r]);
      assert steps[j].CastVote?;
    }
  }
}
