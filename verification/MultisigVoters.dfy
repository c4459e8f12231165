/**
 * Whose votes a multisig counts: when a transaction's records are by distinct
 * members, exactly, and what a member who has voted can still do
 * (examples/multisig/native/src/lib.rs).
 */
module MultisigVoters {
  import opened Common
  import opened Bytes
  import opened ProgramAddresses
  import opened Governance
  import opened MultisigMachine
  import opened MultisigProofs
  import opened MultisigTheorems

  /** A record of the transaction names the member. */
  predicate HasVoted(s: State, t: Key, member: Key) {
    exists r <- s.records :: s.records[r].transaction == t && s.records[r].member == member
  }

  // ── Distinct voters, exactly ─────────────────────────────────────────────

  /** A vote keeps the voters of its transaction distinct exactly when its member had no record there. */
  lemma VoteKeepsVotersDistinct(s: State, next: State, v: Vote, approved: u8)
    requires Voted(s, next, v, approved) && OneRecordEach(s, Ballots(s, v.transaction))
    ensures OneRecordEach(next, Ballots(next, v.transaction)) <==> !HasVoted(s, v.transaction, v.member)
  {
    var t, key := v.transaction, v.record.key;
    assert key in Ballots(next, t);
    if HasVoted(s, t, v.member) {
      var r :| r in s.records && s.records[r].transaction == t && s.records[r].member == v.member;
      assert r in Ballots(next, t) && r != key && next.records[r].member == next.records[key].member;
    } else {
      forall r <- Ballots(next, t) | r != key ensures r in Ballots(s, t) && next.records[r].member != v.member {
      }
    }
  }

  ghost predicate AllDistinct(s: State) {
    forall t <- s.transactions :: OneRecordEach(s, Ballots(s, t))
  }

  /** The vote's member had no record of its transaction. */
  ghost predicate FirstVote(p: Program, s: State, step: Step) {
    CreatesRecord(p, s, step) ==> !HasVoted(s, step.vote.transaction, step.vote.member)
  }

  lemma OtherBallotsStay(s: State, next: State, v: Vote, approved: u8, t: Key)
    requires Voted(s, next, v, approved) && t != v.transaction
    ensures Ballots(next, t) == Ballots(s, t)
    ensures OneRecordEach(next, Ballots(next, t)) <==> OneRecordEach(s, Ballots(s, t))
  {
    assert forall r <- Ballots(s, t) :: next.records[r] == s.records[r];
    assert forall r <- Ballots(next, t) :: r in s.records && next.records[r] == s.records[r];
  }

  lemma RepeatsStay(s: State, next: State, v: Vote, approved: u8)
    requires Voted(s, next, v, approved) && !OneRecordEach(s, Ballots(s, v.transaction))
    ensures !OneRecordEach(next, Ballots(next, v.transaction))
  {
    var t := v.transaction;
    var r1, r2 :| r1 in Ballots(s, t) && r2 in Ballots(s, t) && s.records[r1].member == s.records[r2].member && r1 != r2;
    assert r1 in Ballots(next, t) && r2 in Ballots(next, t);
  }

  lemma VotedIsDistinct(s: State, next: State, v: Vote, approved: u8)
    requires Voted(s, next, v, approved)
    ensures AllDistinct(next) <==> AllDistinct(s) && !HasVoted(s, v.transaction, v.member)
  {
    forall t <- s.transactions | t != v.transaction
      ensures OneRecordEach(next, Ballots(next, t)) <==> OneRecordEach(s, Ballots(s, t))
    {
      OtherBallotsStay(s, next, v, approved, t);
    }
    assert next.transactions.Keys == s.transactions.Keys;
    if OneRecordEach(s, Ballots(s, v.transaction)) {
      VoteKeepsVotersDistinct(s, next, v, approved);
    } else {
      RepeatsStay(s, next, v, approved);
    }
  }

  /** Where no record changes, the voters of every transaction stay as they are. */
  lemma SameRecordsSameVoters(s: State, next: State)
    requires Recorded(s) && next.records == s.records && s.transactions.Keys <= next.transactions.Keys
    ensures AllDistinct(next) <==> AllDistinct(s)
  {
    forall t ensures Ballots(next, t) == Ballots(s, t) {}
    forall t <- next.transactions | t !in s.transactions ensures Ballots(s, t) == {} {
      forall r <- s.records ensures s.records[r].transaction != t { assert RecordedAt(s, s.records[r]); }
    }
    assert AllDistinct(s) ==> forall t <- next.transactions :: OneRecordEach(next, Ballots(next, t));
    assert AllDistinct(next) ==> forall t <- s.transactions :: OneRecordEach(s, Ballots(s, t));
  }

  lemma NoVoteKeepsRecords(p: Program, s: State, step: Step)
    requires Housed(s) && !CreatesRecord(p, s, step)
    ensures After(p, s, step).records == s.records && s.transactions.Keys <= After(p, s, step).transactions.Keys
  {
  }

  lemma StepIsDistinct(p: Program, s: State, step: Step)
    requires Inv(p, s)
    ensures AllDistinct(After(p, s, step)) <==> AllDistinct(s) && FirstVote(p, s, step)
  {
    if CreatesRecord(p, s, step) {
      if step.Approve? {
        ApproveVotes(p, s, step.vote);
        VotedIsDistinct(s, After(p, s, step), step.vote, 1);
      } else {
        RejectVotes(p, s, step.vote);
        VotedIsDistinct(s, After(p, s, step), step.vote, 0);
      }
    } else {
      NoVoteKeepsRecords(p, s, step);
      SameRecordsSameVoters(s, After(p, s, step));
    }
  }

  /** Every successful vote of the run was by a member who had no record of that transaction when it was cast. */
  ghost predicate FirstVotes(p: Program, steps: seq<Step>) {
    forall i | 0 <= i < |steps| :: FirstVote(p, Reached(p, steps[..i]), steps[i])
  }

  lemma FirstVotesOneMore(p: Program, steps: seq<Step>, step: Step)
    ensures FirstVotes(p, steps + [step]) <==> FirstVotes(p, steps) && FirstVote(p, Reached(p, steps), step)
  {
    var all := steps + [step];
    forall i | 0 <= i < |steps| ensures all[..i] == steps[..i] && all[i] == steps[i] {}
    assert all[..|steps|] == steps && all[|steps|] == step;
    if FirstVotes(p, steps) && FirstVote(p, Reached(p, steps), step) {
      forall i | 0 <= i < |all| ensures FirstVote(p, Reached(p, all[..i]), all[i]) {}
    }
    if FirstVotes(p, all) {
      assert FirstVote(p, Reached(p, all[..|steps|]), all[|steps|]);
      forall i | 0 <= i < |steps| ensures FirstVote(p, Reached(p, steps[..i]), steps[i]) {
        assert FirstVote(p, Reached(p, all[..i]), all[i]);
      }
    }
  }

  /**
   * Over any run from an empty chain, the voters of every transaction are
   * distinct if and only if no successful vote was by a member who had a
   * record of that transaction when it was cast.
   */
  lemma {:induction false} DistinctExactly(p: Program, steps: seq<Step>)
    ensures AllDistinct(Reached(p, steps)) <==> FirstVotes(p, steps)
    decreases |steps|
  {
    if steps != [] {
      var earlier, last := steps[..|steps| - 1], steps[|steps| - 1];
      assert steps == earlier + [last];
      DistinctExactly(p, earlier);
      ReachedIsSound(p, earlier);
      StepIsDistinct(p, Reached(p, earlier), last);
      FirstVotesOneMore(p, earlier, last);
      RunOneMore(p, EMPTY, earlier, last);
    }
  }

  /** The counts of a transaction are of distinct members exactly when its voters are distinct; the members never exceed the multisig's. */
  lemma VotersCountExactly(p: Program, steps: seq<Step>, t: Key)
    requires t in Reached(p, steps).transactions
    ensures
      var s := Reached(p, steps);
      var tx := s.transactions[t];
      && tx.multisig in s.multisigs
      && |MembersOf(s, Ballots(s, t))| <= |s.multisigs[tx.multisig].members|
      && (tx.approvals + tx.rejections == |MembersOf(s, Ballots(s, t))| <==> OneRecordEach(s, Ballots(s, t)))
  {
    var s := Reached(p, steps);
    VoteAccounting(p, steps, t);
    ReachedIsSound(p, steps);
    BallotsAddUp(s, t);
    MembersCountExactly(s, Ballots(s, t));
    MembersAreTheMultisigs(p, s, t);
  }

  lemma MembersAreTheMultisigs(p: Program, s: State, t: Key)
    requires Governed(p, s) && t in s.transactions && s.transactions[t].multisig in s.multisigs
    requires forall r <- Ballots(s, t) :: s.records[r].member in s.multisigs[s.transactions[t].multisig].members
    ensures |MembersOf(s, Ballots(s, t))| <= |s.multisigs[s.transactions[t].multisig].members|
  {
    var m := s.multisigs[s.transactions[t].multisig];
    assert Sound(p, s.transactions[t].multisig, m);
    DistinctMembersCount(m.members);
    SubsetIsNoLarger(MembersOf(s, Ballots(s, t)), set x | x in m.members);
  }

  /** A voucher's approvers are exactly the threshold of members if and only if each approval is by another. */
  lemma ApproversCountExactly(p: Program, steps: seq<Step>, v: Key, t: Key)
    requires VoucherComesFrom(p, Reached(p, steps), v, t)
    ensures
      var s := Reached(p, steps);
      |MembersOf(s, Votes(s, t, true))| == s.multisigs[s.transactions[t].multisig].threshold <==>
        OneRecordEach(s, Votes(s, t, true))
  {
    MembersCountExactly(Reached(p, steps), Votes(Reached(p, steps), t, true));
  }

  // ── A second vote ────────────────────────────────────────────────────────

  /** Everything a vote needs but its record account. */
  predicate VoteFits(p: Program, s: State, v: Vote) {
    && v.memberSigns && VerifiedMember(p, s, v.multisig, v.member)
    && v.transaction in s.transactions
    && s.transactions[v.transaction].status == STATUS_ACTIVE
    && s.transactions[v.transaction].multisig == v.multisig
    && IsCanonicalBump(p, ApprovalSeeds(v.transaction, v.member), v.recordBump)
  }

  /** An approval stays below the threshold, or is given the accounts of its voucher. */
  predicate CallFits(p: Program, s: State, v: Vote)
    requires v.transaction in s.transactions && v.multisig in s.multisigs
  {
    var tx, m := s.transactions[v.transaction], s.multisigs[v.multisig];
    || tx.approvals + 1 < m.threshold
    || (&& v.call.Some? && v.call.value.dwallet == m.dwallet
        && p.derive(VoucherSeeds(v.transaction) + [tx.voucherBump]) == Some(v.call.value.voucher)
        && v.call.value.accepted && v.call.value.voucher !in s.taken + {v.record.key})
  }

  /** The derived record address of the vote's member is taken: the member voted there. */
  ghost predicate DerivedIsTaken(p: Program, s: State, v: Vote) {
    exists r <- s.taken :: RecordAddress(p, v.transaction, v.member) == Some(r)
  }

  /** A fitting vote of a member who has voted at the derived address is recorded exactly at an empty address that signs. */
  lemma SecondRecordNeedsASigner(p: Program, s: State, v: Vote, approved: u8)
    requires Coherent(p) && VoteFits(p, s, v) && DerivedIsTaken(p, s, v)
    ensures RecordVote(p, s, v, approved).Some? <==> v.record.key !in s.taken && v.record.signs
  {
    var seeds := ApprovalSeeds(v.transaction, v.member);
    var r :| r in s.taken && RecordAddress(p, v.transaction, v.member) == Some(r);
    assert p.find(seeds) == Some((r, v.recordBump));
    assert p.derive(seeds + [v.recordBump]) == Some(r);
  }

  lemma SmallCounts(p: Program, s: State, t: Key)
    requires Governed(p, s) && AllDecided(s) && t in s.transactions && s.transactions[t].multisig in s.multisigs
    requires s.transactions[t].status == STATUS_ACTIVE
    ensures
      var tx, m := s.transactions[t], s.multisigs[s.transactions[t].multisig];
      && tx.approvals < m.threshold <= |m.members| <= MAX_MEMBERS && tx.rejections < MAX_MEMBERS + 1
  {
    assert DecidedAt(s, s.transactions[t]);
    assert Sound(p, s.transactions[t].multisig, s.multisigs[s.transactions[t].multisig]);
  }

  /** Once its record is written, an approval that fits succeeds. */
  lemma RecordedApproval(p: Program, s: State, v: Vote)
    requires v.transaction in s.transactions && v.multisig in s.multisigs
    requires CallFits(p, s, v) && s.transactions[v.transaction].approvals <= MAX_MEMBERS
    ensures DoApprove(p, s, v).Some? <==> RecordVote(p, s, v, 1).Some?
  {
  }

  /** So an otherwise valid second approval succeeds if and only if its record account is empty and signs. */
  lemma SecondApprovalExactly(p: Program, s: State, v: Vote)
    requires Coherent(p) && Inv(p, s) && VoteFits(p, s, v) && CallFits(p, s, v) && DerivedIsTaken(p, s, v)
    ensures DoApprove(p, s, v).Some? <==> v.record.key !in s.taken && v.record.signs
  {
    SecondRecordNeedsASigner(p, s, v, 1);
    SmallCounts(p, s, v.transaction);
    RecordedApproval(p, s, v);
  }

  /** And so does a second rejection. */
  lemma SecondRejectionExactly(p: Program, s: State, v: Vote)
    requires Coherent(p) && Inv(p, s) && VoteFits(p, s, v) && DerivedIsTaken(p, s, v)
    ensures DoReject(p, s, v).Some? <==> v.record.key !in s.taken && v.record.signs
  {
    SecondRecordNeedsASigner(p, s, v, 0);
    SmallCounts(p, s, v.transaction);
  }

  /**
   * After an approval that left the transaction active, the same member's
   * approval is counted once more at any empty address that signs, below the
   * threshold or with its voucher.
   */
  lemma SecondApprovalCounts(p: Program, s: State, v: Vote, next: State, other: Key)
    requires Inv(p, s) && DoApprove(p, s, v) == Some(next)
    requires other !in next.taken && next.transactions[v.transaction].status == STATUS_ACTIVE
    requires CallFits(p, next, v.(record := NewAccount(other, true)))
    ensures
      var again := DoApprove(p, next, v.(record := NewAccount(other, true)));
      && again.Some?
      && again.value.transactions[v.transaction].approvals == s.transactions[v.transaction].approvals + 2
      && !OneRecordEach(again.value, Ballots(again.value, v.transaction))
  {
    var second := v.(record := NewAccount(other, true));
    ApprovalKeepsSound(p, s, v, next);
    ApproveVotes(p, s, v);
    ApproveFits(p, s, v);
    SmallCounts(p, next, v.transaction);
    FitsAgain(p, s, next, v, other);
    RecordedApproval(p, next, second);
    ApproveVotes(p, next, second);
    VotedTwice(s, v, next, second, DoApprove(p, next, second).value);
  }

  lemma ApprovalKeepsSound(p: Program, s: State, v: Vote, next: State)
    requires Inv(p, s) && DoApprove(p, s, v) == Some(next)
    ensures Inv(p, next)
  {
    ApproveVotes(p, s, v);
    ApproveDecides(p, s, v);
    ApprovalKeepsInv(p, s, next, v);
  }

  lemma ApproveFits(p: Program, s: State, v: Vote)
    requires DoApprove(p, s, v).Some?
    ensures VoteFits(p, s, v)
  {
  }

  /** The same member's vote fits once more while the transaction is active. */
  lemma FitsAgain(p: Program, s: State, next: State, v: Vote, other: Key)
    requires VoteFits(p, s, v) && Voted(s, next, v, 1) && other !in next.taken
    requires next.transactions[v.transaction].status == STATUS_ACTIVE
    ensures RecordVote(p, next, v.(record := NewAccount(other, true)), 1).Some?
  {
    assert VerifiedMember(p, next, v.multisig, v.member);
  }

  lemma VotedTwice(s: State, v: Vote, next: State, second: Vote, again: State)
    requires Voted(s, next, v, 1) && Voted(next, again, second, 1)
    requires second == v.(record := second.record)
    ensures again.transactions[v.transaction].approvals == s.transactions[v.transaction].approvals + 2
    ensures !OneRecordEach(again, Ballots(again, v.transaction))
  {
    assert v.record.key in Ballots(again, v.transaction) && second.record.key in Ballots(again, v.transaction);
  }

  // ── One member up to the voucher ─────────────────────────────────────────

  /** The same member's approval at each of `keys`, every one signing. */
  function Approvals(v: Vote, keys: seq<Key>): seq<Step> {
    seq(|keys|, i requires 0 <= i < |keys| => Approve(v.(record := NewAccount(keys[i], true))))
  }

  ghost predicate Fresh(s: State, keys: seq<Key>) {
    Distinct(keys) && forall k <- keys :: k !in s.taken
  }

  /** The record of the member's approval. */
  function Approval(v: Vote): ApprovalRecord { ApprovalRecord(1, v.member, v.transaction, 1, v.recordBump) }

  /** `next` is `s` with one more `record` at each of `keys`, counted as approvals of `t`. */
  ghost predicate Repeated(s: State, next: State, t: Key, record: ApprovalRecord, keys: seq<Key>)
    requires t in s.transactions
  {
    && next.multisigs == s.multisigs && next.vouchers == s.vouchers
    && next.taken == s.taken + (set k | k in keys)
    && next.transactions == s.transactions[t := s.transactions[t].(approvals := s.transactions[t].approvals + |keys|)]
    && Extended(s.records, next.records, keys, record)
  }

  /** One more approval at a fresh signing address. */
  lemma OneMoreRepeat(p: Program, s: State, mid: State, v: Vote, keys: seq<Key>, k: Key)
    requires VoteFits(p, s, v) && Repeated(s, mid, v.transaction, Approval(v), keys) && k !in mid.taken
    requires s.transactions[v.transaction].approvals + |keys| + 1 < s.multisigs[v.multisig].threshold <= MAX_MEMBERS
    ensures DoApprove(p, mid, v.(record := NewAccount(k, true))).Some?
    ensures Repeated(s, DoApprove(p, mid, v.(record := NewAccount(k, true))).value, v.transaction, Approval(v), keys + [k])
  {
    var again := v.(record := NewAccount(k, true));
    assert VerifiedMember(p, mid, v.multisig, v.member);
    assert RecordVote(p, mid, again, 1).Some?;
    assert (set x | x in keys + [k]) == (set x | x in keys) + {k};
    ExtendedOneMore(s.records, mid.records, keys, k, Approval(v));
  }

  lemma ApprovalsOneMore(v: Vote, keys: seq<Key>, k: Key)
    ensures Approvals(v, keys + [k]) == Approvals(v, keys) + [Approve(v.(record := NewAccount(k, true)))]
  {
  }

  lemma RunOneMore(p: Program, s: State, steps: seq<Step>, step: Step)
    ensures Run(p, s, steps + [step]) == After(p, Run(p, s, steps), step)
  {
    assert (steps + [step])[..|steps|] == steps;
  }

  lemma {:induction false} RepeatsBelowThreshold(p: Program, s: State, v: Vote, keys: seq<Key>)
    requires VoteFits(p, s, v) && Fresh(s, keys)
    requires s.transactions[v.transaction].approvals + |keys| < s.multisigs[v.multisig].threshold <= MAX_MEMBERS
    ensures Repeated(s, Run(p, s, Approvals(v, keys)), v.transaction, Approval(v), keys)
    decreases |keys|
  {
    if keys == [] {
      assert Approvals(v, keys) == [];
    } else {
      var n := |keys| - 1;
      var earlier, k := keys[..n], keys[n];
      assert keys == earlier + [k];
      RepeatsBelowThreshold(p, s, v, earlier);
      var mid := Run(p, s, Approvals(v, earlier));
      assert k !in mid.taken by { assert k !in earlier; }
      OneMoreRepeat(p, s, mid, v, earlier, k);
      ApprovalsOneMore(v, earlier, k);
      RunOneMore(p, s, Approvals(v, earlier), Approve(v.(record := NewAccount(k, true))));
    }
  }

  /** The approval that reaches the threshold, after the repeated ones. */
  lemma LastRepeat(p: Program, s: State, mid: State, v: Vote, keys: seq<Key>, k: Key)
    requires VoteFits(p, s, v) && Repeated(s, mid, v.transaction, Approval(v), keys) && k !in mid.taken
    requires s.transactions[v.transaction].approvals + |keys| + 1 == s.multisigs[v.multisig].threshold <= MAX_MEMBERS
    requires CallFits(p, mid, v.(record := NewAccount(k, true)))
    ensures DoApprove(p, mid, v.(record := NewAccount(k, true))).Some?
    ensures
      var end := DoApprove(p, mid, v.(record := NewAccount(k, true))).value;
      && v.transaction in end.transactions && end.transactions[v.transaction].status == STATUS_APPROVED
      && IssuedFor(p, end, v.call.value.voucher, v.transaction)
      && end.records == mid.records[k := Approval(v)]
  {
    var again := v.(record := NewAccount(k, true));
    assert VerifiedMember(p, mid, v.multisig, v.member);
    assert RecordVote(p, mid, again, 1).Some?;
  }

  /**
   * One member alone can bring a transaction to its voucher: its approvals at
   * as many empty signing addresses as the threshold still needs all succeed,
   * and the last one issues the voucher. If nobody else approved, every
   * approval behind the voucher names that one member.
   */
  lemma OneMemberIsEnough(p: Program, s: State, v: Vote, keys: seq<Key>)
    requires Inv(p, s) && VoteFits(p, s, v) && Fresh(s, keys)
    requires s.transactions[v.transaction].approvals + |keys| == s.multisigs[v.multisig].threshold
    requires v.call.Some? && v.call.value.accepted && v.call.value.dwallet == s.multisigs[v.multisig].dwallet
    requires p.derive(VoucherSeeds(v.transaction) + [s.transactions[v.transaction].voucherBump]) == Some(v.call.value.voucher)
    requires v.call.value.voucher !in s.taken && v.call.value.voucher !in keys
    ensures
      var end := Run(p, s, Approvals(v, keys));
      && v.transaction in end.transactions && end.transactions[v.transaction].status == STATUS_APPROVED
      && IssuedFor(p, end, v.call.value.voucher, v.transaction)
      && (Votes(s, v.transaction, true) == {} ==> MembersOf(end, Votes(end, v.transaction, true)) == {v.member})
  {
    SmallCounts(p, s, v.transaction);
    var n := |keys| - 1;
    assert keys == keys[..n] + [keys[n]];
    RepeatsThenLast(p, s, v, keys[..n], keys[n]);
  }

  lemma FreshButLast(s: State, keys: seq<Key>, k: Key)
    requires Fresh(s, keys + [k])
    ensures Fresh(s, keys) && k !in s.taken && k !in keys
  {
    var all := keys + [k];
    assert all[|keys|] == k && forall i | 0 <= i < |keys| :: all[i] == keys[i];
    forall x <- keys ensures x in all && x != k {}
    assert k in all;
  }

  lemma RepeatsThenLast(p: Program, s: State, v: Vote, keys: seq<Key>, k: Key)
    requires VoteFits(p, s, v) && Fresh(s, keys + [k])
    requires s.transactions[v.transaction].approvals + |keys| + 1 == s.multisigs[v.multisig].threshold <= MAX_MEMBERS
    requires v.call.Some? && v.call.value.accepted && v.call.value.dwallet == s.multisigs[v.multisig].dwallet
    requires p.derive(VoucherSeeds(v.transaction) + [s.transactions[v.transaction].voucherBump]) == Some(v.call.value.voucher)
    requires v.call.value.voucher !in s.taken && v.call.value.voucher !in keys && v.call.value.voucher != k
    ensures
      var end := Run(p, s, Approvals(v, keys + [k]));
      && v.transaction in end.transactions && end.transactions[v.transaction].status == STATUS_APPROVED
      && IssuedFor(p, end, v.call.value.voucher, v.transaction)
      && (Votes(s, v.transaction, true) == {} ==> MembersOf(end, Votes(end, v.transaction, true)) == {v.member})
  {
    FreshButLast(s, keys, k);
    RepeatsBelowThreshold(p, s, v, keys);
    var mid := Run(p, s, Approvals(v, keys));
    assert k !in mid.taken;
    LastFits(p, s, mid, v, keys, k);
    LastRepeat(p, s, mid, v, keys, k);
    var end := DoApprove(p, mid, v.(record := NewAccount(k, true))).value;
    LastStep(p, s, v, keys, k, end);
    OnlyThatMember(s, mid, v, keys, end, k);
  }

  lemma LastFits(p: Program, s: State, mid: State, v: Vote, keys: seq<Key>, k: Key)
    requires VoteFits(p, s, v) && Repeated(s, mid, v.transaction, Approval(v), keys)
    requires v.call.Some? && v.call.value.accepted && v.call.value.dwallet == s.multisigs[v.multisig].dwallet
    requires p.derive(VoucherSeeds(v.transaction) + [s.transactions[v.transaction].voucherBump]) == Some(v.call.value.voucher)
    requires v.call.value.voucher !in s.taken && v.call.value.voucher !in keys && v.call.value.voucher != k
    ensures CallFits(p, mid, v.(record := NewAccount(k, true)))
  {
  }

  lemma LastStep(p: Program, s: State, v: Vote, keys: seq<Key>, k: Key, end: State)
    requires DoApprove(p, Run(p, s, Approvals(v, keys)), v.(record := NewAccount(k, true))) == Some(end)
    ensures Run(p, s, Approvals(v, keys + [k])) == end
  {
    ApprovalsOneMore(v, keys, k);
    RunOneMore(p, s, Approvals(v, keys), Approve(v.(record := NewAccount(k, true))));
  }

  lemma OnlyThatMember(s: State, mid: State, v: Vote, keys: seq<Key>, end: State, k: Key)
    requires v.transaction in s.transactions && Repeated(s, mid, v.transaction, Approval(v), keys)
    requires end.records == mid.records[k := Approval(v)]
    ensures Votes(s, v.transaction, true) == {} ==> MembersOf(end, Votes(end, v.transaction, true)) == {v.member}
  {
    var t := v.transaction;
    forall r ensures r in Votes(end, t, true) <==> r in Votes(s, t, true) || r in keys || r == k {
      assert Entry(mid.records, r) == if r in keys then Some(Approval(v)) else Entry(s.records, r);
    }
    forall r | r in keys ensures end.records[r].member == v.member {
      assert Entry(mid.records, r) == Some(Approval(v));
    }
    assert k in Votes(end, t, true);
  }
}
