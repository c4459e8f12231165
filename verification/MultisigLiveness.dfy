/**
 * What the members of a multisig can bring about: its creation, a proposal,
 * and, with as many of them as the threshold, the voucher
 * (examples/multisig/native/src/lib.rs). No account but the creators' signs.
 */
module MultisigLiveness {
  import opened Common
  import opened Bytes
  import opened ProgramAddresses
  import opened Governance
  import opened MultisigMachine
  import opened MultisigProofs
  import opened MultisigTheorems

  /** A member, and the derived address and bump of its record. */
  datatype Voter = Voter(member: Key, record: Key, bump: u8)

  function ApprovalBy(v: Vote, voter: Voter): Vote {
    v.(member := voter.member, record := NewAccount(voter.record, false), recordBump := voter.bump)
  }

  function ApprovalsBy(v: Vote, voters: seq<Voter>): seq<Step> {
    seq(|voters|, i requires 0 <= i < |voters| => Approve(ApprovalBy(v, voters[i])))
  }

  function RecordsOf(voters: seq<Voter>): set<Key> { set x | x in voters :: x.record }

  /** The voters are members whose derived record addresses are empty, and no two are the same. */
  ghost predicate CanVote(p: Program, s: State, v: Vote, voters: seq<Voter>) {
    && v.multisig in s.multisigs
    && (forall i, j | 0 <= i < j < |voters| :: voters[i].record != voters[j].record)
    && (forall x <- voters ::
          && x.member in s.multisigs[v.multisig].members && x.record !in s.taken
          && p.find(ApprovalSeeds(v.transaction, x.member)) == Some((x.record, x.bump)))
  }

  /** The transaction is active, and the vote's signer signs. */
  ghost predicate Open(s: State, v: Vote) {
    && v.memberSigns && v.transaction in s.transactions && v.multisig in s.multisigs
    && s.transactions[v.transaction].status == STATUS_ACTIVE
    && s.transactions[v.transaction].multisig == v.multisig
  }

  /** The accounts of the voucher call are the transaction's. */
  ghost predicate CallReady(p: Program, s: State, v: Vote, voters: seq<Voter>) {
    && v.transaction in s.transactions && v.multisig in s.multisigs
    && v.call.Some? && v.call.value.accepted
    && v.call.value.dwallet == s.multisigs[v.multisig].dwallet
    && p.derive(VoucherSeeds(v.transaction) + [s.transactions[v.transaction].voucherBump]) == Some(v.call.value.voucher)
    && v.call.value.voucher !in s.taken + RecordsOf(voters)
  }

  /** `next` is `s` after the approvals of `voters`. */
  ghost predicate ApprovedSoFar(s: State, next: State, v: Vote, voters: seq<Voter>)
    requires v.transaction in s.transactions
  {
    var tx := s.transactions[v.transaction];
    && next.multisigs == s.multisigs && next.vouchers == s.vouchers
    && next.taken == s.taken + RecordsOf(voters)
    && next.transactions == s.transactions[v.transaction := tx.(approvals := tx.approvals + |voters|)]
    && (forall x <- voters :: x.record in next.records
          && next.records[x.record] == ApprovalRecord(1, x.member, v.transaction, 1, x.bump))
  }

  /** The next approval is recorded, at its derived address. */
  lemma NextIsRecorded(p: Program, s: State, mid: State, v: Vote, voters: seq<Voter>, next: Voter)
    requires Coherent(p) && Governed(p, s) && Open(s, v) && CanVote(p, s, v, voters + [next])
    requires ApprovedSoFar(s, mid, v, voters)
    ensures RecordVote(p, mid, ApprovalBy(v, next), 1) == Some(mid.(
              records := mid.records[next.record := ApprovalRecord(1, next.member, v.transaction, 1, next.bump)],
              taken := mid.taken + {next.record}))
    ensures next.record !in mid.taken
  {
    assert Sound(p, v.multisig, s.multisigs[v.multisig]);
    assert (voters + [next])[|voters|] == next;
    assert next in voters + [next];
    NoRecordTwice(p, s, v, voters, next);
  }

  lemma SmallThreshold(p: Program, s: State, k: Key)
    requires Governed(p, s) && k in s.multisigs
    ensures 1 <= s.multisigs[k].threshold <= 10
  {
    assert Sound(p, k, s.multisigs[k]);
  }

  /** An active transaction still needs an approval. */
  lemma StillNeedsOne(s: State, t: Key)
    requires AllDecided(s) && t in s.transactions && s.transactions[t].status == STATUS_ACTIVE
    ensures s.transactions[t].multisig in s.multisigs
    ensures s.transactions[t].approvals < s.multisigs[s.transactions[t].multisig].threshold
  {
    assert DecidedAt(s, s.transactions[t]);
  }

  lemma RecordsOneMore(voters: seq<Voter>, next: Voter)
    ensures RecordsOf(voters + [next]) == RecordsOf(voters) + {next.record}
  {
    assert forall x :: x in voters + [next] <==> x in voters || x == next;
  }

  /** `mid` with the next approval recorded and counted. */
  function WithApproval(mid: State, v: Vote, next: Voter): State
    requires v.transaction in mid.transactions
  {
    var tx := mid.transactions[v.transaction];
    mid.(transactions := mid.transactions[v.transaction := tx.(approvals := tx.approvals + 1)],
         records := mid.records[next.record := ApprovalRecord(1, next.member, v.transaction, 1, next.bump)],
         taken := mid.taken + {next.record})
  }

  lemma OneMoreApproved(s: State, mid: State, v: Vote, voters: seq<Voter>, next: Voter)
    requires v.transaction in s.transactions && ApprovedSoFar(s, mid, v, voters)
    requires forall x <- voters :: x.record != next.record
    ensures ApprovedSoFar(s, WithApproval(mid, v, next), v, voters + [next])
  {
    RecordsOneMore(voters, next);
  }

  lemma NoRecordTwice(p: Program, s: State, v: Vote, voters: seq<Voter>, next: Voter)
    requires CanVote(p, s, v, voters + [next])
    ensures forall x <- voters :: x.record != next.record
  {
    assert (voters + [next])[|voters|] == next;
    forall x <- voters ensures x.record != next.record {
      var i :| 0 <= i < |voters| && voters[i] == x;
      assert (voters + [next])[i] == x;
    }
  }

  lemma RecordedIsCounted(p: Program, mid: State, v: Vote, next: Voter)
    requires v.transaction in mid.transactions && v.multisig in mid.multisigs
    requires RecordVote(p, mid, ApprovalBy(v, next), 1) == Some(mid.(
               records := mid.records[next.record := ApprovalRecord(1, next.member, v.transaction, 1, next.bump)],
               taken := mid.taken + {next.record}))
    requires mid.transactions[v.transaction].approvals + 1 < mid.multisigs[v.multisig].threshold <= 10
    ensures DoApprove(p, mid, ApprovalBy(v, next)) == Some(WithApproval(mid, v, next))
  {
  }

  /** Below the threshold the approval is counted. */
  lemma NextIsCounted(p: Program, s: State, mid: State, v: Vote, voters: seq<Voter>, next: Voter)
    requires Coherent(p) && Governed(p, s) && Open(s, v) && CanVote(p, s, v, voters + [next])
    requires ApprovedSoFar(s, mid, v, voters)
    requires s.transactions[v.transaction].approvals + |voters| + 1 < s.multisigs[v.multisig].threshold
    ensures DoApprove(p, mid, ApprovalBy(v, next)) == Some(WithApproval(mid, v, next))
    ensures ApprovedSoFar(s, WithApproval(mid, v, next), v, voters + [next])
  {
    NextIsRecorded(p, s, mid, v, voters, next);
    SmallThreshold(p, s, v.multisig);
    RecordedIsCounted(p, mid, v, next);
    NoRecordTwice(p, s, v, voters, next);
    OneMoreApproved(s, mid, v, voters, next);
  }

  lemma StepsOneMore(p: Program, s: State, v: Vote, voters: seq<Voter>, next: Voter)
    ensures Run(p, s, ApprovalsBy(v, voters + [next]))
              == After(p, Run(p, s, ApprovalsBy(v, voters)), Approve(ApprovalBy(v, next)))
  {
    var steps := ApprovalsBy(v, voters + [next]);
    assert steps[..|voters|] == ApprovalsBy(v, voters);
  }

  lemma {:induction false} BelowTheThreshold(p: Program, s: State, v: Vote, voters: seq<Voter>)
    requires Coherent(p) && Governed(p, s) && Open(s, v) && CanVote(p, s, v, voters)
    requires s.transactions[v.transaction].approvals + |voters| < s.multisigs[v.multisig].threshold
    ensures ApprovedSoFar(s, Run(p, s, ApprovalsBy(v, voters)), v, voters)
    decreases |voters|
  {
    if voters == [] {
      assert ApprovalsBy(v, voters) == [];
    } else {
      var n := |voters| - 1;
      var earlier, last := voters[..n], voters[n];
      assert voters == earlier + [last];
      BelowTheThreshold(p, s, v, earlier);
      NextIsCounted(p, s, Run(p, s, ApprovalsBy(v, earlier)), v, earlier, last);
      StepsOneMore(p, s, v, earlier, last);
    }
  }

  /** At the threshold the approval issues the voucher. */
  lemma LastIssues(p: Program, s: State, mid: State, v: Vote, voters: seq<Voter>, last: Voter)
    requires Coherent(p) && Governed(p, s) && Open(s, v) && CanVote(p, s, v, voters + [last])
    requires ApprovedSoFar(s, mid, v, voters) && CallReady(p, s, v, voters + [last])
    requires s.transactions[v.transaction].approvals + |voters| + 1 == s.multisigs[v.multisig].threshold
    ensures DoApprove(p, mid, ApprovalBy(v, last)).Some?
    ensures
      var end := DoApprove(p, mid, ApprovalBy(v, last)).value;
      && IssuedFor(p, end, v.call.value.voucher, v.transaction)
      && end.transactions[v.transaction].futureSign == s.transactions[v.transaction].futureSign
  {
    NextIsRecorded(p, s, mid, v, voters, last);
    RecordsOneMore(voters, last);
    SmallThreshold(p, s, v.multisig);
  }

  /**
   * As many members as the threshold still needs can always issue the
   * voucher: their approvals at their own record addresses all succeed, in
   * any order, and the last one issues it, though no record account signs.
   */
  lemma TheThresholdIsEnough(p: Program, s: State, v: Vote, voters: seq<Voter>)
    requires Coherent(p) && Governed(p, s) && AllDecided(s)
    requires Open(s, v) && CanVote(p, s, v, voters) && CallReady(p, s, v, voters)
    requires s.transactions[v.transaction].approvals + |voters| == s.multisigs[v.multisig].threshold
    ensures IssuedFor(p, Run(p, s, ApprovalsBy(v, voters)), v.call.value.voucher, v.transaction)
  {
    StillNeedsOne(s, v.transaction);
    var earlier, last := SplitLast(voters);
    ThenTheLast(p, s, v, earlier, last);
  }

  lemma SplitLast(voters: seq<Voter>) returns (earlier: seq<Voter>, last: Voter)
    requires voters != []
    ensures voters == earlier + [last]
  {
    earlier, last := voters[..|voters| - 1], voters[|voters| - 1];
  }

  lemma ThenTheLast(p: Program, s: State, v: Vote, voters: seq<Voter>, last: Voter)
    requires Coherent(p) && Governed(p, s) && Open(s, v)
    requires CanVote(p, s, v, voters + [last]) && CallReady(p, s, v, voters + [last])
    requires s.transactions[v.transaction].approvals + |voters| + 1 == s.multisigs[v.multisig].threshold
    ensures IssuedFor(p, Run(p, s, ApprovalsBy(v, voters + [last])), v.call.value.voucher, v.transaction)
  {
    CanVoteEarlier(p, s, v, voters, last);
    BelowTheThreshold(p, s, v, voters);
    LastStep(p, s, v, voters, last);
  }

  lemma LastStep(p: Program, s: State, v: Vote, voters: seq<Voter>, last: Voter)
    requires Coherent(p) && Governed(p, s) && Open(s, v)
    requires CanVote(p, s, v, voters + [last]) && CallReady(p, s, v, voters + [last])
    requires s.transactions[v.transaction].approvals + |voters| + 1 == s.multisigs[v.multisig].threshold
    requires ApprovedSoFar(s, Run(p, s, ApprovalsBy(v, voters)), v, voters)
    ensures IssuedFor(p, Run(p, s, ApprovalsBy(v, voters + [last])), v.call.value.voucher, v.transaction)
  {
    LastIssues(p, s, Run(p, s, ApprovalsBy(v, voters)), v, voters, last);
    StepsOneMore(p, s, v, voters, last);
  }

  lemma CanVoteEarlier(p: Program, s: State, v: Vote, voters: seq<Voter>, last: Voter)
    requires CanVote(p, s, v, voters + [last])
    ensures CanVote(p, s, v, voters)
  {
    var all := voters + [last];
    assert forall i | 0 <= i < |voters| :: voters[i] == all[i];
    assert forall x <- voters :: x in all;
  }

  // ── From an empty chain ──────────────────────────────────────────────────

  /** Terms the dWallet's owner may fix. */
  ghost predicate GoodTerms(p: Program, t: MultisigTerms) {
    && t.ownerSigns && t.dwalletOwner == Some(t.owner)
    && 1 <= t.threshold <= |t.members| <= 10 && Distinct(t.members)
    && exists bump :: p.find(MultisigSeeds(t.dwallet)) == Some((t.account.key, bump))
  }

  /** A proposal a member may make as the multisig's first. */
  ghost predicate GoodProposal(p: Program, t: MultisigTerms, q: Proposal) {
    && q.multisig == t.account.key && q.proposer in t.members && q.proposerSigns
    && q.futureSign <= 1 && |q.message| <= 256
    && q.account.key != t.account.key
    && p.find(TransactionSeeds(q.multisig, 0)) == Some((q.account.key, q.txBump))
    && exists voucher :: p.find(VoucherSeeds(q.account.key)) == Some((voucher, q.voucherBump))
  }

  lemma FirstTwoSteps(p: Program, t: MultisigTerms, q: Proposal)
    requires Coherent(p) && GoodTerms(p, t) && GoodProposal(p, t, q)
    ensures
      var s := Reached(p, [CreateMultisig(t), CreateTransaction(q)]);
      && t.account.key in s.multisigs && s.multisigs[t.account.key].dwallet == t.dwallet
      && s.multisigs[t.account.key].threshold == t.threshold && s.multisigs[t.account.key].members == t.members
      && s.multisigs[t.account.key].txIndex == 1
      && s.transactions == map[q.account.key := NewTransaction(q, 0)]
      && s.taken == {t.account.key, q.account.key}
  {
    var created := DoCreateMultisig(p, EMPTY, t);
    assert created.Some?;
    assert DoCreateTransaction(p, created.value, q).Some?;
    var steps := [CreateMultisig(t), CreateTransaction(q)];
    assert steps[..1] == [CreateMultisig(t)] && steps[..1][..0] == [];
    assert Run(p, EMPTY, steps[..1]) == created.value;
  }

  lemma {:induction false} RunAppends(p: Program, s: State, first: seq<Step>, second: seq<Step>)
    ensures Run(p, s, first + second) == Run(p, Run(p, s, first), second)
    decreases |second|
  {
    if second == [] {
      assert first + second == first;
    } else {
      var n := |second| - 1;
      assert (first + second)[..|first + second| - 1] == first + second[..n];
      RunAppends(p, s, first, second[..n]);
    }
  }

  /**
   * The whole run, from an empty chain: the owner fixes the terms, a member
   * proposes, and the threshold of members approves. It issues the voucher,
   * for the dWallet, the digest, the scheme and the key proposed.
   */
  lemma HonestRunIssues(p: Program, t: MultisigTerms, q: Proposal, v: Vote, voters: seq<Voter>)
    requires Coherent(p) && GoodTerms(p, t) && GoodProposal(p, t, q)
    requires v.multisig == t.account.key && v.transaction == q.account.key && v.memberSigns
    requires
      var s := Reached(p, [CreateMultisig(t), CreateTransaction(q)]);
      CanVote(p, s, v, voters) && CallReady(p, s, v, voters)
    requires |voters| == t.threshold
    ensures
      var end := Reached(p, [CreateMultisig(t), CreateTransaction(q)] + ApprovalsBy(v, voters));
      var voucher := v.call.value.voucher;
      && voucher in end.vouchers
      && end.vouchers[voucher] == Voucher(t.dwallet, q.messageHash, Key(Zeros(32)), q.scheme,
           if q.futureSign == 1 then Some(q.proposer) else None, Some(q.userPubkey), q.futureSign == 1)
  {
    var first := [CreateMultisig(t), CreateTransaction(q)];
    var s := Reached(p, first);
    FirstTwoSteps(p, t, q);
    ReachedIsSound(p, first);
    TheThresholdIsEnough(p, s, v, voters);
    RunAppends(p, EMPTY, first, ApprovalsBy(v, voters));
    KeepsTerms(p, s, ApprovalsBy(v, voters), v.multisig, v.transaction);
    IssuedAsProposed(p, Run(p, s, ApprovalsBy(v, voters)), t, q, v.call.value.voucher);
  }

  lemma IssuedAsProposed(p: Program, end: State, t: MultisigTerms, q: Proposal, v: Key)
    requires q.futureSign <= 1 && |q.message| <= 256
    requires IssuedFor(p, end, v, q.account.key)
    requires end.multisigs[end.transactions[q.account.key].multisig].dwallet == t.dwallet
    requires
      var now := end.transactions[q.account.key];
      now == NewTransaction(q, 0).(approvals := now.approvals, rejections := now.rejections, status := now.status)
    ensures v in end.vouchers
    ensures end.vouchers[v] == Voucher(t.dwallet, q.messageHash, Key(Zeros(32)), q.scheme,
              if q.futureSign == 1 then Some(q.proposer) else None, Some(q.userPubkey), q.futureSign == 1)
  {
  }

  /** No run changes the terms of a multisig, or what a transaction proposes. */
  lemma {:induction false} KeepsTerms(p: Program, s: State, steps: seq<Step>, k: Key, t: Key)
    requires Inv(p, s) && k in s.multisigs && t in s.transactions
    ensures
      var end := Run(p, s, steps);
      && k in end.multisigs && t in end.transactions
      && end.multisigs[k] == s.multisigs[k].(txIndex := end.multisigs[k].txIndex)
      && end.transactions[t] == s.transactions[t].(
           approvals := end.transactions[t].approvals, rejections := end.transactions[t].rejections,
           status := end.transactions[t].status)
    decreases |steps|
  {
    if steps != [] {
      var earlier, last := steps[..|steps| - 1], steps[|steps| - 1];
      KeepsTerms(p, s, earlier, k, t);
      RunKeepsInv(p, s, earlier);
      StepKeepsTerms(p, Run(p, s, earlier), last, k, t);
    }
  }

  lemma StepKeepsTerms(p: Program, s: State, step: Step, k: Key, t: Key)
    requires Housed(s) && k in s.multisigs && t in s.transactions
    ensures
      var end := After(p, s, step);
      && k in end.multisigs && t in end.transactions
      && end.multisigs[k] == s.multisigs[k].(txIndex := end.multisigs[k].txIndex)
      && end.transactions[t] == s.transactions[t].(
           approvals := end.transactions[t].approvals, rejections := end.transactions[t].rejections,
           status := end.transactions[t].status)
  {
  }
}
