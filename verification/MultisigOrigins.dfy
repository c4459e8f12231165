/**
 * Where the multisig's accounts come from: over every run from an empty
 * chain, each multisig, transaction, record and voucher goes back to one
 * signed instruction of the run, with that instruction's own terms
 * (examples/multisig/native/src/lib.rs).
 */
module MultisigOrigins {
  import opened Common
  import opened Bytes
  import opened ProgramAddresses
  import opened Governance
  import opened MultisigMachine
  import opened MultisigProofs
  import opened MultisigTheorems

  /** The dWallet's owner signed the step that fixed the multisig's terms. */
  ghost predicate FixedBy(step: Step, k: Key, m: Multisig) {
    && step.CreateMultisig?
    && var t := step.terms;
    && t.account.key == k && t.ownerSigns && t.dwalletOwner == Some(t.owner)
    && m.dwallet == t.dwallet && m.threshold == t.threshold && m.members == t.members
  }

  /** A member signed the step that proposed the transaction, in a state where the multisig counted its index next. */
  ghost predicate ProposedBy(p: Program, before: State, step: Step, t: Key, tx: Transaction) {
    && step.CreateTransaction?
    && var q := step.proposal;
    && q.account.key == t && t !in before.taken && q.proposerSigns
    && q.multisig in before.multisigs && q.proposer in before.multisigs[q.multisig].members
    && tx.multisig == q.multisig && tx.index == before.multisigs[q.multisig].txIndex
    && tx.proposer == q.proposer && tx.messageHash == q.messageHash && tx.userPubkey == q.userPubkey
    && tx.scheme == q.scheme && tx.futureSign == q.futureSign <= 1
    && tx.messageLength == |q.message| <= 256 == |tx.message| && tx.message[..|q.message|] == q.message
    && (forall i | |q.message| <= i < 256 :: tx.message[i] == 0)
    && (exists voucher :: p.find(VoucherSeeds(t)) == Some((voucher, tx.voucherBump)))
    && (exists address :: p.find(TransactionSeeds(q.multisig, tx.index)) == Some((address, tx.bump)))
  }

  /** A member signed the step that wrote the record, while the transaction was active. */
  ghost predicate VotedBy(before: State, step: Step, r: Key, record: ApprovalRecord) {
    && (step.Approve? || step.Reject?)
    && var v := step.vote;
    && v.record.key == r && r !in before.taken && v.memberSigns
    && v.transaction in before.transactions && before.transactions[v.transaction].status == STATUS_ACTIVE
    && before.transactions[v.transaction].multisig in before.multisigs
    && v.member in before.multisigs[before.transactions[v.transaction].multisig].members
    && record.member == v.member && record.transaction == v.transaction
    && record.approved == (if step.Approve? then 1 else 0)
  }

  /** The step was the approval that reached the threshold, and the dWallet program accepted its call. */
  ghost predicate IssuedBy(before: State, step: Step, v: Key, t: Key, voucher: Voucher) {
    && step.Approve?
    && var vote := step.vote;
    && vote.transaction == t && vote.call.Some? && vote.call.value.voucher == v && v !in before.taken
    && vote.call.value.accepted && vote.call.value.dwallet == voucher.dwallet
    && t in before.transactions && before.transactions[t].multisig in before.multisigs
    && before.transactions[t].approvals + 1 == before.multisigs[before.transactions[t].multisig].threshold
  }

  // ── One step ─────────────────────────────────────────────────────────────

  /** What a transaction was proposed with. */
  ghost predicate SameProposal(before: Transaction, after: Transaction) {
    after == before.(approvals := after.approvals, rejections := after.rejections, status := after.status)
  }

  lemma StepFixes(p: Program, s: State, step: Step, k: Key)
    requires k in After(p, s, step).multisigs
    ensures
      var m := After(p, s, step).multisigs[k];
      (k in s.multisigs && m == s.multisigs[k].(txIndex := m.txIndex)) || FixedBy(step, k, m)
  {
  }

  lemma StepProposes(p: Program, s: State, step: Step, t: Key)
    requires t in After(p, s, step).transactions
    ensures
      var tx := After(p, s, step).transactions[t];
      (t in s.transactions && SameProposal(s.transactions[t], tx)) || ProposedBy(p, s, step, t, tx)
  {
    if step.CreateTransaction? && Do(p, s, step).Some? && step.proposal.account.key == t {
      var q := step.proposal;
      assert p.find(VoucherSeeds(t)) == Some((p.find(VoucherSeeds(t)).value.0, q.voucherBump));
      var seeds := TransactionSeeds(q.multisig, s.multisigs[q.multisig].txIndex);
      assert p.find(seeds) == Some((p.find(seeds).value.0, q.txBump));
    }
  }

  lemma StepRecords(p: Program, s: State, step: Step, r: Key)
    requires r in After(p, s, step).records
    ensures
      var record := After(p, s, step).records[r];
      (r in s.records && record == s.records[r]) || VotedBy(s, step, r, record)
  {
  }

  /** A transaction approved by this step was approved by its own approval, at the threshold. */
  lemma StepApproves(p: Program, s: State, step: Step, t: Key)
    requires Housed(s) && AllDecided(s) && t in After(p, s, step).transactions
    requires After(p, s, step).transactions[t].status == STATUS_APPROVED
    requires t in s.transactions ==> s.transactions[t].status != STATUS_APPROVED
    ensures
      && step.Approve? && step.vote.transaction == t && step.vote.call.Some?
      && t in s.transactions && s.transactions[t].multisig in s.multisigs
      && var call, m := step.vote.call.value, s.multisigs[s.transactions[t].multisig];
      && call.voucher !in s.taken && call.accepted && call.dwallet == m.dwallet
      && p.derive(VoucherSeeds(t) + [s.transactions[t].voucherBump]) == Some(call.voucher)
      && s.transactions[t].approvals + 1 == m.threshold
      && After(p, s, step).transactions[t].voucherBump == s.transactions[t].voucherBump
      && After(p, s, step).multisigs == s.multisigs
      && After(p, s, step).transactions[t].multisig == s.transactions[t].multisig
  {
    if step.Approve? && Do(p, s, step).Some? {
      assert DecidedAt(s, s.transactions[step.vote.transaction]);
    }
  }

  lemma StepKeepsVouchers(p: Program, s: State, step: Step, v: Key)
    requires Housed(s) && v in s.vouchers
    ensures v in After(p, s, step).vouchers && After(p, s, step).vouchers[v] == s.vouchers[v]
  {
  }

  lemma StepIssues(p: Program, s: State, step: Step, v: Key, t: Key)
    requires Inv(p, s) && v in After(p, s, step).vouchers && IssuedFor(p, After(p, s, step), v, t)
    ensures
      var voucher := After(p, s, step).vouchers[v];
      || (v in s.vouchers && IssuedFor(p, s, v, t) && voucher == s.vouchers[v])
      || IssuedBy(s, step, v, t, voucher)
  {
    if t in s.transactions && s.transactions[t].status == STATUS_APPROVED {
      var other :| IssuedFor(p, s, other, t);
      StepLeavesDecided(p, s, step, t);
      assert other == v;
      StepKeepsVouchers(p, s, step, v);
    } else {
      StepApproves(p, s, step, t);
    }
  }

  // ── Whole runs ───────────────────────────────────────────────────────────

  lemma {:induction false} MultisigOrigin(p: Program, steps: seq<Step>, k: Key)
    requires k in Reached(p, steps).multisigs
    ensures exists i | 0 <= i < |steps| :: FixedBy(steps[i], k, Reached(p, steps).multisigs[k])
    decreases |steps|
  {
    var earlier, last := steps[..|steps| - 1], steps[|steps| - 1];
    StepFixes(p, Reached(p, earlier), last, k);
    var m := Reached(p, steps).multisigs[k];
    if FixedBy(last, k, m) {
      assert FixedBy(steps[|steps| - 1], k, m);
    } else {
      MultisigOrigin(p, earlier, k);
      var i :| 0 <= i < |earlier| && FixedBy(earlier[i], k, Reached(p, earlier).multisigs[k]);
      assert FixedBy(steps[i], k, m);
    }
  }

  lemma {:induction false} TransactionOrigin(p: Program, steps: seq<Step>, t: Key)
    requires t in Reached(p, steps).transactions
    ensures exists i | 0 <= i < |steps| ::
              ProposedBy(p, Reached(p, steps[..i]), steps[i], t, Reached(p, steps).transactions[t])
    decreases |steps|
  {
    var earlier, last := steps[..|steps| - 1], steps[|steps| - 1];
    StepProposes(p, Reached(p, earlier), last, t);
    var tx := Reached(p, steps).transactions[t];
    if ProposedBy(p, Reached(p, earlier), last, t, tx) {
      assert ProposedBy(p, Reached(p, steps[..|steps| - 1]), steps[|steps| - 1], t, tx);
    } else {
      TransactionOrigin(p, earlier, t);
      var i :| 0 <= i < |earlier| &&
        ProposedBy(p, Reached(p, earlier[..i]), earlier[i], t, Reached(p, earlier).transactions[t]);
      assert earlier[..i] == steps[..i];
      assert ProposedBy(p, Reached(p, steps[..i]), steps[i], t, tx);
    }
  }

  lemma {:induction false} RecordOrigin(p: Program, steps: seq<Step>, r: Key)
    requires r in Reached(p, steps).records
    ensures exists i | 0 <= i < |steps| ::
              VotedBy(Reached(p, steps[..i]), steps[i], r, Reached(p, steps).records[r])
    decreases |steps|
  {
    var earlier, last := steps[..|steps| - 1], steps[|steps| - 1];
    StepRecords(p, Reached(p, earlier), last, r);
    var record := Reached(p, steps).records[r];
    if VotedBy(Reached(p, earlier), last, r, record) {
      assert VotedBy(Reached(p, steps[..|steps| - 1]), steps[|steps| - 1], r, record);
    } else {
      RecordOrigin(p, earlier, r);
      var i :| 0 <= i < |earlier| && VotedBy(Reached(p, earlier[..i]), earlier[i], r, record);
      assert earlier[..i] == steps[..i];
      assert VotedBy(Reached(p, steps[..i]), steps[i], r, record);
    }
  }

  lemma {:induction false} VoucherOrigin(p: Program, steps: seq<Step>, v: Key, t: Key)
    requires IssuedFor(p, Reached(p, steps), v, t)
    ensures exists i | 0 <= i < |steps| ::
              IssuedBy(Reached(p, steps[..i]), steps[i], v, t, Reached(p, steps).vouchers[v])
    decreases |steps|
  {
    if steps != [] {
      var earlier, last := steps[..|steps| - 1], steps[|steps| - 1];
      ReachedIsSound(p, earlier);
      StepIssues(p, Reached(p, earlier), last, v, t);
      var voucher := Reached(p, steps).vouchers[v];
      if IssuedBy(Reached(p, earlier), last, v, t, voucher) {
        assert IssuedBy(Reached(p, steps[..|steps| - 1]), steps[|steps| - 1], v, t, voucher);
      } else {
        VoucherOrigin(p, earlier, v, t);
        IssuedEarlier(p, steps, v, t, voucher);
      }
    }
  }

  lemma IssuedEarlier(p: Program, steps: seq<Step>, v: Key, t: Key, voucher: Voucher)
    requires steps != []
    requires
      var earlier := steps[..|steps| - 1];
      exists i | 0 <= i < |earlier| :: IssuedBy(Reached(p, earlier[..i]), earlier[i], v, t, voucher)
    ensures exists i | 0 <= i < |steps| :: IssuedBy(Reached(p, steps[..i]), steps[i], v, t, voucher)
  {
    var earlier := steps[..|steps| - 1];
    var i :| 0 <= i < |earlier| && IssuedBy(Reached(p, earlier[..i]), earlier[i], v, t, voucher);
    assert earlier[..i] == steps[..i];
    assert IssuedBy(Reached(p, steps[..i]), steps[i], v, t, voucher);
  }

  // ── The whole story of a voucher ─────────────────────────────────────────

  /** What a member proposed at `step` is what the voucher authorises. */
  ghost predicate Authorises(voucher: Voucher, step: Step) {
    && step.CreateTransaction?
    && var q := step.proposal;
    && voucher.messageDigest == q.messageHash && voucher.scheme == q.scheme
    && voucher.signingKey == Some(q.userPubkey)
    && (q.futureSign == 1 ==> voucher.future && voucher.owner == Some(q.proposer))
    && (q.futureSign != 1 ==> !voucher.future && voucher.owner.None?)
  }

  /** The approvals counted for `t`, each by a signed approval of the run. */
  ghost predicate ApprovedInRun(p: Program, steps: seq<Step>, t: Key, r: Key) {
    exists i | 0 <= i < |steps| ::
      && steps[i].Approve? && steps[i].vote.record.key == r && steps[i].vote.transaction == t
      && steps[i].vote.memberSigns
      && r in Reached(p, steps).records && steps[i].vote.member == Reached(p, steps).records[r].member
  }

  /**
   * Every voucher of a reachable state goes back to the run: the dWallet's
   * owner signed the terms of its multisig, a member signed the proposal it
   * authorises, and exactly the threshold of approvals, each a signed
   * instruction of a member, were counted for it, the last of which issued it.
   */
  lemma VoucherStory(p: Program, steps: seq<Step>, v: Key, t: Key)
    requires VoucherComesFrom(p, Reached(p, steps), v, t)
    ensures
      var s := Reached(p, steps);
      var tx, voucher := s.transactions[t], s.vouchers[v];
      var m := s.multisigs[tx.multisig];
      && (exists i | 0 <= i < |steps| :: FixedBy(steps[i], tx.multisig, m) && m.dwallet == voucher.dwallet)
      && (exists i | 0 <= i < |steps| ::
            ProposedBy(p, Reached(p, steps[..i]), steps[i], t, tx) && Authorises(voucher, steps[i]))
      && |Votes(s, t, true)| == m.threshold
      && (forall r <- Votes(s, t, true) :: ApprovedInRun(p, steps, t, r))
      && (exists i | 0 <= i < |steps| :: IssuedBy(Reached(p, steps[..i]), steps[i], v, t, voucher))
  {
    var s := Reached(p, steps);
    var tx, voucher := s.transactions[t], s.vouchers[v];
    MultisigOrigin(p, steps, tx.multisig);
    TransactionOrigin(p, steps, t);
    var i :| 0 <= i < |steps| && ProposedBy(p, Reached(p, steps[..i]), steps[i], t, tx);
    assert Authorises(voucher, steps[i]);
    VoucherOrigin(p, steps, v, t);
    forall r <- Votes(s, t, true) ensures ApprovedInRun(p, steps, t, r) {
      RecordOrigin(p, steps, r);
      var j :| 0 <= j < |steps| && VotedBy(Reached(p, steps[..j]), steps[j], r, s.records[r]);
      assert steps[j].Approve?;
    }
  }
}
