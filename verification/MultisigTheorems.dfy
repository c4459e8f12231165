/** What the multisig promises, over every run from an empty chain. */
module MultisigTheorems {
  import opened Common
  import opened Bytes
  import opened ProgramAddresses
  import opened Governance
  import opened MultisigMachine
  import opened MultisigProofs

  function Reached(p: Program, steps: seq<Step>): State {
    Run(p, EMPTY, steps)
  }

  lemma ReachedIsSound(p: Program, steps: seq<Step>)
    ensures Inv(p, Reached(p, steps))
  {
    EmptyIsSound(p);
    RunKeepsInv(p, EMPTY, steps);
  }

  // ── Counting members ─────────────────────────────────────────────────────

  /** The members a set of records names. */
  function MembersOf(s: State, records: set<Key>): set<Key>
    requires records <= s.records.Keys
  {
    set r | r in records :: s.records[r].member
  }

  ghost predicate OneRecordEach(s: State, records: set<Key>)
    requires records <= s.records.Keys
  {
    forall r1, r2 | r1 in records && r2 in records :: s.records[r1].member == s.records[r2].member ==> r1 == r2
  }

  /** There are no more members than records, and as many exactly when each record is by another. */
  lemma {:induction false} MembersCountExactly(s: State, records: set<Key>)
    requires records <= s.records.Keys
    ensures |MembersOf(s, records)| <= |records|
    ensures |MembersOf(s, records)| == |records| <==> OneRecordEach(s, records)
  {
    if records != {} {
      var r :| r in records;
      var rest, member := records - {r}, s.records[r].member;
      MembersCountExactly(s, rest);
      assert MembersOf(s, records) == MembersOf(s, rest) + {member};
      if member in MembersOf(s, rest) {
        var other :| other in rest && s.records[other].member == member;
        assert !OneRecordEach(s, records);
      }
    }
  }

  /** All the records of one transaction. */
  function Ballots(s: State, t: Key): set<Key> { Votes(s, t, true) + Votes(s, t, false) }

  lemma BallotsAddUp(s: State, t: Key)
    ensures |Ballots(s, t)| == |Votes(s, t, true)| + |Votes(s, t, false)|
  {
    assert Votes(s, t, true) !! Votes(s, t, false);
  }

  lemma AddressedBallots(p: Program, s: State, t: Key)
    requires Addressed(p, s)
    ensures OneRecordEach(s, Ballots(s, t))
  {
  }

  // ── Vote accounting ──────────────────────────────────────────────────────

  /**
   * In every reachable state the two counts of a transaction are the numbers
   * of its approving and its rejecting records, and every record is a vote of
   * a member of the transaction's own multisig.
   */
  lemma VoteAccounting(p: Program, steps: seq<Step>, t: Key)
    requires t in Reached(p, steps).transactions
    ensures
      var s := Reached(p, steps);
      var tx := s.transactions[t];
      && tx.multisig in s.multisigs
      && tx.approvals == |Votes(s, t, true)| && tx.rejections == |Votes(s, t, false)|
      && forall r <- Ballots(s, t) :: s.records[r].member in s.multisigs[tx.multisig].members
  {
    ReachedIsSound(p, steps);
    var s := Reached(p, steps);
    forall r <- Ballots(s, t) ensures s.records[r].member in s.multisigs[s.transactions[t].multisig].members {
      assert RecordedAt(s, s.records[r]);
    }
  }

  /**
   * When no record account of the run signed its transaction, every record of
   * a transaction is by another member, so the counts never add up to more
   * than the member count.
   */
  lemma DistinctVoters(p: Program, steps: seq<Step>, t: Key)
    requires Coherent(p) && NoRecordSigns(steps) && t in Reached(p, steps).transactions
    ensures
      var s := Reached(p, steps);
      var tx := s.transactions[t];
      && tx.multisig in s.multisigs
      && OneRecordEach(s, Ballots(s, t))
      && tx.approvals + tx.rejections == |MembersOf(s, Ballots(s, t))| <= |s.multisigs[tx.multisig].members|
  {
    var s := Reached(p, steps);
    VoteAccounting(p, steps, t);
    RunIsAddressed(p, steps);
    ReachedIsSound(p, steps);
    AddressedBallotsCount(p, s, t);
  }

  lemma AddressedBallotsCount(p: Program, s: State, t: Key)
    requires Governed(p, s) && Addressed(p, s) && t in s.transactions && s.transactions[t].multisig in s.multisigs
    requires forall r <- Ballots(s, t) :: s.records[r].member in s.multisigs[s.transactions[t].multisig].members
    ensures OneRecordEach(s, Ballots(s, t))
    ensures |Votes(s, t, true)| + |Votes(s, t, false)| == |MembersOf(s, Ballots(s, t))|
              <= |s.multisigs[s.transactions[t].multisig].members|
  {
    var m := s.transactions[t].multisig;
    AddressedBallots(p, s, t);
    MembersCountExactly(s, Ballots(s, t));
    BallotsAddUp(s, t);
    assert Sound(p, m, s.multisigs[m]);
    DistinctMembersCount(s.multisigs[m].members);
    SubsetIsNoLarger(MembersOf(s, Ballots(s, t)), set x | x in s.multisigs[m].members);
  }

  /**
   * The condition is needed: after a rejection that left the transaction
   * active, the same member's vote is counted once more at any empty address
   * that signs, and the two records name one member.
   */
  lemma SigningRecordCountsAgain(p: Program, s: State, v: Vote, next: State, other: Key)
    requires Inv(p, s) && DoReject(p, s, v) == Some(next)
    requires other !in next.taken && next.transactions[v.transaction].status == STATUS_ACTIVE
    ensures
      var again := DoReject(p, next, v.(record := NewAccount(other, true)));
      && again.Some?
      && again.value.transactions[v.transaction].rejections == s.transactions[v.transaction].rejections + 2
      && !OneRecordEach(again.value, Ballots(again.value, v.transaction))
  {
    var second := v.(record := NewAccount(other, true));
    RejectVotes(p, s, v);
    RejectDecides(p, s, v);
    RejectAgain(p, s, v, next, second);
    RejectVotes(p, next, second);
    TwoRecordsOfOneMember(s, v, next, second, DoReject(p, next, second).value);
  }

  lemma TwoRecordsOfOneMember(s: State, v: Vote, next: State, second: Vote, again: State)
    requires Voted(s, next, v, 0) && Voted(next, again, second, 0)
    requires second == v.(record := second.record)
    ensures again.transactions[v.transaction].rejections == s.transactions[v.transaction].rejections + 2
    ensures !OneRecordEach(again, Ballots(again, v.transaction))
  {
    assert v.record.key in Ballots(again, v.transaction) && second.record.key in Ballots(again, v.transaction);
  }

  lemma RejectAgain(p: Program, s: State, v: Vote, next: State, second: Vote)
    requires DoReject(p, s, v) == Some(next) && Voted(s, next, v, 0) && RejectionOutcome(s, next, v)
    requires next.transactions[v.transaction].status == STATUS_ACTIVE
    requires Governed(p, s) && second == v.(record := second.record)
    requires second.record.signs && second.record.key !in next.taken
    ensures DoReject(p, next, second).Some?
  {
    assert Sound(p, v.multisig, s.multisigs[v.multisig]);
    assert VerifiedMember(p, next, v.multisig, v.member);
    assert RecordVote(p, next, second, 0).Some?;
  }

  // ── The decision ─────────────────────────────────────────────────────────

  /**
   * An active transaction is below both thresholds; an approved one has
   * exactly the threshold of approvals; a rejected one has so many rejections
   * that the members left cannot reach the threshold. The three exclude each
   * other.
   */
  lemma Decision(p: Program, steps: seq<Step>, t: Key)
    requires t in Reached(p, steps).transactions
    ensures
      var s := Reached(p, steps);
      var tx := s.transactions[t];
      && tx.multisig in s.multisigs
      && var m := s.multisigs[tx.multisig];
         var n := |m.members|;
         && 1 <= m.threshold <= n <= MAX_MEMBERS
         && tx.status in {STATUS_ACTIVE, STATUS_APPROVED, STATUS_REJECTED}
         && (tx.status == STATUS_ACTIVE <==> tx.approvals < m.threshold && tx.rejections < n - m.threshold + 1)
         && (tx.status == STATUS_APPROVED <==> tx.approvals == m.threshold)
         && (tx.status == STATUS_REJECTED <==> tx.rejections == n - m.threshold + 1)
         && (tx.status == STATUS_REJECTED ==> n - tx.rejections < m.threshold)
  {
    ReachedIsSound(p, steps);
    var s := Reached(p, steps);
    assert DecidedAt(s, s.transactions[t]);
    assert Sound(p, s.transactions[t].multisig, s.multisigs[s.transactions[t].multisig]);
  }

  /** A decided transaction never changes again, in any later step. */
  lemma {:induction false} DecidedIsFinal(p: Program, s: State, steps: seq<Step>, t: Key)
    requires Inv(p, s) && t in s.transactions && s.transactions[t].status != STATUS_ACTIVE
    ensures t in Run(p, s, steps).transactions && Run(p, s, steps).transactions[t] == s.transactions[t]
    decreases |steps|
  {
    if steps != [] {
      var earlier := steps[..|steps| - 1];
      DecidedIsFinal(p, s, earlier, t);
      RunKeepsInv(p, s, earlier);
      StepLeavesDecided(p, Run(p, s, earlier), steps[|steps| - 1], t);
    }
  }

  lemma StepLeavesDecided(p: Program, s: State, step: Step, t: Key)
    requires Housed(s) && t in s.transactions && s.transactions[t].status != STATUS_ACTIVE
    ensures t in After(p, s, step).transactions && After(p, s, step).transactions[t] == s.transactions[t]
  {
  }

  /** Once every member has voted, the transaction is decided: a record more only raises the counts. */
  lemma EveryVoteDecides(p: Program, steps: seq<Step>, t: Key)
    requires t in Reached(p, steps).transactions
    requires
      var s := Reached(p, steps);
      && s.transactions[t].multisig in s.multisigs
      && (set m | m in s.multisigs[s.transactions[t].multisig].members) <= MembersOf(s, Ballots(s, t))
    ensures Reached(p, steps).transactions[t].status != STATUS_ACTIVE
  {
    ReachedIsSound(p, steps);
    AllVotedIsDecided(p, Reached(p, steps), t);
  }

  lemma AllVotedIsDecided(p: Program, s: State, t: Key)
    requires Governed(p, s) && Counted(s) && AllDecided(s)
    requires t in s.transactions && s.transactions[t].multisig in s.multisigs
    requires (set m | m in s.multisigs[s.transactions[t].multisig].members) <= MembersOf(s, Ballots(s, t))
    ensures s.transactions[t].status != STATUS_ACTIVE
  {
    assert DecidedAt(s, s.transactions[t]);
    BallotsAddUp(s, t);
    MembersCountExactly(s, Ballots(s, t));
    AllMembersCounted(p, s, s.transactions[t].multisig, MembersOf(s, Ballots(s, t)));
  }

  lemma AllMembersCounted(p: Program, s: State, k: Key, voters: set<Key>)
    requires Governed(p, s) && k in s.multisigs
    requires (set m | m in s.multisigs[k].members) <= voters
    ensures |s.multisigs[k].members| <= |voters|
  {
    assert Sound(p, k, s.multisigs[k]);
    DistinctMembersCount(s.multisigs[k].members);
    SubsetIsNoLarger((set m | m in s.multisigs[k].members), voters);
  }

  // ── Vouchers ─────────────────────────────────────────────────────────────

  /**
   * Every voucher comes from exactly one transaction, of the multisig at the
   * canonical address of the voucher's own dWallet; it carries that
   * transaction's digest, scheme and key; it is a future signature voucher,
   * owned by the proposer, exactly when the transaction asks for one; and
   * exactly the threshold of that multisig's members' records approve it.
   */
  lemma VoucherSoundness(p: Program, steps: seq<Step>, v: Key)
    requires v in Reached(p, steps).vouchers
    ensures exists t :: VoucherComesFrom(p, Reached(p, steps), v, t)
    ensures forall t1, t2 | VoucherComesFrom(p, Reached(p, steps), v, t1)
                         && VoucherComesFrom(p, Reached(p, steps), v, t2) :: t1 == t2
  {
    var s := Reached(p, steps);
    ReachedIsSound(p, steps);
    var t :| IssuedFor(p, s, v, t);
    Decision(p, steps, t);
    VoteAccounting(p, steps, t);
    assert Sound(p, s.transactions[t].multisig, s.multisigs[s.transactions[t].multisig]);
    assert VoucherComesFrom(p, s, v, t);
  }

  ghost predicate VoucherComesFrom(p: Program, s: State, v: Key, t: Key) {
    && IssuedFor(p, s, v, t)
    && var tx := s.transactions[t];
       var m := s.multisigs[tx.multisig];
       var voucher := s.vouchers[v];
       && voucher.dwallet == m.dwallet
       && p.find(MultisigSeeds(voucher.dwallet)) == Some((tx.multisig, m.bump))
       && voucher.messageDigest == tx.messageHash && voucher.scheme == tx.scheme
       && voucher.signingKey == Some(tx.userPubkey) && voucher.metadataDigest == Key(Zeros(32))
       && voucher.future == (tx.futureSign != 0)
       && voucher.owner == (if tx.futureSign != 0 then Some(tx.proposer) else None)
       && |Votes(s, t, true)| == m.threshold
       && forall r <- Votes(s, t, true) :: s.records[r].member in m.members
  }

  /** No transaction yields two vouchers, and exactly the approved ones yield one. */
  lemma OneVoucherEach(p: Program, steps: seq<Step>, t: Key)
    requires t in Reached(p, steps).transactions
    ensures
      var s := Reached(p, steps);
      && (s.transactions[t].status == STATUS_APPROVED <==> exists v :: IssuedFor(p, s, v, t))
      && forall v1, v2 | IssuedFor(p, s, v1, t) && IssuedFor(p, s, v2, t) :: v1 == v2
  {
    ReachedIsSound(p, steps);
  }

  /** At derived record addresses, a voucher's approvers are exactly the threshold of distinct members. */
  lemma VoucherApprovers(p: Program, steps: seq<Step>, v: Key, t: Key)
    requires Coherent(p) && NoRecordSigns(steps) && VoucherComesFrom(p, Reached(p, steps), v, t)
    ensures
      var s := Reached(p, steps);
      var m := s.multisigs[s.transactions[t].multisig];
      |MembersOf(s, Votes(s, t, true))| == m.threshold
  {
    var s := Reached(p, steps);
    RunIsAddressed(p, steps);
    AddressedBallots(p, s, t);
    MembersCountExactly(s, Votes(s, t, true));
  }

  /** The transactions of a multisig occupy exactly the indices below its `txIndex`, one each. */
  lemma TransactionIndices(p: Program, steps: seq<Step>, k: Key, i: nat)
    requires k in Reached(p, steps).multisigs
    ensures
      var s := Reached(p, steps);
      && (i < s.multisigs[k].txIndex <==> exists t :: IsAt(s, t, k, i))
      && forall t1, t2 | IsAt(s, t1, k, i) && IsAt(s, t2, k, i) :: t1 == t2
  {
    ReachedIsSound(p, steps);
    var s := Reached(p, steps);
    if i < s.multisigs[k].txIndex {
      assert HasIndex(s, k, i);
    }
  }
}
