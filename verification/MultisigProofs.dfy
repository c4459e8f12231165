/** What every run of the multisig keeps, and what follows for its vouchers. */
module MultisigProofs {
  import opened Common
  import opened Bytes
  import opened ProgramAddresses
  import opened Governance
  import opened MultisigMachine

  /** The records of one transaction that approve it, or that reject it. */
  function Votes(s: State, transaction: Key, approving: bool): set<Key> {
    VotesIn(s.records, transaction, approving)
  }

  function VotesIn(records: map<Key, ApprovalRecord>, transaction: Key, approving: bool): set<Key> {
    set r | r in records && records[r].transaction == transaction && (records[r].approved == 1) == approving
  }

  // ── The invariant ────────────────────────────────────────────────────────

  ghost predicate Housed(s: State) {
    s.multisigs.Keys + s.transactions.Keys + s.records.Keys + s.vouchers.Keys <= s.taken
  }

  /** One multisig per dWallet, at its canonical address, with sound terms. */
  ghost predicate Governed(p: Program, s: State) {
    forall k <- s.multisigs :: Sound(p, k, s.multisigs[k])
  }

  ghost predicate Sound(p: Program, k: Key, m: Multisig) {
    && 1 <= m.threshold <= |m.members| <= MAX_MEMBERS && Distinct(m.members)
    && p.find(MultisigSeeds(m.dwallet)) == Some((k, m.bump))
    && m.txIndex < 0x1_0000_0000
  }

  /** The transactions of a multisig occupy exactly the indices below its `txIndex`, one each. */
  ghost predicate Indexed(s: State) {
    && (forall t <- s.transactions :: var tx := s.transactions[t];
          tx.multisig in s.multisigs && tx.index < s.multisigs[tx.multisig].txIndex)
    && (forall k, i: nat | k in s.multisigs && i < s.multisigs[k].txIndex :: HasIndex(s, k, i))
    && (forall t1, t2, k, i | IsAt(s, t1, k, i) && IsAt(s, t2, k, i) :: t1 == t2)
  }

  ghost predicate HasIndex(s: State, multisig: Key, index: nat) {
    exists t :: IsAt(s, t, multisig, index)
  }

  ghost predicate IsAt(s: State, t: Key, multisig: Key, index: nat) {
    t in s.transactions && s.transactions[t].multisig == multisig && s.transactions[t].index == index
  }

  /** Every record is a member's vote on a transaction of the member's multisig. */
  ghost predicate Recorded(s: State) {
    forall r <- s.records :: RecordedAt(s, s.records[r])
  }

  ghost predicate RecordedAt(s: State, record: ApprovalRecord) {
    && record.transaction in s.transactions
    && s.transactions[record.transaction].multisig in s.multisigs
    && record.member in s.multisigs[s.transactions[record.transaction].multisig].members
    && record.approved <= 1
  }

  ghost predicate Counted(s: State) {
    forall t <- s.transactions ::
      && s.transactions[t].approvals == |Votes(s, t, true)|
      && s.transactions[t].rejections == |Votes(s, t, false)|
  }

  /** The status and the two counts of a transaction of `m` agree. */
  ghost predicate Decided(tx: Transaction, m: Multisig) {
    var rejected := |m.members| - m.threshold + 1;
    if tx.status == STATUS_ACTIVE then tx.approvals < m.threshold && tx.rejections < rejected
    else if tx.status == STATUS_APPROVED then tx.approvals == m.threshold && tx.rejections < rejected
    else tx.status == STATUS_REJECTED && tx.approvals < m.threshold && tx.rejections == rejected
  }

  ghost predicate AllDecided(s: State) {
    forall t <- s.transactions :: DecidedAt(s, s.transactions[t])
  }

  ghost predicate DecidedAt(s: State, tx: Transaction) {
    tx.multisig in s.multisigs && Decided(tx, s.multisigs[tx.multisig])
  }

  /** `v` is the address of the voucher of the approved transaction `t`, and holds its terms. */
  ghost predicate IssuedFor(p: Program, s: State, v: Key, t: Key) {
    && t in s.transactions && s.transactions[t].status == STATUS_APPROVED
    && s.transactions[t].multisig in s.multisigs
    && p.derive(VoucherSeeds(t) + [s.transactions[t].voucherBump]) == Some(v)
    && v in s.vouchers
    && s.vouchers[v] == VoucherOf(s.transactions[t], s.multisigs[s.transactions[t].multisig].dwallet)
  }

  /** Vouchers and approved transactions correspond one to one. */
  ghost predicate Vouched(p: Program, s: State) {
    && (forall v <- s.vouchers :: exists t :: IssuedFor(p, s, v, t))
    && (forall t <- s.transactions | s.transactions[t].status == STATUS_APPROVED ::
          exists v :: IssuedFor(p, s, v, t))
    && (forall v, t1, t2 | IssuedFor(p, s, v, t1) && IssuedFor(p, s, v, t2) :: t1 == t2)
  }

  ghost predicate Inv(p: Program, s: State) {
    && Housed(s) && Governed(p, s) && Indexed(s) && Recorded(s)
    && Counted(s) && AllDecided(s) && Vouched(p, s)
  }

  // ── Frames: what a step that touches little keeps ────────────────────────

  /** Two states with the same transactions, at the same indices. */
  ghost predicate SamePlaces(s: State, next: State) {
    && next.transactions.Keys == s.transactions.Keys
    && forall t <- s.transactions ::
         && next.transactions[t].multisig == s.transactions[t].multisig
         && next.transactions[t].index == s.transactions[t].index
  }

  lemma SameIndices(s: State, next: State)
    requires Indexed(s) && SamePlaces(s, next)
    requires s.multisigs.Keys <= next.multisigs.Keys
    requires forall k <- s.multisigs :: next.multisigs[k].txIndex == s.multisigs[k].txIndex
    requires forall k <- next.multisigs | k !in s.multisigs :: next.multisigs[k].txIndex == 0
    ensures Indexed(next)
  {
    forall t, k, i ensures IsAt(next, t, k, i) <==> IsAt(s, t, k, i) {}
    forall k, i: nat | k in next.multisigs && i < next.multisigs[k].txIndex ensures HasIndex(next, k, i) {
      assert HasIndex(s, k, i);
      var t :| IsAt(s, t, k, i);
      assert IsAt(next, t, k, i);
    }
  }

  lemma SameVotes(s: State, next: State)
    requires Counted(s) && next.records == s.records
    requires forall t <- next.transactions :: t in s.transactions
               && next.transactions[t].approvals == s.transactions[t].approvals
               && next.transactions[t].rejections == s.transactions[t].rejections
    ensures Counted(next)
  {
    forall t <- next.transactions ensures Votes(next, t, true) == Votes(s, t, true) && Votes(next, t, false) == Votes(s, t, false) {}
  }

  /** Vouchers stay issued when no approved transaction and no voucher changes. */
  lemma SameVouchers(p: Program, s: State, next: State)
    requires Vouched(p, s) && next.vouchers == s.vouchers
    requires forall t <- s.transactions | s.transactions[t].status == STATUS_APPROVED ::
               t in next.transactions && next.transactions[t] == s.transactions[t]
    requires forall t <- next.transactions | next.transactions[t].status == STATUS_APPROVED ::
               t in s.transactions && s.transactions[t].status == STATUS_APPROVED
    requires SameDWallets(s, next)
    ensures Vouched(p, next)
  {
    forall v, t ensures IssuedFor(p, next, v, t) <==> IssuedFor(p, s, v, t) {}
  }

  /** Every multisig a transaction names keeps its dWallet. */
  ghost predicate SameDWallets(s: State, next: State) {
    forall t <- s.transactions :: var k := s.transactions[t].multisig;
      k in s.multisigs && k in next.multisigs && next.multisigs[k].dwallet == s.multisigs[k].dwallet
  }

  // ── Creating a multisig, a transaction ───────────────────────────────────

  /** The multisigs of `next` are those of `s`, the one at `k` new or counting one more transaction. */
  ghost predicate SetsMultisig(p: Program, s: State, next: State, k: Key, m: Multisig) {
    && next.multisigs == s.multisigs[k := m] && Sound(p, k, m)
    && (k in s.multisigs ==> m == s.multisigs[k].(txIndex := m.txIndex))
    && next.records == s.records && next.vouchers == s.vouchers
  }

  lemma SetMultisigGoverned(p: Program, s: State, next: State, k: Key, m: Multisig)
    requires Governed(p, s) && SetsMultisig(p, s, next, k, m)
    ensures Governed(p, next)
  {
  }

  lemma SetMultisigRecorded(p: Program, s: State, next: State, k: Key, m: Multisig)
    requires Recorded(s) && SetsMultisig(p, s, next, k, m) && OldTransactions(s, next)
    ensures Recorded(next)
  {
    forall r <- next.records ensures RecordedAt(next, next.records[r]) {
      assert RecordedAt(s, s.records[r]);
    }
  }

  lemma SetMultisigDecided(p: Program, s: State, next: State, k: Key, m: Multisig)
    requires Governed(p, s) && Governed(p, next) && AllDecided(s)
    requires SetsMultisig(p, s, next, k, m) && OldTransactions(s, next)
    ensures AllDecided(next)
  {
    forall t <- next.transactions ensures DecidedAt(next, next.transactions[t]) {
      if t in s.transactions {
        assert DecidedAt(s, s.transactions[t]);
      }
    }
  }

  lemma SetMultisigKeeps(p: Program, s: State, next: State, k: Key, m: Multisig)
    requires Governed(p, s) && Recorded(s) && AllDecided(s) && Vouched(p, s)
    requires SetsMultisig(p, s, next, k, m) && OldTransactions(s, next)
    ensures Governed(p, next) && Recorded(next) && AllDecided(next) && Vouched(p, next)
  {
    SetMultisigGoverned(p, s, next, k, m);
    SetMultisigRecorded(p, s, next, k, m);
    SetMultisigDecided(p, s, next, k, m);
    forall t <- s.transactions ensures DecidedAt(s, s.transactions[t]) {}
    SameVouchers(p, s, next);
  }

  /** The transactions of `next` are those of `s`, and newly active ones. */
  ghost predicate OldTransactions(s: State, next: State) {
    && (forall t <- s.transactions :: t in next.transactions && next.transactions[t] == s.transactions[t])
    && (forall t <- next.transactions | t !in s.transactions :: NewlyActive(next, t))
  }

  ghost predicate NewlyActive(s: State, t: Key)
    requires t in s.transactions
  {
    var tx := s.transactions[t];
    && tx.multisig in s.multisigs && tx.status == STATUS_ACTIVE && tx.approvals == 0 && tx.rejections == 0
  }

  lemma CreateMultisigSets(p: Program, s: State, t: MultisigTerms)
    requires Housed(s) && DoCreateMultisig(p, s, t).Some?
    ensures
      var next := DoCreateMultisig(p, s, t).value;
      var k := t.account.key;
      && k !in s.multisigs && k in next.multisigs && next.multisigs[k].txIndex == 0
      && next.transactions == s.transactions && Housed(next)
      && SetsMultisig(p, s, next, k, next.multisigs[k])
  {
  }

  lemma CreateMultisigKeepsInv(p: Program, s: State, t: MultisigTerms)
    requires Inv(p, s) && DoCreateMultisig(p, s, t).Some?
    ensures Inv(p, DoCreateMultisig(p, s, t).value)
  {
    var next := DoCreateMultisig(p, s, t).value;
    CreateMultisigSets(p, s, t);
    SameIndices(s, next);
    SameVotes(s, next);
    SetMultisigKeeps(p, s, next, t.account.key, next.multisigs[t.account.key]);
  }

  lemma CreateTransactionIndexed(s: State, next: State, k: Key, t: Key, tx: Transaction)
    requires Indexed(s) && k in s.multisigs && t !in s.transactions
    requires tx.multisig == k && tx.index == s.multisigs[k].txIndex
    requires next.transactions == s.transactions[t := tx]
    requires next.multisigs == s.multisigs[k := s.multisigs[k].(txIndex := tx.index + 1)]
    ensures Indexed(next)
  {
    forall x, m, i ensures IsAt(next, x, m, i) <==> if x == t then m == k && i == tx.index else IsAt(s, x, m, i) {}
    forall m, i: nat | m in next.multisigs && i < next.multisigs[m].txIndex ensures HasIndex(next, m, i) {
      if m == k && i == tx.index {
        assert IsAt(next, t, k, i);
      } else {
        assert HasIndex(s, m, i);
        var x :| IsAt(s, x, m, i);
        assert IsAt(next, x, m, i);
      }
    }
  }

  lemma NewTransactionCounted(s: State, next: State, t: Key)
    requires Counted(s) && Recorded(s) && next.records == s.records && t !in s.transactions
    requires next.transactions.Keys == s.transactions.Keys + {t}
    requires forall x <- s.transactions :: next.transactions[x] == s.transactions[x]
    requires next.transactions[t].approvals == 0 && next.transactions[t].rejections == 0
    ensures Counted(next)
  {
    forall x <- next.transactions, b
      ensures Votes(next, x, b) == if x == t then {} else Votes(s, x, b)
    {
    }
  }

  /** `next` has one new active transaction `t`, at the index its multisig `k` counted last. */
  ghost predicate Proposes(p: Program, s: State, next: State, k: Key, t: Key) {
    && t !in s.transactions && k in s.multisigs && k in next.multisigs && t in next.transactions
    && next.transactions == s.transactions[t := next.transactions[t]]
    && next.transactions[t].multisig == k && next.transactions[t].index == s.multisigs[k].txIndex
    && next.multisigs[k] == s.multisigs[k].(txIndex := s.multisigs[k].txIndex + 1)
    && NewlyActive(next, t) && Housed(next)
    && SetsMultisig(p, s, next, k, next.multisigs[k])
  }

  lemma CreateTransactionProposes(p: Program, s: State, q: Proposal)
    requires Housed(s) && Governed(p, s) && DoCreateTransaction(p, s, q).Some?
    ensures Proposes(p, s, DoCreateTransaction(p, s, q).value, q.multisig, q.account.key)
  {
  }

  lemma ProposingKeepsInv(p: Program, s: State, next: State, k: Key, t: Key)
    requires Inv(p, s) && Proposes(p, s, next, k, t)
    ensures Inv(p, next)
  {
    CreateTransactionIndexed(s, next, k, t, next.transactions[t]);
    NewTransactionCounted(s, next, t);
    SetMultisigKeeps(p, s, next, k, next.multisigs[k]);
  }

  // ── Votes ────────────────────────────────────────────────────────────────

  /** `next` is `s` with one more record, of `approved`, and its transaction counted again as `tx`. */
  ghost predicate Counts(s: State, next: State, r: Key, record: ApprovalRecord, tx: Transaction) {
    var t := record.transaction;
    && r !in s.records && t in s.transactions && record.approved <= 1
    && next.multisigs == s.multisigs
    && next.records == s.records[r := record]
    && next.transactions == s.transactions[t := tx]
    && tx.multisig == s.transactions[t].multisig && tx.index == s.transactions[t].index
    && tx.approvals == s.transactions[t].approvals + record.approved
    && tx.rejections == s.transactions[t].rejections + 1 - record.approved
  }

  /** One new record is one new vote on its transaction, and on no other. */
  lemma OneMoreVote(s: State, next: State, r: Key, record: ApprovalRecord, tx: Transaction)
    requires Counted(s) && Counts(s, next, r, record, tx)
    ensures Counted(next)
  {
    forall t <- next.transactions
      ensures
        && next.transactions[t].approvals == |Votes(next, t, true)|
        && next.transactions[t].rejections == |Votes(next, t, false)|
    {
      OneMoreVoteAt(s.records, r, record, t, true);
      OneMoreVoteAt(s.records, r, record, t, false);
    }
  }

  lemma OneMoreVoteAt(records: map<Key, ApprovalRecord>, r: Key, record: ApprovalRecord, t: Key, approving: bool)
    requires r !in records
    ensures |VotesIn(records[r := record], t, approving)| ==
              |VotesIn(records, t, approving)| +
              if t == record.transaction && approving == (record.approved == 1) then 1 else 0
  {
    var before, after := VotesIn(records, t, approving), VotesIn(records[r := record], t, approving);
    assert r !in before;
    forall x | x != r ensures x in after <==> x in before {}
    if t == record.transaction && approving == (record.approved == 1) {
      assert r in after;
      assert after == before + {r};
    } else {
      assert r !in after;
      assert after == before;
    }
  }

  /** What a successful approval or rejection did, apart from the voucher. */
  ghost predicate Voted(s: State, next: State, v: Vote, approved: u8) {
    && v.record.key in next.records && v.transaction in next.transactions
    && v.multisig in s.multisigs && v.member in s.multisigs[v.multisig].members
    && v.transaction in s.transactions && s.transactions[v.transaction].multisig == v.multisig
    && s.transactions[v.transaction].status == STATUS_ACTIVE
    && next.records[v.record.key] == ApprovalRecord(1, v.member, v.transaction, approved, v.recordBump)
    && Counts(s, next, v.record.key, next.records[v.record.key], next.transactions[v.transaction])
    && Housed(next)
  }

  lemma ApproveVotes(p: Program, s: State, v: Vote)
    requires Housed(s) && DoApprove(p, s, v).Some?
    ensures Voted(s, DoApprove(p, s, v).value, v, 1)
  {
  }

  lemma RejectVotes(p: Program, s: State, v: Vote)
    requires Housed(s) && DoReject(p, s, v).Some?
    ensures Voted(s, DoReject(p, s, v).value, v, 0)
  {
  }

  lemma VoteRecorded(s: State, next: State, v: Vote, approved: u8)
    requires Recorded(s) && Voted(s, next, v, approved)
    ensures Recorded(next)
  {
    forall r <- next.records ensures RecordedAt(next, next.records[r]) {
      if r != v.record.key {
        assert RecordedAt(s, s.records[r]);
      }
    }
  }

  lemma VoteDecided(s: State, next: State, v: Vote, approved: u8)
    requires AllDecided(s) && Voted(s, next, v, approved)
    requires Decided(next.transactions[v.transaction], s.multisigs[v.multisig])
    ensures AllDecided(next)
  {
    forall t <- next.transactions ensures DecidedAt(next, next.transactions[t]) {
      if t != v.transaction {
        assert DecidedAt(s, s.transactions[t]);
      }
    }
  }

  lemma VoteKeeps(p: Program, s: State, next: State, v: Vote, approved: u8)
    requires Inv(p, s) && Voted(s, next, v, approved)
    requires Decided(next.transactions[v.transaction], s.multisigs[v.multisig])
    ensures Governed(p, next) && Indexed(next) && Recorded(next) && Counted(next) && AllDecided(next)
  {
    SameIndices(s, next);
    OneMoreVote(s, next, v.record.key, next.records[v.record.key], next.transactions[v.transaction]);
    VoteRecorded(s, next, v, approved);
    VoteDecided(s, next, v, approved);
  }

  /** `next` has one more voucher, at an empty address, for a transaction that was active until now. */
  ghost predicate NewlyIssued(p: Program, s: State, next: State, v: Key, t: Key) {
    && v !in s.vouchers && v in next.vouchers
    && next.vouchers == s.vouchers[v := next.vouchers[v]] && next.multisigs == s.multisigs
    && t in s.transactions && t in next.transactions && s.transactions[t].status == STATUS_ACTIVE
    && next.transactions == s.transactions[t := next.transactions[t]]
    && IssuedFor(p, next, v, t)
  }

  /** An approved transaction has its voucher at its own address already, so that address was not empty. */
  lemma OtherVouchersStay(p: Program, s: State, next: State, v: Key, t: Key, x: Key, y: Key)
    requires Vouched(p, s) && NewlyIssued(p, s, next, v, t) && y != t
    ensures IssuedFor(p, next, x, y) <==> IssuedFor(p, s, x, y)
  {
    if y in s.transactions && s.transactions[y].status == STATUS_APPROVED {
      var other :| IssuedFor(p, s, other, y);
      assert other != v;
    }
  }

  lemma NewVoucher(p: Program, s: State, next: State, v: Key, t: Key)
    requires Vouched(p, s) && NewlyIssued(p, s, next, v, t)
    ensures Vouched(p, next)
  {
    forall x, y | y != t ensures IssuedFor(p, next, x, y) <==> IssuedFor(p, s, x, y) {
      OtherVouchersStay(p, s, next, v, t, x, y);
    }
    forall x <- next.vouchers ensures exists y :: IssuedFor(p, next, x, y) {
      if x != v {
        var y :| IssuedFor(p, s, x, y);
        assert IssuedFor(p, next, x, y);
      }
    }
    forall y <- next.transactions | next.transactions[y].status == STATUS_APPROVED
      ensures exists x :: IssuedFor(p, next, x, y)
    {
      if y != t {
        var x :| IssuedFor(p, s, x, y);
        assert IssuedFor(p, next, x, y);
      }
    }
  }

  /** An approval leaves the transaction active and the vouchers alone, or issues its voucher. */
  ghost predicate ApprovalOutcome(p: Program, s: State, next: State, v: Vote) {
    && v.transaction in next.transactions && v.multisig in s.multisigs
    && Decided(next.transactions[v.transaction], s.multisigs[v.multisig])
    && ((next.transactions[v.transaction].status == STATUS_ACTIVE && next.vouchers == s.vouchers)
        || (exists voucher :: NewlyIssued(p, s, next, voucher, v.transaction)))
  }

  lemma ApproveDecides(p: Program, s: State, v: Vote)
    requires Inv(p, s) && DoApprove(p, s, v).Some?
    ensures ApprovalOutcome(p, s, DoApprove(p, s, v).value, v)
  {
    var next := DoApprove(p, s, v).value;
    assert DecidedAt(s, s.transactions[v.transaction]);
    if next.transactions[v.transaction].status != STATUS_ACTIVE {
      assert NewlyIssued(p, s, next, v.call.value.voucher, v.transaction);
    }
  }

  /** A vote that does not approve its transaction leaves every voucher issued. */
  lemma VoteVouched(p: Program, s: State, next: State, v: Vote, approved: u8)
    requires Vouched(p, s) && Indexed(s) && Voted(s, next, v, approved)
    requires next.vouchers == s.vouchers && next.transactions[v.transaction].status != STATUS_APPROVED
    ensures Vouched(p, next)
  {
    SameVouchers(p, s, next);
  }

  lemma ApprovalVouched(p: Program, s: State, next: State, v: Vote)
    requires Vouched(p, s) && Indexed(s) && Voted(s, next, v, 1) && ApprovalOutcome(p, s, next, v)
    ensures Vouched(p, next)
  {
    if next.transactions[v.transaction].status == STATUS_ACTIVE && next.vouchers == s.vouchers {
      VoteVouched(p, s, next, v, 1);
    } else {
      var voucher :| NewlyIssued(p, s, next, voucher, v.transaction);
      NewVoucher(p, s, next, voucher, v.transaction);
    }
  }

  lemma ApprovalKeepsInv(p: Program, s: State, next: State, v: Vote)
    requires Inv(p, s) && Voted(s, next, v, 1) && ApprovalOutcome(p, s, next, v)
    ensures Inv(p, next)
  {
    VoteKeeps(p, s, next, v, 1);
    ApprovalVouched(p, s, next, v);
  }

  lemma RejectDecides(p: Program, s: State, v: Vote)
    requires Inv(p, s) && DoReject(p, s, v).Some?
    ensures RejectionOutcome(s, DoReject(p, s, v).value, v)
  {
    assert DecidedAt(s, s.transactions[v.transaction]);
  }

  ghost predicate RejectionOutcome(s: State, next: State, v: Vote) {
    && v.transaction in next.transactions && v.multisig in s.multisigs
    && Decided(next.transactions[v.transaction], s.multisigs[v.multisig])
    && next.transactions[v.transaction].status != STATUS_APPROVED && next.vouchers == s.vouchers
  }

  lemma RejectionKeepsInv(p: Program, s: State, next: State, v: Vote)
    requires Inv(p, s) && Voted(s, next, v, 0) && RejectionOutcome(s, next, v)
    ensures Inv(p, next)
  {
    VoteKeeps(p, s, next, v, 0);
    VoteVouched(p, s, next, v, 0);
  }

  lemma ElsewhereKeepsInv(p: Program, s: State, taken: set<Key>)
    requires Inv(p, s) && DoElsewhere(s, taken).Some?
    ensures Inv(p, DoElsewhere(s, taken).value)
  {
    var next := DoElsewhere(s, taken).value;
    SameIndices(s, next);
    SameVotes(s, next);
    SameVouchers(p, s, next);
  }

  lemma StepKeepsInv(p: Program, s: State, step: Step)
    requires Inv(p, s)
    ensures Inv(p, After(p, s, step))
  {
    var next := After(p, s, step);
    if Do(p, s, step).Some? {
      match step
      case CreateMultisig(terms) => CreateMultisigKeepsInv(p, s, terms);
      case CreateTransaction(q) =>
        CreateTransactionProposes(p, s, q);
        ProposingKeepsInv(p, s, next, q.multisig, q.account.key);
      case Approve(v) =>
        ApproveVotes(p, s, v);
        ApproveDecides(p, s, v);
        ApprovalKeepsInv(p, s, next, v);
      case Reject(v) =>
        RejectVotes(p, s, v);
        RejectDecides(p, s, v);
        RejectionKeepsInv(p, s, next, v);
      case Elsewhere(taken) => ElsewhereKeepsInv(p, s, taken);
    }
  }

  lemma {:induction false} RunKeepsInv(p: Program, s: State, steps: seq<Step>)
    requires Inv(p, s)
    ensures Inv(p, Run(p, s, steps))
    decreases |steps|
  {
    if steps != [] {
      RunKeepsInv(p, s, steps[..|steps| - 1]);
      StepKeepsInv(p, Run(p, s, steps[..|steps| - 1]), steps[|steps| - 1]);
    }
  }

  lemma EmptyIsSound(p: Program)
    ensures Inv(p, EMPTY)
  {
  }

  // ── Records at their derived addresses ───────────────────────────────────

  /** Every record is at the canonical address of its transaction and member. */
  ghost predicate Addressed(p: Program, s: State) {
    forall r <- s.records :: RecordAddress(p, s.records[r].transaction, s.records[r].member) == Some(r)
  }

  function RecordAddress(p: Program, transaction: Key, member: Key): Option<Key> {
    match p.find(ApprovalSeeds(transaction, member))
    case Some((key, _)) => Some(key)
    case None => None
  }

  ghost predicate CreatesRecord(p: Program, s: State, step: Step) {
    (step.Approve? || step.Reject?) && Do(p, s, step).Some?
  }

  /**
   * A successful vote keeps every record at its derived address exactly when
   * the record account it was given is the derived one.
   */
  lemma VoteKeepsAddressed(p: Program, s: State, step: Step)
    requires Housed(s) && Addressed(p, s) && CreatesRecord(p, s, step)
    ensures Addressed(p, After(p, s, step)) <==>
              RecordAddress(p, step.vote.transaction, step.vote.member) == Some(step.vote.record.key)
  {
    if step.Approve? {
      ApproveVotes(p, s, step.vote);
      OneMoreAddressed(p, s, After(p, s, step), step.vote, 1);
    } else {
      RejectVotes(p, s, step.vote);
      OneMoreAddressed(p, s, After(p, s, step), step.vote, 0);
    }
  }

  lemma OneMoreAddressed(p: Program, s: State, next: State, v: Vote, approved: u8)
    requires Addressed(p, s) && Voted(s, next, v, approved)
    ensures Addressed(p, next) <==> RecordAddress(p, v.transaction, v.member) == Some(v.record.key)
  {
    assert v.record.key in next.records;
  }

  /** A record account that did not sign the transaction is the derived one. */
  lemma UnsignedRecordIsDerived(p: Program, s: State, step: Step)
    requires Coherent(p) && CreatesRecord(p, s, step) && !step.vote.record.signs
    ensures RecordAddress(p, step.vote.transaction, step.vote.member) == Some(step.vote.record.key)
  {
    var v := step.vote;
    assert p.find(ApprovalSeeds(v.transaction, v.member)).Some?;
  }

  predicate NoRecordSigns(steps: seq<Step>) {
    forall step <- steps | step.Approve? || step.Reject? :: !step.vote.record.signs
  }

  lemma StepKeepsAddressed(p: Program, s: State, step: Step)
    requires Coherent(p) && Housed(s) && Addressed(p, s)
    requires step.Approve? || step.Reject? ==> !step.vote.record.signs
    ensures Addressed(p, After(p, s, step))
  {
    if CreatesRecord(p, s, step) {
      UnsignedRecordIsDerived(p, s, step);
      VoteKeepsAddressed(p, s, step);
    }
  }

  lemma {:induction false} RunIsAddressed(p: Program, steps: seq<Step>)
    requires Coherent(p) && NoRecordSigns(steps)
    ensures Addressed(p, Run(p, EMPTY, steps))
    decreases |steps|
  {
    if steps != [] {
      var earlier := steps[..|steps| - 1];
      RunIsAddressed(p, earlier);
      EmptyIsSound(p);
      RunKeepsInv(p, EMPTY, earlier);
      StepKeepsAddressed(p, Run(p, EMPTY, earlier), steps[|steps| - 1]);
    }
  }
}
