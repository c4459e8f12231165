/**
 * The m-of-n multisig as a state machine over its decoded accounts
 * (examples/multisig/native/src/lib.rs; the Pinocchio program writes the same
 * fields in the same order). Every instruction is atomic: a refusal is
 * `None`, and the state stays.
 */
module MultisigMachine {
  import opened Common
  import opened Bytes
  import opened ProgramAddresses
  import opened Governance

  const STATUS_ACTIVE: u8 := 0
  const STATUS_APPROVED: u8 := 1
  const STATUS_REJECTED: u8 := 2

  datatype Multisig = Multisig(
    version: u8, dwallet: Key, threshold: nat, members: seq<Key>, txIndex: nat, bump: u8)

  datatype Transaction = Transaction(
    version: u8, multisig: Key, index: nat, proposer: Key, messageHash: Key, userPubkey: Key,
    scheme: nat, approvals: nat, rejections: nat, status: u8, voucherBump: u8, futureSign: u8,
    bump: u8, messageLength: nat, message: seq<u8>)

  datatype ApprovalRecord = ApprovalRecord(
    version: u8, member: Key, transaction: Key, approved: u8, bump: u8)

  /** `taken` holds every address with an account, this program's or not. */
  datatype State = State(
    multisigs: map<Key, Multisig>,
    transactions: map<Key, Transaction>,
    records: map<Key, ApprovalRecord>,
    vouchers: map<Key, Voucher>,
    taken: set<Key>)

  const EMPTY: State := State(map[], map[], map[], map[], {})

  // ── Addresses ────────────────────────────────────────────────────────────

  // The ASCII bytes of "multisig", "transaction", "approval".
  const MULTISIG_SEED: seq<u8> := [109, 117, 108, 116, 105, 115, 105, 103]
  const TRANSACTION_SEED: seq<u8> := [116, 114, 97, 110, 115, 97, 99, 116, 105, 111, 110]
  const APPROVAL_SEED: seq<u8> := [97, 112, 112, 114, 111, 118, 97, 108]

  function MultisigSeeds(dwallet: Key): seq<u8> { MULTISIG_SEED + dwallet.bytes }
  function TransactionSeeds(multisig: Key, index: nat): seq<u8> {
    TRANSACTION_SEED + multisig.bytes + LittleEndian(index, 4)
  }
  function ApprovalSeeds(transaction: Key, member: Key): seq<u8> {
    APPROVAL_SEED + transaction.bytes + member.bytes
  }

  // ── Instructions ─────────────────────────────────────────────────────────

  /** `dwalletOwner` is the owner a real dWallet account of the dWallet program states. */
  datatype MultisigTerms = MultisigTerms(
    account: NewAccount, dwallet: Key, dwalletOwner: Option<Key>, owner: Key, ownerSigns: bool,
    threshold: nat, members: seq<Key>)

  datatype Proposal = Proposal(
    multisig: Key, account: NewAccount, proposer: Key, proposerSigns: bool,
    messageHash: Key, userPubkey: Key, scheme: nat, voucherBump: u8, futureSign: u8, txBump: u8,
    message: seq<u8>)

  datatype Vote = Vote(
    multisig: Key, transaction: Key, record: NewAccount, member: Key, memberSigns: bool,
    recordBump: u8, call: Option<VoucherCall>)

  datatype Step =
    | CreateMultisig(terms: MultisigTerms)
    | CreateTransaction(proposal: Proposal)
    | Approve(vote: Vote)
    | Reject(vote: Vote)
    | Elsewhere(taken: set<Key>)   // accounts of other programs come and go

  function DoCreateMultisig(p: Program, s: State, t: MultisigTerms): Option<State> {
    var found := p.find(MultisigSeeds(t.dwallet));
    if || !t.ownerSigns
       || |t.members| == 0 || |t.members| > MAX_MEMBERS
       || t.threshold == 0 || t.threshold > |t.members|
       || !Distinct(t.members)
       || t.dwalletOwner != Some(t.owner)
       || found.None? || found.value.0 != t.account.key
       || !MayCreate(p.derive, s.taken, t.account, MultisigSeeds(t.dwallet), found.value.1)
    then None
    else Some(s.(
      multisigs := s.multisigs[t.account.key :=
        Multisig(1, t.dwallet, t.threshold, t.members, 0, found.value.1)],
      taken := s.taken + {t.account.key}))
  }

  /** `verify_multisig`, and that `member` is one of its members. */
  predicate VerifiedMember(p: Program, s: State, multisig: Key, member: Key) {
    && multisig in s.multisigs
    && p.derive(MultisigSeeds(s.multisigs[multisig].dwallet) + [s.multisigs[multisig].bump]) == Some(multisig)
    && member in s.multisigs[multisig].members
  }

  function NewTransaction(q: Proposal, index: nat): Transaction
    requires |q.message| <= 256
  {
    Transaction(1, q.multisig, index, q.proposer, q.messageHash, q.userPubkey, q.scheme, 0, 0,
                STATUS_ACTIVE, q.voucherBump, q.futureSign, q.txBump, |q.message|,
                q.message + Zeros(256 - |q.message|))
  }

  function DoCreateTransaction(p: Program, s: State, q: Proposal): Option<State> {
    if !q.proposerSigns || !VerifiedMember(p, s, q.multisig, q.proposer) then None
    else
      var m := s.multisigs[q.multisig];
      if || !IsCanonicalBump(p, VoucherSeeds(q.account.key), q.voucherBump)
         || q.futureSign > 1
         || |q.message| > 256
         || !IsCanonicalBump(p, TransactionSeeds(q.multisig, m.txIndex), q.txBump)
         || !MayCreate(p.derive, s.taken, q.account, TransactionSeeds(q.multisig, m.txIndex), q.txBump)
         || m.txIndex + 1 >= 0x1_0000_0000
      then None
      else Some(s.(
        multisigs := s.multisigs[q.multisig := m.(txIndex := m.txIndex + 1)],
        transactions := s.transactions[q.account.key := NewTransaction(q, m.txIndex)],
        taken := s.taken + {q.account.key}))
  }

  /** The prologue of approve and reject: every check, then the record. */
  function RecordVote(p: Program, s: State, v: Vote, approved: u8): Option<State> {
    if || !v.memberSigns
       || !VerifiedMember(p, s, v.multisig, v.member)
       || v.transaction !in s.transactions
       || s.transactions[v.transaction].status != STATUS_ACTIVE
       || s.transactions[v.transaction].multisig != v.multisig
       || !IsCanonicalBump(p, ApprovalSeeds(v.transaction, v.member), v.recordBump)
       || !MayCreate(p.derive, s.taken, v.record, ApprovalSeeds(v.transaction, v.member), v.recordBump)
    then None
    else Some(s.(
      records := s.records[v.record.key :=
        ApprovalRecord(1, v.member, v.transaction, approved, v.recordBump)],
      taken := s.taken + {v.record.key}))
  }

  /** What the program asks the dWallet program to issue for a transaction. */
  function VoucherOf(tx: Transaction, dwallet: Key): Voucher {
    Voucher(dwallet, tx.messageHash, Key(Zeros(32)), tx.scheme,
            if tx.futureSign != 0 then Some(tx.proposer) else None,
            Some(tx.userPubkey), tx.futureSign != 0)
  }

  function DoApprove(p: Program, s: State, v: Vote): Option<State> {
    match RecordVote(p, s, v, 1)
    case None => None
    case Some(recorded) =>
      var m := s.multisigs[v.multisig];
      var tx := s.transactions[v.transaction];
      var counted := tx.(approvals := tx.approvals + 1);
      if counted.approvals >= 0x1_0000 then None
      else if counted.approvals < m.threshold then
        Some(recorded.(transactions := s.transactions[v.transaction := counted]))
      else if || v.call.None?
              || v.call.value.dwallet != m.dwallet
              || p.derive(VoucherSeeds(v.transaction) + [tx.voucherBump]) != Some(v.call.value.voucher)
              || !v.call.value.accepted
              || v.call.value.voucher in recorded.taken
      then None
      else Some(recorded.(
        transactions := s.transactions[v.transaction := counted.(status := STATUS_APPROVED)],
        vouchers := s.vouchers[v.call.value.voucher := VoucherOf(tx, m.dwallet)],
        taken := recorded.taken + {v.call.value.voucher}))
  }

  function DoReject(p: Program, s: State, v: Vote): Option<State> {
    match RecordVote(p, s, v, 0)
    case None => None
    case Some(recorded) =>
      var m := s.multisigs[v.multisig];
      var tx := s.transactions[v.transaction];
      var counted := tx.(rejections := tx.rejections + 1);
      if counted.rejections >= 0x1_0000 || m.threshold > |m.members| then None
      else
        var status := if counted.rejections >= |m.members| - m.threshold + 1
                      then STATUS_REJECTED else tx.status;
        Some(recorded.(transactions := s.transactions[v.transaction := counted.(status := status)]))
  }

  /** Other programs create and close accounts of their own, never this program's or a voucher. */
  function DoElsewhere(s: State, taken: set<Key>): Option<State> {
    if s.multisigs.Keys + s.transactions.Keys + s.records.Keys + s.vouchers.Keys <= taken
    then Some(s.(taken := taken))
    else None
  }

  function Do(p: Program, s: State, step: Step): Option<State> {
    match step
    case CreateMultisig(terms) => DoCreateMultisig(p, s, terms)
    case CreateTransaction(proposal) => DoCreateTransaction(p, s, proposal)
    case Approve(vote) => DoApprove(p, s, vote)
    case Reject(vote) => DoReject(p, s, vote)
    case Elsewhere(taken) => DoElsewhere(s, taken)
  }

  function After(p: Program, s: State, step: Step): State {
    match Do(p, s, step) case Some(next) => next case None => s
  }

  /** The state after every step of a run, each one atomic. */
  function Run(p: Program, s: State, steps: seq<Step>): State
    decreases |steps|
  {
    if steps == [] then s
    else After(p, Run(p, s, steps[..|steps| - 1]), steps[|steps| - 1])
  }
}
