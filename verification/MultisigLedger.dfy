/**
 * The multisig program on account bytes
 * (examples/multisig/native/src/lib.rs): each instruction reads and writes
 * the buffers in place and commits them together, or changes nothing.
 */
module MultisigLedger {
  import opened Common
  import opened Bytes
  import opened Accounts
  import opened ProgramAddresses
  import opened Layout
  import opened Governance
  import opened MultisigMachine
  import opened MultisigLayout
  import opened MultisigInstructions

  // ── Decoding the whole chain ─────────────────────────────────────────────

  /** This program's accounts have the lengths it creates them with. */
  ghost predicate Shaped(accounts: AccountMap, program: Key) {
    forall k <- accounts :: ShapedAccount(accounts[k], program)
  }

  predicate ShapedAccount(account: Account, program: Key) {
    && (IsKind(account, program, MULTISIG_DISCRIMINATOR) ==>
          |account.data| == MULTISIG_LEN && NumberAt(account.data, MS_MEMBER_COUNT, 2) <= MAX_MEMBERS)
    && (IsKind(account, program, TRANSACTION_DISCRIMINATOR) ==> |account.data| == TRANSACTION_LEN)
    && (IsKind(account, program, APPROVAL_RECORD_DISCRIMINATOR) ==> |account.data| == APPROVAL_RECORD_LEN)
  }

  function IsMultisig(program: Key): Account -> bool {
    (a: Account) => IsKind(a, program, MULTISIG_DISCRIMINATOR) && |a.data| == MULTISIG_LEN
  }

  function IsTransaction(program: Key): Account -> bool {
    (a: Account) => IsKind(a, program, TRANSACTION_DISCRIMINATOR) && |a.data| == TRANSACTION_LEN
  }

  function IsRecord(program: Key): Account -> bool {
    (a: Account) => IsKind(a, program, APPROVAL_RECORD_DISCRIMINATOR) && |a.data| == APPROVAL_RECORD_LEN
  }

  // Bytes of another length never meet these: the predicates above exclude them.
  function MultisigOf(): Account -> Multisig {
    (a: Account) => DecodeMultisig(if |a.data| == MULTISIG_LEN then a.data else Zeros(MULTISIG_LEN))
  }

  function TransactionOf(): Account -> Transaction {
    (a: Account) => DecodeTransaction(if |a.data| == TRANSACTION_LEN then a.data else Zeros(TRANSACTION_LEN))
  }

  function RecordOf(): Account -> ApprovalRecord {
    (a: Account) => DecodeRecord(if |a.data| == APPROVAL_RECORD_LEN then a.data else Zeros(APPROVAL_RECORD_LEN))
  }

  function View(accounts: AccountMap, vouchers: map<Key, Voucher>, program: Key): State {
    State(Select(accounts, IsMultisig(program), MultisigOf()),
          Select(accounts, IsTransaction(program), TransactionOf()),
          Select(accounts, IsRecord(program), RecordOf()),
          vouchers,
          accounts.Keys)
  }

  /** The new state as its tables show it. */
  lemma ViewSet(accounts: AccountMap, vouchers: map<Key, Voucher>, program: Key, k: Key, account: Account)
    requires account.owner == program ==> |account.data| > 0
    requires k in accounts && accounts[k].owner == program ==>
               && account.owner == program && |accounts[k].data| > 0 && accounts[k].data[0] == account.data[0]
    requires ShapedAccount(account, program)
    ensures
      var s, next := View(accounts, vouchers, program), View(accounts[k := account], vouchers, program);
      && next.multisigs == (if IsKind(account, program, MULTISIG_DISCRIMINATOR)
                            then s.multisigs[k := DecodeMultisig(account.data)] else s.multisigs)
      && next.transactions == (if IsKind(account, program, TRANSACTION_DISCRIMINATOR)
                               then s.transactions[k := DecodeTransaction(account.data)] else s.transactions)
      && next.records == (if IsKind(account, program, APPROVAL_RECORD_DISCRIMINATOR)
                          then s.records[k := DecodeRecord(account.data)] else s.records)
      && next.vouchers == s.vouchers
      && next.taken == s.taken + {k}
  {
    Selected(accounts, IsMultisig(program), MultisigOf(), k, account);
    Selected(accounts, IsTransaction(program), TransactionOf(), k, account);
    Selected(accounts, IsRecord(program), RecordOf(), k, account);
  }

  lemma ShapedSet(accounts: AccountMap, program: Key, k: Key, account: Account)
    requires Shaped(accounts, program) && ShapedAccount(account, program)
    ensures Shaped(accounts[k := account], program)
  {
  }

  /** What other programs do leaves every decoded account as it was. */
  lemma ElsewhereView(before: AccountMap, after: AccountMap, vouchers: map<Key, Voucher>, program: Key)
    requires Shaped(before, program) && RuntimeAllows(program, before, after)
    ensures Shaped(after, program)
    ensures View(after, vouchers, program) == View(before, vouchers, program).(taken := after.Keys)
  {
    SelectSame(before, after, IsMultisig(program), MultisigOf());
    SelectSame(before, after, IsTransaction(program), TransactionOf());
    SelectSame(before, after, IsRecord(program), RecordOf());
  }

  // ── One account set at a time ────────────────────────────────────────────

  lemma NewRecordView(accounts: AccountMap, vouchers: map<Key, Voucher>, program: Key, k: Key, data: seq<u8>)
    requires Shaped(accounts, program) && k !in accounts
    requires |data| == APPROVAL_RECORD_LEN && data[0] == APPROVAL_RECORD_DISCRIMINATOR
    ensures
      var s, next := View(accounts, vouchers, program), accounts[k := Account(program, data)];
      && Shaped(next, program)
      && View(next, vouchers, program) ==
           s.(records := s.records[k := DecodeRecord(data)], taken := s.taken + {k})
  {
    ShapedSet(accounts, program, k, Account(program, data));
    ViewSet(accounts, vouchers, program, k, Account(program, data));
  }

  lemma NewMultisigView(accounts: AccountMap, vouchers: map<Key, Voucher>, program: Key, k: Key, data: seq<u8>)
    requires Shaped(accounts, program) && k !in accounts
    requires |data| == MULTISIG_LEN && data[0] == MULTISIG_DISCRIMINATOR
    requires NumberAt(data, MS_MEMBER_COUNT, 2) <= MAX_MEMBERS
    ensures
      var s, next := View(accounts, vouchers, program), accounts[k := Account(program, data)];
      && Shaped(next, program)
      && View(next, vouchers, program) ==
           s.(multisigs := s.multisigs[k := DecodeMultisig(data)], taken := s.taken + {k})
  {
    ShapedSet(accounts, program, k, Account(program, data));
    ViewSet(accounts, vouchers, program, k, Account(program, data));
  }

  lemma NewTransactionView(accounts: AccountMap, vouchers: map<Key, Voucher>, program: Key, k: Key, data: seq<u8>)
    requires Shaped(accounts, program) && k !in accounts
    requires |data| == TRANSACTION_LEN && data[0] == TRANSACTION_DISCRIMINATOR
    ensures
      var s, next := View(accounts, vouchers, program), accounts[k := Account(program, data)];
      && Shaped(next, program)
      && View(next, vouchers, program) ==
           s.(transactions := s.transactions[k := DecodeTransaction(data)], taken := s.taken + {k})
  {
    ShapedSet(accounts, program, k, Account(program, data));
    ViewSet(accounts, vouchers, program, k, Account(program, data));
  }

  lemma TransactionSetView(accounts: AccountMap, vouchers: map<Key, Voucher>, program: Key, k: Key, data: seq<u8>)
    requires Shaped(accounts, program) && k in accounts && IsTransaction(program)(accounts[k])
    requires |data| == TRANSACTION_LEN && data[0] == TRANSACTION_DISCRIMINATOR
    ensures
      var s, next := View(accounts, vouchers, program), accounts[k := Account(program, data)];
      && Shaped(next, program)
      && View(next, vouchers, program) == s.(transactions := s.transactions[k := DecodeTransaction(data)])
  {
    ShapedSet(accounts, program, k, Account(program, data));
    ViewSet(accounts, vouchers, program, k, Account(program, data));
  }

  lemma MultisigSetView(accounts: AccountMap, vouchers: map<Key, Voucher>, program: Key, k: Key, data: seq<u8>)
    requires Shaped(accounts, program) && k in accounts && IsMultisig(program)(accounts[k])
    requires |data| == MULTISIG_LEN && data[0] == MULTISIG_DISCRIMINATOR
    requires NumberAt(data, MS_MEMBER_COUNT, 2) <= MAX_MEMBERS
    ensures
      var s, next := View(accounts, vouchers, program), accounts[k := Account(program, data)];
      && Shaped(next, program)
      && View(next, vouchers, program) == s.(multisigs := s.multisigs[k := DecodeMultisig(data)])
  {
    ShapedSet(accounts, program, k, Account(program, data));
    ViewSet(accounts, vouchers, program, k, Account(program, data));
  }

  lemma NewVoucherView(accounts: AccountMap, vouchers: map<Key, Voucher>, program: Key, k: Key, account: Account, voucher: Voucher)
    requires Shaped(accounts, program) && k !in accounts && account.owner != program
    ensures
      var s, next := View(accounts, vouchers, program), accounts[k := account];
      && Shaped(next, program)
      && View(next, vouchers[k := voucher], program) ==
           s.(vouchers := s.vouchers[k := voucher], taken := s.taken + {k})
  {
    ShapedSet(accounts, program, k, account);
    ViewSet(accounts, vouchers, program, k, account);
  }

  /** A decoded account is one of the program's, of its length. */
  lemma InView(accounts: AccountMap, vouchers: map<Key, Voucher>, program: Key, k: Key)
    requires Shaped(accounts, program)
    ensures
      var s := View(accounts, vouchers, program);
      && (k in s.multisigs <==> k in accounts && IsKind(accounts[k], program, MULTISIG_DISCRIMINATOR))
      && (k in s.transactions <==> k in accounts && IsKind(accounts[k], program, TRANSACTION_DISCRIMINATOR))
      && (k in s.multisigs ==>
            && |accounts[k].data| == MULTISIG_LEN && s.multisigs[k] == DecodeMultisig(accounts[k].data)
            && NumberAt(accounts[k].data, MS_MEMBER_COUNT, 2) <= MAX_MEMBERS)
      && (k in s.transactions ==>
            |accounts[k].data| == TRANSACTION_LEN && s.transactions[k] == DecodeTransaction(accounts[k].data))
  {
    if k in accounts { assert ShapedAccount(accounts[k], program); }
  }

  // ── What the instructions check and write ────────────────────────────────

  /** `verify_multisig` and `is_member`: the multisig is the program's, at its address, and lists `member`. */
  method VerifyMember(program: Key, derive: Derive, accounts: AccountMap, ghost vouchers: map<Key, Voucher>,
                      multisig: Key, member: Key)
    returns (outcome: Outcome)
    requires Shaped(accounts, program)
    ensures outcome.Done? <==> VerifiedMember(ProgramOf(derive), View(accounts, vouchers, program), multisig, member)
  {
    InView(accounts, vouchers, program, multisig);
    if !OwnedBy(accounts, multisig, program) {
      return Refused(InvalidParent);
    }
    var data := accounts[multisig].data;
    if |data| < MULTISIG_LEN || data[0] != MULTISIG_DISCRIMINATOR {
      return Refused(InvalidParent);
    }
    var expected := derive(MultisigSeeds(KeyAt(data, MS_DWALLET)) + [data[MS_BUMP]]);
    if expected != Some(multisig) {
      return Refused(InvalidParent);
    }
    var count := NumberAt(data, MS_MEMBER_COUNT, 2);
    ListedIsMember(data, MS_MEMBERS, count, member);
    var listed := IsListed(data, MS_MEMBERS, count, member);
    return if listed then Done else Refused(NotAMember);
  }

  lemma RecordVoteIs(p: Program, s: State, vote: Vote, approved: u8)
    ensures MultisigMachine.RecordVote(p, s, vote, approved) ==
            if && vote.memberSigns && VerifiedMember(p, s, vote.multisig, vote.member)
               && vote.transaction in s.transactions
               && s.transactions[vote.transaction].status == STATUS_ACTIVE
               && s.transactions[vote.transaction].multisig == vote.multisig
               && IsCanonicalBump(p, ApprovalSeeds(vote.transaction, vote.member), vote.recordBump)
               && MayCreate(p.derive, s.taken, vote.record, ApprovalSeeds(vote.transaction, vote.member), vote.recordBump)
            then Some(s.(
              records := s.records[vote.record.key :=
                ApprovalRecord(1, vote.member, vote.transaction, approved, vote.recordBump)],
              taken := s.taken + {vote.record.key}))
            else None
  {
  }

  /** The checks of `record_vote` on the transaction and the new record, in their order. */
  method CheckVote(derive: Derive, data: seq<u8>, vote: Vote, taken: set<Key>) returns (outcome: Outcome)
    ensures outcome.Done? <==>
              && |data| >= TRANSACTION_LEN && data[0] == TRANSACTION_DISCRIMINATOR
              && data[TX_STATUS] == STATUS_ACTIVE && KeyAt(data, TX_MULTISIG) == vote.multisig
              && IsCanonicalBump(ProgramOf(derive), ApprovalSeeds(vote.transaction, vote.member), vote.recordBump)
              && MayCreate(derive, taken, vote.record, ApprovalSeeds(vote.transaction, vote.member), vote.recordBump)
  {
    if |data| < TRANSACTION_LEN || data[0] != TRANSACTION_DISCRIMINATOR {
      return Refused(InvalidAccountData);
    }
    if data[TX_STATUS] != STATUS_ACTIVE {
      return Refused(NotActive);
    }
    if KeyAt(data, TX_MULTISIG) != vote.multisig {
      return Refused(WrongParent);
    }
    var seeds := ApprovalSeeds(vote.transaction, vote.member);
    var canonical := RequireCanonicalBump(derive, seeds, vote.recordBump);
    if !canonical {
      return Refused(InvalidBump);
    }
    return if MayCreate(derive, taken, vote.record, seeds, vote.recordBump) then Done else Refused(AccountNotCreated);
  }

  /** The bytes are the record of one vote. */
  ghost predicate IsRecordOf(data: seq<u8>, vote: Vote, approved: u8) {
    && |data| == APPROVAL_RECORD_LEN && data[0] == APPROVAL_RECORD_DISCRIMINATOR
    && DecodeRecord(data) == ApprovalRecord(1, vote.member, vote.transaction, approved, vote.recordBump)
  }

  /**
   * What a vote leaves of the accounts: its record, the transaction it is
   * counted on, and nothing else but a voucher.
   */
  ghost predicate VoteWritten(program: Key, before: AccountMap, after: AccountMap, vote: Vote, approved: u8, issued: set<Key>) {
    && vote.record.key !in before && vote.record.key in after && after[vote.record.key].owner == program
    && IsRecordOf(after[vote.record.key].data, vote, approved)
    && vote.transaction in before && vote.transaction in after
    && Counted(before[vote.transaction].data, after[vote.transaction].data, approved)
    && OnlyChanges(before, after, {vote.record.key, vote.transaction} + issued)
  }

  /** One more account: the vote's record. */
  ghost predicate Recorded(program: Key, before: AccountMap, after: AccountMap, vote: Vote, approved: u8) {
    && vote.record.key !in before && vote.record.key in after
    && after == before[vote.record.key := after[vote.record.key]]
    && after[vote.record.key].owner == program && IsRecordOf(after[vote.record.key].data, vote, approved)
  }

  lemma VoteIsWritten(program: Key, before: AccountMap, recorded: AccountMap, vote: Vote, approved: u8, data: seq<u8>)
    requires Recorded(program, before, recorded, vote, approved)
    requires vote.transaction in before && |before[vote.transaction].data| == |data| == TRANSACTION_LEN
    requires before[vote.transaction].data[0] == data[0]
    requires CountedAs(DecodeTransaction(before[vote.transaction].data), DecodeTransaction(data), approved)
    ensures VoteWritten(program, before, recorded[vote.transaction := Account(program, data)], vote, approved, {})
  {
    VoteIsCounted(before[vote.transaction].data, data, approved);
  }

  lemma VoucherIsBeside(program: Key, before: AccountMap, after: AccountMap, vote: Vote, approved: u8, v: Key, account: Account)
    requires VoteWritten(program, before, after, vote, approved, {}) && v !in after
    ensures VoteWritten(program, before, after[v := account], vote, approved, {v})
  {
  }

  lemma OrAVoucher(program: Key, before: AccountMap, after: AccountMap, vote: Vote, approved: u8, v: Key)
    requires VoteWritten(program, before, after, vote, approved, {})
    ensures VoteWritten(program, before, after, vote, approved, {v})
  {
  }

  /** The voucher account of the call, when there is one. */
  function CallAccounts(call: Option<VoucherCall>): set<Key> {
    if call.Some? then {call.value.voucher} else {}
  }

  /**
   * The prologue of approve and reject, on the accounts as the instruction
   * sees them. The owner of the transaction account is not looked at here:
   * one of another program passes when its bytes fit.
   */
  method RecordVote(program: Key, derive: Derive, accounts: AccountMap, ghost vouchers: map<Key, Voucher>,
                    vote: Vote, approved: u8)
    returns (outcome: Outcome, working: AccountMap)
    requires Shaped(accounts, program)
    ensures outcome.Refused? ==>
              MultisigMachine.RecordVote(ProgramOf(derive), View(accounts, vouchers, program), vote, approved).None?
    ensures outcome.Done? ==>
              && vote.record.key !in accounts
              && Recorded(program, accounts, working, vote, approved)
              && vote.transaction in accounts && |accounts[vote.transaction].data| >= TRANSACTION_LEN
              && accounts[vote.transaction].data[0] == TRANSACTION_DISCRIMINATOR
              && vote.multisig in View(accounts, vouchers, program).multisigs
    ensures outcome.Done? && accounts[vote.transaction].owner == program ==>
              && Shaped(working, program)
              && MultisigMachine.RecordVote(ProgramOf(derive), View(accounts, vouchers, program), vote, approved)
                   == Some(View(working, vouchers, program))
  {
    working := accounts;
    RecordVoteIs(ProgramOf(derive), View(accounts, vouchers, program), vote, approved);
    InView(accounts, vouchers, program, vote.transaction);
    if !vote.memberSigns {
      return Refused(MissingRequiredSignature), accounts;
    }
    outcome := VerifyMember(program, derive, accounts, vouchers, vote.multisig, vote.member);
    if outcome.Refused? {
      return;
    }
    outcome := CheckVote(derive, DataOf(accounts, vote.transaction), vote, accounts.Keys);
    if outcome.Refused? {
      return;
    }
    var record := FillRecord(vote.member, vote.transaction, approved, vote.recordBump);
    NewRecordView(accounts, vouchers, program, vote.record.key, record);
    working := accounts[vote.record.key := Account(program, record)];
  }

  /** A transaction account of another program is no transaction of the machine. */
  lemma ForeignVote(derive: Derive, accounts: AccountMap, vouchers: map<Key, Voucher>, program: Key, vote: Vote, approved: u8)
    requires vote.transaction in accounts && accounts[vote.transaction].owner != program
    ensures MultisigMachine.RecordVote(ProgramOf(derive), View(accounts, vouchers, program), vote, approved).None?
  {
  }

  /** One of the two counts read, raised by one and written back; none when it would overflow. */
  method CountVote(data: seq<u8>, at: nat) returns (counted: Option<seq<u8>>)
    requires |data| >= TRANSACTION_LEN && (at == TX_APPROVAL_COUNT || at == TX_REJECTION_COUNT)
    ensures counted.None? <==> NumberAt(data, at, 2) + 1 >= 0x1_0000
    ensures counted.Some? ==>
              && |counted.value| == |data| && counted.value[0] == data[0]
              && NumberAt(counted.value, at, 2) == NumberAt(data, at, 2) + 1
    ensures counted.Some? && |data| == TRANSACTION_LEN ==>
              var before, after := DecodeTransaction(data), DecodeTransaction(counted.value);
              if at == TX_APPROVAL_COUNT then after == before.(approvals := before.approvals + 1)
              else after == before.(rejections := before.rejections + 1)
  {
    var count := NumberAt(data, at, 2) + 1;
    if count >= 0x1_0000 {
      return None;
    }
    var buffer := Load(data);
    Write(buffer, at, LittleEndian(count, 2));
    Widths();
    NumberWritten(data, at, count, 2);
    if |data| == TRANSACTION_LEN {
      ApprovalsWritten(data, count);
      RejectionsWritten(data, count);
    }
    return Some(buffer[..]);
  }

  method SetStatus(data: seq<u8>, status: u8) returns (after: seq<u8>)
    requires |data| >= TRANSACTION_LEN
    ensures |after| == |data| && after[0] == data[0]
    ensures |data| == TRANSACTION_LEN ==> DecodeTransaction(after) == DecodeTransaction(data).(status := status)
  {
    var buffer := Load(data);
    buffer[TX_STATUS] := status;
    if |data| == TRANSACTION_LEN {
      StatusWritten(data, status);
    }
    after := buffer[..];
    assert after == Overwrite(data, TX_STATUS, [status]);
  }

  /** What an approval does once its record is written: the transaction after it, and whether it asks for the voucher. */
  ghost function Approved(p: Program, m: Multisig, tx: Transaction, vote: Vote, taken: set<Key>): Option<(Transaction, bool)> {
    var counted := tx.(approvals := tx.approvals + 1);
    if counted.approvals >= 0x1_0000 then None
    else if counted.approvals < m.threshold then Some((counted, false))
    else if || vote.call.None?
            || vote.call.value.dwallet != m.dwallet
            || p.derive(VoucherSeeds(vote.transaction) + [tx.voucherBump]) != Some(vote.call.value.voucher)
            || !vote.call.value.accepted
            || vote.call.value.voucher in taken
    then None
    else Some((counted.(status := STATUS_APPROVED), true))
  }

  lemma ApproveIs(p: Program, s: State, vote: Vote)
    ensures DoApprove(p, s, vote) ==
            match MultisigMachine.RecordVote(p, s, vote, 1)
            case None => None
            case Some(recorded) =>
              var m, tx := s.multisigs[vote.multisig], s.transactions[vote.transaction];
              match Approved(p, m, tx, vote, recorded.taken)
              case None => None
              case Some((after, issue)) =>
                var counted := recorded.(transactions := recorded.transactions[vote.transaction := after]);
                if issue then
                  Some(counted.(vouchers := recorded.vouchers[vote.call.value.voucher := VoucherOf(tx, m.dwallet)],
                                taken := recorded.taken + {vote.call.value.voucher}))
                else Some(counted)
  {
  }

  /** The part of `approve` after the record: the count, and at the threshold the voucher and the status. */
  method DecideApproval(derive: Derive, multisig: seq<u8>, transaction: seq<u8>, vote: Vote, taken: set<Key>)
    returns (outcome: Outcome, data: seq<u8>, voucher: Option<Voucher>)
    requires |multisig| == MULTISIG_LEN && |transaction| >= TRANSACTION_LEN
    ensures |transaction| == TRANSACTION_LEN ==>
              var p, m, tx := ProgramOf(derive), DecodeMultisig(multisig), DecodeTransaction(transaction);
              if outcome.Refused? then Approved(p, m, tx, vote, taken).None?
              else
                && |data| == TRANSACTION_LEN && data[0] == transaction[0]
                && Approved(p, m, tx, vote, taken) == Some((DecodeTransaction(data), voucher.Some?))
                && (voucher.Some? ==> voucher == Some(VoucherOf(tx, m.dwallet)))
                && CountedAs(tx, DecodeTransaction(data), 1)
    ensures outcome.Done? && voucher.Some? ==> vote.call.Some? && vote.call.value.voucher !in taken
  {
    voucher, data := None, transaction;
    var counted := CountVote(data, TX_APPROVAL_COUNT);
    if counted.None? {
      return Refused(ArithmeticOverflow), data, None;
    }
    data := counted.value;
    if NumberAt(data, TX_APPROVAL_COUNT, 2) < NumberAt(multisig, MS_THRESHOLD, 2) {
      return Done, data, None;
    }
    if vote.call.None? {
      return Refused(NotEnoughAccountKeys), data, None;
    }
    var call := vote.call.value;
    if call.dwallet != KeyAt(multisig, MS_DWALLET) {
      return Refused(DWalletMismatch), data, None;
    }
    ghost var before := data;
    var expected := derive(VoucherSeeds(vote.transaction) + [data[TX_SIGNATURE_VOUCHER_BUMP]]);
    if expected != Some(call.voucher) {
      return Refused(VoucherMismatch), data, None;
    }
    if call.voucher in taken || !call.accepted {
      return Refused(CallFailed), data, None;
    }
    var future := data[TX_FUTURE_SIGN] != 0;
    voucher := Some(Voucher(
      call.dwallet, KeyAt(data, TX_MESSAGE_HASH), Key(Zeros(32)), NumberAt(data, TX_SIGNATURE_SCHEME, 2),
      if future then Some(KeyAt(data, TX_PROPOSER)) else None,
      Some(KeyAt(data, TX_USER_PUBKEY)), future));
    data := SetStatus(data, STATUS_APPROVED);
    return Done, data, voucher;
  }

  /** `approve`: the whole instruction on a working copy of the accounts. */
  method ApproveOn(program: Key, ika: Key, derive: Derive, accounts: AccountMap, vouchers: map<Key, Voucher>,
                   vote: Vote, voucherData: seq<u8>)
    returns (outcome: Outcome, working: AccountMap, issued: map<Key, Voucher>)
    requires Shaped(accounts, program) && program != ika
    ensures outcome.Done? <==> DoApprove(ProgramOf(derive), View(accounts, vouchers, program), vote).Some?
    ensures outcome.Done? ==>
              && Shaped(working, program)
              && DoApprove(ProgramOf(derive), View(accounts, vouchers, program), vote) == Some(View(working, issued, program))
              && VoteWritten(program, accounts, working, vote, 1, CallAccounts(vote.call))
  {
    issued := vouchers;
    outcome, working := RecordVote(program, derive, accounts, vouchers, vote, 1);
    if outcome.Refused? {
      return;
    }
    ghost var s := View(accounts, vouchers, program);
    ApproveIs(ProgramOf(derive), s, vote);
    InView(accounts, vouchers, program, vote.multisig);
    InView(accounts, vouchers, program, vote.transaction);
    var data, voucher;
    outcome, data, voucher := DecideApproval(
      derive, working[vote.multisig].data, working[vote.transaction].data, vote, working.Keys);
    if accounts[vote.transaction].owner != program {
      ForeignVote(derive, accounts, vouchers, program, vote, 1);
      return Refused(ForeignAccountChanged), accounts, vouchers;
    }
    if outcome.Refused? {
      return;
    }
    TransactionSetView(working, vouchers, program, vote.transaction, data);
    VoteIsWritten(program, accounts, working, vote, 1, data);
    working := working[vote.transaction := Account(program, data)];
    if vote.call.Some? {
      OrAVoucher(program, accounts, working, vote, 1, vote.call.value.voucher);
    }
    if voucher.Some? {
      var call := vote.call.value;
      NewVoucherView(working, vouchers, program, call.voucher, Account(ika, voucherData), voucher.value);
      VoucherIsBeside(program, accounts, working, vote, 1, call.voucher, Account(ika, voucherData));
      working := working[call.voucher := Account(ika, voucherData)];
      issued := issued[call.voucher := voucher.value];
    }
  }

  /** What a rejection does once its record is written. */
  ghost function RejectedTo(m: Multisig, tx: Transaction): Option<Transaction> {
    var counted := tx.(rejections := tx.rejections + 1);
    if counted.rejections >= 0x1_0000 || m.threshold > |m.members| then None
    else if counted.rejections >= |m.members| - m.threshold + 1 then Some(counted.(status := STATUS_REJECTED))
    else Some(counted)
  }

  lemma RejectIs(p: Program, s: State, vote: Vote)
    ensures DoReject(p, s, vote) ==
            match MultisigMachine.RecordVote(p, s, vote, 0)
            case None => None
            case Some(recorded) =>
              match RejectedTo(s.multisigs[vote.multisig], s.transactions[vote.transaction])
              case None => None
              case Some(after) =>
                Some(recorded.(transactions := recorded.transactions[vote.transaction := after]))
  {
  }

  /** The part of `reject` after the record: the count, and the status once the threshold is out of reach. */
  method DecideRejection(multisig: seq<u8>, transaction: seq<u8>) returns (outcome: Outcome, data: seq<u8>)
    requires |multisig| == MULTISIG_LEN && |transaction| >= TRANSACTION_LEN
    requires NumberAt(multisig, MS_MEMBER_COUNT, 2) <= MAX_MEMBERS
    ensures |transaction| == TRANSACTION_LEN ==>
              var m, tx := DecodeMultisig(multisig), DecodeTransaction(transaction);
              if outcome.Refused? then RejectedTo(m, tx).None?
              else
                && |data| == TRANSACTION_LEN && data[0] == transaction[0]
                && RejectedTo(m, tx) == Some(DecodeTransaction(data))
                && CountedAs(tx, DecodeTransaction(data), 0)
  {
    data := transaction;
    var counted := CountVote(data, TX_REJECTION_COUNT);
    if counted.None? {
      return Refused(ArithmeticOverflow), data;
    }
    data := counted.value;
    var threshold, count := NumberAt(multisig, MS_THRESHOLD, 2), NumberAt(multisig, MS_MEMBER_COUNT, 2);
    if threshold > count {
      return Refused(ArithmeticOverflow), data;
    }
    if NumberAt(data, TX_REJECTION_COUNT, 2) >= count - threshold + 1 {
      data := SetStatus(data, STATUS_REJECTED);
    }
    return Done, data;
  }

  /** `reject`: the whole instruction on a working copy of the accounts. */
  method RejectOn(program: Key, derive: Derive, accounts: AccountMap, ghost vouchers: map<Key, Voucher>, vote: Vote)
    returns (outcome: Outcome, working: AccountMap)
    requires Shaped(accounts, program)
    ensures outcome.Done? <==> DoReject(ProgramOf(derive), View(accounts, vouchers, program), vote).Some?
    ensures outcome.Done? ==>
              && Shaped(working, program)
              && DoReject(ProgramOf(derive), View(accounts, vouchers, program), vote) == Some(View(working, vouchers, program))
              && VoteWritten(program, accounts, working, vote, 0, {})
  {
    outcome, working := RecordVote(program, derive, accounts, vouchers, vote, 0);
    if outcome.Refused? {
      return;
    }
    RejectIs(ProgramOf(derive), View(accounts, vouchers, program), vote);
    InView(accounts, vouchers, program, vote.multisig);
    InView(accounts, vouchers, program, vote.transaction);
    var data;
    outcome, data := DecideRejection(working[vote.multisig].data, working[vote.transaction].data);
    if accounts[vote.transaction].owner != program {
      ForeignVote(derive, accounts, vouchers, program, vote, 0);
      return Refused(ForeignAccountChanged), accounts;
    }
    if outcome.Refused? {
      return;
    }
    TransactionSetView(working, vouchers, program, vote.transaction, data);
    VoteIsWritten(program, accounts, working, vote, 0, data);
    working := working[vote.transaction := Account(program, data)];
  }

  /** What a creation is refused for, once its proposer is a member. */
  ghost predicate Proposable(p: Program, m: Multisig, q: Proposal, taken: set<Key>) {
    && IsCanonicalBump(p, VoucherSeeds(q.account.key), q.voucherBump)
    && q.futureSign <= 1
    && |q.message| <= 256
    && IsCanonicalBump(p, TransactionSeeds(q.multisig, m.txIndex), q.txBump)
    && MayCreate(p.derive, taken, q.account, TransactionSeeds(q.multisig, m.txIndex), q.txBump)
    && m.txIndex + 1 < 0x1_0000_0000
  }

  lemma CreateTransactionIs(p: Program, s: State, q: Proposal)
    ensures DoCreateTransaction(p, s, q) ==
            if && q.proposerSigns && VerifiedMember(p, s, q.multisig, q.proposer)
               && Proposable(p, s.multisigs[q.multisig], q, s.taken)
            then
              var m := s.multisigs[q.multisig];
              Some(s.(multisigs := s.multisigs[q.multisig := m.(txIndex := m.txIndex + 1)],
                      transactions := s.transactions[q.account.key := NewTransaction(q, m.txIndex)],
                      taken := s.taken + {q.account.key}))
            else None
  {
  }

  /** The checks of `create_transaction` after membership, in their order. */
  method CheckProposal(derive: Derive, txIndex: nat, data: seq<u8>, multisig: Key, account: NewAccount,
                       proposer: Key, proposerSigns: bool, taken: set<Key>, ghost m: Multisig)
    returns (outcome: Outcome)
    requires |data| >= 71 && txIndex == m.txIndex
    ensures
      var q := ProposalOf(data, multisig, account, proposer, proposerSigns);
      outcome.Done? <==> q.Some? && Proposable(ProgramOf(derive), m, q.value, taken)
  {
    var canonical := RequireCanonicalBump(derive, VoucherSeeds(account.key), data[66]);
    if !canonical {
      return Refused(InvalidVoucherBump);
    }
    if data[67] > 1 || NumberAt(data, 69, 2) > 256 || |data| < 71 + NumberAt(data, 69, 2) {
      return Refused(InvalidInstructionData);
    }
    var seeds := TransactionSeeds(multisig, txIndex);
    canonical := RequireCanonicalBump(derive, seeds, data[68]);
    if !canonical {
      return Refused(InvalidBump);
    }
    if !MayCreate(derive, taken, account, seeds, data[68]) {
      return Refused(AccountNotCreated);
    }
    if txIndex + 1 >= 0x1_0000_0000 {
      return Refused(ArithmeticOverflow);
    }
    return Done;
  }

  /**
   * What a proposal leaves of the accounts: the new transaction, the next
   * index in its multisig, and nothing else.
   */
  ghost predicate ProposalWritten(program: Key, before: AccountMap, after: AccountMap, data: seq<u8>,
                                  multisig: Key, account: Key, proposer: Key)
  {
    && multisig in before && multisig in after && |before[multisig].data| == 363
    && var index := before[multisig].data[38..42];
    && account !in before && account in after && after[account].owner == program
    && TransactionWritten(after[account].data, data, multisig, index, proposer)
    && after[multisig] == Account(program,
         Overwrite(before[multisig].data, 38, LittleEndian(FromLittleEndian(index) + 1, 4)))
    && OnlyChanges(before, after, {account, multisig})
  }

  lemma ProposalWasWritten(program: Key, before: AccountMap, data: seq<u8>, q: Proposal, stored: seq<u8>, next: seq<u8>)
    requires q.multisig in before && |before[q.multisig].data| == MULTISIG_LEN
    requires q.account.key !in before && q.account.key != q.multisig
    requires |stored| == TRANSACTION_LEN && stored[0] == TRANSACTION_DISCRIMINATOR
    requires ProposalOf(data, q.multisig, q.account, q.proposer, q.proposerSigns) == Some(q)
    requires DecodeTransaction(stored) == NewTransaction(q, NumberAt(before[q.multisig].data, MS_TX_INDEX, 4))
    requires next == Overwrite(before[q.multisig].data, 38,
                               LittleEndian(NumberAt(before[q.multisig].data, MS_TX_INDEX, 4) + 1, 4))
    ensures ProposalWritten(program, before,
              before[q.account.key := Account(program, stored)][q.multisig := Account(program, next)],
              data, q.multisig, q.account.key, q.proposer)
  {
    var index := before[q.multisig].data[38..42];
    Widths();
    FromLittleEndianRoundTrip(index);
    ProposalIsWritten(stored, data, q, FromLittleEndian(index));
  }

  /** `create_transaction`: the whole instruction on a working copy of the accounts. */
  method CreateTransactionOn(program: Key, derive: Derive, accounts: AccountMap, ghost vouchers: map<Key, Voucher>,
                             data: seq<u8>, multisig: Key, account: NewAccount, proposer: Key, proposerSigns: bool)
    returns (outcome: Outcome, working: AccountMap)
    requires Shaped(accounts, program)
    ensures
      var q := ProposalOf(data, multisig, account, proposer, proposerSigns);
      && (outcome.Done? <==>
            q.Some? && DoCreateTransaction(ProgramOf(derive), View(accounts, vouchers, program), q.value).Some?)
      && (outcome.Done? ==>
            && Shaped(working, program)
            && DoCreateTransaction(ProgramOf(derive), View(accounts, vouchers, program), q.value)
                 == Some(View(working, vouchers, program))
            && ProposalWritten(program, accounts, working, data, multisig, account.key, proposer))
  {
    working := accounts;
    if |data| < 71 {
      return Refused(InvalidInstructionData), accounts;
    }
    ghost var s := View(accounts, vouchers, program);
    var parsed := ProposalOf(data, multisig, account, proposer, proposerSigns);
    if parsed.Some? {
      CreateTransactionIs(ProgramOf(derive), s, parsed.value);
    }
    if !proposerSigns {
      return Refused(MissingRequiredSignature), accounts;
    }
    outcome := VerifyMember(program, derive, accounts, vouchers, multisig, proposer);
    if outcome.Refused? {
      return;
    }
    InView(accounts, vouchers, program, multisig);
    var was := accounts[multisig].data;
    var txIndex := NumberAt(was, MS_TX_INDEX, 4);
    outcome := CheckProposal(derive, txIndex, data, multisig, account, proposer, proposerSigns,
                             accounts.Keys, DecodeMultisig(was));
    if outcome.Refused? {
      return;
    }
    NumberBelow(data, 64, 2);
    var transaction := FillTransaction(parsed.value, txIndex);
    NewTransactionView(accounts, vouchers, program, account.key, transaction);
    working := accounts[account.key := Account(program, transaction)];
    var next := RaiseIndex(was, txIndex + 1);
    MultisigSetView(working, vouchers, program, multisig, next);
    ProposalWasWritten(program, accounts, data, parsed.value, transaction, next);
    working := working[multisig := Account(program, next)];
  }

  method RaiseIndex(data: seq<u8>, index: nat) returns (after: seq<u8>)
    requires |data| == MULTISIG_LEN && index < 0x1_0000_0000
    ensures |after| == MULTISIG_LEN && after[0] == data[0]
    ensures after == Overwrite(data, 38, LittleEndian(index, 4))
    ensures DecodeMultisig(after) == DecodeMultisig(data).(txIndex := index)
    ensures NumberAt(after, MS_MEMBER_COUNT, 2) == NumberAt(data, MS_MEMBER_COUNT, 2)
  {
    var buffer := Load(data);
    Write(buffer, MS_TX_INDEX, LittleEndian(index, 4));
    TxIndexWritten(data, index);
    FieldBeside(data, MS_TX_INDEX, LittleEndian(index, 4), MS_MEMBER_COUNT, 2);
    return buffer[..];
  }

  /** The checks of `create_multisig` on its terms and the dWallet, in their order. */
  method CheckTerms(data: seq<u8>, stated: Option<Key>, owner: Key, ownerSigns: bool)
    returns (outcome: Outcome)
    requires |data| >= 4
    ensures
      var threshold, count := NumberAt(data, 0, 2), NumberAt(data, 2, 2);
      outcome.Done? <==>
        && ownerSigns && 0 < count <= MAX_MEMBERS && 0 < threshold <= count
        && |data| >= 4 + 32 * count && Distinct(MemberList(data, 4, count))
        && stated == Some(owner)
  {
    if !ownerSigns {
      return Refused(MissingRequiredSignature);
    }
    var threshold, count := NumberAt(data, 0, 2), NumberAt(data, 2, 2);
    if count == 0 || count > MAX_MEMBERS {
      return Refused(InvalidInstructionData);
    }
    if threshold == 0 || threshold > count {
      return Refused(InvalidTerms);
    }
    if |data| < 4 + 32 * count {
      return Refused(InvalidInstructionData);
    }
    var duplicate := HasDuplicate(MemberList(data, 4, count));
    if duplicate {
      return Refused(DuplicateMember);
    }
    if stated.None? {
      return Refused(InvalidDWalletAccount);
    }
    if stated.value != owner {
      return Refused(NotDWalletOwner);
    }
    return Done;
  }

  lemma CreateMultisigIs(p: Program, s: State, t: MultisigTerms)
    ensures
      var found := p.find(MultisigSeeds(t.dwallet));
      DoCreateMultisig(p, s, t) ==
        if && t.ownerSigns && 0 < |t.members| <= MAX_MEMBERS && 0 < t.threshold <= |t.members|
           && Distinct(t.members) && t.dwalletOwner == Some(t.owner)
           && found.Some? && found.value.0 == t.account.key
           && MayCreate(p.derive, s.taken, t.account, MultisigSeeds(t.dwallet), found.value.1)
        then Some(s.(
          multisigs := s.multisigs[t.account.key :=
            Multisig(1, t.dwallet, t.threshold, t.members, 0, found.value.1)],
          taken := s.taken + {t.account.key}))
        else None
  {
  }

  /** What a creation leaves of the accounts: the new multisig, and nothing else. */
  ghost predicate TermsWritten(program: Key, derive: Derive, before: AccountMap, after: AccountMap, data: seq<u8>,
                               account: Key, dwallet: Key)
  {
    && account !in before && account in after && after[account].owner == program
    && (exists bump :: Canonical(derive, MultisigSeeds(dwallet)) == Some((account, bump))
                       && MultisigWritten(after[account].data, data, dwallet, bump))
    && OnlyChanges(before, after, {account})
  }

  /** `create_multisig`: the whole instruction on a working copy of the accounts. */
  method CreateMultisigOn(program: Key, ika: Key, derive: Derive, accounts: AccountMap, ghost vouchers: map<Key, Voucher>,
                          data: seq<u8>, account: NewAccount, dwallet: Key, dwalletProgram: Key,
                          owner: Key, ownerSigns: bool)
    returns (outcome: Outcome, working: AccountMap)
    requires Shaped(accounts, program)
    ensures
      var t := TermsOf(accounts, ika, data, account, dwallet, owner, ownerSigns);
      && (outcome.Done? <==>
            && t.Some? && dwalletProgram == ika
            && DoCreateMultisig(ProgramOf(derive), View(accounts, vouchers, program), t.value).Some?)
      && (outcome.Done? ==>
            && Shaped(working, program)
            && DoCreateMultisig(ProgramOf(derive), View(accounts, vouchers, program), t.value)
                 == Some(View(working, vouchers, program))
            && TermsWritten(program, derive, accounts, working, data, account.key, dwallet))
  {
    working := accounts;
    if |data| < 4 {
      return Refused(InvalidInstructionData), accounts;
    }
    var t := TermsOf(accounts, ika, data, account, dwallet, owner, ownerSigns);
    if t.Some? {
      CreateMultisigIs(ProgramOf(derive), View(accounts, vouchers, program), t.value);
    }
    var stated := if dwalletProgram == ika then DWalletOwner(accounts, dwallet, ika) else None;
    outcome := CheckTerms(data, stated, owner, ownerSigns);
    if outcome.Refused? {
      return;
    }
    var found := FindProgramAddress(derive, MultisigSeeds(dwallet));
    if found.None? || found.value.0 != account.key {
      return Refused(InvalidParent), accounts;
    }
    if !MayCreate(derive, accounts.Keys, account, MultisigSeeds(dwallet), found.value.1) {
      return Refused(AccountNotCreated), accounts;
    }
    var multisig := FillMultisig(dwallet, t.value.threshold, t.value.members, found.value.1);
    NewMultisigView(accounts, vouchers, program, account.key, multisig);
    TermsAreWritten(multisig, accounts, ika, data, t.value, found.value.1);
    working := accounts[account.key := Account(program, multisig)];
  }

  lemma ApprovalStep(p: Program, s: State, vote: Vote, next: Option<State>)
    requires DoApprove(p, s, vote) == next
    ensures Do(p, s, MultisigMachine.Approve(vote)) == next
  {
  }

  lemma RejectionStep(p: Program, s: State, vote: Vote, next: Option<State>)
    requires DoReject(p, s, vote) == next
    ensures Do(p, s, MultisigMachine.Reject(vote)) == next
  {
  }

  // ── The program ──────────────────────────────────────────────────────────

  /** A run extended by a step the machine takes. */
  lemma RunOneMore(p: Program, history: seq<Step>, step: Step, s: State, next: State)
    requires Run(p, EMPTY, history) == s && Do(p, s, step) == Some(next)
    ensures Run(p, EMPTY, history + [step]) == next
  {
    assert (history + [step])[..|history|] == history;
  }

  class Ledger {
    const program: Key
    const ika: Key
    const derive: Derive
    var accounts: AccountMap
    /** What the dWallet program issued for this program's CPI authority. */
    var vouchers: map<Key, Voucher>
    /** The steps that succeeded, oldest first. */
    ghost var history: seq<Step>

    /** The accounts have their shape, and decode to what the machine reaches by the history. */
    ghost predicate Valid() reads this {
      && program != ika
      && Shaped(accounts, program)
      && View(accounts, vouchers, program) == Run(ProgramOf(derive), EMPTY, history)
    }

    ghost function Decoded(): State
      reads this
    {
      View(accounts, vouchers, program)
    }

    constructor (program: Key, ika: Key, derive: Derive)
      requires program != ika
      ensures Valid() && accounts == map[] && vouchers == map[] && history == []
    {
      this.program, this.ika, this.derive := program, ika, derive;
      accounts, vouchers, history := map[], map[], [];
    }

    /** Other programs run: the runtime lets them change only what is theirs. */
    method Elsewhere(next: AccountMap)
      requires Valid() && RuntimeAllows(program, accounts, next) && vouchers.Keys <= next.Keys
      modifies this
      ensures Valid() && accounts == next && vouchers == old(vouchers)
      ensures Decoded() == old(Decoded()).(taken := next.Keys)
      ensures history == old(history) + [MultisigMachine.Elsewhere(next.Keys)]
    {
      ElsewhereView(accounts, next, vouchers, program);
      RunOneMore(ProgramOf(derive), history, MultisigMachine.Elsewhere(next.Keys), Decoded(), View(next, vouchers, program));
      accounts := next;
      history := history + [MultisigMachine.Elsewhere(next.Keys)];
    }

    /** The instruction succeeded: its accounts become the chain's, all at once. */
    method Commit(ghost step: Step, ghost next: State, working: AccountMap, issued: map<Key, Voucher>)
      requires Valid() && Shaped(working, program) && next == View(working, issued, program)
      requires Do(ProgramOf(derive), Decoded(), step) == Some(next)
      modifies this
      ensures Valid() && accounts == working && vouchers == issued && history == old(history) + [step]
    {
      RunOneMore(ProgramOf(derive), history, step, Decoded(), next);
      ghost var steps := history + [step];
      accounts, vouchers, history := working, issued, steps;
      assert Decoded() == next;
    }

    method CreateMultisig(data: seq<u8>, account: NewAccount, dwallet: Key, dwalletProgram: Key, owner: Key, ownerSigns: bool)
      returns (outcome: Outcome)
      requires Valid()
      modifies this
      ensures Valid()
      ensures
        var t := TermsOf(old(accounts), ika, data, account, dwallet, owner, ownerSigns);
        && (outcome.Done? <==>
              t.Some? && dwalletProgram == ika && DoCreateMultisig(ProgramOf(derive), old(Decoded()), t.value).Some?)
        && (outcome.Done? ==>
              && DoCreateMultisig(ProgramOf(derive), old(Decoded()), t.value) == Some(Decoded())
              && TermsWritten(program, derive, old(accounts), accounts, data, account.key, dwallet)
              && history == old(history) + [MultisigMachine.CreateMultisig(t.value)])
      ensures outcome.Refused? ==> accounts == old(accounts) && vouchers == old(vouchers) && history == old(history)
    {
      var working;
      outcome, working := CreateMultisigOn(
        program, ika, derive, accounts, vouchers, data, account, dwallet, dwalletProgram, owner, ownerSigns);
      if outcome.Done? {
        ghost var step := MultisigMachine.CreateMultisig(TermsOf(accounts, ika, data, account, dwallet, owner, ownerSigns).value);
        Commit(step, View(working, vouchers, program), working, vouchers);
      }
    }

    method CreateTransaction(data: seq<u8>, multisig: Key, account: NewAccount, proposer: Key, proposerSigns: bool)
      returns (outcome: Outcome)
      requires Valid()
      modifies this
      ensures Valid()
      ensures
        var q := ProposalOf(data, multisig, account, proposer, proposerSigns);
        && (outcome.Done? <==> q.Some? && DoCreateTransaction(ProgramOf(derive), old(Decoded()), q.value).Some?)
        && (outcome.Done? ==>
              && DoCreateTransaction(ProgramOf(derive), old(Decoded()), q.value) == Some(Decoded())
              && ProposalWritten(program, old(accounts), accounts, data, multisig, account.key, proposer)
              && history == old(history) + [MultisigMachine.CreateTransaction(q.value)])
      ensures outcome.Refused? ==> accounts == old(accounts) && vouchers == old(vouchers) && history == old(history)
    {
      var working;
      outcome, working := CreateTransactionOn(
        program, derive, accounts, vouchers, data, multisig, account, proposer, proposerSigns);
      if outcome.Done? {
        ghost var step := MultisigMachine.CreateTransaction(ProposalOf(data, multisig, account, proposer, proposerSigns).value);
        Commit(step, View(working, vouchers, program), working, vouchers);
      }
    }

    method Approve(data: seq<u8>, multisig: Key, transaction: Key, record: NewAccount, member: Key, memberSigns: bool,
                   call: Option<VoucherCall>, voucherData: seq<u8>)
      returns (outcome: Outcome)
      requires Valid()
      modifies this
      ensures Valid()
      ensures
        var next :=
          if |data| < 6 then None
          else DoApprove(ProgramOf(derive), old(Decoded()),
                   VoteOf(data, multisig, transaction, record, member, memberSigns, call));
        && (outcome.Done? <==> next.Some?)
        && (outcome.Done? ==>
              && next.value == Decoded()
              && history == old(history) + [MultisigMachine.Approve(
                   VoteOf(data, multisig, transaction, record, member, memberSigns, call))])
      ensures outcome.Done? ==>
                && record.key in accounts && RecordWritten(accounts[record.key].data, data, member, transaction, 1)
                && transaction in accounts && transaction in old(accounts)
                && ApprovalCounted(old(accounts)[transaction].data, accounts[transaction].data)
                && OnlyChanges(old(accounts), accounts, {record.key, transaction} + CallAccounts(call))
      ensures outcome.Refused? ==> accounts == old(accounts) && vouchers == old(vouchers) && history == old(history)
    {
      if |data| < 6 {
        return Refused(InvalidInstructionData);
      }
      var vote := VoteOf(data, multisig, transaction, record, member, memberSigns, call);
      var working, issued;
      outcome, working, issued := ApproveOn(program, ika, derive, accounts, vouchers, vote, voucherData);
      if outcome.Done? {
        ApprovalStep(ProgramOf(derive), View(accounts, vouchers, program), vote, Some(View(working, issued, program)));
        RecordIsWritten(working[record.key].data, data, member, transaction, 1);
        Commit(MultisigMachine.Approve(vote), View(working, issued, program), working, issued);
      }
    }

    method Reject(data: seq<u8>, multisig: Key, transaction: Key, record: NewAccount, member: Key, memberSigns: bool)
      returns (outcome: Outcome)
      requires Valid()
      modifies this
      ensures Valid()
      ensures
        var next :=
          if |data| < 5 then None
          else DoReject(ProgramOf(derive), old(Decoded()),
                   VoteOf(data, multisig, transaction, record, member, memberSigns, None));
        && (outcome.Done? <==> next.Some?)
        && (outcome.Done? ==>
              && next.value == Decoded()
              && history == old(history) + [MultisigMachine.Reject(
                   VoteOf(data, multisig, transaction, record, member, memberSigns, None))])
      ensures outcome.Done? ==>
                && record.key in accounts && RecordWritten(accounts[record.key].data, data, member, transaction, 0)
                && transaction in accounts && transaction in old(accounts)
                && RejectionCounted(old(accounts)[transaction].data, accounts[transaction].data)
                && OnlyChanges(old(accounts), accounts, {record.key, transaction}) && vouchers == old(vouchers)
      ensures outcome.Refused? ==> accounts == old(accounts) && vouchers == old(vouchers) && history == old(history)
    {
      if |data| < 5 {
        return Refused(InvalidInstructionData);
      }
      var vote := VoteOf(data, multisig, transaction, record, member, memberSigns, None);
      var working;
      outcome, working := RejectOn(program, derive, accounts, vouchers, vote);
      if outcome.Done? {
        RejectionStep(ProgramOf(derive), View(accounts, vouchers, program), vote, Some(View(working, vouchers, program)));
        RecordIsWritten(working[record.key].data, data, member, transaction, 0);
        Commit(MultisigMachine.Reject(vote), View(working, vouchers, program), working, vouchers);
      }
    }
  }
}
