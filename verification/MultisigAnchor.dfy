/**
 * The multisig program over typed accounts
 * (examples/multisig/anchor/src/lib.rs). The framework checks every account
 * an instruction is given, the address of a new one included, before the
 * handler assigns the accounts' fields. Its runs are runs of the machine in
 * which no new account signs, so distinct voters need no condition here.
 */
module MultisigAnchor {
  import opened Common
  import opened Bytes
  import opened Accounts
  import opened ProgramAddresses
  import opened Governance
  import opened MultisigMachine
  import opened MultisigProofs
  import opened MultisigTheorems
  import Steps = MultisigLedger

  /** A sound multisig is at its own canonical address: the framework's owner and type checks are enough. */
  lemma SoundIsVerified(derive: Derive, s: State, multisig: Key, member: Key)
    requires Governed(ProgramOf(derive), s) && multisig in s.multisigs
    ensures VerifiedMember(ProgramOf(derive), s, multisig, member) <==> member in s.multisigs[multisig].members
  {
    var p := ProgramOf(derive);
    assert Sound(p, multisig, s.multisigs[multisig]);
    ProgramOfIsCoherent(derive);
  }

  predicate NoAccountSigns(steps: seq<Step>) {
    forall step <- steps ::
      match step
      case CreateMultisig(t) => !t.account.signs
      case CreateTransaction(q) => !q.account.signs
      case Approve(v) => !v.record.signs
      case Reject(v) => !v.record.signs
      case Elsewhere(_) => true
  }

  class AnchorProgram {
    const derive: Derive
    var multisigs: map<Key, Multisig>
    var transactions: map<Key, Transaction>
    var records: map<Key, ApprovalRecord>
    var vouchers: map<Key, Voucher>
    var taken: set<Key>
    ghost var history: seq<Step>

    ghost function Accounts(): State
      reads this
    {
      State(multisigs, transactions, records, vouchers, taken)
    }

    ghost predicate Valid() reads this {
      Accounts() == Run(ProgramOf(derive), EMPTY, history) && NoAccountSigns(history)
    }

    constructor (derive: Derive)
      ensures Valid() && history == [] && Accounts() == EMPTY
    {
      this.derive := derive;
      multisigs, transactions, records, vouchers, taken, history := map[], map[], map[], map[], {}, [];
    }

    lemma IsSound()
      requires Valid()
      ensures Inv(ProgramOf(derive), Accounts())
    {
      ReachedIsSound(ProgramOf(derive), history);
    }

    /** The handler returned: every field it assigned is kept. */
    method Exit(ghost step: Step, next: State)
      requires Valid() && Do(ProgramOf(derive), Accounts(), step) == Some(next) && NoAccountSigns([step])
      modifies this
      ensures Valid() && Accounts() == next && history == old(history) + [step]
    {
      Steps.RunOneMore(ProgramOf(derive), history, step, Accounts(), next);
      assert step in [step];
      multisigs, transactions, records := next.multisigs, next.transactions, next.records;
      vouchers, taken, history := next.vouchers, next.taken, history + [step];
    }

    method CreateMultisig(multisig: Key, dwallet: Key, dwalletOwner: Option<Key>, owner: Key, ownerSigns: bool,
                          threshold: nat, members: seq<Key>)
      returns (outcome: Outcome)
      requires Valid()
      modifies this
      ensures Valid()
      ensures
        var t := MultisigTerms(NewAccount(multisig, false), dwallet, dwalletOwner, owner, ownerSigns, threshold, members);
        var next := DoCreateMultisig(ProgramOf(derive), old(Accounts()), t);
        && (outcome.Done? <==> next.Some?)
        && (outcome.Done? ==> Accounts() == next.value && history == old(history) + [MultisigMachine.CreateMultisig(t)])
      ensures outcome.Refused? ==> Accounts() == old(Accounts()) && history == old(history)
    {
      ghost var t := MultisigTerms(NewAccount(multisig, false), dwallet, dwalletOwner, owner, ownerSigns, threshold, members);
      Steps.CreateMultisigIs(ProgramOf(derive), Accounts(), t);
      if !ownerSigns {
        return Refused(MissingRequiredSignature);
      }
      var bump := InitAddress(derive, taken, multisig, MultisigSeeds(dwallet));
      if bump.None? {
        InitRefused(derive, taken, multisig, dwallet);
        return Refused(AccountNotCreated);
      }
      if threshold == 0 || members == [] || |members| > MAX_MEMBERS || threshold > |members| {
        return Refused(InvalidTerms);
      }
      var duplicate := HasDuplicate(members);
      if duplicate {
        return Refused(DuplicateMember);
      }
      if dwalletOwner != Some(owner) {
        return Refused(NotDWalletOwner);
      }
      Exit(MultisigMachine.CreateMultisig(t), State(
        multisigs[multisig := Multisig(1, dwallet, threshold, members, 0, bump.value)],
        transactions, records, vouchers, taken + {multisig}));
      return Done;
    }

    method CreateTransaction(multisig: Key, transaction: Key, proposer: Key, proposerSigns: bool, messageHash: Key,
                             userPubkey: Key, scheme: nat, voucherBump: u8, futureSign: bool, message: seq<u8>)
      returns (outcome: Outcome)
      requires Valid()
      modifies this
      ensures Valid()
      ensures
        var index := if multisig in old(multisigs) then old(multisigs)[multisig].txIndex else 0;
        var q := Proposal(multisig, NewAccount(transaction, false), proposer, proposerSigns, messageHash, userPubkey, scheme,
                          voucherBump, if futureSign then 1 else 0,
                          BumpOf(ProgramOf(derive), TransactionSeeds(multisig, index)), message);
        var next := DoCreateTransaction(ProgramOf(derive), old(Accounts()), q);
        && (outcome.Done? <==> next.Some?)
        && (outcome.Done? ==> Accounts() == next.value && history == old(history) + [MultisigMachine.CreateTransaction(q)])
      ensures outcome.Refused? ==> Accounts() == old(Accounts()) && history == old(history)
    {
      if !proposerSigns {
        return Refused(MissingRequiredSignature);
      }
      if multisig !in multisigs {
        return Refused(InvalidParent);
      }
      IsSound();
      SoundIsVerified(derive, Accounts(), multisig, proposer);
      var m := multisigs[multisig];
      var seeds := TransactionSeeds(multisig, m.txIndex);
      ghost var q := Proposal(multisig, NewAccount(transaction, false), proposer, proposerSigns, messageHash, userPubkey, scheme,
                              voucherBump, if futureSign then 1 else 0, BumpOf(ProgramOf(derive), seeds), message);
      Steps.CreateTransactionIs(ProgramOf(derive), Accounts(), q);
      var bump;
      outcome, bump := CheckTransaction(taken, transaction, m, proposer, seeds, voucherBump, message);
      if outcome.Refused? {
        return;
      }
      var tx := Transaction(1, multisig, m.txIndex, proposer, messageHash, userPubkey, scheme, 0, 0, STATUS_ACTIVE,
                            voucherBump, if futureSign then 1 else 0, bump, |message|, message + Zeros(256 - |message|));
      Exit(MultisigMachine.CreateTransaction(q), State(
        multisigs[multisig := m.(txIndex := m.txIndex + 1)],
        transactions[transaction := tx], records, vouchers, taken + {transaction}));
    }

    method CheckTransaction(taken: set<Key>, transaction: Key, m: Multisig, proposer: Key, seeds: seq<u8>, voucherBump: u8,
                            message: seq<u8>)
      returns (outcome: Outcome, bump: u8)
      ensures bump == BumpOf(ProgramOf(derive), seeds) || outcome.Refused?
      ensures outcome.Done? <==>
                && proposer in m.members && |message| <= 256 && m.txIndex + 1 < 0x1_0000_0000
                && IsCanonicalBump(ProgramOf(derive), VoucherSeeds(transaction), voucherBump)
                && IsCanonicalBump(ProgramOf(derive), seeds, BumpOf(ProgramOf(derive), seeds))
                && MayCreate(derive, taken, NewAccount(transaction, false), seeds, BumpOf(ProgramOf(derive), seeds))
    {
      var created := InitAddress(derive, taken, transaction, seeds);
      if created.None? {
        return Refused(AccountNotCreated), 0;
      }
      bump := created.value;
      if |message| > 256 {
        return Refused(InvalidInstructionData), bump;
      }
      if proposer !in m.members {
        return Refused(NotAMember), bump;
      }
      var canonical := RequireCanonicalBump(derive, VoucherSeeds(transaction), voucherBump);
      if !canonical {
        return Refused(InvalidVoucherBump), bump;
      }
      return if m.txIndex + 1 < 0x1_0000_0000 then Done else Refused(ArithmeticOverflow), bump;
    }

    /** The accounts of a vote: a signing member of the transaction's multisig, and its own empty record. */
    method RecordVote(multisig: Key, transaction: Key, record: Key, member: Key, memberSigns: bool,
                      ghost call: Option<VoucherCall>, approved: u8)
      returns (outcome: Outcome, recorded: State)
      requires Valid()
      ensures
        var v := VoteOf(ProgramOf(derive), multisig, transaction, record, member, memberSigns, call);
        var next := MultisigMachine.RecordVote(ProgramOf(derive), Accounts(), v, approved);
        && (outcome.Done? <==> next.Some?)
        && (outcome.Done? ==> recorded == next.value && multisig in multisigs && transaction in transactions)
    {
      recorded := State(multisigs, transactions, records, vouchers, taken);
      Steps.RecordVoteIs(ProgramOf(derive), Accounts(),
                         VoteOf(ProgramOf(derive), multisig, transaction, record, member, memberSigns, call), approved);
      if !memberSigns {
        return Refused(MissingRequiredSignature), recorded;
      }
      if multisig !in multisigs || transaction !in transactions {
        return Refused(InvalidAccountData), recorded;
      }
      if transactions[transaction].multisig != multisig {
        return Refused(WrongParent), recorded;
      }
      IsSound();
      SoundIsVerified(derive, Accounts(), multisig, member);
      var bump := InitAddress(derive, taken, record, ApprovalSeeds(transaction, member));
      if bump.None? {
        return Refused(AccountNotCreated), recorded;
      }
      if member !in multisigs[multisig].members {
        return Refused(NotAMember), recorded;
      }
      if transactions[transaction].status != STATUS_ACTIVE {
        return Refused(NotActive), recorded;
      }
      recorded := recorded.(
        records := records[record := ApprovalRecord(1, member, transaction, approved, bump.value)],
        taken := taken + {record});
      return Done, recorded;
    }

    /** Every approval is given the voucher's accounts, and their addresses are checked below the threshold too. */
    method Approve(multisig: Key, transaction: Key, record: Key, member: Key, memberSigns: bool, call: VoucherCall)
      returns (outcome: Outcome)
      requires Valid()
      modifies this
      ensures Valid()
      ensures
        var v := VoteOf(ProgramOf(derive), multisig, transaction, record, member, memberSigns, Some(call));
        var next := DoApprove(ProgramOf(derive), old(Accounts()), v);
        && (outcome.Done? <==> next.Some? && CallAddressed(ProgramOf(derive), old(Accounts()), v))
        && (outcome.Done? ==> Accounts() == next.value && history == old(history) + [MultisigMachine.Approve(v)])
      ensures outcome.Refused? ==> Accounts() == old(Accounts()) && history == old(history)
    {
      ghost var v := VoteOf(ProgramOf(derive), multisig, transaction, record, member, memberSigns, Some(call));
      Steps.ApproveIs(ProgramOf(derive), Accounts(), v);
      var next;
      outcome, next := RecordVote(multisig, transaction, record, member, memberSigns, Some(call), 1);
      if outcome.Refused? {
        return;
      }
      var m, tx := multisigs[multisig], transactions[transaction];
      if derive(VoucherSeeds(transaction) + [tx.voucherBump]) != Some(call.voucher) {
        return Refused(VoucherMismatch);
      }
      if call.dwallet != m.dwallet {
        return Refused(DWalletMismatch);
      }
      var counted := tx.(approvals := tx.approvals + 1);
      if counted.approvals >= 0x1_0000 {
        return Refused(ArithmeticOverflow);
      }
      if counted.approvals >= m.threshold {
        if !call.accepted || call.voucher in next.taken {
          return Refused(CallFailed);
        }
        next := next.(vouchers := vouchers[call.voucher := VoucherOf(tx, m.dwallet)], taken := next.taken + {call.voucher});
        counted := counted.(status := STATUS_APPROVED);
      }
      Exit(MultisigMachine.Approve(v), next.(transactions := transactions[transaction := counted]));
    }

    method Reject(multisig: Key, transaction: Key, record: Key, member: Key, memberSigns: bool) returns (outcome: Outcome)
      requires Valid()
      modifies this
      ensures Valid()
      ensures
        var v := VoteOf(ProgramOf(derive), multisig, transaction, record, member, memberSigns, None);
        var next := DoReject(ProgramOf(derive), old(Accounts()), v);
        && (outcome.Done? <==> next.Some?)
        && (outcome.Done? ==> Accounts() == next.value && history == old(history) + [MultisigMachine.Reject(v)])
      ensures outcome.Refused? ==> Accounts() == old(Accounts()) && history == old(history)
    {
      ghost var v := VoteOf(ProgramOf(derive), multisig, transaction, record, member, memberSigns, None);
      Steps.RejectIs(ProgramOf(derive), Accounts(), v);
      var next;
      outcome, next := RecordVote(multisig, transaction, record, member, memberSigns, None, 0);
      if outcome.Refused? {
        return;
      }
      var m, tx := multisigs[multisig], transactions[transaction];
      var counted := tx.(rejections := tx.rejections + 1);
      if counted.rejections >= 0x1_0000 || m.threshold > |m.members| {
        return Refused(ArithmeticOverflow);
      }
      if counted.rejections >= |m.members| - m.threshold + 1 {
        counted := counted.(status := STATUS_REJECTED);
      }
      Steps.RejectionStep(ProgramOf(derive), Accounts(), v, Some(next.(transactions := transactions[transaction := counted])));
      Exit(MultisigMachine.Reject(v), next.(transactions := transactions[transaction := counted]));
    }
  }

  function VoteOf(p: Program, multisig: Key, transaction: Key, record: Key, member: Key, memberSigns: bool,
                  call: Option<VoucherCall>): Vote
  {
    Vote(multisig, transaction, NewAccount(record, false), member, memberSigns,
         BumpOf(p, ApprovalSeeds(transaction, member)), call)
  }

  /** The voucher and the dWallet of an approval are the transaction's own. */
  ghost predicate CallAddressed(p: Program, s: State, v: Vote) {
    && v.call.Some? && v.transaction in s.transactions && v.multisig in s.multisigs
    && p.derive(VoucherSeeds(v.transaction) + [s.transactions[v.transaction].voucherBump]) == Some(v.call.value.voucher)
    && v.call.value.dwallet == s.multisigs[v.multisig].dwallet
  }

  lemma InitRefused(derive: Derive, taken: set<Key>, key: Key, dwallet: Key)
    requires
      var p, seeds := ProgramOf(derive), MultisigSeeds(dwallet);
      !(IsCanonicalBump(p, seeds, BumpOf(p, seeds)) && MayCreate(derive, taken, NewAccount(key, false), seeds, BumpOf(p, seeds)))
    ensures
      var found := ProgramOf(derive).find(MultisigSeeds(dwallet));
      found.None? || found.value.0 != key || !MayCreate(derive, taken, NewAccount(key, false), MultisigSeeds(dwallet), found.value.1)
  {
  }

  /**
   * In the Anchor program, without any condition: every record of a
   * transaction is by another member, the counts are those of distinct
   * members, and together never more than the multisig has.
   */
  lemma AnchorVotersDiffer(program: AnchorProgram, t: Key)
    requires program.Valid() && t in program.transactions
    ensures
      var s := program.Accounts();
      var tx := s.transactions[t];
      && tx.multisig in s.multisigs
      && OneRecordEach(s, Ballots(s, t))
      && tx.approvals + tx.rejections == |MembersOf(s, Ballots(s, t))| <= |s.multisigs[tx.multisig].members|
  {
    ProgramOfIsCoherent(program.derive);
    DistinctVoters(ProgramOf(program.derive), program.history, t);
  }
}
