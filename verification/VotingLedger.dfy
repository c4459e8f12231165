/**
 * The voting program on account bytes (examples/voting/native/src/lib.rs):
 * each instruction reads and writes the buffers in place and commits them
 * together, or changes nothing.
 */
module VotingLedger {
  import opened Common
  import opened Bytes
  import opened Accounts
  import opened ProgramAddresses
  import opened Layout
  import opened Governance
  import opened VotingMachine
  import opened VotingLayout
  import opened VotingInstructions

  // ── Decoding the whole chain ─────────────────────────────────────────────

  /** This program's accounts have the lengths it creates them with. */
  ghost predicate Shaped(accounts: AccountMap, program: Key) {
    forall k <- accounts :: ShapedAccount(accounts[k], program)
  }

  predicate ShapedAccount(account: Account, program: Key) {
    && (IsKind(account, program, COUNCIL_DISCRIMINATOR) ==>
          |account.data| == COUNCIL_LEN && NumberAt(account.data, CN_MEMBER_COUNT, 2) <= MAX_MEMBERS)
    && (IsKind(account, program, PROPOSAL_DISCRIMINATOR) ==> |account.data| == PROPOSAL_LEN)
    && (IsKind(account, program, VOTE_RECORD_DISCRIMINATOR) ==> |account.data| == VOTE_RECORD_LEN)
  }

  function IsCouncil(program: Key): Account -> bool {
    (a: Account) => IsKind(a, program, COUNCIL_DISCRIMINATOR) && |a.data| == COUNCIL_LEN
  }

  function IsProposal(program: Key): Account -> bool {
    (a: Account) => IsKind(a, program, PROPOSAL_DISCRIMINATOR) && |a.data| == PROPOSAL_LEN
  }

  function IsRecord(program: Key): Account -> bool {
    (a: Account) => IsKind(a, program, VOTE_RECORD_DISCRIMINATOR) && |a.data| == VOTE_RECORD_LEN
  }

  // Bytes of another length never meet these: the predicates above exclude them.
  function CouncilOfBytes(): Account -> Council {
    (a: Account) => DecodeCouncil(if |a.data| == COUNCIL_LEN then a.data else Zeros(COUNCIL_LEN))
  }

  function ProposalOfBytes(): Account -> Proposal {
    (a: Account) => DecodeProposal(if |a.data| == PROPOSAL_LEN then a.data else Zeros(PROPOSAL_LEN))
  }

  function RecordOfBytes(): Account -> VoteRecord {
    (a: Account) => DecodeRecord(if |a.data| == VOTE_RECORD_LEN then a.data else Zeros(VOTE_RECORD_LEN))
  }

  function View(accounts: AccountMap, cast: map<Key, Key>, vouchers: map<Key, Voucher>, program: Key): State {
    State(Select(accounts, IsCouncil(program), CouncilOfBytes()),
          Select(accounts, IsProposal(program), ProposalOfBytes()),
          Select(accounts, IsRecord(program), RecordOfBytes()),
          cast,
          vouchers,
          accounts.Keys)
  }

  /** The new state as its tables show it. */
  lemma ViewSet(accounts: AccountMap, cast: map<Key, Key>, vouchers: map<Key, Voucher>, program: Key, k: Key, account: Account)
    requires account.owner == program ==> |account.data| > 0
    requires k in accounts && accounts[k].owner == program ==>
               && account.owner == program && |accounts[k].data| > 0 && accounts[k].data[0] == account.data[0]
    requires ShapedAccount(account, program)
    ensures
      var s, next := View(accounts, cast, vouchers, program), View(accounts[k := account], cast, vouchers, program);
      && next.councils == (if IsKind(account, program, COUNCIL_DISCRIMINATOR)
                           then s.councils[k := DecodeCouncil(account.data)] else s.councils)
      && next.proposals == (if IsKind(account, program, PROPOSAL_DISCRIMINATOR)
                            then s.proposals[k := DecodeProposal(account.data)] else s.proposals)
      && next.records == (if IsKind(account, program, VOTE_RECORD_DISCRIMINATOR)
                          then s.records[k := DecodeRecord(account.data)] else s.records)
      && next.taken == s.taken + {k}
  {
    Selected(accounts, IsCouncil(program), CouncilOfBytes(), k, account);
    Selected(accounts, IsProposal(program), ProposalOfBytes(), k, account);
    Selected(accounts, IsRecord(program), RecordOfBytes(), k, account);
  }

  lemma ShapedSet(accounts: AccountMap, program: Key, k: Key, account: Account)
    requires Shaped(accounts, program) && ShapedAccount(account, program)
    ensures Shaped(accounts[k := account], program)
  {
  }

  /** What other programs do leaves every decoded account as it was. */
  lemma ElsewhereView(before: AccountMap, after: AccountMap, cast: map<Key, Key>, vouchers: map<Key, Voucher>, program: Key)
    requires Shaped(before, program) && RuntimeAllows(program, before, after)
    ensures Shaped(after, program)
    ensures View(after, cast, vouchers, program) == View(before, cast, vouchers, program).(taken := after.Keys)
  {
    SelectSame(before, after, IsCouncil(program), CouncilOfBytes());
    SelectSame(before, after, IsProposal(program), ProposalOfBytes());
    SelectSame(before, after, IsRecord(program), RecordOfBytes());
  }

  // ── One account set at a time ────────────────────────────────────────────

  lemma NewCouncilView(accounts: AccountMap, cast: map<Key, Key>, vouchers: map<Key, Voucher>, program: Key, k: Key, data: seq<u8>)
    requires Shaped(accounts, program) && k !in accounts
    requires |data| == COUNCIL_LEN && data[0] == COUNCIL_DISCRIMINATOR && NumberAt(data, CN_MEMBER_COUNT, 2) <= MAX_MEMBERS
    ensures
      var s, next := View(accounts, cast, vouchers, program), accounts[k := Account(program, data)];
      && Shaped(next, program)
      && View(next, cast, vouchers, program) ==
           s.(councils := s.councils[k := DecodeCouncil(data)], taken := s.taken + {k})
  {
    ShapedSet(accounts, program, k, Account(program, data));
    ViewSet(accounts, cast, vouchers, program, k, Account(program, data));
  }

  lemma NewProposalView(accounts: AccountMap, cast: map<Key, Key>, vouchers: map<Key, Voucher>, program: Key, k: Key, data: seq<u8>)
    requires Shaped(accounts, program) && k !in accounts
    requires |data| == PROPOSAL_LEN && data[0] == PROPOSAL_DISCRIMINATOR
    ensures
      var s, next := View(accounts, cast, vouchers, program), accounts[k := Account(program, data)];
      && Shaped(next, program)
      && View(next, cast, vouchers, program) ==
           s.(proposals := s.proposals[k := DecodeProposal(data)], taken := s.taken + {k})
  {
    ShapedSet(accounts, program, k, Account(program, data));
    ViewSet(accounts, cast, vouchers, program, k, Account(program, data));
  }

  lemma ProposalSetView(accounts: AccountMap, cast: map<Key, Key>, vouchers: map<Key, Voucher>, program: Key, k: Key, data: seq<u8>)
    requires Shaped(accounts, program) && k in accounts && IsProposal(program)(accounts[k])
    requires |data| == PROPOSAL_LEN && data[0] == PROPOSAL_DISCRIMINATOR
    ensures
      var s, next := View(accounts, cast, vouchers, program), accounts[k := Account(program, data)];
      && Shaped(next, program)
      && View(next, cast, vouchers, program) == s.(proposals := s.proposals[k := DecodeProposal(data)])
  {
    ShapedSet(accounts, program, k, Account(program, data));
    ViewSet(accounts, cast, vouchers, program, k, Account(program, data));
  }

  /** A new record, counted on `proposal`. */
  lemma NewRecordView(accounts: AccountMap, cast: map<Key, Key>, vouchers: map<Key, Voucher>, program: Key, k: Key,
                      data: seq<u8>, proposal: Key)
    requires Shaped(accounts, program) && k !in accounts
    requires |data| == VOTE_RECORD_LEN && data[0] == VOTE_RECORD_DISCRIMINATOR
    ensures
      var s, next := View(accounts, cast, vouchers, program), accounts[k := Account(program, data)];
      && Shaped(next, program)
      && View(next, cast[k := proposal], vouchers, program) ==
           s.(records := s.records[k := DecodeRecord(data)], cast := s.cast[k := proposal], taken := s.taken + {k})
  {
    ShapedSet(accounts, program, k, Account(program, data));
    ViewSet(accounts, cast, vouchers, program, k, Account(program, data));
  }

  lemma NewVoucherView(accounts: AccountMap, cast: map<Key, Key>, vouchers: map<Key, Voucher>, program: Key, k: Key,
                       account: Account, voucher: Voucher)
    requires Shaped(accounts, program) && k !in accounts && account.owner != program
    ensures
      var s, next := View(accounts, cast, vouchers, program), accounts[k := account];
      && Shaped(next, program)
      && View(next, cast, vouchers[k := voucher], program) ==
           s.(vouchers := s.vouchers[k := voucher], taken := s.taken + {k})
  {
    ShapedSet(accounts, program, k, account);
    ViewSet(accounts, cast, vouchers, program, k, account);
  }

  /** A decoded account is one of the program's, of its length. */
  lemma InView(accounts: AccountMap, cast: map<Key, Key>, vouchers: map<Key, Voucher>, program: Key, k: Key)
    requires Shaped(accounts, program)
    ensures
      var s := View(accounts, cast, vouchers, program);
      && (k in s.councils <==> k in accounts && IsKind(accounts[k], program, COUNCIL_DISCRIMINATOR))
      && (k in s.proposals <==> k in accounts && IsKind(accounts[k], program, PROPOSAL_DISCRIMINATOR))
      && (k in s.councils ==>
            && |accounts[k].data| == COUNCIL_LEN && s.councils[k] == DecodeCouncil(accounts[k].data)
            && NumberAt(accounts[k].data, CN_MEMBER_COUNT, 2) <= MAX_MEMBERS)
      && (k in s.proposals ==>
            |accounts[k].data| == PROPOSAL_LEN && s.proposals[k] == DecodeProposal(accounts[k].data))
  {
    if k in accounts { assert ShapedAccount(accounts[k], program); }
  }

  // ── What the instructions check and write ────────────────────────────────

  /** `verify_council_member`: the council's quorum, when the council is the dWallet's and lists `member`. */
  method VerifyCouncilMember(program: Key, derive: Derive, accounts: AccountMap,
                             ghost cast: map<Key, Key>, ghost vouchers: map<Key, Voucher>,
                             council: Key, dwallet: Key, member: Key)
    returns (outcome: Outcome, quorum: nat)
    requires Shaped(accounts, program)
    ensures
      var s := View(accounts, cast, vouchers, program);
      && (outcome.Done? <==> VerifiedMember(ProgramOf(derive), s, council, dwallet, member))
      && (outcome.Done? ==> quorum == s.councils[council].quorum < 0x1_0000_0000)
  {
    quorum := 0;
    InView(accounts, cast, vouchers, program, council);
    if !OwnedBy(accounts, council, program) {
      return Refused(InvalidParent), 0;
    }
    var data := accounts[council].data;
    if |data| < COUNCIL_LEN || data[0] != COUNCIL_DISCRIMINATOR || KeyAt(data, CN_DWALLET) != dwallet {
      return Refused(InvalidParent), 0;
    }
    if derive(CouncilSeeds(dwallet) + [data[CN_BUMP]]) != Some(council) {
      return Refused(InvalidParent), 0;
    }
    var count := NumberAt(data, CN_MEMBER_COUNT, 2);
    ListedIsMember(data, CN_MEMBERS, count, member);
    var listed := IsListed(data, CN_MEMBERS, count, member);
    NumberBelow(data, CN_QUORUM, 4);
    return if listed then Done else Refused(NotAMember), NumberAt(data, CN_QUORUM, 4);
  }

  /** The parts of a vote that do not depend on the proposal's own bytes. */
  ghost predicate Castable(p: Program, proposal: Proposal, b: Ballot, taken: set<Key>) {
    && proposal.status == STATUS_OPEN && proposal.id == b.id
    && IsCanonicalBump(p, VoteSeeds(b.id, b.voter), b.recordBump)
    && MayCreate(p.derive, taken, b.record, VoteSeeds(b.id, b.voter), b.recordBump)
  }

  /** What a vote does to its proposal once its record is written, and whether it asks for the voucher. */
  ghost function Tallied(p: Program, proposal: Proposal, b: Ballot, taken: set<Key>): Option<(Proposal, bool)> {
    var counted := Counted(proposal, b.vote);
    if counted.yes >= 0x1_0000_0000 || counted.no >= 0x1_0000_0000 then None
    else if counted.yes < counted.quorum then Some((counted, false))
    else if !CallFits(p, proposal, b, taken) then None
    else Some((counted.(status := STATUS_APPROVED), true))
  }

  lemma CastVoteIs(p: Program, s: State, b: Ballot)
    ensures DoCastVote(p, s, b) ==
            if && b.voterSigns && b.proposal in s.proposals
               && VerifiedMember(p, s, b.council, s.proposals[b.proposal].dwallet, b.voter)
               && Castable(p, s.proposals[b.proposal], b, s.taken)
            then
              var recorded := s.(
                records := s.records[b.record.key := VoteRecord(1, b.voter, b.id, b.vote, b.recordBump)],
                cast := s.cast[b.record.key := b.proposal],
                taken := s.taken + {b.record.key});
              var proposal := s.proposals[b.proposal];
              match Tallied(p, proposal, b, recorded.taken)
              case None => None
              case Some((after, issue)) =>
                var counted := recorded.(proposals := recorded.proposals[b.proposal := after]);
                if issue then
                  Some(counted.(vouchers := recorded.vouchers[b.call.value.voucher := VoucherOf(proposal)],
                                taken := recorded.taken + {b.call.value.voucher}))
                else Some(counted)
            else None
  {
  }

  /** The checks of `cast_vote` on the proposal's bytes, before membership. */
  method CheckProposal(data: seq<u8>, id: Key) returns (outcome: Outcome)
    ensures outcome.Done? <==>
              && |data| >= PROPOSAL_LEN && data[0] == PROPOSAL_DISCRIMINATOR
              && data[PROP_STATUS] == STATUS_OPEN && KeyAt(data, PROP_PROPOSAL_ID) == id
  {
    if |data| < PROPOSAL_LEN || data[0] != PROPOSAL_DISCRIMINATOR {
      return Refused(InvalidAccountData);
    }
    if data[PROP_STATUS] != STATUS_OPEN {
      return Refused(NotActive);
    }
    return if KeyAt(data, PROP_PROPOSAL_ID) == id then Done else Refused(WrongParent);
  }

  /** The one count the vote goes to, read, raised by one and written back. */
  method CountVote(data: seq<u8>, vote: u8) returns (counted: Option<seq<u8>>)
    requires |data| >= PROPOSAL_LEN
    ensures counted.Some? ==>
              |counted.value| == |data| && counted.value[0] == data[0] && VoteCounted(data, counted.value, vote)
    ensures |data| == PROPOSAL_LEN ==>
              var after := Counted(DecodeProposal(data), vote);
              if counted.None? then after.yes >= 0x1_0000_0000 || after.no >= 0x1_0000_0000
              else DecodeProposal(counted.value) == after && after.yes < 0x1_0000_0000 && after.no < 0x1_0000_0000
  {
    var at := if vote == 1 then PROP_YES_VOTES else PROP_NO_VOTES;
    var count := NumberAt(data, at, 4) + 1;
    if count >= 0x1_0000_0000 {
      return None;
    }
    NumberBelow(data, PROP_YES_VOTES, 4);
    NumberBelow(data, PROP_NO_VOTES, 4);
    var buffer := Load(data);
    Write(buffer, at, LittleEndian(count, 4));
    CountsWritten(data, at, count, vote);
    if |data| == PROPOSAL_LEN {
      YesWritten(data, count);
      NoWritten(data, count);
    }
    return Some(buffer[..]);
  }

  method SetStatus(data: seq<u8>, status: u8) returns (after: seq<u8>)
    requires |data| >= PROPOSAL_LEN
    ensures |after| == |data| && after[0] == data[0] && after == Overwrite(data, PROP_STATUS, [status])
    ensures |data| == PROPOSAL_LEN ==> DecodeProposal(after) == DecodeProposal(data).(status := status)
  {
    var buffer := Load(data);
    buffer[PROP_STATUS] := status;
    if |data| == PROPOSAL_LEN {
      StatusWritten(data, status);
    }
    after := buffer[..];
    assert after == Overwrite(data, PROP_STATUS, [status]);
  }

  /** The part of `cast_vote` after the record: the count, and at the quorum the voucher and the status. */
  method DecideVote(derive: Derive, proposal: seq<u8>, b: Ballot, taken: set<Key>)
    returns (outcome: Outcome, data: seq<u8>, voucher: Option<Voucher>)
    requires |proposal| >= PROPOSAL_LEN
    ensures |proposal| == PROPOSAL_LEN ==>
              var p, before := ProgramOf(derive), DecodeProposal(proposal);
              if outcome.Refused? then Tallied(p, before, b, taken).None?
              else
                && |data| == PROPOSAL_LEN && data[0] == proposal[0]
                && Tallied(p, before, b, taken) == Some((DecodeProposal(data), voucher.Some?))
                && (voucher.Some? ==> voucher == Some(VoucherOf(before)))
    ensures outcome.Done? ==> VoteCounted(proposal, data, b.vote)
    ensures outcome.Done? && voucher.Some? ==> b.call.Some? && b.call.value.voucher !in taken
  {
    voucher, data := None, proposal;
    var counted := CountVote(data, b.vote);
    if counted.None? {
      return Refused(ArithmeticOverflow), data, None;
    }
    data := counted.value;
    if NumberAt(data, PROP_YES_VOTES, 4) < NumberAt(data, PROP_QUORUM, 4) {
      return Done, data, None;
    }
    if b.call.None? {
      return Refused(NotEnoughAccountKeys), data, None;
    }
    var call := b.call.value;
    if call.dwallet != KeyAt(data, PROP_DWALLET) {
      return Refused(DWalletMismatch), data, None;
    }
    if derive(VoucherSeeds(b.id) + [data[PROP_SIGNATURE_VOUCHER_BUMP]]) != Some(call.voucher) {
      return Refused(VoucherMismatch), data, None;
    }
    if call.voucher in taken || !call.accepted {
      return Refused(CallFailed), data, None;
    }
    voucher := Some(Voucher(
      call.dwallet, KeyAt(data, PROP_MESSAGE_DIGEST), Key(Zeros(32)), NumberAt(data, PROP_SIGNATURE_SCHEME, 2),
      None, Some(KeyAt(data, PROP_USER_PUBKEY)), false));
    StatusIsWritten(proposal, data, b.vote);
    data := SetStatus(data, STATUS_APPROVED);
    return Done, data, voucher;
  }

  /** The new record's checks, and its bytes. */
  method MakeRecord(derive: Derive, b: Ballot, taken: set<Key>) returns (record: Option<seq<u8>>)
    ensures record.Some? <==>
              && IsCanonicalBump(ProgramOf(derive), VoteSeeds(b.id, b.voter), b.recordBump)
              && MayCreate(derive, taken, b.record, VoteSeeds(b.id, b.voter), b.recordBump)
    ensures record.Some? ==>
              && |record.value| == VOTE_RECORD_LEN && record.value[0] == VOTE_RECORD_DISCRIMINATOR
              && DecodeRecord(record.value) == VoteRecord(1, b.voter, b.id, b.vote, b.recordBump)
  {
    var canonical := RequireCanonicalBump(derive, VoteSeeds(b.id, b.voter), b.recordBump);
    if !canonical || !MayCreate(derive, taken, b.record, VoteSeeds(b.id, b.voter), b.recordBump) {
      return None;
    }
    var data := FillRecord(b.voter, b.id, b.vote, b.recordBump);
    return Some(data);
  }

  /** The bytes are the record of one vote. */
  ghost predicate IsRecordOf(data: seq<u8>, b: Ballot) {
    && |data| == VOTE_RECORD_LEN && data[0] == VOTE_RECORD_DISCRIMINATOR
    && DecodeRecord(data) == VoteRecord(1, b.voter, b.id, b.vote, b.recordBump)
  }

  /**
   * What a vote leaves of the accounts: its record, the proposal it is
   * counted on, and nothing else but a voucher.
   */
  ghost predicate VoteWritten(program: Key, before: AccountMap, after: AccountMap, b: Ballot, issued: set<Key>) {
    && b.record.key !in before && b.record.key in after && after[b.record.key].owner == program
    && IsRecordOf(after[b.record.key].data, b)
    && b.proposal in before && b.proposal in after
    && VoteCounted(before[b.proposal].data, after[b.proposal].data, b.vote)
    && OnlyChanges(before, after, {b.record.key, b.proposal} + issued)
  }

  lemma VoteIsWritten(program: Key, before: AccountMap, record: seq<u8>, b: Ballot, data: seq<u8>)
    requires b.record.key !in before && IsRecordOf(record, b)
    requires b.proposal in before && VoteCounted(before[b.proposal].data, data, b.vote)
    ensures VoteWritten(program, before,
              before[b.record.key := Account(program, record)][b.proposal := Account(program, data)], b, {})
  {
  }

  lemma VoucherIsBeside(program: Key, before: AccountMap, after: AccountMap, b: Ballot, v: Key, account: Account)
    requires VoteWritten(program, before, after, b, {}) && v !in after
    ensures VoteWritten(program, before, after[v := account], b, {v})
  {
  }

  lemma OrAVoucher(program: Key, before: AccountMap, after: AccountMap, b: Ballot, v: Key)
    requires VoteWritten(program, before, after, b, {})
    ensures VoteWritten(program, before, after, b, {v})
  {
  }

  /** The voucher account of the call, when there is one. */
  function CallAccounts(call: Option<VoucherCall>): set<Key> {
    if call.Some? then {call.value.voucher} else {}
  }

  /** `cast_vote`: the whole instruction on a working copy of the accounts. */
  method CastVoteOn(program: Key, ika: Key, derive: Derive, accounts: AccountMap,
                    ghost cast: map<Key, Key>, vouchers: map<Key, Voucher>, b: Ballot, voucherData: seq<u8>)
    returns (outcome: Outcome, working: AccountMap, issued: map<Key, Voucher>)
    requires Shaped(accounts, program) && program != ika
    ensures outcome.Done? <==> DoCastVote(ProgramOf(derive), View(accounts, cast, vouchers, program), b).Some?
    ensures outcome.Done? ==>
              && Shaped(working, program)
              && DoCastVote(ProgramOf(derive), View(accounts, cast, vouchers, program), b)
                   == Some(View(working, cast[b.record.key := b.proposal], issued, program))
              && VoteWritten(program, accounts, working, b, CallAccounts(b.call))
  {
    working, issued := accounts, vouchers;
    CastVoteIs(ProgramOf(derive), View(accounts, cast, vouchers, program), b);
    InView(accounts, cast, vouchers, program, b.proposal);
    if !b.voterSigns {
      return Refused(MissingRequiredSignature), accounts, vouchers;
    }
    var before := DataOf(accounts, b.proposal);
    outcome := CheckProposal(before, b.id);
    if outcome.Refused? {
      return;
    }
    var quorum;
    outcome, quorum := VerifyCouncilMember(
      program, derive, accounts, cast, vouchers, b.council, KeyAt(before, PROP_DWALLET), b.voter);
    if outcome.Refused? {
      return;
    }
    var record := MakeRecord(derive, b, accounts.Keys);
    if record.None? {
      return Refused(AccountNotCreated), accounts, vouchers;
    }
    NewRecordView(accounts, cast, vouchers, program, b.record.key, record.value, b.proposal);
    working := accounts[b.record.key := Account(program, record.value)];
    var data, voucher;
    outcome, data, voucher := DecideVote(derive, before, b, working.Keys);
    if accounts[b.proposal].owner != program {
      return Refused(ForeignAccountChanged), accounts, vouchers;
    }
    if outcome.Refused? {
      return;
    }
    ghost var counted := cast[b.record.key := b.proposal];
    ProposalSetView(working, counted, vouchers, program, b.proposal, data);
    VoteIsWritten(program, accounts, record.value, b, data);
    working := working[b.proposal := Account(program, data)];
    if b.call.Some? {
      OrAVoucher(program, accounts, working, b, b.call.value.voucher);
    }
    if voucher.Some? {
      var call := b.call.value;
      NewVoucherView(working, counted, vouchers, program, call.voucher, Account(ika, voucherData), voucher.value);
      VoucherIsBeside(program, accounts, working, b, call.voucher, Account(ika, voucherData));
      working := working[call.voucher := Account(ika, voucherData)];
      issued := issued[call.voucher := voucher.value];
    }
  }

  lemma CreateProposalIs(p: Program, s: State, t: Terms)
    ensures DoCreateProposal(p, s, t) ==
            if && t.creatorSigns && VerifiedMember(p, s, t.council, t.dwallet, t.creator)
               && IsCanonicalBump(p, VoucherSeeds(t.id), t.voucherBump)
               && IsCanonicalBump(p, ProposalSeeds(t.id), t.bump)
               && MayCreate(p.derive, s.taken, t.account, ProposalSeeds(t.id), t.bump)
            then Some(s.(
              proposals := s.proposals[t.account.key := NewProposal(t, s.councils[t.council].quorum)],
              taken := s.taken + {t.account.key}))
            else None
  {
  }

  /** What a proposal leaves of the accounts: the new proposal, of its council's quorum, and nothing else. */
  ghost predicate TermsWritten(program: Key, before: AccountMap, after: AccountMap, data: seq<u8>,
                               council: Key, account: Key, dwallet: Key, creator: Key)
  {
    && council in before && |before[council].data| == 361
    && account !in before && account in after && after[account].owner == program
    && VotingInstructions.ProposalWritten(after[account].data, data, dwallet, creator, before[council].data[34..38])
    && OnlyChanges(before, after, {account})
  }

  lemma TermsWereWritten(program: Key, before: AccountMap, data: seq<u8>, t: Terms, quorum: nat, stored: seq<u8>)
    requires t.council in before && |before[t.council].data| == COUNCIL_LEN && t.account.key !in before
    requires quorum == NumberAt(before[t.council].data, CN_QUORUM, 4)
    requires TermsOf(data, t.account, t.council, t.dwallet, t.creator, t.creatorSigns) == Some(t)
    requires |stored| == PROPOSAL_LEN && stored[0] == PROPOSAL_DISCRIMINATOR
    requires DecodeProposal(stored) == NewProposal(t, quorum)
    ensures TermsWritten(program, before, before[t.account.key := Account(program, stored)], data,
              t.council, t.account.key, t.dwallet, t.creator)
  {
    ProposalIsWritten(stored, data, t, before[t.council].data[34..38]);
  }

  /** `create_proposal`: the whole instruction on a working copy of the accounts. */
  method CreateProposalOn(program: Key, derive: Derive, accounts: AccountMap,
                          ghost cast: map<Key, Key>, ghost vouchers: map<Key, Voucher>,
                          data: seq<u8>, account: NewAccount, council: Key, dwallet: Key, creator: Key, creatorSigns: bool)
    returns (outcome: Outcome, working: AccountMap)
    requires Shaped(accounts, program)
    ensures
      var t := TermsOf(data, account, council, dwallet, creator, creatorSigns);
      var s := View(accounts, cast, vouchers, program);
      && (outcome.Done? <==> t.Some? && DoCreateProposal(ProgramOf(derive), s, t.value).Some?)
      && (outcome.Done? ==>
            && Shaped(working, program)
            && DoCreateProposal(ProgramOf(derive), s, t.value) == Some(View(working, cast, vouchers, program))
            && TermsWritten(program, accounts, working, data, council, account.key, dwallet, creator))
  {
    working := accounts;
    if |data| < 100 {
      return Refused(InvalidInstructionData), accounts;
    }
    var t := TermsOf(data, account, council, dwallet, creator, creatorSigns).value;
    CreateProposalIs(ProgramOf(derive), View(accounts, cast, vouchers, program), t);
    if !creatorSigns {
      return Refused(MissingRequiredSignature), accounts;
    }
    var quorum;
    outcome, quorum := VerifyCouncilMember(program, derive, accounts, cast, vouchers, council, dwallet, creator);
    if outcome.Refused? {
      return;
    }
    var canonical := RequireCanonicalBump(derive, VoucherSeeds(t.id), t.voucherBump);
    if !canonical {
      return Refused(InvalidVoucherBump), accounts;
    }
    canonical := RequireCanonicalBump(derive, ProposalSeeds(t.id), t.bump);
    if !canonical {
      return Refused(InvalidBump), accounts;
    }
    if !MayCreate(derive, accounts.Keys, account, ProposalSeeds(t.id), t.bump) {
      return Refused(AccountNotCreated), accounts;
    }
    NumberBelow(data, 96, 2);
    var proposal := FillProposal(t, quorum);
    NewProposalView(accounts, cast, vouchers, program, account.key, proposal);
    InView(accounts, cast, vouchers, program, council);
    TermsWereWritten(program, accounts, data, t, quorum, proposal);
    working := accounts[account.key := Account(program, proposal)];
  }

  /** The checks of `create_council` on its terms and the dWallet, in their order. */
  method CheckCouncil(data: seq<u8>, stated: Option<Key>, owner: Key, ownerSigns: bool) returns (outcome: Outcome)
    requires |data| >= 6
    ensures
      var quorum, count := NumberAt(data, 0, 4), NumberAt(data, 4, 2);
      outcome.Done? <==>
        && ownerSigns && 0 < count <= MAX_MEMBERS && 0 < quorum <= count
        && |data| >= 6 + 32 * count && Distinct(MemberList(data, 6, count))
        && stated == Some(owner)
  {
    if !ownerSigns {
      return Refused(MissingRequiredSignature);
    }
    var quorum, count := NumberAt(data, 0, 4), NumberAt(data, 4, 2);
    if count == 0 || count > MAX_MEMBERS || |data| < 6 + 32 * count {
      return Refused(InvalidInstructionData);
    }
    if quorum == 0 || quorum > count {
      return Refused(InvalidTerms);
    }
    var duplicate := HasDuplicate(MemberList(data, 6, count));
    if duplicate {
      return Refused(DuplicateMember);
    }
    if stated.None? {
      return Refused(InvalidDWalletAccount);
    }
    return if stated.value == owner then Done else Refused(NotDWalletOwner);
  }

  lemma CreateCouncilIs(p: Program, s: State, t: CouncilTerms)
    ensures
      var found := p.find(CouncilSeeds(t.dwallet));
      DoCreateCouncil(p, s, t) ==
        if && t.ownerSigns && 0 < |t.members| <= MAX_MEMBERS && 0 < t.quorum <= |t.members|
           && Distinct(t.members) && t.dwalletOwner == Some(t.owner)
           && found.Some? && found.value.0 == t.account.key
           && MayCreate(p.derive, s.taken, t.account, CouncilSeeds(t.dwallet), found.value.1)
        then Some(s.(
          councils := s.councils[t.account.key := Council(1, t.dwallet, t.quorum, t.members, found.value.1)],
          taken := s.taken + {t.account.key}))
        else None
  {
  }

  /** What a creation leaves of the accounts: the new council, and nothing else. */
  ghost predicate CouncilTermsWritten(program: Key, derive: Derive, before: AccountMap, after: AccountMap, data: seq<u8>,
                                      account: Key, dwallet: Key)
  {
    && account !in before && account in after && after[account].owner == program
    && (exists bump :: Canonical(derive, CouncilSeeds(dwallet)) == Some((account, bump))
                       && CouncilWritten(after[account].data, data, dwallet, bump))
    && OnlyChanges(before, after, {account})
  }

  lemma CouncilTermsWereWritten(program: Key, derive: Derive, before: AccountMap, ika: Key, data: seq<u8>, t: CouncilTerms, bump: u8, stored: seq<u8>)
    requires t.account.key !in before && |t.members| <= MAX_MEMBERS
    requires Canonical(derive, CouncilSeeds(t.dwallet)) == Some((t.account.key, bump))
    requires CouncilTermsOf(before, ika, data, t.account, t.dwallet, t.owner, t.ownerSigns) == Some(t)
    requires |stored| == COUNCIL_LEN && stored[0] == COUNCIL_DISCRIMINATOR
    requires DecodeCouncil(stored) == Council(1, t.dwallet, t.quorum, t.members, bump)
    requires NumberAt(stored, CN_MEMBER_COUNT, 2) == |t.members|
    ensures CouncilTermsWritten(program, derive, before, before[t.account.key := Account(program, stored)], data,
              t.account.key, t.dwallet)
  {
    CouncilIsWritten(stored, before, ika, data, t, bump);
  }

  /** `create_council`: the whole instruction on a working copy of the accounts. */
  method CreateCouncilOn(program: Key, ika: Key, derive: Derive, accounts: AccountMap,
                         ghost cast: map<Key, Key>, ghost vouchers: map<Key, Voucher>,
                         data: seq<u8>, account: NewAccount, dwallet: Key, dwalletProgram: Key, owner: Key, ownerSigns: bool)
    returns (outcome: Outcome, working: AccountMap)
    requires Shaped(accounts, program)
    ensures
      var t := CouncilTermsOf(accounts, ika, data, account, dwallet, owner, ownerSigns);
      var s := View(accounts, cast, vouchers, program);
      && (outcome.Done? <==>
            t.Some? && dwalletProgram == ika && DoCreateCouncil(ProgramOf(derive), s, t.value).Some?)
      && (outcome.Done? ==>
            && Shaped(working, program)
            && DoCreateCouncil(ProgramOf(derive), s, t.value) == Some(View(working, cast, vouchers, program))
            && CouncilTermsWritten(program, derive, accounts, working, data, account.key, dwallet))
  {
    working := accounts;
    if |data| < 6 {
      return Refused(InvalidInstructionData), accounts;
    }
    var t := CouncilTermsOf(accounts, ika, data, account, dwallet, owner, ownerSigns);
    if t.Some? {
      CreateCouncilIs(ProgramOf(derive), View(accounts, cast, vouchers, program), t.value);
    }
    var stated := if dwalletProgram == ika then DWalletOwner(accounts, dwallet, ika) else None;
    outcome := CheckCouncil(data, stated, owner, ownerSigns);
    if outcome.Refused? {
      return;
    }
    var found := FindProgramAddress(derive, CouncilSeeds(dwallet));
    if found.None? || found.value.0 != account.key {
      return Refused(InvalidParent), accounts;
    }
    if !MayCreate(derive, accounts.Keys, account, CouncilSeeds(dwallet), found.value.1) {
      return Refused(AccountNotCreated), accounts;
    }
    var council := FillCouncil(dwallet, t.value.quorum, t.value.members, found.value.1);
    NewCouncilView(accounts, cast, vouchers, program, account.key, council);
    CouncilTermsWereWritten(program, derive, accounts, ika, data, t.value, found.value.1, council);
    working := accounts[account.key := Account(program, council)];
  }

  // ── The program ──────────────────────────────────────────────────────────

  /** A run extended by a step the machine takes. */
  lemma RunOneMore(p: Program, history: seq<Step>, step: Step, s: State, next: State)
    requires Run(p, EMPTY, history) == s && Do(p, s, step) == Some(next)
    ensures Run(p, EMPTY, history + [step]) == next
  {
    assert (history + [step])[..|history|] == history;
  }

  lemma VoteStep(p: Program, s: State, b: Ballot, next: Option<State>)
    requires DoCastVote(p, s, b) == next
    ensures Do(p, s, CastVote(b)) == next
  {
  }

  class Ledger {
    const program: Key
    const ika: Key
    const derive: Derive
    var accounts: AccountMap
    /** What the dWallet program issued for this program's CPI authority. */
    var vouchers: map<Key, Voucher>
    /** The proposal account each record was counted on. */
    ghost var cast: map<Key, Key>
    /** The steps that succeeded, oldest first. */
    ghost var history: seq<Step>

    /** The accounts have their shape, and decode to what the machine reaches by the history. */
    ghost predicate Valid() reads this {
      && program != ika
      && Shaped(accounts, program)
      && View(accounts, cast, vouchers, program) == Run(ProgramOf(derive), EMPTY, history)
    }

    ghost function Decoded(): State
      reads this
    {
      View(accounts, cast, vouchers, program)
    }

    constructor (program: Key, ika: Key, derive: Derive)
      requires program != ika
      ensures Valid() && accounts == map[] && vouchers == map[] && history == []
    {
      this.program, this.ika, this.derive := program, ika, derive;
      accounts, vouchers, cast, history := map[], map[], map[], [];
    }

    /** Other programs run: the runtime lets them change only what is theirs. */
    method Elsewhere(next: AccountMap)
      requires Valid() && RuntimeAllows(program, accounts, next) && vouchers.Keys <= next.Keys
      modifies this
      ensures Valid() && accounts == next && vouchers == old(vouchers)
      ensures Decoded() == old(Decoded()).(taken := next.Keys)
      ensures history == old(history) + [VotingMachine.Elsewhere(next.Keys)]
    {
      ElsewhereView(accounts, next, cast, vouchers, program);
      RunOneMore(ProgramOf(derive), history, VotingMachine.Elsewhere(next.Keys), Decoded(), View(next, cast, vouchers, program));
      accounts := next;
      history := history + [VotingMachine.Elsewhere(next.Keys)];
    }

    /** The instruction succeeded: its accounts become the chain's, all at once. */
    method Commit(ghost step: Step, ghost next: State, working: AccountMap, ghost counted: map<Key, Key>, issued: map<Key, Voucher>)
      requires Valid() && Shaped(working, program) && next == View(working, counted, issued, program)
      requires Do(ProgramOf(derive), Decoded(), step) == Some(next)
      modifies this
      ensures Valid() && accounts == working && cast == counted && vouchers == issued && history == old(history) + [step]
    {
      RunOneMore(ProgramOf(derive), history, step, Decoded(), next);
      ghost var steps := history + [step];
      accounts, cast, vouchers, history := working, counted, issued, steps;
      assert Decoded() == next;
    }

    method CreateCouncil(data: seq<u8>, account: NewAccount, dwallet: Key, dwalletProgram: Key, owner: Key, ownerSigns: bool)
      returns (outcome: Outcome)
      requires Valid()
      modifies this
      ensures Valid()
      ensures
        var t := CouncilTermsOf(old(accounts), ika, data, account, dwallet, owner, ownerSigns);
        && (outcome.Done? <==>
              t.Some? && dwalletProgram == ika && DoCreateCouncil(ProgramOf(derive), old(Decoded()), t.value).Some?)
        && (outcome.Done? ==>
              && DoCreateCouncil(ProgramOf(derive), old(Decoded()), t.value) == Some(Decoded())
              && CouncilTermsWritten(program, derive, old(accounts), accounts, data, account.key, dwallet)
              && history == old(history) + [VotingMachine.CreateCouncil(t.value)])
      ensures outcome.Refused? ==> accounts == old(accounts) && vouchers == old(vouchers) && history == old(history)
    {
      var working;
      outcome, working := CreateCouncilOn(
        program, ika, derive, accounts, cast, vouchers, data, account, dwallet, dwalletProgram, owner, ownerSigns);
      if outcome.Done? {
        ghost var t := CouncilTermsOf(accounts, ika, data, account, dwallet, owner, ownerSigns).value;
        Commit(VotingMachine.CreateCouncil(t), View(working, cast, vouchers, program), working, cast, vouchers);
      }
    }

    method CreateProposal(data: seq<u8>, account: NewAccount, council: Key, dwallet: Key, creator: Key, creatorSigns: bool)
      returns (outcome: Outcome)
      requires Valid()
      modifies this
      ensures Valid()
      ensures
        var t := TermsOf(data, account, council, dwallet, creator, creatorSigns);
        && (outcome.Done? <==> t.Some? && DoCreateProposal(ProgramOf(derive), old(Decoded()), t.value).Some?)
        && (outcome.Done? ==>
              && DoCreateProposal(ProgramOf(derive), old(Decoded()), t.value) == Some(Decoded())
              && TermsWritten(program, old(accounts), accounts, data, council, account.key, dwallet, creator)
              && history == old(history) + [VotingMachine.CreateProposal(t.value)])
      ensures outcome.Refused? ==> accounts == old(accounts) && vouchers == old(vouchers) && history == old(history)
    {
      var working;
      outcome, working := CreateProposalOn(
        program, derive, accounts, cast, vouchers, data, account, council, dwallet, creator, creatorSigns);
      if outcome.Done? {
        ghost var t := TermsOf(data, account, council, dwallet, creator, creatorSigns).value;
        Commit(VotingMachine.CreateProposal(t), View(working, cast, vouchers, program), working, cast, vouchers);
      }
    }

    method CastVote(data: seq<u8>, proposal: Key, record: NewAccount, council: Key, voter: Key, voterSigns: bool,
                    call: Option<VoucherCall>, voucherData: seq<u8>)
      returns (outcome: Outcome)
      requires Valid()
      modifies this
      ensures Valid()
      ensures
        var next :=
          if |data| < 35 then None
          else DoCastVote(ProgramOf(derive), old(Decoded()),
                          BallotOf(data, proposal, record, council, voter, voterSigns, call));
        && (outcome.Done? <==> next.Some?)
        && (outcome.Done? ==>
              && next.value == Decoded()
              && history == old(history) + [VotingMachine.CastVote(
                   BallotOf(data, proposal, record, council, voter, voterSigns, call))])
      ensures outcome.Done? ==>
                && record.key in accounts && RecordWritten(accounts[record.key].data, data, voter)
                && proposal in accounts && proposal in old(accounts)
                && VoteCounted(old(accounts)[proposal].data, accounts[proposal].data, data[32])
                && OnlyChanges(old(accounts), accounts, {record.key, proposal} + CallAccounts(call))
      ensures outcome.Refused? ==> accounts == old(accounts) && vouchers == old(vouchers) && history == old(history)
    {
      if |data| < 35 {
        return Refused(InvalidInstructionData);
      }
      var b := BallotOf(data, proposal, record, council, voter, voterSigns, call);
      var working, issued;
      outcome, working, issued := CastVoteOn(program, ika, derive, accounts, cast, vouchers, b, voucherData);
      if outcome.Done? {
        ghost var counted := cast[record.key := proposal];
        VoteStep(ProgramOf(derive), View(accounts, cast, vouchers, program), b, Some(View(working, counted, issued, program)));
        RecordIsWritten(working[record.key].data, data, voter);
        Commit(VotingMachine.CastVote(b), View(working, counted, issued, program), working, counted, issued);
      }
    }
  }
}
