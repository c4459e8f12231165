/**
 * What a request leaves on the chain, and how it is found from its session
 * identifier (sdk/core/src/common/request-records.ts).
 *
 * Hashes are free constructors, so they never collide: a session identifier
 * is its epoch, signer and preimage, and the id of a charge is its source and
 * the item it was charged for.
 */
module RequestRecords {
  import opened Common

  type TransportKey = nat
  type Voucher = nat
  type DWallet = nat
  type Holder = nat
  type SignatureBytes = nat

  datatype Session = Session(epoch: nat, signer: TransportKey, preimage: nat)

  datatype Kind =
    | Presign
    | Sign(voucher: Voucher)
    | FutureSignStepOne(voucher: Voucher)
    | FutureSignCompletion(voucher: Voucher)
    | MakeSharePublic(dwallet: DWallet)
    | ReEncryptShare(dwallet: DWallet, newHolder: Holder)
    | Dkg(dwallet: DWallet)
    | ImportedKey(dwallet: DWallet)

  datatype ChargeSource =
    | RefusedRequest
    | RejectedSession
    | CompletedPresign
    | MovedNetworkKeySession
    | GivenUpSignature
    | GivenUpShareCommit

  /** The settled item a charge id is derived from. */
  datatype ItemId =
    | SessionItem(session: Session)
    | SignatureCommit(session: Session)
    | ShareCommit(session: Session)

  /** The last constructor is a charge whose id needs the network's attestation: no client derives it. */
  datatype Charge =
    | Charge(source: ChargeSource, item: ItemId)
    | AttestedCharge(of: Session)

  /** The session a charge was made for. */
  function ChargedSession(charge: Charge): Session {
    match charge
    case Charge(_, item) => item.session
    case AttestedCharge(of) => of
  }

  datatype FutureVoucher = FutureVoucher(
    stepOneSession: Option<Session>, signature: Option<SignatureBytes>, closed: bool)

  /** The chain's records a lookup reads. */
  datatype Chain = Chain(
    charges: set<(TransportKey, Charge)>,
    signatures: map<Voucher, SignatureBytes>,
    futures: map<Voucher, FutureVoucher>,
    publicShares: set<DWallet>,
    shares: set<(DWallet, Holder)>,
    dwallets: set<DWallet>)

  /** Records are never removed: `later` holds everything `earlier` holds. */
  predicate Grows(earlier: Chain, later: Chain) {
    && earlier.charges <= later.charges
    && earlier.signatures.Keys <= later.signatures.Keys
    && (forall v <- earlier.futures ::
          v in later.futures && VoucherGrows(earlier.futures[v], later.futures[v]))
    && earlier.publicShares <= later.publicShares
    && earlier.shares <= later.shares
    && earlier.dwallets <= later.dwallets
  }

  predicate VoucherGrows(earlier: FutureVoucher, later: FutureVoucher) {
    && (earlier.stepOneSession.Some? ==> later.stepOneSession == earlier.stepOneSession)
    && (earlier.signature.Some? ==> later.signature.Some?)
    && (earlier.closed ==> later.closed)
  }

  // ── The lookup ───────────────────────────────────────────────────────────

  datatype PendingRequest = PendingRequest(session: Session, kind: Kind)

  /** The epoch the chain must show before every session of the request's epoch is settled on it. */
  function SettledAtEpoch(pending: PendingRequest): nat {
    pending.session.epoch + if pending.kind.ReEncryptShare? then 2 else 1
  }

  datatype Found =
    | ChargeRecord(source: ChargeSource)
    | StepOneInVoucher(own: bool)
    | SignatureInVoucher
    | PublicShareRecord
    | HolderShareRecord
    | DWalletRecord

  datatype Outcome = NotRun | Ran(record: Found) | Signature(signature: SignatureBytes) | Unknown

  /** The charges every kind looks for. */
  function CommonCharges(session: Session): seq<Charge> {
    [Charge(RefusedRequest, SessionItem(session)),
     Charge(RejectedSession, SessionItem(session)),
     Charge(MovedNetworkKeySession, SessionItem(session))]
  }

  /** The charges a kind looks for besides. */
  function OwnCharges(pending: PendingRequest): seq<Charge> {
    var session := pending.session;
    match pending.kind
    case Presign => [Charge(CompletedPresign, SessionItem(session))]
    case Sign(_) => [Charge(GivenUpSignature, SignatureCommit(session))]
    case FutureSignCompletion(_) => [Charge(GivenUpSignature, SignatureCommit(session))]
    case MakeSharePublic(_) => [Charge(GivenUpShareCommit, ShareCommit(session))]
    case ReEncryptShare(_, _) => [Charge(GivenUpShareCommit, ShareCommit(session))]
    case _ => []
  }

  /** The first of `charges` the deposit of `key` holds. */
  function FirstHeld(chain: Chain, key: TransportKey, charges: seq<Charge>): Option<Charge> {
    if charges == [] then None
    else if (key, charges[0]) in chain.charges then Some(charges[0])
    else FirstHeld(chain, key, charges[1..])
  }

  function RanOr(chain: Chain, pending: PendingRequest, otherwise: Outcome): Outcome {
    match FirstHeld(chain, pending.session.signer, CommonCharges(pending.session) + OwnCharges(pending))
    case Some(Charge(source, _)) => Ran(ChargeRecord(source))
    case _ => otherwise
  }

  /** The outcome the chain's records give for `pending`. */
  function FindSession(pending: PendingRequest, chain: Chain): Outcome {
    var session := pending.session;
    match pending.kind
    case Presign => RanOr(chain, pending, NotRun)
    case Sign(voucher) =>
      if voucher in chain.signatures then Signature(chain.signatures[voucher])
      else RanOr(chain, pending, NotRun)
    case FutureSignStepOne(voucher) =>
      if voucher !in chain.futures then Unknown
      else
        var held := chain.futures[voucher];
        if held.stepOneSession.Some? then Ran(StepOneInVoucher(held.stepOneSession.value == session))
        else if held.signature.Some? then Ran(SignatureInVoucher)
        else if held.closed then RanOr(chain, pending, Unknown)
        else RanOr(chain, pending, NotRun)
    case FutureSignCompletion(voucher) =>
      if voucher in chain.futures && chain.futures[voucher].signature.Some? then
        Signature(chain.futures[voucher].signature.value)
      else RanOr(chain, pending, NotRun)
    case MakeSharePublic(dwallet) =>
      if dwallet in chain.dwallets && dwallet in chain.publicShares then Ran(PublicShareRecord)
      else RanOr(chain, pending, NotRun)
    case ReEncryptShare(dwallet, newHolder) =>
      if dwallet in chain.dwallets && (dwallet, newHolder) in chain.shares then Ran(HolderShareRecord)
      else RanOr(chain, pending, NotRun)
    case Dkg(dwallet) =>
      if dwallet in chain.dwallets then Ran(DWalletRecord) else RanOr(chain, pending, Unknown)
    case ImportedKey(dwallet) =>
      if dwallet in chain.dwallets then Ran(DWalletRecord) else RanOr(chain, pending, Unknown)
  }

  // ── What a session that ran leaves, kind by kind ─────────────────────────

  /** How the network settles one session: a delivery, or a charge. */
  datatype Settlement =
    | Delivered(signature: SignatureBytes)
    | Charged(charge: Charge)
    | GivenUpUnderAttestation

  /**
   * The charges that can name this request's session under an id its client
   * derives: every kind can be refused, rejected or moved, and the rest are
   * of the kinds whose work they end.
   */
  predicate OwnCharge(pending: PendingRequest, charge: Charge) {
    && charge.Charge?
    && (match charge.source
        case RefusedRequest => charge.item == SessionItem(pending.session)
        case RejectedSession => charge.item == SessionItem(pending.session)
        case MovedNetworkKeySession => charge.item == SessionItem(pending.session)
        case CompletedPresign => pending.kind.Presign? && charge.item == SessionItem(pending.session)
        case GivenUpSignature =>
          && (pending.kind.Sign? || pending.kind.FutureSignCompletion?)
          && charge.item == SignatureCommit(pending.session)
        case GivenUpShareCommit =>
          && (pending.kind.MakeSharePublic? || pending.kind.ReEncryptShare?)
          && charge.item == ShareCommit(pending.session))
  }

  /** The settlements each kind of request can end with. */
  predicate CanSettle(pending: PendingRequest, end: Settlement, chain: Chain) {
    match end
    case Charged(charge) => OwnCharge(pending, charge)
    case Delivered(_) =>
      (match pending.kind
       case Presign => false
       case Sign(_) => true
       case FutureSignStepOne(voucher) =>
         voucher in chain.futures && chain.futures[voucher].stepOneSession.None?
       case FutureSignCompletion(voucher) => voucher in chain.futures
       case MakeSharePublic(dwallet) => dwallet in chain.dwallets
       case ReEncryptShare(dwallet, _) => dwallet in chain.dwallets
       case Dkg(_) => true
       case ImportedKey(_) => true)
    case GivenUpUnderAttestation =>
      (match pending.kind
       case FutureSignStepOne(voucher) => voucher in chain.futures
       case Dkg(_) => true
       case ImportedKey(_) => true
       case _ => false)
  }

  /** The chain after the network wrote one settlement. */
  function Settled(pending: PendingRequest, end: Settlement, chain: Chain): Chain
    requires CanSettle(pending, end, chain)
  {
    match end
    case Charged(charge) => chain.(charges := chain.charges + {(pending.session.signer, charge)})
    case Delivered(signature) =>
      (match pending.kind
       case Presign => chain
       case Sign(voucher) =>
         if voucher in chain.signatures then chain
         else chain.(signatures := chain.signatures[voucher := signature])
       case FutureSignStepOne(voucher) =>
         chain.(futures := chain.futures[voucher :=
           chain.futures[voucher].(stepOneSession := Some(pending.session))])
       case FutureSignCompletion(voucher) =>
         chain.(futures := chain.futures[voucher :=
           chain.futures[voucher].(signature := Some(signature))])
       case MakeSharePublic(dwallet) => chain.(publicShares := chain.publicShares + {dwallet})
       case ReEncryptShare(dwallet, newHolder) =>
         chain.(shares := chain.shares + {(dwallet, newHolder)})
       case Dkg(dwallet) => chain.(dwallets := chain.dwallets + {dwallet})
       case ImportedKey(dwallet) => chain.(dwallets := chain.dwallets + {dwallet}))
    case GivenUpUnderAttestation =>
      var charged := chain.(charges :=
        chain.charges + {(pending.session.signer, AttestedCharge(pending.session))});
      (match pending.kind
       case FutureSignStepOne(voucher) =>
         charged.(futures := chain.futures[voucher := chain.futures[voucher].(closed := true)])
       case _ => charged)
  }

  /** The delivery a request of this kind asks for is on the chain, whichever session left it. */
  ghost predicate Delivery(pending: PendingRequest, chain: Chain) {
    match pending.kind
    case Presign => false
    case Sign(voucher) => voucher in chain.signatures
    case FutureSignStepOne(voucher) =>
      && voucher in chain.futures
      && (chain.futures[voucher].stepOneSession.Some? || chain.futures[voucher].signature.Some?)
    case FutureSignCompletion(voucher) =>
      voucher in chain.futures && chain.futures[voucher].signature.Some?
    case MakeSharePublic(dwallet) => dwallet in chain.dwallets && dwallet in chain.publicShares
    case ReEncryptShare(dwallet, newHolder) =>
      dwallet in chain.dwallets && (dwallet, newHolder) in chain.shares
    case Dkg(dwallet) => dwallet in chain.dwallets
    case ImportedKey(dwallet) => dwallet in chain.dwallets
  }

  /** The deposit of the request's signer holds a charge for its session, under an id its client derives. */
  ghost predicate ChargedBy(pending: PendingRequest, charge: Charge, chain: Chain) {
    (pending.session.signer, charge) in chain.charges && OwnCharge(pending, charge)
  }

  /** What a step 1 writes its result to can be read. */
  ghost predicate VoucherIsThere(pending: PendingRequest, chain: Chain) {
    pending.kind.FutureSignStepOne? ==> pending.kind.voucher in chain.futures
  }

  /** Whether the records could tell that the session never ran. */
  ghost predicate CanTell(pending: PendingRequest, chain: Chain) {
    match pending.kind
    case Dkg(_) => false
    case ImportedKey(_) => false
    case FutureSignStepOne(voucher) => voucher in chain.futures && !chain.futures[voucher].closed
    case _ => true
  }

  /** `chain` holds what some settlement of `pending` writes. */
  ghost predicate HoldsATrace(pending: PendingRequest, chain: Chain) {
    || (exists charge :: ChargedBy(pending, charge, chain))
    || (match pending.kind
        case FutureSignStepOne(voucher) =>
          && voucher in chain.futures
          && (chain.futures[voucher].stepOneSession.Some? || chain.futures[voucher].closed)
        case Dkg(dwallet) =>
          dwallet in chain.dwallets || (pending.session.signer, AttestedCharge(pending.session)) in chain.charges
        case ImportedKey(dwallet) =>
          dwallet in chain.dwallets || (pending.session.signer, AttestedCharge(pending.session)) in chain.charges
        case _ => Delivery(pending, chain))
  }

  lemma {:induction false} FirstHeldFinds(chain: Chain, key: TransportKey, charges: seq<Charge>)
    ensures FirstHeld(chain, key, charges).None? <==> forall c <- charges :: (key, c) !in chain.charges
    ensures FirstHeld(chain, key, charges).Some? ==>
              && FirstHeld(chain, key, charges).value in charges
              && (key, FirstHeld(chain, key, charges).value) in chain.charges
  {
    if charges != [] {
      FirstHeldFinds(chain, key, charges[1..]);
      assert charges == [charges[0]] + charges[1..];
    }
  }

  /** A lookup asks for the request's own charges, and for no other. */
  lemma LookedForIsOwn(pending: PendingRequest, charge: Charge)
    ensures charge in CommonCharges(pending.session) + OwnCharges(pending) <==> OwnCharge(pending, charge)
  {
  }

  /** The charge a lookup finds, and when it finds none. */
  lemma HeldIsOwn(pending: PendingRequest, chain: Chain)
    ensures
      var held := FirstHeld(chain, pending.session.signer, CommonCharges(pending.session) + OwnCharges(pending));
      && (held.Some? ==> ChargedBy(pending, held.value, chain))
      && (held.None? ==> forall charge :: !ChargedBy(pending, charge, chain))
  {
    FirstHeldFinds(chain, pending.session.signer, CommonCharges(pending.session) + OwnCharges(pending));
    forall charge
      ensures charge in CommonCharges(pending.session) + OwnCharges(pending) <==> OwnCharge(pending, charge)
    {
      LookedForIsOwn(pending, charge);
    }
  }

  /** Every settlement grows the chain and leaves its trace. */
  lemma SettlingLeavesATrace(pending: PendingRequest, end: Settlement, chain: Chain)
    requires CanSettle(pending, end, chain)
    ensures Grows(chain, Settled(pending, end, chain))
    ensures HoldsATrace(pending, Settled(pending, end, chain))
  {
    assert end.Charged? ==> ChargedBy(pending, end.charge, Settled(pending, end, chain));
  }

  lemma TracesStay(pending: PendingRequest, earlier: Chain, later: Chain)
    requires HoldsATrace(pending, earlier) && Grows(earlier, later)
    ensures HoldsATrace(pending, later)
  {
    if charge :| ChargedBy(pending, charge, earlier) {
      assert ChargedBy(pending, charge, later);
    }
  }

  /**
   * The lookup says "not run" exactly when the kind can tell and the chain
   * holds no trace, for any records whatever. A step 1 whose voucher holds a
   * completed signature is told apart by that signature alone.
   */
  lemma NotRunMeansNoTrace(pending: PendingRequest, chain: Chain)
    ensures FindSession(pending, chain) == NotRun <==>
              && !HoldsATrace(pending, chain)
              && !pending.kind.Dkg? && !pending.kind.ImportedKey?
              && (pending.kind.FutureSignStepOne? ==>
                    && pending.kind.voucher in chain.futures
                    && chain.futures[pending.kind.voucher].signature.None?)
  {
    HeldIsOwn(pending, chain);
  }

  /** The record an answer "ran" names is on the chain, and is what its name says. */
  ghost predicate Holds(pending: PendingRequest, record: Found, chain: Chain) {
    match record
    case ChargeRecord(source) => exists charge :: ChargedBy(pending, charge, chain) && charge.source == source
    case StepOneInVoucher(own) =>
      && pending.kind.FutureSignStepOne? && pending.kind.voucher in chain.futures
      && chain.futures[pending.kind.voucher].stepOneSession.Some?
      && (own <==> chain.futures[pending.kind.voucher].stepOneSession == Some(pending.session))
    case SignatureInVoucher =>
      && pending.kind.FutureSignStepOne? && pending.kind.voucher in chain.futures
      && chain.futures[pending.kind.voucher].stepOneSession.None?
      && chain.futures[pending.kind.voucher].signature.Some?
    case PublicShareRecord =>
      pending.kind.MakeSharePublic? && pending.kind.dwallet in chain.dwallets * chain.publicShares
    case HolderShareRecord =>
      && pending.kind.ReEncryptShare? && pending.kind.dwallet in chain.dwallets
      && (pending.kind.dwallet, pending.kind.newHolder) in chain.shares
    case DWalletRecord =>
      (pending.kind.Dkg? || pending.kind.ImportedKey?) && pending.kind.dwallet in chain.dwallets
  }

  /** The signature in the voucher the request signs into. */
  ghost predicate HoldsSignature(pending: PendingRequest, signature: SignatureBytes, chain: Chain) {
    || (&& pending.kind.Sign? && pending.kind.voucher in chain.signatures
        && chain.signatures[pending.kind.voucher] == signature)
    || (&& pending.kind.FutureSignCompletion? && pending.kind.voucher in chain.futures
        && chain.futures[pending.kind.voucher].signature == Some(signature))
  }

  /**
   * The lookup, answer by answer, on any records whatever: a delivery on the
   * chain is always found, and before any charge; a charge is found exactly
   * when the deposit holds one of the request's own; and every answer names
   * what the chain does hold.
   */
  lemma FoundExactly(pending: PendingRequest, chain: Chain)
    ensures
      var outcome := FindSession(pending, chain);
      && (outcome.Signature? <==>
            Delivery(pending, chain) && (pending.kind.Sign? || pending.kind.FutureSignCompletion?))
      && (outcome.Signature? ==> HoldsSignature(pending, outcome.signature, chain))
      && (outcome.Ran? && !outcome.record.ChargeRecord? <==>
            Delivery(pending, chain) && !pending.kind.Sign? && !pending.kind.FutureSignCompletion?)
      && (outcome.Ran? && outcome.record.ChargeRecord? <==>
            && !Delivery(pending, chain) && VoucherIsThere(pending, chain)
            && exists charge :: ChargedBy(pending, charge, chain))
      && (outcome.Ran? ==> Holds(pending, outcome.record, chain))
      && (outcome == NotRun || outcome == Unknown ==> (outcome == NotRun <==> CanTell(pending, chain)))
  {
    HeldIsOwn(pending, chain);
  }

  /** A charge the lookup found is a charge of this very session. */
  lemma FoundChargeIsOwn(pending: PendingRequest, chain: Chain)
    requires FindSession(pending, chain).Ran? && FindSession(pending, chain).record.ChargeRecord?
    ensures exists c :: (pending.session.signer, c) in chain.charges && ChargedSession(c) == pending.session
  {
    FoundExactly(pending, chain);
    var charge :| ChargedBy(pending, charge, chain);
    assert ChargedSession(charge) == pending.session;
  }

  /** Under append-only records, an answer "ran" or "signature" stays one of the two. */
  lemma FoundStaysFound(pending: PendingRequest, earlier: Chain, later: Chain)
    requires Grows(earlier, later)
    requires FindSession(pending, earlier).Ran? || FindSession(pending, earlier).Signature?
    ensures FindSession(pending, later).Ran? || FindSession(pending, later).Signature?
  {
    FoundExactly(pending, earlier);
    FoundExactly(pending, later);
    if charge :| ChargedBy(pending, charge, earlier) {
      assert ChargedBy(pending, charge, later);
    }
  }
}
