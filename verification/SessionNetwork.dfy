/**
 * The network and the chain as a client meets them: a step system over the
 * signed requests any client ever sent. A copy of a sent request may arrive
 * at any time and any number of times, so a request stays in `sent` forever.
 *
 * The rules are the network's own: a session is sequenced only in the epoch
 * it names and at most once, the chain shows a later epoch only after every
 * session of the earlier one is settled on it (a re-encryption's one epoch
 * later), and records are never removed.
 */
module SessionNetwork {
  import opened RequestRecords

  datatype Net = Net(
    epoch: nat,                   // the epoch the network is in
    shown: nat,                   // the epoch the chain shows
    sent: map<Session, Kind>,     // every signed request, by the session it opens
    sequenced: set<Session>,      // the sessions that ran
    settled: set<Session>,        // the ones whose outcome is on the chain
    chain: Chain)

  datatype Step =
    | Send(session: Session, kind: Kind)
    | Sequence(session: Session)
    | Settle(session: Session, end: Settlement)
    | EnterEpoch
    | ShowEpoch
    | Write(chain: Chain)         // anyone else's records: vouchers, shares, other deliveries

  predicate Enabled(net: Net, step: Step) {
    match step
    case Send(session, _) => session !in net.sent
    case Sequence(session) =>
      session in net.sent && session.epoch == net.epoch && session !in net.sequenced
    case Settle(session, end) =>
      && session in net.sequenced && session in net.sent && session !in net.settled
      && CanSettle(PendingRequest(session, net.sent[session]), end, net.chain)
    case EnterEpoch => true
    case ShowEpoch =>
      // Everything of the epochs shown so far is on the chain, but for the
      // re-encryptions of the latest of them.
      && net.shown < net.epoch
      && forall s <- net.sequenced | s in net.sent && s !in net.settled ::
           net.shown <= s.epoch && (net.shown == s.epoch ==> net.sent[s].ReEncryptShare?)
    case Write(chain) => Grows(net.chain, chain) && chain.charges == net.chain.charges
  }

  function After(net: Net, step: Step): Net
    requires Enabled(net, step)
  {
    match step
    case Send(session, kind) => net.(sent := net.sent[session := kind])
    case Sequence(session) => net.(sequenced := net.sequenced + {session})
    case Settle(session, end) =>
      net.(settled := net.settled + {session},
           chain := Settled(PendingRequest(session, net.sent[session]), end, net.chain))
    case EnterEpoch => net.(epoch := net.epoch + 1)
    case ShowEpoch => net.(shown := net.shown + 1)
    case Write(chain) => net.(chain := chain)
  }

  /** The network after `steps`; a step that is not enabled does nothing. */
  function Run(net: Net, steps: seq<Step>): Net
    decreases |steps|
  {
    if steps == [] then net
    else Run(if Enabled(net, steps[0]) then After(net, steps[0]) else net, steps[1..])
  }

  ghost predicate Leads(earlier: Net, later: Net) {
    exists steps :: Run(earlier, steps) == later
  }

  ghost predicate Inv(net: Net) {
    && net.shown <= net.epoch
    && net.settled <= net.sequenced <= net.sent.Keys
    && (forall s <- net.sequenced :: s.epoch <= net.epoch)
    && (forall s <- net.sequenced ::
          SettledAtEpoch(PendingRequest(s, net.sent[s])) <= net.shown ==> s in net.settled)
    && (forall s <- net.settled :: HoldsATrace(PendingRequest(s, net.sent[s]), net.chain))
    && (forall c <- net.chain.charges :: ChargeIsDue(net, c))
    && OneChargeEach(net.chain)
  }

  /** A charge is of a settled session, from its signer's deposit, and of a kind that session can end with. */
  ghost predicate ChargeIsDue(net: Net, c: (TransportKey, Charge)) {
    var session := ChargedSession(c.1);
    && session in net.settled && session in net.sent && c.0 == session.signer
    && (c.1.Charge? ==> OwnCharge(PendingRequest(session, net.sent[session]), c.1))
  }

  /** No session is charged twice. */
  ghost predicate OneChargeEach(chain: Chain) {
    forall c <- chain.charges, d <- chain.charges ::
      ChargedSession(c.1) == ChargedSession(d.1) ==> c == d
  }

  /** `session` never ran, and its epoch is over: it never will. */
  ghost predicate Dead(net: Net, session: Session) {
    session in net.sent && session !in net.sequenced && session.epoch < net.epoch
  }

  /** Settling adds at most one charge, and of the session it settles. */
  lemma SettlingAddsOneCharge(pending: PendingRequest, end: Settlement, chain: Chain)
    requires CanSettle(pending, end, chain)
    ensures forall c <- Settled(pending, end, chain).charges :: c in chain.charges || (
              && c.0 == pending.session.signer && ChargedSession(c.1) == pending.session
              && (c.1.Charge? ==> OwnCharge(pending, c.1)))
    ensures forall c, d | c in Settled(pending, end, chain).charges && d in Settled(pending, end, chain).charges ::
              c in chain.charges || d in chain.charges || c == d
  {
  }

  lemma StepKeepsCharges(net: Net, step: Step)
    requires Inv(net) && Enabled(net, step)
    ensures (forall c <- After(net, step).chain.charges :: ChargeIsDue(After(net, step), c))
    ensures OneChargeEach(After(net, step).chain)
  {
    if step.Settle? {
      SettlingAddsOneCharge(PendingRequest(step.session, net.sent[step.session]), step.end, net.chain);
      forall c, d | c in After(net, step).chain.charges && d in After(net, step).chain.charges
        && ChargedSession(c.1) == ChargedSession(d.1)
        ensures c == d
      {
        assert c in net.chain.charges ==> ChargeIsDue(net, c);
        assert d in net.chain.charges ==> ChargeIsDue(net, d);
      }
    }
    forall c <- After(net, step).chain.charges ensures ChargeIsDue(After(net, step), c) {
      assert c in net.chain.charges ==> ChargeIsDue(net, c);
    }
  }

  lemma StepKeepsTraces(net: Net, step: Step)
    requires Inv(net) && Enabled(net, step)
    ensures forall s <- After(net, step).settled ::
              s in After(net, step).sent
              && HoldsATrace(PendingRequest(s, After(net, step).sent[s]), After(net, step).chain)
  {
    var next := After(net, step);
    if step.Settle? {
      SettlingLeavesATrace(PendingRequest(step.session, net.sent[step.session]), step.end, net.chain);
    }
    assert Grows(net.chain, next.chain);
    forall s <- next.settled ensures s in next.sent && HoldsATrace(PendingRequest(s, next.sent[s]), next.chain) {
      if s in net.settled {
        TracesStay(PendingRequest(s, net.sent[s]), net.chain, next.chain);
      }
    }
  }

  lemma StepKeepsInv(net: Net, step: Step)
    requires Inv(net) && Enabled(net, step)
    ensures Inv(After(net, step))
  {
    StepKeepsTraces(net, step);
    StepKeepsCharges(net, step);
  }

  lemma {:induction false} RunKeepsInv(net: Net, steps: seq<Step>)
    requires Inv(net)
    ensures Inv(Run(net, steps))
    decreases |steps|
  {
    if steps != [] {
      if Enabled(net, steps[0]) {
        StepKeepsInv(net, steps[0]);
        RunKeepsInv(After(net, steps[0]), steps[1..]);
      } else {
        RunKeepsInv(net, steps[1..]);
      }
    }
  }

  /** What no step undoes. */
  ghost predicate Onward(earlier: Net, later: Net) {
    && earlier.epoch <= later.epoch && earlier.shown <= later.shown
    && earlier.sent.Keys <= later.sent.Keys
    && (forall s <- earlier.sent :: later.sent[s] == earlier.sent[s])
    && earlier.sequenced <= later.sequenced
    && Grows(earlier.chain, later.chain)
    && (forall s :: Dead(earlier, s) ==> Dead(later, s))
  }

  lemma StepGoesOnward(net: Net, step: Step)
    requires Enabled(net, step)
    ensures Onward(net, After(net, step))
  {
    if step.Settle? {
      SettlingLeavesATrace(PendingRequest(step.session, net.sent[step.session]), step.end, net.chain);
    }
  }

  lemma {:induction false} RunGoesOnward(net: Net, steps: seq<Step>)
    ensures Onward(net, Run(net, steps))
    decreases |steps|
  {
    if steps != [] {
      if Enabled(net, steps[0]) {
        StepGoesOnward(net, steps[0]);
        RunGoesOnward(After(net, steps[0]), steps[1..]);
      } else {
        RunGoesOnward(net, steps[1..]);
      }
    }
  }

  lemma LeadsOnward(earlier: Net, later: Net)
    requires Leads(earlier, later)
    ensures Onward(earlier, later)
    ensures Inv(earlier) ==> Inv(later)
  {
    var steps :| Run(earlier, steps) == later;
    RunGoesOnward(earlier, steps);
    if Inv(earlier) {
      RunKeepsInv(earlier, steps);
    }
  }

  lemma {:induction false} RunConcat(net: Net, first: seq<Step>, second: seq<Step>)
    ensures Run(net, first + second) == Run(Run(net, first), second)
    decreases |first|
  {
    if first == [] {
      assert first + second == second;
    } else {
      assert (first + second)[1..] == first[1..] + second;
      RunConcat(if Enabled(net, first[0]) then After(net, first[0]) else net, first[1..], second);
    }
  }

  lemma LeadsTransitive(first: Net, second: Net, third: Net)
    requires Leads(first, second) && Leads(second, third)
    ensures Leads(first, third)
  {
    var steps :| Run(first, steps) == second;
    var more :| Run(second, more) == third;
    RunConcat(first, steps, more);
  }

  lemma RunLeads(net: Net, steps: seq<Step>)
    ensures Leads(net, Run(net, steps))
  {
  }

  lemma LeadsToItself(net: Net)
    ensures Leads(net, net)
  {
    assert Run(net, []) == net;
  }

  // ── Lookup exactness ─────────────────────────────────────────────────────

  /**
   * `seen` is what the reads of one lookup answered, each made at its own
   * moment between `start` and `end`. Once the chain showed the settled epoch
   * at `start`, "not run" means the session never ran and never will.
   */
  lemma NotRunIsDead(start: Net, seen: Chain, session: Session)
    requires Inv(start) && session in start.sent
    requires SettledAtEpoch(PendingRequest(session, start.sent[session])) <= start.shown
    requires Grows(start.chain, seen)
    requires FindSession(PendingRequest(session, start.sent[session]), seen) == NotRun
    ensures Dead(start, session)
  {
    var pending := PendingRequest(session, start.sent[session]);
    NotRunMeansNoTrace(pending, seen);
    if session in start.sequenced {
      TracesStay(pending, start.chain, seen);
    }
  }

  /** A charge record the lookup found means this very session ran. */
  lemma ChargedMeansRan(end: Net, seen: Chain, session: Session, kind: Kind)
    requires Inv(end) && Grows(seen, end.chain)
    requires var outcome := FindSession(PendingRequest(session, kind), seen);
             outcome.Ran? && outcome.record.ChargeRecord?
    ensures session in end.sequenced
  {
    FoundChargeIsOwn(PendingRequest(session, kind), seen);
  }

  /** The chain holds a charge of `source` for `session`, under an id derived from the session alone. */
  ghost predicate ChargedFor(session: Session, source: ChargeSource, chain: Chain) {
    exists item: ItemId :: (session.signer, Charge(source, item)) in chain.charges && item.session == session
  }

  /** In the network a charge of a session is one its client looks for, and there is no other. */
  lemma ChargesAreOwn(net: Net, session: Session, source: ChargeSource)
    requires Inv(net) && session in net.sent
    ensures
      var pending := PendingRequest(session, net.sent[session]);
      ChargedFor(session, source, net.chain) <==>
        exists charge :: ChargedBy(pending, charge, net.chain) && charge.source == source
  {
    var pending := PendingRequest(session, net.sent[session]);
    if ChargedFor(session, source, net.chain) {
      var item: ItemId :| (session.signer, Charge(source, item)) in net.chain.charges && item.session == session;
      assert ChargedBy(pending, Charge(source, item), net.chain);
    }
    if charge :| ChargedBy(pending, charge, net.chain) && charge.source == source {
      assert (session.signer, Charge(source, charge.item)) in net.chain.charges;
    }
  }

  /** Of a request's charges there is one. */
  lemma ChargesAgree(net: Net, pending: PendingRequest, charge: Charge, other: Charge)
    requires Inv(net) && ChargedBy(pending, charge, net.chain) && ChargedBy(pending, other, net.chain)
    ensures charge == other
  {
    assert (pending.session.signer, charge) == (pending.session.signer, other);
  }

  /** So the lookup names a charge exactly when there is one of that source, and nothing was delivered. */
  lemma ChargeFoundExactly(net: Net, session: Session, source: ChargeSource)
    requires Inv(net) && session in net.sent
    ensures
      var pending := PendingRequest(session, net.sent[session]);
      FindSession(pending, net.chain) == Ran(ChargeRecord(source)) <==>
        && !Delivery(pending, net.chain) && VoucherIsThere(pending, net.chain)
        && ChargedFor(session, source, net.chain)
  {
    var pending := PendingRequest(session, net.sent[session]);
    var outcome := FindSession(pending, net.chain);
    FoundExactly(pending, net.chain);
    ChargesAreOwn(net, session, source);
    if outcome.Ran? && outcome.record.ChargeRecord? && ChargedFor(session, source, net.chain) {
      var charge :| ChargedBy(pending, charge, net.chain) && charge.source == source;
      var other :| ChargedBy(pending, other, net.chain) && other.source == outcome.record.source;
      ChargesAgree(net, pending, charge, other);
    }
  }

  /**
   * The whole lookup, over any run of the network. With the settled epoch
   * shown at `now`: "not run" is answered exactly when the session never ran,
   * no other session left the delivery its request asks for, and the kind can
   * tell; it then never runs in any later state. A delivery on the chain is
   * always found, a signature is the one its voucher holds, a charge is named
   * exactly when the session has one of that source, and an answer "ran" or
   * "signature" never turns into "not run".
   */
  lemma LookupExactness(now: Net, later: Net, session: Session)
    requires Inv(now) && Leads(now, later) && session in now.sent
    requires SettledAtEpoch(PendingRequest(session, now.sent[session])) <= now.shown
    ensures
      var pending := PendingRequest(session, now.sent[session]);
      var outcome := FindSession(pending, now.chain);
      && (outcome == NotRun <==>
            session !in now.sequenced && !Delivery(pending, now.chain) && CanTell(pending, now.chain))
      && (outcome == NotRun ==> session !in later.sequenced)
      && (outcome.Signature? <==>
            Delivery(pending, now.chain) && (pending.kind.Sign? || pending.kind.FutureSignCompletion?))
      && (outcome.Signature? ==> HoldsSignature(pending, outcome.signature, now.chain))
      && (outcome.Ran? && !outcome.record.ChargeRecord? <==>
            Delivery(pending, now.chain) && !pending.kind.Sign? && !pending.kind.FutureSignCompletion?)
      && (outcome.Ran? ==> Holds(pending, outcome.record, now.chain))
      && (forall source :: outcome == Ran(ChargeRecord(source)) <==>
            && !Delivery(pending, now.chain) && VoucherIsThere(pending, now.chain)
            && ChargedFor(session, source, now.chain))
      && (outcome.Ran? && outcome.record.ChargeRecord? ==> session in now.sequenced)
      && (outcome.Ran? || outcome.Signature? ==>
            FindSession(pending, later.chain).Ran? || FindSession(pending, later.chain).Signature?)
  {
    var pending := PendingRequest(session, now.sent[session]);
    var outcome := FindSession(pending, now.chain);
    LeadsOnward(now, later);
    NotRunMeansNoTrace(pending, now.chain);
    FoundExactly(pending, now.chain);
    forall source
      ensures outcome == Ran(ChargeRecord(source)) <==>
        && !Delivery(pending, now.chain) && VoucherIsThere(pending, now.chain)
        && ChargedFor(session, source, now.chain)
    {
      ChargeFoundExactly(now, session, source);
    }
    if outcome == NotRun {
      NotRunIsDead(now, now.chain, session);
      assert Dead(later, session);
    } else if outcome.Ran? || outcome.Signature? {
      FoundStaysFound(pending, now.chain, later.chain);
    }
    if outcome.Ran? && outcome.record.ChargeRecord? {
      ChargedMeansRan(now, now.chain, session, pending.kind);
    }
    if session !in now.sequenced {
      UnsequencedHasNoCharge(now, session);
    }
  }

  lemma UnsequencedHasNoCharge(net: Net, session: Session)
    requires Inv(net) && session !in net.sequenced
    ensures forall c <- net.chain.charges :: ChargedSession(c.1) != session
    ensures session in net.sent ==>
              forall charge :: !ChargedBy(PendingRequest(session, net.sent[session]), charge, net.chain)
  {
    if session in net.sent {
      forall charge ensures !ChargedBy(PendingRequest(session, net.sent[session]), charge, net.chain) {
        assert ChargedBy(PendingRequest(session, net.sent[session]), charge, net.chain) ==>
          ChargedSession(charge) == session;
      }
    }
  }

  // ── The settled epoch is the earliest ────────────────────────────────────

  /** A network in which nothing was sent yet, in `epoch`. */
  function Fresh(epoch: nat, chain: Chain): Net {
    Net(epoch, epoch, map[], {}, {}, chain)
  }

  /** The network's next epoch begins while `session` is sequenced and not settled. */
  function EpochEnds(session: Session, kind: Kind): seq<Step> {
    [Send(session, kind), Sequence(session), EnterEpoch]
      + if kind.ReEncryptShare? then [ShowEpoch] else []
  }

  lemma RunOne(net: Net, step: Step, rest: seq<Step>)
    requires Enabled(net, step)
    ensures Run(net, [step] + rest) == Run(After(net, step), rest)
  {
    assert ([step] + rest)[1..] == rest;
  }

  /**
   * One epoch earlier the lookup would be wrong: for every session and kind
   * whose records can tell, some run of the network sequences the session and
   * shows the epoch before the settled one while the lookup says "not run".
   */
  lemma EarlierIsTooSoon(session: Session, kind: Kind, chain: Chain)
    requires chain.charges == {}
    requires CanTell(PendingRequest(session, kind), chain) && !Delivery(PendingRequest(session, kind), chain)
    ensures Inv(Fresh(session.epoch, chain))
    ensures
      var pending := PendingRequest(session, kind);
      var net := Run(Fresh(session.epoch, chain), EpochEnds(session, kind));
      && net.shown + 1 == SettledAtEpoch(pending)
      && session in net.sequenced && net.sent == map[session := kind]
      && FindSession(pending, net.chain) == NotRun
  {
    var start := Fresh(session.epoch, chain);
    var sent := After(start, Send(session, kind));
    var ran := After(sent, Sequence(session));
    var next := After(ran, EnterEpoch);
    var last := if kind.ReEncryptShare? then [ShowEpoch] else [];
    var steps := EpochEnds(session, kind);
    assert steps == [Send(session, kind)] + ([Sequence(session)] + ([EnterEpoch] + last));
    RunOne(start, Send(session, kind), [Sequence(session)] + ([EnterEpoch] + last));
    RunOne(sent, Sequence(session), [EnterEpoch] + last);
    RunOne(ran, EnterEpoch, last);
    if kind.ReEncryptShare? {
      RunOne(next, ShowEpoch, []);
    }
    FoundExactly(PendingRequest(session, kind), chain);
  }
}
