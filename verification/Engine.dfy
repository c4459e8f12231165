/**
 * One connection to the ika network: how it signs, resends, looks up and
 * signs again (sdk/core/src/common/engine.ts, and the presign loop of
 * sdk/core/src/common/ika-client-base.ts).
 *
 * Between any two actions of the connection the rest of the world moves
 * (`Interfere`): other clients send, late and duplicate copies are run,
 * epochs change, records are written. Answers, read failures and deadlines
 * are arbitrary; a validator's word about an epoch may be wrong.
 */
module Engine {
  import opened Common
  import opened RequestRecords
  import opened SessionNetwork
  import opened CallHistory

  const REBUILDS_AFTER_EPOCH_CLOSE: nat := 2
  const OWN_PRESIGN_ATTEMPTS: nat := 3

  class Connection {
    const key: TransportKey
    /** Whether the connection was given the chain reads a lookup needs. */
    const readsRecords: bool
    /** The world outside: only `Interfere` and this connection's own sends move it. */
    var net: Net
    /** The latest epoch the chain showed this connection. */
    var epoch: nat
    ghost var history: History

    ghost predicate Valid() reads this {
      && Inv(net) && epoch <= net.shown
      && (forall s <- history.signed :: s in net.sent)
      && history.Valid()
    }

    constructor (key: TransportKey, readsRecords: bool, net: Net)
      requires Inv(net)
      ensures Valid() && this.net == net && epoch <= net.shown && history == History([], map[], map[])
    {
      this.key, this.readsRecords, this.net, this.epoch := key, readsRecords, net, net.shown;
      history := History([], map[], map[]);
    }

    /** The rest of the world takes any number of steps, and other calls may raise the epoch seen. */
    method Interfere()
      requires Valid()
      modifies this`net, this`epoch
      ensures Valid() && Leads(old(net), net) && epoch >= old(epoch)
    {
      var steps: seq<Step> := *;
      RunGoesOnward(net, steps);
      RunKeepsInv(net, steps);
      RunLeads(net, steps);
      LeadsOnward(net, Run(net, steps));
      net := Run(net, steps);
      var seen: nat := *;
      if epoch < seen <= net.shown {
        epoch := seen;
      }
    }

    /**
     * Read the chain's epoch, keep it when it is later, and return the latest
     * one seen. `read` is what the chain answered.
     */
    method ReadChainEpoch() returns (seen: Option<nat>, ghost read: nat)
      requires Valid()
      modifies this`net, this`epoch
      ensures Valid() && Leads(old(net), net) && epoch >= old(epoch)
      ensures seen.Some? ==> seen.value == epoch >= read
    {
      Interfere();
      var fails: bool := *;
      if fails {
        return None, 0;
      }
      // An endpoint may answer with an epoch the chain showed earlier.
      var stale: nat := *;
      var answer: nat := if 0 <= stale <= net.shown then stale else net.shown;
      read := answer;
      if answer > epoch {
        epoch := answer;
      }
      return Some(epoch), read;
    }

    /** One copy of a signed request is sent, and something comes back. */
    method SubmitTransaction(session: Session) returns (result: Transmission)
      requires Valid() && session in history.replies
      modifies this`net, this`epoch, this`history
      ensures Valid() && Leads(old(net), net) && epoch >= old(epoch)
      ensures history == old(history).(replies :=
                old(history).replies[session := old(history).replies[session] + [result]])
    {
      Interfere();
      result := *;
      history := history.(replies := history.replies[session := history.replies[session] + [result]]);
    }

    /** Send the same signed bytes until a validator answers: nothing else is signed or sent. */
    method SendUntilAnswered(session: Session) returns (result: SendResult)
      requires Valid() && session in history.replies && history.replies[session] == []
      modifies this`net, this`epoch, this`history
      ensures Valid() && Leads(old(net), net) && epoch >= old(epoch)
      ensures OnlyCopiesOf(old(history), history, session)
      ensures AllButLast(history.replies[session], 0, Retryable)
      ensures history.LastReply(session).Some? && EndsTheSending(history.LastReply(session).value, result)
    {
      ghost var world, was := net, history;
      var patience: nat := *;
      LeadsToItself(net);
      while true
        invariant Valid() && Leads(world, net) && epoch >= old(epoch)
        invariant OnlyCopiesOf(was, history, session)
        invariant forall i | 0 <= i < |history.replies[session]| :: history.replies[session][i] == Retryable
        decreases patience
      {
        ghost var before, between := net, history;
        var sent := SubmitTransaction(session);
        LeadsTransitive(world, before, net);
        OneMoreCopy(was, between, history, session, sent);
        match sent {
          case Replied(response) => return Answer(response);
          case EpochClosing => return Closed;
          case OtherFailure => return Threw;
          case Retryable =>
            if patience == 0 {
              return Threw;
            }
        }
        patience := patience - 1;
      }
    }

    /** Resend the same bytes while the refusal is that the gas deposit has not been read yet. */
    method ResendWhileDepositUnread(response: Response, session: Session) returns (result: SendResult)
      requires Valid() && history.LastReply(session) == Some(Replied(response))
      modifies this`net, this`epoch, this`history
      ensures Valid() && Leads(old(net), net) && epoch >= old(epoch)
      ensures OnlyCopiesOf(old(history), history, session)
      ensures AllButLast(history.replies[session], |old(history).replies[session]| - 1,
                Replied(ErrorAnswer(NoGasDeposit)))
      ensures response != ErrorAnswer(NoGasDeposit) ==> history == old(history)
      ensures history.LastReply(session).Some? && EndsTheSending(history.LastReply(session).value, result)
    {
      ghost var world, was, unread := net, history, Replied(ErrorAnswer(NoGasDeposit));
      ghost var from := |was.replies[session]| - 1;
      var patience: nat := *;
      var answer := response;
      LeadsToItself(net);
      while answer == ErrorAnswer(NoGasDeposit) && patience > 0
        invariant Valid() && Leads(world, net) && epoch >= old(epoch)
        invariant OnlyCopiesOf(was, history, session)
        invariant history.LastReply(session) == Some(Replied(answer))
        invariant AllButLast(history.replies[session], from, unread)
        invariant response != ErrorAnswer(NoGasDeposit) ==> answer == response && history == was
        decreases patience
      {
        ghost var before, between := net, history;
        var sent := SubmitTransaction(session);
        LeadsTransitive(world, before, net);
        OneMoreUnread(was, between, history, session, sent, from, unread);
        match sent {
          case Replied(again) => answer := again;
          case EpochClosing => return Closed;
          case _ => return Threw;
        }
        patience := patience - 1;
      }
      return Answer(answer);
    }

    /** The sending part: resend until an answer, then while the deposit is unread, then look for a stale epoch. */
    method SendSigned(own: Session) returns (result: SendResult)
      requires Valid() && own in history.replies && history.replies[own] == []
      modifies this`net, this`epoch, this`history
      ensures Valid() && Leads(old(net), net) && epoch >= old(epoch)
      ensures OnlyCopiesOf(old(history), history, own) && ResentOnly(history.replies[own])
      ensures history.LastReply(own).Some? && SendEndsAs(history.LastReply(own).value, own.epoch, result)
    {
      ghost var world, was := net, history;
      result := SendUntilAnswered(own);
      if result.Answer? {
        ghost var answered, between := net, history;
        result := ResendWhileDepositUnread(result.response, own);
        LeadsTransitive(world, answered, net);
        CopiesAgain(was, between, history, own);
        ResentThenUnread(between.replies[own], history.replies[own]);
      }
      if result.Answer? {
        StaleMeansClosed(result.response, own.epoch);
        if StaleEpochRefusal(result.response, own.epoch).Some? {
          result := Closed;
        }
      }
    }

    /** A session of this connection that nobody opened: a preimage is 32 random bytes, never drawn twice. */
    method FreshSession(forEpoch: nat) returns (own: Session)
      ensures own !in net.sent && own.epoch == forEpoch && own.signer == key
    {
      var preimage: nat := *;
      ghost var drawn := set s | s in net.sent.Keys && s.preimage >= preimage;
      while Session(forEpoch, key, preimage) in net.sent
        invariant drawn == set s | s in net.sent.Keys && s.preimage >= preimage
        decreases drawn
      {
        assert Session(forEpoch, key, preimage) in drawn;
        preimage := preimage + 1;
        drawn := set s | s in net.sent.Keys && s.preimage >= preimage;
      }
      return Session(forEpoch, key, preimage);
    }

    /** Sign one request of `kind` under a new session: from now on a copy of it may run at any time. */
    method SignNew(forEpoch: nat, kind: Kind) returns (own: Session)
      requires Valid()
      modifies this`net, this`history
      ensures Valid() && Leads(old(net), net)
      ensures own !in old(net).sent && own.epoch == forEpoch && own.signer == key
      ensures net == old(net).(sent := old(net).sent[own := kind])
      ensures own !in old(history).replies
      ensures history == old(history).(signed := old(history).signed + [own],
                                       replies := old(history).replies[own := []])
    {
      own := FreshSession(forEpoch);
      StepKeepsInv(net, Send(own, kind));
      RunOne(net, Send(own, kind), []);
      assert [Send(own, kind)] + [] == [Send(own, kind)];
      RunLeads(net, [Send(own, kind)]);
      net := After(net, Send(own, kind));
      history := history.(signed := history.signed + [own], replies := history.replies[own := []]);
    }

    /**
     * Build the request for `forEpoch` under a new session, sign it once, and
     * send it. Either nothing is signed, or exactly one new session is, and
     * the result is what the last reply to one of its copies says.
     */
    method SignAndSend(forEpoch: nat, kind: Kind) returns (result: SendResult, session: Option<Session>)
      requires Valid()
      modifies this`net, this`epoch, this`history
      ensures Valid() && Leads(old(net), net) && epoch >= old(epoch)
      ensures session.None? ==> result.Threw? && history == old(history)
      ensures session.Some? ==>
                && SignedOnce(old(net), net, old(history), history, key, forEpoch, kind, session.value)
                && SendEndsAs(history.LastReply(session.value).value, forEpoch, result)
      // A refusal that names a later epoch is never the answer.
      ensures forall current: nat ::
                result == Answer(ErrorAnswer(EpochMismatch(forEpoch, current))) ==> current <= forEpoch
    {
      Interfere();
      var refused: bool := *;
      if refused {
        // The build or the signer failed: nothing was signed.
        return Threw, None;
      }
      ghost var world, asked, past := old(net), net, history;
      LeadsOnward(world, asked);
      var own := SignNew(forEpoch, kind);
      LeadsTransitive(world, asked, net);
      ghost var ready, signed := net, history;
      result := SendSigned(own);
      LeadsTransitive(world, ready, net);
      LeadsOnward(ready, net);
      SignedThenSent(world, asked, ready, net, past, signed, history, key, forEpoch, kind, own);
      return result, Some(own);
    }

    /** One lookup: its reads are answered at moments of their own. */
    method LookUp(session: Session, kind: Kind) returns (outcome: Option<Outcome>)
      requires Valid()
      requires session in net.sent && net.sent[session] == kind
      requires SettledAtEpoch(PendingRequest(session, kind)) <= net.shown
      modifies this`net, this`epoch
      ensures Valid() && Leads(old(net), net) && epoch >= old(epoch)
      ensures outcome.Some? ==>
                && ShownBetween(old(net).chain, net.chain, PendingRequest(session, kind), outcome.value)
                && ShownBy(net.chain, PendingRequest(session, kind), outcome.value)
      ensures outcome == Some(NotRun) ==> Dead(net, session) && !kind.Dkg? && !kind.ImportedKey?
      ensures outcome.Some? && outcome.value.Ran? && outcome.value.record.ChargeRecord? ==>
                session in net.sequenced
    {
      var start := net;
      Interfere();
      LeadsOnward(start, net);
      var fails: bool := *;
      if fails {
        return None;
      }
      var between: Chain := *;
      if !Grows(start.chain, between) || !Grows(between, net.chain) {
        between := net.chain;
      }
      var found := FindSession(PendingRequest(session, kind), between);
      LookedUp(start, net, between, session, kind, found);
      return Some(found);
    }

    /** Wait until the chain shows `settledAt`, or for so long; a read that fails counts as no later epoch. */
    method WaitFor(settledAt: nat)
      requires Valid()
      modifies this`net, this`epoch
      ensures Valid() && Leads(old(net), net) && epoch >= old(epoch)
    {
      ghost var world := net;
      var patience: nat := *;
      LeadsToItself(net);
      while epoch < settledAt && patience > 0
        invariant Valid() && Leads(world, net) && epoch >= old(epoch)
        decreases patience
      {
        ghost var before := net;
        var _, _ := ReadChainEpoch();
        LeadsTransitive(world, before, net);
        if epoch >= settledAt {
          break;
        }
        before := net;
        Interfere();
        LeadsTransitive(world, before, net);
        patience := patience - 1;
      }
    }

    /**
     * Wait until the chain shows the settled epoch, then look the session up.
     * `looked` is what the lookup gave, when one was made.
     */
    method WaitAndLookUp(session: Session, kind: Kind)
      returns (outcome: Outcome, ghost looked: Option<Option<Outcome>>)
      requires Valid() && session in net.sent && net.sent[session] == kind
      modifies this`net, this`epoch
      ensures Valid() && Leads(old(net), net) && epoch >= old(epoch)
      ensures match looked
              case None =>
                outcome == Unknown && (readsRecords ==> epoch < SettledAtEpoch(PendingRequest(session, kind)))
              case Some(None) => outcome == Unknown
              case Some(Some(found)) => outcome == found
      ensures outcome != Unknown ==>
                && epoch >= SettledAtEpoch(PendingRequest(session, kind))
                && ShownBy(net.chain, PendingRequest(session, kind), outcome)
      ensures outcome == NotRun ==> Dead(net, session) && !kind.Dkg? && !kind.ImportedKey?
      ensures outcome.Ran? && outcome.record.ChargeRecord? ==> session in net.sequenced
    {
      ghost var world := net;
      var settledAt := SettledAtEpoch(PendingRequest(session, kind));
      WaitFor(settledAt);
      if !readsRecords || epoch < settledAt {
        return Unknown, None;
      }
      LeadsOnward(world, net);
      ghost var before := net;
      var found := LookUp(session, kind);
      LeadsTransitive(world, before, net);
      outcome := if found.Some? then found.value else Unknown;
      looked := Some(found);
    }

    /** The same for a session of this connection: the outcome becomes part of its history. */
    method OutcomeAfterEpochClose(session: Session, kind: Kind)
      returns (outcome: Outcome, ghost looked: Option<Option<Outcome>>)
      requires Valid() && session in net.sent && net.sent[session] == kind && session in history.signed
      modifies this`net, this`epoch, this`history
      ensures Valid() && Leads(old(net), net) && epoch >= old(epoch)
      ensures history == old(history).(outcomes := old(history).outcomes[session := outcome])
      ensures match looked
              case None =>
                outcome == Unknown && (readsRecords ==> epoch < SettledAtEpoch(PendingRequest(session, kind)))
              case Some(None) => outcome == Unknown
              case Some(Some(found)) => outcome == found
      ensures outcome != Unknown ==>
                && epoch >= SettledAtEpoch(PendingRequest(session, kind))
                && ShownBy(net.chain, PendingRequest(session, kind), outcome)
      ensures outcome == NotRun ==> Dead(net, session) && !kind.Dkg? && !kind.ImportedKey?
      ensures outcome.Ran? && outcome.record.ChargeRecord? ==> session in net.sequenced
    {
      outcome, looked := WaitAndLookUp(session, kind);
      history := history.(outcomes := history.outcomes[session := outcome]);
    }

    /** One session: sign it for `forEpoch`, send it, and look it up when its epoch closed first. */
    method SubmitOnce(forEpoch: nat, kind: Kind) returns (attempt: Attempt, session: Option<Session>)
      requires Valid()
      modifies this`net, this`epoch, this`history
      ensures Valid() && Leads(old(net), net) && epoch >= old(epoch)
      ensures session.None? ==> attempt == Finished(Failed) && history == old(history)
      ensures session.Some? ==>
                Attempted(old(net), net, old(history), history, key, forEpoch, kind, session.value, attempt)
      ensures attempt.NeverRan? ==> session.Some? && epoch > forEpoch
    {
      ghost var world, past := net, history;
      var sent;
      sent, session := SignAndSend(forEpoch, kind);
      if !sent.Closed? {
        attempt := Finished(if sent.Answer? then Answered(sent.response) else Failed);
        if session.Some? {
          AnsweredAttempt(world, net, past, history, key, forEpoch, kind, session.value, sent);
        }
        return;
      }
      ghost var closed, between := net, history;
      var outcome, _ := OutcomeAfterEpochClose(session.value, kind);
      LeadsTransitive(world, closed, net);
      LeadsOnward(closed, net);
      var pending := PendingRequest(session.value, kind);
      attempt := if outcome == NotRun then NeverRan(pending) else Finished(AnswerOrThrow(outcome, pending));
      LookedUpAttempt(world, closed, net, past, between, key, forEpoch, kind, session.value, outcome);
    }

    /** One session for the epoch the chain shows, when it can be read. */
    method SubmitNow(kind: Kind) returns (attempt: Attempt, session: Option<Session>)
      requires Valid()
      modifies this`net, this`epoch, this`history
      ensures Valid() && Leads(old(net), net) && epoch >= old(epoch)
      ensures session.None? ==> attempt == Finished(Failed) && history == old(history)
      ensures session.Some? ==>
                && old(epoch) <= session.value.epoch <= epoch
                && Attempted(old(net), net, old(history), history, key, session.value.epoch, kind, session.value, attempt)
      ensures attempt.NeverRan? ==> session.Some? && session.value.epoch < epoch
    {
      ghost var world, past := net, history;
      var seen, _ := ReadChainEpoch();
      if seen.None? {
        return Finished(Failed), None;
      }
      ghost var asked := net;
      LeadsOnward(world, asked);
      attempt, session := SubmitOnce(seen.value, kind);
      LeadsTransitive(world, asked, net);
      if session.Some? {
        AttemptedLater(world, asked, net, past, history, key, seen.value, kind, session.value, attempt);
      }
    }

    /**
     * Sign and submit a request, and sign it again under a new session only
     * when its epoch closed and the lookup found that it never ran.
     */
    method Submit(kind: Kind, rebuildsLeft: nat) returns (result: CallResult, sessions: seq<Session>)
      requires Valid()
      modifies this`net, this`epoch, this`history
      ensures Valid() && Leads(old(net), net) && epoch >= old(epoch)
      ensures Submitted(old(net), net, old(history), history, old(epoch), epoch, kind, rebuildsLeft + 1,
                sessions, result)
      decreases rebuildsLeft
    {
      ghost var world, past, low := net, history, epoch;
      var attempt, session := SubmitNow(kind);
      if session.None? {
        SubmittedNothing(world, net, history, low, epoch, kind, rebuildsLeft + 1);
        return Failed, [];
      }
      if attempt.NeverRan? && rebuildsLeft > 0 {
        ghost var found, between, latest := net, history, epoch;
        LeadsOnward(world, found);
        var later;
        result, later := Submit(kind, rebuildsLeft - 1);
        LeadsTransitive(world, found, net);
        LeadsOnward(found, net);
        SubmittedAgain(world, found, net, past, between, history, key, low, latest, epoch, kind, rebuildsLeft,
          session.value, attempt, later, result);
        return result, [session.value] + later;
      }
      result := if attempt.Finished? then attempt.result else AnswerOrThrow(NotRun, attempt.pending);
      SubmittedOne(world, net, past, history, key, low, epoch, kind, rebuildsLeft + 1, session.value,
        attempt, result);
      sessions := [session.value];
    }

    /** `#submit` as every request calls it: built again at most twice. */
    method SubmitRequest(kind: Kind) returns (result: CallResult, sessions: seq<Session>)
      requires Valid()
      modifies this`net, this`epoch, this`history
      ensures Valid() && Leads(old(net), net) && epoch >= old(epoch)
      ensures Submitted(old(net), net, old(history), history, old(epoch), epoch, kind, 3, sessions, result)
    {
      result, sessions := Submit(kind, REBUILDS_AFTER_EPOCH_CLOSE);
    }

    /** Sign a request that consumes a presign, for the presign's epoch: never a second time. */
    method SubmitWithPresign(presignEpoch: nat, kind: Kind) returns (result: CallResult, sessions: seq<Session>)
      requires Valid()
      modifies this`net, this`epoch, this`history
      ensures Valid() && Leads(old(net), net) && epoch >= old(epoch)
      ensures SubmittedWithPresign(old(net), net, old(history), history, presignEpoch, old(epoch), epoch, kind,
                sessions, result)
    {
      ghost var world, low := net, epoch;
      var seen, _ := ReadChainEpoch();
      if seen.None? {
        return Failed, [];
      }
      if seen.value > presignEpoch {
        return PresignExpiredWithTheEpoch(presignEpoch, seen.value), [];
      }
      ghost var asked, past := net, history;
      LeadsOnward(world, asked);
      var attempt, session := SubmitOnce(presignEpoch, kind);
      LeadsTransitive(world, asked, net);
      sessions := if session.Some? then [session.value] else [];
      result := if attempt.Finished? then attempt.result else PresignExpiredWithTheEpoch(presignEpoch, epoch);
      if session.Some? {
        AttemptedLater(world, asked, net, past, history, key, presignEpoch, kind, session.value, attempt);
        SubmittedOneStep(world, net, past, history, key, presignEpoch, low, epoch, kind, session.value, attempt,
          result);
      }
    }

    /**
     * Take a presign, and run the step with it: the step names the epoch of
     * the presign that was answered. `one` is the step's session.
     */
    method TakeAndStep(kind: Kind) returns (result: CallResult, one: seq<Session>)
      requires Valid()
      modifies this`net, this`epoch, this`history
      ensures Valid() && Leads(old(net), net) && PastStays(old(history), history)
      ensures old(history).signed <= history.signed && |history.signed| <= |old(history).signed| + 4
      ensures SteppedOnce(old(net), net, history, kind, one, result)
    {
      ghost var world, past, low := net, history, epoch;
      var taken, presigns := SubmitRequest(Presign);
      ghost var holding, has := net, history;
      LeadsOnward(world, holding);
      PresignTaken(world, net, past, history, low, epoch, 3, presigns, taken);
      var checked: bool := *;
      if !taken.Answered? || !checked {
        // No presign, or one that failed its check.
        return (if taken.Answered? then Failed else taken), [];
      }
      ghost var shown := epoch;
      result, one := SubmitWithPresign(presigns[|presigns| - 1].epoch, kind);
      LeadsTransitive(world, holding, net);
      LeadsOnward(holding, net);
      PastStaysOnward(past, has, history);
      TakenThenStepped(world, holding, net, has, history, presigns[|presigns| - 1], shown, epoch, kind, one, result);
    }

    /**
     * Run a step that consumes a presign with the caller's, or with one this
     * call takes, replaced when it expires before the step is sent. Returns
     * the sessions of the steps it signed; `attempts` counts the presigns.
     */
    method WithPresign(presign: Option<nat>, kind: Kind)
      returns (result: CallResult, sessions: seq<Session>, ghost attempts: nat)
      requires Valid()
      modifies this`net, this`epoch, this`history
      ensures Valid() && Leads(old(net), net) && PastStays(old(history), history)
      ensures StepsTaken(old(net), net, history, sessions, kind, result)
      // The caller's presign is used as it is; a call's own is replaced until none of three was in time.
      ensures presign.Some? ==>
                SubmittedWithPresign(old(net), net, old(history), history, presign.value, old(epoch), epoch, kind,
                  sessions, result)
      ensures presign.None? ==>
                && |sessions| <= attempts <= 3 && (result.PresignExpiredWithTheEpoch? ==> attempts == 3)
                && |history.signed| <= |old(history).signed| + 4 * attempts
    {
      ghost var world, past := net, history;
      sessions := [];
      LeadsToItself(net);
      if presign.Some? {
        ghost var shown := epoch;
        result, sessions := SubmitWithPresign(presign.value, kind);
        LeadsOnward(world, net);
        OnlyOneStep(world, net, past, history, presign.value, shown, epoch, sessions, kind, result);
        return result, sessions, 0;
      }
      attempts := 1;
      var attempt := 1;
      while true
        invariant Valid() && Leads(world, net)
        invariant PastStays(past, history)
        invariant 1 <= attempt == attempts <= OWN_PRESIGN_ATTEMPTS && |sessions| < attempt
        invariant |history.signed| <= |past.signed| + 4 * (attempt - 1)
        invariant StepsSoFar(world, net, history, sessions, kind)
        decreases OWN_PRESIGN_ATTEMPTS - attempt
      {
        ghost var before, had := net, history;
        var one;
        result, one := TakeAndStep(kind);
        LeadsTransitive(world, before, net);
        LeadsOnward(world, before);
        LeadsOnward(before, net);
        PastStaysOnward(past, had, history);
        OneMoreStep(world, before, net, had, history, sessions, one, kind, result);
        sessions := sessions + one;
        if !result.PresignExpiredWithTheEpoch? || attempt >= OWN_PRESIGN_ATTEMPTS {
          return;
        }
        attempt, attempts := attempt + 1, attempts + 1;
      }
    }

    /** What became of a request the caller kept: it reads only the chain. */
    method ResolveSession(pending: PendingRequest) returns (status: Resolution, ghost read: Option<Outcome>)
      requires Valid()
      requires pending.session in net.sent && net.sent[pending.session] == pending.kind
      modifies this`net, this`epoch
      ensures Valid() && Leads(old(net), net)
      ensures status == MayBeSentAgain ==> Dead(net, pending.session)
      ensures status.Resolved? && status.record.ChargeRecord? ==> pending.session in net.sequenced
      ensures match status
              case Waiting(chainEpoch, settledAt) =>
                chainEpoch < settledAt == SettledAtEpoch(pending)
              case Resolved(record) =>
                || ShownBy(net.chain, pending, Ran(record))
                || (record == SignatureInVoucher && exists x :: ShownBy(net.chain, pending, Signature(x)))
              case MayBeSentAgain => ShownBy(net.chain, pending, NotRun)
              case Unresolved => ShownBy(net.chain, pending, Unknown)
              case Unreadable => true
      ensures read.Some? ==>
                && ShownBy(net.chain, pending, read.value)
                && (status.Resolved? <==> read.value.Ran? || read.value.Signature?)
                && (status == MayBeSentAgain <==> read.value == NotRun)
                && (status == Unresolved <==> read.value == Unknown)
      ensures read.None? ==> status.Waiting? || status == Unreadable
    {
      ghost var world := net;
      Interfere();
      LeadsOnward(world, net);
      var stale: nat := *;
      var chainEpoch: nat := if 0 <= stale <= net.shown then stale else net.shown;
      var settledAt := SettledAtEpoch(pending);
      if chainEpoch < settledAt {
        return Waiting(chainEpoch, settledAt), None;
      }
      ghost var before := net;
      var outcome := LookUp(pending.session, pending.kind);
      LeadsTransitive(world, before, net);
      read := outcome;
      match outcome {
        case None => status := Unreadable;
        case Some(NotRun) => status := MayBeSentAgain;
        case Some(Ran(record)) => status := Resolved(record);
        case Some(Signature(_)) => status := Resolved(SignatureInVoucher);
        case Some(Unknown) => status := Unresolved;
      }
    }
  }

  /** `resolveSession`'s answer; `Unreadable` is a read that failed. */
  datatype Resolution =
    | Waiting(chainEpoch: nat, settledAt: nat)
    | Resolved(record: Found)
    | MayBeSentAgain
    | Unresolved
    | Unreadable
}
