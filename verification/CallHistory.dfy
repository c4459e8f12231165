/**
 * What one connection signed, what it was answered, and what it may make of
 * that (sdk/core/src/common/engine.ts): the vocabulary of the contracts in
 * `Engine`, over values, with the steps by which a call's history grows.
 */
module CallHistory {
  import opened Common
  import opened RequestRecords
  import opened SessionNetwork

  datatype ErrorMessage =
    | NoGasDeposit
    | EpochMismatch(request: nat, current: nat)
    | OtherMessage

  datatype Response =
    | SignatureAnswer(signature: SignatureBytes)
    | AttestationAnswer(attestation: nat)
    | ErrorAnswer(message: ErrorMessage)

  /** What one `submitTransaction` gives. */
  datatype Transmission = Replied(response: Response) | EpochClosing | Retryable | OtherFailure

  /** What `SignAndSend` gives: an answer, an epoch that closed first, or an error. */
  datatype SendResult = Answer(response: Response) | Closed | Threw

  datatype CallResult =
    | Answered(response: Response)
    | RanBeforeAnswer(record: Found)
    | EpochClosedBeforeAnswer(pending: PendingRequest)
    | PresignExpiredWithTheEpoch(presignEpoch: nat, chainEpoch: nat)
    | Failed

  /** What one session came to. */
  datatype Attempt = Finished(result: CallResult) | NeverRan(pending: PendingRequest)

  /** The replies each signed request's copies got, in order: one reply a copy. */
  type Replies = map<Session, seq<Transmission>>

  /** The past of a connection. */
  datatype History = History(
    signed: seq<Session>,               // the sessions of the requests it signed, one each
    replies: Replies,
    outcomes: map<Session, Outcome>)    // what it took for the outcome where an epoch closed first
  {
    ghost predicate Valid() {
      && (forall s :: s in replies <==> s in signed)
      && outcomes.Keys <= replies.Keys
    }

    function Looked(session: Session): Option<Outcome> {
      if session in outcomes then Some(outcomes[session]) else None
    }

    /** The last reply to a copy of `session`'s request, when a copy was sent. */
    function LastReply(session: Session): Option<Transmission> {
      if session in replies && replies[session] != [] then
        Some(replies[session][|replies[session]| - 1])
      else None
    }
  }

  // ── The replies to one request ───────────────────────────────────────────

  /** All that happened between `before` and `after` is that copies of one signed request were sent. */
  ghost predicate OnlyCopiesOf(before: History, after: History, session: Session) {
    && session in before.replies && session in after.replies
    && before.replies[session] <= after.replies[session]
    && after == before.(replies := before.replies[session := after.replies[session]])
  }

  /** One more copy of it, and its reply. */
  lemma OneMoreCopy(before: History, between: History, after: History, session: Session, reply: Transmission)
    requires OnlyCopiesOf(before, between, session)
    requires after == between.(replies := between.replies[session := between.replies[session] + [reply]])
    ensures OnlyCopiesOf(before, after, session)
    ensures after.LastReply(session) == Some(reply)
  {
  }

  /** And the same where every earlier one met with `unread`, from the `from`th on. */
  lemma OneMoreUnread(before: History, between: History, after: History, session: Session,
      reply: Transmission, from: int, unread: Transmission)
    requires OnlyCopiesOf(before, between, session)
    requires between.LastReply(session) == Some(unread) && AllButLast(between.replies[session], from, unread)
    requires after == between.(replies := between.replies[session := between.replies[session] + [reply]])
    ensures OnlyCopiesOf(before, after, session)
    ensures after.LastReply(session) == Some(reply) && AllButLast(after.replies[session], from, unread)
  {
  }

  lemma CopiesAgain(before: History, between: History, after: History, session: Session)
    requires OnlyCopiesOf(before, between, session) && OnlyCopiesOf(between, after, session)
    ensures OnlyCopiesOf(before, after, session)
  {
  }

  /** Every copy but the last met with `reply`, from the `from`th on. */
  ghost predicate AllButLast(replies: seq<Transmission>, from: int, reply: Transmission) {
    forall i | 0 <= i < |replies| - 1 :: from <= i ==> replies[i] == reply
  }

  /** A validator says that the request's epoch is closing, or that the network is past it. */
  ghost predicate SaysClosed(reply: Transmission, epoch: nat) {
    || reply == EpochClosing
    || exists current: nat | current > epoch :: reply == Replied(ErrorAnswer(EpochMismatch(epoch, current)))
  }

  /** No validator that replied so ran the copy: the same bytes may be sent again. */
  ghost predicate ResentOnly(replies: seq<Transmission>) {
    forall i | 0 <= i < |replies| - 1 ::
      replies[i] == Retryable || replies[i] == Replied(ErrorAnswer(NoGasDeposit))
  }

  lemma ResentThenUnread(before: seq<Transmission>, after: seq<Transmission>)
    requires before != [] && before <= after
    requires AllButLast(before, 0, Retryable)
    requires AllButLast(after, |before| - 1, Replied(ErrorAnswer(NoGasDeposit)))
    ensures ResentOnly(after)
  {
    forall i | 0 <= i < |after| - 1
      ensures after[i] == Retryable || after[i] == Replied(ErrorAnswer(NoGasDeposit))
    {
      if i < |before| - 1 {
        assert after[i] == before[i];
      }
    }
  }

  /** What a transmission that ended the sending gives. */
  ghost predicate EndsTheSending(reply: Transmission, result: SendResult) {
    match reply
    case Replied(response) => result == Answer(response)
    case EpochClosing => result == Closed
    case _ => result == Threw
  }

  /** What `SignAndSend` makes of the last reply. */
  ghost predicate SendEndsAs(reply: Transmission, epoch: nat, result: SendResult) {
    match result
    case Closed => SaysClosed(reply, epoch)
    case Answer(response) => reply == Replied(response) && !SaysClosed(reply, epoch)
    case Threw => reply == Retryable || reply == OtherFailure
  }

  /** The validator's epoch, when `answer` refuses a request signed for the earlier `sentEpoch`. */
  function StaleEpochRefusal(answer: Response, sentEpoch: nat): Option<nat> {
    match answer
    case ErrorAnswer(EpochMismatch(request, current)) =>
      if request != sentEpoch then None else if current > sentEpoch then Some(current) else None
    case _ => None
  }

  lemma StaleMeansClosed(response: Response, epoch: nat)
    ensures StaleEpochRefusal(response, epoch).Some? <==> SaysClosed(Replied(response), epoch)
  {
    if StaleEpochRefusal(response, epoch).Some? {
      assert Replied(response) == Replied(ErrorAnswer(EpochMismatch(epoch, response.message.current)));
    }
  }

  // ── The lookups ──────────────────────────────────────────────────────────

  /** The chain showed `outcome` for the request, at some moment up to `now`. */
  ghost predicate ShownBy(now: Chain, pending: PendingRequest, outcome: Outcome) {
    exists chain :: Grows(chain, now) && FindSession(pending, chain) == outcome
  }

  /** The chain showed it not before it was `start`. */
  ghost predicate ShownBetween(start: Chain, now: Chain, pending: PendingRequest, outcome: Outcome) {
    exists chain :: Grows(start, chain) && Grows(chain, now) && FindSession(pending, chain) == outcome
  }

  /** What the chain as it was in between gives away. */
  lemma LookedUp(start: Net, end: Net, between: Chain, session: Session, kind: Kind, outcome: Outcome)
    requires Inv(start) && Inv(end) && Onward(start, end)
    requires session in start.sent && start.sent[session] == kind
    requires SettledAtEpoch(PendingRequest(session, kind)) <= start.shown
    requires Grows(start.chain, between) && Grows(between, end.chain)
    requires FindSession(PendingRequest(session, kind), between) == outcome
    ensures ShownBetween(start.chain, end.chain, PendingRequest(session, kind), outcome)
    ensures ShownBy(end.chain, PendingRequest(session, kind), outcome)
    ensures outcome == NotRun ==> Dead(end, session) && !kind.Dkg? && !kind.ImportedKey?
    ensures outcome.Ran? && outcome.record.ChargeRecord? ==> session in end.sequenced
  {
    if outcome == NotRun {
      NotRunIsDead(start, between, session);
      NotRunMeansNoTrace(PendingRequest(session, kind), between);
    } else if outcome.Ran? && outcome.record.ChargeRecord? {
      ChargedMeansRan(end, between, session, kind);
    }
  }

  function AnswerOrThrow(outcome: Outcome, pending: PendingRequest): CallResult {
    match outcome
    case Signature(signature) => Answered(SignatureAnswer(signature))
    case Ran(record) => RanBeforeAnswer(record)
    case _ => EpochClosedBeforeAnswer(pending)
  }

  // ── One session ──────────────────────────────────────────────────────────

  /**
   * What one session's last reply, and the lookup made for it, come to. Where
   * the lookup says that the request never ran, `result` is `repeated`.
   */
  ghost predicate EndsAs(history: History, session: Session, kind: Kind, result: CallResult, repeated: CallResult) {
    match history.LastReply(session)
    case None => false
    case Some(reply) =>
      if SaysClosed(reply, session.epoch) then
        (match history.Looked(session)
         case None => false
         case Some(NotRun) => result == repeated
         case Some(Signature(signature)) => result == Answered(SignatureAnswer(signature))
         case Some(Ran(record)) => result == RanBeforeAnswer(record)
         case Some(Unknown) => result == EpochClosedBeforeAnswer(PendingRequest(session, kind)))
      else
        && history.Looked(session).None?
        && result == if reply.Replied? then Answered(reply.response) else Failed
  }

  /** A validator said that the session's epoch closed, and the chain that it never ran. */
  ghost predicate ClosedAndNotRun(history: History, session: Session) {
    && history.LastReply(session).Some?
    && SaysClosed(history.LastReply(session).value, session.epoch)
    && history.Looked(session) == Some(NotRun)
  }

  /** The requests signed before keep their replies, and the outcomes looked for. */
  ghost predicate PastStays(before: History, after: History) {
    forall s <- before.replies ::
      && s in after.replies && after.replies[s] == before.replies[s]
      && after.Looked(s) == before.Looked(s)
  }

  /** One session of this call: signed for `epoch`, sent, and looked up when its epoch closed first. */
  ghost predicate Attempted(world: Net, now: Net, before: History, after: History,
      key: TransportKey, epoch: nat, kind: Kind, session: Session, attempt: Attempt)
  {
    && session.epoch == epoch && session.signer == key
    && session !in world.sent && session in now.sent && now.sent[session] == kind
    && after.signed == before.signed + [session]
    && session !in before.replies && session in after.replies && ResentOnly(after.replies[session])
    && PastStays(before, after)
    && (attempt.NeverRan? <==> ClosedAndNotRun(after, session))
    && (attempt.NeverRan? ==>
          && attempt.pending == PendingRequest(session, kind)
          && Dead(now, session) && !kind.Dkg? && !kind.ImportedKey?)
    && (attempt.Finished? ==>
          EndsAs(after, session, kind, attempt.result, EpochClosedBeforeAnswer(PendingRequest(session, kind))))
    && LastIsShown(now, after, [session], kind)
  }

  /** One request was signed, under a new session, and copies of it were sent: nothing else happened. */
  ghost predicate SignedOnce(world: Net, now: Net, before: History, after: History,
      key: TransportKey, epoch: nat, kind: Kind, session: Session)
  {
    && session.epoch == epoch && session.signer == key
    && session !in world.sent && session in now.sent && now.sent[session] == kind
    && session !in before.replies && session in after.replies
    && after == before.(signed := before.signed + [session],
                        replies := before.replies[session := after.replies[session]])
    && after.LastReply(session).Some? && ResentOnly(after.replies[session])
  }

  /** It is signed, then its copies are sent. */
  lemma SignedThenSent(world: Net, asked: Net, ready: Net, now: Net, before: History, signed: History, after: History,
      key: TransportKey, epoch: nat, kind: Kind, session: Session)
    requires Onward(world, asked) && Onward(ready, now)
    requires session !in asked.sent && session.epoch == epoch && session.signer == key
    requires session in ready.sent && ready.sent[session] == kind
    requires session !in before.replies
    requires signed == before.(signed := before.signed + [session], replies := before.replies[session := []])
    requires OnlyCopiesOf(signed, after, session)
    requires after.LastReply(session).Some? && ResentOnly(after.replies[session])
    ensures SignedOnce(world, now, before, after, key, epoch, kind, session)
  {
  }

  lemma AnsweredAttempt(world: Net, now: Net, before: History, after: History,
      key: TransportKey, epoch: nat, kind: Kind, session: Session, sent: SendResult)
    requires before.Valid() && SignedOnce(world, now, before, after, key, epoch, kind, session)
    requires SendEndsAs(after.LastReply(session).value, epoch, sent) && !sent.Closed?
    ensures Attempted(world, now, before, after, key, epoch, kind, session,
              Finished(if sent.Answer? then Answered(sent.response) else Failed))
  {
  }

  lemma LookedUpAttempt(world: Net, closed: Net, now: Net, before: History, between: History,
      key: TransportKey, epoch: nat, kind: Kind, session: Session, outcome: Outcome)
    requires before.Valid() && SignedOnce(world, closed, before, between, key, epoch, kind, session)
    requires SendEndsAs(between.LastReply(session).value, epoch, Closed) && Onward(closed, now)
    requires outcome != Unknown ==> ShownBy(now.chain, PendingRequest(session, kind), outcome)
    requires outcome == NotRun ==> Dead(now, session) && !kind.Dkg? && !kind.ImportedKey?
    requires outcome.Ran? && outcome.record.ChargeRecord? ==> session in now.sequenced
    ensures
      var pending := PendingRequest(session, kind);
      var attempt := if outcome == NotRun then NeverRan(pending) else Finished(AnswerOrThrow(outcome, pending));
      Attempted(world, now, before, between.(outcomes := between.outcomes[session := outcome]),
        key, epoch, kind, session, attempt)
  {
    var after := between.(outcomes := between.outcomes[session := outcome]);
    assert after.LastReply(session) == between.LastReply(session);
    assert after.Looked(session) == Some(outcome);
  }

  /** What the last of `sessions` is taken for is what the chain showed, and a charge is of a session that ran. */
  ghost predicate LastIsShown(now: Net, history: History, sessions: seq<Session>, kind: Kind) {
    sessions != [] ==>
      var last := sessions[|sessions| - 1];
      history.Looked(last).Some? && history.Looked(last).value != Unknown ==>
        && ShownBy(now.chain, PendingRequest(last, kind), history.Looked(last).value)
        && (history.Looked(last).value.Ran? && history.Looked(last).value.record.ChargeRecord? ==>
              last in now.sequenced)
  }

  // ── One call, session after session ──────────────────────────────────────

  /** Every session but the last is dead. */
  ghost predicate OnlyTheLastMayRun(net: Net, sessions: seq<Session>) {
    && (forall i | 0 <= i < |sessions| :: sessions[i] in net.sent)
    && (forall i | 0 <= i < |sessions| - 1 :: Dead(net, sessions[i]))
  }

  ghost predicate EpochsIncrease(sessions: seq<Session>) {
    forall i, j | 0 <= i < j < |sessions| :: sessions[i].epoch < sessions[j].epoch
  }

  /** Of such sessions, at most one is ever run, whatever the network does later. */
  lemma AtMostOneEverRuns(net: Net, sessions: seq<Session>, later: Net, i: nat, j: nat)
    requires OnlyTheLastMayRun(net, sessions) && Leads(net, later)
    requires i < |sessions| && j < |sessions|
    requires sessions[i] in later.sequenced && sessions[j] in later.sequenced
    ensures i == j == |sessions| - 1
  {
    LeadsOnward(net, later);
    forall k | 0 <= k < |sessions| - 1 ensures sessions[k] !in later.sequenced {
      assert Dead(net, sessions[k]);
    }
  }

  /** Where all are dead, none may run, the last one included. */
  lemma DeadMayNotRun(net: Net, sessions: seq<Session>)
    requires forall s <- sessions :: Dead(net, s)
    ensures OnlyTheLastMayRun(net, sessions)
  {
    forall i | 0 <= i < |sessions| ensures Dead(net, sessions[i]) { assert sessions[i] in sessions; }
  }

  /** New sessions, of requests of one kind, for epochs from `low` to `high`. */
  ghost predicate Opened(before: Net, after: Net, sessions: seq<Session>, kind: Kind, low: nat, high: nat) {
    forall s <- sessions ::
      s !in before.sent && low <= s.epoch <= high && s in after.sent && after.sent[s] == kind
  }

  /** A call that may sign `most` sessions ends as its last one ends; only where none ran may it sign another. */
  ghost predicate SubmitEndsAs(history: History, sessions: seq<Session>, kind: Kind, most: nat, result: CallResult) {
    && (forall i | 0 <= i < |sessions| - 1 :: ClosedAndNotRun(history, sessions[i]))
    && (sessions == [] ==> result == Failed)
    && (sessions != [] ==>
          var last := sessions[|sessions| - 1];
          EndsAs(history, last, kind, result,
            if |sessions| == most then EpochClosedBeforeAnswer(PendingRequest(last, kind)) else Failed))
  }

  /**
   * A whole `Submit` that may sign `most` sessions: which sessions it opened,
   * that only the last of them may run, and what its result rests on. Where
   * the last one never ran, either no more may be signed, or the next could
   * not be.
   */
  ghost predicate Submitted(world: Net, now: Net, before: History, after: History,
      low: nat, high: nat, kind: Kind, most: nat, sessions: seq<Session>, result: CallResult)
  {
    && |sessions| <= most && (kind.Dkg? || kind.ImportedKey? ==> |sessions| <= 1)
    && after.signed == before.signed + sessions && PastStays(before, after)
    && Opened(world, now, sessions, kind, low, high)
    && OnlyTheLastMayRun(now, sessions) && EpochsIncrease(sessions)
    && (forall s <- sessions :: s in after.replies && ResentOnly(after.replies[s]))
    && SubmitEndsAs(after, sessions, kind, most, result)
    && LastIsShown(now, after, sessions, kind)
  }

  lemma SubmittedNothing(world: Net, now: Net, history: History, low: nat, high: nat, kind: Kind, most: nat)
    ensures Submitted(world, now, history, history, low, high, kind, most, [], Failed)
  {
  }

  /** The one session of this call is its last. */
  lemma SubmittedOne(world: Net, now: Net, before: History, after: History,
      key: TransportKey, low: nat, high: nat, kind: Kind, most: nat, session: Session, attempt: Attempt,
      result: CallResult)
    requires most > 0 && low <= session.epoch <= high
    requires Attempted(world, now, before, after, key, session.epoch, kind, session, attempt)
    requires attempt.NeverRan? ==> most == 1
    requires result == match attempt
                       case Finished(done) => done
                       case NeverRan(pending) => EpochClosedBeforeAnswer(pending)
    ensures Submitted(world, now, before, after, low, high, kind, most, [session], result)
  {
  }

  /** The session never ran: what follows is one submission fewer, and goes before it. */
  lemma SubmittedAgain(world: Net, found: Net, now: Net, before: History, between: History, after: History,
      key: TransportKey, low: nat, latest: nat, high: nat, kind: Kind, most: nat, session: Session,
      attempt: Attempt, sessions: seq<Session>, result: CallResult)
    requires Onward(found, now) && most > 0 && low <= session.epoch < latest <= high
    requires Onward(world, found)
    requires Attempted(world, found, before, between, key, session.epoch, kind, session, attempt)
    requires attempt.NeverRan?
    requires Submitted(found, now, between, after, latest, high, kind, most, sessions, result)
    ensures Submitted(world, now, before, after, low, high, kind, most + 1, [session] + sessions, result)
  {
    PastStaysOnward(before, between, after);
    AgainAnswered(before, between, after, session, sessions);
    DeadThenLater(found, now, session, sessions);
    OpenedThenLater(world, found, now, session, sessions, kind, low, latest, high);
    EndsLater(now, after, session, sessions, kind, most, result);
  }

  lemma AgainAnswered(before: History, between: History, after: History, session: Session, sessions: seq<Session>)
    requires between.signed == before.signed + [session] && after.signed == between.signed + sessions
    requires session in between.replies && ResentOnly(between.replies[session])
    requires ClosedAndNotRun(between, session) && PastStays(between, after)
    requires forall s <- sessions :: s in after.replies && ResentOnly(after.replies[s])
    ensures after.signed == before.signed + ([session] + sessions)
    ensures forall s <- [session] + sessions :: s in after.replies && ResentOnly(after.replies[s])
    ensures ClosedAndNotRun(after, session)
  {
  }

  /** A session found dead, then the sessions of the later attempts. */
  lemma DeadThenLater(found: Net, later: Net, own: Session, sessions: seq<Session>)
    requires Dead(found, own) && Onward(found, later)
    requires OnlyTheLastMayRun(later, sessions) && EpochsIncrease(sessions)
    requires forall s <- sessions :: s.epoch > own.epoch
    ensures OnlyTheLastMayRun(later, [own] + sessions) && EpochsIncrease([own] + sessions)
  {
    assert Dead(later, own);
  }

  lemma EndsLater(now: Net, history: History, first: Session, sessions: seq<Session>,
      kind: Kind, most: nat, result: CallResult)
    requires ClosedAndNotRun(history, first) && most > 0
    requires SubmitEndsAs(history, sessions, kind, most, result) && LastIsShown(now, history, sessions, kind)
    requires sessions == [] ==> LastIsShown(now, history, [first], kind)
    ensures SubmitEndsAs(history, [first] + sessions, kind, most + 1, result)
    ensures LastIsShown(now, history, [first] + sessions, kind)
  {
    var all := [first] + sessions;
    assert forall i | 1 <= i < |all| :: all[i] == sessions[i - 1];
    if sessions != [] {
      assert all[|all| - 1] == sessions[|sessions| - 1];
    }
  }

  lemma PastStaysOnward(before: History, between: History, after: History)
    requires PastStays(before, between) && PastStays(between, after)
    ensures PastStays(before, after)
  {
  }

  lemma OpenedThenLater(before: Net, found: Net, after: Net, first: Session, sessions: seq<Session>,
      kind: Kind, low: nat, between: nat, high: nat)
    requires Onward(before, found) && Onward(found, after) && low <= between <= high
    requires first !in before.sent && low <= first.epoch <= between && first in found.sent && found.sent[first] == kind
    requires Opened(found, after, sessions, kind, between, high)
    ensures Opened(before, after, [first] + sessions, kind, low, high)
  {
  }

  /** An attempt, told from an earlier moment. */
  lemma AttemptedLater(world: Net, asked: Net, now: Net, before: History, after: History,
      key: TransportKey, epoch: nat, kind: Kind, session: Session, attempt: Attempt)
    requires Onward(world, asked)
    requires Attempted(asked, now, before, after, key, epoch, kind, session, attempt)
    ensures Attempted(world, now, before, after, key, epoch, kind, session, attempt)
  {
  }

  // ── Steps that consume a presign ─────────────────────────────────────────

  /**
   * A step that consumes a presign of `presignEpoch`, with `low` and `epoch`
   * the latest epochs the chain showed before and after: at most one session,
   * for that epoch; nothing is signed when the chain is past it, and the
   * presign is called expired there, or where the session never ran.
   */
  ghost predicate SubmittedWithPresign(world: Net, now: Net, before: History, after: History,
      presignEpoch: nat, low: nat, epoch: nat, kind: Kind, sessions: seq<Session>, result: CallResult)
  {
    && (low > presignEpoch ==> sessions == [])
    && |sessions| <= 1 && after.signed == before.signed + sessions && PastStays(before, after)
    && Opened(world, now, sessions, kind, presignEpoch, presignEpoch)
    && (sessions == [] ==>
          || result == Failed
          || (result == PresignExpiredWithTheEpoch(presignEpoch, epoch) && epoch > presignEpoch))
    && (sessions != [] ==>
          && sessions[0] in after.replies && ResentOnly(after.replies[sessions[0]])
          && EndsAs(after, sessions[0], kind, result, PresignExpiredWithTheEpoch(presignEpoch, epoch)))
    && LastIsShown(now, after, sessions, kind)
    && (result.PresignExpiredWithTheEpoch? ==>
          && (forall s <- sessions :: Dead(now, s)) && presignEpoch < epoch
          && (kind.Dkg? || kind.ImportedKey? ==> sessions == []))
  }

  lemma SubmittedOneStep(world: Net, now: Net, before: History, after: History,
      key: TransportKey, presignEpoch: nat, low: nat, epoch: nat, kind: Kind, session: Session, attempt: Attempt,
      result: CallResult)
    requires low <= presignEpoch
    requires Attempted(world, now, before, after, key, presignEpoch, kind, session, attempt)
    requires attempt.NeverRan? ==> epoch > presignEpoch
    requires result == match attempt
                       case Finished(done) => done
                       case NeverRan(_) => PresignExpiredWithTheEpoch(presignEpoch, epoch)
    ensures SubmittedWithPresign(world, now, before, after, presignEpoch, low, epoch, kind, [session], result)
  {
  }

  /** The steps whose presigns expired: none of them ran or may run. */
  ghost predicate StepsSoFar(world: Net, now: Net, history: History, sessions: seq<Session>, kind: Kind) {
    forall s <- sessions ::
      s !in world.sent && s in now.sent && now.sent[s] == kind && s in history.signed && Dead(now, s)
  }

  lemma StepsStay(world: Net, earlier: Net, later: Net, before: History, after: History,
      sessions: seq<Session>, kind: Kind)
    requires Onward(earlier, later) && before.signed <= after.signed
    requires StepsSoFar(world, earlier, before, sessions, kind)
    ensures StepsSoFar(world, later, after, sessions, kind)
  {
  }

  /** No such step may run but the last, and none where the result is that the presign expired. */
  ghost predicate StepsTaken(world: Net, now: Net, history: History, sessions: seq<Session>, kind: Kind,
      result: CallResult)
  {
    && (forall s <- sessions ::
          s !in world.sent && s in now.sent && now.sent[s] == kind && s in history.signed)
    && OnlyTheLastMayRun(now, sessions)
    && (result.PresignExpiredWithTheEpoch? ==> forall s <- sessions :: Dead(now, s))
  }

  /**
   * A presign that was taken was answered: the last session the call signed
   * for it is new, and its last reply is the answer. Taking one never ends
   * with an expired presign.
   */
  lemma PresignTaken(world: Net, now: Net, before: History, after: History, low: nat, high: nat, most: nat,
      sessions: seq<Session>, taken: CallResult)
    requires Submitted(world, now, before, after, low, high, Presign, most, sessions, taken)
    ensures !taken.PresignExpiredWithTheEpoch?
    ensures taken.Answered? ==>
              && sessions != []
              && IsAnsweredPresign(world, now, after, sessions[|sessions| - 1])
  {
    if taken.Answered? {
      var last := sessions[|sessions| - 1];
      assert last in sessions;
      if SaysClosed(after.LastReply(last).value, last.epoch) {
        var pending := PendingRequest(last, Presign);
        var chain :| Grows(chain, now.chain) && FindSession(pending, chain) == after.Looked(last).value;
        FoundExactly(pending, chain);
        assert false;
      }
    }
  }

  /** A presign request opened since `world`, whose last copy a validator answered before its epoch closed. */
  ghost predicate IsAnsweredPresign(world: Net, now: Net, history: History, session: Session) {
    && session !in world.sent && session in now.sent && now.sent[session] == Presign
    && session in history.signed
    && history.LastReply(session).Some? && history.LastReply(session).value.Replied?
    && !SaysClosed(history.LastReply(session).value, session.epoch)
  }

  /** One presign taken, and the step it was taken for. */
  ghost predicate SteppedOnce(world: Net, now: Net, history: History, kind: Kind, one: seq<Session>,
      result: CallResult)
  {
    && |one| <= 1
    && (forall s <- one ::
          && s !in world.sent && s in now.sent && now.sent[s] == kind && s in history.signed
          && exists presign <- history.signed ::
               IsAnsweredPresign(world, now, history, presign) && presign.epoch == s.epoch)
    && (result.PresignExpiredWithTheEpoch? ==> forall s <- one :: Dead(now, s))
  }

  lemma TakenThenStepped(world: Net, holding: Net, now: Net, has: History, after: History, presign: Session,
      low: nat, epoch: nat, kind: Kind, one: seq<Session>, result: CallResult)
    requires Onward(world, holding) && Onward(holding, now)
    requires IsAnsweredPresign(world, holding, has, presign) && presign in has.replies
    requires SubmittedWithPresign(holding, now, has, after, presign.epoch, low, epoch, kind, one, result)
    ensures SteppedOnce(world, now, after, kind, one, result)
  {
    assert IsAnsweredPresign(world, now, after, presign);
  }

  lemma OnlyOneStep(world: Net, now: Net, before: History, after: History,
      presignEpoch: nat, low: nat, epoch: nat, sessions: seq<Session>, kind: Kind, result: CallResult)
    requires SubmittedWithPresign(world, now, before, after, presignEpoch, low, epoch, kind, sessions, result)
    ensures StepsTaken(world, now, after, sessions, kind, result)
  {
  }

  lemma OneMoreStep(world: Net, earlier: Net, later: Net, before: History, after: History,
      sessions: seq<Session>, one: seq<Session>, kind: Kind, result: CallResult)
    requires Onward(world, earlier) && Onward(earlier, later) && before.signed <= after.signed
    requires StepsSoFar(world, earlier, before, sessions, kind)
    requires SteppedOnce(earlier, later, after, kind, one, result)
    ensures StepsTaken(world, later, after, sessions + one, kind, result)
    ensures result.PresignExpiredWithTheEpoch? ==> StepsSoFar(world, later, after, sessions + one, kind)
  {
    StepsStay(world, earlier, later, before, after, sessions, kind);
    forall i | 0 <= i < |sessions| ensures Dead(later, (sessions + one)[i]) {
      assert (sessions + one)[i] in sessions;
    }
    forall s <- sessions + one
      ensures s !in world.sent && s in later.sent && later.sent[s] == kind && s in after.signed
      ensures result.PresignExpiredWithTheEpoch? ==> Dead(later, s)
    {
      assert s in sessions || s in one;
    }
  }
}
