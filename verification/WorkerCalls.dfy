/**
 * The calls sent to one worker, each waiting for its answer
 * (sdk/core/src/client/wasm-loader.ts).
 */
module WorkerCalls {
  import opened Common

  /** A worker's answer: the call it names, and its result or its error's message. */
  datatype Answer = Answer(id: int, body: Result<string, string>)

  /** What settled a call's promise; settling it again changes nothing. */
  datatype Settlement = ByAnswer(answer: Answer) | ByFailure(reason: string) | NotSent

  /** `sent` is whether the port took the message; one it cannot copy is thrown, inside the promise. */
  datatype Step =
    | Call(sent: bool)
    | Answered(answer: Answer)
    | Failed(reason: string)
    | Terminate

  // ── What should settle a call ────────────────────────────────────────────

  /** How many calls a run makes: a call's identifier is the number made before it. */
  function CallsIn(steps: seq<Step>): nat {
    if steps == [] then 0
    else CallsIn(steps[..|steps| - 1]) + if steps[|steps| - 1].Call? then 1 else 0
  }

  /** What one step settles the call `id` with, once it is made. */
  function SettlesWith(step: Step, id: nat): Option<Settlement> {
    match step
    case Call(_) => None
    case Answered(answer) => if answer.id == id then Some(ByAnswer(answer)) else None
    case Failed(reason) => Some(ByFailure(reason))
    case Terminate => Some(ByFailure("was stopped"))
  }

  /** The first thing after the call `id` that settles it: its own answer, or a failure of the worker. */
  function OutcomeOf(steps: seq<Step>, id: nat): Option<Settlement> {
    if steps == [] then None
    else
      var earlier, last := steps[..|steps| - 1], steps[|steps| - 1];
      if OutcomeOf(earlier, id).Some? then OutcomeOf(earlier, id)
      else if id < CallsIn(earlier) then SettlesWith(last, id)
      else if id == CallsIn(earlier) && last.Call? && !last.sent then Some(NotSent)
      else None
  }

  /** What a run has settled. */
  function SettledBy(steps: seq<Step>): map<nat, Settlement> {
    map id: nat | id < CallsIn(steps) && OutcomeOf(steps, id).Some? :: OutcomeOf(steps, id).value
  }

  /** The calls made that nothing has answered, and no failure cleared. */
  function WaitingIn(steps: seq<Step>): set<nat> {
    if steps == [] then {}
    else
      var earlier, last := steps[..|steps| - 1], steps[|steps| - 1];
      match last
      case Call(_) => WaitingIn(earlier) + {CallsIn(earlier)}
      case Answered(answer) => set id | id in WaitingIn(earlier) && id != answer.id
      case Failed(_) => {}
      case Terminate => {}
  }

  /** A call that does not wait is settled, and one that waits is not, unless its message was never sent. */
  lemma {:induction false} WaitingIsUnsettled(steps: seq<Step>, id: nat)
    ensures id in WaitingIn(steps) ==> id < CallsIn(steps)
    ensures id in WaitingIn(steps) && OutcomeOf(steps, id).Some? ==> OutcomeOf(steps, id) == Some(NotSent)
    ensures id < CallsIn(steps) && id !in WaitingIn(steps) ==> OutcomeOf(steps, id).Some?
  {
    if steps != [] {
      WaitingIsUnsettled(steps[..|steps| - 1], id);
      if id >= CallsIn(steps[..|steps| - 1]) {
        Settled(steps[..|steps| - 1], id);
      }
    }
  }

  lemma SentSettles(steps: seq<Step>, sent: bool)
    ensures CallsIn(steps + [Call(sent)]) == CallsIn(steps) + 1
    ensures WaitingIn(steps + [Call(sent)]) == WaitingIn(steps) + {CallsIn(steps)}
    ensures CallsIn(steps) !in SettledBy(steps)
    ensures SettledBy(steps + [Call(sent)]) == if sent then SettledBy(steps) else SettledBy(steps)[CallsIn(steps) := NotSent]
  {
    OneMoreStep(steps, Call(sent));
    assert (steps + [Call(sent)])[..|steps|] == steps;
    Settled(steps, CallsIn(steps));
  }

  lemma AnswerSettles(steps: seq<Step>, answer: Answer)
    ensures CallsIn(steps + [Answered(answer)]) == CallsIn(steps)
    ensures WaitingIn(steps + [Answered(answer)]) == set id | id in WaitingIn(steps) && id != answer.id
    ensures SettledBy(steps + [Answered(answer)]) ==
              if answer.id >= 0 && answer.id in WaitingIn(steps) && answer.id !in SettledBy(steps)
              then SettledBy(steps)[answer.id := ByAnswer(answer)] else SettledBy(steps)
  {
    OneMoreStep(steps, Answered(answer));
    assert (steps + [Answered(answer)])[..|steps|] == steps;
    if answer.id >= 0 {
      WaitingIsUnsettled(steps, answer.id);
    }
  }

  /** Every waiting call settled by the failure, unless its promise is settled already. */
  function AllSettled(waiting: set<nat>, settled: map<nat, Settlement>, reason: string): map<nat, Settlement> {
    map id | id in waiting + settled.Keys :: if id in settled then settled[id] else ByFailure(reason)
  }

  lemma FailureSettles(steps: seq<Step>, reason: string, step: Step)
    requires step == Failed(reason) || (step == Terminate && reason == "was stopped")
    ensures CallsIn(steps + [step]) == CallsIn(steps) && WaitingIn(steps + [step]) == {}
    ensures SettledBy(steps + [step]) == AllSettled(WaitingIn(steps), SettledBy(steps), reason)
  {
    OneMoreStep(steps, step);
    assert (steps + [step])[..|steps|] == steps;
    var after := AllSettled(WaitingIn(steps), SettledBy(steps), reason);
    forall id: nat ensures id in SettledBy(steps + [step]) <==> id in after {
      WaitingIsUnsettled(steps, id);
    }
  }

  // ── The calls ────────────────────────────────────────────────────────────

  class Calls {
    var nextId: nat
    var pending: set<nat>
    /** The settled promises. */
    var settled: map<nat, Settlement>
    /** Whether the port keeps the process alive. */
    var held: bool
    ghost var history: seq<Step>

    ghost predicate Valid() reads this {
      && nextId == CallsIn(history) && pending == WaitingIn(history) && settled == SettledBy(history)
      && (held <==> pending != {})
    }

    constructor ()
      ensures Valid() && history == [] && pending == {} && settled == map[] && nextId == 0
    {
      nextId, pending, settled, held, history := 0, {}, map[], false, [];
    }

    /** A new identifier, and a promise that waits for its answer. */
    method Send(sent: bool) returns (id: nat)
      requires Valid()
      modifies this
      ensures Valid() && history == old(history) + [Call(sent)]
      ensures id == old(nextId) && nextId == id + 1 && id in pending && id !in old(settled)
      ensures settled == if sent then old(settled) else old(settled)[id := NotSent]
    {
      id := nextId;
      SentSettles(history, sent);
      nextId := nextId + 1;
      if pending == {} {
        held := true;
      }
      pending := pending + {id};
      settled := if sent then settled else settled[id := NotSent];
      history := history + [Call(sent)];
    }

    /** An answer settles its own call when it waits; an unknown, repeated or late one settles nothing. */
    method Answer(answer: Answer)
      requires Valid()
      modifies this
      ensures Valid() && history == old(history) + [Answered(answer)] && nextId == old(nextId)
      ensures pending == set id | id in old(pending) && id != answer.id
      ensures forall id <- old(settled) :: id in settled && settled[id] == old(settled)[id]
      ensures forall id <- settled | id !in old(settled) :: id == answer.id && settled[id] == ByAnswer(answer)
      ensures answer.id >= 0 && answer.id in old(pending) ==> answer.id in settled
    {
      AnswerSettles(history, answer);
      history := history + [Answered(answer)];
      if answer.id < 0 || answer.id !in pending {
        assert pending == set id | id in pending && id != answer.id;
        return;
      }
      pending := set id | id in pending && id != answer.id;
      if pending == {} {
        held := false;
      }
      if answer.id !in settled {
        settled := settled[answer.id := ByAnswer(answer)];
      }
    }

    /** Every waiting call is rejected: the worker failed, or was stopped. */
    method Fail(reason: string, ghost step: Step)
      requires Valid() && (step == Failed(reason) || (step == Terminate && reason == "was stopped"))
      modifies this
      ensures Valid() && history == old(history) + [step] && nextId == old(nextId)
      ensures pending == {} && !held
      ensures forall id <- old(settled) :: id in settled && settled[id] == old(settled)[id]
      ensures forall id <- settled | id !in old(settled) :: id in old(pending) && settled[id] == ByFailure(reason)
      ensures old(pending) <= settled.Keys
    {
      FailureSettles(history, reason, step);
      settled := AllSettled(pending, settled, reason);
      pending := {};
      held := false;
      history := history + [step];
    }

    method Stop()
      requires Valid()
      modifies this
      ensures Valid() && history == old(history) + [Terminate] && pending == {} && !held
      ensures forall id <- old(settled) :: id in settled && settled[id] == old(settled)[id]
    {
      Fail("was stopped", Terminate);
    }
  }

  lemma OneMoreStep(history: seq<Step>, step: Step)
    ensures CallsIn(history + [step]) == CallsIn(history) + if step.Call? then 1 else 0
    ensures forall id: nat :: OutcomeOf(history + [step], id) ==
              if OutcomeOf(history, id).Some? then OutcomeOf(history, id)
              else if id < CallsIn(history) then SettlesWith(step, id)
              else if id == CallsIn(history) && step.Call? && !step.sent then Some(NotSent)
              else None
  {
    assert (history + [step])[..|history|] == history;
  }

  /** No call is settled before it is made. */
  lemma {:induction false} Settled(steps: seq<Step>, id: nat)
    requires id >= CallsIn(steps)
    ensures OutcomeOf(steps, id).None?
  {
    if steps != [] {
      Settled(steps[..|steps| - 1], id);
    }
  }

  // ── What every run keeps ─────────────────────────────────────────────────

  /** A settled call is never settled again, whatever comes later. */
  lemma {:induction false} SettledOnce(steps: seq<Step>, later: seq<Step>, id: nat)
    requires OutcomeOf(steps, id).Some?
    ensures OutcomeOf(steps + later, id) == OutcomeOf(steps, id)
  {
    if later == [] {
      assert steps + later == steps;
    } else {
      SettledOnce(steps, later[..|later| - 1], id);
      assert (steps + later)[..|steps + later| - 1] == steps + later[..|later| - 1];
    }
  }

  /** A call settled by an answer is settled by the first that names it, after the call and before any failure. */
  lemma {:induction false} OnlyItsOwnAnswer(steps: seq<Step>, id: nat)
    requires OutcomeOf(steps, id).Some? && OutcomeOf(steps, id).value.ByAnswer?
    ensures exists i | 0 <= i < |steps| ::
              && steps[i] == Answered(OutcomeOf(steps, id).value.answer) && steps[i].answer.id == id
              && id < CallsIn(steps[..i]) && OutcomeOf(steps[..i], id).None?
  {
    var n := |steps| - 1;
    if OutcomeOf(steps[..n], id).Some? {
      OnlyItsOwnAnswer(steps[..n], id);
      var i :| 0 <= i < n && steps[..n][i] == Answered(OutcomeOf(steps, id).value.answer) && steps[..n][i].answer.id == id
               && id < CallsIn(steps[..n][..i]) && OutcomeOf(steps[..n][..i], id).None?;
      assert steps[..n][..i] == steps[..i];
      assert steps[i] == Answered(OutcomeOf(steps, id).value.answer);
    } else {
      assert steps[n] == Answered(OutcomeOf(steps, id).value.answer);
    }
  }

  /** Two calls of one run never get the same identifier. */
  lemma {:induction false} IdentifiersDiffer(steps: seq<Step>, i: nat, j: nat)
    requires i < j < |steps| && steps[i].Call?
    ensures CallsIn(steps[..i]) < CallsIn(steps[..j])
  {
    assert steps[..j][..j - 1] == steps[..j - 1];
    if i + 1 < j {
      IdentifiersDiffer(steps, i, j - 1);
    } else {
      assert steps[..j][j - 1] == steps[i];
    }
  }

  /** The calls of a run that its port could not take, after its last failure. */
  predicate AllSent(steps: seq<Step>) {
    forall step <- steps | step.Call? :: step.sent
  }

  lemma {:induction false} SentAreNotThrown(steps: seq<Step>, id: nat)
    requires AllSent(steps)
    ensures OutcomeOf(steps, id) != Some(NotSent)
  {
    if steps != [] {
      SentAreNotThrown(steps[..|steps| - 1], id);
      assert steps[|steps| - 1] in steps;
    }
  }

  /** While the port takes every message, it is held exactly while a call is unsettled. */
  lemma HeldWhileUnsettled(calls: Calls)
    requires calls.Valid() && AllSent(calls.history)
    ensures calls.held <==> exists id :: 0 <= id < calls.nextId && id !in calls.settled
    ensures forall id: nat :: id in calls.pending <==> id < calls.nextId && id !in calls.settled
  {
    forall id: nat
      ensures id in calls.pending <==> id < calls.nextId && id !in calls.settled
    {
      SentAreNotThrown(calls.history, id);
      WaitingIsUnsettled(calls.history, id);
      if id >= calls.nextId { Settled(calls.history, id); }
    }
  }

  /** The settled calls that still wait are exactly those whose message was never sent. */
  lemma SettledStillWaiting(calls: Calls, id: nat)
    requires calls.Valid() && id in calls.settled
    ensures id in calls.pending ==> calls.settled[id].NotSent?
    ensures calls.settled[id].NotSent? && id !in calls.pending ==>
              exists i | 0 <= i < |calls.history| :: SettlesWith(calls.history[i], id).Some?
  {
    WaitingIsUnsettled(calls.history, id);
    if calls.settled[id].NotSent? && id !in calls.pending {
      Cleared(calls.history, id);
    }
  }

  /** A call leaves the waiting ones only by its own answer or a failure of the worker. */
  lemma {:induction false} Cleared(steps: seq<Step>, id: nat)
    requires id < CallsIn(steps) && id !in WaitingIn(steps)
    ensures exists i | 0 <= i < |steps| :: SettlesWith(steps[i], id).Some?
  {
    var n := |steps| - 1;
    if id < CallsIn(steps[..n]) && id !in WaitingIn(steps[..n]) {
      Cleared(steps[..n], id);
      var i :| 0 <= i < n && SettlesWith(steps[..n][i], id).Some?;
      assert SettlesWith(steps[i], id).Some?;
    } else {
      assert SettlesWith(steps[n], id).Some?;
    }
  }

  /**
   * In every state the port is held exactly while a call is unsettled if and
   * only if some waiting call is unsettled whenever any call waits: that is,
   * unless only calls whose message was never sent are left waiting.
   */
  lemma HeldExactly(calls: Calls)
    requires calls.Valid()
    ensures (calls.held <==> exists id :: 0 <= id < calls.nextId && id !in calls.settled) <==>
            (calls.pending != {} ==> exists id :: id in calls.pending && id !in calls.settled)
  {
    forall id: nat | id < calls.nextId && id !in calls.settled ensures id in calls.pending {
      WaitingIsUnsettled(calls.history, id);
    }
    forall id <- calls.pending ensures id < calls.nextId {
      WaitingIsUnsettled(calls.history, id);
    }
  }

  /** A call whose message the port cannot take is settled at once, yet still waits and keeps the port held. */
  method HeldByAnUnsentCall() returns (calls: Calls)
    ensures calls.Valid() && calls.history == [Call(false)]
    ensures calls.settled == map[0 := NotSent] && calls.held
  {
    calls := new Calls();
    var id := calls.Send(false);
    assert calls.history == [Call(false)];
  }
}
