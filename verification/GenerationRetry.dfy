/**
 The generation loop of one turn: which model calls are made, what stands between two of
 them, and how the run is settled.  Clock readings, admission answers, provider replies, the
 jitter draw and the outcome of each durable step come from outside.
 */
module GenerationRetry {
  import opened Basics

  /** What the provider call raised. */
  datatype Trouble =
    | Gateway(code: nat, retryable: bool, retryAfter: Option<real>, mayHaveBeenSent: bool)
    | TimedOut
    | NoConnection
    | Unknown

  datatype Code = Timeout | NetworkFailed | ProviderError | NotAdmitted | FenceRejected | Reported(code: nat)

  datatype Failure = Failure(code: Code, retryable: bool, retryAfter: Option<real>, mayHaveBeenSent: bool)

  function Min(a: real, b: real): real {
    if a <= b then a else b
  }

  function MaxReal(a: real, b: real): real {
    if a <= b then b else a
  }

  /** `_model_failure` */
  function ModelFailure(t: Trouble): (f: Failure)
    ensures f.retryAfter.Some? ==> f.retryAfter.value <= 30.0
  {
    match t
    case Gateway(code, retryable, retryAfter, sent) =>
      Failure(Reported(code), retryable, if retryAfter.Some? then Some(Min(retryAfter.value, 30.0)) else None, sent)
    case TimedOut => Failure(Timeout, true, None, true)
    case NoConnection => Failure(NetworkFailed, true, None, true)
    case Unknown => Failure(ProviderError, false, None, false)
  }

  function Doubled(base: real, times: nat): real {
    if times == 0 then base else 2.0 * Doubled(base, times - 1)
  }

  /** `_retry_delay`; a jitter source outside [0, 1) is refused. */
  function RetryDelay(f: Failure, attempt: nat, base: real, jitter: real): (delay: Option<real>)
    requires attempt >= 1
  {
    if !(0.0 <= jitter < 1.0) then None
    else
      var ceiling := Min(30.0, Doubled(base, attempt - 1));
      Some(MaxReal(jitter * ceiling, if f.retryAfter.Some? then f.retryAfter.value else 0.0))
  }

  lemma {:induction false} DoubledIsPositive(base: real, times: nat)
    requires base > 0.0
    ensures Doubled(base, times) > 0.0
  {
    if times > 0 {
      DoubledIsPositive(base, times - 1);
    }
  }

  /** No retry waits longer than 30 seconds, whatever the provider asks for. */
  lemma DelayIsBounded(t: Trouble, attempt: nat, base: real, jitter: real)
    requires attempt >= 1 && 0.0 < base <= 30.0 && 0.0 <= jitter < 1.0
    ensures var delay := RetryDelay(ModelFailure(t), attempt, base, jitter);
            delay.Some? && 0.0 <= delay.value <= 30.0
  {
    DoubledIsPositive(base, attempt - 1);
    var ceiling := Min(30.0, Doubled(base, attempt - 1));
    Product(jitter, ceiling);
  }

  lemma Product(jitter: real, ceiling: real)
    requires 0.0 <= jitter < 1.0 && 0.0 < ceiling <= 30.0
    ensures 0.0 <= jitter * ceiling <= 30.0
  {
    assert jitter * ceiling <= 1.0 * ceiling;
  }

  // ---------------------------------------------------------------------------
  // Sending a delivery group
  // ---------------------------------------------------------------------------

  /** What happens to one intent of the group; an absent outcome is an exception or a cancellation. */
  datatype Delivery = Delivery(admitted: Option<bool>, prepared: Option<bool>, stillAdmitted: Option<bool>,
                               released: bool, succeeded: Option<bool>, stored: Option<bool>)

  datatype Fate = Delivered | Stopped | Broke

  function FateOf(d: Delivery): Fate {
    if d.admitted.None? then Broke
    else if !d.admitted.value then Stopped
    else if d.prepared.None? then Broke
    else if !d.prepared.value then Stopped
    else if d.stillAdmitted.None? then Broke
    else if !d.stillAdmitted.value then (if d.released then Stopped else Broke)
    else if d.succeeded.None? || d.stored.None? then Broke
    else if d.stored.value && d.succeeded.value then Delivered
    else Stopped
  }

  /** Whether the message reaches the gateway. */
  predicate HandedOver(d: Delivery) {
    d.admitted == Some(true) && d.prepared == Some(true) && d.stillAdmitted == Some(true)
  }

  /** How many are delivered before the first that is not. */
  function Sent(intents: seq<Delivery>): (sent: nat)
    ensures sent <= |intents|
    ensures forall i | 0 <= i < sent :: FateOf(intents[i]) == Delivered
    ensures sent < |intents| ==> FateOf(intents[sent]) != Delivered
  {
    if intents == [] || FateOf(intents[0]) != Delivered then 0 else 1 + Sent(intents[1..])
  }

  predicate DispatchBreaks(intents: seq<Delivery>) {
    Sent(intents) < |intents| && FateOf(intents[Sent(intents)]) == Broke
  }

  function HandedBy(intents: seq<Delivery>): nat {
    var sent := Sent(intents);
    if sent < |intents| && HandedOver(intents[sent]) then sent + 1 else sent
  }

  lemma SentIs(intents: seq<Delivery>, n: nat)
    requires n <= |intents| && forall i | 0 <= i < n :: FateOf(intents[i]) == Delivered
    requires n < |intents| ==> FateOf(intents[n]) != Delivered
    ensures Sent(intents) == n
  {
  }

  /**
   `dispatch_group`: intents in sequence, counted while delivered and stored, ended by the
   first that is not, or broken off by an exception.
   */
  method DispatchGroup(intents: seq<Delivery>) returns (sent: nat, handed: nat, broke: bool)
    ensures sent <= |intents|
    ensures forall i | 0 <= i < sent :: FateOf(intents[i]) == Delivered
    ensures sent < |intents| ==> FateOf(intents[sent]) != Delivered
    ensures broke <==> sent < |intents| && FateOf(intents[sent]) == Broke
    ensures handed == if sent < |intents| && HandedOver(intents[sent]) then sent + 1 else sent
  {
    sent, handed, broke := 0, 0, false;
    for i := 0 to |intents|
      invariant sent == handed == i && !broke
      invariant forall j | 0 <= j < i :: FateOf(intents[j]) == Delivered
    {
      var d := intents[i];
      if d.admitted.None? {
        broke := true;
        break;
      }
      if !d.admitted.value {
        break;
      }
      if d.prepared.None? {
        broke := true;
        break;
      }
      if !d.prepared.value {
        break;
      }
      if d.stillAdmitted.None? {
        broke := true;
        break;
      }
      if !d.stillAdmitted.value {
        broke := !d.released;
        break;
      }
      handed := handed + 1;
      if d.succeeded.None? || d.stored.None? {
        broke := true;
        break;
      }
      if !d.stored.value || !d.succeeded.value {
        break;
      }
      sent := sent + 1;
    }
  }

  // ---------------------------------------------------------------------------
  // The loop
  // ---------------------------------------------------------------------------

  datatype Reply =
    | Answer
    | Cancelled(blocked: bool, invalidated: bool)
    | Raised(trouble: Trouble)

  /**
   Times are what is left until the deadline; an absent outcome is a step that raised or was
   cancelled, and so is a sleep not slept.
   */
  datatype Attempt = Attempt(allowed: Option<bool>, remaining: real, reply: Reply, jitter: real, afterReply: real,
                             recorded: Option<bool>, slept: bool, afterSleep: real, fenced: Option<bool>)

  /** The delivery group of a completed turn: whether its intents can be read, and what becomes of them. */
  datatype Group = Group(listed: bool, intents: seq<Delivery>)

  /**
   Typing feedback.  Failures to start or stop it are suppressed, cancellations are not: one
   while it starts ends the turn, one while it is stopped gets out of a turn that is over.
   */
  datatype Feedback = NotStarted | Interrupted | Started(cutOff: bool)

  datatype World = World(attempts: seq<Attempt>, settles: bool, group: Option<Group>, feedback: Feedback)

  /** Sending the group of a completed turn ends in an exception. */
  predicate Breaks(w: World) {
    w.group.Some? && (!w.group.value.listed || DispatchBreaks(w.group.value.intents))
  }

  /** Messages that reach the gateway when the turn is completed. */
  function HandedAfter(w: World): nat {
    if w.group.Some? && w.group.value.listed then HandedBy(w.group.value.intents) else 0
  }

  datatype Event =
    | Call(attempt: nat)
    | Record(failure: Failure)
    | Sleep(delay: real)
    | Fence(granted: bool)
    | Complete
    | Discard
    | Fail(code: Code)

  datatype Outcome = Completed | Discarded | Failed(code: Code) | Propagated

  /** What was done, how `run_due_turn` ended, and how many messages were handed over after it was stored. */
  datatype Turn = Turn(trace: seq<Event>, outcome: Outcome, handed: nat := 0)

  function Then(front: seq<Event>, rest: Turn): Turn {
    Turn(front + rest.trace, rest.outcome, rest.handed)
  }

  /** `fail_generation`, unless storing it raises. */
  function Settle(w: World, code: Code): Turn {
    if w.settles then Turn([Fail(code)], Failed(code)) else Turn([], Propagated)
  }

  /** From the attempt after n others on, with the failure to report if no attempt is made. */
  function RunFrom(w: World, base: real, n: nat, failure: Code): Turn
    requires n <= |w.attempts|
    decreases |w.attempts| - n
  {
    if n == |w.attempts| then Settle(w, failure)
    else
      var a := w.attempts[n];
      if a.allowed.None? then Turn([], Propagated)
      else if !a.allowed.value then Settle(w, NotAdmitted)
      else if a.remaining <= 0.0 then Settle(w, failure)
      else
        match a.reply
        case Answer =>
          if w.settles then Turn([Call(n + 1), Complete], if Breaks(w) then Propagated else Completed, HandedAfter(w))
          else Turn([Call(n + 1)], Propagated)
        case Cancelled(blocked, invalidated) =>
          if blocked then Then([Call(n + 1)], Settle(w, NotAdmitted))
          else if !invalidated then Turn([Call(n + 1)], Propagated)
          else if w.settles then Turn([Call(n + 1), Discard], Discarded)
          else Turn([Call(n + 1)], Propagated)
        case Raised(trouble) => Then([Call(n + 1)], AfterTrouble(w, base, n, ModelFailure(trouble)))
  }

  predicate MayRetry(w: World, n: nat, f: Failure, delay: real)
    requires n < |w.attempts|
  {
    n + 1 < |w.attempts| && f.retryable && !f.mayHaveBeenSent && delay < w.attempts[n].afterReply
  }

  function AfterTrouble(w: World, base: real, n: nat, f: Failure): Turn
    requires n < |w.attempts|
    decreases |w.attempts| - n, 0
  {
    var a := w.attempts[n];
    var delay := RetryDelay(f, n + 1, base, a.jitter);
    if delay.None? then Turn([], Propagated)
    else if !MayRetry(w, n, f, delay.value) then Settle(w, f.code)
    else if a.recorded.None? then Turn([], Propagated)
    else if !a.recorded.value then Settle(w, f.code)
    else
      var slept := [Record(f)] + if delay.value != 0.0 then [Sleep(delay.value)] else [];
      if delay.value != 0.0 && !a.slept then Turn(slept, Propagated)
      else if a.afterSleep <= 0.0 then Then(slept, Settle(w, FenceRejected))
      else if a.fenced.None? then Turn(slept, Propagated)
      else if !a.fenced.value then Then(slept + [Fence(false)], Settle(w, FenceRejected))
      else Then(slept + [Fence(true)], RunFrom(w, base, n + 1, f.code))
  }

  /** What is left of a turn that is over: stopping the typing feedback, even after an exception. */
  function Closed(w: World, turn: Turn): Turn {
    if w.feedback == Started(true) then turn.(outcome := Propagated) else turn
  }

  /** `run_due_turn` once the turn is claimed. */
  function WholeTurn(w: World, base: real): Turn {
    if w.feedback.Interrupted? then Turn([], Propagated) else Closed(w, RunFrom(w, base, 0, Timeout))
  }

  /** The same, with the loop in the scope of the final clause that stops the feedback. */
  method RunTurn(w: World, base: real) returns (turn: Turn)
    ensures turn == WholeTurn(w, base)
  {
    hide RunFrom;
    if w.feedback.Interrupted? {
      return Turn([], Propagated);
    }
    turn := RunAttempts(w, base);
    if w.feedback.Started? && w.feedback.cutOff {
      turn := turn.(outcome := Propagated);
    }
  }

  /** The loop over attempts with its breaks and returns. */
  method RunAttempts(w: World, base: real) returns (turn: Turn)
    ensures turn == RunFrom(w, base, 0, Timeout)
  {
    hide RetryDelay, ModelFailure, FateOf, Sent, HandedOver;
    var trace: seq<Event> := [];
    var failure := Failure(Timeout, true, None, true);
    var attempt := 0;
    while attempt < |w.attempts|
      invariant attempt <= |w.attempts|
      invariant Then(trace, RunFrom(w, base, attempt, failure.code)) == RunFrom(w, base, 0, Timeout)
    {
      var a := w.attempts[attempt];
      ghost var before := trace;
      if a.allowed.None? {
        assert trace + [] == trace;
        return Turn(trace, Propagated);
      }
      if !a.allowed.value {
        failure := Failure(NotAdmitted, false, None, false);
        break;
      }
      if a.remaining <= 0.0 {
        break;
      }
      trace := trace + [Call(attempt + 1)];
      match a.reply
      case Answer =>
        if !w.settles {
          return Turn(trace, Propagated);
        }
        ThenTwo(before, [Call(attempt + 1)], [Complete]);
        trace := trace + [Complete];
        if w.group.None? {
          return Turn(trace, Completed);
        }
        if !w.group.value.listed {
          return Turn(trace, Propagated);
        }
        var sent, handed, broke := DispatchGroup(w.group.value.intents);
        SentIs(w.group.value.intents, sent);
        return Turn(trace, if broke then Propagated else Completed, handed);
      case Cancelled(blocked, invalidated) =>
        if blocked {
          failure := Failure(NotAdmitted, false, None, false);
          ThenTwo(before, [Call(attempt + 1)], Settle(w, NotAdmitted).trace);
          break;
        }
        if !invalidated || !w.settles {
          return Turn(trace, Propagated);
        }
        ThenTwo(before, [Call(attempt + 1)], [Discard]);
        return Turn(trace + [Discard], Discarded);
      case Raised(trouble) =>
        failure := ModelFailure(trouble);
        ThenTwo(before, [Call(attempt + 1)], AfterTrouble(w, base, attempt, failure).trace);
        assert Then(trace, AfterTrouble(w, base, attempt, failure)) == RunFrom(w, base, 0, Timeout);
        var delay := RetryDelay(failure, attempt + 1, base, a.jitter);
        if delay.None? {
          assert trace + [] == trace;
          return Turn(trace, Propagated);
        }
        if !MayRetry(w, attempt, failure, delay.value) {
          break;
        }
        if a.recorded.None? {
          assert trace + [] == trace;
          return Turn(trace, Propagated);
        }
        if !a.recorded.value {
          break;
        }
        ghost var called := trace;
        trace := trace + [Record(failure)] + if delay.value != 0.0 then [Sleep(delay.value)] else [];
        ghost var slept := [Record(failure)] + if delay.value != 0.0 then [Sleep(delay.value)] else [];
        assert trace == called + slept;
        if delay.value != 0.0 && !a.slept {
          return Turn(trace, Propagated);
        }
        if a.afterSleep <= 0.0 {
          failure := Failure(FenceRejected, false, None, false);
          ThenTwo(called, slept, Settle(w, FenceRejected).trace);
          break;
        }
        if a.fenced.None? {
          return Turn(trace, Propagated);
        }
        trace := trace + [Fence(a.fenced.value)];
        assert trace == called + (slept + [Fence(a.fenced.value)]);
        if !a.fenced.value {
          failure := Failure(FenceRejected, false, None, false);
          ThenTwo(called, slept + [Fence(false)], Settle(w, FenceRejected).trace);
          break;
        }
        ThenTwo(called, slept + [Fence(true)], RunFrom(w, base, attempt + 1, failure.code).trace);
        attempt := attempt + 1;
        continue;
    }
    turn := Then(trace, Settle(w, failure.code));
  }

  lemma ThenTwo(a: seq<Event>, b: seq<Event>, c: seq<Event>)
    ensures (a + b) + c == a + (b + c)
  {
  }

  // ---------------------------------------------------------------------------
  // The order a turn must keep
  // ---------------------------------------------------------------------------

  /** Where a turn stands after some of its events; `calls` counts the model calls made. */
  datatype Stage =
    | Start
    | Called(calls: nat)
    | Recorded(calls: nat)
    | Rested(calls: nat)
    | Ready(calls: nat)
    | Refused(calls: nat)
    | Over(calls: nat, last: Event)
    | Disorderly

  function Calls(s: Stage): nat {
    if s.Start? || s.Disorderly? then 0 else s.calls
  }

  /** A call needs a start or a granted fence; a fence needs a recorded failure that may be retried. */
  function Next(s: Stage, e: Event): Stage {
    match e
    case Call(n) => if (s.Start? || s.Ready?) && n == Calls(s) + 1 then Called(n) else Disorderly
    case Record(f) => if s.Called? && f.retryable && !f.mayHaveBeenSent then Recorded(s.calls) else Disorderly
    case Sleep(d) => if s.Recorded? && 0.0 < d <= 30.0 then Rested(s.calls) else Disorderly
    case Fence(granted) =>
      if s.Recorded? || s.Rested? then (if granted then Ready(s.calls) else Refused(s.calls)) else Disorderly
    case Complete | Discard => if s.Called? then Over(s.calls, e) else Disorderly
    case Fail(_) => if s.Over? || s.Disorderly? then Disorderly else Over(Calls(s), e)
  }

  function After(s: Stage, trace: seq<Event>): Stage {
    if trace == [] then s else Next(After(s, trace[..|trace| - 1]), trace[|trace| - 1])
  }

  lemma {:induction false} AfterBoth(s: Stage, a: seq<Event>, b: seq<Event>)
    ensures After(s, a + b) == After(After(s, a), b)
  {
    hide Next;
    if b == [] {
      assert a + b == a;
    } else {
      var front := b[..|b| - 1];
      AfterBoth(s, a, front);
      assert (a + b)[..|a + b| - 1] == a + front;
    }
  }

  /**
   The loop reports what it stored: over with that event, or not over when an exception got out,
   unless the exception came from sending what a completed turn had to say.
   */
  predicate Reports(w: World, turn: Turn, end: Stage) {
    && Hands(w, turn, end)
    && match turn.outcome
       case Completed => end.Over? && end.last == Complete && !Breaks(w)
       case Discarded => end.Over? && end.last == Discard
       case Failed(code) => end.Over? && end.last == Fail(code)
       case Propagated => !end.Over? || (end.last == Complete && Breaks(w))
  }

  /** Messages are handed over just by a turn whose answered attempt was stored as completed. */
  predicate Hands(w: World, turn: Turn, end: Stage) {
    && (end.Over? && end.last == Complete ==>
          && 1 <= end.calls <= |w.attempts| && w.attempts[end.calls - 1].reply == Answer && w.settles
          && turn.handed == HandedAfter(w))
    && (!(end.Over? && end.last == Complete) ==> turn.handed == 0)
  }

  /** The loop continued from a stage keeps the order, makes at most the allowed calls and reports its end. */
  ghost predicate Orderly(s: Stage, turn: Turn, w: World) {
    var end := After(s, turn.trace);
    !end.Disorderly? && Calls(end) <= |w.attempts| && Reports(w, turn, end)
  }

  /**
   A turn keeps the order and makes at most the allowed calls.  It reports what the loop reports
   unless its feedback was interrupted, when nothing happened, or cut off, when an exception got
   out whatever was stored.
   */
  ghost predicate Safe(turn: Turn, w: World) {
    var end := After(Start, turn.trace);
    && !end.Disorderly? && Calls(end) <= |w.attempts| && Hands(w, turn, end)
    && match w.feedback
       case NotStarted => Reports(w, turn, end)
       case Interrupted => turn.trace == [] && turn.outcome == Propagated
       case Started(cutOff) => if cutOff then turn.outcome == Propagated else Reports(w, turn, end)
  }

  lemma SettleIsOrderly(s: Stage, w: World, code: Code)
    requires !s.Over? && !s.Disorderly? && Calls(s) <= |w.attempts|
    ensures Orderly(s, Settle(w, code), w)
  {
    assert [Fail(code)][..0] == [];
  }

  lemma OneAfter(s: Stage, e: Event)
    ensures After(s, [e]) == Next(s, e)
  {
    assert [e][..0] == [];
  }

  lemma ThenIsOrderly(s: Stage, front: seq<Event>, rest: Turn, w: World)
    requires After(s, front + rest.trace) == After(After(s, front), rest.trace)
    requires Orderly(After(s, front), rest, w)
    ensures Orderly(s, Then(front, rest), w)
  {
  }

  lemma {:induction false} RunIsOrderly(w: World, base: real, n: nat, failure: Code, s: Stage)
    requires 0.0 < base <= 30.0 && n <= |w.attempts|
    requires (s.Start? || s.Ready?) && Calls(s) == n
    ensures Orderly(s, RunFrom(w, base, n, failure), w)
    decreases |w.attempts| - n
  {
    hide Settle, Orderly, After, AfterTrouble, Then;
    SettleIsOrderly(s, w, failure);
    SettleIsOrderly(s, w, NotAdmitted);
    NothingIsOrderly(s, w);
    if n < |w.attempts| && w.attempts[n].allowed == Some(true) && w.attempts[n].remaining > 0.0 {
      var call := [Call(n + 1)];
      OneAfter(s, Call(n + 1));
      match w.attempts[n].reply
      case Answer =>
        AnswerIsOrderly(w, s, n);
      case Cancelled(_, _) =>
        AnswerIsOrderly(w, s, n);
        SettleIsOrderly(Called(n + 1), w, NotAdmitted);
        AfterBoth(s, call, Settle(w, NotAdmitted).trace);
        ThenIsOrderly(s, call, Settle(w, NotAdmitted), w);
      case Raised(trouble) =>
        TroubleIsOrderly(w, base, n, trouble);
        AfterBoth(s, call, AfterTrouble(w, base, n, ModelFailure(trouble)).trace);
        ThenIsOrderly(s, call, AfterTrouble(w, base, n, ModelFailure(trouble)), w);
    }
  }

  /** A call that is answered or found stale. */
  lemma AnswerIsOrderly(w: World, s: Stage, n: nat)
    requires (s.Start? || s.Ready?) && Calls(s) == n < |w.attempts|
    ensures Orderly(s, Turn([Call(n + 1)], Propagated), w)
    ensures Orderly(s, Turn([Call(n + 1), Discard], Discarded), w)
    ensures w.attempts[n].reply == Answer && w.settles ==>
              Orderly(s, Turn([Call(n + 1), Complete], if Breaks(w) then Propagated else Completed, HandedAfter(w)), w)
  {
    hide After, Breaks, HandedAfter;
    OneAfter(s, Call(n + 1));
    TwoAfter(s, Call(n + 1), Discard);
    TwoAfter(s, Call(n + 1), Complete);
  }

  lemma TwoAfter(s: Stage, a: Event, b: Event)
    ensures After(s, [a, b]) == Next(Next(s, a), b)
  {
    OneAfter(s, a);
    assert [a, b][..1] == [a];
  }

  lemma {:induction false} TroubleIsOrderly(w: World, base: real, n: nat, trouble: Trouble)
    requires 0.0 < base <= 30.0 && n < |w.attempts|
    ensures Orderly(Called(n + 1), AfterTrouble(w, base, n, ModelFailure(trouble)), w)
    decreases |w.attempts| - n, 0
  {
    hide Settle, Orderly, After, RunFrom, RetryDelay, ModelFailure, Next, Then;
    var a, f := w.attempts[n], ModelFailure(trouble);
    var delay := RetryDelay(f, n + 1, base, a.jitter);
    NothingIsOrderly(Called(n + 1), w);
    SettleIsOrderly(Called(n + 1), w, f.code);
    if delay.Some? && MayRetry(w, n, f, delay.value) && a.recorded == Some(true) {
      JitterInRange(f, n + 1, base, a.jitter);
      DelayIsBounded(trouble, n + 1, base, a.jitter);
      var slept := [Record(f)] + if delay.value != 0.0 then [Sleep(delay.value)] else [];
      SleptStage(n + 1, f, delay.value, slept);
      var rested := After(Called(n + 1), slept);
      OneAfter(rested, Fence(false));
      OneAfter(rested, Fence(true));
      FenceStages(rested);
      AfterBoth(Called(n + 1), slept, [Fence(false)]);
      AfterBoth(Called(n + 1), slept, [Fence(true)]);
      SettleIsOrderly(rested, w, FenceRejected);
      AfterBoth(Called(n + 1), slept, Settle(w, FenceRejected).trace);
      ThenIsOrderly(Called(n + 1), slept, Settle(w, FenceRejected), w);
      SettleIsOrderly(Refused(n + 1), w, FenceRejected);
      AfterBoth(Called(n + 1), slept + [Fence(false)], Settle(w, FenceRejected).trace);
      ThenIsOrderly(Called(n + 1), slept + [Fence(false)], Settle(w, FenceRejected), w);
      NothingIsOrderly(rested, w);
      AfterBoth(Called(n + 1), slept, Turn([], Propagated).trace);
      ThenIsOrderly(Called(n + 1), slept, Turn([], Propagated), w);
      ThenNothing(slept);
      RunIsOrderly(w, base, n + 1, f.code, Ready(n + 1));
      AfterBoth(Called(n + 1), slept + [Fence(true)], RunFrom(w, base, n + 1, f.code).trace);
      ThenIsOrderly(Called(n + 1), slept + [Fence(true)], RunFrom(w, base, n + 1, f.code), w);
    }
  }

  lemma ThenNothing(slept: seq<Event>)
    ensures Then(slept, Turn([], Propagated)) == Turn(slept, Propagated)
  {
  }

  lemma NothingIsOrderly(s: Stage, w: World)
    requires !s.Over? && !s.Disorderly? && Calls(s) <= |w.attempts|
    ensures Orderly(s, Turn([], Propagated), w)
  {
  }

  lemma JitterInRange(f: Failure, attempt: nat, base: real, jitter: real)
    requires attempt >= 1 && RetryDelay(f, attempt, base, jitter).Some?
    ensures 0.0 <= jitter < 1.0
  {
  }

  lemma SleptStage(calls: nat, f: Failure, delay: real, slept: seq<Event>)
    requires f.retryable && !f.mayHaveBeenSent && 0.0 <= delay <= 30.0
    requires slept == [Record(f)] + if delay != 0.0 then [Sleep(delay)] else []
    ensures After(Called(calls), slept) == if delay != 0.0 then Rested(calls) else Recorded(calls)
  {
    OneAfter(Called(calls), Record(f));
    if delay != 0.0 {
      OneAfter(Recorded(calls), Sleep(delay));
      AfterBoth(Called(calls), [Record(f)], [Sleep(delay)]);
    } else {
      assert slept == [Record(f)];
    }
  }

  lemma FenceStages(s: Stage)
    ensures s.Recorded? || s.Rested? ==>
              Next(s, Fence(true)) == Ready(s.calls) && Next(s, Fence(false)) == Refused(s.calls)
  {
  }

  // ---------------------------------------------------------------------------
  // What the order means
  // ---------------------------------------------------------------------------

  predicate Settles(e: Event) {
    e.Complete? || e.Discard? || e.Fail?
  }

  lemma {:induction false} DisorderStays(s: Stage, trace: seq<Event>, k: nat)
    requires k <= |trace| && After(s, trace[..k]).Disorderly?
    ensures After(s, trace).Disorderly?
    decreases |trace|
  {
    if k == |trace| {
      assert trace[..k] == trace;
    } else {
      var front := trace[..|trace| - 1];
      assert front[..k] == trace[..k];
      DisorderStays(s, front, k);
    }
  }

  lemma StepBack(trace: seq<Event>, i: nat)
    requires 0 < i <= |trace|
    ensures After(Start, trace[..i]) == Next(After(Start, trace[..i - 1]), trace[i - 1])
  {
    assert trace[..i][..i - 1] == trace[..i - 1];
  }

  /** Nothing follows a settlement, so no turn is settled twice, as completed and failed or otherwise. */
  lemma NothingAfterSettling(trace: seq<Event>, i: nat)
    requires i < |trace| && Settles(trace[i]) && !After(Start, trace).Disorderly?
    ensures i == |trace| - 1
  {
    hide After;
    StepBack(trace, i + 1);
    if i + 1 < |trace| {
      StepBack(trace, i + 2);
      if After(Start, trace[..i + 1]).Disorderly? {
        DisorderStays(Start, trace, i + 1);
      } else {
        DisorderStays(Start, trace, i + 2);
      }
    }
  }

  /**
   Every call but the first comes right after a granted fence, and that after the record of a
   failure that may be retried and cannot have been sent, with at most one sleep of at most 30
   seconds between.
   */
  lemma RetriesAreEarned(trace: seq<Event>, i: nat)
    requires i < |trace| && trace[i].Call? && trace[i].attempt > 1 && !After(Start, trace).Disorderly?
    ensures i >= 2 && trace[i - 1] == Fence(true)
    ensures var j := if trace[i - 2].Sleep? then i - 3 else i - 2;
            && j >= 0 && trace[j].Record? && trace[j].failure.retryable && !trace[j].failure.mayHaveBeenSent
            && (j == i - 3 ==> trace[i - 2].delay <= 30.0)
  {
    hide After;
    InOrder(trace, i + 1);
    StepBack(trace, i + 1);
    assert After(Start, trace[..i]).Ready?;
    StartOnly(trace, i);
    StepBack(trace, i);
    StartOnly(trace, i - 1);
    StepBack(trace, i - 1);
    if trace[i - 2].Sleep? {
      StartOnly(trace, i - 2);
      StepBack(trace, i - 2);
    }
  }

  lemma InOrder(trace: seq<Event>, k: nat)
    requires k <= |trace| && !After(Start, trace).Disorderly?
    ensures !After(Start, trace[..k]).Disorderly?
  {
    if After(Start, trace[..k]).Disorderly? {
      DisorderStays(Start, trace, k);
    }
  }

  lemma StartOnly(trace: seq<Event>, i: nat)
    requires i <= |trace| && !After(Start, trace[..i]).Start?
    ensures i > 0
  {
  }

  /**
   A turn under any provider, clock, database and cancellation keeps the order, makes no more
   calls than configured, and reports how it ended.
   */
  lemma TurnsAreSafe(w: World, base: real)
    requires 0.0 < base <= 30.0
    ensures Safe(WholeTurn(w, base), w)
  {
    hide RunFrom, After, Breaks, HandedAfter;
    EmptyStarts();
    RunIsOrderly(w, base, 0, Timeout, Start);
  }

  /**
   What a turn reports is its last event.  An exception gets out of a turn whose settlement is
   stored exactly when stopping the feedback was cut off, or that settlement is a completion and
   sending its messages broke off; and no message is handed over before the completion of an
   answered attempt is stored.
   */
  lemma ReportIsLastEvent(turn: Turn, w: World)
    requires Safe(turn, w)
    ensures turn.outcome == Completed ==> turn.trace != [] && turn.trace[|turn.trace| - 1] == Complete
    ensures turn.outcome == Discarded ==> turn.trace != [] && turn.trace[|turn.trace| - 1] == Discard
    ensures turn.outcome.Failed? ==>
              turn.trace != [] && turn.trace[|turn.trace| - 1] == Fail(turn.outcome.code)
    ensures turn.outcome == Propagated && (exists e | e in turn.trace :: Settles(e))
            <==> turn.trace != [] && var last := turn.trace[|turn.trace| - 1];
                 Settles(last) && (w.feedback == Started(true) || (last == Complete && Breaks(w)))
    ensures turn.trace != [] && turn.trace[|turn.trace| - 1] == Complete ==>
              var calls := Calls(After(Start, turn.trace));
              1 <= calls <= |w.attempts| && w.attempts[calls - 1].reply == Answer && w.settles
    ensures turn.handed > 0 ==> turn.trace != [] && turn.trace[|turn.trace| - 1] == Complete
  {
    hide After, Breaks, HandedAfter;
    var trace := turn.trace;
    assert trace[..|trace|] == trace;
    if trace != [] {
      StepBack(trace, |trace|);
      forall i | 0 <= i < |trace| && Settles(trace[i])
        ensures i == |trace| - 1
      {
        NothingAfterSettling(trace, i);
      }
      assert trace[|trace| - 1] in trace;
    } else {
      EmptyStarts();
    }
  }

  lemma EmptyStarts()
    ensures After(Start, []) == Start
  {
  }

  /** The only attempt of a turn: answered, unless no time remains for it. */
  function Lone(remaining: real): Attempt {
    Attempt(Some(true), remaining, Answer, 0.0, 1.0, Some(true), true, 1.0, Some(true))
  }

  /**
   Two turns that end in an exception although they are settled: one whose messages cannot be
   read after its completion is stored, and one cancelled while it stops its typing feedback
   after its failure is stored.
   */
  lemma SettledTurnsPropagate()
    ensures var w := World([Lone(1.0)], true, Some(Group(false, [])), NotStarted);
            WholeTurn(w, 1.0) == Turn([Call(1), Complete], Propagated)
    ensures var w := World([Lone(0.0)], true, None, Started(true));
            WholeTurn(w, 1.0) == Turn([Fail(Timeout)], Propagated)
  {
  }
}
