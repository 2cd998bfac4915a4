/**
 What a turn does, read off the world it meets: which provider calls are made, what each of
 them costs in waiting, and how the turn is settled.
 */
module GenerationLaws {
  import opened Basics
  import opened GenerationRetry

  // ---------------------------------------------------------------------------
  // Failures and delays
  // ---------------------------------------------------------------------------

  /** The code a failed call is reported under. */
  function CodeOf(t: Trouble): Code {
    match t
    case Gateway(code, _, _, _) => Reported(code)
    case TimedOut => Timeout
    case NoConnection => NetworkFailed
    case Unknown => ProviderError
  }

  /** Just a failure that the gateway calls retryable and not sent may be retried. */
  lemma FailureIs(t: Trouble)
    ensures var f := ModelFailure(t);
            && f.code == CodeOf(t)
            && (f.retryable && !f.mayHaveBeenSent <==> t.Gateway? && t.retryable && !t.mayHaveBeenSent)
            && (f.mayHaveBeenSent <==> t.TimedOut? || t.NoConnection? || (t.Gateway? && t.mayHaveBeenSent))
            && (f.retryable <==> t.TimedOut? || t.NoConnection? || (t.Gateway? && t.retryable))
            && (f.retryAfter.Some? <==> t.Gateway? && t.retryAfter.Some?)
            && (f.retryAfter.Some? ==>
                  && f.retryAfter.value <= t.retryAfter.value
                  && (f.retryAfter.value == t.retryAfter.value || f.retryAfter.value == 30.0))
  {
  }

  /**
   The wait before the next call: the least that is neither below the provider's own demand, up
   to 30 seconds, nor below the drawn part of the window, which doubles with each failure up to
   30 seconds.
   */
  lemma DelayIsExactly(t: Trouble, attempt: nat, base: real, jitter: real)
    requires attempt >= 1
    ensures var window := if Doubled(base, attempt - 1) < 30.0 then Doubled(base, attempt - 1) else 30.0;
            var asked := if t.Gateway? && t.retryAfter.Some? then
                           (if t.retryAfter.value < 30.0 then t.retryAfter.value else 30.0)
                         else 0.0;
            var delay := RetryDelay(ModelFailure(t), attempt, base, jitter);
            && (delay.Some? <==> 0.0 <= jitter < 1.0)
            && (delay.Some? ==>
                  && delay.value >= asked && delay.value >= jitter * window
                  && (delay.value == asked || delay.value == jitter * window))
  {
  }

  lemma {:induction false} WindowDoubles(base: real, times: nat)
    ensures Doubled(base, 0) == base && Doubled(base, times + 1) == Doubled(base, times) + Doubled(base, times)
    ensures Doubled(base, 1) == 2.0 * base && Doubled(base, 2) == 4.0 * base
  {
    assert Doubled(base, 1) == 2.0 * Doubled(base, 0);
  }

  // ---------------------------------------------------------------------------
  // Which calls are made
  // ---------------------------------------------------------------------------

  /** The attempt is admitted in time. */
  predicate Made(a: Attempt) {
    a.allowed == Some(true) && a.remaining > 0.0
  }

  /** The provider refused the call without having taken it, and says another may be made. */
  predicate Refusal(r: Reply) {
    r.Raised? && r.trouble.Gateway? && r.trouble.retryable && !r.trouble.mayHaveBeenSent
  }

  function DelayAfter(w: World, base: real, k: nat): Option<real>
    requires k < |w.attempts| && w.attempts[k].reply.Raised?
  {
    RetryDelay(ModelFailure(w.attempts[k].reply.trouble), k + 1, base, w.attempts[k].jitter)
  }

  /** The attempt at index k leads to another: each of its steps succeeds, in time. */
  predicate Retried(w: World, base: real, k: nat) {
    && k + 1 < |w.attempts|
    && var a := w.attempts[k];
       && Made(a) && Refusal(a.reply)
       && var delay := DelayAfter(w, base, k);
          && delay.Some? && delay.value < a.afterReply
          && a.recorded == Some(true)
          && (delay.value != 0.0 ==> a.slept)
          && a.afterSleep > 0.0
          && a.fenced == Some(true)
  }

  /** The turn gets as far as deciding on the attempt at index n. */
  ghost predicate Reaches(w: World, base: real, n: nat) {
    n <= |w.attempts| && forall k | 0 <= k < n :: Retried(w, base, k)
  }

  /** What a retried attempt leaves in the trace. */
  function Round(w: World, base: real, k: nat): seq<Event>
    requires Retried(w, base, k)
  {
    var delay := DelayAfter(w, base, k).value;
    [Call(k + 1), Record(ModelFailure(w.attempts[k].reply.trouble))]
    + (if delay != 0.0 then [Sleep(delay)] else [])
    + [Fence(true)]
  }

  function Rounds(w: World, base: real, n: nat): seq<Event>
    requires Reaches(w, base, n)
  {
    if n == 0 then [] else Rounds(w, base, n - 1) + Round(w, base, n - 1)
  }

  /** The code in force before the attempt at index n. */
  function CodeBefore(w: World, base: real, n: nat): Code
    requires Reaches(w, base, n)
  {
    if n == 0 then Timeout
    else assert Retried(w, base, n - 1); CodeOf(w.attempts[n - 1].reply.trouble)
  }

  /** A retried attempt is one round, and the turn goes on with the next. */
  lemma RoundIs(w: World, base: real, k: nat, failure: Code)
    requires Retried(w, base, k)
    ensures RunFrom(w, base, k, failure)
            == Then(Round(w, base, k), RunFrom(w, base, k + 1, CodeOf(w.attempts[k].reply.trouble)))
  {
    hide RetryDelay, ModelFailure, Settle;
    var a := w.attempts[k];
    var f := ModelFailure(a.reply.trouble);
    FailureIs(a.reply.trouble);
    var delay := DelayAfter(w, base, k).value;
    var slept := [Record(f)] + if delay != 0.0 then [Sleep(delay)] else [];
    var rest := RunFrom(w, base, k + 1, f.code);
    assert AfterTrouble(w, base, k, f) == Then(slept + [Fence(true)], rest);
    assert RunFrom(w, base, k, failure) == Then([Call(k + 1)], AfterTrouble(w, base, k, f));
    assert [Call(k + 1)] + (slept + [Fence(true)] + rest.trace) == Round(w, base, k) + rest.trace;
  }

  /** A turn that reaches an attempt has gone through one round for each attempt before it. */
  lemma {:induction false} RoundsAre(w: World, base: real, n: nat)
    requires Reaches(w, base, n)
    ensures RunFrom(w, base, 0, Timeout) == Then(Rounds(w, base, n), RunFrom(w, base, n, CodeBefore(w, base, n)))
  {
    hide RunFrom, Round, Retried;
    if n > 0 {
      RoundsAre(w, base, n - 1);
      assert Retried(w, base, n - 1);
      RoundIs(w, base, n - 1, CodeBefore(w, base, n - 1));
      var rest := RunFrom(w, base, n, CodeBefore(w, base, n)).trace;
      assert Rounds(w, base, n - 1) + (Round(w, base, n - 1) + rest) == Rounds(w, base, n) + rest;
    } else {
      assert [] + RunFrom(w, base, 0, Timeout).trace == RunFrom(w, base, 0, Timeout).trace;
    }
  }

  /** From the attempt at index n on, just the attempts that follow a run of retried ones are made. */
  lemma {:induction false} CallsFrom(w: World, base: real, n: nat, failure: Code, m: nat)
    requires n <= |w.attempts|
    ensures Call(m + 1) in RunFrom(w, base, n, failure).trace
            <==> n <= m < |w.attempts| && Made(w.attempts[m]) && forall k | n <= k < m :: Retried(w, base, k)
    decreases |w.attempts| - n
  {
    hide RetryDelay, ModelFailure, Retried;
    if Retried(w, base, n) {
      RoundIs(w, base, n, failure);
      RetriedIsRefused(w, base, n);
      CallsFrom(w, base, n + 1, CodeOf(w.attempts[n].reply.trouble), m);
      assert Call(m + 1) in Round(w, base, n) <==> m == n;
    } else {
      StopsHere(w, base, n, failure, m);
      assert Call(m + 1) in RunFrom(w, base, n, failure).trace <==> m == n && n < |w.attempts| && Made(w.attempts[n]);
      if n < m < |w.attempts| {
        assert !Retried(w, base, n);
      }
    }
  }

  lemma RetriedIsRefused(w: World, base: real, k: nat)
    requires Retried(w, base, k)
    ensures k + 1 < |w.attempts| && Made(w.attempts[k]) && Refusal(w.attempts[k].reply)
  {
  }

  /** An attempt that is not retried is the last of its turn. */
  lemma StopsHere(w: World, base: real, n: nat, failure: Code, m: nat)
    requires n <= |w.attempts| && !Retried(w, base, n)
    ensures Call(m + 1) in RunFrom(w, base, n, failure).trace
            <==> m == n && n < |w.attempts| && Made(w.attempts[n])
  {
    hide RetryDelay, ModelFailure;
    if n < |w.attempts| && w.attempts[n].reply.Raised? && Made(w.attempts[n]) {
      FailureIs(w.attempts[n].reply.trouble);
      var f := ModelFailure(w.attempts[n].reply.trouble);
      StopsAfter(w, base, n, f, m);
    }
  }

  lemma StopsAfter(w: World, base: real, n: nat, f: Failure, m: nat)
    requires n < |w.attempts| && w.attempts[n].reply.Raised? && f == ModelFailure(w.attempts[n].reply.trouble)
    requires !Retried(w, base, n) && Made(w.attempts[n])
    ensures Call(m + 1) !in AfterTrouble(w, base, n, f).trace
  {
    hide RetryDelay, RunFrom;
    var a := w.attempts[n];
    var delay := RetryDelay(f, n + 1, base, a.jitter);
    if delay.Some? && MayRetry(w, n, f, delay.value) && a.recorded == Some(true) {
      FailureIs(a.reply.trouble);
      var slept := [Record(f)] + if delay.value != 0.0 then [Sleep(delay.value)] else [];
      assert Call(m + 1) !in slept;
      assert Call(m + 1) !in Settle(w, FenceRejected).trace;
      assert Refusal(a.reply);
      if (delay.value == 0.0 || a.slept) && a.afterSleep > 0.0 {
        assert a.fenced != Some(true);
      }
    }
  }

  /**
   A provider call is made exactly when every earlier one was refused without having been taken
   and each step between them succeeded in time.
   */
  lemma CallsExactly(w: World, base: real, n: nat)
    ensures Call(n + 1) in WholeTurn(w, base).trace
            <==> !w.feedback.Interrupted? && n < |w.attempts| && Made(w.attempts[n]) && Reaches(w, base, n)
  {
    hide RunFrom, Retried, Made;
    CallsFrom(w, base, 0, Timeout, n);
  }

  /**
   A call is repeated only when the gateway reported the one before as refused, retryable and
   not sent: never after a timeout, a lost connection or an unknown error.
   */
  lemma OnlyRefusedCallsAreRepeated(w: World, base: real, k: nat)
    requires k >= 1 && Call(k + 1) in WholeTurn(w, base).trace
    ensures k < |w.attempts|
    ensures var reply := w.attempts[k - 1].reply;
            && reply.Raised? && reply.trouble.Gateway?
            && reply.trouble.retryable && !reply.trouble.mayHaveBeenSent
    ensures w.attempts[k - 1].recorded == Some(true) && w.attempts[k - 1].fenced == Some(true)
  {
    hide RunFrom, RetryDelay, ModelFailure;
    CallsExactly(w, base, k);
    assert Retried(w, base, k - 1);
  }

  // ---------------------------------------------------------------------------
  // How a turn ends
  // ---------------------------------------------------------------------------

  /** The turn stops at the attempt at index n with these last events. */
  ghost predicate EndsWith(w: World, base: real, n: nat, last: seq<Event>)
    requires Reaches(w, base, n)
  {
    WholeTurn(w, base).trace == Rounds(w, base, n) + last
  }

  /** The settling event when the database stores it, and otherwise nothing. */
  function Settling(w: World, e: Event): seq<Event> {
    if w.settles then [e] else []
  }

  /** A turn that is not admitted, or out of time, is failed before the call; an answered call completes it. */
  lemma EndsBeforeOrAtTheReply(w: World, base: real, n: nat)
    requires Reaches(w, base, n) && !w.feedback.Interrupted?
    ensures n == |w.attempts| ==> n == 0 && EndsWith(w, base, n, Settling(w, Fail(Timeout)))
    ensures n < |w.attempts| ==>
              var a := w.attempts[n];
              && (a.allowed.None? ==> EndsWith(w, base, n, []))
              && (a.allowed == Some(false) ==> EndsWith(w, base, n, Settling(w, Fail(NotAdmitted))))
              && (a.allowed == Some(true) && a.remaining <= 0.0 ==>
                    EndsWith(w, base, n, Settling(w, Fail(CodeBefore(w, base, n)))))
              && (Made(a) && a.reply == Answer ==> EndsWith(w, base, n, [Call(n + 1)] + Settling(w, Complete)))
              && (Made(a) && a.reply.Cancelled? ==>
                    EndsWith(w, base, n,
                             [Call(n + 1)] + if a.reply.blocked then Settling(w, Fail(NotAdmitted))
                                             else if a.reply.invalidated then Settling(w, Discard)
                                             else []))
  {
    hide AfterTrouble, Rounds, Breaks, HandedAfter;
    RoundsAre(w, base, n);
    assert n == |w.attempts| ==> n == 0 || Retried(w, base, n - 1);
  }

  /** Where a failed call ends the turn, and under which code. */
  lemma EndsAfterTheReply(w: World, base: real, n: nat)
    requires Reaches(w, base, n) && !w.feedback.Interrupted? && n < |w.attempts|
    requires Made(w.attempts[n]) && w.attempts[n].reply.Raised?
    ensures var a, t := w.attempts[n], w.attempts[n].reply.trouble;
            var delay, called := DelayAfter(w, base, n), [Call(n + 1)];
            && (delay.None? ==> EndsWith(w, base, n, called))
            && (delay.Some? && (!Refusal(a.reply) || n + 1 == |w.attempts| || delay.value >= a.afterReply) ==>
                  EndsWith(w, base, n, called + Settling(w, Fail(CodeOf(t)))))
            && (delay.Some? && Refusal(a.reply) && n + 1 < |w.attempts| && delay.value < a.afterReply ==>
                  var waited := called + [Record(ModelFailure(t))]
                                + if delay.value != 0.0 then [Sleep(delay.value)] else [];
                  && (a.recorded.None? ==> EndsWith(w, base, n, called))
                  && (a.recorded == Some(false) ==> EndsWith(w, base, n, called + Settling(w, Fail(CodeOf(t)))))
                  && (a.recorded == Some(true) ==>
                        if delay.value != 0.0 && !a.slept then EndsWith(w, base, n, waited)
                        else if a.afterSleep <= 0.0 then
                          EndsWith(w, base, n, waited + Settling(w, Fail(FenceRejected)))
                        else
                          && (a.fenced.None? ==> EndsWith(w, base, n, waited))
                          && (a.fenced == Some(false) ==>
                                EndsWith(w, base, n, waited + [Fence(false)] + Settling(w, Fail(FenceRejected))))
                          && (a.fenced == Some(true) ==> Retried(w, base, n))))
  {
    hide Rounds, RetryDelay, ModelFailure;
    RoundsAre(w, base, n);
    var t := w.attempts[n].reply.trouble;
    FailureIs(t);
    var f, rounds := ModelFailure(t), Rounds(w, base, n);
    var delay := DelayAfter(w, base, n);
    var turn := AfterTrouble(w, base, n, f);
    assert WholeTurn(w, base).trace == rounds + ([Call(n + 1)] + turn.trace);
  }

  // ---------------------------------------------------------------------------
  // Sending
  // ---------------------------------------------------------------------------

  /** A message counts as delivered when each step of it succeeded, and breaks the group where one raised. */
  lemma FateExactly(d: Delivery)
    ensures FateOf(d) == Delivered
            <==> && d.admitted == Some(true) && d.prepared == Some(true) && d.stillAdmitted == Some(true)
                 && d.succeeded == Some(true) && d.stored == Some(true)
    ensures FateOf(d) == Broke
            <==> || d.admitted.None?
                 || (d.admitted == Some(true) && d.prepared.None?)
                 || (d.admitted == Some(true) && d.prepared == Some(true)
                     && (d.stillAdmitted.None? || (d.stillAdmitted == Some(false) && !d.released)))
                 || (d.admitted == Some(true) && d.prepared == Some(true) && d.stillAdmitted == Some(true)
                     && (d.succeeded.None? || d.stored.None?))
  {
  }

  /** Which messages reach the gateway: those admitted, prepared and still admitted after a run of delivered ones. */
  lemma HandedExactly(intents: seq<Delivery>, i: nat)
    requires i < |intents|
    ensures i < HandedBy(intents)
            <==> && (forall j | 0 <= j < i :: FateOf(intents[j]) == Delivered)
                 && intents[i].admitted == Some(true) && intents[i].prepared == Some(true)
                 && intents[i].stillAdmitted == Some(true)
  {
    hide Sent;
    var sent := Sent(intents);
    FateExactly(intents[i]);
    if sent < i {
      assert FateOf(intents[sent]) != Delivered;
    }
  }

  /** What a whole turn hands over, and how it ends, are those of its loop up to stopping the feedback. */
  lemma TurnHandsOver(w: World, base: real)
    requires 0.0 < base <= 30.0
    ensures var turn := WholeTurn(w, base);
            turn.handed == if Complete in turn.trace && w.group.Some? && w.group.value.listed
                           then HandedBy(w.group.value.intents) else 0
  {
    hide RunFrom, After, Breaks, HandedBy;
    TurnsAreSafe(w, base);
    var turn := WholeTurn(w, base);
    if Complete in turn.trace {
      var i :| 0 <= i < |turn.trace| && turn.trace[i] == Complete;
      NothingAfterSettling(turn.trace, i);
      StepBack(turn.trace, |turn.trace|);
      assert turn.trace[..|turn.trace|] == turn.trace;
    } else if turn.trace != [] {
      StepBack(turn.trace, |turn.trace|);
      assert turn.trace[..|turn.trace|] == turn.trace;
    } else {
      EmptyStarts();
    }
  }
}
