/** What each segment over the cache does, and what a caller may count on: hits, evictions, and progress. */
module CacheLaws {
  import opened Basics
  import opened PreparedCache

  /** With every run cached once, looking one up finds its entry. */
  lemma {:induction false} LookupFinds(slots: seq<Slot>, clock: nat, x: Slot)
    requires Recent(slots, clock) && x in slots
    ensures Lookup(slots, x.run) == Some(x)
  {
    RecentTail(slots, clock);
    if slots[0] != x {
      assert x in slots[1..];
      LookupFinds(slots[1..], clock, x);
    }
  }

  /** Two runs share a lock exactly when they agree modulo the number of stripes, at most 64 and at most the limit. */
  lemma StripesAre(limit: nat, a: Uuid, b: Uuid)
    requires limit >= 1
    ensures Stripe(limit, a) == Stripe(limit, b) <==> a % Stripes(limit) == b % Stripes(limit)
    ensures Stripe(limit, a) < Stripes(limit) <= 64 && Stripes(limit) <= limit
  {
  }

  function Stripes(limit: nat): (n: nat)
    requires limit >= 1
    ensures n >= 1
  {
    if limit < 64 then limit else 64
  }

  /** A stripe is held exactly while a task prepares a run of it. */
  lemma LockedExactly(s: State, run: Uuid)
    requires s.limit >= 1
    ensures Locked(s, Stripe(s.limit, run)) <==>
              exists t | t in s.tasks ::
                s.tasks[t].Preparing? && s.tasks[t].run % Stripes(s.limit) == run % Stripes(s.limit)
  {
    hide Stripe;
    if Locked(s, Stripe(s.limit, run)) {
      var t :| t in s.tasks && s.tasks[t].Preparing? && Stripe(s.limit, s.tasks[t].run) == Stripe(s.limit, run);
      StripesAre(s.limit, s.tasks[t].run, run);
    }
    if t :| t in s.tasks && s.tasks[t].Preparing? && s.tasks[t].run % Stripes(s.limit) == run % Stripes(s.limit) {
      StripesAre(s.limit, s.tasks[t].run, run);
    }
  }

  // ---------------------------------------------------------------------------
  // Asking
  // ---------------------------------------------------------------------------

  /** The caller gets the cached value, which becomes the newest entry; nothing else moves. */
  ghost predicate Served(s: State, after: State, task: nat, role: Role, x: Slot) {
    && after.answers == s.answers + [Answer(task, x.run, role, x.prepared, x.begun)]
    && after.slots == Without(s.slots, x.run) + [x.(used := s.clock)]
    && after.given == s.given
  }

  /**
   A cached run is served to whoever asks for it in its role and refused to everyone else, without
   a preparation; only a run that is not cached is waited for.
   */
  lemma AsksExactly(s: State, task: nat, run: Uuid, role: Role)
    requires Invariant(s) && Enabled(s, Ask(task, run, role))
    ensures var after := Apply(s, Ask(task, run, role));
            && (forall x | x in s.slots && x.run == run ::
                  && after.tasks == s.tasks
                  && if x.prepared.role == role then Served(s, after, task, role, x)
                     else after.slots == s.slots && after.answers == s.answers)
            && ((forall x | x in s.slots :: x.run != run) ==>
                  && after.tasks == s.tasks[task := Waiting(run, role)]
                  && after.slots == s.slots && after.answers == s.answers)
  {
    hide Recent, Stripe, Without;
    FindsIn(s, run);
  }

  /** Once it has the lock a task looks again, and prepares just what is still not cached. */
  lemma AcquiresExactly(s: State, task: nat)
    requires Invariant(s) && Enabled(s, Acquire(task))
    ensures var after, run, role := Apply(s, Acquire(task)), s.tasks[task].run, s.tasks[task].role;
            && (forall x | x in s.slots && x.run == run ::
                  && after.tasks == s.tasks - {task}
                  && if x.prepared.role == role then Served(s, after, task, role, x)
                     else after.slots == s.slots && after.answers == s.answers)
            && ((forall x | x in s.slots :: x.run != run) ==>
                  && after.tasks == s.tasks[task := Preparing(run, role, s.clock)]
                  && after.slots == s.slots && after.answers == s.answers)
  {
    hide Recent, Stripe, Without, Locked;
    FindsIn(s, s.tasks[task].run);
  }

  lemma FindsIn(s: State, run: Uuid)
    requires Invariant(s)
    ensures forall x | x in s.slots && x.run == run :: Lookup(s.slots, run) == Some(x)
    ensures (forall x | x in s.slots :: x.run != run) ==> Lookup(s.slots, run) == None
  {
    hide Recent, Stripe;
    forall x | x in s.slots && x.run == run ensures Lookup(s.slots, run) == Some(x) {
      LookupFinds(s.slots, s.clock, x);
    }
  }

  // ---------------------------------------------------------------------------
  // Loading
  // ---------------------------------------------------------------------------

  /** What the store gave fits the role asked for, in the configuration and in the credential. */
  predicate Fits(outcome: Option<Prepared>, role: Role) {
    outcome.Some? && outcome.value.role == role && outcome.value.bindingRole == role
  }

  /**
   A value that fits is answered, cached as the newest, and costs at most the oldest entry, and
   that only when the cache is full of other runs; one that does not fit is neither answered nor
   cached.  Either way the task is over and its lock free.
   */
  lemma LoadsExactly(s: State, task: nat, outcome: Option<Prepared>)
    requires Invariant(s) && Enabled(s, Loaded(task, outcome))
    ensures var after, t := Apply(s, Loaded(task, outcome)), s.tasks[task];
            var rest := Without(s.slots, t.run);
            && after.tasks == s.tasks - {task}
            && (!Fits(outcome, t.role) ==> after.slots == s.slots && after.answers == s.answers)
            && (Fits(outcome, t.role) ==>
                  && after.answers == s.answers + [Answer(task, t.run, t.role, outcome.value, t.begun)]
                  && after.slots == (if |rest| < s.limit then rest else rest[1..])
                                    + [Slot(t.run, outcome.value, s.clock, t.begun)])
  {
    hide Recent, Stripe, Locked, Without;
    WithoutShrinks(s.slots, s.tasks[task].run);
  }

  /** The next caller in the same role is answered from the cache. */
  lemma LoadedIsServed(s: State, task: nat, p: Prepared, other: nat)
    requires Invariant(s) && Enabled(s, Loaded(task, Some(p))) && Fits(Some(p), s.tasks[task].role)
    requires other !in s.tasks
    ensures var run, role := s.tasks[task].run, s.tasks[task].role;
            var loaded := Apply(s, Loaded(task, Some(p)));
            && loaded.limit >= 1 && Enabled(loaded, Ask(other, run, role))
            && var after := Apply(loaded, Ask(other, run, role));
               && after.tasks == loaded.tasks
               && |after.answers| == |loaded.answers| + 1
               && after.answers[|loaded.answers|].prepared == p && after.answers[|loaded.answers|].task == other
  {
    hide Recent, Stripe, Locked, Without, Invariant, Lookup;
    var run, role := s.tasks[task].run, s.tasks[task].role;
    LimitIsPositive(s);
    var loaded := Apply(s, Loaded(task, Some(p)));
    StepKeeps(s, Loaded(task, Some(p)));
    LoadsExactly(s, task, Some(p));
    var x := Slot(run, p, s.clock, s.tasks[task].begun);
    assert loaded.slots[|loaded.slots| - 1] == x;
    AsksExactly(loaded, other, run, role);
  }

  lemma LimitIsPositive(s: State)
    requires Invariant(s)
    ensures s.limit >= 1
  {
  }

  // ---------------------------------------------------------------------------
  // Keeping and progress
  // ---------------------------------------------------------------------------

  /** The run is cached with this value. */
  ghost predicate Keeps(s: State, run: Uuid, p: Prepared) {
    exists x :: x in s.slots && x.run == run && x.prepared == p
  }

  /**
   A cached value leaves in just two ways: its profile is invalidated, or a preparation comes back
   for its run, or for another while the cache is full and nothing in it is older.
   */
  lemma ValueLeavesExactly(s: State, step: Step, x: Slot)
    requires Invariant(s) && Enabled(s, step) && x in s.slots
    ensures !Keeps(Apply(s, step), x.run, x.prepared) ==>
              || step == Invalidate(x.prepared.profile)
              || (step.Loaded? && s.tasks[step.task].run == x.run)
              || (step.Loaded? && |s.slots| == s.limit && x == s.slots[0])
  {
    hide Recent, Stripe, Locked, Without, Invariant, Keeps, Lookup;
    LimitIsPositive(s);
    var after := Apply(s, step);
    match step
    case Ask(task, run, role) =>
      AsksExactly(s, task, run, role);
      ServedKeeps(s, run, after, x);
    case Acquire(task) =>
      AcquiresExactly(s, task);
      ServedKeeps(s, s.tasks[task].run, after, x);
    case Loaded(task, outcome) =>
      if s.tasks[task].run != x.run && (|s.slots| != s.limit || x != s.slots[0]) {
        LoadKeepsValue(s, task, outcome, x);
      }
    case Cancel(_) => StillKept(after, x, x);
    case Invalidate(profile) =>
      if x.prepared.profile != profile {
        WithoutProfileIs(s.slots, profile, x);
        StillKept(after, x, x);
      }
  }

  lemma StillKept(s: State, x: Slot, y: Slot)
    requires y in s.slots && y.run == x.run && y.prepared == x.prepared
    ensures Keeps(s, x.run, x.prepared)
  {
  }

  lemma ServedKeeps(s: State, run: Uuid, after: State, x: Slot)
    requires x in s.slots
    requires after.slots == s.slots
             || exists y, used :: y in s.slots && y.run == run
                                  && after.slots == Without(s.slots, run) + [y.(used := used)]
                                  && (x.run == run ==> x == y)
    ensures Keeps(after, x.run, x.prepared)
  {
    if after.slots == s.slots {
      assert x in after.slots;
    } else {
      var y, used :| y in s.slots && y.run == run && after.slots == Without(s.slots, run) + [y.(used := used)]
                     && (x.run == run ==> x == y);
      WithoutIs(s.slots, run, x);
      assert after.slots[|after.slots| - 1] == y.(used := used);
      StillKept(after, x, if x.run == run then y.(used := used) else x);
    }
  }

  lemma LoadKeepsValue(s: State, task: nat, outcome: Option<Prepared>, x: Slot)
    requires Invariant(s) && Enabled(s, Loaded(task, outcome)) && x in s.slots && s.tasks[task].run != x.run
    requires |s.slots| != s.limit || x != s.slots[0]
    ensures Keeps(Apply(s, Loaded(task, outcome)), x.run, x.prepared)
  {
    hide Recent, Stripe, Locked, Without, Keeps;
    var after, run := Apply(s, Loaded(task, outcome)), s.tasks[task].run;
    var rest := Without(s.slots, run);
    LoadsExactly(s, task, outcome);
    WithoutIs(s.slots, run, x);
    WithoutShrinks(s.slots, run);
    if Fits(outcome, s.tasks[task].role) && |rest| >= s.limit {
      NothingDropped(s.slots, run);
      assert rest == s.slots;
    }
    StillKept(after, x, x);
  }

  lemma {:induction false} NothingDropped(slots: seq<Slot>, run: Uuid)
    requires |Without(slots, run)| == |slots|
    ensures Without(slots, run) == slots
  {
    if slots != [] {
      WithoutShrinks(slots[1..], run);
      NothingDropped(slots[1..], run);
    }
  }

  /** A task is never stuck: it can go on itself, or the one whose preparation holds its stripe can end. */
  lemma SomeTaskCanGoOn(s: State, task: nat)
    requires s.limit >= 1 && task in s.tasks
    ensures Enabled(s, Cancel(task))
    ensures || Enabled(s, Acquire(task))
            || exists holder ::
                 && holder in s.tasks && s.tasks[holder].Preparing?
                 && s.tasks[holder].run % Stripes(s.limit) == s.tasks[task].run % Stripes(s.limit)
                 && (forall outcome :: Enabled(s, Loaded(holder, outcome)))
                 && holder !in Apply(s, Loaded(holder, None)).tasks
  {
    hide Locked, Stripe;
    var run := s.tasks[task].run;
    LockedExactly(s, run);
    if s.tasks[task].Preparing? {
      assert task !in Apply(s, Loaded(task, None)).tasks;
    } else if Locked(s, Stripe(s.limit, run)) {
      var holder :| holder in s.tasks && s.tasks[holder].Preparing?
                    && s.tasks[holder].run % Stripes(s.limit) == run % Stripes(s.limit);
      assert holder !in Apply(s, Loaded(holder, None)).tasks;
    }
  }
}
