/**
 The bounded cache of prepared model runs.  Between two await points a task runs alone, so the
 interleavings are sequences of the segments below: asking, taking the stripe's lock, coming
 back from the durable store, being cancelled, and invalidation.
 */
module PreparedCache {
  import opened Basics

  datatype Role = MainAi | OtherRole(n: nat)

  datatype Prepared = Prepared(profile: Uuid, role: Role, bindingRole: Role, body: nat)

  /**
   An entry of the ordered dictionary.  `used` is when it was last put or moved to the end, and
   `begun` is when the preparation it came from took its lock; neither is stored by the program.
   */
  datatype Slot = Slot(run: Uuid, prepared: Prepared, used: nat, begun: nat)

  predicate Has(slots: seq<Slot>, run: Uuid) {
    exists i | 0 <= i < |slots| :: slots[i].run == run
  }

  function Lookup(slots: seq<Slot>, run: Uuid): (found: Option<Slot>)
    ensures found.Some? <==> Has(slots, run)
    ensures found.Some? ==> found.value in slots && found.value.run == run
  {
    if slots == [] then None
    else if slots[0].run == run then Some(slots[0])
    else
      assert Has(slots[1..], run) ==> Has(slots, run);
      assert Has(slots, run) ==> Has(slots[1..], run);
      Lookup(slots[1..], run)
  }

  function Without(slots: seq<Slot>, run: Uuid): seq<Slot> {
    if slots == [] then []
    else (if slots[0].run == run then [] else [slots[0]]) + Without(slots[1..], run)
  }

  /** Setting a key and moving it to the end. */
  function Put(slots: seq<Slot>, x: Slot): seq<Slot> {
    Without(slots, x.run) + [x]
  }

  /** Dropping the first entry until the limit is kept. */
  function Trimmed(slots: seq<Slot>, limit: nat): seq<Slot> {
    if |slots| <= limit then slots else slots[|slots| - limit..]
  }

  function WithoutProfile(slots: seq<Slot>, profile: Uuid): seq<Slot> {
    if slots == [] then []
    else
      (if slots[0].prepared.profile == profile then [] else [slots[0]]) + WithoutProfile(slots[1..], profile)
  }

  lemma {:induction false} WithoutIs(slots: seq<Slot>, run: Uuid, x: Slot)
    ensures x in Without(slots, run) <==> x in slots && x.run != run
  {
    if slots != [] {
      WithoutIs(slots[1..], run, x);
      assert x in slots <==> x == slots[0] || x in slots[1..];
    }
  }

  lemma {:induction false} WithoutShrinks(slots: seq<Slot>, run: Uuid)
    ensures |Without(slots, run)| <= |slots| && (Has(slots, run) ==> |Without(slots, run)| < |slots|)
  {
    if slots != [] {
      WithoutShrinks(slots[1..], run);
      if Has(slots, run) && slots[0].run != run {
        var i :| 0 <= i < |slots| && slots[i].run == run;
        assert slots[1..][i - 1].run == run;
      }
    }
  }

  /** Invalidation keeps exactly the entries of other profiles. */
  lemma {:induction false} WithoutProfileIs(slots: seq<Slot>, profile: Uuid, x: Slot)
    ensures x in WithoutProfile(slots, profile) <==> x in slots && x.prepared.profile != profile
  {
    if slots != [] {
      WithoutProfileIs(slots[1..], profile, x);
      assert x in slots <==> x == slots[0] || x in slots[1..];
    }
  }

  // ---------------------------------------------------------------------------
  // Segments
  // ---------------------------------------------------------------------------

  datatype Phase = Waiting(run: Uuid, role: Role) | Preparing(run: Uuid, role: Role, begun: nat)

  datatype Answer = Answer(task: nat, run: Uuid, role: Role, prepared: Prepared, begun: nat)

  /**
   `given` collects what the durable store has ever returned, `answers` what callers have
   received, and `clock` counts segments.
   */
  datatype State = State(limit: nat, slots: seq<Slot>, tasks: map<nat, Phase>, clock: nat,
                         given: set<(Uuid, Prepared)>, answers: seq<Answer>)

  datatype Step =
    | Ask(task: nat, run: Uuid, role: Role)
    | Acquire(task: nat)
    | Loaded(task: nat, outcome: Option<Prepared>)
    | Cancel(task: nat)
    | Invalidate(profile: Uuid)

  function Stripe(limit: nat, run: Uuid): nat
    requires limit >= 1
  {
    run % (if limit <= 64 then limit else 64)
  }

  predicate Locked(s: State, stripe: nat)
    requires s.limit >= 1
  {
    exists t | t in s.tasks :: s.tasks[t].Preparing? && Stripe(s.limit, s.tasks[t].run) == stripe
  }

  /** A hit: refused for the wrong role, otherwise moved to the end and returned. */
  function Hit(s: State, task: nat, role: Role, found: Slot): State {
    if found.prepared.role != role then s
    else
      s.(slots := Put(s.slots, found.(used := s.clock)),
         answers := s.answers + [Answer(task, found.run, role, found.prepared, found.begun)])
  }

  predicate Enabled(s: State, step: Step)
    requires s.limit >= 1
  {
    match step
    case Ask(task, _, _) => task !in s.tasks
    case Acquire(task) => task in s.tasks && s.tasks[task].Waiting? && !Locked(s, Stripe(s.limit, s.tasks[task].run))
    case Loaded(task, _) => task in s.tasks && s.tasks[task].Preparing?
    case Cancel(task) => task in s.tasks
    case Invalidate(_) => true
  }

  function Segment(s: State, step: Step): State
    requires s.limit >= 1 && Enabled(s, step)
  {
    match step
    case Ask(task, run, role) =>
      var cached := Lookup(s.slots, run);
      if cached.Some? then Hit(s, task, role, cached.value)
      else s.(tasks := s.tasks[task := Waiting(run, role)])
    case Acquire(task) =>
      var run, role := s.tasks[task].run, s.tasks[task].role;
      var cached := Lookup(s.slots, run);
      if cached.Some? then Hit(s, task, role, cached.value).(tasks := s.tasks - {task})
      else s.(tasks := s.tasks[task := Preparing(run, role, s.clock)])
    case Loaded(task, outcome) =>
      var run, role, begun := s.tasks[task].run, s.tasks[task].role, s.tasks[task].begun;
      var released := s.(tasks := s.tasks - {task},
                         given := s.given + if outcome.Some? then {(run, outcome.value)} else {});
      if outcome.None? || outcome.value.role != role || outcome.value.bindingRole != role then released
      else
        released.(slots := Trimmed(Put(s.slots, Slot(run, outcome.value, s.clock, begun)), s.limit),
                  answers := s.answers + [Answer(task, run, role, outcome.value, begun)])
    case Cancel(task) => s.(tasks := s.tasks - {task})
    case Invalidate(profile) => s.(slots := WithoutProfile(s.slots, profile))
  }

  function Apply(s: State, step: Step): State
    requires s.limit >= 1 && Enabled(s, step)
  {
    Segment(s, step).(clock := s.clock + 1)
  }

  // ---------------------------------------------------------------------------
  // The durable store
  // ---------------------------------------------------------------------------

  /** What the durable store may answer for a run asked for in a role. */
  type Store = (Uuid, Role, Prepared) -> bool

  predicate Permits(store: Store, s: State, step: Step) {
    step.Loaded? && step.outcome.Some? && step.task in s.tasks ==>
      store(s.tasks[step.task].run, s.tasks[step.task].role, step.outcome.value)
  }

  /** The profile and logical role a run was created for; neither changes. */
  datatype Binding = Binding(profile: Uuid, role: Role)

  /**
   The repository's answers: only for main generations, only in the run's own role, which is
   that of its configuration and credential, and only for the profile the run is bound to.
   */
  function StoreOf(bindings: map<Uuid, Binding>): Store {
    (run: Uuid, role: Role, p: Prepared) =>
      role == MainAi && run in bindings && bindings[run] == Binding(p.profile, role)
      && p.role == role && p.bindingRole == role
  }

  // ---------------------------------------------------------------------------
  // What every interleaving keeps
  // ---------------------------------------------------------------------------

  /** Runs appear once, least recently used first. */
  ghost predicate Recent(slots: seq<Slot>, clock: nat) {
    && (forall i, j | 0 <= i < j < |slots| :: slots[i].used < slots[j].used && slots[i].run != slots[j].run)
    && (forall i | 0 <= i < |slots| :: slots[i].used < clock)
  }

  predicate Vouched(given: set<(Uuid, Prepared)>, run: Uuid, p: Prepared) {
    (run, p) in given && p.role == p.bindingRole
  }

  ghost predicate Invariant(s: State) {
    && 1 <= s.limit <= 4096
    && |s.slots| <= s.limit
    && Recent(s.slots, s.clock)
    && (forall t, u | t in s.tasks && u in s.tasks && t != u && s.tasks[t].Preparing? && s.tasks[u].Preparing? ::
          Stripe(s.limit, s.tasks[t].run) != Stripe(s.limit, s.tasks[u].run))
    && (forall x | x in s.slots :: Vouched(s.given, x.run, x.prepared))
    && (forall a | a in s.answers :: Vouched(s.given, a.run, a.prepared) && a.prepared.role == a.role)
  }

  lemma RecentTail(slots: seq<Slot>, clock: nat)
    requires Recent(slots, clock) && slots != []
    ensures Recent(slots[1..], clock) && slots[0].used < clock
    ensures forall x | x in slots[1..] :: slots[0].used < x.used && slots[0].run != x.run
  {
  }

  lemma RecentCons(first: Slot, rest: seq<Slot>, clock: nat)
    requires Recent(rest, clock) && first.used < clock
    requires forall x | x in rest :: first.used < x.used && first.run != x.run
    ensures Recent([first] + rest, clock)
  {
    assert forall j | 0 <= j < |rest| :: rest[j] in rest;
  }

  lemma {:induction false} WithoutKeepsOrder(slots: seq<Slot>, run: Uuid, clock: nat)
    requires Recent(slots, clock)
    ensures Recent(Without(slots, run), clock)
  {
    hide Recent;
    if slots != [] {
      RecentTail(slots, clock);
      WithoutKeepsOrder(slots[1..], run, clock);
      var rest := Without(slots[1..], run);
      if slots[0].run == run {
        assert Without(slots, run) == rest;
      } else {
        forall x | x in rest
          ensures slots[0].used < x.used && slots[0].run != x.run
        {
          WithoutIs(slots[1..], run, x);
        }
        RecentCons(slots[0], rest, clock);
      }
    }
  }

  lemma PutKeepsOrder(slots: seq<Slot>, x: Slot)
    requires Recent(slots, x.used)
    ensures Recent(Put(slots, x), x.used + 1)
  {
    hide Without;
    WithoutKeepsOrder(slots, x.run, x.used);
    var rest := Without(slots, x.run);
    forall j | 0 <= j < |rest|
      ensures rest[j].run != x.run
    {
      WithoutIs(slots, x.run, rest[j]);
    }
  }

  lemma PutIs(slots: seq<Slot>, x: Slot)
    ensures forall y :: y in Put(slots, x) <==> (y in slots && y.run != x.run) || y == x
    ensures |Put(slots, x)| <= |slots| + if Has(slots, x.run) then 0 else 1
  {
    hide Has, Without;
    WithoutShrinks(slots, x.run);
    forall y
      ensures y in Put(slots, x) <==> (y in slots && y.run != x.run) || y == x
    {
      WithoutIs(slots, x.run, y);
    }
  }

  lemma RecentLater(slots: seq<Slot>, clock: nat)
    requires Recent(slots, clock)
    ensures Recent(slots, clock + 1)
  {
  }

  lemma {:induction false} ProfileKeepsOrder(slots: seq<Slot>, profile: Uuid, clock: nat)
    requires Recent(slots, clock)
    ensures Recent(WithoutProfile(slots, profile), clock) && |WithoutProfile(slots, profile)| <= |slots|
  {
    hide Recent;
    if slots != [] {
      RecentTail(slots, clock);
      ProfileKeepsOrder(slots[1..], profile, clock);
      var rest := WithoutProfile(slots[1..], profile);
      if slots[0].prepared.profile == profile {
        assert WithoutProfile(slots, profile) == rest;
      } else {
        forall x | x in rest
          ensures slots[0].used < x.used && slots[0].run != x.run
        {
          WithoutProfileIs(slots[1..], profile, x);
        }
        RecentCons(slots[0], rest, clock);
      }
    }
  }

  lemma HitKeeps(s: State, task: nat, role: Role, found: Slot)
    requires Invariant(s) && found in s.slots
    ensures Invariant(Hit(s, task, role, found).(clock := s.clock + 1))
    ensures Hit(s, task, role, found).limit == s.limit && Hit(s, task, role, found).tasks == s.tasks
  {
    hide Without, Recent, Stripe;
    RecentLater(s.slots, s.clock);
    PutKeepsOrder(s.slots, found.(used := s.clock));
    PutIs(s.slots, found.(used := s.clock));
    assert Has(s.slots, found.run) by {
      var i :| 0 <= i < |s.slots| && s.slots[i] == found;
    }
  }

  lemma TrimKeeps(slots: seq<Slot>, limit: nat, clock: nat)
    requires Recent(slots, clock)
    ensures Recent(Trimmed(slots, limit), clock) && |Trimmed(slots, limit)| <= limit
    ensures forall x | x in Trimmed(slots, limit) :: x in slots
  {
    hide Vouched;
  }

  lemma StepKeeps(s: State, step: Step)
    requires Invariant(s) && Enabled(s, step)
    ensures Invariant(Apply(s, step)) && Apply(s, step).limit == s.limit
  {
    hide Lookup, Without, Recent, Stripe, Trimmed, WithoutProfile, Hit;
    RecentLater(s.slots, s.clock);
    match step
    case Ask(task, run, role) =>
      if Lookup(s.slots, run).Some? {
        HitKeeps(s, task, role, Lookup(s.slots, run).value);
      }
    case Acquire(task) =>
      var run, role := s.tasks[task].run, s.tasks[task].role;
      if Lookup(s.slots, run).Some? {
        HitKeeps(s, task, role, Lookup(s.slots, run).value);
      }
    case Loaded(task, outcome) => LoadKeeps(s, task, outcome);
    case Cancel(_) =>
    case Invalidate(profile) =>
      ProfileKeepsOrder(s.slots, profile, s.clock + 1);
      forall x | x in WithoutProfile(s.slots, profile)
        ensures x in s.slots
      {
        WithoutProfileIs(s.slots, profile, x);
      }
  }

  lemma LoadKeeps(s: State, task: nat, outcome: Option<Prepared>)
    requires Invariant(s) && Enabled(s, Loaded(task, outcome))
    ensures Invariant(Apply(s, Loaded(task, outcome)))
  {
    hide Lookup, Without, Recent, Stripe, Trimmed, Locked;
    RecentLater(s.slots, s.clock);
    if outcome.Some? {
      var x := Slot(s.tasks[task].run, outcome.value, s.clock, s.tasks[task].begun);
      PutKeepsOrder(s.slots, x);
      TrimKeeps(Put(s.slots, x), s.limit, s.clock + 1);
      PutIs(s.slots, x);
    }
  }

  /** A run in which the durable store answers as it may. */
  ghost predicate Runs(store: Store, s: State, steps: seq<Step>, after: State)
    decreases |steps|
  {
    if steps == [] then after == s
    else
      exists mid: State ::
        && Runs(store, s, steps[..|steps| - 1], mid) && mid.limit >= 1
        && Goes(store, mid, steps[|steps| - 1], after)
  }

  predicate Goes(store: Store, s: State, step: Step, after: State)
    requires s.limit >= 1
  {
    Enabled(s, step) && Permits(store, s, step) && after == Apply(s, step)
  }

  function Fresh(limit: nat): State {
    State(limit, [], map[], 0, {}, [])
  }

  lemma {:induction false} RunKeeps(store: Store, s: State, steps: seq<Step>, after: State)
    requires Invariant(s) && Runs(store, s, steps, after)
    ensures Invariant(after) && after.limit == s.limit
  {
    hide Invariant, Apply, Enabled;
    if steps != [] {
      var mid :| Runs(store, s, steps[..|steps| - 1], mid) && mid.limit >= 1
                 && Goes(store, mid, steps[|steps| - 1], after);
      RunKeeps(store, s, steps[..|steps| - 1], mid);
      StepKeeps(mid, steps[|steps| - 1]);
    }
  }

  /**
   From an empty cache, under any interleaving and whatever the store answers: never more than
   the limit, never two durable preparations of one run, and every caller got a value the
   durable store gave for that run, with the role it asked for in both the configuration and
   the credential.
   */
  lemma CacheIsSound(store: Store, limit: nat, steps: seq<Step>, after: State)
    requires 1 <= limit <= 4096 && Runs(store, Fresh(limit), steps, after)
    ensures |after.slots| <= limit
    ensures forall t, u | t in after.tasks && u in after.tasks && after.tasks[t].Preparing? && after.tasks[u].Preparing?
                          && after.tasks[t].run == after.tasks[u].run :: t == u
    ensures forall a | a in after.answers ::
              (a.run, a.prepared) in after.given && a.prepared.role == a.role && a.prepared.bindingRole == a.role
  {
    hide Runs, Recent, Stripe;
    FreshIsSound(limit);
    RunKeeps(store, Fresh(limit), steps, after);
  }

  lemma FreshIsSound(limit: nat)
    requires 1 <= limit <= 4096
    ensures Invariant(Fresh(limit))
  {
  }

  lemma TrimHas(slots: seq<Slot>, limit: nat, i: nat)
    requires i < |slots|
    ensures i >= |slots| - |Trimmed(slots, limit)| ==> slots[i] in Trimmed(slots, limit)
  {
    var after := Trimmed(slots, limit);
    assert forall j | 0 <= j < |after| :: after[j] == slots[|slots| - |after| + j];
    if i >= |slots| - |after| {
      assert after[i - (|slots| - |after|)] == slots[i];
    }
  }

  lemma TrimDropsOldest(slots: seq<Slot>, limit: nat, clock: nat, x: Slot, y: Slot)
    requires Recent(slots, clock)
    requires x in slots && x !in Trimmed(slots, limit) && y in Trimmed(slots, limit)
    ensures x.used < y.used
  {
    var after := Trimmed(slots, limit);
    var cut := |slots| - |after|;
    var i :| 0 <= i < |slots| && slots[i] == x;
    var j :| 0 <= j < |after| && after[j] == y;
    assert slots[cut + j] == y;
    TrimHas(slots, limit, i);
  }

  /** What a load pushes out was used before everything it keeps. */
  lemma EvictsLeastRecent(s: State, task: nat, p: Prepared, x: Slot, y: Slot)
    requires Invariant(s) && Enabled(s, Loaded(task, Some(p)))
    requires var after := Apply(s, Loaded(task, Some(p))).slots;
             x in s.slots && x.run != s.tasks[task].run && x !in after && y in after
    ensures x.used < y.used
  {
    hide Stripe, Locked, Lookup, Put, Recent, Trimmed;
    var slot := Slot(s.tasks[task].run, p, s.clock, s.tasks[task].begun);
    PutKeepsOrder(s.slots, slot);
    PutIs(s.slots, slot);
    TrimDropsOldest(Put(s.slots, slot), s.limit, s.clock + 1, x, y);
  }

  // ---------------------------------------------------------------------------
  // Invalidation
  // ---------------------------------------------------------------------------

  lemma WithoutProfileNext(slots: seq<Slot>, i: nat, profile: Uuid)
    requires i < |slots|
    ensures WithoutProfile(slots[i..], profile)
            == (if slots[i].prepared.profile == profile then [] else [slots[i]])
               + WithoutProfile(slots[i + 1..], profile)
  {
    assert slots[i..][1..] == slots[i + 1..];
  }

  lemma WithoutProfileOfNone(profile: Uuid)
    ensures WithoutProfile([], profile) == []
  {
  }

  class Cache {
    var slots: seq<Slot>

    constructor ()
      ensures slots == []
    {
      slots := [];
    }

    /** `invalidate_profile`: exactly the entries cached for the profile go, and they are counted. */
    method InvalidateProfile(profile: Uuid) returns (evicted: nat)
      modifies this
      ensures slots == WithoutProfile(old(slots), profile)
      ensures evicted == |old(slots)| - |slots|
    {
      hide WithoutProfile;
      var kept := [];
      evicted := 0;
      WithoutProfileOfNone(profile);
      assert slots[0..] == slots;
      for i := 0 to |slots|
        invariant slots == old(slots)
        invariant kept + WithoutProfile(slots[i..], profile) == WithoutProfile(slots, profile)
        invariant evicted == i - |kept|
      {
        ghost var rest := WithoutProfile(slots[i + 1..], profile);
        WithoutProfileNext(slots, i, profile);
        if slots[i].prepared.profile == profile {
          evicted := evicted + 1;
        } else {
          assert kept + ([slots[i]] + rest) == kept + [slots[i]] + rest;
          kept := kept + [slots[i]];
        }
      }
      assert slots[|slots|..] == [];
      slots := kept;
    }

    /** The cached part of `_prepare`; see `ServedEntryIsNewest` for what a served entry becomes. */
    method Serve(run: Uuid, role: Role, now: nat) returns (hit: bool, served: Option<Prepared>)
      modifies this
      ensures hit <==> Has(old(slots), run)
      ensures served == if hit && Lookup(old(slots), run).value.prepared.role == role
                        then Some(Lookup(old(slots), run).value.prepared) else None
      ensures served.Some? ==> exists x | x in old(slots) ::
                x.run == run && x.prepared == served.value && served.value.role == role
                && slots == Put(old(slots), x.(used := now))
      ensures served.None? ==> slots == old(slots)
    {
      var cached := Lookup(slots, run);
      if cached.None? {
        return false, None;
      }
      if cached.value.prepared.role != role {
        return true, None;
      }
      slots := Put(slots, cached.value.(used := now));
      return true, Some(cached.value.prepared);
    }

    /** Storing a prepared run and dropping the oldest entries above the limit. */
    method Store(x: Slot, limit: nat)
      modifies this
      ensures slots == Trimmed(Put(old(slots), x), limit)
    {
      slots := Put(slots, x);
      ghost var put := slots;
      while |slots| > limit
        invariant |slots| <= |put| && slots == put[|put| - |slots|..]
        invariant |put| > limit ==> |slots| >= limit
        invariant |put| <= limit ==> slots == put
      {
        slots := slots[1..];
      }
    }
  }

  /** Serving moves one entry to the end with its value as it was; all others stay, in their order. */
  lemma ServedEntryIsNewest(slots: seq<Slot>, x: Slot, now: nat)
    requires Recent(slots, now) && x in slots
    ensures var after := Put(slots, x.(used := now));
            && |after| == |slots| && after[|after| - 1] == x.(used := now)
            && after[..|after| - 1] == Without(slots, x.run)
            && (forall y: Slot | y.run != x.run :: y in after <==> y in slots)
            && Recent(after, now + 1)
  {
    hide Recent, Without;
    PutKeepsOrder(slots, x.(used := now));
    PutIs(slots, x.(used := now));
    WithoutDropsOne(slots, x, now);
  }

  lemma {:induction false} WithoutDropsOne(slots: seq<Slot>, x: Slot, clock: nat)
    requires Recent(slots, clock) && x in slots
    ensures |Without(slots, x.run)| == |slots| - 1
  {
    hide Recent;
    RecentTail(slots, clock);
    if slots[0] == x {
      WithoutAbsent(slots[1..], x.run);
    } else {
      assert x in slots[1..];
      WithoutDropsOne(slots[1..], x, clock);
    }
  }

  lemma {:induction false} WithoutAbsent(slots: seq<Slot>, run: Uuid)
    requires forall y | y in slots :: y.run != run
    ensures Without(slots, run) == slots
  {
    if slots != [] {
      WithoutAbsent(slots[1..], run);
    }
  }

  // ---------------------------------------------------------------------------
  // What an invalidation cannot reach
  // ---------------------------------------------------------------------------

  /** A preparation that a task is in. */
  ghost predicate PreparedIn(s: State, phase: Phase) {
    phase.Preparing? && exists t :: t in s.tasks && s.tasks[t] == phase
  }

  /**
   In this state a preparation is in flight for which the store may give a value of the profile
   that passes the checks of its caller.
   */
  ghost predicate InFlight(store: Store, s: State, profile: Uuid) {
    exists run, role, begun, p: Prepared ::
      && PreparedIn(s, Preparing(run, role, begun)) && store(run, role, p)
      && p.profile == profile && p.role == role && p.bindingRole == role
  }

  /** A value of the profile that was prepared from before the invalidation in `s`. */
  predicate Stale(s: State, profile: Uuid, p: Prepared, begun: nat) {
    p.profile == profile && begun < s.clock
  }

  /** The value is what a preparation in flight in `s` came to. */
  ghost predicate CameOf(store: Store, s: State, run: Uuid, p: Prepared, begun: nat) {
    PreparedIn(s, Preparing(run, p.role, begun)) && store(run, p.role, p) && p.bindingRole == p.role
  }

  /**
   Since the invalidation in `s`, whatever is older comes from a preparation that was in
   flight then: preparations still running, entries of the profile, and answers given after.
   */
  ghost predicate StaleIsInFlight(store: Store, s: State, profile: Uuid, later: State) {
    && s.clock < later.clock
    && (forall t | t in later.tasks && later.tasks[t].Preparing? && later.tasks[t].begun < s.clock ::
          PreparedIn(s, later.tasks[t]))
    && (forall x | x in later.slots && Stale(s, profile, x.prepared, x.begun) ::
          CameOf(store, s, x.run, x.prepared, x.begun))
    && |s.answers| <= |later.answers|
    && (forall i | |s.answers| <= i < |later.answers|
                   && Stale(s, profile, later.answers[i].prepared, later.answers[i].begun) ::
          CameOf(store, s, later.answers[i].run, later.answers[i].prepared, later.answers[i].begun))
  }

  lemma InvalidationStarts(store: Store, s: State, profile: Uuid)
    requires s.limit >= 1
    ensures StaleIsInFlight(store, s, profile, Apply(s, Invalidate(profile)))
  {
    hide WithoutProfile;
    forall t | t in s.tasks && s.tasks[t].Preparing?
      ensures PreparedIn(s, s.tasks[t])
    {
    }
    forall x | x in WithoutProfile(s.slots, profile)
      ensures x.prepared.profile != profile
    {
      WithoutProfileIs(s.slots, profile, x);
    }
  }

  lemma HitKeepsStale(store: Store, s: State, profile: Uuid, mid: State, task: nat, role: Role, found: Slot)
    requires StaleIsInFlight(store, s, profile, mid) && found in mid.slots
    ensures StaleIsInFlight(store, s, profile, Hit(mid, task, role, found).(clock := mid.clock + 1))
    ensures StaleIsInFlight(
              store, s, profile, Hit(mid, task, role, found).(clock := mid.clock + 1, tasks := mid.tasks - {task}))
  {
    hide Put, PreparedIn, CameOf;
    PutIs(mid.slots, found.(used := mid.clock));
    assert Stale(s, profile, found.prepared, found.begun) ==>
             CameOf(store, s, found.run, found.prepared, found.begun);
  }

  lemma LoadKeepsStale(store: Store, s: State, profile: Uuid, mid: State, task: nat, outcome: Option<Prepared>)
    requires mid.limit >= 1 && StaleIsInFlight(store, s, profile, mid)
    requires Enabled(mid, Loaded(task, outcome)) && Permits(store, mid, Loaded(task, outcome))
    ensures StaleIsInFlight(store, s, profile, Apply(mid, Loaded(task, outcome)))
  {
    hide Put, PreparedIn, Trimmed, Stripe, Locked;
    if outcome.Some? {
      var x := Slot(mid.tasks[task].run, outcome.value, mid.clock, mid.tasks[task].begun);
      PutIs(mid.slots, x);
      TrimIsPart(Put(mid.slots, x), mid.limit);
    }
  }

  lemma TrimIsPart(slots: seq<Slot>, limit: nat)
    ensures forall x | x in Trimmed(slots, limit) :: x in slots
  {
  }

  lemma StepKeepsStale(store: Store, s: State, profile: Uuid, mid: State, step: Step)
    requires mid.limit >= 1 && StaleIsInFlight(store, s, profile, mid) && Enabled(mid, step)
    requires Permits(store, mid, step)
    ensures StaleIsInFlight(store, s, profile, Apply(mid, step))
  {
    hide Lookup, Put, PreparedIn, CameOf, Trimmed, WithoutProfile, Stripe, Locked, Hit;
    match step
    case Ask(task, run, role) =>
      if Lookup(mid.slots, run).Some? {
        HitKeepsStale(store, s, profile, mid, task, role, Lookup(mid.slots, run).value);
      }
    case Acquire(task) =>
      var run, role := mid.tasks[task].run, mid.tasks[task].role;
      if Lookup(mid.slots, run).Some? {
        HitKeepsStale(store, s, profile, mid, task, role, Lookup(mid.slots, run).value);
      }
    case Loaded(task, outcome) => LoadKeepsStale(store, s, profile, mid, task, outcome);
    case Cancel(_) =>
    case Invalidate(other) =>
      forall x | x in WithoutProfile(mid.slots, other)
        ensures x in mid.slots
      {
        WithoutProfileIs(mid.slots, other, x);
      }
  }

  /** Over any run after an invalidation, what is older than it was in flight at it. */
  lemma {:induction false} RunKeepsStale(store: Store, s: State, profile: Uuid, steps: seq<Step>, later: State)
    requires s.limit >= 1 && Runs(store, Apply(s, Invalidate(profile)), steps, later)
    ensures StaleIsInFlight(store, s, profile, later)
  {
    hide Apply, Permits, StaleIsInFlight;
    if steps == [] {
      InvalidationStarts(store, s, profile);
    } else {
      var front, last := steps[..|steps| - 1], steps[|steps| - 1];
      var mid :| Runs(store, Apply(s, Invalidate(profile)), front, mid) && mid.limit >= 1
                 && Goes(store, mid, last, later);
      RunKeepsStale(store, s, profile, front, mid);
      StepKeepsStale(store, s, profile, mid, last);
    }
  }

  /** A later state holds an entry, or has given an answer, that the invalidation should have prevented. */
  ghost predicate Survives(s: State, profile: Uuid, later: State) {
    || (exists x: Slot :: x in later.slots && Stale(s, profile, x.prepared, x.begun))
    || (exists i :: |s.answers| <= i < |later.answers|
                    && Stale(s, profile, later.answers[i].prepared, later.answers[i].begun))
  }

  /** Preparations began earlier than now. */
  ghost predicate BegunBefore(s: State) {
    forall t | t in s.tasks && s.tasks[t].Preparing? :: s.tasks[t].begun < s.clock
  }

  /** After the invalidation in `s`, some run brings an older value of the profile back. */
  ghost predicate CanReturn(store: Store, s: State, profile: Uuid)
    requires s.limit >= 1
  {
    exists steps: seq<Step>, later: State ::
      Runs(store, Apply(s, Invalidate(profile)), steps, later) && Survives(s, profile, later)
  }

  /**
   Whatever the store may answer, an invalidation takes effect for good exactly when no
   preparation is in flight that may come to a value of the profile: then every later entry and
   answer of the profile was prepared from scratch after it; otherwise some run brings one back.
   */
  lemma InvalidationHoldsExactly(store: Store, s: State, profile: Uuid)
    requires s.limit >= 1 && BegunBefore(s)
    ensures CanReturn(store, s, profile) <==> InFlight(store, s, profile)
  {
    hide Survives, Runs, Apply, PreparedIn, BegunBefore;
    if CanReturn(store, s, profile) {
      var steps: seq<Step>, later: State :|
        Runs(store, Apply(s, Invalidate(profile)), steps, later) && Survives(s, profile, later);
      RunKeepsStale(store, s, profile, steps, later);
      SurvivorWasInFlight(store, s, profile, later);
    }
    if InFlight(store, s, profile) {
      var run, role, begun, p: Prepared :|
        && PreparedIn(s, Preparing(run, role, begun)) && store(run, role, p)
        && p.profile == profile && p.role == role && p.bindingRole == role;
      InFlightSurvives(store, s, run, begun, p);
    }
  }

  lemma SurvivorWasInFlight(store: Store, s: State, profile: Uuid, later: State)
    requires StaleIsInFlight(store, s, profile, later) && Survives(s, profile, later)
    ensures InFlight(store, s, profile)
  {
    hide PreparedIn;
  }

  lemma InFlightSurvives(store: Store, s: State, run: Uuid, begun: nat, p: Prepared)
    requires s.limit >= 1 && BegunBefore(s)
    requires PreparedIn(s, Preparing(run, p.role, begun)) && store(run, p.role, p) && p.bindingRole == p.role
    ensures CanReturn(store, s, p.profile)
  {
    hide WithoutProfile, Put, Trimmed, Runs;
    var t :| t in s.tasks && s.tasks[t] == Preparing(run, p.role, begun);
    var mid := Apply(s, Invalidate(p.profile));
    var load := Loaded(t, Some(p));
    var later := Apply(mid, load);
    OneStepRuns(store, mid, load);
    assert |later.answers| == |s.answers| + 1;
    assert Stale(s, p.profile, later.answers[|s.answers|].prepared, later.answers[|s.answers|].begun);
    assert Survives(s, p.profile, later);
  }

  lemma OneStepRuns(store: Store, s: State, step: Step)
    requires s.limit >= 1 && Enabled(s, step) && Permits(store, s, step)
    ensures Runs(store, s, [step], Apply(s, step))
  {
    hide Apply, Enabled, Permits;
    assert [step][..0] == [];
    assert Runs(store, s, [], s);
  }

  lemma StepBeginsBefore(s: State, step: Step)
    requires s.limit >= 1 && Enabled(s, step) && BegunBefore(s)
    ensures BegunBefore(Apply(s, step))
  {
    hide Lookup, Put, Trimmed, WithoutProfile, Locked, Stripe;
  }

  lemma {:induction false} RunsBeginBefore(store: Store, limit: nat, steps: seq<Step>, s: State)
    requires Runs(store, Fresh(limit), steps, s)
    ensures BegunBefore(s)
  {
    hide Permits, Apply, Enabled;
    if steps != [] {
      var front, last := steps[..|steps| - 1], steps[|steps| - 1];
      var mid :| Runs(store, Fresh(limit), front, mid) && mid.limit >= 1
                 && Goes(store, mid, last, s);
      RunsBeginBefore(store, limit, front, mid);
      StepBeginsBefore(mid, last);
    }
  }

  /** Some task is preparing a main generation of a run bound to the profile. */
  predicate PreparingFor(bindings: map<Uuid, Binding>, s: State, profile: Uuid) {
    exists t | t in s.tasks ::
      && s.tasks[t].Preparing? && s.tasks[t].role == MainAi
      && s.tasks[t].run in bindings && bindings[s.tasks[t].run] == Binding(profile, MainAi)
  }

  lemma InFlightIsPreparing(bindings: map<Uuid, Binding>, s: State, profile: Uuid)
    ensures InFlight(StoreOf(bindings), s, profile) <==> PreparingFor(bindings, s, profile)
  {
    if PreparingFor(bindings, s, profile) {
      var t :| t in s.tasks && s.tasks[t].Preparing? && s.tasks[t].role == MainAi
               && s.tasks[t].run in bindings && bindings[s.tasks[t].run] == Binding(profile, MainAi);
      assert PreparedIn(s, Preparing(s.tasks[t].run, MainAi, s.tasks[t].begun));
      assert StoreOf(bindings)(s.tasks[t].run, MainAi, Prepared(profile, MainAi, MainAi, 0));
    }
  }

  /** In every reachable state, with the repository as the store. */
  lemma ReachedInvalidationHoldsExactly(bindings: map<Uuid, Binding>, limit: nat, before: seq<Step>, s: State,
                                        profile: Uuid)
    requires 1 <= limit <= 4096 && Runs(StoreOf(bindings), Fresh(limit), before, s)
    ensures s.limit >= 1
    ensures CanReturn(StoreOf(bindings), s, profile) <==> PreparingFor(bindings, s, profile)
  {
    hide Invariant, Runs, CanReturn, InFlight, PreparingFor, StoreOf;
    var store := StoreOf(bindings);
    FreshIsSound(limit);
    RunKeeps(store, Fresh(limit), before, s);
    RunsBeginBefore(store, limit, before, s);
    InvalidationHoldsExactly(store, s, profile);
    InFlightIsPreparing(bindings, s, profile);
  }

  function WitnessBindings(profile: Uuid): map<Uuid, Binding> {
    map[1 := Binding(profile, MainAi)]
  }

  function WitnessInFlight(): State {
    State(1, [], map[0 := Preparing(1, MainAi, 1)], 2, {}, [])
  }

  lemma WitnessIsReached(store: Store)
    ensures Runs(store, Fresh(1), [Ask(0, 1, MainAi), Acquire(0)], WitnessInFlight())
  {
    var asked := State(1, [], map[0 := Waiting(1, MainAi)], 1, {}, []);
    assert Apply(Fresh(1), Ask(0, 1, MainAi)) == asked;
    OneStepRuns(store, Fresh(1), Ask(0, 1, MainAi));
    assert Apply(asked, Acquire(0)) == WitnessInFlight();
    assert Goes(store, asked, Acquire(0), WitnessInFlight());
    assert [Ask(0, 1, MainAi), Acquire(0)][..1] == [Ask(0, 1, MainAi)];
  }

  lemma WitnessReturns(profile: Uuid)
    ensures var s, load := WitnessInFlight(), Loaded(0, Some(Prepared(profile, MainAi, MainAi, 0)));
            var mid := Apply(s, Invalidate(profile));
            && mid.limit >= 1 && Enabled(mid, load) && Permits(StoreOf(WitnessBindings(profile)), mid, load)
            && Apply(mid, load).slots == [Slot(1, Prepared(profile, MainAi, MainAi, 0), 3, 1)]
  {
  }

  /** From an empty cache: a preparation begun before an invalidation of its profile is cached after it. */
  lemma InvalidationMissesPreparationInFlight(profile: Uuid)
    ensures var store := StoreOf(WitnessBindings(profile));
            exists before: seq<Step>, s: State, later: State ::
              && Runs(store, Fresh(1), before, s) && s.limit >= 1
              && Runs(store, Apply(s, Invalidate(profile)),
                      [Loaded(0, Some(Prepared(profile, MainAi, MainAi, 0)))], later)
              && exists x: Slot :: x in later.slots && Stale(s, profile, x.prepared, x.begun)
  {
    hide Runs, Apply, Permits, Fresh, StoreOf, Locked, Stripe;
    var store := StoreOf(WitnessBindings(profile));
    var s, load := WitnessInFlight(), Loaded(0, Some(Prepared(profile, MainAi, MainAi, 0)));
    var mid := Apply(s, Invalidate(profile));
    WitnessIsReached(store);
    WitnessReturns(profile);
    OneStepRuns(store, mid, load);
    var later := Apply(mid, load);
    assert later.slots[0] in later.slots && Stale(s, profile, later.slots[0].prepared, later.slots[0].begun);
  }
}
