/**
 Runs of the restore gate in which the database may at any time be replaced by an earlier
 state of itself, and what an opened gate then proves about its evidence.
 */
module RestoreRuns {
  import opened Basics
  import opened RestoreGate

  datatype Step =
    | Close(account: Uuid)
    | StageLedger(account: Uuid, revisionMatches: bool, entries: seq<Entry>)
    | Work(after: Database)
    | OpenGate(account: Uuid, entries: seq<Entry>, checks: Checks)
    | Restore(snapshot: nat)

  /** The database now, every state it has been in, and when it was last replaced. */
  datatype World = World(db: Database, past: seq<Database>, event: nat, restoredAt: nat)

  /**
   What anything but the gate's own commands may do: cleanup owners move requests and progress
   and record media checks, never overwriting one; nobody else touches the gate or its replays.
   */
  predicate WorkAllowed(before: Database, after: Database, event: nat) {
    && after.gate == before.gate && after.replays == before.replays
    && (forall r | r in after.mediaChecks ::
          after.mediaChecks[r] == if r in before.mediaChecks then before.mediaChecks[r] else event)
  }

  function Next(mac: Mac, w: World, step: Step): Database {
    match step
    case Close(account) =>
      var out := CloseGate(w.db, account, w.event);
      if out.Ok? then out.value else w.db
    case StageLedger(account, revisionMatches, entries) =>
      var out := Stage(mac, w.db, account, revisionMatches, entries, w.event);
      if out.Ok? then out.value else w.db
    case Work(after) => if WorkAllowed(w.db, after, w.event) then after else w.db
    case OpenGate(account, entries, checks) =>
      var out := VerifyAndOpen(mac, w.db, account, entries, checks);
      if out.Ok? then out.value else w.db
    case Restore(snapshot) => if snapshot < |w.past| then w.past[snapshot] else w.db
  }

  function Apply(mac: Mac, w: World, step: Step): World {
    World(Next(mac, w, step), w.past + [w.db], w.event + 1,
          if step.Restore? && step.snapshot < |w.past| then w.event else w.restoredAt)
  }

  function Execute(mac: Mac, w: World, steps: seq<Step>): World
    decreases |steps|
  {
    if steps == [] then w else Execute(mac, Apply(mac, w, steps[0]), steps[1..])
  }

  ghost predicate Initial(w: World) {
    && w.db.gate.None? && w.db.mediaChecks == map[] && w.db.replays == map[]
    && w.past == [] && w.event == 1 && w.restoredAt == 0
  }

  /**
   Replays belong to generations the gate has reached, and in the current one a request's
   media check is younger than its staging, which is younger than the closing of the gate.
   */
  ghost predicate Dated(db: Database, event: nat) {
    && (db.gate.None? ==> db.replays == map[])
    && (forall r | r in db.mediaChecks :: db.mediaChecks[r] < event)
    && (forall k | k in db.replays :: db.replays[k] < event)
    && (db.gate.Some? ==>
          && db.gate.value.closedAt < event
          && (forall k | k in db.replays :: k.0 <= db.gate.value.generation)
          && (forall r | (db.gate.value.generation, r) in db.replays ::
                && db.gate.value.closedAt < db.replays[(db.gate.value.generation, r)]
                && (r in db.mediaChecks ==> db.replays[(db.gate.value.generation, r)] < db.mediaChecks[r])))
  }

  ghost predicate Invariant(w: World) {
    && Dated(w.db, w.event)
    && (forall i | 0 <= i < |w.past| :: Dated(w.past[i], w.event))
    && w.restoredAt < w.event
  }

  lemma StageEntryDated(mac: Mac, db: Database, account: Uuid, e: Entry, event: nat)
    requires db.gate.Some? && Dated(db, event + 1) && db.gate.value.closedAt < event
    ensures var out := StageEntry(mac, db, account, db.gate.value.generation, e, event);
            out.Ok? ==> Dated(out.value, event + 1) && out.value.gate == db.gate
  {
    hide FindMemory, ScopeTarget, SameIdentity;
  }

  lemma {:induction false} StageEntriesDated(mac: Mac, db: Database, account: Uuid, entries: seq<Entry>, event: nat)
    requires db.gate.Some? && Dated(db, event + 1) && db.gate.value.closedAt < event
    ensures var out := StageEntries(mac, db, account, db.gate.value.generation, entries, event);
            out.Ok? ==> Dated(out.value, event + 1) && out.value.gate == db.gate
  {
    hide StageEntry, Dated;
    if entries == [] {
    } else {
      var front := entries[..|entries| - 1];
      StageEntriesDated(mac, db, account, front, event);
      var out := StageEntries(mac, db, account, db.gate.value.generation, front, event);
      if out.Ok? {
        StageEntryDated(mac, out.value, account, entries[|entries| - 1], event);
      }
    }
  }

  lemma {:induction false} ReplayKeepsEvidence(mac: Mac, db: Database, account: Uuid, entries: seq<Entry>)
    ensures var after := ReplayMemories(mac, db, account, entries);
            after.gate == db.gate && after.mediaChecks == db.mediaChecks && after.replays == db.replays
  {
    if entries != [] {
      ReplayKeepsEvidence(mac, db, account, entries[..|entries| - 1]);
    }
  }

  lemma StepKeeps(mac: Mac, w: World, step: Step)
    requires Invariant(w)
    ensures Invariant(Apply(mac, w, step))
  {
    hide StageEntries, ReplayMemories, VerifyEntries, OfScope, AllCompleted;
    var v := Apply(mac, w, step);
    assert Dated(v.db, v.event) by {
      match step
      case StageLedger(account, revisionMatches, entries) =>
        if ValidatingFor(w.db, account) {
          assert Dated(w.db, w.event + 1);
          StageEntriesDated(mac, w.db, account, entries, w.event);
        }
      case OpenGate(account, entries, checks) =>
        ReplayKeepsEvidence(mac, w.db, account, OfScope(entries, Memory));
      case _ =>
    }
    forall i | 0 <= i < |v.past| ensures Dated(v.past[i], v.event) {
      if i < |w.past| { assert Dated(w.past[i], w.event); }
    }
  }

  lemma {:induction false} RunKeeps(mac: Mac, w: World, steps: seq<Step>)
    requires Invariant(w)
    ensures Invariant(Execute(mac, w, steps))
    decreases |steps|
  {
    hide Invariant, Apply;
    if steps == [] {
    } else {
      StepKeeps(mac, w, steps[0]);
      RunKeeps(mac, Apply(mac, w, steps[0]), steps[1..]);
    }
  }

  predicate Opens(mac: Mac, w: World, step: Step) {
    && w.db.gate.Some? && w.db.gate.value.state == Validating
    && Next(mac, w, step).gate.Some? && Next(mac, w, step).gate.value.state == Open
  }

  /** The evidence behind one entry: completed as its own, and checked after it was staged after the closing. */
  predicate FreshEvidence(db: Database, e: Entry) {
    && db.gate.Some?
    && e.request in db.requests && db.requests[e.request].account == db.gate.value.account
    && db.requests[e.request].scope == e.scope && db.requests[e.request].key == e.key
    && db.requests[e.request].policy == e.policy
    && e.request in db.requests && db.requests[e.request].state == Completed
    && (db.gate.value.generation, e.request) in db.replays && e.request in db.mediaChecks
    && db.gate.value.closedAt < db.replays[(db.gate.value.generation, e.request)] < db.mediaChecks[e.request]
  }

  lemma {:induction false} VerifiedEntries(mac: Mac, db: Database, account: Uuid, entries: seq<Entry>, e: Entry)
    requires VerifyEntries(mac, db, account, entries).Ok? && e in entries
    ensures VerifyEntry(mac, db, account, e).Ok?
  {
    var front := entries[..|entries| - 1];
    if e in front {
      VerifiedEntries(mac, db, account, front, e);
    }
  }

  lemma {:induction false} OfScopeHas(entries: seq<Entry>, e: Entry)
    requires e in entries
    ensures e in OfScope(entries, e.scope)
  {
    var front := entries[..|entries| - 1];
    if e in front {
      OfScopeHas(front, e);
    }
  }

  /**
   The gate goes from validating to open only when every contact and account entry of the
   ledger has evidence of this generation: a media check recorded after the entry was staged,
   which was after this generation began.  Evidence a restored snapshot brought along from an
   older generation never counts; and when the gate was closed again after the last restore,
   the evidence is younger than that restore.
   */
  lemma OpenNeedsFreshEvidence(mac: Mac, start: World, steps: seq<Step>, account: Uuid, entries: seq<Entry>,
                               checks: Checks, e: Entry)
    requires Initial(start)
    requires Opens(mac, Execute(mac, start, steps), OpenGate(account, entries, checks))
    requires e in entries && e.scope != Memory
    ensures var w := Execute(mac, start, steps);
            && FreshEvidence(w.db, e)
            && (w.restoredAt < w.db.gate.value.closedAt ==> w.restoredAt < w.db.mediaChecks[e.request])
  {
    var w := Execute(mac, start, steps);
    assert Invariant(start);
    RunKeeps(mac, start, steps);
    OfScopeHas(entries, e);
    VerifiedEntries(mac, w.db, account, OfScope(entries, e.scope), e);
  }

  /**
   Closing voids all evidence: in the new generation no contact or account entry verifies
   until it is staged again, and no earlier verification mark is left.
   */
  lemma ClosingVoidsEvidence(mac: Mac, db: Database, account: Uuid, event: nat, e: Entry)
    requires Dated(db, event) && CloseGate(db, account, event).Ok? && e.scope != Memory
    ensures var after := CloseGate(db, account, event).value;
            && VerifyEntry(mac, after, account, e).Err?
            && after.gate.Some? && after.gate.value.state == Validating
            && (db.gate.Some? ==> after.gate.value.generation > db.gate.value.generation)
            && !after.gate.value.replayVerified && !after.gate.value.reconciled
            && !after.gate.value.credentialsVerified && !after.gate.value.sessionVerified
  {
    var after := CloseGate(db, account, event).value;
    assert (after.gate.value.generation, e.request) !in db.replays by {
      assert forall k | k in db.replays :: db.gate.Some? && k.0 <= db.gate.value.generation;
    }
  }

  /** Closing after a restore dates the gate after it, and only another restore ends that. */
  lemma {:induction false} ClosingOutdatesTheRestore(mac: Mac, w: World, account: Uuid, steps: seq<Step>)
    requires Invariant(w) && CloseGate(w.db, account, w.event).Ok?
    requires forall s | s in steps :: !s.Restore?
    ensures var later := Execute(mac, Apply(mac, w, Close(account)), steps);
            later.db.gate.Some? && later.restoredAt < later.db.gate.value.closedAt
  {
    StepKeeps(mac, w, Close(account));
    ReclosedStays(mac, Apply(mac, w, Close(account)), steps);
  }

  lemma {:induction false} ReclosedStays(mac: Mac, w: World, steps: seq<Step>)
    requires Invariant(w) && w.db.gate.Some? && w.restoredAt < w.db.gate.value.closedAt
    requires forall s | s in steps :: !s.Restore?
    ensures var later := Execute(mac, w, steps);
            later.db.gate.Some? && later.restoredAt < later.db.gate.value.closedAt
    decreases |steps|
  {
    if steps != [] {
      var next := Apply(mac, w, steps[0]);
      StepKeeps(mac, w, steps[0]);
      assert steps[0] in steps;
      assert next.db.gate.Some? && next.restoredAt < next.db.gate.value.closedAt by {
        hide Dated, Execute;
        assert !steps[0].Restore?;
        if steps[0].StageLedger? && ValidatingFor(w.db, steps[0].account) {
          StagedGate(mac, w.db, steps[0].account, w.db.gate.value.generation, steps[0].entries, w.event);
        }
        if steps[0].OpenGate? {
          ReplayKeepsEvidence(mac, w.db, steps[0].account, OfScope(steps[0].entries, Memory));
        }
      }
      ReclosedStays(mac, next, steps[1..]);
    }
  }

  /** No command opens the gate but `verify_and_open`, short of restoring a state in which it was open. */
  lemma OnlyVerificationOpens(mac: Mac, w: World, step: Step)
    requires Opens(mac, w, step)
    ensures step.OpenGate? || step.Restore?
  {
    if step.StageLedger? && ValidatingFor(w.db, step.account) {
      StagedGate(mac, w.db, step.account, w.db.gate.value.generation, step.entries, w.event);
    }
  }

  lemma {:induction false} StagedGate(mac: Mac, db: Database, account: Uuid, generation: nat, entries: seq<Entry>,
                                      event: nat)
    ensures var out := StageEntries(mac, db, account, generation, entries, event);
            out.Ok? ==> out.value.gate == db.gate
  {
    if entries != [] {
      StagedGate(mac, db, account, generation, entries[..|entries| - 1], event);
    }
  }

  // ---------------------------------------------------------------------------
  // Re-closing is necessary
  // ---------------------------------------------------------------------------

  /** A request for one whole account, as the ledger names it. */
  function WholeAccount(mac: Mac, account: Uuid, key: Bytes): Entry {
    Entry(7, Account, mac(account), key, 1, 0)
  }

  function EmptyDatabase(): Database {
    Database(None, [], [], map[], map[], {}, map[], map[])
  }

  /** The state in which the first generation's cleanup is done and checked at event 3. */
  function CleanedUp(mac: Mac, account: Uuid, key: Bytes): Database {
    var e := WholeAccount(mac, account, key);
    Database(Some(Gate(account, Validating, 1, 1, false, false, false, false, 1)), [], [],
             map[7 := Request(account, Account, None, None, key, 1, Completed, None)],
             map[7 := 3], {}, map[(1, 7) := 2], map[7 := e])
  }

  lemma CleanedUpOpens(mac: Mac, account: Uuid, key: Bytes)
    ensures var e := WholeAccount(mac, account, key);
            var out := VerifyAndOpen(mac, CleanedUp(mac, account, key), account, [e],
                              Checks(true, true, true, true, true));
            out.Ok? && out.value.gate.Some? && out.value.gate.value.state == Open
  {
    var e := WholeAccount(mac, account, key);
    var db := CleanedUp(mac, account, key);
    assert [e][..0] == [];
    assert OfScope([e][..0], Account) == [] && OfScope([e][..0], Contact) == [] && OfScope([e][..0], Memory) == [];
    assert OfScope([e], Account) == [e] && OfScope([e], Contact) == [] && OfScope([e], Memory) == [];
    assert VerifyEntries(mac, db, account, [e][..0]) == Ok(());
    assert Proven(db, account, account, e);
    assert VerifyEntries(mac, db, account, [e]) == Ok(());
  }

  /** Close, stage, clean up, close again, then restore the state before the second closing. */
  lemma RestoreWithoutClosing(mac: Mac, start: World, account: Uuid, key: Bytes)
    requires Initial(start) && start.db == EmptyDatabase()
    ensures var e := WholeAccount(mac, account, key);
            var w := Execute(mac, start, [Close(account), StageLedger(account, true, [e]),
                                          Work(CleanedUp(mac, account, key)), Close(account), Restore(3)]);
            w.db == CleanedUp(mac, account, key) && w.restoredAt == 5
  {
    var e := WholeAccount(mac, account, key);
    var done := CleanedUp(mac, account, key);
    FiveSteps(mac, start, Close(account), StageLedger(account, true, [e]), Work(done), Close(account), Restore(3));
    var w1 := Apply(mac, start, Close(account));
    assert w1.db == EmptyDatabase().(gate := Some(Gate(account, Validating, 1, 1, false, false, false, false, 1)));
    var w2 := Apply(mac, w1, StageLedger(account, true, [e]));
    assert StageEntries(mac, w1.db, account, 1, [e][..0], 2) == Ok(w1.db);
    assert w2.db == done.(requests := map[7 := Request(account, Account, None, None, key, 1, Requested, None)],
                          mediaChecks := map[]);
    var w3 := Apply(mac, w2, Work(done));
    assert w3.db == done;
    var w4 := Apply(mac, w3, Close(account));
    assert w4.past[3] == done;
  }

  /**
   Without a new closing, a snapshot taken while validating brings its own proof along: the
   gate opens on a media check that predates the restore.
   */
  lemma UnclosedRestoreTrustsOldEvidence(mac: Mac, start: World, account: Uuid, key: Bytes)
    requires Initial(start) && start.db == EmptyDatabase()
    ensures exists steps ::
              var w := Execute(mac, start, steps);
              && Opens(mac, w, OpenGate(account, [WholeAccount(mac, account, key)],
                                        Checks(true, true, true, true, true)))
              && 7 in w.db.mediaChecks && w.db.mediaChecks[7] < w.restoredAt
  {
    var e := WholeAccount(mac, account, key);
    var steps := [Close(account), StageLedger(account, true, [e]),
                  Work(CleanedUp(mac, account, key)), Close(account), Restore(3)];
    RestoreWithoutClosing(mac, start, account, key);
    CleanedUpOpens(mac, account, key);
    hide Execute, VerifyAndOpen;
    var w := Execute(mac, start, steps);
    assert Opens(mac, w, OpenGate(account, [e], Checks(true, true, true, true, true)));
  }

  lemma FiveSteps(mac: Mac, w: World, a: Step, b: Step, c: Step, d: Step, e: Step)
    ensures Execute(mac, w, [a, b, c, d, e])
            == Apply(mac, Apply(mac, Apply(mac, Apply(mac, Apply(mac, w, a), b), c), d), e)
  {
    hide Apply;
    var w1 := Apply(mac, w, a);
    var w2 := Apply(mac, w1, b);
    var w3 := Apply(mac, w2, c);
    var w4 := Apply(mac, w3, d);
    assert [a, b, c, d, e][1..] == [b, c, d, e];
    assert [b, c, d, e][1..] == [c, d, e];
    assert [c, d, e][1..] == [d, e];
    assert [d, e][1..] == [e];
    assert [e][1..] == [];
    assert Execute(mac, w4, [e]) == Apply(mac, w4, e);
    assert Execute(mac, w2, [c, d, e]) == Execute(mac, w4, [e]);
  }

  /**
   In a run each command works on what those before it left; one that succeeds takes effect, one
   that fails changes nothing, and a restore brings back the database of an earlier moment.
   */
  lemma {:induction false} RunsGoOn(mac: Mac, w: World, steps: seq<Step>, step: Step)
    ensures Execute(mac, w, []) == w && Execute(mac, w, steps + [step]) == Apply(mac, Execute(mac, w, steps), step)
    ensures |Execute(mac, w, steps).past| == |w.past| + |steps| && w.past <= Execute(mac, w, steps).past
    ensures steps != [] ==> Execute(mac, w, steps).past[|w.past|] == w.db
    decreases |steps|
  {
    hide Next;
    if steps == [] {
      assert [] + [step] == [step] && [step][1..] == [];
    } else {
      assert (steps + [step])[1..] == steps[1..] + [step];
      RunsGoOn(mac, Apply(mac, w, steps[0]), steps[1..], step);
    }
  }

  /** What a command that succeeds leaves is what the database then is. */
  lemma CommandsTakeEffect(mac: Mac, w: World, step: Step)
    ensures var after := Apply(mac, w, step);
            && after.event == w.event + 1 && after.past == w.past + [w.db]
            && (step.Close? && CloseGate(w.db, step.account, w.event).Ok? ==>
                  after.db == CloseGate(w.db, step.account, w.event).value)
            && (step.StageLedger? && Stage(mac, w.db, step.account, step.revisionMatches, step.entries, w.event).Ok? ==>
                  after.db == Stage(mac, w.db, step.account, step.revisionMatches, step.entries, w.event).value)
            && (step.OpenGate? && VerifyAndOpen(mac, w.db, step.account, step.entries, step.checks).Ok? ==>
                  after.db == VerifyAndOpen(mac, w.db, step.account, step.entries, step.checks).value)
            && (step.Restore? && step.snapshot < |w.past| ==>
                  after.db == w.past[step.snapshot] && after.restoredAt == w.event)
            && (!step.Restore? ==> after.restoredAt == w.restoredAt)
  {
    hide CloseGate, Stage, VerifyAndOpen;
  }
}
