/**
 Leases and fences over whole runs: what a fence still held says about the row, which clock
 reading a lease comes from, and when the second fence of an export is granted.
 */
module ExportLeases {
  import opened Basics
  import opened ExportRows
  import opened ExportRowLaws
  import opened ExportProtocol
  import opened ExportSafety
  import opened ExportSteps
  import opened ExportRuns

  // ---------------------------------------------------------------------------
  // One step
  // ---------------------------------------------------------------------------

  /** The clock reading of a step that may set a lease. */
  function LeaseReading(step: Step): Option<Time> {
    match step
    case StartExport(_, _, now) => Some(now)
    case RenewLease(_, now) => Some(now)
    case VerifyFence(_, now) => Some(now)
    case RenewFence(_, now) => Some(now)
    case _ => None
  }

  /** The exporter's fence is the row's version, its owner holds the row, and the lease counts from `now`. */
  predicate Granted(v: World, q: Uuid, now: Time) {
    && ExporterAt(v, q)
    && v.procs[q].request in v.db.rows
    && var row := v.db.rows[v.procs[q].request];
       && row.version == v.procs[q].fence && row.owner == Some(q) && row.state == Claimed
       && row.leaseExpiresAt == Some(now + LEASE_DURATION)
  }

  predicate SameFence(w: World, v: World, q: Uuid) {
    && ExporterAt(w, q) && ExporterAt(v, q)
    && v.procs[q].request == w.procs[q].request && v.procs[q].fence == w.procs[q].fence
  }

  /** Up to the lock, under the first fence, and from the second fence or a failure on. */
  function PhaseOf(stage: ExporterStage): nat {
    match stage
    case Starting => 0
    case Locked => 1
    case Verified => 2
    case Checked => 2
    case Writing(_) => 2
    case Hashed(_) => 2
    case Published(_) => 2
    case _ => 3
  }

  /** Where an exporter may be after a step, given where it was. */
  predicate Moves(w: World, v: World, q: Uuid, step: Step) {
    ExporterAt(v, q) ==>
      && (q in w.procs ==> ExporterAt(w, q) && PhaseOf(w.procs[q].stage) <= PhaseOf(v.procs[q].stage))
      && (SameFence(w, v, q) || (LeaseReading(step).Some? && Granted(v, q, LeaseReading(step).value)))
      && (q in w.procs && PhaseOf(w.procs[q].stage) == PhaseOf(v.procs[q].stage) == 2 ==> SameFence(w, v, q))
  }

  lemma ClaimMoves(w: World, p: Uuid, id: Uuid, now: Time, q: Uuid)
    ensures Moves(w, ApplyStartExport(w, p, id, now), q, StartExport(p, id, now))
  {
    hide ScopeBlocked;
  }

  lemma RenewMovesNoOther(w: World, p: Uuid, now: Time, next: ExporterStage, lost: ExporterStage, q: Uuid, step: Step)
    requires ExporterAt(w, p) && q != p
    ensures Moves(w, ApplyRenew(w, p, now, next, lost), q, step)
  {
    hide Renew, PhaseOf, LeaseReading, Granted;
  }

  lemma RenewMoves(w: World, p: Uuid, now: Time, next: ExporterStage, lost: ExporterStage, q: Uuid, step: Step)
    requires ExporterAt(w, p) && LeaseReading(step) == Some(now) && DatabaseInvariant(w.db)
    requires PhaseOf(w.procs[p].stage) <= PhaseOf(next) && PhaseOf(w.procs[p].stage) <= PhaseOf(lost)
    requires PhaseOf(next) == 2 ==> PhaseOf(w.procs[p].stage) < 2
    ensures Moves(w, ApplyRenew(w, p, now, next, lost), q, step)
  {
    hide DatabaseInvariant, Renew, ScopeBlocked, PhaseOf, LeaseReading;
    if q != p {
      RenewMovesNoOther(w, p, now, next, lost, q, step);
    } else {
      var e := w.procs[p];
      RenewSucceedsExactly(w.db, e.request, p, e.fence, now);
    }
  }

  /** No fence and no row under one moves; the exporter at most goes on or stops. */
  predicate Quiet(w: World, v: World, q: Uuid) {
    && (forall k | k in w.procs :: k in v.procs)
    && (ExporterAt(v, q) ==> SameFence(w, v, q) && PhaseOf(w.procs[q].stage) <= PhaseOf(v.procs[q].stage))
  }

  lemma QuietMoves(w: World, v: World, q: Uuid, step: Step)
    requires Quiet(w, v, q)
    ensures Moves(w, v, q, step)
  {
  }

  lemma WritingIsQuiet(hash: Content -> Digest, w: World, step: Step, q: Uuid)
    requires PartOf(step) == Claiming && LeaseReading(step).None?
    ensures Quiet(w, Apply(hash, w, step), q)
  {
  }

  lemma FaultIsQuiet(w: World, p: Uuid, report: bool, q: Uuid)
    ensures Quiet(w, ApplyFault(w, p, report), q)
  {
  }

  lemma CompleteIsQuiet(w: World, p: Uuid, now: Time, q: Uuid)
    ensures Quiet(w, ApplyComplete(w, p, now), q)
  {
    hide Fenced, Store, ScopeBlocked;
  }

  lemma FinishingIsQuiet(hash: Content -> Digest, w: World, step: Step, q: Uuid)
    requires PartOf(step) == Finishing && LeaseReading(step).None?
    ensures Quiet(w, Apply(hash, w, step), q)
  {
    hide Finalize, RecordFailure, FinalName, TemporaryName, Fenced, ApplyFault, ApplyComplete;
    if step.Fault? {
      FaultIsQuiet(w, step.p, step.report, q);
    } else if step.Complete? {
      CompleteIsQuiet(w, step.p, step.now, q);
    }
  }

  lemma CleaningIsQuiet(hash: Content -> Digest, w: World, step: Step, q: Uuid)
    requires PartOf(step) == Cleaning
    ensures Quiet(w, Apply(hash, w, step), q)
  {
    hide MarkCleaned, MarkArtifactDeleted, NamesOf, ExpiredArtifact;
  }

  lemma OutsideIsQuiet(hash: Content -> Digest, w: World, step: Step, q: Uuid)
    requires PartOf(step) == Outside
    ensures Quiet(w, Apply(hash, w, step), q)
  {
    hide InsertErasure, WriteRow, DomainShape;
  }

  lemma FencesMove(hash: Content -> Digest, w: World, step: Step, q: Uuid)
    requires DatabaseInvariant(w.db) && LeaseReading(step).Some?
    ensures Moves(w, Apply(hash, w, step), q, step)
    ensures forall k | k in w.procs :: k in Apply(hash, w, step).procs
  {
    hide DatabaseInvariant, Moves, Renew, Claim;
    QuietMoves(w, w, q, step);
    match step
    case StartExport(p, id, now) => ClaimMoves(w, p, id, now, q);
    case RenewLease(p, now) =>
      if ExporterAt(w, p) && w.procs[p].stage == Locked {
        RenewMoves(w, p, now, Locked, Aborting(false, false), q, step);
      }
    case VerifyFence(p, now) =>
      if ExporterAt(w, p) && w.procs[p].stage == Locked {
        RenewMoves(w, p, now, Verified, Aborting(false, false), q, step);
      }
    case RenewFence(p, now) =>
      if ExporterAt(w, p) && w.procs[p].stage.Published? {
        RenewMoves(w, p, now, Ready(w.procs[p].stage.digest), Aborting(true, false), q, step);
      }
    case _ =>
  }

  lemma StepMoves(hash: Content -> Digest, w: World, step: Step, q: Uuid)
    requires DatabaseInvariant(w.db)
    ensures Moves(w, Apply(hash, w, step), q, step)
    ensures forall k | k in w.procs :: k in Apply(hash, w, step).procs
  {
    hide DatabaseInvariant, Moves, Apply, PartOf, LeaseReading;
    if LeaseReading(step).Some? {
      FencesMove(hash, w, step, q);
    } else {
      match PartOf(step) {
        case Claiming => WritingIsQuiet(hash, w, step, q);
        case Finishing => FinishingIsQuiet(hash, w, step, q);
        case Cleaning => CleaningIsQuiet(hash, w, step, q);
        case Outside => OutsideIsQuiet(hash, w, step, q);
      }
      QuietMoves(w, Apply(hash, w, step), q, step);
    }
  }

  // ---------------------------------------------------------------------------
  // A fence still current
  // ---------------------------------------------------------------------------

  /** A fence is never ahead of its row, and a current one means that the claim is still held. */
  ghost predicate FencesHeld(w: World) {
    forall q | ExporterAt(w, q) ::
      && w.procs[q].request in w.db.rows
      && var row := w.db.rows[w.procs[q].request];
         && w.procs[q].fence <= row.version
         && (w.procs[q].fence == row.version ==> row.owner == Some(q) && row.state == Claimed)
  }

  lemma StepKeepsFences(hash: Content -> Digest, w: World, step: Step)
    requires Sha256Sized(hash) && Invariant(hash, w) && FencesHeld(w)
    ensures FencesHeld(Apply(hash, w, step))
  {
    hide Apply, Invariant, DatabaseInvariant;
    var v := Apply(hash, w, step);
    StepKeeps(hash, w, step);
    DatabaseSound(hash, w);
    forall q | ExporterAt(v, q)
      ensures && v.procs[q].request in v.db.rows
              && v.procs[q].fence <= v.db.rows[v.procs[q].request].version
              && (v.procs[q].fence == v.db.rows[v.procs[q].request].version ==>
                    v.db.rows[v.procs[q].request].owner == Some(q) && v.db.rows[v.procs[q].request].state == Claimed)
    {
      StepMoves(hash, w, step, q);
      if SameFence(w, v, q) {
        assert Advances(w.db.rows[w.procs[q].request], v.db.rows[w.procs[q].request]);
      }
    }
  }

  lemma {:induction false} RunKeepsFences(hash: Content -> Digest, w: World, steps: seq<Step>)
    requires Sha256Sized(hash) && Invariant(hash, w) && FencesHeld(w)
    ensures FencesHeld(Execute(hash, w, steps))
    decreases |steps|
  {
    hide Invariant, Apply, FencesHeld, Keeps;
    if steps != [] {
      StepKeeps(hash, w, steps[0]);
      StepKeepsFences(hash, w, steps[0]);
      KeepsInvariant(hash, w, Apply(hash, w, steps[0]));
      RunKeepsFences(hash, Apply(hash, w, steps[0]), steps[1..]);
    }
  }

  lemma KeepsInvariant(hash: Content -> Digest, w: World, v: World)
    requires Keeps(hash, w, v)
    ensures Invariant(hash, v)
  {
    hide Invariant;
  }

  /**
   An exporter that has published gets its second fence exactly when the row has not moved
   since the first, the clock it reads is before the lease and the expiry, and no erasure
   blocks the scope.
   */
  lemma SecondFenceExactly(hash: Content -> Digest, start: World, steps: seq<Step>, p: Uuid, now: Time)
    requires Sha256Sized(hash) && Initial(start)
    requires var w := Execute(hash, start, steps);
             ExporterAt(w, p) && w.procs[p].stage.Published? && now <= w.clock
    ensures var w := Execute(hash, start, steps);
            var next := Apply(hash, w, RenewFence(p, now));
            && ExporterAt(next, p) && w.procs[p].request in w.db.rows
            && var row := w.db.rows[w.procs[p].request];
               next.procs[p].stage.Ready? <==>
                 && row.version == w.procs[p].fence && row.leaseExpiresAt.Some?
                 && now < row.leaseExpiresAt.value && now < row.expiresAt && !ScopeBlocked(w.db, row)
  {
    hide Execute, Invariant, DatabaseInvariant, Renew, ScopeBlocked;
    var w := Execute(hash, start, steps);
    InitialHolds(hash, start);
    ReachableKeeps(hash, start, steps);
    RunKeepsFences(hash, start, steps);
    DatabaseSound(hash, w);
    RenewSucceedsExactly(w.db, w.procs[p].request, p, w.procs[p].fence, now);
  }

  // ---------------------------------------------------------------------------
  // From the first fence to the second
  // ---------------------------------------------------------------------------

  lemma {:induction false} FenceUnmovedWhileWriting(hash: Content -> Digest, w: World, steps: seq<Step>, p: Uuid)
    requires Sha256Sized(hash) && Invariant(hash, w)
    requires p in w.procs && (ExporterAt(w, p) ==> PhaseOf(w.procs[p].stage) >= 2)
    ensures var later := Execute(hash, w, steps);
            && p in later.procs
            && (ExporterAt(later, p) ==> ExporterAt(w, p) && PhaseOf(later.procs[p].stage) >= 2)
            && (ExporterAt(later, p) && PhaseOf(later.procs[p].stage) == 2 ==>
                  PhaseOf(w.procs[p].stage) == 2 && SameFence(w, later, p))
    decreases |steps|
  {
    hide Invariant, Apply, Keeps, PhaseOf, LeaseReading, Granted, DatabaseInvariant;
    if steps != [] {
      var v := Apply(hash, w, steps[0]);
      StepKeeps(hash, w, steps[0]);
      KeepsInvariant(hash, w, v);
      DatabaseSound(hash, w);
      StepMoves(hash, w, steps[0], p);
      FenceUnmovedWhileWriting(hash, v, steps[1..], p);
      if ExporterAt(Execute(hash, v, steps[1..]), p) {
        PhasesEnd(w, v, p);
      }
    }
  }

  lemma PhasesEnd(w: World, v: World, p: Uuid)
    ensures ExporterAt(w, p) ==> PhaseOf(w.procs[p].stage) <= 3
  {
  }

  /**
   No renewal happens between the two fences: an export under its first fence that later has
   published gets the second exactly when the row is still the one the first fence saw and the
   clock is before the lease that row already had.
   */
  lemma EncryptionMustFitTheLease(hash: Content -> Digest, start: World, before: seq<Step>, during: seq<Step>,
                                  p: Uuid, now: Time)
    requires Sha256Sized(hash) && Initial(start)
    requires var w := Execute(hash, start, before);
             ExporterAt(w, p) && w.procs[p].stage == Verified
    requires var later := Execute(hash, Execute(hash, start, before), during);
             ExporterAt(later, p) && later.procs[p].stage.Published? && now <= later.clock
    ensures var w := Execute(hash, start, before);
            var later := Execute(hash, w, during);
            var next := Apply(hash, later, RenewFence(p, now));
            && ExporterAt(next, p) && w.procs[p].request in w.db.rows
            && var row := w.db.rows[w.procs[p].request];
               next.procs[p].stage.Ready? <==>
                 && row.version == w.procs[p].fence && w.procs[p].request in later.db.rows
                 && later.db.rows[w.procs[p].request] == row && row.leaseExpiresAt.Some?
                 && now < row.leaseExpiresAt.value && now < row.expiresAt && !ScopeBlocked(later.db, row)
  {
    hide Execute, Apply, Invariant, Keeps, ScopeBlocked, DatabaseInvariant;
    var w := Execute(hash, start, before);
    var later := Execute(hash, w, during);
    InitialHolds(hash, start);
    ReachableKeeps(hash, start, before);
    RunKeepsFences(hash, start, before);
    FenceUnmovedWhileWriting(hash, w, during, p);
    RunKeeps(hash, w, during);
    RowAdvances(hash, w, later, w.procs[p].request);
    ExecuteInTwo(hash, start, before, during);
    SecondFenceExactly(hash, start, before + during, p, now);
  }

  lemma RowAdvances(hash: Content -> Digest, w: World, v: World, id: Uuid)
    requires Keeps(hash, w, v) && id in w.db.rows
    ensures id in v.db.rows && Advances(w.db.rows[id], v.db.rows[id])
  {
    hide Invariant;
  }

  lemma {:induction false} ExecuteInTwo(hash: Content -> Digest, w: World, a: seq<Step>, b: seq<Step>)
    ensures Execute(hash, w, a + b) == Execute(hash, Execute(hash, w, a), b)
    decreases |a|
  {
    hide Apply;
    if a == [] {
      assert a + b == b;
    } else {
      assert (a + b)[1..] == a[1..] + b;
      ExecuteInTwo(hash, Apply(hash, w, a[0]), a[1..], b);
    }
  }

  // ---------------------------------------------------------------------------
  // Which clock reading a lease counts from
  // ---------------------------------------------------------------------------

  /** Whether a step is a claim or renewal that changed this row. */
  predicate SetsLease(hash: Content -> Digest, w: World, step: Step, id: Uuid) {
    var v := Apply(hash, w, step);
    LeaseReading(step).Some? && id in v.db.rows && (id in w.db.rows ==> v.db.rows[id] != w.db.rows[id])
  }

  /** The reading of the last claim or renewal of this row in a run, if there was any. */
  function LeaseClock(hash: Content -> Digest, w: World, steps: seq<Step>, id: Uuid, last: Option<Time>): Option<Time>
    decreases |steps|
  {
    if steps == [] then last
    else
      LeaseClock(hash, Apply(hash, w, steps[0]), steps[1..], id,
                 if SetsLease(hash, w, steps[0], id) then LeaseReading(steps[0]) else last)
  }

  predicate LeaseFrom(db: Database, id: Uuid, last: Option<Time>) {
    id in db.rows && db.rows[id].state == Claimed ==>
      last.Some? && db.rows[id].leaseExpiresAt == Some(last.value + LEASE_DURATION)
  }

  /** A row claimed after the step was not touched by it. */
  predicate Untouched(w: World, v: World, id: Uuid) {
    id in v.db.rows && v.db.rows[id].state == Claimed ==> id in w.db.rows && v.db.rows[id] == w.db.rows[id]
  }

  lemma UntouchedItself(w: World, id: Uuid)
    ensures Untouched(w, w, id)
  {
  }

  lemma RenewalSetsLease(w: World, p: Uuid, now: Time, next: ExporterStage, lost: ExporterStage, id: Uuid)
    requires ExporterAt(w, p) && DatabaseInvariant(w.db)
    ensures var v := ApplyRenew(w, p, now, next, lost);
            Untouched(w, v, id) || v.db.rows[id].leaseExpiresAt == Some(now + LEASE_DURATION)
  {
    hide DatabaseInvariant, Renew, ScopeBlocked;
    RenewSucceedsExactly(w.db, w.procs[p].request, p, w.procs[p].fence, now);
  }

  lemma ClaimSetsLease(w: World, p: Uuid, id: Uuid, now: Time, k: Uuid)
    ensures var v := ApplyStartExport(w, p, id, now);
            Untouched(w, v, k) || v.db.rows[k].leaseExpiresAt == Some(now + LEASE_DURATION)
  {
    hide ScopeBlocked;
  }

  lemma FencesSetLeases(hash: Content -> Digest, w: World, step: Step, id: Uuid)
    requires DatabaseInvariant(w.db) && LeaseReading(step).Some?
    ensures var v := Apply(hash, w, step);
            Untouched(w, v, id) || v.db.rows[id].leaseExpiresAt == Some(LeaseReading(step).value + LEASE_DURATION)
  {
    hide DatabaseInvariant, ApplyRenew, ApplyStartExport, Untouched;
    assert Untouched(w, w, id) by { UntouchedItself(w, id); }
    match step
    case StartExport(p, k, now) => ClaimSetsLease(w, p, k, now, id);
    case RenewLease(p, now) =>
      if ExporterAt(w, p) && w.procs[p].stage == Locked {
        RenewalSetsLease(w, p, now, Locked, Aborting(false, false), id);
      }
    case VerifyFence(p, now) =>
      if ExporterAt(w, p) && w.procs[p].stage == Locked {
        RenewalSetsLease(w, p, now, Verified, Aborting(false, false), id);
      }
    case RenewFence(p, now) =>
      if ExporterAt(w, p) && w.procs[p].stage.Published? {
        RenewalSetsLease(w, p, now, Ready(w.procs[p].stage.digest), Aborting(true, false), id);
      }
    case _ =>
  }

  lemma WritingTouchesNoClaim(hash: Content -> Digest, w: World, step: Step, id: Uuid)
    requires PartOf(step) == Claiming && LeaseReading(step).None?
    ensures Untouched(w, Apply(hash, w, step), id)
  {
  }

  lemma FinishingTouchesNoClaim(hash: Content -> Digest, w: World, step: Step, id: Uuid)
    requires PartOf(step) == Finishing && LeaseReading(step).None?
    ensures Untouched(w, Apply(hash, w, step), id)
  {
    hide Fenced, ScopeBlocked, FinalName, TemporaryName;
  }

  lemma CleaningTouchesNoClaim(hash: Content -> Digest, w: World, step: Step, id: Uuid)
    requires PartOf(step) == Cleaning
    ensures Untouched(w, Apply(hash, w, step), id)
  {
    hide NamesOf, ScopeBlocked, GreatestWith, FinalName;
  }

  lemma OutsideTouchesNoClaim(hash: Content -> Digest, w: World, step: Step, id: Uuid)
    requires PartOf(step) == Outside
    ensures Untouched(w, Apply(hash, w, step), id)
  {
    hide ScopeBlocked, DomainShape, InScope;
  }

  lemma StepSetsLease(hash: Content -> Digest, w: World, step: Step, id: Uuid, last: Option<Time>)
    requires DatabaseInvariant(w.db) && LeaseFrom(w.db, id, last)
    ensures LeaseFrom(Apply(hash, w, step).db, id, if SetsLease(hash, w, step, id) then LeaseReading(step) else last)
  {
    hide DatabaseInvariant, Apply, PartOf, LeaseReading;
    if LeaseReading(step).Some? {
      FencesSetLeases(hash, w, step, id);
    } else {
      match PartOf(step) {
        case Claiming => WritingTouchesNoClaim(hash, w, step, id);
        case Finishing => FinishingTouchesNoClaim(hash, w, step, id);
        case Cleaning => CleaningTouchesNoClaim(hash, w, step, id);
        case Outside => OutsideTouchesNoClaim(hash, w, step, id);
      }
    }
  }

  lemma {:induction false} RunSetsLease(
      hash: Content -> Digest, w: World, steps: seq<Step>, id: Uuid, last: Option<Time>)
    requires Sha256Sized(hash) && Invariant(hash, w) && LeaseFrom(w.db, id, last)
    ensures LeaseFrom(Execute(hash, w, steps).db, id, LeaseClock(hash, w, steps, id, last))
    decreases |steps|
  {
    hide Invariant, Apply, Keeps, LeaseFrom, SetsLease, LeaseReading, DatabaseInvariant;
    if steps != [] {
      var v := Apply(hash, w, steps[0]);
      StepKeeps(hash, w, steps[0]);
      KeepsInvariant(hash, w, v);
      DatabaseSound(hash, w);
      StepSetsLease(hash, w, steps[0], id, last);
      RunSetsLease(hash, v, steps[1..], id, if SetsLease(hash, w, steps[0], id) then LeaseReading(steps[0]) else last);
    }
  }

  /**
   Every reachable claimed row has the lease of the last claim or renewal that changed it, and
   is in the domain's shape exactly when that step's clock was less than a lease behind the
   row's creation; every other reachable row always is.
   */
  lemma DomainShapeExactly(hash: Content -> Digest, start: World, steps: seq<Step>, id: Uuid)
    requires Sha256Sized(hash) && Initial(start)
    requires id in Execute(hash, start, steps).db.rows
    ensures var row := Execute(hash, start, steps).db.rows[id];
            var clock := LeaseClock(hash, start, steps, id, None);
            && (row.state == Claimed ==> clock.Some? && row.leaseExpiresAt == Some(clock.value + LEASE_DURATION))
            && (DomainShape(row) <==> (row.state == Claimed ==> row.createdAt < clock.value + LEASE_DURATION))
  {
    hide Execute, Invariant, LeaseClock;
    InitialHolds(hash, start);
    ReachableKeeps(hash, start, steps);
    RunSetsLease(hash, start, steps, id, None);
    DatabaseSound(hash, Execute(hash, start, steps));
    assert RowInvariant(Execute(hash, start, steps).db.rows[id]);
  }

  // ---------------------------------------------------------------------------
  // A lone, healthy export that is lost
  // ---------------------------------------------------------------------------

  function Alone(): World {
    World(Database(map[1 := Active], {}, map[]), map[], map[], map[], 0)
  }

  function AloneRow(): ExportRow {
    ExportRow(1, None, Requested, 0, 10 * LEASE_DURATION, None, None, None, None, None, None, 0, 1, None, None)
  }

  /** One request, one exporter, every step on time; only the encryption takes as long as the lease. */
  function AloneSteps(): seq<Step> {
    [Request(1, AloneRow()), StartExport(7, 1, 0), AcquireLock(7), VerifyFence(7, 0), CheckPaths(7),
     CreateTemporary(7), HashTemporary(7), Publish(7), Tick(LEASE_DURATION)]
  }

  function AloneRows(version: nat): map<Uuid, ExportRow> {
    map[1 := AloneRow().(state := Claimed, owner := Some(7), leaseExpiresAt := Some(LEASE_DURATION), attempts := 1,
                         version := version)]
  }

  function AloneAt(
      version: nat, locked: bool, stage: ExporterStage, files: map<FileName, Content>, clock: Time): World
  {
    World(Database(map[1 := Active], {}, AloneRows(version)), files,
          if locked then map[1 := 7] else map[], map[7 := Exporter(1, 1, version, locked, stage)], clock)
  }

  /** The world after the first k steps. */
  function AloneWorld(hash: Content -> Digest, k: nat): World {
    var temporary, final := map[TemporaryName(1, 1) := []], map[FinalName(1, 1) := []];
    if k == 0 then Alone()
    else if k == 1 then Alone().(db := Database(map[1 := Active], {}, map[1 := AloneRow()]))
    else if k == 2 then AloneAt(2, false, Starting, map[], 0)
    else if k == 3 then AloneAt(2, true, Locked, map[], 0)
    else if k == 4 then AloneAt(3, true, Verified, map[], 0)
    else if k == 5 then AloneAt(3, true, Checked, map[], 0)
    else if k == 6 then AloneAt(3, true, Writing([]), temporary, 0)
    else if k == 7 then AloneAt(3, true, Hashed(hash([])), temporary, 0)
    else if k == 8 then AloneAt(3, true, Published(hash([])), final, 0)
    else AloneAt(3, true, Published(hash([])), final, LEASE_DURATION)
  }

  lemma AloneRequests(hash: Content -> Digest)
    ensures Apply(hash, AloneWorld(hash, 0), Request(1, AloneRow())) == AloneWorld(hash, 1)
  {
  }

  lemma AloneClaims(hash: Content -> Digest)
    ensures Apply(hash, AloneWorld(hash, 1), StartExport(7, 1, 0)) == AloneWorld(hash, 2)
  {
    assert AloneRows(2) == map[1 := AloneRow()][1 := AloneRows(2)[1]];
  }

  lemma AloneRenews(db: Database)
    requires db == Database(map[1 := Active], {}, AloneRows(2))
    ensures Renew(db, 1, 7, 2, 0) == Committed(db.(rows := AloneRows(3)), Some(3))
  {
    assert AloneRows(3) == AloneRows(2)[1 := AloneRows(3)[1]];
  }

  lemma AloneTakesLock(hash: Content -> Digest)
    ensures Apply(hash, AloneWorld(hash, 2), AcquireLock(7)) == AloneWorld(hash, 3)
  {
    hide AloneRows, AloneRow, ApplyRenew;
  }

  lemma AloneChecks(hash: Content -> Digest)
    ensures Apply(hash, AloneWorld(hash, 4), CheckPaths(7)) == AloneWorld(hash, 5)
  {
    hide AloneRows, AloneRow, ApplyRenew;
  }

  lemma AloneVerifies(hash: Content -> Digest)
    ensures Apply(hash, AloneWorld(hash, 3), VerifyFence(7, 0)) == AloneWorld(hash, 4)
  {
    hide AloneRows, AloneRow, Renew;
    AloneRenews(AloneWorld(hash, 3).db);
  }

  lemma AloneWrites(hash: Content -> Digest)
    ensures Apply(hash, AloneWorld(hash, 5), CreateTemporary(7)) == AloneWorld(hash, 6)
  {
    hide AloneRows, AloneRow, ApplyRenew;
  }

  lemma AloneHashes(hash: Content -> Digest)
    ensures Apply(hash, AloneWorld(hash, 6), HashTemporary(7)) == AloneWorld(hash, 7)
  {
    hide AloneRows, AloneRow, ApplyRenew;
  }

  lemma AloneWaits(hash: Content -> Digest)
    ensures Apply(hash, AloneWorld(hash, 8), Tick(LEASE_DURATION)) == AloneWorld(hash, 9)
  {
    hide AloneRows, AloneRow, ApplyRenew;
  }

  lemma AlonePublishes(hash: Content -> Digest)
    ensures Apply(hash, AloneWorld(hash, 7), Publish(7)) == AloneWorld(hash, 8)
  {
    hide AloneRows, AloneRow;
    var temporary, final := TemporaryName(1, 1), FinalName(1, 1);
    var empty: Content := [];
    assert (map[temporary := empty] - {temporary})[final := empty] == map[final := empty];
  }

  lemma AloneStep(hash: Content -> Digest, k: nat)
    requires k < 9
    ensures Apply(hash, AloneWorld(hash, k), AloneSteps()[k]) == AloneWorld(hash, k + 1)
  {
    hide Apply, AloneWorld;
    AloneRequests(hash);
    AloneClaims(hash);
    AloneTakesLock(hash);
    AloneVerifies(hash);
    AloneChecks(hash);
    AloneWrites(hash);
    AloneHashes(hash);
    AlonePublishes(hash);
    AloneWaits(hash);
  }

  lemma {:induction false} AloneReaches(hash: Content -> Digest, k: nat)
    requires k <= 9
    ensures Execute(hash, AloneWorld(hash, k), AloneSteps()[k..]) == AloneWorld(hash, 9)
    decreases 9 - k
  {
    hide Apply, AloneWorld;
    var steps := AloneSteps();
    if k < 9 {
      hide AloneSteps;
      AloneStep(hash, k);
      AloneReaches(hash, k + 1);
      NextOf(hash, AloneWorld(hash, k), steps, k);
    }
  }

  lemma NextOf(hash: Content -> Digest, w: World, steps: seq<Step>, k: nat)
    requires k < |steps|
    ensures Execute(hash, w, steps[k..]) == Execute(hash, Apply(hash, w, steps[k]), steps[k + 1..])
  {
    hide Apply;
    assert steps[k..][1..] == steps[k + 1..];
  }

  lemma AloneLoses(hash: Content -> Digest)
    ensures var w := AloneWorld(hash, 9);
            Apply(hash, w, RenewFence(7, LEASE_DURATION))
            == w.(procs := w.procs[7 := w.procs[7].(stage := Aborting(true, false))])
  {
    assert !Fenced(AloneWorld(hash, 9).db, 1, 7, 3, LEASE_DURATION);
  }

  /** With no erasure, no other exporter and no fault, the export publishes and then loses its claim. */
  lemma LoneExportIsLost(hash: Content -> Digest)
    ensures Initial(Alone()) && Execute(hash, Alone(), AloneSteps()) == AloneWorld(hash, 9)
    ensures var w := AloneWorld(hash, 9);
            && ExporterAt(w, 7) && w.procs[7].stage == Published(hash([]))
            && 1 in w.db.rows && w.db.rows[1].owner == Some(7) && w.db.rows[1].version == w.procs[7].fence
            && w.db.erasures == {}
            && ExporterAt(Apply(hash, w, RenewFence(7, LEASE_DURATION)), 7)
            && Apply(hash, w, RenewFence(7, LEASE_DURATION)).procs[7].stage == Aborting(true, false)
  {
    hide Apply, Execute;
    AloneReaches(hash, 0);
    AloneLoses(hash);
    assert AloneSteps()[0..] == AloneSteps();
  }

  // ---------------------------------------------------------------------------
  // A claim with a late clock
  // ---------------------------------------------------------------------------

  /** A request created a lease after the start, and claimed by a clock that still reads 0. */
  function LateSteps(): seq<Step> {
    [Tick(LEASE_DURATION), Request(1, AloneRow().(createdAt := LEASE_DURATION)), StartExport(7, 1, 0)]
  }

  /** The claim goes through, and the claimed row's lease ends no later than the row's creation. */
  lemma LateClaimLeavesDomainShape(hash: Content -> Digest)
    ensures Initial(Alone())
    ensures var end := Execute(hash, Alone(), LateSteps());
            && 1 in end.db.rows && end.db.rows[1].state == Claimed && end.db.rows[1].owner == Some(7)
            && end.db.rows[1].leaseExpiresAt == Some(end.db.rows[1].createdAt) && !DomainShape(end.db.rows[1])
  {
    hide Execute;
    var steps := LateSteps();
    var w1 := Apply(hash, Alone(), steps[0]);
    var w2 := Apply(hash, w1, steps[1]);
    assert Apply(hash, w2, steps[2]).db.rows[1].state == Claimed;
    ThreeSteps(hash, Alone(), steps);
  }

  lemma ThreeSteps(hash: Content -> Digest, w: World, steps: seq<Step>)
    requires |steps| == 3
    ensures Execute(hash, w, steps) == Apply(hash, Apply(hash, Apply(hash, w, steps[0]), steps[1]), steps[2])
  {
    hide Apply;
    var w1 := Apply(hash, w, steps[0]);
    var w2 := Apply(hash, w1, steps[1]);
    assert steps[1..][1..] == steps[2..] && steps[2..][1..] == [];
    var w3 := Apply(hash, w2, steps[2]);
    assert Execute(hash, w3, []) == w3;
    assert Execute(hash, w2, steps[2..]) == Execute(hash, w3, steps[2..][1..]);
    assert Execute(hash, w1, steps[1..]) == Execute(hash, w2, steps[1..][1..]);
    assert Execute(hash, w, steps) == Execute(hash, w1, steps[1..]);
  }
}
