/** What the export protocol guarantees over every run. */
module ExportRuns {
  import opened Basics
  import opened ExportRows
  import opened ExportRowLaws
  import opened ExportProtocol
  import opened ExportSafety
  import opened ExportSteps
  import opened ExportCleanup

  lemma NothingKeeps(hash: Content -> Digest, w: World)
    requires Invariant(hash, w)
    ensures Keeps(hash, w, w)
  {
    AdvancesReflexive(w.db);
  }

  /** The four parts of a run: up to writing, finishing or failing, cleaning, and everything else. */
  datatype Part = Claiming | Finishing | Cleaning | Outside

  function PartOf(step: Step): Part {
    match step
    case StartExport(_, _, _) => Claiming
    case AcquireLock(_) => Claiming
    case RenewLease(_, _) => Claiming
    case VerifyFence(_, _) => Claiming
    case CheckPaths(_) => Claiming
    case CreateTemporary(_) => Claiming
    case WriteTemporary(_, _) => Claiming
    case HashTemporary(_) => Finishing
    case Publish(_) => Finishing
    case RenewFence(_, _) => Finishing
    case Complete(_, _) => Finishing
    case Fault(_, _) => Finishing
    case Interrupt(_) => Finishing
    case DiscardTemporary(_) => Finishing
    case DiscardFinal(_) => Finishing
    case UnlinkArtifact(_) => Finishing
    case ReportFailure(_, _) => Finishing
    case SelectExpired(_, _, _) => Cleaning
    case DeleteExpired(_) => Cleaning
    case MarkExpired(_) => Cleaning
    case SelectErased(_, _, _) => Cleaning
    case LockErased(_) => Cleaning
    case DeleteRegistered(_) => Cleaning
    case ListErased(_) => Cleaning
    case UnlinkErased(_, _) => Cleaning
    case FinishSweep(_) => Cleaning
    case AcknowledgeErased(_, _) => Cleaning
    case SelectTemporary(_, _) => Cleaning
    case LockTemporary(_) => Cleaning
    case DeleteTemporary(_) => Cleaning
    case Tick(_) => Outside
    case SetAccount(_, _) => Outside
    case Request(_, _) => Outside
    case Erase(_, _) => Outside
    case End(_) => Outside
  }

  lemma ClaimingKeeps(hash: Content -> Digest, w: World, step: Step)
    requires Sha256Sized(hash) && Invariant(hash, w) && PartOf(step) == Claiming
    ensures Keeps(hash, w, Apply(hash, w, step))
  {
    hide Invariant, DatabaseAdvances, Keeps, Sha256Sized;
    NothingKeeps(hash, w);
    match step
    case StartExport(p, id, now) => StartKeeps(hash, w, p, id, now);
    case AcquireLock(p) => AcquireLockKeeps(hash, w, p);
    case RenewLease(p, now) =>
      if ExporterAt(w, p) && w.procs[p].stage == Locked {
        RenewStepKeeps(hash, w, p, now, Locked, Aborting(false, false));
      }
    case VerifyFence(p, now) =>
      if ExporterAt(w, p) && w.procs[p].stage == Locked {
        RenewStepKeeps(hash, w, p, now, Verified, Aborting(false, false));
      }
    case CheckPaths(p) => CheckKeeps(hash, w, p);
    case CreateTemporary(p) => CreateKeeps(hash, w, p);
    case WriteTemporary(p, content) => WriteKeeps(hash, w, p, content);
    case _ =>
  }

  lemma FinishingKeeps(hash: Content -> Digest, w: World, step: Step)
    requires Sha256Sized(hash) && Invariant(hash, w) && PartOf(step) == Finishing
    ensures Keeps(hash, w, Apply(hash, w, step))
  {
    hide Invariant, DatabaseAdvances, Keeps, Sha256Sized;
    NothingKeeps(hash, w);
    match step
    case HashTemporary(p) => HashKeeps(hash, w, p);
    case Publish(p) => PublishKeeps(hash, w, p);
    case RenewFence(p, now) =>
      if ExporterAt(w, p) && w.procs[p].stage.Published? {
        RenewStepKeeps(hash, w, p, now, Ready(w.procs[p].stage.digest), Aborting(true, false));
      }
    case Complete(p, now) => CompleteKeeps(hash, w, p, now);
    case Fault(p, report) => FaultKeeps(hash, w, p, report);
    case Interrupt(p) => InterruptKeeps(hash, w, p);
    case DiscardTemporary(p) => DiscardTemporaryKeeps(hash, w, p);
    case DiscardFinal(p) => DiscardFinalKeeps(hash, w, p);
    case UnlinkArtifact(p) => UnlinkArtifactKeeps(hash, w, p);
    case ReportFailure(p, now) => ReportKeeps(hash, w, p, now);
    case _ =>
  }

  lemma CleaningKeeps(hash: Content -> Digest, w: World, step: Step)
    requires Sha256Sized(hash) && Invariant(hash, w) && PartOf(step) == Cleaning
    ensures Keeps(hash, w, Apply(hash, w, step))
  {
    hide Invariant, DatabaseAdvances, Keeps, Sha256Sized;
    NothingKeeps(hash, w);
    match step
    case SelectExpired(p, id, now) => if now <= w.clock { SelectExpiredKeeps(hash, w, p, id, now); }
    case DeleteExpired(p) => DeleteExpiredKeeps(hash, w, p);
    case MarkExpired(p) => MarkExpiredKeeps(hash, w, p);
    case SelectErased(p, id, now) => SelectErasedKeeps(hash, w, p, id, now);
    case LockErased(p) => LockErasedKeeps(hash, w, p);
    case DeleteRegistered(p) => DeleteRegisteredKeeps(hash, w, p);
    case ListErased(p) => ListErasedKeeps(hash, w, p);
    case UnlinkErased(p, name) => UnlinkErasedKeeps(hash, w, p, name);
    case FinishSweep(p) => FinishSweepKeeps(hash, w, p);
    case AcknowledgeErased(p, clock) => AcknowledgeErasedKeeps(hash, w, p, clock);
    case SelectTemporary(p, name) => SelectTemporaryKeeps(hash, w, p, name);
    case LockTemporary(p) => LockTemporaryKeeps(hash, w, p);
    case DeleteTemporary(p) => DeleteTemporaryKeeps(hash, w, p);
    case _ =>
  }

  lemma OutsideKeeps(hash: Content -> Digest, w: World, step: Step)
    requires Sha256Sized(hash) && Invariant(hash, w) && PartOf(step) == Outside
    ensures Keeps(hash, w, Apply(hash, w, step))
  {
    hide Invariant, DatabaseAdvances, Keeps, Sha256Sized;
    NothingKeeps(hash, w);
    match step
    case Tick(elapsed) => TickKeeps(hash, w, elapsed);
    case SetAccount(account, status) => SetAccountKeeps(hash, w, account, status);
    case Request(id, row) => RequestKeeps(hash, w, id, row);
    case Erase(e, now) => EraseKeeps(hash, w, e, now);
    case End(p) => EndKeeps(hash, w, p);
    case _ =>
  }

  lemma StepKeeps(hash: Content -> Digest, w: World, step: Step)
    requires Sha256Sized(hash) && Invariant(hash, w)
    ensures Keeps(hash, w, Apply(hash, w, step))
  {
    hide Invariant, Keeps, Apply, PartOf, Sha256Sized;
    match PartOf(step)
    case Claiming => ClaimingKeeps(hash, w, step);
    case Finishing => FinishingKeeps(hash, w, step);
    case Cleaning => CleaningKeeps(hash, w, step);
    case Outside => OutsideKeeps(hash, w, step);
  }

  lemma {:induction false} RunKeeps(hash: Content -> Digest, w: World, steps: seq<Step>)
    requires Sha256Sized(hash) && Invariant(hash, w)
    ensures Keeps(hash, w, Execute(hash, w, steps))
    decreases |steps|
  {
    hide Invariant, Apply;
    if steps == [] {
    } else {
      var next := Apply(hash, w, steps[0]);
      StepKeeps(hash, w, steps[0]);
      RunKeeps(hash, next, steps[1..]);
      AdvancesTransitive(w.db, next.db, Execute(hash, next, steps[1..]).db);
    }
  }

  lemma ReachableKeeps(hash: Content -> Digest, start: World, steps: seq<Step>)
    requires Sha256Sized(hash) && Initial(start)
    ensures Invariant(hash, Execute(hash, start, steps))
  {
    InitialHolds(hash, start);
    RunKeeps(hash, start, steps);
  }

  /**
   Once a request's erasure was acknowledged, in every later state the acknowledgement stands
   and the staging directory holds no temporary, final or unnumbered artifact of that request.
   */
  lemma CleanedForever(hash: Content -> Digest, start: World, before: seq<Step>, after: seq<Step>, id: Uuid)
    requires Sha256Sized(hash) && Initial(start)
    requires var w := Execute(hash, start, before);
             id in w.db.rows && w.db.rows[id].erasureCleanedAt.Some?
    ensures var w := Execute(hash, start, before);
            var later := Execute(hash, w, after);
            && id in later.db.rows
            && later.db.rows[id].erasureCleanedAt == w.db.rows[id].erasureCleanedAt
            && (forall n | n in later.files :: n.request != id)
  {
    var w := Execute(hash, start, before);
    ReachableKeeps(hash, start, before);
    RunKeeps(hash, w, after);
    var later := Execute(hash, w, after);
    assert Advances(w.db.rows[id], later.db.rows[id]);
    assert NoFiles(later, id);
  }

  /**
   A completed export that no clock has seen expire and no erasure has revoked is there to
   fetch: its final file carries the row's attempt number and hashes to the row's digest.
   */
  lemma CompletedIsFetchable(hash: Content -> Digest, start: World, steps: seq<Step>, id: Uuid)
    requires Sha256Sized(hash) && Initial(start)
    requires var w := Execute(hash, start, steps);
             && id in w.db.rows && w.db.rows[id].state == Completed
             && w.db.rows[id].expiresAt > w.clock && w.db.rows[id].erasureRequestedAt.None?
    ensures var w := Execute(hash, start, steps);
            var name := FinalName(id, w.db.rows[id].attempts);
            name in w.files && w.db.rows[id].digest == Some(hash(w.files[name]))
  {
    var w := Execute(hash, start, steps);
    ReachableKeeps(hash, start, steps);
    assert ArtifactPresent(hash, w, id);
  }

  /**
   Over any run the version of a changed row rises, attempts never fall, and a finished row
   keeps its outcome: the request completes at most once and keeps that attempt and digest.
   */
  lemma OutcomeIsFinal(hash: Content -> Digest, start: World, before: seq<Step>, after: seq<Step>, id: Uuid)
    requires Sha256Sized(hash) && Initial(start)
    requires id in Execute(hash, start, before).db.rows
    ensures var w := Execute(hash, start, before);
            var later := Execute(hash, w, after);
            && id in later.db.rows
            && (later.db.rows[id] == w.db.rows[id] || w.db.rows[id].version < later.db.rows[id].version)
            && w.db.rows[id].attempts <= later.db.rows[id].attempts
            && (!Active?(w.db.rows[id].state) ==>
                  && later.db.rows[id].state == w.db.rows[id].state
                  && later.db.rows[id].attempts == w.db.rows[id].attempts
                  && later.db.rows[id].digest == w.db.rows[id].digest
                  && later.db.rows[id].completedAt == w.db.rows[id].completedAt)
  {
    var w := Execute(hash, start, before);
    ReachableKeeps(hash, start, before);
    RunKeeps(hash, w, after);
    assert Advances(w.db.rows[id], Execute(hash, w, after).db.rows[id]);
  }

  /** With a fence taken before the row moved, a renewal, completion or failure changes nothing. */
  lemma OutdatedFenceIsHarmless(hash: Content -> Digest, start: World, before: seq<Step>, after: seq<Step>, id: Uuid,
                                owner: Uuid, digest: Digest, now: Time)
    requires Sha256Sized(hash) && Initial(start)
    requires var w := Execute(hash, start, before);
             var later := Execute(hash, w, after);
             id in w.db.rows && id in later.db.rows && later.db.rows[id] != w.db.rows[id]
    ensures var version := Execute(hash, start, before).db.rows[id].version;
            var db := Execute(hash, Execute(hash, start, before), after).db;
            && Renew(db, id, owner, version, now) == Committed(db, None)
            && Finalize(db, id, owner, version, digest, now) == Committed(db, false)
            && RecordFailure(db, id, owner, version, now) == Committed(db, false)
  {
    hide Execute, Invariant;
    var w := Execute(hash, start, before);
    ReachableKeeps(hash, start, before);
    RunKeeps(hash, w, after);
    assert Advances(w.db.rows[id], Execute(hash, w, after).db.rows[id]);
  }

  /** The step that completes a request is the newest claimer's: every other exporter is older. */
  lemma LastClaimerCompletes(hash: Content -> Digest, start: World, steps: seq<Step>, p: Uuid, now: Time, id: Uuid)
    requires Sha256Sized(hash) && Initial(start)
    requires var w := Execute(hash, start, steps);
             var v := Apply(hash, w, Complete(p, now));
             id in w.db.rows && id in v.db.rows && w.db.rows[id].state != Completed && v.db.rows[id].state == Completed
    ensures var w := Execute(hash, start, steps);
            && ExporterAt(w, p) && w.procs[p].request == id
            && w.procs[p].attempt == w.db.rows[id].attempts
            && (forall q | ExporterAt(w, q) && q != p && w.procs[q].request == id ::
                  w.procs[q].attempt < w.procs[p].attempt)
  {
    hide Invariant, Execute;
    var w := Execute(hash, start, steps);
    ReachableKeeps(hash, start, steps);
    CompleterIsNewest(hash, w, p, now);
  }

  /** Every stored row is within the table's shape, and within the domain's but for a backdated lease. */
  lemma RowsStayInShape(hash: Content -> Digest, start: World, steps: seq<Step>, id: Uuid)
    requires Sha256Sized(hash) && Initial(start)
    requires id in Execute(hash, start, steps).db.rows
    ensures var row := Execute(hash, start, steps).db.rows[id];
            && StoredShape(row)
            && row.createdAt < row.expiresAt && row.version > 0
            && (row.state == Requested || row.state == Claimed ==>
                  row.completedAt.None? && row.digest.None? && row.artifactDeletedAt.None? && row.errorCode.None?)
            && (row.state == Requested ==> row.owner.None? && row.leaseExpiresAt.None? && row.attempts == 0)
            && (row.state == Claimed ==> row.owner.Some? && row.leaseExpiresAt.Some? && row.attempts > 0)
            && (row.state != Requested && row.state != Claimed ==>
                  row.owner.None? && row.leaseExpiresAt.None? && row.completedAt.Some?)
            && (row.state == Completed ==> row.digest.Some? && row.errorCode.None? && row.attempts > 0)
            && (row.state == Failed || row.state == Expired ==>
                  row.digest.None? && row.artifactDeletedAt.None? && row.errorCode.Some?)
            && (row.digest.Some? ==> |row.digest.value| == 32)
            && (DomainShape(row) <==> (row.state == Claimed ==> row.leaseExpiresAt.value > row.createdAt))
            && (row.artifactDeletedAt.Some? ==> row.artifactDeletedAt.value >= row.completedAt.value)
            && (row.state == Completed ==> row.completedAt.value < row.expiresAt)
  {
    ReachableKeeps(hash, start, steps);
    assert RowInvariant(Execute(hash, start, steps).db.rows[id]);
  }

  /** No export of an erased scope is waiting, claimed, or ever completes afterwards. */
  lemma ErasureReachesEveryExport(hash: Content -> Digest, start: World, steps: seq<Step>, e: Erasure, id: Uuid)
    requires Sha256Sized(hash) && Initial(start)
    requires var w := Execute(hash, start, steps);
             e in w.db.erasures && id in w.db.rows && InScope(e, w.db.rows[id])
    ensures var row := Execute(hash, start, steps).db.rows[id];
            row.erasureRequestedAt.Some? && !Active?(row.state) && row.owner.None?
  {
    ReachableKeeps(hash, start, steps);
    assert RowInvariant(Execute(hash, start, steps).db.rows[id]);
  }
}
