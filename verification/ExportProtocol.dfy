/**
 Exporters, cleaners, erasures and crashes over one export table and one staging directory.

 A world is what is shared (database, files, advisory locks, the latest clock reading) plus
 the local state of every process that ever started.  `Apply` performs one atomic step; a
 step that is not enabled leaves the world alone, so a run is any sequence of steps.
 */
module ExportProtocol {
  import opened Basics
  import opened ExportRows

  type Content = seq<Byte>

  /** The names the staging directory can hold for a request; see `ArtifactNames`. */
  datatype FileName = FileName(request: Uuid, attempt: Option<nat>, dotted: bool, temporary: bool)

  function TemporaryName(request: Uuid, attempt: nat): FileName {
    FileName(request, Some(attempt), true, true)
  }

  function FinalName(request: Uuid, attempt: nat): FileName {
    FileName(request, Some(attempt), false, false)
  }

  // ---------------------------------------------------------------------------
  // Processes
  // ---------------------------------------------------------------------------

  /** Where one call of `run` stands after its claim. */
  datatype ExporterStage =
    | Starting                       // claimed, not yet under the request lock
    | Locked                         // lock held, lease guard started
    | Verified                       // fence renewed under the lock
    | Checked                        // neither artifact path exists
    | Writing(content: Content)      // temporary file open
    | Hashed(digest: Digest)         // temporary complete and hashed
    | Published(digest: Digest)      // renamed to the final path
    | Ready(digest: Digest)          // fence renewed again
    | Discarding(report: bool)       // encryption failed, temporary still to unlink
    | DiscardingFinal(report: bool)  // encryption failed, final still to unlink
    | Aborting(artifact: bool, report: bool)
    | Reporting(report: bool)
    | Closing                        // only the lock is left to release

  datatype EraserStage =
    | Selected
    | Guarded
    | Listing
    | Sweeping(todo: set<FileName>)
    | Swept
    | Finished

  datatype Process =
    | Exporter(request: Uuid, attempt: nat, fence: nat, locked: bool, stage: ExporterStage)
    | ExpiredCleaner(request: Uuid, attempt: nat, version: nat, digest: Digest, now: Time, deleted: bool)
    | ErasureCleaner(request: Uuid, attempt: nat, version: nat, registered: Option<Digest>, now: Time,
                     locked: bool, phase: EraserStage)
    | TemporaryCleaner(name: FileName, locked: bool)
    | Ended

  datatype World = World(
    db: Database,
    files: map<FileName, Content>,
    locks: map<Uuid, Uuid>,
    procs: map<Uuid, Process>,
    clock: Time)

  function Holds(p: Process): Option<Uuid> {
    match p
    case Exporter(request, _, _, locked, _) => if locked then Some(request) else None
    case ErasureCleaner(request, _, _, _, _, locked, _) => if locked then Some(request) else None
    case TemporaryCleaner(name, locked) => if locked then Some(name.request) else None
    case _ => None
  }

  /** No request yet, and at most the unnumbered artifacts older releases left behind. */
  ghost predicate Initial(w: World) {
    && w.db.rows == map[] && w.db.erasures == {}
    && w.procs == map[] && w.locks == map[]
    && (forall n | n in w.files :: n.attempt.None?)
  }

  // ---------------------------------------------------------------------------
  // Steps
  // ---------------------------------------------------------------------------

  datatype Step =
    | Tick(elapsed: nat)
    | SetAccount(account: Uuid, status: AccountStatus)
    | Request(id: Uuid, row: ExportRow)
    | Erase(erasure: Erasure, now: Time)
    | StartExport(p: Uuid, id: Uuid, now: Time)
    | AcquireLock(p: Uuid)
    | RenewLease(p: Uuid, now: Time)
    | VerifyFence(p: Uuid, now: Time)
    | CheckPaths(p: Uuid)
    | CreateTemporary(p: Uuid)
    | WriteTemporary(p: Uuid, content: Content)
    | HashTemporary(p: Uuid)
    | Publish(p: Uuid)
    | RenewFence(p: Uuid, now: Time)
    | Complete(p: Uuid, now: Time)
    | Fault(p: Uuid, report: bool)
    | Interrupt(p: Uuid)             // an exception right after the rename, still inside the encryption
    | DiscardTemporary(p: Uuid)
    | DiscardFinal(p: Uuid)
    | UnlinkArtifact(p: Uuid)
    | ReportFailure(p: Uuid, now: Time)
    | SelectExpired(p: Uuid, id: Uuid, now: Time)
    | DeleteExpired(p: Uuid)
    | MarkExpired(p: Uuid)
    | SelectErased(p: Uuid, id: Uuid, now: Time)
    | LockErased(p: Uuid)
    | DeleteRegistered(p: Uuid)
    | ListErased(p: Uuid)
    | UnlinkErased(p: Uuid, name: FileName)
    | FinishSweep(p: Uuid)
    | AcknowledgeErased(p: Uuid, clock: Time)
    | SelectTemporary(p: Uuid, name: FileName)
    | LockTemporary(p: Uuid)
    | DeleteTemporary(p: Uuid)
    | End(p: Uuid)                   // normal exit or crash: the lock goes with the process

  predicate ExporterAt(w: World, p: Uuid) {
    p in w.procs && w.procs[p].Exporter?
  }

  function At(w: World, p: Uuid, stage: ExporterStage): World
    requires ExporterAt(w, p)
  {
    w.(procs := w.procs[p := w.procs[p].(stage := stage)])
  }

  function Unlink(w: World, name: FileName): World {
    w.(files := w.files - {name})
  }

  function ApplyStartExport(w: World, p: Uuid, id: Uuid, now: Time): World {
    if p in w.procs then w else
    match Claim(w.db, id, p, now)
    case Committed(db, ticket) =>
      w.(db := db, procs := w.procs[p := Exporter(id, ticket.attempt, ticket.version, false, Starting)])
    case Raised(_) => w
  }

  function ApplyAcquireLock(w: World, p: Uuid): World {
    if !ExporterAt(w, p) || w.procs[p].stage != Starting then w
    else if w.procs[p].request in w.locks then At(w, p, Aborting(false, false))
    else w.(locks := w.locks[w.procs[p].request := p],
            procs := w.procs[p := w.procs[p].(stage := Locked, locked := true)])
  }

  /** One `_renew_once`: on success move to `next` with the new fence, otherwise the lease is lost. */
  function ApplyRenew(w: World, p: Uuid, now: Time, next: ExporterStage, lost: ExporterStage): World
    requires ExporterAt(w, p)
  {
    var e := w.procs[p];
    match Renew(w.db, e.request, p, e.fence, now)
    case Committed(db, Some(fence)) =>
      w.(db := db, procs := w.procs[p := e.(fence := fence, stage := next)])
    case _ => At(w, p, lost)
  }

  function ApplyCheckPaths(w: World, p: Uuid): World {
    if !ExporterAt(w, p) || w.procs[p].stage != Verified then w
    else
      var e := w.procs[p];
      if FinalName(e.request, e.attempt) in w.files || TemporaryName(e.request, e.attempt) in w.files
      then At(w, p, Aborting(false, true))
      else At(w, p, Checked)
  }

  /** The exclusive create of the temporary file. */
  function ApplyCreateTemporary(w: World, p: Uuid): World {
    if !ExporterAt(w, p) || w.procs[p].stage != Checked then w
    else
      var name := TemporaryName(w.procs[p].request, w.procs[p].attempt);
      if name in w.files then At(w, p, Aborting(false, true))
      else At(w.(files := w.files[name := []]), p, Writing([]))
  }

  function ApplyWriteTemporary(w: World, p: Uuid, content: Content): World {
    if !ExporterAt(w, p) || !w.procs[p].stage.Writing? then w
    else
      var name := TemporaryName(w.procs[p].request, w.procs[p].attempt);
      At(w.(files := w.files[name := content]), p, Writing(content))
  }

  function ApplyHashTemporary(hash: Content -> Digest, w: World, p: Uuid): World {
    if !ExporterAt(w, p) || !w.procs[p].stage.Writing? then w
    else At(w, p, Hashed(hash(w.procs[p].stage.content)))
  }

  function ApplyPublish(w: World, p: Uuid): World {
    if !ExporterAt(w, p) || !w.procs[p].stage.Hashed? then w
    else
      var e := w.procs[p];
      var temporary := TemporaryName(e.request, e.attempt);
      if temporary !in w.files then At(w, p, Discarding(true))
      else At(w.(files := (w.files - {temporary})[FinalName(e.request, e.attempt) := w.files[temporary]]),
              p, Published(e.stage.digest))
  }

  function ApplyComplete(w: World, p: Uuid, now: Time): World {
    if !ExporterAt(w, p) || !w.procs[p].stage.Ready? then w
    else
      var e := w.procs[p];
      match Finalize(w.db, e.request, p, e.fence, e.stage.digest, now)
      case Committed(db, true) => At(w.(db := db), p, Closing)
      case Committed(_, false) => At(w, p, Aborting(true, false))
      case Raised(_) => At(w, p, Aborting(true, true))
  }

  /** Any exception: inside the encryption both paths are unlinked, later only the artifact is. */
  function ApplyFault(w: World, p: Uuid, report: bool): World {
    if !ExporterAt(w, p) then w
    else
      match w.procs[p].stage
      case Starting => At(w, p, Aborting(false, report))
      case Locked => At(w, p, Aborting(false, report))
      case Verified => At(w, p, Aborting(false, report))
      case Checked => At(w, p, Aborting(false, report))
      case Writing(_) => At(w, p, Discarding(report))
      case Hashed(_) => At(w, p, Discarding(report))
      case Published(_) => At(w, p, Aborting(true, report))
      case Ready(_) => At(w, p, Aborting(true, report))
      case _ => w
  }

  function ApplyInterrupt(w: World, p: Uuid): World {
    if !ExporterAt(w, p) || !w.procs[p].stage.Published? then w
    else At(w, p, Discarding(true))
  }

  function ApplyDiscardTemporary(w: World, p: Uuid): World {
    if !ExporterAt(w, p) || !w.procs[p].stage.Discarding? then w
    else
      At(Unlink(w, TemporaryName(w.procs[p].request, w.procs[p].attempt)), p,
         DiscardingFinal(w.procs[p].stage.report))
  }

  function ApplyDiscardFinal(w: World, p: Uuid): World {
    if !ExporterAt(w, p) || !w.procs[p].stage.DiscardingFinal? then w
    else
      At(Unlink(w, FinalName(w.procs[p].request, w.procs[p].attempt)), p,
         Aborting(false, w.procs[p].stage.report))
  }

  function ApplyUnlinkArtifact(w: World, p: Uuid): World {
    if !ExporterAt(w, p) || !w.procs[p].stage.Aborting? then w
    else
      var e := w.procs[p];
      At(if e.stage.artifact then Unlink(w, FinalName(e.request, e.attempt)) else w, p,
         Reporting(e.stage.report))
  }

  function ApplyReportFailure(w: World, p: Uuid, now: Time): World {
    if !ExporterAt(w, p) || !w.procs[p].stage.Reporting? then w
    else if !w.procs[p].stage.report then At(w, p, Closing)
    else
      var e := w.procs[p];
      match RecordFailure(w.db, e.request, p, e.fence, now)
      case Committed(db, _) => At(w.(db := db), p, Closing)
      case Raised(_) => At(w, p, Closing)
  }

  function ApplySelectExpired(w: World, p: Uuid, id: Uuid, now: Time): World {
    if p in w.procs || id !in w.db.rows then w
    else
      var row := w.db.rows[id];
      if ExpiredArtifact(row, now) && row.erasureRequestedAt.None? && row.digest.Some? then
        w.(procs := w.procs[p := ExpiredCleaner(id, row.attempts, row.version, row.digest.value, now, false)])
      else w
  }

  function ApplyDeleteExpired(hash: Content -> Digest, w: World, p: Uuid): World {
    if p !in w.procs || !w.procs[p].ExpiredCleaner? || w.procs[p].deleted then w
    else
      var c := w.procs[p];
      var name := FinalName(c.request, c.attempt);
      if name in w.files && hash(w.files[name]) != c.digest then w.(procs := w.procs[p := Ended])
      else Unlink(w, name).(procs := w.procs[p := c.(deleted := true)])
  }

  function ApplyMarkExpired(w: World, p: Uuid): World {
    if p !in w.procs || !w.procs[p].ExpiredCleaner? || !w.procs[p].deleted then w
    else
      var c := w.procs[p];
      match MarkArtifactDeleted(w.db, c.request, c.version, c.digest, c.now)
      case Committed(db, _) => w.(db := db, procs := w.procs[p := Ended])
      case Raised(_) => w.(procs := w.procs[p := Ended])
  }

  predicate EraserAt(w: World, p: Uuid, phase: EraserStage) {
    p in w.procs && w.procs[p].ErasureCleaner? && w.procs[p].phase == phase
  }

  function Phase(w: World, p: Uuid, phase: EraserStage): World
    requires p in w.procs && w.procs[p].ErasureCleaner?
  {
    w.(procs := w.procs[p := w.procs[p].(phase := phase)])
  }

  function ApplySelectErased(w: World, p: Uuid, id: Uuid, now: Time): World {
    if p in w.procs || id !in w.db.rows then w
    else
      var row := w.db.rows[id];
      if row.erasureRequestedAt.Some? && row.erasureCleanedAt.None? then
        w.(procs := w.procs[p := ErasureCleaner(id, row.attempts, row.version, row.digest, now, false, Selected)])
      else w
  }

  function ApplyLockErased(w: World, p: Uuid): World {
    if !EraserAt(w, p, Selected) then w
    else if w.procs[p].request in w.locks then Phase(w, p, Finished)
    else w.(locks := w.locks[w.procs[p].request := p],
            procs := w.procs[p := w.procs[p].(phase := Guarded, locked := true)])
  }

  /** The registered artifact goes first, and only while its content matches the digest. */
  function ApplyDeleteRegistered(hash: Content -> Digest, w: World, p: Uuid): World {
    if !EraserAt(w, p, Guarded) then w
    else
      var c := w.procs[p];
      var name := FinalName(c.request, c.attempt);
      if c.registered.None? then Phase(w, p, Listing)
      else if name in w.files && hash(w.files[name]) != c.registered.value then Phase(w, p, Finished)
      else Phase(Unlink(w, name), p, Listing)
  }

  /** Every name of the request, whatever its attempt. */
  function NamesOf(w: World, request: Uuid): set<FileName> {
    set n | n in w.files && n.request == request
  }

  function ApplyListErased(w: World, p: Uuid): World {
    if !EraserAt(w, p, Listing) then w
    else Phase(w, p, Sweeping(NamesOf(w, w.procs[p].request)))
  }

  predicate SweepingAt(w: World, p: Uuid) {
    p in w.procs && w.procs[p].ErasureCleaner? && w.procs[p].phase.Sweeping?
  }

  function ApplyUnlinkErased(w: World, p: Uuid, name: FileName): World {
    if !SweepingAt(w, p) || name !in w.procs[p].phase.todo then w
    else Phase(Unlink(w, name), p, Sweeping(w.procs[p].phase.todo - {name}))
  }

  function ApplyFinishSweep(w: World, p: Uuid): World {
    if !SweepingAt(w, p) || w.procs[p].phase.todo != {} then w
    else Phase(w, p, Swept)
  }

  function ApplyAcknowledgeErased(w: World, p: Uuid, clock: Time): World {
    if !EraserAt(w, p, Swept) then w
    else
      var c := w.procs[p];
      match MarkCleaned(w.db, c.request, c.version, c.now, clock)
      case Committed(db, _) => Phase(w.(db := db), p, Finished)
      case Raised(_) => Phase(w, p, Finished)
  }

  function ApplySelectTemporary(w: World, p: Uuid, name: FileName): World {
    if p in w.procs || name !in w.files || !name.dotted || !name.temporary || name.attempt.None? then w
    else w.(procs := w.procs[p := TemporaryCleaner(name, false)])
  }

  function ApplyLockTemporary(w: World, p: Uuid): World {
    if p !in w.procs || !w.procs[p].TemporaryCleaner? || w.procs[p].locked then w
    else
      var name := w.procs[p].name;
      if name.request in w.locks then w.(procs := w.procs[p := Ended])
      else w.(locks := w.locks[name.request := p], procs := w.procs[p := TemporaryCleaner(name, true)])
  }

  function ApplyDeleteTemporary(w: World, p: Uuid): World {
    if p !in w.procs || !w.procs[p].TemporaryCleaner? || !w.procs[p].locked then w
    else Unlink(w, w.procs[p].name)
  }

  function ApplyEnd(w: World, p: Uuid): World {
    if p !in w.procs then w
    else
      var held := Holds(w.procs[p]);
      w.(procs := w.procs[p := Ended],
         locks := if held.Some? then w.locks - {held.value} else w.locks)
  }

  /** A new request: any fresh row in the shape of the domain record, through the trigger. */
  function ApplyRequest(w: World, id: Uuid, row: ExportRow): World {
    if id in w.db.rows || row.state != Requested || !DomainShape(row) || row.createdAt > w.clock then w
    else
      match WriteRow(w.db, id, row)
      case Ok(db) => w.(db := db)
      case Err(_) => w
  }

  /** One atomic step.  A process may use a stale clock reading but never one from the future. */
  function Apply(hash: Content -> Digest, w: World, step: Step): World {
    match step
    case Tick(elapsed) => w.(clock := w.clock + elapsed)
    case SetAccount(account, status) => w.(db := w.db.(accounts := w.db.accounts[account := status]))
    case Request(id, row) => ApplyRequest(w, id, row)
    case Erase(e, now) => if now > w.clock then w else w.(db := InsertErasure(w.db, e, now))
    case StartExport(p, id, now) => if now > w.clock then w else ApplyStartExport(w, p, id, now)
    case AcquireLock(p) => ApplyAcquireLock(w, p)
    case RenewLease(p, now) =>
      if now > w.clock || !ExporterAt(w, p) || w.procs[p].stage != Locked then w
      else ApplyRenew(w, p, now, Locked, Aborting(false, false))
    case VerifyFence(p, now) =>
      if now > w.clock || !ExporterAt(w, p) || w.procs[p].stage != Locked then w
      else ApplyRenew(w, p, now, Verified, Aborting(false, false))
    case CheckPaths(p) => ApplyCheckPaths(w, p)
    case CreateTemporary(p) => ApplyCreateTemporary(w, p)
    case WriteTemporary(p, content) => ApplyWriteTemporary(w, p, content)
    case HashTemporary(p) => ApplyHashTemporary(hash, w, p)
    case Publish(p) => ApplyPublish(w, p)
    case RenewFence(p, now) =>
      if now > w.clock || !ExporterAt(w, p) || !w.procs[p].stage.Published? then w
      else ApplyRenew(w, p, now, Ready(w.procs[p].stage.digest), Aborting(true, false))
    case Complete(p, now) => if now > w.clock then w else ApplyComplete(w, p, now)
    case Fault(p, report) => ApplyFault(w, p, report)
    case Interrupt(p) => ApplyInterrupt(w, p)
    case DiscardTemporary(p) => ApplyDiscardTemporary(w, p)
    case DiscardFinal(p) => ApplyDiscardFinal(w, p)
    case UnlinkArtifact(p) => ApplyUnlinkArtifact(w, p)
    case ReportFailure(p, now) => if now > w.clock then w else ApplyReportFailure(w, p, now)
    case SelectExpired(p, id, now) => if now > w.clock then w else ApplySelectExpired(w, p, id, now)
    case DeleteExpired(p) => ApplyDeleteExpired(hash, w, p)
    case MarkExpired(p) => ApplyMarkExpired(w, p)
    case SelectErased(p, id, now) => if now > w.clock then w else ApplySelectErased(w, p, id, now)
    case LockErased(p) => ApplyLockErased(w, p)
    case DeleteRegistered(p) => ApplyDeleteRegistered(hash, w, p)
    case ListErased(p) => ApplyListErased(w, p)
    case UnlinkErased(p, name) => ApplyUnlinkErased(w, p, name)
    case FinishSweep(p) => ApplyFinishSweep(w, p)
    case AcknowledgeErased(p, clock) => if clock > w.clock then w else ApplyAcknowledgeErased(w, p, clock)
    case SelectTemporary(p, name) => ApplySelectTemporary(w, p, name)
    case LockTemporary(p) => ApplyLockTemporary(w, p)
    case DeleteTemporary(p) => ApplyDeleteTemporary(w, p)
    case End(p) => ApplyEnd(w, p)
  }

  function Execute(hash: Content -> Digest, w: World, steps: seq<Step>): World
    decreases |steps|
  {
    if steps == [] then w else Execute(hash, Apply(hash, w, steps[0]), steps[1..])
  }
}
