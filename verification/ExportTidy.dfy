/**
 What is on disk when the table or a process says that nothing is: exporters that gave up have
 removed their files, and an artifact recorded as deleted is gone.
 */
module ExportTidy {
  import opened Basics
  import opened ExportRows
  import opened ExportRowLaws
  import opened ExportProtocol
  import opened ExportSafety
  import opened ExportSteps
  import opened ExportCleanup
  import opened ExportRuns

  /** An exporter's temporary file exists only from its creation to its rename or removal. */
  predicate HasTemporary(stage: ExporterStage) {
    stage.Writing? || stage.Hashed? || stage.Discarding?
  }

  predicate MayHaveFinal(stage: ExporterStage) {
    || stage.Published? || stage.Ready? || stage.Discarding? || stage.DiscardingFinal?
    || (stage.Aborting? && stage.artifact)
  }

  /** Its final file exists only from the rename on, until it is removed or the export completed. */
  predicate HasFinal(w: World, e: Process)
    requires e.Exporter?
  {
    || MayHaveFinal(e.stage)
    || (e.request in w.db.rows && w.db.rows[e.request].state == Completed
        && w.db.rows[e.request].attempts == e.attempt)
  }

  predicate TidyAt(w: World, e: Process)
    requires e.Exporter?
  {
    && (TemporaryName(e.request, e.attempt) in w.files ==> HasTemporary(e.stage))
    && (FinalName(e.request, e.attempt) in w.files ==> HasFinal(w, e))
  }

  ghost predicate ExportersTidy(w: World) {
    forall p | ExporterAt(w, p) :: TidyAt(w, w.procs[p])
  }

  /** An artifact on record as deleted is gone. */
  ghost predicate DeletedAreGone(w: World) {
    forall id | id in w.db.rows && w.db.rows[id].artifactDeletedAt.Some? ::
      FinalName(id, w.db.rows[id].attempts) !in w.files
  }

  predicate CleanerDone(w: World, c: Process) {
    c.ExpiredCleaner? && c.deleted ==> FinalName(c.request, c.attempt) !in w.files
  }

  ghost predicate CleanersDone(w: World) {
    forall p | p in w.procs :: CleanerDone(w, w.procs[p])
  }

  ghost predicate Tidy(w: World) {
    ExportersTidy(w) && DeletedAreGone(w) && CleanersDone(w)
  }

  lemma InitialIsTidy(w: World)
    requires Initial(w)
    ensures Tidy(w)
  {
  }

  // ---------------------------------------------------------------------------
  // Every step keeps order
  // ---------------------------------------------------------------------------

  /** New names are the acting exporter's own, and only while it may create files. */
  ghost predicate OnlyOwnFiles(w: World, v: World, p: Uuid) {
    forall n | n in v.files && n !in w.files ::
      ExporterAt(w, p) && OwnFile(w.procs[p], n) && Creating(w.procs[p].stage)
  }

  /** One process moves, and whatever it newly records as deleted is gone. */
  ghost predicate OneMoves(w: World, v: World, p: Uuid) {
    && DatabaseAdvances(w.db, v.db)
    && (forall q | q in v.procs && q != p :: q in w.procs && v.procs[q] == w.procs[q])
    && OnlyOwnFiles(w, v, p)
    && (forall id | id in v.db.rows && v.db.rows[id].artifactDeletedAt.Some? ::
          || (id in w.db.rows && w.db.rows[id].artifactDeletedAt.Some?)
          || FinalName(id, v.db.rows[id].attempts) !in v.files)
  }

  predicate SelfTidy(v: World, p: Uuid) {
    p in v.procs ==>
      (v.procs[p].Exporter? ==> TidyAt(v, v.procs[p])) && CleanerDone(v, v.procs[p])
  }

  lemma MovesTidily(hash: Content -> Digest, w: World, v: World, p: Uuid)
    requires Invariant(hash, w) && Tidy(w) && OneMoves(w, v, p) && SelfTidy(v, p)
    ensures Tidy(v)
  {
    OthersStayTidy(hash, w, v, p);
    RecordsStayTrue(hash, w, v, p);
  }

  lemma OthersStayTidy(hash: Content -> Digest, w: World, v: World, p: Uuid)
    requires Invariant(hash, w) && ExportersTidy(w) && OneMoves(w, v, p) && SelfTidy(v, p)
    ensures ExportersTidy(v)
  {
    hide DatabaseInvariant, LocksExclusive, OwnersNewest, FilesNumbered, WritersFenced, CompletersDone, ArtifactsKept,
         CleanedStaysEmpty, CleanersSound;
    forall q | ExporterAt(v, q)
      ensures TidyAt(v, v.procs[q])
    {
      if q != p {
        assert ExporterAt(w, q) && TidyAt(w, w.procs[q]);
      }
    }
  }

  lemma RecordsStayTrue(hash: Content -> Digest, w: World, v: World, p: Uuid)
    requires Invariant(hash, w) && DeletedAreGone(w) && CleanersDone(w) && OneMoves(w, v, p) && SelfTidy(v, p)
    ensures DeletedAreGone(v) && CleanersDone(v)
  {
    hide LocksExclusive, AttemptsDistinct, OwnersNewest, FilesNumbered, WritersFenced, ArtifactsKept,
         CleanedStaysEmpty;
    forall id | id in v.db.rows && v.db.rows[id].artifactDeletedAt.Some?
      ensures FinalName(id, v.db.rows[id].attempts) !in v.files
    {
      if id in w.db.rows && w.db.rows[id].artifactDeletedAt.Some? {
        assert RowInvariant(w.db.rows[id]) && Advances(w.db.rows[id], v.db.rows[id]);
      }
    }
    forall q | q in v.procs
      ensures CleanerDone(v, v.procs[q])
    {
      if q != p {
        assert CleanerDone(w, w.procs[q]) && CleanerSound(w, w.procs[q]);
      }
    }
  }

  /** No row comes to be recorded as deleted. */
  ghost predicate SameDeletions(a: Database, b: Database) {
    forall id | id in b.rows && b.rows[id].artifactDeletedAt.Some? :: id in a.rows && a.rows[id].artifactDeletedAt.Some?
  }

  lemma QuietlyTidy(hash: Content -> Digest, w: World, v: World, p: Uuid)
    requires Invariant(hash, w) && Tidy(w) && Keeps(hash, w, v) && SameDeletions(w.db, v.db)
    requires forall q | q in v.procs && q != p :: q in w.procs && v.procs[q] == w.procs[q]
    requires OnlyOwnFiles(w, v, p) && SelfTidy(v, p)
    ensures Tidy(v)
  {
    hide Invariant, Tidy, SelfTidy, OnlyOwnFiles, DatabaseAdvances;
    MovesTidily(hash, w, v, p);
  }

  lemma TidyExporter(hash: Content -> Digest, w: World, p: Uuid)
    requires Tidy(w) && ExporterAt(w, p)
    ensures TidyAt(w, w.procs[p])
  {
  }

  lemma ClaimRecordsNoDeletion(db: Database, id: Uuid, owner: Uuid, now: Time)
    ensures var out := Claim(db, id, owner, now); out.Committed? ==> SameDeletions(db, out.db)
  {
    hide ScopeBlocked;
  }

  lemma RenewRecordsNoDeletion(db: Database, id: Uuid, owner: Uuid, version: nat, now: Time)
    ensures var out := Renew(db, id, owner, version, now); out.Committed? ==> SameDeletions(db, out.db)
  {
    hide ScopeBlocked;
  }

  lemma StartIsTidy(hash: Content -> Digest, w: World, p: Uuid, id: Uuid, now: Time)
    requires Invariant(hash, w) && Tidy(w)
    requires Keeps(hash, w, ApplyStartExport(w, p, id, now))
    ensures Tidy(ApplyStartExport(w, p, id, now))
  {
    hide Tidy, DatabaseInvariant, LocksExclusive, AttemptsClaimed, AttemptsDistinct, OwnersNewest, WritersFenced,
         CompletersDone, ArtifactsKept, CleanedStaysEmpty, CleanersSound, SameDeletions, Keeps, EnforceErasure;
    var v := ApplyStartExport(w, p, id, now);
    if v != w {
      ClaimRecordsNoDeletion(w.db, id, p, now);
      assert FilesNumbered(w);
      QuietlyTidy(hash, w, v, p);
    }
  }

  lemma SameDeletionsItself(db: Database)
    ensures SameDeletions(db, db)
  {
  }

  /** An exporter changes its stage, unlinking what the new stage does not account for. */
  lemma StageIsTidy(hash: Content -> Digest, w: World, v: World, p: Uuid)
    requires Invariant(hash, w) && Tidy(w) && Keeps(hash, w, v) && SameDeletions(w.db, v.db)
    requires ExporterAt(w, p) && ExporterAt(v, p) && v.procs == w.procs[p := v.procs[p]]
    requires v.procs[p].request == w.procs[p].request && v.procs[p].attempt == w.procs[p].attempt
    requires forall n | n in v.files :: n in w.files
    requires var was, e := w.procs[p].stage, v.procs[p];
             && (HasTemporary(was) ==> HasTemporary(e.stage) || TemporaryName(e.request, e.attempt) !in v.files)
             && (MayHaveFinal(was) ==> MayHaveFinal(e.stage) || FinalName(e.request, e.attempt) !in v.files)
    ensures Tidy(v)
  {
    hide Invariant, Tidy, SameDeletions;
    TidyExporter(hash, w, p);
    var e := v.procs[p];
    if e.request in w.db.rows {
      RowAdvances(hash, w, v, e.request);
    }
    QuietlyTidy(hash, w, v, p);
  }

  lemma RowAdvances(hash: Content -> Digest, w: World, v: World, id: Uuid)
    requires Keeps(hash, w, v) && id in w.db.rows
    ensures id in v.db.rows
    ensures w.db.rows[id].state == Completed ==>
              v.db.rows[id].state == Completed && v.db.rows[id].attempts == w.db.rows[id].attempts
  {
    hide Invariant;
    assert Advances(w.db.rows[id], v.db.rows[id]);
  }

  lemma RenewOnlyMoves(w: World, p: Uuid, now: Time, next: ExporterStage, lost: ExporterStage)
    requires ExporterAt(w, p)
    ensures var v := ApplyRenew(w, p, now, next, lost);
            && ExporterAt(v, p) && v.procs == w.procs[p := v.procs[p]] && v.files == w.files
            && v.procs[p].request == w.procs[p].request && v.procs[p].attempt == w.procs[p].attempt
            && (v.procs[p].stage == next || v.procs[p].stage == lost) && SameDeletions(w.db, v.db)
  {
    hide Renew, SameDeletions, At;
    var e := w.procs[p];
    RenewRecordsNoDeletion(w.db, e.request, p, e.fence, now);
    SameDeletionsItself(w.db);
    AtMoves(w, p, lost);
    AtMoves(w, p, next);
  }

  lemma AtMoves(w: World, p: Uuid, stage: ExporterStage)
    requires ExporterAt(w, p)
    ensures var v := At(w, p, stage);
            && ExporterAt(v, p) && v.procs == w.procs[p := v.procs[p]] && v.files == w.files && v.db == w.db
            && v.procs[p] == w.procs[p].(stage := stage)
  {
  }

  lemma RenewIsTidy(hash: Content -> Digest, w: World, p: Uuid, now: Time, next: ExporterStage, lost: ExporterStage)
    requires Invariant(hash, w) && Tidy(w) && ExporterAt(w, p)
    requires Keeps(hash, w, ApplyRenew(w, p, now, next, lost))
    requires !HasTemporary(w.procs[p].stage)
    requires MayHaveFinal(w.procs[p].stage) ==> MayHaveFinal(next) && MayHaveFinal(lost)
    ensures Tidy(ApplyRenew(w, p, now, next, lost))
  {
    hide Invariant, Tidy, SameDeletions, ApplyRenew, Keeps, HasTemporary, MayHaveFinal, TemporaryName, FinalName;
    RenewOnlyMoves(w, p, now, next, lost);
    StageIsTidy(hash, w, ApplyRenew(w, p, now, next, lost), p);
  }

  lemma CreateIsTidy(hash: Content -> Digest, w: World, p: Uuid)
    requires Invariant(hash, w) && Tidy(w) && Keeps(hash, w, ApplyCreateTemporary(w, p))
    ensures Tidy(ApplyCreateTemporary(w, p))
  {
    hide Invariant, Tidy, Keeps, SameDeletions;
    var v := ApplyCreateTemporary(w, p);
    SameDeletionsItself(w.db);
    if v != w {
      TidyExporter(hash, w, p);
      QuietlyTidy(hash, w, v, p);
    }
  }

  lemma WriteIsTidy(hash: Content -> Digest, w: World, p: Uuid, content: Content)
    requires Invariant(hash, w) && Tidy(w) && Keeps(hash, w, ApplyWriteTemporary(w, p, content))
    ensures Tidy(ApplyWriteTemporary(w, p, content))
  {
    hide Invariant, Tidy, Keeps, SameDeletions;
    var v := ApplyWriteTemporary(w, p, content);
    SameDeletionsItself(w.db);
    if v != w {
      WriterFacts(hash, w, p);
      StageIsTidy(hash, w, v, p);
    }
  }

  lemma PublishIsTidy(hash: Content -> Digest, w: World, p: Uuid)
    requires Invariant(hash, w) && Tidy(w) && Keeps(hash, w, ApplyPublish(w, p))
    ensures Tidy(ApplyPublish(w, p))
  {
    hide Invariant, Tidy, Keeps, SameDeletions;
    var v := ApplyPublish(w, p);
    SameDeletionsItself(w.db);
    if v != w {
      TidyExporter(hash, w, p);
      QuietlyTidy(hash, w, v, p);
    }
  }

  lemma FinalizeRecordsNoDeletion(db: Database, id: Uuid, owner: Uuid, version: nat, digest: Digest, now: Time)
    ensures var out := Finalize(db, id, owner, version, digest, now); out.Committed? ==> SameDeletions(db, out.db)
    ensures var out := RecordFailure(db, id, owner, version, now); out.Committed? ==> SameDeletions(db, out.db)
  {
    hide ScopeBlocked;
  }

  /** Completion leaves the final file to the row. */
  lemma CompleteIsTidy(hash: Content -> Digest, w: World, p: Uuid, now: Time)
    requires Sha256Sized(hash) && Invariant(hash, w) && Tidy(w) && Keeps(hash, w, ApplyComplete(w, p, now))
    ensures Tidy(ApplyComplete(w, p, now))
  {
    hide Invariant, Tidy, Keeps, SameDeletions, Finalize, DatabaseInvariant, DatabaseAdvances, Sha256Sized;
    var v := ApplyComplete(w, p, now);
    SameDeletionsItself(w.db);
    if v != w {
      var e := w.procs[p];
      FinalizeRecordsNoDeletion(w.db, e.request, p, e.fence, e.stage.digest, now);
      TidyExporter(hash, w, p);
      var out := Finalize(w.db, e.request, p, e.fence, e.stage.digest, now);
      if out.Committed? && out.result {
        CompletionAdvances(hash, w, p, now);
        QuietlyTidy(hash, w, v, p);
      } else {
        StageIsTidy(hash, w, v, p);
      }
    }
  }

  lemma ReportIsTidy(hash: Content -> Digest, w: World, p: Uuid, now: Time)
    requires Invariant(hash, w) && Tidy(w) && Keeps(hash, w, ApplyReportFailure(w, p, now))
    ensures Tidy(ApplyReportFailure(w, p, now))
  {
    hide Invariant, Tidy, Keeps, SameDeletions, RecordFailure;
    var v := ApplyReportFailure(w, p, now);
    SameDeletionsItself(w.db);
    if v != w {
      var e := w.procs[p];
      FinalizeRecordsNoDeletion(w.db, e.request, p, e.fence, [], now);
      StageIsTidy(hash, w, v, p);
    }
  }

  /** The steps that only move the stage on, or unlink an own file. */
  lemma MovingIsTidy(hash: Content -> Digest, w: World, step: Step, p: Uuid)
    requires Invariant(hash, w) && Tidy(w) && Keeps(hash, w, Apply(hash, w, step))
    requires || step == AcquireLock(p) || step == CheckPaths(p) || step == HashTemporary(p) || step == Interrupt(p)
             || step == DiscardTemporary(p) || step == DiscardFinal(p) || step == UnlinkArtifact(p)
             || (step.Fault? && step.p == p)
    ensures Tidy(Apply(hash, w, step))
  {
    hide Invariant, Tidy, Keeps, SameDeletions, TemporaryName, FinalName;
    var v := Apply(hash, w, step);
    SameDeletionsItself(w.db);
    if v != w {
      StageIsTidy(hash, w, v, p);
    }
  }

  lemma ClaimingIsTidy(hash: Content -> Digest, w: World, step: Step)
    requires Invariant(hash, w) && Tidy(w) && PartOf(step) == Claiming && Keeps(hash, w, Apply(hash, w, step))
    ensures Tidy(Apply(hash, w, step))
  {
    hide Invariant, Tidy, Keeps, SameDeletions, ApplyStartExport, ApplyRenew, ApplyCreateTemporary, ApplyWriteTemporary;
    match step
    case StartExport(p, id, now) => if now <= w.clock { StartIsTidy(hash, w, p, id, now); }
    case RenewLease(p, now) =>
      if now <= w.clock && ExporterAt(w, p) && w.procs[p].stage == Locked {
        RenewIsTidy(hash, w, p, now, Locked, Aborting(false, false));
      }
    case VerifyFence(p, now) =>
      if now <= w.clock && ExporterAt(w, p) && w.procs[p].stage == Locked {
        RenewIsTidy(hash, w, p, now, Verified, Aborting(false, false));
      }
    case AcquireLock(p) => MovingIsTidy(hash, w, step, p);
    case CheckPaths(p) => MovingIsTidy(hash, w, step, p);
    case CreateTemporary(p) => CreateIsTidy(hash, w, p);
    case WriteTemporary(p, content) => WriteIsTidy(hash, w, p, content);
    case _ =>
  }

  lemma FinishingIsTidy(hash: Content -> Digest, w: World, step: Step)
    requires Sha256Sized(hash) && Invariant(hash, w) && Tidy(w) && PartOf(step) == Finishing
    requires Keeps(hash, w, Apply(hash, w, step))
    ensures Tidy(Apply(hash, w, step))
  {
    hide Invariant, Tidy, Keeps, SameDeletions, ApplyRenew, ApplyPublish, ApplyComplete, ApplyReportFailure,
         Sha256Sized;
    match step
    case RenewFence(p, now) =>
      if now <= w.clock && ExporterAt(w, p) && w.procs[p].stage.Published? {
        RenewIsTidy(hash, w, p, now, Ready(w.procs[p].stage.digest), Aborting(true, false));
      }
    case Publish(p) => PublishIsTidy(hash, w, p);
    case Complete(p, now) => if now <= w.clock { CompleteIsTidy(hash, w, p, now); }
    case ReportFailure(p, now) => if now <= w.clock { ReportIsTidy(hash, w, p, now); }
    case HashTemporary(p) => MovingIsTidy(hash, w, step, p);
    case Interrupt(p) => MovingIsTidy(hash, w, step, p);
    case Fault(p, _) => MovingIsTidy(hash, w, step, p);
    case DiscardTemporary(p) => MovingIsTidy(hash, w, step, p);
    case DiscardFinal(p) => MovingIsTidy(hash, w, step, p);
    case UnlinkArtifact(p) => MovingIsTidy(hash, w, step, p);
    case _ =>
  }

  // ---------------------------------------------------------------------------
  // Cleaners and the environment
  // ---------------------------------------------------------------------------

  /** A process that is no exporter moves, and files only go. */
  lemma CleanerIsTidy(hash: Content -> Digest, w: World, v: World, p: Uuid)
    requires Invariant(hash, w) && Tidy(w) && Keeps(hash, w, v)
    requires p in v.procs ==> !v.procs[p].Exporter? && CleanerDone(v, v.procs[p])
    requires forall q | q in v.procs && q != p :: q in w.procs && v.procs[q] == w.procs[q]
    requires forall n | n in v.files :: n in w.files
    requires forall id | id in v.db.rows && v.db.rows[id].artifactDeletedAt.Some? ::
               || (id in w.db.rows && w.db.rows[id].artifactDeletedAt.Some?)
               || FinalName(id, v.db.rows[id].attempts) !in v.files
    ensures Tidy(v)
  {
    hide Invariant, Tidy, DatabaseAdvances, CleanerDone, FinalName;
    MovesTidily(hash, w, v, p);
  }

  lemma MarkedDeletion(db: Database, id: Uuid, version: nat, digest: Digest, now: Time)
    ensures var out := MarkArtifactDeleted(db, id, version, digest, now);
            out.Committed? ==>
              forall k | k in out.db.rows && out.db.rows[k].artifactDeletedAt.Some? ::
                k in db.rows && out.db.rows[k].attempts == db.rows[k].attempts
                && (db.rows[k].artifactDeletedAt.Some? || k == id)
  {
    hide ScopeBlocked;
  }

  lemma CleanedDeletion(db: Database, id: Uuid, version: nat, now: Time, clock: Time)
    ensures var out := MarkCleaned(db, id, version, now, clock);
            out.Committed? ==>
              forall k | k in out.db.rows && out.db.rows[k].artifactDeletedAt.Some? ::
                k in db.rows && out.db.rows[k].attempts == db.rows[k].attempts
                && (db.rows[k].artifactDeletedAt.Some? || k == id)
  {
    hide ScopeBlocked, GreatestWith;
  }

  /** A deletion is recorded only by a cleaner whose artifact is gone. */
  lemma MarkIsTidy(hash: Content -> Digest, w: World, p: Uuid)
    requires Invariant(hash, w) && Tidy(w) && Keeps(hash, w, ApplyMarkExpired(w, p))
    ensures Tidy(ApplyMarkExpired(w, p))
  {
    hide Invariant, Keeps, MarkArtifactDeleted, DeletedAreGone, ExportersTidy;
    var v := ApplyMarkExpired(w, p);
    if v != w {
      var c := w.procs[p];
      MarkedDeletion(w.db, c.request, c.version, c.digest, c.now);
      CleanerFacts(hash, w, p);
      assert CleanerDone(w, c);
      CleanerIsTidy(hash, w, v, p);
    }
  }

  lemma AcknowledgeIsTidy(hash: Content -> Digest, w: World, p: Uuid, clock: Time)
    requires Invariant(hash, w) && Tidy(w) && Keeps(hash, w, ApplyAcknowledgeErased(w, p, clock))
    ensures Tidy(ApplyAcknowledgeErased(w, p, clock))
  {
    hide Invariant, Keeps, MarkCleaned, Tidy;
    var v := ApplyAcknowledgeErased(w, p, clock);
    if v != w {
      var c := w.procs[p];
      CleanedDeletion(w.db, c.request, c.version, c.now, clock);
      CleanerFacts(hash, w, p);
      CleanerIsTidy(hash, w, v, p);
    }
  }

  lemma CleaningIsTidy(hash: Content -> Digest, w: World, step: Step)
    requires Invariant(hash, w) && Tidy(w) && PartOf(step) == Cleaning && Keeps(hash, w, Apply(hash, w, step))
    ensures Tidy(Apply(hash, w, step))
  {
    hide Invariant, Tidy, Keeps, ApplyMarkExpired, ApplyAcknowledgeErased, NamesOf, ExpiredArtifact;
    var v := Apply(hash, w, step);
    if step.MarkExpired? {
      MarkIsTidy(hash, w, step.p);
    } else if step.AcknowledgeErased? {
      if step.clock <= w.clock { AcknowledgeIsTidy(hash, w, step.p, step.clock); }
    } else if v != w {
      CleanerIsTidy(hash, w, v, step.p);
    }
  }

  /** No process moves and no file changes. */
  lemma EnvironmentIsTidy(hash: Content -> Digest, w: World, v: World)
    requires Invariant(hash, w) && Tidy(w) && Keeps(hash, w, v) && SameDeletions(w.db, v.db)
    requires v.procs == w.procs && v.files == w.files
    ensures Tidy(v)
  {
    hide Invariant, Keeps, SameDeletions;
    if ExporterAt(w, 0) {
      TidyExporter(hash, w, 0);
      if w.procs[0].request in w.db.rows {
        RowAdvances(hash, w, v, w.procs[0].request);
      }
    }
    assert 0 in w.procs ==> CleanerDone(w, w.procs[0]);
    QuietlyTidy(hash, w, v, 0);
  }

  lemma RequestRecordsNoDeletion(w: World, id: Uuid, row: ExportRow)
    ensures var v := ApplyRequest(w, id, row);
            SameDeletions(w.db, v.db) && v.procs == w.procs && v.files == w.files
  {
    hide ScopeBlocked;
  }

  lemma ErasureRecordsNoDeletion(db: Database, e: Erasure, now: Time)
    ensures SameDeletions(db, InsertErasure(db, e, now))
  {
    hide InScope;
  }

  lemma SameRows(a: Database, b: Database)
    requires a.rows == b.rows
    ensures SameDeletions(a, b)
  {
  }

  lemma OutsideIsTidy(hash: Content -> Digest, w: World, step: Step)
    requires Invariant(hash, w) && Tidy(w) && PartOf(step) == Outside && Keeps(hash, w, Apply(hash, w, step))
    ensures Tidy(Apply(hash, w, step))
  {
    hide Invariant, Keeps, Tidy, SameDeletions, ApplyRequest, InsertErasure;
    var v := Apply(hash, w, step);
    SameDeletionsItself(w.db);
    match step
    case End(p) => if v != w { CleanerIsTidy(hash, w, v, p); }
    case Request(id, row) =>
      RequestRecordsNoDeletion(w, id, row);
      EnvironmentIsTidy(hash, w, v);
    case Erase(e, now) =>
      ErasureRecordsNoDeletion(w.db, e, now);
      EnvironmentIsTidy(hash, w, v);
    case SetAccount(_, _) =>
      assert SameDeletions(w.db, v.db) by { SameRows(w.db, v.db); }
      EnvironmentIsTidy(hash, w, v);
    case _ => EnvironmentIsTidy(hash, w, v);
  }

  lemma StepIsTidy(hash: Content -> Digest, w: World, step: Step)
    requires Sha256Sized(hash) && Invariant(hash, w) && Tidy(w)
    ensures Tidy(Apply(hash, w, step))
  {
    hide Invariant, Tidy, Keeps, Apply, PartOf, Sha256Sized;
    StepKeeps(hash, w, step);
    match PartOf(step)
    case Claiming => ClaimingIsTidy(hash, w, step);
    case Finishing => FinishingIsTidy(hash, w, step);
    case Cleaning => CleaningIsTidy(hash, w, step);
    case Outside => OutsideIsTidy(hash, w, step);
  }

  lemma {:induction false} RunIsTidy(hash: Content -> Digest, w: World, steps: seq<Step>)
    requires Sha256Sized(hash) && Invariant(hash, w) && Tidy(w)
    ensures Tidy(Execute(hash, w, steps))
    decreases |steps|
  {
    hide Invariant, Tidy, Apply, DatabaseAdvances;
    if steps != [] {
      StepKeeps(hash, w, steps[0]);
      StepIsTidy(hash, w, steps[0]);
      RunIsTidy(hash, Apply(hash, w, steps[0]), steps[1..]);
    }
  }

  // ---------------------------------------------------------------------------
  // What it gives
  // ---------------------------------------------------------------------------

  /** In every reachable state an artifact that is recorded as deleted is not in the staging directory. */
  lemma RecordedDeletionIsReal(hash: Content -> Digest, start: World, steps: seq<Step>, id: Uuid)
    requires Sha256Sized(hash) && Initial(start)
    requires var w := Execute(hash, start, steps);
             id in w.db.rows && w.db.rows[id].artifactDeletedAt.Some?
    ensures var w := Execute(hash, start, steps);
            FinalName(id, w.db.rows[id].attempts) !in w.files
  {
    hide Execute, Invariant;
    InitialHolds(hash, start);
    InitialIsTidy(start);
    RunIsTidy(hash, start, steps);
  }

  /**
   An exporter that has given up, whatever stopped it, has left neither its temporary nor its
   final file behind; one that completed has left exactly the final file to its row.
   */
  lemma GivingUpLeavesNothing(hash: Content -> Digest, start: World, steps: seq<Step>, p: Uuid)
    requires Sha256Sized(hash) && Initial(start)
    requires var w := Execute(hash, start, steps);
             ExporterAt(w, p) && (w.procs[p].stage.Reporting? || w.procs[p].stage == Closing)
    ensures var w := Execute(hash, start, steps);
            var e := w.procs[p];
            && TemporaryName(e.request, e.attempt) !in w.files
            && (FinalName(e.request, e.attempt) in w.files ==>
                  && e.request in w.db.rows && w.db.rows[e.request].state == Completed
                  && w.db.rows[e.request].attempts == e.attempt)
  {
    hide Execute, Invariant;
    InitialHolds(hash, start);
    InitialIsTidy(start);
    RunIsTidy(hash, start, steps);
    TidyExporter(hash, Execute(hash, start, steps), p);
  }
}
