/** Every step of the export protocol keeps the joint invariant and moves every row forward. */
module ExportSteps {
  import opened Basics
  import opened ExportRows
  import opened ExportRowLaws
  import opened ExportProtocol
  import opened ExportSafety

  ghost predicate Keeps(hash: Content -> Digest, w: World, v: World) {
    Invariant(hash, v) && DatabaseAdvances(w.db, v.db)
  }

  lemma DatabaseSound(hash: Content -> Digest, w: World)
    requires Invariant(hash, w)
    ensures DatabaseInvariant(w.db)
  {
  }

  lemma StageKeeps(hash: Content -> Digest, w: World, p: Uuid, stage: ExporterStage)
    requires Invariant(hash, w) && ExporterAt(w, p)
    requires StageAllowed(hash, w, p, w.procs[p].(stage := stage))
    ensures Keeps(hash, w, At(w, p, stage))
  {
    hide Invariant;
    StageStep(hash, w, p, w.procs[p].(stage := stage));
    AdvancesReflexive(w.db);
  }

  lemma AdvancesReflexive(db: Database)
    ensures DatabaseAdvances(db, db)
  {
  }

  // --- the environment ---

  lemma TickKeeps(hash: Content -> Digest, w: World, elapsed: nat)
    requires Invariant(hash, w)
    ensures Keeps(hash, w, w.(clock := w.clock + elapsed))
  {
    var v := w.(clock := w.clock + elapsed);
    hide AttemptsDistinct, AttemptsClaimed, OwnersNewest, FilesNumbered, ArtifactsKept, CleanedStaysEmpty,
         DatabaseInvariant, DatabaseAdvances, CleanersSound;
    AdvancesReflexive(w.db);
    SameDistinct(w, v);
    SameOwners(w, v);
    SameRecords(hash, w, v);
    SameCleaners(w, v);
    forall p | ExporterAt(v, p) ensures HasFiles(hash, v, v.procs[p]) {
      assert ExporterAt(w, p);
    }
  }

  lemma SetAccountKeeps(hash: Content -> Digest, w: World, account: Uuid, status: AccountStatus)
    requires Invariant(hash, w)
    ensures Keeps(hash, w, w.(db := w.db.(accounts := w.db.accounts[account := status])))
  {
    QuietStep(hash, w, w.db.(accounts := w.db.accounts[account := status]));
  }

  lemma RequestKeeps(hash: Content -> Digest, w: World, id: Uuid, row: ExportRow)
    requires Invariant(hash, w)
    ensures Keeps(hash, w, ApplyRequest(w, id, row))
  {
    var v := ApplyRequest(w, id, row);
    if v != w {
      BlockedIsInScope(w.db, row);
      forall e, k | e in v.db.erasures && k in v.db.rows && InScope(e, v.db.rows[k])
        ensures v.db.rows[k].erasureRequestedAt.Some?
      {
        assert k != id;
        assert InScope(e, w.db.rows[k]);
      }
      QuietStep(hash, w, v.db);
    }
  }

  lemma EraseKeeps(hash: Content -> Digest, w: World, e: Erasure, now: Time)
    requires Invariant(hash, w)
    ensures Keeps(hash, w, w.(db := InsertErasure(w.db, e, now)))
  {
    InsertErasureKeeps(w.db, e, now);
    QuietStep(hash, w, InsertErasure(w.db, e, now));
  }

  // --- claiming and locking ---

  lemma StartKeeps(hash: Content -> Digest, w: World, p: Uuid, id: Uuid, now: Time)
    requires Invariant(hash, w)
    ensures Keeps(hash, w, ApplyStartExport(w, p, id, now))
  {
    var v := ApplyStartExport(w, p, id, now);
    if p !in w.procs && Claim(w.db, id, p, now).Committed? {
      ClaimedIsStarted(hash, w, p, id, now);
      StartLocks(hash, w, v, p, id);
      StartAttempts(hash, w, v, p, id);
      StartFiles(hash, w, v, p, id);
      StartWriters(hash, w, v, p, id);
    } else {
      AdvancesReflexive(w.db);
    }
  }

  lemma ClaimedIsStarted(hash: Content -> Digest, w: World, p: Uuid, id: Uuid, now: Time)
    requires Invariant(hash, w) && p !in w.procs && Claim(w.db, id, p, now).Committed?
    ensures var v := ApplyStartExport(w, p, id, now);
            Started(w, v, p, id) && DatabaseInvariant(v.db) && DatabaseAdvances(w.db, v.db)
  {
    ClaimKeeps(w.db, id, p, now);
    assert RowInvariant(w.db.rows[id]);
  }

  /** What a successful claim does to the world. */
  ghost predicate Started(w: World, v: World, p: Uuid, id: Uuid) {
    && p !in w.procs && id in w.db.rows && id in v.db.rows
    && Active?(w.db.rows[id].state)
    && v.db.rows == w.db.rows[id := v.db.rows[id]]
    && v.db.rows[id].attempts == w.db.rows[id].attempts + 1
    && v.db.rows[id].owner == Some(p) && v.db.rows[id].state == Claimed
    && v.db.rows[id].erasureRequestedAt.None? && v.db.rows[id].erasureCleanedAt.None?
    && w.db.rows[id].erasureCleanedAt.None?
    && p in v.procs && v.procs == w.procs[p := v.procs[p]]
    && v.procs[p].Exporter? && v.procs[p].request == id && !v.procs[p].locked
    && v.procs[p].attempt == w.db.rows[id].attempts + 1 && v.procs[p].stage == Starting
    && v.files == w.files && v.locks == w.locks && v.clock == w.clock
  }

  lemma StartLocks(hash: Content -> Digest, w: World, v: World, p: Uuid, id: Uuid)
    requires LocksExclusive(w) && Started(w, v, p, id)
    ensures LocksExclusive(v)
  {
    LockStep(w, p, v.procs[p], v.locks, v);
  }

  lemma StartAttempts(hash: Content -> Digest, w: World, v: World, p: Uuid, id: Uuid)
    requires AttemptsClaimed(w) && AttemptsDistinct(w) && OwnersNewest(w) && Started(w, v, p, id)
    ensures AttemptsClaimed(v) && AttemptsDistinct(v) && OwnersNewest(v)
  {
    forall q | ExporterAt(v, q) && q != p ensures ExporterAt(w, q) && v.procs[q] == w.procs[q] {}
    forall q, r | ExporterAt(v, q) && ExporterAt(v, r) && q != r
                  && v.procs[q].request == v.procs[r].request
      ensures v.procs[q].attempt != v.procs[r].attempt
    {
      assert q != p ==> ExporterAt(w, q);
      assert r != p ==> ExporterAt(w, r);
    }
    forall k | k in v.db.rows && v.db.rows[k].owner.Some?
      ensures OwnsNewest(v, k, v.db.rows[k].owner.value)
    {
      if k != id {
        assert OwnsNewest(w, k, w.db.rows[k].owner.value);
      }
    }
  }

  lemma StartFiles(hash: Content -> Digest, w: World, v: World, p: Uuid, id: Uuid)
    requires FilesNumbered(w) && ArtifactsKept(hash, w) && CleanedStaysEmpty(w) && CleanersSound(w)
    requires Started(w, v, p, id) && RowInvariant(w.db.rows[id])
    requires DatabaseAdvances(w.db, v.db)
    ensures FilesNumbered(v) && ArtifactsKept(hash, v) && CleanedStaysEmpty(v) && CleanersSound(v)
  {
    forall k | k in v.db.rows && Downloadable(v.db.rows[k], v.clock)
      ensures ArtifactPresent(hash, v, k)
    {
      assert k != id && ArtifactPresent(hash, w, k);
    }
    forall k | k in v.db.rows && v.db.rows[k].erasureCleanedAt.Some? ensures NoFiles(v, k) {
      assert k != id && NoFiles(w, k);
    }
    forall q | q in v.procs && !v.procs[q].Exporter? ensures q in w.procs && v.procs[q] == w.procs[q] {}
  }

  lemma StartWriters(hash: Content -> Digest, w: World, v: World, p: Uuid, id: Uuid)
    requires WritersFenced(hash, w) && CompletersDone(w) && AttemptsClaimed(w) && Started(w, v, p, id)
    ensures WritersFenced(hash, v) && CompletersDone(v)
  {
    forall q | ExporterAt(v, q) && q != p ensures ExporterAt(w, q) && v.procs[q] == w.procs[q] {}
    forall q | ExporterAt(v, q) ensures HasFiles(hash, v, v.procs[q]) {
      assert q != p ==> HasFiles(hash, w, w.procs[q]);
    }
    forall q | ExporterAt(v, q) && v.procs[q].request in v.db.rows
               && v.db.rows[v.procs[q].request].state == Completed
               && v.procs[q].attempt == v.db.rows[v.procs[q].request].attempts
      ensures v.procs[q].stage == Closing
    {
      assert v.procs[q].request != id && q != p;
      assert w.procs[q].stage == Closing;
    }
  }

  lemma AcquireLockKeeps(hash: Content -> Digest, w: World, p: Uuid)
    requires Invariant(hash, w)
    ensures Keeps(hash, w, ApplyAcquireLock(w, p))
  {
    hide Invariant, DatabaseAdvances;
    AdvancesReflexive(w.db);
    if ExporterAt(w, p) && w.procs[p].stage == Starting {
      if w.procs[p].request in w.locks {
        StageKeeps(hash, w, p, Aborting(false, false));
      } else {
        LockedKeeps(hash, w, ApplyAcquireLock(w, p), p);
      }
    }
  }

  lemma LockedKeeps(hash: Content -> Digest, w: World, v: World, p: Uuid)
    requires Invariant(hash, w) && ExporterAt(w, p) && w.procs[p].stage == Starting
    requires w.procs[p].request !in w.locks && v == ApplyAcquireLock(w, p)
    ensures Invariant(hash, v)
  {
    hide AttemptsDistinct, AttemptsClaimed, OwnersNewest, FilesNumbered, ArtifactsKept, CleanedStaysEmpty,
         DatabaseInvariant, CleanersSound, LocksExclusive, WritersFenced, CompletersDone;
    WriterFacts(hash, w, p);
    LockStep(w, p, v.procs[p], v.locks, v);
    SameDistinct(w, v);
    SameOwners(w, v);
    SameRecords(hash, w, v);
    SameCleaners(w, v);
    LockedWriters(hash, w, v, p);
  }

  lemma LockedWriters(hash: Content -> Digest, w: World, v: World, p: Uuid)
    requires WritersFenced(hash, w) && CompletersDone(w) && ExporterAt(w, p)
    requires w.procs[p].stage == Starting && w.procs[p].request !in w.locks && v == ApplyAcquireLock(w, p)
    ensures WritersFenced(hash, v) && CompletersDone(v)
  {
    forall q | ExporterAt(v, q) ensures HasFiles(hash, v, v.procs[q]) {
      assert ExporterAt(w, q) && HasFiles(hash, w, w.procs[q]);
    }
  }

  lemma SameCleaners(w: World, v: World)
    requires CleanersSound(w)
    requires v.db.rows == w.db.rows && v.files == w.files && v.clock >= w.clock
    requires forall q | q in v.procs && !v.procs[q].Exporter? :: q in w.procs && v.procs[q] == w.procs[q]
    ensures CleanersSound(v)
  {
  }

  /** Every process is the exporter, with the request and attempt, that it was. */
  ghost predicate SameExporters(w: World, v: World) {
    && v.procs.Keys == w.procs.Keys
    && (forall q | q in v.procs ::
          && v.procs[q].Exporter? == w.procs[q].Exporter?
          && (v.procs[q].Exporter? ==>
                v.procs[q].request == w.procs[q].request && v.procs[q].attempt == w.procs[q].attempt))
  }

  lemma SameDistinct(w: World, v: World)
    requires AttemptsDistinct(w) && SameExporters(w, v)
    ensures AttemptsDistinct(v)
  {
    forall q, r | ExporterAt(v, q) && ExporterAt(v, r) && q != r
                  && v.procs[q].request == v.procs[r].request
      ensures v.procs[q].attempt != v.procs[r].attempt
    {
      assert ExporterAt(w, q) && ExporterAt(w, r);
    }
  }

  lemma SameOwners(w: World, v: World)
    requires AttemptsClaimed(w) && OwnersNewest(w) && FilesNumbered(w) && SameExporters(w, v)
    requires v.db.rows == w.db.rows && v.files == w.files
    ensures AttemptsClaimed(v) && OwnersNewest(v) && FilesNumbered(v)
  {
    forall id | id in v.db.rows && v.db.rows[id].owner.Some?
      ensures OwnsNewest(v, id, v.db.rows[id].owner.value)
    {
      assert OwnsNewest(w, id, w.db.rows[id].owner.value);
    }
    forall q | ExporterAt(v, q) ensures ExporterAt(w, q) {}
  }

  /** Rows, files and the clock as before: nothing about artifacts or cleaned requests changes. */
  lemma SameRecords(hash: Content -> Digest, w: World, v: World)
    requires ArtifactsKept(hash, w) && CleanedStaysEmpty(w)
    requires v.db.rows == w.db.rows && v.files == w.files && v.clock >= w.clock
    ensures ArtifactsKept(hash, v) && CleanedStaysEmpty(v)
  {
    forall id | id in v.db.rows && Downloadable(v.db.rows[id], v.clock)
      ensures ArtifactPresent(hash, v, id)
    {
      assert Downloadable(w.db.rows[id], w.clock) && ArtifactPresent(hash, w, id);
    }
    forall id | id in v.db.rows && v.db.rows[id].erasureCleanedAt.Some? ensures NoFiles(v, id) {
      assert NoFiles(w, id);
    }
  }

  /** A successful renewal found the row claimed, so no erasure has touched it. */
  lemma RenewedRow(db: Database, id: Uuid, p: Uuid, fence: nat, now: Time)
    requires DatabaseInvariant(db)
    requires var out := Renew(db, id, p, fence, now); out.Committed? && out.result.Some?
    ensures var after := Renew(db, id, p, fence, now).db;
            && DatabaseInvariant(after) && DatabaseAdvances(db, after) && QuietRows(db, after)
            && id in after.rows && after.rows[id].erasureCleanedAt.None?
  {
    RenewKeeps(db, id, p, fence, now);
    assert RowInvariant(db.rows[id]);
  }

  lemma RenewStepKeeps(hash: Content -> Digest, w: World, p: Uuid, now: Time, next: ExporterStage, lost: ExporterStage)
    requires Invariant(hash, w) && ExporterAt(w, p)
    requires w.procs[p].stage == Locked || w.procs[p].stage.Published?
    requires lost.Aborting?
    requires next == Locked || next == Verified
        || (w.procs[p].stage.Published? && next == Ready(w.procs[p].stage.digest))
    ensures Keeps(hash, w, ApplyRenew(w, p, now, next, lost))
  {
    hide Invariant, DatabaseAdvances, DatabaseInvariant, QuietRows;
    var e := w.procs[p];
    WriterFacts(hash, w, p);
    DatabaseSound(hash, w);
    match Renew(w.db, e.request, p, e.fence, now)
    case Committed(db, Some(fence)) =>
      RenewedRow(w.db, e.request, p, e.fence, now);
      QuietStep(hash, w, db);
      StageStep(hash, w.(db := db), p, e.(fence := fence, stage := next));
    case _ =>
      StageKeeps(hash, w, p, lost);
  }

  // --- producing the artifact ---

  lemma CheckKeeps(hash: Content -> Digest, w: World, p: Uuid)
    requires Invariant(hash, w)
    ensures Keeps(hash, w, ApplyCheckPaths(w, p))
  {
    hide Invariant, DatabaseAdvances;
    AdvancesReflexive(w.db);
    if ExporterAt(w, p) && w.procs[p].stage == Verified {
      WriterFacts(hash, w, p);
      StageKeeps(hash, w, p, ApplyCheckPaths(w, p).procs[p].stage);
    }
  }

  lemma CreateKeeps(hash: Content -> Digest, w: World, p: Uuid)
    requires Invariant(hash, w)
    ensures Keeps(hash, w, ApplyCreateTemporary(w, p))
  {
    hide Invariant, DatabaseAdvances;
    AdvancesReflexive(w.db);
    if ExporterAt(w, p) && w.procs[p].stage == Checked {
      var e := w.procs[p];
      WriterFacts(hash, w, p);
      if TemporaryName(e.request, e.attempt) in w.files {
        StageKeeps(hash, w, p, Aborting(false, true));
      } else {
        var v := ApplyCreateTemporary(w, p);
        MoveStep(hash, w, p, v.procs[p], v.files);
        assert v == Moved(w, p, v.procs[p], v.files);
      }
    }
  }

  lemma WriteKeeps(hash: Content -> Digest, w: World, p: Uuid, content: Content)
    requires Invariant(hash, w)
    ensures Keeps(hash, w, ApplyWriteTemporary(w, p, content))
  {
    hide Invariant, DatabaseAdvances;
    AdvancesReflexive(w.db);
    if ExporterAt(w, p) && w.procs[p].stage.Writing? {
      WriterFacts(hash, w, p);
      var v := ApplyWriteTemporary(w, p, content);
      MoveStep(hash, w, p, v.procs[p], v.files);
      assert v == Moved(w, p, v.procs[p], v.files);
    }
  }

  lemma HashKeeps(hash: Content -> Digest, w: World, p: Uuid)
    requires Invariant(hash, w)
    ensures Keeps(hash, w, ApplyHashTemporary(hash, w, p))
  {
    hide Invariant, DatabaseAdvances;
    AdvancesReflexive(w.db);
    if ExporterAt(w, p) && w.procs[p].stage.Writing? {
      WriterFacts(hash, w, p);
      StageKeeps(hash, w, p, ApplyHashTemporary(hash, w, p).procs[p].stage);
    }
  }

  lemma PublishKeeps(hash: Content -> Digest, w: World, p: Uuid)
    requires Invariant(hash, w)
    ensures Keeps(hash, w, ApplyPublish(w, p))
  {
    hide Invariant, DatabaseAdvances;
    AdvancesReflexive(w.db);
    if ExporterAt(w, p) && w.procs[p].stage.Hashed? {
      WriterFacts(hash, w, p);
      var v := ApplyPublish(w, p);
      MoveStep(hash, w, p, v.procs[p], v.files);
      assert v == Moved(w, p, v.procs[p], v.files);
    }
  }

  /** The completing compare-and-set succeeds for the newest attempt, and for no other. */
  lemma CompleterIsNewest(hash: Content -> Digest, w: World, p: Uuid, now: Time)
    requires Invariant(hash, w) && ExporterAt(w, p) && w.procs[p].stage.Ready?
    requires var e := w.procs[p]; Finalize(w.db, e.request, p, e.fence, e.stage.digest, now).Committed?
    requires var e := w.procs[p]; Finalize(w.db, e.request, p, e.fence, e.stage.digest, now).result
    ensures w.procs[p].request in w.db.rows
    ensures w.procs[p].attempt == w.db.rows[w.procs[p].request].attempts
    ensures forall q | ExporterAt(w, q) && q != p && w.procs[q].request == w.procs[p].request ::
              w.procs[q].attempt < w.procs[p].attempt
  {
    var e := w.procs[p];
    assert OwnsNewest(w, e.request, p);
    forall q | ExporterAt(w, q) && q != p && w.procs[q].request == e.request
      ensures w.procs[q].attempt < e.attempt
    {
      assert ExporterAt(w, q) && ExporterAt(w, p);
    }
  }

  lemma CompleteKeeps(hash: Content -> Digest, w: World, p: Uuid, now: Time)
    requires Invariant(hash, w) && Sha256Sized(hash)
    ensures Keeps(hash, w, ApplyComplete(w, p, now))
  {
    if ExporterAt(w, p) && w.procs[p].stage.Ready? {
      var e := w.procs[p];
      var out := Finalize(w.db, e.request, p, e.fence, e.stage.digest, now);
      if out.Committed? && out.result {
        CompletionAdvances(hash, w, p, now);
        CompletedKeeps(hash, w, ApplyComplete(w, p, now), p);
      } else {
        hide Invariant, DatabaseAdvances;
        StageKeeps(hash, w, p, Aborting(true, out.Raised?));
      }
    } else {
      AdvancesReflexive(w.db);
    }
  }

  lemma CompletionAdvances(hash: Content -> Digest, w: World, p: Uuid, now: Time)
    requires Invariant(hash, w) && Sha256Sized(hash) && ExporterAt(w, p) && w.procs[p].stage.Ready?
    requires var e := w.procs[p]; Finalize(w.db, e.request, p, e.fence, e.stage.digest, now).Committed?
    requires var e := w.procs[p]; Finalize(w.db, e.request, p, e.fence, e.stage.digest, now).result
    ensures var v := ApplyComplete(w, p, now);
            JustCompleted(w, v, p) && DatabaseInvariant(v.db) && DatabaseAdvances(w.db, v.db)
  {
    var e := w.procs[p];
    assert HasFiles(hash, w, e);
    FinalizeKeeps(w.db, e.request, p, e.fence, e.stage.digest, now);
    CompleterIsNewest(hash, w, p, now);
  }

  /** What a successful completion does to the world. */
  ghost predicate JustCompleted(w: World, v: World, p: Uuid) {
    && ExporterAt(w, p) && w.procs[p].stage.Ready?
    && var e := w.procs[p];
    && e.request in w.db.rows && e.request in v.db.rows
    && var row, after := w.db.rows[e.request], v.db.rows[e.request];
    && row.state == Claimed && e.attempt == row.attempts
    && v.db.rows == w.db.rows[e.request := after]
    && after.state == Completed && after.digest == Some(e.stage.digest) && after.owner.None?
    && after.attempts == row.attempts && after.expiresAt == row.expiresAt
    && after.erasureCleanedAt == row.erasureCleanedAt
    && after.erasureRequestedAt == row.erasureRequestedAt
    && v == w.(db := v.db, procs := w.procs[p := e.(stage := Closing)])
  }

  lemma CompletedKeeps(hash: Content -> Digest, w: World, v: World, p: Uuid)
    requires Invariant(hash, w) && JustCompleted(w, v, p) && DatabaseInvariant(v.db)
    ensures Invariant(hash, v)
  {
    LockStep(w, p, v.procs[p], v.locks, v);
    CompletedAttempts(w, v, p);
    CompletedWriters(hash, w, v, p);
    CompletedFiles(hash, w, v, p);
  }

  lemma CompletedAttempts(w: World, v: World, p: Uuid)
    requires AttemptsClaimed(w) && AttemptsDistinct(w) && OwnersNewest(w) && FilesNumbered(w)
    requires JustCompleted(w, v, p)
    ensures AttemptsClaimed(v) && AttemptsDistinct(v) && OwnersNewest(v) && FilesNumbered(v)
  {
    forall q | ExporterAt(v, q)
      ensures ExporterAt(w, q) && v.procs[q].request == w.procs[q].request
              && v.procs[q].attempt == w.procs[q].attempt
    {}
    forall q, r | ExporterAt(v, q) && ExporterAt(v, r) && q != r
                  && v.procs[q].request == v.procs[r].request
      ensures v.procs[q].attempt != v.procs[r].attempt
    {
      assert ExporterAt(w, q) && ExporterAt(w, r);
    }
    forall k | k in v.db.rows && v.db.rows[k].owner.Some?
      ensures OwnsNewest(v, k, v.db.rows[k].owner.value)
    {
      assert OwnsNewest(w, k, w.db.rows[k].owner.value);
    }
  }

  lemma CompletedWriters(hash: Content -> Digest, w: World, v: World, p: Uuid)
    requires WritersFenced(hash, w) && CompletersDone(w) && AttemptsDistinct(w) && JustCompleted(w, v, p)
    ensures WritersFenced(hash, v) && CompletersDone(v)
  {
    forall q | ExporterAt(v, q) ensures ExporterAt(w, q) && (q != p ==> v.procs[q] == w.procs[q]) {}
    forall q | ExporterAt(v, q) ensures HasFiles(hash, v, v.procs[q]) {
      assert HasFiles(hash, w, w.procs[q]);
    }
    forall q | ExporterAt(v, q) && v.procs[q].request in v.db.rows
               && v.db.rows[v.procs[q].request].state == Completed
               && v.procs[q].attempt == v.db.rows[v.procs[q].request].attempts
      ensures v.procs[q].stage == Closing
    {
      if q != p {
        assert ExporterAt(w, q) && ExporterAt(w, p);
      }
    }
  }

  lemma CompletedFiles(hash: Content -> Digest, w: World, v: World, p: Uuid)
    requires WritersFenced(hash, w) && ArtifactsKept(hash, w) && CleanedStaysEmpty(w) && CleanersSound(w)
    requires JustCompleted(w, v, p)
    ensures ArtifactsKept(hash, v) && CleanedStaysEmpty(v) && CleanersSound(v)
  {
    var e := w.procs[p];
    assert HasFiles(hash, w, e);
    forall k | k in v.db.rows && Downloadable(v.db.rows[k], v.clock)
      ensures ArtifactPresent(hash, v, k)
    {
      if k != e.request {
        assert ArtifactPresent(hash, w, k);
      }
    }
    forall k | k in v.db.rows && v.db.rows[k].erasureCleanedAt.Some? ensures NoFiles(v, k) {
      assert NoFiles(w, k);
    }
    forall q | q in v.procs && !v.procs[q].Exporter? ensures q in w.procs && v.procs[q] == w.procs[q] {}
  }

  // --- giving up ---

  lemma FaultKeeps(hash: Content -> Digest, w: World, p: Uuid, report: bool)
    requires Invariant(hash, w)
    ensures Keeps(hash, w, ApplyFault(w, p, report))
  {
    hide Invariant, DatabaseAdvances;
    AdvancesReflexive(w.db);
    var v := ApplyFault(w, p, report);
    if v != w {
      StageKeeps(hash, w, p, v.procs[p].stage);
    }
  }

  lemma InterruptKeeps(hash: Content -> Digest, w: World, p: Uuid)
    requires Invariant(hash, w)
    ensures Keeps(hash, w, ApplyInterrupt(w, p))
  {
    hide Invariant, DatabaseAdvances;
    AdvancesReflexive(w.db);
    if ApplyInterrupt(w, p) != w {
      StageKeeps(hash, w, p, Discarding(true));
    }
  }

  /** Unlinking an own file on the way out. */
  lemma UnlinkKeeps(hash: Content -> Digest, w: World, p: Uuid, name: FileName, next: ExporterStage)
    requires Invariant(hash, w) && ExporterAt(w, p) && OwnFile(w.procs[p], name)
    requires w.procs[p].stage != Closing && !Creating(next) && next != Starting && next != Locked
    ensures Keeps(hash, w, At(Unlink(w, name), p, next))
  {
    hide Invariant, DatabaseAdvances;
    AdvancesReflexive(w.db);
    var v := At(Unlink(w, name), p, next);
    MoveStep(hash, w, p, v.procs[p], v.files);
    assert v == Moved(w, p, v.procs[p], v.files);
  }

  lemma DiscardTemporaryKeeps(hash: Content -> Digest, w: World, p: Uuid)
    requires Invariant(hash, w)
    ensures Keeps(hash, w, ApplyDiscardTemporary(w, p))
  {
    hide Invariant, DatabaseAdvances;
    AdvancesReflexive(w.db);
    if ExporterAt(w, p) && w.procs[p].stage.Discarding? {
      var e := w.procs[p];
      UnlinkKeeps(hash, w, p, TemporaryName(e.request, e.attempt), DiscardingFinal(e.stage.report));
    }
  }

  lemma DiscardFinalKeeps(hash: Content -> Digest, w: World, p: Uuid)
    requires Invariant(hash, w)
    ensures Keeps(hash, w, ApplyDiscardFinal(w, p))
  {
    hide Invariant, DatabaseAdvances;
    AdvancesReflexive(w.db);
    if ExporterAt(w, p) && w.procs[p].stage.DiscardingFinal? {
      var e := w.procs[p];
      UnlinkKeeps(hash, w, p, FinalName(e.request, e.attempt), Aborting(false, e.stage.report));
    }
  }

  lemma UnlinkArtifactKeeps(hash: Content -> Digest, w: World, p: Uuid)
    requires Invariant(hash, w)
    ensures Keeps(hash, w, ApplyUnlinkArtifact(w, p))
  {
    hide Invariant, DatabaseAdvances;
    AdvancesReflexive(w.db);
    if ExporterAt(w, p) && w.procs[p].stage.Aborting? {
      var e := w.procs[p];
      if e.stage.artifact {
        UnlinkKeeps(hash, w, p, FinalName(e.request, e.attempt), Reporting(e.stage.report));
      } else {
        StageKeeps(hash, w, p, Reporting(e.stage.report));
      }
    }
  }

  lemma ReportedRow(db: Database, id: Uuid, p: Uuid, fence: nat, now: Time)
    requires DatabaseInvariant(db) && RecordFailure(db, id, p, fence, now).Committed?
    ensures var after := RecordFailure(db, id, p, fence, now).db;
            DatabaseInvariant(after) && DatabaseAdvances(db, after) && QuietRows(db, after)
  {
    RecordFailureKeeps(db, id, p, fence, now);
  }

  lemma ReportKeeps(hash: Content -> Digest, w: World, p: Uuid, now: Time)
    requires Invariant(hash, w)
    ensures Keeps(hash, w, ApplyReportFailure(w, p, now))
  {
    hide Invariant, DatabaseAdvances, DatabaseInvariant, QuietRows;
    AdvancesReflexive(w.db);
    if ExporterAt(w, p) && w.procs[p].stage.Reporting? {
      var e := w.procs[p];
      var out := RecordFailure(w.db, e.request, p, e.fence, now);
      if e.stage.report && out.Committed? {
        DatabaseSound(hash, w);
        ReportedRow(w.db, e.request, p, e.fence, now);
        QuietStep(hash, w, out.db);
        StageStep(hash, w.(db := out.db), p, e.(stage := Closing));
      } else {
        StageKeeps(hash, w, p, Closing);
      }
    }
  }

  lemma EndKeeps(hash: Content -> Digest, w: World, p: Uuid)
    requires Invariant(hash, w)
    ensures Keeps(hash, w, ApplyEnd(w, p))
  {
    hide DatabaseInvariant, AttemptsClaimed, AttemptsDistinct, OwnersNewest, FilesNumbered, WritersFenced,
      CompletersDone,
         ArtifactsKept, CleanedStaysEmpty, DatabaseAdvances;
    AdvancesReflexive(w.db);
    if p in w.procs {
      var v := ApplyEnd(w, p);
      LockStep(w, p, Ended, v.locks, v);
      assert v == Stepped(w, p, Ended, {}, v.locks);
      OtherStep(hash, w, p, Ended, {}, v.locks);
    }
  }
}
