/** The cleaners' steps keep the joint invariant, and the last of them empties the directory. */
module ExportCleanup {
  import opened Basics
  import opened ExportRows
  import opened ExportRowLaws
  import opened ExportProtocol
  import opened ExportSafety
  import opened ExportSteps

  /** A process that is no exporter changes itself only, and its new state is sound. */
  lemma CleanerMoves(hash: Content -> Digest, w: World, p: Uuid, c: Process, gone: set<FileName>,
                     locks: map<Uuid, Uuid>, v: World)
    requires Invariant(hash, w) && !c.Exporter? && v == Stepped(w, p, c, gone, locks)
    requires LocksExclusive(v)
    requires CleanerSound(v, c)
    requires forall n | n in gone :: Removable(w, n)
    ensures Keeps(hash, w, v)
  {
    hide LocksExclusive, Removable, DatabaseAdvances;
    AdvancesReflexive(w.db);
    assert CleanersSound(v) by {
      hide DatabaseInvariant, AttemptsClaimed, AttemptsDistinct, OwnersNewest, FilesNumbered, WritersFenced,
           CompletersDone, ArtifactsKept, CleanedStaysEmpty;
      forall q | q in v.procs ensures CleanerSound(v, v.procs[q]) {
        if q != p {
          assert CleanerSound(w, w.procs[q]);
          FewerFilesSound(w, v, w.procs[q]);
        }
      }
    }
    assert Invariant(hash, v) by {
      hide Invariant, CleanersSound;
      OtherStep(hash, w, p, c, gone, locks);
    }
  }

  lemma FewerFilesSound(w: World, v: World, c: Process)
    requires CleanerSound(w, c)
    requires v.db == w.db && v.clock == w.clock && v.files.Keys <= w.files.Keys
    ensures CleanerSound(v, c)
  {
  }

  /** The same, while keeping whatever lock it had. */
  lemma CleanerKeepsLock(hash: Content -> Digest, w: World, p: Uuid, c: Process, gone: set<FileName>, v: World)
    requires Invariant(hash, w) && !c.Exporter? && v == Stepped(w, p, c, gone, w.locks)
    requires Holds(c) == if p in w.procs then Holds(w.procs[p]) else None
    requires CleanerSound(v, c)
    requires forall n | n in gone :: Removable(w, n)
    ensures Keeps(hash, w, v)
  {
    hide CleanerSound, Removable;
    LocksSound(hash, w);
    LockStep(w, p, c, w.locks, v);
    hide Invariant;
    CleanerMoves(hash, w, p, c, gone, w.locks, v);
  }

  lemma LocksSound(hash: Content -> Digest, w: World)
    requires Invariant(hash, w)
    ensures LocksExclusive(w)
  {
  }

  lemma CleanerFacts(hash: Content -> Digest, w: World, p: Uuid)
    requires Invariant(hash, w) && p in w.procs
    ensures CleanerSound(w, w.procs[p])
  {
  }

  /** Under the request's lock only names a reader may fetch are out of bounds. */
  lemma RemovableUnderLock(hash: Content -> Digest, w: World, p: Uuid, n: FileName)
    requires Invariant(hash, w) && p in w.procs && !w.procs[p].Exporter?
    requires Holds(w.procs[p]) == Some(n.request)
    requires n.temporary || (n.request in w.db.rows && w.db.rows[n.request].erasureRequestedAt.Some?)
    ensures Removable(w, n)
  {
    forall q | ExporterAt(w, q) && Creating(w.procs[q].stage) ensures !OwnFile(w.procs[q], n) {
      assert Holds(w.procs[q]) == Some(w.procs[q].request);
    }
  }

  /** No exporter of a completed attempt writes any more, and nobody fetches an expired artifact. */
  lemma RemovableExpired(hash: Content -> Digest, w: World, p: Uuid)
    requires Invariant(hash, w) && p in w.procs && w.procs[p].ExpiredCleaner?
    ensures Removable(w, FinalName(w.procs[p].request, w.procs[p].attempt))
  {
    var c := w.procs[p];
    assert CleanerSound(w, c);
    forall q | ExporterAt(w, q) && Creating(w.procs[q].stage)
      ensures !OwnFile(w.procs[q], FinalName(c.request, c.attempt))
    {
    }
  }

  // --- expired artifacts ---

  lemma SelectExpiredKeeps(hash: Content -> Digest, w: World, p: Uuid, id: Uuid, now: Time)
    requires Invariant(hash, w) && now <= w.clock
    ensures Keeps(hash, w, ApplySelectExpired(w, p, id, now))
  {
    hide Invariant, DatabaseAdvances;
    AdvancesReflexive(w.db);
    var v := ApplySelectExpired(w, p, id, now);
    if v != w {
      assert v == Stepped(w, p, v.procs[p], {}, w.locks);
      CleanerKeepsLock(hash, w, p, v.procs[p], {}, v);
    }
  }

  lemma DeleteExpiredKeeps(hash: Content -> Digest, w: World, p: Uuid)
    requires Invariant(hash, w)
    ensures Keeps(hash, w, ApplyDeleteExpired(hash, w, p))
  {
    hide Invariant, DatabaseAdvances, Removable;
    AdvancesReflexive(w.db);
    if p in w.procs && w.procs[p].ExpiredCleaner? && !w.procs[p].deleted {
      var c := w.procs[p];
      var name := FinalName(c.request, c.attempt);
      var v := ApplyDeleteExpired(hash, w, p);
      CleanerFacts(hash, w, p);
      RemovableExpired(hash, w, p);
      var gone := if v.procs[p] == Ended then {} else {name};
      assert v == Stepped(w, p, v.procs[p], gone, w.locks);
      CleanerKeepsLock(hash, w, p, v.procs[p], gone, v);
    }
  }

  lemma MarkedRow(db: Database, id: Uuid, version: nat, digest: Digest, now: Time)
    requires DatabaseInvariant(db) && MarkArtifactDeleted(db, id, version, digest, now).Committed?
    ensures var after := MarkArtifactDeleted(db, id, version, digest, now).db;
            DatabaseInvariant(after) && DatabaseAdvances(db, after) && QuietRows(db, after)
  {
    MarkArtifactDeletedKeeps(db, id, version, digest, now);
  }

  lemma MarkExpiredKeeps(hash: Content -> Digest, w: World, p: Uuid)
    requires Invariant(hash, w)
    ensures Keeps(hash, w, ApplyMarkExpired(w, p))
  {
    hide Invariant, DatabaseAdvances, DatabaseInvariant, QuietRows;
    AdvancesReflexive(w.db);
    if p in w.procs && w.procs[p].ExpiredCleaner? && w.procs[p].deleted {
      var c := w.procs[p];
      var v := ApplyMarkExpired(w, p);
      var out := MarkArtifactDeleted(w.db, c.request, c.version, c.digest, c.now);
      var db := if out.Committed? then out.db else w.db;
      if out.Committed? {
        DatabaseSound(hash, w);
        MarkedRow(w.db, c.request, c.version, c.digest, c.now);
        QuietStep(hash, w, db);
      }
      assert v == Stepped(w.(db := db), p, Ended, {}, w.locks);
      CleanerKeepsLock(hash, w.(db := db), p, Ended, {}, v);
    }
  }

  // --- erased requests ---

  lemma SelectErasedKeeps(hash: Content -> Digest, w: World, p: Uuid, id: Uuid, now: Time)
    requires Invariant(hash, w)
    ensures Keeps(hash, w, ApplySelectErased(w, p, id, now))
  {
    hide Invariant, DatabaseAdvances;
    AdvancesReflexive(w.db);
    var v := ApplySelectErased(w, p, id, now);
    if v != w {
      assert v == Stepped(w, p, v.procs[p], {}, w.locks);
      CleanerKeepsLock(hash, w, p, v.procs[p], {}, v);
    }
  }

  lemma LockErasedKeeps(hash: Content -> Digest, w: World, p: Uuid)
    requires Invariant(hash, w)
    ensures Keeps(hash, w, ApplyLockErased(w, p))
  {
    hide Invariant, DatabaseAdvances, LocksExclusive;
    AdvancesReflexive(w.db);
    if EraserAt(w, p, Selected) {
      var v := ApplyLockErased(w, p);
      CleanerFacts(hash, w, p);
      LocksSound(hash, w);
      LockStep(w, p, v.procs[p], v.locks, v);
      assert v == Stepped(w, p, v.procs[p], {}, v.locks);
      CleanerMoves(hash, w, p, v.procs[p], {}, v.locks, v);
    }
  }

  lemma DeleteRegisteredKeeps(hash: Content -> Digest, w: World, p: Uuid)
    requires Invariant(hash, w)
    ensures Keeps(hash, w, ApplyDeleteRegistered(hash, w, p))
  {
    hide Invariant, DatabaseAdvances, Removable;
    AdvancesReflexive(w.db);
    if EraserAt(w, p, Guarded) {
      var v := ApplyDeleteRegistered(hash, w, p);
      var name := FinalName(w.procs[p].request, w.procs[p].attempt);
      var gone := if name in w.files && name !in v.files then {name} else {};
      CleanerFacts(hash, w, p);
      RemovableUnderLock(hash, w, p, name);
      assert v.files == w.files - gone;
      assert v == Stepped(w, p, v.procs[p], gone, w.locks);
      CleanerKeepsLock(hash, w, p, v.procs[p], gone, v);
    }
  }

  lemma ListErasedKeeps(hash: Content -> Digest, w: World, p: Uuid)
    requires Invariant(hash, w)
    ensures Keeps(hash, w, ApplyListErased(w, p))
  {
    hide Invariant, DatabaseAdvances;
    AdvancesReflexive(w.db);
    if EraserAt(w, p, Listing) {
      var v := ApplyListErased(w, p);
      CleanerFacts(hash, w, p);
      assert v == Stepped(w, p, v.procs[p], {}, w.locks);
      CleanerKeepsLock(hash, w, p, v.procs[p], {}, v);
    }
  }

  lemma UnlinkErasedKeeps(hash: Content -> Digest, w: World, p: Uuid, name: FileName)
    requires Invariant(hash, w)
    ensures Keeps(hash, w, ApplyUnlinkErased(w, p, name))
  {
    hide Invariant, DatabaseAdvances, Removable;
    AdvancesReflexive(w.db);
    if SweepingAt(w, p) && name in w.procs[p].phase.todo {
      var v := ApplyUnlinkErased(w, p, name);
      CleanerFacts(hash, w, p);
      RemovableUnderLock(hash, w, p, name);
      assert v == Stepped(w, p, v.procs[p], {name}, w.locks);
      CleanerKeepsLock(hash, w, p, v.procs[p], {name}, v);
    }
  }

  lemma FinishSweepKeeps(hash: Content -> Digest, w: World, p: Uuid)
    requires Invariant(hash, w)
    ensures Keeps(hash, w, ApplyFinishSweep(w, p))
  {
    hide Invariant, DatabaseAdvances;
    AdvancesReflexive(w.db);
    if SweepingAt(w, p) && w.procs[p].phase.todo == {} {
      var v := ApplyFinishSweep(w, p);
      CleanerFacts(hash, w, p);
      assert NoFiles(v, w.procs[p].request) by {
        forall n | n in v.files ensures n.request != w.procs[p].request {
          assert n !in NamesOf(w, w.procs[p].request);
        }
      }
      assert v == Stepped(w, p, v.procs[p], {}, w.locks);
      CleanerKeepsLock(hash, w, p, v.procs[p], {}, v);
    }
  }

  // --- stale temporary files ---

  lemma SelectTemporaryKeeps(hash: Content -> Digest, w: World, p: Uuid, name: FileName)
    requires Invariant(hash, w)
    ensures Keeps(hash, w, ApplySelectTemporary(w, p, name))
  {
    hide Invariant, DatabaseAdvances;
    AdvancesReflexive(w.db);
    var v := ApplySelectTemporary(w, p, name);
    if v != w {
      assert v == Stepped(w, p, v.procs[p], {}, w.locks);
      CleanerKeepsLock(hash, w, p, v.procs[p], {}, v);
    }
  }

  lemma LockTemporaryKeeps(hash: Content -> Digest, w: World, p: Uuid)
    requires Invariant(hash, w)
    ensures Keeps(hash, w, ApplyLockTemporary(w, p))
  {
    hide Invariant, DatabaseAdvances, LocksExclusive;
    AdvancesReflexive(w.db);
    if p in w.procs && w.procs[p].TemporaryCleaner? && !w.procs[p].locked {
      var v := ApplyLockTemporary(w, p);
      CleanerFacts(hash, w, p);
      LocksSound(hash, w);
      LockStep(w, p, v.procs[p], v.locks, v);
      assert v == Stepped(w, p, v.procs[p], {}, v.locks);
      CleanerMoves(hash, w, p, v.procs[p], {}, v.locks, v);
    }
  }

  lemma DeleteTemporaryKeeps(hash: Content -> Digest, w: World, p: Uuid)
    requires Invariant(hash, w)
    ensures Keeps(hash, w, ApplyDeleteTemporary(w, p))
  {
    hide Invariant, DatabaseAdvances, Removable;
    AdvancesReflexive(w.db);
    if p in w.procs && w.procs[p].TemporaryCleaner? && w.procs[p].locked {
      var v := ApplyDeleteTemporary(w, p);
      var name := w.procs[p].name;
      CleanerFacts(hash, w, p);
      RemovableUnderLock(hash, w, p, name);
      assert v == Stepped(w, p, w.procs[p], {name}, w.locks);
      CleanerKeepsLock(hash, w, p, w.procs[p], {name}, v);
    }
  }

  // --- the acknowledgement ---

  /** The acknowledgement lands only after the sweep, while the lock still shuts every writer out. */
  lemma AcknowledgeErasedKeeps(hash: Content -> Digest, w: World, p: Uuid, clock: Time)
    requires Invariant(hash, w)
    ensures Keeps(hash, w, ApplyAcknowledgeErased(w, p, clock))
  {
    hide Invariant, DatabaseAdvances;
    AdvancesReflexive(w.db);
    if EraserAt(w, p, Swept) {
      var c := w.procs[p];
      var out := MarkCleaned(w.db, c.request, c.version, c.now, clock);
      var v := ApplyAcknowledgeErased(w, p, clock);
      CleanerFacts(hash, w, p);
      if out.Committed? && out.result {
        CleanedWorld(hash, w, p, clock);
      } else {
        assert v == Stepped(w, p, v.procs[p], {}, w.locks);
        CleanerKeepsLock(hash, w, p, v.procs[p], {}, v);
      }
    }
  }

  /** What an acknowledged cleanup does to the table. */
  ghost predicate Acknowledged(a: Database, b: Database, id: Uuid) {
    && id in a.rows && id in b.rows && b.rows == a.rows[id := b.rows[id]]
    && b.rows[id] == a.rows[id].(erasureCleanedAt := b.rows[id].erasureCleanedAt,
                                 artifactDeletedAt := b.rows[id].artifactDeletedAt,
                                 version := b.rows[id].version)
    && b.rows[id].erasureRequestedAt.Some? && !Active?(b.rows[id].state)
    && DatabaseInvariant(b) && DatabaseAdvances(a, b)
  }

  lemma MarkCleanedRow(db: Database, id: Uuid, version: nat, now: Time, clock: Time)
    requires DatabaseInvariant(db)
    requires MarkCleaned(db, id, version, now, clock).Committed? && MarkCleaned(db, id, version, now, clock).result
    ensures Acknowledged(db, MarkCleaned(db, id, version, now, clock).db, id)
  {
    MarkCleanedKeeps(db, id, version, now, clock);
  }

  lemma CleanedWorld(hash: Content -> Digest, w: World, p: Uuid, clock: Time)
    requires Invariant(hash, w) && EraserAt(w, p, Swept)
    requires var c := w.procs[p]; MarkCleaned(w.db, c.request, c.version, c.now, clock).Committed?
    requires var c := w.procs[p]; MarkCleaned(w.db, c.request, c.version, c.now, clock).result
    ensures Keeps(hash, w, ApplyAcknowledgeErased(w, p, clock))
  {
    hide Invariant, DatabaseInvariant, DatabaseAdvances;
    var c := w.procs[p];
    var v := ApplyAcknowledgeErased(w, p, clock);
    var u := w.(procs := v.procs);
    CleanerFacts(hash, w, p);
    assert u == Stepped(w, p, v.procs[p], {}, w.locks);
    assert CleanerSound(u, v.procs[p]);
    CleanerKeepsLock(hash, w, p, v.procs[p], {}, u);
    DatabaseSound(hash, w);
    MarkCleanedRow(w.db, c.request, c.version, c.now, clock);
    assert NoFiles(u, c.request);
    assert forall q | ExporterAt(u, q) && Creating(u.procs[q].stage) :: u.procs[q].request != c.request by {
      ExclusiveWriters(hash, w, p);
    }
    AcknowledgedKeeps(hash, u, v.db, c.request);
    assert v == u.(db := v.db);
  }

  /** While a cleaner holds a request's lock, no exporter of that request can create files. */
  lemma ExclusiveWriters(hash: Content -> Digest, w: World, p: Uuid)
    requires Invariant(hash, w) && p in w.procs && w.procs[p].ErasureCleaner? && w.procs[p].locked
    ensures forall q | ExporterAt(w, q) && Creating(w.procs[q].stage) :: w.procs[q].request != w.procs[p].request
  {
    forall q | ExporterAt(w, q) && Creating(w.procs[q].stage) ensures w.procs[q].request != w.procs[p].request {
      assert Holds(w.procs[q]) == Some(w.procs[q].request);
    }
  }

  lemma AcknowledgedKeeps(hash: Content -> Digest, w: World, db: Database, id: Uuid)
    requires Invariant(hash, w) && Acknowledged(w.db, db, id) && NoFiles(w, id)
    requires forall q | ExporterAt(w, q) && Creating(w.procs[q].stage) :: w.procs[q].request != id
    ensures Invariant(hash, w.(db := db))
  {
    var v := w.(db := db);
    hide DatabaseInvariant, DatabaseAdvances, AttemptsDistinct, LocksExclusive, FilesNumbered;
    AcknowledgedRows(w, db, id);
    AcknowledgedFiles(hash, w, db, id);
    assert WritersFenced(hash, v) by {
      hide AttemptsClaimed, OwnersNewest, CleanersSound, ArtifactsKept, CleanedStaysEmpty, CompletersDone;
      forall q | ExporterAt(v, q) ensures HasFiles(hash, v, v.procs[q]) {
        assert ExporterAt(w, q) && HasFiles(hash, w, w.procs[q]);
      }
    }
  }

  lemma AcknowledgedRows(w: World, db: Database, id: Uuid)
    requires AttemptsClaimed(w) && AttemptsDistinct(w) && OwnersNewest(w) && FilesNumbered(w) && LocksExclusive(w)
    requires CompletersDone(w) && Acknowledged(w.db, db, id)
    ensures var v := w.(db := db);
            && AttemptsClaimed(v) && AttemptsDistinct(v) && OwnersNewest(v) && FilesNumbered(v)
            && LocksExclusive(v) && CompletersDone(v)
  {
    hide DatabaseInvariant, DatabaseAdvances;
    var v := w.(db := db);
    forall p, q | ExporterAt(v, p) && ExporterAt(v, q) && p != q
                  && v.procs[p].request == v.procs[q].request
      ensures v.procs[p].attempt != v.procs[q].attempt
    {
      assert ExporterAt(w, p) && ExporterAt(w, q);
    }
    forall k | k in v.db.rows && v.db.rows[k].owner.Some?
      ensures OwnsNewest(v, k, v.db.rows[k].owner.value)
    {
      assert OwnsNewest(w, k, w.db.rows[k].owner.value);
    }
  }

  lemma AcknowledgedFiles(hash: Content -> Digest, w: World, db: Database, id: Uuid)
    requires ArtifactsKept(hash, w) && CleanedStaysEmpty(w) && CleanersSound(w)
    requires Acknowledged(w.db, db, id) && NoFiles(w, id)
    ensures var v := w.(db := db); ArtifactsKept(hash, v) && CleanedStaysEmpty(v) && CleanersSound(v)
  {
    hide DatabaseInvariant, DatabaseAdvances;
    var v := w.(db := db);
    forall k | k in v.db.rows && Downloadable(v.db.rows[k], v.clock)
      ensures ArtifactPresent(hash, v, k)
    {
      assert k != id && ArtifactPresent(hash, w, k);
    }
    forall k | k in v.db.rows && v.db.rows[k].erasureCleanedAt.Some? ensures NoFiles(v, k) {
      if k != id { assert NoFiles(w, k); }
    }
    forall q | q in v.procs ensures CleanerSound(v, v.procs[q]) {
      assert CleanerSound(w, w.procs[q]);
    }
  }
}
