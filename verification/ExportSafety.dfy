/**
 The joint invariant of the export protocol, and what it gives over whole runs.
 */
module ExportSafety {
  import opened Basics
  import opened ExportRows
  import opened ExportRowLaws
  import opened ExportProtocol

  // ---------------------------------------------------------------------------
  // The invariant, one concern at a time
  // ---------------------------------------------------------------------------

  /** A request lock has exactly one holder, and that process is alive. */
  ghost predicate LocksExclusive(w: World) {
    && (forall p | p in w.procs && Holds(w.procs[p]).Some? ::
          Holds(w.procs[p]).value in w.locks && w.locks[Holds(w.procs[p]).value] == p)
    && (forall r | r in w.locks :: w.locks[r] in w.procs && Holds(w.procs[w.locks[r]]) == Some(r))
  }

  /** An exporter works on an attempt that was claimed. */
  ghost predicate AttemptsClaimed(w: World) {
    forall p | ExporterAt(w, p) ::
      && w.procs[p].request in w.db.rows
      && 1 <= w.procs[p].attempt <= w.db.rows[w.procs[p].request].attempts
  }

  /** No two exporters of one request share an attempt number. */
  ghost predicate AttemptsDistinct(w: World) {
    forall p, q | ExporterAt(w, p) && ExporterAt(w, q) && p != q
                  && w.procs[p].request == w.procs[q].request ::
      w.procs[p].attempt != w.procs[q].attempt
  }

  predicate OwnsNewest(w: World, id: Uuid, p: Uuid)
    requires id in w.db.rows
  {
    && p in w.procs
    && (w.procs[p].Exporter? ==>
          w.procs[p].request == id && w.procs[p].attempt == w.db.rows[id].attempts)
  }

  /** A claim is owned by the exporter of the newest attempt. */
  ghost predicate OwnersNewest(w: World) {
    forall id | id in w.db.rows && w.db.rows[id].owner.Some? :: OwnsNewest(w, id, w.db.rows[id].owner.value)
  }

  /** A numbered file belongs to an attempt that was claimed. */
  ghost predicate FilesNumbered(w: World) {
    forall n | n in w.files && n.attempt.Some? ::
      n.request in w.db.rows && 1 <= n.attempt.value <= w.db.rows[n.request].attempts
  }

  predicate Creating(stage: ExporterStage) {
    stage.Verified? || stage.Checked? || stage.Writing? || stage.Hashed? || stage.Published? || stage.Ready?
  }

  /** What an exporter knows about its own files at each stage. */
  predicate HasFiles(hash: Content -> Digest, w: World, e: Process)
    requires e.Exporter?
  {
    match e.stage
    case Writing(content) =>
      var name := TemporaryName(e.request, e.attempt);
      name in w.files && w.files[name] == content
    case Hashed(digest) =>
      var name := TemporaryName(e.request, e.attempt);
      name in w.files && hash(w.files[name]) == digest
    case Published(digest) =>
      var name := FinalName(e.request, e.attempt);
      name in w.files && hash(w.files[name]) == digest
    case Ready(digest) =>
      var name := FinalName(e.request, e.attempt);
      name in w.files && hash(w.files[name]) == digest
    case _ => true
  }

  /** An exporter that may create files holds the lock of a request that was not cleaned. */
  ghost predicate WritersFenced(hash: Content -> Digest, w: World) {
    && (forall p | ExporterAt(w, p) && Creating(w.procs[p].stage) ::
          && w.procs[p].locked
          && w.procs[p].request in w.db.rows
          && w.db.rows[w.procs[p].request].erasureCleanedAt.None?)
    && (forall p | ExporterAt(w, p) && w.procs[p].stage == Starting :: !w.procs[p].locked)
    && (forall p | ExporterAt(w, p) && w.procs[p].stage == Locked :: w.procs[p].locked)
    && (forall p | ExporterAt(w, p) :: HasFiles(hash, w, w.procs[p]))
  }

  /** Once an attempt completed, its exporter has nothing left to unlink. */
  ghost predicate CompletersDone(w: World) {
    forall p | ExporterAt(w, p) && w.procs[p].request in w.db.rows
               && w.db.rows[w.procs[p].request].state == Completed
               && w.procs[p].attempt == w.db.rows[w.procs[p].request].attempts ::
      w.procs[p].stage == Closing
  }

  /** A row whose artifact readers may still fetch. */
  predicate Downloadable(row: ExportRow, clock: Time) {
    && row.state == Completed
    && row.erasureRequestedAt.None? && row.expiresAt > clock
  }

  predicate ArtifactPresent(hash: Content -> Digest, w: World, id: Uuid)
    requires id in w.db.rows
  {
    var name := FinalName(id, w.db.rows[id].attempts);
    name in w.files && Some(hash(w.files[name])) == w.db.rows[id].digest
  }

  ghost predicate ArtifactsKept(hash: Content -> Digest, w: World) {
    forall id | id in w.db.rows && Downloadable(w.db.rows[id], w.clock) :: ArtifactPresent(hash, w, id)
  }

  ghost predicate NoFiles(w: World, id: Uuid) {
    forall n | n in w.files :: n.request != id
  }

  ghost predicate CleanedStaysEmpty(w: World) {
    forall id | id in w.db.rows && w.db.rows[id].erasureCleanedAt.Some? :: NoFiles(w, id)
  }

  /** A cleaner works on a finished row, under the lock, and its list covers what is left. */
  ghost predicate CleanerSound(w: World, c: Process) {
    match c
    case ErasureCleaner(request, _, _, _, _, locked, phase) =>
      && request in w.db.rows
      && w.db.rows[request].erasureRequestedAt.Some?
      && (phase != Selected && phase != Finished ==> locked)
      && (phase == Selected ==> !locked)
      && (phase.Sweeping? ==>
            NamesOf(w, request) <= phase.todo && forall n | n in phase.todo :: n.request == request)
      && (phase == Swept ==> NoFiles(w, request))
    case ExpiredCleaner(request, attempt, _, _, now, _) =>
      && request in w.db.rows
      && w.db.rows[request].state == Completed
      && w.db.rows[request].attempts == attempt
      && w.db.rows[request].expiresAt <= now <= w.clock
    case TemporaryCleaner(name, _) => name.dotted && name.temporary
    case _ => true
  }

  ghost predicate CleanersSound(w: World) {
    forall p | p in w.procs :: CleanerSound(w, w.procs[p])
  }

  ghost predicate Invariant(hash: Content -> Digest, w: World) {
    && DatabaseInvariant(w.db)
    && LocksExclusive(w)
    && AttemptsClaimed(w)
    && AttemptsDistinct(w)
    && OwnersNewest(w)
    && FilesNumbered(w)
    && WritersFenced(hash, w)
    && CompletersDone(w)
    && ArtifactsKept(hash, w)
    && CleanedStaysEmpty(w)
    && CleanersSound(w)
  }

  /** Digests are 32 bytes, as SHA-256 produces. */
  ghost predicate Sha256Sized(hash: Content -> Digest) {
    forall content :: |hash(content)| == 32
  }

  lemma InitialHolds(hash: Content -> Digest, w: World)
    requires Initial(w)
    ensures Invariant(hash, w)
  {
  }

  // ---------------------------------------------------------------------------
  // Every step keeps the invariant
  // ---------------------------------------------------------------------------

  /** Rows that move without a new claim, completion or cleanup. */
  ghost predicate QuietRows(a: Database, b: Database) {
    && DatabaseAdvances(a, b)
    && (forall id | id in b.rows ::
          && (id !in a.rows ==> b.rows[id].owner.None? && b.rows[id].state == Requested
                                && b.rows[id].erasureCleanedAt.None?)
          && (id in a.rows ==> QuietRow(a.rows[id], b.rows[id])))
  }

  predicate QuietRow(a: ExportRow, b: ExportRow) {
    && (b.owner == a.owner || b.owner.None?)
    && b.attempts == a.attempts
    && (b.state == Completed ==> a.state == Completed)
    && b.erasureCleanedAt == a.erasureCleanedAt
  }

  lemma QuietStep(hash: Content -> Digest, w: World, db: Database)
    requires Invariant(hash, w) && DatabaseInvariant(db) && QuietRows(w.db, db)
    ensures Invariant(hash, w.(db := db))
  {
    QuietOwners(w, db);
    QuietWriters(hash, w, db);
    QuietCompleters(w, db);
    QuietArtifacts(hash, w, db);
    QuietCleaned(w, db);
    QuietCleaners(w, db);
  }

  lemma QuietOwners(w: World, db: Database)
    requires AttemptsClaimed(w) && AttemptsDistinct(w) && OwnersNewest(w) && FilesNumbered(w)
    requires QuietRows(w.db, db)
    ensures AttemptsClaimed(w.(db := db)) && AttemptsDistinct(w.(db := db))
    ensures OwnersNewest(w.(db := db)) && FilesNumbered(w.(db := db))
  {
    var v := w.(db := db);
    forall p, q | ExporterAt(v, p) && ExporterAt(v, q) && p != q
                  && v.procs[p].request == v.procs[q].request
      ensures v.procs[p].attempt != v.procs[q].attempt
    {
      assert ExporterAt(w, p) && ExporterAt(w, q);
    }
    forall id | id in v.db.rows && v.db.rows[id].owner.Some?
      ensures OwnsNewest(v, id, v.db.rows[id].owner.value)
    {
      assert QuietRow(w.db.rows[id], db.rows[id]);
      assert OwnsNewest(w, id, w.db.rows[id].owner.value);
    }
  }

  lemma QuietWriters(hash: Content -> Digest, w: World, db: Database)
    requires WritersFenced(hash, w) && QuietRows(w.db, db)
    ensures WritersFenced(hash, w.(db := db))
  {
    var v := w.(db := db);
    forall p | ExporterAt(v, p) ensures HasFiles(hash, v, v.procs[p]) {
      assert ExporterAt(w, p);
    }
  }

  lemma QuietCompleters(w: World, db: Database)
    requires AttemptsClaimed(w) && CompletersDone(w) && QuietRows(w.db, db)
    ensures CompletersDone(w.(db := db))
  {
  }

  lemma QuietArtifacts(hash: Content -> Digest, w: World, db: Database)
    requires ArtifactsKept(hash, w) && QuietRows(w.db, db)
    ensures ArtifactsKept(hash, w.(db := db))
  {
  }

  lemma QuietCleaned(w: World, db: Database)
    requires CleanedStaysEmpty(w) && QuietRows(w.db, db)
    ensures CleanedStaysEmpty(w.(db := db))
  {
  }

  lemma QuietCleaners(w: World, db: Database)
    requires CleanersSound(w) && QuietRows(w.db, db)
    ensures CleanersSound(w.(db := db))
  {
  }

  // --- an exporter moves between stages, touching at most its own two files ---

  predicate OwnFile(e: Process, n: FileName)
    requires e.Exporter?
  {
    n == TemporaryName(e.request, e.attempt) || n == FinalName(e.request, e.attempt)
  }

  function Moved(w: World, p: Uuid, e: Process, files: map<FileName, Content>): World {
    w.(files := files, procs := w.procs[p := e])
  }

  ghost predicate MoveAllowed(hash: Content -> Digest, w: World, p: Uuid, e: Process, files: map<FileName, Content>) {
    && ExporterAt(w, p) && e.Exporter?
    && var was := w.procs[p];
    && e.request == was.request && e.attempt == was.attempt && e.locked == was.locked
    && was.stage != Closing && e.stage != Starting && (e.stage == Locked ==> e.locked)
    && (Creating(e.stage) ==>
          e.locked && e.request in w.db.rows && w.db.rows[e.request].erasureCleanedAt.None?)
    && HasFiles(hash, Moved(w, p, e, files), e)
    && (forall n | !OwnFile(e, n) :: n in files <==> n in w.files)
    && (forall n | !OwnFile(e, n) && n in files :: files[n] == w.files[n])
    && (forall n | n in files && n !in w.files :: Creating(was.stage))
  }

  lemma MoveStep(hash: Content -> Digest, w: World, p: Uuid, e: Process, files: map<FileName, Content>)
    requires Invariant(hash, w) && MoveAllowed(hash, w, p, e, files)
    ensures Invariant(hash, Moved(w, p, e, files))
  {
    MoveLocks(hash, w, p, e, files);
    MoveAttempts(hash, w, p, e, files);
    MoveWriters(hash, w, p, e, files);
    MoveArtifacts(hash, w, p, e, files);
    MoveCleaned(hash, w, p, e, files);
  }

  /** The common case: the stage changes and no file does. */
  predicate StageAllowed(hash: Content -> Digest, w: World, p: Uuid, e: Process) {
    && ExporterAt(w, p) && e.Exporter?
    && var was := w.procs[p];
    && e.request == was.request && e.attempt == was.attempt && e.locked == was.locked
    && was.stage != Closing && e.stage != Starting && (e.stage == Locked ==> e.locked)
    && (Creating(e.stage) ==>
          e.locked && e.request in w.db.rows && w.db.rows[e.request].erasureCleanedAt.None?)
    && HasFiles(hash, w, e)
  }

  lemma StageStep(hash: Content -> Digest, w: World, p: Uuid, e: Process)
    requires Invariant(hash, w) && StageAllowed(hash, w, p, e)
    ensures Invariant(hash, w.(procs := w.procs[p := e]))
  {
    hide Invariant;
    assert Moved(w, p, e, w.files) == w.(procs := w.procs[p := e]);
    MoveStep(hash, w, p, e, w.files);
  }

  /** An exporter that is creating files holds its lock, and its request was not cleaned. */
  lemma WriterFacts(hash: Content -> Digest, w: World, p: Uuid)
    requires Invariant(hash, w) && ExporterAt(w, p)
    ensures HasFiles(hash, w, w.procs[p])
    ensures Creating(w.procs[p].stage) || w.procs[p].stage == Locked ==> w.procs[p].locked
    ensures Creating(w.procs[p].stage) ==>
              w.procs[p].request in w.db.rows && w.db.rows[w.procs[p].request].erasureCleanedAt.None?
    ensures w.procs[p].stage == Starting ==> !w.procs[p].locked
  {
  }

  lemma MoveLocks(hash: Content -> Digest, w: World, p: Uuid, e: Process, files: map<FileName, Content>)
    requires LocksExclusive(w) && MoveAllowed(hash, w, p, e, files)
    ensures LocksExclusive(Moved(w, p, e, files))
  {
    var v := Moved(w, p, e, files);
    assert Holds(e) == Holds(w.procs[p]);
    forall q | q in v.procs && Holds(v.procs[q]).Some?
      ensures Holds(v.procs[q]).value in v.locks && v.locks[Holds(v.procs[q]).value] == q
    {
      assert Holds(v.procs[q]) == Holds(w.procs[q]);
    }
  }

  lemma MoveAttempts(hash: Content -> Digest, w: World, p: Uuid, e: Process, files: map<FileName, Content>)
    requires AttemptsClaimed(w) && AttemptsDistinct(w) && OwnersNewest(w) && FilesNumbered(w)
    requires MoveAllowed(hash, w, p, e, files)
    ensures var v := Moved(w, p, e, files);
            AttemptsClaimed(v) && AttemptsDistinct(v) && OwnersNewest(v) && FilesNumbered(v)
  {
    var v := Moved(w, p, e, files);
    forall q | ExporterAt(v, q)
      ensures ExporterAt(w, q) && v.procs[q].request == w.procs[q].request
              && v.procs[q].attempt == w.procs[q].attempt
    {
    }
    forall q, r | ExporterAt(v, q) && ExporterAt(v, r) && q != r
                  && v.procs[q].request == v.procs[r].request
      ensures v.procs[q].attempt != v.procs[r].attempt
    {
      assert ExporterAt(w, q) && ExporterAt(w, r);
    }
    forall id | id in v.db.rows && v.db.rows[id].owner.Some?
      ensures OwnsNewest(v, id, v.db.rows[id].owner.value)
    {
      assert OwnsNewest(w, id, w.db.rows[id].owner.value);
    }
    forall n | n in v.files && n.attempt.Some?
      ensures n.request in v.db.rows && 1 <= n.attempt.value <= v.db.rows[n.request].attempts
    {
      if !OwnFile(e, n) {
        assert n in w.files;
      } else {
        assert ExporterAt(w, p);
      }
    }
  }

  lemma MoveWriters(hash: Content -> Digest, w: World, p: Uuid, e: Process, files: map<FileName, Content>)
    requires WritersFenced(hash, w) && CompletersDone(w) && AttemptsDistinct(w)
    requires MoveAllowed(hash, w, p, e, files)
    ensures WritersFenced(hash, Moved(w, p, e, files)) && CompletersDone(Moved(w, p, e, files))
  {
    var v := Moved(w, p, e, files);
    forall q | ExporterAt(v, q) ensures HasFiles(hash, v, v.procs[q]) {
      if q != p {
        assert ExporterAt(w, q) && ExporterAt(w, p) && HasFiles(hash, w, w.procs[q]);
        assert w.procs[q].request == e.request ==> w.procs[q].attempt != e.attempt;
        assert !OwnFile(e, TemporaryName(v.procs[q].request, v.procs[q].attempt));
        assert !OwnFile(e, FinalName(v.procs[q].request, v.procs[q].attempt));
      }
    }
    forall q | ExporterAt(v, q) && v.procs[q].request in v.db.rows
               && v.db.rows[v.procs[q].request].state == Completed
               && v.procs[q].attempt == v.db.rows[v.procs[q].request].attempts
      ensures v.procs[q].stage == Closing
    {
      assert ExporterAt(w, q);
      assert w.procs[q].stage == Closing;
    }
  }

  lemma MoveArtifacts(hash: Content -> Digest, w: World, p: Uuid, e: Process, files: map<FileName, Content>)
    requires ArtifactsKept(hash, w) && CompletersDone(w) && MoveAllowed(hash, w, p, e, files)
    ensures ArtifactsKept(hash, Moved(w, p, e, files))
  {
    var v := Moved(w, p, e, files);
    forall id | id in v.db.rows && Downloadable(v.db.rows[id], v.clock)
      ensures ArtifactPresent(hash, v, id)
    {
      assert ArtifactPresent(hash, w, id);
      assert ExporterAt(w, p);
      assert !OwnFile(e, FinalName(id, w.db.rows[id].attempts));
    }
  }

  lemma MoveCleaned(hash: Content -> Digest, w: World, p: Uuid, e: Process, files: map<FileName, Content>)
    requires CleanedStaysEmpty(w) && CleanersSound(w) && WritersFenced(hash, w) && LocksExclusive(w)
    requires MoveAllowed(hash, w, p, e, files)
    ensures CleanedStaysEmpty(Moved(w, p, e, files)) && CleanersSound(Moved(w, p, e, files))
  {
    var v := Moved(w, p, e, files);
    var was := w.procs[p];
    assert ExporterAt(w, p);
    assert Creating(was.stage) ==> Holds(was) == Some(e.request);
    forall id | id in v.db.rows && v.db.rows[id].erasureCleanedAt.Some? ensures NoFiles(v, id) {
      assert NoFiles(w, id) && ExporterAt(w, p);
    }
    forall q | q in v.procs && v.procs[q].ErasureCleaner?
      ensures (v.procs[q].phase.Sweeping? ==> NamesOf(v, v.procs[q].request) <= v.procs[q].phase.todo)
              && (v.procs[q].phase == Swept ==> NoFiles(v, v.procs[q].request))
    {
      var c := v.procs[q];
      if (c.phase.Sweeping? || c.phase == Swept) && c.request == e.request {
        assert Holds(c) == Some(e.request);
        assert !Creating(was.stage);
      }
      assert NamesOf(v, c.request) <= NamesOf(w, c.request) || c.request == e.request;
    }
  }

  // --- a process that is not an exporter moves, possibly unlinking and (un)locking ---

  function Stepped(w: World, p: Uuid, c: Process, gone: set<FileName>, locks: map<Uuid, Uuid>): World {
    w.(files := w.files - gone, locks := locks, procs := w.procs[p := c])
  }

  /** Unlinking `n` takes nothing an exporter is still writing and nothing a reader may fetch. */
  ghost predicate Removable(w: World, n: FileName) {
    && (forall q | ExporterAt(w, q) && Creating(w.procs[q].stage) :: !OwnFile(w.procs[q], n))
    && (forall id | id in w.db.rows && Downloadable(w.db.rows[id], w.clock) ::
          n != FinalName(id, w.db.rows[id].attempts))
  }

  lemma OtherStep(hash: Content -> Digest, w: World, p: Uuid, c: Process, gone: set<FileName>, locks: map<Uuid, Uuid>)
    requires Invariant(hash, w) && !c.Exporter?
    requires LocksExclusive(Stepped(w, p, c, gone, locks))
    requires CleanersSound(Stepped(w, p, c, gone, locks))
    requires forall n | n in gone :: Removable(w, n)
    ensures Invariant(hash, Stepped(w, p, c, gone, locks))
  {
    hide AttemptsClaimed, AttemptsDistinct, OwnersNewest, FilesNumbered, WritersFenced, CompletersDone, ArtifactsKept,
         CleanedStaysEmpty, CleanersSound, LocksExclusive, DatabaseInvariant;
    OtherAttempts(w, p, c, gone, locks);
    OtherWriters(hash, w, p, c, gone, locks);
    OtherFiles(hash, w, p, c, gone, locks);
  }

  lemma OtherWriters(
      hash: Content -> Digest, w: World, p: Uuid, c: Process, gone: set<FileName>, locks: map<Uuid, Uuid>)
    requires Invariant(hash, w) && !c.Exporter? && forall n | n in gone :: Removable(w, n)
    ensures var v := Stepped(w, p, c, gone, locks);
            WritersFenced(hash, v) && CompletersDone(v)
  {
    hide DatabaseInvariant, AttemptsClaimed, AttemptsDistinct, OwnersNewest, FilesNumbered, ArtifactsKept,
         CleanedStaysEmpty, CleanersSound, LocksExclusive;
    var v := Stepped(w, p, c, gone, locks);
    forall q | ExporterAt(v, q)
      ensures HasFiles(hash, v, v.procs[q]) && (Creating(v.procs[q].stage) ==> Creating(w.procs[q].stage))
    {
      assert ExporterAt(w, q) && HasFiles(hash, w, w.procs[q]);
    }
    forall q | ExporterAt(v, q) && v.procs[q].request in v.db.rows
               && v.db.rows[v.procs[q].request].state == Completed
               && v.procs[q].attempt == v.db.rows[v.procs[q].request].attempts
      ensures v.procs[q].stage == Closing
    {
      assert ExporterAt(w, q);
    }
    assert WritersFenced(hash, v) by {
      forall q | ExporterAt(v, q) ensures ExporterAt(w, q) && v.procs[q] == w.procs[q] {}
    }
  }

  lemma OtherFiles(hash: Content -> Digest, w: World, p: Uuid, c: Process, gone: set<FileName>, locks: map<Uuid, Uuid>)
    requires Invariant(hash, w) && !c.Exporter? && forall n | n in gone :: Removable(w, n)
    ensures var v := Stepped(w, p, c, gone, locks);
            ArtifactsKept(hash, v) && CleanedStaysEmpty(v)
  {
    hide DatabaseInvariant, AttemptsClaimed, AttemptsDistinct, OwnersNewest, FilesNumbered, WritersFenced,
         CompletersDone, CleanersSound, LocksExclusive;
    var v := Stepped(w, p, c, gone, locks);
    forall id | id in v.db.rows && Downloadable(v.db.rows[id], v.clock)
      ensures ArtifactPresent(hash, v, id)
    {
      assert ArtifactPresent(hash, w, id);
    }
    forall id | id in v.db.rows && v.db.rows[id].erasureCleanedAt.Some? ensures NoFiles(v, id) {
      assert NoFiles(w, id);
    }
  }

  lemma OtherAttempts(w: World, p: Uuid, c: Process, gone: set<FileName>, locks: map<Uuid, Uuid>)
    requires AttemptsClaimed(w) && AttemptsDistinct(w) && OwnersNewest(w) && FilesNumbered(w) && !c.Exporter?
    ensures var v := Stepped(w, p, c, gone, locks);
            AttemptsClaimed(v) && AttemptsDistinct(v) && OwnersNewest(v) && FilesNumbered(v)
  {
    var v := Stepped(w, p, c, gone, locks);
    forall q | ExporterAt(v, q) ensures ExporterAt(w, q) && v.procs[q] == w.procs[q] {}
    forall q, r | ExporterAt(v, q) && ExporterAt(v, r) && q != r
                  && v.procs[q].request == v.procs[r].request
      ensures v.procs[q].attempt != v.procs[r].attempt
    {
      assert ExporterAt(w, q) && ExporterAt(w, r);
    }
    forall id | id in v.db.rows && v.db.rows[id].owner.Some?
      ensures OwnsNewest(v, id, v.db.rows[id].owner.value)
    {
      assert OwnsNewest(w, id, w.db.rows[id].owner.value);
    }
  }

  // --- locks ---

  /** Keeping, taking a free lock, or letting go of the one held. */
  lemma LockStep(w: World, p: Uuid, c: Process, locks: map<Uuid, Uuid>, v: World)
    requires LocksExclusive(w) && v.locks == locks && v.procs == w.procs[p := c]
    requires var before := if p in w.procs then Holds(w.procs[p]) else None;
             || (Holds(c) == before && locks == w.locks)
             || (before.None? && Holds(c).Some? && Holds(c).value !in w.locks
                 && locks == w.locks[Holds(c).value := p])
             || (Holds(c).None? && before.Some? && locks == w.locks - {before.value})
    ensures LocksExclusive(v)
  {
    forall q | q in v.procs && Holds(v.procs[q]).Some?
      ensures Holds(v.procs[q]).value in v.locks && v.locks[Holds(v.procs[q]).value] == q
    {
      if q != p {
        assert v.procs[q] == w.procs[q] && q in w.procs && Holds(w.procs[q]).Some?;
      }
    }
    forall r | r in v.locks ensures v.locks[r] in v.procs && Holds(v.procs[v.locks[r]]) == Some(r) {
      if r in w.locks {
        assert w.locks[r] in w.procs && Holds(w.procs[w.locks[r]]) == Some(r);
      }
    }
  }
}
