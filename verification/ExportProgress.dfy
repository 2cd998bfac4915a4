/**
 What the export protocol gets done: from any reachable state, a process that nobody disturbs
 completes a due export, deletes an expired artifact, empties an erased request, records its
 failure, and gives its lock back when it ends.
 */
module ExportProgress {
  import opened Basics
  import opened ExportRows
  import opened ExportRowLaws
  import opened ExportProtocol
  import opened ExportSafety
  import opened ExportSteps
  import opened ExportCleanup
  import opened ExportRuns
  import opened ExportTidy

  type Hash = Content -> Digest

  lemma ExecuteNext(hash: Hash, w: World, first: Step, rest: seq<Step>)
    ensures Execute(hash, w, [first] + rest) == Execute(hash, Apply(hash, w, first), rest)
  {
    hide Apply;
    assert ([first] + rest)[1..] == rest;
  }

  lemma ExecuteNone(hash: Hash, w: World)
    ensures Execute(hash, w, []) == w
  {
  }

  lemma {:induction false} ExecuteBoth(hash: Hash, w: World, a: seq<Step>, b: seq<Step>)
    ensures Execute(hash, w, a + b) == Execute(hash, Execute(hash, w, a), b)
    decreases |a|
  {
    hide Apply;
    if a == [] {
      assert a + b == b;
    } else {
      assert (a + b)[1..] == a[1..] + b;
      ExecuteBoth(hash, Apply(hash, w, a[0]), a[1..], b);
    }
  }

  // ---------------------------------------------------------------------------
  // An export that nobody disturbs
  // ---------------------------------------------------------------------------

  /** The world with request `id` claimed by exporter `p`, who holds its lock and stands at `stage`. */
  function Working(w: World, p: Uuid, id: Uuid, row: ExportRow, stage: ExporterStage,
                   files: map<FileName, Content>, clock: Time): World
  {
    World(w.db.(rows := w.db.rows[id := row]), files, w.locks[id := p],
          w.procs[p := Exporter(id, row.attempts, row.version, true, stage)], clock)
  }

  function RowClaimed(row: ExportRow, p: Uuid, now: Time): ExportRow {
    row.(state := Claimed, owner := Some(p), leaseExpiresAt := Some(now + 1_800_000_000),
         attempts := row.attempts + 1, version := row.version + 1)
  }

  function RowRenewed(row: ExportRow, now: Time): ExportRow {
    row.(leaseExpiresAt := Some(now + 1_800_000_000), version := row.version + 1)
  }

  function RowCompleted(row: ExportRow, digest: Digest, now: Time): ExportRow {
    row.(state := Completed, completedAt := Some(now), digest := Some(digest), owner := None,
         leaseExpiresAt := None, version := row.version + 1)
  }

  /** Open for this row: the account exists and is not being deleted, and no erasure reaches the row. */
  ghost predicate ScopeOpen(db: Database, row: ExportRow) {
    && row.account in db.accounts && db.accounts[row.account] != Deleting
    && forall e | e in db.erasures :: !InScope(e, row)
  }

  lemma OpenIsNotBlocked(db: Database, row: ExportRow, other: ExportRow)
    requires ScopeOpen(db, row) && other.account == row.account && other.contact == row.contact
    ensures !ScopeBlocked(db, other)
  {
    hide ScopeBlocked;
    BlockedIsInScope(db, other);
    forall e | e in db.erasures ensures !InScope(e, other) {
      assert InScope(e, other) ==> InScope(e, row);
    }
  }

  lemma StartsAndLocks(hash: Hash, w: World, p: Uuid, id: Uuid, now: Time)
    requires Invariant(hash, w) && p !in w.procs && id !in w.locks && now <= w.clock
    requires ClaimFree(w.db, id, now) && ScopeOpen(w.db, w.db.rows[id])
    ensures var v := Apply(hash, Apply(hash, w, StartExport(p, id, now)), AcquireLock(p));
            v == Working(w, p, id, RowClaimed(w.db.rows[id], p, now), Locked, w.files, w.clock)
  {
    hide Invariant, DatabaseInvariant, Claim, ScopeBlocked;
    DatabaseSound(hash, w);
    ClaimSucceedsExactly(w.db, id, p, now);
    OpenIsNotBlocked(w.db, w.db.rows[id], w.db.rows[id]);
    var row := RowClaimed(w.db.rows[id], p, now);
    var u := Apply(hash, w, StartExport(p, id, now));
    assert u == w.(db := w.db.(rows := w.db.rows[id := row]),
                   procs := w.procs[p := Exporter(id, row.attempts, row.version, false, Starting)]);
    assert u.procs[p := Exporter(id, row.attempts, row.version, true, Locked)]
        == w.procs[p := Exporter(id, row.attempts, row.version, true, Locked)];
  }

  lemma RenewsUndisturbed(hash: Hash, w: World, p: Uuid, id: Uuid, row: ExportRow, stage: ExporterStage,
                          files: map<FileName, Content>, clock: Time, now: Time, next: ExporterStage,
                          lost: ExporterStage)
    requires Invariant(hash, Working(w, p, id, row, stage, files, clock)) && ScopeOpen(w.db, row)
    requires ClaimHeld(w.db.(rows := w.db.rows[id := row]), id, p, row.version, now)
    ensures ApplyRenew(Working(w, p, id, row, stage, files, clock), p, now, next, lost)
            == Working(w, p, id, RowRenewed(row, now), next, files, clock)
  {
    hide Invariant, DatabaseInvariant, Renew, ScopeBlocked, ScopeOpen;
    var v := Working(w, p, id, row, stage, files, clock);
    DatabaseSound(hash, v);
    RenewSucceedsExactly(v.db, id, p, row.version, now);
    OpenElsewhere(w.db, v.db, row);
    OpenIsNotBlocked(v.db, row, row);
    var row' := RowRenewed(row, now);
    assert v.db.rows[id := row'] == w.db.rows[id := row'];
    assert v.procs[p := Exporter(id, row.attempts, row'.version, true, next)]
        == w.procs[p := Exporter(id, row.attempts, row'.version, true, next)];
  }

  lemma OpenElsewhere(a: Database, b: Database, row: ExportRow)
    requires ScopeOpen(a, row) && b.accounts == a.accounts && b.erasures == a.erasures
    ensures ScopeOpen(b, row)
  {
  }

  lemma WorkingMoves(w: World, p: Uuid, id: Uuid, row: ExportRow, stage: ExporterStage,
                     files: map<FileName, Content>, clock: Time, next: ExporterStage, files': map<FileName, Content>)
    ensures var v := Working(w, p, id, row, stage, files, clock);
            && ExporterAt(v, p) && v.procs[p] == Exporter(id, row.attempts, row.version, true, stage)
            && At(v.(files := files'), p, next) == Working(w, p, id, row, next, files', clock)
  {
    assert w.procs[p := Exporter(id, row.attempts, row.version, true, stage)]
                  [p := Exporter(id, row.attempts, row.version, true, next)]
        == w.procs[p := Exporter(id, row.attempts, row.version, true, next)];
  }

  lemma ChecksAndCreates(hash: Hash, w: World, p: Uuid, id: Uuid, row: ExportRow, files: map<FileName, Content>,
                         clock: Time)
    requires TemporaryName(id, row.attempts) !in files && FinalName(id, row.attempts) !in files
    ensures Apply(hash, Working(w, p, id, row, Verified, files, clock), CheckPaths(p))
            == Working(w, p, id, row, Checked, files, clock)
    ensures Apply(hash, Working(w, p, id, row, Checked, files, clock), CreateTemporary(p))
            == Working(w, p, id, row, Writing([]), files[TemporaryName(id, row.attempts) := []], clock)
  {
    hide Working, At;
    WorkingMoves(w, p, id, row, Verified, files, clock, Checked, files);
    WorkingMoves(w, p, id, row, Checked, files, clock, Writing([]), files[TemporaryName(id, row.attempts) := []]);
    WorkingHas(w, p, id, row, Verified, files, clock);
    WorkingHas(w, p, id, row, Checked, files, clock);
  }

  lemma WorkingHas(w: World, p: Uuid, id: Uuid, row: ExportRow, stage: ExporterStage,
                   files: map<FileName, Content>, clock: Time)
    ensures var v := Working(w, p, id, row, stage, files, clock);
            v.files == files && v.clock == clock && v.(files := files) == v
  {
  }

  lemma WritesAndHashes(hash: Hash, w: World, p: Uuid, id: Uuid, row: ExportRow, files: map<FileName, Content>,
                        clock: Time, content: Content)
    ensures var temporary := TemporaryName(id, row.attempts);
            && Apply(hash, Working(w, p, id, row, Writing([]), files[temporary := []], clock),
                     WriteTemporary(p, content))
               == Working(w, p, id, row, Writing(content), files[temporary := content], clock)
            && Apply(hash, Working(w, p, id, row, Writing(content), files[temporary := content], clock),
                     HashTemporary(p))
               == Working(w, p, id, row, Hashed(hash(content)), files[temporary := content], clock)
  {
    hide Working, At;
    var temporary := TemporaryName(id, row.attempts);
    var before, after := files[temporary := []], files[temporary := content];
    assert before[temporary := content] == after;
    WorkingMoves(w, p, id, row, Writing([]), before, clock, Writing(content), after);
    WorkingMoves(w, p, id, row, Writing(content), after, clock, Hashed(hash(content)), after);
    WorkingHas(w, p, id, row, Writing([]), before, clock);
    WorkingHas(w, p, id, row, Writing(content), after, clock);
  }

  lemma PublishesAndWaits(hash: Hash, w: World, p: Uuid, id: Uuid, row: ExportRow, files: map<FileName, Content>,
                          clock: Time, content: Content, wait: nat)
    requires TemporaryName(id, row.attempts) !in files && FinalName(id, row.attempts) !in files
    ensures var temporary, final := TemporaryName(id, row.attempts), FinalName(id, row.attempts);
            && Apply(hash, Working(w, p, id, row, Hashed(hash(content)), files[temporary := content], clock),
                     Publish(p))
               == Working(w, p, id, row, Published(hash(content)), files[final := content], clock)
            && Apply(hash, Working(w, p, id, row, Published(hash(content)), files[final := content], clock), Tick(wait))
               == Working(w, p, id, row, Published(hash(content)), files[final := content], clock + wait)
  {
    hide At;
    var temporary, final := TemporaryName(id, row.attempts), FinalName(id, row.attempts);
    var before, after := files[temporary := content], files[final := content];
    assert (before - {temporary})[final := content] == after;
    WorkingMoves(w, p, id, row, Hashed(hash(content)), before, clock, Published(hash(content)), after);
    WorkingHas(w, p, id, row, Hashed(hash(content)), before, clock);
  }

  /** From the fence under the lock to the published artifact. */
  lemma ProducesUndisturbed(hash: Hash, w: World, p: Uuid, id: Uuid, row: ExportRow, files: map<FileName, Content>,
                            clock: Time, content: Content, wait: nat)
    requires TemporaryName(id, row.attempts) !in files && FinalName(id, row.attempts) !in files
    ensures Execute(hash, Working(w, p, id, row, Verified, files, clock),
                    [CheckPaths(p), CreateTemporary(p), WriteTemporary(p, content), HashTemporary(p), Publish(p),
                     Tick(wait)])
            == Working(w, p, id, row, Published(hash(content)), files[FinalName(id, row.attempts) := content],
                       clock + wait)
  {
    hide Apply, Working, Execute;
    ChecksAndCreates(hash, w, p, id, row, files, clock);
    WritesAndHashes(hash, w, p, id, row, files, clock, content);
    PublishesAndWaits(hash, w, p, id, row, files, clock, content, wait);
    SixSteps(hash, Working(w, p, id, row, Verified, files, clock), CheckPaths(p), CreateTemporary(p),
             WriteTemporary(p, content), HashTemporary(p), Publish(p), Tick(wait));
  }

  lemma ThreeSteps(hash: Hash, w: World, a: Step, b: Step, c: Step)
    ensures Execute(hash, w, [a, b, c]) == Apply(hash, Apply(hash, Apply(hash, w, a), b), c)
  {
    hide Apply, Execute;
    var w1 := Apply(hash, w, a);
    var w2 := Apply(hash, w1, b);
    ExecuteNext(hash, w, a, [b, c]);
    ExecuteNext(hash, w1, b, [c]);
    ExecuteNext(hash, w2, c, []);
    ExecuteNone(hash, Apply(hash, w2, c));
    assert [a] + [b, c] == [a, b, c] && [b] + [c] == [b, c] && [c] + [] == [c];
  }

  lemma SixSteps(hash: Hash, w: World, a: Step, b: Step, c: Step, d: Step, e: Step, f: Step)
    ensures Execute(hash, w, [a, b, c, d, e, f])
            == Apply(hash, Apply(hash, Apply(hash, Apply(hash, Apply(hash, Apply(hash, w, a), b), c), d), e), f)
  {
    hide Apply, Execute;
    ThreeSteps(hash, w, a, b, c);
    ThreeSteps(hash, Execute(hash, w, [a, b, c]), d, e, f);
    ExecuteBoth(hash, w, [a, b, c], [d, e, f]);
    assert [a, b, c] + [d, e, f] == [a, b, c, d, e, f];
  }

  lemma CompletesUndisturbed(hash: Hash, w: World, p: Uuid, id: Uuid, row: ExportRow, digest: Digest,
                             files: map<FileName, Content>, clock: Time, now: Time)
    requires Invariant(hash, Working(w, p, id, row, Ready(digest), files, clock)) && ScopeOpen(w.db, row)
    requires ClaimHeld(w.db.(rows := w.db.rows[id := row]), id, p, row.version, now) && now <= clock
    ensures var v := Working(w, p, id, row, Ready(digest), files, clock);
            var done := RowCompleted(row, digest, now);
            Apply(hash, v, Complete(p, now))
            == v.(db := w.db.(rows := w.db.rows[id := done]),
                  procs := w.procs[p := Exporter(id, row.attempts, row.version, true, Closing)])
  {
    hide Invariant, DatabaseInvariant, Finalize, ScopeBlocked, ScopeOpen;
    var v := Working(w, p, id, row, Ready(digest), files, clock);
    DatabaseSound(hash, v);
    CompletionSucceedsExactly(v.db, id, p, row.version, digest, now);
    OpenElsewhere(w.db, v.db, row);
    OpenIsNotBlocked(v.db, row, row);
    var done := RowCompleted(row, digest, now);
    assert v.db.rows[id := done] == w.db.rows[id := done];
    assert v.procs[p := Exporter(id, row.attempts, row.version, true, Closing)]
        == w.procs[p := Exporter(id, row.attempts, row.version, true, Closing)];
  }

  /** The steps of one export, at the clock readings of its claim, two fences and completion. */
  function StepsOfExport(p: Uuid, id: Uuid, content: Content, claimed: Time, verified: Time, wait: nat, fenced: Time,
                        completed: Time): seq<Step>
  {
    [StartExport(p, id, claimed), AcquireLock(p), VerifyFence(p, verified)]
    + [CheckPaths(p), CreateTemporary(p), WriteTemporary(p, content), HashTemporary(p), Publish(p), Tick(wait)]
    + [RenewFence(p, fenced), Complete(p, completed)]
  }

  lemma OwnNamesAreFree(hash: Hash, w: World, id: Uuid)
    requires Invariant(hash, w) && id in w.db.rows
    ensures TemporaryName(id, w.db.rows[id].attempts + 1) !in w.files
    ensures FinalName(id, w.db.rows[id].attempts + 1) !in w.files
  {
    assert FilesNumbered(w);
  }

  lemma KeepsInvariant(hash: Hash, w: World, steps: seq<Step>)
    requires Sha256Sized(hash) && Invariant(hash, w)
    ensures Invariant(hash, Execute(hash, w, steps))
  {
    RunKeeps(hash, w, steps);
  }

  /** The claim, the lock and the first fence. */
  lemma ClaimsAndVerifies(hash: Hash, w: World, p: Uuid, id: Uuid, claimed: Time, verified: Time)
    requires Sha256Sized(hash) && Invariant(hash, w) && p !in w.procs && id !in w.locks
    requires ClaimFree(w.db, id, claimed) && ScopeOpen(w.db, w.db.rows[id])
    requires claimed <= w.clock && verified <= w.clock && verified < claimed + 1_800_000_000
    requires verified < w.db.rows[id].expiresAt
    ensures var row := RowRenewed(RowClaimed(w.db.rows[id], p, claimed), verified);
            Execute(hash, w, [StartExport(p, id, claimed), AcquireLock(p), VerifyFence(p, verified)])
            == Working(w, p, id, row, Verified, w.files, w.clock)
  {
    hide Execute, Apply, Invariant, ScopeOpen, Sha256Sized, Working;
    var row := RowClaimed(w.db.rows[id], p, claimed);
    SameScope(w.db, w.db.rows[id], row);
    StartsAndLocks(hash, w, p, id, claimed);
    TwoKeep(hash, w, StartExport(p, id, claimed), AcquireLock(p));
    FenceVerifies(hash, w, p, id, row, verified);
    ThreeSteps(hash, w, StartExport(p, id, claimed), AcquireLock(p), VerifyFence(p, verified));
  }

  /** The second fence and the completion. */
  lemma FencesAndCompletes(hash: Hash, w: World, p: Uuid, id: Uuid, row: ExportRow, digest: Digest,
                           files: map<FileName, Content>, clock: Time, fenced: Time, completed: Time)
    requires Sha256Sized(hash) && Invariant(hash, Working(w, p, id, row, Published(digest), files, clock))
    requires ScopeOpen(w.db, row) && row.state == Claimed && row.owner == Some(p) && row.leaseExpiresAt.Some?
    requires fenced <= clock && completed <= clock && fenced < row.leaseExpiresAt.value
    requires completed < fenced + 1_800_000_000 && fenced < row.expiresAt && completed < row.expiresAt
    ensures var row' := RowRenewed(row, fenced);
            Execute(hash, Working(w, p, id, row, Published(digest), files, clock),
                    [RenewFence(p, fenced), Complete(p, completed)])
            == Working(w, p, id, row', Ready(digest), files, clock).(
                 db := w.db.(rows := w.db.rows[id := RowCompleted(row', digest, completed)]),
                 procs := w.procs[p := Exporter(id, row.attempts, row'.version, true, Closing)])
  {
    hide Execute, Apply, Invariant, ScopeOpen, Sha256Sized, Working;
    var row' := RowRenewed(row, fenced);
    SameScope(w.db, row, row');
    FenceRenews(hash, w, p, id, row, digest, files, clock, fenced);
    StepKeeps(hash, Working(w, p, id, row, Published(digest), files, clock), RenewFence(p, fenced));
    CompletesUndisturbed(hash, w, p, id, row', digest, files, clock, completed);
    TwoSteps(hash, Working(w, p, id, row, Published(digest), files, clock), RenewFence(p, fenced),
             Complete(p, completed));
  }

  /** Everything that an export at these clock readings asks of the state it starts in. */
  ghost predicate DueAndOpen(w: World, p: Uuid, id: Uuid, claimed: Time, verified: Time, wait: nat, fenced: Time,
                             completed: Time)
  {
    && p !in w.procs && id !in w.locks && ClaimFree(w.db, id, claimed) && ScopeOpen(w.db, w.db.rows[id])
    && claimed <= w.clock && verified <= w.clock && fenced <= w.clock + wait && completed <= w.clock + wait
    && verified < claimed + 1_800_000_000 && fenced < verified + 1_800_000_000
    && completed < fenced + 1_800_000_000
    && Max(Max(claimed, verified), Max(fenced, completed)) < w.db.rows[id].expiresAt
  }

  lemma ExportsUndisturbed(hash: Hash, w: World, p: Uuid, id: Uuid, content: Content,
                           claimed: Time, verified: Time, wait: nat, fenced: Time, completed: Time)
    requires Sha256Sized(hash) && Invariant(hash, w) && DueAndOpen(w, p, id, claimed, verified, wait, fenced, completed)
    ensures var row := RowRenewed(RowRenewed(RowClaimed(w.db.rows[id], p, claimed), verified), fenced);
            Execute(hash, w, StepsOfExport(p, id, content, claimed, verified, wait, fenced, completed))
            == Working(w, p, id, row, Ready(hash(content)), w.files[FinalName(id, row.attempts) := content],
                       w.clock + wait).(
                 db := w.db.(rows := w.db.rows[id := RowCompleted(row, hash(content), completed)]),
                 procs := w.procs[p := Exporter(id, row.attempts, row.version, true, Closing)])
  {
    hide Execute, Apply, Invariant, DatabaseInvariant, ScopeOpen, Sha256Sized, Working;
    OwnNamesAreFree(hash, w, id);
    var row1 := RowClaimed(w.db.rows[id], p, claimed);
    var row2 := RowRenewed(row1, verified);
    var claiming := [StartExport(p, id, claimed), AcquireLock(p), VerifyFence(p, verified)];
    var producing := [CheckPaths(p), CreateTemporary(p), WriteTemporary(p, content), HashTemporary(p), Publish(p),
                      Tick(wait)];
    var ending := [RenewFence(p, fenced), Complete(p, completed)];
    ClaimsAndVerifies(hash, w, p, id, claimed, verified);
    var w3 := Working(w, p, id, row2, Verified, w.files, w.clock);
    KeepsInvariant(hash, w, claiming);
    ProducesUndisturbed(hash, w, p, id, row2, w.files, w.clock, content, wait);
    KeepsInvariant(hash, w3, producing);
    SameScope(w.db, w.db.rows[id], row2);
    FencesAndCompletes(hash, w, p, id, row2, hash(content), w.files[FinalName(id, row1.attempts) := content],
                       w.clock + wait, fenced, completed);
    ExecuteBoth(hash, w, claiming, producing + ending);
    ExecuteBoth(hash, w3, producing, ending);
    assert StepsOfExport(p, id, content, claimed, verified, wait, fenced, completed) == claiming + (producing + ending);
  }

  /**
   In every reachable state, any due request of an open scope whose lock is free is completed by
   an exporter that starts then and is not disturbed, if each step comes before the lease of
   the one before it and all before the expiry: the row is completed with the digest of what
   was written, that is what the final file holds, and nothing else has changed.
   */
  lemma UndisturbedExportCompletes(hash: Hash, start: World, before: seq<Step>, p: Uuid, id: Uuid, content: Content,
                                   claimed: Time, verified: Time, wait: nat, fenced: Time, completed: Time)
    requires Sha256Sized(hash) && Initial(start)
    requires DueAndOpen(Execute(hash, start, before), p, id, claimed, verified, wait, fenced, completed)
    ensures var w := Execute(hash, start, before);
            var row := w.db.rows[id];
            var v := Execute(hash, w, StepsOfExport(p, id, content, claimed, verified, wait, fenced, completed));
            && v.db == w.db.(rows := w.db.rows[id := row.(
                               state := Completed, completedAt := Some(completed), digest := Some(hash(content)),
                               owner := None, leaseExpiresAt := None, attempts := row.attempts + 1,
                               version := row.version + 4)])
            && v.files == w.files[FinalName(id, row.attempts + 1) := content]
            && v.locks == w.locks[id := p] && v.clock == w.clock + wait
            && v.procs == w.procs[p := Exporter(id, row.attempts + 1, row.version + 3, true, Closing)]
  {
    hide Execute, Invariant, ScopeOpen, Sha256Sized, Working, StepsOfExport;
    var w := Execute(hash, start, before);
    ReachableKeeps(hash, start, before);
    ExportsUndisturbed(hash, w, p, id, content, claimed, verified, wait, fenced, completed);
    var row := RowRenewed(RowRenewed(RowClaimed(w.db.rows[id], p, claimed), verified), fenced);
    WorkingIs(w, p, id, row, Ready(hash(content)), w.files[FinalName(id, row.attempts) := content], w.clock + wait);
  }

  lemma WorkingIs(w: World, p: Uuid, id: Uuid, row: ExportRow, stage: ExporterStage,
                  files: map<FileName, Content>, clock: Time)
    ensures var v := Working(w, p, id, row, stage, files, clock);
            v.files == files && v.clock == clock && v.locks == w.locks[id := p]
  {
  }

  lemma SameScope(db: Database, row: ExportRow, other: ExportRow)
    requires ScopeOpen(db, row) && other.account == row.account && other.contact == row.contact
    ensures ScopeOpen(db, other)
  {
    forall e | e in db.erasures ensures !InScope(e, other) {
      assert InScope(e, other) ==> InScope(e, row);
    }
  }

  lemma TwoSteps(hash: Hash, w: World, a: Step, b: Step)
    ensures Execute(hash, w, [a, b]) == Apply(hash, Apply(hash, w, a), b)
  {
    hide Apply, Execute;
    ExecuteNext(hash, w, a, [b]);
    ExecuteNext(hash, Apply(hash, w, a), b, []);
    ExecuteNone(hash, Apply(hash, Apply(hash, w, a), b));
    assert [a] + [b] == [a, b] && [b] + [] == [b];
  }

  lemma TwoKeep(hash: Hash, w: World, a: Step, b: Step)
    requires Sha256Sized(hash) && Invariant(hash, w)
    ensures Invariant(hash, Apply(hash, Apply(hash, w, a), b))
  {
    hide Apply, Invariant;
    StepKeeps(hash, w, a);
    StepKeeps(hash, Apply(hash, w, a), b);
  }

  lemma FenceVerifies(hash: Hash, w: World, p: Uuid, id: Uuid, row: ExportRow, now: Time)
    requires Invariant(hash, Working(w, p, id, row, Locked, w.files, w.clock)) && ScopeOpen(w.db, row)
    requires now <= w.clock && ClaimHeld(w.db.(rows := w.db.rows[id := row]), id, p, row.version, now)
    ensures Apply(hash, Working(w, p, id, row, Locked, w.files, w.clock), VerifyFence(p, now))
            == Working(w, p, id, RowRenewed(row, now), Verified, w.files, w.clock)
  {
    hide Invariant, ScopeOpen, ApplyRenew;
    RenewsUndisturbed(hash, w, p, id, row, Locked, w.files, w.clock, now, Verified, Aborting(false, false));
  }

  lemma FenceRenews(hash: Hash, w: World, p: Uuid, id: Uuid, row: ExportRow, digest: Digest,
                    files: map<FileName, Content>, clock: Time, now: Time)
    requires Invariant(hash, Working(w, p, id, row, Published(digest), files, clock)) && ScopeOpen(w.db, row)
    requires now <= clock && ClaimHeld(w.db.(rows := w.db.rows[id := row]), id, p, row.version, now)
    ensures Apply(hash, Working(w, p, id, row, Published(digest), files, clock), RenewFence(p, now))
            == Working(w, p, id, RowRenewed(row, now), Ready(digest), files, clock)
  {
    hide Invariant, ScopeOpen, ApplyRenew;
    RenewsUndisturbed(hash, w, p, id, row, Published(digest), files, clock, now, Ready(digest), Aborting(true, false));
  }

  // ---------------------------------------------------------------------------
  // Cleaners that nobody disturbs
  // ---------------------------------------------------------------------------

  predicate ArtifactMatches(hash: Hash, w: World, id: Uuid)
    requires id in w.db.rows
  {
    var name := FinalName(id, w.db.rows[id].attempts);
    name in w.files ==> w.db.rows[id].digest == Some(hash(w.files[name]))
  }

  /**
   In every reachable state an expired artifact is deleted and then recorded as deleted at the
   cleaner's time, unless the file does not have the recorded digest, when nothing changes.
   */
  lemma ExpiredArtifactIsDeleted(hash: Hash, start: World, before: seq<Step>, p: Uuid, id: Uuid, now: Time)
    requires Sha256Sized(hash) && Initial(start)
    requires var w := Execute(hash, start, before);
             && p !in w.procs && now <= w.clock && id in w.db.rows && w.db.rows[id].state == Completed
             && w.db.rows[id].artifactDeletedAt.None? && w.db.rows[id].erasureRequestedAt.None?
             && w.db.rows[id].expiresAt <= now
    ensures var w := Execute(hash, start, before);
            var row := w.db.rows[id];
            var v := Execute(hash, w, [SelectExpired(p, id, now), DeleteExpired(p), MarkExpired(p)]);
            && v == w.(procs := w.procs[p := Ended],
                       db := if ArtifactMatches(hash, w, id)
                             then w.db.(rows := w.db.rows[id := row.(artifactDeletedAt := Some(now),
                                                                    version := row.version + 1)])
                             else w.db,
                       files := if ArtifactMatches(hash, w, id) then w.files - {FinalName(id, row.attempts)}
                                else w.files)
  {
    hide Execute, Apply, Invariant, DatabaseInvariant, Sha256Sized;
    var w := Execute(hash, start, before);
    ReachableKeeps(hash, start, before);
    DatabaseSound(hash, w);
    CompletedHasDigest(w.db, id);
    ThreeSteps(hash, w, SelectExpired(p, id, now), DeleteExpired(p), MarkExpired(p));
    ExpirySteps(hash, w, p, id, now);
  }

  lemma CompletedHasDigest(db: Database, id: Uuid)
    requires DatabaseInvariant(db) && id in db.rows && db.rows[id].state == Completed
    ensures db.rows[id].digest.Some?
  {
    assert RowInvariant(db.rows[id]);
  }

  lemma Twice(procs: map<Uuid, Process>, p: Uuid, a: Process, b: Process)
    ensures procs[p := a][p := b] == procs[p := b]
  {
  }

  lemma ExpiredIsDeleted(hash: Hash, w: World, p: Uuid, id: Uuid, c: Process)
    requires id in w.db.rows && w.db.rows[id].digest.Some?
    requires c.ExpiredCleaner? && c.request == id && c.attempt == w.db.rows[id].attempts && !c.deleted
    requires c.digest == w.db.rows[id].digest.value
    ensures Apply(hash, w.(procs := w.procs[p := c]), DeleteExpired(p)) ==
              if ArtifactMatches(hash, w, id)
              then w.(procs := w.procs[p := c.(deleted := true)],
                      files := w.files - {FinalName(id, w.db.rows[id].attempts)})
              else w.(procs := w.procs[p := Ended])
  {
    Twice(w.procs, p, c, c.(deleted := true));
    Twice(w.procs, p, c, Ended);
  }

  lemma DeletedIsMarked(hash: Hash, w: World, p: Uuid, c: Process)
    requires DatabaseInvariant(w.db) && c.ExpiredCleaner?
    ensures var v := w.(procs := w.procs[p := c]);
            Apply(hash, v, MarkExpired(p)) ==
              if !c.deleted then v
              else w.(procs := w.procs[p := Ended],
                      db := MarkArtifactDeleted(w.db, c.request, c.version, c.digest, c.now).db)
  {
    hide DatabaseInvariant, MarkArtifactDeleted;
    DeletionIsRecordedExactly(w.db, c.request, c.version, c.digest, c.now);
    Twice(w.procs, p, c, Ended);
  }

  lemma ExpirySteps(hash: Hash, w: World, p: Uuid, id: Uuid, now: Time)
    requires DatabaseInvariant(w.db)
    requires p !in w.procs && now <= w.clock && id in w.db.rows && w.db.rows[id].state == Completed
    requires w.db.rows[id].artifactDeletedAt.None? && w.db.rows[id].erasureRequestedAt.None?
    requires w.db.rows[id].expiresAt <= now && w.db.rows[id].digest.Some?
    ensures var row := w.db.rows[id];
            var v := Apply(hash, Apply(hash, Apply(hash, w, SelectExpired(p, id, now)), DeleteExpired(p)),
                           MarkExpired(p));
            && v == w.(procs := w.procs[p := Ended],
                       db := if ArtifactMatches(hash, w, id)
                             then w.db.(rows := w.db.rows[id := row.(artifactDeletedAt := Some(now),
                                                                    version := row.version + 1)])
                             else w.db,
                       files := if ArtifactMatches(hash, w, id) then w.files - {FinalName(id, row.attempts)}
                                else w.files)
  {
    hide DatabaseInvariant, MarkArtifactDeleted, ArtifactMatches, ApplyDeleteExpired, ApplyMarkExpired;
    var row := w.db.rows[id];
    var c := ExpiredCleaner(id, row.attempts, row.version, row.digest.value, now, false);
    assert Apply(hash, w, SelectExpired(p, id, now)) == w.(procs := w.procs[p := c]);
    hide Apply;
    ExpiredIsDeleted(hash, w, p, id, c);
    DeletionIsRecordedExactly(w.db, id, row.version, row.digest.value, now);
    if ArtifactMatches(hash, w, id) {
      DeletedIsMarked(hash, w.(files := w.files - {FinalName(id, row.attempts)}), p, c.(deleted := true));
    } else {
      EndedStays(hash, w.(procs := w.procs[p := Ended]), p);
    }
  }

  lemma EndedStays(hash: Hash, w: World, p: Uuid)
    requires p in w.procs && w.procs[p] == Ended
    ensures Apply(hash, w, MarkExpired(p)) == w && Apply(hash, w, DeleteTemporary(p)) == w
  {
  }

  lemma TemporaryIsLocked(hash: Hash, w: World, p: Uuid, name: FileName)
    ensures Apply(hash, w.(procs := w.procs[p := TemporaryCleaner(name, false)]), LockTemporary(p)) ==
              if name.request in w.locks then w.(procs := w.procs[p := Ended])
              else w.(procs := w.procs[p := TemporaryCleaner(name, true)], locks := w.locks[name.request := p])
  {
    Twice(w.procs, p, TemporaryCleaner(name, false), Ended);
    Twice(w.procs, p, TemporaryCleaner(name, false), TemporaryCleaner(name, true));
  }

  /** A stale temporary file goes, and nothing else, when its request's lock is free. */
  lemma StaleTemporaryIsDeleted(hash: Hash, w: World, p: Uuid, name: FileName)
    requires p !in w.procs && name in w.files && name.dotted && name.temporary && name.attempt.Some?
    ensures var v := Execute(hash, w, [SelectTemporary(p, name), LockTemporary(p), DeleteTemporary(p)]);
            if name.request in w.locks then v == w.(procs := w.procs[p := Ended])
            else v == w.(procs := w.procs[p := TemporaryCleaner(name, true)], locks := w.locks[name.request := p],
                         files := w.files - {name})
  {
    hide Execute, Apply;
    ThreeSteps(hash, w, SelectTemporary(p, name), LockTemporary(p), DeleteTemporary(p));
    TemporaryIsSelected(hash, w, p, name);
    TemporaryIsLocked(hash, w, p, name);
    if name.request in w.locks {
      EndedStays(hash, w.(procs := w.procs[p := Ended]), p);
    } else {
      TemporaryGoes(hash, w.(locks := w.locks[name.request := p]), p, name);
    }
  }

  lemma TemporaryIsSelected(hash: Hash, w: World, p: Uuid, name: FileName)
    requires p !in w.procs && name in w.files && name.dotted && name.temporary && name.attempt.Some?
    ensures Apply(hash, w, SelectTemporary(p, name)) == w.(procs := w.procs[p := TemporaryCleaner(name, false)])
  {
  }

  lemma TemporaryGoes(hash: Hash, w: World, p: Uuid, name: FileName)
    ensures Apply(hash, w.(procs := w.procs[p := TemporaryCleaner(name, true)]), DeleteTemporary(p))
            == w.(procs := w.procs[p := TemporaryCleaner(name, true)], files := w.files - {name})
  {
  }

  /** A process that ends, by exit or crash, gives its lock back and changes nothing else. */
  lemma EndingReleases(hash: Hash, w: World, p: Uuid)
    requires Invariant(hash, w) && p in w.procs
    ensures var v := Apply(hash, w, End(p));
            && v == w.(procs := w.procs[p := Ended], locks := v.locks)
            && (forall r :: r in v.locks <==> r in w.locks && w.locks[r] != p)
            && (forall r | r in v.locks :: v.locks[r] == w.locks[r])
  {
    hide Invariant;
    LocksSound(hash, w);
    assert LocksExclusive(w);
  }

  // ---------------------------------------------------------------------------
  // Emptying an erased request
  // ---------------------------------------------------------------------------

  function Eraser(w: World, p: Uuid, id: Uuid, row: ExportRow, now: Time, phase: EraserStage,
                  files: map<FileName, Content>): World
  {
    w.(locks := w.locks[id := p], files := files,
       procs := w.procs[p := ErasureCleaner(id, row.attempts, row.version, row.digest, now, true, phase)])
  }

  lemma EraserMoves(w: World, p: Uuid, id: Uuid, row: ExportRow, now: Time, phase: EraserStage,
                    files: map<FileName, Content>, next: EraserStage, files': map<FileName, Content>)
    ensures var v := Eraser(w, p, id, row, now, phase, files);
            && p in v.procs && v.procs[p] == ErasureCleaner(id, row.attempts, row.version, row.digest, now, true, phase)
            && v.files == files && v.db == w.db && v.clock == w.clock
            && Phase(v.(files := files'), p, next) == Eraser(w, p, id, row, now, next, files')
  {
    var c := ErasureCleaner(id, row.attempts, row.version, row.digest, now, true, phase);
    assert w.procs[p := c][p := c.(phase := next)] == w.procs[p := c.(phase := next)];
  }

  /** No registered digest, no registered file, or one whose content matches. */
  predicate Erasable(hash: Hash, w: World, id: Uuid)
    requires id in w.db.rows
  {
    w.db.rows[id].digest.None? || ArtifactMatches(hash, w, id)
  }

  function WithoutRegistered(w: World, id: Uuid): map<FileName, Content>
    requires id in w.db.rows
  {
    if w.db.rows[id].digest.None? then w.files else w.files - {FinalName(id, w.db.rows[id].attempts)}
  }

  lemma EraserLocks(hash: Hash, w: World, p: Uuid, id: Uuid, now: Time)
    requires p !in w.procs && id !in w.locks && now <= w.clock && id in w.db.rows
    requires w.db.rows[id].erasureRequestedAt.Some? && w.db.rows[id].erasureCleanedAt.None?
    ensures Apply(hash, Apply(hash, w, SelectErased(p, id, now)), LockErased(p))
            == Eraser(w, p, id, w.db.rows[id], now, Guarded, w.files)
  {
    var row := w.db.rows[id];
    var c := ErasureCleaner(id, row.attempts, row.version, row.digest, now, false, Selected);
    Twice(w.procs, p, c, c.(phase := Guarded, locked := true));
    assert Apply(hash, w, SelectErased(p, id, now)) == w.(procs := w.procs[p := c]);
  }

  lemma EraserDeletes(hash: Hash, w: World, p: Uuid, id: Uuid, now: Time)
    requires id in w.db.rows
    ensures Apply(hash, Eraser(w, p, id, w.db.rows[id], now, Guarded, w.files), DeleteRegistered(p)) ==
              if Erasable(hash, w, id) then Eraser(w, p, id, w.db.rows[id], now, Listing, WithoutRegistered(w, id))
              else Eraser(w, p, id, w.db.rows[id], now, Finished, w.files)
  {
    hide Eraser, Phase;
    var row := w.db.rows[id];
    EraserMoves(w, p, id, row, now, Guarded, w.files, Listing, w.files);
    EraserMoves(w, p, id, row, now, Guarded, w.files, Finished, w.files);
    EraserMoves(w, p, id, row, now, Guarded, w.files, Listing, WithoutRegistered(w, id));
  }

  lemma EraserLists(hash: Hash, w: World, p: Uuid, id: Uuid, row: ExportRow, now: Time, files: map<FileName, Content>)
    ensures Apply(hash, Eraser(w, p, id, row, now, Listing, files), ListErased(p))
            == Eraser(w, p, id, row, now, Sweeping(set n | n in files && n.request == id), files)
  {
    hide Eraser, Phase;
    EraserMoves(w, p, id, row, now, Listing, files, Sweeping(set n | n in files && n.request == id), files);
  }

  lemma EraserUnlinks(hash: Hash, w: World, p: Uuid, id: Uuid, row: ExportRow, now: Time, todo: set<FileName>,
                      files: map<FileName, Content>, name: FileName)
    requires name in todo
    ensures Apply(hash, Eraser(w, p, id, row, now, Sweeping(todo), files), UnlinkErased(p, name))
            == Eraser(w, p, id, row, now, Sweeping(todo - {name}), files - {name})
  {
    hide Eraser, Phase;
    EraserMoves(w, p, id, row, now, Sweeping(todo), files, Sweeping(todo - {name}), files - {name});
  }

  lemma {:induction false} EraserSweeps(hash: Hash, w: World, p: Uuid, id: Uuid, row: ExportRow, now: Time,
                                        todo: set<FileName>, files: map<FileName, Content>)
    ensures exists sweep: seq<Step> ::
              Execute(hash, Eraser(w, p, id, row, now, Sweeping(todo), files), sweep)
              == Eraser(w, p, id, row, now, Sweeping({}), files - todo)
    decreases todo
  {
    hide Eraser, Apply, Execute;
    var v := Eraser(w, p, id, row, now, Sweeping(todo), files);
    if todo == {} {
      ExecuteNone(hash, v);
      assert files - todo == files;
    } else {
      var name :| name in todo;
      EraserUnlinks(hash, w, p, id, row, now, todo, files, name);
      EraserSweeps(hash, w, p, id, row, now, todo - {name}, files - {name});
      assert (files - {name}) - (todo - {name}) == files - todo;
      var rest: seq<Step> :|
        Execute(hash, Eraser(w, p, id, row, now, Sweeping(todo - {name}), files - {name}), rest)
        == Eraser(w, p, id, row, now, Sweeping({}), (files - {name}) - (todo - {name}));
      ExecuteNext(hash, v, UnlinkErased(p, name), rest);
    }
  }

  lemma EraserFinishes(hash: Hash, w: World, p: Uuid, id: Uuid, row: ExportRow, now: Time,
                       files: map<FileName, Content>)
    ensures Apply(hash, Eraser(w, p, id, row, now, Sweeping({}), files), FinishSweep(p))
            == Eraser(w, p, id, row, now, Swept, files)
  {
    hide Eraser, Phase;
    EraserMoves(w, p, id, row, now, Sweeping({}), files, Swept, files);
    EraserOver(w, p, id, row, now, Sweeping({}), files, w.db);
  }

  lemma EraserAcknowledges(hash: Hash, w: World, p: Uuid, id: Uuid, row: ExportRow, now: Time,
                           files: map<FileName, Content>, clock: Time)
    requires DatabaseInvariant(w.db) && clock <= w.clock
    ensures var out := MarkCleaned(w.db, id, row.version, now, clock);
            && out.Committed?
            && Apply(hash, Eraser(w, p, id, row, now, Swept, files), AcknowledgeErased(p, clock))
               == Eraser(w.(db := out.db), p, id, row, now, Finished, files)
  {
    hide Eraser, Phase, DatabaseInvariant, MarkCleaned;
    CleaningIsAcknowledgedExactly(w.db, id, row.version, now, clock);
    EraserMoves(w, p, id, row, now, Swept, files, Finished, files);
    EraserOver(w, p, id, row, now, Swept, files, MarkCleaned(w.db, id, row.version, now, clock).db);
  }

  lemma EraserOver(w: World, p: Uuid, id: Uuid, row: ExportRow, now: Time, phase: EraserStage,
                   files: map<FileName, Content>, db: Database)
    ensures Phase(Eraser(w, p, id, row, now, phase, files).(db := db), p, Finished)
            == Eraser(w.(db := db), p, id, row, now, Finished, files)
    ensures Eraser(w, p, id, row, now, phase, files).(files := files) == Eraser(w, p, id, row, now, phase, files)
  {
    EraserMoves(w.(db := db), p, id, row, now, phase, files, Finished, files);
  }

  /** From the listing to the acknowledgement. */
  lemma EraserCompletes(hash: Hash, w: World, p: Uuid, id: Uuid, row: ExportRow, now: Time,
                        files: map<FileName, Content>, clock: Time)
    requires DatabaseInvariant(w.db) && clock <= w.clock
    ensures exists sweep: seq<Step> ::
              Execute(hash, Eraser(w, p, id, row, now, Listing, files),
                      [ListErased(p)] + (sweep + [FinishSweep(p), AcknowledgeErased(p, clock)]))
              == Eraser(w.(db := MarkCleaned(w.db, id, row.version, now, clock).db), p, id, row, now, Finished,
                        files - set n | n in files && n.request == id)
  {
    hide Execute, Apply, DatabaseInvariant, Eraser, MarkCleaned;
    var todo := set n | n in files && n.request == id;
    EraserLists(hash, w, p, id, row, now, files);
    EraserSweeps(hash, w, p, id, row, now, todo, files);
    var sweep: seq<Step> :| Execute(hash, Eraser(w, p, id, row, now, Sweeping(todo), files), sweep)
                            == Eraser(w, p, id, row, now, Sweeping({}), files - todo);
    EraserFinishes(hash, w, p, id, row, now, files - todo);
    EraserAcknowledges(hash, w, p, id, row, now, files - todo, clock);
    var last := [FinishSweep(p), AcknowledgeErased(p, clock)];
    ExecuteNext(hash, Eraser(w, p, id, row, now, Listing, files), ListErased(p), sweep + last);
    ExecuteBoth(hash, Eraser(w, p, id, row, now, Sweeping(todo), files), sweep, last);
    TwoSteps(hash, Eraser(w, p, id, row, now, Sweeping({}), files - todo), FinishSweep(p), AcknowledgeErased(p, clock));
  }

  /**
   In every reachable state a revoked request whose lock is free is emptied and acknowledged by
   a cleaner that nobody disturbs: no name of the request is left, every other name is as it
   was, and the row gets the acknowledgement.
   */
  lemma ErasedRequestIsEmptied(hash: Hash, start: World, before: seq<Step>, p: Uuid, id: Uuid, now: Time, clock: Time)
    requires Sha256Sized(hash) && Initial(start)
    requires var w := Execute(hash, start, before);
             && p !in w.procs && id !in w.locks && now <= w.clock && clock <= w.clock && id in w.db.rows
             && w.db.rows[id].erasureRequestedAt.Some? && w.db.rows[id].erasureCleanedAt.None? && Erasable(hash, w, id)
    ensures var w := Execute(hash, start, before);
            exists sweep: seq<Step> ::
              var v := Execute(hash, w, [SelectErased(p, id, now), LockErased(p), DeleteRegistered(p)]
                                        + ([ListErased(p)] + (sweep + [FinishSweep(p), AcknowledgeErased(p, clock)])));
              && (forall n :: n in v.files <==> n in w.files && n.request != id)
              && (forall n | n in v.files :: v.files[n] == w.files[n])
              && v.db == MarkCleaned(w.db, id, w.db.rows[id].version, now, clock).db
              && v.db.rows[id].erasureCleanedAt.Some?
  {
    hide Execute, Apply, Invariant, DatabaseInvariant, Sha256Sized, Eraser, MarkCleaned, Erasable;
    var w := Execute(hash, start, before);
    ReachableKeeps(hash, start, before);
    DatabaseSound(hash, w);
    var row, files := w.db.rows[id], WithoutRegistered(w, id);
    CleaningIsAcknowledgedExactly(w.db, id, row.version, now, clock);
    var sweep := ErasesUndisturbed(hash, w, p, id, now, clock);
    EraserHas(w.(db := MarkCleaned(w.db, id, row.version, now, clock).db), p, id, row, now, Finished,
              files - set n | n in files && n.request == id);
  }

  /** The whole way of the cleaner, with the sweep it happens to make. */
  lemma ErasesUndisturbed(hash: Hash, w: World, p: Uuid, id: Uuid, now: Time, clock: Time) returns (sweep: seq<Step>)
    requires DatabaseInvariant(w.db) && now <= w.clock && clock <= w.clock
    requires p !in w.procs && id !in w.locks && id in w.db.rows && Erasable(hash, w, id)
    requires w.db.rows[id].erasureRequestedAt.Some? && w.db.rows[id].erasureCleanedAt.None?
    requires MarkCleaned(w.db, id, w.db.rows[id].version, now, clock).Committed?
    ensures var row, files := w.db.rows[id], WithoutRegistered(w, id);
            Execute(hash, w, [SelectErased(p, id, now), LockErased(p), DeleteRegistered(p)]
                             + ([ListErased(p)] + (sweep + [FinishSweep(p), AcknowledgeErased(p, clock)])))
            == Eraser(w.(db := MarkCleaned(w.db, id, row.version, now, clock).db), p, id, row, now, Finished,
                      files - set n | n in files && n.request == id)
  {
    hide Execute, Apply, DatabaseInvariant, Eraser, MarkCleaned, Erasable, WithoutRegistered;
    var row, files := w.db.rows[id], WithoutRegistered(w, id);
    EraserLocks(hash, w, p, id, now);
    EraserDeletes(hash, w, p, id, now);
    var first := [SelectErased(p, id, now), LockErased(p), DeleteRegistered(p)];
    ThreeSteps(hash, w, SelectErased(p, id, now), LockErased(p), DeleteRegistered(p));
    EraserCompletes(hash, w, p, id, row, now, files, clock);
    sweep :|
      Execute(hash, Eraser(w, p, id, row, now, Listing, files),
              [ListErased(p)] + (sweep + [FinishSweep(p), AcknowledgeErased(p, clock)]))
      == Eraser(w.(db := MarkCleaned(w.db, id, row.version, now, clock).db), p, id, row, now, Finished,
                files - set n | n in files && n.request == id);
    ExecuteBoth(hash, w, first, [ListErased(p)] + (sweep + [FinishSweep(p), AcknowledgeErased(p, clock)]));
  }

  lemma EraserHas(w: World, p: Uuid, id: Uuid, row: ExportRow, now: Time, phase: EraserStage,
                  files: map<FileName, Content>)
    ensures var v := Eraser(w, p, id, row, now, phase, files); v.files == files && v.db == w.db
  {
  }

  // ---------------------------------------------------------------------------
  // An export that fails
  // ---------------------------------------------------------------------------

  /** The exporter gave up on its way from the claim to the completion. */
  predicate UnderWay(stage: ExporterStage) {
    match stage
    case Starting | Locked | Verified | Checked | Writing(_) | Hashed(_) | Published(_) | Ready(_) => true
    case _ => false
  }

  /** The exporter stands at `stage` instead, and of the files at most its own have changed. */
  ghost predicate MovedTo(w: World, v: World, p: Uuid, stage: ExporterStage) {
    && ExporterAt(w, p) && v == w.(files := v.files, procs := w.procs[p := w.procs[p].(stage := stage)])
    && (forall n | !OwnFile(w.procs[p], n) :: n in v.files <==> n in w.files)
    && (forall n | n in v.files :: n in w.files && v.files[n] == w.files[n])
  }

  lemma MovesOn(hash: Hash, w: World, u: World, p: Uuid, stage: ExporterStage, step: Step, next: ExporterStage)
    requires MovedTo(w, u, p, stage)
    requires || (stage.Discarding? && step == DiscardTemporary(p) && next == DiscardingFinal(stage.report))
             || (stage.DiscardingFinal? && step == DiscardFinal(p) && next == Aborting(false, stage.report))
             || (stage.Aborting? && step == UnlinkArtifact(p) && next == Reporting(stage.report))
             || (stage.Aborting? && (step == DiscardTemporary(p) || step == DiscardFinal(p)) && next == stage)
    ensures MovedTo(w, Apply(hash, u, step), p, next)
  {
    var e := w.procs[p];
    Twice(w.procs, p, e.(stage := stage), e.(stage := next));
  }

  /** An exception at any stage, or the one between the rename and the second fence. */
  predicate Strikes(stage: ExporterStage, p: Uuid, exception: Step, report: bool) {
    exception == Fault(p, report) || (exception == Interrupt(p) && stage.Published? && report)
  }

  lemma FaultsAt(hash: Hash, w: World, p: Uuid, exception: Step, report: bool)
    requires ExporterAt(w, p) && UnderWay(w.procs[p].stage) && Strikes(w.procs[p].stage, p, exception, report)
    ensures var v := Apply(hash, w, exception);
            || MovedTo(w, v, p, Discarding(report))
            || MovedTo(w, v, p, Aborting(false, report)) || MovedTo(w, v, p, Aborting(true, report))
  {
  }

  function GivingUp(p: Uuid, exception: Step): seq<Step> {
    [exception, DiscardTemporary(p), DiscardFinal(p)]
  }

  /** From the exception to the point where a failure is reported. */
  lemma GivesUp(hash: Hash, w: World, p: Uuid, exception: Step, report: bool)
    requires ExporterAt(w, p) && UnderWay(w.procs[p].stage) && Strikes(w.procs[p].stage, p, exception, report)
    ensures MovedTo(w, Apply(hash, Execute(hash, w, GivingUp(p, exception)), UnlinkArtifact(p)), p, Reporting(report))
  {
    hide MovedTo, Apply, Execute;
    FaultsAt(hash, w, p, exception, report);
    ThreeSteps(hash, w, exception, DiscardTemporary(p), DiscardFinal(p));
    var v := Apply(hash, w, exception);
    var v1 := Apply(hash, v, DiscardTemporary(p));
    var v2 := Apply(hash, v1, DiscardFinal(p));
    if MovedTo(w, v, p, Discarding(report)) {
      MovesOn(hash, w, v, p, Discarding(report), DiscardTemporary(p), DiscardingFinal(report));
      MovesOn(hash, w, v1, p, DiscardingFinal(report), DiscardFinal(p), Aborting(false, report));
      MovesOn(hash, w, v2, p, Aborting(false, report), UnlinkArtifact(p), Reporting(report));
    } else {
      var artifact := MovedTo(w, v, p, Aborting(true, report));
      MovesOn(hash, w, v, p, Aborting(artifact, report), DiscardTemporary(p), Aborting(artifact, report));
      MovesOn(hash, w, v1, p, Aborting(artifact, report), DiscardFinal(p), Aborting(artifact, report));
      MovesOn(hash, w, v2, p, Aborting(artifact, report), UnlinkArtifact(p), Reporting(report));
    }
  }

  lemma Reports(hash: Hash, w: World, u: World, p: Uuid, report: bool, now: Time)
    requires DatabaseInvariant(w.db) && MovedTo(w, u, p, Reporting(report)) && now <= w.clock
    ensures var e := w.procs[p];
            Apply(hash, u, ReportFailure(p, now))
            == u.(procs := w.procs[p := e.(stage := Closing)],
                  db := if report then RecordFailure(w.db, e.request, p, e.fence, now).db else w.db)
  {
    hide DatabaseInvariant, RecordFailure, OwnFile;
    var e := w.procs[p];
    FailureIsRecordedExactly(w.db, e.request, p, e.fence, now);
    Twice(w.procs, p, e.(stage := Reporting(report)), e.(stage := Closing));
  }

  /**
   In every reachable state an exporter that fails at any stage while it holds its claim ends
   the request as failed, if the failure is to be reported, and leaves the row alone otherwise;
   its own files are gone and all other files are as they were.
   */
  lemma FailedExportIsReported(hash: Hash, start: World, before: seq<Step>, p: Uuid, exception: Step, report: bool,
                               now: Time)
    requires Sha256Sized(hash) && Initial(start)
    requires var w := Execute(hash, start, before);
             && ExporterAt(w, p) && UnderWay(w.procs[p].stage) && now <= w.clock
             && Strikes(w.procs[p].stage, p, exception, report)
             && ClaimHeld(w.db, w.procs[p].request, p, w.procs[p].fence, now)
    ensures var w := Execute(hash, start, before);
            var e := w.procs[p];
            var row := w.db.rows[e.request];
            var v := Execute(hash, w, GivingUp(p, exception) + [UnlinkArtifact(p), ReportFailure(p, now)]);
            && v.db == (if report
                        then w.db.(rows := w.db.rows[e.request := row.(
                               state := Failed, completedAt := Some(now), errorCode := Some(ExportOperationFailed),
                               owner := None, leaseExpiresAt := None, version := row.version + 1)])
                        else w.db)
            && (forall n :: n in v.files <==> n in w.files && !OwnFile(e, n))
            && (forall n | n in v.files :: v.files[n] == w.files[n])
  {
    hide Execute, Apply, Invariant, DatabaseInvariant, Sha256Sized, RecordFailure;
    var w := Execute(hash, start, before);
    var e := w.procs[p];
    var steps := GivingUp(p, exception) + [UnlinkArtifact(p), ReportFailure(p, now)];
    ReachableKeeps(hash, start, before);
    DatabaseSound(hash, w);
    GivesUp(hash, w, p, exception, report);
    var u := Execute(hash, w, GivingUp(p, exception));
    ExecuteBoth(hash, w, GivingUp(p, exception), [UnlinkArtifact(p), ReportFailure(p, now)]);
    TwoSteps(hash, u, UnlinkArtifact(p), ReportFailure(p, now));
    Reports(hash, w, Apply(hash, u, UnlinkArtifact(p)), p, report, now);
    FailureIsRecordedExactly(w.db, e.request, p, e.fence, now);
    ExecuteBoth(hash, start, before, steps);
    GivingUpLeavesNothing(hash, start, before + steps, p);
  }

  /**
   A name that is taken when the paths are checked or the temporary is created stops the export
   and is left alone; so does a temporary that is gone when it is to be renamed.  Each is
   reported as a failure.
   */
  lemma TakenNamesAreReported(hash: Hash, w: World, p: Uuid)
    requires ExporterAt(w, p)
    ensures var e := w.procs[p];
            var temporary, final := TemporaryName(e.request, e.attempt), FinalName(e.request, e.attempt);
            && (e.stage == Verified ==>
                  Apply(hash, w, CheckPaths(p)) == w.(procs := w.procs[p := e.(
                    stage := if temporary in w.files || final in w.files then Aborting(false, true) else Checked)]))
            && (e.stage == Checked && temporary in w.files ==>
                  Apply(hash, w, CreateTemporary(p)) == w.(procs := w.procs[p := e.(stage := Aborting(false, true))]))
            && (e.stage.Hashed? && temporary !in w.files ==>
                  Apply(hash, w, Publish(p)) == w.(procs := w.procs[p := e.(stage := Discarding(true))]))
  {
  }

  /**
   What makes an exporter stop without an exception of its own: a busy lock or a lost claim goes
   unreported, a completion that the database refuses is reported; from the rename on there is
   an artifact to remove.
   */
  lemma LostClaimGoesUnreported(hash: Hash, w: World, p: Uuid, step: Step)
    requires ExporterAt(w, p) && UnderWay(w.procs[p].stage)
    requires step == AcquireLock(p) || (step.RenewLease? && step.p == p) || (step.VerifyFence? && step.p == p)
             || (step.RenewFence? && step.p == p) || (step.Complete? && step.p == p)
    requires ExporterAt(Apply(hash, w, step), p) && Apply(hash, w, step).procs[p].stage.Aborting?
    ensures var was, stage := w.procs[p].stage, Apply(hash, w, step).procs[p].stage;
            && (stage.report <==> step.Complete? && Finalize(w.db, w.procs[p].request, p, w.procs[p].fence, was.digest,
                                                             step.now).Raised?)
            && (stage.artifact <==> was.Published? || was.Ready?)
  {
    hide Finalize, Renew;
  }

  /** A new request is stored exactly when it is well formed and its scope is open. */
  lemma RequestIsAcceptedExactly(hash: Hash, w: World, id: Uuid, row: ExportRow)
    requires row.state == Requested && DomainShape(row) && row.createdAt <= w.clock && id !in w.db.rows
    ensures var v := Apply(hash, w, Request(id, row));
            if && row.erasureRequestedAt.None? && row.erasureCleanedAt.None? && !ScopeBlocked(w.db, row)
            then v == w.(db := w.db.(rows := w.db.rows[id := row])) else v == w
  {
    hide ScopeBlocked, EnforceErasure;
    TriggerAcceptsExactly(w.db, None, row);
  }

  /**
   An account that starts being deleted closes all its exports; one that exists and is not being
   deleted has exactly those closed that an erasure reaches.  Other accounts' exports stay as
   they were.
   */
  lemma AccountDecidesScope(hash: Hash, w: World, account: Uuid, status: AccountStatus, row: ExportRow)
    ensures var v := Apply(hash, w, SetAccount(account, status));
            && v == w.(db := v.db) && v.db.rows == w.db.rows && v.db.erasures == w.db.erasures
            && (row.account == account ==>
                  (ScopeBlocked(v.db, row) <==> status == Deleting || exists e | e in w.db.erasures :: InScope(e, row)))
            && (row.account != account ==> (ScopeBlocked(v.db, row) <==> ScopeBlocked(w.db, row)))
  {
    hide ScopeBlocked, InScope;
    BlockedIsInScope(w.db, row);
    BlockedIsInScope(Apply(hash, w, SetAccount(account, status)).db, row);
  }

  /** An expired artifact is taken up by a cleaner exactly while its request is not revoked. */
  lemma ExpiryStartsExactly(hash: Hash, w: World, p: Uuid, id: Uuid, now: Time)
    requires p !in w.procs && now <= w.clock
    requires id in w.db.rows && (w.db.rows[id].state == Completed ==> w.db.rows[id].digest.Some?)
    ensures var row := w.db.rows[id];
            Apply(hash, w, SelectExpired(p, id, now)) != w
            <==> row.state == Completed && row.artifactDeletedAt.None? && row.expiresAt <= now
                 && row.erasureRequestedAt.None?
  {
  }

  /** A request is taken up for erasure exactly from its revocation to its acknowledgement. */
  lemma ErasureStartsExactly(hash: Hash, w: World, p: Uuid, id: Uuid, now: Time)
    requires p !in w.procs && now <= w.clock && id in w.db.rows
    ensures Apply(hash, w, SelectErased(p, id, now)) != w
            <==> w.db.rows[id].erasureRequestedAt.Some? && w.db.rows[id].erasureCleanedAt.None?
  {
  }

  /** A new erasure request revokes at once whatever it reaches, and nothing else. */
  lemma ErasureReachesAtOnce(hash: Hash, w: World, e: Erasure, now: Time, id: Uuid)
    requires now <= w.clock && id in w.db.rows
    ensures var v := Apply(hash, w, Erase(e, now));
            && v == w.(db := v.db) && v.db.erasures == w.db.erasures + {e} && v.db.rows.Keys == w.db.rows.Keys
            && (if InScope(e, w.db.rows[id]) then v.db.rows[id].erasureRequestedAt.Some?
                else v.db.rows[id] == w.db.rows[id])
  {
    hide InScope, InsertErasure;
    ErasureTakesEffect(w.db, e, now, id);
  }
}
