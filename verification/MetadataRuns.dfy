/**
 Histories of one metadata row under the guard: erased rows stay empty, erased work never
 restarts, late outcomes are still recorded, and a blocked scope gains no metadata.
 */
module MetadataRuns {
  import opened Basics
  import opened MetadataGuard
  import P = PayloadGuard

  /** `metadata_erased_empty` */
  predicate Check(rule: Rule, row: Row) {
    Erased(row) ==> forall c | c in Columns(rule) :: Get(row, c) == EmptyValue(rule, c)
  }

  /** Guarded columns never route or own a row, except that a job's payload does. */
  predicate Sound(t: Table, rule: Rule) {
    forall c | c in Columns(rule) :: c.Private? || (c == Payload && (t == BackgroundJobs || t == Outbox))
  }

  ghost predicate OwnersKept(t: Table, a: Row, b: Row) {
    forall c | c in OWNERS ::
      Same(a, b, c) || (c == ModelRunId && t == CopilotDrafts && Get(a, ModelRunId) == Null && !Erased(a))
  }

  ghost predicate Frozen(rule: Rule, a: Row, b: Row) {
    Same(a, b, MetadataErasedAt) && forall c | c in Columns(rule) :: Same(a, b, c)
  }

  ghost predicate KeptOrEmptied(rule: Rule, a: Row, b: Row) {
    forall c | c in Columns(rule) :: Same(a, b, c) || Get(b, c) == EmptyValue(rule, c)
  }

  predicate Stopped(t: Table, row: Row) {
    (t == BackgroundJobs ==> !Runnable(row)) && (t == Outbox ==> Get(row, PublishedAt) != Null)
  }

  lemma EmptiedGets(rule: Rule, row: Row)
    ensures forall c | c in Columns(rule) :: Get(Emptied(rule, row), c) == EmptyValue(rule, c)
    ensures forall c | c !in Columns(rule) :: Same(Emptied(rule, row), row, c)
  {
    hide EmptyValue;
  }

  lemma NotOwners(t: Table, rule: Rule)
    requires Sound(t, rule)
    ensures forall c | c in OWNERS :: c !in Columns(rule)
    ensures MetadataErasedAt !in Columns(rule) && State !in Columns(rule) && PublishedAt !in Columns(rule)
    ensures MetadataErasedAt !in OWNERS
  {
    assert forall i | 0 <= i < |OWNERS| :: !OWNERS[i].Private? && OWNERS[i] != Payload && OWNERS[i] != MetadataErasedAt;
  }

  function Marked(rule: Rule, row: Row, now: Time): Row {
    Emptied(rule, row)[MetadataErasedAt := At(now)]
  }

  /** The ways an update is accepted. */
  lemma GuardOutcome(db: Database, t: Table, rule: Rule, previous: Row, next: Row, now: Time, stored: Row)
    requires Guard(db, t, rule, Some(previous), next, now) == Store(stored)
    ensures !OwnerChanged(db, t, previous, next, OWNERS)
    ensures Erased(previous) ==> stored == (if ReportsLate(t) then Emptied(rule, next) else next)
    ensures !Erased(previous) && Erased(next) ==> stored == next && OnlyRedacts(t, rule, previous, next)
    ensures !Erased(previous) && !Erased(next) ==>
              && (t == BackgroundJobs && Runnable(next) ==> !Blocked(db, t, next))
              && (|| (stored == next && (!Introduces(rule, previous, next)
                                         || !(Blocked(db, t, next) || Blocked(db, t, previous))))
                  || (AppendOnly(t) && stored == Marked(rule, next, now)))
  {
    hide Blocked, Emptied, Same, Get, Introduces, OnlyRedacts, Runnable, AnyChanged, AppendOnly, OwnerChanged, Erased,
         ReportsLate;
  }

  lemma GuardKeepsOwners(db: Database, t: Table, rule: Rule, previous: Row, next: Row, now: Time, stored: Row)
    requires Sound(t, rule) && Guard(db, t, rule, Some(previous), next, now) == Store(stored)
    ensures OwnersKept(t, previous, stored)
  {
    hide Guard, Emptied, Same, Get, Introduces, OnlyRedacts, Runnable, AppendOnly, Blocked, ReportsLate, Sound;
    GuardOutcome(db, t, rule, previous, next, now, stored);
    NotOwners(t, rule);
    EmptiedGets(rule, next);
    MarkedGets(rule, next, now);
    ComparesAlike(next, stored);
    OwnersCompared(db, t, previous, next);
    forall c | c in OWNERS
      ensures Same(previous, stored, c)
              || (c == ModelRunId && t == CopilotDrafts && Get(previous, ModelRunId) == Null && !Erased(previous))
    {
      assert Same(next, stored, c) || Same(stored, next, c);
      SameIsTransitive(previous, next, stored, c);
    }
  }

  lemma OwnersCompared(db: Database, t: Table, previous: Row, next: Row)
    requires !OwnerChanged(db, t, previous, next, OWNERS)
    ensures OwnersKept(t, previous, next)
  {
    hide Same, Get, Blocked, Erased;
  }

  lemma ComparesAlike(a: Row, b: Row)
    ensures a == b ==> forall c :: Same(a, b, c)
  {
  }

  lemma SameIsTransitive(a: Row, b: Row, c: Row, k: Column)
    ensures Same(a, b, k) && (Same(b, c, k) || Same(c, b, k)) ==> Same(a, c, k)
  {
  }

  lemma MarkedGets(rule: Rule, row: Row, now: Time)
    ensures var marked := Marked(rule, row, now);
            && (forall c | c in Columns(rule) && c != MetadataErasedAt :: Get(marked, c) == EmptyValue(rule, c))
            && (forall c | c !in Columns(rule) && c != MetadataErasedAt :: Same(marked, row, c))
            && Erased(marked)
  {
    hide EmptyValue, Emptied;
    EmptiedGets(rule, row);
  }

  /** An update of an erased row. */
  lemma ErasedStaysErased(db: Database, t: Table, rule: Rule, previous: Row, next: Row, now: Time, stored: Row)
    requires Sound(t, rule) && Guard(db, t, rule, Some(previous), next, now) == Store(stored) && Erased(previous)
    ensures Frozen(rule, previous, stored) && Erased(stored) && Stopped(t, stored)
  {
    hide Blocked, Emptied, Introduces, OnlyRedacts, OwnerChanged;
    NotOwners(t, rule);
    EmptiedGets(rule, next);
  }

  /** An update that finds its scope blocked, before or after. */
  lemma BlockedUpdateAddsNothing(db: Database, t: Table, rule: Rule, previous: Row, next: Row, now: Time, stored: Row)
    requires Sound(t, rule) && Guard(db, t, rule, Some(previous), next, now) == Store(stored) && Check(rule, stored)
    requires Blocked(db, t, previous) || Blocked(db, t, next)
    ensures KeptOrEmptied(rule, previous, stored)
    ensures t == BackgroundJobs && !Erased(stored) && Blocked(db, t, next) ==> !Runnable(stored)
  {
    hide Guard, Blocked, Emptied, OnlyRedacts, OwnerChanged, Same, Get, Runnable, AppendOnly, Marked, Sound, EmptyValue,
         Columns;
    GuardOutcome(db, t, rule, previous, next, now, stored);
    if Erased(previous) {
      ErasedStaysErased(db, t, rule, previous, next, now, stored);
    } else {
      NotOwners(t, rule);
      MarkedGets(rule, next, now);
    }
  }

  /** An insert into a blocked scope: only facts that must be kept, and those without their metadata. */
  lemma BlockedInsertIsEmptied(db: Database, t: Table, rule: Rule, next: Row, now: Time)
    requires Sound(t, rule) && Blocked(db, t, next) && Guard(db, t, rule, None, next, now).Store?
    requires t != Accounts || Find(db.rows, Accounts, Get(next, RowId)).Some?
    ensures var stored := Guard(db, t, rule, None, next, now).row;
            && AppendOnly(t) && Erased(stored) && Check(rule, stored)
            && (forall c | c !in Columns(rule) && c != MetadataErasedAt :: Same(stored, next, c))
  {
    hide Blocked, Emptied, AppendOnly, Erased;
    NotOwners(t, rule);
    MarkedGets(rule, next, now);
  }

  /** The outcome of a request that was already running is recorded on an erased run, without metadata. */
  lemma LateOutcomeIsRecorded(db: Database, t: Table, rule: Rule, previous: Row, next: Row, now: Time)
    requires Sound(t, rule) && Check(rule, previous) && Erased(previous) && ReportsLate(t)
    requires Same(previous, next, MetadataErasedAt) && forall c | c in OWNERS :: Same(previous, next, c)
    ensures Guard(db, t, rule, Some(previous), next, now).Store?
    ensures var stored := Guard(db, t, rule, Some(previous), next, now).row;
            && Check(rule, stored)
            && (forall c | c !in Columns(rule) :: Same(stored, next, c))
  {
    hide Blocked, Emptied;
    NotOwners(t, rule);
    EmptiedGets(rule, next);
  }

  // ---------------------------------------------------------------------------
  // Any sequence of accepted updates
  // ---------------------------------------------------------------------------

  datatype Write = Write(db: Database, proposed: Row, now: Time)

  /** `rows[i]` is what is stored before `writes[i]`. */
  ghost predicate History(t: Table, rule: Rule, rows: seq<Row>, writes: seq<Write>) {
    && |rows| == |writes| + 1
    && forall i | 0 <= i < |writes| :: Updates(t, rule, rows[i], writes[i], rows[i + 1])
  }

  predicate Updates(t: Table, rule: Rule, before: Row, w: Write, after: Row) {
    Guard(w.db, t, rule, Some(before), w.proposed, w.now) == Store(after) && Check(rule, after)
  }

  ghost predicate BlockedThroughout(t: Table, rows: seq<Row>, writes: seq<Write>) {
    |rows| == |writes| + 1 &&
    forall i | 0 <= i < |writes| :: Blocked(writes[i].db, t, rows[i]) || Blocked(writes[i].db, t, writes[i].proposed)
  }

  /**
   Owners are fixed but for the one binding of a draft to its run; once erased, the guarded
   columns and the marker are fixed; erased work is stopped by the next write and for good;
   and while the scope is blocked nothing is added.
   */
  lemma {:induction false} RowHistory(t: Table, rule: Rule, rows: seq<Row>, writes: seq<Write>)
    requires Sound(t, rule) && History(t, rule, rows, writes)
    ensures var first, last := rows[0], rows[|writes|];
            && OwnersKept(t, first, last)
            && (Erased(first) ==> Frozen(rule, first, last) && Erased(last))
            && (Erased(first) && (writes != [] || Stopped(t, first)) ==> Stopped(t, last))
            && (BlockedThroughout(t, rows, writes) ==> KeptOrEmptied(rule, first, last))
  {
    hide Updates, Blocked, Erased, Get, Stopped, Frozen, KeptOrEmptied, OwnersKept;
    if writes == [] {
      NothingHappened(t, rule, rows[0]);
    } else {
      var n := |writes| - 1;
      var front, w := writes[..n], writes[n];
      assert rows[..|writes|][n] == rows[n];
      RowHistory(t, rule, rows[..|writes|], front);
      assert Updates(t, rule, rows[n], w, rows[n + 1]);
      OneUpdate(t, rule, rows[n], w, rows[n + 1]);
      Compose(t, rule, rows[0], rows[n], rows[n + 1]);
    }
  }

  lemma OneUpdate(t: Table, rule: Rule, before: Row, w: Write, after: Row)
    requires Sound(t, rule) && Updates(t, rule, before, w, after)
    ensures OwnersKept(t, before, after)
    ensures Erased(before) ==> Frozen(rule, before, after) && Erased(after) && Stopped(t, after)
    ensures Blocked(w.db, t, before) || Blocked(w.db, t, w.proposed) ==> KeptOrEmptied(rule, before, after)
  {
    hide Guard, Blocked, Erased, Frozen, KeptOrEmptied, OwnersKept, Stopped;
    GuardKeepsOwners(w.db, t, rule, before, w.proposed, w.now, after);
    if Erased(before) {
      ErasedStaysErased(w.db, t, rule, before, w.proposed, w.now, after);
    }
    if Blocked(w.db, t, before) || Blocked(w.db, t, w.proposed) {
      BlockedUpdateAddsNothing(w.db, t, rule, before, w.proposed, w.now, after);
    }
  }

  lemma NothingHappened(t: Table, rule: Rule, a: Row)
    ensures OwnersKept(t, a, a) && Frozen(rule, a, a) && KeptOrEmptied(rule, a, a)
  {
  }

  lemma Compose(t: Table, rule: Rule, a: Row, b: Row, c: Row)
    requires OwnersKept(t, a, b) && OwnersKept(t, b, c)
    requires Erased(a) ==> Erased(b)
    ensures OwnersKept(t, a, c)
    ensures Frozen(rule, a, b) && Frozen(rule, b, c) ==> Frozen(rule, a, c)
    ensures KeptOrEmptied(rule, a, b) && KeptOrEmptied(rule, b, c) ==> KeptOrEmptied(rule, a, c)
  {
    hide Get, Erased, EmptyValue, Columns;
    forall k | k in OWNERS
      ensures Same(a, c, k) || (k == ModelRunId && t == CopilotDrafts && Get(a, ModelRunId) == Null && !Erased(a))
    {
      assert Same(a, b, k) || (k == ModelRunId && t == CopilotDrafts && Get(a, ModelRunId) == Null && !Erased(a));
      assert Same(b, c, k) || (k == ModelRunId && t == CopilotDrafts && Get(b, ModelRunId) == Null && !Erased(b));
    }
    if KeptOrEmptied(rule, a, b) && KeptOrEmptied(rule, b, c) {
      forall k | k in Columns(rule)
        ensures Same(a, c, k) || Get(c, k) == EmptyValue(rule, k)
      {
        assert Same(b, c, k) || Get(c, k) == EmptyValue(rule, k);
        assert Same(a, b, k) || Get(b, k) == EmptyValue(rule, k);
      }
    }
    if Frozen(rule, a, b) && Frozen(rule, b, c) {
      assert forall k | k in Columns(rule) :: Same(a, b, k) && Same(b, c, k);
    }
  }

  /**
   Exactly when erased work can still run: no write has touched the row since the write that
   erased it, and that write left it runnable (or unpublished).
   */
  lemma ErasedWorkRunsExactly(t: Table, rule: Rule, rows: seq<Row>, writes: seq<Write>)
    requires Sound(t, rule) && History(t, rule, rows, writes) && writes != []
    requires !Erased(rows[0]) && Erased(rows[1]) && !AppendOnly(t)
    ensures Stopped(t, rows[|writes|]) <==> |writes| > 1 || Stopped(t, writes[0].proposed)
  {
    hide Guard, Blocked, Stopped, AppendOnly, Check, Erased, Emptied, Introduces, OnlyRedacts;
    assert Updates(t, rule, rows[0], writes[0], rows[1]);
    GuardOutcome(writes[0].db, t, rule, rows[0], writes[0].proposed, writes[0].now, rows[1]);
    LateIsAppendOnly(t);
    var rest := rows[1..];
    assert forall i | 0 <= i < |writes[1..]| :: rest[i] == rows[i + 1] && writes[1..][i] == writes[i + 1];
    assert History(t, rule, rest, writes[1..]);
    RowHistory(t, rule, rest, writes[1..]);
    assert rest[|writes| - 1] == rows[|writes|];
  }

  lemma LateIsAppendOnly(t: Table)
    ensures ReportsLate(t) ==> AppendOnly(t)
  {
  }

  // ---------------------------------------------------------------------------
  // A job left pending
  // ---------------------------------------------------------------------------

  function ExampleRule(): Rule {
    Rule([], [Payload], [])
  }

  function ExampleDatabase(): Database {
    Database(P.Database(map[1 := P.Deleting], map[], {}, {P.AccountErasure(1)}, map[]), map[])
  }

  function ExampleJob(): Row {
    map[RowId := Id(7), AccountId := Id(1), State := StateIs(Pending), Payload := Data(3)]
  }

  function ExampleErasure(): Row {
    ExampleJob()[Payload := EmptyObject][MetadataErasedAt := At(0)]
  }

  lemma ExampleIsBlocked()
    ensures Blocked(ExampleDatabase(), BackgroundJobs, ExampleJob())
  {
    var owner := OwnerOf(map[], BackgroundJobs, Some(ExampleJob()));
    assert owner == Owner(Id(1), Null, Null, false);
    assert P.Stops(ExampleDatabase().fence, Some(OwnerRow(owner)));
    OwnerBlocks(ExampleDatabase().fence, owner);
  }

  lemma ExampleColumns()
    ensures !Erased(ExampleJob()) && Erased(ExampleErasure()) && Runnable(ExampleErasure())
    ensures forall c | c != Payload && c != MetadataErasedAt :: Same(ExampleJob(), ExampleErasure(), c)
    ensures Columns(ExampleRule()) == [Payload] && Get(ExampleErasure(), Payload) == EmptyObject
  {
  }

  lemma ExampleOwners()
    ensures !OwnerChanged(ExampleDatabase(), BackgroundJobs, ExampleJob(), ExampleErasure(), OWNERS)
  {
    hide ExampleJob, ExampleErasure, ExampleDatabase, Same, Get, Erased;
    ExampleColumns();
    assert forall i | 0 <= i < |OWNERS| :: OWNERS[i] != Payload && OWNERS[i] != MetadataErasedAt;
  }

  /** The guard alone does not stop a job: an erasing write that leaves it pending is accepted. */
  lemma ErasingWriteMayLeaveJobPending()
    ensures exists db: Database, previous: Row, next: Row ::
              && !Erased(previous) && Erased(next) && Runnable(next)
              && Check(ExampleRule(), next)
              && Guard(db, BackgroundJobs, ExampleRule(), Some(previous), next, 0) == Store(next)
  {
    hide ExampleJob, ExampleErasure, ExampleDatabase, Same, Get, Erased, Runnable, Blocked, OwnerChanged;
    ExampleIsBlocked();
    ExampleColumns();
    ExampleOwners();
    var rule := ExampleRule();
    assert Columns(rule)[0] == Payload && Payload in Mutable(BackgroundJobs, rule);
    assert MetadataErasedAt in Mutable(BackgroundJobs, rule);
    assert OnlyRedacts(BackgroundJobs, rule, ExampleJob(), ExampleErasure());
    assert Guard(ExampleDatabase(), BackgroundJobs, rule, Some(ExampleJob()), ExampleErasure(), 0)
        == Store(ExampleErasure());
  }
}
