/** What each transaction on `data_export_requests` keeps, and what it refuses. */
module ExportRowLaws {
  import opened Basics
  import opened ExportRows

  /** An erasure request leaves no export of its scope unrevoked. */
  ghost predicate Covered(db: Database) {
    forall e, id | e in db.erasures && id in db.rows && InScope(e, db.rows[id]) ::
      db.rows[id].erasureRequestedAt.Some?
  }

  ghost predicate RowsKept(db: Database) {
    forall id | id in db.rows :: RowInvariant(db.rows[id])
  }

  ghost predicate DatabaseInvariant(db: Database) {
    RowsKept(db) && Covered(db)
  }

  /**
   How one row may move: its identity never changes, every real change raises the version,
   attempts only grow, erasure markers are permanent, and a finished row keeps its outcome.
   */
  predicate Advances(a: ExportRow, b: ExportRow) {
    && (a == b || a.version < b.version)
    && a.account == b.account && a.contact == b.contact
    && a.createdAt == b.createdAt && a.expiresAt == b.expiresAt
    && a.attempts <= b.attempts
    && (a.erasureRequestedAt.Some? ==> b.erasureRequestedAt == a.erasureRequestedAt)
    && (a.erasureCleanedAt.Some? ==> b.erasureCleanedAt == a.erasureCleanedAt)
    && (a.artifactDeletedAt.Some? ==> b.artifactDeletedAt == a.artifactDeletedAt)
    && (!Active?(a.state) ==>
          b.state == a.state && b.completedAt == a.completedAt && b.digest == a.digest
          && b.errorCode == a.errorCode && b.attempts == a.attempts)
  }

  ghost predicate DatabaseAdvances(a: Database, b: Database) {
    && a.erasures <= b.erasures
    && (forall id | id in a.rows :: id in b.rows && Advances(a.rows[id], b.rows[id]))
  }

  lemma AdvancesTransitive(a: Database, b: Database, c: Database)
    requires DatabaseAdvances(a, b) && DatabaseAdvances(b, c)
    ensures DatabaseAdvances(a, c)
  {
    forall id | id in a.rows ensures id in c.rows && Advances(a.rows[id], c.rows[id]) {
      assert Advances(a.rows[id], b.rows[id]) && Advances(b.rows[id], c.rows[id]);
    }
  }

  /** One trigger-checked write of a row that advances, within its shape, keeps the table. */
  lemma StoreKeeps<T>(db: Database, id: Uuid, row: ExportRow, result: T)
    requires DatabaseInvariant(db) && id in db.rows
    requires RowInvariant(row) && Advances(db.rows[id], row)
    ensures var out := Store(db, id, row, result);
            out.Committed? ==> DatabaseInvariant(out.db) && DatabaseAdvances(db, out.db)
  {
    var out := Store(db, id, row, result);
    if out.Committed? {
      forall e, k | e in out.db.erasures && k in out.db.rows && InScope(e, out.db.rows[k])
        ensures out.db.rows[k].erasureRequestedAt.Some?
      {
        assert InScope(e, db.rows[k]);
      }
    }
  }

  lemma ClaimKeeps(db: Database, id: Uuid, owner: Uuid, now: Time)
    requires DatabaseInvariant(db)
    ensures var out := Claim(db, id, owner, now);
            out.Committed? ==> DatabaseInvariant(out.db) && DatabaseAdvances(db, out.db)
  {
    if id in db.rows && Claimable(db.rows[id], now) {
      var row := ClaimedBy(db.rows[id], owner, now);
      StoreKeeps(db, id, row, Ticket(id, row.attempts, row.version));
    }
  }

  lemma RenewKeeps(db: Database, id: Uuid, owner: Uuid, version: nat, now: Time)
    requires DatabaseInvariant(db)
    ensures var out := Renew(db, id, owner, version, now);
            out.Committed? ==> DatabaseInvariant(out.db) && DatabaseAdvances(db, out.db)
  {
    if Fenced(db, id, owner, version, now) {
      StoreKeeps(db, id, db.rows[id].(leaseExpiresAt := Some(now + LEASE_DURATION), version := version + 1),
                 Some(version + 1));
    }
  }

  lemma FinalizeKeeps(db: Database, id: Uuid, owner: Uuid, version: nat, digest: Digest, now: Time)
    requires DatabaseInvariant(db) && |digest| == 32
    ensures var out := Finalize(db, id, owner, version, digest, now);
            out.Committed? ==> DatabaseInvariant(out.db) && DatabaseAdvances(db, out.db)
  {
    if Fenced(db, id, owner, version, now) {
      StoreKeeps(db, id,
                 db.rows[id].(state := Completed, owner := None, leaseExpiresAt := None,
                              completedAt := Some(now), digest := Some(digest), version := version + 1),
                 true);
    }
  }

  lemma RecordFailureKeeps(db: Database, id: Uuid, owner: Uuid, version: nat, now: Time)
    requires DatabaseInvariant(db)
    ensures var out := RecordFailure(db, id, owner, version, now);
            out.Committed? ==> DatabaseInvariant(out.db) && DatabaseAdvances(db, out.db)
  {
    if Fenced(db, id, owner, version, now) {
      StoreKeeps(db, id,
                 db.rows[id].(state := Failed, owner := None, leaseExpiresAt := None,
                              completedAt := Some(now), errorCode := Some(ExportOperationFailed),
                              version := version + 1),
                 true);
    }
  }

  lemma RevokedKeeps(row: ExportRow, now: Time)
    requires RowInvariant(row)
    ensures Advances(row, row)
    ensures row.erasureRequestedAt.None? ==>
              var r := Revoked(row, now);
              && RowInvariant(r) && Advances(row, r)
              && r.account == row.account && r.contact == row.contact && r.erasureRequestedAt.Some?
  {
  }

  lemma InsertErasureKeeps(db: Database, e: Erasure, now: Time)
    requires DatabaseInvariant(db)
    ensures DatabaseInvariant(InsertErasure(db, e, now))
    ensures DatabaseAdvances(db, InsertErasure(db, e, now))
  {
    hide RowInvariant, Advances, Revoked;
    var after := InsertErasure(db, e, now);
    forall id | id in db.rows
      ensures RowInvariant(after.rows[id]) && Advances(db.rows[id], after.rows[id])
      ensures after.rows[id].account == db.rows[id].account && after.rows[id].contact == db.rows[id].contact
      ensures db.rows[id].erasureRequestedAt.Some? || ToRevoke(e, db.rows[id])
        ==> after.rows[id].erasureRequestedAt.Some?
    {
      RevokedKeeps(db.rows[id], now);
    }
    forall f, id | f in after.erasures && id in after.rows && InScope(f, after.rows[id])
      ensures after.rows[id].erasureRequestedAt.Some?
    {
      assert InScope(f, db.rows[id]);
    }
  }

  lemma MarkCleanedKeeps(db: Database, id: Uuid, version: nat, now: Time, clock: Time)
    requires DatabaseInvariant(db)
    ensures var out := MarkCleaned(db, id, version, now, clock);
            out.Committed? ==> DatabaseInvariant(out.db) && DatabaseAdvances(db, out.db)
  {
    if Cleanable(db, id, version) {
      var row := db.rows[id];
      var deleted :=
        if row.state == Completed && row.artifactDeletedAt.None?
        then Some(GreatestWith(Max(now, clock), row.completedAt)) else row.artifactDeletedAt;
      var cleaned := row.(erasureCleanedAt := Some(GreatestWith(Max(now, clock), row.erasureRequestedAt)),
                          artifactDeletedAt := deleted, version := version + 1);
      assert RowInvariant(row);
      StoreKeeps(db, id, cleaned, true);
    }
  }

  lemma MarkArtifactDeletedKeeps(db: Database, id: Uuid, version: nat, digest: Digest, now: Time)
    requires DatabaseInvariant(db)
    ensures var out := MarkArtifactDeleted(db, id, version, digest, now);
            out.Committed? ==> DatabaseInvariant(out.db) && DatabaseAdvances(db, out.db)
  {
    if id in db.rows && ExpiredArtifact(db.rows[id], now) && db.rows[id].version == version
       && db.rows[id].digest == Some(digest) {
      assert RowInvariant(db.rows[id]);
      StoreKeeps(db, id, db.rows[id].(artifactDeletedAt := Some(now), version := version + 1), true);
    }
  }

  /**
   The two spellings of an erasure's scope agree: a request blocks exactly the rows that
   its insertion would revoke.
   */
  lemma BlockedIsInScope(db: Database, row: ExportRow)
    ensures ScopeBlocked(db, row) <==>
            row.account !in db.accounts || db.accounts[row.account] == Deleting
            || exists e | e in db.erasures :: InScope(e, row)
  {
    if row.account in db.accounts && db.accounts[row.account] != Deleting {
      if ScopeBlocked(db, row) {
        var e :| e in db.erasures && e.account == row.account
                 && (e.scope == AccountScope
                     || (e.scope == ContactScope
                         && (row.contact.None? || (e.contact.Some? && row.contact == e.contact))));
        assert InScope(e, row);
      } else {
        forall e | e in db.erasures ensures !InScope(e, row) {}
      }
    }
  }

  /** Once an erasure request covers a row, nothing claims, renews or completes it. */
  lemma CoveredRowIsFenced(db: Database, e: Erasure, id: Uuid, owner: Uuid, version: nat, digest: Digest, now: Time)
    requires DatabaseInvariant(db) && e in db.erasures && id in db.rows && InScope(e, db.rows[id])
    ensures Claim(db, id, owner, now).Raised?
    ensures Renew(db, id, owner, version, now) == Committed(db, None)
    ensures Finalize(db, id, owner, version, digest, now) == Committed(db, false)
    ensures RecordFailure(db, id, owner, version, now) == Committed(db, false)
  {
    assert RowInvariant(db.rows[id]);
  }

  /** A claimer's clock at least half an hour behind the row's creation leaves the domain's shape. */
  lemma ClaimShape(db: Database, id: Uuid, owner: Uuid, now: Time)
    requires DatabaseInvariant(db)
    requires Claim(db, id, owner, now).Committed?
    ensures DomainShape(Claim(db, id, owner, now).db.rows[id])
            <==> db.rows[id].createdAt < now + LEASE_DURATION
  {
    assert RowInvariant(db.rows[id]);
  }

  /** Whose exports a request for erasure reaches: none, one contact's with the whole account's, or all. */
  lemma ErasureReaches(e: Erasure, row: ExportRow)
    ensures InScope(e, row) <==>
              && row.account == e.account
              && match e.scope
                 case MemoryScope => false
                 case ContactScope => row.contact.None? || row.contact == e.contact
                 case AccountScope => true
  {
  }

  /** Exactly the rows an erasure reaches are revoked: unfinished ones fail, finished ones keep their outcome. */
  lemma ErasureTakesEffect(db: Database, e: Erasure, now: Time, id: Uuid)
    requires id in db.rows
    ensures var after, row := InsertErasure(db, e, now), db.rows[id];
            && after.erasures == db.erasures + {e} && after.accounts == db.accounts && after.rows.Keys == db.rows.Keys
            && (!InScope(e, row) || row.erasureRequestedAt.Some? ==> after.rows[id] == row)
            && (InScope(e, row) && row.erasureRequestedAt.None? ==>
                  var revoked := row.(erasureRequestedAt := Some(now), version := row.version + 1, owner := None,
                                      leaseExpiresAt := None);
                  after.rows[id] ==
                    if row.state == Requested || row.state == Claimed
                    then revoked.(state := Failed, completedAt := Some(now), errorCode := Some(ErasureScope))
                    else revoked)
  {
    hide InScope;
  }

  /** Which proposed rows the trigger lets through, and that it never changes them. */
  lemma TriggerAcceptsExactly(db: Database, previous: Option<ExportRow>, row: ExportRow)
    ensures EnforceErasure(db, previous, row).Ok? ==> EnforceErasure(db, previous, row) == Ok(row)
    ensures EnforceErasure(db, previous, row).Ok? <==>
              && (previous.None? ==> row.erasureRequestedAt.None? && row.erasureCleanedAt.None?)
              && (previous.Some? ==>
                    var p := previous.value;
                    && row.account == p.account && row.contact == p.contact && row.attempts >= p.attempts
                    && (p.erasureRequestedAt.Some? ==> row.erasureRequestedAt == p.erasureRequestedAt)
                    && (p.erasureCleanedAt.Some? ==> row.erasureCleanedAt == p.erasureCleanedAt))
              && (row.state == Requested || row.state == Claimed ==>
                    row.erasureRequestedAt.None? && !ScopeBlocked(db, row))
              && (row.state == Completed && (previous.None? || previous.value.state != Completed) ==>
                    row.erasureRequestedAt.None? && !ScopeBlocked(db, row))
  {
    hide ScopeBlocked;
  }

  /** The row is claimed by this owner under this version, and neither lease nor request has run out. */
  predicate ClaimHeld(db: Database, id: Uuid, owner: Uuid, version: nat, now: Time) {
    && id in db.rows && db.rows[id].state == Claimed
    && db.rows[id].owner == Some(owner) && db.rows[id].version == version
    && db.rows[id].leaseExpiresAt.Some? && now < db.rows[id].leaseExpiresAt.value && now < db.rows[id].expiresAt
  }

  /** The request has not expired and is waiting, or was claimed under a lease that ran out. */
  predicate ClaimFree(db: Database, id: Uuid, now: Time) {
    && id in db.rows && now < db.rows[id].expiresAt
    && match db.rows[id].state
       case Requested => true
       case Claimed => db.rows[id].leaseExpiresAt.Some? && db.rows[id].leaseExpiresAt.value <= now
       case _ => false
  }

  /** A claim goes through exactly when the request is due and no erasure blocks its scope. */
  lemma ClaimSucceedsExactly(db: Database, id: Uuid, owner: Uuid, now: Time)
    requires DatabaseInvariant(db)
    ensures var out := Claim(db, id, owner, now);
            && (out.Committed? <==> ClaimFree(db, id, now) && !ScopeBlocked(db, db.rows[id]))
            && (out.Committed? ==>
                  var row := db.rows[id].(state := Claimed, owner := Some(owner),
                                          leaseExpiresAt := Some(now + 1_800_000_000),
                                          attempts := db.rows[id].attempts + 1, version := db.rows[id].version + 1);
                  && out.db == db.(rows := db.rows[id := row])
                  && out.result == Ticket(id, row.attempts, row.version))
  {
    if id in db.rows && Claimable(db.rows[id], now) {
      var row := db.rows[id];
      assert RowInvariant(row);
      assert ScopeBlocked(db, ClaimedBy(row, owner, now)) == ScopeBlocked(db, row);
    }
  }

  /**
   A claim excludes everyone else until its lease ends: nobody claims the request before, and
   of all owners and versions only the new ones pass the fence of a renewal or completion.
   */
  lemma ClaimIsExclusive(db: Database, id: Uuid, owner: Uuid, now: Time, other: Uuid, version: nat, later: Time)
    requires Claim(db, id, owner, now).Committed?
    ensures var out := Claim(db, id, owner, now);
            && (Claim(out.db, id, other, later).Committed? ==> later >= now + LEASE_DURATION)
            && (Fenced(out.db, id, other, version, later) ==>
                  other == owner && version == out.result.version && later < now + LEASE_DURATION)
            && out.result.version == db.rows[id].version + 1 && out.result.attempt == db.rows[id].attempts + 1
  {
    hide ScopeBlocked;
  }

  /** A renewal goes through exactly while the fence holds and no erasure blocks the scope. */
  lemma RenewSucceedsExactly(db: Database, id: Uuid, owner: Uuid, version: nat, now: Time)
    requires DatabaseInvariant(db)
    ensures var out := Renew(db, id, owner, version, now);
            && (out.Committed? && out.result.Some? <==>
                  ClaimHeld(db, id, owner, version, now) && !ScopeBlocked(db, db.rows[id]))
            && (out.Committed? && out.result.Some? ==>
                  && out.result.value == version + 1
                  && out.db == db.(rows := db.rows[id := db.rows[id].(leaseExpiresAt := Some(now + 1_800_000_000),
                                                                     version := version + 1)]))
            && (!ClaimHeld(db, id, owner, version, now) ==> out == Committed(db, None))
  {
    if Fenced(db, id, owner, version, now) {
      var row := db.rows[id];
      assert RowInvariant(row);
      assert ScopeBlocked(db, row.(leaseExpiresAt := Some(now + LEASE_DURATION), version := version + 1))
          == ScopeBlocked(db, row);
    }
  }

  /** So does a completion, which hands the row its digest and takes it from its owner. */
  lemma CompletionSucceedsExactly(db: Database, id: Uuid, owner: Uuid, version: nat, digest: Digest, now: Time)
    requires DatabaseInvariant(db)
    ensures var out := Finalize(db, id, owner, version, digest, now);
            && (out.Committed? && out.result <==>
                  ClaimHeld(db, id, owner, version, now) && !ScopeBlocked(db, db.rows[id]))
            && (out.Committed? && out.result ==>
                  out.db == db.(rows := db.rows[id := db.rows[id].(
                    state := Completed, completedAt := Some(now), digest := Some(digest), owner := None,
                    leaseExpiresAt := None, version := version + 1)]))
            && (!ClaimHeld(db, id, owner, version, now) ==> out == Committed(db, false))
  {
    if Fenced(db, id, owner, version, now) {
      var row := db.rows[id];
      assert RowInvariant(row);
      assert ScopeBlocked(db, row.(state := Completed, owner := None, leaseExpiresAt := None,
                                   completedAt := Some(now), digest := Some(digest), version := version + 1))
          == ScopeBlocked(db, row);
    }
  }

  /** A failure is recorded exactly while the fence holds, whatever blocks the scope. */
  lemma FailureIsRecordedExactly(db: Database, id: Uuid, owner: Uuid, version: nat, now: Time)
    requires DatabaseInvariant(db)
    ensures RecordFailure(db, id, owner, version, now) ==
              if ClaimHeld(db, id, owner, version, now) then
                Committed(db.(rows := db.rows[id := db.rows[id].(
                            state := Failed, completedAt := Some(now), errorCode := Some(ExportOperationFailed),
                            owner := None, leaseExpiresAt := None, version := version + 1)]), true)
              else Committed(db, false)
  {
    hide ScopeBlocked;
    if Fenced(db, id, owner, version, now) {
      assert RowInvariant(db.rows[id]);
    }
  }

  /** A cleaned erasure is acknowledged exactly once, with timestamps no earlier than what they follow. */
  lemma CleaningIsAcknowledgedExactly(db: Database, id: Uuid, version: nat, now: Time, clock: Time)
    requires DatabaseInvariant(db)
    ensures var out := MarkCleaned(db, id, version, now, clock);
            && out.Committed?
            && (out.result <==> id in db.rows && db.rows[id].version == version
                                && db.rows[id].erasureRequestedAt.Some? && db.rows[id].erasureCleanedAt.None?)
            && (!out.result ==> out.db == db)
            && (out.result ==>
                  var row, after := db.rows[id], out.db.rows[id];
                  && out.db == db.(rows := db.rows[id := after])
                  && after == row.(erasureCleanedAt := after.erasureCleanedAt, version := version + 1,
                                   artifactDeletedAt := after.artifactDeletedAt)
                  && after.erasureCleanedAt == Some(Max(Max(now, clock), row.erasureRequestedAt.value))
                  && after.artifactDeletedAt ==
                       if row.state == Completed && row.artifactDeletedAt.None?
                       then Some(Max(Max(now, clock), row.completedAt.value)) else row.artifactDeletedAt)
  {
    hide ScopeBlocked;
    if id in db.rows {
      assert RowInvariant(db.rows[id]);
    }
  }

  /** An expired artifact's deletion is recorded exactly once, while the row is as the cleaner read it. */
  lemma DeletionIsRecordedExactly(db: Database, id: Uuid, version: nat, digest: Digest, now: Time)
    requires DatabaseInvariant(db)
    ensures MarkArtifactDeleted(db, id, version, digest, now) ==
              if && id in db.rows && db.rows[id].state == Completed && db.rows[id].artifactDeletedAt.None?
                 && db.rows[id].expiresAt <= now && db.rows[id].version == version
                 && db.rows[id].digest == Some(digest)
              then Committed(db.(rows := db.rows[id := db.rows[id].(artifactDeletedAt := Some(now),
                                                                    version := version + 1)]), true)
              else Committed(db, false)
  {
    hide ScopeBlocked;
    if id in db.rows {
      assert RowInvariant(db.rows[id]);
    }
  }

  /** A renewal too sets a lease that may end before the row's creation. */
  lemma RenewShape(db: Database, id: Uuid, owner: Uuid, version: nat, now: Time)
    requires DatabaseInvariant(db)
    requires Renew(db, id, owner, version, now).Committed? && Renew(db, id, owner, version, now).result.Some?
    ensures DomainShape(Renew(db, id, owner, version, now).db.rows[id])
        <==> db.rows[id].createdAt < now + LEASE_DURATION
  {
    RenewSucceedsExactly(db, id, owner, version, now);
    assert RowInvariant(db.rows[id]);
  }
}
