/**
 The table `data_export_requests`: its row operations, the trigger that fences them
 against erasure, and the per-state field shape of the domain record.

 Every function here is one database transaction.  `now` is the reading of some
 process's clock and is not assumed to agree with any other reading.
 */
module ExportRows {
  import opened Basics

  type Digest = seq<Byte>

  const LEASE_DURATION: Time := 30 * 60 * 1_000_000

  datatype ExportState = Requested | Claimed | Completed | Failed | Expired

  datatype ErrorCode = ExportOperationFailed | ErasureScope

  datatype ExportRow = ExportRow(
    account: Uuid,
    contact: Option<Uuid>,
    state: ExportState,
    createdAt: Time,
    expiresAt: Time,
    owner: Option<Uuid>,
    leaseExpiresAt: Option<Time>,
    completedAt: Option<Time>,
    digest: Option<Digest>,
    artifactDeletedAt: Option<Time>,
    errorCode: Option<ErrorCode>,
    attempts: nat,
    version: nat,
    erasureRequestedAt: Option<Time>,
    erasureCleanedAt: Option<Time>)

  datatype AccountStatus = Active | Paused | Deleting | Deleted

  datatype ErasureScopeType = MemoryScope | ContactScope | AccountScope

  datatype Erasure = Erasure(account: Uuid, scope: ErasureScopeType, contact: Option<Uuid>)

  datatype Database = Database(
    accounts: map<Uuid, AccountStatus>,
    erasures: set<Erasure>,
    rows: map<Uuid, ExportRow>)

  datatype DatabaseError =
    | RequestNotClaimable
    | IdentityImmutable
    | ErasureImmutable
    | ErasureRequiresExistingRow
    | ErasureRequiresTerminal
    | ErasureExportBlocked

  // ---------------------------------------------------------------------------
  // Scope of an erasure over exports
  // ---------------------------------------------------------------------------

  /** The rows that inserting `e` revokes; a comparison with a null contact is not true. */
  predicate InScope(e: Erasure, row: ExportRow) {
    && e.scope != MemoryScope
    && row.account == e.account
    && (e.scope == AccountScope || row.contact.None? || (e.contact.Some? && row.contact == e.contact))
  }

  /** `export_scope_erasure_blocked`. */
  predicate ScopeBlocked(db: Database, row: ExportRow) {
    || row.account !in db.accounts
    || db.accounts[row.account] == Deleting
    || exists e | e in db.erasures ::
         && e.account == row.account
         && (e.scope == AccountScope
             || (e.scope == ContactScope
                 && (row.contact.None? || (e.contact.Some? && row.contact == e.contact))))
  }

  // ---------------------------------------------------------------------------
  // The trigger `enforce_export_erasure`
  // ---------------------------------------------------------------------------

  predicate Active?(state: ExportState) {
    state == Requested || state == Claimed
  }

  predicate ErasureMoved(previous: ExportRow, row: ExportRow) {
    || (previous.erasureRequestedAt.Some? && row.erasureRequestedAt != previous.erasureRequestedAt)
    || (previous.erasureCleanedAt.Some? && row.erasureCleanedAt != previous.erasureCleanedAt)
  }

  function EnforceErasure(db: Database, previous: Option<ExportRow>, row: ExportRow): Result<ExportRow, DatabaseError> {
    if previous.Some? && (row.account != previous.value.account || row.contact != previous.value.contact
                     || row.attempts < previous.value.attempts) then
      Err(IdentityImmutable)
    else if previous.Some? && ErasureMoved(previous.value, row) then
      Err(ErasureImmutable)
    else if previous.None? && (row.erasureRequestedAt.Some? || row.erasureCleanedAt.Some?) then
      Err(ErasureRequiresExistingRow)
    else if row.erasureRequestedAt.Some? && Active?(row.state) then
      Err(ErasureRequiresTerminal)
    else if (Active?(row.state) || (row.state == Completed && (previous.None? || previous.value.state != Completed)))
            && (row.erasureRequestedAt.Some? || ScopeBlocked(db, row)) then
      Err(ErasureExportBlocked)
    else
      Ok(row)
  }

  /** Write one row through the trigger; a rejected write leaves no database to look at. */
  function WriteRow(db: Database, id: Uuid, row: ExportRow): Result<Database, DatabaseError> {
    var previous := if id in db.rows then Some(db.rows[id]) else None;
    match EnforceErasure(db, previous, row)
    case Ok(stored) => Ok(db.(rows := db.rows[id := stored]))
    case Err(error) => Err(error)
  }

  // ---------------------------------------------------------------------------
  // Row operations
  // ---------------------------------------------------------------------------

  /** What one transaction did: the new database with a result, or an exception that rolled back. */
  datatype Outcome<+T> = Committed(db: Database, result: T) | Raised(error: DatabaseError)

  function Store<T>(db: Database, id: Uuid, row: ExportRow, result: T): Outcome<T> {
    match WriteRow(db, id, row)
    case Ok(next) => Committed(next, result)
    case Err(error) => Raised(error)
  }

  predicate Claimable(row: ExportRow, now: Time) {
    && row.expiresAt > now
    && (row.state == Requested
        || (row.state == Claimed && row.leaseExpiresAt.Some? && row.leaseExpiresAt.value <= now))
  }

  function ClaimedBy(row: ExportRow, owner: Uuid, now: Time): ExportRow {
    row.(state := Claimed, owner := Some(owner), leaseExpiresAt := Some(now + LEASE_DURATION),
         attempts := row.attempts + 1, version := row.version + 1)
  }

  datatype Ticket = Ticket(id: Uuid, attempt: nat, version: nat)

  /** `_claim`. */
  function Claim(db: Database, id: Uuid, owner: Uuid, now: Time): Outcome<Ticket> {
    if id in db.rows && Claimable(db.rows[id], now) then
      var row := ClaimedBy(db.rows[id], owner, now);
      Store(db, id, row, Ticket(id, row.attempts, row.version))
    else
      Raised(RequestNotClaimable)
  }

  /** The guard shared by renewal, completion and failure: owner, version and both deadlines. */
  predicate Fenced(db: Database, id: Uuid, owner: Uuid, version: nat, now: Time) {
    && id in db.rows
    && db.rows[id].state == Claimed
    && db.rows[id].owner == Some(owner)
    && db.rows[id].version == version
    && db.rows[id].leaseExpiresAt.Some? && db.rows[id].leaseExpiresAt.value > now
    && db.rows[id].expiresAt > now
  }

  /** `_renew`: the next fencing version, or none when the claim was lost. */
  function Renew(db: Database, id: Uuid, owner: Uuid, version: nat, now: Time): Outcome<Option<nat>> {
    if Fenced(db, id, owner, version, now) then
      var row := db.rows[id].(leaseExpiresAt := Some(now + LEASE_DURATION), version := version + 1);
      Store(db, id, row, Some(version + 1))
    else
      Committed(db, None)
  }

  /** `_finalize`. */
  function Finalize(db: Database, id: Uuid, owner: Uuid, version: nat, digest: Digest, now: Time): Outcome<bool> {
    if Fenced(db, id, owner, version, now) then
      var row := db.rows[id].(state := Completed, owner := None, leaseExpiresAt := None,
                              completedAt := Some(now), digest := Some(digest), version := version + 1);
      Store(db, id, row, true)
    else
      Committed(db, false)
  }

  /** `_record_failure`. */
  function RecordFailure(db: Database, id: Uuid, owner: Uuid, version: nat, now: Time): Outcome<bool> {
    if Fenced(db, id, owner, version, now) then
      var row := db.rows[id].(state := Failed, owner := None, leaseExpiresAt := None,
                              completedAt := Some(now), errorCode := Some(ExportOperationFailed),
                              version := version + 1);
      Store(db, id, row, true)
    else
      Committed(db, false)
  }

  function Revoked(row: ExportRow, now: Time): ExportRow {
    var live := Active?(row.state);
    row.(erasureRequestedAt := Some(now), version := row.version + 1,
         state := if live then Failed else row.state,
         completedAt := if live then Some(now) else row.completedAt,
         errorCode := if live then Some(ErasureScope) else row.errorCode,
         owner := None, leaseExpiresAt := None)
  }

  predicate ToRevoke(e: Erasure, row: ExportRow) {
    InScope(e, row) && row.erasureRequestedAt.None?
  }

  /** Insert an erasure request; `revoke_scope_exports` runs in the same transaction. */
  function InsertErasure(db: Database, e: Erasure, now: Time): Database {
    db.(erasures := db.erasures + {e},
        rows := map id | id in db.rows ::
          if ToRevoke(e, db.rows[id]) then Revoked(db.rows[id], now) else db.rows[id])
  }

  function GreatestWith(a: Time, b: Option<Time>): Time {
    if b.Some? then Max(a, b.value) else a
  }

  predicate Cleanable(db: Database, id: Uuid, version: nat) {
    && id in db.rows
    && db.rows[id].version == version
    && db.rows[id].erasureRequestedAt.Some?
    && db.rows[id].erasureCleanedAt.None?
    && !Active?(db.rows[id].state)
  }

  /** The acknowledgement at the end of `_cleanup_erased`. */
  function MarkCleaned(db: Database, id: Uuid, version: nat, now: Time, clock: Time): Outcome<bool> {
    if Cleanable(db, id, version) then
      var row := db.rows[id];
      var deleted :=
        if row.state == Completed && row.artifactDeletedAt.None?
        then Some(GreatestWith(Max(now, clock), row.completedAt)) else row.artifactDeletedAt;
      Store(db, id,
            row.(erasureCleanedAt := Some(GreatestWith(Max(now, clock), row.erasureRequestedAt)),
                 artifactDeletedAt := deleted, version := version + 1),
            true)
    else
      Committed(db, false)
  }

  predicate ExpiredArtifact(row: ExportRow, now: Time) {
    row.state == Completed && row.artifactDeletedAt.None? && row.expiresAt <= now
  }

  /** The acknowledgement of an expired artifact in `cleanup_due`. */
  function MarkArtifactDeleted(db: Database, id: Uuid, version: nat, digest: Digest, now: Time): Outcome<bool> {
    if id in db.rows && ExpiredArtifact(db.rows[id], now) && db.rows[id].version == version
       && db.rows[id].digest == Some(digest) then
      Store(db, id, db.rows[id].(artifactDeletedAt := Some(now), version := version + 1), true)
    else
      Committed(db, false)
  }

  // ---------------------------------------------------------------------------
  // The per-state shape of the domain record
  // ---------------------------------------------------------------------------

  /** The table's own CHECK constraints on the state columns. */
  predicate StoredShape(row: ExportRow) {
    && row.createdAt < row.expiresAt
    && row.version > 0
    && (row.digest.Some? ==> |row.digest.value| == 32)
    && match row.state
       case Requested =>
         && row.owner.None? && row.leaseExpiresAt.None? && row.completedAt.None?
         && row.digest.None? && row.artifactDeletedAt.None? && row.errorCode.None?
         && row.attempts == 0
       case Claimed =>
         && row.owner.Some? && row.leaseExpiresAt.Some?
         && row.completedAt.None? && row.digest.None? && row.artifactDeletedAt.None?
         && row.errorCode.None? && row.attempts > 0
       case Completed =>
         && row.owner.None? && row.leaseExpiresAt.None? && row.completedAt.Some?
         && row.digest.Some? && row.errorCode.None? && row.attempts > 0
         && (row.artifactDeletedAt.Some? ==> row.artifactDeletedAt.value >= row.completedAt.value)
       case _ =>
         && row.owner.None? && row.leaseExpiresAt.None? && row.completedAt.Some?
         && row.digest.None? && row.artifactDeletedAt.None? && row.errorCode.Some?
  }

  /** The domain record asks one thing more than the table: a lease ends after creation. */
  predicate DomainShape(row: ExportRow) {
    && StoredShape(row)
    && (row.state == Claimed ==> row.leaseExpiresAt.value > row.createdAt)
  }

  /** What every stored row keeps: the shape, the erasure order, and completion before expiry. */
  predicate RowInvariant(row: ExportRow) {
    && StoredShape(row)
    && (row.erasureRequestedAt.Some? ==> !Active?(row.state))
    && (row.erasureCleanedAt.Some? ==>
          row.erasureRequestedAt.Some? && row.erasureCleanedAt.value >= row.erasureRequestedAt.value)
    && (row.state == Completed ==> row.completedAt.value < row.expiresAt)
  }
}
