/**
 The exporter's objects as the program holds them: the table its statements update, the lease
 guard with its fence, and the staging directory that the cleaner sweeps.
 */
module ExportTable {
  import opened Basics
  import opened ExportRows
  import opened ExportRowLaws
  import opened ExportProtocol

  class Table {
    var accounts: map<Uuid, AccountStatus>
    var erasures: set<Erasure>
    var rows: map<Uuid, ExportRow>

    function View(): Database
      reads this
    {
      Database(accounts, erasures, rows)
    }

    constructor (accounts: map<Uuid, AccountStatus>)
      ensures View() == Database(accounts, {}, map[])
    {
      this.accounts := accounts;
      erasures, rows := {}, map[];
    }

    /** A row write through the trigger: either stored, or the statement raised and nothing moved. */
    method Write(id: Uuid, row: ExportRow) returns (error: Option<DatabaseError>)
      modifies this`rows
      ensures match WriteRow(old(View()), id, row)
              case Ok(db) => error.None? && View() == db
              case Err(e) => error == Some(e) && View() == old(View())
    {
      var previous := if id in rows then Some(rows[id]) else None;
      match EnforceErasure(View(), previous, row) {
        case Ok(stored) =>
          rows := rows[id := stored];
          error := None;
        case Err(e) =>
          error := Some(e);
      }
    }

    method ClaimRequest(id: Uuid, owner: Uuid, now: Time) returns (r: Result<Ticket, DatabaseError>)
      modifies this`rows
      ensures match Claim(old(View()), id, owner, now)
              case Committed(db, ticket) => r == Ok(ticket) && View() == db
              case Raised(e) => r == Err(e) && View() == old(View())
    {
      if id !in rows || !Claimable(rows[id], now) {
        return Err(RequestNotClaimable);
      }
      var attempt, version := rows[id].attempts + 1, rows[id].version + 1;
      var error := Write(id, rows[id].(state := Claimed, owner := Some(owner),
                                       leaseExpiresAt := Some(now + LEASE_DURATION),
                                       attempts := attempt, version := version));
      r := if error.Some? then Err(error.value) else Ok(Ticket(id, attempt, version));
    }

    /** The order of `ORDER BY created_at, id`. */
    static predicate Before(a: (Time, Uuid), b: (Time, Uuid)) {
      a.0 < b.0 || (a.0 == b.0 && a.1 <= b.1)
    }

    /** `_claim_next`: the oldest claimable request that no other transaction has locked. */
    method ClaimNext(owner: Uuid, now: Time, locked: set<Uuid>) returns (r: Result<Option<Ticket>, DatabaseError>)
      modifies this`rows
      ensures r == Ok(None) <==>
              forall id | id in old(rows) && id !in locked :: !Claimable(old(rows)[id], now)
      ensures r == Ok(None) ==> View() == old(View())
      ensures r.Ok? && r.value.Some? ==>
                var id := r.value.value.id;
                && id in old(rows) && id !in locked && Claimable(old(rows)[id], now)
                && (forall k | k in old(rows) && k !in locked && Claimable(old(rows)[k], now) ::
                      Before((old(rows)[id].createdAt, id), (old(rows)[k].createdAt, k)))
                && Claim(old(View()), id, owner, now) == Committed(View(), r.value.value)
      ensures r.Err? ==>
                && View() == old(View())
                && exists id | id in old(rows) && id !in locked ::
                     && Claim(old(View()), id, owner, now) == Raised(r.error) && Claimable(old(rows)[id], now)
                     && (forall k | k in old(rows) && k !in locked && Claimable(old(rows)[k], now) ::
                           Before((old(rows)[id].createdAt, id), (old(rows)[k].createdAt, k)))
    {
      var best: Option<Uuid> := None;
      var rest := rows.Keys - locked;
      while rest != {}
        invariant rest <= rows.Keys - locked
        invariant best.Some? ==> best.value in rows && best.value !in locked && Claimable(rows[best.value], now)
        invariant forall k | k in rows.Keys - locked - rest && Claimable(rows[k], now) ::
                    best.Some? && Before((rows[best.value].createdAt, best.value), (rows[k].createdAt, k))
        decreases rest
      {
        var id :| id in rest;
        rest := rest - {id};
        if Claimable(rows[id], now)
           && (best.None? || Before((rows[id].createdAt, id), (rows[best.value].createdAt, best.value))) {
          best := Some(id);
        }
      }
      if best.None? {
        return Ok(None);
      }
      var claimed := ClaimRequest(best.value, owner, now);
      match claimed {
        case Ok(ticket) => r := Ok(Some(ticket));
        case Err(e) => r := Err(e);
      }
    }

    method RenewLease(id: Uuid, owner: Uuid, version: nat, now: Time) returns (r: Result<Option<nat>, DatabaseError>)
      modifies this`rows
      ensures match Renew(old(View()), id, owner, version, now)
              case Committed(db, next) => r == Ok(next) && View() == db
              case Raised(e) => r == Err(e) && View() == old(View())
    {
      if !Fenced(View(), id, owner, version, now) {
        return Ok(None);
      }
      var error := Write(id, rows[id].(leaseExpiresAt := Some(now + LEASE_DURATION), version := version + 1));
      r := if error.Some? then Err(error.value) else Ok(Some(version + 1));
    }

    /** Insert an erasure request and revoke, row by row, every export in its scope. */
    method Erase(e: Erasure, now: Time)
      modifies this
      ensures View() == InsertErasure(old(View()), e, now)
    {
      erasures := erasures + {e};
      var rest := rows.Keys;
      while rest != {}
        invariant rest <= rows.Keys && rows.Keys == old(rows.Keys)
        invariant accounts == old(accounts) && erasures == old(erasures) + {e}
        invariant forall id | id in rest :: rows[id] == old(rows)[id]
        invariant forall id | id in rows.Keys - rest ::
                    rows[id] == if ToRevoke(e, old(rows)[id]) then Revoked(old(rows)[id], now) else old(rows)[id]
        decreases rest
      {
        var id :| id in rest;
        rest := rest - {id};
        if ToRevoke(e, rows[id]) {
          var live := Active?(rows[id].state);
          var error := Write(id, rows[id].(erasureRequestedAt := Some(now), version := rows[id].version + 1,
                                           state := if live then Failed else rows[id].state,
                                           completedAt := if live then Some(now) else rows[id].completedAt,
                                           errorCode := if live then Some(ErasureScope) else rows[id].errorCode,
                                           owner := None, leaseExpiresAt := None));
        }
      }
    }

    /** The compare-and-set that acknowledges an erased request; false when another cleaner was first. */
    method Acknowledge(id: Uuid, version: nat, now: Time, clock: Time) returns (done: bool)
      requires RowsKept(View())
      modifies this`rows
      ensures MarkCleaned(old(View()), id, version, now, clock) == Committed(View(), done)
    {
      if !Cleanable(View(), id, version) {
        return false;
      }
      var row := rows[id];
      assert RowInvariant(row);
      var deleted := row.artifactDeletedAt;
      if row.state == Completed && deleted.None? {
        deleted := Some(GreatestWith(Max(now, clock), row.completedAt));
      }
      var error := Write(id, row.(erasureCleanedAt := Some(GreatestWith(Max(now, clock), row.erasureRequestedAt)),
                                  artifactDeletedAt := deleted, version := version + 1));
      done := true;
    }
  }

  /** `_ExportLeaseGuard`: the current fence of one claim, lost for good after any doubt. */
  class LeaseGuard {
    const request: Uuid
    const owner: Uuid
    var version: nat
    var stopped: bool
    var lost: bool

    constructor (request: Uuid, owner: Uuid, version: nat)
      requires version >= 1
      ensures this.request == request && this.owner == owner && this.version == version
      ensures !stopped && !lost
    {
      this.request, this.owner, this.version := request, owner, version;
      stopped, lost := false, false;
    }

    /**
     One renewal over a fresh connection; `closed` says whether closing it succeeded.
     Success means the row is still this owner's and its version is exactly the guard's.
     */
    method RenewOnce(table: Table, now: Time, closed: bool) returns (ok: bool)
      modifies this`version, this`lost, table`rows
      ensures ok <==> !old(lost) && closed
                      && Renew(old(table.View()), request, owner, old(version), now).Committed?
                      && Renew(old(table.View()), request, owner, old(version), now).result.Some?
      ensures ok ==> !lost && version == old(version) + 1
                     && request in table.rows && table.rows[request].version == version
                     && table.rows[request].owner == Some(owner) && table.rows[request].state == Claimed
      ensures !ok ==> lost && version == old(version)
      ensures old(lost) ==> table.View() == old(table.View())
      ensures !old(lost) ==>
                match Renew(old(table.View()), request, owner, old(version), now)
                case Committed(db, _) => table.View() == db
                case Raised(_) => table.View() == old(table.View())
    {
      if lost {
        return false;
      }
      var renewed := table.RenewLease(request, owner, version, now);
      if renewed.Err? || !closed || renewed.value != Some(version + 1) {
        lost := true;
        return false;
      }
      version := renewed.value.value;
      ok := true;
    }

    /** Stop renewing, then take one last fence: the version to finish with, or none if lost. */
    method FinalizeVersion(table: Table, now: Time, closed: bool) returns (fence: Option<nat>)
      modifies this, table`rows
      ensures stopped
      ensures fence.Some? <==> !lost
      ensures fence.Some? <==> !old(lost) && closed
                               && Renew(old(table.View()), request, owner, old(version), now).Committed?
                               && Renew(old(table.View()), request, owner, old(version), now).result.Some?
      ensures fence.Some? ==> fence.value == version == old(version) + 1
                              && Fenced(old(table.View()), request, owner, old(version), now)
                              && Finalize(table.View(), request, owner, version, [], now).Committed?
                              && Finalize(table.View(), request, owner, version, [], now).result
      ensures old(lost) ==> lost && table.View() == old(table.View())
    {
      stopped := true;
      if lost {
        return None;
      }
      var ok := RenewOnce(table, now, closed);
      fence := if ok then Some(version) else None;
    }
  }

  /** The staging directory of one exporter host. */
  class Staging {
    var files: map<FileName, Content>

    static predicate Of(id: Uuid, n: FileName) {
      n.request == id
    }

    /**
     `_erase_request_files`: the registered artifact first, if its content still matches, then
     every other name of the request.  False is the exception for a mismatching artifact.
     */
    method EraseRequestFiles(hash: Content -> Digest, id: Uuid, attempt: nat, registered: Option<Digest>)
      returns (ok: bool)
      modifies this
      ensures ok <==> registered.None? || FinalName(id, attempt) !in old(files)
                      || hash(old(files)[FinalName(id, attempt)]) == registered.value
      ensures !ok ==> files == old(files)
      ensures ok ==> files == map n | n in old(files) && n.request != id :: old(files)[n]
    {
      var final := FinalName(id, attempt);
      if registered.Some? && final in files {
        if hash(files[final]) != registered.value {
          return false;
        }
        files := files - {final};
      }
      var todo := set n | n in files && n.request == id;
      while todo != {}
        invariant todo <= files.Keys
        invariant forall n | n in todo :: n.request == id
        invariant forall n | n in files && n.request == id :: n in todo
        invariant forall n | n in old(files) && n.request != id :: n in files
        invariant forall n | n in files :: n in old(files) && files[n] == old(files)[n]
        decreases todo
      {
        var n :| n in todo;
        files := files - {n};
        todo := todo - {n};
      }
      ok := true;
    }
  }

  /** A row that the batch query of `_cleanup_erased` returns. */
  predicate Pending(row: ExportRow) {
    row.erasureRequestedAt.Some? && row.erasureCleanedAt.None?
  }

  /** The requests of a batch whose lock is free. */
  function Free(ids: seq<Uuid>, busy: set<Uuid>): set<Uuid> {
    set id | id in ids && id !in busy
  }

  ghost predicate EmptyOf(files: map<FileName, Content>, id: Uuid) {
    forall n | n in files :: n.request != id
  }

  /** What the cleaner has read. */
  datatype Reading = Reading(rows: map<Uuid, ExportRow>, files: map<FileName, Content>, now: Time, clock: Time)

  /** The row of a request once its erasure is acknowledged. */
  function CleanedRow(row: ExportRow, now: Time, clock: Time): ExportRow {
    row.(erasureCleanedAt := Some(GreatestWith(Max(now, clock), row.erasureRequestedAt)), version := row.version + 1,
         artifactDeletedAt := if row.state == Completed && row.artifactDeletedAt.None?
                              then Some(GreatestWith(Max(now, clock), row.completedAt)) else row.artifactDeletedAt)
  }

  /** No digest is registered, no file is there, or the file has the digest. */
  predicate RegisteredMatches(hash: Content -> Digest, r: Reading, id: Uuid)
    requires id in r.rows
  {
    var row, name := r.rows[id], FinalName(id, r.rows[id].attempts);
    row.digest.None? || name !in r.files || hash(r.files[name]) == row.digest.value
  }

  /** Exactly the requests in `done` were acknowledged and emptied; nothing else moved. */
  ghost predicate Swept(r: Reading, rows: map<Uuid, ExportRow>, files: map<FileName, Content>, done: set<Uuid>) {
    var Reading(rows0, files0, now, clock) := r;
    && rows.Keys == rows0.Keys && done <= rows.Keys
    && (forall id | id in rows && id !in done :: rows[id] == rows0[id])
    && (forall id | id in done :: rows[id] == CleanedRow(rows0[id], now, clock) && EmptyOf(files, id))
    && (forall n | n in files0 && n.request !in done :: n in files)
    && (forall n | n in files :: n in files0 && files[n] == files0[n])
  }

  /** One pending request under its lock: empty it, then acknowledge.  None is the exception. */
  method CleanOne(hash: Content -> Digest, table: Table, staging: Staging, id: Uuid, now: Time, clock: Time)
    returns (done: Option<bool>)
    requires DatabaseInvariant(table.View()) && id in table.rows && Pending(table.rows[id])
    modifies table`rows, staging
    ensures DatabaseInvariant(table.View()) && DatabaseAdvances(old(table.View()), table.View())
    ensures done.None? ==> table.View() == old(table.View()) && staging.files == old(staging.files)
    ensures var r := Reading(old(table.rows), old(staging.files), now, clock);
            && (done.Some? <==> RegisteredMatches(hash, r, id))
            && (done.Some? ==> done.value && Swept(r, table.rows, staging.files, {id}))
  {
    var row := table.rows[id];
    assert RowInvariant(row);
    var ok := staging.EraseRequestFiles(hash, id, row.attempts, row.digest);
    if !ok {
      Reflexive(table.View());
      return None;
    }
    MarkCleanedKeeps(table.View(), id, row.version, now, clock);
    var marked := table.Acknowledge(id, row.version, now, clock);
    done := Some(marked);
  }

  /**
   `_cleanup_erased` with no other process between its statements: it skips the requests whose
   lock is taken, empties and acknowledges the others, and counts what it acknowledged.  At a
   registered artifact that does not match it stops, having done exactly the part before.
   */
  method CleanupErased(hash: Content -> Digest, table: Table, staging: Staging, ids: seq<Uuid>, busy: set<Uuid>,
                       now: Time, clock: Time)
    returns (removed: Option<nat>)
    requires DatabaseInvariant(table.View())
    requires forall id | id in ids :: id in table.rows && Pending(table.rows[id])
    requires forall i, j | 0 <= i < j < |ids| :: ids[i] != ids[j]
    modifies table`rows, staging
    ensures DatabaseInvariant(table.View()) && DatabaseAdvances(old(table.View()), table.View())
    ensures var r := Reading(old(table.rows), old(staging.files), now, clock);
            && (removed.Some? <==> forall id | id in Free(ids, busy) :: RegisteredMatches(hash, r, id))
            && (removed.Some? ==>
                  removed.value == |Free(ids, busy)| && Swept(r, table.rows, staging.files, Free(ids, busy)))
            && (removed.None? ==>
                  exists k | 0 <= k < |ids| ::
                    && ids[k] !in busy && !RegisteredMatches(hash, r, ids[k])
                    && Swept(r, table.rows, staging.files, Free(ids[..k], busy)))
  {
    hide DatabaseInvariant, DatabaseAdvances, Swept, RegisteredMatches;
    ghost var r := Reading(table.rows, staging.files, now, clock);
    var count := 0;
    Reflexive(table.View());
    SweptNothing(r);
    for i := 0 to |ids|
      invariant DatabaseInvariant(table.View()) && DatabaseAdvances(old(table.View()), table.View())
      invariant count == |Free(ids[..i], busy)|
      invariant Swept(r, table.rows, staging.files, Free(ids[..i], busy))
      invariant forall id | id in Free(ids[..i], busy) :: RegisteredMatches(hash, r, id)
    {
      FreeGrows(ids, busy, i);
      if ids[i] !in busy {
        ghost var before := table.View();
        ghost var mid := Reading(table.rows, staging.files, now, clock);
        SweptElsewhere(hash, r, mid, Free(ids[..i], busy), ids[i]);
        var done := CleanOne(hash, table, staging, ids[i], now, clock);
        AdvancesTransitive(old(table.View()), before, table.View());
        if done.None? {
          assert ids[i] in Free(ids, busy);
          return None;
        }
        SweptOneMore(r, mid, table.rows, staging.files, Free(ids[..i], busy), ids[i]);
        count := count + 1;
      }
    }
    assert ids[..|ids|] == ids;
    removed := Some(count);
  }

  lemma FreeGrows(ids: seq<Uuid>, busy: set<Uuid>, i: nat)
    requires i < |ids| && (forall j, k | 0 <= j < k < |ids| :: ids[j] != ids[k])
    ensures ids[i] !in Free(ids[..i], busy)
    ensures Free(ids[..i + 1], busy) == Free(ids[..i], busy) + (if ids[i] in busy then {} else {ids[i]})
  {
  }

  lemma SweptNothing(r: Reading)
    ensures Swept(r, r.rows, r.files, {})
  {
  }

  /** A request not yet reached is found as it was read. */
  lemma SweptElsewhere(hash: Content -> Digest, r: Reading, mid: Reading, done: set<Uuid>, id: Uuid)
    requires Swept(r, mid.rows, mid.files, done) && id in r.rows && id !in done
    ensures id in mid.rows && mid.rows[id] == r.rows[id]
    ensures RegisteredMatches(hash, mid, id) == RegisteredMatches(hash, r, id)
  {
    assert FinalName(id, r.rows[id].attempts).request == id;
  }

  lemma SweptOneMore(r: Reading, mid: Reading, rows: map<Uuid, ExportRow>, files: map<FileName, Content>,
                     done: set<Uuid>, id: Uuid)
    requires Swept(r, mid.rows, mid.files, done) && id !in done && mid.now == r.now && mid.clock == r.clock
    requires Swept(mid, rows, files, {id})
    ensures Swept(r, rows, files, done + {id})
  {
    forall k | k in done + {id} ensures rows[k] == CleanedRow(r.rows[k], r.now, r.clock) && EmptyOf(files, k) {
      if k in done {
        assert EmptyOf(mid.files, k);
      }
    }
  }

  lemma Reflexive(db: Database)
    ensures DatabaseAdvances(db, db)
  {
  }
}
