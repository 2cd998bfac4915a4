/**
 Media objects and what keeps them: the upload and reference guards, and the closure that
 decides which objects of an account are still live.
 */
module MediaObjects {
  import opened Basics
  import P = PayloadGuard

  datatype Status = Pending | Ready | Rejected | DeletePending | Deleted | Failed

  /** `born` counts insertions; it is not a column and only orders the rows. */
  datatype Object = Object(account: Uuid, parent: Option<Uuid>, source: Option<Uuid>, status: Status,
                           storageKey: Option<nat>, sha256: Option<nat>, deleteRequested: Option<Time>,
                           rest: nat, born: nat)

  type Objects = map<Uuid, Object>

  datatype Error =
    | OwnerImmutable | ErasureImmutable | WriteBlocked | FileIdentityImmutable | SourceMismatch | ReferenceBlocked

  // ---------------------------------------------------------------------------
  // The upload guard
  // ---------------------------------------------------------------------------

  function AccountRow(account: Uuid): P.Row {
    map[P.AccountId := P.Id(account)]
  }

  predicate SourceBlocked(db: P.Database, account: Uuid, source: Uuid) {
    P.Blocked(db, P.MessageRevisions,
              P.Lookup(db, P.MessageRevisions, AccountRow(account)[P.SourceId := P.Id(source)], P.SourceId))
  }

  /** A parent or referred object that takes no new dependants. */
  predicate Closing(o: Object) {
    o.deleteRequested.Some? || o.status in {DeletePending, Deleted, Failed}
  }

  predicate ParentMissing(objects: Objects, account: Uuid, parent: Uuid) {
    parent !in objects || objects[parent].account != account || Closing(objects[parent])
  }

  /** A legacy failure whose deletion is requested becomes claimable. */
  function Normalized(previous: Object, next: Object): Object {
    if previous.status == Failed && previous.deleteRequested.None? && next.deleteRequested.Some?
        && next.status == Failed
    then next.(status := Rejected)
    else next
  }

  predicate FileMoved(previous: Object, next: Object) {
    && previous.storageKey.Some?
    && (next.storageKey != previous.storageKey || next.sha256 != previous.sha256)
    && !(next.status == Deleted && next.storageKey.None? && next.sha256.None?)
  }

  function UpdateError(previous: Object, next: Object): Option<Error> {
    if (next.account, next.parent, next.source) != (previous.account, previous.parent, previous.source) then
      Some(OwnerImmutable)
    else if previous.deleteRequested.Some? && next.deleteRequested != previous.deleteRequested then
      Some(ErasureImmutable)
    else if previous.status == Deleted && next != previous then Some(ErasureImmutable)
    else if previous.deleteRequested.Some? && next.status in {Pending, Ready} && next.status != previous.status then
      Some(WriteBlocked)
    else if FileMoved(previous, next) then Some(FileIdentityImmutable)
    else None
  }

  function EntryError(db: P.Database, objects: Objects, next: Object): Option<Error> {
    if P.Blocked(db, P.OtherTable(0), Some(AccountRow(next.account))) then Some(WriteBlocked)
    else if next.source.Some? && SourceBlocked(db, next.account, next.source.value) then Some(WriteBlocked)
    else if next.parent.Some? && ParentMissing(objects, next.account, next.parent.value) then Some(WriteBlocked)
    else if next.parent.Some? && objects[next.parent.value].source != next.source then Some(SourceMismatch)
    else None
  }

  predicate Enters(previous: Option<Object>, next: Object) {
    previous.None? || (next.status == Ready && previous.value.status != Ready)
  }

  /** What `enforce_media_upload_erasure` makes of a write. */
  function Guard(db: P.Database, objects: Objects, previous: Option<Object>, proposed: Object): Result<Object, Error> {
    var next := if previous.Some? then Normalized(previous.value, proposed) else proposed;
    var updateError := if previous.Some? then UpdateError(previous.value, next) else None;
    if updateError.Some? then Err(updateError.value)
    else if Enters(previous, next) && EntryError(db, objects, next).Some? then Err(EntryError(db, objects, next).value)
    else Ok(next)
  }

  // ---------------------------------------------------------------------------
  // The tables
  // ---------------------------------------------------------------------------

  /** A referring row and the object it refers to. */
  datatype Link = Link(row: nat, item: Uuid)

  datatype State = State(objects: Objects, next: nat, links: set<Link>)

  /** Writes to the tables; each finds some state of the erasure fences. */
  datatype Step =
    | Insert(db: P.Database, id: Uuid, item: Object)
    | Update(db: P.Database, id: Uuid, item: Object)
    | Refer(db: P.Database, table: P.Table, account: Uuid, row: nat, previous: Option<Uuid>, data: P.Row, target: Uuid)
    | Unlink(row: nat)

  /** `enforce_media_reference_erasure` for a row that names an object. */
  function ReferenceError(db: P.Database, objects: Objects, table: P.Table, account: Uuid, previous: Option<Uuid>,
                          data: P.Row, target: Uuid): Option<Error>
  {
    if previous == Some(target) then None
    else if P.Blocked(db, table, Some(data)) then Some(ReferenceBlocked)
    else if target !in objects || objects[target].account != account || Closing(objects[target]) then
      Some(ReferenceBlocked)
    else None
  }

  predicate Refers(links: set<Link>, row: nat, item: Uuid) {
    Link(row, item) in links
  }

  /** A rejected write changes nothing; `previous` is what the referring row held. */
  function Apply(s: State, step: Step): State {
    match step
    case Insert(db, id, item) =>
      if id in s.objects then s
      else
        (match Guard(db, s.objects, None, item)
         case Err(_) => s
         case Ok(stored) => s.(objects := s.objects[id := stored.(born := s.next)], next := s.next + 1))
    case Update(db, id, item) =>
      if id !in s.objects then s
      else
        (match Guard(db, s.objects, Some(s.objects[id]), item.(born := s.objects[id].born))
         case Err(_) => s
         case Ok(stored) => s.(objects := s.objects[id := stored]))
    case Refer(db, table, account, row, previous, data, target) =>
      if (previous.Some? && !Refers(s.links, row, previous.value))
         || ReferenceError(db, s.objects, table, account, previous, data, target).Some? then s
      else
        s.(links := (set l | l in s.links && l.row != row) + {Link(row, target)})
    case Unlink(row) => s.(links := set l | l in s.links && l.row != row)
  }

  function Run(s: State, steps: seq<Step>): State {
    if steps == [] then s else Apply(Run(s, steps[..|steps| - 1]), steps[|steps| - 1])
  }

  const EMPTY: State := State(map[], 0, {})

  class Media {
    var objects: Objects
    var next: nat
    var links: set<Link>

    ghost function Contents(): State
      reads this
    {
      State(objects, next, links)
    }

    constructor ()
      ensures Contents() == EMPTY
    {
      objects, next, links := map[], 0, {};
    }

    /** The trigger on inserts and updates: checks in order, rewriting the status where the source does. */
    method Check(db: P.Database, previous: Option<Object>, proposed: Object) returns (verdict: Result<Object, Error>)
      ensures verdict == Guard(db, objects, previous, proposed)
      ensures verdict.Ok? && previous.Some? ==>
                && verdict.value.account == previous.value.account && verdict.value.parent == previous.value.parent
                && verdict.value.source == previous.value.source
      ensures verdict.Ok? && Enters(previous, verdict.value) && verdict.value.parent.Some? ==>
                var parent := verdict.value.parent.value;
                && parent in objects && objects[parent].account == verdict.value.account
                && !Closing(objects[parent]) && objects[parent].source == verdict.value.source
    {
      hide P.Blocked, SourceBlocked, Closing;
      var next := proposed;
      if previous.Some? {
        var before := previous.value;
        if before.status == Failed && before.deleteRequested.None? && next.deleteRequested.Some?
           && next.status == before.status {
          next := next.(status := Rejected);
        }
        if (next.account, next.parent, next.source) != (before.account, before.parent, before.source) {
          return Err(OwnerImmutable);
        }
        if before.deleteRequested.Some? && next.deleteRequested != before.deleteRequested {
          return Err(ErasureImmutable);
        }
        if before.status == Deleted && next != before {
          return Err(ErasureImmutable);
        }
        if before.deleteRequested.Some? && next.status in {Pending, Ready} && next.status != before.status {
          return Err(WriteBlocked);
        }
        if FileMoved(before, next) {
          return Err(FileIdentityImmutable);
        }
      }
      if previous.None? || (next.status == Ready && previous.value.status != Ready) {
        if P.Blocked(db, P.OtherTable(0), Some(AccountRow(next.account))) {
          return Err(WriteBlocked);
        }
        if next.source.Some? && SourceBlocked(db, next.account, next.source.value) {
          return Err(WriteBlocked);
        }
        if next.parent.Some? {
          var parent := next.parent.value;
          if parent !in objects || objects[parent].account != next.account || Closing(objects[parent]) {
            return Err(WriteBlocked);
          }
          if objects[parent].source != next.source {
            return Err(SourceMismatch);
          }
        }
      }
      verdict := Ok(next);
    }

    method InsertObject(db: P.Database, id: Uuid, item: Object) returns (ok: bool)
      modifies this
      ensures Contents() == Apply(old(Contents()), Insert(db, id, item))
      ensures ok <==> id !in old(objects) && id in objects
    {
      hide Guard;
      if id in objects {
        return false;
      }
      var verdict := Check(db, None, item);
      if verdict.Err? {
        return false;
      }
      objects, next := objects[id := verdict.value.(born := next)], next + 1;
      ok := true;
    }

    method UpdateObject(db: P.Database, id: Uuid, item: Object) returns (error: Option<Error>)
      requires id in objects
      modifies this
      ensures Contents() == Apply(old(Contents()), Update(db, id, item))
      ensures error.Some? ==> Contents() == old(Contents())
    {
      hide Guard;
      var verdict := Check(db, Some(objects[id]), item.(born := objects[id].born));
      if verdict.Err? {
        return Some(verdict.error);
      }
      objects := objects[id := verdict.value];
      error := None;
    }
  }
}
