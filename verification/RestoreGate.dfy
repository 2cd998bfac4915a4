/**
 The restore gate of one deployment: closing it starts a new generation, staging binds the
 independent ledger to that generation, cleanup owners then work, and opening demands their
 evidence.  Each operation is one transaction, given as a function on the database.

 Rows that prove something carry the event number at which they were written, so that a
 statement can say *when* evidence was recorded; the tables keep wall-clock columns instead.
 */
module RestoreGate {
  import opened Basics

  type Bytes = seq<Byte>

  datatype Scope = Account | Contact | Memory

  /** A ledger entry after its fields were checked; see `Ledger`. */
  datatype Entry = Entry(request: Uuid, scope: Scope, target: Bytes, key: Bytes, policy: nat, completedAt: Time)

  datatype GateState = Closed | Validating | Open

  datatype Gate = Gate(account: Uuid, state: GateState, generation: nat, version: nat,
                       replayVerified: bool, reconciled: bool, credentialsVerified: bool, sessionVerified: bool,
                       closedAt: nat)

  datatype RequestState = Requested | Quiescing | Redacting | MediaCleanup | DerivedCleanup | Completed | Failed

  datatype Request = Request(account: Uuid, scope: Scope, memory: Option<Uuid>, contact: Option<Uuid>,
                             key: Bytes, policy: nat, state: RequestState, completedAt: Option<Time>)

  datatype ContactRow = ContactRow(id: Uuid, account: Uuid)

  datatype MemoryRow = MemoryRow(id: Uuid, account: Uuid, scopeErased: bool, forgotten: bool)

  datatype Database = Database(
    gate: Option<Gate>,
    contacts: seq<ContactRow>,
    memories: seq<MemoryRow>,
    requests: map<Uuid, Request>,
    mediaChecks: map<Uuid, nat>,
    progress: set<Uuid>,
    replays: map<(nat, Uuid), nat>,
    ledger: map<Uuid, Entry>)

  datatype Error =
    | IdentityConflict
    | NotValidating
    | SchemaRevisionInvalid
    | TargetIdentityInvalid
    | TargetMissing
    | RequestIdentityConflict
    | ErasureIncomplete
    | IntegrityInvalid
    | ReconciliationRequired
    | CredentialsInvalid
    | SessionInvalid

  /** The keyed hash of an identifier under the deployment's scope secret. */
  type Mac = Uuid -> Bytes

  // ---------------------------------------------------------------------------
  // Closing
  // ---------------------------------------------------------------------------

  /** `_reset_gate`. */
  function CloseGate(db: Database, account: Uuid, event: nat): Result<Database, Error> {
    if db.gate.Some? && db.gate.value.account != account then
      Err(IdentityConflict)
    else
      var (generation, version) :=
        if db.gate.Some? then (db.gate.value.generation + 1, db.gate.value.version + 1) else (1, 1);
      Ok(db.(gate := Some(Gate(account, Validating, generation, version, false, false, false, false, event))))
  }

  // ---------------------------------------------------------------------------
  // Staging
  // ---------------------------------------------------------------------------

  function FindContact(mac: Mac, contacts: seq<ContactRow>, account: Uuid, target: Bytes): Option<Uuid> {
    if contacts == [] then None
    else if contacts[0].account == account && mac(contacts[0].id) == target then Some(contacts[0].id)
    else FindContact(mac, contacts[1..], account, target)
  }

  /** `_scope_target`: the account itself, or the contact whose hash the entry names. */
  function ScopeTarget(mac: Mac, db: Database, account: Uuid, e: Entry): Result<Option<Uuid>, Error> {
    if e.scope == Account then
      if mac(account) == e.target then Ok(Some(account)) else Err(TargetIdentityInvalid)
    else
      Ok(FindContact(mac, db.contacts, account, e.target))
  }

  /** The last row wins, as in a dictionary built from the rows in order. */
  function FindMemory(mac: Mac, memories: seq<MemoryRow>, account: Uuid, target: Bytes): (found: Option<nat>)
    ensures found.Some? ==> found.value < |memories|
  {
    if memories == [] then None
    else
      var last := |memories| - 1;
      if memories[last].account == account && mac(memories[last].id) == target then Some(last)
      else FindMemory(mac, memories[..last], account, target)
  }

  /** One entry of `_replay_memory_entries`; a memory that the snapshot lacks has nothing to erase. */
  function ReplayMemory(mac: Mac, db: Database, account: Uuid, e: Entry): Database {
    match FindMemory(mac, db.memories, account, e.target)
    case None => db
    case Some(i) =>
      var row := db.memories[i];
      var request :=
        if e.request in db.requests then
          db.requests[e.request].(state := Completed, completedAt := Some(e.completedAt))
        else
          Request(account, Memory, Some(row.id), None, e.key, e.policy, Completed, Some(e.completedAt));
      db.(memories := if row.scopeErased then db.memories else db.memories[i := row.(forgotten := true)],
          requests := db.requests[e.request := request],
          ledger := if e.request in db.ledger then db.ledger else db.ledger[e.request := e])
  }

  predicate SameIdentity(r: Request, account: Uuid, contact: Option<Uuid>, e: Entry) {
    r.account == account && r.scope == e.scope && r.contact == contact && r.key == e.key && r.policy == e.policy
  }

  /** One entry of `_stage_scope_entries`. */
  function StageEntry(mac: Mac, db: Database, account: Uuid, generation: nat, e: Entry, event: nat)
    : Result<Database, Error>
  {
    if e.scope == Memory then Ok(ReplayMemory(mac, db, account, e))
    else
      match ScopeTarget(mac, db, account, e)
      case Err(error) => Err(error)
      case Ok(None) => Err(TargetMissing)
      case Ok(Some(target)) =>
        var contact := if e.scope == Contact then Some(target) else None;
        if e.request in db.requests && !SameIdentity(db.requests[e.request], account, contact, e) then
          Err(RequestIdentityConflict)
        else
          var row := if e.request in db.requests then db.requests[e.request]
                     else Request(account, e.scope, None, contact, e.key, e.policy, Requested, None);
          var bound := db.(requests := db.requests[e.request := row]);
          if (generation, e.request) in db.replays then Ok(bound)
          else
            Ok(bound.(
               replays := db.replays[(generation, e.request) := event],
               mediaChecks := db.mediaChecks - {e.request},
               progress := db.progress - {e.request},
               requests := bound.requests[e.request := row.(state := Requested, completedAt := None)],
               ledger := if e.request in db.ledger then db.ledger else db.ledger[e.request := e]))
  }

  function StageEntries(mac: Mac, db: Database, account: Uuid, generation: nat, entries: seq<Entry>, event: nat)
    : Result<Database, Error>
  {
    if entries == [] then Ok(db)
    else
      match StageEntries(mac, db, account, generation, entries[..|entries| - 1], event)
      case Err(error) => Err(error)
      case Ok(staged) => StageEntry(mac, staged, account, generation, entries[|entries| - 1], event)
  }

  predicate ValidatingFor(db: Database, account: Uuid) {
    db.gate.Some? && db.gate.value.account == account && db.gate.value.state == Validating
  }

  /** `stage_erasure_replay`, given the checked ledger. */
  function Stage(mac: Mac, db: Database, account: Uuid, revisionMatches: bool, entries: seq<Entry>, event: nat)
    : Result<Database, Error>
  {
    if !ValidatingFor(db, account) then Err(NotValidating)
    else if !revisionMatches then Err(SchemaRevisionInvalid)
    else StageEntries(mac, db, account, db.gate.value.generation, entries, event)
  }

  // ---------------------------------------------------------------------------
  // Opening
  // ---------------------------------------------------------------------------

  /** The join in `_verify_scope_entries`: completed, checked, and replayed in the gate's generation. */
  predicate Proven(db: Database, account: Uuid, target: Uuid, e: Entry) {
    && e.request in db.requests
    && e.request in db.mediaChecks
    && db.gate.Some? && db.gate.value.state == Validating && db.gate.value.account == account
    && (db.gate.value.generation, e.request) in db.replays
    && db.requests[e.request].state == Completed
    && SameIdentity(db.requests[e.request], account, if e.scope == Contact then Some(target) else None, e)
  }

  function VerifyEntry(mac: Mac, db: Database, account: Uuid, e: Entry): Result<(), Error> {
    match ScopeTarget(mac, db, account, e)
    case Err(error) => Err(error)
    case Ok(None) => Err(ErasureIncomplete)
    case Ok(Some(target)) => if Proven(db, account, target, e) then Ok(()) else Err(ErasureIncomplete)
  }

  function VerifyEntries(mac: Mac, db: Database, account: Uuid, entries: seq<Entry>): Result<(), Error> {
    if entries == [] then Ok(())
    else
      match VerifyEntries(mac, db, account, entries[..|entries| - 1])
      case Err(error) => Err(error)
      case Ok(_) => VerifyEntry(mac, db, account, entries[|entries| - 1])
  }

  function ReplayMemories(mac: Mac, db: Database, account: Uuid, entries: seq<Entry>): Database {
    if entries == [] then db
    else ReplayMemory(mac, ReplayMemories(mac, db, account, entries[..|entries| - 1]), account, entries[|entries| - 1])
  }

  /** The entries one handler receives. */
  function OfScope(entries: seq<Entry>, scope: Scope): seq<Entry> {
    if entries == [] then []
    else
      var last := entries[|entries| - 1];
      OfScope(entries[..|entries| - 1], scope) + if last.scope == scope then [last] else []
  }

  predicate AllCompleted(db: Database, account: Uuid) {
    forall r | r in db.requests && db.requests[r].account == account :: db.requests[r].state == Completed
  }

  /** What the checks besides erasure said; they read tables that are not part of this model. */
  datatype Checks = Checks(session: bool, revisionMatches: bool, integrity: bool, reconciled: bool, credentials: bool)

  /** `verify_and_open`: accounts, then contacts, then memories, then the remaining checks. */
  function VerifyAndOpen(mac: Mac, db: Database, account: Uuid, entries: seq<Entry>, checks: Checks)
    : Result<Database, Error>
  {
    if !checks.session then Err(SessionInvalid)
    else if !ValidatingFor(db, account) then Err(NotValidating)
    else if !checks.revisionMatches then Err(SchemaRevisionInvalid)
    else
      match VerifyEntries(mac, db, account, OfScope(entries, Account))
      case Err(error) => Err(error)
      case Ok(_) =>
        match VerifyEntries(mac, db, account, OfScope(entries, Contact))
        case Err(error) => Err(error)
        case Ok(_) =>
          var replayed := ReplayMemories(mac, db, account, OfScope(entries, Memory));
          if !checks.integrity then Err(IntegrityInvalid)
          else if !AllCompleted(replayed, account) then Err(ErasureIncomplete)
          else if !checks.reconciled then Err(ReconciliationRequired)
          else if !checks.credentials then Err(CredentialsInvalid)
          else
            Ok(replayed.(gate := Some(db.gate.value.(
               state := Open, replayVerified := true, reconciled := true,
               credentialsVerified := true, sessionVerified := true, version := db.gate.value.version + 1))))
  }
}
