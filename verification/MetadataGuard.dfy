/**
 The guard on private metadata: how a row's owner is resolved through routing columns and job
 payloads, when its scope is blocked, and what an insert or update is turned into.
 */
module MetadataGuard {
  import opened Basics
  import P = PayloadGuard

  // ---------------------------------------------------------------------------
  // Rows
  // ---------------------------------------------------------------------------

  datatype Kind =
    | ContactKind | ConversationKind | ControlKind | MessageKind | RevisionKind | MemoryKind | SummaryKind
    | ModelRunKind | TurnKind | DraftKind | CommandKind | RequestKind | JobKind | OtherKind(k: nat)

  /** States of jobs and of drafts that the guard names. */
  datatype StateName = Pending | Leased | RetryWait | Cancelled | Collecting | Generating | OtherState(k: nat)

  /** Job types, queues and topics that the guard names. */
  datatype Name = ReconcileErasure | WorkerQueue | JobAvailable | OtherName(k: nat)

  /** The keys of a payload that route it, and everything else in it. */
  datatype Routing = Routing(conversation: Option<Uuid>, contact: Option<Uuid>, turn: Option<Uuid>,
                             message: Option<Uuid>, request: Option<Uuid>, job: Option<Uuid>,
                             generation: Option<nat>, rest: nat)

  datatype Value =
    | Null | EmptyObject | False
    | Id(id: Uuid)
    | KindIs(kind: Kind)
    | StateIs(state: StateName)
    | Word(name: Name)
    | Json(routing: Routing)
    | Number(n: nat)
    | At(time: Time)
    | Data(d: nat)

  datatype Column =
    | RowId | AccountId | ContactId | ConversationId | PeerId | MessageId | MessageRevisionId | ModelRunId
    | AggregateType | AggregateId | TargetType | TargetId | JobType
    | AccountPeerId | QueueName | Topic | AggregateVersion | DraftId
    | MetadataErasedAt | ScopeErasedAt
    | Payload | State | LeaseOwner | LeaseExpiresAt | CompletedAt | Version | FencingToken | LastErrorCode | PublishedAt
    | Private(p: nat)
    | Plain(k: nat)

  type Row = map<Column, Value>

  function Get(row: Row, c: Column): Value {
    if c in row then row[c] else Null
  }

  predicate Same(a: Row, b: Row, c: Column) {
    Get(a, c) == Get(b, c)
  }

  datatype Table =
    | Accounts | AccountPeers | Contacts | Conversations | Messages | MessageRevisions | MessageMedia
    | MessageReactions | MessageEvents | Memories | Summaries | ModelRuns | ModelRunAttempts | Turns
    | CopilotDrafts | EditSessions | ControlCommands | ErasureRequests | BackgroundJobs | Outbox | AuditLog
    | ModeHistory | ControlHistory | Retained(n: nat)

  type Rows = map<(Table, Uuid), Row>

  /** `fence` holds account states, conversation contacts, deletions in progress and erasure requests. */
  datatype Database = Database(fence: P.Database, rows: Rows)

  // ---------------------------------------------------------------------------
  // Owners
  // ---------------------------------------------------------------------------

  datatype Owner = Owner(account: Value, contact: Value, conversation: Value, erased: bool)

  function Own(row: Option<Row>): Owner {
    if row.None? then Owner(Null, Null, Null, false)
    else
      var r := row.value;
      Owner(Get(r, AccountId), Get(r, ContactId), Get(r, ConversationId),
            Get(r, MetadataErasedAt) != Null || Get(r, ScopeErasedAt) != Null)
  }

  function KindTable(k: Kind): Option<Table> {
    match k
    case ContactKind => Some(Contacts)
    case ConversationKind | ControlKind => Some(Conversations)
    case MessageKind => Some(Messages)
    case RevisionKind => Some(MessageRevisions)
    case MemoryKind => Some(Memories)
    case SummaryKind => Some(Summaries)
    case ModelRunKind => Some(ModelRuns)
    case TurnKind => Some(Turns)
    case DraftKind => Some(CopilotDrafts)
    case CommandKind => Some(ControlCommands)
    case RequestKind => Some(ErasureRequests)
    case JobKind => Some(BackgroundJobs)
    case OtherKind(_) => None
  }

  /** Every lookup goes to a table of lower rank, so resolution ends. */
  function Rank(t: Table): nat {
    match t
    case Outbox | AuditLog => 3
    case BackgroundJobs | MessageMedia => 2
    case MessageRevisions | MessageReactions | ModelRunAttempts => 1
    case _ => 0
  }

  datatype Route = Direct | To(table: Table, id: Value)

  function RouteOfPayload(payload: Value): Route {
    if !payload.Json? then Direct
    else
      var r := payload.routing;
      if r.conversation.Some? then To(Conversations, Id(r.conversation.value))
      else if r.contact.Some? then To(Contacts, Id(r.contact.value))
      else if r.turn.Some? then To(Turns, Id(r.turn.value))
      else if r.message.Some? then To(Messages, Id(r.message.value))
      else if r.request.Some? then To(ErasureRequests, Id(r.request.value))
      else Direct
  }

  function Coalesce(a: Value, b: Value): Value {
    if a == Null then b else a
  }

  /** Where the owner of a row of this table is found. */
  function RouteOf(t: Table, row: Row): Route {
    if t.MessageMedia? then To(MessageRevisions, Get(row, MessageRevisionId))
    else if t.MessageRevisions? || t.MessageReactions? then To(Messages, Get(row, MessageId))
    else if t.BackgroundJobs? then RouteOfPayload(Get(row, Payload))
    else if t.Outbox? || t.AuditLog? then
      var kind := Coalesce(Get(row, AggregateType), Get(row, TargetType));
      var id := Coalesce(Get(row, AggregateId), Get(row, TargetId));
      if kind.KindIs? && KindTable(kind.kind).Some? then To(KindTable(kind.kind).value, id) else Direct
    else Direct
  }

  function Find(rows: Rows, t: Table, id: Value): Option<Row> {
    if id.Id? && (t, id.id) in rows then Some(rows[(t, id.id)]) else None
  }

  /** The contact whose peer this is, if any. */
  predicate PeerContact(rows: Rows, peer: Row, contact: Uuid) {
    && (Contacts, contact) in rows
    && Get(rows[(Contacts, contact)], AccountId) == Get(peer, AccountId)
    && Get(peer, AccountId) != Null
    && Find(rows, AccountPeers, Get(rows[(Contacts, contact)], AccountPeerId)).Some?
    && var p := Find(rows, AccountPeers, Get(rows[(Contacts, contact)], AccountPeerId)).value;
       && Same(p, peer, AccountId)
       && ((Get(p, RowId) == Get(peer, RowId) && Get(peer, RowId) != Null)
           || (Get(p, PeerId) == Get(peer, PeerId) && Get(peer, PeerId) != Null))
  }

  function ContactsOfPeer(rows: Rows, peer: Row): set<Uuid> {
    set k | k in rows && k.0 == Contacts && PeerContact(rows, peer, k.1) :: k.1
  }

  /** One of them; the tables' unique constraints leave at most one. */
  function ContactOfPeer(rows: Rows, peer: Row): Value {
    var found := ContactsOfPeer(rows, peer);
    if found == {} then Null else Id(Least(found))
  }

  function Least(ids: set<Uuid>): (least: Uuid)
    requires ids != {}
    ensures least in ids && forall i | i in ids :: least <= i
  {
    assert exists i :: i in ids && forall j | j in ids :: i <= j by {
      var start :| start in ids;
      LeastExists(ids, start);
    }
    var i :| i in ids && forall j | j in ids :: i <= j;
    i
  }

  lemma {:induction false} LeastExists(ids: set<Uuid>, start: Uuid)
    requires start in ids
    ensures exists i :: i in ids && forall j | j in ids :: i <= j
    decreases start
  {
    if j :| j in ids && j < start {
      LeastExists(ids, j);
    }
  }

  /** `scope_metadata_owner` */
  function OwnerOf(rows: Rows, t: Table, row: Option<Row>): Owner
    decreases Rank(t)
  {
    var own := Own(row);
    if row.None? then own
    else if t.Accounts? then own.(account := Get(row.value, RowId))
    else if t.Contacts? then own.(contact := Get(row.value, RowId))
    else if t.AccountPeers? then own.(contact := ContactOfPeer(rows, row.value))
    else if t.ModelRunAttempts? then Own(Find(rows, ModelRuns, Get(row.value, ModelRunId)))
    else
      match RouteOf(t, row.value)
      case Direct => own
      case To(target, id) =>
        var parent := Find(rows, target, id);
        if parent.Some? && Get(row.value, AccountId) != Null && Same(parent.value, row.value, AccountId)
           && Rank(target) < Rank(t)
        then OwnerOf(rows, target, parent)
        else own
  }

  /** The rank condition never fails. */
  lemma RoutesGoDown(t: Table, row: Row)
    ensures RouteOf(t, row).To? ==> Rank(RouteOf(t, row).table) < Rank(t)
  {
  }

  /** `scope_metadata_cleanup_notice` for a job: the reconciliation of its own erasure request. */
  predicate JobNotice(rows: Rows, row: Row) {
    && Get(row, JobType) == Word(ReconcileErasure) && Get(row, QueueName) == Word(WorkerQueue)
    && Get(row, RowId).Id?
    && Get(row, Payload)
       == Json(Routing(None, None, None, None, Some(Get(row, RowId).id), None, None, 0))
    && Find(rows, ErasureRequests, Get(row, RowId)).Some?
    && Same(Find(rows, ErasureRequests, Get(row, RowId)).value, row, AccountId)
    && Get(row, AccountId) != Null
  }

  predicate CleanupNotice(rows: Rows, t: Table, row: Row) {
    match t
    case BackgroundJobs => JobNotice(rows, row)
    case Outbox =>
      var job := Find(rows, BackgroundJobs, Get(row, AggregateId));
      && Get(row, AggregateType) == KindIs(JobKind) && Get(row, Topic) == Word(JobAvailable)
      && job.Some? && Same(job.value, row, AccountId) && Get(row, AccountId) != Null
      && Get(job.value, RowId).Id? && Get(row, AggregateVersion).Number?
      && Get(row, Payload) == Json(Routing(None, None, None, None, None, Some(Get(job.value, RowId).id),
                                           Some(Get(row, AggregateVersion).n), 0))
      && JobNotice(rows, job.value)
    case _ => false
  }

  function Reference(v: Value): P.Value {
    if v.Id? then P.Id(v.id) else if v == Null then P.Null else P.Data(0)
  }

  /** The owner as the row that the scope predicate is asked about. */
  function OwnerRow(o: Owner): P.Row {
    map[P.AccountId := Reference(o.account), P.ContactId := Reference(o.contact),
        P.ConversationId := Reference(o.conversation),
        P.ScopeErasedAt := if o.erased then P.Data(0) else P.Null]
  }

  const NO_TABLE: P.Table := P.OtherTable(0)

  /** `scope_metadata_blocked` */
  predicate Blocked(db: Database, t: Table, row: Row) {
    && !CleanupNotice(db.rows, t, row)
    && var owner := OwnerOf(db.rows, t, Some(row));
       owner.account != Null && P.Blocked(db.fence, NO_TABLE, Some(OwnerRow(owner)))
  }

  /** An owner carries no references, so only its own fields can block. */
  lemma OwnerBlocks(db: P.Database, o: Owner)
    ensures P.Blocked(db, NO_TABLE, Some(OwnerRow(o))) == P.Stops(db, Some(OwnerRow(o)))
  {
    hide P.Stops;
    var row := OwnerRow(o);
    assert forall r: P.Reference :: P.Get(row, P.Ref(r)) == P.Null;
    assert P.Get(row, P.SourceType) == P.Null;
  }

  // ---------------------------------------------------------------------------
  // The guard
  // ---------------------------------------------------------------------------

  datatype Rule = Rule(nulls: seq<Column>, objects: seq<Column>, falses: seq<Column>)

  type Rules = map<Table, Rule>

  function Columns(rule: Rule): seq<Column> {
    rule.nulls + rule.objects + rule.falses
  }

  function EmptyValue(rule: Rule, c: Column): Value {
    if c in rule.nulls then Null else if c in rule.objects then EmptyObject else False
  }

  /** `jsonb_populate_record(NEW, empty_values)` */
  function Emptied(rule: Rule, row: Row): Row {
    row + map c | c in Columns(rule) :: EmptyValue(rule, c)
  }

  predicate Erased(row: Row) {
    Get(row, MetadataErasedAt) != Null
  }

  predicate Runnable(row: Row) {
    Get(row, State) in {StateIs(Pending), StateIs(Leased), StateIs(RetryWait)}
  }

  datatype Error =
    | OwnerImmutable | MetadataImmutable | JobCancelled | OutboxCancelled | ScopeRequired | RedactionOnly
    | RequiresExistingRow | WriteBlocked

  datatype Verdict = Store(row: Row) | Reject(error: Error)

  const OWNERS: seq<Column> :=
    [RowId, AccountId, ContactId, ConversationId, PeerId, MessageId, MessageRevisionId, ModelRunId, AggregateType,
     AggregateId, TargetType, TargetId, JobType]

  /** A draft that starts generating is bound to its model run, once. */
  predicate BindsDraft(db: Database, t: Table, previous: Row, next: Row) {
    && t == CopilotDrafts && Get(previous, ModelRunId) == Null && !Erased(previous)
    && Get(previous, State) == StateIs(Collecting) && Get(next, State) == StateIs(Generating)
    && !Blocked(db, t, next)
  }

  predicate OwnerChanged(db: Database, t: Table, previous: Row, next: Row, owners: seq<Column>) {
    exists c | c in owners :: !Same(previous, next, c) && !(c == ModelRunId && BindsDraft(db, t, previous, next))
  }

  predicate AnyChanged(previous: Row, next: Row, columns: seq<Column>) {
    exists c | c in columns :: !Same(previous, next, c)
  }

  predicate Introduces(rule: Rule, previous: Row, next: Row) {
    exists c | c in Columns(rule) :: !Same(previous, next, c) && Get(next, c) != EmptyValue(rule, c)
  }

  /** Tables whose running requests still report an outcome. */
  predicate ReportsLate(t: Table) {
    t.ModelRuns? || t.ModelRunAttempts? || t.ControlCommands?
  }

  predicate AppendOnly(t: Table) {
    t.AuditLog? || t.MessageEvents? || t.ModeHistory? || t.ControlHistory? || ReportsLate(t) || t.ErasureRequests?
  }

  /** What an erasing update may touch beside the guarded columns. */
  function Mutable(t: Table, rule: Rule): seq<Column> {
    Columns(rule) + [MetadataErasedAt] +
    match t
    case BackgroundJobs => [State, LeaseOwner, LeaseExpiresAt, CompletedAt, Version, FencingToken, LastErrorCode]
    case Outbox => [PublishedAt, LastErrorCode]
    case _ => []
  }

  predicate OnlyRedacts(t: Table, rule: Rule, previous: Row, next: Row) {
    forall c | c in previous.Keys + next.Keys && c !in Mutable(t, rule) :: Same(previous, next, c)
  }

  function UpdateErased(t: Table, rule: Rule, previous: Row, proposed: Row): Verdict {
    if !Same(previous, proposed, MetadataErasedAt) then Reject(MetadataImmutable)
    else
      var next := if ReportsLate(t) then Emptied(rule, proposed) else proposed;
      if AnyChanged(previous, next, Columns(rule)) then Reject(MetadataImmutable)
      else if t == BackgroundJobs && Runnable(next) then Reject(JobCancelled)
      else if t == Outbox && Get(next, PublishedAt) == Null then Reject(OutboxCancelled)
      else Store(next)
  }

  function UpdateErasing(db: Database, t: Table, rule: Rule, previous: Row, next: Row): Verdict {
    if !Blocked(db, t, previous) then Reject(ScopeRequired)
    else if !OnlyRedacts(t, rule, previous, next) then Reject(RedactionOnly)
    else Store(next)
  }

  /** The part that inserts and updates of live rows share. */
  function Admit(db: Database, t: Table, rule: Rule, previous: Option<Row>, next: Row, now: Time): Verdict {
    if t == BackgroundJobs && Runnable(next) && Blocked(db, t, next) then Reject(WriteBlocked)
    else if previous.Some? && !Introduces(rule, previous.value, next) then Store(next)
    else if !(Blocked(db, t, next) || (previous.Some? && Blocked(db, t, previous.value))) then Store(next)
    else if AppendOnly(t) then Store(Emptied(rule, next)[MetadataErasedAt := At(now)])
    else Reject(WriteBlocked)
  }

  /** What `enforce_metadata_erasure` makes of a write. */
  function Guard(db: Database, t: Table, rule: Rule, previous: Option<Row>, next: Row, now: Time): Verdict {
    match previous
    case Some(p) =>
      if OwnerChanged(db, t, p, next, OWNERS) then Reject(OwnerImmutable)
      else if Erased(p) then UpdateErased(t, rule, p, next)
      else if Erased(next) then UpdateErasing(db, t, rule, p, next)
      else Admit(db, t, rule, previous, next, now)
    case None =>
      if Erased(next) then Reject(RequiresExistingRow)
      else if t == Accounts && Find(db.rows, Accounts, Get(next, RowId)).None? then Store(next)
      else Admit(db, t, rule, previous, next, now)
  }

  method CheckOwners(db: Database, t: Table, previous: Row, next: Row, owners: seq<Column>) returns (changed: bool)
    ensures changed == OwnerChanged(db, t, previous, next, owners)
  {
    hide Blocked, BindsDraft;
    for i := 0 to |owners|
      invariant forall j | 0 <= j < i ::
                  Same(previous, next, owners[j]) || (owners[j] == ModelRunId && BindsDraft(db, t, previous, next))
    {
      var c := owners[i];
      if c == ModelRunId && BindsDraft(db, t, previous, next) {
        continue;
      }
      if !Same(previous, next, c) {
        return true;
      }
    }
    changed := false;
  }

  method CheckUnchanged(previous: Row, next: Row, columns: seq<Column>) returns (changed: bool)
    ensures changed == AnyChanged(previous, next, columns)
  {
    for i := 0 to |columns|
      invariant forall j | 0 <= j < i :: Same(previous, next, columns[j])
    {
      if !Same(previous, next, columns[i]) {
        return true;
      }
    }
    changed := false;
  }

  method FindIntroduced(rule: Rule, previous: Row, next: Row) returns (introduces: bool)
    ensures introduces == Introduces(rule, previous, next)
  {
    var columns := Columns(rule);
    introduces := false;
    for i := 0 to |columns|
      invariant introduces ==
                exists j | 0 <= j < i ::
                  !Same(previous, next, columns[j]) && Get(next, columns[j]) != EmptyValue(rule, columns[j])
    {
      introduces := introduces
        || (!Same(previous, next, columns[i]) && Get(next, columns[i]) != EmptyValue(rule, columns[i]));
    }
  }

  /** `enforce_metadata_erasure`: checks in order, rewriting the proposed row where the source does. */
  method EnforceMetadataErasure(db: Database, t: Table, rule: Rule, previous: Option<Row>, proposed: Row, now: Time)
    returns (verdict: Verdict)
    ensures verdict == Guard(db, t, rule, previous, proposed, now)
  {
    hide Blocked, Emptied, OwnerChanged, AnyChanged, Introduces, OnlyRedacts, AppendOnly, Runnable, Erased, ReportsLate,
         Find, Same;
    var next := proposed;
    var introduces := previous.None?;
    if previous.Some? {
      var p := previous.value;
      var moved := CheckOwners(db, t, p, next, OWNERS);
      if moved {
        return Reject(OwnerImmutable);
      }
      if Erased(p) {
        if !Same(p, next, MetadataErasedAt) {
          return Reject(MetadataImmutable);
        }
        if ReportsLate(t) {
          next := Emptied(rule, next);
        }
        var touched := CheckUnchanged(p, next, Columns(rule));
        if touched {
          return Reject(MetadataImmutable);
        }
        if t == BackgroundJobs && Runnable(next) {
          return Reject(JobCancelled);
        }
        if t == Outbox && Get(next, PublishedAt) == Null {
          return Reject(OutboxCancelled);
        }
        return Store(next);
      }
      introduces := FindIntroduced(rule, p, next);
      if Erased(next) {
        if !Blocked(db, t, p) {
          return Reject(ScopeRequired);
        }
        if !OnlyRedacts(t, rule, p, next) {
          return Reject(RedactionOnly);
        }
        return Store(next);
      }
    } else if Erased(next) {
      return Reject(RequiresExistingRow);
    } else if t == Accounts && Find(db.rows, Accounts, Get(next, RowId)).None? {
      return Store(next);
    }
    if t == BackgroundJobs && Runnable(next) && Blocked(db, t, next) {
      return Reject(WriteBlocked);
    }
    if introduces {
      var blocked := Blocked(db, t, next) || (previous.Some? && Blocked(db, t, previous.value));
      if blocked {
        if AppendOnly(t) {
          next := Emptied(rule, next)[MetadataErasedAt := At(now)];
          return Store(next);
        }
        return Reject(WriteBlocked);
      }
    }
    verdict := Store(next);
  }
}
