/**
 The metadata guard written out: whose a row is, what blocks it, and exactly what becomes of
 each insert and update.
 */
module MetadataLaws {
  import opened Basics
  import opened MetadataGuard
  import opened MetadataRuns
  import P = PayloadGuard
  import PL = PayloadLaws

  // ---------------------------------------------------------------------------
  // Whose a row is
  // ---------------------------------------------------------------------------

  /** The owner that a row's own columns give. */
  function OwnColumns(row: Row): Owner {
    Owner(Get(row, AccountId), Get(row, ContactId), Get(row, ConversationId),
          Get(row, MetadataErasedAt) != Null || Get(row, ScopeErasedAt) != Null)
  }

  /** The row of a table with this identifier, if it is of the same account. */
  function SameAccountRow(rows: Rows, t: Table, id: Value, row: Row): Option<Row> {
    if id.Id? && Get(row, AccountId) != Null && (t, id.id) in rows
       && Get(rows[(t, id.id)], AccountId) == Get(row, AccountId)
    then Some(rows[(t, id.id)])
    else None
  }

  /** The row belongs to whoever owns the row it names, or without that row to its own columns. */
  ghost predicate OwnedThrough(rows: Rows, t: Table, row: Row, parent: Table, id: Value) {
    var found := SameAccountRow(rows, parent, id, row);
    OwnerOf(rows, t, Some(row)) == if found.Some? then OwnerOf(rows, parent, found) else OwnColumns(row)
  }

  /** The kinds of things that outbox and audit rows are about, and the tables that hold them. */
  const KINDS: set<(Kind, Table)> := {
    (ContactKind, Contacts), (ConversationKind, Conversations), (ControlKind, Conversations), (MessageKind, Messages),
    (RevisionKind, MessageRevisions), (MemoryKind, Memories), (SummaryKind, Summaries), (ModelRunKind, ModelRuns),
    (TurnKind, Turns), (DraftKind, CopilotDrafts), (CommandKind, ControlCommands), (RequestKind, ErasureRequests),
    (JobKind, BackgroundJobs)
  }

  lemma ThroughRoute(rows: Rows, t: Table, row: Row, parent: Table, id: Value)
    requires RouteOf(t, row) == To(parent, id)
    ensures OwnedThrough(rows, t, row, parent, id)
  {
    RoutesGoDown(t, row);
  }

  /** Parts of messages are owned as the message or revision they belong to. */
  lemma OwnerOfPart(rows: Rows, t: Table, row: Row)
    ensures t == MessageMedia ==> OwnedThrough(rows, t, row, MessageRevisions, Get(row, MessageRevisionId))
    ensures t == MessageRevisions || t == MessageReactions ==>
              OwnedThrough(rows, t, row, Messages, Get(row, MessageId))
  {
    hide OwnedThrough;
    if t == MessageMedia {
      ThroughRoute(rows, t, row, MessageRevisions, Get(row, MessageRevisionId));
    } else if t == MessageRevisions || t == MessageReactions {
      ThroughRoute(rows, t, row, Messages, Get(row, MessageId));
    }
  }

  /** An attempt is owned as its run, whatever its own columns say. */
  lemma OwnerOfAttempt(rows: Rows, row: Row)
    ensures OwnerOf(rows, ModelRunAttempts, Some(row)) ==
              var run := Get(row, ModelRunId);
              if run.Id? && (ModelRuns, run.id) in rows then OwnColumns(rows[(ModelRuns, run.id)])
              else Owner(Null, Null, Null, false)
  {
  }

  /** An account and a contact are their own; the rest are owned as their columns say. */
  lemma OwnerOfOther(rows: Rows, t: Table, row: Row)
    ensures t == Accounts ==> OwnerOf(rows, t, Some(row)) == OwnColumns(row).(account := Get(row, RowId))
    ensures t == Contacts ==> OwnerOf(rows, t, Some(row)) == OwnColumns(row).(contact := Get(row, RowId))
    ensures t in {Conversations, Messages, Memories, Summaries, ModelRuns, Turns, CopilotDrafts, EditSessions,
                  ControlCommands, ErasureRequests, MessageEvents, ModeHistory, ControlHistory} || t.Retained? ==>
              OwnerOf(rows, t, Some(row)) == OwnColumns(row)
  {
  }

  /** An outbox or audit row is owned as what it is about, by its aggregate columns or else its target columns. */
  lemma OwnerOfNotice(rows: Rows, t: Table, row: Row, kind: Kind, parent: Table)
    requires (t == Outbox || t == AuditLog) && (kind, parent) in KINDS
    requires Get(row, AggregateType) == KindIs(kind)
             || (Get(row, AggregateType) == Null && Get(row, TargetType) == KindIs(kind))
    ensures OwnedThrough(rows, t, row, parent,
                         if Get(row, AggregateId) != Null then Get(row, AggregateId) else Get(row, TargetId))
  {
    var id := if Get(row, AggregateId) != Null then Get(row, AggregateId) else Get(row, TargetId);
    ThroughRoute(rows, t, row, parent, id);
  }

  /** One about nothing of these kinds is owned as its own columns say. */
  lemma OwnerOfOtherNotice(rows: Rows, t: Table, row: Row)
    requires t == Outbox || t == AuditLog
    requires forall k: (Kind, Table) | k in KINDS :: Get(row, AggregateType) != KindIs(k.0)
    requires Get(row, AggregateType) != Null
             || forall k: (Kind, Table) | k in KINDS :: Get(row, TargetType) != KindIs(k.0)
    ensures OwnerOf(rows, t, Some(row)) == OwnColumns(row)
  {
    forall kind: Kind
      ensures KindTable(kind).Some? ==> exists k: (Kind, Table) :: k in KINDS && k.0 == kind
    {
      KindListed(kind);
    }
  }

  lemma KindListed(kind: Kind)
    ensures KindTable(kind).Some? ==> exists k: (Kind, Table) :: k in KINDS && k.0 == kind
  {
    if KindTable(kind).Some? {
      assert (kind, KindTable(kind).value) in KINDS;
    }
  }

  /** A job is owned as the first of these that its payload names. */
  lemma OwnerOfJob(rows: Rows, row: Row)
    ensures !Get(row, Payload).Json? ==> OwnerOf(rows, BackgroundJobs, Some(row)) == OwnColumns(row)
    ensures Get(row, Payload).Json? ==>
              var p := Get(row, Payload).routing;
              if p.conversation.Some? then
                OwnedThrough(rows, BackgroundJobs, row, Conversations, Id(p.conversation.value))
              else if p.contact.Some? then OwnedThrough(rows, BackgroundJobs, row, Contacts, Id(p.contact.value))
              else if p.turn.Some? then OwnedThrough(rows, BackgroundJobs, row, Turns, Id(p.turn.value))
              else if p.message.Some? then OwnedThrough(rows, BackgroundJobs, row, Messages, Id(p.message.value))
              else if p.request.Some? then OwnedThrough(rows, BackgroundJobs, row, ErasureRequests, Id(p.request.value))
              else OwnerOf(rows, BackgroundJobs, Some(row)) == OwnColumns(row)
  {
    hide OwnedThrough;
    if RouteOf(BackgroundJobs, row).To? {
      var route := RouteOf(BackgroundJobs, row);
      ThroughRoute(rows, BackgroundJobs, row, route.table, route.id);
    }
  }

  /** A peer is owned by the contact that has it, when there is just one. */
  lemma OwnerOfPeer(rows: Rows, row: Row, contact: Uuid, peer: Uuid)
    requires (Contacts, contact) in rows && (AccountPeers, peer) in rows && Get(row, AccountId) != Null
    requires Get(rows[(Contacts, contact)], AccountId) == Get(row, AccountId)
    requires Get(rows[(Contacts, contact)], AccountPeerId) == Id(peer)
    requires Get(rows[(AccountPeers, peer)], AccountId) == Get(row, AccountId)
    requires || (Get(rows[(AccountPeers, peer)], RowId) == Get(row, RowId) != Null)
             || (Get(rows[(AccountPeers, peer)], PeerId) == Get(row, PeerId) != Null)
    requires forall other | PeerContact(rows, row, other) :: other == contact
    ensures OwnerOf(rows, AccountPeers, Some(row)) == OwnColumns(row).(contact := Id(contact))
  {
    assert PeerContact(rows, row, contact);
    assert (Contacts, contact).1 == contact;
    assert contact in ContactsOfPeer(rows, row);
  }

  lemma StrangePeer(rows: Rows, row: Row)
    requires forall contact | (Contacts, contact) in rows ::
               || Get(rows[(Contacts, contact)], AccountId) != Get(row, AccountId)
               || !Get(rows[(Contacts, contact)], AccountPeerId).Id?
               || (var p := Get(rows[(Contacts, contact)], AccountPeerId).id;
                   || (AccountPeers, p) !in rows
                   || Get(rows[(AccountPeers, p)], AccountId) != Get(row, AccountId)
                   || (Get(rows[(AccountPeers, p)], RowId) != Get(row, RowId)
                       && Get(rows[(AccountPeers, p)], PeerId) != Get(row, PeerId)))
    ensures OwnerOf(rows, AccountPeers, Some(row)) == OwnColumns(row).(contact := Null)
  {
    forall contact ensures !PeerContact(rows, row, contact) {}
    assert ContactsOfPeer(rows, row) == {};
  }

  // ---------------------------------------------------------------------------
  // What blocks a row
  // ---------------------------------------------------------------------------

  /** The contact an owner stands for: the conversation's, or without a conversation its own. */
  function ContactOf(db: P.Database, o: Owner): Option<Uuid> {
    if o.conversation == Null then (if o.contact.Id? then Some(o.contact.id) else None)
    else if o.conversation.Id? && o.account.Id? && o.conversation.id in db.conversations
            && db.conversations[o.conversation.id].account == o.account.id
    then db.conversations[o.conversation.id].contact
    else None
  }

  /** The scope of an owner is closed. */
  predicate ScopeClosed(db: P.Database, o: Owner) {
    || o.erased || !o.account.Id?
    || o.account.id !in db.accounts || db.accounts[o.account.id] != P.Active
    || P.AccountErasure(o.account.id) in db.requests
    || (ContactOf(db, o).Some?
        && (ContactOf(db, o).value in db.deletingContacts
            || P.ContactErasure(o.account.id, ContactOf(db, o).value) in db.requests))
  }

  /** A row is blocked exactly when its owner has an account and the owner's scope is closed, notices apart. */
  lemma BlockedExactly(db: Database, t: Table, row: Row)
    ensures var owner := OwnerOf(db.rows, t, Some(row));
            Blocked(db, t, row) <==>
              !CleanupNotice(db.rows, t, row) && owner.account != Null && ScopeClosed(db.fence, owner)
  {
    hide P.Blocked, CleanupNotice, OwnerOf;
    OwnerBlocks(db.fence, OwnerOf(db.rows, t, Some(row)));
  }

  /** A payload with nothing in it but these keys. */
  function Plainly(request: Option<Uuid>, job: Option<Uuid>, generation: Option<nat>): Value {
    Json(Routing(None, None, None, None, request, job, generation, 0))
  }

  /** The exempt job is the reconciliation of its own erasure request, and carries nothing but its identifier. */
  lemma JobNoticeExactly(rows: Rows, row: Row)
    ensures CleanupNotice(rows, BackgroundJobs, row) <==>
              && Get(row, JobType) == Word(ReconcileErasure) && Get(row, QueueName) == Word(WorkerQueue)
              && Get(row, RowId).Id? && Get(row, Payload) == Plainly(Some(Get(row, RowId).id), None, None)
              && SameAccountRow(rows, ErasureRequests, Get(row, RowId), row).Some?
  {
  }

  /** The exempt outbox row announces such a job, and carries nothing but its identifier and generation. */
  lemma OutboxNoticeExactly(rows: Rows, row: Row)
    ensures CleanupNotice(rows, Outbox, row) <==>
              && Get(row, AggregateType) == KindIs(JobKind) && Get(row, Topic) == Word(JobAvailable)
              && var job := SameAccountRow(rows, BackgroundJobs, Get(row, AggregateId), row);
                 && job.Some? && CleanupNotice(rows, BackgroundJobs, job.value)
                 && Get(row, AggregateVersion).Number? && Get(job.value, RowId).Id?
                 && Get(row, Payload)
                    == Plainly(None, Some(Get(job.value, RowId).id), Some(Get(row, AggregateVersion).n))
  {
    hide JobNotice;
  }

  lemma OnlyTheseAreNotices(rows: Rows, t: Table, row: Row)
    ensures CleanupNotice(rows, t, row) ==> t == BackgroundJobs || t == Outbox
  {
  }

  // ---------------------------------------------------------------------------
  // What becomes of a write
  // ---------------------------------------------------------------------------

  /** The columns that say whose a row is and what it is about. */
  const OWNING: set<Column> :=
    {RowId, AccountId, ContactId, ConversationId, PeerId, MessageId, MessageRevisionId, ModelRunId, AggregateType,
     AggregateId, TargetType, TargetId, JobType}

  /** Tables whose facts are kept, without their metadata, even in a closed scope. */
  const KEPT: set<Table> :=
    {AuditLog, MessageEvents, ModeHistory, ControlHistory, ControlCommands, ModelRuns, ModelRunAttempts,
     ErasureRequests}

  /** Tables in which requests that were already running report their outcome. */
  const REPORTING: set<Table> := {ModelRuns, ModelRunAttempts, ControlCommands}

  lemma TablesAre(t: Table)
    ensures AppendOnly(t) <==> t in KEPT
    ensures ReportsLate(t) <==> t in REPORTING
  {
  }

  /** The row without its metadata: nothing, an empty object, or false, as the rule says for each column. */
  ghost predicate Bare(rule: Rule, row: Row, bare: Row) {
    && (forall c | c in rule.nulls :: Get(bare, c) == Null)
    && (forall c | c in rule.objects && c !in rule.nulls :: Get(bare, c) == EmptyObject)
    && (forall c | c in rule.falses && c !in rule.nulls && c !in rule.objects :: Get(bare, c) == False)
    && (forall c | c !in rule.nulls && c !in rule.objects && c !in rule.falses :: Get(bare, c) == Get(row, c))
  }

  lemma EmptiedIsBare(rule: Rule, row: Row)
    ensures Bare(rule, row, Emptied(rule, row))
  {
    hide Emptied, Get;
    EmptiedGets(rule, row);
    forall c ensures c in Columns(rule) <==> c in rule.nulls || c in rule.objects || c in rule.falses {
    }
    forall c | c !in Columns(rule) ensures Get(Emptied(rule, row), c) == Get(row, c) {
      assert Same(Emptied(rule, row), row, c);
    }
  }

  /** The row stored in place of one that a closed scope may not have. */
  ghost predicate Withheld(rule: Rule, row: Row, stored: Row, now: Time) {
    exists bare: Row :: Bare(rule, row, bare) && stored == bare[MetadataErasedAt := At(now)]
  }

  /** What becomes of an insert, in the order of the checks. */
  lemma InsertsExactly(db: Database, t: Table, rule: Rule, next: Row, now: Time)
    ensures var out := Guard(db, t, rule, None, next, now);
            if Get(next, MetadataErasedAt) != Null then out == Reject(RequiresExistingRow)
            else if t == Accounts && !(Get(next, RowId).Id? && (Accounts, Get(next, RowId).id) in db.rows) then
              out == Store(next)
            else if !Blocked(db, t, next) then out == Store(next)
            else if t in KEPT then out.Store? && Withheld(rule, next, out.row, now)
            else out == Reject(WriteBlocked)
  {
    hide Blocked, Emptied, AppendOnly, Runnable;
    TablesAre(t);
    EmptiedIsBare(rule, next);
  }

  /** Each guarded column keeps its value or gets the empty one. */
  predicate AddsNothing(rule: Rule, previous: Row, next: Row) {
    && (forall c | c in rule.nulls :: Get(next, c) in {Get(previous, c), Null})
    && (forall c | c in rule.objects && c !in rule.nulls :: Get(next, c) in {Get(previous, c), EmptyObject})
    && (forall c | c in rule.falses && c !in rule.nulls && c !in rule.objects ::
          Get(next, c) in {Get(previous, c), False})
  }

  lemma AdditionsCompared(rule: Rule, previous: Row, next: Row)
    ensures Introduces(rule, previous, next) <==> !AddsNothing(rule, previous, next)
  {
    hide Get;
    if c :| c in Columns(rule) && !Same(previous, next, c) && Get(next, c) != EmptyValue(rule, c) {
      assert c in rule.nulls || c in rule.objects || c in rule.falses;
    }
  }

  /** Owners are as they were, but for a collecting draft that starts generating and is bound to its run. */
  ghost predicate OwnersAgree(db: Database, t: Table, previous: Row, next: Row) {
    forall c | c in OWNING ::
      || Get(previous, c) == Get(next, c)
      || (&& c == ModelRunId && t == CopilotDrafts && Get(previous, ModelRunId) == Null
          && Get(previous, MetadataErasedAt) == Null && Get(previous, State) == StateIs(Collecting)
          && Get(next, State) == StateIs(Generating) && !Blocked(db, t, next))
  }

  lemma OwnersCompared(db: Database, t: Table, previous: Row, next: Row)
    ensures OwnerChanged(db, t, previous, next, OWNERS) <==> !OwnersAgree(db, t, previous, next)
  {
    hide Get, Blocked, OWNERS, OWNING;
    forall c: Column ensures c in OWNERS <==> c in OWNING {
      OwningListed(c);
    }
    OwnersByColumn(db, t, previous, next);
  }

  lemma OwnersByColumn(db: Database, t: Table, previous: Row, next: Row)
    ensures OwnerChanged(db, t, previous, next, OWNERS)
            <==> exists c | c in OWNERS :: Get(previous, c) != Get(next, c)
                                           && !(c == ModelRunId && BindsDraft(db, t, previous, next))
  {
    hide Get, BindsDraft, OWNERS;
  }

  lemma OwningListed(c: Column)
    ensures c in OWNERS <==> c in OWNING
  {
    assert OWNERS[0] == RowId && OWNERS[1] == AccountId && OWNERS[2] == ContactId && OWNERS[3] == ConversationId
        && OWNERS[4] == PeerId && OWNERS[5] == MessageId && OWNERS[6] == MessageRevisionId && OWNERS[7] == ModelRunId
        && OWNERS[8] == AggregateType && OWNERS[9] == AggregateId && OWNERS[10] == TargetType && OWNERS[11] == TargetId
        && OWNERS[12] == JobType;
  }

  predicate Waiting(row: Row) {
    Get(row, State) in {StateIs(Pending), StateIs(Leased), StateIs(RetryWait)}
  }

  /** What becomes of an update that neither finds nor makes the row erased. */
  lemma UpdatesExactly(db: Database, t: Table, rule: Rule, previous: Row, next: Row, now: Time)
    requires Get(previous, MetadataErasedAt) == Null && Get(next, MetadataErasedAt) == Null
    ensures var out := Guard(db, t, rule, Some(previous), next, now);
            if !OwnersAgree(db, t, previous, next) then out == Reject(OwnerImmutable)
            else if t == BackgroundJobs && Waiting(next) && Blocked(db, t, next) then out == Reject(WriteBlocked)
            else if AddsNothing(rule, previous, next) || !(Blocked(db, t, previous) || Blocked(db, t, next)) then
              out == Store(next)
            else if t in KEPT then out.Store? && Withheld(rule, next, out.row, now)
            else out == Reject(WriteBlocked)
  {
    hide Blocked, Emptied, AppendOnly, OwnerChanged, OwnersAgree, Introduces, AddsNothing, Get;
    TablesAre(t);
    EmptiedIsBare(rule, next);
    OwnersCompared(db, t, previous, next);
    AdditionsCompared(rule, previous, next);
  }

  /** What an erasing update may touch beside the guarded columns and the marker. */
  function Touchable(t: Table): set<Column> {
    match t
    case BackgroundJobs => {State, LeaseOwner, LeaseExpiresAt, CompletedAt, Version, FencingToken, LastErrorCode}
    case Outbox => {PublishedAt, LastErrorCode}
    case _ => {}
  }

  ghost predicate TouchesOnly(t: Table, rule: Rule, previous: Row, next: Row) {
    forall c | c !in rule.nulls && c !in rule.objects && c !in rule.falses && c != MetadataErasedAt
               && c !in Touchable(t) :: Get(previous, c) == Get(next, c)
  }

  lemma TouchesCompared(t: Table, rule: Rule, previous: Row, next: Row)
    ensures OnlyRedacts(t, rule, previous, next) <==> TouchesOnly(t, rule, previous, next)
  {
    forall c
      ensures c in Mutable(t, rule) <==> c in rule.nulls || c in rule.objects || c in rule.falses
                                         || c == MetadataErasedAt || c in Touchable(t)
    {
      MutableAre(t, rule, c);
    }
    hide Mutable, Touchable;
    if OnlyRedacts(t, rule, previous, next) {
      forall c | c !in Mutable(t, rule) ensures Get(previous, c) == Get(next, c) {
        if c in previous.Keys + next.Keys { assert Same(previous, next, c); }
      }
    }
  }

  lemma MutableAre(t: Table, rule: Rule, c: Column)
    ensures c in Mutable(t, rule) <==> c in rule.nulls || c in rule.objects || c in rule.falses
                                       || c == MetadataErasedAt || c in Touchable(t)
  {
    var fixed := Columns(rule) + [MetadataErasedAt];
    assert c in fixed <==> c in rule.nulls || c in rule.objects || c in rule.falses || c == MetadataErasedAt;
    if t == BackgroundJobs {
      var more := [State, LeaseOwner, LeaseExpiresAt, CompletedAt, Version, FencingToken, LastErrorCode];
      assert more[0] == State && more[1] == LeaseOwner && more[2] == LeaseExpiresAt && more[3] == CompletedAt
          && more[4] == Version && more[5] == FencingToken && more[6] == LastErrorCode;
      assert Mutable(t, rule) == fixed + more;
    } else if t == Outbox {
      var more := [PublishedAt, LastErrorCode];
      assert more[0] == PublishedAt && more[1] == LastErrorCode;
      assert Mutable(t, rule) == fixed + more;
    } else {
      assert Mutable(t, rule) == fixed + [];
    }
  }

  /** What becomes of an update that erases a row. */
  lemma ErasesExactly(db: Database, t: Table, rule: Rule, previous: Row, next: Row, now: Time)
    requires Get(previous, MetadataErasedAt) == Null && Get(next, MetadataErasedAt) != Null
    ensures Guard(db, t, rule, Some(previous), next, now) ==
              if !OwnersAgree(db, t, previous, next) then Reject(OwnerImmutable)
              else if !Blocked(db, t, previous) then Reject(ScopeRequired)
              else if !TouchesOnly(t, rule, previous, next) then Reject(RedactionOnly)
              else Store(next)
  {
    hide Blocked, OwnerChanged, OwnersAgree, OnlyRedacts, TouchesOnly, Get;
    OwnersCompared(db, t, previous, next);
    TouchesCompared(t, rule, previous, next);
  }

  ghost predicate GuardedAlike(rule: Rule, a: Row, b: Row) {
    forall c | c in rule.nulls || c in rule.objects || c in rule.falses :: Get(a, c) == Get(b, c)
  }

  lemma GuardedCompared(rule: Rule, a: Row, b: Row)
    ensures AnyChanged(a, b, Columns(rule)) <==> !GuardedAlike(rule, a, b)
  {
    hide Get;
    assert forall c :: c in Columns(rule) <==> c in rule.nulls || c in rule.objects || c in rule.falses;
  }

  /** What becomes of an update of an erased row. */
  lemma UpdatesErasedExactly(db: Database, t: Table, rule: Rule, previous: Row, next: Row, now: Time)
    requires Sound(t, rule) && Check(rule, previous) && Get(previous, MetadataErasedAt) != Null
    ensures var out := Guard(db, t, rule, Some(previous), next, now);
            if !OwnersAgree(db, t, previous, next) then out == Reject(OwnerImmutable)
            else if Get(next, MetadataErasedAt) != Get(previous, MetadataErasedAt) then out == Reject(MetadataImmutable)
            else if t in REPORTING then out.Store? && Bare(rule, next, out.row)
            else if !GuardedAlike(rule, previous, next) then out == Reject(MetadataImmutable)
            else if t == BackgroundJobs && Waiting(next) then out == Reject(JobCancelled)
            else if t == Outbox && Get(next, PublishedAt) == Null then out == Reject(OutboxCancelled)
            else out == Store(next)
  {
    hide Blocked, OwnerChanged, OwnersAgree, Emptied, Sound, EmptyValue, GuardedAlike, AppendOnly;
    GuardedCompared(rule, previous, next);
    TablesAre(t);
    OwnersCompared(db, t, previous, next);
    EmptiedIsBare(rule, next);
    EmptiedGets(rule, next);
    NotOwners(t, rule);
  }
}
