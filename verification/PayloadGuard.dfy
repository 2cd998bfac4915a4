/**
 The guard on derived payload: which writes to a row are accepted, and when the erasure of a
 row's owner blocks it.  Ownership is looked up through a row's references and its parent.
 */
module PayloadGuard {
  import opened Basics

  // ---------------------------------------------------------------------------
  // Rows and tables
  // ---------------------------------------------------------------------------

  /** Columns that refer to a row which may itself be blocked. */
  datatype Reference =
    | MessageRevisionId | MemoryVersionId | SummaryVersionId
    | OtherMemoryVersionId | AcceptedMemoryVersionId | PriorSummaryVersionId
    | MemoryInputManifestId | ProactiveInputManifestId | ContextManifestId | ModelRunId

  datatype Column =
    | AccountId | ContactId | ConversationId
    | MemoryId | SummaryId | ManifestId | OccurrenceId | ProposalId | DraftId | MessageId
    | Ref(reference: Reference)
    | SourceType | SourceId
    | ScopeErasedAt | RedactedAt | RedactionReason
    | Payload(n: nat)
    | Plain(k: nat)

  datatype Value = Null | EmptyObject | Id(id: Uuid) | MessageRevisionType | Data(d: nat)

  type Row = map<Column, Value>

  function Get(row: Row, c: Column): Value {
    if c in row then row[c] else Null
  }

  datatype Table =
    | Messages | Memories | Summaries | MemoryManifests | ProactiveManifests | ContextManifests
    | ModelRuns | MessageRevisions | MemoryVersions | SummaryVersions
    | MemoryProposals | ProactiveOccurrences
    | MemoryEvidence | ProposalEvidence | SummaryVersionSources
    | MemoryManifestItems | ContextManifestItems | ProactiveManifestItems | OccurrenceEvidence
    | OtherTable(k: nat)

  datatype Status = Active | Deleting | Deleted

  datatype Conversation = Conversation(account: Uuid, contact: Option<Uuid>)

  datatype ErasureRequest = AccountErasure(account: Uuid) | ContactErasure(account: Uuid, contact: Uuid)

  datatype Database = Database(
    accounts: map<Uuid, Status>,
    conversations: map<Uuid, Conversation>,
    deletingContacts: set<Uuid>,
    requests: set<ErasureRequest>,
    rows: map<(Table, Uuid), Row>)

  // ---------------------------------------------------------------------------
  // Ownership
  // ---------------------------------------------------------------------------

  /** The table a reference points to. */
  function Target(r: Reference): Table {
    match r
    case MessageRevisionId => MessageRevisions
    case MemoryVersionId | OtherMemoryVersionId | AcceptedMemoryVersionId => MemoryVersions
    case SummaryVersionId | PriorSummaryVersionId => SummaryVersions
    case MemoryInputManifestId => MemoryManifests
    case ProactiveInputManifestId => ProactiveManifests
    case ContextManifestId => ContextManifests
    case ModelRunId => ModelRuns
  }

  /** The reference columns a table has; tables that nothing looks up may have any. */
  predicate Refers(t: Table, r: Reference) {
    match t
    case ModelRuns => r.MemoryInputManifestId? || r.ProactiveInputManifestId? || r.ContextManifestId?
    case MemoryVersions | SummaryVersions => r.ModelRunId?
    case MemoryProposals => r.AcceptedMemoryVersionId? || r.ModelRunId?
    case _ => Rank(t) == 4
  }

  predicate HasSource(t: Table) {
    t.ProactiveOccurrences? || Rank(t) == 4
  }

  datatype Parent = Parent(table: Table, column: Column)

  function ParentOf(t: Table): Option<Parent> {
    match t
    case MemoryVersions => Some(Parent(Memories, MemoryId))
    case MemoryEvidence => Some(Parent(MemoryVersions, Ref(MemoryVersionId)))
    case ProposalEvidence => Some(Parent(MemoryProposals, ProposalId))
    case SummaryVersions => Some(Parent(Summaries, SummaryId))
    case SummaryVersionSources => Some(Parent(SummaryVersions, Ref(SummaryVersionId)))
    case MemoryManifestItems => Some(Parent(MemoryManifests, ManifestId))
    case ContextManifestItems => Some(Parent(ContextManifests, ManifestId))
    case ProactiveManifestItems => Some(Parent(ProactiveManifests, ManifestId))
    case OccurrenceEvidence => Some(Parent(ProactiveOccurrences, OccurrenceId))
    case MessageRevisions => Some(Parent(Messages, MessageId))
    case _ => None
  }

  /** Every lookup goes to a table of lower rank, so resolution ends. */
  function Rank(t: Table): nat {
    match t
    case Messages | Memories | Summaries | MemoryManifests | ProactiveManifests | ContextManifests => 0
    case ModelRuns | MessageRevisions => 1
    case MemoryVersions | SummaryVersions => 2
    case MemoryProposals | ProactiveOccurrences => 3
    case _ => 4
  }

  function Lookup(db: Database, t: Table, row: Row, c: Column): Option<Row> {
    match Get(row, c)
    case Id(id) =>
      if (t, id) in db.rows && Get(row, AccountId) != Null && Get(db.rows[(t, id)], AccountId) == Get(row, AccountId)
      then Some(db.rows[(t, id)])
      else None
    case _ => None
  }

  predicate AccountFenced(db: Database, account: Value) {
    !account.Id? || account.id !in db.accounts || db.accounts[account.id] != Active
  }

  /** The conversation's contact takes the place of the row's own, even when there is none. */
  function TargetContact(db: Database, row: Row): Option<Uuid> {
    match Get(row, ConversationId)
    case Null => if Get(row, ContactId).Id? then Some(Get(row, ContactId).id) else None
    case Id(c) =>
      if c in db.conversations && Get(row, AccountId) == Id(db.conversations[c].account)
      then db.conversations[c].contact else None
    case _ => None
  }

  predicate ScopeFenced(db: Database, row: Row) {
    var contact := TargetContact(db, row);
    || (contact.Some? && contact.value in db.deletingContacts)
    || (Get(row, AccountId).Id? && AccountErasure(Get(row, AccountId).id) in db.requests)
    || (Get(row, AccountId).Id? && contact.Some?
        && ContactErasure(Get(row, AccountId).id, contact.value) in db.requests)
  }

  /** Blocked without looking at another row. */
  predicate Stops(db: Database, row: Option<Row>) {
    || row.None?
    || Get(row.value, ScopeErasedAt) != Null || Get(row.value, RedactedAt) != Null
    || AccountFenced(db, Get(row.value, AccountId))
    || ScopeFenced(db, row.value)
  }

  /** `scope_erasure_row_blocked`; a missing source revision or parent blocks, a missing reference does not. */
  predicate Blocked(db: Database, t: Table, row: Option<Row>)
    decreases Rank(t)
  {
    || Stops(db, row)
    || (exists r: Reference | Refers(t, r) ::
          var found := Lookup(db, Target(r), row.value, Ref(r));
          found.Some? && Blocked(db, Target(r), found))
    || (HasSource(t) && Get(row.value, SourceType) == MessageRevisionType && Get(row.value, SourceId) != Null
        && Blocked(db, MessageRevisions, Lookup(db, MessageRevisions, row.value, SourceId)))
    || (ParentOf(t).Some?
        && var p := ParentOf(t).value; Blocked(db, p.table, Lookup(db, p.table, row.value, p.column)))
  }

  // ---------------------------------------------------------------------------
  // The same thing as a search for one bad row
  // ---------------------------------------------------------------------------

  datatype Node = Node(table: Table, row: Option<Row>)

  predicate ReferenceLeads(db: Database, t: Table, row: Row, b: Node) {
    exists r: Reference :: Refers(t, r) && b == Node(Target(r), Lookup(db, Target(r), row, Ref(r)))
  }

  /** One lookup leads from a row to another, or to nothing. */
  predicate Leads(db: Database, a: Node, b: Node) {
    && a.row.Some?
    && ((b.row.Some? && ReferenceLeads(db, a.table, a.row.value, b))
        || (HasSource(a.table) && Get(a.row.value, SourceType) == MessageRevisionType
            && Get(a.row.value, SourceId) != Null
            && b == Node(MessageRevisions, Lookup(db, MessageRevisions, a.row.value, SourceId)))
        || (ParentOf(a.table).Some?
            && var p := ParentOf(a.table).value; b == Node(p.table, Lookup(db, p.table, a.row.value, p.column))))
  }

  ghost predicate Chain(db: Database, chain: seq<Node>) {
    chain != [] && forall i | 0 <= i < |chain| - 1 :: Leads(db, chain[i], chain[i + 1])
  }

  lemma LeadsDown(db: Database, a: Node, b: Node)
    requires Leads(db, a, b)
    ensures Rank(b.table) < Rank(a.table)
  {
    hide Lookup, Get;
  }

  lemma BlockedLocally(db: Database, a: Node)
    ensures Blocked(db, a.table, a.row)
            <==> Stops(db, a.row) || exists b :: Leads(db, a, b) && Blocked(db, b.table, b.row)
  {
    hide Stops, Get, Lookup, Refers, Target, ParentOf, HasSource;
    var t, row := a.table, a.row;
    if !Stops(db, row) && Blocked(db, t, row) {
      assert row.Some? by { NullStops(db); }
      if r: Reference :| Refers(t, r) && Lookup(db, Target(r), row.value, Ref(r)).Some?
                         && Blocked(db, Target(r), Lookup(db, Target(r), row.value, Ref(r))) {
        assert Leads(db, a, Node(Target(r), Lookup(db, Target(r), row.value, Ref(r))));
      } else if ParentOf(t).Some? && Blocked(db, ParentOf(t).value.table,
                                             Lookup(db, ParentOf(t).value.table, row.value, ParentOf(t).value.column)) {
        var p := ParentOf(t).value;
        assert Leads(db, a, Node(p.table, Lookup(db, p.table, row.value, p.column)));
      } else {
        assert Leads(db, a, Node(MessageRevisions, Lookup(db, MessageRevisions, row.value, SourceId)));
      }
    }
  }

  lemma NullStops(db: Database)
    ensures Stops(db, None)
  {
  }

  /** A row is blocked exactly when some chain of lookups from it ends in a row that is bad by itself. */
  lemma {:induction false} BlockedIsReachability(db: Database, a: Node)
    ensures Blocked(db, a.table, a.row)
            <==> exists chain: seq<Node> :: Chain(db, chain) && chain[0] == a && Stops(db, chain[|chain| - 1].row)
    decreases Rank(a.table)
  {
    hide Stops, Blocked, Leads;
    BlockedLocally(db, a);
    if Stops(db, a.row) {
      assert Chain(db, [a]);
    } else if Blocked(db, a.table, a.row) {
      var b :| Leads(db, a, b) && Blocked(db, b.table, b.row);
      LeadsDown(db, a, b);
      BlockedIsReachability(db, b);
      var chain: seq<Node> :| Chain(db, chain) && chain[0] == b && Stops(db, chain[|chain| - 1].row);
      var longer := [a] + chain;
      assert forall i | 1 <= i < |longer| :: longer[i] == chain[i - 1];
      assert Chain(db, longer) && longer[|longer| - 1] == chain[|chain| - 1];
    } else if chain: seq<Node> :| Chain(db, chain) && chain[0] == a && Stops(db, chain[|chain| - 1].row) {
      var rest := chain[1..];
      assert |chain| > 1 && Leads(db, a, chain[1]);
      assert Chain(db, rest) && rest[0] == chain[1] && rest[|rest| - 1] == chain[|chain| - 1];
      LeadsDown(db, a, chain[1]);
      BlockedIsReachability(db, chain[1]);
    }
  }

  // ---------------------------------------------------------------------------
  // The guard
  // ---------------------------------------------------------------------------

  datatype Error =
    | OwnerImmutable | PayloadImmutable | RedactionOnly | RequiresExistingRow | ScopeWriteBlocked

  predicate Owner(c: Column) {
    match c
    case AccountId | ContactId | ConversationId | MemoryId | SummaryId | ManifestId | OccurrenceId | ProposalId
       | DraftId => true
    case Ref(r) => r.MessageRevisionId? || r.MemoryVersionId? || r.SummaryVersionId?
    case _ => false
  }

  const OWNERS: seq<Column> :=
    [AccountId, ContactId, ConversationId, MemoryId, SummaryId, ManifestId, OccurrenceId, ProposalId, DraftId,
     Ref(MessageRevisionId), Ref(MemoryVersionId), Ref(SummaryVersionId)]

  lemma OwnersAre(c: Column)
    ensures c in OWNERS <==> Owner(c)
  {
    assert forall k | 0 <= k < |OWNERS| :: Owner(OWNERS[k]);
    match c
    case AccountId => assert OWNERS[0] == c;
    case ContactId => assert OWNERS[1] == c;
    case ConversationId => assert OWNERS[2] == c;
    case MemoryId => assert OWNERS[3] == c;
    case SummaryId => assert OWNERS[4] == c;
    case ManifestId => assert OWNERS[5] == c;
    case OccurrenceId => assert OWNERS[6] == c;
    case ProposalId => assert OWNERS[7] == c;
    case DraftId => assert OWNERS[8] == c;
    case Ref(MessageRevisionId) => assert OWNERS[9] == c;
    case Ref(MemoryVersionId) => assert OWNERS[10] == c;
    case Ref(SummaryVersionId) => assert OWNERS[11] == c;
    case _ =>
  }

  predicate Same(a: Row, b: Row, c: Column) {
    Get(a, c) == Get(b, c)
  }

  predicate Changed(a: Row, b: Row, columns: seq<Column>) {
    exists c | c in columns :: !Same(a, b, c)
  }

  predicate Empty(v: Value) {
    v == Null || v == EmptyObject
  }

  predicate Introduces(previous: Row, next: Row, payload: seq<Column>) {
    exists c | c in payload :: !Same(previous, next, c) && !Empty(Get(next, c))
  }

  const MARKERS: seq<Column> := [ScopeErasedAt, RedactedAt, RedactionReason]

  predicate OnlyRedacts(previous: Row, next: Row, payload: seq<Column>) {
    forall c | c in previous.Keys + next.Keys && c !in payload + MARKERS :: Same(previous, next, c)
  }

  /** `fresh - 'redacted_at'` */
  function Unredacted(row: Row): Row {
    row - {RedactedAt}
  }

  /** What `enforce_scope_payload_erasure` decides; `previous` is absent for an insert. */
  function Verdict(db: Database, t: Table, payload: seq<Column>, previous: Option<Row>, next: Row): Option<Error> {
    var erasing := Get(next, ScopeErasedAt) != Null;
    if previous.Some? && Changed(previous.value, next, OWNERS) then Some(OwnerImmutable)
    else if previous.Some? && Get(previous.value, ScopeErasedAt) != Null then
      if Changed(previous.value, next, payload + MARKERS) then Some(PayloadImmutable) else None
    else if previous.Some? && erasing then
      if OnlyRedacts(previous.value, next, payload) then None else Some(RedactionOnly)
    else if erasing then Some(RequiresExistingRow)
    else if previous.Some? && !Introduces(previous.value, next, payload) then None
    else if Get(next, RedactedAt) != Null then Some(PayloadImmutable)
    else if Blocked(db, t, Some(Unredacted(next))) then Some(ScopeWriteBlocked)
    else None
  }

  method AnyChanged(a: Row, b: Row, columns: seq<Column>) returns (changed: bool)
    ensures changed == Changed(a, b, columns)
  {
    for i := 0 to |columns|
      invariant forall j | 0 <= j < i :: Same(a, b, columns[j])
    {
      if !Same(a, b, columns[i]) {
        return true;
      }
    }
    changed := false;
  }

  /** `enforce_scope_payload_erasure`, column by column. */
  method EnforcePayloadErasure(db: Database, t: Table, payload: seq<Column>, previous: Option<Row>, next: Row)
    returns (error: Option<Error>)
    ensures error == Verdict(db, t, payload, previous, next)
  {
    hide Blocked, Unredacted;
    var changed, introduces := previous.None?, previous.None?;
    if previous.Some? {
      var moved := AnyChanged(previous.value, next, OWNERS);
      if moved {
        return Some(OwnerImmutable);
      }
      if Get(previous.value, ScopeErasedAt) != Null {
        var touched := AnyChanged(previous.value, next, payload + MARKERS);
        return if touched then Some(PayloadImmutable) else None;
      }
      if Get(next, ScopeErasedAt) != Null {
        return if OnlyRedacts(previous.value, next, payload) then None else Some(RedactionOnly);
      }
      for i := 0 to |payload|
        invariant changed == exists j | 0 <= j < i :: !Same(previous.value, next, payload[j])
        invariant introduces ==
                  exists j | 0 <= j < i :: !Same(previous.value, next, payload[j]) && !Empty(Get(next, payload[j]))
      {
        changed := changed || !Same(previous.value, next, payload[i]);
        introduces := introduces || (!Same(previous.value, next, payload[i]) && !Empty(Get(next, payload[i])));
      }
    } else if Get(next, ScopeErasedAt) != Null {
      return Some(RequiresExistingRow);
    }
    if introduces && Get(next, RedactedAt) != Null {
      return Some(PayloadImmutable);
    }
    if changed && introduces && Blocked(db, t, Some(Unredacted(next))) {
      return Some(ScopeWriteBlocked);
    }
    error := None;
  }
}
