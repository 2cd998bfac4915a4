/**
 The payload guard written out: what stops a row by itself, which rows derive from which, and
 exactly which writes are accepted.
 */
module PayloadLaws {
  import opened Basics
  import opened PayloadGuard
  import opened PayloadRuns

  // ---------------------------------------------------------------------------
  // What blocks a row
  // ---------------------------------------------------------------------------

  /** The contact a row is about: its conversation's, or without a conversation its own. */
  function ContactOf(db: Database, row: Row): Option<Uuid> {
    match (Get(row, ConversationId), Get(row, ContactId), Get(row, AccountId))
    case (Null, Id(contact), _) => Some(contact)
    case (Id(c), _, Id(account)) =>
      if c in db.conversations && db.conversations[c].account == account then db.conversations[c].contact else None
    case _ => None
  }

  /**
   A row is bad by itself exactly when it is missing, erased or redacted, when its account is
   missing or on its way out, when its contact is being deleted, or when an erasure of its
   account or contact is on record.
   */
  lemma StopsExactly(db: Database, row: Option<Row>)
    ensures Stops(db, row) <==>
              || row == None
              || Get(row.value, ScopeErasedAt) != Null || Get(row.value, RedactedAt) != Null
              || !Get(row.value, AccountId).Id?
              || (var account := Get(row.value, AccountId).id;
                  || account !in db.accounts || db.accounts[account] == Deleting || db.accounts[account] == Deleted
                  || AccountErasure(account) in db.requests
                  || (match ContactOf(db, row.value)
                      case None => false
                      case Some(contact) =>
                        contact in db.deletingContacts || ContactErasure(account, contact) in db.requests))
  {
  }

  /** Derived rows, the rows they are part of, and the column that names those. */
  const PARENTS: set<(Table, Table, Column)> := {
    (MemoryVersions, Memories, MemoryId),
    (MemoryEvidence, MemoryVersions, Ref(MemoryVersionId)),
    (ProposalEvidence, MemoryProposals, ProposalId),
    (SummaryVersions, Summaries, SummaryId),
    (SummaryVersionSources, SummaryVersions, Ref(SummaryVersionId)),
    (MemoryManifestItems, MemoryManifests, ManifestId),
    (ContextManifestItems, ContextManifests, ManifestId),
    (ProactiveManifestItems, ProactiveManifests, ManifestId),
    (OccurrenceEvidence, ProactiveOccurrences, OccurrenceId),
    (MessageRevisions, Messages, MessageId)
  }

  /** The tables that reference columns point to. */
  const REFERENCES: set<(Reference, Table)> := {
    (MessageRevisionId, MessageRevisions), (MemoryVersionId, MemoryVersions), (OtherMemoryVersionId, MemoryVersions),
    (AcceptedMemoryVersionId, MemoryVersions), (SummaryVersionId, SummaryVersions),
    (PriorSummaryVersionId, SummaryVersions), (MemoryInputManifestId, MemoryManifests),
    (ProactiveInputManifestId, ProactiveManifests), (ContextManifestId, ContextManifests), (ModelRunId, ModelRuns)
  }

  /** The row of a table that a column names, if it is of the same account. */
  function Named(db: Database, t: Table, row: Row, c: Column): Option<Row> {
    match (Get(row, c), Get(row, AccountId))
    case (Id(id), Null) => None
    case (Id(id), account) =>
      if (t, id) in db.rows && Get(db.rows[(t, id)], AccountId) == account then Some(db.rows[(t, id)]) else None
    case _ => None
  }

  lemma NamedIsLookup(db: Database, t: Table, row: Row, c: Column)
    ensures Named(db, t, row, c) == Lookup(db, t, row, c)
  {
  }

  /** A part is blocked when the row it is part of is missing or blocked. */
  lemma PartsFollow(db: Database, t: Table, parent: Table, c: Column, row: Row)
    requires (t, parent, c) in PARENTS
    ensures var found := Named(db, parent, row, c);
            found.None? || Blocked(db, parent, found) ==> Blocked(db, t, Some(row))
  {
    hide Stops, Get, Lookup, Blocked;
    NamedIsLookup(db, parent, row, c);
    BlockedLocally(db, Node(t, Some(row)));
    var found := Lookup(db, parent, row, c);
    assert Leads(db, Node(t, Some(row)), Node(parent, found));
    BlockedLocally(db, Node(parent, found));
    if found.None? { NullStops(db); }
  }

  /** A row of a table that nothing looks up is blocked when a row it refers to is. */
  lemma ReferrersFollow(db: Database, k: nat, r: Reference, t: Table, row: Row)
    requires (r, t) in REFERENCES
    ensures var found := Named(db, t, row, Ref(r));
            found.Some? && Blocked(db, t, found) ==> Blocked(db, OtherTable(k), Some(row))
    ensures var found := Named(db, MessageRevisions, row, SourceId);
            && Get(row, SourceType) == MessageRevisionType && Get(row, SourceId) != Null
            && (found.None? || Blocked(db, MessageRevisions, found))
            ==> Blocked(db, OtherTable(k), Some(row))
  {
    hide Stops, Get, Lookup, Blocked;
    NamedIsLookup(db, t, row, Ref(r));
    NamedIsLookup(db, MessageRevisions, row, SourceId);
    BlockedLocally(db, Node(OtherTable(k), Some(row)));
    var found := Lookup(db, t, row, Ref(r));
    assert found.Some? ==> Leads(db, Node(OtherTable(k), Some(row)), Node(t, found));
    var source := Lookup(db, MessageRevisions, row, SourceId);
    BlockedLocally(db, Node(MessageRevisions, source));
    if source.None? { NullStops(db); }
    assert Get(row, SourceType) == MessageRevisionType && Get(row, SourceId) != Null ==>
             Leads(db, Node(OtherTable(k), Some(row)), Node(MessageRevisions, source));
  }

  /** Nothing else blocks a row. */
  lemma BlockedOnlyThrough(db: Database, t: Table, row: Row)
    requires Blocked(db, t, Some(row)) && !Stops(db, Some(row))
    ensures || (exists parent, c :: (t, parent, c) in PARENTS
                                    && (var found := Named(db, parent, row, c);
                                        found.None? || Blocked(db, parent, found)))
            || (exists r, target :: (r, target) in REFERENCES
                                    && (var found := Named(db, target, row, Ref(r));
                                        found.Some? && Blocked(db, target, found)))
            || (Get(row, SourceType) == MessageRevisionType && Get(row, SourceId) != Null
                && (var found := Named(db, MessageRevisions, row, SourceId);
                    found.None? || Blocked(db, MessageRevisions, found)))
  {
    hide Stops, Get, Lookup, Named, Blocked, Refers, Target, ParentOf, HasSource, PARENTS, REFERENCES;
    BlockedLocally(db, Node(t, Some(row)));
    var b :| Leads(db, Node(t, Some(row)), b) && Blocked(db, b.table, b.row);
    NamedIsLookup(db, MessageRevisions, row, SourceId);
    if b.row.Some? && ReferenceLeads(db, t, row, b) {
      var r: Reference :| Refers(t, r) && b == Node(Target(r), Lookup(db, Target(r), row, Ref(r)));
      NamedIsLookup(db, Target(r), row, Ref(r));
      TargetsListed(r);
    } else if ParentOf(t).Some? && b == Node(ParentOf(t).value.table,
                                             Lookup(db, ParentOf(t).value.table, row, ParentOf(t).value.column)) {
      var p := ParentOf(t).value;
      NamedIsLookup(db, p.table, row, p.column);
      ParentsListed(t);
    }
  }

  lemma TargetsListed(r: Reference)
    ensures (r, Target(r)) in REFERENCES
  {
  }

  lemma ParentsListed(t: Table)
    ensures ParentOf(t).Some? ==> (t, ParentOf(t).value.table, ParentOf(t).value.column) in PARENTS
  {
  }

  // ---------------------------------------------------------------------------
  // Which writes are accepted
  // ---------------------------------------------------------------------------

  /** The columns that say whose a row is. */
  const OWNING: set<Column> :=
    {AccountId, ContactId, ConversationId, MemoryId, SummaryId, ManifestId, OccurrenceId, ProposalId, DraftId,
     Ref(MessageRevisionId), Ref(MemoryVersionId), Ref(SummaryVersionId)}

  const MARKS: set<Column> := {ScopeErasedAt, RedactedAt, RedactionReason}

  ghost predicate SameOn(a: Row, b: Row, columns: iset<Column>) {
    forall c | c in columns :: Get(a, c) == Get(b, c)
  }

  /** Each payload column keeps its value or loses it. */
  predicate AddsNothing(previous: Row, next: Row, payload: seq<Column>) {
    forall c | c in payload :: Get(next, c) == Get(previous, c) || Get(next, c) in {Null, EmptyObject}
  }

  /** What the guard says to each write, in the order of its checks. */
  lemma DecidesExactly(db: Database, t: Table, payload: seq<Column>, previous: Option<Row>, next: Row)
    ensures Verdict(db, t, payload, previous, next) ==
              match previous
              case None =>
                if Get(next, ScopeErasedAt) != Null then Some(RequiresExistingRow)
                else if Get(next, RedactedAt) != Null then Some(PayloadImmutable)
                else if Blocked(db, t, Some(next)) then Some(ScopeWriteBlocked)
                else None
              case Some(p) =>
                if !SameOn(p, next, iset c | c in OWNING) then Some(OwnerImmutable)
                else if Get(p, ScopeErasedAt) != Null then
                  if SameOn(p, next, iset c | c in payload || c in MARKS) then None else Some(PayloadImmutable)
                else if Get(next, ScopeErasedAt) != Null then
                  if SameOn(p, next, iset c | c !in payload && c !in MARKS) then None else Some(RedactionOnly)
                else if AddsNothing(p, next, payload) then None
                else if Get(next, RedactedAt) != Null then Some(PayloadImmutable)
                else if Blocked(db, t, Some(next)) then Some(ScopeWriteBlocked)
                else None
  {
    hide Get, Blocked, Unredacted;
    if Get(next, RedactedAt) == Null {
      UnredactedIsBlockedAlike(db, t, next);
    }
    if previous.Some? {
      OwnersCompared(previous.value, next);
      MarksCompared(previous.value, next, payload);
      OutsideCompared(previous.value, next, payload);
      AdditionsCompared(previous.value, next, payload);
    }
  }

  lemma OwnersCompared(p: Row, next: Row)
    ensures Changed(p, next, OWNERS) <==> !SameOn(p, next, iset c | c in OWNING)
  {
    hide Get;
    forall c ensures c in OWNERS <==> c in OWNING {
      OwnersAre(c);
    }
  }

  lemma MarksCompared(p: Row, next: Row, payload: seq<Column>)
    ensures Changed(p, next, payload + MARKERS) <==> !SameOn(p, next, iset c | c in payload || c in MARKS)
  {
    hide Get;
    assert MARKERS[0] == ScopeErasedAt && MARKERS[1] == RedactedAt && MARKERS[2] == RedactionReason;
    assert forall c :: c in payload + MARKERS <==> c in payload || c in MARKS;
  }

  lemma OutsideCompared(p: Row, next: Row, payload: seq<Column>)
    ensures OnlyRedacts(p, next, payload) <==> SameOn(p, next, iset c | c !in payload && c !in MARKS)
  {
    assert MARKERS[0] == ScopeErasedAt && MARKERS[1] == RedactedAt && MARKERS[2] == RedactionReason;
    assert forall c :: c in payload + MARKERS <==> c in payload || c in MARKS;
    if OnlyRedacts(p, next, payload) {
      forall c | c !in payload && c !in MARKS ensures Get(p, c) == Get(next, c) {
        if c in p.Keys + next.Keys { assert Same(p, next, c); }
      }
    }
  }

  lemma AdditionsCompared(p: Row, next: Row, payload: seq<Column>)
    ensures Introduces(p, next, payload) <==> !AddsNothing(p, next, payload)
  {
    hide Get;
  }

  /** A run stores its admitted writes one after the other, each in its row and in no other. */
  lemma RunsGoOn(db: Database, steps: seq<Step>, t: Table, id: Uuid, next: Row)
    ensures Run(db, []) == db
    ensures var before, after := Run(db, steps), Run(db, steps + [WriteRow(t, id, next)]);
            && (t, id) in after.rows && after.rows[(t, id)] == next
            && after == before.(rows := after.rows)
            && (forall k | k != (t, id) :: k in after.rows <==> k in before.rows)
            && (forall k | k in before.rows && k != (t, id) :: after.rows[k] == before.rows[k])
  {
    var all := steps + [WriteRow(t, id, next)];
    assert all[..|all| - 1] == steps;
  }
}
