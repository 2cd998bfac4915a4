/**
 Redacting a scope, written out: that exactly the rows whose scope the request closes are
 matched, and what becomes of each of them.
 */
module RedactionLaws {
  import opened Basics
  import opened MetadataGuard
  import opened MetadataRuns
  import opened MetadataLaws
  import opened MetadataRedaction
  import P = PayloadGuard

  /** The erasure that a redaction carries out. */
  function RequestOf(req: Request): P.ErasureRequest {
    if req.contact.None? then P.AccountErasure(req.account) else P.ContactErasure(req.account, req.contact.value)
  }

  /** Nothing but this erasure closes any scope. */
  ghost predicate OnlyThis(db: P.Database, req: Request) {
    && db.requests == {RequestOf(req)} && db.deletingContacts == {}
    && forall a | a in db.accounts :: db.accounts[a] == P.Active
  }

  /**
   Whatever row the erasure alone closes is matched by its redaction: no row that may no longer
   be written to is left with its metadata.
   */
  lemma ClosedRowsMatch(db: Database, t: Table, row: Row, req: Request)
    requires OnlyThis(db.fence, req) && Blocked(db, t, row)
    requires var owner := OwnerOf(db.rows, t, Some(row));
             !owner.erased && owner.account.Id? && owner.account.id in db.fence.accounts
    ensures Matches(db, t, row, req)
  {
    hide Blocked, CleanupNotice, OwnerOf;
    BlockedExactly(db, t, row);
  }

  /**
   A row is matched exactly when it is no notice, is of the request's account, and for one
   contact: is that contact's own or in a conversation with it, or is a run or attempt whose run
   was erased before.
   */
  lemma MatchesExactly(db: Database, t: Table, row: Row, req: Request)
    ensures var owner := OwnerOf(db.rows, t, Some(row));
            Matches(db, t, row, req) <==>
              && !CleanupNotice(db.rows, t, row) && owner.account == Id(req.account)
              && (req.contact.None?
                  || owner.contact == Id(req.contact.value)
                  || (owner.conversation.Id? && owner.conversation.id in db.fence.conversations
                      && db.fence.conversations[owner.conversation.id].account == req.account
                      && db.fence.conversations[owner.conversation.id].contact == req.contact)
                  || ((t == ModelRuns || t == ModelRunAttempts) && owner.erased))
  {
    hide CleanupNotice, OwnerOf;
  }

  function OrElse(v: Value, otherwise: Value): Value {
    if v != Null then v else otherwise
  }

  function Increased(v: Value): Value {
    match v
    case Number(n) => Number(n + 1)
    case _ => Null
  }

  /** What redaction leaves of a row: no metadata, the marker, and everything else that says nothing. */
  lemma RedactedExactly(t: Table, rule: Rule, row: Row, now: Time, c: Column)
    requires Sound(t, rule)
    ensures var r := Redacted(t, rule, row, now);
            if c == MetadataErasedAt then Get(r, c) == At(now)
            else if c in rule.nulls then Get(r, c) == Null
            else if c in rule.objects then Get(r, c) == EmptyObject
            else if c in rule.falses then Get(r, c) == False
            else c in Touchable(t) || Get(r, c) == Get(row, c)
  {
    hide Emptied, Finish, Marked, Redacted;
    EmptiedIsBare(rule, row);
    NotOwners(t, rule);
    SoundColumn(t, rule, c);
    RedactedByColumn(t, rule, row, now);
    FinishTouches(t, row, now);
    FinishIsTouchable(t, row, now, c);
    MarkedByColumn(rule, row, now, c);
  }

  lemma FinishIsTouchable(t: Table, row: Row, now: Time, c: Column)
    ensures c in Finish(t, row, now) ==> c in Touchable(t)
  {
  }

  lemma MarkedByColumn(rule: Rule, row: Row, now: Time, c: Column)
    ensures Get(Marked(rule, row, now), c) == if c == MetadataErasedAt then At(now) else Get(Emptied(rule, row), c)
  {
    hide Emptied;
  }

  /** A redacted job or outbox row is over. */
  lemma RedactedWorkExactly(t: Table, rule: Rule, row: Row, now: Time)
    ensures var r := Redacted(t, rule, row, now);
            && (t == BackgroundJobs ==>
                  && Get(r, State) == (if Waiting(row) then StateIs(Cancelled) else Get(row, State))
                  && Get(r, LeaseOwner) == Null && Get(r, LeaseExpiresAt) == Null
                  && Get(r, CompletedAt) == OrElse(Get(row, CompletedAt), At(now))
                  && Get(r, Version) == Increased(Get(row, Version))
                  && Get(r, FencingToken) == Increased(Get(row, FencingToken))
                  && Get(r, LastErrorCode) == Data(0))
            && (t == Outbox ==>
                  Get(r, PublishedAt) == OrElse(Get(row, PublishedAt), At(now)) && Get(r, LastErrorCode) == Data(0))
  {
    hide Marked, Redacted;
    RedactedByColumn(t, rule, row, now);
  }

  lemma SoundColumn(t: Table, rule: Rule, c: Column)
    requires Sound(t, rule)
    ensures c in rule.nulls || c in rule.objects || c in rule.falses ==> c.Private? || c == Payload
  {
    if c in rule.nulls || c in rule.objects || c in rule.falses {
      assert c in Columns(rule);
    }
  }

  /** Each matched row becomes exactly that, and reactions and edit sessions go. */
  lemma RedactsExactly(db: Database, rules: Rules, req: Request, now: Time, order: seq<(Table, Uuid)>,
                       k: (Table, Uuid))
    requires SoundRules(rules) && JobsLast(order) && Covers(order, db, rules)
    requires RedactScope(db, rules, req, now, order).Ok? && k in db.rows
    ensures var after := RedactScope(db, rules, req, now, order).value.rows;
            var row := db.rows[k];
            if k.0 == MessageReactions || k.0 == EditSessions then
              if Matches(db, k.0, row, req) then k !in after else k in after && after[k] == row
            else
              && k in after
              && after[k] == if k.0 in rules && Matches(db, k.0, row, req) && Get(row, MetadataErasedAt) == Null
                             then Redacted(k.0, rules[k.0], row, now) else row
  {
    hide Redacted, Matches, Guard, Sound, Stage, RunsWereDue, JobsLast, RedactRows;
    OneByOneIsAtOnce(db, rules, req, now, order);
    var mid := AtOnce(db, rules, req, now, order);
    AtOnceIsAStage(db, rules, req, now, order, false);
    if k.0 !in rules && Deletable(k.0) {
      MatchAlike(db, mid, false, req, k.0, db.rows[k]);
    }
  }

  /** What the guard on deletable rows says to each write. */
  lemma DeletableDecidesExactly(db: Database, t: Table, previous: Option<Row>, next: Row)
    ensures DeletableError(db, t, previous, next) ==
              if previous.Some? && exists c | c in {RowId, AccountId, ConversationId, MessageId, DraftId} ::
                                     Get(previous.value, c) != Get(next, c)
              then Some(OwnerImmutable)
              else if (previous.Some? && Blocked(db, t, previous.value)) || Blocked(db, t, next) then Some(WriteBlocked)
              else None
  {
    hide Blocked;
    if previous.Some? {
      DeletableOwners(previous.value, next);
    }
  }

  lemma DeletableOwners(previous: Row, next: Row)
    ensures AnyChanged(previous, next, [RowId, AccountId, ConversationId, MessageId, DraftId])
            <==> exists c | c in {RowId, AccountId, ConversationId, MessageId, DraftId} ::
                   Get(previous, c) != Get(next, c)
  {
    hide Get;
    var owners := [RowId, AccountId, ConversationId, MessageId, DraftId];
    assert owners[0] == RowId && owners[1] == AccountId && owners[2] == ConversationId && owners[3] == MessageId
        && owners[4] == DraftId;
    if c :| c in {RowId, AccountId, ConversationId, MessageId, DraftId} && Get(previous, c) != Get(next, c) {
      assert c in owners && !Same(previous, next, c);
    }
  }

  // ---------------------------------------------------------------------------
  // Rows cannot leave their scope
  // ---------------------------------------------------------------------------

  /** An accepted update leaves the row with the owner it had; only a job's payload may route it elsewhere. */
  lemma AcceptedUpdateKeepsOwner(db: Database, rule: Rule, t: Table, previous: Row, next: Row, now: Time)
    requires Sound(t, rule) && Guard(db, t, rule, Some(previous), next, now).Store?
    requires var stored := Guard(db, t, rule, Some(previous), next, now).row;
             t == BackgroundJobs ==> Get(stored, Payload) == Get(previous, Payload)
    ensures var stored := Guard(db, t, rule, Some(previous), next, now).row;
            var a, b := OwnerOf(db.rows, t, Some(previous)), OwnerOf(db.rows, t, Some(stored));
            a.account == b.account && a.contact == b.contact && a.conversation == b.conversation
  {
    hide Guard, OwnerOf, Sound, Get;
    var stored := Guard(db, t, rule, Some(previous), next, now).row;
    GuardKeepsOwners(db, t, rule, previous, next, now, stored);
    OwnersKeptAre(t, previous, stored);
    OwnerByColumns(db.rows, t, previous, stored);
  }

  /** The columns through which owners are found. */
  ghost predicate OwningAlike(t: Table, a: Row, b: Row) {
    && Get(a, RowId) == Get(b, RowId) && Get(a, AccountId) == Get(b, AccountId)
    && Get(a, ContactId) == Get(b, ContactId) && Get(a, ConversationId) == Get(b, ConversationId)
    && Get(a, PeerId) == Get(b, PeerId)
    && Get(a, MessageId) == Get(b, MessageId) && Get(a, MessageRevisionId) == Get(b, MessageRevisionId)
    && (t != CopilotDrafts ==> Get(a, ModelRunId) == Get(b, ModelRunId))
    && Get(a, AggregateType) == Get(b, AggregateType) && Get(a, AggregateId) == Get(b, AggregateId)
    && Get(a, TargetType) == Get(b, TargetType) && Get(a, TargetId) == Get(b, TargetId)
  }

  lemma OwnersKeptAre(t: Table, a: Row, b: Row)
    requires OwnersKept(t, a, b)
    ensures OwningAlike(t, a, b)
  {
    hide Get, OWNERS, OWNING;
    forall c | c in {RowId, AccountId, ContactId, ConversationId, PeerId, MessageId, MessageRevisionId, ModelRunId,
                     AggregateType, AggregateId, TargetType, TargetId}
      ensures Same(a, b, c) || (c == ModelRunId && t == CopilotDrafts)
    {
      IsOwning(c);
    }
    assert t != CopilotDrafts ==> Same(a, b, ModelRunId);
    assert Same(a, b, RowId) && Same(a, b, AccountId) && Same(a, b, ContactId) && Same(a, b, ConversationId)
        && Same(a, b, PeerId) && Same(a, b, MessageId) && Same(a, b, MessageRevisionId) && Same(a, b, AggregateType)
        && Same(a, b, AggregateId) && Same(a, b, TargetType) && Same(a, b, TargetId);
  }

  lemma IsOwning(c: Column)
    requires c in {RowId, AccountId, ContactId, ConversationId, PeerId, MessageId, MessageRevisionId, ModelRunId,
                   AggregateType, AggregateId, TargetType, TargetId}
    ensures c in OWNERS
  {
    OwningListed(c);
  }

  lemma OwnerByColumns(rows: Rows, t: Table, a: Row, b: Row)
    requires OwningAlike(t, a, b) && (t == BackgroundJobs ==> Get(a, Payload) == Get(b, Payload))
    ensures var x, y := OwnerOf(rows, t, Some(a)), OwnerOf(rows, t, Some(b));
            x.account == y.account && x.contact == y.contact && x.conversation == y.conversation
  {
    hide Get;
    if t == AccountPeers {
      forall c ensures PeerContact(rows, a, c) == PeerContact(rows, b, c) {}
      assert ContactsOfPeer(rows, a) == ContactsOfPeer(rows, b);
    } else if t == ModelRunAttempts {
    } else {
      assert RouteOf(t, a) == RouteOf(t, b);
      RoutesGoDown(t, a);
    }
  }
}
