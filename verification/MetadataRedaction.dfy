/**
 Redacting a scope: rows are updated one by one, each matched against the tables as they have
 become by then.  Because routing survives redaction and job payloads go last, the outcome is
 that of redacting at once every row that matched at entry.
 */
module MetadataRedaction {
  import opened Basics
  import opened MetadataGuard
  import opened MetadataRuns
  import P = PayloadGuard

  datatype Request = Request(account: Uuid, contact: Option<Uuid>)

  predicate ConversationOf(db: P.Database, conversation: Value, account: Uuid, contact: Uuid) {
    && conversation.Id? && conversation.id in db.conversations
    && db.conversations[conversation.id] == P.Conversation(account, Some(contact))
  }

  /** `scope_metadata_matches` */
  predicate Matches(db: Database, t: Table, row: Row, req: Request) {
    && !CleanupNotice(db.rows, t, row)
    && var owner := OwnerOf(db.rows, t, Some(row));
       && owner.account == Id(req.account)
       && (req.contact.Some? ==>
             || ((t == ModelRuns || t == ModelRunAttempts) && owner.erased)
             || owner.contact == Id(req.contact.value)
             || ConversationOf(db.fence, owner.conversation, req.account, req.contact.value))
  }

  /** What the redactor assigns to jobs and outbox rows beside emptying them. */
  function Finish(t: Table, row: Row, now: Time): Row {
    match t
    case BackgroundJobs =>
      map[State := if Runnable(row) then StateIs(Cancelled) else Get(row, State),
          LeaseOwner := Null, LeaseExpiresAt := Null,
          CompletedAt := Coalesce(Get(row, CompletedAt), At(now)),
          Version := Next(Get(row, Version)), FencingToken := Next(Get(row, FencingToken)),
          LastErrorCode := Data(0)]
    case Outbox => map[PublishedAt := Coalesce(Get(row, PublishedAt), At(now)), LastErrorCode := Data(0)]
    case _ => map[]
  }

  /** The assignments of the redactor's UPDATE. */
  function Redacted(t: Table, rule: Rule, row: Row, now: Time): Row {
    Marked(rule, row, now) + Finish(t, row, now)
  }

  function Next(v: Value): Value {
    if v.Number? then Number(v.n + 1) else Null
  }

  predicate Due(db: Database, rules: Rules, req: Request, k: (Table, Uuid)) {
    k in db.rows && k.0 in rules && !Erased(db.rows[k]) && Matches(db, k.0, db.rows[k], req)
  }

  /** One row of an UPDATE, under the guard. */
  function RedactRow(db: Database, rules: Rules, req: Request, now: Time, k: (Table, Uuid)): Result<Database, Error> {
    if !Due(db, rules, req, k) then Ok(db)
    else
      match Guard(db, k.0, rules[k.0], Some(db.rows[k]), Redacted(k.0, rules[k.0], db.rows[k], now), now)
      case Reject(error) => Err(error)
      case Store(row) => Ok(db.(rows := db.rows[k := row]))
  }

  function RedactRows(db: Database, rules: Rules, req: Request, now: Time, order: seq<(Table, Uuid)>)
    : Result<Database, Error>
  {
    if order == [] then Ok(db)
    else
      match RedactRows(db, rules, req, now, order[..|order| - 1])
      case Err(error) => Err(error)
      case Ok(mid) => RedactRow(mid, rules, req, now, order[|order| - 1])
  }

  predicate Deletable(t: Table) {
    t == MessageReactions || t == EditSessions
  }

  function DeleteRows(db: Database, req: Request): Database {
    db.(rows := map k | k in db.rows && !(Deletable(k.0) && Matches(db, k.0, db.rows[k], req)) :: db.rows[k])
  }

  /** The updates and deletions of `redact_scope_metadata`. */
  function RedactScope(db: Database, rules: Rules, req: Request, now: Time, order: seq<(Table, Uuid)>)
    : Result<Database, Error>
  {
    match RedactRows(db, rules, req, now, order)
    case Err(error) => Err(error)
    case Ok(after) => Ok(DeleteRows(after, req))
  }

  /** Job payloads are erased after everything else, in whatever order otherwise. */
  predicate JobsLast(order: seq<(Table, Uuid)>) {
    && (forall i, j | 0 <= i < j < |order| :: order[i] != order[j])
    && (forall i, j | 0 <= i < j < |order| && order[i].0 == BackgroundJobs :: order[j].0 == BackgroundJobs)
  }

  predicate SoundRules(rules: Rules) {
    forall t | t in rules :: Sound(t, rules[t]) && !Deletable(t)
  }

  // ---------------------------------------------------------------------------
  // Routing survives redaction
  // ---------------------------------------------------------------------------

  /** Columns through which owners are resolved; a job's payload is dealt with apart. */
  predicate Routes(c: Column) {
    match c
    case Private(_) | MetadataErasedAt | Payload | State | LeaseOwner | LeaseExpiresAt | CompletedAt | Version
       | FencingToken | LastErrorCode | PublishedAt => false
    case _ => true
  }

  ghost predicate Alike(a: Row, b: Row) {
    && (forall c | Routes(c) :: Same(a, b, c))
    && (Erased(a) ==> Erased(b))
  }

  lemma FinishTouches(t: Table, row: Row, now: Time)
    ensures forall c | c in Finish(t, row, now) :: !Routes(c) && !c.Private? && c != Payload && c != MetadataErasedAt
  {
    hide Runnable, Next, Coalesce, Get;
  }

  lemma FinishStops(t: Table, row: Row, now: Time)
    ensures t == BackgroundJobs ==> State in Finish(t, row, now) && !Runnable(Finish(t, row, now))
    ensures t == Outbox ==> PublishedAt in Finish(t, row, now) && Finish(t, row, now)[PublishedAt] != Null
  {
  }

  lemma FinishIsMutable(t: Table, rule: Rule, row: Row, now: Time)
    ensures forall c | c in Finish(t, row, now) :: c in Mutable(t, rule)
  {
    hide Columns;
    var fixed := Columns(rule) + [MetadataErasedAt];
    if t == BackgroundJobs {
      var more := [State, LeaseOwner, LeaseExpiresAt, CompletedAt, Version, FencingToken, LastErrorCode];
      assert Mutable(t, rule) == fixed + more;
      assert more[0] == State && more[1] == LeaseOwner && more[2] == LeaseExpiresAt && more[3] == CompletedAt
          && more[4] == Version && more[5] == FencingToken && more[6] == LastErrorCode;
      assert forall c | c in more :: c in fixed + more;
    } else if t == Outbox {
      var more := [PublishedAt, LastErrorCode];
      assert more[0] == PublishedAt && more[1] == LastErrorCode;
      assert forall c | c in more :: c in fixed + more;
    }
  }

  lemma RedactedByColumn(t: Table, rule: Rule, row: Row, now: Time)
    ensures var r, f, m := Redacted(t, rule, row, now), Finish(t, row, now), Marked(rule, row, now);
            forall c :: Get(r, c) == if c in f then f[c] else Get(m, c)
  {
    hide Finish, Marked;
  }

  lemma RedactedRoutesAlike(t: Table, rule: Rule, row: Row, now: Time)
    requires Sound(t, rule)
    ensures var r := Redacted(t, rule, row, now); Alike(row, r) && Erased(r)
  {
    hide Finish, Marked, Columns, Get, Redacted, Same;
    RedactedByColumn(t, rule, row, now);
    FinishTouches(t, row, now);
    MarkedGets(rule, row, now);
    var r := Redacted(t, rule, row, now);
    forall c | Routes(c)
      ensures Same(row, r, c)
    {
      assert c !in Columns(rule);
      assert Same(Marked(rule, row, now), row, c);
      ComparesBy(row, r, c);
      ComparesBy(Marked(rule, row, now), row, c);
    }
  }

  lemma ComparesBy(a: Row, b: Row, c: Column)
    ensures Same(a, b, c) <==> Get(a, c) == Get(b, c)
  {
  }

  lemma RedactedIsEmpty(t: Table, rule: Rule, row: Row, now: Time)
    requires Sound(t, rule)
    ensures var r := Redacted(t, rule, row, now); Stopped(t, r) && Check(rule, r)
  {
    hide Finish, Marked, Columns, Redacted, EmptyValue;
    RedactedByColumn(t, rule, row, now);
    FinishTouches(t, row, now);
    FinishStops(t, row, now);
    MarkedGets(rule, row, now);
    NotOwners(t, rule);
  }

  lemma RedactedOnlyRedacts(t: Table, rule: Rule, row: Row, now: Time)
    requires Sound(t, rule)
    ensures OnlyRedacts(t, rule, row, Redacted(t, rule, row, now))
  {
    hide Finish, Marked, Columns, Redacted, Get, Same;
    RedactedByColumn(t, rule, row, now);
    FinishIsMutable(t, rule, row, now);
    MarkedGets(rule, row, now);
    var r := Redacted(t, rule, row, now);
    forall c | c !in Mutable(t, rule)
      ensures Same(row, r, c)
    {
      assert [MetadataErasedAt][0] == MetadataErasedAt;
      assert c !in Columns(rule) && c != MetadataErasedAt;
      ComparesBy(row, r, c);
      ComparesBy(Marked(rule, row, now), row, c);
    }
  }

  /** A later state of the tables during redaction. */
  ghost predicate Stage(a: Database, b: Database, jobsUntouched: bool) {
    && a.fence == b.fence && a.rows.Keys == b.rows.Keys
    && (forall k | k in a.rows :: Alike(a.rows[k], b.rows[k]))
    && (jobsUntouched ==> forall k | k in a.rows && k.0 == BackgroundJobs :: a.rows[k] == b.rows[k])
  }

  lemma FindAlike(a: Database, b: Database, jobs: bool, t: Table, id: Value)
    requires Stage(a, b, jobs)
    ensures var x, y := Find(a.rows, t, id), Find(b.rows, t, id);
            && (x.Some? <==> y.Some?)
            && (x.Some? ==> Alike(x.value, y.value))
            && (x.Some? && jobs && t == BackgroundJobs ==> x == y)
  {
    hide Alike;
  }

  lemma PeerAlike(a: Database, b: Database, jobs: bool, peer: Row, peer': Row, contact: Uuid)
    requires Stage(a, b, jobs) && Alike(peer, peer')
    ensures PeerContact(a.rows, peer, contact) == PeerContact(b.rows, peer', contact)
  {
    hide Find, Get;
    if (Contacts, contact) in a.rows {
      var x, y := a.rows[(Contacts, contact)], b.rows[(Contacts, contact)];
      assert Same(x, y, AccountId) && Same(x, y, AccountPeerId);
      FindAlike(a, b, jobs, AccountPeers, Get(x, AccountPeerId));
      assert Same(peer, peer', AccountId) && Same(peer, peer', RowId) && Same(peer, peer', PeerId);
      var p, q := Find(a.rows, AccountPeers, Get(x, AccountPeerId)), Find(b.rows, AccountPeers, Get(x, AccountPeerId));
      if p.Some? {
        assert Same(p.value, q.value, AccountId) && Same(p.value, q.value, RowId) && Same(p.value, q.value, PeerId);
      }
    }
  }

  lemma ContactsAlike(a: Database, b: Database, jobs: bool, peer: Row, peer': Row)
    requires Stage(a, b, jobs) && Alike(peer, peer')
    ensures ContactOfPeer(a.rows, peer) == ContactOfPeer(b.rows, peer')
  {
    hide PeerContact, Alike;
    forall c
      ensures PeerContact(a.rows, peer, c) == PeerContact(b.rows, peer', c)
    {
      PeerAlike(a, b, jobs, peer, peer', c);
    }
    assert forall c :: c in ContactsOfPeer(a.rows, peer) ==> (Contacts, c) in a.rows && PeerContact(a.rows, peer, c);
    forall c
      ensures c in ContactsOfPeer(a.rows, peer) <==> c in ContactsOfPeer(b.rows, peer')
    {
      PeerMember(a.rows, peer, c);
      PeerMember(b.rows, peer', c);
    }
    assert ContactsOfPeer(a.rows, peer) == ContactsOfPeer(b.rows, peer');
  }

  lemma PeerMember(rows: Rows, peer: Row, c: Uuid)
    ensures c in ContactsOfPeer(rows, peer) <==> PeerContact(rows, peer, c)
  {
    if PeerContact(rows, peer, c) {
      assert (Contacts, c) in rows && (Contacts, c).1 == c;
    }
  }

  predicate SameOwner(a: Owner, b: Owner) {
    a.account == b.account && a.contact == b.contact && a.conversation == b.conversation && (a.erased ==> b.erased)
  }

  lemma OwnAlike(a: Option<Row>, b: Option<Row>)
    requires a.Some? <==> b.Some?
    requires a.Some? ==> Alike(a.value, b.value)
    ensures SameOwner(Own(a), Own(b))
  {
    if a.Some? {
      assert Same(a.value, b.value, AccountId) && Same(a.value, b.value, ContactId)
          && Same(a.value, b.value, ConversationId) && Same(a.value, b.value, ScopeErasedAt);
    }
  }

  lemma RouteAlike(t: Table, a: Row, b: Row)
    requires Alike(a, b) && (t == BackgroundJobs ==> a == b)
    ensures RouteOf(t, a) == RouteOf(t, b)
  {
    assert Same(a, b, MessageRevisionId) && Same(a, b, MessageId) && Same(a, b, AggregateType)
        && Same(a, b, TargetType) && Same(a, b, AggregateId) && Same(a, b, TargetId);
  }

  /** The owner of a row is resolved alike while jobs are untouched, and without them where they do not matter. */
  lemma {:induction false} OwnerAlike(a: Database, b: Database, jobs: bool, t: Table, x: Option<Row>, y: Option<Row>)
    requires Stage(a, b, jobs) && (x.Some? <==> y.Some?)
    requires x.Some? ==> Alike(x.value, y.value) && (t == BackgroundJobs ==> x == y)
    requires jobs || (t != Outbox && t != AuditLog)
    ensures SameOwner(OwnerOf(a.rows, t, x), OwnerOf(b.rows, t, y))
    decreases Rank(t)
  {
    hide Stage, Alike, ContactOfPeer, Get, RouteOf, Own;
    OwnAlike(x, y);
    if x.Some? {
      AccountsAlike(x.value, y.value);
      if t.AccountPeers? {
        ContactsAlike(a, b, jobs, x.value, y.value);
      } else if t.ModelRunAttempts? {
        FindAlike(a, b, jobs, ModelRuns, Get(x.value, ModelRunId));
        OwnAlike(Find(a.rows, ModelRuns, Get(x.value, ModelRunId)), Find(b.rows, ModelRuns, Get(x.value, ModelRunId)));
      } else if !t.Accounts? && !t.Contacts? {
        RouteAlike(t, x.value, y.value);
        RoutesGoDown(t, x.value);
        if RouteOf(t, x.value).To? {
          ParentAlike(a, b, jobs, t, x.value, y.value);
        }
      }
    }
  }

  lemma AccountsAlike(x: Row, y: Row)
    requires Alike(x, y)
    ensures Get(x, AccountId) == Get(y, AccountId) && Get(x, RowId) == Get(y, RowId)
    ensures Get(x, ModelRunId) == Get(y, ModelRunId)
  {
    assert Same(x, y, AccountId) && Same(x, y, RowId) && Same(x, y, ModelRunId);
  }

  lemma {:induction false} ParentAlike(a: Database, b: Database, jobs: bool, t: Table, x: Row, y: Row)
    requires Stage(a, b, jobs) && Alike(x, y) && RouteOf(t, x).To?
    requires Rank(RouteOf(t, x).table) < Rank(t)
    requires jobs || (t != Outbox && t != AuditLog)
    ensures var target, id := RouteOf(t, x).table, RouteOf(t, x).id;
            var p, q := Find(a.rows, target, id), Find(b.rows, target, id);
            && (p.Some? <==> q.Some?)
            && (p.Some? ==> Same(p.value, x, AccountId) == Same(q.value, y, AccountId))
            && SameOwner(OwnerOf(a.rows, target, p), OwnerOf(b.rows, target, q))
    decreases Rank(t), 0
  {
    hide Stage, Alike, ContactOfPeer, OwnerOf, Own, Get;
    var target, id := RouteOf(t, x).table, RouteOf(t, x).id;
    var p, q := Find(a.rows, target, id), Find(b.rows, target, id);
    FindAlike(a, b, jobs, target, id);
    AccountsAlike(x, y);
    if p.Some? {
      AccountsAlike(p.value, q.value);
    }
    JobsAreReferredToByNoticesOnly(t, x);
    OwnerAlike(a, b, jobs, target, p, q);
  }

  lemma JobsAreReferredToByNoticesOnly(t: Table, row: Row)
    requires RouteOf(t, row).To?
    ensures RouteOf(t, row).table == BackgroundJobs ==> t == Outbox || t == AuditLog
    ensures RouteOf(t, row).table != Outbox && RouteOf(t, row).table != AuditLog
  {
  }

  lemma NoticeAlike(a: Database, b: Database, jobs: bool, t: Table, row: Row)
    requires Stage(a, b, jobs) && (jobs || t != Outbox)
    ensures CleanupNotice(a.rows, t, row) == CleanupNotice(b.rows, t, row)
  {
    hide Stage, Alike, Get, JobNotice, Find;
    if t == BackgroundJobs {
      JobNoticeAlike(a, b, jobs, row);
    } else if t == Outbox {
      FindAlike(a, b, jobs, BackgroundJobs, Get(row, AggregateId));
      if Find(a.rows, BackgroundJobs, Get(row, AggregateId)).Some? {
        JobNoticeAlike(a, b, jobs, Find(a.rows, BackgroundJobs, Get(row, AggregateId)).value);
      }
    }
  }

  lemma JobNoticeAlike(a: Database, b: Database, jobs: bool, row: Row)
    requires Stage(a, b, jobs)
    ensures JobNotice(a.rows, row) == JobNotice(b.rows, row)
  {
    hide Stage, Alike, Get, Find;
    FindAlike(a, b, jobs, ErasureRequests, Get(row, RowId));
    var x, y := Find(a.rows, ErasureRequests, Get(row, RowId)), Find(b.rows, ErasureRequests, Get(row, RowId));
    if x.Some? {
      AccountsAlike(x.value, y.value);
      ComparesBy(x.value, row, AccountId);
      ComparesBy(y.value, row, AccountId);
    }
  }

  /** Only runs that were due have become erased. */
  ghost predicate RunsWereDue(a: Database, b: Database, req: Request) {
    forall k | k in a.rows && k in b.rows && k.0 == ModelRuns && !Erased(a.rows[k]) && Erased(b.rows[k]) ::
      Matches(a, ModelRuns, a.rows[k], req)
  }

  /** An untouched row matches now exactly when it matched at entry. */
  lemma MatchAlike(a: Database, b: Database, jobs: bool, req: Request, t: Table, row: Row)
    requires Stage(a, b, jobs) && RunsWereDue(a, b, req)
    requires jobs || (t != Outbox && t != AuditLog)
    ensures Matches(a, t, row, req) == Matches(b, t, row, req)
  {
    hide Stage, Alike, OwnerOf, CleanupNotice, RunsWereDue, Find;
    NoticeAlike(a, b, jobs, t, row);
    AlikeItself(row);
    OwnerAlike(a, b, jobs, t, Some(row), Some(row));
    SameFence(a, b, jobs);
    if t == ModelRuns {
      RunOwner(a.rows, row);
      RunOwner(b.rows, row);
    } else if t == ModelRunAttempts {
      AttemptOwner(a, b, jobs, req, row);
    }
  }

  lemma SameFence(a: Database, b: Database, jobs: bool)
    requires Stage(a, b, jobs)
    ensures a.fence == b.fence
  {
  }

  lemma AlikeItself(row: Row)
    ensures Alike(row, row)
  {
  }

  lemma RunOwner(rows: Rows, row: Row)
    ensures OwnerOf(rows, ModelRuns, Some(row)) == Own(Some(row))
  {
  }

  /** An attempt has its run's owner, so it is erased newly only if it matched with its run. */
  lemma AttemptOwner(a: Database, b: Database, jobs: bool, req: Request, row: Row)
    requires Stage(a, b, jobs) && RunsWereDue(a, b, req)
    ensures var x, y := OwnerOf(a.rows, ModelRunAttempts, Some(row)), OwnerOf(b.rows, ModelRunAttempts, Some(row));
            y.erased && !x.erased ==> Matches(a, ModelRunAttempts, row, req)
  {
    hide Stage, Alike, CleanupNotice;
    var id := Get(row, ModelRunId);
    FindAlike(a, b, jobs, ModelRuns, id);
    var x, y := Find(a.rows, ModelRuns, id), Find(b.rows, ModelRuns, id);
    if x.Some? && Own(y).erased && !Own(x).erased {
      ErasedNewly(x.value, y.value);
      InBoth(a, b, jobs, (ModelRuns, id.id));
      RunOwner(a.rows, x.value);
      assert Matches(a, ModelRuns, x.value, req);
      NoNotice(a.rows, row);
    }
  }

  lemma ErasedNewly(x: Row, y: Row)
    requires Alike(x, y) && Own(Some(y)).erased && !Own(Some(x)).erased
    ensures !Erased(x) && Erased(y)
  {
    assert Same(x, y, ScopeErasedAt);
  }

  lemma InBoth(a: Database, b: Database, jobs: bool, k: (Table, Uuid))
    requires Stage(a, b, jobs) && k in a.rows
    ensures k in b.rows
  {
  }

  lemma NoNotice(rows: Rows, row: Row)
    ensures !CleanupNotice(rows, ModelRunAttempts, row)
  {
  }

  // ---------------------------------------------------------------------------
  // One by one is all at once
  // ---------------------------------------------------------------------------

  /** Every row of `keys` that is due at entry, redacted; all others as they were. */
  function AtOnce(db: Database, rules: Rules, req: Request, now: Time, keys: seq<(Table, Uuid)>): Database {
    db.(rows := map k | k in db.rows ::
          if k in keys && Due(db, rules, req, k) then Redacted(k.0, rules[k.0], db.rows[k], now) else db.rows[k])
  }

  lemma AtOnceIsAStage(db: Database, rules: Rules, req: Request, now: Time, keys: seq<(Table, Uuid)>, jobs: bool)
    requires SoundRules(rules)
    requires jobs ==> forall k | k in keys :: k.0 != BackgroundJobs
    ensures var b := AtOnce(db, rules, req, now, keys);
            Stage(db, b, jobs) && RunsWereDue(db, b, req)
  {
    hide Redacted, Matches, Alike, Erased, Sound;
    var b := AtOnce(db, rules, req, now, keys);
    forall k | k in db.rows
      ensures Alike(db.rows[k], b.rows[k])
    {
      if k in keys && Due(db, rules, req, k) {
        RedactedRoutesAlike(k.0, rules[k.0], db.rows[k], now);
      } else {
        AlikeItself(db.rows[k]);
      }
    }
  }

  /** What is left of one row's processing, given the state of the others. */
  lemma RowInTurn(db: Database, rules: Rules, req: Request, now: Time, order: seq<(Table, Uuid)>)
    requires SoundRules(rules) && order != [] && JobsLast(order)
    requires var mid := AtOnce(db, rules, req, now, order[..|order| - 1]);
             RedactRow(mid, rules, req, now, order[|order| - 1]).Ok?
    ensures var mid := AtOnce(db, rules, req, now, order[..|order| - 1]);
            RedactRow(mid, rules, req, now, order[|order| - 1]).value == AtOnce(db, rules, req, now, order)
  {
    hide Redacted, SoundRules, RedactRow, Due, AtOnce, JobsLast;
    var front, k := order[..|order| - 1], order[|order| - 1];
    var mid := AtOnce(db, rules, req, now, front);
    assert order == front + [k];
    LastIsNew(order);
    DueInTurn(db, rules, req, now, order);
    AtOnceMore(db, rules, req, now, front, k);
    var after := RedactRow(mid, rules, req, now, k).value;
    if Due(mid, rules, req, k) {
      DueRow(db, rules, req, k);
      DueRow(mid, rules, req, k);
      StoredAsRedacted(mid, rules, req, now, k, after);
    } else {
      NotDue(mid, rules, req, now, k);
    }
  }

  lemma NotDue(db: Database, rules: Rules, req: Request, now: Time, k: (Table, Uuid))
    ensures !Due(db, rules, req, k) ==> RedactRow(db, rules, req, now, k) == Ok(db)
  {
  }

  lemma AtOnceMore(db: Database, rules: Rules, req: Request, now: Time, front: seq<(Table, Uuid)>, k: (Table, Uuid))
    requires k !in front
    ensures var mid := AtOnce(db, rules, req, now, front);
            AtOnce(db, rules, req, now, front + [k])
            == if Due(db, rules, req, k) then mid.(rows := mid.rows[k := Redacted(k.0, rules[k.0], db.rows[k], now)])
               else mid
  {
    hide Redacted, Matches, Erased;
    var mid, end := AtOnce(db, rules, req, now, front), AtOnce(db, rules, req, now, front + [k]);
    assert forall j | j in db.rows && j != k :: j in front + [k] <==> j in front;
    assert (front + [k])[|front|] == k;
    assert forall j | j in db.rows && j != k :: end.rows[j] == mid.rows[j];
    if Due(db, rules, req, k) {
      assert end.rows == mid.rows[k := Redacted(k.0, rules[k.0], db.rows[k], now)];
    } else {
      assert end.rows == mid.rows;
    }
  }

  lemma LastIsNew(order: seq<(Table, Uuid)>)
    requires order != [] && JobsLast(order)
    ensures order[|order| - 1] !in order[..|order| - 1]
    ensures order[|order| - 1].0 != BackgroundJobs ==> forall k | k in order[..|order| - 1] :: k.0 != BackgroundJobs
  {
  }

  lemma DueRow(db: Database, rules: Rules, req: Request, k: (Table, Uuid))
    requires Due(db, rules, req, k)
    ensures k in db.rows && k.0 in rules
  {
  }

  lemma DueInTurn(db: Database, rules: Rules, req: Request, now: Time, order: seq<(Table, Uuid)>)
    requires SoundRules(rules) && order != [] && JobsLast(order)
    ensures var mid, k := AtOnce(db, rules, req, now, order[..|order| - 1]), order[|order| - 1];
            Due(mid, rules, req, k) == Due(db, rules, req, k) && (k in db.rows ==> mid.rows[k] == db.rows[k])
  {
    hide Redacted, Matches, Erased, Sound, Stage, RunsWereDue;
    var front, k := order[..|order| - 1], order[|order| - 1];
    LastIsNew(order);
    var jobs := k.0 != BackgroundJobs;
    AtOnceIsAStage(db, rules, req, now, front, jobs);
    if k in db.rows {
      MatchAlike(db, AtOnce(db, rules, req, now, front), jobs, req, k.0, db.rows[k]);
    }
  }

  lemma StoredAsRedacted(mid: Database, rules: Rules, req: Request, now: Time, k: (Table, Uuid), after: Database)
    requires SoundRules(rules) && Due(mid, rules, req, k) && RedactRow(mid, rules, req, now, k) == Ok(after)
    ensures after == mid.(rows := mid.rows[k := Redacted(k.0, rules[k.0], mid.rows[k], now)])
  {
    hide Redacted, Matches, Guard, Sound;
    var row, next := mid.rows[k], Redacted(k.0, rules[k.0], mid.rows[k], now);
    RedactedRoutesAlike(k.0, rules[k.0], row, now);
    GuardOutcome(mid, k.0, rules[k.0], row, next, now, Guard(mid, k.0, rules[k.0], Some(row), next, now).row);
  }

  /** In any order that leaves jobs to the end, the updates erase exactly the rows due at entry. */
  lemma {:induction false} OneByOneIsAtOnce(db: Database, rules: Rules, req: Request, now: Time,
                                            order: seq<(Table, Uuid)>)
    requires SoundRules(rules) && JobsLast(order) && RedactRows(db, rules, req, now, order).Ok?
    ensures RedactRows(db, rules, req, now, order).value == AtOnce(db, rules, req, now, order)
  {
    hide RedactRow, AtOnce, SoundRules, JobsLast;
    if order == [] {
      NothingAtOnce(db, rules, req, now);
    } else {
      FrontJobsLast(order);
      OneByOneIsAtOnce(db, rules, req, now, order[..|order| - 1]);
      RowInTurn(db, rules, req, now, order);
    }
  }

  lemma FrontJobsLast(order: seq<(Table, Uuid)>)
    requires order != [] && JobsLast(order)
    ensures JobsLast(order[..|order| - 1])
  {
  }

  lemma NothingAtOnce(db: Database, rules: Rules, req: Request, now: Time)
    ensures AtOnce(db, rules, req, now, []) == db
  {
    assert AtOnce(db, rules, req, now, []).rows == db.rows;
  }

  /** All guarded rows are visited. */
  predicate Covers(order: seq<(Table, Uuid)>, db: Database, rules: Rules) {
    forall k | k in db.rows && k.0 in rules :: k in order
  }

  /**
   A redaction that goes through: every guarded row that matched the scope at entry is erased,
   emptied and stopped, or was erased before; every deletable row that matched is gone; and
   every other row is exactly as it was.
   */
  lemma RedactionErasesTheScope(db: Database, rules: Rules, req: Request, now: Time, order: seq<(Table, Uuid)>,
                                k: (Table, Uuid))
    requires SoundRules(rules) && JobsLast(order) && Covers(order, db, rules)
    requires RedactScope(db, rules, req, now, order).Ok? && k in db.rows
    ensures var after := RedactScope(db, rules, req, now, order).value.rows;
            var row := db.rows[k];
            && (Deletable(k.0) && Matches(db, k.0, row, req) ==> k !in after)
            && (k.0 in rules && Matches(db, k.0, row, req) ==>
                  && k in after && Erased(after[k])
                  && (!Erased(row) ==> Check(rules[k.0], after[k]) && Stopped(k.0, after[k])))
            && (!Matches(db, k.0, row, req) || (k.0 !in rules && !Deletable(k.0)) ==> k in after && after[k] == row)
  {
    hide Redacted, Matches, Guard, Sound, Stage, RunsWereDue, JobsLast, RedactRows, Check, Stopped, Erased;
    OneByOneIsAtOnce(db, rules, req, now, order);
    var mid := AtOnce(db, rules, req, now, order);
    AtOnceIsAStage(db, rules, req, now, order, false);
    var row := db.rows[k];
    if k.0 in rules {
      RedactedRoutesAlike(k.0, rules[k.0], row, now);
      RedactedIsEmpty(k.0, rules[k.0], row, now);
    } else if Deletable(k.0) {
      MatchAlike(db, mid, false, req, k.0, row);
    }
  }

  // ---------------------------------------------------------------------------
  // When the guard lets the redaction through
  // ---------------------------------------------------------------------------

  /** What the request's transaction has already established about its scope. */
  predicate Quiescent(db: P.Database, req: Request) {
    && req.account in db.accounts
    && (req.contact.None? ==> P.AccountErasure(req.account) in db.requests)
    && (req.contact.Some? ==> P.ContactErasure(req.account, req.contact.value) in db.requests)
  }

  /** The owner's conversation, if any, is with the contact being erased. */
  predicate Agrees(db: Database, t: Table, row: Row, req: Request) {
    var owner := OwnerOf(db.rows, t, Some(row));
    || req.contact.None? || owner.erased || owner.conversation == Null
    || ConversationOf(db.fence, owner.conversation, req.account, req.contact.value)
  }

  lemma OwnerIsFenced(db: P.Database, o: Owner, req: Request)
    requires Quiescent(db, req) && o.account == Id(req.account)
    requires || req.contact.None? || o.erased
             || (o.contact == Id(req.contact.value) && o.conversation == Null)
             || ConversationOf(db, o.conversation, req.account, req.contact.value)
    ensures P.Blocked(db, NO_TABLE, Some(OwnerRow(o)))
  {
    hide P.Blocked;
    OwnerBlocks(db, o);
  }

  lemma MatchedIsBlocked(a: Database, b: Database, jobs: bool, t: Table, row: Row, req: Request)
    requires Stage(a, b, jobs) && (jobs || (t != Outbox && t != AuditLog))
    requires Quiescent(a.fence, req) && Matches(a, t, row, req) && Agrees(a, t, row, req)
    ensures Blocked(b, t, row)
  {
    hide Stage, Alike, OwnerOf, CleanupNotice, P.Blocked, Quiescent;
    NoticeAlike(a, b, jobs, t, row);
    AlikeItself(row);
    OwnerAlike(a, b, jobs, t, Some(row), Some(row));
    SameFence(a, b, jobs);
    OwnerIsFenced(b.fence, OwnerOf(b.rows, t, Some(row)), req);
  }

  lemma GuardAcceptsRedaction(db: Database, t: Table, rule: Rule, row: Row, now: Time)
    requires Sound(t, rule) && !Erased(row) && Blocked(db, t, row)
    ensures Guard(db, t, rule, Some(row), Redacted(t, rule, row, now), now) == Store(Redacted(t, rule, row, now))
  {
    hide Redacted, Blocked, Erased, OnlyRedacts, Same, Sound;
    RedactedRoutesAlike(t, rule, row, now);
    RedactedOnlyRedacts(t, rule, row, now);
    var next := Redacted(t, rule, row, now);
    forall c | c in OWNERS
      ensures Same(row, next, c)
    {
      assert forall i | 0 <= i < |OWNERS| :: Routes(OWNERS[i]);
    }
    assert !OwnerChanged(db, t, row, next, OWNERS);
  }

  /** A row, neither a job nor an outbox row, that has become erased and has this owner. */
  ghost predicate SourceErased(a: Database, b: Database, owner: Owner) {
    exists k: (Table, Uuid) ::
      && k in a.rows && k in b.rows && !Erased(a.rows[k]) && Erased(b.rows[k])
      && k.0 != BackgroundJobs && k.0 != Outbox
      && OwnerOf(a.rows, k.0, Some(a.rows[k])) == owner
  }

  lemma SourceFound(a: Database, b: Database, t: Table, id: Value, owner: Owner)
    requires id.Id? && (t, id.id) in a.rows && (t, id.id) in b.rows && t != BackgroundJobs && t != Outbox
    requires !Erased(a.rows[(t, id.id)]) && Erased(b.rows[(t, id.id)])
    requires OwnerOf(a.rows, t, Some(a.rows[(t, id.id)])) == owner
    ensures SourceErased(a, b, owner)
  {
    hide OwnerOf, Erased;
  }

  /** An owner that has become erased is that of the row itself, or of a row that has become erased. */
  lemma {:induction false} NewlyErasedOwner(
      a: Database, b: Database, jobs: bool, t: Table, x: Option<Row>, y: Option<Row>)
    requires Stage(a, b, jobs) && (x.Some? <==> y.Some?)
    requires x.Some? ==> Alike(x.value, y.value) && (t == BackgroundJobs ==> x == y)
    requires jobs || (t != Outbox && t != AuditLog)
    requires !OwnerOf(a.rows, t, x).erased && OwnerOf(b.rows, t, y).erased
    ensures || (x.Some? && !Erased(x.value) && Erased(y.value))
            || SourceErased(a, b, OwnerOf(a.rows, t, x))
    decreases Rank(t)
  {
    hide Stage, Alike, ContactOfPeer, Get, RouteOf, Own, Erased, SourceErased, Find;
    if x.Some? {
      AccountsAlike(x.value, y.value);
      if Own(y).erased && !Own(x).erased {
        ErasedNewly(x.value, y.value);
      } else if t.ModelRunAttempts? {
        NewlyErasedRun(a, b, jobs, x.value, y.value);
      } else {
        RouteAlike(t, x.value, y.value);
        RoutesGoDown(t, x.value);
        if RouteOf(t, x.value).To? {
          NewlyErasedParent(a, b, jobs, t, x.value, y.value);
        }
      }
    }
  }

  lemma NewlyErasedRun(a: Database, b: Database, jobs: bool, x: Row, y: Row)
    requires Stage(a, b, jobs) && Alike(x, y)
    requires !OwnerOf(a.rows, ModelRunAttempts, Some(x)).erased && OwnerOf(b.rows, ModelRunAttempts, Some(y)).erased
    ensures SourceErased(a, b, OwnerOf(a.rows, ModelRunAttempts, Some(x)))
  {
    hide Stage, Alike, Get, SourceErased;
    AccountsAlike(x, y);
    var id := Get(x, ModelRunId);
    FindAlike(a, b, jobs, ModelRuns, id);
    var p, q := Find(a.rows, ModelRuns, id).value, Find(b.rows, ModelRuns, id).value;
    ErasedNewly(p, q);
    RunOwner(a.rows, p);
    SourceFound(a, b, ModelRuns, id, OwnerOf(a.rows, ModelRunAttempts, Some(x)));
  }

  lemma {:induction false} NewlyErasedParent(a: Database, b: Database, jobs: bool, t: Table, x: Row, y: Row)
    requires Stage(a, b, jobs) && Alike(x, y) && RouteOf(t, x) == RouteOf(t, y) && RouteOf(t, x).To?
    requires Rank(RouteOf(t, x).table) < Rank(t) && !t.ModelRunAttempts?
    requires jobs || (t != Outbox && t != AuditLog)
    requires !OwnerOf(a.rows, t, Some(x)).erased && OwnerOf(b.rows, t, Some(y)).erased
    requires !(Own(Some(y)).erased && !Own(Some(x)).erased)
    ensures SourceErased(a, b, OwnerOf(a.rows, t, Some(x)))
    decreases Rank(t), 0
  {
    hide Stage, Alike, ContactOfPeer, Own, Get, RouteOf, SourceErased, Erased;
    var target, id := RouteOf(t, x).table, RouteOf(t, x).id;
    var p, q := Find(a.rows, target, id), Find(b.rows, target, id);
    FindAlike(a, b, jobs, target, id);
    AccountsAlike(x, y);
    RoutedTablesResolveByRoute(t, x);
    JobsAreReferredToByNoticesOnly(t, x);
    if p.Some? {
      AccountsAlike(p.value, q.value);
      ComparesBy(p.value, x, AccountId);
      ComparesBy(q.value, y, AccountId);
      if OwnerOf(a.rows, t, Some(x)) == OwnerOf(a.rows, target, p)
          && OwnerOf(b.rows, t, Some(y)) == OwnerOf(b.rows, target, q) {
        NewlyErasedOwner(a, b, jobs, target, p, q);
        if !Erased(p.value) && Erased(q.value) {
          SourceFound(a, b, target, id, OwnerOf(a.rows, t, Some(x)));
        }
      }
    }
  }

  lemma RoutedTablesResolveByRoute(t: Table, row: Row)
    requires RouteOf(t, row).To?
    ensures !t.Accounts? && !t.Contacts? && !t.AccountPeers? && !t.ModelRunAttempts?
  {
  }

  lemma BlocksMore(db: P.Database, o: Owner, o': Owner)
    requires SameOwner(o, o') && P.Blocked(db, NO_TABLE, Some(OwnerRow(o)))
    ensures P.Blocked(db, NO_TABLE, Some(OwnerRow(o')))
  {
    hide P.Blocked;
    OwnerBlocks(db, o);
    OwnerBlocks(db, o');
  }

  /** When its turn comes, a due row's scope is blocked exactly if it was blocked at entry. */
  lemma BlockedInTurn(db: Database, rules: Rules, req: Request, now: Time, order: seq<(Table, Uuid)>)
    requires SoundRules(rules) && order != [] && JobsLast(order) && Due(db, rules, req, order[|order| - 1])
    requires forall k | k in order[..|order| - 1] && Due(db, rules, req, k) :: Blocked(db, k.0, db.rows[k])
    ensures var k := order[|order| - 1];
            Blocked(AtOnce(db, rules, req, now, order[..|order| - 1]), k.0, db.rows[k])
            <==> Blocked(db, k.0, db.rows[k])
  {
    hide Redacted, Stage, RunsWereDue, AtOnce, OwnerOf, P.Blocked, CleanupNotice, SourceErased, JobsLast, SoundRules;
    var front, k := order[..|order| - 1], order[|order| - 1];
    var mid, jobs := AtOnce(db, rules, req, now, front), k.0 != BackgroundJobs;
    var row := db.rows[k];
    LastIsNew(order);
    AtOnceIsAStage(db, rules, req, now, front, jobs);
    AlikeItself(row);
    NoticeAlike(db, mid, jobs, k.0, row);
    OwnerAlike(db, mid, jobs, k.0, Some(row), Some(row));
    SameFence(db, mid, jobs);
    var o, o' := OwnerOf(db.rows, k.0, Some(row)), OwnerOf(mid.rows, k.0, Some(row));
    if P.Blocked(db.fence, NO_TABLE, Some(OwnerRow(o))) {
      BlocksMore(db.fence, o, o');
    }
    if o'.erased && !o.erased {
      NewlyErasedOwner(db, mid, jobs, k.0, Some(row), Some(row));
      SourceIsBlocked(db, rules, req, now, front, o);
    }
  }

  lemma SourceIsBlocked(db: Database, rules: Rules, req: Request, now: Time, front: seq<(Table, Uuid)>, o: Owner)
    requires SourceErased(db, AtOnce(db, rules, req, now, front), o)
    requires forall k | k in front && Due(db, rules, req, k) :: Blocked(db, k.0, db.rows[k])
    ensures o.account != Null && P.Blocked(db.fence, NO_TABLE, Some(OwnerRow(o)))
  {
    hide Redacted, OwnerOf, P.Blocked, Matches;
    var r: (Table, Uuid) :| && r in db.rows && !Erased(db.rows[r])
                            && Erased(AtOnce(db, rules, req, now, front).rows[r])
                            && OwnerOf(db.rows, r.0, Some(db.rows[r])) == o;
    assert r in front && Due(db, rules, req, r);
    assert Blocked(db, r.0, db.rows[r]);
  }

  lemma GuardNeedsScope(db: Database, t: Table, rule: Rule, row: Row, now: Time)
    requires Sound(t, rule) && !Erased(row)
    requires Guard(db, t, rule, Some(row), Redacted(t, rule, row, now), now).Store?
    ensures Blocked(db, t, row)
  {
    hide Redacted, Blocked, Erased, OnlyRedacts, OwnerChanged, Admit;
    RedactedRoutesAlike(t, rule, row, now);
  }

  /** A redaction goes through exactly when the scope of every row due at entry is blocked at entry. */
  lemma {:induction false} RedactionIsAcceptedExactly(db: Database, rules: Rules, req: Request, now: Time,
                                                      order: seq<(Table, Uuid)>)
    requires SoundRules(rules) && JobsLast(order)
    ensures RedactRows(db, rules, req, now, order).Ok?
            <==> forall k | k in order && Due(db, rules, req, k) :: Blocked(db, k.0, db.rows[k])
  {
    hide Redacted, Matches, Guard, Blocked, AtOnce, Sound, Erased, JobsLast;
    if order != [] {
      var front, k := order[..|order| - 1], order[|order| - 1];
      assert order == front + [k];
      FrontJobsLast(order);
      RedactionIsAcceptedExactly(db, rules, req, now, front);
      if RedactRows(db, rules, req, now, front).Ok? {
        OneByOneIsAtOnce(db, rules, req, now, front);
        var mid := AtOnce(db, rules, req, now, front);
        DueInTurn(db, rules, req, now, order);
        if Due(mid, rules, req, k) {
          BlockedInTurn(db, rules, req, now, order);
          if Blocked(mid, k.0, mid.rows[k]) {
            GuardAcceptsRedaction(mid, k.0, rules[k.0], mid.rows[k], now);
          } else if Guard(mid, k.0, rules[k.0], Some(mid.rows[k]),
                          Redacted(k.0, rules[k.0], mid.rows[k], now), now).Store? {
            GuardNeedsScope(mid, k.0, rules[k.0], mid.rows[k], now);
          }
        }
      }
    }
  }

  lemma StageItself(db: Database)
    ensures Stage(db, db, true)
  {
    hide Alike;
    forall k | k in db.rows
      ensures Alike(db.rows[k], db.rows[k])
    {
      AlikeItself(db.rows[k]);
    }
  }

  /** In particular when the scope is quiescent and no matched row has another contact's conversation. */
  lemma RedactionIsAccepted(db: Database, rules: Rules, req: Request, now: Time, order: seq<(Table, Uuid)>)
    requires SoundRules(rules) && JobsLast(order) && Quiescent(db.fence, req)
    requires forall k | k in db.rows && Due(db, rules, req, k) :: Agrees(db, k.0, db.rows[k], req)
    ensures RedactRows(db, rules, req, now, order).Ok?
  {
    hide Matches, Stage, Agrees, Quiescent, Blocked, Erased, JobsLast, SoundRules;
    StageItself(db);
    forall k | k in order && Due(db, rules, req, k)
      ensures Blocked(db, k.0, db.rows[k])
    {
      MatchedIsBlocked(db, db, true, k.0, db.rows[k], req);
    }
    RedactionIsAcceptedExactly(db, rules, req, now, order);
  }

  // ---------------------------------------------------------------------------
  // Deleted rows stay away
  // ---------------------------------------------------------------------------

  /** `enforce_metadata_deleted_row`, for the tables whose rows redaction deletes. */
  function DeletableError(db: Database, t: Table, previous: Option<Row>, next: Row): Option<Error> {
    if previous.Some? && AnyChanged(previous.value, next, [RowId, AccountId, ConversationId, MessageId, DraftId]) then
      Some(OwnerImmutable)
    else if previous.Some? && Blocked(db, t, previous.value) then Some(WriteBlocked)
    else if Blocked(db, t, next) then Some(WriteBlocked)
    else None
  }

  /** After the deletion no reaction or edit session of the scope is written again, old or new. */
  lemma DeletedRowsStayAway(db: Database, t: Table, previous: Option<Row>, next: Row, req: Request)
    requires Deletable(t) && Quiescent(db.fence, req) && DeletableError(db, t, previous, next) == None
    ensures Agrees(db, t, next, req) ==> !Matches(db, t, next, req)
    ensures previous.Some? && Agrees(db, t, previous.value, req) ==> !Matches(db, t, previous.value, req)
  {
    hide Blocked, Matches, Agrees, Quiescent, Stage;
    StageItself(db);
    if Agrees(db, t, next, req) && Matches(db, t, next, req) {
      MatchedIsBlocked(db, db, true, t, next, req);
    }
    if previous.Some? && Agrees(db, t, previous.value, req) && Matches(db, t, previous.value, req) {
      MatchedIsBlocked(db, db, true, t, previous.value, req);
    }
  }
}
