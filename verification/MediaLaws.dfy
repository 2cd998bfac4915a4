/** The media guards written out: what they say to every insert, update and reference. */
module MediaLaws {
  import opened Basics
  import opened MediaObjects
  import P = PayloadGuard
  import PL = PayloadLaws

  /** The account is missing, on its way out, or has an erasure of all of it on record. */
  predicate AccountClosed(db: P.Database, account: Uuid) {
    || account !in db.accounts || db.accounts[account] != P.Active || P.AccountErasure(account) in db.requests
  }

  lemma AccountClosedExactly(db: P.Database, account: Uuid)
    ensures P.Blocked(db, P.OtherTable(0), Some(AccountRow(account))) <==> AccountClosed(db, account)
  {
    hide P.Stops, P.Blocked;
    var row := AccountRow(account);
    PL.StopsExactly(db, Some(row));
    P.BlockedLocally(db, P.Node(P.OtherTable(0), Some(row)));
    forall b ensures !P.Leads(db, P.Node(P.OtherTable(0), Some(row)), b) {
      assert forall r: P.Reference :: P.Get(row, P.Ref(r)) == P.Null;
    }
  }

  /** The source revision is missing from the account, or blocked. */
  predicate SourceClosed(db: P.Database, account: Uuid, source: Uuid) {
    || (P.MessageRevisions, source) !in db.rows
    || P.Get(db.rows[(P.MessageRevisions, source)], P.AccountId) != P.Id(account)
    || P.Blocked(db, P.MessageRevisions, Some(db.rows[(P.MessageRevisions, source)]))
  }

  lemma SourceClosedExactly(db: P.Database, account: Uuid, source: Uuid)
    ensures SourceBlocked(db, account, source) <==> SourceClosed(db, account, source)
  {
    hide P.Blocked;
    var row := AccountRow(account)[P.SourceId := P.Id(source)];
    if P.Lookup(db, P.MessageRevisions, row, P.SourceId).None? {
      P.BlockedLocally(db, P.Node(P.MessageRevisions, None));
      P.NullStops(db);
    }
  }

  /** Neither asked to go nor gone nor failed. */
  predicate Stays(o: Object) {
    o.deleteRequested.None? && o.status != DeletePending && o.status != Deleted && o.status != Failed
  }

  /** What the guard says to an object that enters: a new one, or one that becomes ready. */
  function Entry(db: P.Database, objects: Objects, o: Object): Option<Error> {
    if AccountClosed(db, o.account) || (o.source.Some? && SourceClosed(db, o.account, o.source.value)) then
      Some(WriteBlocked)
    else if o.parent.None? then None
    else if o.parent.value !in objects || objects[o.parent.value].account != o.account
            || !Stays(objects[o.parent.value]) then Some(WriteBlocked)
    else if objects[o.parent.value].source != o.source then Some(SourceMismatch)
    else None
  }

  lemma EntryExactly(db: P.Database, objects: Objects, o: Object)
    ensures EntryError(db, objects, o) == Entry(db, objects, o)
  {
    hide P.Blocked, SourceBlocked, SourceClosed, AccountClosed;
    AccountClosedExactly(db, o.account);
    if o.source.Some? {
      SourceClosedExactly(db, o.account, o.source.value);
    }
  }

  /** What becomes of a new object. */
  lemma InsertsExactly(db: P.Database, objects: Objects, o: Object)
    ensures Guard(db, objects, None, o) ==
              if Entry(db, objects, o).Some? then Err(Entry(db, objects, o).value) else Ok(o)
  {
    hide EntryError, Entry;
    EntryExactly(db, objects, o);
  }

  /** A failed object from before deletion was recorded becomes claimable when its deletion is first requested. */
  function Claimable(a: Object, b: Object): Object {
    if a.status == Failed && b.status == Failed && a.deleteRequested == None && b.deleteRequested != None
    then b.(status := Rejected) else b
  }

  /** What becomes of an update, in the order of the checks. */
  lemma UpdatesExactly(db: P.Database, objects: Objects, a: Object, proposed: Object)
    ensures var b := Claimable(a, proposed);
            Guard(db, objects, Some(a), proposed) ==
              if a.account != b.account || a.parent != b.parent || a.source != b.source then Err(OwnerImmutable)
              else if a.deleteRequested.Some? && b.deleteRequested != a.deleteRequested then Err(ErasureImmutable)
              else if a.status == Deleted && b != a then Err(ErasureImmutable)
              else if a.deleteRequested.Some? && b.status != a.status && (b.status == Pending || b.status == Ready) then
                Err(WriteBlocked)
              else if a.storageKey.Some? && (b.storageKey != a.storageKey || b.sha256 != a.sha256)
                      && (b.status != Deleted || b.storageKey.Some? || b.sha256.Some?) then Err(FileIdentityImmutable)
              else if b.status == Ready && a.status != Ready && Entry(db, objects, b).Some? then
                Err(Entry(db, objects, b).value)
              else Ok(b)
  {
    hide EntryError, Entry;
    EntryExactly(db, objects, Claimable(a, proposed));
  }

  /** A row comes to name an object exactly when its own scope is open and the object is its account's and stays. */
  lemma RefersExactly(db: P.Database, objects: Objects, table: P.Table, account: Uuid, previous: Option<Uuid>,
                      data: P.Row, target: Uuid)
    ensures ReferenceError(db, objects, table, account, previous, data, target) ==
              if previous != Some(target)
                 && (P.Blocked(db, table, Some(data)) || target !in objects || objects[target].account != account
                     || !Stays(objects[target]))
              then Some(ReferenceBlocked) else None
  {
    hide P.Blocked;
  }

  /** Every write is stored as the guard leaves it, or changes nothing. */
  lemma StepsExactly(s: State, step: Step)
    ensures Apply(s, step) ==
              match step
              case Insert(db, id, o) =>
                if id in s.objects || Entry(db, s.objects, o).Some? then s
                else s.(objects := s.objects[id := o.(born := s.next)], next := s.next + 1)
              case Update(db, id, o) =>
                if id !in s.objects then s
                else
                  var out := Guard(db, s.objects, Some(s.objects[id]), o.(born := s.objects[id].born));
                  if out.Ok? then s.(objects := s.objects[id := out.value]) else s
              case Refer(db, table, account, row, previous, data, target) =>
                if (previous.Some? && Link(row, previous.value) !in s.links)
                   || ReferenceError(db, s.objects, table, account, previous, data, target).Some? then s
                else s.(links := (set l | l in s.links && l.row != row) + {Link(row, target)})
              case Unlink(row) => s.(links := set l | l in s.links && l.row != row)
  {
    hide Guard, Entry;
    if step.Insert? {
      InsertsExactly(step.db, s.objects, step.item);
    }
  }

  /** A run takes its writes one after the other. */
  lemma RunsGoOn(s: State, steps: seq<Step>, step: Step)
    ensures Run(s, []) == s && Run(s, steps + [step]) == Apply(Run(s, steps), step)
  {
    hide Apply;
    var all := steps + [step];
    assert all[..|all| - 1] == steps;
  }
}
