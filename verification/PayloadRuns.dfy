/**
 Histories of guarded rows: what any sequence of accepted writes does to one row, and why a
 scope that was emptied under an erasure stays empty in the whole database.
 */
module PayloadRuns {
  import opened Basics
  import opened PayloadGuard

  /** The frozen rule of one table and its CHECK constraint. */
  datatype Rule = Rule(nulls: seq<Column>, objects: seq<Column>)

  function Columns(rule: Rule): seq<Column> {
    rule.nulls + rule.objects
  }

  predicate Erased(row: Row) {
    Get(row, ScopeErasedAt) != Null
  }

  /** `scope_erased_payload_empty` */
  predicate Check(rule: Rule, row: Row) {
    Erased(row) ==>
      && (forall c | c in rule.nulls :: Get(row, c) == Null)
      && (forall c | c in rule.objects :: Get(row, c) == EmptyObject)
  }

  predicate OnlyPayload(rule: Rule) {
    forall c | c in Columns(rule) :: c.Payload?
  }

  predicate PayloadEmpty(rule: Rule, row: Row) {
    forall c | c in Columns(rule) :: Empty(Get(row, c))
  }

  // ---------------------------------------------------------------------------
  // One row
  // ---------------------------------------------------------------------------

  /** An update as proposed, with the database it finds. */
  datatype Write = Write(db: Database, next: Row)

  predicate Accepted(t: Table, rule: Rule, row: Row, w: Write) {
    Verdict(w.db, t, Columns(rule), Some(row), w.next) == None && Check(rule, w.next)
  }

  function After(row: Row, writes: seq<Write>): Row {
    if writes == [] then row else writes[|writes| - 1].next
  }

  predicate AllAccepted(t: Table, rule: Rule, row: Row, writes: seq<Write>) {
    forall i | 0 <= i < |writes| :: Accepted(t, rule, After(row, writes[..i]), writes[i])
  }

  predicate BlockedThroughout(t: Table, writes: seq<Write>) {
    forall i | 0 <= i < |writes| :: Blocked(writes[i].db, t, Some(Unredacted(writes[i].next)))
  }

  ghost predicate KeptOrEmptied(rule: Rule, a: Row, b: Row) {
    forall c | c in Columns(rule) :: Same(a, b, c) || Empty(Get(b, c))
  }

  ghost predicate Frozen(rule: Rule, a: Row, b: Row) {
    forall c | c in Columns(rule) + MARKERS :: Same(a, b, c)
  }

  ghost predicate OwnersKept(a: Row, b: Row) {
    forall c | Owner(c) :: Same(a, b, c)
  }

  /** One accepted update. */
  lemma AcceptedUpdate(t: Table, rule: Rule, row: Row, w: Write)
    requires Accepted(t, rule, row, w)
    ensures OwnersKept(row, w.next)
    ensures Erased(row) ==> Frozen(rule, row, w.next) && Erased(w.next)
    ensures !Erased(row) && Erased(w.next) ==>
              && (forall c | c !in Columns(rule) + MARKERS :: Same(row, w.next, c))
              && PayloadEmpty(rule, w.next)
    ensures Blocked(w.db, t, Some(Unredacted(w.next))) || Get(w.next, RedactedAt) != Null ==>
              KeptOrEmptied(rule, row, w.next)
  {
    hide Blocked, Get, Unredacted;
    forall c | Owner(c)
      ensures Same(row, w.next, c)
    {
      OwnersAre(c);
    }
    ErasedIsEmpty(rule, w.next);
    if Erased(row) {
      assert MARKERS[0] == ScopeErasedAt;
      assert Same(row, w.next, ScopeErasedAt);
    } else if Erased(w.next) {
      UntouchedColumns(rule, row, w.next);
    }
  }

  lemma ErasedIsEmpty(rule: Rule, row: Row)
    requires Check(rule, row)
    ensures Erased(row) ==> PayloadEmpty(rule, row)
  {
  }

  lemma UntouchedColumns(rule: Rule, row: Row, next: Row)
    requires OnlyRedacts(row, next, Columns(rule))
    ensures forall c | c !in Columns(rule) + MARKERS :: Same(row, next, c)
  {
  }

  /**
   Any number of accepted updates: owners never change, an erased row is frozen, and while
   the scope is blocked each payload column keeps its value or becomes empty.
   */
  lemma {:induction false} RowHistory(t: Table, rule: Rule, row: Row, writes: seq<Write>)
    requires AllAccepted(t, rule, row, writes)
    ensures var last := After(row, writes);
            && OwnersKept(row, last)
            && (Erased(row) ==> Frozen(rule, row, last) && Erased(last))
            && (BlockedThroughout(t, writes) ==> KeptOrEmptied(rule, row, last))
            && (BlockedThroughout(t, writes) && PayloadEmpty(rule, row) ==> PayloadEmpty(rule, last))
  {
    hide Accepted, AllAccepted, BlockedThroughout, Blocked, Erased, Get, Unredacted, KeptOrEmptied, Frozen, OwnersKept,
         PayloadEmpty;
    if writes == [] {
      NothingHappened(rule, row);
    } else {
      var front, w := writes[..|writes| - 1], writes[|writes| - 1];
      FrontAccepted(t, rule, row, writes);
      RowHistory(t, rule, row, front);
      AcceptedUpdate(t, rule, After(row, front), w);
      Compose(rule, row, After(row, front), w.next);
    }
  }

  lemma FrontAccepted(t: Table, rule: Rule, row: Row, writes: seq<Write>)
    requires writes != [] && AllAccepted(t, rule, row, writes)
    ensures var front, w := writes[..|writes| - 1], writes[|writes| - 1];
            && AllAccepted(t, rule, row, front)
            && Accepted(t, rule, After(row, front), w)
            && (BlockedThroughout(t, writes) ==>
                  BlockedThroughout(t, front) && Blocked(w.db, t, Some(Unredacted(w.next))))
  {
    hide Accepted, Blocked, After, Unredacted;
    var front := writes[..|writes| - 1];
    forall i | 0 <= i < |front|
      ensures Accepted(t, rule, After(row, front[..i]), front[i])
    {
      assert front[..i] == writes[..i];
      assert Accepted(t, rule, After(row, writes[..i]), writes[i]);
    }
    assert Accepted(t, rule, After(row, writes[..|front|]), writes[|front|]);
  }

  lemma NothingHappened(rule: Rule, a: Row)
    ensures OwnersKept(a, a) && Frozen(rule, a, a) && KeptOrEmptied(rule, a, a)
  {
  }

  lemma Compose(rule: Rule, a: Row, b: Row, c: Row)
    ensures OwnersKept(a, b) && OwnersKept(b, c) ==> OwnersKept(a, c)
    ensures Frozen(rule, a, b) && Frozen(rule, b, c) ==> Frozen(rule, a, c)
    ensures KeptOrEmptied(rule, a, b) && KeptOrEmptied(rule, b, c) ==> KeptOrEmptied(rule, a, c)
    ensures KeptOrEmptied(rule, b, c) && PayloadEmpty(rule, b) ==> PayloadEmpty(rule, c)
  {
    hide Get, Owner;
    if KeptOrEmptied(rule, a, b) && KeptOrEmptied(rule, b, c) {
      forall k | k in Columns(rule)
        ensures Same(a, c, k) || Empty(Get(c, k))
      {
        assert Same(b, c, k) || Empty(Get(c, k));
        assert Same(a, b, k) || Empty(Get(b, k));
      }
    }
    if OwnersKept(a, b) && OwnersKept(b, c) {
      assert forall k | Owner(k) :: Same(a, b, k) && Same(b, c, k);
    }
    if Frozen(rule, a, b) && Frozen(rule, b, c) {
      assert forall k | k in Columns(rule) + MARKERS :: Same(a, b, k) && Same(b, c, k);
    }
  }

  // ---------------------------------------------------------------------------
  // The whole database
  // ---------------------------------------------------------------------------

  /**
   Blocked through links that the guard makes immutable.  A row blocked only through, say, its
   model run is not covered: that reference may still change.
   */
  predicate Firm(db: Database, t: Table, row: Row)
    decreases Rank(t)
  {
    || Erased(row)
    || AccountFenced(db, Get(row, AccountId))
    || ScopeFenced(db, row)
    || (exists r: Reference | Refers(t, r) && Owner(Ref(r)) ::
          var found := Lookup(db, Target(r), row, Ref(r));
          found.Some? && Firm(db, Target(r), found.value))
    || (ParentOf(t).Some?
        && var p := ParentOf(t).value;
           var found := Lookup(db, p.table, row, p.column);
           found.Some? && Firm(db, p.table, found.value))
  }

  lemma {:induction false} FirmIsBlocked(db: Database, t: Table, row: Row)
    requires Firm(db, t, row)
    ensures Blocked(db, t, Some(row))
    decreases Rank(t)
  {
    hide Get, Lookup, AccountFenced, ScopeFenced, Target, Rank, ParentOf, Refers;
    if !Stops(db, Some(row)) {
      if r: Reference :| Refers(t, r) && Lookup(db, Target(r), row, Ref(r)).Some?
                         && Firm(db, Target(r), Lookup(db, Target(r), row, Ref(r)).value) {
        ReferencesGoDown(t, r);
        FirmIsBlocked(db, Target(r), Lookup(db, Target(r), row, Ref(r)).value);
      } else {
        var p := ParentOf(t).value;
        ParentsGoDown(t);
        FirmIsBlocked(db, p.table, Lookup(db, p.table, row, p.column).value);
      }
    }
  }

  lemma ReferencesGoDown(t: Table, r: Reference)
    requires Refers(t, r)
    ensures Rank(Target(r)) < Rank(t)
  {
  }

  lemma ParentsGoDown(t: Table)
    requires ParentOf(t).Some?
    ensures Rank(ParentOf(t).value.table) < Rank(t)
  {
  }

  /** Columns that no accepted write changes; a message revision's message is immutable elsewhere. */
  predicate Link(c: Column) {
    Owner(c) || c == MessageId
  }

  ghost predicate LinksKept(a: Row, b: Row) {
    forall c | Link(c) :: Same(a, b, c)
  }

  /** Fences stay up, conversations keep their contact, rows keep their links and their erasure. */
  ghost predicate Evolves(before: Database, after: Database) {
    && (forall a | AccountFenced(before, Id(a)) :: AccountFenced(after, Id(a)))
    && before.requests <= after.requests
    && before.deletingContacts <= after.deletingContacts
    && (forall c | c in before.conversations :: c in after.conversations
                                                && after.conversations[c] == before.conversations[c])
    && (forall k | k in before.rows ::
          && k in after.rows && LinksKept(before.rows[k], after.rows[k])
          && (Erased(before.rows[k]) ==> Erased(after.rows[k])))
  }

  lemma ScopeFenceStays(before: Database, after: Database, row: Row, next: Row)
    requires Evolves(before, after) && LinksKept(row, next)
    ensures ScopeFenced(before, row) ==> ScopeFenced(after, next)
    ensures AccountFenced(before, Get(row, AccountId)) ==> AccountFenced(after, Get(next, AccountId))
  {
    hide Get, Erased;
    assert Same(row, next, AccountId) && Same(row, next, ContactId) && Same(row, next, ConversationId);
  }

  lemma LookupStays(before: Database, after: Database, t: Table, row: Row, next: Row, c: Column)
    requires Evolves(before, after) && LinksKept(row, next) && Link(c)
    ensures var found := Lookup(before, t, row, c);
            found.Some? ==>
              var now := Lookup(after, t, next, c);
              now.Some? && LinksKept(found.value, now.value) && (Erased(found.value) ==> Erased(now.value))
  {
    hide Erased, AccountFenced;
    assert Same(row, next, AccountId) && Same(row, next, c);
    var found := Lookup(before, t, row, c);
    if found.Some? {
      assert Same(found.value, after.rows[(t, Get(row, c).id)], AccountId);
    }
  }

  /** A row firmly blocked stays so, whatever accepted writes and other transactions follow. */
  lemma {:induction false} FirmStays(before: Database, after: Database, t: Table, row: Row, next: Row)
    requires Evolves(before, after) && LinksKept(row, next) && (Erased(row) ==> Erased(next))
    requires Firm(before, t, row)
    ensures Firm(after, t, next)
    decreases Rank(t)
  {
    hide Evolves, LinksKept, Erased, AccountFenced, ScopeFenced, Lookup, Get, Rank, Refers, Target;
    ScopeFenceStays(before, after, row, next);
    if !Erased(row) && !AccountFenced(before, Get(row, AccountId)) && !ScopeFenced(before, row) {
      if r: Reference :| Refers(t, r) && Owner(Ref(r)) && Lookup(before, Target(r), row, Ref(r)).Some?
                         && Firm(before, Target(r), Lookup(before, Target(r), row, Ref(r)).value) {
        ReferencesGoDown(t, r);
        LookupStays(before, after, Target(r), row, next, Ref(r));
        FirmStays(before, after, Target(r), Lookup(before, Target(r), row, Ref(r)).value,
                  Lookup(after, Target(r), next, Ref(r)).value);
      } else {
        var p := ParentOf(t).value;
        ParentsGoDown(t);
        LookupStays(before, after, p.table, row, next, p.column);
        FirmStays(before, after, p.table, Lookup(before, p.table, row, p.column).value,
                  Lookup(after, p.table, next, p.column).value);
      }
    }
  }

  /** A write to a guarded table, or any other transaction on the tables that own rows. */
  datatype Step = WriteRow(table: Table, id: Uuid, next: Row) | Other(after: Database)

  type Rules = map<Table, Rule>

  function Execute(db: Database, step: Step): Database {
    match step
    case WriteRow(t, id, next) => db.(rows := db.rows[(t, id) := next])
    case Other(after) => after
  }

  ghost predicate Admitted(rules: Rules, db: Database, step: Step) {
    match step
    case WriteRow(t, id, next) =>
      && t in rules && t != MessageRevisions
      && Verdict(db, t, Columns(rules[t]), if (t, id) in db.rows then Some(db.rows[(t, id)]) else None, next) == None
      && Check(rules[t], next)
      && ((t, id) in db.rows ==> Same(db.rows[(t, id)], next, MessageId))
    case Other(after) =>
      && Evolves(db, after)
      && (forall k: (Table, Uuid) | k.0 in rules ::
            (k in db.rows <==> k in after.rows) && (k in db.rows ==> db.rows[k] == after.rows[k]))
  }

  ghost predicate SoundRules(rules: Rules) {
    forall t | t in rules :: OnlyPayload(rules[t])
  }

  lemma WriteEvolves(rules: Rules, db: Database, t: Table, id: Uuid, next: Row)
    requires Admitted(rules, db, WriteRow(t, id, next))
    ensures Evolves(db, Execute(db, WriteRow(t, id, next)))
  {
    hide Verdict, Check, Get, AccountFenced, Owner;
    if (t, id) in db.rows {
      AcceptedUpdate(t, rules[t], db.rows[(t, id)], Write(db, next));
    }
    forall a | AccountFenced(db, Id(a))
      ensures AccountFenced(Execute(db, WriteRow(t, id, next)), Id(a))
    {
      SameAccounts(db, Execute(db, WriteRow(t, id, next)), Id(a));
    }
  }

  lemma SameAccounts(a: Database, b: Database, account: Value)
    requires a.accounts == b.accounts
    ensures AccountFenced(a, account) == AccountFenced(b, account)
  {
  }

  lemma AdmittedEvolves(rules: Rules, db: Database, step: Step)
    requires Admitted(rules, db, step)
    ensures Evolves(db, Execute(db, step))
  {
    hide Evolves;
    if step.WriteRow? {
      WriteEvolves(rules, db, step.table, step.id, step.next);
    }
  }

  /** No row comes into being inside a blocked scope, with content or without. */
  lemma NoInsertIntoBlockedScope(rules: Rules, db: Database, t: Table, id: Uuid, next: Row)
    requires Admitted(rules, db, WriteRow(t, id, next)) && (t, id) !in db.rows
    ensures !Erased(next) && !Blocked(db, t, Some(next))
  {
    assert Get(next, RedactedAt) == Null;
    UnredactedIsBlockedAlike(db, t, next);
  }

  lemma UnredactedGets(row: Row)
    ensures forall c | c != RedactedAt :: Get(Unredacted(row), c) == Get(row, c)
    ensures Get(Unredacted(row), RedactedAt) == Null
  {
  }

  lemma LookupAlike(db: Database, t: Table, row: Row, c: Column)
    requires c != RedactedAt
    ensures Lookup(db, t, Unredacted(row), c) == Lookup(db, t, row, c)
  {
    hide Get, Unredacted;
    UnredactedGets(row);
  }

  lemma FenceAlike(db: Database, row: Row)
    ensures ScopeFenced(db, Unredacted(row)) == ScopeFenced(db, row)
    ensures Get(row, RedactedAt) == Null ==> Stops(db, Some(Unredacted(row))) == Stops(db, Some(row))
  {
    hide Get, Unredacted, AccountFenced;
    UnredactedGets(row);
  }

  lemma LeadsAlike(db: Database, t: Table, row: Row, b: Node)
    ensures Leads(db, Node(t, Some(Unredacted(row))), b) == Leads(db, Node(t, Some(row)), b)
  {
    hide Get, Unredacted, Lookup, Target, Refers, Rank, ParentOf;
    UnredactedGets(row);
    forall r: Reference
      ensures Lookup(db, Target(r), Unredacted(row), Ref(r)) == Lookup(db, Target(r), row, Ref(r))
    {
      LookupAlike(db, Target(r), row, Ref(r));
    }
    LookupAlike(db, MessageRevisions, row, SourceId);
    if ParentOf(t).Some? {
      ParentColumn(t);
      LookupAlike(db, ParentOf(t).value.table, row, ParentOf(t).value.column);
    }
  }

  lemma ParentColumn(t: Table)
    requires ParentOf(t).Some?
    ensures Link(ParentOf(t).value.column)
  {
  }

  /** Without its own redaction mark a row is blocked for any other reason it was. */
  lemma UnredactedIsBlockedAlike(db: Database, t: Table, row: Row)
    requires Get(row, RedactedAt) == Null
    ensures Blocked(db, t, Some(Unredacted(row))) == Blocked(db, t, Some(row))
  {
    hide Get, Unredacted, Stops, Leads, Blocked;
    BlockedLocally(db, Node(t, Some(row)));
    BlockedLocally(db, Node(t, Some(Unredacted(row))));
    FenceAlike(db, row);
    forall b
      ensures Leads(db, Node(t, Some(Unredacted(row))), b) == Leads(db, Node(t, Some(row)), b)
    {
      LeadsAlike(db, t, row, b);
    }
  }

  lemma UnredactedIsFirmAlike(db: Database, t: Table, row: Row)
    requires Firm(db, t, row)
    ensures Firm(db, t, Unredacted(row))
  {
    hide Firm, Get, AccountFenced, Unredacted, Evolves;
    UnredactedGets(row);
    EvolvesItself(db);
    FirmStays(db, db, t, row, Unredacted(row));
  }

  ghost predicate AllAdmitted(rules: Rules, db: Database, steps: seq<Step>)
    decreases |steps|
  {
    steps == [] ||
    (AllAdmitted(rules, db, steps[..|steps| - 1]) && Admitted(rules, Run(db, steps[..|steps| - 1]), steps[|steps| - 1]))
  }

  function Run(db: Database, steps: seq<Step>): Database {
    if steps == [] then db else Execute(Run(db, steps[..|steps| - 1]), steps[|steps| - 1])
  }

  /** One step leaves a firmly blocked row blocked, and its payload as it was or emptier. */
  lemma StepInBlockedScope(rules: Rules, db: Database, step: Step, k: (Table, Uuid))
    requires Admitted(rules, db, step)
    requires k.0 in rules && k in db.rows && Firm(db, k.0, db.rows[k])
    ensures var after := Execute(db, step);
            && k in after.rows && Firm(after, k.0, after.rows[k])
            && KeptOrEmptied(rules[k.0], db.rows[k], after.rows[k])
  {
    hide Evolves, Verdict, Check, Firm, Get, Unredacted, Blocked;
    AdmittedEvolves(rules, db, step);
    var after := Execute(db, step);
    RowEvolves(db, after, k);
    FirmStays(db, after, k.0, db.rows[k], after.rows[k]);
    if step.WriteRow? && k == (step.table, step.id) {
      FirmStaysHere(db, k.0, db.rows[k], step.next);
      UnredactedIsFirmAlike(db, k.0, step.next);
      FirmIsBlocked(db, k.0, Unredacted(step.next));
      AcceptedUpdate(k.0, rules[k.0], db.rows[k], Write(db, step.next));
    }
  }

  lemma RowEvolves(before: Database, after: Database, k: (Table, Uuid))
    requires Evolves(before, after) && k in before.rows
    ensures k in after.rows && LinksKept(before.rows[k], after.rows[k])
    ensures Erased(before.rows[k]) ==> Erased(after.rows[k])
  {
  }

  /** The guard looks up the new row in the database as it still is. */
  lemma FirmStaysHere(db: Database, t: Table, row: Row, next: Row)
    requires Firm(db, t, row) && LinksKept(row, next) && (Erased(row) ==> Erased(next))
    ensures Firm(db, t, next)
  {
    hide Firm, Get, AccountFenced;
    EvolvesItself(db);
    FirmStays(db, db, t, row, next);
  }

  lemma EvolvesItself(db: Database)
    ensures Evolves(db, db)
  {
  }

  /**
   From any state on, through any run of accepted writes and other transactions: a guarded row
   whose scope is blocked loses payload or keeps it, and once empty it stays empty.
   */
  lemma {:induction false} BlockedScopeOnlyEmpties(rules: Rules, db: Database, steps: seq<Step>, k: (Table, Uuid))
    requires AllAdmitted(rules, db, steps)
    requires k.0 in rules && k in db.rows && Firm(db, k.0, db.rows[k])
    ensures var after := Run(db, steps);
            && k in after.rows && Firm(after, k.0, after.rows[k])
            && KeptOrEmptied(rules[k.0], db.rows[k], after.rows[k])
            && (PayloadEmpty(rules[k.0], db.rows[k]) ==> PayloadEmpty(rules[k.0], after.rows[k]))
  {
    hide Firm, Admitted, Get, Execute;
    if steps != [] {
      var front := steps[..|steps| - 1];
      BlockedScopeOnlyEmpties(rules, db, front, k);
      StepInBlockedScope(rules, Run(db, front), steps[|steps| - 1], k);
    }
  }

  predicate OfAccount(row: Row, account: Uuid) {
    Get(row, AccountId) == Id(account)
  }

  ghost predicate AccountEmpty(rules: Rules, db: Database, account: Uuid) {
    forall k: (Table, Uuid) | k.0 in rules && k in db.rows && OfAccount(db.rows[k], account) ::
      PayloadEmpty(rules[k.0], db.rows[k])
  }

  lemma RequestFences(db: Database, t: Table, row: Row, account: Uuid)
    requires AccountErasure(account) in db.requests && OfAccount(row, account)
    ensures Firm(db, t, row)
  {
  }

  lemma StepInErasedAccount(rules: Rules, db: Database, step: Step, account: Uuid)
    requires Admitted(rules, db, step)
    requires AccountErasure(account) in db.requests && AccountEmpty(rules, db, account)
    ensures var after := Execute(db, step);
            AccountErasure(account) in after.requests && AccountEmpty(rules, after, account)
  {
    hide Verdict, Check, Firm, Get, Blocked, PayloadEmpty, Owner, AccountFenced;
    var after := Execute(db, step);
    forall k: (Table, Uuid) | k.0 in rules && k in after.rows && OfAccount(after.rows[k], account)
      ensures PayloadEmpty(rules[k.0], after.rows[k])
    {
      if k in db.rows {
        AdmittedEvolves(rules, db, step);
        RowOfAccount(db, after, k, account);
        RequestFences(db, k.0, db.rows[k], account);
        StepInBlockedScope(rules, db, step, k);
        EmptyStaysEmpty(rules[k.0], db.rows[k], after.rows[k]);
      } else {
        NoInsertIntoBlockedScope(rules, db, k.0, k.1, after.rows[k]);
        RequestFences(db, k.0, after.rows[k], account);
        FirmIsBlocked(db, k.0, after.rows[k]);
        assert false;
      }
    }
  }

  lemma EmptyStaysEmpty(rule: Rule, a: Row, b: Row)
    requires KeptOrEmptied(rule, a, b) && PayloadEmpty(rule, a)
    ensures PayloadEmpty(rule, b)
  {
  }

  lemma RowOfAccount(before: Database, after: Database, k: (Table, Uuid), account: Uuid)
    requires Evolves(before, after) && k in before.rows && k in after.rows && OfAccount(after.rows[k], account)
    ensures OfAccount(before.rows[k], account)
  {
    assert Same(before.rows[k], after.rows[k], AccountId);
  }

  /** Once an erased account holds no payload, none ever appears in it again. */
  lemma {:induction false} ErasedAccountStaysEmpty(rules: Rules, db: Database, steps: seq<Step>, account: Uuid)
    requires AllAdmitted(rules, db, steps)
    requires AccountErasure(account) in db.requests && AccountEmpty(rules, db, account)
    ensures var after := Run(db, steps);
            AccountErasure(account) in after.requests && AccountEmpty(rules, after, account)
  {
    hide Admitted, AccountEmpty, Execute;
    if steps != [] {
      var front := steps[..|steps| - 1];
      ErasedAccountStaysEmpty(rules, db, front, account);
      StepInErasedAccount(rules, Run(db, front), steps[|steps| - 1], account);
    }
  }
}
