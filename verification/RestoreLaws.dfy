/**
 What each command of the restore gate does, said without its own lookups: which rows it finds,
 what it asks for, what it changes, and that an erased memory is forgotten whichever command ran.
 */
module RestoreLaws {
  import opened Basics
  import opened RestoreGate
  import opened RestoreStore

  // ---------------------------------------------------------------------------
  // Looking up what an entry names
  // ---------------------------------------------------------------------------

  /** The last of the account's memories whose hash the entry names. */
  ghost predicate NamedMemory(mac: Mac, memories: seq<MemoryRow>, account: Uuid, target: Bytes, i: nat) {
    && i < |memories| && memories[i].account == account && mac(memories[i].id) == target
    && forall j | i < j < |memories| :: memories[j].account != account || mac(memories[j].id) != target
  }

  /** The first of the account's contacts whose hash the entry names. */
  ghost predicate NamedContact(mac: Mac, contacts: seq<ContactRow>, account: Uuid, target: Bytes, i: nat) {
    && i < |contacts| && contacts[i].account == account && mac(contacts[i].id) == target
    && forall j | 0 <= j < i :: contacts[j].account != account || mac(contacts[j].id) != target
  }

  lemma {:induction false} FindMemoryExactly(mac: Mac, memories: seq<MemoryRow>, account: Uuid, target: Bytes)
    ensures forall i: nat :: FindMemory(mac, memories, account, target) == Some(i)
                             <==> NamedMemory(mac, memories, account, target, i)
    ensures FindMemory(mac, memories, account, target).None?
            <==> forall j | 0 <= j < |memories| :: memories[j].account != account || mac(memories[j].id) != target
  {
    if memories != [] {
      FindMemoryExactly(mac, memories[..|memories| - 1], account, target);
      forall i: nat
        ensures FindMemory(mac, memories, account, target) == Some(i)
                <==> NamedMemory(mac, memories, account, target, i)
      {
        var last := |memories| - 1;
        if memories[last].account != account || mac(memories[last].id) != target {
          assert NamedMemory(mac, memories, account, target, i)
              <==> NamedMemory(mac, memories[..last], account, target, i);
        }
      }
    }
  }

  lemma {:induction false} FindContactExactly(mac: Mac, contacts: seq<ContactRow>, account: Uuid, target: Bytes)
    ensures FindContact(mac, contacts, account, target).Some?
            <==> exists i: nat :: NamedContact(mac, contacts, account, target, i)
    ensures forall i: nat | NamedContact(mac, contacts, account, target, i) ::
              FindContact(mac, contacts, account, target) == Some(contacts[i].id)
  {
    if contacts != [] {
      var rest := contacts[1..];
      FindContactExactly(mac, rest, account, target);
      if contacts[0].account == account && mac(contacts[0].id) == target {
        assert NamedContact(mac, contacts, account, target, 0);
      } else {
        forall i: nat
          ensures NamedContact(mac, contacts, account, target, i + 1) <==> NamedContact(mac, rest, account, target, i)
        {
          assert forall j | 0 < j < |contacts| :: contacts[j] == rest[j - 1];
        }
        forall i: nat | NamedContact(mac, contacts, account, target, i)
          ensures i > 0 && NamedContact(mac, rest, account, target, i - 1)
        {
        }
      }
    }
  }

  /** What an account or contact entry is about: the account itself, or the contact it names. */
  ghost predicate Targets(mac: Mac, db: Database, account: Uuid, e: Entry, contact: Option<Uuid>) {
    match e.scope
    case Account => mac(account) == e.target && contact.None?
    case Contact => exists i: nat :: NamedContact(mac, db.contacts, account, e.target, i)
                                     && contact == Some(db.contacts[i].id)
    case Memory => false
  }

  lemma TargetsExactly(mac: Mac, db: Database, account: Uuid, e: Entry)
    requires e.scope != Memory
    ensures var found := ScopeTarget(mac, db, account, e);
            && (found.Err? <==> e.scope == Account && mac(account) != e.target)
            && (found.Err? ==> found.error == TargetIdentityInvalid)
            && (e.scope == Account && found.Ok? ==> found.value.Some?)
            && (found.Ok? && found.value.Some?
                <==> exists contact: Option<Uuid> :: Targets(mac, db, account, e, contact))
            && (forall contact: Option<Uuid> | Targets(mac, db, account, e, contact) ::
                  found == Ok(Some(if e.scope == Contact then contact.value else account))
                  && (e.scope == Contact ==> contact.Some?))
  {
    hide FindContact, NamedContact;
    if e.scope == Account {
      assert mac(account) == e.target ==> Targets(mac, db, account, e, None);
    } else {
      FindContactExactly(mac, db.contacts, account, e.target);
      if i: nat :| NamedContact(mac, db.contacts, account, e.target, i) {
        assert i < |db.contacts| by { NamedIsIndex(mac, db.contacts, account, e.target, i); }
        assert Targets(mac, db, account, e, Some(db.contacts[i].id));
      }
    }
  }

  lemma NamedIsIndex(mac: Mac, contacts: seq<ContactRow>, account: Uuid, target: Bytes, i: nat)
    ensures NamedContact(mac, contacts, account, target, i) ==> i < |contacts|
  {
  }

  // ---------------------------------------------------------------------------
  // Closing
  // ---------------------------------------------------------------------------

  /** Closing refuses another account's gate, and otherwise starts the next generation and touches nothing else. */
  lemma ClosesExactly(db: Database, account: Uuid, event: nat)
    ensures CloseGate(db, account, event) ==
              if db.gate.Some? && db.gate.value.account != account then Err(IdentityConflict)
              else
                var (generation, version) :=
                  match db.gate case None => (0, 0) case Some(g) => (g.generation, g.version);
                Ok(db.(gate := Some(Gate(account, Validating, generation + 1, version + 1, false, false, false, false,
                                         event))))
  {
  }

  // ---------------------------------------------------------------------------
  // Replaying memories
  // ---------------------------------------------------------------------------

  predicate Gone(row: MemoryRow) {
    row.forgotten || row.scopeErased
  }

  /** Memories only come to be forgotten. */
  ghost predicate OnlyForgets(a: seq<MemoryRow>, b: seq<MemoryRow>) {
    && |a| == |b|
    && forall i | 0 <= i < |a| :: b[i] == a[i] || (b[i] == a[i].(forgotten := true) && !a[i].scopeErased)
  }

  /** Every memory that a memory entry names is gone. */
  ghost predicate MemoriesGone(mac: Mac, memories: seq<MemoryRow>, account: Uuid, entries: seq<Entry>) {
    forall e, i: nat | e in entries && e.scope == Memory && NamedMemory(mac, memories, account, e.target, i) ::
      Gone(memories[i])
  }

  lemma NamesStay(mac: Mac, a: seq<MemoryRow>, b: seq<MemoryRow>, account: Uuid, target: Bytes, i: nat)
    requires OnlyForgets(a, b)
    ensures NamedMemory(mac, a, account, target, i) <==> NamedMemory(mac, b, account, target, i)
    ensures i < |a| && Gone(a[i]) ==> Gone(b[i])
  {
  }

  /** One memory entry: the memory it names is forgotten, and its request is on record as completed. */
  lemma MemoryReplayExactly(mac: Mac, db: Database, account: Uuid, e: Entry)
    ensures var after := ReplayMemory(mac, db, account, e);
            && OnlyForgets(db.memories, after.memories)
            && (forall i: nat | NamedMemory(mac, db.memories, account, e.target, i) ::
                  && Gone(after.memories[i]) && e.request in after.requests
                  && after == db.(memories := db.memories[i := after.memories[i]],
                                  requests := db.requests[e.request := after.requests[e.request]],
                                  ledger := if e.request in db.ledger then db.ledger else db.ledger[e.request := e])
                  && after.requests[e.request] ==
                       if e.request in db.requests
                       then db.requests[e.request].(state := Completed, completedAt := Some(e.completedAt))
                       else Request(account, Memory, Some(db.memories[i].id), None, e.key, e.policy, Completed,
                                    Some(e.completedAt)))
            && ((forall i: nat :: !NamedMemory(mac, db.memories, account, e.target, i)) ==> after == db)
  {
    hide FindMemory;
    FindMemoryExactly(mac, db.memories, account, e.target);
    var found := FindMemory(mac, db.memories, account, e.target);
    if found.Some? && db.memories[found.value].scopeErased {
      assert db.memories[found.value := db.memories[found.value]] == db.memories;
    }
  }

  lemma {:induction false} StagingForgets(mac: Mac, db: Database, account: Uuid, generation: nat, entries: seq<Entry>,
                                          event: nat)
    requires StageEntries(mac, db, account, generation, entries, event).Ok?
    ensures var after := StageEntries(mac, db, account, generation, entries, event).value;
            OnlyForgets(db.memories, after.memories) && MemoriesGone(mac, after.memories, account, entries)
  {
    hide ReplayMemory, ScopeTarget, NamedMemory, Gone;
    if entries != [] {
      var front, last := entries[..|entries| - 1], entries[|entries| - 1];
      StagingForgets(mac, db, account, generation, front, event);
      var mid := StageEntries(mac, db, account, generation, front, event).value;
      var after := StageEntries(mac, db, account, generation, entries, event).value;
      MemoryReplayExactly(mac, mid, account, last);
      assert last.scope != Memory ==> after.memories == mid.memories;
      OneMoreForgotten(mac, mid.memories, after.memories, account, front, last);
      ForgettingComposes(db.memories, mid.memories, after.memories);
      assert entries == front + [last];
    }
  }

  lemma OneMoreForgotten(mac: Mac, a: seq<MemoryRow>, b: seq<MemoryRow>, account: Uuid, front: seq<Entry>, last: Entry)
    requires OnlyForgets(a, b) && MemoriesGone(mac, a, account, front)
    requires last.scope == Memory ==>
               forall i: nat | NamedMemory(mac, a, account, last.target, i) :: Gone(b[i])
    ensures MemoriesGone(mac, b, account, front + [last])
  {
    hide Gone;
    forall e, i: nat | e in front + [last] && e.scope == Memory && NamedMemory(mac, b, account, e.target, i)
      ensures Gone(b[i])
    {
      NamesStay(mac, a, b, account, e.target, i);
      assert e in front || e == last;
    }
  }

  lemma ForgettingComposes(a: seq<MemoryRow>, b: seq<MemoryRow>, c: seq<MemoryRow>)
    requires OnlyForgets(a, b) && OnlyForgets(b, c)
    ensures OnlyForgets(a, c)
  {
    forall i | 0 <= i < |a|
      ensures c[i] == a[i] || (c[i] == a[i].(forgotten := true) && !a[i].scopeErased)
    {
      assert b[i] == a[i] || b[i] == a[i].(forgotten := true);
    }
  }

  lemma {:induction false} ReplayingForgets(mac: Mac, db: Database, account: Uuid, entries: seq<Entry>)
    requires forall e | e in entries :: e.scope == Memory
    ensures var after := ReplayMemories(mac, db, account, entries);
            OnlyForgets(db.memories, after.memories) && MemoriesGone(mac, after.memories, account, entries)
  {
    hide ReplayMemory, NamedMemory, Gone;
    if entries != [] {
      var front, last := entries[..|entries| - 1], entries[|entries| - 1];
      ReplayingForgets(mac, db, account, front);
      var mid := ReplayMemories(mac, db, account, front);
      var after := ReplayMemories(mac, db, account, entries);
      MemoryReplayExactly(mac, mid, account, last);
      OneMoreForgotten(mac, mid.memories, after.memories, account, front, last);
      ForgettingComposes(db.memories, mid.memories, after.memories);
      assert entries == front + [last];
    }
  }

  lemma {:induction false} OfScopeIs(entries: seq<Entry>, scope: Scope)
    ensures forall e :: e in OfScope(entries, scope) <==> e in entries && e.scope == scope
  {
    if entries != [] {
      var front, last := entries[..|entries| - 1], entries[|entries| - 1];
      OfScopeIs(front, scope);
      assert entries == front + [last];
    }
  }

  /**
   After staging or opening, every memory of the account that an entry of the ledger names is
   forgotten or was erased with its scope, and no other part of any memory has changed.
   */
  lemma ErasedMemoriesAreForgotten(mac: Mac, db: Database, account: Uuid, revisionMatches: bool, entries: seq<Entry>,
                                   checks: Checks, event: nat)
    ensures var staged := Stage(mac, db, account, revisionMatches, entries, event);
            staged.Ok? ==> OnlyForgets(db.memories, staged.value.memories)
                           && MemoriesGone(mac, staged.value.memories, account, entries)
    ensures var opening := VerifyAndOpen(mac, db, account, entries, checks);
            opening.Ok? ==> OnlyForgets(db.memories, opening.value.memories)
                            && MemoriesGone(mac, opening.value.memories, account, entries)
  {
    hide StageEntries, ReplayMemories, VerifyEntries, OfScope, AllCompleted, OnlyForgets, NamedMemory, Gone;
    if Stage(mac, db, account, revisionMatches, entries, event).Ok? {
      StagingForgets(mac, db, account, db.gate.value.generation, entries, event);
    }
    OfScopeIs(entries, Memory);
    ReplayingForgets(mac, db, account, OfScope(entries, Memory));
  }

  // ---------------------------------------------------------------------------
  // Staging
  // ---------------------------------------------------------------------------

  /** The request row is the entry's own, for the same party under the same key and policy. */
  predicate OfEntry(r: Request, account: Uuid, contact: Option<Uuid>, e: Entry) {
    r.account == account && r.scope == e.scope && r.contact == contact && r.key == e.key && r.policy == e.policy
  }

  ghost predicate Stageable(mac: Mac, db: Database, account: Uuid, e: Entry) {
    exists contact: Option<Uuid> ::
      Targets(mac, db, account, e, contact)
      && (e.request in db.requests ==> OfEntry(db.requests[e.request], account, contact, e))
  }

  /** The database after an entry about this party was staged. */
  function Staged(db: Database, account: Uuid, contact: Option<Uuid>, generation: nat, e: Entry, event: nat): Database {
    var row := if e.request in db.requests then db.requests[e.request]
               else Request(account, e.scope, None, contact, e.key, e.policy, Requested, None);
    if (generation, e.request) in db.replays then db.(requests := db.requests[e.request := row])
    else
      db.(replays := db.replays[(generation, e.request) := event],
          mediaChecks := db.mediaChecks - {e.request},
          progress := db.progress - {e.request},
          requests := db.requests[e.request := row.(state := Requested, completedAt := None)],
          ledger := if e.request in db.ledger then db.ledger else db.ledger[e.request := e])
  }

  /**
   An account or contact entry is staged exactly when it names a party the database has and no
   other request has its identifier; then exactly this is stored.
   */
  lemma StagesExactly(mac: Mac, db: Database, account: Uuid, generation: nat, e: Entry, event: nat)
    requires e.scope != Memory
    ensures var out := StageEntry(mac, db, account, generation, e, event);
            && (out.Ok? <==> Stageable(mac, db, account, e))
            && (forall contact: Option<Uuid> | Targets(mac, db, account, e, contact) ::
                  out == if e.request in db.requests && !OfEntry(db.requests[e.request], account, contact, e)
                         then Err(RequestIdentityConflict)
                         else Ok(Staged(db, account, contact, generation, e, event)))
            && ((forall contact: Option<Uuid> :: !Targets(mac, db, account, e, contact)) ==>
                  out == Err(if e.scope == Account then TargetIdentityInvalid else TargetMissing))
  {
    hide ScopeTarget, Targets;
    TargetsExactly(mac, db, account, e);
    forall contact: Option<Uuid> | Targets(mac, db, account, e, contact)
      ensures StageEntry(mac, db, account, generation, e, event)
              == if e.request in db.requests && !OfEntry(db.requests[e.request], account, contact, e)
                 then Err(RequestIdentityConflict)
                 else Ok(Staged(db, account, contact, generation, e, event))
    {
      AccountHasNoContact(mac, db, account, e, contact);
      var row := if e.request in db.requests then db.requests[e.request]
                 else Request(account, e.scope, None, contact, e.key, e.policy, Requested, None);
      assert db.requests[e.request := row][e.request := row.(state := Requested, completedAt := None)]
          == db.requests[e.request := row.(state := Requested, completedAt := None)];
    }
    if StageEntry(mac, db, account, generation, e, event).Ok? {
      var contact: Option<Uuid> :| Targets(mac, db, account, e, contact);
      assert !(e.request in db.requests && !OfEntry(db.requests[e.request], account, contact, e));
      assert Stageable(mac, db, account, e);
    }
  }

  lemma AccountHasNoContact(mac: Mac, db: Database, account: Uuid, e: Entry, contact: Option<Uuid>)
    ensures Targets(mac, db, account, e, contact) && e.scope == Account ==> contact.None?
  {
  }

  /** A ledger is staged exactly into a validating gate of the account, at the right schema, if every entry can be. */
  lemma StageNeeds(mac: Mac, db: Database, account: Uuid, revisionMatches: bool, entries: seq<Entry>, event: nat)
    ensures var out := Stage(mac, db, account, revisionMatches, entries, event);
            if !(db.gate.Some? && db.gate.value.account == account && db.gate.value.state == Validating)
            then out == Err(NotValidating)
            else if !revisionMatches then out == Err(SchemaRevisionInvalid)
            else out == StageEntries(mac, db, account, db.gate.value.generation, entries, event)
  {
  }

  // ---------------------------------------------------------------------------
  // Opening
  // ---------------------------------------------------------------------------

  /**
   The evidence for one entry: the party exists; its own request is completed, has a media check
   and was staged in the gate's generation.
   */
  ghost predicate ProvenFor(mac: Mac, db: Database, account: Uuid, generation: nat, e: Entry) {
    && e.request in db.requests && db.requests[e.request].state == Completed
    && e.request in db.mediaChecks && (generation, e.request) in db.replays
    && exists contact: Option<Uuid> ::
         Targets(mac, db, account, e, contact) && OfEntry(db.requests[e.request], account, contact, e)
  }

  lemma VerifiesExactly(mac: Mac, db: Database, account: Uuid, e: Entry)
    requires e.scope != Memory && ValidatingFor(db, account)
    ensures VerifyEntry(mac, db, account, e).Ok? <==> ProvenFor(mac, db, account, db.gate.value.generation, e)
    ensures VerifyEntry(mac, db, account, e).Err? ==>
              VerifyEntry(mac, db, account, e).error ==
                if e.scope == Account && mac(account) != e.target then TargetIdentityInvalid else ErasureIncomplete
  {
    hide ScopeTarget, Targets;
    TargetsExactly(mac, db, account, e);
    forall contact: Option<Uuid> | Targets(mac, db, account, e, contact)
      ensures contact == if e.scope == Contact then Some(ScopeTarget(mac, db, account, e).value.value) else None
    {
      AccountHasNoContact(mac, db, account, e, contact);
    }
  }

  lemma {:induction false} VerifyEntriesExactly(mac: Mac, db: Database, account: Uuid, entries: seq<Entry>)
    ensures VerifyEntries(mac, db, account, entries).Ok?
            <==> forall e | e in entries :: VerifyEntry(mac, db, account, e).Ok?
  {
    hide VerifyEntry;
    if entries != [] {
      var front, last := entries[..|entries| - 1], entries[|entries| - 1];
      VerifyEntriesExactly(mac, db, account, front);
      assert entries == front + [last];
    }
  }

  /** The entry names a memory that the database has. */
  ghost predicate NamesMemory(mac: Mac, db: Database, account: Uuid, e: Entry) {
    e.scope == Memory && exists i: nat :: NamedMemory(mac, db.memories, account, e.target, i)
  }

  /** Replaying completes the requests of the memories it finds, and leaves all others as they are. */
  lemma {:induction false} ReplayedRequests(mac: Mac, db: Database, account: Uuid, entries: seq<Entry>, r: Uuid)
    requires forall e | e in entries :: e.scope == Memory
    ensures var after := ReplayMemories(mac, db, account, entries);
            && OnlyForgets(db.memories, after.memories)
            && (if exists e | e in entries :: e.request == r && NamesMemory(mac, db, account, e)
                then r in after.requests && after.requests[r].state == Completed
                     && (r in db.requests ==> after.requests[r].account == db.requests[r].account)
                else (r in after.requests <==> r in db.requests)
                     && (r in db.requests ==> after.requests[r] == db.requests[r]))
  {
    hide ReplayMemory, NamedMemory, OnlyForgets;
    if entries == [] {
      assert OnlyForgets(db.memories, db.memories) by { ForgettingNothing(db.memories); }
    } else {
      var front, last := entries[..|entries| - 1], entries[|entries| - 1];
      ReplayedRequests(mac, db, account, front, r);
      var mid := ReplayMemories(mac, db, account, front);
      MemoryReplayExactly(mac, mid, account, last);
      ForgettingComposes(db.memories, mid.memories, ReplayMemories(mac, db, account, entries).memories);
      forall i: nat
        ensures NamedMemory(mac, db.memories, account, last.target, i)
            <==> NamedMemory(mac, mid.memories, account, last.target, i)
      {
        NamesStay(mac, db.memories, mid.memories, account, last.target, i);
      }
      assert entries == front + [last];
      assert last in entries;
    }
  }

  lemma ForgettingNothing(a: seq<MemoryRow>)
    ensures OnlyForgets(a, a)
  {
  }

  /**
   The gate opens exactly when the session, the schema, the integrity, the reconciliation and
   the credentials are in order, the gate is validating for the account, every account and
   contact entry is proven, and every request of the account is completed, or is completed now
   by forgetting the memory it names.  Otherwise the first of these to fail is reported.
   */
  lemma OpensExactly(mac: Mac, db: Database, account: Uuid, entries: seq<Entry>, checks: Checks)
    ensures var out := VerifyAndOpen(mac, db, account, entries, checks);
            var validating := db.gate.Some? && db.gate.value.account == account && db.gate.value.state == Validating;
            var proven := validating && forall e | e in entries && e.scope != Memory ::
                            ProvenFor(mac, db, account, db.gate.value.generation, e);
            var completed := forall r | r in db.requests && db.requests[r].account == account ::
                               || db.requests[r].state == Completed
                               || exists e | e in entries :: e.request == r && NamesMemory(mac, db, account, e);
            && (out.Ok? <==> checks.session && validating && checks.revisionMatches && proven && checks.integrity
                             && completed && checks.reconciled && checks.credentials)
            && (out.Err? ==>
                  if !checks.session then out.error == SessionInvalid
                  else if !validating then out.error == NotValidating
                  else if !checks.revisionMatches then out.error == SchemaRevisionInvalid
                  else if !proven then out.error == TargetIdentityInvalid || out.error == ErasureIncomplete
                  else if !checks.integrity then out.error == IntegrityInvalid
                  else if !completed then out.error == ErasureIncomplete
                  else if !checks.reconciled then out.error == ReconciliationRequired
                  else out.error == CredentialsInvalid)
            && (out.Ok? ==>
                  out.value.gate == Some(db.gate.value.(state := Open, version := db.gate.value.version + 1,
                                                        replayVerified := true, reconciled := true,
                                                        credentialsVerified := true, sessionVerified := true)))
  {
    hide VerifyEntries, ReplayMemories, OfScope, AllCompleted, ProvenFor, NamesMemory;
    if ValidatingFor(db, account) {
      ProvenExactly(mac, db, account, entries);
    }
    CompletedExactly(mac, db, account, entries);
    if VerifyEntries(mac, db, account, OfScope(entries, Account)).Err? {
      OfScopeIs(entries, Account);
      VerifyEntriesRefuse(mac, db, account, OfScope(entries, Account));
    }
    if VerifyEntries(mac, db, account, OfScope(entries, Contact)).Err? {
      OfScopeIs(entries, Contact);
      VerifyEntriesRefuse(mac, db, account, OfScope(entries, Contact));
    }
  }

  lemma {:induction false} VerifyEntriesRefuse(mac: Mac, db: Database, account: Uuid, entries: seq<Entry>)
    requires VerifyEntries(mac, db, account, entries).Err?
    ensures VerifyEntries(mac, db, account, entries).error in {TargetIdentityInvalid, ErasureIncomplete}
  {
    hide FindContact, Proven;
    if VerifyEntries(mac, db, account, entries[..|entries| - 1]).Err? {
      VerifyEntriesRefuse(mac, db, account, entries[..|entries| - 1]);
    }
  }

  lemma ProvenExactly(mac: Mac, db: Database, account: Uuid, entries: seq<Entry>)
    requires ValidatingFor(db, account)
    ensures VerifyEntries(mac, db, account, OfScope(entries, Account)).Ok?
            && VerifyEntries(mac, db, account, OfScope(entries, Contact)).Ok?
            <==> forall e | e in entries && e.scope != Memory ::
                   ProvenFor(mac, db, account, db.gate.value.generation, e)
  {
    hide VerifyEntries, VerifyEntry, OfScope, ProvenFor;
    OfScopeIs(entries, Account);
    OfScopeIs(entries, Contact);
    VerifyEntriesExactly(mac, db, account, OfScope(entries, Account));
    VerifyEntriesExactly(mac, db, account, OfScope(entries, Contact));
    forall e | e in entries && e.scope != Memory
      ensures VerifyEntry(mac, db, account, e).Ok? <==> ProvenFor(mac, db, account, db.gate.value.generation, e)
    {
      VerifiesExactly(mac, db, account, e);
    }
  }

  lemma CompletedExactly(mac: Mac, db: Database, account: Uuid, entries: seq<Entry>)
    ensures AllCompleted(ReplayMemories(mac, db, account, OfScope(entries, Memory)), account)
            <==> forall r | r in db.requests && db.requests[r].account == account ::
                   || db.requests[r].state == Completed
                   || exists e | e in entries :: e.request == r && NamesMemory(mac, db, account, e)
    ensures ReplayMemories(mac, db, account, OfScope(entries, Memory)).gate == db.gate
  {
    hide ReplayMemories, OfScope, NamesMemory, OnlyForgets;
    var memories := OfScope(entries, Memory);
    OfScopeIs(entries, Memory);
    ReplayKeepsGate(mac, db, account, memories);
    forall e | e in entries && NamesMemory(mac, db, account, e)
      ensures e in memories
    {
      NamesAMemory(mac, db, account, e);
    }
    forall r: Uuid
      ensures var after := ReplayMemories(mac, db, account, memories);
              (exists e | e in memories :: e.request == r && NamesMemory(mac, db, account, e))
              ==> r in after.requests && after.requests[r].state == Completed
    {
      ReplayedRequests(mac, db, account, memories, r);
    }
    forall r | r in db.requests
      ensures var after := ReplayMemories(mac, db, account, memories);
              r in after.requests && after.requests[r].account == db.requests[r].account
    {
      ReplayedRequests(mac, db, account, memories, r);
    }
    forall r: Uuid
      ensures var after := ReplayMemories(mac, db, account, memories);
              r in after.requests && after.requests[r].state != Completed
              ==> r in db.requests && after.requests[r] == db.requests[r]
    {
      ReplayedRequests(mac, db, account, memories, r);
    }
    forall r | r in db.requests && !(exists e | e in entries :: e.request == r && NamesMemory(mac, db, account, e))
      ensures ReplayMemories(mac, db, account, memories).requests[r] == db.requests[r]
    {
      ReplayedRequests(mac, db, account, memories, r);
    }
  }

  lemma NamesAMemory(mac: Mac, db: Database, account: Uuid, e: Entry)
    ensures NamesMemory(mac, db, account, e) ==> e.scope == Memory
  {
  }

  lemma {:induction false} ReplayKeepsGate(mac: Mac, db: Database, account: Uuid, entries: seq<Entry>)
    ensures ReplayMemories(mac, db, account, entries).gate == db.gate
  {
    if entries != [] {
      ReplayKeepsGate(mac, db, account, entries[..|entries| - 1]);
    }
  }
}
