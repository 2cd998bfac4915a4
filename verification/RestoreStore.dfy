/**
 The restore commands as they run: loops over the ledger inside one transaction, grouping of
 the entries by handler, and what repeated staging may and may not undo.
 */
module RestoreStore {
  import opened Basics
  import opened RestoreGate

  // ---------------------------------------------------------------------------
  // Staging twice
  // ---------------------------------------------------------------------------

  /** The work done for one request in this generation. */
  datatype Progress = Progress(row: Option<Request>, check: Option<nat>, begun: bool, staged: Option<nat>)

  function ProgressOf(db: Database, generation: nat, r: Uuid): Progress {
    Progress(if r in db.requests then Some(db.requests[r]) else None,
             if r in db.mediaChecks then Some(db.mediaChecks[r]) else None,
             r in db.progress,
             if (generation, r) in db.replays then Some(db.replays[(generation, r)]) else None)
  }

  /** A replayed request row exists, as the foreign key of the replay table demands. */
  ghost predicate ReplaysReference(db: Database) {
    forall k | k in db.replays :: k.1 in db.requests
  }

  /** Staging an entry already staged in this generation moves nothing; the first time resets all. */
  lemma StageEntryEffect(mac: Mac, db: Database, account: Uuid, generation: nat, e: Entry, event: nat)
    requires ReplaysReference(db) && e.scope != Memory
    requires StageEntry(mac, db, account, generation, e, event).Ok?
    ensures var after := StageEntry(mac, db, account, generation, e, event).value;
            && ReplaysReference(after)
            && ((generation, e.request) in db.replays ==> after == db)
            && ((generation, e.request) !in db.replays ==>
                  ProgressOf(after, generation, e.request)
                  == Progress(Some(after.requests[e.request]), None, false, Some(event))
                  && after.requests[e.request].state == Requested
                  && after.requests[e.request].completedAt.None?)
            && (forall r | r != e.request :: ProgressOf(after, generation, r) == ProgressOf(db, generation, r))
  {
    if (generation, e.request) in db.replays {
      assert (generation, e.request).1 in db.requests;
    }
  }

  lemma ReplayMemoryElsewhere(mac: Mac, db: Database, account: Uuid, generation: nat, e: Entry)
    requires ReplaysReference(db)
    ensures var after := ReplayMemory(mac, db, account, e);
            && ReplaysReference(after)
            && (forall r | r != e.request :: ProgressOf(after, generation, r) == ProgressOf(db, generation, r))
            && ProgressOf(after, generation, e.request).staged == ProgressOf(db, generation, e.request).staged
  {
  }

  /** Entries of other requests leave a request's progress alone. */
  lemma {:induction false} OthersLeaveAlone(mac: Mac, db: Database, account: Uuid, generation: nat, entries: seq<Entry>,
                                            event: nat, r: Uuid)
    requires ReplaysReference(db) && StageEntries(mac, db, account, generation, entries, event).Ok?
    requires forall e | e in entries :: e.request != r
    ensures var after := StageEntries(mac, db, account, generation, entries, event).value;
            ReplaysReference(after) && ProgressOf(after, generation, r) == ProgressOf(db, generation, r)
  {
    hide StageEntry, ReplayMemory;
    if entries != [] {
      var front, last := entries[..|entries| - 1], entries[|entries| - 1];
      OthersLeaveAlone(mac, db, account, generation, front, event, r);
      StageOneMore(
        mac, StageEntries(mac, db, account, generation, front, event).value, account, generation, last, event);
      assert last in entries;
    }
  }

  /** Both kinds of entry: what happens to every request but the entry's own. */
  lemma StageOneMore(mac: Mac, db: Database, account: Uuid, generation: nat, e: Entry, event: nat)
    requires ReplaysReference(db) && StageEntry(mac, db, account, generation, e, event).Ok?
    ensures var after := StageEntry(mac, db, account, generation, e, event).value;
            && ReplaysReference(after)
            && (forall r | r != e.request :: ProgressOf(after, generation, r) == ProgressOf(db, generation, r))
  {
    if e.scope == Memory {
      ReplayMemoryElsewhere(mac, db, account, generation, e);
    } else {
      StageEntryEffect(mac, db, account, generation, e, event);
    }
  }

  /**
   Staging a ledger, whatever cleanup has already done: a contact or account request staged
   before in this generation keeps every bit of its progress, and one staged for the first
   time starts from nothing, however finished the snapshot believed it to be.
   */
  lemma {:induction false} StagingResetsExactlyOnce(mac: Mac, db: Database, account: Uuid, generation: nat,
                                                    entries: seq<Entry>, event: nat, i: nat)
    requires ReplaysReference(db) && StageEntries(mac, db, account, generation, entries, event).Ok?
    requires i < |entries| && entries[i].scope != Memory
    requires forall j, k | 0 <= j < k < |entries| :: entries[j].request != entries[k].request
    ensures var r := entries[i].request;
            var after := StageEntries(mac, db, account, generation, entries, event).value;
            && ReplaysReference(after)
            && ((generation, r) in db.replays ==> ProgressOf(after, generation, r) == ProgressOf(db, generation, r))
            && ((generation, r) !in db.replays ==>
                  && r in after.requests && after.requests[r].state == Requested
                  && ProgressOf(after, generation, r) == Progress(Some(after.requests[r]), None, false, Some(event)))
  {
    hide StageEntry, ReplaysReference;
    var front, last := entries[..|entries| - 1], entries[|entries| - 1];
    var r := entries[i].request;
    var staged := StageEntries(mac, db, account, generation, front, event).value;
    if i == |entries| - 1 {
      OthersLeaveAlone(mac, db, account, generation, front, event, r);
      assert ProgressOf(staged, generation, r).staged == ProgressOf(db, generation, r).staged;
      StageEntryEffect(mac, staged, account, generation, last, event);
    } else {
      StagingResetsExactlyOnce(mac, db, account, generation, front, event, i);
      StageOneMore(mac, staged, account, generation, last, event);
    }
  }

  /** Replaying a memory entry is idempotent, and afterwards the memory is gone and on record. */
  lemma MemoryReplayIsIdempotent(mac: Mac, db: Database, account: Uuid, e: Entry)
    ensures var after := ReplayMemory(mac, db, account, e);
            var found := FindMemory(mac, db.memories, account, e.target);
            && ReplayMemory(mac, after, account, e) == after
            && (found.Some? ==>
                  && |after.memories| == |db.memories|
                  && (after.memories[found.value].forgotten || after.memories[found.value].scopeErased)
                  && after.requests[e.request].state == Completed && e.request in after.ledger)
            && (found.None? ==> after == db)
  {
    var found := FindMemory(mac, db.memories, account, e.target);
    if found.Some? {
      var after := ReplayMemory(mac, db, account, e);
      SameTarget(mac, db.memories, after.memories, account, e.target);
    }
  }

  lemma {:induction false} SameTarget(mac: Mac, a: seq<MemoryRow>, b: seq<MemoryRow>, account: Uuid, target: Bytes)
    requires |a| == |b| && forall i | 0 <= i < |a| :: a[i].id == b[i].id && a[i].account == b[i].account
    ensures FindMemory(mac, a, account, target) == FindMemory(mac, b, account, target)
  {
    if a != [] {
      SameTarget(mac, a[..|a| - 1], b[..|b| - 1], account, target);
    }
  }

  // ---------------------------------------------------------------------------
  // Grouping entries by handler
  // ---------------------------------------------------------------------------

  /** An entry as parsed, whose scope may be any text. */
  datatype NamedEntry = NamedEntry(scope: string, entry: Entry)

  function Filtered(entries: seq<NamedEntry>, scope: string): seq<NamedEntry> {
    if entries == [] then []
    else
      var last := entries[|entries| - 1];
      Filtered(entries[..|entries| - 1], scope) + if last.scope == scope then [last] else []
  }

  /** One call of a handler with its entries. */
  datatype Call = Call(scope: string, entries: seq<NamedEntry>)

  /** The calls made for the first scopes of the registry, in its order, skipping empty groups. */
  function CallsFor(registry: seq<string>, entries: seq<NamedEntry>): seq<Call> {
    if registry == [] then []
    else
      var scope := registry[|registry| - 1];
      CallsFor(registry[..|registry| - 1], entries)
      + if Filtered(entries, scope) == [] then [] else [Call(scope, Filtered(entries, scope))]
  }

  /**
   `_replay_ledger`: `registry` lists the handlers' scopes in sorted order.  An unknown scope
   is refused before any handler runs; otherwise each handler gets its entries in ledger order.
   */
  method ReplayLedger(registry: seq<string>, entries: seq<NamedEntry>) returns (ok: bool, calls: seq<Call>)
    ensures ok <==> forall e | e in entries :: e.scope in registry
    ensures !ok ==> calls == []
    ensures ok ==> calls == CallsFor(registry, entries)
  {
    var grouped: map<string, seq<NamedEntry>> := map scope | scope in registry :: [];
    for i := 0 to |entries|
      invariant grouped.Keys == set scope | scope in registry
      invariant forall scope | scope in grouped :: grouped[scope] == Filtered(entries[..i], scope)
      invariant forall j | 0 <= j < i :: entries[j].scope in registry
    {
      var e := entries[i];
      assert entries[..i + 1][..i] == entries[..i];
      if e.scope !in grouped {
        return false, [];
      }
      grouped := grouped[e.scope := grouped[e.scope] + [e]];
    }
    assert entries[..|entries|] == entries;
    calls := [];
    for i := 0 to |registry|
      invariant calls == CallsFor(registry[..i], entries)
    {
      assert registry[..i + 1][..i] == registry[..i];
      var scope := registry[i];
      assert scope in registry;
      if grouped[scope] != [] {
        calls := calls + [Call(scope, grouped[scope])];
      }
    }
    assert registry[..|registry|] == registry;
    ok := true;
  }

  /** How often an entry was handed to a handler. */
  function Handed(calls: seq<Call>, e: NamedEntry): nat {
    if calls == [] then 0
    else Handed(calls[..|calls| - 1], e) + multiset(calls[|calls| - 1].entries)[e]
  }

  lemma {:induction false} FilteredCount(entries: seq<NamedEntry>, scope: string, e: NamedEntry)
    ensures multiset(Filtered(entries, scope))[e] == if e.scope == scope then multiset(entries)[e] else 0
  {
    if entries != [] {
      var front := entries[..|entries| - 1];
      FilteredCount(front, scope, e);
      assert entries == front + [entries[|entries| - 1]];
    }
  }

  lemma HandedNone(e: NamedEntry)
    ensures Handed([], e) == 0
  {
  }

  lemma HandedMore(calls: seq<Call>, call: Call, e: NamedEntry)
    ensures Handed(calls + [call], e) == Handed(calls, e) + multiset(call.entries)[e]
  {
    assert (calls + [call])[..|calls|] == calls;
  }

  /** Every entry reaches exactly one handler, exactly as often as the ledger lists it. */
  lemma {:induction false} EachEntryHandledOnce(registry: seq<string>, entries: seq<NamedEntry>, e: NamedEntry)
    requires forall i, j | 0 <= i < j < |registry| :: registry[i] != registry[j]
    ensures Handed(CallsFor(registry, entries), e)
            == if e.scope in registry then multiset(entries)[e] else 0
  {
    hide Handed, Filtered;
    if registry == [] {
      HandedNone(e);
    } else {
      var front, scope := registry[..|registry| - 1], registry[|registry| - 1];
      EachEntryHandledOnce(front, entries, e);
      FilteredCount(entries, scope, e);
      assert e.scope in registry <==> e.scope in front || e.scope == scope by {
        assert registry == front + [scope];
      }
      assert scope !in front;
      var calls := CallsFor(front, entries);
      var mine := Filtered(entries, scope);
      HandedMore(calls, Call(scope, mine), e);
      assert mine == [] ==> CallsFor(registry, entries) == calls;
      assert mine != [] ==> CallsFor(registry, entries) == calls + [Call(scope, mine)];
      assert mine == [] ==> multiset(mine)[e] == 0;
    }
  }

  /** `picked` is what `keep` keeps of a sequence, found at these rising positions. */
  ghost predicate PickedAt<T>(from: seq<T>, keep: T -> bool, picked: seq<T>, positions: seq<nat>) {
    && |positions| == |picked|
    && (forall k | 0 <= k < |picked| :: positions[k] < |from| && from[positions[k]] == picked[k] && keep(picked[k]))
    && (forall j, k | 0 <= j < k < |picked| :: positions[j] < positions[k])
    && (forall i | 0 <= i < |from| && keep(from[i]) :: i in positions)
  }

  lemma PickedMore<T>(from: seq<T>, keep: T -> bool, picked: seq<T>, positions: seq<nat>)
    requires from != [] && PickedAt(from[..|from| - 1], keep, picked, positions)
    ensures keep(from[|from| - 1]) ==> PickedAt(from, keep, picked + [from[|from| - 1]], positions + [|from| - 1])
    ensures !keep(from[|from| - 1]) ==> PickedAt(from, keep, picked, positions)
  {
    var more := positions + [|from| - 1];
    assert forall i | i in positions :: i in more;
    assert more[|positions|] == |from| - 1;
    forall i | 0 <= i < |from| && keep(from[i])
      ensures i in more && (i < |from| - 1 ==> i in positions)
    {
      if i < |from| - 1 {
        assert from[..|from| - 1][i] == from[i];
      }
    }
  }

  function InScope(scope: string): NamedEntry -> bool {
    (e: NamedEntry) => e.scope == scope
  }

  function HasEntries(entries: seq<NamedEntry>): string -> bool {
    (scope: string) => exists e | e in entries :: e.scope == scope
  }

  /** Each handler's entries are those of its scope, all of them, in the order of the ledger. */
  lemma {:induction false} HandlersKeepTheOrder(entries: seq<NamedEntry>, scope: string)
    ensures exists positions: seq<nat> ::
              PickedAt(entries, InScope(scope), Filtered(entries, scope), positions)
  {
    var keep := InScope(scope);
    hide PickedAt, InScope;
    if entries == [] {
      PickedNone(keep);
      assert PickedAt(entries, keep, Filtered(entries, scope), []);
    } else {
      var front := entries[..|entries| - 1];
      HandlersKeepTheOrder(front, scope);
      var positions: seq<nat> :| PickedAt(front, keep, Filtered(front, scope), positions);
      PickedMore(entries, keep, Filtered(front, scope), positions);
      KeepsItsScope(entries[|entries| - 1], scope);
      if entries[|entries| - 1].scope == scope {
        assert PickedAt(entries, keep, Filtered(entries, scope), positions + [|entries| - 1]);
      } else {
        assert Filtered(entries, scope) == Filtered(front, scope);
      }
    }
  }

  lemma PickedNone<T>(keep: T -> bool)
    ensures PickedAt([], keep, [], [])
  {
  }

  lemma KeepsItsScope(e: NamedEntry, scope: string)
    ensures InScope(scope)(e) <==> e.scope == scope
  {
  }

  function ScopesOf(calls: seq<Call>): seq<string> {
    seq(|calls|, i requires 0 <= i < |calls| => calls[i].scope)
  }

  /** The handlers that have entries are called, each with its own, in the order of the registry. */
  lemma {:induction false} HandlersAreCalledInOrder(registry: seq<string>, entries: seq<NamedEntry>)
    ensures var calls := CallsFor(registry, entries);
            && (forall c | c in calls :: c.entries == Filtered(entries, c.scope))
            && exists positions: seq<nat> ::
                 PickedAt(registry, HasEntries(entries), ScopesOf(calls), positions)
  {
    hide Filtered, PickedAt;
    var keep := HasEntries(entries);
    var calls := CallsFor(registry, entries);
    if registry == [] {
      PickedNone(keep);
      assert PickedAt(registry, keep, ScopesOf(calls), []);
    } else {
      var front, scope := registry[..|registry| - 1], registry[|registry| - 1];
      HandlersAreCalledInOrder(front, entries);
      FilteredNone(entries, scope);
      var before := CallsFor(front, entries);
      var positions: seq<nat> :| PickedAt(front, keep, ScopesOf(before), positions);
      PickedMore(registry, keep, ScopesOf(before), positions);
      if keep(scope) {
        assert ScopesOf(calls) == ScopesOf(before) + [scope];
        assert PickedAt(registry, keep, ScopesOf(calls), positions + [|registry| - 1]);
      } else {
        assert calls == before;
        assert PickedAt(registry, keep, ScopesOf(calls), positions);
      }
    }
  }

  lemma {:induction false} FilteredNone(entries: seq<NamedEntry>, scope: string)
    ensures Filtered(entries, scope) == [] <==> !exists e | e in entries :: e.scope == scope
  {
    if entries != [] {
      var front := entries[..|entries| - 1];
      FilteredNone(front, scope);
      assert entries == front + [entries[|entries| - 1]];
    }
  }

  // ---------------------------------------------------------------------------
  // The commands
  // ---------------------------------------------------------------------------

  class Store {
    var db: Database

    constructor (db: Database)
      ensures this.db == db
    {
      this.db := db;
    }

    method Close(account: Uuid, event: nat) returns (error: Option<Error>)
      modifies this
      ensures match CloseGate(old(db), account, event)
              case Ok(after) => error.None? && db == after
              case Err(e) => error == Some(e) && db == old(db)
    {
      var generation, version := 1, 1;
      if db.gate.Some? {
        if db.gate.value.account != account {
          return Some(IdentityConflict);
        }
        generation, version := db.gate.value.generation + 1, db.gate.value.version + 1;
      }
      db := db.(gate := Some(Gate(account, Validating, generation, version, false, false, false, false, event)));
      error := None;
    }

    /** Stage every entry, or, when one is refused, roll the whole transaction back. */
    method StageReplay(mac: Mac, account: Uuid, revisionMatches: bool, entries: seq<Entry>, event: nat)
      returns (error: Option<Error>)
      modifies this
      ensures match Stage(mac, old(db), account, revisionMatches, entries, event)
              case Ok(after) => error.None? && db == after
              case Err(e) => error == Some(e) && db == old(db)
    {
      if !ValidatingFor(db, account) {
        return Some(NotValidating);
      }
      if !revisionMatches {
        return Some(SchemaRevisionInvalid);
      }
      var generation := db.gate.value.generation;
      var working := db;
      for i := 0 to |entries|
        invariant db == old(db)
        invariant StageEntries(mac, db, account, generation, entries[..i], event) == Ok(working)
      {
        assert entries[..i + 1][..i] == entries[..i];
        var out := StageEntry(mac, working, account, generation, entries[i], event);
        if out.Err? {
          StageFails(mac, db, account, generation, entries, event, i + 1, out.error);
          return Some(out.error);
        }
        working := out.value;
      }
      assert entries[..|entries|] == entries;
      db := working;
      error := None;
    }

    /** Check every entry's evidence; the first that lacks it stops the opening. */
    method VerifyScopeEntries(mac: Mac, account: Uuid, entries: seq<Entry>) returns (error: Option<Error>)
      ensures match VerifyEntries(mac, db, account, entries)
              case Ok(_) => error.None?
              case Err(e) => error == Some(e)
    {
      for i := 0 to |entries|
        invariant VerifyEntries(mac, db, account, entries[..i]).Ok?
      {
        assert entries[..i + 1][..i] == entries[..i];
        var out := VerifyEntry(mac, db, account, entries[i]);
        if out.Err? {
          VerifyFails(mac, db, account, entries, i + 1, out.error);
          return Some(out.error);
        }
      }
      assert entries[..|entries|] == entries;
      error := None;
    }

    method Open(mac: Mac, account: Uuid, entries: seq<Entry>, checks: Checks) returns (error: Option<Error>)
      modifies this
      ensures match VerifyAndOpen(mac, old(db), account, entries, checks)
              case Ok(after) => error.None? && db == after
              case Err(e) => error == Some(e) && db == old(db)
    {
      hide ReplayMemory, VerifyEntry, OfScope, StageEntry;
      if !checks.session {
        return Some(SessionInvalid);
      }
      if !ValidatingFor(db, account) {
        return Some(NotValidating);
      }
      if !checks.revisionMatches {
        return Some(SchemaRevisionInvalid);
      }
      error := VerifyScopeEntries(mac, account, OfScope(entries, Account));
      if error.Some? {
        return;
      }
      error := VerifyScopeEntries(mac, account, OfScope(entries, Contact));
      if error.Some? {
        return;
      }
      var memories := OfScope(entries, Memory);
      var replayed := db;
      for i := 0 to |memories|
        invariant db == old(db)
        invariant replayed == ReplayMemories(mac, db, account, memories[..i])
      {
        assert memories[..i + 1][..i] == memories[..i];
        replayed := ReplayMemory(mac, replayed, account, memories[i]);
      }
      assert memories[..|memories|] == memories;
      if !checks.integrity {
        return Some(IntegrityInvalid);
      }
      if exists r | r in replayed.requests ::
           replayed.requests[r].account == account && replayed.requests[r].state != Completed {
        return Some(ErasureIncomplete);
      }
      if !checks.reconciled {
        return Some(ReconciliationRequired);
      }
      if !checks.credentials {
        return Some(CredentialsInvalid);
      }
      db := replayed.(gate := Some(db.gate.value.(
                        state := RestoreGate.Open, replayVerified := true, reconciled := true,
                        credentialsVerified := true, sessionVerified := true, version := db.gate.value.version + 1)));
      error := None;
    }
  }

  lemma {:induction false} StageFails(mac: Mac, db: Database, account: Uuid, generation: nat, entries: seq<Entry>,
                                      event: nat, n: nat, error: Error)
    requires n <= |entries| && StageEntries(mac, db, account, generation, entries[..n], event) == Err(error)
    ensures StageEntries(mac, db, account, generation, entries, event) == Err(error)
    decreases |entries| - n
  {
    if n == |entries| {
      assert entries[..n] == entries;
    } else {
      assert entries[..n + 1][..n] == entries[..n];
      StageFails(mac, db, account, generation, entries, event, n + 1, error);
    }
  }

  lemma {:induction false} VerifyFails(mac: Mac, db: Database, account: Uuid, entries: seq<Entry>, n: nat, error: Error)
    requires n <= |entries| && VerifyEntries(mac, db, account, entries[..n]) == Err(error)
    ensures VerifyEntries(mac, db, account, entries) == Err(error)
    decreases |entries| - n
  {
    if n == |entries| {
      assert entries[..n] == entries;
    } else {
      assert entries[..n + 1][..n] == entries[..n];
      VerifyFails(mac, db, account, entries, n + 1, error);
    }
  }
}
