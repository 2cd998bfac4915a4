/**
 A restore run and the evidence it leaves: one record per stage, each naming the digest of the
 one before, and a manifest with the verdict.  Commands, the clock and every evidence write are
 given by the outside world; a failed write stops the run where it stands.
 */
module RestoreEvidence {
  import opened Basics

  type Digest = string

  datatype Verdict = Pass | Fail

  datatype Identity = Identity(deployment: string, project: string, scope: string)

  datatype Record = Record(identity: Identity, sequence: nat, stage: string, result: Verdict, code: string,
                           previous: Digest, recordedAt: Time)

  datatype Summary = Summary(sequence: nat, stage: string, result: Verdict, path: string, sha256: Digest)

  datatype Manifest = Manifest(identity: Identity, result: Verdict, stageCount: nat, head: Digest,
                               stages: seq<Summary>, recordedAt: Time)

  const STAGES: seq<string> :=
    ["compose-validated", "postgres-restored", "session-restored", "dependencies-ready", "schema-migrated",
     "restore-gate-closed", "erasure-replay-staged", "restore-gate-open"]
  const LAST: nat := 8
  const CLOSES_GATE: nat := 5
  const OPENS_GATE: nat := 7
  const RESTORES_DATABASE: nat := 1

  /** The durable gate of the target; a restored database brings whatever row its backup had, if any. */
  datatype GateState = NoDatabase | NoGate | Closed | Validating | Open

  /**
   What the world does: the outcome of each command, of the final inventory, of closing the
   gate again, of the writes of the ten records, of the manifest and of its checksum.  A
   command that fails, by a timeout for instance, may have taken effect all the same; this
   too is the world's choice, and so is the gate in the backup.
   */
  datatype World = World(commands: seq<bool>, effects: seq<bool>, inherited: GateState, verified: bool, reclosed: bool,
                         recloseTook: bool, recordWrites: seq<bool>, manifestWrite: bool, checksumWrite: bool,
                         times: seq<Time>)

  predicate Sized(w: World) {
    && |w.commands| == LAST && |w.effects| == LAST && |w.recordWrites| == LAST + 2 && |w.times| == LAST + 3
    && !w.inherited.NoDatabase?
  }

  predicate Took(w: World, i: nat)
    requires Sized(w) && i < LAST
  {
    w.commands[i] || w.effects[i]
  }

  /** How many come before the first failure. */
  function Leading(outcomes: seq<bool>): (n: nat)
    ensures n <= |outcomes|
    ensures forall i | 0 <= i < n :: outcomes[i]
    ensures n < |outcomes| ==> !outcomes[n]
  {
    if outcomes == [] || !outcomes[0] then 0 else 1 + Leading(outcomes[1..])
  }

  function Zeros(n: nat): string {
    if n == 0 then "" else "0" + Zeros(n - 1)
  }

  /** What the first record names as its predecessor. */
  function Origin(): Digest {
    Zeros(64)
  }

  function FileName(sequence: nat, stage: string): string
    requires sequence < 100
  {
    [(sequence / 10) as char + '0', (sequence % 10) as char + '0'] + "-" + stage + ".json"
  }

  // ---------------------------------------------------------------------------
  // The records a run is to leave
  // ---------------------------------------------------------------------------

  datatype Entry = Entry(stage: string, result: Verdict, code: string)

  const FIRST: Entry := Entry("target-verified-new", Pass, "TARGET_NEW")

  function StageEntry(i: nat, ok: bool): Entry
    requires i < LAST
  {
    Entry(STAGES[i], if ok then Pass else Fail, if ok then "STAGE_COMPLETE" else "STAGE_FAILED")
  }

  function FinalEntry(verified: bool): Entry {
    Entry("runtime-set-verified", if verified then Pass else Fail,
          if verified then "ONLY_POSTGRES_REDIS_RUNNING" else "RESTORE_RUNTIME_SET_INVALID")
  }

  /** The first entry, one for every stage up to the first failure, and the inventory if none failed. */
  function Entries(w: World): (entries: seq<Entry>)
    requires Sized(w)
    ensures |entries| == Leading(w.commands) + 2
  {
    var n := Leading(w.commands);
    [FIRST]
    + seq(n, i requires 0 <= i < n => StageEntry(i, true))
    + [if n < LAST then StageEntry(n, false) else FinalEntry(w.verified)]
  }

  function PreviousOf(digest: Record -> Digest, front: seq<Record>): Digest {
    if front == [] then Origin() else digest(front[|front| - 1])
  }

  /** The record an entry calls for, after the one before it. */
  function RecordFor(digest: Record -> Digest, id: Identity, time: Time, e: Entry, front: seq<Record>): Record {
    Record(id, |front|, e.stage, e.result, e.code, PreviousOf(digest, front), time)
  }

  function Chain(digest: Record -> Digest, id: Identity, times: seq<Time>, entries: seq<Entry>): (records: seq<Record>)
    requires |entries| <= |times|
    ensures |records| == |entries|
  {
    if entries == [] then []
    else
      var n := |entries| - 1;
      var front := Chain(digest, id, times, entries[..n]);
      front + [RecordFor(digest, id, times[n], entries[n], front)]
  }

  function Summaries(digest: Record -> Digest, records: seq<Record>): (stages: seq<Summary>)
    requires forall i | 0 <= i < |records| :: records[i].sequence < 100
    ensures |stages| == |records|
  {
    seq(|records|, i requires 0 <= i < |records| =>
      Summary(records[i].sequence, records[i].stage, records[i].result, FileName(records[i].sequence, records[i].stage),
              digest(records[i])))
  }

  /** Linked from the beginning: numbered without gaps, each with its predecessor's digest. */
  ghost predicate Linked(digest: Record -> Digest, records: seq<Record>) {
    forall i | 0 <= i < |records| ::
      records[i].sequence == i && records[i].previous == PreviousOf(digest, records[..i])
  }

  lemma {:induction false} ChainAt(
      digest: Record -> Digest, id: Identity, times: seq<Time>, entries: seq<Entry>, i: nat)
    requires |entries| <= |times| && i < |entries|
    ensures var records := Chain(digest, id, times, entries);
            records[i] == RecordFor(digest, id, times[i], entries[i], records[..i])
  {
    hide Origin;
    var n := |entries| - 1;
    var front, records := Chain(digest, id, times, entries[..n]), Chain(digest, id, times, entries);
    assert records[..n] == front;
    if i < n {
      ChainAt(digest, id, times, entries[..n], i);
      assert records[..i] == front[..i];
      assert records[i] == front[i] && entries[..n][i] == entries[i];
    } else {
      assert records[..i] == front;
      assert records[i] == RecordFor(digest, id, times[n], entries[n], front);
    }
  }

  lemma ChainIsLinked(digest: Record -> Digest, id: Identity, times: seq<Time>, entries: seq<Entry>)
    requires |entries| <= |times|
    ensures Linked(digest, Chain(digest, id, times, entries))
  {
    hide Origin, Chain;
    var records := Chain(digest, id, times, entries);
    forall i | 0 <= i < |records|
      ensures records[i].sequence == i && records[i].previous == PreviousOf(digest, records[..i])
    {
      ChainAt(digest, id, times, entries, i);
    }
  }

  ghost predicate Injective(digest: Record -> Digest) {
    forall a, b | digest(a) == digest(b) :: a == b
  }

  /** With an injective digest, whoever holds the head of a linked chain holds the whole of it. */
  lemma {:induction false} HeadDeterminesChain(digest: Record -> Digest, a: seq<Record>, b: seq<Record>)
    requires Injective(digest) && Linked(digest, a) && Linked(digest, b) && a != [] && b != []
    requires digest(a[|a| - 1]) == digest(b[|b| - 1])
    ensures a == b
    decreases |a|
  {
    hide Linked, PreviousOf;
    var n, m := |a| - 1, |b| - 1;
    assert a[n] == b[m];
    LinkedAt(digest, a, n);
    LinkedAt(digest, b, m);
    if n > 0 {
      PreviousIsHead(digest, a[..n]);
      PreviousIsHead(digest, b[..n]);
      LinkedPrefix(digest, a, n);
      LinkedPrefix(digest, b, n);
      HeadDeterminesChain(digest, a[..n], b[..n]);
    }
    assert a == a[..n] + [a[n]] && b == b[..n] + [b[n]];
  }

  lemma LinkedAt(digest: Record -> Digest, a: seq<Record>, i: nat)
    requires Linked(digest, a) && i < |a|
    ensures a[i].sequence == i && a[i].previous == PreviousOf(digest, a[..i])
  {
  }

  lemma PreviousIsHead(digest: Record -> Digest, front: seq<Record>)
    requires front != []
    ensures PreviousOf(digest, front) == digest(front[|front| - 1])
  {
  }

  lemma LinkedPrefix(digest: Record -> Digest, a: seq<Record>, n: nat)
    requires Linked(digest, a) && n <= |a|
    ensures Linked(digest, a[..n])
  {
    hide Origin;
    forall i | 0 <= i < n
      ensures a[..n][i].sequence == i && a[..n][i].previous == PreviousOf(digest, a[..n][..i])
    {
      assert a[..n][..i] == a[..i];
      assert a[..n][i] == a[i] && a[i].sequence == i;
    }
  }

  // ---------------------------------------------------------------------------
  // The verdict
  // ---------------------------------------------------------------------------

  predicate AllPassed(w: World) {
    (forall i | 0 <= i < |w.commands| :: w.commands[i]) && w.verified
  }

  function FullChain(digest: Record -> Digest, id: Identity, w: World): (records: seq<Record>)
    requires Sized(w)
    ensures |records| == Leading(w.commands) + 2
  {
    Chain(digest, id, w.times, Entries(w))
  }

  /**
   The records tell the outcome: a gapless chain in which all pass exactly when everything
   did, and otherwise only the last fails.
   */
  lemma ChainTellsTheOutcome(digest: Record -> Digest, id: Identity, w: World)
    requires Sized(w)
    ensures var all := FullChain(digest, id, w);
            && Linked(digest, all)
            && (forall i | 0 <= i < |all| - 1 :: all[i].result == Pass)
            && (all[|all| - 1].result == Pass <==> AllPassed(w))
            && (AllPassed(w) ==> |all| == LAST + 2)
  {
    hide Leading, Chain, Linked;
    var entries := Entries(w);
    ChainIsLinked(digest, id, w.times, entries);
    LeadingFacts(w);
    forall i | 0 <= i < |entries|
      ensures FullChain(digest, id, w)[i].result == entries[i].result
    {
      ChainAt(digest, id, w.times, entries, i);
    }
  }

  /** What a stage that was run does to the gate. */
  function GateEffect(w: World, i: nat, gate: GateState): GateState
    requires Sized(w) && i < LAST
  {
    if !Took(w, i) then gate
    else if i == RESTORES_DATABASE then w.inherited
    else if i == CLOSES_GATE then Validating
    else if i == OPENS_GATE then Open
    else gate
  }

  /** The gate after the first k stages. */
  function GateAt(w: World, k: nat): GateState
    requires Sized(w) && k <= LAST
  {
    if k == 0 then NoDatabase else GateEffect(w, k - 1, GateAt(w, k - 1))
  }

  function Least3(a: nat, b: nat, c: nat): nat {
    if a <= b && a <= c then a else if b <= c then b else c
  }

  /** How many stages are run: up to the first failure of a command or of a record. */
  function Ran(w: World): (ran: nat)
    requires Sized(w)
    ensures ran <= LAST
  {
    Least3(Leading(w.recordWrites), Leading(w.commands) + 1, LAST)
  }

  /** The inventory fails only when it is taken, after all stages and their records. */
  predicate InventoryFails(w: World)
    requires Sized(w)
  {
    Leading(w.commands) == LAST && Leading(w.recordWrites) > LAST && !w.verified
  }

  /** The gate when the run is over. */
  function GateAfter(w: World): GateState
    requires Sized(w)
  {
    if InventoryFails(w) && (w.reclosed || w.recloseTook) then Validating else GateAt(w, Ran(w))
  }

  predicate Succeeds(w: World)
    requires Sized(w)
  {
    AllPassed(w) && Leading(w.recordWrites) == LAST + 2 && w.manifestWrite && w.checksumWrite
  }

  lemma {:induction false} GateAtIs(w: World, k: nat)
    requires Sized(w) && k <= LAST
    ensures GateAt(w, k) ==
            if k > OPENS_GATE && Took(w, OPENS_GATE) then Open
            else if k > CLOSES_GATE && Took(w, CLOSES_GATE) then Validating
            else if k > RESTORES_DATABASE && Took(w, RESTORES_DATABASE) then w.inherited
            else NoDatabase
  {
    if k > 0 {
      GateAtIs(w, k - 1);
    }
  }

  /**
   The comment beside the final inventory promises that a failed restore leaves no usable
   database behind.  A failed run leaves the gate open exactly in two cases: it restored a
   backup whose gate was open and ended before closing it took effect, or opening took effect
   and no closing after it did.
   */
  lemma FailedRunLeavesGateOpenExactly(w: World)
    requires Sized(w) && !Succeeds(w)
    ensures GateAfter(w) == Open <==>
              || (Ran(w) > RESTORES_DATABASE && Took(w, RESTORES_DATABASE) && w.inherited == Open
                  && !(Ran(w) > CLOSES_GATE && Took(w, CLOSES_GATE)))
              || (Ran(w) == LAST && Took(w, OPENS_GATE)
                  && !(InventoryFails(w) && (w.reclosed || w.recloseTook)))
  {
    hide Leading;
    GateAtIs(w, Ran(w));
    LeadingFacts(w);
  }

  /** A migration that fails over a backup taken in service leaves the restored database open. */
  lemma EarlyFailureKeepsTheBackupsGate()
    ensures exists w: World ::
              && Sized(w) && !w.commands[4] && Leading(w.commands) == 4 && Leading(w.recordWrites) == LAST + 2
              && !Succeeds(w) && GateAfter(w) == Open
  {
    var w := World([true, true, true, true, false, false, false, false], seq(LAST, _ => false), Open, true, true, true,
                   seq(LAST + 2, _ => true), true, true, seq(LAST + 3, _ => 0));
    LeadingIs(w.commands, 4);
    LeadingIs(w.recordWrites, LAST + 2);
    GateAtIs(w, Ran(w));
    assert GateAfter(w) == Open;
  }

  // ---------------------------------------------------------------------------
  // The run
  // ---------------------------------------------------------------------------

  class Restore {
    var records: seq<Record>
    var manifest: Option<Manifest>
    var checksum: bool
    var ran: seq<nat>
    var gate: GateState

    constructor ()
      ensures Untried()
    {
      records, manifest, checksum, ran, gate := [], None, false, [], NoDatabase;
    }

    predicate Untried()
      reads this
    {
      records == [] && manifest == None && !checksum && ran == [] && gate == NoDatabase
    }

    /** Before stage i: all earlier stages passed and all records so far are written. */
    ghost predicate Reached(digest: Record -> Digest, id: Identity, w: World, i: nat)
      requires Sized(w) && i <= LAST
      reads this
    {
      && manifest == None && !checksum
      && Leading(w.commands) >= i && Leading(w.recordWrites) >= i + 1
      && records == FullChain(digest, id, w)[..i + 1]
      && |ran| == i && (forall j | 0 <= j < i :: ran[j] == j)
      && gate == GateAt(w, i)
    }

    /** What a run is to leave, however it ended. */
    ghost predicate Left(digest: Record -> Digest, id: Identity, w: World, ok: bool)
      requires Sized(w)
      reads this
    {
      var all, written := FullChain(digest, id, w), Leading(w.recordWrites);
      && records == all[..if written < |all| then written else |all|]
      && (forall i | 0 <= i < |records| :: records[i].sequence < 100)
      && manifest == (if written >= |all| && w.manifestWrite
                      then Some(Manifest(id, if AllPassed(w) then Pass else Fail, |records|,
                                         digest(records[|records| - 1]), Summaries(digest, records),
                                         w.times[LAST + 2]))
                      else None)
      && (checksum <==> manifest.Some? && w.checksumWrite)
      && |ran| == Ran(w)
      && (forall i | 0 <= i < |ran| :: ran[i] == i)
      && (ok <==> Succeeds(w))
      && gate == GateAfter(w)
    }

    /** `_write_stage`: the next record, naming the digest of the last, unless the write fails. */
    method WriteStage(digest: Record -> Digest, id: Identity, e: Entry, now: Time, written: bool)
      modifies this`records
      ensures records == old(records) + if written then [RecordFor(digest, id, now, e, old(records))] else []
    {
      if written {
        var previous := PreviousOf(digest, records);
        records := records + [Record(id, |records|, e.stage, e.result, e.code, previous, now)];
      }
    }

    /** `_write_final_manifest` over the records so far. */
    method WriteManifest(digest: Record -> Digest, id: Identity, result: Verdict, w: World)
      requires Sized(w) && records != []
      requires forall i | 0 <= i < |records| :: records[i].sequence < 100
      modifies this`manifest, this`checksum
      ensures manifest == if w.manifestWrite
                          then Some(Manifest(id, result, |records|, digest(records[|records| - 1]),
                                             Summaries(digest, records), w.times[LAST + 2]))
                          else old(manifest)
      ensures checksum == (old(checksum) || (w.manifestWrite && w.checksumWrite))
    {
      if w.manifestWrite {
        manifest := Some(Manifest(id, result, |records|, digest(records[|records| - 1]), Summaries(digest, records),
                                  w.times[LAST + 2]));
        if w.checksumWrite {
          checksum := true;
        }
      }
    }

    method Begin(digest: Record -> Digest, id: Identity, w: World) returns (continues: bool)
      requires Sized(w) && Untried()
      modifies this
      ensures if continues then Reached(digest, id, w, 0) else Left(digest, id, w, false)
    {
      hide Origin, Leading, Summaries, Entries, StageEntry, FinalEntry;
      EntryAt(w, 0);
      Numbered(digest, id, w);
      NextRecord(digest, id, w, 0);
      WriteStage(digest, id, FIRST, w.times[0], w.recordWrites[0]);
      continues := w.recordWrites[0];
      if continues {
        LeadingAtLeast(w.recordWrites, 1);
      } else {
        LeadingIs(w.recordWrites, 0);
      }
    }

    /** One turn of the stage loop; anything but success ends the run. */
    method Stage(digest: Record -> Digest, id: Identity, w: World, i: nat) returns (continues: bool)
      requires Sized(w) && i < LAST && Reached(digest, id, w, i)
      modifies this
      ensures if continues then Reached(digest, id, w, i + 1) else Left(digest, id, w, false)
    {
      hide Origin, Leading, Summaries, Entries, StageEntry, FinalEntry, FullChain, RecordFor, FileName;
      LeadingFacts(w);
      Numbered(digest, id, w);
      EntryAt(w, i + 1);
      NextRecord(digest, id, w, i + 1);
      ran := ran + [i];
      gate := GateEffect(w, i, gate);
      WriteStage(digest, id, StageEntry(i, w.commands[i]), w.times[i + 1], w.recordWrites[i + 1]);
      if !w.recordWrites[i + 1] {
        return false;
      }
      if !w.commands[i] {
        WriteManifest(digest, id, Fail, w);
        return false;
      }
      continues := true;
    }

    /** The inventory after the last stage, and the verdict. */
    method End(digest: Record -> Digest, id: Identity, w: World) returns (ok: bool)
      requires Sized(w) && Reached(digest, id, w, LAST)
      modifies this
      ensures Left(digest, id, w, ok)
    {
      hide Origin, Leading, Summaries, Entries, StageEntry, FinalEntry, FullChain, RecordFor, FileName;
      LeadingFacts(w);
      Numbered(digest, id, w);
      EntryAt(w, LAST + 1);
      NextRecord(digest, id, w, LAST + 1);
      if !w.verified && (w.reclosed || w.recloseTook) {
        gate := Validating;
      }
      WriteStage(digest, id, FinalEntry(w.verified), w.times[LAST + 1], w.recordWrites[LAST + 1]);
      if !w.recordWrites[LAST + 1] {
        return false;
      }
      WriteManifest(digest, id, if w.verified then Pass else Fail, w);
      ok := w.verified && checksum;
    }

    /**
     `run_restore`, from the reserved evidence directory on.  The records are always a prefix
     of the chain that fits the outcomes, and all of it unless a write failed; a manifest
     exists only over the whole chain and its verdict is that of the run; no stage runs after
     a failure.
     */
    method Run(digest: Record -> Digest, id: Identity, w: World) returns (ok: bool)
      requires Sized(w) && Untried()
      modifies this
      ensures Left(digest, id, w, ok)
    {
      hide Reached, Left, Untried;
      var continues := Begin(digest, id, w);
      if !continues {
        return false;
      }
      for i := 0 to LAST
        invariant Reached(digest, id, w, i)
      {
        continues := Stage(digest, id, w, i);
        if !continues {
          return false;
        }
      }
      ok := End(digest, id, w);
    }
  }

  lemma LeadingAtLeast(outcomes: seq<bool>, k: nat)
    requires k <= |outcomes| && forall i | 0 <= i < k :: outcomes[i]
    ensures Leading(outcomes) >= k
  {
  }

  lemma LeadingIs(outcomes: seq<bool>, k: nat)
    requires k <= |outcomes| && forall i | 0 <= i < k :: outcomes[i]
    requires k < |outcomes| ==> !outcomes[k]
    ensures Leading(outcomes) == k
  {
  }

  /** A count is passed exactly by success. */
  lemma LeadingFacts(w: World)
    requires Sized(w)
    ensures forall i | 0 <= i < |w.commands| && i <= Leading(w.commands) :: w.commands[i] <==> Leading(w.commands) > i
    ensures forall i | 0 <= i < |w.recordWrites| && i <= Leading(w.recordWrites) ::
              w.recordWrites[i] <==> Leading(w.recordWrites) > i
    ensures AllPassed(w) <==> Leading(w.commands) == LAST && w.verified
  {
    hide Leading;
  }

  /** Stage i writes entry i + 1. */
  lemma EntryAt(w: World, i: nat)
    requires Sized(w) && i <= Leading(w.commands) + 1
    ensures Entries(w)[i] == if i == 0 then FIRST else if i <= LAST then StageEntry(i - 1, w.commands[i - 1])
                             else FinalEntry(w.verified)
  {
    hide Leading, StageEntry, FinalEntry;
    LeadingFacts(w);
  }

  lemma NextRecord(digest: Record -> Digest, id: Identity, w: World, i: nat)
    requires Sized(w) && i <= Leading(w.commands) + 1
    ensures var all := FullChain(digest, id, w);
            all[i] == RecordFor(digest, id, w.times[i], Entries(w)[i], all[..i]) && all[..i + 1] == all[..i] + [all[i]]
  {
    hide Leading, RecordFor, Chain;
    ChainAt(digest, id, w.times, Entries(w), i);
  }

  lemma Numbered(digest: Record -> Digest, id: Identity, w: World)
    requires Sized(w)
    ensures forall r | r in FullChain(digest, id, w) :: r.sequence < 100
  {
    hide Leading, Origin, Chain;
    ChainIsLinked(digest, id, w.times, Entries(w));
  }
}
