/** The evidence of a restore run read off its outcomes: each record, each summary, and each stage that is run. */
module EvidenceLaws {
  import opened Basics
  import opened RestoreEvidence

  /** The stages that touch the database are the ones named so. */
  lemma StagesAre()
    ensures |STAGES| == LAST
    ensures STAGES[RESTORES_DATABASE] == "postgres-restored" && STAGES[CLOSES_GATE] == "restore-gate-closed"
    ensures STAGES[OPENS_GATE] == "restore-gate-open"
    ensures forall i, j | 0 <= i < j < |STAGES| :: STAGES[i] != STAGES[j]
  {
  }

  /** How many stages' commands succeed before the first that does not. */
  ghost predicate Through(w: World, n: nat)
    requires Sized(w)
  {
    && n <= 8 && (forall i | 0 <= i < n :: w.commands[i])
    && (n < 8 ==> !w.commands[n])
  }

  lemma ThroughIsLeading(w: World, n: nat)
    requires Sized(w)
    ensures Through(w, n) <==> Leading(w.commands) == n
  {
    hide Leading;
  }

  /** The records carry the run's identity, their number, their time, and the digest of the one before. */
  lemma RecordsFollow(digest: Record -> Digest, id: Identity, w: World, i: nat)
    requires Sized(w) && i < |FullChain(digest, id, w)|
    ensures var all, e := FullChain(digest, id, w), Entries(w)[i];
            && all[i] == Record(id, i, e.stage, e.result, e.code, if i == 0 then Zeros(64) else digest(all[i - 1]),
                                w.times[i])
  {
    hide Leading, Chain, Zeros, Entries;
    var all := FullChain(digest, id, w);
    ChainAt(digest, id, w.times, Entries(w), i);
    assert i > 0 ==> all[..i][|all[..i]| - 1] == all[i - 1];
  }

  /** What each record of a whole run says. */
  lemma RecordsAre(digest: Record -> Digest, id: Identity, w: World, n: nat)
    requires Sized(w) && Through(w, n)
    ensures |Entries(w)| == n + 2
    ensures Entries(w)[0] == Entry("target-verified-new", Pass, "TARGET_NEW")
    ensures forall i | 1 <= i <= n :: Entries(w)[i] == Entry(STAGES[i - 1], Pass, "STAGE_COMPLETE")
    ensures n < 8 ==> Entries(w)[n + 1] == Entry(STAGES[n], Fail, "STAGE_FAILED")
    ensures n == 8 && w.verified ==>
              Entries(w)[n + 1] == Entry("runtime-set-verified", Pass, "ONLY_POSTGRES_REDIS_RUNNING")
    ensures n == 8 && !w.verified ==>
              Entries(w)[n + 1] == Entry("runtime-set-verified", Fail, "RESTORE_RUNTIME_SET_INVALID")
  {
    hide Leading;
    ThroughIsLeading(w, n);
  }

  /** The first record's predecessor is written as 64 zeros. */
  lemma OriginIs()
    ensures |Origin()| == 64 && forall c | c in Origin() :: c == '0'
  {
    ZerosAre(64);
  }

  lemma {:induction false} ZerosAre(n: nat)
    ensures |Zeros(n)| == n && forall c | c in Zeros(n) :: c == '0'
  {
    if n > 0 {
      ZerosAre(n - 1);
    }
  }

  /** Every record is summarised in its place, with the file it is in and the digest of it. */
  lemma SummariesAre(digest: Record -> Digest, records: seq<Record>, i: nat)
    requires i < |records| && forall j | 0 <= j < |records| :: records[j].sequence < 100
    ensures var s, r := Summaries(digest, records)[i], records[i];
            && s.sequence == r.sequence && s.stage == r.stage && s.result == r.result && s.sha256 == digest(r)
            && s.path == FileName(r.sequence, r.stage)
  {
  }

  /** Files of different records have different names, and the names sort by number. */
  lemma FilesAreDistinct(a: nat, b: nat, stage: string, other: string)
    requires a < 100 && b < 100 && FileName(a, stage) == FileName(b, other)
    ensures a == b && stage == other
  {
    var s, t := FileName(a, stage), FileName(b, other);
    assert s[0] == t[0] && s[1] == t[1];
    assert s == s[..2] + "-" + stage + ".json" && t == t[..2] + "-" + other + ".json";
    assert |stage| == |other|;
    assert s[3..3 + |stage|] == stage && t[3..3 + |stage|] == other;
  }

  lemma FileNamesAre(stage: string)
    ensures FileName(3, stage) == "03-" + stage + ".json" && FileName(10, stage) == "10-" + stage + ".json"
  {
    assert (0 as char + '0') == '0' && (3 as char + '0') == '3' && (1 as char + '0') == '1';
  }

  /** A stage is run exactly when all before it succeeded and every record up to it was written. */
  lemma RunsExactly(w: World, i: nat)
    requires Sized(w) && i < 8
    ensures i < Ran(w) <==> (forall j | 0 <= j < i :: w.commands[j]) && (forall j | 0 <= j <= i :: w.recordWrites[j])
  {
    hide Leading;
    LeadingFacts(w);
    if forall j | 0 <= j < i :: w.commands[j] {
      LeadingAtLeast(w.commands, i);
    }
    if forall j | 0 <= j <= i :: w.recordWrites[j] {
      LeadingAtLeast(w.recordWrites, i + 1);
    }
  }

  /** The inventory decides exactly when every stage succeeded and is on record. */
  lemma InventoryFailsExactly(w: World)
    requires Sized(w)
    ensures InventoryFails(w)
            <==> (forall j | 0 <= j < 8 :: w.commands[j]) && (forall j | 0 <= j < 9 :: w.recordWrites[j]) && !w.verified
  {
    hide Leading;
    if forall j | 0 <= j < 8 :: w.commands[j] {
      LeadingAtLeast(w.commands, 8);
    }
    if forall j | 0 <= j < 9 :: w.recordWrites[j] {
      LeadingAtLeast(w.recordWrites, 9);
    }
  }

  /** A run succeeds exactly when everything in it did, down to the checksum of its manifest. */
  lemma SucceedsExactly(w: World)
    requires Sized(w)
    ensures Succeeds(w)
            <==> && (forall j | 0 <= j < 8 :: w.commands[j]) && w.verified
                 && (forall j | 0 <= j < 10 :: w.recordWrites[j]) && w.manifestWrite && w.checksumWrite
  {
    hide Leading;
    if forall j | 0 <= j < 10 :: w.recordWrites[j] {
      LeadingAtLeast(w.recordWrites, 10);
    }
  }

  /**
   The gate of a run that did not fail its inventory: open from the opening stage on, validating
   from the closing one, and as the backup had it before.
   */
  lemma GateAfterExactly(w: World)
    requires Sized(w)
    ensures var took := (i: nat) requires i < 8 => i < Ran(w) && (w.commands[i] || w.effects[i]);
            GateAfter(w) ==
              if InventoryFails(w) && (w.reclosed || w.recloseTook) then Validating
              else if took(7) then Open
              else if took(5) then Validating
              else if took(1) then w.inherited
              else NoDatabase
  {
    hide Leading, Ran, InventoryFails;
    GateAtIs(w, Ran(w));
  }
}
