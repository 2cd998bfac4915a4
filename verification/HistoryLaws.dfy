/**
 The commands over the ledger written out: when each succeeds, what it leaves, and which failure
 comes first.
 */
module HistoryLaws {
  import opened Basics
  import opened RestoreGate
  import opened Ledger
  import opened LedgerHistory

  // ---------------------------------------------------------------------------
  // Comparing copies
  // ---------------------------------------------------------------------------

  /** Over a readable file the comparison by request is inclusion: no earlier entry is missing or changed. */
  lemma ExtendsFileExactly(x: Syntax, id: Identity, raw: Bytes, previous: seq<Fields>)
    requires LoadOwn(x, id, raw).Ok?
    ensures Extends(EntriesOf(x, id, raw), previous)
            <==> forall e | e in previous :: e in LoadOwn(x, id, raw).value.entries
  {
    hide Load, ById, Distinct, WellFormed;
    var l := LoadOwn(x, id, raw).value;
    LoadedIsSound(x, id, raw, Digest(x, raw), SCOPES, l);
    AcceptedHasRequest(x, l.entries);
    ByIdFinds(x, l.entries);
    ByIdValues(l.entries);
  }

  /** The same over the entries about to be printed. */
  lemma ExtendsRowsExactly(x: Syntax, id: Identity, snapshot: string, exportedAt: Moment, rows: seq<Row>,
                           previous: seq<Fields>)
    requires Faithful(x) && Document(x, id, snapshot, exportedAt, rows).Ok?
    ensures Extends(EntryRecords(x, rows), previous)
            <==> forall e | e in previous :: exists row :: row in rows && e == EntryFields(x, row)
  {
    hide ById, Faithful, EntryFields, RequestOf, KeyOf, RowValid, RowsDistinct, Joined, PrintedLines, Distinct;
    var entries := EntryRecords(x, rows);
    assert RowsDistinct(rows) && forall i | 0 <= i < |rows| :: RowValid(x, id, rows[i]);
    forall e | e in entries ensures RequestOf(x, e).Some? {
      var i :| 0 <= i < |entries| && entries[i] == e;
      RowPrintsWell(x, id, rows[i]);
    }
    RowsPrintDistinct(x, id, rows, entries);
    ByIdFinds(x, entries);
    ByIdValues(entries);
    forall e ensures e in entries <==> exists row :: row in rows && e == EntryFields(x, row) {
      if e in entries {
        var i :| 0 <= i < |entries| && entries[i] == e;
        assert rows[i] in rows;
      }
      if exists row :: row in rows && e == EntryFields(x, row) {
        var row :| row in rows && e == EntryFields(x, row);
        var i :| 0 <= i < |rows| && rows[i] == row;
        assert entries[i] == e;
      }
    }
  }

  // ---------------------------------------------------------------------------
  // Export
  // ---------------------------------------------------------------------------

  /** The file is absent, or readable with each of its entries still among the rows. */
  ghost predicate NothingLost(x: Syntax, id: Identity, file: Option<Bytes>, rows: seq<Row>) {
    file.Some? ==>
      && LoadOwn(x, id, file.value).Ok?
      && forall e | e in LoadOwn(x, id, file.value).value.entries ::
           exists row :: row in rows && e == EntryFields(x, row)
  }

  /**
   An export takes place exactly when the rows can be printed, lose nothing of the file that is
   there, fit into 16 MiB, and are stored; it leaves the printed bytes and touches no replica.
   */
  lemma ExportsExactly(x: Syntax, id: Identity, s: State, snapshot: string, now: Time, rows: seq<Row>, stored: bool,
                       after: State)
    requires Faithful(x)
    ensures var document := Document(x, id, snapshot, Moment(true, now), rows);
            Export(x, id, s, snapshot, now, rows, stored) == Ok(after) <==>
              && document.Ok? && Ascii(document.value) && NothingLost(x, id, s.file, rows)
              && |document.value| <= 16_777_216 && stored
              && after == State(Some(AsBytes(document.value)), s.replicas)
  {
    hide Faithful, Document, LoadOwn, Extends, EntryRecords, Ascii, AsBytes, EntryFields;
    if Document(x, id, snapshot, Moment(true, now), rows).Ok? && s.file.Some? && LoadOwn(x, id, s.file.value).Ok? {
      ExtendsRowsExactly(x, id, snapshot, Moment(true, now), rows, EntriesOf(x, id, s.file.value));
    }
  }

  /** Which failure is reported: that of the first step that fails. */
  lemma ExportFailsExactly(x: Syntax, id: Identity, s: State, snapshot: string, now: Time, rows: seq<Row>,
                           stored: bool)
    requires Faithful(x)
    ensures var document := Document(x, id, snapshot, Moment(true, now), rows);
            var r := Export(x, id, s, snapshot, now, rows, stored);
            && (r == Err(NotExported) <==> document.Err? || !Ascii(document.value))
            && (document.Ok? && Ascii(document.value) ==>
                  && (r == Err(Unreadable) <==> s.file.Some? && LoadOwn(x, id, s.file.value).Err?)
                  && (r == Err(HistoryRegressed) <==>
                        s.file.Some? && LoadOwn(x, id, s.file.value).Ok? && !NothingLost(x, id, s.file, rows))
                  && (r == Err(TooLarge) <==>
                        NothingLost(x, id, s.file, rows) && |document.value| > 16_777_216)
                  && (r == Err(NotStored) <==>
                        NothingLost(x, id, s.file, rows) && |document.value| <= 16_777_216 && !stored))
  {
    hide Faithful, Document, LoadOwn, Extends, EntryRecords, Ascii, AsBytes, EntryFields;
    if Document(x, id, snapshot, Moment(true, now), rows).Ok? && s.file.Some? && LoadOwn(x, id, s.file.value).Ok? {
      ExtendsRowsExactly(x, id, snapshot, Moment(true, now), rows, EntriesOf(x, id, s.file.value));
    }
  }

  // ---------------------------------------------------------------------------
  // Replication
  // ---------------------------------------------------------------------------

  /** A copy is usable when it can be read and was exported at a zoned time at most a minute ahead. */
  lemma ReadsExactly(x: Syntax, id: Identity, raw: Bytes, now: Time, copy: Copy)
    ensures ReadCopy(x, id, raw, now) == Some(copy) <==>
              && LoadOwn(x, id, raw).Ok? && LoadOwn(x, id, raw).value.entries == copy.entries
              && ExportTime(x, raw) == Some(Moment(true, copy.exportedAt))
              && copy.exportedAt <= now + 60_000_000
  {
    hide LoadOwn, ExportTime;
  }

  /** The export time is that of the header in the first line, whatever follows. */
  lemma ExportTimeIs(x: Syntax, raw: Bytes, first: string, rest: string, end: char)
    requires end == '\n' || end == '\r'
    requires forall i | 0 <= i < |first| :: first[i] != '\n' && first[i] != '\r'
    requires x.utf8(raw) == Some(first + [end] + rest)
    ensures ExportTime(x, raw).Some? <==>
              && x.parse(first).Some? && x.parse(first).value.Object?
              && var h := x.parse(first).value.fields;
                 "exported_at" in h && h["exported_at"].Text? && x.parseDate(h["exported_at"].text).Some?
    ensures ExportTime(x, raw).Some? ==>
              ExportTime(x, raw) == x.parseDate(x.parse(first).value.fields["exported_at"].text)
  {
    FirstLineIs(first, end, rest);
  }

  lemma {:induction false} FirstLineIs(first: string, end: char, rest: string)
    requires end == '\n' || end == '\r'
    requires forall i | 0 <= i < |first| :: first[i] != '\n' && first[i] != '\r'
    ensures FirstLine(first + [end] + rest) == first
  {
    var text := first + [end] + rest;
    if first == "" {
      assert text[0] == end;
    } else {
      assert text[1..] == first[1..] + [end] + rest;
      FirstLineIs(first[1..], end, rest);
    }
  }

  /** The latest replica, if any, is usable, no newer than the copy, and all its entries are in the copy. */
  ghost predicate Follows(x: Syntax, id: Identity, replicas: seq<Bytes>, copy: Copy, now: Time) {
    replicas != [] ==>
      var latest := ReadCopy(x, id, replicas[|replicas| - 1], now);
      && latest.Some? && latest.value.exportedAt <= copy.exportedAt
      && forall e | e in latest.value.entries :: e in copy.entries
  }

  /** Replication adds the file as it is behind the replicas, and only when it follows the latest of them. */
  lemma ReplicatesExactly(x: Syntax, id: Identity, s: State, now: Time, uploaded: bool, after: State)
    ensures Replicate(x, id, s, now, uploaded) == Ok(after) <==>
              && s.file.Some? && ReadCopy(x, id, s.file.value, now).Some?
              && Follows(x, id, s.replicas, ReadCopy(x, id, s.file.value, now).value, now)
              && uploaded && after == State(s.file, s.replicas + [s.file.value])
  {
    hide LoadOwn, ExportTime, Extends;
    Comparison(x, id, s, now);
  }

  /** The entries of a usable file are compared as sets. */
  lemma Comparison(x: Syntax, id: Identity, s: State, now: Time)
    ensures s.file.Some? && ReadCopy(x, id, s.file.value, now).Some? ==>
              var copy := ReadCopy(x, id, s.file.value, now).value;
              && Extends(copy.entries, [])
              && (s.replicas != [] && ReadCopy(x, id, s.replicas[|s.replicas| - 1], now).Some? ==>
                    var before := ReadCopy(x, id, s.replicas[|s.replicas| - 1], now).value;
                    Extends(copy.entries, before.entries) <==> forall e | e in before.entries :: e in copy.entries)
  {
    hide LoadOwn, ExportTime, Extends;
    if s.file.Some? && ReadCopy(x, id, s.file.value, now).Some? {
      var copy := ReadCopy(x, id, s.file.value, now).value;
      ExtendsNothing(copy.entries);
      if s.replicas != [] && ReadCopy(x, id, s.replicas[|s.replicas| - 1], now).Some? {
        ExtendsFileExactly(x, id, s.file.value, ReadCopy(x, id, s.replicas[|s.replicas| - 1], now).value.entries);
      }
    }
  }

  /** A copy that cannot be used is told from one that loses something or is older, and that from a failed upload. */
  lemma ReplicationFailsExactly(x: Syntax, id: Identity, s: State, now: Time, uploaded: bool)
    ensures var r := Replicate(x, id, s, now, uploaded);
            var usable := s.file.Some? && ReadCopy(x, id, s.file.value, now).Some?
                          && (s.replicas != [] ==> ReadCopy(x, id, s.replicas[|s.replicas| - 1], now).Some?);
            && (r == Err(Unreadable) <==> !usable)
            && (usable ==>
                  var follows := Follows(x, id, s.replicas, ReadCopy(x, id, s.file.value, now).value, now);
                  && (r == Err(HistoryRegressed) <==> !follows)
                  && (r == Err(NotStored) <==> follows && !uploaded))
  {
    hide LoadOwn, ExportTime, Extends;
    Comparison(x, id, s, now);
  }

  /** Recovery writes the fetched bytes exactly when no file stands, their digest is expected and they can be used. */
  lemma RecoversExactly(x: Syntax, id: Identity, s: State, raw: Bytes, digest: string, now: Time, after: State)
    ensures Recover(x, id, s, raw, digest, now) == Ok(after) <==>
              && s.file.None? && Digest(x, raw) == digest && ReadCopy(x, id, raw, now).Some?
              && after == State(Some(raw), s.replicas)
  {
    hide LoadOwn, ExportTime;
  }

  // ---------------------------------------------------------------------------
  // Runs
  // ---------------------------------------------------------------------------

  /** In a run each command works on what those before it left, and takes effect just when it succeeds. */
  lemma RunsGoOn(x: Syntax, id: Identity, s: State, steps: seq<Step>, step: Step)
    ensures Run(x, id, s, []) == s
    ensures var before, after := Run(x, id, s, steps), Run(x, id, s, steps + [step]);
            && (step.ExportStep? ==>
                  var r := Export(x, id, before, step.snapshot, step.now, step.rows, step.stored);
                  after == if r.Ok? then r.value else before)
            && (step.ReplicateStep? ==>
                  var r := Replicate(x, id, before, step.now, step.uploaded);
                  after == if r.Ok? then r.value else before)
            && (step.LocalChange? ==> after == State(step.file, before.replicas))
  {
    hide Export, Replicate;
    var all := steps + [step];
    assert all[..|all| - 1] == steps;
  }
}
