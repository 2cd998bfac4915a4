/**
 The ledger over time: the exported file, the replica repository, and the comparisons that
 keep an entry from being lost or changed between one copy and the next.
 */
module LedgerHistory {
  import opened Basics
  import opened RestoreGate
  import opened Ledger

  const CLOCK_SLACK: Time := 60_000_000

  /** Entries by the text of their request, as the dictionaries of both comparisons are keyed. */
  function Id(f: Fields): Json {
    if "request_id" in f then f["request_id"] else Other("")
  }

  function ById(entries: seq<Fields>): map<Json, Fields> {
    if entries == [] then map[]
    else
      var last := entries[|entries| - 1];
      ById(entries[..|entries| - 1])[Id(last) := last]
  }

  /** Every earlier entry is still there, unchanged. */
  predicate Extends(current: seq<Fields>, previous: seq<Fields>) {
    forall e | e in previous :: Id(e) in ById(current) && ById(current)[Id(e)] == e
  }

  // ---------------------------------------------------------------------------
  // Reading a copy
  // ---------------------------------------------------------------------------

  function FirstLine(text: string): string {
    if text == "" || text[0] == '\n' || text[0] == '\r' then "" else [text[0]] + FirstLine(text[1..])
  }

  /** The export time in the first line of a file. */
  function ExportTime(x: Syntax, raw: Bytes): Option<Moment> {
    match x.utf8(raw)
    case None => None
    case Some(text) =>
      match x.parse(FirstLine(text))
      case Some(Object(h)) =>
        if "exported_at" in h && h["exported_at"].Text? then x.parseDate(h["exported_at"].text) else None
      case _ => None
  }

  function LoadOwn(x: Syntax, id: Identity, raw: Bytes): Result<Loaded, LedgerError> {
    Load(x, id, raw, Digest(x, raw), SCOPES)
  }

  function EntriesOf(x: Syntax, id: Identity, raw: Bytes): seq<Fields> {
    if LoadOwn(x, id, raw).Ok? then LoadOwn(x, id, raw).value.entries else []
  }

  datatype Copy = Copy(exportedAt: Time, entries: seq<Fields>)

  /** `_document` of the replica command. */
  function ReadCopy(x: Syntax, id: Identity, raw: Bytes, now: Time): Option<Copy> {
    if LoadOwn(x, id, raw).Err? then None
    else
      match ExportTime(x, raw)
      case None => None
      case Some(m) =>
        if !m.aware || m.time > now + CLOCK_SLACK then None else Some(Copy(m.time, EntriesOf(x, id, raw)))
  }

  // ---------------------------------------------------------------------------
  // Steps
  // ---------------------------------------------------------------------------

  datatype State = State(file: Option<Bytes>, replicas: seq<Bytes>)

  datatype Failure = NotExported | HistoryRegressed | TooLarge | Unreadable | NotStored

  /**
   `export_ledger` over the rows the database returned.  `stored` says whether the atomic
   replacement took place; an error reported after it leaves the new file.
   */
  function Export(x: Syntax, id: Identity, s: State, snapshot: string, now: Time, rows: seq<Row>, stored: bool)
    : Result<State, Failure>
  {
    match Document(x, id, snapshot, Moment(true, now), rows)
    case Err(_) => Err(NotExported)
    case Ok(text) =>
      if !Ascii(text) then Err(NotExported)
      else if s.file.Some? && LoadOwn(x, id, s.file.value).Err? then Err(Unreadable)
      else if s.file.Some? && !Extends(EntryRecords(x, rows), EntriesOf(x, id, s.file.value)) then Err(HistoryRegressed)
      else if |text| > MAX_BYTES then Err(TooLarge)
      else if !stored then Err(NotStored)
      else Ok(s.(file := Some(AsBytes(text))))
  }

  /** The rest of `backup`: the file as it now is against the latest copy in the repository. */
  function Replicate(x: Syntax, id: Identity, s: State, now: Time, uploaded: bool): Result<State, Failure> {
    if s.file.None? then Err(Unreadable)
    else
      match ReadCopy(x, id, s.file.value, now)
      case None => Err(Unreadable)
      case Some(copy) =>
        var previous := if s.replicas == [] then Some(Copy(copy.exportedAt, []))
                        else ReadCopy(x, id, s.replicas[|s.replicas| - 1], now);
        match previous
        case None => Err(Unreadable)
        case Some(before) =>
          if !Extends(copy.entries, before.entries) || copy.exportedAt < before.exportedAt then Err(HistoryRegressed)
          else if !uploaded then Err(NotStored)
          else Ok(s.(replicas := s.replicas + [s.file.value]))
  }

  /** `recover`: only into an absent file, and only bytes whose digest the operator expects. */
  function Recover(x: Syntax, id: Identity, s: State, raw: Bytes, digest: string, now: Time): Result<State, Failure> {
    if s.file.Some? then Err(NotStored)
    else if Digest(x, raw) != digest || ReadCopy(x, id, raw, now).None? then Err(Unreadable)
    else Ok(s.(file := Some(raw)))
  }

  /** Exports, uploads, and anything at all happening to the local file. */
  datatype Step =
    | ExportStep(snapshot: string, now: Time, rows: seq<Row>, stored: bool)
    | ReplicateStep(now: Time, uploaded: bool)
    | LocalChange(file: Option<Bytes>)

  /** A failed command changes neither the file nor the repository. */
  function Apply(x: Syntax, id: Identity, s: State, step: Step): State {
    match step
    case ExportStep(snapshot, now, rows, stored) =>
      var r := Export(x, id, s, snapshot, now, rows, stored);
      if r.Ok? then r.value else s
    case ReplicateStep(now, uploaded) =>
      var r := Replicate(x, id, s, now, uploaded);
      if r.Ok? then r.value else s
    case LocalChange(file) => s.(file := file)
  }

  function Run(x: Syntax, id: Identity, s: State, steps: seq<Step>): State {
    if steps == [] then s else Apply(x, id, Run(x, id, s, steps[..|steps| - 1]), steps[|steps| - 1])
  }

  // ---------------------------------------------------------------------------
  // Growing only
  // ---------------------------------------------------------------------------

  lemma {:induction false} ByIdValues(entries: seq<Fields>)
    ensures forall k | k in ById(entries) :: ById(entries)[k] in entries && Id(ById(entries)[k]) == k
  {
    if entries != [] {
      ByIdValues(entries[..|entries| - 1]);
    }
  }

  lemma {:induction false} ByIdFinds(x: Syntax, entries: seq<Fields>)
    requires Distinct(x, entries) && forall e | e in entries :: RequestOf(x, e).Some?
    ensures forall e | e in entries :: Id(e) in ById(entries) && ById(entries)[Id(e)] == e
  {
    hide RequestOf, KeyOf;
    if entries != [] {
      var front, last := entries[..|entries| - 1], entries[|entries| - 1];
      ByIdFinds(x, front);
      forall e | e in entries
        ensures Id(e) in ById(entries) && ById(entries)[Id(e)] == e
      {
        var i :| 0 <= i < |entries| && entries[i] == e;
        if i < |entries| - 1 {
          assert e == front[i] && e in front;
          assert RequestOf(x, entries[i]) != RequestOf(x, entries[|entries| - 1]);
          SameIdSameRequest(x, e, last);
        }
      }
    }
  }

  lemma SameIdSameRequest(x: Syntax, a: Fields, b: Fields)
    ensures RequestOf(x, a).Some? && RequestOf(x, b).Some? && Id(a) == Id(b) ==> RequestOf(x, a) == RequestOf(x, b)
  {
  }

  /** The comparison of dictionaries is inclusion, and it is transitive. */
  lemma ExtendsIsTransitive(c: seq<Fields>, b: seq<Fields>, a: seq<Fields>)
    requires Extends(c, b) && Extends(b, a)
    ensures Extends(c, a)
  {
    hide ById;
    ByIdValues(b);
  }

  lemma ExtendsNothing(entries: seq<Fields>)
    ensures Extends(entries, [])
  {
  }

  lemma AcceptedHasRequest(x: Syntax, entries: seq<Fields>)
    requires forall e | e in entries :: WellFormed(x, SCOPES, Object(e))
    ensures forall e | e in entries :: RequestOf(x, e).Some?
  {
    forall e | e in entries
      ensures RequestOf(x, e).Some?
    {
      assert WellFormed(x, SCOPES, Object(e));
    }
  }

  lemma ExtendsItself(x: Syntax, id: Identity, raw: Bytes)
    ensures Extends(EntriesOf(x, id, raw), EntriesOf(x, id, raw))
  {
    hide Load, ById, Distinct, WellFormed;
    if LoadOwn(x, id, raw).Ok? {
      var l := LoadOwn(x, id, raw).value;
      LoadedIsSound(x, id, raw, Digest(x, raw), SCOPES, l);
      AcceptedHasRequest(x, l.entries);
      ByIdFinds(x, l.entries);
    }
  }

  /** All copies can be read; each extends every earlier one and was not exported before it. */
  ghost predicate History(x: Syntax, id: Identity, replicas: seq<Bytes>) {
    && (forall i | 0 <= i < |replicas| :: LoadOwn(x, id, replicas[i]).Ok? && ExportTime(x, replicas[i]).Some?)
    && (forall i, j | 0 <= i <= j < |replicas| ::
          && Extends(EntriesOf(x, id, replicas[j]), EntriesOf(x, id, replicas[i]))
          && ExportTime(x, replicas[i]).value.time <= ExportTime(x, replicas[j]).value.time)
  }

  lemma ReplicateKeepsHistory(x: Syntax, id: Identity, s: State, now: Time, uploaded: bool)
    requires History(x, id, s.replicas) && Replicate(x, id, s, now, uploaded).Ok?
    ensures History(x, id, Replicate(x, id, s, now, uploaded).value.replicas)
  {
    hide LoadOwn, EntriesOf, ExportTime, Extends;
    var raw := s.file.value;
    var all := s.replicas + [raw];
    var n := |s.replicas|;
    ExtendsItself(x, id, raw);
    assert forall i | 0 <= i < n :: all[i] == s.replicas[i];
    forall i | 0 <= i < n
      ensures Extends(EntriesOf(x, id, raw), EntriesOf(x, id, all[i]))
      ensures ExportTime(x, all[i]).value.time <= ExportTime(x, raw).value.time
    {
      ExtendsIsTransitive(EntriesOf(x, id, raw), EntriesOf(x, id, s.replicas[n - 1]), EntriesOf(x, id, s.replicas[i]));
    }
  }

  /**
   Whatever is exported, whatever fails and whatever happens to the local file, the repository
   stays a growing history, and it is never cut short.
   */
  lemma {:induction false} HistoryOnlyGrows(x: Syntax, id: Identity, s: State, steps: seq<Step>)
    requires History(x, id, s.replicas)
    ensures var after := Run(x, id, s, steps);
            History(x, id, after.replicas) && s.replicas <= after.replicas
  {
    hide History, LoadOwn, EntriesOf, ReadCopy, Extends, Document;
    if steps != [] {
      var front, last := steps[..|steps| - 1], steps[|steps| - 1];
      HistoryOnlyGrows(x, id, s, front);
      var before := Run(x, id, s, front);
      if last.ReplicateStep? && Replicate(x, id, before, last.now, last.uploaded).Ok? {
        ReplicateKeepsHistory(x, id, before, last.now, last.uploaded);
      }
    }
  }

  /** An entry once replicated is in the latest copy after any run, found under its request, unchanged. */
  lemma PublishedEntriesStay(x: Syntax, id: Identity, s: State, steps: seq<Step>, i: nat, e: Fields)
    requires History(x, id, s.replicas) && i < |s.replicas| && e in EntriesOf(x, id, s.replicas[i])
    ensures var after := Run(x, id, s, steps).replicas;
            && |after| > 0
            && var latest := EntriesOf(x, id, after[|after| - 1]);
               Id(e) in ById(latest) && ById(latest)[Id(e)] == e
  {
    hide EntriesOf, LoadOwn, ById, Run;
    HistoryOnlyGrows(x, id, s, steps);
    var after := Run(x, id, s, steps).replicas;
    assert after[i] == s.replicas[i];
    assert Extends(EntriesOf(x, id, after[|after| - 1]), EntriesOf(x, id, after[i]));
  }

  predicate FileUntouched(steps: seq<Step>) {
    forall i | 0 <= i < |steps| :: !steps[i].LocalChange?
  }

  lemma ExportedFileReads(x: Syntax, id: Identity, s: State, snapshot: string, now: Time, rows: seq<Row>, stored: bool)
    requires Faithful(x) && Export(x, id, s, snapshot, now, rows, stored).Ok?
    ensures var after := Export(x, id, s, snapshot, now, rows, stored).value;
            && after.file.Some? && LoadOwn(x, id, after.file.value).Ok?
            && EntriesOf(x, id, after.file.value) == EntryRecords(x, rows)
            && (s.file.Some? ==> Extends(EntryRecords(x, rows), EntriesOf(x, id, s.file.value)))
  {
    hide Faithful, Document, Load, Extends, EntryRecords, Ascii, AsBytes;
    var text := Document(x, id, snapshot, Moment(true, now), rows).value;
    PrintThenLoad(x, id, snapshot, Moment(true, now), rows, text);
  }

  /** The exported file, while nobody else touches it, stays readable and only gains entries. */
  lemma {:induction false} FileOnlyGrows(x: Syntax, id: Identity, s: State, steps: seq<Step>)
    requires Faithful(x) && FileUntouched(steps)
    requires s.file.Some? && LoadOwn(x, id, s.file.value).Ok?
    ensures var after := Run(x, id, s, steps);
            && after.file.Some? && LoadOwn(x, id, after.file.value).Ok?
            && Extends(EntriesOf(x, id, after.file.value), EntriesOf(x, id, s.file.value))
  {
    hide Faithful, LoadOwn, EntriesOf, ReadCopy, Extends, Document, Export;
    if steps == [] {
      ExtendsItself(x, id, s.file.value);
    } else {
      var front, last := steps[..|steps| - 1], steps[|steps| - 1];
      FileOnlyGrows(x, id, s, front);
      var before := Run(x, id, s, front);
      assert !last.LocalChange?;
      if last.ExportStep? && Export(x, id, before, last.snapshot, last.now, last.rows, last.stored).Ok? {
        ExportedFileReads(x, id, before, last.snapshot, last.now, last.rows, last.stored);
        ExtendsIsTransitive(EntriesOf(x, id, Run(x, id, s, steps).file.value), EntriesOf(x, id, before.file.value),
                            EntriesOf(x, id, s.file.value));
      }
    }
  }

  // ---------------------------------------------------------------------------
  // What one backup does
  // ---------------------------------------------------------------------------

  lemma {:induction false} FirstLineOfJoined(first: string, rest: string)
    requires forall i | 0 <= i < |first| :: !EndsLine(first[i])
    ensures FirstLine(first + "\n" + rest) == first
  {
    var text := first + "\n" + rest;
    if first == "" {
      assert text[0] == '\n';
    } else {
      assert !EndsLine(first[0]);
      assert text[1..] == first[1..] + "\n" + rest;
      FirstLineOfJoined(first[1..], rest);
    }
  }

  lemma JoinedSplits(lines: seq<string>)
    requires lines != []
    ensures Joined(lines) == lines[0] + "\n" + Joined(lines[1..])
  {
  }

  lemma TimeInHeader(x: Syntax, id: Identity, snapshot: string, exportedAt: Moment)
    ensures var h := HeaderFields(x, id, snapshot, exportedAt);
            Printable(h) && "exported_at" in h && h["exported_at"] == Text(x.showDate(exportedAt))
  {
  }

  lemma PrintedTimeReads(x: Syntax, id: Identity, snapshot: string, now: Time, rows: seq<Row>, text: string)
    requires Faithful(x) && Document(x, id, snapshot, Moment(true, now), rows) == Ok(text)
    requires Ascii(text)
    ensures ExportTime(x, AsBytes(text)) == Some(Moment(true, now))
  {
    hide Ascii, AsBytes, FirstLine, RowValid, RowsDistinct, Name, Joined, EntryFields, HeaderFields;
    var header := HeaderFields(x, id, snapshot, Moment(true, now));
    var lines := PrintedLines(x, Records(x, id, snapshot, Moment(true, now), rows));
    TimeInHeader(x, id, snapshot, Moment(true, now));
    assert lines[0] == x.show(header);
    JoinedSplits(lines);
    FirstLineOfJoined(lines[0], Joined(lines[1..]));
    assert x.parse(FirstLine(text)) == Some(Object(header));
  }

  /** A fresh export is replicated exactly when it leaves out nothing of the latest copy and is no older. */
  lemma FreshExportReplicatesExactly(x: Syntax, id: Identity, s: State, snapshot: string, now: Time, rows: seq<Row>,
                                     uploaded: bool)
    requires Faithful(x) && Export(x, id, s, snapshot, now, rows, true).Ok?
    ensures var exported := Export(x, id, s, snapshot, now, rows, true).value;
            Replicate(x, id, exported, now, uploaded).Ok? <==>
              && uploaded
              && (s.replicas != [] ==>
                    var latest := ReadCopy(x, id, s.replicas[|s.replicas| - 1], now);
                    && latest.Some? && latest.value.exportedAt <= now
                    && Extends(EntryRecords(x, rows), latest.value.entries))
  {
    hide Faithful, Document, Load, Extends, EntryRecords, Ascii, AsBytes, ExportTime;
    ExportedFileReads(x, id, s, snapshot, now, rows, true);
    PrintedTimeReads(x, id, snapshot, now, rows, Document(x, id, snapshot, Moment(true, now), rows).value);
    ExtendsNothing(EntryRecords(x, rows));
  }

  /** Recovery under a receipt's digest restores exactly the copy the receipt was issued for. */
  lemma RecoveredIsTheCopy(x: Syntax, id: Identity, s: State, raw: Bytes, copy: Bytes, now: Time)
    requires NoCollision(x, raw) && Recover(x, id, s, raw, Digest(x, copy), now).Ok?
    ensures var after := Recover(x, id, s, raw, Digest(x, copy), now).value;
            && s.file.None? && after.file == Some(copy) && after.replicas == s.replicas
            && LoadOwn(x, id, copy).Ok?
  {
    var l := LoadOwn(x, id, raw).value;
    LoadedIsSound(x, id, raw, Digest(x, raw), SCOPES, l);
  }

  datatype Receipt = Receipt(digest: string, exportedAt: Time)

  /** Where a backup stopped, if it did; `readBack` is what the repository returned for the new copy. */
  datatype Outcome = Outcome(stored: bool, uploaded: bool, readBack: Option<Bytes>, receiptStored: bool,
                             markerStored: bool)

  class ReplicaHost {
    var state: State
    var receipt: Option<Receipt>
    var marker: Option<Time>

    constructor (replicas: seq<Bytes>)
      ensures state == State(None, replicas) && receipt == None && marker == None
    {
      state, receipt, marker := State(None, replicas), None, None;
    }

    /**
     `backup`, one command after the other.  Success means the copy is the latest in the
     repository and the receipt and freshness marker describe it; the marker never describes
     a copy that was not read back.
     */
    method Backup(x: Syntax, id: Identity, snapshot: string, now: Time, rows: seq<Row>, o: Outcome)
      returns (ok: bool)
      modifies this
      ensures var exported := Export(x, id, old(state), snapshot, now, rows, o.stored);
              && (exported.Err? ==> !ok && state == old(state))
              && (exported.Ok? ==>
                    var uploaded := Replicate(x, id, exported.value, now, o.uploaded);
                    && (uploaded.Err? ==> !ok && state == exported.value)
                    && (uploaded.Ok? ==>
                          && state == uploaded.value
                          && (ok <==> o.readBack == state.file && o.receiptStored && o.markerStored)))
      ensures marker != old(marker) || ok ==>
                && old(state).replicas < state.replicas && state.file.Some? && o.readBack == state.file
                && state.file == Some(state.replicas[|state.replicas| - 1])
                && ReadCopy(x, id, state.file.value, now).Some?
                && marker == Some(ReadCopy(x, id, state.file.value, now).value.exportedAt)
                && receipt == Some(Receipt(Digest(x, state.file.value), marker.value))
    {
      hide Load, Document, Extends, ExportTime, EntriesOf;
      var exported := Export(x, id, state, snapshot, now, rows, o.stored);
      if exported.Err? {
        return false;
      }
      state := exported.value;
      var uploaded := Replicate(x, id, state, now, o.uploaded);
      if uploaded.Err? {
        return false;
      }
      state := uploaded.value;
      var raw := state.file.value;
      if o.readBack != Some(raw) {
        return false;
      }
      var exportedAt := ReadCopy(x, id, raw, now).value.exportedAt;
      if !o.receiptStored {
        return false;
      }
      receipt := Some(Receipt(Digest(x, raw), exportedAt));
      if !o.markerStored {
        return false;
      }
      marker := Some(exportedAt);
      ok := true;
    }
  }
}
