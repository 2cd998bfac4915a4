/**
 The erasure ledger on disk: one header and one line per completed erasure.  Printing and
 loading are given twice, as the loops that build the lists and as functions that say what
 those loops compute, so that the round trip can be stated.

 The syntax of one JSON line, of dates and of a number in base 16, and the two hash functions,
 belong to the language; they are fields of `Syntax`, and `Faithful` says what is assumed of them.
 */
module Ledger {
  import opened Basics
  import opened RestoreGate
  import ArtifactNames
  import Hex

  // ---------------------------------------------------------------------------
  // Lines and values
  // ---------------------------------------------------------------------------

  /** A JSON value; `Other` is anything but a string or an integer, known by its `str()`. */
  datatype Json = Text(text: string) | Number(number: int) | Other(shown: string)

  type Fields = map<string, Json>

  datatype Record = Object(fields: Fields) | NotObject

  datatype Moment = Moment(aware: bool, time: Time)

  datatype Syntax = Syntax(
    utf8: Bytes -> Option<string>,
    parse: string -> Option<Record>,
    show: Fields -> string,
    parseDate: string -> Option<Moment>,
    showDate: Moment -> string,
    base16: string -> Option<int>,
    sha256: Bytes -> Bytes,
    hmac: (Bytes, Uuid) -> Bytes)

  predicate Ascii(s: string) {
    forall i | 0 <= i < |s| :: 0 < s[i] as int < 128
  }

  function AsBytes(s: string): (bytes: Bytes)
    requires Ascii(s)
    ensures |bytes| == |s|
  {
    seq(|s|, i requires 0 <= i < |s| => s[i] as int)
  }

  /** Characters at which `splitlines` ends a line. */
  predicate EndsLine(c: char) {
    || '\n' <= c <= '\r' || '\U{1c}' <= c <= '\U{1e}'
    || c == '\U{85}' || c == '\U{2028}' || c == '\U{2029}'
  }

  predicate OneLine(s: string) {
    s != "" && Ascii(s) && forall i | 0 <= i < |s| :: !EndsLine(s[i])
  }

  /** Text and small numbers are what the ledger writes. */
  predicate Printable(f: Fields) {
    forall k | k in f :: f[k].Text? || (f[k].Number? && 0 <= f[k].number < 0x8000_0000)
  }

  ghost predicate Faithful(x: Syntax) {
    && (forall f | Printable(f) :: OneLine(x.show(f)) && x.parse(x.show(f)) == Some(Object(f)))
    && (forall s | Ascii(s) :: x.utf8(AsBytes(s)) == Some(s))
    && (forall m: Moment | m.aware :: x.parseDate(x.showDate(m)) == Some(m))
    && Hex.ReadsPlainHex(x.base16)
    && (forall b :: |x.sha256(b)| == 32)
    && (forall b, n :: |x.hmac(b, n)| == 32)
  }

  /** `str(value)` */
  function Str(j: Json): string {
    match j
    case Text(s) => s
    case Number(n) => if n < 0 then "-" + ArtifactNames.Decimal(-n) else ArtifactNames.Decimal(n)
    case Other(s) => s
  }

  function FirstEnd(s: string): (k: nat)
    ensures k <= |s| && (k < |s| ==> EndsLine(s[k])) && forall i | 0 <= i < k :: !EndsLine(s[i])
  {
    if s == "" || EndsLine(s[0]) then 0 else 1 + FirstEnd(s[1..])
  }

  /** The lines of a text that are not empty. */
  function Lines(s: string): seq<string>
    decreases |s|
  {
    if s == "" then []
    else
      var k := FirstEnd(s);
      (if k == 0 then [] else [s[..k]]) + if k < |s| then Lines(s[k + 1..]) else []
  }

  function Joined(lines: seq<string>): string {
    if lines == [] then "" else lines[0] + "\n" + Joined(lines[1..])
  }

  lemma {:induction false} JoinedIsAscii(lines: seq<string>)
    requires forall l | l in lines :: OneLine(l)
    ensures Ascii(Joined(lines)) && (lines != [] ==> Joined(lines) != "")
  {
    if lines != [] {
      JoinedIsAscii(lines[1..]);
      assert OneLine(lines[0]);
    }
  }

  lemma {:induction false} LinesOfJoined(lines: seq<string>)
    requires forall l | l in lines :: OneLine(l)
    ensures Lines(Joined(lines)) == lines
  {
    if lines != [] {
      var text, first, rest := Joined(lines), lines[0], Joined(lines[1..]);
      assert OneLine(first);
      assert text == first + ("\n" + rest);
      assert text[|first|] == '\n';
      FirstEndIs(text, |first|);
      assert text[..|first|] == first && text[|first| + 1..] == rest;
      LinesOfJoined(lines[1..]);
    }
  }

  lemma FirstEndIs(s: string, k: nat)
    requires k < |s| && EndsLine(s[k]) && forall i | 0 <= i < k :: !EndsLine(s[i])
    ensures FirstEnd(s) == k
  {
  }

  // ---------------------------------------------------------------------------
  // The contract of version 1
  // ---------------------------------------------------------------------------

  const MAX_BYTES: nat := 16 * 1024 * 1024
  const MAX_ENTRIES: nat := 100_000
  const MAX_POLICY: nat := 0x7fff_ffff

  const HEADER_FIELDS: set<string> :=
    {"kind", "schema_version", "deployment_id", "account_scope_hmac", "snapshot_id", "exported_at"}
  const ENTRY_FIELDS: set<string> :=
    {"kind", "request_id", "scope_type", "target_scope_hmac", "request_idempotency_key", "policy_version",
     "completed_at"}
  const SCOPES: set<string> := {"memory", "contact", "account"}

  datatype LedgerError =
    | ExportIdInvalid | ExportSecretInvalid | ExportAccountInvalid | ExportRowInvalid
    | DigestInvalid | FileInvalid | DigestMismatch | FormatInvalid | InventoryInvalid
    | HeaderInvalid | VersionUnsupported | EntryInvalid | ScopeUnsupported

  datatype Identity = Identity(deployment: string, account: Uuid, secret: Bytes)

  predicate Lower(c: char) {
    'a' <= c <= 'z'
  }

  /** `^[a-z][a-z0-9-]{2,62}$` */
  predicate Name(s: string) {
    3 <= |s| <= 63 && Lower(s[0]) && forall i | 1 <= i < |s| :: Lower(s[i]) || '0' <= s[i] <= '9' || s[i] == '-'
  }

  /** `^[0-9a-f]{64}$` */
  predicate Hex32(j: Json) {
    j.Text? && |j.text| == 64 && Hex.IsHex(j.text)
  }

  // ---------------------------------------------------------------------------
  // Printing
  // ---------------------------------------------------------------------------

  /** A joined row of the ledger and its request. */
  datatype Row = Row(accountHmac: Bytes, scope: string, target: Bytes, request: Uuid, key: Bytes, policy: int,
                     completedAt: Moment)

  function HeaderFields(x: Syntax, id: Identity, snapshot: string, exportedAt: Moment): Fields {
    map["account_scope_hmac" := Text(Hex.Encode(x.hmac(id.secret, id.account))),
        "deployment_id" := Text(id.deployment),
        "exported_at" := Text(x.showDate(exportedAt)),
        "kind" := Text("header"),
        "schema_version" := Number(1),
        "snapshot_id" := Text(snapshot)]
  }

  function EntryFields(x: Syntax, row: Row): Fields {
    map["completed_at" := Text(x.showDate(row.completedAt)),
        "kind" := Text("erasure"),
        "policy_version" := Number(row.policy),
        "request_id" := Text(Hex.Canonical(row.request)),
        "request_idempotency_key" := Text(Hex.Encode(row.key)),
        "scope_type" := Text(row.scope),
        "target_scope_hmac" := Text(Hex.Encode(row.target))]
  }

  predicate RowValid(x: Syntax, id: Identity, row: Row) {
    && |row.accountHmac| == 32 && |row.target| == 32 && |row.key| == 32
    && row.request < Hex.UUID_LIMIT
    && row.scope in SCOPES
    && 1 <= row.policy <= MAX_POLICY
    && row.completedAt.aware
    && row.accountHmac == x.hmac(id.secret, id.account)
  }

  predicate RowsDistinct(rows: seq<Row>) {
    forall i, j | 0 <= i < j < |rows| :: rows[i].request != rows[j].request && rows[i].key != rows[j].key
  }

  function Records(x: Syntax, id: Identity, snapshot: string, exportedAt: Moment, rows: seq<Row>): (r: seq<Fields>)
    ensures |r| == |rows| + 1
  {
    [HeaderFields(x, id, snapshot, exportedAt)]
    + seq(|rows|, i requires 0 <= i < |rows| => EntryFields(x, rows[i]))
  }

  function PrintedLines(x: Syntax, records: seq<Fields>): (lines: seq<string>)
    ensures |lines| == |records|
  {
    seq(|records|, i requires 0 <= i < |records| => x.show(records[i]))
  }

  /** What `_ledger_document` returns, as text of ASCII characters. */
  function Document(x: Syntax, id: Identity, snapshot: string, exportedAt: Moment, rows: seq<Row>)
    : Result<string, LedgerError>
  {
    if !Name(id.deployment) || !Name(snapshot) then Err(ExportIdInvalid)
    else if |id.secret| < 32 then Err(ExportSecretInvalid)
    else if id.account == 0 then Err(ExportAccountInvalid)
    else if |rows| > MAX_ENTRIES then Err(InventoryInvalid)
    else if (exists i | 0 <= i < |rows| :: !RowValid(x, id, rows[i])) || !RowsDistinct(rows) then Err(ExportRowInvalid)
    else Ok(Joined(PrintedLines(x, Records(x, id, snapshot, exportedAt, rows))))
  }

  /** `_ledger_document`: one pass with the requests and keys seen so far. */
  method LedgerDocument(x: Syntax, id: Identity, snapshot: string, exportedAt: Moment, rows: seq<Row>)
    returns (document: Result<string, LedgerError>)
    ensures document == Document(x, id, snapshot, exportedAt, rows)
  {
    if !Name(id.deployment) || !Name(snapshot) {
      return Err(ExportIdInvalid);
    }
    if |id.secret| < 32 {
      return Err(ExportSecretInvalid);
    }
    if id.account == 0 {
      return Err(ExportAccountInvalid);
    }
    if |rows| > MAX_ENTRIES {
      return Err(InventoryInvalid);
    }
    var records := [HeaderFields(x, id, snapshot, exportedAt)];
    var seenRequests: set<Uuid>, seenKeys: set<Bytes> := {}, {};
    hide Records, RowsDistinct, Requests, Keys, RowValid, EntryFields, PrintedLines, Joined;
    NoRows(x, id, snapshot, exportedAt);
    for i := 0 to |rows|
      invariant records == Records(x, id, snapshot, exportedAt, rows[..i])
      invariant forall j | 0 <= j < i :: RowValid(x, id, rows[j])
      invariant RowsDistinct(rows[..i])
      invariant seenRequests == Requests(rows[..i]) && seenKeys == Keys(rows[..i])
    {
      var row := rows[i];
      assert rows[..i + 1] == rows[..i] + [row];
      OneMoreRow(x, id, snapshot, exportedAt, rows[..i], row);
      if !RowValid(x, id, row) || row.request in seenRequests || row.key in seenKeys {
        PrefixDistinct(rows, i + 1);
        return Err(ExportRowInvalid);
      }
      seenRequests := seenRequests + {row.request};
      seenKeys := seenKeys + {row.key};
      records := records + [EntryFields(x, row)];
    }
    assert rows[..|rows|] == rows;
    document := Ok(Joined(PrintedLines(x, records)));
  }

  function Requests(rows: seq<Row>): set<Uuid> {
    set row | row in rows :: row.request
  }

  function Keys(rows: seq<Row>): set<Bytes> {
    set row | row in rows :: row.key
  }

  lemma NoRows(x: Syntax, id: Identity, snapshot: string, exportedAt: Moment)
    ensures Records(x, id, snapshot, exportedAt, []) == [HeaderFields(x, id, snapshot, exportedAt)]
    ensures RowsDistinct([]) && Requests([]) == {} && Keys([]) == {}
  {
  }

  lemma OneMoreRow(x: Syntax, id: Identity, snapshot: string, exportedAt: Moment, front: seq<Row>, row: Row)
    ensures Records(x, id, snapshot, exportedAt, front + [row])
            == Records(x, id, snapshot, exportedAt, front) + [EntryFields(x, row)]
    ensures RowsDistinct(front + [row])
            <==> RowsDistinct(front) && row.request !in Requests(front) && row.key !in Keys(front)
    ensures Requests(front + [row]) == Requests(front) + {row.request}
    ensures Keys(front + [row]) == Keys(front) + {row.key}
  {
    hide HeaderFields, EntryFields;
    var rows := front + [row];
    assert forall i | 0 <= i < |front| :: rows[i] == front[i];
    assert rows[|front|] == row;
    if RowsDistinct(rows) {
      assert forall i | 0 <= i < |front| ::
          rows[i].request != rows[|front|].request && rows[i].key != rows[|front|].key;
    }
    assert forall r | r in rows :: r in front || r == row;
    assert forall r | r in front :: r in rows;
  }

  lemma PrefixDistinct(rows: seq<Row>, n: nat)
    requires n <= |rows|
    ensures RowsDistinct(rows) ==> RowsDistinct(rows[..n])
  {
  }

  // ---------------------------------------------------------------------------
  // Loading
  // ---------------------------------------------------------------------------

  function Digest(x: Syntax, raw: Bytes): string {
    Hex.Encode(x.sha256(raw))
  }

  predicate HeaderMatches(x: Syntax, id: Identity, h: Fields)
    requires h.Keys == HEADER_FIELDS
  {
    && h["kind"] == Text("header")
    && h["schema_version"] == Number(1)
    && h["deployment_id"] == Text(id.deployment)
    && h["account_scope_hmac"] == Text(Hex.Encode(x.hmac(id.secret, id.account)))
    && h["snapshot_id"].Text? && Name(h["snapshot_id"].text)
    && h["exported_at"].Text?
  }

  function RequestOf(x: Syntax, f: Fields): Option<Uuid> {
    if "request_id" in f then Hex.Parse(x.base16, Str(f["request_id"])) else None
  }

  function KeyOf(f: Fields): Option<string> {
    if "request_idempotency_key" in f && f["request_idempotency_key"].Text? then Some(f["request_idempotency_key"].text)
    else None
  }

  function CompletedAt(x: Syntax, f: Fields): Option<Moment> {
    if "completed_at" in f then x.parseDate(Str(f["completed_at"])) else None
  }

  predicate ScopeSupported(f: Fields, supported: set<string>) {
    "scope_type" in f && f["scope_type"].Text? && f["scope_type"].text in supported
  }

  predicate ValuesValid(f: Fields)
    requires f.Keys == ENTRY_FIELDS
  {
    && f["kind"] == Text("erasure")
    && Hex32(f["target_scope_hmac"])
    && Hex32(f["request_idempotency_key"])
    && f["policy_version"].Number? && 1 <= f["policy_version"].number <= MAX_POLICY
  }

  /** Why a record is refused, given the requests and keys before it; `None` when it is accepted. */
  function EntryFault(x: Syntax, supported: set<string>, requests: set<Option<Uuid>>, keys: set<Option<string>>,
                      record: Record): Option<LedgerError>
  {
    if !record.Object? || record.fields.Keys != ENTRY_FIELDS then Some(EntryInvalid)
    else
      var f := record.fields;
      if RequestOf(x, f).None? || CompletedAt(x, f).None? then Some(EntryInvalid)
      else if !ScopeSupported(f, supported) then Some(ScopeUnsupported)
      else if !ValuesValid(f) || !CompletedAt(x, f).value.aware || RequestOf(x, f) in requests || KeyOf(f) in keys then
        Some(EntryInvalid)
      else None
  }

  function RequestsIn(x: Syntax, entries: seq<Fields>): set<Option<Uuid>> {
    set f | f in entries :: RequestOf(x, f)
  }

  function KeysIn(entries: seq<Fields>): set<Option<string>> {
    set f | f in entries :: KeyOf(f)
  }

  /** The entries accepted in order, or the fault of the first record refused. */
  function Entries(x: Syntax, supported: set<string>, records: seq<Record>): Result<seq<Fields>, LedgerError> {
    if records == [] then Ok([])
    else
      match Entries(x, supported, records[..|records| - 1])
      case Err(error) => Err(error)
      case Ok(front) =>
        match EntryFault(x, supported, RequestsIn(x, front), KeysIn(front), records[|records| - 1])
        case Some(error) => Err(error)
        case None => Ok(front + [records[|records| - 1].fields])
  }

  function ParsedLines(x: Syntax, lines: seq<string>): (records: Option<seq<Record>>)
    ensures records.Some? ==> |records.value| == |lines|
  {
    if exists i | 0 <= i < |lines| :: x.parse(lines[i]).None? then None
    else Some(seq(|lines|, i requires 0 <= i < |lines| && x.parse(lines[i]).Some? => x.parse(lines[i]).value))
  }

  /** The checks before the entries: file, digest, format, inventory and header. */
  function Opened(x: Syntax, id: Identity, raw: Bytes, digest: string): (r: Result<seq<Record>, LedgerError>)
    ensures r.Ok? ==> |r.value| >= 1 && r.value[0].Object? && r.value[0].fields.Keys == HEADER_FIELDS
    ensures r.Ok? ==> HeaderMatches(x, id, r.value[0].fields)
  {
    if !Hex32(Text(digest)) then Err(DigestInvalid)
    else if !(1 <= |raw| <= MAX_BYTES) || 0 in raw then Err(FileInvalid)
    else if Digest(x, raw) != digest then Err(DigestMismatch)
    else
      match x.utf8(raw)
      case None => Err(FormatInvalid)
      case Some(text) =>
        match ParsedLines(x, Lines(text))
        case None => Err(FormatInvalid)
        case Some(records) =>
          if !(1 <= |records| <= MAX_ENTRIES + 1) then Err(InventoryInvalid)
          else if !records[0].Object? then Err(HeaderInvalid)
          else
            var h := records[0].fields;
            if !("schema_version" in h && h["schema_version"].Number?) then Err(HeaderInvalid)
            else if h["schema_version"].number != 1 then Err(VersionUnsupported)
            else if h.Keys != HEADER_FIELDS || !HeaderMatches(x, id, h) then Err(HeaderInvalid)
            else Ok(records)
  }

  datatype Loaded = Loaded(snapshot: string, entries: seq<Fields>)

  /** What `_load_ledger` returns. */
  function Load(x: Syntax, id: Identity, raw: Bytes, digest: string, supported: set<string>)
    : Result<Loaded, LedgerError>
  {
    match Opened(x, id, raw, digest)
    case Err(error) => Err(error)
    case Ok(records) =>
      match Entries(x, supported, records[1..])
      case Err(error) => Err(error)
      case Ok(entries) => Ok(Loaded(records[0].fields["snapshot_id"].text, entries))
  }

  /** The loop of `_load_ledger`: records are checked one by one against the requests and keys seen. */
  method CheckEntries(x: Syntax, supported: set<string>, records: seq<Record>)
    returns (checked: Result<seq<Fields>, LedgerError>)
    ensures checked == Entries(x, supported, records)
  {
    hide EntryFault, RequestsIn, KeysIn, RequestOf, KeyOf;
    var entries := [];
    var seenRequests: set<Option<Uuid>>, seenKeys: set<Option<string>> := {}, {};
    NoEntries(x);
    for i := 0 to |records|
      invariant Entries(x, supported, records[..i]) == Ok(entries)
      invariant seenRequests == RequestsIn(x, entries) && seenKeys == KeysIn(entries)
    {
      assert records[..i + 1][..i] == records[..i];
      var fault := EntryFault(x, supported, seenRequests, seenKeys, records[i]);
      if fault.Some? {
        FaultEndsLoading(x, supported, records, i + 1);
        return Err(fault.value);
      }
      FaultlessIsObject(x, supported, seenRequests, seenKeys, records[i]);
      var f := records[i].fields;
      OneMoreEntry(x, entries, f);
      seenRequests := seenRequests + {RequestOf(x, f)};
      seenKeys := seenKeys + {KeyOf(f)};
      entries := entries + [f];
    }
    assert records[..|records|] == records;
    checked := Ok(entries);
  }

  lemma FaultlessIsObject(x: Syntax, supported: set<string>, requests: set<Option<Uuid>>, keys: set<Option<string>>,
                          record: Record)
    ensures EntryFault(x, supported, requests, keys, record).None? ==> record.Object?
  {
  }

  lemma NoEntries(x: Syntax)
    ensures RequestsIn(x, []) == {} && KeysIn([]) == {}
  {
  }

  lemma OneMoreEntry(x: Syntax, front: seq<Fields>, f: Fields)
    ensures RequestsIn(x, front + [f]) == RequestsIn(x, front) + {RequestOf(x, f)}
    ensures KeysIn(front + [f]) == KeysIn(front) + {KeyOf(f)}
  {
    assert forall g | g in front + [f] :: g in front || g == f;
    assert forall g | g in front :: g in front + [f];
    assert f in front + [f];
  }

  lemma {:induction false} FaultEndsLoading(x: Syntax, supported: set<string>, records: seq<Record>, n: nat)
    requires n <= |records| && Entries(x, supported, records[..n]).Err?
    ensures Entries(x, supported, records) == Entries(x, supported, records[..n])
    decreases |records|
  {
    if n == |records| {
      assert records[..n] == records;
    } else {
      var front := records[..|records| - 1];
      assert front[..n] == records[..n];
      FaultEndsLoading(x, supported, front, n);
    }
  }

  // ---------------------------------------------------------------------------
  // What an accepted ledger is
  // ---------------------------------------------------------------------------

  /** A record acceptable on its own. */
  predicate WellFormed(x: Syntax, supported: set<string>, record: Record) {
    && record.Object? && record.fields.Keys == ENTRY_FIELDS
    && RequestOf(x, record.fields).Some?
    && CompletedAt(x, record.fields).Some? && CompletedAt(x, record.fields).value.aware
    && ScopeSupported(record.fields, supported)
    && ValuesValid(record.fields)
  }

  ghost predicate Distinct(x: Syntax, entries: seq<Fields>) {
    forall i, j | 0 <= i < j < |entries| ::
      RequestOf(x, entries[i]) != RequestOf(x, entries[j]) && KeyOf(entries[i]) != KeyOf(entries[j])
  }

  ghost predicate Acceptable(x: Syntax, supported: set<string>, records: seq<Record>, entries: seq<Fields>) {
    && |entries| == |records|
    && (forall i | 0 <= i < |records| :: records[i] == Object(entries[i]) && WellFormed(x, supported, records[i]))
    && Distinct(x, entries)
  }

  lemma FaultlessExactly(x: Syntax, supported: set<string>, front: seq<Fields>, record: Record)
    ensures EntryFault(x, supported, RequestsIn(x, front), KeysIn(front), record).None?
            <==> record.Object? && WellFormed(x, supported, record)
                 && RequestOf(x, record.fields) !in RequestsIn(x, front) && KeyOf(record.fields) !in KeysIn(front)
  {
    hide RequestsIn, KeysIn, RequestOf, KeyOf, CompletedAt, ScopeSupported, ValuesValid;
  }

  lemma DistinctMore(x: Syntax, front: seq<Fields>, f: Fields)
    ensures Distinct(x, front + [f])
            <==> Distinct(x, front) && RequestOf(x, f) !in RequestsIn(x, front) && KeyOf(f) !in KeysIn(front)
  {
    hide RequestOf, KeyOf;
    var all := front + [f];
    assert forall i | 0 <= i < |front| :: all[i] == front[i];
    assert all[|front|] == f;
    if Distinct(x, all) {
      assert forall i | 0 <= i < |front| :: RequestOf(x, all[i]) != RequestOf(x, all[|front|]);
      assert forall i | 0 <= i < |front| :: KeyOf(all[i]) != KeyOf(all[|front|]);
    }
  }

  /** The loader accepts a list of records exactly when each is sound and none repeats another. */
  lemma {:induction false} EntriesAcceptExactly(x: Syntax, supported: set<string>, records: seq<Record>,
                                                entries: seq<Fields>)
    ensures Entries(x, supported, records) == Ok(entries) <==> Acceptable(x, supported, records, entries)
  {
    hide WellFormed, Distinct, EntryFault, RequestsIn, KeysIn, RequestOf, KeyOf;
    if records == [] {
      NothingAcceptable(x, supported, entries);
    } else if |entries| == |records| {
      var front, last := records[..|records| - 1], records[|records| - 1];
      var before, f := entries[..|entries| - 1], entries[|entries| - 1];
      EntriesAcceptExactly(x, supported, front, before);
      FaultlessExactly(x, supported, before, last);
      DistinctMore(x, before, f);
      assert entries == before + [f];
      var sofar := Entries(x, supported, front);
      if sofar.Ok? {
        FaultlessExactly(x, supported, sofar.value, last);
        assert last.Object? && sofar.value + [last.fields] == entries ==> sofar.value == before && last.fields == f;
      }
      assert Acceptable(x, supported, records, entries)
        <==> Acceptable(x, supported, front, before) && last == Object(f) && WellFormed(x, supported, last)
             && RequestOf(x, f) !in RequestsIn(x, before) && KeyOf(f) !in KeysIn(before);
    } else {
      EntriesKeepCount(x, supported, records);
    }
  }

  lemma NothingAcceptable(x: Syntax, supported: set<string>, entries: seq<Fields>)
    ensures Acceptable(x, supported, [], entries) <==> entries == []
  {
  }

  lemma {:induction false} EntriesKeepCount(x: Syntax, supported: set<string>, records: seq<Record>)
    ensures var r := Entries(x, supported, records); r.Ok? ==> |r.value| == |records|
  {
    hide EntryFault, RequestsIn, KeysIn;
    if records != [] {
      EntriesKeepCount(x, supported, records[..|records| - 1]);
    }
  }

  // ---------------------------------------------------------------------------
  // Entries as values
  // ---------------------------------------------------------------------------

  function ScopeNamed(s: string): Scope
    requires s in SCOPES
  {
    if s == "memory" then Memory else if s == "contact" then Contact else Account
  }

  /** What the replay reads out of an accepted entry. */
  function ReadEntry(x: Syntax, f: Fields): Entry
    requires WellFormed(x, SCOPES, Object(f))
  {
    Entry(RequestOf(x, f).value, ScopeNamed(f["scope_type"].text), Hex.Decode(f["target_scope_hmac"].text),
          Hex.Decode(f["request_idempotency_key"].text), f["policy_version"].number, CompletedAt(x, f).value.time)
  }

  function RowEntry(row: Row): Entry
    requires row.scope in SCOPES && row.policy >= 0
  {
    Entry(row.request, ScopeNamed(row.scope), row.target, row.key, row.policy, row.completedAt.time)
  }

  lemma RowPrintsWell(x: Syntax, id: Identity, row: Row)
    requires Faithful(x) && RowValid(x, id, row)
    ensures var f := EntryFields(x, row);
            && Printable(f) && WellFormed(x, SCOPES, Object(f))
            && row.scope in SCOPES && row.policy >= 0 && ReadEntry(x, f) == RowEntry(row)
            && RequestOf(x, f) == Some(row.request) && KeyOf(f) == Some(Hex.Encode(row.key))
  {
    hide Hex.Decode, Hex.Encode, Hex.Canonical, Hex.Parse, Hex.IsHex;
    var f := EntryFields(x, row);
    Hex.ParseCanonical(x.base16, row.request);
    assert Str(f["request_id"]) == Hex.Canonical(row.request);
    assert RequestOf(x, f) == Some(row.request);
    assert CompletedAt(x, f) == Some(row.completedAt);
    Hex.DecodeEncode(row.target);
    Hex.DecodeEncode(row.key);
  }

  lemma RowsPrintDistinct(x: Syntax, id: Identity, rows: seq<Row>, entries: seq<Fields>)
    requires Faithful(x) && RowsDistinct(rows) && |entries| == |rows|
    requires forall i | 0 <= i < |rows| :: RowValid(x, id, rows[i]) && entries[i] == EntryFields(x, rows[i])
    ensures Distinct(x, entries)
  {
    hide Faithful, EntryFields, RequestOf, KeyOf, Hex.Encode, Hex.Decode, RowValid;
    forall i, j | 0 <= i < j < |entries|
      ensures RequestOf(x, entries[i]) != RequestOf(x, entries[j]) && KeyOf(entries[i]) != KeyOf(entries[j])
    {
      RowPrintsWell(x, id, rows[i]);
      RowPrintsWell(x, id, rows[j]);
      Hex.DecodeEncode(rows[i].key);
      Hex.DecodeEncode(rows[j].key);
    }
  }

  function EntryRecords(x: Syntax, rows: seq<Row>): (entries: seq<Fields>)
    ensures |entries| == |rows|
  {
    seq(|rows|, i requires 0 <= i < |rows| => EntryFields(x, rows[i]))
  }

  lemma RowsAreAccepted(x: Syntax, id: Identity, rows: seq<Row>, records: seq<Record>)
    requires Faithful(x) && RowsDistinct(rows) && |records| == |rows|
    requires forall i | 0 <= i < |rows| :: RowValid(x, id, rows[i]) && records[i] == Object(EntryFields(x, rows[i]))
    ensures Entries(x, SCOPES, records) == Ok(EntryRecords(x, rows))
  {
    hide Faithful, EntryFields, WellFormed, Entries, RowsDistinct, Distinct, RowValid;
    var entries := EntryRecords(x, rows);
    forall i | 0 <= i < |rows|
      ensures WellFormed(x, SCOPES, records[i])
    {
      RowPrintsWell(x, id, rows[i]);
    }
    RowsPrintDistinct(x, id, rows, entries);
    EntriesAcceptExactly(x, SCOPES, records, entries);
  }

  lemma HeaderPrintsWell(x: Syntax, id: Identity, snapshot: string, exportedAt: Moment)
    requires Faithful(x) && Name(snapshot)
    ensures var h := HeaderFields(x, id, snapshot, exportedAt);
            && Printable(h) && h.Keys == HEADER_FIELDS
            && (Name(id.deployment) ==> HeaderMatches(x, id, h))
            && h["schema_version"] == Number(1) && h["snapshot_id"] == Text(snapshot)
  {
    hide Name;
  }

  lemma DocumentIsAFile(x: Syntax, lines: seq<string>)
    requires Faithful(x) && lines != [] && forall l | l in lines :: OneLine(l)
    ensures Ascii(Joined(lines))
    ensures |AsBytes(Joined(lines))| >= 1 && 0 !in AsBytes(Joined(lines))
    ensures Hex32(Text(Digest(x, AsBytes(Joined(lines)))))
  {
    JoinedIsAscii(lines);
    var text := Joined(lines);
    assert forall i | 0 <= i < |text| :: AsBytes(text)[i] == text[i] as int;
    assert |x.sha256(AsBytes(text))| == 32;
  }

  lemma ParsedLinesAre(x: Syntax, lines: seq<string>, records: seq<Record>)
    requires |lines| == |records| && forall i | 0 <= i < |lines| :: x.parse(lines[i]) == Some(records[i])
    ensures ParsedLines(x, lines) == Some(records)
  {
    assert ParsedLines(x, lines).value == records;
  }

  /** Printed records are read back one to one from the file's bytes. */
  lemma RecordsReadBack(x: Syntax, records: seq<Fields>)
    requires Faithful(x) && forall i | 0 <= i < |records| :: Printable(records[i])
    ensures var text := Joined(PrintedLines(x, records));
            && Ascii(text) && x.utf8(AsBytes(text)) == Some(text)
            && (records != [] ==> text != "" && 0 !in AsBytes(text) && Hex32(Text(Digest(x, AsBytes(text)))))
            && Lines(text) == PrintedLines(x, records)
            && ParsedLines(x, Lines(text)) == Some(seq(|records|, i requires 0 <= i < |records| => Object(records[i])))
  {
    hide Lines, Joined, Ascii, AsBytes, Printable;
    var lines := PrintedLines(x, records);
    assert forall i | 0 <= i < |lines| :: OneLine(lines[i]) && x.parse(lines[i]) == Some(Object(records[i]));
    if records != [] {
      DocumentIsAFile(x, lines);
    }
    JoinedIsAscii(lines);
    LinesOfJoined(lines);
    ParsedLinesAre(x, lines, seq(|records|, i requires 0 <= i < |records| => Object(records[i])));
  }

  /**
   The round trip: whatever the exporter prints, the loader accepts under the same identity,
   digest and all scopes, giving the same snapshot and the same entries in the same order.
   */
  lemma PrintThenLoad(x: Syntax, id: Identity, snapshot: string, exportedAt: Moment, rows: seq<Row>, text: string)
    requires Faithful(x)
    requires Document(x, id, snapshot, exportedAt, rows) == Ok(text) && |text| <= MAX_BYTES
    ensures Ascii(text)
    ensures Load(x, id, AsBytes(text), Digest(x, AsBytes(text)), SCOPES)
            == Ok(Loaded(snapshot, EntryRecords(x, rows)))
    ensures forall i | 0 <= i < |rows| ::
              && RowValid(x, id, rows[i])
              && WellFormed(x, SCOPES, Object(EntryRecords(x, rows)[i]))
              && ReadEntry(x, EntryRecords(x, rows)[i]) == RowEntry(rows[i])
  {
    hide Faithful, Name, RowValid, RowsDistinct, EntryFields, HeaderFields, HeaderMatches, Lines, Joined, PrintedLines,
         ParsedLines, Entries, Printable, WellFormed, Hex.Encode;
    var fields := Records(x, id, snapshot, exportedAt, rows);
    HeaderPrintsWell(x, id, snapshot, exportedAt);
    forall i | 0 <= i < |rows|
      ensures && rows[i].scope in SCOPES && rows[i].policy >= 0
              && Printable(EntryFields(x, rows[i])) && WellFormed(x, SCOPES, Object(EntryFields(x, rows[i])))
              && ReadEntry(x, EntryFields(x, rows[i])) == RowEntry(rows[i])
    {
      RowPrintsWell(x, id, rows[i]);
    }
    RecordsReadBack(x, fields);
    var records := seq(|fields|, i requires 0 <= i < |fields| => Object(fields[i]));
    RowsAreAccepted(x, id, rows, records[1..]);
    assert Opened(x, id, AsBytes(text), Digest(x, AsBytes(text))) == Ok(records);
  }

  /** No two files have the same hash as this one. */
  ghost predicate NoCollision(x: Syntax, raw: Bytes) {
    forall other | x.sha256(other) == x.sha256(raw) :: other == raw
  }

  /**
   What a caller may rely on after loading: a bounded number of entries, each with exactly the
   fields and values of the contract and a supported scope, no request or key twice; and a
   digest issued for one file admits no other.
   */
  lemma LoadedIsSound(x: Syntax, id: Identity, raw: Bytes, digest: string, supported: set<string>, l: Loaded)
    requires Load(x, id, raw, digest, supported) == Ok(l)
    ensures |l.entries| <= MAX_ENTRIES && Name(l.snapshot) && Distinct(x, l.entries)
    ensures forall e | e in l.entries :: WellFormed(x, supported, Object(e))
    ensures forall other | Digest(x, other) == digest && NoCollision(x, raw) :: other == raw
  {
    hide Name, Distinct, WellFormed, Entries, Lines, ParsedLines, Hex.Encode;
    var records := Opened(x, id, raw, digest).value;
    EntriesAcceptExactly(x, supported, records[1..], l.entries);
    forall other | Digest(x, other) == digest && NoCollision(x, raw)
      ensures other == raw
    {
      Hex.DecodeEncode(x.sha256(other));
      Hex.DecodeEncode(x.sha256(raw));
    }
  }
}
