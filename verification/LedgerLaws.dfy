/**
 The ledger's contract written out: which files are accepted, for whom, and what a printed one
 says.  Known answers fix the spellings that a round trip alone would leave open.
 */
module LedgerLaws {
  import opened Basics
  import opened RestoreGate
  import opened Ledger
  import ArtifactNames
  import Hex

  // ---------------------------------------------------------------------------
  // Lines
  // ---------------------------------------------------------------------------

  lemma LineEnds(c: char)
    ensures EndsLine(c) <==> c in {'\n', '\U{b}', '\U{c}', '\r', '\U{1c}', '\U{1d}', '\U{1e}', '\U{85}', '\U{2028}',
                                   '\U{2029}'}
  {
  }

  /** The first line ends where the first line end stands. */
  lemma FirstLineEnds(s: string, k: nat)
    requires k < |s| && EndsLine(s[k]) && forall i | 0 <= i < k :: !EndsLine(s[i])
    ensures Lines(s) == (if k == 0 then [] else [s[..k]]) + Lines(s[k + 1..])
  {
    hide Lines, FirstEnd;
    FirstEndIs(s, k);
    LinesOnce(s, k, s[k + 1..]);
  }

  lemma LinesOnce(s: string, k: nat, rest: string)
    requires FirstEnd(s) == k < |s| && rest == s[k + 1..]
    ensures Lines(s) == (if k == 0 then [] else [s[..k]]) + Lines(rest)
  {
    hide FirstEnd;
  }

  /** A text is split at each line end. */
  lemma {:induction false} LinesSplit(a: string, c: char, b: string)
    requires EndsLine(c)
    ensures Lines(a + [c] + b) == Lines(a) + Lines(b)
    decreases |a|
  {
    hide Lines;
    var s, k := a + [c] + b, FirstEnd(a);
    assert forall i | 0 <= i < |a| :: s[i] == a[i];
    if k == |a| {
      assert s[|a|] == c;
      FirstLineEnds(s, |a|);
      LinesOfOne(a);
      assert s[..|a|] == a && s[|a| + 1..] == b;
    } else {
      FirstLineEnds(s, k);
      FirstLineEnds(a, k);
      assert s[..k] == a[..k] && s[k + 1..] == a[k + 1..] + [c] + b;
      LinesSplit(a[k + 1..], c, b);
    }
  }

  /** A text without line ends is one line, or none when it is empty. */
  lemma LinesOfOne(s: string)
    requires forall i | 0 <= i < |s| :: !EndsLine(s[i])
    ensures Lines(s) == if s == "" then [] else [s]
  {
    if s != "" {
      FirstEndStops(s);
      assert s[..|s|] == s;
    }
  }

  lemma {:induction false} FirstEndStops(s: string)
    requires forall i | 0 <= i < |s| :: !EndsLine(s[i])
    ensures FirstEnd(s) == |s|
  {
    if s != "" {
      FirstEndStops(s[1..]);
    }
  }

  // ---------------------------------------------------------------------------
  // Loading
  // ---------------------------------------------------------------------------

  /** 64 characters, each a digit or a letter from a to f. */
  predicate PlainHex32(s: string) {
    |s| == 64 && forall i | 0 <= i < 64 :: '0' <= s[i] <= '9' || 'a' <= s[i] <= 'f'
  }

  /** 3 to 63 characters: a lower-case letter, then lower-case letters, digits and hyphens. */
  predicate PlainName(s: string) {
    && 3 <= |s| <= 63 && 'a' <= s[0] <= 'z'
    && forall i | 1 <= i < |s| :: 'a' <= s[i] <= 'z' || '0' <= s[i] <= '9' || s[i] == '-'
  }

  /** The header of a version 1 ledger of this deployment and account. */
  predicate HeaderFor(x: Syntax, id: Identity, h: Fields) {
    && h.Keys == {"kind", "schema_version", "deployment_id", "account_scope_hmac", "snapshot_id", "exported_at"}
    && h["kind"] == Text("header") && h["schema_version"] == Number(1)
    && h["deployment_id"] == Text(id.deployment)
    && h["account_scope_hmac"] == Text(Hex.Encode(x.hmac(id.secret, id.account)))
    && h["snapshot_id"].Text? && PlainName(h["snapshot_id"].text) && h["exported_at"].Text?
  }

  /** A record of one erasure of a supported scope. */
  predicate ErasureRecord(x: Syntax, supported: set<string>, record: Record) {
    && record.Object?
    && var f := record.fields;
    && f.Keys == {"kind", "request_id", "scope_type", "target_scope_hmac", "request_idempotency_key",
                  "policy_version", "completed_at"}
    && f["kind"] == Text("erasure")
    && Hex.Parse(x.base16, Str(f["request_id"])).Some?
    && f["scope_type"].Text? && f["scope_type"].text in supported
    && f["target_scope_hmac"].Text? && PlainHex32(f["target_scope_hmac"].text)
    && f["request_idempotency_key"].Text? && PlainHex32(f["request_idempotency_key"].text)
    && f["policy_version"].Number? && 1 <= f["policy_version"].number <= 2_147_483_647
    && x.parseDate(Str(f["completed_at"])).Some? && x.parseDate(Str(f["completed_at"])).value.aware
  }

  lemma HexIsPlain(s: string)
    ensures Hex32(Text(s)) <==> PlainHex32(s)
  {
  }

  lemma HeaderIsPlain(x: Syntax, id: Identity, h: Fields)
    ensures h.Keys == HEADER_FIELDS && HeaderMatches(x, id, h) <==> HeaderFor(x, id, h)
  {
  }

  lemma RecordIsPlain(x: Syntax, supported: set<string>, record: Record)
    ensures WellFormed(x, supported, record) <==> ErasureRecord(x, supported, record)
  {
    hide Hex.Parse, Str;
  }

  /** Every line is one JSON value, and these are they. */
  ghost predicate Parsed(x: Syntax, lines: seq<string>, records: seq<Record>) {
    |records| == |lines| && forall i | 0 <= i < |lines| :: x.parse(lines[i]) == Some(records[i])
  }

  /** Requests and keys do not repeat. */
  ghost predicate NoneRepeats(x: Syntax, entries: seq<Fields>) {
    forall i, j | 0 <= i < j < |entries| ::
      && "request_id" in entries[i] && "request_id" in entries[j]
      && Hex.Parse(x.base16, Str(entries[i]["request_id"])) != Hex.Parse(x.base16, Str(entries[j]["request_id"]))
      && "request_idempotency_key" in entries[i] && "request_idempotency_key" in entries[j]
      && entries[i]["request_idempotency_key"] != entries[j]["request_idempotency_key"]
  }

  lemma DistinctIsPlain(x: Syntax, supported: set<string>, entries: seq<Fields>)
    requires forall e | e in entries :: ErasureRecord(x, supported, Object(e))
    ensures Distinct(x, entries) <==> NoneRepeats(x, entries)
  {
    hide Hex.Parse, Str;
    forall i | 0 <= i < |entries|
      ensures "request_id" in entries[i] && "request_idempotency_key" in entries[i]
              && KeyOf(entries[i]).Some? && entries[i]["request_idempotency_key"] == Text(KeyOf(entries[i]).value)
    {
      assert ErasureRecord(x, supported, Object(entries[i]));
    }
  }

  /**
   Everything that makes a file the ledger of this deployment and account under this digest: its
   size, its digest, its text, its header, and its entries.
   */
  ghost predicate LedgerFor(x: Syntax, id: Identity, raw: Bytes, digest: string, supported: set<string>,
                            records: seq<Record>)
  {
    && PlainHex32(digest) && 1 <= |raw| <= 16_777_216 && 0 !in raw && Hex.Encode(x.sha256(raw)) == digest
    && x.utf8(raw).Some? && Parsed(x, Lines(x.utf8(raw).value), records)
    && 1 <= |records| <= 100_001
    && records[0].Object? && HeaderFor(x, id, records[0].fields)
    && (forall i | 1 <= i < |records| :: ErasureRecord(x, supported, records[i]))
  }

  /** The snapshot of the header and the entries after it, in order. */
  ghost predicate Returns(records: seq<Record>, l: Loaded) {
    && records != [] && records[0].Object? && "snapshot_id" in records[0].fields
    && records[0].fields["snapshot_id"] == Text(l.snapshot)
    && |l.entries| == |records| - 1
    && forall i | 0 <= i < |l.entries| :: records[i + 1] == Object(l.entries[i])
  }

  /**
   A file is loaded exactly when it is such a ledger and no request or key occurs twice in it;
   what is returned are its snapshot and its entries in order.
   */
  lemma LoadsExactly(x: Syntax, id: Identity, raw: Bytes, digest: string, supported: set<string>, l: Loaded)
    ensures Load(x, id, raw, digest, supported) == Ok(l) <==>
              exists records: seq<Record> ::
                LedgerFor(x, id, raw, digest, supported, records) && Returns(records, l) && NoneRepeats(x, l.entries)
  {
    hide LedgerFor, Returns, NoneRepeats, Opened, Entries;
    if Load(x, id, raw, digest, supported) == Ok(l) {
      LoadedIsLedger(x, id, raw, digest, supported, l);
    }
    if records: seq<Record> :|
      LedgerFor(x, id, raw, digest, supported, records) && Returns(records, l) && NoneRepeats(x, l.entries) {
      LedgerIsLoaded(x, id, raw, digest, supported, records, l);
    }
  }

  lemma LoadedIsLedger(x: Syntax, id: Identity, raw: Bytes, digest: string, supported: set<string>, l: Loaded)
    requires Load(x, id, raw, digest, supported) == Ok(l)
    ensures exists records: seq<Record> ::
              LedgerFor(x, id, raw, digest, supported, records) && Returns(records, l) && NoneRepeats(x, l.entries)
  {
    hide Hex.Encode, PlainHex32, HeaderMatches, ErasureRecord, Lines, Entries, NoneRepeats, Parsed, Hex32;
    var records := Opened(x, id, raw, digest).value;
    OpenedIsLedger(x, id, raw, digest, records);
    EntriesArePlain(x, supported, records[1..], l.entries);
    assert forall i | 1 <= i < |records| :: records[i] == records[1..][i - 1];
    assert LedgerFor(x, id, raw, digest, supported, records) && Returns(records, l);
  }

  lemma LedgerIsLoaded(x: Syntax, id: Identity, raw: Bytes, digest: string, supported: set<string>,
                       records: seq<Record>, l: Loaded)
    requires LedgerFor(x, id, raw, digest, supported, records) && Returns(records, l) && NoneRepeats(x, l.entries)
    ensures Load(x, id, raw, digest, supported) == Ok(l)
  {
    hide Hex.Encode, PlainHex32, HeaderMatches, HeaderFor, ErasureRecord, Lines, Entries, NoneRepeats, Parsed, Opened;
    LedgerIsOpened(x, id, raw, digest, supported, records);
    assert forall i | 0 <= i < |l.entries| :: records[1..][i] == records[i + 1];
    EntriesArePlain(x, supported, records[1..], l.entries);
  }

  lemma OpenedIsLedger(x: Syntax, id: Identity, raw: Bytes, digest: string, records: seq<Record>)
    requires Opened(x, id, raw, digest) == Ok(records)
    ensures PlainHex32(digest) && 1 <= |raw| <= 16_777_216 && 0 !in raw && Hex.Encode(x.sha256(raw)) == digest
    ensures x.utf8(raw).Some? && Parsed(x, Lines(x.utf8(raw).value), records)
    ensures 1 <= |records| <= 100_001 && records[0].Object? && HeaderFor(x, id, records[0].fields)
  {
    hide Hex.Encode, Lines;
    HexIsPlain(digest);
    HeaderIsPlain(x, id, records[0].fields);
  }

  lemma LedgerIsOpened(x: Syntax, id: Identity, raw: Bytes, digest: string, supported: set<string>,
                       records: seq<Record>)
    requires LedgerFor(x, id, raw, digest, supported, records)
    ensures Opened(x, id, raw, digest) == Ok(records)
  {
    hide Hex.Encode, Lines, ErasureRecord;
    HexIsPlain(digest);
    HeaderIsPlain(x, id, records[0].fields);
    ParsedLinesAre(x, Lines(x.utf8(raw).value), records);
  }

  lemma EntriesArePlain(x: Syntax, supported: set<string>, records: seq<Record>, entries: seq<Fields>)
    ensures Entries(x, supported, records) == Ok(entries) <==>
              && |entries| == |records| && NoneRepeats(x, entries)
              && (forall i | 0 <= i < |records| :: records[i] == Object(entries[i])
                                                   && ErasureRecord(x, supported, records[i]))
  {
    hide WellFormed, ErasureRecord, Distinct, NoneRepeats, Entries;
    EntriesAcceptExactly(x, supported, records, entries);
    forall i | 0 <= i < |records|
      ensures WellFormed(x, supported, records[i]) <==> ErasureRecord(x, supported, records[i])
    {
      RecordIsPlain(x, supported, records[i]);
    }
    if |entries| == |records| && forall i | 0 <= i < |records| :: records[i] == Object(entries[i])
                                                                  && ErasureRecord(x, supported, records[i]) {
      forall e | e in entries ensures ErasureRecord(x, supported, Object(e)) {
        var i :| 0 <= i < |entries| && entries[i] == e;
      }
      DistinctIsPlain(x, supported, entries);
    }
  }

  // ---------------------------------------------------------------------------
  // Printing
  // ---------------------------------------------------------------------------

  /** A row that may be printed under this identity. */
  predicate PlainRow(x: Syntax, id: Identity, row: Row) {
    && row.accountHmac == x.hmac(id.secret, id.account)
    && |row.accountHmac| == 32 && |row.target| == 32 && |row.key| == 32
    && row.request < 0x1_00000000_00000000_00000000_00000000
    && (row.scope == "memory" || row.scope == "contact" || row.scope == "account")
    && 1 <= row.policy <= 2_147_483_647 && row.completedAt.aware
  }

  /** When the ledger is printed, and what is wrong otherwise. */
  lemma PrintsExactly(x: Syntax, id: Identity, snapshot: string, exportedAt: Moment, rows: seq<Row>)
    ensures var out := Document(x, id, snapshot, exportedAt, rows);
            if !PlainName(id.deployment) || !PlainName(snapshot) then out == Err(ExportIdInvalid)
            else if |id.secret| < 32 then out == Err(ExportSecretInvalid)
            else if id.account == 0 then out == Err(ExportAccountInvalid)
            else if |rows| > 100_000 then out == Err(InventoryInvalid)
            else if !(forall i | 0 <= i < |rows| :: PlainRow(x, id, rows[i])) then out == Err(ExportRowInvalid)
            else if !(forall i, j | 0 <= i < j < |rows| ::
                        rows[i].request != rows[j].request && rows[i].key != rows[j].key) then
              out == Err(ExportRowInvalid)
            else out.Ok?
  {
    forall i | 0 <= i < |rows| ensures RowValid(x, id, rows[i]) <==> PlainRow(x, id, rows[i]) {
      RowIsPlain(x, id, rows[i]);
    }
    hide Joined, PrintedLines, Records, RowValid, PlainRow;
  }

  lemma RowIsPlain(x: Syntax, id: Identity, row: Row)
    ensures RowValid(x, id, row) <==> PlainRow(x, id, row)
  {
  }

  /**
   A printed ledger is accepted for exactly the deployment and account it was printed for: under
   another identity its header is refused.
   */
  lemma PrintedLoadsForItsOwnOnly(x: Syntax, printed: Identity, own: Identity, snapshot: string, exportedAt: Moment,
                                  rows: seq<Row>, text: string)
    requires Faithful(x)
    requires Document(x, printed, snapshot, exportedAt, rows) == Ok(text) && |text| <= MAX_BYTES && Ascii(text)
    ensures var out := Load(x, own, AsBytes(text), Digest(x, AsBytes(text)), SCOPES);
            && (out.Ok? <==> own.deployment == printed.deployment
                             && x.hmac(own.secret, own.account) == x.hmac(printed.secret, printed.account))
            && (out.Err? ==> out.error == HeaderInvalid)
  {
    hide Faithful, Name, Joined, PrintedLines, Entries, Lines, ParsedLines, Hex.Encode, Hex32, RowValid, EntryFields;
    var raw := AsBytes(text);
    var digest := Digest(x, raw);
    PrintThenLoad(x, printed, snapshot, exportedAt, rows, text);
    HeaderReads(x, printed, own, snapshot, exportedAt, rows, text);
    var records := Opened(x, printed, raw, digest).value;
    Hex.DecodeEncode(x.hmac(own.secret, own.account));
    Hex.DecodeEncode(x.hmac(printed.secret, printed.account));
  }

  /** The first record of a printed ledger is its header. */
  lemma HeaderReads(x: Syntax, printed: Identity, own: Identity, snapshot: string, exportedAt: Moment, rows: seq<Row>,
                    text: string)
    requires Faithful(x)
    requires Document(x, printed, snapshot, exportedAt, rows) == Ok(text) && |text| <= MAX_BYTES && Ascii(text)
    requires Opened(x, printed, AsBytes(text), Digest(x, AsBytes(text))).Ok?
    ensures var records := Opened(x, printed, AsBytes(text), Digest(x, AsBytes(text))).value;
            && records[0].fields == HeaderFields(x, printed, snapshot, exportedAt)
            && Opened(x, own, AsBytes(text), Digest(x, AsBytes(text)))
               == if HeaderMatches(x, own, records[0].fields) then Ok(records) else Err(HeaderInvalid)
  {
    hide Faithful, Name, Joined, PrintedLines, Lines, ParsedLines, Hex.Encode, Hex32, RowValid, EntryFields,
         HeaderMatches, HeaderFields, Printable;
    var fields := Records(x, printed, snapshot, exportedAt, rows);
    HeaderPrintsWell(x, printed, snapshot, exportedAt);
    forall i | 0 <= i < |rows| ensures Printable(EntryFields(x, rows[i])) {
      RowPrintsWell(x, printed, rows[i]);
    }
    RecordsReadBack(x, fields);
  }

  /** What each printed entry says when it is read. */
  lemma PrintedEntryReads(x: Syntax, id: Identity, row: Row)
    requires Faithful(x) && RowValid(x, id, row)
    ensures var f := EntryFields(x, row);
            && WellFormed(x, SCOPES, Object(f))
            && ReadEntry(x, f) == Entry(row.request, ReadEntry(x, f).scope, row.target, row.key, row.policy,
                                        row.completedAt.time)
            && (row.scope == "memory" <==> ReadEntry(x, f).scope == Memory)
            && (row.scope == "contact" <==> ReadEntry(x, f).scope == Contact)
            && (row.scope == "account" <==> ReadEntry(x, f).scope == Account)
  {
    hide Faithful, WellFormed;
    RowPrintsWell(x, id, row);
  }

  // ---------------------------------------------------------------------------
  // Known answers
  // ---------------------------------------------------------------------------

  /** The test vector of section 10 of RFC 4648 in lower case, "foobar". */
  lemma KnownBase16()
    ensures Hex.Encode([0x66, 0x6f, 0x6f, 0x62, 0x61, 0x72]) == "666f6f626172"
  {
    hide Hex.Encode;
    EncodeOneMore([], 0x66, [0x66]);
    EncodeOneMore([0x66], 0x6f, [0x66, 0x6f]);
    EncodeOneMore([0x66, 0x6f], 0x6f, [0x66, 0x6f, 0x6f]);
    EncodeOneMore([0x66, 0x6f, 0x6f], 0x62, [0x66, 0x6f, 0x6f, 0x62]);
    EncodeOneMore([0x66, 0x6f, 0x6f, 0x62], 0x61, [0x66, 0x6f, 0x6f, 0x62, 0x61]);
    EncodeOneMore([0x66, 0x6f, 0x6f, 0x62, 0x61], 0x72, [0x66, 0x6f, 0x6f, 0x62, 0x61, 0x72]);
    assert Hex.Pair(0x66) == "66" && Hex.Pair(0x6f) == "6f" && Hex.Pair(0x62) == "62" && Hex.Pair(0x61) == "61"
        && Hex.Pair(0x72) == "72";
  }

  lemma EncodeOneMore(b: seq<Byte>, last: Byte, all: seq<Byte>)
    requires all == b + [last]
    ensures Hex.Encode(all) == Hex.Encode(b) + Hex.Pair(last)
    ensures Hex.Encode([]) == ""
  {
    assert all[..|b|] == b;
  }

  /** The number that digits stand for, the first of them counting most. */
  lemma {:induction false} ValueOfBoth(a: string, b: string)
    requires Hex.IsHex(a) && Hex.IsHex(b)
    ensures Hex.Value(a + b) == Hex.Value(a) * Hex.Power(|b|) + Hex.Value(b)
  {
    if b == "" {
      assert a + b == a;
    } else {
      var front := b[..|b| - 1];
      ValueOfBoth(a, front);
      assert (a + b)[..|a + b| - 1] == a + front;
      Shift(Hex.Value(a), Hex.Power(|front|), Hex.Value(front));
    }
  }

  lemma Shift(a: nat, p: nat, v: nat)
    ensures 16 * (a * p + v) == a * (16 * p) + 16 * v
  {
  }

  lemma ValueOfDigit(d: nat)
    requires d < 16
    ensures Hex.Value([Hex.Digit(d)]) == d && Hex.Digit(d) == "0123456789abcdef"[d]
  {
    assert [Hex.Digit(d)][..0] == "";
  }

  /** Where the hyphens of a printed identifier stand; the rest are its 32 digits in order. */
  lemma CanonicalIs(n: Uuid)
    ensures var d, s := Hex.Digits(n, 32), Hex.Canonical(n);
            && s[8] == s[13] == s[18] == s[23] == '-'
            && s[..8] + s[9..13] + s[14..18] + s[19..23] + s[24..] == d
  {
    hide Hex.Digits;
    var d, s := Hex.Digits(n, 32), Hex.Canonical(n);
    assert s[..8] == d[..8] && s[9..13] == d[8..12] && s[14..18] == d[12..16] && s[19..23] == d[16..20]
        && s[24..] == d[20..];
  }

  /** Printed identifiers are what the names of export files are built from. */
  lemma IdentifiersNameFiles(n: Uuid)
    ensures ArtifactNames.IdText(Hex.Canonical(n))
  {
    var text := Hex.Canonical(n);
    hide Hex.Digits, Hex.Canonical;
    Hex.CanonicalIsPlain(n);
    forall i | 0 <= i < 36
      ensures ArtifactNames.Digit(text[i]) || 'a' <= text[i] <= 'f' || text[i] == '-'
    {
      assert text[i] in text;
    }
  }

  /** How values look as text: strings as they are, numbers in decimal with a sign just when negative. */
  lemma TextsOf(s: string)
    ensures Str(Text(s)) == s
    ensures Str(Number(0)) == "0" && Str(Number(12)) == "12" && Str(Number(-12)) == "-12"
  {
    assert ArtifactNames.Decimal(1) == "1" && ArtifactNames.Decimal(12) == ArtifactNames.Decimal(1) + "2";
  }
}
