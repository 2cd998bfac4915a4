/**
 File names in the staging directory: how an artifact path is spelled, and which names the
 cleanup pattern accepts.  This ties `FileName` of the protocol to the text on disk.
 */
module ArtifactNames {
  import opened Basics

  function Suffix(): string {
    ".jsonl.age"
  }

  function Temporary(): string {
    ".tmp"
  }

  predicate Digit(c: char) {
    '0' <= c <= '9'
  }

  function DigitChar(d: nat): char
    requires d < 10
  {
    d as char + '0'
  }

  function DigitValue(c: char): nat
    requires Digit(c)
  {
    c as int - '0' as int
  }

  predicate Digits(s: string) {
    forall i | 0 <= i < |s| :: Digit(s[i])
  }

  /** Decimal without leading zeros, as an f-string prints a positive integer. */
  function Decimal(n: nat): (s: string)
    ensures |s| >= 1 && Digits(s)
  {
    if n < 10 then [DigitChar(n)] else Decimal(n / 10) + [DigitChar(n % 10)]
  }

  /** `[1-9][0-9]*` */
  predicate Numeral(s: string) {
    |s| >= 1 && s[0] != '0' && Digits(s)
  }

  function Value(s: string): nat
    requires Digits(s)
  {
    if s == [] then 0 else 10 * Value(s[..|s| - 1]) + DigitValue(s[|s| - 1])
  }

  lemma {:induction false} DecimalReads(n: nat)
    ensures Value(Decimal(n)) == n
  {
    if n < 10 {
      assert Decimal(n)[..0] == [];
    } else {
      DecimalReads(n / 10);
      assert Decimal(n)[..|Decimal(n)| - 1] == Decimal(n / 10);
    }
  }

  lemma {:induction false} DecimalIsNumeral(n: nat)
    requires n >= 1
    ensures Numeral(Decimal(n))
  {
    if n >= 10 {
      DecimalIsNumeral(n / 10);
      assert Decimal(n)[0] == Decimal(n / 10)[0];
    }
  }

  lemma {:induction false} NumeralIsDecimal(s: string)
    requires Numeral(s)
    ensures Value(s) >= 1 && s == Decimal(Value(s))
  {
    var c := s[|s| - 1];
    if |s| == 1 {
      assert s[..0] == [];
    } else {
      var front := s[..|s| - 1];
      NumeralIsDecimal(front);
      LastDigit(Value(front), c);
      assert s == front + [c];
    }
  }

  lemma LastDigit(n: nat, c: char)
    requires n >= 1 && Digit(c)
    ensures Decimal(10 * n + DigitValue(c)) == Decimal(n) + [c]
  {
    var m := 10 * n + DigitValue(c);
    assert m / 10 == n && m % 10 == DigitValue(c);
  }

  /** A canonical UUID text: 36 characters, none of them a dot. */
  predicate IdText(id: string) {
    |id| == 36 && forall i | 0 <= i < 36 :: Digit(id[i]) || 'a' <= id[i] <= 'f' || id[i] == '-'
  }

  function Numbered(attempt: Option<nat>): string {
    if attempt.Some? then ['.'] + Decimal(attempt.value) else ""
  }

  function Dot(dotted: bool): string {
    if dotted then ['.'] else ""
  }

  function Body(attempt: Option<nat>): string {
    Numbered(attempt) + Suffix()
  }

  function Tail(attempt: Option<nat>, temporary: bool): string {
    if temporary then Body(attempt) + Temporary() else Body(attempt)
  }

  /** `_artifact_paths`, with the unnumbered and half-decorated names older releases may have left. */
  function Spell(id: string, attempt: Option<nat>, dotted: bool, temporary: bool): string {
    Dot(dotted) + (id + Tail(attempt, temporary))
  }

  predicate EndsWith(s: string, tail: string) {
    |tail| <= |s| && s[|s| - |tail|..] == tail
  }

  function Without(s: string, tail: string): (r: string)
    requires EndsWith(s, tail)
    ensures s == r + tail
  {
    s[..|s| - |tail|]
  }

  function Stripped(name: string): string {
    if |name| >= 1 && name[0] == '.' then name[1..] else name
  }

  function Peel(t: string): string {
    if EndsWith(t, Temporary()) then Without(t, Temporary()) else t
  }

  /** What may stand between the request id and the suffix. */
  predicate AttemptText(m: string) {
    m == "" || (m[0] == '.' && Numeral(m[1..]))
  }

  /** The pattern of `_erase_request_files` for one request, matched in full. */
  predicate CleanupMatches(id: string, name: string) {
    var s := Stripped(name);
    && |id| <= |s| && s[..|id|] == id
    && var u := Peel(s[|id|..]);
    && EndsWith(u, Suffix()) && AttemptText(Without(u, Suffix()))
  }

  lemma Appended(s: string, tail: string)
    ensures EndsWith(s + tail, tail) && Without(s + tail, tail) == s
  {
    assert (s + tail)[|s|..] == tail;
    assert (s + tail)[..|s|] == s;
  }

  lemma NotTemporary(s: string)
    ensures !EndsWith(s + Suffix(), Temporary())
  {
    var t := s + Suffix();
    if |t| >= 4 {
      assert t[|t| - 4..][3] == t[|t| - 1] == 'e';
    }
  }

  /** Peeling the decorations off a tail gives back the attempt. */
  lemma PeeledTail(attempt: Option<nat>, temporary: bool)
    ensures var u := Peel(Tail(attempt, temporary));
            EndsWith(u, Suffix()) && Without(u, Suffix()) == Numbered(attempt)
    ensures EndsWith(Tail(attempt, temporary), Temporary()) <==> temporary
  {
    NotTemporary(Numbered(attempt));
    hide Suffix, Temporary, EndsWith, Without;
    Appended(Numbered(attempt), Suffix());
    Appended(Body(attempt), Temporary());
  }

  lemma StrippedSpelling(id: string, attempt: Option<nat>, dotted: bool, temporary: bool)
    requires IdText(id)
    ensures var name := Spell(id, attempt, dotted, temporary);
            && Stripped(name) == id + Tail(attempt, temporary)
            && (name[0] == '.' <==> dotted)
            && Stripped(name)[..36] == id && Stripped(name)[36..] == Tail(attempt, temporary)
  {
    hide Tail;
    var rest := id + Tail(attempt, temporary);
    assert rest[..36] == id && rest[36..] == Tail(attempt, temporary);
    assert rest[0] == id[0] != '.';
    if dotted {
      assert (['.'] + rest)[1..] == rest;
    } else {
      assert "" + rest == rest;
    }
  }

  lemma AttemptTextOf(attempt: Option<nat>)
    requires attempt.Some? ==> attempt.value >= 1
    ensures AttemptText(Numbered(attempt))
  {
    if attempt.Some? {
      DecimalIsNumeral(attempt.value);
      assert (['.'] + Decimal(attempt.value))[1..] == Decimal(attempt.value);
    }
  }

  /** A sweep for one request takes every numbered or unnumbered name of it, and of no other. */
  lemma CleanupTakesOwnNames(id: string, other: string, attempt: Option<nat>, dotted: bool, temporary: bool)
    requires IdText(id) && IdText(other) && (attempt.Some? ==> attempt.value >= 1)
    ensures CleanupMatches(id, Spell(other, attempt, dotted, temporary)) <==> id == other
  {
    StrippedSpelling(other, attempt, dotted, temporary);
    PeeledTail(attempt, temporary);
    AttemptTextOf(attempt);
    hide Spell, Tail, Peel, EndsWith, Without, Stripped, AttemptText, Numbered, Suffix;
  }

  /** Reading the attempt back. */
  function AttemptOf(m: string): Option<nat>
    requires AttemptText(m)
  {
    if m == "" then None else Some(Value(m[1..]))
  }

  lemma AttemptRead(m: string)
    requires AttemptText(m)
    ensures Numbered(AttemptOf(m)) == m
    ensures AttemptOf(m).Some? ==> AttemptOf(m).value >= 1
  {
    if m != "" {
      NumeralIsDecimal(m[1..]);
      assert m == ['.'] + m[1..];
    }
  }

  /** The attempt and the temporary mark of a name the sweep takes. */
  lemma TakenSpells(id: string, name: string) returns (attempt: Option<nat>, dotted: bool, temporary: bool)
    requires IdText(id) && CleanupMatches(id, name)
    ensures (attempt.Some? ==> attempt.value >= 1) && name == Spell(id, attempt, dotted, temporary)
  {
    hide Suffix, Temporary, EndsWith, AttemptText, AttemptOf, IdText;
    dotted := |name| >= 1 && name[0] == '.';
    var s := Stripped(name);
    var t := s[|id|..];
    temporary := EndsWith(t, Temporary());
    var m := Without(Peel(t), Suffix());
    AttemptRead(m);
    attempt := AttemptOf(m);
    assert Peel(t) == Body(attempt);
    assert t == Tail(attempt, temporary);
    assert s == id + t;
    assert name == Dot(dotted) + s;
  }

  /** Conversely a name the sweep takes is a spelling of some attempt, so nothing else is deleted. */
  lemma CleanupTakesOnlySpellings(id: string, name: string)
    requires IdText(id) && CleanupMatches(id, name)
    ensures exists attempt: Option<nat>, dotted, temporary ::
              (attempt.Some? ==> attempt.value >= 1) && name == Spell(id, attempt, dotted, temporary)
    ensures forall other, attempt, dotted, temporary |
              IdText(other) && name == Spell(other, attempt, dotted, temporary) :: other == id
  {
    var attempt, dotted, temporary := TakenSpells(id, name);
    hide Spell, IdText, CleanupMatches;
    forall other, attempt', dotted', temporary' |
      IdText(other) && name == Spell(other, attempt', dotted', temporary')
      ensures other == id
    {
      SpellingIsInjective(id, attempt, dotted, temporary, other, attempt', dotted', temporary');
    }
  }

  /** The names of the protocol are told apart by their text. */
  lemma SpellingIsInjective(id: string, attempt: Option<nat>, dotted: bool, temporary: bool,
                            id': string, attempt': Option<nat>, dotted': bool, temporary': bool)
    requires IdText(id) && IdText(id')
    requires Spell(id, attempt, dotted, temporary) == Spell(id', attempt', dotted', temporary')
    ensures id == id' && attempt == attempt' && dotted == dotted' && temporary == temporary'
  {
    StrippedSpelling(id, attempt, dotted, temporary);
    StrippedSpelling(id', attempt', dotted', temporary');
    PeeledTail(attempt, temporary);
    PeeledTail(attempt', temporary');
    NumberedIsInjective(attempt, attempt');
    hide Spell, Tail, Peel, EndsWith, Without, Stripped, Numbered, Suffix, Temporary;
  }

  lemma NumberedIsInjective(attempt: Option<nat>, attempt': Option<nat>)
    ensures Numbered(attempt) == Numbered(attempt') ==> attempt == attempt'
  {
    if attempt.Some? && attempt'.Some? {
      DecimalReads(attempt.value);
      DecimalReads(attempt'.value);
      assert (['.'] + Decimal(attempt.value))[1..] == Decimal(attempt.value);
      assert (['.'] + Decimal(attempt'.value))[1..] == Decimal(attempt'.value);
    }
  }

  /** The twelfth attempt's names, and the one without an attempt, as they appear on disk. */
  lemma SpelledOut(id: string)
    ensures Spell(id, Some(12), true, true) == "." + id + ".12.jsonl.age.tmp"
    ensures Spell(id, Some(12), false, false) == id + ".12.jsonl.age"
    ensures Spell(id, None, false, false) == id + ".jsonl.age"
  {
    assert Decimal(1) == "1" && Decimal(12) == Decimal(1) + "2";
    assert Numbered(Some(12)) == ".12";
  }
}
