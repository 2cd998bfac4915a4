/** Lower-case base 16, for byte strings (RFC 4648, section 8) and for 128-bit identifiers. */
module Hex {
  import opened Basics

  predicate IsDigit(c: char) {
    '0' <= c <= '9' || 'a' <= c <= 'f'
  }

  predicate IsHex(s: string) {
    forall i | 0 <= i < |s| :: IsDigit(s[i])
  }

  function Digit(d: nat): (c: char)
    requires d < 16
    ensures IsDigit(c) && DigitValue(c) == d
  {
    if d < 10 then d as char + '0' else (d - 10) as char + 'a'
  }

  function DigitValue(c: char): (d: nat)
    requires IsDigit(c)
    ensures d < 16
  {
    if c <= '9' then c as int - '0' as int else c as int - 'a' as int + 10
  }

  lemma DigitOfValue(c: char)
    requires IsDigit(c)
    ensures Digit(DigitValue(c)) == c
  {
  }

  // ---------------------------------------------------------------------------
  // Byte strings
  // ---------------------------------------------------------------------------

  function Pair(b: Byte): (s: string)
    ensures |s| == 2 && IsHex(s)
  {
    [Digit(b / 16), Digit(b % 16)]
  }

  function Unpair(s: string): (b: Byte)
    requires |s| == 2 && IsHex(s)
  {
    16 * DigitValue(s[0]) + DigitValue(s[1])
  }

  lemma PairUnpair(b: Byte, s: string)
    requires |s| == 2 && IsHex(s)
    ensures Unpair(Pair(b)) == b && Pair(Unpair(s)) == s
  {
    hide Digit, DigitValue;
    DigitOfValue(s[0]);
    DigitOfValue(s[1]);
    assert Unpair(s) / 16 == DigitValue(s[0]) && Unpair(s) % 16 == DigitValue(s[1]);
  }

  function Encode(bytes: seq<Byte>): (s: string)
    ensures |s| == 2 * |bytes| && IsHex(s)
  {
    if bytes == [] then "" else Encode(bytes[..|bytes| - 1]) + Pair(bytes[|bytes| - 1])
  }

  function Decode(s: string): (bytes: seq<Byte>)
    requires IsHex(s) && |s| % 2 == 0
    ensures 2 * |bytes| == |s|
  {
    if s == "" then [] else Decode(s[..|s| - 2]) + [Unpair(s[|s| - 2..])]
  }

  lemma {:induction false} DecodeEncode(bytes: seq<Byte>)
    ensures Decode(Encode(bytes)) == bytes
  {
    hide Pair, Unpair, IsDigit;
    if bytes != [] {
      var front, last := bytes[..|bytes| - 1], bytes[|bytes| - 1];
      DecodeEncode(front);
      PairUnpair(last, Pair(last));
      var s := Encode(bytes);
      assert s[..|s| - 2] == Encode(front) && s[|s| - 2..] == Pair(last);
    }
  }

  /** Only one text decodes to given bytes: upper case and odd lengths are not in the image. */
  lemma {:induction false} EncodeDecode(s: string)
    requires IsHex(s) && |s| % 2 == 0
    ensures Encode(Decode(s)) == s
  {
    hide Pair, Unpair, IsDigit;
    if s != "" {
      var front, last := s[..|s| - 2], s[|s| - 2..];
      EncodeDecode(front);
      PairUnpair(0, last);
      var bytes := Decode(s);
      assert bytes[..|bytes| - 1] == Decode(front) && bytes[|bytes| - 1] == Unpair(last);
      assert s == front + last;
    }
  }

  // ---------------------------------------------------------------------------
  // Numbers
  // ---------------------------------------------------------------------------

  function Power(k: nat): nat {
    if k == 0 then 1 else 16 * Power(k - 1)
  }

  /** The last `k` digits of `n`, as `%0kx` prints it. */
  function Digits(n: nat, k: nat): (s: string)
    ensures |s| == k && IsHex(s)
  {
    if k == 0 then "" else Digits(n / 16, k - 1) + [Digit(n % 16)]
  }

  function Value(s: string): nat
    requires IsHex(s)
  {
    if s == "" then 0 else 16 * Value(s[..|s| - 1]) + DigitValue(s[|s| - 1])
  }

  lemma {:induction false} ValueOfDigits(n: nat, k: nat)
    requires n < Power(k)
    ensures Value(Digits(n, k)) == n
  {
    if k > 0 {
      ValueOfDigits(n / 16, k - 1);
      assert Digits(n, k)[..k - 1] == Digits(n / 16, k - 1);
    }
  }

  const UUID_LIMIT: nat := 0x1_00000000_00000000_00000000_00000000

  lemma UuidDigits()
    ensures Power(32) == UUID_LIMIT
  {
    assert Power(8) == 0x1_00000000;
    assert Power(16) == 0x1_00000000_00000000;
    assert Power(24) == 0x1_00000000_00000000_00000000;
  }

  // ---------------------------------------------------------------------------
  // Identifiers as text
  // ---------------------------------------------------------------------------

  /** Every occurrence of `c` dropped. */
  function Without(s: string, c: char): string {
    if s == "" then "" else (if s[0] == c then "" else [s[0]]) + Without(s[1..], c)
  }

  /** Occurrences of a word dropped from left to right, as `str.replace(word, "")` does. */
  function Remove(s: string, word: string): string
    requires word != ""
  {
    if s == "" then ""
    else if word <= s then Remove(s[|word|..], word)
    else [s[0]] + Remove(s[1..], word)
  }

  predicate Brace(c: char) {
    c == '{' || c == '}'
  }

  function StripBraces(s: string): string
    decreases |s|
  {
    if s == "" then ""
    else if Brace(s[0]) then StripBraces(s[1..])
    else if Brace(s[|s| - 1]) then StripBraces(s[..|s| - 1])
    else s
  }

  /** `str(UUID)`: 8-4-4-4-12 digits. */
  function Canonical(n: Uuid): (s: string)
    ensures |s| == 36
  {
    var d := Digits(n, 32);
    d[..8] + "-" + d[8..12] + "-" + d[12..16] + "-" + d[16..20] + "-" + d[20..]
  }

  /**
   `UUID(text)`: prefixes, braces and hyphens are ignored wherever they stand, then 32
   characters must be a number in base 16.  `base16` is the language's own number reader.
   */
  function Parse(base16: string -> Option<int>, text: string): (id: Option<Uuid>)
    ensures id.Some? ==> id.value < UUID_LIMIT
  {
    var digits := Without(StripBraces(Remove(Remove(text, "urn:"), "uuid:")), '-');
    if |digits| != 32 then None
    else
      match base16(digits)
      case None => None
      case Some(v) => if 0 <= v < UUID_LIMIT then Some(v) else None
  }

  ghost predicate ReadsPlainHex(base16: string -> Option<int>) {
    forall s | s != "" && IsHex(s) :: base16(s) == Some(Value(s))
  }

  lemma {:induction false} WithoutAbsent(s: string, c: char)
    requires c !in s
    ensures Without(s, c) == s
  {
    if s != "" {
      WithoutAbsent(s[1..], c);
    }
  }

  lemma {:induction false} WithoutSplits(a: string, b: string, c: char)
    ensures Without(a + b, c) == Without(a, c) + Without(b, c)
  {
    if a == "" {
      assert a + b == b;
    } else {
      var first := if a[0] == c then "" else [a[0]];
      WithoutSplits(a[1..], b, c);
      assert (a + b)[0] == a[0] && (a + b)[1..] == a[1..] + b;
      var x, y := Without(a[1..], c), Without(b, c);
      assert Without(a + b, c) == first + (x + y) == (first + x) + y;
    }
  }

  lemma {:induction false} RemoveAbsent(s: string, word: string)
    requires word != "" && word[0] !in s
    ensures Remove(s, word) == s
  {
    if s != "" {
      RemoveAbsent(s[1..], word);
    }
  }

  /** A printed identifier is read back, so no two identifiers share their text. */
  lemma ParseCanonical(base16: string -> Option<int>, n: Uuid)
    requires n < UUID_LIMIT && ReadsPlainHex(base16)
    ensures Parse(base16, Canonical(n)) == Some(n)
  {
    hide Without, Remove, Digits, Power, Value;
    var d := Digits(n, 32);
    var text := Canonical(n);
    assert forall c | c in text :: IsDigit(c) || c == '-';
    RemoveAbsent(text, "urn:");
    RemoveAbsent(text, "uuid:");
    assert !Brace(text[0]) && !Brace(text[35]);
    CanonicalDigits(d);
    UuidDigits();
    ValueOfDigits(n, 32);
  }

  lemma CanonicalDigits(d: string)
    requires |d| == 32 && IsHex(d)
    ensures Without(d[..8] + "-" + d[8..12] + "-" + d[12..16] + "-" + d[16..20] + "-" + d[20..], '-') == d
  {
    hide Without;
    var a, b, c, e, f := d[..8], d[8..12], d[12..16], d[16..20], d[20..];
    WithoutSplits(a + "-" + b + "-" + c + "-" + e + "-", f, '-');
    OneMoreGroup(a + "-" + b + "-" + c + "-", e);
    OneMoreGroup(a + "-" + b + "-", c);
    OneMoreGroup(a + "-", b);
    OneMoreGroup("", a);
    assert "" + a + "-" == a + "-";
    WithoutAbsent("", '-');
    WithoutAbsent(f, '-');
    assert d == a + b + c + e + f;
  }

  lemma OneMoreGroup(front: string, group: string)
    requires IsHex(group)
    ensures Without(front + group + "-", '-') == Without(front, '-') + group
  {
    WithoutSplits(front + group, "-", '-');
    WithoutSplits(front, group, '-');
    WithoutAbsent(group, '-');
    assert Without("-", '-') == "";
  }

  lemma {:induction false} RemoveSkips(front: string, s: string, word: string)
    requires word != "" && forall i | 0 <= i < |front| :: !(word <= (front + s)[i..])
    ensures Remove(front + s, word) == front + Remove(s, word)
  {
    var text := front + s;
    if front == "" {
      assert text == s;
    } else {
      assert text[0..] == text;
      assert text[1..] == front[1..] + s;
      forall i | 0 <= i < |front| - 1 ensures !(word <= (front[1..] + s)[i..]) {
        assert text[i + 1..] == (front[1..] + s)[i..];
      }
      RemoveSkips(front[1..], s, word);
    }
  }

  lemma RemoveFirst(s: string, word: string)
    requires word != ""
    ensures Remove(word + s, word) == Remove(s, word)
  {
    assert (word + s)[|word|..] == s;
  }

  /** So is one with the prefixes of a URN, one in braces, and one without hyphens. */
  lemma ParseDecorated(base16: string -> Option<int>, n: Uuid)
    requires n < UUID_LIMIT && ReadsPlainHex(base16)
    ensures Parse(base16, "urn:uuid:" + Canonical(n)) == Some(n)
    ensures Parse(base16, "{" + Canonical(n) + "}") == Some(n)
    ensures Parse(base16, Digits(n, 32)) == Some(n)
  {
    hide Without, Remove, Digits, Power, Value, StripBraces, Canonical;
    var d, text := Digits(n, 32), Canonical(n);
    CanonicalIsPlain(n);
    PrefixesGo(text);
    BracesGo(text);
    forall s | s == text || s == d || s == "{" + text + "}" ensures Remove(Remove(s, "urn:"), "uuid:") == s {
      RemoveAbsent(s, "urn:");
      RemoveAbsent(s, "uuid:");
    }
    PlainStays(d);
    PlainStays(text);
    WithoutAbsent(d, '-');
    UuidDigits();
    ValueOfDigits(n, 32);
  }

  lemma CanonicalIsPlain(n: Uuid)
    ensures forall c | c in Canonical(n) :: IsDigit(c) || c == '-'
    ensures Canonical(n)[0] != '-' && Without(Canonical(n), '-') == Digits(n, 32)
  {
    hide Without, Digits;
    CanonicalDigits(Digits(n, 32));
  }

  lemma PlainStays(s: string)
    requires forall c | c in s :: IsDigit(c) || c == '-'
    ensures StripBraces(s) == s
  {
    if s != "" {
      assert s[0] in s && s[|s| - 1] in s;
    }
  }

  lemma BracesGo(s: string)
    requires s != "" && forall c | c in s :: IsDigit(c) || c == '-'
    ensures StripBraces("{" + s + "}") == s
  {
    PlainStays(s);
    var text := "{" + s + "}";
    assert text[1..] == s + "}";
    assert (s + "}")[..|s|] == s && s[0] in s;
  }

  lemma PrefixesGo(s: string)
    requires forall c | c in s :: IsDigit(c) || c == '-'
    ensures Remove(Remove("urn:uuid:" + s, "urn:"), "uuid:") == s
  {
    hide Remove;
    var rest := "uuid:" + s;
    assert "urn:uuid:" + s == "urn:" + rest;
    RemoveFirst(rest, "urn:");
    forall i | 0 <= i < 5 ensures !("urn:" <= rest[i..]) {
      assert rest[i] != 'u' || rest[i + 1] != 'r';
      assert rest[i..][0] == rest[i] && (i + 1 < |rest| ==> rest[i..][1] == rest[i + 1]);
    }
    RemoveSkips("uuid:", s, "urn:");
    RemoveAbsent(s, "urn:");
    RemoveFirst(s, "uuid:");
    RemoveAbsent(s, "uuid:");
  }
}
