/** The byte encoding under the fingerprint of a turn's ordered message revisions. */
module MembershipClaim {
  import opened Basics

  type Bytes = seq<Byte>

  /** A message and the revision of it that the turn consumed. */
  datatype Member = Member(message: Uuid, revision: int)

  const MAX_REVISION: int := 0xFFFF_FFFF

  /** `b"m4-turn-input-v1\0"` */
  const PREFIX: Bytes :=
    [109, 52, 45, 116, 117, 114, 110, 45, 105, 110, 112, 117, 116, 45, 118, 49, 0]

  function Power256(k: nat): nat {
    if k == 0 then 1 else 256 * Power256(k - 1)
  }

  /** The last `k` bytes of a number, most significant first. */
  function BigEndian(n: nat, k: nat): (bytes: Bytes)
    ensures |bytes| == k
  {
    if k == 0 then [] else BigEndian(n / 256, k - 1) + [n % 256]
  }

  function FromBytes(bytes: Bytes): nat {
    if bytes == [] then 0 else 256 * FromBytes(bytes[..|bytes| - 1]) + bytes[|bytes| - 1]
  }

  lemma {:induction false} FromBigEndian(n: nat, k: nat)
    requires n < Power256(k)
    ensures FromBytes(BigEndian(n, k)) == n
  {
    if k > 0 {
      FromBigEndian(n / 256, k - 1);
      assert BigEndian(n, k)[..k - 1] == BigEndian(n / 256, k - 1);
    }
  }

  lemma Powers()
    ensures Power256(4) == MAX_REVISION + 1
  {
  }

  /** An identifier has 16 bytes, and a revision is positive and fits in four. */
  predicate Valid(m: Member) {
    m.message < Power256(16) && 1 <= m.revision <= MAX_REVISION
  }

  function EncodeMember(m: Member): (bytes: Bytes)
    requires Valid(m)
    ensures |bytes| == 20
  {
    BigEndian(m.message, 16) + BigEndian(m.revision, 4)
  }

  function DecodeMember(bytes: Bytes): Member
    requires |bytes| == 20
  {
    Member(FromBytes(bytes[..16]), FromBytes(bytes[16..]))
  }

  lemma MemberReadsBack(m: Member)
    requires Valid(m)
    ensures DecodeMember(EncodeMember(m)) == m
  {
    var bytes := EncodeMember(m);
    assert bytes[..16] == BigEndian(m.message, 16) && bytes[16..] == BigEndian(m.revision, 4);
    FromBigEndian(m.message, 16);
    Powers();
    FromBigEndian(m.revision, 4);
  }

  /** Members separated by a zero byte. */
  function Joined(members: seq<Member>): Bytes
    requires forall m | m in members :: Valid(m)
  {
    if members == [] then []
    else if |members| == 1 then EncodeMember(members[0])
    else EncodeMember(members[0]) + [0] + Joined(members[1..])
  }

  /** What `_membership_claim` hashes, or nothing when it refuses the membership. */
  function Encode(members: seq<Member>): Option<Bytes> {
    if members == [] || exists m | m in members :: !Valid(m) then None else Some(PREFIX + Joined(members))
  }

  function Split(bytes: Bytes): (members: seq<Member>)
    requires |bytes| % 21 == 20
  {
    if |bytes| == 20 then [DecodeMember(bytes)] else [DecodeMember(bytes[..20])] + Split(bytes[21..])
  }

  lemma {:induction false} SplitJoined(members: seq<Member>)
    requires members != [] && forall m | m in members :: Valid(m)
    ensures |Joined(members)| == 21 * |members| - 1 && Split(Joined(members)) == members
  {
    hide EncodeMember, DecodeMember, Valid;
    MemberReadsBack(members[0]);
    if |members| == 1 {
      assert members == [members[0]];
    } else {
      var rest := members[1..];
      SplitJoined(rest);
      var bytes := Joined(members);
      assert bytes == EncodeMember(members[0]) + [0] + Joined(rest);
      assert bytes[..20] == EncodeMember(members[0]) && bytes[21..] == Joined(rest);
    }
  }

  /** Accepted memberships read back from their bytes, so no two of them are hashed alike. */
  lemma MembershipReadsBack(a: seq<Member>, b: seq<Member>)
    requires Encode(a).Some?
    ensures PREFIX <= Encode(a).value && |Encode(a).value| == |PREFIX| + 21 * |a| - 1
    ensures Split(Encode(a).value[|PREFIX|..]) == a
    ensures Encode(a) == Encode(b) ==> a == b
  {
    SplitJoined(a);
    assert Encode(a).value[|PREFIX|..] == Joined(a);
    if Encode(b) == Encode(a) {
      SplitJoined(b);
      assert Encode(b).value[|PREFIX|..] == Joined(b);
    }
  }

  /** The bytes of an ASCII text. */
  function AsciiBytes(s: string): (bytes: Bytes)
    requires forall i | 0 <= i < |s| :: 0 <= s[i] as int < 128
  {
    seq(|s|, i requires 0 <= i < |s| => s[i] as int)
  }

  /** How the bytes are laid out: the tag and a zero byte, then the members, most significant bytes first. */
  lemma Layout(a: Member, b: Member)
    requires Valid(a) && Valid(b)
    ensures PREFIX == AsciiBytes("m4-turn-input-v1") + [0]
    ensures Encode([a]) == Some(PREFIX + (BigEndian(a.message, 16) + BigEndian(a.revision, 4)))
    ensures Encode([a, b]) == Some(PREFIX + (EncodeMember(a) + [0] + EncodeMember(b)))
    ensures BigEndian(0x01020304, 4) == [1, 2, 3, 4]
  {
    FirstBytes();
    assert [a, b][1..] == [b];
    assert Joined([b]) == EncodeMember(b);
    assert Joined([a, b]) == EncodeMember(a) + [0] + EncodeMember(b);
    assert PREFIX == AsciiBytes("m4-turn-input-v1") + [0] by {
      assert |AsciiBytes("m4-turn-input-v1")| == 16;
    }
  }

  lemma FirstBytes()
    ensures BigEndian(0x01020304, 4) == [1, 2, 3, 4]
  {
    assert BigEndian(0x01, 1) == [1];
    assert BigEndian(0x0102, 2) == [1, 2];
    assert BigEndian(0x010203, 3) == [1, 2, 3];
  }

  /** A membership is refused exactly when it is empty or a member is out of range. */
  lemma EncodesExactly(members: seq<Member>)
    ensures Encode(members).Some?
            <==> members != [] && forall m | m in members ::
                   m.message < 0x1_00000000_00000000_00000000_00000000 && 1 <= m.revision <= 4_294_967_295
  {
    assert Power256(8) == 0x1_00000000_00000000;
    assert Power256(16) == 0x1_00000000_00000000_00000000_00000000;
  }
}
