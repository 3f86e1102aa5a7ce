/** The wire codec of the tunnel: two 64-bit big-endian header fields, then the body. */
module SplitTcpPacket {
  import opened Wrappers

  const UID_SPACE := 0x1_0000_0000_0000_0000
  const FIELD_BYTES := 8

  /** `sizeof( Header )`, which the parser uses as the number of header bytes on the wire. */
  const HEADER_BYTES := 16

  /** `1500 - 100 - sizeof( Header )`: the most bytes one forwarding read asks for. */
  const READ_LIMIT := 1500 - 100 - HEADER_BYTES

  /** The most bytes a forwarded datagram can have. */
  const DATAGRAM_LIMIT := 1400

  type Uid = n: nat | n < UID_SPACE

  datatype Packet = Packet(newConnection: bool, uid: Uid, body: seq<byte>)

  function Pow256(width: nat): (p: nat)
    ensures p > 0
  {
    if width == 0 then 1 else 256 * Pow256(width - 1)
  }

  function ToBigEndian(n: nat, width: nat): (s: seq<byte>)
    ensures |s| == width
  {
    if width == 0 then [] else ToBigEndian(n / 256, width - 1) + [n % 256]
  }

  function FromBigEndian(s: seq<byte>): (n: nat)
    ensures n < Pow256(|s|)
  {
    if s == [] then 0 else 256 * FromBigEndian(s[..|s| - 1]) + s[|s| - 1]
  }

  lemma {:induction false} FromToBigEndian(n: nat, width: nat)
    requires n < Pow256(width)
    ensures FromBigEndian(ToBigEndian(n, width)) == n
  {
    if width > 0 {
      FromToBigEndian(n / 256, width - 1);
      var s := ToBigEndian(n, width);
      assert s[..|s| - 1] == ToBigEndian(n / 256, width - 1);
    }
  }

  lemma {:induction false} ToFromBigEndian(s: seq<byte>)
    ensures ToBigEndian(FromBigEndian(s), |s|) == s
  {
    if s != [] {
      ToFromBigEndian(s[..|s| - 1]);
      assert s == s[..|s| - 1] + [s[|s| - 1]];
    }
  }

  /** The digit of weight `256^k` of a number: its last digit after `k` divisions by 256. */
  function Digit(n: nat, k: nat): byte { if k == 0 then n % 256 else Digit(n / 256, k - 1) }

  /** Network byte order: byte `i` of a field is the digit of weight `256^(width - 1 - i)`. */
  lemma {:induction false} BigEndianDigit(n: nat, width: nat, i: nat)
    requires i < width
    ensures ToBigEndian(n, width)[i] == Digit(n, width - 1 - i)
  {
    if i < width - 1 {
      BigEndianDigit(n / 256, width - 1, i);
    }
  }

  lemma FieldRange()
    ensures Pow256(FIELD_BYTES) == UID_SPACE
  {
    assert Pow256(2) == 0x1_0000;
    assert Pow256(4) == 0x1_0000_0000;
    assert Pow256(6) == 0x1_0000_0000_0000;
  }

  function PutHeaderField(n: Uid): (s: seq<byte>)
    ensures |s| == FIELD_BYTES
  {
    ToBigEndian(n, FIELD_BYTES)
  }

  /** The `n`-th header field; None is the exception for a message that is too short. */
  function GetHeaderField(n: nat, s: seq<byte>): (r: Option<Uid>)
    ensures r.None? <==> |s| < (n + 1) * FIELD_BYTES
  {
    if |s| < (n + 1) * FIELD_BYTES then None
    else
      FieldRange();
      Some(FromBigEndian(s[n * FIELD_BYTES..(n + 1) * FIELD_BYTES]))
  }

  function HeaderToString(newConnection: bool, uid: Uid): (s: seq<byte>)
    ensures |s| == HEADER_BYTES
  {
    PutHeaderField(if newConnection then 1 else 0) + PutHeaderField(uid)
  }

  function ToString(p: Packet): seq<byte> {
    HeaderToString(p.newConnection, p.uid) + p.body
  }

  /** Any non-zero first field reads as `true`. */
  function Parse(s: seq<byte>): Option<Packet> {
    match (GetHeaderField(0, s), GetHeaderField(1, s))
    case (Some(flag), Some(uid)) => Some(Packet(flag != 0, uid, s[HEADER_BYTES..]))
    case _ => None
  }

  /** Printing then parsing is the identity, for every flag, uid and body. */
  lemma ParseToString(p: Packet)
    ensures Parse(ToString(p)) == Some(p)
  {
    var s := ToString(p);
    var flag := if p.newConnection then 1 else 0;
    FieldRange();
    FromToBigEndian(flag, FIELD_BYTES);
    FromToBigEndian(p.uid, FIELD_BYTES);
    assert s[0..FIELD_BYTES] == PutHeaderField(flag);
    assert s[FIELD_BYTES..HEADER_BYTES] == PutHeaderField(p.uid);
    assert s[HEADER_BYTES..] == p.body;
  }

  /** The wire format: seven zero bytes and the flag, the uid with its most significant byte first,
      and the body. */
  lemma WireFormat(p: Packet)
    ensures var s := ToString(p);
            && |s| == HEADER_BYTES + |p.body|
            && (forall i | 0 <= i < FIELD_BYTES - 1 :: s[i] == 0)
            && s[FIELD_BYTES - 1] == (if p.newConnection then 1 else 0)
            && (forall i | FIELD_BYTES <= i < HEADER_BYTES :: s[i] == Digit(p.uid, HEADER_BYTES - 1 - i))
            && s[HEADER_BYTES..] == p.body
  {
    hide ToBigEndian;
    var flag := if p.newConnection then 1 else 0;
    forall i | 0 <= i < FIELD_BYTES
      ensures ToString(p)[i] == if i == FIELD_BYTES - 1 then flag else 0
    {
      BigEndianDigit(flag, FIELD_BYTES, i);
      SmallDigit(flag, FIELD_BYTES - 1 - i);
    }
    forall i | FIELD_BYTES <= i < HEADER_BYTES
      ensures ToString(p)[i] == Digit(p.uid, HEADER_BYTES - 1 - i)
    {
      BigEndianDigit(p.uid, FIELD_BYTES, i - FIELD_BYTES);
    }
  }

  lemma SmallDigit(n: nat, k: nat)
    requires n < 256
    ensures Digit(n, k) == if k == 0 then n else 0
  {
    if k > 0 {
      SmallDigit(0, k - 1);
    }
  }

  /** How any datagram is read: one shorter than a header is refused; a first field with any byte
      that is not zero announces; the bytes of the second field are the uid's digits, most
      significant first; and the rest is the body. */
  lemma ParsedFormat(s: seq<byte>)
    ensures Parse(s).None? <==> |s| < HEADER_BYTES
    ensures |s| >= HEADER_BYTES ==>
              var p := Parse(s).value;
              && (p.newConnection <==> exists i | 0 <= i < FIELD_BYTES :: s[i] != 0)
              && (forall i | FIELD_BYTES <= i < HEADER_BYTES :: s[i] == Digit(p.uid, HEADER_BYTES - 1 - i))
              && p.body == s[HEADER_BYTES..]
  {
    hide ToBigEndian, FromBigEndian;
    if |s| >= HEADER_BYTES {
      var first, second := s[0..FIELD_BYTES], s[FIELD_BYTES..HEADER_BYTES];
      ToFromBigEndian(second);
      ZeroIffAllZero(first);
      assert forall i | 0 <= i < FIELD_BYTES :: first[i] == s[i];
      forall i | FIELD_BYTES <= i < HEADER_BYTES
        ensures s[i] == Digit(FromBigEndian(second), HEADER_BYTES - 1 - i)
      {
        BigEndianDigit(FromBigEndian(second), FIELD_BYTES, i - FIELD_BYTES);
      }
    }
  }

  lemma {:induction false} ZeroIffAllZero(s: seq<byte>)
    ensures FromBigEndian(s) == 0 <==> forall i | 0 <= i < |s| :: s[i] == 0
  {
    if s != [] {
      var t := s[..|s| - 1];
      ZeroIffAllZero(t);
      assert forall i | 0 <= i < |t| :: t[i] == s[i];
    }
  }

  /** The parts of a datagram that is long enough. */
  lemma ParseParts(s: seq<byte>)
    requires |s| >= HEADER_BYTES
    ensures Parse(s) == Some(Packet(GetHeaderField(0, s).value != 0, GetHeaderField(1, s).value, s[HEADER_BYTES..]))
    ensures s == PutHeaderField(GetHeaderField(0, s).value)
                 + PutHeaderField(GetHeaderField(1, s).value) + s[HEADER_BYTES..]
  {
    ToFromBigEndian(s[0..FIELD_BYTES]);
    ToFromBigEndian(s[FIELD_BYTES..HEADER_BYTES]);
    assert s == s[0..FIELD_BYTES] + s[FIELD_BYTES..HEADER_BYTES] + s[HEADER_BYTES..];
  }

  lemma FieldIsInjective(m: Uid, n: Uid)
    requires PutHeaderField(m) == PutHeaderField(n)
    ensures m == n
  {
    FieldRange();
    FromToBigEndian(m, FIELD_BYTES);
    FromToBigEndian(n, FIELD_BYTES);
  }

  /** Parsing fails exactly on datagrams shorter than a header, and printing what was parsed
      gives the datagram back exactly when its first field is 0 or 1. */
  lemma ToStringParse(s: seq<byte>)
    ensures Parse(s).None? <==> |s| < HEADER_BYTES
    ensures |s| >= HEADER_BYTES ==>
              (ToString(Parse(s).value) == s <==> GetHeaderField(0, s).value <= 1)
  {
    if |s| >= HEADER_BYTES {
      ParseParts(s);
      var flag, uid := GetHeaderField(0, s).value, GetHeaderField(1, s).value;
      var printed: Uid := if flag != 0 then 1 else 0;
      assert ToString(Parse(s).value) == PutHeaderField(printed) + PutHeaderField(uid) + s[HEADER_BYTES..];
      if ToString(Parse(s).value) == s {
        assert PutHeaderField(printed) == s[..FIELD_BYTES] == PutHeaderField(flag);
        FieldIsInjective(printed, flag);
      }
    }
  }

  /** A packet made from one forwarding read fits in 1400 bytes and is never empty on the wire. */
  lemma DatagramBound(p: Packet)
    ensures |ToString(p)| == HEADER_BYTES + |p.body|
    ensures |p.body| <= READ_LIMIT <==> |ToString(p)| <= DATAGRAM_LIMIT
  {
  }
}
