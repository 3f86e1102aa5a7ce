/** Decimal numbers and IPv4 addresses as text: what `to_string`, `atoi` and the numeric
    host functions do to the bytes of an announcement. */
module Text {
  import opened Wrappers

  const DOT: byte := '.' as int
  const COLON: byte := ':' as int
  const PORT_SPACE := 0x1_0000

  type Port = n: nat | n < PORT_SPACE

  datatype Address = Address(a: byte, b: byte, c: byte, d: byte, port: Port)

  /** `Address()`, which no datagram comes from. */
  const NO_ADDRESS := Address(0, 0, 0, 0, 0)

  predicate IsDigit(b: byte) { 48 <= b <= 57 }

  predicate AllDigits(s: seq<byte>) { forall i | 0 <= i < |s| :: IsDigit(s[i]) }

  /** `std::to_string` of a non-negative number. */
  function ToDecimal(n: nat): (s: seq<byte>)
    ensures |s| > 0 && AllDigits(s)
  {
    if n < 10 then [48 + n] else ToDecimal(n / 10) + [48 + n % 10]
  }

  /** The value of the digits at the front of `s`, continuing from `acc`. */
  function LeadingDigits(s: seq<byte>, acc: nat): nat {
    if s == [] || !IsDigit(s[0]) then acc else LeadingDigits(s[1..], 10 * acc + (s[0] - 48))
  }

  function SkipSpace(s: seq<byte>): seq<byte> {
    if s != [] && (s[0] == 32 || 9 <= s[0] <= 13) then SkipSpace(s[1..]) else s
  }

  /** `atoi`: white space, an optional sign, then as many digits as there are. */
  function Atoi(s: seq<byte>): int {
    var t := SkipSpace(s);
    if t != [] && t[0] == 45 then -(LeadingDigits(t[1..], 0) as int)
    else if t != [] && t[0] == 43 then LeadingDigits(t[1..], 0)
    else LeadingDigits(t, 0)
  }

  lemma {:induction false} LeadingDigitsConcat(s: seq<byte>, t: seq<byte>, acc: nat)
    requires AllDigits(s)
    ensures LeadingDigits(s + t, acc) == LeadingDigits(t, LeadingDigits(s, acc))
  {
    if s == [] {
      assert s + t == t;
    } else {
      assert (s + t)[1..] == s[1..] + t;
      LeadingDigitsConcat(s[1..], t, 10 * acc + (s[0] - 48));
    }
  }

  lemma {:induction false} LeadingDigitsOfDecimal(n: nat)
    ensures LeadingDigits(ToDecimal(n), 0) == n
  {
    if n >= 10 {
      LeadingDigitsOfDecimal(n / 10);
      LeadingDigitsConcat(ToDecimal(n / 10), [48 + n % 10], 0);
      assert LeadingDigits([48 + n % 10], n / 10) == LeadingDigits([], 10 * (n / 10) + n % 10);
    }
  }

  /** The last decimal digit after `k` divisions by 10. */
  function DecimalDigit(n: nat, k: nat): nat { if k == 0 then n % 10 else DecimalDigit(n / 10, k - 1) }

  /** Decimal text has the most significant digit first, and no leading zero. */
  lemma {:induction false} DecimalDigits(n: nat)
    ensures var s := ToDecimal(n);
            && (forall i | 0 <= i < |s| :: s[i] == '0' as int + DecimalDigit(n, |s| - 1 - i))
            && (s[0] == '0' as int ==> n == 0)
  {
    if n >= 10 {
      DecimalDigits(n / 10);
    }
  }

  /** `atoi` stops at the first byte that is no digit. */
  lemma AtoiStops(n: nat, rest: seq<byte>)
    requires rest == [] || !IsDigit(rest[0])
    ensures Atoi(ToDecimal(n) + rest) == n
  {
    var s := ToDecimal(n);
    assert IsDigit((s + rest)[0]);
    LeadingDigitsOfDecimal(n);
    LeadingDigitsConcat(s, rest, 0);
  }

  /** `atoi` undoes `to_string`. */
  lemma AtoiOfDecimal(n: nat)
    ensures Atoi(ToDecimal(n)) == n
  {
    assert IsDigit(ToDecimal(n)[0]);
    LeadingDigitsOfDecimal(n);
  }

  /** Splits at the first `sep`, as `find` and two `substr` calls do; None is `npos`. */
  function Cut(s: seq<byte>, sep: byte): (r: Option<(seq<byte>, seq<byte>)>)
    ensures r.None? <==> sep !in s
    ensures r.Some? ==> sep !in r.value.0 && s == r.value.0 + [sep] + r.value.1
  {
    if s == [] then None
    else if s[0] == sep then Some(([], s[1..]))
    else
      match Cut(s[1..], sep)
      case None => None
      case Some((x, y)) => Some(([s[0]] + x, y))
  }

  lemma {:induction false} CutIsUnique(x: seq<byte>, y: seq<byte>, sep: byte)
    requires sep !in x
    ensures Cut(x + [sep] + y, sep) == Some((x, y))
  {
    var s := x + [sep] + y;
    if x == [] {
      assert s[1..] == y;
    } else {
      assert s[1..] == x[1..] + [sep] + y;
      CutIsUnique(x[1..], y, sep);
      assert x == [s[0]] + x[1..];
    }
  }

  /** Four decimal parts, dotted. */
  function FormatHost(a: byte, b: byte, c: byte, d: byte): seq<byte> {
    ToDecimal(a) + [DOT] + (ToDecimal(b) + [DOT] + (ToDecimal(c) + [DOT] + ToDecimal(d)))
  }

  /** `Address::str`: the numeric host, a colon and the port. */
  function FormatAddress(address: Address): seq<byte> {
    FormatHost(address.a, address.b, address.c, address.d) + [COLON] + ToDecimal(address.port)
  }

  function ParseOctet(s: seq<byte>): Option<byte> {
    if s == [] || !AllDigits(s) || LeadingDigits(s, 0) > 255 then None else Some(LeadingDigits(s, 0))
  }

  /** A numeric host of four decimal parts. */
  function ParseHost(s: seq<byte>, port: Port): Option<Address> {
    match Cut(s, DOT)
    case None => None
    case Some((a, s1)) =>
      match Cut(s1, DOT)
      case None => None
      case Some((b, s2)) =>
        match Cut(s2, DOT)
        case None => None
        case Some((c, d)) =>
          match (ParseOctet(a), ParseOctet(b), ParseOctet(c), ParseOctet(d))
          case (Some(x), Some(y), Some(z), Some(w)) => Some(Address(x, y, z, w, port))
          case _ => None
  }

  /** What the server makes of an announcement's body: host before the first colon, `atoi` of
      the rest cut to 16 bits. None covers the missing colon and the host that does not parse. */
  function ParseAddress(body: seq<byte>): Option<Address> {
    match Cut(body, COLON)
    case None => None
    case Some((host, port)) => ParseHost(host, Atoi(port) % PORT_SPACE)
  }

  lemma AddressNeedsColon(body: seq<byte>)
    ensures COLON !in body ==> ParseAddress(body).None?
  {
  }

  lemma ParseOctetOfDecimal(n: byte)
    ensures ParseOctet(ToDecimal(n)) == Some(n) && DOT !in ToDecimal(n) && COLON !in ToDecimal(n)
  {
    LeadingDigitsOfDecimal(n);
  }

  lemma HostRoundTrip(a: byte, b: byte, c: byte, d: byte, port: Port)
    ensures ParseHost(FormatHost(a, b, c, d), port) == Some(Address(a, b, c, d, port))
    ensures COLON !in FormatHost(a, b, c, d)
  {
    ParseOctetOfDecimal(a);
    ParseOctetOfDecimal(b);
    ParseOctetOfDecimal(c);
    ParseOctetOfDecimal(d);
    var cd := ToDecimal(c) + [DOT] + ToDecimal(d);
    var bcd := ToDecimal(b) + [DOT] + cd;
    CutIsUnique(ToDecimal(c), ToDecimal(d), DOT);
    CutIsUnique(ToDecimal(b), cd, DOT);
    CutIsUnique(ToDecimal(a), bcd, DOT);
  }

  lemma ParseParts(host: seq<byte>, port: seq<byte>)
    requires COLON !in host
    ensures ParseAddress(host + [COLON] + port) == ParseHost(host, Atoi(port) % PORT_SPACE)
  {
    CutIsUnique(host, port, COLON);
  }

  /** Every IPv4 address and port survives the trip through its text. */
  lemma AddressRoundTrip(address: Address)
    ensures ParseAddress(FormatAddress(address)) == Some(address)
  {
    hide FormatHost, ParseHost, ParseAddress, ToDecimal, Atoi;
    var Address(a, b, c, d, port) := address;
    HostRoundTrip(a, b, c, d, port);
    AtoiOfDecimal(port);
    ParseParts(FormatHost(a, b, c, d), ToDecimal(port));
  }

  /** The rest of a text after its first `sep`, if it has one. */
  function Rest(s: seq<byte>, sep: byte): seq<byte> {
    match Cut(s, sep)
    case None => []
    case Some((_, rest)) => rest
  }

  /** An address's text holds its four octets and then its port, each in decimal, most significant
      octet first, the octets with dots between them and the port after a colon. */
  lemma AddressFields(address: Address)
    ensures var s := FormatAddress(address);
            && Atoi(s) == address.a && Atoi(Rest(s, DOT)) == address.b
            && Atoi(Rest(Rest(s, DOT), DOT)) == address.c && Atoi(Rest(Rest(Rest(s, DOT), DOT), DOT)) == address.d
            && Atoi(Rest(s, COLON)) == address.port
  {
    hide ToDecimal, Atoi;
    var Address(a, b, c, d, port) := address;
    var tail := [COLON] + ToDecimal(port);
    var d' := ToDecimal(d) + tail;
    var c' := ToDecimal(c) + ([DOT] + d');
    var b' := ToDecimal(b) + ([DOT] + c');
    assert FormatAddress(address) == ToDecimal(a) + ([DOT] + b');
    HostRoundTrip(a, b, c, d, port);
    CutIsUnique(FormatHost(a, b, c, d), ToDecimal(port), COLON);
    AtoiOfDecimal(port);
    CutNumber(a, b');
    CutNumber(b, c');
    CutNumber(c, d');
    AtoiStops(d, tail);
  }

  /** A number in front of a dot. */
  lemma CutNumber(n: byte, rest: seq<byte>)
    ensures Atoi(ToDecimal(n) + ([DOT] + rest)) == n && Rest(ToDecimal(n) + ([DOT] + rest), DOT) == rest
  {
    ParseOctetOfDecimal(n);
    AtoiStops(n, [DOT] + rest);
    CutIsUnique(ToDecimal(n), rest, DOT);
    assert ToDecimal(n) + ([DOT] + rest) == ToDecimal(n) + [DOT] + rest;
  }
}
