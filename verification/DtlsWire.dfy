/** The header of a DTLS handshake fragment, section 4.2.2 of RFC 6347, as bytes. */
module DtlsWire {
  import opened Bytes

  const HEADER: nat := 12 // DTLS1_HM_HEADER_LENGTH
  const K: nat := 7       // SSL_MAX_HANDSHAKE_FLIGHT, the messages of a flight and the slots of the ring
  const U16: nat := 0x1_0000
  const U24: nat := 0x100_0000

  datatype Header = Header(typ: byte, msgLen: nat, seqNo: nat, off: nat, len: nat)

  /** Fields within their width on the wire. */
  predicate InRange(h: Header) {
    h.msgLen < U24 && h.seqNo < U16 && h.off < U24 && h.len < U24
  }

  function LowByte(n: nat): byte {
    n % 256
  }

  function PutU16(n: nat): (b: seq<byte>)
    ensures |b| == 2
  {
    [LowByte(n / 256), LowByte(n)]
  }

  function PutU24(n: nat): (b: seq<byte>)
    ensures |b| == 3
  {
    [LowByte(n / U16), LowByte(n / 256), LowByte(n)]
  }

  function GetU16(b: seq<byte>): (n: nat)
    requires |b| == 2
    ensures n < U16
  {
    256 * (b[0] as int) + b[1]
  }

  function GetU24(b: seq<byte>): (n: nat)
    requires |b| == 3
    ensures n < U24
  {
    U16 * (b[0] as int) + 256 * (b[1] as int) + b[2]
  }

  function PutHeader(h: Header): (b: seq<byte>)
    ensures |b| == HEADER
  {
    [h.typ] + PutU24(h.msgLen) + PutU16(h.seqNo) + PutU24(h.off) + PutU24(h.len)
  }

  datatype Parsed = Broken | Parsed(h: Header, body: seq<byte>, rest: seq<byte>)

  /** `dtls1_parse_fragment`: a header and as many bytes as it announces. */
  function ParseFragment(b: seq<byte>): (p: Parsed)
    ensures p.Parsed? ==> |p.rest| < |b| && |p.body| == p.h.len && InRange(p.h)
  {
    if |b| < HEADER then Broken
    else
      var h := Header(b[0], GetU24(b[1..4]), GetU16(b[4..6]), GetU24(b[6..9]), GetU24(b[9..12]));
      if |b| < HEADER + h.len then Broken else Parsed(h, b[HEADER..HEADER + h.len], b[HEADER + h.len..])
  }

  lemma NumbersRoundTrip(n: nat)
    ensures n < U16 ==> GetU16(PutU16(n)) == n
    ensures n < U24 ==> GetU24(PutU24(n)) == n
  {
    var low, mid := n % 256, n / 256;
    assert mid / 256 == n / U16;
  }

  lemma HeaderPieces(h: Header)
    ensures var b := PutHeader(h);
      b[0] == h.typ && b[1..4] == PutU24(h.msgLen) && b[4..6] == PutU16(h.seqNo) && b[6..9] == PutU24(h.off)
        && b[9..12] == PutU24(h.len)
  {
    hide PutU16, PutU24;
  }

  /** A fragment is parsed back as it was written, whatever follows. */
  lemma FragmentRoundTrip(h: Header, body: seq<byte>, rest: seq<byte>)
    requires InRange(h) && |body| == h.len
    ensures ParseFragment(PutHeader(h) + body + rest) == Parsed(h, body, rest)
  {
    hide PutHeader, PutU16, PutU24, GetU16, GetU24;
    var p := PutHeader(h);
    var b := p + body + rest;
    HeaderPieces(h);
    assert b[0] == p[0] && b[1..4] == p[1..4] && b[4..6] == p[4..6] && b[6..9] == p[6..9] && b[9..12] == p[9..12];
    NumbersRoundTrip(h.msgLen); NumbersRoundTrip(h.seqNo); NumbersRoundTrip(h.off); NumbersRoundTrip(h.len);
    assert b[HEADER..HEADER + h.len] == body && b[HEADER + h.len..] == rest;
  }

  lemma Digits(hi: nat, lo: byte)
    ensures (256 * hi + lo as int) / 256 == hi && (256 * hi + lo as int) % 256 == lo as int
  {
  }

  lemma WordsRoundTrip(b: seq<byte>)
    ensures |b| == 2 ==> PutU16(GetU16(b)) == b
    ensures |b| == 3 ==> PutU24(GetU24(b)) == b
  {
    if |b| == 2 {
      Digits(b[0], b[1]);
    } else if |b| == 3 {
      var high := 256 * (b[0] as int) + b[1];
      Digits(high, b[2]);
      Digits(b[0], b[1]);
      var n := GetU24(b);
      assert n == 256 * high + b[2];
      assert n / U16 == high / 256 == b[0] by { HighByte(n); }
    }
  }

  lemma HighByte(n: nat)
    ensures n / U16 == n / 256 / 256
  {
  }

  /** What is parsed is just what was written: no other bytes give this fragment. */
  lemma ParsedIsWritten(b: seq<byte>)
    requires ParseFragment(b).Parsed?
    ensures var p := ParseFragment(b); b == PutHeader(p.h) + p.body + p.rest
  {
    hide PutU16, PutU24, GetU16, GetU24;
    var h := ParseFragment(b).h;
    WordsRoundTrip(b[1..4]); WordsRoundTrip(b[4..6]); WordsRoundTrip(b[6..9]); WordsRoundTrip(b[9..12]);
    assert b[..HEADER] == PutHeader(h);
    assert b == b[..HEADER] + b[HEADER..HEADER + h.len] + b[HEADER + h.len..];
  }
}
