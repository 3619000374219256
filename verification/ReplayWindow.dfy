/** Receipt of DTLS records and the sliding window that drops replays, section 4.1.2.6 of RFC 6347. */
module ReplayWindow {
  import opened Bytes
  import opened DtlsWire

  const WINDOW: nat := 64
  const U64: nat := 0x1_0000_0000_0000_0000
  const MAX_PLAIN: nat := 16384                    // SSL3_RT_MAX_PLAIN_LENGTH
  const MAX_ENCRYPTED: nat := 16384 + 256 + 64     // SSL3_RT_MAX_ENCRYPTED_LENGTH
  const DTLS_MAJOR: nat := 0xfe
  const ALERT_RECORD: byte := 21

  /** DTLS1_BITMAP: bit i of the map stands for number maxSeq - i. */
  datatype Window = Window(map_: nat, maxSeq: nat)

  const EMPTY := Window(0, 0)

  /** `dtls1_bitmap_should_discard` */
  predicate ShouldDiscard(w: Window, n: nat) {
    n <= w.maxSeq && (w.maxSeq - n >= WINDOW || HasBit(w.map_, w.maxSeq - n))
  }

  /** `dtls1_bitmap_record`, shifting the 64-bit map out at the top */
  function Record(w: Window, n: nat): Window {
    var slid :=
      if n > w.maxSeq then Window(if n - w.maxSeq >= WINDOW then 0 else Shl(w.map_, n - w.maxSeq) % U64, n)
      else w;
    if slid.maxSeq - n < WINDOW then slid.(map_ := BitOr(slid.map_, Shl(1, slid.maxSeq - n))) else slid
  }

  /** The window tells exactly what was seen among the 64 numbers up to the highest. */
  ghost predicate Tells(w: Window, seen: set<nat>) {
    && (forall n :: n in seen ==> n <= w.maxSeq)
    && (forall i: nat :: i < WINDOW && i <= w.maxSeq ==> (HasBit(w.map_, i) <==> w.maxSeq - i in seen))
    && (w.maxSeq in seen || w.maxSeq == 0)
  }

  // ---- bits under a shift

  lemma {:induction false} ShlBits(x: nat, s: nat, j: nat)
    ensures HasBit(Shl(x, s), j) <==> j >= s && HasBit(x, j - s)
  {
    if s > 0 {
      ShlBits(x, s - 1, if j > 0 then j - 1 else 0);
      Half(Shl(x, s - 1));
    }
  }

  lemma {:induction false} LowBitsKept(x: nat, p: nat, j: nat)
    requires j < p && Shl(1, p) > 0
    ensures HasBit(x % Shl(1, p), j) == HasBit(x, j)
  {
    hide HasBit, Shl;
    ShlTwice(p);
    var m := Shl(1, p - 1);
    OneMore(p - 1);
    HalvesOfMod(x, m);
    if j == 0 {
      LowestBit(x); LowestBit(x % (2 * m));
    } else {
      NextBit(x, j); NextBit(x % (2 * m), j);
      LowBitsKept(x / 2, p - 1, j - 1);
    }
  }

  lemma OneMore(p: nat)
    ensures Shl(1, p) > 0
  {
  }

  lemma HalvesOfMod(x: nat, m: nat)
    requires m > 0
    ensures (x % (2 * m)) % 2 == x % 2 && (x % (2 * m)) / 2 == (x / 2) % m
  {
    var q, r := x / 2, x % 2;
    var a, b := q / m, q % m;
    assert x == a * (2 * m) + (2 * b + r);
    ModAdds(a, 2 * m, 2 * b + r);
  }

  lemma SlidBits(x: nat, s: nat, j: nat)
    requires j < WINDOW
    ensures HasBit(Shl(x, s) % U64, j) <==> j >= s && HasBit(x, j - s)
  {
    hide HasBit, Shl;
    Pow64();
    LowBitsKept(Shl(x, s), WINDOW, j);
    ShlBits(x, s, j);
  }

  // ---- the window refines a set

  lemma EmptyTells()
    ensures Tells(EMPTY, {})
  {
    forall i: nat | i < WINDOW ensures !HasBit(0, i) { ZeroHasNone(i); }
  }

  /** A number is dropped if and only if it was recorded or lies 64 or more below the highest recorded. */
  lemma DiscardIffSeenOrStale(w: Window, seen: set<nat>, n: nat)
    requires Tells(w, seen)
    ensures ShouldDiscard(w, n) <==> n in seen || n + WINDOW <= w.maxSeq
  {
    hide HasBit;
    if n <= w.maxSeq < n + WINDOW { assert w.maxSeq - (w.maxSeq - n) == n; }
  }

  lemma RecordTells(w: Window, seen: set<nat>, n: nat)
    requires Tells(w, seen) && !ShouldDiscard(w, n)
    ensures Tells(Record(w, n), seen + {n})
    ensures Record(w, n).maxSeq == if n > w.maxSeq then n else w.maxSeq
  {
    hide HasBit, BitOr, Shl;
    var w' := Record(w, n);
    forall i: nat | i < WINDOW && i <= w'.maxSeq ensures HasBit(w'.map_, i) <==> w'.maxSeq - i in seen + {n} {
      RecordBit(w, seen, n, i);
    }
  }

  lemma RecordBit(w: Window, seen: set<nat>, n: nat, i: nat)
    requires Tells(w, seen) && !ShouldDiscard(w, n) && i < WINDOW && i <= Record(w, n).maxSeq
    ensures HasBit(Record(w, n).map_, i) <==> Record(w, n).maxSeq - i in seen + {n}
  {
    hide HasBit, BitOr, Shl;
    if n > w.maxSeq {
      var s := n - w.maxSeq;
      var slid := if s >= WINDOW then 0 else Shl(w.map_, s) % U64;
      OrSetsBit(slid, 0, i);
      if s >= WINDOW {
        ZeroHasNone(i);
      } else {
        SlidBits(w.map_, s, i);
        if i >= s { assert w.maxSeq - (i - s) == n - i; }
      }
    } else {
      OrSetsBit(w.map_, w.maxSeq - n, i);
    }
  }

  // ---- opening records

  /** The big-endian value of some bytes. */
  function BigEndian(b: seq<byte>): nat {
    if b == [] then 0 else 256 * BigEndian(b[..|b| - 1]) + b[|b| - 1]
  }

  /** The read half: `r_epoch`, the window, the cipher and whether the peer closed. */
  datatype Rd = Rd(epoch: nat, window: Window, nullCipher: bool, version: nat, closed: bool)

  datatype Result =
    | CloseNotify | Partial | Discard | Overflow
    | Alert(plain: seq<byte>)
    | Success(typ: byte, plain: seq<byte>)

  datatype Wire = Malformed | Wire(typ: byte, version: nat, sequence: seq<byte>, body: seq<byte>, rest: seq<byte>)

  /** A DTLS record header, section 4.1 of RFC 6347, and the bytes it announces. */
  function ParseRecord(b: seq<byte>): (w: Wire)
    ensures w.Wire? ==> |w.sequence| == 8 && |w.body| + |w.rest| + 13 == |b|
  {
    if |b| < 13 then Malformed
    else
      var len := GetU16(b[11..13]);
      if |b| < 13 + len || len > MAX_ENCRYPTED then Malformed
      else Wire(b[0], GetU16(b[1..3]), b[3..11], b[13..13 + len], b[13 + len..])
  }

  predicate VersionOk(rd: Rd, version: nat) {
    if rd.nullCipher then version / 256 == DTLS_MAJOR else version == rd.version
  }

  datatype Out = Out(result: Result, consumed: nat, accepted: Option<nat>, rd: Rd)

  /** `dtls_open_record`. What the AEAD makes of the body is given; the null cipher copies it. */
  function Open(rd: Rd, packet: seq<byte>, clear: Option<seq<byte>>): Out {
    if rd.closed then Out(CloseNotify, 0, None, rd)
    else if packet == [] then Out(Partial, 0, None, rd)
    else
      match ParseRecord(packet)
      case Malformed => Out(Discard, |packet|, None, rd)
      case Wire(typ, version, sequence, body, rest) =>
        var used := |packet| - |rest|;
        var n := BigEndian(sequence);
        if !VersionOk(rd, version) then Out(Discard, |packet|, None, rd)
        else if GetU16(sequence[..2]) != rd.epoch || ShouldDiscard(rd.window, n) then Out(Discard, used, None, rd)
        else
          match (if rd.nullCipher then Some(body) else clear)
          case None => Out(Discard, used, None, rd)
          case Some(plain) =>
            if |plain| > MAX_PLAIN then Out(Overflow, used, None, rd)
            else
              var rd' := rd.(window := Record(rd.window, n));
              Out(if typ == ALERT_RECORD then Alert(plain) else Success(typ, plain), used, Some(n), rd')
  }

  /** The epoch, window and cipher of `dtls1_set_read_state`. */
  function NewEpoch(rd: Rd, nullCipher: bool, version: nat): Rd {
    Rd((rd.epoch + 1) % U16, EMPTY, nullCipher, version, rd.closed)
  }

  /** A record that is dropped, or does not open, leaves the window as it was. */
  lemma FailedOpenChangesNothing(rd: Rd, packet: seq<byte>, clear: Option<seq<byte>>)
    ensures var r := Open(rd, packet, clear);
      && (r.accepted.Some? <==> r.result.Success? || r.result.Alert?)
      && (r.accepted.None? ==> r.rd == rd) && (rd.closed || packet == [] ==> r.consumed == 0)
      && (r.accepted.Some? ==>
        r.rd == rd.(window := Record(rd.window, r.accepted.value)) && !ShouldDiscard(rd.window, r.accepted.value))
  {
    hide ParseRecord, Record, ShouldDiscard;
  }

  /** The top 16 bits of an accepted number are the epoch. */
  lemma NumberHasEpoch(b: seq<byte>)
    requires |b| == 8
    ensures BigEndian(b) / 0x1_0000_0000_0000 == GetU16(b[..2]) && BigEndian(b) < U64
  {
    var b7, b6, b5, b4, b3, b2 := b[..7], b[..6], b[..5], b[..4], b[..3], b[..2];
    assert b7[..6] == b6 && b6[..5] == b5 && b5[..4] == b4 && b4[..3] == b3 && b3[..2] == b2;
    assert BigEndian(b2) == GetU16(b2) by { assert b2[..1][..0] == []; assert BigEndian(b2[..1]) == b2[0]; }
    var e, r := BigEndian(b2), ((((b[2] as int * 256 + b[3]) * 256 + b[4]) * 256 + b[5]) * 256 + b[6]) * 256 + b[7];
    NumberSplits(b, b7, b6, b5, b4, b3, e, r);
  }

  lemma NumberSplits(b: seq<byte>, b7: seq<byte>, b6: seq<byte>, b5: seq<byte>, b4: seq<byte>, b3: seq<byte>, e: nat,
      r: nat)
    requires |b| == 8 && b7 == b[..7] && b6 == b7[..6] && b5 == b6[..5] && b4 == b5[..4] && b3 == b4[..3]
    requires e == BigEndian(b3[..2]) < U16
    requires r == ((((b[2] as int * 256 + b[3]) * 256 + b[4]) * 256 + b[5]) * 256 + b[6]) * 256 + b[7]
    ensures BigEndian(b) == e * 0x1_0000_0000_0000 + r && r < 0x1_0000_0000_0000
  {
    assert BigEndian(b3) == 256 * e + b[2];
    assert BigEndian(b4) == 256 * BigEndian(b3) + b[3];
    assert BigEndian(b5) == 256 * BigEndian(b4) + b[4];
    assert BigEndian(b6) == 256 * BigEndian(b5) + b[5];
    assert BigEndian(b7) == 256 * BigEndian(b6) + b[6];
    assert BigEndian(b) == 256 * BigEndian(b7) + b[7];
  }

  // ---- packets

  /** A record as it lies on the wire. */
  datatype Framed = Framed(typ: byte, version: nat, sequence: seq<byte>, body: seq<byte>)

  predicate Proper(r: Framed) {
    r.version < U16 && |r.sequence| == 8 && |r.body| < U16
  }

  function Frame(r: Framed): (b: seq<byte>)
    requires Proper(r)
    ensures |b| == 13 + |r.body|
  {
    [r.typ] + PutU16(r.version) + r.sequence + PutU16(|r.body|) + r.body
  }

  lemma FrameParses(r: Framed, more: seq<byte>)
    requires Proper(r)
    ensures ParseRecord(Frame(r) + more) ==
      if |r.body| <= MAX_ENCRYPTED then Wire(r.typ, r.version, r.sequence, r.body, more) else Malformed
  {
    hide PutU16, GetU16;
    var b := Frame(r) + more;
    assert b[1..3] == PutU16(r.version) && b[3..11] == r.sequence && b[11..13] == PutU16(|r.body|);
    NumbersRoundTrip(r.version);
    NumbersRoundTrip(|r.body|);
    assert b[13..13 + |r.body|] == r.body && b[13 + |r.body|..] == more;
  }

  /** What comes of a record does not depend on what follows it in the packet, and no more than the record is consumed,
      dropped or not. A version that is not expected, or a length over the limit, drops the rest of the packet. */
  lemma RecordStandsAlone(rd: Rd, r: Framed, more: seq<byte>, clear: Option<seq<byte>>)
    requires Proper(r) && !rd.closed
    ensures var whole, alone := Open(rd, Frame(r) + more, clear), Open(rd, Frame(r), clear);
      if |r.body| <= MAX_ENCRYPTED && VersionOk(rd, r.version) then whole == alone && whole.consumed == |Frame(r)|
      else whole == Out(Discard, |Frame(r) + more|, None, rd)
  {
    hide ParseRecord, Frame, Record, ShouldDiscard, BigEndian, GetU16, VersionOk;
    FrameParses(r, more);
    FrameParses(r, []);
    assert Frame(r) + [] == Frame(r);
  }

  /** What the AEAD makes of a body; without a cipher it is left as it is. */
  function Opened(rd: Rd, body: seq<byte>, clear: Option<seq<byte>>): Option<seq<byte>> {
    if rd.nullCipher then Some(body) else clear
  }

  /** The version on a record: any DTLS version before there is a cipher, and the negotiated one from then on. */
  predicate RightVersion(rd: Rd, version: nat) {
    if rd.nullCipher then 0xfe00 <= version <= 0xfeff else version == rd.version
  }

  /** A record at the head of a packet is accepted exactly if version, epoch and number are right, it opens, and what is
      in it is no longer than a record may be. */
  lemma AcceptedIff(rd: Rd, r: Framed, more: seq<byte>, clear: Option<seq<byte>>)
    requires Proper(r) && !rd.closed
    ensures var o, n, plain := Open(rd, Frame(r) + more, clear), BigEndian(r.sequence), Opened(rd, r.body, clear);
      && (o.accepted.Some? <==>
        && |r.body| <= 16704 && RightVersion(rd, r.version) && GetU16(r.sequence[..2]) == rd.epoch
        && !ShouldDiscard(rd.window, n) && plain.Some? && |plain.value| <= 16384)
      && (o.accepted.Some? ==>
        && o.accepted == Some(n)
        && o.result == if r.typ == 21 then Alert(plain.value) else Success(r.typ, plain.value))
  {
    hide ParseRecord, Frame, Record, ShouldDiscard, BigEndian, GetU16;
    FrameParses(r, more);
    assert 0xfe00 <= r.version <= 0xfeff <==> r.version / 256 == DTLS_MAJOR;
  }

  function Frames(rs: seq<Framed>): seq<byte>
    requires forall r :: r in rs ==> Proper(r)
  {
    if rs == [] then [] else Frame(rs[0]) + Frames(rs[1..])
  }

  /** The caller goes on with what was not consumed. */
  function OpenPacket(rd: Rd, packet: seq<byte>, clears: seq<Option<seq<byte>>>): seq<Result>
    requires !rd.closed
    decreases |packet|
  {
    if packet == [] then []
    else
      var o := Open(rd, packet, if clears == [] then None else clears[0]);
      Progress(rd, packet, if clears == [] then None else clears[0]);
      [o.result] + OpenPacket(o.rd, packet[o.consumed..], if clears == [] then [] else clears[1..])
  }

  lemma Progress(rd: Rd, packet: seq<byte>, clear: Option<seq<byte>>)
    requires !rd.closed && packet != []
    ensures var o := Open(rd, packet, clear); 0 < o.consumed <= |packet| && !o.rd.closed
  {
    hide Record, ShouldDiscard, BigEndian, GetU16, VersionOk;
  }

  /** Each record opened by itself. */
  function OpenEach(rd: Rd, rs: seq<Framed>, clears: seq<Option<seq<byte>>>): seq<Result>
    requires forall r :: r in rs ==> Proper(r)
    decreases |rs|
  {
    if rs == [] then []
    else
      var o := Open(rd, Frame(rs[0]), if clears == [] then None else clears[0]);
      [o.result] + OpenEach(o.rd, rs[1..], if clears == [] then [] else clears[1..])
  }

  /** So the records of one packet fare as in packets of their own: a replay, a forgery or a record of another epoch
      takes nothing with it. */
  lemma {:induction false} PacketIsItsRecords(rd: Rd, rs: seq<Framed>, clears: seq<Option<seq<byte>>>)
    requires !rd.closed && forall r :: r in rs ==>
      Proper(r) && |r.body| <= MAX_ENCRYPTED && VersionOk(rd, r.version)
    ensures OpenPacket(rd, Frames(rs), clears) == OpenEach(rd, rs, clears)
    decreases |rs|
  {
    hide Open, Frame, VersionOk;
    if rs != [] {
      assert rs[0] in rs && forall r :: r in rs[1..] ==> r in rs;
      var clear := if clears == [] then None else clears[0];
      var packet, more := Frames(rs), Frames(rs[1..]);
      RecordStandsAlone(rd, rs[0], more, clear);
      var o := Open(rd, packet, clear);
      Progress(rd, packet, clear);
      assert packet[o.consumed..] == more;
      SameVersion(rd, packet, clear, rs[1..]);
      PacketIsItsRecords(o.rd, rs[1..], if clears == [] then [] else clears[1..]);
    }
  }

  lemma SameVersion(rd: Rd, packet: seq<byte>, clear: Option<seq<byte>>, rs: seq<Framed>)
    requires forall r :: r in rs ==> VersionOk(rd, r.version)
    ensures forall r :: r in rs ==> VersionOk(Open(rd, packet, clear).rd, r.version)
  {
    hide ParseRecord, Record, ShouldDiscard, BigEndian, GetU16;
  }

  // ---- whole runs

  datatype Event = Packet(bytes: seq<byte>, clear: Option<seq<byte>>) | ReadState(nullCipher: bool, version: nat)

  /** How often the read state was set, and every number accepted, with the count at that time. */
  datatype Run = Run(rd: Rd, changes: nat, log: seq<(nat, nat)>)

  function Do(r: Run, e: Event): Run {
    match e
    case Packet(bytes, clear) =>
      var o := Open(r.rd, bytes, clear);
      Run(o.rd, r.changes, if o.accepted.Some? then r.log + [(r.changes, o.accepted.value)] else r.log)
    case ReadState(nullCipher, version) => Run(NewEpoch(r.rd, nullCipher, version), r.changes + 1, r.log)
  }

  function Exec(r: Run, es: seq<Event>): Run
    decreases |es|
  {
    if es == [] then r else Exec(Do(r, es[0]), es[1..])
  }

  ghost function Seen(log: seq<(nat, nat)>, changes: nat): set<nat> {
    set p | p in log && p.0 == changes :: p.1
  }

  ghost predicate Distinct(log: seq<(nat, nat)>) {
    forall i, j :: 0 <= i < j < |log| ==> log[i] != log[j]
  }

  ghost predicate Inv(r: Run) {
    && r.rd.epoch == r.changes % U16 && Tells(r.rd.window, Seen(r.log, r.changes)) && Distinct(r.log)
    && (forall p :: p in r.log ==> p.0 <= r.changes && p.1 / 0x1_0000_0000_0000 == p.0 % U16)
  }

  lemma PacketKeeps(r: Run, bytes: seq<byte>, clear: Option<seq<byte>>)
    requires Inv(r)
    ensures Inv(Do(r, Packet(bytes, clear)))
  {
    hide ParseRecord, Record, ShouldDiscard, BigEndian, Tells, GetU16, VersionOk;
    var o := Open(r.rd, bytes, clear);
    FailedOpenChangesNothing(r.rd, bytes, clear);
    if o.accepted.Some? {
      var n := o.accepted.value;
      NumberHasEpoch(ParseRecord(bytes).sequence);
      DiscardIffSeenOrStale(r.rd.window, Seen(r.log, r.changes), n);
      RecordTells(r.rd.window, Seen(r.log, r.changes), n);
      var log' := r.log + [(r.changes, n)];
      assert Seen(log', r.changes) == Seen(r.log, r.changes) + {n} by {
        assert (r.changes, n) in log';
        assert forall p :: p in r.log ==> p in log';
      }
      assert (r.changes, n) !in r.log;
    }
  }

  lemma ReadStateKeeps(r: Run, nullCipher: bool, version: nat)
    requires Inv(r)
    ensures Inv(Do(r, ReadState(nullCipher, version)))
  {
    hide Tells;
    EmptyTells();
    assert Seen(r.log, r.changes + 1) == {};
  }

  lemma {:induction false} ExecKeeps(r: Run, es: seq<Event>)
    requires Inv(r)
    ensures Inv(Exec(r, es))
    decreases |es|
  {
    hide Do, Inv;
    if es != [] {
      match es[0] {
        case Packet(bytes, clear) => PacketKeeps(r, bytes, clear);
        case ReadState(nullCipher, version) => ReadStateKeeps(r, nullCipher, version);
      }
      ExecKeeps(Do(r, es[0]), es[1..]);
    }
  }

  function Start(nullCipher: bool, version: nat): Run {
    Run(Rd(0, EMPTY, nullCipher, version, false), 0, [])
  }

  lemma StartInv(nullCipher: bool, version: nat)
    ensures Inv(Start(nullCipher, version))
  {
    hide Tells;
    EmptyTells();
    assert Seen([], 0) == {};
  }

  /** After every run a number is dropped if and only if it was accepted since the read state was last set, or one at
      least 64 higher was. */
  lemma WindowOfRun(nullCipher: bool, version: nat, es: seq<Event>, n: nat)
    ensures var r := Exec(Start(nullCipher, version), es);
      ShouldDiscard(r.rd.window, n) <==> exists p :: p in r.log && p.0 == r.changes && (p.1 == n || n + WINDOW <= p.1)
  {
    hide Exec, ShouldDiscard;
    StartInv(nullCipher, version);
    ExecKeeps(Start(nullCipher, version), es);
    var r := Exec(Start(nullCipher, version), es);
    var seen := Seen(r.log, r.changes);
    DiscardIffSeenOrStale(r.rd.window, seen, n);
    assert forall p :: p in r.log && p.0 == r.changes ==> p.1 in seen;
    if n in seen { assert (r.changes, n) in r.log; }
    if n + WINDOW <= r.rd.window.maxSeq { assert (r.changes, r.rd.window.maxSeq) in r.log; }
  }

  /** So after every run, a record in its place is accepted exactly if its version is right, its epoch is the number of
      changes modulo 2^16, its number was not accepted since the last of them nor one at least 64 higher, and it opens
      to no more than a record may hold. */
  lemma AcceptedAfterRun(nullCipher: bool, version: nat, es: seq<Event>, r: Framed, more: seq<byte>,
      clear: Option<seq<byte>>)
    requires Proper(r) && |r.body| <= 16704
    ensures var run, n := Exec(Start(nullCipher, version), es), BigEndian(r.sequence);
      var plain := Opened(run.rd, r.body, clear);
      Open(run.rd, Frame(r) + more, clear).accepted.Some? <==>
        && RightVersion(run.rd, r.version) && GetU16(r.sequence[..2]) == run.changes % U16
        && (forall p :: p in run.log && p.0 == run.changes ==> p.1 != n && p.1 < n + WINDOW)
        && plain.Some? && |plain.value| <= 16384
  {
    hide Exec, ShouldDiscard, Open, Frame, BigEndian, GetU16, RightVersion, Tells;
    var run := Exec(Start(nullCipher, version), es);
    StartInv(nullCipher, version);
    ExecKeeps(Start(nullCipher, version), es);
    StaysOpen(Start(nullCipher, version), es);
    WindowOfRun(nullCipher, version, es, BigEndian(r.sequence));
    AcceptedIff(run.rd, r, more, clear);
  }

  lemma {:induction false} StaysOpen(r: Run, es: seq<Event>)
    requires !r.rd.closed
    ensures !Exec(r, es).rd.closed
    decreases |es|
  {
    hide ParseRecord, Record, ShouldDiscard, BigEndian, GetU16, VersionOk;
    if es != [] { StaysOpen(Do(r, es[0]), es[1..]); }
  }

  /** In every run no record number is accepted twice within an epoch, and across epochs only when the 16-bit epoch has
      gone all the way round in between. */
  lemma NoRecordTwice(nullCipher: bool, version: nat, es: seq<Event>, i: nat, j: nat)
    requires i < j < |Exec(Start(nullCipher, version), es).log|
    ensures var log := Exec(Start(nullCipher, version), es).log;
      log[i].1 == log[j].1 ==> log[i].0 != log[j].0 && log[i].0 % U16 == log[j].0 % U16
  {
    hide Exec;
    EmptyTells();
    assert Seen([], 0) == {};
    ExecKeeps(Start(nullCipher, version), es);
    var log := Exec(Start(nullCipher, version), es).log;
    assert log[i] in log && log[j] in log;
  }

  /** k cipher changes without a record in between. */
  function Changed(rd: Rd, k: nat): Rd {
    if k == 0 then rd else NewEpoch(Changed(rd, k - 1), rd.nullCipher, rd.version)
  }

  lemma {:induction false} ChangedIs(rd: Rd, k: nat)
    requires k > 0
    ensures Changed(rd, k) == Rd((rd.epoch + k) % U16, EMPTY, rd.nullCipher, rd.version, rd.closed)
  {
    if k > 1 { ChangedIs(rd, k - 1); }
  }

  /** After exactly 65536 changes the same bytes, under the same keys, are accepted once more. */
  lemma EpochWrapForgets(rd: Rd, bytes: seq<byte>, clear: Option<seq<byte>>)
    requires rd.epoch < U16 && Open(rd, bytes, clear).accepted.Some?
    ensures Open(Changed(Open(rd, bytes, clear).rd, U16), bytes, clear).accepted == Open(rd, bytes, clear).accepted
  {
    hide ParseRecord, Record, BigEndian, GetU16, Changed;
    ChangedIs(Open(rd, bytes, clear).rd, U16);
  }

  lemma {:induction false} ExecAppend(r: Run, a: seq<Event>, b: seq<Event>)
    ensures Exec(r, a + b) == Exec(Exec(r, a), b)
    decreases |a|
  {
    hide Do;
    if a == [] {
      assert a + b == b;
    } else {
      assert (a + b)[1..] == a[1..] + b;
      ExecAppend(Do(r, a[0]), a[1..], b);
    }
  }

  lemma {:induction false} ChangesAre(r: Run, k: nat)
    ensures Exec(r, seq(k, _ => ReadState(r.rd.nullCipher, r.rd.version))) ==
      Run(Changed(r.rd, k), r.changes + k, r.log)
    ensures Changed(r.rd, k).nullCipher == r.rd.nullCipher && Changed(r.rd, k).version == r.rd.version
  {
    var e := ReadState(r.rd.nullCipher, r.rd.version);
    if k > 0 {
      ChangesAre(r, k - 1);
      assert seq(k, _ => e) == seq(k - 1, _ => e) + [e];
      ExecAppend(r, seq(k - 1, _ => e), [e]);
    }
  }

  /** Number 0 of epoch 0, with an empty body. */
  const FIRST_RECORD: seq<byte> := [22, 0xfe, 0xfd, 0, 0, 0, 0, 0, 0, 0, 0, 0, 0]

  lemma FirstAccepted(rd: Rd)
    requires rd.epoch == 0 && rd.window == EMPTY && rd.version == 0xfefd && !rd.nullCipher && !rd.closed
    ensures Open(rd, FIRST_RECORD, Some([])).accepted == Some(0)
  {
    hide Record, HasBit;
    var sequence := FIRST_RECORD[3..11];
    assert ParseRecord(FIRST_RECORD) == Wire(22, 0xfefd, sequence, [], []);
    assert sequence[..2] == [0, 0];
    forall i: nat | i < 64 ensures !HasBit(0, i) { ZeroHasNone(i); }
    ZerosAreZero(sequence);
  }

  lemma {:induction false} ZerosAreZero(b: seq<byte>)
    requires forall i :: 0 <= i < |b| ==> b[i] == 0
    ensures BigEndian(b) == 0
  {
    if b != [] { ZerosAreZero(b[..|b| - 1]); }
  }

  ghost predicate Twice(log: seq<(nat, nat)>) {
    exists i, j :: 0 <= i < j < |log| && log[i].1 == log[j].1
  }

  lemma AcceptedTwice()
    ensures exists es :: Exec(Start(false, 0xfefd), es).changes == U16 && Twice(Exec(Start(false, 0xfefd), es).log)
  {
    hide Open, Changed, Exec;
    var start := Start(false, 0xfefd);
    var p := Packet(FIRST_RECORD, Some([]));
    var changes := seq(U16, _ => ReadState(false, 0xfefd));
    FirstAccepted(start.rd);
    FailedOpenChangesNothing(start.rd, FIRST_RECORD, Some([]));
    var first := Do(start, p);
    ChangesAre(first, U16);
    ChangedIs(first.rd, U16);
    var second := Exec(first, changes);
    FirstAccepted(second.rd);
    ExecAppend(start, [p], changes);
    ExecAppend(start, [p] + changes, [p]);
    ExecOne(start, p);
    ExecOne(second, p);
    var log := Exec(start, [p] + changes + [p]).log;
    assert log[0].1 == log[1].1;
  }

  lemma ExecOne(r: Run, e: Event)
    ensures Exec(r, [e]) == Do(r, e)
  {
    hide Do;
  }

  /** No record is accepted twice, for certain, exactly as long as the read state is set fewer than 65536 times. */
  lemma OnceIffEpochsLast(limit: nat)
    ensures (forall nullCipher, version, es :: Exec(Start(nullCipher, version), es).changes <= limit ==>
      !Twice(Exec(Start(nullCipher, version), es).log))
      <==> limit < U16
  {
    hide Exec, Twice;
    AcceptedTwice();
    if limit < U16 {
      forall nullCipher, version, es | Exec(Start(nullCipher, version), es).changes <= limit
        ensures !Twice(Exec(Start(nullCipher, version), es).log)
      {
        NotTwice(nullCipher, version, es);
      }
    }
  }

  lemma NotTwice(nullCipher: bool, version: nat, es: seq<Event>)
    requires Exec(Start(nullCipher, version), es).changes < U16
    ensures !Twice(Exec(Start(nullCipher, version), es).log)
  {
    hide Exec;
    var r := Exec(Start(nullCipher, version), es);
    if Twice(r.log) {
      var i, j :| 0 <= i < j < |r.log| && r.log[i].1 == r.log[j].1;
      CountsBelow(nullCipher, version, es);
      assert r.log[i] in r.log && r.log[j] in r.log;
      NoRecordTwice(nullCipher, version, es, i, j);
    }
  }

  lemma CountsBelow(nullCipher: bool, version: nat, es: seq<Event>)
    ensures var r := Exec(Start(nullCipher, version), es); forall p :: p in r.log ==> p.0 <= r.changes
  {
    hide Exec;
    EmptyTells();
    assert Seen([], 0) == {};
    ExecKeeps(Start(nullCipher, version), es);
  }

  // ---- the implementation

  lemma {:induction false} OrCommutes(a: nat, b: nat)
    ensures BitOr(a, b) == BitOr(b, a)
    decreases a + b
  {
    if a > 0 && b > 0 { OrCommutes(a / 2, b / 2); }
  }

  /** Shifting a byte in at the bottom. */
  lemma ShiftIn(x: nat, b: byte)
    requires 256 * x < U64
    ensures BitOr(Shl(x, 8) % U64, b) == 256 * x + b
  {
    hide BitOr, LowClear;
    assert Shl(1, 8) == 256 by { Pow14(); }
    assert Shl(x, 8) == 2 * Shl(x, 7) == 256 * x by { Shl7(x, 0); }
    OrCommutes(256 * x, b);
    ShlLowClear(x, 8);
    BitOrIsSum(b, 256 * x, 8);
  }

  lemma {:induction false} BigEndianFits(b: seq<byte>, n: nat)
    requires |b| == n
    ensures BigEndian(b) < Power256(n)
  {
    if n > 0 { BigEndianFits(b[..n - 1], n - 1); }
  }

  function Power256(n: nat): nat {
    if n == 0 then 1 else 256 * Power256(n - 1)
  }

  lemma Power256s()
    ensures Power256(8) == U64
  {
    assert Power256(2) == 0x1_0000;
    assert Power256(4) == 0x1_0000_0000;
    assert Power256(6) == 0x1_0000_0000_0000;
  }

  lemma {:induction false} Power256Grows(m: nat, n: nat)
    requires m <= n
    ensures Power256(m) <= Power256(n)
  {
    if m < n { Power256Grows(m, n - 1); }
  }

  /** `to_u64_be` */
  method ToU64(b: seq<byte>) returns (n: nat)
    requires |b| == 8
    ensures n == BigEndian(b)
  {
    hide BigEndian, BitOr, Shl, Power256;
    n := 0;
    EmptyIsZero(b);
    for i := 0 to 8
      invariant n == BigEndian(b[..i])
    {
      OneMoreByte(b, i);
      n := Shl(n, 8) % U64;
      n := BitOr(n, b[i]);
    }
    assert b[..8] == b;
  }

  lemma EmptyIsZero(b: seq<byte>)
    ensures BigEndian(b[..0]) == 0
  {
  }

  lemma OneMoreByte(b: seq<byte>, i: nat)
    requires |b| == 8 && i < 8
    ensures BigEndian(b[..i + 1]) == BitOr(Shl(BigEndian(b[..i]), 8) % U64, b[i])
  {
    hide BitOr, Shl;
    var x := BigEndian(b[..i]);
    assert b[..i + 1][..i] == b[..i];
    BigEndianFits(b[..i], i);
    Power256Grows(i + 1, 8);
    Power256s();
    ShiftIn(x, b[i]);
  }

  class Reader {
    var epoch: nat
    var map_: nat
    var maxSeq: nat
    var nullCipher: bool
    var version: nat
    var closed: bool

    ghost function State(): Rd
      reads this
    {
      Rd(epoch, Window(map_, maxSeq), nullCipher, version, closed)
    }

    constructor (nullCipher: bool, version: nat)
      ensures State() == Start(nullCipher, version).rd
    {
      epoch, map_, maxSeq, closed := 0, 0, 0, false;
      this.nullCipher, this.version := nullCipher, version;
    }

    /** `dtls1_bitmap_should_discard`; the and with one shifted bit is a test of that bit. */
    method IsStale(sequence: seq<byte>) returns (r: bool)
      requires |sequence| == 8
      ensures r == ShouldDiscard(State().window, BigEndian(sequence))
    {
      var n := ToU64(sequence);
      if n > maxSeq {
        return false;
      }
      var idx := maxSeq - n;
      r := idx >= WINDOW || HasBit(map_, idx);
    }

    /** `dtls1_bitmap_record` */
    method RecordNumber(sequence: seq<byte>)
      requires |sequence| == 8
      modifies this`map_, this`maxSeq
      ensures State() == old(State()).(window := Record(old(State().window), BigEndian(sequence)))
    {
      hide BitOr, Shl;
      var n := ToU64(sequence);
      if n > maxSeq {
        var shift := n - maxSeq;
        if shift >= WINDOW {
          map_ := 0;
        } else {
          map_ := Shl(map_, shift) % U64;
        }
        maxSeq := n;
      }
      var idx := maxSeq - n;
      if idx < WINDOW {
        map_ := BitOr(map_, Shl(1, idx));
      }
    }

    /** `dtls_open_record`, given what the AEAD makes of the body */
    method OpenRecord(packet: seq<byte>, clear: Option<seq<byte>>) returns (result: Result, consumed: nat)
      modifies this`map_, this`maxSeq
      ensures var o := Open(old(State()), packet, clear);
        result == o.result && consumed == o.consumed && State() == o.rd
    {
      hide ParseRecord, Record, ShouldDiscard, BigEndian;
      if closed {
        return CloseNotify, 0;
      }
      if packet == [] {
        return Partial, 0;
      }
      var w := ParseRecord(packet);
      if w.Malformed? {
        return Discard, |packet|;
      }
      var versionOk := if nullCipher then w.version / 256 == DTLS_MAJOR else w.version == version;
      if !versionOk {
        return Discard, |packet|;
      }
      consumed := |packet| - |w.rest|;
      if GetU16(w.sequence[..2]) != epoch {
        return Discard, consumed;
      }
      var stale := IsStale(w.sequence);
      if stale {
        return Discard, consumed;
      }
      var plain := if nullCipher then Some(w.body) else clear;
      if plain.None? {
        return Discard, consumed;
      }
      if |plain.value| > MAX_PLAIN {
        return Overflow, consumed;
      }
      RecordNumber(w.sequence);
      result := if w.typ == ALERT_RECORD then Alert(plain.value) else Success(w.typ, plain.value);
    }

    /** The record layer's part of `dtls1_set_read_state` */
    method SetReadState(nullCipher: bool, version: nat)
      modifies this
      ensures State() == NewEpoch(old(State()), nullCipher, version)
    {
      epoch := (epoch + 1) % U16;
      map_, maxSeq := 0, 0;
      this.nullCipher, this.version := nullCipher, version;
    }
  }
}
