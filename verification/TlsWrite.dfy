/** The TLS write path: sealed bytes on the wire, in the write buffer and in the pending flight. What the transport, the
    AEAD and the allocator do is given. */
module TlsWrite {
  import opened Bytes
  import opened SslBuffer

  const ALERT: byte := 21
  const HANDSHAKE: byte := 22
  const APPLICATION_DATA: byte := 23
  const MAX_PLAIN: nat := 16384 // SSL3_RT_MAX_PLAIN_LENGTH

  /** A sealed record. */
  datatype Rec = Rec(typ: byte, plain: seq<byte>, bytes: seq<byte>)

  /** The bytes of records, in the order they were sealed. */
  function WireOf(sealed: seq<Rec>): seq<byte> {
    if sealed == [] then [] else WireOf(sealed[..|sealed| - 1]) + sealed[|sealed| - 1].bytes
  }

  /** The plaintext of the records of one type. */
  function PlainOf(typ: byte, sealed: seq<Rec>): seq<byte> {
    if sealed == [] then []
    else
      var last := sealed[|sealed| - 1];
      PlainOf(typ, sealed[..|sealed| - 1]) + if last.typ == typ then last.plain else []
  }

  lemma OneMore(sealed: seq<Rec>, r: Rec, typ: byte)
    ensures WireOf(sealed + [r]) == WireOf(sealed) + r.bytes
    ensures PlainOf(typ, sealed + [r]) == PlainOf(typ, sealed) + if r.typ == typ then r.plain else []
  {
    assert (sealed + [r])[..|sealed|] == sealed;
  }

  predicate OffsetOk(flight: Option<seq<byte>>, offset: nat) {
    if flight.None? then offset == 0 else offset <= |flight.value|
  }

  /** What is left of the pending flight. */
  function TailOf(flight: Option<seq<byte>>, offset: nat): seq<byte> {
    if flight.None? || offset > |flight.value| then [] else flight.value[offset..]
  }

  predicate InOrder(wire: seq<byte>, held: seq<byte>, tail: seq<byte>, sealed: seq<Rec>) {
    wire + held + tail == WireOf(sealed)
  }

  // ---- what moves bytes keeps the order

  lemma BufferToWire(wire: seq<byte>, held: seq<byte>, tail: seq<byte>, sealed: seq<Rec>, n: nat)
    requires InOrder(wire, held, tail, sealed) && n <= |held|
    ensures InOrder(wire + held[..n], held[n..], tail, sealed)
  {
    assert held[..n] + held[n..] == held;
    assert wire + held[..n] + held[n..] == wire + held;
  }

  lemma FlightToWire(wire: seq<byte>, flight: seq<byte>, offset: nat, sealed: seq<Rec>, n: nat)
    requires InOrder(wire, [], TailOf(Some(flight), offset), sealed) && offset + n <= |flight|
    ensures InOrder(wire + flight[offset..][..n], [], TailOf(Some(flight), offset + n), sealed)
  {
    var tail := flight[offset..];
    assert tail[..n] + flight[offset + n..] == tail;
    assert wire + [] == wire && wire + tail[..n] + [] == wire + tail[..n];
    assert wire + tail[..n] + flight[offset + n..] == wire + tail;
  }

  lemma FlightToBuffer(wire: seq<byte>, held: seq<byte>, tail: seq<byte>, sealed: seq<Rec>)
    requires InOrder(wire, held, tail, sealed)
    ensures InOrder(wire, held + tail, [], sealed)
  {
    assert wire + (held + tail) + [] == wire + held + tail;
  }

  lemma SealedInFlight(wire: seq<byte>, held: seq<byte>, flight: seq<byte>, offset: nat, sealed: seq<Rec>, r: Rec)
    requires InOrder(wire, held, TailOf(Some(flight), offset), sealed) && offset <= |flight|
    ensures InOrder(wire, held, TailOf(Some(flight + r.bytes), offset), sealed + [r])
  {
    hide WireOf, PlainOf;
    OneMore(sealed, r, r.typ);
    assert TailOf(Some(flight + r.bytes), offset) == TailOf(Some(flight), offset) + r.bytes;
    Regroup(wire + held, TailOf(Some(flight), offset), r.bytes);
  }

  lemma Regroup(a: seq<byte>, b: seq<byte>, c: seq<byte>)
    ensures a + (b + c) == a + b + c
  {
  }

  lemma SealedInBuffer(wire: seq<byte>, held: seq<byte>, sealed: seq<Rec>, r: Rec)
    requires InOrder(wire, held, [], sealed)
    ensures InOrder(wire, held + r.bytes, [], sealed + [r])
  {
    OneMore(sealed, r, r.typ);
    assert wire + held + [] == wire + held;
    assert wire + (held + r.bytes) + [] == wire + held + r.bytes;
  }

  // ---- the state

  /** Outcomes to come: of the transport's calls, of each seal, and of each malloc. With no more outcomes given nothing
      works. */
  datatype World = World(writes: seq<int>, seals: seq<Option<seq<byte>>>, blocks: seq<Option<Block>>)

  /** SSL_max_seal_overhead, ssl_seal_align_prefix_len, two modes, max_send_fragment and ticket_max_early_data */
  datatype Config = Config(
    maxOverhead: nat, alignPrefix: nat, movingBuffer: bool, partialWrite: bool, maxFragment: nat, earlyLimit: nat)

  predicate ConfigOk(cfg: Config) {
    0 < cfg.maxFragment <= MAX_PLAIN
  }

  /** The record that was sealed but not yet reported as written, and where its plaintext was. */
  datatype Pend = Pend(pending: bool, tot: nat, buf: int, typ: byte, ret: nat)

  /** Its application data. */
  function Unreported(p: Pend): nat {
    if p.pending && p.typ == APPLICATION_DATA then p.ret else 0
  }

  /** `lost` is set where Consume wraps its offset with data left, and `earlySealed` counts the application data sealed
      as early data; no code reads them. */
  datatype Wr = Wr(
    wire: seq<byte>, buf: Window, flight: Option<seq<byte>>, flightOffset: nat, wnum: nat, pend: Pend, early: bool,
    earlyWritten: nat, shutdown: bool, world: World, sealed: seq<Rec>, lost: bool, earlySealed: nat)

  predicate Core(s: Wr) {
    Sound(s.buf) && OffsetOk(s.flight, s.flightOffset) && (s.pend.pending ==> s.pend.ret == s.pend.tot > 0)
  }

  /** Early data stays within the limit, counting what was sealed but not reported. */
  predicate EarlyOk(cfg: Config, s: Wr) {
    s.earlySealed <= cfg.earlyLimit && (s.early ==> s.earlySealed == s.earlyWritten + Unreported(s.pend))
  }

  predicate Ok(cfg: Config, s: Wr) {
    ConfigOk(cfg) && Core(s) && EarlyOk(cfg, s)
  }

  function Tail(s: Wr): seq<byte> {
    TailOf(s.flight, s.flightOffset)
  }

  /** Wire, then buffer, then the rest of the flight, are the records in the order of sealing. */
  predicate Ordered(s: Wr)
    requires Sound(s.buf)
  {
    InOrder(s.wire, Data(s.buf), Tail(s), s.sealed)
  }

  function Start(world: World, early: bool): Wr {
    Wr([], NO_BUFFER, None, 0, 0, Pend(false, 0, 0, 0, 0), early, 0, false, world, [], false, 0)
  }

  datatype Out = Out(ret: int, s: Wr)

  // ---- the transport

  /** What a call of the transport on n bytes gives: at most n, and nothing or less for a failure. */
  function BioRet(writes: seq<int>, n: nat): (ret: int)
    ensures ret <= n
  {
    if writes == [] then -1 else if writes[0] > n then n else writes[0]
  }

  function Popped<T>(s: seq<T>): seq<T> {
    if s == [] then [] else s[1..]
  }

  function AfterWrite(s: Wr): Wr {
    s.(world := s.world.(writes := Popped(s.world.writes)))
  }

  /** One turn of the loop of `tls_write_buffer_flush` */
  function WriteOnce(s: Wr): (r: Out)
    requires Sound(s.buf)
    ensures Sound(r.s.buf) && OnlyFlushed(s, r.s) && r.ret <= s.buf.size
    ensures r.ret > 0 ==> r.s.buf.size == s.buf.size - r.ret
  {
    var ret := BioRet(s.world.writes, s.buf.size);
    var t := AfterWrite(s);
    if ret <= 0 then Out(ret, t)
    else
      var lost := s.lost || Loses(s.buf, ret);
      Out(ret, t.(wire := s.wire + Data(s.buf)[..ret], buf := Consumed(s.buf, ret), lost := lost))
  }

  predicate OnlyFlushed(s: Wr, r: Wr) {
    r == s.(wire := r.wire, buf := r.buf, lost := r.lost, world := r.world)
  }

  /** `tls_write_buffer_flush` */
  function FlushBuffer(s: Wr): (r: Out)
    requires Sound(s.buf)
    ensures Sound(r.s.buf) && OnlyFlushed(s, r.s) && (r.ret > 0 ==> r.s.buf == NO_BUFFER)
    decreases s.buf.size
  {
    if s.buf.size == 0 then Out(1, s.(buf := NO_BUFFER))
    else
      var r := WriteOnce(s);
      if r.ret <= 0 then r else FlushBuffer(r.s)
  }

  // ---- the pending flight

  /** `tls_seal_record`, as far as lengths go: it may fail, and adds at most maxOverhead bytes. */
  function SealOf(cfg: Config, seals: seq<Option<seq<byte>>>, plain: seq<byte>): (r: Option<seq<byte>>)
    ensures r.Some? ==> |plain| <= |r.value| <= |plain| + cfg.maxOverhead
  {
    if seals != [] && seals[0].Some? && |plain| <= |seals[0].value| <= |plain| + cfg.maxOverhead then seals[0] else None
  }

  function AfterSeal(s: Wr): Wr {
    s.(world := s.world.(seals := Popped(s.world.seals)))
  }

  datatype Added = Added(ok: bool, s: Wr)

  predicate OnlyQueued(s: Wr, r: Wr) {
    r == s.(flight := r.flight, sealed := r.sealed, world := r.world)
  }

  /** `add_record_to_flight`; a record that cannot be sealed, or finds no memory, leaves the flight as it is. */
  function AddRecord(cfg: Config, s: Wr, typ: byte, plain: seq<byte>): (r: Added)
    requires Core(s)
    ensures Core(r.s) && OnlyQueued(s, r.s)
  {
    var flight := if s.flight.None? then [] else s.flight.value;
    var t := AfterSeal(s).(flight := Some(flight));
    match SealOf(cfg, s.world.seals, plain)
    case None => Added(false, t)
    case Some(bytes) => Added(true, t.(flight := Some(flight + bytes), sealed := s.sealed + [Rec(typ, plain, bytes)]))
  }

  function Min(a: nat, b: nat): nat {
    if a < b then a else b
  }

  /** `ssl3_add_message`: one record for each piece of at most max_send_fragment bytes, also for an empty message. */
  function AddMessage(cfg: Config, s: Wr, msg: seq<byte>): (r: Added)
    requires ConfigOk(cfg) && Core(s)
    ensures Core(r.s) && OnlyQueued(s, r.s)
    decreases |msg|
  {
    var n := Min(|msg|, cfg.maxFragment);
    var r := AddRecord(cfg, s, HANDSHAKE, msg[..n]);
    if !r.ok || n == |msg| then r else AddMessage(cfg, r.s, msg[n..])
  }

  /** The loop of `ssl3_flush_flight` */
  function WriteFlight(s: Wr): (r: Out)
    requires Core(s) && s.flight.Some?
    ensures Core(r.s) && r.s == s.(wire := r.s.wire, flightOffset := r.s.flightOffset, world := r.s.world)
    ensures r.ret > 0 ==> r.s.flightOffset == |s.flight.value|
    decreases |s.flight.value| - s.flightOffset
  {
    var rest := s.flight.value[s.flightOffset..];
    if rest == [] then Out(1, s)
    else
      var ret := BioRet(s.world.writes, |rest|);
      var t := AfterWrite(s);
      if ret <= 0 then Out(ret, t)
      else WriteFlight(t.(wire := s.wire + rest[..ret], flightOffset := s.flightOffset + ret))
  }

  /** `ssl3_flush_flight` */
  function FlushFlight(s: Wr): (r: Out)
    requires Core(s)
    ensures Core(r.s)
    ensures r.s == s.(wire := r.s.wire, buf := r.s.buf, flight := r.s.flight, flightOffset := r.s.flightOffset,
      lost := r.s.lost, world := r.s.world)
    ensures r.ret > 0 ==> r.s.flight.None? && (s.flight.Some? ==> r.s.buf.size == 0)
  {
    if s.flight.None? then Out(1, s)
    else if s.shutdown || |s.flight.value| > 0x7fff_ffff then Out(-1, s)
    else
      var b := if s.buf.size > 0 then FlushBuffer(s) else Out(1, s);
      if b.ret <= 0 then b
      else
        var w := WriteFlight(b.s);
        if w.ret <= 0 then w
        else
          var t := AfterWrite(w.s);
          if BioRet(w.s.world.writes, 1) <= 0 then Out(-1, t) else Out(1, t.(flight := None, flightOffset := 0))
  }

  // ---- records of any type

  /** `ssl3_write_pending` */
  function WritePending(cfg: Config, s: Wr, typ: byte, plain: seq<byte>, address: int): (r: Out)
    requires Core(s) && s.pend.pending
    ensures Core(r.s) && OnlyFlushed(s.(pend := r.s.pend), r.s)
    ensures r.ret > 0 ==>
      && r.s.pend == s.pend.(pending := false) && r.ret == s.pend.ret <= |plain| && s.pend.typ == typ
      && r.s.buf == NO_BUFFER
    ensures r.ret <= 0 ==> r.s.pend == s.pend
  {
    if s.pend.tot > |plain| || (!cfg.movingBuffer && s.pend.buf != address) || s.pend.typ != typ then Out(-1, s)
    else
      var b := FlushBuffer(s);
      if b.ret <= 0 then b else Out(s.pend.ret, b.s.(pend := s.pend.(pending := false)))
  }

  /** Capacity for the flight and a record */
  function Reserve(cfg: Config, s: Wr, n: nat): (r: Added)
    requires Core(s)
    ensures Core(r.s) && r.s == s.(buf := r.s.buf, world := r.s.world) && r.s.buf.size == s.buf.size
    ensures r.ok ==> r.s.buf.cap >= n + cfg.maxOverhead + |Tail(s)|
  {
    var need := n + cfg.maxOverhead + |Tail(s)|;
    var blocks := s.world.blocks;
    var e := Ensured(s.buf, |Tail(s)| + cfg.alignPrefix, need, if blocks == [] then None else blocks[0]);
    Added(e.ok, s.(buf := e.w, world := if Mallocs(s.buf, need) then s.world.(blocks := Popped(blocks)) else s.world))
  }

  /** The rest of the pending flight goes into the buffer, so that nothing can overtake it. */
  function MoveFlight(s: Wr): (r: Wr)
    requires Core(s) && |Tail(s)| <= s.buf.cap - s.buf.size
    ensures Core(r) && r.flight.None? && r == s.(buf := r.buf, flight := None, flightOffset := 0)
    ensures r.buf.cap == s.buf.cap && r.buf.size == s.buf.size + |Tail(s)|
  {
    s.(buf := Appended(s.buf, Tail(s)), flight := None, flightOffset := 0)
  }

  /** The flight and then the record go into an empty buffer, and the arguments are memorized. */
  function SealRecord(cfg: Config, s: Wr, typ: byte, plain: seq<byte>, address: int): (r: Added)
    requires Core(s) && !s.pend.pending && plain != [] && s.buf.size == 0
    ensures Core(r.s) && r.s ==
      s.(buf := r.s.buf, flight := r.s.flight, flightOffset := r.s.flightOffset, pend := r.s.pend,
        world := r.s.world, sealed := r.s.sealed)
  {
    var e := Reserve(cfg, s, |plain|);
    if !e.ok then e else SealIn(cfg, MoveFlight(e.s), typ, plain, address)
  }

  function SealIn(cfg: Config, s: Wr, typ: byte, plain: seq<byte>, address: int): (r: Added)
    requires Core(s) && plain != [] && |plain| + cfg.maxOverhead <= s.buf.cap - s.buf.size
    ensures Core(r.s) && r.s == s.(buf := r.s.buf, pend := r.s.pend, world := r.s.world, sealed := r.s.sealed)
    ensures r.ok ==> r.s.pend == Pend(true, |plain|, address, typ, |plain|) && Grew(s.sealed, r.s.sealed, typ, plain)
    ensures !r.ok ==> r.s == AfterSeal(s)
  {
    var t := AfterSeal(s);
    match SealOf(cfg, s.world.seals, plain)
    case None => Added(false, t)
    case Some(bytes) =>
      Added(true, t.(buf := Appended(t.buf, bytes), sealed := s.sealed + [Rec(typ, plain, bytes)],
                     pend := Pend(true, |plain|, address, typ, |plain|)))
  }

  /** `do_ssl3_write` */
  function DoWrite(cfg: Config, s: Wr, typ: byte, plain: seq<byte>, address: int): (r: Out)
    requires Core(s)
    ensures Core(r.s)
    ensures r.s == s.(wire := r.s.wire, buf := r.s.buf, flight := r.s.flight, flightOffset := r.s.flightOffset,
      pend := r.s.pend, world := r.s.world, sealed := r.s.sealed, lost := r.s.lost)
    ensures r.ret <= |plain|
  {
    if s.pend.pending then WritePending(cfg, s, typ, plain, address)
    else if |plain| > MAX_PLAIN || s.buf.size > 0 then Out(-1, s)
    else if plain == [] then Out(0, s)
    else
      var e := SealRecord(cfg, s, typ, plain, address);
      if !e.ok then Out(-1, e.s) else WritePending(cfg, e.s, typ, plain, address)
  }

  // ---- application data and alerts

  /** The counts of early data after a record of n bytes. */
  function Counted(s: Wr, r: Wr, n: nat, ret: int): Wr {
    if !s.early then r
    else
      r.(earlyWritten := s.earlyWritten + if ret > 0 then ret else 0,
         earlySealed := s.earlySealed + if !s.pend.pending && |r.sealed| > |s.sealed| then n else 0)
  }

  /** One record of application data, and the count against the early data limit. */
  function WriteRecord(cfg: Config, s: Wr, plain: seq<byte>, address: int): (r: Out)
    requires Ok(cfg, s) && (s.early ==> |plain| <= cfg.earlyLimit - s.earlyWritten)
    ensures Ok(cfg, r.s) && r.ret <= |plain| && r.s.wnum == s.wnum && r.s.early == s.early
  {
    RecordKeepsEarly(cfg, s, plain, address);
    var r := DoWrite(cfg, s, APPLICATION_DATA, plain, address);
    Out(r.ret, Counted(s, r.s, |plain|, r.ret))
  }

  /** How much the next record may hold. */
  function MaxRecord(cfg: Config, s: Wr): (n: nat)
    requires Ok(cfg, s)
    ensures n <= cfg.maxFragment && (s.early ==> n <= cfg.earlyLimit - s.earlyWritten)
  {
    if s.early then Min(cfg.maxFragment, cfg.earlyLimit - s.earlyWritten) else cfg.maxFragment
  }

  datatype AppOut = AppOut(ret: int, needsHandshake: bool, s: Wr)

  /** The loop of `ssl3_write_app_data` from byte tot on */
  function AppLoop(cfg: Config, s: Wr, data: seq<byte>, address: int, tot: nat): (r: AppOut)
    requires Ok(cfg, s) && tot <= |data|
    ensures Ok(cfg, r.s)
    decreases |data| - tot
  {
    var n, max := |data| - tot, MaxRecord(cfg, s);
    if max == 0 then AppOut(-1, true, s.(wnum := tot, early := false))
    else
      var nw := Min(n, max);
      var r := WriteRecord(cfg, s, data[tot..tot + nw], address + tot);
      if r.ret <= 0 then AppOut(r.ret, false, r.s.(wnum := tot))
      else if r.ret == n || cfg.partialWrite then AppOut(tot + r.ret, false, r.s)
      else AppLoop(cfg, r.s, data, address, tot + r.ret)
  }

  /** `ssl3_write_app_data` */
  function WriteAppData(cfg: Config, s: Wr, data: seq<byte>, address: int): (r: AppOut)
    requires Ok(cfg, s)
    ensures Ok(cfg, r.s)
  {
    if s.shutdown then AppOut(-1, false, s)
    else if |data| < s.wnum then AppOut(-1, false, s.(wnum := 0))
    else AppLoop(cfg, s.(wnum := 0), data, address, s.wnum)
  }

  /** `ssl3_dispatch_alert`. A fatal alert is flushed through. */
  function DispatchAlert(cfg: Config, s: Wr, level: byte, desc: byte, address: int): (r: Out)
    requires Ok(cfg, s)
    ensures Ok(cfg, r.s)
  {
    AlertKeepsEarly(cfg, s, [level, desc], address);
    var r := DoWrite(cfg, s, ALERT, [level, desc], address);
    if r.ret <= 0 then r else Out(1, if level == 2 then AfterWrite(r.s) else r.s)
  }

  // ---- what one write of a record may do

  ghost predicate Wrote(p: Pend, sealed: seq<Rec>, p': Pend, sealed': seq<Rec>, typ: byte, plain: seq<byte>, ret: int) {
    if p.pending then
      && sealed' == sealed
      && (if ret > 0 then !p'.pending && ret == p.ret == p.tot <= |plain| && p.typ == typ else p' == p)
    else if ret > 0 then Grew(sealed, sealed', typ, plain) && !p'.pending && ret == |plain|
    else
      || (sealed' == sealed && p' == p)
      || (Grew(sealed, sealed', typ, plain) && p'.pending && p'.tot == p'.ret == |plain| && p'.typ == typ)
  }

  lemma DoWriteWrote(cfg: Config, s: Wr, typ: byte, plain: seq<byte>, address: int)
    requires Core(s)
    ensures var r := DoWrite(cfg, s, typ, plain, address);
      Wrote(s.pend, s.sealed, r.s.pend, r.s.sealed, typ, plain, r.ret)
    ensures var r := DoWrite(cfg, s, typ, plain, address); r.ret > 0 ==> r.s.buf.size == 0
  {
    hide FlushBuffer, TailOf, OffsetOk, Sound, Reserve, MoveFlight, Appended;
  }

  /** A record of early data stays within what is left of the limit. */
  lemma RecordKeepsEarly(cfg: Config, s: Wr, plain: seq<byte>, address: int)
    requires Core(s) && EarlyOk(cfg, s) && (s.early ==> |plain| <= cfg.earlyLimit - s.earlyWritten)
    ensures var r := DoWrite(cfg, s, APPLICATION_DATA, plain, address); EarlyOk(cfg, Counted(s, r.s, |plain|, r.ret))
  {
    hide Core, DoWrite;
    DoWriteWrote(cfg, s, APPLICATION_DATA, plain, address);
  }

  lemma AlertKeepsEarly(cfg: Config, s: Wr, alert: seq<byte>, address: int)
    requires Core(s) && EarlyOk(cfg, s)
    ensures EarlyOk(cfg, DoWrite(cfg, s, ALERT, alert, address).s)
  {
    hide Core, DoWrite;
    DoWriteWrote(cfg, s, ALERT, alert, address);
  }

  function NewlySealed(p: Pend, before: seq<Rec>, after: seq<Rec>, n: nat): nat {
    if !p.pending && |after| > |before| then n else 0
  }

  lemma AppProgress(p: Pend, was: seq<Rec>, p': Pend, now: seq<Rec>, before: seq<byte>, data: seq<byte>, tot: nat,
      nw: nat, ret: int)
    requires tot + nw <= |data| && Wrote(p, was, p', now, APPLICATION_DATA, data[tot..tot + nw], ret)
    ensures ret > 0 ==> ret <= nw && !p'.pending
    ensures SealedUpTo(was, before, data, tot + Unreported(p)) ==>
      SealedUpTo(now, before, data, tot + if ret > 0 then ret else Unreported(p'))
    ensures Unreported(p) + NewlySealed(p, was, now, nw) == if ret > 0 then ret else Unreported(p')
    ensures p.pending || |now| == |was| ==> now == was
  {
    hide PlainOf;
    if !p.pending && Grew(was, now, APPLICATION_DATA, data[tot..tot + nw]) {
      GrewPlain(was, now, APPLICATION_DATA, data[tot..tot + nw]);
      assert before + data[..tot] + data[tot..tot + nw] == before + data[..tot + nw] by {
        assert data[..tot] + data[tot..tot + nw] == data[..tot + nw];
      }
    }
  }

  /** The application data among the records is some bytes and then this much of the buffer. */
  ghost predicate SealedUpTo(sealed: seq<Rec>, before: seq<byte>, data: seq<byte>, n: nat) {
    n <= |data| && PlainOf(APPLICATION_DATA, sealed) == before + data[..n]
  }

  lemma OtherTypeLeavesData(p: Pend, was: seq<Rec>, p': Pend, now: seq<Rec>, typ: byte, plain: seq<byte>, ret: int)
    requires Wrote(p, was, p', now, typ, plain, ret) && typ != APPLICATION_DATA
    ensures PlainOf(APPLICATION_DATA, now) == PlainOf(APPLICATION_DATA, was) && Unreported(p') == Unreported(p)
  {
    hide PlainOf;
    if !p.pending && Grew(was, now, typ, plain) {
      GrewPlain(was, now, typ, plain);
      assert PlainOf(APPLICATION_DATA, was) + [] == PlainOf(APPLICATION_DATA, was);
    }
  }

  /** Handshake messages added in between leave the application data alone as well. */
  lemma {:induction false} PiecesLeaveData(before: seq<Rec>, after: seq<Rec>, typ: byte, plain: seq<byte>, max: nat)
    requires Pieces(before, after, typ, plain, max) && typ != APPLICATION_DATA
    ensures PlainOf(APPLICATION_DATA, after) == PlainOf(APPLICATION_DATA, before)
    decreases |after|
  {
    OthersLeaveData(before, after, typ);
  }

  lemma {:induction false} OthersLeaveData(before: seq<Rec>, after: seq<Rec>, typ: byte)
    requires before <= after && typ != APPLICATION_DATA && forall k :: |before| <= k < |after| ==> after[k].typ == typ
    ensures PlainOf(APPLICATION_DATA, after) == PlainOf(APPLICATION_DATA, before)
    decreases |after|
  {
    if |after| == |before| {
      assert after == before;
    } else {
      var shorter := after[..|after| - 1];
      OthersLeaveData(before, shorter, typ);
      assert after[|before|..] != [] && after[|after| - 1].typ == typ;
    }
  }

  /** One record more. */
  ghost predicate Grew(before: seq<Rec>, after: seq<Rec>, typ: byte, plain: seq<byte>) {
    && |after| == |before| + 1 && before <= after
    && after[|before|].typ == typ && after[|before|].plain == plain
  }

  /** New records of one type and of at most max bytes each, that hold these bytes. */
  ghost predicate Pieces(before: seq<Rec>, after: seq<Rec>, typ: byte, plain: seq<byte>, max: nat) {
    && before <= after && PlainOf(typ, after) == PlainOf(typ, before) + plain
    && forall k :: |before| <= k < |after| ==> after[k].typ == typ && |after[k].plain| <= max
  }

  lemma NoPieces(sealed: seq<Rec>, typ: byte, max: nat)
    ensures Pieces(sealed, sealed, typ, [], max)
  {
  }

  lemma MorePieces(start: seq<Rec>, before: seq<Rec>, after: seq<Rec>, typ: byte, done: seq<byte>, chunk: seq<byte>,
      max: nat)
    requires Pieces(start, before, typ, done, max) && Grew(before, after, typ, chunk) && |chunk| <= max
    ensures Pieces(start, after, typ, done + chunk, max)
  {
    hide PlainOf;
    GrewPlain(before, after, typ, chunk);
    assert PlainOf(typ, start) + done + chunk == PlainOf(typ, start) + (done + chunk);
  }

  lemma GrewPlain(before: seq<Rec>, after: seq<Rec>, typ: byte, plain: seq<byte>)
    requires Grew(before, after, typ, plain)
    ensures forall t: byte :: PlainOf(t, after) == PlainOf(t, before) + if t == typ then plain else []
  {
    assert after == before + [after[|before|]];
    forall t: byte ensures PlainOf(t, after) == PlainOf(t, before) + if t == typ then plain else [] {
      OneMore(before, after[|before|], t);
    }
  }

  // ---- every step keeps the order

  /** Nothing that was lost comes back, and while nothing was lost, the order holds. */
  predicate Keeps(s: Wr, r: Wr)
    requires Sound(s.buf) && Sound(r.buf)
  {
    (s.lost ==> r.lost) && ((s.lost || Ordered(s)) ==> r.lost || Ordered(r))
  }

  lemma WriteOnceKeeps(s: Wr)
    requires Sound(s.buf)
    ensures Keeps(s, WriteOnce(s).s)
  {
    hide Data, InOrder, TailOf, Loses;
    var r := WriteOnce(s);
    if r.ret > 0 && !r.s.lost {
      ConsumeKeeps(s.buf, r.ret);
      if Ordered(s) { BufferToWire(s.wire, Data(s.buf), Tail(s), s.sealed, r.ret); }
    }
  }

  lemma {:induction false} FlushKeeps(s: Wr)
    requires Sound(s.buf)
    ensures Keeps(s, FlushBuffer(s).s)
    decreases s.buf.size
  {
    hide Data, InOrder, TailOf, WriteOnce;
    if s.buf.size == 0 {
      assert Data(s.buf) == Data(NO_BUFFER) == [];
    } else {
      WriteOnceKeeps(s);
      if WriteOnce(s).ret > 0 { FlushKeeps(WriteOnce(s).s); }
    }
  }

  lemma AddRecordKeeps(cfg: Config, s: Wr, typ: byte, plain: seq<byte>)
    requires Core(s)
    ensures var r := AddRecord(cfg, s, typ, plain);
      Keeps(s, r.s) && (if r.ok then Grew(s.sealed, r.s.sealed, typ, plain) else r.s.sealed == s.sealed)
  {
    hide Data, InOrder, TailOf, Sound;
    if s.flight.None? { SameTail(); }
    var flight := if s.flight.None? then [] else s.flight.value;
    match SealOf(cfg, s.world.seals, plain)
    case None =>
    case Some(bytes) =>
      if Ordered(s) { SealedInFlight(s.wire, Data(s.buf), flight, s.flightOffset, s.sealed, Rec(typ, plain, bytes)); }
  }

  /** The records hold a beginning of the message, and all of it if nothing failed. */
  lemma {:induction false} AddMessageKeeps(cfg: Config, s: Wr, msg: seq<byte>) returns (done: seq<byte>)
    requires ConfigOk(cfg) && Core(s)
    ensures var r := AddMessage(cfg, s, msg);
      && Keeps(s, r.s) && done <= msg && Pieces(s.sealed, r.s.sealed, HANDSHAKE, done, cfg.maxFragment)
      && (r.ok ==> done == msg && |r.s.sealed| > |s.sealed|)
    decreases |msg|
  {
    hide Data, InOrder, TailOf, Sound, Pieces, PlainOf, AddRecord;
    var n := Min(|msg|, cfg.maxFragment);
    var r := AddRecord(cfg, s, HANDSHAKE, msg[..n]);
    AddRecordKeeps(cfg, s, HANDSHAKE, msg[..n]);
    NoPieces(s.sealed, HANDSHAKE, cfg.maxFragment);
    if !r.ok {
      done := [];
    } else {
      MorePieces(s.sealed, s.sealed, r.s.sealed, HANDSHAKE, [], msg[..n], cfg.maxFragment);
      assert [] + msg[..n] == msg[..n];
      if n == |msg| {
        done := msg[..n];
      } else {
        var rest := AddMessageKeeps(cfg, r.s, msg[n..]);
        PiecesThen(s.sealed, r.s.sealed, AddMessage(cfg, s, msg).s.sealed, HANDSHAKE, msg[..n], rest, cfg.maxFragment);
        done := msg[..n] + rest;
        assert msg == msg[..n] + msg[n..];
      }
    }
  }

  lemma PiecesThen(a: seq<Rec>, b: seq<Rec>, c: seq<Rec>, typ: byte, x: seq<byte>, y: seq<byte>, max: nat)
    requires Pieces(a, b, typ, x, max) && Pieces(b, c, typ, y, max)
    ensures Pieces(a, c, typ, x + y, max)
  {
    hide PlainOf;
    assert PlainOf(typ, a) + x + y == PlainOf(typ, a) + (x + y);
  }

  lemma {:induction false} WriteFlightKeeps(s: Wr)
    requires Core(s) && s.flight.Some? && s.buf.size == 0
    ensures Keeps(s, WriteFlight(s).s)
    decreases |s.flight.value| - s.flightOffset
  {
    hide InOrder, TailOf;
    var rest := s.flight.value[s.flightOffset..];
    if rest != [] {
      var ret := BioRet(s.world.writes, |rest|);
      if ret > 0 {
        assert Data(s.buf) == [];
        if Ordered(s) { FlightToWire(s.wire, s.flight.value, s.flightOffset, s.sealed, ret); }
        WriteFlightKeeps(AfterWrite(s).(wire := s.wire + rest[..ret], flightOffset := s.flightOffset + ret));
      }
    }
  }

  lemma FlushFlightKeeps(s: Wr)
    requires Core(s)
    ensures Keeps(s, FlushFlight(s).s)
  {
    hide Data, InOrder, TailOf, FlushBuffer, WriteFlight;
    if s.flight.Some? && !s.shutdown && |s.flight.value| <= 0x7fff_ffff {
      if s.buf.size > 0 { FlushKeeps(s); }
      var b := if s.buf.size > 0 then FlushBuffer(s) else Out(1, s);
      if b.ret > 0 {
        WriteFlightKeeps(b.s);
        EmptyTail(s.flight.value);
      }
    }
  }

  lemma MoveKeeps(s: Wr)
    requires Core(s) && |Tail(s)| <= s.buf.cap - s.buf.size
    ensures Keeps(s, MoveFlight(s))
    ensures Data(MoveFlight(s).buf) == Data(s.buf) + Tail(s)
  {
    hide Data, InOrder, Appended;
    AppendedData(s.buf, Tail(s));
    if Ordered(s) { FlightToBuffer(s.wire, Data(s.buf), Tail(s), s.sealed); }
  }

  lemma SealRecordKeeps(cfg: Config, s: Wr, typ: byte, plain: seq<byte>, address: int)
    requires Core(s) && !s.pend.pending && plain != [] && s.buf.size == 0
    ensures Keeps(s, SealRecord(cfg, s, typ, plain, address).s)
  {
    hide Data, InOrder, Appended, Ensured, TailOf, OffsetOk;
    var e := Reserve(cfg, s, |plain|);
    ReserveKeeps(cfg, s, |plain|);
    if e.ok {
      MoveKeeps(e.s);
      var t := MoveFlight(e.s);
      NoTail();
      match SealOf(cfg, s.world.seals, plain)
      case None =>
      case Some(bytes) =>
        AppendedData(t.buf, bytes);
        if Ordered(t) { SealedInBuffer(t.wire, Data(t.buf), t.sealed, Rec(typ, plain, bytes)); }
    }
  }

  lemma NoTail()
    ensures TailOf(None, 0) == []
  {
  }

  lemma SameTail()
    ensures TailOf(None, 0) == TailOf(Some([]), 0)
  {
  }

  lemma EmptyTail(flight: seq<byte>)
    ensures TailOf(Some(flight), |flight|) == TailOf(None, 0)
  {
  }

  lemma ReserveKeeps(cfg: Config, s: Wr, n: nat)
    requires Core(s)
    ensures var r := Reserve(cfg, s, n).s; Data(r.buf) == Data(s.buf) && Keeps(s, r) && Tail(r) == Tail(s)
    ensures n + cfg.maxOverhead + |Tail(s)| + ALIGN <= U16 && Roomy(s.buf) ==> Roomy(Reserve(cfg, s, n).s.buf)
  {
    hide Data, InOrder, TailOf, OffsetOk, Ensured, Roomy;
    var need := n + cfg.maxOverhead + |Tail(s)|;
    EnsuredData(s.buf, |Tail(s)| + cfg.alignPrefix, need, if s.world.blocks == [] then None else s.world.blocks[0]);
  }

  lemma DoWriteKeeps(cfg: Config, s: Wr, typ: byte, plain: seq<byte>, address: int)
    requires Core(s)
    ensures Keeps(s, DoWrite(cfg, s, typ, plain, address).s)
  {
    hide Data, InOrder, TailOf, OffsetOk, FlushBuffer, SealRecord;
    if s.pend.pending {
      FlushKeeps(s);
    } else if |plain| <= MAX_PLAIN && s.buf.size == 0 && plain != [] {
      SealRecordKeeps(cfg, s, typ, plain, address);
      FlushKeeps(SealRecord(cfg, s, typ, plain, address).s);
    }
  }

  lemma {:induction false} AppLoopKeeps(cfg: Config, s: Wr, data: seq<byte>, address: int, tot: nat)
    requires Ok(cfg, s) && tot <= |data|
    ensures Keeps(s, AppLoop(cfg, s, data, address, tot).s)
    decreases |data| - tot
  {
    hide Data, InOrder, TailOf, DoWrite, OffsetOk, Sound, EarlyOk;
    var n, max := |data| - tot, MaxRecord(cfg, s);
    if max > 0 {
      var nw := Min(n, max);
      var r := WriteRecord(cfg, s, data[tot..tot + nw], address + tot);
      DoWriteKeeps(cfg, s, APPLICATION_DATA, data[tot..tot + nw], address + tot);
      if r.ret > 0 && r.ret != n && !cfg.partialWrite { AppLoopKeeps(cfg, r.s, data, address, tot + r.ret); }
    }
  }

  lemma WriteAppDataKeeps(cfg: Config, s: Wr, data: seq<byte>, address: int)
    requires Ok(cfg, s)
    ensures Keeps(s, WriteAppData(cfg, s, data, address).s)
  {
    hide Data, InOrder, TailOf, AppLoop;
    if !s.shutdown && |data| >= s.wnum { AppLoopKeeps(cfg, s.(wnum := 0), data, address, s.wnum); }
  }

  lemma AlertKeeps(cfg: Config, s: Wr, level: byte, desc: byte, address: int)
    requires Ok(cfg, s)
    ensures Keeps(s, DispatchAlert(cfg, s, level, desc, address).s)
  {
    hide Data, InOrder, TailOf, DoWrite;
    DoWriteKeeps(cfg, s, ALERT, [level, desc], address);
  }

  // ---- nothing is lost from a buffer that is not too large

  lemma {:induction false} FlushLosesNothing(s: Wr)
    requires Sound(s.buf) && Roomy(s.buf)
    ensures FlushBuffer(s).s.lost == s.lost && Roomy(FlushBuffer(s).s.buf)
    decreases s.buf.size
  {
    hide WriteOnce;
    if s.buf.size > 0 {
      OnceLosesNothing(s);
      if WriteOnce(s).ret > 0 { FlushLosesNothing(WriteOnce(s).s); }
    }
  }

  lemma OnceLosesNothing(s: Wr)
    requires Sound(s.buf) && Roomy(s.buf)
    ensures WriteOnce(s).s.lost == s.lost && Roomy(WriteOnce(s).s.buf)
  {
    if WriteOnce(s).ret > 0 { ConsumeRoomy(s.buf, WriteOnce(s).ret); }
  }

  /** A record and the flight before it that together leave 8 bytes below 2^16 lose nothing, however they are
      written. */
  lemma DoWriteLosesNothing(cfg: Config, s: Wr, typ: byte, plain: seq<byte>, address: int)
    requires Core(s) && Roomy(s.buf) && |plain| + cfg.maxOverhead + |Tail(s)| + ALIGN <= U16
    ensures var r := DoWrite(cfg, s, typ, plain, address).s; r.lost == s.lost && Roomy(r.buf) && |Tail(r)| <= |Tail(s)|
  {
    hide Data, FlushBuffer, Reserve, OffsetOk, TailOf, Appended;
    NoTail();
    if s.pend.pending {
      FlushLosesNothing(s);
    } else if |plain| <= MAX_PLAIN && s.buf.size == 0 && plain != [] {
      SealRecordRoomy(cfg, s, typ, plain, address);
      FlushLosesNothing(SealRecord(cfg, s, typ, plain, address).s);
    }
  }

  lemma SealRecordRoomy(cfg: Config, s: Wr, typ: byte, plain: seq<byte>, address: int)
    requires Core(s) && Roomy(s.buf) && |plain| + cfg.maxOverhead + |Tail(s)| + ALIGN <= U16
    requires !s.pend.pending && plain != [] && s.buf.size == 0
    ensures var r := SealRecord(cfg, s, typ, plain, address).s; Roomy(r.buf) && |Tail(r)| <= |Tail(s)|
  {
    hide Data, Reserve, OffsetOk, TailOf, Overwrite;
    NoTail();
    ReserveKeeps(cfg, s, |plain|);
  }

  /** What the transport does to come. */
  function WithWrites(s: Wr, writes: seq<int>): Wr {
    s.(world := s.world.(writes := writes))
  }

  lemma {:induction false} FlushFits(s: Wr)
    requires Sound(s.buf) && s.buf.offset + s.buf.size <= U16
    ensures FlushBuffer(s).s.lost == s.lost
    decreases s.buf.size
  {
    if s.buf.size > 0 && WriteOnce(s).ret > 0 { FlushFits(WriteOnce(s).s); }
  }

  /** Some transport makes flushing a buffer lose bytes, exactly if the data in it ends beyond 2^16. */
  lemma FlushNeverLosesIff(s: Wr)
    requires Sound(s.buf) && !s.lost
    ensures (forall writes :: !FlushBuffer(WithWrites(s, writes)).s.lost) <==> s.buf.offset + s.buf.size <= U16
  {
    if s.buf.offset + s.buf.size <= U16 {
      forall writes ensures !FlushBuffer(WithWrites(s, writes)).s.lost { FlushFits(WithWrites(s, writes)); }
    } else {
      var t := WithWrites(s, [U16 - s.buf.offset]);
      assert WriteOnce(t).s.lost;
      FlushLost(WriteOnce(t).s);
      assert FlushBuffer(t).s.lost;
    }
  }

  lemma {:induction false} FlushLost(s: Wr)
    requires Sound(s.buf) && s.lost
    ensures FlushBuffer(s).s.lost
    decreases s.buf.size
  {
    hide Data;
    if s.buf.size > 0 && WriteOnce(s).ret > 0 { FlushLost(WriteOnce(s).s); }
  }
}
