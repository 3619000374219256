/** Where the TLS write path goes wrong: the runs that show it, and when it does not. */
module TlsWriteFaults {
  import opened Bytes
  import opened SslBuffer
  import opened TlsWrite
  import opened TlsWriteRuns

  // ---- a seal that fails behind a pending flight

  /** Something is in the buffer that belongs to no pending record: no write is taken. */
  predicate Refused(s: Wr) {
    !s.pend.pending && s.buf.size > 0
  }

  lemma RefusedWrite(cfg: Config, s: Wr, typ: byte, plain: seq<byte>, address: int)
    requires Core(s) && Refused(s)
    ensures DoWrite(cfg, s, typ, plain, address) == Out(-1, s)
  {
  }

  /** A failed write can be tried again exactly if nothing was left of the flight, or no capacity was reserved.
      Otherwise the flight is in the buffer, and nothing of it on the wire. */
  lemma FailedWriteIff(cfg: Config, s: Wr, typ: byte, plain: seq<byte>, address: int)
    requires Core(s) && !s.pend.pending && s.buf.size == 0
    requires DoWrite(cfg, s, typ, plain, address).ret <= 0 && !DoWrite(cfg, s, typ, plain, address).s.pend.pending
    ensures var t := DoWrite(cfg, s, typ, plain, address).s;
      && (!Refused(t) <==> plain == [] || |plain| > MAX_PLAIN || Tail(s) == [] || !Reserve(cfg, s, |plain|).ok)
      && (Refused(t) ==> Data(t.buf) == Tail(s) && t.flight.None? && t.wire == s.wire && t.sealed == s.sealed)
  {
    hide Data, FlushBuffer, Reserve, OffsetOk, TailOf, Appended, Sound;
    if plain != [] && |plain| <= MAX_PLAIN && Reserve(cfg, s, |plain|).ok {
      ReserveKeeps(cfg, s, |plain|);
      MoveKeeps(Reserve(cfg, s, |plain|).s);
      Empty(s.buf);
    }
  }

  lemma Empty(w: Window)
    requires Sound(w) && w.size == 0
    ensures Data(w) == []
  {
  }

  /** Only these may change. */
  predicate SameOutput(s: Wr, r: Wr) {
    r == s.(wnum := r.wnum, early := r.early, shutdown := r.shutdown)
  }

  lemma RefusedCall(cfg: Config, s: Wr, c: Call)
    requires Ok(cfg, s) && Refused(s) && s.flight.None? && !c.Message?
    ensures SameOutput(s, Do(cfg, s, c).s)
    ensures Do(cfg, s, c).ret == if c.AppData? || c.Alert? then -1 else 1
  {
    hide DoWrite, Data, Sound, OffsetOk;
    match c
    case Flight =>
    case AppData(data, address) =>
      if !s.shutdown && |data| >= s.wnum {
        var t := s.(wnum := 0);
        var tot, nw := s.wnum, Min(|data| - s.wnum, MaxRecord(cfg, t));
        RefusedWrite(cfg, t, APPLICATION_DATA, data[tot..tot + nw], address + tot);
      }
    case Alert(level, desc, address) => RefusedWrite(cfg, s, ALERT, [level, desc], address);
    case Shutdown =>
    case StopEarly =>
  }

  /** With no flight to carry it along, the buffer stays as it is: flushing reports success and does nothing, and every
      write and alert fails, until a new message is queued. */
  lemma {:induction false} RefusedForGood(cfg: Config, s: Wr, calls: seq<Call>)
    requires Ok(cfg, s) && Refused(s) && s.flight.None? && forall c :: c in calls ==> !c.Message?
    ensures SameOutput(s, Run(cfg, s, calls))
    decreases |calls|
  {
    hide Do, Ok;
    if calls != [] {
      assert calls[0] in calls && forall c :: c in calls[1..] ==> c in calls;
      RefusedCall(cfg, s, calls[0]);
      RefusedForGood(cfg, Do(cfg, s, calls[0]).s, calls[1..]);
    }
  }

  /** A message is queued; application data is written and its seal fails. */
  lemma SealFails(cfg: Config, s: Wr, bytes: seq<byte>, block: Block, plain: seq<byte>, address: int)
    requires ConfigOk(cfg) && bytes != [] && 0 < |plain| <= cfg.maxFragment
    requires |bytes| + cfg.maxFragment + cfg.maxOverhead <= 0xffff
    requires s.flight == Some(bytes) && s.flightOffset == 0 && s.buf == NO_BUFFER && !s.pend.pending
    requires s.world.seals == [None] && s.world.blocks == [Some(block)]
    ensures Core(s)
    ensures var r := DoWrite(cfg, s, APPLICATION_DATA, plain, address);
      r.ret == -1 && r.s.wire == s.wire && r.s.flight.None? && Refused(r.s) && Data(r.s.buf) == bytes
        && r.s.sealed == s.sealed
  {
    hide Data, FlushBuffer, Appended, Overwrite;
    assert Tail(s) == bytes;
    assert Reserve(cfg, s, |plain|).ok;
    FailedWriteIff(cfg, s, APPLICATION_DATA, plain, address);
  }

  /** So a run strands the flight: the record of a handshake message is in the buffer, none of it on the wire, and
      whatever is called later, short of queueing a new message, it stays there. */
  lemma SealFailureStrands(cfg: Config, writes: seq<int>, msg: seq<byte>, bytes: seq<byte>, block: Block,
      data: seq<byte>, address: int, later: seq<Call>)
    requires ConfigOk(cfg) && bytes != [] && data != [] && |bytes| + cfg.maxFragment + cfg.maxOverhead <= 0xffff
    requires |msg| <= cfg.maxFragment && |msg| <= |bytes| <= |msg| + cfg.maxOverhead
    requires forall c :: c in later ==> !c.Message?
    ensures var start := Start(World(writes, [Some(bytes), None], [Some(block)]), false);
      && Ok(cfg, start)
      && var s := Run(cfg, start, [Message(msg), AppData(data, address)] + later);
        s.wire == [] && Data(s.buf) == bytes && s.flight.None? && Refused(s) && s.sealed == [Rec(HANDSHAKE, msg, bytes)]
  {
    hide Run, DoWrite, Data, WriteAppData;
    var start := Start(World(writes, [Some(bytes), None], [Some(block)]), false);
    assert msg[..|msg|] == msg && [] + bytes == bytes;
    var s1 := AddMessage(cfg, start, msg).s;
    assert s1.flight == Some(bytes) && s1.world.seals == [None] && s1.sealed == [Rec(HANDSHAKE, msg, bytes)];
    AppDataStrands(cfg, s1, bytes, block, data, address);
    var s2 := WriteAppData(cfg, s1, data, address).s;
    TwoCalls(cfg, start, Message(msg), AppData(data, address));
    RunAppend(cfg, start, [Message(msg), AppData(data, address)], later);
    RefusedForGood(cfg, s2, later);
  }

  lemma AppDataStrands(cfg: Config, s: Wr, bytes: seq<byte>, block: Block, data: seq<byte>, address: int)
    requires Ok(cfg, s) && bytes != [] && data != [] && |bytes| + cfg.maxFragment + cfg.maxOverhead <= 0xffff
    requires s.flight == Some(bytes) && s.flightOffset == 0 && s.buf == NO_BUFFER && !s.pend.pending && !s.early
    requires !s.shutdown
    requires s.world.seals == [None] && s.world.blocks == [Some(block)] && s.wnum == 0
    ensures var r := WriteAppData(cfg, s, data, address).s;
      r.wire == s.wire && r.flight.None? && Refused(r) && Data(r.buf) == bytes && r.sealed == s.sealed
  {
    hide DoWrite, Data;
    var nw := Min(|data|, MaxRecord(cfg, s));
    assert s.(wnum := 0) == s;
    SealFails(cfg, s, bytes, block, data[0..0 + nw], address + 0);
  }

  // ---- a buffer near 64 KB

  const LARGE := Config(29, 5, false, false, MAX_PLAIN, 0)

  /** The outcomes: four seals that add 29 bytes each, memory that makes the buffer start at byte 7, and a transport
      that takes all of the buffer but five bytes. */
  function LossWorld(): World {
    World([65530], [Some(Ones(16413)), Some(Ones(16413)), Some(Ones(16296)), Some(Ones(16413))], [Some(Block(2, []))])
  }

  function Ones(n: nat): (s: seq<byte>)
    ensures |s| == n && forall i :: 0 <= i < n ==> s[i] == 1
  {
    seq(n, i => 1)
  }

  /** A handshake message of 49035 bytes is queued, and a full record of application data is written. */
  function LossCalls(): seq<Call> {
    [Message(Ones(49035)), AppData(Ones(16384), 0)]
  }

  /** The rest of the record is then read from the wrong end of the buffer. */
  lemma LostRun()
    ensures Ok(LARGE, Start(LossWorld(), false))
    ensures var s := Run(LARGE, Start(LossWorld(), false), LossCalls()); s.lost && !Ordered(s)
  {
    hide Run, DoWrite, AddMessage, WriteAppData, Ordered;
    var start := Start(LossWorld(), false);
    LossQueued(start);
    var s1 := AddMessage(LARGE, start, Ones(49035)).s;
    TwoCalls(LARGE, start, LossCalls()[0], LossCalls()[1]);
    LossWritten(s1);
  }

  lemma OnePiece(s: Wr, msg: seq<byte>, bytes: seq<byte>, more: seq<Option<seq<byte>>>)
    requires Core(s) && s.world.seals == [Some(bytes)] + more && |bytes| == Min(|msg|, MAX_PLAIN) + 29
    ensures var n := Min(|msg|, MAX_PLAIN); var r := AddRecord(LARGE, s, HANDSHAKE, msg[..n]);
      && r == Added(true, r.s) && OnlyQueued(s, r.s) && r.s.world == s.world.(seals := more)
      && r.s.flight == Some((if s.flight.None? then [] else s.flight.value) + bytes)
      && r.s.sealed == s.sealed + [Rec(HANDSHAKE, msg[..n], bytes)]
      && (n < |msg| ==> AddMessage(LARGE, s, msg) == AddMessage(LARGE, r.s, msg[n..]))
      && (n == |msg| ==> AddMessage(LARGE, s, msg) == r)
  {
    assert ([Some(bytes)] + more)[1..] == more;
  }

  lemma LossQueued(s: Wr)
    requires s == Start(LossWorld(), false)
    ensures Core(s)
    ensures var r := AddMessage(LARGE, s, Ones(49035)).s;
      && OnlyQueued(s, r) && r.flight == Some(Ones(49122))
        && r.world == World([65530], [Some(Ones(16413))], [Some(Block(2, []))])
      && WireOf(r.sealed) == Ones(49122)
  {
    hide AddRecord, AddMessage, WireOf, PlainOf;
    var a, b, c := Ones(16413), Ones(16413), Ones(16296);
    var m1 := Ones(49035);
    var m2 := m1[16384..];
    var m3 := m2[16384..];
    var last := [Some(Ones(16413))];
    assert s.world.seals == [Some(a)] + ([Some(b)] + ([Some(c)] + last));
    OnePiece(s, m1, a, [Some(b)] + ([Some(c)] + last));
    var s1 := AddRecord(LARGE, s, HANDSHAKE, m1[..16384]).s;
    OnePiece(s1, m2, b, [Some(c)] + last);
    var s2 := AddRecord(LARGE, s1, HANDSHAKE, m2[..16384]).s;
    OnePiece(s2, m3, c, last);
    var s3 := AddRecord(LARGE, s2, HANDSHAKE, m3[..16267]).s;
    assert [] + a + b + c == Ones(49122);
    OneMore([], Rec(HANDSHAKE, m1[..16384], a), HANDSHAKE);
    OneMore(s1.sealed, Rec(HANDSHAKE, m2[..16384], b), HANDSHAKE);
    OneMore(s2.sealed, Rec(HANDSHAKE, m3[..16267], c), HANDSHAKE);
    assert WireOf([]) == [] by { NoRecords(); }
  }

  lemma NoRecords()
    ensures WireOf([]) == []
  {
  }

  lemma LossWritten(s: Wr)
    requires Ok(LARGE, s) && s.flight == Some(Ones(49122)) && s.flightOffset == 0 && s.wnum == 0 && s.buf == NO_BUFFER
    requires s.world == World([65530], [Some(Ones(16413))], [Some(Block(2, []))]) && !s.early && !s.shutdown
    requires !s.pend.pending
    requires s.wire == [] && WireOf(s.sealed) == Ones(49122)
    ensures var r := WriteAppData(LARGE, s, Ones(16384), 0).s; r.lost && !Ordered(r)
  {
    hide DoWrite, FlushBuffer, SealRecord, WireOf, Data;
    var plain := Ones(16384);
    assert plain[0..0 + 16384] == plain && s.(wnum := 0) == s;
    LossSealed(s);
    var t := SealRecord(LARGE, s, APPLICATION_DATA, plain, 0).s;
    LossFlushed(t);
    assert DoWrite(LARGE, s, APPLICATION_DATA, plain, 0) == Out(-1, FlushBuffer(t).s) by { LossDoWrite(s, plain); }
    assert WriteAppData(LARGE, s, plain, 0).s == FlushBuffer(t).s.(wnum := 0);
  }

  lemma LossDoWrite(s: Wr, plain: seq<byte>)
    requires Core(s) && !s.pend.pending && s.buf.size == 0 && 0 < |plain| <= MAX_PLAIN
    requires var e := SealRecord(LARGE, s, APPLICATION_DATA, plain, 0);
      e.ok && e.s.pend == Pend(true, |plain|, 0, APPLICATION_DATA, |plain|)
    ensures var b := FlushBuffer(SealRecord(LARGE, s, APPLICATION_DATA, plain, 0).s);
      b.ret <= 0 ==> DoWrite(LARGE, s, APPLICATION_DATA, plain, 0) == b
  {
    hide FlushBuffer, SealRecord, Sound;
  }

  /** The window starts at byte 7 and holds 65535 ones; below it the memory is zero. */
  predicate Brimful(w: Window) {
    && Sound(w) && w.offset == 7 && w.size == 65535 == w.cap && |w.mem| == 65542
    && (forall i :: 0 <= i < 7 ==> w.mem[i] == 0) && (forall i :: 7 <= i < 65542 ==> w.mem[i] == 1)
  }

  lemma LossSealed(s: Wr)
    requires Core(s) && s.flight == Some(Ones(49122)) && s.flightOffset == 0 && s.buf == NO_BUFFER
    requires s.world == World([65530], [Some(Ones(16413))], [Some(Block(2, []))]) && !s.pend.pending
    requires WireOf(s.sealed) == Ones(49122)
    ensures var r := SealRecord(LARGE, s, APPLICATION_DATA, Ones(16384), 0);
      && r.ok && r.s.pend == Pend(true, 16384, 0, APPLICATION_DATA, 16384) && Brimful(r.s.buf) && r.s.flight.None?
        && r.s.flightOffset == 0
      && r.s.wire == s.wire && r.s.world.writes == [65530] && r.s.lost == s.lost && r.s.wnum == s.wnum
      && WireOf(r.s.sealed) == Ones(65535)
  {
    hide WireOf, Appended, MoveFlight, Reserve, Overwrite, Memory;
    var tail, bytes := Ones(49122), Ones(16413);
    assert Tail(s) == tail;
    LossReserved(s);
    var e := Reserve(LARGE, s, 16384);
    LossMoved(e.s, tail);
    var t := AfterSeal(MoveFlight(e.s));
    LossAppended(t.buf, bytes);
    OneMore(s.sealed, Rec(APPLICATION_DATA, Ones(16384), bytes), APPLICATION_DATA);
    assert tail + bytes == Ones(65535);
  }

  lemma LossReserved(s: Wr)
    requires Core(s) && Tail(s) == Ones(49122) && s.buf == NO_BUFFER && s.world.blocks == [Some(Block(2, []))]
    ensures var e := Reserve(LARGE, s, 16384);
      && e.ok && e.s == s.(buf := e.s.buf, world := e.s.world) && e.s.world == s.world.(blocks := [])
      && e.s.buf == Window(seq(65542, i => 0), 7, 0, 65535)
  {
    hide Overwrite;
    var at := Misalignment(49122 + 5 + 2);
    assert at == 7;
    var mem := Memory(Block(2, []), 65535 + ALIGN - 1);
    assert mem == seq(65542, i => 0);
    assert Data(NO_BUFFER) == [];
    OverwriteNone(mem, 7);
  }

  lemma LossMoved(s: Wr, tail: seq<byte>)
    requires Core(s) && Tail(s) == tail == Ones(49122) && s.buf == Window(seq(65542, i => 0), 7, 0, 65535)
    ensures var w := MoveFlight(s).buf;
      && w.offset == 7 && w.size == 49122 && w.cap == 65535 && |w.mem| == 65542
      && (forall i :: 0 <= i < 7 ==> w.mem[i] == 0) && (forall i :: 7 <= i < 49129 ==> w.mem[i] == 1)
  {
  }

  lemma LossAppended(w: Window, bytes: seq<byte>)
    requires Sound(w) && w.offset == 7 && w.size == 49122 && w.cap == 65535 && |w.mem| == 65542 && bytes == Ones(16413)
    requires (forall i :: 0 <= i < 7 ==> w.mem[i] == 0) && (forall i :: 7 <= i < 49129 ==> w.mem[i] == 1)
    ensures Brimful(Appended(w, bytes))
  {
  }

  lemma LossFlushed(t: Wr)
    requires Core(t) && Brimful(t.buf) && t.wire == [] && t.world.writes == [65530] && t.flight.None?
    requires WireOf(t.sealed) == Ones(65535)
    ensures var b := FlushBuffer(t); b.ret == -1 && b.s.lost && !Ordered(b.s.(wnum := 0))
  {
    hide WireOf;
    var r := WriteOnce(t);
    assert r.ret == 65530 && r.s.world.writes == [] && r.s.buf == Window(t.buf.mem, 1, 5, 5);
    assert FlushBuffer(t) == FlushBuffer(r.s);
    var b := FlushBuffer(r.s);
    assert b == Out(-1, AfterWrite(r.s));
    assert r.s.wire == Data(t.buf)[..65530];
    assert (r.s.wire + Data(r.s.buf) + Tail(r.s))[65530] == Data(r.s.buf)[0] == t.buf.mem[1] == 0;
    assert Ones(65535)[65530] == 1;
  }

  // ---- a retry that is too short

  /** The first of two records gets through, the second is sealed and blocks. A retry with no data fails and forgets.
      The caller's next, full retry, from other memory if it likes, is told that its first record is written, which
      stands for the blocked one, and seals the second record again. */
  function RetryCalls(a: seq<byte>, b: seq<byte>, address: int): seq<Call> {
    [AppData(a + b, address), AppData([], address)]
  }

  function RetryWorld(sa: seq<byte>, sb: seq<byte>, sc: seq<byte>, block: Block): World {
    World([|sa|, -1, |sb|, |sc|], [Some(sa), Some(sb), Some(sc)], [Some(block), Some(block), Some(block)])
  }

  predicate RecordFor(cfg: Config, plain: seq<byte>, bytes: seq<byte>) {
    |plain| == cfg.maxFragment && |plain| <= |bytes| <= |plain| + cfg.maxOverhead
  }

  /** One record through an empty buffer and a transport that takes it whole. */
  lemma RecordThrough(cfg: Config, s: Wr, plain: seq<byte>, address: int, bytes: seq<byte>, block: Block)
    requires Core(s) && ConfigOk(cfg) && RecordFor(cfg, plain, bytes) && |plain| + cfg.maxOverhead <= 0xffff
    requires s.buf == NO_BUFFER && s.flight.None? && !s.pend.pending && s.world.seals != []
    requires s.world.seals[0] == Some(bytes)
    requires s.world.blocks != [] && s.world.blocks[0] == Some(block) && s.world.writes != []
    requires s.world.writes[0] == |bytes|
    ensures var r := DoWrite(cfg, s, APPLICATION_DATA, plain, address);
      && r.ret == |plain| && r.s.buf == NO_BUFFER && r.s.flight.None? && !r.s.pend.pending
      && r.s.world == World(s.world.writes[1..], s.world.seals[1..], s.world.blocks[1..])
      && r.s.sealed == s.sealed + [Rec(APPLICATION_DATA, plain, bytes)]
  {
    hide Data, Ensured, Appended;
    RecordSealed(cfg, s, plain, address, bytes, block);
    var t := SealRecord(cfg, s, APPLICATION_DATA, plain, address).s;
    assert WriteOnce(t).ret == |bytes| && WriteOnce(t).s.buf.size == 0;
    assert FlushBuffer(t) == FlushBuffer(WriteOnce(t).s);
  }

  lemma RecordSealed(cfg: Config, s: Wr, plain: seq<byte>, address: int, bytes: seq<byte>, block: Block)
    requires Core(s) && ConfigOk(cfg) && RecordFor(cfg, plain, bytes) && |plain| + cfg.maxOverhead <= 0xffff
    requires s.buf == NO_BUFFER && s.flight.None? && !s.pend.pending && s.world.seals != []
    requires s.world.seals[0] == Some(bytes)
    requires s.world.blocks != [] && s.world.blocks[0] == Some(block)
    ensures var r := SealRecord(cfg, s, APPLICATION_DATA, plain, address);
      && r.ok && r.s.buf.size == |bytes| && r.s.flight.None?
        && r.s.pend == Pend(true, |plain|, address, APPLICATION_DATA, |plain|)
      && r.s.world == World(s.world.writes, s.world.seals[1..], s.world.blocks[1..])
      && r.s.sealed == s.sealed + [Rec(APPLICATION_DATA, plain, bytes)]
  {
    hide Data, Overwrite, Memory, Misalignment;
    assert Tail(s) == [];
  }

  /** One record that is sealed while the transport blocks. */
  lemma RecordBlocks(cfg: Config, s: Wr, plain: seq<byte>, address: int, bytes: seq<byte>, block: Block)
    requires Core(s) && ConfigOk(cfg) && RecordFor(cfg, plain, bytes) && |plain| + cfg.maxOverhead <= 0xffff
    requires s.buf == NO_BUFFER && s.flight.None? && !s.pend.pending && s.world.seals != []
    requires s.world.seals[0] == Some(bytes)
    requires s.world.blocks != [] && s.world.blocks[0] == Some(block) && s.world.writes != [] && s.world.writes[0] == -1
    ensures var r := DoWrite(cfg, s, APPLICATION_DATA, plain, address);
      && r.ret == -1 && r.s.buf.size == |bytes| && r.s.flight.None?
      && r.s.pend == Pend(true, |plain|, address, APPLICATION_DATA, |plain|)
      && r.s.world == World(s.world.writes[1..], s.world.seals[1..], s.world.blocks[1..])
      && r.s.sealed == s.sealed + [Rec(APPLICATION_DATA, plain, bytes)]
  {
    hide Data, Ensured, Appended;
    RecordSealed(cfg, s, plain, address, bytes, block);
  }

  /** The blocked record goes out under another address. */
  lemma PendingThrough(cfg: Config, s: Wr, plain: seq<byte>, address: int)
    requires Core(s) && cfg.movingBuffer && s.pend.pending && s.pend.typ == APPLICATION_DATA && s.pend.tot == |plain|
    requires s.world.writes != [] && s.world.writes[0] == s.buf.size > 0
    ensures var r := DoWrite(cfg, s, APPLICATION_DATA, plain, address);
      && r.ret == |plain| && r.s.buf == NO_BUFFER && !r.s.pend.pending && r.s.sealed == s.sealed
        && r.s.flight == s.flight
      && r.s.world == s.world.(writes := s.world.writes[1..])
  {
    hide Data;
    assert FlushBuffer(s) == FlushBuffer(WriteOnce(s).s);
  }

  predicate Settled(s: Wr) {
    s.buf == NO_BUFFER && s.flight.None? && !s.pend.pending && !s.early && !s.shutdown
  }

  lemma FirstWrite(cfg: Config, s: Wr, a: seq<byte>, b: seq<byte>, sa: seq<byte>, sb: seq<byte>, sc: seq<byte>,
      block: Block, address: int)
    requires Ok(cfg, s) && !cfg.partialWrite && cfg.maxFragment + cfg.maxOverhead <= 0xffff && Settled(s) && s.wnum == 0
    requires RecordFor(cfg, a, sa) && RecordFor(cfg, b, sb) && s.world == RetryWorld(sa, sb, sc, block)
    ensures var r := WriteAppData(cfg, s, a + b, address);
      && r.ret == -1 && r.s.wnum == |a| && r.s.buf.size == |sb| && r.s.flight.None? && !r.s.early && !r.s.shutdown
      && r.s.pend == Pend(true, |b|, address + |a|, APPLICATION_DATA, |b|)
      && r.s.world == World([|sb|, |sc|], [Some(sc)], [Some(block)])
      && r.s.sealed == s.sealed + [Rec(APPLICATION_DATA, a, sa)] + [Rec(APPLICATION_DATA, b, sb)]
  {
    hide DoWrite, Sound;
    var data, n := a + b, |a|;
    assert data[0..0 + n] == a && data[n..n + n] == b && s.(wnum := 0) == s;
    RecordThrough(cfg, s, a, address + 0, sa, block);
    var s1 := DoWrite(cfg, s, APPLICATION_DATA, a, address + 0).s;
    assert s1.world == World([-1, |sb|, |sc|], [Some(sb), Some(sc)], [Some(block), Some(block)]);
    RecordBlocks(cfg, s1, b, address + n, sb, block);
    assert AppLoop(cfg, s, data, address, 0) == AppLoop(cfg, s1, data, address, n);
  }

  lemma LastWrite(cfg: Config, s: Wr, a: seq<byte>, b: seq<byte>, sb: seq<byte>, sc: seq<byte>, block: Block,
      address: int)
    requires Ok(cfg, s) && !cfg.partialWrite && cfg.movingBuffer && cfg.maxFragment + cfg.maxOverhead <= 0xffff
    requires |a| == |b| && RecordFor(cfg, b, sc) && RecordFor(cfg, b, sb) && s.wnum == 0 && s.buf.size == |sb|
    requires s.flight.None?
    requires !s.early && !s.shutdown && s.pend.pending && s.pend.typ == APPLICATION_DATA && s.pend.tot == |a|
    requires s.world == World([|sb|, |sc|], [Some(sc)], [Some(block)])
    ensures var r := WriteAppData(cfg, s, a + b, address);
      r.ret == |a + b| && r.s.sealed == s.sealed + [Rec(APPLICATION_DATA, b, sc)]
  {
    hide DoWrite, Sound;
    var data, n := a + b, |a|;
    assert data[0..0 + n] == a && data[n..n + n] == b && s.(wnum := 0) == s;
    PendingThrough(cfg, s, a, address + 0);
    var s1 := DoWrite(cfg, s, APPLICATION_DATA, a, address + 0).s;
    assert s1.world == World([|sc|], [Some(sc)], [Some(block)]);
    RecordThrough(cfg, s1, b, address + n, sc, block);
    assert AppLoop(cfg, s, data, address, 0) == AppLoop(cfg, s1, data, address, n);
  }

  /** Of a write of a ++ b that reports success in full, a, b and b again were sealed. */
  lemma ShortRetryRepeats(cfg: Config, a: seq<byte>, b: seq<byte>, sa: seq<byte>, sb: seq<byte>, sc: seq<byte>,
      block: Block, address: int)
    requires ConfigOk(cfg) && !cfg.partialWrite && cfg.movingBuffer && cfg.maxFragment + cfg.maxOverhead <= 0xffff
    requires RecordFor(cfg, a, sa) && RecordFor(cfg, b, sb) && RecordFor(cfg, b, sc)
    ensures var start := Start(RetryWorld(sa, sb, sc, block), false);
      && Ok(cfg, start)
      && var s := Run(cfg, start, RetryCalls(a, b, address));
        && PlainOf(APPLICATION_DATA, s.sealed) == a + b
        && WriteAppData(cfg, s, a + b, address).ret == |a + b|
        && PlainOf(APPLICATION_DATA, WriteAppData(cfg, s, a + b, address).s.sealed) == a + b + b
  {
    hide Run, DoWrite, AppLoop, PlainOf, Data;
    var start := Start(RetryWorld(sa, sb, sc, block), false);
    FirstWrite(cfg, start, a, b, sa, sb, sc, block, address);
    var s1 := WriteAppData(cfg, start, a + b, address).s;
    var s2 := WriteAppData(cfg, s1, [], address).s;
    assert s2 == s1.(wnum := 0);
    TwoCalls(cfg, start, AppData(a + b, address), AppData([], address));
    LastWrite(cfg, s2, a, b, sb, sc, block, address);
    OneMore([], Rec(APPLICATION_DATA, a, sa), APPLICATION_DATA);
    OneMore([] + [Rec(APPLICATION_DATA, a, sa)], Rec(APPLICATION_DATA, b, sb), APPLICATION_DATA);
    OneMore(s2.sealed, Rec(APPLICATION_DATA, b, sc), APPLICATION_DATA);
    assert PlainOf(APPLICATION_DATA, []) == [] by { NoPlain(); }
  }

  lemma NoPlain()
    ensures PlainOf(APPLICATION_DATA, []) == []
  {
  }
}
