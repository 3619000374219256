/** The TLS write path as the source runs it: the connection's fields, changed call by call. */
module TlsWriter {
  import opened Bytes
  import opened SslBuffer
  import opened TlsWrite
  import opened TlsWriteRuns

  /** The transport. What its next calls will do is given. */
  class Bio {
    var wire: seq<byte>
    var writes: seq<int>

    constructor (writes: seq<int>)
      ensures wire == [] && this.writes == writes
    {
      wire, this.writes := [], writes;
    }

    /** `BIO_write` */
    method Write(data: seq<byte>) returns (ret: int)
      modifies this
      ensures ret == BioRet(old(writes), |data|) && writes == Popped(old(writes))
      ensures wire == if ret > 0 then old(wire) + data[..ret] else old(wire)
    {
      ret := -1;
      if writes != [] {
        ret := if writes[0] > |data| then |data| else writes[0];
        writes := writes[1..];
      }
      if ret > 0 {
        wire := wire + data[..ret];
      }
    }

    /** `BIO_flush` */
    method Flush() returns (ret: int)
      modifies this`writes
      ensures ret == BioRet(old(writes), 1) && writes == Popped(old(writes))
    {
      ret := -1;
      if writes != [] {
        ret := if writes[0] > 1 then 1 else writes[0];
        writes := writes[1..];
      }
    }
  }

  class Writer {
    const cfg: Config
    const bio: Bio
    const buf: SSLBuffer
    var seals: seq<Option<seq<byte>>>
    var blocks: seq<Option<Block>>
    var shutdown: bool
    var flight: Option<seq<byte>>
    var flightOffset: nat
    var wnum: nat
    var wpend: Pend // the five wpend_ fields
    var early: bool
    var earlyWritten: nat
    ghost var sealed: seq<Rec>
    ghost var lost: bool
    ghost var earlySealed: nat

    ghost function State(): Wr
      reads this, bio, buf, if buf.buf == null then {} else {buf.buf}
    {
      Wr(bio.wire, buf.View(), flight, flightOffset, wnum, wpend, early,
         earlyWritten, shutdown, World(bio.writes, seals, blocks), sealed, lost, earlySealed)
    }

    ghost predicate Sane()
      reads this, bio, buf, if buf.buf == null then {} else {buf.buf}
    {
      buf.Valid() && ConfigOk(cfg) && Core(State())
    }

    ghost predicate Valid()
      reads this, bio, buf, if buf.buf == null then {} else {buf.buf}
    {
      buf.Valid() && Ok(cfg, State())
    }

    constructor (cfg: Config, world: World, early: bool)
      requires ConfigOk(cfg)
      ensures Valid() && fresh(bio) && fresh(buf) && State() == Start(world, early) && this.cfg == cfg
    {
      this.cfg := cfg;
      bio := new Bio(world.writes);
      buf := new SSLBuffer();
      seals, blocks := world.seals, world.blocks;
      shutdown, flight, flightOffset, wnum := false, None, 0, 0;
      wpend := Pend(false, 0, 0, 0, 0);
      this.early, earlyWritten := early, 0;
      sealed, lost, earlySealed := [], false, 0;
    }

    // ---- the transport

    /** One turn of the loop of `tls_write_buffer_flush` */
    method FlushOnce() returns (ret: int)
      requires Sane() && buf.size > 0
      modifies this`lost, bio, buf`offset, buf`size, buf`cap
      ensures Out(ret, State()) == WriteOnce(old(State())) && Sane()
    {
      hide Data, OffsetOk;
      var data := buf.Bytes();
      ret := bio.Write(data);
      if ret > 0 {
        lost := lost || Loses(buf.View(), ret);
        buf.Consume(ret);
      }
    }

    /** `tls_write_buffer_flush` */
    method Flush() returns (ret: int)
      requires Sane()
      modifies this`lost, bio, buf
      ensures Out(ret, State()) == FlushBuffer(old(State())) && Sane()
      ensures buf.buf == null || buf.buf == old(buf.buf)
    {
      hide WriteOnce, OffsetOk, Sound;
      ghost var start := State();
      while buf.size > 0
        invariant Sane() && buf.buf == old(buf.buf) && FlushBuffer(start) == FlushBuffer(State())
        decreases buf.size
      {
        ret := FlushOnce();
        if ret <= 0 {
          return;
        }
      }
      buf.Clear();
      ret := 1;
    }

    // ---- the pending flight

    /** The next outcome of `tls_seal_record` */
    method Seal(plain: seq<byte>) returns (bytes: Option<seq<byte>>)
      modifies this`seals
      ensures bytes == SealOf(cfg, old(seals), plain) && seals == Popped(old(seals))
    {
      bytes := None;
      if seals != [] {
        if seals[0].Some? && |plain| <= |seals[0].value| <= |plain| + cfg.maxOverhead {
          bytes := seals[0];
        }
        seals := seals[1..];
      }
    }

    /** `add_record_to_flight` */
    method QueueRecord(typ: byte, plain: seq<byte>) returns (ok: bool)
      requires Sane()
      modifies this`flight, this`sealed, this`seals
      ensures Added(ok, State()) == AddRecord(cfg, old(State()), typ, plain) && Sane()
    {
      hide Sound;
      if flight.None? {
        flight := Some([]);
      }
      var bytes := Seal(plain);
      if bytes.None? {
        return false;
      }
      flight := Some(flight.value + bytes.value);
      sealed := sealed + [Rec(typ, plain, bytes.value)];
      ok := true;
    }

    /** `ssl3_add_message` */
    method QueueMessage(msg: seq<byte>) returns (ok: bool)
      requires Sane()
      modifies this`flight, this`sealed, this`seals
      ensures Added(ok, State()) == AddMessage(cfg, old(State()), msg) && Sane()
    {
      hide AddRecord, Core;
      ghost var start := State();
      var rest := msg;
      while true
        invariant Sane() && AddMessage(cfg, start, msg) == AddMessage(cfg, State(), rest)
        decreases |rest|
      {
        var n := Min(|rest|, cfg.maxFragment);
        ok := QueueRecord(HANDSHAKE, rest[..n]);
        if !ok {
          return;
        }
        if rest[n..] == [] {
          break;
        }
        rest := rest[n..];
      }
    }

    /** The loop of `ssl3_flush_flight` */
    method SendFlight() returns (ret: int)
      requires Sane() && flight.Some?
      modifies this`flightOffset, bio
      ensures Out(ret, State()) == WriteFlight(old(State())) && Sane()
    {
      hide Sound, WriteFlight;
      ghost var start := State();
      while flightOffset < |flight.value|
        invariant Sane() && flight == old(flight) && WriteFlight(start) == WriteFlight(State())
        decreases |flight.value| - flightOffset
      {
        ret := SendPiece();
        if ret <= 0 {
          return;
        }
      }
      NothingLeft(State());
      ret := 1;
    }

    method SendPiece() returns (ret: int)
      requires Sane() && flight.Some? && flightOffset < |flight.value|
      modifies this`flightOffset, bio
      ensures Sane() && flight == old(flight) && (ret > 0 ==> flightOffset == old(flightOffset) + ret)
      ensures WriteFlight(old(State())) == if ret <= 0 then Out(ret, State()) else WriteFlight(State())
    {
      hide Sound;
      ret := bio.Write(flight.value[flightOffset..]);
      if ret > 0 {
        flightOffset := flightOffset + ret;
      }
    }

    /** `ssl3_flush_flight` */
    method FlushQueue() returns (ret: int)
      requires Sane()
      modifies this`flight, this`flightOffset, this`lost, bio, buf
      ensures Out(ret, State()) == FlushFlight(old(State())) && Sane()
      ensures buf.buf == null || buf.buf == old(buf.buf)
    {
      hide FlushBuffer, WriteFlight, Sound;
      if flight.None? {
        return 1;
      }
      if shutdown || |flight.value| > 0x7fff_ffff {
        return -1;
      }
      if buf.size > 0 {
        ret := Flush();
        if ret <= 0 {
          return;
        }
      }
      ret := SendFlight();
      if ret <= 0 {
        return;
      }
      ret := bio.Flush();
      if ret <= 0 {
        return -1;
      }
      flight, flightOffset := None, 0;
      ret := 1;
    }

    // ---- records of any type

    /** `ssl3_write_pending` */
    method FinishRecord(typ: byte, plain: seq<byte>, address: int) returns (ret: int)
      requires Sane() && wpend.pending
      modifies this`wpend, this`lost, bio, buf
      ensures Out(ret, State()) == WritePending(cfg, old(State()), typ, plain, address) && Sane()
      ensures buf.buf == null || buf.buf == old(buf.buf)
    {
      hide FlushBuffer, Sound, OffsetOk;
      if wpend.tot > |plain| || (!cfg.movingBuffer && wpend.buf != address) || wpend.typ != typ {
        return -1;
      }
      ret := Flush();
      if ret <= 0 {
        return;
      }
      wpend := wpend.(pending := false);
      ret := wpend.ret;
    }

    /** `EnsureCap` on the write buffer for the flight and a record of n bytes */
    method Grow(n: nat) returns (ok: bool)
      requires Sane()
      modifies this`blocks, buf
      ensures Added(ok, State()) == Reserve(cfg, old(State()), n) && Sane()
      ensures buf.buf == old(buf.buf) || (buf.buf != null && fresh(buf.buf))
    {
      hide Ensured, Sound;
      var flightLen := if flight.Some? then |flight.value| - flightOffset else 0;
      assert flightLen == |Tail(State())|;
      var need := n + cfg.maxOverhead + flightLen;
      var next := if blocks == [] then None else blocks[0];
      if buf.cap < need <= 0xffff && blocks != [] {
        blocks := blocks[1..];
      }
      ok := buf.EnsureCap(flightLen + cfg.alignPrefix, need, next);
    }

    /** The rest of the flight goes into the buffer. */
    method Move()
      requires Sane() && |Tail(State())| <= buf.cap - buf.size
      modifies this`flight, this`flightOffset, buf`size, buf.buf
      ensures Sane() && State() == MoveFlight(old(State()))
    {
      hide Appended;
      assert Tail(State()) == if flight.Some? then flight.value[flightOffset..] else [];
      if flight.Some? {
        buf.Append(flight.value[flightOffset..]);
      } else {
        buf.Append([]);
      }
      flight, flightOffset := None, 0;
    }

    /** The part of `do_ssl3_write` before `ssl3_write_pending` */
    method PutRecord(typ: byte, plain: seq<byte>, address: int) returns (ok: bool)
      requires Sane() && !wpend.pending && plain != [] && buf.size == 0
      modifies this, buf, buf.buf
      ensures Added(ok, State()) == SealRecord(cfg, old(State()), typ, plain, address) && Sane()
      ensures ok ==> wpend.pending
      ensures buf.buf == old(buf.buf) || fresh(buf.buf)
    {
      hide Appended, Data, Sound, Reserve, MoveFlight, SealIn, OffsetOk, TailOf;
      ok := Grow(|plain|);
      if !ok {
        return;
      }
      Move();
      ok := PutSealed(typ, plain, address);
    }

    method PutSealed(typ: byte, plain: seq<byte>, address: int) returns (ok: bool)
      requires Sane() && plain != [] && |plain| + cfg.maxOverhead <= State().buf.cap - State().buf.size
      modifies this`seals, this`sealed, this`wpend, buf`size, buf.buf
      ensures Added(ok, State()) == SealIn(cfg, old(State()), typ, plain, address) && Sane()
    {
      hide Appended, Data, Sound, OffsetOk, Grew, SealOf, Popped;
      var bytes := Seal(plain);
      if bytes.None? {
        return false;
      }
      Memorize(typ, plain, address, bytes.value);
      ok := true;
    }

    /** The record is in the buffer, and the arguments are kept for `ssl3_write_pending`. */
    method Memorize(typ: byte, plain: seq<byte>, address: int, bytes: seq<byte>)
      requires Sane() && plain != [] && |bytes| <= State().buf.cap - State().buf.size
      modifies this`sealed, this`wpend, buf`size, buf.buf
      ensures State() == old(State()).(buf := Appended(old(State()).buf, bytes),
        sealed := old(sealed) + [Rec(typ, plain, bytes)], pend := Pend(true, |plain|, address, typ, |plain|))
      ensures Sane()
    {
      hide Appended, Data, OffsetOk;
      buf.Append(bytes);
      sealed := sealed + [Rec(typ, plain, bytes)];
      wpend := Pend(true, |plain|, address, typ, |plain|);
    }

    /** `do_ssl3_write`. It refuses while something is in the buffer that belongs to no pending record. */
    method PutAndFlush(typ: byte, plain: seq<byte>, address: int) returns (ret: int)
      requires Sane()
      modifies this, bio, buf, buf.buf
      ensures Out(ret, State()) == DoWrite(cfg, old(State()), typ, plain, address) && Sane()
      ensures !old(wpend.pending) && old(buf.size) > 0 ==> ret == -1 && State() == old(State())
      ensures buf.buf == null || buf.buf == old(buf.buf) || fresh(buf.buf)
    {
      hide FlushBuffer, SealRecord, Data, Sound, OffsetOk;
      if wpend.pending {
        ret := FinishRecord(typ, plain, address);
        return;
      }
      if |plain| > MAX_PLAIN || buf.size > 0 {
        return -1;
      }
      if plain == [] {
        return 0;
      }
      var ok := PutRecord(typ, plain, address);
      if !ok {
        return -1;
      }
      ret := FinishRecord(typ, plain, address);
    }

    // ---- application data and alerts

    /** One record of application data */
    method PutAppRecord(plain: seq<byte>, address: int) returns (ret: int)
      requires Valid() && (early ==> |plain| <= cfg.earlyLimit - earlyWritten)
      modifies this, bio, buf, buf.buf
      ensures Out(ret, State()) == WriteRecord(cfg, old(State()), plain, address) && Valid()
      ensures buf.buf == null || buf.buf == old(buf.buf) || fresh(buf.buf)
    {
      hide DoWrite, Sound, OffsetOk;
      ghost var before := State();
      ret := PutAndFlush(APPLICATION_DATA, plain, address);
      if early {
        if !before.pend.pending && |sealed| > |before.sealed| {
          earlySealed := earlySealed + |plain|;
        }
        if ret > 0 {
          earlyWritten := earlyWritten + ret;
        }
      }
    }

    /** `ssl3_write_app_data` */
    method Write(data: seq<byte>, address: int) returns (ret: int, needsHandshake: bool)
      requires Valid()
      modifies this, bio, buf, buf.buf
      ensures AppOut(ret, needsHandshake, State()) == WriteAppData(cfg, old(State()), data, address) && Valid()
      ensures buf.buf == null || buf.buf == old(buf.buf) || fresh(buf.buf)
    {
      hide AppLoop, Ok;
      if shutdown {
        return -1, false;
      }
      var tot := wnum;
      SmallChanges(cfg, State(), 0);
      wnum := 0;
      if |data| < tot {
        return -1, false;
      }
      ghost var start, from := State(), tot;
      var more := true;
      ret, needsHandshake := 0, false;
      while more
        invariant Valid() && (more ==>
          tot <= |data| && AppLoop(cfg, start, data, address, from) == AppLoop(cfg, State(), data, address, tot))
        invariant !more ==> AppLoop(cfg, start, data, address, from) == AppOut(ret, needsHandshake, State())
        invariant buf.buf == null || buf.buf == old(buf.buf) || fresh(buf.buf)
        decreases more, |data| - tot
      {
        ret, needsHandshake, more := WritePiece(data, address, tot);
        if more {
          tot := tot + ret;
        }
      }
    }

    /** The largest record allowed now */
    method Limit() returns (max: nat)
      requires Valid()
      ensures max == MaxRecord(cfg, State())
    {
      max := cfg.maxFragment;
      if early && max > cfg.earlyLimit - earlyWritten {
        max := cfg.earlyLimit - earlyWritten;
      }
    }

    /** One turn of the loop of `ssl3_write_app_data` */
    method WritePiece(data: seq<byte>, address: int, tot: nat) returns (ret: int, needsHandshake: bool, more: bool)
      requires Valid() && tot <= |data|
      modifies this, bio, buf, buf.buf
      ensures Valid() && (more ==> 0 < ret <= |data| - tot)
      ensures AppLoop(cfg, old(State()), data, address, tot) ==
        if more then AppLoop(cfg, State(), data, address, tot + ret) else AppOut(ret, needsHandshake, State())
      ensures buf.buf == null || buf.buf == old(buf.buf) || fresh(buf.buf)
    {
      hide AppLoop, WriteRecord, Ok, MaxRecord, Core, EarlyOk;
      needsHandshake, more := false, false;
      var n := |data| - tot;
      var max := Limit();
      SmallChanges(cfg, State(), tot);
      AppTurn(cfg, State(), data, address, tot);
      if max == 0 {
        wnum := tot;
        early := false;
        return -1, true, false;
      }
      var nw := if n > max then max else n;
      ret := PutAppRecord(data[tot..tot + nw], address + tot);
      if ret <= 0 {
        SmallChanges(cfg, State(), tot);
        wnum := tot;
      } else if ret == n || cfg.partialWrite {
        ret := tot + ret;
      } else {
        more := true;
      }
    }

    /** `ssl3_dispatch_alert` */
    method SendAlert(level: byte, desc: byte, address: int) returns (ret: int)
      requires Valid()
      modifies this, bio, buf, buf.buf
      ensures Out(ret, State()) == DispatchAlert(cfg, old(State()), level, desc, address) && Valid()
      ensures buf.buf == null || buf.buf == old(buf.buf) || fresh(buf.buf)
    {
      hide DoWrite, Sound, OffsetOk;
      ret := PutAndFlush(ALERT, [level, desc], address);
      if ret <= 0 {
        return;
      }
      if level == 2 {
        var flushed := bio.Flush();
      }
      ret := 1;
    }

    /** Any of the calls */
    method Perform(c: Call) returns (ret: int)
      requires Valid()
      modifies this, bio, buf, buf.buf
      ensures Out(ret, State()) == Do(cfg, old(State()), c) && Valid()
      ensures buf.buf == null || buf.buf == old(buf.buf) || fresh(buf.buf)
    {
      hide AddMessage, FlushFlight, WriteAppData, DispatchAlert, Sound, OffsetOk;
      match c
      case Message(msg) =>
        var ok := QueueMessage(msg);
        ret := if ok then 1 else 0;
      case Flight => ret := FlushQueue();
      case AppData(data, address) =>
        var needsHandshake;
        ret, needsHandshake := Write(data, address);
      case Alert(level, desc, address) => ret := SendAlert(level, desc, address);
      case Shutdown =>
        shutdown := true;
        ret := 1;
      case StopEarly =>
        early := false;
        ret := 1;
    }
  }

  /** Any run: the object is where the specification is after the same calls. So the transport has the sealed records in
      order, with the buffer and the flight behind them, unless something was lost, and early data within its limit. */
  method Serve(cfg: Config, world: World, early: bool, calls: seq<Call>) returns (w: Writer)
    requires ConfigOk(cfg)
    ensures fresh(w) && w.Valid() && w.cfg == cfg && w.State() == Run(cfg, Start(world, early), calls)
    ensures !w.lost ==> w.bio.wire + w.buf.Contents() + TailOf(w.flight, w.flightOffset) == WireOf(w.sealed)
    ensures RoomInRun(cfg, Start(world, early), calls) ==> !w.lost
    ensures w.earlySealed <= cfg.earlyLimit
  {
    hide Do, Run, Ok, WireOf, RoomInRun;
    w := new Writer(cfg, world, early);
    NoCalls(cfg, Start(world, early), calls);
    for i := 0 to |calls|
      invariant fresh(w) && fresh(w.bio) && fresh(w.buf) && (w.buf.buf != null ==> fresh(w.buf.buf)) && w.Valid()
      invariant w.cfg == cfg
      invariant Ok(cfg, Start(world, early)) && w.State() == Run(cfg, Start(world, early), calls[..i])
    {
      OneMoreCall(cfg, Start(world, early), calls, i);
      var ret := w.Perform(calls[i]);
    }
    assert calls[..|calls|] == calls;
    OrderedRun(cfg, world, early, calls);
    if RoomInRun(cfg, Start(world, early), calls) { RoomyRunIsOrdered(cfg, world, early, calls); }
  }

  lemma NoCalls(cfg: Config, s: Wr, calls: seq<Call>)
    requires Ok(cfg, s)
    ensures Run(cfg, s, calls[..0]) == s
  {
  }

  lemma OneMoreCall(cfg: Config, s: Wr, calls: seq<Call>, i: nat)
    requires Ok(cfg, s) && i < |calls|
    ensures Run(cfg, s, calls[..i + 1]) == Do(cfg, Run(cfg, s, calls[..i]), calls[i]).s
  {
    hide Do, Ok;
    assert calls[..i + 1] == calls[..i] + [calls[i]];
    RunAppend(cfg, s, calls[..i], [calls[i]]);
    var t := Run(cfg, s, calls[..i]);
    assert [calls[i]][1..] == [] && Run(cfg, t, [calls[i]]) == Do(cfg, t, calls[i]).s;
  }

  lemma AppTurn(cfg: Config, s: Wr, data: seq<byte>, address: int, tot: nat)
    requires Ok(cfg, s) && tot <= |data|
    ensures MaxRecord(cfg, s) == 0 ==>
      AppLoop(cfg, s, data, address, tot) == AppOut(-1, true, s.(wnum := tot, early := false))
    ensures MaxRecord(cfg, s) > 0 ==>
      var n := |data| - tot;
      var nw := Min(n, MaxRecord(cfg, s));
      var r := WriteRecord(cfg, s, data[tot..tot + nw], address + tot);
      AppLoop(cfg, s, data, address, tot) ==
        if r.ret <= 0 then AppOut(r.ret, false, r.s.(wnum := tot))
        else if r.ret == n || cfg.partialWrite then AppOut(tot + r.ret, false, r.s)
        else AppLoop(cfg, r.s, data, address, tot + r.ret)
  {
    hide WriteRecord, Core, EarlyOk;
  }

  lemma NothingLeft(s: Wr)
    requires Core(s) && s.flight.Some? && s.flightOffset == |s.flight.value|
    ensures WriteFlight(s) == Out(1, s)
  {
  }

  lemma SmallChanges(cfg: Config, s: Wr, n: nat)
    requires Ok(cfg, s)
    ensures Ok(cfg, s.(wnum := n)) && Ok(cfg, s.(wnum := n, early := false))
    ensures (s.early ==> s.earlyWritten <= cfg.earlyLimit) && 0 < cfg.maxFragment
  {
    hide Sound, OffsetOk;
  }
}
