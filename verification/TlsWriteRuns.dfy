/** Whole runs of the TLS write path: any calls, whatever the transport, the AEAD and the allocator do. */
module TlsWriteRuns {
  import opened Bytes
  import opened SslBuffer
  import opened TlsWrite

  datatype Call =
    | Message(msg: seq<byte>)
    | Flight
    | AppData(data: seq<byte>, address: int)
    | Alert(level: byte, desc: byte, address: int)
    | Shutdown
    | StopEarly

  function Do(cfg: Config, s: Wr, c: Call): (r: Out)
    requires Ok(cfg, s)
    ensures Ok(cfg, r.s)
  {
    match c
    case Message(msg) => var r := AddMessage(cfg, s, msg); Out(if r.ok then 1 else 0, r.s)
    case Flight => FlushFlight(s)
    case AppData(data, address) => var r := WriteAppData(cfg, s, data, address); Out(r.ret, r.s)
    case Alert(level, desc, address) => DispatchAlert(cfg, s, level, desc, address)
    case Shutdown => Out(1, s.(shutdown := true))
    case StopEarly => Out(1, s.(early := false))
  }

  function Run(cfg: Config, s: Wr, calls: seq<Call>): (r: Wr)
    requires Ok(cfg, s)
    ensures Ok(cfg, r)
    decreases |calls|
  {
    if calls == [] then s else Run(cfg, Do(cfg, s, calls[0]).s, calls[1..])
  }

  // ---- order

  lemma DoKeeps(cfg: Config, s: Wr, c: Call)
    requires Ok(cfg, s)
    ensures Keeps(s, Do(cfg, s, c).s)
  {
    hide AddMessage, FlushFlight, WriteAppData, DispatchAlert, EarlyOk, InOrder, Data, TailOf;
    match c
    case Message(msg) => var done := AddMessageKeeps(cfg, s, msg);
    case Flight => FlushFlightKeeps(s);
    case AppData(data, address) => WriteAppDataKeeps(cfg, s, data, address);
    case Alert(level, desc, address) => AlertKeeps(cfg, s, level, desc, address);
    case Shutdown =>
    case StopEarly =>
  }

  lemma {:induction false} RunKeeps(cfg: Config, s: Wr, calls: seq<Call>)
    requires Ok(cfg, s)
    ensures Keeps(s, Run(cfg, s, calls))
    decreases |calls|
  {
    hide Do, Ordered, Core, EarlyOk;
    if calls != [] {
      DoKeeps(cfg, s, calls[0]);
      RunKeeps(cfg, Do(cfg, s, calls[0]).s, calls[1..]);
    }
  }

  /** In every run, whatever is written partially or fails: as long as Consume has not wrapped its offset with data
      left, the wire, the buffer and the rest of the flight are all records sealed so far, in order. Early data stays
      within the limit. */
  lemma OrderedRun(cfg: Config, world: World, early: bool, calls: seq<Call>)
    requires ConfigOk(cfg)
    ensures Ok(cfg, Start(world, early))
    ensures var s := Run(cfg, Start(world, early), calls); (!s.lost ==> Ordered(s)) && s.earlySealed <= cfg.earlyLimit
  {
    hide Run;
    RunKeeps(cfg, Start(world, early), calls);
    assert Ordered(Start(world, early));
  }

  lemma {:induction false} RunAppend(cfg: Config, s: Wr, a: seq<Call>, b: seq<Call>)
    requires Ok(cfg, s)
    ensures Run(cfg, s, a + b) == Run(cfg, Run(cfg, s, a), b)
    decreases |a|
  {
    hide Do, Ok;
    if a == [] {
      assert a + b == b;
    } else {
      assert (a + b)[1..] == a[1..] + b;
      RunAppend(cfg, Do(cfg, s, a[0]).s, a[1..], b);
    }
  }

  lemma TwoCalls(cfg: Config, s: Wr, a: Call, b: Call)
    requires Ok(cfg, s)
    ensures Run(cfg, s, [a, b]) == Do(cfg, Do(cfg, s, a).s, b).s
  {
    hide Do, Ok;
    var t := Do(cfg, s, a).s;
    assert [a, b][1..] == [b] && [b][1..] == [];
    assert Run(cfg, t, [b]) == Do(cfg, t, b).s;
  }

  // ---- every byte once

  /** The application data sealed so far is what was sealed before, and then the start of this buffer: what was reported
      and what is pending. */
  ghost predicate InProgress(s: Wr, before: seq<byte>, data: seq<byte>) {
    SealedUpTo(s.sealed, before, data, s.wnum + Unreported(s.pend))
  }

  /** What a call of `ssl3_write_app_data` that got through has done. */
  ghost predicate Through(cfg: Config, s: Wr, before: seq<byte>, data: seq<byte>, ret: int) {
    && 0 < ret <= |data| && PlainOf(APPLICATION_DATA, s.sealed) == before + data[..ret]
      && (cfg.partialWrite || ret == |data|)
    && s.wnum == 0 && !s.pend.pending && s.buf.size == 0
  }

  lemma {:induction false} AppLoopOnce(cfg: Config, s: Wr, data: seq<byte>, address: int, tot: nat, before: seq<byte>)
    requires Ok(cfg, s) && tot <= |data| && s.wnum == 0 && SealedUpTo(s.sealed, before, data, tot + Unreported(s.pend))
    ensures var r := AppLoop(cfg, s, data, address, tot);
      if r.ret > 0 then Through(cfg, r.s, before, data, r.ret) else InProgress(r.s, before, data)
    decreases |data| - tot
  {
    hide WriteRecord, Core, EarlyOk, SealedUpTo, PlainOf;
    var n, max := |data| - tot, MaxRecord(cfg, s);
    if max > 0 {
      var nw := Min(n, max);
      RecordOnce(cfg, s, data, address, tot, nw, before);
      var r := WriteRecord(cfg, s, data[tot..tot + nw], address + tot);
      if r.ret > 0 {
        UpToFits(r.s.sealed, before, data, tot + r.ret);
        if r.ret != n && !cfg.partialWrite { AppLoopOnce(cfg, r.s, data, address, tot + r.ret, before); }
      }
    }
  }

  lemma RecordOnce(cfg: Config, s: Wr, data: seq<byte>, address: int, tot: nat, nw: nat, before: seq<byte>)
    requires Ok(cfg, s) && tot + nw <= |data| && (s.early ==> nw <= cfg.earlyLimit - s.earlyWritten)
    requires SealedUpTo(s.sealed, before, data, tot + Unreported(s.pend))
    ensures var r := WriteRecord(cfg, s, data[tot..tot + nw], address + tot);
      && r.s.wnum == s.wnum && (r.ret > 0 ==> !r.s.pend.pending && r.s.buf.size == 0)
      && SealedUpTo(r.s.sealed, before, data, tot + if r.ret > 0 then r.ret else Unreported(r.s.pend))
  {
    hide DoWrite, Core, EarlyOk, SealedUpTo, PlainOf;
    DoWriteWrote(cfg, s, APPLICATION_DATA, data[tot..tot + nw], address + tot);
    var r := DoWrite(cfg, s, APPLICATION_DATA, data[tot..tot + nw], address + tot);
    AppProgress(s.pend, s.sealed, r.s.pend, r.s.sealed, before, data, tot, nw, r.ret);
  }

  lemma UpToFits(sealed: seq<Rec>, before: seq<byte>, data: seq<byte>, n: nat)
    ensures SealedUpTo(sealed, before, data, n) ==>
      n <= |data| && PlainOf(APPLICATION_DATA, sealed) == before + data[..n]
  {
  }

  /** A write can be continued with a longer buffer. */
  lemma LongerInProgress(s: Wr, before: seq<byte>, data: seq<byte>, more: seq<byte>)
    requires InProgress(s, before, data) && data <= more
    ensures InProgress(s, before, more)
  {
    var n := s.wnum + Unreported(s.pend);
    assert more[..n] == data[..n];
  }

  /** One call with bytes that continue the write. */
  lemma WriteAppDataOnce(cfg: Config, s: Wr, data: seq<byte>, address: int, before: seq<byte>)
    requires Ok(cfg, s) && InProgress(s, before, data)
    ensures var r := WriteAppData(cfg, s, data, address);
      if r.ret > 0 then Through(cfg, r.s, before, data, r.ret) else InProgress(r.s, before, data)
  {
    hide AppLoop, PlainOf;
    if !s.shutdown { AppLoopOnce(cfg, s.(wnum := 0), data, address, s.wnum, before); }
  }

  /** What the last write returned, the state after it, and the buffer it was given. */
  datatype Tried = Tried(ret: int, s: Wr, data: seq<byte>)

  /** A caller who goes on until a write gets through, with other calls in between. */
  function Retrying(cfg: Config, s: Wr, calls: seq<Call>, data: seq<byte>): (r: Tried)
    requires Ok(cfg, s)
    ensures Ok(cfg, r.s)
    decreases |calls|
  {
    if calls == [] then Tried(0, s, data)
    else
      var r := Do(cfg, s, calls[0]);
      var tried := if calls[0].AppData? then calls[0].data else data;
      if calls[0].AppData? && r.ret > 0 then Tried(r.ret, r.s, tried) else Retrying(cfg, r.s, calls[1..], tried)
  }

  /** Each write has the buffer of the one before it, or a longer one that begins with it. */
  predicate Extending(calls: seq<Call>, data: seq<byte>)
    decreases |calls|
  {
    calls == [] ||
    if calls[0].AppData? then data <= calls[0].data && Extending(calls[1..], calls[0].data)
    else Extending(calls[1..], data)
  }

  lemma OthersKeepProgress(cfg: Config, s: Wr, c: Call, before: seq<byte>, data: seq<byte>)
    requires Ok(cfg, s) && InProgress(s, before, data) && !c.AppData?
    ensures InProgress(Do(cfg, s, c).s, before, data)
  {
    hide AddMessage, FlushFlight, DoWrite, EarlyOk, PlainOf, Core;
    match c
    case Message(msg) =>
      var done := AddMessageKeeps(cfg, s, msg);
      PiecesLeaveData(s.sealed, AddMessage(cfg, s, msg).s.sealed, HANDSHAKE, done, cfg.maxFragment);
    case Flight =>
    case Alert(level, desc, address) =>
      DoWriteWrote(cfg, s, ALERT, [level, desc], address);
      var r := DoWrite(cfg, s, ALERT, [level, desc], address);
      OtherTypeLeavesData(s.pend, s.sealed, r.s.pend, r.s.sealed, ALERT, [level, desc], r.ret);
    case Shutdown =>
    case StopEarly =>
  }

  /** However often the transport fails and whatever handshake messages, flushes and alerts come in between: retried
      with the same buffer and no smaller length, every byte is sealed once and in order, and a positive result k means
      that exactly the first k bytes were sealed and flushed. */
  lemma {:induction false} RetriesOnce(cfg: Config, s: Wr, calls: seq<Call>, before: seq<byte>, data: seq<byte>)
    requires Ok(cfg, s) && InProgress(s, before, data) && Extending(calls, data)
    ensures var r := Retrying(cfg, s, calls, data);
      if r.ret > 0 then Through(cfg, r.s, before, r.data, r.ret) else InProgress(r.s, before, r.data)
    decreases |calls|
  {
    hide WriteAppData, InProgress, Through, Ok;
    if calls != [] {
      var c := calls[0];
      var tried := if c.AppData? then c.data else data;
      if c.AppData? {
        LongerInProgress(s, before, data, c.data);
        WriteAppDataOnce(cfg, s, c.data, c.address, before);
      } else {
        OthersKeepProgress(cfg, s, c, before, data);
      }
      var r := Do(cfg, s, c);
      if !(c.AppData? && r.ret > 0) { RetriesOnce(cfg, r.s, calls[1..], before, tried); }
    }
  }

  // ---- a retry that is too short

  /** A retry that is too short fails, and forgets how much was reported: then no buffer continues the write. */
  lemma ShortRetryForgets(cfg: Config, s: Wr, data: seq<byte>, short: seq<byte>, address: int, before: seq<byte>)
    requires Ok(cfg, s) && InProgress(s, before, data) && !s.shutdown
    ensures var r := WriteAppData(cfg, s, short, address);
      |short| < s.wnum ==> r.ret == -1 && r.s == s.(wnum := 0) && forall again :: !InProgress(r.s, before, again)
  {
    hide AppLoop, PlainOf, EarlyOk, SealedUpTo;
    var r := WriteAppData(cfg, s, short, address);
    forall again: seq<byte> ensures |short| < s.wnum ==> !InProgress(r.s, before, again) {
      if InProgress(r.s, before, again) && r.s == s.(wnum := 0) {
        OneContinuation(s.sealed, before, data, again, s.wnum, Unreported(s.pend));
      }
    }
  }

  lemma OneContinuation(sealed: seq<Rec>, before: seq<byte>, data: seq<byte>, again: seq<byte>, wnum: nat, pend: nat)
    requires SealedUpTo(sealed, before, data, wnum + pend) && SealedUpTo(sealed, before, again, pend)
    ensures wnum == 0
  {
    assert |before + data[..wnum + pend]| == |before + again[..pend]|;
  }

  // ---- exactly when a retry may be shorter

  /** A retry with a beginning of the buffer goes on with the write, or completes it, exactly if it is no shorter than
      what was reported. */
  lemma ShorterRetryIff(cfg: Config, s: Wr, data: seq<byte>, short: seq<byte>, address: int, before: seq<byte>)
    requires Ok(cfg, s) && InProgress(s, before, data) && !s.shutdown && short <= data
    ensures var r := WriteAppData(cfg, s, short, address);
      (if r.ret > 0 then Through(cfg, r.s, before, short, r.ret) else InProgress(r.s, before, data))
      <==> |short| >= s.wnum
  {
    hide WriteAppData, InProgress, Through, Ok;
    if |short| < s.wnum {
      ShortRetryForgets(cfg, s, data, short, address, before);
    } else if |short| < s.wnum + Unreported(s.pend) {
      BelowPending(cfg, s, data, short, address, before);
    } else {
      ShorterInProgress(s, before, data, short);
      WriteAppDataOnce(cfg, s, short, address, before);
      var r := WriteAppData(cfg, s, short, address);
      if r.ret <= 0 { LongerInProgress(r.s, before, short, data); }
    }
  }

  lemma ShorterInProgress(s: Wr, before: seq<byte>, data: seq<byte>, short: seq<byte>)
    requires InProgress(s, before, data) && short <= data && |short| >= s.wnum + Unreported(s.pend)
    ensures InProgress(s, before, short)
  {
    var n := s.wnum + Unreported(s.pend);
    assert data[..n] == short[..n];
  }

  /** A buffer that ends within the pending record is refused, and nothing is forgotten. */
  lemma BelowPending(cfg: Config, s: Wr, data: seq<byte>, short: seq<byte>, address: int, before: seq<byte>)
    requires Ok(cfg, s) && InProgress(s, before, data) && !s.shutdown
    requires s.wnum <= |short| < s.wnum + Unreported(s.pend)
    ensures var r := WriteAppData(cfg, s, short, address); r.ret == -1 && InProgress(r.s, before, data)
  {
    hide SealedUpTo, Sound, OffsetOk, FlushBuffer;
  }

  // ---- over a run

  /** What the application data falls behind by is never made up. */
  ghost predicate Lags(s: Wr, before: seq<byte>) {
    |PlainOf(APPLICATION_DATA, s.sealed)| > |before| + s.wnum + Unreported(s.pend)
  }

  /** Not one of the writes so far was shorter than what had been reported by then. */
  predicate NeverShort(cfg: Config, s: Wr, calls: seq<Call>)
    requires Ok(cfg, s)
    decreases |calls|
  {
    calls == [] ||
    (&& (calls[0].AppData? && !s.shutdown ==> |calls[0].data| >= s.wnum)
     && ((calls[0].AppData? && Do(cfg, s, calls[0]).ret > 0) || NeverShort(cfg, Do(cfg, s, calls[0]).s, calls[1..])))
  }

  lemma RecordLength(cfg: Config, s: Wr, plain: seq<byte>, address: int)
    requires Ok(cfg, s) && (s.early ==> |plain| <= cfg.earlyLimit - s.earlyWritten)
    ensures var r := WriteRecord(cfg, s, plain, address);
      |PlainOf(APPLICATION_DATA, r.s.sealed)| + Unreported(s.pend) ==
      |PlainOf(APPLICATION_DATA, s.sealed)| + if r.ret > 0 then r.ret else Unreported(r.s.pend)
    ensures WriteRecord(cfg, s, plain, address).ret > 0 ==> !WriteRecord(cfg, s, plain, address).s.pend.pending
  {
    hide DoWrite, Core, EarlyOk, PlainOf;
    DoWriteWrote(cfg, s, APPLICATION_DATA, plain, address);
    var r := DoWrite(cfg, s, APPLICATION_DATA, plain, address);
    if Grew(s.sealed, r.s.sealed, APPLICATION_DATA, plain) {
      GrewPlain(s.sealed, r.s.sealed, APPLICATION_DATA, plain);
    }
  }

  lemma {:induction false} AppLoopLength(cfg: Config, s: Wr, data: seq<byte>, address: int, tot: nat)
    requires Ok(cfg, s) && tot <= |data| && s.wnum == 0
    ensures var r := AppLoop(cfg, s, data, address, tot);
      |PlainOf(APPLICATION_DATA, r.s.sealed)| + tot + Unreported(s.pend) ==
      |PlainOf(APPLICATION_DATA, s.sealed)| + if r.ret > 0 then r.ret else r.s.wnum + Unreported(r.s.pend)
    decreases |data| - tot
  {
    hide WriteRecord, Core, EarlyOk, PlainOf;
    var n, max := |data| - tot, MaxRecord(cfg, s);
    if max > 0 {
      var nw := Min(n, max);
      RecordLength(cfg, s, data[tot..tot + nw], address + tot);
      var r := WriteRecord(cfg, s, data[tot..tot + nw], address + tot);
      if r.ret > 0 && r.ret != n && !cfg.partialWrite { AppLoopLength(cfg, r.s, data, address, tot + r.ret); }
    }
  }

  lemma AppDataLags(cfg: Config, s: Wr, data: seq<byte>, address: int, before: seq<byte>)
    requires Ok(cfg, s) && Lags(s, before)
    ensures var r := WriteAppData(cfg, s, data, address);
      if r.ret > 0 then |PlainOf(APPLICATION_DATA, r.s.sealed)| > |before| + r.ret else Lags(r.s, before)
  {
    hide AppLoop, PlainOf, Sound, OffsetOk;
    if !s.shutdown && |data| >= s.wnum { AppLoopLength(cfg, s.(wnum := 0), data, address, s.wnum); }
  }

  lemma OthersLag(cfg: Config, s: Wr, c: Call, before: seq<byte>)
    requires Ok(cfg, s) && Lags(s, before) && !c.AppData?
    ensures Lags(Do(cfg, s, c).s, before)
  {
    hide AddMessage, FlushFlight, DoWrite, EarlyOk, PlainOf, Core;
    match c
    case Message(msg) =>
      var done := AddMessageKeeps(cfg, s, msg);
      PiecesLeaveData(s.sealed, AddMessage(cfg, s, msg).s.sealed, HANDSHAKE, done, cfg.maxFragment);
    case Flight =>
    case Alert(level, desc, address) =>
      DoWriteWrote(cfg, s, ALERT, [level, desc], address);
      var r := DoWrite(cfg, s, ALERT, [level, desc], address);
      OtherTypeLeavesData(s.pend, s.sealed, r.s.pend, r.s.sealed, ALERT, [level, desc], r.ret);
    case Shutdown =>
    case StopEarly =>
  }

  lemma {:induction false} RetryingLags(cfg: Config, s: Wr, calls: seq<Call>, before: seq<byte>, data: seq<byte>)
    requires Ok(cfg, s) && Lags(s, before)
    ensures var r := Retrying(cfg, s, calls, data);
      if r.ret > 0 then |PlainOf(APPLICATION_DATA, r.s.sealed)| > |before| + r.ret else Lags(r.s, before)
    decreases |calls|
  {
    hide WriteAppData, Lags, Ok, PlainOf;
    if calls != [] {
      var c := calls[0];
      if c.AppData? { AppDataLags(cfg, s, c.data, c.address, before); } else { OthersLag(cfg, s, c, before); }
      var r := Do(cfg, s, c);
      if !(c.AppData? && r.ret > 0) {
        RetryingLags(cfg, r.s, calls[1..], before, if c.AppData? then c.data else data);
      }
    }
  }

  /** Writes with beginnings of one buffer, in any order of lengths: every byte is sealed once and in order, with what
      the results say, exactly if no write was shorter than what had been reported by then. */
  lemma {:induction false} RetriesOnceIff(cfg: Config, s: Wr, calls: seq<Call>, before: seq<byte>, whole: seq<byte>,
      data: seq<byte>)
    requires Ok(cfg, s) && InProgress(s, before, whole) && forall c :: c in calls && c.AppData? ==> c.data <= whole
    ensures var r := Retrying(cfg, s, calls, data);
      (if r.ret > 0 then Through(cfg, r.s, before, r.data, r.ret) else InProgress(r.s, before, whole))
      <==> NeverShort(cfg, s, calls)
    decreases |calls|
  {
    hide WriteAppData, InProgress, Through, Ok, Lags, PlainOf;
    if calls != [] {
      var c := calls[0];
      assert c in calls && forall x :: x in calls[1..] ==> x in calls;
      var r := Do(cfg, s, c);
      var tried := if c.AppData? then c.data else data;
      if !c.AppData? {
        OthersKeepProgress(cfg, s, c, before, whole);
        RetriesOnceIff(cfg, r.s, calls[1..], before, whole, tried);
      } else if s.shutdown {
        assert r == Out(-1, s) by { ShutDown(cfg, s, c.data, c.address); }
        RetriesOnceIff(cfg, r.s, calls[1..], before, whole, tried);
      } else {
        ShorterRetryIff(cfg, s, whole, c.data, c.address, before);
        if |c.data| < s.wnum {
          ForgetsLags(cfg, s, whole, c.data, c.address, before);
          RetryingLags(cfg, r.s, calls[1..], before, tried);
          NotOnce(cfg, Retrying(cfg, r.s, calls[1..], tried), before, whole);
        } else if r.ret <= 0 {
          RetriesOnceIff(cfg, r.s, calls[1..], before, whole, tried);
        }
      }
    }
  }

  lemma ShutDown(cfg: Config, s: Wr, data: seq<byte>, address: int)
    requires Ok(cfg, s) && s.shutdown
    ensures WriteAppData(cfg, s, data, address) == AppOut(-1, false, s)
  {
  }

  lemma ForgetsLags(cfg: Config, s: Wr, data: seq<byte>, short: seq<byte>, address: int, before: seq<byte>)
    requires Ok(cfg, s) && InProgress(s, before, data) && !s.shutdown && |short| < s.wnum
    ensures var r := WriteAppData(cfg, s, short, address); r.ret <= 0 && Lags(r.s, before)
  {
    hide PlainOf, AppLoop;
  }

  lemma NotOnce(cfg: Config, r: Tried, before: seq<byte>, whole: seq<byte>)
    requires if r.ret > 0 then |PlainOf(APPLICATION_DATA, r.s.sealed)| > |before| + r.ret else Lags(r.s, before)
    ensures if r.ret > 0 then !Through(cfg, r.s, before, r.data, r.ret) else !InProgress(r.s, before, whole)
  {
    hide PlainOf;
  }

  // ---- runs in which nothing can be lost

  /** The largest record that a call may seal. */
  function RecordLimit(cfg: Config, c: Call): nat {
    if c.AppData? then cfg.maxFragment else if c.Alert? then 2 else 0
  }

  /** Wherever application data or an alert is written, the flight before it and the largest record leave 8 bytes below
      2^16. */
  predicate RoomInRun(cfg: Config, s: Wr, calls: seq<Call>)
    requires Ok(cfg, s)
    decreases |calls|
  {
    calls == [] ||
    (&& (calls[0].AppData? || calls[0].Alert? ==>
           RecordLimit(cfg, calls[0]) + cfg.maxOverhead + |Tail(s)| + ALIGN <= U16)
     && RoomInRun(cfg, Do(cfg, s, calls[0]).s, calls[1..]))
  }

  lemma {:induction false} AppLoopLosesNothing(cfg: Config, s: Wr, data: seq<byte>, address: int, tot: nat)
    requires Ok(cfg, s) && tot <= |data| && Roomy(s.buf) && cfg.maxFragment + cfg.maxOverhead + |Tail(s)| + ALIGN <= U16
    ensures var r := AppLoop(cfg, s, data, address, tot).s; r.lost == s.lost && Roomy(r.buf) && |Tail(r)| <= |Tail(s)|
    decreases |data| - tot
  {
    hide DoWrite, Core, EarlyOk, TailOf, Roomy;
    var n, max := |data| - tot, MaxRecord(cfg, s);
    if max > 0 {
      var nw := Min(n, max);
      DoWriteLosesNothing(cfg, s, APPLICATION_DATA, data[tot..tot + nw], address + tot);
      var r := WriteRecord(cfg, s, data[tot..tot + nw], address + tot);
      if r.ret > 0 && r.ret != n && !cfg.partialWrite { AppLoopLosesNothing(cfg, r.s, data, address, tot + r.ret); }
    }
  }

  lemma FlushFlightLosesNothing(s: Wr)
    requires Core(s) && Roomy(s.buf)
    ensures FlushFlight(s).s.lost == s.lost && Roomy(FlushFlight(s).s.buf)
  {
    hide FlushBuffer, WriteFlight, OffsetOk;
    FlushLosesNothing(s);
  }

  lemma CallLosesNothing(cfg: Config, s: Wr, c: Call)
    requires Ok(cfg, s) && Roomy(s.buf)
    requires c.AppData? || c.Alert? ==> RecordLimit(cfg, c) + cfg.maxOverhead + |Tail(s)| + ALIGN <= U16
    ensures Do(cfg, s, c).s.lost == s.lost && Roomy(Do(cfg, s, c).s.buf)
  {
    hide AddMessage, FlushFlight, AppLoop, DoWrite, TailOf, Roomy, Sound, OffsetOk;
    match c
    case Message(msg) =>
    case Flight => FlushFlightLosesNothing(s);
    case AppData(data, address) =>
      if !s.shutdown && |data| >= s.wnum { AppLoopLosesNothing(cfg, s.(wnum := 0), data, address, s.wnum); }
    case Alert(level, desc, address) => DoWriteLosesNothing(cfg, s, ALERT, [level, desc], address);
    case Shutdown =>
    case StopEarly =>
  }

  lemma {:induction false} RunLosesNothing(cfg: Config, s: Wr, calls: seq<Call>)
    requires Ok(cfg, s) && Roomy(s.buf) && RoomInRun(cfg, s, calls)
    ensures Run(cfg, s, calls).lost == s.lost
    decreases |calls|
  {
    hide Do, Ok, Roomy, RecordLimit, TailOf;
    if calls != [] {
      CallLosesNothing(cfg, s, calls[0]);
      RunLosesNothing(cfg, Do(cfg, s, calls[0]).s, calls[1..]);
    }
  }

  /** In such a run the order holds without a proviso. */
  lemma RoomyRunIsOrdered(cfg: Config, world: World, early: bool, calls: seq<Call>)
    requires ConfigOk(cfg) && RoomInRun(cfg, Start(world, early), calls)
    ensures !Run(cfg, Start(world, early), calls).lost && Ordered(Run(cfg, Start(world, early), calls))
  {
    hide Run, RoomInRun;
    RunLosesNothing(cfg, Start(world, early), calls);
    OrderedRun(cfg, world, early, calls);
  }

  // ---- a condition on the calls alone

  /** What the records of a message take at most. */
  function MessageSize(cfg: Config, n: nat): (size: nat)
    requires ConfigOk(cfg)
    decreases n
  {
    if n <= cfg.maxFragment then n + cfg.maxOverhead
    else cfg.maxFragment + cfg.maxOverhead + MessageSize(cfg, n - cfg.maxFragment)
  }

  /** What all messages of a run take at most. */
  function Volume(cfg: Config, calls: seq<Call>): nat
    requires ConfigOk(cfg)
    decreases |calls|
  {
    if calls == [] then 0
    else (if calls[0].Message? then MessageSize(cfg, |calls[0].msg|) else 0) + Volume(cfg, calls[1..])
  }

  lemma {:induction false} MessageGrowsTail(cfg: Config, s: Wr, msg: seq<byte>)
    requires ConfigOk(cfg) && Core(s)
    ensures |Tail(AddMessage(cfg, s, msg).s)| <= |Tail(s)| + MessageSize(cfg, |msg|)
    decreases |msg|
  {
    hide AddRecord, Core, TailOf;
    var n := Min(|msg|, cfg.maxFragment);
    var r := AddRecord(cfg, s, HANDSHAKE, msg[..n]);
    RecordGrowsTail(cfg, s, HANDSHAKE, msg[..n]);
    if r.ok && n < |msg| { MessageGrowsTail(cfg, r.s, msg[n..]); }
  }

  lemma RecordGrowsTail(cfg: Config, s: Wr, typ: byte, plain: seq<byte>)
    requires Core(s)
    ensures |Tail(AddRecord(cfg, s, typ, plain).s)| <= |Tail(s)| + |plain| + cfg.maxOverhead
  {
    hide Sound;
  }

  lemma FlightShrinksTail(s: Wr)
    requires Core(s)
    ensures |Tail(FlushFlight(s).s)| <= |Tail(s)|
  {
    hide FlushBuffer, Sound, TailOf;
    NoTail();
    if s.flight.Some? && !s.shutdown && |s.flight.value| <= 0x7fff_ffff {
      var b := if s.buf.size > 0 then FlushBuffer(s) else Out(1, s);
      if b.ret > 0 { WritingShrinksTail(b.s); }
    }
  }

  lemma WritingShrinksTail(s: Wr)
    requires Core(s) && s.flight.Some?
    ensures |Tail(WriteFlight(s).s)| <= |Tail(s)|
    decreases |s.flight.value| - s.flightOffset
  {
    hide Sound;
    var rest := s.flight.value[s.flightOffset..];
    if rest != [] {
      var ret := BioRet(s.world.writes, |rest|);
      if ret > 0 {
        WritingShrinksTail(AfterWrite(s).(wire := s.wire + rest[..ret], flightOffset := s.flightOffset + ret));
      }
    }
  }

  lemma CallGrowsTail(cfg: Config, s: Wr, c: Call)
    requires Ok(cfg, s) && Roomy(s.buf)
    requires c.AppData? || c.Alert? ==> RecordLimit(cfg, c) + cfg.maxOverhead + |Tail(s)| + ALIGN <= U16
    ensures |Tail(Do(cfg, s, c).s)| <= |Tail(s)| + if c.Message? then MessageSize(cfg, |c.msg|) else 0
  {
    hide AddMessage, FlushFlight, AppLoop, DoWrite, TailOf, Roomy, Sound, OffsetOk, MessageSize;
    match c
    case Message(msg) => MessageGrowsTail(cfg, s, msg);
    case Flight => FlightShrinksTail(s);
    case AppData(data, address) =>
      if !s.shutdown && |data| >= s.wnum { AppLoopLosesNothing(cfg, s.(wnum := 0), data, address, s.wnum); }
    case Alert(level, desc, address) => DoWriteLosesNothing(cfg, s, ALERT, [level, desc], address);
    case Shutdown =>
    case StopEarly =>
  }

  /** It is enough that all messages of the run and one record leave 8 bytes below 2^16. */
  lemma {:induction false} VolumeMakesRoom(cfg: Config, s: Wr, calls: seq<Call>)
    requires Ok(cfg, s) && Roomy(s.buf)
    requires Max(cfg.maxFragment, 2) + cfg.maxOverhead + |Tail(s)| + Volume(cfg, calls) + ALIGN <= U16
    ensures RoomInRun(cfg, s, calls)
    decreases |calls|
  {
    hide Do, Core, EarlyOk, Roomy, TailOf, MessageSize;
    if calls != [] {
      CallGrowsTail(cfg, s, calls[0]);
      CallLosesNothing(cfg, s, calls[0]);
      VolumeMakesRoom(cfg, Do(cfg, s, calls[0]).s, calls[1..]);
    }
  }

  function Max(a: nat, b: nat): nat {
    if a < b then b else a
  }

  /** So a run of calls of which this holds beforehand keeps the order, whatever the transport does. */
  lemma SmallRunIsOrdered(cfg: Config, world: World, early: bool, calls: seq<Call>)
    requires ConfigOk(cfg) && Max(cfg.maxFragment, 2) + cfg.maxOverhead + Volume(cfg, calls) + ALIGN <= U16
    ensures Ok(cfg, Start(world, early))
    ensures !Run(cfg, Start(world, early), calls).lost && Ordered(Run(cfg, Start(world, early), calls))
  {
    hide Run, RoomInRun, Volume;
    NoTail();
    VolumeMakesRoom(cfg, Start(world, early), calls);
    RoomyRunIsOrdered(cfg, world, early, calls);
  }
}
