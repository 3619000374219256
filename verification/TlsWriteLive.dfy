/** When the TLS write path gets through: exactly when for the transport's part, and with a transport that goes on
    taking bytes, an AEAD and an allocator that work, always. */
module TlsWriteLive {
  import opened Bytes
  import opened SslBuffer
  import opened TlsWrite

  // ---- what a transport takes

  /** The bytes it would take before the first call that fails. */
  function Heads(writes: seq<int>): nat {
    if writes == [] || writes[0] <= 0 then 0 else writes[0] + Heads(writes[1..])
  }

  /** What that call returns. With no more outcomes given it is -1. */
  function StopOf(writes: seq<int>): (ret: int)
    ensures ret <= 0
  {
    if writes == [] then -1 else if writes[0] <= 0 then writes[0] else StopOf(writes[1..])
  }

  /** The outcomes left once n bytes have been taken, or that call has failed. */
  function After(writes: seq<int>, n: nat): seq<int> {
    if n == 0 || writes == [] then writes
    else if writes[0] <= 0 || writes[0] >= n then writes[1..]
    else After(writes[1..], n - writes[0])
  }

  /** One call, with n bytes to go. */
  lemma OneCall(writes: seq<int>, n: nat)
    requires n > 0
    ensures var ret, rest := BioRet(writes, n), Popped(writes);
      if ret <= 0 then Heads(writes) == 0 && StopOf(writes) == ret && After(writes, n) == rest
      else
        && 0 < ret <= n && After(writes, n) == After(rest, n - ret)
        && Min(Heads(writes), n) == ret + Min(Heads(rest), n - ret)
        && (ret < n ==> Heads(writes) == ret + Heads(rest) && StopOf(writes) == StopOf(rest))
  {
  }

  lemma InTwo(wire: seq<byte>, d: seq<byte>, a: nat, b: nat)
    requires a + b <= |d|
    ensures wire + d[..a] + d[a..][..b] == wire + d[..a + b]
  {
    assert d[..a] + d[a..][..b] == d[..a + b];
  }

  /** The buffer is flushed exactly if the transport takes that many bytes before it fails; if not, the result is that
      failure, and what was taken until then has left the buffer. */
  lemma {:induction false} FlushBufferIff(s: Wr)
    requires Sound(s.buf)
    ensures var r, heads := FlushBuffer(s), Heads(s.world.writes);
      && r.s.world == s.world.(writes := After(s.world.writes, s.buf.size))
      && if heads >= s.buf.size then r.ret == 1 && r.s.buf == NO_BUFFER
         else r.ret == StopOf(s.world.writes) && r.s.buf.size == s.buf.size - heads
    decreases s.buf.size
  {
    hide Data, Heads, StopOf, After;
    NothingToTake(s.world.writes);
    if s.buf.size > 0 {
      OneCall(s.world.writes, s.buf.size);
      if WriteOnce(s).ret > 0 { FlushBufferIff(WriteOnce(s).s); }
    }
  }

  /** And it is on the wire, as long as the 16-bit offset does not wrap. */
  lemma {:induction false} FlushedIsOnWire(s: Wr)
    requires Sound(s.buf) && s.buf.offset + s.buf.size <= U16
    ensures FlushBuffer(s).s.wire == s.wire + Data(s.buf)[..Min(Heads(s.world.writes), s.buf.size)]
    decreases s.buf.size
  {
    hide Data, Heads, StopOf, After;
    if s.buf.size > 0 {
      OneCall(s.world.writes, s.buf.size);
      var t, ret := WriteOnce(s).s, WriteOnce(s).ret;
      if ret > 0 {
        ConsumeKeeps(s.buf, ret);
        FlushedIsOnWire(t);
        InTwo(s.wire, Data(s.buf), ret, Min(Heads(t.world.writes), t.buf.size));
      } else {
        assert s.wire + Data(s.buf)[..0] == s.wire;
      }
    } else {
      assert s.wire + Data(s.buf)[..0] == s.wire;
    }
  }

  /** The same for the pending flight: exactly if the transport takes what is left of it. */
  lemma {:induction false} WriteFlightIff(s: Wr)
    requires Core(s) && s.flight.Some?
    ensures var r, heads, n := WriteFlight(s), Heads(s.world.writes), |s.flight.value| - s.flightOffset;
      && r.s.world == s.world.(writes := After(s.world.writes, n))
      && if heads >= n then r.ret == 1 && r.s.flightOffset == |s.flight.value|
         else r.ret == StopOf(s.world.writes) && r.s.flightOffset == s.flightOffset + heads
    decreases |s.flight.value| - s.flightOffset
  {
    hide Sound, Heads, StopOf, After;
    NothingToTake(s.world.writes);
    var rest := s.flight.value[s.flightOffset..];
    if rest != [] {
      OneCall(s.world.writes, |rest|);
      var ret := BioRet(s.world.writes, |rest|);
      if ret > 0 {
        WriteFlightIff(AfterWrite(s).(wire := s.wire + rest[..ret], flightOffset := s.flightOffset + ret));
      }
    }
  }

  /** And what has left the flight is on the wire. */
  lemma {:induction false} WrittenIsOnWire(s: Wr)
    requires Core(s) && s.flight.Some?
    ensures var r := WriteFlight(s).s;
      s.flightOffset <= r.flightOffset <= |s.flight.value|
      && r.wire == s.wire + s.flight.value[s.flightOffset..r.flightOffset]
    decreases |s.flight.value| - s.flightOffset
  {
    hide Sound;
    var flight, at := s.flight.value, s.flightOffset;
    var ret := BioRet(s.world.writes, |flight| - at);
    if at < |flight| && ret > 0 {
      var t := AfterWrite(s).(wire := s.wire + flight[at..][..ret], flightOffset := at + ret);
      WrittenIsOnWire(t);
      OneSlice(s.wire, flight, at, at + ret, WriteFlight(t).s.flightOffset);
    }
  }

  lemma OneSlice(wire: seq<byte>, d: seq<byte>, a: nat, b: nat, c: nat)
    requires a <= b <= c <= |d|
    ensures wire + d[a..][..b - a] + d[b..c] == wire + d[a..c]
  {
    assert d[a..][..b - a] + d[b..c] == d[a..c];
  }

  /** The transport takes what is in the buffer, then the flight, and then its own flush succeeds. */
  predicate TakesAll(writes: seq<int>, held: nat, tail: nat) {
    var w := After(writes, held);
    Heads(writes) >= held && Heads(w) >= tail && BioRet(After(w, tail), 1) > 0
  }

  /** A pending flight is flushed exactly under these conditions. */
  lemma FlushFlightIff(s: Wr)
    requires Core(s) && s.flight.Some?
    ensures var r := FlushFlight(s);
      && (r.ret > 0 <==>
        !s.shutdown && |s.flight.value| <= 0x7fff_ffff && TakesAll(s.world.writes, s.buf.size, |Tail(s)|))
      && (r.ret > 0 ==> r.ret == 1 && r.s.flight.None? && r.s.buf.size == 0)
  {
    hide FlushBuffer, WriteFlight, Heads, After, StopOf, Sound;
    if !s.shutdown && |s.flight.value| <= 0x7fff_ffff {
      assert |Tail(s)| == |s.flight.value| - s.flightOffset;
      NothingToTake(s.world.writes);
      FlushBufferIff(s);
      var b := if s.buf.size > 0 then FlushBuffer(s) else Out(1, s);
      if b.ret > 0 { WriteFlightIff(b.s); }
    }
  }

  lemma NothingToTake(writes: seq<int>)
    ensures After(writes, 0) == writes && Heads(writes) >= 0
  {
  }

  // ---- a transport that goes on taking bytes

  /** Each of at least n calls takes something. */
  predicate Steady(writes: seq<int>, n: nat) {
    |writes| >= n && forall i :: 0 <= i < |writes| ==> writes[i] > 0
  }

  lemma {:induction false} SteadyTakes(writes: seq<int>, n: nat, more: nat)
    requires Steady(writes, n + more)
    ensures Heads(writes) >= n && Steady(After(writes, n), more)
    decreases |writes|
  {
    if n > 0 && writes[0] < n { SteadyTakes(writes[1..], n - writes[0], more); }
  }

  lemma FlightGetsThrough(s: Wr)
    requires Core(s) && s.flight.Some? && !s.shutdown && |s.flight.value| <= 0x7fff_ffff
    requires Steady(s.world.writes, s.buf.size + |Tail(s)| + 1)
    ensures var r := FlushFlight(s); r.ret == 1 && r.s.flight.None? && r.s.buf.size == 0
    ensures Ordered(s) && !FlushFlight(s).s.lost ==> FlushFlight(s).s.wire == WireOf(s.sealed)
  {
    hide FlushFlight, Heads, After, Sound, TailOf, Data, WireOf;
    var w := s.world.writes;
    SteadyTakes(w, s.buf.size, |Tail(s)| + 1);
    SteadyTakes(After(w, s.buf.size), |Tail(s)|, 1);
    FlushFlightIff(s);
    FlushFlightKeeps(s);
    AllOut(FlushFlight(s).s);
  }

  /** Where nothing is held back, all records are on the wire. */
  lemma AllOut(s: Wr)
    requires Core(s) && s.flight.None? && s.buf.size == 0
    ensures Ordered(s) ==> s.wire == WireOf(s.sealed)
  {
    hide WireOf;
    assert Data(s.buf) == [] && Tail(s) == [] && s.wire + [] + [] == s.wire;
  }

  // ---- records

  /** Memory for the flight and a record: below 2^16, and there already or to be had. */
  predicate HasMemory(cfg: Config, s: Wr, n: nat) {
    var need := n + cfg.maxOverhead + |Tail(s)|;
    need <= 0xffff && (s.buf.cap >= need || (s.world.blocks != [] && s.world.blocks[0].Some?))
  }

  lemma SealedIff(cfg: Config, s: Wr, typ: byte, plain: seq<byte>, address: int)
    requires Core(s) && !s.pend.pending && s.buf.size == 0 && plain != []
    ensures var e, seal := SealRecord(cfg, s, typ, plain, address), SealOf(cfg, s.world.seals, plain);
      && (e.ok <==> HasMemory(cfg, s, |plain|) && seal.Some?)
      && (e.ok ==>
        && e.s.sealed == s.sealed + [Rec(typ, plain, seal.value)] && e.s.buf.size == |Tail(s)| + |seal.value|
        && e.s.flight.None? && e.s.pend == Pend(true, |plain|, address, typ, |plain|)
        && e.s.world == World(s.world.writes, s.world.seals[1..],
             if s.buf.cap >= |plain| + cfg.maxOverhead + |Tail(s)| then s.world.blocks else s.world.blocks[1..]))
  {
    hide Data, Overwrite, Memory, Misalignment, TailOf;
    NoTail();
  }

  /** With nothing pending and nothing in the buffer, a record is written exactly if there is memory, the seal works,
      and the transport takes the flight before it and the record. */
  lemma RecordIff(cfg: Config, s: Wr, typ: byte, plain: seq<byte>, address: int)
    requires Core(s) && !s.pend.pending && s.buf.size == 0 && 0 < |plain| <= MAX_PLAIN
    ensures var r, seal := DoWrite(cfg, s, typ, plain, address), SealOf(cfg, s.world.seals, plain);
      && (r.ret > 0 <==>
        HasMemory(cfg, s, |plain|) && seal.Some? && Heads(s.world.writes) >= |Tail(s)| + |seal.value|)
      && (r.ret > 0 ==>
        && r.ret == |plain| && r.s.sealed == s.sealed + [Rec(typ, plain, seal.value)]
        && !r.s.pend.pending && r.s.buf == NO_BUFFER && r.s.flight.None?
        && r.s.world == World(After(s.world.writes, |Tail(s)| + |seal.value|), s.world.seals[1..],
             if s.buf.cap >= |plain| + cfg.maxOverhead + |Tail(s)| then s.world.blocks else s.world.blocks[1..]))
  {
    hide FlushBuffer, SealRecord, Heads, After, StopOf, Sound, TailOf, HasMemory, OffsetOk;
    SealedIff(cfg, s, typ, plain, address);
    var e := SealRecord(cfg, s, typ, plain, address);
    if e.ok { FlushBufferIff(e.s); }
  }

  /** The pieces that data is cut into: as large as a record may be, but for the last. */
  function Plan(max: nat, data: seq<byte>): (ps: seq<seq<byte>>)
    requires max > 0
    ensures data != [] ==> ps != [] && ps[0] == data[..Min(|data|, max)]
  {
    if data == [] then [] else [data[..Min(|data|, max)]] + Plan(max, data[Min(|data|, max)..])
  }

  /** The seals to come work for these plaintexts. */
  predicate SealsFor(cfg: Config, seals: seq<Option<seq<byte>>>, ps: seq<seq<byte>>) {
    ps == [] || (SealOf(cfg, seals, ps[0]).Some? && SealsFor(cfg, seals[1..], ps[1..]))
  }

  function RecordsFor(typ: byte, cfg: Config, seals: seq<Option<seq<byte>>>, ps: seq<seq<byte>>): seq<Rec>
    requires SealsFor(cfg, seals, ps)
    decreases |ps|
  {
    if ps == [] then []
    else [Rec(typ, ps[0], seals[0].value)] + RecordsFor(typ, cfg, seals[1..], ps[1..])
  }

  function Total(rs: seq<Rec>): nat {
    if rs == [] then 0 else |rs[0].bytes| + Total(rs[1..])
  }

  /** Whatever records of application data are still to be written can be: early data is over, the AEAD and the
      allocator work, and the transport goes on taking bytes, those held in the buffer first. */
  predicate Able(cfg: Config, s: Wr, data: seq<byte>, held: nat)
    requires Ok(cfg, s)
  {
    var ps := Plan(cfg.maxFragment, data);
    && !s.early && cfg.maxFragment + cfg.maxOverhead + |Tail(s)| <= 0xffff
    && SealsFor(cfg, s.world.seals, ps)
    && |s.world.blocks| >= |ps| && (forall i :: 0 <= i < |s.world.blocks| ==> s.world.blocks[i].Some?)
    && Steady(s.world.writes, held + |Tail(s)| + Total(RecordsFor(APPLICATION_DATA, cfg, s.world.seals, ps)))
  }

  /** The records it goes out in. */
  function Outgoing(cfg: Config, s: Wr, data: seq<byte>): seq<Rec>
    requires Ok(cfg, s) && SealsFor(cfg, s.world.seals, Plan(cfg.maxFragment, data))
  {
    RecordsFor(APPLICATION_DATA, cfg, s.world.seals, Plan(cfg.maxFragment, data))
  }

  lemma PlanStep(cfg: Config, seals: seq<Option<seq<byte>>>, data: seq<byte>, plain: seq<byte>)
    requires ConfigOk(cfg) && data != [] && SealsFor(cfg, seals, Plan(cfg.maxFragment, data))
    requires plain == data[..Min(|data|, cfg.maxFragment)]
    ensures var ps, more := Plan(cfg.maxFragment, data), Plan(cfg.maxFragment, data[|plain|..]);
      && seals != [] && SealOf(cfg, seals, plain) == seals[0] && seals[0].Some? && SealsFor(cfg, seals[1..], more)
      && |ps| == 1 + |more|
      && var r := Rec(APPLICATION_DATA, plain, seals[0].value);
         var rs, rest := RecordsFor(APPLICATION_DATA, cfg, seals, ps),
           RecordsFor(APPLICATION_DATA, cfg, seals[1..], more);
         rs == [r] + rest && Total(rs) == |r.bytes| + Total(rest)
  {
    var ps := Plan(cfg.maxFragment, data);
    assert ps[0] == plain && ps[1..] == Plan(cfg.maxFragment, data[|plain|..]);
    var rs := RecordsFor(APPLICATION_DATA, cfg, seals, ps);
    assert rs[1..] == RecordsFor(APPLICATION_DATA, cfg, seals[1..], ps[1..]);
  }

  /** The first of them. */
  lemma FirstRecord(cfg: Config, s: Wr, data: seq<byte>, plain: seq<byte>, address: int)
    requires Ok(cfg, s) && !s.pend.pending && s.buf.size == 0 && data != [] && Able(cfg, s, data, 0)
    requires plain == data[..Min(|data|, cfg.maxFragment)]
    ensures var r := WriteRecord(cfg, s, plain, address);
      && r.ret == |plain| && !r.s.pend.pending && r.s.buf.size == 0 && r.s.flight.None?
      && Able(cfg, r.s, data[|plain|..], 0)
      && r.s.sealed + Outgoing(cfg, r.s, data[|plain|..]) == s.sealed + Outgoing(cfg, s, data)
  {
    hide DoWrite, Heads, After, Sound, TailOf, Plan, SealsFor, RecordsFor, Total, Steady, SealOf;
    NoTail();
    PlanStep(cfg, s.world.seals, data, plain);
    var first := Rec(APPLICATION_DATA, plain, s.world.seals[0].value);
    var more := RecordsFor(APPLICATION_DATA, cfg, s.world.seals[1..], Plan(cfg.maxFragment, data[|plain|..]));
    SteadyTakes(s.world.writes, |Tail(s)| + |first.bytes|, Total(more));
    RecordIff(cfg, s, APPLICATION_DATA, plain, address);
    assert s.sealed + [first] + more == s.sealed + ([first] + more);
  }

  lemma NoneLeft(cfg: Config, s: Wr)
    requires Ok(cfg, s) && SealsFor(cfg, s.world.seals, Plan(cfg.maxFragment, []))
    ensures s.sealed + Outgoing(cfg, s, []) == s.sealed
  {
  }

  /** Then all of the data goes out, in records as large as they may be but for the last. */
  lemma {:induction false} LoopGetsThrough(cfg: Config, s: Wr, data: seq<byte>, address: int, tot: nat)
    requires Ok(cfg, s) && !s.pend.pending && s.buf.size == 0 && tot < |data| && Able(cfg, s, data[tot..], 0)
    requires !cfg.partialWrite
    ensures var r := AppLoop(cfg, s, data, address, tot);
      && r.ret == |data| && !r.s.pend.pending && r.s.buf.size == 0 && r.s.flight.None?
      && r.s.sealed == s.sealed + Outgoing(cfg, s, data[tot..])
    decreases |data| - tot
  {
    hide WriteRecord, Core, EarlyOk, TailOf, Steady, Plan, SealsFor, RecordsFor, Outgoing, Total;
    var n := Min(|data| - tot, cfg.maxFragment);
    var plain, rest := data[tot..tot + n], data[tot + n..];
    assert data[tot..][..n] == plain && data[tot..][n..] == rest;
    FirstRecord(cfg, s, data[tot..], plain, address + tot);
    var t := WriteRecord(cfg, s, plain, address + tot).s;
    if tot + n < |data| {
      LoopGetsThrough(cfg, t, data, address, tot + n);
    } else {
      assert rest == [];
      NoneLeft(cfg, t);
    }
  }

  /** A write with nothing pending gets through, from where the last one got to; everything sealed is then on the
      wire. */
  lemma WriteGetsThrough(cfg: Config, s: Wr, data: seq<byte>, address: int)
    requires Ok(cfg, s) && !s.shutdown && s.wnum < |data| && !cfg.partialWrite
    requires !s.pend.pending && s.buf.size == 0 && Able(cfg, s, data[s.wnum..], 0)
    ensures var r := WriteAppData(cfg, s, data, address);
      && r.ret == |data| && r.s.sealed == s.sealed + Outgoing(cfg, s, data[s.wnum..])
      && (Ordered(s) && !r.s.lost ==> r.s.wire == WireOf(r.s.sealed))
  {
    hide AppLoop, Outgoing, Sound, Data, WireOf, InOrder, TailOf, Plan, SealsFor, RecordsFor, Total, Steady;
    SameAble(cfg, s, 0, data[s.wnum..], 0);
    LoopGetsThrough(cfg, s.(wnum := 0), data, address, s.wnum);
    WriteAppDataKeeps(cfg, s, data, address);
    AllOut(WriteAppData(cfg, s, data, address).s);
  }

  lemma SameAble(cfg: Config, s: Wr, wnum: nat, data: seq<byte>, held: nat)
    requires Ok(cfg, s) && Able(cfg, s, data, held)
    ensures Ok(cfg, s.(wnum := wnum)) && Able(cfg, s.(wnum := wnum), data, held)
    ensures Outgoing(cfg, s.(wnum := wnum), data) == Outgoing(cfg, s, data)
  {
    hide Plan, SealsFor, RecordsFor, Total, Steady;
  }

  /** With partial writes allowed one record is written and reported. */
  lemma PartialGetsThrough(cfg: Config, s: Wr, data: seq<byte>, address: int)
    requires Ok(cfg, s) && !s.shutdown && s.wnum < |data| && cfg.partialWrite
    requires !s.pend.pending && s.buf.size == 0 && Able(cfg, s, data[s.wnum..], 0)
    ensures var r, n := WriteAppData(cfg, s, data, address), Min(|data| - s.wnum, cfg.maxFragment);
      && r.ret == s.wnum + n && r.s.pend.pending == false && r.s.buf.size == 0
  {
    hide WriteRecord, Outgoing, Sound, Plan, SealsFor, RecordsFor, Total, Steady;
    var tot, n := s.wnum, Min(|data| - s.wnum, cfg.maxFragment);
    SameAble(cfg, s, 0, data[tot..], 0);
    assert data[tot..][..n] == data[tot..tot + n];
    FirstRecord(cfg, s.(wnum := 0), data[tot..], data[tot..tot + n], address + tot);
  }

  /** A pending record that this retry may finish. */
  predicate Continues(cfg: Config, p: Pend, address: int, n: nat) {
    p.pending && p.typ == APPLICATION_DATA && p.tot <= n && (cfg.movingBuffer || p.buf == address)
  }

  /** So does one that was blocked: the pending record goes out first, and then the rest behind it. */
  lemma RetryGetsThrough(cfg: Config, s: Wr, data: seq<byte>, address: int)
    requires Ok(cfg, s) && !s.shutdown && s.wnum < |data| && !cfg.partialWrite
    requires Continues(cfg, s.pend, address + s.wnum, Min(|data| - s.wnum, cfg.maxFragment))
    requires Able(cfg, s, data[s.wnum + s.pend.ret..], s.buf.size)
    ensures var r := WriteAppData(cfg, s, data, address);
      && r.ret == |data| && r.s.sealed == s.sealed + Outgoing(cfg, s, data[s.wnum + s.pend.ret..])
      && (r.s.flight.None? && Ordered(s) && !r.s.lost ==> r.s.wire == WireOf(r.s.sealed))
  {
    hide AppLoop, WriteRecord, Outgoing, Sound, Data, WireOf, InOrder, TailOf, Plan, SealsFor, RecordsFor, Total;
    var t := s.(wnum := 0);
    SameAble(cfg, s, 0, data[s.wnum + s.pend.ret..], s.buf.size);
    var tot, n := s.wnum, Min(|data| - s.wnum, cfg.maxFragment);
    PendingGetsThrough(cfg, t, data[tot..tot + n], address + tot, data[tot + s.pend.ret..]);
    var r := WriteRecord(cfg, t, data[tot..tot + n], address + tot);
    LoopTurn(cfg, t, data, address, tot);
    if tot + s.pend.ret < |data| {
      LoopGetsThrough(cfg, r.s, data, address, tot + s.pend.ret);
    } else {
      assert data[tot + s.pend.ret..] == [];
      NoneLeft(cfg, s);
    }
    WriteAppDataKeeps(cfg, s, data, address);
    if WriteAppData(cfg, s, data, address).s.flight.None? { AllOut(WriteAppData(cfg, s, data, address).s); }
  }

  lemma LoopTurn(cfg: Config, s: Wr, data: seq<byte>, address: int, tot: nat)
    requires Ok(cfg, s) && !s.early && tot < |data| && !cfg.partialWrite
    ensures var n := Min(|data| - tot, cfg.maxFragment);
      var r := WriteRecord(cfg, s, data[tot..tot + n], address + tot);
      r.ret > 0 ==>
        AppLoop(cfg, s, data, address, tot) ==
          if r.ret == |data| - tot then AppOut(tot + r.ret, false, r.s)
          else AppLoop(cfg, r.s, data, address, tot + r.ret)
  {
    hide WriteRecord, Core, EarlyOk;
  }

  lemma PendingGetsThrough(cfg: Config, s: Wr, plain: seq<byte>, address: int, rest: seq<byte>)
    requires Ok(cfg, s) && Continues(cfg, s.pend, address, |plain|) && Able(cfg, s, rest, s.buf.size)
    ensures var r := WriteRecord(cfg, s, plain, address);
      && r.ret == s.pend.ret && !r.s.pend.pending && r.s.buf.size == 0 && r.s.sealed == s.sealed && r.s.early == s.early
      && Able(cfg, r.s, rest, 0) && Outgoing(cfg, r.s, rest) == Outgoing(cfg, s, rest)
  {
    hide FlushBuffer, Heads, After, StopOf, Sound, TailOf, Plan, SealsFor, RecordsFor, Total;
    FlushBufferIff(s);
    var more := |Tail(s)| + Total(RecordsFor(APPLICATION_DATA, cfg, s.world.seals, Plan(cfg.maxFragment, rest)));
    SteadyTakes(s.world.writes, s.buf.size, more);
  }

  // ---- early data

  lemma {:induction false} LoopEndsEarly(cfg: Config, s: Wr, data: seq<byte>, address: int, tot: nat)
    requires Ok(cfg, s) && tot <= |data|
    ensures var r := AppLoop(cfg, s, data, address, tot);
      && (r.needsHandshake <==> s.early && !r.s.early)
      && (r.needsHandshake ==> r.ret == -1 && r.s.earlyWritten == cfg.earlyLimit)
      && (s.early && s.earlyWritten == cfg.earlyLimit ==> r.needsHandshake && r.s == s.(wnum := tot, early := false))
    decreases |data| - tot
  {
    hide WriteRecord, Core;
    var n, max := |data| - tot, MaxRecord(cfg, s);
    if max > 0 {
      var nw := Min(n, max);
      var r := WriteRecord(cfg, s, data[tot..tot + nw], address + tot);
      if r.ret > 0 && r.ret != n && !cfg.partialWrite { LoopEndsEarly(cfg, r.s, data, address, tot + r.ret); }
    }
  }

  /** Early data ends exactly where its limit is used up: the write then asks for the handshake, keeps what was
      reported, and later ones are no early data. */
  lemma EarlyDataEnds(cfg: Config, s: Wr, data: seq<byte>, address: int)
    requires Ok(cfg, s)
    ensures var r := WriteAppData(cfg, s, data, address);
      && (r.needsHandshake <==> s.early && !r.s.early)
      && (r.needsHandshake ==> r.ret == -1 && r.s.earlyWritten == cfg.earlyLimit)
      && (s.early && s.earlyWritten == cfg.earlyLimit && !s.shutdown && |data| >= s.wnum ==>
        r.needsHandshake && r.s == s.(early := false))
  {
    hide AppLoop, Sound, OffsetOk;
    if !s.shutdown && |data| >= s.wnum { LoopEndsEarly(cfg, s.(wnum := 0), data, address, s.wnum); }
  }

  // ---- messages

  /** An empty message still takes one record. */
  function MessagePlan(max: nat, msg: seq<byte>): seq<seq<byte>>
    requires max > 0
  {
    if msg == [] then [[]] else Plan(max, msg)
  }

  /** A message is queued exactly if the seals of all its records work, and it goes behind what is queued in records as
      large as they may be but for the last. If not, there is a pending flight all the same. */
  lemma {:induction false} MessageIff(cfg: Config, s: Wr, msg: seq<byte>)
    requires ConfigOk(cfg) && Core(s)
    ensures var r, ps := AddMessage(cfg, s, msg), MessagePlan(cfg.maxFragment, msg);
      && (r.ok <==> SealsFor(cfg, s.world.seals, ps))
      && r.s.flight.Some? && (r.ok ==> r.s.sealed == s.sealed + RecordsFor(HANDSHAKE, cfg, s.world.seals, ps))
    decreases |msg|
  {
    hide Core, SealOf, AddRecord, MessagePlan, SealsFor, RecordsFor;
    var n := Min(|msg|, cfg.maxFragment);
    var r := AddRecord(cfg, s, HANDSHAKE, msg[..n]);
    var rest := RestOfPlan(cfg.maxFragment, msg);
    OneMoreQueued(cfg, s, HANDSHAKE, msg[..n]);
    PlanSplits(HANDSHAKE, cfg, s.world.seals, msg[..n], rest);
    NoPlan(HANDSHAKE, cfg, r.s);
    if r.ok && n < |msg| {
      MessageIff(cfg, r.s, msg[n..]);
      if SealsFor(cfg, r.s.world.seals, rest) {
        var more := RecordsFor(HANDSHAKE, cfg, r.s.world.seals, rest);
        assert r.s.sealed + more == s.sealed + ([Rec(HANDSHAKE, msg[..n], s.world.seals[0].value)] + more);
      }
    }
  }

  lemma OneMoreQueued(cfg: Config, s: Wr, typ: byte, plain: seq<byte>)
    requires Core(s)
    ensures var r := AddRecord(cfg, s, typ, plain);
      && (r.ok <==> SealOf(cfg, s.world.seals, plain).Some?) && r.s.flight.Some?
      && r.s.world.seals == Popped(s.world.seals)
      && (r.ok ==>
        && s.world.seals != [] && s.world.seals[0].Some?
        && r.s.sealed == s.sealed + [Rec(typ, plain, s.world.seals[0].value)])
  {
    hide Core;
  }

  lemma PlanSplits(typ: byte, cfg: Config, seals: seq<Option<seq<byte>>>, plain: seq<byte>, rest: seq<seq<byte>>)
    ensures SealsFor(cfg, seals, [plain] + rest) <==>
      SealOf(cfg, seals, plain).Some? && SealsFor(cfg, Popped(seals), rest)
    ensures SealsFor(cfg, seals, [plain] + rest) ==>
      && seals != [] && seals[0].Some?
      && RecordsFor(typ, cfg, seals, [plain] + rest) ==
        [Rec(typ, plain, seals[0].value)] + RecordsFor(typ, cfg, Popped(seals), rest)
  {
    assert ([plain] + rest)[1..] == rest;
  }

  lemma NoPlan(typ: byte, cfg: Config, s: Wr)
    ensures SealsFor(cfg, s.world.seals, []) && s.sealed + RecordsFor(typ, cfg, s.world.seals, []) == s.sealed
  {
  }

  lemma RestOfPlan(max: nat, msg: seq<byte>) returns (rest: seq<seq<byte>>)
    requires max > 0
    ensures var n := Min(|msg|, max); MessagePlan(max, msg) == [msg[..n]] + rest
    ensures var n := Min(|msg|, max); rest == if n < |msg| then MessagePlan(max, msg[n..]) else []
  {
    var n := Min(|msg|, max);
    rest := if n < |msg| then MessagePlan(max, msg[n..]) else [];
    if msg == [] {
      assert msg[..n] == [] && [msg[..n]] + rest == [[]];
    } else {
      assert n < |msg| <==> msg[n..] != [];
      assert Plan(max, msg) == [msg[..n]] + Plan(max, msg[n..]);
    }
  }

  // ---- alerts

  /** An alert is sealed as its two bytes under its own type, once, and only if nothing is pending. */
  lemma AlertIsTwoBytes(cfg: Config, s: Wr, level: byte, desc: byte, address: int)
    requires Ok(cfg, s)
    ensures var t := DispatchAlert(cfg, s, level, desc, address).s;
      t.sealed == s.sealed ||
      (!s.pend.pending && exists bytes :: t.sealed == s.sealed + [Rec(21, [level, desc], bytes)])
  {
    hide DoWrite, EarlyOk;
    var r := DoWrite(cfg, s, ALERT, [level, desc], address);
    DoWriteWrote(cfg, s, ALERT, [level, desc], address);
    if r.s.sealed != s.sealed {
      var n := |s.sealed|;
      var last := r.s.sealed[n];
      assert r.s.sealed == s.sealed + [last] && last == Rec(21, [level, desc], last.bytes);
    }
  }

  /** With nothing pending it gets through exactly if there is memory, the seal works and the transport takes what is
      before it and the alert. */
  lemma AlertIff(cfg: Config, s: Wr, level: byte, desc: byte, address: int)
    requires Ok(cfg, s) && !s.pend.pending && s.buf.size == 0
    ensures var r, seal := DispatchAlert(cfg, s, level, desc, address), SealOf(cfg, s.world.seals, [level, desc]);
      && (r.ret > 0 <==>
        HasMemory(cfg, s, 2) && seal.Some? && Heads(s.world.writes) >= |Tail(s)| + |seal.value|)
      && (r.ret > 0 ==>
        && r.ret == 1 && r.s.sealed == s.sealed + [Rec(21, [level, desc], seal.value)]
        && r.s.buf.size == 0 && r.s.flight.None?)
  {
    hide DoWrite, Heads, After, TailOf, HasMemory, Sound;
    RecordIff(cfg, s, ALERT, [level, desc], address);
  }
}
