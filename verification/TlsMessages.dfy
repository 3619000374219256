/** Handshake messages as a stream of bytes in TLS records: however the records cut it, the messages come out again. */
module TlsMessages {
  import opened Bytes
  import W = DtlsWire
  import opened SslBuffer
  import opened TlsWrite
  import R = TlsWriteRuns

  const HM_HEADER: nat := 4 // SSL3_HM_HEADER_LENGTH

  datatype Message = Message(typ: byte, body: seq<byte>)

  /** `ssl3_init_message`, the body and `ssl3_finish_message` */
  function Raw(m: Message): seq<byte> {
    [m.typ] + W.PutU24(|m.body|) + m.body
  }

  function StreamOf(ms: seq<Message>): seq<byte> {
    if ms == [] then [] else Raw(ms[0]) + StreamOf(ms[1..])
  }

  datatype Parse = Short(needed: nat) | Got(m: Message, rest: seq<byte>)

  /** `parse_message`: the first message, or how many bytes there would have to be. */
  function ParseMessage(b: seq<byte>): (p: Parse)
    ensures p.Short? ==> |b| < p.needed
    ensures p.Got? ==> |p.rest| + HM_HEADER + |p.m.body| == |b|
  {
    if |b| < HM_HEADER then Short(HM_HEADER)
    else
      var end := HM_HEADER + W.GetU24(b[1..4]);
      if |b| < end then Short(end) else Got(Message(b[0], b[HM_HEADER..end]), b[end..])
  }

  /** `tls_can_accept_handshake_data` */
  predicate Accepts(b: seq<byte>, maxLen: nat) {
    ParseMessage(b).Short? && ParseMessage(b).needed <= HM_HEADER + maxLen
  }

  // ---- messages and bytes

  lemma RawParses(m: Message, rest: seq<byte>)
    requires |m.body| < W.U24
    ensures ParseMessage(Raw(m) + rest) == Got(m, rest)
  {
    hide W.PutU24, W.GetU24;
    W.NumbersRoundTrip(|m.body|);
    var b := Raw(m) + rest;
    assert b[1..4] == W.PutU24(|m.body|);
    assert b[HM_HEADER..HM_HEADER + |m.body|] == m.body;
  }

  /** What is parsed is what was written: three bytes are the number they spell. */
  lemma ParsedIsRaw(b: seq<byte>)
    requires ParseMessage(b).Got?
    ensures b == Raw(ParseMessage(b).m) + ParseMessage(b).rest
  {
    hide W.PutU24, W.GetU24;
    var s := b[1..4];
    SpellsItself(s);
    assert b == [b[0]] + s + b[HM_HEADER..];
  }

  lemma SpellsItself(s: seq<byte>)
    requires |s| == 3
    ensures W.PutU24(W.GetU24(s)) == s
  {
    var n: nat := W.GetU24(s);
    var low: nat, mid: nat, high: nat := s[2], s[1], s[0];
    assert n == 65536 * high + 256 * mid + low;
    assert n / 256 == 256 * high + mid;
    assert n / W.U16 == high;
  }

  /** More bytes behind it do not change the message. */
  lemma ParseStable(b: seq<byte>, more: seq<byte>)
    ensures ParseMessage(b).Got? ==> ParseMessage(b + more) == Got(ParseMessage(b).m, ParseMessage(b).rest + more)
    ensures ParseMessage(b).Short? && ParseMessage(b + more).Got? ==>
      |b| < HM_HEADER || ParseMessage(b).needed == HM_HEADER + |ParseMessage(b + more).m.body|
  {
    hide W.GetU24;
    if |b| >= HM_HEADER {
      assert (b + more)[1..4] == b[1..4];
      var end := HM_HEADER + W.GetU24(b[1..4]);
      if |b| >= end {
        assert (b + more)[HM_HEADER..end] == b[HM_HEADER..end];
        assert (b + more)[end..] == b[end..] + more;
      }
    }
  }

  lemma {:induction false} StreamAppend(a: seq<Message>, b: seq<Message>)
    ensures StreamOf(a + b) == StreamOf(a) + StreamOf(b)
  {
    hide Raw;
    if a == [] {
      assert a + b == b;
    } else {
      assert (a + b)[1..] == a[1..] + b;
      StreamAppend(a[1..], b);
    }
  }

  lemma StreamOne(m: Message)
    ensures StreamOf([m]) == Raw(m)
  {
  }

  // ---- a stream cut into records

  /** Records taken so far, the handshake buffer, and the messages handed out. */
  datatype Reading = Reading(next: nat, buf: seq<byte>, out: seq<Message>)

  datatype Act = Record | Read

  /** The next record is taken only where the buffer accepts more; records of other types go elsewhere. */
  function Step(sealed: seq<Rec>, maxLen: nat, r: Reading, a: Act): Reading {
    match a
    case Record =>
      if r.next >= |sealed| || !Accepts(r.buf, maxLen) then r
      else Reading(r.next + 1, r.buf + if sealed[r.next].typ == HANDSHAKE then sealed[r.next].plain else [], r.out)
    case Read =>
      (match ParseMessage(r.buf)
       case Short(_) => r
       case Got(m, rest) => Reading(r.next, rest, r.out + [m]))
  }

  function Steps(sealed: seq<Rec>, maxLen: nat, r: Reading, acts: seq<Act>): Reading
    decreases |acts|
  {
    if acts == [] then r else Steps(sealed, maxLen, Step(sealed, maxLen, r, acts[0]), acts[1..])
  }

  predicate Sendable(ms: seq<Message>) {
    forall k :: 0 <= k < |ms| ==> |ms[k].body| < W.U24
  }

  /** The records carry these messages. */
  predicate Carries(sealed: seq<Rec>, ms: seq<Message>) {
    Sendable(ms) && PlainOf(HANDSHAKE, sealed) == StreamOf(ms)
  }

  predicate Inv(sealed: seq<Rec>, ms: seq<Message>, r: Reading) {
    && Carries(sealed, ms) && r.next <= |sealed| && r.out <= ms
    && PlainOf(HANDSHAKE, sealed[..r.next]) == StreamOf(r.out) + r.buf
  }

  lemma {:induction false} PlainPrefix(typ: byte, sealed: seq<Rec>, n: nat)
    requires n <= |sealed|
    ensures PlainOf(typ, sealed[..n]) <= PlainOf(typ, sealed)
    decreases |sealed| - n
  {
    if n < |sealed| {
      PlainPrefix(typ, sealed, n + 1);
      assert sealed[..n + 1][..n] == sealed[..n];
    } else {
      assert sealed[..n] == sealed;
    }
  }

  /** The buffer is the beginning of the messages that are still to come. */
  lemma BufferBegins(sealed: seq<Rec>, ms: seq<Message>, r: Reading)
    requires Inv(sealed, ms, r)
    ensures r.buf <= StreamOf(ms[|r.out|..])
    ensures r.next == |sealed| ==> r.buf == StreamOf(ms[|r.out|..])
  {
    hide StreamOf, PlainOf;
    PlainPrefix(HANDSHAKE, sealed, r.next);
    assert sealed[..|sealed|] == sealed;
    var todo := ms[|r.out|..];
    assert ms == r.out + todo;
    StreamAppend(r.out, todo);
    After(StreamOf(r.out), r.buf, StreamOf(todo));
  }

  lemma After(a: seq<byte>, b: seq<byte>, c: seq<byte>)
    requires a + b <= a + c
    ensures b <= c && (a + b == a + c ==> b == c)
  {
    assert (a + b)[|a|..] == b;
    assert (a + c)[|a|..] == c;
    assert (a + c)[..|a + b|] == a + b;
    forall i | 0 <= i < |b| ensures i < |c| && b[i] == c[i] {
      assert (a + b)[|a| + i] == b[i];
      assert (a + c)[|a| + i] == c[i];
    }
  }

  /** What can be parsed is the message whose turn it is. */
  lemma ParsedIsNext(sealed: seq<Rec>, ms: seq<Message>, r: Reading)
    requires Inv(sealed, ms, r) && ParseMessage(r.buf).Got?
    ensures |r.out| < |ms| && ParseMessage(r.buf).m == ms[|r.out|]
  {
    hide ParseMessage, Raw, PlainOf;
    BufferBegins(sealed, ms, r);
    var todo := ms[|r.out|..];
    var more := StreamOf(todo)[|r.buf|..];
    assert StreamOf(todo) == r.buf + more;
    ParseStable(r.buf, more);
    Nonempty(r.buf);
    RawParses(todo[0], StreamOf(todo[1..]));
  }

  lemma Nonempty(b: seq<byte>)
    requires ParseMessage(b).Got?
    ensures b != []
  {
  }

  lemma StepKeeps(sealed: seq<Rec>, ms: seq<Message>, maxLen: nat, r: Reading, a: Act)
    requires Inv(sealed, ms, r)
    ensures Inv(sealed, ms, Step(sealed, maxLen, r, a))
  {
    hide ParseMessage, Raw, StreamOf, Carries;
    match a
    case Record =>
      if r.next < |sealed| {
        assert sealed[..r.next + 1][..r.next] == sealed[..r.next];
      }
    case Read =>
      if ParseMessage(r.buf).Got? {
        ParsedIsNext(sealed, ms, r);
        ParsedIsRaw(r.buf);
        var m := ParseMessage(r.buf).m;
        StreamAppend(r.out, [m]);
        StreamOne(m);
      }
  }

  lemma {:induction false} StepsKeep(sealed: seq<Rec>, ms: seq<Message>, maxLen: nat, r: Reading, acts: seq<Act>)
    requires Inv(sealed, ms, r)
    ensures Inv(sealed, ms, Steps(sealed, maxLen, r, acts))
    decreases |acts|
  {
    hide Inv, Step;
    if acts != [] {
      StepKeeps(sealed, ms, maxLen, r, acts[0]);
      StepsKeep(sealed, ms, maxLen, Step(sealed, maxLen, r, acts[0]), acts[1..]);
    }
  }

  /** However the stream was cut into records, whatever else was sealed in between, and however taking records and
      reading messages alternate: the messages read are those queued, in order, and at the end all of them. */
  lemma MessagesArrive(sealed: seq<Rec>, ms: seq<Message>, maxLen: nat, acts: seq<Act>)
    requires Carries(sealed, ms)
    ensures var r := Steps(sealed, maxLen, Reading(0, [], []), acts);
      && r.out <= ms
      && (r.next == |sealed| && ParseMessage(r.buf).Short? ==> r.out == ms && r.buf == [])
  {
    hide Steps, ParseMessage, Raw;
    StepsKeep(sealed, ms, maxLen, Reading(0, [], []), acts);
    var r := Steps(sealed, maxLen, Reading(0, [], []), acts);
    BufferBegins(sealed, ms, r);
    if r.next == |sealed| && |r.out| < |ms| {
      var todo := ms[|r.out|..];
      RawParses(todo[0], StreamOf(todo[1..]));
    }
  }

  /** Between messages the buffer takes the next record exactly if its message is within the limit, as far as the header
      tells; so a sender of messages within the limit is never refused. */
  lemma NeverExcessive(sealed: seq<Rec>, ms: seq<Message>, maxLen: nat, acts: seq<Act>)
    requires Carries(sealed, ms)
    ensures var r := Steps(sealed, maxLen, Reading(0, [], []), acts);
      ParseMessage(r.buf).Short? ==>
        (Accepts(r.buf, maxLen) <==> |r.buf| < HM_HEADER || (|r.out| < |ms| && |ms[|r.out|].body| <= maxLen))
  {
    hide Steps, ParseMessage, Raw;
    StepsKeep(sealed, ms, maxLen, Reading(0, [], []), acts);
    var r := Steps(sealed, maxLen, Reading(0, [], []), acts);
    if ParseMessage(r.buf).Short? {
      BufferBegins(sealed, ms, r);
      var todo := ms[|r.out|..];
      if |r.buf| >= HM_HEADER {
        var more := StreamOf(todo)[|r.buf|..];
        assert StreamOf(todo) == r.buf + more;
        RawParses(todo[0], StreamOf(todo[1..]));
        ParseStable(r.buf, more);
      } else {
        TooShort(r.buf);
      }
    }
  }

  lemma TooShort(b: seq<byte>)
    requires |b| < HM_HEADER
    ensures ParseMessage(b) == Short(HM_HEADER)
  {
  }

  /** Queueing a message with `ssl3_add_message` adds it to what the records carry. */
  lemma QueueingCarries(before: seq<Rec>, after: seq<Rec>, ms: seq<Message>, m: Message, max: nat)
    requires Carries(before, ms) && |m.body| < W.U24 && Pieces(before, after, HANDSHAKE, Raw(m), max)
    ensures Carries(after, ms + [m])
  {
    hide PlainOf, Raw;
    StreamAppend(ms, [m]);
    StreamOne(m);
  }

  /** Records of other types add nothing. */
  lemma OthersCarryNothing(before: seq<Rec>, after: seq<Rec>, ms: seq<Message>, typ: byte, plain: seq<byte>)
    requires Carries(before, ms) && Grew(before, after, typ, plain) && typ != HANDSHAKE
    ensures Carries(after, ms)
  {
    hide PlainOf, StreamOf;
    GrewPlain(before, after, typ, plain);
  }

  /** What a run of the write path queues: each of its message calls succeeds and queues the next of these messages. */
  predicate Queues(cfg: Config, s: Wr, calls: seq<R.Call>, ms: seq<Message>)
    requires Ok(cfg, s)
    decreases |calls|
  {
    if calls == [] then ms == []
    else
      var t := R.Do(cfg, s, calls[0]).s;
      if calls[0].Message? then
        && ms != [] && calls[0].msg == Raw(ms[0]) && |ms[0].body| < W.U24 && AddMessage(cfg, s, calls[0].msg).ok
        && Queues(cfg, t, calls[1..], ms[1..])
      else Queues(cfg, t, calls[1..], ms)
  }

  lemma WriteCarries(cfg: Config, s: Wr, ms: seq<Message>, typ: byte, plain: seq<byte>, address: int)
    requires Core(s) && Carries(s.sealed, ms) && typ != HANDSHAKE
    ensures Carries(DoWrite(cfg, s, typ, plain, address).s.sealed, ms)
  {
    hide DoWrite, Carries, Core;
    DoWriteWrote(cfg, s, typ, plain, address);
    var after := DoWrite(cfg, s, typ, plain, address).s.sealed;
    if after != s.sealed { OthersCarryNothing(s.sealed, after, ms, typ, plain); }
  }

  lemma {:induction false} AppCarries(cfg: Config, s: Wr, ms: seq<Message>, data: seq<byte>, address: int, tot: nat)
    requires Ok(cfg, s) && tot <= |data| && Carries(s.sealed, ms)
    ensures Carries(AppLoop(cfg, s, data, address, tot).s.sealed, ms)
    decreases |data| - tot
  {
    hide DoWrite, Carries, Core, EarlyOk;
    var n, max := |data| - tot, MaxRecord(cfg, s);
    if max > 0 {
      var nw := Min(n, max);
      var r := WriteRecord(cfg, s, data[tot..tot + nw], address + tot);
      WriteCarries(cfg, s, ms, APPLICATION_DATA, data[tot..tot + nw], address + tot);
      if r.ret > 0 && r.ret != n && !cfg.partialWrite { AppCarries(cfg, r.s, ms, data, address, tot + r.ret); }
    }
  }

  lemma OtherCallCarries(cfg: Config, s: Wr, ms: seq<Message>, c: R.Call)
    requires Ok(cfg, s) && Carries(s.sealed, ms) && !c.Message?
    ensures Carries(R.Do(cfg, s, c).s.sealed, ms)
  {
    hide DoWrite, AppLoop, FlushFlight, Carries, Sound, OffsetOk;
    match c
    case Flight =>
    case AppData(data, address) =>
      if !s.shutdown && |data| >= s.wnum { AppCarries(cfg, s.(wnum := 0), ms, data, address, s.wnum); }
    case Alert(level, desc, address) => WriteCarries(cfg, s, ms, ALERT, [level, desc], address);
    case Shutdown =>
    case StopEarly =>
  }

  lemma {:induction false} RunCarries(cfg: Config, s: Wr, calls: seq<R.Call>, before: seq<Message>, ms: seq<Message>)
    requires Ok(cfg, s) && Carries(s.sealed, before) && Queues(cfg, s, calls, ms)
    ensures Carries(R.Run(cfg, s, calls).sealed, before + ms)
    decreases |calls|
  {
    hide Carries, Ok, AddMessage, Raw, FlushFlight, WriteAppData, DispatchAlert;
    if calls == [] {
      assert before + ms == before;
    } else {
      var t := R.Do(cfg, s, calls[0]).s;
      if calls[0].Message? {
        MessageCarries(cfg, s, before, ms[0]);
        RunCarries(cfg, t, calls[1..], before + [ms[0]], ms[1..]);
        assert before + [ms[0]] + ms[1..] == before + ms;
      } else {
        OtherCallCarries(cfg, s, before, calls[0]);
        RunCarries(cfg, t, calls[1..], before, ms);
      }
    }
  }

  lemma MessageCarries(cfg: Config, s: Wr, ms: seq<Message>, m: Message)
    requires Ok(cfg, s) && Carries(s.sealed, ms) && |m.body| < W.U24 && AddMessage(cfg, s, Raw(m)).ok
    ensures Carries(AddMessage(cfg, s, Raw(m)).s.sealed, ms + [m])
  {
    hide Carries, AddMessage, Raw, Pieces;
    var done := AddMessageKeeps(cfg, s, Raw(m));
    QueueingCarries(s.sealed, AddMessage(cfg, s, Raw(m)).s.sealed, ms, m, cfg.maxFragment);
  }

  /** From one end to the other: a run of the write path in which every message call succeeds, with application data,
      alerts and flushes in between and a transport that fails at will; and a reader of its records. The messages read
      are a beginning of those queued, and in the end all. */
  lemma WriterToReader(cfg: Config, world: World, early: bool, calls: seq<R.Call>, ms: seq<Message>, maxLen: nat,
      acts: seq<Act>)
    requires ConfigOk(cfg) && Queues(cfg, Start(world, early), calls, ms)
    ensures var sealed := R.Run(cfg, Start(world, early), calls).sealed;
      var r := Steps(sealed, maxLen, Reading(0, [], []), acts);
      r.out <= ms && (r.next == |sealed| && ParseMessage(r.buf).Short? ==> r.out == ms && r.buf == [])
  {
    hide Steps, ParseMessage, Raw, R.Run, Queues;
    RunCarries(cfg, Start(world, early), calls, [], ms);
    assert [] + ms == ms;
    MessagesArrive(R.Run(cfg, Start(world, early), calls).sealed, ms, maxLen, acts);
  }

  // ---- the implementation

  datatype Opened = Success | Failed

  class HandshakeReader {
    var hsBuf: array?<byte>
    var length: nat
    var hasMessage: bool

    ghost predicate Valid()
      reads this
    {
      if hsBuf == null then length == 0 else length <= hsBuf.Length
    }

    ghost function Contents(): (b: seq<byte>)
      requires Valid()
      reads this, hsBuf
      ensures |b| == length
    {
      if hsBuf == null then [] else hsBuf[..length]
    }

    constructor ()
      ensures Valid() && Contents() == [] && !hasMessage && hsBuf == null
    {
      hsBuf, length, hasMessage := null, 0, false;
    }

    /** `parse_message` */
    method FirstMessage() returns (p: Parse)
      requires Valid()
      ensures p == ParseMessage(Contents())
    {
      hide W.GetU24;
      if hsBuf == null || length < HM_HEADER {
        return Short(HM_HEADER);
      }
      assert hsBuf[1..4] == Contents()[1..4];
      var end := HM_HEADER + W.GetU24(hsBuf[1..4]);
      if length < end {
        return Short(end);
      }
      assert hsBuf[HM_HEADER..end] == Contents()[HM_HEADER..end] && hsBuf[end..length] == Contents()[end..];
      p := Got(Message(hsBuf[0], hsBuf[HM_HEADER..end]), hsBuf[end..length]);
    }

    /** `ssl3_get_message` */
    method GetMessage() returns (m: Option<Message>)
      requires Valid()
      modifies this`hasMessage
      ensures Valid() && hasMessage == (old(hasMessage) || m.Some?)
      ensures m == match ParseMessage(Contents()) case Short(_) => None case Got(first, _) => Some(first)
    {
      var p := FirstMessage();
      if p.Short? {
        return None;
      }
      hasMessage := true;
      m := Some(p.m);
    }

    /** `tls_can_accept_handshake_data` */
    method CanAccept(maxLen: nat) returns (ok: bool)
      requires Valid()
      ensures ok == Accepts(Contents(), maxLen)
    {
      var p := FirstMessage();
      ok := p.Short? && p.needed <= HM_HEADER + maxLen;
    }

    /** `tls_has_unprocessed_handshake_data`: bytes beyond the message that was handed out. */
    method HasUnprocessed() returns (r: bool)
      requires Valid()
      ensures hasMessage && ParseMessage(Contents()).Got? ==> r == (ParseMessage(Contents()).rest != [])
      ensures !(hasMessage && ParseMessage(Contents()).Got?) ==> r == (Contents() != [])
    {
      var msgLen := 0;
      if hasMessage {
        var p := FirstMessage();
        if p.Got? {
          msgLen := HM_HEADER + |p.m.body|;
        }
      }
      r := hsBuf != null && length > msgLen;
    }

    /** `ssl3_open_handshake`, given what decrypting the record gives. A record is refused before it is opened if a
        whole message is waiting or the one that has begun is too large. */
    method OpenHandshake(maxLen: nat, rec: Option<(byte, seq<byte>)>) returns (r: Opened)
      requires Valid()
      modifies this`hsBuf, this`length, hsBuf
      ensures Valid() && (hsBuf == old(hsBuf) || fresh(hsBuf))
      ensures r == Success <==> old(Accepts(Contents(), maxLen)) && rec.Some? && rec.value.0 == HANDSHAKE
      ensures Contents() == if r == Success then old(Contents()) + rec.value.1 else old(Contents())
    {
      if hsBuf == null {
        hsBuf := new byte[0];
      }
      var ok := CanAccept(maxLen);
      if !ok || rec.None? || rec.value.0 != HANDSHAKE {
        return Failed;
      }
      Append(rec.value.1);
      r := Success;
    }

    /** `BUF_MEM_append` */
    method Append(body: seq<byte>)
      requires Valid() && hsBuf != null
      modifies this`hsBuf, this`length, hsBuf
      ensures Valid() && hsBuf != null && (hsBuf == old(hsBuf) || fresh(hsBuf))
      ensures Contents() == old(Contents()) + body
    {
      ghost var before := hsBuf[..length];
      if hsBuf.Length < length + |body| {
        var bigger := new byte[length + |body|];
        Copy(hsBuf, 0, bigger, 0, length);
        assert bigger[..length] == before;
        hsBuf := bigger;
      }
      Put(hsBuf, length, body);
      assert hsBuf[..length + |body|] == before + body;
      length := length + |body|;
    }

    /** `ssl3_next_message`, with the `memmove`. After the handshake an empty buffer is released. */
    method NextMessage(inInit: bool)
      requires Valid() && ParseMessage(Contents()).Got?
      modifies this, hsBuf
      ensures Valid() && Contents() == ParseMessage(old(Contents())).rest && !hasMessage
      ensures hsBuf == if !inInit && ParseMessage(old(Contents())).rest == [] then null else old(hsBuf)
    {
      hide W.GetU24;
      var m := GetMessage();
      var n := HM_HEADER + |m.value.body|;
      assert hsBuf[n..length] == Contents()[n..];
      MoveDown(hsBuf, n, length);
      length := length - n;
      hasMessage := false;
      if !inInit && length == 0 {
        hsBuf := null;
      }
    }
  }

  /** `OPENSSL_memmove` to the front of the array */
  method MoveDown(a: array<byte>, n: nat, end: nat)
    requires n <= end <= a.Length
    modifies a
    ensures a[..end - n] == old(a[n..end])
  {
    for i := 0 to end - n
      invariant forall k :: 0 <= k < i ==> a[k] == old(a[n + k])
      invariant forall k :: i <= k < a.Length ==> a[k] == old(a[k])
    {
      a[i] := a[i + n];
    }
  }
}
