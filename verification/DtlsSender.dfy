/** The sending half of the DTLS handshake transport: a flight cut into packets of at most the MTU. */
module DtlsSender {
  import opened Bytes
  import opened DtlsWire

  const RECORD_HEADER: nat := 13 // DTLS1_RT_HEADER_LENGTH
  const CCS_RECORD: byte := 20
  const HANDSHAKE_RECORD: byte := 22

  /** DTLS_OUTGOING_MESSAGE: a message as one fragment, or a ChangeCipherSpec. */
  datatype Outgoing = Outgoing(data: seq<byte>, epoch: nat, isCcs: bool)

  datatype Tx = Tx(queue: seq<Outgoing>, written: nat, offset: nat, complete: bool, writeSeq: nat, epoch: nat)

  /** What an AEAD promises about lengths: a sealed body grows by nonceLen to maxOverhead bytes. */
  datatype Cipher = Cipher(nonceLen: nat, maxOverhead: nat)

  datatype Keys = Keys(cur: Cipher, prev: Cipher)

  /** The outcome of one call of the AEAD. */
  datatype Seal = Seal(ok: bool, growth: nat)

  /** A sealed record: its plaintext and its size on the wire. */
  datatype Rec = Rec(epoch: nat, typ: byte, payload: seq<byte>, size: nat)

  /** A record and the number of the flight's message it carries. */
  datatype Piece = Piece(index: nat, rec: Rec)

  datatype Sealed = SealError | NoProgress | Progress(piece: Piece, more: bool, offset: nat)

  // ---- queueing

  /** `dtls1_init_message`, the body and `dtls1_finish_message` */
  function Message(typ: byte, seqNo: nat, body: seq<byte>): seq<byte> {
    PutHeader(Header(typ, |body|, seqNo, 0, |body|)) + body
  }

  datatype Added = Added(ok: bool, tx: Tx)

  /** `add_outgoing` */
  function AddOutgoing(tx: Tx, isCcs: bool, data: seq<byte>): Added {
    var t := if tx.complete then tx.(queue := [], written := 0, offset := 0, complete := false) else tx;
    if |t.queue| >= K || |data| > 0xFFFF_FFFF then Added(false, t)
    else Added(true, t.(queue := t.queue + [Outgoing(data, t.epoch, isCcs)],
                        writeSeq := if isCcs then t.writeSeq else (t.writeSeq + 1) % U16))
  }

  // ---- sealing

  function Min(a: nat, b: nat): nat {
    if a < b then a else b
  }

  /** The body of a queued message, if its data is one whole fragment. */
  function Whole(data: seq<byte>): Option<(Header, seq<byte>)> {
    match ParseFragment(data)
    case Broken => None
    case Parsed(h, body, rest) => if h.off == 0 && h.msgLen == |body| && rest == [] then Some((h, body)) else None
  }

  /** The record around a payload. An AEAD that breaks its promise about lengths counts as failed. */
  function SealRecord(c: Cipher, epoch: nat, typ: byte, payload: seq<byte>, o: Seal): Option<Rec> {
    if o.ok && c.nonceLen <= o.growth <= c.maxOverhead && |payload| + o.growth < U16
    then Some(Rec(epoch, typ, payload, RECORD_HEADER + |payload| + o.growth))
    else None
  }

  /** `seal_next_message` under the cipher of the message's epoch. */
  function SealWith(tx: Tx, c: Cipher, maxOut: nat, o: Seal): Sealed
    requires tx.written < |tx.queue|
  {
    var msg := tx.queue[tx.written];
    var overhead := RECORD_HEADER + c.maxOverhead;
    if msg.isCcs then
      if maxOut < 1 + overhead then NoProgress
      else
        match SealRecord(c, msg.epoch, CCS_RECORD, [1], o)
        case None => SealError
        case Some(rec) => Progress(Piece(tx.written, rec), false, tx.offset)
    else
      match Whole(msg.data)
      case None => SealError
      case Some((h, body)) =>
        if tx.offset > |body| then SealError
        else if maxOut < HEADER + 1 + overhead || maxOut < RECORD_HEADER + c.nonceLen then NoProgress
        else
          var todo := Min(|body| - tx.offset, maxOut - HEADER - overhead);
          match SealRecord(c, msg.epoch, HANDSHAKE_RECORD, Fragment(h, body, tx.offset, todo), o)
          case None => SealError
          case Some(rec) =>
            if todo == |body| - tx.offset then Progress(Piece(tx.written, rec), false, 0)
            else Progress(Piece(tx.written, rec), true, tx.offset + todo)
  }

  function Fragment(h: Header, body: seq<byte>, off: nat, len: nat): (r: seq<byte>)
    requires off + len <= |body|
    ensures |r| == HEADER + len
  {
    PutHeader(Header(h.typ, h.msgLen, h.seqNo, off, len)) + body[off..off + len]
  }

  /** The cipher of a message queued in this or the previous epoch. */
  function CipherFor(tx: Tx, keys: Keys, epoch: nat): Option<Cipher> {
    if tx.epoch >= 1 && epoch == tx.epoch - 1 then Some(keys.prev)
    else if epoch != tx.epoch then None
    else Some(keys.cur)
  }

  /** `seal_next_message` */
  function SealMessage(tx: Tx, keys: Keys, maxOut: nat, o: Seal): Sealed
    requires tx.written < |tx.queue|
  {
    match CipherFor(tx, keys, tx.queue[tx.written].epoch)
    case None => SealError
    case Some(c) => SealWith(tx, c, maxOut, o)
  }

  datatype PacketOut = PacketOut(ok: bool, pieces: seq<Piece>, tx: Tx)

  function First(os: seq<Seal>): Seal {
    if os == [] then Seal(false, 0) else os[0]
  }

  function Others<T>(s: seq<T>): seq<T> {
    if s == [] then [] else s[1..]
  }

  /** The loop of `seal_next_packet`, given the outcomes of the seals to come. */
  function SealRest(tx: Tx, keys: Keys, maxOut: nat, os: seq<Seal>): PacketOut
    decreases |tx.queue| - tx.written
  {
    if tx.written >= |tx.queue| then PacketOut(true, [], tx)
    else
      match SealMessage(tx, keys, maxOut, First(os))
      case SealError => PacketOut(false, [], tx)
      case NoProgress => PacketOut(true, [], tx)
      case Progress(p, more, off) =>
        if more then PacketOut(true, [p], tx.(offset := off))
        else
          var room := if p.rec.size <= maxOut then maxOut - p.rec.size else 0;
          var r := SealRest(tx.(written := tx.written + 1, offset := off), keys, room, Others(os));
          PacketOut(r.ok, [p] + r.pieces, r.tx)
  }

  /** `seal_next_packet` */
  function SealPacket(tx: Tx, keys: Keys, mtu: nat, os: seq<Seal>): PacketOut {
    var r := SealRest(tx, keys, mtu, os);
    PacketOut(r.ok && r.pieces != [], r.pieces, r.tx)
  }

  // ---- sending

  /** What happens to one packet: the outcomes of its seals and whether `BIO_write` takes it. */
  datatype Attempt = Attempt(seals: seq<Seal>, taken: bool)

  datatype Outcome = Sent | Blocked | Failed

  datatype FlightOut = FlightOut(result: Outcome, packets: seq<seq<Piece>>, tx: Tx)

  /** The loop of `send_flight`, given what happens to the packets to come. With no more attempts given,
      BIO takes nothing more. */
  function SendRest(tx: Tx, keys: Keys, mtu: nat, env: seq<Attempt>): FlightOut
    decreases |env|
  {
    if tx.written >= |tx.queue| then FlightOut(Sent, [], tx)
    else if env == [] then FlightOut(Blocked, [], tx)
    else
      var r := SealPacket(tx, keys, mtu, env[0].seals);
      if !r.ok then FlightOut(Failed, [], r.tx)
      else if !env[0].taken then FlightOut(Blocked, [], tx)
      else
        var rest := SendRest(r.tx, keys, mtu, env[1..]);
        rest.(packets := [r.pieces] + rest.packets)
  }

  /** `send_flight` */
  function Flight(tx: Tx, keys: Keys, shutdown: bool, mtu: nat, env: seq<Attempt>, flushed: bool): FlightOut {
    if shutdown then FlightOut(Failed, [], tx)
    else
      var r := SendRest(tx, keys, mtu, env);
      if r.result == Sent && !flushed then r.(result := Blocked) else r
  }

  // ---- tiling

  /** A position in the flight: whole messages and bytes of the next one. */
  datatype Pos = Pos(message: nat, offset: nat)

  /** The position after one more record, if the record starts exactly there and is right in every byte. */
  function Next(queue: seq<Outgoing>, pos: Pos, p: Piece): Option<Pos> {
    if p.index != pos.message || pos.message >= |queue| || p.rec.epoch != queue[pos.message].epoch then None
    else
      var msg := queue[pos.message];
      if msg.isCcs then
        if p.rec.typ == CCS_RECORD && p.rec.payload == [1] && pos.offset == 0
        then Some(Pos(pos.message + 1, 0))
        else None
      else
        match Whole(msg.data)
        case None => None
        case Some((h, body)) =>
          var n := |p.rec.payload| - HEADER;
          if n < 0 || pos.offset + n > |body| || p.rec.typ != HANDSHAKE_RECORD
            || p.rec.payload != Fragment(h, body, pos.offset, n) then None
          else if pos.offset + n == |body| then Some(Pos(pos.message + 1, 0))
          else if n == 0 then None
          else Some(Pos(pos.message, pos.offset + n))
  }

  /** The position that records cover from a position on, if they tile. */
  function Tile(queue: seq<Outgoing>, pos: Pos, log: seq<Piece>): Option<Pos>
    decreases |log|
  {
    if log == [] then Some(pos)
    else
      match Next(queue, pos, log[0])
      case None => None
      case Some(q) => Tile(queue, q, log[1..])
  }

  function At(tx: Tx): Pos {
    Pos(tx.written, tx.offset)
  }

  function Flat(packets: seq<seq<Piece>>): seq<Piece>
    decreases |packets|
  {
    if packets == [] then [] else packets[0] + Flat(packets[1..])
  }

  lemma {:induction false} TileAppend(queue: seq<Outgoing>, pos: Pos, a: seq<Piece>, b: seq<Piece>)
    ensures Tile(queue, pos, a + b) ==
      match Tile(queue, pos, a) case None => None case Some(q) => Tile(queue, q, b)
    decreases |a|
  {
    hide Next;
    if a == [] {
      assert a + b == b;
    } else {
      assert (a + b)[1..] == a[1..] + b;
      match Next(queue, pos, a[0])
      case None =>
      case Some(q) => TileAppend(queue, q, a[1..], b);
    }
  }

  /** A ChangeCipherSpec is never cut. */
  predicate AtBoundary(tx: Tx) {
    && tx.written <= |tx.queue|
    && (tx.offset > 0 ==> tx.written < |tx.queue| && !tx.queue[tx.written].isCcs)
  }

  /** One seal makes exactly the next record of the tiling, and fits. */
  lemma SealMessageTiles(tx: Tx, keys: Keys, maxOut: nat, o: Seal)
    requires tx.written < |tx.queue| && AtBoundary(tx)
    requires SealMessage(tx, keys, maxOut, o).Progress?
    ensures var Progress(p, more, off) := SealMessage(tx, keys, maxOut, o);
      && p.rec.size <= maxOut
      && Next(tx.queue, At(tx), p) == Some(if more then Pos(tx.written, off) else Pos(tx.written + 1, off))
      && (if more then tx.offset < off && !tx.queue[tx.written].isCcs else off == 0)
  {
    hide ParseFragment, PutHeader;
  }

  function Weight(pieces: seq<Piece>): nat {
    if pieces == [] then 0 else pieces[0].rec.size + Weight(pieces[1..])
  }

  /** What is left to send: messages, and bytes of the one in progress. */
  function BytesLeft(tx: Tx): nat {
    if tx.written < |tx.queue| && tx.offset <= |tx.queue[tx.written].data|
    then |tx.queue[tx.written].data| - tx.offset else 0
  }

  predicate Moved(tx: Tx, tx': Tx) {
    tx' == tx.(written := tx'.written, offset := tx'.offset)
  }

  /** Sealed records tile from the old position to the new one and fit the packet, whether or not a seal then fails. */
  lemma {:induction false} PacketTiles(tx: Tx, keys: Keys, maxOut: nat, os: seq<Seal>)
    requires AtBoundary(tx)
    ensures var r := SealRest(tx, keys, maxOut, os);
      && AtBoundary(r.tx) && Moved(tx, r.tx) && Weight(r.pieces) <= maxOut
      && Tile(tx.queue, At(tx), r.pieces) == Some(At(r.tx))
    decreases |tx.queue| - tx.written
  {
    hide SealMessage, Next;
    if tx.written < |tx.queue| && SealMessage(tx, keys, maxOut, First(os)).Progress? {
      SealMessageTiles(tx, keys, maxOut, First(os));
      var Progress(p, more, off) := SealMessage(tx, keys, maxOut, First(os));
      if !more {
        PacketTiles(tx.(written := tx.written + 1, offset := off), keys, maxOut - p.rec.size, Others(os));
      }
    }
  }

  /** Messages left, then bytes left, fall with every packet. */
  lemma {:induction false} PacketProgress(tx: Tx, keys: Keys, maxOut: nat, os: seq<Seal>)
    requires AtBoundary(tx)
    ensures var r := SealRest(tx, keys, maxOut, os);
      && tx.written <= r.tx.written
      && (r.pieces != [] && r.tx.written == tx.written ==> BytesLeft(r.tx) < BytesLeft(tx) && tx.offset < r.tx.offset)
    decreases |tx.queue| - tx.written
  {
    hide SealMessage, Next, BytesLeft;
    if tx.written < |tx.queue| && SealMessage(tx, keys, maxOut, First(os)).Progress? {
      SealMessageTiles(tx, keys, maxOut, First(os));
      var Progress(p, more, off) := SealMessage(tx, keys, maxOut, First(os));
      if more {
        LessLeft(tx, keys, maxOut, First(os));
      } else {
        PacketProgress(tx.(written := tx.written + 1, offset := off), keys, maxOut - p.rec.size, Others(os));
      }
    }
  }

  lemma LessLeft(tx: Tx, keys: Keys, maxOut: nat, o: Seal)
    requires tx.written < |tx.queue| && AtBoundary(tx)
    requires SealMessage(tx, keys, maxOut, o).Progress? && SealMessage(tx, keys, maxOut, o).more
    ensures BytesLeft(tx.(offset := SealMessage(tx, keys, maxOut, o).offset)) < BytesLeft(tx)
  {
    hide PutHeader;
  }

  // ---- whole runs between two rewinds

  /** One call of `send_flight`, with the write epoch and the ciphers it finds. */
  datatype Send = Send(epoch: nat, keys: Keys, mtu: nat, env: seq<Attempt>)

  datatype RunOut = RunOut(packets: seq<seq<Piece>>, tx: Tx)

  function Run(tx: Tx, sends: seq<Send>): RunOut
    decreases |sends|
  {
    if sends == [] then RunOut([], tx)
    else
      var r := SendRest(tx.(epoch := sends[0].epoch), sends[0].keys, sends[0].mtu, sends[0].env);
      var rest := Run(r.tx, sends[1..]);
      RunOut(r.packets + rest.packets, rest.tx)
  }

  /** A seal fails after an earlier record was sealed for the same packet: the packet is dropped, but
      `outgoing_written` and `outgoing_offset` stay where its records ended. */
  predicate Torn(tx: Tx, keys: Keys, mtu: nat, env: seq<Attempt>)
    decreases |env|
  {
    tx.written < |tx.queue| && env != [] &&
    var r := SealPacket(tx, keys, mtu, env[0].seals);
    if r.ok then env[0].taken && Torn(r.tx, keys, mtu, env[1..]) else r.pieces != []
  }

  predicate EverTorn(tx: Tx, sends: seq<Send>)
    decreases |sends|
  {
    sends != [] &&
    var s := sends[0];
    var t := tx.(epoch := s.epoch);
    Torn(t, s.keys, s.mtu, s.env) || EverTorn(SendRest(t, s.keys, s.mtu, s.env).tx, sends[1..])
  }

  /** The records reach a position strictly before the sender's, or do not tile at all. */
  predicate Behind(reached: Option<Pos>, tx: Tx) {
    reached.Some? ==>
      reached.value.message < tx.written || (reached.value.message == tx.written && reached.value.offset < tx.offset)
  }

  /** A gap is never closed: the next record does not start where the records before it end. */
  lemma NextAfterGap(queue: seq<Outgoing>, q: Pos, tx: Tx, p: Piece)
    requires Behind(Some(q), tx) && Next(queue, At(tx), p).Some?
    ensures Next(queue, q, p) == None
  {
    hide ParseFragment, PutHeader;
    if q.message == tx.written && !queue[q.message].isCcs {
      var (h, body) := Whole(queue[q.message].data).value;
      WholeInRange(queue[q.message].data);
      var n := |p.rec.payload| - HEADER;
      OffsetsDiffer(h, body, q.offset, tx.offset, n);
    }
  }

  lemma WholeInRange(data: seq<byte>)
    requires Whole(data).Some?
    ensures |Whole(data).value.1| < U24 && InRange(Whole(data).value.0)
  {
    hide PutHeader;
  }

  lemma OffsetsDiffer(h: Header, body: seq<byte>, a: nat, b: nat, n: nat)
    requires a < b && b + n <= |body| < U24
    ensures Fragment(h, body, a, n) != Fragment(h, body, b, n)
  {
    hide PutU16, PutU24, GetU24, PutHeader;
    var ha, hb := Header(h.typ, h.msgLen, h.seqNo, a, n), Header(h.typ, h.msgLen, h.seqNo, b, n);
    HeaderPieces(ha); HeaderPieces(hb);
    NumbersRoundTrip(a); NumbersRoundTrip(b);
    assert Fragment(h, body, a, n)[6..9] == PutHeader(ha)[6..9];
    assert Fragment(h, body, b, n)[6..9] == PutHeader(hb)[6..9];
  }

  lemma {:induction false} FlatAppend(a: seq<seq<Piece>>, b: seq<seq<Piece>>)
    ensures Flat(a + b) == Flat(a) + Flat(b)
    decreases |a|
  {
    if a == [] {
      assert a + b == b;
    } else {
      FlatAppend(a[1..], b);
      assert (a + b)[1..] == a[1..] + b;
    }
  }

  predicate Fitting(packets: seq<seq<Piece>>, mtu: nat) {
    forall k :: 0 <= k < |packets| ==> packets[k] != [] && Weight(packets[k]) <= mtu
  }

  /** One call of `send_flight`: whatever BIO refuses, its packets go on exactly where the sender was, unless it
      tears. */
  lemma {:induction false} SendTiles(tx: Tx, keys: Keys, mtu: nat, env: seq<Attempt>)
    requires AtBoundary(tx)
    ensures var r := SendRest(tx, keys, mtu, env);
      && AtBoundary(r.tx) && Moved(tx, r.tx) && Fitting(r.packets, mtu)
      && var reached := Tile(tx.queue, At(tx), Flat(r.packets));
      if Torn(tx, keys, mtu, env) then Behind(reached, r.tx) else reached == Some(At(r.tx))
    decreases |env|
  {
    hide SealRest, Next;
    if tx.written < |tx.queue| && env != [] {
      var p := SealPacket(tx, keys, mtu, env[0].seals);
      PacketTiles(tx, keys, mtu, env[0].seals);
      PacketProgress(tx, keys, mtu, env[0].seals);
      if p.ok && env[0].taken {
        SendTiles(p.tx, keys, mtu, env[1..]);
        var rest := SendRest(p.tx, keys, mtu, env[1..]);
        FlatCons(p.pieces, rest.packets);
        TileAppend(tx.queue, At(tx), p.pieces, Flat(rest.packets));
      }
    }
  }

  lemma FlatCons(p: seq<Piece>, rest: seq<seq<Piece>>)
    ensures Flat([p] + rest) == p + Flat(rest)
  {
    assert ([p] + rest)[1..] == rest;
  }

  /** After a gap nothing that is sent tiles with what went before. */
  lemma {:induction false} SendAfterGap(q: Pos, tx: Tx, keys: Keys, mtu: nat, env: seq<Attempt>)
    requires AtBoundary(tx) && Behind(Some(q), tx)
    ensures var r := SendRest(tx, keys, mtu, env); Behind(Tile(tx.queue, q, Flat(r.packets)), r.tx)
    decreases |env|
  {
    hide SealRest, Next;
    if tx.written < |tx.queue| && env != [] {
      var p := SealPacket(tx, keys, mtu, env[0].seals);
      PacketTiles(tx, keys, mtu, env[0].seals);
      PacketProgress(tx, keys, mtu, env[0].seals);
      if p.ok && env[0].taken {
        NextAfterGap(tx.queue, q, tx, p.pieces[0]);
        var rest := SendRest(p.tx, keys, mtu, env[1..]);
        FlatCons(p.pieces, rest.packets);
      }
    }
  }

  lemma {:induction false} RunAfterGap(q: Pos, tx: Tx, sends: seq<Send>)
    requires AtBoundary(tx) && Behind(Some(q), tx)
    ensures var r := Run(tx, sends); Behind(Tile(tx.queue, q, Flat(r.packets)), r.tx)
    decreases |sends|
  {
    hide SendRest, Next;
    if sends != [] {
      var s := sends[0];
      var t := tx.(epoch := s.epoch);
      SendTiles(t, s.keys, s.mtu, s.env);
      SendAfterGap(q, t, s.keys, s.mtu, s.env);
      var r := SendRest(t, s.keys, s.mtu, s.env);
      var rest := Run(r.tx, sends[1..]);
      FlatAppend(r.packets, rest.packets);
      TileAppend(tx.queue, q, Flat(r.packets), Flat(rest.packets));
      var reached := Tile(tx.queue, q, Flat(r.packets));
      if reached.Some? { RunAfterGap(reached.value, r.tx, sends[1..]); }
    }
  }

  /** Over every run of `send_flight` calls, with BIO refusing packets and seals failing at will, the records of the
      packets BIO took tile the flight up to the sender's position exactly when no packet was torn. */
  lemma {:induction false} FlightTiles(tx: Tx, sends: seq<Send>)
    requires AtBoundary(tx)
    ensures var r := Run(tx, sends);
      && AtBoundary(r.tx) && r.tx.queue == tx.queue
      && (Tile(tx.queue, At(tx), Flat(r.packets)) == Some(At(r.tx)) <==> !EverTorn(tx, sends))
    decreases |sends|
  {
    hide SendRest, Next, Torn;
    if sends != [] {
      var s := sends[0];
      var t := tx.(epoch := s.epoch);
      SendTiles(t, s.keys, s.mtu, s.env);
      var r := SendRest(t, s.keys, s.mtu, s.env);
      var rest := Run(r.tx, sends[1..]);
      FlatAppend(r.packets, rest.packets);
      TileAppend(tx.queue, At(tx), Flat(r.packets), Flat(rest.packets));
      FlightTiles(r.tx, sends[1..]);
      var reached := Tile(tx.queue, At(tx), Flat(r.packets));
      if Torn(t, s.keys, s.mtu, s.env) && reached.Some? { RunAfterGap(reached.value, r.tx, sends[1..]); }
    }
  }

  // ---- what tiling means for each message

  /** The pieces of the log that belong to message i. */
  function Of(log: seq<Piece>, i: nat): seq<Piece>
    decreases |log|
  {
    if log == [] then [] else (if log[0].index == i then [log[0]] else []) + Of(log[1..], i)
  }

  /** Their bodies, one after the other. */
  function Bodies(log: seq<Piece>): seq<byte>
    decreases |log|
  {
    if log == [] then []
    else (if |log[0].rec.payload| < HEADER then [] else log[0].rec.payload[HEADER..]) + Bodies(log[1..])
  }

  /** How far a position has come in message i of n bytes. */
  function Reach(pos: Pos, i: nat, n: nat): nat {
    if i < pos.message then n else if i == pos.message then pos.offset else 0
  }

  /** Records that tile cover each message body from 0 on, without gap or overlap. */
  lemma {:induction false} TilesCoverBody(queue: seq<Outgoing>, pos: Pos, log: seq<Piece>, i: nat, body: seq<byte>)
    requires i < |queue| && !queue[i].isCcs && Whole(queue[i].data).Some? && Whole(queue[i].data).value.1 == body
    requires pos.message == i ==> pos.offset <= |body|
    requires Tile(queue, pos, log).Some?
    ensures var end := Tile(queue, pos, log).value;
      && Reach(pos, i, |body|) <= Reach(end, i, |body|) <= |body|
      && Bodies(Of(log, i)) == body[Reach(pos, i, |body|)..Reach(end, i, |body|)]
    decreases |log|
  {
    hide Next;
    if log != [] {
      var q := Next(queue, pos, log[0]).value;
      NextCovers(queue, pos, log[0], i, body);
      TilesCoverBody(queue, q, log[1..], i, body);
      BodiesOf(log, i);
    }
  }

  lemma BodiesOf(log: seq<Piece>, i: nat)
    requires log != []
    ensures Bodies(Of(log, i)) == (if log[0].index == i then Bodies([log[0]]) else []) + Bodies(Of(log[1..], i))
  {
    if log[0].index == i {
      var one := [log[0]];
      assert Of(log, i) == one + Of(log[1..], i) && one[1..] == [];
      assert Of(log, i)[1..] == Of(log[1..], i);
      assert Bodies(one) ==
        (if |log[0].rec.payload| < HEADER then [] else log[0].rec.payload[HEADER..]) + Bodies(one[1..]);
    } else {
      assert Of(log, i) == Of(log[1..], i);
    }
  }

  lemma NextCovers(queue: seq<Outgoing>, pos: Pos, p: Piece, i: nat, body: seq<byte>)
    requires i < |queue| && !queue[i].isCcs && Whole(queue[i].data).Some? && Whole(queue[i].data).value.1 == body
    requires pos.message == i ==> pos.offset <= |body|
    requires Next(queue, pos, p).Some?
    ensures var q := Next(queue, pos, p).value;
      && (q.message == i ==> q.offset <= |body|)
      && Reach(pos, i, |body|) <= Reach(q, i, |body|)
      && (if p.index == i then Bodies([p]) == body[Reach(pos, i, |body|)..Reach(q, i, |body|)]
          else Reach(pos, i, |body|) == Reach(q, i, |body|))
  {
    hide PutHeader, ParseFragment, Whole;
    var (h, b) := Whole(queue[i].data).value;
    if p.index == i {
      var n := |p.rec.payload| - HEADER;
      assert p.rec.payload[HEADER..] == body[pos.offset..pos.offset + n];
    }
  }

  /** A ChangeCipherSpec is sent once, and in its place: pieces come in the order of their messages. */
  lemma {:induction false} TilesCoverCcs(queue: seq<Outgoing>, pos: Pos, log: seq<Piece>, i: nat)
    requires i < |queue| && queue[i].isCcs && Tile(queue, pos, log).Some?
    ensures |Of(log, i)| == if pos.message <= i < Tile(queue, pos, log).value.message then 1 else 0
    ensures pos.message <= Tile(queue, pos, log).value.message
    decreases |log|
  {
    if log != [] {
      TilesCoverCcs(queue, Next(queue, pos, log[0]).value, log[1..], i);
    }
  }

  lemma {:induction false} TilesInOrder(queue: seq<Outgoing>, pos: Pos, log: seq<Piece>, k: nat)
    requires k < |log| && Tile(queue, pos, log).Some?
    ensures pos.message <= log[k].index < |queue|
    ensures k > 0 ==> log[k - 1].index <= log[k].index
    decreases |log|
  {
    hide ParseFragment, PutHeader;
    if k > 0 {
      var q := Next(queue, pos, log[0]).value;
      TilesInOrder(queue, q, log[1..], k - 1);
    }
  }

  // ---- the failing case

  const LAST_KEYS := Keys(Cipher(0, 0), Cipher(0, 0))

  /** The last flight of a handshake: a key exchange message, the ChangeCipherSpec, and the Finished in the new
      epoch. */
  function LastFlight(exchange: seq<byte>, finished: seq<byte>): Tx {
    var t1 := AddOutgoing(Tx([], 0, 0, false, 0, 0), false, Message(16, 0, exchange)).tx;
    var t2 := AddOutgoing(t1, true, []).tx;
    AddOutgoing(t2.(epoch := 1), false, Message(20, 1, finished)).tx.(complete := true)
  }

  /** All three fit into a packet, but the seal of the Finished fails, and the packet is dropped. */
  const TORN_SEND := Send(1, LAST_KEYS, 228, [Attempt([Seal(true, 0), Seal(true, 0), Seal(false, 0)], true)])

  /** The next call, in which nothing fails. */
  const NEXT_SEND := Send(1, LAST_KEYS, 228, [Attempt([Seal(true, 0)], true)])

  lemma MessageIsWhole(typ: byte, n: nat, body: seq<byte>)
    requires n < U16 && |body| < U24
    ensures Whole(Message(typ, n, body)) == Some((Header(typ, |body|, n, 0, |body|), body))
  {
    hide PutHeader, ParseFragment;
    FragmentRoundTrip(Header(typ, |body|, n, 0, |body|), body, []);
    assert Message(typ, n, body) == PutHeader(Header(typ, |body|, n, 0, |body|)) + body + [];
  }

  lemma LastFlightIs(exchange: seq<byte>, finished: seq<byte>)
    requires |exchange| <= 64 && |finished| <= 64
    ensures LastFlight(exchange, finished) ==
      Tx([Outgoing(Message(16, 0, exchange), 0, false), Outgoing([], 0, true),
        Outgoing(Message(20, 1, finished), 1, false)],
         0, 0, true, 2, 1)
  {
    hide PutHeader;
  }

  lemma TornSend(exchange: seq<byte>, finished: seq<byte>)
    requires |exchange| <= 64 && |finished| <= 64
    ensures var tx := LastFlight(exchange, finished);
      SendRest(tx, LAST_KEYS, 228, TORN_SEND.env) == FlightOut(Failed, [], tx.(written := 2))
  {
    hide PutHeader, ParseFragment, Whole, Message, Fragment, LastFlight;
    LastFlightIs(exchange, finished);
    MessageIsWhole(16, 0, exchange);
    MessageIsWhole(20, 1, finished);
    var tx := LastFlight(exchange, finished);
    var os3 := [Seal(false, 0)];
    var os2 := [Seal(true, 0)] + os3;
    var os1 := [Seal(true, 0)] + os2;
    assert os1 == TORN_SEND.env[0].seals && Others(os1) == os2 && Others(os2) == os3;
    var room := 228 - RECORD_HEADER - HEADER - |exchange|;
    assert SealRest(tx.(written := 2), LAST_KEYS, room - 14, os3) == PacketOut(false, [], tx.(written := 2));
    var r2 := SealRest(tx.(written := 1), LAST_KEYS, room, os2);
    assert r2.tx == tx.(written := 2) && !r2.ok;
    var r1 := SealRest(tx, LAST_KEYS, 228, os1);
    assert r1.tx == tx.(written := 2) && !r1.ok;
  }

  lemma NextSend(exchange: seq<byte>, finished: seq<byte>)
    requires |exchange| <= 64 && |finished| <= 64
    ensures var tx := LastFlight(exchange, finished).(written := 2);
      var r := SendRest(tx, LAST_KEYS, 228, NEXT_SEND.env);
      r.result == Sent && r.tx == tx.(written := 3) && |r.packets| == |r.packets[0]| == 1 && r.packets[0][0].index == 2
  {
    hide PutHeader, ParseFragment, Whole, Message, Fragment, LastFlight;
    LastFlightIs(exchange, finished);
    MessageIsWhole(20, 1, finished);
    var tx := LastFlight(exchange, finished).(written := 2);
    var os := [Seal(true, 0)];
    var room := 228 - RECORD_HEADER - HEADER - |finished|;
    assert SealRest(tx.(written := 3), LAST_KEYS, room, []) == PacketOut(true, [], tx.(written := 3));
    assert Others(os) == [];
    var r := SealRest(tx, LAST_KEYS, 228, os);
    assert r.tx == tx.(written := 3) && r.ok && |r.pieces| == 1 && r.pieces[0].index == 2;
    assert SendRest(tx.(written := 3), LAST_KEYS, 228, []) == FlightOut(Sent, [], tx.(written := 3));
    assert NEXT_SEND.env[1..] == [];
  }

  /** The seal of a Finished fails after the key exchange message and the ChangeCipherSpec were sealed for the same
      packet. The next call sends the Finished alone, and the flight counts as sent. */
  lemma TornPacketLosesMessage(exchange: seq<byte>, finished: seq<byte>)
    requires |exchange| <= 64 && |finished| <= 64
    ensures
      var r := Run(LastFlight(exchange, finished), [TORN_SEND, NEXT_SEND]);
      && r.tx.written == |r.tx.queue| == 3
      && Of(Flat(r.packets), 0) == Of(Flat(r.packets), 1) == [] && |Of(Flat(r.packets), 2)| == 1
  {
    hide SendRest, LastFlight, Message;
    LastFlightIs(exchange, finished);
    TornSend(exchange, finished);
    NextSend(exchange, finished);
    var tx := LastFlight(exchange, finished);
    var t := tx.(written := 2);
    assert tx.(epoch := 1) == tx && t.(epoch := 1) == t;
    var packets := SendRest(t, LAST_KEYS, 228, NEXT_SEND.env).packets;
    var none: seq<seq<Piece>> := [];
    assert Run(t, [NEXT_SEND]) == RunOut(packets, tx.(written := 3)) by {
      assert [NEXT_SEND][1..] == [] && packets + none == packets;
    }
    assert [TORN_SEND, NEXT_SEND][1..] == [NEXT_SEND];
    assert none + packets == packets;
    assert Run(tx, [TORN_SEND, NEXT_SEND]) == RunOut(packets, tx.(written := 3));
    var piece := packets[0][0];
    assert packets[0] == [piece];
    assert packets == [[piece]];
    assert [[piece]][1..] == none && Flat(packets) == [piece] + Flat(none) == [piece];
    OfOne(piece, 0); OfOne(piece, 1); OfOne(piece, 2);
  }

  lemma OfOne(p: Piece, i: nat)
    ensures Of([p], i) == if p.index == i then [p] else []
  {
    assert [p][1..] == [];
  }

  /** A flight that was sent to its end without a torn packet is on the wire whole. */
  lemma SentFlightIsWhole(tx: Tx, sends: seq<Send>, i: nat)
    requires tx.written == tx.offset == 0 && !EverTorn(tx, sends)
    requires Run(tx, sends).tx.written == |tx.queue| && i < |tx.queue|
    ensures var log := Flat(Run(tx, sends).packets);
      if tx.queue[i].isCcs then |Of(log, i)| == 1
      else Whole(tx.queue[i].data).Some? ==> Bodies(Of(log, i)) == Whole(tx.queue[i].data).value.1
  {
    hide Run, Whole, Tile;
    FlightTiles(tx, sends);
    var log := Flat(Run(tx, sends).packets);
    if tx.queue[i].isCcs {
      TilesCoverCcs(tx.queue, At(tx), log, i);
    } else if Whole(tx.queue[i].data).Some? {
      TilesCoverBody(tx.queue, At(tx), log, i, Whole(tx.queue[i].data).value.1);
    }
  }

  // ---- the implementation

  class Sender {
    const outgoing: array<Outgoing>
    var len: nat
    var written: nat
    var offset: nat
    var complete: bool
    var writeSeq: nat // 16 bits
    var epoch: nat
    var keys: Keys

    ghost predicate Valid()
      reads this, outgoing
    {
      outgoing.Length == K && len <= K && AtBoundary(State())
    }

    ghost function State(): Tx
      requires outgoing.Length == K && len <= K
      reads this, outgoing
    {
      Tx(outgoing[..len], written, offset, complete, writeSeq, epoch)
    }

    constructor (keys: Keys)
      ensures Valid() && fresh(outgoing) && State() == Tx([], 0, 0, false, 0, 0) && this.keys == keys
    {
      outgoing := new Outgoing[K](_ => Outgoing([], 0, false));
      len, written, offset, complete, writeSeq, epoch := 0, 0, 0, false, 0, 0;
      this.keys := keys;
    }

    /** `dtls_clear_outgoing_messages` */
    method Clear()
      requires Valid()
      modifies this`len, this`written, this`offset, this`complete
      ensures Valid() && State() == old(State()).(queue := [], written := 0, offset := 0, complete := false)
    {
      len, written, offset, complete := 0, 0, 0, false;
    }

    /** `add_outgoing` */
    method Add(isCcs: bool, data: seq<byte>) returns (ok: bool)
      requires Valid()
      modifies this, outgoing
      ensures Valid() && keys == old(keys) && Added(ok, State()) == AddOutgoing(old(State()), isCcs, data)
    {
      if complete {
        Clear();
      }
      if len >= K || |data| > 0xFFFF_FFFF {
        return false;
      }
      if !isCcs {
        writeSeq := (writeSeq + 1) % U16;
      }
      ghost var queue := outgoing[..len];
      outgoing[len] := Outgoing(data, epoch, isCcs);
      len := len + 1;
      assert outgoing[..len] == queue + [Outgoing(data, epoch, isCcs)];
      ok := true;
    }

    /** `seal_next_message`. Its fixed buffer is never too small for the fragment. */
    method SealNextMessage(maxOut: nat, o: Seal) returns (r: Sealed)
      requires Valid() && written < len
      modifies this`offset
      ensures r == SealMessage(old(State()), keys, maxOut, o)
      ensures State() == if r.Progress? then old(State()).(offset := r.offset) else old(State())
    {
      hide ParseFragment, PutHeader, Fragment;
      var msg := outgoing[written];
      var cipher := keys.cur;
      if epoch >= 1 && msg.epoch == epoch - 1 {
        cipher := keys.prev;
      } else if msg.epoch != epoch {
        return SealError;
      }
      var overhead, prefix := RECORD_HEADER + cipher.maxOverhead, RECORD_HEADER + cipher.nonceLen;
      if msg.isCcs {
        if maxOut < 1 + overhead {
          return NoProgress;
        }
        var rec := SealRecord(cipher, msg.epoch, CCS_RECORD, [1], o);
        return if rec.None? then SealError else Progress(Piece(written, rec.value), false, offset);
      }
      var whole := Whole(msg.data);
      if whole.None? || offset > |whole.value.1| {
        return SealError;
      }
      var (h, body) := whole.value;
      if maxOut < HEADER + 1 + overhead || maxOut < prefix {
        return NoProgress;
      }
      var todo := |body| - offset;
      if todo > maxOut - HEADER - overhead {
        todo := maxOut - HEADER - overhead;
      }
      var frag := Fragment(h, body, offset, todo);
      assert cipher.nonceLen <= cipher.maxOverhead ==> |frag| <= maxOut - prefix;
      var rec := SealRecord(cipher, msg.epoch, HANDSHAKE_RECORD, frag, o);
      if rec.None? {
        return SealError;
      }
      var piece := Piece(written, rec.value);
      if todo == |body| - offset {
        offset := 0;
        return Progress(piece, false, 0);
      }
      offset := offset + todo;
      r := Progress(piece, true, offset);
    }

    /** `seal_next_packet` */
    method SealNextPacket(mtu: nat, os: seq<Seal>) returns (ok: bool, pieces: seq<Piece>)
      requires Valid()
      modifies this`written, this`offset
      ensures Valid() && PacketOut(ok, pieces, State()) == SealPacket(old(State()), keys, mtu, os)
    {
      hide SealMessage, SealRest, Next;
      ghost var start := State();
      pieces := [];
      var room: nat := mtu;
      var seals := os;
      while written < len
        invariant Valid()
        invariant SealRest(start, keys, mtu, os) == After(pieces, SealRest(State(), keys, room, seals))
        decreases len - written
      {
        ghost var before := State();
        UnfoldRest(before, keys, room, seals);
        var r := SealNextMessage(room, First(seals));
        if r.SealError? {
          return false, pieces;
        }
        if r.NoProgress? {
          break;
        }
        pieces := pieces + [r.piece];
        if r.more {
          break;
        }
        room := room - r.piece.rec.size;
        seals := Others(seals);
        written := written + 1;
      }
      UnfoldRest(State(), keys, room, seals);
      ok := pieces != [];
    }

    /** `send_flight`. Messages left and bytes left fall with every packet, so it ends. */
    method SendFlight(shutdown: bool, mtu: nat, env: seq<Attempt>, flushed: bool)
      returns (result: Outcome, packets: seq<seq<Piece>>)
      requires Valid()
      modifies this`written, this`offset
      ensures Valid() && FlightOut(result, packets, State()) == Flight(old(State()), keys, shutdown, mtu, env, flushed)
    {
      hide SealRest, SealPacket, SendRest, BytesLeft;
      packets := [];
      if shutdown {
        return Failed, [];
      }
      var todo := env;
      while written < len
        invariant Valid()
        invariant SendRest(old(State()), keys, mtu, env) == Later(packets, SendRest(State(), keys, mtu, todo))
        decreases len - written, BytesLeft(State())
      {
        ghost var before := State();
        UnfoldSend(before, keys, mtu, todo);
        if todo == [] {
          return Blocked, packets;
        }
        var oldWritten, oldOffset := written, offset;
        var ok, packet := SealNextPacket(mtu, todo[0].seals);
        PacketMoves(before, keys, mtu, todo[0].seals);
        if !ok {
          return Failed, packets;
        }
        if !todo[0].taken {
          written, offset := oldWritten, oldOffset;
          return Blocked, packets;
        }
        packets := packets + [packet];
        todo := todo[1..];
      }
      UnfoldSend(State(), keys, mtu, todo);
      result := if flushed then Sent else Blocked;
    }

    /** `dtls1_flush_flight` */
    method FlushFlight(shutdown: bool, mtu: nat, env: seq<Attempt>, flushed: bool)
      returns (result: Outcome, packets: seq<seq<Piece>>)
      requires Valid()
      modifies this`written, this`offset, this`complete
      ensures Valid()
      ensures FlightOut(result, packets, State()) ==
        Flight(old(State()).(complete := true), keys, shutdown, mtu, env, flushed)
    {
      complete := true;
      assert State() == old(State()).(complete := true);
      result, packets := SendFlight(shutdown, mtu, env, flushed);
    }

    /** `dtls1_retransmit_outgoing_messages` */
    method Retransmit(shutdown: bool, mtu: nat, env: seq<Attempt>, flushed: bool)
      returns (result: Outcome, packets: seq<seq<Piece>>)
      requires Valid()
      modifies this`written, this`offset
      ensures Valid()
      ensures FlightOut(result, packets, State()) ==
        Flight(old(State()).(written := 0, offset := 0), keys, shutdown, mtu, env, flushed)
    {
      written, offset := 0, 0;
      assert State() == old(State()).(written := 0, offset := 0);
      result, packets := SendFlight(shutdown, mtu, env, flushed);
    }

    /** The write epoch and ciphers of `dtls1_set_write_state`. */
    method SetWriteState(cipher: Cipher)
      requires Valid()
      modifies this`epoch, this`keys
      ensures Valid() && State() == old(State()).(epoch := (old(epoch) + 1) % U16)
      ensures keys == Keys(cipher, old(keys).cur)
    {
      epoch := (epoch + 1) % U16;
      keys := Keys(cipher, keys.cur);
    }
  }

  /** One turn of the loop of `seal_next_packet`. */
  lemma UnfoldRest(tx: Tx, keys: Keys, room: nat, os: seq<Seal>)
    requires AtBoundary(tx)
    ensures tx.written == |tx.queue| ==> SealRest(tx, keys, room, os) == PacketOut(true, [], tx)
    ensures tx.written < |tx.queue| ==>
      match SealMessage(tx, keys, room, First(os))
      case SealError => SealRest(tx, keys, room, os) == PacketOut(false, [], tx)
      case NoProgress => SealRest(tx, keys, room, os) == PacketOut(true, [], tx)
      case Progress(p, more, off) =>
        && p.rec.size <= room && AtBoundary(tx.(offset := off))
        && (if more then SealRest(tx, keys, room, os) == PacketOut(true, [p], tx.(offset := off))
            else
              && off == 0
              && var rest := SealRest(tx.(written := tx.written + 1, offset := off), keys, room - p.rec.size,
                Others(os));
                SealRest(tx, keys, room, os) == After([p], rest))
  {
    hide SealMessage, Next;
    if tx.written < |tx.queue| && SealMessage(tx, keys, room, First(os)).Progress? {
      SealMessageTiles(tx, keys, room, First(os));
    }
  }

  function Later(done: seq<seq<Piece>>, r: FlightOut): FlightOut {
    FlightOut(r.result, done + r.packets, r.tx)
  }

  /** One turn of the loop of `send_flight`. */
  lemma UnfoldSend(tx: Tx, keys: Keys, mtu: nat, env: seq<Attempt>)
    ensures tx.written >= |tx.queue| ==> SendRest(tx, keys, mtu, env) == FlightOut(Sent, [], tx)
    ensures tx.written < |tx.queue| ==>
      if env == [] then SendRest(tx, keys, mtu, env) == FlightOut(Blocked, [], tx)
      else
        var r := SealPacket(tx, keys, mtu, env[0].seals);
        SendRest(tx, keys, mtu, env) ==
          if !r.ok then FlightOut(Failed, [], r.tx)
          else if !env[0].taken then FlightOut(Blocked, [], tx)
          else Later([r.pieces], SendRest(r.tx, keys, mtu, env[1..]))
  {
    hide SealPacket;
  }

  lemma PacketMoves(tx: Tx, keys: Keys, mtu: nat, os: seq<Seal>)
    requires AtBoundary(tx)
    ensures var r := SealPacket(tx, keys, mtu, os);
      && AtBoundary(r.tx) && Moved(tx, r.tx) && tx.written <= r.tx.written
      && (r.ok && r.tx.written == tx.written ==> BytesLeft(r.tx) < BytesLeft(tx))
  {
    hide SealRest;
    PacketTiles(tx, keys, mtu, os);
    PacketProgress(tx, keys, mtu, os);
  }

  function After(done: seq<Piece>, r: PacketOut): PacketOut {
    PacketOut(r.ok, done + r.pieces, r.tx)
  }
}
