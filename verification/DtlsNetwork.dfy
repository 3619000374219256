/** Sender and receiver over a network that loses, duplicates and reorders: what is handed out was queued. */
module DtlsNetwork {
  import opened Bytes
  import opened DtlsWire
  import opened Reassembly
  import R = DtlsReceiver
  import S = DtlsSender

  /** A handshake message. Message n of the history carries sequence number n. */
  datatype Msg = Msg(typ: byte, body: seq<byte>)

  /** The network is the set of all records ever written; taking one out does not remove it. */
  datatype Sys = Sys(tx: S.Tx, history: seq<Msg>, net: set<S.Rec>, rx: R.Rx, out: seq<Msg>,
    ccsTaken: nat)

  datatype Act =
    | Queue(typ: byte, body: seq<byte>)
    | QueueCcs
    | Flush(send: S.Send)
    | Resume(send: S.Send)
    | Retransmit(send: S.Send)
    | Deliver(rec: S.Rec)
    | Read
    | TakeCcs
    | NewReadEpoch(encrypted: bool)

  function Records(packets: seq<seq<S.Piece>>): set<S.Rec> {
    set p | p in S.Flat(packets) :: p.rec
  }

  function Sending(s: Sys, tx: S.Tx, send: S.Send): Sys {
    var r := S.SendRest(tx.(epoch := send.epoch), send.keys, send.mtu, send.env);
    s.(tx := r.tx, net := s.net + Records(r.packets))
  }

  /** One step of sender, network or receiver. A step that does not apply changes nothing. */
  ghost function Do(s: Sys, a: Act, maxLen: nat): (r: Sys)
    requires |s.rx.slots| == K
    ensures |r.rx.slots| == K
  {
    match a
    case Queue(typ, body) =>
      if |body| >= U24 then s // the length prefix of the message cannot be written
      else
        var r := S.AddOutgoing(s.tx, false, S.Message(typ, s.tx.writeSeq, body));
        s.(tx := r.tx, history := if r.ok then s.history + [Msg(typ, body)] else s.history)
    case QueueCcs => s.(tx := S.AddOutgoing(s.tx, true, []).tx)
    case Flush(send) => Sending(s, s.tx.(complete := true), send)
    case Resume(send) => Sending(s, s.tx, send)
    case Retransmit(send) => Sending(s, s.tx.(written := 0, offset := 0), send)
    case Deliver(rec) => if rec in s.net then s.(rx := R.Opening(s.rx, rec.typ, rec.payload, maxLen).rx) else s
    case Read =>
      (match R.Current(s.rx)
       case None => s
       case Some(m) => s.(out := s.out + [Msg(m.typ, m.data)], rx := R.Advance(s.rx)))
    case TakeCcs => if s.rx.ccs then s.(rx := s.rx.(ccs := false), ccsTaken := s.ccsTaken + 1) else s
    case NewReadEpoch(encrypted) => s.(rx := s.rx.(epoch := (s.rx.epoch + 1) % U16, encrypted := encrypted))
  }

  ghost function Exec(s: Sys, acts: seq<Act>, maxLen: nat): (r: Sys)
    requires |s.rx.slots| == K
    ensures |r.rx.slots| == K
    decreases |acts|
  {
    if acts == [] then s else Exec(Do(s, acts[0], maxLen), acts[1..], maxLen)
  }

  function Start(): Sys {
    var slots := [None, None, None, None, None, None, None];
    Sys(S.Tx([], 0, 0, false, 0, 0), [], {}, R.Rx(0, slots, false, 0, false), [], 0)
  }

  // ---- the invariant

  ghost predicate IsMessage(history: seq<Msg>, data: seq<byte>, n: nat) {
    n < |history| && |history[n].body| < U24 && data == S.Message(history[n].typ, n, history[n].body)
  }

  ghost predicate QueueOk(history: seq<Msg>, queue: seq<S.Outgoing>) {
    forall k :: 0 <= k < |queue| && !queue[k].isCcs ==> exists n :: IsMessage(history, queue[k].data, n)
  }

  function HeaderOf(m: Msg, n: nat, off: nat, len: nat): Header {
    Header(m.typ, |m.body|, n, off, len)
  }

  /** The payload is bytes off to off + len of message n. */
  ghost predicate IsSlice(history: seq<Msg>, payload: seq<byte>, n: nat, off: nat, len: nat) {
    && n < |history| && off + len <= |history[n].body| < U24
    && payload == PutHeader(HeaderOf(history[n], n, off, len)) + history[n].body[off..off + len]
  }

  ghost predicate HonestRec(history: seq<Msg>, rec: S.Rec) {
    if rec.typ == S.CCS_RECORD then rec.payload == [1]
    else rec.typ == S.HANDSHAKE_RECORD && exists n, off, len :: IsSlice(history, rec.payload, n, off, len)
  }

  /** What a slot holds of a message is true. */
  ghost predicate TrueSlot(history: seq<Msg>, s: Slot) {
    && s.seqNo < |history| && s.typ == history[s.seqNo].typ && |s.data| == |history[s.seqNo].body|
    && forall i :: 0 <= i < |s.data| && i in s.have ==> s.data[i] == history[s.seqNo].body[i]
  }

  ghost predicate SlotsOk(history: seq<Msg>, slots: seq<Option<Slot>>) {
    forall j :: 0 <= j < |slots| && slots[j].Some? ==> TrueSlot(history, slots[j].value)
  }

  ghost predicate Inv(s: Sys) {
    && |s.history| < U16 && s.tx.writeSeq == |s.history| && S.AtBoundary(s.tx)
    && QueueOk(s.history, s.tx.queue)
    && (forall rec :: rec in s.net ==> HonestRec(s.history, rec))
    && R.RingOk(s.rx) && SlotsOk(s.history, s.rx.slots)
    && s.out <= s.history && s.rx.readSeq == |s.out|
  }

  // ---- the sender only writes slices of queued messages

  lemma MessageWhole(typ: byte, n: nat, body: seq<byte>)
    requires n < U16 && |body| < U24
    ensures S.Whole(S.Message(typ, n, body)) == Some((Header(typ, |body|, n, 0, |body|), body))
  {
    hide PutHeader, ParseFragment;
    FragmentRoundTrip(Header(typ, |body|, n, 0, |body|), body, []);
    assert S.Message(typ, n, body) == PutHeader(Header(typ, |body|, n, 0, |body|)) + body + [];
  }

  lemma NextIsHonest(history: seq<Msg>, queue: seq<S.Outgoing>, pos: S.Pos, p: S.Piece)
    requires |history| <= U16 && QueueOk(history, queue) && S.Next(queue, pos, p).Some?
    ensures HonestRec(history, p.rec)
  {
    hide PutHeader, ParseFragment, S.Whole, S.Message;
    var msg := queue[pos.message];
    if !msg.isCcs {
      var n: nat :| IsMessage(history, msg.data, n);
      MessageWhole(history[n].typ, n, history[n].body);
      assert IsSlice(history, p.rec.payload, n, pos.offset, |p.rec.payload| - HEADER);
    }
  }

  lemma {:induction false} TileIsHonest(history: seq<Msg>, queue: seq<S.Outgoing>, pos: S.Pos, log: seq<S.Piece>)
    requires |history| <= U16 && QueueOk(history, queue) && S.Tile(queue, pos, log).Some?
    ensures forall p :: p in log ==> HonestRec(history, p.rec)
    decreases |log|
  {
    hide S.Next, HonestRec, QueueOk;
    if log != [] {
      NextIsHonest(history, queue, pos, log[0]);
      TileIsHonest(history, queue, S.Next(queue, pos, log[0]).value, log[1..]);
    }
  }

  /** Whatever BIO and the seals do, torn packets included, every record written is honest. */
  lemma {:induction false} SendIsHonest(history: seq<Msg>, tx: S.Tx, keys: S.Keys, mtu: nat, env: seq<S.Attempt>)
    requires |history| <= U16 && QueueOk(history, tx.queue) && S.AtBoundary(tx)
    ensures forall p :: p in S.Flat(S.SendRest(tx, keys, mtu, env).packets) ==> HonestRec(history, p.rec)
    decreases |env|
  {
    hide S.SealRest, S.Next, HonestRec, QueueOk, S.AtBoundary, S.Tile;
    if tx.written < |tx.queue| && env != [] {
      var p := S.SealPacket(tx, keys, mtu, env[0].seals);
      S.PacketTiles(tx, keys, mtu, env[0].seals);
      if p.ok && env[0].taken {
        TileIsHonest(history, tx.queue, S.At(tx), p.pieces);
        SendIsHonest(history, p.tx, keys, mtu, env[1..]);
        S.FlatCons(p.pieces, S.SendRest(p.tx, keys, mtu, env[1..]).packets);
      }
    }
  }

  // ---- a slice keeps the receiver's slots true

  lemma SliceParses(history: seq<Msg>, payload: seq<byte>, n: nat, off: nat, len: nat)
    requires |history| <= U16 && IsSlice(history, payload, n, off, len)
    ensures InRange(HeaderOf(history[n], n, off, len))
    ensures ParseFragment(payload) == Parsed(HeaderOf(history[n], n, off, len), history[n].body[off..off + len], [])
  {
    hide PutHeader, ParseFragment;
    var h, body := HeaderOf(history[n], n, off, len), history[n].body[off..off + len];
    FragmentRoundTrip(h, body, []);
    assert payload == PutHeader(h) + body + [];
  }

  lemma PlacedIsTrue(history: seq<Msg>, s: Slot, n: nat, off: nat, len: nat)
    requires n < |history| && off + len <= |history[n].body| && TrueSlot(history, s) && s.seqNo == n
    ensures TrueSlot(history, R.Placed(s, HeaderOf(history[n], n, off, len), history[n].body[off..off + len]))
  {
  }

  lemma BlankIsTrue(history: seq<Msg>, n: nat, off: nat, len: nat)
    requires n < |history|
    ensures TrueSlot(history, Blank(HeaderOf(history[n], n, off, len)))
  {
  }

  lemma AbsorbSlice(history: seq<Msg>, rx: R.Rx, n: nat, off: nat, len: nat, maxLen: nat)
    requires |rx.slots| == K && R.RingOk(rx) && SlotsOk(history, rx.slots)
    requires n < |history| && off + len <= |history[n].body|
    ensures SlotsOk(history,
      R.Absorb(rx, HeaderOf(history[n], n, off, len), history[n].body[off..off + len], maxLen).rx.slots)
  {
    hide TrueSlot, R.Placed, Complete, R.RingOk, Blank;
    var h := HeaderOf(history[n], n, off, len);
    var r := R.Lookup(rx, h);
    if r.Some? {
      R.LookupMatches(rx, h);
      BlankIsTrue(history, n, off, len);
      assert TrueSlot(history, r.value);
      PlacedIsTrue(history, r.value, n, off, len);
    }
  }

  lemma DeliverSlice(history: seq<Msg>, rx: R.Rx, payload: seq<byte>, n: nat, off: nat, len: nat, maxLen: nat)
    requires |history| <= U16 && R.RingOk(rx) && IsSlice(history, payload, n, off, len)
    ensures R.AbsorbAll(rx, payload, maxLen) ==
      R.Absorb(rx, HeaderOf(history[n], n, off, len), history[n].body[off..off + len], maxLen)
  {
    hide R.Absorb, ParseFragment, PutHeader, R.RingOk;
    SliceParses(history, payload, n, off, len);
    assert payload != [];
  }

  lemma DeliverKeepsSlots(history: seq<Msg>, rx: R.Rx, rec: S.Rec, maxLen: nat)
    requires |history| <= U16 && R.RingOk(rx) && SlotsOk(history, rx.slots) && HonestRec(history, rec)
    ensures var rx' := R.Opening(rx, rec.typ, rec.payload, maxLen).rx;
      R.RingOk(rx') && SlotsOk(history, rx'.slots) && rx'.readSeq == rx.readSeq
  {
    hide R.AbsorbAll, R.Absorb, R.RingOk, SlotsOk, IsSlice;
    R.OpenKeepsRing(rx, rec.typ, rec.payload, maxLen);
    if rec.typ == S.HANDSHAKE_RECORD {
      var n: nat, off: nat, len: nat :| IsSlice(history, rec.payload, n, off, len);
      DeliverSlice(history, rx, rec.payload, n, off, len, maxLen);
      SliceWithin(history, rec.payload, n, off, len);
      RingSize(rx);
      AbsorbSlice(history, rx, n, off, len, maxLen);
    }
  }

  lemma RingSize(rx: R.Rx)
    requires R.RingOk(rx)
    ensures |rx.slots| == K
  {
  }

  lemma SliceWithin(history: seq<Msg>, payload: seq<byte>, n: nat, off: nat, len: nat)
    requires IsSlice(history, payload, n, off, len)
    ensures n < |history| && off + len <= |history[n].body|
  {
  }

  lemma ReadIsTrue(s: Sys)
    requires Inv(s) && R.Current(s.rx).Some?
    ensures var m := R.Current(s.rx).value;
      |s.out| < |s.history| && Msg(m.typ, m.data) == s.history[|s.out|]
  {
    hide QueueOk, HonestRec;
    var m := R.Current(s.rx).value;
    R.ResidueUnique(m.seqNo, s.rx.readSeq, s.rx.readSeq);
    assert TrueSlot(s.history, m);
    assert m.data == s.history[m.seqNo].body;
  }

  // ---- the steps keep the invariant

  lemma QueueGrows(history: seq<Msg>, m: Msg, queue: seq<S.Outgoing>, rec: S.Rec)
    ensures QueueOk(history, queue) ==> QueueOk(history + [m], queue)
    ensures HonestRec(history, rec) ==> HonestRec(history + [m], rec)
  {
    hide PutHeader, S.Message;
    if QueueOk(history, queue) {
      forall k | 0 <= k < |queue| && !queue[k].isCcs ensures exists n :: IsMessage(history + [m], queue[k].data, n) {
        var n: nat :| IsMessage(history, queue[k].data, n);
        assert IsMessage(history + [m], queue[k].data, n);
      }
    }
    if rec.typ == S.HANDSHAKE_RECORD && HonestRec(history, rec) {
      var n: nat, off: nat, len: nat :| IsSlice(history, rec.payload, n, off, len);
      assert IsSlice(history + [m], rec.payload, n, off, len);
    }
  }

  lemma SlotsGrow(history: seq<Msg>, m: Msg, slots: seq<Option<Slot>>)
    requires SlotsOk(history, slots)
    ensures SlotsOk(history + [m], slots)
  {
    forall j | 0 <= j < |slots| && slots[j].Some? ensures TrueSlot(history + [m], slots[j].value) {
      assert TrueSlot(history, slots[j].value);
    }
  }

  lemma QueueKeeps(s: Sys, typ: byte, body: seq<byte>)
    requires Inv(s) && |s.history| + 1 < U16 && |body| < U24
    ensures var r := S.AddOutgoing(s.tx, false, S.Message(typ, s.tx.writeSeq, body));
      Inv(s.(tx := r.tx, history := if r.ok then s.history + [Msg(typ, body)] else s.history))
  {
    hide PutHeader, HonestRec, SlotsOk, IsMessage, R.RingOk;
    var m := Msg(typ, body);
    var data := S.Message(typ, s.tx.writeSeq, body);
    var r := S.AddOutgoing(s.tx, false, data);
    if r.ok {
      var before := if s.tx.complete then [] else s.tx.queue;
      QueueGrows(s.history, m, before, S.Rec(0, 0, [], 0));
      forall rec | rec in s.net ensures HonestRec(s.history + [m], rec) { QueueGrows(s.history, m, [], rec); }
      SlotsGrow(s.history, m, s.rx.slots);
      NewMessage(s.history, m);
      assert r.tx.queue == before + [S.Outgoing(data, s.tx.epoch, false)];
    }
  }

  lemma NewMessage(history: seq<Msg>, m: Msg)
    requires |m.body| < U24
    ensures IsMessage(history + [m], S.Message(m.typ, |history|, m.body), |history|)
  {
  }

  lemma SendingKeeps(s: Sys, tx: S.Tx, send: S.Send)
    requires Inv(s) && S.AtBoundary(tx) && tx.queue == s.tx.queue && tx.writeSeq == s.tx.writeSeq
    ensures Inv(Sending(s, tx, send)) && Sending(s, tx, send).history == s.history
  {
    hide HonestRec, SlotsOk, QueueOk, R.RingOk, S.SendRest, S.Flat, S.Tile;
    var t := tx.(epoch := send.epoch);
    SendIsHonest(s.history, t, send.keys, send.mtu, send.env);
    S.SendTiles(t, send.keys, send.mtu, send.env);
    var r := S.SendRest(t, send.keys, send.mtu, send.env);
    forall rec | rec in Records(r.packets) ensures HonestRec(s.history, rec) {
      var p :| p in S.Flat(r.packets) && p.rec == rec;
    }
  }

  lemma ReadKeeps(s: Sys)
    requires Inv(s) && R.Current(s.rx).Some?
    ensures var m := R.Current(s.rx).value; Inv(s.(out := s.out + [Msg(m.typ, m.data)], rx := R.Advance(s.rx)))
  {
    hide HonestRec, QueueOk, R.RingOk, TrueSlot, R.Current;
    ReadIsTrue(s);
    R.AdvanceKeepsRing(s.rx);
    RingSize(s.rx);
    var m := R.Current(s.rx).value;
    assert s.out + [Msg(m.typ, m.data)] == s.history[..|s.out| + 1];
  }

  /** Every step keeps the invariant, as long as sequence numbers have not run out. */
  lemma DoKeeps(s: Sys, a: Act, maxLen: nat)
    requires Inv(s) && |Do(s, a, maxLen).history| < U16
    ensures Inv(Do(s, a, maxLen)) && s.history <= Do(s, a, maxLen).history
  {
    hide HonestRec, QueueOk, SlotsOk, R.Opening, R.Current, R.Advance, Sending, S.Message;
    match a
    case Queue(typ, body) =>
      if |body| < U24 {
        if |s.history| + 1 < U16 {
          QueueKeeps(s, typ, body);
        } else {
          LastQueue(s, S.Message(typ, s.tx.writeSeq, body));
        }
      }
    case QueueCcs => CcsKeeps(s);
    case Flush(send) => SendingKeeps(s, s.tx.(complete := true), send);
    case Resume(send) => SendingKeeps(s, s.tx, send);
    case Retransmit(send) => SendingKeeps(s, s.tx.(written := 0, offset := 0), send);
    case Deliver(rec) => if rec in s.net { DeliverKeepsSlots(s.history, s.rx, rec, maxLen); }
    case Read => if R.Current(s.rx).Some? { ReadKeeps(s); }
    case TakeCcs =>
    case NewReadEpoch(encrypted) =>
  }

  lemma CcsKeeps(s: Sys)
    requires Inv(s)
    ensures Inv(s.(tx := S.AddOutgoing(s.tx, true, []).tx))
  {
    hide HonestRec, SlotsOk, IsMessage, R.RingOk;
  }

  lemma LastQueue(s: Sys, data: seq<byte>)
    requires Inv(s) && !S.AddOutgoing(s.tx, false, data).ok
    ensures Inv(s.(tx := S.AddOutgoing(s.tx, false, data).tx))
  {
    hide HonestRec, SlotsOk, IsMessage, R.RingOk;
  }

  lemma HistoryGrows(s: Sys, acts: seq<Act>, maxLen: nat)
    requires |s.rx.slots| == K
    ensures |s.history| <= |Exec(s, acts, maxLen).history|
    decreases |acts|
  {
    if acts != [] { HistoryGrows(Do(s, acts[0], maxLen), acts[1..], maxLen); }
  }

  lemma {:induction false} ExecKeeps(s: Sys, acts: seq<Act>, maxLen: nat)
    requires Inv(s) && |Exec(s, acts, maxLen).history| < U16
    ensures Inv(Exec(s, acts, maxLen))
    decreases |acts|
  {
    hide Do, Inv;
    if acts != [] {
      InvSlots(s);
      HistoryGrows(Do(s, acts[0], maxLen), acts[1..], maxLen);
      DoKeeps(s, acts[0], maxLen);
      ExecKeeps(Do(s, acts[0], maxLen), acts[1..], maxLen);
    }
  }

  lemma InvSlots(s: Sys)
    requires Inv(s)
    ensures |s.rx.slots| == K
  {
  }

  /** For any loss, duplication and reordering, any MTUs, refused writes, failed seals, torn packets and
      retransmissions, the messages handed out are a prefix of the messages queued, with equal type and body. */
  lemma EndToEnd(acts: seq<Act>, maxLen: nat)
    requires |Exec(Start(), acts, maxLen).history| < U16
    ensures Exec(Start(), acts, maxLen).out <= Exec(Start(), acts, maxLen).history
  {
    hide Exec;
    ExecKeeps(Start(), acts, maxLen);
  }

  // ---- what honest fragments meet

  /** An honest fragment is refused with an error in three cases only. The last is a fragment exactly K ahead:
      it passes the test for the far future, and then finds no slot. */
  lemma HonestFragmentRefused(history: seq<Msg>, rx: R.Rx, n: nat, off: nat, len: nat, maxLen: nat)
    requires R.RingOk(rx) && SlotsOk(history, rx.slots) && n < |history| && off + len <= |history[n].body|
    ensures !R.Absorb(rx, HeaderOf(history[n], n, off, len), history[n].body[off..off + len], maxLen).ok <==>
      || |history[n].body| > maxLen || (rx.epoch == 1 && n != rx.readSeq) || n == rx.readSeq + K
  {
    hide Complete, R.Placed;
    if n >= rx.readSeq && rx.slots[n % K].Some? {
      assert TrueSlot(history, rx.slots[n % K].value);
      if n < rx.readSeq + K { R.ResidueUnique(n, rx.slots[n % K].value.seqNo, rx.readSeq); }
    }
  }

  /** Past 65535 the 16-bit number of the next message wraps and the first message, sent again, is handed out again. */
  lemma WrapRepeatsFirst(s: Sys, rec: S.Rec, maxLen: nat)
    requires R.RingOk(s.rx) && s.rx.readSeq == U16 - 1 && R.Current(s.rx).Some? && s.rx.epoch != 1 && !s.rx.encrypted
    requires 0 < |s.history| <= U16 && rec in s.net && rec.typ == S.HANDSHAKE_RECORD && |s.history[0].body| <= maxLen
    requires IsSlice(s.history, rec.payload, 0, 0, |s.history[0].body|)
    ensures var once := Do(s, Read, maxLen); var again := Do(Do(once, Deliver(rec), maxLen), Read, maxLen);
      again.out == once.out + [s.history[0]]
  {
    hide R.RingOk, IsSlice, R.AbsorbAll, R.Absorb, R.Current;
    RingSize(s.rx);
    var rx := R.Advance(s.rx);
    R.AdvanceKeepsRing(s.rx);
    SlotZeroFree(s.rx);
    var m := s.history[0];
    DeliverSlice(s.history, rx, rec.payload, 0, 0, |m.body|, maxLen);
    assert m.body[0..|m.body|] == m.body;
    WholeMessageReads(rx, HeaderOf(m, 0, 0, |m.body|), m.body, maxLen);
  }

  lemma SlotZeroFree(rx: R.Rx)
    requires R.RingOk(rx) && rx.readSeq == U16 - 1
    ensures R.Advance(rx).slots[0] == None && R.Advance(rx).readSeq == 0
  {
  }

  /** A message that comes in one piece is ready at once. */
  lemma WholeMessageReads(rx: R.Rx, h: Header, body: seq<byte>, maxLen: nat)
    requires |rx.slots| == K && rx.slots[0] == None && rx.readSeq == 0 && rx.epoch != 1
    requires h == Header(h.typ, |body|, 0, 0, |body|) && |body| <= maxLen
    ensures R.Current(R.Absorb(rx, h, body, maxLen).rx) == Some(Slot(h.typ, 0, body, Span(0, |body|)))
  {
    hide Span, Complete, R.Placed, Blank;
    var whole := Slot(h.typ, 0, body, Span(0, |body|));
    PlacedWhole(h, body);
    assert R.Lookup(rx, h) == Some(Blank(h));
  }

  lemma PlacedWhole(h: Header, body: seq<byte>)
    requires h == Header(h.typ, |body|, 0, 0, |body|)
    ensures var whole := Slot(h.typ, 0, body, Span(0, |body|));
      Complete(whole) && if Complete(Blank(h)) then Blank(h) == whole else R.Placed(Blank(h), h, body) == whole
  {
    hide Span;
    assert forall i :: 0 <= i < |body| ==> i in Span(0, |body|);
    if |body| == 0 {
      assert Span(0, 0) == {};
    } else {
      assert 0 !in Blank(h).have;
      assert Overwrite(Blank(h).data, 0, body) == body;
      assert {} + Span(0, |body|) == Span(0, |body|);
    }
  }

  // ---- whatever order fragments come in, they are enough

  /** Message n was handed out, or these of its bytes are there. */
  ghost predicate Got(rx: R.Rx, n: nat, part: set<nat>)
    requires |rx.slots| == K
  {
    n < rx.readSeq || match rx.slots[n % K] case None => false case Some(s) => s.seqNo == n && part <= s.have
  }

  lemma GotStaysAbsorb(rx: R.Rx, h: Header, body: seq<byte>, maxLen: nat, n: nat, part: set<nat>)
    requires |rx.slots| == K && |body| == h.len && Got(rx, n, part)
    ensures Got(R.Absorb(rx, h, body, maxLen).rx, n, part)
  {
    hide Complete, Span, Overwrite;
  }

  lemma {:induction false} GotStaysAbsorbAll(rx: R.Rx, payload: seq<byte>, maxLen: nat, n: nat, part: set<nat>)
    requires |rx.slots| == K && Got(rx, n, part)
    ensures Got(R.AbsorbAll(rx, payload, maxLen).rx, n, part)
    decreases |payload|
  {
    hide R.Absorb, ParseFragment, Got;
    if payload != [] && ParseFragment(payload).Parsed? {
      var Parsed(h, body, rest) := ParseFragment(payload);
      GotStaysAbsorb(rx, h, body, maxLen, n, part);
      if R.Absorb(rx, h, body, maxLen).ok {
        GotStaysAbsorbAll(R.Absorb(rx, h, body, maxLen).rx, rest, maxLen, n, part);
      }
    }
  }

  lemma GotStays(s: Sys, a: Act, maxLen: nat, n: nat, part: set<nat>)
    requires Inv(s) && Got(s.rx, n, part) && |Do(s, a, maxLen).history| < U16
    ensures Got(Do(s, a, maxLen).rx, n, part) && s.rx.readSeq <= Do(s, a, maxLen).rx.readSeq
  {
    hide HonestRec, QueueOk, SlotsOk, R.AbsorbAll, S.SendRest, S.AddOutgoing, S.Message, R.Current;
    if a.Deliver? { GotStaysAbsorbAll(s.rx, a.rec.payload, maxLen, n, part); }
    if a.Read? && R.Current(s.rx).Some? {
      ReadIsTrue(s);
      if n >= s.rx.readSeq { SlotStays(s.rx, n, part); }
    }
  }

  lemma SlotStays(rx: R.Rx, n: nat, part: set<nat>)
    requires R.RingOk(rx) && Got(rx, n, part) && rx.readSeq <= n && rx.readSeq + 1 < U16
    ensures Got(R.Advance(rx), n, part)
  {
    if n > rx.readSeq && n % K == rx.readSeq % K { R.ResidueUnique(n, rx.readSeq, rx.readSeq); }
  }

  /** A fragment of message n is taken now: it is not as far ahead as the ring is long, and in the encrypted epoch,
      which has a single message in flight, it is the current one. */
  predicate Admits(rx: R.Rx, n: nat) {
    n < rx.readSeq + K && (rx.epoch == 1 ==> n <= rx.readSeq)
  }

  lemma AbsorbGets(history: seq<Msg>, rx: R.Rx, n: nat, off: nat, len: nat, maxLen: nat)
    requires R.RingOk(rx) && SlotsOk(history, rx.slots) && n < |history| && off + len <= |history[n].body| <= maxLen
    requires Admits(rx, n)
    ensures Got(R.Absorb(rx, HeaderOf(history[n], n, off, len), history[n].body[off..off + len], maxLen).rx, n,
      Span(off, len))
  {
    hide Span, Overwrite;
    var h := HeaderOf(history[n], n, off, len);
    if n >= rx.readSeq {
      HonestFragmentRefused(history, rx, n, off, len, maxLen);
      R.LookupMatches(rx, h);
      var s := R.Lookup(rx, h).value;
      if Complete(s) {
        assert forall i :: i in Span(off, len) ==> i in s.have;
      }
    }
  }

  ghost predicate OneEpoch(acts: seq<Act>) {
    forall a :: a in acts ==> !a.NewReadEpoch?
  }

  lemma DoMoves(s: Sys, a: Act, maxLen: nat)
    requires Inv(s) && |Do(s, a, maxLen).history| < U16 && !a.NewReadEpoch?
    ensures var s' := Do(s, a, maxLen);
      Inv(s') && s.history <= s'.history && s.net <= s'.net && s.rx.readSeq <= s'.rx.readSeq
        && s'.rx.epoch == s.rx.epoch
  {
    hide HonestRec, QueueOk, SlotsOk, R.AbsorbAll, S.SendRest, S.AddOutgoing, S.Message, R.Current;
    DoKeeps(s, a, maxLen);
    if a.Read? && R.Current(s.rx).Some? { ReadIsTrue(s); }
  }

  lemma {:induction false} GotStaysRun(s: Sys, acts: seq<Act>, maxLen: nat, n: nat, part: set<nat>)
    requires |s.rx.slots| == K && |Exec(s, acts, maxLen).history| < U16 && Inv(s) && Got(s.rx, n, part)
    ensures Got(Exec(s, acts, maxLen).rx, n, part)
    decreases |acts|
  {
    hide Do, Inv, Got;
    if acts != [] {
      InvSlots(s);
      HistoryGrows(Do(s, acts[0], maxLen), acts[1..], maxLen);
      DoKeeps(s, acts[0], maxLen);
      GotStays(s, acts[0], maxLen, n, part);
      GotStaysRun(Do(s, acts[0], maxLen), acts[1..], maxLen, n, part);
    }
  }

  lemma SliceGrows(history: seq<Msg>, more: seq<Msg>, payload: seq<byte>, n: nat, off: nat, len: nat)
    requires history <= more && IsSlice(history, payload, n, off, len)
    ensures IsSlice(more, payload, n, off, len)
  {
    hide PutHeader;
  }

  /** The run delivers a record that is on the network by then, while the receiver takes fragments of message n. */
  ghost predicate Arrives(s: Sys, acts: seq<Act>, rec: S.Rec, n: nat, maxLen: nat)
    requires |s.rx.slots| == K
    decreases |acts|
  {
    acts != [] &&
    ((acts[0] == Deliver(rec) && rec in s.net && Admits(s.rx, n)) ||
     Arrives(Do(s, acts[0], maxLen), acts[1..], rec, n, maxLen))
  }

  /** A record with bytes off to off + len of message n. */
  ghost predicate Holds(history: seq<Msg>, rec: S.Rec, n: nat, off: nat, len: nat) {
    rec.typ == S.HANDSHAKE_RECORD && IsSlice(history, rec.payload, n, off, len)
  }

  lemma DeliverGets(s: Sys, rec: S.Rec, n: nat, off: nat, len: nat, maxLen: nat)
    requires Inv(s) && rec in s.net && Holds(s.history, rec, n, off, len)
    requires |s.history[n].body| <= maxLen && Admits(s.rx, n)
    ensures |s.rx.slots| == K && Got(Do(s, Deliver(rec), maxLen).rx, n, Span(off, len))
  {
    hide QueueOk, HonestRec, SlotsOk, R.Absorb, R.AbsorbAll, Got, Span, PutHeader;
    DeliverSlice(s.history, s.rx, rec.payload, n, off, len, maxLen);
    AbsorbGets(s.history, s.rx, n, off, len, maxLen);
  }

  /** What a record brings that arrives is there at the end of the run, whatever else happens before and after. */
  lemma {:induction false} RunGets(s: Sys, acts: seq<Act>, rec: S.Rec, n: nat, off: nat, len: nat, maxLen: nat)
    requires |s.rx.slots| == K && n < |s.history| && |Exec(s, acts, maxLen).history| < U16
    requires Inv(s) && Holds(s.history, rec, n, off, len) && |s.history[n].body| <= maxLen
    requires Arrives(s, acts, rec, n, maxLen)
    ensures Got(Exec(s, acts, maxLen).rx, n, Span(off, len))
    decreases |acts|
  {
    hide Do, Inv, Got, Span, IsSlice, Admits;
    InvSlots(s);
    var s' := Do(s, acts[0], maxLen);
    HistoryGrows(s', acts[1..], maxLen);
    DoKeeps(s, acts[0], maxLen);
    if acts[0] == Deliver(rec) && rec in s.net && Admits(s.rx, n) {
      DeliverGets(s, rec, n, off, len, maxLen);
      GotStaysRun(s', acts[1..], maxLen, n, Span(off, len));
    } else {
      SliceGrows(s.history, s'.history, rec.payload, n, off, len);
      RunGets(s', acts[1..], rec, n, off, len, maxLen);
    }
  }

  /** Without a change of epoch it is enough that the receiver takes fragments of the message at the start. */
  lemma {:induction false} ArrivesInOneEpoch(s: Sys, acts: seq<Act>, rec: S.Rec, n: nat, maxLen: nat)
    requires |s.rx.slots| == K && |Exec(s, acts, maxLen).history| < U16 && Inv(s) && OneEpoch(acts)
    requires rec in s.net && Deliver(rec) in acts && Admits(s.rx, n)
    ensures Arrives(s, acts, rec, n, maxLen)
    decreases |acts|
  {
    hide Do, Inv;
    if acts[0] != Deliver(rec) {
      InvSlots(s);
      HistoryGrows(Do(s, acts[0], maxLen), acts[1..], maxLen);
      DoMoves(s, acts[0], maxLen);
      ArrivesInOneEpoch(Do(s, acts[0], maxLen), acts[1..], rec, n, maxLen);
    }
  }

  /** The range of a record and its two ends has byte i. */
  predicate Within(c: (S.Rec, nat, nat), i: nat) {
    c.1 <= i < c.1 + c.2
  }

  ghost predicate Covered(cover: seq<(S.Rec, nat, nat)>, i: nat) {
    exists c :: c in cover && Within(c, i)
  }

  /** Once records that arrive cover every byte of a message, it can be read or was read. */
  lemma CoveredMessageArrives(s: Sys, acts: seq<Act>, n: nat, maxLen: nat, cover: seq<(S.Rec, nat, nat)>)
    requires |s.rx.slots| == K && |Exec(s, acts, maxLen).history| < U16 && Inv(s)
    requires n < |s.history| && |s.history[n].body| <= maxLen && cover != []
    requires forall c :: c in cover ==> Holds(s.history, c.0, n, c.1, c.2) && Arrives(s, acts, c.0, n, maxLen)
    requires forall i: nat :: i < |s.history[n].body| ==> Covered(cover, i)
    ensures var rx := Exec(s, acts, maxLen).rx;
      n < rx.readSeq || (rx.slots[n % K].Some? && rx.slots[n % K].value.seqNo == n
        && Complete(rx.slots[n % K].value))
  {
    hide Do, Inv, Got, Holds, Arrives, Exec;
    var rx := Exec(s, acts, maxLen).rx;
    forall c | c in cover ensures Got(rx, n, Span(c.1, c.2)) {
      RunGets(s, acts, c.0, n, c.1, c.2, maxLen);
    }
    ExecKeeps(s, acts, maxLen);
    GrowsRun(s, acts, maxLen);
    GotAll(Exec(s, acts, maxLen), n, cover);
  }

  lemma {:induction false} GrowsRun(s: Sys, acts: seq<Act>, maxLen: nat)
    requires Inv(s) && |Exec(s, acts, maxLen).history| < U16
    ensures s.history <= Exec(s, acts, maxLen).history
    decreases |acts|
  {
    hide Do, Inv;
    if acts != [] {
      InvSlots(s);
      HistoryGrows(Do(s, acts[0], maxLen), acts[1..], maxLen);
      DoKeeps(s, acts[0], maxLen);
      GrowsRun(Do(s, acts[0], maxLen), acts[1..], maxLen);
    }
  }

  lemma GotAll(s: Sys, n: nat, cover: seq<(S.Rec, nat, nat)>)
    requires Inv(s) && n < |s.history| && |s.rx.slots| == K && cover != []
    requires forall c :: c in cover ==> Got(s.rx, n, Span(c.1, c.2))
    requires forall i: nat :: i < |s.history[n].body| ==> Covered(cover, i)
    ensures n < s.rx.readSeq
        || (s.rx.slots[n % K].Some? && s.rx.slots[n % K].value.seqNo == n && Complete(s.rx.slots[n % K].value))
  {
    hide QueueOk, HonestRec, R.RingOk;
    if n >= s.rx.readSeq {
      assert Got(s.rx, n, Span(cover[0].1, cover[0].2));
      var slot := s.rx.slots[n % K].value;
      assert TrueSlot(s.history, slot);
      forall i: nat | i < |slot.data| ensures i in slot.have {
        assert Covered(cover, i);
        var c :| c in cover && Within(c, i);
        assert Got(s.rx, n, Span(c.1, c.2)) && i in Span(c.1, c.2);
      }
    }
  }

  // ---- a sent flight arrives

  /** The records of message m in a log that tiles, each with the range of the body it carries. */
  ghost function CoverOf(queue: seq<S.Outgoing>, pos: S.Pos, log: seq<S.Piece>, m: nat): seq<(S.Rec, nat, nat)>
    requires S.Tile(queue, pos, log).Some?
    decreases |log|
  {
    if log == [] then []
    else
      var p := log[0];
      (if p.index == m && |p.rec.payload| >= HEADER then [(p.rec, pos.offset, |p.rec.payload| - HEADER)] else [])
      + CoverOf(queue, S.Next(queue, pos, p).value, log[1..], m)
  }

  lemma {:induction false} CoverSlices(history: seq<Msg>, queue: seq<S.Outgoing>, pos: S.Pos, log: seq<S.Piece>,
      m: nat, n: nat)
    requires |history| <= U16 && m < |queue| && !queue[m].isCcs && IsMessage(history, queue[m].data, n)
    requires S.Tile(queue, pos, log).Some?
    ensures forall c :: c in CoverOf(queue, pos, log, m) ==>
      c.0.typ == S.HANDSHAKE_RECORD && IsSlice(history, c.0.payload, n, c.1, c.2)
    ensures forall c :: c in CoverOf(queue, pos, log, m) ==> exists p :: p in log && p.rec == c.0
    decreases |log|
  {
    hide S.Next, IsSlice, IsMessage;
    if log != [] {
      if log[0].index == m { NextSlice(history, queue, pos, log[0], m, n); }
      CoverSlices(history, queue, S.Next(queue, pos, log[0]).value, log[1..], m, n);
    }
  }

  lemma NextSlice(history: seq<Msg>, queue: seq<S.Outgoing>, pos: S.Pos, p: S.Piece, m: nat, n: nat)
    requires |history| <= U16 && m < |queue| && !queue[m].isCcs && IsMessage(history, queue[m].data, n)
    requires S.Next(queue, pos, p).Some? && p.index == m
    ensures |p.rec.payload| >= HEADER && p.rec.typ == S.HANDSHAKE_RECORD
    ensures IsSlice(history, p.rec.payload, n, pos.offset, |p.rec.payload| - HEADER)
  {
    hide PutHeader, ParseFragment, S.Whole, S.Message;
    MessageWhole(history[n].typ, n, history[n].body);
  }

  lemma {:induction false} CoverHits(queue: seq<S.Outgoing>, pos: S.Pos, log: seq<S.Piece>, m: nat, len: nat, i: nat)
    requires S.Tile(queue, pos, log).Some? && m < |queue| && !queue[m].isCcs
    requires S.Whole(queue[m].data).Some? && |S.Whole(queue[m].data).value.1| == len
    requires S.Reach(pos, m, len) <= i < S.Reach(S.Tile(queue, pos, log).value, m, len)
    ensures Covered(CoverOf(queue, pos, log, m), i)
    decreases |log|
  {
    hide S.Whole, S.Fragment;
    var q := S.Next(queue, pos, log[0]).value;
    var rest := CoverOf(queue, q, log[1..], m);
    if i >= S.Reach(q, m, len) {
      CoverHits(queue, q, log[1..], m, len, i);
      var c :| c in rest && Within(c, i);
      assert c in CoverOf(queue, pos, log, m);
    } else {
      var c := (log[0].rec, pos.offset, |log[0].rec.payload| - HEADER);
      assert c in CoverOf(queue, pos, log, m) && Within(c, i);
    }
  }

  lemma {:induction false} CoverSome(queue: seq<S.Outgoing>, pos: S.Pos, log: seq<S.Piece>, m: nat)
    requires S.Tile(queue, pos, log).Some? && m < |queue| && !queue[m].isCcs
    requires pos.message <= m < S.Tile(queue, pos, log).value.message
    ensures CoverOf(queue, pos, log, m) != []
    decreases |log|
  {
    hide S.Whole, S.Fragment;
    if log[0].index != m {
      CoverSome(queue, S.Next(queue, pos, log[0]).value, log[1..], m);
    }
  }

  /** A flight sent without a torn packet, the records of which get through at least once, in any order and with
      anything in between, changes of epoch included, is wholly readable: each message whose records all arrive can be
      read or was read, also the Finished, which comes in the encrypted epoch. */
  lemma FlightArrives(s: Sys, tx: S.Tx, sends: seq<S.Send>, acts: seq<Act>, m: nat, n: nat, maxLen: nat)
    requires |s.rx.slots| == K && |Exec(s, acts, maxLen).history| < U16 && Inv(s)
    requires tx.written == tx.offset == 0 && m < |tx.queue| && !tx.queue[m].isCcs
    requires !S.EverTorn(tx, sends) && S.Run(tx, sends).tx.written == |tx.queue|
    requires IsMessage(s.history, tx.queue[m].data, n) && |s.history[n].body| <= maxLen
    requires forall rec, off, len :: rec in Records(S.Run(tx, sends).packets) && Holds(s.history, rec, n, off, len) ==>
      Arrives(s, acts, rec, n, maxLen)
    ensures var rx := Exec(s, acts, maxLen).rx;
      n < rx.readSeq || (rx.slots[n % K].Some? && rx.slots[n % K].value.seqNo == n
        && Complete(rx.slots[n % K].value))
  {
    hide S.Run, S.EverTorn, Exec, S.Tile, Do, Complete, S.Whole, S.Message, PutHeader, IsSlice, HonestRec, SlotsOk,
      QueueOk;
    var log := S.Flat(S.Run(tx, sends).packets);
    S.FlightTiles(tx, sends);
    var cover := CoverOf(tx.queue, S.At(tx), log, m);
    CoverSlices(s.history, tx.queue, S.At(tx), log, m, n);
    CoverSome(tx.queue, S.At(tx), log, m);
    MessageWhole(s.history[n].typ, n, s.history[n].body);
    forall i: nat | i < |s.history[n].body| ensures Covered(cover, i) {
      CoverHits(tx.queue, S.At(tx), log, m, |s.history[n].body|, i);
    }
    forall c | c in cover ensures Holds(s.history, c.0, n, c.1, c.2) && Arrives(s, acts, c.0, n, maxLen) {
      var p :| p in log && p.rec == c.0;
      assert c.0 in Records(S.Run(tx, sends).packets) && Holds(s.history, c.0, n, c.1, c.2);
    }
    CoveredMessageArrives(s, acts, n, maxLen, cover);
  }

  /** The same from what holds at the start: no change of epoch, and the message inside the window, or the current one
      in the encrypted epoch. */
  lemma FlightArrivesInOneEpoch(s: Sys, tx: S.Tx, sends: seq<S.Send>, acts: seq<Act>, m: nat, n: nat, maxLen: nat)
    requires |s.rx.slots| == K && |Exec(s, acts, maxLen).history| < U16 && Inv(s) && OneEpoch(acts)
    requires tx.written == tx.offset == 0 && m < |tx.queue| && !tx.queue[m].isCcs
    requires !S.EverTorn(tx, sends) && S.Run(tx, sends).tx.written == |tx.queue|
    requires forall rec :: rec in Records(S.Run(tx, sends).packets) ==> rec in s.net && Deliver(rec) in acts
    requires IsMessage(s.history, tx.queue[m].data, n) && |s.history[n].body| <= maxLen
    requires n < s.rx.readSeq + K && (s.rx.epoch == 1 ==> n == s.rx.readSeq)
    ensures var rx := Exec(s, acts, maxLen).rx;
      n < rx.readSeq || (rx.slots[n % K].Some? && rx.slots[n % K].value.seqNo == n
        && Complete(rx.slots[n % K].value))
  {
    hide S.Run, S.EverTorn, Exec, Do, Complete, IsMessage, Inv, Arrives, Holds;
    forall rec, off, len | rec in Records(S.Run(tx, sends).packets) && Holds(s.history, rec, n, off, len)
      ensures Arrives(s, acts, rec, n, maxLen)
    {
      ArrivesInOneEpoch(s, acts, rec, n, maxLen);
    }
    FlightArrives(s, tx, sends, acts, m, n, maxLen);
  }
}
