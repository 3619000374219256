/** The ChangeCipherSpec of a DTLS handshake: kept until it is asked for, asked for once, and never made up. */
module DtlsCcs {
  import opened Bytes
  import opened DtlsReceiver
  import opened DtlsWire
  import N = DtlsNetwork
  import S = DtlsSender

  // ---- one receiver

  datatype Call =
    | Handshake(typ: byte, payload: seq<byte>)
    | Ccs(typ: byte, payload: seq<byte>)
    | NextMessage
    | ReadState(nullCipher: bool, reading: bool)

  datatype Done = Done(ok: bool, rx: Rx)

  ghost function Perform(rx: Rx, c: Call, maxLen: nat): (r: Done)
    requires |rx.slots| == K
    ensures |r.rx.slots| == K
  {
    match c
    case Handshake(typ, payload) => var r := Opening(rx, typ, payload, maxLen); Done(r.result == Success, r.rx)
    case Ccs(typ, payload) => var r := OpeningCcs(rx, typ, payload, maxLen); Done(r.result == Success, r.rx)
    case NextMessage => Done(true, Advance(rx))
    case ReadState(nullCipher, reading) =>
      if Unprocessed(rx, reading) then Done(false, rx)
      else Done(true, rx.(epoch := (rx.epoch + 1) % U16, encrypted := !nullCipher))
  }

  ghost function Run(rx: Rx, calls: seq<Call>, maxLen: nat): (r: Rx)
    requires |rx.slots| == K
    ensures |r.slots| == K
    decreases |calls|
  {
    if calls == [] then rx else Run(Perform(rx, calls[0], maxLen).rx, calls[1..], maxLen)
  }

  /** A ChangeCipherSpec that may be taken: not encrypted, and its one byte is 1. */
  predicate IsCcs(rx: Rx, typ: byte, payload: seq<byte>) {
    typ == 20 && payload == [1] && !rx.encrypted
  }

  /** Whether a ChangeCipherSpec came since one was last given out, as the calls tell. */
  ghost predicate Owed(rx: Rx, calls: seq<Call>, owed: bool, maxLen: nat)
    requires |rx.slots| == K
    decreases |calls|
  {
    if calls == [] then owed
    else
      var r := Perform(rx, calls[0], maxLen);
      var now :=
        match calls[0]
        case Handshake(typ, payload) => owed || IsCcs(rx, typ, payload)
        case Ccs(_, _) => owed && !r.ok
        case _ => owed;
      Owed(r.rx, calls[1..], now, maxLen)
  }

  /** A record is taken for a ChangeCipherSpec exactly if it is one. */
  lemma OpeningMarks(rx: Rx, typ: byte, payload: seq<byte>, maxLen: nat)
    requires |rx.slots| == K
    ensures Opening(rx, typ, payload, maxLen).rx.ccs == (rx.ccs || IsCcs(rx, typ, payload))
    ensures IsCcs(rx, typ, payload) ==> Opening(rx, typ, payload, maxLen) == OpenStep(Success, rx.(ccs := true))
  {
    hide AbsorbAll;
  }

  /** It is given out exactly if one came before, or this record is one, and then it is gone. */
  lemma CcsSucceedsIff(rx: Rx, typ: byte, payload: seq<byte>, maxLen: nat)
    requires |rx.slots| == K
    ensures var r := OpeningCcs(rx, typ, payload, maxLen);
      && (r.result == Success <==> rx.ccs || IsCcs(rx, typ, payload)) && !r.rx.ccs
      && (r.result == Success ==> r.rx == rx.(ccs := false))
  {
    hide Opening;
    OpeningMarks(rx, typ, payload, maxLen);
  }

  lemma PerformMarks(rx: Rx, c: Call, maxLen: nat)
    requires |rx.slots| == K
    ensures var r := Perform(rx, c, maxLen);
      match c
      case Handshake(typ, payload) => r.rx.ccs == (rx.ccs || IsCcs(rx, typ, payload))
      case Ccs(typ, payload) => !r.rx.ccs && r.ok == (rx.ccs || IsCcs(rx, typ, payload))
      case ReadState(_, _) => r.rx.ccs == rx.ccs && (rx.ccs ==> !r.ok)
      case NextMessage => r.rx.ccs == rx.ccs
  {
    hide Opening, OpeningCcs;
    match c
    case Handshake(typ, payload) => OpeningMarks(rx, typ, payload, maxLen);
    case Ccs(typ, payload) => CcsSucceedsIff(rx, typ, payload, maxLen);
    case _ =>
  }

  /** Over any calls, what is pending is what came and was not given out. */
  lemma {:induction false} PendingIsOwed(rx: Rx, calls: seq<Call>, maxLen: nat)
    requires |rx.slots| == K
    ensures Run(rx, calls, maxLen).ccs == Owed(rx, calls, rx.ccs, maxLen)
    decreases |calls|
  {
    hide Perform;
    if calls != [] {
      PerformMarks(rx, calls[0], maxLen);
      PendingIsOwed(Perform(rx, calls[0], maxLen).rx, calls[1..], maxLen);
    }
  }

  function One(b: bool): nat {
    if b then 1 else 0
  }

  /** How often a ChangeCipherSpec was given out. */
  ghost function Given(rx: Rx, calls: seq<Call>, maxLen: nat): nat
    requires |rx.slots| == K
    decreases |calls|
  {
    if calls == [] then 0
    else
      var r := Perform(rx, calls[0], maxLen);
      One(calls[0].Ccs? && r.ok) + Given(r.rx, calls[1..], maxLen)
  }

  /** How many came: a call that has one pending does not look at its record. */
  ghost function Came(rx: Rx, calls: seq<Call>, maxLen: nat): nat
    requires |rx.slots| == K
    decreases |calls|
  {
    if calls == [] then 0
    else
      var one :=
        match calls[0]
        case Handshake(typ, payload) => IsCcs(rx, typ, payload)
        case Ccs(typ, payload) => !rx.ccs && IsCcs(rx, typ, payload)
        case _ => false;
      One(one) + Came(Perform(rx, calls[0], maxLen).rx, calls[1..], maxLen)
  }

  /** None is given out twice, and of those that come while one is pending only one is. */
  lemma {:induction false} NoneGivenTwice(rx: Rx, calls: seq<Call>, maxLen: nat)
    requires |rx.slots| == K
    ensures Given(rx, calls, maxLen) + One(Run(rx, calls, maxLen).ccs) <= Came(rx, calls, maxLen) + One(rx.ccs)
    decreases |calls|
  {
    hide Perform;
    if calls != [] {
      PerformMarks(rx, calls[0], maxLen);
      NoneGivenTwice(Perform(rx, calls[0], maxLen).rx, calls[1..], maxLen);
    }
  }

  /** One that came and was not asked for yet keeps the read state from changing; asking for it then succeeds, whatever
      record comes along. */
  lemma PendingBlocksReadState(rx: Rx, calls: seq<Call>, c: Call, maxLen: nat)
    requires |rx.slots| == K && Owed(rx, calls, rx.ccs, maxLen)
    ensures var s := Run(rx, calls, maxLen);
      && (c.ReadState? ==> Perform(s, c, maxLen) == Done(false, s))
      && (c.Ccs? ==> Perform(s, c, maxLen) == Done(true, s.(ccs := false)))
  {
    hide Run, Owed, Opening;
    PendingIsOwed(rx, calls, maxLen);
    if c.Ccs? { CcsSucceedsIff(Run(rx, calls, maxLen), c.typ, c.payload, maxLen); }
  }

  /** The read state changes exactly if nothing is pending and nothing would be left of the ring once the message being
      read is dropped: no fragment from before is carried into the new epoch. */
  lemma ReadStateIff(rx: Rx, nullCipher: bool, reading: bool, maxLen: nat)
    requires |rx.slots| == K
    ensures var left := if reading then Advance(rx).slots else rx.slots;
      Perform(rx, ReadState(nullCipher, reading), maxLen).ok <==> !rx.ccs && forall j :: 0 <= j < K ==> left[j] == None
  {
    var i := rx.readSeq % K;
    var left := if reading then Advance(rx).slots else rx.slots;
    assert left == if reading then rx.slots[i := None] else rx.slots;
  }

  // ---- over the network

  /** No ChangeCipherSpec was queued, sent or taken. */
  ghost predicate NoCcs(s: N.Sys) {
    && (forall k :: 0 <= k < |s.tx.queue| ==> !s.tx.queue[k].isCcs)
    && (forall rec :: rec in s.net ==> rec.typ != S.CCS_RECORD)
    && S.AtBoundary(s.tx) && |s.rx.slots| == K && !s.rx.ccs && s.ccsTaken == 0
  }

  lemma {:induction false} TileHasNoCcs(queue: seq<S.Outgoing>, pos: S.Pos, log: seq<S.Piece>)
    requires S.Tile(queue, pos, log).Some? && forall k :: 0 <= k < |queue| ==> !queue[k].isCcs
    ensures forall p :: p in log ==> p.rec.typ != S.CCS_RECORD
    decreases |log|
  {
    hide ParseFragment;
    if log != [] {
      TileHasNoCcs(queue, S.Next(queue, pos, log[0]).value, log[1..]);
      assert forall p :: p in log ==> p == log[0] || p in log[1..];
    }
  }

  lemma {:induction false} SendHasNoCcs(tx: S.Tx, keys: S.Keys, mtu: nat, env: seq<S.Attempt>)
    requires S.AtBoundary(tx) && forall k :: 0 <= k < |tx.queue| ==> !tx.queue[k].isCcs
    ensures forall p :: p in S.Flat(S.SendRest(tx, keys, mtu, env).packets) ==> p.rec.typ != S.CCS_RECORD
    decreases |env|
  {
    hide S.SealRest, S.Next, S.AtBoundary, S.Tile;
    if tx.written < |tx.queue| && env != [] {
      var p := S.SealPacket(tx, keys, mtu, env[0].seals);
      S.PacketTiles(tx, keys, mtu, env[0].seals);
      if p.ok && env[0].taken {
        TileHasNoCcs(tx.queue, S.At(tx), p.pieces);
        SendHasNoCcs(p.tx, keys, mtu, env[1..]);
        S.FlatCons(p.pieces, S.SendRest(p.tx, keys, mtu, env[1..]).packets);
      }
    }
  }

  lemma SendingKeepsNoCcs(s: N.Sys, tx: S.Tx, send: S.Send)
    requires NoCcs(s) && S.AtBoundary(tx) && tx.queue == s.tx.queue
    ensures NoCcs(N.Sending(s, tx, send))
  {
    hide S.SendRest, S.Flat, S.Tile;
    var t := tx.(epoch := send.epoch);
    SendHasNoCcs(t, send.keys, send.mtu, send.env);
    S.SendTiles(t, send.keys, send.mtu, send.env);
    var r := S.SendRest(t, send.keys, send.mtu, send.env);
    forall rec | rec in N.Records(r.packets) ensures rec.typ != S.CCS_RECORD {
      var p :| p in S.Flat(r.packets) && p.rec == rec;
    }
  }

  lemma DoKeepsNoCcs(s: N.Sys, a: N.Act, maxLen: nat)
    requires NoCcs(s) && !a.QueueCcs?
    ensures NoCcs(N.Do(s, a, maxLen))
  {
    hide Opening, N.Sending, S.Message;
    match a
    case Flush(send) => SendingKeepsNoCcs(s, s.tx.(complete := true), send);
    case Resume(send) => SendingKeepsNoCcs(s, s.tx, send);
    case Retransmit(send) => SendingKeepsNoCcs(s, s.tx.(written := 0, offset := 0), send);
    case Deliver(rec) => OpeningMarks(s.rx, rec.typ, rec.payload, maxLen);
    case _ =>
  }

  /** Over the network none is made up: where none was queued, none is ever taken. */
  lemma {:induction false} NoneMadeUp(s: N.Sys, acts: seq<N.Act>, maxLen: nat)
    requires NoCcs(s) && forall a :: a in acts ==> !a.QueueCcs?
    ensures NoCcs(N.Exec(s, acts, maxLen)) && N.Exec(s, acts, maxLen).ccsTaken == 0
    decreases |acts|
  {
    hide N.Do, NoCcs;
    StillNone(s);
    if acts != [] {
      assert acts[0] in acts && forall a :: a in acts[1..] ==> a in acts;
      DoKeepsNoCcs(s, acts[0], maxLen);
      NoneMadeUp(N.Do(s, acts[0], maxLen), acts[1..], maxLen);
    }
  }

  lemma StillNone(s: N.Sys)
    requires NoCcs(s)
    ensures |s.rx.slots| == K && s.ccsTaken == 0
  {
  }

  /** And one that gets through before the cipher changes waits until it is taken. */
  lemma {:induction false} CcsWaits(s: N.Sys, acts: seq<N.Act>, maxLen: nat)
    requires |s.rx.slots| == K && s.rx.ccs && forall a :: a in acts ==> !a.TakeCcs?
    ensures var r := N.Exec(s, acts, maxLen); r.rx.ccs && N.Do(r, N.TakeCcs, maxLen).ccsTaken == r.ccsTaken + 1
    decreases |acts|
  {
    hide Opening, S.SendRest, N.Records, S.Message, S.AddOutgoing, Current;
    if acts != [] {
      assert acts[0] in acts && forall a :: a in acts[1..] ==> a in acts;
      if acts[0].Deliver? { OpeningMarks(s.rx, acts[0].rec.typ, acts[0].rec.payload, maxLen); }
      CcsWaits(N.Do(s, acts[0], maxLen), acts[1..], maxLen);
    }
  }

  lemma CcsArrives(s: N.Sys, rec: S.Rec, acts: seq<N.Act>, maxLen: nat)
    requires |s.rx.slots| == K && rec in s.net && IsCcs(s.rx, rec.typ, rec.payload)
    requires forall a :: a in acts ==> !a.TakeCcs?
    ensures var r := N.Exec(N.Do(s, N.Deliver(rec), maxLen), acts, maxLen);
      N.Do(r, N.TakeCcs, maxLen).ccsTaken == r.ccsTaken + 1
  {
    hide Opening, N.Exec;
    OpeningMarks(s.rx, rec.typ, rec.payload, maxLen);
    CcsWaits(N.Do(s, N.Deliver(rec), maxLen), acts, maxLen);
  }
}
