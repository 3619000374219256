/** What the 16-bit message number costs: a run of 65536 messages that hands out one message too many. */
module DtlsWrap {
  import opened Bytes
  import opened DtlsWire
  import opened Reassembly
  import opened DtlsNetwork

  /** Message n of the run is empty, of type HelloRequest. */
  function Head(n: nat): Header {
    Header(0, 0, n, 0, 0)
  }

  function RecordOf(n: nat): S.Rec {
    S.Rec(0, S.HANDSHAKE_RECORD, PutHeader(Head(n)), S.RECORD_HEADER + HEADER)
  }

  /** A flight of one message in one packet. */
  function OnePacket(): S.Send {
    S.Send(0, S.Keys(S.Cipher(0, 0), S.Cipher(0, 0)), 256, [S.Attempt([S.Seal(true, 0)], true)])
  }

  function Copies(n: nat): seq<Msg> {
    seq(n, i => Msg(0, []))
  }

  /** n messages were queued, sent, delivered and read. */
  ghost predicate Idle(s: Sys, n: nat) {
    && Rested(s, n) && s.out == Copies(n)
    && s.rx == R.Rx(n % U16, [None, None, None, None, None, None, None], false, 0, false)
    && (n > 0 ==> RecordOf(0) in s.net)
  }

  function Round(n: nat): seq<Act> {
    [Queue(0, []), Flush(OnePacket()), Deliver(RecordOf(n)), Read]
  }

  lemma ExecAppend(s: Sys, a: seq<Act>, b: seq<Act>, maxLen: nat)
    requires |s.rx.slots| == K
    ensures Exec(s, a + b, maxLen) == Exec(Exec(s, a, maxLen), b, maxLen)
    decreases |a|
  {
    hide Do;
    if a == [] {
      assert a + b == b;
    } else {
      assert (a + b)[1..] == a[1..] + b;
      ExecAppend(Do(s, a[0], maxLen), a[1..], b, maxLen);
    }
  }

  /** n messages were queued and sent. */
  ghost predicate Rested(s: Sys, n: nat) {
    && s.tx.writeSeq == n % U16 && s.tx.epoch == 0 && (s.tx.complete || s.tx == S.Tx([], 0, 0, false, 0, 0))
    && s.history == Copies(n) && |s.rx.slots| == K
  }

  lemma Queued(s: Sys, n: nat, maxLen: nat)
    requires Rested(s, n) && n < U16
    ensures var q := Do(s, Queue(0, []), maxLen);
      && q == s.(tx := q.tx, history := Copies(n + 1))
      && q.tx == S.Tx([S.Outgoing(PutHeader(Head(n)), 0, false)], 0, 0, false, (n + 1) % U16, 0)
  {
    hide PutHeader;
    assert PutHeader(Head(n)) + [] == PutHeader(Head(n));
    assert Copies(n) + [Msg(0, [])] == Copies(n + 1);
  }

  lemma Sealed(tx: S.Tx, n: nat)
    requires n < U16 && tx.queue == [S.Outgoing(PutHeader(Head(n)), 0, false)]
    requires tx.written == tx.offset == tx.epoch == 0
    ensures S.SealPacket(tx, OnePacket().keys, 256, [S.Seal(true, 0)]) ==
      S.PacketOut(true, [S.Piece(0, RecordOf(n))], tx.(written := 1))
  {
    hide PutHeader, ParseFragment;
    FragmentRoundTrip(Head(n), [], []);
    assert PutHeader(Head(n)) + [] + [] == PutHeader(Head(n));
    assert S.Fragment(Head(n), [], 0, 0) == PutHeader(Head(n));
    var piece, after := S.Piece(0, RecordOf(n)), tx.(written := 1);
    assert S.SealMessage(tx, OnePacket().keys, 256, S.Seal(true, 0)) == S.Progress(piece, false, 0);
    assert S.SealRest(after, OnePacket().keys, 256 - piece.rec.size, []) == S.PacketOut(true, [], after);
    assert S.SealRest(tx, OnePacket().keys, 256, [S.Seal(true, 0)]) == S.PacketOut(true, [piece], after);
  }

  lemma Flushed(s: Sys, n: nat, maxLen: nat)
    requires |s.rx.slots| == K && n < U16
    requires s.tx == S.Tx([S.Outgoing(PutHeader(Head(n)), 0, false)], 0, 0, false, (n + 1) % U16, 0)
    ensures var f := Do(s, Flush(OnePacket()), maxLen);
      && f == s.(tx := f.tx, net := f.net) && f.tx.complete && f.tx.epoch == 0 && f.tx.writeSeq == (n + 1) % U16
      && RecordOf(n) in f.net && s.net <= f.net
  {
    hide PutHeader, S.SealPacket, S.SealRest;
    var tx := s.tx.(complete := true);
    Sealed(tx, n);
    var p := S.Piece(0, RecordOf(n));
    var r := S.SendRest(tx, OnePacket().keys, 256, OnePacket().env);
    assert r.packets == [[p]];
    assert S.Flat([[p]]) == [p];
    assert p in S.Flat(r.packets);
  }

  /** An empty message is complete as soon as its header is there. */
  lemma DeliveredAndRead(s: Sys, n: nat, maxLen: nat)
    requires n < U16 && s.rx == R.Rx(n, [None, None, None, None, None, None, None], false, 0, false)
    requires RecordOf(n) in s.net
    ensures Do(Do(s, Deliver(RecordOf(n)), maxLen), Read, maxLen) ==
      s.(out := s.out + [Msg(0, [])], rx := s.rx.(readSeq := (n + 1) % U16))
  {
    hide PutHeader, ParseFragment;
    FragmentRoundTrip(Head(n), [], []);
    assert PutHeader(Head(n)) + [] + [] == PutHeader(Head(n));
    var b := Blank(Head(n));
    var at := s.rx.(slots := s.rx.slots[n % K := Some(b)]);
    assert R.Absorb(s.rx, Head(n), [], maxLen) == R.Step(true, at);
    assert R.AbsorbAll(s.rx, PutHeader(Head(n)), maxLen) == R.Step(true, at);
    assert R.Current(at) == Some(b);
    assert at.slots[n % K := None] == s.rx.slots;
  }

  lemma RoundDone(s: Sys, n: nat, maxLen: nat)
    requires Idle(s, n) && n < U16
    ensures |s.rx.slots| == K && Idle(Exec(s, Round(n), maxLen), n + 1)
  {
    hide Do, PutHeader;
    Queued(s, n, maxLen);
    var q := Do(s, Queue(0, []), maxLen);
    Flushed(q, n, maxLen);
    var f := Do(q, Flush(OnePacket()), maxLen);
    DeliveredAndRead(f, n, maxLen);
    var d := Do(f, Deliver(RecordOf(n)), maxLen);
    FourSteps(s, Queue(0, []), Flush(OnePacket()), Deliver(RecordOf(n)), Read, maxLen);
    assert Copies(n) + [Msg(0, [])] == Copies(n + 1);
  }

  lemma FourSteps(s: Sys, a: Act, b: Act, c: Act, d: Act, maxLen: nat)
    requires |s.rx.slots| == K
    ensures Exec(s, [a, b, c, d], maxLen) == Do(Do(Do(Do(s, a, maxLen), b, maxLen), c, maxLen), d, maxLen)
  {
    hide Do;
    var s1 := Do(s, a, maxLen);
    var s2 := Do(s1, b, maxLen);
    var s3 := Do(s2, c, maxLen);
    assert Exec(s3, [d], maxLen) == Do(s3, d, maxLen);
    assert Exec(s2, [c, d], maxLen) == Exec(s3, [d], maxLen);
    assert Exec(s1, [b, c, d], maxLen) == Exec(s2, [c, d], maxLen);
  }

  function Rounds(n: nat): seq<Act> {
    if n == 0 then [] else Rounds(n - 1) + Round(n - 1)
  }

  lemma {:induction false} RoundsDone(n: nat, maxLen: nat)
    requires n <= U16
    ensures Idle(Exec(Start(), Rounds(n), maxLen), n)
  {
    hide Do, Round, RecordOf;
    if n > 0 {
      RoundsDone(n - 1, maxLen);
      ExecAppend(Start(), Rounds(n - 1), Round(n - 1), maxLen);
      RoundDone(Exec(Start(), Rounds(n - 1), maxLen), n - 1, maxLen);
    } else {
      assert Copies(0) == [];
    }
  }

  /** All 65536 messages, and then the record of the first one again. */
  function OnceTooOften(): seq<Act> {
    Rounds(U16) + [Deliver(RecordOf(0)), Read]
  }

  lemma OneTooMany(maxLen: nat)
    ensures var s := Exec(Start(), OnceTooOften(), maxLen); |s.history| == U16 && |s.out| == U16 + 1
  {
    hide Do, Exec, RecordOf, Rounds;
    RoundsDone(U16, maxLen);
    var s := Exec(Start(), Rounds(U16), maxLen);
    ExecAppend(Start(), Rounds(U16), [Deliver(RecordOf(0)), Read], maxLen);
    DeliveredAndRead(s, 0, maxLen);
    TwoSteps(s, Deliver(RecordOf(0)), Read, maxLen);
  }

  lemma TwoSteps(s: Sys, a: Act, b: Act, maxLen: nat)
    requires |s.rx.slots| == K
    ensures Exec(s, [a, b], maxLen) == Do(Do(s, a, maxLen), b, maxLen)
  {
    hide Do;
    assert Exec(Do(s, a, maxLen), [b], maxLen) == Do(Do(s, a, maxLen), b, maxLen);
  }

  /** Handing out a prefix is certain exactly as long as fewer than 65536 messages are queued. */
  lemma PrefixIffNumbersLast(limit: nat, maxLen: nat)
    ensures (forall acts :: |Exec(Start(), acts, maxLen).history| <= limit ==>
      Exec(Start(), acts, maxLen).out <= Exec(Start(), acts, maxLen).history)
      <==> limit < U16
  {
    hide Exec;
    OneTooMany(maxLen);
    forall acts | |Exec(Start(), acts, maxLen).history| < U16
      ensures Exec(Start(), acts, maxLen).out <= Exec(Start(), acts, maxLen).history
    {
      EndToEnd(acts, maxLen);
    }
  }
}
