/** When a DTLS flight gets through: with seals that work, a large enough MTU and packets that are taken, always. */
module DtlsSendLive {
  import opened Bytes
  import opened DtlsSender
  import opened DtlsWire

  /** The least room in which a record of either kind makes progress. */
  function LeastRoom(c: Cipher): nat {
    RECORD_HEADER + c.maxOverhead + HEADER + 1
  }

  predicate CipherOk(c: Cipher, mtu: nat) {
    c.nonceLen <= c.maxOverhead && LeastRoom(c) <= mtu
  }

  /** The cipher of this epoch or the one before it; a message is whole; the position is within it. */
  predicate Sendable(tx: Tx, keys: Keys, i: nat)
    requires i < |tx.queue|
  {
    && CipherFor(tx, keys, tx.queue[i].epoch).Some?
    && (!tx.queue[i].isCcs ==> Whole(tx.queue[i].data).Some?)
    && (i == tx.written && !tx.queue[i].isCcs ==> tx.offset <= |Whole(tx.queue[i].data).value.1|)
  }

  predicate Good(tx: Tx, keys: Keys, mtu: nat) {
    && AtBoundary(tx) && mtu < U16 && CipherOk(keys.cur, mtu) && CipherOk(keys.prev, mtu)
    && forall i :: tx.written <= i < |tx.queue| ==> Sendable(tx, keys, i)
  }

  /** A seal that works under either cipher. */
  predicate Works(keys: Keys, o: Seal) {
    && o.ok && keys.cur.nonceLen <= o.growth <= keys.cur.maxOverhead
    && keys.prev.nonceLen <= o.growth <= keys.prev.maxOverhead
  }

  predicate AllWork(keys: Keys, os: seq<Seal>, n: nat) {
    |os| >= n && forall k :: 0 <= k < |os| ==> Works(keys, os[k])
  }

  /** What is left to send, at least: a unit for each message and one for each of its bytes. */
  function Load(queue: seq<Outgoing>, i: nat): nat
    requires i <= |queue|
    decreases |queue| - i
  {
    if i == |queue| then 0 else 1 + |queue[i].data| + Load(queue, i + 1)
  }

  function Left(tx: Tx): int
    requires tx.written <= |tx.queue|
  {
    Load(tx.queue, tx.written) - tx.offset
  }

  /** One seal that works: the only thing that can stop it is the room. */
  lemma OneSeal(tx: Tx, keys: Keys, mtu: nat, maxOut: nat, o: Seal)
    requires Good(tx, keys, mtu) && tx.written < |tx.queue| && maxOut <= mtu && Works(keys, o)
    ensures var s := SealMessage(tx, keys, maxOut, o);
      && !s.SealError? && (maxOut == mtu ==> s.Progress?)
      && (s.Progress? ==>
        && s.piece.rec.size <= maxOut
        && var t := if s.more then tx.(offset := s.offset) else tx.(written := tx.written + 1, offset := s.offset);
           Good(t, keys, mtu) && Left(t) < Left(tx))
  {
    hide PutHeader;
    var i := tx.written;
    assert Sendable(tx, keys, i);
    var s := SealMessage(tx, keys, maxOut, o);
    if !tx.queue[i].isCcs { WholeFits(tx.queue[i].data); }
    if s.Progress? {
      var t := if s.more then tx.(offset := s.offset) else tx.(written := tx.written + 1, offset := s.offset);
      forall j | t.written <= j < |t.queue| ensures Sendable(t, keys, j) { assert Sendable(tx, keys, j); }
    }
  }

  lemma WholeFits(data: seq<byte>)
    requires Whole(data).Some?
    ensures |Whole(data).value.1| <= |data|
  {
  }

  /** A packet has at least one record if it starts empty, and brings the end nearer. */
  lemma {:induction false} PacketGoesOn(tx: Tx, keys: Keys, mtu: nat, maxOut: nat, os: seq<Seal>)
    requires Good(tx, keys, mtu) && maxOut <= mtu && AllWork(keys, os, |tx.queue| - tx.written)
    ensures var r := SealRest(tx, keys, maxOut, os);
      && r.ok && Good(r.tx, keys, mtu) && r.tx.queue == tx.queue && Left(r.tx) <= Left(tx)
      && (r.pieces != [] ==> Left(r.tx) < Left(tx)) && (maxOut == mtu && tx.written < |tx.queue| ==> r.pieces != [])
    decreases |tx.queue| - tx.written
  {
    hide SealMessage, Good, Left, Works;
    Within(tx, keys, mtu);
    if tx.written < |tx.queue| {
      OneSeal(tx, keys, mtu, maxOut, os[0]);
      var s := SealMessage(tx, keys, maxOut, os[0]);
      if s.Progress? && !s.more {
        var t := tx.(written := tx.written + 1, offset := s.offset);
        PacketGoesOn(t, keys, mtu, maxOut - s.piece.rec.size, os[1..]);
      }
    }
  }

  lemma Within(tx: Tx, keys: Keys, mtu: nat)
    requires Good(tx, keys, mtu)
    ensures tx.written <= |tx.queue| && (Left(tx) <= 0 ==> tx.written == |tx.queue|)
  {
    if tx.written < |tx.queue| {
      assert Sendable(tx, keys, tx.written);
      if !tx.queue[tx.written].isCcs { WholeFits(tx.queue[tx.written].data); }
    }
  }

  /** Packets are taken, and there is a working seal for each record. */
  predicate Willing(keys: Keys, env: seq<Attempt>, n: nat) {
    forall k :: 0 <= k < |env| ==> env[k].taken && AllWork(keys, env[k].seals, n)
  }

  lemma {:induction false} RestGoesOut(tx: Tx, keys: Keys, mtu: nat, env: seq<Attempt>)
    requires Good(tx, keys, mtu) && Willing(keys, env, |tx.queue|) && Left(tx) <= |env|
    ensures var r := SendRest(tx, keys, mtu, env);
      r.result == Sent && r.tx.written == |tx.queue| && !Torn(tx, keys, mtu, env)
    decreases |env|
  {
    hide SealRest, Good, Left, AllWork;
    Within(tx, keys, mtu);
    if tx.written < |tx.queue| && env != [] {
      SomeWork(keys, env[0].seals, |tx.queue|, |tx.queue| - tx.written);
      PacketGoesOn(tx, keys, mtu, mtu, env[0].seals);
      RestGoesOut(SealPacket(tx, keys, mtu, env[0].seals).tx, keys, mtu, env[1..]);
    }
  }

  lemma SomeWork(keys: Keys, os: seq<Seal>, n: nat, m: nat)
    requires AllWork(keys, os, n) && m <= n
    ensures AllWork(keys, os, m)
  {
  }

  /** So with as many packets as there are bytes and messages left, however small they must be, the flight is sent, and
      none is torn. */
  lemma FlightGetsThrough(tx: Tx, keys: Keys, mtu: nat, env: seq<Attempt>)
    requires Good(tx, keys, mtu) && Willing(keys, env, |tx.queue|) && Left(tx) <= |env|
    ensures var r := Flight(tx, keys, false, mtu, env, true);
      r.result == Sent && r.tx.written == |tx.queue| && !Torn(tx, keys, mtu, env)
  {
    hide SendRest, Good, Left, Willing, Torn;
    RestGoesOut(tx, keys, mtu, env);
  }

  /** A flight counts as sent exactly if the connection is open, every message has been passed, and the transport's own
      flush succeeds; a closed connection sends nothing and stays where it was. */
  lemma FlightSentIff(tx: Tx, keys: Keys, shutdown: bool, mtu: nat, env: seq<Attempt>, flushed: bool)
    requires AtBoundary(tx)
    ensures var r, rest := Flight(tx, keys, shutdown, mtu, env, flushed), SendRest(tx, keys, mtu, env);
      && (r.result == Sent <==> !shutdown && flushed && rest.result != Failed && rest.tx.written >= |tx.queue|)
      && (shutdown ==> r == FlightOut(Failed, [], tx))
      && (r.result == Sent ==> r.tx.written == |tx.queue|)
  {
    hide SendRest;
    SentIsPassed(tx, keys, mtu, env);
  }

  lemma {:induction false} SentIsPassed(tx: Tx, keys: Keys, mtu: nat, env: seq<Attempt>)
    requires AtBoundary(tx)
    ensures var r := SendRest(tx, keys, mtu, env);
      && (r.result == Sent ==> r.tx.written == |tx.queue|) && (r.result == Blocked ==> r.tx.written < |tx.queue|)
    decreases |env|
  {
    hide SealRest, Tile;
    if tx.written < |tx.queue| && env != [] {
      PacketTiles(tx, keys, mtu, env[0].seals);
      var p := SealPacket(tx, keys, mtu, env[0].seals);
      if p.ok && env[0].taken { SentIsPassed(p.tx, keys, mtu, env[1..]); }
    }
  }
}
