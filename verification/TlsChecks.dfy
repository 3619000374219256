/** What one side takes from a peer that may send anything: which messages, in what order, and what was checked. */
module TlsChecks {
  import opened Bytes
  import opened TlsHandshake
  import opened TlsPair
  import opened TlsRuns

  /** An item that was read, and every message that this side had queued or read before it, in order. */
  datatype Reading = Reading(said: seq<Msg>, item: Item)

  predicate Took(h: Side, r: Side) {
    |r.talk.inbox| < |h.talk.inbox|
  }

  function Queued(h: Side, r: Side): seq<Item> {
    if |h.talk.sent| <= |r.talk.sent| then r.talk.sent[|h.talk.sent|..] else []
  }

  /** The messages that a step read or queued. */
  function Exchanged(h: Side, r: Side): seq<Msg> {
    (if Took(h, r) then MsgsOf(h.talk.inbox[0]) else []) + Msgs(Queued(h, r))
  }

  /** What is read in a run that goes on from h, after the messages in `said`. */
  function Readings(h: Side, evs: seq<Event>, said: seq<Msg>): seq<Reading>
    decreases |evs|
  {
    if evs == [] then []
    else
      var r := Next(h, evs[0]);
      (if Took(h, r) then [Reading(said, h.talk.inbox[0])] else []) +
      Readings(r, evs[1..], said + Exchanged(h, r))
  }

  function Items(rs: seq<Reading>): seq<Item> {
    if rs == [] then [] else [rs[0].item] + Items(rs[1..])
  }

  /** A Finished, a CertificateVerify or a ChannelID was made by the other side over all that was said before it; and a
      server's chain of certificates is not empty, while its ServerHelloDone is. */
  predicate Vouched(server: bool, x: Reading) {
    x.item.Hs? ==>
      var m := x.item.m;
      var k := KindOf(m);
      && (k == MT_FINISHED || k == MT_CERTIFICATE_VERIFY || k == MT_CHANNEL_ID ==> m == Bound(k, !server, x.said))
      && (!server && k == MT_CERTIFICATE ==> m.Plain? && m.data != [])
      && (!server && k == MT_SERVER_HELLO_DONE ==> m.Plain? && m.data == [])
  }

  // ---- the transcript is the conversation

  /** Items are queued, and their messages hashed. */
  predicate Grows(t: Talk, u: Talk, items: seq<Item>) {
    && (t.hash.Some? || t.buffer.Some?) && (u.hash.Some? || u.buffer.Some?)
    && u.inbox == t.inbox && u.sent == t.sent + items && Transcript(u) == Transcript(t) + Msgs(items)
  }

  lemma GrowsThen(t: Talk, u: Talk, v: Talk, a: seq<Item>, b: seq<Item>)
    requires Grows(t, u, a) && Grows(u, v, b)
    ensures Grows(t, v, a + b)
  {
    hide Msgs, Transcript;
    MsgsAppend(a, b);
    assert t.sent + a + b == t.sent + (a + b);
    assert Transcript(t) + Msgs(a) + Msgs(b) == Transcript(t) + (Msgs(a) + Msgs(b));
  }

  lemma GrowsOne(t: Talk, m: Msg)
    requires t.hash.Some? || t.buffer.Some?
    ensures Grows(t, Added(t, m), [Hs(m)]) && (t.hash.Some? ==> Added(t, m).hash.Some?)
  {
    var one := [Hs(m)];
    assert one[1..] == [] && Msgs(one) == MsgsOf(one[0]) + Msgs(one[1..]) == [m];
  }

  lemma GrowsIf(t: Talk, b: bool, m: Msg)
    requires t.hash.Some? || t.buffer.Some?
    ensures Grows(t, AddedIf(t, b, m), OneIf(b, m))
  {
    if b { GrowsOne(t, m); } else { assert t.sent + [] == t.sent && Transcript(t) + [] == Transcript(t); }
  }

  lemma GrowsCcs(t: Talk)
    requires t.hash.Some? || t.buffer.Some?
    ensures Grows(t, CcsAdded(t), [Ccs])
  {
    var one := [Ccs];
    assert one[1..] == [] && Msgs(one) == [] && Transcript(t) + [] == Transcript(t);
  }

  lemma FinishedGrows(h: Side, t: Talk, st: nat, items: seq<Item>)
    requires Grows(h.talk, t, items)
    ensures Grows(h.talk, FinishedSent(h, t, st).talk, items + [Hs(Bound(MT_FINISHED, h.who.server, Transcript(t)))])
  {
    hide Msgs, Transcript;
    var m := Bound(MT_FINISHED, h.who.server, Transcript(t));
    GrowsOne(t, m);
    GrowsThen(h.talk, t, Added(t, m), items, [Hs(m)]);
  }

  lemma BeforeFinishedGrows(t: Talk, hello: Hello, data: seq<byte>) returns (items: seq<Item>)
    requires t.hash.Some? || t.buffer.Some?
    ensures Grows(t, BeforeFinished(t, hello, data), items)
  {
    hide Msgs, Transcript, AddedIf, CcsAdded;
    var m1 := Plain(MT_NEXT_PROTO, data);
    var t0 := CcsAdded(t);
    GrowsCcs(t);
    var t1 := AddedIf(t0, hello.npn, m1);
    GrowsIf(t0, hello.npn, m1);
    GrowsThen(t, t0, t1, [Ccs], OneIf(hello.npn, m1));
    var m2 := Bound(MT_CHANNEL_ID, false, Transcript(t1));
    GrowsIf(t1, hello.channelId, m2);
    items := [Ccs] + OneIf(hello.npn, m1) + OneIf(hello.channelId, m2);
    GrowsThen(t, t1, AddedIf(t1, hello.channelId, m2), [Ccs] + OneIf(hello.npn, m1), OneIf(hello.channelId, m2));
  }

  /** What a step did to the two directions is what it did to the transcript. */
  predicate Tells(h: Side, r: Side) {
    && h.talk.sent <= r.talk.sent && Transcript(r.talk) == Transcript(h.talk) + Exchanged(h, r)
    && (r.talk.inbox == h.talk.inbox || (h.talk.inbox != [] && r.talk.inbox == h.talk.inbox[1..]))
  }

  lemma GrownTells(h: Side, r: Side, items: seq<Item>)
    requires Grows(h.talk, r.talk, items)
    ensures Tells(h, r)
  {
    hide Msgs, Transcript;
    assert Queued(h, r) == items;
  }

  predicate Hashing(h: Side) {
    (if Early(h.at.state) then h.talk.hash == None && h.talk.buffer.Some? else h.talk.hash.Some?)
  }

  lemma ReadersTell(h: Side, e: Env)
    requires Hashing(h) && !SendsIn(h.at.state) && h.who.server == IsServerState(h.at.state)
    ensures Tells(h, Do(h, e))
  {
    hide Rank;
    ReadersQueueNothing(h, e);
    var r := Do(h, e);
    assert Queued(h, r) == [];
    if h.who.server { ServerReadersTell(h, e); } else { ClientReadersTell(h, e); }
  }

  /** The transcript takes in what is read and nothing else. */
  predicate Absorbs(t: Talk, u: Talk) {
    || (u.inbox == t.inbox && Transcript(u) == Transcript(t))
    || (t.inbox != [] && u.inbox == t.inbox[1..] && Transcript(u) == Transcript(t) + MsgsOf(t.inbox[0]))
  }

  lemma ClientReadersTell(h: Side, e: Env)
    requires Hashing(h) && !SendsIn(h.at.state) && !IsServerState(h.at.state)
    ensures Absorbs(h.talk, DoClient(h, e).talk)
  {
  }

  lemma ServerReadersTell(h: Side, e: Env)
    requires Hashing(h) && !SendsIn(h.at.state) && IsServerState(h.at.state)
    ensures Absorbs(h.talk, DoServer(h, e).talk)
  {
  }

  lemma ClientSendersTell(h: Side, e: Env)
    requires Hashing(h) && SendsIn(h.at.state) && !IsServerState(h.at.state)
    ensures Tells(h, DoClient(h, e))
  {
    hide Msgs, BeforeFinished, FinishedSent, Added, AddedIf, Tells;
    var r := DoClient(h, e);
    if r.talk.sent == h.talk.sent && r.talk.inbox == h.talk.inbox && Transcript(r.talk) == Transcript(h.talk) {
      NothingTold(h, r);
    } else if h.at.state == START_CONNECT {
      GrowsOne(h.talk, Plain(MT_CLIENT_HELLO, e.data));
      GrownTells(h, r, [Hs(Plain(MT_CLIENT_HELLO, e.data))]);
    } else if h.at.state == SEND_CLIENT_CERTIFICATE {
      var m := Plain(MT_CERTIFICATE, ChainOf(h.who.cfg.hasCert, e.data));
      GrowsOne(FreeBuffer(h.talk, !h.who.cfg.hasCert), m);
      GrownTells(h, r, [Hs(m)]);
    } else if h.at.state == SEND_CLIENT_KEY_EXCHANGE {
      GrowsOne(h.talk, Plain(MT_CLIENT_KEY_EXCHANGE, e.data));
      GrownTells(h, r, [Hs(Plain(MT_CLIENT_KEY_EXCHANGE, e.data))]);
    } else if h.at.state == SEND_CLIENT_CERTIFICATE_VERIFY {
      var m := Bound(MT_CERTIFICATE_VERIFY, false, h.talk.buffer.value);
      GrowsOne(h.talk, m);
      FreeingGrows(h.talk, Added(h.talk, m), [Hs(m)]);
      GrownTells(h, r, [Hs(m)]);
    } else {
      var items := BeforeFinishedGrows(h.talk, h.neg.hello, e.data);
      var t := BeforeFinished(h.talk, h.neg.hello, e.data);
      FinishedGrows(h, t, FINISH_FLIGHT, items);
      GrownTells(h, r, items + [Hs(Bound(MT_FINISHED, h.who.server, Transcript(t)))]);
    }
  }

  lemma FreeingGrows(t: Talk, u: Talk, items: seq<Item>)
    requires Grows(t, u, items) && (t.hash.Some? ==> u.hash.Some?)
    ensures t.hash.Some? ==> Grows(t, FreeBuffer(u, true), items)
  {
    hide Msgs;
  }

  lemma NothingTold(h: Side, r: Side)
    requires r.talk.sent == h.talk.sent && r.talk.inbox == h.talk.inbox && Transcript(r.talk) == Transcript(h.talk)
    ensures Tells(h, r)
  {
    assert Queued(h, r) == [];
  }

  lemma ServerSendersTell(h: Side, e: Env)
    requires Hashing(h) && SendsIn(h.at.state) && IsServerState(h.at.state)
    ensures Tells(h, DoServer(h, e))
  {
    hide Msgs, FinishedSent, Added, AddedIf, Tells;
    var r := DoServer(h, e);
    if r.talk == h.talk {
      NothingTold(h, r);
    } else if h.at.state == SEND_SERVER_HELLO {
      GrowsOne(h.talk, ServerHello(h.neg.hello, e.data));
      GrownTells(h, r, [Hs(ServerHello(h.neg.hello, e.data))]);
    } else if h.at.state == SEND_SERVER_CERTIFICATE {
      ServerCertificateTells(h, e);
    } else if h.at.state == SEND_SERVER_KEY_EXCHANGE {
      GrowsOne(h.talk, Plain(MT_SERVER_KEY_EXCHANGE, e.data));
      GrownTells(h, r, [Hs(Plain(MT_SERVER_KEY_EXCHANGE, e.data))]);
    } else if h.at.state == SEND_SERVER_HELLO_DONE {
      var m1, m2 := Plain(MT_CERTIFICATE_REQUEST, e.data), Plain(MT_SERVER_HELLO_DONE, []);
      var t := AddedIf(h.talk, h.neg.certRequest, m1);
      GrowsIf(h.talk, h.neg.certRequest, m1);
      GrowsOne(t, m2);
      GrowsThen(h.talk, t, Added(t, m2), OneIf(h.neg.certRequest, m1), [Hs(m2)]);
      GrownTells(h, r, OneIf(h.neg.certRequest, m1) + [Hs(m2)]);
    } else {
      ServerFinishedTells(h, e);
    }
  }

  lemma ServerCertificateTells(h: Side, e: Env)
    requires Hashing(h) && h.at.state == SEND_SERVER_CERTIFICATE
    ensures !e.fail ==> Tells(h, DoSendServerCertificate(h, e))
  {
    hide Msgs, AddedIf, Tells;
    if !e.fail {
      var auth, status := CertAuth(h.neg.hello.cipher), h.neg.hello.status;
      var m1, m2 := Plain(MT_CERTIFICATE, ChainOf(true, e.data)), Plain(MT_CERTIFICATE_STATUS, e.data);
      var t := AddedIf(h.talk, auth, m1);
      GrowsIf(h.talk, auth, m1);
      GrowsIf(t, auth && status, m2);
      GrowsThen(h.talk, t, AddedIf(t, auth && status, m2), OneIf(auth, m1), OneIf(auth && status, m2));
      GrownTells(h, DoSendServerCertificate(h, e), OneIf(auth, m1) + OneIf(auth && status, m2));
    }
  }

  lemma ServerFinishedTells(h: Side, e: Env)
    requires Hashing(h) && h.at.state == SEND_SERVER_FINISHED
    ensures !e.fail ==> Tells(h, DoSendServerFinished(h, e))
  {
    hide Msgs, FinishedSent, AddedIf, CcsAdded, Tells, Transcript;
    if !e.fail {
      var m := Plain(MT_NEW_SESSION_TICKET, e.data);
      var t := AddedIf(h.talk, h.neg.hello.ticket, m);
      GrowsIf(h.talk, h.neg.hello.ticket, m);
      GrowsCcs(t);
      GrowsThen(h.talk, t, CcsAdded(t), OneIf(h.neg.hello.ticket, m), [Ccs]);
      var items := OneIf(h.neg.hello.ticket, m) + [Ccs];
      FinishedGrows(h, CcsAdded(t), if Resumed(h) then READ_CLIENT_CCS else FINISH_SERVER_HANDSHAKE, items);
      var fin := Bound(MT_FINISHED, h.who.server, Transcript(CcsAdded(t)));
      GrownTells(h, DoSendServerFinished(h, e), items + [Hs(fin)]);
    }
  }

  lemma StepTells(h: Side, e: Env)
    requires Hashing(h) && h.who.server == IsServerState(h.at.state)
    ensures Tells(h, Do(h, e))
  {
    hide DoClient, DoServer, Tells, Hashing;
    if !SendsIn(h.at.state) { ReadersTell(h, e); }
    else if h.who.server { ServerSendersTell(h, e); }
    else { ClientSendersTell(h, e); }
  }

  lemma LocalHashes(h: Side)
    requires Local(h)
    ensures Hashing(h) && h.who.server == IsServerState(h.at.state)
  {
  }

  lemma CcsTells(h: Side, e: Env)
    requires Known(h.at.state) && h.who.server == IsServerState(h.at.state) && AtCcs(h.at.state)
    requires h.talk.inbox != [] && h.talk.inbox[0].Ccs?
    ensures Tells(h, Do(CcsTaken(h), e)) && Do(CcsTaken(h), e).talk.inbox == h.talk.inbox[1..]
  {
    var r := Do(CcsTaken(h), e);
    assert Queued(h, r) == [] && Transcript(r.talk) == Transcript(h.talk) + [];
  }

  lemma TurnTells(h: Side, e: Env)
    requires Local(h) && AwaitsAt(h.at)
    ensures Tells(h, Turn(h, e))
  {
    hide Local, Do, Msgs, Hashing;
    LocalHashes(h);
    LocalState(h);
    if h.at.wait == Error || (h.at.wait == ReadCcs && (h.talk.inbox == [] || h.talk.inbox[0].Hs?)) {
      NothingTold(h, Turn(h, e));
    } else if h.at.wait == ReadCcs {
      CcsTells(h, e);
    } else {
      StepTells(h, e);
    }
  }

  // ---- what was read, in what order

  /** What has been read, the last kind outermost. */
  datatype Past = Start | Then(before: Past, kind: nat)

  function Maybe(p: Past, b: bool, k: byte): Past {
    if b then Past.Then(p, k as nat) else p
  }

  function And(p: Past, k: byte): Past {
    Past.Then(p, k as nat)
  }

  function KindNo(i: Item): nat {
    if i.Ccs? then CCS_TOK else KindOf(i.m) as nat
  }

  /** What a server sends before its key exchange, and up to ServerHelloDone. A CertificateStatus that was announced may
      be left out, and a ServerKeyExchange by a server that has nothing but a shared key. */
  function Certified(hello: Hello): Past {
    Maybe(And(Start, 2), CertAuth(hello.cipher), 11)
  }

  function KeyPart(hello: Hello, status: bool, ske: bool): Past {
    Maybe(Maybe(Certified(hello), status, 22), ske, 12)
  }

  function Asked(neg: Neg, status: bool, ske: bool): Past {
    Maybe(KeyPart(neg.hello, status, ske), neg.certRequest, 13)
  }

  predicate FreeChoice(st: nat, hello: Hello, status: bool, ske: bool) {
    && (status ==> hello.status)
    && (st > READ_SERVER_KEY_EXCHANGE && !hello.resumed ==>
      (hello.cipher.ecdhe ==> ske) && (ske ==> hello.cipher.ecdhe || hello.cipher.psk))
  }

  /** The messages and ChangeCipherSpecs that a client has read in a state. */
  function ClientHasRead(st: nat, neg: Neg, status: bool, ske: bool): Past {
    var before := if neg.hello.resumed then And(Start, 2) else And(Asked(neg, status, ske), 14);
    var ccs := Past.Then(Maybe(before, neg.hello.ticket, 4), 256);
    if st <= READ_SERVER_HELLO then Start
    else if st == READ_SERVER_CERTIFICATE then And(Start, 2)
    else if st == READ_CERTIFICATE_STATUS then Certified(neg.hello)
    else if st <= READ_SERVER_KEY_EXCHANGE then Maybe(Certified(neg.hello), status, 22)
    else if st == READ_CERTIFICATE_REQUEST then KeyPart(neg.hello, status, ske)
    else if st == READ_SERVER_HELLO_DONE then Asked(neg, status, ske)
    else if st <= SEND_CLIENT_CERTIFICATE_VERIFY then before
    else if st <= FINISH_FLIGHT then if neg.hello.resumed then And(ccs, 20) else before
    else if st == READ_SESSION_TICKET then before
    else if st == PROCESS_SERVER_CCS then ccs.before
    else if st == READ_SERVER_FINISHED then ccs
    else And(ccs, 20)
  }

  function ServerKeys(neg: Neg): Past {
    And(Maybe(And(Start, 1), neg.certRequest, 11), 16)
  }

  /** Those that a server has read. */
  function ServerHasRead(st: nat, neg: Neg): Past {
    var before := if neg.hello.resumed then And(Start, 1) else Maybe(ServerKeys(neg), neg.peerCert, 15);
    var proto := Maybe(Past.Then(before, 256), neg.hello.npn, 67);
    var id := Maybe(proto, neg.hello.channelId, 203);
    if st <= SELECT_PARAMETERS then Start
    else if st <= SEND_SERVER_HELLO_DONE then And(Start, 1)
    else if st == READ_CLIENT_CERTIFICATE then And(Start, 1)
    else if st <= READ_CLIENT_KEY_EXCHANGE then Maybe(And(Start, 1), neg.certRequest, 11)
    else if st == READ_CLIENT_CERTIFICATE_VERIFY then ServerKeys(neg)
    else if st <= PROCESS_CLIENT_CCS then before
    else if st == READ_NEXT_PROTO then Past.Then(before, 256)
    else if st == READ_CHANNEL_ID then proto
    else if st == READ_CLIENT_FINISHED then id
    else if st == SEND_SERVER_FINISHED then if neg.hello.resumed then And(Start, 1) else And(id, 20)
    else And(id, 20)
  }

  predicate HasRead(h: Side, past: Past, status: bool, ske: bool) {
    if h.who.server then past == ServerHasRead(h.at.state, h.neg)
    else FreeChoice(h.at.state, h.neg.hello, status, ske) && past == ClientHasRead(h.at.state, h.neg, status, ske)
  }

  function Onwards(past: Past, h: Side, r: Side): Past {
    if Took(h, r) then Past.Then(past, KindNo(h.talk.inbox[0])) else past
  }

  /** The client is where its reads have taken it. */
  predicate ClientOk(h: Side, past: Past, status: bool, ske: bool) {
    && Known(h.at.state) && !h.who.server && !IsServerState(h.at.state) && !AtCcs(h.at.state) && !Finished(h)
    && (h.at.state <= READ_CERTIFICATE_REQUEST ==> !h.neg.certRequest) && (FullOnly(h.at.state) ==> !Resumed(h))
    && HasRead(h, past, status, ske)
  }

  lemma ClientOpens(h: Side, e: Env, past: Past, status: bool, ske: bool)
    requires ClientOk(h, past, status, ske) && h.at.state <= READ_CERTIFICATE_STATUS
    ensures var r := DoClient(h, e);
      var status' := if h.at.state == READ_CERTIFICATE_STATUS then Took(h, r) else false;
      r.at.wait != Error ==> HasRead(r, Onwards(past, h, r), status', ske)
  {
    hide Append, Transcript;
  }

  lemma ClientGetsKey(h: Side, e: Env, past: Past, status: bool, ske: bool)
    requires ClientOk(h, past, status, ske) && READ_CERTIFICATE_STATUS < h.at.state <= READ_SERVER_KEY_EXCHANGE
    ensures var r := DoClient(h, e);
      var ske' := if h.at.state == READ_SERVER_KEY_EXCHANGE then Took(h, r) else ske;
      r.at.wait != Error ==> HasRead(r, Onwards(past, h, r), status, ske')
  {
    hide Append, Transcript, Certified;
  }

  lemma ClientGoesOn(h: Side, e: Env, past: Past, status: bool, ske: bool)
    requires ClientOk(h, past, status, ske) && READ_SERVER_KEY_EXCHANGE < h.at.state <= SEND_CLIENT_CERTIFICATE_VERIFY
    ensures var r := DoClient(h, e); r.at.wait != Error ==> HasRead(r, Onwards(past, h, r), status, ske)
  {
    hide Append, Transcript, MasterOver, KeyPart;
  }

  lemma ClientCloses(h: Side, e: Env, past: Past, status: bool, ske: bool)
    requires ClientOk(h, past, status, ske) && h.at.state > SEND_CLIENT_CERTIFICATE_VERIFY
    ensures var r := DoClient(h, e); r.at.wait != Error ==> HasRead(r, Onwards(past, h, r), status, ske)
  {
    hide Append, Transcript, BeforeFinished, Asked;
    KeepsInbox(h.talk, h.neg.hello, e.data);
  }

  lemma ClientReadsOn(h: Side, e: Env, past: Past, status: bool, ske: bool) returns (status': bool, ske': bool)
    requires ClientOk(h, past, status, ske)
    ensures var r := DoClient(h, e); r.at.wait != Error ==> HasRead(r, Onwards(past, h, r), status', ske')
  {
    hide DoClient, ClientOk, HasRead;
    var r := DoClient(h, e);
    status', ske' := status, ske;
    if h.at.state <= READ_CERTIFICATE_STATUS {
      ClientOpens(h, e, past, status, ske);
      status' := if h.at.state == READ_CERTIFICATE_STATUS then Took(h, r) else false;
    } else if h.at.state <= READ_SERVER_KEY_EXCHANGE {
      ClientGetsKey(h, e, past, status, ske);
      ske' := if h.at.state == READ_SERVER_KEY_EXCHANGE then Took(h, r) else ske;
    } else if h.at.state <= SEND_CLIENT_CERTIFICATE_VERIFY {
      ClientGoesOn(h, e, past, status, ske);
    } else {
      ClientCloses(h, e, past, status, ske);
    }
  }

  predicate ServerOk(h: Side, past: Past) {
    && Known(h.at.state) && h.who.server && IsServerState(h.at.state) && !AtCcs(h.at.state) && !Finished(h)
    && HelloHeld(h) && (FullOnly(h.at.state) ==> !Resumed(h)) && HasRead(h, past, false, false)
  }

  lemma ServerOpens(h: Side, e: Env, past: Past)
    requires ServerOk(h, past) && h.at.state <= SEND_SERVER_HELLO_DONE
    ensures var r := DoServer(h, e); r.at.wait != Error ==> HasRead(r, Onwards(past, h, r), false, false)
  {
    hide Append, MasterOver, Transcript;
  }

  lemma ServerGetsKey(h: Side, e: Env, past: Past)
    requires ServerOk(h, past) && SEND_SERVER_HELLO_DONE < h.at.state <= READ_CLIENT_CERTIFICATE_VERIFY
    ensures var r := DoServer(h, e); r.at.wait != Error ==> HasRead(r, Onwards(past, h, r), false, false)
  {
    hide Append, MasterOver, Transcript;
  }

  lemma ServerCloses(h: Side, e: Env, past: Past)
    requires ServerOk(h, past) && h.at.state > READ_CLIENT_CERTIFICATE_VERIFY
    ensures var r := DoServer(h, e); r.at.wait != Error ==> HasRead(r, Onwards(past, h, r), false, false)
  {
    hide Append, Transcript, ServerKeys;
  }

  lemma CcsReadsOn(h: Side, e: Env, past: Past, status: bool, ske: bool)
    requires Known(h.at.state) && h.who.server == IsServerState(h.at.state) && AtCcs(h.at.state)
    requires h.talk.inbox != [] && h.talk.inbox[0].Ccs? && HasRead(h, past, status, ske)
    ensures var r := Do(CcsTaken(h), e);
      r.at.wait != Error ==> r.talk.inbox == h.talk.inbox[1..] && HasRead(r, Past.Then(past, CCS_TOK), status, ske)
  {
    hide Asked, ServerKeys;
  }

  // ---- every check is made over the conversation

  lemma ClientVouches(h: Side, e: Env)
    requires Known(h.at.state) && !h.who.server && !IsServerState(h.at.state)
    ensures Took(h, DoClient(h, e)) ==> Vouched(false, Reading(Transcript(h.talk), h.talk.inbox[0]))
  {
    hide Append, Transcript, BeforeFinished, MasterOver;
    KeepsInbox(h.talk, h.neg.hello, e.data);
  }

  lemma ServerVouches(h: Side, e: Env)
    requires Known(h.at.state) && h.who.server && IsServerState(h.at.state) && HelloHeld(h)
    requires HashOk(h.at.state, h.neg.hello, h.talk)
    ensures Took(h, DoServer(h, e)) ==> Vouched(true, Reading(Transcript(h.talk), h.talk.inbox[0]))
  {
    hide Append, MasterOver;
  }

  lemma TurnVouches(h: Side, e: Env)
    requires Local(h) && Awaits(h)
    ensures Took(h, Turn(h, e)) ==> Vouched(h.who.server, Reading(Transcript(h.talk), h.talk.inbox[0]))
  {
    hide DoClient, DoServer, BufferOk, LogOk, NotesMade, Transcript;
    if h.at.wait != Error && h.at.wait != ReadCcs {
      if h.who.server { ServerVouches(h, e); } else { ClientVouches(h, e); }
    }
  }

  // ---- over a run

  lemma TurnReadsOn(h: Side, e: Env, past: Past, status: bool, ske: bool) returns (status': bool, ske': bool)
    requires Local(h) && Awaits(h) && !Finished(h) && (h.at.wait != Error ==> HasRead(h, past, status, ske))
    ensures var r := Turn(h, e); r.at.wait != Error ==> HasRead(r, Onwards(past, h, r), status', ske')
  {
    hide Do, LogOk, HashOk, NotesMade, HasRead;
    status', ske' := status, ske;
    if h.at.wait == ReadCcs && h.talk.inbox != [] && h.talk.inbox[0].Ccs? {
      CcsReadsOn(h, e, past, status, ske);
    } else if h.at.wait == ReadCcs {
      assert Turn(h, e).at.wait != Error ==> Turn(h, e) == h;
    } else if h.at.wait != Error {
      status', ske' := StepReadsOn(h, e, past, status, ske);
    }
  }

  lemma StepReadsOn(h: Side, e: Env, past: Past, status: bool, ske: bool) returns (status': bool, ske': bool)
    requires Local(h) && Awaits(h) && !Finished(h) && h.at.wait != Error && h.at.wait != ReadCcs
    requires HasRead(h, past, status, ske)
    ensures var r := Do(h, e); r.at.wait != Error ==> HasRead(r, Onwards(past, h, r), status', ske')
  {
    hide DoClient, DoServer, LogOk, HashOk, NotesMade, ServerHasRead, ClientHasRead;
    status', ske' := false, false;
    if !h.who.server {
      status', ske' := ClientReadsOn(h, e, past, status, ske);
    } else if h.at.state <= SEND_SERVER_HELLO_DONE {
      ServerOpens(h, e, past);
    } else if h.at.state <= READ_CLIENT_CERTIFICATE_VERIFY {
      ServerGetsKey(h, e, past);
    } else {
      ServerCloses(h, e, past);
    }
  }

  /** All of it for one event. */
  lemma NextChecks(h: Side, ev: Event, past: Past, status: bool, ske: bool) returns (status': bool, ske': bool)
    requires Local(h) && Awaits(h) && (h.at.wait != Error ==> HasRead(h, past, status, ske))
    ensures var r := Next(h, ev);
      && Local(r) && Awaits(r) && r.who == h.who
      && Transcript(r.talk) == Transcript(h.talk) + Exchanged(h, r)
      && (Took(h, r) ==> Vouched(h.who.server, Reading(Transcript(h.talk), h.talk.inbox[0])))
      && (Took(h, r) ==> ev.Run? && r.talk.inbox == h.talk.inbox[1..])
      && (!Took(h, r) ==> r.talk.inbox == h.talk.inbox + if ev.Arrive? then [ev.item] else [])
      && (r.at.wait != Error ==> HasRead(r, Onwards(past, h, r), status', ske'))
  {
    hide Local, Turn, HasRead, Transcript, Vouched, Msgs;
    NextKeeps(h, ev);
    status', ske' := status, ske;
    match ev
    case Arrive(item) =>
      ArrivalTells(h, item);
      ArrivalReads(h, item, past, status, ske);
    case Run(e) =>
      if Finished(h) {
        NothingTold(h, h);
      } else {
        TurnHeeds(h, e);
        TurnTells(h, e);
        TurnVouches(h, e);
        status', ske' := TurnReadsOn(h, e, past, status, ske);
      }
  }

  lemma ArrivalTells(h: Side, item: Item)
    ensures var r := Next(h, Arrive(item));
      Transcript(r.talk) == Transcript(h.talk) + Exchanged(h, r) && (HelloHeld(h) ==> HelloHeld(r))
  {
    assert Queued(h, Next(h, Arrive(item))) == [];
  }

  lemma ArrivalReads(h: Side, item: Item, past: Past, status: bool, ske: bool)
    ensures HasRead(Next(h, Arrive(item)), past, status, ske) == HasRead(h, past, status, ske)
  {
  }

  /** The kinds of what is read, after those before. */
  function KindsOf(past: Past, rs: seq<Reading>): Past
    decreases |rs|
  {
    if rs == [] then past else KindsOf(Past.Then(past, KindNo(rs[0].item)), rs[1..])
  }

  lemma {:induction false} RunChecks(h: Side, evs: seq<Event>, said: seq<Msg>, past: Past, status: bool, ske: bool)
    returns (status': bool, ske': bool)
    requires Local(h) && Awaits(h) && said == Transcript(h.talk)
    requires h.at.wait != Error ==> HasRead(h, past, status, ske)
    ensures var r, rs := Exec(h, evs), Readings(h, evs, said);
      && (forall x :: x in rs ==> Vouched(h.who.server, x))
      && h.talk.inbox + Arrived(evs) == Items(rs) + r.talk.inbox
      && (r.at.wait != Error ==> HasRead(r, KindsOf(past, rs), status', ske'))
    decreases |evs|
  {
    hide Local, Next, Awaits, HasRead, Transcript, Vouched, Exchanged, Items, KindsOf, Arrived;
    status', ske' := status, ske;
    NoReadings(past, h.talk.inbox);
    if evs != [] {
      var r := Next(h, evs[0]);
      status', ske' := NextChecks(h, evs[0], past, status, ske);
      var more := said + Exchanged(h, r);
      status', ske' := RunChecks(r, evs[1..], more, Onwards(past, h, r), status', ske');
      var rest := Readings(r, evs[1..], more);
      OneReading(past, Reading(said, if Took(h, r) then h.talk.inbox[0] else Ccs), rest);
      InboxMoves(h, r, evs, Items(rest), Exec(h, evs).talk.inbox);
      assert [] + rest == rest;
    }
  }

  lemma NoReadings(past: Past, inbox: seq<Item>)
    ensures Items([]) == [] && KindsOf(past, []) == past && inbox + Arrived([]) == [] + inbox
  {
  }

  lemma OneReading(past: Past, x: Reading, rest: seq<Reading>)
    ensures Items([x] + rest) == [x.item] + Items(rest)
    ensures KindsOf(past, [x] + rest) == KindsOf(Past.Then(past, KindNo(x.item)), rest)
  {
    assert ([x] + rest)[1..] == rest;
  }

  lemma InboxMoves(h: Side, r: Side, evs: seq<Event>, read: seq<Item>, end: seq<Item>)
    requires evs != [] && r.talk.inbox + Arrived(evs[1..]) == read + end
    requires Took(h, r) ==> evs[0].Run? && r.talk.inbox == h.talk.inbox[1..]
    requires !Took(h, r) ==> r.talk.inbox == h.talk.inbox + if evs[0].Arrive? then [evs[0].item] else []
    ensures h.talk.inbox + Arrived(evs) == (if Took(h, r) then [h.talk.inbox[0]] else []) + read + end
  {
    hide Arrived;
    ArrivedFirst(evs);
    if Took(h, r) {
      var first := [h.talk.inbox[0]];
      assert h.talk.inbox == first + r.talk.inbox;
      assert first + r.talk.inbox + Arrived(evs[1..]) == first + (r.talk.inbox + Arrived(evs[1..]));
      assert first + (read + end) == first + read + end;
    } else {
      var more := if evs[0].Arrive? then [evs[0].item] else [];
      assert h.talk.inbox + (more + Arrived(evs[1..])) == h.talk.inbox + more + Arrived(evs[1..]);
      assert [] + read + end == read + end;
    }
  }

  lemma ArrivedFirst(evs: seq<Event>)
    requires evs != []
    ensures evs[0].Arrive? ==> Arrived(evs) == [evs[0].item] + Arrived(evs[1..])
    ensures evs[0].Run? ==> Arrived(evs) == [] + Arrived(evs[1..])
  {
  }

  lemma StartChecked(start: Side, cfg: Config)
    requires start == Client(cfg) || start == Server(cfg)
    ensures Local(start) && Awaits(start) && Transcript(start.talk) == [] && start.talk.inbox == []
    ensures HasRead(start, Start, false, false)
  {
  }

  /** What a finished handshake has read from a peer that may send anything. For the client the server's choices to
      leave out a CertificateStatus or a ServerKeyExchange are free; all the rest follows from the negotiation. */
  ghost predicate LegalReads(h: Side, rs: seq<Reading>) {
    if h.who.server then KindsOf(Start, rs) == ServerHasRead(SERVER_DONE, h.neg)
    else exists status, ske ::
      FreeChoice(CLIENT_DONE, h.neg.hello, status, ske)
      && KindsOf(Start, rs) == ClientHasRead(CLIENT_DONE, h.neg, status, ske)
  }

  /** Whatever arrives: items are read in the order of arrival, and a Finished, a CertificateVerify or a ChannelID is
      read only if the other side made it over all that was queued and read before. */
  lemma OnlyVouchedIsRead(start: Side, cfg: Config, evs: seq<Event>)
    requires start == Client(cfg) || start == Server(cfg)
    ensures var rs := Readings(start, evs, []);
      Arrived(evs) == Items(rs) + Exec(start, evs).talk.inbox && forall x :: x in rs ==> Vouched(start.who.server, x)
  {
    hide *;
    StartChecked(start, cfg);
    var status, ske := RunChecks(start, evs, [], Start, false, false);
    assert start.talk.inbox + Arrived(evs) == Arrived(evs);
  }

  /** A finished handshake has read all the messages its negotiation asks for, in their order, and nothing else: a
      server that took a client certificate has read a CertificateVerify, one with Channel ID a ChannelID. */
  lemma FinishedReadsAreLegal(start: Side, cfg: Config, evs: seq<Event>)
    requires start == Client(cfg) || start == Server(cfg)
    requires Finished(Exec(start, evs))
    ensures LegalReads(Exec(start, evs), Readings(start, evs, []))
  {
    hide Exec, Readings, Vouched, Items, Local, Awaits, Transcript, ClientHasRead, ServerHasRead, KindsOf, Client,
      Server;
    StartChecked(start, cfg);
    ExecKeeps(start, evs);
    DoneWaitsForNothing(start, cfg, evs);
    LocalState(Exec(start, evs));
    var status, ske := RunChecks(start, evs, [], Start, false, false);
  }

  predicate Has(past: Past, k: nat) {
    past.Then? && (past.kind == k || Has(past.before, k))
  }

  lemma {:induction false} WasRead(past: Past, rs: seq<Reading>, k: nat)
    requires Has(KindsOf(past, rs), k) && !Has(past, k)
    ensures exists x :: x in rs && KindNo(x.item) == k
    decreases |rs|
  {
    if rs != [] {
      assert rs[0] in rs;
      if KindNo(rs[0].item) != k {
        WasRead(Past.Then(past, KindNo(rs[0].item)), rs[1..], k);
        var x :| x in rs[1..] && KindNo(x.item) == k;
        assert x in rs;
      }
    }
  }

  /** A message of this kind was read that the other side made over all that was said before it. */
  ghost predicate HeardVouched(server: bool, rs: seq<Reading>, k: byte) {
    exists x :: x in rs && x.item == Hs(Bound(k, !server, x.said))
  }

  lemma VouchedIfRead(server: bool, rs: seq<Reading>, k: byte)
    requires Has(KindsOf(Start, rs), k as nat) && forall x :: x in rs ==> Vouched(server, x)
    requires k == MT_FINISHED || k == MT_CERTIFICATE_VERIFY || k == MT_CHANNEL_ID
    ensures HeardVouched(server, rs, k)
  {
    hide KindsOf;
    WasRead(Start, rs, k as nat);
    var x :| x in rs && KindNo(x.item) == k as nat;
    assert Vouched(server, x);
  }

  lemma LegalHas(h: Side, rs: seq<Reading>)
    requires LegalReads(h, rs)
    ensures Has(KindsOf(Start, rs), 20)
    ensures h.who.server && !Resumed(h) && h.neg.peerCert ==> Has(KindsOf(Start, rs), 15)
    ensures h.who.server && h.neg.hello.channelId ==> Has(KindsOf(Start, rs), 203)
  {
    hide KindsOf, Asked, ServerKeys;
    if h.who.server {
      var hello := h.neg.hello;
      var before := if hello.resumed then And(Start, 1) else Maybe(ServerKeys(h.neg), h.neg.peerCert, 15);
      StillHas(before, 15, true, 256);
      StillHas(Past.Then(before, 256), 15, hello.npn, 67);
      StillHas(Maybe(Past.Then(before, 256), hello.npn, 67), 15, hello.channelId, 203);
    }
  }

  lemma StillHas(past: Past, k: nat, b: bool, more: nat)
    ensures Has(past, k) ==> Has(if b then Past.Then(past, more) else past, k)
  {
  }

  /** So no handshake ends without a Finished that the other side made over this side's whole conversation up to it; nor
      does a server take a client certificate, or a ChannelID, without the same proof of possession. */
  lemma PeerIsVouched(start: Side, cfg: Config, evs: seq<Event>)
    requires start == Client(cfg) || start == Server(cfg)
    requires Finished(Exec(start, evs))
    ensures var h, rs := Exec(start, evs), Readings(start, evs, []);
      && HeardVouched(h.who.server, rs, MT_FINISHED)
      && (h.who.server && !Resumed(h) && h.neg.peerCert ==> HeardVouched(true, rs, MT_CERTIFICATE_VERIFY))
      && (h.who.server && h.neg.hello.channelId ==> HeardVouched(true, rs, MT_CHANNEL_ID))
  {
    hide Exec, Readings, Vouched, Items, KindsOf, LegalReads, HeardVouched, Has, Local;
    StartsLocal(cfg);
    ExecKeeps(start, evs);
    OnlyVouchedIsRead(start, cfg, evs);
    FinishedReadsAreLegal(start, cfg, evs);
    var h, rs := Exec(start, evs), Readings(start, evs, []);
    LegalHas(h, rs);
    VouchedIfRead(h.who.server, rs, MT_FINISHED);
    if h.who.server && !Resumed(h) && h.neg.peerCert { VouchedIfRead(true, rs, MT_CERTIFICATE_VERIFY); }
    if h.who.server && h.neg.hello.channelId { VouchedIfRead(true, rs, MT_CHANNEL_ID); }
  }

  // ---- what fails or is not ready yet

  /** Where the source may have to wait for the application or for a key operation. */
  predicate MayWait(h: Side) {
    var st := h.at.state;
    || st == VERIFY_SERVER_CERTIFICATE || st == SEND_CLIENT_CERTIFICATE || st == SEND_CLIENT_CERTIFICATE_VERIFY
    || (st == SEND_CLIENT_FINISHED && h.neg.hello.channelId)
    || st == READ_CLIENT_HELLO || st == SELECT_CERTIFICATE || st == SELECT_PARAMETERS
    || (st == SEND_SERVER_KEY_EXCHANGE && CertAuth(h.neg.hello.cipher))
    || st == VERIFY_CLIENT_CERTIFICATE || st == READ_CLIENT_KEY_EXCHANGE
  }

  /** Nothing is read, queued or recorded. */
  predicate Untouched(h: Side, r: Side) {
    && r.talk.inbox == h.talk.inbox && r.talk.sent == h.talk.sent && Transcript(r.talk) == Transcript(h.talk)
    && r.notes == h.notes && r.neg.peerCert == h.neg.peerCert
  }

  /** A step in which an operation fails, or is not ready, touches nothing. */
  lemma FailureTouchesNothing(h: Side, e: Env)
    requires Local(h) && (e.fail || (e.retry && MayWait(h)))
    ensures Untouched(h, Do(h, e))
  {
    hide LogOk, BufferOk, NotesMade, DoClient, DoServer, Untouched;
    if h.who.server { ServerUntouched(h, e); } else { ClientUntouched(h, e); }
  }

  lemma ClientUntouched(h: Side, e: Env)
    requires Known(h.at.state) && !IsServerState(h.at.state) && HashOk(h.at.state, h.neg.hello, h.talk)
    requires e.fail || (e.retry && MayWait(h))
    ensures Untouched(h, DoClient(h, e))
  {
    hide Append, BeforeFinished, MasterOver;
  }

  lemma ServerUntouched(h: Side, e: Env)
    requires Known(h.at.state) && IsServerState(h.at.state) && HashOk(h.at.state, h.neg.hello, h.talk)
    requires e.fail || (e.retry && MayWait(h))
    ensures Untouched(h, DoServer(h, e))
  {
    hide Append, MasterOver;
  }

  /** A certificate that the peer sent is in use: the state is beyond the one that verifies it. */
  predicate Trusting(h: Side) {
    if h.who.server then h.neg.peerCert && h.at.state > VERIFY_CLIENT_CERTIFICATE
    else !Resumed(h) && CertAuth(h.neg.hello.cipher) && h.at.state > VERIFY_SERVER_CERTIFICATE
  }

  /** The peer's certificate is being verified, and that succeeds. */
  predicate Verifies(h: Side, ev: Event) {
    && ev.Run? && !ev.e.fail && !ev.e.retry && h.at.wait != Error
    && h.at.state == if h.who.server then VERIFY_CLIENT_CERTIFICATE else VERIFY_SERVER_CERTIFICATE
  }

  predicate VerifiedIn(h: Side, evs: seq<Event>)
    decreases |evs|
  {
    evs != [] && (Verifies(h, evs[0]) || VerifiedIn(Next(h, evs[0]), evs[1..]))
  }

  lemma ClientTrusts(h: Side, e: Env)
    requires Known(h.at.state) && !h.who.server && !IsServerState(h.at.state) && !Trusting(h)
    requires Early(h.at.state) ==> h.neg.hello == NO_HELLO
    ensures Trusting(DoClient(h, e)) ==> h.at.state == VERIFY_SERVER_CERTIFICATE && !e.fail && !e.retry
  {
    hide Append, BeforeFinished, MasterOver, Transcript, Added, FreeBuffer, InitHash;
  }

  lemma ServerTrusts(h: Side, e: Env)
    requires Known(h.at.state) && h.who.server && IsServerState(h.at.state) && !Trusting(h)
    requires h.at.state <= READ_CLIENT_CERTIFICATE ==> !h.neg.peerCert
    ensures Trusting(DoServer(h, e)) ==> h.at.state == VERIFY_CLIENT_CERTIFICATE && !e.fail && !e.retry
  {
    hide Append, MasterOver, Transcript, Added, AddedIf, FreeBuffer, InitHash, CcsAdded, HelloOf;
  }

  lemma NextTrusts(h: Side, ev: Event)
    requires Local(h) && AwaitsAt(h.at) && !Trusting(h)
    ensures Trusting(Next(h, ev)) ==> Verifies(h, ev)
  {
    hide DoClient, DoServer, LogOk, NotesMade;
    if ev.Run? && !Finished(h) && h.at.wait != Error {
      var t := if h.at.wait == ReadCcs && h.talk.inbox != [] then CcsTaken(h) else h;
      if h.who.server { ServerTrusts(t, ev.e); } else { ClientTrusts(t, ev.e); }
    }
  }

  lemma {:induction false} RunTrusts(h: Side, evs: seq<Event>)
    requires Local(h) && Awaits(h) && !Trusting(h)
    ensures Trusting(Exec(h, evs)) ==> VerifiedIn(h, evs)
    decreases |evs|
  {
    hide Local, Next, HelloHeld, Trusting, Verifies, AwaitsAt;
    if evs != [] {
      NextTrusts(h, evs[0]);
      NextAwaits(h, evs[0]);
      if !Trusting(Next(h, evs[0])) { RunTrusts(Next(h, evs[0]), evs[1..]); }
    }
  }

  lemma NextAwaits(h: Side, ev: Event)
    requires Local(h) && Awaits(h)
    ensures Local(Next(h, ev)) && Awaits(Next(h, ev))
  {
    hide Local, Turn, AwaitsAt;
    NextKeeps(h, ev);
    if ev.Run? && !Finished(h) { TurnHeeds(h, ev.e); }
  }

  /** No certificate is used that was not verified: a finished client has verified the one its cipher asks for, and a
      finished server the one it was sent. */
  lemma OnlyVerifiedIsTrusted(start: Side, cfg: Config, evs: seq<Event>)
    requires start == Client(cfg) || start == Server(cfg)
    requires Finished(Exec(start, evs))
    ensures var h := Exec(start, evs);
      !Resumed(h) && (if h.who.server then h.neg.peerCert else CertAuth(h.neg.hello.cipher)) ==> VerifiedIn(start, evs)
  {
    hide Exec, Local, HelloHeld, VerifiedIn;
    StartChecked(start, cfg);
    ExecKeeps(start, evs);
    LocalState(Exec(start, evs));
    RunTrusts(start, evs);
  }

  // ---- what a server's settings ask of its peer

  predicate Decided(h: Side) {
    h.who.server && h.at.state > SELECT_PARAMETERS ==>
      h.neg.hello == HelloOf(h.who.cfg) && h.neg.certRequest == AsksCertificate(h.who.cfg)
  }

  lemma StepDecides(h: Side, e: Env)
    requires Known(h.at.state) && h.who.server == IsServerState(h.at.state) && Decided(h)
    ensures Decided(Do(h, e)) && Do(h, e).who == h.who
  {
    hide HelloOf, AsksCertificate, Append, MasterOver, Transcript, BeforeFinished;
  }

  lemma {:induction false} RunDecides(h: Side, evs: seq<Event>)
    requires Local(h) && Decided(h)
    ensures Decided(Exec(h, evs))
    decreases |evs|
  {
    hide Local, Do, Decided;
    if evs != [] {
      NextKeeps(h, evs[0]);
      NextDecides(h, evs[0]);
      RunDecides(Next(h, evs[0]), evs[1..]);
    }
  }

  lemma NextDecides(h: Side, ev: Event)
    requires Local(h) && Decided(h)
    ensures Decided(Next(h, ev))
  {
    hide Local, Do, HelloOf, AsksCertificate;
    LocalState(h);
    if ev.Run? {
      StepDecides(h, ev.e);
      if h.talk.inbox != [] { StepDecides(CcsTaken(h), ev.e); }
    }
  }

  /** A finished server has read a Certificate exactly if it is set to verify its peer, in a full handshake with a
      cipher that authenticates by certificate, and would not rather have the Channel ID it supports; and a ChannelID
      that the peer vouched for wherever it supports one, its cipher is ECDHE, and a resumed session has its original
      handshake on record. */
  lemma ServerGetsWhatItAsks(cfg: Config, evs: seq<Event>)
    requires Finished(Exec(Server(cfg), evs))
    ensures var rs := Readings(Server(cfg), evs, []);
      && (Has(KindsOf(Start, rs), 11) <==>
        !cfg.resumed && cfg.verifyPeer && !cfg.cipher.psk && !(cfg.ifNoChannelId && cfg.channelId))
      && (Has(KindsOf(Start, rs), 203) <==> cfg.channelId && cfg.cipher.ecdhe && (cfg.resumed ==> cfg.sessionHasHash))
      && (Has(KindsOf(Start, rs), 203) ==> HeardVouched(true, rs, MT_CHANNEL_ID))
  {
    hide Exec, Readings, KindsOf, HeardVouched, Local, Vouched, Items, Server;
    var start := Server(cfg);
    ServerStarts(cfg);
    ExecKeeps(start, evs);
    RunDecides(start, evs);
    OnlyVouchedIsRead(start, cfg, evs);
    FinishedReadsAreLegal(start, cfg, evs);
    var h, rs := Exec(start, evs), Readings(start, evs, []);
    LocalState(h);
    KindsRead(h.neg);
    if Has(KindsOf(Start, rs), 203) { VouchedIfRead(true, rs, MT_CHANNEL_ID); }
  }

  /** A server that wants a certificate, or a Channel ID instead, gets one of the two in every full handshake exactly if
      the cipher fits: where Channel ID is supported no certificate is asked for, and without ECDHE no Channel ID is
      taken either. */
  lemma OneOfTheTwoIff(cfg: Config, evs: seq<Event>)
    requires Finished(Exec(Server(cfg), evs))
    requires cfg.verifyPeer && cfg.ifNoChannelId && !cfg.resumed && !cfg.cipher.psk
    ensures var kinds := KindsOf(Start, Readings(Server(cfg), evs, []));
      Has(kinds, 11) || Has(kinds, 203) <==> !cfg.channelId || cfg.cipher.ecdhe
  {
    hide Exec, Readings, KindsOf, HeardVouched, Server, Has;
    ServerGetsWhatItAsks(cfg, evs);
  }

  lemma ServerStarts(cfg: Config)
    ensures var h := Server(cfg); Local(h) && Decided(h) && h.who == Who(true, cfg)
  {
    StartsLocal(cfg);
  }

  lemma KindsRead(neg: Neg)
    ensures var past := ServerHasRead(SERVER_DONE, neg);
      && (Has(past, 11) <==> !neg.hello.resumed && neg.certRequest)
      && (Has(past, 203) <==> neg.hello.channelId)
  {
    var keys := ServerKeys(neg);
    var before := if neg.hello.resumed then And(Start, 1) else Maybe(keys, neg.peerCert, 15);
    var proto := Maybe(Past.Then(before, 256), neg.hello.npn, 67);
    assert Has(keys, 11) <==> neg.certRequest;
    assert !Has(keys, 203);
    assert (Has(before, 11) <==> !neg.hello.resumed && neg.certRequest) && !Has(before, 203);
    assert (Has(proto, 11) <==> Has(before, 11)) && !Has(proto, 203);
  }
}
