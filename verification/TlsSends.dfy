/** What one side has sent when its handshake is done, against any peer, and what it no longer holds. */
module TlsSends {
  import opened Bytes
  import opened TlsChecks
  import opened TlsHandshake
  import opened TlsRuns

  /** The kinds of queued items, in order. */
  function KindsSent(sent: seq<Item>): Past {
    if sent == [] then Start else Past.Then(KindsSent(sent[..|sent| - 1]), KindNo(sent[|sent| - 1]))
  }

  lemma SentMore(sent: seq<Item>, i: Item)
    ensures KindsSent(sent + [i]) == Past.Then(KindsSent(sent), KindNo(i))
  {
    assert (sent + [i])[..|sent|] == sent;
  }

  lemma SentIf(t: Talk, b: bool, m: Msg)
    ensures KindsSent(AddedIf(t, b, m).sent) == Maybe(KindsSent(t.sent), b, KindOf(m))
  {
    hide KindsSent;
    if b { SentMore(t.sent, Hs(m)); }
  }

  lemma SentOne(t: Talk, m: Msg)
    ensures KindsSent(Added(t, m).sent) == And(KindsSent(t.sent), KindOf(m))
  {
    hide KindsSent;
    SentMore(t.sent, Hs(m));
  }

  function ClientKeys(neg: Neg, hasCert: bool): Past {
    Maybe(And(Maybe(And(Start, 1), neg.certRequest, 11), 16), neg.certRequest && hasCert, 15)
  }

  /** What a client has sent in a state. */
  function ClientHasSent(st: nat, neg: Neg, hasCert: bool): Past {
    var before := if neg.hello.resumed then And(Start, 1) else ClientKeys(neg, hasCert);
    var fin := And(Maybe(Maybe(Past.Then(before, 256), neg.hello.npn, 67), neg.hello.channelId, 203), 20);
    if st == START_CONNECT then Start
    else if st <= SEND_CLIENT_CERTIFICATE then And(Start, 1)
    else if st == SEND_CLIENT_KEY_EXCHANGE then Maybe(And(Start, 1), neg.certRequest, 11)
    else if st == SEND_CLIENT_CERTIFICATE_VERIFY then And(Maybe(And(Start, 1), neg.certRequest, 11), 16)
    else if st == SEND_CLIENT_FINISHED then before
    else if st == FINISH_FLIGHT then fin
    else if st <= READ_SERVER_FINISHED then if neg.hello.resumed then And(Start, 1) else fin
    else fin
  }

  function ServerParams(hello: Hello): Past {
    Maybe(Maybe(And(Start, 2), CertAuth(hello.cipher), 11), CertAuth(hello.cipher) && hello.status, 22)
  }

  /** What a server has sent: a ServerKeyExchange with ECDHE, or with a hint for a shared key. */
  function ServerHasSent(st: nat, neg: Neg, cfg: Config): Past {
    var key := Maybe(ServerParams(neg.hello), cfg.cipher.ecdhe || (cfg.cipher.psk && cfg.pskHint), 12);
    var before := if neg.hello.resumed then And(Start, 2) else And(Maybe(key, neg.certRequest, 13), 14);
    var fin := And(Past.Then(Maybe(before, neg.hello.ticket, 4), 256), 20);
    if st <= SEND_SERVER_HELLO then Start
    else if st == SEND_SERVER_CERTIFICATE then And(Start, 2)
    else if st == SEND_SERVER_KEY_EXCHANGE then ServerParams(neg.hello)
    else if st == SEND_SERVER_HELLO_DONE then key
    else if st <= READ_CLIENT_CERTIFICATE_VERIFY then before
    else if st <= READ_CLIENT_FINISHED then if neg.hello.resumed then fin else before
    else if st == SEND_SERVER_FINISHED then before
    else fin
  }

  predicate HasSent(h: Side) {
    if h.who.server then
      && KindsSent(h.talk.sent) == ServerHasSent(h.at.state, h.neg, h.who.cfg)
      && (h.at.state == SEND_SERVER_KEY_EXCHANGE ==> h.neg.ske == SendsKeyExchange(h.who.cfg))
    else KindsSent(h.talk.sent) == ClientHasSent(h.at.state, h.neg, h.who.cfg.hasCert)
  }

  /** What the steps need to know of the state. */
  predicate Sending(h: Side) {
    && Known(h.at.state) && h.who.server == IsServerState(h.at.state) && !Finished(h)
    && (FullOnly(h.at.state) ==> !Resumed(h)) && (Resumed(h) && h.who.server ==> !h.neg.certRequest)
    && (!h.who.server && h.at.state <= READ_CERTIFICATE_REQUEST ==> !h.neg.certRequest)
  }

  lemma ClientSends(h: Side, e: Env)
    requires Sending(h) && !h.who.server && HasSent(h) && SendsIn(h.at.state)
    ensures HasSent(DoClient(h, e))
  {
    hide KindsSent, Added, AddedIf, Append, Transcript, MasterOver;
    SentOne(h.talk, Plain(MT_CLIENT_HELLO, e.data));
    SentOne(FreeBuffer(h.talk, !h.who.cfg.hasCert), Plain(MT_CERTIFICATE, ChainOf(h.who.cfg.hasCert, e.data)));
    SentOne(h.talk, Plain(MT_CLIENT_KEY_EXCHANGE, e.data));
    if h.talk.buffer.Some? { SentOne(h.talk, Bound(MT_CERTIFICATE_VERIFY, false, h.talk.buffer.value)); }
    if h.at.state == SEND_CLIENT_FINISHED { FinishedKinds(h, e.data); }
  }

  lemma FinishedKinds(h: Side, data: seq<byte>)
    ensures var t := BeforeFinished(h.talk, h.neg.hello, data);
      KindsSent(FinishedSent(h, t, FINISH_FLIGHT).talk.sent) ==
        And(Maybe(Maybe(Past.Then(KindsSent(h.talk.sent), 256), h.neg.hello.npn, 67), h.neg.hello.channelId, 203), 20)
  {
    hide KindsSent, Added, AddedIf, Transcript;
    var t0 := CcsAdded(h.talk);
    SentMore(h.talk.sent, Ccs);
    SentIf(t0, h.neg.hello.npn, Plain(MT_NEXT_PROTO, data));
    var t1 := AddedIf(t0, h.neg.hello.npn, Plain(MT_NEXT_PROTO, data));
    var id := Bound(MT_CHANNEL_ID, false, Transcript(t1));
    SentIf(t1, h.neg.hello.channelId, id);
    var t2 := AddedIf(t1, h.neg.hello.channelId, id);
    SentOne(t2, Bound(MT_FINISHED, h.who.server, Transcript(t2)));
  }

  lemma ServerSends(h: Side, e: Env)
    requires Sending(h) && h.who.server && HasSent(h) && SendsIn(h.at.state)
    ensures HasSent(DoServer(h, e))
  {
    hide KindsSent, Added, AddedIf, Append, Transcript, HelloOf;
    var hello := h.neg.hello;
    SentOne(h.talk, ServerHello(hello, e.data));
    var auth, m1, m2 := CertAuth(hello.cipher), Plain(MT_CERTIFICATE, ChainOf(true, e.data)),
      Plain(MT_CERTIFICATE_STATUS, e.data);
    SentIf(h.talk, auth, m1);
    SentIf(AddedIf(h.talk, auth, m1), auth && hello.status, m2);
    SentOne(h.talk, Plain(MT_SERVER_KEY_EXCHANGE, e.data));
    var request, ticket := Plain(MT_CERTIFICATE_REQUEST, e.data), Plain(MT_NEW_SESSION_TICKET, e.data);
    SentIf(h.talk, h.neg.certRequest, request);
    SentOne(AddedIf(h.talk, h.neg.certRequest, request), Plain(MT_SERVER_HELLO_DONE, []));
    SentIf(h.talk, hello.ticket, ticket);
    var t := CcsAdded(AddedIf(h.talk, hello.ticket, ticket));
    SentMore(AddedIf(h.talk, hello.ticket, ticket).sent, Ccs);
    SentOne(t, Bound(MT_FINISHED, true, Transcript(t)));
  }

  lemma ClientReadsHello(h: Side, e: Env)
    requires Sending(h) && !h.who.server && HasSent(h) && !SendsIn(h.at.state) && h.at.state < SEND_CLIENT_FINISHED
    ensures HasSent(DoClient(h, e))
  {
    hide KindsSent, Append, Transcript;
    ClientReadersQueueNothing(h, e);
  }

  lemma ClientReadsFinish(h: Side, e: Env)
    requires Sending(h) && !h.who.server && HasSent(h) && !SendsIn(h.at.state) && h.at.state > SEND_CLIENT_FINISHED
    ensures HasSent(DoClient(h, e))
  {
    hide KindsSent, Append, Transcript, ClientKeys;
    ClientReadersQueueNothing(h, e);
  }

  lemma ServerReadsHello(h: Side, e: Env)
    requires Sending(h) && h.who.server && HasSent(h) && h.at.state <= SELECT_PARAMETERS
    ensures HasSent(DoServer(h, e))
  {
    hide KindsSent, Append, HelloOf, AsksCertificate, ServerParams;
    ServerReadersQueueNothing(h, e);
  }

  /** Between two flights a server has sent the same. */
  lemma SameInBetween(neg: Neg, cfg: Config)
    ensures var b := ServerHasSent(READ_CLIENT_CERTIFICATE, neg, cfg);
      && ServerHasSent(VERIFY_CLIENT_CERTIFICATE, neg, cfg) == ServerHasSent(READ_CLIENT_KEY_EXCHANGE, neg, cfg) == b
      && ServerHasSent(READ_CLIENT_CERTIFICATE_VERIFY, neg, cfg) == b
    ensures var c := ServerHasSent(READ_CLIENT_CCS, neg, cfg);
      && ServerHasSent(PROCESS_CLIENT_CCS, neg, cfg) == ServerHasSent(READ_NEXT_PROTO, neg, cfg) == c
      && ServerHasSent(READ_CHANNEL_ID, neg, cfg) == ServerHasSent(READ_CLIENT_FINISHED, neg, cfg) == c
      && (if neg.hello.resumed then ServerHasSent(FINISH_SERVER_HANDSHAKE, neg, cfg) == c
          else ServerHasSent(READ_CLIENT_CERTIFICATE, neg, cfg) == ServerHasSent(SEND_SERVER_FINISHED, neg, cfg) == c)
    ensures ServerHasSent(SERVER_DONE, neg, cfg) == ServerHasSent(FINISH_SERVER_HANDSHAKE, neg, cfg)
  {
  }

  /** What the client's certificate brings makes no difference to it. */
  lemma SameWithCert(neg: Neg, cfg: Config)
    ensures forall b, st :: ServerHasSent(st, neg.(peerCert := b), cfg) == ServerHasSent(st, neg, cfg)
  {
  }

  lemma ServerReadsKeys(h: Side, e: Env)
    requires Sending(h) && h.who.server && HasSent(h) && !SendsIn(h.at.state)
    requires SELECT_PARAMETERS < h.at.state <= READ_CLIENT_CERTIFICATE_VERIFY
    ensures HasSent(DoServer(h, e))
  {
    hide KindsSent, Append, MasterOver, ServerHasSent, Transcript;
    ServerReadersQueueNothing(h, e);
    SameInBetween(h.neg, h.who.cfg);
    SameWithCert(h.neg, h.who.cfg);
  }

  lemma ServerReadsFinish(h: Side, e: Env)
    requires Sending(h) && h.who.server && HasSent(h) && !SendsIn(h.at.state)
    requires h.at.state > READ_CLIENT_CERTIFICATE_VERIFY
    ensures HasSent(DoServer(h, e))
  {
    hide KindsSent, Append, Transcript, ServerHasSent;
    ServerReadersQueueNothing(h, e);
    SameInBetween(h.neg, h.who.cfg);
  }

  lemma StepSends(h: Side, e: Env)
    requires Sending(h) && HasSent(h)
    ensures HasSent(Do(h, e))
  {
    hide DoClient, DoServer, HasSent;
    var st := h.at.state;
    if SendsIn(st) {
      if h.who.server { ServerSends(h, e); } else { ClientSends(h, e); }
    } else if !h.who.server {
      if st < SEND_CLIENT_FINISHED { ClientReadsHello(h, e); } else { ClientReadsFinish(h, e); }
    } else if st <= SELECT_PARAMETERS {
      ServerReadsHello(h, e);
    } else if st <= READ_CLIENT_CERTIFICATE_VERIFY {
      ServerReadsKeys(h, e);
    } else {
      ServerReadsFinish(h, e);
    }
  }

  /** A server asks for a certificate in a full handshake only. */
  predicate AsksInFull(h: Side) {
    h.who.server && Resumed(h) ==> !h.neg.certRequest
  }

  lemma LocalSends(h: Side)
    requires Local(h) && !Finished(h) && AsksInFull(h)
    ensures Sending(h)
  {
    hide LogOk, HashOk, NotesMade;
  }

  lemma DecidedAsks(h: Side)
    requires Local(h) && Decided(h)
    ensures AsksInFull(h)
  {
    hide LogOk, NotesMade;
  }

  lemma NextSends(h: Side, ev: Event)
    requires Local(h) && HasSent(h) && Decided(h)
    ensures HasSent(Next(h, ev))
  {
    hide Local, Do, Sending, AsksInFull, KindsSent, ClientHasSent, ServerHasSent, Decided;
    if ev.Run? && !Finished(h) {
      DecidedAsks(h);
      LocalSends(h);
      if h.at.wait == ReadCcs && h.talk.inbox != [] && h.talk.inbox[0].Ccs? {
        SameSending(h, CcsTaken(h));
        StepSends(CcsTaken(h), ev.e);
      } else if h.at.wait != ReadCcs && h.at.wait != Error {
        StepSends(h, ev.e);
      }
    }
  }

  lemma SameSending(h: Side, t: Side)
    requires Sending(h) && t.who == h.who && t.at.state == h.at.state && t.neg == h.neg
    ensures Sending(t)
  {
  }

  lemma {:induction false} RunSends(h: Side, evs: seq<Event>)
    requires Local(h) && HasSent(h) && Decided(h)
    ensures HasSent(Exec(h, evs))
    decreases |evs|
  {
    hide Local, Next, HasSent, Decided;
    if evs != [] {
      NextKeeps(h, evs[0]);
      NextSends(h, evs[0]);
      NextDecides(h, evs[0]);
      RunSends(Next(h, evs[0]), evs[1..]);
    }
  }

  /** A finished side has sent exactly what its negotiation asks for, in that order, whatever the peer did. */
  lemma FinishedSendsAreLegal(start: Side, cfg: Config, evs: seq<Event>)
    requires start == Client(cfg) || start == Server(cfg)
    requires Finished(Exec(start, evs))
    ensures var h := Exec(start, evs);
      KindsSent(h.talk.sent) ==
        if h.who.server then ServerHasSent(SERVER_DONE, h.neg, cfg) else ClientHasSent(CLIENT_DONE, h.neg, cfg.hasCert)
  {
    hide Exec, Local, KindsSent, ClientHasSent, ServerHasSent;
    StartsLocal(cfg);
    StartSends(start, cfg);
    ExecKeeps(start, evs);
    RunSends(start, evs);
    LocalState(Exec(start, evs));
  }

  lemma StartSends(start: Side, cfg: Config)
    requires start == Client(cfg) || start == Server(cfg)
    ensures HasSent(start) && Decided(start) && start.who.cfg == cfg
  {
  }

  // ---- the handshake buffer

  /** The buffer has no more use in this state. */
  predicate NoUse(st: nat, neg: Neg, hasCert: bool) {
    if st <= CLIENT_DONE then
      || (st > READ_SERVER_HELLO && (neg.hello.resumed || !CertAuth(neg.hello.cipher)))
      || (st > READ_CERTIFICATE_REQUEST && !neg.certRequest) || (st > SEND_CLIENT_CERTIFICATE && !hasCert)
      || st > SEND_CLIENT_CERTIFICATE_VERIFY
    else
      || (st > SELECT_PARAMETERS && !neg.certRequest) || (st > READ_CLIENT_CERTIFICATE && !neg.peerCert)
      || (READ_CLIENT_CERTIFICATE_VERIFY < st && st != SEND_SERVER_FINISHED)
      || (st == SEND_SERVER_FINISHED && !neg.hello.resumed)
  }

  /** It is then gone. */
  predicate Freed(h: Side) {
    NoUse(h.at.state, h.neg, h.who.cfg.hasCert) ==> h.talk.buffer == None
  }

  /** A client is asked for a certificate only under a cipher that authenticates by certificate. */
  predicate AskedRightly(h: Side) {
    !h.who.server && h.neg.certRequest ==> CertAuth(h.neg.hello.cipher)
  }

  lemma ClientFrees(h: Side, e: Env)
    requires Sending(h) && !h.who.server && Freed(h) && AskedRightly(h)
    ensures Freed(DoClient(h, e)) && AskedRightly(DoClient(h, e))
  {
    hide Transcript, MasterOver, BeforeFinished;
    if h.talk.buffer == None { FinishedKeepsNone(h, e.data); }
  }

  lemma FinishedKeepsNone(h: Side, data: seq<byte>)
    requires h.talk.buffer == None
    ensures BeforeFinished(h.talk, h.neg.hello, data).buffer == None
  {
  }

  lemma ServerFrees(h: Side, e: Env)
    requires Sending(h) && h.who.server && Freed(h)
    ensures Freed(DoServer(h, e))
  {
    hide Transcript, MasterOver, HelloOf, AsksCertificate;
  }

  lemma NextFrees(h: Side, ev: Event)
    requires Local(h) && Decided(h) && Freed(h) && AskedRightly(h)
    ensures Freed(Next(h, ev)) && AskedRightly(Next(h, ev))
  {
    hide Local, DoClient, DoServer, Sending, AsksInFull, Decided, NoUse;
    if ev.Run? && !Finished(h) {
      DecidedAsks(h);
      LocalSends(h);
      if h.at.wait == ReadCcs && h.talk.inbox != [] && h.talk.inbox[0].Ccs? {
        SameSending(h, CcsTaken(h));
        StepFrees(CcsTaken(h), ev.e);
      } else if h.at.wait != ReadCcs && h.at.wait != Error {
        StepFrees(h, ev.e);
      }
    }
  }

  lemma StepFrees(h: Side, e: Env)
    requires Sending(h) && Freed(h) && AskedRightly(h)
    ensures Freed(Do(h, e)) && AskedRightly(Do(h, e))
  {
    hide DoClient, DoServer, NoUse, Sending;
    if h.who.server {
      ServerFrees(h, e);
      StaysServer(h, e);
    } else {
      ClientFrees(h, e);
    }
  }

  lemma StaysServer(h: Side, e: Env)
    requires h.who.server
    ensures DoServer(h, e).who.server
  {
    hide Transcript, MasterOver, HelloOf, AsksCertificate;
  }

  lemma {:induction false} RunFrees(h: Side, evs: seq<Event>)
    requires Local(h) && Decided(h) && Freed(h) && AskedRightly(h)
    ensures Freed(Exec(h, evs))
    decreases |evs|
  {
    hide Local, Next, Decided, Freed, AskedRightly;
    if evs != [] {
      NextKeeps(h, evs[0]);
      NextDecides(h, evs[0]);
      NextFrees(h, evs[0]);
      RunFrees(Next(h, evs[0]), evs[1..]);
    }
  }

  /** Against any peer the buffer, which has to be there as long as a CertificateVerify may be made or checked over it,
      is given up as soon as none can be any more, and a finished side holds none. */
  lemma BufferIsGivenUp(start: Side, cfg: Config, evs: seq<Event>)
    requires start == Client(cfg) || start == Server(cfg)
    ensures var h := Exec(start, evs);
      && (NoUse(h.at.state, h.neg, cfg.hasCert) ==> h.talk.buffer == None)
      && (Finished(h) ==> h.talk.buffer == None)
  {
    hide Exec, Local;
    StartsLocal(cfg);
    StartSends(start, cfg);
    ExecKeeps(start, evs);
    RunFrees(start, evs);
  }

  // ---- false start

  /** The handshake is handed back to the application before it is done. */
  predicate HandsBack(h: Side) {
    h.at.wait == EarlyReturn
  }

  /** Only a client does that, in a full handshake, if it is allowed to, right after its own Finished. */
  predicate AfterFlight(h: Side) {
    HandsBack(h) ==> !h.who.server && !Resumed(h) && h.who.cfg.falseStart && h.at.state == READ_SESSION_TICKET
  }

  /** Past its flight in a full handshake, with leave to do so. */
  predicate PastFlight(h: Side) {
    !h.who.server && !Resumed(h) && h.who.cfg.falseStart && h.at.state > FINISH_FLIGHT
  }

  predicate HandedBack(h: Side, evs: seq<Event>)
    decreases |evs|
  {
    evs != [] && (HandsBack(Next(h, evs[0])) || HandedBack(Next(h, evs[0]), evs[1..]))
  }

  lemma ClientHandsBack(h: Side, e: Env)
    requires Sending(h) && !h.who.server && (Early(h.at.state) ==> h.neg.hello == NO_HELLO)
    ensures AfterFlight(DoClient(h, e))
    ensures PastFlight(DoClient(h, e)) && !PastFlight(h) ==> HandsBack(DoClient(h, e))
  {
    hide Transcript, MasterOver, BeforeFinished, Append, Added, FreeBuffer, InitHash;
  }

  lemma ServerHandsNothingBack(h: Side, e: Env)
    requires Sending(h) && h.who.server
    ensures !HandsBack(DoServer(h, e)) && DoServer(h, e).who.server
  {
    hide Transcript, MasterOver, Append, Added, AddedIf, FreeBuffer, InitHash, HelloOf, AsksCertificate;
  }

  lemma NextHandsBack(h: Side, ev: Event)
    requires Local(h) && Decided(h) && AfterFlight(h)
    ensures AfterFlight(Next(h, ev))
    ensures PastFlight(Next(h, ev)) && !PastFlight(h) ==> HandsBack(Next(h, ev))
  {
    hide DoClient, DoServer, Sending, AsksInFull, Decided, LogOk, BufferOk, NotesMade;
    if ev.Run? && !Finished(h) {
      DecidedAsks(h);
      LocalSends(h);
      var t := if h.at.wait == ReadCcs && h.talk.inbox != [] && h.talk.inbox[0].Ccs? then CcsTaken(h) else h;
      SameSending(h, t);
      if h.who.server { ServerHandsNothingBack(t, ev.e); } else { ClientHandsBack(t, ev.e); }
    }
  }

  lemma {:induction false} RunHandsBack(h: Side, evs: seq<Event>)
    requires Local(h) && Decided(h) && AfterFlight(h)
    ensures AfterFlight(Exec(h, evs)) && (PastFlight(Exec(h, evs)) && !PastFlight(h) ==> HandedBack(h, evs))
    decreases |evs|
  {
    hide Local, Next, Decided, AfterFlight, PastFlight, HandsBack;
    if evs != [] {
      NextKeeps(h, evs[0]);
      NextDecides(h, evs[0]);
      NextHandsBack(h, evs[0]);
      RunHandsBack(Next(h, evs[0]), evs[1..]);
    }
  }

  /** A handshake is handed back early only by a client that may, in a full handshake, once its cipher change and its
      Finished are queued; and such a client never finishes without having done so. */
  lemma FalseStartIff(start: Side, cfg: Config, evs: seq<Event>)
    requires start == Client(cfg) || start == Server(cfg)
    ensures var h := Exec(start, evs);
      && (HandsBack(h) ==>
        !h.who.server && !Resumed(h) && cfg.falseStart && h.notes.log == [WriteCipher, OwnFinished])
      && (Finished(h) && !h.who.server && !Resumed(h) && cfg.falseStart ==> HandedBack(start, evs))
  {
    hide Exec, HashOk, BufferOk, NotesMade, HandedBack;
    StartsLocal(cfg);
    StartSends(start, cfg);
    ExecKeeps(start, evs);
    RunHandsBack(start, evs);
    var h := Exec(start, evs);
    if HandsBack(h) {
      assert FirstMarks(false, false, 1) == [WriteCipher];
      assert FirstMarks(false, false, 2) == [WriteCipher, OwnFinished];
    }
  }
}
