/** Client and server together over two first-in first-out channels: what each side hashed when the other checks it. */
module TlsPair {
  import opened Bytes
  import opened TlsHandshake
  import opened TlsRuns

  /** One thing to be sent, and by whom. */
  datatype Tok = Tok(fromServer: bool, what: nat)

  const CCS_TOK: nat := 256

  datatype Script = End | Then(tok: Tok, rest: Script)

  /** What both sides' settings come to. */
  datatype Params = Params(hello: Hello, asks: bool, ske: bool, hasCert: bool)

  function ParamsOf(server: Config, client: Config): Params {
    Params(HelloOf(server), AsksCertificate(server), SendsKeyExchange(server), client.hasCert)
  }

  predicate Sensible(p: Params) {
    && (p.hello.status ==> CertAuth(p.hello.cipher) && !p.hello.resumed)
    && (p.asks ==> CertAuth(p.hello.cipher) && !p.hello.resumed)
    && (p.hello.cipher.ecdhe ==> p.ske) && (p.ske ==> p.hello.cipher.ecdhe || p.hello.cipher.psk)
  }

  // ---- the script of section 7.3 of RFC 5246, from its end

  function By(server: bool, what: nat, rest: Script): Script {
    Then(Tok(server, what), rest)
  }

  function Opt(b: bool, server: bool, what: nat, rest: Script): Script {
    if b then By(server, what, rest) else rest
  }

  /** The client's last flight up to its Finished. */
  function ClientFin(p: Params, rest: Script): Script {
    By(false, CCS_TOK, ClientFinBody(p, rest))
  }

  function ClientFinBody(p: Params, rest: Script): Script {
    Opt(p.hello.npn, false, MT_NEXT_PROTO as int, AfterNextProto(p, rest))
  }

  function AfterNextProto(p: Params, rest: Script): Script {
    Opt(p.hello.channelId, false, MT_CHANNEL_ID as int, By(false, MT_FINISHED as int, rest))
  }

  function ServerFin(p: Params, rest: Script): Script {
    Opt(p.hello.ticket, true, MT_NEW_SESSION_TICKET as int, ServerFinBody(rest))
  }

  function ServerFinBody(rest: Script): Script {
    By(true, CCS_TOK, By(true, MT_FINISHED as int, rest))
  }

  function AfterVerify(p: Params): Script {
    ClientFin(p, ServerFin(p, End))
  }

  function AfterKeyExchange(p: Params): Script {
    Opt(p.asks && p.hasCert, false, MT_CERTIFICATE_VERIFY as int, AfterVerify(p))
  }

  function AfterClientCertificate(p: Params): Script {
    By(false, MT_CLIENT_KEY_EXCHANGE as int, AfterKeyExchange(p))
  }

  function AfterHelloDone(p: Params): Script {
    Opt(p.asks, false, MT_CERTIFICATE as int, AfterClientCertificate(p))
  }

  function AfterRequest(p: Params): Script {
    By(true, MT_SERVER_HELLO_DONE as int, AfterHelloDone(p))
  }

  function AfterKeys(p: Params): Script {
    Opt(p.asks, true, MT_CERTIFICATE_REQUEST as int, AfterRequest(p))
  }

  function AfterStatus(p: Params): Script {
    Opt(p.ske, true, MT_SERVER_KEY_EXCHANGE as int, AfterKeys(p))
  }

  function AfterCertificate(p: Params): Script {
    Opt(p.hello.status, true, MT_CERTIFICATE_STATUS as int, AfterStatus(p))
  }

  function AfterFullHello(p: Params): Script {
    Opt(CertAuth(p.hello.cipher), true, MT_CERTIFICATE as int, AfterCertificate(p))
  }

  function AfterHello(p: Params): Script {
    if p.hello.resumed then ServerFin(p, ClientFin(p, End)) else AfterFullHello(p)
  }

  function AfterClientHello(p: Params): Script {
    By(true, MT_SERVER_HELLO as int, AfterHello(p))
  }

  function Whole(p: Params): Script {
    By(false, MT_CLIENT_HELLO as int, AfterClientHello(p))
  }

  /** What follows the first of the two closing flights. */
  function AfterServerFin(p: Params): Script {
    if p.hello.resumed then ClientFin(p, End) else End
  }

  function AfterClientFin(p: Params): Script {
    if p.hello.resumed then End else ServerFin(p, End)
  }

  /** What is left of the script for a side in a state. */
  function Rest(p: Params, at: At): Script {
    var st := at.state;
    if st == START_CONNECT then Whole(p)
    else if st <= READ_SERVER_HELLO then AfterClientHello(p)
    else if st == READ_SERVER_CERTIFICATE then AfterFullHello(p)
    else if st == READ_CERTIFICATE_STATUS then AfterCertificate(p)
    else if st <= READ_SERVER_KEY_EXCHANGE then AfterStatus(p)
    else if st == READ_CERTIFICATE_REQUEST then AfterKeys(p)
    else if st == READ_SERVER_HELLO_DONE then AfterRequest(p)
    else if st == SEND_CLIENT_CERTIFICATE then AfterHelloDone(p)
    else if st == SEND_CLIENT_KEY_EXCHANGE then AfterClientCertificate(p)
    else if st == SEND_CLIENT_CERTIFICATE_VERIFY then AfterKeyExchange(p)
    else if st == SEND_CLIENT_FINISHED then ClientFin(p, AfterClientFin(p))
    else if st == FINISH_FLIGHT then AfterClientFin(p)
    else if st == READ_SESSION_TICKET then ServerFin(p, AfterServerFin(p))
    else if st == PROCESS_SERVER_CCS && at.wait == ReadCcs then ServerFinBody(AfterServerFin(p))
    else if st <= READ_SERVER_FINISHED then By(true, MT_FINISHED as int, AfterServerFin(p))
    else if st <= CLIENT_DONE then End
    else if st <= SELECT_PARAMETERS then Whole(p)
    else if st == SEND_SERVER_HELLO then AfterClientHello(p)
    else if st == SEND_SERVER_CERTIFICATE then AfterFullHello(p)
    else if st == SEND_SERVER_KEY_EXCHANGE then AfterStatus(p)
    else if st == SEND_SERVER_HELLO_DONE then AfterKeys(p)
    else if st == READ_CLIENT_CERTIFICATE then AfterHelloDone(p)
    else if st <= READ_CLIENT_KEY_EXCHANGE then AfterClientCertificate(p)
    else if st == READ_CLIENT_CERTIFICATE_VERIFY then AfterKeyExchange(p)
    else if st == READ_CLIENT_CCS then ClientFin(p, AfterClientFin(p))
    else if st == PROCESS_CLIENT_CCS && at.wait == ReadCcs then ClientFin(p, AfterClientFin(p))
    else if st <= READ_NEXT_PROTO then ClientFinBody(p, AfterClientFin(p))
    else if st == READ_CHANNEL_ID then AfterNextProto(p, AfterClientFin(p))
    else if st == READ_CLIENT_FINISHED then By(false, MT_FINISHED as int, AfterClientFin(p))
    else if st == SEND_SERVER_FINISHED then ServerFin(p, AfterServerFin(p))
    else End
  }

  // ---- queues of items

  function TokOf(server: bool, i: Item): Tok {
    Tok(server, if i.Ccs? then CCS_TOK else KindOf(i.m) as int)
  }

  /** Queued items and then the rest. */
  function Queue(server: bool, u: seq<Item>, rest: Script): Script {
    if u == [] then rest else Then(TokOf(server, u[0]), Queue(server, u[1..], rest))
  }

  function MsgsOf(i: Item): seq<Msg> {
    if i.Ccs? then [] else [i.m]
  }

  function Msgs(u: seq<Item>): seq<Msg> {
    if u == [] then [] else MsgsOf(u[0]) + Msgs(u[1..])
  }

  /** A message as an honest side makes it over a transcript. */
  predicate GoodMsg(p: Params, server: bool, m: Msg, base: seq<Msg>) {
    var k := KindOf(m);
    if k == MT_SERVER_HELLO then m.ServerHello? && m.hello == p.hello
    else if k == MT_CERTIFICATE_VERIFY || k == MT_CHANNEL_ID || k == MT_FINISHED then m == Bound(k, server, base)
    else
      && m.Plain? && (k == MT_CERTIFICATE ==> (m.data != [] <==> server || p.hasCert))
      && (k == MT_SERVER_HELLO_DONE ==> m.data == [])
  }

  predicate GoodItem(p: Params, server: bool, i: Item, base: seq<Msg>) {
    i.Ccs? || GoodMsg(p, server, i.m, base)
  }

  predicate AllGood(p: Params, server: bool, u: seq<Item>, base: seq<Msg>) {
    u == [] || (GoodItem(p, server, u[0], base) && AllGood(p, server, u[1..], base + MsgsOf(u[0])))
  }

  // ---- one side of the pair

  /** Its flags are those of the script. */
  predicate FlagsOk(p: Params, st: nat, neg: Neg, who: Who) {
    && (!Early(st) ==> neg.hello == p.hello)
    && (if st <= CLIENT_DONE then
          who.cfg.hasCert == p.hasCert && neg.certRequest == (p.asks && st > READ_CERTIFICATE_REQUEST)
        else
          && HelloOf(who.cfg) == p.hello && AsksCertificate(who.cfg) == p.asks && SendsKeyExchange(who.cfg) == p.ske
          && (st > SELECT_PARAMETERS ==> neg.certRequest == p.asks)
          && (st == SEND_SERVER_KEY_EXCHANGE ==> neg.ske == p.ske)
          && neg.peerCert == (p.asks && p.hasCert && st > READ_CLIENT_CERTIFICATE))
  }

  predicate IsKey(m: Msg) {
    KindOf(m) == MT_CLIENT_KEY_EXCHANGE
  }

  predicate IsClientFin(m: Msg) {
    m.Bound? && m.k == MT_FINISHED && !m.fromServer
  }

  predicate EndsInKey(t: seq<Msg>) {
    t != [] && IsKey(t[|t| - 1])
  }

  predicate EndsInClientFin(t: seq<Msg>) {
    t != [] && IsClientFin(t[|t| - 1])
  }

  /** A master secret is made over a transcript that ends in the ClientKeyExchange, and a session records one that ends
      in the client's Finished. */
  predicate NotesOk(h: Side, r: Side) {
    && (r.notes.master == h.notes.master || r.notes.master == None
        || (r.notes.master == Some(Transcript(r.talk)) && EndsInKey(Transcript(r.talk))))
    && (r.notes.original == h.notes.original
        || (r.notes.original == Some(Transcript(r.talk)) && EndsInClientFin(Transcript(r.talk))))
    && (r.at.state == FINISH_FLIGHT ==> EndsInClientFin(Transcript(r.talk)))
  }

  predicate SideOk(p: Params, h: Side) {
    && Sensible(p) && Local(h) && FlagsOk(p, h.at.state, h.neg, h.who)
    && (h.at.state == FINISH_FLIGHT ==> EndsInClientFin(Transcript(h.talk)))
  }

  /** The part of it that the steps need. */
  predicate Ready(p: Params, h: Side) {
    && Sensible(p) && FlagsOk(p, h.at.state, h.neg, h.who) && h.who.server == IsServerState(h.at.state)
    && (if Early(h.at.state) then h.talk.hash == None && h.talk.buffer.Some? else h.talk.hash.Some?)
    && (FullOnly(h.at.state) ==> !Resumed(h))
    && (h.at.state == SEND_CLIENT_CERTIFICATE_VERIFY && h.neg.certRequest && h.who.cfg.hasCert ==>
      h.talk.buffer == h.talk.hash)
    && (h.at.state == READ_CLIENT_CERTIFICATE_VERIFY && h.neg.peerCert ==> h.talk.buffer == h.talk.hash)
    && (h.at.state == FINISH_FLIGHT ==> EndsInClientFin(Transcript(h.talk)))
  }

  lemma SideIsReady(p: Params, h: Side)
    requires SideOk(p, h)
    ensures Ready(p, h)
  {
    hide FirstMarks, EndsInClientFin;
  }

  /** The next item, if it has arrived, is the next of the script and honest. */
  predicate HeadOk(p: Params, h: Side) {
    h.talk.inbox != [] ==>
      && Rest(p, h.at).Then? && Rest(p, h.at).tok == TokOf(!h.who.server, h.talk.inbox[0])
      && GoodItem(p, !h.who.server, h.talk.inbox[0], Transcript(h.talk))
  }

  predicate Quiet(p: Params, h: Side, r: Side) {
    && Rest(p, r.at) == Rest(p, h.at) && r.talk.inbox == h.talk.inbox && r.talk.sent == h.talk.sent
    && Transcript(r.talk) == Transcript(h.talk)
  }

  predicate Takes(p: Params, h: Side, r: Side) {
    && h.talk.inbox != [] && r.talk.inbox == h.talk.inbox[1..] && r.talk.sent == h.talk.sent
    && Rest(p, h.at) == Then(TokOf(!h.who.server, h.talk.inbox[0]), Rest(p, r.at))
    && Transcript(r.talk) == Transcript(h.talk) + MsgsOf(h.talk.inbox[0])
  }

  /** Items queued and hashed, each made over the transcript before it. */
  predicate Speech(p: Params, server: bool, t: Talk, r: Talk, items: seq<Item>) {
    && r.inbox == t.inbox && r.sent == t.sent + items && (r.hash.Some? || r.buffer.Some?)
    && Transcript(r) == Transcript(t) + Msgs(items) && AllGood(p, server, items, Transcript(t))
  }

  predicate Says(p: Params, h: Side, r: Side, items: seq<Item>) {
    && Speech(p, h.who.server, h.talk, r.talk, items)
    && Rest(p, h.at) == Queue(h.who.server, items, Rest(p, r.at))
  }

  /** A step that reads, or does nothing to the conversation; it fails only where the environment makes it fail. */
  predicate Reads(p: Params, h: Side, e: Env, r: Side) {
    && FlagsOk(p, r.at.state, r.neg, r.who) && (r.at.wait == Error ==> e.fail) && NotesOk(h, r)
    && (Quiet(p, h, r) || Takes(p, h, r))
  }

  /** A step that says something, or only moves on. */
  ghost predicate Speaks(p: Params, h: Side, e: Env, r: Side) {
    && FlagsOk(p, r.at.state, r.neg, r.who) && (r.at.wait == Error ==> e.fail) && NotesOk(h, r)
    && (Quiet(p, h, r) || exists items :: Says(p, h, r, items))
  }

  // ---- queues and speeches put together

  lemma {:induction false} MsgsAppend(a: seq<Item>, b: seq<Item>)
    ensures Msgs(a + b) == Msgs(a) + Msgs(b)
    decreases |a|
  {
    if a == [] {
      assert a + b == b;
    } else {
      MsgsAppend(a[1..], b);
      assert (a + b)[1..] == a[1..] + b;
    }
  }

  lemma {:induction false} QueueAppend(server: bool, a: seq<Item>, b: seq<Item>, rest: Script)
    ensures Queue(server, a + b, rest) == Queue(server, a, Queue(server, b, rest))
    decreases |a|
  {
    if a == [] {
      assert a + b == b;
    } else {
      QueueAppend(server, a[1..], b, rest);
      assert (a + b)[1..] == a[1..] + b;
    }
  }

  lemma {:induction false} GoodAppend(p: Params, server: bool, a: seq<Item>, b: seq<Item>, base: seq<Msg>)
    ensures AllGood(p, server, a + b, base) <==> AllGood(p, server, a, base) && AllGood(p, server, b, base + Msgs(a))
    decreases |a|
  {
    hide GoodItem;
    if a == [] {
      assert a + b == b && base + [] == base;
    } else {
      GoodAppend(p, server, a[1..], b, base + MsgsOf(a[0]));
      assert (a + b)[1..] == a[1..] + b;
      assert base + MsgsOf(a[0]) + Msgs(a[1..]) == base + Msgs(a);
    }
  }

  lemma SpeechThen(p: Params, server: bool, t: Talk, u: Talk, v: Talk, a: seq<Item>, b: seq<Item>)
    requires Speech(p, server, t, u, a) && Speech(p, server, u, v, b)
    ensures Speech(p, server, t, v, a + b)
  {
    hide AllGood;
    MsgsAppend(a, b);
    GoodAppend(p, server, a, b, Transcript(t));
    assert t.sent + a + b == t.sent + (a + b);
    assert Transcript(t) + Msgs(a) + Msgs(b) == Transcript(t) + (Msgs(a) + Msgs(b));
  }

  lemma SpeechOne(p: Params, server: bool, t: Talk, m: Msg)
    requires (t.hash.Some? || t.buffer.Some?) && GoodMsg(p, server, m, Transcript(t))
    ensures Speech(p, server, t, Added(t, m), [Hs(m)])
  {
    hide GoodMsg;
    var one := [Hs(m)];
    assert one[1..] == [] && Msgs(one) == MsgsOf(one[0]) + Msgs(one[1..]) == [m];
    assert AllGood(p, server, one, Transcript(t)) by { assert AllGood(p, server, one[1..], Transcript(t) + [m]); }
  }

  function OneIf(b: bool, m: Msg): seq<Item> {
    if b then [Hs(m)] else []
  }

  lemma SpeechIf(p: Params, server: bool, t: Talk, b: bool, m: Msg)
    requires (t.hash.Some? || t.buffer.Some?) && (b ==> GoodMsg(p, server, m, Transcript(t)))
    ensures Speech(p, server, t, AddedIf(t, b, m), OneIf(b, m))
  {
    hide GoodMsg;
    if b { SpeechOne(p, server, t, m); } else { assert t.sent + [] == t.sent && Transcript(t) + [] == Transcript(t); }
  }

  lemma SpeechCcs(p: Params, server: bool, t: Talk)
    requires t.hash.Some? || t.buffer.Some?
    ensures Speech(p, server, t, CcsAdded(t), [Ccs])
  {
    var one := [Ccs];
    assert one[1..] == [] && Msgs(one) == [] && Transcript(t) + [] == Transcript(t);
  }

  lemma QueueOne(server: bool, i: Item, rest: Script)
    ensures Queue(server, [i], rest) == Then(TokOf(server, i), rest)
  {
    var one := [i];
    assert one[1..] == [];
  }

  lemma QueueIf(server: bool, b: bool, m: Msg, rest: Script)
    ensures Queue(server, OneIf(b, m), rest) == Opt(b, server, KindOf(m) as int, rest)
  {
    if b {
      QueueOne(server, Hs(m), rest);
      assert OneIf(b, m) == [Hs(m)];
    } else {
      assert Queue(server, [], rest) == rest;
      assert OneIf(b, m) == [];
    }
  }

  // ---- every step follows the script

  lemma ReadServerHelloReads(p: Params, h: Side, e: Env)
    requires Ready(p, h) && h.at.state == READ_SERVER_HELLO && HeadOk(p, h)
    ensures Reads(p, h, e, DoReadServerHello(h, e))
  {
    hide ClientFin, ClientFinBody, AfterNextProto, ServerFin, ServerFinBody, AfterVerify, AfterKeyExchange,
      AfterClientCertificate, AfterHelloDone, AfterRequest, AfterKeys, AfterStatus, AfterCertificate,
      AfterFullHello, Whole, AfterClientFin;
  }

  lemma ReadServerCertificateReads(p: Params, h: Side, e: Env)
    requires Ready(p, h) && h.at.state == READ_SERVER_CERTIFICATE && HeadOk(p, h)
    ensures Reads(p, h, e, DoReadServerCertificate(h, e))
  {
    hide ClientFin, ClientFinBody, AfterNextProto, ServerFin, ServerFinBody, AfterVerify, AfterKeyExchange,
      AfterClientCertificate, AfterHelloDone, AfterRequest, AfterKeys, AfterStatus, AfterCertificate,
      AfterHello, AfterClientHello, Whole, AfterServerFin, AfterClientFin;
  }

  lemma ReadCertificateStatusReads(p: Params, h: Side, e: Env)
    requires Ready(p, h) && h.at.state == READ_CERTIFICATE_STATUS && HeadOk(p, h)
    ensures Reads(p, h, e, DoReadCertificateStatus(h, e))
  {
    hide ClientFin, ClientFinBody, AfterNextProto, ServerFin, ServerFinBody, AfterVerify, AfterKeyExchange,
      AfterClientCertificate, AfterHelloDone, AfterRequest, AfterKeys, AfterStatus, AfterFullHello,
      AfterHello, AfterClientHello, Whole, AfterServerFin, AfterClientFin;
  }

  lemma VerifyServerCertificateReads(p: Params, h: Side, e: Env)
    requires Ready(p, h) && h.at.state == VERIFY_SERVER_CERTIFICATE && HeadOk(p, h)
    ensures Reads(p, h, e, DoVerifyServerCertificate(h, e))
  {
    hide ClientFin, ClientFinBody, AfterNextProto, ServerFin, ServerFinBody, AfterVerify, AfterKeyExchange,
      AfterClientCertificate, AfterHelloDone, AfterRequest, AfterKeys, AfterStatus, AfterCertificate,
      AfterFullHello, AfterHello, AfterClientHello, Whole, AfterServerFin, AfterClientFin;
  }

  lemma ReadServerKeyExchangeReads(p: Params, h: Side, e: Env)
    requires Ready(p, h) && h.at.state == READ_SERVER_KEY_EXCHANGE && HeadOk(p, h)
    ensures Reads(p, h, e, DoReadServerKeyExchange(h, e))
  {
    hide ClientFin, ClientFinBody, AfterNextProto, ServerFin, ServerFinBody, AfterVerify, AfterKeyExchange,
      AfterClientCertificate, AfterHelloDone, AfterCertificate, AfterFullHello, AfterHello, AfterClientHello,
      Whole, AfterServerFin, AfterClientFin;
  }

  lemma ReadCertificateRequestReads(p: Params, h: Side, e: Env)
    requires Ready(p, h) && h.at.state == READ_CERTIFICATE_REQUEST && HeadOk(p, h)
    ensures Reads(p, h, e, DoReadCertificateRequest(h, e))
  {
    hide ClientFin, ClientFinBody, AfterNextProto, ServerFin, ServerFinBody, AfterVerify, AfterKeyExchange,
      AfterClientCertificate, AfterHelloDone, AfterStatus, AfterCertificate, AfterFullHello, AfterHello,
      AfterClientHello, Whole, AfterServerFin, AfterClientFin;
  }

  lemma ReadServerHelloDoneReads(p: Params, h: Side, e: Env)
    requires Ready(p, h) && h.at.state == READ_SERVER_HELLO_DONE && HeadOk(p, h)
    ensures Reads(p, h, e, DoReadServerHelloDone(h, e))
  {
    hide ClientFin, ClientFinBody, AfterNextProto, ServerFin, ServerFinBody, AfterVerify, AfterKeyExchange,
      AfterClientCertificate, AfterHelloDone, AfterKeys, AfterStatus, AfterCertificate, AfterFullHello,
      AfterHello, AfterClientHello, Whole, AfterServerFin, AfterClientFin;
  }

  lemma ReadSessionTicketReads(p: Params, h: Side, e: Env)
    requires Ready(p, h) && h.at.state == READ_SESSION_TICKET && HeadOk(p, h)
    ensures Reads(p, h, e, DoReadSessionTicket(h, e))
  {
    hide ClientFin, ClientFinBody, AfterNextProto, ServerFinBody, AfterVerify, AfterKeyExchange,
      AfterClientCertificate, AfterHelloDone, AfterRequest, AfterKeys, AfterStatus, AfterCertificate,
      AfterFullHello, AfterHello, AfterClientHello, Whole, AfterServerFin, AfterClientFin;
  }

  lemma ReadServerFinishedReads(p: Params, h: Side, e: Env)
    requires Ready(p, h) && h.at.state == READ_SERVER_FINISHED && HeadOk(p, h)
    ensures Reads(p, h, e, DoReadServerFinished(h, e))
  {
    hide ClientFin, ClientFinBody, AfterNextProto, ServerFin, ServerFinBody, AfterVerify, AfterKeyExchange,
      AfterClientCertificate, AfterHelloDone, AfterRequest, AfterKeys, AfterStatus, AfterCertificate,
      AfterFullHello, AfterHello, AfterClientHello, Whole;
  }

  lemma ReadClientHelloReads(p: Params, h: Side, e: Env)
    requires Ready(p, h) && h.at.state == READ_CLIENT_HELLO && HeadOk(p, h)
    ensures Reads(p, h, e, DoReadClientHello(h, e))
  {
    hide ClientFin, ClientFinBody, AfterNextProto, ServerFin, ServerFinBody, AfterVerify, AfterKeyExchange,
      AfterClientCertificate, AfterHelloDone, AfterRequest, AfterKeys, AfterStatus, AfterCertificate,
      AfterFullHello, AfterHello, AfterClientHello, AfterServerFin, AfterClientFin;
  }

  lemma SelectCertificateReads(p: Params, h: Side, e: Env)
    requires Ready(p, h) && h.at.state == SELECT_CERTIFICATE && HeadOk(p, h)
    ensures Reads(p, h, e, DoSelectCertificate(h, e))
  {
    hide ClientFin, ClientFinBody, AfterNextProto, ServerFin, ServerFinBody, AfterVerify, AfterKeyExchange,
      AfterClientCertificate, AfterHelloDone, AfterRequest, AfterKeys, AfterStatus, AfterCertificate,
      AfterFullHello, AfterHello, AfterClientHello, AfterServerFin, AfterClientFin;
  }

  lemma SelectParametersReads(p: Params, h: Side, e: Env)
    requires Ready(p, h) && h.at.state == SELECT_PARAMETERS && HeadOk(p, h)
    ensures Reads(p, h, e, DoSelectParameters(h, e))
  {
    hide ClientFin, ClientFinBody, AfterNextProto, ServerFin, ServerFinBody, AfterVerify, AfterKeyExchange,
      AfterClientCertificate, AfterHelloDone, AfterRequest, AfterKeys, AfterStatus, AfterCertificate,
      AfterFullHello, AfterHello, AfterClientHello, AfterServerFin, AfterClientFin;
  }

  lemma ReadClientCertificateReads(p: Params, h: Side, e: Env)
    requires Ready(p, h) && h.at.state == READ_CLIENT_CERTIFICATE && HeadOk(p, h)
    ensures Reads(p, h, e, DoReadClientCertificate(h, e))
  {
    hide ClientFin, ClientFinBody, AfterNextProto, ServerFin, ServerFinBody, AfterVerify, AfterKeyExchange,
      AfterClientCertificate, AfterRequest, AfterKeys, AfterStatus, AfterCertificate, AfterFullHello,
      AfterHello, AfterClientHello, Whole, AfterServerFin, AfterClientFin;
  }

  lemma VerifyClientCertificateReads(p: Params, h: Side, e: Env)
    requires Ready(p, h) && h.at.state == VERIFY_CLIENT_CERTIFICATE && HeadOk(p, h)
    ensures Reads(p, h, e, DoVerifyClientCertificate(h, e))
  {
    hide ClientFin, ClientFinBody, AfterNextProto, ServerFin, ServerFinBody, AfterVerify, AfterKeyExchange,
      AfterClientCertificate, AfterHelloDone, AfterRequest, AfterKeys, AfterStatus, AfterCertificate,
      AfterFullHello, AfterHello, AfterClientHello, Whole, AfterServerFin, AfterClientFin;
  }

  lemma ReadClientKeyExchangeReads(p: Params, h: Side, e: Env)
    requires Ready(p, h) && h.at.state == READ_CLIENT_KEY_EXCHANGE && HeadOk(p, h)
    ensures Reads(p, h, e, DoReadClientKeyExchange(h, e))
  {
    hide ClientFin, ClientFinBody, AfterNextProto, ServerFin, ServerFinBody, AfterVerify, AfterKeyExchange,
      AfterHelloDone, AfterRequest, AfterKeys, AfterStatus, AfterCertificate, AfterFullHello, AfterHello,
      AfterClientHello, Whole, AfterServerFin, AfterClientFin;
  }

  lemma ReadClientCertificateVerifyReads(p: Params, h: Side, e: Env)
    requires Ready(p, h) && h.at.state == READ_CLIENT_CERTIFICATE_VERIFY && HeadOk(p, h)
    ensures Reads(p, h, e, DoReadClientCertificateVerify(h, e))
  {
    hide ClientFin, ClientFinBody, AfterNextProto, ServerFin, ServerFinBody, AfterClientCertificate,
      AfterHelloDone, AfterRequest, AfterKeys, AfterStatus, AfterCertificate, AfterFullHello, AfterHello,
      AfterClientHello, Whole, AfterServerFin;
  }

  lemma ReadNextProtoReads(p: Params, h: Side, e: Env)
    requires Ready(p, h) && h.at.state == READ_NEXT_PROTO && HeadOk(p, h)
    ensures Reads(p, h, e, DoReadNextProto(h, e))
  {
    hide ClientFin, AfterNextProto, ServerFin, ServerFinBody, AfterVerify, AfterKeyExchange,
      AfterClientCertificate, AfterHelloDone, AfterRequest, AfterKeys, AfterStatus, AfterCertificate,
      AfterFullHello, AfterHello, AfterClientHello, Whole, AfterServerFin, AfterClientFin;
  }

  lemma ReadChannelIdReads(p: Params, h: Side, e: Env)
    requires Ready(p, h) && h.at.state == READ_CHANNEL_ID && HeadOk(p, h)
    ensures Reads(p, h, e, DoReadChannelId(h, e))
  {
    hide ClientFin, ClientFinBody, ServerFin, ServerFinBody, AfterVerify, AfterKeyExchange,
      AfterClientCertificate, AfterHelloDone, AfterRequest, AfterKeys, AfterStatus, AfterCertificate,
      AfterFullHello, AfterHello, AfterClientHello, Whole, AfterServerFin, AfterClientFin;
  }

  lemma ReadClientFinishedReads(p: Params, h: Side, e: Env)
    requires Ready(p, h) && h.at.state == READ_CLIENT_FINISHED && HeadOk(p, h)
    ensures Reads(p, h, e, DoReadClientFinished(h, e))
  {
    hide ClientFin, ClientFinBody, AfterNextProto, ServerFin, ServerFinBody, AfterVerify, AfterKeyExchange,
      AfterClientCertificate, AfterHelloDone, AfterRequest, AfterKeys, AfterStatus, AfterCertificate,
      AfterFullHello, AfterHello, AfterClientHello, Whole;
  }

  lemma StartConnectSpeaks(p: Params, h: Side, e: Env)
    requires Ready(p, h) && h.at.state == START_CONNECT
    ensures Speaks(p, h, e, DoStartConnect(h, e))
  {
    hide ClientFin, ClientFinBody, AfterNextProto, ServerFin, ServerFinBody, AfterVerify, AfterKeyExchange,
      AfterClientCertificate, AfterHelloDone, AfterRequest, AfterKeys, AfterStatus, AfterCertificate,
      AfterFullHello, AfterHello, AfterClientHello, AfterServerFin, AfterClientFin, Queue,
      AllGood;
    var r := DoStartConnect(h, e);
    if !Quiet(p, h, r) {
      var m := Plain(MT_CLIENT_HELLO, e.data);
      SpeechOne(p, false, h.talk, m);
      QueueOne(false, Hs(m), Rest(p, r.at));
      assert Says(p, h, r, [Hs(m)]);
    }
  }

  lemma SendClientCertificateSpeaks(p: Params, h: Side, e: Env)
    requires Ready(p, h) && h.at.state == SEND_CLIENT_CERTIFICATE
    ensures Speaks(p, h, e, DoSendClientCertificate(h, e))
  {
    hide ClientFin, ClientFinBody, AfterNextProto, ServerFin, ServerFinBody, AfterVerify, AfterKeyExchange,
      AfterClientCertificate, AfterRequest, AfterKeys, AfterStatus, AfterCertificate, AfterFullHello,
      AfterHello, AfterClientHello, Whole, AfterServerFin, AfterClientFin, Queue, AllGood;
    var r := DoSendClientCertificate(h, e);
    if !Quiet(p, h, r) {
      var m := Plain(MT_CERTIFICATE, ChainOf(h.who.cfg.hasCert, e.data));
      SpeechOne(p, false, FreeBuffer(h.talk, !h.who.cfg.hasCert), m);
      QueueOne(false, Hs(m), Rest(p, r.at));
      assert Says(p, h, r, [Hs(m)]);
    }
  }

  lemma SendClientKeyExchangeSpeaks(p: Params, h: Side, e: Env)
    requires Ready(p, h) && h.at.state == SEND_CLIENT_KEY_EXCHANGE
    ensures Speaks(p, h, e, DoSendClientKeyExchange(h, e))
  {
    hide ClientFin, ClientFinBody, AfterNextProto, ServerFin, ServerFinBody, AfterVerify, AfterKeyExchange,
      AfterHelloDone, AfterRequest, AfterKeys, AfterStatus, AfterCertificate, AfterFullHello, AfterHello,
      AfterClientHello, Whole, AfterServerFin, AfterClientFin, Queue, AllGood;
    var r := DoSendClientKeyExchange(h, e);
    if !Quiet(p, h, r) {
      var m := Plain(MT_CLIENT_KEY_EXCHANGE, e.data);
      SpeechOne(p, false, h.talk, m);
      QueueOne(false, Hs(m), Rest(p, r.at));
      assert Says(p, h, r, [Hs(m)]);
    }
  }

  lemma SendClientCertificateVerifySpeaks(p: Params, h: Side, e: Env)
    requires Ready(p, h) && h.at.state == SEND_CLIENT_CERTIFICATE_VERIFY
    ensures Speaks(p, h, e, DoSendClientCertificateVerify(h, e))
  {
    hide ClientFin, ClientFinBody, AfterNextProto, ServerFin, ServerFinBody, AfterClientCertificate,
      AfterHelloDone, AfterRequest, AfterKeys, AfterStatus, AfterCertificate, AfterFullHello, AfterHello,
      AfterClientHello, Whole, AfterServerFin, Queue, AllGood;
    var r := DoSendClientCertificateVerify(h, e);
    if !Quiet(p, h, r) {
      var m := Bound(MT_CERTIFICATE_VERIFY, false, h.talk.buffer.value);
      SpeechOne(p, false, h.talk, m);
      QueueOne(false, Hs(m), Rest(p, r.at));
      assert Says(p, h, r, [Hs(m)]);
    }
  }

  lemma SendServerHelloSpeaks(p: Params, h: Side, e: Env)
    requires Ready(p, h) && h.at.state == SEND_SERVER_HELLO
    ensures Speaks(p, h, e, DoSendServerHello(h, e))
  {
    hide ClientFin, ClientFinBody, AfterNextProto, ServerFin, ServerFinBody, AfterVerify, AfterKeyExchange,
      AfterClientCertificate, AfterHelloDone, AfterRequest, AfterKeys, AfterStatus, AfterCertificate,
      AfterFullHello, Whole, AfterClientFin, Queue, AllGood;
    var r := DoSendServerHello(h, e);
    if !Quiet(p, h, r) {
      var m := ServerHello(h.neg.hello, e.data);
      SpeechOne(p, true, h.talk, m);
      QueueOne(true, Hs(m), Rest(p, r.at));
      assert Says(p, h, r, [Hs(m)]);
    }
  }

  lemma SendServerKeyExchangeSpeaks(p: Params, h: Side, e: Env)
    requires Ready(p, h) && h.at.state == SEND_SERVER_KEY_EXCHANGE
    ensures Speaks(p, h, e, DoSendServerKeyExchange(h, e))
  {
    hide ClientFin, ClientFinBody, AfterNextProto, ServerFin, ServerFinBody, AfterVerify, AfterKeyExchange,
      AfterClientCertificate, AfterHelloDone, AfterRequest, AfterKeys, AfterCertificate, AfterFullHello,
      AfterHello, AfterClientHello, Whole, AfterServerFin, AfterClientFin, Queue, AllGood;
    var r := DoSendServerKeyExchange(h, e);
    if !Quiet(p, h, r) {
      var m := Plain(MT_SERVER_KEY_EXCHANGE, e.data);
      SpeechOne(p, true, h.talk, m);
      QueueOne(true, Hs(m), Rest(p, r.at));
      assert Says(p, h, r, [Hs(m)]);
    }
  }

  lemma SendServerCertificateSpeaks(p: Params, h: Side, e: Env)
    requires Ready(p, h) && h.at.state == SEND_SERVER_CERTIFICATE
    ensures Speaks(p, h, e, DoSendServerCertificate(h, e))
  {
    hide ClientFin, ClientFinBody, AfterNextProto, ServerFin, ServerFinBody, AfterVerify, AfterKeyExchange,
      AfterClientCertificate, AfterHelloDone, AfterRequest, AfterKeys, AfterStatus, AfterHello,
      AfterClientHello, Whole, AfterServerFin, AfterClientFin, Queue, AllGood, Speech;
    if !e.fail {
      var auth, status := CertAuth(h.neg.hello.cipher), h.neg.hello.status;
      var m1, m2 := Plain(MT_CERTIFICATE, ChainOf(true, e.data)), Plain(MT_CERTIFICATE_STATUS, e.data);
      var t := AddedIf(h.talk, auth, m1);
      SpeechIf(p, true, h.talk, auth, m1);
      SpeechIf(p, true, t, auth && status, m2);
      SpeechThen(p, true, h.talk, t, AddedIf(t, auth && status, m2), OneIf(auth, m1), OneIf(auth && status, m2));
      QueueIf(true, auth, m1, AfterCertificate(p));
      QueueIf(true, auth && status, m2, AfterStatus(p));
      QueueAppend(true, OneIf(auth, m1), OneIf(auth && status, m2), AfterStatus(p));
      assert Says(p, h, DoSendServerCertificate(h, e), OneIf(auth, m1) + OneIf(auth && status, m2));
    }
  }

  lemma SendServerHelloDoneSpeaks(p: Params, h: Side, e: Env)
    requires Ready(p, h) && h.at.state == SEND_SERVER_HELLO_DONE
    ensures Speaks(p, h, e, DoSendServerHelloDone(h, e))
  {
    hide ClientFin, ClientFinBody, AfterNextProto, ServerFin, ServerFinBody, AfterVerify, AfterKeyExchange,
      AfterClientCertificate, AfterHelloDone, AfterStatus, AfterCertificate, AfterFullHello, AfterHello,
      AfterClientHello, Whole, AfterServerFin, AfterClientFin, Queue, AllGood, Speech;
    if !e.fail {
      var m1, m2 := Plain(MT_CERTIFICATE_REQUEST, e.data), Plain(MT_SERVER_HELLO_DONE, []);
      var t := AddedIf(h.talk, p.asks, m1);
      SpeechIf(p, true, h.talk, p.asks, m1);
      SpeechOne(p, true, t, m2);
      SpeechThen(p, true, h.talk, t, Added(t, m2), OneIf(p.asks, m1), [Hs(m2)]);
      QueueIf(true, p.asks, m1, AfterRequest(p));
      QueueOne(true, Hs(m2), AfterHelloDone(p));
      QueueAppend(true, OneIf(p.asks, m1), [Hs(m2)], AfterHelloDone(p));
      assert Says(p, h, DoSendServerHelloDone(h, e), OneIf(p.asks, m1) + [Hs(m2)]);
    }
  }

  /** The NewSessionTicket and ChangeCipherSpec before the server's Finished. */
  lemma ServerFinSpeech(p: Params, t: Talk, data: seq<byte>) returns (items: seq<Item>)
    requires t.hash.Some? || t.buffer.Some?
    ensures Speech(p, true, t, CcsAdded(AddedIf(t, p.hello.ticket, Plain(MT_NEW_SESSION_TICKET, data))), items)
    ensures forall rest :: Queue(true, items, By(true, MT_FINISHED as int, rest)) == ServerFin(p, rest)
  {
    hide Queue, AllGood, Speech;
    var m := Plain(MT_NEW_SESSION_TICKET, data);
    var t1 := AddedIf(t, p.hello.ticket, m);
    SpeechIf(p, true, t, p.hello.ticket, m);
    SpeechSome(p, true, t, t1, OneIf(p.hello.ticket, m));
    SpeechCcs(p, true, t1);
    SpeechThen(p, true, t, t1, CcsAdded(t1), OneIf(p.hello.ticket, m), [Ccs]);
    items := OneIf(p.hello.ticket, m) + [Ccs];
    forall rest ensures Queue(true, items, By(true, MT_FINISHED as int, rest)) == ServerFin(p, rest) {
      var fin := By(true, MT_FINISHED as int, rest);
      QueueOne(true, Ccs, fin);
      QueueIf(true, p.hello.ticket, m, ServerFinBody(rest));
      QueueAppend(true, OneIf(p.hello.ticket, m), [Ccs], fin);
    }
  }

  lemma SpeechSome(p: Params, server: bool, t: Talk, r: Talk, items: seq<Item>)
    requires Speech(p, server, t, r, items)
    ensures r.hash.Some? || r.buffer.Some?
  {
  }

  /** The Finished closes a flight. */
  lemma FinishedSpeech(p: Params, server: bool, t: Talk, u: Talk, items: seq<Item>) returns (all: seq<Item>)
    requires Speech(p, server, t, u, items)
    ensures Speech(p, server, t, Added(u, Bound(MT_FINISHED, server, Transcript(u))), all)
    ensures forall rest :: Queue(server, all, rest) == Queue(server, items, By(server, MT_FINISHED as int, rest))
    ensures var fin := Bound(MT_FINISHED, server, Transcript(u)); Transcript(Added(u, fin)) == Transcript(u) + [fin]
  {
    hide Queue, AllGood, Speech;
    var fin := Bound(MT_FINISHED, server, Transcript(u));
    SpeechSome(p, server, t, u, items);
    SpeechOne(p, server, u, fin);
    SpeechThen(p, server, t, u, Added(u, fin), items, [Hs(fin)]);
    all := items + [Hs(fin)];
    forall rest ensures Queue(server, all, rest) == Queue(server, items, By(server, MT_FINISHED as int, rest)) {
      QueueOne(server, Hs(fin), rest);
      QueueAppend(server, items, [Hs(fin)], rest);
    }
  }

  lemma SendServerFinishedSpeaks(p: Params, h: Side, e: Env)
    requires Ready(p, h) && h.at.state == SEND_SERVER_FINISHED
    ensures Speaks(p, h, e, DoSendServerFinished(h, e))
  {
    hide ClientFin, ClientFinBody, AfterNextProto, ServerFin, ServerFinBody, AfterVerify, AfterKeyExchange,
      AfterClientCertificate, AfterHelloDone, AfterRequest, AfterKeys, AfterStatus, AfterCertificate,
      AfterFullHello, AfterHello, AfterClientHello, Whole, Queue, AllGood, Speech, Added,
      AddedIf, CcsAdded;
    if !e.fail {
      var u := CcsAdded(AddedIf(h.talk, h.neg.hello.ticket, Plain(MT_NEW_SESSION_TICKET, e.data)));
      var items := ServerFinSpeech(p, h.talk, e.data);
      var all := FinishedSpeech(p, true, h.talk, u, items);
      assert Says(p, h, DoSendServerFinished(h, e), all);
    }
  }

  lemma ClientFinSpeech(p: Params, t: Talk, data: seq<byte>) returns (items: seq<Item>)
    requires t.hash.Some? || t.buffer.Some?
    ensures Speech(p, false, t, BeforeFinished(t, p.hello, data), items)
    ensures forall rest :: Queue(false, items, By(false, MT_FINISHED as int, rest)) == ClientFin(p, rest)
  {
    hide Queue, AllGood, Speech;
    var m1 := Plain(MT_NEXT_PROTO, data);
    var t0 := CcsAdded(t);
    SpeechCcs(p, false, t);
    SpeechSome(p, false, t, t0, [Ccs]);
    var t1 := AddedIf(t0, p.hello.npn, m1);
    SpeechIf(p, false, t0, p.hello.npn, m1);
    SpeechThen(p, false, t, t0, t1, [Ccs], OneIf(p.hello.npn, m1));
    SpeechSome(p, false, t0, t1, OneIf(p.hello.npn, m1));
    var m2 := Bound(MT_CHANNEL_ID, false, Transcript(t1));
    SpeechIf(p, false, t1, p.hello.channelId, m2);
    SpeechThen(p, false, t, t1, AddedIf(t1, p.hello.channelId, m2), [Ccs] + OneIf(p.hello.npn, m1),
      OneIf(p.hello.channelId, m2));
    items := [Ccs] + OneIf(p.hello.npn, m1) + OneIf(p.hello.channelId, m2);
    forall rest ensures Queue(false, items, By(false, MT_FINISHED as int, rest)) == ClientFin(p, rest) {
      var fin := By(false, MT_FINISHED as int, rest);
      QueueIf(false, p.hello.channelId, m2, fin);
      QueueIf(false, p.hello.npn, m1, AfterNextProto(p, rest));
      QueueOne(false, Ccs, ClientFinBody(p, rest));
      QueueAppend(false, [Ccs] + OneIf(p.hello.npn, m1), OneIf(p.hello.channelId, m2), fin);
      QueueAppend(false, [Ccs], OneIf(p.hello.npn, m1), AfterNextProto(p, rest));
    }
  }

  lemma SendClientFinishedSpeaks(p: Params, h: Side, e: Env)
    requires Ready(p, h) && h.at.state == SEND_CLIENT_FINISHED
    ensures Speaks(p, h, e, DoSendClientFinished(h, e))
  {
    hide ClientFin, ClientFinBody, AfterNextProto, ServerFin, ServerFinBody, AfterVerify, AfterKeyExchange,
      AfterClientCertificate, AfterHelloDone, AfterRequest, AfterKeys, AfterStatus, AfterCertificate,
      AfterFullHello, AfterHello, AfterClientHello, Whole, AfterServerFin, AfterClientFin, Queue,
      AllGood, Speech, Added, AddedIf, CcsAdded, BeforeFinished;
    if !e.fail && !(h.neg.hello.channelId && e.retry) {
      var u := BeforeFinished(h.talk, h.neg.hello, e.data);
      var items := ClientFinSpeech(p, h.talk, e.data);
      var all := FinishedSpeech(p, false, h.talk, u, items);
      assert Says(p, h, DoSendClientFinished(h, e), all);
    }
  }

  /** What one turn of a machine may do to the conversation. */
  ghost predicate Follows(p: Params, h: Side, e: Env, r: Side) {
    && FlagsOk(p, r.at.state, r.neg, r.who) && (r.at.wait == Error ==> e.fail || h.at.wait == Error) && NotesOk(h, r)
    && (Quiet(p, h, r) || Takes(p, h, r) || exists items :: Says(p, h, r, items))
  }

  lemma MovesOn(p: Params, h: Side, e: Env)
    requires Ready(p, h)
    ensures h.at.state == ENTER_EARLY_DATA ==> Follows(p, h, e, Goto(h, READ_SERVER_HELLO))
    ensures h.at.state == START_ACCEPT ==> Follows(p, h, e, Goto(h, READ_CLIENT_HELLO))
    ensures h.at.state == READ_CLIENT_CCS ==> Follows(p, h, e, h.(at := At(PROCESS_CLIENT_CCS, ReadCcs)))
  {
    hide ClientFin, ClientFinBody, AfterNextProto, ServerFin, ServerFinBody, AfterVerify, AfterKeyExchange,
      AfterClientCertificate, AfterHelloDone, AfterRequest, AfterKeys, AfterStatus, AfterCertificate,
      AfterFullHello, AfterHello, AfterClientHello, Whole;
  }

  lemma FinishFlightFollows(p: Params, h: Side, e: Env)
    requires Ready(p, h) && h.at.state == FINISH_FLIGHT
    ensures Follows(p, h, e, DoFinishFlight(h, e))
  {
    hide ClientFin, ClientFinBody, AfterNextProto, ServerFin, ServerFinBody, AfterVerify, AfterKeyExchange,
      AfterClientCertificate, AfterHelloDone, AfterRequest, AfterKeys, AfterStatus, AfterCertificate,
      AfterFullHello, AfterHello, AfterClientHello, Whole;
  }

  lemma MovesToEnd(p: Params, h: Side, e: Env)
    requires Ready(p, h)
    ensures (h.at.state == FINISH_CLIENT_HANDSHAKE || h.at.state == FINISH_SERVER_HANDSHAKE) ==>
      Follows(p, h, e, DoFinishHandshake(h, e, h.at.state + 1))
    ensures (h.at.state == PROCESS_SERVER_CCS || h.at.state == PROCESS_CLIENT_CCS) && h.at.wait != ReadCcs ==>
      Follows(p, h, e, CipherRead(h, e, h.at.state + 1))
  {
    hide ClientFin, ClientFinBody, AfterNextProto, ServerFin, ServerFinBody, AfterVerify, AfterKeyExchange,
      AfterClientCertificate, AfterHelloDone, AfterRequest, AfterKeys, AfterStatus, AfterCertificate,
      AfterFullHello, AfterHello, AfterClientHello, Whole;
  }

  lemma ClientFollows(p: Params, h: Side, e: Env)
    requires SideOk(p, h) && HeadOk(p, h) && !h.who.server && !Finished(h) && h.at.wait != ReadCcs
    ensures Follows(p, h, e, DoClient(h, e))
  {
    hide DoStartConnect, DoReadServerHello, DoReadServerCertificate, DoReadCertificateStatus,
      DoVerifyServerCertificate, DoReadServerKeyExchange, DoReadCertificateRequest, DoReadServerHelloDone,
      DoSendClientCertificate, DoSendClientKeyExchange, DoSendClientCertificateVerify, DoSendClientFinished,
      DoFinishFlight, DoReadSessionTicket, DoReadServerFinished, CipherRead, DoFinishHandshake, Goto, SideOk, Ready,
      HeadOk, FlagsOk, NotesOk, Quiet, Takes, Says;
    SideState(p, h);
    SideIsReady(p, h);
    var st := h.at.state;
    if st == START_CONNECT { StartConnectSpeaks(p, h, e); }
    else if st == READ_SERVER_HELLO { ReadServerHelloReads(p, h, e); }
    else if st == READ_SERVER_CERTIFICATE { ReadServerCertificateReads(p, h, e); }
    else if st == READ_CERTIFICATE_STATUS { ReadCertificateStatusReads(p, h, e); }
    else if st == VERIFY_SERVER_CERTIFICATE { VerifyServerCertificateReads(p, h, e); }
    else if st == READ_SERVER_KEY_EXCHANGE { ReadServerKeyExchangeReads(p, h, e); }
    else if st == READ_CERTIFICATE_REQUEST { ReadCertificateRequestReads(p, h, e); }
    else if st == READ_SERVER_HELLO_DONE { ReadServerHelloDoneReads(p, h, e); }
    else if st == SEND_CLIENT_CERTIFICATE { SendClientCertificateSpeaks(p, h, e); }
    else if st == SEND_CLIENT_KEY_EXCHANGE { SendClientKeyExchangeSpeaks(p, h, e); }
    else if st == SEND_CLIENT_CERTIFICATE_VERIFY { SendClientCertificateVerifySpeaks(p, h, e); }
    else if st == SEND_CLIENT_FINISHED { SendClientFinishedSpeaks(p, h, e); }
    else if st == READ_SESSION_TICKET { ReadSessionTicketReads(p, h, e); }
    else if st == READ_SERVER_FINISHED { ReadServerFinishedReads(p, h, e); }
    else if st == FINISH_FLIGHT { FinishFlightFollows(p, h, e); }
    else { MovesOn(p, h, e); MovesToEnd(p, h, e); }
  }

  lemma ServerFollows(p: Params, h: Side, e: Env)
    requires SideOk(p, h) && HeadOk(p, h) && h.who.server && !Finished(h) && h.at.wait != ReadCcs
    ensures Follows(p, h, e, DoServer(h, e))
  {
    hide DoReadClientHello, DoSelectCertificate, DoSelectParameters, DoSendServerHello,
      DoSendServerCertificate, DoSendServerKeyExchange, DoSendServerHelloDone, DoReadClientCertificate,
      DoVerifyClientCertificate, DoReadClientKeyExchange, DoReadClientCertificateVerify, DoReadNextProto,
      DoReadChannelId, DoReadClientFinished, DoSendServerFinished, CipherRead, DoFinishHandshake, Goto,
      SideOk, HeadOk, FlagsOk, NotesOk, Quiet, Takes, Says;
    SideState(p, h);
    SideIsReady(p, h);
    var st := h.at.state;
    if st == READ_CLIENT_HELLO { ReadClientHelloReads(p, h, e); }
    else if st == SELECT_CERTIFICATE { SelectCertificateReads(p, h, e); }
    else if st == SELECT_PARAMETERS { SelectParametersReads(p, h, e); }
    else if st == SEND_SERVER_HELLO { SendServerHelloSpeaks(p, h, e); }
    else if st == SEND_SERVER_CERTIFICATE { SendServerCertificateSpeaks(p, h, e); }
    else if st == SEND_SERVER_KEY_EXCHANGE { SendServerKeyExchangeSpeaks(p, h, e); }
    else if st == SEND_SERVER_HELLO_DONE { SendServerHelloDoneSpeaks(p, h, e); }
    else if st == READ_CLIENT_CERTIFICATE { ReadClientCertificateReads(p, h, e); }
    else if st == VERIFY_CLIENT_CERTIFICATE { VerifyClientCertificateReads(p, h, e); }
    else if st == READ_CLIENT_KEY_EXCHANGE { ReadClientKeyExchangeReads(p, h, e); }
    else if st == READ_CLIENT_CERTIFICATE_VERIFY { ReadClientCertificateVerifyReads(p, h, e); }
    else if st == READ_NEXT_PROTO { ReadNextProtoReads(p, h, e); }
    else if st == READ_CHANNEL_ID { ReadChannelIdReads(p, h, e); }
    else if st == READ_CLIENT_FINISHED { ReadClientFinishedReads(p, h, e); }
    else if st == SEND_SERVER_FINISHED { SendServerFinishedSpeaks(p, h, e); }
    else { MovesOn(p, h, e); MovesToEnd(p, h, e); }
  }

  lemma SideState(p: Params, h: Side)
    requires SideOk(p, h)
    ensures Known(h.at.state) && h.who.server == IsServerState(h.at.state)
  {
    hide FirstMarks;
  }

  // ---- a turn

  predicate WaitOk(at: At) {
    at.wait == ReadCcs ==> at.state == PROCESS_SERVER_CCS || at.state == PROCESS_CLIENT_CCS
  }

  lemma ArrivedCcs(p: Params, h: Side)
    requires SideOk(p, h) && HeadOk(p, h) && WaitOk(h.at) && h.at.wait == ReadCcs && h.talk.inbox != []
    ensures h.talk.inbox[0].Ccs?
    ensures var r := CcsTaken(h); SideOk(p, r) && Takes(p, h, r) && WaitOk(r.at)
  {
    hide FirstMarks, HashOk, BufferOk;
    if h.talk.inbox[0].Ccs? { Rewaits(h, h.talk.inbox[1..], Ok); }
    assert Transcript(h.talk) + [] == Transcript(h.talk);
  }

  lemma AfterCcs(p: Params, h: Side, e: Env)
    requires Ready(p, h) && h.at.wait != ReadCcs
    requires h.at.state == PROCESS_SERVER_CCS || h.at.state == PROCESS_CLIENT_CCS
    ensures var r := Do(h, e);
      Quiet(p, h, r) && FlagsOk(p, r.at.state, r.neg, r.who) && (r.at.wait == Error ==> e.fail) && NotesOk(h, r)
  {
    hide ClientFin, ClientFinBody, AfterNextProto, ServerFin, ServerFinBody, AfterVerify, AfterKeyExchange,
      AfterClientCertificate, AfterHelloDone, AfterRequest, AfterKeys, AfterStatus, AfterCertificate,
      AfterFullHello, AfterHello, AfterClientHello, Whole, AfterServerFin, AfterClientFin, FirstMarks,
      HashOk, BufferOk;
  }

  lemma DoWaits(h: Side, e: Env)
    requires !Finished(h) && h.at.wait != ReadCcs
    ensures WaitOk(Do(h, e).at)
  {
    if h.who.server { ServerWaits(h, e); } else { ClientWaits(h, e); }
  }

  lemma ClientWaits(h: Side, e: Env)
    requires h.at.wait != ReadCcs
    ensures WaitOk(DoClient(h, e).at)
  {
  }

  lemma ServerWaits(h: Side, e: Env)
    requires h.at.wait != ReadCcs
    ensures WaitOk(DoServer(h, e).at)
  {
  }

  lemma TakesThenQuiet(p: Params, h: Side, m: Side, r: Side)
    requires Takes(p, h, m) && Quiet(p, m, r) && m.notes == h.notes && NotesOk(m, r)
    ensures Takes(p, h, r) && NotesOk(h, r)
  {
    hide Rest, EndsInKey, EndsInClientFin;
  }

  /** A turn reads the next item of the script, says the next ones, or leaves the conversation alone. It fails only
      where the environment makes it fail: the peer's messages, Finished and signatures are always right. */
  lemma TurnFollows(p: Params, h: Side, e: Env)
    requires SideOk(p, h) && HeadOk(p, h) && WaitOk(h.at) && !Finished(h)
    ensures var r := Turn(h, e); Follows(p, h, e, r) && SideOk(p, r) && WaitOk(r.at) && r.who == h.who
  {
    hide HeadOk, FlagsOk, EndsInKey, EndsInClientFin, Rest, Quiet, Takes, Says, Local, Moves, DoClient, DoServer,
      HashOk, BufferOk, WaitOk;
    if h.at.wait == Error {
      SameIsQuiet(p, h);
    } else if h.at.wait == ReadCcs {
      if h.talk.inbox == [] {
        SameIsQuiet(p, h);
      } else {
        ArrivedCcs(p, h);
        var m := CcsTaken(h);
        MustProcess(h);
        SideIsReady(p, m);
        SideState(p, m);
        AfterCcs(p, m, e);
        StepMovesOrWaits(m, e);
        TakesThenQuiet(p, h, m, Do(m, e));
        DoWaits(m, e);
        KeepsWho(m, e);
      }
    } else {
      if h.who.server { ServerFollows(p, h, e); } else { ClientFollows(p, h, e); }
      StepMovesOrWaits(h, e);
      DoWaits(h, e);
      KeepsWho(h, e);
    }
  }

  lemma SameIsQuiet(p: Params, h: Side)
    requires SideOk(p, h)
    ensures Quiet(p, h, h) && FlagsOk(p, h.at.state, h.neg, h.who) && NotesOk(h, h)
  {
    hide Local, Rest, FlagsOk, EndsInKey, EndsInClientFin;
  }

  lemma MustProcess(h: Side)
    requires WaitOk(h.at) && h.at.wait == ReadCcs
    ensures h.at.state == PROCESS_SERVER_CCS || h.at.state == PROCESS_CLIENT_CCS
  {
  }

  lemma KeepsWho(h: Side, e: Env)
    requires Local(h) && !Finished(h)
    ensures Do(h, e).who == h.who
  {
    hide Local, Do;
    StepMovesOrWaits(h, e);
  }

  // ---- the pair

  /** Both sides, and what is on the way to each. */
  datatype Pair = Pair(c: Side, s: Side, toC: seq<Item>, toS: seq<Item>)

  datatype Act = StepC(e: Env) | StepS(e: Env) | ArriveC | ArriveS

  function Received(h: Side, i: Item): Side {
    h.(talk := h.talk.(inbox := h.talk.inbox + [i]))
  }

  function Step(h: Side, e: Env): Side {
    if Finished(h) then h else Turn(h, e)
  }

  /** What a step queued. */
  function Fresh(h: Side, r: Side): seq<Item> {
    if |r.talk.sent| >= |h.talk.sent| then r.talk.sent[|h.talk.sent|..] else []
  }

  function DoPair(w: Pair, a: Act): Pair {
    match a
    case StepC(e) => var r := Step(w.c, e); w.(c := r, toS := w.toS + Fresh(w.c, r))
    case StepS(e) => var r := Step(w.s, e); w.(s := r, toC := w.toC + Fresh(w.s, r))
    case ArriveC => if w.toC == [] then w else w.(c := Received(w.c, w.toC[0]), toC := w.toC[1..])
    case ArriveS => if w.toS == [] then w else w.(s := Received(w.s, w.toS[0]), toS := w.toS[1..])
  }

  function ExecPair(w: Pair, acts: seq<Act>): Pair
    decreases |acts|
  {
    if acts == [] then w else ExecPair(DoPair(w, acts[0]), acts[1..])
  }

  function StartPair(server: Config, client: Config): Pair {
    Pair(Client(client), Server(server), [], [])
  }

  /** The reader has u still to read: then it stands where the leader stands, in the script and in the transcript. */
  predicate Ahead(p: Params, leader: Side, reader: Side, u: seq<Item>) {
    && Rest(p, reader.at) == Queue(leader.who.server, u, Rest(p, leader.at))
    && Transcript(leader.talk) == Transcript(reader.talk) + Msgs(u)
    && AllGood(p, leader.who.server, u, Transcript(reader.talk))
  }

  /** Only one side has anything unread. */
  predicate Linked(p: Params, a: Side, b: Side, forA: seq<Item>, forB: seq<Item>) {
    (forB == [] && Ahead(p, b, a, forA)) || (forA == [] && Ahead(p, a, b, forB))
  }

  /** One side is all right and linked to the other. */
  predicate Half(p: Params, a: Side, b: Side, toA: seq<Item>, toB: seq<Item>) {
    && SideOk(p, a) && WaitOk(a.at) && a.who.server != b.who.server && Tally(p, a) && NotesOf(a)
    && Linked(p, a, b, a.talk.inbox + toA, b.talk.inbox + toB)
  }

  predicate Inv(p: Params, w: Pair) {
    Half(p, w.c, w.s, w.toC, w.toS) && Half(p, w.s, w.c, w.toS, w.toC) && !w.c.who.server
  }

  lemma LinkedBothWays(p: Params, a: Side, b: Side, forA: seq<Item>, forB: seq<Item>)
    ensures Linked(p, a, b, forA, forB) == Linked(p, b, a, forB, forA)
  {
    hide Ahead;
  }

  lemma HeadIsGood(p: Params, a: Side, b: Side, forA: seq<Item>, forB: seq<Item>)
    requires Linked(p, a, b, forA, forB) && a.who.server != b.who.server && forA != []
    ensures Rest(p, a.at).Then? && Rest(p, a.at).tok == TokOf(!a.who.server, forA[0])
    ensures GoodItem(p, !a.who.server, forA[0], Transcript(a.talk))
  {
    hide Rest, GoodItem, Msgs;
  }

  lemma LinkedRead(p: Params, a: Side, b: Side, r: Side, forA: seq<Item>, forB: seq<Item>)
    requires Linked(p, a, b, forA, forB) && a.who.server != b.who.server && forA != []
    requires Rest(p, a.at) == Then(TokOf(!a.who.server, forA[0]), Rest(p, r.at))
    requires Transcript(r.talk) == Transcript(a.talk) + MsgsOf(forA[0])
    ensures Linked(p, r, b, forA[1..], forB)
  {
    hide Rest, GoodItem, MsgsOf;
    assert Transcript(a.talk) + (MsgsOf(forA[0]) + Msgs(forA[1..])) ==
      Transcript(a.talk) + MsgsOf(forA[0]) + Msgs(forA[1..]);
  }

  lemma NothingUnread(p: Params, a: Side, b: Side, forA: seq<Item>, forB: seq<Item>, items: seq<Item>, rest: Script)
    requires Linked(p, a, b, forA, forB) && a.who.server != b.who.server && items != []
    requires Rest(p, a.at) == Queue(a.who.server, items, rest)
    ensures forA == []
  {
    hide Rest, GoodItem, Msgs;
    if forA != [] { HeadIsGood(p, a, b, forA, forB); }
  }

  lemma LinkedSaid(p: Params, a: Side, b: Side, r: Side, forA: seq<Item>, forB: seq<Item>, items: seq<Item>)
    requires Linked(p, a, b, forA, forB) && a.who.server != b.who.server && r.who == a.who
    requires Says(p, a, r, items)
    ensures Linked(p, r, b, forA, forB + items)
  {
    hide Rest, GoodItem;
    if items == [] {
      assert forB + items == forB;
      assert Transcript(a.talk) + [] == Transcript(a.talk);
    } else {
      NothingUnread(p, a, b, forA, forB, items, Rest(p, r.at));
      FromLinked(p, a, b, forB);
      QueueAppend(a.who.server, forB, items, Rest(p, r.at));
      MsgsAppend(forB, items);
      GoodAppend(p, a.who.server, forB, items, Transcript(b.talk));
      assert Transcript(b.talk) + Msgs(forB) + Msgs(items) == Transcript(b.talk) + (Msgs(forB) + Msgs(items));
    }
  }

  lemma FromLinked(p: Params, a: Side, b: Side, forB: seq<Item>)
    requires Linked(p, a, b, [], forB)
    ensures Ahead(p, a, b, forB)
  {
    hide Rest;
    if forB == [] {
      assert Transcript(a.talk) + [] == Transcript(a.talk) && Transcript(b.talk) + [] == Transcript(b.talk);
    }
  }

  lemma LinkedQuiet(p: Params, a: Side, b: Side, r: Side, forA: seq<Item>, forB: seq<Item>)
    requires Linked(p, a, b, forA, forB) && r.who == a.who && Quiet(p, a, r)
    ensures Linked(p, r, b, forA, forB)
  {
    hide Rest, Queue, AllGood;
  }

  // ---- each honest message once

  /** A ClientKeyExchange, or else the client's Finished. */
  predicate Hit(key: bool, m: Msg) {
    if key then IsKey(m) else IsClientFin(m)
  }

  function Count(key: bool, t: seq<Msg>): nat {
    if t == [] then 0 else (if Hit(key, t[0]) then 1 else 0) + Count(key, t[1..])
  }

  predicate TokHit(key: bool, tok: Tok) {
    if key then tok.what == MT_CLIENT_KEY_EXCHANGE as int else tok == Tok(false, MT_FINISHED as int)
  }

  function Left(key: bool, s: Script): nat {
    if s == End then 0 else (if TokHit(key, s.tok) then 1 else 0) + Left(key, s.rest)
  }

  lemma {:induction false} CountAppend(key: bool, a: seq<Msg>, b: seq<Msg>)
    ensures Count(key, a + b) == Count(key, a) + Count(key, b)
    decreases |a|
  {
    if a == [] {
      assert a + b == b;
    } else {
      CountAppend(key, a[1..], b);
      assert (a + b)[1..] == a[1..] + b;
    }
  }

  /** An honest item counts as the token it stands for. */
  lemma ItemCounts(key: bool, p: Params, server: bool, i: Item, base: seq<Msg>)
    requires GoodItem(p, server, i, base)
    ensures Count(key, MsgsOf(i)) == if TokHit(key, TokOf(server, i)) then 1 else 0
  {
    if i.Hs? {
      var one := [i.m];
      assert one[1..] == [] && Count(key, one) == (if Hit(key, i.m) then 1 else 0) + Count(key, one[1..]);
    }
  }

  lemma {:induction false} QueueCounts(key: bool, p: Params, server: bool, u: seq<Item>, base: seq<Msg>, rest: Script)
    requires AllGood(p, server, u, base)
    ensures Left(key, Queue(server, u, rest)) == Count(key, Msgs(u)) + Left(key, rest)
    decreases |u|
  {
    hide GoodItem, TokHit, Hit;
    if u != [] {
      ItemCounts(key, p, server, u[0], base);
      CountAppend(key, MsgsOf(u[0]), Msgs(u[1..]));
      QueueCounts(key, p, server, u[1..], base + MsgsOf(u[0]), rest);
    }
  }

  lemma OptLeft(key: bool, b: bool, server: bool, what: nat, rest: Script)
    ensures Left(key, Opt(b, server, what, rest)) ==
      (if b && TokHit(key, Tok(server, what)) then 1 else 0) + Left(key, rest)
  {
  }

  lemma FlightsLeft(key: bool, p: Params, rest: Script)
    ensures Left(key, ServerFin(p, rest)) == Left(key, rest)
    ensures Left(key, ClientFin(p, rest)) == (if key then 0 else 1) + Left(key, rest)
  {
    hide Opt;
    var fin := By(true, MT_FINISHED as int, rest);
    assert Left(key, ServerFinBody(rest)) == Left(key, fin) == Left(key, rest);
    OptLeft(key, p.hello.ticket, true, MT_NEW_SESSION_TICKET as int, ServerFinBody(rest));
    OptLeft(key, p.hello.channelId, false, MT_CHANNEL_ID as int, By(false, MT_FINISHED as int, rest));
    OptLeft(key, p.hello.npn, false, MT_NEXT_PROTO as int, AfterNextProto(p, rest));
    assert Left(key, ClientFin(p, rest)) == Left(key, ClientFinBody(p, rest));
  }

  lemma FullLeft(key: bool, p: Params)
    ensures Left(key, AfterFullHello(p)) == 1
  {
    hide Opt, ClientFin, ServerFin;
    FlightsLeft(key, p, ServerFin(p, End));
    FlightsLeft(key, p, End);
    OptLeft(key, p.asks && p.hasCert, false, MT_CERTIFICATE_VERIFY as int, AfterVerify(p));
    assert Left(key, AfterClientCertificate(p)) == (if key then 1 else 0) + Left(key, AfterKeyExchange(p));
    OptLeft(key, p.asks, false, MT_CERTIFICATE as int, AfterClientCertificate(p));
    assert Left(key, AfterRequest(p)) == Left(key, AfterHelloDone(p));
    OptLeft(key, p.asks, true, MT_CERTIFICATE_REQUEST as int, AfterRequest(p));
    OptLeft(key, p.ske, true, MT_SERVER_KEY_EXCHANGE as int, AfterKeys(p));
    OptLeft(key, p.hello.status, true, MT_CERTIFICATE_STATUS as int, AfterStatus(p));
    OptLeft(key, CertAuth(p.hello.cipher), true, MT_CERTIFICATE as int, AfterCertificate(p));
  }

  lemma WholeLeft(key: bool, p: Params)
    ensures Left(key, Whole(p)) <= 1
  {
    hide ClientFin, ServerFin, AfterFullHello;
    FullLeft(key, p);
    FlightsLeft(key, p, ClientFin(p, End));
    FlightsLeft(key, p, End);
    assert Left(key, Whole(p)) == Left(key, AfterClientHello(p)) == Left(key, AfterHello(p));
  }

  /** Transcript and script together always hold the same number. */
  predicate Tally(p: Params, h: Side) {
    forall key: bool :: Count(key, Transcript(h.talk)) + Left(key, Rest(p, h.at)) == Left(key, Whole(p))
  }

  lemma TallyKept(p: Params, h: Side, r: Side, u: seq<Item>, server: bool)
    requires Tally(p, h) && Transcript(r.talk) == Transcript(h.talk) + Msgs(u)
    requires Rest(p, h.at) == Queue(server, u, Rest(p, r.at)) && AllGood(p, server, u, Transcript(h.talk))
    ensures Tally(p, r)
  {
    hide Rest, Queue, Msgs, AllGood, Whole;
    forall key: bool ensures Count(key, Transcript(r.talk)) + Left(key, Rest(p, r.at)) == Left(key, Whole(p)) {
      QueueCounts(key, p, server, u, Transcript(h.talk), Rest(p, r.at));
      CountAppend(key, Transcript(h.talk), Msgs(u));
      assert Count(key, Transcript(h.talk)) + Left(key, Rest(p, h.at)) == Left(key, Whole(p));
    }
  }

  // ---- notes are about the transcript so far

  predicate NotesOf(h: Side) {
    var t := Transcript(h.talk);
    && (h.notes.master.Some? ==> h.notes.master.value <= t && EndsInKey(h.notes.master.value))
    && (h.notes.original.Some? ==> h.notes.original.value <= t && EndsInClientFin(h.notes.original.value))
  }

  lemma NotesKept(h: Side, r: Side, more: seq<Msg>)
    requires NotesOf(h) && NotesOk(h, r) && Transcript(r.talk) == Transcript(h.talk) + more
    ensures NotesOf(r)
  {
    hide EndsInKey, EndsInClientFin;
  }

  lemma OnlyOnePrefix(key: bool, x: seq<Msg>, y: seq<Msg>, t: seq<Msg>)
    requires x <= t && y <= t && Count(key, t) <= 1 && x != [] && y != []
    requires Hit(key, x[|x| - 1]) && Hit(key, y[|y| - 1])
    ensures x == y
  {
    hide Hit;
    if |x| < |y| { TwoHits(key, x, y, t); } else if |y| < |x| { TwoHits(key, y, x, t); }
  }

  lemma TwoHits(key: bool, x: seq<Msg>, y: seq<Msg>, t: seq<Msg>)
    requires x <= t && y <= t && |x| < |y| && x != []
    requires Hit(key, x[|x| - 1]) && Hit(key, y[|y| - 1])
    ensures Count(key, t) >= 2
  {
    hide Hit;
    LastCounts(key, x);
    var rest := y[|x|..];
    LastCounts(key, rest);
    assert y == x + rest && t == y + t[|y|..];
    CountAppend(key, x, rest);
    CountAppend(key, y, t[|y|..]);
  }

  lemma LastCounts(key: bool, x: seq<Msg>)
    requires x != [] && Hit(key, x[|x| - 1])
    ensures Count(key, x) >= 1
  {
    hide Hit;
    var one := [x[|x| - 1]];
    assert x == x[..|x| - 1] + one && one[1..] == [];
    assert Count(key, one) == 1;
    CountAppend(key, x[..|x| - 1], one);
  }

  // ---- every step of the pair

  /** What one side's turn does to the pair, seen from that side. */
  lemma StepKeeps(p: Params, a: Side, b: Side, toA: seq<Item>, toB: seq<Item>, e: Env)
    requires Half(p, a, b, toA, toB)
    ensures Half(p, Step(a, e), b, toA, toB + Fresh(a, Step(a, e))) && Step(a, e).who == a.who
    ensures Step(a, e).at.wait == Error ==> e.fail || a.at.wait == Error
  {
    hide SideOk, Tally, NotesOf, Linked, Turn, Rest, Says, Takes, Quiet, WaitOk, FlagsOk, NotesOk;
    var forA, forB := a.talk.inbox + toA, b.talk.inbox + toB;
    var r := Step(a, e);
    if Finished(a) {
      NothingFresh(a, toB);
    } else {
      ReadyHead(p, a, b, toA, forB);
      TurnFollows(p, a, e);
      if Quiet(p, a, r) {
        QuietKeeps(p, a, b, r, toA, toB, forB);
      } else if Takes(p, a, r) {
        TakesKeeps(p, a, b, r, toA, toB, forB);
      } else {
        var items :| Says(p, a, r, items);
        SaysKeeps(p, a, b, r, toA, toB, items);
      }
    }
  }

  lemma NothingFresh(a: Side, toB: seq<Item>)
    ensures toB + Fresh(a, a) == toB
  {
  }

  lemma ReadyHead(p: Params, a: Side, b: Side, toA: seq<Item>, forB: seq<Item>)
    requires Linked(p, a, b, a.talk.inbox + toA, forB) && a.who.server != b.who.server
    ensures HeadOk(p, a)
  {
    hide Linked, Rest, GoodItem;
    if a.talk.inbox != [] {
      HeadIsGood(p, a, b, a.talk.inbox + toA, forB);
      assert (a.talk.inbox + toA)[0] == a.talk.inbox[0];
    }
  }

  lemma QuietKeeps(p: Params, a: Side, b: Side, r: Side, toA: seq<Item>, toB: seq<Item>, forB: seq<Item>)
    requires Linked(p, a, b, a.talk.inbox + toA, forB) && Tally(p, a) && NotesOf(a) && forB == b.talk.inbox + toB
    requires Quiet(p, a, r) && NotesOk(a, r) && r.who == a.who
    ensures Linked(p, r, b, r.talk.inbox + toA, b.talk.inbox + (toB + Fresh(a, r))) && Tally(p, r) && NotesOf(r)
  {
    hide Linked, Rest, NotesOf, NotesOk;
    LinkedQuiet(p, a, b, r, a.talk.inbox + toA, forB);
    assert Transcript(r.talk) == Transcript(a.talk) + [];
    NotesKept(a, r, []);
    assert toB + Fresh(a, r) == toB;
  }

  lemma TakesKeeps(p: Params, a: Side, b: Side, r: Side, toA: seq<Item>, toB: seq<Item>, forB: seq<Item>)
    requires Linked(p, a, b, a.talk.inbox + toA, forB) && Tally(p, a) && NotesOf(a) && forB == b.talk.inbox + toB
    requires a.who.server != b.who.server && Takes(p, a, r) && NotesOk(a, r) && r.who == a.who
    ensures Linked(p, r, b, r.talk.inbox + toA, b.talk.inbox + (toB + Fresh(a, r))) && Tally(p, r) && NotesOf(r)
  {
    hide Linked, Rest, NotesOf, NotesOk, Tally, GoodItem;
    var forA := a.talk.inbox + toA;
    assert forA[0] == a.talk.inbox[0] && forA[1..] == r.talk.inbox + toA;
    HeadIsGood(p, a, b, forA, forB);
    LinkedRead(p, a, b, r, forA, forB);
    NotesKept(a, r, MsgsOf(forA[0]));
    var one := [forA[0]];
    assert one[1..] == [] && Msgs(one) == MsgsOf(forA[0]) + Msgs(one[1..]) == MsgsOf(forA[0]);
    QueueOne(!a.who.server, forA[0], Rest(p, r.at));
    assert AllGood(p, !a.who.server, one, Transcript(a.talk)) by {
      assert AllGood(p, !a.who.server, one[1..], Transcript(a.talk) + MsgsOf(forA[0]));
    }
    TallyKept(p, a, r, one, !a.who.server);
    assert toB + Fresh(a, r) == toB;
  }

  lemma SaysKeeps(p: Params, a: Side, b: Side, r: Side, toA: seq<Item>, toB: seq<Item>, items: seq<Item>)
    requires Linked(p, a, b, a.talk.inbox + toA, b.talk.inbox + toB) && Tally(p, a) && NotesOf(a)
    requires a.who.server != b.who.server && Says(p, a, r, items) && NotesOk(a, r) && r.who == a.who
    ensures Linked(p, r, b, r.talk.inbox + toA, b.talk.inbox + (toB + Fresh(a, r))) && Tally(p, r) && NotesOf(r)
  {
    hide Linked, Rest, NotesOf, NotesOk, Tally;
    LinkedSaid(p, a, b, r, a.talk.inbox + toA, b.talk.inbox + toB, items);
    NotesKept(a, r, Msgs(items));
    TallyKept(p, a, r, items, a.who.server);
    assert Fresh(a, r) == items;
    assert b.talk.inbox + toB + items == b.talk.inbox + (toB + items);
  }

  /** The other side's half only sees its queue grow. */
  lemma OtherHalf(p: Params, a: Side, b: Side, r: Side, toA: seq<Item>, toB: seq<Item>, toB': seq<Item>)
    requires Half(p, b, a, toB, toA) && Half(p, r, b, toA, toB') && r.who == a.who
    ensures Half(p, b, r, toB', toA)
  {
    hide SideOk, Tally, NotesOf, Linked, WaitOk;
    LinkedBothWays(p, r, b, r.talk.inbox + toA, b.talk.inbox + toB');
  }

  lemma ArriveKeeps(p: Params, a: Side, b: Side, toA: seq<Item>, toB: seq<Item>)
    requires Half(p, a, b, toA, toB) && Half(p, b, a, toB, toA) && toA != []
    ensures Half(p, Received(a, toA[0]), b, toA[1..], toB) && Half(p, b, Received(a, toA[0]), toB, toA[1..])
  {
    hide Tally, NotesOf, Linked, Local;
    var r := Received(a, toA[0]);
    Rewaits(a, a.talk.inbox + [toA[0]], a.at.wait);
    assert a.talk.inbox + toA == r.talk.inbox + toA[1..];
    ReceivedSame(p, a, b, r, a.talk.inbox + toA, b.talk.inbox + toB);
    LinkedBothWays(p, r, b, r.talk.inbox + toA[1..], b.talk.inbox + toB);
  }

  lemma ReceivedSame(p: Params, a: Side, b: Side, r: Side, forA: seq<Item>, forB: seq<Item>)
    requires Linked(p, a, b, forA, forB) && Tally(p, a) && NotesOf(a)
    requires r == a.(talk := r.talk) && Transcript(r.talk) == Transcript(a.talk)
    ensures Linked(p, r, b, forA, forB) && Tally(p, r) && NotesOf(r)
  {
    hide Rest, Queue, AllGood, Msgs;
  }

  lemma PairStepKeeps(p: Params, w: Pair, a: Act)
    requires Inv(p, w)
    ensures Inv(p, DoPair(w, a))
    ensures DoPair(w, a).c.at.wait == Error ==> w.c.at.wait == Error || (a.StepC? && a.e.fail)
    ensures DoPair(w, a).s.at.wait == Error ==> w.s.at.wait == Error || (a.StepS? && a.e.fail)
  {
    hide Half, Step, Fresh;
    match a
    case StepC(e) =>
      StepKeeps(p, w.c, w.s, w.toC, w.toS, e);
      OtherHalf(p, w.c, w.s, Step(w.c, e), w.toC, w.toS, w.toS + Fresh(w.c, Step(w.c, e)));
    case StepS(e) =>
      StepKeeps(p, w.s, w.c, w.toS, w.toC, e);
      OtherHalf(p, w.s, w.c, Step(w.s, e), w.toS, w.toC, w.toC + Fresh(w.s, Step(w.s, e)));
    case ArriveC => if w.toC != [] { ArriveKeeps(p, w.c, w.s, w.toC, w.toS); }
    case ArriveS => if w.toS != [] { ArriveKeeps(p, w.s, w.c, w.toS, w.toC); }
  }

  predicate Failing(a: Act) {
    (a.StepC? || a.StepS?) && a.e.fail
  }

  lemma {:induction false} PairRunKeeps(p: Params, w: Pair, acts: seq<Act>)
    requires Inv(p, w)
    ensures Inv(p, ExecPair(w, acts))
    ensures w.c.at.wait != Error && w.s.at.wait != Error && (forall a :: a in acts ==> !Failing(a)) ==>
      ExecPair(w, acts).c.at.wait != Error && ExecPair(w, acts).s.at.wait != Error
    decreases |acts|
  {
    hide Inv, DoPair;
    if acts != [] {
      assert acts[0] in acts && forall a :: a in acts[1..] ==> a in acts;
      PairStepKeeps(p, w, acts[0]);
      PairRunKeeps(p, DoPair(w, acts[0]), acts[1..]);
    }
  }

  lemma StartKeeps(server: Config, client: Config)
    ensures Inv(ParamsOf(server, client), StartPair(server, client))
  {
    hide Rest, Local, HelloOf, AsksCertificate, SendsKeyExchange, Whole, Sensible, FlagsOk;
    var p := ParamsOf(server, client);
    var w := StartPair(server, client);
    StartsLocal(client);
    StartsLocal(server);
    StartFlags(server, client);
    StartRest(p);
  }

  lemma StartFlags(server: Config, client: Config)
    ensures var p, w := ParamsOf(server, client), StartPair(server, client);
      Sensible(p) && FlagsOk(p, START_CONNECT, w.c.neg, w.c.who) && FlagsOk(p, START_ACCEPT, w.s.neg, w.s.who)
  {
  }

  lemma StartRest(p: Params)
    ensures Rest(p, At(START_CONNECT, Ok)) == Whole(p) && Rest(p, At(START_ACCEPT, Ok)) == Whole(p)
  {
    hide Whole;
  }

  // ---- what holds in every reachable state of the pair

  lemma ReachesInv(server: Config, client: Config, acts: seq<Act>)
    ensures Inv(ParamsOf(server, client), ExecPair(StartPair(server, client), acts))
  {
    hide Inv, ExecPair;
    StartKeeps(server, client);
    PairRunKeeps(ParamsOf(server, client), StartPair(server, client), acts);
  }

  /** Whatever a side is about to read that is bound to a transcript, a Finished, a CertificateVerify or a ChannelID,
      was made by the peer over exactly the transcript the reader now has. */
  lemma TranscriptsAgree(server: Config, client: Config, acts: seq<Act>)
    ensures var w := ExecPair(StartPair(server, client), acts);
      && (w.c.talk.inbox + w.toC != [] ==> BoundToReader(w.c, (w.c.talk.inbox + w.toC)[0]))
      && (w.s.talk.inbox + w.toS != [] ==> BoundToReader(w.s, (w.s.talk.inbox + w.toS)[0]))
  {
    hide ExecPair, SideOk, Tally, NotesOf, Linked, GoodItem;
    ReachesInv(server, client, acts);
    var p, w := ParamsOf(server, client), ExecPair(StartPair(server, client), acts);
    var forC, forS := w.c.talk.inbox + w.toC, w.s.talk.inbox + w.toS;
    if forC != [] {
      HeadIsGood(p, w.c, w.s, forC, forS);
      GoodIsBound(p, w.c, forC[0]);
    }
    if forS != [] {
      HeadIsGood(p, w.s, w.c, forS, forC);
      GoodIsBound(p, w.s, forS[0]);
    }
  }

  predicate BoundToReader(h: Side, i: Item) {
    i.Hs? && (KindOf(i.m) == MT_FINISHED || KindOf(i.m) == MT_CERTIFICATE_VERIFY || KindOf(i.m) == MT_CHANNEL_ID) ==>
      i.m == Bound(KindOf(i.m), !h.who.server, Transcript(h.talk))
  }

  lemma GoodIsBound(p: Params, h: Side, i: Item)
    requires GoodItem(p, !h.who.server, i, Transcript(h.talk))
    ensures BoundToReader(h, i)
  {
  }

  /** For every choice of settings, and however steps wait and messages are delayed, two honest sides never fail each
      other: an error needs a failure from outside. */
  lemma HonestPeersNeverFail(server: Config, client: Config, acts: seq<Act>)
    requires forall a :: a in acts ==> !Failing(a)
    ensures var w := ExecPair(StartPair(server, client), acts); w.c.at.wait != Error && w.s.at.wait != Error
  {
    hide Inv, ExecPair;
    StartKeeps(server, client);
    PairRunKeeps(ParamsOf(server, client), StartPair(server, client), acts);
  }

  lemma PrefixComparable(p: Params, a: Side, b: Side, forA: seq<Item>, forB: seq<Item>)
    requires Linked(p, a, b, forA, forB)
    ensures Transcript(a.talk) <= Transcript(b.talk) || Transcript(b.talk) <= Transcript(a.talk)
  {
    hide Rest, Queue, AllGood, Msgs;
  }

  lemma TallyBounds(p: Params, h: Side, key: bool)
    requires Tally(p, h)
    ensures Count(key, Transcript(h.talk)) <= 1
  {
    hide Rest, Whole;
    WholeLeft(key, p);
  }

  lemma SameNote(p: Params, a: Side, b: Side, forA: seq<Item>, forB: seq<Item>, key: bool, x: seq<Msg>, y: seq<Msg>)
    requires Linked(p, a, b, forA, forB) && Tally(p, a) && Tally(p, b)
    requires x <= Transcript(a.talk) && y <= Transcript(b.talk) && x != [] && y != []
    requires Hit(key, x[|x| - 1]) && Hit(key, y[|y| - 1])
    ensures x == y
  {
    hide Linked, Tally, Hit;
    PrefixComparable(p, a, b, forA, forB);
    TallyBounds(p, a, key);
    TallyBounds(p, b, key);
    if Transcript(a.talk) <= Transcript(b.talk) {
      OnlyOnePrefix(key, x, y, Transcript(b.talk));
    } else {
      OnlyOnePrefix(key, x, y, Transcript(a.talk));
    }
  }

  /** The two sides make the extended master secret over the same transcript, and put the same one on record for
      Channel ID. */
  lemma SecretsAgree(server: Config, client: Config, acts: seq<Act>)
    ensures var w := ExecPair(StartPair(server, client), acts);
      && (w.c.notes.master.Some? && w.s.notes.master.Some? ==> w.c.notes.master == w.s.notes.master)
      && (w.c.notes.original.Some? && w.s.notes.original.Some? ==> w.c.notes.original == w.s.notes.original)
  {
    hide ExecPair, SideOk, Tally, Linked, IsKey, IsClientFin, WaitOk;
    ReachesInv(server, client, acts);
    var p, w := ParamsOf(server, client), ExecPair(StartPair(server, client), acts);
    var forC, forS := w.c.talk.inbox + w.toC, w.s.talk.inbox + w.toS;
    if w.c.notes.master.Some? && w.s.notes.master.Some? {
      SameNote(p, w.c, w.s, forC, forS, true, w.c.notes.master.value, w.s.notes.master.value);
    }
    if w.c.notes.original.Some? && w.s.notes.original.Some? {
      SameNote(p, w.c, w.s, forC, forS, false, w.c.notes.original.value, w.s.notes.original.value);
    }
  }

  /** When both are done they hold the same transcript and settings, and nothing is left unread. */
  lemma DoneTogether(server: Config, client: Config, acts: seq<Act>)
    requires Finished(ExecPair(StartPair(server, client), acts).c)
    requires Finished(ExecPair(StartPair(server, client), acts).s)
    ensures var w := ExecPair(StartPair(server, client), acts);
      && Transcript(w.c.talk) == Transcript(w.s.talk) && w.c.neg.hello == w.s.neg.hello == HelloOf(server)
      && w.c.talk.inbox + w.toC == [] && w.s.talk.inbox + w.toS == []
  {
    hide ExecPair, Tally, NotesOf, WaitOk, AllGood, FirstMarks, HashOk, BufferOk, NotesMade, EndsInClientFin;
    ReachesInv(server, client, acts);
    var p, w := ParamsOf(server, client), ExecPair(StartPair(server, client), acts);
    EndOfScript(p, w.c);
    EndOfScript(p, w.s);
    NothingQueued(w.c.who.server, w.s.talk.inbox + w.toS);
    NothingQueued(w.s.who.server, w.c.talk.inbox + w.toC);
    assert Transcript(w.c.talk) + [] == Transcript(w.c.talk) && Transcript(w.s.talk) + [] == Transcript(w.s.talk);
  }

  lemma EndOfScript(p: Params, h: Side)
    requires Finished(h)
    ensures Rest(p, h.at) == End
  {
  }

  lemma NothingQueued(server: bool, u: seq<Item>)
    ensures Queue(server, u, End) == End ==> u == []
  {
  }
}
