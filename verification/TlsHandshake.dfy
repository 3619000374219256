/** The TLS 1.0 to 1.2 handshake, sections 7.3 and 7.4 of RFC 5246: both state machines, step by step. */
module TlsHandshake {
  import opened Bytes

  /** The key exchange and authentication of a cipher suite. Without PSK the server signs with a certificate. */
  datatype Cipher = Cipher(ecdhe: bool, psk: bool)

  const NO_HELLO := Hello(Cipher(false, false), false, false, false, false, false, false)

  predicate CertAuth(c: Cipher) {
    !c.psk
  }

  /** What a ServerHello settles. */
  datatype Hello = Hello(
    cipher: Cipher, resumed: bool, ticket: bool, status: bool, npn: bool, channelId: bool, ems: bool)

  const MT_CLIENT_HELLO: byte := 1
  const MT_SERVER_HELLO: byte := 2
  const MT_NEW_SESSION_TICKET: byte := 4
  const MT_CERTIFICATE: byte := 11
  const MT_SERVER_KEY_EXCHANGE: byte := 12
  const MT_CERTIFICATE_REQUEST: byte := 13
  const MT_SERVER_HELLO_DONE: byte := 14
  const MT_CERTIFICATE_VERIFY: byte := 15
  const MT_CLIENT_KEY_EXCHANGE: byte := 16
  const MT_FINISHED: byte := 20
  const MT_CERTIFICATE_STATUS: byte := 22
  const MT_NEXT_PROTO: byte := 67
  const MT_CHANNEL_ID: byte := 203

  /** A Finished, a CertificateVerify and a ChannelID are bound to the transcript they were made over. */
  datatype Msg =
    | Plain(k: byte, data: seq<byte>)
    | ServerHello(hello: Hello, random: seq<byte>)
    | Bound(k: byte, fromServer: bool, over: seq<Msg>)

  function KindOf(m: Msg): byte {
    if m.ServerHello? then MT_SERVER_HELLO else m.k
  }

  datatype Item = Ccs | Hs(m: Msg)

  /** Both sides' settings: the server's decide the ServerHello, hasCert and falseStart are the client's. */
  datatype Config = Config(
    cipher: Cipher, resumed: bool, ticket: bool, ocsp: bool, npn: bool, channelId: bool, sessionHasHash: bool,
    ems: bool, verifyPeer: bool, ifNoChannelId: bool, pskHint: bool, hasCert: bool, falseStart: bool)

  const START_CONNECT: nat := 0
  const ENTER_EARLY_DATA: nat := 1
  const READ_SERVER_HELLO: nat := 3
  const READ_SERVER_CERTIFICATE: nat := 5
  const READ_CERTIFICATE_STATUS: nat := 6
  const VERIFY_SERVER_CERTIFICATE: nat := 7
  const READ_SERVER_KEY_EXCHANGE: nat := 8
  const READ_CERTIFICATE_REQUEST: nat := 9
  const READ_SERVER_HELLO_DONE: nat := 10
  const SEND_CLIENT_CERTIFICATE: nat := 11
  const SEND_CLIENT_KEY_EXCHANGE: nat := 12
  const SEND_CLIENT_CERTIFICATE_VERIFY: nat := 13
  const SEND_CLIENT_FINISHED: nat := 14
  const FINISH_FLIGHT: nat := 15
  const READ_SESSION_TICKET: nat := 16
  const PROCESS_SERVER_CCS: nat := 17
  const READ_SERVER_FINISHED: nat := 18
  const FINISH_CLIENT_HANDSHAKE: nat := 19
  const CLIENT_DONE: nat := 20
  // the server's states, moved up by 32
  const START_ACCEPT: nat := 32
  const READ_CLIENT_HELLO: nat := 33
  const SELECT_CERTIFICATE: nat := 34
  const SELECT_PARAMETERS: nat := 36
  const SEND_SERVER_HELLO: nat := 37
  const SEND_SERVER_CERTIFICATE: nat := 38
  const SEND_SERVER_KEY_EXCHANGE: nat := 39
  const SEND_SERVER_HELLO_DONE: nat := 40
  const READ_CLIENT_CERTIFICATE: nat := 41
  const VERIFY_CLIENT_CERTIFICATE: nat := 42
  const READ_CLIENT_KEY_EXCHANGE: nat := 43
  const READ_CLIENT_CERTIFICATE_VERIFY: nat := 44
  const READ_CLIENT_CCS: nat := 45
  const PROCESS_CLIENT_CCS: nat := 46
  const READ_NEXT_PROTO: nat := 47
  const READ_CHANNEL_ID: nat := 48
  const READ_CLIENT_FINISHED: nat := 49
  const SEND_SERVER_FINISHED: nat := 50
  const FINISH_SERVER_HANDSHAKE: nat := 51
  const SERVER_DONE: nat := 52

  /** `ssl_hs_wait_t`; Pending stands for every wait on the application or on a key operation. */
  datatype Wait = Ok | ReadMessage | ReadCcs | Flush | Pending | EarlyReturn | Error

  datatype Mark = WriteCipher | OwnFinished | ReadCipher | PeerFinished

  datatype Who = Who(server: bool, cfg: Config)

  datatype At = At(state: nat, wait: Wait)

  /** What is known of the negotiation. */
  datatype Neg = Neg(hello: Hello, certRequest: bool, peerCert: bool, ske: bool)

  /** The transcript, hashed and buffered, and the two directions of the connection. The buffer keeps the whole
      transcript for a CertificateVerify and is gone once freed. */
  datatype Talk = Talk(hash: Option<seq<Msg>>, buffer: Option<seq<Msg>>, inbox: seq<Item>, sent: seq<Item>)

  /** The transcripts that went into an extended master secret and into the session, and what was done when. */
  datatype Notes = Notes(master: Option<seq<Msg>>, original: Option<seq<Msg>>, log: seq<Mark>)

  /** The handshake of one side. */
  datatype Side = Side(who: Who, at: At, neg: Neg, talk: Talk, notes: Notes)

  /** What a step meets: bytes it makes up, an operation that is not ready yet, one that fails. */
  datatype Env = Env(data: seq<byte>, retry: bool, fail: bool)

  // ---- the server's decisions

  /** Channel ID only with ECDHE, and on resumption only if the session recorded the handshake it came from. */
  function HelloOf(c: Config): Hello {
    Hello(c.cipher, c.resumed, c.ticket, c.ocsp && CertAuth(c.cipher) && !c.resumed, c.npn,
          c.channelId && c.cipher.ecdhe && (!c.resumed || c.sessionHasHash), c.ems)
  }

  predicate AsksCertificate(c: Config) {
    !c.resumed && c.verifyPeer && !(c.ifNoChannelId && c.channelId) && CertAuth(c.cipher)
  }

  predicate SendsKeyExchange(c: Config) {
    c.cipher.ecdhe || (c.cipher.psk && c.pskHint)
  }

  // ---- pieces of a step

  /** The transcript: `SSLTranscript::Update` goes to the hash and to the buffer, whichever there is. */
  function Transcript(t: Talk): seq<Msg> {
    if t.hash.Some? then t.hash.value else if t.buffer.Some? then t.buffer.value else []
  }

  function Append(o: Option<seq<Msg>>, m: Msg): Option<seq<Msg>> {
    if o.Some? then Some(o.value + [m]) else None
  }

  function InitHash(t: Talk): Talk {
    t.(hash := t.buffer)
  }

  function FreeBuffer(t: Talk, free: bool): Talk {
    if free then t.(buffer := None) else t
  }

  /** `ssl_add_message_cbb`: the message is queued and hashed. */
  function Added(t: Talk, m: Msg): Talk {
    Talk(Append(t.hash, m), Append(t.buffer, m), t.inbox, t.sent + [Hs(m)])
  }

  function AddedIf(t: Talk, b: bool, m: Msg): Talk {
    if b then Added(t, m) else t
  }

  function CcsAdded(t: Talk): Talk {
    t.(sent := t.sent + [Ccs])
  }

  datatype Head = Nothing | NoMessage | Message(m: Msg)

  /** `get_message`: the next handshake message, if the next thing received is one. */
  function Peek(t: Talk): Head {
    if t.inbox == [] then Nothing else if t.inbox[0].Ccs? then NoMessage else Message(t.inbox[0].m)
  }

  /** `ssl_hash_message` and `next_message` */
  function Taken(t: Talk, m: Msg): Talk
    requires t.inbox != []
  {
    Talk(Append(t.hash, m), Append(t.buffer, m), t.inbox[1..], t.sent)
  }

  function Goto(h: Side, st: nat): Side {
    h.(at := At(st, Ok))
  }

  function GotoWith(h: Side, t: Talk, st: nat): Side {
    h.(at := At(st, Ok), talk := t)
  }

  function Stay(h: Side, w: Wait): Side {
    h.(at := At(h.at.state, w))
  }

  datatype Want = Wanted(m: Msg) | Refused(wait: Wait)

  /** Without a message there is a wait; a ChangeCipherSpec or another kind of message is fatal. */
  function Expect(t: Talk, k: byte): (r: Want)
    ensures r.Wanted? ==> t.inbox != [] && KindOf(r.m) == k
  {
    match Peek(t)
    case Nothing => Refused(ReadMessage)
    case NoMessage => Refused(Error)
    case Message(m) => if KindOf(m) == k then Wanted(m) else Refused(Error)
  }

  predicate Resumed(h: Side) {
    h.neg.hello.resumed
  }

  // ---- client

  function DoStartConnect(h: Side, e: Env): Side {
    if e.fail then Stay(h, Error)
    else h.(talk := Added(h.talk, Plain(MT_CLIENT_HELLO, e.data)), at := At(ENTER_EARLY_DATA, Flush))
  }

  function DoReadServerHello(h: Side, e: Env): Side {
    match Expect(h.talk, MT_SERVER_HELLO)
    case Refused(w) => Stay(h, w)
    case Wanted(m) =>
      if e.fail || !m.ServerHello? then Stay(h, Error)
      else
        var t := FreeBuffer(Taken(InitHash(h.talk), m), m.hello.resumed || !CertAuth(m.hello.cipher));
        h.(neg := h.neg.(hello := m.hello), talk := t,
           at := At(if m.hello.resumed then READ_SESSION_TICKET else READ_SERVER_CERTIFICATE, Ok))
  }

  function DoReadServerCertificate(h: Side, e: Env): Side {
    if !CertAuth(h.neg.hello.cipher) then Goto(h, READ_CERTIFICATE_STATUS)
    else
      match Expect(h.talk, MT_CERTIFICATE)
      case Refused(w) => Stay(h, w)
      case Wanted(m) =>
        if e.fail || !m.Plain? || m.data == [] then Stay(h, Error)
        else GotoWith(h, Taken(h.talk, m), READ_CERTIFICATE_STATUS)
  }

  /** A server may announce CertificateStatus and then not send it. */
  function DoReadCertificateStatus(h: Side, e: Env): Side {
    if !h.neg.hello.status then Goto(h, VERIFY_SERVER_CERTIFICATE)
    else
      match Peek(h.talk)
      case Nothing => Stay(h, ReadMessage)
      case NoMessage => Stay(h, Error)
      case Message(m) =>
        if KindOf(m) != MT_CERTIFICATE_STATUS then Goto(h, VERIFY_SERVER_CERTIFICATE)
        else if e.fail then Stay(h, Error)
        else GotoWith(h, Taken(h.talk, m), VERIFY_SERVER_CERTIFICATE)
  }

  function DoVerifyServerCertificate(h: Side, e: Env): Side {
    if !CertAuth(h.neg.hello.cipher) then Goto(h, READ_SERVER_KEY_EXCHANGE)
    else if e.fail then Stay(h, Error)
    else if e.retry then Stay(h, Pending)
    else Goto(h, READ_SERVER_KEY_EXCHANGE)
  }

  /** Plain PSK suites may leave it out; plain RSA suites must. */
  function DoReadServerKeyExchange(h: Side, e: Env): Side {
    match Peek(h.talk)
    case Nothing => Stay(h, ReadMessage)
    case NoMessage => Stay(h, Error)
    case Message(m) =>
      var cipher := h.neg.hello.cipher;
      if KindOf(m) != MT_SERVER_KEY_EXCHANGE then
        if cipher.ecdhe then Stay(h, Error) else Goto(h, READ_CERTIFICATE_REQUEST)
      else if e.fail || (!cipher.ecdhe && !cipher.psk) then Stay(h, Error)
      else GotoWith(h, Taken(h.talk, m), READ_CERTIFICATE_REQUEST)
  }

  function DoReadCertificateRequest(h: Side, e: Env): Side {
    if !CertAuth(h.neg.hello.cipher) then Goto(h, READ_SERVER_HELLO_DONE)
    else
      match Peek(h.talk)
      case Nothing => Stay(h, ReadMessage)
      case NoMessage => Stay(h, Error)
      case Message(m) =>
        if KindOf(m) == MT_SERVER_HELLO_DONE then GotoWith(h, FreeBuffer(h.talk, true), READ_SERVER_HELLO_DONE)
        else if KindOf(m) != MT_CERTIFICATE_REQUEST || e.fail then Stay(h, Error)
        else GotoWith(h, Taken(h.talk, m), READ_SERVER_HELLO_DONE).(neg := h.neg.(certRequest := true))
  }

  function DoReadServerHelloDone(h: Side, e: Env): Side {
    match Expect(h.talk, MT_SERVER_HELLO_DONE)
    case Refused(w) => Stay(h, w)
    case Wanted(m) =>
      if e.fail || !m.Plain? || m.data != [] then Stay(h, Error)
      else GotoWith(h, Taken(h.talk, m), SEND_CLIENT_CERTIFICATE)
  }

  /** Only a client without a certificate sends an empty chain. */
  function ChainOf(has: bool, data: seq<byte>): seq<byte> {
    if has then [0] + data else []
  }

  function DoSendClientCertificate(h: Side, e: Env): Side {
    if !h.neg.certRequest then Goto(h, SEND_CLIENT_KEY_EXCHANGE)
    else if e.fail then Stay(h, Error)
    else if e.retry then Stay(h, Pending)
    else
      var has := h.who.cfg.hasCert;
      GotoWith(h, Added(FreeBuffer(h.talk, !has), Plain(MT_CERTIFICATE, ChainOf(has, e.data))),
        SEND_CLIENT_KEY_EXCHANGE)
  }

  /** `tls1_generate_master_secret`, as far as the transcript goes in */
  function MasterOver(h: Side, t: Talk): Notes {
    h.notes.(master := if h.neg.hello.ems then t.hash else None)
  }

  /** The message goes into the transcript before the master secret is made. */
  function DoSendClientKeyExchange(h: Side, e: Env): Side {
    if e.fail then Stay(h, Error)
    else
      var t := Added(h.talk, Plain(MT_CLIENT_KEY_EXCHANGE, e.data));
      h.(talk := t, notes := MasterOver(h, t), at := At(SEND_CLIENT_CERTIFICATE_VERIFY, Ok))
  }

  /** The source reads the buffer unchecked; TlsRuns shows that it is there. */
  function DoSendClientCertificateVerify(h: Side, e: Env): Side {
    if !h.neg.certRequest || !h.who.cfg.hasCert then Goto(h, SEND_CLIENT_FINISHED)
    else if e.fail || h.talk.buffer.None? then Stay(h, Error)
    else if e.retry then Stay(h, Pending)
    else
      var m := Bound(MT_CERTIFICATE_VERIFY, false, h.talk.buffer.value);
      GotoWith(h, FreeBuffer(Added(h.talk, m), true), SEND_CLIENT_FINISHED)
  }

  /** The cipher change and `ssl_send_finished` */
  function FinishedSent(h: Side, t: Talk, st: nat): Side {
    h.(talk := Added(t, Bound(MT_FINISHED, h.who.server, Transcript(t))),
       notes := h.notes.(log := h.notes.log + [WriteCipher] + [OwnFinished]), at := At(st, Flush))
  }

  /** Channel ID is resolved before anything is sent. */
  function DoSendClientFinished(h: Side, e: Env): Side {
    if e.fail then Stay(h, Error)
    else if h.neg.hello.channelId && e.retry then Stay(h, Pending)
    else FinishedSent(h, BeforeFinished(h.talk, h.neg.hello, e.data), FINISH_FLIGHT)
  }

  /** ChangeCipherSpec, NextProtocol and ChannelID */
  function BeforeFinished(t: Talk, hello: Hello, data: seq<byte>): Talk {
    var t1 := AddedIf(CcsAdded(t), hello.npn, Plain(MT_NEXT_PROTO, data));
    AddedIf(t1, hello.channelId, Bound(MT_CHANNEL_ID, false, Transcript(t1)))
  }

  function DoFinishFlight(h: Side, e: Env): Side {
    if Resumed(h) then Goto(h, FINISH_CLIENT_HANDSHAKE)
    else if e.fail then Stay(h, Error)
    else
      h.(notes := h.notes.(original := h.talk.hash),
         at := At(READ_SESSION_TICKET, if h.who.cfg.falseStart then EarlyReturn else Ok))
  }

  function DoReadSessionTicket(h: Side, e: Env): Side {
    if !h.neg.hello.ticket then h.(at := At(PROCESS_SERVER_CCS, ReadCcs))
    else
      match Expect(h.talk, MT_NEW_SESSION_TICKET)
      case Refused(w) => Stay(h, w)
      case Wanted(m) =>
        if e.fail then Stay(h, Error) else h.(talk := Taken(h.talk, m), at := At(PROCESS_SERVER_CCS, ReadCcs))
  }

  function CipherRead(h: Side, e: Env, st: nat): Side {
    if e.fail then Stay(h, Error) else h.(notes := h.notes.(log := h.notes.log + [ReadCipher]), at := At(st, Ok))
  }

  /** `ssl_get_finished`: the peer's Finished must be made over the transcript as it stands before it. */
  function FinishedRead(h: Side, e: Env, st: nat): Side {
    match Expect(h.talk, MT_FINISHED)
    case Refused(w) => Stay(h, w)
    case Wanted(m) =>
      if e.fail || m != Bound(MT_FINISHED, !h.who.server, Transcript(h.talk)) then Stay(h, Error)
      else
        h.(talk := Taken(h.talk, m), notes := h.notes.(log := h.notes.log + [PeerFinished]), at := At(st, Ok))
  }

  function DoReadServerFinished(h: Side, e: Env): Side {
    FinishedRead(h, e, if Resumed(h) then SEND_CLIENT_FINISHED else FINISH_CLIENT_HANDSHAKE)
  }

  function DoFinishHandshake(h: Side, e: Env, st: nat): Side {
    if e.fail then Stay(h, Error) else Goto(h, st)
  }

  // ---- server

  function DoReadClientHello(h: Side, e: Env): Side {
    match Expect(h.talk, MT_CLIENT_HELLO)
    case Refused(w) => Stay(h, w)
    case Wanted(m) =>
      if e.fail then Stay(h, Error) else if e.retry then Stay(h, Pending) else Goto(h, SELECT_CERTIFICATE)
  }

  function DoSelectCertificate(h: Side, e: Env): Side {
    match Peek(h.talk)
    case Nothing => Stay(h, ReadMessage)
    case NoMessage => Stay(h, Error)
    case Message(_) =>
      if e.fail then Stay(h, Error) else if e.retry then Stay(h, Pending) else Goto(h, SELECT_PARAMETERS)
  }

  /** Looking up a session may have to wait; only then is the ClientHello hashed and consumed. */
  function DoSelectParameters(h: Side, e: Env): Side {
    match Peek(h.talk)
    case Nothing => Stay(h, ReadMessage)
    case NoMessage => Stay(h, Error)
    case Message(m) =>
      if e.fail then Stay(h, Error)
      else if e.retry then Stay(h, Pending)
      else
        var asks := AsksCertificate(h.who.cfg);
        h.(neg := h.neg.(certRequest := asks, hello := HelloOf(h.who.cfg)),
           talk := FreeBuffer(Taken(InitHash(h.talk), m), !asks), at := At(SEND_SERVER_HELLO, Ok))
  }

  function DoSendServerHello(h: Side, e: Env): Side {
    if e.fail then Stay(h, Error)
    else
      GotoWith(h, Added(h.talk, ServerHello(h.neg.hello, e.data)),
               if Resumed(h) then SEND_SERVER_FINISHED else SEND_SERVER_CERTIFICATE)
  }

  function DoSendServerCertificate(h: Side, e: Env): Side {
    if e.fail then Stay(h, Error)
    else
      var auth := CertAuth(h.neg.hello.cipher);
      var t := AddedIf(h.talk, auth, Plain(MT_CERTIFICATE, ChainOf(true, e.data)));
      h.(talk := AddedIf(t, auth && h.neg.hello.status, Plain(MT_CERTIFICATE_STATUS, e.data)),
         neg := h.neg.(ske := SendsKeyExchange(h.who.cfg)), at := At(SEND_SERVER_KEY_EXCHANGE, Ok))
  }

  function DoSendServerKeyExchange(h: Side, e: Env): Side {
    if !h.neg.ske then Goto(h, SEND_SERVER_HELLO_DONE)
    else if e.fail then Stay(h, Error)
    else if CertAuth(h.neg.hello.cipher) && e.retry then Stay(h, Pending)
    else
      GotoWith(h, Added(h.talk, Plain(MT_SERVER_KEY_EXCHANGE, e.data)),
        SEND_SERVER_HELLO_DONE).(neg := h.neg.(ske := false))
  }

  function DoSendServerHelloDone(h: Side, e: Env): Side {
    if e.fail then Stay(h, Error)
    else
      var t := AddedIf(h.talk, h.neg.certRequest, Plain(MT_CERTIFICATE_REQUEST, e.data));
      h.(talk := Added(t, Plain(MT_SERVER_HELLO_DONE, [])), at := At(READ_CLIENT_CERTIFICATE, Flush))
  }

  function DoReadClientCertificate(h: Side, e: Env): Side {
    if !h.neg.certRequest then Goto(h, VERIFY_CLIENT_CERTIFICATE)
    else
      match Expect(h.talk, MT_CERTIFICATE)
      case Refused(w) => Stay(h, w)
      case Wanted(m) =>
        if e.fail || !m.Plain? then Stay(h, Error)
        else
          GotoWith(h, FreeBuffer(Taken(h.talk, m), m.data == []), VERIFY_CLIENT_CERTIFICATE)
            .(neg := h.neg.(peerCert := m.data != []))
  }

  function DoVerifyClientCertificate(h: Side, e: Env): Side {
    if !h.neg.peerCert then Goto(h, READ_CLIENT_KEY_EXCHANGE)
    else if e.fail then Stay(h, Error)
    else if e.retry then Stay(h, Pending)
    else Goto(h, READ_CLIENT_KEY_EXCHANGE)
  }

  function DoReadClientKeyExchange(h: Side, e: Env): Side {
    match Expect(h.talk, MT_CLIENT_KEY_EXCHANGE)
    case Refused(w) => Stay(h, w)
    case Wanted(m) =>
      if e.fail then Stay(h, Error)
      else if e.retry then Stay(h, Pending)
      else
        var t := Taken(h.talk, m);
        h.(talk := t, notes := MasterOver(h, t), at := At(READ_CLIENT_CERTIFICATE_VERIFY, Ok))
  }

  /** The signature is checked over the buffer, before this message is hashed. */
  function DoReadClientCertificateVerify(h: Side, e: Env): Side {
    if !h.neg.peerCert then GotoWith(h, FreeBuffer(h.talk, true), READ_CLIENT_CCS)
    else
      match Expect(h.talk, MT_CERTIFICATE_VERIFY)
      case Refused(w) => Stay(h, w)
      case Wanted(m) =>
        if e.fail || h.talk.buffer.None? || m != Bound(MT_CERTIFICATE_VERIFY, false, h.talk.buffer.value)
        then Stay(h, Error)
        else GotoWith(h, Taken(FreeBuffer(h.talk, true), m), READ_CLIENT_CCS)
  }

  function DoReadNextProto(h: Side, e: Env): Side {
    if !h.neg.hello.npn then Goto(h, READ_CHANNEL_ID)
    else
      match Expect(h.talk, MT_NEXT_PROTO)
      case Refused(w) => Stay(h, w)
      case Wanted(m) => if e.fail then Stay(h, Error) else GotoWith(h, Taken(h.talk, m), READ_CHANNEL_ID)
  }

  function DoReadChannelId(h: Side, e: Env): Side {
    if !h.neg.hello.channelId then Goto(h, READ_CLIENT_FINISHED)
    else
      match Expect(h.talk, MT_CHANNEL_ID)
      case Refused(w) => Stay(h, w)
      case Wanted(m) =>
        if e.fail || m != Bound(MT_CHANNEL_ID, false, Transcript(h.talk)) then Stay(h, Error)
        else GotoWith(h, Taken(h.talk, m), READ_CLIENT_FINISHED)
  }

  function DoReadClientFinished(h: Side, e: Env): Side {
    var r := FinishedRead(h, e, if Resumed(h) then FINISH_SERVER_HANDSHAKE else SEND_SERVER_FINISHED);
    if r.at.state == SEND_SERVER_FINISHED && h.neg.hello.channelId
    then r.(notes := r.notes.(original := r.talk.hash))
    else r
  }

  function DoSendServerFinished(h: Side, e: Env): Side {
    if e.fail then Stay(h, Error)
    else
      var t := CcsAdded(AddedIf(h.talk, h.neg.hello.ticket, Plain(MT_NEW_SESSION_TICKET, e.data)));
      FinishedSent(h, t, if Resumed(h) then READ_CLIENT_CCS else FINISH_SERVER_HANDSHAKE)
  }

  // ---- the drivers

  /** One turn of the loop of `ssl_client_handshake` */
  function DoClient(h: Side, e: Env): Side {
    var st := h.at.state;
    if st == START_CONNECT then DoStartConnect(h, e)
    else if st == ENTER_EARLY_DATA then Goto(h, READ_SERVER_HELLO)
    else if st == READ_SERVER_HELLO then DoReadServerHello(h, e)
    else if st == READ_SERVER_CERTIFICATE then DoReadServerCertificate(h, e)
    else if st == READ_CERTIFICATE_STATUS then DoReadCertificateStatus(h, e)
    else if st == VERIFY_SERVER_CERTIFICATE then DoVerifyServerCertificate(h, e)
    else if st == READ_SERVER_KEY_EXCHANGE then DoReadServerKeyExchange(h, e)
    else if st == READ_CERTIFICATE_REQUEST then DoReadCertificateRequest(h, e)
    else if st == READ_SERVER_HELLO_DONE then DoReadServerHelloDone(h, e)
    else if st == SEND_CLIENT_CERTIFICATE then DoSendClientCertificate(h, e)
    else if st == SEND_CLIENT_KEY_EXCHANGE then DoSendClientKeyExchange(h, e)
    else if st == SEND_CLIENT_CERTIFICATE_VERIFY then DoSendClientCertificateVerify(h, e)
    else if st == SEND_CLIENT_FINISHED then DoSendClientFinished(h, e)
    else if st == FINISH_FLIGHT then DoFinishFlight(h, e)
    else if st == READ_SESSION_TICKET then DoReadSessionTicket(h, e)
    else if st == PROCESS_SERVER_CCS then CipherRead(h, e, READ_SERVER_FINISHED)
    else if st == READ_SERVER_FINISHED then DoReadServerFinished(h, e)
    else if st == FINISH_CLIENT_HANDSHAKE then DoFinishHandshake(h, e, CLIENT_DONE)
    else Stay(h, Ok)
  }

  /** One turn of the loop of `ssl_server_handshake` */
  function DoServer(h: Side, e: Env): Side {
    var st := h.at.state;
    if st == START_ACCEPT then Goto(h, READ_CLIENT_HELLO)
    else if st == READ_CLIENT_HELLO then DoReadClientHello(h, e)
    else if st == SELECT_CERTIFICATE then DoSelectCertificate(h, e)
    else if st == SELECT_PARAMETERS then DoSelectParameters(h, e)
    else if st == SEND_SERVER_HELLO then DoSendServerHello(h, e)
    else if st == SEND_SERVER_CERTIFICATE then DoSendServerCertificate(h, e)
    else if st == SEND_SERVER_KEY_EXCHANGE then DoSendServerKeyExchange(h, e)
    else if st == SEND_SERVER_HELLO_DONE then DoSendServerHelloDone(h, e)
    else if st == READ_CLIENT_CERTIFICATE then DoReadClientCertificate(h, e)
    else if st == VERIFY_CLIENT_CERTIFICATE then DoVerifyClientCertificate(h, e)
    else if st == READ_CLIENT_KEY_EXCHANGE then DoReadClientKeyExchange(h, e)
    else if st == READ_CLIENT_CERTIFICATE_VERIFY then DoReadClientCertificateVerify(h, e)
    else if st == READ_CLIENT_CCS then h.(at := At(PROCESS_CLIENT_CCS, ReadCcs))
    else if st == PROCESS_CLIENT_CCS then CipherRead(h, e, READ_NEXT_PROTO)
    else if st == READ_NEXT_PROTO then DoReadNextProto(h, e)
    else if st == READ_CHANNEL_ID then DoReadChannelId(h, e)
    else if st == READ_CLIENT_FINISHED then DoReadClientFinished(h, e)
    else if st == SEND_SERVER_FINISHED then DoSendServerFinished(h, e)
    else if st == FINISH_SERVER_HANDSHAKE then DoFinishHandshake(h, e, SERVER_DONE)
    else Stay(h, Ok)
  }

  function Do(h: Side, e: Env): Side {
    if h.who.server then DoServer(h, e) else DoClient(h, e)
  }

  /** `ssl_run_handshake` deals with the wait, and the machine runs one more step. An error is final. A
      ChangeCipherSpec is waited for in the order of records. */
  function Turn(h: Side, e: Env): Side {
    if h.at.wait == Error then h
    else if h.at.wait == ReadCcs then
      if h.talk.inbox == [] then h
      else if h.talk.inbox[0].Ccs? then Do(CcsTaken(h), e)
      else Stay(h, Error)
    else Do(h, e)
  }

  function CcsTaken(h: Side): Side
    requires h.talk.inbox != []
  {
    h.(talk := h.talk.(inbox := h.talk.inbox[1..]), at := At(h.at.state, Ok))
  }

  function Client(cfg: Config): Side {
    Side(Who(false, cfg), At(START_CONNECT, Ok), Neg(NO_HELLO, false, false, false), Talk(None, Some([]), [], []),
         Notes(None, None, []))
  }

  function Server(cfg: Config): Side {
    Side(Who(true, cfg), At(START_ACCEPT, Ok), Neg(NO_HELLO, false, false, false), Talk(None, Some([]), [], []),
         Notes(None, None, []))
  }
}
