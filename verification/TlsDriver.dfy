/** The handshake as the source runs it: one object whose fields the steps change, and the loops that drive them. */
module TlsDriver {
  import opened Bytes
  import opened TlsChecks
  import opened TlsHandshake
  import opened TlsRuns
  import opened TlsSends

  /** A side with the wait its last step returned. */
  function With(h: Side, w: Wait): Side {
    h.(at := At(h.at.state, w))
  }

  /** SSL_HANDSHAKE, with the parts of the connection it works on. */
  class Handshake {
    const server: bool
    const cfg: Config
    var state: nat
    var wait: Wait
    var hello: Hello
    var certRequest: bool
    var peerCert: bool
    var ske: bool
    var hash: Option<seq<Msg>>
    var buffer: Option<seq<Msg>>
    var inbox: seq<Item>
    var sent: seq<Item>
    var master: Option<seq<Msg>>
    var original: Option<seq<Msg>>
    ghost var log: seq<Mark>
    ghost var past: seq<Event> // what arrived and which steps ran, since the start

    ghost function TalkNow(): Talk
      reads this
    {
      Talk(hash, buffer, inbox, sent)
    }

    ghost function State(): Side
      reads this
    {
      Side(Who(server, cfg), At(state, wait), Neg(hello, certRequest, peerCert, ske), TalkNow(),
        Notes(master, original, log))
    }

    ghost function Origin(): Side {
      if server then Server(cfg) else Client(cfg)
    }

    /** The object is where the machine is after the same events. */
    ghost predicate Genuine()
      reads this
    {
      State() == Exec(Origin(), past)
    }

    predicate Done()
      reads this
    {
      state == CLIENT_DONE || state == SERVER_DONE
    }

    constructor (server: bool, cfg: Config)
      ensures State() == (if server then Server(cfg) else Client(cfg)) && past == [] && Genuine()
      ensures this.server == server && this.cfg == cfg
    {
      this.server, this.cfg := server, cfg;
      state, wait := if server then START_ACCEPT else START_CONNECT, Ok;
      hello, certRequest, peerCert, ske := NO_HELLO, false, false, false;
      hash, buffer, inbox, sent := None, Some([]), [], [];
      master, original, log, past := None, None, [], [];
    }

    // ---- the transcript and the messages

    /** `SSLTranscript::Update` */
    method Update(m: Msg)
      modifies this`hash, this`buffer
      ensures hash == Append(old(hash), m) && buffer == Append(old(buffer), m)
    {
      if buffer.Some? {
        buffer := Some(buffer.value + [m]);
      }
      if hash.Some? {
        hash := Some(hash.value + [m]);
      }
    }

    method AddMessage(m: Msg)
      modifies this`hash, this`buffer, this`sent
      ensures TalkNow() == Added(old(TalkNow()), m)
    {
      sent := sent + [Hs(m)];
      Update(m);
    }

    method HashAndTake(m: Msg)
      requires inbox != []
      modifies this`hash, this`buffer, this`inbox
      ensures TalkNow() == Taken(old(TalkNow()), m)
    {
      Update(m);
      inbox := inbox[1..];
    }

    /** `get_message` and `ssl_check_message_type` */
    method Get(k: byte) returns (w: Want)
      ensures w == Expect(TalkNow(), k)
    {
      if inbox == [] {
        return Refused(ReadMessage);
      }
      if inbox[0].Ccs? || KindOf(inbox[0].m) != k {
        return Refused(Error);
      }
      w := Wanted(inbox[0].m);
    }

    // ---- client

    method StartConnect(e: Env) returns (ret: Wait)
      modifies this`state, this`hash, this`buffer, this`sent
      ensures With(State(), ret) == DoStartConnect(old(State()), e)
    {
      if e.fail {
        return Error;
      }
      AddMessage(Plain(MT_CLIENT_HELLO, e.data));
      state := ENTER_EARLY_DATA;
      ret := Flush;
    }

    /** `do_read_server_hello`: the hash starts from the buffer, which is kept only if a CertificateVerify may come. */
    method ReadServerHello(e: Env) returns (ret: Wait)
      modifies this`state, this`hello, this`hash, this`buffer, this`inbox
      ensures With(State(), ret) == DoReadServerHello(old(State()), e)
    {
      hide Append;
      var w := Get(MT_SERVER_HELLO);
      if w.Refused? {
        return w.wait;
      }
      if e.fail || !w.m.ServerHello? {
        return Error;
      }
      hello := w.m.hello;
      hash := buffer;
      HashAndTake(w.m);
      if hello.resumed || !CertAuth(hello.cipher) {
        buffer := None;
      }
      state := if hello.resumed then READ_SESSION_TICKET else READ_SERVER_CERTIFICATE;
      ret := Ok;
    }

    method ReadServerCertificate(e: Env) returns (ret: Wait)
      modifies this`state, this`hash, this`buffer, this`inbox
      ensures With(State(), ret) == DoReadServerCertificate(old(State()), e)
    {
      if !CertAuth(hello.cipher) {
        state := READ_CERTIFICATE_STATUS;
        return Ok;
      }
      var w := Get(MT_CERTIFICATE);
      if w.Refused? {
        return w.wait;
      }
      if e.fail || !w.m.Plain? || w.m.data == [] {
        return Error;
      }
      HashAndTake(w.m);
      state := READ_CERTIFICATE_STATUS;
      ret := Ok;
    }

    method ReadCertificateStatus(e: Env) returns (ret: Wait)
      modifies this`state, this`hash, this`buffer, this`inbox
      ensures With(State(), ret) == DoReadCertificateStatus(old(State()), e)
    {
      if !hello.status {
        state := VERIFY_SERVER_CERTIFICATE;
        return Ok;
      }
      if inbox == [] {
        return ReadMessage;
      }
      if inbox[0].Ccs? {
        return Error;
      }
      var m := inbox[0].m;
      if KindOf(m) != MT_CERTIFICATE_STATUS {
        state := VERIFY_SERVER_CERTIFICATE;
        return Ok;
      }
      if e.fail {
        return Error;
      }
      HashAndTake(m);
      state := VERIFY_SERVER_CERTIFICATE;
      ret := Ok;
    }

    method VerifyServerCertificate(e: Env) returns (ret: Wait)
      modifies this`state
      ensures With(State(), ret) == DoVerifyServerCertificate(old(State()), e)
    {
      if CertAuth(hello.cipher) {
        if e.fail {
          return Error;
        }
        if e.retry {
          return Pending;
        }
      }
      state := READ_SERVER_KEY_EXCHANGE;
      ret := Ok;
    }

    method ReadServerKeyExchange(e: Env) returns (ret: Wait)
      modifies this`state, this`hash, this`buffer, this`inbox
      ensures With(State(), ret) == DoReadServerKeyExchange(old(State()), e)
    {
      if inbox == [] {
        return ReadMessage;
      }
      if inbox[0].Ccs? {
        return Error;
      }
      var m := inbox[0].m;
      if KindOf(m) != MT_SERVER_KEY_EXCHANGE {
        if hello.cipher.ecdhe {
          return Error;
        }
        state := READ_CERTIFICATE_REQUEST;
        return Ok;
      }
      if e.fail || (!hello.cipher.ecdhe && !hello.cipher.psk) {
        return Error;
      }
      HashAndTake(m);
      state := READ_CERTIFICATE_REQUEST;
      ret := Ok;
    }

    method ReadCertificateRequest(e: Env) returns (ret: Wait)
      modifies this`state, this`certRequest, this`hash, this`buffer, this`inbox
      ensures With(State(), ret) == DoReadCertificateRequest(old(State()), e)
    {
      if !CertAuth(hello.cipher) {
        state := READ_SERVER_HELLO_DONE;
        return Ok;
      }
      if inbox == [] {
        return ReadMessage;
      }
      if inbox[0].Ccs? {
        return Error;
      }
      var m := inbox[0].m;
      if KindOf(m) == MT_SERVER_HELLO_DONE {
        buffer := None;
        state := READ_SERVER_HELLO_DONE;
        return Ok;
      }
      if KindOf(m) != MT_CERTIFICATE_REQUEST || e.fail {
        return Error;
      }
      HashAndTake(m);
      certRequest := true;
      state := READ_SERVER_HELLO_DONE;
      ret := Ok;
    }

    method ReadServerHelloDone(e: Env) returns (ret: Wait)
      modifies this`state, this`hash, this`buffer, this`inbox
      ensures With(State(), ret) == DoReadServerHelloDone(old(State()), e)
    {
      var w := Get(MT_SERVER_HELLO_DONE);
      if w.Refused? {
        return w.wait;
      }
      if e.fail || !w.m.Plain? || w.m.data != [] {
        return Error;
      }
      HashAndTake(w.m);
      state := SEND_CLIENT_CERTIFICATE;
      ret := Ok;
    }

    method SendClientCertificate(e: Env) returns (ret: Wait)
      modifies this`state, this`hash, this`buffer, this`sent
      ensures With(State(), ret) == DoSendClientCertificate(old(State()), e)
    {
      if !certRequest {
        state := SEND_CLIENT_KEY_EXCHANGE;
        return Ok;
      }
      if e.fail {
        return Error;
      }
      if e.retry {
        return Pending;
      }
      if !cfg.hasCert {
        buffer := None;
      }
      AddMessage(Plain(MT_CERTIFICATE, ChainOf(cfg.hasCert, e.data)));
      state := SEND_CLIENT_KEY_EXCHANGE;
      ret := Ok;
    }

    method SendClientKeyExchange(e: Env) returns (ret: Wait)
      modifies this`state, this`master, this`hash, this`buffer, this`sent
      ensures With(State(), ret) == DoSendClientKeyExchange(old(State()), e)
    {
      if e.fail {
        return Error;
      }
      AddMessage(Plain(MT_CLIENT_KEY_EXCHANGE, e.data));
      master := if hello.ems then hash else None;
      state := SEND_CLIENT_CERTIFICATE_VERIFY;
      ret := Ok;
    }

    method SendClientCertificateVerify(e: Env) returns (ret: Wait)
      modifies this`state, this`hash, this`buffer, this`sent
      ensures With(State(), ret) == DoSendClientCertificateVerify(old(State()), e)
    {
      if !certRequest || !cfg.hasCert {
        state := SEND_CLIENT_FINISHED;
        return Ok;
      }
      if e.fail || buffer.None? {
        return Error;
      }
      if e.retry {
        return Pending;
      }
      AddMessage(Bound(MT_CERTIFICATE_VERIFY, false, buffer.value));
      buffer := None;
      state := SEND_CLIENT_FINISHED;
      ret := Ok;
    }

    /** The cipher change and `ssl_send_finished` */
    method SendFinished(ghost t: Talk)
      requires TalkNow() == t
      modifies this`hash, this`buffer, this`sent, this`log
      ensures TalkNow() == Added(t, Bound(MT_FINISHED, server, Transcript(t)))
      ensures log == old(log) + [WriteCipher] + [OwnFinished]
    {
      log := log + [WriteCipher];
      var over := if hash.Some? then hash.value else if buffer.Some? then buffer.value else [];
      AddMessage(Bound(MT_FINISHED, server, over));
      log := log + [OwnFinished];
    }

    /** ChangeCipherSpec, NextProtocol and ChannelID */
    method QueueBeforeFinished(data: seq<byte>)
      modifies this`hash, this`buffer, this`sent
      ensures TalkNow() == BeforeFinished(old(TalkNow()), hello, data)
    {
      hide Append;
      sent := sent + [Ccs];
      if hello.npn {
        AddMessage(Plain(MT_NEXT_PROTO, data));
      }
      if hello.channelId {
        var over := if hash.Some? then hash.value else if buffer.Some? then buffer.value else [];
        AddMessage(Bound(MT_CHANNEL_ID, false, over));
      }
    }

    method SendClientFinished(e: Env) returns (ret: Wait)
      modifies this`state, this`log, this`hash, this`buffer, this`sent
      ensures With(State(), ret) == DoSendClientFinished(old(State()), e)
    {
      hide BeforeFinished, Append, Added, Transcript;
      if e.fail {
        return Error;
      }
      if hello.channelId && e.retry {
        return Pending;
      }
      QueueBeforeFinished(e.data);
      SendFinished(TalkNow());
      state := FINISH_FLIGHT;
      ret := Flush;
    }

    method FinishFlight(e: Env) returns (ret: Wait)
      modifies this`state, this`original
      ensures With(State(), ret) == DoFinishFlight(old(State()), e)
    {
      if hello.resumed {
        state := FINISH_CLIENT_HANDSHAKE;
        return Ok;
      }
      if e.fail {
        return Error;
      }
      original := hash;
      state := READ_SESSION_TICKET;
      ret := if cfg.falseStart then EarlyReturn else Ok;
    }

    method ReadSessionTicket(e: Env) returns (ret: Wait)
      modifies this`state, this`hash, this`buffer, this`inbox
      ensures With(State(), ret) == DoReadSessionTicket(old(State()), e)
    {
      if !hello.ticket {
        state := PROCESS_SERVER_CCS;
        return ReadCcs;
      }
      var w := Get(MT_NEW_SESSION_TICKET);
      if w.Refused? {
        return w.wait;
      }
      if e.fail {
        return Error;
      }
      HashAndTake(w.m);
      state := PROCESS_SERVER_CCS;
      ret := ReadCcs;
    }

    method ProcessCcs(e: Env, next: nat) returns (ret: Wait)
      modifies this`state, this`log
      ensures With(State(), ret) == CipherRead(old(State()), e, next)
    {
      if e.fail {
        return Error;
      }
      log := log + [ReadCipher];
      state := next;
      ret := Ok;
    }

    /** `ssl_get_finished` */
    method GetFinished(e: Env, next: nat) returns (ret: Wait)
      modifies this`state, this`log, this`hash, this`buffer, this`inbox
      ensures With(State(), ret) == FinishedRead(old(State()), e, next)
    {
      var w := Get(MT_FINISHED);
      if w.Refused? {
        return w.wait;
      }
      var over := if hash.Some? then hash.value else if buffer.Some? then buffer.value else [];
      if e.fail || w.m != Bound(MT_FINISHED, !server, over) {
        return Error;
      }
      HashAndTake(w.m);
      log := log + [PeerFinished];
      state := next;
      ret := Ok;
    }

    method FinishHandshake(e: Env, next: nat) returns (ret: Wait)
      modifies this`state
      ensures With(State(), ret) == DoFinishHandshake(old(State()), e, next)
    {
      if e.fail {
        return Error;
      }
      state := next;
      ret := Ok;
    }

    // ---- server

    method ReadClientHello(e: Env) returns (ret: Wait)
      modifies this`state
      ensures With(State(), ret) == DoReadClientHello(old(State()), e)
    {
      var w := Get(MT_CLIENT_HELLO);
      if w.Refused? {
        return w.wait;
      }
      if e.fail {
        return Error;
      }
      if e.retry {
        return Pending;
      }
      state := SELECT_CERTIFICATE;
      ret := Ok;
    }

    method SelectCertificate(e: Env) returns (ret: Wait)
      modifies this`state
      ensures With(State(), ret) == DoSelectCertificate(old(State()), e)
    {
      if inbox == [] {
        return ReadMessage;
      }
      if inbox[0].Ccs? {
        return Error;
      }
      if e.fail {
        return Error;
      }
      if e.retry {
        return Pending;
      }
      state := SELECT_PARAMETERS;
      ret := Ok;
    }

    method SelectParameters(e: Env) returns (ret: Wait)
      modifies this`state, this`hello, this`certRequest, this`hash, this`buffer, this`inbox
      ensures With(State(), ret) == DoSelectParameters(old(State()), e)
    {
      hide HelloOf, AsksCertificate, Append;
      if inbox == [] {
        return ReadMessage;
      }
      if inbox[0].Ccs? {
        return Error;
      }
      var m := inbox[0].m;
      if e.fail {
        return Error;
      }
      if e.retry {
        return Pending;
      }
      hello := HelloOf(cfg);
      certRequest := AsksCertificate(cfg);
      hash := buffer;
      HashAndTake(m);
      if !certRequest {
        buffer := None;
      }
      state := SEND_SERVER_HELLO;
      ret := Ok;
    }

    method SendServerHello(e: Env) returns (ret: Wait)
      modifies this`state, this`hash, this`buffer, this`sent
      ensures With(State(), ret) == DoSendServerHello(old(State()), e)
    {
      if e.fail {
        return Error;
      }
      AddMessage(ServerHello(hello, e.data));
      state := if hello.resumed then SEND_SERVER_FINISHED else SEND_SERVER_CERTIFICATE;
      ret := Ok;
    }

    method SendServerCertificate(e: Env) returns (ret: Wait)
      modifies this`state, this`ske, this`hash, this`buffer, this`sent
      ensures With(State(), ret) == DoSendServerCertificate(old(State()), e)
    {
      if e.fail {
        return Error;
      }
      if CertAuth(hello.cipher) {
        AddMessage(Plain(MT_CERTIFICATE, ChainOf(true, e.data)));
        if hello.status {
          AddMessage(Plain(MT_CERTIFICATE_STATUS, e.data));
        }
      }
      ske := SendsKeyExchange(cfg);
      state := SEND_SERVER_KEY_EXCHANGE;
      ret := Ok;
    }

    method SendServerKeyExchange(e: Env) returns (ret: Wait)
      modifies this`state, this`ske, this`hash, this`buffer, this`sent
      ensures With(State(), ret) == DoSendServerKeyExchange(old(State()), e)
    {
      if !ske {
        state := SEND_SERVER_HELLO_DONE;
        return Ok;
      }
      if e.fail {
        return Error;
      }
      if CertAuth(hello.cipher) && e.retry {
        return Pending;
      }
      AddMessage(Plain(MT_SERVER_KEY_EXCHANGE, e.data));
      ske := false;
      state := SEND_SERVER_HELLO_DONE;
      ret := Ok;
    }

    method SendServerHelloDone(e: Env) returns (ret: Wait)
      modifies this`state, this`hash, this`buffer, this`sent
      ensures With(State(), ret) == DoSendServerHelloDone(old(State()), e)
    {
      if e.fail {
        return Error;
      }
      if certRequest {
        AddMessage(Plain(MT_CERTIFICATE_REQUEST, e.data));
      }
      AddMessage(Plain(MT_SERVER_HELLO_DONE, []));
      state := READ_CLIENT_CERTIFICATE;
      ret := Flush;
    }

    method ReadClientCertificate(e: Env) returns (ret: Wait)
      modifies this`state, this`peerCert, this`hash, this`buffer, this`inbox
      ensures With(State(), ret) == DoReadClientCertificate(old(State()), e)
    {
      if !certRequest {
        state := VERIFY_CLIENT_CERTIFICATE;
        return Ok;
      }
      var w := Get(MT_CERTIFICATE);
      if w.Refused? {
        return w.wait;
      }
      if e.fail || !w.m.Plain? {
        return Error;
      }
      HashAndTake(w.m);
      peerCert := w.m.data != [];
      if w.m.data == [] {
        buffer := None;
      }
      state := VERIFY_CLIENT_CERTIFICATE;
      ret := Ok;
    }

    method VerifyClientCertificate(e: Env) returns (ret: Wait)
      modifies this`state
      ensures With(State(), ret) == DoVerifyClientCertificate(old(State()), e)
    {
      if peerCert {
        if e.fail {
          return Error;
        }
        if e.retry {
          return Pending;
        }
      }
      state := READ_CLIENT_KEY_EXCHANGE;
      ret := Ok;
    }

    method ReadClientKeyExchange(e: Env) returns (ret: Wait)
      modifies this`state, this`master, this`hash, this`buffer, this`inbox
      ensures With(State(), ret) == DoReadClientKeyExchange(old(State()), e)
    {
      var w := Get(MT_CLIENT_KEY_EXCHANGE);
      if w.Refused? {
        return w.wait;
      }
      if e.fail {
        return Error;
      }
      if e.retry {
        return Pending;
      }
      HashAndTake(w.m);
      master := if hello.ems then hash else None;
      state := READ_CLIENT_CERTIFICATE_VERIFY;
      ret := Ok;
    }

    method ReadClientCertificateVerify(e: Env) returns (ret: Wait)
      modifies this`state, this`hash, this`buffer, this`inbox
      ensures With(State(), ret) == DoReadClientCertificateVerify(old(State()), e)
    {
      if !peerCert {
        buffer := None;
        state := READ_CLIENT_CCS;
        return Ok;
      }
      var w := Get(MT_CERTIFICATE_VERIFY);
      if w.Refused? {
        return w.wait;
      }
      if e.fail || buffer.None? || w.m != Bound(MT_CERTIFICATE_VERIFY, false, buffer.value) {
        return Error;
      }
      buffer := None;
      HashAndTake(w.m);
      state := READ_CLIENT_CCS;
      ret := Ok;
    }

    method ReadNextProto(e: Env) returns (ret: Wait)
      modifies this`state, this`hash, this`buffer, this`inbox
      ensures With(State(), ret) == DoReadNextProto(old(State()), e)
    {
      if !hello.npn {
        state := READ_CHANNEL_ID;
        return Ok;
      }
      var w := Get(MT_NEXT_PROTO);
      if w.Refused? {
        return w.wait;
      }
      if e.fail {
        return Error;
      }
      HashAndTake(w.m);
      state := READ_CHANNEL_ID;
      ret := Ok;
    }

    method ReadChannelId(e: Env) returns (ret: Wait)
      modifies this`state, this`hash, this`buffer, this`inbox
      ensures With(State(), ret) == DoReadChannelId(old(State()), e)
    {
      if !hello.channelId {
        state := READ_CLIENT_FINISHED;
        return Ok;
      }
      var w := Get(MT_CHANNEL_ID);
      if w.Refused? {
        return w.wait;
      }
      var over := if hash.Some? then hash.value else if buffer.Some? then buffer.value else [];
      if e.fail || w.m != Bound(MT_CHANNEL_ID, false, over) {
        return Error;
      }
      HashAndTake(w.m);
      state := READ_CLIENT_FINISHED;
      ret := Ok;
    }

    method ReadClientFinished(e: Env) returns (ret: Wait)
      modifies this`state, this`log, this`original, this`hash, this`buffer, this`inbox
      ensures With(State(), ret) == DoReadClientFinished(old(State()), e)
    {
      ret := GetFinished(e, if hello.resumed then FINISH_SERVER_HANDSHAKE else SEND_SERVER_FINISHED);
      if state == SEND_SERVER_FINISHED && hello.channelId {
        original := hash;
      }
    }

    method SendServerFinished(e: Env) returns (ret: Wait)
      modifies this`state, this`log, this`hash, this`buffer, this`sent
      ensures With(State(), ret) == DoSendServerFinished(old(State()), e)
    {
      if e.fail {
        return Error;
      }
      if hello.ticket {
        AddMessage(Plain(MT_NEW_SESSION_TICKET, e.data));
      }
      sent := sent + [Ccs];
      SendFinished(TalkNow());
      state := if hello.resumed then READ_CLIENT_CCS else FINISH_SERVER_HANDSHAKE;
      ret := Flush;
    }

    // ---- the drivers

    /** The switch of `ssl_client_handshake` */
    method ClientStep(e: Env) returns (ret: Wait)
      requires !server
      modifies this`state, this`hello, this`certRequest, this`peerCert, this`ske, this`hash, this`buffer, this`inbox
      modifies this`sent, this`master, this`original, this`log
      ensures With(State(), ret) == Do(old(State()), e)
    {
      hide DoStartConnect, DoReadServerHello, DoReadServerCertificate, DoReadCertificateStatus,
        DoVerifyServerCertificate, DoReadServerKeyExchange, DoReadCertificateRequest, DoReadServerHelloDone,
        DoSendClientCertificate, DoSendClientKeyExchange, DoSendClientCertificateVerify,
        DoSendClientFinished, DoFinishFlight, DoReadSessionTicket, DoReadServerFinished, CipherRead,
        FinishedRead, DoFinishHandshake;
      if state == START_CONNECT {
        ret := StartConnect(e);
      } else if state == READ_SERVER_HELLO {
        ret := ReadServerHello(e);
      } else if state == READ_SERVER_CERTIFICATE {
        ret := ReadServerCertificate(e);
      } else if state == READ_CERTIFICATE_STATUS {
        ret := ReadCertificateStatus(e);
      } else if state == VERIFY_SERVER_CERTIFICATE {
        ret := VerifyServerCertificate(e);
      } else if state == READ_SERVER_KEY_EXCHANGE {
        ret := ReadServerKeyExchange(e);
      } else if state == READ_CERTIFICATE_REQUEST {
        ret := ReadCertificateRequest(e);
      } else if state == READ_SERVER_HELLO_DONE {
        ret := ReadServerHelloDone(e);
      } else if state == SEND_CLIENT_CERTIFICATE {
        ret := SendClientCertificate(e);
      } else if state == SEND_CLIENT_KEY_EXCHANGE {
        ret := SendClientKeyExchange(e);
      } else if state == SEND_CLIENT_CERTIFICATE_VERIFY {
        ret := SendClientCertificateVerify(e);
      } else if state == SEND_CLIENT_FINISHED {
        ret := SendClientFinished(e);
      } else if state == FINISH_FLIGHT {
        ret := FinishFlight(e);
      } else if state == READ_SESSION_TICKET {
        ret := ReadSessionTicket(e);
      } else if state == ENTER_EARLY_DATA {
        state := READ_SERVER_HELLO;
        ret := Ok;
      } else if state == PROCESS_SERVER_CCS {
        ret := ProcessCcs(e, READ_SERVER_FINISHED);
      } else if state == READ_SERVER_FINISHED {
        ServerFinishedIs(State(), e);
        ret := GetFinished(e, if hello.resumed then SEND_CLIENT_FINISHED else FINISH_CLIENT_HANDSHAKE);
      } else if state == FINISH_CLIENT_HANDSHAKE {
        ret := FinishHandshake(e, CLIENT_DONE);
      } else {
        ret := Ok;
      }
    }

    /** The switch of `ssl_server_handshake` */
    method ServerStep(e: Env) returns (ret: Wait)
      requires server
      modifies this`state, this`hello, this`certRequest, this`peerCert, this`ske, this`hash, this`buffer, this`inbox
      modifies this`sent, this`master, this`original, this`log
      ensures With(State(), ret) == Do(old(State()), e)
    {
      hide DoReadClientHello, DoSelectCertificate, DoSelectParameters, DoSendServerHello,
        DoSendServerCertificate, DoSendServerKeyExchange, DoSendServerHelloDone, DoReadClientCertificate,
        DoVerifyClientCertificate, DoReadClientKeyExchange, DoReadClientCertificateVerify, DoReadNextProto,
        DoReadChannelId, DoReadClientFinished, DoSendServerFinished, CipherRead, DoFinishHandshake;
      if state == READ_CLIENT_HELLO {
        ret := ReadClientHello(e);
      } else if state == SELECT_CERTIFICATE {
        ret := SelectCertificate(e);
      } else if state == SELECT_PARAMETERS {
        ret := SelectParameters(e);
      } else if state == SEND_SERVER_HELLO {
        ret := SendServerHello(e);
      } else if state == SEND_SERVER_CERTIFICATE {
        ret := SendServerCertificate(e);
      } else if state == SEND_SERVER_KEY_EXCHANGE {
        ret := SendServerKeyExchange(e);
      } else if state == SEND_SERVER_HELLO_DONE {
        ret := SendServerHelloDone(e);
      } else if state == READ_CLIENT_CERTIFICATE {
        ret := ReadClientCertificate(e);
      } else if state == VERIFY_CLIENT_CERTIFICATE {
        ret := VerifyClientCertificate(e);
      } else if state == READ_CLIENT_KEY_EXCHANGE {
        ret := ReadClientKeyExchange(e);
      } else if state == READ_CLIENT_CERTIFICATE_VERIFY {
        ret := ReadClientCertificateVerify(e);
      } else if state == READ_NEXT_PROTO {
        ret := ReadNextProto(e);
      } else if state == READ_CHANNEL_ID {
        ret := ReadChannelId(e);
      } else if state == READ_CLIENT_FINISHED {
        ret := ReadClientFinished(e);
      } else if state == SEND_SERVER_FINISHED {
        ret := SendServerFinished(e);
      } else if state == START_ACCEPT {
        state := READ_CLIENT_HELLO;
        ret := Ok;
      } else if state == READ_CLIENT_CCS {
        state := PROCESS_CLIENT_CCS;
        ret := ReadCcs;
      } else if state == PROCESS_CLIENT_CCS {
        ret := ProcessCcs(e, READ_NEXT_PROTO);
      } else if state == FINISH_SERVER_HANDSHAKE {
        ret := FinishHandshake(e, SERVER_DONE);
      } else {
        ret := Ok;
      }
    }

    /** What arrives on the connection */
    method Receive(item: Item)
      modifies this`inbox, this`past
      ensures past == old(past) + [Arrive(item)] && State() == Next(old(State()), Arrive(item))
      ensures old(Genuine()) ==> Genuine()
    {
      inbox := inbox + [item];
      past := past + [Arrive(item)];
      ExecSnoc(Origin(), old(past), Arrive(item));
    }

    /** What `ssl_run_handshake` does about the last wait, and one step. */
    method Resume(e: Env)
      modifies this
      ensures past == old(past) + [Run(e)] && State() == Next(old(State()), Run(e))
      ensures old(Genuine()) ==> Genuine()
    {
      hide Do, Exec;
      ExecSnoc(Origin(), past, Run(e));
      past := past + [Run(e)];
      if Done() || wait == Error {
        return;
      }
      if wait == ReadCcs {
        if inbox == [] {
          return;
        }
        if inbox[0].Hs? {
          wait := Error;
          return;
        }
        inbox := inbox[1..];
        wait := Ok;
      }
      if server {
        wait := ServerStep(e);
      } else {
        wait := ClientStep(e);
      }
    }

    /** The loop of `ssl_client_handshake` or `ssl_server_handshake` inside that of `ssl_run_handshake`: it runs until a
        step waits or the handshake is done. The measure of TlsRuns falls with every step that does not wait, so the
        loop ends. Once done, this side sent and read one ChangeCipherSpec and one Finished, each after the other, in
        the order that resumption fixes, and everything the peer had to vouch for was checked. */
    method RunHandshake() returns (ret: Wait)
      requires Genuine()
      modifies this
      ensures Genuine() && old(past) <= past && ret == wait && (ret == Ok <==> Done())
      ensures Arrived(past) == Arrived(old(past))
      ensures Done() ==> QueuedMarks(sent) == [WriteCipher, OwnFinished]
      ensures Done() ==> exists read :: Arrived(past) == read + inbox && HeardMarks(read) == [ReadCipher, PeerFinished]
      ensures Done() ==> log == ClosingOrder(server, hello.resumed)
      ensures Done() ==> Checked(State(), Readings(Origin(), past, []))
      ensures Done() && !hello.resumed && (if server then peerCert else CertAuth(hello.cipher)) ==>
        VerifiedIn(Origin(), past)
      ensures Done() ==>
        KindsSent(sent) ==
          if server then ServerHasSent(SERVER_DONE, State().neg, cfg)
          else ClientHasSent(CLIENT_DONE, State().neg, cfg.hasCert)
    {
      hide Exec, Local, Turn, Rank, QueuedMarks, HeardMarks, Arrived, Checked, VerifiedIn,
        KindsSent, ServerHasSent, ClientHasSent;
      StartsLocal(cfg);
      while !Done()
        invariant Genuine() && old(past) <= past && Arrived(past) == Arrived(old(past))
        decreases Rank(hello.resumed, state)
      {
        ghost var before := State();
        ExecKeeps(Origin(), past);
        var e: Env := *;
        ArrivedRun(past, e);
        Resume(e);
        TurnMoves(before, e);
        if wait != Ok {
          DoneWaitsForNothing(Origin(), cfg, past);
          return wait;
        }
      }
      DoneWaitsForNothing(Origin(), cfg, past);
      OneOwnFinished(Origin(), cfg, past);
      FinishedRunIsOrdered(Origin(), cfg, past);
      OnePeerFinished(Origin(), cfg, past);
      PeerIsChecked(Origin(), cfg, past);
      OnlyVerifiedIsTrusted(Origin(), cfg, past);
      FinishedSendsAreLegal(Origin(), cfg, past);
      ret := Ok;
    }
  }

  lemma ServerFinishedIs(h: Side, e: Env)
    ensures DoReadServerFinished(h, e) ==
      FinishedRead(h, e, if Resumed(h) then SEND_CLIENT_FINISHED else FINISH_CLIENT_HANDSHAKE)
  {
  }

  /** Only legal messages were read, and the peer made its Finished, and if it took part with a certificate or a
      Channel ID also those messages, over all that was said before. */
  ghost predicate Checked(h: Side, rs: seq<Reading>) {
    && LegalReads(h, rs) && (forall x :: x in rs ==> Vouched(h.who.server, x))
    && HeardVouched(h.who.server, rs, MT_FINISHED)
    && (h.who.server && !Resumed(h) && h.neg.peerCert ==> HeardVouched(true, rs, MT_CERTIFICATE_VERIFY))
    && (h.who.server && h.neg.hello.channelId ==> HeardVouched(true, rs, MT_CHANNEL_ID))
  }

  lemma PeerIsChecked(start: Side, cfg: Config, evs: seq<Event>)
    requires start == Client(cfg) || start == Server(cfg)
    requires Finished(Exec(start, evs))
    ensures Checked(Exec(start, evs), Readings(start, evs, []))
  {
    hide Exec, Readings, Vouched, LegalReads, HeardVouched, Local, Arrived, Items;
    StartsLocal(cfg);
    ExecKeeps(start, evs);
    OnlyVouchedIsRead(start, cfg, evs);
    FinishedReadsAreLegal(start, cfg, evs);
    PeerIsVouched(start, cfg, evs);
  }

  function ClosingOrder(server: bool, resumed: bool): seq<Mark> {
    if server == resumed then [WriteCipher, OwnFinished, ReadCipher, PeerFinished]
    else [ReadCipher, PeerFinished, WriteCipher, OwnFinished]
  }

  lemma ArrivedRun(evs: seq<Event>, e: Env)
    ensures Arrived(evs + [Run(e)]) == Arrived(evs)
    decreases |evs|
  {
    if evs == [] {
      assert evs + [Run(e)] == [Run(e)] && [Run(e)][1..] == [];
    } else {
      assert (evs + [Run(e)])[1..] == evs[1..] + [Run(e)];
      ArrivedRun(evs[1..], e);
    }
  }

  /** A turn that ends without a wait brings the end nearer. */
  lemma TurnMoves(h: Side, e: Env)
    requires Local(h) && !Finished(h)
    ensures Turn(h, e).at.wait == Ok ==> Rank(Resumed(Turn(h, e)), Turn(h, e).at.state) < Rank(Resumed(h), h.at.state)
  {
    hide Local, Do, Rank;
    if h.at.wait == ReadCcs && h.talk.inbox != [] {
      Rewaits(h, h.talk.inbox[1..], Ok);
      StepMovesOrWaits(CcsTaken(h), e);
    } else {
      StepMovesOrWaits(h, e);
    }
  }
}
