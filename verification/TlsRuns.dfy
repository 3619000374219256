/** One handshake against any peer: how it ends, in what order, and that it cannot loop. */
module TlsRuns {
  import opened Bytes
  import opened TlsHandshake

  predicate IsServerState(st: nat) {
    st >= START_ACCEPT
  }

  /** A measure of what is left. Resumption swaps the two flights that end the handshake. */
  function Rank(resumed: bool, st: nat): nat {
    if st <= CLIENT_DONE then
      if resumed && (st == SEND_CLIENT_FINISHED || st == FINISH_FLIGHT) then FINISH_CLIENT_HANDSHAKE - st
      else 3 * (CLIENT_DONE - st)
    else if st <= SERVER_DONE then
      if resumed && st == SEND_SERVER_FINISHED then 3 * (SERVER_DONE - READ_CLIENT_CCS) + 1
      else 3 * (SERVER_DONE - st)
    else 0
  }

  /** The n-th of the four steps that end a handshake: each side's Finished comes right after its cipher change, and
      who goes first depends on resumption. */
  function MarkAt(server: bool, resumed: bool, n: nat): Mark {
    if server == resumed then
      if n == 0 then WriteCipher else if n == 1 then OwnFinished else if n == 2 then ReadCipher else PeerFinished
    else
      if n == 0 then ReadCipher else if n == 1 then PeerFinished else if n == 2 then WriteCipher else OwnFinished
  }

  /** The first n of them. */
  function FirstMarks(server: bool, resumed: bool, n: nat): seq<Mark> {
    if n == 0 then [] else FirstMarks(server, resumed, n - 1) + [MarkAt(server, resumed, n - 1)]
  }

  /** How many of them are done in a state. */
  function DoneSoFar(resumed: bool, st: nat): nat {
    if st < SEND_CLIENT_FINISHED then 0
    else if st == SEND_CLIENT_FINISHED then (if resumed then 2 else 0)
    else if st == FINISH_FLIGHT then (if resumed then 4 else 2)
    else if st <= PROCESS_SERVER_CCS then (if resumed then 0 else 2)
    else if st == READ_SERVER_FINISHED then (if resumed then 1 else 3)
    else if st <= CLIENT_DONE then 4
    else if st < READ_CLIENT_CCS then 0
    else if st <= PROCESS_CLIENT_CCS then (if resumed then 2 else 0)
    else if st <= READ_CLIENT_FINISHED then (if resumed then 3 else 1)
    else if st == SEND_SERVER_FINISHED then (if resumed then 0 else 2)
    else 4
  }

  /** Before the ServerHello. */
  predicate Early(st: nat) {
    st <= READ_SERVER_HELLO || START_ACCEPT <= st <= SELECT_PARAMETERS
  }

  /** The transcript is hashed from the hellos on, and the buffer, while there is one, holds the same. */
  predicate HashOk(st: nat, hello: Hello, t: Talk) {
    && (if Early(st) then t.hash == None && hello == NO_HELLO && t.buffer.Some? else t.hash.Some?)
    && (t.hash.Some? && t.buffer.Some? ==> t.hash.value == t.buffer.value)
  }

  /** Where a CertificateVerify is still to come, the buffer it is made over has not been freed. */
  predicate BufferOk(st: nat, neg: Neg, hasCert: bool, buffer: bool) {
    if st <= READ_SERVER_HELLO then !neg.certRequest
    else if st <= READ_CERTIFICATE_REQUEST then !neg.certRequest && (CertAuth(neg.hello.cipher) ==> buffer)
    else if st <= SEND_CLIENT_CERTIFICATE then neg.certRequest ==> buffer
    else if st <= SEND_CLIENT_CERTIFICATE_VERIFY then neg.certRequest && hasCert ==> buffer
    else if st <= CLIENT_DONE then true
    else if st <= SELECT_PARAMETERS then !neg.peerCert
    else if st <= READ_CLIENT_CERTIFICATE then !neg.peerCert && (neg.certRequest ==> buffer)
    else if st <= READ_CLIENT_CERTIFICATE_VERIFY then neg.peerCert ==> buffer
    else true
  }

  predicate LogOk(h: Side) {
    h.notes.log == FirstMarks(h.who.server, Resumed(h), DoneSoFar(Resumed(h), h.at.state))
  }

  /** The states that resumption skips. */
  predicate FullOnly(st: nat) {
    READ_SERVER_CERTIFICATE <= st <= SEND_CLIENT_CERTIFICATE_VERIFY
      || SEND_SERVER_CERTIFICATE <= st <= READ_CLIENT_CERTIFICATE_VERIFY
  }

  predicate Known(st: nat) {
    (st <= CLIENT_DONE && st != 2 && st != 4) || (START_ACCEPT <= st <= SERVER_DONE && st != 35)
  }

  /** Past the key exchange an extended master secret has been made; past the client's Finished the session has the
      handshake on record. */
  predicate NotesMade(st: nat, hello: Hello, notes: Notes) {
    hello.resumed ||
    (&& (hello.ems && (SEND_CLIENT_KEY_EXCHANGE < st <= CLIENT_DONE || st > READ_CLIENT_KEY_EXCHANGE) ==>
      notes.master.Some?)
     && (FINISH_FLIGHT < st <= CLIENT_DONE || (hello.channelId && st > READ_CLIENT_FINISHED) ==> notes.original.Some?))
  }

  predicate Local(h: Side) {
    && NotesMade(h.at.state, h.neg.hello, h.notes)
    && Known(h.at.state)
    && (FullOnly(h.at.state) ==> !Resumed(h))
    && h.who.server == IsServerState(h.at.state)
    && LogOk(h) && HashOk(h.at.state, h.neg.hello, h.talk)
    && BufferOk(h.at.state, h.neg, h.who.cfg.hasCert, h.talk.buffer.Some?)
  }

  /** Either nothing but the wait changes, or what is left shrinks. */
  predicate Moves(h: Side, r: Side) {
    && r.who == h.who
    && if r.at.state == h.at.state then
         r == Stay(h, r.at.wait) && (r.at.wait == ReadMessage || r.at.wait == Pending || r.at.wait == Error)
       else Rank(Resumed(r), r.at.state) < Rank(Resumed(h), h.at.state)
  }

  predicate Kept(h: Side, r: Side) {
    Local(r) && Moves(h, r)
  }

  // ---- every step keeps the invariant

  lemma StartConnectKeeps(h: Side, e: Env)
    requires Local(h) && h.at.state == START_CONNECT
    ensures Kept(h, DoStartConnect(h, e))
  {
    hide FirstMarks;
  }

  lemma ReadServerHelloKeeps(h: Side, e: Env)
    requires Local(h) && h.at.state == READ_SERVER_HELLO
    ensures Kept(h, DoReadServerHello(h, e))
  {
  }

  lemma ReadServerCertificateKeeps(h: Side, e: Env)
    requires Local(h) && h.at.state == READ_SERVER_CERTIFICATE
    ensures Kept(h, DoReadServerCertificate(h, e))
  {
    hide FirstMarks;
  }

  lemma ReadCertificateStatusKeeps(h: Side, e: Env)
    requires Local(h) && h.at.state == READ_CERTIFICATE_STATUS
    ensures Kept(h, DoReadCertificateStatus(h, e))
  {
    hide FirstMarks;
  }

  lemma VerifyServerCertificateKeeps(h: Side, e: Env)
    requires Local(h) && h.at.state == VERIFY_SERVER_CERTIFICATE
    ensures Kept(h, DoVerifyServerCertificate(h, e))
  {
    hide FirstMarks;
  }

  lemma ReadServerKeyExchangeKeeps(h: Side, e: Env)
    requires Local(h) && h.at.state == READ_SERVER_KEY_EXCHANGE
    ensures Kept(h, DoReadServerKeyExchange(h, e))
  {
    hide FirstMarks;
  }

  lemma ReadCertificateRequestKeeps(h: Side, e: Env)
    requires Local(h) && h.at.state == READ_CERTIFICATE_REQUEST
    ensures Kept(h, DoReadCertificateRequest(h, e))
  {
    hide FirstMarks;
  }

  lemma ReadServerHelloDoneKeeps(h: Side, e: Env)
    requires Local(h) && h.at.state == READ_SERVER_HELLO_DONE
    ensures Kept(h, DoReadServerHelloDone(h, e))
  {
    hide FirstMarks;
  }

  lemma SendClientCertificateKeeps(h: Side, e: Env)
    requires Local(h) && h.at.state == SEND_CLIENT_CERTIFICATE
    ensures Kept(h, DoSendClientCertificate(h, e))
  {
    hide FirstMarks;
  }

  lemma SendClientKeyExchangeKeeps(h: Side, e: Env)
    requires Local(h) && h.at.state == SEND_CLIENT_KEY_EXCHANGE
    ensures Kept(h, DoSendClientKeyExchange(h, e))
  {
    hide FirstMarks;
  }

  lemma SendClientCertificateVerifyKeeps(h: Side, e: Env)
    requires Local(h) && h.at.state == SEND_CLIENT_CERTIFICATE_VERIFY
    ensures Kept(h, DoSendClientCertificateVerify(h, e))
  {
    hide FirstMarks;
  }

  lemma SendClientFinishedKeeps(h: Side, e: Env)
    requires Local(h) && h.at.state == SEND_CLIENT_FINISHED
    ensures Kept(h, DoSendClientFinished(h, e))
  {
  }

  lemma FinishFlightKeeps(h: Side, e: Env)
    requires Local(h) && h.at.state == FINISH_FLIGHT
    ensures Kept(h, DoFinishFlight(h, e))
  {
    hide FirstMarks;
  }

  lemma ReadSessionTicketKeeps(h: Side, e: Env)
    requires Local(h) && h.at.state == READ_SESSION_TICKET
    ensures Kept(h, DoReadSessionTicket(h, e))
  {
    hide FirstMarks;
  }

  lemma ReadServerFinishedKeeps(h: Side, e: Env)
    requires Local(h) && h.at.state == READ_SERVER_FINISHED
    ensures Kept(h, DoReadServerFinished(h, e))
  {
  }

  lemma ReadClientHelloKeeps(h: Side, e: Env)
    requires Local(h) && h.at.state == READ_CLIENT_HELLO
    ensures Kept(h, DoReadClientHello(h, e))
  {
    hide FirstMarks;
  }

  lemma SelectCertificateKeeps(h: Side, e: Env)
    requires Local(h) && h.at.state == SELECT_CERTIFICATE
    ensures Kept(h, DoSelectCertificate(h, e))
  {
    hide FirstMarks;
  }

  lemma SelectParametersKeeps(h: Side, e: Env)
    requires Local(h) && h.at.state == SELECT_PARAMETERS
    ensures Kept(h, DoSelectParameters(h, e))
  {
  }

  lemma SendServerHelloKeeps(h: Side, e: Env)
    requires Local(h) && h.at.state == SEND_SERVER_HELLO
    ensures Kept(h, DoSendServerHello(h, e))
  {
    hide FirstMarks;
  }

  lemma SendServerCertificateKeeps(h: Side, e: Env)
    requires Local(h) && h.at.state == SEND_SERVER_CERTIFICATE
    ensures Kept(h, DoSendServerCertificate(h, e))
  {
    hide FirstMarks;
  }

  lemma SendServerKeyExchangeKeeps(h: Side, e: Env)
    requires Local(h) && h.at.state == SEND_SERVER_KEY_EXCHANGE
    ensures Kept(h, DoSendServerKeyExchange(h, e))
  {
    hide FirstMarks;
  }

  lemma SendServerHelloDoneKeeps(h: Side, e: Env)
    requires Local(h) && h.at.state == SEND_SERVER_HELLO_DONE
    ensures Kept(h, DoSendServerHelloDone(h, e))
  {
    hide FirstMarks;
  }

  lemma ReadClientCertificateKeeps(h: Side, e: Env)
    requires Local(h) && h.at.state == READ_CLIENT_CERTIFICATE
    ensures Kept(h, DoReadClientCertificate(h, e))
  {
    hide FirstMarks;
  }

  lemma VerifyClientCertificateKeeps(h: Side, e: Env)
    requires Local(h) && h.at.state == VERIFY_CLIENT_CERTIFICATE
    ensures Kept(h, DoVerifyClientCertificate(h, e))
  {
    hide FirstMarks;
  }

  lemma ReadClientKeyExchangeKeeps(h: Side, e: Env)
    requires Local(h) && h.at.state == READ_CLIENT_KEY_EXCHANGE
    ensures Kept(h, DoReadClientKeyExchange(h, e))
  {
    hide FirstMarks;
  }

  lemma ReadClientCertificateVerifyKeeps(h: Side, e: Env)
    requires Local(h) && h.at.state == READ_CLIENT_CERTIFICATE_VERIFY
    ensures Kept(h, DoReadClientCertificateVerify(h, e))
  {
    hide FirstMarks;
  }

  lemma ReadNextProtoKeeps(h: Side, e: Env)
    requires Local(h) && h.at.state == READ_NEXT_PROTO
    ensures Kept(h, DoReadNextProto(h, e))
  {
    hide FirstMarks;
  }

  lemma ReadChannelIdKeeps(h: Side, e: Env)
    requires Local(h) && h.at.state == READ_CHANNEL_ID
    ensures Kept(h, DoReadChannelId(h, e))
  {
    hide FirstMarks;
  }

  lemma ReadClientFinishedKeeps(h: Side, e: Env)
    requires Local(h) && h.at.state == READ_CLIENT_FINISHED
    ensures Kept(h, DoReadClientFinished(h, e))
  {
  }

  lemma SendServerFinishedKeeps(h: Side, e: Env)
    requires Local(h) && h.at.state == SEND_SERVER_FINISHED
    ensures Kept(h, DoSendServerFinished(h, e))
  {
  }

  lemma CipherReadKeeps(h: Side, e: Env)
    requires Local(h) && (h.at.state == PROCESS_SERVER_CCS || h.at.state == PROCESS_CLIENT_CCS)
    ensures Kept(h, CipherRead(h, e, h.at.state + 1))
  {
  }

  lemma SimpleKeeps(h: Side, e: Env)
    requires Local(h)
    ensures h.at.state == ENTER_EARLY_DATA ==> Kept(h, Goto(h, READ_SERVER_HELLO))
    ensures h.at.state == START_ACCEPT ==> Kept(h, Goto(h, READ_CLIENT_HELLO))
    ensures h.at.state == READ_CLIENT_CCS ==> Kept(h, h.(at := At(PROCESS_CLIENT_CCS, ReadCcs)))
  {
    hide FirstMarks;
  }

  lemma FinishHandshakeKeeps(h: Side, e: Env)
    requires Local(h) && (h.at.state == FINISH_CLIENT_HANDSHAKE || h.at.state == FINISH_SERVER_HANDSHAKE)
    ensures Kept(h, DoFinishHandshake(h, e, h.at.state + 1))
  {
    hide FirstMarks;
  }

  predicate Finished(h: Side) {
    h.at.state == CLIENT_DONE || h.at.state == SERVER_DONE
  }

  lemma ClientKeeps(h: Side, e: Env)
    requires Local(h) && !h.who.server && !Finished(h)
    ensures Kept(h, DoClient(h, e))
  {
    hide Local, Moves, Goto, DoStartConnect, DoReadServerHello, DoReadServerCertificate,
      DoReadCertificateStatus, DoVerifyServerCertificate, DoReadServerKeyExchange, DoReadCertificateRequest,
      DoReadServerHelloDone, DoSendClientCertificate, DoSendClientKeyExchange, DoSendClientCertificateVerify,
      DoSendClientFinished, DoFinishFlight, DoReadSessionTicket, DoReadServerFinished, CipherRead,
      DoFinishHandshake;
    LocalState(h);
    var st := h.at.state;
    if st == START_CONNECT { StartConnectKeeps(h, e); }
    else if st == READ_SERVER_HELLO { ReadServerHelloKeeps(h, e); }
    else if st == READ_SERVER_CERTIFICATE { ReadServerCertificateKeeps(h, e); }
    else if st == READ_CERTIFICATE_STATUS { ReadCertificateStatusKeeps(h, e); }
    else if st == VERIFY_SERVER_CERTIFICATE { VerifyServerCertificateKeeps(h, e); }
    else if st == READ_SERVER_KEY_EXCHANGE { ReadServerKeyExchangeKeeps(h, e); }
    else if st == READ_CERTIFICATE_REQUEST { ReadCertificateRequestKeeps(h, e); }
    else if st == READ_SERVER_HELLO_DONE { ReadServerHelloDoneKeeps(h, e); }
    else if st == SEND_CLIENT_CERTIFICATE { SendClientCertificateKeeps(h, e); }
    else if st == SEND_CLIENT_KEY_EXCHANGE { SendClientKeyExchangeKeeps(h, e); }
    else if st == SEND_CLIENT_CERTIFICATE_VERIFY { SendClientCertificateVerifyKeeps(h, e); }
    else if st == SEND_CLIENT_FINISHED { SendClientFinishedKeeps(h, e); }
    else if st == FINISH_FLIGHT { FinishFlightKeeps(h, e); }
    else if st == READ_SESSION_TICKET { ReadSessionTicketKeeps(h, e); }
    else if st == READ_SERVER_FINISHED { ReadServerFinishedKeeps(h, e); }
    else if st == PROCESS_SERVER_CCS { CipherReadKeeps(h, e); }
    else if st == FINISH_CLIENT_HANDSHAKE { FinishHandshakeKeeps(h, e); }
    else { SimpleKeeps(h, e); }
  }

  lemma ServerKeeps(h: Side, e: Env)
    requires Local(h) && h.who.server && !Finished(h)
    ensures Kept(h, DoServer(h, e))
  {
    hide Local, Moves, Goto, DoReadClientHello, DoSelectCertificate, DoSelectParameters, DoSendServerHello,
      DoSendServerCertificate, DoSendServerKeyExchange, DoSendServerHelloDone, DoReadClientCertificate,
      DoVerifyClientCertificate, DoReadClientKeyExchange, DoReadClientCertificateVerify, DoReadNextProto,
      DoReadChannelId, DoReadClientFinished, DoSendServerFinished, CipherRead, DoFinishHandshake;
    LocalState(h);
    var st := h.at.state;
    if st == READ_CLIENT_HELLO { ReadClientHelloKeeps(h, e); }
    else if st == SELECT_CERTIFICATE { SelectCertificateKeeps(h, e); }
    else if st == SELECT_PARAMETERS { SelectParametersKeeps(h, e); }
    else if st == SEND_SERVER_HELLO { SendServerHelloKeeps(h, e); }
    else if st == SEND_SERVER_CERTIFICATE { SendServerCertificateKeeps(h, e); }
    else if st == SEND_SERVER_KEY_EXCHANGE { SendServerKeyExchangeKeeps(h, e); }
    else if st == SEND_SERVER_HELLO_DONE { SendServerHelloDoneKeeps(h, e); }
    else if st == READ_CLIENT_CERTIFICATE { ReadClientCertificateKeeps(h, e); }
    else if st == VERIFY_CLIENT_CERTIFICATE { VerifyClientCertificateKeeps(h, e); }
    else if st == READ_CLIENT_KEY_EXCHANGE { ReadClientKeyExchangeKeeps(h, e); }
    else if st == READ_CLIENT_CERTIFICATE_VERIFY { ReadClientCertificateVerifyKeeps(h, e); }
    else if st == READ_NEXT_PROTO { ReadNextProtoKeeps(h, e); }
    else if st == READ_CHANNEL_ID { ReadChannelIdKeeps(h, e); }
    else if st == READ_CLIENT_FINISHED { ReadClientFinishedKeeps(h, e); }
    else if st == SEND_SERVER_FINISHED { SendServerFinishedKeeps(h, e); }
    else if st == PROCESS_CLIENT_CCS { CipherReadKeeps(h, e); }
    else if st == FINISH_SERVER_HANDSHAKE { FinishHandshakeKeeps(h, e); }
    else { SimpleKeeps(h, e); }
  }

  lemma LocalState(h: Side)
    requires Local(h)
    ensures Known(h.at.state) && h.who.server == IsServerState(h.at.state)
  {
  }

  /** A step that has to wait is a no-op, so it can be run again; every other step brings the end nearer. */
  lemma StepMovesOrWaits(h: Side, e: Env)
    requires Local(h) && !Finished(h)
    ensures Local(Do(h, e)) && Moves(h, Do(h, e))
  {
    hide Local, Moves, DoClient, DoServer;
    if h.who.server { ServerKeeps(h, e); } else { ClientKeeps(h, e); }
  }

  lemma Rewaits(h: Side, inbox: seq<Item>, w: Wait)
    requires Local(h)
    ensures Local(h.(talk := h.talk.(inbox := inbox), at := At(h.at.state, w)))
  {
  }

  // ---- whole runs against any peer

  datatype Event = Arrive(item: Item) | Run(e: Env)

  function Next(h: Side, ev: Event): Side {
    match ev
    case Arrive(item) => h.(talk := h.talk.(inbox := h.talk.inbox + [item]))
    case Run(e) => if Finished(h) then h else Turn(h, e)
  }

  function Exec(h: Side, evs: seq<Event>): Side
    decreases |evs|
  {
    if evs == [] then h else Exec(Next(h, evs[0]), evs[1..])
  }

  lemma {:induction false} ExecSnoc(h: Side, evs: seq<Event>, ev: Event)
    ensures Exec(h, evs + [ev]) == Next(Exec(h, evs), ev)
    decreases |evs|
  {
    hide Next;
    if evs == [] {
      assert evs + [ev] == [ev] && [ev][1..] == [];
    } else {
      assert (evs + [ev])[1..] == evs[1..] + [ev];
      ExecSnoc(Next(h, evs[0]), evs[1..], ev);
    }
  }

  lemma NextKeeps(h: Side, ev: Event)
    requires Local(h)
    ensures Local(Next(h, ev)) && Next(h, ev).who == h.who
    ensures Rank(Resumed(Next(h, ev)), Next(h, ev).at.state) <= Rank(Resumed(h), h.at.state)
  {
    hide Local, Do, Rank;
    match ev
    case Arrive(item) => Rewaits(h, h.talk.inbox + [item], h.at.wait);
    case Run(e) =>
      if !Finished(h) {
        if h.at.wait == ReadCcs && h.talk.inbox != [] {
          Rewaits(h, h.talk.inbox[1..], Ok);
          Rewaits(h, h.talk.inbox, Error);
          StepMovesOrWaits(CcsTaken(h), e);
        } else {
          StepMovesOrWaits(h, e);
        }
      }
  }

  lemma {:induction false} ExecKeeps(h: Side, evs: seq<Event>)
    requires Local(h)
    ensures Local(Exec(h, evs)) && Exec(h, evs).who == h.who
    decreases |evs|
  {
    hide Local, Next;
    if evs != [] {
      NextKeeps(h, evs[0]);
      ExecKeeps(Next(h, evs[0]), evs[1..]);
    }
  }

  lemma StartsLocal(cfg: Config)
    ensures Local(Client(cfg)) && Local(Server(cfg))
  {
  }

  /** Whatever the peer sends and however often steps wait: a finished run sent one Finished and checked one, each right
      after its cipher change, and resumption decides which comes first. */
  lemma FinishedRunIsOrdered(start: Side, cfg: Config, evs: seq<Event>)
    requires start == Client(cfg) || start == Server(cfg)
    requires Finished(Exec(start, evs))
    ensures var h := Exec(start, evs);
      h.notes.log ==
        if start.who.server == Resumed(h) then [WriteCipher, OwnFinished, ReadCipher, PeerFinished]
        else [ReadCipher, PeerFinished, WriteCipher, OwnFinished]
  {
    hide Exec, HashOk, BufferOk;
    StartsLocal(cfg);
    ExecKeeps(start, evs);
    var h := Exec(start, evs);
    var s, r := h.who.server, Resumed(h);
    assert FirstMarks(s, r, 1) == [MarkAt(s, r, 0)];
    assert FirstMarks(s, r, 2) == [MarkAt(s, r, 0), MarkAt(s, r, 1)];
    assert FirstMarks(s, r, 3) == [MarkAt(s, r, 0), MarkAt(s, r, 1), MarkAt(s, r, 2)];
    assert FirstMarks(s, r, 4) == [MarkAt(s, r, 0), MarkAt(s, r, 1), MarkAt(s, r, 2), MarkAt(s, r, 3)];
  }

  /** The source takes the handshake buffer unchecked where it signs and verifies a CertificateVerify: it is there, and
      holds the whole transcript. */
  lemma BufferIsThere(start: Side, cfg: Config, evs: seq<Event>)
    requires start == Client(cfg) || start == Server(cfg)
    ensures var h := Exec(start, evs);
      (h.at.state == SEND_CLIENT_CERTIFICATE_VERIFY && h.neg.certRequest && h.who.cfg.hasCert)
      || (h.at.state == READ_CLIENT_CERTIFICATE_VERIFY && h.neg.peerCert)
      ==> h.talk.buffer == Some(Transcript(h.talk))
  {
    hide Exec, FirstMarks;
    StartsLocal(cfg);
    ExecKeeps(start, evs);
  }

  // ---- what the marks stand for

  function MarksOf(i: Item): seq<Mark> {
    if i.Ccs? then [WriteCipher] else if i.m.Bound? && i.m.k == MT_FINISHED then [OwnFinished] else []
  }

  /** The cipher changes and Finished messages among queued items. */
  function QueuedMarks(sent: seq<Item>): seq<Mark> {
    if sent == [] then [] else QueuedMarks(sent[..|sent| - 1]) + MarksOf(sent[|sent| - 1])
  }

  /** Those of a side's own. */
  function OwnMarks(log: seq<Mark>): seq<Mark> {
    if log == [] then []
    else
      var m := log[|log| - 1];
      OwnMarks(log[..|log| - 1]) + if m == WriteCipher || m == OwnFinished then [m] else []
  }

  lemma QueuedMore(sent: seq<Item>, i: Item)
    ensures QueuedMarks(sent + [i]) == QueuedMarks(sent) + MarksOf(i)
  {
    assert (sent + [i])[..|sent|] == sent;
  }

  lemma OwnMore(log: seq<Mark>, m: Mark)
    ensures OwnMarks(log + [m]) == OwnMarks(log) + if m == WriteCipher || m == OwnFinished then [m] else []
  {
    assert (log + [m])[..|log|] == log;
  }

  predicate Faithful(h: Side) {
    QueuedMarks(h.talk.sent) == OwnMarks(h.notes.log)
  }

  lemma AddedMarks(t: Talk, m: Msg)
    ensures QueuedMarks(Added(t, m).sent) == QueuedMarks(t.sent) + MarksOf(Hs(m))
  {
    QueuedMore(t.sent, Hs(m));
  }

  lemma AddedIfMarks(t: Talk, b: bool, m: Msg)
    requires MarksOf(Hs(m)) == []
    ensures QueuedMarks(AddedIf(t, b, m).sent) == QueuedMarks(t.sent)
  {
    if b { AddedMarks(t, m); }
  }

  lemma FinishedSentMarks(h: Side, t: Talk, st: nat)
    requires QueuedMarks(t.sent) == OwnMarks(h.notes.log) + [WriteCipher]
    ensures Faithful(FinishedSent(h, t, st))
  {
    hide QueuedMarks, OwnMarks;
    AddedMarks(t, Bound(MT_FINISHED, h.who.server, Transcript(t)));
    OwnMore(h.notes.log, WriteCipher);
    OwnMore(h.notes.log + [WriteCipher], OwnFinished);
  }

  lemma BeforeFinishedMarks(t: Talk, hello: Hello, data: seq<byte>)
    ensures QueuedMarks(BeforeFinished(t, hello, data).sent) == QueuedMarks(t.sent) + [WriteCipher]
  {
    hide QueuedMarks, AddedIf;
    QueuedMore(t.sent, Ccs);
    var t1 := AddedIf(CcsAdded(t), hello.npn, Plain(MT_NEXT_PROTO, data));
    AddedIfMarks(CcsAdded(t), hello.npn, Plain(MT_NEXT_PROTO, data));
    AddedIfMarks(t1, hello.channelId, Bound(MT_CHANNEL_ID, false, Transcript(t1)));
  }

  predicate SendsIn(st: nat) {
    st == START_CONNECT || SEND_CLIENT_CERTIFICATE <= st <= SEND_CLIENT_FINISHED
    || SEND_SERVER_HELLO <= st <= SEND_SERVER_HELLO_DONE || st == SEND_SERVER_FINISHED
  }

  predicate LogsReading(h: Side, r: Side) {
    var log := h.notes.log;
    r.notes.log == log || r.notes.log == log + [ReadCipher] || r.notes.log == log + [PeerFinished]
  }

  lemma ReadersQueueNothing(h: Side, e: Env)
    requires !SendsIn(h.at.state)
    ensures Do(h, e).talk.sent == h.talk.sent
    ensures LogsReading(h, Do(h, e))
  {
    if h.who.server { ServerReadersQueueNothing(h, e); } else { ClientReadersQueueNothing(h, e); }
  }

  lemma ClientReadersQueueNothing(h: Side, e: Env)
    requires !SendsIn(h.at.state)
    ensures DoClient(h, e).talk.sent == h.talk.sent
    ensures LogsReading(h, DoClient(h, e))
  {
  }

  lemma ServerReadersQueueNothing(h: Side, e: Env)
    requires !SendsIn(h.at.state)
    ensures DoServer(h, e).talk.sent == h.talk.sent
    ensures LogsReading(h, DoServer(h, e))
  {
  }

  lemma ClientSendsFaithfully(h: Side, e: Env)
    requires Faithful(h) && SendsIn(h.at.state)
    ensures Faithful(DoClient(h, e))
  {
    hide QueuedMarks, OwnMarks, BeforeFinished, FinishedSent, Added, AddedIf;
    if h.at.state == START_CONNECT {
      AddedMarks(h.talk, Plain(MT_CLIENT_HELLO, e.data));
    } else if h.at.state == SEND_CLIENT_CERTIFICATE {
      var t := FreeBuffer(h.talk, !h.who.cfg.hasCert);
      AddedMarks(t, Plain(MT_CERTIFICATE, ChainOf(h.who.cfg.hasCert, e.data)));
    } else if h.at.state == SEND_CLIENT_KEY_EXCHANGE {
      AddedMarks(h.talk, Plain(MT_CLIENT_KEY_EXCHANGE, e.data));
    } else if h.at.state == SEND_CLIENT_CERTIFICATE_VERIFY {
      if h.talk.buffer.Some? { AddedMarks(h.talk, Bound(MT_CERTIFICATE_VERIFY, false, h.talk.buffer.value)); }
    } else if h.at.state == SEND_CLIENT_FINISHED {
      BeforeFinishedMarks(h.talk, h.neg.hello, e.data);
      FinishedSentMarks(h, BeforeFinished(h.talk, h.neg.hello, e.data), FINISH_FLIGHT);
    }
  }

  lemma ServerSendsFaithfully(h: Side, e: Env)
    requires Faithful(h) && SendsIn(h.at.state)
    ensures Faithful(DoServer(h, e))
  {
    hide QueuedMarks, OwnMarks, FinishedSent, Added, AddedIf;
    if h.at.state == SEND_SERVER_HELLO {
      AddedMarks(h.talk, ServerHello(h.neg.hello, e.data));
    } else if h.at.state == SEND_SERVER_CERTIFICATE {
      var auth := CertAuth(h.neg.hello.cipher);
      var t := AddedIf(h.talk, auth, Plain(MT_CERTIFICATE, ChainOf(true, e.data)));
      AddedIfMarks(h.talk, auth, Plain(MT_CERTIFICATE, ChainOf(true, e.data)));
      AddedIfMarks(t, auth && h.neg.hello.status, Plain(MT_CERTIFICATE_STATUS, e.data));
    } else if h.at.state == SEND_SERVER_KEY_EXCHANGE {
      AddedMarks(h.talk, Plain(MT_SERVER_KEY_EXCHANGE, e.data));
    } else if h.at.state == SEND_SERVER_HELLO_DONE {
      var t := AddedIf(h.talk, h.neg.certRequest, Plain(MT_CERTIFICATE_REQUEST, e.data));
      AddedIfMarks(h.talk, h.neg.certRequest, Plain(MT_CERTIFICATE_REQUEST, e.data));
      AddedMarks(t, Plain(MT_SERVER_HELLO_DONE, []));
    } else if h.at.state == SEND_SERVER_FINISHED {
      var t := AddedIf(h.talk, h.neg.hello.ticket, Plain(MT_NEW_SESSION_TICKET, e.data));
      AddedIfMarks(h.talk, h.neg.hello.ticket, Plain(MT_NEW_SESSION_TICKET, e.data));
      QueuedMore(t.sent, Ccs);
      FinishedSentMarks(h, CcsAdded(t), if Resumed(h) then READ_CLIENT_CCS else FINISH_SERVER_HANDSHAKE);
    }
  }

  lemma StepIsFaithful(h: Side, e: Env)
    requires Faithful(h)
    ensures Faithful(Do(h, e))
  {
    hide DoClient, DoServer, QueuedMarks, OwnMarks;
    if SendsIn(h.at.state) {
      if h.who.server { ServerSendsFaithfully(h, e); } else { ClientSendsFaithfully(h, e); }
    } else {
      ReadersQueueNothing(h, e);
      OwnMore(h.notes.log, ReadCipher);
      OwnMore(h.notes.log, PeerFinished);
    }
  }

  lemma {:induction false} RunIsFaithful(h: Side, evs: seq<Event>)
    requires Faithful(h)
    ensures Faithful(Exec(h, evs))
    decreases |evs|
  {
    hide Do, QueuedMarks, OwnMarks;
    if evs != [] {
      match evs[0] {
        case Arrive(item) =>
        case Run(e) =>
          StepIsFaithful(h, e);
          if h.talk.inbox != [] { StepIsFaithful(CcsTaken(h), e); }
      }
      RunIsFaithful(Next(h, evs[0]), evs[1..]);
    }
  }

  /** So a finished run queued one ChangeCipherSpec and one Finished, in this order, and nothing else of the kind. */
  lemma OneOwnFinished(start: Side, cfg: Config, evs: seq<Event>)
    requires start == Client(cfg) || start == Server(cfg)
    requires Finished(Exec(start, evs))
    ensures QueuedMarks(Exec(start, evs).talk.sent) == [WriteCipher, OwnFinished]
  {
    hide Exec, QueuedMarks;
    assert Faithful(start) by { NoneQueued(); }
    RunIsFaithful(start, evs);
    FinishedRunIsOrdered(start, cfg, evs);
    FourMarks();
  }

  lemma NoneQueued()
    ensures QueuedMarks([]) == [] && OwnMarks([]) == []
  {
  }

  lemma FourMarks()
    ensures OwnMarks([WriteCipher, OwnFinished, ReadCipher, PeerFinished]) == [WriteCipher, OwnFinished]
    ensures OwnMarks([ReadCipher, PeerFinished, WriteCipher, OwnFinished]) == [WriteCipher, OwnFinished]
  {
    hide OwnMarks;
    NoneQueued();
    var none: seq<Mark> := [];
    OwnMore(none, WriteCipher);
    OwnMore(none + [WriteCipher], OwnFinished);
    OwnMore(none + [WriteCipher] + [OwnFinished], ReadCipher);
    OwnMore(none + [WriteCipher] + [OwnFinished] + [ReadCipher], PeerFinished);
    OwnMore(none, ReadCipher);
    OwnMore(none + [ReadCipher], PeerFinished);
    OwnMore(none + [ReadCipher] + [PeerFinished], WriteCipher);
    OwnMore(none + [ReadCipher] + [PeerFinished] + [WriteCipher], OwnFinished);
    assert none + [WriteCipher] + [OwnFinished] + [ReadCipher] + [PeerFinished] ==
      [WriteCipher, OwnFinished, ReadCipher, PeerFinished];
    assert none + [ReadCipher] + [PeerFinished] + [WriteCipher] + [OwnFinished] ==
      [ReadCipher, PeerFinished, WriteCipher, OwnFinished];
  }

  // ---- what a side read

  function HeardOf(i: Item): seq<Mark> {
    if i.Ccs? then [ReadCipher] else if KindOf(i.m) == MT_FINISHED then [PeerFinished] else []
  }

  /** The cipher changes and Finished messages among received items. */
  function HeardMarks(items: seq<Item>): seq<Mark> {
    if items == [] then [] else HeardMarks(items[..|items| - 1]) + HeardOf(items[|items| - 1])
  }

  /** Those of the peer. */
  function PeerMarks(log: seq<Mark>): seq<Mark> {
    if log == [] then []
    else
      var m := log[|log| - 1];
      PeerMarks(log[..|log| - 1]) + if m == ReadCipher || m == PeerFinished then [m] else []
  }

  lemma HeardMore(items: seq<Item>, i: Item)
    ensures HeardMarks(items + [i]) == HeardMarks(items) + HeardOf(i)
  {
    assert (items + [i])[..|items|] == items;
  }

  lemma PeerMore(log: seq<Mark>, m: Mark)
    ensures PeerMarks(log + [m]) == PeerMarks(log) + if m == ReadCipher || m == PeerFinished then [m] else []
  {
    assert (log + [m])[..|log|] == log;
  }

  /** A step takes nothing from the inbox, or the next item, and records just what that item stands for. */
  predicate Heeds(h: Side, r: Side) {
    if h.talk.inbox != [] && r.talk.inbox == h.talk.inbox[1..]
    then PeerMarks(r.notes.log) == PeerMarks(h.notes.log) + HeardOf(h.talk.inbox[0])
    else r.talk.inbox == h.talk.inbox && PeerMarks(r.notes.log) == PeerMarks(h.notes.log)
  }

  lemma LogSteps(log: seq<Mark>)
    ensures PeerMarks(log + [WriteCipher] + [OwnFinished]) == PeerMarks(log)
    ensures PeerMarks(log + [PeerFinished]) == PeerMarks(log) + [PeerFinished]
    ensures PeerMarks(log + [ReadCipher]) == PeerMarks(log) + [ReadCipher]
  {
    hide PeerMarks;
    PeerMore(log, WriteCipher);
    PeerMore(log + [WriteCipher], OwnFinished);
    PeerMore(log, PeerFinished);
    PeerMore(log, ReadCipher);
  }

  lemma ClientHeeds(h: Side, e: Env)
    requires h.at.state != PROCESS_SERVER_CCS
    ensures Heeds(h, DoClient(h, e))
  {
    hide PeerMarks, BeforeFinished;
    LogSteps(h.notes.log);
    KeepsInbox(h.talk, h.neg.hello, e.data);
  }

  lemma ServerHeeds(h: Side, e: Env)
    requires h.at.state != PROCESS_CLIENT_CCS && HelloHeld(h)
    ensures Heeds(h, DoServer(h, e))
  {
    hide PeerMarks;
    LogSteps(h.notes.log);
  }

  lemma KeepsInbox(t: Talk, hello: Hello, data: seq<byte>)
    ensures BeforeFinished(t, hello, data).inbox == t.inbox
  {
  }

  /** The ClientHello stays in place from where its type was checked to where it is consumed. */
  predicate HelloHeld(h: Side) {
    h.at.state == SELECT_CERTIFICATE || h.at.state == SELECT_PARAMETERS ==>
      h.talk.inbox != [] && h.talk.inbox[0].Hs? && KindOf(h.talk.inbox[0].m) == MT_CLIENT_HELLO
  }

  predicate AtCcs(st: nat) {
    st == PROCESS_SERVER_CCS || st == PROCESS_CLIENT_CCS
  }

  /** Where a side changes its read cipher, it was made to wait for a ChangeCipherSpec just before; at the end it waits
      for nothing. */
  predicate AwaitsAt(at: At) {
    && (AtCcs(at.state) ==> at.wait == ReadCcs || at.wait == Error)
    && (at.wait == ReadCcs ==> AtCcs(at.state))
    && (at.state == CLIENT_DONE || at.state == SERVER_DONE ==> at.wait == Ok)
  }

  predicate Awaits(h: Side) {
    AwaitsAt(h.at) && HelloHeld(h)
  }

  lemma ClientAwaits(h: Side, e: Env)
    requires Known(h.at.state) && !IsServerState(h.at.state) && !Finished(h) && (AtCcs(h.at.state) ==> h.at.wait == Ok)
    ensures Awaits(DoClient(h, e))
  {
    hide Transcript, Added, AddedIf, BeforeFinished, Append, FreeBuffer, InitHash, MasterOver;
  }

  lemma ServerAwaits(h: Side, e: Env)
    requires Known(h.at.state) && IsServerState(h.at.state) && !Finished(h) && (AtCcs(h.at.state) ==> h.at.wait == Ok)
    requires HelloHeld(h)
    ensures Awaits(DoServer(h, e))
  {
    hide Transcript, Added, AddedIf, Append, FreeBuffer, InitHash, MasterOver, HelloOf;
  }

  /** One turn: a ChangeCipherSpec that was waited for is taken and recorded together. After an error, which is final,
      it may be taken and not recorded. */
  lemma TurnHeeds(h: Side, e: Env)
    requires Local(h) && Awaits(h) && !Finished(h)
    ensures var r := Turn(h, e);
      Awaits(r) && (r.at.wait != Error ==> Heeds(h, r))
      && (r.talk.inbox == h.talk.inbox || (h.talk.inbox != [] && r.talk.inbox == h.talk.inbox[1..]))
  {
    hide Local, DoClient, DoServer, PeerMarks, Known;
    LocalState(h);
    if h.at.wait == ReadCcs && h.talk.inbox != [] && h.talk.inbox[0].Ccs? {
      CcsHeeds(h, e);
    } else if h.at.wait != Error && h.at.wait != ReadCcs {
      if h.who.server {
        ServerAwaits(h, e);
        ServerHeeds(h, e);
      } else {
        ClientAwaits(h, e);
        ClientHeeds(h, e);
      }
    }
  }

  lemma CcsHeeds(h: Side, e: Env)
    requires Known(h.at.state) && h.who.server == IsServerState(h.at.state) && AtCcs(h.at.state)
    requires h.talk.inbox != [] && h.talk.inbox[0].Ccs?
    ensures var r := Do(CcsTaken(h), e);
      Awaits(r) && r.talk.inbox == h.talk.inbox[1..]
      && (r.at.wait != Error ==> PeerMarks(r.notes.log) == PeerMarks(h.notes.log) + [ReadCipher])
  {
    hide PeerMarks;
    LogSteps(h.notes.log);
  }

  /** What arrived is what was read and then the inbox. */
  ghost predicate Heard(h: Side, arrived: seq<Item>) {
    var n := |arrived| - |h.talk.inbox|;
    && n >= 0 && arrived[n..] == h.talk.inbox
    && (h.at.wait != Error ==> HeardMarks(arrived[..n]) == PeerMarks(h.notes.log))
  }

  function Arrived(evs: seq<Event>): seq<Item>
    decreases |evs|
  {
    if evs == [] then [] else (if evs[0].Arrive? then [evs[0].item] else []) + Arrived(evs[1..])
  }

  lemma HeardOn(h: Side, r: Side, arrived: seq<Item>)
    requires Heard(h, arrived) && (h.at.wait == Error ==> r == h) && (r.at.wait != Error ==> Heeds(h, r))
    requires r.talk.inbox == h.talk.inbox || (h.talk.inbox != [] && r.talk.inbox == h.talk.inbox[1..])
    ensures Heard(r, arrived)
  {
    hide HeardMarks, PeerMarks;
    var n := |arrived| - |h.talk.inbox|;
    if r.talk.inbox != h.talk.inbox {
      assert arrived[n] == h.talk.inbox[0] && arrived[..n + 1] == arrived[..n] + [arrived[n]];
      assert arrived[n + 1..] == r.talk.inbox;
      HeardMore(arrived[..n], arrived[n]);
    }
  }

  lemma HeardArrives(h: Side, arrived: seq<Item>, i: Item)
    requires Heard(h, arrived) && Awaits(h)
    ensures Heard(Next(h, Arrive(i)), arrived + [i]) && Awaits(Next(h, Arrive(i)))
  {
    hide HeardMarks, PeerMarks;
    var n := |arrived| - |h.talk.inbox|;
    assert (arrived + [i])[n..] == h.talk.inbox + [i] && (arrived + [i])[..n] == arrived[..n];
  }

  lemma {:induction false} RunHeeds(h: Side, evs: seq<Event>, before: seq<Item>)
    requires Local(h) && Awaits(h) && Heard(h, before)
    ensures Heard(Exec(h, evs), before + Arrived(evs)) && Awaits(Exec(h, evs))
    decreases |evs|
  {
    hide Local, Turn, Heard, Awaits, Finished;
    if evs == [] {
      assert before + [] == before;
    } else {
      NextKeeps(h, evs[0]);
      var more := if evs[0].Arrive? then [evs[0].item] else [];
      match evs[0] {
        case Arrive(item) => HeardArrives(h, before, item);
        case Run(e) =>
          assert before + more == before;
          if !Finished(h) { RunTurn(h, e, before); }
      }
      RunHeeds(Next(h, evs[0]), evs[1..], before + more);
      assert before + more + Arrived(evs[1..]) == before + Arrived(evs);
    }
  }

  lemma RunTurn(h: Side, e: Env, before: seq<Item>)
    requires Local(h) && Awaits(h) && Heard(h, before) && !Finished(h)
    ensures Heard(Turn(h, e), before) && Awaits(Turn(h, e))
  {
    hide Local, Do, Heard, Awaits, Heeds;
    TurnHeeds(h, e);
    HeardOn(h, Turn(h, e), before);
  }

  lemma DoneWaitsForNothing(start: Side, cfg: Config, evs: seq<Event>)
    requires start == Client(cfg) || start == Server(cfg)
    ensures Finished(Exec(start, evs)) ==> Exec(start, evs).at.wait == Ok
  {
    hide Exec, Local, Heard, HelloHeld;
    StartsLocal(cfg);
    StartHeard(start, cfg);
    RunHeeds(start, evs, []);
  }

  /** A finished run read one ChangeCipherSpec and then one Finished, and nothing else of the kind, whatever arrived. */
  lemma OnePeerFinished(start: Side, cfg: Config, evs: seq<Event>)
    requires start == Client(cfg) || start == Server(cfg)
    requires Finished(Exec(start, evs))
    ensures var arrived, inbox := Arrived(evs), Exec(start, evs).talk.inbox;
      var n := |arrived| - |inbox|;
      n >= 0 && arrived == arrived[..n] + inbox && HeardMarks(arrived[..n]) == [ReadCipher, PeerFinished]
  {
    hide Exec, HeardMarks, PeerMarks, Arrived, Local, HelloHeld;
    StartsLocal(cfg);
    StartHeard(start, cfg);
    RunHeeds(start, evs, []);
    FinishedRunIsOrdered(start, cfg, evs);
    FourHeard();
    assert [] + Arrived(evs) == Arrived(evs);
  }

  lemma StartHeard(start: Side, cfg: Config)
    requires start == Client(cfg) || start == Server(cfg)
    ensures Heard(start, []) && Awaits(start)
  {
    hide HeardMarks, PeerMarks;
    NothingHeard();
  }

  lemma NothingHeard()
    ensures HeardMarks([]) == [] && PeerMarks([]) == []
  {
  }

  lemma FourHeard()
    ensures PeerMarks([WriteCipher, OwnFinished, ReadCipher, PeerFinished]) == [ReadCipher, PeerFinished]
    ensures PeerMarks([ReadCipher, PeerFinished, WriteCipher, OwnFinished]) == [ReadCipher, PeerFinished]
  {
    hide PeerMarks;
    NothingHeard();
    var none: seq<Mark> := [];
    LogSteps(none);
    LogSteps(none + [WriteCipher] + [OwnFinished]);
    LogSteps(none + [WriteCipher] + [OwnFinished] + [ReadCipher]);
    LogSteps(none + [ReadCipher]);
    LogSteps(none + [ReadCipher] + [PeerFinished]);
    assert none + [WriteCipher] + [OwnFinished] + [ReadCipher] + [PeerFinished] ==
      [WriteCipher, OwnFinished, ReadCipher, PeerFinished];
    assert none + [ReadCipher] + [PeerFinished] + [WriteCipher] + [OwnFinished] ==
      [ReadCipher, PeerFinished, WriteCipher, OwnFinished];
  }
}
