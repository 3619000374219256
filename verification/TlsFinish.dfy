/** Two honest sides never wait for each other: from wherever they are, the handshake can be brought to its end. */
module TlsFinish {
  import opened TlsHandshake
  import opened TlsRuns
  import opened TlsPair

  /** Nothing fails and nothing has to wait. */
  const READY := Env([], false, false)

  /** It is the other side that speaks next. */
  predicate Listens(p: Params, h: Side) {
    Rest(p, h.at).Then? && Rest(p, h.at).tok.fromServer != h.who.server
  }

  // ---- a side that cannot move listens

  lemma ClientListens(p: Params, h: Side)
    requires Ready(p, h) && !h.who.server && !Finished(h) && Known(h.at.state)
    requires DoClient(h, READY).at.state == h.at.state && DoClient(h, READY).at.wait != Error
    ensures h.talk.inbox == [] && Listens(p, h)
  {
  }

  lemma ServerListens(p: Params, h: Side)
    requires Ready(p, h) && h.who.server && !Finished(h) && Known(h.at.state)
    requires DoServer(h, READY).at.state == h.at.state && DoServer(h, READY).at.wait != Error
    ensures h.talk.inbox == [] && Listens(p, h)
  {
  }

  predicate Stuck(h: Side) {
    !Finished(h) && Turn(h, READY).at.state == h.at.state
  }

  lemma StuckListens(p: Params, h: Side)
    requires SideOk(p, h) && HeadOk(p, h) && WaitOk(h.at) && Stuck(h) && h.at.wait != Error
    ensures h.talk.inbox == [] && Listens(p, h)
  {
    hide HeadOk, Rest, Ready, WaitOk, FlagsOk, Local, DoClient, DoServer, NotesOk, Quiet, Takes, Says;
    SideIsReady(p, h);
    SideState(p, h);
    TurnFollows(p, h, READY);
    if h.at.wait == ReadCcs {
      MustProcess(h);
      StuckAtCcs(p, h);
    } else if h.who.server {
      ServerListens(p, h);
    } else {
      ClientListens(p, h);
    }
  }

  /** With a ChangeCipherSpec there it would move on. */
  lemma StuckAtCcs(p: Params, h: Side)
    requires SideOk(p, h) && HeadOk(p, h) && WaitOk(h.at) && h.at.wait == ReadCcs
    requires Turn(h, READY).at.state == h.at.state
    ensures h.talk.inbox == [] && Listens(p, h)
  {
    hide FirstMarks, HashOk, BufferOk, FlagsOk, NotesMade;
    if h.talk.inbox != [] { ArrivedCcs(p, h); }
  }

  // ---- they never wait for each other

  lemma EndIsEnd(p: Params, h: Side)
    requires SideOk(p, h) && Finished(h)
    ensures Rest(p, h.at) == End
  {
    hide Local, FlagsOk;
  }

  /** With nothing on the way, one of them can move, or both are done. */
  lemma NoDeadlock(p: Params, w: Pair)
    requires Inv(p, w) && w.c.at.wait != Error && w.s.at.wait != Error && w.toC == [] && w.toS == []
    requires !(Finished(w.c) && Finished(w.s))
    ensures (!Finished(w.c) && !Stuck(w.c)) || (!Finished(w.s) && !Stuck(w.s))
  {
    hide SideOk, Rest, Turn, WaitOk, Tally, NotesOf, Linked, HeadOk;
    var forC, forS := w.c.talk.inbox + w.toC, w.s.talk.inbox + w.toS;
    ReadyHead(p, w.c, w.s, w.toC, forS);
    ReadyHead(p, w.s, w.c, w.toS, forC);
    if (Finished(w.c) || Stuck(w.c)) && (Finished(w.s) || Stuck(w.s)) {
      if Finished(w.c) { EndIsEnd(p, w.c); } else { StuckListens(p, w.c); assert forC == []; }
      if Finished(w.s) { EndIsEnd(p, w.s); } else { StuckListens(p, w.s); assert forS == []; }
      if !Finished(w.c) {
        SomeoneSpeaks(p, w.c, w.s, forS);
      } else {
        LinkedBothWays(p, w.c, w.s, forC, forS);
        SomeoneSpeaks(p, w.s, w.c, forC);
      }
    }
  }

  /** A side that listens with nothing to read is linked to one that has more to say, and does not just listen as
      well. */
  lemma SomeoneSpeaks(p: Params, a: Side, b: Side, forB: seq<Item>)
    requires Linked(p, a, b, [], forB) && a.who.server != b.who.server && Listens(p, a)
    ensures Rest(p, b.at) != End && (forB == [] ==> !Listens(p, b))
  {
    hide Rest, AllGood, Msgs;
    FromLinked(p, a, b, forB);
  }

  // ---- so the end can always be reached

  function RankOf(h: Side): nat {
    Rank(Resumed(h), h.at.state)
  }

  /** A run in which nothing fails. */
  predicate AllFair(acts: seq<Act>) {
    forall a :: a in acts ==> !Failing(a)
  }

  predicate BothDone(w: Pair) {
    Finished(w.c) && Finished(w.s)
  }

  lemma MoveLowers(h: Side)
    requires Local(h) && WaitOk(h.at) && !Finished(h) && !Stuck(h)
    ensures RankOf(Step(h, READY)) < RankOf(h)
  {
    hide Local, Do, Rank;
    if h.at.wait == ReadCcs && h.talk.inbox != [] {
      Rewaits(h, h.talk.inbox[1..], Ok);
      StepMovesOrWaits(CcsTaken(h), READY);
    } else if h.at.wait != ReadCcs && h.at.wait != Error {
      StepMovesOrWaits(h, READY);
    }
  }

  /** From every state without an error some run without failures ends the handshake on both sides. */
  lemma {:induction false} EndInReach(p: Params, w: Pair) returns (acts: seq<Act>)
    requires Inv(p, w) && w.c.at.wait != Error && w.s.at.wait != Error
    ensures AllFair(acts) && BothDone(ExecPair(w, acts))
    decreases RankOf(w.c) + RankOf(w.s), |w.toC| + |w.toS|
  {
    hide Inv, ExecPair, Turn, Rank, Step, Fresh, Stuck, Finished;
    if Finished(w.c) && Finished(w.s) && w.toC == [] && w.toS == [] {
      Nothing(w);
      return [];
    }
    var a := if w.toC != [] then ArriveC else if w.toS != [] then ArriveS
      else if !Finished(w.c) && !Stuck(w.c) then StepC(READY) else StepS(READY);
    PairStepKeeps(p, w, a);
    if w.toC == [] && w.toS == [] {
      NoDeadlock(p, w);
      HalvesLocal(p, w);
      if a.StepC? { MoveLowers(w.c); } else { MoveLowers(w.s); }
    }
    var rest := EndInReach(p, DoPair(w, a));
    acts := [a] + rest;
    OneMoreAct(w, a, rest);
  }

  lemma Nothing(w: Pair)
    ensures ExecPair(w, []) == w
  {
  }

  lemma OneMoreAct(w: Pair, a: Act, rest: seq<Act>)
    ensures ExecPair(w, [a] + rest) == ExecPair(DoPair(w, a), rest)
  {
    hide DoPair;
    assert ([a] + rest)[1..] == rest;
  }

  lemma HalvesLocal(p: Params, w: Pair)
    requires Inv(p, w)
    ensures Local(w.c) && Local(w.s) && WaitOk(w.c.at) && WaitOk(w.s.at)
  {
    hide Local, Linked, Tally, NotesOf, FlagsOk, WaitOk;
  }

  lemma {:induction false} PairAppend(w: Pair, a: seq<Act>, b: seq<Act>)
    ensures ExecPair(w, a + b) == ExecPair(ExecPair(w, a), b)
    decreases |a|
  {
    hide DoPair;
    if a == [] {
      assert a + b == b;
    } else {
      assert (a + b)[1..] == a[1..] + b;
      PairAppend(DoPair(w, a[0]), a[1..], b);
    }
  }

  /** For every choice of settings: whatever has happened without a failure, the handshake can still be completed. */
  lemma CanAlwaysFinish(server: Config, client: Config, acts: seq<Act>)
    requires AllFair(acts)
    ensures exists more :: AllFair(more) && BothDone(ExecPair(StartPair(server, client), acts + more))
  {
    hide Inv, ExecPair, Failing;
    ReachesInv(server, client, acts);
    HonestPeersNeverFail(server, client, acts);
    var start := StartPair(server, client);
    var more := EndInReach(ParamsOf(server, client), ExecPair(start, acts));
    PairAppend(start, acts, more);
  }
}
