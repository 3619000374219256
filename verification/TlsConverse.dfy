/** Two handshake objects that talk over two queues. */
module TlsConverse {
  import opened TlsHandshake
  import opened TlsRuns
  import opened TlsPair
  import opened TlsFinish
  import opened TlsDriver

  class Conversation {
    const client: Handshake
    const server: Handshake
    var toC: seq<Item>
    var toS: seq<Item>
    ghost var acts: seq<Act> // what has happened since the start

    /** The objects and queues are where the two machines are after the same acts. */
    ghost predicate Genuine()
      reads this, client, server
    {
      && client != server && !client.server && server.server && client.Genuine() && server.Genuine()
      && Now() == ExecPair(StartPair(server.cfg, client.cfg), acts)
    }

    ghost function Now(): Pair
      reads this, client, server
    {
      Pair(client.State(), server.State(), toC, toS)
    }

    constructor (serverCfg: Config, clientCfg: Config)
      ensures Genuine() && fresh(client) && fresh(server) && acts == []
      ensures server.cfg == serverCfg && client.cfg == clientCfg
    {
      client := new Handshake(false, clientCfg);
      server := new Handshake(true, serverCfg);
      toC, toS, acts := [], [], [];
    }

    /** A step of one side, and what it queued on its way; or the arrival of the next item. */
    method Act(a: Act)
      requires Genuine()
      modifies this, client, server
      ensures Genuine() && acts == old(acts) + [a] && Now() == DoPair(old(Now()), a)
    {
      hide ExecPair, Turn;
      PairSnoc(StartPair(server.cfg, client.cfg), acts, a);
      acts := acts + [a];
      match a
      case StepC(e) =>
        var before := |client.sent|;
        client.Resume(e);
        toS := toS + if |client.sent| >= before then client.sent[before..] else [];
      case StepS(e) =>
        var before := |server.sent|;
        server.Resume(e);
        toC := toC + if |server.sent| >= before then server.sent[before..] else [];
      case ArriveC =>
        if toC != [] {
          client.Receive(toC[0]);
          toC := toC[1..];
        }
      case ArriveS =>
        if toS != [] {
          server.Receive(toS[0]);
          toS := toS[1..];
        }
    }
  }

  lemma {:induction false} PairSnoc(w: Pair, acts: seq<Act>, a: Act)
    ensures ExecPair(w, acts + [a]) == DoPair(ExecPair(w, acts), a)
    decreases |acts|
  {
    hide DoPair;
    if acts == [] {
      assert acts + [a] == [a] && [a][1..] == [];
    } else {
      assert (acts + [a])[1..] == acts[1..] + [a];
      PairSnoc(DoPair(w, acts[0]), acts[1..], a);
    }
  }

  /** What a side is about to read and that is bound to a transcript was made over the reader's own, and the secrets
      agree. */
  predicate Agreed(w: Pair) {
    && (w.c.talk.inbox + w.toC != [] ==> BoundToReader(w.c, (w.c.talk.inbox + w.toC)[0]))
    && (w.s.talk.inbox + w.toS != [] ==> BoundToReader(w.s, (w.s.talk.inbox + w.toS)[0]))
    && (w.c.notes.master.Some? && w.s.notes.master.Some? ==> w.c.notes.master == w.s.notes.master)
    && (w.c.notes.original.Some? && w.s.notes.original.Some? ==> w.c.notes.original == w.s.notes.original)
  }

  /** Both sides hold the same transcript and the server's settings, and nothing is unread. */
  predicate Settled(w: Pair, hello: Hello) {
    && Transcript(w.c.talk) == Transcript(w.s.talk) && w.c.neg.hello == w.s.neg.hello == hello
    && w.c.talk.inbox + w.toC == [] && w.s.talk.inbox + w.toS == []
  }

  /** One ChangeCipherSpec and then one Finished were queued, in the order that resumption fixes. */
  predicate Closed(h: Side) {
    QueuedMarks(h.talk.sent) == [WriteCipher, OwnFinished] && h.notes.log == ClosingOrder(h.who.server, Resumed(h))
  }

  /** Any conversation: both objects agree at every point, do not fail each other, and end in the same place. */
  method Converse(serverCfg: Config, clientCfg: Config, acts: seq<Act>) returns (w: Conversation)
    ensures fresh(w) && w.Genuine() && w.acts == acts && w.server.cfg == serverCfg && w.client.cfg == clientCfg
    ensures Agreed(w.Now())
    ensures AllFair(acts) ==> w.client.wait != Error && w.server.wait != Error
    ensures (w.client.Done() ==> Closed(w.client.State())) && (w.server.Done() ==> Closed(w.server.State()))
    ensures w.client.Done() && w.server.Done() ==> Settled(w.Now(), HelloOf(serverCfg))
  {
    hide ExecPair, Agreed, Closed, Settled, Exec, AllFair;
    w := new Conversation(serverCfg, clientCfg);
    for i := 0 to |acts|
      invariant fresh(w) && fresh(w.client) && fresh(w.server) && w.Genuine() && w.acts == acts[..i]
      invariant w.server.cfg == serverCfg && w.client.cfg == clientCfg
    {
      w.Act(acts[i]);
    }
    assert acts[..|acts|] == acts;
    AllAgree(serverCfg, clientCfg, acts);
    if w.client.Done() { ClosedInOrder(w.client.Origin(), clientCfg, w.client.past); }
    if w.server.Done() { ClosedInOrder(w.server.Origin(), serverCfg, w.server.past); }
  }

  lemma AllAgree(server: Config, client: Config, acts: seq<Act>)
    ensures var w := ExecPair(StartPair(server, client), acts);
      && Agreed(w) && (AllFair(acts) ==> w.c.at.wait != Error && w.s.at.wait != Error)
      && (Finished(w.c) && Finished(w.s) ==> Settled(w, HelloOf(server)))
  {
    hide ExecPair, BoundToReader;
    var w := ExecPair(StartPair(server, client), acts);
    TranscriptsAgree(server, client, acts);
    SecretsAgree(server, client, acts);
    if AllFair(acts) { HonestPeersNeverFail(server, client, acts); }
    if Finished(w.c) && Finished(w.s) { DoneTogether(server, client, acts); }
  }

  lemma ClosedInOrder(start: Side, cfg: Config, evs: seq<Event>)
    requires start == Client(cfg) || start == Server(cfg)
    requires Finished(Exec(start, evs))
    ensures Closed(Exec(start, evs))
  {
    hide Exec, QueuedMarks;
    StartsLocal(cfg);
    ExecKeeps(start, evs);
    OneOwnFinished(start, cfg, evs);
    FinishedRunIsOrdered(start, cfg, evs);
  }

  /** A conversation in which nothing has failed is brought to its end by delivering what is on the way and letting both
      sides step. */
  method Complete(w: Conversation)
    requires w.Genuine() && AllFair(w.acts)
    modifies w, w.client, w.server
    ensures w.Genuine() && AllFair(w.acts) && old(w.acts) <= w.acts
    ensures w.client.Done() && w.server.Done()
  {
    hide ExecPair, Exec, Rank, AllFair;
    while !w.client.Done() || !w.server.Done()
      invariant w.Genuine() && AllFair(w.acts) && old(w.acts) <= w.acts
      decreases RankOf(w.client.State()) + RankOf(w.server.State()), |w.toC| + |w.toS|
    {
      Round(w);
    }
  }

  method Round(w: Conversation)
    requires w.Genuine() && AllFair(w.acts) && !(w.client.Done() && w.server.Done())
    modifies w, w.client, w.server
    ensures w.Genuine() && AllFair(w.acts) && old(w.acts) <= w.acts
    ensures Nearer(old(w.Now()), w.Now())
  {
    hide ExecPair, Exec, Rank, AllFair, DoPair, Nearer;
    ghost var before := w.Now();
    StillFair(w.server.cfg, w.client.cfg, w.acts);
    if w.toC != [] {
      FairAct(w.acts, ArriveC);
      ArrivalIsNearer(before, ArriveC);
      w.Act(ArriveC);
    } else if w.toS != [] {
      FairAct(w.acts, ArriveS);
      ArrivalIsNearer(before, ArriveS);
      w.Act(ArriveS);
    } else {
      BothStep(ParamsOf(w.server.cfg, w.client.cfg), before);
      FairAct(w.acts, StepC(READY));
      w.Act(StepC(READY));
      FairAct(w.acts, StepS(READY));
      w.Act(StepS(READY));
    }
  }

  /** Fewer steps left, or as many and less on the way. */
  predicate Nearer(w: Pair, r: Pair) {
    || RankOf(r.c) + RankOf(r.s) < RankOf(w.c) + RankOf(w.s)
    || (RankOf(r.c) + RankOf(r.s) == RankOf(w.c) + RankOf(w.s) && |r.toC| + |r.toS| < |w.toC| + |w.toS|)
  }

  lemma ArrivalIsNearer(w: Pair, a: Act)
    requires (a.ArriveC? && w.toC != []) || (a.ArriveS? && w.toS != [])
    ensures Nearer(w, DoPair(w, a))
  {
    hide Rank;
  }

  lemma StillFair(server: Config, client: Config, acts: seq<Act>)
    requires AllFair(acts)
    ensures var w := ExecPair(StartPair(server, client), acts);
      Inv(ParamsOf(server, client), w) && w.c.at.wait != Error && w.s.at.wait != Error
  {
    hide ExecPair, Inv;
    ReachesInv(server, client, acts);
    HonestPeersNeverFail(server, client, acts);
  }

  lemma FairAct(acts: seq<Act>, a: Act)
    requires AllFair(acts) && (a.ArriveC? || a.ArriveS? || !a.e.fail)
    ensures AllFair(acts + [a])
  {
  }

  /** With nothing on the way, a step of each brings the end nearer. */
  lemma BothStep(p: Params, w: Pair)
    requires Inv(p, w) && w.c.at.wait != Error && w.s.at.wait != Error && w.toC == [] && w.toS == []
    requires !(Finished(w.c) && Finished(w.s))
    ensures Nearer(w, DoPair(DoPair(w, StepC(READY)), StepS(READY)))
  {
    hide Inv, Turn, Rank, Stuck, Local;
    NoDeadlock(p, w);
    HalvesLocal(p, w);
    NextKeeps(w.c, Run(READY));
    NextKeeps(w.s, Run(READY));
    if !Finished(w.c) && !Stuck(w.c) { MoveLowers(w.c); } else { MoveLowers(w.s); }
  }
}
