/** A run in which an honest fragment is a fatal error: the one numbered exactly as far ahead as the ring is long. */
module DtlsAhead {
  import opened DtlsWire
  import opened DtlsNetwork
  import opened DtlsWrap

  /** Flights of one message each, sent while nothing gets through. */
  function Flights(n: nat): seq<Act> {
    if n == 0 then [] else Flights(n - 1) + [Queue(0, []), Flush(OnePacket())]
  }

  lemma {:induction false} FlightsSent(n: nat, maxLen: nat)
    requires n <= U16
    ensures var s := Exec(Start(), Flights(n), maxLen);
      Rested(s, n) && s.rx == Start().rx && (n > 0 ==> RecordOf(n - 1) in s.net)
  {
    hide Do, RecordOf, OnePacket;
    if n == 0 {
      assert Copies(0) == [];
    } else {
      FlightsSent(n - 1, maxLen);
      var s := Exec(Start(), Flights(n - 1), maxLen);
      ExecAppend(Start(), Flights(n - 1), [Queue(0, []), Flush(OnePacket())], maxLen);
      TwoSteps(s, Queue(0, []), Flush(OnePacket()), maxLen);
      Queued(s, n - 1, maxLen);
      Flushed(Do(s, Queue(0, []), maxLen), n - 1, maxLen);
    }
  }

  /** The first seven messages are late. The eighth, numbered 7 where 0 is expected, is not dropped as too far in the
      future; it has no slot, and that is an error. The seventh alone would have been kept. */
  lemma EighthIsFatal(maxLen: nat)
    ensures var s := Exec(Start(), Flights(K + 1), maxLen);
      && RecordOf(K) in s.net
      && R.Opening(s.rx, RecordOf(K).typ, RecordOf(K).payload, maxLen) == R.OpenStep(R.Error, s.rx)
      && R.Opening(s.rx, RecordOf(K - 1).typ, RecordOf(K - 1).payload, maxLen).result == R.Success
      && R.Opening(s.rx, RecordOf(K + 1).typ, RecordOf(K + 1).payload, maxLen) == R.OpenStep(R.Success, s.rx)
  {
    hide Exec, PutHeader, ParseFragment;
    FlightsSent(K + 1, maxLen);
    HeaderParses(K - 1);
    HeaderParses(K);
    HeaderParses(K + 1);
    var rx := Exec(Start(), Flights(K + 1), maxLen).rx;
    assert R.Absorb(rx, Head(K + 1), [], maxLen) == R.Step(true, rx);
    assert R.AbsorbAll(rx, PutHeader(Head(K + 1)), maxLen) == R.AbsorbAll(rx, [], maxLen) == R.Step(true, rx);
  }

  lemma HeaderParses(n: nat)
    requires n < U16
    ensures ParseFragment(PutHeader(Head(n))) == Parsed(Head(n), [], [])
  {
    FragmentRoundTrip(Head(n), [], []);
    assert PutHeader(Head(n)) + [] + [] == PutHeader(Head(n));
  }
}
