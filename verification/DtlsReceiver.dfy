/** The receiving half of the DTLS handshake transport: a ring of partly assembled messages. */
module DtlsReceiver {
  import opened Bytes
  import opened DtlsWire
  import opened Reassembly

  const RT_CHANGE_CIPHER_SPEC: byte := 20
  const RT_HANDSHAKE: byte := 22
  const RT_APPLICATION_DATA: byte := 23

  datatype Opened = Success | Discard | Error

  /** What the receiver has: the next message to hand out, the ring, and a ChangeCipherSpec seen. */
  datatype Rx = Rx(readSeq: nat, slots: seq<Option<Slot>>, ccs: bool, epoch: nat, encrypted: bool)

  /** Every live slot holds the one sequence number of [readSeq, readSeq + K) with its residue. */
  ghost predicate RingOk(rx: Rx) {
    && |rx.slots| == K && rx.readSeq < U16
    && forall j :: 0 <= j < K && rx.slots[j].Some? ==>
      var n := rx.slots[j].value.seqNo;
      n % K == j && rx.readSeq <= n < rx.readSeq + K && n < U16
  }

  predicate BadFragment(rx: Rx, h: Header, maxLen: nat) {
    h.off + h.len > h.msgLen || h.msgLen > maxLen || (rx.epoch == 1 && h.seqNo != rx.readSeq)
  }

  /** The body of a fragment copied in and marked. */
  function Placed(s: Slot, h: Header, body: seq<byte>): Slot
    requires h.off + |body| <= |s.data|
  {
    s.(data := Overwrite(s.data, h.off, body), have := s.have + Span(h.off, |body|))
  }

  /** `dtls1_get_incoming_message`: the slot of a header, made if there is none; None is a failure. */
  function Lookup(rx: Rx, h: Header): (r: Option<Slot>)
    requires |rx.slots| == K
    ensures r.Some? ==> |r.value.data| == h.msgLen
  {
    if h.seqNo < rx.readSeq || h.seqNo - rx.readSeq >= K then None
    else
      match rx.slots[h.seqNo % K]
      case None => Some(Blank(h))
      case Some(s) => if s.typ != h.typ || |s.data| != h.msgLen then None else Some(s)
  }

  datatype Step = Step(ok: bool, rx: Rx)

  /** One turn of the loop of `dtls1_open_handshake`. A fragment K ahead is not yet "too far in the future"
      there, but has no slot. */
  ghost function Absorb(rx: Rx, h: Header, body: seq<byte>, maxLen: nat): (r: Step)
    requires |rx.slots| == K && |body| == h.len
    ensures |r.rx.slots| == K && r.rx == rx.(slots := r.rx.slots)
  {
    if BadFragment(rx, h, maxLen) then Step(false, rx)
    else if h.seqNo < rx.readSeq || h.seqNo > rx.readSeq + K then Step(true, rx)
    else
      match Lookup(rx, h)
      case None => Step(false, rx)
      case Some(s) =>
        var j := h.seqNo % K;
        if Complete(s) then Step(true, rx.(slots := rx.slots[j := Some(s)]))
        else Step(true, rx.(slots := rx.slots[j := Some(Placed(s, h, body))]))
  }

  ghost function AbsorbAll(rx: Rx, payload: seq<byte>, maxLen: nat): (r: Step)
    requires |rx.slots| == K
    ensures |r.rx.slots| == K && r.rx == rx.(slots := r.rx.slots)
    decreases |payload|
  {
    if payload == [] then Step(true, rx)
    else
      match ParseFragment(payload)
      case Broken => Step(false, rx)
      case Parsed(h, body, rest) =>
        var r := Absorb(rx, h, body, maxLen);
        if r.ok then AbsorbAll(r.rx, rest, maxLen) else r
  }

  datatype OpenStep = OpenStep(result: Opened, rx: Rx)

  /** `dtls1_open_handshake` on a record that was decrypted to this type and payload. */
  ghost function Opening(rx: Rx, typ: byte, payload: seq<byte>, maxLen: nat): (r: OpenStep)
    requires |rx.slots| == K
    ensures |r.rx.slots| == K && (r.result != Success ==> r.rx.ccs == rx.ccs)
  {
    if typ == RT_APPLICATION_DATA then OpenStep(if rx.encrypted then Discard else Error, rx)
    else if typ == RT_CHANGE_CIPHER_SPEC then
      if rx.encrypted || payload != [1] then OpenStep(Error, rx) else OpenStep(Success, rx.(ccs := true))
    else if typ == RT_HANDSHAKE then
      var r := AbsorbAll(rx, payload, maxLen);
      OpenStep(if r.ok then Success else Error, r.rx)
    else OpenStep(Error, rx)
  }

  /** `dtls1_open_change_cipher_spec`: a ChangeCipherSpec seen before, or one that this record is. */
  ghost function OpeningCcs(rx: Rx, typ: byte, payload: seq<byte>, maxLen: nat): (r: OpenStep)
    requires |rx.slots| == K
    ensures |r.rx.slots| == K
  {
    var step := if rx.ccs then OpenStep(Success, rx) else Opening(rx, typ, payload, maxLen);
    if step.result != Success then step
    else OpenStep(if step.rx.ccs then Success else Discard, step.rx.(ccs := false))
  }

  /** `dtls1_get_message`: the current message, once complete. */
  ghost function Current(rx: Rx): Option<Slot>
    requires |rx.slots| == K
  {
    match rx.slots[rx.readSeq % K]
    case None => None
    case Some(s) => if Complete(s) then Some(s) else None
  }

  /** `dtls1_next_message` */
  ghost function Advance(rx: Rx): (r: Rx)
    requires |rx.slots| == K
    ensures |r.slots| == K
  {
    rx.(slots := rx.slots[rx.readSeq % K := None], readSeq := (rx.readSeq + 1) % U16)
  }

  // ---- the ring

  lemma ResidueUnique(a: nat, b: nat, base: nat)
    requires base <= a < base + K && base <= b < base + K && a % K == b % K
    ensures a == b
  {
  }

  /** A slot that is found was made for this very sequence number. */
  lemma LookupMatches(rx: Rx, h: Header)
    requires RingOk(rx) && Lookup(rx, h).Some?
    ensures Lookup(rx, h).value.seqNo == h.seqNo && Lookup(rx, h).value.typ == h.typ
    ensures |Lookup(rx, h).value.data| == h.msgLen
  {
    if rx.slots[h.seqNo % K].Some? {
      ResidueUnique(rx.slots[h.seqNo % K].value.seqNo, h.seqNo, rx.readSeq);
    }
  }

  lemma AbsorbKeepsRing(rx: Rx, h: Header, body: seq<byte>, maxLen: nat)
    requires RingOk(rx) && |body| == h.len && InRange(h)
    ensures RingOk(Absorb(rx, h, body, maxLen).rx)
  {
    hide Complete, Placed;
    if Lookup(rx, h).Some? { LookupMatches(rx, h); }
    if h.seqNo >= rx.readSeq { PlacedSame(rx, h, body); }
  }

  lemma PlacedSame(rx: Rx, h: Header, body: seq<byte>)
    requires |rx.slots| == K
    ensures Lookup(rx, h).Some? && h.off + |body| <= |Lookup(rx, h).value.data| ==>
      var s := Lookup(rx, h).value; Placed(s, h, body).seqNo == s.seqNo && Placed(s, h, body).typ == s.typ
  {
    hide Lookup;
  }

  lemma {:induction false} AbsorbAllKeepsRing(rx: Rx, payload: seq<byte>, maxLen: nat)
    requires RingOk(rx)
    ensures RingOk(AbsorbAll(rx, payload, maxLen).rx)
    decreases |payload|
  {
    hide Absorb, ParseFragment;
    if payload != [] && ParseFragment(payload).Parsed? {
        var Parsed(h, body, rest) := ParseFragment(payload);
        AbsorbKeepsRing(rx, h, body, maxLen);
        if Absorb(rx, h, body, maxLen).ok { AbsorbAllKeepsRing(Absorb(rx, h, body, maxLen).rx, rest, maxLen); }
    }
  }

  /** Every record, however malformed, leaves the ring in order. */
  lemma OpenKeepsRing(rx: Rx, typ: byte, payload: seq<byte>, maxLen: nat)
    requires RingOk(rx)
    ensures RingOk(Opening(rx, typ, payload, maxLen).rx)
  {
    hide AbsorbAll;
    AbsorbAllKeepsRing(rx, payload, maxLen);
  }

  /** So does handing out the current message, also where the 16-bit sequence number wraps. */
  lemma AdvanceKeepsRing(rx: Rx)
    requires RingOk(rx)
    ensures RingOk(Advance(rx))
  {
    var rx' := Advance(rx);
    forall j | 0 <= j < K && rx'.slots[j].Some?
      ensures var n := rx'.slots[j].value.seqNo; n % K == j && rx'.readSeq <= n < rx'.readSeq + K && n < U16
    {
      var n := rx.slots[j].value.seqNo;
      assert n != rx.readSeq;
    }
  }

  /** Nothing that arrives later changes a complete message. */
  lemma AbsorbKeepsCurrent(rx: Rx, h: Header, body: seq<byte>, maxLen: nat)
    requires |rx.slots| == K && |body| == h.len && Current(rx).Some?
    ensures Current(Absorb(rx, h, body, maxLen).rx) == Current(rx)
  {
    hide Complete, Placed;
  }

  lemma {:induction false} AbsorbAllKeepsCurrent(rx: Rx, payload: seq<byte>, maxLen: nat)
    requires |rx.slots| == K && Current(rx).Some?
    ensures Current(AbsorbAll(rx, payload, maxLen).rx) == Current(rx)
    decreases |payload|
  {
    hide Absorb, ParseFragment, Current;
    if payload != [] && ParseFragment(payload).Parsed? {
      var Parsed(h, body, rest) := ParseFragment(payload);
      AbsorbKeepsCurrent(rx, h, body, maxLen);
      if Absorb(rx, h, body, maxLen).ok { AbsorbAllKeepsCurrent(Absorb(rx, h, body, maxLen).rx, rest, maxLen); }
    }
  }

  lemma OpenKeepsCurrent(rx: Rx, typ: byte, payload: seq<byte>, maxLen: nat)
    requires |rx.slots| == K && Current(rx).Some?
    ensures Current(Opening(rx, typ, payload, maxLen).rx) == Current(rx)
  {
    hide AbsorbAll;
    AbsorbAllKeepsCurrent(rx, payload, maxLen);
  }

  // ---- what a record must be

  /** Fragments one after another, with all numbers within their widths. */
  function Join(fs: seq<(Header, seq<byte>)>): seq<byte> {
    if fs == [] then [] else PutHeader(fs[0].0) + fs[0].1 + Join(fs[1..])
  }

  ghost predicate Sound(f: (Header, seq<byte>)) {
    InRange(f.0) && f.0.len == |f.1| && f.0.off + f.0.len <= f.0.msgLen
  }

  /** A handshake record is accepted only if it is whole fragments and nothing else, each within its message and no
      message over the limit. */
  lemma {:induction false} AcceptedIsFragments(rx: Rx, payload: seq<byte>, maxLen: nat)
    returns (fs: seq<(Header, seq<byte>)>)
    requires |rx.slots| == K && AbsorbAll(rx, payload, maxLen).ok
    ensures payload == Join(fs) && forall f :: f in fs ==> Sound(f) && f.0.msgLen <= maxLen
    decreases |payload|
  {
    hide ParseFragment, PutHeader, Lookup;
    fs := [];
    if payload != [] {
      var Parsed(h, body, rest) := ParseFragment(payload);
      ParsedIsWritten(payload);
      var more := AcceptedIsFragments(Absorb(rx, h, body, maxLen).rx, rest, maxLen);
      fs := [(h, body)] + more;
      assert fs[1..] == more;
    }
  }

  /** No record of another type is taken, and none changes anything: application data is dropped once there is a cipher,
      and is an error before. */
  lemma OtherTypesRefused(rx: Rx, typ: byte, payload: seq<byte>, maxLen: nat)
    requires |rx.slots| == K && typ != 20 && typ != 22
    ensures Opening(rx, typ, payload, maxLen) == OpenStep(if typ == 23 && rx.encrypted then Discard else Error, rx)
  {
  }

  /** `dtls_has_unprocessed_handshake_data`: more than the message being read has arrived. */
  ghost predicate Unprocessed(rx: Rx, reading: bool)
    requires |rx.slots| == K
  {
    rx.ccs || exists j :: 0 <= j < K && rx.slots[j].Some? && !(reading && j == rx.readSeq % K)
  }

  // ---- the implementation

  class Receiver {
    const incoming: array<HmFragment?>
    const maxLen: nat // `ssl_max_handshake_message_len`
    var readSeq: nat
    var hasCcs: bool
    var hasMessage: bool
    var epoch: nat
    var encrypted: bool
    ghost var ring: seq<Option<Slot>> // what the slots hold
    ghost var parts: set<object> // the objects of the fragments

    ghost predicate Holds(j: nat)
      requires incoming.Length == |ring| == K && j < K && Known(incoming[j])
      reads this, incoming, parts
    {
      Objects(incoming[j]) <= parts && Live(incoming[j], ring[j])
    }

    ghost predicate AllApart()
      requires incoming.Length == K
      reads this, incoming, parts
    {
      forall j, k :: (0 <= j < K && 0 <= k < K && j != k && Known(incoming[j]) && Known(incoming[k])) ==>
        Objects(incoming[j]) !! Objects(incoming[k])
    }

    ghost predicate Known(f: HmFragment?)
      reads this
    {
      f == null || f in parts
    }

    ghost predicate Shape()
      reads this, incoming, parts
    {
      && incoming.Length == |ring| == K
      && (this as object) !in parts && (incoming as object) !in parts
      && (forall j :: 0 <= j < K ==> Known(incoming[j]) && Holds(j))
      && AllApart()
    }

    ghost function State(): Rx
      reads this
    {
      Rx(readSeq, ring, hasCcs, epoch, encrypted)
    }

    ghost predicate Valid()
      reads this, incoming, parts
    {
      Shape() && RingOk(State()) && (hasMessage ==> Current(State()).Some?)
    }

    constructor (maxLen: nat)
      ensures Valid() && fresh(parts) && fresh(incoming) && this.maxLen == maxLen
      ensures State() == Rx(0, [None, None, None, None, None, None, None], false, 0, false)
    {
      incoming := new HmFragment?[K](_ => null);
      this.maxLen := maxLen;
      readSeq, hasCcs, hasMessage, epoch, encrypted := 0, false, false, 0, false;
      ring, parts := [None, None, None, None, None, None, None], {};
    }

    /** `dtls1_get_incoming_message` */
    method GetIncoming(h: Header) returns (f: HmFragment?)
      requires Valid()
      modifies this`ring, this`parts, incoming
      ensures Shape() && fresh(parts - old(parts))
      ensures f == null <==> Lookup(old(State()), h).None?
      ensures f == null ==> State() == old(State())
      ensures f != null ==> (
        && f == incoming[h.seqNo % K]
        && State() == old(State()).(slots := old(ring)[h.seqNo % K := Lookup(old(State()), h)]))
    {
      if h.seqNo < readSeq || h.seqNo - readSeq >= K {
        return null;
      }
      var idx := h.seqNo % K;
      f := incoming[idx];
      assert Holds(idx);
      if f != null {
        if f.typ != h.typ || f.msgLen != h.msgLen {
          return null;
        }
        LookupMatches(State(), h);
        assert f.seqNo == h.seqNo;
        assert ring == ring[idx := ring[idx]];
        return;
      }
      f := new HmFragment.New(h);
      Install(idx, f);
    }

    /** A fresh fragment goes into an empty slot. */
    method Install(idx: nat, f: HmFragment)
      requires Shape() && idx < K && incoming[idx] == null
      requires Objects(f) !! parts && f.Valid()
      requires (this as object) !in Objects(f) && (incoming as object) !in Objects(f)
      modifies this`parts, this`ring, incoming
      ensures Shape() && incoming[idx] == f && ring == old(ring)[idx := Some(f.View())]
      ensures parts == old(parts) + Objects(f)
    {
      hide Live;
      incoming[idx] := f;
      parts := parts + Objects(f);
      ring := ring[idx := Some(f.View())];
      LiveView(f);
      forall j | 0 <= j < K ensures Known(incoming[j]) && Holds(j) {
        assert j != idx ==> old(Known(incoming[j]) && Holds(j));
      }
    }

    /** Copies a body into the fragment of one slot and marks it. */
    method PlaceBody(f: HmFragment, idx: nat, h: Header, body: seq<byte>)
      requires Shape() && idx < K && incoming[idx] == f && f in parts && f.data in parts
      requires h.off + |body| <= f.msgLen
      modifies this`ring, f`reassembly, f.data, f.reassembly
      ensures Shape() && ring[idx].Some?
      ensures old(ring[idx].Some?) && ring == old(ring)[idx := Some(Placed(old(ring[idx].value), h, body))]
    {
      hide Live, Objects, Placed;
      assert Known(f) && Holds(idx);
      SlotOf(f, ring[idx]);
      Place(f, ring[idx].value, h, body);
      ring := ring[idx := Some(Placed(ring[idx].value, h, body))];
      forall j | 0 <= j < K ensures Known(incoming[j]) && Holds(j) {
        assert old(Known(incoming[j]) && Holds(j));
      }
    }

    /** One turn of the loop of `dtls1_open_handshake`. */
    method AbsorbFragment(h: Header, body: seq<byte>) returns (ok: bool)
      requires Valid() && |body| == h.len && InRange(h)
      modifies this`ring, this`parts, incoming, parts
      ensures Valid() && fresh(parts - old(parts))
      ensures Step(ok, State()) == Absorb(old(State()), h, body, maxLen)
    {
      hide Complete, Placed, Live, Objects, RingOk, Current;
      ghost var before := State();
      AbsorbKeepsRing(before, h, body, maxLen);
      if hasMessage { AbsorbKeepsCurrent(before, h, body, maxLen); }
      if h.off + h.len > h.msgLen || h.msgLen > maxLen {
        return false;
      }
      // the encrypted epoch has only one handshake message
      if epoch == 1 && h.seqNo != readSeq {
        return false;
      }
      if h.seqNo < readSeq || h.seqNo > readSeq + K {
        return true;
      }
      var f := GetIncoming(h);
      if f == null {
        return false;
      }
      assert Known(f) && Holds(h.seqNo % K);
      SlotOf(f, ring[h.seqNo % K]);
      if f.reassembly == null {
        return true;
      }
      PlaceBody(f, h.seqNo % K, h, body);
      ok := true;
      assert State() == Absorb(before, h, body, maxLen).rx;
    }

    /** `dtls1_open_handshake`, given what the record layer made of the packet. */
    method OpenHandshake(typ: byte, payload: seq<byte>) returns (r: Opened)
      requires Valid()
      modifies this`ring, this`parts, this`hasCcs, incoming, parts
      ensures Valid() && fresh(parts - old(parts))
      ensures OpenStep(r, State()) == Opening(old(State()), typ, payload, maxLen)
    {
      if typ == RT_APPLICATION_DATA {
        return if encrypted then Discard else Error;
      }
      if typ == RT_CHANGE_CIPHER_SPEC {
        if encrypted || payload != [1] {
          return Error;
        }
        hasCcs := true;
        return Success;
      }
      if typ != RT_HANDSHAKE {
        return Error;
      }
      r := ReadFragments(payload);
    }

    method ReadFragments(payload: seq<byte>) returns (r: Opened)
      requires Valid()
      modifies this`ring, this`parts, incoming, parts
      ensures Valid() && fresh(parts - old(parts)) && r != Discard
      ensures Step(r == Success, State()) == AbsorbAll(old(State()), payload, maxLen)
    {
      hide Absorb, ParseFragment;
      var rest := payload;
      while rest != []
        invariant Valid() && fresh(parts - old(parts))
        invariant AbsorbAll(State(), rest, maxLen) == AbsorbAll(old(State()), payload, maxLen)
        decreases |rest|
      {
        var p := ParseFragment(rest);
        if p.Broken? {
          return Error;
        }
        var ok := AbsorbFragment(p.h, p.body);
        if !ok {
          return Error;
        }
        rest := p.rest;
      }
      r := Success;
    }

    /** `dtls1_get_message` */
    method GetMessage() returns (m: Option<(byte, seq<byte>)>)
      requires Valid()
      modifies this`hasMessage
      ensures Valid() && (m.Some? ==> hasMessage)
      ensures m == match Current(State()) case None => None case Some(s) => Some((s.typ, s.data))
    {
      hide Complete, Objects;
      var idx := readSeq % K;
      assert Known(incoming[idx]) && Holds(idx);
      var f := incoming[idx];
      if f == null {
        return None;
      }
      f.CompleteIffFreed();
      if f.reassembly != null {
        return None;
      }
      hasMessage := true;
      m := Some((f.typ, f.data[HEADER..]));
    }

    /** `dtls1_next_message`. Its second assertion, that the message is complete, always holds. */
    method NextMessage()
      requires Valid() && hasMessage
      modifies this`ring, this`readSeq, this`hasMessage, incoming
      ensures Valid() && State() == Advance(old(State())) && !hasMessage
    {
      hide Complete, Live, Objects;
      AdvanceKeepsRing(State());
      ClearSlot(readSeq % K);
      readSeq := (readSeq + 1) % U16;
      hasMessage := false;
    }

    method ClearSlot(idx: nat)
      requires Shape() && idx < K
      modifies this`ring, incoming
      ensures Shape() && ring == old(ring)[idx := None]
    {
      hide Live, Objects;
      NoFragment();
      incoming[idx] := null;
      ring := ring[idx := None];
      forall j | 0 <= j < K ensures Known(incoming[j]) && Holds(j) {
        assert j != idx ==> old(Known(incoming[j]) && Holds(j));
      }
    }

    /** `dtls_has_unprocessed_handshake_data` */
    method HasUnprocessed() returns (r: bool)
      requires Valid()
      ensures r == Unprocessed(State(), hasMessage)
    {
      hide Complete, Objects;
      if hasCcs {
        return true;
      }
      var current := readSeq % K;
      for i := 0 to K
        invariant forall j :: 0 <= j < i ==> !(ring[j].Some? && !(hasMessage && j == current))
      {
        assert Known(incoming[i]) && Holds(i);
        if !(hasMessage && i == current) && incoming[i] != null {
          return true;
        }
      }
      r := false;
    }

    /** The checks and the epoch of `dtls1_set_read_state`; the replay window is in ReplayWindow. */
    method SetReadState(nullCipher: bool) returns (ok: bool)
      requires Valid()
      modifies this`epoch, this`encrypted
      ensures Valid() && ok == !Unprocessed(old(State()), hasMessage)
      ensures State() ==
        if ok then old(State()).(epoch := (old(epoch) + 1) % U16, encrypted := !nullCipher) else old(State())
    {
      hide Complete, Live, Objects;
      var leftover := HasUnprocessed();
      if leftover {
        return false;
      }
      epoch := (epoch + 1) % U16;
      encrypted := !nullCipher;
      ok := true;
    }

    /** `dtls1_open_change_cipher_spec` */
    method OpenChangeCipherSpec(typ: byte, payload: seq<byte>) returns (r: Opened)
      requires Valid()
      modifies this`ring, this`parts, this`hasCcs, incoming, parts
      ensures Valid() && fresh(parts - old(parts))
      ensures OpenStep(r, State()) == OpeningCcs(old(State()), typ, payload, maxLen)
    {
      hide Complete, Live, Objects, Opening;
      if !hasCcs {
        r := OpenHandshake(typ, payload);
        if r != Success {
          return;
        }
      }
      if hasCcs {
        hasCcs := false;
        r := Success;
      } else {
        r := Discard;
      }
    }
  }

  lemma LiveView(f: HmFragment)
    requires f.Valid()
    ensures Live(f, Some(f.View()))
  {
  }

  lemma SlotOf(f: HmFragment, slot: Option<Slot>)
    requires Live(f, slot)
    ensures slot.Some? && f.Valid() && |slot.value.data| == f.msgLen && f in Objects(f) && f.data in Objects(f)
    ensures f.reassembly != null ==> f.reassembly in Objects(f)
    ensures f.reassembly == null <==> Complete(slot.value)
  {
    hide Complete;
    f.CompleteIffFreed();
  }

  lemma NoFragment()
    ensures Live(null, None) && Objects(null) == {}
  {
  }

  /** The `memcpy` and the mark, on the fragment of one slot. */
  method Place(f: HmFragment, ghost slot: Slot, h: Header, body: seq<byte>)
    requires Live(f, Some(slot)) && h.off + |body| <= f.msgLen
    modifies f`reassembly, f.data, f.reassembly
    ensures |slot.data| == f.msgLen && Live(f, Some(Placed(slot, h, body))) && Objects(f) <= old(Objects(f))
  {
    f.CopyBody(h.off, body);
    f.Mark(h.off, h.off + |body|);
  }

  ghost function Objects(f: HmFragment?): set<object>
    reads f
  {
    if f == null then {} else {f, f.data} + if f.reassembly == null then {} else {f.reassembly}
  }

  /** A slot of the array holds what the ring says. */
  ghost predicate Live(f: HmFragment?, slot: Option<Slot>)
    reads f, Objects(f)
  {
    if f == null then slot == None else f.Valid() && slot == Some(f.View())
  }
}
