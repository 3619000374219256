/** A field that occurs more than once on the wire: arrays grow, packed or not, submessages merge, and of anything else
    the last occurrence stays. */
module PbOccurrences {
  import opened Bytes
  import opened PbVarint
  import opened PbTypes
  import opened PbCodec
  import opened PbMerge
  import opened PbRoundTrip

  // ---- arrays

  /** Part of an array on the wire: one item under its own key, or some of them packed under one. */
  datatype Piece = Single(v: Val) | Packed(vs: seq<Val>)

  function PieceBytes(f: Field, p: Piece): Option<seq<byte>> {
    match p
    case Single(v) => EncTagged(f, v)
    case Packed(vs) => Cat(Some(EncTag(WT_STRING, f.tag)), Sized(EncItems(f, vs, 0)))
  }

  function PieceItems(f: Field, p: Piece): seq<Val> {
    match p
    case Single(v) => [CanonVal(f, v)]
    case Packed(vs) => vs
  }

  function PiecesBytes(f: Field, ps: seq<Piece>): Option<seq<byte>> {
    if ps == [] then Some([]) else Cat(PieceBytes(f, ps[0]), PiecesBytes(f, ps[1..]))
  }

  function PiecesItems(f: Field, ps: seq<Piece>): seq<Val> {
    if ps == [] then [] else PieceItems(f, ps[0]) + PiecesItems(f, ps[1..])
  }

  /** What an encoder may write for the field; only scalars are packed. */
  ghost predicate PieceOk(f: Field, p: Piece) {
    match p
    case Single(v) => TypedVal(f, v) && LegibleVal(f, v) && FitsVal(f, v)
    case Packed(vs) =>
      Packable(f.ltype) && ShortRun(EncItems(f, vs, 0)) && forall j :: 0 <= j < |vs| ==> TypedVal(f, vs[j])
  }

  /** The array slot of field i. */
  predicate IsArray(d: seq<Field>, i: nat, m: seq<Cell>, items: seq<Val>) {
    && i < |d| && |m| == Slots(d, |d|) && d[i].htype == Repeated && d[i].tag < TAG_LIMIT
    && m[SlotOf(d, i)] == Rep(items) && |items| <= d[i].arraySize
  }

  lemma SingleAppends(d: seq<Field>, i: nat, v: Val, rest: seq<byte>, m: seq<Cell>, seen: set<nat>, items: seq<Val>)
    requires WellFormed(d) && IsArray(d, i, m, items) && PieceOk(d[i], Single(v))
    requires EncTagged(d[i], v).Some? && |EncTagged(d[i], v).value| < TWO_TO_63
    ensures DecLoop(d, EncTagged(d[i], v).value + rest, m, seen)
         == if |items| < d[i].arraySize then DecLoop(d, rest, m[SlotOf(d, i) := Rep(items + [CanonVal(d[i], v)])], seen)
            else None
  {
    hide EncVal, DecVal, DecLoop, SlotOf, Slots, CanonVal, EncTag, TypedVal, LegibleVal, FitsVal;
    var f := d[i];
    var body := EncVal(f, v).value;
    assert WellFormedField(f);
    ValRoundTrip(f, v, rest, Int(0));
    assert EncTagged(f, v).value + rest == EncTag(WireType(f.ltype), f.tag) + (body + rest);
    AtField(d, i, WireType(f.ltype), body + rest, m, seen);
    NotPackedKey(f);
    assert SeenBit(d, i) == {} && seen + {} == seen;
  }

  lemma NotPackedKey(f: Field)
    ensures Packable(f.ltype) ==> WireType(f.ltype) != WT_STRING
  {
  }

  lemma PackedAppends(d: seq<Field>, i: nat, vs: seq<Val>, rest: seq<byte>, m: seq<Cell>, seen: set<nat>,
      items: seq<Val>)
    requires WellFormed(d) && IsArray(d, i, m, items) && PieceOk(d[i], Packed(vs))
    requires PieceBytes(d[i], Packed(vs)).Some?
    ensures DecLoop(d, PieceBytes(d[i], Packed(vs)).value + rest, m, seen)
         == if |items| + |vs| <= d[i].arraySize then DecLoop(d, rest, m[SlotOf(d, i) := Rep(items + vs)], seen)
            else None
  {
    hide EncItems, DecVal, DecLoop, SlotOf, Slots, EncTag, TypedVal, DecPacked, Prefixed, TakePrefixed;
    var f := d[i];
    var body := EncItems(f, vs, 0).value;
    assert WellFormedField(f);
    PackedRoundTrip(f, vs, 0, items);
    assert vs[0..] == vs;
    PrefixedRoundTrip(body, rest);
    assert PieceBytes(f, Packed(vs)).value + rest == EncTag(WT_STRING, f.tag) + (Prefixed(body) + rest);
    AtField(d, i, WT_STRING, Prefixed(body) + rest, m, seen);
    assert SeenBit(d, i) == {} && seen + {} == seen;
  }

  /** Single items and packed runs may alternate: the items are appended in order, as long as the array has room, and
      beyond that decoding fails. */
  lemma {:induction false} PiecesAppend(d: seq<Field>, i: nat, ps: seq<Piece>, rest: seq<byte>, m: seq<Cell>,
      seen: set<nat>, items: seq<Val>)
    requires WellFormed(d) && IsArray(d, i, m, items) && forall p :: p in ps ==> PieceOk(d[i], p)
    requires PiecesBytes(d[i], ps).Some? && |PiecesBytes(d[i], ps).value| < TWO_TO_63
    ensures DecLoop(d, PiecesBytes(d[i], ps).value + rest, m, seen)
         == if |items| + |PiecesItems(d[i], ps)| <= d[i].arraySize
            then DecLoop(d, rest, m[SlotOf(d, i) := Rep(items + PiecesItems(d[i], ps))], seen)
            else None
    decreases |ps|
  {
    hide DecLoop, SlotOf, Slots, PieceOk, CanonVal, EncTagged, WellFormed;
    var f, s := d[i], SlotOf(d, i);
    if ps == [] {
      assert [] + rest == rest && items + [] == items && m[s := Rep(items)] == m;
    } else {
      var first, more := PieceBytes(f, ps[0]).value, PiecesBytes(f, ps[1..]).value;
      assert PiecesBytes(f, ps).value + rest == first + (more + rest);
      assert ps[0] in ps && forall p :: p in ps[1..] ==> p in ps;
      match ps[0] {
        case Single(v) => SingleAppends(d, i, v, more + rest, m, seen, items);
        case Packed(vs) => PackedAppends(d, i, vs, more + rest, m, seen, items);
      }
      var items' := items + PieceItems(f, ps[0]);
      var m' := m[s := Rep(items')];
      if |items'| <= f.arraySize {
        PiecesAppend(d, i, ps[1..], rest, m', seen, items');
        assert items' + PiecesItems(f, ps[1..]) == items + PiecesItems(f, ps);
        assert m'[s := Rep(items + PiecesItems(f, ps))] == m[s := Rep(items + PiecesItems(f, ps))];
      }
    }
  }

  /** Each item of vs from the k-th on under its own key. */
  function Singles(vs: seq<Val>, k: nat): (ps: seq<Piece>)
    requires k <= |vs|
    decreases |vs| - k
  {
    if k == |vs| then [] else [Single(vs[k])] + Singles(vs, k + 1)
  }

  lemma {:induction false} SinglesSpread(f: Field, vs: seq<Val>, k: nat)
    requires k <= |vs| && Packable(f.ltype) && forall j :: 0 <= j < |vs| ==> TypedVal(f, vs[j])
    ensures PiecesBytes(f, Singles(vs, k)) == EncEach(f, vs, k) && PiecesItems(f, Singles(vs, k)) == vs[k..]
    ensures forall p :: p in Singles(vs, k) ==> PieceOk(f, p)
    decreases |vs| - k
  {
    hide EncTagged, TypedVal;
    if k < |vs| {
      SinglesSpread(f, vs, k + 1);
      NotMsg(f, vs[k]);
      assert Singles(vs, k)[1..] == Singles(vs, k + 1) && vs[k..] == [vs[k]] + vs[k + 1..];
    }
  }

  lemma OnePiece(f: Field, p: Piece)
    ensures PiecesItems(f, [p]) == PieceItems(f, p) && PiecesBytes(f, [p]) == PieceBytes(f, p)
  {
    hide EncTagged, EncItems;
    assert [p][1..] == [] && PieceItems(f, p) + [] == PieceItems(f, p);
    if PieceBytes(f, p).Some? { assert PieceBytes(f, p).value + [] == PieceBytes(f, p).value; }
  }

  /** A reader cannot tell whether an array of scalars was packed. */
  lemma PackedOrNot(d: seq<Field>, i: nat, vs: seq<Val>, rest: seq<byte>, m: seq<Cell>, seen: set<nat>, items: seq<Val>)
    requires WellFormed(d) && IsArray(d, i, m, items) && PieceOk(d[i], Packed(vs))
    requires PieceBytes(d[i], Packed(vs)).Some? && |PieceBytes(d[i], Packed(vs)).value| < TWO_TO_63
    requires EncEach(d[i], vs, 0).Some? && |EncEach(d[i], vs, 0).value| < TWO_TO_63
    ensures DecLoop(d, EncEach(d[i], vs, 0).value + rest, m, seen)
         == DecLoop(d, PieceBytes(d[i], Packed(vs)).value + rest, m, seen)
  {
    hide DecLoop, SlotOf, Slots, TypedVal, CanonVal, EncTagged, EncItems, EncEach, WellFormed, PiecesItems, PiecesBytes,
      PieceBytes, ShortRun;
    var f := d[i];
    SinglesSpread(f, vs, 0);
    OnePiece(f, Packed(vs));
    PiecesAppend(d, i, Singles(vs, 0), rest, m, seen, items);
    PiecesAppend(d, i, [Packed(vs)], rest, m, seen, items);
    assert vs[0..] == vs;
  }

  // ---- anything else

  /** The cell of field i, which is not an array. */
  predicate IsSingle(d: seq<Field>, i: nat, m: seq<Cell>) {
    && i < |d| && |m| == Slots(d, |d|) && d[i].tag < TAG_LIMIT
    && match d[i].htype
       case Required => m[SlotOf(d, i)].Req?
       case Optional => if d[i].hasSize then m[SlotOf(d, i)].Opt? else m[SlotOf(d, i)].Sing?
       case Oneof => m[SlotOf(d, i)].One?
       case Repeated => false
  }

  function SetTo(f: Field, v: Val): Cell {
    match f.htype
    case Required => Req(v)
    case Optional => if f.hasSize then Opt(true, v) else Sing(v)
    case _ => One(f.tag, v)
  }

  /** A scalar, and a member of a oneof even if it is a submessage, replaces what was there, whatever it was. */
  lemma LastOneStays(d: seq<Field>, i: nat, v: Val, rest: seq<byte>, m: seq<Cell>, seen: set<nat>)
    requires WellFormed(d) && IsSingle(d, i, m) && TypedVal(d[i], v) && LegibleVal(d[i], v) && FitsVal(d[i], v)
    requires d[i].ltype != Submessage || d[i].htype == Oneof
    requires EncTagged(d[i], v).Some? && |EncTagged(d[i], v).value| < TWO_TO_63
    ensures DecLoop(d, EncTagged(d[i], v).value + rest, m, seen)
         == DecLoop(d, rest, m[SlotOf(d, i) := SetTo(d[i], CanonVal(d[i], v))], seen + SeenBit(d, i))
  {
    hide EncVal, DecVal, DecLoop, SlotOf, Slots, CanonVal, EncTag, TypedVal, LegibleVal, FitsVal, SeenBit, DefaultsUpTo;
    var f := d[i];
    var body := EncVal(f, v).value;
    var prev := if f.ltype == Submessage then Msg(Defaults(f.ptr.fields)) else m[SlotOf(d, i)].v;
    assert WellFormedField(f);
    ValRoundTrip(f, v, rest, prev);
    assert EncTagged(f, v).value + rest == EncTag(WireType(f.ltype), f.tag) + (body + rest);
    AtField(d, i, WireType(f.ltype), body + rest, m, seen);
  }

  /** Field i is a submessage outside a oneof, and these are its slots. */
  predicate HoldsSubmessage(d: seq<Field>, i: nat, m: seq<Cell>, slots: seq<Cell>) {
    && IsSingle(d, i, m) && d[i].ltype == Submessage && d[i].htype != Oneof && d[i].ptr.Fields?
    && m[SlotOf(d, i)].v == Msg(slots) && |slots| == Slots(d[i].ptr.fields, |d[i].ptr.fields|)
  }

  /** A submessage under the key of field i. */
  function SubBytes(f: Field, body: seq<byte>): seq<byte> {
    EncTag(WT_STRING, f.tag) + Prefixed(body)
  }

  /** One occurrence of a submessage is decoded into what the field holds. */
  lemma SubmessageRead(d: seq<Field>, i: nat, body: seq<byte>, rest: seq<byte>, m: seq<Cell>, seen: set<nat>,
      slots: seq<Cell>)
    requires WellFormed(d) && HoldsSubmessage(d, i, m, slots)
    requires |body| < TWO_TO_32 && DecMsg(d[i].ptr.fields, body, slots).Some?
    ensures DecLoop(d, SubBytes(d[i], body) + rest, m, seen)
         == DecLoop(d, rest, m[SlotOf(d, i) := SetTo(d[i], Msg(DecMsg(d[i].ptr.fields, body, slots).value.0))],
              seen + SeenBit(d, i))
  {
    hide DecMsg, DecLoop, SlotOf, Slots, EncTag, SeenBit, Prefixed, TakePrefixed, WellFormed;
    PrefixedRoundTrip(body, rest);
    var v := Msg(DecMsg(d[i].ptr.fields, body, slots).value.0);
    assert DecSub(d[i], body, Msg(slots)) == Some(v);
    assert DecVal(d[i], Prefixed(body) + rest, Msg(slots)) == Some((v, rest));
    assert SubBytes(d[i], body) + rest == EncTag(WT_STRING, d[i].tag) + (Prefixed(body) + rest);
    AtField(d, i, WT_STRING, Prefixed(body) + rest, m, seen);
  }

  /** So a submessage that comes in two parts is the submessage that comes as both parts together. */
  lemma SubmessagesMerge(d: seq<Field>, i: nat, a: seq<byte>, b: seq<byte>, rest: seq<byte>, m: seq<Cell>,
      seen: set<nat>, slots: seq<Cell>)
    requires WellFormed(d) && HoldsSubmessage(d, i, m, slots)
    requires |a| + |b| < TWO_TO_32 && Whole(d[i].ptr.fields, a, slots)
    requires DecMsg(d[i].ptr.fields, a, slots).Some?
    requires DecMsg(d[i].ptr.fields, b, DecMsg(d[i].ptr.fields, a, slots).value.0).Some?
    ensures DecLoop(d, SubBytes(d[i], a) + SubBytes(d[i], b) + rest, m, seen)
         == DecLoop(d, SubBytes(d[i], a + b) + rest, m, seen)
  {
    hide DecMsg, DecLoop, SlotOf, Slots, SeenBit, SubBytes, WellFormed, Whole;
    var sub, s := d[i].ptr.fields, SlotOf(d, i);
    var first := DecMsg(sub, a, slots).value.0;
    var m' := m[s := SetTo(d[i], Msg(first))];
    assert SubBytes(d[i], a) + SubBytes(d[i], b) + rest == SubBytes(d[i], a) + (SubBytes(d[i], b) + rest);
    SubmessageRead(d, i, a, SubBytes(d[i], b) + rest, m, seen, slots);
    SubmessageRead(d, i, b, rest, m', seen + SeenBit(d, i), first);
    ConcatenationMerges(sub, a, b, slots);
    SubmessageRead(d, i, a + b, rest, m, seen, slots);
    var both := SetTo(d[i], Msg(DecMsg(sub, b, first).value.0));
    assert m'[s := both] == m[s := both];
    assert seen + SeenBit(d, i) + SeenBit(d, i) == seen + SeenBit(d, i);
  }

  // ---- nothing at all

  /** A slot none of whose fields occurs keeps what it held. */
  lemma {:induction false} AbsentStays(d: seq<Field>, b: seq<byte>, m: seq<Cell>, i: nat)
    requires |m| == Slots(d, |d|) && Whole(d, b, m) && i < |d|
    requires forall j :: j in Fold(d, b, m).1 ==> SlotOf(d, j) != SlotOf(d, i)
    ensures Fold(d, b, m).0[SlotOf(d, i)] == m[SlotOf(d, i)]
    decreases |b|
  {
    hide SlotOf, Slots, Next;
    if b != [] {
      var it := Next(d, b, m).value;
      NextSlot(d, b, m, i);
      AbsentStays(d, it.rest, it.m, i);
    }
  }

  lemma NextSlot(d: seq<Field>, b: seq<byte>, m: seq<Cell>, i: nat)
    requires |m| == Slots(d, |d|) && Next(d, b, m).Some? && i < |d|
    requires forall j :: j in Next(d, b, m).value.met ==> SlotOf(d, j) != SlotOf(d, i)
    ensures Next(d, b, m).value.m[SlotOf(d, i)] == m[SlotOf(d, i)]
  {
    hide SlotOf, Slots, Decode32, Find, Skip, DecField;
  }

  /** A field that does not occur, nor any that shares its slot, comes out as its default: the declared one, if there is
      one, and not marked as set. */
  lemma AbsentIsDefault(d: seq<Field>, b: seq<byte>, i: nat)
    requires Whole(d, b, Defaults(d)) && i < |d|
    requires forall j :: j in Fold(d, b, Defaults(d)).1 ==> SlotOf(d, j) != SlotOf(d, i)
    ensures var c := Fold(d, b, Defaults(d)).0[SlotOf(d, i)];
      match d[i].htype
      case Required => c.Req? && (d[i].ptr.Default? ==> c.v == d[i].ptr.v)
      case Optional =>
        if d[i].hasSize then c.Opt? && !c.has && (d[i].ptr.Default? ==> c.v == d[i].ptr.v)
        else c.Sing?
      case Repeated => c == Rep([])
      case Oneof => c.One? && c.which == 0
  {
    hide SlotOf, Slots, Fold, Whole, DefaultsUpTo;
    AbsentStays(d, b, Defaults(d), i);
    DefaultsAt(d, |d|, i);
  }
}
