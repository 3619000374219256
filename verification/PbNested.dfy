/** Unknown fields at any depth: inside submessages too they are skipped without a trace. */
module PbNested {
  import opened Bytes
  import opened PbVarint
  import opened PbTypes
  import opened PbCodec
  import opened PbMerge
  import opened PbRoundTrip

  /** A place for one more field: between whole fields of a message, or inside the submessage under field i that follows
      some whole fields. */
  datatype Spot =
    | Here(before: seq<byte>, unknown: seq<byte>, after: seq<byte>)
    | Inside(before: seq<byte>, i: nat, spot: Spot, after: seq<byte>)

  /** A submessage field on the wire. */
  function SubField(f: Field, body: seq<byte>): seq<byte> {
    EncTag(WT_STRING, f.tag) + Prefixed(body)
  }

  /** The input with the unknown field left out or put in, the length prefixes around it to match. */
  function Input(d: seq<Field>, s: Spot, padded: bool): seq<byte>
    decreases s
  {
    match s
    case Here(before, unknown, after) => before + (if padded then unknown else []) + after
    case Inside(before, i, spot, after) =>
      if i < |d| && d[i].ptr.Fields? then before + SubField(d[i], Input(d[i].ptr.fields, spot, padded)) + after else []
  }

  /** What a submessage is decoded into. */
  function StartOf(f: Field, c: Cell): Option<seq<Cell>>
    requires f.ptr.Fields?
  {
    if f.htype == Repeated || f.htype == Oneof then Some(Defaults(f.ptr.fields))
    else
      match c
      case Req(Msg(slots)) => Some(slots)
      case Opt(_, Msg(slots)) => Some(slots)
      case Sing(Msg(slots)) => Some(slots)
      case _ => None
  }

  predicate Fits(d: seq<Field>, m: seq<Cell>, s: Spot)
    decreases s
  {
    && |m| == Slots(d, |d|) && Whole(d, s.before, m)
    && match s
       case Here(_, unknown, _) => Unknown(d, unknown)
       case Inside(before, i, spot, _) =>
         && i < |d| && d[i].ltype == Submessage && d[i].ptr.Fields?
         && |Input(d[i].ptr.fields, spot, false)| < TWO_TO_32 && |Input(d[i].ptr.fields, spot, true)| < TWO_TO_32
         && var start := StartOf(d[i], Fold(d, before, m).0[SlotOf(d, i)]);
           start.Some? && Fits(d[i].ptr.fields, start.value, spot)
  }

  /** However deep it is put, an unknown field changes neither success nor result. */
  lemma {:induction false} NestedUnknownIsSkipped(d: seq<Field>, m: seq<Cell>, s: Spot)
    requires WellFormed(d) && Fits(d, m, s)
    ensures DecMsg(d, Input(d, s, true), m) == DecMsg(d, Input(d, s, false), m)
    decreases s
  {
    hide DecMsg, Whole, Fold, Slots, SlotOf, Unknown, WellFormedField;
    match s
    case Here(before, unknown, after) =>
      UnknownFieldsAreSkipped(d, before, unknown, after, m);
      assert before + [] + after == before + after;
    case Inside(before, i, spot, after) =>
      var f, cell := d[i], Fold(d, before, m).0[SlotOf(d, i)];
      assert WellFormedField(f);
      SubWellFormed(f);
      NestedUnknownIsSkipped(f.ptr.fields, StartOf(f, cell).value, spot);
      var x, y := Input(f.ptr.fields, spot, false), Input(f.ptr.fields, spot, true);
      SameSub(f, x, y, cell, after);
      SameField(d, before, i, x, y, after, m);
  }

  lemma SubWellFormed(f: Field)
    requires WellFormedField(f) && f.ltype == Submessage && f.ptr.Fields?
    ensures WellFormed(f.ptr.fields)
  {
    hide WellFormed;
  }

  /** Bodies that decode alike make fields that decode alike. */
  lemma SameSub(f: Field, x: seq<byte>, y: seq<byte>, c: Cell, after: seq<byte>)
    requires f.ltype == Submessage && f.ptr.Fields? && |x| < TWO_TO_32 && |y| < TWO_TO_32
    requires var start := StartOf(f, c);
      start.Some? && |start.value| == Slots(f.ptr.fields, |f.ptr.fields|)
      && DecMsg(f.ptr.fields, x, start.value) == DecMsg(f.ptr.fields, y, start.value)
    ensures DecField(f, WT_STRING, Prefixed(x) + after, c) == DecField(f, WT_STRING, Prefixed(y) + after, c)
  {
    hide DecMsg, Slots, Prefixed, Defaults, DecVal;
    var start := Msg(StartOf(f, c).value);
    SameVal(f, x, y, start, after);
    if f.htype == Repeated { SameVal(f, x, y, Int(0), after); }
  }

  lemma SameVal(f: Field, x: seq<byte>, y: seq<byte>, prev: Val, after: seq<byte>)
    requires f.ltype == Submessage && f.ptr.Fields? && |x| < TWO_TO_32 && |y| < TWO_TO_32
    requires var start := if f.htype == Repeated then Defaults(f.ptr.fields) else if prev.Msg? then prev.slots else [];
      |start| == Slots(f.ptr.fields, |f.ptr.fields|) ==>
        DecMsg(f.ptr.fields, x, start) == DecMsg(f.ptr.fields, y, start)
    ensures DecVal(f, Prefixed(x) + after, prev) == DecVal(f, Prefixed(y) + after, prev)
  {
    hide DecMsg, Slots, TakePrefixed, Prefixed, DefaultsUpTo, Decode32;
    PrefixedRoundTrip(x, after);
    PrefixedRoundTrip(y, after);
  }

  lemma SameField(d: seq<Field>, before: seq<byte>, i: nat, x: seq<byte>, y: seq<byte>, after: seq<byte>, m: seq<Cell>)
    requires WellFormed(d) && |m| == Slots(d, |d|) && Whole(d, before, m) && i < |d|
    requires var c := Fold(d, before, m).0[SlotOf(d, i)];
      DecField(d[i], WT_STRING, Prefixed(x) + after, c) == DecField(d[i], WT_STRING, Prefixed(y) + after, c)
    ensures DecMsg(d, before + SubField(d[i], x) + after, m) == DecMsg(d, before + SubField(d[i], y) + after, m)
  {
    hide DecField, DecLoop, Fold, Whole, Slots, SlotOf, Prefixed, EncTag, SeenBit, AllSeen, WellFormed;
    var (m', met) := Fold(d, before, m);
    forall z: seq<byte>
      ensures DecLoop(d, before + SubField(d[i], z) + after, m, {})
        == DecLoop(d, EncTag(WT_STRING, d[i].tag) + (Prefixed(z) + after), m', {} + SeenBits(d, met))
    {
      assert before + SubField(d[i], z) + after == before + (EncTag(WT_STRING, d[i].tag) + (Prefixed(z) + after));
      LoopAppend(d, before, EncTag(WT_STRING, d[i].tag) + (Prefixed(z) + after), m, {});
    }
    AtField(d, i, WT_STRING, Prefixed(x) + after, m', {} + SeenBits(d, met));
    AtField(d, i, WT_STRING, Prefixed(y) + after, m', {} + SeenBits(d, met));
  }
}
