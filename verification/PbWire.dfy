/** The bytes of a message as the Protocol Buffers encoding guide lays them down: a record for each field that is set, a
    key with the field number and a wire type in front of each. Wire types are written here as the guide's numbers. */
module PbWire {
  import opened Bytes
  import opened PbVarint
  import opened PbTypes
  import opened PbCodec
  import opened PbMerge
  import opened PbRoundTrip

  datatype Payload = Number(v: nat) | Eight(b: seq<byte>) | Run(b: seq<byte>) | Four(b: seq<byte>)

  datatype Record = Record(number: nat, payload: Payload)

  function TypeNo(p: Payload): nat {
    match p
    case Number(_) => 0
    case Eight(_) => 1
    case Run(_) => 2
    case Four(_) => 5
  }

  function PayloadBytes(p: Payload): seq<byte> {
    match p
    case Number(v) => Encode(v)
    case Run(b) => Encode(|b|) + b
    case _ => p.b
  }

  function RecordBytes(r: Record): seq<byte> {
    Encode(8 * r.number + TypeNo(r.payload)) + PayloadBytes(r.payload)
  }

  function Wire(rs: seq<Record>): seq<byte> {
    if rs == [] then [] else RecordBytes(rs[0]) + Wire(rs[1..])
  }

  // ---- numbers

  /** The k-th digit of a number to base 128 and to base 256, the lowest first. */
  function Digit128(v: nat, k: nat): nat {
    if k == 0 then v % 128 else Digit128(v / 128, k - 1)
  }

  function Digit256(v: nat, k: nat): nat {
    if k == 0 then v % 256 else Digit256(v / 256, k - 1)
  }

  /** A varint holds the digits to base 128, the lowest first, and every byte but the last is marked. */
  lemma {:induction false} VarintDigits(v: nat, k: nat)
    requires k < |Encode(v)|
    ensures Encode(v)[k] == Digit128(v, k) + if k < |Encode(v)| - 1 then 128 else 0
  {
    if k > 0 { VarintDigits(v / 128, k - 1); }
  }

  lemma {:induction false} LittleEndianDigits(v: nat, n: nat, k: nat)
    requires k < n
    ensures LittleEndian(v, n)[k] == Digit256(v, k)
  {
    if k > 0 { LittleEndianDigits(v / 256, n - 1, k - 1); }
  }

  // ---- reading records without a descriptor

  function ParsePayload(wireType: nat, b: seq<byte>): (r: Option<(Payload, seq<byte>)>)
    ensures r.Some? ==> |r.value.1| <= |b|
  {
    if wireType == 0 then
      match Decode64(b)
      case None => None
      case Some((v, rest)) => Some((Number(v), rest))
    else if wireType == 2 then
      match Decode64(b)
      case None => None
      case Some((n, rest)) => if |rest| < n then None else Some((Run(rest[..n]), rest[n..]))
    else if wireType == 1 then if |b| < 8 then None else Some((Eight(b[..8]), b[8..]))
    else if wireType == 5 then if |b| < 4 then None else Some((Four(b[..4]), b[4..]))
    else None
  }

  function ParseRecord(b: seq<byte>): (r: Option<(Record, seq<byte>)>)
    ensures r.Some? ==> |r.value.1| < |b|
  {
    match Decode64(b)
    case None => None
    case Some((key, rest)) =>
      match ParsePayload(key % 8, rest)
      case None => None
      case Some((p, rest')) => Some((Record(key / 8, p), rest'))
  }

  function Parse(b: seq<byte>): Option<seq<Record>>
    decreases |b|
  {
    if b == [] then Some([])
    else
      match ParseRecord(b)
      case None => None
      case Some((r, rest)) => match Parse(rest) case None => None case Some(rs) => Some([r] + rs)
  }

  /** A record that the guide admits. */
  predicate Proper(r: Record) {
    && 8 * r.number + 5 < TWO_TO_64
    && match r.payload
       case Number(v) => v < TWO_TO_64
       case Eight(b) => |b| == 8
       case Run(b) => |b| < TWO_TO_64
       case Four(b) => |b| == 4
  }

  lemma PayloadParses(p: Payload, rest: seq<byte>)
    requires Proper(Record(0, p))
    ensures ParsePayload(TypeNo(p), PayloadBytes(p) + rest) == Some((p, rest))
  {
    hide Encode, Decode64;
    match p
    case Number(v) => RoundTrip64(v, rest);
    case Run(b) =>
      RoundTrip64(|b|, b + rest);
      assert Encode(|b|) + b + rest == Encode(|b|) + (b + rest);
      assert (b + rest)[..|b|] == b && (b + rest)[|b|..] == rest;
    case _ => assert (p.b + rest)[..|p.b|] == p.b && (p.b + rest)[|p.b|..] == rest;
  }

  lemma RecordParses(r: Record, rest: seq<byte>)
    requires Proper(r)
    ensures ParseRecord(RecordBytes(r) + rest) == Some((r, rest))
  {
    hide Encode, Decode64, ParsePayload, PayloadBytes;
    var key := 8 * r.number + TypeNo(r.payload);
    assert RecordBytes(r) + rest == Encode(key) + (PayloadBytes(r.payload) + rest);
    RoundTrip64(key, PayloadBytes(r.payload) + rest);
    PayloadParses(r.payload, rest);
    assert key / 8 == r.number && key % 8 == TypeNo(r.payload);
  }

  /** Records can be told apart and read back whatever they are about. */
  lemma {:induction false} WireParses(rs: seq<Record>)
    requires forall r :: r in rs ==> Proper(r)
    ensures Parse(Wire(rs)) == Some(rs)
  {
    hide ParseRecord, RecordBytes, Proper;
    if rs != [] {
      assert rs[0] in rs && forall r :: r in rs[1..] ==> r in rs;
      RecordParses(rs[0], Wire(rs[1..]));
      WireParses(rs[1..]);
      assert [rs[0]] + rs[1..] == rs;
    }
  }

  // ---- the records of a message

  /** Signed numbers go out as 64-bit two's complement, or zigzag where the type says so. */
  function PayloadOf(f: Field, v: Val): Payload
    decreases f, 0
  {
    match (f.ltype, v)
    case (Varint, Int(i)) => Number(if i < 0 then Abs(i + TWO_TO_64) else i)
    case (Uvarint, Int(i)) => Number(Abs(i))
    case (Svarint, Int(i)) => Number(if i < 0 then -2 * i - 1 else 2 * i)
    case (Fixed32, Int(i)) => Four(LittleEndian(Abs(i), 4))
    case (Fixed64, Int(i)) => Eight(LittleEndian(Abs(i), 8))
    case (Blob, Bytes(b)) => Run(b)
    case (FixedBytes, Bytes(b)) => Run(b)
    case (Text, Chars(s)) => Run(s)
    case (Submessage, Msg(slots)) => if f.ptr.Fields? then Run(Wire(RecordsOf(f.ptr.fields, slots, 0))) else Run([])
    case _ => Run([])
  }

  function Abs(i: int): nat {
    if i < 0 then -i else i
  }

  function RecordOf(f: Field, v: Val): Record
    decreases f, 1
  {
    Record(f.tag, PayloadOf(f, v))
  }

  function EachRecord(f: Field, items: seq<Val>, k: nat): seq<Record>
    requires k <= |items|
    decreases f, 2, |items| - k
  {
    if k == |items| then [] else [RecordOf(f, items[k])] + EachRecord(f, items, k + 1)
  }

  function PackedBytes(f: Field, items: seq<Val>, k: nat): seq<byte>
    requires k <= |items|
    decreases f, 2, |items| - k
  {
    if k == |items| then [] else PayloadBytes(PayloadOf(f, items[k])) + PackedBytes(f, items, k + 1)
  }

  /** One record for a field that is set, one for each item of an array, or one for all its items. */
  function FieldRecords(f: Field, c: Cell): seq<Record>
    decreases f, 3
  {
    match (f.htype, c)
    case (Required, Req(v)) => [RecordOf(f, v)]
    case (Optional, Opt(has, v)) => if has then [RecordOf(f, v)] else []
    case (Optional, Sing(v)) => if IsZero(f, v) then [] else [RecordOf(f, v)]
    case (Repeated, Rep(items)) =>
      if items == [] then []
      else if Packable(f.ltype) then [Record(f.tag, Run(PackedBytes(f, items, 0)))]
      else EachRecord(f, items, 0)
    case (Oneof, One(which, v)) => if which == f.tag then [RecordOf(f, v)] else []
    case _ => []
  }

  /** From field i on. */
  function RecordsOf(d: seq<Field>, m: seq<Cell>, i: nat): seq<Record>
    requires i <= |d|
    decreases d, 4, |d| - i
  {
    if i == |d| || SlotOf(d, i) >= |m| then [] else FieldRecords(d[i], m[SlotOf(d, i)]) + RecordsOf(d, m, i + 1)
  }

  // ---- the encoder writes them

  lemma ScalarBytes(f: Field, v: Val)
    requires WellFormedField(f) && TypedVal(f, v) && f.ltype != Submessage
    ensures EncScalar(f, v) == Some(PayloadBytes(PayloadOf(f, v)))
  {
    hide Encode, LittleEndian, WellFormed, TypedMsg;
    match f.ltype
    case Varint => SignedRoundTrip(f, v.i);
    case Svarint => SignedRoundTrip(f, v.i); ZigZagRoundTrip(v.i);
    case Fixed32 => InWord(v.i, TWO_TO_32);
    case Fixed64 => InWord(v.i, TWO_TO_64);
    case Text => NoNul(v.s); assert v.s[..|v.s|] == v.s;
    case _ =>
  }

  lemma ValBytes(f: Field, v: Val)
    requires WellFormedField(f) && TypedVal(f, v)
    ensures EncVal(f, v) == Some(PayloadBytes(PayloadOf(f, v)))
    decreases f, 1
  {
    hide EncScalar, Slots, Encode;
    if f.ltype != Submessage {
      ScalarBytes(f, v);
    } else {
      MessageBytes(f.ptr.fields, v.slots, 0);
    }
  }

  lemma TaggedBytes(f: Field, v: Val)
    requires WellFormedField(f) && TypedVal(f, v)
    ensures EncTagged(f, v) == Some(RecordBytes(RecordOf(f, v)))
    decreases f, 2
  {
    hide EncVal, Encode, PayloadBytes;
    ValBytes(f, v);
    KeyType(f, v);
  }

  /** A text with a NUL in it goes out up to there. */
  lemma TextStopsAtNul(f: Field, text: seq<byte>, more: seq<byte>)
    requires f.ltype == Text && 0 !in text && |text| + 1 + |more| <= f.dataSize
    ensures EncScalar(f, Chars(text + [0] + more)) == Some(PayloadBytes(Run(text)))
  {
    LengthAt(text, more);
    assert (text + [0] + more)[..|text|] == text;
  }

  lemma {:induction false} LengthAt(text: seq<byte>, more: seq<byte>)
    requires 0 !in text
    ensures CLength(text + [0] + more) == |text|
  {
    if text != [] {
      assert forall x :: x in text[1..] ==> x in text;
      LengthAt(text[1..], more);
      assert (text + [0] + more)[1..] == text[1..] + [0] + more;
    }
  }

  lemma KeyType(f: Field, v: Val)
    requires TypedVal(f, v)
    ensures WireType(f.ltype) == TypeNo(PayloadOf(f, v))
  {
  }

  lemma WireOne(r: Record)
    ensures Wire([r]) == RecordBytes(r)
  {
    assert [r][1..] == [] && RecordBytes(r) + [] == RecordBytes(r);
  }

  lemma {:induction false} WireAppend(a: seq<Record>, b: seq<Record>)
    ensures Wire(a + b) == Wire(a) + Wire(b)
    decreases |a|
  {
    hide RecordBytes;
    if a == [] {
      assert a + b == b;
    } else {
      assert (a + b)[1..] == a[1..] + b;
      WireAppend(a[1..], b);
    }
  }

  lemma {:induction false} EachBytes(f: Field, items: seq<Val>, k: nat)
    requires WellFormedField(f) && k <= |items| && forall j :: 0 <= j < |items| ==> TypedVal(f, items[j])
    ensures EncEach(f, items, k) == Some(Wire(EachRecord(f, items, k)))
    decreases f, 3, |items| - k
  {
    hide EncTagged, RecordBytes, TypedVal, WellFormedField;
    if k < |items| {
      TaggedBytes(f, items[k]);
      EachBytes(f, items, k + 1);
      WireOne(RecordOf(f, items[k]));
      WireAppend([RecordOf(f, items[k])], EachRecord(f, items, k + 1));
    }
  }

  lemma {:induction false} ItemsBytes(f: Field, items: seq<Val>, k: nat)
    requires WellFormedField(f) && k <= |items| && forall j :: 0 <= j < |items| ==> TypedVal(f, items[j])
    ensures EncItems(f, items, k) == Some(PackedBytes(f, items, k))
    decreases f, 3, |items| - k
  {
    hide EncVal, PayloadBytes, PayloadOf, TypedVal, WellFormedField;
    if k < |items| {
      ValBytes(f, items[k]);
      ItemsBytes(f, items, k + 1);
    }
  }

  lemma FieldBytes(f: Field, c: Cell)
    requires WellFormedField(f) && TypedCell(f, c)
    ensures EncField(f, c) == Some(Wire(FieldRecords(f, c)))
    decreases f, 4
  {
    hide EncTagged, EncItems, EncEach, Encode, RecordBytes, TypedVal, IsZero, RecordOf, EachRecord, PackedBytes;
    match c
    case Rep(items) =>
      ItemsBytes(f, items, 0);
      EachBytes(f, items, 0);
      WireOne(Record(f.tag, Run(PackedBytes(f, items, 0))));
      PackedKey(f, PackedBytes(f, items, 0));
    case _ =>
      if Emits(f, c) {
        TaggedBytes(f, c.v);
        WireOne(RecordOf(f, c.v));
      }
  }

  lemma PackedKey(f: Field, body: seq<byte>)
    ensures RecordBytes(Record(f.tag, Run(body))) == EncTag(WT_STRING, f.tag) + Prefixed(body)
  {
  }

  /** What is encoded is the records of the message, in the order of the descriptor. */
  lemma {:induction false} MessageBytes(d: seq<Field>, m: seq<Cell>, i: nat)
    requires WellFormed(d) && TypedMsg(d, m) && i <= |d|
    ensures EncFrom(d, m, i) == Some(Wire(RecordsOf(d, m, i)))
    decreases d, 5, |d| - i
  {
    hide EncField, FieldRecords, TypedCell, WellFormedField, SlotOf;
    if i < |d| {
      FieldBytes(d[i], m[SlotOf(d, i)]);
      MessageBytes(d, m, i + 1);
      WireAppend(FieldRecords(d[i], m[SlotOf(d, i)]), RecordsOf(d, m, i + 1));
    }
  }

  // ---- whole messages

  lemma {:induction false} RecordFits(rs: seq<Record>, r: Record)
    requires r in rs
    ensures |PayloadBytes(r.payload)| <= |Wire(rs)|
  {
    hide PayloadBytes;
    if r != rs[0] { RecordFits(rs[1..], r); }
  }

  /** A record up to its length. */
  predicate Ranged(r: Record) {
    r.payload.Run? || Proper(r)
  }

  lemma RunRanged(r: Record)
    requires r.payload.Run?
    ensures Ranged(r)
  {
  }

  lemma ValRanged(f: Field, v: Val)
    requires WellFormedField(f) && TypedVal(f, v)
    ensures Ranged(RecordOf(f, v))
  {
    hide Wire, WellFormed, TypedMsg;
  }

  lemma {:induction false} EachRanged(f: Field, items: seq<Val>, k: nat)
    requires WellFormedField(f) && k <= |items| && forall j :: 0 <= j < |items| ==> TypedVal(f, items[j])
    ensures forall r :: r in EachRecord(f, items, k) ==> Ranged(r)
    decreases |items| - k
  {
    hide RecordOf, Ranged, TypedVal, WellFormedField;
    if k < |items| {
      ValRanged(f, items[k]);
      EachRanged(f, items, k + 1);
    }
  }

  lemma FieldRanged(f: Field, c: Cell)
    requires WellFormedField(f) && TypedCell(f, c)
    ensures forall r :: r in FieldRecords(f, c) ==> Ranged(r)
  {
    hide RecordOf, Ranged, TypedVal, WellFormedField, EachRecord, PackedBytes, IsZero;
    match c
    case Rep(items) =>
      EachRanged(f, items, 0);
      RunRanged(Record(f.tag, Run(PackedBytes(f, items, 0))));
    case _ => if Emits(f, c) { ValRanged(f, c.v); }
  }

  lemma {:induction false} MessageRanged(d: seq<Field>, m: seq<Cell>, i: nat)
    requires WellFormed(d) && TypedMsg(d, m) && i <= |d|
    ensures forall r :: r in RecordsOf(d, m, i) ==> Ranged(r)
    decreases |d| - i
  {
    hide FieldRecords, Ranged, TypedCell, WellFormedField, SlotOf;
    if i < |d| {
      FieldRanged(d[i], m[SlotOf(d, i)]);
      MessageRanged(d, m, i + 1);
    }
  }

  lemma RangedIsProper(r: Record)
    requires Ranged(r) && |PayloadBytes(r.payload)| < TWO_TO_64 && r.number <= PB_SIZE_MAX
    ensures Proper(r)
  {
  }

  /** Every typed message goes out as the records the guide asks for; read without any descriptor, its bytes give back
      the field numbers, wire types and payloads, in order. */
  lemma ReadsWithoutDescriptor(d: seq<Field>, m: seq<Cell>)
    requires WellFormed(d) && TypedMsg(d, m)
    ensures EncMsg(d, m) == Some(Wire(RecordsOf(d, m, 0)))
    ensures |Wire(RecordsOf(d, m, 0))| < TWO_TO_64 ==> Parse(EncMsg(d, m).value) == Some(RecordsOf(d, m, 0))
  {
    hide Parse, RecordsOf, EncFrom, WellFormed, TypedMsg, PayloadBytes, Ranged, Proper;
    var rs := RecordsOf(d, m, 0);
    MessageBytes(d, m, 0);
    if |Wire(rs)| < TWO_TO_64 {
      MessageRanged(d, m, 0);
      MessageTags(d, m, 0);
      forall r | r in rs ensures Proper(r) {
        RecordFits(rs, r);
        RangedIsProper(r);
      }
      WireParses(rs);
    }
  }

  lemma {:induction false} EachTag(f: Field, items: seq<Val>, k: nat)
    requires k <= |items|
    ensures forall r :: r in EachRecord(f, items, k) ==> r.number == f.tag
    decreases |items| - k
  {
    hide PayloadOf;
    if k < |items| { EachTag(f, items, k + 1); }
  }

  lemma FieldTag(f: Field, c: Cell)
    ensures forall r :: r in FieldRecords(f, c) ==> r.number == f.tag
  {
    hide PayloadOf, EachRecord, PackedBytes, IsZero;
    match c
    case Rep(items) => EachTag(f, items, 0);
    case _ =>
  }

  /** Each record carries the number of one of the descriptor's fields. */
  lemma {:induction false} MessageTags(d: seq<Field>, m: seq<Cell>, i: nat)
    requires i <= |d|
    ensures forall r :: r in RecordsOf(d, m, i) ==> exists j :: 0 <= j < |d| && d[j].tag == r.number
    decreases |d| - i
  {
    hide FieldRecords, SlotOf;
    if i < |d| && SlotOf(d, i) < |m| {
      FieldTag(d[i], m[SlotOf(d, i)]);
      MessageTags(d, m, i + 1);
    }
  }

  // ---- a reader with another schema

  /** A record that a reader with the descriptor d can pass over: 32 bits are enough, and d has no such field. */
  predicate Passable(d: seq<Field>, r: Record) {
    && 0 < r.number < TAG_LIMIT && Proper(r) && (r.payload.Run? ==> |r.payload.b| < TWO_TO_32)
    && Find(d, r.number).None?
  }

  lemma {:induction false} SkipsVarint(v: nat, rest: seq<byte>)
    ensures SkipVarint(Encode(v) + rest) == Some(rest)
  {
    if v < 128 {
      assert ([v] + rest)[1..] == rest;
    } else {
      assert (Encode(v) + rest)[1..] == Encode(v / 128) + rest;
      SkipsVarint(v / 128, rest);
    }
  }

  lemma SkipsPayload(p: Payload, rest: seq<byte>)
    requires Proper(Record(0, p)) && (p.Run? ==> |p.b| < TWO_TO_32)
    ensures Skip(TypeNo(p), PayloadBytes(p) + rest) == Some(rest)
  {
    hide Encode, Decode32, TakePrefixed, SkipVarint;
    match p
    case Number(v) => SkipsVarint(v, rest);
    case Run(b) => PrefixedRoundTrip(b, rest);
    case _ => assert (p.b + rest)[|p.b|..] == rest;
  }

  lemma RecordIsSkipped(d: seq<Field>, r: Record, rest: seq<byte>, m: seq<Cell>, seen: set<nat>)
    requires |m| == Slots(d, |d|) && Passable(d, r)
    ensures DecLoop(d, RecordBytes(r) + rest, m, seen) == DecLoop(d, rest, m, seen)
  {
    hide Encode, Decode32, Skip, Slots, PayloadBytes, Find;
    var key := 8 * r.number + TypeNo(r.payload);
    assert RecordBytes(r) + rest == Encode(key) + (PayloadBytes(r.payload) + rest);
    RoundTrip32(key, PayloadBytes(r.payload) + rest);
    SkipsPayload(r.payload, rest);
    assert key / 8 == r.number && key % 8 == TypeNo(r.payload);
  }

  lemma {:induction false} WireIsSkipped(d: seq<Field>, rs: seq<Record>, rest: seq<byte>, m: seq<Cell>, seen: set<nat>)
    requires |m| == Slots(d, |d|) && forall r :: r in rs ==> Passable(d, r)
    ensures DecLoop(d, Wire(rs) + rest, m, seen) == DecLoop(d, rest, m, seen)
    decreases |rs|
  {
    hide RecordBytes, Slots, Passable, DecLoop;
    if rs == [] {
      assert [] + rest == rest;
    } else {
      assert rs[0] in rs && forall r :: r in rs[1..] ==> r in rs;
      assert Wire(rs) + rest == RecordBytes(rs[0]) + (Wire(rs[1..]) + rest);
      RecordIsSkipped(d, rs[0], Wire(rs[1..]) + rest, m, seen);
      WireIsSkipped(d, rs[1..], rest, m, seen);
    }
  }

  lemma FieldIsWellFormed(d: seq<Field>, j: nat)
    requires WellFormed(d) && j < |d|
    ensures WellFormedField(d[j])
  {
  }

  /** A reader that knows none of the fields passes over a whole message to the byte, and its struct stays as it was. */
  lemma StrangerSkipsMessage(d: seq<Field>, m: seq<Cell>, reader: seq<Field>, n: seq<Cell>, rest: seq<byte>,
      seen: set<nat>)
    requires WellFormed(d) && TypedMsg(d, m) && |n| == Slots(reader, |reader|)
    requires forall i :: 0 <= i < |d| ==> Find(reader, d[i].tag).None?
    requires |Wire(RecordsOf(d, m, 0))| < TWO_TO_64
    requires forall r :: r in RecordsOf(d, m, 0) ==>
      r.number < TAG_LIMIT && (r.payload.Run? ==> |r.payload.b| < TWO_TO_32)
    ensures EncMsg(d, m).Some?
    ensures DecLoop(reader, EncMsg(d, m).value + rest, n, seen) == DecLoop(reader, rest, n, seen)
  {
    hide Parse, RecordsOf, EncFrom, WellFormed, TypedMsg, PayloadBytes, Ranged, Proper, DecLoop, Slots, Find;
    var rs := RecordsOf(d, m, 0);
    MessageBytes(d, m, 0);
    MessageRanged(d, m, 0);
    MessageTags(d, m, 0);
    forall r | r in rs ensures Passable(reader, r) {
      RecordFits(rs, r);
      var j: nat :| j < |d| && d[j].tag == r.number;
      assert WellFormedField(d[j]) by { FieldIsWellFormed(d, j); }
      TagNotZero(d[j]);
      RangedIsProper(r);
    }
    WireIsSkipped(reader, rs, rest, n, seen);
  }

  /** The wire types of groups and the two unused ones are refused, whatever follows. */
  lemma OtherTypesRefused(d: seq<Field>, b: seq<byte>, m: seq<Cell>)
    requires |m| == Slots(d, |d|) && Decode32(b).Some? && Decode32(b).value.0 != 0
    requires Find(d, Decode32(b).value.0 / 8).None?
    requires var wireType := Decode32(b).value.0 % 8; wireType != 0 && wireType != 1 && wireType != 2 && wireType != 5
    ensures DecMsg(d, b, m) == None
  {
    hide Decode32, Find, Slots, TakePrefixed, SkipVarint;
    NoTag(b);
    assert Skip(Decode32(b).value.0 % 8, Decode32(b).value.1) == None;
    assert DecLoop(d, b, m, {}) == None;
  }
}
