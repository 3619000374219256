/** Decoding what was encoded gives the message back, up to the fields that were not set. */
module PbRoundTrip {
  import opened Bytes
  import opened PbVarint
  import opened PbTypes
  import opened PbCodec
  import opened PbMerge

  // ---- the message a decoder ends up with

  predicate Emits(f: Field, c: Cell) {
    match c
    case Req(_) => true
    case Opt(has, _) => has
    case Sing(v) => !IsZero(f, v)
    case Rep(items) => items != []
    case One(which, _) => which == f.tag
  }

  function CanonVal(f: Field, v: Val): Val
    decreases f, 0
  {
    if f.ptr.Fields? && v.Msg? then Msg(CanonUpTo(f.ptr.fields, v.slots, |f.ptr.fields|)) else v
  }

  function CanonItems(f: Field, items: seq<Val>, n: nat): (r: seq<Val>)
    requires n <= |items|
    ensures |r| == n
    ensures forall k :: 0 <= k < n ==> r[k] == CanonVal(f, items[k])
    decreases f, 1, n
  {
    if n == 0 then [] else CanonItems(f, items, n - 1) + [CanonVal(f, items[n - 1])]
  }

  function CanonCell(f: Field, c: Cell): Cell
    decreases f, 2
  {
    match c
    case Req(v) => Req(CanonVal(f, v))
    case Opt(_, v) => Opt(true, CanonVal(f, v))
    case Sing(v) => Sing(CanonVal(f, v))
    case Rep(items) => Rep(CanonItems(f, items, |items|))
    case One(_, v) => One(f.tag, CanonVal(f, v))
  }

  /** Defaults, overwritten by those of the first n fields that are set. */
  function CanonUpTo(d: seq<Field>, m: seq<Cell>, n: nat): (r: seq<Cell>)
    requires n <= |d|
    ensures |r| == Slots(d, |d|)
    decreases d, 3, n
  {
    if n == 0 then Defaults(d)
    else
      var prefix := CanonUpTo(d, m, n - 1);
      var s := SlotOf(d, n - 1);
      if s < |m| && Emits(d[n - 1], m[s]) then prefix[s := CanonCell(d[n - 1], m[s])] else prefix
  }

  function Canon(d: seq<Field>, m: seq<Cell>): (r: seq<Cell>)
    ensures |r| == Slots(d, |d|)
  {
    CanonUpTo(d, m, |d|)
  }

  // ---- tags that fit

  /** Tags of 2^29 and more take over 32 bits on the wire, together with the wire type. */
  const TAG_LIMIT: nat := 0x2000_0000

  /** Nothing below this value is written under such a tag. */
  ghost predicate LegibleVal(f: Field, v: Val)
    decreases f, 1
  {
    f.ltype == Submessage && f.ptr.Fields? && v.Msg? ==> Legible(f.ptr.fields, v.slots)
  }

  ghost predicate LegibleTagged(f: Field, v: Val)
    decreases f, 2
  {
    f.tag < TAG_LIMIT && LegibleVal(f, v)
  }

  ghost predicate LegibleItems(f: Field, items: seq<Val>, k: nat)
    requires k <= |items|
    decreases f, 3
  {
    forall j :: k <= j < |items| ==> LegibleTagged(f, items[j])
  }

  ghost predicate LegibleCell(f: Field, c: Cell)
    decreases f, 4
  {
    Emits(f, c) ==>
      match c
      case Rep(items) => LegibleItems(f, items, 0)
      case _ => LegibleTagged(f, c.v)
  }

  /** No field that is set, here or in a submessage that is set, has such a tag. */
  ghost predicate Legible(d: seq<Field>, m: seq<Cell>)
    decreases d, 0, 1
  {
    LegibleFrom(d, m, 0)
  }

  ghost predicate LegibleFrom(d: seq<Field>, m: seq<Cell>, n: nat)
    decreases d, 0, 0
  {
    forall i :: n <= i < |d| && SlotOf(d, i) < |m| ==> LegibleCell(d[i], m[SlotOf(d, i)])
  }

  // ---- lengths that fit

  predicate ShortRun(e: Option<seq<byte>>) {
    e.Some? ==> |e.value| < TWO_TO_32
  }

  /** Every length that is written below this value has 32 bits. */
  ghost predicate FitsVal(f: Field, v: Val)
    decreases f, 1
  {
    f.ltype == Submessage && f.ptr.Fields? && v.Msg? ==>
      ShortRun(EncFrom(f.ptr.fields, v.slots, 0)) && Fits(f.ptr.fields, v.slots)
  }

  ghost predicate FitsItems(f: Field, items: seq<Val>, k: nat)
    requires k <= |items|
    decreases f, 3
  {
    forall j :: k <= j < |items| ==> FitsVal(f, items[j])
  }

  ghost predicate FitsCell(f: Field, c: Cell)
    decreases f, 4
  {
    Emits(f, c) ==>
      match c
      case Rep(items) => if Packable(f.ltype) then ShortRun(EncItems(f, items, 0)) else FitsItems(f, items, 0)
      case _ => FitsVal(f, c.v)
  }

  /** Each submessage and each packed array that is set takes less than 4 GiB; the whole message need not. */
  ghost predicate Fits(d: seq<Field>, m: seq<Cell>)
    decreases d, 0, 1
  {
    FitsFrom(d, m, 0)
  }

  ghost predicate FitsFrom(d: seq<Field>, m: seq<Cell>, n: nat)
    decreases d, 0, 0
  {
    forall i :: n <= i < |d| && SlotOf(d, i) < |m| ==> FitsCell(d[i], m[SlotOf(d, i)])
  }

  // ---- descriptors of the protobuf language

  /** Descriptors within the protobuf language, whose field numbers stay below the limit. */
  ghost predicate SmallTags(d: seq<Field>)
    decreases d, 1
  {
    forall i :: 0 <= i < |d| ==> SmallTag(d[i])
  }

  ghost predicate SmallTag(f: Field)
    decreases f, 0
  {
    f.tag < TAG_LIMIT && (f.ptr.Fields? ==> SmallTags(f.ptr.fields))
  }

  lemma SmallTagsLegible(d: seq<Field>, m: seq<Cell>)
    requires SmallTags(d)
    ensures Legible(d, m)
    decreases d, 1
  {
    hide SlotOf, Emits, LegibleTagged, SmallTag;
    forall i | 0 <= i < |d| && SlotOf(d, i) < |m| ensures LegibleCell(d[i], m[SlotOf(d, i)]) {
      match m[SlotOf(d, i)]
      case Rep(items) =>
        forall k | 0 <= k < |items| ensures LegibleTagged(d[i], items[k]) { SmallTagLegible(d[i], items[k]); }
      case c => SmallTagLegible(d[i], c.v);
    }
  }

  lemma SmallTagLegible(f: Field, v: Val)
    requires SmallTag(f)
    ensures LegibleTagged(f, v)
    decreases f, 0
  {
    hide Legible, SmallTags;
    if f.ptr.Fields? && v.Msg? { SmallTagsLegible(f.ptr.fields, v.slots); }
  }

  lemma PackedLegible(f: Field, items: seq<Val>)
    requires Packable(f.ltype) && items != []
    ensures LegibleItems(f, items, 0) <==> f.tag < TAG_LIMIT
  {
    hide Legible;
    assert forall j :: 0 <= j < |items| ==> (LegibleTagged(f, items[j]) <==> f.tag < TAG_LIMIT);
    assert LegibleItems(f, items, 0) ==> LegibleTagged(f, items[0]);
  }

  // ---- scalars

  lemma {:induction false} LittleEndianRoundTrip(v: nat, n: nat)
    requires v < Shl(1, 8 * n)
    ensures FromLittleEndian(LittleEndian(v, n)) == v
  {
    if n > 0 {
      Shl8(8 * (n - 1));
      LittleEndianRoundTrip(v / 256, n - 1);
    }
  }

  lemma Shl8(p: nat)
    ensures Shl(1, p + 8) == 256 * Shl(1, p)
  {
    Shl7(1, p);
  }

  lemma FixedRoundTrip(v: nat, n: nat, rest: seq<byte>)
    requires v < Shl(1, 8 * n)
    ensures DecFixed(LittleEndian(v, n) + rest, n) == Some((Int(v), rest))
  {
    LittleEndianRoundTrip(v, n);
    var b := LittleEndian(v, n);
    assert (b + rest)[..n] == b && (b + rest)[n..] == rest;
  }

  lemma PrefixedRoundTrip(b: seq<byte>, rest: seq<byte>)
    requires |b| < TWO_TO_32
    ensures Decode32(Prefixed(b) + rest) == Some((|b|, b + rest))
    ensures Take(b + rest, |b|) == Some((b, rest))
    ensures TakePrefixed(Prefixed(b) + rest) == Some((b, rest))
  {
    hide Encode, Decode32;
    assert Prefixed(b) + rest == Encode(|b|) + (b + rest);
    RoundTrip32(|b|, b + rest);
    assert (b + rest)[..|b|] == b && (b + rest)[|b|..] == rest;
  }

  /** A length of 2^32 or more is refused. */
  lemma PrefixedRefused(b: seq<byte>, rest: seq<byte>)
    requires TWO_TO_32 <= |b| < TWO_TO_63
    ensures Decode32(Prefixed(b) + rest) == None && TakePrefixed(Prefixed(b) + rest) == None
  {
    hide Encode, Decode32;
    assert Prefixed(b) + rest == Encode(|b|) + (b + rest);
    WideRefused32(|b|, b + rest);
  }

  lemma SignedRoundTrip(f: Field, i: int)
    requires IntSize(f.dataSize) && -(SignedMax(f.dataSize) as int) <= i < SignedMax(f.dataSize)
    ensures 0 <= Unsigned64(i) < TWO_TO_64
    ensures (if f.dataSize == 8 then Signed64(Unsigned64(i)) else Signed32(Unsigned64(i))) == i
    ensures FitsSigned(f.dataSize, i) && IsInt64(i)
  {
    if f.dataSize != 8 && i < 0 { Low32(i); }
  }

  lemma Low32(i: int)
    requires -(TWO_TO_31 as int) <= i < 0
    ensures (i + TWO_TO_64) % TWO_TO_32 == i + TWO_TO_32
  {
  }

  lemma {:induction false} NoNul(s: seq<byte>)
    requires 0 !in s
    ensures CLength(s) == |s|
  {
    if s != [] {
      assert forall x :: x in s[1..] ==> x in s;
      NoNul(s[1..]);
    }
  }

  lemma IntRoundTrip(f: Field, v: Val, rest: seq<byte>)
    requires WellFormedField(f) && TypedVal(f, v) && (f.ltype.Varint? || f.ltype.Uvarint? || f.ltype.Svarint?)
    ensures EncScalar(f, v).Some?
    ensures DecScalar(f, EncScalar(f, v).value + rest) == Some((v, rest))
  {
    hide Encode, Decode64, WellFormed, TypedMsg;
    match f.ltype
    case Varint =>
      SignedRoundTrip(f, v.i);
      RoundTrip64(Unsigned64(v.i), rest);
    case Uvarint =>
      RoundTrip64(v.i, rest);
    case Svarint =>
      SignedRoundTrip(f, v.i);
      ZigZagRoundTrip(v.i);
      RoundTrip64(ZigZag(v.i), rest);
  }

  lemma Pow64Bits()
    ensures Shl(1, 8 * 4) == TWO_TO_32 && Shl(1, 8 * 8) == TWO_TO_64
  {
    hide Shl;
    Pow35();
    Pow64();
  }

  lemma ScalarRoundTrip(f: Field, v: Val, rest: seq<byte>)
    requires WellFormedField(f) && TypedVal(f, v) && f.ltype != Submessage
    ensures EncScalar(f, v).Some?
    ensures DecScalar(f, EncScalar(f, v).value + rest) == Some((v, rest))
  {
    hide Encode, Decode64, Decode32, WellFormed, TypedMsg, Prefixed, Take, LittleEndian, FromLittleEndian, DecFixed;
    match f.ltype
    case Varint => IntRoundTrip(f, v, rest);
    case Uvarint => IntRoundTrip(f, v, rest);
    case Svarint => IntRoundTrip(f, v, rest);
    case Fixed32 => Pow64Bits(); InWord(v.i, TWO_TO_32); FixedRoundTrip(v.i, 4, rest);
    case Fixed64 => Pow64Bits(); InWord(v.i, TWO_TO_64); FixedRoundTrip(v.i, 8, rest);
    case Blob => PrefixedRoundTrip(v.b, rest);
    case Text =>
      NoNul(v.s);
      assert v.s[..|v.s|] == v.s;
      PrefixedRoundTrip(v.s, rest);
    case FixedBytes =>
      PrefixedRoundTrip(v.b, rest);
      if v.b == [] { assert v.b == seq(f.dataSize, _ => 0) && v.b + rest == rest; }
  }

  // ---- encoding a well-typed message succeeds

  lemma TotalVal(f: Field, v: Val)
    requires WellFormedField(f) && TypedVal(f, v)
    ensures EncVal(f, v).Some?
    decreases f, 1
  {
    hide EncScalar, Slots;
    if f.ltype != Submessage {
      ScalarRoundTrip(f, v, []);
    } else {
      TotalFrom(f.ptr.fields, v.slots, 0);
    }
  }

  lemma {:induction false} TotalItems(f: Field, items: seq<Val>, k: nat)
    requires WellFormedField(f) && k <= |items| && forall j :: 0 <= j < |items| ==> TypedVal(f, items[j])
    ensures EncItems(f, items, k).Some? && EncEach(f, items, k).Some?
    decreases f, 2, |items| - k
  {
    hide TypedVal, EncVal;
    if k < |items| {
      TotalVal(f, items[k]);
      TotalItems(f, items, k + 1);
    }
  }

  lemma TotalField(f: Field, c: Cell)
    requires WellFormedField(f) && TypedCell(f, c)
    ensures EncField(f, c).Some?
    decreases f, 3
  {
    hide TypedVal, EncVal, EncItems, EncEach, IsZero;
    match (f.htype, c)
    case (Required, Req(v)) => TotalVal(f, v);
    case (Optional, Opt(has, v)) => if has { TotalVal(f, v); }
    case (Optional, Sing(v)) => TotalVal(f, v);
    case (Repeated, Rep(items)) => TotalItems(f, items, 0);
    case (Oneof, One(which, v)) => if which == f.tag { TotalVal(f, v); }
  }

  lemma {:induction false} TotalFrom(d: seq<Field>, m: seq<Cell>, i: nat)
    requires WellFormed(d) && TypedMsg(d, m) && i <= |d|
    ensures EncFrom(d, m, i).Some?
    decreases d, 4, |d| - i
  {
    hide EncField, TypedCell, WellFormedField, SlotOf;
    if i < |d| {
      TotalField(d[i], m[SlotOf(d, i)]);
      TotalFrom(d, m, i + 1);
    }
  }

  // ---- the slot of a field that has not been decoded yet

  /** A field's slot stays at its default until its first emitting member is reached. */
  lemma {:induction false} Untouched(d: seq<Field>, m: seq<Cell>, n: nat, i: nat)
    requires n <= i < |d|
    ensures d[i].htype != Oneof ==> CanonUpTo(d, m, n)[SlotOf(d, i)] == DefaultCell(d[i])
    decreases n
  {
    hide CanonCell, Emits, DefaultCell, Shares, Slots;
    if n == 0 {
      DefaultsAt(d, |d|, i);
    } else {
      Untouched(d, m, n - 1, i);
      if SlotOf(d, n - 1) == SlotOf(d, i) { SameSlot(d, n - 1, i); }
    }
  }

  lemma {:induction false} OneofSlot(d: seq<Field>, m: seq<Cell>, n: nat, i: nat)
    requires n <= i < |d| && d[i].htype == Oneof && TypedMsg(d, m)
    ensures CanonUpTo(d, m, n)[SlotOf(d, i)].One?
    decreases n
  {
    hide Shares, Slots, TypedVal, SlotOf;
    if n == 0 {
      DefaultsAt(d, |d|, i);
    } else {
      OneofSlot(d, m, n - 1, i);
      assert TypedCell(d[i], m[SlotOf(d, i)]);
      assert TypedCell(d[n - 1], m[SlotOf(d, n - 1)]);
    }
  }

  // ---- values

  lemma ValRoundTrip(f: Field, v: Val, rest: seq<byte>, prev: Val)
    requires WellFormedField(f) && TypedVal(f, v) && EncVal(f, v).Some? && |EncVal(f, v).value| < TWO_TO_63
    requires f.ltype == Submessage && f.htype != Repeated ==> prev == Msg(Defaults(f.ptr.fields))
    ensures DecVal(f, EncVal(f, v).value + rest, prev)
         == if LegibleVal(f, v) && FitsVal(f, v) then Some((CanonVal(f, v), rest)) else None
    decreases f, 1
  {
    hide EncScalar, DecScalar, TakePrefixed, DecMsg, Encode, CanonUpTo, Slots, Defaults, Legible, Fits;
    if f.ltype != Submessage {
      ScalarRoundTrip(f, v, rest);
      NotMsg(f, v);
    } else {
      var d := f.ptr.fields;
      var body := EncFrom(d, v.slots, 0).value;
      BodyShorter(body);
      MsgRoundTrip(d, v.slots, body);
      if |body| < TWO_TO_32 { PrefixedRoundTrip(body, rest); } else { PrefixedRefused(body, rest); }
    }
  }

  lemma NotMsg(f: Field, v: Val)
    requires f.ltype != Submessage && TypedVal(f, v)
    ensures CanonVal(f, v) == v
  {
  }

  /** A packed run is appended to the items that are there, or fails where the array has no room for it. */
  lemma {:induction false} PackedRoundTrip(f: Field, items: seq<Val>, k: nat, before: seq<Val>)
    requires WellFormedField(f) && Packable(f.ltype) && k <= |items| && |before| <= f.arraySize
    requires forall j :: 0 <= j < |items| ==> TypedVal(f, items[j])
    requires EncItems(f, items, k).Some?
    ensures DecPacked(f, EncItems(f, items, k).value, before)
         == if |before| + |items| - k <= f.arraySize then Some(before + items[k..]) else None
    decreases |items| - k
  {
    hide EncScalar, DecScalar, TypedVal, WellFormedField;
    if k == |items| {
      assert before + items[k..] == before;
    } else {
      var tail := EncItems(f, items, k + 1).value;
      ScalarRoundTrip(f, items[k], tail);
      var b := EncItems(f, items, k).value;
      assert b == EncScalar(f, items[k]).value + tail;
      assert DecScalar(f, b) == Some((items[k], tail)) && b != [];
      if |before| < f.arraySize {
        PackedRoundTrip(f, items, k + 1, before + [items[k]]);
        assert before + [items[k]] + items[k + 1..] == before + items[k..];
      }
    }
  }

  lemma CanonScalars(f: Field, items: seq<Val>)
    requires Packable(f.ltype) && forall j :: 0 <= j < |items| ==> TypedVal(f, items[j])
    ensures CanonItems(f, items, |items|) == items
  {
    forall j | 0 <= j < |items| ensures CanonVal(f, items[j]) == items[j] { NotMsg(f, items[j]); }
  }

  // ---- fields

  /** The loop at a field the descriptor has, up to its value. A tag over the limit does not get that far. */
  lemma AtField(d: seq<Field>, i: nat, wt: nat, b: seq<byte>, m: seq<Cell>, seen: set<nat>)
    requires WellFormed(d) && i < |d| && |m| == Slots(d, |d|) && wt < 8
    ensures DecLoop(d, EncTag(wt, d[i].tag) + b, m, seen) ==
      if d[i].tag >= TAG_LIMIT then None
      else
        match DecField(d[i], wt, b, m[SlotOf(d, i)])
        case None => None
        case Some((c, rest)) => DecLoop(d, rest, m[SlotOf(d, i) := c], seen + SeenBit(d, i))
  {
    hide Encode, DecField, Decode32, SlotOf, Slots, SeenBit, Find, WellFormedField, Skip;
    var t := 8 * d[i].tag + wt;
    assert WellFormedField(d[i]);
    TagNotZero(d[i]);
    assert EncTag(wt, d[i].tag) + b != [];
    if d[i].tag >= TAG_LIMIT {
      WideRefused32(t, b);
    } else {
      RoundTrip32(t, b);
      FindsIt(d, i);
      assert t / 8 == d[i].tag && t % 8 == wt;
    }
  }

  lemma TagNotZero(f: Field)
    requires WellFormedField(f)
    ensures f.tag > 0
  {
  }

  lemma FindsIt(d: seq<Field>, i: nat)
    requires WellFormed(d) && i < |d|
    ensures Find(d, d[i].tag) == Some(i)
  {
    hide WellFormedField, Shares;
  }

  lemma SingleRoundTrip(d: seq<Field>, i: nat, v: Val, rest: seq<byte>, m: seq<Cell>, seen: set<nat>, c: Cell)
    requires WellFormed(d) && i < |d| && |m| == Slots(d, |d|) && TypedVal(d[i], v)
    requires EncTagged(d[i], v).Some? && |EncTagged(d[i], v).value| < TWO_TO_63
    requires d[i].htype == Oneof || m[SlotOf(d, i)] == DefaultCell(d[i])
    requires match d[i].htype
      case Required => c == Req(v)
      case Optional => c == if d[i].hasSize then Opt(true, v) else Sing(v)
      case Oneof => c == One(d[i].tag, v) && m[SlotOf(d, i)].One?
      case Repeated => false
    ensures DecLoop(d, EncTagged(d[i], v).value + rest, m, seen)
         == if LegibleTagged(d[i], v) && FitsVal(d[i], v)
            then DecLoop(d, rest, m[SlotOf(d, i) := CanonCell(d[i], c)], seen + SeenBit(d, i))
            else None
    decreases d[i], 2
  {
    hide EncVal, DecVal, DecLoop, SlotOf, Slots, SeenBit, CanonVal, EncTag, TypedVal, DefaultsUpTo, LegibleVal,
      FitsVal;
    var f := d[i];
    var body := EncVal(f, v).value;
    var prev := if f.htype == Oneof && f.ltype != Submessage then m[SlotOf(d, i)].v else DefaultVal(f);
    assert WellFormedField(f);
    ValRoundTrip(f, v, rest, prev);
    assert EncTagged(f, v).value + rest == EncTag(WireType(f.ltype), f.tag) + (body + rest);
    AtField(d, i, WireType(f.ltype), body + rest, m, seen);
  }

  lemma {:induction false} EachRoundTrip(d: seq<Field>, i: nat, items: seq<Val>, k: nat, rest: seq<byte>,
                                         m: seq<Cell>, seen: set<nat>)
    requires WellFormed(d) && i < |d| && |m| == Slots(d, |d|) && k <= |items| <= d[i].arraySize
    requires d[i].htype == Repeated && !Packable(d[i].ltype)
    requires forall j :: 0 <= j < |items| ==> TypedVal(d[i], items[j])
    requires EncEach(d[i], items, k).Some? && |EncEach(d[i], items, k).value| < TWO_TO_63
    requires m[SlotOf(d, i)] == Rep(CanonItems(d[i], items, k))
    ensures DecLoop(d, EncEach(d[i], items, k).value + rest, m, seen)
         == if LegibleItems(d[i], items, k) && FitsItems(d[i], items, k)
            then DecLoop(d, rest, m[SlotOf(d, i) := Rep(CanonItems(d[i], items, |items|))], seen)
            else None
    decreases d[i], 3, |items| - k
  {
    hide EncVal, DecVal, DecLoop, SlotOf, Slots, CanonVal, EncTag, TypedVal, LegibleVal, FitsVal;
    var f, s := d[i], SlotOf(d, i);
    if k == |items| {
      assert [] + rest == rest && m[s := Rep(CanonItems(f, items, k))] == m;
    } else {
      var body, more := EncVal(f, items[k]).value, EncEach(f, items, k + 1).value;
      var tag := EncTag(WireType(f.ltype), f.tag);
      assert WellFormedField(f);
      assert EncEach(f, items, k).value == (tag + body) + more;
      ValRoundTrip(f, items[k], more + rest, Int(0));
      assert ((tag + body) + more) + rest == tag + (body + (more + rest));
      AtField(d, i, WireType(f.ltype), body + (more + rest), m, seen);
      assert SeenBit(d, i) == {} && seen + {} == seen;
      var m' := m[s := Rep(CanonItems(f, items, k + 1))];
      EachRoundTrip(d, i, items, k + 1, rest, m', seen);
      assert m'[s := Rep(CanonItems(f, items, |items|))] == m[s := Rep(CanonItems(f, items, |items|))];
    }
  }

  lemma ArrayRoundTrip(d: seq<Field>, i: nat, items: seq<Val>, rest: seq<byte>, m: seq<Cell>, seen: set<nat>)
    requires WellFormed(d) && i < |d| && |m| == Slots(d, |d|) && d[i].htype == Repeated
    requires TypedCell(d[i], Rep(items))
    requires EncArray(d[i], items).Some? && |EncArray(d[i], items).value| < TWO_TO_63
    requires m[SlotOf(d, i)] == Rep([])
    ensures DecLoop(d, EncArray(d[i], items).value + rest, m, seen)
         == if items == [] then DecLoop(d, rest, m, seen)
            else if LegibleItems(d[i], items, 0) && FitsCell(d[i], Rep(items))
            then DecLoop(d, rest, m[SlotOf(d, i) := CanonCell(d[i], Rep(items))], seen)
            else None
    decreases d[i], 4
  {
    hide EncItems, EncEach, DecVal, DecLoop, SlotOf, Slots, CanonVal, CanonItems, EncTag, TypedVal, DecPacked, Prefixed,
      TakePrefixed, Encode, LegibleTagged, FitsVal, ShortRun;
    var f := d[i];
    assert SeenBit(d, i) == {} && seen + {} == seen;
    if items == [] {
      assert [] + rest == rest;
    } else if Packable(f.ltype) {
      PackedArrayRoundTrip(d, i, items, rest, m, seen);
    } else {
      CanonNone(f, items);
      EachRoundTrip(d, i, items, 0, rest, m, seen);
    }
  }

  lemma PackedArrayRoundTrip(d: seq<Field>, i: nat, items: seq<Val>, rest: seq<byte>, m: seq<Cell>, seen: set<nat>)
    requires WellFormed(d) && i < |d| && |m| == Slots(d, |d|) && d[i].htype == Repeated
    requires TypedCell(d[i], Rep(items)) && items != [] && Packable(d[i].ltype)
    requires EncArray(d[i], items).Some? && |EncArray(d[i], items).value| < TWO_TO_63
    requires m[SlotOf(d, i)] == Rep([])
    ensures DecLoop(d, EncArray(d[i], items).value + rest, m, seen)
         == if LegibleItems(d[i], items, 0) && ShortRun(EncItems(d[i], items, 0))
            then DecLoop(d, rest, m[SlotOf(d, i) := CanonCell(d[i], Rep(items))], seen)
            else None
    decreases d[i], 3
  {
    hide EncItems, EncEach, DecVal, DecLoop, SlotOf, Slots, CanonVal, CanonItems, EncTag, TypedVal, DecPacked, Prefixed,
      TakePrefixed, Encode, LegibleItems;
    PackedLegible(d[i], items);
    var f := d[i];
    assert SeenBit(d, i) == {} && seen + {} == seen;
    var body := EncItems(f, items, 0).value;
    assert WellFormedField(f);
    BodyShorter(body);
    PackedRoundTrip(f, items, 0, []);
    assert [] + items[0..] == items;
    if |body| < TWO_TO_32 { PrefixedRoundTrip(body, rest); } else { PrefixedRefused(body, rest); }
    CanonScalars(f, items);
    assert EncArray(f, items).value + rest == EncTag(WT_STRING, f.tag) + (Prefixed(body) + rest);
    AtField(d, i, WT_STRING, Prefixed(body) + rest, m, seen);
  }

  lemma BodyShorter(body: seq<byte>)
    ensures |body| <= |Prefixed(body)|
  {
  }

  lemma CanonNone(f: Field, items: seq<Val>)
    ensures CanonItems(f, items, 0) == []
  {
  }

  lemma FieldRoundTrip(d: seq<Field>, m: seq<Cell>, i: nat, rest: seq<byte>, seen: set<nat>)
    requires WellFormed(d) && TypedMsg(d, m) && i < |d|
    requires var e := EncField(d[i], m[SlotOf(d, i)]); e.Some? && |e.value| < TWO_TO_63
    ensures DecLoop(d, EncField(d[i], m[SlotOf(d, i)]).value + rest, CanonUpTo(d, m, i), seen)
         == if LegibleCell(d[i], m[SlotOf(d, i)]) && FitsCell(d[i], m[SlotOf(d, i)])
            then DecLoop(d, rest, CanonUpTo(d, m, i + 1), seen + SeenBit(d, i))
            else None
    decreases d[i], 5
  {
    hide EncTagged, EncArray, DecLoop, SlotOf, Slots, TypedVal, CanonCell, IsZero, WellFormed, Shares, LegibleTagged,
      LegibleItems, FitsVal, ShortRun, FitsItems;
    var f, c, cur := d[i], m[SlotOf(d, i)], CanonUpTo(d, m, i);
    assert TypedCell(f, c);
    Untouched(d, m, i, i);
    var e := EncField(f, c).value;
    if !Emits(f, c) {
      assert [] + rest == rest && seen + {} == seen;
    }
    match f.htype
    case Required => SingleRoundTrip(d, i, c.v, rest, cur, seen, c);
    case Optional => if Emits(f, c) { SingleRoundTrip(d, i, c.v, rest, cur, seen, c); }
    case Repeated =>
      ArrayRoundTrip(d, i, c.items, rest, cur, seen);
      assert seen + {} == seen;
    case Oneof =>
      if Emits(f, c) {
        OneofSlot(d, m, i, i);
        SingleRoundTrip(d, i, c.v, rest, cur, seen, c);
      }
  }

  lemma {:induction false} FromRoundTrip(d: seq<Field>, m: seq<Cell>, i: nat, seen: set<nat>)
    requires WellFormed(d) && TypedMsg(d, m) && i <= |d|
    requires EncFrom(d, m, i).Some? && |EncFrom(d, m, i).value| < TWO_TO_63
    requires forall j :: 0 <= j < i ==> SeenBit(d, j) <= seen
    ensures var r := DecLoop(d, EncFrom(d, m, i).value, CanonUpTo(d, m, i), seen);
      if LegibleFrom(d, m, i) && FitsFrom(d, m, i) then
        && r.Some? && r.value.m == Canon(d, m) && r.value.rest == []
        && forall j :: 0 <= j < |d| ==> SeenBit(d, j) <= r.value.seen
      else r == None
    decreases d, 6, |d| - i
  {
    hide EncField, DecLoop, SlotOf, Slots, TypedVal, CanonUpTo, WellFormed, SeenBit, LegibleCell, FitsCell;
    if i == |d| {
      EmptyLoop(d, CanonUpTo(d, m, i), seen);
    } else {
      var rest := EncFrom(d, m, i + 1).value;
      FieldRoundTrip(d, m, i, rest, seen);
      FromRoundTrip(d, m, i + 1, seen + SeenBit(d, i));
    }
  }

  lemma AllBitsSeen(d: seq<Field>, seen: set<nat>)
    requires forall j :: 0 <= j < |d| ==> SeenBit(d, j) <= seen
    ensures AllSeen(d, seen)
  {
    forall k | 0 <= k < Min(ReqCount(d, |d|), PB_MAX_REQUIRED_FIELDS) ensures k in seen {
      var j := NthRequired(d, |d|, k);
      assert k in SeenBit(d, j);
    }
  }

  lemma MsgRoundTrip(d: seq<Field>, m: seq<Cell>, b: seq<byte>)
    requires WellFormed(d) && TypedMsg(d, m) && EncFrom(d, m, 0) == Some(b) && |b| < TWO_TO_63
    ensures DecMsg(d, b, Defaults(d)) == if Legible(d, m) && Fits(d, m) then Some((Canon(d, m), [])) else None
    decreases d, 7
  {
    hide DecLoop, SlotOf, Slots, TypedVal, WellFormed, SeenBit, AllSeen, EncFrom, TypedMsg, LegibleFrom, FitsFrom;
    FromRoundTrip(d, m, 0, {});
    if Legible(d, m) && Fits(d, m) { AllBitsSeen(d, DecLoop(d, b, Defaults(d), {}).value.seen); }
  }

  // ---- the message that comes back agrees with the one sent

  /** Equal as far as a reader who honours `has_`, `_count` and `which_` can tell. */
  ghost predicate AgreesVal(f: Field, v: Val, w: Val)
    decreases f, 1
  {
    if f.ltype != Submessage then v == w
    else f.ptr.Fields? && v.Msg? && w.Msg? && Agrees(f.ptr.fields, v.slots, w.slots)
  }

  ghost predicate AgreesCell(f: Field, c: Cell, e: Cell)
    decreases f, 2
  {
    match f.htype
    case Required => c.Req? && e.Req? && AgreesVal(f, c.v, e.v)
    case Optional =>
      if f.hasSize then c.Opt? && e.Opt? && c.has == e.has && (c.has ==> AgreesVal(f, c.v, e.v))
      else c.Sing? && e.Sing? && AgreesVal(f, c.v, e.v)
    case Repeated =>
      && c.Rep? && e.Rep? && |c.items| == |e.items|
      && forall k :: 0 <= k < |c.items| ==> AgreesVal(f, c.items[k], e.items[k])
    case Oneof =>
      c.One? && e.One? && (c.which == f.tag <==> e.which == f.tag) && (c.which == f.tag ==> AgreesVal(f, c.v, e.v))
  }

  ghost predicate Agrees(d: seq<Field>, m: seq<Cell>, n: seq<Cell>)
    decreases d, 0
  {
    && |m| == |n| == Slots(d, |d|)
    && forall i :: 0 <= i < |d| ==> AgreesCell(d[i], m[SlotOf(d, i)], n[SlotOf(d, i)])
  }

  lemma CanonValAgrees(f: Field, v: Val)
    requires WellFormedField(f) && TypedVal(f, v)
    ensures AgreesVal(f, v, CanonVal(f, v))
    decreases f, 1
  {
    hide Slots, Agrees, CanonUpTo;
    if f.ltype == Submessage {
      CanonAgrees(f.ptr.fields, v.slots);
    } else {
      NotMsg(f, v);
    }
  }

  /** What the encoder leaves out as a proto3 default agrees with the default it will decode to. */
  lemma ZeroAgrees(f: Field, v: Val)
    requires WellFormedField(f) && TypedVal(f, v) && IsZero(f, v) && (f.htype == Optional && !f.hasSize)
    ensures AgreesVal(f, v, DefaultVal(f))
    decreases f, 1
  {
    hide Slots, TypedMsg, AllDefault, Agrees, DefaultsUpTo;
    if f.ltype == Submessage {
      DefaultsAgree(f.ptr.fields, v.slots);
    }
  }

  lemma ZeroCellAgrees(f: Field, c: Cell)
    requires WellFormedField(f) && TypedCell(f, c) && IsDefault(f, c)
    ensures AgreesCell(f, c, DefaultCell(f))
    decreases f, 2
  {
    hide AgreesVal, IsZero, TypedVal, DefaultVal;
    if f.htype == Optional && !f.hasSize {
      ZeroAgrees(f, c.v);
    }
  }

  lemma {:induction false} AllDefaultAt(d: seq<Field>, m: seq<Cell>, i: nat, j: nat)
    requires i <= j < |d| && AllDefault(d, m, i)
    ensures SlotOf(d, j) < |m| && IsDefault(d[j], m[SlotOf(d, j)])
    decreases j - i
  {
    hide IsDefault, SlotOf;
    if i < j { AllDefaultAt(d, m, i + 1, j); }
  }

  lemma DefaultsAgree(d: seq<Field>, m: seq<Cell>)
    requires WellFormed(d) && TypedMsg(d, m) && AllDefault(d, m, 0)
    ensures Agrees(d, m, Defaults(d))
    decreases d, 3
  {
    hide Slots, SlotOf, TypedCell, IsDefault, AgreesCell, DefaultCell, WellFormedField, DefaultsUpTo, AllDefault;
    forall i | 0 <= i < |d| ensures AgreesCell(d[i], m[SlotOf(d, i)], Defaults(d)[SlotOf(d, i)]) {
      AllDefaultAt(d, m, 0, i);
      DefaultsAt(d, |d|, i);
      ZeroCellAgrees(d[i], m[SlotOf(d, i)]);
    }
  }

  /** The slot of field i once field i has been passed. */
  lemma {:induction false} SettledAt(d: seq<Field>, m: seq<Cell>, n: nat, i: nat)
    requires WellFormed(d) && TypedMsg(d, m) && i < n <= |d|
    ensures var c, e := m[SlotOf(d, i)], CanonUpTo(d, m, n)[SlotOf(d, i)];
      if Emits(d[i], c) then e == CanonCell(d[i], c)
      else if d[i].htype == Oneof then e.One? && e.which != d[i].tag
      else e == DefaultCell(d[i])
    decreases n
  {
    hide CanonCell, Emits, DefaultCell, Shares, Slots, TypedCell, SlotOf, WellFormed;
    var s := SlotOf(d, i);
    if i == n - 1 {
      Untouched(d, m, i, i);
      if d[i].htype == Oneof && !Emits(d[i], m[s]) { OneofUnset(d, m, i, i); }
    } else {
      SettledAt(d, m, n - 1, i);
      if SlotOf(d, n - 1) == s { Rival(d, m, i, n - 1); }
    }
  }

  /** A oneof of which no member up to i is selected does not come out as member i. */
  lemma {:induction false} OneofUnset(d: seq<Field>, m: seq<Cell>, n: nat, i: nat)
    requires WellFormed(d) && TypedMsg(d, m) && n <= i < |d| && d[i].htype == Oneof && !Emits(d[i], m[SlotOf(d, i)])
    ensures var e := CanonUpTo(d, m, n)[SlotOf(d, i)]; e.One? && e.which != d[i].tag
    decreases n
  {
    hide Shares, Slots, TypedMsg, SlotOf, WellFormedField, CanonVal;
    assert WellFormedField(d[i]);
    TagNotZero(d[i]);
    if n == 0 {
      DefaultsAt(d, |d|, i);
    } else {
      OneofUnset(d, m, n - 1, i);
      if SlotOf(d, n - 1) == SlotOf(d, i) { OneofCell(d, m, n - 1, i); }
    }
  }

  lemma OneofCell(d: seq<Field>, m: seq<Cell>, j: nat, i: nat)
    requires WellFormed(d) && TypedMsg(d, m) && j < i < |d| && SlotOf(d, j) == SlotOf(d, i)
    ensures m[SlotOf(d, i)].One? && d[i].tag != d[j].tag
  {
    hide Shares, Slots, SlotOf, WellFormedField;
    SameSlot(d, j, i);
    assert TypedCell(d[i], m[SlotOf(d, i)]);
  }

  /** A later member of the same oneof is selected only if member i is not, and then under its own tag. */
  lemma Rival(d: seq<Field>, m: seq<Cell>, i: nat, j: nat)
    requires WellFormed(d) && TypedMsg(d, m) && i < j < |d| && SlotOf(d, i) == SlotOf(d, j)
    ensures var c := m[SlotOf(d, j)];
      d[i].htype == Oneof && (Emits(d[j], c) ==>
        !Emits(d[i], c) && CanonCell(d[j], c).One? && CanonCell(d[j], c).which != d[i].tag)
  {
    hide Shares, Slots, SlotOf, WellFormedField, TypedMsg, CanonVal;
    SameSlot(d, i, j);
    OneofCell(d, m, i, j);
  }

  lemma CanonCellAgrees(f: Field, c: Cell, e: Cell)
    requires WellFormedField(f) && TypedCell(f, c)
    requires if Emits(f, c) then e == CanonCell(f, c)
      else if f.htype == Oneof then e.One? && e.which != f.tag else e == DefaultCell(f)
    ensures AgreesCell(f, c, e)
    decreases f, 2
  {
    hide AgreesVal, IsZero, TypedVal, DefaultVal, CanonVal, WellFormedField;
    if Emits(f, c) {
      match c
      case Rep(items) =>
        forall k | 0 <= k < |items| ensures AgreesVal(f, items[k], CanonVal(f, items[k])) {
          CanonValAgrees(f, items[k]);
        }
      case _ => CanonValAgrees(f, c.v);
    } else if c.Sing? {
      ZeroAgrees(f, c.v);
    }
  }

  lemma CanonAgrees(d: seq<Field>, m: seq<Cell>)
    requires WellFormed(d) && TypedMsg(d, m)
    ensures Agrees(d, m, Canon(d, m))
    decreases d, 3
  {
    hide Slots, SlotOf, TypedCell, AgreesCell, DefaultCell, WellFormedField, CanonUpTo, Emits, CanonCell;
    forall i | 0 <= i < |d| ensures AgreesCell(d[i], m[SlotOf(d, i)], Canon(d, m)[SlotOf(d, i)]) {
      SettledAt(d, m, |d|, i);
      CanonCellAgrees(d[i], m[SlotOf(d, i)], Canon(d, m)[SlotOf(d, i)]);
    }
  }

  // ---- the main theorem

  /** Every valid message of every well-formed descriptor can be encoded. If no field that is set has a tag over the
      limit, and no submessage or packed array that is set takes 4 GiB or more, decoding the encoding consumes it all
      and gives the message back, up to what is not set; otherwise it fails. */
  lemma RoundTrip(d: seq<Field>, m: seq<Cell>)
    requires WellFormed(d) && TypedMsg(d, m)
    requires EncMsg(d, m).Some? ==> |EncMsg(d, m).value| < TWO_TO_63
    ensures EncMsg(d, m).Some?
    ensures Decode(d, EncMsg(d, m).value) == if Legible(d, m) && Fits(d, m) then Some((Canon(d, m), [])) else None
    ensures Agrees(d, m, Canon(d, m))
  {
    hide Slots, TypedMsg, Agrees, CanonUpTo, DecMsg, EncFrom, DefaultsUpTo, WellFormed, Legible, Fits;
    TotalFrom(d, m, 0);
    MsgRoundTrip(d, m, EncMsg(d, m).value);
    CanonAgrees(d, m);
  }

  /** Within the protobuf language only the lengths matter. */
  lemma SmallTagsRoundTrip(d: seq<Field>, m: seq<Cell>)
    requires WellFormed(d) && TypedMsg(d, m) && SmallTags(d) && Fits(d, m)
    requires EncMsg(d, m).Some? ==> |EncMsg(d, m).value| < TWO_TO_63
    ensures EncMsg(d, m).Some? && Decode(d, EncMsg(d, m).value) == Some((Canon(d, m), []))
  {
    hide Slots, TypedMsg, Agrees, CanonUpTo, DecMsg, EncFrom, DefaultsUpTo, WellFormed, Legible, SmallTags, Fits;
    SmallTagsLegible(d, m);
    RoundTrip(d, m);
  }

  // ---- messages below 4 GiB

  lemma ValFits(f: Field, v: Val)
    requires EncVal(f, v).Some? && |EncVal(f, v).value| < TWO_TO_32
    ensures FitsVal(f, v)
    decreases f, 1
  {
    hide Encode, EncFrom, Fits, EncScalar;
    if f.ltype == Submessage {
      BodyShorter(EncFrom(f.ptr.fields, v.slots, 0).value);
      BelowFourGiBFits(f.ptr.fields, v.slots, 0);
      assert Fits(f.ptr.fields, v.slots) by { AllFit(f.ptr.fields, v.slots); }
    }
  }

  lemma AllFit(d: seq<Field>, m: seq<Cell>)
    requires FitsFrom(d, m, 0)
    ensures Fits(d, m)
  {
    hide FitsFrom;
  }

  lemma {:induction false} EachFits(f: Field, items: seq<Val>, k: nat)
    requires k <= |items| && EncEach(f, items, k).Some? && |EncEach(f, items, k).value| < TWO_TO_32
    ensures FitsItems(f, items, k)
    decreases f, 3, |items| - k
  {
    hide FitsVal, EncVal;
    if k < |items| {
      ValFits(f, items[k]);
      EachFits(f, items, k + 1);
    }
  }

  lemma CellFits(f: Field, c: Cell)
    requires EncField(f, c).Some? && |EncField(f, c).value| < TWO_TO_32
    ensures FitsCell(f, c)
    decreases f, 4
  {
    hide FitsVal, FitsItems, EncVal, EncEach, EncItems, Encode, IsZero;
    if Emits(f, c) {
      match c
      case Rep(items) =>
        if Packable(f.ltype) { BodyShorter(EncItems(f, items, 0).value); } else { EachFits(f, items, 0); }
      case _ => ValFits(f, c.v);
    }
  }

  /** Whose encoding stays below 4 GiB, whose parts do. */
  lemma {:induction false} BelowFourGiBFits(d: seq<Field>, m: seq<Cell>, i: nat)
    requires i <= |d| && EncFrom(d, m, i).Some? && |EncFrom(d, m, i).value| < TWO_TO_32
    ensures FitsFrom(d, m, i)
    decreases d, 5, |d| - i
  {
    hide FitsCell, EncField, SlotOf;
    if i < |d| {
      CellFits(d[i], m[SlotOf(d, i)]);
      BelowFourGiBFits(d, m, i + 1);
    }
  }

  // ---- a tag that does not fit

  /** A message of one required integer. */
  function OneField(tag: pbsize): seq<Field> {
    [Field(tag, Uvarint, Required, false, false, 4, 0, Null)]
  }

  lemma OneFieldEncodes(tag: pbsize, i: nat)
    requires 0 < tag && i < TWO_TO_32
    ensures WellFormed(OneField(tag)) && TypedMsg(OneField(tag), [Req(Int(i))])
    ensures EncMsg(OneField(tag), [Req(Int(i))]) == Some(EncTag(WT_VARINT, tag) + Encode(i))
    ensures |EncTag(WT_VARINT, tag) + Encode(i)| <= 20
  {
    hide Encode;
    var d, m := OneField(tag), [Req(Int(i))];
    assert Slots(d, 0) == 0 && Slots(d, 1) == 1 && SlotOf(d, 0) == 0;
    assert TypedCell(d[0], m[0]);
    assert EncFrom(d, m, 1) == Some([]);
    var body := EncTag(WT_VARINT, tag) + Encode(i);
    assert EncScalar(d[0], Int(i)) == Some(Encode(i));
    assert EncTagged(d[0], Int(i)) == Some(body);
    assert EncField(d[0], m[0]) == Some(body) && body + [] == body;
    AtMostTenBytes(8 * tag);
    AtMostTenBytes(i);
  }

  /** Under every tag over the limit it is encoded, and decoding refuses the encoding. */
  lemma LargeTagRefused(tag: pbsize, i: nat)
    requires TAG_LIMIT <= tag && i < TWO_TO_32
    ensures EncMsg(OneField(tag), [Req(Int(i))]).Some?
    ensures Decode(OneField(tag), EncMsg(OneField(tag), [Req(Int(i))]).value) == None
  {
    hide Decode, EncMsg, Agrees, EncTag, WellFormed, TypedMsg;
    var d, m := OneField(tag), [Req(Int(i))];
    OneFieldEncodes(tag, i);
    assert Slots(d, 0) == 0 && SlotOf(d, 0) == 0;
    assert !LegibleTagged(d[0], Int(i));
    assert !LegibleCell(d[0], m[0]);
    RoundTrip(d, m);
  }
}
