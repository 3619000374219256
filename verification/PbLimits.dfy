/** What the decoder lets through: whatever the input, the struct it fills stays within its C types. And what the
    encoder leaves out of a proto3 message. */
module PbLimits {
  import opened Bytes
  import opened PbVarint
  import opened PbTypes
  import opened PbCodec
  import opened PbRoundTrip

  // ---- exactly which numbers are accepted

  lemma {:induction false} OrBelow(a: nat, b: nat, n: nat)
    requires a < Shl(1, n) && b < Shl(1, n)
    ensures BitOr(a, b) < Shl(1, n)
    decreases n
  {
    if n > 0 { OrBelow(a / 2, b / 2, n - 1); }
  }

  lemma {:induction false} LoopBelow(b: seq<byte>, result: nat, bitpos: nat)
    requires result < TWO_TO_64 && Loop64(b, result, bitpos).Some?
    ensures Loop64(b, result, bitpos).value.0 < TWO_TO_64
  {
    hide BitOr, Shl;
    var more := Shl(b[0] % 128, bitpos) % TWO_TO_64;
    Pow64();
    OrBelow(result, more, 64);
    if b[0] >= 128 { LoopBelow(b[1..], BitOr(result, more), bitpos + 7); }
  }

  /** Whatever it reads, the 64-bit decoder stays within 64 bits. */
  lemma WithinWord(b: seq<byte>)
    requires Decode64(b).Some?
    ensures Decode64(b).value.0 < TWO_TO_64
  {
    LoopBelow(b, 0, 0);
  }

  function IntMin(size: nat): int {
    -(SignedMax(size) as int)
  }

  /** A signed varint is accepted exactly if the member can hold the number that the wire's 64 bits, or for a shorter
      member their lower 32, stand for in two's complement. */
  lemma SignedIsExact(f: Field, b: seq<byte>, i: int)
    requires f.ltype == Varint && IntSize(f.dataSize) && Decode64(b).Some?
    requires if f.dataSize == 8 then -(TWO_TO_63 as int) <= i < TWO_TO_63 else -(TWO_TO_31 as int) <= i < TWO_TO_31
    requires (i - Decode64(b).value.0) % (if f.dataSize == 8 then TWO_TO_64 else TWO_TO_32) == 0
    ensures DecScalar(f, b) ==
      if IntMin(f.dataSize) <= i < SignedMax(f.dataSize) then Some((Int(i), Decode64(b).value.1)) else None
  {
    hide Decode64;
    WithinWord(b);
    var v := Decode64(b).value.0;
    if f.dataSize == 8 { SameSigned64(v, i); } else { SameSigned32(v, i); }
  }

  lemma SameSigned64(v: nat, i: int)
    requires v < TWO_TO_64 && -(TWO_TO_63 as int) <= i < TWO_TO_63 && (i - v) % TWO_TO_64 == 0
    ensures Signed64(v) == i
  {
  }

  lemma SameSigned32(v: nat, i: int)
    requires -(TWO_TO_31 as int) <= i < TWO_TO_31 && (i - v) % TWO_TO_32 == 0
    ensures Signed32(v) == i
  {
    var w := v % TWO_TO_32;
    assert (i - w) % TWO_TO_32 == 0;
  }

  /** An unsigned varint is accepted exactly if the member can hold it, a zigzag one if it can hold the number meant. */
  lemma OthersAreExact(f: Field, b: seq<byte>)
    requires IntSize(f.dataSize) && Decode64(b).Some?
    ensures var (v, rest) := Decode64(b).value; f.ltype == Uvarint ==>
      DecScalar(f, b) == if v < Shl(1, 8 * f.dataSize) then Some((Int(v), rest)) else None
    ensures var (v, rest) := Decode64(b).value; f.ltype == Svarint ==>
      forall i :: -(TWO_TO_63 as int) <= i < TWO_TO_63 && v == ZigZag(i) ==>
        DecScalar(f, b) == if IntMin(f.dataSize) <= i < SignedMax(f.dataSize) then Some((Int(i), rest)) else None
  {
    hide Decode64, Shl;
    WithinWord(b);
    IntWords(f.dataSize);
    var v := Decode64(b).value.0;
    forall i | -(TWO_TO_63 as int) <= i < TWO_TO_63 && v == ZigZag(i) ensures UnZigZag(v) == i { ZigZagRoundTrip(i); }
  }

  lemma IntWords(size: nat)
    requires IntSize(size)
    ensures 2 * SignedMax(size) == Shl(1, 8 * size)
  {
    hide Shl;
    Pow64Bits();
    assert Shl(1, 8 * 1) == 256 && Shl(1, 8 * 2) == 65536 by { Shl8(0); Shl8(8); Shl0(); }
  }

  lemma Shl0()
    ensures Shl(1, 0) == 1
  {
  }

  /** Bytes and text are accepted exactly if the member has room, for the length field or the NUL too, and fixed-length
      bytes exactly if they have that length or are empty, which stands for zeros. */
  lemma PrefixedIsExact(f: Field, x: seq<byte>, rest: seq<byte>)
    requires |x| < TWO_TO_32
    ensures f.ltype == Blob ==>
      DecScalar(f, Prefixed(x) + rest) == if BYTES_HEADER + |x| <= f.dataSize then Some((Bytes(x), rest)) else None
    ensures f.ltype == Text ==>
      DecScalar(f, Prefixed(x) + rest) == if |x| < f.dataSize then Some((Chars(x), rest)) else None
    ensures f.ltype == FixedBytes ==>
      DecScalar(f, Prefixed(x) + rest) ==
        if |x| == f.dataSize then Some((Bytes(x), rest))
        else if x == [] then Some((Bytes(seq(f.dataSize, _ => 0)), rest))
        else None
  {
    hide Decode32, Prefixed, Take;
    PrefixedRoundTrip(x, rest);
    if x == [] {
      assert x + rest == rest;
      if f.dataSize == 0 { assert x == seq(f.dataSize, _ => 0); }
    }
  }

  // ---- a decoded struct fits its C types

  /** As TypedVal, but text may hold a NUL before its end. */
  ghost predicate HoldsVal(f: Field, v: Val)
    decreases f, 1
  {
    match f.ltype
    case Text => v.Chars? && |v.s| < f.dataSize
    case Submessage => v.Msg? && f.ptr.Fields? && Holds(f.ptr.fields, v.slots)
    case _ => TypedVal(f, v)
  }

  ghost predicate HoldsCell(f: Field, c: Cell)
    decreases f, 2
  {
    match f.htype
    case Required => c.Req? && HoldsVal(f, c.v)
    case Optional =>
      if f.hasSize then c.Opt? && (c.has || f.ltype == Submessage ==> HoldsVal(f, c.v)) else c.Sing? && HoldsVal(f, c.v)
    case Repeated => c.Rep? && |c.items| <= f.arraySize && forall k :: 0 <= k < |c.items| ==> HoldsVal(f, c.items[k])
    case Oneof => c.One? && (c.which == f.tag ==> HoldsVal(f, c.v))
  }

  /** No array or buffer of the struct is overfull, and every number is in its range. */
  ghost predicate Holds(d: seq<Field>, m: seq<Cell>)
    decreases d, 0
  {
    && |m| == Slots(d, |d|)
    && forall i :: 0 <= i < |d| ==> HoldsCell(d[i], m[SlotOf(d, i)])
  }

  /** What the struct starts from fits, the declared defaults included. */
  ghost predicate Prepared(d: seq<Field>)
    decreases d, 1
  {
    forall i :: 0 <= i < |d| ==> PreparedField(d[i])
  }

  ghost predicate PreparedField(f: Field)
    decreases f, 0
  {
    if f.ltype == Submessage then f.ptr.Fields? && Prepared(f.ptr.fields) else HoldsVal(f, DefaultVal(f))
  }

  lemma DefaultHolds(f: Field)
    requires WellFormedField(f) && PreparedField(f)
    ensures HoldsVal(f, DefaultVal(f)) && HoldsCell(f, DefaultCell(f))
    decreases f, 1
  {
    hide Slots, Holds, WellFormed, Prepared, TypedVal;
    if f.ltype == Submessage { DefaultsHold(f.ptr.fields); }
    TagNotZero(f);
  }

  lemma DefaultsHold(d: seq<Field>)
    requires WellFormed(d) && Prepared(d)
    ensures Holds(d, Defaults(d))
    decreases d, 2
  {
    hide Slots, SlotOf, DefaultCell, WellFormedField, PreparedField, HoldsCell, DefaultsUpTo;
    forall i | 0 <= i < |d| ensures HoldsCell(d[i], Defaults(d)[SlotOf(d, i)]) {
      DefaultsAt(d, |d|, i);
      DefaultHolds(d[i]);
    }
  }

  lemma {:induction false} LittleEndianBelow(b: seq<byte>)
    ensures FromLittleEndian(b) < Shl(1, 8 * |b|)
  {
    if b != [] {
      LittleEndianBelow(b[1..]);
      Shl8(8 * (|b| - 1));
    }
  }

  lemma FixedHolds(b: seq<byte>, n: nat)
    requires DecFixed(b, n).Some?
    ensures DecFixed(b, n).value.0.Int? && 0 <= DecFixed(b, n).value.0.i < Shl(1, 8 * n)
  {
    LittleEndianBelow(b[..n]);
  }

  lemma ScalarHolds(f: Field, b: seq<byte>)
    requires WellFormedField(f) && DecScalar(f, b).Some?
    ensures HoldsVal(f, DecScalar(f, b).value.0)
  {
    hide Decode64, Decode32, Holds, TypedMsg, WellFormed, Shl, DecFixed;
    Pow64Bits();
    match f.ltype
    case Fixed32 => FixedHolds(b, 4);
    case Fixed64 => FixedHolds(b, 8);
    case _ =>
  }

  lemma ValHolds(f: Field, b: seq<byte>, prev: Val)
    requires WellFormedField(f) && DecVal(f, b, prev).Some?
    requires f.ltype == Submessage ==> PreparedField(f) && (f.htype == Repeated || HoldsVal(f, prev))
    ensures HoldsVal(f, DecVal(f, b, prev).value.0)
    decreases |b|, 1
  {
    hide DecScalar, TakePrefixed, DecMsg, Slots, Holds, WellFormed, Prepared, DefaultsUpTo, TypedVal;
    if f.ltype != Submessage {
      ScalarHolds(f, b);
    } else {
      var d, body := f.ptr.fields, TakePrefixed(b).value.0;
      if f.htype == Repeated { DefaultsHold(d); }
      MessageHolds(d, body, if f.htype == Repeated then Defaults(d) else prev.slots);
    }
  }

  lemma {:induction false} PackedHolds(f: Field, b: seq<byte>, items: seq<Val>)
    requires WellFormedField(f) && Packable(f.ltype) && |items| <= f.arraySize && DecPacked(f, b, items).Some?
    requires forall k :: 0 <= k < |items| ==> HoldsVal(f, items[k])
    ensures var r := DecPacked(f, b, items).value;
      |r| <= f.arraySize && forall k :: 0 <= k < |r| ==> HoldsVal(f, r[k])
    decreases |b|
  {
    hide DecScalar, HoldsVal, WellFormedField;
    if b != [] {
      ScalarHolds(f, b);
      PackedHolds(f, DecScalar(f, b).value.1, items + [DecScalar(f, b).value.0]);
    }
  }

  lemma FieldHolds(f: Field, wt: nat, b: seq<byte>, c: Cell)
    requires WellFormedField(f) && PreparedField(f) && HoldsCell(f, c) && DecField(f, wt, b, c).Some?
    ensures HoldsCell(f, DecField(f, wt, b, c).value.0)
    decreases |b|, 2
  {
    hide DecVal, DecPacked, HoldsVal, WellFormedField, DefaultsUpTo, TakePrefixed, Prepared;
    match c
    case Rep(items) =>
      if wt == WT_STRING && Packable(f.ltype) {
        PackedHolds(f, TakePrefixed(b).value.0, items);
      } else {
        ValHolds(f, b, Int(0));
      }
    case One(_, v) =>
      var prev := if f.ltype == Submessage && f.ptr.Fields? then Msg(Defaults(f.ptr.fields)) else v;
      if f.ltype == Submessage { SubDefaultHolds(f); }
      ValHolds(f, b, prev);
    case _ => ValHolds(f, b, c.v);
  }

  lemma SubDefaultHolds(f: Field)
    requires WellFormedField(f) && PreparedField(f) && f.ltype == Submessage
    ensures f.ptr.Fields? && HoldsVal(f, Msg(Defaults(f.ptr.fields)))
  {
    hide Holds, DefaultsUpTo;
    DefaultsHold(f.ptr.fields);
  }

  /** A cell that holds field i may replace what was in its slot: the others in the slot are members of the same
      oneof. */
  lemma CellReplaced(d: seq<Field>, m: seq<Cell>, i: nat, c: Cell)
    requires WellFormed(d) && Holds(d, m) && i < |d| && HoldsCell(d[i], c)
    requires d[i].htype == Oneof ==> c.One? && c.which == d[i].tag
    ensures Holds(d, m[SlotOf(d, i) := c])
  {
    hide Slots, SlotOf, HoldsVal, Shares, WellFormedField;
    forall j | 0 <= j < |d| ensures HoldsCell(d[j], m[SlotOf(d, i) := c][SlotOf(d, j)]) {
      if j != i && SlotOf(d, j) == SlotOf(d, i) {
        if i < j { SameSlot(d, i, j); } else { SameSlot(d, j, i); }
      }
    }
  }

  lemma OneofMarks(f: Field, wt: nat, b: seq<byte>, c: Cell)
    requires DecField(f, wt, b, c).Some? && f.htype == Oneof
    ensures DecField(f, wt, b, c).value.0.One? && DecField(f, wt, b, c).value.0.which == f.tag
  {
    hide DecVal;
  }

  lemma {:induction false} LoopHolds(d: seq<Field>, b: seq<byte>, m: seq<Cell>, seen: set<nat>)
    requires WellFormed(d) && Prepared(d) && Holds(d, m)
    ensures DecLoop(d, b, m, seen).Some? ==> Holds(d, DecLoop(d, b, m, seen).value.m)
    decreases |b|, 4
  {
    hide Decode32, Find, Skip, DecField, SlotOf, Slots, HoldsCell, WellFormedField, PreparedField, SeenBit;
    if b != [] && Decode32(b).Some? && Decode32(b).value.0 != 0 {
      var (t, rest) := Decode32(b).value;
      match Find(d, t / 8)
      case None => if Skip(t % 8, rest).Some? { LoopHolds(d, Skip(t % 8, rest).value, m, seen); }
      case Some(i) =>
        var r := DecField(d[i], t % 8, rest, m[SlotOf(d, i)]);
        if r.Some? {
          FieldHolds(d[i], t % 8, rest, m[SlotOf(d, i)]);
          if d[i].htype == Oneof { OneofMarks(d[i], t % 8, rest, m[SlotOf(d, i)]); }
          CellReplaced(d, m, i, r.value.0);
          LoopHolds(d, r.value.1, m[SlotOf(d, i) := r.value.0], seen + SeenBit(d, i));
        }
    }
  }

  lemma MessageHolds(d: seq<Field>, b: seq<byte>, m: seq<Cell>)
    requires WellFormed(d) && Prepared(d) && Holds(d, m)
    ensures DecMsg(d, b, m).Some? ==> Holds(d, DecMsg(d, b, m).value.0)
    decreases |b|, 6
  {
    hide DecLoop, Holds, AllSeen, WellFormed, Prepared;
    LoopHolds(d, b, m, {});
  }

  /** Whatever bytes arrive, a struct that is decoded fits: no array, buffer or text is overfull at any depth, and every
      number is in the range of its member. */
  lemma DecodedFits(d: seq<Field>, b: seq<byte>)
    requires WellFormed(d) && Prepared(d)
    ensures Decode(d, b).Some? ==> Holds(d, Decode(d, b).value.0)
  {
    hide DecMsg, Holds, WellFormed, Prepared, DefaultsUpTo;
    DefaultsHold(d);
    MessageHolds(d, b, Defaults(d));
  }

  // ---- what a proto3 message leaves out

  /** Each oneof has selected one of its members, or none. */
  ghost predicate Selects(d: seq<Field>, m: seq<Cell>) {
    forall i :: 0 <= i < |d| && SlotOf(d, i) < |m| ==> SelectsCell(d, i, m[SlotOf(d, i)])
  }

  ghost predicate SelectsCell(d: seq<Field>, i: nat, c: Cell)
    requires i < |d|
  {
    c.One? && c.which != 0 ==> exists j :: 0 <= j < |d| && SlotOf(d, j) == SlotOf(d, i) && d[j].tag == c.which
  }

  /** Zero, nothing, or a message that goes out as nothing. */
  predicate Blank(f: Field, v: Val) {
    match v
    case Int(i) => i == 0
    case Bytes(b) => b == []
    case Chars(s) => s == []
    case Msg(slots) => f.ptr.Fields? && EncMsg(f.ptr.fields, slots) == Some([])
  }

  lemma TaggedNotEmpty(f: Field, v: Val)
    ensures EncTagged(f, v) != Some([])
  {
    hide EncVal;
  }

  lemma EachNotEmpty(f: Field, items: seq<Val>)
    requires items != []
    ensures EncEach(f, items, 0) != Some([])
  {
    hide EncTagged;
    TaggedNotEmpty(f, items[0]);
  }

  /** A cell goes out as nothing, but for what a oneof has selected. */
  lemma CellIsEmpty(f: Field, c: Cell)
    requires TypedCell(f, c)
    ensures EncField(f, c) == Some([]) <==> if c.One? then c.which != f.tag else IsDefault(f, c)
  {
    hide EncTagged, IsZero, TypedVal, EncItems, EncEach, Encode;
    match c
    case Rep(items) => if items != [] { EachNotEmpty(f, items); }
    case _ => TaggedNotEmpty(f, c.v);
  }

  lemma {:induction false} AllEmpty(d: seq<Field>, m: seq<Cell>, i: nat, j: nat)
    requires i <= j < |d| && EncFrom(d, m, i) == Some([])
    ensures SlotOf(d, j) < |m| && EncField(d[j], m[SlotOf(d, j)]) == Some([])
    decreases j - i
  {
    hide EncField, SlotOf;
    if i < j { AllEmpty(d, m, i + 1, j); }
  }

  lemma {:induction false} EmptyFrom(d: seq<Field>, m: seq<Cell>, i: nat)
    requires i <= |d| && forall j :: i <= j < |d| ==>
      SlotOf(d, j) < |m| && EncField(d[j], m[SlotOf(d, j)]) == Some([])
    ensures EncFrom(d, m, i) == Some([])
    decreases |d| - i
  {
    hide EncField, SlotOf;
    var none: seq<byte> := [];
    assert none + none == none;
    if i < |d| { EmptyFrom(d, m, i + 1); }
  }

  lemma {:induction false} DefaultFrom(d: seq<Field>, m: seq<Cell>, i: nat)
    requires i <= |d| && forall j :: i <= j < |d| ==> SlotOf(d, j) < |m| && IsDefault(d[j], m[SlotOf(d, j)])
    ensures AllDefault(d, m, i)
    decreases |d| - i
  {
    hide IsDefault, SlotOf;
    if i < |d| { DefaultFrom(d, m, i + 1); }
  }

  lemma DefaultIsEmpty(d: seq<Field>, m: seq<Cell>)
    requires WellFormed(d) && TypedMsg(d, m) && Selects(d, m)
    ensures AllDefault(d, m, 0) <==> EncMsg(d, m) == Some([])
  {
    hide Slots, SlotOf, TypedCell, IsDefault, AllDefault, EncField, EncFrom, WellFormedField;
    if AllDefault(d, m, 0) {
      forall j | 0 <= j < |d| ensures SlotOf(d, j) < |m| && EncField(d[j], m[SlotOf(d, j)]) == Some([]) {
        AllDefaultAt(d, m, 0, j);
        CellIsEmpty(d[j], m[SlotOf(d, j)]);
        DefaultOneof(d[j], m[SlotOf(d, j)]);
      }
      EmptyFrom(d, m, 0);
    }
    if EncMsg(d, m) == Some([]) {
      forall j | 0 <= j < |d| ensures SlotOf(d, j) < |m| && IsDefault(d[j], m[SlotOf(d, j)]) {
        NothingSelected(d, m, j);
      }
      DefaultFrom(d, m, 0);
    }
  }

  lemma DefaultOneof(f: Field, c: Cell)
    requires WellFormedField(f) && IsDefault(f, c)
    ensures c.One? ==> c.which != f.tag
  {
    TagNotZero(f);
  }

  lemma NothingSelected(d: seq<Field>, m: seq<Cell>, j: nat)
    requires WellFormed(d) && TypedMsg(d, m) && Selects(d, m) && EncMsg(d, m) == Some([]) && j < |d|
    ensures SlotOf(d, j) < |m| && IsDefault(d[j], m[SlotOf(d, j)])
  {
    hide Slots, SlotOf, TypedCell, EncField, EncFrom, WellFormedField, IsZero;
    AllEmpty(d, m, 0, j);
    var c := m[SlotOf(d, j)];
    CellIsEmpty(d[j], c);
    if c.One? && c.which != 0 {
      var k :| 0 <= k < |d| && SlotOf(d, k) == SlotOf(d, j) && d[k].tag == c.which;
      AllEmpty(d, m, 0, k);
      CellIsEmpty(d[k], c);
    }
  }

  /** A proto3 field goes out exactly if it is not zero: no number but 0, no text or bytes but the empty ones, and no
      message but one that would itself go out as nothing is left out. */
  lemma LeftOutIffBlank(f: Field, v: Val)
    requires WellFormedField(f) && TypedVal(f, v) && f.htype == Optional && !f.hasSize
    requires f.ltype == Submessage ==> Selects(f.ptr.fields, v.slots)
    ensures EncField(f, Sing(v)) == Some([]) <==> Blank(f, v)
  {
    hide Slots, TypedMsg, AllDefault, EncFrom, Selects, EncTagged, WellFormed;
    TaggedNotEmpty(f, v);
    match f.ltype
    case Submessage => DefaultIsEmpty(f.ptr.fields, v.slots);
    case Text => NoNul(v.s);
    case _ =>
  }
}
