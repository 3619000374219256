/** The decoder as a fold over the fields on the wire: concatenation merges, unknown fields are
    invisible, and the required-field check sees exactly the fields that occurred. */
module PbMerge {
  import opened Bytes
  import opened PbVarint
  import opened PbTypes
  import opened PbCodec

  // ---- no reader looks past what it consumes

  lemma StableTake(b: seq<byte>, more: seq<byte>, n: nat)
    requires Take(b, n).Some?
    ensures Take(b + more, n) == Some((Take(b, n).value.0, Take(b, n).value.1 + more))
  {
    assert (b + more)[..n] == b[..n] && (b + more)[n..] == b[n..] + more;
  }

  lemma StablePrefixed(b: seq<byte>, more: seq<byte>)
    requires TakePrefixed(b).Some?
    ensures TakePrefixed(b + more) == Some((TakePrefixed(b).value.0, TakePrefixed(b).value.1 + more))
  {
    hide Decode32;
    Stable32(b, more);
    StableTake(Decode32(b).value.1, more, Decode32(b).value.0);
  }

  lemma {:induction false} StableSkipVarint(b: seq<byte>, more: seq<byte>)
    requires SkipVarint(b).Some?
    ensures SkipVarint(b + more) == Some(SkipVarint(b).value + more)
  {
    assert (b + more)[1..] == b[1..] + more;
    if b[0] >= 128 { StableSkipVarint(b[1..], more); }
  }

  lemma StableSkip(wt: nat, b: seq<byte>, more: seq<byte>)
    requires Skip(wt, b).Some?
    ensures Skip(wt, b + more) == Some(Skip(wt, b).value + more)
  {
    hide TakePrefixed;
    if wt == WT_VARINT {
      StableSkipVarint(b, more);
    } else if wt == WT_STRING {
      StablePrefixed(b, more);
    } else {
      var n := if wt == WT_64BIT then 8 else 4;
      assert (b + more)[n..] == b[n..] + more;
    }
  }

  lemma StableScalar(f: Field, b: seq<byte>, more: seq<byte>)
    requires DecScalar(f, b).Some?
    ensures DecScalar(f, b + more) == Some((DecScalar(f, b).value.0, DecScalar(f, b).value.1 + more))
  {
    hide Decode32, Loop64, BitOr, Shl, FitsSigned, UnZigZag, Signed64, Signed32;
    match f.ltype
    case Varint => Stable64(b, more, 0, 0);
    case Uvarint => Stable64(b, more, 0, 0);
    case Svarint => Stable64(b, more, 0, 0);
    case Fixed32 => StableTake(b, more, 4);
    case Fixed64 => StableTake(b, more, 8);
    case Blob => StableSized(b, more);
    case Text => StableSized(b, more);
    case FixedBytes => StableSized(b, more);
    case Submessage =>
  }

  lemma StableSized(b: seq<byte>, more: seq<byte>)
    requires Decode32(b).Some?
    ensures Decode32(b + more) == Some((Decode32(b).value.0, Decode32(b).value.1 + more))
    ensures var (size, rest) := Decode32(b).value;
      Take(rest, size).Some? ==>
        Take(rest + more, size) == Some((Take(rest, size).value.0, Take(rest, size).value.1 + more))
  {
    hide Decode32;
    Stable32(b, more);
    var (size, rest) := Decode32(b).value;
    if Take(rest, size).Some? { StableTake(rest, more, size); }
  }

  lemma StableVal(f: Field, b: seq<byte>, more: seq<byte>, prev: Val)
    requires DecVal(f, b, prev).Some?
    ensures DecVal(f, b + more, prev) == Some((DecVal(f, b, prev).value.0, DecVal(f, b, prev).value.1 + more))
  {
    hide DecScalar, TakePrefixed, DecMsg;
    if f.ltype != Submessage {
      StableScalar(f, b, more);
    } else {
      StablePrefixed(b, more);
    }
  }

  lemma StableRepeated(f: Field, wt: nat, b: seq<byte>, more: seq<byte>, items: seq<Val>)
    requires DecRepeated(f, wt, b, items).Some?
    ensures var r := DecRepeated(f, wt, b, items).value; DecRepeated(f, wt, b + more, items) == Some((r.0, r.1 + more))
  {
    hide DecVal, TakePrefixed, DecPacked;
    if wt == WT_STRING && Packable(f.ltype) {
      StablePrefixed(b, more);
    } else {
      StableVal(f, b, more, Int(0));
    }
  }

  lemma StableField(f: Field, wt: nat, b: seq<byte>, more: seq<byte>, c: Cell)
    requires DecField(f, wt, b, c).Some?
    ensures var r := DecField(f, wt, b, c).value; DecField(f, wt, b + more, c) == Some((r.0, r.1 + more))
  {
    hide DecVal, DecRepeated, Defaults;
    match (f.htype, c)
    case (Required, Req(v)) => StableVal(f, b, more, v);
    case (Optional, Opt(_, v)) => StableVal(f, b, more, v);
    case (Optional, Sing(v)) => StableVal(f, b, more, v);
    case (Repeated, Rep(items)) => StableRepeated(f, wt, b, more, items);
    case (Oneof, One(_, v)) =>
      StableVal(f, b, more, if f.ltype == Submessage && f.ptr.Fields? then Msg(Defaults(f.ptr.fields)) else v);
  }

  // ---- one field of the wire

  datatype Item = Item(m: seq<Cell>, met: set<nat>, rest: seq<byte>)

  /** Reads one field, known or not: the struct after it, the descriptor index it matched, what is left.
      None if the input is exhausted, at a zero tag, and where decoding fails. */
  function Next(d: seq<Field>, b: seq<byte>, m: seq<Cell>): (r: Option<Item>)
    requires |m| == Slots(d, |d|)
    ensures r.Some? ==> |r.value.m| == Slots(d, |d|) && |r.value.rest| < |b|
    ensures r.Some? ==> forall i :: i in r.value.met ==> i < |d|
  {
    match Decode32(b)
    case None => None
    case Some((t, rest)) =>
      if t == 0 || (d == [] && t / 8 == 0) then None
      else
        match Find(d, t / 8)
        case None => (match Skip(t % 8, rest) case None => None case Some(rest') => Some(Item(m, {}, rest')))
        case Some(i) =>
          match DecField(d[i], t % 8, rest, m[SlotOf(d, i)])
          case None => None
          case Some((c, rest')) => Some(Item(m[SlotOf(d, i) := c], {i}, rest'))
  }

  function SeenBits(d: seq<Field>, met: set<nat>): set<nat> {
    set k, i | i in met && i < |d| && k in SeenBit(d, i) :: k
  }

  /** The loop is Next, repeated. */
  lemma LoopIsNext(d: seq<Field>, b: seq<byte>, m: seq<Cell>, seen: set<nat>)
    requires |m| == Slots(d, |d|)
    ensures Next(d, b, m).Some? ==>
      var it := Next(d, b, m).value; DecLoop(d, b, m, seen) == DecLoop(d, it.rest, it.m, seen + SeenBits(d, it.met))
  {
    hide Decode32, Find, Skip, DecField, SlotOf, SeenBit;
    if Next(d, b, m).Some? {
      var it := Next(d, b, m).value;
      if it.met == {} {
        assert SeenBits(d, it.met) == {};
        assert seen + {} == seen;
      } else {
        var i :| it.met == {i};
        assert SeenBits(d, {i}) == SeenBit(d, i);
      }
    }
  }

  lemma StableNext(d: seq<Field>, b: seq<byte>, more: seq<byte>, m: seq<Cell>)
    requires |m| == Slots(d, |d|) && Next(d, b, m).Some?
    ensures var it := Next(d, b, m).value; Next(d, b + more, m) == Some(Item(it.m, it.met, it.rest + more))
  {
    hide Decode32, Find, Skip, DecField, SlotOf, Slots;
    Stable32(b, more);
    var (t, rest) := Decode32(b).value;
    match Find(d, t / 8)
    case None => StableSkip(t % 8, rest, more);
    case Some(i) => StableField(d[i], t % 8, rest, more, m[SlotOf(d, i)]);
  }

  /** The input is a run of whole fields, all decoded. */
  predicate Whole(d: seq<Field>, b: seq<byte>, m: seq<Cell>)
    requires |m| == Slots(d, |d|)
    decreases |b|
  {
    b == [] || (Next(d, b, m).Some? && Whole(d, Next(d, b, m).value.rest, Next(d, b, m).value.m))
  }

  /** Its effect: the struct after the run and the descriptor indices that occurred in it. */
  function Fold(d: seq<Field>, b: seq<byte>, m: seq<Cell>): (r: (seq<Cell>, set<nat>))
    requires |m| == Slots(d, |d|) && Whole(d, b, m)
    ensures |r.0| == Slots(d, |d|)
    ensures forall i :: i in r.1 ==> i < |d|
    decreases |b|
  {
    if b == [] then (m, {})
    else
      var it := Next(d, b, m).value;
      var (m', met) := Fold(d, it.rest, it.m);
      (m', it.met + met)
  }

  /** Decoding a run of whole fields and then anything else. */
  lemma {:induction false} LoopAppend(d: seq<Field>, a: seq<byte>, b: seq<byte>, m: seq<Cell>, seen: set<nat>)
    requires |m| == Slots(d, |d|) && Whole(d, a, m)
    ensures var (m', met) := Fold(d, a, m); DecLoop(d, a + b, m, seen) == DecLoop(d, b, m', seen + SeenBits(d, met))
    decreases |a|
  {
    hide Next, DecLoop, SeenBit;
    if a == [] {
      assert a + b == b && SeenBits(d, {}) == {} && seen + {} == seen;
    } else {
      var it := Next(d, a, m).value;
      var (m', met) := Fold(d, it.rest, it.m);
      StableNext(d, a, b, m);
      LoopIsNext(d, a + b, m, seen);
      LoopAppend(d, it.rest, b, it.m, seen + SeenBits(d, it.met));
      assert SeenBits(d, it.met + met) == SeenBits(d, it.met) + SeenBits(d, met);
      assert (seen + SeenBits(d, it.met)) + SeenBits(d, met) == seen + SeenBits(d, it.met + met);
    }
  }

  // ---- skipping

  /** A field of another schema: a tag word other than zero with a number d does not have, and a value of its wire type,
      no more. */
  predicate Foreign(d: seq<Field>, u: seq<byte>) {
    && Decode32(u).Some?
    && var (t, rest) := Decode32(u).value;
    && t != 0 && Find(d, t / 8).None? && Skip(t % 8, rest) == Some([])
  }

  /** Field number 0 stands for the terminator, which only an empty message is compared with. */
  predicate Unknown(d: seq<Field>, u: seq<byte>) {
    Foreign(d, u) && (d == [] ==> Decode32(u).value.0 / 8 != 0)
  }

  /** A field of another schema is skipped unless the message is empty and the field's number is 0: then decoding
      fails. */
  lemma SkippedIffUnknown(d: seq<Field>, u: seq<byte>, m: seq<Cell>)
    requires |m| == Slots(d, |d|) && Foreign(d, u)
    ensures Unknown(d, u) <==> Next(d, u, m) == Some(Item(m, {}, []))
    ensures !Unknown(d, u) ==> DecMsg(d, u, m) == None
  {
    hide Decode32, Skip, DecField, SlotOf;
    if Unknown(d, u) {
      UnknownNext(d, u, m);
    } else {
      StuckLoop(d, u, m, {});
      NoTag(u);
    }
  }

  lemma NoTag(u: seq<byte>)
    requires Decode32(u).Some?
    ensures u != []
  {
  }

  /** The shortest such field: a fixed 32-bit value under number 0. */
  lemma EmptyMessageRefuses(x: seq<byte>)
    requires |x| == 4
    ensures Foreign([], [5] + x) && DecMsg([], [5] + x, []) == None
  {
    hide DecMsg, Loop32, TakePrefixed, SkipVarint;
    assert ([5] + x)[1..] == x;
    assert Decode32([5] + x) == Some((5, x));
    assert x[4..] == [] && Skip(5, x) == Some([]);
    assert Slots([], 0) == 0;
    SkippedIffUnknown([], [5] + x, []);
  }

  /** Between whole fields, an unknown field changes nothing, whatever follows. */
  lemma UnknownFieldsAreSkipped(d: seq<Field>, a: seq<byte>, u: seq<byte>, b: seq<byte>, m: seq<Cell>)
    requires |m| == Slots(d, |d|) && Whole(d, a, m) && Unknown(d, u)
    ensures DecMsg(d, a + u + b, m) == DecMsg(d, a + b, m)
  {
    hide Next, DecLoop, SeenBit, AllSeen;
    var (m', met) := Fold(d, a, m);
    var seen := {} + SeenBits(d, met);
    assert a + u + b == a + (u + b);
    LoopAppend(d, a, u + b, m, {});
    LoopAppend(d, a, b, m, {});
    UnknownNext(d, u, m');
    StableNext(d, u, b, m');
    LoopIsNext(d, u + b, m', seen);
    assert SeenBits(d, {}) == {} && seen + {} == seen && [] + b == b;
  }

  lemma UnknownNext(d: seq<Field>, u: seq<byte>, m: seq<Cell>)
    requires |m| == Slots(d, |d|) && Unknown(d, u)
    ensures Next(d, u, m) == Some(Item(m, {}, []))
  {
    hide Decode32, Find, Skip, DecField, SlotOf;
  }

  // ---- merging

  /** The bits already seen play no part in the loop but are kept. */
  lemma {:induction false} SeenIsCarried(d: seq<Field>, b: seq<byte>, m: seq<Cell>, seen: set<nat>)
    requires |m| == Slots(d, |d|)
    ensures var p, q := DecLoop(d, b, m, {}), DecLoop(d, b, m, seen);
      p.Some? == q.Some? && (p.Some? ==> q.value == Progress(p.value.m, seen + p.value.seen, p.value.rest))
    decreases |b|
  {
    hide Next, SeenBit;
    if Next(d, b, m).Some? {
      var it := Next(d, b, m).value;
      var bits := SeenBits(d, it.met);
      LoopIsNext(d, b, m, {});
      LoopIsNext(d, b, m, seen);
      SeenIsCarried(d, it.rest, it.m, {} + bits);
      SeenIsCarried(d, it.rest, it.m, seen + bits);
    } else {
      StuckLoop(d, b, m, seen);
      StuckLoop(d, b, m, {});
      assert seen + {} == seen;
    }
  }

  /** Where there is no next field the loop ends, or fails, whatever was seen. */
  lemma StuckLoop(d: seq<Field>, b: seq<byte>, m: seq<Cell>, seen: set<nat>)
    requires |m| == Slots(d, |d|) && Next(d, b, m).None?
    ensures var t := Decode32(b);
      DecLoop(d, b, m, seen) == if b == [] then Some(Progress(m, seen, []))
        else if t.Some? && t.value.0 == 0 then Some(Progress(m, seen, t.value.1)) else None
  {
    hide Decode32, Find, Skip, DecField, SlotOf, SeenBit;
  }

  /** Decoding a ++ b into a struct is decoding a and then b, whenever both succeed and a has no zero tag. */
  lemma ConcatenationMerges(d: seq<Field>, a: seq<byte>, b: seq<byte>, m: seq<Cell>)
    requires |m| == Slots(d, |d|) && Whole(d, a, m) && DecMsg(d, a, m).Some?
    requires DecMsg(d, b, DecMsg(d, a, m).value.0).Some?
    ensures DecMsg(d, a + b, m) == DecMsg(d, b, DecMsg(d, a, m).value.0)
  {
    hide Next, DecLoop, SeenBit;
    var (m', met) := Fold(d, a, m);
    LoopAppend(d, a, b, m, {});
    LoopAppend(d, a, [], m, {});
    assert a + [] == a;
    var seen := {} + SeenBits(d, met);
    EmptyLoop(d, m', seen);
    SeenIsCarried(d, b, m', seen);
  }

  lemma EmptyLoop(d: seq<Field>, m: seq<Cell>, seen: set<nat>)
    requires |m| == Slots(d, |d|)
    ensures DecLoop(d, [], m, seen) == Some(Progress(m, seen, []))
  {
  }

  // ---- required fields

  /** Every count below the total belongs to a required field. */
  lemma {:induction false} NthRequired(d: seq<Field>, n: nat, k: nat) returns (i: nat)
    requires n <= |d| && k < ReqCount(d, n)
    ensures i < n && d[i].htype == Required && ReqCount(d, i) == k
  {
    if k < ReqCount(d, n - 1) {
      i := NthRequired(d, n - 1, k);
    } else {
      i := n - 1;
    }
  }

  /** One of the first 64 required fields is not among those met. */
  ghost predicate Misses(d: seq<Field>, met: set<nat>) {
    exists i :: 0 <= i < |d| && d[i].htype == Required && ReqCount(d, i) < PB_MAX_REQUIRED_FIELDS && i !in met
  }

  lemma SeenIffMet(d: seq<Field>, met: set<nat>)
    requires forall i :: i in met ==> i < |d|
    ensures AllSeen(d, SeenBits(d, met)) <==> !Misses(d, met)
  {
    var limit := Min(ReqCount(d, |d|), PB_MAX_REQUIRED_FIELDS);
    if !Misses(d, met) {
      forall k | 0 <= k < limit ensures k in SeenBits(d, met) {
        var i := NthRequired(d, |d|, k);
        assert k in SeenBit(d, i);
      }
    }
    if AllSeen(d, SeenBits(d, met)) {
      forall i | 0 <= i < |d| && d[i].htype == Required && ReqCount(d, i) < PB_MAX_REQUIRED_FIELDS ensures i in met {
        ReqCountGrows(d, i + 1, |d|);
        var k := ReqCount(d, i);
        assert k in SeenBits(d, met);
        var j :| j in met && j < |d| && k in SeenBit(d, j);
        SameCount(d, i, j);
      }
    }
  }

  lemma CountsPast(d: seq<Field>, i: nat, j: nat)
    requires i < j < |d| && d[i].htype == Required
    ensures ReqCount(d, i) < ReqCount(d, j)
  {
    ReqCountGrows(d, i + 1, j);
  }

  lemma SameCount(d: seq<Field>, i: nat, j: nat)
    requires i < |d| && j < |d| && d[i].htype == Required && d[j].htype == Required && ReqCount(d, i) == ReqCount(d, j)
    ensures i == j
  {
    if i < j { CountsPast(d, i, j); } else if j < i { CountsPast(d, j, i); }
  }

  /** A run of whole fields, in any order, fails the required-field check exactly when one of the first
      64 required fields of the descriptor did not occur in it. */
  lemma RequiredCheckIsExact(d: seq<Field>, b: seq<byte>, m: seq<Cell>)
    requires |m| == Slots(d, |d|) && Whole(d, b, m)
    ensures DecMsg(d, b, m).None? <==> Misses(d, Fold(d, b, m).1)
    ensures DecMsg(d, b, m).Some? ==> DecMsg(d, b, m).value == (Fold(d, b, m).0, [])
  {
    hide Next, DecLoop, AllSeen, Misses, SeenBit;
    var (m', met) := Fold(d, b, m);
    LoopAppend(d, b, [], m, {});
    assert b + [] == b && {} + SeenBits(d, met) == SeenBits(d, met);
    EmptyLoop(d, m', SeenBits(d, met));
    SeenIffMet(d, met);
  }
}
