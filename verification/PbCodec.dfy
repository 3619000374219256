/** What nanopb's encoder emits and its decoder accepts, as functions on byte sequences.
    None stands for a `false` return. */
module PbCodec {
  import opened Bytes
  import opened PbVarint
  import opened PbTypes

  const WT_VARINT: nat := 0
  const WT_64BIT: nat := 1
  const WT_STRING: nat := 2
  const WT_32BIT: nat := 5

  function WireType(t: LType): nat {
    match t
    case Varint => WT_VARINT
    case Uvarint => WT_VARINT
    case Svarint => WT_VARINT
    case Fixed32 => WT_32BIT
    case Fixed64 => WT_64BIT
    case _ => WT_STRING
  }

  function LittleEndian(v: nat, n: nat): (b: seq<byte>)
    ensures |b| == n
  {
    if n == 0 then [] else [v % 256] + LittleEndian(v / 256, n - 1)
  }

  function FromLittleEndian(b: seq<byte>): nat {
    if b == [] then 0 else b[0] + 256 * FromLittleEndian(b[1..])
  }

  /** `strnlen`: the characters before the first NUL. */
  function CLength(s: seq<byte>): (n: nat)
    ensures n <= |s|
  {
    if s == [] || s[0] == 0 then 0 else 1 + CLength(s[1..])
  }

  // ---- encoding

  function Cat(a: Option<seq<byte>>, b: Option<seq<byte>>): Option<seq<byte>> {
    if a.Some? && b.Some? then Some(a.value + b.value) else None
  }

  function Prefixed(b: seq<byte>): seq<byte> {
    Encode(|b|) + b
  }

  function Sized(e: Option<seq<byte>>): Option<seq<byte>> {
    if e.Some? then Some(Prefixed(e.value)) else None
  }

  function EncTag(wt: nat, tag: nat): seq<byte> {
    Encode(8 * tag + wt)
  }

  /** The `pb_enc_*` functions for values that are not submessages. */
  function EncScalar(f: Field, v: Val): Option<seq<byte>> {
    match (f.ltype, v)
    case (Varint, Int(i)) => if IntSize(f.dataSize) && IsInt64(i) then Some(Encode(Unsigned64(i))) else None
    case (Uvarint, Int(i)) => if IntSize(f.dataSize) && 0 <= i < TWO_TO_64 then Some(Encode(i)) else None
    case (Svarint, Int(i)) => if IntSize(f.dataSize) && IsInt64(i) then Some(Encode(ZigZag(i))) else None
    case (Fixed32, _) => Some(LittleEndian(Word(v, TWO_TO_32), 4))
    case (Fixed64, _) => Some(LittleEndian(Word(v, TWO_TO_64), 8))
    case (Blob, Bytes(b)) => if BYTES_HEADER + |b| > f.dataSize then None else Some(Prefixed(b))
    case (Text, Chars(s)) => if |s| > f.dataSize then None else Some(Prefixed(s[..CLength(s)]))
    case (FixedBytes, Bytes(b)) => if |b| == f.dataSize then Some(Prefixed(b)) else None
    case _ => None
  }

  /** The bits of a fixed-size value, whatever they mean. */
  function Word(v: Val, m: nat): nat
    requires m > 0
  {
    if v.Int? then v.i % m else 0
  }

  predicate IsInt64(i: int) {
    -(TWO_TO_63 as int) <= i < TWO_TO_63
  }

  function EncVal(f: Field, v: Val): Option<seq<byte>>
    decreases f, 1
  {
    if f.ltype != Submessage then EncScalar(f, v)
    else if !f.ptr.Fields? || !v.Msg? then None
    else Sized(EncFrom(f.ptr.fields, v.slots, 0))
  }

  function EncTagged(f: Field, v: Val): Option<seq<byte>>
    decreases f, 2
  {
    Cat(Some(EncTag(WireType(f.ltype), f.tag)), EncVal(f, v))
  }

  function EncItems(f: Field, items: seq<Val>, k: nat): Option<seq<byte>>
    requires k <= |items|
    decreases f, 3, |items| - k
  {
    if k == |items| then Some([]) else Cat(EncVal(f, items[k]), EncItems(f, items, k + 1))
  }

  function EncEach(f: Field, items: seq<Val>, k: nat): Option<seq<byte>>
    requires k <= |items|
    decreases f, 3, |items| - k
  {
    if k == |items| then Some([]) else Cat(EncTagged(f, items[k]), EncEach(f, items, k + 1))
  }

  /** `encode_array`: packed when the type allows it. */
  function EncArray(f: Field, items: seq<Val>): Option<seq<byte>>
    decreases f, 4
  {
    if items == [] then Some([])
    else if |items| > f.arraySize then None
    else if Packable(f.ltype) then Cat(Some(EncTag(WT_STRING, f.tag)), Sized(EncItems(f, items, 0)))
    else EncEach(f, items, 0)
  }

  /** `pb_check_proto3_default_value`. */
  predicate IsDefault(f: Field, c: Cell)
    decreases f, 1
  {
    match c
    case Req(_) => false
    case Opt(has, _) => !has
    case Sing(v) => IsZero(f, v)
    case Rep(items) => items == []
    case One(which, _) => which == 0
  }

  predicate IsZero(f: Field, v: Val)
    decreases f, 0
  {
    match v
    case Int(i) => i == 0
    case Bytes(b) => if f.ltype == FixedBytes then f.dataSize == 0 else b == []
    case Chars(s) => CLength(s) == 0
    case Msg(slots) => f.ptr.Fields? && AllDefault(f.ptr.fields, slots, 0)
  }

  predicate AllDefault(d: seq<Field>, m: seq<Cell>, i: nat)
    requires i <= |d|
    decreases d, 2, |d| - i
  {
    i == |d| || (SlotOf(d, i) < |m| && IsDefault(d[i], m[SlotOf(d, i)]) && AllDefault(d, m, i + 1))
  }

  /** `encode_basic_field`. */
  function EncField(f: Field, c: Cell): Option<seq<byte>>
    decreases f, 5
  {
    match (f.htype, c)
    case (Required, Req(v)) => EncTagged(f, v)
    case (Optional, Opt(has, v)) => if has then EncTagged(f, v) else Some([])
    case (Optional, Sing(v)) => if IsZero(f, v) then Some([]) else EncTagged(f, v)
    case (Repeated, Rep(items)) => EncArray(f, items)
    case (Oneof, One(which, v)) => if which == f.tag then EncTagged(f, v) else Some([])
    case _ => None
  }

  /** `pb_encode` from field i on. */
  function EncFrom(d: seq<Field>, m: seq<Cell>, i: nat): Option<seq<byte>>
    requires i <= |d|
    decreases d, 6, |d| - i
  {
    if i == |d| then Some([])
    else if SlotOf(d, i) >= |m| then None
    else Cat(EncField(d[i], m[SlotOf(d, i)]), EncFrom(d, m, i + 1))
  }

  function EncMsg(d: seq<Field>, m: seq<Cell>): Option<seq<byte>> {
    EncFrom(d, m, 0)
  }

  // ---- decoding

  type Reading<T> = Option<(T, seq<byte>)>

  function Take(b: seq<byte>, n: nat): (r: Reading<seq<byte>>)
    ensures r.Some? ==> b == r.value.0 + r.value.1 && |r.value.0| == n
  {
    if |b| < n then None else Some((b[..n], b[n..]))
  }

  /** `pb_make_string_substream` followed by the close: the bytes of a length-delimited value. */
  function TakePrefixed(b: seq<byte>): (r: Reading<seq<byte>>)
    ensures r.Some? ==> |r.value.0| + |r.value.1| < |b|
  {
    match Decode32(b)
    case None => None
    case Some((size, rest)) => Take(rest, size)
  }

  function SkipVarint(b: seq<byte>): (r: Option<seq<byte>>)
    ensures r.Some? ==> |r.value| <= |b|
  {
    if b == [] then None else if b[0] >= 128 then SkipVarint(b[1..]) else Some(b[1..])
  }

  /** `pb_skip_field`. */
  function Skip(wt: nat, b: seq<byte>): (r: Option<seq<byte>>)
    ensures r.Some? ==> |r.value| <= |b|
  {
    if wt == WT_VARINT then SkipVarint(b)
    else if wt == WT_64BIT then if |b| < 8 then None else Some(b[8..])
    else if wt == WT_STRING then
      match TakePrefixed(b)
      case None => None
      case Some((_, rest)) => Some(rest)
    else if wt == WT_32BIT then if |b| < 4 then None else Some(b[4..])
    else None
  }

  function Signed32(v: nat): int {
    if v % TWO_TO_32 < TWO_TO_31 then v % TWO_TO_32 else v % TWO_TO_32 - TWO_TO_32
  }

  predicate FitsSigned(size: nat, i: int) {
    IntSize(size) && -(SignedMax(size) as int) <= i < SignedMax(size)
  }

  /** The `pb_dec_*` functions for values that are not submessages. */
  function DecScalar(f: Field, b: seq<byte>): (r: Reading<Val>)
    ensures r.Some? ==> |r.value.1| <= |b|
    ensures r.Some? && Packable(f.ltype) ==> |r.value.1| < |b|
  {
    match f.ltype
    case Varint =>
      (match Decode64(b)
       case None => None
       case Some((v, rest)) =>
         var i := if f.dataSize == 8 then Signed64(v) else Signed32(v);
         if FitsSigned(f.dataSize, i) then Some((Int(i), rest)) else None)
    case Uvarint =>
      (match Decode64(b)
       case None => None
       case Some((v, rest)) =>
         if IntSize(f.dataSize) && v < 2 * SignedMax(f.dataSize) then Some((Int(v), rest)) else None)
    case Svarint =>
      (match Decode64(b)
       case None => None
       case Some((v, rest)) => if FitsSigned(f.dataSize, UnZigZag(v)) then Some((Int(UnZigZag(v)), rest)) else None)
    case Fixed32 => DecFixed(b, 4)
    case Fixed64 => DecFixed(b, 8)
    case Blob => DecBlob(f, b)
    case Text => DecText(f, b)
    case FixedBytes => DecFixedBytes(f, b)
    case Submessage => None
  }

  function DecFixed(b: seq<byte>, n: nat): (r: Reading<Val>)
    ensures r.Some? ==> |r.value.1| + n == |b|
  {
    match Take(b, n)
    case None => None
    case Some((v, rest)) => Some((Int(FromLittleEndian(v)), rest))
  }

  function DecBlob(f: Field, b: seq<byte>): (r: Reading<Val>)
    ensures r.Some? ==> |r.value.1| <= |b|
  {
    match Decode32(b)
    case None => None
    case Some((size, rest)) =>
      if size > PB_SIZE_MAX || BYTES_HEADER + size > f.dataSize then None
      else
        match Take(rest, size)
        case None => None
        case Some((v, rest')) => Some((Bytes(v), rest'))
  }

  /** One more byte is needed for the NUL, and that sum is taken in 32 bits. */
  function DecText(f: Field, b: seq<byte>): (r: Reading<Val>)
    ensures r.Some? ==> |r.value.1| <= |b|
  {
    match Decode32(b)
    case None => None
    case Some((size, rest)) =>
      if size >= TWO_TO_32 - 1 || size + 1 > f.dataSize then None
      else
        match Take(rest, size)
        case None => None
        case Some((v, rest')) => Some((Chars(v), rest'))
  }

  /** An empty byte string stands for all zeros. */
  function DecFixedBytes(f: Field, b: seq<byte>): (r: Reading<Val>)
    ensures r.Some? ==> |r.value.1| <= |b|
  {
    match Decode32(b)
    case None => None
    case Some((size, rest)) =>
      if size > PB_SIZE_MAX then None
      else if size == 0 then Some((Bytes(seq(f.dataSize, _ => 0)), rest))
      else if size != f.dataSize then None
      else
        match Take(rest, size)
        case None => None
        case Some((v, rest')) => Some((Bytes(v), rest'))
  }

  function DecVal(f: Field, b: seq<byte>, prev: Val): (r: Reading<Val>)
    ensures r.Some? ==> |r.value.1| <= |b|
    decreases |b|, 1
  {
    if f.ltype != Submessage then DecScalar(f, b)
    else
      match TakePrefixed(b)
      case None => None
      case Some((body, rest)) =>
        match DecSub(f, body, prev)
        case None => None
        case Some(v) => Some((v, rest))
  }

  /** A submessage in an array starts from defaults, any other is merged into what is there. */
  function DecSub(f: Field, body: seq<byte>, prev: Val): Option<Val>
    decreases |body|, 8
  {
    if !f.ptr.Fields? then None
    else
      var d := f.ptr.fields;
      var start := if f.htype == Repeated then Msg(Defaults(d)) else prev;
      if !start.Msg? || |start.slots| != Slots(d, |d|) then None
      else
        match DecMsg(d, body, start.slots)
        case None => None
        case Some((m, _)) => Some(Msg(m))
  }

  function DecPacked(f: Field, b: seq<byte>, items: seq<Val>): Option<seq<Val>>
    requires Packable(f.ltype)
    decreases |b|
  {
    if b == [] then Some(items)
    else if |items| >= f.arraySize then None
    else
      match DecScalar(f, b)
      case None => None
      case Some((v, rest)) => DecPacked(f, rest, items + [v])
  }

  /** The array cases of `decode_static_field`: a packed run, or one more item. */
  function DecRepeated(f: Field, wt: nat, b: seq<byte>, items: seq<Val>): (r: Reading<seq<Val>>)
    ensures r.Some? ==> |r.value.1| <= |b|
    decreases |b|, 2
  {
    if wt == WT_STRING && Packable(f.ltype) then
      match TakePrefixed(b)
      case None => None
      case Some((body, rest)) =>
        match DecPacked(f, body, items)
        case None => None
        case Some(items') => Some((items', rest))
    else if |items| >= f.arraySize then None
    else
      match DecVal(f, b, Int(0))
      case None => None
      case Some((v, rest)) => Some((items + [v], rest))
  }

  /** `decode_static_field`. */
  function DecField(f: Field, wt: nat, b: seq<byte>, c: Cell): (r: Reading<Cell>)
    ensures r.Some? ==> |r.value.1| <= |b|
    decreases |b|, 3
  {
    match (f.htype, c)
    case (Required, Req(v)) =>
      (match DecVal(f, b, v) case None => None case Some((v', rest)) => Some((Req(v'), rest)))
    case (Optional, Opt(_, v)) =>
      (match DecVal(f, b, v) case None => None case Some((v', rest)) => Some((Opt(true, v'), rest)))
    case (Optional, Sing(v)) =>
      (match DecVal(f, b, v) case None => None case Some((v', rest)) => Some((Sing(v'), rest)))
    case (Repeated, Rep(items)) =>
      (match DecRepeated(f, wt, b, items) case None => None case Some((items', rest)) => Some((Rep(items'), rest)))
    case (Oneof, One(_, v)) =>
      var prev := if f.ltype == Submessage && f.ptr.Fields? then Msg(Defaults(f.ptr.fields)) else v;
      (match DecVal(f, b, prev) case None => None case Some((v', rest)) => Some((One(f.tag, v'), rest)))
    case _ => None
  }

  /** `pb_field_iter_find` on tags that are all different. An empty message ends in a descriptor
      whose tag is 0 at once, so tag 0 is found there; no descriptor has fields of tag 0. */
  function Find(d: seq<Field>, tag: nat): (r: Option<nat>)
    ensures r.Some? ==> r.value < |d| && d[r.value].tag == tag
    ensures r.None? ==> forall i :: 0 <= i < |d| ==> d[i].tag != tag
  {
    FindFrom(d, tag, 0)
  }

  function FindFrom(d: seq<Field>, tag: nat, i: nat): (r: Option<nat>)
    requires i <= |d|
    ensures r.Some? ==> i <= r.value < |d| && d[r.value].tag == tag
    ensures r.None? ==> forall j :: i <= j < |d| ==> d[j].tag != tag
    decreases |d| - i
  {
    if i == |d| then None else if d[i].tag == tag then Some(i) else FindFrom(d, tag, i + 1)
  }

  /** The bit of `fields_seen` that field i sets, if any. */
  function SeenBit(d: seq<Field>, i: nat): set<nat>
    requires i < |d|
  {
    if d[i].htype == Required && ReqCount(d, i) < PB_MAX_REQUIRED_FIELDS then {ReqCount(d, i)} else {}
  }

  datatype Progress = Progress(m: seq<Cell>, seen: set<nat>, rest: seq<byte>)

  /** The `while` loop of `pb_decode_noinit`; a zero tag ends it early. */
  function DecLoop(d: seq<Field>, b: seq<byte>, m: seq<Cell>, seen: set<nat>): (r: Option<Progress>)
    requires |m| == Slots(d, |d|)
    ensures r.Some? ==> |r.value.m| == Slots(d, |d|)
    decreases |b|, 4
  {
    if b == [] then Some(Progress(m, seen, []))
    else
      match Decode32(b)
      case None => None
      case Some((t, rest)) => if t == 0 then Some(Progress(m, seen, rest)) else DecOne(d, t, rest, m, seen)
  }

  /** One field of the wire after its tag word t, then the rest of the loop. */
  function DecOne(d: seq<Field>, t: nat, b: seq<byte>, m: seq<Cell>, seen: set<nat>): (r: Option<Progress>)
    requires |m| == Slots(d, |d|)
    ensures r.Some? ==> |r.value.m| == Slots(d, |d|)
    decreases |b|, 5
  {
    if d == [] && t / 8 == 0 then None
    else
      match Find(d, t / 8)
      case None =>
        (match Skip(t % 8, b)
         case None => None
         case Some(rest) => DecLoop(d, rest, m, seen))
      case Some(i) =>
        match DecField(d[i], t % 8, b, m[SlotOf(d, i)])
        case None => None
        case Some((c, rest)) => DecLoop(d, rest, m[SlotOf(d, i) := c], seen + SeenBit(d, i))
  }

  function Min(a: nat, b: nat): nat {
    if a < b then a else b
  }

  predicate AllSeen(d: seq<Field>, seen: set<nat>) {
    forall k :: 0 <= k < Min(ReqCount(d, |d|), PB_MAX_REQUIRED_FIELDS) ==> k in seen
  }

  /** `pb_decode_noinit`: the struct and the unread input. */
  function DecMsg(d: seq<Field>, b: seq<byte>, m: seq<Cell>): (r: Reading<seq<Cell>>)
    requires |m| == Slots(d, |d|)
    ensures r.Some? ==> |r.value.0| == Slots(d, |d|)
    decreases |b|, 6
  {
    match DecLoop(d, b, m, {})
    case None => None
    case Some(p) => if AllSeen(d, p.seen) then Some((p.m, p.rest)) else None
  }

  /** `pb_decode`. */
  function Decode(d: seq<Field>, b: seq<byte>): Reading<seq<Cell>> {
    DecMsg(d, b, Defaults(d))
  }
}
