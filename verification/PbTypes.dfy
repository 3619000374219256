/** Field descriptors and message structs of nanopb, with every field statically allocated.

    A struct is a sequence of slots. A plain field has a slot to itself; the members of a oneof are
    consecutive fields that share one slot, because in C they share a union and its `which_` field. */
module PbTypes {
  import opened Bytes
  import opened PbVarint

  /** `pb_size_t` has 32 bits: the build defines PB_FIELD_32BIT. */
  const PB_SIZE_MAX: nat := 0xFFFF_FFFF
  type pbsize = n: nat | n <= PB_SIZE_MAX

  const PB_MAX_REQUIRED_FIELDS: nat := 64
  /** The length field in front of the bytes of a `pb_bytes_array_t`. */
  const BYTES_HEADER: nat := 4

  datatype LType = Varint | Uvarint | Svarint | Fixed32 | Fixed64 | Blob | Text | Submessage | FixedBytes

  datatype HType = Required | Optional | Repeated | Oneof

  /** What `ptr` points to: nothing, the fields of a submessage, or a default value. */
  datatype Ptr = Null | Fields(fields: seq<Field>) | Default(v: Val)

  /** `hasSize` is `size_offset != 0`; `joins` is `data_offset == PB_SIZE_MAX`, a further member of a union. */
  datatype Field = Field(tag: pbsize, ltype: LType, htype: HType, hasSize: bool, joins: bool,
                         dataSize: pbsize, arraySize: pbsize, ptr: Ptr)

  datatype Val =
    | Int(i: int)
    | Bytes(b: seq<byte>)
    | Chars(s: seq<byte>) // a char array up to its last written byte, not counting the closing NUL
    | Msg(slots: seq<Cell>)

  datatype Cell =
    | Req(v: Val)
    | Opt(has: bool, v: Val)
    | Sing(v: Val)            // proto3: optional without a has_ field
    | Rep(items: seq<Val>)    // the first `_count` entries of the array
    | One(which: nat, v: Val) // the union of a oneof; its contents mean nothing while which is 0

  predicate Packable(t: LType) {
    t.Varint? || t.Uvarint? || t.Svarint? || t.Fixed32? || t.Fixed64?
  }

  /** The `data_size` values the integer codecs know. */
  predicate IntSize(n: nat) {
    n == 1 || n == 2 || n == 4 || n == 8
  }

  // ---- layout

  predicate Shares(d: seq<Field>, i: nat)
    requires i < |d|
  {
    i > 0 && d[i].htype == Oneof && d[i - 1].htype == Oneof && d[i].joins
  }

  /** Slots used by the first n fields. */
  function Slots(d: seq<Field>, n: nat): (k: nat)
    requires n <= |d|
    ensures k <= n
  {
    if n == 0 then 0 else Slots(d, n - 1) + if Shares(d, n - 1) then 0 else 1
  }

  /** Where the struct keeps field i. */
  function SlotOf(d: seq<Field>, i: nat): (s: nat)
    requires i < |d|
    ensures s < Slots(d, |d|)
  {
    SlotsPositive(d, i + 1);
    SlotsGrow(d, i + 1, |d|);
    Slots(d, i + 1) - 1
  }

  lemma {:induction false} SlotsPositive(d: seq<Field>, n: nat)
    requires 0 < n <= |d|
    ensures Slots(d, n) > 0
  {
    if n > 1 { SlotsPositive(d, n - 1); }
  }

  lemma {:induction false} SlotsGrow(d: seq<Field>, m: nat, n: nat)
    requires m <= n <= |d|
    ensures Slots(d, m) <= Slots(d, n)
  {
    if m < n { SlotsGrow(d, m, n - 1); }
  }

  /** Two fields in one slot are members of one oneof, as is everything between them. */
  lemma {:induction false} SameSlot(d: seq<Field>, i: nat, j: nat)
    requires i < j < |d| && SlotOf(d, i) == SlotOf(d, j)
    ensures d[i].htype == Oneof && d[j].htype == Oneof
  {
    SlotsGrow(d, i + 1, j);
    if j > i + 1 {
      SameSlot(d, i, j - 1);
    }
  }

  /** Required fields among the first n. */
  function ReqCount(d: seq<Field>, n: nat): (k: nat)
    requires n <= |d|
    ensures k <= n
  {
    if n == 0 then 0 else ReqCount(d, n - 1) + if d[n - 1].htype == Required then 1 else 0
  }

  lemma {:induction false} ReqCountGrows(d: seq<Field>, m: nat, n: nat)
    requires m <= n <= |d|
    ensures ReqCount(d, m) <= ReqCount(d, n)
  {
    if m < n { ReqCountGrows(d, m, n - 1); }
  }

  // ---- well-formed descriptors

  ghost predicate WellFormed(d: seq<Field>)
    decreases d, 1
  {
    && (forall i :: 0 <= i < |d| ==> WellFormedField(d[i]))
    && (forall i :: 0 <= i < |d| ==> d[i].joins ==> Shares(d, i))
    && DistinctTags(d)
  }

  ghost predicate DistinctTags(d: seq<Field>) {
    forall i, j :: 0 <= i < j < |d| ==> d[i].tag != d[j].tag
  }

  ghost predicate WellFormedField(f: Field)
    decreases f, 0
  {
    && f.tag > 0
    && (f.htype == Required ==> !f.hasSize)
    && (f.htype == Repeated || f.htype == Oneof ==> f.hasSize)
    && (f.ltype.Varint? || f.ltype.Uvarint? || f.ltype.Svarint? ==> IntSize(f.dataSize))
    && (if f.ltype == Submessage then f.ptr.Fields? && WellFormed(f.ptr.fields)
        else f.ptr == Null || (f.ptr.Default? && (f.htype == Optional ==> f.hasSize)))
  }

  // ---- values a C struct of the descriptor's type can hold

  function SignedMax(size: nat): nat {
    match size
    case 1 => 0x80
    case 2 => 0x8000
    case 4 => TWO_TO_31
    case _ => TWO_TO_63
  }

  ghost predicate TypedVal(f: Field, v: Val)
    decreases f, 1
  {
    match f.ltype
    case Varint => v.Int? && -(SignedMax(f.dataSize) as int) <= v.i < SignedMax(f.dataSize)
    case Svarint => v.Int? && -(SignedMax(f.dataSize) as int) <= v.i < SignedMax(f.dataSize)
    case Uvarint => v.Int? && 0 <= v.i < 2 * SignedMax(f.dataSize)
    case Fixed32 => v.Int? && 0 <= v.i < TWO_TO_32
    case Fixed64 => v.Int? && 0 <= v.i < TWO_TO_64
    case Blob => v.Bytes? && BYTES_HEADER + |v.b| <= f.dataSize
    case Text => v.Chars? && |v.s| < f.dataSize && 0 !in v.s
    case FixedBytes => v.Bytes? && |v.b| == f.dataSize
    case Submessage => v.Msg? && f.ptr.Fields? && TypedMsg(f.ptr.fields, v.slots)
  }

  /** Fields that are not set may hold anything. */
  ghost predicate TypedCell(f: Field, c: Cell)
    decreases f, 2
  {
    match f.htype
    case Required => c.Req? && TypedVal(f, c.v)
    case Optional => if f.hasSize then c.Opt? && (c.has ==> TypedVal(f, c.v)) else c.Sing? && TypedVal(f, c.v)
    case Repeated => c.Rep? && |c.items| <= f.arraySize && forall k :: 0 <= k < |c.items| ==> TypedVal(f, c.items[k])
    case Oneof => c.One? && (c.which == f.tag ==> TypedVal(f, c.v))
  }

  ghost predicate TypedMsg(d: seq<Field>, m: seq<Cell>)
    decreases d, 0
  {
    && |m| == Slots(d, |d|)
    && forall i :: 0 <= i < |d| ==> TypedCell(d[i], m[SlotOf(d, i)])
  }

  // ---- initial values

  /** `pb_field_set_to_default`: the cell of a field before anything is decoded into it. */
  function DefaultCell(f: Field): Cell
    decreases f, 1
  {
    match f.htype
    case Required => Req(DefaultVal(f))
    case Optional => if f.hasSize then Opt(false, DefaultVal(f)) else Sing(DefaultVal(f))
    case Repeated => Rep([])
    case Oneof => One(0, Int(0))
  }

  function DefaultVal(f: Field): Val
    decreases f, 0
  {
    match f.ptr
    case Fields(fields) => Msg(DefaultsUpTo(fields, |fields|))
    case Default(v) => v
    case Null =>
      match f.ltype
      case Blob => Bytes([])
      case Text => Chars([])
      case FixedBytes => Bytes(seq(f.dataSize, _ => 0))
      case _ => Int(0)
  }

  function DefaultsUpTo(d: seq<Field>, n: nat): (m: seq<Cell>)
    requires n <= |d|
    ensures |m| == Slots(d, n)
    decreases d, 2, n
  {
    if n == 0 then []
    else if Shares(d, n - 1) then DefaultsUpTo(d, n - 1)
    else DefaultsUpTo(d, n - 1) + [DefaultCell(d[n - 1])]
  }

  /** `pb_message_set_to_defaults`. */
  function Defaults(d: seq<Field>): (m: seq<Cell>)
    ensures |m| == Slots(d, |d|)
  {
    DefaultsUpTo(d, |d|)
  }

  lemma {:induction false} DefaultsAt(d: seq<Field>, n: nat, i: nat)
    requires i < n <= |d|
    ensures SlotOf(d, i) < Slots(d, n)
    ensures DefaultsUpTo(d, n)[SlotOf(d, i)] == DefaultCell(d[i])
  {
    SlotsGrow(d, i + 1, n);
    if i < n - 1 {
      DefaultsAt(d, n - 1, i);
    } else if Shares(d, i) {
      DefaultsAt(d, i, i - 1);
    }
  }
}
