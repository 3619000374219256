/** One incoming DTLS handshake message and the bit mask of what has arrived of it. */
module Reassembly {
  import opened Bytes
  import opened DtlsWire

  // ---- bits of a mask byte

  /** `1u << k` */
  function Shift1(k: nat): bv32
    requires k <= 8
  {
    match k
    case 0 => 1
    case 1 => 2
    case 2 => 4
    case 3 => 8
    case 4 => 16
    case 5 => 32
    case 6 => 64
    case 7 => 128
    case 8 => 256
  }

  function Low8(x: bv32): bv8 {
    (x & 0xFF) as bv8
  }

  predicate Bit(x: bv8, j: nat)
    requires j < 8
  {
    x & Low8(Shift1(j)) != 0
  }

  /** `bit_range`: the bits from start up to but not including end. */
  function BitRange(start: nat, end: nat): bv8
    requires start <= 8 && end <= 8
  {
    Low8(!(Shift1(start) - 1) & (Shift1(end) - 1))
  }

  lemma BelowBits(k: nat, j: nat)
    requires k <= 8 && j < 8
    ensures Bit(Low8(Shift1(k) - 1), j) <==> j < k
    ensures Bit(Low8(!(Shift1(k) - 1)), j) <==> k <= j
  {
  }

  lemma AndBits(x: bv32, y: bv32, j: nat)
    requires j < 8
    ensures Bit(Low8(x & y), j) <==> Bit(Low8(x), j) && Bit(Low8(y), j)
  {
    hide Low8, Bit;
    LowOfAnd(x, y);
    AndBits8(Low8(x), Low8(y), j);
  }

  lemma LowOfAnd(x: bv32, y: bv32)
    ensures Low8(x & y) == Low8(x) & Low8(y)
  {
  }

  lemma AndBits8(x: bv8, y: bv8, j: nat)
    requires j < 8
    ensures Bit(x & y, j) <==> Bit(x, j) && Bit(y, j)
  {
  }

  lemma OrBits8(x: bv8, y: bv8, j: nat)
    requires j < 8
    ensures Bit(x | y, j) <==> Bit(x, j) || Bit(y, j)
  {
  }

  lemma RangeBits(start: nat, end: nat, j: nat)
    requires start <= 8 && end <= 8 && j < 8
    ensures Bit(BitRange(start, end), j) <==> start <= j < end
  {
    hide Low8, Bit, Shift1;
    AndBits(!(Shift1(start) - 1), Shift1(end) - 1, j);
    BelowBits(start, j);
    BelowBits(end, j);
  }

  lemma FullByte(j: nat)
    requires j < 8
    ensures Bit(0xFF, j) && !Bit(0, j)
  {
  }

  /** A byte is its bits. */
  lemma ByteIsBits(x: bv8, y: bv8)
    requires forall j :: 0 <= j < 8 ==> Bit(x, j) == Bit(y, j)
    ensures x == y
  {
    assert Bit(x, 0) == Bit(y, 0) && Bit(x, 1) == Bit(y, 1) && Bit(x, 2) == Bit(y, 2) && Bit(x, 3) == Bit(y, 3);
    assert Bit(x, 4) == Bit(y, 4) && Bit(x, 5) == Bit(y, 5) && Bit(x, 6) == Bit(y, 6) && Bit(x, 7) == Bit(y, 7);
  }

  // ---- the mask as a whole

  /** Byte i of the message has arrived. */
  predicate Has(mask: seq<bv8>, i: nat)
    requires i / 8 < |mask|
  {
    Bit(mask[i / 8], i % 8)
  }

  /** Mask byte b after marking from bit sr of byte sb up to bit er of byte eb. */
  function MarkByte(x: bv8, b: nat, sb: nat, sr: nat, eb: nat, er: nat): bv8
    requires sr < 8 && er < 8
  {
    if b < sb || b > eb then x
    else if sb == eb then x | BitRange(sr, er)
    else if b == sb then x | BitRange(sr, 8)
    else if b < eb then 0xFF
    else if er != 0 then x | BitRange(0, er)
    else x
  }

  lemma MarkByteBits(x: bv8, b: nat, sb: nat, sr: nat, eb: nat, er: nat, j: nat)
    requires sr < 8 && er < 8 && j < 8 && 8 * sb + sr < 8 * eb + er
    ensures Bit(MarkByte(x, b, sb, sr, eb, er), j) <==> Bit(x, j) || 8 * sb + sr <= 8 * b + j < 8 * eb + er
  {
    hide Bit, BitRange;
    if b < sb || b > eb {
    } else if sb == eb {
      OrBits8(x, BitRange(sr, er), j);
      RangeBits(sr, er, j);
    } else if b == sb {
      OrBits8(x, BitRange(sr, 8), j);
      RangeBits(sr, 8, j);
    } else if b < eb {
      FullByte(j);
    } else {
      OrBits8(x, BitRange(0, er), j);
      RangeBits(0, er, j);
    }
  }

  lemma MarkedBits(before: seq<bv8>, after: seq<bv8>, start: nat, end: nat, i: nat)
    requires start < end && |after| == |before| && i / 8 < |before|
    requires forall b :: 0 <= b < |before| ==>
      after[b] == MarkByte(before[b], b, start / 8, start % 8, end / 8, end % 8)
    ensures Has(after, i) <==> Has(before, i) || start <= i < end
  {
    hide Bit, MarkByte;
    MarkByteBits(before[i / 8], i / 8, start / 8, start % 8, end / 8, end % 8, i % 8);
  }

  /** The mask covers the message and its last byte has no bits beyond it. */
  ghost predicate Covers(mask: seq<bv8>, len: nat) {
    |mask| == (len + 7) / 8 && forall i :: len <= i < 8 * |mask| ==> !Has(mask, i)
  }

  predicate AllMarked(mask: seq<bv8>, len: nat)
    requires |mask| == (len + 7) / 8
  {
    forall i :: 0 <= i < len ==> Has(mask, i)
  }

  lemma FullByteMeans(mask: seq<bv8>, b: nat)
    requires b < |mask|
    ensures mask[b] == 0xFF <==> forall i :: 8 * b <= i < 8 * b + 8 ==> Has(mask, i)
  {
    hide Bit;
    if mask[b] == 0xFF {
      forall i | 8 * b <= i < 8 * b + 8 ensures Has(mask, i) { FullByte(i % 8); }
    } else {
      if forall i :: 8 * b <= i < 8 * b + 8 ==> Has(mask, i) {
        forall j | 0 <= j < 8 ensures Bit(mask[b], j) == Bit(0xFF, j) {
          FullByte(j);
          assert Has(mask, 8 * b + j);
        }
        ByteIsBits(mask[b], 0xFF);
      }
    }
  }

  /** Bit j of byte b stands for byte 8 b + j of the message. */
  lemma BitIsHas(mask: seq<bv8>, b: nat, j: nat)
    requires b < |mask| && j < 8
    ensures Bit(mask[b], j) == Has(mask, 8 * b + j)
  {
    hide Bit;
    assert (8 * b + j) / 8 == b && (8 * b + j) % 8 == j;
  }

  lemma PartByteMeans(mask: seq<bv8>, b: nat, r: nat)
    requires 0 < r < 8 && Covers(mask, 8 * b + r)
    ensures b < |mask|
    ensures mask[b] == BitRange(0, r) <==> forall i :: 8 * b <= i < 8 * b + r ==> Has(mask, i)
  {
    hide Bit, BitRange, Has;
    forall j: nat | j < 8 ensures Bit(mask[b], j) == Has(mask, 8 * b + j) && (Bit(BitRange(0, r), j) <==> j < r) {
      BitIsHas(mask, b, j);
      RangeBits(0, r, j);
    }
    if forall i :: 8 * b <= i < 8 * b + r ==> Has(mask, i) {
      forall j: nat | j < 8 ensures Bit(mask[b], j) == Bit(BitRange(0, r), j) {
        assert Has(mask, 8 * b + j) <==> j < r;
      }
      ByteIsBits(mask[b], BitRange(0, r));
    } else {
      var i :| 8 * b <= i < 8 * b + r && !Has(mask, i);
      assert !Bit(mask[b], i - 8 * b) && Bit(BitRange(0, r), i - 8 * b);
    }
  }

  // ---- an incoming message

  /** What a fragment buffer holds: the body so far and which of its bytes have arrived. */
  datatype Slot = Slot(typ: byte, seqNo: nat, data: seq<byte>, have: set<nat>)

  ghost predicate Complete(s: Slot) {
    forall i :: 0 <= i < |s.data| ==> i in s.have
  }

  /** n positions from lo. */
  function Span(lo: nat, n: nat): (s: set<nat>)
    ensures forall i :: i in s <==> lo <= i < lo + n
  {
    if n == 0 then {} else Span(lo, n - 1) + {lo + n - 1}
  }

  lemma Overwritten(a: seq<byte>, off: nat, body: seq<byte>, b: seq<byte>)
    requires |a| == |b| && off + |body| <= |a|
    requires forall k :: 0 <= k < |a| ==> b[k] == if off <= k < off + |body| then body[k - off] else a[k]
    ensures b == Overwrite(a, off, body)
  {
  }

  /** A message of which nothing has arrived. Memory not yet written reads as zeros here. */
  function Blank(h: Header): Slot {
    Slot(h.typ, h.seqNo, seq(h.msgLen, _ => 0), {})
  }

  class HmFragment {
    const typ: byte
    const seqNo: nat
    const msgLen: nat
    const data: array<byte>       // header and body
    var reassembly: array?<bv8>   // null once the message is complete

    ghost predicate Valid()
      reads this, if reassembly == null then {} else {reassembly}
    {
      && data.Length == HEADER + msgLen
      && (reassembly != null ==> Covers(reassembly[..], msgLen) && !AllMarked(reassembly[..], msgLen))
    }

    ghost function Arrived(): set<nat>
      requires Valid()
      reads this, if reassembly == null then {} else {reassembly}
    {
      set i | 0 <= i < msgLen && (reassembly == null || Has(reassembly[..], i))
    }

    ghost function View(): Slot
      requires Valid()
      reads this, data, if reassembly == null then {} else {reassembly}
    {
      Slot(typ, seqNo, data[HEADER..], Arrived())
    }

    /** The mask is gone exactly when every byte has arrived. */
    lemma CompleteIffFreed()
      requires Valid()
      ensures reassembly == null <==> Complete(View())
    {
      hide Has;
      if reassembly != null {
        var i :| 0 <= i < msgLen && !Has(reassembly[..], i);
        assert i !in Arrived();
      }
    }

    /** `dtls1_hm_fragment_new`: an empty message needs no mask. */
    constructor New(h: Header)
      ensures Valid() && typ == h.typ && seqNo == h.seqNo && msgLen == h.msgLen
      ensures fresh(data) && (reassembly != null ==> fresh(reassembly))
      ensures View() == Blank(h)
    {
      typ, seqNo, msgLen := h.typ, h.seqNo, h.msgLen;
      var header := PutHeader(Header(h.typ, h.msgLen, h.seqNo, 0, h.msgLen));
      data := new byte[HEADER + h.msgLen](i => if 0 <= i < |header| then header[i] else 0);
      var mask: array?<bv8> := null;
      if h.msgLen > 0 {
        mask := new bv8[(h.msgLen + 7) / 8](_ => 0);
      }
      reassembly := mask;
      new;
      if reassembly != null {
        NoneMarked(reassembly[..], msgLen);
      }
      assert Arrived() == {};
      assert data[HEADER..] == seq(msgLen, _ => 0);
    }

    /** The `memcpy` of a fragment's body. */
    method CopyBody(off: nat, body: seq<byte>)
      requires Valid() && off + |body| <= msgLen
      modifies data
      ensures Valid() && Arrived() == old(Arrived())
      ensures data[HEADER..] == Overwrite(old(data[HEADER..]), off, body)
    {
      ghost var before := data[..];
      for i := 0 to |body|
        invariant forall k :: 0 <= k < data.Length ==>
          data[k] == if HEADER + off <= k < HEADER + off + i then body[k - HEADER - off] else before[k]
      {
        data[HEADER + off + i] := body[i];
      }
      assert old(data[HEADER..]) == before[HEADER..];
      Overwritten(before[HEADER..], off, body, data[HEADER..]);
    }

    /** `dtls1_hm_fragment_mark`. Out of range, or with no mask, it does nothing. */
    method Mark(start: nat, end: nat)
      requires Valid()
      modifies this`reassembly, reassembly
      ensures Valid() && (reassembly != null ==> reassembly == old(reassembly))
      ensures Arrived() == old(Arrived()) + if start <= end <= msgLen then Span(start, end - start) else {}
    {
      if reassembly == null || start > end || end > msgLen {
        return;
      }
      if start == end {
        return;
      }
      var mask: array<bv8> := reassembly;
      ghost var before := mask[..];
      SetBits(mask, start, end);
      Arriving(before, mask[..], msgLen, start, end);
      var full := IsFull(mask, msgLen);
      if full {
        reassembly := null;
      }
    }
  }

  /** Sets the bits from start up to end, in the first, the middle and the last mask byte. */
  method SetBits(mask: array<bv8>, start: nat, end: nat)
    requires start < end <= 8 * mask.Length
    modifies mask
    ensures forall b :: 0 <= b < mask.Length ==>
      mask[b] == MarkByte(old(mask[b]), b, start / 8, start % 8, end / 8, end % 8)
  {
    hide BitRange, MarkByte;
    var sb, eb := start / 8, end / 8;
    SetBitsFrom(mask, sb, start % 8, eb, end % 8);
  }

  method SetBitsFrom(mask: array<bv8>, sb: nat, sr: nat, eb: nat, er: nat)
    requires sr < 8 && er < 8 && 8 * sb + sr < 8 * eb + er <= 8 * mask.Length
    modifies mask
    ensures forall b :: 0 <= b < mask.Length ==> mask[b] == MarkByte(old(mask[b]), b, sb, sr, eb, er)
  {
    hide BitRange;
    if sb == eb {
      mask[sb] := mask[sb] | BitRange(sr, er);
    } else {
      mask[sb] := mask[sb] | BitRange(sr, 8);
      for i := sb + 1 to eb
        invariant forall b :: 0 <= b < mask.Length ==>
          mask[b] == if b == sb then old(mask[sb]) | BitRange(sr, 8) else if sb < b < i then 0xFF else old(mask[b])
      {
        mask[i] := 0xFF;
      }
      if er != 0 {
        mask[eb] := mask[eb] | BitRange(0, er);
      }
    }
  }

  /** The completeness check: whole bytes, then the bits of the last one. */
  method IsFull(mask: array<bv8>, len: nat) returns (full: bool)
    requires Covers(mask[..], len)
    ensures full == AllMarked(mask[..], len)
  {
    hide Has, BitRange;
    for i := 0 to len / 8
      invariant forall k :: 0 <= k < 8 * i ==> Has(mask[..], k)
    {
      FullByteMeans(mask[..], i);
      if mask[i] != 0xFF {
        return false;
      }
    }
    if len % 8 != 0 {
      PartByteMeans(mask[..], len / 8, len % 8);
      if mask[len / 8] != BitRange(0, len % 8) {
        return false;
      }
    }
    full := true;
  }

  lemma NoneMarked(mask: seq<bv8>, len: nat)
    requires len > 0 && |mask| == (len + 7) / 8 && forall b :: 0 <= b < |mask| ==> mask[b] == 0
    ensures Covers(mask, len) && forall i :: 0 <= i < len ==> !Has(mask, i)
    ensures !AllMarked(mask, len)
  {
    hide Bit;
    forall i: nat | i < 8 * |mask| ensures !Has(mask, i) { FullByte(i % 8); }
    assert !Has(mask, 0);
  }

  /** The mask still covers the message, and marks what it marked and the new range. */
  lemma Arriving(before: seq<bv8>, after: seq<bv8>, len: nat, start: nat, end: nat)
    requires Covers(before, len) && |after| == |before| && start < end <= len
    requires forall b :: 0 <= b < |before| ==>
      after[b] == MarkByte(before[b], b, start / 8, start % 8, end / 8, end % 8)
    ensures Covers(after, len)
    ensures forall i :: 0 <= i < len ==> (Has(after, i) <==> Has(before, i) || start <= i < end)
  {
    hide Has, MarkByte;
    forall i: nat | i < 8 * |before| ensures Has(after, i) <==> Has(before, i) || start <= i < end {
      MarkedBits(before, after, start, end, i);
    }
  }
}
