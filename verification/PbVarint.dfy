/** Base 128 varints as nanopb reads and writes them: one encoder, a 64-bit decoder, and a
    32-bit decoder with its own overflow rules. */
module PbVarint {
  import opened Bytes

  const TWO_TO_31: nat := 0x8000_0000
  const TWO_TO_32: nat := 0x1_0000_0000
  const TWO_TO_63: nat := 0x8000_0000_0000_0000
  const TWO_TO_64: nat := 0x1_0000_0000_0000_0000

  /** The minimal encoding: seven bits a byte, lowest first, the top bit set on all but the last. */
  function Encode(v: nat): (b: seq<byte>)
    ensures |b| > 0
  {
    if v < 128 then [v] else [v % 128 + 128] + Encode(v / 128)
  }

  /** `pb_decode_varint`: the value and what is left of the input, or None on truncation and overflow. */
  function Decode64(b: seq<byte>): (r: Option<(nat, seq<byte>)>)
    ensures r.Some? ==> |r.value.1| < |b|
  {
    Loop64(b, 0, 0)
  }

  function Loop64(b: seq<byte>, result: nat, bitpos: nat): (r: Option<(nat, seq<byte>)>)
    ensures r.Some? ==> |r.value.1| < |b|
  {
    if bitpos >= 64 || b == [] then None
    else
      var next := BitOr(result, Shl(b[0] % 128, bitpos) % TWO_TO_64);
      if b[0] >= 128 then Loop64(b[1..], next, bitpos + 7) else Some((next, b[1..]))
  }

  /** `pb_decode_varint32_eof`; the position counter is eight bits wide and wraps. */
  function Decode32(b: seq<byte>): (r: Option<(nat, seq<byte>)>)
    ensures r.Some? ==> |r.value.1| < |b|
  {
    if b == [] then None
    else if b[0] < 128 then Some((b[0], b[1..]))
    else Loop32(b[1..], b[0] % 128, 7)
  }

  predicate Overflows32(x: byte, result: nat, bitpos: nat) {
    && bitpos >= 32
    && x % 128 != 0
    && (result / TWO_TO_31 == 0 || x != if bitpos < 63 then 0xFF else 0x01)
  }

  function Loop32(b: seq<byte>, result: nat, bitpos: nat): (r: Option<(nat, seq<byte>)>)
    ensures r.Some? ==> |r.value.1| < |b|
  {
    if b == [] || Overflows32(b[0], result, bitpos) then None
    else
      var next := if bitpos >= 32 then result else BitOr(result, Shl(b[0] % 128, bitpos) % TWO_TO_32);
      var bitpos' := (bitpos + 7) % 256;
      if b[0] >= 128 then Loop32(b[1..], next, bitpos')
      else if bitpos' == 35 && b[0] / 16 % 8 != 0 then None
      else Some((next, b[1..]))
  }

  /** `pb_encode_svarint`'s mapping of an int64 to a uint64. */
  function ZigZag(v: int): (z: nat)
    requires -(TWO_TO_63 as int) <= v < TWO_TO_63
    ensures z < TWO_TO_64
  {
    if v < 0 then TWO_TO_64 - 1 - (2 * (v + TWO_TO_64)) % TWO_TO_64 else 2 * v
  }

  /** `pb_decode_svarint`'s way back, read as a signed number. */
  function UnZigZag(z: nat): int {
    if z % 2 == 1 then Signed64(TWO_TO_64 - 1 - z / 2) else z / 2
  }

  /** A C cast to int64_t of a value below 2^64. */
  function Signed64(v: int): int {
    if v < TWO_TO_63 then v else v - TWO_TO_64
  }

  /** A C cast of an int64_t to uint64_t. */
  function Unsigned64(v: int): (u: int)
    ensures -(TWO_TO_63 as int) <= v < TWO_TO_63 ==> 0 <= u < TWO_TO_64
  {
    if v < 0 then v + TWO_TO_64 else v
  }

  // ---- one step of the encoder and of either loop

  /** The encoding of a long value: its low seven bits, then the encoding of the rest. */
  lemma Long(v: nat, p: nat, rest: seq<byte>) returns (lo: nat, hi: nat)
    requires v >= 128
    ensures lo < 128 && 0 < hi < v && v == lo + 128 * hi
    ensures Encode(v) + rest == [(lo + 128) as byte] + (Encode(hi) + rest)
    ensures |Encode(v)| == 1 + |Encode(hi)|
    ensures Shl(v, p) == Shl(lo, p) + Shl(hi, p + 7)
  {
    lo, hi := v % 128, v / 128;
    Split7(v, p);
  }

  lemma Short(v: nat, rest: seq<byte>)
    requires v < 128
    ensures Encode(v) + rest == [v as byte] + rest
  {
  }

  lemma Last64(v: nat, rest: seq<byte>, result: nat, p: nat)
    requires v < 128 && p < 64 && result < Shl(1, p) && result + Shl(v, p) < TWO_TO_64
    ensures Loop64(Encode(v) + rest, result, p) == Some((result + Shl(v, p), rest))
  {
    hide BitOr, Loop64, Loop32, Shl;
    Step64(v, rest, result, p);
  }

  lemma More64(lo: nat, b: seq<byte>, result: nat, p: nat)
    requires lo < 128 && p < 64 && result < Shl(1, p) && result + Shl(lo, p) < TWO_TO_64
    ensures Loop64([(lo + 128) as byte] + b, result, p) == Loop64(b, result + Shl(lo, p), p + 7)
    ensures result + Shl(lo, p) < Shl(1, p + 7)
  {
    hide BitOr, Loop64, Loop32, Encode, Shl;
    Step64(lo + 128, b, result, p);
    Grows(result, lo, p);
  }

  lemma Last32(v: nat, rest: seq<byte>, result: nat, p: nat)
    requires v < 128 && p < 32 && result < Shl(1, p)
    ensures Loop32(Encode(v) + rest, result, p)
      == if p == 28 && v >= 16 then None else Some(((result + Shl(v, p)) % TWO_TO_32, rest))
  {
    hide BitOr, Loop64, Loop32, Shl;
    Step32(v, rest, result, p);
  }

  lemma More32(lo: nat, b: seq<byte>, result: nat, p: nat)
    requires lo < 128 && p < 32 && result < Shl(1, p)
    ensures Loop32([(lo + 128) as byte] + b, result, p) == Loop32(b, (result + Shl(lo, p)) % TWO_TO_32, p + 7)
    ensures result + Shl(lo, p) < Shl(1, p + 7)
  {
    hide BitOr, Loop64, Loop32, Encode, Shl;
    Step32(lo + 128, b, result, p);
    Grows(result, lo, p);
  }

  lemma Step64(x: byte, b: seq<byte>, result: nat, p: nat)
    requires p < 64 && result < Shl(1, p)
    ensures var next := (result + Shl(x % 128, p)) % TWO_TO_64;
      Loop64([x] + b, result, p) == if x >= 128 then Loop64(b, next, p + 7) else Some((next, b))
  {
    hide BitOr, Shl;
    assert ([x] + b)[1..] == b;
    ShiftIn(result, x % 128, p, 64);
    Pow64();
  }

  lemma Step32(x: byte, b: seq<byte>, result: nat, p: nat)
    requires p < 32 && result < Shl(1, p)
    ensures var next := (result + Shl(x % 128, p)) % TWO_TO_32;
      Loop32([x] + b, result, p)
        == if x >= 128 then Loop32(b, next, p + 7)
           else if p == 28 && x >= 16 then None else Some((next, b))
  {
    hide BitOr, Shl;
    assert ([x] + b)[1..] == b;
    ShiftIn(result, x % 128, p, 32);
    Pow35();
    if x < 128 { assert x / 16 % 8 == x / 16; }
  }

  /** Or-ing seven more bits into a p-bit result adds them, truncated to the width of the word. */
  lemma ShiftIn(result: nat, x: nat, p: nat, width: nat)
    requires p <= width && result < Shl(1, p)
    ensures Shl(1, width) > 0
    ensures BitOr(result, Shl(x, p) % Shl(1, width)) == (result + Shl(x, p)) % Shl(1, width)
  {
    ShlLowClear(x, p);
    WordLowClear(width, p);
    LowClearMod(Shl(x, p), Shl(1, width), p);
    BitOrIsSum(result, Shl(x, p) % Shl(1, width), p);
    AddBelow(result, Shl(x, p), Shl(1, width));
  }

  lemma AddBelow(a: nat, y: nat, m: nat)
    requires m > 0 && a + y % m < m
    ensures a + y % m == (a + y) % m
  {
    assert a + y == (y / m) * m + (a + y % m);
    ModAdds(y / m, m, a + y % m);
  }

  lemma {:induction false} WordLowClear(width: nat, p: nat)
    requires p <= width
    ensures LowClear(Shl(1, width), p)
  {
    if p > 0 {
      WordLowClear(width - 1, p - 1);
      Half(Shl(1, width - 1));
    }
  }

  lemma Grows(result: nat, x: nat, p: nat)
    requires result < Shl(1, p) && x < 128
    ensures result + Shl(x, p) < Shl(1, p + 7)
  {
    ShlMono(x, 128, p);
    Shl7(1, p);
  }

  // ---- lengths

  lemma {:induction false} EncodeLength(v: nat, n: nat)
    requires n > 0 && v < Shl(1, 7 * n)
    ensures |Encode(v)| <= n
  {
    if v >= 128 {
      if n == 1 { Pow14(); assert false; }
      Shl7(1, 7 * (n - 1));
      var lo, hi := Long(v, 0, []);
      EncodeLength(hi, n - 1);
    }
  }

  /** Every 64-bit value takes at most ten bytes. */
  lemma AtMostTenBytes(v: nat)
    requires v < TWO_TO_64
    ensures |Encode(v)| <= 10
  {
    Pow70();
    EncodeLength(v, 10);
  }

  // ---- round trips

  lemma {:induction false} RoundTripFrom64(v: nat, result: nat, p: nat, rest: seq<byte>)
    requires p < 64 && p % 7 == 0 && result < Shl(1, p) && result + Shl(v, p) < TWO_TO_64
    ensures Loop64(Encode(v) + rest, result, p) == Some((result + Shl(v, p), rest))
  {
    hide BitOr, Loop64, Loop32, Encode, Shl;
    if v < 128 {
      Last64(v, rest, result, p);
    } else {
      var lo, hi := Long(v, p, rest);
      More64(lo, Encode(hi) + rest, result, p);
      if p == 63 { Pow70(); ShlMono(0, hi, 70); assert false; }
      RoundTripFrom64(hi, result + Shl(lo, p), p + 7, rest);
    }
  }

  /** Every 64-bit value survives encoding and the 64-bit decoder, whatever follows it. */
  lemma RoundTrip64(v: nat, rest: seq<byte>)
    requires v < TWO_TO_64
    ensures Decode64(Encode(v) + rest) == Some((v, rest))
  {
    RoundTripFrom64(v, 0, 0, rest);
  }

  /** Zigzag is undone exactly, over the whole int64 range. */
  lemma ZigZagRoundTrip(v: int)
    requires -(TWO_TO_63 as int) <= v < TWO_TO_63
    ensures UnZigZag(ZigZag(v)) == v
    ensures ZigZag(v) == if v < 0 then -2 * v - 1 else 2 * v
  {
    if v < 0 {
      assert (2 * (v + TWO_TO_64)) % TWO_TO_64 == 2 * v + TWO_TO_64;
    }
  }

  lemma {:induction false} RoundTripFrom32(v: nat, result: nat, p: nat, rest: seq<byte>)
    requires p % 7 == 0 && 7 <= p <= 28 && result < Shl(1, p) && result + Shl(v, p) < TWO_TO_32
    ensures Loop32(Encode(v) + rest, result, p) == Some((result + Shl(v, p), rest))
  {
    hide BitOr, Loop64, Loop32, Encode, Shl;
    if v < 128 {
      Last32(v, rest, result, p);
      if p == 28 && v >= 16 { SixteenAt28(v); assert false; }
    } else {
      var lo, hi := Long(v, p, rest);
      More32(lo, Encode(hi) + rest, result, p);
      if p == 28 { Pow35(); ShlMono(0, hi, 35); assert false; }
      RoundTripFrom32(hi, result + Shl(lo, p), p + 7, rest);
    }
  }

  lemma SixteenAt28(v: nat)
    requires v >= 16
    ensures Shl(v, 28) >= TWO_TO_32
  {
    ShlAdd(16, v - 16, 28);
    ShlSwap(16, 28);
    Pow28();
  }

  lemma {:induction false} ShlSwap(x: nat, p: nat)
    ensures Shl(x, p) == x * Shl(1, p)
  {
    if p > 0 { ShlSwap(x, p - 1); }
  }

  /** Tags and lengths: every value below 2^32 survives the 32-bit decoder. */
  lemma RoundTrip32(v: nat, rest: seq<byte>)
    requires v < TWO_TO_32
    ensures Decode32(Encode(v) + rest) == Some((v, rest))
  {
    if v < 128 {
      Short32(v, rest);
    } else {
      var lo, hi := First32(v, rest);
      RoundTripFrom32(hi, lo, 7, rest);
    }
  }

  lemma Short32(v: nat, rest: seq<byte>)
    requires v < 128
    ensures Decode32(Encode(v) + rest) == Some((v, rest))
  {
    assert (Encode(v) + rest)[1..] == rest;
  }

  /** What the 32-bit decoder does with the first byte of a long encoding. */
  lemma First32(v: nat, rest: seq<byte>) returns (lo: nat, hi: nat)
    requires v >= 128
    ensures lo < 128 && lo < Shl(1, 7) && 0 < hi && v == lo + 128 * hi == lo + Shl(hi, 7)
    ensures Decode32(Encode(v) + rest) == Loop32(Encode(hi) + rest, lo, 7)
  {
    hide BitOr, Loop32, Encode, Decode32;
    Pow14();
    lo, hi := Long(v, 0, rest);
    var x: byte := lo + 128;
    Head32(x, Encode(hi) + rest);
  }

  lemma Head32(x: byte, b: seq<byte>)
    requires x >= 128
    ensures Decode32([x] + b) == Loop32(b, x - 128, 7)
  {
    hide BitOr, Loop32;
    assert ([x] + b)[1..] == b;
  }

  // ---- the two decoders against each other

  lemma {:induction false} AgreeFrom(b: seq<byte>, r32: nat, r64: nat, p: nat)
    requires p % 7 == 0 && 7 <= p
    requires r64 < Shl(1, p) && r64 < TWO_TO_64 && r32 == r64 % TWO_TO_32
    requires Loop32(b, r32, p).Some? && Loop64(b, r64, p).Some?
    ensures Loop32(b, r32, p).value.0 == Loop64(b, r64, p).value.0 % TWO_TO_32
    ensures Loop32(b, r32, p).value.1 == Loop64(b, r64, p).value.1
  {
    hide BitOr, Shl, Loop32, Loop64;
    InsideWord(b, r64, p);
    var x, t := b[0], b[1..];
    assert b == [x] + t;
    Step64(x, t, r64, p);
    Grows(r64, x % 128, p);
    var next64 := (r64 + Shl(x % 128, p)) % TWO_TO_64;
    ModLeq(r64 + Shl(x % 128, p), TWO_TO_64);
    AgreeStep(x, t, r32, r64, p);
    if x >= 128 {
      AgreeFrom(t, next64 % TWO_TO_32, next64, p + 7);
    }
  }

  lemma InsideWord(b: seq<byte>, result: nat, p: nat)
    requires Loop64(b, result, p).Some?
    ensures b != [] && p < 64
  {
  }

  lemma ModLeq(a: nat, m: nat)
    requires m > 0
    ensures a % m <= a && a % m < m
  {
  }

  lemma AgreeStep(x: byte, t: seq<byte>, r32: nat, r64: nat, p: nat)
    requires 7 <= p < 64 && r64 < Shl(1, p) && r64 < TWO_TO_64 && r32 == r64 % TWO_TO_32
    requires Loop32([x] + t, r32, p).Some?
    ensures var next32 := (r64 + Shl(x % 128, p)) % TWO_TO_64 % TWO_TO_32;
      Loop32([x] + t, r32, p) == if x >= 128 then Loop32(t, next32, p + 7) else Some((next32, t))
  {
    hide BitOr, Shl, Loop32;
    var sum := r64 + Shl(x % 128, p);
    ModMod(sum);
    if p < 32 {
      ShlLeq(p, 32);
      Pow35();
      Step32(x, t, r32, p);
    } else {
      ShlSplit(x % 128, p - 32);
      AddMultiple(r64, Shl(x % 128, p - 32));
      BeyondWord(x, t, r32, p);
    }
  }

  lemma BeyondWord(x: byte, t: seq<byte>, result: nat, p: nat)
    requires 32 <= p < 64 && Loop32([x] + t, result, p).Some?
    ensures Loop32([x] + t, result, p) == if x >= 128 then Loop32(t, result, p + 7) else Some((result, t))
  {
    hide BitOr, Shl;
    assert ([x] + t)[1..] == t;
  }

  lemma ModMod(a: nat)
    ensures a % TWO_TO_64 % TWO_TO_32 == a % TWO_TO_32
  {
  }

  lemma AddMultiple(a: nat, k: nat)
    ensures (a + k * TWO_TO_32) % TWO_TO_32 == a % TWO_TO_32
  {
  }

  lemma {:induction false} ShlSplit(x: nat, q: nat)
    ensures Shl(x, q + 32) == Shl(x, q) * TWO_TO_32
  {
    if q == 0 {
      ShlSwap(x, 32);
      Pow35();
    } else {
      ShlSplit(x, q - 1);
    }
  }

  /** On inputs that both accept, the 32-bit result is the 64-bit one modulo 2^32, and both stop at the same byte. */
  lemma DecodersAgree(b: seq<byte>)
    requires Decode32(b).Some? && Decode64(b).Some?
    ensures Decode32(b).value.0 == Decode64(b).value.0 % TWO_TO_32
    ensures Decode32(b).value.1 == Decode64(b).value.1
  {
    hide BitOr, Loop32, Loop64;
    var x, t := b[0], b[1..];
    assert b == [x] + t;
    Step64(x, t, 0, 0);
    if x >= 128 {
      Pow14();
      Head32(x, t);
      AgreeFrom(t, x - 128, x - 128, 7);
    }
  }

  // ---- which wide values the 32-bit decoder takes

  /** From bit 35 on only padding and sign bits pass. */
  lemma HighStep(x: byte, b: seq<byte>, result: nat, p: nat)
    requires 35 <= p < 63
    ensures Loop32([x] + b, result, p)
         == if x == 0 then Some((result, b))
            else if x == 128 || (x == 255 && result / TWO_TO_31 != 0) then Loop32(b, result, p + 7)
            else None
  {
    assert ([x] + b)[1..] == b;
  }

  /** Past bit 35 a minimal encoding that ends before bit 63 is always refused. */
  lemma {:induction false} TailRefused(w: nat, result: nat, p: nat, rest: seq<byte>)
    requires w > 0 && p % 7 == 0 && 35 <= p < 63 && w < Shl(1, 63 - p)
    ensures Loop32(Encode(w) + rest, result, p).None?
  {
    hide BitOr, Loop64, Loop32, Encode, Shl;
    if w < 128 {
      Short(w, rest);
      HighStep(w, rest, result, p);
    } else {
      var lo, hi := Long(w, p, rest);
      HighStep(lo + 128, Encode(hi) + rest, result, p);
      if p == 56 { Pow14(); assert false; }
      Shl7(1, 56 - p);
      TailRefused(hi, result, p + 7, rest);
    }
  }

  lemma {:induction false} WideRefusedFrom(v: nat, result: nat, p: nat, rest: seq<byte>)
    requires p % 7 == 0 && 7 <= p <= 28 && result < Shl(1, p) && Shl(1, 32 - p) <= v < Shl(1, 63 - p)
    ensures Loop32(Encode(v) + rest, result, p).None?
  {
    hide BitOr, Loop64, Loop32, Encode, Shl;
    Shl7(1, 56 - p);
    if v < 128 {
      if p < 28 { Shl7(1, 25 - p); assert false; }
      Last32(v, rest, result, p);
      Pow4();
    } else {
      var lo, hi := Long(v, p, rest);
      More32(lo, Encode(hi) + rest, result, p);
      ModLeq(result + Shl(lo, p), TWO_TO_32);
      var next := (result + Shl(lo, p)) % TWO_TO_32;
      if p == 28 {
        TailRefused(hi, next, 35, rest);
      } else {
        Shl7(1, 25 - p);
        WideRefusedFrom(hi, next, p + 7, rest);
      }
    }
  }

  /** Minimal encodings of values in [2^32, 2^63) are refused by the 32-bit decoder. */
  lemma WideRefused32(v: nat, rest: seq<byte>)
    requires TWO_TO_32 <= v < TWO_TO_63
    ensures Decode32(Encode(v) + rest).None?
  {
    hide BitOr, Loop32, Decode32, Encode, Shl;
    var lo, hi := First32(v, rest);
    Pow35(); Pow64();
    Shl7(1, 25); Shl7(1, 56);
    WideRefusedFrom(hi, lo, 7, rest);
  }

  lemma {:induction false} NegativeHead(v: nat, result: nat, p: nat, rest: seq<byte>)
    requires p % 7 == 0 && 7 <= p <= 28 && result < Shl(1, p)
    requires TWO_TO_64 - TWO_TO_31 <= result + Shl(v, p) < TWO_TO_64
    ensures Loop32(Encode(v) + rest, result, p) == Some(((result + Shl(v, p)) % TWO_TO_32, rest))
  {
    hide BitOr, Loop64, Loop32, Encode, Shl;
    ShlLeq(p + 7, 35);
    Pow35();
    if v < 128 {
      Grows(result, v, p);
      assert false;
    }
    var lo, hi := Long(v, p, rest);
    More32(lo, Encode(hi) + rest, result, p);
    var result' := result + Shl(lo, p);
    if p == 28 {
      NegativeTop(hi, result');
      NegativeTail(result' % TWO_TO_32, rest);
    } else {
      ShlLeq(p + 7, 28);
      Pow28();
      NegativeHead(hi, result', p + 7, rest);
    }
  }

  /** The bits above the low 35 of a sign-extended int32 are all ones. */
  lemma NegativeTop(v: nat, result: nat)
    requires result < Shl(1, 35) && TWO_TO_64 - TWO_TO_31 <= result + Shl(v, 35) < TWO_TO_64
    ensures v == 0x1FFF_FFFF && TWO_TO_31 <= result % TWO_TO_32
    ensures (result + Shl(v, 35)) % TWO_TO_32 == result % TWO_TO_32
  {
    Pow35();
    ShlSwap(v, 35);
  }

  lemma NegativeTail(result: nat, rest: seq<byte>)
    requires TWO_TO_31 <= result < TWO_TO_32
    ensures Loop32(Encode(0x1FFF_FFFF) + rest, result, 35) == Some((result, rest))
  {
    AllOnesStep(1, result, 56, rest);
    AllOnesStep(0xFF, result, 49, rest);
    AllOnesStep(0x7FFF, result, 42, rest);
    AllOnesStep(0x3F_FFFF, result, 35, rest);
    SignByte(result, rest);
  }

  lemma SignByte(result: nat, rest: seq<byte>)
    requires TWO_TO_31 <= result
    ensures Loop32(Encode(1) + rest, result, 63) == Some((result, rest))
  {
    assert (Encode(1) + rest)[1..] == rest;
  }

  lemma AllOnesStep(v: nat, result: nat, p: nat, rest: seq<byte>)
    requires 0 < v && TWO_TO_31 <= result && 35 <= p <= 56
    ensures Loop32(Encode(128 * v + 127) + rest, result, p) == Loop32(Encode(v) + rest, result, p + 7)
  {
    var t := Encode(v) + rest;
    AllOnes(v);
    assert ([255 as byte] + Encode(v)) + rest == [255 as byte] + t;
    HighStep(255, t, result, p);
  }

  lemma AllOnes(v: nat)
    requires 0 < v
    ensures Encode(128 * v + 127) == [255 as byte] + Encode(v)
  {
    assert (128 * v + 127) / 128 == v && (128 * v + 127) % 128 == 127;
  }

  /** A negative int32 written as ten sign-extended bytes is accepted and truncated to its low 32 bits. */
  lemma NegativeInt32Accepted(v: nat, rest: seq<byte>)
    requires TWO_TO_64 - TWO_TO_31 <= v < TWO_TO_64
    ensures Decode32(Encode(v) + rest) == Some((v % TWO_TO_32, rest))
  {
    var lo, hi := First32(v, rest);
    NegativeHead(hi, lo, 7, rest);
  }

  // ---- exactly which accepted values are not what the 32-bit result says

  /** The seven-bit groups as a number, lowest first. */
  function Groups(b: seq<byte>): nat {
    if b == [] then 0 else b[0] % 128 + 128 * Groups(b[1..])
  }

  /** The bytes of one varint: all but the last have their top bit set. */
  predicate OneVarint(w: seq<byte>) {
    w != [] && w[|w| - 1] < 128 && forall k :: 0 <= k < |w| - 1 ==> w[k] >= 128
  }

  /** What both decoders read from bit p on, and how far the two can go. */
  lemma {:induction false} ReadFrom(b: seq<byte>, r32: nat, r64: nat, p: nat) returns (w: seq<byte>)
    requires p % 7 == 0 && 7 <= p && r64 < Shl(1, p) && r64 < TWO_TO_64 && r32 == r64 % TWO_TO_32
    requires Loop32(b, r32, p).Some? && Loop64(b, r64, p).Some?
    ensures OneVarint(w) && p + 7 * |w| <= 70
    ensures b == w + Loop64(b, r64, p).value.1
    ensures Loop64(b, r64, p).value.0 == r64 + Shl(Groups(w), p) < TWO_TO_64
    ensures p + 7 * |w| == 35 ==> w[|w| - 1] < 16
    ensures p + 7 * |w| == 70 ==> w[|w| - 1] <= 1
    decreases |b|
  {
    hide BitOr, Shl, Loop32, Loop64;
    InsideWord(b, r64, p);
    var x, t := b[0], b[1..];
    assert b == [x] + t;
    NoTruncation(x, t, r32, r64, p);
    Step64(x, t, r64, p);
    Grows(r64, x % 128, p);
    AgreeStep(x, t, r32, r64, p);
    var next := r64 + Shl(x % 128, p);
    InWord(next, TWO_TO_64);
    if x >= 128 {
      var v := ReadFrom(t, next % TWO_TO_32, next, p + 7);
      w := [x] + v;
      assert w[1..] == v;
      GroupsStep(x, v, p);
    } else {
      w := [x];
      assert w[1..] == [];
    }
  }

  lemma GroupsStep(x: byte, v: seq<byte>, p: nat)
    ensures Shl(Groups([x] + v), p) == Shl(x % 128, p) + Shl(Groups(v), p + 7)
  {
    var w := [x] + v;
    assert w[1..] == v;
    Shl7(Groups(v), p);
    ShlAdd(x % 128, 128 * Groups(v), p);
  }

  lemma InWord(a: nat, m: nat)
    requires a < m
    ensures a % m == a
  {
  }

  /** A group that is accepted fits: at bit 63 only a single bit is. */
  lemma NoTruncation(x: byte, t: seq<byte>, r32: nat, r64: nat, p: nat)
    requires p % 7 == 0 && 7 <= p && r64 < Shl(1, p) && r64 < TWO_TO_64
    requires Loop32([x] + t, r32, p).Some? && Loop64([x] + t, r64, p).Some?
    ensures p <= 63 && r64 + Shl(x % 128, p) < TWO_TO_64
    ensures p == 28 && x < 128 ==> x < 16
    ensures p == 63 ==> x <= 1
  {
    hide BitOr, Shl;
    assert ([x] + t)[1..] == t;
    if p == 63 {
      Pow64();
      assert x % 128 == 0 || x == 1;
      ShlSwap(x % 128, 63);
      if x >= 128 { assert false; }
    } else {
      Grows(r64, x % 128, p);
      ShlLeq(p + 7, 63);
      Pow64();
    }
  }

  /** The bytes that both decoders read from an input they accept, and the 64-bit value in them. */
  lemma BothRead(b: seq<byte>) returns (w: seq<byte>)
    requires Decode32(b).Some? && Decode64(b).Some?
    ensures OneVarint(w) && |w| <= 10 && b == w + Decode64(b).value.1 == w + Decode32(b).value.1
    ensures Decode64(b).value.0 == Groups(w) < TWO_TO_64
    ensures |w| == 5 ==> w[4] < 16
    ensures |w| == 10 ==> w[9] == 1 || w[9] == 0
  {
    hide BitOr, Loop32, Loop64, Shl;
    DecodersAgree(b);
    var x, t := b[0], b[1..];
    assert b == [x] + t;
    Pow14();
    OneShlZero();
    ShlZeroBits(x % 128);
    Step64(x, t, 0, 0);
    if x >= 128 {
      Head32(x, t);
      var v := ReadFrom(t, x - 128, x - 128, 7);
      w := [x] + v;
      assert w[1..] == v;
      GroupsStep(x, v, 0);
      ShlZeroBits(Groups(w));
    } else {
      w := [x];
      assert w[1..] == [];
    }
  }

  lemma ShlZeroBits(x: nat)
    ensures Shl(x, 0) == x
  {
  }

  /** The bytes say no more than 32 bits can: at most five of them; or nothing above bit 31; or a sign-extended
      negative int32 in all ten. */
  predicate Within32(w: seq<byte>) {
    || |w| <= 5
    || (w[4] / 16 % 8 == 0 && forall k :: 5 <= k < |w| ==> w[k] % 128 == 0)
    || (w[4] / 8 % 16 == 15 && w[5..] == [0xFF, 0xFF, 0xFF, 0xFF, 0x01])
  }

  /** On inputs that both decoders accept, the 64-bit value is an unsigned or a sign-extended 32-bit one, and so the
      same number as the 32-bit result, exactly if the bytes read say no more than 32 bits can. */
  lemma TrueIffWithin32(b: seq<byte>) returns (w: seq<byte>)
    requires Decode32(b).Some? && Decode64(b).Some?
    ensures b == w + Decode32(b).value.1 && OneVarint(w)
    ensures var v := Decode64(b).value.0; (v < TWO_TO_32 || v >= TWO_TO_64 - TWO_TO_31) <==> Within32(w)
  {
    hide Decode32, Decode64, Groups, Shl;
    w := BothRead(b);
    Pow28();
    Pow35();
    GroupsFit(w);
    if |w| < 5 {
      ShlLeq(7 * |w|, 28);
    } else {
      var high := w[5..];
      var low := FiveGroups(w);
      if |w| == 5 {
        NoGroups(high);
      } else {
        ZeroGroups(high);
        OneGroups(high);
        assert forall k :: 0 <= k < |high| ==> high[k] == w[k + 5];
        assert (forall k :: 5 <= k < |w| ==> w[k] % 128 == 0) <==>
          (forall k :: 0 <= k < |high| ==> high[k] % 128 == 0) by {
          assert forall k :: 5 <= k < |w| ==> w[k] == high[k - 5];
        }
        FifthBits(w[4]);
      }
    }
  }

  lemma NoGroups(w: seq<byte>)
    ensures w == [] ==> Groups(w) == 0
  {
  }

  lemma FifthBits(x: byte)
    ensures x / 16 % 8 == 0 <==> x % 128 < 16
    ensures x / 8 % 16 == 15 <==> x % 128 >= 120
  {
    var high, low := x / 128, x % 128;
    assert x == 128 * high + low;
    assert x / 16 == 8 * high + low / 16 && x / 8 == 16 * high + low / 8;
    assert low / 16 < 8 && low / 8 < 16;
  }

  lemma {:induction false} GroupsFit(w: seq<byte>)
    ensures Groups(w) < Shl(1, 7 * |w|)
  {
    if w == [] {
      OneShlZero();
    } else {
      GroupsFit(w[1..]);
      Shl7(1, 7 * |w| - 7);
    }
  }

  function FourGroups(a: nat, b: nat, c: nat, d: nat): nat {
    a % 128 + 128 * (b % 128 + 128 * (c % 128 + 128 * (d % 128)))
  }

  lemma FiveGroups(w: seq<byte>) returns (low: nat)
    requires |w| >= 5
    ensures low == FourGroups(w[0], w[1], w[2], w[3])
    ensures low < 0x1000_0000 && Groups(w) == low + 0x1000_0000 * (w[4] as nat % 128) + 0x8_0000_0000 * Groups(w[5..])
  {
    assert w[1..][1..] == w[2..] && w[2..][1..] == w[3..] && w[3..][1..] == w[4..] && w[4..][1..] == w[5..];
    low := FourGroups(w[0], w[1], w[2], w[3]);
    FirstGroup(w); FirstGroup(w[1..]); FirstGroup(w[2..]); FirstGroup(w[3..]); FirstGroup(w[4..]);
  }

  lemma FirstGroup(w: seq<byte>)
    requires w != []
    ensures Groups(w) == w[0] as nat % 128 + 128 * Groups(w[1..])
  {
  }

  /** The groups above bit 34 of a negative number. */
  lemma OneGroups(w: seq<byte>)
    requires OneVarint(w) && |w| <= 5
    ensures Groups(w) == 0x1FFF_FFFF <==> w == [0xFF, 0xFF, 0xFF, 0xFF, 0x01]
  {
    hide Groups;
    if |w| == 5 {
      var low := FiveGroups(w);
      NoGroups(w[5..]);
      assert w == [w[0], w[1], w[2], w[3], w[4]];
      forall k | 0 <= k < 4 ensures w[k] == 255 <==> w[k] % 128 == 127 {}
    } else {
      GroupsFit(w);
      Pow28();
      ShlLeq(7 * |w|, 28);
    }
  }

  lemma {:induction false} ZeroGroups(w: seq<byte>)
    ensures Groups(w) == 0 <==> forall k :: 0 <= k < |w| ==> w[k] % 128 == 0
  {
    if w != [] {
      ZeroGroups(w[1..]);
      if Groups(w) == 0 {
        forall k | 0 <= k < |w| ensures w[k] % 128 == 0 { if k > 0 { assert w[k] == w[1..][k - 1]; } }
      }
    }
  }

  /** Two that slip through: a padded encoding of 7 * 2^32 reads as 0, and the minimal encoding of 2^63 + 2^31 as
      2^31. */
  lemma TwoThatWrap()
    ensures Decode64([0x80, 0x80, 0x80, 0x80, 0xF0, 0x00]) == Some((7 * TWO_TO_32, []))
    ensures Decode32([0x80, 0x80, 0x80, 0x80, 0xF0, 0x00]) == Some((0, []))
    ensures Encode(TWO_TO_63 + TWO_TO_31) == [0x80, 0x80, 0x80, 0x80, 0x88, 0x80, 0x80, 0x80, 0x80, 0x01]
    ensures Decode32(Encode(TWO_TO_63 + TWO_TO_31)) == Some((TWO_TO_31, []))
  {
    hide Decode32, Decode64, Encode;
    PaddedEnd();
    ZeroGroups4([0xF0, 0x00]);
    assert [0x80, 0x80, 0x80, 0x80] + [0xF0 as byte, 0x00] == [0x80, 0x80, 0x80, 0x80, 0xF0, 0x00];
    var e: seq<byte> := [];
    var tail: seq<byte> := [0x80, 0x80, 0x80, 0x80, 0x01];
    MinimalEncoding();
    MinimalEnd();
    ZeroGroups4([0x88] + tail);
    assert [0x80, 0x80, 0x80, 0x80] + ([0x88] + tail) == [0x80, 0x80, 0x80, 0x80, 0x88, 0x80, 0x80, 0x80, 0x80, 0x01];
  }

  lemma MinimalEncoding()
    ensures Encode(TWO_TO_63 + TWO_TO_31) == [0x80, 0x80, 0x80, 0x80, 0x88, 0x80, 0x80, 0x80, 0x80, 0x01]
  {
    assert Encode(1) == [0x01];
    hide Encode;
    LowGroup(0, 1); LowGroup(0, 0x80); LowGroup(0, 0x4000); LowGroup(0, 0x20_0000);
    LowGroup(8, 0x1000_0000);
    LowGroup(0, 0x8_0000_0008); LowGroup(0, 0x400_0000_0400);
    LowGroup(0, 0x2_0000_0002_0000); LowGroup(0, 0x100_0000_0100_0000);
  }

  lemma LowGroup(low: nat, high: nat)
    requires low < 128 && high > 0
    ensures Encode(low + 128 * high) == [(low + 128) as byte] + Encode(high)
  {
    assert (low + 128 * high) / 128 == high && (low + 128 * high) % 128 == low;
  }

  lemma MinimalEnd()
    ensures Loop32([0x88] + [0x80, 0x80, 0x80, 0x80, 0x01], 0, 28) == Some((TWO_TO_31, []))
  {
    hide BitOr, Shl, Loop32, Loop64;
    var e: seq<byte> := [];
    var t1: seq<byte> := [0x01];
    var t2 := [0x80] + t1;
    var t3 := [0x80] + t2;
    var t4 := [0x80] + t3;
    var t5 := [0x80] + t4;
    assert t5 == [0x80, 0x80, 0x80, 0x80, 0x01];
    Pow28();
    ShlSwap(8, 28);
    Step32(0x88, t5, 0, 28);
    HighStep(0x80, t4, TWO_TO_31, 35); HighStep(0x80, t3, TWO_TO_31, 42);
    HighStep(0x80, t2, TWO_TO_31, 49); HighStep(0x80, t1, TWO_TO_31, 56);
    SignByte(TWO_TO_31, e);
    assert Encode(1) + e == t1;
  }

  /** Four empty groups bring both loops to bit 28. */
  lemma ZeroGroups4(b: seq<byte>)
    ensures Decode64([0x80, 0x80, 0x80, 0x80] + b) == Loop64(b, 0, 28)
    ensures Decode32([0x80, 0x80, 0x80, 0x80] + b) == Loop32(b, 0, 28)
  {
    hide Loop32, Loop64;
    var s4 := [0x80] + b;
    var s3 := [0x80] + s4;
    var s2 := [0x80] + s3;
    var s1 := [0x80] + s2;
    assert s1 == [0x80, 0x80, 0x80, 0x80] + b;
    ZeroGroup(b, 21); ZeroGroup(s4, 14); ZeroGroup(s3, 7); ZeroGroup(s2, 0);
    assert s1[1..] == s2;
  }

  lemma PaddedEnd()
    ensures Loop64([0xF0, 0x00], 0, 28) == Some((7 * TWO_TO_32, []))
    ensures Loop32([0xF0, 0x00], 0, 28) == Some((0, []))
  {
    hide BitOr, Shl, Loop32, Loop64;
    var e: seq<byte> := [];
    Pow28(); ShlSwap(112, 28); Pow35(); ShlZero(35);
    Step64(0xF0, [0x00] + e, 0, 28); Step32(0xF0, [0x00] + e, 0, 28);
    Step64(0x00, e, 7 * TWO_TO_32, 35);
    HighStep(0, e, 0, 35);
    assert [0xF0, 0x00] == [0xF0 as byte] + ([0x00] + e);
  }

  lemma ZeroGroup(b: seq<byte>, p: nat)
    requires p < 32
    ensures Loop64([0x80] + b, 0, p) == Loop64(b, 0, p + 7)
    ensures Loop32([0x80] + b, 0, p) == Loop32(b, 0, p + 7)
  {
    hide BitOr, Loop64, Loop32;
    ShlZero(p);
    var x: byte := 0x80;
    Step64(x, b, 0, p);
    Step32(x, b, 0, p);
  }

  // ---- reading does not look past what it consumes

  lemma {:induction false} Stable64(b: seq<byte>, more: seq<byte>, result: nat, p: nat)
    requires Loop64(b, result, p).Some?
    ensures Loop64(b + more, result, p) == Some((Loop64(b, result, p).value.0, Loop64(b, result, p).value.1 + more))
  {
    assert (b + more)[1..] == b[1..] + more;
    if b[0] >= 128 {
      Stable64(b[1..], more, BitOr(result, Shl(b[0] % 128, p) % TWO_TO_64), p + 7);
    }
  }

  lemma {:induction false} StableLoop32(b: seq<byte>, more: seq<byte>, result: nat, p: nat)
    requires Loop32(b, result, p).Some?
    ensures Loop32(b + more, result, p) == Some((Loop32(b, result, p).value.0, Loop32(b, result, p).value.1 + more))
  {
    assert (b + more)[1..] == b[1..] + more;
    if b[0] >= 128 {
      var next := if p >= 32 then result else BitOr(result, Shl(b[0] % 128, p) % TWO_TO_32);
      StableLoop32(b[1..], more, next, (p + 7) % 256);
    }
  }

  lemma Stable32(b: seq<byte>, more: seq<byte>)
    requires Decode32(b).Some?
    ensures Decode32(b + more) == Some((Decode32(b).value.0, Decode32(b).value.1 + more))
  {
    assert (b + more)[1..] == b[1..] + more;
    if b[0] >= 128 {
      StableLoop32(b[1..], more, b[0] % 128, 7);
    }
  }
}
