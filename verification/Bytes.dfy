/** Bytes, optional values and the little arithmetic on bits that the codecs share. */
module Bytes {

  type byte = x: int | 0 <= x < 256

  datatype Option<+T> = None | Some(value: T)

  /** x shifted left by p bits, unbounded. */
  function Shl(x: nat, p: nat): (y: nat)
    ensures y >= x
  {
    if p == 0 then x else 2 * Shl(x, p - 1)
  }

  /** The bitwise inclusive or of two non-negative numbers. */
  function BitOr(a: nat, b: nat): nat
    decreases a + b
  {
    if a == 0 then b
    else if b == 0 then a
    else 2 * BitOr(a / 2, b / 2) + (if a % 2 == 1 || b % 2 == 1 then 1 else 0)
  }

  /** The lowest p bits of y are clear. */
  predicate LowClear(y: nat, p: nat) {
    p == 0 || (y % 2 == 0 && LowClear(y / 2, p - 1))
  }

  /** Some bytes overwritten. */
  function Overwrite(data: seq<byte>, off: nat, body: seq<byte>): (r: seq<byte>)
    requires off + |body| <= |data|
    ensures |r| == |data|
  {
    data[..off] + body + data[off + |body|..]
  }

  // ---- shifting

  lemma {:induction false} ShlAdd(a: nat, b: nat, p: nat)
    ensures Shl(a + b, p) == Shl(a, p) + Shl(b, p)
  {
    if p > 0 { ShlAdd(a, b, p - 1); }
  }

  lemma {:induction false} ShlScale(x: nat, p: nat)
    ensures Shl(128 * x, p) == 128 * Shl(x, p)
  {
    if p > 0 { ShlScale(x, p - 1); }
  }

  lemma Shl7(x: nat, p: nat)
    ensures Shl(x, p + 7) == Shl(128 * x, p) == 128 * Shl(x, p)
  {
    assert Shl(x, p + 3) == 2 * Shl(x, p + 2) == 4 * Shl(x, p + 1) == 8 * Shl(x, p);
    assert Shl(x, p + 7) == 2 * Shl(x, p + 6) == 4 * Shl(x, p + 5) == 8 * Shl(x, p + 4) == 16 * Shl(x, p + 3);
    ShlScale(x, p);
  }

  lemma ShlMono(a: nat, b: nat, p: nat)
    requires a < b
    ensures Shl(a, p) + Shl(1, p) <= Shl(b, p)
  {
    ShlAdd(a, b - a, p);
    ShlAdd(1, b - a - 1, p);
  }

  /** A number splits into its low seven bits and the rest, seven places further up. */
  lemma Split7(v: nat, p: nat)
    ensures Shl(v, p) == Shl(v % 128, p) + Shl(v / 128, p + 7)
  {
    assert v == v % 128 + 128 * (v / 128);
    ShlAdd(v % 128, 128 * (v / 128), p);
    Shl7(v / 128, p);
  }

  // ---- powers of two that the word sizes need

  lemma Pow4()
    ensures Shl(1, 4) == 16
  {
    assert Shl(1, 2) == 4;
  }

  lemma Pow14()
    ensures Shl(1, 7) == 128 && Shl(1, 14) == 0x4000
  {
    Shl7(1, 7);
  }

  lemma Pow28()
    ensures Shl(1, 21) == 0x20_0000 && Shl(1, 28) == 0x1000_0000
  {
    Pow14(); Shl7(1, 14); Shl7(1, 21);
  }

  lemma Pow35()
    ensures Shl(1, 32) == 0x1_0000_0000 && Shl(1, 35) == 0x8_0000_0000
  {
    Pow28(); Shl7(1, 28);
  }

  lemma Pow64()
    ensures Shl(1, 63) == 0x8000_0000_0000_0000 && Shl(1, 64) == 0x1_0000_0000_0000_0000
  {
    Pow35(); Shl7(1, 35); Shl7(1, 42); Shl7(1, 49); Shl7(1, 56);
  }

  lemma Pow70()
    ensures Shl(1, 70) == 0x40_0000_0000_0000_0000
  {
    Pow64(); Shl7(1, 63);
  }

  lemma {:induction false} ShlLeq(p: nat, q: nat)
    requires p <= q
    ensures Shl(1, p) <= Shl(1, q)
  {
    if p < q { ShlLeq(p, q - 1); }
  }

  lemma {:induction false} ShlZero(p: nat)
    ensures Shl(0, p) == 0
  {
    if p > 0 { ShlZero(p - 1); }
  }

  lemma Half(z: nat)
    ensures 2 * z % 2 == 0 && 2 * z / 2 == z
  {
  }

  // ---- or-ing a shifted value into lower bits

  lemma {:induction false} ShlLowClear(x: nat, p: nat)
    ensures LowClear(Shl(x, p), p)
  {
    if p > 0 {
      ShlLowClear(x, p - 1);
      Half(Shl(x, p - 1));
    }
  }

  lemma {:induction false} BitOrIsSum(a: nat, y: nat, p: nat)
    requires a < Shl(1, p) && LowClear(y, p)
    ensures BitOr(a, y) == a + y
  {
    if a > 0 && y > 0 {
      BitOrIsSum(a / 2, y / 2, p - 1);
    }
  }

  lemma {:induction false} LowClearMod(y: nat, m: nat, p: nat)
    requires LowClear(y, p) && LowClear(m, p) && m > 0
    ensures LowClear(y % m, p)
    ensures y % m + Shl(1, p) <= m
  {
    if p > 0 {
      DoubleMod(y / 2, m / 2);
      LowClearMod(y / 2, m / 2, p - 1);
    }
  }

  lemma DoubleMod(y: nat, m: nat)
    requires m > 0
    ensures 2 * y % (2 * m) == 2 * (y % m)
  {
    var q, r := y / m, y % m;
    assert 2 * y == q * (2 * m) + 2 * r;
    ModAdds(q, 2 * m, 2 * r);
  }

  lemma ModAdds(q: nat, m: nat, r: nat)
    requires r < m
    ensures (q * m + r) % m == r
  {
    var n := q * m + r;
    SameRemainder(q, n / m, m, r, n % m);
  }

  lemma SameRemainder(q: int, q': int, m: nat, r: nat, r': nat)
    requires r < m && r' < m && q * m + r == q' * m + r'
    ensures r == r'
  {
    assert (q - q') * m == r' - r;
    assert (q' - q) * m == r - r';
    if q > q' {
      AtLeast(q - q', m);
    } else if q < q' {
      AtLeast(q' - q, m);
    }
  }

  lemma AtLeast(k: int, m: nat)
    requires k >= 1
    ensures k * m >= m
  {
  }

  // ---- single bits

  predicate HasBit(w: nat, i: nat) {
    if i == 0 then w % 2 == 1 else HasBit(w / 2, i - 1)
  }

  lemma {:induction false} ZeroHasNone(i: nat)
    ensures !HasBit(0, i)
  {
    if i > 0 { ZeroHasNone(i - 1); }
  }

  lemma {:induction false} OnlyBit(i: nat, j: nat)
    ensures HasBit(Shl(1, i), j) <==> i == j
  {
    if i == 0 {
      if j > 0 { ZeroHasNone(j - 1); }
    } else {
      Half(Shl(1, i - 1));
      if j > 0 { OnlyBit(i - 1, j - 1); }
    }
  }

  /** Or-ing in one bit sets that bit and no other. */
  lemma {:induction false} OrSetsBit(w: nat, i: nat, j: nat)
    ensures HasBit(BitOr(w, Shl(1, i)), j) <==> HasBit(w, j) || i == j
  {
    hide HasBit, BitOr, Shl;
    if w == 0 {
      OnlyBit(i, j);
      ZeroHasNone(j);
      OrZero(Shl(1, i));
    } else if i == 0 {
      OrOne(w);
      if j > 0 { UpperBits(BitOr(w, Shl(1, 0)), w, j); } else { LowestBit(w); LowestBit(BitOr(w, Shl(1, 0))); }
    } else {
      OrHalves(w, Shl(1, i - 1));
      ShlTwice(i);
      if j > 0 {
        OrSetsBit(w / 2, i - 1, j - 1);
        NextBit(w, j);
        NextBit(BitOr(w, Shl(1, i)), j);
      } else {
        LowestBit(w);
        LowestBit(BitOr(w, Shl(1, i)));
      }
    }
  }

  lemma OrZero(b: nat)
    ensures BitOr(0, b) == b
  {
  }

  lemma OrOne(w: nat)
    requires w > 0
    ensures var r := BitOr(w, Shl(1, 0)); r / 2 == w / 2 && r % 2 == 1
  {
    assert BitOr(w / 2, 0) == w / 2;
  }

  lemma OrHalves(w: nat, h: nat)
    requires w > 0 && h > 0
    ensures var r := BitOr(w, 2 * h); r / 2 == BitOr(w / 2, h) && r % 2 == w % 2
  {
    Half(h);
  }

  lemma ShlTwice(i: nat)
    requires i > 0
    ensures Shl(1, i) == 2 * Shl(1, i - 1)
  {
  }

  lemma LowestBit(w: nat)
    ensures HasBit(w, 0) <==> w % 2 == 1
  {
  }

  lemma NextBit(w: nat, j: nat)
    requires j > 0
    ensures HasBit(w, j) == HasBit(w / 2, j - 1)
  {
  }

  lemma UpperBits(v: nat, w: nat, j: nat)
    requires j > 0 && v / 2 == w / 2
    ensures HasBit(v, j) == HasBit(w, j)
  {
    NextBit(v, j);
    NextBit(w, j);
  }

  /** A number with all of its lowest n bits set and no other is 2^n - 1, and the other way round. */
  lemma {:induction false} LowOnes(w: nat, n: nat)
    requires w < Shl(1, n)
    ensures w == Shl(1, n) - 1 <==> LowBits(w, n)
  {
    hide HasBit, Shl;
    if n == 0 {
      OneShlZero();
    } else {
      ShlTwice(n);
      assert w == 2 * (w / 2) + w % 2;
      LowOnes(w / 2, n - 1);
      LowestBit(w);
      if LowBits(w, n) {
        assert HasBit(w, 0);
        forall j | 0 <= j < n - 1 ensures HasBit(w / 2, j) {
          assert HasBit(w, j + 1);
          NextBit(w, j + 1);
        }
      } else {
        var j :| 0 <= j < n && !HasBit(w, j);
        if j > 0 { NextBit(w, j); }
      }
    }
  }

  predicate LowBits(w: nat, n: nat) {
    forall j :: 0 <= j < n ==> HasBit(w, j)
  }

  lemma OneShlZero()
    ensures Shl(1, 0) == 1
  {
  }

  /** Without bits from n up, a number is below 2^n. */
  lemma {:induction false} HighClear(w: nat, n: nat, width: nat)
    requires n <= width && w < Shl(1, width) && forall j :: n <= j < width ==> !HasBit(w, j)
    ensures w < Shl(1, n)
  {
    hide HasBit, Shl;
    if n < width {
      TopBit(w, width);
      HighClear(w, n, width - 1);
    }
  }

  lemma {:induction false} TopBit(w: nat, width: nat)
    requires width > 0 && w < Shl(1, width) && !HasBit(w, width - 1)
    ensures w < Shl(1, width - 1)
  {
    ShlTwice(width);
    if width > 1 {
      ShlTwice(width - 1);
      TopBit(w / 2, width - 1);
    }
  }
}
