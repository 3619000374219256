/** The branch-free choice of the RSA premaster secret, section 7.4.7.1 of RFC 5246, against PKCS #1 decoding. */
module Premaster {
  import opened Bytes

  // ---- masks from words, without a branch

  const TRUE_W: bv64 := 0xFFFF_FFFF_FFFF_FFFF

  /** `constant_time_msb_w` */
  function MsbW(a: bv64): bv64 {
    0 - (a >> 63)
  }

  /** `constant_time_is_zero_w` */
  function IsZeroW(a: bv64): bv64 {
    MsbW(!a & (a - 1))
  }

  /** `constant_time_eq_w` */
  function EqW(a: bv64, b: bv64): bv64 {
    IsZeroW(a ^ b)
  }

  /** `constant_time_select_w` */
  function SelectW(mask: bv64, a: bv64, b: bv64): bv64 {
    (mask & a) | (!mask & b)
  }

  function Low8(a: bv64): bv8 {
    (a & 0xFF) as bv8
  }

  /** `constant_time_is_zero_8` */
  function IsZero8(a: bv8): bv8 {
    Low8(IsZeroW(a as bv64))
  }

  /** `constant_time_eq_8`, also on ints */
  function Eq8(a: bv8, b: bv8): bv8 {
    Low8(EqW(a as bv64, b as bv64))
  }

  /** `constant_time_select_8` */
  function Select8(mask: bv8, a: bv8, b: bv8): bv8 {
    Low8(SelectW(mask as bv64, a as bv64, b as bv64))
  }

  // ---- the top bit

  predicate Top(a: bv64) {
    a >= 0x8000_0000_0000_0000
  }

  lemma MsbWords(a: bv64)
    ensures MsbW(a) == if Top(a) then TRUE_W else 0
  {
  }

  lemma TopAnd(a: bv64, b: bv64)
    ensures Top(a & b) <==> Top(a) && Top(b)
  {
  }

  lemma TopNot(a: bv64)
    ensures Top(!a) <==> !Top(a)
  {
  }

  lemma TopPred(a: bv64)
    requires a != 0 && Top(a - 1)
    ensures Top(a)
  {
  }

  lemma ZeroWords(a: bv64)
    ensures IsZeroW(a) == if a == 0 then TRUE_W else 0
  {
    hide MsbW, Top;
    MsbWords(!a & (a - 1));
    if a == 0 {
      assert Top(!a & (a - 1)) by { AllOnes(); }
    } else {
      TopAnd(!a, a - 1);
      TopNot(a);
      if Top(a - 1) { TopPred(a); }
    }
  }

  lemma AllOnes()
    ensures Top(!(0 as bv64) & (0 - 1))
  {
  }

  lemma EqWords(a: bv64, b: bv64)
    ensures EqW(a, b) == if a == b then TRUE_W else 0
  {
    hide IsZeroW;
    ZeroWords(a ^ b);
    XorZero(a, b);
  }

  lemma XorZero(a: bv64, b: bv64)
    ensures a ^ b == 0 <==> a == b
  {
  }

  lemma SelectWords(a: bv64, b: bv64)
    ensures SelectW(TRUE_W, a, b) == a && SelectW(0, a, b) == b
  {
  }

  lemma Masks8(a: bv8, b: bv8)
    ensures IsZero8(a) == if a == 0 then 0xFF else 0
    ensures Eq8(a, b) == if a == b then 0xFF else 0
    ensures Select8(0xFF, a, b) == a && Select8(0, a, b) == b
  {
    hide IsZeroW, EqW;
    ZeroWords(a as bv64);
    EqWords(a as bv64, b as bv64);
    Widen(a, b);
    SelectBytes(a, b);
  }

  lemma Widen(a: bv8, b: bv8)
    ensures a as bv64 == b as bv64 <==> a == b
    ensures a as bv64 == 0 <==> a == 0
    ensures Low8(TRUE_W) == 0xFF && Low8(0) == 0
  {
  }

  lemma SelectBytes(a: bv8, b: bv8)
    ensures Select8(0xFF, a, b) == a && Select8(0, a, b) == b
  {
  }

  // ---- the choice

  const LENGTH: nat := 48 // SSL_MAX_MASTER_KEY_LENGTH

  /** PKCS #1 version 1.5 decoding, section 7.2.2 of RFC 3447: 00 02, at least eight bytes that are not zero, 00. */
  function Unpad(block: seq<bv8>): Option<seq<bv8>> {
    if |block| < 2 || block[0] != 0 || block[1] != 2 then None
    else
      var z := FirstZero(block, 2);
      if z == |block| || z < 10 then None else Some(block[z + 1..])
  }

  function FirstZero(block: seq<bv8>, from: nat): (z: nat)
    requires from <= |block|
    ensures from <= z <= |block| && (forall i :: from <= i < z ==> block[i] != 0) && (z < |block| ==> block[z] == 0)
    decreases |block| - from
  {
    if from == |block| || block[from] == 0 then from else FirstZero(block, from + 1)
  }

  /** What a server that may branch would do: the decrypted premaster, or the random one if anything is wrong. */
  function Chosen(block: seq<bv8>, random: seq<bv8>, major: bv8, minor: bv8): seq<bv8> {
    match Unpad(block)
    case None => random
    case Some(m) => if |m| == LENGTH && m[0] == major && m[1] == minor then m else random
  }

  /** What the mask stands for. */
  predicate Good(block: seq<bv8>, major: bv8, minor: bv8)
    requires |block| >= LENGTH + 11
  {
    var p := |block| - LENGTH;
    block[0] == 0 && block[1] == 2 && (forall i :: 2 <= i < p - 1 ==> block[i] != 0) && block[p - 1] == 0
    && block[p] == major && block[p + 1] == minor
  }

  lemma GoodIsUnpadded(block: seq<bv8>, random: seq<bv8>, major: bv8, minor: bv8)
    requires |block| >= LENGTH + 11
    ensures Chosen(block, random, major, minor) ==
      if Good(block, major, minor) then block[|block| - LENGTH..] else random
  {
    var p := |block| - LENGTH;
    if block[0] == 0 && block[1] == 2 {
      var z := FirstZero(block, 2);
      if Good(block, major, minor) { assert z == p - 1; }
    }
  }

  predicate IsMask(m: bv8, b: bool) {
    m == if b then 0xFF else 0
  }

  lemma AndMasks(m: bv8, b: bool, n: bv8, c: bool)
    requires IsMask(m, b) && IsMask(n, c)
    ensures IsMask(m & n, b && c) && IsMask(!n, !c)
  {
  }

  datatype Result = Failed | Secret(premaster: seq<bv8>)

  /** The RSA part of `do_read_client_key_exchange` after the decryption: the padding check and the selection. */
  method ReadPremaster(block: seq<bv8>, keySize: nat, random: seq<bv8>, clientVersion: bv16) returns (r: Result)
    requires |random| == LENGTH
    ensures |block| != keySize || |block| < 11 + LENGTH ==> r == Failed
    ensures |block| == keySize >= 11 + LENGTH ==>
      r == Secret(Chosen(block, random, (clientVersion >> 8) as bv8, (clientVersion & 0xFF) as bv8))
  {
    hide IsZero8, Eq8, Select8, Chosen;
    if |block| != keySize || |block| < 11 + LENGTH {
      return Failed;
    }
    var major, minor := (clientVersion >> 8) as bv8, (clientVersion & 0xFF) as bv8;
    var good := CheckPadding(block, major, minor);
    GoodIsUnpadded(block, random, major, minor);
    var premaster := Select(good, block, random, major, minor);
    r := Secret(premaster);
  }

  method CheckPadding(block: seq<bv8>, major: bv8, minor: bv8) returns (good: bv8)
    requires |block| >= LENGTH + 11
    ensures IsMask(good, Good(block, major, minor))
  {
    hide IsZero8, Eq8, IsMask;
    var paddingLen := |block| - LENGTH;
    good := Eq8(block[0], 0) & Eq8(block[1], 2);
    EqMask(block[0], 0); EqMask(block[1], 2);
    AndMasks(Eq8(block[0], 0), block[0] == 0, Eq8(block[1], 2), block[1] == 2);
    ghost var ok := block[0] == 0 && block[1] == 2;
    for i := 2 to paddingLen - 1
      invariant IsMask(good, ok) && (ok <==> block[0] == 0 && block[1] == 2 && forall k :: 2 <= k < i ==> block[k] != 0)
    {
      ZeroMask(block[i]);
      AndMasks(good, ok, IsZero8(block[i]), block[i] == 0);
      AndMasks(good, ok, !IsZero8(block[i]), block[i] != 0);
      good := good & !IsZero8(block[i]);
      ok := ok && block[i] != 0;
    }
    ZeroMask(block[paddingLen - 1]);
    AndMasks(good, ok, IsZero8(block[paddingLen - 1]), block[paddingLen - 1] == 0);
    good := good & IsZero8(block[paddingLen - 1]);
    ok := ok && block[paddingLen - 1] == 0;
    EqMask(block[paddingLen], major);
    AndMasks(good, ok, Eq8(block[paddingLen], major), block[paddingLen] == major);
    good := good & Eq8(block[paddingLen], major);
    ok := ok && block[paddingLen] == major;
    EqMask(block[paddingLen + 1], minor);
    AndMasks(good, ok, Eq8(block[paddingLen + 1], minor), block[paddingLen + 1] == minor);
    good := good & Eq8(block[paddingLen + 1], minor);
  }

  lemma EqMask(a: bv8, b: bv8)
    ensures IsMask(Eq8(a, b), a == b)
  {
    hide Eq8, IsZero8, Select8;
    Masks8(a, b);
  }

  lemma ZeroMask(a: bv8)
    ensures IsMask(IsZero8(a), a == 0)
  {
    hide Eq8, IsZero8, Select8;
    Masks8(a, a);
  }

  /** Each byte of the random premaster is replaced or kept under the mask. */
  method Select(good: bv8, block: seq<bv8>, random: seq<bv8>, ghost major: bv8, ghost minor: bv8)
      returns (premaster: seq<bv8>)
    requires |random| == LENGTH && |block| >= LENGTH + 11 && IsMask(good, Good(block, major, minor))
    ensures premaster == if Good(block, major, minor) then block[|block| - LENGTH..] else random
  {
    hide Select8, Good, IsMask;
    var paddingLen := |block| - LENGTH;
    ghost var b := Good(block, major, minor);
    var secret := new bv8[LENGTH](i => if 0 <= i < |random| then random[i] else 0);
    for i := 0 to secret.Length
      invariant forall k :: 0 <= k < secret.Length ==>
        secret[k] == if k < i && b then block[paddingLen + k] else random[k]
    {
      SelectMask(good, b, block[paddingLen + i], random[i]);
      secret[i] := Select8(good, block[paddingLen + i], secret[i]);
    }
    premaster := secret[..];
  }

  lemma SelectMask(m: bv8, b: bool, x: bv8, y: bv8)
    requires IsMask(m, b)
    ensures Select8(m, x, y) == if b then x else y
  {
    hide Select8;
    SelectBytes(x, y);
  }
}
