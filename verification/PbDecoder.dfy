/** The message decoder, refining PbCodec: submessage substreams, packed runs, the field iterator,
    the default values and the words of required-field bits. */
module PbDecoder {
  import opened Bytes
  import opened PbVarint
  import opened PbTypes
  import opened PbCodec
  import opened PbIterator
  import opened PbInput

  // ---- `fields_seen`

  const WORD: nat := 32
  const ALL_BITS: nat := 0xFFFF_FFFF

  /** Bit k of the two 32-bit words. */
  predicate Bit(words: seq<nat>, k: nat)
    requires |words| == 2 && k < PB_MAX_REQUIRED_FIELDS
  {
    HasBit(words[k / WORD], k % WORD)
  }

  ghost predicate Tracks(words: seq<nat>, seen: set<nat>) {
    && |words| == 2 && words[0] < TWO_TO_32 && words[1] < TWO_TO_32
    && (forall k :: 0 <= k < PB_MAX_REQUIRED_FIELDS ==> (k in seen <==> Bit(words, k)))
  }

  lemma NothingSeen()
    ensures Tracks([0, 0], {})
  {
    hide HasBit;
    forall k: nat | k < PB_MAX_REQUIRED_FIELDS ensures !Bit([0, 0], k) { ZeroHasNone(k % WORD); }
  }

  method MarkSeen(words: array<nat>, k: nat, ghost seen: set<nat>)
    requires k < PB_MAX_REQUIRED_FIELDS && Tracks(words[..], seen)
    modifies words
    ensures Tracks(words[..], seen + {k})
  {
    hide HasBit, BitOr, Shl;
    ghost var before := words[..];
    var tmp := Shl(1, k % WORD);
    words[k / WORD] := BitOr(words[k / WORD], tmp);
    Marked(before, k, words[..], seen);
  }

  lemma Marked(a: seq<nat>, k: nat, b: seq<nat>, seen: set<nat>)
    requires k < PB_MAX_REQUIRED_FIELDS && Tracks(a, seen)
    requires b == a[k / WORD := BitOr(a[k / WORD], Shl(1, k % WORD))]
    ensures Tracks(b, seen + {k})
  {
    hide HasBit, BitOr, Shl;
    Pow35();
    BelowWord(k % WORD);
    OrBits(a[k / WORD], Shl(1, k % WORD), 32);
    forall j: nat | j < PB_MAX_REQUIRED_FIELDS ensures j in seen + {k} <==> Bit(b, j) {
      OrSetsBit(a[k / WORD], k % WORD, j % WORD);
    }
  }

  lemma BelowWord(i: nat)
    requires i < 32
    ensures Shl(1, i) < Shl(1, 32)
  {
    hide Shl;
    ShlLeq(i + 1, 32);
    ShlTwice(i + 1);
  }

  /** The words are complete up to n bits, checked a whole word at a time and then the rest. */
  method CheckSeen(words: array<nat>, n: nat, ghost seen: set<nat>) returns (ok: bool)
    requires Tracks(words[..], seen) && n <= PB_MAX_REQUIRED_FIELDS && forall k :: k in seen ==> k < n
    ensures ok <==> forall k :: 0 <= k < n ==> k in seen
  {
    hide HasBit, Shl;
    for i := 0 to n / WORD
      invariant forall k :: 0 <= k < i * WORD ==> k in seen
    {
      WordBits(words[..], i, seen);
      FullWord(words[i], i * WORD, seen);
      if words[i] != ALL_BITS {
        return false;
      }
    }
    if n % WORD != 0 {
      WordBits(words[..], n / WORD, seen);
      PartWord(words[n / WORD], n / WORD * WORD, n % WORD, seen);
      if words[n / WORD] != Shl(1, n % WORD) - 1 {
        return false;
      }
    }
    ok := true;
  }

  /** Word i holds the bits from 32 i on. */
  ghost predicate Holds(w: nat, base: nat, seen: set<nat>) {
    w < TWO_TO_32 && forall j :: 0 <= j < 32 ==> (HasBit(w, j) <==> base + j in seen)
  }

  lemma WordBits(words: seq<nat>, i: nat, seen: set<nat>)
    requires i < 2 && Tracks(words, seen)
    ensures Holds(words[i], i * WORD, seen)
  {
    hide HasBit;
    forall j | 0 <= j < 32 ensures HasBit(words[i], j) <==> i * WORD + j in seen {
      assert Bit(words, i * WORD + j) == HasBit(words[i], j);
    }
  }

  lemma FullWord(w: nat, base: nat, seen: set<nat>)
    requires Holds(w, base, seen)
    ensures w == ALL_BITS <==> forall k :: base <= k < base + 32 ==> k in seen
  {
    hide HasBit, Shl;
    Pow35();
    LowOnes(w, 32);
    LowMeansSeen(w, base, 32, seen);
  }

  lemma PartWord(w: nat, base: nat, r: nat, seen: set<nat>)
    requires r < 32 && Holds(w, base, seen) && forall k :: k in seen ==> k < base + r
    ensures w == Shl(1, r) - 1 <==> forall k :: base <= k < base + r ==> k in seen
  {
    hide HasBit, Shl;
    Pow35();
    HighClear(w, r, 32);
    LowOnes(w, r);
    LowMeansSeen(w, base, r, seen);
  }

  lemma LowMeansSeen(w: nat, base: nat, r: nat, seen: set<nat>)
    requires r <= 32 && Holds(w, base, seen)
    ensures LowBits(w, r) <==> forall k :: base <= k < base + r ==> k in seen
  {
    hide HasBit;
    if LowBits(w, r) {
      forall k | base <= k < base + r ensures k in seen { assert HasBit(w, k - base); }
    } else {
      var j :| 0 <= j < r && !HasBit(w, j);
      assert base + j !in seen;
    }
  }

  // ---- initial values

  /** `pb_message_set_to_defaults` */
  method SetToDefaults(d: seq<Field>) returns (m: seq<Cell>)
    ensures m == Defaults(d)
    decreases d, 0
  {
    hide DefaultCell, Slots, Shares;
    m := [];
    if |d| == 0 {
      return;
    }
    var iter := new FieldIter.Begin(d);
    var more := true;
    while more
      invariant iter.Valid() && iter.fields == d && fresh(iter)
      invariant m == DefaultsUpTo(d, if more then iter.pos else |d|)
      decreases more, |d| - iter.pos
    {
      var cell := FieldDefault(d[iter.pos]);
      NextDefault(d, iter.pos);
      m := if iter.slot < |m| then m[iter.slot := cell] else m + [cell];
      more := iter.Next();
    }
  }

  /** A further member of a oneof resets the slot that is reset already. */
  lemma NextDefault(d: seq<Field>, i: nat)
    requires i < |d|
    ensures var m, s, c := DefaultsUpTo(d, i), SlotOf(d, i), DefaultCell(d[i]);
      DefaultsUpTo(d, i + 1) == if s < |m| then m[s := c] else m + [c]
  {
    if Shares(d, i) {
      DefaultsAt(d, i, i - 1);
      assert DefaultsUpTo(d, i)[SlotOf(d, i)] == DefaultCell(d[i]);
    }
  }

  /** `pb_field_set_to_default` */
  method FieldDefault(f: Field) returns (c: Cell)
    ensures c == DefaultCell(f)
    decreases f, 1
  {
    hide DefaultsUpTo;
    match f.htype
    case Repeated => c := Rep([]);
    case Oneof => c := One(0, Int(0));
    case _ =>
      var v;
      if f.ptr.Fields? {
        var m := SetToDefaults(f.ptr.fields);
        v := Msg(m);
      } else {
        v := DefaultVal(f);
      }
      c := if f.htype == Required then Req(v) else if f.hasSize then Opt(false, v) else Sing(v);
  }

  // ---- the number of required fields

  /** Walks the iterator to the end of the descriptor from wherever it stands. */
  method CountRequired(iter: FieldIter) returns (count: nat)
    requires iter.Valid()
    modifies iter
    ensures count == ReqCount(iter.fields, |iter.fields|)
  {
    if |iter.fields| == 0 {
      return 0;
    }
    var last := iter.fields[iter.pos];
    count := iter.requiredIndex;
    var more := iter.Next();
    while more
      invariant iter.Valid()
      invariant last == iter.fields[if more then iter.pos - 1 else |iter.fields| - 1]
      invariant more ==> iter.pos > 0
      invariant count == ReqCount(iter.fields, if more then iter.pos - 1 else |iter.fields| - 1)
      decreases more, |iter.fields| - iter.pos
    {
      count := iter.requiredIndex;
      last := iter.fields[iter.pos];
      more := iter.Next();
    }
    if last.htype == Required {
      count := count + 1;
    }
  }

  // ---- values, fields, messages

  ghost predicate Sound(f: Field) {
    f.ptr.Fields? ==> WellFormed(f.ptr.fields)
  }

  lemma FieldsSound(d: seq<Field>, i: nat)
    requires WellFormed(d) && i < |d|
    ensures Sound(d[i])
  {
    assert WellFormedField(d[i]);
  }

  /** The table of the decoders. */
  method DecodeValue(s: IStream, f: Field, prev: Val) returns (ok: bool, v: Val)
    requires s.Valid() && Sound(f)
    modifies s
    ensures s.Valid() && s.End() <= old(s.End()) && (ok ==> s.End() == old(s.End()))
    ensures ok == DecVal(f, old(s.Input()), prev).Some?
    ensures ok ==> DecVal(f, old(s.Input()), prev).value == (v, s.Input())
    decreases s.left, 1
  {
    hide DecScalar, TakePrefixed, DecSub, WellFormed;
    if f.ltype != Submessage {
      ok, v := DecodeScalar(s, f);
      return;
    }
    v := prev;
    var sub;
    ok, sub := MakeSubstream(s);
    if ok {
      ok, v := DecodeSubmessage(sub, f, prev);
      CloseSubstream(s, sub);
    }
  }

  /** `pb_dec_submessage`, inside its substream. */
  method DecodeSubmessage(sub: IStream, f: Field, prev: Val) returns (ok: bool, v: Val)
    requires sub.Valid() && Sound(f)
    modifies sub
    ensures sub.Valid() && sub.End() <= old(sub.End()) && (ok ==> sub.End() == old(sub.End()))
    ensures ok == DecSub(f, old(sub.Input()), prev).Some? && (ok ==> v == DecSub(f, old(sub.Input()), prev).value)
    decreases sub.left, 8
  {
    hide DecMsg, WellFormed, DefaultsUpTo, Slots;
    v := prev;
    if !f.ptr.Fields? {
      return false, v;
    }
    var m;
    if f.htype == Repeated {
      m := SetToDefaults(f.ptr.fields);
    } else if prev.Msg? && |prev.slots| == Slots(f.ptr.fields, |f.ptr.fields|) {
      m := prev.slots;
    } else {
      return false, v;
    }
    ok, m := DecodeMessage(sub, f.ptr.fields, m);
    v := Msg(m);
  }

  /** The packed branch of `decode_static_field`: items until the substream is empty or the array is full. */
  method DecodePackedRun(sub: IStream, f: Field, items: seq<Val>) returns (ok: bool, all: seq<Val>)
    requires sub.Valid() && Packable(f.ltype)
    modifies sub
    ensures sub.Valid() && sub.End() <= old(sub.End()) && (ok ==> sub.End() == old(sub.End()))
    ensures ok == DecPacked(f, old(sub.Input()), items).Some?
    ensures ok ==> DecPacked(f, old(sub.Input()), items).value == all
  {
    hide DecScalar;
    all := items;
    ghost var whole := DecPacked(f, sub.Input(), items);
    ok := true;
    while sub.left > 0 && |all| < f.arraySize && ok
      invariant sub.Valid() && sub.End() == old(sub.End())
      invariant if ok then whole == DecPacked(f, sub.Input(), all) else whole.None?
      decreases ok, sub.left
    {
      var v;
      ok, v := DecodeScalar(sub, f);
      if ok {
        all := all + [v];
      }
    }
    ok := ok && sub.left == 0; // else "array overflow"
  }

  method DecodeRepeated(s: IStream, f: Field, wt: nat, items: seq<Val>) returns (ok: bool, all: seq<Val>)
    requires s.Valid() && Sound(f)
    modifies s
    ensures s.Valid() && s.End() <= old(s.End()) && (ok ==> s.End() == old(s.End()))
    ensures ok == DecRepeated(f, wt, old(s.Input()), items).Some?
    ensures ok ==> DecRepeated(f, wt, old(s.Input()), items).value == (all, s.Input())
    decreases s.left, 2
  {
    hide DecVal, TakePrefixed, DecPacked;
    all := items;
    if wt == WT_STRING && Packable(f.ltype) {
      var sub;
      ok, sub := MakeSubstream(s);
      if ok {
        ok, all := DecodePackedRun(sub, f, items);
        CloseSubstream(s, sub);
      }
    } else if |items| >= f.arraySize {
      ok := false;
    } else {
      var v;
      ok, v := DecodeValue(s, f, Int(0));
      all := items + [v];
    }
  }

  /** `decode_static_field` */
  method DecodeField(s: IStream, f: Field, wt: nat, c: Cell) returns (ok: bool, cell: Cell)
    requires s.Valid() && Sound(f)
    modifies s
    ensures s.Valid() && s.End() <= old(s.End()) && (ok ==> s.End() == old(s.End()))
    ensures ok == DecField(f, wt, old(s.Input()), c).Some?
    ensures ok ==> DecField(f, wt, old(s.Input()), c).value == (cell, s.Input())
    decreases s.left, 3
  {
    hide DecVal, DecRepeated, Defaults;
    cell := c;
    var w: Val;
    match (f.htype, c)
    case (Required, Req(v)) =>
      ok, w := DecodeValue(s, f, v);
      cell := Req(w);
    case (Optional, Opt(_, v)) =>
      ok, w := DecodeValue(s, f, v);
      cell := Opt(true, w);
    case (Optional, Sing(v)) =>
      ok, w := DecodeValue(s, f, v);
      cell := Sing(w);
    case (Repeated, Rep(items)) =>
      var all;
      ok, all := DecodeRepeated(s, f, wt, items);
      cell := Rep(all);
    case (Oneof, One(_, v)) =>
      var start := v;
      if f.ltype == Submessage && f.ptr.Fields? {
        var m := SetToDefaults(f.ptr.fields);
        start := Msg(m);
      }
      ok, w := DecodeValue(s, f, start);
      cell := One(f.tag, w);
    case _ => ok := false;
  }

  ghost predicate Below(d: seq<Field>, seen: set<nat>) {
    forall k :: k in seen ==> k < Min(ReqCount(d, |d|), PB_MAX_REQUIRED_FIELDS)
  }

  lemma BitBelow(d: seq<Field>, i: nat, seen: set<nat>)
    requires i < |d| && Below(d, seen)
    ensures Below(d, seen + SeenBit(d, i))
  {
    ReqCountGrows(d, i + 1, |d|);
  }

  lemma FindIs(d: seq<Field>, i: nat, tag: nat)
    requires WellFormed(d) && i < |d| && d[i].tag == tag
    ensures Find(d, tag) == Some(i)
  {
    hide WellFormedField, Shares;
  }

  /** One turn of the loop of `pb_decode_noinit`, after the tag word t. */
  method DecodeOneField(s: IStream, d: seq<Field>, t: nat, m: seq<Cell>, iter: FieldIter, words: array<nat>,
      ghost seen: set<nat>)
    returns (ok: bool, m': seq<Cell>, ghost seen': set<nat>)
    requires s.Valid() && WellFormed(d) && |m| == Slots(d, |d|)
    requires iter.Valid() && iter.fields == d && Tracks(words[..], seen) && Below(d, seen)
    modifies s, iter, words
    ensures s.Valid() && s.End() <= old(s.End()) && iter.Valid()
    ensures ok ==> s.End() == old(s.End()) && s.left <= old(s.left)
    ensures |m'| == Slots(d, |d|) && (ok ==> Tracks(words[..], seen') && Below(d, seen'))
    ensures ok ==> DecOne(d, t, old(s.Input()), m, seen) == DecLoop(d, s.Input(), m', seen')
    ensures !ok ==> DecOne(d, t, old(s.Input()), m, seen).None?
    decreases s.left, 4
  {
    hide DecLoop, WellFormed, Slots, ReqCount, Tracks, Below, DecField, Skip, Find;
    m', seen' := m, seen;
    var found := iter.Find(t / 8);
    if !found {
      NotFound(d, t / 8);
      ok := SkipField(s, t % 8);
      return;
    }
    if |d| == 0 {
      return false, m, seen; // the terminator reads as an integer of size 0
    }
    ghost var i := iter.pos;
    FindIs(d, i, t / 8);
    FieldsSound(d, i);
    if d[iter.pos].htype == Required && iter.requiredIndex < PB_MAX_REQUIRED_FIELDS {
      MarkSeen(words, iter.requiredIndex, seen);
    } else {
      assert seen + {} == seen;
    }
    seen' := seen + SeenBit(d, i);
    BitBelow(d, i, seen);
    var c;
    ok, c := DecodeField(s, d[iter.pos], t % 8, m[iter.slot]);
    if ok {
      m' := m[iter.slot := c];
    }
  }

  lemma NotFound(d: seq<Field>, tag: nat)
    requires !exists i :: 0 <= i < |d| && d[i].tag == tag
    ensures Find(d, tag).None?
  {
  }

  /** The loop of `pb_decode_noinit`: until the input ends or a zero tag is read. */
  method DecodeFields(s: IStream, d: seq<Field>, m0: seq<Cell>, iter: FieldIter, words: array<nat>)
    returns (ok: bool, m: seq<Cell>, ghost seen: set<nat>)
    requires s.Valid() && WellFormed(d) && |m0| == Slots(d, |d|)
    requires iter.Valid() && iter.fields == d && Tracks(words[..], {})
    modifies s, iter, words
    ensures s.Valid() && s.End() <= old(s.End()) && (ok ==> s.End() == old(s.End())) && iter.Valid()
    ensures ok == DecLoop(d, old(s.Input()), m0, {}).Some?
    ensures ok ==> DecLoop(d, old(s.Input()), m0, {}).value == Progress(m, seen, s.Input())
    ensures ok ==> Tracks(words[..], seen) && Below(d, seen)
    decreases s.left, 5
  {
    hide DecOne, WellFormed, Slots, Tracks, Below, Decode32;
    ok, m, seen := true, m0, {};
    NoneBelow(d);
    ghost var whole := DecLoop(d, s.Input(), m0, {});
    var stop := false;
    while s.left > 0 && !stop
      invariant s.Valid() && s.End() == old(s.End()) && iter.Valid() && s.left <= old(s.left)
      invariant |m| == Slots(d, |d|) && Tracks(words[..], seen) && Below(d, seen)
      invariant whole == if stop then Some(Progress(m, seen, s.Input())) else DecLoop(d, s.Input(), m, seen)
      decreases !stop, s.left
    {
      var t, eof;
      ok, t, eof := DecodeVarint32(s);
      if !ok {
        return;
      }
      if t == 0 {
        stop := true;
      } else {
        ok, m, seen := DecodeOneField(s, d, t, m, iter, words, seen);
        if !ok {
          return;
        }
      }
    }
  }

  lemma NoneBelow(d: seq<Field>)
    ensures Below(d, {})
  {
  }

  /** `pb_decode_noinit` */
  method DecodeMessage(s: IStream, d: seq<Field>, m0: seq<Cell>) returns (ok: bool, m: seq<Cell>)
    requires s.Valid() && WellFormed(d) && |m0| == Slots(d, |d|)
    modifies s
    ensures s.Valid() && s.End() <= old(s.End()) && (ok ==> s.End() == old(s.End()))
    ensures ok == DecMsg(d, old(s.Input()), m0).Some?
    ensures ok ==> DecMsg(d, old(s.Input()), m0).value == (m, s.Input())
    decreases s.left, 6
  {
    hide DecLoop, WellFormed, Slots, ReqCount, AllSeen, Tracks, HasBit;
    var words := new nat[2](_ => 0);
    assert words[..] == [0, 0];
    NothingSeen();
    ghost var seen;
    var iter := new FieldIter.Begin(d);
    ok, m, seen := DecodeFields(s, d, m0, iter, words);
    if !ok {
      return;
    }
    var count := CountRequired(iter);
    count := if count > PB_MAX_REQUIRED_FIELDS then PB_MAX_REQUIRED_FIELDS else count;
    ok := CheckSeen(words, count, seen);
    SeenCheck(d, seen, count);
  }

  /** `pb_decode` */
  method DecodeFresh(s: IStream, d: seq<Field>) returns (ok: bool, m: seq<Cell>)
    requires s.Valid() && WellFormed(d)
    modifies s
    ensures s.Valid() && ok == Decode(d, old(s.Input())).Some?
    ensures ok ==> Decode(d, old(s.Input())).value == (m, s.Input())
  {
    hide DecMsg, WellFormed, Slots, DefaultsUpTo;
    m := SetToDefaults(d);
    ok, m := DecodeMessage(s, d, m);
  }

  lemma SeenCheck(d: seq<Field>, seen: set<nat>, count: nat)
    requires count == Min(ReqCount(d, |d|), PB_MAX_REQUIRED_FIELDS)
    ensures AllSeen(d, seen) <==> forall k :: 0 <= k < count ==> k in seen
  {
    hide ReqCount;
  }
}
